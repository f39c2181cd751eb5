/** The ending of one story: its lifecycle row, the transcript and narrative clock it is bound to, and the triggers
    between them (bridge/ending_*.py, closed_story_schema.py, finale_checkpoint_schema.py, director_schema.py,
    narrative_runtime_schema.py). Each transaction is one step; an aborted one leaves the state as it was. */
module Ending {

  datatype Option<+T> = None | Some(value: T)

  // ---- Rows ----

  datatype Lifecycle =
    Open | FinaleReady | Finale | ResolutionCommitted | EpiloguePending | EpilogueCommitted | Closed
  {
    function Rank(): nat {
      match this
      case Open => 0
      case FinaleReady => 1
      case Finale => 2
      case ResolutionCommitted => 3
      case EpiloguePending => 4
      case EpilogueCommitted => 5
      case Closed => 6
    }

    predicate Closing() { Rank() >= 3 }
  }

  /** validate_ending_transition: the neighbouring states in order, and the way back from readiness. */
  predicate Permitted(before: Lifecycle, after: Lifecycle) {
    after.Rank() == before.Rank() + 1 || (before == FinaleReady && after == Open)
  }

  datatype Message = Message(role: string, content: string)

  type Transcript = map<nat, Message>

  /** narrative_state, with the zeros its absent row stands for. */
  datatype Clock = Clock(
    stateRevision: nat, historyRevision: nat, rewriteRevision: nat, reconciledRevision: nat,
    updatedThrough: nat, invalidatedFrom: Option<nat>, developed: bool)
  {
    /** The message triggers: every change advances state and history; a change with a boundary lowers the
        invalidation mark to it. */
    function Advance(boundary: Option<nat>, rewrites: bool): Clock {
      this.(stateRevision := stateRevision + 1,
            historyRevision := historyRevision + 1,
            rewriteRevision := rewriteRevision + (if rewrites then 1 else 0),
            invalidatedFrom :=
              if boundary.None? then invalidatedFrom
              else if invalidatedFrom.None? || boundary.value < invalidatedFrom.value then boundary
              else invalidatedFrom)
    }
  }

  /** narrative_settings: the stored text and the two of its fields the ending reads; revision -1 stands for the absent
      row. */
  datatype Settings = Settings(json: string, closedStory: bool, confirm: bool, revision: int)

  datatype Stage = NoStage | Brief | StoryStage | CommitEpilogueStage | ReconcileStage

  datatype EndingRow = EndingRow(
    lifecycle: Lifecycle,
    lifecycleRevision: nat,
    goal: string,
    goalRevision: nat,
    readyRevision: Option<nat>,
    readyHistory: Option<nat>,
    readySettings: Option<int>,
    readyRewrite: Option<nat>,
    readyThrough: Option<nat>,
    checkpointThrough: Option<nat>,
    operationId: string,
    finaleRow: Option<nat>,
    resolutionRow: Option<nat>,
    epilogueRow: Option<nat>,
    workToken: string,
    workStarted: int,
    workStage: Stage)
  {
    function WithoutReadiness(): EndingRow {
      this.(lifecycle := Open, readyRevision := None, readyHistory := None, readySettings := None,
            readyRewrite := None, readyThrough := None)
    }

    /** The readiness triggers. */
    function Invalidated(): EndingRow {
      if lifecycle == FinaleReady then WithoutReadiness().(lifecycleRevision := lifecycleRevision + 1) else this
    }

    /** The finale triggers, which record row r as the finale's latest. */
    function FinaleAt(r: Option<nat>): EndingRow {
      if lifecycle == Finale then this.(finaleRow := r, lifecycleRevision := lifecycleRevision + 1) else this
    }
  }

  datatype GoalChange = GoalChange(revision: nat, previous: string, next: string)

  const GOAL_HISTORY_LIMIT: nat := 100
  const WORK_LEASE: int := 600

  const NO_ENDING := EndingRow(Open, 0, "", 0, None, None, None, None, None, None, "", None, None, None, "", 0, NoStage)

  /** One session. nextId bounds the AUTOINCREMENT row ids handed out so far, in every session. */
  datatype State = State(
    messages: Transcript, nextId: nat, clock: Clock, settings: Settings, ending: EndingRow, goals: seq<GoalChange>)

  const NEW_STORY := State(map[], 1, Clock(0, 0, 0, 0, 0, None, false), Settings("", false, false, -1), NO_ENDING, [])

  // ---- Queries ----

  /** MAX(id) over the session, 0 when empty. */
  function LatestBelow(m: Transcript, bound: nat): (r: nat)
    ensures r == 0 || (r in m && r < bound)
    ensures forall id :: id in m && id < bound ==> id <= r
  {
    if bound == 0 then 0 else if bound - 1 in m then bound - 1 else LatestBelow(m, bound - 1)
  }

  function Latest(s: State): nat { LatestBelow(s.messages, s.nextId) }

  predicate IsAssistant(m: Transcript, id: nat) {
    id in m && m[id].role == "assistant"
  }

  /** MAX(id) of the assistant rows after the checkpoint, NULL when there is none. */
  function LastAssistantBelow(m: Transcript, after: nat, bound: nat): (r: Option<nat>)
    ensures r.Some? ==> after < r.value < bound && IsAssistant(m, r.value)
    ensures forall id :: after < id < bound && IsAssistant(m, id) ==> r.Some? && id <= r.value
  {
    if bound <= after + 1 then None
    else if IsAssistant(m, bound - 1) then Some(bound - 1)
    else LastAssistantBelow(m, after, bound - 1)
  }

  function LastAssistant(m: Transcript, checkpoint: Option<nat>, bound: nat): Option<nat> {
    if checkpoint.None? then None else LastAssistantBelow(m, checkpoint.value, bound)
  }

  /** require_current_ending_facts. */
  predicate FactsCurrent(s: State) {
    && s.clock.invalidatedFrom.None?
    && s.clock.reconciledRevision == s.clock.historyRevision
    && s.clock.updatedThrough >= Latest(s)
    && Latest(s) != 0
  }

  // ---- Transcript statements with their triggers ----

  predicate InPrefix(e: EndingRow, id: nat) {
    e.checkpointThrough.Some? && id <= e.checkpointThrough.value
  }

  /** INSERT with a fresh id. */
  function Insert(s: State, role: string, content: string): State {
    var id := s.nextId;
    if s.ending.lifecycle.Closing()
         && !(role == "assistant" && s.ending.lifecycle == EpiloguePending
              && s.ending.workStage == CommitEpilogueStage && s.ending.workToken != "") then s
    else
      var e := s.ending.Invalidated();
      s.(messages := s.messages[id := Message(role, content)],
         nextId := id + 1,
         clock := s.clock.Advance(if id <= s.clock.updatedThrough then Some(id) else None, id <= s.clock.updatedThrough),
         ending := if role == "assistant" then e.FinaleAt(Some(id)) else e)
  }

  /** UPDATE of a row's text or role, and, when leaves, of its session too. */
  function Edit(s: State, id: nat, role: string, content: string, leaves: bool): State {
    if id !in s.messages then s
    else if s.messages[id] == Message(role, content) && !leaves then s
    else if s.ending.lifecycle.Closing() || InPrefix(s.ending, id) then s
    else
      var was := s.messages[id];
      var m := if leaves then s.messages - {id} else s.messages[id := Message(role, content)];
      var e := s.ending.Invalidated();
      s.(messages := m,
         clock := s.clock.Advance(Some(id), true),
         ending := if was != Message(role, content) && (role == "assistant" || was.role == "assistant")
                   then e.FinaleAt(LastAssistant(m, e.checkpointThrough, s.nextId)) else e)
  }

  /** UPDATE that brings an existing row of another session here; its own session's guards let it go. */
  function Arrive(s: State, id: nat, role: string, content: string): State {
    if id == 0 || id >= s.nextId || id in s.messages || s.ending.lifecycle.Closing() then s
    else
      s.(messages := s.messages[id := Message(role, content)],
         clock := s.clock.Advance(Some(id), true),
         ending := s.ending.Invalidated())
  }

  function Delete(s: State, id: nat): State {
    if id !in s.messages || s.ending.lifecycle.Closing() || InPrefix(s.ending, id) then s
    else
      var m := s.messages - {id};
      var e := s.ending.Invalidated();
      s.(messages := m,
         clock := s.clock.Advance(Some(id), true),
         ending := if s.messages[id].role == "assistant"
                   then e.FinaleAt(LastAssistant(m, e.checkpointThrough, s.nextId)) else e)
  }

  // ---- Settings and reconciliation ----

  /** save_session_narrative_settings: mode and confirmation are locked in the finale; the readiness trigger compares the
      stored text only. */
  function SaveSettings(s: State, json: string, closedStory: bool, confirm: bool): State {
    if s.ending.lifecycle.Closing() then s
    else if s.ending.lifecycle == Finale && (s.settings.closedStory != closedStory || s.settings.confirm != confirm) then s
    else if s.settings.revision == -1 then s.(settings := Settings(json, closedStory, confirm, 0))
    else s.(settings := Settings(json, closedStory, confirm, s.settings.revision + 1),
            ending := if json != s.settings.json then s.ending.Invalidated() else s.ending)
  }

  /** An accepted reconciliation through row `through`. */
  function Reconcile(s: State, through: nat, developed: bool): State {
    if s.ending.lifecycle == Closed || (s.clock.updatedThrough > through && s.clock.invalidatedFrom.None?) then s
    else s.(clock := s.clock.(stateRevision := s.clock.stateRevision + 1,
                              reconciledRevision := s.clock.historyRevision,
                              updatedThrough := through, invalidatedFrom := None, developed := developed))
  }

  // ---- Ending operations ----

  /** The revisions a caller read before its transaction (ending_source). */
  datatype Expected = Expected(story: nat, lifecycle: nat, goal: nat)

  predicate Matches(s: State, x: Expected) {
    x.story == s.clock.stateRevision && x.lifecycle == s.ending.lifecycleRevision && x.goal == s.ending.goalRevision
  }

  /** publish_ending_state: a permitted edge, then the compare-and-set on the row's revision. */
  function Publish(s: State, before: EndingRow, changed: EndingRow): State {
    if changed.lifecycle != before.lifecycle && !Permitted(before.lifecycle, changed.lifecycle) then s
    else if s.ending.lifecycleRevision != before.lifecycleRevision then s
    else if s.ending.lifecycle == Closed && Frozen(changed) != Frozen(s.ending) then s
    else s.(ending := changed.(lifecycleRevision := s.ending.lifecycleRevision + 1))
  }

  /** The columns a completed ending may not change. */
  function Frozen(e: EndingRow): (Lifecycle, string, nat, Option<nat>, string, Option<nat>, Option<nat>, Option<nat>) {
    (e.lifecycle, e.goal, e.goalRevision, e.checkpointThrough, e.operationId, e.finaleRow, e.resolutionRow, e.epilogueRow)
  }

  function Keep(goals: seq<GoalChange>): seq<GoalChange> {
    if |goals| <= GOAL_HISTORY_LIMIT then goals else goals[|goals| - GOAL_HISTORY_LIMIT..]
  }

  function SetGoal(s: State, goal: string, byDirector: bool, x: Expected): State {
    if |goal| > 4000 || !Matches(s, x) then s
    else if s.ending.lifecycle != Open && s.ending.lifecycle != FinaleReady then s
    else if byDirector && (!FactsCurrent(s) || !s.settings.closedStory) then s
    else if s.ending.goal == goal then s
    else
      var e := s.ending.WithoutReadiness().(goal := goal, goalRevision := s.ending.goalRevision + 1);
      Publish(s, s.ending, e).(goals := Keep(s.goals + [GoalChange(e.goalRevision, s.ending.goal, goal)]))
  }

  const MAX_ARCS: nat := 128

  /** mark_finale_ready; arcs is how many major or required arcs are unresolved. */
  function MarkReady(s: State, x: Expected, arcs: nat): State {
    if !Matches(s, x) || !FactsCurrent(s) || !s.settings.closedStory || !s.clock.developed
       || s.ending.lifecycle != Open || arcs > MAX_ARCS then s
    else Publish(s, s.ending, s.ending.(
      lifecycle := FinaleReady,
      readyRevision := Some(x.story),
      readyHistory := Some(s.clock.historyRevision),
      readyRewrite := Some(s.clock.rewriteRevision),
      readySettings := Some(s.settings.revision),
      readyThrough := Some(Latest(s))))
  }

  function WithdrawReady(s: State): State {
    if s.ending.lifecycle != FinaleReady then s else Publish(s, s.ending, s.ending.WithoutReadiness())
  }

  /** create_pre_finale_checkpoint_and_enter. */
  function EnterFinale(s: State, x: Expected, operation: string): State {
    if s.ending.lifecycle != FinaleReady || !Matches(s, x) || !FactsCurrent(s) then s
    else if s.ending.readyRevision != Some(s.clock.stateRevision)
         || s.ending.readyHistory != Some(s.clock.historyRevision)
         || s.ending.readySettings != Some(s.settings.revision)
         || s.ending.readyRewrite != Some(s.clock.rewriteRevision)
         || s.ending.readyThrough != Some(Latest(s))
         || !s.settings.closedStory then s
    else Publish(s, s.ending, s.ending.(
      lifecycle := Finale, checkpointThrough := Some(Latest(s)), operationId := operation))
  }

  /** reconcile_finale_outcome: evidence rows are assistant rows of the reconciled span, arcsOpen says whether a
      major or required arc is still unresolved. */
  function ResolveFinale(s: State, evidence: seq<nat>, through: nat, inResolution: bool, arcsOpen: bool): State {
    if s.ending.lifecycle != Finale || through < Latest(s) || !FactsCurrent(s) || !inResolution
       || s.ending.finaleRow.None? || arcsOpen then s
    else if exists i :: 0 <= i < |evidence| && !IsAssistant(s.messages, evidence[i]) then s
    else if s.ending.finaleRow.value !in evidence then s
    else Publish(s, s.ending, s.ending.(lifecycle := ResolutionCommitted, resolutionRow := s.ending.finaleRow))
  }

  function ClaimWork(s: State, token: string, now: int): State {
    if s.ending.lifecycle.Closing() && (s.ending.workToken == "" || s.ending.workStarted < now - WORK_LEASE)
    then s.(ending := s.ending.(workToken := token, workStarted := now))
    else s
  }

  function ReleaseWork(s: State, token: string): State {
    if s.ending.workToken == token
    then s.(ending := s.ending.(workToken := "", workStarted := 0, workStage := NoStage))
    else s
  }

  /** mark_ending_work_stage, as the brief and story stages use it. */
  function StageWork(s: State, token: string, story: bool): State {
    if s.ending.workToken == token then s.(ending := s.ending.(workStage := if story then StoryStage else Brief)) else s
  }

  function BeginEpilogue(s: State, lifecycleRevision: nat): State {
    if s.ending.lifecycle != ResolutionCommitted || s.ending.lifecycleRevision != lifecycleRevision
       || s.ending.resolutionRow.None? || !FactsCurrent(s) || !IsAssistant(s.messages, s.ending.resolutionRow.value)
    then s
    else Publish(s, s.ending, s.ending.(lifecycle := EpiloguePending))
  }

  /** Publishing the planned brief: a revision of the same state, by the worker that owns the lease, if the
      source it read is still current (_require_work). */
  function SaveBrief(s: State, token: string, lifecycleRevision: nat, source: Clock): State {
    if s.ending.workToken != token || s.clock != source || s.ending.lifecycleRevision != lifecycleRevision
       || s.ending.lifecycle != EpiloguePending then s
    else Publish(s, s.ending, s.ending)
  }

  /** The transaction that stages, appends and publishes the epilogue (epilogue_service.py lines 229-245). */
  function CommitEpilogue(s: State, token: string, lifecycleRevision: nat, source: Clock, content: string): State {
    if s.ending.workToken != token || token == "" || s.clock != source || s.ending.lifecycleRevision != lifecycleRevision
       || s.ending.lifecycle != EpiloguePending || s.ending.epilogueRow.Some? then s
    else
      var staged := s.(ending := s.ending.(workStage := CommitEpilogueStage));
      var inserted := Insert(staged, "assistant", content);
      if inserted == staged then s
      else Publish(inserted, s.ending, s.ending.(
        lifecycle := EpilogueCommitted, epilogueRow := Some(s.nextId), workStage := ReconcileStage))
  }

  function CloseStory(s: State, token: string): State {
    if s.ending.lifecycle != EpilogueCommitted || s.ending.epilogueRow.None? || s.ending.workToken != token
       || !FactsCurrent(s) || !IsAssistant(s.messages, s.ending.epilogueRow.value)
       || Latest(s) != s.ending.epilogueRow.value then s
    else
      Publish(s.(clock := s.clock.(stateRevision := s.clock.stateRevision + 1)),
              s.ending, s.ending.(lifecycle := Closed))
  }

  // ---- Runs ----

  datatype Step =
    | DoInsert(role: string, content: string)
    | DoEdit(id: nat, role: string, content: string, leaves: bool)
    | DoArrive(id: nat, role: string, content: string)
    | DoDelete(id: nat)
    | DoSaveSettings(json: string, closedStory: bool, confirm: bool)
    | DoReconcile(through: nat, developed: bool)
    | DoSetGoal(goal: string, byDirector: bool, expected: Expected)
    | DoMarkReady(expected: Expected, arcs: nat)
    | DoWithdrawReady
    | DoEnterFinale(expected: Expected, operation: string)
    | DoResolveFinale(evidence: seq<nat>, through: nat, inResolution: bool, arcsOpen: bool)
    | DoClaimWork(token: string, now: int)
    | DoReleaseWork(token: string)
    | DoStageWork(token: string, story: bool)
    | DoBeginEpilogue(revision: nat)
    | DoSaveBrief(token: string, revision: nat, source: Clock)
    | DoCommitEpilogue(token: string, revision: nat, source: Clock, content: string)
    | DoCloseStory(token: string)
    | OtherSessionInsert

  function Next(s: State, a: Step): State {
    match a
    case DoInsert(role, content) => Insert(s, role, content)
    case DoEdit(id, role, content, leaves) => Edit(s, id, role, content, leaves)
    case DoArrive(id, role, content) => Arrive(s, id, role, content)
    case DoDelete(id) => Delete(s, id)
    case DoSaveSettings(json, closedStory, confirm) => SaveSettings(s, json, closedStory, confirm)
    case DoReconcile(through, developed) => Reconcile(s, through, developed)
    case DoSetGoal(goal, byDirector, x) => SetGoal(s, goal, byDirector, x)
    case DoMarkReady(x, arcs) => MarkReady(s, x, arcs)
    case DoWithdrawReady => WithdrawReady(s)
    case DoEnterFinale(x, op) => EnterFinale(s, x, op)
    case DoResolveFinale(evidence, through, inResolution, arcsOpen) =>
      ResolveFinale(s, evidence, through, inResolution, arcsOpen)
    case DoClaimWork(token, now) => ClaimWork(s, token, now)
    case DoReleaseWork(token) => ReleaseWork(s, token)
    case DoStageWork(token, story) => StageWork(s, token, story)
    case DoBeginEpilogue(revision) => BeginEpilogue(s, revision)
    case DoSaveBrief(token, revision, source) => SaveBrief(s, token, revision, source)
    case DoCommitEpilogue(token, revision, source, content) => CommitEpilogue(s, token, revision, source, content)
    case DoCloseStory(token) => CloseStory(s, token)
    case OtherSessionInsert => s.(nextId := s.nextId + 1)
  }

  function Run(s: State, steps: seq<Step>): State
    decreases |steps|
  {
    if steps == [] then s else Run(Next(s, steps[0]), steps[1..])
  }
}
