/** What every run of a story's ending keeps. */
module EndingProofs {
  import opened Ending

  // ---- The invariant ----

  ghost predicate RowsInRange(s: State) {
    && s.nextId > 0
    && (forall id :: id in s.messages ==> 0 < id < s.nextId)
    && (s.ending.checkpointThrough.Some? ==> s.ending.checkpointThrough.value < s.nextId)
  }

  /** Which identities each lifecycle has. */
  ghost predicate Staged(e: EndingRow) {
    && (e.checkpointThrough.Some? <==> e.lifecycle.Rank() >= 2)
    && (e.lifecycle.Rank() < 2 ==> e.finaleRow.None?)
    && (e.resolutionRow.Some? <==> e.lifecycle.Rank() >= 3)
    && (e.lifecycle.Rank() >= 3 ==> e.resolutionRow == e.finaleRow)
    && (e.epilogueRow.Some? <==> e.lifecycle.Rank() >= 5)
    && e.workStage != CommitEpilogueStage
  }

  /** Readiness quotes the live clock. */
  ghost predicate ReadyIsCurrent(s: State) {
    s.ending.lifecycle == FinaleReady ==>
      && s.ending.readyHistory == Some(s.clock.historyRevision)
      && s.ending.readyRewrite == Some(s.clock.rewriteRevision)
      && s.ending.readyThrough == Some(Latest(s))
  }

  /** Consecutive goal changes, the newest giving the current goal; at most the last hundred are kept. */
  ghost predicate Chain(goals: seq<GoalChange>, revision: nat, goal: string) {
    && |goals| == (if revision <= GOAL_HISTORY_LIMIT then revision else GOAL_HISTORY_LIMIT)
    && (forall i :: 0 <= i < |goals| ==> goals[i].revision == revision - |goals| + 1 + i)
    && (forall i :: 0 < i < |goals| ==> goals[i].previous == goals[i - 1].next)
    && (if goals == [] then goal == "" else goals[|goals| - 1].next == goal)
  }

  /** The accepted resolution is an assistant row after the checkpoint. */
  ghost predicate Resolved(s: State) {
    s.ending.lifecycle.Closing() ==>
      && s.ending.resolutionRow.Some? && s.ending.checkpointThrough.Some?
      && s.ending.checkpointThrough.value < s.ending.resolutionRow.value
      && IsAssistant(s.messages, s.ending.resolutionRow.value)
      && (s.ending.epilogueRow.Some? ==>
            && IsAssistant(s.messages, s.ending.epilogueRow.value)
            && s.ending.resolutionRow.value < s.ending.epilogueRow.value
            && s.ending.epilogueRow.value == Latest(s))
  }

  /** A recorded finale row is a committed assistant row after the checkpoint. */
  ghost predicate FinaleRowIsReal(s: State) {
    s.ending.lifecycle == Finale && s.ending.finaleRow.Some? ==>
      s.ending.checkpointThrough.Some? && s.ending.checkpointThrough.value < s.ending.finaleRow.value
  }

  ghost predicate Inv(s: State) {
    RowsInRange(s) && Staged(s.ending) && ReadyIsCurrent(s) && Chain(s.goals, s.ending.goalRevision, s.ending.goal) && FinaleRowIsReal(s) && Resolved(s)
  }

  /** The latest row is determined by the rows, whatever bound above them it is searched from. */
  lemma LatestIs(m: Transcript, bound: nat, r: nat)
    requires forall id :: id in m ==> 0 < id < bound
    requires (r == 0 && m == map[]) || (r in m && forall id :: id in m ==> id <= r)
    ensures LatestBelow(m, bound) == r
  {
    var l := LatestBelow(m, bound);
    if r in m {
      assert r <= l;
    }
  }

  lemma RowsInRangeNext(s: State, a: Step)
    requires RowsInRange(s)
    ensures RowsInRange(Next(s, a))
  {
    var l := Latest(s);
  }

  lemma StagedNext(s: State, a: Step)
    requires Staged(s.ending)
    ensures Staged(Next(s, a).ending)
  {
  }

  lemma ReadyIsCurrentNext(s: State, a: Step)
    requires RowsInRange(s) && ReadyIsCurrent(s)
    ensures ReadyIsCurrent(Next(s, a))
  {
    match a
    case OtherSessionInsert =>
      var s' := Next(s, a);
      assert LatestBelow(s.messages, s.nextId + 1) == LatestBelow(s.messages, s.nextId);
    case _ =>
  }

  /** Only a goal change touches the goal and its history. */
  lemma GoalKept(s: State, a: Step)
    requires !a.DoSetGoal?
    ensures var s' := Next(s, a);
      s'.goals == s.goals && s'.ending.goal == s.ending.goal && s'.ending.goalRevision == s.ending.goalRevision
  {
  }

  lemma SetGoalEffect(s: State, goal: string, byDirector: bool, x: Expected)
    ensures var s' := SetGoal(s, goal, byDirector, x);
      || s' == s
      || (&& s.ending.lifecycle.Rank() < 2 && s'.ending.lifecycle == Open
          && s'.ending.goal == goal && s'.ending.goalRevision == s.ending.goalRevision + 1
          && s'.goals == Keep(s.goals + [GoalChange(s.ending.goalRevision + 1, s.ending.goal, goal)]))
  {
  }

  /** A chain one longer, before retention. */
  lemma ChainAppend(goals: seq<GoalChange>, revision: nat, goal: string, next: string)
    requires Chain(goals, revision, goal)
    ensures var out := goals + [GoalChange(revision + 1, goal, next)];
      && (forall i :: 0 <= i < |out| ==> out[i].revision == revision + 1 - |out| + 1 + i)
      && (forall i :: 0 < i < |out| ==> out[i].previous == out[i - 1].next)
  {
  }

  /** Retention cuts the oldest entries and keeps the rest a chain. */
  lemma ChainCut(out: seq<GoalChange>, revision: nat, n: nat)
    requires n <= |out|
    requires forall i :: 0 <= i < |out| ==> out[i].revision == revision - |out| + 1 + i
    requires forall i :: 0 < i < |out| ==> out[i].previous == out[i - 1].next
    ensures var kept := out[|out| - n..];
      && (forall i :: 0 <= i < n ==> kept[i].revision == revision - n + 1 + i)
      && (forall i :: 0 < i < n ==> kept[i].previous == kept[i - 1].next)
  {
    var d := |out| - n;
    var kept := out[d..];
    forall i | 0 < i < n ensures kept[i].previous == kept[i - 1].next {
      assert kept[i] == out[d + i] && kept[i - 1] == out[d + i - 1];
    }
  }

  lemma ChainGrows(goals: seq<GoalChange>, revision: nat, goal: string, next: string)
    requires Chain(goals, revision, goal)
    ensures Chain(Keep(goals + [GoalChange(revision + 1, goal, next)]), revision + 1, next)
  {
    var out := goals + [GoalChange(revision + 1, goal, next)];
    ChainAppend(goals, revision, goal, next);
    if |out| > GOAL_HISTORY_LIMIT {
      ChainCut(out, revision + 1, GOAL_HISTORY_LIMIT);
    }
  }

  lemma ChainNext(s: State, a: Step)
    requires Chain(s.goals, s.ending.goalRevision, s.ending.goal)
    ensures var s' := Next(s, a); Chain(s'.goals, s'.ending.goalRevision, s'.ending.goal)
  {
    if a.DoSetGoal? {
      SetGoalEffect(s, a.goal, a.byDirector, a.expected);
      ChainGrows(s.goals, s.ending.goalRevision, s.ending.goal, a.goal);
    } else {
      GoalKept(s, a);
    }
  }

  lemma FinaleRowIsRealNext(s: State, a: Step)
    requires RowsInRange(s) && Staged(s.ending) && FinaleRowIsReal(s)
    ensures FinaleRowIsReal(Next(s, a))
  {
  }

  /** In a closing state the transcript changes only by the one transaction that commits the epilogue. */
  lemma ClosingTranscript(s: State, a: Step)
    requires s.ending.lifecycle.Closing() && Staged(s.ending) && RowsInRange(s)
    ensures var s' := Next(s, a);
      && (s'.messages != s.messages ==>
            && a.DoCommitEpilogue? && s.ending.lifecycle == EpiloguePending
            && s.ending.workToken == a.token && a.token != ""
            && s'.ending.lifecycle == EpilogueCommitted && s'.ending.epilogueRow == Some(s.nextId)
            && s'.messages == s.messages[s.nextId := Message("assistant", a.content)])
      && (s'.messages == s.messages ==> s'.ending.epilogueRow == s.ending.epilogueRow)
      && s'.ending.lifecycle.Closing()
      && s'.ending.resolutionRow == s.ending.resolutionRow
      && s'.ending.checkpointThrough == s.ending.checkpointThrough
      && s'.nextId >= s.nextId
  {
    var s' := Next(s, a);
    assert s.nextId !in s.messages;
    assert s'.ending.epilogueRow != s.ending.epilogueRow ==> s.nextId in s'.messages;
  }

  lemma ResolvedNext(s: State, a: Step)
    requires RowsInRange(s) && Staged(s.ending) && FinaleRowIsReal(s) && Resolved(s)
    ensures Resolved(Next(s, a))
  {
    if s.ending.lifecycle.Closing() {
      ResolvedStays(s, a);
    } else {
      ResolvedComes(s, a);
    }
  }

  lemma ResolvedStays(s: State, a: Step)
    requires RowsInRange(s) && Staged(s.ending) && Resolved(s) && s.ending.lifecycle.Closing()
    ensures Resolved(Next(s, a))
  {
    var s' := Next(s, a);
    RowsInRangeNext(s, a);
    ClosingTranscript(s, a);
    if s'.ending.epilogueRow.Some? {
      LatestIs(s'.messages, s'.nextId, s'.ending.epilogueRow.value);
    }
  }

  lemma ResolvedComes(s: State, a: Step)
    requires RowsInRange(s) && Staged(s.ending) && FinaleRowIsReal(s) && !s.ending.lifecycle.Closing()
    ensures Resolved(Next(s, a))
  {
  }

  lemma InvAtStart()
    ensures Inv(NEW_STORY)
  {
  }

  lemma InvNext(s: State, a: Step)
    requires Inv(s)
    ensures Inv(Next(s, a))
  {
    RowsInRangeNext(s, a);
    StagedNext(s, a);
    ReadyIsCurrentNext(s, a);
    ChainNext(s, a);
    FinaleRowIsRealNext(s, a);
    ResolvedNext(s, a);
  }

  lemma {:induction false} InvAlways(s: State, steps: seq<Step>)
    requires Inv(s)
    ensures Inv(Run(s, steps))
    decreases |steps|
  {
    if steps != [] {
      InvNext(s, steps[0]);
      InvAlways(Next(s, steps[0]), steps[1..]);
    }
  }

  // ---- Readiness ----

  /** finale_ready always quotes the live history, rewrite and latest-row clocks, in every run. */
  lemma ReadinessIsCurrent(steps: seq<Step>)
    ensures ReadyIsCurrent(Run(NEW_STORY, steps))
  {
    InvAtStart();
    InvAlways(NEW_STORY, steps);
  }

  /** The lifecycle revision never goes back, and no step that changes a row, the settings text or the lifecycle of
      a ready story leaves it as it was. */
  lemma ReadyStep(s: State, a: Step)
    requires RowsInRange(s)
    ensures s.ending.lifecycleRevision <= Next(s, a).ending.lifecycleRevision
    ensures s.ending.lifecycle == FinaleReady && Next(s, a).ending.lifecycleRevision == s.ending.lifecycleRevision ==>
      && Next(s, a).messages == s.messages && Next(s, a).ending.lifecycle == FinaleReady
      && (s.settings.revision >= 0 ==> Next(s, a).settings.json == s.settings.json && Next(s, a).settings.revision >= 0)
  {
  }

  lemma {:induction false} RevisionGrows(s: State, steps: seq<Step>)
    requires RowsInRange(s)
    ensures s.ending.lifecycleRevision <= Run(s, steps).ending.lifecycleRevision
    decreases |steps|
  {
    if steps != [] {
      ReadyStep(s, steps[0]);
      RowsInRangeNext(s, steps[0]);
      RevisionGrows(Next(s, steps[0]), steps[1..]);
    }
  }

  /** While a story stays at the revision at which it became ready, it is still ready, and no message was inserted,
      edited, deleted or moved, and no settings text changed, however many transactions ran. */
  lemma {:induction false} ReadyFreezes(s: State, steps: seq<Step>)
    requires Inv(s) && s.ending.lifecycle == FinaleReady && s.settings.revision >= 0
    requires Run(s, steps).ending.lifecycleRevision == s.ending.lifecycleRevision
    ensures var s' := Run(s, steps);
      s'.ending.lifecycle == FinaleReady && s'.messages == s.messages && s'.settings.json == s.settings.json
    decreases |steps|
  {
    if steps != [] {
      var s1 := Next(s, steps[0]);
      ReadyStep(s, steps[0]);
      InvNext(s, steps[0]);
      RevisionGrows(s1, steps[1..]);
      ReadyFreezes(s1, steps[1..]);
    }
  }

  /** A ready story has a settings row: the default is open-ended. */
  ghost predicate ReadyHasSettings(s: State) {
    && (s.settings.revision == -1 ==> !s.settings.closedStory)
    && (s.ending.lifecycle == FinaleReady ==> s.settings.revision >= 0)
    && s.settings.revision >= -1
  }

  lemma ReadyHasSettingsNext(s: State, a: Step)
    requires ReadyHasSettings(s)
    ensures ReadyHasSettings(Next(s, a))
  {
  }

  /** Readiness was given for older settings. */
  ghost predicate StaleReadiness(s: State) {
    && s.settings.revision >= 0
    && (s.ending.lifecycle == Open
        || (s.ending.lifecycle == FinaleReady && s.ending.readySettings.Some?
            && s.ending.readySettings.value < s.settings.revision))
  }

  lemma StaleStep(s: State, a: Step)
    requires StaleReadiness(s) && !a.DoMarkReady?
    ensures StaleReadiness(Next(s, a))
  {
  }

  /** A run in which readiness is not marked anew. */
  predicate NotMarkedAgain(steps: seq<Step>) { forall i :: 0 <= i < |steps| ==> !steps[i].DoMarkReady? }

  /** Readiness given for older settings never starts a finale, in every run until readiness is marked anew. */
  lemma {:induction false} StaleNeverStarts(s: State, steps: seq<Step>)
    requires StaleReadiness(s) && NotMarkedAgain(steps)
    ensures StaleReadiness(Run(s, steps))
    decreases |steps|
  {
    if steps != [] {
      StaleStep(s, steps[0]);
      assert forall i :: 0 <= i < |steps[1..]| ==> steps[1..][i] == steps[i + 1];
      StaleNeverStarts(Next(s, steps[0]), steps[1..]);
    }
  }

  /** Saving settings in a ready story keeps it ready exactly when the text is the same; the settings revision moves all
      the same, and until readiness is marked anew no run from there reaches a finale. */
  lemma SavedSettingsAndReadiness(s: State, json: string, closedStory: bool, confirm: bool, later: seq<Step>)
    requires Inv(s) && ReadyHasSettings(s) && s.ending.lifecycle == FinaleReady
    requires s.ending.readySettings == Some(s.settings.revision) && NotMarkedAgain(later)
    ensures var s' := SaveSettings(s, json, closedStory, confirm);
      && (s'.ending.lifecycle == FinaleReady <==> json == s.settings.json)
      && s'.ending.readySettings != Some(s'.settings.revision)
      && (Run(s', later).ending.lifecycle == Open || Run(s', later).ending.lifecycle == FinaleReady)
  {
    StaleNeverStarts(SaveSettings(s, json, closedStory, confirm), later);
  }

  // ---- The finale row ----

  ghost predicate TracksFinale(s: State) {
    s.ending.lifecycle == Finale ==>
      s.ending.finaleRow == LastAssistant(s.messages, s.ending.checkpointThrough, s.nextId)
  }

  /** A move between sessions that the finale triggers do not see: they watch text and role, and only in the session
      a row leaves. It matters when the recorded row leaves unchanged, or when a later assistant row arrives. */
  ghost predicate MissedByTriggers(s: State, a: Step) {
    && s.ending.lifecycle == Finale
    && (match a
        case DoEdit(id, role, content, leaves) =>
          leaves && Some(id) == s.ending.finaleRow && id in s.messages && s.messages[id] == Message(role, content)
        case DoArrive(id, role, content) =>
          && role == "assistant" && id !in s.messages && id < s.nextId && !InPrefix(s.ending, id)
          && (s.ending.finaleRow.None? || s.ending.finaleRow.value < id)
        case _ => false)
  }

  /** r is the greatest assistant row after the checkpoint. */
  ghost predicate IsLast(m: Transcript, after: nat, bound: nat, r: Option<nat>) {
    && (r.Some? ==> after < r.value < bound && IsAssistant(m, r.value))
    && (forall id :: after < id < bound && IsAssistant(m, id) ==> r.Some? && id <= r.value)
  }

  lemma LastIsUnique(m: Transcript, after: nat, bound: nat, r: Option<nat>)
    requires IsLast(m, after, bound, r)
    ensures LastAssistantBelow(m, after, bound) == r
  {
    var l := LastAssistantBelow(m, after, bound);
    if r.Some? {
      assert IsAssistant(m, r.value);
    }
  }

  lemma EditInFinale(s: State, id: nat, role: string, content: string, leaves: bool, after: nat)
    requires Inv(s) && s.ending.lifecycle == Finale && s.ending.checkpointThrough == Some(after)
    requires IsLast(s.messages, after, s.nextId, s.ending.finaleRow)
    ensures var s' := Edit(s, id, role, content, leaves);
      && s'.ending.lifecycle == Finale && s'.ending.checkpointThrough == Some(after) && s'.nextId == s.nextId
      && (IsLast(s'.messages, after, s.nextId, s'.ending.finaleRow)
          <==> !MissedByTriggers(s, DoEdit(id, role, content, leaves)))
  {
    var s' := Edit(s, id, role, content, leaves);
    var r := s.ending.finaleRow;
    if s' != s && s'.ending.finaleRow == r {
      assert forall k :: k != id ==> (IsAssistant(s'.messages, k) <==> IsAssistant(s.messages, k));
      if r != Some(id) {
        assert r.Some? ==> IsAssistant(s'.messages, r.value);
        if !(IsAssistant(s.messages, id) || role == "assistant") {
          assert forall k :: IsAssistant(s'.messages, k) <==> IsAssistant(s.messages, k);
        }
      }
    }
  }

  lemma ArriveInFinale(s: State, id: nat, role: string, content: string, after: nat)
    requires Inv(s) && s.ending.lifecycle == Finale && s.ending.checkpointThrough == Some(after)
    requires IsLast(s.messages, after, s.nextId, s.ending.finaleRow)
    ensures var s' := Arrive(s, id, role, content);
      && s'.ending.lifecycle == Finale && s'.ending.checkpointThrough == Some(after) && s'.nextId == s.nextId
      && (IsLast(s'.messages, after, s.nextId, s'.ending.finaleRow)
          <==> !MissedByTriggers(s, DoArrive(id, role, content)))
  {
    var s' := Arrive(s, id, role, content);
    var r := s.ending.finaleRow;
    if s' != s {
      assert forall k :: k != id ==> (IsAssistant(s'.messages, k) <==> IsAssistant(s.messages, k));
      assert IsAssistant(s'.messages, id) <==> role == "assistant";
      assert r.Some? ==> IsAssistant(s'.messages, r.value);
    } else {
      assert !MissedByTriggers(s, DoArrive(id, role, content)) by {
        if id == 0 { assert InPrefix(s.ending, id); }
      }
    }
  }

  /** The other steps of a finale that stays one. */
  lemma OtherInFinale(s: State, a: Step, after: nat)
    requires Inv(s) && s.ending.lifecycle == Finale && s.ending.checkpointThrough == Some(after)
    requires IsLast(s.messages, after, s.nextId, s.ending.finaleRow)
    requires !a.DoEdit? && !a.DoArrive? && Next(s, a).ending.lifecycle == Finale
    ensures var s' := Next(s, a);
      && s'.ending.checkpointThrough == Some(after)
      && IsLast(s'.messages, after, s'.nextId, s'.ending.finaleRow)
  {
    match a
    case DoInsert(role, content) =>
      var s' := Next(s, a);
      assert forall k :: k != s.nextId ==> (IsAssistant(s'.messages, k) <==> IsAssistant(s.messages, k));
      assert IsAssistant(s'.messages, s.nextId) <==> role == "assistant";
    case DoDelete(id) =>
      var s' := Next(s, a);
      assert forall k :: k != id ==> (IsAssistant(s'.messages, k) <==> IsAssistant(s.messages, k));
    case _ =>
  }

  lemma EntersTracked(s: State, a: Step)
    requires Inv(s) && s.ending.lifecycle != Finale
    ensures TracksFinale(Next(s, a))
  {
    var s' := Next(s, a);
    if s'.ending.lifecycle == Finale {
      LastIsUnique(s.messages, Latest(s), s.nextId, None);
    }
  }

  lemma StaysTracked(s: State, a: Step)
    requires Inv(s) && s.ending.lifecycle == Finale && Next(s, a).ending.lifecycle == Finale
    requires IsLast(s.messages, s.ending.checkpointThrough.value, s.nextId, s.ending.finaleRow)
    ensures var s' := Next(s, a);
      && s'.ending.checkpointThrough == s.ending.checkpointThrough
      && (IsLast(s'.messages, s.ending.checkpointThrough.value, s'.nextId, s'.ending.finaleRow)
          <==> !MissedByTriggers(s, a))
  {
    var after := s.ending.checkpointThrough.value;
    match a
    case DoEdit(id, role, content, leaves) => EditInFinale(s, id, role, content, leaves, after);
    case DoArrive(id, role, content) => ArriveInFinale(s, id, role, content, after);
    case _ => OtherInFinale(s, a, after);
  }

  lemma MissedStaysInFinale(s: State, a: Step)
    requires MissedByTriggers(s, a)
    ensures Next(s, a).ending.lifecycle == Finale
  {
  }

  /** In a finale, one step that stays in it keeps the recorded row greatest exactly when it is not such a move;
      entering the finale starts with none recorded and none there. */
  lemma TracksFinaleNext(s: State, a: Step)
    requires Inv(s) && TracksFinale(s)
    ensures TracksFinale(Next(s, a)) <==> !MissedByTriggers(s, a)
  {
    InvNext(s, a);
    if s.ending.lifecycle != Finale {
      EntersTracked(s, a);
    } else if Next(s, a).ending.lifecycle == Finale {
      TrackedIffLast(s);
      TrackedIffLast(Next(s, a));
      StaysTracked(s, a);
    } else if MissedByTriggers(s, a) {
      MissedStaysInFinale(s, a);
    }
  }

  lemma TrackedIffLast(s: State)
    requires Inv(s) && s.ending.lifecycle == Finale
    ensures TracksFinale(s) <==> IsLast(s.messages, s.ending.checkpointThrough.value, s.nextId, s.ending.finaleRow)
  {
    if IsLast(s.messages, s.ending.checkpointThrough.value, s.nextId, s.ending.finaleRow) {
      LastIsUnique(s.messages, s.ending.checkpointThrough.value, s.nextId, s.ending.finaleRow);
    }
  }

  ghost predicate NoMissedMove(s: State, steps: seq<Step>)
    decreases |steps|
  {
    steps == [] || (!MissedByTriggers(s, steps[0]) && NoMissedMove(Next(s, steps[0]), steps[1..]))
  }

  /** Once a resolution is accepted, no assistant row after the checkpoint is later, but for the epilogue. */
  ghost predicate ResolutionIsLast(s: State) {
    s.ending.lifecycle.Closing() ==>
      forall id: nat :: IsAssistant(s.messages, id) && !InPrefix(s.ending, id) ==>
        (s.ending.resolutionRow.Some? && id <= s.ending.resolutionRow.value) || Some(id) == s.ending.epilogueRow
  }

  lemma ResolutionIsLastNext(s: State, a: Step)
    requires Inv(s) && TracksFinale(s) && ResolutionIsLast(s)
    ensures ResolutionIsLast(Next(s, a))
  {
    var s' := Next(s, a);
    if s.ending.lifecycle.Closing() {
      ClosingTranscript(s, a);
      assert forall id :: id != s.nextId ==> (IsAssistant(s'.messages, id) <==> IsAssistant(s.messages, id));
      assert ResolutionIsLast(s');
    } else if s'.ending.lifecycle.Closing() {
      assert s'.messages == s.messages && s'.ending.resolutionRow == s.ending.finaleRow;
      TrackedIffLast(s);
    }
  }

  /** In every run without such a move: in the finale the recorded row is the greatest assistant row after the
      checkpoint, and an accepted resolution names exactly that row. */
  lemma {:induction false} FinaleRowInEveryRun(s: State, steps: seq<Step>)
    requires Inv(s) && TracksFinale(s) && ResolutionIsLast(s) && NoMissedMove(s, steps)
    ensures TracksFinale(Run(s, steps)) && ResolutionIsLast(Run(s, steps))
    decreases |steps|
  {
    if steps != [] {
      InvNext(s, steps[0]);
      TracksFinaleNext(s, steps[0]);
      ResolutionIsLastNext(s, steps[0]);
      FinaleRowInEveryRun(Next(s, steps[0]), steps[1..]);
    }
  }

  // ---- What closes stays closed ----

  /** Every step takes at most one permitted edge. */
  lemma LifecycleStep(s: State, a: Step)
    ensures var before := s.ending.lifecycle; var after := Next(s, a).ending.lifecycle;
      after == before || Permitted(before, after)
  {
  }

  lemma {:induction false} LifecycleNeverGoesBack(s: State, steps: seq<Step>)
    requires s.ending.lifecycle.Rank() >= 2
    ensures Run(s, steps).ending.lifecycle.Rank() >= s.ending.lifecycle.Rank()
    decreases |steps|
  {
    if steps != [] {
      LifecycleStep(s, steps[0]);
      LifecycleNeverGoesBack(Next(s, steps[0]), steps[1..]);
    }
  }

  /** From the finale on, the goal and its history are frozen. */
  lemma {:induction false} GoalFrozenFromFinale(s: State, steps: seq<Step>)
    requires s.ending.lifecycle.Rank() >= 2
    ensures var s' := Run(s, steps);
      s'.ending.goal == s.ending.goal && s'.ending.goalRevision == s.ending.goalRevision && s'.goals == s.goals
    decreases |steps|
  {
    if steps != [] {
      if steps[0].DoSetGoal? {
        SetGoalEffect(s, steps[0].goal, steps[0].byDirector, steps[0].expected);
      } else {
        GoalKept(s, steps[0]);
      }
      LifecycleStep(s, steps[0]);
      GoalFrozenFromFinale(Next(s, steps[0]), steps[1..]);
    }
  }

  /** From the finale on, the checkpoint stays where it is and its rows are never edited, moved or deleted. */
  lemma {:induction false} PrefixFrozenFromFinale(s: State, steps: seq<Step>, id: nat)
    requires Inv(s) && s.ending.lifecycle.Rank() >= 2 && InPrefix(s.ending, id) && id in s.messages
    ensures var s' := Run(s, steps);
      && s'.ending.checkpointThrough == s.ending.checkpointThrough
      && id in s'.messages && s'.messages[id] == s.messages[id]
    decreases |steps|
  {
    if steps != [] {
      var a := steps[0];
      var s1 := Next(s, a);
      LifecycleStep(s, a);
      InvNext(s, a);
      PrefixStep(s, a, id);
      PrefixFrozenFromFinale(s1, steps[1..], id);
    }
  }

  lemma PrefixStep(s: State, a: Step, id: nat)
    requires Inv(s) && s.ending.lifecycle.Rank() >= 2 && InPrefix(s.ending, id) && id in s.messages
    ensures var s' := Next(s, a);
      && s'.ending.checkpointThrough == s.ending.checkpointThrough
      && id in s'.messages && s'.messages[id] == s.messages[id]
  {
  }

  /** s' continues the closing story s: its rows, resolution and checkpoint are unchanged, and at most one row was
      added, the epilogue, when there was none. */
  ghost predicate Continues(s: State, s': State) {
    && s'.ending.lifecycle.Closing() && s'.ending.lifecycle.Rank() >= s.ending.lifecycle.Rank()
    && s'.ending.resolutionRow == s.ending.resolutionRow
    && s'.ending.checkpointThrough == s.ending.checkpointThrough
    && (s.ending.epilogueRow.Some? ==> s'.ending.epilogueRow == s.ending.epilogueRow)
    && (s'.ending.epilogueRow == s.ending.epilogueRow ==> s'.messages == s.messages)
    && (s'.ending.epilogueRow != s.ending.epilogueRow ==>
          && s'.ending.epilogueRow.Some? && s'.ending.epilogueRow.value !in s.messages
          && IsAssistant(s'.messages, s'.ending.epilogueRow.value)
          && s'.messages - {s'.ending.epilogueRow.value} == s.messages)
  }

  lemma ContinuesStep(s: State, a: Step)
    requires Inv(s) && s.ending.lifecycle.Closing()
    ensures Continues(s, Next(s, a))
  {
    ClosingTranscript(s, a);
    LifecycleStep(s, a);
    var s' := Next(s, a);
    if s'.messages != s.messages {
      assert s.messages[s.nextId := Message("assistant", a.content)] - {s.nextId} == s.messages;
    }
  }

  /** A closing story's transcript is immutable but for its one epilogue, in every run. */
  lemma {:induction false} ClosingStoryIsImmutable(s: State, steps: seq<Step>)
    requires Inv(s) && s.ending.lifecycle.Closing()
    ensures Continues(s, Run(s, steps))
    decreases |steps|
  {
    if steps != [] {
      var s1 := Next(s, steps[0]);
      ContinuesStep(s, steps[0]);
      InvNext(s, steps[0]);
      StagedRows(s);
      StagedRows(s1);
      ClosingStoryIsImmutable(s1, steps[1..]);
    }
  }

  lemma StagedRows(s: State)
    requires Inv(s) && s.ending.lifecycle.Closing()
    ensures s.ending.epilogueRow.Some? <==> s.ending.lifecycle.Rank() >= 5
    ensures s.ending.epilogueRow.Some? ==> s.ending.epilogueRow.value in s.messages
  {
  }

  /** A completed ending keeps every frozen column and every row. */
  lemma {:induction false} CompletedEndingIsFrozen(s: State, steps: seq<Step>)
    requires Inv(s) && s.ending.lifecycle == Closed
    ensures var s' := Run(s, steps); Frozen(s'.ending) == Frozen(s.ending) && s'.messages == s.messages
    decreases |steps|
  {
    if steps != [] {
      var s1 := Next(s, steps[0]);
      CompletedStep(s, steps[0]);
      InvNext(s, steps[0]);
      CompletedEndingIsFrozen(s1, steps[1..]);
    }
  }

  lemma CompletedStep(s: State, a: Step)
    requires Inv(s) && s.ending.lifecycle == Closed
    ensures Frozen(Next(s, a).ending) == Frozen(s.ending) && Next(s, a).messages == s.messages
  {
    ClosingTranscript(s, a);
  }

  /** No claim of the run uses this token again. */
  predicate NeverClaims(steps: seq<Step>, token: string) {
    forall i :: 0 <= i < |steps| ==> !(steps[i].DoClaimWork? && steps[i].token == token)
  }

  lemma LostStep(s: State, a: Step, stale: string)
    requires s.ending.workToken != stale && stale != "" && !(a.DoClaimWork? && a.token == stale)
    ensures Next(s, a).ending.workToken != stale
  {
  }

  /** A token that lost the lease has it again only by claiming it. */
  lemma {:induction false} LostForGood(s: State, steps: seq<Step>, stale: string)
    requires s.ending.workToken != stale && stale != "" && NeverClaims(steps, stale)
    ensures Run(s, steps).ending.workToken != stale
    decreases |steps|
  {
    if steps != [] {
      LostStep(s, steps[0], stale);
      assert forall i :: 0 <= i < |steps[1..]| ==> steps[1..][i] == steps[i + 1];
      LostForGood(Next(s, steps[0]), steps[1..], stale);
    }
  }

  /** A worker whose lease was taken over can no longer commit an epilogue, publish a brief, stage work, close the story
      or release the new holder's lease, in every later run in which it does not claim the lease anew. */
  lemma SupersededWorkerIsFenced(s: State, token: string, now: int, later: seq<Step>, stale: string)
    requires s.ending.lifecycle.Closing() && ClaimWork(s, token, now) != s && stale != token && stale != ""
    requires NeverClaims(later, stale)
    ensures var s' := Run(ClaimWork(s, token, now), later);
      && (forall revision, source, content :: CommitEpilogue(s', stale, revision, source, content) == s')
      && (forall revision, source :: SaveBrief(s', stale, revision, source) == s')
      && (forall story :: StageWork(s', stale, story) == s')
      && ReleaseWork(s', stale) == s' && CloseStory(s', stale) == s'
  {
    LostForGood(ClaimWork(s, token, now), later, stale);
  }
}
