/** Director planning (bridge/director_repository.py, director_goal_repository.py, director_service.py): a leased AI
    run and manual decisions race to publish on one revision-guarded row. */
module Director {

  datatype Source = Ai | User

  /** The plan columns of director_state. */
  datatype Plan = Plan(direction: string, source: Source, goal: string, guidance: string)

  /** stored is false for the absent row, whose columns read as the defaults; token 0 is the empty token. */
  datatype Row = Row(stored: bool, revision: nat, plan: Plan, token: nat, startedAt: int)

  const NO_PLAN := Plan("", Ai, "", "")
  const NO_ROW := Row(false, 0, NO_PLAN, 0, 0)

  /** Dropping a superseded AI direction; an explicit user one stays. */
  function DropAi(p: Plan): Plan {
    if p.source == Ai then p.(direction := "") else p
  }

  // ---- Guarded writes; each returns the row it leaves ----

  function Claim(r: Row, token: nat, now: int, lease: int): Row {
    if !r.stored then NO_ROW.(stored := true, token := token, startedAt := now)
    else if r.token == 0 || r.startedAt <= now - lease then r.(token := token, startedAt := now)
    else r
  }

  function Release(r: Row, token: nat): Row {
    if r.stored && r.token == token then r.(token := 0, startedAt := 0) else r
  }

  function PublishPlan(r: Row, token: nat, expected: nat, direction: string): Row {
    if r.stored && r.revision == expected && r.token == token
    then r.(plan := r.plan.(direction := direction, source := Ai), revision := r.revision + 1)
    else r
  }

  function Ensured(r: Row, expected: nat): Row {
    if expected == 0 && !r.stored then NO_ROW.(stored := true) else r
  }

  /** A manual write that bumps the revision and revokes the lease. */
  function Decide(r: Row, expected: nat, plan: Plan): Row {
    var e := Ensured(r, expected);
    if e.stored && e.revision == expected
    then e.(plan := plan, revision := e.revision + 1, token := 0, startedAt := 0)
    else e
  }

  function WriteManual(r: Row, expected: nat, direction: string): Row {
    Decide(r, expected, r.plan.(direction := direction, source := User))
  }

  function StoreGoal(r: Row, expected: nat, goal: string): Row {
    Decide(r, expected, DropAi(r.plan).(goal := goal))
  }

  function StoreGuidance(r: Row, expected: nat, guidance: string): Row {
    Decide(r, expected, DropAi(r.plan).(guidance := guidance))
  }

  /** invalidate_ai_direction has no revision guard, and no row to insert. */
  function InvalidateAi(r: Row): Row {
    if r.stored then r.(plan := DropAi(r.plan), revision := r.revision + 1, token := 0, startedAt := 0) else r
  }

  class DirectorTable {
    var row: Row

    predicate Valid()
      reads this
    {
      row.stored || row == NO_ROW
    }

    constructor ()
      ensures Valid() && row == NO_ROW
    {
      row := NO_ROW;
    }

    method ClaimRun(token: nat, now: int, lease: int) returns (claimed: bool)
      requires Valid()
      modifies this
      ensures Valid()
      ensures row == Claim(old(row), token, now, lease)
      ensures claimed <==> !old(row).stored || old(row).token == 0 || old(row).startedAt <= now - lease
    {
      if !row.stored {
        row := NO_ROW.(stored := true, token := token, startedAt := now);
        return true;
      }
      claimed := row.token == 0 || row.startedAt <= now - lease;
      if claimed {
        row := row.(token := token, startedAt := now);
      }
    }

    method ReleaseRun(token: nat)
      requires Valid()
      modifies this
      ensures Valid()
      ensures row == Release(old(row), token)
    {
      if row.stored && row.token == token {
        row := row.(token := 0, startedAt := 0);
      }
    }

    method PublishDirectorPlan(token: nat, expected: nat, direction: string) returns (published: bool)
      requires Valid()
      modifies this
      ensures Valid()
      ensures row == PublishPlan(old(row), token, expected, direction)
      ensures published <==> row.revision == old(row).revision + 1
    {
      published := row.stored && row.revision == expected && row.token == token;
      if published {
        row := row.(plan := row.plan.(direction := direction, source := Ai), revision := row.revision + 1);
      }
    }

    method WriteManualDirection(expected: nat, direction: string) returns (written: bool)
      requires Valid()
      modifies this
      ensures Valid()
      ensures row == WriteManual(old(row), expected, direction)
      ensures written <==> row.revision == old(row).revision + 1
    {
      written := EnsureRow(expected);
      if written {
        row := row.(plan := row.plan.(direction := direction, source := User), revision := row.revision + 1,
                    token := 0, startedAt := 0);
      }
    }

    method StoreDirectorGoal(expected: nat, goal: string) returns (written: bool)
      requires Valid()
      modifies this
      ensures Valid()
      ensures row == StoreGoal(old(row), expected, goal)
      ensures written <==> row.revision == old(row).revision + 1
    {
      written := EnsureRow(expected);
      if written {
        row := row.(plan := DropAi(row.plan).(goal := goal), revision := row.revision + 1, token := 0, startedAt := 0);
      }
    }

    /** The insert-or-keep before a guarded manual update, and whether that update finds its row. */
    method EnsureRow(expected: nat) returns (matches: bool)
      requires Valid()
      modifies this
      ensures Valid()
      ensures row == Ensured(old(row), expected)
      ensures matches <==> row.stored && row.revision == expected
    {
      if expected == 0 && !row.stored {
        row := NO_ROW.(stored := true);
      }
      matches := row.stored && row.revision == expected;
    }

    method InvalidateAiDirection()
      requires Valid()
      modifies this
      ensures Valid()
      ensures row == InvalidateAi(old(row))
    {
      if row.stored {
        row := row.(plan := DropAi(row.plan), revision := row.revision + 1, token := 0, startedAt := 0);
      }
    }
  }

  // ---- Runs ----

  datatype Worker =
    | Gone
    | Claimed(token: nat)                                  // holds the lease, reconciling
    | Planning(token: nat, revision: nat, basis: seq<Commit>)  // computed its input from the row it read
    | Releasing(token: nat)

  /** What each successful write decided. basis is history: the decisions committed when the plan's input was read. */
  datatype Commit =
    | AiPlan(direction: string, basis: seq<Commit>)
    | Manual(direction: string)
    | Objective(goal: string)
    | Guidance(guidance: string)
    | EndingGoal

  datatype State = State(row: Row, workers: seq<Worker>, nextToken: nat, commits: seq<Commit>)

  const IDLE := State(NO_ROW, [], 1, [])

  datatype Step =
    | StartRun(now: int, lease: int)
    | ReadSource(worker: nat)
    | Publish(worker: nat, direction: string)
    | GiveUp(worker: nat)
    | ReleaseLease(worker: nat)
    | Crash(worker: nat)
    | AcceptManual(expected: nat, direction: string)
    | AcceptObjective(expected: nat, goal: string)
    | AcceptGuidance(expected: nat, guidance: string)
    | UserEndingGoal

  function Written(s: State, row: Row, c: Commit): State {
    s.(row := row, commits := if row.revision != s.row.revision then s.commits + [c] else s.commits)
  }

  function Next(s: State, a: Step): State {
    match a
    case StartRun(now, lease) =>
      var r := Claim(s.row, s.nextToken, now, lease);
      if r == s.row then s
      else s.(row := r, workers := s.workers + [Claimed(s.nextToken)], nextToken := s.nextToken + 1)
    case ReadSource(w) =>
      if w < |s.workers| && s.workers[w].Claimed? then
        var t := s.workers[w].token;
        s.(workers := s.workers[w :=
             if s.row.token == t then Planning(t, s.row.revision, s.commits) else Releasing(t)])
      else s
    case Publish(w, direction) =>
      if w < |s.workers| && s.workers[w].Planning? then
        var me := s.workers[w];
        Written(s, PublishPlan(s.row, me.token, me.revision, direction), AiPlan(direction, me.basis))
          .(workers := s.workers[w := Releasing(me.token)])
      else s
    case GiveUp(w) =>
      if w < |s.workers| && !s.workers[w].Gone?
      then s.(workers := s.workers[w := Releasing(s.workers[w].token)]) else s
    case ReleaseLease(w) =>
      if w < |s.workers| && s.workers[w].Releasing?
      then s.(row := Release(s.row, s.workers[w].token), workers := s.workers[w := Gone]) else s
    case Crash(w) => if w < |s.workers| then s.(workers := s.workers[w := Gone]) else s
    case AcceptManual(expected, direction) => Written(s, WriteManual(s.row, expected, direction), Manual(direction))
    case AcceptObjective(expected, goal) => Written(s, StoreGoal(s.row, expected, goal), Objective(goal))
    case AcceptGuidance(expected, guidance) =>
      Written(s, StoreGuidance(s.row, expected, guidance), Guidance(guidance))
    case UserEndingGoal => Written(s, InvalidateAi(s.row), EndingGoal)
  }

  function Run(s: State, steps: seq<Step>): State
    decreases |steps|
  {
    if steps == [] then s else Run(Next(s, steps[0]), steps[1..])
  }

  /** The plan a sequence of decisions leaves, taken one after the other. */
  function Replay(commits: seq<Commit>): Plan {
    if commits == [] then NO_PLAN
    else
      var p := Replay(commits[..|commits| - 1]);
      match commits[|commits| - 1]
      case AiPlan(direction, _) => p.(direction := direction, source := Ai)
      case Manual(direction) => p.(direction := direction, source := User)
      case Objective(goal) => DropAi(p).(goal := goal)
      case Guidance(guidance) => DropAi(p).(guidance := guidance)
      case EndingGoal => DropAi(p)
  }

  ghost predicate Linear(s: State) {
    && s.row.revision == |s.commits|
    && s.row.plan == Replay(s.commits)
    && (!s.row.stored ==> s.row == NO_ROW)
    && (forall i :: 0 <= i < |s.commits| && s.commits[i].AiPlan? ==> s.commits[i].basis == s.commits[..i])
    && (forall w :: 0 <= w < |s.workers| && s.workers[w].Planning? ==>
          s.workers[w].revision == |s.workers[w].basis| && s.workers[w].basis <= s.commits)
  }

  ghost predicate TokensDistinct(s: State) {
    && s.nextToken > 0 && s.row.token < s.nextToken
    && (forall w :: 0 <= w < |s.workers| && !s.workers[w].Gone? ==> 0 < s.workers[w].token < s.nextToken)
    && (forall v, w :: 0 <= v < w < |s.workers| && !s.workers[v].Gone? && !s.workers[w].Gone? ==>
          s.workers[v].token != s.workers[w].token)
  }

  lemma WrittenIsLinear(s: State, row: Row, c: Commit)
    requires Linear(s)
    requires row.revision == s.row.revision || row.revision == s.row.revision + 1
    requires row.revision == s.row.revision ==> row.plan == s.row.plan
    requires row.revision != s.row.revision ==> row.plan == Replay(s.commits + [c])
    requires !row.stored ==> row == NO_ROW
    requires row.revision != s.row.revision && c.AiPlan? ==> c.basis == s.commits
    ensures Linear(Written(s, row, c))
  {
    var s' := Written(s, row, c);
    if row.revision != s.row.revision {
      forall i | 0 <= i < |s'.commits| && s'.commits[i].AiPlan? ensures s'.commits[i].basis == s'.commits[..i] {
        assert s'.commits[..i] == s.commits[..i];
        if i == |s.commits| {
          assert s.commits[..i] == s.commits;
        }
      }
    }
  }

  lemma ReplayStep(commits: seq<Commit>, c: Commit)
    ensures Replay(commits + [c]) ==
      (var p := Replay(commits);
       match c
       case AiPlan(direction, _) => p.(direction := direction, source := Ai)
       case Manual(direction) => p.(direction := direction, source := User)
       case Objective(goal) => DropAi(p).(goal := goal)
       case Guidance(guidance) => DropAi(p).(guidance := guidance)
       case EndingGoal => DropAi(p))
  {
    assert (commits + [c])[..|commits|] == commits;
  }

  lemma PublishIsLinear(s: State, w: nat, direction: string)
    requires Linear(s)
    ensures Linear(Next(s, Publish(w, direction)))
  {
    if w < |s.workers| && s.workers[w].Planning? {
      var me := s.workers[w];
      var c := AiPlan(direction, me.basis);
      ReplayStep(s.commits, c);
      WrittenIsLinear(s, PublishPlan(s.row, me.token, me.revision, direction), c);
    }
  }

  lemma LinearNext(s: State, a: Step)
    requires Linear(s)
    ensures Linear(Next(s, a))
  {
    match a
    case Publish(w, direction) => PublishIsLinear(s, w, direction);
    case AcceptManual(expected, direction) =>
      ReplayStep(s.commits, Manual(direction));
      WrittenIsLinear(s, WriteManual(s.row, expected, direction), Manual(direction));
    case AcceptObjective(expected, goal) =>
      ReplayStep(s.commits, Objective(goal));
      WrittenIsLinear(s, StoreGoal(s.row, expected, goal), Objective(goal));
    case AcceptGuidance(expected, guidance) =>
      ReplayStep(s.commits, Guidance(guidance));
      WrittenIsLinear(s, StoreGuidance(s.row, expected, guidance), Guidance(guidance));
    case UserEndingGoal =>
      ReplayStep(s.commits, EndingGoal);
      WrittenIsLinear(s, InvalidateAi(s.row), EndingGoal);
    case _ =>
  }

  /** Publication is linearizable: in every run the stored plan is what the committed decisions give one after the
      other, and each AI plan among them was computed from exactly the decisions before it. */
  lemma {:induction false} Linearizable(s: State, steps: seq<Step>)
    requires Linear(s)
    ensures Linear(Run(s, steps))
    decreases |steps|
  {
    if steps != [] {
      LinearNext(s, steps[0]);
      Linearizable(Next(s, steps[0]), steps[1..]);
    }
  }

  lemma TokensNext(s: State, a: Step)
    requires TokensDistinct(s)
    ensures TokensDistinct(Next(s, a))
  {
  }

  lemma {:induction false} TokensAlways(s: State, steps: seq<Step>)
    requires TokensDistinct(s)
    ensures TokensDistinct(Run(s, steps))
    decreases |steps|
  {
    if steps != [] {
      TokensNext(s, steps[0]);
      TokensAlways(Next(s, steps[0]), steps[1..]);
    }
  }

  /** A token that was handed out and is no longer the row's never comes back. */
  lemma {:induction false} RevokedForGood(s: State, steps: seq<Step>, token: nat)
    requires 0 < token < s.nextToken && s.row.token != token
    ensures Run(s, steps).row.token != token
    decreases |steps|
  {
    if steps != [] {
      RevokedForGood(Next(s, steps[0]), steps[1..], token);
    }
  }

  /** A worker that still holds the row's token planned from the row's revision: whatever bumps the revision revokes the
      token, or is that worker's own publication. */
  ghost predicate Fresh(s: State) {
    forall w :: 0 <= w < |s.workers| && s.workers[w].Planning? && s.workers[w].token == s.row.token ==>
      s.workers[w].revision == s.row.revision
  }

  lemma FreshNext(s: State, a: Step)
    requires TokensDistinct(s) && Fresh(s) && (!s.row.stored ==> s.row == NO_ROW)
    ensures Fresh(Next(s, a)) && (!Next(s, a).row.stored ==> Next(s, a).row == NO_ROW)
  {
    var s' := Next(s, a);
    forall v | 0 <= v < |s'.workers| && s'.workers[v].Planning? && s'.workers[v].token == s'.row.token
      ensures s'.workers[v].revision == s'.row.revision
    {
      if a.StartRun? {
        assert v < |s.workers| && s'.workers[v] == s.workers[v];
      } else if a.Publish? && a.worker < |s.workers| && v != a.worker {
        assert s.workers[a.worker].Gone? || s.workers[v].token != s.workers[a.worker].token;
      }
    }
  }

  lemma {:induction false} FreshAlways(s: State, steps: seq<Step>)
    requires TokensDistinct(s) && Fresh(s) && (!s.row.stored ==> s.row == NO_ROW)
    ensures TokensDistinct(Run(s, steps)) && Fresh(Run(s, steps)) && (!Run(s, steps).row.stored ==> Run(s, steps).row == NO_ROW)
    decreases |steps|
  {
    if steps != [] {
      TokensNext(s, steps[0]);
      FreshNext(s, steps[0]);
      FreshAlways(Next(s, steps[0]), steps[1..]);
    }
  }

  /** Exactly when a plan is published, in every run and at whatever time: the worker's token is still the row's. Then the
      revision it planned from is the row's too, and the direction becomes the plan; otherwise nothing changes. */
  lemma PublishesExactly(steps: seq<Step>, w: nat, direction: string)
    requires var s := Run(IDLE, steps); w < |s.workers| && s.workers[w].Planning?
    ensures var s := Run(IDLE, steps); var me := s.workers[w]; var s' := Next(s, Publish(w, direction));
      if s.row.token == me.token
      then me.revision == s.row.revision && s'.row.revision == s.row.revision + 1
           && s'.row.plan == s.row.plan.(direction := direction, source := Ai)
           && s'.commits == s.commits + [AiPlan(direction, me.basis)]
      else s'.row == s.row && s'.commits == s.commits
  {
    FreshAlways(IDLE, steps);
    var s := Run(IDLE, steps);
    assert s.row.token == s.workers[w].token ==> s.workers[w].revision == s.row.revision;
  }

  /** An expired claim that nobody took over still publishes: a second run could start now, yet the first one's plan is
      stored. */
  lemma ExpiredClaimPublishes(start: int, now: int, lease: int, direction: string)
    requires start <= now - lease
    ensures var s := Run(IDLE, [StartRun(start, lease), ReadSource(0)]);
      && Claim(s.row, s.nextToken, now, lease).token == s.nextToken != s.row.token
      && Next(s, Publish(0, direction)).row.plan.direction == direction
  {
    var s1 := Next(IDLE, StartRun(start, lease));
    assert s1.workers == [Claimed(1)] && s1.row.token == 1;
    var s2 := Next(s1, ReadSource(0));
    assert s2.workers == [Planning(1, 0, [])] && s2.row == s1.row;
    assert [StartRun(start, lease), ReadSource(0)][1..] == [ReadSource(0)];
    assert Run(s1, [ReadSource(0)]) == Run(s2, []);
  }

  /** Once a claim has been taken over or revoked, its worker can publish nothing however long it keeps running, and its
      release does not touch the row. */
  lemma ExpiredClaimIsFenced(before: seq<Step>, after: seq<Step>, token: nat, w: nat, direction: string)
    requires var s := Run(IDLE, before); 0 < token < s.nextToken && s.row.token != token
    requires var s' := Run(Run(IDLE, before), after);
      w < |s'.workers| && !s'.workers[w].Gone? && s'.workers[w].token == token
    ensures var s' := Run(Run(IDLE, before), after);
      && Next(s', Publish(w, direction)).row == s'.row && Next(s', Publish(w, direction)).commits == s'.commits
      && Next(s', ReleaseLease(w)).row == s'.row
  {
    RevokedForGood(Run(IDLE, before), after, token);
  }

  /** Only the current holder's worker has its token. */
  lemma HolderIsUnique(steps: seq<Step>, v: nat, w: nat)
    requires var s := Run(IDLE, steps);
      && v < |s.workers| && w < |s.workers| && !s.workers[v].Gone? && !s.workers[w].Gone?
      && s.workers[v].token == s.workers[w].token == s.row.token
    ensures v == w
  {
    TokensAlways(IDLE, steps);
  }
}
