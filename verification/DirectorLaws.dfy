/** What the stored plan is, from the decisions alone, and when each decision and claim is accepted. */
module DirectorLaws {
  import opened Director

  // ---- The plan from the decisions ----

  predicate SetsDirection(c: Commit) { c.Manual? || c.AiPlan? }

  /** An objective, arc guidance or a new ending goal: it supersedes what the Director had planned by itself. */
  predicate Supersedes(c: Commit) { c.Objective? || c.Guidance? || c.EndingGoal? }

  /** The ith decision is the last that set a direction. */
  predicate LastSet(commits: seq<Commit>, i: nat) {
    i < |commits| && SetsDirection(commits[i]) && forall j :: i < j < |commits| ==> !SetsDirection(commits[j])
  }

  predicate SupersededSince(commits: seq<Commit>, i: nat) {
    exists j :: i < j < |commits| && Supersedes(commits[j])
  }

  /** The direction is the last one set, except that the Director's own is dropped by what supersedes it; there is none
      before the first. */
  ghost predicate DirectionFrom(p: Plan, commits: seq<Commit>) {
    && (forall i: nat :: LastSet(commits, i) ==>
          if commits[i].Manual? then p.direction == commits[i].direction && p.source == User
          else p.source == Ai && p.direction == if SupersededSince(commits, i) then "" else commits[i].direction)
    && ((forall j :: 0 <= j < |commits| ==> !SetsDirection(commits[j])) ==> p.direction == "" && p.source == Ai)
  }

  ghost predicate GoalFrom(p: Plan, commits: seq<Commit>) {
    && (forall i :: 0 <= i < |commits| && commits[i].Objective? && (forall j :: i < j < |commits| ==> !commits[j].Objective?) ==>
          p.goal == commits[i].goal)
    && ((forall j :: 0 <= j < |commits| ==> !commits[j].Objective?) ==> p.goal == "")
  }

  ghost predicate GuidanceFrom(p: Plan, commits: seq<Commit>) {
    && (forall i :: 0 <= i < |commits| && commits[i].Guidance? && (forall j :: i < j < |commits| ==> !commits[j].Guidance?) ==>
          p.guidance == commits[i].guidance)
    && ((forall j :: 0 <= j < |commits| ==> !commits[j].Guidance?) ==> p.guidance == "")
  }

  lemma DirectionStep(commits: seq<Commit>, c: Commit)
    requires DirectionFrom(Replay(commits), commits)
    ensures DirectionFrom(Replay(commits + [c]), commits + [c])
  {
    var now, p := commits + [c], Replay(commits);
    ReplayStep(commits, c);
    assert forall j :: 0 <= j < |commits| ==> now[j] == commits[j];
    if !SetsDirection(c) {
      forall i: nat | LastSet(now, i)
        ensures LastSet(commits, i) && (SupersededSince(now, i) <==> SupersededSince(commits, i) || Supersedes(c))
      {
        if Supersedes(c) {
          assert Supersedes(now[|commits|]);
        }
      }
    } else {
      assert now[|commits|] == c;
    }
  }

  lemma GoalStep(commits: seq<Commit>, c: Commit)
    requires GoalFrom(Replay(commits), commits)
    ensures GoalFrom(Replay(commits + [c]), commits + [c])
  {
    var now := commits + [c];
    ReplayStep(commits, c);
    assert now[|commits|] == c && forall j :: 0 <= j < |commits| ==> now[j] == commits[j];
  }

  lemma GuidanceStep(commits: seq<Commit>, c: Commit)
    requires GuidanceFrom(Replay(commits), commits)
    ensures GuidanceFrom(Replay(commits + [c]), commits + [c])
  {
    var now := commits + [c];
    ReplayStep(commits, c);
    assert now[|commits|] == c && forall j :: 0 <= j < |commits| ==> now[j] == commits[j];
  }

  lemma {:induction false} ReplayIs(commits: seq<Commit>)
    ensures DirectionFrom(Replay(commits), commits) && GoalFrom(Replay(commits), commits) && GuidanceFrom(Replay(commits), commits)
    decreases |commits|
  {
    if commits != [] {
      var n := |commits| - 1;
      assert commits == commits[..n] + [commits[n]];
      ReplayIs(commits[..n]);
      DirectionStep(commits[..n], commits[n]);
      GoalStep(commits[..n], commits[n]);
      GuidanceStep(commits[..n], commits[n]);
    }
  }

  /** In every run the stored plan is, from the decisions alone: the last direction set, unless it was the Director's own
      and was superseded since; the last objective; the last arc guidance. */
  lemma PlanFromDecisions(steps: seq<Step>)
    ensures var s := Run(IDLE, steps);
      DirectionFrom(s.row.plan, s.commits) && GoalFrom(s.row.plan, s.commits) && GuidanceFrom(s.row.plan, s.commits)
  {
    Linearizable(IDLE, steps);
    ReplayIs(Run(IDLE, steps).commits);
  }

  // ---- When a decision is accepted ----

  predicate ByUser(a: Step) { a.AcceptManual? || a.AcceptObjective? || a.AcceptGuidance? }

  function Decided(a: Step): Commit
    requires ByUser(a)
  {
    match a
    case AcceptManual(_, direction) => Manual(direction)
    case AcceptObjective(_, goal) => Objective(goal)
    case AcceptGuidance(_, guidance) => Guidance(guidance)
  }

  /** A user's decision is committed exactly over the revision it was made on, and then no run holds the lease; a stale one
      changes no plan and revokes nothing. */
  lemma DecisionsExactly(steps: seq<Step>, a: Step)
    requires ByUser(a)
    ensures var s := Run(IDLE, steps); var s' := Next(s, a);
      && s'.workers == s.workers && s'.nextToken == s.nextToken
      && (if a.expected == |s.commits|
          then && s'.commits == s.commits + [Decided(a)] && s'.row.token == 0 && s'.row.startedAt == 0
               && s'.row.revision == s.row.revision + 1
          else s'.commits == s.commits && s'.row == s.row)
  {
    Linearizable(IDLE, steps);
  }

  /** A new ending goal is committed whenever there is a Director row, and revokes the lease. */
  lemma EndingGoalExactly(steps: seq<Step>)
    ensures var s := Run(IDLE, steps); var s' := Next(s, UserEndingGoal);
      if s.row.stored then s'.commits == s.commits + [EndingGoal] && s'.row.token == 0 && s'.row.startedAt == 0 else s' == s
  {
    Linearizable(IDLE, steps);
  }

  /** A run plans exactly while it still has the lease, from the revision and the decisions it finds. */
  lemma ReadsExactly(s: State, w: nat)
    requires w < |s.workers| && s.workers[w].Claimed?
    ensures var t := s.workers[w].token; var s' := Next(s, ReadSource(w));
      && s'.row == s.row && s'.commits == s.commits
      && s'.workers[w] == (if s.row.token == t then Planning(t, s.row.revision, s.commits) else Releasing(t))
  {
  }

  /** A run that is over, whether it published, gave up or lost its claim, frees the lease at once, if it still has it, and
      leaves the plan alone. */
  lemma ReleasesExactly(steps: seq<Step>, w: nat)
    requires var s := Run(IDLE, steps); w < |s.workers| && s.workers[w].Releasing?
    ensures var s := Run(IDLE, steps); var s' := Next(s, ReleaseLease(w)); var t := s.workers[w].token;
      && s'.workers == s.workers[w := Gone] && s'.commits == s.commits && s'.row.plan == s.row.plan
      && s'.row.stored == s.row.stored && s'.row.revision == s.row.revision
      && (if s.row.token == t then s'.row.token == 0 && s'.row.startedAt == 0 else s'.row == s.row)
  {
    Linearizable(IDLE, steps);
    TokensAlways(IDLE, steps);
  }

  // ---- The lease in time ----

  /** The step neither comes when the lease has run out, nor is its holder's release, nor commits a user's decision. */
  predicate Undisturbing(s: State, a: Step, t: nat) {
    && (a.StartRun? ==> s.row.startedAt > a.now - a.lease)
    && (a.ReleaseLease? && a.worker < |s.workers| && s.workers[a.worker].Releasing? ==> s.workers[a.worker].token != t)
    && (ByUser(a) || a.UserEndingGoal? ==> Next(s, a).commits == s.commits)
  }

  predicate Undisturbed(s: State, steps: seq<Step>, t: nat)
    decreases |steps|
  {
    steps != [] ==> Undisturbing(s, steps[0], t) && Undisturbed(Next(s, steps[0]), steps[1..], t)
  }

  lemma HeldStep(s: State, a: Step, t: nat)
    requires Linear(s) && s.row.token == t != 0 && s.row.stored && Undisturbing(s, a, t)
    ensures Linear(Next(s, a))
    ensures var s' := Next(s, a); s'.row.token == t && s'.row.startedAt == s.row.startedAt && s'.row.stored
  {
    LinearNext(s, a);
  }

  lemma {:induction false} HeldWhile(s: State, steps: seq<Step>, t: nat)
    requires Linear(s) && s.row.token == t != 0 && s.row.stored && Undisturbed(s, steps, t)
    ensures var s' := Run(s, steps); s'.row.token == t && s'.row.startedAt == s.row.startedAt && s'.row.stored
    decreases |steps|
  {
    if steps != [] {
      HeldStep(s, steps[0], t);
      HeldWhile(Next(s, steps[0]), steps[1..], t);
    }
  }

  /** A live claim keeps other runs out: from any reachable state in which t holds the lease, until its holder releases it
      or a user's decision revokes it, a claim is refused while the lease lasts and taken over once it has run out. */
  lemma ClaimKeepsOthersOut(before: seq<Step>, after: seq<Step>, t: nat, now: int, lease: int)
    requires Run(IDLE, before).row.token == t != 0 && Undisturbed(Run(IDLE, before), after, t)
    ensures var s := Run(IDLE, before); var s' := Run(s, after); var s2 := Next(s', StartRun(now, lease));
      && s'.row.token == t && s'.row.startedAt == s.row.startedAt
      && (if s.row.startedAt > now - lease then s2 == s'
          else && s2.row == s'.row.(token := s'.nextToken, startedAt := now)
               && s2.workers == s'.workers + [Claimed(s'.nextToken)] && s2.commits == s'.commits)
  {
    Linearizable(IDLE, before);
    TokensAlways(IDLE, before + after);
    RunAppend(IDLE, before, after);
    HeldWhile(Run(IDLE, before), after, t);
  }

  lemma {:induction false} RunAppend(s: State, a: seq<Step>, b: seq<Step>)
    ensures Run(s, a + b) == Run(Run(s, a), b)
    decreases |a|
  {
    if a == [] {
      assert a + b == b;
    } else {
      assert (a + b)[1..] == a[1..] + b;
      RunAppend(Next(s, a[0]), a[1..], b);
    }
  }

  /** A free lease is given to whoever claims it. */
  lemma FreeClaimIsGiven(steps: seq<Step>, now: int, lease: int)
    requires Run(IDLE, steps).row.token == 0
    ensures var s := Run(IDLE, steps); var s' := Next(s, StartRun(now, lease));
      && s'.row == s.row.(stored := true, token := s.nextToken, startedAt := now)
      && s'.workers == s.workers + [Claimed(s.nextToken)] && s'.commits == s.commits
  {
    Linearizable(IDLE, steps);
    TokensAlways(IDLE, steps);
  }
}
