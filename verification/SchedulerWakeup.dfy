/** No lost wakeup, and progress: queued work is always about to be tried, or waits for a permit whose holder will
    dispatch; when every thread has finished, nothing is left queued. */
module SchedulerWakeup {
  import opened Scheduler
  import opened SchedulerRuns
  import opened SchedulerSafety

  // ---- Wakeups ----

  predicate WillResume(r: Resume, c: Chat) {
    match r
    case Return => false
    case ThenDispatch => true
    case Loop(rest) => c in rest
  }

  /** Thread p will, without waiting for any job, try to start chat c. */
  predicate WillTry(p: Pc, c: Chat) {
    match p
    case StartCheck(d, r) => d == c || WillResume(r, c)
    case StartTake(d, r) => d == c || WillResume(r, c)
    case SubmitJob(_, _, r) => WillResume(r, c)
    case Rejected(_, _, r) => WillResume(r, c)
    case GiveBack(_, r) => WillResume(r, c)
    case Landing(_) => true
    case DispatchCheck => true
    case DispatchSnapshot => true
    case DispatchNext(rest) => c in rest
    case _ => false
  }

  predicate Cleaning(p: Pc) {
    p.Rejected? || p.GiveBack? || p.BgGiveBack?
  }

  ghost predicate Pending(ts: seq<Pc>, c: Chat) {
    exists t :: 0 <= t < |ts| && WillTry(ts[t], c)
  }

  /** The head job of chat c finds its semaphore exhausted. */
  predicate Blocked(m: Shared, c: Chat) {
    m.Queue(c) != [] && m.slots.Free(SlotOf(m.Queue(c)[0].work)) == 0
  }

  ghost predicate Awake(s: State) {
    s.mem.accepting ==>
      && (forall t :: 0 <= t < |s.threads| ==> !Cleaning(s.threads[t]))
      && (forall c: Chat :: AwakeAt(s, c))
  }

  /** The executor refuses a job although the scheduler still accepts work. */
  predicate RefusesWhileAccepting(s: State, a: Action) {
    && a.Advance? && a.thread < |s.threads| && s.mem.accepting && !a.executorTakes
    && (s.threads[a.thread].SubmitJob? || s.threads[a.thread].BgSubmit?)
  }

  ghost predicate ExecutorHolds(s: State, run: seq<Action>)
    decreases |run|
  {
    run != [] ==> !RefusesWhileAccepting(s, run[0]) && ExecutorHolds(Next(s, run[0]), run[1..])
  }

  lemma RegionWakes(m: Shared, p: Pc, takes: bool, order: seq<Chat>, c: Chat, elsewhere: bool)
    requires m.accepting && KeysAgree(m) && !Cleaning(p)
    requires (p.SubmitJob? || p.BgSubmit?) ==> takes
    requires Weight(Carries(c), p) <= Bit(c in m.inFlight)
    requires c in m.active && c !in m.inFlight ==> elsewhere || WillTry(p, c) || Blocked(m, c)
    ensures var o := Region(m, p, takes, order);
      && !Cleaning(o.pc) && (o.future.Some? ==> !Cleaning(o.future.value))
      && (c in o.mem.active && c !in o.mem.inFlight ==> elsewhere || WillTry(o.pc, c) || Blocked(o.mem, c))
  {
  }

  /** A chat that waits has a thread about to try it, or an exhausted semaphore. */
  ghost predicate AwakeAt(s: State, c: Chat) {
    c in s.mem.active && c !in s.mem.inFlight ==> Pending(s.threads, c) || Blocked(s.mem, c)
  }

  ghost predicate PendingElsewhere(ts: seq<Pc>, t: nat, c: Chat) {
    exists u :: 0 <= u < |ts| && u != t && WillTry(ts[u], c)
  }

  lemma PendingSplit(ts: seq<Pc>, t: nat, c: Chat)
    requires t < |ts|
    ensures Pending(ts, c) <==> PendingElsewhere(ts, t, c) || WillTry(ts[t], c)
  {
  }

  lemma PendingStays(ts: seq<Pc>, t: nat, o: Outcome, c: Chat)
    requires t < |ts| && (PendingElsewhere(ts, t, c) || WillTry(o.pc, c))
    ensures Pending(Threads(ts, t, o), c)
  {
    var now := Threads(ts, t, o);
    assert now[t] == o.pc;
    if PendingElsewhere(ts, t, c) {
      var u :| 0 <= u < |ts| && u != t && WillTry(ts[u], c);
      assert now[u] == ts[u];
    }
  }

  lemma AwakeMoveAt(s: State, t: nat, takes: bool, order: seq<Chat>, c: Chat)
    requires t < |s.threads| && SingleFlight(s) && KeysAgree(s.mem) && AwakeAt(s, c) && s.mem.accepting
    requires !Cleaning(s.threads[t]) && ((s.threads[t].SubmitJob? || s.threads[t].BgSubmit?) ==> takes)
    ensures AwakeAt(Move(s, t, takes, order), c)
    ensures var o := Region(s.mem, s.threads[t], takes, order);
            !Cleaning(o.pc) && (o.future.Some? ==> !Cleaning(o.future.value))
  {
    var o := Region(s.mem, s.threads[t], takes, order);
    MoveStarts(s, t, takes, order, c);
    TotalCovers(s.threads, t, Carries(c));
    assert Total(s.threads, Carries(c)) == Bit(c in s.mem.inFlight);
    PendingSplit(s.threads, t, c);
    RegionWakes(s.mem, s.threads[t], takes, order, c, PendingElsewhere(s.threads, t, c));
    if PendingElsewhere(s.threads, t, c) || WillTry(o.pc, c) {
      PendingStays(s.threads, t, o, c);
    }
  }

  lemma CleanThreads(ts: seq<Pc>, t: nat, o: Outcome)
    requires t < |ts| && (forall u :: 0 <= u < |ts| ==> !Cleaning(ts[u]))
    requires !Cleaning(o.pc) && (o.future.Some? ==> !Cleaning(o.future.value))
    ensures forall u :: 0 <= u < |Threads(ts, t, o)| ==> !Cleaning(Threads(ts, t, o)[u])
  {
  }

  lemma AwakeMove(s: State, t: nat, takes: bool, order: seq<Chat>)
    requires t < |s.threads| && Safe(s) && Awake(s) && s.mem.accepting
    requires (s.threads[t].SubmitJob? || s.threads[t].BgSubmit?) ==> takes
    ensures Awake(Move(s, t, takes, order))
  {
    forall c: Chat ensures AwakeAt(Move(s, t, takes, order), c) {
      assert AwakeAt(s, c);
      AwakeMoveAt(s, t, takes, order, c);
    }
    assert AwakeAt(s, "");
    AwakeMoveAt(s, t, takes, order, "");
    MoveStarts(s, t, takes, order, "");
    CleanThreads(s.threads, t, Region(s.mem, s.threads[t], takes, order));
  }

  lemma AwakeSubmit(s: State, d: Chat, job: Job)
    requires Safe(s) && Awake(s)
    ensures Awake(Next(s, SubmitChat(d, job)))
  {
    var s' := Next(s, SubmitChat(d, job));
    var r := Enqueue(s.mem, d, job);
    forall c: Chat | s'.mem.accepting
      ensures AwakeAt(s', c)
    {
      EnqueueEffect(s.mem, d, job, c);
      assert AwakeAt(s, c);
      if c in s'.mem.active && c !in s.mem.active {
        assert WillTry(s'.threads[|s.threads|], c);
      } else if Pending(s.threads, c) {
        var t :| 0 <= t < |s.threads| && WillTry(s.threads[t], c);
        assert WillTry(s'.threads[t], c);
      }
    }
  }

  lemma AwakeNext(s: State, a: Action)
    requires Safe(s) && Awake(s) && !RefusesWhileAccepting(s, a)
    ensures Awake(Next(s, a))
  {
    match a
    case SubmitChat(d, job) => AwakeSubmit(s, d, job);
    case SubmitBackground(job) =>
      var s' := Next(s, a);
      forall c: Chat | s.mem.accepting ensures AwakeAt(s', c) {
        assert AwakeAt(s, c);
        if Pending(s.threads, c) {
          var t :| 0 <= t < |s.threads| && WillTry(s.threads[t], c);
          assert WillTry(s'.threads[t], c);
        }
      }
    case Shutdown =>
    case Advance(t, takes, order) =>
      if t < |s.threads| {
        if s.mem.accepting {
          AwakeMove(s, t, takes, order);
        } else {
          MoveStarts(s, t, takes, order, "");
        }
      }
  }

  lemma {:induction false} AwakeAlways(s: State, run: seq<Action>)
    requires Safe(s) && Awake(s) && ExecutorHolds(s, run)
    ensures Awake(Run(s, run))
    decreases |run|
  {
    if run != [] {
      AwakeNext(s, run[0]);
      SafeNext(s, run[0]);
      AwakeAlways(Next(s, run[0]), run[1..]);
    }
  }

  /** A thread that holds a permit of class k and, once its job ends, releases it and then dispatches. */
  predicate DispatchesAfterRelease(p: Pc, k: SlotClass) {
    (p.SubmitJob? || p.RunChat? || p.BgSubmit? || p.RunBg?) && Weight(Holds(k), p) == 1
  }

  /** No lost wakeup: in every run in which the executor refuses jobs only after shutdown, an accepting scheduler
      with work queued for a chat that is not in flight either has a thread about to try that chat, or the permits
      its head job needs are all taken and a thread holding one will dispatch after releasing it. */
  lemma NoLostWakeup(run: seq<Action>, c: Chat)
    requires ExecutorHolds(INIT, run)
    requires var s := Run(INIT, run); s.mem.accepting && s.mem.Queue(c) != [] && c !in s.mem.inFlight
    ensures var s := Run(INIT, run); var k := SlotOf(s.mem.Queue(c)[0].work);
      || Pending(s.threads, c)
      || (s.mem.slots.Free(k) == 0 && exists t :: 0 <= t < |s.threads| && DispatchesAfterRelease(s.threads[t], k))
  {
    var s := Run(INIT, run);
    SafeAlways(INIT, run);
    AwakeAlways(INIT, run);
    var k := SlotOf(s.mem.Queue(c)[0].work);
    assert AwakeAt(s, c);
    if !Pending(s.threads, c) {
      assert s.mem.slots.Free(k) + Total(s.threads, Holds(k)) == Capacity(k);
      TotalWitness(s.threads, Holds(k));
      var t :| 0 <= t < |s.threads| && Weight(Holds(k), s.threads[t]) > 0;
      assert DispatchesAfterRelease(s.threads[t], k);
    }
  }

  // ---- Quiescence ----

  ghost predicate Quiescent(s: State) {
    forall t :: 0 <= t < |s.threads| ==> s.threads[t] == Done
  }

  lemma {:induction false} QuiescentTotal(ts: seq<Pc>, m: Measure)
    requires forall t :: 0 <= t < |ts| ==> ts[t] == Done
    ensures Total(ts, m) == 0
  {
    if ts != [] {
      QuiescentTotal(ts[1..], m);
    }
  }

  /** When every thread has finished, every permit is free, nothing is queued or in flight, and every accepted job
      has been started, in order. */
  lemma QuiescentIsDrained(s: State)
    requires Safe(s) && Awake(s) && s.mem.accepting && Quiescent(s)
    ensures s.mem.queues == map[] && s.mem.active == {} && s.mem.inFlight == {}
    ensures forall k :: s.mem.slots.Free(k) == Capacity(k)
    ensures forall c: Chat :: s.Started(c) == s.Submitted(c)
  {
    forall k: SlotClass ensures s.mem.slots.Free(k) == Capacity(k) {
      QuiescentTotal(s.threads, Holds(k));
      assert s.mem.slots.Free(k) + Total(s.threads, Holds(k)) == Capacity(k);
    }
    forall c: Chat ensures c !in s.mem.inFlight && c !in s.mem.active && s.Started(c) == s.Submitted(c) {
      QuiescentTotal(s.threads, Carries(c));
      assert AwakeAt(s, c) && OrderAt(s, c);
      assert Total(s.threads, Carries(c)) == Bit(c in s.mem.inFlight);
      HeldByNone(s.threads, c);
    }
  }

  // ---- Progress ----

  ghost function Backlog(queues: map<Chat, seq<Job>>): nat
    decreases |queues|
  {
    if queues == map[] then 0
    else
      var c :| c in queues;
      |queues[c]| + Backlog(queues - {c})
  }

  lemma {:induction false} BacklogSplit(queues: map<Chat, seq<Job>>, c: Chat)
    requires c in queues
    ensures Backlog(queues) == |queues[c]| + Backlog(queues - {c})
    decreases |queues|
  {
    var d :| d in queues && Backlog(queues) == |queues[d]| + Backlog(queues - {d});
    if d != c {
      BacklogSplit(queues - {d}, c);
      BacklogSplit(queues - {c}, d);
      assert queues - {d} - {c} == queues - {c} - {d};
    }
  }

  lemma BacklogPut(queues: map<Chat, seq<Job>>, c: Chat, q: seq<Job>)
    ensures Backlog(queues[c := q]) == Backlog(queues) - (if c in queues then |queues[c]| else 0) + |q|
  {
    BacklogSplit(queues[c := q], c);
    assert queues[c := q] - {c} == queues - {c};
    if c in queues {
      BacklogSplit(queues, c);
    } else {
      assert queues - {c} == queues;
    }
  }

  lemma BacklogDrop(queues: map<Chat, seq<Job>>, c: Chat)
    ensures Backlog(queues - {c}) == Backlog(queues) - (if c in queues then |queues[c]| else 0)
  {
    if c in queues {
      BacklogSplit(queues, c);
    } else {
      assert queues - {c} == queues;
    }
  }

  /** Unfinished jobs, queued or in a thread's hands. */
  ghost function Unfinished(s: State): nat {
    Backlog(s.mem.queues) + Total(s.threads, Jobs)
  }

  predicate Below(a: nat, b: nat, c: nat, x: nat, y: nat, z: nat) {
    a < x || (a == x && (b < y || (b == y && c < z)))
  }

  lemma RegionProgress(m: Shared, p: Pc, takes: bool, order: seq<Chat>)
    requires p != Done && (p == DispatchSnapshot ==> IsCopyOfKeys(order, m))
    ensures var o := Region(m, p, takes, order);
      Below(Backlog(o.mem.queues) + Weight(Jobs, o.pc) + WeightOf(Jobs, o.future),
            Weight(Dispatches, o.pc) + WeightOf(Dispatches, o.future),
            Weight(Steps, o.pc) + WeightOf(Steps, o.future),
            Backlog(m.queues) + Weight(Jobs, p), Weight(Dispatches, p), Weight(Steps, p))
  {
    match p
    case StartTake(c, r) => TakeProgress(m, c, r);
    case Rejected(c, job, r) => PutBackProgress(m, c, job, r);
    case _ => PlainProgress(m, p, takes, order);
  }

  lemma TakeProgress(m: Shared, c: Chat, r: Resume)
    ensures var p := StartTake(c, r); var o := Region(m, p, false, []);
      Below(Backlog(o.mem.queues) + Weight(Jobs, o.pc) + WeightOf(Jobs, o.future),
            Weight(Dispatches, o.pc) + WeightOf(Dispatches, o.future),
            Weight(Steps, o.pc) + WeightOf(Steps, o.future),
            Backlog(m.queues) + Weight(Jobs, p), Weight(Dispatches, p), Weight(Steps, p))
  {
    BacklogPut(m.queues, c, if m.Queue(c) == [] then [] else m.Queue(c)[1..]);
    BacklogDrop(m.queues, c);
  }

  lemma PutBackProgress(m: Shared, c: Chat, job: Job, r: Resume)
    ensures var p := Rejected(c, job, r); var o := Region(m, p, false, []);
      Below(Backlog(o.mem.queues) + Weight(Jobs, o.pc) + WeightOf(Jobs, o.future),
            Weight(Dispatches, o.pc) + WeightOf(Dispatches, o.future),
            Weight(Steps, o.pc) + WeightOf(Steps, o.future),
            Backlog(m.queues) + Weight(Jobs, p), Weight(Dispatches, p), Weight(Steps, p))
  {
    BacklogPut(m.queues, c, [job] + m.Queue(c));
  }

  lemma PlainProgress(m: Shared, p: Pc, takes: bool, order: seq<Chat>)
    requires p != Done && !p.StartTake? && !p.Rejected? && (p == DispatchSnapshot ==> IsCopyOfKeys(order, m))
    ensures var o := Region(m, p, takes, order);
      && o.mem.queues == m.queues
      && Below(Weight(Jobs, o.pc) + WeightOf(Jobs, o.future),
               Weight(Dispatches, o.pc) + WeightOf(Dispatches, o.future),
               Weight(Steps, o.pc) + WeightOf(Steps, o.future),
               Weight(Jobs, p), Weight(Dispatches, p), Weight(Steps, p))
  {
  }

  /** Every step a thread takes finishes a job, takes a copy of the keys, or brings it nearer to one of these. */
  lemma Progress(s: State, t: nat, takes: bool, order: seq<Chat>)
    requires t < |s.threads| && s.threads[t] != Done
    requires s.threads[t] == DispatchSnapshot ==> IsCopyOfKeys(order, s.mem)
    ensures var s' := Next(s, Advance(t, takes, order));
      Below(Unfinished(s'), Total(s'.threads, Dispatches), Total(s'.threads, Steps),
            Unfinished(s), Total(s.threads, Dispatches), Total(s.threads, Steps))
  {
    MoveTotal(s, t, takes, order, Jobs);
    MoveTotal(s, t, takes, order, Dispatches);
    MoveTotal(s, t, takes, order, Steps);
    MoveStarts(s, t, takes, order, "");
    RegionProgress(s.mem, s.threads[t], takes, order);
  }

  lemma {:induction false} CopyExists(m: Shared, keys: set<Chat>) returns (order: seq<Chat>)
    ensures forall c :: c in order <==> c in keys
    ensures |order| == |keys|
    decreases keys
  {
    order := [];
    if keys != {} {
      var c :| c in keys;
      var rest := CopyExists(m, keys - {c});
      order := [c] + rest;
    }
  }

  ghost predicate ThreadsOnly(run: seq<Action>) {
    forall i :: 0 <= i < |run| ==> run[i].Advance?
  }

  lemma RunFrom(s: State, a: Action, rest: seq<Action>)
    ensures Run(s, [a] + rest) == Run(Next(s, a), rest)
  {
    assert ([a] + rest)[1..] == rest;
  }

  lemma StepOf(s: State, t: nat, order: seq<Chat>) returns (s1: State)
    requires Safe(s) && Awake(s) && s.mem.accepting && t < |s.threads| && s.threads[t] != Done
    requires s.threads[t] == DispatchSnapshot ==> IsCopyOfKeys(order, s.mem)
    ensures s1 == Next(s, Advance(t, true, order))
    ensures Safe(s1) && Awake(s1) && s1.mem.accepting && forall c :: s1.Submitted(c) == s.Submitted(c)
    ensures Below(Unfinished(s1), Total(s1.threads, Dispatches), Total(s1.threads, Steps),
                  Unfinished(s), Total(s.threads, Dispatches), Total(s.threads, Steps))
  {
    var a := Advance(t, true, order);
    s1 := Next(s, a);
    Progress(s, t, true, order);
    SafeNext(s, a);
    AwakeNext(s, a);
    MoveStarts(s, t, true, order, "");
  }

  /** Every accepted job starts: from any state the scheduler can be in while it accepts, letting its threads run,
      with an executor that takes what it is given, starts exactly the jobs submitted, in their order, and ends with
      nothing queued. By Progress no schedule of the threads can avoid ending. */
  lemma {:induction false} EveryAcceptedJobStarts(s: State) returns (run: seq<Action>)
    requires Safe(s) && Awake(s) && s.mem.accepting
    ensures ThreadsOnly(run)
    ensures var s' := Run(s, run);
      Quiescent(s') && s'.mem.queues == map[] && forall c: Chat :: s'.Started(c) == s.Submitted(c)
    decreases Unfinished(s), Total(s.threads, Dispatches), Total(s.threads, Steps)
  {
    if t :| 0 <= t < |s.threads| && s.threads[t] != Done {
      var order := CopyExists(s.mem, s.mem.queues.Keys);
      var s1 := StepOf(s, t, order);
      var rest := EveryAcceptedJobStarts(s1);
      run := [Advance(t, true, order)] + rest;
      RunFrom(s, Advance(t, true, order), rest);
    } else {
      run := [];
      QuiescentIsDrained(s);
    }
  }

  // ---- The executor's refusal while accepting ----

  /** One step of thread t is about to lose the wakeup of chat c: nobody else is about to try c, the thread does not
      resume into trying it, and it either puts a refused job of c back while the permit is free, or releases, without
      a dispatch, the permit the head job of c was waiting for. */
  ghost predicate LosesWakeup(s: State, t: nat, c: Chat)
    requires t < |s.threads|
  {
    var p := s.threads[t];
    && !PendingElsewhere(s.threads, t, c)
    && ((p.Rejected? && p.chat == c && !WillResume(p.resume, c) && s.mem.slots.Free(SlotOf(p.job.work)) > 0)
        || ((p.GiveBack? || p.BgGiveBack?) && c in s.mem.active && c !in s.mem.inFlight && Blocked(s.mem, c)
            && SlotOf(s.mem.Queue(c)[0].work) == p.slot && (p.GiveBack? ==> !WillResume(p.resume, c))))
  }

  lemma RegionLoses(m: Shared, p: Pc, takes: bool, order: seq<Chat>, c: Chat, elsewhere: bool)
    requires m.accepting && KeysAgree(m)
    requires (p.GiveBack? || p.BgGiveBack?) ==> m.slots.Free(p.slot) < Capacity(p.slot)
    requires Weight(Carries(c), p) <= Bit(c in m.inFlight)
    requires c in m.active && c !in m.inFlight ==> elsewhere || WillTry(p, c) || Blocked(m, c)
    ensures var o := Region(m, p, takes, order);
      (c in o.mem.active && c !in o.mem.inFlight && !elsewhere && !WillTry(o.pc, c) && !Blocked(o.mem, c)) <==>
      (!elsewhere
       && ((p.Rejected? && p.chat == c && !WillResume(p.resume, c) && m.slots.Free(SlotOf(p.job.work)) > 0)
           || ((p.GiveBack? || p.BgGiveBack?) && c in m.active && c !in m.inFlight && Blocked(m, c)
               && SlotOf(m.Queue(c)[0].work) == p.slot && (p.GiveBack? ==> !WillResume(p.resume, c)))))
  {
  }

  /** A new future only runs its job. */
  lemma PendingAfter(ts: seq<Pc>, t: nat, o: Outcome, c: Chat)
    requires t < |ts| && (o.future.Some? ==> !WillTry(o.future.value, c))
    ensures Pending(Threads(ts, t, o), c) <==> PendingElsewhere(ts, t, c) || WillTry(o.pc, c)
  {
    var now := Threads(ts, t, o);
    if Pending(now, c) {
      var u :| 0 <= u < |now| && WillTry(now[u], c);
      assert u < |ts|;
      if u != t {
        assert ts[u] == now[u];
      }
    }
    if PendingElsewhere(ts, t, c) || WillTry(o.pc, c) {
      PendingStays(ts, t, o, c);
    }
  }

  /** Exactly when a wakeup is lost, whatever the executor answers: in any state an accepting scheduler can be in, a
      step of thread t leaves a chat that was awake waiting with nobody to try it just in the two cases above. */
  lemma WakeupLostExactly(s: State, t: nat, takes: bool, order: seq<Chat>, c: Chat)
    requires Safe(s) && s.mem.accepting && t < |s.threads| && AwakeAt(s, c)
    ensures AwakeAt(Next(s, Advance(t, takes, order)), c) <==> !LosesWakeup(s, t, c)
  {
    var o := Region(s.mem, s.threads[t], takes, order);
    MoveStarts(s, t, takes, order, c);
    TotalCovers(s.threads, t, Carries(c));
    assert Total(s.threads, Carries(c)) == Bit(c in s.mem.inFlight);
    if s.threads[t].GiveBack? || s.threads[t].BgGiveBack? {
      var k := s.threads[t].slot;
      TotalCovers(s.threads, t, Holds(k));
      assert s.mem.slots.Free(k) + Total(s.threads, Holds(k)) == Capacity(k);
    }
    PendingSplit(s.threads, t, c);
    RegionLoses(s.mem, s.threads[t], takes, order, c, PendingElsewhere(s.threads, t, c));
    PendingAfter(s.threads, t, o, c);
  }

  /** No step of the run loses the wakeup of c. */
  ghost predicate WakeupKept(s: State, run: seq<Action>, c: Chat)
    decreases |run|
  {
    run != [] ==>
      && (s.mem.accepting && run[0].Advance? && run[0].thread < |s.threads| ==> !LosesWakeup(s, run[0].thread, c))
      && WakeupKept(Next(s, run[0]), run[1..], c)
  }

  lemma AwakeAtNext(s: State, a: Action, c: Chat)
    requires Safe(s) && s.mem.accepting && AwakeAt(s, c) && Next(s, a).mem.accepting
    requires a.Advance? && a.thread < |s.threads| ==> !LosesWakeup(s, a.thread, c)
    ensures AwakeAt(Next(s, a), c)
  {
    match a
    case SubmitChat(d, job) =>
      EnqueueEffect(s.mem, d, job, c);
      var s' := Next(s, a);
      if c in s'.mem.active && c !in s.mem.active {
        assert WillTry(s'.threads[|s.threads|], c);
      } else if Pending(s.threads, c) {
        var t :| 0 <= t < |s.threads| && WillTry(s.threads[t], c);
        assert WillTry(s'.threads[t], c);
      }
    case SubmitBackground(job) =>
      if Pending(s.threads, c) {
        var t :| 0 <= t < |s.threads| && WillTry(s.threads[t], c);
        assert WillTry(Next(s, a).threads[t], c);
      }
    case Shutdown =>
    case Advance(t, takes, order) =>
      if t < |s.threads| {
        WakeupLostExactly(s, t, takes, order, c);
      }
  }

  lemma ClosedStaysClosed(s: State, a: Action)
    requires !s.mem.accepting
    ensures !Next(s, a).mem.accepting
  {
    if a.Advance? && a.thread < |s.threads| {
      assert Next(s, a).mem.accepting == Region(s.mem, s.threads[a.thread], a.executorTakes, a.order).mem.accepting;
    }
  }

  /** In every run, refusals included, a chat stays awake as long as no step loses its wakeup. */
  lemma {:induction false} AwakeUntilLost(s: State, run: seq<Action>, c: Chat)
    requires Safe(s) && (s.mem.accepting ==> AwakeAt(s, c)) && WakeupKept(s, run, c)
    ensures Run(s, run).mem.accepting ==> AwakeAt(Run(s, run), c)
    decreases |run|
  {
    if run != [] {
      SafeNext(s, run[0]);
      if !s.mem.accepting {
        ClosedStaysClosed(s, run[0]);
      } else if Next(s, run[0]).mem.accepting {
        AwakeAtNext(s, run[0], c);
      }
      AwakeUntilLost(Next(s, run[0]), run[1..], c);
    }
  }

  lemma ThreeSteps(s: State, a: Action)
    ensures Run(s, [a, a, a]) == Next(Next(Next(s, a), a), a)
  {
    RunFrom(s, a, [a, a]);
    RunFrom(Next(s, a), a, [a]);
    RunFrom(Next(Next(s, a), a), a, []);
    assert [a] + [a, a] == [a, a, a] && [a] + [a] == [a, a] && [a] + [] == [a];
  }

  lemma RefusalTrail(s: State, t: nat, c: Chat, job: Job, r: Resume)
    requires s.mem.accepting && t < |s.threads| && s.threads[t] == SubmitJob(c, job, r)
    ensures var a := Advance(t, false, []); var s' := Run(s, [a, a, a]);
      && s'.mem == Release(PutBack(s.mem, c, job), SlotOf(job.work))
      && s'.threads == s.threads[t := After(r)] && s'.submitted == s.submitted && s'.started == s.started
  {
    var a := Advance(t, false, []);
    ThreeSteps(s, a);
    var s1 := Next(s, a);
    assert s1 == s.(threads := s.threads[t := Rejected(c, job, r)]);
    var s2 := Next(s1, a);
    assert s2.threads == s.threads[t := GiveBack(SlotOf(job.work), r)];
    var s3 := Next(s2, a);
    assert s3.threads == s.threads[t := After(r)];
  }

  /** The executor refuses a job of c in any state of an accepting scheduler, and the thread puts it back and releases
      its permit (lines 325-335). Then c waits at the head of its queue with a free permit, and it will be tried again
      exactly when another thread was about to try it or this one resumes into trying it. */
  lemma RefusalWakes(s: State, t: nat, c: Chat, job: Job, r: Resume)
    requires Safe(s) && s.mem.accepting && t < |s.threads| && s.threads[t] == SubmitJob(c, job, r)
    ensures var a := Advance(t, false, []); var s' := Run(s, [a, a, a]);
      && s'.mem.accepting && s'.mem.Queue(c) == [job] + s.mem.Queue(c)
      && c in s'.mem.active && c !in s'.mem.inFlight && s'.mem.slots.Free(SlotOf(job.work)) > 0
      && (Pending(s'.threads, c) <==> AwakeAt(s', c))
      && (AwakeAt(s', c) <==> PendingElsewhere(s.threads, t, c) || WillResume(r, c))
  {
    RefusalTrail(s, t, c, job, r);
    TotalCovers(s.threads, t, Carries(c));
    assert Total(s.threads, Carries(c)) == Bit(c in s.mem.inFlight);
    PendingAfter(s.threads, t, Outcome(s.mem, After(r), None), c);
    assert Threads(s.threads, t, Outcome(s.mem, After(r), None)) == s.threads[t := After(r)];
  }

  lemma TakenTrail(s: State, t: nat, c: Chat, job: Job)
    requires s.mem.accepting && t < |s.threads| && s.threads[t] == SubmitJob(c, job, Return)
    ensures var a := Advance(t, true, []); var s' := Run(s, [a, a, a]);
      |s'.threads| == |s.threads| + 1 && s'.threads[|s.threads|] == RunChat(c, job)
  {
    var a := Advance(t, true, []);
    ThreeSteps(s, a);
    var s1 := Next(s, a);
    assert s1.threads[t] == Done && s1.threads[t := Done] == s1.threads;
  }

  /** The last running thread is about to hand a popped job to the executor of an accepting scheduler. The job's
      chat ends up stranded, queued with its permit free and no thread left to try it, exactly when the executor
      refuses: line 328 puts the job back and schedules no restart. */
  lemma RefusalStrands(s: State, t: nat, c: Chat, job: Job, takes: bool)
    requires Safe(s) && s.mem.accepting && t < |s.threads| && s.threads[t] == SubmitJob(c, job, Return)
    requires forall u :: 0 <= u < |s.threads| && u != t ==> s.threads[u] == Done
    ensures var a := Advance(t, takes, []); var s' := Run(s, [a, a, a]);
      (s'.mem.accepting && s'.mem.Queue(c) != [] && c !in s'.mem.inFlight
       && Quiescent(s') && s'.mem.slots.Free(SlotOf(s'.mem.Queue(c)[0].work)) > 0) <==> !takes
  {
    if takes {
      TakenTrail(s, t, c, job);
    } else {
      RefusalTrail(s, t, c, job, Return);
    }
  }

  /** Steps of threads, and further jobs for the same chat. */
  predicate SameChat(a: Action, c: Chat) {
    a.Advance? || (a.SubmitChat? && a.chat == c)
  }

  /** A stranded chat stays stranded: it is active, so even new jobs for it start nothing. */
  lemma {:induction false} StaysStranded(s: State, c: Chat, more: seq<Action>)
    requires s.mem.accepting && Quiescent(s) && c in s.mem.active && forall i :: 0 <= i < |more| ==> SameChat(more[i], c)
    ensures Run(s, more).threads == s.threads && Run(s, more).started == s.started && Run(s, more).mem.accepting
    decreases |more|
  {
    if more != [] {
      var a := more[0];
      assert SameChat(a, c);
      var s1 := Next(s, a);
      assert s1.threads == s.threads && s1.started == s.started && c in s1.mem.active by {
        if a.Advance? && a.thread < |s.threads| {
          assert s.threads[a.thread] == Done;
          assert s.threads[a.thread := Done] == s.threads;
        }
      }
      assert forall i :: 0 <= i < |more[1..]| ==> more[1..][i] == more[i + 1];
      StaysStranded(s1, c, more[1..]);
    }
  }

  lemma SlotBack(sl: Slots, k: SlotClass, n: nat)
    ensures sl.With(k, n).With(k, sl.Free(k)) == sl
  {
    match k
    case Generation =>
    case Utility =>
    case Memory =>
  }

  /** The memory after the first submission, after its pop, and after the pop is undone. */
  function Submitted1(c: Chat, job: Job): Shared { START.(queues := map[c := [job]], active := {c}) }

  function Popped1(c: Chat, job: Job): Shared {
    var k := SlotOf(job.work);
    START.(queues := map[c := []], active := {c}, inFlight := {c}, slots := START.slots.With(k, Capacity(k) - 1))
  }

  lemma FirstMemories(c: Chat, job: Job)
    ensures Enqueue(START, c, job) == Submission(Submitted1(c, job), true, true)
    ensures TakeNext(Submitted1(c, job), c) == Taken(Popped1(c, job), Some(job))
    ensures Release(PutBack(Popped1(c, job), c, job), SlotOf(job.work)) == Submitted1(c, job)
  {
    var k := SlotOf(job.work);
    assert START.Queue(c) + [job] == [job];
    assert START.queues[c := [job]] == map[c := [job]];
    var m := Submitted1(c, job);
    assert START.slots.Free(k) == Capacity(k) > 0;
    assert m.Queue(c)[1..] == [] && m.queues[c := []] == map[c := []];
    assert TakeNext(m, c).mem.inFlight == {c};
    var p := Popped1(c, job);
    assert [job] + p.Queue(c) == [job] && p.queues[c := [job]] == map[c := [job]];
    SlotBack(START.slots, k, Capacity(k) - 1);
  }

  /** From a submission to its popped job in two steps. */
  lemma FirstPop(c: Chat, job: Job)
    ensures var s := Next(Next(Next(INIT, SubmitChat(c, job)), REFUSED), REFUSED);
      s == State(Popped1(c, job), [SubmitJob(c, job, Return)], map[c := [job]], map[])
  {
    FirstMemories(c, job);
    var s0 := Next(INIT, SubmitChat(c, job));
    assert INIT.Submitted(c) + [job] == [job];
    assert s0 == State(Submitted1(c, job), [StartCheck(c, Return)], map[c := [job]], map[]);
    var s1 := Next(s0, REFUSED);
    assert s1 == s0.(threads := [StartTake(c, Return)]);
  }

  lemma RunTwo(s: State, a: Action, b: Action, rest: seq<Action>)
    ensures Run(s, [a, b] + rest) == Run(Next(Next(s, a), b), rest)
  {
    RunFrom(s, a, [b] + rest);
    RunFrom(Next(s, a), b, rest);
    assert [a] + ([b] + rest) == [a, b] + rest;
  }

  const REFUSED := Advance(0, false, [])

  /** One submission, and a thread that runs to its end while the executor refuses the job. */
  function RefusedAtOnce(c: Chat, job: Job): seq<Action> {
    [SubmitChat(c, job), REFUSED] + ([REFUSED] + [REFUSED, REFUSED, REFUSED])
  }

  lemma AfterRefusal(c: Chat, job: Job)
    ensures Run(INIT, RefusedAtOnce(c, job)) == State(Submitted1(c, job), [Done], map[c := [job]], map[])
  {
    FirstPop(c, job);
    FirstMemories(c, job);
    RunTwo(INIT, SubmitChat(c, job), REFUSED, [REFUSED] + [REFUSED, REFUSED, REFUSED]);
    var s1 := Next(Next(INIT, SubmitChat(c, job)), REFUSED);
    RunFrom(s1, REFUSED, [REFUSED, REFUSED, REFUSED]);
    var s2 := Next(s1, REFUSED);
    RefusalTrail(s2, 0, c, job, Return);
    assert s2.threads[0 := Done] == [Done];
  }

  /** A run from the start that loses an accepted job: one submission whose start the executor refuses. Afterwards every
      thread has finished, all permits are free and the job is queued, and neither the threads nor further jobs for that
      chat ever start it. */
  lemma RefusalLosesAJob(c: Chat, job: Job, more: seq<Action>)
    requires forall i :: 0 <= i < |more| ==> SameChat(more[i], c)
    ensures var s := Run(INIT, RefusedAtOnce(c, job));
      && s.mem.accepting && Quiescent(s) && s.Submitted(c) == s.mem.Queue(c) == [job] && s.mem.slots == START.slots
      && !AwakeAt(s, c)
      && Quiescent(Run(s, more)) && Run(s, more).Started(c) == []
  {
    AfterRefusal(c, job);
    var s := State(Submitted1(c, job), [Done], map[c := [job]], map[]);
    assert !Blocked(s.mem, c);
    StaysStranded(s, c, more);
  }
}
