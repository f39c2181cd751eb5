/** Every interleaving of the scheduler's threads over its shared memory. */
module SchedulerRuns {
  import opened Scheduler

  // ---- Threads ----

  /** What a call of _start_next_chat_job returns into. */
  datatype Resume = Return | ThenDispatch | Loop(rest: seq<Chat>)

  /** Where a thread stands between two atomic regions; a finished thread stays Done. */
  datatype Pc =
    | Done
    | StartCheck(chat: Chat, resume: Resume)              // about to read the accept flag (line 307)
    | StartTake(chat: Chat, resume: Resume)               // about to enter the guarded region (line 310)
    | SubmitJob(chat: Chat, job: Job, resume: Resume)     // popped, about to call the executor (line 323)
    | Rejected(chat: Chat, job: Job, resume: Resume)      // no future, about to clean up (line 325)
    | GiveBack(slot: SlotClass, resume: Resume)           // cleaned up, about to release the permit (line 331)
    | RunChat(chat: Chat, job: Job)                       // a future with its completion callback attached
    | Landing(chat: Chat)                                 // permit released, still in flight (line 336)
    | DispatchCheck                                       // about to read the accept flag (line 292)
    | DispatchSnapshot                                    // about to copy the queue keys (line 294)
    | DispatchNext(rest: seq<Chat>)                       // between two chats of the copy (line 296)
    | BgCheck(job: Job)                                   // submit_background before its accept check (line 212)
    | BgAcquire(job: Job)                                 // about to try its semaphore (line 217)
    | BgSubmit(job: Job)                                  // holding a permit, about to call the executor (line 221)
    | BgGiveBack(slot: SlotClass)                         // no future, about to release the permit (line 223)
    | RunBg(job: Job)                                     // an unordered future with its callback attached

  function After(r: Resume): Pc {
    match r
    case Return => Done
    case ThenDispatch => DispatchCheck
    case Loop(rest) => DispatchNext(rest)
  }

  /** mem is shared; threads are the program points; submitted and started are history: the jobs of each chat in
      the order they were accepted, and in the order the executor took them. */
  datatype State = State(
    mem: Shared,
    threads: seq<Pc>,
    submitted: map<Chat, seq<Job>>,
    started: map<Chat, seq<Job>>)
  {
    function Submitted(c: Chat): seq<Job> { if c in submitted then submitted[c] else [] }
    function Started(c: Chat): seq<Job> { if c in started then started[c] else [] }
  }

  const INIT := State(START, [], map[], map[])

  datatype Action =
    | SubmitChat(chat: Chat, job: Job)
    | SubmitBackground(job: Job)
    | Shutdown
    | Advance(thread: nat, executorTakes: bool, order: seq<Chat>)

  /** One atomic step. Advance runs one thread to its next program point; executorTakes is the executor's answer
      where it is asked, order the dictionary order where the queue keys are copied. */
  ghost function Next(s: State, a: Action): State {
    match a
    case SubmitChat(c, job) =>
      var r := Enqueue(s.mem, c, job);
      State(r.mem,
            if r.accepted && r.shouldStart then s.threads + [StartCheck(c, Return)] else s.threads,
            if r.accepted then s.submitted[c := s.Submitted(c) + [job]] else s.submitted,
            s.started)
    case SubmitBackground(job) => s.(threads := s.threads + [BgCheck(job)])
    case Shutdown => s.(mem := Close(s.mem))
    case Advance(t, takes, order) =>
      if t < |s.threads| then Move(s, t, takes, order) else s
  }

  ghost predicate IsCopyOfKeys(order: seq<Chat>, m: Shared) {
    && (forall c :: c in order <==> c in m.queues)
    && |order| == |m.queues|
  }

  /** What one thread does in one atomic region: the memory and the program point it leaves, and the future the
      executor took, if it took one. */
  datatype Outcome = Outcome(mem: Shared, pc: Pc, future: Option<Pc>)

  ghost function Region(m: Shared, p: Pc, takes: bool, order: seq<Chat>): Outcome {
    match p
    case Done => Outcome(m, Done, None)
    case StartCheck(c, r) => Outcome(m, if m.accepting then StartTake(c, r) else After(r), None)
    case StartTake(c, r) =>
      var took := TakeNext(m, c);
      Outcome(took.mem, if took.job.Some? then SubmitJob(c, took.job.value, r) else After(r), None)
    case SubmitJob(c, job, r) =>
      if m.accepting && takes then Outcome(m, After(r), Some(RunChat(c, job)))
      else Outcome(m, Rejected(c, job, r), None)
    case Rejected(c, job, r) => Outcome(PutBack(m, c, job), GiveBack(SlotOf(job.work), r), None)
    case GiveBack(k, r) => Outcome(Release(m, k), After(r), None)
    case RunChat(c, job) => Outcome(Release(m, SlotOf(job.work)), Landing(c), None)
    case Landing(c) => Outcome(Land(m, c), StartCheck(c, ThenDispatch), None)
    case DispatchCheck => Outcome(m, if m.accepting then DispatchSnapshot else Done, None)
    case DispatchSnapshot => Outcome(m, if IsCopyOfKeys(order, m) then DispatchNext(order) else p, None)
    case DispatchNext(rest) => Outcome(m, if rest == [] then Done else StartCheck(rest[0], Loop(rest[1..])), None)
    case BgCheck(job) => Outcome(m, if m.accepting then BgAcquire(job) else Done, None)
    case BgAcquire(job) =>
      if m.slots.Free(SlotOf(job.work)) > 0 then Outcome(Acquire(m, SlotOf(job.work)), BgSubmit(job), None)
      else Outcome(m, Done, None)
    case BgSubmit(job) =>
      Outcome(m, if m.accepting && takes then RunBg(job) else BgGiveBack(SlotOf(job.work)), None)
    case BgGiveBack(k) => Outcome(Release(m, k), Done, None)
    case RunBg(job) => Outcome(Release(m, SlotOf(job.work)), DispatchCheck, None)
  }

  ghost function Move(s: State, t: nat, takes: bool, order: seq<Chat>): State
    requires t < |s.threads|
  {
    var o := Region(s.mem, s.threads[t], takes, order);
    match o.future
    case None => s.(mem := o.mem, threads := s.threads[t := o.pc])
    case Some(f) =>
      State(o.mem, s.threads[t := o.pc] + [f], s.submitted, s.started[f.chat := s.Started(f.chat) + [f.job]])
  }

  ghost function Run(s: State, actions: seq<Action>): State
    decreases |actions|
  {
    if actions == [] then s else Run(Next(s, actions[0]), actions[1..])
  }

  // ---- Sums over threads ----

  datatype Measure =
    | Holds(k: SlotClass)     // permits of one class a thread holds
    | Carries(chat: Chat)     // whether a thread has one chat in flight
    | Popped(chat: Chat)      // whether it holds a popped job of that chat the executor has not taken
    | Jobs                    // jobs a thread still has to finish
    | Dispatches              // copies of the queue keys it still has to take
    | Steps                   // atomic regions it still has to pass

  function Ahead(r: Resume): nat {
    if r.ThenDispatch? then 1 else 0
  }

  function Left(r: Resume): nat {
    match r
    case Return => 0
    case ThenDispatch => 2
    case Loop(rest) => 1 + 8 * |rest|
  }

  function Weight(m: Measure, p: Pc): nat {
    match m
    case Holds(k) =>
      (match p
       case SubmitJob(_, job, _) => if SlotOf(job.work) == k then 1 else 0
       case Rejected(_, job, _) => if SlotOf(job.work) == k then 1 else 0
       case RunChat(_, job) => if SlotOf(job.work) == k then 1 else 0
       case BgSubmit(job) => if SlotOf(job.work) == k then 1 else 0
       case RunBg(job) => if SlotOf(job.work) == k then 1 else 0
       case GiveBack(j, _) => if j == k then 1 else 0
       case BgGiveBack(j) => if j == k then 1 else 0
       case _ => 0)
    case Carries(c) =>
      (match p
       case SubmitJob(d, _, _) => if d == c then 1 else 0
       case Rejected(d, _, _) => if d == c then 1 else 0
       case RunChat(d, _) => if d == c then 1 else 0
       case Landing(d) => if d == c then 1 else 0
       case _ => 0)
    case Popped(c) =>
      (match p
       case SubmitJob(d, _, _) => if d == c then 1 else 0
       case Rejected(d, _, _) => if d == c then 1 else 0
       case _ => 0)
    case Jobs => if p.SubmitJob? || p.Rejected? || p.RunChat? || p.BgCheck? || p.BgAcquire? || p.BgSubmit? || p.RunBg? then 1 else 0
    case Dispatches =>
      (match p
       case StartCheck(_, r) => Ahead(r)
       case StartTake(_, r) => Ahead(r)
       case SubmitJob(_, _, r) => Ahead(r)
       case Rejected(_, _, r) => Ahead(r)
       case GiveBack(_, r) => Ahead(r)
       case Landing(_) => 1
       case DispatchCheck => 1
       case DispatchSnapshot => 1
       case _ => 0)
    case Steps =>
      (match p
       case Done => 0
       case StartCheck(_, r) => 6 + Left(r)
       case StartTake(_, r) => 5 + Left(r)
       case SubmitJob(_, _, r) => 4 + Left(r)
       case Rejected(_, _, r) => 3 + Left(r)
       case GiveBack(_, r) => 2 + Left(r)
       case RunChat(_, _) => 1
       case Landing(_) => 9
       case DispatchCheck => 2
       case DispatchSnapshot => 1
       case DispatchNext(rest) => 1 + 8 * |rest|
       case BgCheck(_) => 4
       case BgAcquire(_) => 3
       case BgSubmit(_) => 2
       case BgGiveBack(_) => 1
       case RunBg(_) => 1)
  }

  function Total(ts: seq<Pc>, m: Measure): nat {
    if ts == [] then 0 else Weight(m, ts[0]) + Total(ts[1..], m)
  }

  lemma {:induction false} TotalUpdate(ts: seq<Pc>, t: nat, p: Pc, m: Measure)
    requires t < |ts|
    ensures Total(ts[t := p], m) == Total(ts, m) - Weight(m, ts[t]) + Weight(m, p)
  {
    if t == 0 {
      assert ts[t := p][1..] == ts[1..];
    } else {
      TotalUpdate(ts[1..], t - 1, p, m);
      assert ts[t := p][1..] == ts[1..][t - 1 := p];
    }
  }

  lemma {:induction false} TotalAppend(ts: seq<Pc>, p: Pc, m: Measure)
    ensures Total(ts + [p], m) == Total(ts, m) + Weight(m, p)
  {
    if ts == [] {
      assert ts + [p] == [p];
    } else {
      TotalAppend(ts[1..], p, m);
      assert (ts + [p])[1..] == ts[1..] + [p];
    }
  }

  lemma {:induction false} TotalCovers(ts: seq<Pc>, t: nat, m: Measure)
    requires t < |ts|
    ensures Weight(m, ts[t]) <= Total(ts, m)
    ensures forall u :: 0 <= u < |ts| && u != t ==> Weight(m, ts[t]) + Weight(m, ts[u]) <= Total(ts, m)
  {
    forall u | 0 <= u < |ts| && u != t ensures Weight(m, ts[t]) + Weight(m, ts[u]) <= Total(ts, m) {
      TotalUpdate(ts, t, Done, m);
      TotalUpdate(ts[t := Done], u, Done, m);
    }
    TotalUpdate(ts, t, Done, m);
  }

  lemma {:induction false} TotalWitness(ts: seq<Pc>, m: Measure)
    requires Total(ts, m) > 0
    ensures exists t :: 0 <= t < |ts| && Weight(m, ts[t]) > 0
  {
    if Weight(m, ts[0]) == 0 {
      TotalWitness(ts[1..], m);
      var t :| 0 <= t < |ts[1..]| && Weight(m, ts[1..][t]) > 0;
      assert Weight(m, ts[t + 1]) > 0;
    }
  }

  function WeightOf(m: Measure, f: Option<Pc>): nat {
    if f.Some? then Weight(m, f.value) else 0
  }

  /** What one thread's step does to any sum. */
  lemma MoveTotal(s: State, t: nat, takes: bool, order: seq<Chat>, m: Measure)
    requires t < |s.threads|
    ensures var o := Region(s.mem, s.threads[t], takes, order);
      Total(Move(s, t, takes, order).threads, m)
        == Total(s.threads, m) - Weight(m, s.threads[t]) + Weight(m, o.pc) + WeightOf(m, o.future)
  {
    var o := Region(s.mem, s.threads[t], takes, order);
    TotalUpdate(s.threads, t, o.pc, m);
    if o.future.Some? {
      TotalAppend(s.threads[t := o.pc], o.future.value, m);
    }
  }
}
