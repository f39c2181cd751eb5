/** What every run of the scheduler keeps, whatever the executor answers. */
module SchedulerSafety {
  import opened Scheduler
  import opened SchedulerRuns

  /** Free permits and permits held by threads make up each semaphore's capacity. */
  ghost predicate Balanced(s: State) {
    forall k: SlotClass :: s.mem.slots.Free(k) + Total(s.threads, Holds(k)) == Capacity(k)
  }

  /** A chat in the in-flight set is carried by exactly one thread, any other chat by none. */
  ghost predicate SingleFlight(s: State) {
    forall c: Chat :: Total(s.threads, Carries(c)) == (if c in s.mem.inFlight then 1 else 0)
  }

  /** The active set is the key set of the queues, it contains every chat in flight until shutdown, and shutdown
      leaves nothing queued. */
  ghost predicate KeysAgree(m: Shared) {
    && m.active == m.queues.Keys
    && (if m.accepting then m.inFlight <= m.active else m.queues == map[])
  }

  /** The popped job of chat c that thread p holds and the executor has not taken, if there is one. */
  function InHand(p: Pc, c: Chat): seq<Job> {
    if (p.SubmitJob? || p.Rejected?) && p.chat == c then [p.job] else []
  }

  function Held(ts: seq<Pc>, c: Chat): seq<Job> {
    if ts == [] then [] else InHand(ts[0], c) + Held(ts[1..], c)
  }

  /** What a chat has started is a prefix of what it submitted; until shutdown the rest is, in order, the popped
      job and the queue. */
  ghost predicate InOrder(s: State) { forall c: Chat :: OrderAt(s, c) }

  ghost predicate OrderAt(s: State, c: Chat) {
    && s.Started(c) <= s.Submitted(c)
    && (s.mem.accepting ==> s.Submitted(c) == s.Started(c) + Held(s.threads, c) + s.mem.Queue(c))
  }

  /** A rejected job may come back to a queue that filled up meanwhile, hence the one above the limit. */
  ghost predicate Bounded(s: State) {
    && |s.mem.queues| <= MAX_SCOPED_QUEUES
    && forall c: Chat :: BoundedAt(s, c)
  }

  ghost predicate BoundedAt(s: State, c: Chat) {
    |s.mem.Queue(c)| + Total(s.threads, Popped(c)) <= MAX_QUEUED_PER_CHAT + 1
  }

  ghost predicate Safe(s: State) {
    && Balanced(s) && SingleFlight(s) && KeysAgree(s.mem) && InOrder(s) && Bounded(s)
  }

  lemma NewThread(s: State, p: Pc)
    ensures forall m {:trigger Total(s.threads + [p], m)} :: Total(s.threads + [p], m) == Total(s.threads, m) + Weight(m, p)
  {
    forall m {:trigger Total(s.threads + [p], m)}
      ensures Total(s.threads + [p], m) == Total(s.threads, m) + Weight(m, p)
    {
      TotalAppend(s.threads, p, m);
    }
  }

  /** A region moves permits only between the semaphore and its own thread or the future it creates. */
  lemma RegionSlots(m: Shared, p: Pc, takes: bool, order: seq<Chat>, k: SlotClass)
    requires forall j :: m.slots.Free(j) + Weight(Holds(j), p) <= Capacity(j)
    ensures var o := Region(m, p, takes, order);
      o.mem.slots.Free(k) + Weight(Holds(k), o.pc) + WeightOf(Holds(k), o.future)
        == m.slots.Free(k) + Weight(Holds(k), p)
  {
  }

  lemma BalancedMove(s: State, t: nat, takes: bool, order: seq<Chat>, k: SlotClass)
    requires t < |s.threads| && Balanced(s)
    ensures var s' := Move(s, t, takes, order);
      s'.mem.slots.Free(k) + Total(s'.threads, Holds(k)) == Capacity(k)
  {
    forall j: SlotClass ensures s.mem.slots.Free(j) + Weight(Holds(j), s.threads[t]) <= Capacity(j) {
      TotalCovers(s.threads, t, Holds(j));
      assert s.mem.slots.Free(j) + Total(s.threads, Holds(j)) == Capacity(j);
    }
    RegionSlots(s.mem, s.threads[t], takes, order, k);
    MoveTotal(s, t, takes, order, Holds(k));
    assert s.mem.slots.Free(k) + Total(s.threads, Holds(k)) == Capacity(k);
  }

  lemma BalancedNext(s: State, a: Action)
    requires Balanced(s)
    ensures Balanced(Next(s, a))
  {
    match a
    case SubmitChat(c, job) => NewThread(s, StartCheck(c, Return));
    case SubmitBackground(job) => NewThread(s, BgCheck(job));
    case Shutdown =>
    case Advance(t, takes, order) =>
      if t < |s.threads| {
        forall k: SlotClass
          ensures Next(s, a).mem.slots.Free(k) + Total(Next(s, a).threads, Holds(k)) == Capacity(k)
        {
          BalancedMove(s, t, takes, order, k);
        }
      }
  }

  function Bit(b: bool): nat { if b then 1 else 0 }

  /** A region changes the in-flight set only for the chat its thread carries or takes. */
  lemma RegionFlight(m: Shared, p: Pc, takes: bool, order: seq<Chat>, c: Chat)
    requires Weight(Carries(c), p) <= Bit(c in m.inFlight)
    ensures var o := Region(m, p, takes, order);
      Weight(Carries(c), o.pc) + WeightOf(Carries(c), o.future) + Bit(c in m.inFlight)
        == Weight(Carries(c), p) + Bit(c in o.mem.inFlight)
  {
  }

  lemma SingleFlightMove(s: State, t: nat, takes: bool, order: seq<Chat>, c: Chat)
    requires t < |s.threads| && SingleFlight(s)
    ensures var s' := Move(s, t, takes, order);
      Total(s'.threads, Carries(c)) == (if c in s'.mem.inFlight then 1 else 0)
  {
    TotalCovers(s.threads, t, Carries(c));
    assert Total(s.threads, Carries(c)) == Bit(c in s.mem.inFlight);
    RegionFlight(s.mem, s.threads[t], takes, order, c);
    MoveTotal(s, t, takes, order, Carries(c));
  }

  lemma SingleFlightNext(s: State, a: Action)
    requires SingleFlight(s)
    ensures SingleFlight(Next(s, a))
  {
    match a
    case SubmitChat(d, job) => NewThread(s, StartCheck(d, Return));
    case SubmitBackground(job) => NewThread(s, BgCheck(job));
    case Shutdown =>
    case Advance(t, takes, order) =>
      if t < |s.threads| {
        forall c: Chat
          ensures Total(Next(s, a).threads, Carries(c)) == (if c in Next(s, a).mem.inFlight then 1 else 0)
        {
          SingleFlightMove(s, t, takes, order, c);
        }
      }
  }

  /** A carried chat is in flight, and carried by no other thread. */
  lemma CarriedIsInFlight(s: State, t: nat, c: Chat)
    requires SingleFlight(s) && t < |s.threads| && Weight(Carries(c), s.threads[t]) == 1
    ensures c in s.mem.inFlight
    ensures forall u :: 0 <= u < |s.threads| && u != t ==> Weight(Carries(c), s.threads[u]) == 0
  {
    TotalCovers(s.threads, t, Carries(c));
    assert Total(s.threads, Carries(c)) == (if c in s.mem.inFlight then 1 else 0);
  }

  lemma RegionKeys(m: Shared, p: Pc, takes: bool, order: seq<Chat>)
    requires KeysAgree(m)
    requires forall c :: Weight(Carries(c), p) <= Bit(c in m.inFlight)
    ensures KeysAgree(Region(m, p, takes, order).mem)
  {
    match p
    case StartTake(c, r) =>
    case Rejected(c, job, r) => assert Weight(Carries(c), p) <= Bit(c in m.inFlight);
    case _ =>
  }

  lemma KeysAgreeNext(s: State, a: Action)
    requires SingleFlight(s) && KeysAgree(s.mem)
    ensures KeysAgree(Next(s, a).mem)
  {
    match a
    case Advance(t, takes, order) =>
      if t < |s.threads| {
        forall c ensures Weight(Carries(c), s.threads[t]) <= Bit(c in s.mem.inFlight) {
          TotalCovers(s.threads, t, Carries(c));
          assert Total(s.threads, Carries(c)) == Bit(c in s.mem.inFlight);
        }
        RegionKeys(s.mem, s.threads[t], takes, order);
      }
    case _ =>
  }

  lemma {:induction false} PoppedIsCarried(ts: seq<Pc>, c: Chat)
    ensures Total(ts, Popped(c)) <= Total(ts, Carries(c))
  {
    if ts != [] {
      PoppedIsCarried(ts[1..], c);
    }
  }

  /** In each region a chat's queued, popped and taken jobs only move forward along queue, thread, executor,
      or back to the head of the queue. */
  lemma RegionQueue(m: Shared, p: Pc, takes: bool, order: seq<Chat>, c: Chat)
    ensures var o := Region(m, p, takes, order);
      |o.mem.Queue(c)| + Weight(Popped(c), o.pc) + WeightOf(Popped(c), o.future)
        <= |m.Queue(c)| + Weight(Popped(c), p)
  {
  }

  lemma RegionQueueCount(m: Shared, p: Pc, takes: bool, order: seq<Chat>)
    requires KeysAgree(m)
    requires forall c :: Weight(Carries(c), p) <= Bit(c in m.inFlight)
    ensures Region(m, p, takes, order).mem.queues.Keys <= m.queues.Keys
    ensures |Region(m, p, takes, order).mem.queues| <= |m.queues|
  {
    match p
    case Rejected(c, job, r) => assert Weight(Carries(c), p) <= Bit(c in m.inFlight);
    case _ =>
    SubsetSize(Region(m, p, takes, order).mem.queues.Keys, m.queues.Keys);
  }

  lemma {:induction false} SubsetSize(a: set<Chat>, b: set<Chat>)
    requires a <= b
    ensures |a| <= |b|
  {
    if a != {} {
      var c :| c in a;
      SubsetSize(a - {c}, b - {c});
    }
  }

  lemma BoundedSubmit(s: State, d: Chat, job: Job, c: Chat)
    requires SingleFlight(s) && BoundedAt(s, c)
    ensures BoundedAt(Next(s, SubmitChat(d, job)), c)
  {
    PoppedIsCarried(s.threads, c);
    assert Total(s.threads, Carries(c)) == Bit(c in s.mem.inFlight);
    NewThread(s, StartCheck(d, Return));
  }

  lemma BoundedMove(s: State, t: nat, takes: bool, order: seq<Chat>, c: Chat)
    requires t < |s.threads| && BoundedAt(s, c)
    ensures BoundedAt(Move(s, t, takes, order), c)
  {
    MoveTotal(s, t, takes, order, Popped(c));
    RegionQueue(s.mem, s.threads[t], takes, order, c);
  }

  lemma BoundedCount(s: State, a: Action)
    requires SingleFlight(s) && KeysAgree(s.mem) && |s.mem.queues| <= MAX_SCOPED_QUEUES
    ensures |Next(s, a).mem.queues| <= MAX_SCOPED_QUEUES
  {
    match a
    case Advance(t, takes, order) =>
      if t < |s.threads| {
        forall c ensures Weight(Carries(c), s.threads[t]) <= Bit(c in s.mem.inFlight) {
          TotalCovers(s.threads, t, Carries(c));
          assert Total(s.threads, Carries(c)) == Bit(c in s.mem.inFlight);
        }
        RegionQueueCount(s.mem, s.threads[t], takes, order);
      }
    case _ =>
  }

  lemma BoundedNext(s: State, a: Action)
    requires SingleFlight(s) && KeysAgree(s.mem) && Bounded(s)
    ensures Bounded(Next(s, a))
  {
    BoundedCount(s, a);
    forall c: Chat ensures BoundedAt(Next(s, a), c) {
      assert BoundedAt(s, c);
      match a
      case SubmitChat(d, job) => BoundedSubmit(s, d, job, c);
      case SubmitBackground(job) => NewThread(s, BgCheck(job));
      case Shutdown =>
      case Advance(t, takes, order) =>
        if t < |s.threads| {
          BoundedMove(s, t, takes, order, c);
        }
    }
  }

  // ---- Order ----

  /** The jobs of chat c a region hands to the executor. */
  function Handed(f: Option<Pc>, c: Chat): seq<Job> {
    if f.Some? && f.value.RunChat? && f.value.chat == c then [f.value.job] else []
  }

  /** While the scheduler accepts, a region by which no other thread can hold a job of chat c keeps the order. */
  lemma RegionOrder(m: Shared, p: Pc, takes: bool, order: seq<Chat>, c: Chat)
    requires m.accepting
    requires Weight(Carries(c), p) <= Bit(c in m.inFlight)
    ensures var o := Region(m, p, takes, order);
      Handed(o.future, c) + InHand(o.pc, c) + o.mem.Queue(c) == InHand(p, c) + m.Queue(c)
  {
  }

  lemma {:induction false} HeldByOne(ts: seq<Pc>, t: nat, c: Chat)
    requires t < |ts|
    requires forall u :: 0 <= u < |ts| && u != t ==> InHand(ts[u], c) == []
    ensures Held(ts, c) == InHand(ts[t], c)
  {
    if t == 0 {
      HeldByNone(ts[1..], c);
    } else {
      assert InHand(ts[0], c) == [];
      HeldByOne(ts[1..], t - 1, c);
    }
  }

  lemma {:induction false} HeldByNone(ts: seq<Pc>, c: Chat)
    requires forall u :: 0 <= u < |ts| ==> InHand(ts[u], c) == []
    ensures Held(ts, c) == []
  {
    if ts != [] {
      HeldByNone(ts[1..], c);
    }
  }

  lemma {:induction false} HeldAppend(ts: seq<Pc>, p: Pc, c: Chat)
    requires InHand(p, c) == []
    ensures Held(ts + [p], c) == Held(ts, c)
  {
    if ts != [] {
      HeldAppend(ts[1..], p, c);
      assert (ts + [p])[1..] == ts[1..] + [p];
    } else {
      assert ts + [p] == [p];
    }
  }

  /** A thread that does not carry a chat in flight leaves its jobs where they are. */
  lemma RegionStranger(m: Shared, p: Pc, takes: bool, order: seq<Chat>, c: Chat)
    requires m.accepting && c in m.inFlight && Weight(Carries(c), p) == 0
    ensures var o := Region(m, p, takes, order);
      o.mem.Queue(c) == m.Queue(c) && InHand(o.pc, c) == [] && InHand(p, c) == [] && Handed(o.future, c) == []
  {
  }

  function Threads(ts: seq<Pc>, t: nat, o: Outcome): seq<Pc>
    requires t < |ts|
  {
    if o.future.Some? then ts[t := o.pc] + [o.future.value] else ts[t := o.pc]
  }

  lemma NewFuture(ts: seq<Pc>, t: nat, o: Outcome, c: Chat)
    requires t < |ts| && (o.future.Some? ==> InHand(o.future.value, c) == [])
    ensures Held(Threads(ts, t, o), c) == Held(ts[t := o.pc], c)
  {
    if o.future.Some? {
      HeldAppend(ts[t := o.pc], o.future.value, c);
    }
  }

  lemma HeldElsewhere(ts: seq<Pc>, t: nat, o: Outcome, c: Chat, u: nat)
    requires t < |ts| && u < |ts| && u != t && (o.future.Some? ==> InHand(o.future.value, c) == [])
    requires (forall v :: 0 <= v < |ts| && v != u ==> InHand(ts[v], c) == []) && InHand(o.pc, c) == []
    ensures Held(Threads(ts, t, o), c) == Held(ts, c)
  {
    NewFuture(ts, t, o, c);
    HeldByOne(ts, u, c);
    HeldByOne(ts[t := o.pc], u, c);
  }

  lemma HeldHere(ts: seq<Pc>, t: nat, o: Outcome, c: Chat)
    requires t < |ts| && (o.future.Some? ==> InHand(o.future.value, c) == [])
    requires forall v :: 0 <= v < |ts| && v != t ==> InHand(ts[v], c) == []
    ensures Held(Threads(ts, t, o), c) == InHand(o.pc, c) && Held(ts, c) == InHand(ts[t], c)
  {
    NewFuture(ts, t, o, c);
    HeldByOne(ts, t, c);
    HeldByOne(ts[t := o.pc], t, c);
  }

  /** At most one thread has a job of a chat in hand, and it carries the chat. */
  lemma OnlyHolder(s: State, u: nat, c: Chat)
    requires SingleFlight(s) && u < |s.threads| && InHand(s.threads[u], c) != []
    ensures c in s.mem.inFlight && forall v :: 0 <= v < |s.threads| && v != u ==> Weight(Carries(c), s.threads[v]) == 0
    ensures forall v :: 0 <= v < |s.threads| && v != u ==> InHand(s.threads[v], c) == []
  {
    assert Total(s.threads, Carries(c)) == Bit(c in s.mem.inFlight);
    TotalCovers(s.threads, u, Carries(c));
  }

  lemma FutureHoldsNothing(m: Shared, p: Pc, takes: bool, order: seq<Chat>, c: Chat)
    ensures var o := Region(m, p, takes, order); o.future.Some? ==> InHand(o.future.value, c) == []
  {
  }

  lemma OneHolder(s: State, t: nat, takes: bool, order: seq<Chat>, c: Chat)
    requires t < |s.threads| && s.mem.accepting && SingleFlight(s)
    ensures var o := Region(s.mem, s.threads[t], takes, order);
      Handed(o.future, c) + Held(Threads(s.threads, t, o), c) + o.mem.Queue(c) == Held(s.threads, c) + s.mem.Queue(c)
  {
    var o := Region(s.mem, s.threads[t], takes, order);
    FutureHoldsNothing(s.mem, s.threads[t], takes, order, c);
    if u: nat :| u < |s.threads| && u != t && InHand(s.threads[u], c) != [] {
      OnlyHolder(s, u, c);
      RegionStranger(s.mem, s.threads[t], takes, order, c);
      HeldElsewhere(s.threads, t, o, c, u);
    } else {
      assert Total(s.threads, Carries(c)) == Bit(c in s.mem.inFlight);
      TotalCovers(s.threads, t, Carries(c));
      RegionOrder(s.mem, s.threads[t], takes, order, c);
      HeldHere(s.threads, t, o, c);
    }
  }

  /** Only an accepting scheduler hands jobs over, and only ordered jobs are recorded. */
  lemma MoveStarts(s: State, t: nat, takes: bool, order: seq<Chat>, c: Chat)
    requires t < |s.threads|
    ensures var o := Region(s.mem, s.threads[t], takes, order); var s' := Move(s, t, takes, order);
      && s'.Started(c) == s.Started(c) + Handed(o.future, c)
      && s'.submitted == s.submitted && s'.mem == o.mem && o.mem.accepting == s.mem.accepting
      && s'.threads == Threads(s.threads, t, o)
      && (!s.mem.accepting ==> s'.started == s.started)
  {
  }

  lemma HandOver(started: seq<Job>, handed: seq<Job>, held: seq<Job>, queue: seq<Job>, before: seq<Job>,
                 waiting: seq<Job>)
    requires handed + held + queue == before + waiting
    ensures started + handed <= started + before + waiting
    ensures started + before + waiting == started + handed + held + queue
  {
    assert started + before + waiting == started + (before + waiting);
    assert started + handed + held + queue == started + (handed + held + queue);
    assert started + (handed + held + queue) == (started + handed) + (held + queue);
  }

  lemma OrderMove(s: State, t: nat, takes: bool, order: seq<Chat>, c: Chat)
    requires t < |s.threads| && SingleFlight(s) && OrderAt(s, c)
    ensures OrderAt(Move(s, t, takes, order), c)
  {
    MoveStarts(s, t, takes, order, c);
    if s.mem.accepting {
      OneHolder(s, t, takes, order, c);
      HandOver(s.Started(c), Handed(Region(s.mem, s.threads[t], takes, order).future, c),
               Held(Move(s, t, takes, order).threads, c), Move(s, t, takes, order).mem.Queue(c),
               Held(s.threads, c), s.mem.Queue(c));
    }
  }

  lemma EnqueueEffect(m: Shared, d: Chat, job: Job, c: Chat)
    ensures var r := Enqueue(m, d, job);
      && r.mem.accepting == m.accepting && r.mem.inFlight == m.inFlight && r.mem.slots == m.slots
      && (r.accepted ==> m.accepting)
      && r.mem.Queue(c) == (if r.accepted && c == d then m.Queue(c) + [job] else m.Queue(c))
  {
  }

  lemma SubmitEffect(s: State, d: Chat, job: Job, c: Chat)
    ensures var r := Enqueue(s.mem, d, job); var s' := Next(s, SubmitChat(d, job));
      && s'.mem == r.mem && s'.Started(c) == s.Started(c)
      && s'.Submitted(c) == (if r.accepted && c == d then s.Submitted(c) + [job] else s.Submitted(c))
      && Held(s'.threads, c) == Held(s.threads, c)
  {
    HeldAppend(s.threads, StartCheck(d, Return), c);
  }

  lemma OrderSubmit(s: State, d: Chat, job: Job, c: Chat)
    requires OrderAt(s, c)
    ensures OrderAt(Next(s, SubmitChat(d, job)), c)
  {
    EnqueueEffect(s.mem, d, job, c);
    SubmitEffect(s, d, job, c);
    assert (s.Started(c) + Held(s.threads, c)) + s.mem.Queue(c) + [job]
        == (s.Started(c) + Held(s.threads, c)) + (s.mem.Queue(c) + [job]);
  }

  lemma InOrderNext(s: State, a: Action)
    requires SingleFlight(s) && InOrder(s)
    ensures InOrder(Next(s, a))
  {
    forall c: Chat ensures OrderAt(Next(s, a), c) {
      assert OrderAt(s, c);
      match a
      case SubmitChat(d, job) => OrderSubmit(s, d, job, c);
      case SubmitBackground(job) => HeldAppend(s.threads, BgCheck(job), c);
      case Shutdown =>
      case Advance(t, takes, order) =>
        if t < |s.threads| {
          OrderMove(s, t, takes, order, c);
        }
    }
  }

  // ---- The safety theorem ----

  lemma SafeAtStart()
    ensures Safe(INIT)
  {
  }

  lemma SafeNext(s: State, a: Action)
    requires Safe(s)
    ensures Safe(Next(s, a))
  {
    BalancedNext(s, a);
    SingleFlightNext(s, a);
    KeysAgreeNext(s, a);
    InOrderNext(s, a);
    BoundedNext(s, a);
  }

  lemma {:induction false} SafeAlways(s: State, run: seq<Action>)
    requires Safe(s)
    ensures Safe(Run(s, run))
    decreases |run|
  {
    if run != [] {
      SafeNext(s, run[0]);
      SafeAlways(Next(s, run[0]), run[1..]);
    }
  }

  /** In every run a permit is given back only by a thread that holds one, so no release overflows its semaphore. */
  lemma ReleaseNeverOverflows(run: seq<Action>, t: nat, k: SlotClass)
    requires t < |Run(INIT, run).threads| && Weight(Holds(k), Run(INIT, run).threads[t]) == 1
    ensures Run(INIT, run).mem.slots.Free(k) < Capacity(k)
  {
    SafeAtStart();
    SafeAlways(INIT, run);
    var s := Run(INIT, run);
    assert s.mem.slots.Free(k) + Total(s.threads, Holds(k)) == Capacity(k);
    TotalCovers(s.threads, t, Holds(k));
  }

  /** Two threads never carry the same chat. */
  lemma OneJobPerChat(run: seq<Action>, t: nat, u: nat, c: Chat)
    requires t < |Run(INIT, run).threads| && u < |Run(INIT, run).threads|
    requires Weight(Carries(c), Run(INIT, run).threads[t]) == 1 && Weight(Carries(c), Run(INIT, run).threads[u]) == 1
    ensures t == u
  {
    SafeAtStart();
    SafeAlways(INIT, run);
    CarriedIsInFlight(Run(INIT, run), t, c);
  }

  /** Jobs start in submission order: what a chat has started is a prefix of what was accepted for it. */
  lemma StartsInSubmissionOrder(run: seq<Action>, c: Chat)
    ensures Run(INIT, run).Started(c) <= Run(INIT, run).Submitted(c)
  {
    SafeAtStart();
    SafeAlways(INIT, run);
    assert OrderAt(Run(INIT, run), c);
  }

  /** Shutdown is final: it is never revoked, and afterwards nothing is accepted, queued or started. */
  lemma {:induction false} NothingStartsAfterShutdown(s: State, run: seq<Action>)
    requires KeysAgree(s.mem) && SingleFlight(s) && !s.mem.accepting
    ensures var s' := Run(s, run);
      !s'.mem.accepting && s'.mem.queues == map[] && s'.started == s.started && s'.submitted == s.submitted
    decreases |run|
  {
    if run != [] {
      KeysAgreeNext(s, run[0]);
      SingleFlightNext(s, run[0]);
      NothingStartsAfterShutdown(Next(s, run[0]), run[1..]);
    }
  }

  // ---- Submissions, starts and permits, from the state alone ----

  /** When a submission is accepted: the scheduler accepts work, the chat has a queue or fewer than 1024 chats have one,
      and fewer than 256 of its jobs wait. Then the job is the chat's last, and a thread sets out exactly when the chat was
      idle; otherwise nothing is submitted, started or set in motion. */
  lemma SubmissionExactly(run: seq<Action>, c: Chat, job: Job)
    ensures var s := Run(INIT, run); var s' := Next(s, SubmitChat(c, job));
      && (forall d: Chat :: d != c ==> s'.Submitted(d) == s.Submitted(d) && s'.mem.Queue(d) == s.mem.Queue(d))
      && s'.started == s.started && s'.mem.inFlight == s.mem.inFlight && s'.mem.slots == s.mem.slots
      && (if s.mem.accepting && (c in s.mem.queues || |s.mem.queues| < 1024) && |s.mem.Queue(c)| < 256
          then && s'.Submitted(c) == s.Submitted(c) + [job] && s'.mem.Queue(c) == s.mem.Queue(c) + [job]
               && s'.threads == (if c in s.mem.active then s.threads else s.threads + [StartCheck(c, Return)])
               && s'.mem.active == s.mem.active + {c}
          else && s'.submitted == s.submitted && s'.threads == s.threads && s'.mem.active == s.mem.active
               && s'.mem.Queue(c) == s.mem.Queue(c))
  {
  }

  /** A chat is idle when it has nothing queued, popped or running that would start its next job. */
  lemma IdleExactly(run: seq<Action>, c: Chat)
    ensures var s := Run(INIT, run);
      s.mem.accepting ==> (c in s.mem.active <==> c in s.mem.queues) && (c in s.mem.inFlight ==> c in s.mem.active)
    ensures var s := Run(INIT, run);
      s.mem.accepting && c !in s.mem.active ==> s.mem.Queue(c) == [] && s.Started(c) == s.Submitted(c)
  {
    SafeAtStart();
    SafeAlways(INIT, run);
    var s := Run(INIT, run);
    assert OrderAt(s, c);
    if s.mem.accepting && c !in s.mem.active {
      assert Total(s.threads, Carries(c)) == 0;
      forall u: nat | u < |s.threads| ensures InHand(s.threads[u], c) == [] {
        TotalCovers(s.threads, u, Carries(c));
      }
      HeldByNone(s.threads, c);
    }
  }

  /** A thread about to take c takes its head job exactly when c is not in flight, has one, and a permit of its class is
      free; a chat with nothing left goes idle, and in every other case the memory stays as it is. */
  lemma TakesExactly(s: State, t: nat, c: Chat, r: Resume, takes: bool, order: seq<Chat>)
    requires t < |s.threads| && s.threads[t] == StartTake(c, r)
    ensures var s' := Next(s, Advance(t, takes, order)); var q := s.mem.Queue(c);
      && s'.submitted == s.submitted && s'.started == s.started
      && (if c !in s.mem.inFlight && q != [] && s.mem.slots.Free(SlotOf(q[0].work)) > 0
          then && s'.threads == s.threads[t := SubmitJob(c, q[0], r)] && s'.mem.Queue(c) == q[1..]
               && s'.mem.inFlight == s.mem.inFlight + {c}
               && s'.mem.slots.Free(SlotOf(q[0].work)) == s.mem.slots.Free(SlotOf(q[0].work)) - 1
          else && s'.threads == s.threads[t := After(r)]
               && s'.mem == (if c in s.mem.inFlight || q != [] then s.mem
                             else s.mem.(active := s.mem.active - {c}, queues := s.mem.queues - {c})))
  {
  }

  /** In every run at most six generation jobs, four memory jobs and four of all others hold a permit. */
  lemma PermitLimits(run: seq<Action>)
    ensures var s := Run(INIT, run);
      && Total(s.threads, Holds(Generation)) <= 6 && Total(s.threads, Holds(Memory)) <= 4
      && Total(s.threads, Holds(Utility)) <= 4
  {
    SafeAtStart();
    SafeAlways(INIT, run);
    var s := Run(INIT, run);
    assert forall k: SlotClass :: s.mem.slots.Free(k) + Total(s.threads, Holds(k)) == Capacity(k);
  }
}
