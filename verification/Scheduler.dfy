/** The ordered background scheduler of bridge/background.py: shared memory and the regions its locks protect. */
module Scheduler {

  type Chat = string

  /** A queued job: its work label decides its admission semaphore; id stands for the bound function and its arguments. */
  datatype Job = Job(work: string, id: nat)

  datatype Option<+T> = None | Some(value: T)

  // ---- Admission semaphores (lines 22-29, 119-124) ----

  datatype SlotClass = Generation | Utility | Memory

  const GENERATION_LABELS: set<string> :=
    {"generation", "command", "retry", "regen", "continue", "edit", "summarize"}
  const MEMORY_LABELS: set<string> :=
    {"hindsight_retain", "memory_curator", "scene_state_refresh", "npc_state_refresh"}

  function SlotOf(work: string): SlotClass {
    if work in GENERATION_LABELS then Generation
    else if work in MEMORY_LABELS then Memory
    else Utility
  }

  function Capacity(k: SlotClass): nat {
    match k
    case Generation => 6
    case Utility => 4
    case Memory => 4
  }

  /** The free permits of the three bounded semaphores. */
  datatype Slots = Slots(generation: nat, utility: nat, memory: nat) {
    function Free(k: SlotClass): nat {
      match k
      case Generation => generation
      case Utility => utility
      case Memory => memory
    }

    function With(k: SlotClass, n: nat): (s: Slots)
      ensures forall j :: s.Free(j) == if j == k then n else Free(j)
    {
      match k
      case Generation => this.(generation := n)
      case Utility => this.(utility := n)
      case Memory => this.(memory := n)
    }
  }

  const MAX_SCOPED_QUEUES: nat := 1024
  const MAX_QUEUED_PER_CHAT: nat := 256

  // ---- Shared memory and its atomic regions ----

  /** Everything _BACKGROUND_STATE_LOCK, _CHAT_LOCKS_GUARD and the semaphores protect. */
  datatype Shared = Shared(
    accepting: bool,
    queues: map<Chat, seq<Job>>,
    active: set<Chat>,
    inFlight: set<Chat>,
    slots: Slots)
  {
    function Queue(c: Chat): seq<Job> {
      if c in queues then queues[c] else []
    }
  }

  const START := Shared(true, map[], {}, {}, Slots(Capacity(Generation), Capacity(Utility), Capacity(Memory)))

  datatype Submission = Submission(mem: Shared, accepted: bool, shouldStart: bool)

  /** The region of submit_chat_background under both locks (lines 354-371). */
  function Enqueue(m: Shared, c: Chat, job: Job): Submission {
    if !m.accepting then Submission(m, false, false)
    else if c !in m.queues && |m.queues| >= MAX_SCOPED_QUEUES then Submission(m, false, false)
    else
      var m1 := m.(queues := m.queues[c := m.Queue(c)]);
      if |m.Queue(c)| >= MAX_QUEUED_PER_CHAT then Submission(m1, false, false)
      else Submission(
        m.(queues := m.queues[c := m.Queue(c) + [job]], active := m.active + {c}), true, c !in m.active)
  }

  datatype Taken = Taken(mem: Shared, job: Option<Job>)

  /** The guarded region of _start_next_chat_job (lines 310-322): leave, retire an empty queue, or pop under a permit. */
  function TakeNext(m: Shared, c: Chat): Taken {
    if c in m.inFlight then Taken(m, None)
    else if m.Queue(c) == [] then Taken(m.(active := m.active - {c}, queues := m.queues - {c}), None)
    else
      var k := SlotOf(m.Queue(c)[0].work);
      if m.slots.Free(k) == 0 then Taken(m, None)
      else Taken(
        m.(queues := m.queues[c := m.Queue(c)[1..]],
           inFlight := m.inFlight + {c},
           slots := m.slots.With(k, m.slots.Free(k) - 1)),
        Some(m.Queue(c)[0]))
  }

  /** The region entered when no future was created (lines 325-330). */
  function PutBack(m: Shared, c: Chat, job: Job): Shared {
    var m1 := m.(inFlight := m.inFlight - {c});
    if m.accepting then m1.(queues := m.queues[c := [job] + m.Queue(c)])
    else m1.(active := m.active - {c})
  }

  /** BoundedSemaphore.release: beyond its capacity it raises and changes nothing. */
  function Release(m: Shared, k: SlotClass): Shared {
    if m.slots.Free(k) < Capacity(k) then m.(slots := m.slots.With(k, m.slots.Free(k) + 1)) else m
  }

  /** A non-blocking acquire. */
  function Acquire(m: Shared, k: SlotClass): Shared
    requires m.slots.Free(k) > 0
  {
    m.(slots := m.slots.With(k, m.slots.Free(k) - 1))
  }

  function Land(m: Shared, c: Chat): Shared {
    m.(inFlight := m.inFlight - {c})
  }

  /** begin_background_shutdown (lines 250-255). */
  function Close(m: Shared): Shared {
    m.(accepting := false, queues := map[], active := {})
  }

  // ---- The module-level state as the source keeps it ----

  class ChatScheduler {
    var accepting: bool
    var queues: map<Chat, seq<Job>>
    var active: set<Chat>
    var inFlight: set<Chat>
    var slots: Slots

    function Snapshot(): Shared
      reads this
    {
      Shared(accepting, queues, active, inFlight, slots)
    }

    constructor ()
      ensures Snapshot() == START
    {
      accepting, queues, active, inFlight := true, map[], {}, {};
      slots := Slots(Capacity(Generation), Capacity(Utility), Capacity(Memory));
    }

    method SubmitChat(c: Chat, job: Job) returns (accepted: bool, shouldStart: bool)
      modifies this
      ensures Submission(Snapshot(), accepted, shouldStart) == Enqueue(old(Snapshot()), c, job)
    {
      if !accepting {
        return false, false;
      }
      if c !in queues && |queues| >= MAX_SCOPED_QUEUES {
        return false, false;
      }
      if c !in queues {
        queues := queues[c := []];
      }
      if |queues[c]| >= MAX_QUEUED_PER_CHAT {
        assert queues == old(queues)[c := old(Snapshot()).Queue(c)];
        return false, false;
      }
      queues := queues[c := queues[c] + [job]];
      shouldStart := c !in active;
      if shouldStart {
        active := active + {c};
      }
      assert active == old(active) + {c};
      accepted := true;
    }

    method TakeNextJob(c: Chat) returns (job: Option<Job>)
      modifies this
      ensures Taken(Snapshot(), job) == TakeNext(old(Snapshot()), c)
    {
      if c in inFlight {
        return None;
      }
      if c !in queues || queues[c] == [] {
        active := active - {c};
        queues := queues - {c};
        return None;
      }
      var k := SlotOf(queues[c][0].work);
      if slots.Free(k) == 0 {
        return None;
      }
      slots := slots.With(k, slots.Free(k) - 1);
      job := Some(queues[c][0]);
      queues := queues[c := queues[c][1..]];
      inFlight := inFlight + {c};
    }

    method ReturnRejectedJob(c: Chat, job: Job)
      modifies this
      ensures Snapshot() == PutBack(old(Snapshot()), c, job)
    {
      inFlight := inFlight - {c};
      if accepting {
        if c !in queues {
          queues := queues[c := []];
        }
        queues := queues[c := [job] + queues[c]];
        assert queues == old(queues)[c := [job] + old(Snapshot()).Queue(c)];
      } else {
        active := active - {c};
      }
    }

    method ReleaseSlot(k: SlotClass)
      modifies this`slots
      ensures Snapshot() == Release(old(Snapshot()), k)
    {
      if slots.Free(k) < Capacity(k) {
        slots := slots.With(k, slots.Free(k) + 1);
      }
    }

    method ClearInFlight(c: Chat)
      modifies this`inFlight
      ensures Snapshot() == Land(old(Snapshot()), c)
    {
      inFlight := inFlight - {c};
    }

    /** The snapshot _dispatch_waiting_chat_jobs iterates over (lines 294-295). */
    method WaitingChats() returns (chats: seq<Chat>)
      ensures forall c :: c in chats <==> c in queues
      ensures |chats| == |queues|
    {
      chats := [];
      var left := queues.Keys;
      while left != {}
        invariant left <= queues.Keys
        invariant forall c :: c in chats <==> c in queues.Keys - left
        invariant |chats| + |left| == |queues.Keys|
        decreases |left|
      {
        var c :| c in left;
        chats := chats + [c];
        left := left - {c};
      }
    }

    method BeginShutdown()
      modifies this
      ensures Snapshot() == Close(old(Snapshot()))
    {
      accepting := false;
      queues := map[];
      active := {};
    }
  }
}
