/** The phases of compact_chat_messages, as functions and as the statements that change the copied prompt in place. */
module CompactionPhases {
  import opened TextTools
  import opened Compaction

  datatype Limits = Limits(budget: nat, r: Ratio, minRecent: int, keepAssistant: bool)

  predicate Over(ms: seq<Message>, st: Limits) { Estimate(ms, st.r) > st.budget }

  /** The private drop mark is absent from prompts that enter or leave a phase. */
  predicate Unmarked(ms: seq<Message>) { forall i :: 0 <= i < |ms| ==> !ms[i].dropped }

  // ---- Which turns may go ----

  function LastTurn(ms: seq<Message>): (i: int)
    ensures -1 <= i < |ms|
    ensures i >= 0 ==> ms[i].IsTurn()
    ensures forall k :: i < k < |ms| ==> !ms[k].IsTurn()
  {
    if ms == [] then -1
    else if ms[|ms| - 1].IsTurn() then |ms| - 1
    else LastTurn(ms[..|ms| - 1])
  }

  function LastOf(ms: seq<Message>, role: string): (i: int)
    ensures -1 <= i < |ms|
    ensures i >= 0 ==> ms[i].role == role
    ensures forall k :: i < k < |ms| ==> ms[k].role != role
  {
    if ms == [] then -1
    else if ms[|ms| - 1].role == role then |ms| - 1
    else LastOf(ms[..|ms| - 1], role)
  }

  function FirstOf(ms: seq<Message>, role: string): (i: nat)
    ensures i <= |ms|
    ensures i < |ms| ==> ms[i].role == role
    ensures forall k :: 0 <= k < i ==> ms[k].role != role
  {
    if ms == [] || ms[0].role == role then 0 else 1 + FirstOf(ms[1..], role)
  }

  /** Positions below n of the live turns other than a and b, oldest first. */
  function Others(ms: seq<Message>, n: nat, a: int, b: int): seq<nat>
    requires n <= |ms|
  {
    if n == 0 then []
    else if ms[n - 1].IsTurn() && !ms[n - 1].dropped && n - 1 != a && n - 1 != b then Others(ms, n - 1, a, b) + [n - 1]
    else Others(ms, n - 1, a, b)
  }

  predicate IsOther(ms: seq<Message>, i: nat, a: int, b: int)
    requires i < |ms|
  {
    ms[i].IsTurn() && !ms[i].dropped && i != a && i != b
  }

  lemma {:induction false} OthersFacts(ms: seq<Message>, n: nat, a: int, b: int)
    requires n <= |ms|
    ensures var p := Others(ms, n, a, b);
            && (forall k :: 0 <= k < |p| ==> p[k] < n && IsOther(ms, p[k], a, b))
            && (forall i :: 0 <= i < n && IsOther(ms, i, a, b) ==> i in p)
    decreases n
  {
    if n > 0 {
      OthersFacts(ms, n - 1, a, b);
    }
  }

  function Kept(ms: seq<Message>, st: Limits): int {
    if st.keepAssistant then LastOf(ms, "assistant") else -1
  }

  function Removable(ms: seq<Message>, st: Limits): seq<nat> {
    Others(ms, |ms|, LastTurn(ms), Kept(ms, st))
  }

  lemma RemovableFits(ms: seq<Message>, st: Limits)
    ensures var p := Removable(ms, st); var a := LastTurn(ms); var b := Kept(ms, st);
            && (forall j :: 0 <= j < |p| ==> p[j] < |ms| && IsOther(ms, p[j], a, b))
            && (forall i :: 0 <= i < |ms| && IsOther(ms, i, a, b) ==> i in p)
  {
    OthersFacts(ms, |ms|, LastTurn(ms), Kept(ms, st));
    assert Removable(ms, st) == Others(ms, |ms|, LastTurn(ms), Kept(ms, st));
  }

  // ---- Dropping ----

  function MarkAll(ms: seq<Message>, p: seq<nat>): (out: seq<Message>)
    requires forall k :: 0 <= k < |p| ==> p[k] < |ms|
    ensures |out| == |ms|
    ensures forall i :: 0 <= i < |ms| ==> out[i] == ms[i].(dropped := ms[i].dropped || i in p)
  {
    seq(|ms|, i requires 0 <= i < |ms| => ms[i].(dropped := ms[i].dropped || i in p))
  }

  function Live(ms: seq<Message>): (out: seq<Message>)
    ensures |out| <= |ms| && Unmarked(out)
  {
    if ms == [] then []
    else if ms[|ms| - 1].dropped then Live(ms[..|ms| - 1])
    else Live(ms[..|ms| - 1]) + [ms[|ms| - 1]]
  }

  predicate EnoughDropped(ms: seq<Message>, p: seq<nat>, k: nat, floor: nat, st: Limits)
    requires k <= |p| && forall j :: 0 <= j < |p| ==> p[j] < |ms|
  {
    !Over(MarkAll(ms, p[..k]), st) || |p| - k <= floor
  }

  /** How many of the oldest removable turns go: the fewest that suffice, counted up from k. */
  function DropCount(ms: seq<Message>, p: seq<nat>, k: nat, floor: nat, st: Limits): (n: nat)
    requires k <= |p| && forall j :: 0 <= j < |p| ==> p[j] < |ms|
    ensures k <= n <= |p| && EnoughDropped(ms, p, n, floor, st)
    ensures forall j :: k <= j < n ==> !EnoughDropped(ms, p, j, floor, st)
    decreases |p| - k
  {
    if EnoughDropped(ms, p, k, floor, st) then k else DropCount(ms, p, k + 1, floor, st)
  }

  function DropOldTurns(ms: seq<Message>, floor: nat, st: Limits): seq<Message> {
    var p := Removable(ms, st);
    RemovableFits(ms, st);
    Live(MarkAll(ms, p[..DropCount(ms, p, 0, floor, st)]))
  }

  lemma MarkNext(ms: seq<Message>, p: seq<nat>, k: nat)
    requires k < |p| && forall j :: 0 <= j < |p| ==> p[j] < |ms|
    ensures var marked := MarkAll(ms, p[..k]);
            marked[p[k] := marked[p[k]].(dropped := true)] == MarkAll(ms, p[..k + 1])
  {
    assert p[..k + 1] == p[..k] + [p[k]];
  }

  // ---- Shrinking sections ----

  const USER_KINDS := [Rag, Memory, Episodic, Npc, Simulation]

  function LatestUser(ms: seq<Message>, fallback: bool): (i: int)
    ensures -1 <= i < |ms|
  {
    var i := LastOf(ms, "user");
    if i < 0 && fallback then |ms| - 1 else i
  }

  function Excess(ms: seq<Message>, st: Limits): nat {
    if Over(ms, st) then Estimate(ms, st.r) - st.budget else 0
  }

  /** A number of tokens in characters. */
  function InChars(tokens: nat, r: Ratio): int { Ceil(tokens as real * r) }

  function Deficit(ms: seq<Message>, st: Limits): int { InChars(Excess(ms, st), st.r) }

  function Target(ms: seq<Message>, s: Span, least: nat, compute: bool, st: Limits): int {
    if !compute then 0
    else
      var target := s.end - s.start - Deficit(ms, st) - 64;
      if target < least then least else target
  }

  function ShrinkAt(ms: seq<Message>, i: nat, kind: Kind, least: nat, compute: bool, st: Limits): (out: seq<Message>)
    requires i < |ms|
    ensures |out| == |ms|
  {
    match OptionalSpan(ms[i], kind)
    case None => ms
    case Some(s) => ms[i := Shrink(ms[i], kind, Target(ms, s, least, compute, st))]
  }

  function ShrinkKinds(ms: seq<Message>, i: nat, kinds: seq<Kind>, compute: bool, st: Limits): (out: seq<Message>)
    requires i < |ms|
    ensures |out| == |ms|
    decreases |kinds|
  {
    if kinds == [] || !Over(ms, st) then ms
    else ShrinkKinds(ShrinkAt(ms, i, kinds[0], 512, compute, st), i, kinds[1..], compute, st)
  }

  function ShrinkUser(ms: seq<Message>, compute: bool, fallback: bool, st: Limits): seq<Message> {
    var i := LatestUser(ms, fallback);
    if i < 0 then ms else ShrinkKinds(ms, i, USER_KINDS, compute, st)
  }

  function ShrinkSummary(ms: seq<Message>, compute: bool, st: Limits): seq<Message> {
    var i := FirstOf(ms, "system");
    if i == |ms| then ms else ShrinkAt(ms, i, Summary, 1000, compute, st)
  }

  // ---- The order of the phases ----

  function FirstFloor(st: Limits): nat { if st.minRecent <= 1 then 0 else st.minRecent - 1 }

  function Trimmed(ms: seq<Message>, st: Limits): seq<Message> {
    var a := DropOldTurns(ms, FirstFloor(st), st);
    if Over(a, st) then ShrinkUser(a, true, true, st) else a
  }

  function Paired(ms: seq<Message>, st: Limits): seq<Message> {
    var b := Trimmed(ms, st);
    if Over(b, st) then DropOldTurns(b, 1, st) else b
  }

  function Summarised(ms: seq<Message>, st: Limits): seq<Message> {
    var c := Paired(ms, st);
    if Over(c, st) then ShrinkSummary(c, true, st) else c
  }

  function Emptied(ms: seq<Message>, st: Limits): seq<Message> {
    var d := Summarised(ms, st);
    var e := if Over(d, st) then ShrinkUser(d, false, false, st) else d;
    if Over(e, st) then ShrinkSummary(e, false, st) else e
  }

  /** The prompt before its span records are removed. */
  function Compacted(ms: seq<Message>, st: Limits): seq<Message> {
    if !Over(ms, st) then ms
    else
      var f := Emptied(ms, st);
      if Over(f, st) then DropOldTurns(f, 0, st) else f
  }

  function Stripped(ms: seq<Message>): (out: seq<Message>)
    ensures |out| == |ms|
  {
    seq(|ms|, i requires 0 <= i < |ms| => ms[i].(spans := None))
  }

  // ---- The same phases as statements ----

  class Compactor {
    var compacted: seq<Message>
    var droppedHistory: nat
    const st: Limits

    constructor (messages: seq<Message>, st: Limits)
      ensures compacted == messages && droppedHistory == 0 && this.st == st
    {
      compacted, droppedHistory := messages, 0;
      this.st := st;
    }

    /** The marking loop has marked the first k removable turns and may go on. */
    ghost predicate Marking(before: seq<Message>, p: seq<nat>, k: nat, floor: nat)
      reads this
      requires forall j :: 0 <= j < |p| ==> p[j] < |before|
    {
      && k <= |p| && compacted == MarkAll(before, p[..k])
      && DropCount(before, p, 0, floor, st) == DropCount(before, p, k, floor, st)
    }

    method MarkOne(index: nat, ghost before: seq<Message>, ghost p: seq<nat>, ghost k: nat, floor: nat)
      requires forall j :: 0 <= j < |p| ==> p[j] < |before|
      requires Marking(before, p, k, floor) && k < |p| && index == p[k]
      requires Over(compacted, st) && |p| - k > floor
      modifies this
      ensures Marking(before, p, k + 1, floor) && droppedHistory == old(droppedHistory) + 1
    {
      MarkNext(before, p, k);
      compacted := compacted[index := compacted[index].(dropped := true)];
      droppedHistory := droppedHistory + 1;
    }

    method DropTurns(floor: nat)
      modifies this
      ensures compacted == DropOldTurns(old(compacted), floor, st)
      ensures forall j :: 0 <= j < |Removable(old(compacted), st)| ==> Removable(old(compacted), st)[j] < |old(compacted)|
      ensures droppedHistory == old(droppedHistory)
                                + DropCount(old(compacted), Removable(old(compacted), st), 0, floor, st)
    {
      ghost var before, p := compacted, Removable(compacted, st);
      RemovableFits(before, st);
      var removable := Removable(compacted, st);
      ghost var k := 0;
      assert MarkAll(before, p[..0]) == before;
      while Over(compacted, st) && |removable| > floor
        invariant Marking(before, p, k, floor) && removable == p[k..]
        invariant droppedHistory == old(droppedHistory) + k
        decreases |removable|
      {
        MarkOne(removable[0], before, p, k, floor);
        removable := removable[1..];
        k := k + 1;
      }
      assert EnoughDropped(before, p, k, floor, st);
      compacted := Live(compacted);
    }

    method ShrinkSection(i: nat, kind: Kind, least: nat, compute: bool)
      requires i < |compacted|
      modifies this`compacted
      ensures compacted == ShrinkAt(old(compacted), i, kind, least, compute, st)
    {
      var span := OptionalSpan(compacted[i], kind);
      if span.None? {
        return;
      }
      var target := Target(compacted, span.value, least, compute, st);
      compacted := compacted[i := Shrink(compacted[i], kind, target)];
    }

    method ShrinkUserSections(compute: bool, fallback: bool)
      modifies this`compacted
      ensures compacted == ShrinkUser(old(compacted), compute, fallback, st)
    {
      var latest := LatestUser(compacted, fallback);
      if latest < 0 {
        return;
      }
      var k := 0;
      while k < |USER_KINDS|
        invariant k <= |USER_KINDS| && latest < |compacted|
        invariant ShrinkKinds(compacted, latest, USER_KINDS[k..], compute, st)
                  == ShrinkKinds(old(compacted), latest, USER_KINDS, compute, st)
      {
        if !Over(compacted, st) {
          break;
        }
        assert USER_KINDS[k..][0] == USER_KINDS[k] && USER_KINDS[k..][1..] == USER_KINDS[k + 1..];
        ShrinkSection(latest, USER_KINDS[k], 512, compute);
        k := k + 1;
      }
    }

    method ShrinkSystemSummary(compute: bool)
      modifies this`compacted
      ensures compacted == ShrinkSummary(old(compacted), compute, st)
    {
      var system := FirstOf(compacted, "system");
      if system < |compacted| {
        ShrinkSection(system, Summary, 1000, compute);
      }
    }

    /** The call's body: the compacted prompt and what it reports about the budget. */
    method Run() returns (result: seq<Message>, overBudget: bool)
      modifies this
      ensures result == Stripped(Compacted(old(compacted), st))
      ensures overBudget == Over(Compacted(old(compacted), st), st)
    {
      if Over(compacted, st) {
        DropTurns(FirstFloor(st));
        if Over(compacted, st) { ShrinkUserSections(true, true); }
        if Over(compacted, st) { DropTurns(1); }
        if Over(compacted, st) { ShrinkSystemSummary(true); }
        if Over(compacted, st) { ShrinkUserSections(false, false); }
        if Over(compacted, st) { ShrinkSystemSummary(false); }
        if Over(compacted, st) { DropTurns(0); }
      }
      result := Stripped(compacted);
      overBudget := Over(compacted, st);
    }
  }
}
