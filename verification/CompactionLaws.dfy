/** How much of a prompt compaction must leave: no turn, section or summary goes further than its phase may take it, and
    none before the phases that come first have been used up. */
module CompactionLaws {
  import opened TextTools
  import opened Compaction
  import opened CompactionPhases
  import opened Spans
  import opened TagSections
  import opened CompactionEstimates
  import opened CompactionSurvival
  import opened CompactionTheorems

  function Least(a: int, b: int): int { if a < b then a else b }

  /** How many unprotected turns a prompt has: all but the newest turn and, when it is kept, the newest assistant. */
  function Turns(ms: seq<Message>, st: Limits): nat {
    |Unprotected(ms, |ms|, st)|
  }

  function Unprotected(ms: seq<Message>, n: nat, st: Limits): seq<nat>
    requires n <= |ms|
  {
    if n == 0 then []
    else Unprotected(ms, n - 1, st) + (if IsUnprotected(ms, n - 1, st) then [n - 1] else [])
  }

  /** A later turn follows, and, when the assistant is kept, it is not the last one. */
  predicate IsUnprotected(ms: seq<Message>, i: nat, st: Limits)
    requires i < |ms|
  {
    && (ms[i].role == "user" || ms[i].role == "assistant")
    && (exists j :: i < j < |ms| && (ms[j].role == "user" || ms[j].role == "assistant"))
    && (st.keepAssistant && ms[i].role == "assistant" ==> exists j :: i < j < |ms| && ms[j].role == "assistant")
  }

  lemma UnprotectedIsOther(ms: seq<Message>, i: nat, st: Limits)
    requires Unmarked(ms) && i < |ms|
    ensures IsUnprotected(ms, i, st) <==> IsOther(ms, i, LastTurn(ms), Kept(ms, st))
  {
    if IsOther(ms, i, LastTurn(ms), Kept(ms, st)) {
      assert ms[LastTurn(ms)].IsTurn() && i < LastTurn(ms);
    }
  }

  lemma {:induction false} UnprotectedAreOthers(ms: seq<Message>, n: nat, st: Limits)
    requires Unmarked(ms) && n <= |ms|
    ensures Unprotected(ms, n, st) == Others(ms, n, LastTurn(ms), Kept(ms, st))
    decreases n
  {
    if n > 0 {
      UnprotectedAreOthers(ms, n - 1, st);
      UnprotectedIsOther(ms, n - 1, st);
    }
  }

  lemma TurnsAreRemovable(ms: seq<Message>, st: Limits)
    requires Unmarked(ms)
    ensures Unprotected(ms, |ms|, st) == Removable(ms, st) && Turns(ms, st) == |Removable(ms, st)|
  {
    UnprotectedAreOthers(ms, |ms|, st);
  }

  // ---- Turns ----

  /** A drop stops at its floor, or above it as soon as the prompt is within budget. */
  lemma DropStops(ms: seq<Message>, floor: nat, st: Limits)
    requires Unmarked(ms)
    ensures Turns(DropOldTurns(ms, floor, st), st) >= Least(Turns(ms, st), floor)
    ensures !Over(ms, st) ==> Turns(DropOldTurns(ms, floor, st), st) == Turns(ms, st)
  {
    var marked, k := DropMarks(ms, floor, st);
    RemovableAfter(ms, marked, k, st);
    TurnsAreRemovable(ms, st);
    TurnsAreRemovable(DropOldTurns(ms, floor, st), st);
    var p := Removable(ms, st);
    if k > 0 {
      assert !EnoughDropped(ms, p, k - 1, floor, st);
      assert MarkAll(ms, p[..0]) == ms;
    }
  }

  lemma {:induction false} SameOthers(a: seq<Message>, b: seq<Message>, n: nat, l: int, k: int)
    requires Pointwise(a, b) && Unmarked(a) && Unmarked(b) && n <= |a|
    ensures Others(b, n, l, k) == Others(a, n, l, k)
    decreases n
  {
    if n > 0 {
      SameOthers(a, b, n - 1, l, k);
      assert Edited(a[n - 1], b[n - 1]);
    }
  }

  /** Shrinking sections neither drops nor protects a turn. */
  lemma SameTurns(a: seq<Message>, b: seq<Message>, st: Limits)
    requires Pointwise(a, b) && Unmarked(a) && Unmarked(b)
    ensures Turns(b, st) == Turns(a, st)
  {
    PointwiseIndices(a, b, "assistant");
    SameOthers(a, b, |a|, LastTurn(a), Kept(a, st));
    TurnsAreRemovable(a, st);
    TurnsAreRemovable(b, st);
  }

  lemma UserSameTurns(ms: seq<Message>, compute: bool, fallback: bool, st: Limits)
    requires Unmarked(ms)
    ensures Unmarked(ShrinkUser(ms, compute, fallback, st)) && Turns(ShrinkUser(ms, compute, fallback, st), st) == Turns(ms, st)
  {
    ShrinkUserKeeps(ms, compute, fallback, st);
    SameTurns(ms, ShrinkUser(ms, compute, fallback, st), st);
  }

  lemma SummarySameTurns(ms: seq<Message>, compute: bool, st: Limits)
    requires Unmarked(ms)
    ensures Unmarked(ShrinkSummary(ms, compute, st)) && Turns(ShrinkSummary(ms, compute, st), st) == Turns(ms, st)
  {
    ShrinkSummaryKeeps(ms, compute, st);
    SameTurns(ms, ShrinkSummary(ms, compute, st), st);
  }

  /** Until retrieval has been trimmed, minRecent - 1 unprotected turns stay, or as many as there are. */
  lemma RecentTurnsStay(ms: seq<Message>, st: Limits)
    requires Unmarked(ms)
    ensures Unmarked(Trimmed(ms, st)) && Turns(Trimmed(ms, st), st) >= Least(Turns(ms, st), st.minRecent - 1)
  {
    var floor: nat := if st.minRecent <= 1 then 0 else st.minRecent - 1;
    DropStops(ms, floor, st);
    DropKeeps(ms, floor, st);
    UserSameTurns(DropOldTurns(ms, floor, st), true, true, st);
    assert FirstFloor(st) == floor;
  }

  /** Until everything optional has been emptied, one of them stays, if there was one. */
  lemma OneTurnStays(ms: seq<Message>, st: Limits)
    requires Unmarked(ms)
    ensures Unmarked(Emptied(ms, st)) && Turns(Emptied(ms, st), st) >= Least(Turns(Trimmed(ms, st), st), 1)
    ensures !Over(Trimmed(ms, st), st) ==> Turns(Emptied(ms, st), st) == Turns(Trimmed(ms, st), st)
  {
    PairedKeeps(ms, st);
    DropStops(Trimmed(ms, st), 1, st);
    SummarySameTurns(Paired(ms, st), true, st);
    var d := Summarised(ms, st);
    UserSameTurns(d, false, false, st);
    SummarySameTurns(if Over(d, st) then ShrinkUser(d, false, false, st) else d, false, st);
  }

  /** Turns are the last to go. Fewer than minRecent - 1 unprotected turns survive, of as many, only if the prompt was still
      over budget with every section of the visited message trimmed to at most 512 characters; and none, of any, only if it
      was still over budget with these sections and the summary empty. */
  lemma TurnsGoLast(ms: seq<Message>, st: Limits)
    requires Unmarked(ms)
    ensures Turns(Compacted(ms, st), st) < Least(Turns(ms, st), st.minRecent - 1) ==>
              && Over(Trimmed(ms, st), st)
              && (var i := LatestUser(Trimmed(ms, st), true);
                  i >= 0 && AllOrderly(ms) ==> Within(Trimmed(ms, st)[i], USER_KINDS, 512))
    ensures Turns(Compacted(ms, st), st) < Least(Turns(ms, st), Least(st.minRecent - 1, 1)) ==>
              && Over(Emptied(ms, st), st)
              && (var f := Emptied(ms, st); var i := LastOf(f, "user"); var j := FirstOf(f, "system");
                  UsersOrderly(ms) ==> (i >= 0 ==> Within(f[i], USER_KINDS, 0)) && (j < |f| ==> Within(f[j], [Summary], 0)))
  {
    if Over(ms, st) {
      RecentTurnsStay(ms, st);
      OneTurnStays(ms, st);
      EmptiedStays(ms, st);
      if Over(Trimmed(ms, st), st) && AllOrderly(ms) {
        TrimmedSectionsAreShort(ms, st);
      }
      if Over(Emptied(ms, st), st) && UsersOrderly(ms) {
        EmptiedIsEmpty(ms, st);
      }
    }
  }

  /** Within budget, the later phases change nothing. */
  lemma EmptiedStays(ms: seq<Message>, st: Limits)
    ensures !Over(Trimmed(ms, st), st) ==> Emptied(ms, st) == Trimmed(ms, st)
    ensures !Over(ms, st) ==> Compacted(ms, st) == ms
    ensures Over(ms, st) && !Over(Emptied(ms, st), st) ==> Compacted(ms, st) == Emptied(ms, st)
  {
  }

  /** When dropping old turns down to minRecent - 1 is enough, nothing else happens: every message of the result is one of
      the prompt, unchanged. */
  lemma DroppingSuffices(ms: seq<Message>, st: Limits)
    requires Unmarked(ms)
    ensures var a := DropOldTurns(ms, if st.minRecent <= 1 then 0 else st.minRecent - 1, st);
      !Over(a, st) ==> Compacted(ms, st) == (if Over(ms, st) then a else ms) && forall m :: m in Compacted(ms, st) ==> m in ms
  {
    var floor: nat := if st.minRecent <= 1 then 0 else st.minRecent - 1;
    assert FirstFloor(st) == floor;
    var a := DropOldTurns(ms, floor, st);
    EmptiedStays(ms, st);
    if !Over(a, st) {
      assert Trimmed(ms, st) == a;
      var marked, k := DropMarks(ms, floor, st);
      forall m | m in a ensures m in ms {
        var j: nat :| j < |a| && a[j] == m;
        var i := LiveOrigin(marked, j);
        assert marked[i] == ms[i];
      }
    }
  }

  lemma OthersStep(ms: seq<Message>, n: nat, a: int, b: int)
    requires 0 < n <= |ms|
    ensures Others(ms, n, a, b) == Others(ms, n - 1, a, b)
            || Others(ms, n, a, b) == Others(ms, n - 1, a, b) + [n - 1]
  {
  }

  predicate Ascends(p: seq<nat>, n: nat) {
    (forall k :: 0 <= k < |p| ==> p[k] < n) && forall x, y :: 0 <= x < y < |p| ==> p[x] < p[y]
  }

  lemma {:induction false} OthersAscend(ms: seq<Message>, n: nat, a: int, b: int)
    requires n <= |ms|
    ensures Ascends(Others(ms, n, a, b), n)
    decreases n
  {
    if n > 0 {
      OthersAscend(ms, n - 1, a, b);
      OthersStep(ms, n, a, b);
    }
  }

  lemma OlderIsMarked(p: seq<nat>, k: nat, n: nat, i: nat, j: nat)
    requires Ascends(p, n) && k <= |p| && i in p && j in p[..k] && i < j
    ensures i in p[..k]
  {
    var x :| 0 <= x < |p| && p[x] == i;
    var y :| 0 <= y < k && p[..k][y] == j;
    assert p[y] == j && x < y;
    assert p[..k][x] == i;
  }

  /** The oldest turns go first: of two unprotected turns the later one is never dropped alone. */
  lemma OldestGoFirst(ms: seq<Message>, floor: nat, st: Limits, i: nat, j: nat) returns (marked: seq<Message>)
    requires Unmarked(ms) && i < |ms| && j < |ms|
    ensures |marked| == |ms| && Live(marked) == DropOldTurns(ms, floor, st)
    ensures marked[i] == ms[i] || (marked[i].dropped && IsUnprotected(ms, i, st))
    ensures i < j && IsUnprotected(ms, i, st) && marked[j].dropped ==> marked[i].dropped
  {
    var k;
    marked, k := DropMarks(ms, floor, st);
    var p := Removable(ms, st);
    RemovableFits(ms, st);
    UnprotectedIsOther(ms, i, st);
    if i in p[..k] {
      assert i in p;
    }
    if i < j && IsUnprotected(ms, i, st) && marked[j].dropped {
      OthersAscend(ms, |ms|, LastTurn(ms), Kept(ms, st));
      OlderIsMarked(p, k, |ms|, i, j);
    }
  }

  // ---- Sections and the summary ----

  /** The sections of these kinds that were short are as they were. */
  predicate Spared(m: Message, out: Message, most: nat) {
    && Aligned(m) && Aligned(out) && |out.spans.value| == |m.spans.value|
    && forall k: nat :: k < |m.spans.value| && |SectionOf(m, k)| <= most ==> SectionOf(out, k) == SectionOf(m, k)
  }

  lemma ShrinkSpares(m: Message, kind: Kind, target: int, most: nat)
    requires Aligned(m) && target >= most
    ensures Spared(m, Shrink(m, kind, target), most)
  {
    ShrinkAligned(m, kind, target);
  }

  lemma SparedTrans(a: Message, b: Message, c: Message, most: nat)
    requires Spared(a, b, most) && Spared(b, c, most)
    ensures Spared(a, c, most)
  {
  }

  lemma VisitSpares(ms: seq<Message>, i: nat, kind: Kind, least: nat, most: nat, st: Limits)
    requires i < |ms| && Aligned(ms[i]) && least >= most
    ensures Spared(ms[i], ShrinkAt(ms, i, kind, least, true, st)[i], most)
  {
    var found := OptionalSpan(ms[i], kind);
    if found.Some? {
      ShrinkSpares(ms[i], kind, Target(ms, found.value, least, true, st), most);
    }
  }

  lemma {:induction false} PassSpares(ms: seq<Message>, i: nat, kinds: seq<Kind>, st: Limits)
    requires i < |ms| && Aligned(ms[i])
    ensures Spared(ms[i], ShrinkKinds(ms, i, kinds, true, st)[i], 512)
    decreases |kinds|
  {
    if kinds != [] && Over(ms, st) {
      var next := ShrinkAt(ms, i, kinds[0], 512, true, st);
      VisitSpares(ms, i, kinds[0], 512, 512, st);
      PassSpares(next, i, kinds[1..], st);
      SparedTrans(ms[i], next[i], ShrinkKinds(next, i, kinds[1..], true, st)[i], 512);
    }
  }

  /** The first pass over the visited message leaves sections of at most 512 characters alone. */
  lemma ShortSectionsStay(a: seq<Message>, st: Limits)
    requires Unmarked(a)
    ensures var i := LatestUser(a, true); i >= 0 && Aligned(a[i]) ==> Spared(a[i], ShrinkUser(a, true, true, st)[i], 512)
  {
    var i := LatestUser(a, true);
    if i >= 0 && Aligned(a[i]) {
      PassSpares(a, i, USER_KINDS, st);
    }
  }

  /** The first pass over the summary leaves one of at most 1000 characters alone. */
  lemma ShortSummaryStays(c: seq<Message>, st: Limits)
    ensures var j := FirstOf(c, "system"); j < |c| && Aligned(c[j]) ==> Spared(c[j], ShrinkSummary(c, true, st)[j], 1000)
  {
    var j := FirstOf(c, "system");
    if j < |c| && Aligned(c[j]) {
      VisitSpares(c, j, Summary, 1000, 1000, st);
    }
  }

  lemma SummaryPassBounds(c: seq<Message>, st: Limits)
    requires Unmarked(c) && Over(ShrinkSummary(c, true, st), st)
    requires var j := FirstOf(c, "system"); j < |c| ==> Aligned(c[j])
    ensures var d := ShrinkSummary(c, true, st); var j := FirstOf(d, "system"); j < |d| ==> Within(d[j], [Summary], 1000)
  {
    var j := FirstOf(c, "system");
    ShrinkSummaryKeeps(c, true, st);
    PointwiseFirst(c, ShrinkSummary(c, true, st), "system");
    if j < |c| {
      var found := OptionalSpan(c[j], Summary);
      if found.None? {
        NoSpanWithin(c[j], Summary, [], 1000);
      } else if found.value.end - found.value.start - Deficit(c, st) - 64 >= 1000 {
        OneTrimSuffices(c, j, Summary, 1000, st);
      } else {
        ShrinkWithin(c[j], Summary, [], 1000, 1000);
      }
      assert [] + [Summary] == [Summary];
    }
  }

  /** Sections are emptied only after the summary has been trimmed to at most 1000 characters, and only if that, with one
      unprotected turn at most, is still over budget. */
  lemma EmptyingComesAfterTheSummary(ms: seq<Message>, st: Limits)
    requires Unmarked(ms) && AllOrderly(ms) && Over(Summarised(ms, st), st)
    ensures var d := Summarised(ms, st); var j := FirstOf(d, "system");
      && Turns(d, st) <= 1
      && (j < |d| && d[j].spans.Some? ==> Within(d[j], [Summary], 1000))
  {
    var c, d := Paired(ms, st), Summarised(ms, st);
    PairedKeeps(ms, st);
    ShrinkSummaryNeverGrows(c, true, st);
    SummaryComesAfterHistory(ms, st);
    TurnsAreRemovable(c, st);
    SummarySameTurns(c, true, st);
    OrderlyUsers(ms);
    ThinnedOrderly(ms, c);
    ShrinkSummaryKeeps(c, true, st);
    PointwiseFirst(c, d, "system");
    var j := FirstOf(c, "system");
    if j < |c| && d[j].spans.Some? {
      assert OrderlyIfUser(c[j]) && Edited(c[j], d[j]);
      SummaryPassBounds(c, st);
    }
  }

  lemma OrderlyUsers(ms: seq<Message>)
    requires AllOrderly(ms)
    ensures UsersOrderly(ms)
  {
    forall i | 0 <= i < |ms| ensures OrderlyIfUser(ms[i]) {
      assert Orderly(ms[i]);
    }
  }

  // ---- The order of the kinds ----

  lemma {:induction false} PassSplits(ms: seq<Message>, i: nat, a: seq<Kind>, b: seq<Kind>, compute: bool, st: Limits)
    requires i < |ms|
    ensures ShrinkKinds(ms, i, a + b, compute, st) == ShrinkKinds(ShrinkKinds(ms, i, a, compute, st), i, b, compute, st)
    decreases |a|
  {
    if a == [] {
      assert a + b == b;
    } else if Over(ms, st) {
      assert (a + b)[0] == a[0] && (a + b)[1..] == a[1..] + b;
      PassSplits(ShrinkAt(ms, i, a[0], 512, compute, st), i, a[1..], b, compute, st);
    } else if b != [] {
      assert ShrinkKinds(ms, i, b, compute, st) == ms;
    }
  }

  const VISITED := [Rag, Memory, Episodic, Npc, Simulation]

  /** Retrieval goes before memories, these before episodes, these before figures, these before the simulation: a pass over
      the visited message goes on to the next kind only if the prompt is over budget with all before it trimmed. */
  lemma KindsInOrder(ms: seq<Message>, i: nat, n: nat, compute: bool, maximum: nat, st: Limits)
    requires i < |ms| && i == LatestUser(ms, compute) && Unmarked(ms) && Orderly(ms[i]) && n <= 5
    requires maximum == if compute then 512 else 0
    ensures var part := ShrinkKinds(ms, i, VISITED[..n], compute, st); var all := ShrinkUser(ms, compute, compute, st);
      if Over(part, st) then Within(part[i], VISITED[..n], maximum) else all == part
  {
    var part := ShrinkKinds(ms, i, VISITED[..n], compute, st);
    assert USER_KINDS == VISITED == VISITED[..n] + VISITED[n..];
    PassSplits(ms, i, VISITED[..n], VISITED[n..], compute, st);
    if Over(part, st) {
      assert [] + VISITED[..n] == VISITED[..n];
      ShrinkKindsBounds(ms, i, [], VISITED[..n], compute, maximum, st);
    }
  }
}
