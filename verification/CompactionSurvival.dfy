/** What compaction may do to a prompt: drop unprotected turns, cut optional sections, and nothing else. */
module CompactionSurvival {
  import opened TextTools
  import opened Compaction
  import opened CompactionPhases
  import opened Spans
  import opened TagSections
  import E = CompactionEstimates

  // ---- Edited messages ----

  /** A user message without a record whose tagged sections are separate. */
  ghost predicate TaggedUser(m: Message) { m.role == "user" && m.spans.None? && Separate(TextOf(m.content)) }

  /** The same message up to its drop mark and the text inside its recorded spans; separate sections stay separate. */
  ghost predicate Edited(a: Message, b: Message) {
    && b.id == a.id && b.role == a.role && b.spans.Some? == a.spans.Some?
    && (Aligned(a) ==> Aligned(b) && SameFixed(a, b))
    && (TaggedUser(a) ==> TaggedUser(b))
  }

  /** after is before without some turns, every other message edited at most, all in order. */
  ghost predicate Thinned(before: seq<Message>, after: seq<Message>) {
    if before == [] then after == []
    else
      var n := |before| - 1;
      || (after != [] && Edited(before[n], after[|after| - 1]) && Thinned(before[..n], after[..|after| - 1]))
      || (before[n].IsTurn() && Thinned(before[..n], after))
  }

  ghost predicate Pointwise(before: seq<Message>, after: seq<Message>) {
    |after| == |before| && forall i :: 0 <= i < |before| ==> Edited(before[i], after[i])
  }

  lemma {:induction false} PointwiseThinned(before: seq<Message>, after: seq<Message>)
    requires Pointwise(before, after)
    ensures Thinned(before, after)
  {
    if before != [] {
      PointwiseThinned(before[..|before| - 1], after[..|after| - 1]);
    }
  }

  lemma {:induction false} ThinnedTrans(a: seq<Message>, b: seq<Message>, c: seq<Message>)
    requires Thinned(a, b) && Thinned(b, c)
    ensures Thinned(a, c)
    decreases |a|
  {
    if a != [] {
      var n := |a| - 1;
      if b != [] && Edited(a[n], b[|b| - 1]) && Thinned(a[..n], b[..|b| - 1]) {
        var m := |b| - 1;
        if c != [] && Edited(b[m], c[|c| - 1]) && Thinned(b[..m], c[..|c| - 1]) {
          ThinnedTrans(a[..n], b[..m], c[..|c| - 1]);
        } else {
          ThinnedTrans(a[..n], b[..m], c);
        }
      } else {
        ThinnedTrans(a[..n], b, c);
      }
    }
  }

  lemma {:induction false} LiveThinned(ms: seq<Message>)
    requires forall i :: 0 <= i < |ms| ==> ms[i].dropped ==> ms[i].IsTurn()
    ensures Thinned(ms, Live(ms))
  {
    if ms != [] {
      var n := |ms| - 1;
      LiveThinned(ms[..n]);
      if !ms[n].dropped {
        assert Live(ms)[..|Live(ms)| - 1] == Live(ms[..n]);
      }
    }
  }

  // ---- Protected turns ----

  datatype Id = Nobody | Id(id: nat, role: string)

  function IdAt(ms: seq<Message>, i: int): Id
    requires i < |ms|
  {
    if i < 0 then Nobody else Id.Id(ms[i].id, ms[i].role)
  }

  function Newest(ms: seq<Message>): Id { IdAt(ms, LastTurn(ms)) }

  function NewestOf(ms: seq<Message>, role: string): Id { IdAt(ms, LastOf(ms, role)) }

  /** The newest turn, and the newest assistant when it is kept, are the same messages as before. */
  predicate Protects(before: seq<Message>, after: seq<Message>, st: Limits) {
    Newest(after) == Newest(before) && (st.keepAssistant ==> NewestOf(after, "assistant") == NewestOf(before, "assistant"))
  }

  lemma {:induction false} PointwiseIndices(before: seq<Message>, after: seq<Message>, role: string)
    requires Pointwise(before, after)
    ensures LastTurn(after) == LastTurn(before) && LastOf(after, role) == LastOf(before, role)
  {
    if before != [] {
      PointwiseIndices(before[..|before| - 1], after[..|after| - 1], role);
    }
  }

  lemma PointwiseProtects(before: seq<Message>, after: seq<Message>, st: Limits)
    requires Pointwise(before, after)
    ensures Protects(before, after, st)
  {
    PointwiseIndices(before, after, "assistant");
  }

  /** Where the live message at i stands once the dropped ones are gone. */
  function Rank(ms: seq<Message>, i: int): int
    requires i <= |ms|
  {
    if i < 0 then -1 else |Live(ms[..i])|
  }

  lemma {:induction false} RankMonotone(ms: seq<Message>, i: nat, j: nat)
    requires i <= j <= |ms|
    ensures Rank(ms, i) <= Rank(ms, j)
    ensures i < j && !ms[i].dropped ==> Rank(ms, i) < Rank(ms, j)
    decreases j
  {
    if i < j {
      assert ms[..j][..j - 1] == ms[..j - 1];
      RankMonotone(ms, i, j - 1);
    }
  }

  lemma RankNext(ms: seq<Message>, n: nat)
    requires n < |ms|
    ensures Rank(ms, n + 1) == Rank(ms, n) + (if ms[n].dropped then 0 else 1)
    ensures Live(ms[..n + 1]) == Live(ms[..n]) + (if ms[n].dropped then [] else [ms[n]])
  {
    assert ms[..n + 1][..n] == ms[..n];
  }

  lemma {:induction false} LiveAt(ms: seq<Message>, i: nat)
    requires i < |ms| && !ms[i].dropped
    ensures Rank(ms, i) < |Live(ms)| && Live(ms)[Rank(ms, i)] == ms[i]
    decreases |ms|
  {
    var n := |ms| - 1;
    assert ms[..|ms|] == ms;
    RankNext(ms, n);
    if i < n {
      assert ms[..n][..i] == ms[..i];
      LiveAt(ms[..n], i);
    }
  }

  lemma {:induction false} LastLive(ms: seq<Message>, role: string)
    ensures (LastTurn(ms) < 0 || !ms[LastTurn(ms)].dropped) ==> LastTurn(Live(ms)) == Rank(ms, LastTurn(ms))
    ensures (LastOf(ms, role) < 0 || !ms[LastOf(ms, role)].dropped) ==> LastOf(Live(ms), role) == Rank(ms, LastOf(ms, role))
  {
    if ms != [] {
      var n := |ms| - 1;
      var pre := ms[..n];
      assert ms[..n + 1] == ms;
      RankNext(ms, n);
      LastLive(pre, role);
      assert forall i :: 0 <= i <= n ==> pre[..i] == ms[..i];
      if !ms[n].dropped {
        assert Live(ms)[..|Live(ms)| - 1] == Live(pre);
      }
    }
  }

  lemma LiveProtects(ms: seq<Message>, st: Limits)
    requires LastTurn(ms) < 0 || !ms[LastTurn(ms)].dropped
    requires st.keepAssistant ==> (LastOf(ms, "assistant") < 0 || !ms[LastOf(ms, "assistant")].dropped)
    ensures Protects(ms, Live(ms), st)
  {
    LastLive(ms, "assistant");
    if LastTurn(ms) >= 0 {
      LiveAt(ms, LastTurn(ms));
    }
    if st.keepAssistant && LastOf(ms, "assistant") >= 0 {
      LiveAt(ms, LastOf(ms, "assistant"));
    }
  }

  // ---- How many unprotected turns are left ----

  lemma {:induction false} OthersPrefix(ms: seq<Message>, out: seq<Message>, n: nat, a: int, b: int)
    requires n <= |ms| && n <= |out| && ms[..n] == out[..n]
    ensures Others(ms, n, a, b) == Others(out, n, a, b)
    decreases n
  {
    if n > 0 {
      assert ms[n - 1] == ms[..n][n - 1] == out[n - 1];
      assert ms[..n - 1] == ms[..n][..n - 1] == out[..n - 1];
      OthersPrefix(ms, out, n - 1, a, b);
    }
  }

  lemma OthersNext(ms: seq<Message>, n: nat, a: int, b: int)
    requires 0 < n <= |ms|
    ensures Others(ms, n, a, b) == Others(ms, n - 1, a, b) + (if IsOther(ms, n - 1, a, b) then [n - 1] else [])
  {
  }

  lemma {:induction false} MarkFirst(ms: seq<Message>, n: nat, a: int, b: int)
    requires n <= |ms| && Others(ms, n, a, b) != []
    ensures var p := Others(ms, n, a, b);
            p[0] < n && Others(ms[p[0] := ms[p[0]].(dropped := true)], n, a, b) == p[1..]
    decreases n
  {
    var p := Others(ms, n, a, b);
    var before := Others(ms, n - 1, a, b);
    OthersFacts(ms, n, a, b);
    var out := ms[p[0] := ms[p[0]].(dropped := true)];
    OthersNext(ms, n, a, b);
    OthersNext(out, n, a, b);
    if before == [] {
      OthersPrefix(ms, out, n - 1, a, b);
    } else {
      MarkFirst(ms, n - 1, a, b);
      assert p[0] == before[0] && p[1..] == before[1..] + p[|before|..];
    }
  }

  lemma {:induction false} MarkedOthers(ms: seq<Message>, k: nat, a: int, b: int)
    requires var p := Others(ms, |ms|, a, b); k <= |p|
    ensures var p := Others(ms, |ms|, a, b);
            (forall j :: 0 <= j < |p| ==> p[j] < |ms|) && Others(MarkAll(ms, p[..k]), |ms|, a, b) == p[k..]
    decreases k
  {
    var p := Others(ms, |ms|, a, b);
    OthersFacts(ms, |ms|, a, b);
    if k == 0 {
      assert MarkAll(ms, p[..0]) == ms;
    } else {
      MarkedOthers(ms, k - 1, a, b);
      var marked := MarkAll(ms, p[..k - 1]);
      MarkFirst(marked, |ms|, a, b);
      MarkNext(ms, p, k - 1);
      assert p[k - 1..][0] == p[k - 1] && p[k - 1..][1..] == p[k..];
    }
  }

  lemma {:induction false} LiveOthers(ms: seq<Message>, n: nat, a: int, b: int)
    requires n <= |ms| && -1 <= a < |ms| && -1 <= b < |ms|
    requires (a >= 0 ==> !ms[a].dropped) && (b >= 0 ==> !ms[b].dropped)
    ensures |Others(Live(ms[..n]), |Live(ms[..n])|, Rank(ms, a), Rank(ms, b))| == |Others(ms, n, a, b)|
    decreases n
  {
    if n > 0 {
      var m := n - 1;
      RankNext(ms, m);
      LiveOthers(ms, m, a, b);
      if !ms[m].dropped {
        var l, out := Live(ms[..m]), Live(ms[..n]);
        assert out[..|l|] == l && out[|l|] == ms[m] && |l| == Rank(ms, m);
        OthersPrefix(l, out, |l|, Rank(ms, a), Rank(ms, b));
        RankDiffers(ms, m, a);
        RankDiffers(ms, m, b);
      } else {
        assert Live(ms[..n]) == Live(ms[..m]);
      }
    }
  }

  lemma RankDiffers(ms: seq<Message>, m: nat, a: int)
    requires m < |ms| && -1 <= a < |ms| && !ms[m].dropped && (a >= 0 ==> !ms[a].dropped)
    ensures Rank(ms, m) == Rank(ms, a) <==> m == a
  {
    if 0 <= a < m {
      RankMonotone(ms, a, m);
    } else if m < a {
      RankMonotone(ms, m, a);
    }
  }

  // ---- drop_old_turns ----

  lemma DropMarks(ms: seq<Message>, floor: nat, st: Limits) returns (marked: seq<Message>, k: nat)
    ensures var p := Removable(ms, st);
            && k <= |p| && (forall j :: 0 <= j < |p| ==> p[j] < |ms|) && k == DropCount(ms, p, 0, floor, st)
            && marked == MarkAll(ms, p[..k]) && DropOldTurns(ms, floor, st) == Live(marked)
    ensures Pointwise(ms, marked)
    ensures Unmarked(ms) ==> forall i :: 0 <= i < |ms| && marked[i].dropped ==> ms[i].IsTurn() && i != LastTurn(ms) && i != Kept(ms, st)
  {
    var p := Removable(ms, st);
    RemovableFits(ms, st);
    k := DropCount(ms, p, 0, floor, st);
    marked := MarkAll(ms, p[..k]);
  }

  /** Only unprotected turns go, and the oldest first: the fewest whose loss meets the budget or the floor. */
  lemma DropKeeps(ms: seq<Message>, floor: nat, st: Limits)
    requires Unmarked(ms)
    ensures var out := DropOldTurns(ms, floor, st);
            Unmarked(out) && Thinned(ms, out) && Protects(ms, out, st)
  {
    var marked, k := DropMarks(ms, floor, st);
    PointwiseThinned(ms, marked);
    PointwiseIndices(ms, marked, "assistant");
    LiveThinned(marked);
    ThinnedTrans(ms, marked, Live(marked));
    PointwiseProtects(ms, marked, st);
    LiveProtects(marked, st);
  }

  /** A drop of the k oldest removable turns leaves the others removable. */
  lemma RemovableAfter(ms: seq<Message>, marked: seq<Message>, k: nat, st: Limits)
    requires Unmarked(ms) && k <= |Removable(ms, st)| && forall j :: 0 <= j < |Removable(ms, st)| ==> Removable(ms, st)[j] < |ms|
    requires marked == MarkAll(ms, Removable(ms, st)[..k]) && Pointwise(ms, marked)
    requires forall i :: 0 <= i < |ms| && marked[i].dropped ==> ms[i].IsTurn() && i != LastTurn(ms) && i != Kept(ms, st)
    ensures |Removable(Live(marked), st)| == |Removable(ms, st)| - k
  {
    var a, b := LastTurn(ms), Kept(ms, st);
    PointwiseIndices(ms, marked, "assistant");
    LastLive(marked, "assistant");
    MarkedOthers(ms, k, a, b);
    LiveOthers(marked, |marked|, a, b);
    assert marked[..|marked|] == marked;
  }

  /** When dropping ends over budget, no more unprotected turns than the floor are left. */
  lemma DropExhausts(ms: seq<Message>, floor: nat, st: Limits)
    requires Unmarked(ms)
    ensures Over(DropOldTurns(ms, floor, st), st) ==> |Removable(DropOldTurns(ms, floor, st), st)| <= floor
  {
    var marked, k := DropMarks(ms, floor, st);
    RemovableAfter(ms, marked, k, st);
    CompactionEstimatesOfLive(marked, st);
    assert EnoughDropped(ms, Removable(ms, st), k, floor, st);
  }

  lemma CompactionEstimatesOfLive(ms: seq<Message>, st: Limits)
    ensures Over(Live(ms), st) <==> Over(ms, st)
  {
    E.CostsLive(ms, st.r);
  }

}
