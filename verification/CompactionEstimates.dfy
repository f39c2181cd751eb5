/** The arithmetic of the budget: no phase raises the estimate, and one computed trim is enough. */
module CompactionEstimates {
  import opened TextTools
  import opened Compaction
  import opened CompactionPhases
  import opened Spans

  // ---- Ceilings over a real ratio ----

  lemma CeilBelow(x: real, n: int)
    requires x <= n as real
    ensures Ceil(x) <= n
  {
  }

  lemma CeilAbove(x: real, n: int)
    requires x > n as real
    ensures Ceil(x) > n
  {
  }

  lemma Cancel(a: real, b: real, r: Ratio)
    requires a * r >= b * r
    ensures a >= b
  {
    assert (a - b) * r == a * r - b * r;
  }

  lemma Quotient(n: nat, m: nat, d: real, r: Ratio)
    requires n as real >= m as real + d * r
    ensures n as real / r >= m as real / r + d
  {
    assert (n as real / r) * r == n as real;
    assert (m as real / r + d) * r == (m as real / r) * r + d * r;
    Cancel(n as real / r, m as real / r + d, r);
  }

  lemma TokensDrop(n: nat, m: nat, d: nat, r: Ratio)
    requires d >= 1 && n >= m + Ceil(d as real * r) + 64
    ensures TextTokens(m, r) + d <= TextTokens(n, r)
  {
    var x, y := n as real / r, m as real / r;
    Quotient(n, m, d as real, r);
    if m == 0 {
      Slack(n, d, r);
      CeilAbove(x, d);
    } else {
      assert y > 0.0;
      assert Ceil(y) >= 1;
      CeilAbove(x, Ceil(y) + d - 1);
    }
  }

  /** The 64-character slack: with nothing left of the section the quotient still falls by eight more than d. */
  lemma Slack(n: nat, d: nat, r: Ratio)
    requires n >= Ceil(d as real * r) + 64
    ensures n as real / r > d as real
  {
    Quotient(n, 64, d as real, r);
    assert 64.0 / r > 0.0;
  }

  lemma TokensMonotone(n: nat, m: nat, r: Ratio)
    requires m <= n
    ensures TextTokens(m, r) <= TextTokens(n, r)
  {
    Quotient(n, m, 0.0, r);
    CeilBelow(m as real / r, Ceil(n as real / r));
  }

  // ---- The estimate of an edited prompt ----

  lemma {:induction false} CostsUpdate(ms: seq<Message>, i: nat, m: Message, r: Ratio)
    requires i < |ms|
    ensures Costs(ms[i := m], r) == Costs(ms, r) - Cost(ms[i], r) + Cost(m, r)
  {
    if i == 0 {
      assert ms[i := m][1..] == ms[1..];
    } else {
      assert ms[i := m][1..] == ms[1..][i - 1 := m];
      CostsUpdate(ms[1..], i - 1, m, r);
    }
  }

  lemma {:induction false} CostsAppend(ms: seq<Message>, m: Message, r: Ratio)
    ensures Costs(ms + [m], r) == Costs(ms, r) + Cost(m, r)
  {
    if ms == [] {
      assert ms + [m] == [m];
    } else {
      assert (ms + [m])[1..] == ms[1..] + [m];
      CostsAppend(ms[1..], m, r);
    }
  }

  lemma {:induction false} CostsLive(ms: seq<Message>, r: Ratio)
    ensures Costs(Live(ms), r) == Costs(ms, r)
  {
    if ms != [] {
      var last := |ms| - 1;
      assert ms == ms[..last] + [ms[last]];
      CostsLive(ms[..last], r);
      CostsAppend(ms[..last], ms[last], r);
      CostsAppend(Live(ms[..last]), ms[last], r);
    }
  }

  lemma {:induction false} CostsMarked(ms: seq<Message>, out: seq<Message>, r: Ratio)
    requires |out| == |ms| && forall i :: 0 <= i < |ms| ==> Cost(out[i], r) <= Cost(ms[i], r)
    ensures Costs(out, r) <= Costs(ms, r)
  {
    if ms != [] {
      CostsMarked(ms[1..], out[1..], r);
    }
  }

  lemma {:induction false} RetextCost(c: Content, t: string, r: Ratio)
    requires Editable(c)
    ensures ContentTokens(WithText(c, t), r) + TextTokens(|TextOf(c)|, r) == ContentTokens(c, r) + TextTokens(|t|, r)
  {
    if c.Items? {
      RetextItemsCost(c.items, t, r);
    }
  }

  lemma {:induction false} RetextItemsCost(items: seq<Item>, t: string, r: Ratio)
    requires FirstText(items).Some?
    ensures ItemsTokens(WithFirstText(items, t), r) + TextTokens(|FirstText(items).value|, r)
            == ItemsTokens(items, r) + TextTokens(|t|, r)
  {
    var out := WithFirstText(items, t);
    if items[0].TextItem? {
      assert out[1..] == items[1..];
    } else {
      assert out[1..] == WithFirstText(items[1..], t);
      RetextItemsCost(items[1..], t, r);
    }
  }

  /** What a trim of a span saves: exactly the difference between the two texts' tokens. */
  lemma ShrinkSpanCost(m: Message, kind: Kind, s: Span, maximum: int, r: Ratio)
    requires 0 <= s.start <= s.end <= |TextOf(m.content)| && !m.dropped
    ensures var n := |TextOf(m.content)|;
            var cut := (s.end - s.start) - |TrimMiddle(TextOf(m.content)[s.start..s.end], maximum)|;
            && 0 <= cut <= n
            && Cost(ShrinkSpan(m, kind, s, maximum), r) + TextTokens(n, r) == Cost(m, r) + TextTokens(n - cut, r)
  {
    var text := TextOf(m.content);
    var trimmed := TrimMiddle(text[s.start..s.end], maximum);
    if trimmed != text[s.start..s.end] {
      RetextCost(m.content, text[..s.start] + trimmed + text[s.end..], r);
    }
  }

  lemma ShrinkSpanDropped(m: Message, kind: Kind, s: Span, maximum: int)
    requires 0 <= s.start <= s.end <= |TextOf(m.content)|
    ensures ShrinkSpan(m, kind, s, maximum).dropped == m.dropped
  {
  }

  lemma ShrinkAtNeverGrows(ms: seq<Message>, i: nat, kind: Kind, least: nat, compute: bool, st: Limits)
    requires i < |ms|
    ensures Estimate(ShrinkAt(ms, i, kind, least, compute, st), st.r) <= Estimate(ms, st.r)
  {
    var found := OptionalSpan(ms[i], kind);
    if found.Some? {
      var s := found.value;
      var t := Target(ms, s, least, compute, st);
      var out := ShrinkSpan(ms[i], kind, s, t);
      if ms[i].dropped {
        ShrinkSpanDropped(ms[i], kind, s, t);
      } else {
        ShrinkSpanCost(ms[i], kind, s, t, st.r);
        var n := |TextOf(ms[i].content)|;
        TokensMonotone(n, n - ((s.end - s.start) - |TrimMiddle(TextOf(ms[i].content)[s.start..s.end], t)|), st.r);
      }
      CostsUpdate(ms, i, out, st.r);
    }
  }

  lemma {:induction false} ShrinkKindsNeverGrows(ms: seq<Message>, i: nat, kinds: seq<Kind>, compute: bool, st: Limits)
    requires i < |ms|
    ensures Estimate(ShrinkKinds(ms, i, kinds, compute, st), st.r) <= Estimate(ms, st.r)
    decreases |kinds|
  {
    if kinds != [] && Over(ms, st) {
      ShrinkAtNeverGrows(ms, i, kinds[0], 512, compute, st);
      ShrinkKindsNeverGrows(ShrinkAt(ms, i, kinds[0], 512, compute, st), i, kinds[1..], compute, st);
    }
  }

  lemma ShrinkUserNeverGrows(ms: seq<Message>, compute: bool, fallback: bool, st: Limits)
    ensures Estimate(ShrinkUser(ms, compute, fallback, st), st.r) <= Estimate(ms, st.r)
  {
    var i := LatestUser(ms, fallback);
    if i >= 0 {
      ShrinkKindsNeverGrows(ms, i, USER_KINDS, compute, st);
    }
  }

  lemma ShrinkSummaryNeverGrows(ms: seq<Message>, compute: bool, st: Limits)
    ensures Estimate(ShrinkSummary(ms, compute, st), st.r) <= Estimate(ms, st.r)
  {
    var i := FirstOf(ms, "system");
    if i < |ms| {
      ShrinkAtNeverGrows(ms, i, Summary, 1000, compute, st);
    }
  }

  lemma DropNeverGrows(ms: seq<Message>, floor: nat, st: Limits)
    ensures Estimate(DropOldTurns(ms, floor, st), st.r) <= Estimate(ms, st.r)
  {
    var p := Removable(ms, st);
    RemovableFits(ms, st);
    var marked := MarkAll(ms, p[..DropCount(ms, p, 0, floor, st)]);
    CostsMarked(ms, marked, st.r);
    CostsLive(marked, st.r);
  }

  lemma SummarisedNeverGrows(ms: seq<Message>, st: Limits)
    ensures Estimate(Summarised(ms, st), st.r) <= Estimate(ms, st.r)
  {
    var a := DropOldTurns(ms, FirstFloor(st), st);
    DropNeverGrows(ms, FirstFloor(st), st);
    ShrinkUserNeverGrows(a, true, true, st);
    DropNeverGrows(Trimmed(ms, st), 1, st);
    ShrinkSummaryNeverGrows(Paired(ms, st), true, st);
  }

  /** No phase, and so no whole compaction, ever raises the estimate. */
  lemma CompactionNeverGrows(ms: seq<Message>, st: Limits)
    ensures Estimate(Compacted(ms, st), st.r) <= Estimate(ms, st.r)
  {
    var d := Summarised(ms, st);
    var e := if Over(d, st) then ShrinkUser(d, false, false, st) else d;
    var f := Emptied(ms, st);
    SummarisedNeverGrows(ms, st);
    ShrinkUserNeverGrows(d, false, false, st);
    ShrinkSummaryNeverGrows(e, false, st);
    DropNeverGrows(f, 0, st);
  }

  // ---- One targeted trim suffices ----

  lemma Saving(m: Message, kind: Kind, s: Span, target: nat, d: nat, k: int, r: Ratio)
    requires 0 <= s.start <= s.end <= |TextOf(m.content)| && !m.dropped && d >= 1 && k == InChars(d, r)
    requires s.end - s.start - k - 64 == target
    ensures Cost(ShrinkSpan(m, kind, s, target), r) + d <= Cost(m, r)
  {
    var n := |TextOf(m.content)|;
    var section := TextOf(m.content)[s.start..s.end];
    var cut := (s.end - s.start) - |TrimMiddle(section, target)|;
    ShrinkSpanCost(m, kind, s, target, r);
    TokensDrop(n, n - cut, d, r);
  }

  lemma AfterSaving(ms: seq<Message>, i: nat, out: Message, st: Limits)
    requires i < |ms| && Cost(out, st.r) + Excess(ms, st) <= Cost(ms[i], st.r)
    ensures !Over(ms[i := out], st)
  {
    CostsUpdate(ms, i, out, st.r);
  }

  lemma Unclamped(ms: seq<Message>, s: Span, least: nat, st: Limits)
    requires s.end - s.start - Deficit(ms, st) - 64 >= least
    ensures Target(ms, s, least, true, st) == s.end - s.start - Deficit(ms, st) - 64
  {
  }

  lemma TrimSaves(ms: seq<Message>, i: nat, kind: Kind, s: Span, target: nat, st: Limits)
    requires i < |ms| && !ms[i].dropped && 0 <= s.start <= s.end <= |TextOf(ms[i].content)| && Over(ms, st)
    requires target == s.end - s.start - Deficit(ms, st) - 64
    ensures !Over(ms[i := ShrinkSpan(ms[i], kind, s, target)], st)
  {
    Saving(ms[i], kind, s, target, Excess(ms, st), Deficit(ms, st), st.r);
    AfterSaving(ms, i, ShrinkSpan(ms[i], kind, s, target), st);
  }

  lemma TrimSuffices(ms: seq<Message>, i: nat, kind: Kind, s: Span, least: nat, st: Limits)
    requires i < |ms| && !ms[i].dropped && 0 <= s.start <= s.end <= |TextOf(ms[i].content)| && Over(ms, st)
    requires s.end - s.start - Deficit(ms, st) - 64 >= least
    ensures !Over(ms[i := ShrinkSpan(ms[i], kind, s, Target(ms, s, least, true, st))], st)
  {
    Unclamped(ms, s, least, st);
    TrimSaves(ms, i, kind, s, Target(ms, s, least, true, st), st);
  }

  /** For every ratio in [1, 8]: when the computed target is not clamped to its floor, the trim ends within budget. */
  lemma OneTrimSuffices(ms: seq<Message>, i: nat, kind: Kind, least: nat, st: Limits)
    requires i < |ms| && !ms[i].dropped && OptionalSpan(ms[i], kind).Some?
    requires var s := OptionalSpan(ms[i], kind).value;
             s.end - s.start - Deficit(ms, st) - 64 >= least
    ensures !Over(ShrinkAt(ms, i, kind, least, true, st), st)
  {
    if Over(ms, st) {
      TrimSuffices(ms, i, kind, OptionalSpan(ms[i], kind).value, least, st);
    } else {
      ShrinkAtNeverGrows(ms, i, kind, least, true, st);
    }
  }
}
