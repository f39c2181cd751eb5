/** Optional spans stay aligned with their text: one rewrite, and the rewriter of context_selection_runtime.py. */
module Spans {
  import opened TextTools
  import opened Compaction

  // ---- Alignment ----

  predicate Apart(spans: seq<Span>, j: nat, k: nat)
    requires j < |spans| && k < |spans|
  {
    && spans[j].kind != spans[k].kind
    && (spans[j].end <= spans[k].start || spans[k].end <= spans[j].start)
  }

  /** In bounds, pairwise disjoint, one span a kind. */
  predicate WellSpanned(spans: seq<Span>, n: nat) {
    && (forall k :: 0 <= k < |spans| ==> 0 <= spans[k].start <= spans[k].end <= n)
    && (forall j: nat, k: nat :: j < |spans| && k < |spans| && j != k ==> Apart(spans, j, k))
  }

  function Section(text: string, s: Span): string
    requires 0 <= s.start <= s.end <= |text|
  {
    text[s.start..s.end]
  }

  predicate Covered(spans: seq<Span>, i: int) {
    exists k :: 0 <= k < |spans| && spans[k].start <= i < spans[k].end
  }

  /** The characters of text[lo..hi] that lie in no span. */
  function Outside(text: string, spans: seq<Span>, lo: nat, hi: nat): string
    requires lo <= hi <= |text|
    decreases hi - lo
  {
    if lo == hi then ""
    else Outside(text, spans, lo, hi - 1) + (if Covered(spans, hi - 1) then "" else [text[hi - 1]])
  }

  function Fixed(text: string, spans: seq<Span>): string {
    Outside(text, spans, 0, |text|)
  }

  lemma {:induction false} OutsideSplit(text: string, spans: seq<Span>, lo: nat, mid: nat, hi: nat)
    requires lo <= mid <= hi <= |text|
    ensures Outside(text, spans, lo, hi) == Outside(text, spans, lo, mid) + Outside(text, spans, mid, hi)
    decreases hi
  {
    if mid < hi {
      OutsideSplit(text, spans, lo, mid, hi - 1);
    }
  }

  lemma {:induction false} OutsideCovered(text: string, spans: seq<Span>, lo: nat, hi: nat)
    requires lo <= hi <= |text| && forall i :: lo <= i < hi ==> Covered(spans, i)
    ensures Outside(text, spans, lo, hi) == ""
    decreases hi
  {
    if lo < hi {
      OutsideCovered(text, spans, lo, hi - 1);
    }
  }

  /** Position i + d of the new text holds what position i of the old one did, in or out of a span as before. */
  predicate SameAt(text: string, spans: seq<Span>, text': string, spans': seq<Span>, i: int, d: int) {
    && 0 <= i < |text| && 0 <= i + d < |text'| && text'[i + d] == text[i]
    && (Covered(spans', i + d) <==> Covered(spans, i))
  }

  lemma {:induction false} OutsideMoved(text: string, spans: seq<Span>, text': string, spans': seq<Span>, lo: nat, hi: nat, d: int)
    requires lo <= hi <= |text| && 0 <= lo + d && hi + d <= |text'|
    requires forall i :: lo <= i < hi ==> SameAt(text, spans, text', spans', i, d)
    ensures Outside(text', spans', lo + d, hi + d) == Outside(text, spans, lo, hi)
    decreases hi
  {
    if lo < hi {
      assert SameAt(text, spans, text', spans', hi - 1, d);
      OutsideMoved(text, spans, text', spans', lo, hi - 1, d);
    }
  }

  // ---- One rewrite of one section ----

  /** The section's own span takes the change at its end; spans starting at or after that end move as a whole. */
  function Moved(spans: seq<Span>, k: nat, change: int): (out: seq<Span>)
    requires k < |spans|
    ensures |out| == |spans|
  {
    seq(|spans|, i requires 0 <= i < |spans| =>
      if i == k then spans[i].(end := spans[i].end + change)
      else if spans[i].start >= spans[k].end then spans[i].(start := spans[i].start + change, end := spans[i].end + change)
      else spans[i])
  }

  function Replaced(text: string, s: Span, t: string): string
    requires 0 <= s.start <= s.end <= |text|
  {
    text[..s.start] + t + text[s.end..]
  }

  /** An empty section meeting another span at the same point could not tell before from after; it is left alone. */
  predicate Rewritable(spans: seq<Span>, k: nat)
    requires k < |spans|
  {
    spans[k].start < spans[k].end
  }

  lemma MovedWellSpanned(text: string, spans: seq<Span>, k: nat, t: string)
    requires WellSpanned(spans, |text|) && k < |spans| && Rewritable(spans, k)
    ensures var change := |t| - (spans[k].end - spans[k].start);
            WellSpanned(Moved(spans, k, change), |Replaced(text, spans[k], t)|)
  {
    var change := |t| - (spans[k].end - spans[k].start);
    var out := Moved(spans, k, change);
    forall i | 0 <= i < |spans| && i != k
      ensures spans[i].start >= spans[k].end || spans[i].end <= spans[k].start
    {
      assert Apart(spans, i, k);
    }
    forall i: nat, j: nat | i < |out| && j < |out| && i != j
      ensures Apart(out, i, j)
    {
      assert Apart(spans, i, j);
    }
  }

  lemma SliceKept(text: string, s: Span, t: string, lo: nat, hi: nat)
    requires 0 <= s.start <= s.end <= |text| && lo <= hi <= s.start
    ensures Replaced(text, s, t)[lo..hi] == text[lo..hi]
  {
  }

  lemma SliceMoved(text: string, s: Span, t: string, lo: nat, hi: nat)
    requires 0 <= s.start <= s.end <= lo <= hi <= |text|
    ensures var d := |t| - (s.end - s.start);
            0 <= lo + d <= hi + d <= |Replaced(text, s, t)| && Replaced(text, s, t)[lo + d..hi + d] == text[lo..hi]
  {
  }

  lemma OtherSection(text: string, spans: seq<Span>, k: nat, t: string, j: nat)
    requires WellSpanned(spans, |text|) && k < |spans| && Rewritable(spans, k) && j < |spans| && j != k
    ensures var out := Moved(spans, k, |t| - (spans[k].end - spans[k].start)); var text' := Replaced(text, spans[k], t);
            && out[j].kind == spans[j].kind && 0 <= out[j].start <= out[j].end <= |text'|
            && Section(text', out[j]) == Section(text, spans[j])
  {
    OthersApart(spans, |text|, k, j);
    if spans[j].start >= spans[k].end {
      SliceMoved(text, spans[k], t, spans[j].start, spans[j].end);
    } else {
      SliceKept(text, spans[k], t, spans[j].start, spans[j].end);
    }
  }

  lemma MovedSections(text: string, spans: seq<Span>, k: nat, t: string)
    requires WellSpanned(spans, |text|) && k < |spans| && Rewritable(spans, k)
    ensures var out := Moved(spans, k, |t| - (spans[k].end - spans[k].start));
            var text' := Replaced(text, spans[k], t);
            && WellSpanned(out, |text'|)
            && Section(text', out[k]) == t
            && forall j :: 0 <= j < |spans| && j != k ==>
                 out[j].kind == spans[j].kind && Section(text', out[j]) == Section(text, spans[j])
  {
    MovedWellSpanned(text, spans, k, t);
    forall j: nat | j < |spans| && j != k {
      OtherSection(text, spans, k, t, j);
    }
  }

  lemma OthersApart(spans: seq<Span>, n: nat, k: nat, j: nat)
    requires WellSpanned(spans, n) && k < |spans| && j < |spans| && j != k
    ensures spans[j].start >= spans[k].end || spans[j].end <= spans[k].start
  {
    assert Apart(spans, j, k);
  }

  /** Before the section no span covers more or less than it did; after it coverage moves with the text. */
  lemma CoverageAt(text: string, spans: seq<Span>, k: nat, t: string, i: nat)
    requires WellSpanned(spans, |text|) && k < |spans| && Rewritable(spans, k) && i < |text|
    requires i < spans[k].start || spans[k].end <= i
    ensures var s := spans[k]; var d := |t| - (s.end - s.start);
            && (i < s.start ==> (Covered(Moved(spans, k, d), i) <==> Covered(spans, i)))
            && (s.end <= i ==> (Covered(Moved(spans, k, d), i + d) <==> Covered(spans, i)))
  {
    var s := spans[k];
    var d := |t| - (s.end - s.start);
    var out := Moved(spans, k, d);
    var to := if i < s.start then i else i + d;
    forall j: nat | j < |spans| ensures (out[j].start <= to < out[j].end) <==> (spans[j].start <= i < spans[j].end) {
      if j != k {
        OthersApart(spans, |text|, k, j);
      }
    }
    if Covered(spans, i) {
      var j :| 0 <= j < |spans| && spans[j].start <= i < spans[j].end;
      assert out[j].start <= to < out[j].end;
    }
    if Covered(out, to) {
      var j :| 0 <= j < |out| && out[j].start <= to < out[j].end;
      assert spans[j].start <= i < spans[j].end;
    }
  }

  lemma SectionCovered(spans: seq<Span>, k: nat, t: string)
    requires k < |spans|
    ensures var s := spans[k]; var out := Moved(spans, k, |t| - (s.end - s.start));
            && (forall i :: s.start <= i < s.end ==> Covered(spans, i))
            && (forall i :: s.start <= i < s.start + |t| ==> Covered(out, i))
  {
    var s := spans[k];
    var out := Moved(spans, k, |t| - (s.end - s.start));
    forall i | s.start <= i < s.start + |t| ensures Covered(out, i) {
      assert out[k].start <= i < out[k].end;
    }
  }

  lemma CutOut(text: string, spans: seq<Span>, lo: nat, hi: nat)
    requires lo <= hi <= |text| && forall i :: lo <= i < hi ==> Covered(spans, i)
    ensures Fixed(text, spans) == Outside(text, spans, 0, lo) + Outside(text, spans, hi, |text|)
  {
    OutsideSplit(text, spans, 0, lo, |text|);
    OutsideSplit(text, spans, lo, hi, |text|);
    OutsideCovered(text, spans, lo, hi);
  }

  lemma ReplacedAt(text: string, s: Span, t: string, i: nat)
    requires 0 <= s.start <= s.end <= |text| && i < |text|
    ensures i < s.start ==> Replaced(text, s, t)[i] == text[i]
    ensures s.end <= i ==> Replaced(text, s, t)[i + (|t| - (s.end - s.start))] == text[i]
  {
  }

  lemma KeptAt(text: string, spans: seq<Span>, k: nat, t: string, i: nat)
    requires WellSpanned(spans, |text|) && k < |spans| && Rewritable(spans, k) && i < spans[k].start
    ensures var s := spans[k];
            SameAt(text, spans, Replaced(text, s, t), Moved(spans, k, |t| - (s.end - s.start)), i, 0)
  {
    CoverageAt(text, spans, k, t, i);
    ReplacedAt(text, spans[k], t, i);
  }

  lemma MovedAt(text: string, spans: seq<Span>, k: nat, t: string, i: nat)
    requires WellSpanned(spans, |text|) && k < |spans| && Rewritable(spans, k) && spans[k].end <= i < |text|
    ensures var s := spans[k]; var d := |t| - (s.end - s.start);
            SameAt(text, spans, Replaced(text, s, t), Moved(spans, k, d), i, d)
  {
    CoverageAt(text, spans, k, t, i);
    ReplacedAt(text, spans[k], t, i);
  }

  lemma {:induction false} CutMoved(text: string, spans: seq<Span>, text': string, out: seq<Span>, lo: nat, hi: nat, mid: nat)
    requires lo <= hi <= |text| && lo <= mid <= |text'| && |text'| == |text| + mid - hi
    requires Fixed(text, spans) == Outside(text, spans, 0, lo) + Outside(text, spans, hi, |text|)
    requires Fixed(text', out) == Outside(text', out, 0, lo) + Outside(text', out, mid, |text'|)
    requires Outside(text', out, 0, lo) == Outside(text, spans, 0, lo)
    requires Outside(text', out, mid, |text'|) == Outside(text, spans, hi, |text|)
    ensures Fixed(text', out) == Fixed(text, spans)
  {
  }

  lemma {:induction false} LeftStays(text: string, spans: seq<Span>, k: nat, t: string, text': string, out: seq<Span>, hi: nat)
    requires WellSpanned(spans, |text|) && k < |spans| && Rewritable(spans, k) && hi <= spans[k].start
    requires text' == Replaced(text, spans[k], t) && out == Moved(spans, k, |t| - (spans[k].end - spans[k].start))
    ensures Outside(text', out, 0, hi) == Outside(text, spans, 0, hi)
    decreases hi
  {
    if 0 < hi {
      KeptAt(text, spans, k, t, hi - 1);
      LeftStays(text, spans, k, t, text', out, hi - 1);
    }
  }

  lemma RightMoves(text: string, spans: seq<Span>, k: nat, t: string)
    requires WellSpanned(spans, |text|) && k < |spans| && Rewritable(spans, k)
    ensures var s := spans[k]; var out := Moved(spans, k, |t| - (s.end - s.start)); var text' := Replaced(text, s, t);
            Outside(text', out, s.start + |t|, |text'|) == Outside(text, spans, s.end, |text|)
  {
    var s := spans[k];
    var d := |t| - (s.end - s.start);
    var text', out := Replaced(text, s, t), Moved(spans, k, d);
    forall i: nat | s.end <= i < |text| ensures SameAt(text, spans, text', out, i, d) {
      MovedAt(text, spans, k, t, i);
    }
    OutsideMoved(text, spans, text', out, s.end, |text|, d);
  }

  /** Nothing outside the spans changes when one section is replaced by any text. */
  lemma FixedTextStays(text: string, spans: seq<Span>, k: nat, t: string)
    requires WellSpanned(spans, |text|) && k < |spans| && Rewritable(spans, k)
    ensures Fixed(Replaced(text, spans[k], t), Moved(spans, k, |t| - (spans[k].end - spans[k].start))) == Fixed(text, spans)
  {
    var s := spans[k];
    var text', out := Replaced(text, s, t), Moved(spans, k, |t| - (s.end - s.start));
    SectionCovered(spans, k, t);
    CutOut(text, spans, s.start, s.end);
    CutOut(text', out, s.start, s.start + |t|);
    LeftStays(text, spans, k, t, text', out, s.start);
    RightMoves(text, spans, k, t);
    CutMoved(text, spans, text', out, s.start, s.end, s.start + |t|);
  }

  // ---- _shrink_optional on a message with recorded spans ----

  predicate Aligned(m: Message) {
    m.spans.Some? && WellSpanned(m.spans.value, |TextOf(m.content)|)
  }

  lemma TailWellSpanned(spans: seq<Span>, n: nat)
    requires WellSpanned(spans, n) && spans != []
    ensures WellSpanned(spans[1..], n)
  {
    forall j: nat, k: nat | j < |spans[1..]| && k < |spans[1..]| && j != k ensures Apart(spans[1..], j, k) {
      assert Apart(spans, j + 1, k + 1);
    }
  }

  lemma {:induction false} RecordedIsTheSpan(spans: seq<Span>, kind: Kind, n: nat, k: nat)
    requires WellSpanned(spans, n) && k < |spans| && spans[k].kind == kind
    ensures RecordedSpan(spans, kind, n) == Some(spans[k])
  {
    if k > 0 {
      assert Apart(spans, 0, k);
      TailWellSpanned(spans, n);
      RecordedIsTheSpan(spans[1..], kind, n, k - 1);
    }
  }

  lemma {:induction false} RecordedIndex(spans: seq<Span>, kind: Kind, n: nat) returns (k: nat)
    requires RecordedSpan(spans, kind, n).Some?
    ensures k < |spans| && spans[k] == RecordedSpan(spans, kind, n).value && spans[k].kind == kind
  {
    if SpanFits(spans[0], kind, n) {
      k := 0;
    } else {
      var j := RecordedIndex(spans[1..], kind, n);
      k := j + 1;
    }
  }

  lemma ShiftAllIsMoved(spans: seq<Span>, k: nat, change: int, n: nat)
    requires WellSpanned(spans, n) && k < |spans|
    ensures ShiftAll(spans, spans[k].kind, spans[k].end, change) == Moved(spans, k, change)
  {
    forall i | 0 <= i < |spans|
      ensures ShiftAll(spans, spans[k].kind, spans[k].end, change)[i] == Moved(spans, k, change)[i]
    {
      assert i != k ==> Apart(spans, i, k);
    }
  }

  predicate Editable(c: Content) { c.Plain? || (c.Items? && FirstText(c.items).Some?) }

  lemma {:induction false} RetextItems(items: seq<Item>, t: string)
    requires FirstText(items).Some?
    ensures FirstText(WithFirstText(items, t)) == Some(t)
  {
    if !items[0].TextItem? {
      RetextItems(items[1..], t);
      assert WithFirstText(items, t)[1..] == WithFirstText(items[1..], t);
    }
  }

  lemma Retext(c: Content, t: string)
    requires Editable(c)
    ensures TextOf(WithText(c, t)) == t && Editable(WithText(c, t))
  {
    if c.Items? {
      RetextItems(c.items, t);
    }
  }

  lemma OneOfAKind(spans: seq<Span>, n: nat, i: nat, j: nat)
    requires WellSpanned(spans, n) && i < |spans| && j < |spans| && spans[i].kind == spans[j].kind
    ensures i == j
  {
    assert Apart(spans, i, j) || i == j;
  }

  function SectionOf(m: Message, k: nat): string
    requires Aligned(m) && k < |m.spans.value|
  {
    Section(TextOf(m.content), m.spans.value[k])
  }

  lemma RecordedOptional(m: Message, kind: Kind)
    requires m.spans.Some?
    ensures OptionalSpan(m, kind) == RecordedSpan(m.spans.value, kind, |TextOf(m.content)|)
  {
  }

  /** The message with section k replaced. */
  function Rewritten(m: Message, k: nat, t: string): Message
    requires Aligned(m) && k < |m.spans.value|
  {
    var s := m.spans.value[k];
    m.(content := WithText(m.content, Replaced(TextOf(m.content), s, t)),
       spans := Some(Moved(m.spans.value, k, |t| - (s.end - s.start))))
  }

  lemma ShrinkIs(m: Message, kind: Kind, maximum: int, s: Span)
    requires OptionalSpan(m, kind) == Some(s) && 0 <= s.start <= s.end <= |TextOf(m.content)|
    ensures Shrink(m, kind, maximum) == ShrinkSpan(m, kind, s, maximum)
  {
  }

  lemma SpanRewrites(m: Message, k: nat, maximum: int)
    requires Aligned(m) && k < |m.spans.value|
    ensures var s := m.spans.value[k]; var t := TrimMiddle(SectionOf(m, k), maximum);
            ShrinkSpan(m, s.kind, s, maximum) == if t == SectionOf(m, k) then m else Rewritten(m, k, t)
  {
    var s := m.spans.value[k];
    var t := TrimMiddle(SectionOf(m, k), maximum);
    ShiftAllIsMoved(m.spans.value, k, |t| - (s.end - s.start), |TextOf(m.content)|);
  }

  /** A shrink of an aligned message rewrites the section of that kind, if it is there and too long. */
  lemma ShrinkRewrites(m: Message, kind: Kind, maximum: int, k: nat)
    requires Aligned(m) && k < |m.spans.value| && m.spans.value[k].kind == kind
    ensures var t := TrimMiddle(SectionOf(m, k), maximum);
            Shrink(m, kind, maximum) == if t == SectionOf(m, k) then m else Rewritten(m, k, t)
  {
    RecordedIsTheSpan(m.spans.value, kind, |TextOf(m.content)|, k);
    RecordedOptional(m, kind);
    ShrinkIs(m, kind, maximum, m.spans.value[k]);
    SpanRewrites(m, k, maximum);
  }

  lemma ShrinkSkips(m: Message, kind: Kind, maximum: int)
    requires Aligned(m) && forall k :: 0 <= k < |m.spans.value| ==> m.spans.value[k].kind != kind
    ensures Shrink(m, kind, maximum) == m
  {
    RecordedOptional(m, kind);
    if RecordedSpan(m.spans.value, kind, |TextOf(m.content)|).Some? {
      var k := RecordedIndex(m.spans.value, kind, |TextOf(m.content)|);
      assert false;
    }
  }

  /** Replacing a section keeps alignment and the fixed text, and changes no other section. */
  lemma RewrittenAligned(m: Message, k: nat, t: string)
    requires Aligned(m) && k < |m.spans.value| && Editable(m.content) && Rewritable(m.spans.value, k)
    ensures var out := Rewritten(m, k, t);
            && Aligned(out) && |out.spans.value| == |m.spans.value|
            && Fixed(TextOf(out.content), out.spans.value) == Fixed(TextOf(m.content), m.spans.value)
            && SectionOf(out, k) == t
            && forall j :: 0 <= j < |m.spans.value| ==>
                 out.spans.value[j].kind == m.spans.value[j].kind && (j != k ==> SectionOf(out, j) == SectionOf(m, j))
  {
    var spans, text := m.spans.value, TextOf(m.content);
    Retext(m.content, Replaced(text, spans[k], t));
    MovedSections(text, spans, k, t);
    FixedTextStays(text, spans, k, t);
  }

  predicate Trims(m: Message, out: Message, kind: Kind, maximum: int)
    requires Aligned(m) && Aligned(out) && |out.spans.value| == |m.spans.value|
  {
    forall j :: 0 <= j < |m.spans.value| ==>
      && out.spans.value[j].kind == m.spans.value[j].kind
      && SectionOf(out, j) == (if m.spans.value[j].kind == kind then TrimMiddle(SectionOf(m, j), maximum) else SectionOf(m, j))
  }

  predicate SameFixed(m: Message, out: Message)
    requires Aligned(m) && Aligned(out)
  {
    Fixed(TextOf(out.content), out.spans.value) == Fixed(TextOf(m.content), m.spans.value)
  }

  /** A shrink keeps alignment and the fixed text, trims its own section and touches no other. */
  lemma ShrinkAligned(m: Message, kind: Kind, maximum: int)
    requires Aligned(m)
    ensures var out := Shrink(m, kind, maximum);
            && Aligned(out) && |out.spans.value| == |m.spans.value|
            && SameFixed(m, out) && Trims(m, out, kind, maximum)
  {
    if k: nat :| k < |m.spans.value| && m.spans.value[k].kind == kind {
      ShrinkRewrites(m, kind, maximum, k);
      var t := TrimMiddle(SectionOf(m, k), maximum);
      forall j: nat | j < |m.spans.value| && m.spans.value[j].kind == kind ensures j == k {
        OneOfAKind(m.spans.value, |TextOf(m.content)|, j, k);
      }
      if t != SectionOf(m, k) {
        RewrittenAligned(m, k, t);
      }
    } else {
      ShrinkSkips(m, kind, maximum);
    }
  }

  // ---- _candidate_messages ----

  datatype Swap = Swap(original: string, candidate: string)

  function TextItems(items: seq<Item>): nat {
    if items == [] then 0 else (if items[0].TextItem? then 1 else 0) + TextItems(items[1..])
  }

  /** _text: only plain content or a list with exactly one text part can be rewritten. */
  predicate Readable(c: Content) { c.Plain? || (c.Items? && TextItems(c.items) == 1) }

  /** Replacements are built only from blocks whose candidate differs and is no longer (lines 66-69). */
  predicate Fair(swaps: map<Kind, Swap>) {
    forall kind :: kind in swaps ==> |swaps[kind].candidate| <= |swaps[kind].original|
                                     && swaps[kind].candidate != swaps[kind].original
  }

  lemma {:induction false} OneTextItem(items: seq<Item>, t: string)
    requires TextItems(items) >= 1
    ensures FirstText(items).Some? && TextItems(WithFirstText(items, t)) == TextItems(items)
  {
    if !items[0].TextItem? {
      OneTextItem(items[1..], t);
      assert WithFirstText(items, t)[1..] == WithFirstText(items[1..], t);
    } else {
      assert WithFirstText(items, t)[1..] == items[1..];
    }
  }

  lemma SwapAligned(m: Message, k: nat, t: string)
    requires Aligned(m) && k < |m.spans.value| && Readable(m.content) && SectionOf(m, k) != ""
    ensures var out := Rewritten(m, k, t);
            && Aligned(out) && |out.spans.value| == |m.spans.value| && Readable(out.content) && SameFixed(m, out)
            && SectionOf(out, k) == t
            && forall j :: 0 <= j < |m.spans.value| ==>
                 out.spans.value[j].kind == m.spans.value[j].kind && (j != k ==> SectionOf(out, j) == SectionOf(m, j))
  {
    if m.content.Items? {
      OneTextItem(m.content.items, Replaced(TextOf(m.content), m.spans.value[k], t));
    }
    RewrittenAligned(m, k, t);
  }

  /** One message's spans in the given order; None is the early return. */
  function SwapSpans(m: Message, order: seq<nat>, swaps: map<Kind, Swap>, matched: set<Kind>): Option<(Message, set<Kind>)>
    requires Aligned(m) && Fair(swaps) && forall k :: 0 <= k < |order| ==> order[k] < |m.spans.value|
    decreases |order|
  {
    if order == [] then Some((m, matched))
    else
      var k := order[0];
      var kind := m.spans.value[k].kind;
      if kind !in swaps then SwapSpans(m, order[1..], swaps, matched)
      else if kind in matched || !Readable(m.content) || SectionOf(m, k) != swaps[kind].original then None
      else
        SwapAligned(m, k, swaps[kind].candidate);
        SwapSpans(Rewritten(m, k, swaps[kind].candidate), order[1..], swaps, matched + {kind})
  }

  /** Span k, if its kind is replaced, is not yet matched and holds exactly the text to replace. */
  predicate Fits(m: Message, k: nat, swaps: map<Kind, Swap>, matched: set<Kind>)
    requires Aligned(m) && k < |m.spans.value|
  {
    var kind := m.spans.value[k].kind;
    kind in swaps ==> kind !in matched && Readable(m.content) && SectionOf(m, k) == swaps[kind].original
  }

  predicate Swapped(m: Message, out: Message, order: seq<nat>, swaps: map<Kind, Swap>)
    requires Aligned(m) && Aligned(out) && |out.spans.value| == |m.spans.value|
  {
    forall j: nat :: j < |m.spans.value| ==>
      && out.spans.value[j].kind == m.spans.value[j].kind
      && SectionOf(out, j) == (if j in order && m.spans.value[j].kind in swaps then swaps[m.spans.value[j].kind].candidate
                               else SectionOf(m, j))
  }

  function KindsAt(m: Message, order: seq<nat>, swaps: map<Kind, Swap>): set<Kind>
    requires Aligned(m) && forall k :: 0 <= k < |order| ==> order[k] < |m.spans.value|
  {
    set k | k in order && m.spans.value[k].kind in swaps :: m.spans.value[k].kind
  }

  predicate NoRepeats(order: seq<nat>) { forall i, j :: 0 <= i < j < |order| ==> order[i] != order[j] }

  lemma KindsStep(m: Message, next: Message, order: seq<nat>, swaps: map<Kind, Swap>)
    requires Aligned(m) && order != [] && forall k :: 0 <= k < |order| ==> order[k] < |m.spans.value|
    requires Aligned(next) && |next.spans.value| == |m.spans.value|
    requires forall j :: 0 <= j < |m.spans.value| ==> next.spans.value[j].kind == m.spans.value[j].kind
    ensures KindsAt(m, order, swaps)
            == KindsAt(next, order[1..], swaps)
               + (if m.spans.value[order[0]].kind in swaps then {m.spans.value[order[0]].kind} else {})
  {
    assert order == [order[0]] + order[1..];
    forall kind ensures kind in KindsAt(m, order, swaps)
                        <==> kind in KindsAt(next, order[1..], swaps)
                             || (kind in swaps && kind == m.spans.value[order[0]].kind)
    {
      if kind in KindsAt(m, order, swaps) {
        var k :| k in order && m.spans.value[k].kind in swaps && kind == m.spans.value[k].kind;
        assert k == order[0] || k in order[1..];
        assert k in order[1..] ==> next.spans.value[k].kind == kind;
      }
      if kind in KindsAt(next, order[1..], swaps) {
        var k :| k in order[1..] && next.spans.value[k].kind in swaps && kind == next.spans.value[k].kind;
        assert k in order && m.spans.value[k].kind == kind;
      }
      if kind in swaps && kind == m.spans.value[order[0]].kind {
        assert order[0] in order;
      }
    }
  }

  predicate AllFit(m: Message, order: seq<nat>, swaps: map<Kind, Swap>, matched: set<Kind>)
    requires Aligned(m) && forall k :: 0 <= k < |order| ==> order[k] < |m.spans.value|
  {
    forall i :: 0 <= i < |order| ==> Fits(m, order[i], swaps, matched)
  }

  lemma FitsStep(m: Message, k: nat, t: string, j: nat, swaps: map<Kind, Swap>, matched: set<Kind>)
    requires Aligned(m) && k < |m.spans.value| && Readable(m.content) && SectionOf(m, k) != ""
    requires j < |m.spans.value| && j != k
    ensures var next := Rewritten(m, k, t);
            && Aligned(next) && |next.spans.value| == |m.spans.value|
            && (Fits(next, j, swaps, matched + {m.spans.value[k].kind}) <==> Fits(m, j, swaps, matched))
  {
    SwapAligned(m, k, t);
    assert Apart(m.spans.value, j, k);
  }

  /** In whatever order the spans are visited, shifting offsets as it goes, the rewriter succeeds exactly when every
      replaced section is unmatched and intact. */
  lemma {:induction false} SwapSucceeds(m: Message, order: seq<nat>, swaps: map<Kind, Swap>, matched: set<Kind>)
    requires Aligned(m) && Fair(swaps) && NoRepeats(order) && forall k :: 0 <= k < |order| ==> order[k] < |m.spans.value|
    ensures SwapSpans(m, order, swaps, matched).Some? <==> AllFit(m, order, swaps, matched)
    decreases |order|
  {
    if order != [] {
      var k, rest := order[0], order[1..];
      var kind := m.spans.value[k].kind;
      if kind !in swaps {
        SwapSucceeds(m, rest, swaps, matched);
        assert AllFit(m, order, swaps, matched) ==> AllFit(m, rest, swaps, matched);
      } else if !Fits(m, k, swaps, matched) {
        assert !Fits(m, order[0], swaps, matched);
      } else {
        var t := swaps[kind].candidate;
        var next := Rewritten(m, k, t);
        SwapAligned(m, k, t);
        SwapSucceeds(next, rest, swaps, matched + {kind});
        forall i | 0 <= i < |rest|
          ensures Fits(next, rest[i], swaps, matched + {kind}) <==> Fits(m, order[i + 1], swaps, matched)
        {
          FitsStep(m, k, t, rest[i], swaps, matched);
        }
        assert AllFit(next, rest, swaps, matched + {kind}) ==> AllFit(m, order, swaps, matched);
      }
    }
  }

  /** Each replaced section then holds its candidate, every other section and all text outside the spans are as
      before, and the spans delimit exactly those sections. */
  lemma {:induction false} SwapOutcome(m: Message, order: seq<nat>, swaps: map<Kind, Swap>, matched: set<Kind>)
    requires Aligned(m) && Fair(swaps) && NoRepeats(order) && forall k :: 0 <= k < |order| ==> order[k] < |m.spans.value|
    requires SwapSpans(m, order, swaps, matched).Some?
    ensures var (out, now) := SwapSpans(m, order, swaps, matched).value;
            && Aligned(out) && |out.spans.value| == |m.spans.value| && out.id == m.id && out.role == m.role
            && SameFixed(m, out) && Swapped(m, out, order, swaps) && now == matched + KindsAt(m, order, swaps)
    decreases |order|
  {
    if order != [] {
      var k, rest := order[0], order[1..];
      var kind := m.spans.value[k].kind;
      if kind !in swaps {
        SwapOutcome(m, rest, swaps, matched);
        KindsStep(m, m, order, swaps);
      } else {
        var t := swaps[kind].candidate;
        var next := Rewritten(m, k, t);
        SwapAligned(m, k, t);
        SwapOutcome(next, rest, swaps, matched + {kind});
        KindsStep(m, next, order, swaps);
        SwappedStep(m, next, SwapSpans(next, rest, swaps, matched + {kind}).value.0, order, swaps);
      }
    }
  }

  lemma SwappedStep(m: Message, next: Message, out: Message, order: seq<nat>, swaps: map<Kind, Swap>)
    requires Aligned(m) && Aligned(next) && Aligned(out) && NoRepeats(order) && order != []
    requires |next.spans.value| == |m.spans.value| == |out.spans.value| && order[0] < |m.spans.value|
    requires Swapped(next, out, order[1..], swaps) && m.spans.value[order[0]].kind in swaps
    requires SectionOf(next, order[0]) == swaps[m.spans.value[order[0]].kind].candidate
    requires forall j :: 0 <= j < |m.spans.value| ==>
               && next.spans.value[j].kind == m.spans.value[j].kind
               && (j != order[0] ==> SectionOf(next, j) == SectionOf(m, j))
    ensures Swapped(m, out, order, swaps)
  {
    assert order[0] !in order[1..];
    assert order == [order[0]] + order[1..];
  }

  /** The span positions by descending start, as sorted() returns them for the spans as first recorded. */
  predicate Visits(order: seq<nat>, spans: seq<Span>) {
    NoRepeats(order) && (forall i :: 0 <= i < |order| ==> order[i] < |spans|) && forall k: nat :: k < |spans| ==> k in order
  }

  // ---- The whole prompt ----

  predicate Recorded(ms: seq<Message>, orders: seq<seq<nat>>) {
    && |orders| == |ms|
    && forall i :: 0 <= i < |ms| ==> ms[i].spans.Some? ==> Aligned(ms[i]) && Visits(orders[i], ms[i].spans.value)
  }

  /** The replaced kinds a message records. */
  function KindsIn(m: Message, swaps: map<Kind, Swap>): set<Kind> {
    if m.spans.None? then {}
    else set k | 0 <= k < |m.spans.value| && m.spans.value[k].kind in swaps :: m.spans.value[k].kind
  }

  /** Every replaced section of the message is readable and holds exactly the text to replace. */
  predicate Intact(m: Message, swaps: map<Kind, Swap>)
    requires m.spans.Some? ==> Aligned(m)
  {
    m.spans.Some? ==> forall k: nat :: k < |m.spans.value| ==> Fits(m, k, swaps, {})
  }

  function Holders(ms: seq<Message>, kind: Kind, swaps: map<Kind, Swap>): nat {
    if ms == [] then 0 else (if kind in KindsIn(ms[0], swaps) then 1 else 0) + Holders(ms[1..], kind, swaps)
  }

  function SwapMessage(m: Message, order: seq<nat>, swaps: map<Kind, Swap>, matched: set<Kind>): Option<(Message, set<Kind>)>
    requires Fair(swaps) && (m.spans.Some? ==> Aligned(m) && Visits(order, m.spans.value))
  {
    if m.spans.None? then Some((m, matched)) else SwapSpans(m, order, swaps, matched)
  }

  /** _candidate_messages once it knows what to replace. */
  function SwapAll(ms: seq<Message>, orders: seq<seq<nat>>, swaps: map<Kind, Swap>, matched: set<Kind>): Option<seq<Message>>
    requires Recorded(ms, orders) && Fair(swaps)
  {
    if ms == [] then (if matched == swaps.Keys then Some([]) else None)
    else
      match SwapMessage(ms[0], orders[0], swaps, matched)
      case None => None
      case Some((out, now)) =>
        match SwapAll(ms[1..], orders[1..], swaps, now)
        case None => None
        case Some(outs) => Some([out] + outs)
  }

  lemma SwapMessageSucceeds(m: Message, order: seq<nat>, swaps: map<Kind, Swap>, matched: set<Kind>)
    requires Fair(swaps) && (m.spans.Some? ==> Aligned(m) && Visits(order, m.spans.value))
    ensures SwapMessage(m, order, swaps, matched).Some? <==> Intact(m, swaps) && KindsIn(m, swaps) !! matched
    ensures SwapMessage(m, order, swaps, matched).Some? ==>
              SwapMessage(m, order, swaps, matched).value.1 == matched + KindsIn(m, swaps)
  {
    if m.spans.Some? {
      SwapSucceeds(m, order, swaps, matched);
      if AllFit(m, order, swaps, matched) {
        SwapOutcome(m, order, swaps, matched);
        assert KindsAt(m, order, swaps) == KindsIn(m, swaps);
        forall k: nat | k < |m.spans.value| ensures Fits(m, k, swaps, matched) {
          assert k in order;
        }
      }
      if Intact(m, swaps) && KindsIn(m, swaps) !! matched {
        forall i | 0 <= i < |order| ensures Fits(m, order[i], swaps, matched) {
          assert order[i] in order;
          assert Fits(m, order[i], swaps, {});
          assert m.spans.value[order[i]].kind in swaps ==> m.spans.value[order[i]].kind in KindsIn(m, swaps);
        }
      }
    }
  }

  predicate Once(ms: seq<Message>, swaps: map<Kind, Swap>, matched: set<Kind>) {
    forall kind :: kind in swaps ==> Holders(ms, kind, swaps) + (if kind in matched then 1 else 0) == 1
  }

  predicate AllIntact(ms: seq<Message>, swaps: map<Kind, Swap>)
    requires forall i :: 0 <= i < |ms| ==> ms[i].spans.Some? ==> Aligned(ms[i])
  {
    forall i :: 0 <= i < |ms| ==> Intact(ms[i], swaps)
  }

  /** The candidate prompt exists exactly when every replaced section is intact and each kind stands in one message. */
  lemma {:induction false} CandidateExists(ms: seq<Message>, orders: seq<seq<nat>>, swaps: map<Kind, Swap>, matched: set<Kind>)
    requires Recorded(ms, orders) && Fair(swaps) && matched <= swaps.Keys
    ensures SwapAll(ms, orders, swaps, matched).Some? <==> AllIntact(ms, swaps) && Once(ms, swaps, matched)
  {
    if ms == [] {
      if Once(ms, swaps, matched) {
        assert matched == swaps.Keys;
      }
    } else {
      var kinds, rest := KindsIn(ms[0], swaps), ms[1..];
      SwapMessageSucceeds(ms[0], orders[0], swaps, matched);
      assert AllIntact(ms, swaps) <==> Intact(ms[0], swaps) && AllIntact(rest, swaps) by {
        assert forall i :: 0 <= i < |rest| ==> rest[i] == ms[i + 1];
        assert ms == [ms[0]] + rest;
      }
      if kinds !! matched {
        assert Once(ms, swaps, matched) <==> Once(rest, swaps, matched + kinds);
        CandidateExists(rest, orders[1..], swaps, matched + kinds);
      } else {
        var kind :| kind in kinds && kind in matched;
        assert kind in swaps && Holders(ms, kind, swaps) >= 1;
      }
    }
  }

  predicate Candidate(m: Message, out: Message, swaps: map<Kind, Swap>) {
    if m.spans.None? then out == m
    else
      && Aligned(m) && Aligned(out) && |out.spans.value| == |m.spans.value| && out.id == m.id && out.role == m.role
      && SameFixed(m, out)
      && forall j: nat :: j < |m.spans.value| ==>
           && out.spans.value[j].kind == m.spans.value[j].kind
           && SectionOf(out, j) == (if m.spans.value[j].kind in swaps then swaps[m.spans.value[j].kind].candidate
                                    else SectionOf(m, j))
  }

  predicate Candidates(ms: seq<Message>, outs: seq<Message>, swaps: map<Kind, Swap>) {
    |outs| == |ms| && forall i :: 0 <= i < |ms| ==> Candidate(ms[i], outs[i], swaps)
  }

  lemma CandidatesCons(ms: seq<Message>, out: Message, outs: seq<Message>, swaps: map<Kind, Swap>)
    requires ms != [] && Candidate(ms[0], out, swaps) && Candidates(ms[1..], outs, swaps)
    ensures Candidates(ms, [out] + outs, swaps)
  {
  }

  lemma SwapMessageIsCandidate(m: Message, order: seq<nat>, swaps: map<Kind, Swap>, matched: set<Kind>)
    requires Fair(swaps) && (m.spans.Some? ==> Aligned(m) && Visits(order, m.spans.value))
    requires SwapMessage(m, order, swaps, matched).Some?
    ensures Candidate(m, SwapMessage(m, order, swaps, matched).value.0, swaps)
  {
    if m.spans.Some? {
      SwapOutcome(m, order, swaps, matched);
    }
  }

  /** Message by message, the candidate prompt differs from the baseline in the replaced sections alone. */
  lemma {:induction false} CandidateIsAligned(ms: seq<Message>, orders: seq<seq<nat>>, swaps: map<Kind, Swap>, matched: set<Kind>)
    requires Recorded(ms, orders) && Fair(swaps) && SwapAll(ms, orders, swaps, matched).Some?
    ensures Candidates(ms, SwapAll(ms, orders, swaps, matched).value, swaps)
  {
    if ms != [] {
      var (out, now) := SwapMessage(ms[0], orders[0], swaps, matched).value;
      SwapMessageIsCandidate(ms[0], orders[0], swaps, matched);
      CandidateIsAligned(ms[1..], orders[1..], swaps, now);
      CandidatesCons(ms, out, SwapAll(ms[1..], orders[1..], swaps, now).value, swaps);
    }
  }

  // ---- The same loop as statements ----

  method SwapInOrder(m: Message, order: seq<nat>, swaps: map<Kind, Swap>, matched: set<Kind>)
    returns (result: Option<(Message, set<Kind>)>)
    requires Aligned(m) && Fair(swaps) && forall k :: 0 <= k < |order| ==> order[k] < |m.spans.value|
    ensures result == SwapSpans(m, order, swaps, matched)
  {
    var updated, now, i := m, matched, 0;
    while i < |order|
      invariant i <= |order| && Aligned(updated) && |updated.spans.value| == |m.spans.value|
      invariant SwapSpans(m, order, swaps, matched) == SwapSpans(updated, order[i..], swaps, now)
    {
      var k := order[i];
      assert order[i..][0] == k && order[i..][1..] == order[i + 1..];
      var kind := updated.spans.value[k].kind;
      i := i + 1;
      if kind !in swaps {
        continue;
      }
      if kind in now || !Readable(updated.content) || SectionOf(updated, k) != swaps[kind].original {
        return None;
      }
      now := now + {kind};
      SwapAligned(updated, k, swaps[kind].candidate);
      updated := Rewritten(updated, k, swaps[kind].candidate);
    }
    result := Some((updated, now));
  }
}
