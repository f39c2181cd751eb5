/** Sections a message shows by its tags alone, when prompt assembly recorded none: what a trim of one does to itself and
    to the others. */
module TagSections {
  import opened TextTools
  import opened Compaction

  // ---- Tags do not overlap ----

  /** An angle bracket at each end and none between, on one line. */
  predicate TagLike(x: string) {
    && |x| >= 3 && x[0] == '<' && x[|x| - 1] == '>'
    && (forall i :: 0 < i < |x| ==> x[i] != '<' && x[i] != '\n')
    && (forall i :: 0 <= i < |x| - 1 ==> x[i] != '>')
  }

  lemma AtChar(text: string, x: string, i: nat, k: nat)
    requires At(text, x, i) && k < |x|
    ensures i + k < |text| && text[i + k] == x[k]
  {
    assert text[i..i + |x|][k] == x[k];
  }

  lemma TagsApart(text: string, x: string, y: string, i: nat, j: nat)
    requires TagLike(x) && TagLike(y) && At(text, x, i) && At(text, y, j) && i < j
    ensures i + |x| <= j
  {
    AtChar(text, y, j, 0);
    if j < i + |x| {
      AtChar(text, x, i, j - i);
    }
  }

  // ---- A text with its middle replaced ----

  /** What stands on either side of a section: the end of its opening, and the start of its close. */
  predicate Edge(pre: string, post: string) {
    && pre != "" && post != ""
    && (pre[|pre| - 1] == '>' || pre[|pre| - 1] == '\n') && (post[0] == '<' || post[0] == '\n')
  }

  /** A tag stands before, inside or after the middle, never across its ends. */
  lemma Whole(pre: string, mid: string, post: string, x: string, i: nat)
    requires Edge(pre, post) && TagLike(x) && At(pre + mid + post, x, i)
    ensures i + |x| <= |pre| || (|pre| <= i && i + |x| <= |pre| + |mid|) || |pre| + |mid| <= i
  {
    var text := pre + mid + post;
    if i < |pre| < i + |x| {
      AtChar(text, x, i, |pre| - 1 - i);
      AtChar(text, x, i, |pre| - i);
    }
    if i < |pre| + |mid| < i + |x| {
      AtChar(text, x, i, |pre| + |mid| - i);
    }
  }

  lemma AtBefore(pre: string, mid: string, post: string, x: string, i: nat)
    requires i + |x| <= |pre|
    ensures At(pre + mid + post, x, i) <==> At(pre, x, i)
  {
    assert (pre + mid + post)[i..i + |x|] == pre[i..i + |x|];
  }

  lemma AtInside(pre: string, mid: string, post: string, x: string, i: nat)
    requires |pre| <= i && i + |x| <= |pre| + |mid|
    ensures At(pre + mid + post, x, i) <==> At(mid, x, i - |pre|)
  {
    assert (pre + mid + post)[i..i + |x|] == mid[i - |pre|..i - |pre| + |x|];
  }

  lemma AtAfter(pre: string, mid: string, post: string, x: string, i: nat)
    requires |pre| + |mid| <= i
    ensures At(pre + mid + post, x, i) <==> At(post, x, i - |pre| - |mid|)
  {
    var text := pre + mid + post;
    var k := i - |pre| - |mid|;
    if k + |x| <= |post| {
      assert text[i..i + |x|] == post[k..k + |x|];
    }
  }

  /** No such tag in the text. */
  ghost predicate Free(text: string, x: string) { forall i: nat :: !At(text, x, i) }

  lemma MarkHasNoTag(x: string, i: nat)
    requires TagLike(x) && i < |ELLIPSIS|
    ensures ELLIPSIS[i] != x[0] && ELLIPSIS[0] == '\n' && ELLIPSIS[|ELLIPSIS| - 1] == '\n'
  {
  }

  lemma JoinedIsFree(a: string, b: string, x: string)
    requires TagLike(x) && Free(a, x) && Free(b, x)
    ensures Free(a + ELLIPSIS + b, x)
  {
    var text := a + ELLIPSIS + b;
    forall i: nat ensures !At(text, x, i) {
      if At(text, x, i) {
        AtChar(text, x, i, 0);
        if i < |a| {
          if i + |x| <= |a| {
            AtBefore(a, ELLIPSIS, b, x, i);
          } else {
            MarkHasNoTag(x, 0);
            AtChar(text, x, i, |a| - i);
          }
        } else if i < |a| + |ELLIPSIS| {
          MarkHasNoTag(x, i - |a|);
        } else {
          AtAfter(a, ELLIPSIS, b, x, i);
        }
      }
    }
  }

  lemma AtPart(text: string, x: string, lo: nat, hi: nat, i: nat)
    requires lo <= hi <= |text| && i + |x| <= hi - lo
    ensures At(text[lo..hi], x, i) <==> At(text, x, lo + i)
  {
    var a, b := text[lo..hi][i..i + |x|], text[lo + i..lo + i + |x|];
    forall k | 0 <= k < |x| ensures a[k] == b[k] {
    }
    assert a == b;
  }

  lemma PartIsFree(text: string, x: string, lo: nat, hi: nat)
    requires lo <= hi <= |text| && Free(text, x)
    ensures Free(text[lo..hi], x)
  {
    forall i: nat ensures !At(text[lo..hi], x, i) {
      if i + |x| <= hi - lo {
        AtPart(text, x, lo, hi, i);
      }
    }
  }

  /** Trimming puts no tag into a text that was free of it. */
  lemma TrimIsFree(body: string, maximum: int, x: string)
    requires TagLike(x) && Free(body, x) && (maximum <= 0 || maximum >= 80)
    ensures Free(TrimMiddle(body, maximum), x)
  {
    if 80 <= maximum < |body| {
      var a, b := TrimKeepsEnds(body, maximum);
      PartIsFree(body, x, 0, a);
      PartIsFree(body, x, b, |body|);
      assert body[..a] == body[0..a] && body[b..] == body[b..|body|];
      JoinedIsFree(body[..a], body[b..], x);
    }
  }

  // ---- Sections ----

  /** The tag stands at p, and nowhere before. */
  ghost predicate First(text: string, x: string, p: nat) { At(text, x, p) && forall i: nat :: i < p ==> !At(text, x, i) }

  /** The first opening stands at p, and s to e is what its section encloses. */
  ghost predicate IsSection(text: string, x: string, y: string, p: nat, s: nat, e: nat) {
    && First(text, x, p) && s == Start(text, p + |x|) && s <= e <= |text|
    && Shuts(text, y, e) && (forall i: nat :: s <= i < e ==> !Shuts(text, y, i))
  }

  lemma {:induction false} CloseFirst(text: string, y: string, start: nat)
    ensures var r := CloseOf(text, y, start);
      && (r.Some? ==> start <= r.value <= |text| && Shuts(text, y, r.value)
                      && forall i: nat :: start <= i < r.value ==> !Shuts(text, y, i))
      && (r.None? ==> forall i: nat :: start <= i ==> !Shuts(text, y, i))
    decreases |text| + 1 - start
  {
    if start <= |text| {
      CloseFirst(text, y, start + 1);
    }
  }

  lemma FindsFirst(text: string, x: string, p: nat)
    ensures Find(text, x, 0) == Some(p) <==> First(text, x, p)
  {
  }

  lemma SectionFacts(text: string, x: string, y: string) returns (p: nat)
    requires TagSection(text, x, y).Some?
    ensures IsSection(text, x, y, p, TagSection(text, x, y).value.0, TagSection(text, x, y).value.1)
  {
    p := Find(text, x, 0).value;
    FindsFirst(text, x, p);
    CloseFirst(text, y, Start(text, p + |x|));
  }

  lemma SectionIs(text: string, x: string, y: string, p: nat, s: nat, e: nat)
    requires IsSection(text, x, y, p, s, e)
    ensures TagSection(text, x, y) == Some((s, e))
  {
    FindsFirst(text, x, p);
    CloseFirst(text, y, s);
  }

  lemma NoSection(text: string, x: string, y: string, p: nat)
    requires First(text, x, p)
    requires forall i: nat :: Start(text, p + |x|) <= i ==> !Shuts(text, y, i)
    ensures TagSection(text, x, y).None?
  {
    FindsFirst(text, x, p);
    CloseFirst(text, y, Start(text, p + |x|));
  }

  lemma NoOpening(text: string, x: string, y: string)
    requires Free(text, x)
    ensures TagSection(text, x, y).None?
  {
  }

  lemma SectionEdge(text: string, x: string, y: string, p: nat, s: nat, e: nat)
    requires TagLike(x) && TagLike(y) && IsSection(text, x, y, p, s, e)
    ensures Edge(text[..s], text[e..]) && p + |x| <= s <= p + |x| + 1
    ensures text == text[..s] + text[s..e] + text[e..]
    ensures At(text[e..], y, 0) || (At(text[e..], "\n" + y, 0) && At(text[e..], y, 1))
  {
    AtChar(text, x, p, |x| - 1);
    if At(text, y, e) {
      assert text[e..][0..|y|] == text[e..e + |y|];
    } else {
      assert text[e..][0..1 + |y|] == text[e..e + 1 + |y|] == "\n" + y;
      assert text[e..][1..1 + |y|] == ("\n" + y)[1..];
    }
  }

  /** A trimmed section shows at most its trimmed text. */
  lemma OwnTrim(text: string, x: string, y: string, p: nat, s: nat, e: nat, b: string) returns (s': nat, e': nat)
    requires TagLike(x) && TagLike(y) && IsSection(text, x, y, p, s, e)
    ensures TagSection(text[..s] + b + text[e..], x, y) == Some((s', e'))
    ensures s <= s' <= e' && (s' == e' || e' <= s + |b|)
  {
    var out := text[..s] + b + text[e..];
    SectionEdge(text, x, y, p, s, e);
    OwnOpening(text, x, p, s, e, b);
    s' := Start(out, p + |x|);
    assert s' >= s by {
      if s == p + |x| + 1 {
        assert out[p + |x|] == text[p + |x|];
      }
    }
    OwnClose(text[..s], b, text[e..], y, s');
    CloseFirst(out, y, s');
    e' := CloseOf(out, y, s').value;
    SectionIs(out, x, y, p, s', e');
  }

  lemma OwnOpening(text: string, x: string, p: nat, s: nat, e: nat, b: string)
    requires s <= e <= |text| && First(text, x, p) && p + |x| <= s
    ensures First(text[..s] + b + text[e..], x, p)
  {
    assert text == text[..s] + text[s..e] + text[e..];
    forall i: nat | i <= p ensures At(text[..s] + b + text[e..], x, i) <==> At(text, x, i) {
      AtBefore(text[..s], b, text[e..], x, i);
      AtBefore(text[..s], text[s..e], text[e..], x, i);
    }
  }

  /** Where the text after the middle begins, the close stands. */
  lemma PostShuts(pre: string, b: string, post: string, y: string)
    requires At(post, y, 0) || At(post, "\n" + y, 0)
    ensures Shuts(pre + b + post, y, |pre| + |b|)
  {
    if At(post, y, 0) {
      AtAfter(pre, b, post, y, |pre| + |b|);
    } else {
      AtAfter(pre, b, post, "\n" + y, |pre| + |b|);
    }
  }

  lemma FirstChar(text: string, x: string)
    requires TagLike(x)
    ensures At(text, x, 0) ==> text != "" && text[0] == '<'
  {
    if At(text, x, 0) {
      AtChar(text, x, 0, 0);
    }
  }

  lemma OwnClose(pre: string, b: string, post: string, y: string, s': nat)
    requires TagLike(y) && |pre| <= s' <= |pre| + 1 && (s' == |pre| + 1 ==> |b + post| > 0 && (b + post)[0] == '\n')
    requires At(post, y, 0) || (At(post, "\n" + y, 0) && At(post, y, 1))
    ensures var r := CloseOf(pre + b + post, y, s'); r.Some? && s' <= r.value && (r.value == s' || r.value <= |pre| + |b|)
  {
    CloseFirst(pre + b + post, y, s');
    if s' <= |pre| + |b| {
      PostShuts(pre, b, post, y);
    } else {
      assert b + post == post;
      FirstChar(post, y);
      AtAfter(pre, b, post, y, s');
    }
  }

  // ---- The other sections ----

  /** The two tags differ at their kth character, so they never stand in one place. */
  predicate Differ(x: string, u: string, k: nat) { k < |x| && k < |u| && x[k] != u[k] }

  lemma NotBoth(text: string, x: string, u: string, k: nat, i: nat)
    requires Differ(x, u, k)
    ensures !(At(text, x, i) && At(text, u, i))
  {
    if At(text, x, i) {
      AtChar(text, x, i, k);
    }
    if At(text, u, i) {
      AtChar(text, u, i, k);
    }
  }

  /** Where a tag stands when the middle, free of it, is replaced by another that is free of it. */
  lemma Moved(pre: string, a: string, b: string, post: string, u: string, i: nat)
    requires Edge(pre, post) && TagLike(u) && Free(b, u) && At(pre + b + post, u, i)
    ensures || (i + |u| <= |pre| && At(pre + a + post, u, i))
            || (|pre| + |b| <= i && At(pre + a + post, u, i + |a| - |b|))
  {
    Whole(pre, b, post, u, i);
    if i + |u| <= |pre| {
      AtBefore(pre, a, post, u, i);
      AtBefore(pre, b, post, u, i);
    } else if |pre| + |b| <= i {
      AtAfter(pre, a, post, u, i + |a| - |b|);
      AtAfter(pre, b, post, u, i);
    } else {
      AtInside(pre, b, post, u, i);
    }
  }

  /** The two tags of another kind, apart from an opening. */
  predicate Strange(x: string, u: string, v: string, k: nat) {
    TagLike(x) && TagLike(u) && TagLike(v) && Differ(x, u, k) && Differ(x, v, 1)
  }

  /** Another kind's opening before a section stands before its opening, and so does the start of what it encloses. */
  lemma OpensBefore(text: string, x: string, u: string, k: nat, p: nat, s: nat, q: nat)
    requires TagLike(x) && TagLike(u) && Differ(x, u, k) && At(text, x, p) && At(text, u, q)
    requires p + |x| <= s <= p + |x| + 1 && q + |u| <= s
    ensures q + |u| <= p && Start(text, q + |u|) <= p
  {
    NotBoth(text, x, u, k, p);
    AtChar(text, x, p, 0);
    if q < p {
      TagsApart(text, u, x, q, p);
    } else if p < q {
      TagsApart(text, x, u, p, q);
    }
  }

  /** A close that comes before the end of an opening comes before the opening. */
  lemma ClosesBefore(text: string, x: string, v: string, p: nat, e: nat) returns (c: nat)
    requires TagLike(x) && TagLike(v) && Differ(x, v, 1) && At(text, x, p) && Shuts(text, v, e) && e < p + |x|
    ensures e <= c <= e + 1 && At(text, v, c) && c + |v| <= p
  {
    c := ShutAt(text, v, e);
    NotBoth(text, x, v, 1, p);
    AtChar(text, x, p, |x| - 1);
    if c < p {
      TagsApart(text, v, x, c, p);
    } else if p < c {
      TagsApart(text, x, v, p, c);
    }
  }

  lemma ShutAt(text: string, v: string, e: nat) returns (c: nat)
    requires Shuts(text, v, e)
    ensures At(text, v, c) && (c == e || (c == e + 1 && e < |text| && text[e] == '\n'))
  {
    if At(text, v, e) {
      c := e;
    } else {
      c := e + 1;
      AtChar(text, "\n" + v, e, 0);
      assert text[e..e + 1 + |v|][1..] == text[e + 1..e + 1 + |v|];
      assert ("\n" + v)[1..] == v;
    }
  }

  lemma ShutsBefore(pre: string, a: string, b: string, post: string, v: string, i: nat)
    requires i + 1 + |v| <= |pre|
    ensures Shuts(pre + a + post, v, i) <==> Shuts(pre + b + post, v, i)
  {
    AtBefore(pre, a, post, v, i);
    AtBefore(pre, b, post, v, i);
    AtBefore(pre, a, post, "\n" + v, i);
    AtBefore(pre, b, post, "\n" + v, i);
  }

  lemma ShutsAfter(pre: string, a: string, b: string, post: string, v: string, i: nat)
    requires |pre| + |a| <= i
    ensures Shuts(pre + a + post, v, i) <==> Shuts(pre + b + post, v, i + |b| - |a|)
  {
    AtAfter(pre, a, post, v, i);
    AtAfter(pre, b, post, v, i + |b| - |a|);
    AtAfter(pre, a, post, "\n" + v, i);
    AtAfter(pre, b, post, "\n" + v, i + |b| - |a|);
  }

  lemma FirstStays(pre: string, a: string, b: string, post: string, u: string, q: nat)
    requires q + |u| <= |pre| && First(pre + a + post, u, q)
    ensures First(pre + b + post, u, q)
  {
    forall i: nat | i <= q ensures At(pre + b + post, u, i) <==> At(pre + a + post, u, i) {
      AtBefore(pre, a, post, u, i);
      AtBefore(pre, b, post, u, i);
    }
  }

  lemma StartStays(pre: string, a: string, b: string, post: string, i: nat)
    requires i < |pre|
    ensures Start(pre + b + post, i) == Start(pre + a + post, i)
  {
    assert (pre + b + post)[i] == pre[i] == (pre + a + post)[i];
  }

  lemma CloseInFront(text: string, x: string, v: string, p: nat, s2: nat, e2: nat) returns (c: nat)
    requires TagLike(x) && TagLike(v) && Differ(x, v, 1) && At(text, x, p) && Shuts(text, v, e2)
    requires s2 <= p && s2 <= e2 <= |text| && Free(text[s2..e2], x)
    ensures e2 <= c <= e2 + 1 && At(text, v, c) && c + |v| <= p
  {
    if p + |x| <= e2 {
      AtPart(text, x, s2, e2, p - s2);
    }
    c := ClosesBefore(text, x, v, p, e2);
  }

  /** A section of another kind that opens before the trimmed one is untouched. */
  lemma OtherBefore(pre: string, a: string, b: string, post: string, x: string, u: string, v: string, k: nat,
                    p: nat, q: nat, s2: nat, e2: nat)
    requires Strange(x, u, v, k) && At(pre + a + post, x, p) && p + |x| <= |pre| <= p + |x| + 1
    requires IsSection(pre + a + post, u, v, q, s2, e2) && q + |u| <= |pre| && Free((pre + a + post)[s2..e2], x)
    ensures IsSection(pre + b + post, u, v, q, s2, e2) && (pre + b + post)[s2..e2] == (pre + a + post)[s2..e2]
  {
    OpensBefore(pre + a + post, x, u, k, p, |pre|, q);
    var c := CloseInFront(pre + a + post, x, v, p, s2, e2);
    FirstStays(pre, a, b, post, u, q);
    StartStays(pre, a, b, post, q + |u|);
    forall i: nat | i < e2 ensures Shuts(pre + b + post, v, i) <==> Shuts(pre + a + post, v, i) {
      ShutsBefore(pre, a, b, post, v, i);
    }
    AtBefore(pre, a, post, v, c);
    AtBefore(pre, b, post, v, c);
    ShutsKept(pre, a, b, post, v, e2);
  }

  /** A close that stands wholly before the middle stays. */
  lemma ShutsKept(pre: string, a: string, b: string, post: string, v: string, e: nat)
    requires |v| > 0 && Shuts(pre + a + post, v, e) && e + |v| <= |pre|
    requires !At(pre + a + post, v, e) ==> e + 1 + |v| <= |pre|
    ensures Shuts(pre + b + post, v, e)
  {
    if At(pre + a + post, v, e) {
      AtBefore(pre, a, post, v, e);
      AtBefore(pre, b, post, v, e);
    } else {
      AtBefore(pre, a, post, "\n" + v, e);
      AtBefore(pre, b, post, "\n" + v, e);
    }
  }

  lemma FirstMoves(pre: string, a: string, b: string, post: string, u: string, q: nat)
    requires Edge(pre, post) && TagLike(u) && Free(b, u) && |pre| + |a| <= q
    requires First(pre + a + post, u, q)
    ensures First(pre + b + post, u, q + |b| - |a|)
  {
    var q' := q + |b| - |a|;
    AtAfter(pre, a, post, u, q);
    AtAfter(pre, b, post, u, q');
    forall i: nat | i < q' ensures !At(pre + b + post, u, i) {
      if At(pre + b + post, u, i) {
        Moved(pre, a, b, post, u, i);
      }
    }
  }

  lemma StartMoves(pre: string, a: string, b: string, post: string, i: nat)
    requires |pre| + |a| <= i
    ensures Start(pre + b + post, i + |b| - |a|) == Start(pre + a + post, i) + |b| - |a|
  {
    if i < |pre + a + post| {
      assert (pre + b + post)[i + |b| - |a|] == post[i - |pre| - |a|] == (pre + a + post)[i];
    }
  }

  lemma PostSlice(pre: string, mid: string, post: string, lo: nat, hi: nat)
    requires |pre| + |mid| <= lo <= hi <= |pre + mid + post|
    ensures (pre + mid + post)[lo..hi] == post[lo - |pre| - |mid|..hi - |pre| - |mid|]
  {
    var n := |pre| + |mid|;
    assert pre + mid + post == (pre + mid) + post;
    var x, y := (pre + mid + post)[lo..hi], post[lo - n..hi - n];
    forall i | 0 <= i < hi - lo ensures x[i] == y[i] {
      assert (pre + mid + post)[lo + i] == post[lo + i - n];
    }
    assert x == y;
  }

  lemma SliceMoves(pre: string, a: string, b: string, post: string, lo: nat, hi: nat)
    requires |pre| + |a| <= lo <= hi <= |pre + a + post|
    ensures var d := |b| - |a|; (pre + b + post)[lo + d..hi + d] == (pre + a + post)[lo..hi]
  {
    PostSlice(pre, a, post, lo, hi);
    PostSlice(pre, b, post, lo + |b| - |a|, hi + |b| - |a|);
  }

  lemma ShutsMove(pre: string, a: string, b: string, post: string, v: string, s2: nat, e2: nat)
    requires |pre| + |a| <= s2 <= e2 && Shuts(pre + a + post, v, e2)
    requires forall i: nat :: s2 <= i < e2 ==> !Shuts(pre + a + post, v, i)
    ensures var d := |b| - |a|; Shuts(pre + b + post, v, e2 + d)
    ensures var d := |b| - |a|; forall i: nat :: s2 + d <= i < e2 + d ==> !Shuts(pre + b + post, v, i)
  {
    var d := |b| - |a|;
    ShutsAfter(pre, a, b, post, v, e2);
    forall i: nat | s2 + d <= i < e2 + d ensures !Shuts(pre + b + post, v, i) {
      ShutsAfter(pre, a, b, post, v, i - d);
    }
  }

  /** A section of another kind that opens after the trimmed one moves along. */
  lemma OtherAfter(pre: string, a: string, b: string, post: string, u: string, v: string, q: nat, s2: nat, e2: nat)
    requires Edge(pre, post) && TagLike(u) && Free(b, u) && |pre| + |a| <= q
    requires IsSection(pre + a + post, u, v, q, s2, e2)
    ensures var d := |b| - |a|; IsSection(pre + b + post, u, v, q + d, s2 + d, e2 + d)
  {
    FirstMoves(pre, a, b, post, u, q);
    StartMoves(pre, a, b, post, q + |u|);
    ShutsMove(pre, a, b, post, v, s2, e2);
  }

  predicate NeverShuts(text: string, v: string, from: nat) { CloseOf(text, v, from).None? }

  lemma NeverShutsAt(text: string, v: string, from: nat, c: nat)
    requires NeverShuts(text, v, from) && from <= c
    ensures !At(text, v, c)
  {
    CloseFirst(text, v, from);
    assert !Shuts(text, v, c);
  }

  lemma StillNeverShuts(text: string, v: string, from: nat)
    requires forall c: nat :: from <= c ==> !At(text, v, c)
    ensures NeverShuts(text, v, from)
  {
    CloseFirst(text, v, from);
    if CloseOf(text, v, from).Some? {
      var c := ShutAt(text, v, CloseOf(text, v, from).value);
    }
  }

  /** An opening before the trimmed section that is never closed stays so. */
  lemma OpenBefore(pre: string, a: string, maximum: int, post: string, x: string, u: string, v: string, k: nat, p: nat, q: nat)
    requires Edge(pre, post) && Strange(x, u, v, k) && At(pre + a + post, x, p) && p + |x| <= |pre| <= p + |x| + 1
    requires maximum <= 0 || maximum >= 80
    requires First(pre + a + post, u, q) && q + |u| <= |pre|
    requires NeverShuts(pre + a + post, v, Start(pre + a + post, q + |u|))
    ensures TagSection(pre + TrimMiddle(a, maximum) + post, u, v).None?
  {
    var b := TrimMiddle(a, maximum);
    OpensBefore(pre + a + post, x, u, k, p, |pre|, q);
    FirstStays(pre, a, b, post, u, q);
    StartStays(pre, a, b, post, q + |u|);
    var from := Start(pre + a + post, q + |u|);
    ClosesNowhere(pre, a, maximum, post, v, from);
    CloseFirst(pre + b + post, v, from);
    NoSection(pre + b + post, u, v, q);
  }

  lemma ClosesNowhere(pre: string, a: string, maximum: int, post: string, v: string, from: nat)
    requires Edge(pre, post) && TagLike(v) && from <= |pre| && (maximum <= 0 || maximum >= 80)
    requires NeverShuts(pre + a + post, v, from)
    ensures NeverShuts(pre + TrimMiddle(a, maximum) + post, v, from)
  {
    var b := TrimMiddle(a, maximum);
    forall i: nat ensures !At(a, v, i) {
      if i + |v| <= |a| {
        AtInside(pre, a, post, v, |pre| + i);
        NeverShutsAt(pre + a + post, v, from, |pre| + i);
      }
    }
    TrimIsFree(a, maximum, v);
    forall c: nat | from <= c ensures !At(pre + b + post, v, c) {
      if At(pre + b + post, v, c) {
        Moved(pre, a, b, post, v, c);
        NeverShutsAt(pre + a + post, v, from, c);
        if |pre| + |b| <= c {
          NeverShutsAt(pre + a + post, v, from, c + |a| - |b|);
        }
      }
    }
    StillNeverShuts(pre + b + post, v, from);
  }

  /** An opening after the trimmed section that is never closed stays so. */
  lemma OpenAfter(pre: string, a: string, b: string, post: string, u: string, v: string, q: nat)
    requires Edge(pre, post) && TagLike(u) && Free(b, u) && |pre| + |a| <= q
    requires First(pre + a + post, u, q)
    requires NeverShuts(pre + a + post, v, Start(pre + a + post, q + |u|))
    ensures TagSection(pre + b + post, u, v).None?
  {
    var d := |b| - |a|;
    FirstMoves(pre, a, b, post, u, q);
    StartMoves(pre, a, b, post, q + |u|);
    CloseFirst(pre + a + post, v, Start(pre + a + post, q + |u|));
    forall i: nat | Start(pre + a + post, q + |u|) + d <= i ensures !Shuts(pre + b + post, v, i) {
      ShutsAfter(pre, a, b, post, v, i - d);
    }
    NoSection(pre + b + post, u, v, q + d);
  }

  lemma OpenNowhere(pre: string, a: string, b: string, post: string, u: string)
    requires Edge(pre, post) && TagLike(u) && Free(b, u) && Free(pre + a + post, u)
    ensures Free(pre + b + post, u)
  {
    forall i: nat ensures !At(pre + b + post, u, i) {
      if At(pre + b + post, u, i) {
        Moved(pre, a, b, post, u, i);
      }
    }
  }

  /** What a section shows: its text, if there is one. */
  function Shows(text: string, x: string, y: string): Option<string> {
    match TagSection(text, x, y)
    case None => None
    case Some(r) => if r.0 <= r.1 <= |text| then Some(text[r.0..r.1]) else None
  }

  lemma ShowsSection(text: string, x: string, y: string, p: nat, s: nat, e: nat)
    requires IsSection(text, x, y, p, s, e)
    ensures Shows(text, x, y) == Some(text[s..e])
  {
    SectionIs(text, x, y, p, s, e);
  }

  /** Trimming one section changes no other: if neither encloses the other's opening, the other shows what it showed. */
  lemma OtherShows(pre: string, a: string, maximum: int, post: string, x: string, u: string, v: string, k: nat, p: nat)
    requires Edge(pre, post) && Strange(x, u, v, k) && At(pre + a + post, x, p) && p + |x| <= |pre| <= p + |x| + 1
    requires (maximum <= 0 || maximum >= 80) && Free(a, u)
    requires Shows(pre + a + post, u, v).Some? ==> Free(Shows(pre + a + post, u, v).value, x)
    ensures Shows(pre + TrimMiddle(a, maximum) + post, u, v) == Shows(pre + a + post, u, v)
  {
    var b := TrimMiddle(a, maximum);
    TrimIsFree(a, maximum, u);
    if Find(pre + a + post, u, 0).None? {
      OpenNowhere(pre, a, b, post, u);
      NoOpening(pre + b + post, u, v);
    } else {
      var q := OpensOutside(pre, a, post, u);
      if TagSection(pre + a + post, u, v).None? {
        OtherNone(pre, a, maximum, post, x, u, v, k, p, q);
      } else {
        OtherSome(pre, a, b, post, x, u, v, k, p, q);
      }
    }
  }

  lemma OpensOutside(pre: string, a: string, post: string, u: string) returns (q: nat)
    requires Edge(pre, post) && TagLike(u) && Free(a, u) && Find(pre + a + post, u, 0).Some?
    ensures Find(pre + a + post, u, 0) == Some(q) && (q + |u| <= |pre| || |pre| + |a| <= q)
  {
    q := Find(pre + a + post, u, 0).value;
    Whole(pre, a, post, u, q);
    if |pre| <= q && q + |u| <= |pre| + |a| {
      AtInside(pre, a, post, u, q);
    }
  }

  lemma OtherNone(pre: string, a: string, maximum: int, post: string, x: string, u: string, v: string, k: nat, p: nat, q: nat)
    requires Edge(pre, post) && Strange(x, u, v, k) && At(pre + a + post, x, p) && p + |x| <= |pre| <= p + |x| + 1
    requires (maximum <= 0 || maximum >= 80) && Free(TrimMiddle(a, maximum), u)
    requires Find(pre + a + post, u, 0) == Some(q) && (q + |u| <= |pre| || |pre| + |a| <= q)
    requires TagSection(pre + a + post, u, v).None?
    ensures TagSection(pre + TrimMiddle(a, maximum) + post, u, v).None?
  {
    FindsFirst(pre + a + post, u, q);
    if q + |u| <= |pre| {
      OpenBefore(pre, a, maximum, post, x, u, v, k, p, q);
    } else {
      OpenAfter(pre, a, TrimMiddle(a, maximum), post, u, v, q);
    }
  }

  lemma ShowsBefore(pre: string, a: string, b: string, post: string, x: string, u: string, v: string, k: nat,
                    p: nat, q: nat, s2: nat, e2: nat)
    requires Strange(x, u, v, k) && At(pre + a + post, x, p) && p + |x| <= |pre| <= p + |x| + 1
    requires IsSection(pre + a + post, u, v, q, s2, e2) && q + |u| <= |pre| && Free((pre + a + post)[s2..e2], x)
    ensures Shows(pre + b + post, u, v) == Some((pre + a + post)[s2..e2])
  {
    OtherBefore(pre, a, b, post, x, u, v, k, p, q, s2, e2);
    ShowsSection(pre + b + post, u, v, q, s2, e2);
  }

  lemma ShowsText(text: string, x: string, y: string, p: nat, s: nat, e: nat, t: string)
    requires IsSection(text, x, y, p, s, e) && text[s..e] == t
    ensures Shows(text, x, y) == Some(t)
  {
    ShowsSection(text, x, y, p, s, e);
  }

  lemma ShowsAfter(pre: string, a: string, b: string, post: string, u: string, v: string, q: nat, s2: nat, e2: nat)
    requires Edge(pre, post) && TagLike(u) && Free(b, u) && |pre| + |a| <= q
    requires IsSection(pre + a + post, u, v, q, s2, e2)
    ensures Shows(pre + b + post, u, v) == Some((pre + a + post)[s2..e2])
  {
    var d, t := |b| - |a|, (pre + a + post)[s2..e2];
    OtherAfter(pre, a, b, post, u, v, q, s2, e2);
    SliceMoves(pre, a, b, post, s2, e2);
    ShowsText(pre + b + post, u, v, q + d, s2 + d, e2 + d, t);
  }

  lemma OtherSome(pre: string, a: string, b: string, post: string, x: string, u: string, v: string, k: nat, p: nat, q: nat)
    requires Edge(pre, post) && Strange(x, u, v, k) && At(pre + a + post, x, p) && p + |x| <= |pre| <= p + |x| + 1
    requires Free(b, u) && Find(pre + a + post, u, 0) == Some(q) && (q + |u| <= |pre| || |pre| + |a| <= q)
    requires TagSection(pre + a + post, u, v).Some?
    requires Shows(pre + a + post, u, v).Some? ==> Free(Shows(pre + a + post, u, v).value, x)
    ensures Shows(pre + b + post, u, v) == Shows(pre + a + post, u, v)
  {
    var s2, e2 := FoundAt(pre + a + post, u, v, q);
    ShowsSection(pre + a + post, u, v, q, s2, e2);
    if q + |u| <= |pre| {
      ShowsBefore(pre, a, b, post, x, u, v, k, p, q, s2, e2);
    } else {
      ShowsAfter(pre, a, b, post, u, v, q, s2, e2);
    }
  }

  lemma FoundAt(text: string, u: string, v: string, q: nat) returns (s2: nat, e2: nat)
    requires Find(text, u, 0) == Some(q) && TagSection(text, u, v).Some?
    ensures IsSection(text, u, v, q, s2, e2)
  {
    var q1 := SectionFacts(text, u, v);
    s2, e2 := TagSection(text, u, v).value.0, TagSection(text, u, v).value.1;
  }

  // ---- The five tagged kinds ----

  predicate Plainly(tag: string) {
    |tag| > 10 && forall i :: 0 <= i < |tag| ==> tag[i] != '<' && tag[i] != '>' && tag[i] != '\n' && tag[i] != '/'
  }

  lemma LongTags()
    ensures Plainly(Tag(Rag)) && Plainly(Tag(Simulation))
  {
  }

  lemma ShortTags()
    ensures Plainly(Tag(Memory)) && Plainly(Tag(Episodic)) && Plainly(Tag(Npc))
  {
  }

  lemma TagOf(kind: Kind)
    requires kind != Summary
    ensures Plainly(Tag(kind))
  {
    LongTags();
    ShortTags();
  }

  lemma TagsAre(kind: Kind)
    requires kind != Summary
    ensures TagLike(Opening(kind)) && TagLike(Closing(kind)) && |Opening(kind)| > 11
    ensures Opening(kind)[11] == Tag(kind)[10] && Opening(kind)[1] != '/' && Closing(kind)[1] == '/'
  {
    TagOf(kind);
    var t := Tag(kind);
    var x, y := Opening(kind), Closing(kind);
    assert forall i :: 0 < i <= |t| ==> x[i] == t[i - 1];
    assert forall i :: 1 < i <= |t| + 1 ==> y[i] == t[i - 2];
  }

  lemma TagLetters(j: Kind, k: Kind)
    requires j != k && j != Summary && k != Summary
    ensures |Tag(j)| > 10 && |Tag(k)| > 10 && Tag(j)[10] != Tag(k)[10]
  {
    TagLetter(j);
    TagLetter(k);
  }

  function Letter(kind: Kind): char {
    match kind
    case Rag => 'd'
    case Memory => 'm'
    case Episodic => 'e'
    case Npc => 'n'
    case _ => 's'
  }

  lemma TagLetter(kind: Kind)
    requires kind != Summary
    ensures |Tag(kind)| > 10 && Tag(kind)[10] == Letter(kind)
  {
    match kind
    case Rag =>
    case Memory =>
    case Episodic =>
    case Npc =>
    case Simulation =>
  }

  lemma KindsDiffer(k: Kind, j: Kind)
    requires j != k && j != Summary && k != Summary
    ensures Strange(Opening(k), Opening(j), Closing(j), 11)
  {
    TagsAre(j);
    TagsAre(k);
    TagLetters(j, k);
  }

  /** The text of the section of a kind, if the text shows one. */
  function SectionText(text: string, kind: Kind): Option<string> { Shows(text, Opening(kind), Closing(kind)) }

  /** The section of kind i encloses no opening tag of kind j. */
  ghost predicate SeparateAt(text: string, i: Kind, j: Kind) {
    SectionText(text, i).Some? ==> Free(SectionText(text, i).value, Opening(j))
  }

  /** No tagged section encloses the opening tag of another kind. */
  ghost predicate Separate(text: string) {
    forall i: Kind, j: Kind :: i != Summary && j != Summary && i != j ==> SeparateAt(text, i, j)
  }

  /** The text with its section of one kind trimmed. */
  function TrimFound(text: string, kind: Kind, maximum: int): string {
    match FoundSection(text, kind)
    case None => text
    case Some(r) =>
      FoundFits(text, kind);
      text[..r.0] + TrimMiddle(text[r.0..r.1], maximum) + text[r.1..]
  }

  /** The parts of a text around its section of one kind. */
  lemma PartsOf(text: string, kind: Kind) returns (pre: string, a: string, post: string, p: nat)
    requires kind != Summary && FoundSection(text, kind).Some?
    ensures text == pre + a + post && Edge(pre, post) && At(pre + a + post, Opening(kind), p)
    ensures p + |Opening(kind)| <= |pre| <= p + |Opening(kind)| + 1 && SectionText(text, kind) == Some(a)
    ensures forall maximum :: TrimFound(text, kind, maximum) == pre + TrimMiddle(a, maximum) + post
  {
    var r := FoundSection(text, kind).value;
    TagsAre(kind);
    p := SectionFacts(text, Opening(kind), Closing(kind));
    SectionEdge(text, Opening(kind), Closing(kind), p, r.0, r.1);
    ShowsSection(text, Opening(kind), Closing(kind), p, r.0, r.1);
    pre, a, post := text[..r.0], text[r.0..r.1], text[r.1..];
  }

  /** A trim of one section leaves what every other shows, if the sections are separate. */
  lemma TrimLeavesOthers(text: string, kind: Kind, j: Kind, maximum: int)
    requires kind != Summary && j != Summary && j != kind && (maximum <= 0 || maximum >= 80)
    requires SeparateAt(text, kind, j) && SeparateAt(text, j, kind)
    ensures SectionText(TrimFound(text, kind, maximum), j) == SectionText(text, j)
  {
    if FoundSection(text, kind).Some? {
      var pre, a, post, p := PartsOf(text, kind);
      KindsDiffer(kind, j);
      OtherShows(pre, a, maximum, post, Opening(kind), Opening(j), Closing(j), 11, p);
    }
  }

  lemma ShownBounds(text: string, kind: Kind)
    requires kind != Summary
    ensures FoundSection(text, kind).Some? == SectionText(text, kind).Some?
    ensures FoundSection(text, kind).Some? ==>
              |SectionText(text, kind).value| == FoundSection(text, kind).value.1 - FoundSection(text, kind).value.0
  {
    FoundFits(text, kind);
  }

  /** After its trim a section shows a part of its trimmed text, so no more than the maximum. */
  lemma TrimBoundsOwn(text: string, kind: Kind, maximum: int)
    requires kind != Summary
    ensures var out := SectionText(TrimFound(text, kind, maximum), kind);
      && out.Some? == SectionText(text, kind).Some?
      && (out.Some? ==> exists lo: nat, hi: nat :: IsPart(out.value, TrimMiddle(SectionText(text, kind).value, maximum), lo, hi))
  {
    ShownBounds(text, kind);
    if FoundSection(text, kind).Some? {
      var r := FoundSection(text, kind).value;
      var b := TrimMiddle(text[r.0..r.1], maximum);
      TagsAre(kind);
      var p := SectionFacts(text, Opening(kind), Closing(kind));
      ShowsSection(text, Opening(kind), Closing(kind), p, r.0, r.1);
      var s', e' := OwnTrim(text, Opening(kind), Closing(kind), p, r.0, r.1, b);
      PartShown(text[..r.0], b, text[r.1..], Opening(kind), Closing(kind), s', e');
    }
  }

  predicate IsPart(part: string, text: string, lo: nat, hi: nat) { lo <= hi <= |text| && part == text[lo..hi] }

  lemma PartShown(pre: string, b: string, post: string, x: string, y: string, s': nat, e': nat)
    requires TagSection(pre + b + post, x, y) == Some((s', e')) && |pre| <= s' <= e' && (s' == e' || e' <= |pre| + |b|)
    requires TagLike(x)
    ensures var out := Shows(pre + b + post, x, y);
      out.Some? && exists lo: nat, hi: nat :: IsPart(out.value, b, lo, hi)
  {
    var text := pre + b + post;
    CloseFirst(text, y, Start(text, Find(text, x, 0).value + |x|));
    if s' == e' {
      assert IsPart(text[s'..e'], b, 0, 0);
    } else {
      assert text[s'..e'] == b[s' - |pre|..e' - |pre|];
      assert IsPart(text[s'..e'], b, s' - |pre|, e' - |pre|);
    }
  }

  lemma TrimShort(text: string, kind: Kind, maximum: nat, most: int)
    requires kind != Summary && most <= maximum && SectionText(TrimFound(text, kind, most), kind).Some?
    ensures |SectionText(TrimFound(text, kind, most), kind).value| <= maximum
  {
    TrimBoundsOwn(text, kind, most);
  }

  lemma OwnStaysSeparate(text: string, kind: Kind, j: Kind, maximum: int)
    requires kind != Summary && j != Summary && j != kind && (maximum <= 0 || maximum >= 80) && SeparateAt(text, kind, j)
    ensures SeparateAt(TrimFound(text, kind, maximum), kind, j)
  {
    TrimBoundsOwn(text, kind, maximum);
    TagsAre(j);
    if SectionText(text, kind).Some? {
      var a := SectionText(text, kind).value;
      TrimIsFree(a, maximum, Opening(j));
      var part := SectionText(TrimFound(text, kind, maximum), kind).value;
      var lo: nat, hi: nat :| IsPart(part, TrimMiddle(a, maximum), lo, hi);
      PartIsFree(TrimMiddle(a, maximum), Opening(j), lo, hi);
    }
  }

  /** Separate sections stay separate. */
  lemma TrimStaysSeparate(text: string, kind: Kind, maximum: int)
    requires kind != Summary && (maximum <= 0 || maximum >= 80) && Separate(text)
    ensures Separate(TrimFound(text, kind, maximum))
  {
    var out := TrimFound(text, kind, maximum);
    forall i: Kind, j: Kind | i != Summary && j != Summary && i != j ensures SeparateAt(out, i, j) {
      assert SeparateAt(text, i, j);
      if i == kind {
        OwnStaysSeparate(text, kind, j, maximum);
      } else {
        assert SeparateAt(text, kind, i) && SeparateAt(text, i, kind);
        TrimLeavesOthers(text, kind, i, maximum);
      }
    }
  }

  /** Emptying the summary leaves nothing to empty. */
  lemma EmptySummary(text: string)
    requires SummarySection(text).Some?
    ensures var s := SummarySection(text).value.0; SummarySection(TrimFound(text, Summary, 0)) == Some((s, s))
  {
    var p := Find(text, SUMMARY_MARK, 0).value;
    var pre, a, post := SummaryParts(text, p);
    FirstMark(pre, a, post, SUMMARY_MARK, p);
    NextMark(pre, a, post, NEXT_MARK);
    SummaryIs(pre + "" + post, p, |pre|);
  }

  lemma SummaryParts(text: string, p: nat) returns (pre: string, a: string, post: string)
    requires SummarySection(text).Some? && Find(text, SUMMARY_MARK, 0) == Some(p)
    ensures text == pre + a + post && |pre| == SummarySection(text).value.0 == p + |SUMMARY_MARK|
    ensures post == "" || At(pre + a + post, NEXT_MARK, |pre| + |a|)
    ensures TrimFound(text, Summary, 0) == pre + "" + post
  {
    var r := SummarySection(text).value;
    FoundFits(text, Summary);
    pre, a, post := text[..r.0], text[r.0..r.1], text[r.1..];
    assert text == pre + a + post;
  }

  lemma SummaryIs(text: string, p: nat, s: nat)
    requires Find(text, SUMMARY_MARK, 0) == Some(p) && s == p + |SUMMARY_MARK| <= |text|
    requires Find(text, NEXT_MARK, s) == Some(s) || (Find(text, NEXT_MARK, s) == None && s == |text|)
    ensures SummarySection(text) == Some((s, s))
  {
  }

  lemma FirstMark(pre: string, a: string, post: string, mark: string, p: nat)
    requires Find(pre + a + post, mark, 0) == Some(p) && p + |mark| <= |pre|
    ensures Find(pre + "" + post, mark, 0) == Some(p)
  {
    FindsFirst(pre + a + post, mark, p);
    FirstStays(pre, a, "", post, mark, p);
    FindsFirst(pre + "" + post, mark, p);
  }

  lemma NextMark(pre: string, a: string, post: string, mark: string)
    requires mark != "" && (post == "" || At(pre + a + post, mark, |pre| + |a|))
    ensures Find(pre + "" + post, mark, |pre|) == if post == "" then None else Some(|pre|)
  {
    if post != "" {
      AtAfter(pre, a, post, mark, |pre| + |a|);
      AtAfter(pre, "", post, mark, |pre|);
    } else {
      assert |pre + "" + post| == |pre|;
    }
  }
}
