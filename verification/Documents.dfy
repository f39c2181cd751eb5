/** The chunker and the tag stripper of bridge/document_extraction.py. */
module Documents {
  import opened TextTools

  // ---- split_data_bank_chunks ----

  /** str.rfind of a newline in [lo, hi), or -1. */
  function LastNewline(text: string, lo: nat, hi: nat): (k: int)
    requires hi <= |text|
    ensures k == -1 || (lo <= k < hi && text[k] == '\n')
    ensures forall j :: lo <= j < hi && j > k ==> text[j] != '\n'
    decreases hi
  {
    if hi <= lo then -1
    else if text[hi - 1] == '\n' then hi - 1
    else LastNewline(text, lo, hi - 1)
  }

  /** Where the window at start ends: after at most chars characters, at a newline of its second half if it has one. */
  function WindowEnd(text: string, start: nat, chars: nat): (end: nat)
    requires start < |text|
    ensures end <= |text| && end <= start + chars && start <= end
    ensures chars > 0 ==> start < end
  {
    var full := if start + chars <= |text| then start + chars else |text|;
    if full < |text| then
      var boundary := LastNewline(text, start + chars / 2, full);
      if boundary > start then boundary else full
    else full
  }

  function NextStart(start: nat, end: nat, overlap: int): (next: nat)
    ensures next > start
  {
    if end - overlap > start + 1 then end - overlap else start + 1
  }

  datatype Window = Window(start: nat, end: nat)

  /** The windows from start on; the source's own settings are 1800 characters and an overlap of 220. */
  function Windows(text: string, start: nat, chars: nat, overlap: int): seq<Window>
    decreases if start < |text| then |text| - start else 0
  {
    if start >= |text| then []
    else
      var end := WindowEnd(text, start, chars);
      [Window(start, end)] + (if end >= |text| then [] else Windows(text, NextStart(start, end, overlap), chars, overlap))
  }

  /** str.strip. */
  function Trim(s: string): (t: string)
    ensures |t| <= |s|
  {
    if s == "" then ""
    else if IsSpace(s[0]) then Trim(s[1..])
    else if IsSpace(s[|s| - 1]) then Trim(s[..|s| - 1])
    else s
  }

  /** A window's stripped text, if anything is left of it. */
  function Kept(text: string, w: Window): seq<string>
    requires w.start <= w.end <= |text|
  {
    var chunk := Trim(text[w.start..w.end]);
    if chunk != "" then [chunk] else []
  }

  function Chunks(text: string, ws: seq<Window>): seq<string>
    requires forall i :: 0 <= i < |ws| ==> ws[i].start <= ws[i].end <= |text|
  {
    if ws == [] then [] else Kept(text, ws[0]) + Chunks(text, ws[1..])
  }

  function Rest(text: string, start: nat, chars: nat, overlap: int): seq<Window>
    requires start < |text|
  {
    var end := WindowEnd(text, start, chars);
    if end >= |text| then [] else Windows(text, NextStart(start, end, overlap), chars, overlap)
  }

  method Split(text: string, chars: nat, overlap: int) returns (chunks: seq<string>)
    ensures WindowsFit(text, Windows(text, 0, chars, overlap), chars)
    ensures chunks == Chunks(text, Windows(text, 0, chars, overlap))
  {
    WindowBounds(text, 0, chars, overlap);
    chunks := [];
    var start: nat := 0;
    ghost var all := Chunks(text, Windows(text, 0, chars, overlap));
    while start < |text|
      invariant WindowsFit(text, Windows(text, start, chars, overlap), chars)
      invariant all == chunks + Chunks(text, Windows(text, start, chars, overlap))
      decreases if start < |text| then |text| - start else 0
    {
      var end := FindEnd(text, start, chars);
      SplitStep(text, start, chars, overlap, chunks, all);
      chunks := chunks + Kept(text, Window(start, end));
      if end >= |text| {
        return;
      }
      start := NextStart(start, end, overlap);
    }
  }

  method FindEnd(text: string, start: nat, chars: nat) returns (end: nat)
    requires start < |text|
    ensures end == WindowEnd(text, start, chars)
  {
    end := if start + chars <= |text| then start + chars else |text|;
    if end < |text| {
      var boundary := LastNewline(text, start + chars / 2, end);
      if boundary > start {
        end := boundary;
      }
    }
  }

  lemma ChunksCons(text: string, w: Window, rest: seq<Window>, chars: nat)
    requires WindowsFit(text, [w] + rest, chars)
    ensures WindowsFit(text, rest, chars) && w.start <= w.end <= |text|
    ensures Chunks(text, [w] + rest) == Kept(text, w) + Chunks(text, rest)
  {
    var ws := [w] + rest;
    assert ws[1..] == rest && ws[0] == w;
    assert forall i :: 0 <= i < |rest| ==> rest[i] == ws[i + 1];
  }

  lemma Append3(a: seq<string>, b: seq<string>, c: seq<string>)
    ensures a + (b + c) == a + b + c && (c == [] ==> a + (b + c) == a + b)
  {
  }

  lemma SplitStep(text: string, start: nat, chars: nat, overlap: int, chunks: seq<string>, all: seq<string>)
    requires start < |text| && WindowsFit(text, Windows(text, start, chars, overlap), chars)
    requires all == chunks + Chunks(text, Windows(text, start, chars, overlap))
    ensures var w := Window(start, WindowEnd(text, start, chars)); var rest := Rest(text, start, chars, overlap);
            && WindowsFit(text, rest, chars) && all == chunks + Kept(text, w) + Chunks(text, rest)
            && (rest == [] ==> all == chunks + Kept(text, w))
  {
    var w := Window(start, WindowEnd(text, start, chars));
    var rest := Rest(text, start, chars, overlap);
    assert Windows(text, start, chars, overlap) == [w] + rest;
    ChunksCons(text, w, rest, chars);
    Append3(chunks, Kept(text, w), Chunks(text, rest));
  }

  predicate WindowsFit(text: string, ws: seq<Window>, chars: nat) {
    forall i :: 0 <= i < |ws| ==> ws[i].start <= ws[i].end <= |text| && ws[i].end - ws[i].start <= chars
  }

  lemma {:induction false} WindowBounds(text: string, start: nat, chars: nat, overlap: int)
    ensures WindowsFit(text, Windows(text, start, chars, overlap), chars)
    decreases if start < |text| then |text| - start else 0
  {
    if start < |text| {
      var end := WindowEnd(text, start, chars);
      if end < |text| {
        WindowBounds(text, NextStart(start, end, overlap), chars, overlap);
      }
    }
  }

  // ---- What the chunks hold ----

  /** Every chunk is at most the limit. */
  lemma {:induction false} ChunksAreShort(text: string, ws: seq<Window>, chars: nat)
    requires WindowsFit(text, ws, chars)
    ensures forall k :: 0 <= k < |Chunks(text, ws)| ==> 0 < |Chunks(text, ws)[k]| <= chars
  {
    if ws != [] {
      ChunksAreShort(text, ws[1..], chars);
      var part := text[ws[0].start..ws[0].end];
      assert |Trim(part)| <= |part| <= chars;
    }
  }

  /** Each window starts after the last one did and no later than it ended. */
  predicate Touching(ws: seq<Window>) {
    forall i :: 0 <= i < |ws| - 1 ==> ws[i].start < ws[i + 1].start <= ws[i].end
  }

  lemma TouchingCons(w: Window, rest: seq<Window>)
    requires Touching(rest) && (rest != [] ==> w.start < rest[0].start <= w.end)
    ensures Touching([w] + rest)
  {
    var ws := [w] + rest;
    forall i | 0 <= i < |ws| - 1 ensures ws[i].start < ws[i + 1].start <= ws[i].end {
      if i > 0 {
        assert ws[i] == rest[i - 1] && ws[i + 1] == rest[i - 1 + 1];
      }
    }
  }

  /** With at least one character a window and no negative overlap, the windows touch from the start to the end. */
  lemma {:induction false} WindowsTouch(text: string, start: nat, chars: nat, overlap: nat)
    requires chars > 0
    ensures var ws := Windows(text, start, chars, overlap);
            Touching(ws) && (start < |text| ==> ws != [] && ws[0].start == start && ws[|ws| - 1].end == |text|)
    decreases if start < |text| then |text| - start else 0
  {
    if start < |text| {
      var end := WindowEnd(text, start, chars);
      var rest := Rest(text, start, chars, overlap);
      if end < |text| {
        WindowsTouch(text, NextStart(start, end, overlap), chars, overlap);
      }
      assert Windows(text, start, chars, overlap) == [Window(start, end)] + rest;
      TouchingCons(Window(start, end), rest);
    }
  }

  /** Where a window that starts here ends: at the end of the text, if it is within reach; else at the last newline of its
      second half, if there is one; else after all its characters. */
  predicate EndsRightly(text: string, w: Window, chars: nat) {
    if w.start + chars >= |text| then w.end == |text|
    else if exists k :: w.start + chars / 2 <= k < w.start + chars && k > w.start && text[k] == '\n'
    then && w.start + chars / 2 <= w.end < w.start + chars && text[w.end] == '\n'
         && forall k :: w.end < k < w.start + chars ==> text[k] != '\n'
    else w.end == w.start + chars
  }

  lemma EndIsRight(text: string, start: nat, chars: nat)
    requires start < |text|
    ensures EndsRightly(text, Window(start, WindowEnd(text, start, chars)), chars)
  {
    if start + chars < |text| {
      var b := LastNewline(text, start + chars / 2, start + chars);
      if k :| start + chars / 2 <= k < start + chars && k > start && text[k] == '\n' {
        assert b >= k;
      }
    }
  }

  /** Each window ends where it should, and the next starts the overlap before that, but at least one character on; there is
      a next one exactly when the text is not at its end. */
  lemma {:induction false} WindowsExactly(text: string, start: nat, chars: nat, overlap: int, i: nat)
    requires start < |text| && i < |Windows(text, start, chars, overlap)|
    ensures var ws := Windows(text, start, chars, overlap);
      && ws[0].start == start && ws[i].start < |text| && EndsRightly(text, ws[i], chars)
      && (i + 1 < |ws| ==> ws[i].end < |text|
                           && ws[i + 1].start == if ws[i].end - overlap > ws[i].start then ws[i].end - overlap else ws[i].start + 1)
      && (i + 1 == |ws| ==> ws[i].end >= |text|
                            || (if ws[i].end - overlap > ws[i].start then ws[i].end - overlap else ws[i].start + 1) >= |text|)
    decreases |text| - start
  {
    var end := WindowEnd(text, start, chars);
    var rest := Rest(text, start, chars, overlap);
    EndIsRight(text, start, chars);
    assert Windows(text, start, chars, overlap) == [Window(start, end)] + rest;
    if i > 0 {
      WindowsExactly(text, NextStart(start, end, overlap), chars, overlap, i - 1);
    } else if rest != [] {
      WindowsExactly(text, NextStart(start, end, overlap), chars, overlap, 0);
    }
  }

  predicate InWindow(ws: seq<Window>, i: nat, p: nat)
    requires i < |ws|
  {
    ws[i].start <= p < ws[i].end
  }

  /** Touching windows leave out no position. */
  lemma {:induction false} WindowOf(text: string, start: nat, chars: nat, overlap: nat, p: nat) returns (i: nat)
    requires chars > 0 && start <= p < |text|
    ensures var ws := Windows(text, start, chars, overlap); i < |ws| && InWindow(ws, i, p)
    decreases |text| - start
  {
    var end := WindowEnd(text, start, chars);
    if p < end {
      i := 0;
    } else {
      var next := NextStart(start, end, overlap);
      var j := WindowOf(text, next, chars, overlap, p);
      assert Windows(text, start, chars, overlap)[j + 1] == Windows(text, next, chars, overlap)[j];
      i := j + 1;
    }
  }

  /** t is what stands from a to b of s, with only whitespace around it and none at its ends. */
  predicate Stripped(s: string, t: string, a: nat, b: nat) {
    && a <= b <= |s| && t == s[a..b]
    && (forall i :: 0 <= i < a ==> IsSpace(s[i])) && (forall i :: b <= i < |s| ==> IsSpace(s[i]))
    && (a < b ==> !IsSpace(s[a]) && !IsSpace(s[b - 1]))
  }

  lemma StrippedFront(s: string, rest: string, t: string, a: nat, b: nat)
    requires s != "" && IsSpace(s[0]) && rest == s[1..] && Stripped(rest, t, a, b)
    ensures Stripped(s, t, a + 1, b + 1)
  {
    assert forall i :: 0 < i < |s| ==> s[i] == rest[i - 1];
    assert rest[a..b] == s[a + 1..b + 1];
  }

  lemma StrippedBack(s: string, rest: string, t: string, a: nat, b: nat)
    requires s != "" && IsSpace(s[|s| - 1]) && rest == s[..|s| - 1] && Stripped(rest, t, a, b)
    ensures Stripped(s, t, a, b)
  {
    assert forall i :: 0 <= i < |rest| ==> s[i] == rest[i];
    assert rest[a..b] == s[a..b];
  }

  /** Stripping cuts whitespace from both ends, and all of it. */
  lemma {:induction false} TrimExactly(s: string) returns (a: nat, b: nat)
    ensures Stripped(s, Trim(s), a, b)
    decreases |s|
  {
    if s == "" {
      a, b := 0, 0;
    } else if IsSpace(s[0]) {
      var c, d := TrimExactly(s[1..]);
      StrippedFront(s, s[1..], Trim(s[1..]), c, d);
      a, b := c + 1, d + 1;
    } else if IsSpace(s[|s| - 1]) {
      a, b := TrimExactly(s[..|s| - 1]);
      StrippedBack(s, s[..|s| - 1], Trim(s[..|s| - 1]), a, b);
    } else {
      a, b := 0, |s|;
    }
  }

  /** A chunk that is text[lo..hi] and holds position p. */
  predicate Holds(text: string, chunk: string, lo: nat, hi: nat, p: nat) {
    lo <= p < hi <= |text| && chunk == text[lo..hi]
  }

  lemma {:induction false} TrimHolds(text: string, lo: nat, hi: nat, p: nat) returns (a: nat, b: nat)
    requires lo <= p < hi <= |text| && !IsSpace(text[p])
    ensures lo <= a <= b <= hi && Holds(text, Trim(text[lo..hi]), a, b, p)
    decreases hi - lo
  {
    var part := text[lo..hi];
    if IsSpace(text[lo]) {
      assert part[1..] == text[lo + 1..hi];
      a, b := TrimHolds(text, lo + 1, hi, p);
    } else if IsSpace(text[hi - 1]) {
      assert part[..|part| - 1] == text[lo..hi - 1];
      a, b := TrimHolds(text, lo, hi - 1, p);
    } else {
      a, b := lo, hi;
    }
  }

  lemma TailFits(text: string, ws: seq<Window>, chars: nat)
    requires WindowsFit(text, ws, chars) && ws != []
    ensures WindowsFit(text, ws[1..], chars)
  {
    assert forall j :: 0 <= j < |ws[1..]| ==> ws[1..][j] == ws[j + 1];
  }

  lemma ChunkIndex(first: seq<string>, rest: seq<string>, j: nat)
    requires j < |rest|
    ensures (first + rest)[|first| + j] == rest[j]
  {
  }

  lemma {:induction false} ChunkOfWindow(text: string, ws: seq<Window>, chars: nat, i: nat) returns (k: nat)
    requires WindowsFit(text, ws, chars) && i < |ws| && Kept(text, ws[i]) != []
    ensures k < |Chunks(text, ws)| && [Chunks(text, ws)[k]] == Kept(text, ws[i])
  {
    TailFits(text, ws, chars);
    if i == 0 {
      k := 0;
    } else {
      var j := ChunkOfWindow(text, ws[1..], chars, i - 1);
      ChunkIndex(Kept(text, ws[0]), Chunks(text, ws[1..]), j);
      k := |Kept(text, ws[0])| + j;
    }
  }

  /** Every character that is not whitespace lies in some chunk, at its place in the text. */
  lemma NothingIsLost(text: string, chars: nat, overlap: nat, p: nat) returns (k: nat, lo: nat, hi: nat)
    requires chars > 0 && p < |text| && !IsSpace(text[p])
    ensures var ws := Windows(text, 0, chars, overlap);
            WindowsFit(text, ws, chars) && k < |Chunks(text, ws)| && Holds(text, Chunks(text, ws)[k], lo, hi, p)
  {
    var ws := Windows(text, 0, chars, overlap);
    WindowBounds(text, 0, chars, overlap);
    var i := WindowOf(text, 0, chars, overlap, p);
    lo, hi := TrimHolds(text, ws[i].start, ws[i].end, p);
    assert Kept(text, ws[i]) == [text[lo..hi]];
    k := ChunkOfWindow(text, ws, chars, i);
  }

  // ---- _strip_markup ----

  /** The first place from i on that holds c, or the length of the text. */
  function Next(text: string, c: char, i: nat): (k: nat)
    requires i <= |text|
    ensures i <= k <= |text| && (k < |text| ==> text[k] == c) && forall j :: i <= j < k ==> text[j] != c
    decreases |text| - i
  {
    if i == |text| || text[i] == c then i else Next(text, c, i + 1)
  }

  /** Leftmost replacement of every nonempty tag by a space: at each place the tag that starts there, or its character. */
  function Replaced(text: string, i: nat): string
    requires i <= |text|
    decreases |text| - i
  {
    if i == |text| then ""
    else if text[i] == '<' && i + 1 < Next(text, '>', i + 1) < |text| then " " + Replaced(text, Next(text, '>', i + 1) + 1)
    else [text[i]] + Replaced(text, i + 1)
  }

  lemma {:induction false} PlainStretch(text: string, i: nat, k: nat)
    requires i <= k <= |text| && forall j :: i <= j < k ==> text[j] != '<'
    ensures Replaced(text, i) == text[i..k] + Replaced(text, k)
    decreases k - i
  {
    if i < k {
      PlainStretch(text, i + 1, k);
      assert Replaced(text, i) == [text[i]] + Replaced(text, i + 1);
      Cut(text, i, k, Replaced(text, k));
    } else {
      assert text[i..k] + Replaced(text, k) == Replaced(text, k);
    }
  }

  lemma Cut(text: string, i: nat, k: nat, rest: string)
    requires i < k <= |text|
    ensures [text[i]] + (text[i + 1..k] + rest) == text[i..k] + rest
  {
    assert text[i..k] == [text[i]] + text[i + 1..k];
  }

  /** With no closing bracket left, nothing more is replaced. */
  lemma {:induction false} OpenSuffix(text: string, i: nat)
    requires i <= |text| && forall j :: i <= j < |text| ==> text[j] != '>'
    ensures Replaced(text, i) == text[i..]
    decreases |text| - i
  {
    if i < |text| {
      OpenSuffix(text, i + 1);
      assert text[i..] == [text[i]] + text[i + 1..];
    }
  }

  lemma OpenTag(text: string, i: nat)
    requires i < |text| && text[i] == '<' && forall j :: i < j < |text| ==> text[j] != '>'
    ensures Replaced(text, i) == text[i..]
  {
    OpenSuffix(text, i);
  }

  lemma EmptyTag(text: string, i: nat)
    requires i + 1 < |text| && text[i] == '<' && text[i + 1] == '>'
    ensures Replaced(text, i) == "<>" + Replaced(text, i + 2)
  {
    assert Next(text, '>', i + 1) == i + 1;
    assert Replaced(text, i) == ['<'] + Replaced(text, i + 1);
    assert Replaced(text, i + 1) == ['>'] + Replaced(text, i + 2);
    assert ['<'] + (['>'] + Replaced(text, i + 2)) == "<>" + Replaced(text, i + 2);
  }

  lemma Tag(text: string, i: nat, end: nat)
    requires i + 1 < end < |text| && text[i] == '<' && end == Next(text, '>', i + 1)
    ensures Replaced(text, i) == " " + Replaced(text, end + 1)
  {
  }

  function Glue(pieces: seq<string>): string {
    if pieces == [] then "" else Glue(pieces[..|pieces| - 1]) + pieces[|pieces| - 1]
  }

  lemma GlueNext(pieces: seq<string>, piece: string)
    ensures Glue(pieces + [piece]) == Glue(pieces) + piece
  {
    assert (pieces + [piece])[..|pieces|] == pieces;
  }

  /** What is glued so far and what is still to be replaced. */
  predicate Stands(text: string, pieces: seq<string>, cursor: nat) {
    cursor <= |text| && Replaced(text, 0) == Glue(pieces) + Replaced(text, cursor)
  }

  lemma Append(a: string, b: string, c: string)
    ensures a + (b + c) == a + b + c
  {
  }

  lemma Emit(text: string, pieces: seq<string>, cursor: nat, piece: string, next: nat)
    requires Stands(text, pieces, cursor) && next <= |text| && Replaced(text, cursor) == piece + Replaced(text, next)
    ensures Stands(text, pieces + [piece], next)
  {
    GlueNext(pieces, piece);
    Append(Glue(pieces), piece, Replaced(text, next));
  }

  lemma EmitLast(text: string, pieces: seq<string>, cursor: nat)
    requires Stands(text, pieces, cursor) && Replaced(text, cursor) == text[cursor..]
    ensures Replaced(text, 0) == Glue(pieces + [text[cursor..]])
  {
    GlueNext(pieces, text[cursor..]);
  }

  lemma NoTag(text: string, cursor: nat)
    requires cursor <= |text| && Next(text, '<', cursor) == |text|
    ensures Replaced(text, cursor) == text[cursor..]
  {
    PlainStretch(text, cursor, |text|);
    assert text[cursor..|text|] + "" == text[cursor..];
  }

  lemma OneTag(text: string, start: nat, end: nat)
    requires start < end < |text| && text[start] == '<' && end == Next(text, '>', start + 1)
    ensures Replaced(text, start) == (if end == start + 1 then "<>" else " ") + Replaced(text, end + 1)
  {
    if end == start + 1 {
      EmptyTag(text, start);
    } else {
      Tag(text, start, end);
    }
  }

  lemma NothingGlued(text: string)
    ensures Stands(text, [], 0)
  {
    assert "" + Replaced(text, 0) == Replaced(text, 0);
  }

  lemma AllGlued(text: string, pieces: seq<string>, cursor: nat)
    requires Stands(text, pieces, cursor) && cursor == |text|
    ensures Glue(pieces) == Replaced(text, 0)
  {
    assert Glue(pieces) + "" == Glue(pieces);
  }

  /** The linear pass equals leftmost tag replacement. */
  method StripMarkup(text: string) returns (out: string)
    ensures out == Replaced(text, 0)
  {
    var pieces: seq<string>, cursor: nat := [], 0;
    NothingGlued(text);
    while cursor < |text|
      invariant Stands(text, pieces, cursor)
      decreases |text| - cursor
    {
      var start := Next(text, '<', cursor);
      if start == |text| {
        NoTag(text, cursor);
        EmitLast(text, pieces, cursor);
        return Glue(pieces + [text[cursor..]]);
      }
      PlainStretch(text, cursor, start);
      Emit(text, pieces, cursor, text[cursor..start], start);
      pieces := pieces + [text[cursor..start]];
      var end := Next(text, '>', start + 1);
      if end == |text| {
        OpenTag(text, start);
        EmitLast(text, pieces, start);
        return Glue(pieces + [text[start..]]);
      }
      var piece := if end == start + 1 then "<>" else " ";
      OneTag(text, start, end);
      Emit(text, pieces, start, piece, end + 1);
      pieces := pieces + [piece];
      cursor := end + 1;
    }
    AllGlued(text, pieces, cursor);
    out := Glue(pieces);
  }
}
