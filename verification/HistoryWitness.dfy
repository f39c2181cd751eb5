/** Valid prompts with real savings whose packing the decoder's piece limit refuses. */
module HistoryWitness {
  import opened TextTools
  import opened HistoryCodec
  import opened HistoryRoundTrip

  // ---- How long JSON text is ----

  /** At most six characters an escaped character (section 7 of RFC 8259), two quotes and a comma; 0 to 999 in digits. */
  function ItemCost(item: Json): nat {
    match item
    case Str(text) => 6 * |text| + 3
    case _ => 4
  }

  function Cost(items: seq<Json>): nat {
    if items == [] then 0 else ItemCost(items[0]) + Cost(items[1..])
  }

  predicate Small(items: seq<Json>) {
    forall i :: 0 <= i < |items| ==> items[i].Str? || (items[i].Num? && 0 <= items[i].n < 1000)
  }

  predicate ListBound(c: Codec, items: seq<Json>) {
    Small(items) ==> |c.dumps(items)| <= 2 + Cost(items)
  }

  /** A message with nothing but its four known keys. */
  predicate Ordinary(m: Message) {
    && m.content.Some? && Speaker(m.role) && m.rest == map[]
    && (m.ordinal.Absent? || (m.ordinal.Index? && 0 <= m.ordinal.n < 1000))
    && (m.marker.Unmarked? || m.marker.Dictionary? || m.marker.Turn?)
  }

  predicate AllOrdinary(ms: seq<Message>) { forall i :: 0 <= i < |ms| ==> Ordinary(ms[i]) }

  /** Every character of a content is written as one to six; keys, role, ordinal and marker fit in 200 a message. */
  predicate PromptBound(c: Codec, ms: seq<Message>) {
    AllOrdinary(ms) ==> Chars(ms) <= c.length(ms) <= 6 * Chars(ms) + 200 * |ms| + 2
  }

  /** What the length of any compact JSON text satisfies. */
  ghost predicate Sized(c: Codec) {
    && (forall items :: ListBound(c, items))
    && (forall ms :: PromptBound(c, ms))
  }

  // ---- The long turn ----

  const SIZE := 8000

  function Letters(n: nat): (text: string)
    ensures |text| == n && forall i :: 0 <= i < n ==> text[i] == 'a'
  {
    seq(n, _ => 'a')
  }

  function Paragraph(): (text: string)
    ensures |text| == SIZE
  {
    Letters(SIZE)
  }

  /** The paragraph, then n times a blank line and one character. */
  function Broken(n: nat): (text: string)
    ensures |text| == SIZE + 3 * n
  {
    seq(SIZE + 3 * n, i => if i < SIZE then 'a' else if (i - SIZE) % 3 == 2 then 'x' else '\n')
  }

  /** A blank line before a letter is cut out. */
  lemma BreakAt(text: string, start: nat, i: nat)
    requires start <= i && i + 2 < |text| && text[i] == '\n' && text[i + 1] == '\n' && text[i + 2] == 'x'
    ensures SplitFrom(text, start, i) == [text[start..i], text[i..i + 2]] + SplitFrom(text, i + 2, i + 3)
  {
    assert LastBreak(text, i + 2) == None;
    assert LastBreak(text, i + 1) == Some(i + 1);
    assert SplitFrom(text, i + 2, i + 2) == SplitFrom(text, i + 2, i + 3);
  }

  predicate CutInto(parts: seq<string>, count: nat, first: string) {
    |parts| == count && count > 0 && parts[0] == first && forall j :: 0 < j < |parts| ==> |parts[j]| <= 2
  }

  lemma MorePieces(parts: seq<string>, count: nat, first: string, a: string, b: string)
    requires CutInto(parts, count, first) && |b| <= 2 && |first| <= 2
    ensures CutInto([a, b] + parts, count + 2, a)
  {
  }

  lemma {:induction false} BrokenSplits(n: nat, start: nat, k: nat)
    requires k <= n && start <= SIZE + 3 * k
    ensures CutInto(SplitFrom(Broken(n), start, SIZE + 3 * k), 2 * (n - k) + 1, Broken(n)[start..SIZE + 3 * k])
    decreases n - k
  {
    var text, i := Broken(n), SIZE + 3 * k;
    if k < n {
      BreakAt(text, start, i);
      BrokenSplits(n, i + 2, k + 1);
      MorePieces(SplitFrom(text, i + 2, i + 3), 2 * (n - k - 1) + 1, text[i + 2..i + 3], text[start..i], text[i..i + 2]);
    }
  }

  lemma {:induction false} SkipParagraph(n: nat, i: nat)
    requires i <= SIZE
    ensures SplitFrom(Broken(n), 0, i) == SplitFrom(Broken(n), 0, SIZE)
    decreases SIZE - i
  {
    if i < SIZE {
      SkipParagraph(n, i + 1);
      assert Broken(n)[i] == 'a';
    }
  }

  lemma BrokenParts(n: nat)
    ensures CutInto(Split(Broken(n)), 2 * n + 1, Paragraph())
  {
    SkipParagraph(n, 0);
    BrokenSplits(n, 0, 0);
    assert Broken(n)[0..SIZE] == Paragraph();
  }

  // ---- The prompt ----

  const LINES: nat := 2048

  function TextAt(n: nat, i: nat): string {
    if i == 1 then Broken(LINES) else if 2 <= i <= n + 1 then Broken(0) else "b"
  }

  function TurnAt(n: nat, i: nat): Message {
    Message(Some(TextAt(n, i)), if i % 2 == 0 then "user" else "assistant", Index(i), Unmarked, map[])
  }

  /** The first k messages of: a first turn, a turn of the paragraph and 2048 blank lines, n turns of the paragraph, and
      two recent turns. */
  function StoryUpTo(n: nat, k: nat): (ms: seq<Message>)
    ensures |ms| == k && forall i :: 0 <= i < k ==> ms[i] == TurnAt(n, i)
  {
    if k == 0 then [] else StoryUpTo(n, k - 1) + [TurnAt(n, k - 1)]
  }

  function Story(n: nat): (ms: seq<Message>)
    ensures |ms| == n + 4 && forall i :: 0 <= i < n + 4 ==> ms[i] == TurnAt(n, i)
  {
    StoryUpTo(n, n + 4)
  }

  predicate Between(lo: nat, i: nat, hi: nat) { lo <= i < hi }

  function Range(lo: nat, hi: nat): set<nat> { set i: nat | i < hi && Between(lo, i, hi) }

  lemma {:induction false} NumberedIndexes(ms: seq<Message>, n: nat)
    requires n <= |ms|
    requires forall i :: 0 <= i < n ==> Historical(ms[i]) && ms[i].ordinal == Index(i)
    ensures IndexesUpTo(ms, n) == Ok(UpTo(n))
    decreases n
  {
    if n > 0 {
      NumberedIndexes(ms, n - 1);
    }
  }

  function SizeAt(n: nat, i: nat): nat {
    if i == 1 then SIZE + 3 * LINES else if 2 <= i <= n + 1 then SIZE else 1
  }

  lemma TextSize(n: nat, i: nat)
    ensures |TextAt(n, i)| == SizeAt(n, i)
  {
  }

  /** The sum of the first k sizes. */
  function SizeUpTo(n: nat, k: nat): nat {
    if k <= 1 then k else if k <= n + 2 then 1 + 3 * LINES + SIZE * (k - 1) else 1 + 3 * LINES + SIZE * (n + 1) + (k - n - 2)
  }

  lemma SizeNext(n: nat, k: nat)
    ensures SizeUpTo(n, k + 1) == SizeUpTo(n, k) + SizeAt(n, k)
  {
  }

  lemma {:induction false} StoryChars(n: nat, ms: seq<Message>, k: nat)
    requires k <= |ms| && forall i :: 0 <= i < k ==> |TextOf(ms[i])| == SizeAt(n, i)
    ensures Chars(ms[..k]) == SizeUpTo(n, k)
    decreases k
  {
    if k > 0 {
      StoryChars(n, ms, k - 1);
      CharsNext(ms, k - 1);
      SizeNext(n, k - 1);
    } else {
      assert ms[..0] == [];
    }
  }

  lemma StoryAllChars(n: nat)
    ensures Chars(Story(n)) == SIZE * (n + 1) + 3 * LINES + 3
  {
    var ms := Story(n);
    forall i | 0 <= i < n + 4 ensures |TextOf(ms[i])| == SizeAt(n, i) {
      TextSize(n, i);
    }
    StoryChars(n, ms, n + 4);
    assert ms[..n + 4] == ms;
  }

  lemma StoryIndexes(n: nat)
    requires n <= 120
    ensures ValidatePlain(Story(n)) == Ok(UpTo(n + 4))
  {
    NumberedIndexes(Story(n), n + 4);
    StoryAllChars(n);
  }

  lemma StoryEligible(n: nat)
    requires n >= 3
    ensures Eligible(UpTo(n + 4), 2) == Range(1, n + 2) && |Range(1, n + 2)| >= 4
  {
    var el := Eligible(UpTo(n + 4), 2);
    var indexes := UpTo(n + 4);
    forall k: nat | Between(1, k, n + 2) ensures k in el {
      assert indexes[k] in el;
    }
    assert el == Range(1, n + 2);
    var four: set<nat> := {1, 2, 3, 4};
    assert four <= Range(1, n + 2);
    Smaller(four, Range(1, n + 2));
  }

  lemma {:induction false} Smaller(a: set<nat>, b: set<nat>)
    requires a <= b
    ensures |a| <= |b|
  {
    if a != {} {
      var x :| x in a;
      Smaller(a - {x}, b - {x});
    }
  }

  predicate ShortOr(parts: seq<string>, x: string) { forall p :: p in parts ==> p == x || |p| <= 2 }

  predicate Repeating(parts: seq<string>, count: nat, x: string) { ShortOr(parts, x) && Occurs(parts, x) >= count }

  lemma RepeatingJoin(a: seq<string>, b: seq<string>, m: nat, n: nat, x: string)
    requires Repeating(a, m, x) && Repeating(b, n, x)
    ensures Repeating(a + b, m + n, x)
  {
    OccursAppend(a, b, x);
  }

  lemma BrokenRepeats(k: nat)
    ensures Repeating(Split(Broken(k)), 1, Paragraph())
  {
    BrokenParts(k);
  }

  /** How often the paragraph stands in the eligible turns below k, at least. */
  predicate RepeatsBelow(n: nat, k: nat)
    requires k <= n + 4
  {
    Repeating(Parts(Story(n), Range(1, n + 2), k), if k <= 1 then 0 else if k < n + 2 then k - 1 else n + 1, Paragraph())
  }

  lemma {:induction false} StoryParts(n: nat, k: nat)
    requires k <= n + 4
    ensures RepeatsBelow(n, k)
    decreases k
  {
    if k > 0 {
      StoryParts(n, k - 1);
      StoryPartsNext(n, k - 1);
    } else {
      NoParts(n);
    }
  }

  lemma NoParts(n: nat)
    ensures RepeatsBelow(n, 0)
  {
  }

  lemma PartsNext(ms: seq<Message>, at: set<nat>, k: nat)
    requires k < |ms|
    ensures Parts(ms, at, k + 1) == Parts(ms, at, k) + (if k in at then Split(TextOf(ms[k])) else [])
  {
  }

  lemma StoryPartsNext(n: nat, k: nat)
    requires k < n + 4 && RepeatsBelow(n, k)
    ensures RepeatsBelow(n, k + 1)
  {
    var before, x := Parts(Story(n), Range(1, n + 2), k), Paragraph();
    var text := TextOf(Story(n)[k]);
    PartsNext(Story(n), Range(1, n + 2), k);
    if Between(1, k, n + 2) {
      BrokenRepeats(if k == 1 then LINES else 0);
      assert Repeating(Split(text), 1, x);
      RepeatingJoin(before, Split(text), if k <= 1 then 0 else k - 1, 1, x);
    } else {
      assert before + [] == before;
    }
  }

  lemma OnlyOne(xs: seq<string>, x: string)
    requires NoRepeats(xs) && x in xs && forall y :: y in xs ==> y == x
    ensures xs == [x]
  {
    var k := |xs| - 1;
    assert xs[0] in xs && xs[k] in xs;
  }

  lemma StoryDictionary(parts: seq<string>)
    requires Occurs(parts, Paragraph()) >= 2 && ShortOr(parts, Paragraph())
    ensures Choices(parts) != [] && DictionaryOf(parts) == [Paragraph()]
  {
    var repeats := Repeats(Distinct(parts), parts);
    var ranked := Sort(repeats, (a, b) => Better(parts, a, b));
    DistinctElements(parts);
    RepeatsElements(Distinct(parts), parts);
    SortElements(repeats, (a, b) => Better(parts, a, b));
    OccursIn(parts, Paragraph());
    assert Paragraph() in ranked;
    OnlyOne(ranked, Paragraph());
    assert Choices(parts) == [Paragraph()];
    SortElements(Choices(parts), (a, b) => Before(a, b));
    OnlyOne(DictionaryOf(parts), Paragraph());
  }

  lemma StoryDoesNotCollide(n: nat)
    ensures !Collides(Story(n))
  {
    var ms := Story(n);
    forall i | 0 <= i < |ms| ensures !StartsWith(TextOf(ms[i]), TURN_PREFIX) {
      assert TextOf(ms[i])[0] != 'V' && TURN_PREFIX[0] == 'V';
    }
  }

  // ---- Its encoded form ----

  function Dict(): seq<string> { [Paragraph()] }

  lemma StoryEncoded(n: nat)
    ensures Encoded(Story(n), Range(1, n + 2), Dict()) == Range(1, n + 2)
    ensures First(Range(1, n + 2), 0, n + 4) == 1
  {
    var ms := Story(n);
    forall i | 1 <= i < n + 2 ensures Uses(Dict(), Split(TextOf(ms[i]))) {
      BrokenParts(if i == 1 then LINES else 0);
      assert Split(TextOf(ms[i]))[0] in Dict();
    }
    assert 1 in Range(1, n + 2);
  }

  lemma {:induction false} CostBound(items: seq<Json>)
    requires forall i :: 0 <= i < |items| ==> ItemCost(items[i]) <= 15
    ensures Cost(items) <= 15 * |items|
  {
    if items != [] {
      CostBound(items[1..]);
    }
  }

  /** An encoded turn of the paragraph and k blank lines. */
  lemma TurnSize(m: Message, k: nat, c: Codec)
    requires Sized(c) && m.content == Some(Broken(k))
    ensures |TextOf(EncodeTurn(m, Dict(), c))| <= 20 + 30 * k
  {
    var parts := Split(Broken(k));
    var items := EncodeParts(Dict(), parts);
    BrokenParts(k);
    assert items[0] == Num(0);
    forall i | 0 <= i < |items| ensures ItemCost(items[i]) <= 15 && (items[i].Str? || items[i] == Num(0)) {
      if i > 0 {
        assert |parts[i]| <= 2 && parts[i] !in Dict();
      }
    }
    CostBound(items);
    assert ListBound(c, items);
  }

  lemma HeaderSize(c: Codec)
    requires Sized(c)
    ensures |TextOf(Header(Dict(), c))| <= |DICTIONARY_PREFIX| + 6 * SIZE + 5
  {
    var items := Strs(Dict());
    assert items == [Str(Paragraph())];
    assert Cost(items) == 6 * SIZE + 3 by {
      assert Cost(items[1..]) == 0;
    }
    assert ListBound(c, items);
  }

  lemma {:induction false} CharsConcat(a: seq<Message>, b: seq<Message>)
    ensures Chars(a + b) == Chars(a) + Chars(b)
    decreases |b|
  {
    if b == [] {
      assert a + b == a;
    } else {
      assert (a + b)[..|a + b| - 1] == a + b[..|b| - 1];
      CharsConcat(a, b[..|b| - 1]);
    }
  }

  lemma CharsCons(m: Message, rest: seq<Message>)
    ensures Chars([m] + rest) == |TextOf(m)| + Chars(rest)
  {
    CharsConcat([m], rest);
    assert [m][..0] == [];
  }

  predicate Tail(out: seq<Message>, most: nat) { AllOrdinary(out) && Chars(out) <= 20 * |out| && |out| <= most }

  lemma TailCons(m: Message, rest: seq<Message>, most: nat)
    requires Tail(rest, most) && Ordinary(m) && |TextOf(m)| <= 20
    ensures Tail([m] + rest, most + 1)
  {
    CharsCons(m, rest);
  }

  /** What stands at position i of the candidate. */
  function Shown(n: nat, i: nat, c: Codec): Message {
    if Between(1, i, n + 2) then EncodeTurn(TurnAt(n, i), Dict(), c) else TurnAt(n, i)
  }

  lemma ShownSize(n: nat, i: nat, c: Codec)
    requires Sized(c) && n <= 120 && 2 <= i < n + 4
    ensures Ordinary(Shown(n, i, c)) && |TextOf(Shown(n, i, c))| <= 20
  {
    if i < n + 2 {
      TurnSize(TurnAt(n, i), 0, c);
    }
  }

  /** The candidate from position i on. */
  function Rest(n: nat, i: nat, c: Codec): seq<Message>
    requires i <= n + 4
  {
    Build(Story(n), i, 1, Range(1, n + 2), Dict(), c)
  }

  lemma BuildStep(ms: seq<Message>, i: nat, first: nat, enc: set<nat>, dict: seq<string>, c: Codec, m: Message)
    requires i < |ms| && m == if i in enc then EncodeTurn(ms[i], dict, c) else ms[i]
    ensures var rest := Build(ms, i + 1, first, enc, dict, c);
      Build(ms, i, first, enc, dict, c) == if i == first then [Header(dict, c)] + ([m] + rest) else [m] + rest
  {
    var rest := Build(ms, i + 1, first, enc, dict, c);
    assert [] + [m] + rest == [m] + rest;
    assert [Header(dict, c)] + [m] + rest == [Header(dict, c)] + ([m] + rest);
  }

  lemma RestNext(n: nat, i: nat, c: Codec)
    requires i < n + 4
    ensures var rest := Rest(n, i + 1, c);
      Rest(n, i, c) == if i == 1 then [Header(Dict(), c)] + ([Shown(n, i, c)] + rest) else [Shown(n, i, c)] + rest
  {
    assert i in Range(1, n + 2) <==> Between(1, i, n + 2);
    BuildStep(Story(n), i, 1, Range(1, n + 2), Dict(), c, Shown(n, i, c));
  }

  lemma RestEnds(n: nat, c: Codec)
    ensures Tail(Rest(n, n + 4, c), 0)
  {
  }

  /** From the third message on, the candidate is short. */
  lemma {:induction false} TailSize(n: nat, i: nat, c: Codec)
    requires Sized(c) && n <= 120 && 2 <= i <= n + 4
    ensures Tail(Rest(n, i, c), n + 4 - i)
    decreases n + 4 - i
  {
    if i < n + 4 {
      TailSize(n, i + 1, c);
      TailStep(n, i, c);
    } else {
      RestEnds(n, c);
    }
  }

  lemma TailStep(n: nat, i: nat, c: Codec)
    requires Sized(c) && n <= 120 && 2 <= i < n + 4 && Tail(Rest(n, i + 1, c), n + 4 - (i + 1))
    ensures Tail(Rest(n, i, c), n + 4 - i)
  {
    ShownSize(n, i, c);
    RestNext(n, i, c);
    TailCons(Shown(n, i, c), Rest(n, i + 1, c), n + 4 - (i + 1));
  }

  lemma CandidateIsRest(n: nat, c: Codec)
    ensures Candidate(Story(n), Range(1, n + 2), Dict(), c) == Rest(n, 0, c)
  {
    StoryEncoded(n);
  }

  lemma CandidateParts(n: nat, c: Codec) returns (tail: seq<Message>)
    requires Sized(c) && n <= 120
    ensures Rest(n, 0, c) == [Shown(n, 0, c)] + ([Header(Dict(), c)] + ([Shown(n, 1, c)] + tail))
    ensures Tail(tail, n + 2)
  {
    TailSize(n, 2, c);
    tail := Rest(n, 2, c);
    RestNext(n, 0, c);
    RestNext(n, 1, c);
  }

  lemma Assembled(a: Message, h: Message, t: Message, tail: seq<Message>, most: nat)
    requires Ordinary(a) && Ordinary(h) && Ordinary(t) && Tail(tail, most)
    ensures var out := [a] + ([h] + ([t] + tail));
      AllOrdinary(out) && |out| <= most + 3 && Chars(out) <= |TextOf(a)| + |TextOf(h)| + |TextOf(t)| + 20 * most
  {
    CharsCons(t, tail);
    CharsCons(h, [t] + tail);
    CharsCons(a, [h] + ([t] + tail));
  }

  lemma PrefixSize()
    ensures |DICTIONARY_PREFIX| <= 400
  {
  }

  lemma CandidateSize(n: nat, c: Codec)
    requires Sized(c) && n <= 120
    ensures var out := Candidate(Story(n), Range(1, n + 2), Dict(), c);
            AllOrdinary(out) && |out| <= n + 5 && Chars(out) <= 6 * SIZE + 30 * LINES + 20 * n + 500
  {
    CandidateIsRest(n, c);
    var tail := CandidateParts(n, c);
    HeaderSize(c);
    PrefixSize();
    TurnSize(TurnAt(n, 1), LINES, c);
    Assembled(Shown(n, 0, c), Header(Dict(), c), Shown(n, 1, c), tail, n + 2);
  }

  /** With 90 turns or more the packed prompt is shorter, whatever its characters' escapes cost. */
  lemma StorySaves(n: nat, c: Codec)
    requires Sized(c) && 90 <= n <= 120
    ensures c.length(Candidate(Story(n), Range(1, n + 2), Dict(), c)) < c.length(Story(n))
  {
    CandidateSize(n, c);
    StoryAllChars(n);
    var out := Candidate(Story(n), Range(1, n + 2), Dict(), c);
    assert PromptBound(c, out) && PromptBound(c, Story(n));
    assert AllOrdinary(Story(n));
  }

  lemma StoryPacks(n: nat, c: Codec)
    requires Sized(c) && 90 <= n <= 120
    ensures Packs(Story(n), 2, c) && !Fits(Story(n), 2, c)
  {
    var ms := Story(n);
    StoryIndexes(n);
    StoryEligible(n);
    StoryParts(n, n + 4);
    StoryDictionary(Parts(ms, Range(1, n + 2), n + 4));
    StoryDoesNotCollide(n);
    StorySaves(n, c);
    StoryEncoded(n);
    BrokenParts(LINES);
    assert 1 in Encoded(ms, Range(1, n + 2), Dict()) && !TurnFits(ms[1], Dict(), c);
  }

  /** Valid prompts whose packed form is shorter, refused all the same: one turn has 4097 pieces. */
  lemma LongTurnIsRefused(n: nat, c: Codec)
    requires Faithful(c) && Sized(c) && 90 <= n <= 120
    ensures ValidatePlain(Story(n)).Ok? && Packs(Story(n), 2, c) && Pack(Story(n), 2, c).Err?
  {
    StoryPacks(n, c);
    PackIsLossless(Story(n), 2, c);
  }
}
