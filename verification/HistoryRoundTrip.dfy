/** The history codec's laws: exactly when packing succeeds, that it is lossless, and the expansion bound. */
module HistoryRoundTrip {
  import opened TextTools
  import opened HistoryCodec

  // ---- The dictionary ----

  lemma {:induction false} InsertElements(xs: seq<string>, x: string, less: (string, string) -> bool)
    ensures |Insert(xs, x, less)| == |xs| + 1
    ensures forall y :: y in Insert(xs, x, less) <==> y == x || y in xs
    ensures NoRepeats(xs) && x !in xs ==> NoRepeats(Insert(xs, x, less))
  {
    if xs != [] && less(x, xs[|xs| - 1]) {
      var rest, last := xs[..|xs| - 1], xs[|xs| - 1];
      InsertElements(rest, x, less);
      assert xs == rest + [last];
      assert NoRepeats(xs) ==> last !in rest;
    }
  }

  lemma {:induction false} SortElements(xs: seq<string>, less: (string, string) -> bool)
    ensures |Sort(xs, less)| == |xs|
    ensures forall y :: y in Sort(xs, less) <==> y in xs
    ensures NoRepeats(xs) ==> NoRepeats(Sort(xs, less))
  {
    if xs != [] {
      var last := xs[|xs| - 1];
      SortElements(xs[..|xs| - 1], less);
      InsertElements(Sort(xs[..|xs| - 1], less), last, less);
      assert xs == xs[..|xs| - 1] + [last];
    }
  }

  /** No element is followed by one that should come before it. */
  predicate InOrder(xs: seq<string>, less: (string, string) -> bool) {
    forall i :: 0 <= i < |xs| - 1 ==> !less(xs[i + 1], xs[i])
  }

  lemma {:induction false} InsertInOrder(xs: seq<string>, x: string, less: (string, string) -> bool)
    requires InOrder(xs, less) && forall a, b :: less(a, b) ==> !less(b, a)
    ensures InOrder(Insert(xs, x, less), less)
    ensures var out := Insert(xs, x, less);
            out[|out| - 1] == x || (xs != [] && out[|out| - 1] == xs[|xs| - 1] && less(x, xs[|xs| - 1]))
  {
    if xs != [] && less(x, xs[|xs| - 1]) {
      var rest := xs[..|xs| - 1];
      InsertInOrder(rest, x, less);
      assert rest != [] ==> !less(xs[|xs| - 2 + 1], xs[|xs| - 2]);
    }
  }

  lemma {:induction false} SortInOrder(xs: seq<string>, less: (string, string) -> bool)
    requires forall a, b :: less(a, b) ==> !less(b, a)
    ensures InOrder(Sort(xs, less), less)
  {
    if xs != [] {
      SortInOrder(xs[..|xs| - 1], less);
      InsertInOrder(Sort(xs[..|xs| - 1], less), xs[|xs| - 1], less);
    }
  }

  lemma {:induction false} BeforeAsymmetric(a: string, b: string)
    requires Before(a, b)
    ensures !Before(b, a)
  {
    if a != "" && a[0] == b[0] {
      BeforeAsymmetric(a[1..], b[1..]);
    }
  }

  /** Candidates are ranked by savings, ties by text. */
  lemma RankedBySavings(parts: seq<string>, xs: seq<string>)
    ensures InOrder(Sort(xs, (a, b) => Better(parts, a, b)), (a, b) => Better(parts, a, b))
  {
    var less := (a, b) => Better(parts, a, b);
    forall a, b | less(a, b) ensures !less(b, a) {
      if Savings(parts, a) == Savings(parts, b) {
        BeforeAsymmetric(a, b);
      }
    }
    SortInOrder(xs, less);
  }

  lemma {:induction false} BeforeTotal(a: string, b: string)
    ensures a == b || Before(a, b) || Before(b, a)
  {
    if a != "" && b != "" && a[0] == b[0] {
      BeforeTotal(a[1..], b[1..]);
      assert a == [a[0]] + a[1..] && b == [b[0]] + b[1..];
    }
  }

  lemma {:induction false} NotBeforeTransitive(a: string, b: string, c: string)
    requires !Before(b, a) && !Before(c, b)
    ensures !Before(c, a)
  {
    if a != "" && b != "" && c != "" && a[0] == b[0] == c[0] {
      NotBeforeTransitive(a[1..], b[1..], c[1..]);
    }
  }

  predicate Follows(parts: seq<string>, xs: seq<string>) {
    forall i :: 0 <= i < |xs| - 1 ==> !Better(parts, xs[i + 1], xs[i])
  }

  lemma {:induction false} RankedPairs(parts: seq<string>, xs: seq<string>, i: nat, j: nat)
    requires Follows(parts, xs) && i <= j < |xs|
    ensures !Better(parts, xs[j], xs[i])
    decreases j
  {
    if i < j {
      RankedPairs(parts, xs, i, j - 1);
      assert !Better(parts, xs[j - 1 + 1], xs[j - 1]);
      if Savings(parts, xs[j]) == Savings(parts, xs[j - 1]) == Savings(parts, xs[i]) {
        NotBeforeTransitive(xs[i], xs[j - 1], xs[j]);
      }
    } else if Before(xs[i], xs[i]) {
      BeforeAsymmetric(xs[i], xs[i]);
    }
  }

  /** If a repeated paragraph is left out, 64 are kept, and each of them saves more, or as much and comes first by text. */
  lemma KeptSaveMost(parts: seq<string>, x: string, y: string)
    requires x in Choices(parts) && y in parts && Repeated(parts, y) && y !in Choices(parts)
    ensures |Choices(parts)| == MAX_ENTRIES && Better(parts, x, y) && Savings(parts, x) >= Savings(parts, y)
  {
    var repeats := Repeats(Distinct(parts), parts);
    var ranked := Sort(repeats, (a, b) => Better(parts, a, b));
    DistinctElements(parts);
    RepeatsElements(Distinct(parts), parts);
    SortElements(repeats, (a, b) => Better(parts, a, b));
    RankedBySavings(parts, repeats);
    assert Follows(parts, ranked);
    var i :| 0 <= i < |Choices(parts)| && Choices(parts)[i] == x;
    var j :| 0 <= j < |ranked| && ranked[j] == y;
    assert forall k :: 0 <= k < |Choices(parts)| ==> ranked[k] == Choices(parts)[k] != y;
    RankedPairs(parts, ranked, i, j);
    BeforeTotal(x, y);
  }

  lemma {:induction false} DistinctElements(parts: seq<string>)
    ensures NoRepeats(Distinct(parts)) && forall y :: y in Distinct(parts) <==> y in parts
  {
    if parts != [] {
      DistinctElements(parts[..|parts| - 1]);
      assert parts == parts[..|parts| - 1] + [parts[|parts| - 1]];
    }
  }

  lemma {:induction false} RepeatsElements(candidates: seq<string>, parts: seq<string>)
    requires NoRepeats(candidates)
    ensures NoRepeats(Repeats(candidates, parts))
    ensures forall y :: y in Repeats(candidates, parts) <==> y in candidates && Repeated(parts, y)
  {
    if candidates != [] {
      RepeatsElements(candidates[..|candidates| - 1], parts);
      assert candidates == candidates[..|candidates| - 1] + [candidates[|candidates| - 1]];
    }
  }

  /** The dictionary is valid for the decoder, and each entry stands at least twice in the eligible turns. */
  lemma DictionaryFacts(parts: seq<string>)
    requires Choices(parts) != []
    ensures ValidDictionary(DictionaryOf(parts))
    ensures forall x :: x in DictionaryOf(parts) ==> Repeated(parts, x)
  {
    var repeats := Repeats(Distinct(parts), parts);
    var ranked := Sort(repeats, (a, b) => Better(parts, a, b));
    var choices := Choices(parts);
    DistinctElements(parts);
    RepeatsElements(Distinct(parts), parts);
    SortElements(repeats, (a, b) => Better(parts, a, b));
    assert forall x :: x in choices ==> x in ranked;
    assert NoRepeats(choices);
    SortElements(choices, (a, b) => Before(a, b));
    forall i | 0 <= i < |DictionaryOf(parts)| ensures 80 <= |DictionaryOf(parts)[i]| <= 8000 {
      assert DictionaryOf(parts)[i] in DictionaryOf(parts);
    }
  }

  // ---- Counting occurrences ----

  lemma {:induction false} OccursAppend(a: seq<string>, b: seq<string>, x: string)
    ensures Occurs(a + b, x) == Occurs(a, x) + Occurs(b, x)
  {
    if a == [] {
      assert a + b == b;
    } else {
      assert (a + b)[1..] == a[1..] + b;
      OccursAppend(a[1..], b, x);
    }
  }

  lemma {:induction false} OccursIn(parts: seq<string>, x: string)
    ensures Occurs(parts, x) > 0 <==> x in parts
  {
    if parts != [] {
      OccursIn(parts[1..], x);
      assert parts == [parts[0]] + parts[1..];
    }
  }

  /** Every occurrence of a dictionary entry in an eligible turn is in an encoded turn. */
  lemma {:induction false} EncodedHasAll(ms: seq<Message>, el: set<nat>, dict: seq<string>, n: nat, x: string)
    requires n <= |ms| && x in dict
    ensures Occurs(Parts(ms, Encoded(ms, el, dict), n), x) == Occurs(Parts(ms, el, n), x)
    decreases n
  {
    if n > 0 {
      var enc, m := Encoded(ms, el, dict), n - 1;
      var parts := Split(TextOf(ms[m]));
      EncodedHasAll(ms, el, dict, m, x);
      OccursAppend(Parts(ms, el, m), if m in el then parts else [], x);
      OccursAppend(Parts(ms, enc, m), if m in enc then parts else [], x);
      OccursIn(parts, x);
      if m in el && x in parts {
        assert Uses(dict, parts);
      }
    }
  }

  lemma {:induction false} PartsOfNone(ms: seq<Message>, at: set<nat>, n: nat)
    requires n <= |ms| && forall i :: 0 <= i < n ==> i !in at
    ensures Parts(ms, at, n) == []
    decreases n
  {
    if n > 0 {
      PartsOfNone(ms, at, n - 1);
    }
  }

  /** The decoder's usage counts after n messages. */
  function UsageAt(ms: seq<Message>, enc: set<nat>, dict: seq<string>, n: nat): (u: seq<nat>)
    requires n <= |ms|
    ensures |u| == |dict|
  {
    seq(|dict|, d requires 0 <= d < |dict| => Occurs(Parts(ms, enc, n), dict[d]))
  }

  // ---- Decoding one encoded turn ----

  function AddUses(dict: seq<string>, usage: seq<nat>, parts: seq<string>): (u: seq<nat>)
    requires |usage| == |dict|
    ensures |u| == |dict|
    decreases |parts|
  {
    if parts == [] then usage
    else
      var next := if parts[0] in dict
                  then usage[Position(dict, parts[0]) := usage[Position(dict, parts[0])] + 1] else usage;
      AddUses(dict, next, parts[1..])
  }

  lemma {:induction false} AddUsesCounts(dict: seq<string>, usage: seq<nat>, parts: seq<string>, d: nat)
    requires |usage| == |dict| && NoRepeats(dict) && d < |dict|
    ensures AddUses(dict, usage, parts)[d] == usage[d] + Occurs(parts, dict[d])
    decreases |parts|
  {
    if parts != [] {
      var next := if parts[0] in dict
                  then usage[Position(dict, parts[0]) := usage[Position(dict, parts[0])] + 1] else usage;
      AddUsesCounts(dict, next, parts[1..], d);
    }
  }

  lemma {:induction false} ReadEncoded(dict: seq<string>, p: Pieces, parts: seq<string>, max: nat)
    requires |p.usage| == |dict| && p.size + |Join(parts)| <= max
    ensures ReadPieces(dict, p, EncodeParts(dict, parts), max)
            == Ok(Pieces(AddUses(dict, p.usage, parts), p.size + |Join(parts)|, p.text + Join(parts)))
    decreases |parts|
  {
    var pieces := EncodeParts(dict, parts);
    if parts != [] {
      var next := ReadPiece(dict, p, pieces[0], max);
      assert next.Ok? && next.value.size == p.size + |parts[0]| && next.value.text == p.text + parts[0];
      assert pieces[1..] == EncodeParts(dict, parts[1..]);
      ReadEncoded(dict, next.value, parts[1..], max);
      assert p.text + parts[0] + Join(parts[1..]) == p.text + Join(parts);
    } else {
      assert p.text + "" == p.text;
    }
  }

  // ---- The decoder over the candidate ----

  function CountIn(enc: set<nat>, n: nat): nat {
    if n == 0 then 0 else CountIn(enc, n - 1) + (if n - 1 in enc then 1 else 0)
  }

  /** The decoder's variables after the messages below n, the header counted with the message it precedes. */
  function After(ms: seq<Message>, enc: set<nat>, first: nat, dict: seq<string>, n: nat): (s: Reader)
    requires n <= |ms|
    ensures ReaderValid(s)
  {
    Reader(if first < n then Some(dict) else None, if first < n then UsageAt(ms, enc, dict, n) else [],
           Chars(ms[..n]), CountIn(enc, n), ms[..n])
  }

  predicate TurnFits(m: Message, dict: seq<string>, c: Codec) {
    |TURN_PREFIX + c.dumps(EncodeParts(dict, Split(TextOf(m))))| <= MAX_DECODED_CHARS && |Split(TextOf(m))| <= MAX_PIECES
  }

  predicate HeaderFits(dict: seq<string>, c: Codec) {
    |DICTIONARY_PREFIX + c.dumps(Strs(dict))| <= MAX_DECODED_CHARS
  }

  predicate Plain(m: Message) { m.content.Some? && m.marker.Unmarked? }

  predicate Historical(m: Message) { Plain(m) && !m.ordinal.Absent? && Speaker(m.role) }

  lemma {:induction false} CharsPrefix(ms: seq<Message>, n: nat)
    requires n <= |ms|
    ensures Chars(ms[..n]) <= Chars(ms)
    decreases |ms|
  {
    if n < |ms| {
      assert ms[..|ms| - 1][..n] == ms[..n];
      CharsPrefix(ms[..|ms| - 1], n);
    } else {
      assert ms[..n] == ms;
    }
  }

  lemma CharsNext(ms: seq<Message>, n: nat)
    requires n < |ms|
    ensures Chars(ms[..n + 1]) == Chars(ms[..n]) + |TextOf(ms[n])|
  {
    assert ms[..n + 1][..n] == ms[..n];
  }

  lemma DictionaryText(dict: seq<string>)
    ensures Entries(List(Strs(dict))) == Some(dict)
  {
    var v := List(Strs(dict));
    assert seq(|v.items|, i requires 0 <= i < |v.items| => v.items[i].text) == dict;
  }

  lemma ReadHeader(s: Reader, dict: seq<string>, c: Codec)
    requires Faithful(c) && s.dictionary.None? && ValidDictionary(dict)
    ensures var r := ReadMessage(s, Header(dict, c), MAX_DECODED_CHARS, c);
            r == if HeaderFits(dict, c) then Ok(s.(dictionary := Some(dict), usage := seq(|dict|, _ => 0)))
                 else Err("history_character_limit")
  {
    DictionaryText(dict);
    assert ReadsBack(c, Strs(dict));
    var content := DICTIONARY_PREFIX + c.dumps(Strs(dict));
    assert content[|DICTIONARY_PREFIX|..] == c.dumps(Strs(dict));
  }

  lemma DropPrefix(prefix: string, s: string)
    ensures (prefix + s)[|prefix|..] == s && StartsWith(prefix + s, prefix)
  {
  }

  lemma ReadTurnText(s: Reader, m: Message, dict: seq<string>, c: Codec)
    requires Faithful(c) && s.dictionary == Some(dict) && |s.usage| == |dict| && Historical(m)
    requires s.size + |TextOf(m)| <= MAX_DECODED_CHARS
    ensures var items := EncodeParts(dict, Split(TextOf(m)));
            var r := ReadTurn(s, EncodeTurn(m, dict, c), TURN_PREFIX + c.dumps(items), MAX_DECODED_CHARS, c);
            if |items| <= MAX_PIECES
            then r == Ok(Reader(Some(dict), AddUses(dict, s.usage, Split(TextOf(m))), s.size + |TextOf(m)|, s.encoded + 1,
                                s.result + [m]))
            else r.Err?
  {
    var parts := Split(TextOf(m));
    var items := EncodeParts(dict, parts);
    assert ReadsBack(c, items);
    DropPrefix(TURN_PREFIX, c.dumps(items));
    JoinSplit(TextOf(m));
    var p := Pieces(s.usage, s.size, "");
    ReadEncoded(dict, p, parts, MAX_DECODED_CHARS);
    assert p.text + Join(parts) == TextOf(m);
    assert EncodeTurn(m, dict, c).(content := Some(TextOf(m)), marker := Unmarked) == m;
  }

  lemma ReadTurnMessage(s: Reader, m: Message, dict: seq<string>, c: Codec)
    requires Faithful(c) && s.dictionary == Some(dict) && |s.usage| == |dict| && Historical(m)
    requires s.size + |TextOf(m)| <= MAX_DECODED_CHARS
    ensures var r := ReadMessage(s, EncodeTurn(m, dict, c), MAX_DECODED_CHARS, c);
            if TurnFits(m, dict, c)
            then r == Ok(Reader(Some(dict), AddUses(dict, s.usage, Split(TextOf(m))), s.size + |TextOf(m)|, s.encoded + 1,
                                s.result + [m]))
            else r.Err?
  {
    ReadTurnText(s, m, dict, c);
  }

  lemma UsageNext(ms: seq<Message>, enc: set<nat>, dict: seq<string>, n: nat)
    requires n < |ms| && NoRepeats(dict)
    ensures UsageAt(ms, enc, dict, n + 1)
            == if n in enc then AddUses(dict, UsageAt(ms, enc, dict, n), Split(TextOf(ms[n]))) else UsageAt(ms, enc, dict, n)
  {
    var u := UsageAt(ms, enc, dict, n);
    var parts := Split(TextOf(ms[n]));
    forall d: nat | d < |dict|
      ensures UsageAt(ms, enc, dict, n + 1)[d] == if n in enc then AddUses(dict, u, parts)[d] else u[d]
    {
      OccursAppend(Parts(ms, enc, n), if n in enc then parts else [], dict[d]);
      AddUsesCounts(dict, u, parts, d);
    }
  }

  lemma UsageBefore(ms: seq<Message>, enc: set<nat>, dict: seq<string>, n: nat)
    requires n <= |ms| && forall i :: 0 <= i < n ==> i !in enc
    ensures UsageAt(ms, enc, dict, n) == seq(|dict|, _ => 0)
  {
    PartsOfNone(ms, enc, n);
  }

  predicate Packable(ms: seq<Message>, enc: set<nat>, dict: seq<string>) {
    && ValidDictionary(dict) && Chars(ms) <= MAX_DECODED_CHARS
    && (forall i :: 0 <= i < |ms| ==> Plain(ms[i]))
    && (forall i :: 0 <= i < |ms| && i in enc ==> Historical(ms[i]))
  }

  /** The decoder's variables one message later: where no header comes first, and where it does. */
  lemma AfterNext(ms: seq<Message>, enc: set<nat>, first: nat, dict: seq<string>, i: nat)
    requires i < |ms| && NoRepeats(dict)
    ensures var s, t := After(ms, enc, first, dict, i), After(ms, enc, first, dict, i + 1);
            && t.size == s.size + |TextOf(ms[i])| && t.size <= Chars(ms) && t.result == s.result + [ms[i]]
            && t.encoded == s.encoded + (if i in enc then 1 else 0)
            && (i > first ==> t.dictionary == s.dictionary == Some(dict)
                              && t.usage == if i in enc then AddUses(dict, s.usage, Split(TextOf(ms[i]))) else s.usage)
            && (i < first ==> t.dictionary == s.dictionary == None && t.usage == s.usage == [])
  {
    CharsNext(ms, i);
    CharsPrefix(ms, i + 1);
    UsageNext(ms, enc, dict, i);
    assert ms[..i + 1] == ms[..i] + [ms[i]];
  }

  lemma ReadPlainMessage(s: Reader, m: Message, c: Codec)
    requires ReaderValid(s) && Plain(m) && s.size + |TextOf(m)| <= MAX_DECODED_CHARS
    ensures ReadMessage(s, m, MAX_DECODED_CHARS, c)
            == Ok(Reader(s.dictionary, s.usage, s.size + |TextOf(m)|, s.encoded, s.result + [m]))
  {
  }

  lemma ReadOneTurn(ms: seq<Message>, enc: set<nat>, dict: seq<string>, c: Codec, i: nat, first: nat, s: Reader, t: Reader)
    requires Faithful(c) && Packable(ms, enc, dict) && i < |ms| && i in enc && first < i
    requires s == After(ms, enc, first, dict, i) && t == After(ms, enc, first, dict, i + 1)
    ensures var r := ReadMessage(s, EncodeTurn(ms[i], dict, c), MAX_DECODED_CHARS, c);
            if TurnFits(ms[i], dict, c) then r == Ok(t) else r.Err?
  {
    AfterNext(ms, enc, first, dict, i);
    ReadTurnMessage(s, ms[i], dict, c);
    SameReader(t, Some(dict), AddUses(dict, s.usage, Split(TextOf(ms[i]))), s.size + |TextOf(ms[i])|, s.encoded + 1,
               s.result + [ms[i]]);
  }

  lemma ReadOnePlain(ms: seq<Message>, enc: set<nat>, dict: seq<string>, c: Codec, i: nat, first: nat, s: Reader, t: Reader)
    requires Packable(ms, enc, dict) && i < |ms| && i !in enc && first != i
    requires s == After(ms, enc, first, dict, i) && t == After(ms, enc, first, dict, i + 1)
    ensures ReadMessage(s, ms[i], MAX_DECODED_CHARS, c) == Ok(t)
  {
    AfterNext(ms, enc, first, dict, i);
    ReadPlainMessage(s, ms[i], c);
    SameReader(t, s.dictionary, s.usage, s.size + |TextOf(ms[i])|, s.encoded, s.result + [ms[i]]);
  }

  /** A position without the header decodes to the message it came from. */
  lemma ReadOne(ms: seq<Message>, enc: set<nat>, dict: seq<string>, c: Codec, i: nat)
    requires Faithful(c) && Packable(ms, enc, dict) && i < |ms| && First(enc, 0, |ms|) != i
    ensures var first := First(enc, 0, |ms|); var s := After(ms, enc, first, dict, i);
            var r := ReadMessage(s, if i in enc then EncodeTurn(ms[i], dict, c) else ms[i], MAX_DECODED_CHARS, c);
            if i in enc && !TurnFits(ms[i], dict, c) then r.Err? else r == Ok(After(ms, enc, first, dict, i + 1))
  {
    var first := First(enc, 0, |ms|);
    var s, t := After(ms, enc, first, dict, i), After(ms, enc, first, dict, i + 1);
    if i in enc {
      ReadOneTurn(ms, enc, dict, c, i, first, s, t);
    } else {
      ReadOnePlain(ms, enc, dict, c, i, first, s, t);
    }
  }

  lemma SameReader(t: Reader, dictionary: Option<seq<string>>, usage: seq<nat>, size: nat, encoded: nat, result: seq<Message>)
    requires t.dictionary == dictionary && t.usage == usage && t.size == size && t.encoded == encoded && t.result == result
    ensures t == Reader(dictionary, usage, size, encoded, result)
  {
  }

  lemma ReadTwo(s: Reader, a: Message, b: Message, c: Codec)
    requires ReaderValid(s)
    ensures var r := ReadMessage(s, a, MAX_DECODED_CHARS, c);
            ReadAll(s, [a, b], MAX_DECODED_CHARS, c) == if r.Ok? then ReadMessage(r.value, b, MAX_DECODED_CHARS, c) else r
  {
    assert [a, b] == [a] + [b];
    ReadAppend(s, [a], [b], MAX_DECODED_CHARS, c);
    ReadSingle(s, a, c);
    var r := ReadMessage(s, a, MAX_DECODED_CHARS, c);
    if r.Ok? {
      ReadSingle(r.value, b, c);
    }
  }

  function Opened(s: Reader, dict: seq<string>): (t: Reader)
    ensures ReaderValid(t)
  {
    s.(dictionary := Some(dict), usage := seq(|dict|, _ => 0))
  }

  function Restored(s: Reader, m: Message, dict: seq<string>): (t: Reader)
    requires |s.usage| == |dict|
    ensures ReaderValid(t)
  {
    Reader(Some(dict), AddUses(dict, s.usage, Split(TextOf(m))), s.size + |TextOf(m)|, s.encoded + 1, s.result + [m])
  }

  lemma TwoSteps(s: Reader, a: Message, b: Message, t: Reader, u: Reader, first: bool, second: bool, c: Codec)
    requires ReaderValid(s) && ReaderValid(t)
    requires var r := ReadMessage(s, a, MAX_DECODED_CHARS, c); if first then r == Ok(t) else r.Err?
    requires var r := ReadMessage(t, b, MAX_DECODED_CHARS, c); if second then r == Ok(u) else r.Err?
    ensures var r := ReadAll(s, [a, b], MAX_DECODED_CHARS, c); if first && second then r == Ok(u) else r.Err?
  {
    ReadTwo(s, a, b, c);
  }

  lemma ReadPair(s: Reader, m: Message, dict: seq<string>, c: Codec)
    requires Faithful(c) && s.dictionary.None? && ValidDictionary(dict) && Historical(m)
    requires s.size + |TextOf(m)| <= MAX_DECODED_CHARS
    ensures var r := ReadAll(s, [Header(dict, c), EncodeTurn(m, dict, c)], MAX_DECODED_CHARS, c);
            if HeaderFits(dict, c) && TurnFits(m, dict, c) then r == Ok(Restored(Opened(s, dict), m, dict)) else r.Err?
  {
    ReadHeader(s, dict, c);
    ReadTurnMessage(Opened(s, dict), m, dict, c);
    TwoSteps(s, Header(dict, c), EncodeTurn(m, dict, c), Opened(s, dict), Restored(Opened(s, dict), m, dict),
             HeaderFits(dict, c), TurnFits(m, dict, c), c);
  }

  lemma ReadFirst(ms: seq<Message>, enc: set<nat>, dict: seq<string>, c: Codec, i: nat)
    requires Faithful(c) && Packable(ms, enc, dict) && i < |ms| && First(enc, 0, |ms|) == i
    ensures var s := After(ms, enc, i, dict, i);
            var r := ReadAll(s, [Header(dict, c), EncodeTurn(ms[i], dict, c)], MAX_DECODED_CHARS, c);
            if HeaderFits(dict, c) && TurnFits(ms[i], dict, c) then r == Ok(After(ms, enc, i, dict, i + 1)) else r.Err?
  {
    AfterNext(ms, enc, i, dict, i);
    AfterHeader(ms, enc, dict, i);
    ReadPair(After(ms, enc, i, dict, i), ms[i], dict, c);
  }

  lemma AfterHeader(ms: seq<Message>, enc: set<nat>, dict: seq<string>, i: nat)
    requires i < |ms| && NoRepeats(dict) && i in enc && forall j :: 0 <= j < i ==> j !in enc
    ensures var s, t := After(ms, enc, i, dict, i), After(ms, enc, i, dict, i + 1);
            s.dictionary == None && t == Restored(Opened(s, dict), ms[i], dict)
  {
    AfterNext(ms, enc, i, dict, i);
    UsageBefore(ms, enc, dict, i);
    UsageNext(ms, enc, dict, i);
  }

  lemma ReadSingle(s: Reader, m: Message, c: Codec)
    requires ReaderValid(s)
    ensures ReadAll(s, [m], MAX_DECODED_CHARS, c) == ReadMessage(s, m, MAX_DECODED_CHARS, c)
  {
    assert [m][1..] == [];
  }

  lemma {:induction false} ReadAppend(s: Reader, a: seq<Message>, b: seq<Message>, max: nat, c: Codec)
    requires ReaderValid(s)
    ensures var r := ReadAll(s, a, max, c);
            ReadAll(s, a + b, max, c) == if r.Ok? then ReadAll(r.value, b, max, c) else r
    decreases |a|
  {
    if a == [] {
      assert a + b == b;
    } else {
      assert (a + b)[1..] == a[1..] + b;
      var r := ReadMessage(s, a[0], max, c);
      if r.Ok? {
        ReadAppend(r.value, a[1..], b, max, c);
      }
    }
  }

  /** What the encoded forms from i on must satisfy for the decoder. */
  predicate FitsFrom(ms: seq<Message>, enc: set<nat>, dict: seq<string>, c: Codec, i: nat) {
    && (i <= First(enc, 0, |ms|) ==> HeaderFits(dict, c))
    && forall j :: i <= j < |ms| && j in enc ==> TurnFits(ms[j], dict, c)
  }

  function Built(ms: seq<Message>, enc: set<nat>, dict: seq<string>, c: Codec, i: nat): seq<Message>
    requires i < |ms|
  {
    if i == First(enc, 0, |ms|) then [Header(dict, c), EncodeTurn(ms[i], dict, c)]
    else [if i in enc then EncodeTurn(ms[i], dict, c) else ms[i]]
  }

  lemma BuildNext(ms: seq<Message>, enc: set<nat>, dict: seq<string>, c: Codec, i: nat)
    requires i < |ms|
    ensures var first := First(enc, 0, |ms|);
            Build(ms, i, first, enc, dict, c) == Built(ms, enc, dict, c, i) + Build(ms, i + 1, first, enc, dict, c)
  {
  }

  predicate FitsAt(ms: seq<Message>, enc: set<nat>, dict: seq<string>, c: Codec, i: nat)
    requires i < |ms|
  {
    (i == First(enc, 0, |ms|) ==> HeaderFits(dict, c)) && (i in enc ==> TurnFits(ms[i], dict, c))
  }

  lemma ReadBuilt(ms: seq<Message>, enc: set<nat>, dict: seq<string>, c: Codec, i: nat)
    requires Faithful(c) && Packable(ms, enc, dict) && i < |ms|
    ensures var first := First(enc, 0, |ms|);
            var r := ReadAll(After(ms, enc, first, dict, i), Built(ms, enc, dict, c, i), MAX_DECODED_CHARS, c);
            if FitsAt(ms, enc, dict, c, i) then r == Ok(After(ms, enc, first, dict, i + 1)) else r.Err?
  {
    if i == First(enc, 0, |ms|) {
      ReadFirst(ms, enc, dict, c, i);
    } else {
      ReadOne(ms, enc, dict, c, i);
      ReadSingle(After(ms, enc, First(enc, 0, |ms|), dict, i), if i in enc then EncodeTurn(ms[i], dict, c) else ms[i], c);
    }
  }

  /** From position i on, decoding ends with every message restored exactly when the encoded forms fit, or fails. */
  predicate Restores(ms: seq<Message>, enc: set<nat>, dict: seq<string>, c: Codec, i: nat)
    requires i <= |ms|
  {
    var first := First(enc, 0, |ms|);
    var r := ReadAll(After(ms, enc, first, dict, i), Build(ms, i, first, enc, dict, c), MAX_DECODED_CHARS, c);
    if FitsFrom(ms, enc, dict, c, i) then r == Ok(After(ms, enc, first, dict, |ms|)) else r.Err?
  }

  lemma {:induction false} ReadBuild(ms: seq<Message>, enc: set<nat>, dict: seq<string>, c: Codec, i: nat)
    requires Faithful(c) && Packable(ms, enc, dict) && i <= |ms| && First(enc, 0, |ms|) < |ms|
    ensures Restores(ms, enc, dict, c, i)
    decreases |ms| - i, 1
  {
    if i < |ms| {
      ReadBuildNext(ms, enc, dict, c, i);
    } else {
      BuildEnd(ms, enc, dict, c);
    }
  }

  lemma {:induction false} ReadBuildNext(ms: seq<Message>, enc: set<nat>, dict: seq<string>, c: Codec, i: nat)
    requires Faithful(c) && Packable(ms, enc, dict) && i < |ms| && First(enc, 0, |ms|) < |ms|
    ensures Restores(ms, enc, dict, c, i)
    decreases |ms| - i, 0
  {
    ReadBuild(ms, enc, dict, c, i + 1);
    BuildStep(ms, enc, dict, c, i);
  }

  lemma BuildEnd(ms: seq<Message>, enc: set<nat>, dict: seq<string>, c: Codec)
    requires First(enc, 0, |ms|) < |ms|
    ensures Restores(ms, enc, dict, c, |ms|)
  {
  }

  lemma BuildStep(ms: seq<Message>, enc: set<nat>, dict: seq<string>, c: Codec, i: nat)
    requires Faithful(c) && Packable(ms, enc, dict) && i < |ms| && Restores(ms, enc, dict, c, i + 1)
    ensures Restores(ms, enc, dict, c, i)
  {
    var first := First(enc, 0, |ms|);
    ReadBuilt(ms, enc, dict, c, i);
    BuildNext(ms, enc, dict, c, i);
    FitsNext(ms, enc, dict, c, i);
    JoinReads(After(ms, enc, first, dict, i), Built(ms, enc, dict, c, i), Build(ms, i + 1, first, enc, dict, c),
              After(ms, enc, first, dict, i + 1), After(ms, enc, first, dict, |ms|),
              FitsAt(ms, enc, dict, c, i), FitsFrom(ms, enc, dict, c, i + 1), c);
  }

  lemma JoinReads(s: Reader, a: seq<Message>, b: seq<Message>, t: Reader, u: Reader, first: bool, second: bool, c: Codec)
    requires ReaderValid(s) && ReaderValid(t)
    requires var r := ReadAll(s, a, MAX_DECODED_CHARS, c); if first then r == Ok(t) else r.Err?
    requires var r := ReadAll(t, b, MAX_DECODED_CHARS, c); if second then r == Ok(u) else r.Err?
    ensures var r := ReadAll(s, a + b, MAX_DECODED_CHARS, c); if first && second then r == Ok(u) else r.Err?
  {
    ReadAppend(s, a, b, MAX_DECODED_CHARS, c);
  }

  lemma FitsNext(ms: seq<Message>, enc: set<nat>, dict: seq<string>, c: Codec, i: nat)
    requires i < |ms|
    ensures FitsFrom(ms, enc, dict, c, i) <==> FitsAt(ms, enc, dict, c, i) && FitsFrom(ms, enc, dict, c, i + 1)
  {
  }

  // ---- Packing ----

  lemma {:induction false} ValidIndexes(ms: seq<Message>, n: nat)
    requires n <= |ms| && IndexesUpTo(ms, n).Ok?
    ensures forall i :: 0 <= i < n ==> Plain(ms[i])
    ensures var indexes := IndexesUpTo(ms, n).value;
            |indexes| <= n && forall k :: 0 <= k < |indexes| ==> indexes[k] < n && Historical(ms[indexes[k]])
    decreases n
  {
    if n > 0 {
      ValidIndexes(ms, n - 1);
    }
  }

  lemma {:induction false} BuildLength(ms: seq<Message>, i: nat, first: nat, enc: set<nat>, dict: seq<string>, c: Codec)
    requires i <= |ms|
    ensures |Build(ms, i, first, enc, dict, c)| <= |ms| - i + (if i <= first then 1 else 0)
    decreases |ms| - i
  {
    if i < |ms| {
      BuildLength(ms, i + 1, first, enc, dict, c);
    }
  }

  lemma {:induction false} CountPositive(enc: set<nat>, i: nat, n: nat)
    requires i < n && i in enc
    ensures CountIn(enc, n) > 0
    decreases n
  {
    if i < n - 1 {
      CountPositive(enc, i, n - 1);
    }
  }

  /** The limits the decoder puts on the encoded forms: header and encoded turns within 1,000,000 characters, turns
      within 4096 pieces. */
  predicate WithinLimits(ms: seq<Message>, el: set<nat>, dict: seq<string>, c: Codec) {
    HeaderFits(dict, c) && forall i :: 0 <= i < |ms| && i in Encoded(ms, el, dict) ==> TurnFits(ms[i], dict, c)
  }

  lemma {:induction false} SomeEncoded(ms: seq<Message>, el: set<nat>, dict: seq<string>, n: nat, x: string)
    requires n <= |ms| && x in dict && Occurs(Parts(ms, el, n), x) > 0
    ensures exists i :: 0 <= i < n && i in Encoded(ms, el, dict)
    decreases n
  {
    var m := n - 1;
    var parts := Split(TextOf(ms[m]));
    OccursAppend(Parts(ms, el, m), if m in el then parts else [], x);
    OccursIn(parts, x);
    if m in el && x in parts {
      assert Uses(dict, parts);
      assert m in Encoded(ms, el, dict);
    } else {
      SomeEncoded(ms, el, dict, m, x);
    }
  }

  /** The round trip for any valid prompt and any set of eligible turns: lossless exactly within the limits. */
  lemma RoundTrip(ms: seq<Message>, indexes: seq<nat>, el: set<nat>, dict: seq<string>, c: Codec)
    requires Faithful(c) && ValidatePlain(ms) == Ok(indexes) && (forall i :: i in el ==> i in indexes)
    requires ValidDictionary(dict) && forall x :: x in dict ==> Repeated(Parts(ms, el, |ms|), x)
    ensures var r := Unpack(Candidate(ms, el, dict, c), MAX_DECODED_CHARS, c);
            if WithinLimits(ms, el, dict, c) then r == Ok(ms) else r.Err?
  {
    var enc := Encoded(ms, el, dict);
    var first := First(enc, 0, |ms|);
    ValidIndexes(ms, |ms|);
    forall i | 0 <= i < |ms| && i in enc ensures Historical(ms[i]) {
      assert i in indexes;
    }
    assert dict[0] in dict;
    SomeEncoded(ms, el, dict, |ms|, dict[0]);
    BuildLength(ms, 0, first, enc, dict, c);
    ReadBuild(ms, enc, dict, c, 0);
    CountPositive(enc, first, |ms|);
    UsedTwice(ms, el, dict);
    StartsEmpty(ms, enc, first, dict);
    assert FitsFrom(ms, enc, dict, c, 0) <==> WithinLimits(ms, el, dict, c);
    if FitsFrom(ms, enc, dict, c, 0) {
      Accepted(Build(ms, 0, first, enc, dict, c), After(ms, enc, first, dict, |ms|), ms, c);
    }
  }

  lemma UsedTwice(ms: seq<Message>, el: set<nat>, dict: seq<string>)
    requires forall x :: x in dict ==> Repeated(Parts(ms, el, |ms|), x)
    ensures forall d :: 0 <= d < |dict| ==> UsageAt(ms, Encoded(ms, el, dict), dict, |ms|)[d] >= 2
  {
    forall d | 0 <= d < |dict| ensures UsageAt(ms, Encoded(ms, el, dict), dict, |ms|)[d] >= 2 {
      assert dict[d] in dict;
      EncodedHasAll(ms, el, dict, |ms|, dict[d]);
    }
  }

  lemma StartsEmpty(ms: seq<Message>, enc: set<nat>, first: nat, dict: seq<string>)
    ensures After(ms, enc, first, dict, 0) == START
  {
    assert ms[..0] == [];
  }

  /** The last checks of the decoder pass on a used dictionary and a valid result. */
  lemma Accepted(candidate: seq<Message>, end: Reader, ms: seq<Message>, c: Codec)
    requires |candidate| <= MAX_TURNS + 33 && ReadAll(START, candidate, MAX_DECODED_CHARS, c) == Ok(end)
    requires end.encoded > 0 && (forall d :: 0 <= d < |end.usage| ==> end.usage[d] >= 2)
    requires end.result[..] == ms && ValidatePlain(ms).Ok?
    ensures Unpack(candidate, MAX_DECODED_CHARS, c) == Ok(ms)
  {
  }

  // ---- pack_history as a whole ----

  lemma EligibleIndexes(indexes: seq<nat>, minRecent: nat)
    ensures forall i :: i in Eligible(indexes, minRecent) ==> i in indexes
  {
  }

  /** The prompt is packed: neither refused nor left as it is before the round-trip check. */
  predicate Packs(ms: seq<Message>, minRecent: nat, c: Codec) {
    ValidatePlain(ms).Ok? && Proposal(ms, ValidatePlain(ms).value, minRecent, c).Some?
  }

  predicate Fits(ms: seq<Message>, minRecent: nat, c: Codec)
    requires ValidatePlain(ms).Ok?
  {
    var el := Eligible(ValidatePlain(ms).value, minRecent);
    WithinLimits(ms, el, DictionaryOf(Parts(ms, el, |ms|)), c)
  }

  /** The internal check can fail only through a limit on the encoded form; without it packing is lossless. */
  lemma ProposalRoundTrips(ms: seq<Message>, minRecent: nat, c: Codec)
    requires Faithful(c) && Packs(ms, minRecent, c)
    ensures var r := Unpack(Proposal(ms, ValidatePlain(ms).value, minRecent, c).value, MAX_DECODED_CHARS, c);
            if Fits(ms, minRecent, c) then r == Ok(ms) else r.Err?
  {
    var indexes := ValidatePlain(ms).value;
    var el := Eligible(indexes, minRecent);
    var parts := Parts(ms, el, |ms|);
    EligibleIndexes(indexes, minRecent);
    DictionaryFacts(parts);
    RoundTrip(ms, indexes, el, DictionaryOf(parts), c);
  }

  lemma {:induction false} ReadPlain(s: Reader, ms: seq<Message>, i: nat, c: Codec)
    requires i <= |ms| && s == Reader(None, [], Chars(ms[..i]), 0, ms[..i])
    requires Chars(ms) <= MAX_DECODED_CHARS && forall k :: 0 <= k < |ms| ==> Plain(ms[k])
    ensures ReadAll(s, ms[i..], MAX_DECODED_CHARS, c) == Ok(Reader(None, [], Chars(ms), 0, ms))
    decreases |ms| - i
  {
    if i == |ms| {
      assert ms[..i] == ms;
    } else {
      CharsNext(ms, i);
      CharsPrefix(ms, i + 1);
      assert ms[..i + 1] == ms[..i] + [ms[i]];
      assert ms[i..][0] == ms[i] && ms[i..][1..] == ms[i + 1..];
      ReadPlain(Reader(None, [], Chars(ms[..i + 1]), 0, ms[..i + 1]), ms, i + 1, c);
    }
  }

  /** A valid prompt left as it is decodes to itself. */
  lemma BaselineRoundTrips(ms: seq<Message>, c: Codec)
    requires ValidatePlain(ms).Ok?
    ensures Unpack(ms, MAX_DECODED_CHARS, c) == Ok(ms)
  {
    ValidIndexes(ms, |ms|);
    assert ms[..0] == [] && ms[0..] == ms;
    ReadPlain(START, ms, 0, c);
  }

  /** Packing succeeds exactly on valid arguments whose encoded form, if one is proposed, is within the decoder's
      limits; and whatever it returns decodes to the original prompt. */
  lemma PackIsLossless(ms: seq<Message>, minRecent: int, c: Codec)
    requires Faithful(c)
    ensures Pack(ms, minRecent, c).Ok? <==>
              && 2 <= minRecent <= 64 && ValidatePlain(ms).Ok?
              && (Packs(ms, minRecent, c) ==> Fits(ms, minRecent, c))
    ensures Pack(ms, minRecent, c).Ok? ==> Unpack(Pack(ms, minRecent, c).value, MAX_DECODED_CHARS, c) == Ok(ms)
  {
    if 2 <= minRecent <= 64 && ValidatePlain(ms).Ok? {
      if Packs(ms, minRecent, c) {
        ProposalRoundTrips(ms, minRecent, c);
      } else {
        BaselineRoundTrips(ms, c);
      }
    }
  }

  // ---- The expansion bound ----

  lemma {:induction false} PiecesGrow(dict: seq<string>, p: Pieces, pieces: seq<Json>, max: nat)
    requires |p.usage| == |dict| && ReadPieces(dict, p, pieces, max).Ok?
    ensures var out := ReadPieces(dict, p, pieces, max).value;
            |out.text| - |p.text| == out.size - p.size
    decreases |pieces|
  {
    if pieces != [] {
      PiecesGrow(dict, ReadPiece(dict, p, pieces[0], max).value, pieces[1..], max);
    }
  }

  lemma {:induction false} CharsAppend(ms: seq<Message>, m: Message)
    ensures Chars(ms + [m]) == Chars(ms) + |TextOf(m)|
  {
    assert (ms + [m])[..|ms|] == ms;
  }

  lemma ReadMessageSize(s: Reader, m: Message, max: nat, c: Codec)
    requires ReaderValid(s) && Chars(s.result) == s.size <= max && ReadMessage(s, m, max, c).Ok?
    ensures var t := ReadMessage(s, m, max, c).value; Chars(t.result) == t.size <= max
  {
    var t := ReadMessage(s, m, max, c).value;
    if m.marker.Turn? {
      var pieces := c.loads(m.content.value[|TURN_PREFIX|..]).value.items;
      var p := Pieces(s.usage, s.size, "");
      PiecesGrow(s.dictionary.value, p, pieces, max);
      var text := ReadPieces(s.dictionary.value, p, pieces, max).value.text;
      CharsAppend(s.result, m.(content := Some(text), marker := Unmarked));
    } else if !m.marker.Dictionary? {
      CharsAppend(s.result, m);
    }
  }

  lemma {:induction false} ReadAllSize(s: Reader, ms: seq<Message>, max: nat, c: Codec)
    requires ReaderValid(s) && Chars(s.result) == s.size <= max && ReadAll(s, ms, max, c).Ok?
    ensures var t := ReadAll(s, ms, max, c).value; Chars(t.result) == t.size <= max
    decreases |ms|
  {
    if ms != [] {
      ReadMessageSize(s, ms[0], max, c);
      ReadAllSize(ReadMessage(s, ms[0], max, c).value, ms[1..], max, c);
    }
  }

  /** On any input and with any JSON reader, decoding never yields more characters than asked for. */
  lemma ExpansionIsBounded(ms: seq<Message>, max: int, c: Codec)
    requires Unpack(ms, max, c).Ok?
    ensures Chars(Unpack(ms, max, c).value) <= max
  {
    ReadAllSize(START, ms, max, c);
  }
}
