/** When a prompt is packed, and what packing leaves alone. */
module HistoryLaws {
  import opened TextTools
  import opened HistoryCodec
  import opened HistoryRoundTrip

  // ---- Which turns are in the middle ----

  /** A history turn, as validation sees it. */
  predicate IsTurn(m: Message) { !m.ordinal.Absent? }

  function TurnsBelow(ms: seq<Message>, n: nat): nat
    requires n <= |ms|
  {
    if n == 0 then 0 else TurnsBelow(ms, n - 1) + (if IsTurn(ms[n - 1]) then 1 else 0)
  }

  /** Neither the first turn nor one of the last minRecent. */
  predicate Middle(ms: seq<Message>, i: nat, minRecent: nat)
    requires i < |ms|
  {
    IsTurn(ms[i]) && 1 <= TurnsBelow(ms, i) && TurnsBelow(ms, i) + minRecent < TurnsBelow(ms, |ms|)
  }

  /** The indexes of a valid prompt are its turns, in order. */
  predicate Indexed(ms: seq<Message>, n: nat, indexes: seq<nat>)
    requires n <= |ms|
  {
    && |indexes| == TurnsBelow(ms, n)
    && (forall k :: 0 <= k < |indexes| ==> indexes[k] < n && IsTurn(ms[indexes[k]]) && TurnsBelow(ms, indexes[k]) == k)
    && (forall i :: 0 <= i < n && IsTurn(ms[i]) ==> TurnsBelow(ms, i) < |indexes| && indexes[TurnsBelow(ms, i)] == i)
  }

  lemma TurnsGrow(ms: seq<Message>, i: nat, n: nat)
    requires i < n <= |ms| && IsTurn(ms[i])
    ensures TurnsBelow(ms, i) < TurnsBelow(ms, n)
    decreases n
  {
    if i < n - 1 {
      TurnsGrow(ms, i, n - 1);
    }
  }

  lemma IndexedNext(ms: seq<Message>, n: nat, before: seq<nat>)
    requires n < |ms| && Indexed(ms, n, before)
    ensures Indexed(ms, n + 1, if IsTurn(ms[n]) then before + [n] else before)
  {
    var after := if IsTurn(ms[n]) then before + [n] else before;
    forall k | 0 <= k < |after| ensures after[k] < n + 1 && IsTurn(ms[after[k]]) && TurnsBelow(ms, after[k]) == k {
      if k < |before| {
        assert after[k] == before[k];
      }
    }
    forall i | 0 <= i < n + 1 && IsTurn(ms[i]) ensures TurnsBelow(ms, i) < |after| && after[TurnsBelow(ms, i)] == i {
      if i < n {
        assert before[TurnsBelow(ms, i)] == i;
      }
    }
  }

  lemma IndexesNext(ms: seq<Message>, n: nat)
    requires n < |ms| && IndexesUpTo(ms, n + 1).Ok?
    ensures IndexesUpTo(ms, n).Ok?
    ensures var before := IndexesUpTo(ms, n).value;
      IndexesUpTo(ms, n + 1).value == if IsTurn(ms[n]) then before + [n] else before
  {
  }

  lemma {:induction false} IndexesAreTurns(ms: seq<Message>, n: nat)
    requires n <= |ms| && IndexesUpTo(ms, n).Ok?
    ensures Indexed(ms, n, IndexesUpTo(ms, n).value)
    decreases n
  {
    if n > 0 {
      IndexesNext(ms, n - 1);
      IndexesAreTurns(ms, n - 1);
      IndexedNext(ms, n - 1, IndexesUpTo(ms, n - 1).value);
    }
  }

  /** The eligible positions are exactly the turns in the middle. */
  lemma EligibleIsMiddle(ms: seq<Message>, indexes: seq<nat>, minRecent: nat, i: nat)
    requires Indexed(ms, |ms|, indexes) && i < |ms|
    ensures i in Eligible(indexes, minRecent) <==> Middle(ms, i, minRecent)
  {
    if Middle(ms, i, minRecent) {
      assert indexes[TurnsBelow(ms, i)] == i;
    }
  }

  // ---- What packing leaves alone ----

  /** Where position i of the prompt stands in the candidate. */
  function Place(i: nat, first: nat): nat { if i < first then i else i + 1 }

  lemma {:induction false} BuiltAt(ms: seq<Message>, start: nat, first: nat, enc: set<nat>, dict: seq<string>, c: Codec, i: nat)
    requires start <= i < |ms| && first < |ms|
    ensures var out := Build(ms, start, first, enc, dict, c);
      && |out| == |ms| - start + (if start <= first then 1 else 0)
      && (var at := (if start <= first <= i then i + 1 else i) - start;
          at < |out| && out[at] == if i in enc then EncodeTurn(ms[i], dict, c) else ms[i])
    decreases |ms| - start
  {
    if start < i {
      BuiltAt(ms, start + 1, first, enc, dict, c, i);
    } else if start + 1 < |ms| {
      BuiltAt(ms, start + 1, first, enc, dict, c, start + 1);
    } else {
      assert Build(ms, start + 1, first, enc, dict, c) == [];
    }
  }

  /** What packing returns other than the prompt is the candidate. */
  lemma PackedIs(ms: seq<Message>, minRecent: int, c: Codec) returns (indexes: seq<nat>)
    requires Pack(ms, minRecent, c).Ok? && Pack(ms, minRecent, c).value != ms
    ensures 2 <= minRecent <= 64 && ValidatePlain(ms) == Ok(indexes) && IndexesUpTo(ms, |ms|) == Ok(indexes)
    ensures Proposal(ms, indexes, minRecent, c) == Some(Pack(ms, minRecent, c).value)
  {
    indexes := ValidatePlain(ms).value;
  }

  lemma ProposedIs(ms: seq<Message>, indexes: seq<nat>, minRecent: nat, c: Codec)
    requires Proposal(ms, indexes, minRecent, c).Some?
    ensures var el := Eligible(indexes, minRecent); var dict := DictionaryOf(Parts(ms, el, |ms|)); var enc := Encoded(ms, el, dict);
      Proposal(ms, indexes, minRecent, c).value == Build(ms, 0, First(enc, 0, |ms|), enc, dict, c)
  {
  }

  /** Packing changes only turns in the middle, and of those only text and marker: every other message, the first turn and
      the last minRecent among them, is in the packed prompt as it was, and nothing is new but one header. */
  lemma PackLeavesTheEnds(ms: seq<Message>, minRecent: int, c: Codec, i: nat) returns (first: nat)
    requires i < |ms| && Pack(ms, minRecent, c).Ok? && Pack(ms, minRecent, c).value != ms
    ensures var out := Pack(ms, minRecent, c).value; var at := Place(i, first);
      && 2 <= minRecent <= 64 && first < |ms| && |out| == |ms| + 1 && at < |out|
      && (!Middle(ms, i, minRecent) ==> out[at] == ms[i])
      && out[at].role == ms[i].role && out[at].ordinal == ms[i].ordinal && out[at].rest == ms[i].rest
  {
    var indexes := PackedIs(ms, minRecent, c);
    IndexesAreTurns(ms, |ms|);
    EligibleIsMiddle(ms, indexes, minRecent, i);
    SomethingIsEncoded(ms, indexes, minRecent, c);
    ProposedIs(ms, indexes, minRecent, c);
    var el := Eligible(indexes, minRecent);
    var dict := DictionaryOf(Parts(ms, el, |ms|));
    first := CandidateAt(ms, el, dict, Pack(ms, minRecent, c).value, c, i);
  }

  lemma CandidateAt(ms: seq<Message>, el: set<nat>, dict: seq<string>, out: seq<Message>, c: Codec, i: nat) returns (first: nat)
    requires i < |ms| && First(Encoded(ms, el, dict), 0, |ms|) < |ms|
    requires out == Build(ms, 0, First(Encoded(ms, el, dict), 0, |ms|), Encoded(ms, el, dict), dict, c)
    ensures first < |ms| && |out| == |ms| + 1 && Place(i, first) < |out|
    ensures out[Place(i, first)] == ms[i] || (i in el && out[Place(i, first)] == EncodeTurn(ms[i], dict, c))
  {
    first := First(Encoded(ms, el, dict), 0, |ms|);
    BuiltAt(ms, 0, first, Encoded(ms, el, dict), dict, c, i);
  }

  lemma SomethingIsEncoded(ms: seq<Message>, indexes: seq<nat>, minRecent: nat, c: Codec)
    requires Proposal(ms, indexes, minRecent, c).Some?
    ensures var el := Eligible(indexes, minRecent); var dict := DictionaryOf(Parts(ms, el, |ms|));
      First(Encoded(ms, el, dict), 0, |ms|) < |ms|
  {
    var el := Eligible(indexes, minRecent);
    var parts := Parts(ms, el, |ms|);
    var dict := DictionaryOf(parts);
    DictionaryFacts(parts);
    assert dict[0] in dict;
    SomeEncoded(ms, el, dict, |ms|, dict[0]);
  }

  // ---- When a prompt is packed ----

  /** A paragraph of 80 to 8000 characters that occurs twice. */
  predicate Repeated(parts: seq<string>) { exists x :: x in parts && 80 <= |x| <= 8000 && Occurs(parts, x) >= 2 }

  /** There is something to put in the dictionary exactly when a paragraph is repeated. */
  lemma ChoicesExactly(parts: seq<string>)
    ensures Choices(parts) != [] <==> Repeated(parts)
  {
    var repeats := HistoryCodec.Repeats(Distinct(parts), parts);
    DistinctElements(parts);
    RepeatsElements(Distinct(parts), parts);
    SortElements(repeats, (a, b) => Better(parts, a, b));
    if x :| x in parts && 80 <= |x| <= 8000 && Occurs(parts, x) >= 2 {
      assert x in repeats;
    }
    if repeats != [] {
      assert repeats[0] in repeats;
    }
  }

  lemma MiddleCount(indexes: seq<nat>, minRecent: nat)
    requires forall j, k :: 0 <= j < k < |indexes| ==> indexes[j] != indexes[k]
    ensures |Eligible(indexes, minRecent)| == if |indexes| > minRecent + 1 then |indexes| - minRecent - 1 else 0
  {
    if |indexes| > minRecent + 1 {
      SliceSet(indexes, 1, |indexes| - minRecent);
      assert Eligible(indexes, minRecent) == Slice(indexes, 1, |indexes| - minRecent);
    }
  }

  function Slice(indexes: seq<nat>, lo: nat, hi: nat): set<nat>
    requires hi <= |indexes|
  {
    set k | lo <= k < hi :: indexes[k]
  }

  lemma {:induction false} SliceSet(indexes: seq<nat>, lo: nat, hi: nat)
    requires lo <= hi <= |indexes| && forall j, k :: 0 <= j < k < |indexes| ==> indexes[j] != indexes[k]
    ensures |Slice(indexes, lo, hi)| == hi - lo
    decreases hi
  {
    if lo < hi {
      SliceSet(indexes, lo, hi - 1);
      assert indexes[hi - 1] !in Slice(indexes, lo, hi - 1);
      assert Slice(indexes, lo, hi) == Slice(indexes, lo, hi - 1) + {indexes[hi - 1]};
    } else {
      assert Slice(indexes, lo, hi) == {};
    }
  }

  lemma MiddleTurns(ms: seq<Message>, minRecent: nat)
    requires IndexesUpTo(ms, |ms|).Ok?
    ensures |Eligible(IndexesUpTo(ms, |ms|).value, minRecent)| >= 4 <==> TurnsBelow(ms, |ms|) >= minRecent + 5
  {
    var indexes := IndexesUpTo(ms, |ms|).value;
    IndexesAreTurns(ms, |ms|);
    forall j, k | 0 <= j < k < |indexes| ensures indexes[j] != indexes[k] {
      assert TurnsBelow(ms, indexes[j]) != TurnsBelow(ms, indexes[k]);
    }
    MiddleCount(indexes, minRecent);
  }

  /** A text that starts with the turn mark. */
  predicate Marked(ms: seq<Message>) { exists i :: 0 <= i < |ms| && "V:\n" <= TextOf(ms[i]) }

  lemma CollidesExactly(ms: seq<Message>)
    ensures Collides(ms) <==> Marked(ms)
  {
    if i :| 0 <= i < |ms| && "V:\n" <= TextOf(ms[i]) {
      assert StartsWith(TextOf(ms[i]), TURN_PREFIX);
    }
  }

  lemma ProposesExactly(ms: seq<Message>, indexes: seq<nat>, el: set<nat>, parts: seq<string>, minRecent: nat, c: Codec)
    requires el == Eligible(indexes, minRecent) && parts == Parts(ms, el, |ms|)
    ensures Proposal(ms, indexes, minRecent, c).Some? <==>
              !Collides(ms) && |el| >= 4 && Choices(parts) != [] && c.length(Candidate(ms, el, DictionaryOf(parts), c)) < c.length(ms)
  {
  }

  lemma ValidatedIndexes(ms: seq<Message>, indexes: seq<nat>)
    requires ValidatePlain(ms) == Ok(indexes)
    ensures IndexesUpTo(ms, |ms|) == Ok(indexes)
  {
  }

  lemma PacksIfProposes(ms: seq<Message>, indexes: seq<nat>, minRecent: nat, c: Codec)
    requires ValidatePlain(ms) == Ok(indexes)
    ensures Packs(ms, minRecent, c) <==> Proposal(ms, indexes, minRecent, c).Some?
  {
  }

  /** A prompt is packed exactly when no message starts with the turn mark, at least four turns stand between the first and
      the last minRecent, a paragraph is repeated in them, and the packed form is shorter. */
  lemma PacksExactly(ms: seq<Message>, indexes: seq<nat>, el: set<nat>, parts: seq<string>, minRecent: nat, c: Codec)
    requires ValidatePlain(ms) == Ok(indexes) && el == Eligible(indexes, minRecent) && parts == Parts(ms, el, |ms|)
    ensures Packs(ms, minRecent, c) <==>
              && !Marked(ms)
              && TurnsBelow(ms, |ms|) >= minRecent + 5
              && Repeated(parts)
              && c.length(Candidate(ms, el, DictionaryOf(parts), c)) < c.length(ms)
  {
    ValidatedIndexes(ms, indexes);
    PacksIfProposes(ms, indexes, minRecent, c);
    MiddleTurns(ms, minRecent);
    ChoicesExactly(parts);
    CollidesExactly(ms);
    ProposesExactly(ms, indexes, el, parts, minRecent, c);
  }

  lemma {:induction false} ValidUpTo(ms: seq<Message>, n: nat)
    requires n <= |ms|
    ensures IndexesUpTo(ms, n).Ok? <==> forall i :: 0 <= i < n ==> ValidAt(ms, i)
    ensures IndexesUpTo(ms, n).Ok? ==> |IndexesUpTo(ms, n).value| == TurnsBelow(ms, n)
    decreases n
  {
    if n > 0 {
      ValidUpTo(ms, n - 1);
      ValidNext(ms, n - 1);
    }
  }

  lemma ValidNext(ms: seq<Message>, n: nat)
    requires n < |ms| && (IndexesUpTo(ms, n).Ok? ==> |IndexesUpTo(ms, n).value| == TurnsBelow(ms, n))
    ensures IndexesUpTo(ms, n + 1).Ok? <==> IndexesUpTo(ms, n).Ok? && ValidAt(ms, n)
  {
  }

  predicate ValidAt(ms: seq<Message>, i: nat)
    requires i < |ms|
  {
    && ms[i].content.Some? && ms[i].marker.Unmarked?
    && (ms[i].ordinal.Absent?
        || (ms[i].ordinal == Index(TurnsBelow(ms, i)) && (ms[i].role == "user" || ms[i].role == "assistant")))
  }

  /** A prompt is valid exactly when it has at most 288 messages, all texts without a codec mark, its turns are numbered from
      zero and spoken by user or assistant, at most 256, and its texts have at most 1,000,000 characters. */
  lemma ValidExactly(ms: seq<Message>)
    ensures ValidatePlain(ms).Ok? <==>
      && |ms| <= 288 && (forall i :: 0 <= i < |ms| ==> ValidAt(ms, i)) && TurnsBelow(ms, |ms|) <= 256 && Chars(ms) <= 1_000_000
  {
    ValidUpTo(ms, |ms|);
  }
}
