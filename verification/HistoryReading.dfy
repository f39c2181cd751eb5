/** Which encoded prompts the decoder accepts, and what they stand for. */
module HistoryReading {
  import opened TextTools
  import opened HistoryCodec
  import opened HistoryLaws

  // ---- What an encoded prompt says ----

  /** The list a text holds after a prefix, if it holds one. */
  function Listed(text: string, prefix: string, c: Codec): Option<seq<Json>> {
    if !(prefix <= text) then None
    else
      match c.loads(text[|prefix|..])
      case Some(List(items)) => Some(items)
      case _ => None
  }

  /** The position of the dictionary, or the number of messages. */
  function DictionaryAt(ms: seq<Message>): (d: nat)
    ensures d <= |ms| && (d < |ms| ==> ms[d].marker.Dictionary?)
    ensures forall k :: 0 <= k < d ==> !ms[k].marker.Dictionary?
  {
    if ms == [] || ms[0].marker.Dictionary? then 0 else 1 + DictionaryAt(ms[1..])
  }

  function TextAt(items: seq<Json>, i: nat): string
    requires i < |items|
  {
    if items[i].Str? then items[i].text else ""
  }

  function Texts(items: seq<Json>): seq<string> {
    seq(|items|, i requires 0 <= i < |items| => TextAt(items, i))
  }

  /** The entries the prompt's turns refer to. */
  function Book(ms: seq<Message>, c: Codec): seq<string> {
    var d := DictionaryAt(ms);
    if d == |ms| || Listed(TextOf(ms[d]), DICTIONARY_PREFIX, c).None? then []
    else Texts(Listed(TextOf(ms[d]), DICTIONARY_PREFIX, c).value)
  }

  function Expansion(piece: Json, book: seq<string>): string {
    match piece
    case Str(text) => text
    case Num(n) => if 0 <= n < |book| then book[n] else ""
    case OtherJson => ""
  }

  function Expanded(pieces: seq<Json>, book: seq<string>): string {
    if pieces == [] then "" else Expansion(pieces[0], book) + Expanded(pieces[1..], book)
  }

  function References(pieces: seq<Json>, n: nat): nat {
    if pieces == [] then 0 else (if pieces[0] == Num(n) then 1 else 0) + References(pieces[1..], n)
  }

  function PiecesOf(m: Message, c: Codec): seq<Json> {
    if m.marker.Turn? && Listed(TextOf(m), TURN_PREFIX, c).Some? then Listed(TextOf(m), TURN_PREFIX, c).value else []
  }

  /** What a message other than the dictionary stands for. */
  function Meant(m: Message, book: seq<string>, c: Codec): Message {
    if m.marker.Turn? then m.(content := Some(Expanded(PiecesOf(m, c), book)), marker := Unmarked) else m
  }

  function Said(ms: seq<Message>, n: nat, book: seq<string>, c: Codec): seq<Message>
    requires n <= |ms|
  {
    if n == 0 then []
    else if ms[n - 1].marker.Dictionary? then Said(ms, n - 1, book, c)
    else Said(ms, n - 1, book, c) + [Meant(ms[n - 1], book, c)]
  }

  function Length(ms: seq<Message>, n: nat, book: seq<string>, c: Codec): nat
    requires n <= |ms|
  {
    if n == 0 then 0
    else Length(ms, n - 1, book, c)
         + (if ms[n - 1].marker.Dictionary? then 0 else |TextOf(Meant(ms[n - 1], book, c))|)
  }

  function Encodings(ms: seq<Message>, n: nat): nat
    requires n <= |ms|
  {
    if n == 0 then 0 else Encodings(ms, n - 1) + (if ms[n - 1].marker.Turn? then 1 else 0)
  }

  function Uses(ms: seq<Message>, n: nat, e: nat, c: Codec): nat
    requires n <= |ms|
  {
    if n == 0 then 0 else Uses(ms, n - 1, e, c) + References(PiecesOf(ms[n - 1], c), e)
  }

  // ---- Which messages are well formed ----

  predicate GoodEntry(item: Json) { item.Str? && 80 <= |item.text| <= 8000 }

  /** A user message of nothing but one to sixty-four different paragraphs. */
  predicate GoodDictionary(m: Message, c: Codec) {
    && m.role == "user" && m.ordinal.Absent? && m.rest == map[]
    && Listed(TextOf(m), DICTIONARY_PREFIX, c).Some?
    && (var items := Listed(TextOf(m), DICTIONARY_PREFIX, c).value;
        && 1 <= |items| <= 64 && (forall i :: 0 <= i < |items| ==> GoodEntry(items[i]))
        && forall i, j :: 0 <= i < j < |items| ==> items[i] != items[j])
  }

  predicate GoodPiece(piece: Json, book: seq<string>) { piece.Str? || (piece.Num? && 0 <= piece.n < |book|) }

  /** A history turn of one to 4096 literals and references into the dictionary. */
  predicate GoodTurn(m: Message, book: seq<string>, c: Codec) {
    && !m.ordinal.Absent? && (m.role == "user" || m.role == "assistant")
    && Listed(TextOf(m), TURN_PREFIX, c).Some?
    && (var pieces := Listed(TextOf(m), TURN_PREFIX, c).value;
        1 <= |pieces| <= 4096 && forall i :: 0 <= i < |pieces| ==> GoodPiece(pieces[i], book))
  }

  predicate GoodAt(ms: seq<Message>, k: nat, book: seq<string>, c: Codec)
    requires k < |ms|
  {
    && ms[k].content.Some? && |TextOf(ms[k])| <= 1_000_000
    && match ms[k].marker
       case Dictionary => k == DictionaryAt(ms) && GoodDictionary(ms[k], c)
       case Turn => DictionaryAt(ms) < k && GoodTurn(ms[k], book, c)
       case OtherMark => false
       case _ => true
  }

  predicate AllGood(ms: seq<Message>, lo: nat, book: seq<string>, c: Codec) { forall k :: lo <= k < |ms| ==> GoodAt(ms, k, book, c) }

  // ---- Reading one turn ----

  /** The counters after these pieces. */
  function Counted(usage: seq<nat>, pieces: seq<Json>): seq<nat> {
    seq(|usage|, e requires 0 <= e < |usage| => usage[e] + References(pieces, e))
  }

  lemma CountedNext(usage: seq<nat>, pieces: seq<Json>)
    requires pieces != []
    ensures var next := if pieces[0].Num? && 0 <= pieces[0].n < |usage| then usage[pieces[0].n := usage[pieces[0].n] + 1] else usage;
      Counted(next, pieces[1..]) == Counted(usage, pieces)
  {
    var next := if pieces[0].Num? && 0 <= pieces[0].n < |usage| then usage[pieces[0].n := usage[pieces[0].n] + 1] else usage;
    forall e | 0 <= e < |usage| ensures Counted(next, pieces[1..])[e] == Counted(usage, pieces)[e] {
      assert References(pieces, e) == (if pieces[0] == Num(e) then 1 else 0) + References(pieces[1..], e);
    }
  }

  lemma ReadOnePiece(book: seq<string>, p: Pieces, piece: Json, max: nat)
    requires |p.usage| == |book|
    ensures var r := ReadPiece(book, p, piece, max);
      && (r.Ok? <==> GoodPiece(piece, book) && p.size + |Expansion(piece, book)| <= max)
      && (r.Ok? ==> r.value == Pieces(if piece.Num? then p.usage[piece.n := p.usage[piece.n] + 1] else p.usage,
                                      p.size + |Expansion(piece, book)|, p.text + Expansion(piece, book)))
  {
  }

  lemma {:induction false} ReadsPieces(book: seq<string>, p: Pieces, pieces: seq<Json>, max: nat)
    requires |p.usage| == |book| && p.size <= max
    ensures var r := ReadPieces(book, p, pieces, max); var text := Expanded(pieces, book);
      && (r.Ok? <==> (forall i :: 0 <= i < |pieces| ==> GoodPiece(pieces[i], book)) && p.size + |text| <= max)
      && (r.Ok? ==> r.value == Pieces(Counted(p.usage, pieces), p.size + |text|, p.text + text))
    decreases |pieces|, 1
  {
    if pieces == [] {
      assert Counted(p.usage, pieces) == p.usage && p.text + "" == p.text;
    } else {
      ReadOnePiece(book, p, pieces[0], max);
      var first := ReadPiece(book, p, pieces[0], max);
      if first.Ok? {
        ReadsMore(book, p, pieces, first.value, max);
      }
    }
  }

  lemma {:induction false} ReadsMore(book: seq<string>, p: Pieces, pieces: seq<Json>, next: Pieces, max: nat)
    requires |p.usage| == |book| && pieces != [] && ReadPiece(book, p, pieces[0], max) == Ok(next)
    requires GoodPiece(pieces[0], book) && next.size <= max
    requires next == Pieces(if pieces[0].Num? then p.usage[pieces[0].n := p.usage[pieces[0].n] + 1] else p.usage,
                            p.size + |Expansion(pieces[0], book)|, p.text + Expansion(pieces[0], book))
    ensures var r := ReadPieces(book, p, pieces, max); var text := Expanded(pieces, book);
      && (r.Ok? <==> (forall i :: 0 <= i < |pieces| ==> GoodPiece(pieces[i], book)) && p.size + |text| <= max)
      && (r.Ok? ==> r.value == Pieces(Counted(p.usage, pieces), p.size + |text|, p.text + text))
    decreases |pieces|, 0
  {
    ReadsPieces(book, next, pieces[1..], max);
    CountedNext(p.usage, pieces);
    var a, b := Expansion(pieces[0], book), Expanded(pieces[1..], book);
    assert Expanded(pieces, book) == a + b && p.text + a + b == p.text + (a + b);
    assert (forall i :: 0 <= i < |pieces| ==> GoodPiece(pieces[i], book))
      <==> (forall i :: 0 <= i < |pieces[1..]| ==> GoodPiece(pieces[1..][i], book)) by {
      if forall i :: 0 <= i < |pieces[1..]| ==> GoodPiece(pieces[1..][i], book) {
        forall i | 0 <= i < |pieces| ensures GoodPiece(pieces[i], book) {
          assert i > 0 ==> pieces[1..][i - 1] == pieces[i];
        }
      }
    }
  }

  // ---- Reading one message ----

  lemma {:induction false} DistinctTexts(items: seq<Json>)
    requires forall i :: 0 <= i < |items| ==> items[i].Str?
    ensures NoRepeats(Texts(items)) <==> forall i, j :: 0 <= i < j < |items| ==> items[i] != items[j]
  {
    var texts := Texts(items);
    if NoRepeats(texts) {
      forall i, j | 0 <= i < j < |items| ensures items[i] != items[j] {
        assert texts[i] != texts[j];
      }
    } else {
      var i, j :| 0 <= i < j < |texts| && texts[i] == texts[j];
      assert items[i] == Str(texts[i]) && items[j] == Str(texts[j]);
    }
  }

  lemma EntriesAre(items: seq<Json>)
    ensures Entries(List(items)).Some? <==> forall i :: 0 <= i < |items| ==> items[i].Str?
    ensures Entries(List(items)).Some? ==> Entries(List(items)).value == Texts(items)
  {
  }

  lemma GoodEntries(items: seq<Json>)
    ensures (Entries(List(items)).Some? && ValidDictionary(Entries(List(items)).value))
       <==> && 1 <= |items| <= 64 && (forall i :: 0 <= i < |items| ==> GoodEntry(items[i]))
            && forall i, j :: 0 <= i < j < |items| ==> items[i] != items[j]
  {
    EntriesAre(items);
    if Entries(List(items)).Some? {
      var texts := Entries(List(items)).value;
      DistinctTexts(items);
      assert forall i :: 0 <= i < |items| ==> texts[i] == items[i].text;
      if ValidDictionary(texts) {
        forall i | 0 <= i < |items| ensures GoodEntry(items[i]) {
          assert 80 <= |texts[i]| <= 8000;
        }
      }
    }
  }

  lemma ReadsDictionary(s: Reader, m: Message, c: Codec)
    requires m.content.Some?
    ensures var r := ReadDictionary(s, m, m.content.value, c);
      && (r.Ok? <==> s.dictionary.None? && GoodDictionary(m, c))
      && (r.Ok? ==> var book := Texts(Listed(TextOf(m), DICTIONARY_PREFIX, c).value);
                    r.value == s.(dictionary := Some(book), usage := seq(|book|, _ => 0)))
  {
    var list := Listed(TextOf(m), DICTIONARY_PREFIX, c);
    if list.Some? {
      EntriesAre(list.value);
      GoodEntries(list.value);
    }
  }

  lemma ReadsTurn(s: Reader, m: Message, max: nat, c: Codec)
    requires m.content.Some? && m.marker.Turn? && ReaderValid(s) && s.size <= max
    ensures var r := ReadTurn(s, m, m.content.value, max, c);
      && (r.Ok? <==> s.dictionary.Some? && GoodTurn(m, s.dictionary.value, c)
                     && s.size + |TextOf(Meant(m, s.dictionary.value, c))| <= max)
      && (r.Ok? ==> r.value == Reader(s.dictionary, Counted(s.usage, PiecesOf(m, c)),
                                      s.size + |TextOf(Meant(m, s.dictionary.value, c))|, s.encoded + 1,
                                      s.result + [Meant(m, s.dictionary.value, c)]))
  {
    var list := Listed(TextOf(m), TURN_PREFIX, c);
    if s.dictionary.Some? && list.Some? {
      ReadsPieces(s.dictionary.value, Pieces(s.usage, s.size, ""), list.value, max);
      assert "" + Expanded(list.value, s.dictionary.value) == Expanded(list.value, s.dictionary.value);
    }
  }

  // ---- Reading a prompt ----

  /** The decoder's variables after k messages say what these messages say. */
  predicate Reading(ms: seq<Message>, k: nat, s: Reader, book: seq<string>, c: Codec)
    requires k <= |ms|
  {
    && s.dictionary == (if DictionaryAt(ms) < k then Some(book) else None)
    && (s.dictionary.Some? ==> |s.usage| == |book| && forall e :: 0 <= e < |s.usage| ==> s.usage[e] == Uses(ms, k, e, c))
    && s.size == Length(ms, k, book, c) && s.encoded == Encodings(ms, k) && s.result == Said(ms, k, book, c)
  }

  predicate GoodBefore(ms: seq<Message>, k: nat, book: seq<string>, c: Codec)
    requires k <= |ms|
  {
    forall j :: 0 <= j < k ==> GoodAt(ms, j, book, c)
  }

  lemma {:induction false} NoUsesYet(ms: seq<Message>, k: nat, e: nat, book: seq<string>, c: Codec)
    requires k <= |ms| && GoodBefore(ms, k, book, c) && k <= DictionaryAt(ms)
    ensures Uses(ms, k, e, c) == 0
    decreases k
  {
    if k > 0 {
      NoUsesYet(ms, k - 1, e, book, c);
      assert GoodAt(ms, k - 1, book, c);
    }
  }

  lemma StepDictionary(ms: seq<Message>, k: nat, s: Reader, max: nat, book: seq<string>, c: Codec)
    requires k < |ms| && Reading(ms, k, s, book, c) && GoodBefore(ms, k, book, c) && s.size <= max && ms[k].marker.Dictionary?
    requires book == Book(ms, c)
    ensures ReaderValid(s)
    ensures var r := ReadMessage(s, ms[k], max, c);
      && (r.Ok? <==> GoodAt(ms, k, book, c) && Length(ms, k + 1, book, c) <= max)
      && (r.Ok? ==> Reading(ms, k + 1, r.value, book, c))
  {
    if ms[k].content.Some? {
      ReadsDictionary(s, ms[k], c);
      if k == DictionaryAt(ms) {
        var n := k + 1;
        forall e: nat ensures Uses(ms, n, e, c) == 0 {
          NoUsesYet(ms, k, e, book, c);
        }
      }
    }
  }

  lemma StepTurn(ms: seq<Message>, k: nat, s: Reader, max: nat, book: seq<string>, c: Codec)
    requires k < |ms| && Reading(ms, k, s, book, c) && s.size <= max && ms[k].marker.Turn?
    ensures ReaderValid(s)
    ensures var r := ReadMessage(s, ms[k], max, c);
      && (r.Ok? <==> GoodAt(ms, k, book, c) && Length(ms, k + 1, book, c) <= max)
      && (r.Ok? ==> Reading(ms, k + 1, r.value, book, c))
  {
    if ms[k].content.Some? {
      ReadsTurn(s, ms[k], max, c);
    }
  }

  lemma ReadsPlain(s: Reader, m: Message, max: nat, c: Codec)
    requires ReaderValid(s) && !m.marker.Turn? && !m.marker.Dictionary?
    ensures var r := ReadMessage(s, m, max, c); var t := s.(size := s.size + |TextOf(m)|, result := s.result + [m]);
      && (r.Ok? <==> m.content.Some? && |TextOf(m)| <= 1_000_000 && !m.marker.OtherMark? && t.size <= max)
      && (r.Ok? ==> r.value == t)
  {
  }

  lemma PlainUses(ms: seq<Message>, k: nat, n: nat, e: nat, c: Codec)
    requires k < |ms| && n == k + 1 && !ms[k].marker.Turn?
    ensures Uses(ms, n, e, c) == Uses(ms, k, e, c)
  {
    assert PiecesOf(ms[k], c) == [];
  }

  lemma PlainSaid(ms: seq<Message>, k: nat, n: nat, book: seq<string>, c: Codec)
    requires k < |ms| && n == k + 1 && !ms[k].marker.Turn? && !ms[k].marker.Dictionary?
    ensures Length(ms, n, book, c) == Length(ms, k, book, c) + |TextOf(ms[k])| && Said(ms, n, book, c) == Said(ms, k, book, c) + [ms[k]]
    ensures Encodings(ms, n) == Encodings(ms, k) && (DictionaryAt(ms) < n <==> DictionaryAt(ms) < k)
  {
    assert Meant(ms[k], book, c) == ms[k];
  }

  lemma PlainNext(ms: seq<Message>, k: nat, n: nat, s: Reader, t: Reader, book: seq<string>, c: Codec)
    requires k < |ms| && n == k + 1 && Reading(ms, k, s, book, c) && !ms[k].marker.Turn? && !ms[k].marker.Dictionary?
    requires t == s.(size := s.size + |TextOf(ms[k])|, result := s.result + [ms[k]])
    ensures Reading(ms, n, t, book, c) && t.size == Length(ms, n, book, c)
  {
    PlainSaid(ms, k, n, book, c);
    if s.dictionary.Some? {
      forall e | 0 <= e < |t.usage| ensures t.usage[e] == Uses(ms, n, e, c) {
        PlainUses(ms, k, n, e, c);
      }
    }
  }

  lemma StepPlain(ms: seq<Message>, k: nat, s: Reader, max: nat, book: seq<string>, c: Codec)
    requires k < |ms| && Reading(ms, k, s, book, c) && s.size <= max && !ms[k].marker.Turn? && !ms[k].marker.Dictionary?
    ensures ReaderValid(s)
    ensures var r := ReadMessage(s, ms[k], max, c);
      && (r.Ok? <==> GoodAt(ms, k, book, c) && Length(ms, k + 1, book, c) <= max)
      && (r.Ok? ==> Reading(ms, k + 1, r.value, book, c))
  {
    ReadsPlain(s, ms[k], max, c);
    PlainNext(ms, k, k + 1, s, s.(size := s.size + |TextOf(ms[k])|, result := s.result + [ms[k]]), book, c);
  }

  lemma Step(ms: seq<Message>, k: nat, s: Reader, max: nat, book: seq<string>, c: Codec)
    requires k < |ms| && Reading(ms, k, s, book, c) && GoodBefore(ms, k, book, c) && s.size <= max
    requires book == Book(ms, c)
    ensures ReaderValid(s)
    ensures var r := ReadMessage(s, ms[k], max, c);
      && (r.Ok? <==> GoodAt(ms, k, book, c) && Length(ms, k + 1, book, c) <= max)
      && (r.Ok? ==> Reading(ms, k + 1, r.value, book, c))
  {
    match ms[k].marker
    case Dictionary => StepDictionary(ms, k, s, max, book, c);
    case Turn => StepTurn(ms, k, s, max, book, c);
    case _ => StepPlain(ms, k, s, max, book, c);
  }

  lemma {:induction false} LengthGrows(ms: seq<Message>, k: nat, n: nat, book: seq<string>, c: Codec)
    requires k <= n <= |ms|
    ensures Length(ms, k, book, c) <= Length(ms, n, book, c)
    decreases n
  {
    if k < n {
      LengthGrows(ms, k, n - 1, book, c);
    }
  }

  lemma ReadAllNext(s: Reader, ms: seq<Message>, k: nat, max: nat, c: Codec)
    requires ReaderValid(s) && k < |ms|
    ensures var r := ReadMessage(s, ms[k], max, c);
      ReadAll(s, ms[k..], max, c) == if r.Ok? then ReadAll(r.value, ms[k + 1..], max, c) else Err(r.reason)
  {
    assert ms[k..][0] == ms[k] && ms[k..][1..] == ms[k + 1..];
  }

  lemma GoodStep(ms: seq<Message>, k: nat, book: seq<string>, c: Codec)
    requires k < |ms|
    ensures AllGood(ms, k, book, c) <==> GoodAt(ms, k, book, c) && AllGood(ms, k + 1, book, c)
    ensures GoodBefore(ms, k + 1, book, c) <==> GoodAt(ms, k, book, c) && GoodBefore(ms, k, book, c)
  {
  }

  /** What the rest of the loop gives from the variables after k messages. */
  predicate Reads(ms: seq<Message>, k: nat, r: Result<Reader>, max: nat, book: seq<string>, c: Codec)
    requires k <= |ms|
  {
    && (r.Ok? <==> AllGood(ms, k, book, c) && Length(ms, |ms|, book, c) <= max)
    && (r.Ok? ==> Reading(ms, |ms|, r.value, book, c))
  }

  lemma {:induction false} ReadsAll(ms: seq<Message>, k: nat, s: Reader, max: nat, book: seq<string>, c: Codec)
    requires k <= |ms| && ReaderValid(s) && Reading(ms, k, s, book, c) && GoodBefore(ms, k, book, c) && s.size <= max
    requires book == Book(ms, c)
    ensures Reads(ms, k, ReadAll(s, ms[k..], max, c), max, book, c)
    decreases |ms| - k, 1
  {
    if k < |ms| {
      Step(ms, k, s, max, book, c);
      LengthGrows(ms, k + 1, |ms|, book, c);
      ReadAllNext(s, ms, k, max, c);
      GoodStep(ms, k, book, c);
      var r := ReadMessage(s, ms[k], max, c);
      if r.Ok? {
        ReadsRest(ms, k + 1, r.value, max, book, c);
      }
    }
  }

  lemma {:induction false} ReadsRest(ms: seq<Message>, k: nat, s: Reader, max: nat, book: seq<string>, c: Codec)
    requires k <= |ms| && ReaderValid(s) && Reading(ms, k, s, book, c) && GoodBefore(ms, k, book, c)
    requires Length(ms, k, book, c) <= max && book == Book(ms, c)
    ensures Reads(ms, k, ReadAll(s, ms[k..], max, c), max, book, c)
    decreases |ms| - k, 2
  {
    ReadsAll(ms, k, s, max, book, c);
  }

  /** Every entry of the dictionary is referred to at least twice. */
  predicate Used(ms: seq<Message>, book: seq<string>, c: Codec) { forall e :: 0 <= e < |book| ==> Uses(ms, |ms|, e, c) >= 2 }

  lemma UsedExactly(ms: seq<Message>, s: Reader, book: seq<string>, c: Codec)
    requires Reading(ms, |ms|, s, book, c) && s.dictionary.Some?
    ensures (exists i :: 0 <= i < |s.usage| && s.usage[i] < 2) <==> !Used(ms, book, c)
  {
    if !Used(ms, book, c) {
      var e :| 0 <= e < |book| && Uses(ms, |ms|, e, c) < 2;
      assert s.usage[e] < 2;
    }
  }

  /** What Unpack makes of the loop's result. */
  lemma Unpacked(ms: seq<Message>, max: int, c: Codec, r: Result<Reader>)
    requires 0 < max <= MAX_DECODED_CHARS && |ms| <= MAX_TURNS + 33 && r == ReadAll(START, ms, max, c)
    ensures Unpack(ms, max, c).Ok? <==>
              && r.Ok? && ValidatePlain(r.value.result).Ok?
              && (r.value.dictionary.None? || (r.value.encoded > 0 && !(exists i :: 0 <= i < |r.value.usage| && r.value.usage[i] < 2)))
    ensures Unpack(ms, max, c).Ok? ==> Unpack(ms, max, c).value == r.value.result
  {
  }

  /** The decoder accepts exactly: at most 289 well-formed messages, with at most one dictionary, before every turn that uses
      it, and none unused; which expand to no more characters than allowed, at most 1,000,000; and stand for a valid
      prompt. Then it returns that prompt. */
  lemma UnpacksExactly(ms: seq<Message>, max: int, book: seq<string>, c: Codec)
    requires book == Book(ms, c)
    ensures Unpack(ms, max, c).Ok? <==>
              && 0 < max <= 1_000_000 && |ms| <= 289 && AllGood(ms, 0, book, c) && Length(ms, |ms|, book, c) <= max
              && (DictionaryAt(ms) < |ms| ==> Encodings(ms, |ms|) > 0 && Used(ms, book, c))
              && ValidatePlain(Said(ms, |ms|, book, c)).Ok?
    ensures Unpack(ms, max, c).Ok? ==> Unpack(ms, max, c).value == Said(ms, |ms|, book, c)
  {
    if 0 < max <= 1_000_000 {
      assert Reading(ms, 0, START, book, c) && ms[0..] == ms;
      ReadsAll(ms, 0, START, max, book, c);
      var r := ReadAll(START, ms, max, c);
      if |ms| <= 289 {
        Unpacked(ms, max, c, r);
        if r.Ok? && r.value.dictionary.Some? {
          UsedExactly(ms, r.value, book, c);
        }
      }
    }
  }
}
