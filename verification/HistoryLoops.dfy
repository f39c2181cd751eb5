/** The loops of context_history_codec.py, proved equal to the functions of HistoryCodec. */
module HistoryLoops {
  import opened TextTools
  import opened HistoryCodec
  import opened HistoryRoundTrip

  lemma {:induction false} ErrorStays(ms: seq<Message>, i: nat, n: nat)
    requires i <= n <= |ms| && IndexesUpTo(ms, i).Err?
    ensures IndexesUpTo(ms, n) == IndexesUpTo(ms, i)
    decreases n
  {
    if i < n {
      ErrorStays(ms, i, n - 1);
    }
  }

  method Validate(ms: seq<Message>) returns (r: Result<seq<nat>>)
    ensures r == ValidatePlain(ms)
  {
    if |ms| > MAX_TURNS + 32 {
      return Err("history_message_limit");
    }
    var indexes: seq<nat>, chars, position := [], 0, 0;
    assert ms[..0] == [];
    while position < |ms|
      invariant position <= |ms|
      invariant IndexesUpTo(ms, position) == Ok(indexes) && chars == Chars(ms[..position])
    {
      var message := ms[position];
      CharsNext(ms, position);
      if IndexesUpTo(ms, position + 1).Err? {
        ErrorStays(ms, position + 1, |ms|);
      }
      if message.content.None? {
        return Err("history_not_text");
      }
      if message.marker != Unmarked {
        return Err("history_already_encoded");
      }
      chars := chars + |message.content.value|;
      if message.ordinal != Absent {
        if message.ordinal != Index(|indexes|) || !Speaker(message.role) {
          return Err("history_role_or_ordinal");
        }
        indexes := indexes + [position];
      }
      position := position + 1;
    }
    assert ms[..|ms|] == ms;
    if chars > MAX_DECODED_CHARS || |indexes| > MAX_TURNS {
      return Err("history_character_limit");
    }
    r := Ok(indexes);
  }

  method ReadPieceList(dict: seq<string>, p: Pieces, pieces: seq<Json>, max: nat) returns (r: Result<Pieces>)
    requires |p.usage| == |dict|
    ensures r == ReadPieces(dict, p, pieces, max)
  {
    var usage: seq<nat>, size: nat, restored, i := p.usage, p.size, p.text, 0;
    while i < |pieces|
      invariant i <= |pieces| && |usage| == |dict|
      invariant ReadPieces(dict, p, pieces, max) == ReadPieces(dict, Pieces(usage, size, restored), pieces[i..], max)
    {
      var piece := pieces[i];
      assert pieces[i..][0] == piece && pieces[i..][1..] == pieces[i + 1..];
      var value;
      if piece.Str? {
        value := piece.text;
      } else if piece.Num? && 0 <= piece.n < |dict| {
        value := dict[piece.n];
      } else {
        return Err("history_reference_invalid");
      }
      if size + |value| > max {
        return Err("history_expansion_limit");
      }
      if piece.Num? {
        usage := usage[piece.n := usage[piece.n] + 1];
      }
      size := size + |value|;
      restored := restored + value;
      i := i + 1;
    }
    r := Ok(Pieces(usage, size, restored));
  }

  method ReadEncodedTurn(s: Reader, m: Message, max: nat, c: Codec) returns (r: Result<Reader>)
    requires ReaderValid(s) && m.content.Some?
    ensures r == ReadTurn(s, m, m.content.value, max, c)
  {
    var content := m.content.value;
    if s.dictionary.None? || m.ordinal.Absent? || !Speaker(m.role) || !StartsWith(content, TURN_PREFIX) {
      return Err("history_turn_invalid");
    }
    var loaded := c.loads(content[|TURN_PREFIX|..]);
    if loaded.None? {
      return Err("json");
    }
    if !loaded.value.List? || !(1 <= |loaded.value.items| <= MAX_PIECES) {
      return Err("history_pieces_invalid");
    }
    var p := ReadPieceList(s.dictionary.value, Pieces(s.usage, s.size, ""), loaded.value.items, max);
    match p {
      case Err(e) => return Err(e);
      case Ok(done) =>
        var current := m.(content := Some(done.text), marker := Unmarked);
        return Ok(Reader(s.dictionary, done.usage, done.size, s.encoded + 1, s.result + [current]));
    }
  }

  method UnpackHistory(ms: seq<Message>, max: int, c: Codec) returns (r: Result<seq<Message>>)
    ensures r == Unpack(ms, max, c)
  {
    if !(0 < max <= MAX_DECODED_CHARS) {
      return Err("history_expansion_limit");
    }
    if |ms| > MAX_TURNS + 33 {
      return Err("history_message_limit");
    }
    var s, i := START, 0;
    while i < |ms|
      invariant i <= |ms| && ReaderValid(s)
      invariant ReadAll(START, ms, max, c) == ReadAll(s, ms[i..], max, c)
    {
      var message := ms[i];
      assert ms[i..][0] == message && ms[i..][1..] == ms[i + 1..];
      if message.content.None? {
        return Err("history_not_text");
      }
      var content := message.content.value;
      if |content| > MAX_DECODED_CHARS {
        return Err("history_character_limit");
      }
      i := i + 1;
      if message.marker == Dictionary {
        var read := ReadDictionary(s, message, content, c);
        if read.Err? {
          return Err(read.reason);
        }
        s := read.value;
        continue;
      }
      if message.marker == Turn {
        var read := ReadEncodedTurn(s, message, max, c);
        if read.Err? {
          return Err(read.reason);
        }
        if read.value.size > max {
          return Err("history_expansion_limit");
        }
        s := read.value;
      } else if message.marker == OtherMark {
        return Err("history_unknown_codec");
      } else {
        if s.size + |content| > max {
          return Err("history_expansion_limit");
        }
        s := s.(size := s.size + |content|, result := s.result + [message]);
      }
    }
    if s.dictionary.Some? && (s.encoded == 0 || exists i :: 0 <= i < |s.usage| && s.usage[i] < 2) {
      return Err("history_unused_dictionary");
    }
    var valid := Validate(s.result);
    match valid {
      case Err(e) => return Err(e);
      case Ok(_) => return Ok(s.result);
    }
  }

  method EncodeAll(ms: seq<Message>, eligible: set<nat>, dict: seq<string>, c: Codec) returns (encoded: map<nat, Message>)
    ensures encoded.Keys == Encoded(ms, eligible, dict)
    ensures forall i :: i in encoded ==> i < |ms| && encoded[i] == EncodeTurn(ms[i], dict, c)
  {
    encoded := map[];
    var index := 0;
    while index < |ms|
      invariant index <= |ms|
      invariant forall i :: i in encoded <==> i in Encoded(ms, eligible, dict) && i < index
      invariant forall i :: i in encoded ==> i < |ms| && encoded[i] == EncodeTurn(ms[i], dict, c)
    {
      if index in eligible && Uses(dict, Split(TextOf(ms[index]))) {
        encoded := encoded[index := EncodeTurn(ms[index], dict, c)];
      }
      index := index + 1;
    }
  }

  method Assemble(ms: seq<Message>, encoded: map<nat, Message>, dict: seq<string>, c: Codec) returns (candidate: seq<Message>)
    requires forall i :: i in encoded ==> i < |ms| && encoded[i] == EncodeTurn(ms[i], dict, c)
    ensures candidate == Build(ms, 0, First(encoded.Keys, 0, |ms|), encoded.Keys, dict, c)
  {
    var header, first := Header(dict, c), First(encoded.Keys, 0, |ms|);
    ghost var whole := Build(ms, 0, first, encoded.Keys, dict, c);
    candidate := [];
    var index := 0;
    while index < |ms|
      invariant index <= |ms|
      invariant whole == candidate + Build(ms, index, first, encoded.Keys, dict, c)
    {
      var one := if index in encoded then encoded[index] else ms[index];
      Regroup(candidate, if index == first then [header] else [], [one],
              Build(ms, index + 1, first, encoded.Keys, dict, c));
      if index == first {
        candidate := candidate + [header];
      }
      candidate := candidate + [one];
      index := index + 1;
    }
  }

  lemma Regroup(a: seq<Message>, b: seq<Message>, one: seq<Message>, rest: seq<Message>)
    ensures a + (b + one + rest) == a + b + one + rest
    ensures b == [] ==> a + b == a
  {
  }

  method PackHistory(ms: seq<Message>, minRecent: int, c: Codec) returns (r: Result<seq<Message>>)
    ensures r == Pack(ms, minRecent, c)
  {
    if !(2 <= minRecent <= 64) {
      return Err("history_recent_limit");
    }
    var valid := Validate(ms);
    if valid.Err? {
      return Err(valid.reason);
    }
    if Collides(ms) {
      return Ok(ms);
    }
    var eligible := Eligible(valid.value, minRecent);
    if |eligible| < 4 {
      return Ok(ms);
    }
    var parts := Parts(ms, eligible, |ms|);
    if Choices(parts) == [] {
      return Ok(ms);
    }
    var dict := DictionaryOf(parts);
    var encoded := EncodeAll(ms, eligible, dict, c);
    var candidate := Assemble(ms, encoded, dict, c);
    if c.length(candidate) >= c.length(ms) {
      return Ok(ms);
    }
    var back := UnpackHistory(candidate, MAX_DECODED_CHARS, c);
    if back.Err? {
      return Err(back.reason);
    }
    if back.value != ms {
      return Err("history_codec_roundtrip_failed");
    }
    r := Ok(candidate);
  }
}
