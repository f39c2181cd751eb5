/** The byte loops of the PNG readers and the rewriter, proved equal to the functions of Png. */
module PngLoops {
  import opened TextTools
  import opened Png

  lemma WalkFails(raw: Bytes, pos: nat, t: Tools)
    requires pos < |raw| && Checked(raw, pos, t).Err?
    ensures Walk(raw, pos, t) == Err(Checked(raw, pos, t).reason)
  {
  }

  function After(cs: seq<Chunk>, r: Result<seq<Chunk>>): Result<seq<Chunk>> {
    match r
    case Err(e) => Err(e)
    case Ok(rest) => Ok(cs + rest)
  }

  lemma AfterOne(cs: seq<Chunk>, c: Chunk, r: Result<seq<Chunk>>)
    ensures After(cs, Prepend(c, r)) == After(cs + [c], r)
  {
    if r.Ok? {
      assert cs + ([c] + r.value) == cs + [c] + r.value;
    }
  }

  lemma AfterNone(r: Result<seq<Chunk>>)
    ensures After([], r) == r
  {
    if r.Ok? {
      assert [] + r.value == r.value;
    }
  }

  method CheckChunk(raw: Bytes, pos: nat, t: Tools) returns (r: Result<Chunk>)
    requires pos < |raw|
    ensures r == Checked(raw, pos, t)
  {
    if pos + 12 > |raw| {
      return Err("truncated PNG chunk");
    }
    var size := t.unpack(raw[pos..pos + 4]);
    var end := pos + size + 12;
    if end > |raw| {
      return Err("truncated PNG chunk data");
    }
    var kind, data := raw[pos + 4..pos + 8], raw[pos + 8..end - 4];
    assert SlotAt(raw, pos, t) == Slot(kind, data, end);
    if t.unpack(raw[end - 4..end]) != t.crc(kind + data) {
      return Err("PNG chunk checksum mismatch");
    }
    if !Readable(Chunk(kind, data), t) {
      return Err("invalid PNG character metadata");
    }
    if kind == IEND && data != [] {
      return Err("invalid PNG IEND chunk");
    }
    if kind == IEND && end != |raw| {
      return Err("unexpected data after PNG end");
    }
    r := Ok(Chunk(kind, data));
  }

  /** What is left of the walk after a turn of the loop that has read these chunks. */
  predicate Remains(raw: Bytes, whole: Result<seq<Chunk>>, chunks: seq<Chunk>, pos: nat, t: Tools) {
    pos <= |raw| && whole == After(chunks, Walk(raw, pos, t))
  }

  lemma RemainsNext(raw: Bytes, whole: Result<seq<Chunk>>, chunks: seq<Chunk>, pos: nat, c: Chunk, t: Tools)
    requires Remains(raw, whole, chunks, pos, t) && pos < |raw| && Checked(raw, pos, t) == Ok(c)
    ensures Remains(raw, whole, chunks + [c], pos + 12 + |c.data|, t)
  {
    WalkNext(raw, pos, c, t);
    AfterOne(chunks, c, Walk(raw, pos + 12 + |c.data|, t));
  }

  lemma RemainsEnd(raw: Bytes, whole: Result<seq<Chunk>>, chunks: seq<Chunk>, t: Tools)
    requires Remains(raw, whole, chunks, |raw|, t)
    ensures whole == Ok(chunks)
  {
    assert chunks + [] == chunks;
  }

  method ReadNext(raw: Bytes, pos: nat, t: Tools, ghost whole: Result<seq<Chunk>>, ghost chunks: seq<Chunk>)
    returns (r: Result<Chunk>)
    requires pos < |raw| && Remains(raw, whole, chunks, pos, t)
    ensures r.Err? ==> whole == Err(r.reason)
    ensures r.Ok? ==> Remains(raw, whole, chunks + [r.value], pos + 12 + |r.value.data|, t)
  {
    r := CheckChunk(raw, pos, t);
    if r.Err? {
      WalkFails(raw, pos, t);
    } else {
      RemainsNext(raw, whole, chunks, pos, r.value, t);
    }
  }

  method ReadChunks(raw: Bytes, t: Tools) returns (r: Result<seq<Chunk>>)
    requires 8 <= |raw|
    ensures r == Walk(raw, 8, t)
  {
    var pos: nat, chunks: seq<Chunk> := 8, [];
    ghost var whole := Walk(raw, 8, t);
    AfterNone(whole);
    while pos < |raw|
      invariant Remains(raw, whole, chunks, pos, t)
      decreases |raw| - pos
    {
      var next := ReadNext(raw, pos, t, whole, chunks);
      if next.Err? {
        return Err(next.reason);
      }
      chunks := chunks + [next.value];
      pos := pos + 12 + |next.value.data|;
    }
    RemainsEnd(raw, whole, chunks, t);
    r := Ok(chunks);
  }

  lemma {:induction false} PrefixFails(cs: seq<Chunk>, i: nat, changes: map<string, string>, t: Tools)
    requires i <= |cs| && AllReadable(cs, t) && RewrittenAll(cs[..i], changes, t).Err?
    ensures RewrittenAll(cs, changes, t).Err? && RewrittenAll(cs, changes, t).reason == RewrittenAll(cs[..i], changes, t).reason
    decreases |cs|
  {
    if i < |cs| {
      assert cs[..|cs| - 1][..i] == cs[..i];
      PrefixFails(cs[..|cs| - 1], i, changes, t);
    } else {
      assert cs[..i] == cs;
    }
  }

  lemma PrefixNext(cs: seq<Chunk>, i: nat, before: seq<Chunk>, changes: map<string, string>, t: Tools)
    requires i < |cs| && AllReadable(cs, t) && RewrittenAll(cs[..i], changes, t) == Ok(before)
    ensures var one := Rewritten(cs[i], changes, t); var r := RewrittenAll(cs[..i + 1], changes, t);
            if one.Ok? then r == Ok(before + [one.value]) else r == Err(one.reason)
  {
    assert cs[..i + 1][..i] == cs[..i];
  }

  method RewriteChunks(cs: seq<Chunk>, changes: map<string, string>, t: Tools) returns (r: Result<seq<Chunk>>)
    requires AllReadable(cs, t)
    ensures r == RewrittenAll(cs, changes, t)
  {
    var out, index := cs, 0;
    ghost var done: seq<Chunk> := [];
    assert cs[..0] == [];
    while index < |cs|
      invariant index <= |cs| && |done| == index && out == done + cs[index..]
      invariant RewrittenAll(cs[..index], changes, t) == Ok(done)
    {
      PrefixNext(cs, index, done, changes, t);
      var one := Rewritten(cs[index], changes, t);
      if one.Err? {
        PrefixFails(cs, index + 1, changes, t);
        return Err(one.reason);
      }
      PutNext(done, cs, index, one.value);
      out := out[index := one.value];
      done := done + [one.value];
      index := index + 1;
    }
    assert cs[..|cs|] == cs && out == done;
    r := Ok(out);
  }

  lemma PutNext(done: seq<Chunk>, cs: seq<Chunk>, i: nat, c: Chunk)
    requires i < |cs| && |done| == i
    ensures (done + cs[i..])[i := c] == done + [c] + cs[i + 1..]
  {
  }

  method WritePngChara(raw: Bytes, card: Card, t: Tools) returns (r: Result<Bytes>)
    ensures r == Write(raw, card, t)
  {
    if !(SIGNATURE <= raw) {
      return Err("character file is not a PNG");
    }
    var walked := ReadChunks(raw, t);
    if walked.Err? {
      return Err(walked.reason);
    }
    var chunks := walked.value;
    WalkReadable(raw, 8, t);
    var canonical := Canonical(chunks);
    if canonical == |chunks| {
      return Err("PNG has no SillyTavern chara metadata");
    }
    var original := CardOf(chunks[canonical], t);
    if Conflicting(chunks, original, t) {
      return Err("conflicting PNG character metadata");
    }
    var changes := Changes(original, card, t);
    if |raw| > FILE_MAX {
      return Err("optimized card exceeds the file-size limit");
    }
    if changes == map[] {
      return Ok(raw);
    }
    var rewritten := RewriteChunks(chunks, changes, t);
    if rewritten.Err? {
      return Err(rewritten.reason);
    }
    var result := raw[..8] + RawAll(rewritten.value, t);
    if |result| > FILE_MAX {
      return Err("optimized card exceeds the file-size limit");
    }
    r := Ok(result);
  }

  method ParsePngChara(raw: Bytes, t: Tools) returns (r: Result<Card>)
    ensures r == Parse(raw, t)
  {
    if !(SIGNATURE <= raw) {
      return Err("character file is not a PNG");
    }
    var pos: nat, encoded: Option<Bytes> := 8, None;
    while pos + 12 <= |raw|
      invariant FindChara(raw, 8, t) == FindChara(raw, pos, t)
      decreases |raw| - pos
    {
      var s := SlotAt(raw, pos, t);
      if s.kind == TEXT && CHARA + [0] <= s.data {
        encoded := Some(s.data[6..]);
        break;
      }
      pos := s.end;
    }
    assert encoded == FindChara(raw, 8, t);
    if encoded.None? || encoded.value == [] {
      return Err("PNG has no SillyTavern chara metadata");
    }
    var card := t.lenient(encoded.value);
    if card.None? {
      return Err("decode");
    }
    r := Ok(card.value);
  }

  method ImageFingerprint(raw: Bytes, t: Tools) returns (r: Option<Bytes>)
    ensures r == Fingerprint(raw, t)
  {
    if |raw| > IMAGE_MAX || !(SIGNATURE <= raw) {
      return None;
    }
    var digest, position: nat := EMPTY, 8;
    ghost var whole := FeedFrom(raw, 8, EMPTY, t);
    while position + 12 <= |raw|
      invariant whole == FeedFrom(raw, position, digest, t)
      decreases |raw| - position
    {
      var s := SlotAt(raw, position, t);
      if s.end > |raw| {
        return None;
      }
      digest := Feed(digest, s.kind, s.data);
      position := s.end;
      if s.kind == IEND {
        assert whole == Some(digest);
        return if digest.header && digest.image then Some(digest.fed) else None;
      }
    }
    assert whole == Some(digest);
    r := if digest.header && digest.image then Some(digest.fed) else None;
  }
}
