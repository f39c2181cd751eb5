/** The PNG rewrite changes the character metadata and nothing else. */
module PngProofs {
  import opened TextTools
  import opened Png

  // ---- Files are their chunks ----

  /** An IEND chunk is empty and last. */
  predicate EndsWell(cs: seq<Chunk>) {
    forall i :: 0 <= i < |cs| && cs[i].kind == IEND ==> cs[i].data == [] && i == |cs| - 1
  }

  /** What every reader sees at pos is the chunk, with its checksum. */
  predicate Here(raw: Bytes, pos: nat, c: Chunk, t: Tools) {
    var end := pos + 12 + |c.data|;
    && c.Valid() && end <= |raw| && SlotAt(raw, pos, t) == Slot(c.kind, c.data, end)
    && CheckWord(raw, end, t) == t.crc(c.kind + c.data)
  }

  lemma RawLength(c: Chunk, t: Tools)
    requires Words(t) && c.Valid()
    ensures |c.Raw(t)| == |c.data| + 12 && |t.pack(|c.data|)| == 4 && |t.pack(t.crc(c.kind + c.data))| == 4
    ensures t.unpack(t.pack(|c.data|)) == |c.data| && t.unpack(t.pack(t.crc(c.kind + c.data))) == t.crc(c.kind + c.data)
  {
    assert NumberKept(|c.data|, t);
    assert CheckBounded(c.kind + c.data, t) && NumberKept(t.crc(c.kind + c.data), t);
  }

  lemma ChunkAt(pre: Bytes, c: Chunk, post: Bytes, t: Tools)
    requires Words(t) && c.Valid()
    ensures Here(pre + (c.Raw(t) + post), |pre|, c, t)
  {
    var raw := pre + (c.Raw(t) + post);
    var pos, end := |pre|, |pre| + 12 + |c.data|;
    RawLength(c, t);
    assert raw[pos..pos + 4] == t.pack(|c.data|);
    assert raw[pos + 4..pos + 8] == c.kind;
    assert raw[pos + 8..end - 4] == c.data;
    assert raw[end - 4..end] == t.pack(t.crc(c.kind + c.data));
  }

  lemma CheckedHere(raw: Bytes, pos: nat, c: Chunk, t: Tools)
    requires Here(raw, pos, c, t) && Readable(c, t)
    requires c.kind == IEND ==> c.data == [] && pos + 12 == |raw|
    ensures Checked(raw, pos, t) == Ok(c)
  {
  }

  lemma FindStep(raw: Bytes, pos: nat, c: Chunk, t: Tools)
    requires Here(raw, pos, c, t)
    ensures FindChara(raw, pos, t) == if c.kind == TEXT && CHARA + [0] <= c.data then Some(c.data[6..])
                                      else FindChara(raw, pos + 12 + |c.data|, t)
  {
  }

  lemma FeedStep(raw: Bytes, pos: nat, s: Slot, d: Digest, t: Tools)
    requires pos + 12 <= |raw| && s == SlotAt(raw, pos, t) && s.end <= |raw|
    ensures FeedFrom(raw, pos, d, t) == if s.kind == IEND then Some(Feed(d, s.kind, s.data))
                                        else FeedFrom(raw, s.end, Feed(d, s.kind, s.data), t)
  {
  }

  /** From pos on, the file is exactly these chunks. */
  predicate Holds(raw: Bytes, pos: nat, cs: seq<Chunk>, t: Tools)
    decreases |cs|
  {
    if cs == [] then pos == |raw| else Here(raw, pos, cs[0], t) && Holds(raw, pos + 12 + |cs[0].data|, cs[1..], t)
  }

  /** A file that ends with the chunks' bytes shows the first one, and ends with the others' bytes after it. */
  lemma FirstHere(raw: Bytes, pos: nat, cs: seq<Chunk>, t: Tools)
    requires Words(t) && AllValid(cs) && cs != [] && pos <= |raw| && raw[pos..] == RawAll(cs, t)
    ensures Here(raw, pos, cs[0], t) && raw[pos + 12 + |cs[0].data|..] == RawAll(cs[1..], t)
  {
    var c, post := cs[0], RawAll(cs[1..], t);
    RawLength(c, t);
    assert raw == raw[..pos] + (c.Raw(t) + post);
    ChunkAt(raw[..pos], c, post, t);
    assert raw[pos..][|c.Raw(t)|..] == post;
  }

  lemma {:induction false} BytesHold(raw: Bytes, pos: nat, cs: seq<Chunk>, t: Tools)
    requires Words(t) && AllValid(cs) && pos <= |raw| && raw[pos..] == RawAll(cs, t)
    ensures Holds(raw, pos, cs, t)
    decreases |cs|
  {
    if cs != [] {
      FirstHere(raw, pos, cs, t);
      BytesHold(raw, pos + 12 + |cs[0].data|, cs[1..], t);
    } else {
      assert |raw[pos..]| == 0;
    }
  }

  lemma HereBytes(raw: Bytes, pos: nat, c: Chunk, t: Tools)
    requires Words(t) && Here(raw, pos, c, t)
    ensures raw[pos..pos + 12 + |c.data|] == c.Raw(t)
  {
    var end := pos + 12 + |c.data|;
    assert BytesKept(raw[pos..pos + 4], t) && BytesKept(raw[end - 4..end], t);
    assert raw[pos..end] == raw[pos..pos + 4] + raw[pos + 4..pos + 8] + raw[pos + 8..end - 4] + raw[end - 4..end];
  }

  lemma {:induction false} HeldBytes(raw: Bytes, pos: nat, cs: seq<Chunk>, t: Tools)
    requires Words(t) && pos <= |raw| && Holds(raw, pos, cs, t)
    ensures AllValid(cs) && raw[pos..] == RawAll(cs, t)
    decreases |cs|
  {
    if cs != [] {
      var end := pos + 12 + |cs[0].data|;
      HereBytes(raw, pos, cs[0], t);
      HeldBytes(raw, end, cs[1..], t);
      assert raw[pos..] == raw[pos..end] + raw[end..];
    }
  }

  lemma WalkStep(raw: Bytes, pos: nat, cs: seq<Chunk>, t: Tools)
    requires cs != [] && Here(raw, pos, cs[0], t) && Readable(cs[0], t)
    requires cs[0].kind == IEND ==> cs[0].data == [] && pos + 12 == |raw|
    requires Walk(raw, pos + 12 + |cs[0].data|, t) == Ok(cs[1..])
    ensures Walk(raw, pos, t) == Ok(cs)
  {
    CheckedHere(raw, pos, cs[0], t);
    PrependStep(raw, pos, cs[0], cs[1..], t);
    assert cs == [cs[0]] + cs[1..];
  }

  lemma PrependStep(raw: Bytes, pos: nat, c: Chunk, rest: seq<Chunk>, t: Tools)
    requires pos < |raw| && Checked(raw, pos, t) == Ok(c) && Walk(raw, pos + 12 + |c.data|, t) == Ok(rest)
    ensures Walk(raw, pos, t) == Ok([c] + rest)
  {
    WalkNext(raw, pos, c, t);
  }

  lemma {:induction false} WalkOfChunks(raw: Bytes, pos: nat, cs: seq<Chunk>, t: Tools)
    requires pos <= |raw| && Holds(raw, pos, cs, t) && AllReadable(cs, t) && EndsWell(cs)
    ensures Walk(raw, pos, t) == Ok(cs)
    decreases |cs|
  {
    if cs != [] {
      LastEnds(cs);
      WalkOfChunks(raw, pos + 12 + |cs[0].data|, cs[1..], t);
      WalkStep(raw, pos, cs, t);
    }
  }

  lemma LastEnds(cs: seq<Chunk>)
    requires EndsWell(cs) && cs != []
    ensures EndsWell(cs[1..]) && (cs[0].kind == IEND ==> cs[0].data == [] && cs[1..] == [])
  {
  }

  lemma HereChecked(raw: Bytes, pos: nat, t: Tools)
    requires Words(t) && pos < |raw| && Checked(raw, pos, t).Ok?
    ensures Here(raw, pos, Checked(raw, pos, t).value, t)
  {
    assert BytesKept(raw[pos..pos + 4], t);
  }

  lemma ConsEnds(raw: Bytes, pos: nat, c: Chunk, rest: seq<Chunk>, t: Tools)
    requires pos < |raw| && Checked(raw, pos, t) == Ok(c) && EndsWell(rest)
    requires Walk(raw, pos + 12 + |c.data|, t) == Ok(rest)
    ensures EndsWell([c] + rest)
  {
    assert c.kind == IEND ==> c.data == [] && rest == [];
  }

  lemma ConsHolds(raw: Bytes, pos: nat, c: Chunk, rest: seq<Chunk>, t: Tools)
    requires Here(raw, pos, c, t) && Holds(raw, pos + 12 + |c.data|, rest, t)
    ensures Holds(raw, pos, [c] + rest, t)
  {
    assert ([c] + rest)[1..] == rest;
  }

  lemma {:induction false} ChunksOfWalk(raw: Bytes, pos: nat, t: Tools)
    requires Words(t) && pos <= |raw|
    ensures var r := Walk(raw, pos, t); r.Ok? ==> Holds(raw, pos, r.value, t) && EndsWell(r.value)
    decreases |raw| - pos
  {
    var r := Walk(raw, pos, t);
    if pos < |raw| && r.Ok? {
      var c, rest := WalkParts(raw, pos, r.value, t);
      ChunksOfWalk(raw, pos + 12 + |c.data|, t);
      WalkJoin(raw, pos, c, rest, t);
    }
  }

  lemma WalkJoin(raw: Bytes, pos: nat, c: Chunk, rest: seq<Chunk>, t: Tools)
    requires Words(t) && pos < |raw| && Checked(raw, pos, t) == Ok(c) && Walk(raw, pos + 12 + |c.data|, t) == Ok(rest)
    requires Holds(raw, pos + 12 + |c.data|, rest, t) && EndsWell(rest)
    ensures Holds(raw, pos, [c] + rest, t) && EndsWell([c] + rest)
  {
    HereChecked(raw, pos, t);
    ConsHolds(raw, pos, c, rest, t);
    ConsEnds(raw, pos, c, rest, t);
  }

  // ---- The lenient reader over chunks ----

  lemma CharaPrefix(data: Bytes)
    ensures CHARA + [0] <= data <==> Labelled(data) && Label(data) == CHARA
    ensures CHARA + [0] <= data ==> data[6..] == Payload(data)
  {
    var k := Until(data, 0);
    if CHARA + [0] <= data {
      assert data[..6] == CHARA + [0];
      assert forall j :: 0 <= j < 5 ==> data[j] == CHARA[j];
      assert data[5] == 0;
      assert k == 5;
      assert data[..5] == CHARA;
    }
    if Labelled(data) && Label(data) == CHARA {
      assert k == 5 && data[..6] == data[..5] + [data[5]];
    }
  }

  /** The payload of the first chara chunk. */
  function Found(cs: seq<Chunk>): Option<Bytes> {
    var at := Canonical(cs);
    if at < |cs| then Some(Payload(cs[at].data)) else None
  }

  lemma FoundStep(cs: seq<Chunk>)
    requires cs != []
    ensures Found(cs) == if IsCanonical(cs[0]) then Some(Payload(cs[0].data)) else Found(cs[1..])
  {
  }

  lemma {:induction false} FindOfChunks(raw: Bytes, pos: nat, cs: seq<Chunk>, t: Tools)
    requires pos <= |raw| && Holds(raw, pos, cs, t)
    ensures FindChara(raw, pos, t) == Found(cs)
    decreases |cs|
  {
    if cs != [] {
      FindOfChunks(raw, pos + 12 + |cs[0].data|, cs[1..], t);
      FindJoin(raw, pos, cs, t);
    }
  }

  lemma FindJoin(raw: Bytes, pos: nat, cs: seq<Chunk>, t: Tools)
    requires cs != [] && Here(raw, pos, cs[0], t) && FindChara(raw, pos + 12 + |cs[0].data|, t) == Found(cs[1..])
    ensures FindChara(raw, pos, t) == Found(cs)
  {
    CharaPrefix(cs[0].data);
    FindStep(raw, pos, cs[0], t);
    FoundStep(cs);
  }

  // ---- The fingerprint over chunks ----

  function FeedAll(d: Digest, cs: seq<Chunk>): Digest
    decreases |cs|
  {
    if cs == [] then d else FeedAll(Feed(d, cs[0].kind, cs[0].data), cs[1..])
  }

  lemma {:induction false} FeedOfChunks(raw: Bytes, pos: nat, cs: seq<Chunk>, d: Digest, t: Tools)
    requires pos <= |raw| && Holds(raw, pos, cs, t) && EndsWell(cs)
    ensures FeedFrom(raw, pos, d, t) == Some(FeedAll(d, cs))
    decreases |cs|
  {
    if cs != [] {
      LastEnds(cs);
      FeedOfChunks(raw, pos + 12 + |cs[0].data|, cs[1..], Feed(d, cs[0].kind, cs[0].data), t);
      FeedJoin(raw, pos, cs, d, t);
    }
  }

  lemma FeedAllStep(d: Digest, cs: seq<Chunk>)
    requires cs != []
    ensures var next := Feed(d, cs[0].kind, cs[0].data);
            FeedAll(d, cs) == FeedAll(next, cs[1..]) && (cs[1..] == [] ==> FeedAll(d, cs) == next)
  {
  }

  lemma FeedJoin(raw: Bytes, pos: nat, cs: seq<Chunk>, d: Digest, t: Tools)
    requires cs != [] && Here(raw, pos, cs[0], t) && (cs[0].kind == IEND ==> cs[1..] == [])
    requires var next := Feed(d, cs[0].kind, cs[0].data);
             FeedFrom(raw, pos + 12 + |cs[0].data|, next, t) == Some(FeedAll(next, cs[1..]))
    ensures FeedFrom(raw, pos, d, t) == Some(FeedAll(d, cs))
  {
    FeedStep(raw, pos, SlotAt(raw, pos, t), d, t);
    FeedAllStep(d, cs);
  }

  // ---- What a rewrite leaves ----

  /** Only metadata chunks differ, and those keep their kind and label. */
  predicate SameBut(cs: seq<Chunk>, out: seq<Chunk>) {
    && |out| == |cs|
    && forall i :: 0 <= i < |cs| ==>
         if IsMetadata(cs[i]) then IsMetadata(out[i]) && Label(out[i].data) == Label(cs[i].data) else out[i] == cs[i]
  }

  lemma {:induction false} SameFeed(cs: seq<Chunk>, out: seq<Chunk>, d: Digest)
    requires SameBut(cs, out)
    ensures FeedAll(d, out) == FeedAll(d, cs)
    decreases |cs|
  {
    if cs != [] {
      assert SameBut(cs[1..], out[1..]);
      SameFeed(cs[1..], out[1..], Feed(d, cs[0].kind, cs[0].data));
    }
  }

  lemma {:induction false} SameCanonical(cs: seq<Chunk>, out: seq<Chunk>)
    requires SameBut(cs, out)
    ensures Canonical(out) == Canonical(cs)
    decreases |cs|
  {
    if cs != [] {
      assert SameBut(cs[1..], out[1..]);
      SameCanonical(cs[1..], out[1..]);
    }
  }

  lemma TextChunkFacts(keyword: Bytes, card: Card, t: Tools)
    requires Sound(t) && (keyword == CHARA || keyword == CCV3) && TextChunk(keyword, card, t).Ok?
    ensures var c := TextChunk(keyword, card, t).value;
            && IsMetadata(c) && Label(c.data) == keyword && t.strict(Payload(c.data)) == Some(card)
  {
    assert CardKept(card, t);
    var e := t.encode(card).value;
    var data := keyword + [0] + e;
    assert forall j :: 0 <= j < |keyword| ==> data[j] == keyword[j] && keyword[j] != 0;
    assert data[|keyword|] == 0;
    assert Until(data, 0) == |keyword|;
    assert data[..|keyword|] == keyword && data[|keyword| + 1..] == e;
  }

  /** The card of every metadata chunk is the old one with the changes merged in. */
  predicate MergedAll(cs: seq<Chunk>, out: seq<Chunk>, changes: map<string, string>, t: Tools)
    requires AllReadable(cs, t) && AllReadable(out, t) && SameBut(cs, out)
  {
    forall i :: 0 <= i < |cs| && IsMetadata(cs[i]) ==> Merged(CardOf(cs[i], t), changes) == Ok(CardOf(out[i], t))
  }

  lemma RewrittenFacts(cs: seq<Chunk>, changes: map<string, string>, t: Tools)
    requires Sound(t) && AllValid(cs) && AllReadable(cs, t) && RewrittenAll(cs, changes, t).Ok?
    ensures var out := RewrittenAll(cs, changes, t).value;
            AllValid(out) && SameBut(cs, out) && AllReadable(out, t) && MergedAll(cs, out, changes, t)
  {
    var out := RewrittenAll(cs, changes, t).value;
    forall i | 0 <= i < |cs| && IsMetadata(cs[i])
      ensures IsMetadata(out[i]) && Label(out[i].data) == Label(cs[i].data) && Readable(out[i], t)
      ensures Merged(CardOf(cs[i], t), changes) == Ok(t.strict(Payload(out[i].data)).value)
    {
      assert Rewritten(cs[i], changes, t) == Ok(out[i]);
      TextChunkFacts(Label(cs[i].data), Merged(CardOf(cs[i], t), changes).value, t);
    }
    forall i | 0 <= i < |cs| && !IsMetadata(cs[i]) ensures out[i] == cs[i] {
      assert Rewritten(cs[i], changes, t) == Ok(out[i]);
    }
  }

  lemma NothingToMerge(card: Card)
    ensures Merged(card, map[]) == Ok(card)
  {
    assert WithFields(card, map[]) == card;
    if Nested(card) {
      assert WithFields(card["data"].fields, map[]) == card["data"].fields;
      assert card["data" := card["data"]] == card;
    }
  }

  predicate File(raw: Bytes, cs: seq<Chunk>, t: Tools) {
    && SIGNATURE <= raw && AllValid(cs) && AllReadable(cs, t) && EndsWell(cs) && Canonical(cs) < |cs|
    && Holds(raw, 8, cs, t)
  }

  function Original(cs: seq<Chunk>, t: Tools): Card
    requires AllReadable(cs, t) && Canonical(cs) < |cs|
  {
    CardOf(cs[Canonical(cs)], t)
  }

  lemma SameEnds(cs: seq<Chunk>, out: seq<Chunk>)
    requires SameBut(cs, out) && EndsWell(cs)
    ensures EndsWell(out)
  {
  }

  /** The output is the input's signature and chunks, with the changes merged into each metadata card. */
  lemma WrittenChunks(raw: Bytes, card: Card, t: Tools) returns (cs: seq<Chunk>, out: seq<Chunk>, changes: map<string, string>)
    requires Sound(t) && Write(raw, card, t).Ok?
    ensures File(raw, cs, t) && File(Write(raw, card, t).value, out, t)
    ensures SameBut(cs, out) && changes == Changes(Original(cs, t), card, t) && MergedAll(cs, out, changes, t)
    ensures !Conflicting(cs, Original(cs, t), t) && Walk(raw, 8, t) == Ok(cs)
  {
    cs := Walk(raw, 8, t).value;
    WalkReadable(raw, 8, t);
    ChunksOfWalk(raw, 8, t);
    HeldBytes(raw, 8, cs, t);
    changes := Changes(Original(cs, t), card, t);
    if changes == map[] {
      out := cs;
      forall i | 0 <= i < |cs| && IsMetadata(cs[i]) ensures Merged(CardOf(cs[i], t), changes) == Ok(CardOf(out[i], t)) {
        NothingToMerge(CardOf(cs[i], t));
      }
    } else {
      out := RewrittenAll(cs, changes, t).value;
      RewrittenFacts(cs, changes, t);
      SameEnds(cs, out);
      SameCanonical(cs, out);
      var result := raw[..8] + RawAll(out, t);
      assert result[8..] == RawAll(out, t);
      BytesHold(result, 8, out, t);
    }
  }

  /** The output has the same chunks in the same places, read by the same walk, with only metadata cards changed. */
  lemma WriteKeepsChunks(raw: Bytes, card: Card, t: Tools) returns (cs: seq<Chunk>, out: seq<Chunk>)
    requires Sound(t) && Write(raw, card, t).Ok?
    ensures SIGNATURE <= raw && Walk(raw, 8, t) == Ok(cs)
    ensures SIGNATURE <= Write(raw, card, t).value && Walk(Write(raw, card, t).value, 8, t) == Ok(out)
    ensures AllReadable(cs, t) && AllReadable(out, t) && SameBut(cs, out) && Canonical(cs) < |cs|
    ensures MergedAll(cs, out, Changes(Original(cs, t), card, t), t)
  {
    var changes;
    cs, out, changes := WrittenChunks(raw, card, t);
    WalkOfChunks(Write(raw, card, t).value, 8, out, t);
  }

  lemma ParseOfFile(raw: Bytes, cs: seq<Chunk>, t: Tools)
    requires Sound(t) && File(raw, cs, t)
    ensures Parse(raw, t) == Ok(Original(cs, t))
  {
    FindOfChunks(raw, 8, cs, t);
    assert StrictAgrees(Payload(cs[Canonical(cs)].data), t);
  }

  /** Reading the output gives the canonical card with exactly the changes merged in. */
  lemma WriteThenParse(raw: Bytes, card: Card, t: Tools)
    requires Sound(t) && Write(raw, card, t).Ok?
    ensures Parse(raw, t).Ok? && Parse(Write(raw, card, t).value, t)
                                  == Merged(Parse(raw, t).value, Changes(Parse(raw, t).value, card, t))
  {
    var cs, out, changes := WrittenChunks(raw, card, t);
    ParseOfFile(raw, cs, t);
    SameCanonical(cs, out);
    ParseOfFile(Write(raw, card, t).value, out, t);
  }

  /** The bytes the fingerprint hashes do not change. */
  lemma WriteKeepsHashedBytes(raw: Bytes, card: Card, t: Tools)
    requires Sound(t) && Write(raw, card, t).Ok?
    ensures Hashed(Write(raw, card, t).value, t) == Hashed(raw, t)
  {
    var cs, out, changes := WrittenChunks(raw, card, t);
    FeedOfChunks(raw, 8, cs, EMPTY, t);
    FeedOfChunks(Write(raw, card, t).value, 8, out, EMPTY, t);
    SameFeed(cs, out, EMPTY);
  }

  // ---- The size of the output ----

  /** How much longer the payload of a metadata chunk gets when the changes are merged into its card. */
  function Growth(c: Chunk, changes: map<string, string>, t: Tools): int
    requires Readable(c, t)
  {
    if !IsMetadata(c) then 0
    else
      match Merged(CardOf(c, t), changes)
      case Err(_) => 0
      case Ok(card) => (if t.encode(card).Some? then |t.encode(card).value| - |Payload(c.data)| else 0)
  }

  function GrowthAll(cs: seq<Chunk>, changes: map<string, string>, t: Tools): int
    requires AllReadable(cs, t)
  {
    if cs == [] then 0 else Growth(cs[0], changes, t) + GrowthAll(cs[1..], changes, t)
  }

  /** What a rewrite adds to a file: the sum over its metadata chunks of new minus old payload length, or nothing when
      no field changes. It is known before anything is written. */
  function Added(cs: seq<Chunk>, card: Card, t: Tools): int
    requires AllReadable(cs, t) && Canonical(cs) < |cs|
  {
    var changes := Changes(Original(cs, t), card, t);
    if changes == map[] then 0 else GrowthAll(cs, changes, t)
  }

  lemma GrowthOf(c: Chunk, out: Chunk, changes: map<string, string>, t: Tools)
    requires Readable(c, t) && Rewritten(c, changes, t) == Ok(out)
    ensures |out.data| == |c.data| + Growth(c, changes, t)
  {
    if IsMetadata(c) {
      var card := Merged(CardOf(c, t), changes).value;
      var e := t.encode(card).value;
      assert out.data == Label(c.data) + [0] + e;
      assert |c.data| == |Label(c.data)| + 1 + |Payload(c.data)|;
    }
  }

  lemma {:induction false} GrowthOfAll(cs: seq<Chunk>, out: seq<Chunk>, changes: map<string, string>, t: Tools)
    requires Words(t) && AllValid(cs) && AllValid(out) && AllReadable(cs, t) && |out| == |cs|
    requires forall i :: 0 <= i < |cs| ==> Rewritten(cs[i], changes, t) == Ok(out[i])
    ensures |RawAll(out, t)| == |RawAll(cs, t)| + GrowthAll(cs, changes, t)
    decreases |cs|
  {
    if cs != [] {
      RawLength(cs[0], t);
      RawLength(out[0], t);
      GrowthOf(cs[0], out[0], changes, t);
      forall i | 0 <= i < |cs[1..]| ensures Rewritten(cs[1..][i], changes, t) == Ok(out[1..][i]) {
        assert Rewritten(cs[i + 1], changes, t) == Ok(out[i + 1]);
      }
      GrowthOfAll(cs[1..], out[1..], changes, t);
    }
  }

  /** The chunks of a file that can be written, as the reader gives them. */
  lemma ReadBeforeWrite(raw: Bytes, card: Card, t: Tools) returns (cs: seq<Chunk>)
    requires Write(raw, card, t).Ok?
    ensures SIGNATURE <= raw && Walk(raw, 8, t) == Ok(cs) && AllReadable(cs, t) && Canonical(cs) < |cs|
  {
    cs := Walk(raw, 8, t).value;
    WalkReadable(raw, 8, t);
  }

  /** What Write returns when it rewrites. */
  lemma WriteRewrites(raw: Bytes, cs: seq<Chunk>, card: Card, t: Tools) returns (out: seq<Chunk>)
    requires Write(raw, card, t).Ok? && SIGNATURE <= raw && Walk(raw, 8, t) == Ok(cs) && AllReadable(cs, t)
    requires Canonical(cs) < |cs| && Changes(Original(cs, t), card, t) != map[]
    ensures RewrittenAll(cs, Changes(Original(cs, t), card, t), t) == Ok(out)
    ensures Write(raw, card, t) == Ok(raw[..8] + RawAll(out, t))
  {
    out := RewrittenAll(cs, Changes(Original(cs, t), card, t), t).value;
  }

  lemma WriteReturns(raw: Bytes, cs: seq<Chunk>, card: Card, t: Tools)
    requires Write(raw, card, t).Ok? && SIGNATURE <= raw && Walk(raw, 8, t) == Ok(cs) && AllReadable(cs, t)
    requires Canonical(cs) < |cs| && Changes(Original(cs, t), card, t) == map[]
    ensures Write(raw, card, t) == Ok(raw)
  {
  }

  lemma RewrittenLength(raw: Bytes, cs: seq<Chunk>, out: seq<Chunk>, changes: map<string, string>, t: Tools)
    requires Sound(t) && SIGNATURE <= raw && Holds(raw, 8, cs, t) && AllReadable(cs, t)
    requires RewrittenAll(cs, changes, t) == Ok(out)
    ensures |raw[..8] + RawAll(out, t)| == |raw| + GrowthAll(cs, changes, t)
  {
    HeldBytes(raw, 8, cs, t);
    RewrittenFacts(cs, changes, t);
    GrowthOfAll(cs, out, changes, t);
  }

  /** The length of the output, before it is written. */
  lemma WrittenLength(raw: Bytes, card: Card, t: Tools) returns (cs: seq<Chunk>)
    requires Sound(t) && Write(raw, card, t).Ok?
    ensures SIGNATURE <= raw && Walk(raw, 8, t) == Ok(cs) && AllReadable(cs, t) && Canonical(cs) < |cs|
    ensures |Write(raw, card, t).value| == |raw| + Added(cs, card, t)
  {
    cs := ReadBeforeWrite(raw, card, t);
    var changes := Changes(Original(cs, t), card, t);
    if changes == map[] {
      WriteReturns(raw, cs, card, t);
    } else {
      var out := WriteRewrites(raw, cs, card, t);
      ChunksOfWalk(raw, 8, t);
      RewrittenLength(raw, cs, out, changes, t);
    }
  }

  /** The file's fingerprint survives exactly when it has none, or the payloads' growth does not take the file across the
      8 MiB image limit, which is below the 10 MiB the writer allows. */
  lemma WriteKeepsFingerprint(raw: Bytes, card: Card, t: Tools) returns (cs: seq<Chunk>)
    requires Sound(t) && Write(raw, card, t).Ok?
    ensures SIGNATURE <= raw && Walk(raw, 8, t) == Ok(cs) && AllReadable(cs, t) && Canonical(cs) < |cs|
    ensures Fingerprint(Write(raw, card, t).value, t) == Fingerprint(raw, t)
            <==> Hashed(raw, t).None? || (|raw| > IMAGE_MAX <==> |raw| + Added(cs, card, t) > IMAGE_MAX)
  {
    cs := WrittenLength(raw, card, t);
    WriteKeepsHashedBytes(raw, card, t);
  }

  // ---- A file that loses its fingerprint ----

  function Described(text: string): Card { map["description" := Str(text)] }

  /** A header, image data of n zero bytes, a chara chunk with payload e, and the end. */
  function PictureChunks(n: nat, e: Bytes): seq<Chunk> {
    [Chunk(IHDR, seq(13, _ => 0)), Chunk(IDAT, seq(n, _ => 0)), Chunk(TEXT, CHARA + [0] + e), Chunk(IEND, [])]
  }

  function Picture(n: nat, e: Bytes, t: Tools): Bytes { SIGNATURE + RawAll(PictureChunks(n, e), t) }

  lemma CharaData(e: Bytes)
    ensures var c := Chunk(TEXT, CHARA + [0] + e); IsCanonical(c) && Payload(c.data) == e
  {
    var data := CHARA + [0] + e;
    assert CHARA + [0] <= data && data[6..] == e;
    CharaPrefix(data);
  }

  lemma PictureLength(n: nat, e: Bytes, t: Tools)
    requires Words(t) && n + |e| + 6 < WORD
    ensures |Picture(n, e, t)| == 8 + 25 + (12 + n) + (18 + |e|) + 12
  {
    var cs := PictureChunks(n, e);
    RawLength(cs[0], t);
    RawLength(cs[1], t);
    RawLength(cs[2], t);
    RawLength(cs[3], t);
    assert RawAll(cs[1..][1..][1..], t) == cs[3].Raw(t) + RawAll([], t);
    assert RawAll(cs[1..][1..], t) == cs[2].Raw(t) + RawAll(cs[1..][1..][1..], t);
    assert RawAll(cs[1..], t) == cs[1].Raw(t) + RawAll(cs[1..][1..], t);
  }

  lemma Kinds()
    ensures TEXT != IHDR && TEXT != IDAT && TEXT != IEND && IEND != IHDR && IEND != IDAT
  {
    assert TEXT[0] != IHDR[0] && TEXT[0] != IDAT[0] && TEXT[0] != IEND[0] && IEND[1] != IHDR[1] && IEND[1] != IDAT[1];
  }

  lemma NotMetadata(n: nat, e: Bytes)
    ensures var cs := PictureChunks(n, e); !IsMetadata(cs[0]) && !IsMetadata(cs[1]) && !IsMetadata(cs[3])
  {
    Kinds();
  }

  lemma CanonicalThird(cs: seq<Chunk>)
    requires |cs| == 4 && !IsCanonical(cs[0]) && !IsCanonical(cs[1]) && IsCanonical(cs[2])
    ensures Canonical(cs) == 2
  {
    assert Canonical(cs) == 1 + Canonical(cs[1..]);
    assert Canonical(cs[1..]) == 1 + Canonical(cs[1..][1..]);
  }

  lemma PictureChunkFacts(n: nat, e: Bytes, t: Tools)
    requires n + |e| + 6 < WORD && t.strict(e).Some?
    ensures var cs := PictureChunks(n, e);
      AllValid(cs) && AllReadable(cs, t) && EndsWell(cs) && Canonical(cs) == 2 && IsCanonical(cs[2]) && Payload(cs[2].data) == e
  {
    var cs := PictureChunks(n, e);
    CharaData(e);
    NotMetadata(n, e);
    Kinds();
    assert Readable(cs[0], t) && Readable(cs[1], t) && Readable(cs[2], t) && Readable(cs[3], t);
    CanonicalThird(cs);
  }

  lemma PictureIsFile(n: nat, e: Bytes, t: Tools)
    requires Sound(t) && n + |e| + 6 < WORD && t.strict(e).Some?
    ensures File(Picture(n, e, t), PictureChunks(n, e), t)
  {
    var cs := PictureChunks(n, e);
    PictureChunkFacts(n, e, t);
    FileOfChunks(cs, t);
  }

  lemma FileOfChunks(cs: seq<Chunk>, t: Tools)
    requires Sound(t) && AllValid(cs) && AllReadable(cs, t) && EndsWell(cs) && Canonical(cs) < |cs|
    ensures File(SIGNATURE + RawAll(cs, t), cs, t)
  {
    var raw := SIGNATURE + RawAll(cs, t);
    assert raw[8..] == RawAll(cs, t);
    BytesHold(raw, 8, cs, t);
  }

  lemma HashedOfChunks(cs: seq<Chunk>, t: Tools)
    requires Sound(t) && File(SIGNATURE + RawAll(cs, t), cs, t)
    requires |cs| >= 2 && cs[0].kind == IHDR && cs[1].kind == IDAT
    ensures Hashed(SIGNATURE + RawAll(cs, t), t).Some?
  {
    FeedOfChunks(SIGNATURE + RawAll(cs, t), 8, cs, EMPTY, t);
    var d1 := Feed(EMPTY, cs[0].kind, cs[0].data);
    FeedKeeps(Feed(d1, cs[1].kind, cs[1].data), cs[1..][1..]);
    FeedAllStep(EMPTY, cs);
    FeedAllStep(d1, cs[1..]);
  }

  lemma {:induction false} FeedKeeps(d: Digest, cs: seq<Chunk>)
    ensures (d.header ==> FeedAll(d, cs).header) && (d.image ==> FeedAll(d, cs).image)
    decreases |cs|
  {
    if cs != [] {
      FeedKeeps(Feed(d, cs[0].kind, cs[0].data), cs[1..]);
    }
  }

  lemma DescribedChanges(a: string, b: string, t: Tools)
    requires a != b && |b| <= FIELD_MAX
    ensures Changes(Described(a), Described(b), t) == map["description" := b]
    ensures Merged(Described(a), map["description" := b]) == Ok(Described(b))
  {
    FieldNames();
    assert FIELDS[0] == "description";
    var changes := Changes(Described(a), Described(b), t);
    forall k | k in FIELDS && k != "description" ensures k !in changes {
      assert k !in Described(a) && k !in Described(b);
    }
    assert Editable(Described(a), "description", t) == a && Editable(Described(b), "description", t) == b;
    assert changes == map["description" := b];
    assert WithFields(Described(a), changes) == Described(b);
  }

  lemma WriteOfChunks(cs: seq<Chunk>, out: seq<Chunk>, card: Card, changes: map<string, string>, t: Tools)
    requires Sound(t) && File(SIGNATURE + RawAll(cs, t), cs, t) && !Conflicting(cs, Original(cs, t), t)
    requires changes == Changes(Original(cs, t), card, t) && changes != map[] && RewrittenAll(cs, changes, t) == Ok(out)
    requires |SIGNATURE + RawAll(cs, t)| <= FILE_MAX && |SIGNATURE + RawAll(out, t)| <= FILE_MAX
    ensures Write(SIGNATURE + RawAll(cs, t), card, t) == Ok(SIGNATURE + RawAll(out, t))
  {
    var raw := SIGNATURE + RawAll(cs, t);
    WalkOfChunks(raw, 8, cs, t);
    assert raw[..8] == SIGNATURE;
  }

  lemma PictureRewritten(n: nat, e: Bytes, f: Bytes, a: string, b: string, t: Tools)
    requires Sound(t) && |b| <= FIELD_MAX && a != b && n + |e| + |f| + 6 < WORD
    requires t.encode(Described(a)) == Some(e) && t.encode(Described(b)) == Some(f) && t.strict(e) == Some(Described(a))
    ensures var cs := PictureChunks(n, e);
      && AllReadable(cs, t) && Canonical(cs) == 2 && Original(cs, t) == Described(a) && !Conflicting(cs, Described(a), t)
      && RewrittenAll(cs, map["description" := b], t) == Ok(PictureChunks(n, f))
  {
    var cs, out, changes := PictureChunks(n, e), PictureChunks(n, f), map["description" := b];
    PictureChunkFacts(n, e, t);
    NotMetadata(n, e);
    DescribedChanges(a, b, t);
    assert Label(cs[2].data) == CHARA;
    assert CHARA + [0] + f == out[2].data;
    assert Rewritten(cs[2], changes, t) == TextChunk(CHARA, Described(b), t) == Ok(out[2]);
    RewrittenPicture(cs, out, changes, t);
  }

  lemma RewriteOneMore(cs: seq<Chunk>, before: seq<Chunk>, c: Chunk, o: Chunk, changes: map<string, string>, t: Tools)
    requires AllReadable(cs, t) && Readable(c, t)
    requires RewrittenAll(cs, changes, t) == Ok(before) && Rewritten(c, changes, t) == Ok(o)
    ensures AllReadable(cs + [c], t) && RewrittenAll(cs + [c], changes, t) == Ok(before + [o])
  {
    assert (cs + [c])[..|cs|] == cs;
  }

  lemma RewrittenPicture(cs: seq<Chunk>, out: seq<Chunk>, changes: map<string, string>, t: Tools)
    requires AllReadable(cs, t) && |cs| == |out| == 4
    requires Rewritten(cs[0], changes, t) == Ok(out[0]) && Rewritten(cs[1], changes, t) == Ok(out[1])
    requires Rewritten(cs[2], changes, t) == Ok(out[2]) && Rewritten(cs[3], changes, t) == Ok(out[3])
    ensures RewrittenAll(cs, changes, t) == Ok(out)
  {
    RewriteOneMore([], [], cs[0], out[0], changes, t);
    RewriteOneMore([] + [cs[0]], [] + [out[0]], cs[1], out[1], changes, t);
    RewriteOneMore([] + [cs[0]] + [cs[1]], [] + [out[0]] + [out[1]], cs[2], out[2], changes, t);
    RewriteOneMore([] + [cs[0]] + [cs[1]] + [cs[2]], [] + [out[0]] + [out[1]] + [out[2]], cs[3], out[3], changes, t);
    assert [] + [cs[0]] + [cs[1]] + [cs[2]] + [cs[3]] == cs;
    assert [] + [out[0]] + [out[1]] + [out[2]] + [out[3]] == out;
  }

  /** The two files as their chunks. */
  lemma PictureParts(n: nat, e: Bytes, f: Bytes, a: string, b: string, t: Tools) returns (cs: seq<Chunk>, out: seq<Chunk>)
    requires Sound(t) && a != b && |b| <= FIELD_MAX && t.encode(Described(a)) == Some(e) && t.encode(Described(b)) == Some(f)
    requires n + |e| + |f| + 75 < WORD
    ensures Picture(n, e, t) == SIGNATURE + RawAll(cs, t) && Picture(n, f, t) == SIGNATURE + RawAll(out, t)
    ensures |SIGNATURE + RawAll(cs, t)| == n + |e| + 75 && |SIGNATURE + RawAll(out, t)| == n + |f| + 75
    ensures File(SIGNATURE + RawAll(cs, t), cs, t) && |cs| >= 2 && cs[0].kind == IHDR && cs[1].kind == IDAT
    ensures Original(cs, t) == Described(a) && !Conflicting(cs, Described(a), t)
    ensures RewrittenAll(cs, map["description" := b], t) == Ok(out)
  {
    cs, out := PictureChunks(n, e), PictureChunks(n, f);
    assert CardKept(Described(a), t);
    PictureLength(n, e, t);
    PictureLength(n, f, t);
    PictureIsFile(n, e, t);
    PictureRewritten(n, e, f, a, b, t);
  }

  /** A picture of exactly 8 MiB whose description is replaced by one that encodes longer: it is written, and its
      fingerprint is gone. */
  lemma FingerprintIsLost(n: nat, a: string, b: string, t: Tools)
    requires Sound(t) && a != b && |b| <= FIELD_MAX && t.encode(Described(a)).Some? && t.encode(Described(b)).Some?
    requires |t.encode(Described(a)).value| < |t.encode(Described(b)).value| <= 1_000_000
    requires n == IMAGE_MAX - 75 - |t.encode(Described(a)).value|
    ensures var raw := Picture(n, t.encode(Described(a)).value, t);
      && |raw| == IMAGE_MAX && Fingerprint(raw, t).Some?
      && Write(raw, Described(b), t).Ok? && Fingerprint(Write(raw, Described(b), t).value, t).None?
  {
    var e, f := t.encode(Described(a)).value, t.encode(Described(b)).value;
    var cs, out := PictureParts(n, e, f, a, b, t);
    HashedOfChunks(cs, t);
    var card := Described(b);
    DescribedChanges(a, b, t);
    WriteOfChunks(cs, out, card, map["description" := b], t);
  }

  // ---- The fields ----

  /** Clearing a nested field uncovers a top-level value under the same key. */
  predicate Uncovers(card: Card, key: string) {
    Nested(card) && key in card && Truthy(card[key])
  }

  lemma FieldNames()
    ensures "data" !in FIELDS && "name" !in FIELDS
  {
  }

  /** How str(first or second or "") reads a key of two cards. */
  function Shown(c: Card, card: Card, key: string, t: Tools): string {
    if key in c && Truthy(c[key]) then Text(c[key], t)
    else if key in card && Truthy(card[key]) then Text(card[key], t)
    else ""
  }

  lemma ShownAfter(c: Card, card: Card, changes: map<string, string>, key: string, t: Tools)
    ensures Shown(WithFields(c, changes), card, key, t)
            == if key !in changes then Shown(c, card, key, t)
               else if changes[key] != "" then changes[key]
               else if key in card && Truthy(card[key]) then Text(card[key], t) else ""
  {
  }

  lemma ShownSame(c: Card, changes: map<string, string>, key: string, t: Tools)
    ensures var after := WithFields(c, changes);
            Shown(after, after, key, t) == if key !in changes then Shown(c, c, key, t) else changes[key]
  {
  }

  lemma EditableAfter(card: Card, changes: map<string, string>, key: string, t: Tools)
    requires Merged(card, changes).Ok? && (key in FIELDS || key == "name") && forall k :: k in changes ==> k in FIELDS
    ensures var after := Merged(card, changes).value;
            Editable(after, key, t)
            == if key !in changes then Editable(card, key, t)
               else if changes[key] == "" && Uncovers(card, key) then Text(card[key], t)
               else changes[key]
  {
    FieldNames();
    if Nested(card) {
      ShownAfter(card["data"].fields, card, changes, key, t);
      var after := Merged(card, changes).value;
      assert Container(after) == WithFields(card["data"].fields, changes);
      assert key in after <==> key in card;
    } else {
      ShownSame(card, changes, key, t);
      assert Container(WithFields(card, changes)) == WithFields(card, changes);
    }
  }

  predicate Lost(original: Card, card: Card, key: string, t: Tools) {
    Editable(card, key, t) == "" && Editable(original, key, t) != "" && Uncovers(original, key)
  }

  lemma ShownText(original: Card, key: string, t: Tools)
    requires Sound(t) && Uncovers(original, key)
    ensures Text(original[key], t) != ""
  {
    assert ShowsTruthy(original[key], t);
  }

  lemma FieldStored(original: Card, card: Card, key: string, t: Tools)
    requires Sound(t) && key in FIELDS && Merged(original, Changes(original, card, t)).Ok?
    ensures Editable(Merged(original, Changes(original, card, t)).value, key, t) == Editable(card, key, t)
            <==> !Lost(original, card, key, t)
  {
    EditableAfter(original, Changes(original, card, t), key, t);
    if Uncovers(original, key) {
      ShownText(original, key, t);
    }
  }

  predicate Stores(stored: Card, card: Card, t: Tools) {
    forall k :: k in FIELDS ==> Editable(stored, k, t) == Editable(card, k, t)
  }

  predicate LosesNothing(original: Card, card: Card, t: Tools) {
    forall k :: k in FIELDS ==> !Lost(original, card, k, t)
  }

  lemma FieldsStored(original: Card, card: Card, t: Tools)
    requires Sound(t) && Merged(original, Changes(original, card, t)).Ok?
    ensures var stored := Merged(original, Changes(original, card, t)).value;
            && Editable(stored, "name", t) == Editable(original, "name", t)
            && (Stores(stored, card, t) <==> LosesNothing(original, card, t))
  {
    EditableAfter(original, Changes(original, card, t), "name", t);
    forall k | k in FIELDS
      ensures Editable(Merged(original, Changes(original, card, t)).value, k, t) == Editable(card, k, t)
              <==> !Lost(original, card, k, t)
    {
      FieldStored(original, card, k, t);
    }
  }

  /** Every requested text is stored exactly when no field is cleared over a top-level value; the name never changes. */
  lemma WriteStoresFields(raw: Bytes, card: Card, t: Tools)
    requires Sound(t) && Write(raw, card, t).Ok?
    ensures var original := Parse(raw, t); var stored := Parse(Write(raw, card, t).value, t);
            && original.Ok? && stored.Ok?
            && Editable(stored.value, "name", t) == Editable(original.value, "name", t)
            && (Stores(stored.value, card, t) <==> LosesNothing(original.value, card, t))
  {
    WriteThenParse(raw, card, t);
    WrittenIsMerged(raw, card, t);
    FieldsStored(Parse(raw, t).value, card, t);
  }

  lemma WrittenIsMerged(raw: Bytes, card: Card, t: Tools)
    requires Sound(t) && Write(raw, card, t).Ok?
    ensures Parse(raw, t).Ok? && Merged(Parse(raw, t).value, Changes(Parse(raw, t).value, card, t)).Ok?
  {
    var cs, out, changes := WrittenChunks(raw, card, t);
    ParseOfFile(raw, cs, t);
  }

  /** A concrete card whose cleared description comes back. */
  lemma ClearedFieldComesBack(t: Tools)
    ensures var card: Card := map["description" := Str("top"), "data" := Obj(map["description" := Str("inner")])];
            && Editable(card, "description", t) == "inner"
            && Merged(card, map["description" := ""]).Ok?
            && Editable(Merged(card, map["description" := ""]).value, "description", t) == "top"
  {
    var card: Card := map["description" := Str("top"), "data" := Obj(map["description" := Str("inner")])];
    assert FIELDS[0] == "description";
    EditableAfter(card, map["description" := ""], "description", t);
  }

  /** All keys of the container other than the changed ones, and all other keys of the card, are as before. */
  lemma MergedTouchesOnlyChanges(card: Card, changes: map<string, string>, key: string)
    requires Merged(card, changes).Ok? && forall k :: k in changes ==> k in FIELDS
    ensures var after := Merged(card, changes).value;
            && Nested(after) == Nested(card)
            && (key !in changes ==> (key in Container(after) <==> key in Container(card))
                                    && (key in Container(card) ==> Container(after)[key] == Container(card)[key]))
            && (key in changes ==> key in Container(after) && Container(after)[key] == Str(changes[key]))
            && (Nested(card) && key != "data" ==> (key in after <==> key in card) && (key in card ==> after[key] == card[key]))
  {
    FieldNames();
  }

  lemma SameAfter(a: Card, b: Card, changes: map<string, string>, t: Tools)
    requires SameEditable(a, b, t) && Merged(a, changes).Ok? && Merged(b, changes).Ok?
    requires forall k :: k in changes ==> k in FIELDS && changes[k] != ""
    ensures SameEditable(Merged(a, changes).value, Merged(b, changes).value, t)
  {
    EditableAfter(a, changes, "name", t);
    EditableAfter(b, changes, "name", t);
    forall k | 0 <= k < |FIELDS|
      ensures Editable(Merged(a, changes).value, FIELDS[k], t) == Editable(Merged(b, changes).value, FIELDS[k], t)
    {
      EditableAfter(a, changes, FIELDS[k], t);
      EditableAfter(b, changes, FIELDS[k], t);
    }
  }

  lemma NoConflictAfter(cs: seq<Chunk>, out: seq<Chunk>, changes: map<string, string>, t: Tools)
    requires AllReadable(cs, t) && AllReadable(out, t) && SameBut(cs, out) && MergedAll(cs, out, changes, t)
    requires Canonical(cs) < |cs| && !Conflicting(cs, Original(cs, t), t)
    requires forall k :: k in changes ==> k in FIELDS && changes[k] != ""
    ensures Canonical(out) < |out| && !Conflicting(out, Original(out, t), t)
  {
    SameCanonical(cs, out);
    var at := Canonical(cs);
    forall i | 0 <= i < |cs| && IsMetadata(cs[i]) ensures SameEditable(CardOf(out[i], t), CardOf(out[at], t), t) {
      SameAfter(CardOf(cs[i], t), CardOf(cs[at], t), changes, t);
    }
  }

  lemma NoChangesLeft(original: Card, card: Card, t: Tools)
    requires var changes := Changes(original, card, t);
             Merged(original, changes).Ok? && forall k :: k in changes ==> changes[k] != ""
    ensures Changes(Merged(original, Changes(original, card, t)).value, card, t) == map[]
  {
    var changes := Changes(original, card, t);
    forall k | k in FIELDS ensures Editable(Merged(original, changes).value, k, t) == Editable(card, k, t) {
      EditableAfter(original, changes, k, t);
    }
  }

  /** A file whose chunks are consistent and need no change is returned as it is. */
  lemma WriteUnchanged(raw: Bytes, cs: seq<Chunk>, card: Card, t: Tools)
    requires File(raw, cs, t) && |raw| <= FILE_MAX
    requires !Conflicting(cs, Original(cs, t), t) && Changes(Original(cs, t), card, t) == map[]
    ensures Write(raw, card, t) == Ok(raw)
  {
    WalkOfChunks(raw, 8, cs, t);
  }

  lemma WrittenFits(raw: Bytes, card: Card, t: Tools)
    requires Write(raw, card, t).Ok?
    ensures |Write(raw, card, t).value| <= FILE_MAX
  {
  }

  /** When no field is cleared, writing the same card again finds a consistent file and changes nothing. */
  lemma WriteIsStable(raw: Bytes, card: Card, t: Tools)
    requires Sound(t) && Write(raw, card, t).Ok? && Parse(raw, t).Ok?
    requires forall k :: k in FIELDS && Editable(card, k, t) == "" ==> Editable(Parse(raw, t).value, k, t) == ""
    ensures Write(Write(raw, card, t).value, card, t) == Write(raw, card, t)
  {
    var cs, out, changes := WrittenChunks(raw, card, t);
    ParseOfFile(raw, cs, t);
    SameCanonical(cs, out);
    NoConflictAfter(cs, out, changes, t);
    NoChangesLeft(Original(cs, t), card, t);
    WrittenFits(raw, card, t);
    WriteUnchanged(Write(raw, card, t).value, out, card, t);
  }
}
