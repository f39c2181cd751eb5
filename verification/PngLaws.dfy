/** Exactly what the fingerprint hashes, which card is read, and which files are written. */
module PngLaws {
  import opened TextTools
  import opened Png
  import opened PngProofs

  // ---- What the fingerprint hashes ----

  /** The chunks a lenient reader sees from pos on: each lies within the file, the last is IEND or leaves fewer than twelve
      bytes. Checksums are not looked at. */
  predicate Reads(raw: Bytes, pos: nat, cs: seq<Chunk>, t: Tools)
    decreases |cs|
  {
    if cs == [] then pos + 12 > |raw|
    else
      && pos + 12 <= |raw| && SlotAt(raw, pos, t) == Slot(cs[0].kind, cs[0].data, pos + 12 + |cs[0].data|)
      && pos + 12 + |cs[0].data| <= |raw|
      && if cs[0].kind == [0x49, 0x45, 0x4E, 0x44] then |cs| == 1 else Reads(raw, pos + 12 + |cs[0].data|, cs[1..], t)
  }

  predicate HasKind(cs: seq<Chunk>, kind: Bytes) { exists i :: 0 <= i < |cs| && cs[i].kind == kind }

  /** Kind and data of the IHDR, PLTE and IDAT chunks, in order. */
  function ImageBytes(cs: seq<Chunk>): Bytes {
    if cs == [] then []
    else
      var kind := cs[0].kind;
      (if kind == [0x49, 0x48, 0x44, 0x52] || kind == [0x50, 0x4C, 0x54, 0x45] || kind == [0x49, 0x44, 0x41, 0x54]
       then kind + cs[0].data else [])
      + ImageBytes(cs[1..])
  }

  lemma HasKindStep(cs: seq<Chunk>, kind: Bytes)
    requires cs != []
    ensures HasKind(cs, kind) <==> cs[0].kind == kind || HasKind(cs[1..], kind)
  {
    if i :| 0 <= i < |cs| && cs[i].kind == kind && i > 0 {
      assert cs[1..][i - 1].kind == kind;
    }
    if i :| 0 <= i < |cs[1..]| && cs[1..][i].kind == kind {
      assert cs[i + 1].kind == kind;
    }
  }

  /** What a chunk adds to the hash. */
  function ImagePart(c: Chunk): Bytes { if IsImage(c.kind) then c.kind + c.data else [] }

  lemma ImageStep(cs: seq<Chunk>)
    requires cs != []
    ensures ImageBytes(cs) == ImagePart(cs[0]) + ImageBytes(cs[1..])
  {
  }

  lemma FedStep(d: Digest, c: Chunk)
    ensures Feed(d, c.kind, c.data) == Digest(d.fed + ImagePart(c), d.header || c.kind == IHDR, d.image || c.kind == IDAT)
  {
    assert d.fed + (c.kind + c.data) == d.fed + c.kind + c.data && d.fed + [] == d.fed;
  }

  lemma {:induction false} FeedAllIs(d: Digest, cs: seq<Chunk>)
    ensures FeedAll(d, cs) == Digest(d.fed + ImageBytes(cs), d.header || HasKind(cs, IHDR), d.image || HasKind(cs, IDAT))
    decreases |cs|
  {
    if cs != [] {
      FedStep(d, cs[0]);
      FeedAllNext(d, cs, Feed(d, cs[0].kind, cs[0].data));
    } else {
      assert d.fed + [] == d.fed;
    }
  }

  lemma {:induction false} FeedAllNext(d: Digest, cs: seq<Chunk>, next: Digest)
    requires cs != [] && next == Feed(d, cs[0].kind, cs[0].data)
    requires next == Digest(d.fed + ImagePart(cs[0]), d.header || cs[0].kind == IHDR, d.image || cs[0].kind == IDAT)
    ensures FeedAll(d, cs) == Digest(d.fed + ImageBytes(cs), d.header || HasKind(cs, IHDR), d.image || HasKind(cs, IDAT))
    decreases |cs|, 0
  {
    FeedAllIs(next, cs[1..]);
    FeedAllStep(d, cs);
    HasKindStep(cs, IHDR);
    HasKindStep(cs, IDAT);
    ImageStep(cs);
    JoinParts(d.fed, ImagePart(cs[0]), ImageBytes(cs[1..]));
  }

  lemma JoinParts(a: Bytes, b: Bytes, c: Bytes)
    ensures a + b + c == a + (b + c)
  {
  }

  lemma {:induction false} ReadsFeeds(raw: Bytes, pos: nat, cs: seq<Chunk>, d: Digest, t: Tools)
    requires Reads(raw, pos, cs, t)
    ensures FeedFrom(raw, pos, d, t) == Some(FeedAll(d, cs))
    decreases |cs|
  {
    if cs != [] {
      var next := Feed(d, cs[0].kind, cs[0].data);
      FeedStep(raw, pos, SlotAt(raw, pos, t), d, t);
      FeedAllStep(d, cs);
      if cs[0].kind != IEND {
        ReadsFeeds(raw, pos + 12 + |cs[0].data|, cs[1..], next, t);
      }
    }
  }

  lemma {:induction false} FeedsReads(raw: Bytes, pos: nat, d: Digest, t: Tools) returns (cs: seq<Chunk>)
    requires FeedFrom(raw, pos, d, t).Some?
    ensures Reads(raw, pos, cs, t)
    decreases |raw| - pos
  {
    if pos + 12 > |raw| {
      cs := [];
    } else {
      var s := SlotAt(raw, pos, t);
      var rest: seq<Chunk> := [];
      if s.kind != IEND {
        rest := FeedsReads(raw, s.end, Feed(d, s.kind, s.data), t);
      }
      cs := [Chunk(s.kind, s.data)] + rest;
      assert cs[1..] == rest;
    }
  }

  /** The image a file shows: its signature, an IHDR and an IDAT chunk among those a lenient reader sees. */
  predicate Shows(raw: Bytes, cs: seq<Chunk>, t: Tools) {
    && [0x89, 0x50, 0x4E, 0x47, 0x0D, 0x0A, 0x1A, 0x0A] <= raw && Reads(raw, 8, cs, t)
    && HasKind(cs, [0x49, 0x48, 0x44, 0x52]) && HasKind(cs, [0x49, 0x44, 0x41, 0x54])
  }

  lemma ShownIsHashed(raw: Bytes, cs: seq<Chunk>, t: Tools)
    requires Shows(raw, cs, t)
    ensures Hashed(raw, t) == Some(ImageBytes(cs))
  {
    ReadsFeeds(raw, 8, cs, EMPTY, t);
    FeedAllIs(EMPTY, cs);
    assert EMPTY.fed + ImageBytes(cs) == ImageBytes(cs);
  }

  lemma HashedIsShown(raw: Bytes, t: Tools) returns (cs: seq<Chunk>)
    requires Hashed(raw, t).Some?
    ensures Shows(raw, cs, t)
  {
    cs := FeedsReads(raw, 8, EMPTY, t);
    ReadsFeeds(raw, 8, cs, EMPTY, t);
    FeedAllIs(EMPTY, cs);
    assert EMPTY.fed + ImageBytes(cs) == ImageBytes(cs);
  }

  /** A file has a fingerprint exactly when it has at most 8 MiB and shows an image, and then the bytes hashed are the
      kinds and data of its image chunks. */
  lemma FingerprintExactly(raw: Bytes, h: Bytes, t: Tools)
    ensures Fingerprint(raw, t) == Some(h) <==> |raw| <= 8_388_608 && exists cs :: Shows(raw, cs, t) && ImageBytes(cs) == h
  {
    if Fingerprint(raw, t) == Some(h) {
      var cs := HashedIsShown(raw, t);
      ShownIsHashed(raw, cs, t);
    }
    if |raw| <= 8_388_608 {
      if cs :| Shows(raw, cs, t) && ImageBytes(cs) == h {
        ShownIsHashed(raw, cs, t);
      }
    }
  }

  /** Files with one fingerprint have one image. */
  lemma OneFingerprintOneImage(a: Bytes, b: Bytes, cs: seq<Chunk>, ds: seq<Chunk>, t: Tools)
    requires Shows(a, cs, t) && Shows(b, ds, t)
    ensures Hashed(a, t) == Hashed(b, t) <==> ImageBytes(cs) == ImageBytes(ds)
  {
    ShownIsHashed(a, cs, t);
    ShownIsHashed(b, ds, t);
  }

  // ---- Which card is read ----

  /** The chunks up to the first tEXt chunk labelled chara, whose text is e. The last may be cut short by the end of file. */
  predicate Leads(raw: Bytes, pos: nat, cs: seq<Slot>, e: Bytes, t: Tools)
    decreases |cs|
  {
    && cs != [] && pos + 12 <= |raw| && SlotAt(raw, pos, t) == cs[0]
    && if cs[0].kind == [0x74, 0x45, 0x58, 0x74] && [0x63, 0x68, 0x61, 0x72, 0x61, 0] <= cs[0].data
       then |cs| == 1 && cs[0].data == [0x63, 0x68, 0x61, 0x72, 0x61, 0] + e
       else Leads(raw, cs[0].end, cs[1..], e, t)
  }

  lemma {:induction false} LeadsFound(raw: Bytes, pos: nat, cs: seq<Slot>, e: Bytes, t: Tools)
    requires Leads(raw, pos, cs, e, t)
    ensures FindChara(raw, pos, t) == Some(e)
    decreases |cs|
  {
    assert CHARA + [0] == [0x63, 0x68, 0x61, 0x72, 0x61, 0];
    if cs[0].kind == TEXT && CHARA + [0] <= cs[0].data {
      assert cs[0].data[6..] == e;
    } else {
      LeadsFound(raw, cs[0].end, cs[1..], e, t);
    }
  }

  lemma {:induction false} FoundLeads(raw: Bytes, pos: nat, t: Tools) returns (cs: seq<Slot>)
    requires FindChara(raw, pos, t).Some?
    ensures Leads(raw, pos, cs, FindChara(raw, pos, t).value, t)
    decreases |raw| - pos
  {
    var s := SlotAt(raw, pos, t);
    assert CHARA + [0] == [0x63, 0x68, 0x61, 0x72, 0x61, 0];
    if s.kind == TEXT && CHARA + [0] <= s.data {
      cs := [s];
      assert s.data == CHARA + [0] + s.data[6..];
    } else {
      var rest := FoundLeads(raw, s.end, t);
      cs := [s] + rest;
      assert cs[1..] == rest;
    }
  }

  /** The file's card text is e. */
  predicate Tells(raw: Bytes, cs: seq<Slot>, e: Bytes, t: Tools) {
    [0x89, 0x50, 0x4E, 0x47, 0x0D, 0x0A, 0x1A, 0x0A] <= raw && Leads(raw, 8, cs, e, t)
  }

  /** A card is read exactly from the first tEXt chunk labelled chara, if its text is not empty and decodes. */
  lemma ParsesExactly(raw: Bytes, card: Card, t: Tools)
    ensures Parse(raw, t) == Ok(card) <==> exists cs, e :: Tells(raw, cs, e, t) && e != [] && t.lenient(e) == Some(card)
  {
    if Parse(raw, t) == Ok(card) {
      var cs := FoundLeads(raw, 8, t);
      assert Tells(raw, cs, FindChara(raw, 8, t).value, t);
    }
    if cs, e :| Tells(raw, cs, e, t) && e != [] && t.lenient(e) == Some(card) {
      LeadsFound(raw, 8, cs, e, t);
    }
  }

  // ---- Which files are written ----

  /** The card differs from the original in a field that is not its name. */
  predicate Differs(original: Card, card: Card, key: string, t: Tools) {
    && key in ["description", "personality", "scenario", "first_mes", "mes_example", "system_prompt", "post_history_instructions"]
    && Editable(card, key, t) != Editable(original, key, t)
  }

  /** Both cards show the same name and fields. */
  ghost predicate Agree(a: Card, b: Card, t: Tools) {
    Editable(a, "name", t) == Editable(b, "name", t) && forall key :: !Differs(a, b, key, t)
  }

  lemma AgreeExactly(a: Card, b: Card, t: Tools)
    ensures SameEditable(a, b, t) <==> Agree(a, b, t)
  {
    if SameEditable(a, b, t) {
      forall key | key in FIELDS ensures Editable(a, key, t) == Editable(b, key, t) {
        var k :| 0 <= k < |FIELDS| && FIELDS[k] == key;
      }
    }
    if Agree(a, b, t) {
      forall k | 0 <= k < |FIELDS| ensures Editable(a, FIELDS[k], t) == Editable(b, FIELDS[k], t) {
        assert !Differs(a, b, FIELDS[k], t);
      }
    }
  }

  /** The card with the new texts merged in can be written as one chunk. */
  predicate Encodes(c: Chunk, changes: map<string, string>, t: Tools)
    requires Readable(c, t) && IsMetadata(c)
  {
    var merged := Merged(CardOf(c, t), changes);
    merged.Ok? && t.encode(merged.value).Some? && |Label(c.data)| + 1 + |t.encode(merged.value).value| < 0x1_0000_0000
  }

  predicate AllEncode(cs: seq<Chunk>, changes: map<string, string>, t: Tools)
    requires AllReadable(cs, t)
  {
    forall i :: 0 <= i < |cs| && IsMetadata(cs[i]) ==> Encodes(cs[i], changes, t)
  }

  ghost predicate AllAgree(cs: seq<Chunk>, original: Card, t: Tools)
    requires AllReadable(cs, t)
  {
    forall i :: 0 <= i < |cs| && IsMetadata(cs[i]) ==> Agree(CardOf(cs[i], t), original, t)
  }

  /** A file that can be rewritten: all its metadata agrees, and if a field changes, every new card fits. */
  ghost predicate Writable(raw: Bytes, cs: seq<Chunk>, card: Card, t: Tools) {
    && File(raw, cs, t) && |raw| <= 10_485_760 && AllAgree(cs, Original(cs, t), t)
    && ((exists key :: Differs(Original(cs, t), card, key, t)) ==>
          && AllEncode(cs, Changes(Original(cs, t), card, t), t)
          && |raw| + Added(cs, card, t) <= 10_485_760)
  }

  /** Merging is refused exactly for a text of more than 20,000 characters. */
  lemma MergesExactly(card: Card, changes: map<string, string>)
    ensures Merged(card, changes).Ok? <==> forall k :: k in changes ==> |changes[k]| <= 20_000
  {
  }

  lemma ChangesExactly(original: Card, card: Card, t: Tools)
    ensures Changes(original, card, t) != map[] <==> exists key :: Differs(original, card, key, t)
    ensures forall key :: key in Changes(original, card, t) <==> Differs(original, card, key, t)
    ensures forall key :: Differs(original, card, key, t) ==> Changes(original, card, t)[key] == Editable(card, key, t)
  {
    var changes := Changes(original, card, t);
    if changes != map[] {
      var key :| key in changes;
      assert Differs(original, card, key, t);
    }
  }

  lemma ConflictsExactly(cs: seq<Chunk>, original: Card, t: Tools)
    requires AllReadable(cs, t)
    ensures !Conflicting(cs, original, t) <==> AllAgree(cs, original, t)
  {
    forall i | 0 <= i < |cs| && IsMetadata(cs[i])
      ensures SameEditable(CardOf(cs[i], t), original, t) <==> Agree(CardOf(cs[i], t), original, t)
    {
      AgreeExactly(CardOf(cs[i], t), original, t);
    }
  }

  lemma RewritesExactly(c: Chunk, changes: map<string, string>, t: Tools)
    requires Readable(c, t)
    ensures Rewritten(c, changes, t).Ok? <==> !IsMetadata(c) || Encodes(c, changes, t)
  {
  }

  lemma {:induction false} RewritesAllExactly(cs: seq<Chunk>, changes: map<string, string>, t: Tools)
    requires AllReadable(cs, t)
    ensures RewrittenAll(cs, changes, t).Ok? <==> AllEncode(cs, changes, t)
    decreases |cs|
  {
    if cs != [] {
      var last := |cs| - 1;
      RewritesAllExactly(cs[..last], changes, t);
      RewritesExactly(cs[last], changes, t);
      AllEncodeStep(cs, changes, t);
    }
  }

  lemma AllEncodeStep(cs: seq<Chunk>, changes: map<string, string>, t: Tools)
    requires cs != [] && AllReadable(cs, t)
    ensures var last := |cs| - 1;
            AllEncode(cs, changes, t)
            <==> AllEncode(cs[..last], changes, t) && (IsMetadata(cs[last]) ==> Encodes(cs[last], changes, t))
  {
    var before := cs[..|cs| - 1];
    forall i | 0 <= i < |before| ensures before[i] == cs[i] {
    }
    if AllEncode(cs, changes, t) {
      forall i | 0 <= i < |before| && IsMetadata(before[i]) ensures Encodes(before[i], changes, t) {
        assert Encodes(cs[i], changes, t);
      }
    }
  }

  /** What Write decides for a file whose chunks are known. */
  lemma WriteDecides(raw: Bytes, cs: seq<Chunk>, original: Card, changes: map<string, string>, card: Card, t: Tools)
    requires SIGNATURE <= raw && Walk(raw, 8, t) == Ok(cs) && AllReadable(cs, t) && Canonical(cs) < |cs|
    requires original == Original(cs, t) && changes == Changes(original, card, t)
    ensures Write(raw, card, t).Ok? <==>
              && !Conflicting(cs, original, t) && |raw| <= FILE_MAX
              && (changes == map[]
                  || (RewrittenAll(cs, changes, t).Ok? && |raw[..8] + RawAll(RewrittenAll(cs, changes, t).value, t)| <= FILE_MAX))
  {
  }

  lemma RewrittenSize(raw: Bytes, cs: seq<Chunk>, card: Card, changes: map<string, string>, t: Tools)
    requires Sound(t) && File(raw, cs, t) && changes == Changes(Original(cs, t), card, t)
    ensures changes != map[] && RewrittenAll(cs, changes, t).Ok?
            ==> |raw[..8] + RawAll(RewrittenAll(cs, changes, t).value, t)| == |raw| + Added(cs, card, t)
  {
    if changes != map[] && RewrittenAll(cs, changes, t).Ok? {
      RewrittenLength(raw, cs, RewrittenAll(cs, changes, t).value, changes, t);
    }
  }

  lemma WritesFile(raw: Bytes, cs: seq<Chunk>, card: Card, t: Tools)
    requires Sound(t) && File(raw, cs, t)
    ensures Write(raw, card, t).Ok? <==> Writable(raw, cs, card, t)
  {
    var original := Original(cs, t);
    var changes := Changes(original, card, t);
    WalkOfChunks(raw, 8, cs, t);
    ConflictsExactly(cs, original, t);
    ChangesExactly(original, card, t);
    RewritesAllExactly(cs, changes, t);
    WriteDecides(raw, cs, original, changes, card, t);
    RewrittenSize(raw, cs, card, changes, t);
  }

  /** A rewrite is accepted exactly when the file is a well-formed PNG of at most 10 MiB with character metadata that agrees,
      and any new text merges, encodes and keeps it within 10 MiB. */
  lemma WritesExactly(raw: Bytes, card: Card, t: Tools)
    requires Sound(t)
    ensures Write(raw, card, t).Ok? <==> exists cs :: Writable(raw, cs, card, t)
  {
    if Write(raw, card, t).Ok? {
      var cs, out, changes := WrittenChunks(raw, card, t);
      WritesFile(raw, cs, card, t);
    }
    if cs :| Writable(raw, cs, card, t) {
      WritesFile(raw, cs, card, t);
    }
  }
}
