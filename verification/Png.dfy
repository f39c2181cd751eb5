/** Character metadata in PNG files: character_quality.py (273-364), card_content.py (24-39), character_identity.py (17-45).
    Chunks are laid out as in section 5.3, Chunk layout, of the W3C PNG specification. */
module Png {
  import opened TextTools

  datatype Result<+T> = Ok(value: T) | Err(reason: string)

  type Bytes = seq<bv8>

  const WORD: nat := 0x1_0000_0000

  const SIGNATURE: Bytes := [0x89, 0x50, 0x4E, 0x47, 0x0D, 0x0A, 0x1A, 0x0A]
  const TEXT: Bytes := [0x74, 0x45, 0x58, 0x74]
  const IEND: Bytes := [0x49, 0x45, 0x4E, 0x44]
  const IHDR: Bytes := [0x49, 0x48, 0x44, 0x52]
  const PLTE: Bytes := [0x50, 0x4C, 0x54, 0x45]
  const IDAT: Bytes := [0x49, 0x44, 0x41, 0x54]
  const CHARA: Bytes := [0x63, 0x68, 0x61, 0x72, 0x61]
  const CCV3: Bytes := [0x63, 0x63, 0x76, 0x33]

  const FIELD_MAX: nat := 20000
  const FILE_MAX: nat := 10 * 1024 * 1024
  const IMAGE_MAX: nat := 8 * 1024 * 1024

  // ---- Cards ----

  datatype Json = Null | Bool(b: bool) | Num(n: int) | Str(s: string) | List(items: seq<Json>) | Obj(fields: map<string, Json>)

  type Card = map<string, Json>

  /** struct's ">I" both ways, CRC-32, str() of a JSON value, and base64 over UTF-8 JSON: written, read strictly and
      read leniently. */
  datatype Tools = Tools(pack: nat -> Bytes, unpack: Bytes -> nat, crc: Bytes -> nat, show: Json -> string,
                         encode: Card -> Option<Bytes>, strict: Bytes -> Option<Card>, lenient: Bytes -> Option<Card>)

  predicate NumberKept(n: nat, t: Tools) { n < WORD ==> |t.pack(n)| == 4 && t.unpack(t.pack(n)) == n }

  predicate BytesKept(b: Bytes, t: Tools) { |b| == 4 ==> t.unpack(b) < WORD && t.pack(t.unpack(b)) == b }

  predicate CheckBounded(b: Bytes, t: Tools) { t.crc(b) < WORD }

  /** Four bytes and their number determine each other, and a checksum is such a number. */
  ghost predicate Words(t: Tools) {
    && (forall n: nat :: NumberKept(n, t))
    && (forall b: Bytes :: BytesKept(b, t))
    && (forall b: Bytes :: CheckBounded(b, t))
  }

  predicate CardKept(card: Card, t: Tools) { t.encode(card).Some? ==> t.strict(t.encode(card).value) == Some(card) }

  predicate StrictAgrees(b: Bytes, t: Tools) { t.strict(b).Some? ==> b != [] && t.lenient(b) == t.strict(b) }

  predicate ShowsTruthy(v: Json, t: Tools) { Truthy(v) && !v.Str? ==> t.show(v) != "" }

  /** Reading undoes writing, the strict reader is the lenient one where it accepts, and truthy values show as text. */
  ghost predicate Sound(t: Tools) {
    && Words(t)
    && (forall card: Card :: CardKept(card, t))
    && (forall b: Bytes :: StrictAgrees(b, t))
    && (forall v: Json :: ShowsTruthy(v, t))
  }

  const FIELDS := ["description", "personality", "scenario", "first_mes", "mes_example", "system_prompt",
                   "post_history_instructions"]

  predicate Truthy(v: Json) {
    match v
    case Null => false
    case Bool(b) => b
    case Num(n) => n != 0
    case Str(s) => s != ""
    case List(items) => items != []
    case Obj(fields) => fields != map[]
  }

  predicate Nested(card: Card) { "data" in card && card["data"].Obj? }

  function Container(card: Card): Card {
    if Nested(card) then card["data"].fields else card
  }

  function Text(v: Json, t: Tools): string { if v.Str? then v.s else t.show(v) }

  /** str(container.get(key) or card.get(key) or ""). */
  function Editable(card: Card, key: string, t: Tools): string {
    var c := Container(card);
    if key in c && Truthy(c[key]) then Text(c[key], t)
    else if key in card && Truthy(card[key]) then Text(card[key], t)
    else ""
  }

  predicate SameEditable(a: Card, b: Card, t: Tools) {
    Editable(a, "name", t) == Editable(b, "name", t)
    && forall k :: 0 <= k < |FIELDS| ==> Editable(a, FIELDS[k], t) == Editable(b, FIELDS[k], t)
  }

  /** The fields whose text differs, with their new text. */
  function Changes(old_: Card, new_: Card, t: Tools): map<string, string> {
    map k | k in FIELDS && Editable(new_, k, t) != Editable(old_, k, t) :: Editable(new_, k, t)
  }

  function WithFields(c: Card, changes: map<string, string>): Card {
    c + map k | k in changes :: Str(changes[k])
  }

  function Merged(card: Card, changes: map<string, string>): Result<Card> {
    if exists k :: k in changes && |changes[k]| > FIELD_MAX then Err("optimized field exceeds its character limit")
    else if Nested(card) then Ok(card["data" := Obj(WithFields(card["data"].fields, changes))])
    else Ok(WithFields(card, changes))
  }

  // ---- Chunks ----

  datatype Chunk = Chunk(kind: Bytes, data: Bytes)
  {
    predicate Valid() { |kind| == 4 && |data| < WORD }

    function Raw(t: Tools): Bytes {
      t.pack(|data|) + kind + data + t.pack(t.crc(kind + data))
    }
  }

  predicate AllValid(cs: seq<Chunk>) { forall i :: 0 <= i < |cs| ==> cs[i].Valid() }

  function RawAll(cs: seq<Chunk>, t: Tools): Bytes {
    if cs == [] then [] else cs[0].Raw(t) + RawAll(cs[1..], t)
  }

  // ---- Metadata chunks ----

  function Until(data: Bytes, i: nat): (k: nat)
    requires i <= |data|
    ensures i <= k <= |data| && (k < |data| ==> data[k] == 0) && forall j :: i <= j < k ==> data[j] != 0
    decreases |data| - i
  {
    if i == |data| || data[i] == 0 then i else Until(data, i + 1)
  }

  predicate Labelled(data: Bytes) {
    var k := Until(data, 0);
    k < |data| && (data[..k] == CHARA || data[..k] == CCV3)
  }

  function Label(data: Bytes): Bytes { data[..Until(data, 0)] }

  function Payload(data: Bytes): Bytes
    requires Labelled(data)
  {
    data[Until(data, 0) + 1..]
  }

  predicate IsMetadata(c: Chunk) { c.kind == TEXT && Labelled(c.data) }

  predicate IsCanonical(c: Chunk) { IsMetadata(c) && Label(c.data) == CHARA }

  predicate Readable(c: Chunk, t: Tools) { IsMetadata(c) ==> t.strict(Payload(c.data)).Some? }

  predicate AllReadable(cs: seq<Chunk>, t: Tools) { forall i :: 0 <= i < |cs| ==> Readable(cs[i], t) }

  function CardOf(c: Chunk, t: Tools): Card
    requires IsMetadata(c) && Readable(c, t)
  {
    t.strict(Payload(c.data)).value
  }

  // ---- Reading chunks ----

  /** Kind, data and end of the chunk at pos as its length word says; the data stops at the end of a short file. */
  datatype Slot = Slot(kind: Bytes, data: Bytes, end: nat)

  function SlotAt(raw: Bytes, pos: nat, t: Tools): (s: Slot)
    requires pos + 12 <= |raw|
    ensures s.end >= pos + 12 && |s.kind| == 4
    ensures s.end <= |raw| ==> s.end == pos + 12 + |s.data|
  {
    var size := t.unpack(raw[pos..pos + 4]);
    var last := if pos + 8 + size <= |raw| then pos + 8 + size else |raw|;
    Slot(raw[pos + 4..pos + 8], raw[pos + 8..last], pos + 12 + size)
  }

  function CheckWord(raw: Bytes, end: nat, t: Tools): nat
    requires 4 <= end <= |raw|
  {
    t.unpack(raw[end - 4..end])
  }

  // ---- write_png_chara_bytes ----

  /** One turn of the loop: the chunk at pos after every check. */
  function Checked(raw: Bytes, pos: nat, t: Tools): (r: Result<Chunk>)
    requires pos < |raw|
    ensures r.Ok? ==> Readable(r.value, t) && pos + 12 + |r.value.data| <= |raw|
  {
    if pos + 12 > |raw| then Err("truncated PNG chunk")
    else
      var s := SlotAt(raw, pos, t);
      if s.end > |raw| then Err("truncated PNG chunk data")
      else
        var c := Chunk(s.kind, s.data);
        if CheckWord(raw, s.end, t) != t.crc(c.kind + c.data) then Err("PNG chunk checksum mismatch")
        else if !Readable(c, t) then Err("invalid PNG character metadata")
        else if c.kind == IEND && c.data != [] then Err("invalid PNG IEND chunk")
        else if c.kind == IEND && s.end != |raw| then Err("unexpected data after PNG end")
        else Ok(c)
  }

  function Prepend(c: Chunk, r: Result<seq<Chunk>>): Result<seq<Chunk>> {
    match r
    case Err(e) => Err(e)
    case Ok(rest) => Ok([c] + rest)
  }

  /** The chunk list of raw from pos on. */
  function Walk(raw: Bytes, pos: nat, t: Tools): Result<seq<Chunk>>
    requires pos <= |raw|
    decreases |raw| - pos
  {
    if pos == |raw| then Ok([])
    else
      match Checked(raw, pos, t)
      case Err(e) => Err(e)
      case Ok(c) => Prepend(c, Walk(raw, pos + 12 + |c.data|, t))
  }

  lemma WalkNext(raw: Bytes, pos: nat, c: Chunk, t: Tools)
    requires pos < |raw| && Checked(raw, pos, t) == Ok(c)
    ensures Walk(raw, pos, t) == Prepend(c, Walk(raw, pos + 12 + |c.data|, t))
  {
  }

  lemma WalkParts(raw: Bytes, pos: nat, cs: seq<Chunk>, t: Tools) returns (c: Chunk, rest: seq<Chunk>)
    requires pos < |raw| && Walk(raw, pos, t) == Ok(cs)
    ensures Checked(raw, pos, t) == Ok(c) && pos + 12 + |c.data| <= |raw| && Readable(c, t)
    ensures Walk(raw, pos + 12 + |c.data|, t) == Ok(rest) && cs == [c] + rest
  {
    c := Checked(raw, pos, t).value;
    rest := Walk(raw, pos + 12 + |c.data|, t).value;
  }

  lemma {:induction false} WalkReadable(raw: Bytes, pos: nat, t: Tools)
    requires pos <= |raw|
    ensures Walk(raw, pos, t).Ok? ==> AllReadable(Walk(raw, pos, t).value, t)
    decreases |raw| - pos
  {
    var r := Walk(raw, pos, t);
    if pos < |raw| && r.Ok? {
      var c, rest := WalkParts(raw, pos, r.value, t);
      WalkReadable(raw, pos + 12 + |c.data|, t);
      ConsReadable(c, rest, t);
    }
  }

  lemma ConsReadable(c: Chunk, rest: seq<Chunk>, t: Tools)
    requires Readable(c, t) && AllReadable(rest, t)
    ensures AllReadable([c] + rest, t)
  {
  }

  /** The index of the first chara chunk, or the number of chunks. */
  function Canonical(cs: seq<Chunk>): (i: nat)
    ensures i <= |cs| && (i < |cs| ==> IsCanonical(cs[i])) && forall j :: 0 <= j < i ==> !IsCanonical(cs[j])
  {
    if cs == [] || IsCanonical(cs[0]) then 0 else 1 + Canonical(cs[1..])
  }

  function TextChunk(keyword: Bytes, card: Card, t: Tools): Result<Chunk> {
    match t.encode(card)
    case None => Err("not encodable")
    case Some(e) =>
      var payload := keyword + [0] + e;
      if |payload| >= WORD then Err("payload too long") else Ok(Chunk(TEXT, payload))
  }

  function Rewritten(c: Chunk, changes: map<string, string>, t: Tools): (r: Result<Chunk>)
    requires Readable(c, t)
    ensures r.Ok? && c.Valid() ==> r.value.Valid()
  {
    if !IsMetadata(c) then Ok(c)
    else
      match Merged(CardOf(c, t), changes)
      case Err(e) => Err(e)
      case Ok(card) => TextChunk(Label(c.data), card, t)
  }

  function RewrittenAll(cs: seq<Chunk>, changes: map<string, string>, t: Tools): (r: Result<seq<Chunk>>)
    requires AllReadable(cs, t)
    ensures r.Ok? ==> |r.value| == |cs|
                      && forall i :: 0 <= i < |cs| ==> Rewritten(cs[i], changes, t) == Ok(r.value[i])
  {
    if cs == [] then Ok([])
    else
      var last := |cs| - 1;
      match RewrittenAll(cs[..last], changes, t)
      case Err(e) => Err(e)
      case Ok(before) =>
        match Rewritten(cs[last], changes, t)
        case Err(e) => Err(e)
        case Ok(c) => Ok(before + [c])
  }

  predicate Conflicting(cs: seq<Chunk>, card: Card, t: Tools)
    requires AllReadable(cs, t)
  {
    exists i :: 0 <= i < |cs| && IsMetadata(cs[i]) && !SameEditable(CardOf(cs[i], t), card, t)
  }

  function Write(raw: Bytes, card: Card, t: Tools): Result<Bytes> {
    if !(SIGNATURE <= raw) then Err("character file is not a PNG")
    else
      match Walk(raw, 8, t)
      case Err(e) => Err(e)
      case Ok(cs) =>
        WalkReadable(raw, 8, t);
        var at := Canonical(cs);
        if at == |cs| then Err("PNG has no SillyTavern chara metadata")
        else
          var original := CardOf(cs[at], t);
          var changes := Changes(original, card, t);
          if Conflicting(cs, original, t) then Err("conflicting PNG character metadata")
          else if |raw| > FILE_MAX then Err("optimized card exceeds the file-size limit")
          else if changes == map[] then Ok(raw)
          else
            match RewrittenAll(cs, changes, t)
            case Err(e) => Err(e)
            case Ok(out) =>
              var result := raw[..8] + RawAll(out, t);
              if |result| > FILE_MAX then Err("optimized card exceeds the file-size limit") else Ok(result)
  }

  // ---- parse_png_chara_bytes ----

  /** The payload of the first tEXt chunk that starts with the chara label. */
  function FindChara(raw: Bytes, pos: nat, t: Tools): Option<Bytes>
    decreases |raw| - pos
  {
    if pos + 12 > |raw| then None
    else
      var s := SlotAt(raw, pos, t);
      if s.kind == TEXT && CHARA + [0] <= s.data then Some(s.data[6..]) else FindChara(raw, s.end, t)
  }

  function Parse(raw: Bytes, t: Tools): Result<Card> {
    if !(SIGNATURE <= raw) then Err("character file is not a PNG")
    else
      match FindChara(raw, 8, t)
      case None => Err("PNG has no SillyTavern chara metadata")
      case Some(e) =>
        if e == [] then Err("PNG has no SillyTavern chara metadata")
        else
          match t.lenient(e)
          case None => Err("decode")
          case Some(card) => Ok(card)
  }

  // ---- character_image_fingerprint ----

  predicate IsImage(kind: Bytes) { kind == IHDR || kind == PLTE || kind == IDAT }

  datatype Digest = Digest(fed: Bytes, header: bool, image: bool)

  function Feed(d: Digest, kind: Bytes, data: Bytes): Digest {
    Digest(if IsImage(kind) then d.fed + kind + data else d.fed, d.header || kind == IHDR, d.image || kind == IDAT)
  }

  /** What has been fed to the hash at the end of the loop, or None for a truncated file. */
  function FeedFrom(raw: Bytes, pos: nat, d: Digest, t: Tools): Option<Digest>
    decreases |raw| - pos
  {
    if pos + 12 > |raw| then Some(d)
    else
      var s := SlotAt(raw, pos, t);
      if s.end > |raw| then None
      else
        var next := Feed(d, s.kind, s.data);
        if s.kind == IEND then Some(next) else FeedFrom(raw, s.end, next, t)
  }

  const EMPTY := Digest([], false, false)

  /** The bytes the fingerprint hashes; None stands for the empty fingerprint. */
  function Hashed(raw: Bytes, t: Tools): Option<Bytes> {
    if !(SIGNATURE <= raw) then None
    else
      match FeedFrom(raw, 8, EMPTY, t)
      case None => None
      case Some(d) => if d.header && d.image then Some(d.fed) else None
  }

  /** The fingerprint of a file: the size limit comes first. */
  function Fingerprint(raw: Bytes, t: Tools): Option<Bytes> {
    if |raw| > IMAGE_MAX then None else Hashed(raw, t)
  }
}
