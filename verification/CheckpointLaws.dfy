/** Which snapshots the collector and the remapping accept, and which rows are collected, said by the paths into a snapshot. */
module CheckpointLaws {
  import opened TextTools
  import opened CheckpointRemap

  // ---- Paths ----

  /** A key under which a transcript row stands. */
  predicate RowKey(key: string) {
    key in {"rowid", "source_rowid", "start_rowid", "end_rowid", "first_seen_rowid", "last_seen_rowid", "updated_rowid",
            "updated_through_rowid", "covered_until_rowid", "source_start_rowid", "source_end_rowid", "accepted_through_rowid",
            "accepted_after_rowid", "ready_through_rowid", "through_rowid", "source_revision"}
  }

  /** A key under which a whole JSON text stands. */
  predicate TextKey(key: string) { key in {"evidence_json", "resolution_evidence_json"} }

  /** What a path leads to: a value, a row, a text that is no JSON, or nothing. */
  datatype Place = Value(v: Json) | Row(part: Json) | Broken | Nowhere

  /** One step down, into what stands under a key; texts are opened. */
  function Hop(f: Field, c: Codec): Place {
    if RowKey(f.key) && f.part != Null then Row(f.part)
    else if TextKey(f.key) && f.part.Str? && f.part.s != "" then
      match c.loads(f.part.s)
      case None => Broken
      case Some(v) => Value(v)
    else Value(f.part)
  }

  function Size(v: Json): nat {
    match v
    case Arr(items) => |items|
    case Obj(fields) => |fields|
    case _ => 0
  }

  /** The ith entry of a dict, or item of a list. */
  function Child(v: Json, i: nat): Field
    requires i < Size(v)
  {
    if v.Arr? then Field("", v.items[i]) else v.fields[i]
  }

  function Follow(v: Json, path: seq<nat>, c: Codec): Place
    decreases |path|, 1
  {
    if path == [] then Value(v)
    else if path[0] >= Size(v) then Nowhere
    else Onward(Child(v, path[0]), path[1..], c)
  }

  function Onward(f: Field, path: seq<nat>, c: Codec): Place
    decreases |path|, 2
  {
    match Hop(f, c)
    case Value(w) => Follow(w, path, c)
    case place => if path == [] then place else Nowhere
  }

  lemma FollowStep(v: Json, i: nat, path: seq<nat>, c: Codec)
    requires i < Size(v)
    ensures Follow(v, [i] + path, c) == Onward(Child(v, i), path, c)
  {
    assert ([i] + path)[1..] == path;
  }

  lemma KeysAre(key: string)
    ensures RowKey(key) <==> key in ROW_KEYS
    ensures TextKey(key) <==> key in EVIDENCE_KEYS
  {
  }

  lemma WalkPartIs(f: Field, depth: nat, c: Codec)
    requires depth <= MAX_DEPTH
    ensures match Hop(f, c)
            case Row(part) =>
              if part.Int? && part.n >= 0 then WalkPart(f, depth, c) == Ok(if part.n != 0 then {part.n} else {})
              else WalkPart(f, depth, c).Err?
            case Value(w) => WalkPart(f, depth, c) == Walk(w, depth + 1, c)
            case _ => WalkPart(f, depth, c).Err?
  {
    KeysAre(f.key);
  }

  lemma RemapPartIs(f: Field, rowids: map<int, int>, depth: nat, c: Codec)
    requires depth <= MAX_DEPTH
    ensures match Hop(f, c)
            case Row(part) => RemapPart(f, rowids, depth, c).Ok? <==> Known(part, rowids)
            case Value(w) => RemapPart(f, rowids, depth, c).Ok? <==> Remap(w, rowids, depth + 1, c).Ok?
            case _ => RemapPart(f, rowids, depth, c).Err?
  {
    KeysAre(f.key);
  }

  // ---- What may stand at the end of a path ----

  /** A row is known to the map: by its number, where a bool counts as zero or one. */
  predicate Known(part: Json, rowids: map<int, int>) {
    || (part.Int? && part.n in rowids)
    || (part == Bool(true) && 1 in rowids) || (part == Bool(false) && 0 in rowids)
  }

  /** Rows are natural numbers, or with a map are known to it; texts are JSON; values are at most 32 levels deep. */
  predicate Fine(p: Place, depth: int, rowids: Option<map<int, int>>) {
    match p
    case Value(_) => depth <= 32
    case Row(part) => if rowids.Some? then Known(part, rowids.value) else part.Int? && part.n >= 0
    case Broken => false
    case Nowhere => true
  }

  predicate FineAt(v: Json, path: seq<nat>, depth: nat, rowids: Option<map<int, int>>, c: Codec) {
    Fine(Follow(v, path, c), depth + |path|, rowids)
  }

  ghost predicate AllFine(v: Json, depth: nat, rowids: Option<map<int, int>>, c: Codec) {
    forall path: seq<nat> :: FineAt(v, path, depth, rowids, c)
  }

  predicate FineBelow(f: Field, path: seq<nat>, depth: nat, rowids: Option<map<int, int>>, c: Codec) {
    Fine(Onward(f, path, c), depth + |path|, rowids)
  }

  ghost predicate PartFine(f: Field, depth: nat, rowids: Option<map<int, int>>, c: Codec) {
    forall path: seq<nat> :: FineBelow(f, path, depth, rowids, c)
  }

  ghost predicate PartsFine(parts: seq<Field>, depth: nat, rowids: Option<map<int, int>>, c: Codec) {
    forall i :: 0 <= i < |parts| ==> PartFine(parts[i], depth, rowids, c)
  }

  /** A value is fine exactly when it is not too deep and all its parts are. */
  lemma FineByParts(v: Json, depth: nat, rowids: Option<map<int, int>>, c: Codec)
    ensures AllFine(v, depth, rowids, c) <==> depth <= 32 && (IsTree(v) ==> PartsFine(Parts(v), depth + 1, rowids, c))
  {
    assert FineAt(v, [], depth, rowids, c) <==> depth <= 32;
    var below := depth + 1;
    if AllFine(v, depth, rowids, c) {
      if IsTree(v) {
        forall i | 0 <= i < |Parts(v)| ensures PartFine(Parts(v)[i], below, rowids, c) {
          forall path: seq<nat> ensures FineBelow(Parts(v)[i], path, below, rowids, c) {
            FollowStep(v, i, path, c);
            assert FineAt(v, [i] + path, depth, rowids, c);
          }
        }
      }
    } else {
      var path: seq<nat> :| !FineAt(v, path, depth, rowids, c);
      if path != [] {
        assert IsTree(v) && path[0] < |Parts(v)|;
        assert !FineBelow(Parts(v)[path[0]], path[1..], below, rowids, c);
        assert !PartFine(Parts(v)[path[0]], below, rowids, c);
      }
    }
  }

  /** A part is fine exactly when what one step leads to is. */
  lemma FinePart(f: Field, depth: nat, rowids: Option<map<int, int>>, c: Codec)
    ensures PartFine(f, depth, rowids, c) <==>
              match Hop(f, c)
              case Value(w) => AllFine(w, depth, rowids, c)
              case place => Fine(place, depth, rowids)
  {
    var place := Hop(f, c);
    if place.Value? {
      forall path: seq<nat> ensures FineBelow(f, path, depth, rowids, c) <==> FineAt(place.v, path, depth, rowids, c) {
      }
    } else {
      assert FineBelow(f, [], depth, rowids, c) <==> Fine(place, depth, rowids);
      forall path: seq<nat> | path != [] ensures FineBelow(f, path, depth, rowids, c) {
      }
    }
  }

  lemma FineLast(parts: seq<Field>, depth: nat, rowids: Option<map<int, int>>, c: Codec)
    requires parts != []
    ensures var n := |parts| - 1;
      PartsFine(parts, depth, rowids, c) <==> PartsFine(parts[..n], depth, rowids, c) && PartFine(parts[n], depth, rowids, c)
  {
    var n := |parts| - 1;
    assert forall i :: 0 <= i < n ==> parts[..n][i] == parts[i];
  }

  // ---- What the collector accepts ----

  lemma {:induction false} WalksExactly(v: Json, depth: nat, c: Codec)
    ensures Walk(v, depth, c).Ok? <==> AllFine(v, depth, None, c)
    decreases 40 - depth, 2, 0
  {
    FineByParts(v, depth, None, c);
    if depth <= 32 && IsTree(v) {
      WalksParts(Parts(v), depth, c);
    }
  }

  lemma {:induction false} WalksParts(parts: seq<Field>, depth: nat, c: Codec)
    requires depth <= 32
    ensures WalkParts(parts, depth, c).Ok? <==> PartsFine(parts, depth + 1, None, c)
    decreases 40 - depth, 1, |parts|
  {
    if parts != [] {
      FineLast(parts, depth + 1, None, c);
      WalksParts(parts[..|parts| - 1], depth, c);
      WalksPart(parts[|parts| - 1], depth, c);
    }
  }

  /** Whether a part is accepted, if it is known whether the value below it is. */
  predicate Accepted(place: Place, below: bool, rowids: Option<map<int, int>>) {
    if place.Value? then below else Fine(place, 0, rowids)
  }

  lemma WalkPartOk(f: Field, depth: nat, place: Place, below: bool, c: Codec)
    requires depth <= 32 && place == Hop(f, c) && (place.Value? ==> below == Walk(place.v, depth + 1, c).Ok?)
    ensures WalkPart(f, depth, c).Ok? <==> Accepted(place, below, None)
  {
    OnwardIsSomewhere(f, c);
    WalkPartIs(f, depth, c);
  }

  lemma OnwardIsSomewhere(f: Field, c: Codec)
    ensures !Hop(f, c).Nowhere?
  {
  }

  lemma FinePartOk(f: Field, depth: nat, place: Place, below: bool, rowids: Option<map<int, int>>, c: Codec)
    requires place == Hop(f, c) && (place.Value? ==> below == AllFine(place.v, depth, rowids, c))
    ensures PartFine(f, depth, rowids, c) <==> Accepted(place, below, rowids)
  {
    FinePart(f, depth, rowids, c);
  }

  lemma WalksPlace(f: Field, depth: nat, place: Place, below: bool, c: Codec)
    requires depth <= 32 && place == Hop(f, c)
    requires place.Value? ==> below == Walk(place.v, depth + 1, c).Ok? && below == AllFine(place.v, depth + 1, None, c)
    ensures WalkPart(f, depth, c).Ok? <==> PartFine(f, depth + 1, None, c)
  {
    FinePartOk(f, depth + 1, place, below, None, c);
    WalkPartOk(f, depth, place, below, c);
  }

  lemma {:induction false} WalksPart(f: Field, depth: nat, c: Codec)
    requires depth <= 32
    ensures WalkPart(f, depth, c).Ok? <==> PartFine(f, depth + 1, None, c)
    decreases 40 - depth, 0, 0
  {
    var place := Hop(f, c);
    var below := false;
    if place.Value? {
      WalksExactly(place.v, depth + 1, c);
      below := Walk(place.v, depth + 1, c).Ok?;
    }
    WalksPlace(f, depth, place, below, c);
  }

  // ---- What it collects ----

  predicate Leads(v: Json, path: seq<nat>, n: int, c: Codec) { Follow(v, path, c) == Row(Int(n)) }

  predicate LeadsOn(f: Field, path: seq<nat>, n: int, c: Codec) { Onward(f, path, c) == Row(Int(n)) }

  /** Some path leads to the row. */
  ghost predicate Mentions(v: Json, n: int, c: Codec) { exists path: seq<nat> :: Leads(v, path, n, c) }

  ghost predicate PartMentions(f: Field, n: int, c: Codec) { exists path: seq<nat> :: LeadsOn(f, path, n, c) }

  ghost predicate PartsMention(parts: seq<Field>, n: int, c: Codec) {
    exists i :: 0 <= i < |parts| && PartMentions(parts[i], n, c)
  }

  lemma MentionedByParts(v: Json, n: int, c: Codec)
    ensures Mentions(v, n, c) <==> IsTree(v) && PartsMention(Parts(v), n, c)
  {
    if Mentions(v, n, c) {
      var path: seq<nat> :| Leads(v, path, n, c);
      assert LeadsOn(Child(v, path[0]), path[1..], n, c);
      assert PartMentions(Parts(v)[path[0]], n, c);
    }
    if IsTree(v) && PartsMention(Parts(v), n, c) {
      var i :| 0 <= i < |Parts(v)| && PartMentions(Parts(v)[i], n, c);
      var path: seq<nat> :| LeadsOn(Parts(v)[i], path, n, c);
      FollowStep(v, i, path, c);
      assert Leads(v, [i] + path, n, c);
    }
  }

  lemma MentionedByPart(f: Field, n: int, c: Codec)
    ensures PartMentions(f, n, c) <==>
              match Hop(f, c)
              case Value(w) => Mentions(w, n, c)
              case place => place == Row(Int(n))
  {
    var place := Hop(f, c);
    if place.Value? {
      forall path: seq<nat> ensures LeadsOn(f, path, n, c) <==> Leads(place.v, path, n, c) {
      }
    } else if place == Row(Int(n)) {
      assert LeadsOn(f, [], n, c);
    }
  }

  lemma MentionedLast(parts: seq<Field>, n: int, c: Codec)
    requires parts != []
    ensures var last := |parts| - 1;
      PartsMention(parts, n, c) <==> PartsMention(parts[..last], n, c) || PartMentions(parts[last], n, c)
  {
    var last := |parts| - 1;
    if PartsMention(parts[..last], n, c) {
      var i :| 0 <= i < last && PartMentions(parts[..last][i], n, c);
      assert PartMentions(parts[i], n, c);
    }
    if PartsMention(parts, n, c) && !PartMentions(parts[last], n, c) {
      var i :| 0 <= i < |parts| && PartMentions(parts[i], n, c);
      assert PartMentions(parts[..last][i], n, c);
    }
  }

  lemma {:induction false} WalkCollects(v: Json, depth: nat, n: int, c: Codec)
    requires Walk(v, depth, c).Ok?
    ensures n in Walk(v, depth, c).value <==> n != 0 && Mentions(v, n, c)
    decreases 40 - depth, 2, 0
  {
    MentionedByParts(v, n, c);
    if IsTree(v) {
      WalkPartsCollect(Parts(v), depth, n, c);
    }
  }

  lemma {:induction false} WalkPartsCollect(parts: seq<Field>, depth: nat, n: int, c: Codec)
    requires depth <= MAX_DEPTH && WalkParts(parts, depth, c).Ok?
    ensures n in WalkParts(parts, depth, c).value <==> n != 0 && PartsMention(parts, n, c)
    decreases 40 - depth, 1, |parts|
  {
    if parts != [] {
      MentionedLast(parts, n, c);
      WalkPartsCollect(parts[..|parts| - 1], depth, n, c);
      WalkPartCollects(parts[|parts| - 1], depth, n, c);
    }
  }

  lemma {:induction false} WalkPartCollects(f: Field, depth: nat, n: int, c: Codec)
    requires depth <= MAX_DEPTH && WalkPart(f, depth, c).Ok?
    ensures n in WalkPart(f, depth, c).value <==> n != 0 && PartMentions(f, n, c)
    decreases 40 - depth, 0, 0
  {
    MentionedByPart(f, n, c);
    WalkPartIs(f, depth, c);
    var place := Hop(f, c);
    if place.Value? {
      WalkCollects(place.v, depth + 1, n, c);
    }
  }

  // ---- What the remapping accepts ----

  lemma {:induction false} RemapsExactly(v: Json, rowids: map<int, int>, depth: nat, c: Codec)
    ensures Remap(v, rowids, depth, c).Ok? <==> AllFine(v, depth, Some(rowids), c)
    decreases 40 - depth, 2, 0
  {
    FineByParts(v, depth, Some(rowids), c);
    if depth <= 32 && IsTree(v) {
      RemapsParts(Parts(v), rowids, depth, c);
    }
  }

  lemma {:induction false} RemapsParts(parts: seq<Field>, rowids: map<int, int>, depth: nat, c: Codec)
    requires depth <= 32
    ensures RemapParts(parts, rowids, depth, c).Ok? <==> PartsFine(parts, depth + 1, Some(rowids), c)
    decreases 40 - depth, 1, |parts|
  {
    if parts != [] {
      FineLast(parts, depth + 1, Some(rowids), c);
      RemapsParts(parts[..|parts| - 1], rowids, depth, c);
      RemapsPart(parts[|parts| - 1], rowids, depth, c);
    }
  }

  lemma RemapsPlace(f: Field, rowids: map<int, int>, depth: nat, place: Place, below: bool, c: Codec)
    requires depth <= 32 && place == Hop(f, c)
    requires place.Value? ==>
               below == Remap(place.v, rowids, depth + 1, c).Ok? && below == AllFine(place.v, depth + 1, Some(rowids), c)
    ensures RemapPart(f, rowids, depth, c).Ok? <==> PartFine(f, depth + 1, Some(rowids), c)
  {
    FinePartOk(f, depth + 1, place, below, Some(rowids), c);
    OnwardIsSomewhere(f, c);
    RemapPartIs(f, rowids, depth, c);
  }

  lemma {:induction false} RemapsPart(f: Field, rowids: map<int, int>, depth: nat, c: Codec)
    requires depth <= 32
    ensures RemapPart(f, rowids, depth, c).Ok? <==> PartFine(f, depth + 1, Some(rowids), c)
    decreases 40 - depth, 0, 0
  {
    var place := Hop(f, c);
    var below := false;
    if place.Value? {
      RemapsExactly(place.v, rowids, depth + 1, c);
      below := Remap(place.v, rowids, depth + 1, c).Ok?;
    }
    RemapsPlace(f, rowids, depth, place, below, c);
  }

  // ---- Results ----

  /** The rows some path leads to, but zero. */
  ghost predicate Collected(v: Json, rows: set<int>, c: Codec) {
    forall n :: n in rows <==> n != 0 && Mentions(v, n, c)
  }

  lemma SameRows(v: Json, a: set<int>, b: set<int>, c: Codec)
    requires Collected(v, b, c)
    ensures Collected(v, a, c) <==> a == b
  {
    if Collected(v, a, c) {
      forall n ensures n in a <==> n in b {
        assert n in a <==> n != 0 && Mentions(v, n, c);
      }
    }
  }

  /** The collector accepts exactly the snapshots in which every path of more than 32 steps ends at a row or nowhere, every
      row reached is a natural number, every text is JSON, and at most 20,000 rows but zero are reached; these it returns. */
  lemma CollectsExactly(v: Json, c: Codec, rows: set<int>)
    ensures References(v, c) == Ok(rows) <==> AllFine(v, 0, None, c) && Collected(v, rows, c) && |rows| <= 20_000
  {
    WalksExactly(v, 0, c);
    if Walk(v, 0, c).Ok? {
      forall n ensures n in Walk(v, 0, c).value <==> n != 0 && Mentions(v, n, c) {
        WalkCollects(v, 0, n, c);
      }
      SameRows(v, rows, Walk(v, 0, c).value, c);
    }
  }
}
