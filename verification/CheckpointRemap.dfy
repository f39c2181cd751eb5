/** Row references in checkpoint snapshots (bridge/checkpoint_remap.py): collecting and remapping them. */
module CheckpointRemap {
  import opened TextTools

  datatype Result<+T> = Ok(value: T) | Err(reason: string)

  datatype Json = Null | Bool(b: bool) | Int(n: int) | Real(text: string) | Str(s: string)
                | Arr(items: seq<Json>) | Obj(fields: seq<Field>)

  datatype Field = Field(key: string, part: Json)

  /** json.dumps and json.loads, and which texts a float has. */
  datatype Codec = Codec(dumps: Json -> string, loads: string -> Option<Json>, isReal: string -> bool)

  predicate OnceEach(fields: seq<Field>) { forall i, j :: 0 <= i < j < |fields| ==> fields[i].key != fields[j].key }

  /** The values Python has: the keys of a dict differ, and a float's text is one. */
  predicate WellFormed(v: Json, c: Codec) {
    match v
    case Real(text) => c.isReal(text)
    case Arr(items) => forall i :: 0 <= i < |items| ==> WellFormed(items[i], c)
    case Obj(fields) => OnceEach(fields) && forall i :: 0 <= i < |fields| ==> WellFormed(fields[i].part, c)
    case _ => true
  }

  predicate KeepsAt(v: Json, c: Codec) { WellFormed(v, c) ==> c.loads(c.dumps(v)) == Some(v) && c.dumps(v) != "" }

  predicate ReadsWell(s: string, c: Codec) { c.loads(s).Some? ==> WellFormed(c.loads(s).value, c) }

  /** Reading gives back what was written, and gives nothing but values Python has. */
  ghost predicate Faithful(c: Codec) { (forall v :: KeepsAt(v, c)) && (forall s :: ReadsWell(s, c)) }

  const ROW_KEYS := {"rowid", "source_rowid", "start_rowid", "end_rowid", "first_seen_rowid", "last_seen_rowid",
                     "updated_rowid", "updated_through_rowid", "covered_until_rowid", "source_start_rowid",
                     "source_end_rowid", "accepted_through_rowid", "accepted_after_rowid", "ready_through_rowid",
                     "through_rowid", "source_revision"}
  const EVIDENCE_KEYS := {"evidence_json", "resolution_evidence_json"}
  const MAX_DEPTH: nat := 32
  const MAX_REFERENCES: nat := 20000

  predicate IsReference(f: Field) { f.key in ROW_KEYS && f.part != Null }

  predicate IsEvidence(f: Field) { !IsReference(f) && f.key in EVIDENCE_KEYS && f.part.Str? && f.part.s != "" }

  predicate IsTree(v: Json) { v.Arr? || v.Obj? }

  /** The parts of a dict with their keys; the items of a list, which no key marks. */
  function Parts(v: Json): seq<Field>
    requires IsTree(v)
  {
    if v.Obj? then v.fields else seq(|v.items|, i requires 0 <= i < |v.items| => Field("", v.items[i]))
  }

  function Rebuilt(v: Json, parts: seq<Json>): Json
    requires IsTree(v) && |parts| == |Parts(v)|
  {
    if v.Arr? then Arr(parts)
    else Obj(seq(|parts|, i requires 0 <= i < |parts| => Field(v.fields[i].key, parts[i])))
  }

  // ---- checkpoint_row_references ----

  function Walk(v: Json, depth: nat, c: Codec): Result<set<int>>
    decreases 40 - depth, 2, 0
  {
    if depth > MAX_DEPTH then Err("Checkpoint nesting exceeds the restoration limit")
    else if IsTree(v) then WalkParts(Parts(v), depth, c)
    else Ok({})
  }

  function WalkParts(parts: seq<Field>, depth: nat, c: Codec): Result<set<int>>
    requires depth <= MAX_DEPTH
    decreases 40 - depth, 1, |parts|
  {
    if parts == [] then Ok({})
    else
      var n := |parts| - 1;
      match WalkParts(parts[..n], depth, c)
      case Err(e) => Err(e)
      case Ok(found) =>
        match WalkPart(parts[n], depth, c)
        case Err(e) => Err(e)
        case Ok(more) => Ok(found + more)
  }

  function WalkPart(f: Field, depth: nat, c: Codec): Result<set<int>>
    requires depth <= MAX_DEPTH
    decreases 40 - depth, 0, 0
  {
    if IsReference(f) then
      if f.part.Int? && f.part.n >= 0 then Ok(if f.part.n != 0 then {f.part.n} else {})
      else Err("Checkpoint contains an invalid transcript reference")
    else if IsEvidence(f) then
      match c.loads(f.part.s)
      case None => Err("json")
      case Some(v) => Walk(v, depth + 1, c)
    else Walk(f.part, depth + 1, c)
  }

  function References(v: Json, c: Codec): Result<set<int>> {
    match Walk(v, 0, c)
    case Err(e) => Err(e)
    case Ok(found) => if |found| > MAX_REFERENCES then Err("Too many checkpoint references") else Ok(found)
  }

  // ---- remap_checkpoint ----

  /** part in rowids and rowids[part]: a bool is found as 0 or 1, no other non-integer is. */
  function Lookup(part: Json, rowids: map<int, int>): Option<int> {
    match part
    case Int(n) => if n in rowids then Some(rowids[n]) else None
    case Bool(b) => var n := if b then 1 else 0; if n in rowids then Some(rowids[n]) else None
    case _ => None
  }

  function Remap(v: Json, rowids: map<int, int>, depth: nat, c: Codec): Result<Json>
    decreases 40 - depth, 2, 0
  {
    if depth > MAX_DEPTH then Err("Checkpoint nesting exceeds the restoration limit")
    else if !IsTree(v) then Ok(v)
    else
      match RemapParts(Parts(v), rowids, depth, c)
      case Err(e) => Err(e)
      case Ok(parts) => Ok(Rebuilt(v, parts))
  }

  function RemapParts(parts: seq<Field>, rowids: map<int, int>, depth: nat, c: Codec): (r: Result<seq<Json>>)
    requires depth <= MAX_DEPTH
    ensures r.Ok? ==> |r.value| == |parts|
    decreases 40 - depth, 1, |parts|
  {
    if parts == [] then Ok([])
    else
      var n := |parts| - 1;
      match RemapParts(parts[..n], rowids, depth, c)
      case Err(e) => Err(e)
      case Ok(before) =>
        match RemapPart(parts[n], rowids, depth, c)
        case Err(e) => Err(e)
        case Ok(part) => Ok(before + [part])
  }

  function RemapPart(f: Field, rowids: map<int, int>, depth: nat, c: Codec): Result<Json>
    requires depth <= MAX_DEPTH
    decreases 40 - depth, 0, 0
  {
    if IsReference(f) then
      match Lookup(f.part, rowids)
      case None => Err("A checkpoint reference is outside its saved transcript")
      case Some(n) => Ok(Int(n))
    else if IsEvidence(f) then
      match c.loads(f.part.s)
      case None => Err("json")
      case Some(v) =>
        match Remap(v, rowids, depth + 1, c)
        case Err(e) => Err(e)
        case Ok(out) => Ok(Str(c.dumps(out)))
    else Remap(f.part, rowids, depth + 1, c)
  }

  // ---- What a snapshot means ----

  /** A snapshot with its references marked and its evidence strings opened. */
  datatype Tree = Ref(row: int) | Leaf(value: Json) | Node(list: bool, keys: seq<string>, kids: seq<Tree>) | Opened(inner: Tree)

  function KeysOf(v: Json): seq<string>
    requires IsTree(v)
  {
    seq(|Parts(v)|, i requires 0 <= i < |Parts(v)| => Parts(v)[i].key)
  }

  /** None for what the collector refuses: too deep, a broken reference or broken evidence. */
  function Meaning(v: Json, depth: nat, c: Codec): Option<Tree>
    decreases 40 - depth, 2, 0
  {
    if depth > MAX_DEPTH then None
    else if !IsTree(v) then Some(Leaf(v))
    else
      match Meanings(Parts(v), depth, c)
      case None => None
      case Some(kids) => Some(Node(v.Arr?, KeysOf(v), kids))
  }

  function Meanings(parts: seq<Field>, depth: nat, c: Codec): Option<seq<Tree>>
    requires depth <= MAX_DEPTH
    decreases 40 - depth, 1, |parts|
  {
    if parts == [] then Some([])
    else
      var n := |parts| - 1;
      match Meanings(parts[..n], depth, c)
      case None => None
      case Some(before) =>
        match PartMeaning(parts[n], depth, c)
        case None => None
        case Some(kid) => Some(before + [kid])
  }

  function PartMeaning(f: Field, depth: nat, c: Codec): Option<Tree>
    requires depth <= MAX_DEPTH
    decreases 40 - depth, 0, 0
  {
    if IsReference(f) then (if f.part.Int? && f.part.n >= 0 then Some(Ref(f.part.n)) else None)
    else if IsEvidence(f) then
      match c.loads(f.part.s)
      case None => None
      case Some(v) =>
        match Meaning(v, depth + 1, c)
        case None => None
        case Some(t) => Some(Opened(t))
    else Meaning(f.part, depth + 1, c)
  }

  /** The rows a meaning refers to, zero included. */
  function Rows(t: Tree): set<int> {
    match t
    case Ref(row) => {row}
    case Leaf(_) => {}
    case Node(_, _, kids) => AllRows(kids)
    case Opened(inner) => Rows(inner)
  }

  function AllRows(kids: seq<Tree>): set<int> {
    if kids == [] then {} else AllRows(kids[..|kids| - 1]) + Rows(kids[|kids| - 1])
  }

  /** The same meaning with every row sent through the map. */
  function Moved(t: Tree, rowids: map<int, int>): Tree {
    match t
    case Ref(row) => Ref(if row in rowids then rowids[row] else row)
    case Leaf(_) => t
    case Node(list, keys, kids) => Node(list, keys, AllMoved(kids, rowids))
    case Opened(inner) => Opened(Moved(inner, rowids))
  }

  function AllMoved(kids: seq<Tree>, rowids: map<int, int>): (out: seq<Tree>)
    ensures |out| == |kids|
  {
    if kids == [] then [] else AllMoved(kids[..|kids| - 1], rowids) + [Moved(kids[|kids| - 1], rowids)]
  }

  // ---- The collecting walk as statements ----

  class Collector {
    var result: set<int>

    constructor ()
      ensures result == {}
    {
      result := {};
    }

    /** walk: adds what it finds; on a failure the set found so far is of no use to anyone. */
    method Visit(item: Json, depth: nat, c: Codec) returns (failure: Option<string>)
      modifies this
      ensures var found := Walk(item, depth, c);
              match found
              case Ok(rows) => failure == None && result == old(result) + rows
              case Err(reason) => failure == Some(reason)
      decreases 40 - depth, 1
    {
      if depth > MAX_DEPTH {
        return Some("Checkpoint nesting exceeds the restoration limit");
      }
      if !IsTree(item) {
        return None;
      }
      var parts, i := Parts(item), 0;
      while i < |parts|
        invariant i <= |parts|
        invariant WalkParts(parts[..i], depth, c).Ok?
        invariant result == old(result) + WalkParts(parts[..i], depth, c).value
      {
        assert parts[..i + 1][..i] == parts[..i];
        failure := VisitPart(parts[i], depth, c);
        if failure.Some? {
          PrefixFails(parts, i + 1, depth, c);
          return;
        }
        i := i + 1;
      }
      assert parts[..|parts|] == parts;
      failure := None;
    }

    method VisitPart(f: Field, depth: nat, c: Codec) returns (failure: Option<string>)
      requires depth <= MAX_DEPTH
      modifies this
      ensures var found := WalkPart(f, depth, c);
              match found
              case Ok(rows) => failure == None && result == old(result) + rows
              case Err(reason) => failure == Some(reason)
      decreases 40 - depth, 0
    {
      if IsReference(f) {
        if !f.part.Int? || f.part.n < 0 {
          return Some("Checkpoint contains an invalid transcript reference");
        }
        if f.part.n != 0 {
          result := result + {f.part.n};
        }
        failure := None;
      } else if IsEvidence(f) {
        var inner := c.loads(f.part.s);
        if inner.None? {
          return Some("json");
        }
        failure := Visit(inner.value, depth + 1, c);
      } else {
        failure := Visit(f.part, depth + 1, c);
      }
    }
  }

  lemma {:induction false} PrefixFails(parts: seq<Field>, i: nat, depth: nat, c: Codec)
    requires depth <= MAX_DEPTH && i <= |parts| && WalkParts(parts[..i], depth, c).Err?
    ensures WalkParts(parts, depth, c) == WalkParts(parts[..i], depth, c)
    decreases |parts|
  {
    if i == |parts| {
      assert parts[..i] == parts;
    } else {
      var n := |parts| - 1;
      assert parts[..n][..i] == parts[..i];
      PrefixFails(parts[..n], i, depth, c);
    }
  }

  method CollectReferences(v: Json, c: Codec) returns (r: Result<set<int>>)
    ensures r == References(v, c)
  {
    var walk := new Collector();
    var failure := walk.Visit(v, 0, c);
    if failure.Some? {
      return Err(failure.value);
    }
    if |walk.result| > MAX_REFERENCES {
      return Err("Too many checkpoint references");
    }
    r := Ok(walk.result);
  }
}
