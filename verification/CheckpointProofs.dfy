/** Remapping a checkpoint moves its references and preserves everything else it means. */
module CheckpointProofs {
  import opened TextTools
  import opened CheckpointRemap

  // ---- The collector returns the rows of the meaning ----

  lemma {:induction false} WalkMeans(v: Json, depth: nat, c: Codec)
    ensures Walk(v, depth, c).Ok? <==> Meaning(v, depth, c).Some?
    ensures Walk(v, depth, c).Ok? ==> Walk(v, depth, c).value == Rows(Meaning(v, depth, c).value) - {0}
    decreases 40 - depth, 2, 0
  {
    if depth <= MAX_DEPTH && IsTree(v) {
      WalkPartsMean(Parts(v), depth, c);
    }
  }

  lemma {:induction false} WalkPartsMean(parts: seq<Field>, depth: nat, c: Codec)
    requires depth <= MAX_DEPTH
    ensures WalkParts(parts, depth, c).Ok? <==> Meanings(parts, depth, c).Some?
    ensures WalkParts(parts, depth, c).Ok? ==> WalkParts(parts, depth, c).value == AllRows(Meanings(parts, depth, c).value) - {0}
    decreases 40 - depth, 1, |parts|
  {
    if parts != [] {
      var n := |parts| - 1;
      WalkPartsMean(parts[..n], depth, c);
      WalkPartMeans(parts[n], depth, c);
      if Meanings(parts, depth, c).Some? {
        var before, kid := Meanings(parts[..n], depth, c).value, PartMeaning(parts[n], depth, c).value;
        assert (before + [kid])[..|before|] == before;
      }
    }
  }

  lemma {:induction false} WalkPartMeans(f: Field, depth: nat, c: Codec)
    requires depth <= MAX_DEPTH
    ensures WalkPart(f, depth, c).Ok? <==> PartMeaning(f, depth, c).Some?
    ensures WalkPart(f, depth, c).Ok? ==> WalkPart(f, depth, c).value == Rows(PartMeaning(f, depth, c).value) - {0}
    decreases 40 - depth, 0, 0
  {
    if IsEvidence(f) {
      if c.loads(f.part.s).Some? {
        WalkMeans(c.loads(f.part.s).value, depth + 1, c);
      }
    } else if !IsReference(f) {
      WalkMeans(f.part, depth + 1, c);
    }
  }

  // ---- Remapping succeeds exactly on covered rows ----

  lemma {:induction false} RemapCovers(v: Json, rowids: map<int, int>, depth: nat, c: Codec)
    requires Meaning(v, depth, c).Some?
    ensures Remap(v, rowids, depth, c).Ok? <==> Rows(Meaning(v, depth, c).value) <= rowids.Keys
    decreases 40 - depth, 2, 0
  {
    if IsTree(v) {
      RemapPartsCover(Parts(v), rowids, depth, c);
    }
  }

  lemma {:induction false} RemapPartsCover(parts: seq<Field>, rowids: map<int, int>, depth: nat, c: Codec)
    requires depth <= MAX_DEPTH && Meanings(parts, depth, c).Some?
    ensures RemapParts(parts, rowids, depth, c).Ok? <==> AllRows(Meanings(parts, depth, c).value) <= rowids.Keys
    decreases 40 - depth, 1, |parts|
  {
    if parts != [] {
      var n := |parts| - 1;
      RemapPartsCover(parts[..n], rowids, depth, c);
      RemapPartCovers(parts[n], rowids, depth, c);
      var before, kid := Meanings(parts[..n], depth, c).value, PartMeaning(parts[n], depth, c).value;
      assert (before + [kid])[..|before|] == before;
    }
  }

  lemma {:induction false} RemapPartCovers(f: Field, rowids: map<int, int>, depth: nat, c: Codec)
    requires depth <= MAX_DEPTH && PartMeaning(f, depth, c).Some?
    ensures RemapPart(f, rowids, depth, c).Ok? <==> Rows(PartMeaning(f, depth, c).value) <= rowids.Keys
    decreases 40 - depth, 0, 0
  {
    if IsEvidence(f) {
      RemapCovers(c.loads(f.part.s).value, rowids, depth + 1, c);
    } else if !IsReference(f) {
      RemapCovers(f.part, rowids, depth + 1, c);
    }
  }

  // ---- Remapping moves the meaning ----

  predicate Natural(rowids: map<int, int>) { forall n :: n in rowids ==> rowids[n] >= 0 }

  lemma {:induction false} RemapKind(v: Json, rowids: map<int, int>, depth: nat, c: Codec)
    requires Remap(v, rowids, depth, c).Ok?
    ensures var out := Remap(v, rowids, depth, c).value; if IsTree(v) then out.Arr? == v.Arr? && out.Obj? == v.Obj? else out == v
  {
  }

  function Named(parts: seq<Field>, outs: seq<Json>): (fs: seq<Field>)
    requires |outs| == |parts|
    ensures |fs| == |parts|
  {
    seq(|parts|, i requires 0 <= i < |parts| => Field(parts[i].key, outs[i]))
  }

  lemma RebuiltParts(v: Json, outs: seq<Json>)
    requires IsTree(v) && |outs| == |Parts(v)|
    ensures IsTree(Rebuilt(v, outs)) && Parts(Rebuilt(v, outs)) == Named(Parts(v), outs)
    ensures KeysOf(Rebuilt(v, outs)) == KeysOf(v) && Rebuilt(v, outs).Arr? == v.Arr?
  {
  }

  predicate WellParts(parts: seq<Field>, c: Codec) { forall i :: 0 <= i < |parts| ==> WellFormed(parts[i].part, c) }

  /** A remap gives a value Python has. */
  lemma {:induction false} RemapStaysWell(v: Json, rowids: map<int, int>, depth: nat, c: Codec)
    requires WellFormed(v, c) && Remap(v, rowids, depth, c).Ok?
    ensures WellFormed(Remap(v, rowids, depth, c).value, c)
    decreases 40 - depth, 2, 0
  {
    if IsTree(v) {
      var outs := RemapParts(Parts(v), rowids, depth, c).value;
      RemapPartsStayWell(Parts(v), rowids, depth, c);
      RebuiltIsWell(v, outs, c);
    }
  }

  lemma RebuiltIsWell(v: Json, outs: seq<Json>, c: Codec)
    requires IsTree(v) && WellFormed(v, c) && |outs| == |Parts(v)| && forall i :: 0 <= i < |outs| ==> WellFormed(outs[i], c)
    ensures WellFormed(Rebuilt(v, outs), c)
  {
    if v.Obj? {
      var fields := Rebuilt(v, outs).fields;
      assert forall i :: 0 <= i < |fields| ==> fields[i].key == v.fields[i].key && fields[i].part == outs[i];
    }
  }

  lemma {:induction false} RemapPartsStayWell(parts: seq<Field>, rowids: map<int, int>, depth: nat, c: Codec)
    requires depth <= MAX_DEPTH && WellParts(parts, c) && RemapParts(parts, rowids, depth, c).Ok?
    ensures forall i :: 0 <= i < |parts| ==> WellFormed(RemapParts(parts, rowids, depth, c).value[i], c)
    decreases 40 - depth, 1, |parts|
  {
    if parts != [] {
      var n := |parts| - 1;
      RemapPartsStayWell(parts[..n], rowids, depth, c);
      if !IsReference(parts[n]) && !IsEvidence(parts[n]) {
        RemapStaysWell(parts[n].part, rowids, depth + 1, c);
      }
    }
  }

  lemma EvidenceIsWell(s: string, c: Codec)
    requires Faithful(c) && c.loads(s).Some?
    ensures WellFormed(c.loads(s).value, c)
  {
    assert ReadsWell(s, c);
  }

  /** What the remapped snapshot means is what the original means, row by row sent through the map. */
  lemma {:induction false} RemapMoves(v: Json, rowids: map<int, int>, depth: nat, c: Codec)
    requires Faithful(c) && WellFormed(v, c) && Natural(rowids) && Meaning(v, depth, c).Some? && Remap(v, rowids, depth, c).Ok?
    ensures Meaning(Remap(v, rowids, depth, c).value, depth, c) == Some(Moved(Meaning(v, depth, c).value, rowids))
    decreases 40 - depth, 2, 0
  {
    if IsTree(v) {
      var outs := RemapParts(Parts(v), rowids, depth, c).value;
      RebuiltParts(v, outs);
      RemapPartsMove(Parts(v), rowids, depth, c);
    }
  }

  lemma {:induction false} RemapPartsMove(parts: seq<Field>, rowids: map<int, int>, depth: nat, c: Codec)
    requires Faithful(c) && WellParts(parts, c) && Natural(rowids) && depth <= MAX_DEPTH
    requires Meanings(parts, depth, c).Some? && RemapParts(parts, rowids, depth, c).Ok?
    ensures Meanings(Named(parts, RemapParts(parts, rowids, depth, c).value), depth, c)
            == Some(AllMoved(Meanings(parts, depth, c).value, rowids))
    decreases 40 - depth, 1, |parts|
  {
    if parts != [] {
      var n := |parts| - 1;
      var outs := RemapParts(parts, rowids, depth, c).value;
      RemapPartsMove(parts[..n], rowids, depth, c);
      RemapPartMoves(parts[n], rowids, depth, c);
      assert outs[..n] == RemapParts(parts[..n], rowids, depth, c).value;
      assert Named(parts, outs)[..n] == Named(parts[..n], outs[..n]);
      var before, kid := Meanings(parts[..n], depth, c).value, PartMeaning(parts[n], depth, c).value;
      assert (before + [kid])[..|before|] == before;
    }
  }

  lemma {:induction false} RemapPartMoves(f: Field, rowids: map<int, int>, depth: nat, c: Codec)
    requires Faithful(c) && WellFormed(f.part, c) && Natural(rowids) && depth <= MAX_DEPTH
    requires PartMeaning(f, depth, c).Some? && RemapPart(f, rowids, depth, c).Ok?
    ensures PartMeaning(Field(f.key, RemapPart(f, rowids, depth, c).value), depth, c)
            == Some(Moved(PartMeaning(f, depth, c).value, rowids))
    decreases 40 - depth, 0, 0
  {
    if IsEvidence(f) {
      var v := c.loads(f.part.s).value;
      EvidenceIsWell(f.part.s, c);
      RemapMoves(v, rowids, depth + 1, c);
      RemapStaysWell(v, rowids, depth + 1, c);
      assert KeepsAt(Remap(v, rowids, depth + 1, c).value, c);
    } else if !IsReference(f) {
      RemapKind(f.part, rowids, depth + 1, c);
      RemapMoves(f.part, rowids, depth + 1, c);
    }
  }

  lemma {:induction false} MovedRows(t: Tree, rowids: map<int, int>)
    requires Rows(t) <= rowids.Keys
    ensures Rows(Moved(t, rowids)) == set n | n in Rows(t) :: rowids[n]
    decreases t, 0
  {
    match t
    case Ref(_) =>
    case Leaf(_) =>
    case Node(_, _, kids) => AllMovedRows(kids, rowids);
    case Opened(inner) => MovedRows(inner, rowids);
  }

  lemma {:induction false} AllMovedRows(kids: seq<Tree>, rowids: map<int, int>)
    requires AllRows(kids) <= rowids.Keys
    ensures AllRows(AllMoved(kids, rowids)) == set n | n in AllRows(kids) :: rowids[n]
    decreases kids, 1
  {
    if kids != [] {
      var n := |kids| - 1;
      AllMovedRows(kids[..n], rowids);
      MovedRows(kids[n], rowids);
    }
  }

  // ---- Results ----

  /** After a successful collection, a remap covering the collected ids and zero succeeds at the same depth. */
  lemma RemapSucceeds(v: Json, rowids: map<int, int>, depth: nat, c: Codec)
    requires Walk(v, depth, c).Ok? && Walk(v, depth, c).value + {0} <= rowids.Keys
    ensures Remap(v, rowids, depth, c).Ok?
  {
    WalkMeans(v, depth, c);
    RemapCovers(v, rowids, depth, c);
  }

  /** The remapped snapshot has the same meaning with its rows moved, and its references are exactly their image. */
  lemma RemapPreservesMeaning(v: Json, rowids: map<int, int>, depth: nat, c: Codec)
    requires Faithful(c) && WellFormed(v, c) && Natural(rowids) && Walk(v, depth, c).Ok? && Remap(v, rowids, depth, c).Ok?
    ensures var out := Remap(v, rowids, depth, c).value;
            && Meaning(v, depth, c).Some?
            && Meaning(out, depth, c) == Some(Moved(Meaning(v, depth, c).value, rowids))
            && Rows(Meaning(v, depth, c).value) <= rowids.Keys
            && Walk(out, depth, c) == Ok((set n | n in Rows(Meaning(v, depth, c).value) :: rowids[n]) - {0})
  {
    WalkMeans(v, depth, c);
    RemapCovers(v, rowids, depth, c);
    RemapMoves(v, rowids, depth, c);
    MovedRows(Meaning(v, depth, c).value, rowids);
    WalkMeans(Remap(v, rowids, depth, c).value, depth, c);
  }

  // ---- Composition ----

  function Composed(f: map<int, int>, g: map<int, int>): map<int, int> {
    map n | n in f && f[n] in g :: g[f[n]]
  }

  /** Remapping twice is remapping once through the composed map, down to the text of the evidence. */
  lemma {:induction false} RemapComposes(v: Json, f: map<int, int>, g: map<int, int>, depth: nat, c: Codec)
    requires Faithful(c) && WellFormed(v, c) && Remap(v, f, depth, c).Ok? && Remap(Remap(v, f, depth, c).value, g, depth, c).Ok?
    ensures Remap(v, Composed(f, g), depth, c) == Remap(Remap(v, f, depth, c).value, g, depth, c)
    decreases 40 - depth, 2, 0
  {
    if IsTree(v) {
      var outs := RemapParts(Parts(v), f, depth, c).value;
      RebuiltParts(v, outs);
      RemapPartsCompose(Parts(v), f, g, depth, c);
      RebuiltTwice(v, outs, RemapParts(Named(Parts(v), outs), g, depth, c).value);
    }
  }

  lemma RebuiltTwice(v: Json, outs: seq<Json>, again: seq<Json>)
    requires IsTree(v) && |outs| == |again| == |Parts(v)|
    ensures IsTree(Rebuilt(v, outs)) && |Parts(Rebuilt(v, outs))| == |again|
    ensures Rebuilt(Rebuilt(v, outs), again) == Rebuilt(v, again)
  {
    if v.Obj? {
      assert Rebuilt(Rebuilt(v, outs), again).fields == Rebuilt(v, again).fields;
    }
  }

  lemma {:induction false} RemapPartsCompose(parts: seq<Field>, f: map<int, int>, g: map<int, int>, depth: nat, c: Codec)
    requires Faithful(c) && WellParts(parts, c) && depth <= MAX_DEPTH && RemapParts(parts, f, depth, c).Ok?
    requires RemapParts(Named(parts, RemapParts(parts, f, depth, c).value), g, depth, c).Ok?
    ensures RemapParts(parts, Composed(f, g), depth, c)
            == RemapParts(Named(parts, RemapParts(parts, f, depth, c).value), g, depth, c)
    decreases 40 - depth, 1, |parts|
  {
    if parts != [] {
      var n := |parts| - 1;
      var outs := RemapParts(parts, f, depth, c).value;
      assert outs[..n] == RemapParts(parts[..n], f, depth, c).value;
      assert Named(parts, outs)[..n] == Named(parts[..n], outs[..n]);
      RemapPartsCompose(parts[..n], f, g, depth, c);
      RemapPartComposes(parts[n], f, g, depth, c);
    }
  }

  lemma {:induction false} RemapPartComposes(p: Field, f: map<int, int>, g: map<int, int>, depth: nat, c: Codec)
    requires Faithful(c) && WellFormed(p.part, c) && depth <= MAX_DEPTH && RemapPart(p, f, depth, c).Ok?
    requires RemapPart(Field(p.key, RemapPart(p, f, depth, c).value), g, depth, c).Ok?
    ensures RemapPart(p, Composed(f, g), depth, c) == RemapPart(Field(p.key, RemapPart(p, f, depth, c).value), g, depth, c)
    decreases 40 - depth, 0, 0
  {
    if IsEvidence(p) {
      var v := c.loads(p.part.s).value;
      EvidenceIsWell(p.part.s, c);
      RemapStaysWell(v, f, depth + 1, c);
      assert KeepsAt(Remap(v, f, depth + 1, c).value, c);
      RemapComposes(v, f, g, depth + 1, c);
    } else if !IsReference(p) {
      RemapKind(p.part, f, depth + 1, c);
      RemapComposes(p.part, f, g, depth + 1, c);
    }
  }
}
