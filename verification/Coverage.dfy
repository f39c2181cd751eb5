/** Source-segment coverage: the interval loop (context_native_receipt.py 107-135, context_hybrid_sources.py 100-126) and
    the streaming loop (context_selection_store.py 47-68). */
module Coverage {
  import opened TextTools

  // ---- The running-offset loop ----

  /** A memory segment as loaded; known says that it exists, is valid and belongs to the reader's scope. */
  datatype Segment = Segment(known: bool, role: string, first: nat, last: nat, start: int, end: int, content: string)

  datatype Row = Row(id: nat, role: string, text: string)

  predicate Reproduces(s: Segment, row: Row) {
    && s.known && s.role == row.role && s.first == row.id && s.last == row.id
    && 0 <= s.start <= s.end <= |row.text|
    && s.content == row.text[s.start..s.end]
  }

  /** One turn of the loop; None is the raised error. */
  function Step(row: Row, offset: nat, s: Segment): Option<nat> {
    if Reproduces(s, row) && s.start <= offset <= |row.text| then Some(if s.end > offset then s.end else offset) else None
  }

  /** The offset after the first n segments. */
  function Offset(row: Row, segs: seq<Segment>, n: nat): Option<nat>
    requires n <= |segs|
  {
    if n == 0 then Some(0)
    else
      match Offset(row, segs, n - 1)
      case None => None
      case Some(offset) => Step(row, offset, segs[n - 1])
  }

  predicate RowProof(row: Row, segs: seq<Segment>) {
    segs != [] && Offset(row, segs, |segs|) == Some(|row.text|)
  }

  const MAX_CANDIDATES: nat := 256

  predicate CompleteIntervals(row: Row, segs: seq<Segment>) {
    1 <= |segs| <= MAX_CANDIDATES && Offset(row, segs, |segs|) == Some(|row.text|)
  }

  /** The query's order. */
  predicate ByStart(segs: seq<Segment>) {
    forall i, j :: 0 <= i < j < |segs| ==> segs[i].start <= segs[j].start
  }

  predicate AllReproduce(row: Row, segs: seq<Segment>) {
    forall i :: 0 <= i < |segs| ==> Reproduces(segs[i], row)
  }

  predicate CoveredAt(segs: seq<Segment>, p: int) {
    exists i :: 0 <= i < |segs| && segs[i].start <= p < segs[i].end
  }

  /** The union of the segments is the whole text. */
  predicate Covers(row: Row, segs: seq<Segment>) {
    forall p :: 0 <= p < |row.text| ==> CoveredAt(segs, p)
  }

  lemma {:induction false} OffsetCovers(row: Row, segs: seq<Segment>, n: nat)
    requires n <= |segs| && Offset(row, segs, n).Some?
    ensures Offset(row, segs, n).value <= |row.text|
    ensures forall i :: 0 <= i < n ==> Reproduces(segs[i], row) && segs[i].end <= Offset(row, segs, n).value
    ensures forall p :: 0 <= p < Offset(row, segs, n).value ==> CoveredAt(segs, p)
    decreases n
  {
    if n > 0 {
      OffsetCovers(row, segs, n - 1);
      var before, s := Offset(row, segs, n - 1).value, segs[n - 1];
      forall p | 0 <= p < Offset(row, segs, n).value ensures CoveredAt(segs, p) {
        if p >= before {
          assert s.start <= p < s.end;
        }
      }
    }
  }

  /** In a cover sorted by start, the next segment starts no later than where the earlier ones reach. */
  lemma NoGap(row: Row, segs: seq<Segment>, n: nat, offset: nat)
    requires n < |segs| && ByStart(segs) && AllReproduce(row, segs) && Covers(row, segs)
    requires forall i :: 0 <= i < n ==> segs[i].end <= offset
    ensures segs[n].start <= offset
  {
    if offset < |row.text| {
      assert CoveredAt(segs, offset);
      var i :| 0 <= i < |segs| && segs[i].start <= offset < segs[i].end;
      assert segs[n].start <= segs[i].start;
    } else {
      assert Reproduces(segs[n], row);
    }
  }

  lemma {:induction false} CoverAdvances(row: Row, segs: seq<Segment>, n: nat)
    requires n <= |segs| && ByStart(segs) && AllReproduce(row, segs) && Covers(row, segs)
    ensures Offset(row, segs, n).Some?
    decreases n
  {
    if n > 0 {
      CoverAdvances(row, segs, n - 1);
      OffsetCovers(row, segs, n - 1);
      NoGap(row, segs, n - 1, Offset(row, segs, n - 1).value);
    }
  }

  /** On segments in the query's order, the loop accepts exactly when each reproduces its slice and together they cover
      the message; a row without segments is never accepted. */
  lemma RowProofIffCovered(row: Row, segs: seq<Segment>)
    requires ByStart(segs)
    ensures RowProof(row, segs) <==> segs != [] && AllReproduce(row, segs) && Covers(row, segs)
    ensures CompleteIntervals(row, segs) <==> 1 <= |segs| <= MAX_CANDIDATES && AllReproduce(row, segs) && Covers(row, segs)
  {
    if Offset(row, segs, |segs|) == Some(|row.text|) {
      OffsetCovers(row, segs, |segs|);
    }
    if segs != [] && AllReproduce(row, segs) && Covers(row, segs) {
      CoverAdvances(row, segs, |segs|);
      OffsetCovers(row, segs, |segs|);
      ReachesEnd(row, segs, Offset(row, segs, |segs|).value);
    }
  }

  lemma ReachesEnd(row: Row, segs: seq<Segment>, offset: nat)
    requires Covers(row, segs) && offset <= |row.text| && forall i :: 0 <= i < |segs| ==> segs[i].end <= offset
    ensures offset == |row.text|
  {
    assert offset < |row.text| ==> CoveredAt(segs, offset);
  }

  /** A valid segment of this very message: its role, its row, and the characters of its interval. */
  predicate Copies(row: Row, s: Segment) {
    && s.known && s.role == row.role && s.first == row.id && s.last == row.id
    && s.start >= 0 && s.end == s.start + |s.content| && s.end <= |row.text|
    && forall k :: 0 <= k < |s.content| ==> s.content[k] == row.text[s.start + k]
  }

  /** The character stands in some segment, at its place. */
  predicate Shown(row: Row, segs: seq<Segment>, p: nat)
    requires p < |row.text|
  {
    exists i :: 0 <= i < |segs| && segs[i].start <= p < segs[i].start + |segs[i].content|
                && segs[i].content[p - segs[i].start] == row.text[p]
  }

  lemma CopiesExactly(row: Row, s: Segment)
    ensures Reproduces(s, row) <==> Copies(row, s)
  {
    if 0 <= s.start <= s.end <= |row.text| {
      assert |s.content| == s.end - s.start ==>
        (s.content == row.text[s.start..s.end] <==> forall k :: 0 <= k < |s.content| ==> s.content[k] == row.text[s.start + k]);
    }
  }

  /** On segments in the query's order both proofs succeed exactly when there are segments, at most 256 for the bounded one,
      every one copies its interval of this message, and every character is in one. */
  lemma ProvenExactly(row: Row, segs: seq<Segment>)
    requires forall i, j :: 0 <= i < j < |segs| ==> segs[i].start <= segs[j].start
    ensures var copied := segs != [] && (forall i :: 0 <= i < |segs| ==> Copies(row, segs[i]))
                          && forall p :: 0 <= p < |row.text| ==> Shown(row, segs, p);
      (RowProof(row, segs) <==> copied) && (CompleteIntervals(row, segs) <==> copied && |segs| <= 256)
  {
    assert ByStart(segs);
    RowProofIffCovered(row, segs);
    forall i | 0 <= i < |segs| ensures Reproduces(segs[i], row) <==> Copies(row, segs[i]) {
      CopiesExactly(row, segs[i]);
    }
    if forall i :: 0 <= i < |segs| ==> Copies(row, segs[i]) {
      forall p | 0 <= p < |row.text| ensures CoveredAt(segs, p) <==> Shown(row, segs, p) {
        ShownExactly(row, segs, p);
      }
    }
  }

  lemma ShownExactly(row: Row, segs: seq<Segment>, p: nat)
    requires p < |row.text| && forall i :: 0 <= i < |segs| ==> Copies(row, segs[i])
    ensures CoveredAt(segs, p) <==> Shown(row, segs, p)
  {
    if CoveredAt(segs, p) {
      var i :| 0 <= i < |segs| && segs[i].start <= p < segs[i].end;
      assert Copies(row, segs[i]);
      assert segs[i].content[p - segs[i].start] == row.text[segs[i].start + (p - segs[i].start)];
    }
    if Shown(row, segs, p) {
      var i :| 0 <= i < |segs| && segs[i].start <= p < segs[i].start + |segs[i].content|;
      assert Copies(row, segs[i]);
    }
  }

  method ProveRow(row: Row, segs: seq<Segment>) returns (ok: bool)
    ensures ok <==> RowProof(row, segs)
  {
    var offset: nat, i := 0, 0;
    while i < |segs|
      invariant i <= |segs| && Offset(row, segs, i) == Some(offset)
    {
      var source := segs[i];
      if !Reproduces(source, row) || !(source.start <= offset <= |row.text|) {
        RaisedStays(row, segs, i + 1, |segs|);
        return false;
      }
      offset := if source.end > offset then source.end else offset;
      i := i + 1;
    }
    ok := segs != [] && offset == |row.text|;
  }

  lemma {:induction false} RaisedStays(row: Row, segs: seq<Segment>, i: nat, n: nat)
    requires i <= n <= |segs| && Offset(row, segs, i).None?
    ensures Offset(row, segs, n).None?
    decreases n
  {
    if i < n {
      RaisedStays(row, segs, i, n - 1);
    }
  }

  // ---- The streaming loop ----

  /** A piece of a message, and a message with its pieces in the query's order. */
  datatype Piece = Piece(start: int, end: int)

  datatype Message = Message(id: nat, length: nat, pieces: seq<Piece>)

  /** A row of the left join: a message without pieces gives one row with no piece. */
  datatype Joined = Joined(id: nat, length: nat, piece: Option<Piece>)

  function RowsOf(m: Message): (rows: seq<Joined>)
    ensures rows != []
  {
    if m.pieces == [] then [Joined(m.id, m.length, None)]
    else seq(|m.pieces|, i requires 0 <= i < |m.pieces| => Joined(m.id, m.length, Some(m.pieces[i])))
  }

  function Join(ms: seq<Message>): seq<Joined> {
    if ms == [] then [] else Join(ms[..|ms| - 1]) + RowsOf(ms[|ms| - 1])
  }

  /** The loop's variables; stopped is the early return. */
  datatype State = Running(previous: Option<nat>, offset: int, length: int) | Stopped

  function Read(s: State, r: Joined): State {
    if s.Stopped? then Stopped
    else if s.previous != Some(r.id) && s.offset != s.length then Stopped
    else
      var offset := if s.previous != Some(r.id) then 0 else s.offset;
      var length := if s.previous != Some(r.id) then r.length else s.length;
      if r.piece.None? || r.piece.value.start != offset || r.piece.value.end < r.piece.value.start || r.piece.value.end > length
      then Stopped
      else Running(Some(r.id), r.piece.value.end, length)
  }

  function ReadAll(s: State, rows: seq<Joined>): State {
    if rows == [] then s else Read(ReadAll(s, rows[..|rows| - 1]), rows[|rows| - 1])
  }

  const BEGIN := Running(None, 0, 0)

  predicate Streams(rows: seq<Joined>) {
    var s := ReadAll(BEGIN, rows);
    s.Running? && s.previous.Some? && s.offset == s.length
  }

  method CheckStream(rows: seq<Joined>) returns (ok: bool)
    ensures ok <==> Streams(rows)
  {
    var previous: Option<nat>, offset, length := None, 0, 0;
    var i := 0;
    assert rows[..0] == [];
    while i < |rows|
      invariant i <= |rows| && ReadAll(BEGIN, rows[..i]) == Running(previous, offset, length)
    {
      var r := rows[i];
      assert rows[..i + 1][..i] == rows[..i];
      if r.piece.None? || Read(Running(previous, offset, length), r).Stopped? {
        StoppedStays(rows, i + 1, |rows|);
      }
      if previous != Some(r.id) {
        if offset != length {
          assert rows[..|rows|] == rows;
          return false;
        }
        previous, offset, length := Some(r.id), 0, r.length;
      }
      if r.piece.None? || r.piece.value.start != offset || r.piece.value.end < r.piece.value.start || r.piece.value.end > length {
        assert rows[..|rows|] == rows;
        return false;
      }
      offset := r.piece.value.end;
      i := i + 1;
    }
    assert rows[..|rows|] == rows;
    ok := previous.Some? && offset == length;
  }

  lemma {:induction false} StoppedStays(rows: seq<Joined>, i: nat, n: nat)
    requires i <= n <= |rows| && ReadAll(BEGIN, rows[..i]).Stopped?
    ensures ReadAll(BEGIN, rows[..n]).Stopped?
    decreases n
  {
    if i < n {
      StoppedStays(rows, i, n - 1);
      assert rows[..n][..n - 1] == rows[..n - 1];
    }
  }

  /** The pieces lie one after the other inside the message and leave no position out: no gap and no overlap. */
  predicate Tiled(m: Message) {
    && m.pieces != []
    && (forall i :: 0 <= i < |m.pieces| ==> 0 <= m.pieces[i].start <= m.pieces[i].end <= m.length)
    && (forall i, j :: 0 <= i < j < |m.pieces| ==> m.pieces[i].end <= m.pieces[j].start)
    && (forall p :: 0 <= p < m.length ==> HeldAt(m, p))
  }

  predicate HeldAt(m: Message, p: int) {
    exists i :: 0 <= i < |m.pieces| && m.pieces[i].start <= p < m.pieces[i].end
  }

  /** Each piece starts where the one before ends, from zero to the length. */
  predicate Chained(m: Message, n: nat)
    requires n <= |m.pieces|
  {
    forall i :: 0 <= i < n ==> m.pieces[i].start == EndBefore(m, i) && m.pieces[i].start <= m.pieces[i].end <= m.length
  }

  function EndBefore(m: Message, i: nat): int
    requires i <= |m.pieces|
  {
    if i == 0 then 0 else m.pieces[i - 1].end
  }

  lemma {:induction false} ChainedEnds(m: Message, n: nat)
    requires n <= |m.pieces| && Chained(m, n)
    ensures 0 <= EndBefore(m, n) && (n > 0 ==> EndBefore(m, n) <= m.length)
    ensures forall i :: 0 <= i < n ==> 0 <= m.pieces[i].start && m.pieces[i].end <= EndBefore(m, n)
    decreases n
  {
    if n > 0 {
      ChainedEnds(m, n - 1);
    }
  }

  lemma {:induction false} ChainedHolds(m: Message, n: nat, p: int)
    requires n <= |m.pieces| && Chained(m, n) && 0 <= p < EndBefore(m, n)
    ensures HeldAt(m, p)
    decreases n
  {
    if n > 0 && p < EndBefore(m, n - 1) {
      ChainedHolds(m, n - 1, p);
    } else {
      assert m.pieces[n - 1].start <= p < m.pieces[n - 1].end;
    }
  }

  lemma ChainedInside(m: Message, n: nat)
    requires n <= |m.pieces| && Chained(m, n)
    ensures 0 <= EndBefore(m, n) && (n > 0 ==> EndBefore(m, n) <= m.length)
    ensures forall i :: 0 <= i < n ==> 0 <= m.pieces[i].start && m.pieces[i].end <= EndBefore(m, n)
    ensures forall i, j :: 0 <= i < j < n ==> m.pieces[i].end <= m.pieces[j].start
    ensures forall p :: 0 <= p < EndBefore(m, n) ==> HeldAt(m, p)
  {
    ChainedEnds(m, n);
    forall i, j | 0 <= i < j < n ensures m.pieces[i].end <= m.pieces[j].start {
      ChainedEnds(m, j);
    }
    forall p | 0 <= p < EndBefore(m, n) ensures HeldAt(m, p) {
      ChainedHolds(m, n, p);
    }
  }

  lemma EndsBefore(m: Message, i: nat, j: nat)
    requires Tiled(m) && j < i <= |m.pieces|
    ensures m.pieces[j].end <= EndBefore(m, i)
  {
    if j < i - 1 {
      assert m.pieces[j].end <= m.pieces[i - 1].start;
    }
  }

  lemma StartsNoLater(m: Message, i: nat)
    requires Tiled(m) && i < |m.pieces|
    ensures m.pieces[i].start <= EndBefore(m, i)
  {
    var q := EndBefore(m, i);
    if q < m.length {
      assert HeldAt(m, q);
      var j: nat :| j < |m.pieces| && m.pieces[j].start <= q < m.pieces[j].end;
      if j < i {
        EndsBefore(m, i, j);
      } else if i < j {
        assert m.pieces[i].end <= m.pieces[j].start;
      }
    }
  }

  lemma TiledChained(m: Message)
    requires Tiled(m)
    ensures Chained(m, |m.pieces|) && EndBefore(m, |m.pieces|) == m.length
  {
    forall i: nat | i < |m.pieces| ensures m.pieces[i].start == EndBefore(m, i) {
      StartsNoLater(m, i);
    }
    forall j: nat | j < |m.pieces| ensures m.pieces[j].end <= EndBefore(m, |m.pieces|) {
      EndsBefore(m, |m.pieces|, j);
    }
    assert EndBefore(m, |m.pieces|) < m.length ==> HeldAt(m, EndBefore(m, |m.pieces|));
  }

  lemma TiledIffChained(m: Message)
    ensures Tiled(m) <==> m.pieces != [] && Chained(m, |m.pieces|) && EndBefore(m, |m.pieces|) == m.length
  {
    if Tiled(m) {
      TiledChained(m);
    } else if m.pieces != [] && Chained(m, |m.pieces|) {
      ChainedInside(m, |m.pieces|);
    }
  }

  // ---- Streaming accepts exactly the tiled messages ----

  lemma {:induction false} ReadAppend(s: State, a: seq<Joined>, b: seq<Joined>)
    ensures ReadAll(s, a + b) == ReadAll(ReadAll(s, a), b)
    decreases |b|
  {
    if b == [] {
      assert a + b == a;
    } else {
      assert (a + b)[..|a + b| - 1] == a + b[..|b| - 1];
      ReadAppend(s, a, b[..|b| - 1]);
    }
  }

  function AfterPieces(m: Message, n: nat): State
    requires n <= |m.pieces|
  {
    if Chained(m, n) then Running(Some(m.id), EndBefore(m, n), m.length) else Stopped
  }

  lemma ReadPiece(m: Message, n: nat)
    requires 0 < n < |m.pieces|
    ensures Read(AfterPieces(m, n), Joined(m.id, m.length, Some(m.pieces[n]))) == AfterPieces(m, n + 1)
  {
    assert Chained(m, n + 1) ==> Chained(m, n);
  }

  lemma {:induction false} ReadPieces(s: State, m: Message, n: nat)
    requires s.Running? && s.previous != Some(m.id) && 0 < n <= |m.pieces|
    ensures ReadAll(s, RowsOf(m)[..n]) == if s.offset == s.length then AfterPieces(m, n) else Stopped
    decreases n
  {
    var rows := RowsOf(m);
    assert rows[..n][..n - 1] == rows[..n - 1];
    if n == 1 {
      assert rows[..0] == [];
    } else {
      ReadPieces(s, m, n - 1);
      ReadPiece(m, n - 1);
    }
  }

  lemma ReadMessage(s: State, m: Message)
    requires s.Running? && s.previous != Some(m.id)
    ensures ReadAll(s, RowsOf(m))
            == if s.offset == s.length && m.pieces != [] then AfterPieces(m, |m.pieces|) else Stopped
  {
    var rows := RowsOf(m);
    assert rows[..|rows|] == rows;
    if m.pieces == [] {
      assert rows[..0] == [];
    } else {
      ReadPieces(s, m, |m.pieces|);
    }
  }

  lemma {:induction false} ReadStopped(rows: seq<Joined>)
    ensures ReadAll(Stopped, rows) == Stopped
  {
    if rows != [] {
      ReadStopped(rows[..|rows| - 1]);
    }
  }

  /** The query gives each message once, in order of id. */
  predicate Increasing(ms: seq<Message>) { forall i, j :: 0 <= i < j < |ms| ==> ms[i].id < ms[j].id }

  predicate AllTiled(ms: seq<Message>) { forall i :: 0 <= i < |ms| ==> Tiled(ms[i]) }

  /** The loop's variables after some messages: stopped unless all but the last are tiled and the last is chained. */
  function AfterMessages(ms: seq<Message>): State {
    if ms == [] then BEGIN
    else
      var last := ms[|ms| - 1];
      if AllTiled(ms[..|ms| - 1]) && last.pieces != [] then AfterPieces(last, |last.pieces|) else Stopped
  }

  lemma {:induction false} ReadMessages(ms: seq<Message>)
    requires Increasing(ms)
    ensures ReadAll(BEGIN, Join(ms)) == AfterMessages(ms)
  {
    if ms != [] {
      var before, last := ms[..|ms| - 1], ms[|ms| - 1];
      ReadMessages(before);
      ReadAppend(BEGIN, Join(before), RowsOf(last));
      var s := AfterMessages(before);
      if s.Running? {
        ReadMessage(s, last);
        SettledIsTiled(before);
      } else {
        ReadStopped(RowsOf(last));
        StoppedIsNotTiled(before);
      }
    }
  }

  lemma LastOf(ms: seq<Message>)
    requires ms != []
    ensures AllTiled(ms) <==> AllTiled(ms[..|ms| - 1]) && Tiled(ms[|ms| - 1])
  {
    assert ms == ms[..|ms| - 1] + [ms[|ms| - 1]];
  }

  lemma SettledIsTiled(ms: seq<Message>)
    requires AfterMessages(ms).Running?
    ensures AfterMessages(ms).offset == AfterMessages(ms).length <==> AllTiled(ms)
    ensures ms != [] ==> AfterMessages(ms).previous == Some(ms[|ms| - 1].id)
  {
    if ms != [] {
      LastOf(ms);
      TiledIffChained(ms[|ms| - 1]);
    }
  }

  lemma StoppedIsNotTiled(ms: seq<Message>)
    requires AfterMessages(ms).Stopped?
    ensures !AllTiled(ms)
  {
    LastOf(ms);
    TiledIffChained(ms[|ms| - 1]);
  }

  /** The streaming loop accepts exactly when there is a message and every one is tiled with no gap or overlap. */
  lemma StreamsIffTiled(ms: seq<Message>)
    requires Increasing(ms)
    ensures Streams(Join(ms)) <==> ms != [] && AllTiled(ms)
  {
    ReadMessages(ms);
    if AfterMessages(ms).Running? {
      SettledIsTiled(ms);
    } else {
      StoppedIsNotTiled(ms);
    }
  }
}
