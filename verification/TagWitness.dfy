/** A prompt over budget that keeps a tagged section compaction could still empty: one section encloses another kind's tag. */
module TagWitness {
  import opened TextTools
  import opened Compaction
  import opened CompactionEstimates
  import opened CompactionPhases
  import opened CompactionTheorems
  import opened TagSections

  // ---- Texts made of tags and plain words ----

  /** A tag, or a word without angle brackets or newlines. */
  predicate Token(t: string) {
    TagLike(t) || forall i :: 0 <= i < |t| ==> t[i] != '<' && t[i] != '\n'
  }

  function Glue(ts: seq<string>): string {
    if ts == [] then "" else ts[0] + Glue(ts[1..])
  }

  predicate Tokens(ts: seq<string>) { forall k :: 0 <= k < |ts| ==> Token(ts[k]) }

  /** Where the kth token starts. */
  function Offset(ts: seq<string>, k: nat): nat
    requires k <= |ts|
  {
    |Glue(ts[..k])|
  }

  lemma {:induction false} GlueAppend(a: seq<string>, b: seq<string>)
    ensures Glue(a + b) == Glue(a) + Glue(b)
  {
    if a == [] {
      assert a + b == b;
    } else {
      assert (a + b)[1..] == a[1..] + b;
      GlueAppend(a[1..], b);
    }
  }

  lemma SameTag(text: string, x: string, y: string, i: nat)
    requires TagLike(x) && TagLike(y) && At(text, x, i) && At(text, y, i)
    ensures x == y
  {
    AtChar(text, x, i, |x| - 1);
    AtChar(text, y, i, |y| - 1);
    if |x| < |y| {
      AtChar(text, y, i, |x| - 1);
    } else if |y| < |x| {
      AtChar(text, x, i, |y| - 1);
    }
    assert text[i..i + |x|] == x && text[i..i + |y|] == y;
  }

  lemma {:induction false} GlueHasNoNewline(ts: seq<string>, i: nat)
    requires Tokens(ts) && i < |Glue(ts)|
    ensures Glue(ts)[i] != '\n'
  {
    if i >= |ts[0]| {
      GlueHasNoNewline(ts[1..], i - |ts[0]|);
    } else {
      assert Token(ts[0]);
    }
  }

  lemma HeadAt(t: string, rest: string, x: string, i: nat)
    requires Token(t) && TagLike(x) && i < |t| && At(t + rest, x, i)
    ensures i == 0 && t == x
  {
    AtChar(t + rest, x, i, 0);
    assert (t + rest)[i] == t[i];
    assert (t + rest)[0..|t|] == t;
    SameTag(t + rest, x, t, 0);
  }

  /** A tag stands only where it is a token. */
  lemma {:induction false} GlueAt(ts: seq<string>, x: string, i: nat) returns (k: nat)
    requires Tokens(ts) && TagLike(x) && At(Glue(ts), x, i)
    ensures k < |ts| && ts[k] == x && Offset(ts, k) == i
  {
    var rest := Glue(ts[1..]);
    if i < |ts[0]| {
      HeadAt(ts[0], rest, x, i);
      k := 0;
    } else {
      assert ts[0] + "" + rest == Glue(ts);
      AtAfter(ts[0], "", rest, x, i);
      var j := GlueAt(ts[1..], x, i - |ts[0]|);
      k := j + 1;
      assert ts[..k] == [ts[0]] + ts[1..][..j];
      GlueAppend([ts[0]], ts[1..][..j]);
      assert Glue([ts[0]]) == ts[0] + Glue([]);
    }
  }

  lemma GlueParts(ts: seq<string>, k: nat)
    requires k < |ts|
    ensures Glue(ts) == Glue(ts[..k]) + ts[k] + Glue(ts[k + 1..])
  {
    assert ts == ts[..k] + ts[k..] && ts[k..][1..] == ts[k + 1..];
    GlueAppend(ts[..k], ts[k..]);
    assert Glue(ts[k..]) == ts[k] + Glue(ts[k + 1..]);
    assert Glue(ts[..k]) + (ts[k] + Glue(ts[k + 1..])) == Glue(ts[..k]) + ts[k] + Glue(ts[k + 1..]);
  }

  lemma MiddleStands(pre: string, mid: string, post: string)
    ensures At(pre + mid + post, mid, |pre|)
  {
    assert (pre + mid + post)[|pre|..|pre| + |mid|] == mid;
  }

  lemma TokenStands(ts: seq<string>, k: nat)
    requires k < |ts|
    ensures At(Glue(ts), ts[k], Offset(ts, k))
  {
    GlueParts(ts, k);
    MiddleStands(Glue(ts[..k]), ts[k], Glue(ts[k + 1..]));
  }

  lemma OffsetNext(ts: seq<string>, k: nat)
    requires k < |ts|
    ensures Offset(ts, k + 1) == Offset(ts, k) + |ts[k]|
  {
    assert ts[..k + 1] == ts[..k] + [ts[k]];
    GlueAppend(ts[..k], [ts[k]]);
    assert Glue([ts[k]]) == ts[k] + Glue([]);
  }

  lemma OffsetGrows(ts: seq<string>, j: nat, k: nat)
    requires j <= k <= |ts|
    ensures Offset(ts, j) <= Offset(ts, k) && Offset(ts, k) == Offset(ts, j) + |Glue(ts[j..k])|
  {
    assert ts[..k] == ts[..j] + ts[j..k];
    GlueAppend(ts[..j], ts[j..k]);
  }

  /** The tokens around the section of a kind: its first opening, and the first close after it. */
  predicate Bounds(ts: seq<string>, x: string, y: string, a: nat, b: nat) {
    && a < b < |ts| && ts[a] == x && ts[b] == y && (forall k :: 0 <= k < a ==> ts[k] != x)
    && (forall k :: a < k < b ==> ts[k] != y)
  }

  lemma FirstToken(ts: seq<string>, x: string, y: string, a: nat, b: nat)
    requires Tokens(ts) && TagLike(x) && Bounds(ts, x, y, a, b)
    ensures First(Glue(ts), x, Offset(ts, a))
  {
    TokenStands(ts, a);
    forall i: nat | i < Offset(ts, a) ensures !At(Glue(ts), x, i) {
      if At(Glue(ts), x, i) {
        var k := GlueAt(ts, x, i);
        OffsetGrows(ts, a, if k < a then a else k);
      }
    }
  }

  lemma CloseToken(ts: seq<string>, x: string, y: string, a: nat, b: nat, i: nat)
    requires Tokens(ts) && TagLike(x) && TagLike(y) && Bounds(ts, x, y, a, b) && Offset(ts, a + 1) <= i < Offset(ts, b)
    ensures !Shuts(Glue(ts), y, i)
  {
    if At(Glue(ts), "\n" + y, i) {
      AtChar(Glue(ts), "\n" + y, i, 0);
      GlueHasNoNewline(ts, i);
    }
    if At(Glue(ts), y, i) {
      var k := GlueAt(ts, y, i);
      if k <= a {
        OffsetNext(ts, k);
        OffsetGrows(ts, k + 1, a + 1);
      } else {
        OffsetGrows(ts, b, if k < b then b else k);
      }
    }
  }

  /** A section of glued tokens is found between its tokens, and emptying it leaves the others. */
  lemma GlueSection(ts: seq<string>, kind: Kind, a: nat, b: nat)
    requires Tokens(ts) && kind != Summary && Bounds(ts, Opening(kind), Closing(kind), a, b)
    ensures FoundSection(Glue(ts), kind) == Some((Offset(ts, a + 1), Offset(ts, b)))
    ensures TrimFound(Glue(ts), kind, 0) == Glue(ts[..a + 1] + ts[b..])
  {
    var text, x, y := Glue(ts), Opening(kind), Closing(kind);
    var p, s, e := Offset(ts, a), Offset(ts, a + 1), Offset(ts, b);
    TagsAre(kind);
    FirstToken(ts, x, y, a, b);
    OffsetNext(ts, a);
    OffsetGrows(ts, a + 1, b);
    OffsetGrows(ts, b, |ts|);
    assert ts[..|ts|] == ts;
    TokenStands(ts, b);
    if s < |text| {
      GlueHasNoNewline(ts, s);
    }
    forall i: nat | s <= i < e ensures !Shuts(text, y, i) {
      CloseToken(ts, x, y, a, b, i);
    }
    assert IsSection(text, x, y, p, s, e);
    SectionIs(text, x, y, p, s, e);
    EmptiedGlue(ts, a + 1, b);
  }

  lemma EmptiedGlue(ts: seq<string>, a: nat, b: nat)
    requires a <= b <= |ts|
    ensures Offset(ts, a) <= Offset(ts, b) <= |Glue(ts)|
    ensures Glue(ts)[..Offset(ts, a)] + "" + Glue(ts)[Offset(ts, b)..] == Glue(ts[..a] + ts[b..])
  {
    OffsetGrows(ts, a, b);
    assert ts == ts[..a] + ts[a..] && ts == ts[..b] + ts[b..];
    GlueAppend(ts[..a], ts[a..]);
    GlueAppend(ts[..b], ts[b..]);
    GlueAppend(ts[..a], ts[b..]);
  }

  lemma GlueNothing(ts: seq<string>, kind: Kind)
    requires Tokens(ts) && kind != Summary && Opening(kind) !in ts
    ensures TrimFound(Glue(ts), kind, 0) == Glue(ts)
  {
    TagsAre(kind);
    forall i: nat ensures !At(Glue(ts), Opening(kind), i) {
      if At(Glue(ts), Opening(kind), i) {
        var k := GlueAt(ts, Opening(kind), i);
      }
    }
    NoOpening(Glue(ts), Opening(kind), Closing(kind));
  }

  // ---- The failing text ----

  /** A memory section around a retrieval section, and a second retrieval section after both. */
  function Nested(): seq<string> {
    [Opening(Memory), " ", Opening(Rag), "x", Closing(Rag), " ", Closing(Memory), " ", Opening(Rag), "yyyy", Closing(Rag)]
  }

  function NoX(): seq<string> {
    [Opening(Memory), " ", Opening(Rag), Closing(Rag), " ", Closing(Memory), " ", Opening(Rag), "yyyy", Closing(Rag)]
  }

  function Left(): seq<string> {
    [Opening(Memory), Closing(Memory), " ", Opening(Rag), "yyyy", Closing(Rag)]
  }

  lemma TagsOfTwo()
    ensures Token(Opening(Memory)) && Token(Closing(Memory)) && Token(Opening(Rag)) && Token(Closing(Rag))
    ensures Opening(Memory) != Opening(Rag) && Closing(Memory) != Closing(Rag)
    ensures Opening(Memory) != Closing(Rag) && Opening(Rag) != Closing(Memory) && Opening(Rag) != Closing(Rag)
    ensures forall kind :: kind == Episodic || kind == Npc || kind == Simulation ==>
              Opening(kind) != Opening(Memory) && Opening(kind) != Opening(Rag)
              && Opening(kind) != Closing(Memory) && Opening(kind) != Closing(Rag)
  {
    TagsAre(Memory);
    TagsAre(Rag);
    TagLetters(Memory, Rag);
    ClosingsDiffer();
    forall kind | kind == Episodic || kind == Npc || kind == Simulation
      ensures Opening(kind) != Opening(Memory) && Opening(kind) != Opening(Rag)
              && Opening(kind) != Closing(Memory) && Opening(kind) != Closing(Rag)
    {
      TagsAre(kind);
      TagLetters(kind, Memory);
      TagLetters(kind, Rag);
    }
  }

  lemma ClosingsDiffer()
    ensures Closing(Memory) != Closing(Rag)
  {
    TagLetters(Memory, Rag);
    assert Closing(Memory)[12] == Tag(Memory)[10] && Closing(Rag)[12] == Tag(Rag)[10];
  }

  lemma Words()
    ensures Token(" ") && Token("x") && Token("yyyy") && !TagLike(" ") && !TagLike("x") && "yyyy"[0] != '<'
  {
  }

  lemma TokensOfThree()
    ensures Tokens(Nested()) && Tokens(NoX()) && Tokens(Left())
  {
    TagsOfTwo();
    Words();
  }

  lemma NestedBounds()
    ensures Bounds(Nested(), Opening(Rag), Closing(Rag), 2, 4)
    ensures Bounds(NoX(), Opening(Memory), Closing(Memory), 0, 5)
    ensures Bounds(Left(), Opening(Rag), Closing(Rag), 3, 5)
  {
    TagsOfTwo();
    NotWords(Opening(Rag));
    NotWords(Closing(Rag));
    NotWords(Closing(Memory));
  }

  lemma NotWords(x: string)
    ensures |x| > 10 ==> x != " " && x != "x" && x != "yyyy"
    ensures |Opening(Rag)| > 10 && |Closing(Rag)| > 10 && |Closing(Memory)| > 10
  {
    TagsAre(Rag);
    TagOf(Memory);
    TagOf(Rag);
  }

  lemma LeftHasNoOther(kind: Kind)
    requires kind == Episodic || kind == Npc || kind == Simulation
    ensures Opening(kind) !in Left()
  {
    TagsOfTwo();
    NotWords(Opening(kind));
    TagsAre(kind);
  }

  function EmptyAll(text: string, kinds: seq<Kind>): string
    decreases |kinds|
  {
    if kinds == [] then text else EmptyAll(TrimFound(text, kinds[0], 0), kinds[1..])
  }

  /** Emptying all kinds in their order leaves the second retrieval section. */
  lemma NestedLeaves()
    ensures EmptyAll(Glue(Nested()), USER_KINDS) == Glue(Left())
    ensures FoundSection(Glue(Left()), Rag) == Some((Offset(Left(), 4), Offset(Left(), 5)))
  {
    TokensOfThree();
    NestedBounds();
    OthersLeave();
    NestedSteps();
    LeavesOf(Nested(), NoX(), Left());
  }

  lemma NestedSteps()
    ensures Nested()[..3] + Nested()[4..] == NoX() && NoX()[..1] + NoX()[5..] == Left()
  {
  }

  lemma LeavesOf(t0: seq<string>, t1: seq<string>, t2: seq<string>)
    requires Tokens(t0) && Tokens(t1) && Tokens(t2) && Bounds(t0, Opening(Rag), Closing(Rag), 2, 4)
    requires Bounds(t1, Opening(Memory), Closing(Memory), 0, 5) && Bounds(t2, Opening(Rag), Closing(Rag), 3, 5)
    requires t0[..3] + t0[4..] == t1 && t1[..1] + t1[5..] == t2
    requires TrimFound(Glue(t2), Episodic, 0) == Glue(t2)
    requires TrimFound(Glue(t2), Npc, 0) == Glue(t2) && TrimFound(Glue(t2), Simulation, 0) == Glue(t2)
    ensures EmptyAll(Glue(t0), USER_KINDS) == Glue(t2)
    ensures FoundSection(Glue(t2), Rag) == Some((Offset(t2, 4), Offset(t2, 5)))
  {
    GlueSection(t0, Rag, 2, 4);
    GlueSection(t1, Memory, 0, 5);
    GlueSection(t2, Rag, 3, 5);
    EmptyFive(Glue(t0), Glue(t1), Glue(t2));
  }

  lemma OthersLeave()
    ensures TrimFound(Glue(Left()), Episodic, 0) == Glue(Left())
    ensures TrimFound(Glue(Left()), Npc, 0) == Glue(Left()) && TrimFound(Glue(Left()), Simulation, 0) == Glue(Left())
  {
    TokensOfThree();
    LeftHasNoOther(Episodic);
    LeftHasNoOther(Npc);
    LeftHasNoOther(Simulation);
    GlueNothing(Left(), Episodic);
    GlueNothing(Left(), Npc);
    GlueNothing(Left(), Simulation);
  }

  lemma EmptyFive(t0: string, t1: string, t2: string)
    requires TrimFound(t0, Rag, 0) == t1 && TrimFound(t1, Memory, 0) == t2
    requires TrimFound(t2, Episodic, 0) == t2 && TrimFound(t2, Npc, 0) == t2 && TrimFound(t2, Simulation, 0) == t2
    ensures EmptyAll(t0, USER_KINDS) == t2
  {
    assert USER_KINDS[1..] == [Memory, Episodic, Npc, Simulation];
    assert [Memory, Episodic, Npc, Simulation][1..] == [Episodic, Npc, Simulation];
    assert [Episodic, Npc, Simulation][1..] == [Npc, Simulation] && [Npc, Simulation][1..] == [Simulation];
    assert EmptyAll(t2, [Simulation]) == EmptyAll(t2, []);
    assert EmptyAll(t2, [Npc, Simulation]) == t2;
    assert EmptyAll(t2, [Episodic, Npc, Simulation]) == t2;
    assert EmptyAll(t1, [Memory, Episodic, Npc, Simulation]) == t2;
  }

  // ---- The failing prompt ----

  function User(text: string): Message { Message(0, "user", Plain(text), None, false) }

  /** One visit to the only message is a trim of its text. */
  lemma VisitEmpties(text: string, kind: Kind, st: Limits)
    ensures ShrinkAt([User(text)], 0, kind, 512, false, st) == [User(TrimFound(text, kind, 0))]
  {
    FoundFits(text, kind);
    if FoundSection(text, kind).Some? {
      var r := FoundSection(text, kind).value;
      assert text[..r.0] + text[r.0..r.1] + text[r.1..] == text;
    }
    assert [User(text)][0 := User(TrimFound(text, kind, 0))] == [User(TrimFound(text, kind, 0))];
  }

  /** A computed visit leaves a short text alone. */
  lemma VisitSpares(text: string, kind: Kind, st: Limits)
    requires |text| <= 512
    ensures ShrinkAt([User(text)], 0, kind, 512, true, st) == [User(text)]
  {
    FoundFits(text, kind);
    assert [User(text)][0 := User(text)] == [User(text)];
  }

  lemma {:induction false} KindsEmpty(text: string, kinds: seq<Kind>, st: Limits)
    requires Over([User(EmptyAll(text, kinds))], st)
    ensures Over([User(text)], st) && ShrinkKinds([User(text)], 0, kinds, false, st) == [User(EmptyAll(text, kinds))]
    decreases |kinds|
  {
    if kinds != [] {
      VisitEmpties(text, kinds[0], st);
      KindsEmpty(TrimFound(text, kinds[0], 0), kinds[1..], st);
      ShrinkAtNeverGrows([User(text)], 0, kinds[0], 512, false, st);
    }
  }

  lemma {:induction false} KindsSpare(text: string, kinds: seq<Kind>, st: Limits)
    requires |text| <= 512
    ensures ShrinkKinds([User(text)], 0, kinds, true, st) == [User(text)]
    decreases |kinds|
  {
    if kinds != [] && Over([User(text)], st) {
      VisitSpares(text, kinds[0], st);
      KindsSpare(text, kinds[1..], st);
    }
  }

  lemma OneTurn(text: string, st: Limits)
    ensures var ms := [User(text)];
      LastTurn(ms) == 0 == LastOf(ms, "user") && FirstOf(ms, "system") == 1 && Removable(ms, st) == []
  {
    var ms := [User(text)];
    assert FirstOf(ms, "system") == 1 + FirstOf(ms[1..], "system");
    assert LastTurn(ms) == 0;
    assert Others(ms, 1, 0, Kept(ms, st)) == Others(ms, 0, 0, Kept(ms, st));
  }

  lemma NothingDrops(text: string, floor: nat, st: Limits)
    ensures DropOldTurns([User(text)], floor, st) == [User(text)]
  {
    var ms := [User(text)];
    OneTurn(text, st);
    assert MarkAll(ms, []) == ms;
    assert Live(ms) == Live([]) + ms;
  }

  lemma NothingTrims(text: string, st: Limits)
    requires |text| <= 512
    ensures ShrinkUser([User(text)], true, true, st) == [User(text)]
  {
    OneTurn(text, st);
    KindsSpare(text, USER_KINDS, st);
  }

  lemma NoSummary(text: string, compute: bool, st: Limits)
    ensures ShrinkSummary([User(text)], compute, st) == [User(text)]
  {
    OneTurn(text, st);
  }

  lemma EmptiesAll(text: string, st: Limits)
    requires Over([User(EmptyAll(text, USER_KINDS))], st)
    ensures Over([User(text)], st) && ShrinkUser([User(text)], false, false, st) == [User(EmptyAll(text, USER_KINDS))]
  {
    OneTurn(text, st);
    KindsEmpty(text, USER_KINDS, st);
  }

  /** The phases, when only the second pass over the user's sections changes anything. */
  lemma PhasesPass(ms: seq<Message>, out: seq<Message>, st: Limits)
    requires Over(ms, st) && Over(out, st)
    requires DropOldTurns(ms, FirstFloor(st), st) == ms && DropOldTurns(ms, 1, st) == ms && DropOldTurns(out, 0, st) == out
    requires ShrinkUser(ms, true, true, st) == ms && ShrinkUser(ms, false, false, st) == out
    requires ShrinkSummary(ms, true, st) == ms && ShrinkSummary(out, false, st) == out
    ensures Compacted(ms, st) == out
  {
    assert Summarised(ms, st) == ms;
  }

  lemma OneTurnPasses(text: string, out: string, st: Limits)
    requires |text| <= 512 && Over([User(text)], st) && Over([User(out)], st)
    requires ShrinkUser([User(text)], false, false, st) == [User(out)]
    ensures Compacted([User(text)], st) == [User(out)]
  {
    NothingTrims(text, st);
    NoSummary(text, true, st);
    NoSummary(out, false, st);
    NothingDrops(text, FirstFloor(st), st);
    NothingDrops(text, 1, st);
    NothingDrops(out, 0, st);
    PhasesPass([User(text)], [User(out)], st);
  }

  /** A prompt of one short user turn over budget ends with its sections emptied in their order, and nothing else done. */
  lemma OneTurnCompacts(text: string, st: Limits)
    requires |text| <= 512 && Over([User(EmptyAll(text, USER_KINDS))], st)
    ensures Compacted([User(text)], st) == [User(EmptyAll(text, USER_KINDS))]
  {
    EmptiesAll(text, st);
    OneTurnPasses(text, EmptyAll(text, USER_KINDS), st);
  }

  lemma {:induction false} GlueLength(ts: seq<string>, n: nat)
    requires forall k :: 0 <= k < |ts| ==> |ts[k]| <= n
    ensures |Glue(ts)| <= n * |ts|
  {
    if ts != [] {
      GlueLength(ts[1..], n);
      assert n * |ts| == n + n * |ts[1..]|;
    }
  }

  lemma NestedIsShort()
    ensures |Glue(Nested())| <= 512
  {
    assert |Tag(Rag)| <= 40 && |Tag(Memory)| <= 40;
    var ts := Nested();
    assert forall k :: 0 <= k < |ts| ==> |ts[k]| <= 45;
    GlueLength(ts, 45);
  }

  /** Without a record, over budget need not mean exhausted: a memory section that encloses a retrieval section is emptied
      with it, and the retrieval section after both, which now is the first, stays. */
  lemma NestedSectionSurvives(st: Limits)
    requires Over([User(Glue(Left()))], st)
    ensures var out := Compacted([User(Glue(Nested()))], st);
      && Over(out, st) && !Exhausted(out, st) && out == [User(Glue(Left()))]
      && OptionalSpan(out[0], Rag) == Some(Span(Rag, Offset(Left(), 4), Offset(Left(), 5)))
  {
    NestedIsShort();
    NestedLeaves();
    var t0, t2 := Glue(Nested()), Glue(Left());
    OneTurnCompacts(t0, st);
    OffsetNext(Left(), 4);
    StillShows(t2, Offset(Left(), 4), Offset(Left(), 5), st);
  }

  lemma StillShows(text: string, s: nat, e: nat, st: Limits)
    requires FoundSection(text, Rag) == Some((s, e)) && s < e
    ensures OptionalSpan(User(text), Rag) == Some(Span(Rag, s, e)) && !Exhausted([User(text)], st)
  {
    var m := User(text);
    assert USER_KINDS[0] == Rag;
    assert !ShortAt(TextOf(m.content), Rag, 0);
    assert [m][0].role == "user" && !Within([m][0], USER_KINDS, 0);
  }
}
