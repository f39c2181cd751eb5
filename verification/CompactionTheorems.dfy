/** What compact_chat_messages guarantees: survivors, bounds after each phase, exhaustion when over budget. */
module CompactionTheorems {
  import opened TextTools
  import opened Compaction
  import opened CompactionPhases
  import opened Spans
  import opened TagSections
  import opened CompactionEstimates
  import opened CompactionSurvival

  /** The span record is aligned with the text; without one, no tagged section encloses another kind's opening tag. */
  ghost predicate Orderly(m: Message) {
    if m.spans.Some? then Aligned(m) else Separate(TextOf(m.content))
  }

  ghost predicate AllOrderly(ms: seq<Message>) { forall i :: 0 <= i < |ms| ==> Orderly(ms[i]) }

  /** As AllOrderly, where the tags of messages other than the user's do not matter. */
  ghost predicate UsersOrderly(ms: seq<Message>) { forall i :: 0 <= i < |ms| ==> OrderlyIfUser(ms[i]) }

  ghost predicate OrderlyIfUser(m: Message) {
    m.spans.Some? || m.role == "user" ==> Orderly(m)
  }

  // ---- Survivors ----

  lemma ShrinkSpanText(m: Message, kind: Kind, s: Span, maximum: int)
    requires m.spans.None? && 0 <= s.start <= s.end <= |TextOf(m.content)| && Editable(m.content)
    ensures var text := TextOf(m.content); var out := ShrinkSpan(m, kind, s, maximum);
      && out.spans.None? && out.role == m.role
      && TextOf(out.content) == text[..s.start] + TrimMiddle(text[s.start..s.end], maximum) + text[s.end..]
  {
    var text := TextOf(m.content);
    var after := text[..s.start] + TrimMiddle(text[s.start..s.end], maximum) + text[s.end..];
    Retext(m.content, after);
    if TrimMiddle(text[s.start..s.end], maximum) == text[s.start..s.end] {
      assert after == text;
    }
  }

  /** A trim of a message without a record is the trim of the section found in its text. */
  lemma ShrinkFound(m: Message, kind: Kind, maximum: int)
    requires m.spans.None?
    ensures var out := Shrink(m, kind, maximum);
      out.spans.None? && out.role == m.role && TextOf(out.content) == TrimFound(TextOf(m.content), kind, maximum)
  {
    var text := TextOf(m.content);
    FoundFits(text, kind);
    if FoundSection(text, kind).Some? {
      FoundInText(text, kind);
      var r := FoundSection(text, kind).value;
      ShrinkSpanText(m, kind, Span(kind, r.0, r.1), maximum);
    }
  }

  lemma FoundInText(text: string, kind: Kind)
    requires FoundSection(text, kind).Some?
    ensures text != ""
  {
    if kind != Summary {
      TagsAre(kind);
    }
  }

  lemma ShrinkEdits(m: Message, kind: Kind, maximum: int)
    requires (maximum <= 0 || maximum >= 80) && (kind == Summary ==> m.role != "user")
    ensures Edited(m, Shrink(m, kind, maximum)) && Shrink(m, kind, maximum).dropped == m.dropped
  {
    if Aligned(m) {
      ShrinkAligned(m, kind, maximum);
    }
    if TaggedUser(m) {
      ShrinkFound(m, kind, maximum);
      TrimStaysSeparate(TextOf(m.content), kind, maximum);
    }
  }

  lemma {:induction false} EditedAt(ms: seq<Message>, i: nat, m: Message)
    requires i < |ms| && Edited(ms[i], m)
    ensures Pointwise(ms, ms[i := m])
  {
  }

  lemma ShrinkAtEdits(ms: seq<Message>, i: nat, kind: Kind, least: nat, compute: bool, st: Limits)
    requires i < |ms| && Unmarked(ms) && least >= 80 && (kind == Summary ==> ms[i].role != "user")
    ensures Pointwise(ms, ShrinkAt(ms, i, kind, least, compute, st)) && Unmarked(ShrinkAt(ms, i, kind, least, compute, st))
  {
    var found := OptionalSpan(ms[i], kind);
    if found.Some? {
      var t := Target(ms, found.value, least, compute, st);
      ShrinkEdits(ms[i], kind, t);
      EditedAt(ms, i, Shrink(ms[i], kind, t));
    }
  }

  lemma PointwiseTrans(a: seq<Message>, b: seq<Message>, c: seq<Message>)
    requires Pointwise(a, b) && Pointwise(b, c)
    ensures Pointwise(a, c)
  {
  }

  lemma {:induction false} ShrinkKindsEdits(ms: seq<Message>, i: nat, kinds: seq<Kind>, compute: bool, st: Limits)
    requires i < |ms| && Unmarked(ms) && Summary !in kinds
    ensures Pointwise(ms, ShrinkKinds(ms, i, kinds, compute, st)) && Unmarked(ShrinkKinds(ms, i, kinds, compute, st))
    decreases |kinds|
  {
    if kinds != [] && Over(ms, st) {
      var next := ShrinkAt(ms, i, kinds[0], 512, compute, st);
      ShrinkAtEdits(ms, i, kinds[0], 512, compute, st);
      ShrinkKindsEdits(next, i, kinds[1..], compute, st);
      PointwiseTrans(ms, next, ShrinkKinds(next, i, kinds[1..], compute, st));
    }
  }

  ghost predicate Keeps(before: seq<Message>, after: seq<Message>, st: Limits) {
    Unmarked(after) && Thinned(before, after) && Protects(before, after, st)
  }

  lemma KeepsTrans(a: seq<Message>, b: seq<Message>, c: seq<Message>, st: Limits)
    requires Keeps(a, b, st) && Keeps(b, c, st)
    ensures Keeps(a, c, st)
  {
    ThinnedTrans(a, b, c);
  }

  lemma KeepsPointwise(a: seq<Message>, b: seq<Message>, st: Limits)
    requires Pointwise(a, b) && Unmarked(b)
    ensures Keeps(a, b, st)
  {
    PointwiseThinned(a, b);
    PointwiseProtects(a, b, st);
  }

  lemma ShrinkUserKeeps(ms: seq<Message>, compute: bool, fallback: bool, st: Limits)
    requires Unmarked(ms)
    ensures Pointwise(ms, ShrinkUser(ms, compute, fallback, st)) && Keeps(ms, ShrinkUser(ms, compute, fallback, st), st)
  {
    var i := LatestUser(ms, fallback);
    if i >= 0 {
      ShrinkKindsEdits(ms, i, USER_KINDS, compute, st);
    }
    KeepsPointwise(ms, ShrinkUser(ms, compute, fallback, st), st);
  }

  lemma ShrinkSummaryKeeps(ms: seq<Message>, compute: bool, st: Limits)
    requires Unmarked(ms)
    ensures Pointwise(ms, ShrinkSummary(ms, compute, st)) && Keeps(ms, ShrinkSummary(ms, compute, st), st)
  {
    var i := FirstOf(ms, "system");
    if i < |ms| {
      ShrinkAtEdits(ms, i, Summary, 1000, compute, st);
    }
    KeepsPointwise(ms, ShrinkSummary(ms, compute, st), st);
  }

  lemma AfterDrop(ms: seq<Message>, b: seq<Message>, floor: nat, st: Limits)
    requires Keeps(ms, b, st)
    ensures Keeps(ms, DropOldTurns(b, floor, st), st)
  {
    DropKeeps(b, floor, st);
    KeepsTrans(ms, b, DropOldTurns(b, floor, st), st);
  }

  lemma AfterUser(ms: seq<Message>, b: seq<Message>, compute: bool, fallback: bool, st: Limits)
    requires Keeps(ms, b, st)
    ensures Keeps(ms, ShrinkUser(b, compute, fallback, st), st)
  {
    ShrinkUserKeeps(b, compute, fallback, st);
    KeepsTrans(ms, b, ShrinkUser(b, compute, fallback, st), st);
  }

  lemma AfterSummary(ms: seq<Message>, b: seq<Message>, compute: bool, st: Limits)
    requires Keeps(ms, b, st)
    ensures Keeps(ms, ShrinkSummary(b, compute, st), st)
  {
    ShrinkSummaryKeeps(b, compute, st);
    KeepsTrans(ms, b, ShrinkSummary(b, compute, st), st);
  }

  lemma PairedKeeps(ms: seq<Message>, st: Limits)
    requires Unmarked(ms)
    ensures Keeps(ms, Trimmed(ms, st), st) && Keeps(ms, Paired(ms, st), st)
  {
    KeepsPointwise(ms, ms, st);
    AfterDrop(ms, ms, FirstFloor(st), st);
    AfterUser(ms, DropOldTurns(ms, FirstFloor(st), st), true, true, st);
    AfterDrop(ms, Trimmed(ms, st), 1, st);
  }

  lemma EmptiedKeeps(ms: seq<Message>, st: Limits)
    requires Unmarked(ms)
    ensures Keeps(ms, Summarised(ms, st), st) && Keeps(ms, Emptied(ms, st), st)
  {
    PairedKeeps(ms, st);
    AfterSummary(ms, Paired(ms, st), true, st);
    var d := Summarised(ms, st);
    AfterUser(ms, d, false, false, st);
    AfterSummary(ms, if Over(d, st) then ShrinkUser(d, false, false, st) else d, false, st);
  }

  /** Whatever the budget: turns alone are dropped, never the newest nor a kept assistant; all other messages stay in
      order with their fixed text unchanged. */
  lemma CompactionKeeps(ms: seq<Message>, st: Limits)
    requires Unmarked(ms)
    ensures Keeps(ms, Compacted(ms, st), st)
  {
    EmptiedKeeps(ms, st);
    AfterDrop(ms, Emptied(ms, st), 0, st);
    KeepsPointwise(ms, ms, st);
  }

  /** The system and other non-turn messages, by identity and role. */
  function Backbone(ms: seq<Message>): seq<Id> {
    if ms == [] then []
    else
      var n := |ms| - 1;
      Backbone(ms[..n]) + (if ms[n].IsTurn() then [] else [Id.Id(ms[n].id, ms[n].role)])
  }

  lemma {:induction false} ThinnedBackbone(before: seq<Message>, after: seq<Message>)
    requires Thinned(before, after)
    ensures Backbone(after) == Backbone(before)
  {
    if before != [] {
      var n := |before| - 1;
      if after != [] && Edited(before[n], after[|after| - 1]) && Thinned(before[..n], after[..|after| - 1]) {
        ThinnedBackbone(before[..n], after[..|after| - 1]);
      } else {
        ThinnedBackbone(before[..n], after);
      }
    }
  }

  /** System messages all survive, in order. */
  lemma SystemMessagesSurvive(ms: seq<Message>, st: Limits)
    requires Unmarked(ms)
    ensures Backbone(Compacted(ms, st)) == Backbone(ms)
  {
    CompactionKeeps(ms, st);
    ThinnedBackbone(ms, Compacted(ms, st));
  }

  lemma {:induction false} ThinnedOrderly(before: seq<Message>, after: seq<Message>)
    requires Thinned(before, after) && UsersOrderly(before)
    ensures UsersOrderly(after)
  {
    if before != [] {
      var n := |before| - 1;
      if after != [] && Edited(before[n], after[|after| - 1]) && Thinned(before[..n], after[..|after| - 1]) {
        ThinnedOrderly(before[..n], after[..|after| - 1]);
      } else {
        ThinnedOrderly(before[..n], after);
      }
    }
  }

  // ---- After a computed trim ----

  /** No section of these kinds, recorded or found by its tags, is longer than the maximum. */
  predicate Within(m: Message, kinds: seq<Kind>, maximum: nat) {
    && (Aligned(m) ==>
          forall k: nat :: k < |m.spans.value| && m.spans.value[k].kind in kinds ==> |SectionOf(m, k)| <= maximum)
    && (m.spans.None? ==> ShortFound(TextOf(m.content), kinds, maximum))
  }

  predicate ShortFound(text: string, kinds: seq<Kind>, maximum: nat) {
    forall kind :: kind in kinds ==> ShortAt(text, kind, maximum)
  }

  predicate ShortAt(text: string, kind: Kind, maximum: nat) {
    FoundSection(text, kind).Some? ==> FoundSection(text, kind).value.1 - FoundSection(text, kind).value.0 <= maximum
  }

  lemma ShrinkWithin(m: Message, kind: Kind, kinds: seq<Kind>, target: int, maximum: nat)
    requires Aligned(m) && Within(m, kinds, maximum) && target <= maximum
    ensures Within(Shrink(m, kind, target), kinds + [kind], maximum)
  {
    ShrinkAligned(m, kind, target);
  }

  lemma NoSpanWithin(m: Message, kind: Kind, kinds: seq<Kind>, maximum: nat)
    requires Aligned(m) && Within(m, kinds, maximum) && OptionalSpan(m, kind).None?
    ensures Within(m, kinds + [kind], maximum)
  {
    RecordedOptional(m, kind);
    forall k: nat | k < |m.spans.value| ensures m.spans.value[k].kind != kind {
      if m.spans.value[k].kind == kind {
        RecordedIsTheSpan(m.spans.value, kind, |TextOf(m.content)|, k);
      }
    }
  }

  /** A visit by tags: its own section ends within the maximum, and those visited before stay there. */
  lemma FoundWithin(m: Message, kind: Kind, kinds: seq<Kind>, target: int, maximum: nat)
    requires m.spans.None? && Within(m, kinds, maximum) && target <= maximum && (target <= 0 || target >= 80)
    requires if kind == Summary then target == 0 && kinds == [] else Separate(TextOf(m.content)) && Summary !in kinds
    ensures Within(Shrink(m, kind, target), kinds + [kind], maximum)
  {
    var text := TextOf(m.content);
    var out := TrimFound(text, kind, target);
    ShrinkFound(m, kind, target);
    forall j | j in kinds + [kind] ensures ShortAt(out, j, maximum) {
      if kind == Summary {
        if SummarySection(text).Some? { EmptySummary(text); }
      } else {
        FoundShort(text, kind, j, target, maximum);
      }
    }
  }

  lemma FoundShort(text: string, kind: Kind, j: Kind, target: int, maximum: nat)
    requires kind != Summary && j != Summary && Separate(text) && target <= maximum && (target <= 0 || target >= 80)
    requires j != kind ==> ShortAt(text, j, maximum)
    ensures ShortAt(TrimFound(text, kind, target), j, maximum)
  {
    var out := TrimFound(text, kind, target);
    ShownBounds(out, j);
    ShownBounds(text, j);
    if j == kind {
      if SectionText(out, kind).Some? { TrimShort(text, kind, maximum, target); }
    } else {
      assert SeparateAt(text, kind, j) && SeparateAt(text, j, kind);
      TrimLeavesOthers(text, kind, j, target);
    }
  }

  lemma NothingFoundWithin(m: Message, kind: Kind, kinds: seq<Kind>, maximum: nat)
    requires m.spans.None? && Within(m, kinds, maximum) && OptionalSpan(m, kind).None?
    ensures Within(m, kinds + [kind], maximum)
  {
    assert ShortAt(TextOf(m.content), kind, maximum);
    forall j | j in kinds + [kind] ensures ShortAt(TextOf(m.content), j, maximum) {
      assert j in kinds || j == kind;
    }
  }

  /** What a visit to a kind relies on. */
  ghost predicate Ready(m: Message, kind: Kind, kinds: seq<Kind>) {
    && (m.spans.Some? ==> Aligned(m))
    && (m.spans.None? ==> if kind == Summary then kinds == [] else Separate(TextOf(m.content)) && Summary !in kinds)
  }

  lemma VisitWithin(m: Message, kind: Kind, kinds: seq<Kind>, target: int, maximum: nat)
    requires Ready(m, kind, kinds) && Within(m, kinds, maximum) && target <= maximum && (target <= 0 || target >= 80)
    requires kind == Summary ==> target == 0
    ensures Within(Shrink(m, kind, target), kinds + [kind], maximum)
  {
    if m.spans.Some? {
      ShrinkWithin(m, kind, kinds, target, maximum);
    } else {
      FoundWithin(m, kind, kinds, target, maximum);
    }
  }

  /** One visit leaves the section within the maximum, or else the prompt within budget. */
  lemma ShrinkAtBounds(ms: seq<Message>, i: nat, kind: Kind, kinds: seq<Kind>, least: nat, compute: bool, maximum: nat, st: Limits)
    requires i < |ms| && Unmarked(ms) && Ready(ms[i], kind, kinds) && Within(ms[i], kinds, maximum)
    requires maximum == (if compute then least else 0) && least >= 80 && (kind == Summary ==> !compute)
    ensures Over(ShrinkAt(ms, i, kind, least, compute, st), st) ==>
              Within(ShrinkAt(ms, i, kind, least, compute, st)[i], kinds + [kind], maximum)
  {
    var found := OptionalSpan(ms[i], kind);
    if found.None? {
      if ms[i].spans.Some? {
        NoSpanWithin(ms[i], kind, kinds, maximum);
      } else {
        NothingFoundWithin(ms[i], kind, kinds, maximum);
      }
    } else {
      var s := found.value;
      var target := Target(ms, s, least, compute, st);
      if compute && s.end - s.start - Deficit(ms, st) - 64 >= least {
        OneTrimSuffices(ms, i, kind, least, st);
      } else {
        VisitWithin(ms[i], kind, kinds, target, maximum);
      }
    }
  }

  lemma ShrinkAtOrderly(ms: seq<Message>, i: nat, kind: Kind, least: nat, compute: bool, st: Limits)
    requires i < |ms| && Unmarked(ms) && Orderly(ms[i]) && kind != Summary && least >= 80
    ensures var next := ShrinkAt(ms, i, kind, least, compute, st); Unmarked(next) && Orderly(next[i])
  {
    ShrinkAtEdits(ms, i, kind, least, compute, st);
    var found := OptionalSpan(ms[i], kind);
    if ms[i].spans.None? && found.Some? {
      var target := Target(ms, found.value, least, compute, st);
      ShrinkFound(ms[i], kind, target);
      TrimStaysSeparate(TextOf(ms[i].content), kind, target);
    }
  }

  /** A pass over the kinds ends within budget or with every visited section within the maximum. */
  lemma {:induction false} ShrinkKindsBounds(ms: seq<Message>, i: nat, done: seq<Kind>, kinds: seq<Kind>, compute: bool,
                                             maximum: nat, st: Limits)
    requires i < |ms| && Unmarked(ms) && Orderly(ms[i]) && Within(ms[i], done, maximum) && Summary !in done + kinds
    requires maximum == if compute then 512 else 0
    ensures Over(ShrinkKinds(ms, i, kinds, compute, st), st) ==>
              Within(ShrinkKinds(ms, i, kinds, compute, st)[i], done + kinds, maximum)
    decreases |kinds|, 1
  {
    if kinds == [] || !Over(ms, st) {
      assert done + [] == done;
    } else {
      assert kinds[0] in done + kinds;
      var next := ShrinkAt(ms, i, kinds[0], 512, compute, st);
      ShrinkAtBounds(ms, i, kinds[0], done, 512, compute, maximum, st);
      ShrinkAtOrderly(ms, i, kinds[0], 512, compute, st);
      RestBounds(ms, i, done, kinds, next, compute, maximum, st);
    }
  }

  lemma {:induction false} RestBounds(ms: seq<Message>, i: nat, done: seq<Kind>, kinds: seq<Kind>, next: seq<Message>,
                                      compute: bool, maximum: nat, st: Limits)
    requires kinds != [] && i < |next| && Unmarked(next) && Orderly(next[i]) && maximum == if compute then 512 else 0
    requires Summary !in done + kinds && (Over(next, st) ==> Within(next[i], done + [kinds[0]], maximum))
    ensures Over(ShrinkKinds(next, i, kinds[1..], compute, st), st) ==>
              Within(ShrinkKinds(next, i, kinds[1..], compute, st)[i], done + kinds, maximum)
    decreases |kinds|, 0
  {
    if Over(next, st) {
      assert done + [kinds[0]] + kinds[1..] == done + kinds;
      ShrinkKindsBounds(next, i, done + [kinds[0]], kinds[1..], compute, maximum, st);
    } else {
      ShrinkKindsNeverGrows(next, i, kinds[1..], compute, st);
    }
  }

  /** Messages that a drop leaves are messages of the prompt, unchanged. */
  lemma DropLeavesOrderly(ms: seq<Message>, floor: nat, st: Limits)
    requires AllOrderly(ms)
    ensures AllOrderly(DropOldTurns(ms, floor, st))
  {
    var marked, k := DropMarks(ms, floor, st);
    forall j: nat | j < |Live(marked)| ensures Orderly(Live(marked)[j]) {
      var i := LiveOrigin(marked, j);
      assert marked[i].spans == ms[i].spans && marked[i].content == ms[i].content;
      SameOrderly(ms[i], marked[i]);
    }
  }

  lemma SameOrderly(a: Message, b: Message)
    requires Orderly(a) && b.spans == a.spans && b.content == a.content
    ensures Orderly(b)
  {
  }

  /** A pass over the sections of the visited message that ends over budget leaves them all within its maximum. */
  lemma UserPassBounds(a: seq<Message>, compute: bool, fallback: bool, maximum: nat, st: Limits)
    requires Unmarked(a) && maximum == (if compute then 512 else 0) && Over(ShrinkUser(a, compute, fallback, st), st)
    requires var i := LatestUser(a, fallback); i >= 0 ==> Orderly(a[i])
    ensures var out := ShrinkUser(a, compute, fallback, st); var i := LatestUser(out, fallback);
      |out| == |a| && i == LatestUser(a, fallback) && LastOf(out, "user") == LastOf(a, "user")
      && (i >= 0 ==> Within(out[i], USER_KINDS, maximum))
  {
    var i := LatestUser(a, fallback);
    ShrinkUserKeeps(a, compute, fallback, st);
    PointwiseIndices(a, ShrinkUser(a, compute, fallback, st), "user");
    if i >= 0 {
      ShrinkKindsBounds(a, i, [], USER_KINDS, compute, maximum, st);
      assert [] + USER_KINDS == USER_KINDS;
    }
  }

  /** Still over budget after retrieval was trimmed by target: the visited message has no section above 512 characters. */
  lemma TrimmedSectionsAreShort(ms: seq<Message>, st: Limits)
    requires Unmarked(ms) && AllOrderly(ms) && Over(Trimmed(ms, st), st)
    ensures var i := LatestUser(Trimmed(ms, st), true); i >= 0 ==> Within(Trimmed(ms, st)[i], USER_KINDS, 512)
  {
    var a := DropOldTurns(ms, FirstFloor(st), st);
    DropKeeps(ms, FirstFloor(st), st);
    DropLeavesOrderly(ms, FirstFloor(st), st);
    ShrinkUserNeverGrows(a, true, true, st);
    UserPassBounds(a, true, true, 512, st);
  }

  /** The summary is reached only when at most one unprotected turn is left. */
  lemma SummaryComesAfterHistory(ms: seq<Message>, st: Limits)
    requires Unmarked(ms) && Over(Paired(ms, st), st)
    ensures |Removable(Paired(ms, st), st)| <= 1
  {
    var b := Trimmed(ms, st);
    PairedKeeps(ms, st);
    DropNeverGrows(b, 1, st);
    DropExhausts(b, 1, st);
  }

  // ---- Exhaustion ----

  /** Once the empty targets have been used up, the latest user turn has only empty sections. */
  lemma UserSectionsEmptied(d: seq<Message>, st: Limits)
    requires Unmarked(d) && UsersOrderly(d) && Over(ShrinkUser(d, false, false, st), st)
    ensures var e := ShrinkUser(d, false, false, st); var i := LastOf(e, "user");
            i >= 0 ==> Within(e[i], USER_KINDS, 0)
  {
    var i := LatestUser(d, false);
    if i >= 0 {
      assert OrderlyIfUser(d[i]);
    }
    UserPassBounds(d, false, false, 0, st);
  }

  /** Over budget before the last drop: the first system message's summary and the latest user's sections are empty. */
  lemma EmptiedIsEmpty(ms: seq<Message>, st: Limits)
    requires Unmarked(ms) && UsersOrderly(ms) && Over(Emptied(ms, st), st)
    ensures var f := Emptied(ms, st);
            && (var i := LastOf(f, "user"); i >= 0 ==> Within(f[i], USER_KINDS, 0))
            && (var j := FirstOf(f, "system"); j < |f| ==> Within(f[j], [Summary], 0))
  {
    var d := Summarised(ms, st);
    EmptiedKeeps(ms, st);
    ThinnedOrderly(ms, d);
    var e := if Over(d, st) then ShrinkUser(d, false, false, st) else d;
    ShrinkUserNeverGrows(d, false, false, st);
    ShrinkSummaryNeverGrows(e, false, st);
    UserSectionsEmptied(d, st);
    ShrinkUserKeeps(d, false, false, st);
    ThinnedOrderly(d, e);
    SummaryEmptied(e, st);
  }

  lemma SummaryEmptied(e: seq<Message>, st: Limits)
    requires Unmarked(e) && UsersOrderly(e) && Over(ShrinkSummary(e, false, st), st)
    requires var i := LastOf(e, "user"); i >= 0 ==> Within(e[i], USER_KINDS, 0)
    ensures var f := ShrinkSummary(e, false, st);
            && (var i := LastOf(f, "user"); i >= 0 ==> Within(f[i], USER_KINDS, 0))
            && (var j := FirstOf(f, "system"); j < |f| ==> Within(f[j], [Summary], 0))
  {
    var f := ShrinkSummary(e, false, st);
    ShrinkSummaryKeeps(e, false, st);
    PointwiseIndices(e, f, "user");
    PointwiseFirst(e, f, "system");
    var j := FirstOf(e, "system");
    if j < |e| {
      assert OrderlyIfUser(e[j]);
      ShrinkAtBounds(e, j, Summary, [], 1000, false, 0, st);
      assert [] + [Summary] == [Summary];
    }
  }

  lemma {:induction false} PointwiseFirst(before: seq<Message>, after: seq<Message>, role: string)
    requires Pointwise(before, after)
    ensures FirstOf(after, role) == FirstOf(before, role)
  {
    if before != [] {
      PointwiseFirst(before[1..], after[1..], role);
    }
  }

  lemma {:induction false} LiveOrigin(ms: seq<Message>, j: nat) returns (i: nat)
    requires j < |Live(ms)|
    ensures i < |ms| && !ms[i].dropped && Rank(ms, i) == j && Live(ms)[j] == ms[i]
  {
    var n := |ms| - 1;
    assert ms[..n + 1] == ms;
    RankNext(ms, n);
    if j < |Live(ms[..n])| {
      i := LiveOrigin(ms[..n], j);
      assert ms[..n][..i] == ms[..i];
    } else {
      i := n;
    }
  }

  predicate Exhausted(ms: seq<Message>, st: Limits) {
    && Removable(ms, st) == []
    && (forall i :: 0 <= i < |ms| && ms[i].role == "user" ==> Within(ms[i], USER_KINDS, 0))
    && (var j := FirstOf(ms, "system"); j < |ms| ==> Within(ms[j], [Summary], 0))
  }

  /** A user turn left in a prompt without removable turns is its newest turn. */
  lemma OnlyProtectedTurns(ms: seq<Message>, i: nat, st: Limits)
    requires Unmarked(ms) && Removable(ms, st) == [] && i < |ms| && ms[i].role == "user"
    ensures i == LastTurn(ms) == LastOf(ms, "user")
  {
    RemovableFits(ms, st);
    assert IsOther(ms, i, LastTurn(ms), Kept(ms, st)) ==> i in Removable(ms, st);
  }

  /** The user turns and the first system message that a drop leaves are those of the prompt before it. */
  lemma LeftUser(f: seq<Message>, marked: seq<Message>, i: nat, st: Limits)
    requires Pointwise(f, marked) && (LastTurn(f) >= 0 ==> !marked[LastTurn(f)].dropped)
    requires Removable(Live(marked), st) == [] && i < |Live(marked)| && Live(marked)[i].role == "user"
    ensures var l := LastOf(f, "user"); l >= 0 && Live(marked)[i] == marked[l] && !marked[l].dropped
  {
    OnlyProtectedTurns(Live(marked), i, st);
    PointwiseIndices(f, marked, "user");
    LastLive(marked, "user");
    var o := LiveOrigin(marked, i);
    SameRank(marked, o, LastTurn(marked));
    LastIsUser(f, o);
  }

  lemma LastIsUser(f: seq<Message>, o: nat)
    requires o < |f| && o == LastTurn(f) && f[o].role == "user"
    ensures LastOf(f, "user") == o
  {
  }

  lemma LeftSystem(f: seq<Message>, marked: seq<Message>)
    requires Pointwise(f, marked) && FirstOf(Live(marked), "system") < |Live(marked)|
    requires forall i :: 0 <= i < |f| && marked[i].dropped ==> marked[i].IsTurn()
    ensures var j := FirstOf(f, "system");
            j < |f| && !marked[j].dropped && Live(marked)[FirstOf(Live(marked), "system")] == marked[j]
  {
    var first := FirstOf(f, "system");
    var o := LiveOrigin(marked, FirstOf(Live(marked), "system"));
    assert f[o].role == "system";
    LiveAt(marked, first);
    if first < o {
      RankMonotone(marked, first, o);
    }
  }

  lemma LeftIsExhausted(f: seq<Message>, marked: seq<Message>, st: Limits)
    requires Pointwise(f, marked) && Removable(Live(marked), st) == []
    requires forall i :: 0 <= i < |f| ==> marked[i].dropped || marked[i] == f[i]
    requires forall i :: 0 <= i < |f| && marked[i].dropped ==> marked[i].IsTurn() && i != LastTurn(f)
    requires var i := LastOf(f, "user"); i >= 0 ==> Within(f[i], USER_KINDS, 0)
    requires var j := FirstOf(f, "system"); j < |f| ==> Within(f[j], [Summary], 0)
    ensures Exhausted(Live(marked), st)
  {
    var out := Live(marked);
    forall i | 0 <= i < |out| && out[i].role == "user" ensures Within(out[i], USER_KINDS, 0) {
      LeftUser(f, marked, i, st);
    }
    if FirstOf(out, "system") < |out| {
      LeftSystem(f, marked);
    }
  }

  lemma LastDropExhausts(f: seq<Message>, st: Limits)
    requires Unmarked(f) && Over(DropOldTurns(f, 0, st), st)
    requires var i := LastOf(f, "user"); i >= 0 ==> Within(f[i], USER_KINDS, 0)
    requires var j := FirstOf(f, "system"); j < |f| ==> Within(f[j], [Summary], 0)
    ensures Exhausted(DropOldTurns(f, 0, st), st)
  {
    DropExhausts(f, 0, st);
    var marked, k := DropMarks(f, 0, st);
    LeftIsExhausted(f, marked, st);
  }

  lemma SameRank(ms: seq<Message>, i: nat, j: int)
    requires i < |ms| && -1 <= j < |ms| && !ms[i].dropped && (j >= 0 ==> !ms[j].dropped) && Rank(ms, i) == Rank(ms, j)
    ensures i == j
  {
    RankDiffers(ms, i, j);
  }

  /** Over budget is reported only when there is nothing left to give: only protected turns remain, every surviving
      user turn has empty optional sections, recorded or found by their tags, and so has the first system message its
      summary. */
  lemma OverBudgetIsExhausted(ms: seq<Message>, st: Limits)
    requires Unmarked(ms) && UsersOrderly(ms) && Over(Compacted(ms, st), st)
    ensures Exhausted(Compacted(ms, st), st)
  {
    var f := Emptied(ms, st);
    CompactionNeverGrows(ms, st);
    DropNeverGrows(f, 0, st);
    EmptiedKeeps(ms, st);
    EmptiedIsEmpty(ms, st);
    LastDropExhausts(f, st);
  }
}
