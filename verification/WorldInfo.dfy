/** World Info activation (the loop of build_world_info, bridge/card_content.py 148-197). */
module WorldInfo {
  import opened TextTools
  import opened Activation

  datatype Entry = Entry(disabled: bool, constant: bool, keys: seq<string>, secondary: seq<string>, content: string)

  /** One world: its entries, the context it is matched against, str.casefold and str.strip. */
  datatype World = World(entries: seq<Entry>, context: string, fold: string -> string, strip: string -> string)

  predicate Contains(text: string, pat: string) { exists i :: 0 <= i <= |text| && At(text, pat, i) }

  predicate AnyIn(w: World, keys: seq<string>, text: string) {
    exists k :: 0 <= k < |keys| && w.strip(keys[k]) != "" && Contains(text, w.fold(keys[k]))
  }

  predicate Hit(w: World, e: Entry, text: string) {
    && !e.disabled
    && (e.constant || AnyIn(w, e.keys, text))
    && (e.secondary == [] || AnyIn(w, e.secondary, text))
    && w.strip(e.content) != ""
  }

  function Folded(w: World, i: nat): string {
    if i < |w.entries| then w.fold(w.strip(w.entries[i].content)) else ""
  }

  /** The text keys are looked for in: the context, then the contents activated so far. */
  function Gathered(w: World, ids: seq<nat>): string {
    if ids == [] then w.fold(w.context)
    else Gathered(w, ids[..|ids| - 1]) + ("\n" + Folded(w, ids[|ids| - 1]))
  }

  function Rules(w: World): Rule {
    (ids: seq<nat>, i: nat) => i < |w.entries| && Hit(w, w.entries[i], Gathered(w, ids))
  }

  const PASSES: nat := 3

  /** The loop as it stands: three passes in the order of the entries; the flag is whether the last changed nothing. */
  function Activated(w: World): (seq<nat>, bool) {
    Passes([], Rules(w), UpTo(|w.entries|), PASSES)
  }

  lemma PassNext(before: seq<nat>, rule: Rule, index: nat)
    ensures Pass(before, rule, UpTo(index + 1)) == Visit(Pass(before, rule, UpTo(index)), rule, index)
  {
    assert UpTo(index + 1)[..index] == UpTo(index);
  }

  lemma GatheredNext(w: World, ids: seq<nat>, i: nat)
    requires i < |w.entries|
    ensures Gathered(w, ids + [i]) == Gathered(w, ids) + ("\n" + w.fold(w.strip(w.entries[i].content)))
  {
    assert (ids + [i])[..|ids|] == ids;
  }

  /** One entry of one pass. */
  method VisitEntry(w: World, before: seq<nat>, text: string, index: nat)
    returns (activated: seq<nat>, lowered: string, changed: bool)
    requires index < |w.entries| && text == Gathered(w, before)
    ensures activated == Visit(before, Rules(w), index) && lowered == Gathered(w, activated)
    ensures changed <==> |activated| > |before|
    ensures !changed ==> activated == before
  {
    activated, lowered, changed := before, text, false;
    var entry := w.entries[index];
    var hit := Hit(w, entry, lowered);
    assert Rules(w)(before, index) == hit;
    if index !in activated && hit {
      GatheredNext(w, activated, index);
      activated := activated + [index];
      lowered := lowered + ("\n" + w.fold(w.strip(entry.content)));
      changed := true;
    }
  }

  /** Where a pass stands before the entry at index. */
  predicate Stands(w: World, before: seq<nat>, index: nat, activated: seq<nat>, lowered: string, changed: bool) {
    && activated == Pass(before, Rules(w), UpTo(index)) && lowered == Gathered(w, activated)
    && |before| <= |activated| && (changed <==> |before| < |activated|) && (!changed ==> activated == before)
  }

  method Turn(w: World, ghost before: seq<nat>, index: nat, activated: seq<nat>, lowered: string, changed: bool)
    returns (activated': seq<nat>, lowered': string, changed': bool)
    requires index < |w.entries| && Stands(w, before, index, activated, lowered, changed)
    ensures Stands(w, before, index + 1, activated', lowered', changed')
  {
    PassNext(before, Rules(w), index);
    var one;
    activated', lowered', one := VisitEntry(w, activated, lowered, index);
    changed' := changed || one;
  }

  method OnePass(w: World, before: seq<nat>, text: string) returns (activated: seq<nat>, lowered: string, changed: bool)
    requires text == Gathered(w, before)
    ensures Stands(w, before, |w.entries|, activated, lowered, changed)
  {
    activated, lowered, changed := before, text, false;
    var index := 0;
    while index < |w.entries|
      invariant index <= |w.entries| && Stands(w, before, index, activated, lowered, changed)
    {
      activated, lowered, changed := Turn(w, before, index, activated, lowered, changed);
      index := index + 1;
    }
  }

  method Activate(w: World) returns (activated: seq<nat>, settled: bool)
    ensures (activated, settled) == Activated(w)
  {
    var lowered, pass := w.fold(w.context), 0;
    activated, settled := [], false;
    while pass < PASSES
      invariant pass <= PASSES && lowered == Gathered(w, activated)
      invariant Passes(activated, Rules(w), UpTo(|w.entries|), PASSES - pass) == Activated(w)
    {
      var changed;
      activated, lowered, changed := OnePass(w, activated, lowered);
      if !changed {
        return activated, true;
      }
      pass := pass + 1;
    }
  }

  // ---- The rules on sets of entries ----

  /** The key stands in the context or in the content of an active entry. */
  predicate Mentioned(w: World, active: set<nat>, key: string) {
    Contains(w.fold(w.context), key) || exists i :: i in active && Contains(Folded(w, i), key)
  }

  predicate AnyMentioned(w: World, active: set<nat>, keys: seq<string>) {
    exists k :: 0 <= k < |keys| && w.strip(keys[k]) != "" && Mentioned(w, active, w.fold(keys[k]))
  }

  /** The constant, key and secondary-key rules. */
  function Calls(w: World): SetRule {
    (active: set<nat>, i: nat) => i < |w.entries| && Called(w, active, w.entries[i])
  }

  predicate Called(w: World, active: set<nat>, e: Entry) {
    && !e.disabled
    && (e.constant || AnyMentioned(w, active, e.keys))
    && (e.secondary == [] || AnyMentioned(w, active, e.secondary))
    && w.strip(e.content) != ""
  }

  predicate NewlineFree(s: string) { '\n' !in s }

  predicate Plain(keys: seq<string>, fold: string -> string) {
    forall k :: 0 <= k < |keys| ==> NewlineFree(fold(keys[k]))
  }

  predicate PlainEntry(w: World, i: nat)
    requires i < |w.entries|
  {
    Plain(w.entries[i].keys, w.fold) && Plain(w.entries[i].secondary, w.fold)
  }

  /** No folded key holds a newline, so none can match across two texts. */
  predicate PlainKeys(w: World) { forall i :: 0 <= i < |w.entries| ==> PlainEntry(w, i) }

  lemma Inside(text: string, part: string, from: nat, pat: string, i: nat)
    requires from + |part| <= |text| && text[from..from + |part|] == part && i + |pat| <= |part|
    ensures At(part, pat, i) <==> At(text, pat, from + i)
  {
    forall j | 0 <= j < |part| ensures part[j] == text[from + j] {
      assert text[from..from + |part|][j] == text[from + j];
    }
    assert part[i..i + |pat|] == text[from + i..from + i + |pat|];
  }

  lemma InLeft(a: string, b: string, pat: string)
    requires Contains(a, pat)
    ensures Contains(a + ("\n" + b), pat)
  {
    var i: nat :| i <= |a| && At(a, pat, i);
    Inside(a + ("\n" + b), a, 0, pat, i);
    assert At(a + ("\n" + b), pat, i);
  }

  lemma InRight(a: string, b: string, pat: string)
    requires Contains(b, pat)
    ensures Contains(a + ("\n" + b), pat)
  {
    var i: nat :| i <= |b| && At(b, pat, i);
    Inside(a + ("\n" + b), b, |a| + 1, pat, i);
    assert At(a + ("\n" + b), pat, |a| + 1 + i);
  }

  lemma InEither(a: string, b: string, pat: string, i: nat)
    requires NewlineFree(pat) && At(a + ("\n" + b), pat, i)
    ensures Contains(a, pat) || Contains(b, pat)
  {
    var text := a + ("\n" + b);
    assert text[|a|] == '\n';
    NotAcross(text, |a|, pat, i);
    if i + |pat| <= |a| {
      Inside(text, a, 0, pat, i);
      assert At(a, pat, i);
    } else {
      Inside(text, b, |a| + 1, pat, i - |a| - 1);
      assert At(b, pat, i - |a| - 1);
    }
  }

  lemma AcrossNewline(a: string, b: string, pat: string)
    requires NewlineFree(pat)
    ensures Contains(a + ("\n" + b), pat) <==> Contains(a, pat) || Contains(b, pat)
  {
    if Contains(a + ("\n" + b), pat) {
      var i: nat :| i <= |a + ("\n" + b)| && At(a + ("\n" + b), pat, i);
      InEither(a, b, pat, i);
    } else if Contains(a, pat) {
      InLeft(a, b, pat);
    } else if Contains(b, pat) {
      InRight(a, b, pat);
    }
  }

  lemma NotAcross(text: string, cut: nat, pat: string, i: nat)
    requires NewlineFree(pat) && cut < |text| && text[cut] == '\n' && At(text, pat, i)
    ensures i + |pat| <= cut || i > cut
  {
    if i <= cut < i + |pat| {
      CharAt(text, pat, i, cut);
      assert false;
    }
  }

  lemma CharAt(text: string, pat: string, i: nat, at: nat)
    requires At(text, pat, i) && i <= at < i + |pat|
    ensures text[at] in pat
  {
    assert text[i..i + |pat|][at - i] == text[at];
  }

  lemma {:induction false} GatheredMentions(w: World, ids: seq<nat>, key: string)
    requires NewlineFree(key)
    ensures Contains(Gathered(w, ids), key) <==> Mentioned(w, Ids(ids), key)
  {
    if ids != [] {
      var rest, last := ids[..|ids| - 1], ids[|ids| - 1];
      GatheredMentions(w, rest, key);
      AcrossNewline(Gathered(w, rest), Folded(w, last), key);
      MentionedNext(w, rest, last, key);
      assert ids == rest + [last];
    }
  }

  lemma MentionedNext(w: World, rest: seq<nat>, last: nat, key: string)
    ensures Mentioned(w, Ids(rest + [last]), key) <==> Mentioned(w, Ids(rest), key) || Contains(Folded(w, last), key)
  {
    IdsNext(rest, last);
    assert last in Ids(rest) + {last};
  }

  lemma IdsNext(rest: seq<nat>, last: nat)
    ensures Ids(rest + [last]) == Ids(rest) + {last}
  {
    var ids := rest + [last];
    assert ids[|rest|] == last && forall k :: 0 <= k < |rest| ==> ids[k] == rest[k];
  }

  lemma AnyInMentions(w: World, ids: seq<nat>, keys: seq<string>)
    requires Plain(keys, w.fold)
    ensures AnyIn(w, keys, Gathered(w, ids)) <==> AnyMentioned(w, Ids(ids), keys)
  {
    forall k | 0 <= k < |keys|
      ensures Contains(Gathered(w, ids), w.fold(keys[k])) <==> Mentioned(w, Ids(ids), w.fold(keys[k]))
    {
      GatheredMentions(w, ids, w.fold(keys[k]));
    }
  }

  lemma MentionedGrows(w: World, a: set<nat>, b: set<nat>, keys: seq<string>)
    requires a <= b && AnyMentioned(w, a, keys)
    ensures AnyMentioned(w, b, keys)
  {
    var k :| 0 <= k < |keys| && w.strip(keys[k]) != "" && Mentioned(w, a, w.fold(keys[k]));
    assert Mentioned(w, b, w.fold(keys[k]));
  }

  lemma CalledGrows(w: World, a: set<nat>, b: set<nat>, e: Entry)
    requires a <= b && Called(w, a, e)
    ensures Called(w, b, e)
  {
    if !e.constant {
      MentionedGrows(w, a, b, e.keys);
    }
    if e.secondary != [] {
      MentionedGrows(w, a, b, e.secondary);
    }
  }

  lemma RuleAgrees(w: World, ids: seq<nat>, i: nat)
    requires PlainKeys(w)
    ensures Rules(w)(ids, i) == Calls(w)(Ids(ids), i)
  {
    if i < |w.entries| {
      assert PlainEntry(w, i);
      AnyInMentions(w, ids, w.entries[i].keys);
      AnyInMentions(w, ids, w.entries[i].secondary);
      assert Hit(w, w.entries[i], Gathered(w, ids)) == Called(w, Ids(ids), w.entries[i]);
    }
  }

  /** With newline-free keys, whether an entry is hit depends only on the set of active entries, and grows with it. */
  lemma RulesAreOnSets(w: World)
    requires PlainKeys(w)
    ensures Sets(Rules(w), Calls(w))
  {
    forall ids: seq<nat>, i: nat ensures AgreesAt(Rules(w), Calls(w), ids, i) {
      RuleAgrees(w, ids, i);
    }
    forall a: set<nat>, b: set<nat>, i: nat ensures GrowsAt(Calls(w), a, b, i) {
      if a <= b && i < |w.entries| && Called(w, a, w.entries[i]) {
        CalledGrows(w, a, b, w.entries[i]);
      }
    }
  }

  // ---- Results ----

  lemma EveryEntry(w: World)
    ensures Covers(UpTo(|w.entries|), |w.entries|)
  {
    forall i: nat | i < |w.entries| ensures i in UpTo(|w.entries|) {
      assert UpTo(|w.entries|)[i] == i;
    }
  }

  /** Each entry is activated at most once, whatever the keys. */
  lemma ActivatedOnce(w: World)
    ensures Once(Activated(w).0) && Within(Activated(w).0, |w.entries|)
  {
    EveryEntry(w);
    PassesResult([], Rules(w), UpTo(|w.entries|), |w.entries|, PASSES);
  }

  /** The activated entries lie in every set closed under the rules. */
  lemma ActivatedIsBelowClosed(w: World)
    requires PlainKeys(w)
    ensures BelowAllClosed(Calls(w), |w.entries|, Ids(Activated(w).0))
  {
    RulesAreOnSets(w);
    EveryEntry(w);
    ActivatedIsBelow(Rules(w), Calls(w), UpTo(|w.entries|), |w.entries|, PASSES);
  }

  /** If the last pass changed nothing, they are exactly the least closed set. */
  lemma SettledActivation(w: World)
    requires PlainKeys(w) && Activated(w).1
    ensures LeastClosed(Calls(w), |w.entries|, Ids(Activated(w).0))
  {
    RulesAreOnSets(w);
    EveryEntry(w);
    Activation.SettledIsLeast(Rules(w), Calls(w), UpTo(|w.entries|), |w.entries|, PASSES);
  }

  /** Had the entries been visited in any other order until nothing changed, the same ones would be active. */
  lemma OrderDoesNotMatter(w: World, order: seq<nat>, passes: nat)
    requires PlainKeys(w) && Covers(order, |w.entries|)
    requires Activated(w).1 && Passes([], Rules(w), order, passes).1
    ensures Ids(Activated(w).0) == Ids(Passes([], Rules(w), order, passes).0)
  {
    SettledActivation(w);
    RulesAreOnSets(w);
    Activation.SettledIsLeast(Rules(w), Calls(w), order, |w.entries|, passes);
  }

  // ---- What an active entry is ----

  /** A key, or a secondary key, that is not blank stands in the folded context or in the folded content of one of these. */
  predicate Found(w: World, active: set<nat>, keys: seq<string>) {
    exists k :: 0 <= k < |keys| && w.strip(keys[k]) != "" && StandsIn(w, active, w.fold(keys[k]))
  }

  predicate StandsIn(w: World, active: set<nat>, key: string) {
    || Contains(w.fold(w.context), key)
    || exists j :: j in active && j < |w.entries| && Contains(w.fold(w.strip(w.entries[j].content)), key)
  }

  /** An entry that is enabled and has content, whose key was found unless it is constant, and a secondary key if it has
      any. */
  predicate Justified(w: World, active: set<nat>, i: nat) {
    && i < |w.entries| && !w.entries[i].disabled && w.strip(w.entries[i].content) != ""
    && (w.entries[i].constant || Found(w, active, w.entries[i].keys))
    && (w.entries[i].secondary != [] ==> Found(w, active, w.entries[i].secondary))
  }

  predicate InRange(w: World, active: set<nat>) { forall j :: j in active ==> j < |w.entries| }

  lemma StandsInIsMentioned(w: World, active: set<nat>, key: string)
    requires InRange(w, active)
    ensures StandsIn(w, active, key) <==> Mentioned(w, active, key)
  {
    if j :| j in active && Contains(Folded(w, j), key) {
      assert Contains(w.fold(w.strip(w.entries[j].content)), key);
    }
    if j :| j in active && j < |w.entries| && Contains(w.fold(w.strip(w.entries[j].content)), key) {
      assert Contains(Folded(w, j), key);
    }
  }

  lemma FoundIsMentioned(w: World, active: set<nat>, keys: seq<string>)
    requires InRange(w, active)
    ensures Found(w, active, keys) <==> AnyMentioned(w, active, keys)
  {
    forall k | 0 <= k < |keys| ensures StandsIn(w, active, w.fold(keys[k])) <==> Mentioned(w, active, w.fold(keys[k])) {
      StandsInIsMentioned(w, active, w.fold(keys[k]));
    }
  }

  lemma JustifiedIsCalled(w: World, active: set<nat>, i: nat)
    requires InRange(w, active)
    ensures Justified(w, active, i) <==> Calls(w)(active, i)
  {
    if i < |w.entries| {
      FoundIsMentioned(w, active, w.entries[i].keys);
      FoundIsMentioned(w, active, w.entries[i].secondary);
    }
  }

  /** Every activated entry is justified by the context and the activated contents; and when the last pass changed nothing,
      every justified entry is activated. */
  lemma ActivatedAreJustified(w: World, i: nat)
    requires PlainKeys(w)
    ensures var (ids, settled) := Activated(w);
      && (i in ids ==> Justified(w, Ids(ids), i))
      && (settled && Justified(w, Ids(ids), i) ==> i in Ids(ids))
  {
    var ids := Activated(w).0;
    RulesAreOnSets(w);
    ActivatedOnce(w);
    PassesCalled([], Rules(w), Calls(w), UpTo(|w.entries|), PASSES);
    assert InRange(w, Ids(ids));
    JustifiedIsCalled(w, Ids(ids), i);
    if i in ids {
      assert CalledAt(Calls(w), ids, i);
    }
    if Activated(w).1 {
      SettledActivation(w);
    }
  }

  /** What an entry set justifies, with what it holds. */
  ghost predicate Reaches(w: World, from: set<nat>, to: set<nat>) {
    forall i: nat :: Justified(w, from, i) || (i in from && i < |w.entries|) ==> i in to
  }

  /** Three rounds are always made: what the context alone justifies is active, and what that justifies, and what that
      justifies in turn, whether or not anything is left to do. */
  lemma ThreeRounds(w: World) returns (one: set<nat>, two: set<nat>, three: set<nat>)
    requires PlainKeys(w)
    ensures Reaches(w, {}, one) && Reaches(w, one, two) && Reaches(w, two, three) && three <= Ids(Activated(w).0)
  {
    var on, n := Calls(w), |w.entries|;
    RulesAreOnSets(w);
    EveryEntry(w);
    PassesReach([], Rules(w), on, UpTo(n), n, 3, {});
    one := Onward(on, n, {});
    two := Onward(on, n, one);
    three := Onward(on, n, two);
    OneRound(w, {}, one);
    OneRound(w, one, two);
    OneRound(w, two, three);
    assert Iterated(on, n, {}, 3) == Iterated(on, n, one, 2) == Iterated(on, n, two, 1) == Iterated(on, n, three, 0);
  }

  lemma OneRound(w: World, from: set<nat>, to: set<nat>)
    requires InRange(w, from) && to == Onward(Calls(w), |w.entries|, from)
    ensures Reaches(w, from, to) && InRange(w, to)
  {
    forall i: nat | Justified(w, from, i) || (i in from && i < |w.entries|) ensures i in to {
      JustifiedIsCalled(w, from, i);
    }
  }

  // ---- Where the promise stops ----

  function Keyed(key: string, content: string): Entry { Entry(false, false, [key], [], content) }

  /** Entry 1 wants a key that spans a newline; entry 0 puts its content after the context and a newline. */
  function Spanning(x: char, y: char, z: char): World {
    World([Keyed([x], [y]), Keyed([x, '\n', y], [z])], [x], (s: string) => s, (s: string) => s)
  }

  lemma SpanningText(x: char, y: char, z: char)
    ensures var w := Spanning(x, y, z);
            Gathered(w, []) == [x] && Folded(w, 0) == [y] && Gathered(w, [0]) == [x, '\n', y]
  {
    var w := Spanning(x, y, z);
    assert [0][..0] == [];
    assert Gathered(w, [0]) == Gathered(w, []) + ("\n" + Folded(w, 0));
  }

  lemma HitBy(w: World, key: string, content: string)
    requires w.strip(key) != "" && w.strip(content) != ""
    ensures Hit(w, Keyed(key, content), w.fold(key))
  {
    var text := w.fold(key);
    assert text[0..|text|] == text;
    assert At(text, text, 0);
    assert Contains(text, w.fold([key][0]));
  }

  lemma VisitsNext(w: World, ids: seq<nat>, i: nat)
    requires i < |w.entries| && i !in ids && Hit(w, w.entries[i], Gathered(w, ids))
    ensures Visit(ids, Rules(w), i) == ids + [i]
  {
    assert Rules(w)(ids, i);
  }

  lemma SpanningPass(x: char, y: char, z: char)
    ensures Pass([], Rules(Spanning(x, y, z)), UpTo(2)) == [0, 1]
  {
    var w := Spanning(x, y, z);
    SpanningText(x, y, z);
    HitBy(w, [x], [y]);
    VisitsNext(w, [], 0);
    HitBy(w, [x, '\n', y], [z]);
    VisitsNext(w, [0], 1);
    PassNext([], Rules(w), 0);
    PassNext([], Rules(w), 1);
  }

  lemma TooLong(text: string, pat: string)
    requires |pat| > |text|
    ensures !Contains(text, pat)
  {
  }

  lemma OnlyZero(w: World, key: string)
    requires !Contains(w.fold(w.context), key) && !Contains(Folded(w, 0), key)
    ensures !Mentioned(w, {0}, key)
  {
  }

  lemma NotCalled(w: World, key: string, content: string, i: nat)
    requires i < |w.entries| && w.entries[i] == Keyed(key, content) && !Mentioned(w, {0}, w.fold(key))
    ensures !Calls(w)({0}, i)
  {
    assert !AnyMentioned(w, {0}, [key]);
  }

  lemma SpanningClosed(x: char, y: char, z: char)
    ensures Closed(Calls(Spanning(x, y, z)), 2, {0})
  {
    var w := Spanning(x, y, z);
    SpanningText(x, y, z);
    TooLong([x], [x, '\n', y]);
    TooLong([y], [x, '\n', y]);
    OnlyZero(w, [x, '\n', y]);
    NotCalled(w, [x, '\n', y], [z], 1);
  }

  lemma SpanningKeys(x: char, y: char, z: char)
    ensures !PlainKeys(Spanning(x, y, z))
  {
    var w := Spanning(x, y, z);
    var key := w.entries[1].keys[0];
    assert w.fold(key)[1] == '\n';
    assert !NewlineFree(w.fold(w.entries[1].keys[0]));
    assert !Plain(w.entries[1].keys, w.fold);
    assert !PlainEntry(w, 1);
  }

  /** A key with a newline can match across two texts, and then escapes the least closed set: whatever the characters
      x, y and z, the set {0} is closed and entry 1 is activated. */
  lemma NewlineKeyEscapes(x: char, y: char, z: char)
    ensures var w := Spanning(x, y, z); Closed(Calls(w), 2, {0}) && 1 in Ids(Activated(w).0) && !PlainKeys(w)
  {
    var w := Spanning(x, y, z);
    SpanningPass(x, y, z);
    SpanningClosed(x, y, z);
    SpanningKeys(x, y, z);
    PassesKeep([0, 1], Rules(w), UpTo(2), 2);
    assert Activated(w).0[1] == 1;
  }

  lemma {:induction false} PassesKeep(ids: seq<nat>, rule: Rule, order: seq<nat>, n: nat)
    ensures ids <= Passes(ids, rule, order, n).0
    decreases n
  {
    PassLength(ids, rule, order);
    if n > 0 && Pass(ids, rule, order) != ids {
      PassesKeep(Pass(ids, rule, order), rule, order, n - 1);
    }
  }
}
