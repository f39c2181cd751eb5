/** What a prompt is estimated at, which section a pair of tags marks, and how far a trim goes. */
module PromptLaws {
  import opened TextTools
  import opened Compaction
  import opened CompactionPhases
  import T = TagSections

  // ---- Estimates ----

  /** t is the least positive number of tokens that n characters fit into at r characters to a token. */
  predicate Least(t: nat, n: nat, r: Ratio) {
    t >= 1 && t as real * r >= n as real && (t > 1 ==> (t - 1) as real * r < n as real)
  }

  lemma Scaled(x: real, y: real, r: Ratio)
    ensures x / r * r == x
    ensures y >= x / r <==> y * r >= x
  {
    assert x / r * r == x;
    if y >= x / r {
      assert (y - x / r) * r >= 0.0;
    } else {
      assert (x / r - y) * r > 0.0;
    }
  }

  lemma TokensAreLeast(n: nat, r: Ratio)
    ensures Least(TextTokens(n, r), n, r)
  {
    var t := TextTokens(n, r);
    Scaled(n as real, t as real, r);
    Scaled(n as real, (t - 1) as real, r);
  }

  /** The estimate is a sum: sixteen for the prompt, eight for a message, a thousand and twenty-four for an image, and for a
      text the least positive number of tokens it fits into; a message marked as dropped counts nothing. */
  lemma EstimateIsASum(a: seq<Message>, b: seq<Message>, m: Message, x: seq<Item>, y: seq<Item>, r: Ratio)
    ensures Estimate([], r) == 16 && Estimate(a + b, r) == Estimate(a, r) + Estimate(b, r) - 16
    ensures m.dropped ==> Estimate([m], r) == 16
    ensures !m.dropped && m.content.Plain? ==> exists t: nat :: Least(t, |m.content.text|, r) && Estimate([m], r) == 24 + t
    ensures !m.dropped && m.content.Other? ==> exists t: nat :: Least(t, |m.content.shown|, r) && Estimate([m], r) == 24 + t
    ensures !m.dropped && m.content == Items(x + y) ==>
              Estimate([m], r) == Estimate([m.(content := Items(x))], r) + Estimate([m.(content := Items(y))], r) - 24
    ensures !m.dropped && m.content == Items([]) ==> Estimate([m], r) == 24
    ensures !m.dropped && m.content == Items([ImageItem]) ==> Estimate([m], r) == 24 + 1024
    ensures !m.dropped && m.content.Items? && |m.content.items| == 1 && !m.content.items[0].ImageItem? ==>
              exists t: nat :: Least(t, |m.content.items[0].text|, r) && Estimate([m], r) == 24 + t
  {
    CostsAdd(a, b, r);
    OneMessage(m, r);
    OneMessage(m.(content := Items(x)), r);
    OneMessage(m.(content := Items(y)), r);
    ItemsAdd(x, y, r);
    match m.content
    case Plain(text) => TokensAreLeast(|text|, r);
    case Other(shown) => TokensAreLeast(|shown|, r);
    case Items(items) =>
      if |items| == 1 && !items[0].ImageItem? {
        TokensAreLeast(|items[0].text|, r);
      }
  }

  lemma OneMessage(m: Message, r: Ratio)
    ensures Estimate([m], r) == (if m.dropped then 0 else 8 + ContentTokens(m.content, r)) + 16
    ensures m.content.Items? && |m.content.items| == 1 ==> ContentTokens(m.content, r) == ItemTokens(m.content.items[0], r)
  {
    assert [m][1..] == [];
    assert Costs([m], r) == Cost(m, r) + Costs([], r);
    if m.content.Items? && |m.content.items| == 1 {
      assert m.content.items[1..] == [];
      assert ItemsTokens(m.content.items, r) == ItemTokens(m.content.items[0], r) + ItemsTokens([], r);
    }
  }

  lemma {:induction false} CostsAdd(a: seq<Message>, b: seq<Message>, r: Ratio)
    ensures Costs(a + b, r) == Costs(a, r) + Costs(b, r)
  {
    if a == [] {
      assert a + b == b;
    } else {
      assert (a + b)[0] == a[0] && (a + b)[1..] == a[1..] + b;
      CostsAdd(a[1..], b, r);
    }
  }

  lemma {:induction false} ItemsAdd(x: seq<Item>, y: seq<Item>, r: Ratio)
    ensures ItemsTokens(x + y, r) == ItemsTokens(x, r) + ItemsTokens(y, r)
  {
    if x == [] {
      assert x + y == y;
    } else {
      assert (x + y)[0] == x[0] && (x + y)[1..] == x[1..] + y;
      ItemsAdd(x[1..], y, r);
    }
  }

  // ---- Tagged sections ----

  /** A match of open, an optional newline, a group, an optional newline and close, with the group at s up to e. */
  predicate Matches(text: string, open: string, close: string, at: nat, s: nat, e: nat) {
    && At(text, open, at)
    && (s == at + |open| || (s == at + |open| + 1 && s <= |text| && text[s - 1] == '\n'))
    && s <= e && (At(text, close, e) || At(text, "\n" + close, e))
  }

  /** The order in which a search tries matches: leftmost, then the greedy newline, then the shortest group. */
  predicate Earlier(at: nat, s: nat, e: nat, at': nat, s': nat, e': nat) {
    at < at' || (at == at' && (s > s' || (s == s' && e <= e')))
  }

  ghost predicate FirstMatch(text: string, open: string, close: string, at: nat, s: nat, e: nat) {
    && Matches(text, open, close, at, s, e)
    && forall at': nat, s': nat, e': nat :: Matches(text, open, close, at', s', e') ==> Earlier(at, s, e, at', s', e')
  }

  predicate NotABreak(close: string) { close != "" && close[0] != '\n' }

  /** Every match opens no earlier than the first opening, and shuts no earlier than its group may. */
  lemma MatchIsLater(text: string, open: string, close: string, p: nat, at: nat, s: nat, e: nat)
    requires T.First(text, open, p) && Matches(text, open, close, at, s, e) && NotABreak(close)
    ensures p <= at && (at == p ==> s <= Start(text, p + |open|))
    ensures at > p ==> Start(text, p + |open|) <= e && Shuts(text, close, e)
    ensures exists b: nat :: Start(text, p + |open|) <= b && Shuts(text, close, b)
  {
    if at == p && s < Start(text, p + |open|) {
      if e < Start(text, p + |open|) {
        ShutsNext(text, close, e);
        assert Shuts(text, close, e + 1);
      } else {
        assert Shuts(text, close, e);
      }
    } else {
      assert Shuts(text, close, e);
    }
  }

  lemma StartsHere(text: string, x: string, i: nat)
    requires x != "" && i < |text|
    ensures At(text, x, i) ==> text[i] == x[0]
  {
    if At(text, x, i) {
      T.AtChar(text, x, i, 0);
    }
  }

  /** What shuts at a line break shuts after it. */
  lemma ShutsNext(text: string, close: string, e: nat)
    requires e < |text| && text[e] == '\n' && NotABreak(close) && (At(text, close, e) || At(text, "\n" + close, e))
    ensures Shuts(text, close, e + 1)
  {
    StartsHere(text, close, e);
    assert ("\n" + close)[1..] == close;
    assert text[e..e + 1 + |close|][1..] == text[e + 1..e + 1 + |close|];
  }

  lemma SectionIsFirst(text: string, open: string, close: string, p: nat, s: nat, e: nat)
    requires T.IsSection(text, open, close, p, s, e) && NotABreak(close)
    ensures FirstMatch(text, open, close, p, s, e)
  {
    forall at': nat, s': nat, e': nat | Matches(text, open, close, at', s', e') ensures Earlier(p, s, e, at', s', e') {
      MatchIsLater(text, open, close, p, at', s', e');
      if at' == p && s' == s {
        assert Shuts(text, close, e');
      }
    }
  }

  /** The section a pair of tags marks is the first match of a search for them: none exactly when there is no match, and
      otherwise with the group of that match. */
  lemma SectionExactly(text: string, open: string, close: string, s: nat, e: nat)
    requires NotABreak(close)
    ensures TagSection(text, open, close) == Some((s, e)) <==> exists at :: FirstMatch(text, open, close, at, s, e)
    ensures TagSection(text, open, close).None? <==> forall at: nat, s: nat, e: nat :: !Matches(text, open, close, at, s, e)
  {
    var found := TagSection(text, open, close);
    if found.Some? {
      var p := T.SectionFacts(text, open, close);
      SectionIsFirst(text, open, close, p, found.value.0, found.value.1);
    } else {
      forall at: nat, s: nat, e: nat ensures !Matches(text, open, close, at, s, e) {
        if Matches(text, open, close, at, s, e) {
          NoMatch(text, open, close, at, s, e);
        }
      }
    }
  }

  lemma NoMatch(text: string, open: string, close: string, at: nat, s: nat, e: nat)
    requires Matches(text, open, close, at, s, e) && NotABreak(close)
    ensures TagSection(text, open, close).Some?
  {
    assert Find(text, open, 0).Some?;
    var p := Find(text, open, 0).value;
    T.FindsFirst(text, open, p);
    MatchIsLater(text, open, close, p, at, s, e);
    var b: nat :| Start(text, p + |open|) <= b && Shuts(text, close, b);
    ClosesSomewhere(text, open, close, p, b);
  }

  lemma ClosesSomewhere(text: string, open: string, close: string, p: nat, b: nat)
    requires Find(text, open, 0) == Some(p) && Start(text, p + |open|) <= b && Shuts(text, close, b)
    ensures TagSection(text, open, close).Some?
  {
    T.CloseFirst(text, close, Start(text, p + |open|));
  }

  /** So are the sections of the five tagged kinds. */
  lemma KindExactly(text: string, kind: Kind, s: nat, e: nat)
    requires kind != Summary
    ensures FoundSection(text, kind) == Some((s, e)) <==> exists at :: FirstMatch(text, Opening(kind), Closing(kind), at, s, e)
  {
    T.TagsAre(kind);
    SectionExactly(text, Opening(kind), Closing(kind), s, e);
  }

  // ---- How far a trim goes ----

  /** The text of a trim under eighty characters is the beginning, cut. */
  lemma ShortTrim(value: string, maximum: nat)
    requires 0 < maximum < 80 && maximum < |value|
    ensures TrimMiddle(value, maximum) == value[..maximum]
  {
  }

  /** d is what is missing in characters: the least number that the tokens over the budget come to. */
  predicate Missing(d: nat, ms: seq<Message>, st: Limits) {
    var over := Estimate(ms, st.r) - st.budget;
    if over <= 0 then d == 0 else d as real >= over as real * st.r > d as real - 1.0
  }

  lemma Scales(x: real, r: real)
    requires x >= 0.0 && r >= 0.0
    ensures x * r >= 0.0
  {
  }

  lemma InCharsIsLeast(tokens: nat, r: Ratio) returns (d: nat)
    ensures d == InChars(tokens, r) && d as real >= tokens as real * r > d as real - 1.0
    ensures tokens == 0 ==> d == 0
  {
    Scales(tokens as real, r);
    d := InChars(tokens, r);
  }

  /** A trim of a section takes it down by what is missing and 64 characters more, but not below its least length. */
  lemma TargetExactly(ms: seq<Message>, s: Span, least: nat, st: Limits) returns (d: nat)
    ensures Missing(d, ms, st)
    ensures var target := Target(ms, s, least, true, st);
            target >= least && (target > least ==> target == s.end - s.start - d - 64) && target >= s.end - s.start - d - 64
  {
    d := InCharsIsLeast(Excess(ms, st), st.r);
  }
}
