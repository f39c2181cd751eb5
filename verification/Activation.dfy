/** Repeated passes that activate entries under a growing rule, and the least set closed under it. */
module Activation {

  /** Whether position i is called for when these positions, in this order, are active. */
  type Rule = (seq<nat>, nat) -> bool

  function Ids(ids: seq<nat>): set<nat> { set k | 0 <= k < |ids| :: ids[k] }

  function Visit(ids: seq<nat>, rule: Rule, i: nat): seq<nat> {
    if i in ids || !rule(ids, i) then ids else ids + [i]
  }

  /** One pass over the positions in the given order. */
  function Pass(ids: seq<nat>, rule: Rule, order: seq<nat>): seq<nat> {
    if order == [] then ids else Visit(Pass(ids, rule, order[..|order| - 1]), rule, order[|order| - 1])
  }

  /** Up to n passes, ended by one that changes nothing; the flag says that there was one. */
  function Passes(ids: seq<nat>, rule: Rule, order: seq<nat>, n: nat): (seq<nat>, bool)
    decreases n
  {
    if n == 0 then (ids, false)
    else
      var next := Pass(ids, rule, order);
      if next == ids then (next, true) else Passes(next, rule, order, n - 1)
  }

  // ---- Rules on sets ----

  type SetRule = (set<nat>, nat) -> bool

  predicate AgreesAt(rule: Rule, on: SetRule, ids: seq<nat>, i: nat) { rule(ids, i) == on(Ids(ids), i) }

  predicate GrowsAt(on: SetRule, a: set<nat>, b: set<nat>, i: nat) { a <= b && on(a, i) ==> on(b, i) }

  /** The rule looks only at the set of active positions, and more of them never call for less. */
  ghost predicate Sets(rule: Rule, on: SetRule) {
    && (forall ids, i :: AgreesAt(rule, on, ids, i))
    && (forall a, b, i :: GrowsAt(on, a, b, i))
  }

  predicate Closed(on: SetRule, n: nat, active: set<nat>) {
    forall i :: 0 <= i < n && on(active, i) ==> i in active
  }

  ghost predicate BelowAllClosed(on: SetRule, n: nat, active: set<nat>) {
    forall c: set<nat> :: Closed(on, n, c) ==> active <= c
  }

  ghost predicate LeastClosed(on: SetRule, n: nat, active: set<nat>) {
    Closed(on, n, active) && BelowAllClosed(on, n, active)
  }

  predicate Once(ids: seq<nat>) { forall i, j :: 0 <= i < j < |ids| ==> ids[i] != ids[j] }

  predicate Within(ids: seq<nat>, n: nat) { forall k :: 0 <= k < |ids| ==> ids[k] < n }

  /** An order that visits every position. */
  predicate Covers(order: seq<nat>, n: nat) { Within(order, n) && forall i: nat :: i < n ==> i in order }

  // ---- Passes ----

  lemma {:induction false} PassGrows(ids: seq<nat>, rule: Rule, order: seq<nat>, n: nat)
    requires Once(ids) && Within(ids, n) && Within(order, n)
    ensures var out := Pass(ids, rule, order); Once(out) && Within(out, n) && ids <= out
  {
    if order != [] {
      PassGrows(ids, rule, order[..|order| - 1], n);
    }
  }

  lemma VisitBelow(ids: seq<nat>, rule: Rule, on: SetRule, n: nat, i: nat, c: set<nat>)
    requires Sets(rule, on) && i < n && Closed(on, n, c) && Ids(ids) <= c
    ensures Ids(Visit(ids, rule, i)) <= c
  {
    assert AgreesAt(rule, on, ids, i) && GrowsAt(on, Ids(ids), c, i);
  }

  lemma {:induction false} PassBelow(ids: seq<nat>, rule: Rule, on: SetRule, order: seq<nat>, n: nat, c: set<nat>)
    requires Sets(rule, on) && Within(order, n) && Closed(on, n, c) && Ids(ids) <= c
    ensures Ids(Pass(ids, rule, order)) <= c
  {
    if order != [] {
      var rest := order[..|order| - 1];
      PassBelow(ids, rule, on, rest, n, c);
      VisitBelow(Pass(ids, rule, rest), rule, on, n, order[|order| - 1], c);
    }
  }

  /** In a pass that changes nothing no visited position was called for without being active. */
  lemma {:induction false} QuietPass(ids: seq<nat>, rule: Rule, order: seq<nat>, k: nat)
    requires Pass(ids, rule, order) == ids && k < |order|
    ensures order[k] in ids || !rule(ids, order[k])
  {
    var last := |order| - 1;
    PassLength(ids, rule, order[..last]);
    if k < last {
      QuietPass(ids, rule, order[..last], k);
    }
  }

  lemma {:induction false} PassLength(ids: seq<nat>, rule: Rule, order: seq<nat>)
    ensures ids <= Pass(ids, rule, order)
  {
    if order != [] {
      PassLength(ids, rule, order[..|order| - 1]);
    }
  }

  lemma {:induction false} QuietIsClosed(ids: seq<nat>, rule: Rule, on: SetRule, order: seq<nat>, n: nat)
    requires Sets(rule, on) && Covers(order, n) && Pass(ids, rule, order) == ids
    ensures Closed(on, n, Ids(ids))
  {
    forall i: nat | i < n && on(Ids(ids), i) ensures i in Ids(ids) {
      assert i in order;
      var k: nat :| k < |order| && order[k] == i;
      QuietPass(ids, rule, order, k);
      assert AgreesAt(rule, on, ids, i);
    }
  }

  lemma {:induction false} PassesResult(ids: seq<nat>, rule: Rule, order: seq<nat>, n: nat, passes: nat)
    requires Once(ids) && Within(ids, n) && Within(order, n)
    ensures var (out, settled) := Passes(ids, rule, order, passes);
            Once(out) && Within(out, n) && (settled ==> Pass(out, rule, order) == out)
    decreases passes
  {
    if passes > 0 {
      PassGrows(ids, rule, order, n);
      if Pass(ids, rule, order) != ids {
        PassesResult(Pass(ids, rule, order), rule, order, n, passes - 1);
      }
    }
  }

  lemma {:induction false} PassesBelow(ids: seq<nat>, rule: Rule, on: SetRule, order: seq<nat>, n: nat, passes: nat, c: set<nat>)
    requires Sets(rule, on) && Within(order, n) && Closed(on, n, c) && Ids(ids) <= c
    ensures Ids(Passes(ids, rule, order, passes).0) <= c
    decreases passes
  {
    if passes > 0 {
      PassBelow(ids, rule, on, order, n, c);
      if Pass(ids, rule, order) != ids {
        PassesBelow(Pass(ids, rule, order), rule, on, order, n, passes - 1, c);
      }
    }
  }

  /** Every closed set holds whatever any number of passes activates. */
  lemma ActivatedIsBelow(rule: Rule, on: SetRule, order: seq<nat>, n: nat, passes: nat)
    requires Sets(rule, on) && Within(order, n)
    ensures BelowAllClosed(on, n, Ids(Passes([], rule, order, passes).0))
  {
    forall c: set<nat> | Closed(on, n, c) ensures Ids(Passes([], rule, order, passes).0) <= c {
      PassesBelow([], rule, on, order, n, passes, c);
    }
  }

  /** When the last pass changed nothing, they are exactly the least closed set. */
  lemma SettledIsLeast(rule: Rule, on: SetRule, order: seq<nat>, n: nat, passes: nat)
    requires Sets(rule, on) && Covers(order, n) && Passes([], rule, order, passes).1
    ensures LeastClosed(on, n, Ids(Passes([], rule, order, passes).0))
  {
    PassesResult([], rule, order, n, passes);
    QuietIsClosed(Passes([], rule, order, passes).0, rule, on, order, n);
    ActivatedIsBelow(rule, on, order, n, passes);
  }

  // ---- What a number of passes reaches at least ----

  /** What is active and what it calls for. */
  function Onward(on: SetRule, n: nat, active: set<nat>): set<nat> {
    set i: nat | i < n && (i in active || on(active, i))
  }

  function Iterated(on: SetRule, n: nat, active: set<nat>, k: nat): set<nat>
    decreases k
  {
    if k == 0 then active else Iterated(on, n, Onward(on, n, active), k - 1)
  }

  lemma VisitHits(ids: seq<nat>, rule: Rule, on: SetRule, active: set<nat>, i: nat)
    requires Sets(rule, on) && active <= Ids(ids) && on(active, i)
    ensures i in Visit(ids, rule, i)
  {
    assert AgreesAt(rule, on, ids, i) && GrowsAt(on, active, Ids(ids), i);
  }

  lemma {:induction false} PassHits(ids: seq<nat>, rule: Rule, on: SetRule, order: seq<nat>, k: nat, active: set<nat>)
    requires Sets(rule, on) && k < |order| && active <= Ids(ids) && on(active, order[k])
    ensures order[k] in Pass(ids, rule, order)
  {
    var last := |order| - 1;
    if k < last {
      PassHits(ids, rule, on, order[..last], k, active);
    } else {
      PassLength(ids, rule, order[..last]);
      PrefixIds(ids, Pass(ids, rule, order[..last]));
      VisitHits(Pass(ids, rule, order[..last]), rule, on, active, order[last]);
    }
  }

  lemma PrefixIds(a: seq<nat>, b: seq<nat>)
    requires a <= b
    ensures Ids(a) <= Ids(b)
  {
    forall k | 0 <= k < |a| ensures a[k] in Ids(b) {
      assert a[k] == b[k];
    }
  }

  lemma PassReaches(ids: seq<nat>, rule: Rule, on: SetRule, order: seq<nat>, n: nat, active: set<nat>)
    requires Sets(rule, on) && Covers(order, n) && active <= Ids(ids)
    ensures Onward(on, n, active) <= Ids(Pass(ids, rule, order))
  {
    PassLength(ids, rule, order);
    PrefixIds(ids, Pass(ids, rule, order));
    forall i | i in Onward(on, n, active) ensures i in Ids(Pass(ids, rule, order)) {
      if i !in active {
        assert i in order;
        var k: nat :| k < |order| && order[k] == i;
        PassHits(ids, rule, on, order, k, active);
      }
    }
  }

  lemma {:induction false} IteratedBelowClosed(on: SetRule, n: nat, active: set<nat>, k: nat, c: set<nat>)
    requires (forall a, b, i :: GrowsAt(on, a, b, i)) && Closed(on, n, c) && active <= c
    ensures Iterated(on, n, active, k) <= c
    decreases k
  {
    if k > 0 {
      forall i | i in Onward(on, n, active) ensures i in c {
        assert GrowsAt(on, active, c, i);
      }
      IteratedBelowClosed(on, n, Onward(on, n, active), k - 1, c);
    }
  }

  /** k passes activate at least what the rule reaches in k rounds, settled or not. */
  lemma {:induction false} PassesReach(ids: seq<nat>, rule: Rule, on: SetRule, order: seq<nat>, n: nat, k: nat, active: set<nat>)
    requires Sets(rule, on) && Covers(order, n) && active <= Ids(ids)
    ensures Iterated(on, n, active, k) <= Ids(Passes(ids, rule, order, k).0)
    decreases k
  {
    if k > 0 {
      var next := Pass(ids, rule, order);
      if next == ids {
        QuietIsClosed(ids, rule, on, order, n);
        IteratedBelowClosed(on, n, active, k, Ids(ids));
      } else {
        PassReaches(ids, rule, on, order, n, active);
        PassesReach(next, rule, on, order, n, k - 1, Onward(on, n, active));
      }
    }
  }

  // ---- Nothing is active without a reason ----

  predicate CalledAt(on: SetRule, ids: seq<nat>, i: nat) { on(Ids(ids), i) }

  ghost predicate AllCalled(on: SetRule, ids: seq<nat>) { forall i :: i in ids ==> CalledAt(on, ids, i) }

  lemma VisitCalled(ids: seq<nat>, rule: Rule, on: SetRule, i: nat)
    requires Sets(rule, on) && AllCalled(on, ids)
    ensures AllCalled(on, Visit(ids, rule, i))
  {
    var out := Visit(ids, rule, i);
    PrefixIds(ids, out);
    forall j | j in out ensures CalledAt(on, out, j) {
      assert AgreesAt(rule, on, ids, i) && GrowsAt(on, Ids(ids), Ids(out), j);
      assert j in ids ==> CalledAt(on, ids, j);
    }
  }

  lemma {:induction false} PassCalled(ids: seq<nat>, rule: Rule, on: SetRule, order: seq<nat>)
    requires Sets(rule, on) && AllCalled(on, ids)
    ensures AllCalled(on, Pass(ids, rule, order))
  {
    if order != [] {
      PassCalled(ids, rule, on, order[..|order| - 1]);
      VisitCalled(Pass(ids, rule, order[..|order| - 1]), rule, on, order[|order| - 1]);
    }
  }

  /** Whatever passes activate is called for by what is active at the end. */
  lemma {:induction false} PassesCalled(ids: seq<nat>, rule: Rule, on: SetRule, order: seq<nat>, k: nat)
    requires Sets(rule, on) && AllCalled(on, ids)
    ensures AllCalled(on, Passes(ids, rule, order, k).0)
    decreases k
  {
    if k > 0 {
      PassCalled(ids, rule, on, order);
      if Pass(ids, rule, order) != ids {
        PassesCalled(Pass(ids, rule, order), rule, on, order, k - 1);
      }
    }
  }
}
