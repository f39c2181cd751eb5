/** The causal-cycle check of bridge/context_continuity_proof.py: a depth-first search over witnesses with shared
    active and visited sets that stops at its first failure. */
module WitnessCycles {

  /** depends_on of every present witness, by fact id. */
  type Witnesses = map<string, seq<string>>

  ghost predicate Linked(deps: Witnesses, w: seq<string>, i: int)
    requires 0 <= i < |w| - 1
  {
    w[i] in deps && w[i + 1] in deps[w[i]]
  }

  /** Consecutive facts of w are joined by depends_on edges of present witnesses. */
  ghost predicate Walk(deps: Witnesses, w: seq<string>) {
    forall i :: 0 <= i < |w| - 1 ==> Linked(deps, w, i)
  }

  /** A walk from the fact comes back to a fact it has passed. */
  ghost predicate ReachesCycle(deps: Witnesses, fact: string) {
    exists w :: Repeats(deps, w, fact)
  }

  ghost predicate Repeats(deps: Witnesses, w: seq<string>, fact: string) {
    w != [] && w[0] == fact && Walk(deps, w) && exists i, j :: 0 <= i < j < |w| && w[i] == w[j]
  }

  lemma CycleFromEdge(deps: Witnesses, fact: string, ancestor: string)
    requires fact in deps && ancestor in deps[fact] && ReachesCycle(deps, ancestor)
    ensures ReachesCycle(deps, fact)
  {
    var w :| Repeats(deps, w, ancestor);
    var i, j :| 0 <= i < j < |w| && w[i] == w[j];
    var v := [fact] + w;
    assert v[i + 1] == v[j + 1];
    forall k | 0 <= k < |v| - 1 ensures Linked(deps, v, k) {
      if k > 0 {
        assert Linked(deps, w, k - 1);
      }
    }
    assert Repeats(deps, v, fact);
  }

  /** Every present dependency of a fact is among the given ones. */
  ghost predicate Supported(deps: Witnesses, fact: string, among: set<string>)
    requires fact in deps
  {
    forall k :: 0 <= k < |deps[fact]| ==> deps[fact][k] in deps ==> deps[fact][k] in among
  }

  /** A finishing order: every fact comes after all its present dependencies. */
  ghost predicate Ordered(deps: Witnesses, order: seq<string>) {
    order == [] ||
    (var n := |order| - 1;
     Ordered(deps, order[..n]) && order[n] in deps && Supported(deps, order[n], Facts(order[..n])))
  }

  ghost function Facts(path: seq<string>): set<string> {
    set f | f in path
  }

  /** Along a walk from a fact of a finishing order, the facts stay in ever shorter prefixes of it. */
  lemma {:induction false} WalkDescends(deps: Witnesses, order: seq<string>, w: seq<string>, j: nat)
    requires Ordered(deps, order) && Walk(deps, w) && 0 < j < |w| && w[0] in order && w[j] in deps
    requires order != [] && w[0] !in order[..|order| - 1]
    ensures w[j] in order[..|order| - 1]
    decreases |order|, j
  {
    var n := |order| - 1;
    assert order == order[..n] + [order[n]] && w[0] == order[n];
    assert Linked(deps, w, 0);
    var k :| 0 <= k < |deps[w[0]]| && deps[w[0]][k] == w[1];
    if j > 1 {
      assert Linked(deps, w, 1);
      assert w[1] in Facts(order[..n]);
      forall i | 0 <= i < |w[1..]| - 1 ensures Linked(deps, w[1..], i) {
        assert Linked(deps, w, i + 1);
      }
      var shorter := UpTo(deps, order[..n], w[1]);
      WalkDescends(deps, shorter, w[1..], j - 1);
    } else {
      assert w[1] in Facts(order[..n]);
    }
  }

  /** The prefix that ends with the first occurrence of x. */
  lemma {:induction false} UpTo(deps: Witnesses, order: seq<string>, x: string) returns (shorter: seq<string>)
    requires Ordered(deps, order) && x in order
    ensures shorter <= order && shorter != [] && Ordered(deps, shorter)
    ensures x == shorter[|shorter| - 1] && x !in shorter[..|shorter| - 1]
    decreases |order|
  {
    var n := |order| - 1;
    if x in order[..n] {
      shorter := UpTo(deps, order[..n], x);
    } else {
      shorter := order;
      assert order == order[..n] + [order[n]];
    }
  }

  lemma OrderedIsAcyclic(deps: Witnesses, order: seq<string>, fact: string)
    requires Ordered(deps, order) && (fact in order || fact !in deps)
    ensures !ReachesCycle(deps, fact)
  {
    if w :| Repeats(deps, w, fact) {
      var i, j :| 0 <= i < j < |w| && w[i] == w[j];
      assert Linked(deps, w, 0);
      if fact in order {
        var v := w[i..];
        forall k | 0 <= k < |v| - 1 ensures Linked(deps, v, k) {
          assert Linked(deps, w, i + k);
        }
        assert Linked(deps, w, i);
        var shorter := UpTo(deps, order, fact);
        if i > 0 {
          WalkDescends(deps, shorter, w, i);
          shorter := UpTo(deps, shorter[..|shorter| - 1], w[i]);
        }
        WalkDescends(deps, shorter, v, j - i);
      }
    }
  }

  /** path is the recursion stack: the active facts, each depending on the next. */
  ghost predicate Stack(deps: Witnesses, path: seq<string>, active: set<string>) {
    && Walk(deps, path)
    && active <= deps.Keys
    && forall f :: f in active <==> f in path
  }

  lemma BackEdge(deps: Witnesses, path: seq<string>, active: set<string>, fact: string)
    requires Stack(deps, path, active) && fact in active && fact in deps[path[|path| - 1]]
    ensures ReachesCycle(deps, fact)
  {
    var i :| 0 <= i < |path| && path[i] == fact;
    var loop := path[i..] + [fact];
    assert loop[0] == loop[|loop| - 1];
    forall k | 0 <= k < |loop| - 1 ensures Linked(deps, loop, k) {
      if i + k < |path| - 1 {
        assert Linked(deps, path, i + k);
      }
    }
    assert Repeats(deps, loop, fact);
  }

  lemma Push(deps: Witnesses, path: seq<string>, active: set<string>, fact: string)
    requires Stack(deps, path, active) && fact in deps
    requires (path != [] ==> path[|path| - 1] in deps && fact in deps[path[|path| - 1]])
    ensures Stack(deps, path + [fact], active + {fact}) && Facts(path + [fact]) == Facts(path) + {fact}
  {
    var longer := path + [fact];
    forall k | 0 <= k < |longer| - 1 ensures Linked(deps, longer, k) {
      if k < |path| - 1 {
        assert Linked(deps, path, k);
      }
    }
  }

  lemma Pop(deps: Witnesses, path: seq<string>, active: set<string>, fact: string)
    requires Stack(deps, path + [fact], active) && fact !in path
    ensures Stack(deps, path, active - {fact})
  {
    forall k | 0 <= k < |path| - 1 ensures Linked(deps, path, k) {
      assert Linked(deps, path + [fact], k);
    }
    assert forall f :: f in path + [fact] <==> f in path || f == fact;
  }

  lemma Finish(deps: Witnesses, order: seq<string>, fact: string)
    requires Ordered(deps, order) && fact in deps && Supported(deps, fact, Facts(order))
    ensures Ordered(deps, order + [fact]) && Facts(order + [fact]) == Facts(order) + {fact}
  {
    assert (order + [fact])[..|order|] == order;
  }

  class CycleCheck {
    const deps: Witnesses
    var active: set<string>
    var visited: set<string>
    ghost var order: seq<string>

    constructor (deps: Witnesses)
      ensures this.deps == deps && Valid([])
    {
      this.deps := deps;
      active, visited := {}, {};
      order := [];
    }

    ghost predicate Valid(path: seq<string>)
      reads this
    {
      Stack(deps, path, active) && Ordered(deps, order) && visited == Facts(order)
    }

    method Visit(fact: string, ghost path: seq<string>) returns (ok: bool)
      requires Valid(path) && (path != [] ==> path[|path| - 1] in deps && fact in deps[path[|path| - 1]])
      modifies this
      ensures ok ==> Valid(path) && old(visited) <= visited && (fact in visited || fact !in deps)
      ensures !ok ==> ReachesCycle(deps, fact)
      decreases deps.Keys - Facts(path), 1
    {
      if fact in active {
        BackEdge(deps, path, active, fact);
        return false;
      }
      if fact in visited || fact !in deps {
        return true;
      }
      Push(deps, path, active, fact);
      assert fact in deps.Keys - Facts(path);
      active := active + {fact};
      ok := VisitAncestors(fact, path + [fact]);
      if ok {
        Finish(deps, order, fact);
        Pop(deps, path, active, fact);
        active := active - {fact};
        visited := visited + {fact};
        order := order + [fact];
      }
    }

    /** visit's loop over the ancestors of the fact on top of the stack. */
    method VisitAncestors(fact: string, ghost path: seq<string>) returns (ok: bool)
      requires Valid(path) && fact in deps && path != [] && path[|path| - 1] == fact
      modifies this
      ensures ok ==> Valid(path) && old(visited) <= visited
      ensures ok ==> Supported(deps, fact, visited)
      ensures !ok ==> ReachesCycle(deps, fact)
      decreases deps.Keys - Facts(path), 2
    {
      for k := 0 to |deps[fact]|
        invariant Valid(path) && old(visited) <= visited
        invariant forall j :: 0 <= j < k ==> deps[fact][j] in visited || deps[fact][j] !in deps
      {
        var fine := Visit(deps[fact][k], path);
        if !fine {
          CycleFromEdge(deps, fact, deps[fact][k]);
          return false;
        }
      }
      ok := true;
    }
  }

  /** any(not visit(f) for f in required): a causal cycle is reported exactly when some required fact reaches one. */
  method ReportsCausalCycle(deps: Witnesses, required: seq<string>) returns (cycle: bool)
    ensures cycle <==> exists i :: 0 <= i < |required| && ReachesCycle(deps, required[i])
  {
    var check := new CycleCheck(deps);
    for i := 0 to |required|
      invariant fresh(check) && check.deps == deps && check.Valid([])
      invariant forall j :: 0 <= j < i ==> required[j] in check.visited || required[j] !in deps
    {
      var fine := check.Visit(required[i], []);
      if !fine {
        return true;
      }
    }
    NoneReaches(deps, check.order, required);
    cycle := false;
  }

  lemma NoneReaches(deps: Witnesses, order: seq<string>, required: seq<string>)
    requires Ordered(deps, order)
    requires forall j :: 0 <= j < |required| ==> required[j] in Facts(order) || required[j] !in deps
    ensures forall i :: 0 <= i < |required| ==> !ReachesCycle(deps, required[i])
  {
    forall i | 0 <= i < |required| ensures !ReachesCycle(deps, required[i]) {
      OrderedIsAcyclic(deps, order, required[i]);
    }
  }
}
