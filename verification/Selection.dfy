/** Memory-block deduplication (bridge/context_selection.py 116-157), which feeds the span rewriter. */
module Selection {
  import opened TextTools

  /** evidence stands for the canonical pointer; key is what _leaf_key computes, None for an unmapped leaf. */
  datatype Leaf = Leaf(text: string, evidence: string, key: Option<string>)

  datatype Block = Block(text: string, evidence: seq<string>, channel: string, leaves: seq<Leaf>)

  predicate Eligible(b: Block) { (b.channel == "recall" || b.channel == "episodic") && b.text != "" }

  function Joined(leaves: seq<Leaf>): string {
    if leaves == [] then ""
    else if |leaves| == 1 then leaves[0].text
    else leaves[0].text + "\n" + Joined(leaves[1..])
  }

  function Evidence(leaves: seq<Leaf>): (e: seq<string>)
    ensures |e| == |leaves|
  {
    seq(|leaves|, i requires 0 <= i < |leaves| => leaves[i].evidence)
  }

  /** The leaves rebuild the block's text and evidence. */
  predicate Mapped(b: Block) {
    b.leaves != [] && Joined(b.leaves) == b.text && Evidence(b.leaves) == b.evidence
  }

  predicate Repeated(l: Leaf, seen: set<string>) { l.key.Some? && l.key.value in seen }

  function KeyOf(l: Leaf): set<string> { if l.key.Some? then {l.key.value} else {} }

  function Keys(leaves: seq<Leaf>): set<string> {
    if leaves == [] then {} else KeyOf(leaves[0]) + Keys(leaves[1..])
  }

  /** The leaves of a block whose keys were not seen before, in order. */
  function Fresh(leaves: seq<Leaf>, seen: set<string>): (kept: seq<Leaf>)
    ensures |kept| <= |leaves|
  {
    if leaves == [] then []
    else if Repeated(leaves[0], seen) then Fresh(leaves[1..], seen)
    else [leaves[0]] + Fresh(leaves[1..], seen + KeyOf(leaves[0]))
  }

  function Chosen(b: Block, seen: set<string>): Block {
    if Eligible(b) && Mapped(b) then
      var kept := Fresh(b.leaves, seen);
      Block(Joined(kept), Evidence(kept), b.channel, kept)
    else b
  }

  function SeenAfter(b: Block, seen: set<string>): set<string> {
    if Eligible(b) && Mapped(b) then seen + Keys(b.leaves) else seen
  }

  function Choose(blocks: seq<Block>, seen: set<string>): (out: seq<Block>)
    ensures |out| == |blocks|
  {
    if blocks == [] then [] else [Chosen(blocks[0], seen)] + Choose(blocks[1..], SeenAfter(blocks[0], seen))
  }

  // ---- The inner loop ----

  method KeepFresh(leaves: seq<Leaf>, before: set<string>) returns (kept: seq<Leaf>, seen: set<string>, removed: nat)
    ensures kept == Fresh(leaves, before) && seen == before + Keys(leaves) && removed == |leaves| - |kept|
  {
    kept, seen, removed := [], before, 0;
    var i := 0;
    while i < |leaves|
      invariant i <= |leaves| && removed == i - |kept|
      invariant Fresh(leaves, before) == kept + Fresh(leaves[i..], seen)
      invariant seen + Keys(leaves[i..]) == before + Keys(leaves)
    {
      var leaf := leaves[i];
      assert leaves[i..][0] == leaf && leaves[i..][1..] == leaves[i + 1..];
      if Repeated(leaf, seen) {
        removed := removed + 1;
      } else {
        seen := seen + KeyOf(leaf);
        kept := kept + [leaf];
      }
      i := i + 1;
    }
    assert kept + [] == kept;
  }

  /** The blocks before i are selected. */
  predicate Awaits(blocks: seq<Block>, i: nat, selected: seq<Block>, seen: set<string>) {
    i <= |blocks| && Choose(blocks, {}) == selected + Choose(blocks[i..], seen)
  }

  lemma AwaitsNext(blocks: seq<Block>, i: nat, selected: seq<Block>, seen: set<string>, block: Block, now: set<string>)
    requires Awaits(blocks, i, selected, seen) && i < |blocks|
    requires block == Chosen(blocks[i], seen) && now == SeenAfter(blocks[i], seen)
    ensures Awaits(blocks, i + 1, selected + [block], now)
  {
    assert blocks[i..][0] == blocks[i] && blocks[i..][1..] == blocks[i + 1..];
    assert selected + ([block] + Choose(blocks[i + 1..], now)) == selected + [block] + Choose(blocks[i + 1..], now);
  }

  method SelectBlocks(blocks: seq<Block>) returns (selected: seq<Block>)
    ensures selected == Choose(blocks, {})
  {
    selected := [];
    var seen: set<string>, i := {}, 0;
    assert blocks[0..] == blocks;
    while i < |blocks|
      invariant Awaits(blocks, i, selected, seen)
    {
      var block := blocks[i];
      if Eligible(block) && Mapped(block) {
        var kept, now, removed := KeepFresh(block.leaves, seen);
        AwaitsNext(blocks, i, selected, seen, Block(Joined(kept), Evidence(kept), block.channel, kept), now);
        selected := selected + [Block(Joined(kept), Evidence(kept), block.channel, kept)];
        seen := now;
      } else {
        AwaitsNext(blocks, i, selected, seen, block, seen);
        selected := selected + [block];
      }
      i := i + 1;
    }
    assert selected + [] == selected;
  }

  // ---- What deduplication keeps ----

  predicate HasKey(l: Leaf, key: string) { l.key == Some(key) }

  lemma {:induction false} KeysOf(leaves: seq<Leaf>, key: string)
    ensures key in Keys(leaves) <==> exists i :: 0 <= i < |leaves| && HasKey(leaves[i], key)
  {
    if leaves != [] {
      KeysOf(leaves[1..], key);
      if key in KeyOf(leaves[0]) {
        assert HasKey(leaves[0], key);
      } else if key in Keys(leaves[1..]) {
        var i :| 0 <= i < |leaves[1..]| && HasKey(leaves[1..][i], key);
        assert HasKey(leaves[i + 1], key);
      }
      if i: nat :| i < |leaves| && HasKey(leaves[i], key) {
        assert i > 0 ==> HasKey(leaves[1..][i - 1], key);
      }
    }
  }

  /** Keys are kept at most once, and none that was seen before. */
  predicate Once(kept: seq<Leaf>, seen: set<string>) {
    && (forall i :: 0 <= i < |kept| ==> !Repeated(kept[i], seen))
    && (forall i, j :: 0 <= i < j < |kept| ==> kept[i].key.None? || kept[i].key != kept[j].key)
  }

  lemma {:induction false} FreshOnce(leaves: seq<Leaf>, seen: set<string>)
    ensures Once(Fresh(leaves, seen), seen)
    decreases |leaves|
  {
    if leaves != [] {
      if Repeated(leaves[0], seen) {
        FreshOnce(leaves[1..], seen);
      } else {
        var more := seen + KeyOf(leaves[0]);
        var rest := Fresh(leaves[1..], more);
        FreshOnce(leaves[1..], more);
        var kept := [leaves[0]] + rest;
        forall i, j | 0 <= i < j < |kept| ensures kept[i].key.None? || kept[i].key != kept[j].key {
          assert kept[j] == rest[j - 1] && !Repeated(rest[j - 1], more);
          if i > 0 {
            assert kept[i] == rest[i - 1];
          }
        }
        forall i | 0 <= i < |kept| ensures !Repeated(kept[i], seen) {
          if i > 0 {
            assert kept[i] == rest[i - 1] && !Repeated(rest[i - 1], more);
          }
        }
      }
    }
  }

  /** Every attestation survives: a removed leaf has its key among the seen or the kept ones. */
  lemma {:induction false} NothingIsForgotten(leaves: seq<Leaf>, seen: set<string>)
    ensures seen + Keys(Fresh(leaves, seen)) == seen + Keys(leaves)
    decreases |leaves|
  {
    if leaves != [] {
      if Repeated(leaves[0], seen) {
        NothingIsForgotten(leaves[1..], seen);
      } else {
        var more := seen + KeyOf(leaves[0]);
        var rest := Fresh(leaves[1..], more);
        NothingIsForgotten(leaves[1..], more);
        assert ([leaves[0]] + rest)[1..] == rest;
        assert seen + (KeyOf(leaves[0]) + Keys(rest)) == more + Keys(rest);
        assert seen + (KeyOf(leaves[0]) + Keys(leaves[1..])) == more + Keys(leaves[1..]);
      }
    }
  }

  /** Characters of the leaves and of the newlines between them. */
  lemma {:induction false} JoinedLength(first: Leaf, rest: seq<Leaf>)
    ensures |Joined([first] + rest)| == |first.text| + (if rest == [] then 0 else 1 + |Joined(rest)|)
  {
    assert ([first] + rest)[1..] == rest;
  }

  lemma {:induction false} FreshIsShorter(leaves: seq<Leaf>, seen: set<string>)
    ensures |Joined(Fresh(leaves, seen))| <= |Joined(leaves)|
    decreases |leaves|
  {
    if leaves != [] {
      assert leaves == [leaves[0]] + leaves[1..];
      JoinedLength(leaves[0], leaves[1..]);
      if Repeated(leaves[0], seen) {
        FreshIsShorter(leaves[1..], seen);
      } else {
        var more := seen + KeyOf(leaves[0]);
        FreshIsShorter(leaves[1..], more);
        JoinedLength(leaves[0], Fresh(leaves[1..], more));
      }
    }
  }

  /** Block by block the candidate keeps channel and place and never gets longer, so the rewriter's length guard never
      rejects it. */
  lemma {:induction false} CandidatesAreShorter(blocks: seq<Block>, seen: set<string>)
    ensures var out := Choose(blocks, seen);
            forall i :: 0 <= i < |blocks| ==> out[i].channel == blocks[i].channel && |out[i].text| <= |blocks[i].text|
    decreases |blocks|
  {
    if blocks != [] {
      FreshIsShorter(blocks[0].leaves, seen);
      CandidatesAreShorter(blocks[1..], SeenAfter(blocks[0], seen));
    }
  }

  lemma {:induction false} FreshIsStable(leaves: seq<Leaf>, seen: set<string>, less: set<string>)
    requires less <= seen
    ensures Fresh(Fresh(leaves, seen), less) == Fresh(leaves, seen)
    decreases |leaves|
  {
    if leaves != [] {
      if Repeated(leaves[0], seen) {
        FreshIsStable(leaves[1..], seen, less);
      } else {
        var kept := Fresh(leaves[1..], seen + KeyOf(leaves[0]));
        FreshIsStable(leaves[1..], seen + KeyOf(leaves[0]), less + KeyOf(leaves[0]));
        assert ([leaves[0]] + kept)[1..] == kept;
      }
    }
  }

  lemma ChosenIsStable(b: Block, seen: set<string>, less: set<string>)
    requires less <= seen
    ensures Chosen(Chosen(b, seen), less) == (if Eligible(b) && Mapped(b) then Chosen(b, seen) else Chosen(b, less))
    ensures SeenAfter(Chosen(b, seen), less) <= SeenAfter(b, seen)
  {
    if Eligible(b) && Mapped(b) {
      FreshIsStable(b.leaves, seen, less);
      NothingIsForgotten(b.leaves, seen);
    }
  }

  /** Selecting from a selection removes nothing more. */
  lemma {:induction false} SelectionIsStable(blocks: seq<Block>, seen: set<string>, less: set<string>)
    requires less <= seen
    ensures Choose(Choose(blocks, seen), less) == Choose(blocks, seen)
    decreases |blocks|
  {
    if blocks != [] {
      var first, rest := Chosen(blocks[0], seen), Choose(blocks[1..], SeenAfter(blocks[0], seen));
      ChosenIsStable(blocks[0], seen, less);
      assert ([first] + rest)[1..] == rest;
      SelectionIsStable(blocks[1..], SeenAfter(blocks[0], seen), SeenAfter(first, less));
    }
  }

  // ---- Which leaves are kept, and where ----

  /** A leaf without a key, or with one that no leaf before it has and that was not seen. */
  predicate New(leaves: seq<Leaf>, seen: set<string>, i: nat)
    requires i < |leaves|
  {
    leaves[i].key.None? || (leaves[i].key.value !in seen && forall j :: 0 <= j < i ==> leaves[j].key != leaves[i].key)
  }

  /** The new ones among the first n, in their order. */
  function Picked(leaves: seq<Leaf>, seen: set<string>, n: nat): seq<Leaf>
    requires n <= |leaves|
  {
    if n == 0 then [] else Picked(leaves, seen, n - 1) + (if New(leaves, seen, n - 1) then [leaves[n - 1]] else [])
  }

  lemma NewLater(first: Leaf, rest: seq<Leaf>, seen: set<string>, i: nat)
    requires i < |rest|
    ensures New([first] + rest, seen, i + 1) <==> New(rest, seen + KeyOf(first), i)
  {
    var leaves := [first] + rest;
    assert forall j :: 0 <= j < |rest| ==> leaves[j + 1] == rest[j];
    if New(leaves, seen, i + 1) && rest[i].key.Some? {
      assert leaves[0].key != leaves[i + 1].key;
      forall j | 0 <= j < i ensures rest[j].key != rest[i].key {
        assert leaves[j + 1].key != leaves[i + 1].key;
      }
    }
    if New(rest, seen + KeyOf(first), i) && rest[i].key.Some? {
      forall j | 0 <= j < i + 1 ensures leaves[j].key != leaves[i + 1].key {
        if j > 0 {
          assert rest[j - 1].key != rest[i].key;
        }
      }
    }
  }

  lemma {:induction false} PickedLater(first: Leaf, rest: seq<Leaf>, seen: set<string>, n: nat)
    requires n <= |rest|
    ensures Picked([first] + rest, seen, n + 1)
            == (if New([first] + rest, seen, 0) then [first] else []) + Picked(rest, seen + KeyOf(first), n)
    decreases n
  {
    if n > 0 {
      PickedLater(first, rest, seen, n - 1);
      NewLater(first, rest, seen, n - 1);
      assert ([first] + rest)[n] == rest[n - 1];
    }
  }

  lemma {:induction false} SeenAnyway(leaves: seq<Leaf>, seen: set<string>, more: set<string>)
    requires more <= seen
    ensures Fresh(leaves, seen + more) == Fresh(leaves, seen)
  {
    assert seen + more == seen;
  }

  /** Exactly the new leaves are kept, those without a key among them, in their order. */
  lemma {:induction false} KeepsExactly(leaves: seq<Leaf>, seen: set<string>)
    ensures Fresh(leaves, seen) == Picked(leaves, seen, |leaves|)
    decreases |leaves|
  {
    if leaves != [] {
      var first, rest := leaves[0], leaves[1..];
      assert leaves == [first] + rest;
      PickedLater(first, rest, seen, |rest|);
      KeepsExactly(rest, seen + KeyOf(first));
      if Repeated(first, seen) {
        SeenAnyway(rest, seen, KeyOf(first));
      }
    }
  }

  /** The keys of the mapped recall and episodic blocks before the nth, and those seen before them. */
  function KeysBefore(blocks: seq<Block>, seen: set<string>, n: nat): set<string>
    requires n <= |blocks|
  {
    if n == 0 then seen
    else KeysBefore(blocks, seen, n - 1) + (if Deduplicated(blocks[n - 1]) then Keys(blocks[n - 1].leaves) else {})
  }

  /** A recall or episodic block with text, which its leaves rebuild. */
  predicate Deduplicated(b: Block) {
    && (b.channel == "recall" || b.channel == "episodic") && b.text != "" && b.leaves != []
    && Joined(b.leaves) == b.text && Evidence(b.leaves) == b.evidence
  }

  lemma {:induction false} KeysBeforeLater(first: Block, rest: seq<Block>, seen: set<string>, n: nat)
    requires n <= |rest|
    ensures KeysBefore([first] + rest, seen, n + 1) == KeysBefore(rest, SeenAfter(first, seen), n)
    decreases n
  {
    if n > 0 {
      KeysBeforeLater(first, rest, seen, n - 1);
      assert ([first] + rest)[n] == rest[n - 1];
    } else {
      assert ([first] + rest)[0] == first;
    }
  }

  /** Each block keeps exactly the leaves new to it and to the deduplicated blocks before it; all other blocks are as they
      were. */
  lemma {:induction false} SelectsExactly(blocks: seq<Block>, seen: set<string>, n: nat)
    requires n < |blocks|
    ensures var b := blocks[n]; var out := Choose(blocks, seen)[n];
      if Deduplicated(b)
      then && out.leaves == Picked(b.leaves, KeysBefore(blocks, seen, n), |b.leaves|) && out.channel == b.channel
           && out.text == Joined(out.leaves) && out.evidence == Evidence(out.leaves)
      else out == b
    decreases |blocks|
  {
    var first, rest := blocks[0], blocks[1..];
    assert blocks == [first] + rest;
    if n == 0 {
      KeepsExactly(first.leaves, seen);
    } else {
      SelectsExactly(rest, SeenAfter(first, seen), n - 1);
      KeysBeforeLater(first, rest, seen, n - 1);
      assert blocks[n] == rest[n - 1];
    }
  }
}
