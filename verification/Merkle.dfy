/**
 * The flat Merkle tree, the branch the server sends to a miner, and the block's Merkle root.
 * `h` combines two hashes; nothing is assumed about it unless a lemma says so.
 */
module Merkle {
  import opened Bytes

  /** A tree node: the hash, or nil for a place with nothing under it. */
  type Node<T> = Option<T>

  // ---- The block's Merkle root, without any tree: pair up, repeating the last hash if it is left alone ----

  function PairUp<T>(hashes: seq<T>, h: (T, T) -> T): (r: seq<T>)
    ensures |r| == (|hashes| + 1) / 2
  {
    if hashes == [] then []
    else if |hashes| == 1 then [h(hashes[0], hashes[0])]
    else [h(hashes[0], hashes[1])] + PairUp(hashes[2..], h)
  }

  function MerkleRoot<T>(hashes: seq<T>, h: (T, T) -> T): T
    requires hashes != []
    decreases |hashes|
  {
    if |hashes| == 1 then hashes[0] else MerkleRoot(PairUp(hashes, h), h)
  }

  // ---- The flat tree ----

  predicate IsPowerOfTwo(p: nat)
  {
    p == 1 || (p > 1 && p % 2 == 0 && IsPowerOfTwo(p / 2))
  }

  /** The smallest power of two that is at least `n`. */
  function NextPowerOfTwo(n: nat): (p: nat)
    requires n >= 1
    ensures IsPowerOfTwo(p)
    ensures n <= p < 2 * n
    ensures n == 1 <==> p == 1
  {
    if n == 1 then 1 else 2 * NextPowerOfTwo((n + 1) / 2)
  }

  function Parent<T>(l: Node<T>, r: Node<T>, h: (T, T) -> T): Node<T>
  {
    if l.None? then None
    else if r.None? then Some(h(l.value, l.value))
    else Some(h(l.value, r.value))
  }

  function Parents<T>(level: seq<Node<T>>, h: (T, T) -> T): (up: seq<Node<T>>)
    ensures |up| == |level| / 2
    ensures forall i :: 0 <= i < |up| ==> up[i] == Parent(level[2 * i], level[2 * i + 1], h)
  {
    if |level| < 2 then [] else [Parent(level[0], level[1], h)] + Parents(level[2..], h)
  }

  /** The levels of the tree one after the other, leaves first, root last. */
  function Flat<T>(level: seq<Node<T>>, h: (T, T) -> T): (tree: seq<Node<T>>)
    ensures |level| >= 1 ==> |tree| >= |level|
    decreases |level|
  {
    if |level| <= 1 then level else level + Flat(Parents(level, h), h)
  }

  /** The hashes of the leaves, and nil up to `size` places. */
  function Padded<T>(leaves: seq<T>, size: nat): (level: seq<Node<T>>)
    requires |leaves| <= size
    ensures |level| == size
    ensures forall i :: 0 <= i < size ==> level[i] == if i < |leaves| then Some(leaves[i]) else None
  {
    if size == 0 then []
    else if leaves == [] then [None] + Padded([], size - 1)
    else [Some(leaves[0])] + Padded(leaves[1..], size - 1)
  }

  /** What btcd's BuildMerkleTreeStore returns for a non-empty list of transaction hashes. */
  function Tree<T>(leaves: seq<T>, h: (T, T) -> T): seq<Node<T>>
    requires leaves != []
  {
    Flat(Padded(leaves, NextPowerOfTwo(|leaves|)), h)
  }

  lemma {:induction false} FlatSize<T>(level: seq<Node<T>>, h: (T, T) -> T)
    requires IsPowerOfTwo(|level|)
    ensures |Flat(level, h)| == 2 * |level| - 1
    decreases |level|
  {
    if |level| > 1 {
      FlatSize(Parents(level, h), h);
    }
  }

  lemma FlatHead<T>(level: seq<Node<T>>, h: (T, T) -> T, k: nat)
    requires IsPowerOfTwo(|level|) && k < |level|
    ensures |Flat(level, h)| == 2 * |level| - 1 && Flat(level, h)[k] == level[k]
  {
    FlatSize(level, h);
  }

  /** Behind the leaves of a flat tree stands the tree over their parents. */
  lemma FlatTail<T>(level: seq<Node<T>>, h: (T, T) -> T, k: nat)
    requires IsPowerOfTwo(|level|) && k < |level| - 1
    ensures |Flat(level, h)| == 2 * |level| - 1 && |Flat(Parents(level, h), h)| == |level| - 1
    ensures Flat(level, h)[|level| + k] == Flat(Parents(level, h), h)[k]
  {
    FlatSize(level, h);
    FlatSize(Parents(level, h), h);
  }

  /** Node p + i of a flat tree is the parent of nodes 2i and 2i + 1, which is how btcd's loop fills it. */
  lemma {:induction false} FlatStep<T>(level: seq<Node<T>>, h: (T, T) -> T, i: nat)
    requires IsPowerOfTwo(|level|) && i < |level| - 1
    ensures |Flat(level, h)| == 2 * |level| - 1
    ensures Flat(level, h)[|level| + i] == Parent(Flat(level, h)[2 * i], Flat(level, h)[2 * i + 1], h)
    decreases |level|
  {
    var p, up := |level|, Parents(level, h);
    FlatTail(level, h, i);
    if i < p / 2 {
      FlatHead(up, h, i);
      FlatHead(level, h, 2 * i);
      FlatHead(level, h, 2 * i + 1);
    } else {
      var j := i - p / 2;
      FlatStep(up, h, j);
      FlatTail(level, h, 2 * j);
      FlatTail(level, h, 2 * j + 1);
      assert p + 2 * j == 2 * i && p / 2 + j == i;
    }
  }

  /** btcd's loop: leaves first, then one parent for each pair of neighbours, in one array. */
  method BuildMerkleTreeStore<T(0)>(leaves: seq<T>, h: (T, T) -> T) returns (merkles: array<Node<T>>)
    requires leaves != []
    ensures fresh(merkles)
    ensures merkles[..] == Tree(leaves, h)
  {
    var p := NextPowerOfTwo(|leaves|);
    var size := 2 * p - 1;
    merkles := new Node<T>[size];
    StoreLeaves(merkles, leaves);
    ghost var tree := Tree(leaves, h);
    TreeStarts(leaves, h);
    var offset := p;
    var i := 0;
    while i < size - 1
      invariant 0 <= i <= size - 1 && offset == p + i / 2 && i % 2 == 0
      invariant forall k :: 0 <= k < offset ==> merkles[k] == tree[k]
    {
      TreeStep(leaves, h, i / 2);
      StoreParent(merkles, i, offset, h);
      offset := offset + 1;
      i := i + 2;
    }
    assert offset == size;
  }

  method StoreLeaves<T>(merkles: array<Node<T>>, leaves: seq<T>)
    requires |leaves| <= merkles.Length
    modifies merkles
    ensures forall k :: 0 <= k < merkles.Length ==> merkles[k] == if k < |leaves| then Some(leaves[k]) else None
  {
    for n := 0 to merkles.Length
      invariant forall k :: 0 <= k < n ==> merkles[k] == if k < |leaves| then Some(leaves[k]) else None
    {
      merkles[n] := if n < |leaves| then Some(leaves[n]) else None;
    }
  }

  method StoreParent<T>(merkles: array<Node<T>>, i: nat, offset: nat, h: (T, T) -> T)
    requires i + 1 < offset < merkles.Length
    modifies merkles
    ensures merkles[..] == old(merkles[..])[offset := Parent(old(merkles[i]), old(merkles[i + 1]), h)]
  {
    if merkles[i].None? {
      merkles[offset] := None;
    } else if merkles[i + 1].None? {
      merkles[offset] := Some(h(merkles[i].value, merkles[i].value));
    } else {
      merkles[offset] := Some(h(merkles[i].value, merkles[i + 1].value));
    }
  }

  lemma TreeStarts<T>(leaves: seq<T>, h: (T, T) -> T)
    requires leaves != []
    ensures var p := NextPowerOfTwo(|leaves|);
            && |Tree(leaves, h)| == 2 * p - 1
            && forall k :: 0 <= k < p ==> Tree(leaves, h)[k] == if k < |leaves| then Some(leaves[k]) else None
  {
    FlatLeaves(Padded(leaves, NextPowerOfTwo(|leaves|)), h);
  }

  lemma TreeStep<T>(leaves: seq<T>, h: (T, T) -> T, i: nat)
    requires leaves != [] && i < NextPowerOfTwo(|leaves|) - 1
    ensures var p := NextPowerOfTwo(|leaves|);
            && |Tree(leaves, h)| == 2 * p - 1
            && Tree(leaves, h)[p + i] == Parent(Tree(leaves, h)[2 * i], Tree(leaves, h)[2 * i + 1], h)
  {
    FlatStep(Padded(leaves, NextPowerOfTwo(|leaves|)), h, i);
  }

  lemma FlatLeaves<T>(level: seq<Node<T>>, h: (T, T) -> T)
    requires IsPowerOfTwo(|level|)
    ensures |Flat(level, h)| == 2 * |level| - 1
    ensures forall k :: 0 <= k < |level| ==> Flat(level, h)[k] == level[k]
  {
    FlatSize(level, h);
  }

  // ---- The branch ----

  /** The picks of the source's loop, from counter value `k` on, for an array of any length. */
  function Picks<T>(merkles: seq<T>, k: nat): seq<T>
    requires k <= |merkles|
  {
    if k <= 1 then [] else [merkles[|merkles| - k + 1]] + Picks(merkles, (k - 1) / 2)
  }

  /** The source's loop: every index is in range whatever the array holds. */
  method MerkleTreeBranch<T>(merkles: array<T>) returns (path: seq<T>)
    ensures path == Picks(merkles[..], merkles.Length)
  {
    path := [];
    var b := merkles.Length;
    var k := b;
    while k > 1
      invariant 0 <= k <= b
      invariant path + Picks(merkles[..], k) == Picks(merkles[..], b)
    {
      ghost var before := path;
      path := path + [merkles[b - k + 1]];
      assert before + ([merkles[b - k + 1]] + Picks(merkles[..], (k - 1) / 2)) == path + Picks(merkles[..], (k - 1) / 2);
      k := (k - 1) / 2;
    }
  }

  /** The second node of every level but the last. */
  function Seconds<T>(level: seq<Node<T>>, h: (T, T) -> T): seq<Node<T>>
    decreases |level|
  {
    if |level| <= 1 then [] else [level[1]] + Seconds(Parents(level, h), h)
  }

  /** In a flat tree the loop picks node 1 of every level, whatever stands in front of that tree. */
  lemma {:induction false} PicksAreSeconds<T>(before: seq<Node<T>>, level: seq<Node<T>>, h: (T, T) -> T)
    requires IsPowerOfTwo(|level|)
    ensures |Flat(level, h)| == 2 * |level| - 1
    ensures Picks(before + Flat(level, h), 2 * |level| - 1) == Seconds(level, h)
    decreases |level|
  {
    FlatSize(level, h);
    if |level| > 1 {
      var up := Parents(level, h);
      FlatSize(up, h);
      var k := 2 * |up| - 1;
      assert Picks((before + level) + Flat(up, h), k) == Seconds(up, h) by {
        PicksAreSeconds(before + level, up, h);
      }
      PickStep(before, level, Flat(up, h), k);
    }
  }

  /** One turn of the loop picks node 1 of the first level and goes on behind it. */
  lemma PickStep<T>(before: seq<T>, level: seq<T>, rest: seq<T>, k: nat)
    requires |level| >= 2 && k == |rest| == |level| - 1
    ensures Picks(before + (level + rest), 2 * |level| - 1) == [level[1]] + Picks((before + level) + rest, k)
  {
    Assoc(before, level, rest);
    var all := (before + level) + rest;
    assert all[|all| - (2 * |level| - 1) + 1] == level[1];
  }

  /** A level with its leading `n` places filled: more than half of them, so the pairs fill the next level likewise. */
  ghost predicate Filled<T>(level: seq<Node<T>>, n: nat)
  {
    && IsPowerOfTwo(|level|)
    && |level| < 2 * n <= 2 * |level|
    && forall i :: 0 <= i < |level| ==> (level[i].Some? <==> i < n)
  }

  lemma ParentsFilled<T>(level: seq<Node<T>>, n: nat, h: (T, T) -> T)
    requires Filled(level, n) && |level| > 1
    ensures Filled(Parents(level, h), (n + 1) / 2)
  {
    var up, m := Parents(level, h), (n + 1) / 2;
    assert |level| == 2 * |up| && |up| < 2 * m <= 2 * |up|;
    forall i | 0 <= i < |up|
      ensures up[i].Some? <==> i < m
    {
      assert up[i] == Parent(level[2 * i], level[2 * i + 1], h);
      assert 2 * i < n <==> i < m;
    }
  }

  function Values<T>(nodes: seq<Node<T>>): (r: seq<T>)
    requires forall i :: 0 <= i < |nodes| ==> nodes[i].Some?
    ensures |r| == |nodes|
    ensures forall i :: 0 <= i < |nodes| ==> r[i] == nodes[i].value
  {
    if nodes == [] then [] else [nodes[0].value] + Values(nodes[1..])
  }

  /** The filter in front of the wire: nil entries are left out. */
  function DropNil<T>(nodes: seq<Node<T>>): seq<T>
  {
    if nodes == [] then []
    else (if nodes[0].Some? then [nodes[0].value] else []) + DropNil(nodes[1..])
  }

  /** What the miner does: hash, then combine with the branch from the bottom up. */
  function FoldBranch<T>(leaf: T, branch: seq<T>, h: (T, T) -> T): T
  {
    if branch == [] then leaf else FoldBranch(h(leaf, branch[0]), branch[1..], h)
  }

  function Log2(p: nat): nat
    requires p >= 1
  {
    if p == 1 then 0 else 1 + Log2(p / 2)
  }

  /** The pairs of a filled level, read as hashes, are the pairs of its hashes. */
  lemma {:induction false} PairsMatch<T>(level: seq<Node<T>>, n: nat, h: (T, T) -> T, i: nat)
    requires |level| % 2 == 0 && n <= |level| && i < (n + 1) / 2
    requires forall i :: 0 <= i < |level| ==> (level[i].Some? <==> i < n)
    ensures Parents(level, h)[i] == Some(PairUp(Values(level[..n]), h)[i])
    decreases i
  {
    var hashes := Values(level[..n]);
    if i == 0 {
      assert level[0].Some?;
    } else {
      var lower := level[2..];
      assert Values(lower[..n - 2]) == hashes[2..];
      PairsMatch(lower, n - 2, h, i - 1);
      assert Parents(lower, h)[i - 1] == Parents(level, h)[i];
    }
  }

  /** Going up one level pairs up the hashes below. */
  lemma ParentsPairUp<T>(level: seq<Node<T>>, n: nat, h: (T, T) -> T)
    requires Filled(level, n) && |level| > 1
    ensures Filled(Parents(level, h), (n + 1) / 2)
    ensures n > 1
    ensures Values(Parents(level, h)[..(n + 1) / 2]) == PairUp(Values(level[..n]), h)
  {
    var up, m, hashes := Parents(level, h), (n + 1) / 2, Values(level[..n]);
    ParentsFilled(level, n, h);
    forall i | 0 <= i < m
      ensures Values(up[..m])[i] == PairUp(hashes, h)[i]
    {
      PairsMatch(level, n, h, i);
    }
  }

  function LastNode<T>(tree: seq<Node<T>>): Node<T>
  {
    if tree == [] then None else tree[|tree| - 1]
  }

  lemma SameLastNode<T>(level: seq<Node<T>>, h: (T, T) -> T)
    requires IsPowerOfTwo(|level|) && |level| > 1
    ensures LastNode(Flat(level, h)) == LastNode(Flat(Parents(level, h), h))
  {
    FlatTail(level, h, |level| - 2);
  }

  lemma {:induction false} LastIsRoot<T>(level: seq<Node<T>>, n: nat, h: (T, T) -> T)
    requires Filled(level, n)
    ensures LastNode(Flat(level, h)) == Some(MerkleRoot(Values(level[..n]), h))
    decreases |level|
  {
    if |level| > 1 {
      SameLastNode(level, h);
      ParentsPairUp(level, n, h);
      LastIsRoot(Parents(level, h), (n + 1) / 2, h);
    }
  }

  lemma {:induction false} SecondsFilled<T>(level: seq<Node<T>>, n: nat, h: (T, T) -> T)
    requires Filled(level, n)
    ensures |Seconds(level, h)| == Log2(|level|)
    ensures forall i :: 0 <= i < |Seconds(level, h)| ==> Seconds(level, h)[i].Some?
    decreases |level|
  {
    if |level| > 1 {
      ParentsFilled(level, n, h);
      SecondsFilled(Parents(level, h), (n + 1) / 2, h);
    }
  }

  lemma {:induction false} FoldReachesRoot<T>(level: seq<Node<T>>, n: nat, h: (T, T) -> T)
    requires Filled(level, n)
    requires forall i :: 0 <= i < |Seconds(level, h)| ==> Seconds(level, h)[i].Some?
    ensures FoldBranch(level[0].value, Values(Seconds(level, h)), h) == MerkleRoot(Values(level[..n]), h)
    decreases |level|
  {
    if |level| > 1 {
      var up, m := Parents(level, h), (n + 1) / 2;
      ParentsPairUp(level, n, h);
      SecondsFilled(up, m, h);
      FoldReachesRoot(up, m, h);
      var branch := Values(Seconds(level, h));
      assert Seconds(level, h) == [level[1]] + Seconds(up, h);
      assert branch[0] == level[1].value;
      assert branch[1..] == Values(Seconds(up, h));
      assert up[0] == Some(h(level[0].value, level[1].value));
      assert level[0].Some? && level[1].Some?;
    }
  }

  lemma LastOfTree<T>(leaves: seq<T>, h: (T, T) -> T)
    requires leaves != []
    ensures LastNode(Tree(leaves, h)) == Some(MerkleRoot(leaves, h))
  {
    PaddedFilled(leaves);
    LastIsRoot(Padded(leaves, NextPowerOfTwo(|leaves|)), |leaves|, h);
  }

  /** The last node of the flat tree is the block's Merkle root. */
  lemma TreeRoot<T>(leaves: seq<T>, h: (T, T) -> T)
    requires leaves != []
    ensures Tree(leaves, h) != []
    ensures Tree(leaves, h)[|Tree(leaves, h)| - 1] == Some(MerkleRoot(leaves, h))
  {
    LastOfTree(leaves, h);
  }

  /** The branch of the tree over `leaves`, as the wire gets it. */
  function Branch<T>(leaves: seq<T>, h: (T, T) -> T): seq<T>
    requires leaves != []
  {
    DropNil(Picks(Tree(leaves, h), |Tree(leaves, h)|))
  }

  lemma {:induction false} DropNilKeepsAll<T>(nodes: seq<Node<T>>)
    requires forall i :: 0 <= i < |nodes| ==> nodes[i].Some?
    ensures DropNil(nodes) == Values(nodes)
  {
    if nodes != [] {
      DropNilKeepsAll(nodes[1..]);
      assert Values(nodes) == [nodes[0].value] + Values(nodes[1..]);
    }
  }

  /** Changing leaf 0 leaves the second node of every level alone. */
  lemma {:induction false} SecondsIgnoreFirst<T>(level: seq<Node<T>>, other: seq<Node<T>>, h: (T, T) -> T)
    requires |level| == |other| && forall i :: 1 <= i < |level| ==> level[i] == other[i]
    ensures Seconds(level, h) == Seconds(other, h)
    decreases |level|
  {
    if |level| > 1 {
      SecondsIgnoreFirst(Parents(level, h), Parents(other, h), h);
    }
  }

  /**
   * The branch theorem. For any non-empty list of transactions: the loop returns as many entries as the
   * padded tree has levels above the leaves, none of them nil; they stay the same when leaf 0 is replaced;
   * and any leaf 0 folded with them gives the root of the list that starts with that leaf.
   */
  lemma BranchTheorem<T>(leaves: seq<T>, leaf: T, h: (T, T) -> T)
    requires leaves != []
    ensures |Branch(leaves, h)| == |Picks(Tree(leaves, h), |Tree(leaves, h)|)| == Log2(NextPowerOfTwo(|leaves|))
    ensures Branch([leaf] + leaves[1..], h) == Branch(leaves, h)
    ensures FoldBranch(leaf, Branch(leaves, h), h) == MerkleRoot([leaf] + leaves[1..], h)
  {
    var replaced := [leaf] + leaves[1..];
    BranchIsSeconds(leaves, h);
    BranchIgnoresFirst(leaves, replaced, h);
    BranchReachesRoot(replaced, h);
  }

  lemma BranchIgnoresFirst<T>(leaves: seq<T>, other: seq<T>, h: (T, T) -> T)
    requires leaves != [] && other != [] && leaves[1..] == other[1..]
    ensures Branch(leaves, h) == Branch(other, h)
  {
    assert |leaves| == |other|;
    SecondsIgnoreFirst(Padded(leaves, NextPowerOfTwo(|leaves|)), Padded(other, NextPowerOfTwo(|leaves|)), h) by {
      PaddedAgree(leaves, other, NextPowerOfTwo(|leaves|));
    }
    EqualSecondsEqualBranches(leaves, other, h);
  }

  lemma PaddedAgree<T>(leaves: seq<T>, other: seq<T>, size: nat)
    requires 1 <= |leaves| == |other| <= size && leaves[1..] == other[1..]
    ensures forall i :: 1 <= i < size ==> Padded(leaves, size)[i] == Padded(other, size)[i]
  {
    forall i | 1 <= i < |leaves|
      ensures leaves[i] == other[i]
    {
      assert leaves[i] == leaves[1..][i - 1] && other[i] == other[1..][i - 1];
    }
  }

  lemma BranchReachesRoot<T>(leaves: seq<T>, h: (T, T) -> T)
    requires leaves != []
    ensures FoldBranch(leaves[0], Branch(leaves, h), h) == MerkleRoot(leaves, h)
  {
    BranchIsSeconds(leaves, h);
    PaddedFilled(leaves);
    FoldReachesRoot(Padded(leaves, NextPowerOfTwo(|leaves|)), |leaves|, h);
  }

  lemma PaddedIsFilled<T>(leaves: seq<T>)
    requires leaves != []
    ensures Filled(Padded(leaves, NextPowerOfTwo(|leaves|)), |leaves|)
  {
  }

  lemma PaddedFilled<T>(leaves: seq<T>)
    requires leaves != []
    ensures var level := Padded(leaves, NextPowerOfTwo(|leaves|));
            Filled(level, |leaves|) && Values(level[..|leaves|]) == leaves && level[0] == Some(leaves[0])
  {
    PaddedValues(leaves, NextPowerOfTwo(|leaves|));
  }

  lemma PaddedValues<T>(leaves: seq<T>, size: nat)
    requires |leaves| <= size
    ensures Values(Padded(leaves, size)[..|leaves|]) == leaves
  {
    var values := Values(Padded(leaves, size)[..|leaves|]);
    assert forall i :: 0 <= i < |leaves| ==> values[i] == leaves[i];
  }

  lemma BranchIsSeconds<T>(leaves: seq<T>, h: (T, T) -> T)
    requires leaves != []
    ensures var seconds := Seconds(Padded(leaves, NextPowerOfTwo(|leaves|)), h);
            && Picks(Tree(leaves, h), |Tree(leaves, h)|) == seconds
            && |seconds| == Log2(NextPowerOfTwo(|leaves|))
            && (forall i :: 0 <= i < |seconds| ==> seconds[i].Some?)
            && Branch(leaves, h) == Values(seconds)
  {
    var level := Padded(leaves, NextPowerOfTwo(|leaves|));
    PaddedFilled(leaves);
    SecondsFilled(level, |leaves|, h);
    TreePicks(leaves, h);
    DropNilKeepsAll(Seconds(level, h));
  }

  lemma TreePicks<T>(leaves: seq<T>, h: (T, T) -> T)
    requires leaves != []
    ensures Picks(Tree(leaves, h), |Tree(leaves, h)|) == Seconds(Padded(leaves, NextPowerOfTwo(|leaves|)), h)
  {
    PicksAreSeconds([], Padded(leaves, NextPowerOfTwo(|leaves|)), h);
    NothingInFront(Tree(leaves, h));
  }

  lemma NothingInFront<T>(s: seq<T>)
    ensures [] + s == s
  {
  }

  // ---- The calls that leave the coinbase out ----

  /** The two hashes combined by step `i` of a fold; their combination is the fold's value one step further. */
  function StepPair<T>(leaf: T, branch: seq<T>, i: nat, h: (T, T) -> T): (T, T)
    requires i < |branch|
  {
    (FoldBranch(leaf, branch[..i], h), branch[i])
  }

  ghost predicate HitsLeaf<T>(leaf: T, branch: seq<T>, i: nat, h: (T, T) -> T)
    requires i < |branch|
  {
    h(StepPair(leaf, branch, i, h).0, StepPair(leaf, branch, i, h).1) == leaf
  }

  ghost predicate SameHash<T>(leaf: T, b: seq<T>, c: seq<T>, i: nat, j: nat, h: (T, T) -> T)
    requires i < |b| && j < |c|
  {
    var p, q := StepPair(leaf, b, i, h), StepPair(leaf, c, j, h);
    p != q && h(p.0, p.1) == h(q.0, q.1)
  }

  /**
   * Two folds of one leaf meet a hash collision: two different pairs with one hash, one pair from each fold,
   * or a pair whose hash is the leaf.
   */
  ghost predicate Collision<T>(leaf: T, b: seq<T>, c: seq<T>, h: (T, T) -> T)
  {
    || (exists i, j :: 0 <= i < |b| && 0 <= j < |c| && SameHash(leaf, b, c, i, j, h))
    || (exists i :: 0 <= i < |b| && HitsLeaf(leaf, b, i, h))
    || (exists j :: 0 <= j < |c| && HitsLeaf(leaf, c, j, h))
  }

  /** A leaf that reaches one root along two branches does so through a collision on the way. */
  lemma {:induction false} TwoBranchesCollide<T>(leaf: T, b: seq<T>, c: seq<T>, h: (T, T) -> T)
    requires b != c
    requires FoldBranch(leaf, b, h) == FoldBranch(leaf, c, h)
    ensures Collision(leaf, b, c, h)
    decreases |b|
  {
    if b != [] {
      FoldFromEnd(leaf, b, h);
    }
    if c != [] {
      FoldFromEnd(leaf, c, h);
    }
    if b == [] {
      assert HitsLeaf(leaf, c, |c| - 1, h);
    } else if c == [] {
      assert HitsLeaf(leaf, b, |b| - 1, h);
    } else {
      var b', c' := b[..|b| - 1], c[..|c| - 1];
      if StepPair(leaf, b, |b| - 1, h) != StepPair(leaf, c, |c| - 1, h) {
        assert SameHash(leaf, b, c, |b| - 1, |c| - 1, h);
      } else {
        assert b == b' + [b[|b| - 1]] && c == c' + [c[|c| - 1]];
        TwoBranchesCollide(leaf, b', c', h);
        CollisionExtends(leaf, b', c', b, c, h);
      }
    }
  }

  lemma CollisionExtends<T>(leaf: T, b': seq<T>, c': seq<T>, b: seq<T>, c: seq<T>, h: (T, T) -> T)
    requires b' <= b && c' <= c
    requires Collision(leaf, b', c', h)
    ensures Collision(leaf, b, c, h)
  {
    assert forall i :: 0 <= i < |b'| ==> b'[..i] == b[..i];
    assert forall j :: 0 <= j < |c'| ==> c'[..j] == c[..j];
    if i, j :| 0 <= i < |b'| && 0 <= j < |c'| && SameHash(leaf, b', c', i, j, h) {
      assert SameHash(leaf, b, c, i, j, h);
    } else if i :| 0 <= i < |b'| && HitsLeaf(leaf, b', i, h) {
      assert HitsLeaf(leaf, b, i, h);
    } else {
      var j :| 0 <= j < |c'| && HitsLeaf(leaf, c', j, h);
      assert HitsLeaf(leaf, c, j, h);
    }
  }

  lemma {:induction false} FoldFromEnd<T>(leaf: T, b: seq<T>, h: (T, T) -> T)
    requires b != []
    ensures FoldBranch(leaf, b, h) == h(FoldBranch(leaf, b[..|b| - 1], h), b[|b| - 1])
  {
    if |b| > 1 {
      FoldFromEnd(h(leaf, b[0]), b[1..], h);
      assert b[1..][..|b| - 2] == b[..|b| - 1][1..];
    }
  }

  /**
   * A tree over the transactions without the coinbase gives a branch that misses the block's root for every
   * block of two or more transactions with different hashes: hitting it takes a hash collision.
   */
  lemma BranchWithoutCoinbaseIsWrong<T>(leaves: seq<T>, h: (T, T) -> T)
    requires |leaves| >= 2
    requires |leaves| >= 3 ==> leaves[1] != leaves[2]
    ensures FoldBranch(leaves[0], Branch(leaves[1..], h), h) == MerkleRoot(leaves, h) ==>
              Collision(leaves[0], Branch(leaves, h), Branch(leaves[1..], h), h)
  {
    var good, bad := Branch(leaves, h), Branch(leaves[1..], h);
    BranchReachesRoot(leaves, h);
    FirstPick(leaves, h);
    if |leaves| == 2 {
      BranchIsSeconds(leaves[1..], h);
    } else {
      FirstPick(leaves[1..], h);
    }
    if FoldBranch(leaves[0], bad, h) == MerkleRoot(leaves, h) {
      TwoBranchesCollide(leaves[0], good, bad, h);
    }
  }

  lemma FirstPick<T>(leaves: seq<T>, h: (T, T) -> T)
    requires |leaves| >= 2
    ensures |Branch(leaves, h)| >= 1 && Branch(leaves, h)[0] == leaves[1]
  {
    BranchIsSeconds(leaves, h);
  }

  // ---- Exactly when the branch without the coinbase is right ----

  /** The pair that a parent hashes: a lone left child stands on both sides. */
  function ChildPair<T>(level: seq<Node<T>>, j: nat): (T, T)
    requires 2 * j + 1 < |level| && level[2 * j].Some?
  {
    (level[2 * j].value, if level[2 * j + 1].Some? then level[2 * j + 1].value else level[2 * j].value)
  }

  /** Two trees of one shape meet a collision: at one place of one level they hash different pairs to one parent. */
  ghost predicate TreesCollide<T>(a: seq<Node<T>>, b: seq<Node<T>>, h: (T, T) -> T)
    requires |a| == |b|
    decreases |a|
  {
    |a| > 1 &&
    ((exists j :: 0 <= j < |a| / 2 && LevelsCollide(a, b, j, h)) || TreesCollide(Parents(a, h), Parents(b, h), h))
  }

  ghost predicate LevelsCollide<T>(a: seq<Node<T>>, b: seq<Node<T>>, j: nat, h: (T, T) -> T)
    requires |a| == |b| && 2 * j + 1 < |a|
  {
    && a[2 * j].Some? && b[2 * j].Some?
    && ChildPair(a, j) != ChildPair(b, j)
    && h(ChildPair(a, j).0, ChildPair(a, j).1) == h(ChildPair(b, j).0, ChildPair(b, j).1)
  }

  /** Without a collision, equal parents have equal children, as far as both have them. */
  lemma SameParentSameChildren<T>(a: seq<Node<T>>, b: seq<Node<T>>, h: (T, T) -> T, j: nat)
    requires |a| == |b| && 2 * j + 1 < |a| && !LevelsCollide(a, b, j, h)
    requires a[2 * j].Some? && b[2 * j].Some?
    requires Parent(a[2 * j], a[2 * j + 1], h) == Parent(b[2 * j], b[2 * j + 1], h)
    ensures a[2 * j] == b[2 * j]
    ensures a[2 * j + 1].Some? && b[2 * j + 1].Some? ==> a[2 * j + 1] == b[2 * j + 1]
  {
    assert ChildPair(a, j) == ChildPair(b, j);
  }

  lemma ParentDeterminesChild<T>(a: seq<Node<T>>, n: nat, b: seq<Node<T>>, m: nat, h: (T, T) -> T, i: nat)
    requires |a| == |b| && |a| % 2 == 0 && n <= |a| && m <= |a| && !TreesCollide(a, b, h)
    requires forall k :: 0 <= k < n ==> a[k].Some?
    requires forall k :: 0 <= k < m ==> b[k].Some?
    requires i < n && i < m && Parents(a, h)[i / 2] == Parents(b, h)[i / 2]
    ensures a[i] == b[i]
  {
    var j := i / 2;
    SameParentSameChildren(a, b, h, j);
    assert i == 2 * j || i == 2 * j + 1;
  }

  /** What the step up the tree needs and gives. */
  lemma UpperTrees<T>(a: seq<Node<T>>, n: nat, b: seq<Node<T>>, m: nat, h: (T, T) -> T, i: nat)
    requires |a| == |b| && Filled(a, n) && Filled(b, m) && !TreesCollide(a, b, h)
    requires Seconds(a, h) == Seconds(b, h) && 2 <= i < n && i < m
    ensures Filled(Parents(a, h), (n + 1) / 2) && Filled(Parents(b, h), (m + 1) / 2)
    ensures !TreesCollide(Parents(a, h), Parents(b, h), h) && Seconds(Parents(a, h), h) == Seconds(Parents(b, h), h)
    ensures 1 <= i / 2 < (n + 1) / 2 && i / 2 < (m + 1) / 2
  {
    ParentsFilled(a, n, h);
    ParentsFilled(b, m, h);
    TailsAgree(a, b, h);
  }

  /** Trees with the same second nodes have the same leaves from the second on, as far as both have one. */
  lemma {:induction false} SecondsDetermineLeaves<T>(a: seq<Node<T>>, n: nat, b: seq<Node<T>>, m: nat, h: (T, T) -> T, i: nat)
    requires |a| == |b| && Filled(a, n) && Filled(b, m) && !TreesCollide(a, b, h)
    requires Seconds(a, h) == Seconds(b, h)
    requires 1 <= i < n && i < m
    ensures a[i] == b[i]
    decreases |a|
  {
    if i == 1 {
      TailsAgree(a, b, h);
    } else {
      UpperTrees(a, n, b, m, h, i);
      SecondsDetermineLeaves(Parents(a, h), (n + 1) / 2, Parents(b, h), (m + 1) / 2, h, i / 2);
      ParentDeterminesChild(a, n, b, m, h, i);
    }
  }

  lemma TailsAgree<T>(a: seq<Node<T>>, b: seq<Node<T>>, h: (T, T) -> T)
    requires |a| == |b| > 1 && Seconds(a, h) == Seconds(b, h)
    ensures a[1] == b[1] && Seconds(Parents(a, h), h) == Seconds(Parents(b, h), h)
  {
    assert Seconds(a, h)[0] == a[1] && Seconds(b, h)[0] == b[1];
    assert Seconds(a, h)[1..] == Seconds(Parents(a, h), h);
    assert Seconds(b, h)[1..] == Seconds(Parents(b, h), h);
  }

  /** All leaves but the first are the same hash. */
  ghost predicate SameFromSecond<T>(level: seq<Node<T>>, n: nat, x: T)
    requires n <= |level|
  {
    forall i :: 1 <= i < n ==> level[i] == Some(x)
  }

  lemma {:induction false} SameLeavesSameSeconds<T>(a: seq<Node<T>>, n: nat, b: seq<Node<T>>, m: nat, x: T, h: (T, T) -> T)
    requires |a| == |b| && Filled(a, n) && Filled(b, m)
    requires SameFromSecond(a, n, x) && SameFromSecond(b, m, x)
    ensures Seconds(a, h) == Seconds(b, h)
    decreases |a|
  {
    if |a| > 1 {
      ParentsFilled(a, n, h);
      ParentsFilled(b, m, h);
      ParentsStaySame(a, n, x, h);
      ParentsStaySame(b, m, x, h);
      SameLeavesSameSeconds(Parents(a, h), (n + 1) / 2, Parents(b, h), (m + 1) / 2, h(x, x), h);
    }
  }

  lemma ParentsStaySame<T>(level: seq<Node<T>>, n: nat, x: T, h: (T, T) -> T)
    requires Filled(level, n) && SameFromSecond(level, n, x) && |level| > 1
    ensures (n + 1) / 2 <= |Parents(level, h)| && SameFromSecond(Parents(level, h), (n + 1) / 2, h(x, x))
  {
    forall i | 1 <= i < (n + 1) / 2
      ensures Parents(level, h)[i] == Some(h(x, x))
    {
      assert Parents(level, h)[i] == Parent(level[2 * i], level[2 * i + 1], h);
    }
  }

  lemma {:induction false} SmallestPower(n: nat, q: nat)
    requires 1 <= n <= q && IsPowerOfTwo(q)
    ensures NextPowerOfTwo(n) <= q
    decreases q
  {
    if n > 1 {
      SmallestPower((n + 1) / 2, q / 2);
    }
  }

  /** One more transaction leaves the padded size alone exactly if the places were not all taken. */
  lemma PaddedSizeStays(n: nat)
    requires n >= 1
    ensures NextPowerOfTwo(n + 1) == NextPowerOfTwo(n) <==> !IsPowerOfTwo(n)
  {
    SmallestPower(n, NextPowerOfTwo(n + 1));
    if IsPowerOfTwo(n) {
      SmallestPower(n, n);
    } else {
      SmallestPower(n + 1, NextPowerOfTwo(n));
    }
  }

  lemma {:induction false} Log2Determines(p: nat, q: nat)
    requires IsPowerOfTwo(p) && IsPowerOfTwo(q) && Log2(p) == Log2(q)
    ensures p == q
  {
    if p > 1 && q > 1 {
      Log2Determines(p / 2, q / 2);
    }
  }

  /** All hashes behind the coinbase are the same one, and they do not fill a tree of their own. */
  ghost predicate OthersAlikeAndLoose<T>(leaves: seq<T>)
    requires |leaves| >= 2
  {
    !IsPowerOfTwo(|leaves| - 1) && forall i :: 1 <= i < |leaves| ==> leaves[i] == leaves[1]
  }

  /** A collision in the trees with and without the coinbase, or on the two ways from the coinbase to the root. */
  ghost predicate BlockCollision<T>(leaves: seq<T>, h: (T, T) -> T)
    requires |leaves| >= 2
  {
    var p := NextPowerOfTwo(|leaves|);
    || Collision(leaves[0], Branch(leaves, h), Branch(leaves[1..], h), h)
    || TreesCollide(Padded(leaves, p), Padded(leaves[1..], p), h)
  }

  /** Lists with the same branch have trees of one size with the same second nodes. */
  lemma EqualBranchesEqualSeconds<T>(leaves: seq<T>, other: seq<T>, h: (T, T) -> T)
    requires leaves != [] && other != [] && Branch(leaves, h) == Branch(other, h)
    ensures NextPowerOfTwo(|leaves|) == NextPowerOfTwo(|other|)
    ensures Seconds(Padded(leaves, NextPowerOfTwo(|leaves|)), h) == Seconds(Padded(other, NextPowerOfTwo(|other|)), h)
  {
    BranchIsSeconds(leaves, h);
    BranchIsSeconds(other, h);
    Log2Determines(NextPowerOfTwo(|leaves|), NextPowerOfTwo(|other|));
    ValuesDetermine(Seconds(Padded(leaves, NextPowerOfTwo(|leaves|)), h), Seconds(Padded(other, NextPowerOfTwo(|other|)), h));
  }

  /** Trees over a list and over its tail with the same second nodes: the list has all hashes from its second on alike. */
  lemma NeighboursAlike<T>(leaves: seq<T>, others: seq<T>, a: seq<Node<T>>, b: seq<Node<T>>, h: (T, T) -> T)
    requires |leaves| >= 2 && others == leaves[1..]
    requires |a| == |b| && Filled(a, |leaves|) && Filled(b, |others|)
    requires forall i :: 0 <= i < |leaves| ==> a[i] == Some(leaves[i])
    requires forall i :: 0 <= i < |others| ==> b[i] == Some(others[i])
    requires !TreesCollide(a, b, h) && Seconds(a, h) == Seconds(b, h)
    ensures forall i :: 1 <= i < |leaves| ==> leaves[i] == leaves[1]
  {
    forall i | 2 <= i < |leaves|
      ensures leaves[i - 1] == leaves[i]
    {
      SecondsDetermineLeaves(a, |leaves|, b, |others|, h, i - 1);
      assert b[i - 1] == Some(others[i - 1]) && others[i - 1] == leaves[i];
    }
    forall i | 1 <= i < |leaves|
      ensures leaves[i] == leaves[1]
    {
      Chained(leaves, i);
    }
  }

  lemma EqualSecondsMeanAlike<T>(leaves: seq<T>, others: seq<T>, h: (T, T) -> T)
    requires |leaves| >= 2 && others == leaves[1..] && NextPowerOfTwo(|leaves|) == NextPowerOfTwo(|others|)
    requires Seconds(Padded(leaves, NextPowerOfTwo(|leaves|)), h) == Seconds(Padded(others, NextPowerOfTwo(|others|)), h)
    requires !TreesCollide(Padded(leaves, NextPowerOfTwo(|leaves|)), Padded(others, NextPowerOfTwo(|leaves|)), h)
    ensures forall i :: 1 <= i < |leaves| ==> leaves[i] == leaves[1]
  {
    PaddedIsFilled(leaves);
    PaddedIsFilled(others);
    var p := NextPowerOfTwo(|leaves|);
    NeighboursAlike(leaves, others, Padded(leaves, p), Padded(others, p), h);
  }

  lemma EqualBranchesMeanAlike<T>(leaves: seq<T>, others: seq<T>, h: (T, T) -> T)
    requires |leaves| >= 2 && others == leaves[1..] && Branch(leaves, h) == Branch(others, h)
    requires !TreesCollide(Padded(leaves, NextPowerOfTwo(|leaves|)), Padded(others, NextPowerOfTwo(|leaves|)), h)
    ensures OthersAlikeAndLoose(leaves)
  {
    EqualBranchesEqualSeconds(leaves, others, h);
    EqualSecondsMeanAlike(leaves, others, h);
    PaddedSizeStays(|others|);
  }

  lemma EqualSecondsEqualBranches<T>(leaves: seq<T>, other: seq<T>, h: (T, T) -> T)
    requires leaves != [] && other != []
    requires Seconds(Padded(leaves, NextPowerOfTwo(|leaves|)), h) == Seconds(Padded(other, NextPowerOfTwo(|other|)), h)
    ensures Branch(leaves, h) == Branch(other, h)
  {
    BranchIsSeconds(leaves, h);
    BranchIsSeconds(other, h);
  }

  lemma AlikeGivesEqualBranches<T>(leaves: seq<T>, others: seq<T>, h: (T, T) -> T)
    requires |leaves| >= 2 && others == leaves[1..] && OthersAlikeAndLoose(leaves)
    ensures Branch(leaves, h) == Branch(others, h)
  {
    PaddedSizeStays(|others|);
    PaddedIsFilled(leaves);
    PaddedIsFilled(others);
    var p := NextPowerOfTwo(|leaves|);
    SameLeavesSameSeconds(Padded(leaves, p), |leaves|, Padded(others, p), |others|, leaves[1], h);
    EqualSecondsEqualBranches(leaves, others, h);
  }

  lemma ValuesDetermine<T>(a: seq<Node<T>>, b: seq<Node<T>>)
    requires forall i :: 0 <= i < |a| ==> a[i].Some?
    requires forall i :: 0 <= i < |b| ==> b[i].Some?
    requires Values(a) == Values(b)
    ensures a == b
  {
    assert |a| == |Values(a)| == |Values(b)| == |b|;
    forall i | 0 <= i < |a|
      ensures a[i] == b[i]
    {
      assert Values(a)[i] == Values(b)[i];
    }
  }

  lemma {:induction false} Chained<T>(leaves: seq<T>, i: nat)
    requires 1 <= i < |leaves|
    requires forall i :: 2 <= i < |leaves| ==> leaves[i - 1] == leaves[i]
    ensures leaves[i] == leaves[1]
  {
    if i > 1 {
      Chained(leaves, i - 1);
    }
  }

  /**
   * Short of a collision, the branch of the tree without the coinbase leads to the block's root if and only if
   * all the other transactions have one and the same hash and their number is not a power of two.
   */
  lemma BranchWithoutCoinbaseRightIff<T>(leaves: seq<T>, h: (T, T) -> T)
    requires |leaves| >= 2 && !BlockCollision(leaves, h)
    ensures FoldBranch(leaves[0], Branch(leaves[1..], h), h) == MerkleRoot(leaves, h) <==> OthersAlikeAndLoose(leaves)
  {
    var good, bad := Branch(leaves, h), Branch(leaves[1..], h);
    BranchReachesRoot(leaves, h);
    if OthersAlikeAndLoose(leaves) {
      AlikeGivesEqualBranches(leaves, leaves[1..], h);
    } else if FoldBranch(leaves[0], bad, h) == MerkleRoot(leaves, h) {
      if good == bad {
        EqualBranchesMeanAlike(leaves, leaves[1..], h);
      } else {
        TwoBranchesCollide(leaves[0], good, bad, h);
      }
    }
  }

  /** With no branch at all the miner's root is right for a lone coinbase and, short of a collision, for no other block. */
  lemma EmptyBranchOnlyForLoneCoinbase<T>(leaves: seq<T>, h: (T, T) -> T)
    requires leaves != []
    requires !Collision(leaves[0], Branch(leaves, h), [], h)
    ensures leaves[0] == FoldBranch(leaves[0], [], h)
    ensures leaves[0] == MerkleRoot(leaves, h) <==> |leaves| == 1
  {
    if |leaves| >= 2 {
      EmptyBranchCollides(leaves, h);
    } else {
      assert MerkleRoot(leaves, h) == leaves[0];
    }
  }

  lemma EmptyBranchCollides<T>(leaves: seq<T>, h: (T, T) -> T)
    requires |leaves| >= 2
    ensures leaves[0] == MerkleRoot(leaves, h) ==> Collision(leaves[0], Branch(leaves, h), [], h)
  {
    var leaf, good := leaves[0], Branch(leaves, h);
    BranchReachesRoot(leaves, h);
    FirstPick(leaves, h);
    assert FoldBranch(leaf, [], h) == leaf;
    if leaf == MerkleRoot(leaves, h) {
      TwoBranchesCollide(leaf, good, [], h);
    }
  }

  /** Hashing without loss: the hash of a pair is the pair. */
  datatype Symbolic = Leaf(id: nat) | Pair(l: Symbolic, r: Symbolic)

  /** A hash with no collisions anywhere, so that the two lemmas above leave no way out. */
  lemma SymbolicNeverCollides(id: nat, b: seq<Symbolic>, c: seq<Symbolic>)
    ensures !Collision(Leaf(id), b, c, (l, r) => Pair(l, r))
  {
  }

  /** The smallest block for which the call without the coinbase goes wrong: a coinbase and one transaction. */
  lemma TwoTransactionExample()
    ensures var h := (l, r) => Pair(l, r);
            var block := [Leaf(0), Leaf(1)];
            FoldBranch(block[0], Branch(block[1..], h), h) != MerkleRoot(block, h)
  {
    var h := (l, r) => Pair(l, r);
    var block := [Leaf(0), Leaf(1)];
    BranchWithoutCoinbaseIsWrong(block, h);
    SymbolicNeverCollides(0, Branch(block, h), Branch(block[1..], h));
  }

  lemma {:induction false} SymbolicTreesNeverCollide(a: seq<Node<Symbolic>>, b: seq<Node<Symbolic>>)
    requires |a| == |b|
    ensures !TreesCollide(a, b, (l, r) => Pair(l, r))
    decreases |a|
  {
    if |a| > 1 {
      var h := (l, r) => Pair(l, r);
      SymbolicTreesNeverCollide(Parents(a, h), Parents(b, h));
    }
  }

  /** A block for which the same call gives the right branch, by accident: three transactions with one hash. */
  lemma ThreeAlikeExample()
    ensures var h := (l, r) => Pair(l, r);
            var block := [Leaf(0), Leaf(1), Leaf(1), Leaf(1)];
            FoldBranch(block[0], Branch(block[1..], h), h) == MerkleRoot(block, h)
  {
    var h := (l, r) => Pair(l, r);
    var block := [Leaf(0), Leaf(1), Leaf(1), Leaf(1)];
    SymbolicNeverCollides(0, Branch(block, h), Branch(block[1..], h));
    SymbolicTreesNeverCollide(Padded(block, NextPowerOfTwo(4)), Padded(block[1..], NextPowerOfTwo(4)));
    BranchWithoutCoinbaseRightIff(block, h);
  }
}
