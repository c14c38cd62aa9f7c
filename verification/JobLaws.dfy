/**
 * What a job means, said with the hash function on concatenated bytes alone: the laws of the tree's nodes, the
 * miner's chain of hashes, and that both end in the same root.
 */
module JobLaws {
  import opened Bytes
  import opened Coinbase
  import opened Merkle
  import opened Job

  // ---- The tree ----

  /** A parent hashes its left child's bytes in front of its right child's; a lone left child is hashed with itself. */
  ghost predicate ParentLaw(parent: Node<Hash>, l: Node<Hash>, r: Node<Hash>, sha: seq<byte> -> Hash)
  {
    && (l.None? ==> parent == None)
    && (l.Some? && r.Some? ==> parent == Some(sha(l.value + r.value)))
    && (l.Some? && r.None? ==> parent == Some(sha(l.value + l.value)))
  }

  /** The leaves, nil up to a power of two, and behind them one parent for each pair of neighbours. */
  ghost predicate ObeysTreeLaws(nodes: seq<Node<Hash>>, leaves: seq<Hash>, sha: seq<byte> -> Hash)
  {
    && leaves != []
    && var p := NextPowerOfTwo(|leaves|);
       && |nodes| == 2 * p - 1
       && (forall i :: 0 <= i < p ==> nodes[i] == if i < |leaves| then Some(leaves[i]) else None)
       && (forall i :: 0 <= i < p - 1 ==> ParentLaw(nodes[p + i], nodes[2 * i], nodes[2 * i + 1], sha))
  }

  lemma TreeObeysLaws(leaves: seq<Hash>, sha: seq<byte> -> Hash)
    requires leaves != []
    ensures ObeysTreeLaws(Tree(leaves, NodeHash(sha)), leaves, sha)
  {
    TreeStarts(leaves, NodeHash(sha));
    var nodes, p := Tree(leaves, NodeHash(sha)), NextPowerOfTwo(|leaves|);
    forall i | 0 <= i < p - 1
      ensures ParentLaw(nodes[p + i], nodes[2 * i], nodes[2 * i + 1], sha)
    {
      TreeStep(leaves, NodeHash(sha), i);
    }
  }

  /** The laws leave no choice. */
  lemma {:induction false} LawsFixNode(a: seq<Node<Hash>>, b: seq<Node<Hash>>, leaves: seq<Hash>, sha: seq<byte> -> Hash, k: nat)
    requires ObeysTreeLaws(a, leaves, sha) && ObeysTreeLaws(b, leaves, sha) && k < |a|
    ensures |a| == |b| && a[k] == b[k]
    decreases k
  {
    var p := NextPowerOfTwo(|leaves|);
    if k >= p {
      var i := k - p;
      LawsFixNode(a, b, leaves, sha, 2 * i);
      LawsFixNode(a, b, leaves, sha, 2 * i + 1);
      assert ParentLaw(a[p + i], a[2 * i], a[2 * i + 1], sha) && ParentLaw(b[p + i], b[2 * i], b[2 * i + 1], sha);
    }
  }

  lemma LawsFixTree(nodes: seq<Node<Hash>>, leaves: seq<Hash>, sha: seq<byte> -> Hash)
    requires ObeysTreeLaws(nodes, leaves, sha)
    ensures nodes == Tree(leaves, NodeHash(sha))
  {
    TreeObeysLaws(leaves, sha);
    forall k | 0 <= k < |nodes|
      ensures |nodes| == |Tree(leaves, NodeHash(sha))| && nodes[k] == Tree(leaves, NodeHash(sha))[k]
    {
      LawsFixNode(nodes, Tree(leaves, NodeHash(sha)), leaves, sha, k);
    }
  }

  /** The ids of a block's transactions: that of the coinbase hashes its form without witnesses. */
  function BlockLeaves(sha: seq<byte> -> Hash, coinbase: Tx, others: seq<Hash>): seq<Hash>
    requires coinbase.Valid()
  {
    [sha(Encode(coinbase, false))] + others
  }

  lemma LawsFixLast(nodes: seq<Node<Hash>>, leaves: seq<Hash>, sha: seq<byte> -> Hash)
    requires ObeysTreeLaws(nodes, leaves, sha)
    ensures nodes[|nodes| - 1] == Some(MerkleRoot(leaves, NodeHash(sha)))
  {
    LawsFixTree(nodes, leaves, sha);
    TreeRoot(leaves, NodeHash(sha));
  }

  /** Whatever obeys the laws for a block has its root as the last node. */
  lemma LawsFixRoot(nodes: seq<Node<Hash>>, sha: seq<byte> -> Hash, coinbase: Tx, others: seq<Hash>)
    requires coinbase.Valid() && ObeysTreeLaws(nodes, BlockLeaves(sha, coinbase, others), sha)
    ensures nodes[|nodes| - 1] == Some(BlockRoot(sha, coinbase, others))
  {
    LawsFixLast(nodes, BlockLeaves(sha, coinbase, others), sha);
  }

  /** The tree main3 builds over the block it has put together, and the root it takes from its last node. */
  method CalculatedRoot(sha: seq<byte> -> Hash, leaves: seq<Hash>) returns (root: Hash, nodes: seq<Node<Hash>>)
    requires leaves != []
    ensures ObeysTreeLaws(nodes, leaves, sha)
    ensures nodes[|nodes| - 1] == Some(root)
  {
    var merkles := BuildMerkleTreeStore(leaves, NodeHash(sha));
    nodes := merkles[..];
    TreeObeysLaws(leaves, sha);
    LawsFixLast(nodes, leaves, sha);
    root := nodes[|nodes| - 1].value;
  }

  // ---- The branch ----

  /** Where node 1 of level `k` stands in the array of a tree with `p` leaves: behind all lower levels. */
  function SecondAt(p: nat, k: nat): nat
  {
    if k == 0 then 1 else p + SecondAt(p / 2, k - 1)
  }

  lemma SecondsAbove(level: seq<Node<Hash>>, h: (Hash, Hash) -> Hash, k: nat)
    requires 1 <= k < |Seconds(level, h)|
    ensures |level| > 1 && k - 1 < |Seconds(Parents(level, h), h)|
    ensures Seconds(level, h)[k] == Seconds(Parents(level, h), h)[k - 1]
  {
  }

  lemma {:induction false} SecondsStand(level: seq<Node<Hash>>, h: (Hash, Hash) -> Hash, k: nat)
    requires IsPowerOfTwo(|level|) && k < |Seconds(level, h)|
    ensures |Flat(level, h)| == 2 * |level| - 1 && SecondAt(|level|, k) < 2 * |level| - 1
    ensures Seconds(level, h)[k] == Flat(level, h)[SecondAt(|level|, k)]
    decreases k
  {
    if k == 0 {
      FlatHead(level, h, 1);
    } else {
      var up := Parents(level, h);
      SecondsAbove(level, h, k);
      SecondsStand(up, h, k - 1);
      FlatTail(level, h, SecondAt(|up|, k - 1));
    }
  }

  /** The entries that go on the wire are node 1 of every level but the last, printed. */
  lemma JobBranchIsSeconds(sha: seq<byte> -> Hash, coinbase: Tx, others: seq<Hash>, nodes: seq<Node<Hash>>, k: nat)
    requires coinbase.Valid() && ObeysTreeLaws(nodes, BlockLeaves(sha, coinbase, others), sha)
    requires JobOf(sha, coinbase, others).Some? && k < |JobOf(sha, coinbase, others).value.merkleBranch|
    ensures var at := SecondAt(NextPowerOfTwo(1 + |others|), k);
            && at < |nodes| && nodes[at].Some?
            && JobOf(sha, coinbase, others).value.merkleBranch[k] == Reversed(nodes[at].value)
  {
    var leaves := BlockLeaves(sha, coinbase, others);
    LawsFixTree(nodes, leaves, sha);
    BranchIsSeconds(leaves, NodeHash(sha));
    SecondsStand(Padded(leaves, NextPowerOfTwo(|leaves|)), NodeHash(sha), k);
  }

  // ---- The miner ----

  /** The miner's hashes one after the other: its coinbase, then each one in front of the next entry, turned around. */
  ghost predicate MinerChain(sha: seq<byte> -> Hash, job: JobParams, nonce: seq<byte>, chain: seq<Hash>)
  {
    && |chain| == |job.merkleBranch| + 1
    && chain[0] == sha(job.coinb1 + nonce + job.coinb2)
    && forall k :: 0 <= k < |job.merkleBranch| ==> chain[k + 1] == sha(chain[k] + Reversed(job.merkleBranch[k]))
  }

  lemma {:induction false} ChainEndsInFold(sha: seq<byte> -> Hash, branch: seq<Hash>, chain: seq<Hash>)
    requires |chain| == |branch| + 1
    requires forall k :: 0 <= k < |branch| ==> chain[k + 1] == sha(chain[k] + branch[k])
    ensures FoldBranch(chain[0], branch, NodeHash(sha)) == chain[|branch|]
    decreases |branch|
  {
    if branch != [] {
      assert chain[0 + 1] == sha(chain[0] + branch[0]);
      forall k | 0 <= k < |branch[1..]|
        ensures chain[1..][k + 1] == sha(chain[1..][k] + branch[1..][k])
      {
        assert chain[(k + 1) + 1] == sha(chain[k + 1] + branch[k + 1]);
      }
      ChainEndsInFold(sha, branch[1..], chain[1..]);
    }
  }

  lemma ChainEndsInMinerRoot(sha: seq<byte> -> Hash, job: JobParams, nonce: seq<byte>, chain: seq<Hash>)
    requires MinerChain(sha, job, nonce, chain)
    ensures chain[|chain| - 1] == MinerRoot(sha, job, nonce)
  {
    ChainEndsInFold(sha, Shown(job.merkleBranch), chain);
  }

  /**
   * End to end without any auxiliary function for hashing: for a job made from a template with any 8-byte nonce, the
   * miner's chain with any other one ends in the last node of the tree of the block whose coinbase carries it.
   */
  lemma ChainEndsInBlockRoot(sha: seq<byte> -> Hash, tx: Tx, others: seq<Hash>, height: nat, nonce: seq<byte>,
                             other: seq<byte>, beaconHash: seq<byte>, chain: seq<Hash>, nodes: seq<Node<Hash>>)
    requires tx.Valid() && !tx.HasWitness()
    requires |nonce| == |other| == EXTRA_NONCE_SIZE && OneByteScript(height, nonce, beaconHash)
    requires Mined(tx, height, nonce, beaconHash).Valid() && Mined(tx, height, other, beaconHash).Valid()
    requires JobOf(sha, Mined(tx, height, nonce, beaconHash), others).Some?
    requires MinerChain(sha, JobOf(sha, Mined(tx, height, nonce, beaconHash), others).value, other, chain)
    requires ObeysTreeLaws(nodes, BlockLeaves(sha, Mined(tx, height, other, beaconHash), others), sha)
    ensures nodes[|nodes| - 1] == Some(chain[|chain| - 1])
  {
    MinerFindsBlockRoot(sha, tx, others, height, nonce, other, beaconHash);
    ChainEndsInMinerRoot(sha, JobOf(sha, Mined(tx, height, nonce, beaconHash), others).value, other, chain);
    LawsFixRoot(nodes, sha, Mined(tx, height, other, beaconHash), others);
  }
}
