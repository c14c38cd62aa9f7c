/** A mining job end to end: from a block template to the parts on the wire, and what the miner makes of them. */
module Job {
  import opened Bytes
  import opened Coinbase
  import opened Merkle

  type Hash = seq<byte>

  /** Two tree nodes hashed together; `sha` stands for the double SHA-256. */
  function NodeHash(sha: seq<byte> -> Hash): (Hash, Hash) -> Hash
  {
    (l, r) => sha(l + r)
  }

  /** A transaction's id: the hash of its form without witnesses. */
  function TxId(sha: seq<byte> -> Hash, tx: Tx): Hash
    requires tx.Valid()
  {
    sha(Encode(tx, false))
  }

  /** The Merkle root of a block with this coinbase and these other transaction ids. */
  function BlockRoot(sha: seq<byte> -> Hash, coinbase: Tx, others: seq<Hash>): Hash
    requires coinbase.Valid()
  {
    MerkleRoot([TxId(sha, coinbase)] + others, NodeHash(sha))
  }

  /**
   * What the server puts on the wire, each string read as the bytes its hexadecimal digits show. The branch is
   * sent as chainhash prints a hash, with the bytes in reverse.
   */
  datatype JobParams = JobParams(coinb1: seq<byte>, coinb2: seq<byte>, merkleBranch: seq<Hash>)

  /** Hashes as they are printed. */
  function Shown(hashes: seq<Hash>): (shown: seq<Hash>)
    ensures |shown| == |hashes|
    ensures forall i :: 0 <= i < |hashes| ==> shown[i] == Reversed(hashes[i])
  {
    if hashes == [] then [] else [Reversed(hashes[0])] + Shown(hashes[1..])
  }

  /** The root for a job and a nonce of the miner's own, along a branch as the miner reads it. */
  function RootAlong(sha: seq<byte> -> Hash, job: JobParams, nonce: seq<byte>, branch: seq<Hash>): Hash
  {
    FoldBranch(sha(Rejoin((job.coinb1, job.coinb2), nonce)), branch, NodeHash(sha))
  }

  /** A miner has to turn the bytes of every branch entry around again. */
  function MinerRoot(sha: seq<byte> -> Hash, job: JobParams, nonce: seq<byte>): Hash
  {
    RootAlong(sha, job, nonce, Shown(job.merkleBranch))
  }

  lemma ShownTwice(hashes: seq<Hash>)
    ensures Shown(Shown(hashes)) == hashes
  {
    forall i | 0 <= i < |hashes|
      ensures Shown(Shown(hashes))[i] == hashes[i]
    {
      assert Shown(Shown(hashes))[i] == Reversed(Reversed(hashes[i]));
    }
  }

  /** The job for a template: both parts of its coinbase, and the branch; None if the split panics. */
  function JobOf(sha: seq<byte> -> Hash, coinbase: Tx, others: seq<Hash>): Option<JobParams>
    requires coinbase.Valid()
  {
    match Split(Serialize(coinbase))
    case None => None
    case Some(parts) => Some(JobParams(parts.0, parts.1, Shown(Branch([TxId(sha, coinbase)] + others, NodeHash(sha)))))
  }

  /**
   * Builds the job as main3 does: the template's coinbase is serialized and split, the tree is built over all
   * transactions, the branch is read off the tree, nil entries are dropped, and the others are printed.
   */
  method BuildJob(sha: seq<byte> -> Hash, coinbase: Tx, others: seq<Hash>) returns (job: Option<JobParams>)
    requires coinbase.Valid()
    ensures job == JobOf(sha, coinbase, others)
  {
    var rawTx := Copied(Serialize(coinbase));
    var parts := SplitCoinbase(rawTx);
    if parts.None? {
      return None;
    }
    var merkles := BuildMerkleTreeStore([TxId(sha, coinbase)] + others, NodeHash(sha));
    var path := MerkleTreeBranch(merkles);
    var merkleBranch := Printed(path);
    job := Some(JobParams(parts.value.0, parts.value.1, merkleBranch));
  }

  method Copied(bytes: seq<byte>) returns (a: array<byte>)
    ensures fresh(a) && a[..] == bytes
  {
    a := new byte[|bytes|](i requires 0 <= i < |bytes| => bytes[i]);
  }

  /** The loop in front of the wire: it skips nil entries and prints the others. */
  method Printed(path: seq<Node<Hash>>) returns (branch: seq<Hash>)
    ensures branch == Shown(DropNil(path))
  {
    branch := [];
    for i := 0 to |path|
      invariant branch + Shown(DropNil(path[i..])) == Shown(DropNil(path))
    {
      PrintStep(path, i, branch, Shown(DropNil(path)));
      if path[i].Some? {
        branch := branch + [Reversed(path[i].value)];
      }
    }
  }

  lemma PrintStep(path: seq<Node<Hash>>, i: nat, branch: seq<Hash>, all: seq<Hash>)
    requires i < |path| && branch + Shown(DropNil(path[i..])) == all
    ensures (if path[i].Some? then branch + [Reversed(path[i].value)] else branch) + Shown(DropNil(path[i + 1..])) == all
  {
    assert path[i..][1..] == path[i + 1..];
    if path[i].Some? {
      ShownCons(path[i].value, DropNil(path[i + 1..]));
      Assoc(branch, [Reversed(path[i].value)], Shown(DropNil(path[i + 1..])));
    }
  }

  lemma ShownCons(hash: Hash, hashes: seq<Hash>)
    ensures Shown([hash] + hashes) == [Reversed(hash)] + Shown(hashes)
  {
    assert ([hash] + hashes)[1..] == hashes;
  }

  /** The miner's leaf is the id of the coinbase with its nonce. */
  lemma LeafOfJob(sha: seq<byte> -> Hash, tx: Tx, height: nat, nonce: seq<byte>, other: seq<byte>, beaconHash: seq<byte>)
    requires tx.Valid() && !tx.HasWitness()
    requires |nonce| == |other| == EXTRA_NONCE_SIZE && OneByteScript(height, nonce, beaconHash)
    ensures OneByteScript(height, other, beaconHash)
    ensures Mined(tx, height, nonce, beaconHash).Valid() && Mined(tx, height, other, beaconHash).Valid()
    ensures var parts := Split(Serialize(Mined(tx, height, nonce, beaconHash)));
            parts.Some? && sha(Rejoin(parts.value, other)) == TxId(sha, Mined(tx, height, other, beaconHash))
  {
    SplitIsSubstitution(tx, height, nonce, other, beaconHash);
    WithScriptKeepsTheRest(tx, BTCCoinbaseScript(height, other, beaconHash).value, false);
  }

  /**
   * The end-to-end theorem. The job made from a template with any 8-byte nonce lets the miner, with any 8-byte
   * nonce of its own, compute exactly the Merkle root of the block whose coinbase carries that nonce.
   */
  lemma MinerFindsBlockRoot(sha: seq<byte> -> Hash, tx: Tx, others: seq<Hash>, height: nat,
                            nonce: seq<byte>, other: seq<byte>, beaconHash: seq<byte>)
    requires tx.Valid() && !tx.HasWitness()
    requires |nonce| == |other| == EXTRA_NONCE_SIZE && OneByteScript(height, nonce, beaconHash)
    ensures var template, block := Mined(tx, height, nonce, beaconHash), Mined(tx, height, other, beaconHash);
            && template.Valid() && block.Valid()
            && var job := JobOf(sha, template, others);
               job.Some? && MinerRoot(sha, job.value, other) == BlockRoot(sha, block, others)
  {
    var template, block := Mined(tx, height, nonce, beaconHash), Mined(tx, height, other, beaconHash);
    LeafOfJob(sha, tx, height, nonce, other, beaconHash);
    var leaves := [TxId(sha, template)] + others;
    assert leaves[1..] == others;
    ShownTwice(Branch(leaves, NodeHash(sha)));
    BranchTheorem(leaves, TxId(sha, block), NodeHash(sha));
  }

  lemma PalindromesOrCollision(leaf: Hash, branch: seq<Hash>, h: (Hash, Hash) -> Hash)
    requires !Collision(leaf, branch, Shown(branch), h)
    ensures FoldBranch(leaf, Shown(branch), h) == FoldBranch(leaf, branch, h)
       <==> forall i :: 0 <= i < |branch| ==> Reversed(branch[i]) == branch[i]
  {
    if FoldBranch(leaf, Shown(branch), h) == FoldBranch(leaf, branch, h) && branch != Shown(branch) {
      TwoBranchesCollide(leaf, branch, Shown(branch), h);
    }
    if forall i :: 0 <= i < |branch| ==> Reversed(branch[i]) == branch[i] {
      assert Shown(branch) == branch;
    }
  }

  /**
   * A miner that takes the branch entries as they come gets the same root, short of a collision, if and only if
   * every entry reads the same backwards.
   */
  lemma LiteralBranchNeedsPalindromes(sha: seq<byte> -> Hash, job: JobParams, nonce: seq<byte>)
    requires var leaf, branch := sha(Rejoin((job.coinb1, job.coinb2), nonce)), job.merkleBranch;
             !Collision(leaf, branch, Shown(branch), NodeHash(sha))
    ensures RootAlong(sha, job, nonce, job.merkleBranch) == MinerRoot(sha, job, nonce)
       <==> forall i :: 0 <= i < |job.merkleBranch| ==> Reversed(job.merkleBranch[i]) == job.merkleBranch[i]
  {
    PalindromesOrCollision(sha(Rejoin((job.coinb1, job.coinb2), nonce)), job.merkleBranch, NodeHash(sha));
  }

  /** The same said of the method: from template to root in one go, for every nonce the miner may pick. */
  method BuildJobForHeight(sha: seq<byte> -> Hash, tx: Tx, others: seq<Hash>, height: nat,
                           nonce: seq<byte>, beaconHash: seq<byte>) returns (job: JobParams)
    requires tx.Valid() && !tx.HasWitness()
    requires |nonce| == EXTRA_NONCE_SIZE && OneByteScript(height, nonce, beaconHash)
    ensures forall other: seq<byte> :: |other| == EXTRA_NONCE_SIZE ==>
              && BTCCoinbaseScript(height, other, beaconHash).Some?
              && Mined(tx, height, other, beaconHash).Valid()
              && MinerRoot(sha, job, other) == BlockRoot(sha, Mined(tx, height, other, beaconHash), others)
  {
    var template := Mined(tx, height, nonce, beaconHash);
    SplitIsSubstitution(tx, height, nonce, nonce, beaconHash);
    var built := BuildJob(sha, template, others);
    job := built.value;
    forall other: seq<byte> | |other| == EXTRA_NONCE_SIZE
      ensures BTCCoinbaseScript(height, other, beaconHash).Some?
      ensures Mined(tx, height, other, beaconHash).Valid()
      ensures MinerRoot(sha, job, other) == BlockRoot(sha, Mined(tx, height, other, beaconHash), others)
    {
      MinerFindsBlockRoot(sha, tx, others, height, nonce, other, beaconHash);
    }
  }
}
