/** The coinbase script, the serialized coinbase transaction, and its split around the extra nonce. */
module Coinbase {
  import opened Bytes
  import opened WireFormat
  import opened ScriptNumber

  /** "/P2SH/jaxnet/" */
  const COINBASE_FLAGS: seq<byte> := [47, 80, 50, 83, 72, 47, 106, 97, 120, 110, 101, 116, 47]

  /** An 8-byte extra nonce: 4 bytes given by the server, 4 chosen by the miner. */
  const EXTRA_NONCE_SIZE := 8

  // ---- The script ----

  /** The script builder's pushes; None stands for its error on an element over 520 bytes. */
  function BTCCoinbaseScript(height: nat, extraNonce: seq<byte>, beaconHash: seq<byte>): (script: Option<seq<byte>>)
    requires height < LIMIT
    ensures script.Some? <==> |extraNonce| <= 520 && |beaconHash| <= 520
    ensures script.Some? ==> |script.value| <= ScriptSize(height, |extraNonce|, |beaconHash|)
    ensures script.Some? && |extraNonce| != 1 && |beaconHash| != 1 ==>
              |script.value| == ScriptSize(height, |extraNonce|, |beaconHash|)
  {
    if |extraNonce| > 520 || |beaconHash| > 520 then None
    else Some(PushInt(height) + PushData(extraNonce) + ScriptTail(beaconHash))
  }

  /** The size of the script; each push of a single byte may take one less. */
  function ScriptSize(height: nat, nonceSize: nat, beaconSize: nat): nat
  {
    NumberSize(height) + DataSize(nonceSize) + DataSize(beaconSize) + DataSize(|COINBASE_FLAGS|)
  }

  function ScriptTail(beaconHash: seq<byte>): seq<byte>
    requires |beaconHash| <= 520
  {
    PushData(beaconHash) + PushData(COINBASE_FLAGS)
  }

  // ---- The transaction ----

  datatype TxIn = TxIn(prevHash: seq<byte>, prevIndex: uint32, script: seq<byte>, sequence: uint32, stack: seq<GoString>)

  datatype TxOut = TxOut(value: uint64, pkScript: GoString)

  /** `version` is the bit pattern of the signed version. */
  datatype Tx = Tx(version: uint32, ins: seq<TxIn>, outs: seq<TxOut>, lockTime: uint32)
  {
    predicate Valid()
    {
      && 1 <= |ins| < 0xFD
      && |outs| < LIMIT
      && forall i :: 0 <= i < |ins| ==> |ins[i].prevHash| == 32 && |ins[i].script| < LIMIT && |ins[i].stack| < LIMIT
    }

    predicate HasWitness()
    {
      exists i :: 0 <= i < |ins| && ins[i].stack != []
    }

    /** The same transaction with another script in its first input. */
    function WithScript(script: seq<byte>): Tx
      requires ins != []
    {
      this.(ins := [ins[0].(script := script)] + ins[1..])
    }
  }

  function SerializeIn(i: TxIn): seq<byte>
    requires |i.script| < LIMIT
  {
    i.prevHash + LE(i.prevIndex, 4) + VarInt(|i.script|) + i.script + LE(i.sequence, 4)
  }

  function SerializeIns(ins: seq<TxIn>): seq<byte>
    requires forall i :: 0 <= i < |ins| ==> |ins[i].script| < LIMIT
  {
    if ins == [] then [] else SerializeIn(ins[0]) + SerializeIns(ins[1..])
  }

  function SerializeOut(o: TxOut): seq<byte>
  {
    LE(o.value, 8) + SerializeString(o.pkScript)
  }

  function SerializeOuts(outs: seq<TxOut>): seq<byte>
  {
    if outs == [] then [] else SerializeOut(outs[0]) + SerializeOuts(outs[1..])
  }

  function SerializeWitnesses(ins: seq<TxIn>): seq<byte>
    requires forall i :: 0 <= i < |ins| ==> |ins[i].stack| < LIMIT
  {
    if ins == [] then []
    else VarInt(|ins[0].stack|) + SerializeStrings(ins[0].stack) + SerializeWitnesses(ins[1..])
  }

  /** Everything behind the first input's script, for a transaction with (`withWitness`) or without its witnesses. */
  function AfterScript(tx: Tx, withWitness: bool): seq<byte>
    requires tx.Valid()
  {
    LE(tx.ins[0].sequence, 4) + SerializeIns(tx.ins[1..])
    + VarInt(|tx.outs|) + SerializeOuts(tx.outs)
    + (if withWitness then SerializeWitnesses(tx.ins) else [])
    + LE(tx.lockTime, 4)
  }

  /** Version, marker and flag if there are witnesses, the count of inputs, and the first input's outpoint. */
  function BeforeScript(tx: Tx, withWitness: bool): seq<byte>
    requires tx.Valid()
  {
    LE(tx.version, 4) + (if withWitness then [0x00, 0x01] else []) + VarInt(|tx.ins|)
    + tx.ins[0].prevHash + LE(tx.ins[0].prevIndex, 4)
  }

  function Encode(tx: Tx, withWitness: bool): seq<byte>
    requires tx.Valid()
  {
    LE(tx.version, 4) + (if withWitness then [0x00, 0x01] else [])
    + VarInt(|tx.ins|) + SerializeIns(tx.ins)
    + VarInt(|tx.outs|) + SerializeOuts(tx.outs)
    + (if withWitness then SerializeWitnesses(tx.ins) else [])
    + LE(tx.lockTime, 4)
  }

  /** The wire form: witnesses are written as soon as one input has any. */
  function Serialize(tx: Tx): seq<byte>
    requires tx.Valid()
  {
    Encode(tx, tx.HasWitness())
  }

  lemma EncodeAroundScript(tx: Tx, withWitness: bool)
    requires tx.Valid()
    ensures Encode(tx, withWitness)
         == BeforeScript(tx, withWitness) + VarInt(|tx.ins[0].script|) + tx.ins[0].script + AfterScript(tx, withWitness)
  {
    var first, more := tx.ins[0], SerializeIns(tx.ins[1..]);
    var head := LE(tx.version, 4) + (if withWitness then [0x00, 0x01] else []) + VarInt(|tx.ins|);
    var outs := VarInt(|tx.outs|) + SerializeOuts(tx.outs);
    var stacks := if withWitness then SerializeWitnesses(tx.ins) else [];
    var sequence, lockTime := LE(first.sequence, 4), LE(tx.lockTime, 4);
    var point, length := first.prevHash + LE(first.prevIndex, 4), VarInt(|first.script|);
    assert SerializeIns(tx.ins) == point + length + first.script + sequence + more;
    Regroup(head, point, length, first.script, sequence, more, outs, stacks, lockTime);
    assert Encode(tx, withWitness) == head + SerializeIns(tx.ins) + VarInt(|tx.outs|) + SerializeOuts(tx.outs) + stacks + lockTime;
    Assoc(head + SerializeIns(tx.ins), VarInt(|tx.outs|), SerializeOuts(tx.outs));
    assert BeforeScript(tx, withWitness) == head + first.prevHash + LE(first.prevIndex, 4);
    Assoc(head, first.prevHash, LE(first.prevIndex, 4));
    assert AfterScript(tx, withWitness) == sequence + more + VarInt(|tx.outs|) + SerializeOuts(tx.outs) + stacks + lockTime;
    Assoc(sequence + more, VarInt(|tx.outs|), SerializeOuts(tx.outs));
  }

  lemma Regroup<T>(a: seq<T>, p: seq<T>, l: seq<T>, s: seq<T>, q: seq<T>, m: seq<T>, o: seq<T>, w: seq<T>, k: seq<T>)
    ensures a + (p + l + s + q + m) + o + w + k == (a + p) + l + s + (q + m + o + w + k)
  {
    assert a + (p + l + s + q + m) == (a + p + l + s) + (q + m);
    var x := a + p + l + s;
    assert x + (q + m) + o == x + (q + m + o);
    assert x + (q + m + o) + w == x + (q + m + o + w);
    assert x + (q + m + o + w) + k == x + (q + m + o + w + k);
  }

  /** Replacing the first script changes nothing else on either side. */
  lemma WithScriptKeepsTheRest(tx: Tx, script: seq<byte>, withWitness: bool)
    requires tx.Valid() && |script| < LIMIT
    ensures tx.WithScript(script).Valid()
    ensures tx.WithScript(script).HasWitness() == tx.HasWitness()
    ensures BeforeScript(tx.WithScript(script), withWitness) == BeforeScript(tx, withWitness)
    ensures AfterScript(tx.WithScript(script), withWitness) == AfterScript(tx, withWitness)
    ensures Encode(tx.WithScript(script), withWitness)
         == BeforeScript(tx, withWitness) + VarInt(|script|) + script + AfterScript(tx, withWitness)
  {
    var other := tx.WithScript(script);
    assert other.ins[1..] == tx.ins[1..];
    assert forall i :: 0 <= i < |tx.ins| ==> other.ins[i].stack == tx.ins[i].stack;
    EncodeAroundScript(other, withWitness);
    assert SerializeWitnesses(other.ins) == SerializeWitnesses(tx.ins);
  }

  // ---- The split ----

  /** Where the split looks for the nonce's length: behind the height item; None if the bytes end before. */
  function NonceLengthAt(raw: seq<byte>): (at: Option<nat>)
    ensures at.Some? ==> 42 < at.value < |raw|
  {
    if |raw| <= 42 then None
    else
      var heightLen := if raw[42] > 0xF then 0 else raw[42];
      if |raw| <= 43 + heightLen then None else Some(43 + heightLen)
  }

  /** What the split returns on any bytes; None is a panic on an index or slice out of range. */
  function Split(raw: seq<byte>): (r: Option<(seq<byte>, seq<byte>)>)
  {
    match NonceLengthAt(raw)
    case None => None
    case Some(at) =>
      if |raw| < at + raw[at] + 1 then None
      else Some((raw[..at] + [0x08], raw[at + raw[at] + 1..]))
  }

  /**
   * The source's split. Its append writes 0x08 into the serialized transaction itself, because the slice it
   * extends has room there; both parts are slices of that one array, read after the write. The write comes
   * before the last possible panic.
   */
  method SplitCoinbase(rawTx: array<byte>) returns (r: Option<(seq<byte>, seq<byte>)>)
    modifies rawTx
    ensures r == Split(old(rawTx[..]))
    ensures var at := NonceLengthAt(old(rawTx[..]));
            rawTx[..] == if at.Some? then old(rawTx[..])[at.value := 0x08] else old(rawTx[..])
    ensures r.Some? ==> r.value.0 == rawTx[..|r.value.0|]
    ensures r.Some? ==> r.value.1 == rawTx[rawTx.Length - |r.value.1|..] == old(rawTx[rawTx.Length - |r.value.1|..])
  {
    var heightLenIdx := 42;
    if rawTx.Length <= heightLenIdx {
      return None;
    }
    var heightLen := rawTx[heightLenIdx];
    if heightLen > 0xF {
      heightLen := 0;
    }
    var extraNonceLenIdx := heightLenIdx + 1 + heightLen;
    if rawTx.Length <= extraNonceLenIdx {
      return None;
    }
    var extraNonceLen := rawTx[extraNonceLenIdx];
    rawTx[extraNonceLenIdx] := 0x08;
    var part1 := rawTx[..extraNonceLenIdx + 1];
    if rawTx.Length < extraNonceLenIdx + extraNonceLen + 1 {
      return None;
    }
    var part2 := rawTx[extraNonceLenIdx + extraNonceLen + 1..];
    assert part1 == old(rawTx[..extraNonceLenIdx]) + [0x08];
    assert part2 == old(rawTx[extraNonceLenIdx + extraNonceLen + 1..]);
    r := Some((part1, part2));
  }

  /** What a miner sends back: its nonce between the two parts. */
  function Rejoin(parts: (seq<byte>, seq<byte>), nonce: seq<byte>): seq<byte>
  {
    parts.0 + nonce + parts.1
  }

  /** The height item in front of a script is skipped exactly, for every height and either of its two encodings. */
  lemma HeightItemSkipped(height: nat)
    requires height < LIMIT
    ensures var item := PushInt(height); |item| == 1 + if item[0] > 0xF then 0 else item[0]
    ensures var item := NumberItem(height); |item| == 1 + if item[0] > 0xF then 0 else item[0]
    ensures |PushInt(height)| <= 9
  {
    SignedLELength(height, 8);
    if height > 16 {
      SerializerIsCanonicalPush(height);
    }
  }

  /** The split of any bytes that carry 42 bytes, a height item, a data item with a one-byte length, and a rest. */
  lemma SplitAt(before: seq<byte>, item: seq<byte>, data: seq<byte>, after: seq<byte>)
    requires |before| == 42 && item != [] && |item| == 1 + if item[0] > 0xF then 0 else item[0]
    requires |data| < 256
    ensures Split(before + item + ([|data|] + data) + after) == Some((before + item + [0x08], after))
  {
    var raw := before + item + ([|data|] + data) + after;
    var at := 42 + |item|;
    assert raw[42] == item[0];
    assert raw[at] == |data|;
    assert raw[..at] == before + item;
    assert raw[at + |data| + 1..] == after;
  }

  /** A script with room for a one-byte length, built around the given nonce. */
  ghost predicate OneByteScript(height: nat, nonce: seq<byte>, beaconHash: seq<byte>)
  {
    && height < LIMIT && |nonce| <= 520 && |beaconHash| <= 520
    && ScriptSize(height, |nonce|, |beaconHash|) < 0xFD
  }

  /** For a nonce with a length byte the sizes decide exactly whether the script's own length takes one byte. */
  lemma OneByteScriptMeans(height: nat, nonce: seq<byte>, beaconHash: seq<byte>)
    requires height < LIMIT && 2 <= |nonce| <= 75
    ensures OneByteScript(height, nonce, beaconHash)
       <==> BTCCoinbaseScript(height, nonce, beaconHash).Some? && |BTCCoinbaseScript(height, nonce, beaconHash).value| < 0xFD
  {
  }

  /** Every script for an 8-byte nonce and a beacon hash of up to 75 bytes is one; it has at most 108 bytes. */
  lemma ScriptsAreShort(height: nat, nonce: seq<byte>, beaconHash: seq<byte>)
    requires height < LIMIT && |nonce| == EXTRA_NONCE_SIZE && |beaconHash| <= 75
    ensures OneByteScript(height, nonce, beaconHash)
    ensures |BTCCoinbaseScript(height, nonce, beaconHash).value| <= 108
  {
    HeightItemSkipped(height);
  }

  /** The transaction that mines this height with this nonce. */
  function Mined(tx: Tx, height: nat, nonce: seq<byte>, beaconHash: seq<byte>): Tx
    requires tx.ins != [] && height < LIMIT && BTCCoinbaseScript(height, nonce, beaconHash).Some?
  {
    tx.WithScript(BTCCoinbaseScript(height, nonce, beaconHash).value)
  }

  /** What stands in front of the nonce's length byte. */
  function Front(tx: Tx, size: byte, height: nat): seq<byte>
    requires tx.Valid() && height < LIMIT
  {
    BeforeScript(tx, false) + [size] + PushInt(height)
  }

  function Back(tx: Tx, beaconHash: seq<byte>): seq<byte>
    requires tx.Valid() && |beaconHash| <= 520
  {
    ScriptTail(beaconHash) + AfterScript(tx, false)
  }

  /** A nonce of 2 to 75 bytes is pushed behind one length byte. */
  lemma MinedLayout(tx: Tx, height: nat, nonce: seq<byte>, beaconHash: seq<byte>)
    requires tx.Valid() && !tx.HasWitness()
    requires 2 <= |nonce| <= 75 && OneByteScript(height, nonce, beaconHash)
    ensures Mined(tx, height, nonce, beaconHash).Valid() && !Mined(tx, height, nonce, beaconHash).HasWitness()
    ensures Serialize(Mined(tx, height, nonce, beaconHash))
         == Front(tx, |BTCCoinbaseScript(height, nonce, beaconHash).value|, height) + ([|nonce|] + nonce) + Back(tx, beaconHash)
  {
    var script := BTCCoinbaseScript(height, nonce, beaconHash).value;
    var item, push, tail, after := PushInt(height), [|nonce|] + nonce, ScriptTail(beaconHash), AfterScript(tx, false);
    var before := BeforeScript(tx, false) + [|script|];
    WithScriptKeepsTheRest(tx, script, false);
    assert VarInt(|script|) == [|script|];
    assert script == item + push + tail;
    assert Serialize(Mined(tx, height, nonce, beaconHash)) == before + script + after;
    RegroupScript(before, item, push, tail, after);
    assert Front(tx, |script|, height) == before + item;
    assert Back(tx, beaconHash) == tail + after;
  }

  lemma RegroupScript<T>(before: seq<T>, item: seq<T>, push: seq<T>, tail: seq<T>, after: seq<T>)
    ensures before + (item + push + tail) + after == (before + item) + push + (tail + after)
  {
    assert before + (item + push + tail) == (before + item) + push + tail;
  }

  /** So the split finds it and cuts around it. */
  lemma SplitMined(tx: Tx, height: nat, nonce: seq<byte>, beaconHash: seq<byte>)
    requires tx.Valid() && !tx.HasWitness()
    requires 2 <= |nonce| <= 75 && OneByteScript(height, nonce, beaconHash)
    ensures Mined(tx, height, nonce, beaconHash).Valid()
    ensures |BeforeScript(tx, false)| == 41
    ensures Split(Serialize(Mined(tx, height, nonce, beaconHash)))
         == Some((Front(tx, |BTCCoinbaseScript(height, nonce, beaconHash).value|, height) + [0x08], Back(tx, beaconHash)))
  {
    var size: byte := |BTCCoinbaseScript(height, nonce, beaconHash).value|;
    MinedLayout(tx, height, nonce, beaconHash);
    HeightItemSkipped(height);
    SplitAt(BeforeScript(tx, false) + [size], PushInt(height), nonce, Back(tx, beaconHash));
  }

  /**
   * The split is substitution: the two parts of the transaction made for one 8-byte nonce, joined around
   * another one, are the bytes of the transaction made for that other nonce.
   */
  lemma SplitIsSubstitution(tx: Tx, height: nat, nonce: seq<byte>, other: seq<byte>, beaconHash: seq<byte>)
    requires tx.Valid() && !tx.HasWitness()
    requires |nonce| == |other| == EXTRA_NONCE_SIZE && OneByteScript(height, nonce, beaconHash)
    ensures OneByteScript(height, other, beaconHash)
    ensures var mined, again := Mined(tx, height, nonce, beaconHash), Mined(tx, height, other, beaconHash);
            && mined.Valid() && again.Valid()
            && Split(Serialize(mined)).Some?
            && Rejoin(Split(Serialize(mined)).value, other) == Serialize(again)
  {
    SameScriptSize(height, nonce, other, beaconHash);
    var size: byte := |BTCCoinbaseScript(height, other, beaconHash).value|;
    var front, back := Front(tx, size, height), Back(tx, beaconHash);
    assert Split(Serialize(Mined(tx, height, nonce, beaconHash))) == Some((front + [0x08], back)) by {
      SplitMined(tx, height, nonce, beaconHash);
    }
    assert Serialize(Mined(tx, height, other, beaconHash)) == front + ([8] + other) + back by {
      MinedLayout(tx, height, other, beaconHash);
    }
    RejoinAround(front, other, back);
  }

  lemma RejoinAround(front: seq<byte>, nonce: seq<byte>, back: seq<byte>)
    ensures Rejoin((front + [0x08], back), nonce) == front + ([8] + nonce) + back
  {
    assert (front + [8]) + nonce == front + ([8] + nonce);
  }

  lemma SameScriptSize(height: nat, nonce: seq<byte>, other: seq<byte>, beaconHash: seq<byte>)
    requires |nonce| == |other| == EXTRA_NONCE_SIZE && OneByteScript(height, nonce, beaconHash)
    ensures OneByteScript(height, other, beaconHash)
    ensures |BTCCoinbaseScript(height, other, beaconHash).value| == |BTCCoinbaseScript(height, nonce, beaconHash).value|
  {
  }

  /**
   * The length byte of the script is not rewritten, so a template made with a nonce of another length never
   * yields the transaction for an 8-byte one, whatever the split makes of its push. Among all nonces the script
   * builder takes, exactly the 8-byte ones do.
   */
  lemma SubstitutionNeedsEightBytes(tx: Tx, height: nat, nonce: seq<byte>, other: seq<byte>, beaconHash: seq<byte>)
    requires tx.Valid() && !tx.HasWitness()
    requires |nonce| <= 520 && |other| == EXTRA_NONCE_SIZE && OneByteScript(height, other, beaconHash)
    ensures var mined, again := Mined(tx, height, nonce, beaconHash), Mined(tx, height, other, beaconHash);
            && mined.Valid() && again.Valid()
            && (Split(Serialize(mined)).Some? && Rejoin(Split(Serialize(mined)).value, other) == Serialize(again)
                <==> |nonce| == EXTRA_NONCE_SIZE)
  {
    if |nonce| == EXTRA_NONCE_SIZE {
      SplitIsSubstitution(tx, height, nonce, other, beaconHash);
    } else {
      var script := BTCCoinbaseScript(height, nonce, beaconHash).value;
      var intended := BTCCoinbaseScript(height, other, beaconHash).value;
      OneByteScriptMeans(height, other, beaconHash);
      assert |script| != |intended|;
      ScriptLengthAt41(tx, script);
      ScriptLengthAt41(tx, intended);
      LengthByteDiffers(|script|, |intended|);
      var raw := Serialize(tx.WithScript(script));
      if Split(raw).Some? {
        SplitKeepsFront(raw, other);
      }
    }
  }

  /** Behind a one-byte input count, the script's length starts at offset 41. */
  lemma ScriptLengthAt41(tx: Tx, script: seq<byte>)
    requires tx.Valid() && !tx.HasWitness() && |script| < LIMIT
    ensures tx.WithScript(script).Valid()
    ensures |Serialize(tx.WithScript(script))| > 41
    ensures Serialize(tx.WithScript(script))[41] == VarInt(|script|)[0]
  {
    WithScriptKeepsTheRest(tx, script, false);
    var before, size, after := BeforeScript(tx, false), VarInt(|script|), AfterScript(tx, false);
    assert |before| == 41;
    assert (before + size + script + after)[41] == size[0];
  }

  lemma LengthByteDiffers(a: uint64, b: uint64)
    requires a != b && b < 0xFD
    ensures VarInt(a)[0] != VarInt(b)[0]
  {
  }

  lemma SplitKeepsFront(raw: seq<byte>, other: seq<byte>)
    requires Split(raw).Some?
    ensures |raw| > 42 && |Rejoin(Split(raw).value, other)| > 41
    ensures Rejoin(Split(raw).value, other)[41] == raw[41]
  {
  }

  /**
   * With witnesses every offset is two bytes later. A coinbase has 0xffffffff as the index of its outpoint, so
   * the split reads 0xff where it expects the height and takes the whole script for the nonce: the miner's
   * transaction then has the bare nonce as its script, without height, beacon hash and flags.
   */
  lemma WitnessSplitReplacesScript(tx: Tx, script: seq<byte>, other: seq<byte>)
    requires tx.Valid() && tx.HasWitness() && tx.ins[0].prevIndex == 0xFFFF_FFFF
    requires |script| < 0xFD && |other| == EXTRA_NONCE_SIZE
    ensures var template, bare := tx.WithScript(script), tx.WithScript(other);
            && template.Valid() && bare.Valid()
            && Split(Serialize(template)).Some?
            && Rejoin(Split(Serialize(template)).value, other) == Serialize(bare)
  {
    WithScriptKeepsTheRest(tx, script, true);
    WithScriptKeepsTheRest(tx, other, true);
    var before, after := BeforeScript(tx, true), AfterScript(tx, true);
    CoinbaseOutpointEnds(tx);
    assert before == before[..42] + [0xFF];
    SplitAt(before[..42], [0xFF], script, after);
    Assoc(before, [|script|], script);
    assert VarInt(|other|) == [0x08];
    Assoc(before, [0x08], other);
    RejoinAround(before, other, after);
  }

  lemma CoinbaseOutpointEnds(tx: Tx)
    requires tx.Valid() && tx.ins[0].prevIndex == 0xFFFF_FFFF
    ensures |BeforeScript(tx, true)| == 43 && BeforeScript(tx, true)[42] == 0xFF
  {
    var index := LE(tx.ins[0].prevIndex, 4);
    LE32Bytes(tx.ins[0].prevIndex);
    assert index[3] == 0xFF;
    var before := BeforeScript(tx, true);
    assert before[|before| - 1] == index[3];
  }

  lemma ScriptLengthShows(tx: Tx, a: seq<byte>, b: seq<byte>)
    requires tx.Valid() && tx.HasWitness() && |a| < 0xFD && |b| < 0xFD && |a| != |b|
    ensures tx.WithScript(a).Valid() && tx.WithScript(b).Valid()
    ensures Serialize(tx.WithScript(a)) != Serialize(tx.WithScript(b))
  {
    WithScriptKeepsTheRest(tx, a, true);
    WithScriptKeepsTheRest(tx, b, true);
    assert Serialize(tx.WithScript(a))[|BeforeScript(tx, true)|] == |a|;
    assert Serialize(tx.WithScript(b))[|BeforeScript(tx, true)|] == |b|;
  }

  /**
   * So the split gives the miner the intended transaction exactly when the template has no witness, for a
   * coinbase outpoint and 8-byte nonces.
   */
  lemma SubstitutionNeedsNoWitness(tx: Tx, height: nat, nonce: seq<byte>, other: seq<byte>, beaconHash: seq<byte>)
    requires tx.Valid() && tx.ins[0].prevIndex == 0xFFFF_FFFF
    requires |nonce| == |other| == EXTRA_NONCE_SIZE && OneByteScript(height, nonce, beaconHash)
    ensures OneByteScript(height, other, beaconHash)
    ensures var mined, again := Mined(tx, height, nonce, beaconHash), Mined(tx, height, other, beaconHash);
            && mined.Valid() && again.Valid()
            && Split(Serialize(mined)).Some?
            && (Rejoin(Split(Serialize(mined)).value, other) == Serialize(again) <==> !tx.HasWitness())
  {
    if !tx.HasWitness() {
      SplitIsSubstitution(tx, height, nonce, other, beaconHash);
    } else {
      var script, intended := BTCCoinbaseScript(height, nonce, beaconHash).value, BTCCoinbaseScript(height, other, beaconHash).value;
      WitnessSplitReplacesScript(tx, script, other);
      ScriptLengthShows(tx, other, intended);
    }
  }
}
