/** A reader of scripts that only push, and what it finds in a coinbase script and in the miner's transaction. */
module ScriptReader {
  import opened Bytes
  import opened WireFormat
  import opened ScriptNumber
  import opened Coinbase
  import opened TxReader

  /** What the first opcode pushes, and the script behind it; None for any opcode that is not a push. */
  function ReadPush(b: seq<byte>): (r: Option<(seq<byte>, seq<byte>)>)
    ensures r.Some? ==> |r.value.1| < |b|
  {
    if b == [] then None
    else if b[0] == 0 then Some(([], b[1..]))
    else if b[0] <= 75 then ReadSized(b, 1, b[0])
    else if b[0] == 0x4c && |b| >= 2 then ReadSized(b, 2, b[1])
    else if b[0] == 0x4d && |b| >= 3 then ReadSized(b, 3, FromLE(b[1..3]))
    else if b[0] == 0x4f then Some(([0x81], b[1..]))
    else if 0x51 <= b[0] <= 0x60 then Some(([b[0] - 0x50], b[1..]))
    else None
  }

  function ReadSized(b: seq<byte>, from: nat, size: nat): (r: Option<(seq<byte>, seq<byte>)>)
    requires 1 <= from <= |b|
    ensures r.Some? ==> |r.value.1| < |b|
  {
    if |b| < from + size then None else Some((b[from..from + size], b[from + size..]))
  }

  /** All that a script pushes, in order. */
  function ReadPushes(b: seq<byte>): Option<seq<seq<byte>>>
    decreases |b|
  {
    if b == [] then Some([])
    else
      match ReadPush(b)
      case None => None
      case Some((item, behind)) =>
        var others := ReadPushes(behind);
        if others.None? then None else Some([item] + others.value)
  }

  /** The builder pushes a single zero byte as the empty item. */
  function Pushed(d: seq<byte>): seq<byte>
  {
    if d == [0] then [] else d
  }

  lemma SizedReads(head: seq<byte>, d: seq<byte>, rest: seq<byte>)
    requires head != []
    ensures ReadSized((head + d) + rest, |head|, |d|) == Some((d, rest))
  {
    var b := (head + d) + rest;
    assert b[|head|..|head| + |d|] == d;
    assert b[|head| + |d|..] == rest;
  }

  lemma PushReads(d: seq<byte>, rest: seq<byte>)
    requires |d| <= 520
    ensures ReadPush(PushData(d) + rest) == Some((Pushed(d), rest))
  {
    if |d| > 255 {
      SizedReads([0x4d] + LE(|d|, 2), d, rest);
      PowersOf256();
      LERoundTrip(|d|, 2);
      assert (PushData(d) + rest)[1..3] == LE(|d|, 2);
    } else if |d| > 75 {
      SizedReads([0x4c, |d|], d, rest);
    } else if PushData(d) == [|d|] + d {
      SizedReads([|d|], d, rest);
    } else {
      assert (PushData(d) + rest)[1..] == rest;
      assert |d| == 1 ==> d == [d[0]];
    }
  }

  /** The push of a height is read as that height. */
  lemma IntReads(n: nat, rest: seq<byte>)
    requires n < LIMIT
    ensures ReadPush(PushInt(n) + rest) == Some((ScriptNumBytes(n), rest))
    ensures FromLE(ScriptNumBytes(n)) == n
  {
    if n == 0 {
      assert (PushInt(n) + rest)[1..] == rest;
    } else {
      ScriptNumIsSignedLE(n);
      SignedLEValue(n);
      if n <= 16 {
        assert (PushInt(n) + rest)[1..] == rest;
      } else {
        ScriptNumSize(n);
        PushReads(ScriptNumBytes(n), rest);
      }
    }
  }

  lemma NextPushReads(push: seq<byte>, item: seq<byte>, b: seq<byte>, items: seq<seq<byte>>)
    requires push != [] && ReadPush(push + b) == Some((item, b)) && ReadPushes(b) == Some(items)
    ensures ReadPushes(push + b) == Some([item] + items)
  {
  }

  lemma ScriptNested<T>(a: seq<T>, b: seq<T>, c: seq<T>, d: seq<T>)
    ensures a + b + (c + d) == a + (b + (c + (d + [])))
  {
    assert d + [] == d;
    Assoc(a, b, c + d);
  }

  lemma DataReads(d: seq<byte>, b: seq<byte>, items: seq<seq<byte>>, all: seq<seq<byte>>)
    requires |d| <= 520 && ReadPushes(b) == Some(items) && all == [Pushed(d)] + items
    ensures ReadPushes(PushData(d) + b) == Some(all)
  {
    PushReads(d, b);
    NextPushReads(PushData(d), Pushed(d), b, items);
  }

  lemma FourItemsRead(height: nat, nonce: seq<byte>, beaconHash: seq<byte>, flags: seq<byte>)
    requires height < LIMIT && |nonce| <= 520 && |beaconHash| <= 520 && |flags| <= 520
    ensures ReadPushes(PushInt(height) + PushData(nonce) + (PushData(beaconHash) + PushData(flags)))
         == Some([ScriptNumBytes(height), Pushed(nonce), Pushed(beaconHash), Pushed(flags)])
  {
    var b1 := PushData(flags) + [];
    var b2 := PushData(beaconHash) + b1;
    var b3 := PushData(nonce) + b2;
    var items := [ScriptNumBytes(height), Pushed(nonce), Pushed(beaconHash), Pushed(flags)];
    DataReads(flags, [], [], items[3..]);
    DataReads(beaconHash, b1, items[3..], items[2..]);
    DataReads(nonce, b2, items[2..], items[1..]);
    IntReads(height, b3);
    NextPushReads(PushInt(height), items[0], b3, items[1..]);
    assert [items[0]] + items[1..] == items;
    ScriptNested(PushInt(height), PushData(nonce), PushData(beaconHash), PushData(flags));
  }

  /** The coinbase script pushes the height, the nonce, the beacon hash and the flags, in this order, and nothing else. */
  lemma ScriptReads(height: nat, nonce: seq<byte>, beaconHash: seq<byte>)
    requires height < LIMIT && |nonce| <= 520 && |beaconHash| <= 520
    ensures ReadPushes(BTCCoinbaseScript(height, nonce, beaconHash).value)
         == Some([ScriptNumBytes(height), Pushed(nonce), Pushed(beaconHash), COINBASE_FLAGS])
    ensures FromLE(ScriptNumBytes(height)) == height
  {
    FourItemsRead(height, nonce, beaconHash, COINBASE_FLAGS);
    IntReads(height, []);
  }

  /** The flags spell the source's string. */
  lemma FlagsSpelled()
    ensures |COINBASE_FLAGS| == |"/P2SH/jaxnet/"|
    ensures forall i :: 0 <= i < |COINBASE_FLAGS| ==> COINBASE_FLAGS[i] == "/P2SH/jaxnet/"[i] as int
  {
  }

  /**
   * What a miner sends back, read field by field: the template's transaction in every field but the first
   * script, and that script pushes the same height, beacon hash and flags around the miner's nonce.
   */
  lemma MinersTransactionReads(tx: Tx, height: nat, nonce: seq<byte>, other: seq<byte>, beaconHash: seq<byte>)
    requires tx.Valid() && !tx.HasWitness()
    requires |nonce| == |other| == EXTRA_NONCE_SIZE && OneByteScript(height, nonce, beaconHash)
    ensures Mined(tx, height, nonce, beaconHash).Valid()
    ensures Split(Serialize(Mined(tx, height, nonce, beaconHash))).Some?
    ensures var sent := Rejoin(Split(Serialize(Mined(tx, height, nonce, beaconHash))).value, other);
            && ReadTx(sent).Some?
            && var (read, rest) := ReadTx(sent).value;
               && rest == [] && read.ins != []
               && read == tx.WithScript(read.ins[0].script)
               && ReadPushes(read.ins[0].script)
                  == Some([ScriptNumBytes(height), other, Pushed(beaconHash), COINBASE_FLAGS])
  {
    SplitIsSubstitution(tx, height, nonce, other, beaconHash);
    var again := Mined(tx, height, other, beaconHash);
    TxRoundTrip(again, []);
    assert Serialize(again) + [] == Serialize(again);
    ScriptReads(height, other, beaconHash);
  }
}
