/** A reader of the transaction format, written field by field, that gets every serialized transaction back. */
module TxReader {
  import opened Bytes
  import opened WireFormat
  import opened ScriptNumber
  import opened Coinbase

  // ---- The fields: each reader gives the value and the bytes behind it ----

  function ReadNumber(b: seq<byte>, width: nat): Option<(nat, seq<byte>)>
  {
    if |b| < width then None else Some((FromLE(b[..width]), b[width..]))
  }

  function ReadBytes(b: seq<byte>, size: nat): Option<(seq<byte>, seq<byte>)>
  {
    if |b| < size then None else Some((b[..size], b[size..]))
  }

  function ReadCount(b: seq<byte>): Option<(uint64, seq<byte>)>
  {
    match ParseVarInt(b)
    case None => None
    case Some((count, used)) => Some((count, b[used..]))
  }

  /** A length and so many bytes. */
  function ReadString(b: seq<byte>): Option<(GoString, seq<byte>)>
  {
    match ReadCount(b)
    case None => None
    case Some((size, behind)) =>
      if size >= LIMIT || |behind| < size then None else Some((behind[..size], behind[size..]))
  }

  lemma Taken(a: seq<byte>, rest: seq<byte>)
    ensures (a + rest)[..|a|] == a && (a + rest)[|a|..] == rest
  {
  }

  lemma NumberReads(n: nat, width: nat, rest: seq<byte>)
    requires n < Pow256(width)
    ensures ReadNumber(LE(n, width) + rest, width) == Some((n, rest))
  {
    Taken(LE(n, width), rest);
    LERoundTrip(n, width);
  }

  lemma BytesRead(a: seq<byte>, rest: seq<byte>)
    ensures ReadBytes(a + rest, |a|) == Some((a, rest))
  {
    Taken(a, rest);
  }

  lemma CountReads(n: uint64, rest: seq<byte>)
    ensures ReadCount(VarInt(n) + rest) == Some((n, rest))
  {
    VarIntRoundTrip(n, rest);
    Taken(VarInt(n), rest);
  }

  lemma StringReads(s: GoString, rest: seq<byte>)
    ensures ReadString(VarInt(|s|) + (s + rest)) == Some((s, rest))
    ensures ReadString(SerializeString(s) + rest) == Some((s, rest))
  {
    CountReads(|s|, s + rest);
    Taken(s, rest);
    SerializeStringIsPrefixed(s);
    Assoc(VarInt(|s|), s, rest);
  }

  // ---- Inputs and outputs ----

  function ReadIn(b: seq<byte>): Option<(TxIn, seq<byte>)>
  {
    match ReadBytes(b, 32)
    case None => None
    case Some((prevHash, b1)) =>
      match ReadNumber(b1, 4)
      case None => None
      case Some((prevIndex, b2)) =>
        match ReadString(b2)
        case None => None
        case Some((script, b3)) =>
          match ReadNumber(b3, 4)
          case None => None
          case Some((sequence, b4)) =>
            if prevIndex >= 0x1_0000_0000 || sequence >= 0x1_0000_0000 then None
            else Some((TxIn(prevHash, prevIndex, script, sequence, []), b4))
  }

  function ReadIns(b: seq<byte>, count: nat): Option<(seq<TxIn>, seq<byte>)>
    decreases count
  {
    if count == 0 then Some(([], b))
    else
      match ReadIn(b)
      case None => None
      case Some((first, behind)) =>
        match ReadIns(behind, count - 1)
        case None => None
        case Some((others, end)) => Some(([first] + others, end))
  }

  function ReadOuts(b: seq<byte>, count: nat): Option<(seq<TxOut>, seq<byte>)>
    decreases count
  {
    if count == 0 then Some(([], b))
    else
      match ReadOut(b)
      case None => None
      case Some((first, behind)) =>
        match ReadOuts(behind, count - 1)
        case None => None
        case Some((others, end)) => Some(([first] + others, end))
  }

  /** The value in front, then the script. */
  function ReadOut(b: seq<byte>): Option<(TxOut, seq<byte>)>
  {
    match ReadNumber(b, 8)
    case None => None
    case Some((value, behind)) =>
      match ReadString(behind)
      case None => None
      case Some((pkScript, end)) =>
        if value >= 0x1_0000_0000_0000_0000 then None else Some((TxOut(value, pkScript), end))
  }

  /** An input or all inputs without their witnesses. */
  function BareIn(i: TxIn): TxIn
  {
    i.(stack := [])
  }

  function Bare(ins: seq<TxIn>): (r: seq<TxIn>)
    ensures |r| == |ins|
    ensures forall i :: 0 <= i < |ins| ==> r[i] == BareIn(ins[i])
  {
    if ins == [] then [] else [BareIn(ins[0])] + Bare(ins[1..])
  }

  lemma InReads(i: TxIn, rest: seq<byte>)
    requires |i.prevHash| == 32 && |i.script| < LIMIT
    ensures ReadIn(SerializeIn(i) + rest) == Some((BareIn(i), rest))
  {
    PowersOf256();
    var sequence := LE(i.sequence, 4) + rest;
    var script := VarInt(|i.script|) + (i.script + sequence);
    var index := LE(i.prevIndex, 4) + script;
    InNested(i.prevHash, LE(i.prevIndex, 4), VarInt(|i.script|), i.script, LE(i.sequence, 4), rest);
    BytesRead(i.prevHash, index);
    NumberReads(i.prevIndex, 4, script);
    StringReads(i.script, sequence);
    NumberReads(i.sequence, 4, rest);
  }

  lemma InNested<T>(a: seq<T>, b: seq<T>, c: seq<T>, d: seq<T>, e: seq<T>, rest: seq<T>)
    ensures (a + b + c + d + e) + rest == a + (b + (c + (d + (e + rest))))
  {
    Assoc(a + b + c + d, e, rest);
    Assoc(a + b + c, d, e + rest);
    Assoc(a + b, c, d + (e + rest));
    Assoc(a, b, c + (d + (e + rest)));
  }

  lemma NextInReads(i: TxIn, b: seq<byte>, count: nat, others: seq<TxIn>, rest: seq<byte>)
    requires |i.prevHash| == 32 && |i.script| < LIMIT && ReadIns(b, count) == Some((others, rest))
    ensures ReadIns(SerializeIn(i) + b, count + 1) == Some(([BareIn(i)] + others, rest))
  {
    InReads(i, b);
  }

  lemma {:induction false} InsRead(ins: seq<TxIn>, rest: seq<byte>)
    requires forall i :: 0 <= i < |ins| ==> |ins[i].prevHash| == 32 && |ins[i].script| < LIMIT
    ensures ReadIns(SerializeIns(ins) + rest, |ins|) == Some((Bare(ins), rest))
    decreases |ins|
  {
    if ins == [] {
      assert SerializeIns(ins) + rest == rest;
    } else {
      var others := ins[1..];
      InsRead(others, rest);
      NextInReads(ins[0], SerializeIns(others) + rest, |others|, Bare(others), rest);
      Assoc(SerializeIn(ins[0]), SerializeIns(others), rest);
    }
  }

  lemma OutReads(o: TxOut, rest: seq<byte>)
    ensures ReadOut(SerializeOut(o) + rest) == Some((o, rest))
  {
    PowersOf256();
    NumberReads(o.value, 8, SerializeString(o.pkScript) + rest);
    StringReads(o.pkScript, rest);
    Assoc(LE(o.value, 8), SerializeString(o.pkScript), rest);
  }

  lemma NextOutReads(o: TxOut, b: seq<byte>, count: nat, others: seq<TxOut>, rest: seq<byte>)
    requires ReadOuts(b, count) == Some((others, rest))
    ensures ReadOuts(SerializeOut(o) + b, count + 1) == Some(([o] + others, rest))
  {
    OutReads(o, b);
  }

  lemma {:induction false} OutsRead(outs: seq<TxOut>, rest: seq<byte>)
    ensures ReadOuts(SerializeOuts(outs) + rest, |outs|) == Some((outs, rest))
    decreases |outs|
  {
    if outs == [] {
      assert SerializeOuts(outs) + rest == rest;
    } else {
      var others := outs[1..];
      OutsRead(others, rest);
      NextOutReads(outs[0], SerializeOuts(others) + rest, |others|, others, rest);
      Assoc(SerializeOut(outs[0]), SerializeOuts(others), rest);
      assert [outs[0]] + others == outs;
    }
  }

  // ---- Witnesses ----

  function ReadStrings(b: seq<byte>, count: nat): Option<(seq<GoString>, seq<byte>)>
    decreases count
  {
    if count == 0 then Some(([], b))
    else
      match ReadString(b)
      case None => None
      case Some((first, behind)) =>
        match ReadStrings(behind, count - 1)
        case None => None
        case Some((others, end)) => Some(([first] + others, end))
  }

  function ReadStack(b: seq<byte>): Option<(seq<GoString>, seq<byte>)>
  {
    match ReadCount(b)
    case None => None
    case Some((count, behind)) => ReadStrings(behind, count)
  }

  /** One stack for each of the inputs, in their order. */
  function ReadStacks(b: seq<byte>, bare: seq<TxIn>): Option<(seq<TxIn>, seq<byte>)>
    decreases |bare|
  {
    if bare == [] then Some(([], b))
    else
      match ReadStack(b)
      case None => None
      case Some((stack, behind)) =>
        match ReadStacks(behind, bare[1..])
        case None => None
        case Some((others, end)) => Some(([bare[0].(stack := stack)] + others, end))
  }

  lemma NextStringReads(s: GoString, b: seq<byte>, count: nat, others: seq<GoString>, rest: seq<byte>)
    requires ReadStrings(b, count) == Some((others, rest))
    ensures ReadStrings(SerializeString(s) + b, count + 1) == Some(([s] + others, rest))
  {
    StringReads(s, b);
  }

  lemma {:induction false} StringsRead(list: seq<GoString>, rest: seq<byte>)
    ensures ReadStrings(SerializeStrings(list) + rest, |list|) == Some((list, rest))
    decreases |list|
  {
    if list == [] {
      assert SerializeStrings(list) + rest == rest;
    } else {
      var s, others := list[0], list[1..];
      StringsRead(others, rest);
      NextStringReads(s, SerializeStrings(others) + rest, |others|, others, rest);
      Assoc(SerializeString(s), SerializeStrings(others), rest);
      assert [s] + others == list;
    }
  }

  lemma StackReads(stack: seq<GoString>, rest: seq<byte>)
    requires |stack| < LIMIT
    ensures ReadStack(VarInt(|stack|) + (SerializeStrings(stack) + rest)) == Some((stack, rest))
  {
    CountReads(|stack|, SerializeStrings(stack) + rest);
    StringsRead(stack, rest);
  }

  lemma {:induction false} StacksRead(ins: seq<TxIn>, rest: seq<byte>)
    requires forall i :: 0 <= i < |ins| ==> |ins[i].stack| < LIMIT
    ensures ReadStacks(SerializeWitnesses(ins) + rest, Bare(ins)) == Some((ins, rest))
    decreases |ins|
  {
    if ins == [] {
      assert SerializeWitnesses(ins) + rest == rest;
    } else {
      var count, stack, more := VarInt(|ins[0].stack|), SerializeStrings(ins[0].stack), SerializeWitnesses(ins[1..]);
      Assoc(count + stack, more, rest);
      Assoc(count, stack, more + rest);
      StackReads(ins[0].stack, more + rest);
      StacksRead(ins[1..], rest);
      assert Bare(ins)[1..] == Bare(ins[1..]);
      assert [ins[0]] + ins[1..] == ins;
    }
  }

  // ---- The transaction ----

  /** Section "Transaction ID" of BIP 141: a zero where the input count stands is the marker, and 1 the flag. */
  function ReadMarker(b: seq<byte>): Option<(bool, seq<byte>)>
  {
    if b == [] then None
    else if b[0] != 0 then Some((false, b))
    else if |b| >= 2 && b[1] == 1 then Some((true, b[2..]))
    else None
  }

  function ReadTx(b: seq<byte>): Option<(Tx, seq<byte>)>
  {
    match ReadNumber(b, 4)
    case None => None
    case Some((version, b1)) =>
      match ReadMarker(b1)
      case None => None
      case Some((marked, b2)) =>
        match ReadInputs(b2)
        case None => None
        case Some((ins, b3)) =>
          match ReadOutputs(b3)
          case None => None
          case Some((outs, b4)) =>
            match if marked then ReadStacks(b4, ins) else Some((ins, b4))
            case None => None
            case Some((filled, b5)) =>
              match ReadNumber(b5, 4)
              case None => None
              case Some((lockTime, b6)) =>
                if version >= 0x1_0000_0000 || lockTime >= 0x1_0000_0000 then None
                else Some((Tx(version, filled, outs, lockTime), b6))
  }

  function ReadInputs(b: seq<byte>): Option<(seq<TxIn>, seq<byte>)>
  {
    match ReadCount(b)
    case None => None
    case Some((count, behind)) => ReadIns(behind, count)
  }

  function ReadOutputs(b: seq<byte>): Option<(seq<TxOut>, seq<byte>)>
  {
    match ReadCount(b)
    case None => None
    case Some((count, behind)) => ReadOuts(behind, count)
  }

  lemma MarkerReads(marked: bool, count: uint64, rest: seq<byte>)
    requires 1 <= count < 0xFD
    ensures ReadMarker((if marked then [0x00, 0x01] else []) + (VarInt(count) + rest)) == Some((marked, VarInt(count) + rest))
  {
    var behind := VarInt(count) + rest;
    assert behind[0] == count;
    if marked {
      Taken([0x00, 0x01], behind);
    } else {
      assert [] + behind == behind;
    }
  }

  lemma TxNested<T>(v: seq<T>, m: seq<T>, c: seq<T>, i: seq<T>, d: seq<T>, o: seq<T>, w: seq<T>, k: seq<T>, rest: seq<T>)
    ensures (v + m + c + i + d + o + w + k) + rest == v + (m + (c + (i + (d + (o + (w + (k + rest)))))))
  {
    Assoc(v + m + c + i + d + o + w, k, rest);
    Assoc(v + m + c + i + d + o, w, k + rest);
    Assoc(v + m + c + i + d, o, w + (k + rest));
    Assoc(v + m + c + i, d, o + (w + (k + rest)));
    Assoc(v + m + c, i, d + (o + (w + (k + rest))));
    Assoc(v + m, c, i + (d + (o + (w + (k + rest)))));
    Assoc(v, m, c + (i + (d + (o + (w + (k + rest))))));
  }

  lemma InputsRead(ins: seq<TxIn>, rest: seq<byte>)
    requires |ins| < LIMIT && forall i :: 0 <= i < |ins| ==> |ins[i].prevHash| == 32 && |ins[i].script| < LIMIT
    ensures ReadInputs(VarInt(|ins|) + (SerializeIns(ins) + rest)) == Some((Bare(ins), rest))
  {
    CountReads(|ins|, SerializeIns(ins) + rest);
    InsRead(ins, rest);
  }

  lemma OutputsRead(outs: seq<TxOut>, rest: seq<byte>)
    requires |outs| < LIMIT
    ensures ReadOutputs(VarInt(|outs|) + (SerializeOuts(outs) + rest)) == Some((outs, rest))
  {
    CountReads(|outs|, SerializeOuts(outs) + rest);
    OutsRead(outs, rest);
  }

  /** Either form is read back, the one without witnesses as the transaction without them, whatever follows. */
  lemma EncodingReads(tx: Tx, withWitness: bool, rest: seq<byte>)
    requires tx.Valid()
    ensures ReadTx(Encode(tx, withWitness) + rest)
         == Some((if withWitness then tx else tx.(ins := Bare(tx.ins)), rest))
  {
    PowersOf256();
    var marker := if withWitness then [0x00, 0x01] else [];
    var stacks := if withWitness then SerializeWitnesses(tx.ins) else [];
    var k := LE(tx.lockTime, 4) + rest;
    var w := stacks + k;
    var o := VarInt(|tx.outs|) + (SerializeOuts(tx.outs) + w);
    var i := VarInt(|tx.ins|) + (SerializeIns(tx.ins) + o);
    TxNested(LE(tx.version, 4), marker, VarInt(|tx.ins|), SerializeIns(tx.ins),
             VarInt(|tx.outs|), SerializeOuts(tx.outs), stacks, LE(tx.lockTime, 4), rest);
    assert Encode(tx, withWitness) + rest == LE(tx.version, 4) + (marker + i);
    NumberReads(tx.version, 4, marker + i);
    MarkerReads(withWitness, |tx.ins|, SerializeIns(tx.ins) + o);
    InputsRead(tx.ins, o);
    OutputsRead(tx.outs, w);
    if withWitness {
      StacksRead(tx.ins, k);
    } else {
      assert w == k;
    }
    NumberReads(tx.lockTime, 4, rest);
  }

  /** Every transaction comes back from its wire form, with or without witnesses, and the reader stops behind it. */
  lemma TxRoundTrip(tx: Tx, rest: seq<byte>)
    requires tx.Valid()
    ensures ReadTx(Serialize(tx) + rest) == Some((tx, rest))
  {
    EncodingReads(tx, tx.HasWitness(), rest);
    if !tx.HasWitness() {
      assert forall i :: 0 <= i < |tx.ins| ==> BareIn(tx.ins[i]) == tx.ins[i];
      assert Bare(tx.ins) == tx.ins;
    }
  }

  /** So different transactions have different wire forms, and none is a prefix of another. */
  lemma TxPrefixFree(tx: Tx, other: Tx, afterTx: seq<byte>, afterOther: seq<byte>)
    requires tx.Valid() && other.Valid()
    requires Serialize(tx) + afterTx == Serialize(other) + afterOther
    ensures tx == other && afterTx == afterOther
  {
    TxRoundTrip(tx, afterTx);
    TxRoundTrip(other, afterOther);
  }
}
