/** Variable-length integers and length-prefixed strings of the Bitcoin wire format. */
module WireFormat {
  import opened Bytes

  /** The encoding as a value: one byte, or a marker byte and 2, 4 or 8 little-endian bytes. */
  function VarInt(n: uint64): (b: seq<byte>)
    ensures 1 <= |b| <= 9
  {
    if n < 0xFD then [n]
    else if n <= 0xFFFF then [0xFD] + LE(n, 2)
    else if n <= 0xFFFF_FFFF then [0xFE] + LE(n, 4)
    else [0xFF] + LE(n, 8)
  }

  /** A reader of that format which refuses a form longer than needed: the value and the bytes used. */
  function ParseVarInt(b: seq<byte>): (r: Option<(uint64, nat)>)
    ensures r.Some? ==> 1 <= r.value.1 <= |b|
  {
    if b == [] then None
    else if b[0] < 0xFD then Some((b[0], 1))
    else if b[0] == 0xFD then ParseWide(b, 2, 0xFD)
    else if b[0] == 0xFE then ParseWide(b, 4, 0x1_0000)
    else ParseWide(b, 8, 0x1_0000_0000)
  }

  function ParseWide(b: seq<byte>, width: nat, least: nat): (r: Option<(uint64, nat)>)
    requires 0 < width <= 8
    ensures r.Some? ==> r.value.1 == 1 + width <= |b|
  {
    if |b| < 1 + width then None
    else
      FromLERoundTrip(b[1..1 + width]);
      PowersOf256();
      PowMonotonic(width, 8);
      var v := FromLE(b[1..1 + width]);
      if v < least then None else Some((v, 1 + width))
  }

  lemma PowersOf256()
    ensures Pow256(1) == 0x100 && Pow256(2) == 0x1_0000 && Pow256(4) == 0x1_0000_0000
    ensures Pow256(7) == 0x100_0000_0000_0000 && Pow256(8) == 0x1_0000_0000_0000_0000
  {
    assert Pow256(3) == 0x100_0000;
    assert Pow256(5) == 0x100_0000_0000;
    assert Pow256(6) == 0x1_0000_0000_0000;
  }

  lemma {:induction false} PowMonotonic(j: nat, k: nat)
    requires j <= k
    ensures Pow256(j) <= Pow256(k)
    decreases k - j
  {
    if j < k {
      PowMonotonic(j + 1, k);
    }
  }

  /** Writes the encoding into a fresh buffer, as the source does. */
  method VarIntBytes(n: uint64) returns (r: array<byte>)
    ensures fresh(r)
    ensures r[..] == VarInt(n)
  {
    if n < 0xFD {
      r := new byte[1][n];
      return;
    }
    if n <= 0xFFFF {
      r := new byte[3](_ => 0);
      r[0] := 0xFD;
      PutLE(r, 1, 2, n);
      assert r[..] == [0xFD] + LE(n, 2);
      return;
    }
    if n <= 0xFFFF_FFFF {
      r := new byte[5](_ => 0);
      r[0] := 0xFE;
      PutLE(r, 1, 4, n);
      assert r[..] == [0xFE] + LE(n, 4);
      return;
    }
    r := new byte[9](_ => 0);
    r[0] := 0xFF;
    PutLE(r, 1, 8, n);
    assert r[..] == [0xFF] + LE(n, 8);
  }

  /** Whatever follows an encoding, the reader gets the number back and stops right behind it. */
  lemma VarIntRoundTrip(n: uint64, rest: seq<byte>)
    ensures ParseVarInt(VarInt(n) + rest) == Some((n, |VarInt(n)|))
  {
    PowersOf256();
    var b := VarInt(n) + rest;
    if n < 0xFD {
    } else if n <= 0xFFFF {
      assert b[1..3] == LE(n, 2);
      LERoundTrip(n, 2);
    } else if n <= 0xFFFF_FFFF {
      assert b[1..5] == LE(n, 4);
      LERoundTrip(n, 4);
    } else {
      assert b[1..9] == LE(n, 8);
      LERoundTrip(n, 8);
    }
  }

  /** The reader accepts no other form of a number than the one VarInt gives it. */
  lemma VarIntCanonical(b: seq<byte>)
    requires ParseVarInt(b).Some?
    ensures var (n, used) := ParseVarInt(b).value; b[..used] == VarInt(n)
  {
    PowersOf256();
    if b[0] >= 0xFD {
      var width := if b[0] == 0xFD then 2 else if b[0] == 0xFE then 4 else 8;
      FromLERoundTrip(b[1..1 + width]);
      assert b[..1 + width] == [b[0]] + b[1..1 + width];
    }
  }

  /** No encoding is a prefix of another one: equal streams start with equal numbers. */
  lemma VarIntPrefixFree(m: uint64, n: uint64, afterM: seq<byte>, afterN: seq<byte>)
    requires VarInt(m) + afterM == VarInt(n) + afterN
    ensures m == n && afterM == afterN
  {
    VarIntRoundTrip(m, afterM);
    VarIntRoundTrip(n, afterN);
    assert (VarInt(m) + afterM)[|VarInt(m)|..] == afterM;
    assert (VarInt(n) + afterN)[|VarInt(n)|..] == afterN;
  }

  /** Go's `len` is a signed 64-bit number. */
  type GoString = s: seq<byte> | |s| < 0x8000_0000_0000_0000

  /** The four size classes written out as in the source; the casts cut the length to the field. */
  function SerializeString(s: GoString): (b: seq<byte>)
  {
    if |s| < 253 then [|s| % 256] + s
    else if |s| < 0x10000 then [253] + LE(|s| % 0x1_0000, 2) + s
    else if |s| < 0x100000000 then [254] + LE(|s| % 0x1_0000_0000, 4) + s
    else [255] + LE(|s|, 8) + s
  }

  /** The two serializers agree: a string is the VarInt of its length and its bytes. */
  lemma SerializeStringIsPrefixed(s: GoString)
    ensures SerializeString(s) == VarInt(|s|) + s
  {
    if |s| < 253 {
      assert VarInt(|s|) == [|s| % 256];
    } else if |s| < 0x10000 {
      assert VarInt(|s|) == [253] + LE(|s| % 0x1_0000, 2);
    } else if |s| < 0x100000000 {
      assert VarInt(|s|) == [254] + LE(|s| % 0x1_0000_0000, 4);
    } else {
      assert VarInt(|s|) == [255] + LE(|s|, 8);
    }
  }

  function SerializeStrings(list: seq<GoString>): seq<byte>
  {
    if list == [] then [] else SerializeString(list[0]) + SerializeStrings(list[1..])
  }

  /** Reads strings until the input is used up. */
  function ParseStrings(b: seq<byte>): Option<seq<GoString>>
    decreases |b|
  {
    if b == [] then Some([])
    else
      var head := ParseVarInt(b);
      if head.None? then None
      else
        var (size, used) := head.value;
        if size >= 0x8000_0000_0000_0000 || |b| < used + size then None
        else
          var tail := ParseStrings(b[used + size..]);
          if tail.None? then None else Some([b[used..used + size]] + tail.value)
  }

  /** Any list of strings comes back from the concatenation of its serializations. */
  lemma {:induction false} StringsRoundTrip(list: seq<GoString>)
    ensures ParseStrings(SerializeStrings(list)) == Some(list)
  {
    if list != [] {
      var s, tail := list[0], SerializeStrings(list[1..]);
      var b := SerializeStrings(list);
      var head := VarInt(|s|);
      SerializeStringIsPrefixed(s);
      assert b == head + (s + tail);
      VarIntRoundTrip(|s|, s + tail);
      assert b[|head|..|head| + |s|] == s;
      assert b[|head| + |s|..] == tail;
      StringsRoundTrip(list[1..]);
      assert [list[0]] + list[1..] == list;
    }
  }

  /** And every input the reader accepts is such a concatenation. */
  lemma {:induction false} StringsCanonical(b: seq<byte>)
    requires ParseStrings(b).Some?
    ensures SerializeStrings(ParseStrings(b).value) == b
    decreases |b|
  {
    if b != [] {
      var (size, used) := ParseVarInt(b).value;
      var s: GoString := b[used..used + size];
      var rest := b[used + size..];
      var tail := ParseStrings(rest).value;
      StringsCanonical(rest);
      VarIntCanonical(b);
      SerializeStringIsPrefixed(s);
      SerializeCons(s, tail);
      CutTwice(b, used, used + size);
    }
  }

  lemma CutTwice<T>(b: seq<T>, i: nat, j: nat)
    requires i <= j <= |b|
    ensures b == b[..i] + b[i..j] + b[j..]
  {
  }

  lemma SerializeCons(s: GoString, list: seq<GoString>)
    ensures SerializeStrings([s] + list) == SerializeString(s) + SerializeStrings(list)
  {
    assert ([s] + list)[1..] == list;
  }
}
