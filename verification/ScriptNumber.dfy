/** Block heights as script numbers: the serializer, its decoder, and the canonical script pushes. */
module ScriptNumber {
  import opened Bytes
  import WireFormat

  /** The height bound: numbers of at most 63 bits. */
  const LIMIT := 0x8000_0000_0000_0000

  /** Little-endian bytes of `n`, with as many bytes as it takes to leave the top bit clear. */
  function SignedLE(n: nat): (b: seq<byte>)
    ensures b != [] && b[|b| - 1] < 0x80
  {
    if n <= 0x7f then [n] else [n % 256] + SignedLE(n / 256)
  }

  /** A small number is one opcode; any other one is a length byte and its payload. */
  function NumberItem(n: nat): (b: seq<byte>)
    requires n < LIMIT
    ensures b != []
  {
    if 1 <= n <= 16 then [0x50 + n]
    else
      SignedLELength(n, 8);
      [|SignedLE(n)|] + SignedLE(n)
  }

  /** `k` bytes suffice exactly for the numbers with at most 8k - 1 bits. */
  lemma {:induction false} SignedLELength(n: nat, k: nat)
    requires 1 <= k
    ensures |SignedLE(n)| <= k <==> n < 128 * Pow256(k - 1)
    ensures n < LIMIT <==> |SignedLE(n)| <= 8
    ensures n < 256 * LIMIT <==> |SignedLE(n)| <= 9
  {
    SignedLESize(n, k);
    SignedLESize(n, 8);
    SignedLESize(n, 9);
    WireFormat.PowersOf256();
  }

  lemma {:induction false} SignedLESize(n: nat, k: nat)
    requires 1 <= k
    ensures |SignedLE(n)| <= k <==> n < 128 * Pow256(k - 1)
  {
    if k > 1 {
      assert Pow256(k - 1) == 256 * Pow256(k - 2);
      if n > 0x7f {
        SignedLESize(n / 256, k - 1);
      }
    }
  }

  lemma {:induction false} SignedLEValue(n: nat)
    ensures FromLE(SignedLE(n)) == n
  {
    if n > 0x7f {
      SignedLEValue(n / 256);
      assert SignedLE(n)[1..] == SignedLE(n / 256);
    } else {
      assert FromLE([n]) == n + 256 * FromLE([]);
    }
  }

  /**
   * The source's serializer over its nine-byte buffer. The store behind the loop is out of bounds
   * when `n` has 64 bits; that panic is the None result.
   */
  method SerializeNumber(n: uint64) returns (r: Option<seq<byte>>)
    ensures r == if n < LIMIT then Some(NumberItem(n)) else None
  {
    if 1 <= n <= 16 {
      return Some([0x50 + n]);
    }
    BufferSuffices(n);
    var l := 1;
    var buff := new byte[9];
    var rest: nat := n;
    while rest > 0x7f
      invariant Emitted(buff[..], l, rest, n)
    {
      ghost var was: seq<byte> := buff[..];
      EmitStep(was, l, rest, n);
      buff[l] := rest % 256;
      assert buff[..] == was[l := rest % 256];
      l := l + 1;
      rest := rest / 256;
    }
    EmitEnd(buff[..], l, rest, n);
    if l >= buff.Length {
      return None;
    }
    ghost var was: seq<byte> := buff[..];
    buff[0] := l;
    buff[l] := rest;
    assert buff[..] == was[0 := l][l := rest];
    r := Some(buff[0..l + 1]);
  }

  lemma BufferSuffices(n: uint64)
    ensures |SignedLE(n)| <= 9
    ensures n < LIMIT <==> |SignedLE(n)| <= 8
  {
    SignedLELength(n, 8);
  }

  /** The buffer holds the payload of `n` up to `l`, and `rest` is what is left of `n`. */
  ghost predicate Emitted(buff: seq<byte>, l: nat, rest: nat, n: nat)
  {
    1 <= l <= |buff| == 9 && |SignedLE(n)| <= 9 && buff[1..l] + SignedLE(rest) == SignedLE(n)
  }

  lemma EmitStep(buff: seq<byte>, l: nat, rest: nat, n: nat)
    requires Emitted(buff, l, rest, n) && rest > 0x7f
    ensures l < 9 && Emitted(buff[l := rest % 256], l + 1, rest / 256, n)
  {
    var done, low, more := buff[1..l], [rest % 256], SignedLE(rest / 256);
    assert SignedLE(rest) == low + more;
    assert buff[l := rest % 256][1..l + 1] == done + low;
    Assoc(done, low, more);
  }

  lemma EmitEnd(buff: seq<byte>, l: nat, rest: nat, n: nat)
    requires Emitted(buff, l, rest, n) && rest <= 0x7f
    ensures |SignedLE(n)| == l
    ensures l < 9 ==> buff[0 := l][l := rest][0..l + 1] == [l] + SignedLE(n)
  {
    assert l < 9 ==> buff[0 := l][l := rest][0..l + 1] == [l] + (buff[1..l] + [rest]);
  }

  /** Reads one item off the front of a script: the number and the bytes used. */
  function DecodeNumber(b: seq<byte>): (r: Option<(nat, nat)>)
  {
    if b == [] then None
    else if 0x51 <= b[0] <= 0x60 then Some((b[0] - 0x50, 1))
    else if 1 <= b[0] <= 8 && 1 + b[0] <= |b| then Some((FromLE(b[1..1 + b[0]]), 1 + b[0]))
    else None
  }

  lemma NumberRoundTrip(n: nat, rest: seq<byte>)
    requires n < LIMIT
    ensures DecodeNumber(NumberItem(n) + rest) == Some((n, |NumberItem(n)|))
  {
    if !(1 <= n <= 16) {
      SignedLELength(n, 8);
      SignedLEValue(n);
      assert (NumberItem(n) + rest)[1..1 + |SignedLE(n)|] == SignedLE(n);
    }
  }

  lemma NumberPrefixFree(m: nat, n: nat, afterM: seq<byte>, afterN: seq<byte>)
    requires m < LIMIT && n < LIMIT
    requires NumberItem(m) + afterM == NumberItem(n) + afterN
    ensures m == n && afterM == afterN
  {
    NumberRoundTrip(m, afterM);
    NumberRoundTrip(n, afterN);
    assert (NumberItem(m) + afterM)[|NumberItem(m)|..] == afterM;
    assert (NumberItem(n) + afterN)[|NumberItem(n)|..] == afterN;
  }

  /** The payload is the only shortest one: any byte string with a clear sign bit and the same value is longer. */
  lemma {:induction false} SignedLEShortest(n: nat, p: seq<byte>)
    requires p != [] && p[|p| - 1] < 0x80 && FromLE(p) == n
    ensures |SignedLE(n)| <= |p|
    ensures |SignedLE(n)| == |p| ==> SignedLE(n) == p
  {
    if |p| == 1 {
      assert FromLE(p) == p[0] + 256 * FromLE(p[1..]);
    } else {
      assert n % 256 == p[0] && n / 256 == FromLE(p[1..]);
      SignedLEShortest(n / 256, p[1..]);
      assert p == [p[0]] + p[1..];
    }
  }

  /** The bytes of `n` with no leading zero byte at the top end. */
  function MinimalLE(n: nat): (b: seq<byte>)
    ensures n > 0 ==> b != []
  {
    if n == 0 then [] else [n % 256] + MinimalLE(n / 256)
  }

  /** The script engine's number format for non-negative numbers: zero is empty, a set top bit is masked by a zero byte. */
  function ScriptNumBytes(n: nat): seq<byte>
  {
    var b := MinimalLE(n);
    if n > 0 && b[|b| - 1] >= 0x80 then b + [0] else b
  }

  lemma {:induction false} ScriptNumIsSignedLE(n: nat)
    requires n > 0
    ensures ScriptNumBytes(n) == SignedLE(n)
  {
    if n > 0xff {
      var top := MinimalLE(n / 256);
      ScriptNumIsSignedLE(n / 256);
      assert MinimalLE(n) == [n % 256] + top;
      assert MinimalLE(n)[|top|] == top[|top| - 1];
      assert [n % 256] + (top + [0]) == ([n % 256] + top) + [0];
    } else {
      assert MinimalLE(n / 256) == [];
      assert MinimalLE(n) == [n % 256];
      if n > 0x7f {
        assert SignedLE(n) == [n % 256] + SignedLE(0);
      }
    }
  }

  /** The size of the push of `k` bytes of data; a single byte may take one less. */
  function DataSize(k: nat): nat
  {
    if k <= 75 then k + 1 else if k <= 255 then k + 2 else k + 3
  }

  /** The size of the push of a number below 2^63. */
  function NumberSize(n: nat): nat
  {
    if n <= 16 then 1
    else if n < 0x80 then 2
    else if n < 0x8000 then 3
    else if n < 0x80_0000 then 4
    else if n < 0x8000_0000 then 5
    else if n < 0x80_0000_0000 then 6
    else if n < 0x8000_0000_0000 then 7
    else if n < 0x80_0000_0000_0000 then 8
    else 9
  }

  /** The canonical push of a data item of at most 520 bytes. */
  function PushData(d: seq<byte>): (b: seq<byte>)
    requires |d| <= 520
    ensures b != []
    ensures |b| <= DataSize(|d|)
    ensures |d| != 1 ==> |b| == DataSize(|d|)
  {
    if d == [] || d == [0] then [0]
    else if |d| == 1 && d[0] <= 16 then [0x50 + d[0]]
    else if d == [0x81] then [0x4f]
    else if |d| <= 75 then [|d|] + d
    else if |d| <= 255 then [0x4c, |d|] + d
    else [0x4d] + LE(|d|, 2) + d
  }

  lemma ScriptNumSize(n: nat)
    requires 16 < n < LIMIT
    ensures |ScriptNumBytes(n)| == NumberSize(n) - 1
    ensures |ScriptNumBytes(n)| == 1 ==> ScriptNumBytes(n) == [n] && n < 0x80
  {
    ScriptNumIsSignedLE(n);
    WireFormat.PowersOf256();
    var k := NumberSize(n) - 1;
    SignedLESize(n, k);
    if k > 1 {
      SignedLESize(n, k - 1);
    }
  }

  /** The canonical push of a non-negative number below 2^63. */
  function PushInt(n: nat): (b: seq<byte>)
    requires n < LIMIT
    ensures |b| == NumberSize(n)
  {
    if n == 0 then [0]
    else if n <= 16 then [0x50 + n]
    else
      ScriptNumSize(n);
      PushData(ScriptNumBytes(n))
  }

  /**
   * The serializer writes the script builder's push for every height but zero, where it writes a
   * one-byte payload instead of the empty push.
   */
  lemma SerializerIsCanonicalPush(n: nat)
    requires n < LIMIT
    ensures NumberItem(n) == PushInt(n) <==> n != 0
  {
    if n == 0 {
      assert NumberItem(0) == [1] + [0];
    } else if n > 16 {
      ScriptNumIsSignedLE(n);
      SignedLELength(n, 8);
      SignedLEValue(n);
      assert |SignedLE(n)| == 1 ==> SignedLE(n)[0] == n;
    }
  }
}
