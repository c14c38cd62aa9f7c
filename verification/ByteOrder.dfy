/** Byte and word reversal, and the fixed-width packers. */
module ByteOrder {
  import opened Bytes
  import WireFormat

  /** The bytes of each of the first `k` 4-byte words reversed, the rest kept. */
  function WordsFlipped(b: seq<byte>, k: nat): (r: seq<byte>)
    requires |b| >= 4 * k
    ensures |r| == |b|
    decreases |b|
  {
    if k == 0 then b else Reversed(b[..4]) + WordsFlipped(b[4..], k - 1)
  }

  /** The first and the last `i` bytes have changed places, the others stand where they were. */
  ghost predicate EndsSwapped(s: seq<byte>, was: seq<byte>, i: nat)
  {
    && |s| == |was|
    && (forall k :: 0 <= k < |s| && (k < i || k >= |s| - i) ==> s[k] == was[|s| - 1 - k])
    && (forall k :: i <= k < |s| - i ==> s[k] == was[k])
  }

  lemma SwapEnds(s: seq<byte>, was: seq<byte>, i: nat, j: nat)
    requires EndsSwapped(s, was, i) && i < j == |s| - 1 - i
    ensures EndsSwapped(s[i := s[j]][j := s[i]], was, i + 1)
  {
  }

  lemma EndsMeet(s: seq<byte>, was: seq<byte>, i: nat)
    requires EndsSwapped(s, was, i) && |s| - 1 <= 2 * i
    ensures s == Reversed(was)
  {
    forall k | 0 <= k < |s|
      ensures s[k] == was[|s| - 1 - k]
    {
      assert k < i || k >= |s| - i || k == |s| - 1 - k;
    }
  }

  /** Reverses into a fresh copy by swapping from both ends. */
  method ReverseBytes(b: array<byte>) returns (r: array<byte>)
    ensures fresh(r)
    ensures r[..] == Reversed(b[..])
  {
    r := new byte[b.Length](i requires 0 <= i < b.Length reads b => b[i]);
    var i, j := 0, r.Length - 1;
    while i < j
      invariant 0 <= i && j == r.Length - 1 - i && i <= j + 1
      invariant EndsSwapped(r[..], b[..], i)
    {
      ghost var s: seq<byte> := r[..];
      SwapEnds(s, b[..], i, j);
      r[i], r[j] := r[j], r[i];
      assert r[..] == s[i := s[j]][j := s[i]];
      i, j := i + 1, j - 1;
    }
    EndsMeet(r[..], b[..], i);
  }

  /** Eight words flipped in a copy, then the copy reversed; None is the panic on fewer than 32 bytes. */
  method ReverseByteOrder(b: array<byte>) returns (r: Option<array<byte>>)
    ensures r.Some? <==> b.Length >= 32
    ensures r.Some? ==> fresh(r.value) && r.value[..] == OrderReversed(b[..])
  {
    var c := new byte[b.Length](i requires 0 <= i < b.Length reads b => b[i]);
    if c.Length < 32 {
      return None;
    }
    ghost var was := c[..];
    assert was == b[..];
    var i := 0;
    ghost var words := 8;
    while i < 8
      invariant 0 <= i <= 8 && words == 8
      invariant FlippedUpTo(c[..], was, i, words)
    {
      ghost var before := c[..];
      FlipWord(c, 4 * i);
      FlipStep(before, was, i, words);
      i := i + 1;
    }
    assert c[..] == c[..32] + WordsFlipped(was[32..], 0);
    var reversed := ReverseBytes(c);
    r := Some(reversed);
  }

  /** `c` is `was` with the first `i` of its first `k` words flipped. */
  ghost predicate FlippedUpTo(c: seq<byte>, was: seq<byte>, i: nat, k: nat)
    requires i <= k && |was| >= 4 * k
  {
    |c| == |was| && c[4 * i..] == was[4 * i..] && c[..4 * i] + WordsFlipped(was[4 * i..], k - i) == WordsFlipped(was, k)
  }

  lemma FlipStep(c: seq<byte>, was: seq<byte>, i: nat, k: nat)
    requires i < k && |was| >= 4 * k
    requires FlippedUpTo(c, was, i, k)
    ensures FlippedUpTo(c[..4 * i] + Reversed(c[4 * i..4 * i + 4]) + c[4 * i + 4..], was, i + 1, k)
  {
    var at := 4 * i;
    var done, rest := c[..at], was[at..];
    var flipped := Reversed(rest[..4]);
    assert c[at..at + 4] == c[at..][..4] == rest[..4];
    assert c[at + 4..] == c[at..][4..] == rest[4..];
    assert rest[4..] == was[at + 4..];
    var d := done + flipped + rest[4..];
    assert |d| == |was|;
    assert d[..at + 4] == done + flipped;
    assert d[at + 4..] == rest[4..];
    assert WordsFlipped(rest, k - i) == flipped + WordsFlipped(rest[4..], k - i - 1);
    assert (done + flipped) + WordsFlipped(rest[4..], k - i - 1) == done + WordsFlipped(rest, k - i);
    assert 4 * (i + 1) == at + 4;
  }

  /** LittleEndian.PutUint32 of BigEndian.Uint32 at one place: four bytes read, then stored the other way round. */
  method FlipWord(c: array<byte>, at: nat)
    requires at + 4 <= c.Length
    modifies c
    ensures c[..] == old(c[..at]) + Reversed(old(c[at..at + 4])) + old(c[at + 4..])
  {
    c[at], c[at + 1], c[at + 2], c[at + 3] := c[at + 3], c[at + 2], c[at + 1], c[at];
    assert c[at..at + 4] == Reversed(old(c[at..at + 4]));
    assert c[..] == c[..at] + c[at..at + 4] + c[at + 4..];
  }

  function OrderReversed(b: seq<byte>): (r: seq<byte>)
    requires |b| >= 32
    ensures |r| == |b|
  {
    Reversed(WordsFlipped(b, 8))
  }

  /** The 4-byte words in the opposite order, each kept as it is. */
  function WordsInReverse(b: seq<byte>): (r: seq<byte>)
    requires |b| % 4 == 0
    ensures |r| == |b|
  {
    if b == [] then [] else WordsInReverse(b[4..]) + b[..4]
  }

  lemma ReversedConcat<T>(a: seq<T>, b: seq<T>)
    ensures Reversed(a + b) == Reversed(b) + Reversed(a)
  {
    var r := Reversed(b) + Reversed(a);
    forall i | 0 <= i < |a + b|
      ensures Reversed(a + b)[i] == r[i]
    {
      assert Reversed(a + b)[i] == (a + b)[|a + b| - 1 - i];
    }
  }

  lemma ReversedTwice<T>(a: seq<T>)
    ensures Reversed(Reversed(a)) == a
  {
    forall i | 0 <= i < |a|
      ensures Reversed(Reversed(a))[i] == a[i]
    {
      assert Reversed(Reversed(a))[i] == Reversed(a)[|a| - 1 - i];
    }
  }

  /** Flipping every word and then all bytes reverses the order of the words and keeps their bytes. */
  lemma {:induction false} FlippedThenReversed(b: seq<byte>, k: nat)
    requires |b| == 4 * k
    ensures Reversed(WordsFlipped(b, k)) == WordsInReverse(b)
  {
    if k > 0 {
      ReversedConcat(Reversed(b[..4]), WordsFlipped(b[4..], k - 1));
      ReversedTwice(b[..4]);
      FlippedThenReversed(b[4..], k - 1);
    }
  }

  /** A 32-byte hash keeps its eight words and gets them in the opposite order. */
  lemma WordOrderOfHash(b: seq<byte>)
    requires |b| == 32
    ensures OrderReversed(b) == WordsInReverse(b)
  {
    FlippedThenReversed(b, 8);
  }

  lemma {:induction false} WordsInReverseConcat(a: seq<byte>, b: seq<byte>)
    requires |a| % 4 == 0 && |b| % 4 == 0
    ensures WordsInReverse(a + b) == WordsInReverse(b) + WordsInReverse(a)
  {
    if a == [] {
      assert a + b == b;
    } else {
      assert (a + b)[4..] == a[4..] + b && (a + b)[..4] == a[..4];
      WordsInReverseConcat(a[4..], b);
    }
  }

  lemma OneWord(b: seq<byte>)
    requires |b| == 4
    ensures WordsInReverse(b) == b
  {
    assert b[4..] == [];
    assert WordsInReverse(b) == WordsInReverse([]) + b[..4];
  }

  lemma {:induction false} WordsInReverseTwice(b: seq<byte>)
    requires |b| % 4 == 0
    ensures WordsInReverse(WordsInReverse(b)) == b
  {
    if b != [] {
      WordsInReverseConcat(WordsInReverse(b[4..]), b[..4]);
      WordsInReverseTwice(b[4..]);
      OneWord(b[..4]);
    }
  }

  lemma {:induction false} WordsInReverseOfReversed(b: seq<byte>)
    requires |b| % 4 == 0
    ensures WordsInReverse(Reversed(b)) == Reversed(WordsInReverse(b))
  {
    if b != [] {
      ReversedConcat(b[..4], b[4..]);
      assert b == b[..4] + b[4..];
      WordsInReverseConcat(Reversed(b[4..]), Reversed(b[..4]));
      WordsInReverseOfReversed(b[4..]);
      OneWord(Reversed(b[..4]));
      ReversedConcat(WordsInReverse(b[4..]), b[..4]);
    }
  }

  lemma {:induction false} FlippedEnds(b: seq<byte>, k: nat)
    requires |b| >= 4 * k
    ensures WordsFlipped(b, k)[4 * k..] == b[4 * k..]
    ensures k > 0 ==> WordsFlipped(b, k)[0] == b[3]
  {
    if k > 0 {
      FlippedEnds(b[4..], k - 1);
      var rest := WordsFlipped(b[4..], k - 1);
      assert WordsFlipped(b, k)[4 * k..] == rest[4 * (k - 1)..];
      assert b[4..][4 * (k - 1)..] == b[4 * k..];
    }
  }

  ghost predicate Restored(b: seq<byte>)
    requires |b| >= 32
  {
    OrderReversed(OrderReversed(b)) == b
  }

  ghost predicate AlwaysRestored(n: nat)
    requires n >= 32
  {
    forall b: seq<byte> :: |b| == n ==> Restored(b)
  }

  /**
   * Applying it twice gives the input back, on every input of a length, exactly when that length is 32:
   * the loop always flips eight words, so longer inputs are taken apart.
   */
  lemma SelfInverseOnlyOn32Bytes(n: nat)
    requires n >= 32
    ensures AlwaysRestored(n) <==> n == 32
  {
    if n == 32 {
      AllHashesRestored();
    } else {
      var b := Marked(n);
      LongInputNotRestored(b);
    }
  }

  lemma AllHashesRestored()
    ensures AlwaysRestored(32)
  {
    forall b: seq<byte> | |b| == 32
      ensures Restored(b)
    {
      SelfInverse(b);
    }
  }

  function Marked(n: nat): (b: seq<byte>)
    requires n > 32
    ensures |b| == n && b[0] != b[3]
  {
    seq(n, i => if i == 3 then 1 else 0)
  }

  lemma SelfInverse(b: seq<byte>)
    requires |b| == 32
    ensures OrderReversed(OrderReversed(b)) == b
  {
    WordOrderOfHash(b);
    WordOrderOfHash(OrderReversed(b));
    WordsInReverseTwice(b);
  }

  /** The byte at index 3 of a longer input ends up in front. */
  lemma LongInputNotRestored(b: seq<byte>)
    requires |b| > 32 && b[0] != b[3]
    ensures !Restored(b)
  {
    var n, once := |b|, OrderReversed(b);
    FlippedEnds(b, 8);
    FlippedEnds(once, 8);
    assert once[n - 1] == WordsFlipped(b, 8)[0];
    var flipped := WordsFlipped(once, 8);
    assert flipped[n - 1] == flipped[32..][n - 33] == once[32..][n - 33] == once[n - 1];
    assert OrderReversed(once)[0] == b[3];
  }

  /** On a hash, reversing the bytes before or after makes no difference. */
  lemma CommutesWithReverse(b: seq<byte>)
    requires |b| == 32
    ensures OrderReversed(Reversed(b)) == Reversed(OrderReversed(b))
  {
    WordOrderOfHash(b);
    WordOrderOfHash(Reversed(b));
    WordsInReverseOfReversed(b);
  }

  method PackUint16LE(n: uint16) returns (b: array<byte>)
    ensures fresh(b) && b[..] == LE(n, 2)
  {
    b := new byte[2](_ => 0);
    PutLE(b, 0, 2, n);
    assert b[..] == LE(n, 2);
  }

  method PackUint32LE(n: uint32) returns (b: array<byte>)
    ensures fresh(b) && b[..] == LE(n, 4)
  {
    b := new byte[4](_ => 0);
    PutLE(b, 0, 4, n);
    assert b[..] == LE(n, 4);
  }

  method PackUint64LE(n: uint64) returns (b: array<byte>)
    ensures fresh(b) && b[..] == LE(n, 8)
  {
    b := new byte[8](_ => 0);
    PutLE(b, 0, 8, n);
    assert b[..] == LE(n, 8);
  }

  method PackUint32BE(n: uint32) returns (b: array<byte>)
    ensures fresh(b) && b[..] == BE(n, 4)
  {
    b := new byte[4](_ => 0);
    PutBE32(b, 0, n);
    assert b[..] == BE(n, 4);
  }

  type int32 = x: int | -0x8000_0000 <= x < 0x8000_0000

  /** Go's uint32(n): negative numbers wrap. */
  function ToUint32(n: int32): uint32
  {
    if n < 0 then n + 0x1_0000_0000 else n
  }

  method PackInt32BE(n: int32) returns (b: array<byte>)
    ensures fresh(b) && b[..] == BE(ToUint32(n), 4)
  {
    b := new byte[4](_ => 0);
    PutBE32(b, 0, ToUint32(n));
    assert b[..] == BE(ToUint32(n), 4);
  }

  /** Big-endian two's complement. */
  function UnpackInt32BE(b: seq<byte>): int
  {
    var u := FromLE(Reversed(b));
    if |b| > 0 && b[0] >= 0x80 then u - Pow256(|b|) else u
  }

  lemma PackInt32RoundTrip(n: int32)
    ensures UnpackInt32BE(BE(ToUint32(n), 4)) == n
  {
    var u := ToUint32(n);
    WireFormat.PowersOf256();
    LERoundTrip(u, 4);
    BE32Bytes(u);
    assert Reversed(BE(u, 4)) == LE(u, 4);
  }
}
