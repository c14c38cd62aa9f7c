/** Bytes, the fixed-width integers built from them, and their two byte orders. */
module Bytes {

  type byte = x: int | 0 <= x < 256

  type uint16 = x: int | 0 <= x < 0x1_0000

  type uint32 = x: int | 0 <= x < 0x1_0000_0000

  type uint64 = x: int | 0 <= x < 0x1_0000_0000_0000_0000

  datatype Option<+T> = None | Some(value: T)

  lemma Assoc<T>(a: seq<T>, b: seq<T>, c: seq<T>)
    ensures a + b + c == a + (b + c)
  {
  }

  function Pow256(k: nat): (p: nat)
    ensures p >= 1
  {
    if k == 0 then 1 else 256 * Pow256(k - 1)
  }

  /** The low `k` bytes of `n`, least significant first; higher bytes are cut off, as Go's casts do. */
  function LE(n: nat, k: nat): (b: seq<byte>)
    ensures |b| == k
  {
    if k == 0 then [] else [n % 256] + LE(n / 256, k - 1)
  }

  function FromLE(b: seq<byte>): nat
  {
    if b == [] then 0 else b[0] + 256 * FromLE(b[1..])
  }

  function Reversed<T>(s: seq<T>): (r: seq<T>)
    ensures |r| == |s|
    ensures forall i :: 0 <= i < |s| ==> r[i] == s[|s| - 1 - i]
  {
    if s == [] then [] else Reversed(s[1..]) + [s[0]]
  }

  /** The low `k` bytes of `n`, most significant first. */
  function BE(n: nat, k: nat): (b: seq<byte>)
    ensures |b| == k
  {
    Reversed(LE(n, k))
  }

  lemma {:induction false} LERoundTrip(n: nat, k: nat)
    requires n < Pow256(k)
    ensures FromLE(LE(n, k)) == n
  {
    if k > 0 {
      LERoundTrip(n / 256, k - 1);
      assert LE(n, k)[1..] == LE(n / 256, k - 1);
    }
  }

  lemma {:induction false} FromLERoundTrip(b: seq<byte>)
    ensures FromLE(b) < Pow256(|b|)
    ensures LE(FromLE(b), |b|) == b
  {
    if b != [] {
      var top := FromLE(b[1..]);
      FromLERoundTrip(b[1..]);
      assert Pow256(|b|) == 256 * Pow256(|b| - 1);
      assert FromLE(b) == b[0] + 256 * top;
      assert LE(FromLE(b), |b|) == [b[0]] + LE(top, |b| - 1);
    }
  }

  /** Stores the low `k` bytes of `n` at `off`, least significant first (binary.LittleEndian.PutUint). */
  method PutLE(b: array<byte>, off: nat, k: nat, n: nat)
    requires off + k <= b.Length
    modifies b
    ensures b[..] == old(b[..off]) + LE(n, k) + old(b[off + k..])
  {
    var rest := n;
    var i := 0;
    ghost var was: seq<byte>, done: seq<byte> := b[..], [];
    while i < k
      invariant LEDone(done, i, rest, n, k)
      invariant b[..] == Stored(was, off, done)
    {
      var low: byte := rest % 256;
      StoreStep(was, off, done, low);
      b[off + i] := low;
      assert b[..] == Stored(was, off, done)[off + i := low];
      LEStep(done, i, rest, n, k);
      done := done + [low];
      rest := rest / 256;
      i := i + 1;
    }
  }

  /** The buffer with `done` stored at `off`. */
  ghost function Stored(was: seq<byte>, off: nat, done: seq<byte>): (b: seq<byte>)
    requires off + |done| <= |was|
    ensures |b| == |was|
  {
    was[..off] + done + was[off + |done|..]
  }

  lemma StoreStep(was: seq<byte>, off: nat, done: seq<byte>, low: byte)
    requires off + |done| < |was|
    ensures Stored(was, off, done)[off + |done| := low] == Stored(was, off, done + [low])
  {
  }

  /** `done` are the first `i` bytes of the encoding, and `rest` is what is left to encode. */
  ghost predicate LEDone(done: seq<byte>, i: nat, rest: nat, n: nat, k: nat)
  {
    i <= k && |done| == i && done + LE(rest, k - i) == LE(n, k)
  }

  lemma LEStep(done: seq<byte>, i: nat, rest: nat, n: nat, k: nat)
    requires i < k && LEDone(done, i, rest, n, k)
    ensures LEDone(done + [rest % 256], i + 1, rest / 256, n, k)
  {
    assert done + ([rest % 256] + LE(rest / 256, k - i - 1)) == (done + [rest % 256]) + LE(rest / 256, k - i - 1);
  }

  /** Stores the low four bytes of `n` at `off`, most significant first (binary.BigEndian.PutUint32). */
  method PutBE32(b: array<byte>, off: nat, n: nat)
    requires off + 4 <= b.Length
    modifies b
    ensures b[..] == old(b[..off]) + BE(n, 4) + old(b[off + 4..])
  {
    b[off] := (n / 0x100_0000) % 256;
    b[off + 1] := (n / 0x1_0000) % 256;
    b[off + 2] := (n / 0x100) % 256;
    b[off + 3] := n % 256;
    BE32Bytes(n);
    assert b[..] == b[..off] + b[off..off + 4] + b[off + 4..];
  }

  lemma BE32Bytes(n: nat)
    ensures BE(n, 4) == [(n / 0x100_0000) % 256, (n / 0x1_0000) % 256, (n / 0x100) % 256, n % 256]
  {
    LE32Bytes(n);
  }

  lemma LE32Bytes(n: nat)
    ensures LE(n, 4) == [n % 256, (n / 0x100) % 256, (n / 0x1_0000) % 256, (n / 0x100_0000) % 256]
  {
    var n1, n2, n3 := n / 256, n / 256 / 256, n / 256 / 256 / 256;
    assert LE(n, 4) == [n % 256] + LE(n1, 3);
    assert LE(n1, 3) == [n1 % 256] + LE(n2, 2);
    assert LE(n2, 2) == [n2 % 256] + LE(n3, 1);
    assert LE(n3, 1) == [n3 % 256] + LE(n3 / 256, 0);
  }
}
