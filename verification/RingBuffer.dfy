/** The ring of recent samples, and the history it stands for. */
module RingBuffers {
  import opened Bytes

  // ---- What a buffer of a given size remembers ----

  function Sum(s: seq<int>): int
  {
    if s == [] then 0 else s[0] + Sum(s[1..])
  }

  lemma {:induction false} SumConcat(a: seq<int>, b: seq<int>)
    ensures Sum(a + b) == Sum(a) + Sum(b)
  {
    if a == [] {
      assert a + b == b;
    } else {
      SumConcat(a[1..], b);
      assert (a + b)[1..] == a[1..] + b;
    }
  }

  /** The mean; None for no samples, where the source divides zero by zero. */
  function Mean(s: seq<int>): Option<real>
  {
    if s == [] then None else Some(Sum(s) as real / |s| as real)
  }

  /** One more sample; the oldest one makes room if the buffer is full. Below size 1 it never is. */
  function Pushed(h: seq<int>, maxSize: int, x: int): (r: seq<int>)
    ensures r != []
  {
    if maxSize >= 1 && |h| >= maxSize then h[1..] + [x] else h + [x]
  }

  datatype Op = Append(x: int) | Clear

  /** The samples kept after a series of operations, oldest first. */
  function Kept(ops: seq<Op>, maxSize: int): seq<int>
  {
    if ops == [] then []
    else
      match ops[|ops| - 1]
      case Append(x) => Pushed(Kept(ops[..|ops| - 1], maxSize), maxSize, x)
      case Clear => []
  }

  /** All samples appended since the last clear. */
  function SinceClear(ops: seq<Op>): seq<int>
  {
    if ops == [] then []
    else
      match ops[|ops| - 1]
      case Append(x) => SinceClear(ops[..|ops| - 1]) + [x]
      case Clear => []
  }

  function Newest(s: seq<int>, maxSize: int): seq<int>
  {
    if maxSize >= 1 && |s| > maxSize then s[|s| - maxSize..] else s
  }

  /** Whatever the series of operations, the buffer keeps the newest samples since the last clear, in order. */
  lemma {:induction false} KeepsNewest(ops: seq<Op>, maxSize: int)
    ensures Kept(ops, maxSize) == Newest(SinceClear(ops), maxSize)
  {
    if ops != [] {
      KeepsNewest(ops[..|ops| - 1], maxSize);
    }
  }

  /** A full ring's samples in order of arrival. */
  function Unrolled(data: seq<int>, cursor: nat): seq<int>
    requires cursor <= |data|
  {
    data[cursor..] + data[..cursor]
  }

  /** Overwriting the place at the cursor drops the oldest sample and adds a newest one. */
  lemma RingStep(data: seq<int>, cursor: nat, x: int)
    requires cursor < |data|
    ensures Unrolled(data[cursor := x], (cursor + 1) % |data|) == Unrolled(data, cursor)[1..] + [x]
  {
    var data' := data[cursor := x];
    assert data'[..cursor + 1] == data[..cursor] + [x];
    assert data'[cursor + 1..] == data[cursor + 1..];
    assert Unrolled(data, cursor)[1..] == data[cursor + 1..] + data[..cursor];
    if cursor + 1 == |data| {
      assert (cursor + 1) % |data| == 0;
      assert data' == data'[..cursor + 1];
    } else {
      assert (cursor + 1) % |data| == cursor + 1;
      assert data[cursor + 1..] + (data[..cursor] + [x]) == (data[cursor + 1..] + data[..cursor]) + [x];
    }
  }

  // ---- The buffer ----

  class RingBuffer {
    var IsFull: bool
    var MaxSize: int
    var Cursor: int
    var Data: seq<int>

    ghost predicate Valid()
      reads this
    {
      if IsFull then MaxSize >= 1 && |Data| == MaxSize && 0 <= Cursor < MaxSize
      else Cursor == |Data| && (MaxSize >= 1 ==> |Data| < MaxSize)
    }

    /** The samples in the order of their arrival: read from the cursor on once the ring is full. */
    ghost function History(): (h: seq<int>)
      requires Valid()
      reads this
      ensures |h| == |Data|
      ensures MaxSize >= 1 ==> |h| <= MaxSize && (|h| == MaxSize <==> IsFull)
    {
      if IsFull then Unrolled(Data, Cursor) else Data
    }

    constructor (maxSize: int)
      ensures Valid() && History() == [] && MaxSize == maxSize
    {
      IsFull, MaxSize, Cursor, Data := false, maxSize, 0, [];
    }

    method Append(x: int)
      requires Valid()
      modifies this
      ensures Valid() && MaxSize == old(MaxSize)
      ensures History() == Pushed(old(History()), MaxSize, x)
    {
      if IsFull {
        RingStep(Data, Cursor, x);
        Data := Data[Cursor := x];
        Cursor := (Cursor + 1) % MaxSize;
      } else {
        Data := Data + [x];
        Cursor := Cursor + 1;
        if |Data| == MaxSize {
          Cursor := 0;
          IsFull := true;
        }
      }
    }

    method Size() returns (n: int)
      requires Valid()
      ensures n == |History()|
    {
      if IsFull {
        return MaxSize;
      } else {
        return Cursor;
      }
    }

    /** The sum runs over the array, not in order of arrival; the mean is that of the history all the same. */
    method Avg() returns (avg: Option<real>)
      requires Valid()
      ensures avg == Mean(History())
    {
      var sum := 0;
      for i := 0 to |Data|
        invariant sum == Sum(Data[..i])
      {
        assert Data[..i + 1] == Data[..i] + [Data[i]];
        SumConcat(Data[..i], [Data[i]]);
        sum := sum + Data[i];
      }
      assert Data[..|Data|] == Data;
      if IsFull {
        SumConcat(Data[Cursor..], Data[..Cursor]);
        SumConcat(Data[..Cursor], Data[Cursor..]);
        assert Data[..Cursor] + Data[Cursor..] == Data;
      }
      var size := Size();
      avg := if size == 0 then None else Some(sum as real / size as real);
    }

    method Clear()
      requires Valid()
      modifies this
      ensures Valid() && MaxSize == old(MaxSize) && History() == []
    {
      Data := [];
      Cursor := 0;
      IsFull := false;
    }
  }

  /** A buffer put through any series of operations holds the newest samples since the last clear, in order. */
  method Replay(ops: seq<Op>, maxSize: int) returns (buffer: RingBuffer)
    ensures fresh(buffer) && buffer.Valid() && buffer.MaxSize == maxSize
    ensures buffer.History() == Newest(SinceClear(ops), maxSize)
  {
    buffer := new RingBuffer(maxSize);
    for i := 0 to |ops|
      invariant buffer.Valid() && buffer.MaxSize == maxSize
      invariant buffer.History() == Kept(ops[..i], maxSize)
    {
      assert ops[..i + 1][..i] == ops[..i];
      match ops[i]
      case Append(x) => buffer.Append(x);
      case Clear => buffer.Clear();
    }
    assert ops[..|ops|] == ops;
    KeepsNewest(ops, maxSize);
  }
}
