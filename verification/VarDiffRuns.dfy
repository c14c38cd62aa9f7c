/**
 * Runs of the difficulty controller as coded, with the target time in nanoseconds: exactly which configurations
 * and starting difficulties can leave the range between the bounds.
 */
module VarDiffRuns {
  import opened Bytes
  import opened RingBuffers
  import opened VarDiffs

  /** The target time in nanoseconds. */
  function Target(cfg: Config): int
  {
    cfg.targetTime * NANOS
  }

  /**
   * Some mean that a full buffer can have lies above the slow bound and below the nanosecond target, so that
   * slow shares raise the difficulty. The largest such mean misses the target by one second in all its gaps.
   */
  ghost predicate SlowCanRaise(cfg: Config)
    requires cfg.Valid()
  {
    var b := cfg.BufferSize() as real;
    if cfg.BufferSize() >= 1 then cfg.MaxTargetTime() * b < cfg.Nanos() * b - 1.0
    else cfg.MaxTargetTime() < cfg.Nanos()
  }

  /** No mean of up to `b` gaps is below `low`: the smallest one is one second in `b`. Below 1, `b` is no bound. */
  ghost predicate NoMeanBelow(low: real, b: int)
  {
    if b >= 1 then low * b as real <= 1.0 else low <= 0.0
  }

  /** Some mean counts as fast. */
  ghost predicate FastCanHappen(cfg: Config)
    requires cfg.Valid()
  {
    !NoMeanBelow(cfg.MinTargetTime(), cfg.BufferSize())
  }

  /** The condition on the configuration and the difficulty: slow shares can raise it, and it is or can get above the minimum. */
  ghost predicate CanLeave(cfg: Config, current: real)
    requires cfg.Valid()
  {
    && !cfg.x2Mode && SlowCanRaise(cfg)
    && (current > cfg.minDiff || (cfg.minDiff < cfg.maxDiff && FastCanHappen(cfg)))
  }

  // ---- What holds the difficulty in range ----

  /** The sum and the number of the gaps of a retarget. */
  lemma RetargetGaps(cfg: Config, vd: State, now: int)
    requires Inv(cfg, vd) && ClockOk(vd.lastTimestamp, now) && IsRetarget(cfg, vd, now)
    ensures var gaps := Pushed(vd.gaps, cfg.BufferSize(), now - vd.lastTimestamp);
            && Sum(gaps) >= 1 && |gaps| >= 1 && (cfg.BufferSize() >= 1 ==> |gaps| <= cfg.BufferSize())
            && Mean(gaps) == Some(Sum(gaps) as real / |gaps| as real)
  {
    RetargetMeanPositive(cfg, vd, now);
    var gaps := Pushed(vd.gaps, cfg.BufferSize(), now - vd.lastTimestamp);
    SumPositive(Sum(gaps), |gaps|);
  }

  lemma SumPositive(sum: int, n: nat)
    requires n >= 1 && sum as real / n as real > 0.0
    ensures sum >= 1
  {
    var avg := sum as real / n as real;
    assert avg * n as real == sum as real;
    Ordered(avg, 0.0, n as real);
  }

  /** A whole number of seconds over `n` gaps that is below the target misses it by 1/n or more. */
  lemma MeanBelowTarget(sum: int, n: nat, b: nat, target: int, low: real)
    requires 1 <= n <= b && sum as real / n as real < target as real && low < sum as real / n as real
    ensures low * b as real < target as real * b as real - 1.0
  {
    var avg, nr, br := sum as real / n as real, n as real, b as real;
    assert avg * nr == sum as real;
    Ordered(target as real, avg, nr);
    assert sum <= target * n - 1;
    assert (target as real - avg) * nr >= 1.0;
    ScaleUp(target as real - avg, nr, br);
    Ordered(avg, low, br);
  }

  lemma ScaleUp(gap: real, n: real, b: real)
    requires 0.0 < n <= b && gap > 0.0 && gap * n >= 1.0
    ensures gap * b >= 1.0
  {
    assert gap * (b - n) >= 0.0;
  }

  /** Without a mean between the slow bound and the target, slow shares never raise the difficulty. */
  lemma SlowNeverRaises(cfg: Config, sum: int, n: nat)
    requires cfg.Valid() && !SlowCanRaise(cfg) && n >= 1 && (cfg.BufferSize() >= 1 ==> n <= cfg.BufferSize())
    requires sum as real / n as real > cfg.MaxTargetTime()
    ensures sum as real / n as real >= cfg.Nanos()
  {
    if sum as real / n as real < cfg.Nanos() && cfg.BufferSize() >= 1 {
      MeanBelowTarget(sum, n, cfg.BufferSize(), Target(cfg), cfg.MaxTargetTime());
    }
  }

  /** Without a fast mean, no retarget counts as fast. */
  lemma FastNeverHappens(cfg: Config, sum: int, n: nat)
    requires cfg.Valid() && !FastCanHappen(cfg) && sum >= 1 && n >= 1
    requires cfg.BufferSize() >= 1 ==> n <= cfg.BufferSize()
    ensures sum as real / n as real >= cfg.MinTargetTime()
  {
    MeanAtLeast(sum, n, cfg.BufferSize(), cfg.MinTargetTime());
  }

  lemma MeanAtLeast(sum: int, n: nat, b: int, low: real)
    requires sum >= 1 && n >= 1 && (b >= 1 ==> n <= b)
    requires NoMeanBelow(low, b)
    ensures sum as real / n as real >= low
  {
    var avg := sum as real / n as real;
    Positive(sum as real, n as real);
    if b >= 1 {
      assert avg * n as real == sum as real;
      ScaleUp(avg, n as real, b as real);
      BelowProduct(low, avg, b as real);
    }
  }

  lemma BelowProduct(low: real, avg: real, b: real)
    requires b > 0.0 && low * b <= 1.0 && avg * b >= 1.0
    ensures avg >= low
  {
    Ordered(low, avg, b);
  }

  lemma RetargetStaysInRange(cfg: Config, sum: int, n: nat, current: real)
    requires cfg.Valid() && !cfg.x2Mode && cfg.variancePercent >= 0.0 && InRange(cfg, current)
    requires sum >= 1 && n >= 1 && (cfg.BufferSize() >= 1 ==> n <= cfg.BufferSize())
    requires !CanLeave(cfg, current)
    ensures sum as real / n as real > 0.0
    ensures InRange(cfg, NextDiff(cfg, cfg.Nanos(), sum as real / n as real, current))
    ensures !CanLeave(cfg, NextDiff(cfg, cfg.Nanos(), sum as real / n as real, current))
    ensures current == cfg.minDiff && !FastCanHappen(cfg) ==>
              NextDiff(cfg, cfg.Nanos(), sum as real / n as real, current) == current
  {
    var avg := sum as real / n as real;
    Positive(sum as real, n as real);
    if TooSlow(cfg, avg, current) {
      SlowAnswer(cfg, cfg.Nanos(), avg, current);
      SlowNeverRaises(cfg, sum, n);
    } else if TooFast(cfg, avg, current) {
      if !FastCanHappen(cfg) {
        FastNeverHappens(cfg, sum, n);
      }
      FastAnswer(cfg, cfg.Nanos(), avg, current);
      MinAtMostTarget(cfg);
    }
  }

  /** A run that starts without the condition never leaves the range. */
  lemma {:induction false} RunCannotLeave(cfg: Config, vd: State, current: real, calls: seq<int>)
    requires cfg.variancePercent >= 0.0
    requires Inv(cfg, vd) && Clock(vd.lastTimestamp, calls) && InRange(cfg, current)
    requires !cfg.x2Mode && !CanLeave(cfg, current)
    ensures InRange(cfg, After(cfg, cfg.Nanos(), vd, current, calls).1)
    decreases |calls|
  {
    if calls != [] {
      var now := calls[0];
      CallKeepsInv(cfg, cfg.Nanos(), vd, now, current);
      var (next, answer) := Call(cfg, cfg.Nanos(), vd, now, current);
      if IsRetarget(cfg, vd, now) {
        RetargetGaps(cfg, vd, now);
        var gaps := Pushed(vd.gaps, cfg.BufferSize(), now - vd.lastTimestamp);
        RetargetStaysInRange(cfg, Sum(gaps), |gaps|, current);
      }
      RunCannotLeave(cfg, next, Follow(current, answer), calls[1..]);
    }
  }

  /** At the minimum, and with no mean that counts as fast, nothing ever moves the difficulty. */
  lemma {:induction false} MinimumIsKept(cfg: Config, vd: State, calls: seq<int>)
    requires cfg.variancePercent >= 0.0
    requires Inv(cfg, vd) && Clock(vd.lastTimestamp, calls) && !FastCanHappen(cfg)
    ensures After(cfg, cfg.Nanos(), vd, cfg.minDiff, calls).1 == cfg.minDiff
    ensures forall i :: 0 <= i < |Answers(cfg, cfg.Nanos(), vd, cfg.minDiff, calls)| ==>
              Answers(cfg, cfg.Nanos(), vd, cfg.minDiff, calls)[i] in {0.0, cfg.minDiff}
    decreases |calls|
  {
    if calls != [] {
      var now := calls[0];
      CallKeepsInv(cfg, cfg.Nanos(), vd, now, cfg.minDiff);
      var (next, answer) := Call(cfg, cfg.Nanos(), vd, now, cfg.minDiff);
      if IsRetarget(cfg, vd, now) {
        RetargetGaps(cfg, vd, now);
        var gaps := Pushed(vd.gaps, cfg.BufferSize(), now - vd.lastTimestamp);
        FastNeverHappens(cfg, Sum(gaps), |gaps|);
      }
      MinimumIsKept(cfg, next, calls[1..]);
    }
  }

  // ---- Runs put together ----

  /** The calls lead from a state and a difficulty to another state and difficulty. */
  ghost predicate Leads(cfg: Config, vd: State, current: real, calls: seq<int>, vd': State, current': real)
  {
    && Inv(cfg, vd) && current > 0.0 && Clock(vd.lastTimestamp, calls)
    && After(cfg, cfg.Nanos(), vd, current, calls) == (vd', current')
  }

  lemma {:induction false} Joined(cfg: Config, vd: State, current: real, first: seq<int>, vd': State, current': real,
                                  second: seq<int>, vd'': State, current'': real)
    requires Leads(cfg, vd, current, first, vd', current') && Leads(cfg, vd', current', second, vd'', current'')
    ensures Leads(cfg, vd, current, first + second, vd'', current'')
    decreases |first|
  {
    if first == [] {
      assert first + second == second;
    } else {
      var now := first[0];
      CallKeepsInv(cfg, cfg.Nanos(), vd, now, current);
      AnswerPositive(cfg, cfg.Nanos(), vd, now, current);
      var (next, answer) := Call(cfg, cfg.Nanos(), vd, now, current);
      Joined(cfg, next, Follow(current, answer), first[1..], vd', current', second, vd'', current'');
      assert (first + second)[1..] == first[1..] + second;
    }
  }

  lemma OneCall(cfg: Config, vd: State, current: real, now: int)
    requires Inv(cfg, vd) && ClockOk(vd.lastTimestamp, now) && current > 0.0
    ensures var (next, answer) := Call(cfg, cfg.Nanos(), vd, now, current);
            && Inv(cfg, next) && Follow(current, answer) > 0.0
            && Leads(cfg, vd, current, [now], next, Follow(current, answer))
  {
    CallKeepsInv(cfg, cfg.Nanos(), vd, now, current);
    AnswerPositive(cfg, cfg.Nanos(), vd, now, current);
    assert [now][1..] == [];
  }

  /** A controller whose clock has started. */
  ghost predicate Ready(cfg: Config, vd: State)
  {
    Inv(cfg, vd) && vd.lastRtc != 0 && vd.lastTimestamp >= 1
  }

  function PushZeros(gaps: seq<int>, maxSize: int, k: nat): seq<int>
  {
    if k == 0 then gaps else Pushed(PushZeros(gaps, maxSize, k - 1), maxSize, 0)
  }

  /** Calls within the second of the last one only add empty gaps. */
  lemma {:induction false} IdleCalls(cfg: Config, vd: State, current: real, k: nat) returns (calls: seq<int>)
    requires Ready(cfg, vd) && current > 0.0
    ensures var idle := vd.(gaps := PushZeros(vd.gaps, cfg.BufferSize(), k));
            Ready(cfg, idle) && Leads(cfg, vd, current, calls, idle, current)
  {
    if k == 0 {
      calls := [];
    } else {
      var before := IdleCalls(cfg, vd, current, k - 1);
      var idle, t := vd.(gaps := PushZeros(vd.gaps, cfg.BufferSize(), k - 1)), vd.lastTimestamp;
      OneCall(cfg, idle, current, t);
      var next := vd.(gaps := PushZeros(vd.gaps, cfg.BufferSize(), k));
      assert Call(cfg, cfg.Nanos(), idle, t, current) == (next, 0.0);
      calls := before + [t];
      Joined(cfg, vd, current, before, idle, current, [t], next, current);
    }
  }

  lemma {:induction false} ZerosPushed(gaps: seq<int>, maxSize: int, k: nat)
    requires maxSize >= 1 ==> |gaps| <= maxSize
    ensures var r := PushZeros(gaps, maxSize, k);
            && (maxSize < 1 ==> |r| == |gaps| + k && Sum(r) == Sum(gaps))
            && (maxSize >= 1 ==>
                  && |r| == (if |gaps| + k <= maxSize then |gaps| + k else maxSize)
                  && forall i :: 0 <= i < |r| && i >= |r| - k ==> r[i] == 0)
  {
    if k > 0 {
      ZerosPushed(gaps, maxSize, k - 1);
      if maxSize < 1 {
        SumConcat(PushZeros(gaps, maxSize, k - 1), [0]);
        assert Sum([0]) == 0 + Sum([]);
      }
    }
  }

  lemma {:induction false} SumOfZeros(s: seq<int>)
    requires forall i :: 0 <= i < |s| ==> s[i] == 0
    ensures Sum(s) == 0
  {
    if s != [] {
      SumOfZeros(s[1..]);
    }
  }

  /** One gap behind as many empty ones as it takes: a full buffer holds nothing else, an unbounded one all of it. */
  lemma LastGap(gaps: seq<int>, maxSize: int, k: nat, x: int)
    requires maxSize >= 1 ==> |gaps| <= maxSize && k == maxSize - 1
    ensures var r := Pushed(PushZeros(gaps, maxSize, k), maxSize, x);
            && |r| == (if maxSize >= 1 then maxSize else |gaps| + k + 1)
            && Sum(r) == (if maxSize >= 1 then 0 else Sum(gaps)) + x
  {
    ZerosPushed(gaps, maxSize, k);
    var zeros := PushZeros(gaps, maxSize, k);
    var kept := if maxSize >= 1 && |zeros| >= maxSize then zeros[1..] else zeros;
    if maxSize >= 1 {
      SumOfZeros(kept);
    }
    SumConcat(kept, [x]);
    assert Sum([x]) == x + Sum([]);
  }

  /** The number of gaps a retarget looks at after `k` empty ones and another one, and their sum. */
  function Count(cfg: Config, gaps: seq<int>, k: nat): int
    requires cfg.Valid()
  {
    if cfg.BufferSize() >= 1 then cfg.BufferSize() else |gaps| + k + 1
  }

  function Total(cfg: Config, gaps: seq<int>, x: int): int
    requires cfg.Valid()
  {
    (if cfg.BufferSize() >= 1 then 0 else Sum(gaps)) + x
  }

  lemma NextDiffPositive(cfg: Config, avg: real, current: real)
    requires cfg.Valid() && avg > 0.0 && current > 0.0
    ensures NextDiff(cfg, cfg.Nanos(), avg, current) > 0.0
  {
    Ordered(0.0, Wish(cfg, cfg.Nanos(), avg, current), current);
  }

  /** A round: empty gaps until nothing else is in a bounded buffer, then a gap that makes a retarget due. */
  lemma Round(cfg: Config, vd: State, current: real, k: nat, x: nat)
      returns (calls: seq<int>, vd': State, avg: real)
    requires Ready(cfg, vd) && current > 0.0
    requires cfg.BufferSize() >= 1 ==> k == cfg.BufferSize() - 1
    requires vd.lastTimestamp + x - vd.lastRtc >= cfg.retargetTime
    ensures Count(cfg, vd.gaps, k) >= 1
    ensures avg == Total(cfg, vd.gaps, x) as real / Count(cfg, vd.gaps, k) as real > 0.0
    ensures Ready(cfg, vd') && Leads(cfg, vd, current, calls, vd', NextDiff(cfg, cfg.Nanos(), avg, current))
    ensures TooSlow(cfg, avg, current) || TooFast(cfg, avg, current) ==> vd'.gaps == []
  {
    var before := IdleCalls(cfg, vd, current, k);
    var idle := vd.(gaps := PushZeros(vd.gaps, cfg.BufferSize(), k));
    var now := vd.lastTimestamp + x;
    LastGap(vd.gaps, cfg.BufferSize(), k, x);
    RetargetMeanPositive(cfg, idle, now);
    avg := Mean(Pushed(idle.gaps, cfg.BufferSize(), x)).value;
    NextDiffPositive(cfg, avg, current);
    OneCall(cfg, idle, current, now);
    vd' := Call(cfg, cfg.Nanos(), idle, now, current).0;
    calls := before + [now];
    Joined(cfg, vd, current, before, idle, current, [now], vd', NextDiff(cfg, cfg.Nanos(), avg, current));
  }

  // ---- Slow rounds climb ----

  /** A round of `n` gaps that miss the target by one second in all is a slow one, and a retarget is due. */
  ghost predicate GoodSize(cfg: Config, gaps: seq<int>, n: nat)
    requires cfg.Valid()
  {
    && n >= 1 && (if cfg.BufferSize() >= 1 then n == cfg.BufferSize() else n > |gaps|)
    && n * Target(cfg) - 1 - Total(cfg, gaps, 0) >= cfg.retargetTime
    && cfg.MaxTargetTime() * n as real < (n * Target(cfg) - 1) as real
  }

  /** The mean of such a round: slow, and below the target by so little that the difficulty grows by at least a fixed amount. */
  lemma SlowRaise(cfg: Config, n: nat, current: real)
    requires cfg.Valid() && !cfg.x2Mode && InRange(cfg, current) && current > cfg.minDiff
    requires n >= 1 && n * Target(cfg) >= 2 && cfg.MaxTargetTime() * n as real < (n * Target(cfg) - 1) as real
    ensures var avg, q := (n * Target(cfg) - 1) as real / n as real, (n * Target(cfg) - 1) as real;
            && avg > 0.0 && TooSlow(cfg, avg, current)
            && NextDiff(cfg, cfg.Nanos(), avg, current) >= current + cfg.minDiff / q
  {
    var q := (n * Target(cfg) - 1) as real;
    var avg := q / n as real;
    Positive(q, n as real);
    assert avg * n as real == q;
    Ordered(avg, cfg.MaxTargetTime(), n as real);
    Growth(n as real, cfg.Nanos(), q, current, cfg.minDiff);
    Positive(cfg.minDiff, q);
  }

  /** A target that is one part in `q` above the mean makes the difficulty grow by one part in `q`. */
  lemma Growth(n: real, target: real, q: real, current: real, low: real)
    requires n >= 1.0 && q > 0.0 && n * target == q + 1.0 && 0.0 < low <= current
    ensures q / n > 0.0 && target / (q / n) * current >= current + low / q
  {
    Positive(q, n);
    var avg := q / n;
    var d := target / avg;
    assert d * avg == target && avg * n == q;
    assert d * q == d * (avg * n) == (d * avg) * n == target * n;
    assert d * q == q + 1.0;
    var part := 1.0 / q;
    assert part * q == 1.0;
    assert (d - 1.0) * q == part * q;
    assert d - 1.0 == part;
    assert d * current == current + part * current;
    assert part * low == low / q;
    assert part > 0.0;
    assert part * (current - low) >= 0.0;
  }

  lemma SlowRound(cfg: Config, vd: State, current: real, n: nat) returns (calls: seq<int>, vd': State, current': real)
    requires Ready(cfg, vd) && !cfg.x2Mode && InRange(cfg, current) && current > cfg.minDiff
    requires GoodSize(cfg, vd.gaps, n)
    ensures Ready(cfg, vd') && vd'.gaps == [] && Leads(cfg, vd, current, calls, vd', current')
    ensures n * Target(cfg) - 1 >= 1 && current' >= current + cfg.minDiff / (n * Target(cfg) - 1) as real
  {
    var k := n - 1 - if cfg.BufferSize() >= 1 then 0 else |vd.gaps|;
    var x := n * Target(cfg) - 1 - Total(cfg, vd.gaps, 0);
    var avg;
    calls, vd', avg := Round(cfg, vd, current, k, x);
    assert Total(cfg, vd.gaps, x) == n * Target(cfg) - 1 && Count(cfg, vd.gaps, k) == n;
    SumNonNegative(vd.gaps);
    SlowRaise(cfg, n, current);
    current' := NextDiff(cfg, cfg.Nanos(), avg, current);
  }

  /** The run leaves the range. */
  ghost predicate Leaves(cfg: Config, vd: State, current: real, calls: seq<int>)
    requires Inv(cfg, vd) && current > 0.0
  {
    Clock(vd.lastTimestamp, calls) && !InRange(cfg, After(cfg, cfg.Nanos(), vd, current, calls).1)
  }

  lemma JoinedLeaves(cfg: Config, vd: State, current: real, first: seq<int>, vd': State, current': real, second: seq<int>)
    requires Leads(cfg, vd, current, first, vd', current') && Inv(cfg, vd') && current' > 0.0
    requires Leaves(cfg, vd', current', second)
    ensures Leaves(cfg, vd, current, first + second)
  {
    var (vd'', current'') := After(cfg, cfg.Nanos(), vd', current', second);
    Joined(cfg, vd, current, first, vd', current', second, vd'', current'');
  }

  /** Rounds of one size climb over the maximum: `j` of them are enough. */
  lemma {:induction false} Climb(cfg: Config, vd: State, current: real, n: nat, j: nat) returns (calls: seq<int>)
    requires Ready(cfg, vd) && !cfg.x2Mode && InRange(cfg, current) && current > cfg.minDiff
    requires GoodSize(cfg, vd.gaps, n) && GoodSize(cfg, [], n)
    requires current + j as real * (cfg.minDiff / (n * Target(cfg) - 1) as real) > cfg.maxDiff
    ensures Leaves(cfg, vd, current, calls)
    decreases j
  {
    var step := cfg.minDiff / (n * Target(cfg) - 1) as real;
    var round, vd', current' := SlowRound(cfg, vd, current, n);
    Positive(cfg.minDiff, (n * Target(cfg) - 1) as real);
    if InRange(cfg, current') {
      NotNone(j, step);
      OneLess(j, step, current, current', cfg.maxDiff);
      var more := Climb(cfg, vd', current', n, j - 1);
      JoinedLeaves(cfg, vd, current, round, vd', current', more);
      calls := round + more;
    } else {
      calls := round;
    }
  }

  lemma OneLess(j: nat, step: real, current: real, current': real, high: real)
    requires j >= 1 && current + j as real * step > high && current' >= current + step
    ensures current' + (j - 1) as real * step > high
  {
    assert (j - 1) as real * step == j as real * step - step;
  }

  lemma NotNone(j: nat, step: real)
    requires j as real * step > 0.0
    ensures j >= 1
  {
  }

  lemma EnoughSteps(gap: real, step: real) returns (j: nat)
    requires gap >= 0.0 && step > 0.0
    ensures j as real * step > gap
  {
    var q := gap / step;
    assert q * step == gap;
    if q < 0.0 {
      Ordered(0.0, q, step);
    }
    j := q.Floor + 1;
    Ordered(j as real, q, step);
  }

  /** A round size for any gaps. With a bounded buffer it is the buffer's. */
  lemma SizeFor(cfg: Config, gaps: seq<int>) returns (n: nat)
    requires cfg.Valid() && SlowCanRaise(cfg)
    requires forall i :: 0 <= i < |gaps| ==> gaps[i] >= 0
    ensures GoodSize(cfg, gaps, n)
  {
    SumNonNegative(gaps);
    if cfg.BufferSize() >= 1 {
      n := cfg.BufferSize();
      BufferSpansRetarget(cfg);
      assert n * Target(cfg) == n * cfg.targetTime * NANOS;
      assert (n * Target(cfg)) as real == n as real * cfg.Nanos();
    } else {
      var least := |gaps| + Sum(gaps) + cfg.retargetTime + 2;
      n := LargeSize(cfg.MaxTargetTime(), Target(cfg), least);
    }
  }

  /** The gaps of a full buffer at the target time span a retarget and more. */
  lemma BufferSpansRetarget(cfg: Config)
    requires cfg.Valid() && cfg.BufferSize() >= 1
    ensures cfg.BufferSize() * cfg.targetTime > cfg.retargetTime
  {
    Spans(cfg.retargetTime, cfg.targetTime, cfg.retargetTime / cfg.targetTime, cfg.retargetTime % cfg.targetTime);
  }

  lemma Spans(retarget: int, target: int, q: int, r: int)
    requires target >= 1 && q >= 1 && retarget == q * target + r && r < target
    ensures q * 4 * target > retarget
  {
    assert (q - 1) * target >= 0;
    assert q * 4 * target == 4 * (q * target);
  }

  lemma LargeSize(low: real, target: int, least: int) returns (n: nat)
    requires low < target as real && target >= 1 && least >= 1
    ensures n >= least && n * target >= n && low * n as real < (n * target - 1) as real
  {
    var gap := target as real - low;
    var j := EnoughSteps(1.0, gap);
    n := j + least;
    assert gap * n as real == gap * j as real + gap * least as real;
    assert gap * least as real > 0.0;
    assert gap * n as real == target as real * n as real - low * n as real;
    assert n * (target - 1) >= 0;
  }

  lemma ClimbFrom(cfg: Config, vd: State, current: real, n: nat) returns (calls: seq<int>)
    requires Ready(cfg, vd) && !cfg.x2Mode && InRange(cfg, current) && current > cfg.minDiff
    requires GoodSize(cfg, vd.gaps, n) && GoodSize(cfg, [], n)
    ensures Leaves(cfg, vd, current, calls)
  {
    assert n * Target(cfg) - 1 >= 1;
    Positive(cfg.minDiff, (n * Target(cfg) - 1) as real);
    var j := EnoughSteps(cfg.maxDiff - current, cfg.minDiff / (n * Target(cfg) - 1) as real);
    calls := Climb(cfg, vd, current, n, j);
  }

  /** From above the minimum, slow rounds leave the range. */
  lemma SlowRoundsLeave(cfg: Config, vd: State, current: real) returns (calls: seq<int>)
    requires Ready(cfg, vd) && !cfg.x2Mode && SlowCanRaise(cfg) && InRange(cfg, current) && current > cfg.minDiff
    ensures Leaves(cfg, vd, current, calls)
  {
    var n := SizeFor(cfg, vd.gaps);
    var first, vd', current' := SlowRound(cfg, vd, current, n);
    Positive(cfg.minDiff, (n * Target(cfg) - 1) as real);
    if InRange(cfg, current') {
      var m := SizeFor(cfg, []);
      var more := ClimbFrom(cfg, vd', current', m);
      JoinedLeaves(cfg, vd, current, first, vd', current', more);
      calls := first + more;
    } else {
      calls := first;
    }
  }

  // ---- A fast round leaves the minimum ----

  /** One second over enough gaps counts as fast, and takes the difficulty above the minimum. */
  lemma FastRound(cfg: Config, vd: State) returns (calls: seq<int>, vd': State, current': real)
    requires Ready(cfg, vd) && !cfg.x2Mode && cfg.variancePercent >= 0.0
    requires cfg.minDiff < cfg.maxDiff && FastCanHappen(cfg)
    ensures Ready(cfg, vd') && Leads(cfg, vd, cfg.minDiff, calls, vd', current')
    ensures cfg.minDiff < current' <= cfg.maxDiff
  {
    var t := vd.lastRtc + cfg.retargetTime - 1;
    OneCall(cfg, vd, cfg.minDiff, t);
    var late := State(Pushed(vd.gaps, cfg.BufferSize(), t - vd.lastTimestamp), vd.lastRtc, t);
    assert Call(cfg, cfg.Nanos(), vd, t, cfg.minDiff) == (late, 0.0);
    var k := FastSize(cfg, late.gaps);
    var round, avg;
    round, vd', avg := Round(cfg, late, cfg.minDiff, k, 1);
    current' := NextDiff(cfg, cfg.Nanos(), avg, cfg.minDiff);
    FastRaise(cfg, avg);
    calls := [t] + round;
    Joined(cfg, vd, cfg.minDiff, [t], late, cfg.minDiff, round, vd', current');
  }

  lemma FastSize(cfg: Config, gaps: seq<int>) returns (k: nat)
    requires cfg.Valid() && FastCanHappen(cfg)
    requires forall i :: 0 <= i < |gaps| ==> gaps[i] >= 0
    ensures cfg.BufferSize() >= 1 ==> k == cfg.BufferSize() - 1
    ensures Count(cfg, gaps, k) >= 1
    ensures Total(cfg, gaps, 1) as real / Count(cfg, gaps, k) as real < cfg.MinTargetTime()
  {
    if cfg.BufferSize() >= 1 {
      k := cfg.BufferSize() - 1;
      SmallMean(1, cfg.BufferSize(), cfg.MinTargetTime());
    } else {
      SumNonNegative(gaps);
      var j := EnoughSteps((Sum(gaps) + 1) as real, cfg.MinTargetTime());
      k := j;
      GrowingCount(j, |gaps| + k + 1, cfg.MinTargetTime());
      SmallMean(Sum(gaps) + 1, |gaps| + k + 1, cfg.MinTargetTime());
    }
  }

  lemma GrowingCount(j: nat, n: nat, high: real)
    requires j <= n && high > 0.0
    ensures j as real * high <= high * n as real
  {
    assert (n - j) as real * high >= 0.0;
  }

  lemma SmallMean(sum: int, n: nat, high: real)
    requires n >= 1 && sum as real < high * n as real
    ensures sum as real / n as real < high
  {
    var avg := sum as real / n as real;
    assert avg * n as real == sum as real;
    Ordered(high, avg, n as real);
  }

  lemma FastRaise(cfg: Config, avg: real)
    requires cfg.Valid() && !cfg.x2Mode && cfg.variancePercent >= 0.0 && cfg.minDiff < cfg.maxDiff
    requires 0.0 < avg < cfg.MinTargetTime()
    ensures cfg.minDiff < NextDiff(cfg, cfg.Nanos(), avg, cfg.minDiff) <= cfg.maxDiff
  {
    MinAtMostTarget(cfg);
    RaisedUpTo(cfg.Nanos() / avg, cfg.Nanos(), avg, cfg.minDiff, cfg.maxDiff);
    assert TooFast(cfg, avg, cfg.minDiff);
  }

  lemma RaisedUpTo(d: real, target: real, avg: real, current: real, high: real)
    requires 0.0 < avg < target && 0.0 < current < high && d == target / avg
    ensures current < (if d * current > high then high else d * current) <= high
  {
    ScaledOrder(d, target, avg, current, high);
  }

  // ---- The condition is exact ----

  lemma ReadyLeaves(cfg: Config, vd: State, current: real) returns (calls: seq<int>)
    requires Ready(cfg, vd) && cfg.variancePercent >= 0.0 && InRange(cfg, current) && CanLeave(cfg, current)
    ensures Leaves(cfg, vd, current, calls)
  {
    if current > cfg.minDiff {
      calls := SlowRoundsLeave(cfg, vd, current);
    } else {
      var first, vd', current' := FastRound(cfg, vd);
      var more := SlowRoundsLeave(cfg, vd', current');
      JoinedLeaves(cfg, vd, current, first, vd', current', more);
      calls := first + more;
    }
  }

  /** A controller that has not retargeted or been set up yet: its first call does that. */
  lemma ConditionLeaves(cfg: Config, vd: State, current: real) returns (calls: seq<int>)
    requires Inv(cfg, vd) && vd.lastTimestamp >= 1 && cfg.variancePercent >= 0.0
    requires InRange(cfg, current) && CanLeave(cfg, current)
    ensures Leaves(cfg, vd, current, calls)
  {
    if vd.lastRtc != 0 {
      calls := ReadyLeaves(cfg, vd, current);
    } else {
      var now := vd.lastTimestamp + cfg.retargetTime;
      OneCall(cfg, vd, current, now);
      var next := Call(cfg, cfg.Nanos(), vd, now, current).0;
      var more := ReadyLeaves(cfg, next, current);
      JoinedLeaves(cfg, vd, current, [now], next, current, more);
      calls := [now] + more;
    }
  }

  /**
   * As coded, with a variance that is not negative: from any state and any difficulty in range, some run takes
   * the difficulty out of range if and only if the condition on the configuration and that difficulty holds.
   */
  lemma RunLeavesRangeIff(cfg: Config, vd: State, current: real)
    requires Inv(cfg, vd) && vd.lastTimestamp >= 1 && cfg.variancePercent >= 0.0 && InRange(cfg, current)
    ensures (exists calls :: Leaves(cfg, vd, current, calls)) <==> CanLeave(cfg, current)
  {
    if CanLeave(cfg, current) {
      var calls := ConditionLeaves(cfg, vd, current);
    } else {
      forall calls | Clock(vd.lastTimestamp, calls)
        ensures !Leaves(cfg, vd, current, calls)
      {
        if cfg.x2Mode {
          RunStaysInRange(cfg, cfg.Nanos(), vd, current, calls);
        } else {
          RunCannotLeave(cfg, vd, current, calls);
        }
      }
    }
  }

  // ---- The configuration the server runs with ----

  /** What conn.serve passes for a connection: the difficulty it starts at, and the controller's configuration. */
  datatype Client = Client(initialDifficulty: real, cfg: Config)

  /** The variance is meant as 30 percent, but the factor is used as it is. */
  const LIVE := Client(2.0, Config(2.0, 5.0, 15, 90, 30.0, false))

  /** With a variance of 1 or more the lower bound is not positive, and no mean of a run is below it. */
  lemma FastBranchDead(cfg: Config)
    requires cfg.Valid() && cfg.variancePercent >= 1.0
    ensures !FastCanHappen(cfg)
    ensures forall avg: real, current: real :: avg > 0.0 ==> !TooFast(cfg, avg, current)
  {
    var low := cfg.MinTargetTime();
    assert low <= 0.0 by {
      assert cfg.targetTime as real * (cfg.variancePercent - 1.0) >= 0.0;
    }
    if cfg.BufferSize() >= 1 {
      assert low * cfg.BufferSize() as real <= 0.0;
    }
  }

  /** The server's own connections start at the minimum, and their difficulty never moves. */
  lemma LiveDifficultyIsFrozen(vd: State, calls: seq<int>)
    requires Inv(LIVE.cfg, vd) && Clock(vd.lastTimestamp, calls)
    ensures After(LIVE.cfg, LIVE.cfg.Nanos(), vd, LIVE.initialDifficulty, calls).1 == LIVE.initialDifficulty
    ensures forall i :: 0 <= i < |Answers(LIVE.cfg, LIVE.cfg.Nanos(), vd, LIVE.initialDifficulty, calls)| ==>
              Answers(LIVE.cfg, LIVE.cfg.Nanos(), vd, LIVE.initialDifficulty, calls)[i] in {0.0, LIVE.initialDifficulty}
  {
    FastBranchDead(LIVE.cfg);
    MinimumIsKept(LIVE.cfg, vd, calls);
  }

  /** With the same configuration, every other starting difficulty in range can leave the range. */
  lemma LiveConfigLeavesIff(vd: State, current: real)
    requires Inv(LIVE.cfg, vd) && vd.lastTimestamp >= 1 && InRange(LIVE.cfg, current)
    ensures (exists calls :: Leaves(LIVE.cfg, vd, current, calls)) <==> current != LIVE.initialDifficulty
  {
    FastBranchDead(LIVE.cfg);
    assert LIVE.cfg.BufferSize() == 24;
    assert SlowCanRaise(LIVE.cfg);
    RunLeavesRangeIff(LIVE.cfg, vd, current);
  }
}
