/** The difficulty controller: one call for each share, and runs of any number of calls. */
module VarDiffs {
  import opened Bytes
  import opened RingBuffers

  /** time.Second, the factor the source multiplies the target time with. */
  const NANOS := 1_000_000_000

  datatype Config = Config(minDiff: real, maxDiff: real, targetTime: int, retargetTime: int, variancePercent: real, x2Mode: bool)
  {
    predicate Valid()
    {
      targetTime > 0 && retargetTime > 0 && 0.0 < minDiff <= maxDiff
    }

    /** The target time as the source scales it, time.Duration(TargetTime) * time.Second, read as a plain number. */
    function Nanos(): real
    {
      (targetTime * NANOS) as real
    }

    /** The target time in the unit of the mean. */
    function Seconds(): real
    {
      targetTime as real
    }

    function MaxTargetTime(): real
    {
      targetTime as real * (1.0 + variancePercent)
    }

    function MinTargetTime(): real
    {
      targetTime as real * (1.0 - variancePercent)
    }

    function BufferSize(): int
      requires targetTime != 0
    {
      TruncDiv(retargetTime, targetTime) * 4
    }
  }

  /** Go's integer division: towards zero. */
  function TruncDiv(a: int, b: int): int
    requires b != 0
  {
    if a >= 0 then a / b else -(-a / b)
  }

  /** With positive times the buffer has four places or more exactly if a retarget spans a target; else it is unbounded. */
  lemma BufferHasFourPlaces(cfg: Config)
    requires cfg.Valid()
    ensures cfg.BufferSize() >= 4 <==> cfg.retargetTime >= cfg.targetTime
    ensures cfg.BufferSize() == 0 <==> cfg.retargetTime < cfg.targetTime
  {
    if cfg.retargetTime >= cfg.targetTime {
      assert cfg.retargetTime / cfg.targetTime >= 1;
    } else {
      assert cfg.retargetTime / cfg.targetTime == 0;
    }
  }

  // ---- One retarget ----

  ghost predicate TooSlow(cfg: Config, avg: real, current: real)
  {
    avg > cfg.MaxTargetTime() && current > cfg.minDiff
  }

  ghost predicate TooFast(cfg: Config, avg: real, current: real)
  {
    !TooSlow(cfg, avg, current) && avg < cfg.MinTargetTime()
  }

  /** The wished factor on the difficulty; `target` is the factor on the target time, NANOS as the source has it. */
  ghost function Wish(cfg: Config, target: real, avg: real, current: real): (d: real)
    requires cfg.Valid() && target > 0.0 && avg > 0.0
    ensures d > 0.0
  {
    Positive(target, avg);
    if !cfg.x2Mode then target / avg
    else if TooSlow(cfg, avg, current) then 0.5
    else 2.0
  }

  /**
   * The difficulty a retarget answers: the wished one, held up at the minimum if the shares are too slow and
   * down at the maximum if they are too fast; the other bound is not looked at.
   */
  ghost function NextDiff(cfg: Config, target: real, avg: real, current: real): real
    requires cfg.Valid() && target > 0.0 && avg > 0.0
  {
    var wished := Wish(cfg, target, avg, current) * current;
    if TooSlow(cfg, avg, current) then (if wished < cfg.minDiff then cfg.minDiff else wished)
    else if TooFast(cfg, avg, current) then (if wished > cfg.maxDiff then cfg.maxDiff else wished)
    else current
  }

  lemma Positive(t: real, a: real)
    requires t > 0.0 && a > 0.0
    ensures t / a > 0.0
  {
    Ordered(0.0, t / a, a);
  }

  ghost predicate InRange(cfg: Config, diff: real)
  {
    cfg.minDiff <= diff <= cfg.maxDiff
  }

  /** A quotient is compared by multiplying out. */
  lemma Quotient(t: real, a: real, c: real, m: real)
    requires t > 0.0 && a > 0.0 && c > 0.0
    ensures t / a * c > m <==> t * c > m * a
    ensures t / a * c < m <==> t * c < m * a
  {
    var q := t / a;
    assert q * a == t;
    assert t * c == q * c * a;
    Ordered(q * c, m, a);
  }

  lemma Ordered(x: real, y: real, a: real)
    requires a > 0.0
    ensures x > y <==> x * a > y * a
    ensures x < y <==> x * a < y * a
  {
    if x > y {
      assert (x - y) * a > 0.0;
    } else if x < y {
      assert (y - x) * a > 0.0;
    }
  }

  /** Doubling and halving stay in range and move by no more than a factor of two, whatever the variance is. */
  lemma X2StaysInRange(cfg: Config, target: real, avg: real, current: real)
    requires cfg.Valid() && target > 0.0 && cfg.x2Mode && avg > 0.0 && InRange(cfg, current)
    ensures InRange(cfg, NextDiff(cfg, target, avg, current))
    ensures TooSlow(cfg, avg, current) ==> 0.5 * current <= NextDiff(cfg, target, avg, current) < current
    ensures TooFast(cfg, avg, current) ==> current <= NextDiff(cfg, target, avg, current) <= 2.0 * current
  {
  }

  /** The controller meant by its documentation, with the target in seconds like the mean. */
  lemma SecondsStayInRange(cfg: Config, avg: real, current: real)
    requires cfg.Valid() && !cfg.x2Mode && 0.0 < cfg.variancePercent < 1.0
    requires avg > 0.0 && InRange(cfg, current)
    ensures InRange(cfg, NextDiff(cfg, cfg.Seconds(), avg, current))
    ensures TooSlow(cfg, avg, current) ==> NextDiff(cfg, cfg.Seconds(), avg, current) < current
    ensures TooFast(cfg, avg, current) ==> NextDiff(cfg, cfg.Seconds(), avg, current) >= current
  {
    if TooSlow(cfg, avg, current) {
      SlowAnswer(cfg, cfg.Seconds(), avg, current);
      BoundsAroundTarget(cfg);
    } else if TooFast(cfg, avg, current) {
      FastAnswer(cfg, cfg.Seconds(), avg, current);
      BoundsAroundTarget(cfg);
    }
  }

  /** On slow shares the answer is below the current difficulty exactly if the scaled target is below the mean. */
  lemma SlowAnswer(cfg: Config, target: real, avg: real, current: real)
    requires cfg.Valid() && target > 0.0 && !cfg.x2Mode && avg > 0.0 && InRange(cfg, current)
    requires TooSlow(cfg, avg, current)
    ensures cfg.minDiff <= NextDiff(cfg, target, avg, current)
    ensures NextDiff(cfg, target, avg, current) < current <==> target < avg
    ensures NextDiff(cfg, target, avg, current) > current <==> target > avg
    ensures NextDiff(cfg, target, avg, current) > cfg.maxDiff <==> target * current > cfg.maxDiff * avg
  {
    CutBelow(Wish(cfg, target, avg, current), target, avg, current, cfg.minDiff, cfg.maxDiff, NextDiff(cfg, target, avg, current));
  }

  /** On fast shares it never exceeds the maximum, and falls only if the scaled target is below the mean. */
  lemma FastAnswer(cfg: Config, target: real, avg: real, current: real)
    requires cfg.Valid() && target > 0.0 && !cfg.x2Mode && avg > 0.0 && InRange(cfg, current)
    requires TooFast(cfg, avg, current)
    ensures NextDiff(cfg, target, avg, current) <= cfg.maxDiff
    ensures NextDiff(cfg, target, avg, current) < current <==> target < avg
  {
    CutAbove(Wish(cfg, target, avg, current), target, avg, current, cfg.maxDiff, NextDiff(cfg, target, avg, current));
  }

  /** The product of a quotient held up at `low`, compared by multiplying out. */
  lemma CutBelow(d: real, t: real, avg: real, current: real, low: real, high: real, next: real)
    requires t > 0.0 && avg > 0.0 && 0.0 < low < current <= high && d == t / avg
    requires next == if d * current < low then low else d * current
    ensures low <= next
    ensures next < current <==> t < avg
    ensures next > current <==> t > avg
    ensures next > high <==> t * current > high * avg
  {
    ScaledOrder(d, t, avg, current, high);
  }

  lemma CutAbove(d: real, t: real, avg: real, current: real, high: real, next: real)
    requires t > 0.0 && avg > 0.0 && 0.0 < current <= high && d == t / avg
    requires next == if d * current > high then high else d * current
    ensures next <= high
    ensures next < current <==> t < avg
  {
    ScaledOrder(d, t, avg, current, high);
  }

  lemma ScaledOrder(d: real, t: real, avg: real, current: real, bound: real)
    requires t > 0.0 && avg > 0.0 && current > 0.0 && d == t / avg
    ensures d * current > bound <==> t * current > bound * avg
    ensures d * current > current <==> t > avg
    ensures d * current < current <==> t < avg
  {
    Quotient(t, avg, current, bound);
    Quotient(t, avg, current, current);
    Ordered(t, avg, current);
  }

  lemma BoundsAroundTarget(cfg: Config)
    requires cfg.Valid() && 0.0 < cfg.variancePercent < 1.0
    ensures cfg.MinTargetTime() < cfg.targetTime as real < cfg.MaxTargetTime()
  {
    assert cfg.targetTime as real * cfg.variancePercent > 0.0;
  }

  lemma MinAtMostTarget(cfg: Config)
    requires cfg.Valid() && cfg.variancePercent >= 0.0
    ensures cfg.MinTargetTime() <= cfg.targetTime as real < cfg.Nanos()
  {
    assert cfg.targetTime as real * cfg.variancePercent >= 0.0;
  }

  /**
   * As coded the target is in nanoseconds and the mean in seconds. Then the answer is out of range exactly
   * when the shares are too slow, the difficulty is above its minimum, and the scaled-up ratio takes it
   * over the maximum; that branch has no clamp at the top.
   */
  lemma CodedRange(cfg: Config, avg: real, current: real)
    requires cfg.Valid() && !cfg.x2Mode && cfg.variancePercent >= 0.0
    requires avg > 0.0 && InRange(cfg, current)
    ensures InRange(cfg, NextDiff(cfg, cfg.Nanos(), avg, current)) <==>
              !(TooSlow(cfg, avg, current) && cfg.Nanos() * current > cfg.maxDiff * avg)
  {
    if TooSlow(cfg, avg, current) {
      SlowAnswer(cfg, cfg.Nanos(), avg, current);
    } else if TooFast(cfg, avg, current) {
      FastAnswer(cfg, cfg.Nanos(), avg, current);
      MinAtMostTarget(cfg);
    }
  }

  /** Slow shares lower the difficulty, as they should, only from a mean of 10^9 target times on. */
  lemma SlowSharesRaiseDifficulty(cfg: Config, avg: real, current: real)
    requires cfg.Valid() && !cfg.x2Mode && avg > 0.0 && InRange(cfg, current)
    requires TooSlow(cfg, avg, current)
    ensures NextDiff(cfg, cfg.Nanos(), avg, current) <= current <==> cfg.Nanos() <= avg
  {
    SlowAnswer(cfg, cfg.Nanos(), avg, current);
  }

  // ---- One call ----

  /** The part of the controller that changes: the kept gaps between calls, and two points in time. */
  datatype State = State(gaps: seq<int>, lastRtc: int, lastTimestamp: int)

  /** What every call finds: no negative gap, no more than fit, and the last call less than one retarget behind the last retarget. */
  ghost predicate Inv(cfg: Config, vd: State)
  {
    && cfg.Valid()
    && (forall i :: 0 <= i < |vd.gaps| ==> vd.gaps[i] >= 0)
    && (cfg.BufferSize() >= 1 ==> |vd.gaps| <= cfg.BufferSize())
    && 0 <= vd.lastTimestamp - vd.lastRtc < cfg.retargetTime
    && (vd.lastRtc == 0 ==> vd.gaps == [])
  }

  function Start(cfg: Config, now: int): State
  {
    State([], now - TruncDiv(cfg.retargetTime, 2), now)
  }

  /** A clock that shows positive seconds and does not go back. */
  predicate ClockOk(last: int, now: int)
  {
    now >= last && now >= 1
  }

  ghost predicate IsRetarget(cfg: Config, vd: State, now: int)
  {
    vd.lastRtc != 0 && now - vd.lastRtc >= cfg.retargetTime
  }

  /** At a retarget time has passed since the previous call, so the mean gap is positive and can be divided by. */
  lemma RetargetMeanPositive(cfg: Config, vd: State, now: int)
    requires Inv(cfg, vd) && ClockOk(vd.lastTimestamp, now) && IsRetarget(cfg, vd, now)
    ensures Mean(Pushed(vd.gaps, cfg.BufferSize(), now - vd.lastTimestamp)).value > 0.0
  {
    var gap := now - vd.lastTimestamp;
    var gaps := Pushed(vd.gaps, cfg.BufferSize(), gap);
    assert gap >= 1;
    assert gaps == gaps[..|gaps| - 1] + [gap];
    SumConcat(gaps[..|gaps| - 1], [gap]);
    assert Sum([gap]) == gap + Sum([]);
    SumNonNegative(gaps[..|gaps| - 1]);
    assert Sum(gaps) as real / |gaps| as real > 0.0;
  }

  lemma {:induction false} SumNonNegative(s: seq<int>)
    requires forall i :: 0 <= i < |s| ==> s[i] >= 0
    ensures Sum(s) >= 0
  {
    if s != [] {
      SumNonNegative(s[1..]);
    }
  }

  /** The new state and the answer; 0 stands for no retarget. */
  ghost function Call(cfg: Config, target: real, vd: State, now: int, current: real): (State, real)
    requires target > 0.0
    requires Inv(cfg, vd) && ClockOk(vd.lastTimestamp, now) && current > 0.0
  {
    if vd.lastRtc == 0 then (vd.(lastRtc := now - TruncDiv(cfg.retargetTime, 2), lastTimestamp := now), 0.0)
    else
      var gaps := Pushed(vd.gaps, cfg.BufferSize(), now - vd.lastTimestamp);
      if !IsRetarget(cfg, vd, now) then (State(gaps, vd.lastRtc, now), 0.0)
      else
        RetargetMeanPositive(cfg, vd, now);
        var avg := Mean(gaps).value;
        var adjusted := TooSlow(cfg, avg, current) || TooFast(cfg, avg, current);
        (State(if adjusted then [] else gaps, now, now), NextDiff(cfg, target, avg, current))
  }

  lemma CallKeepsInv(cfg: Config, target: real, vd: State, now: int, current: real)
    requires target > 0.0
    requires Inv(cfg, vd) && ClockOk(vd.lastTimestamp, now) && current > 0.0
    ensures Inv(cfg, Call(cfg, target, vd, now, current).0)
    ensures Call(cfg, target, vd, now, current).0.lastTimestamp == now
    ensures Call(cfg, target, vd, now, current).0.lastRtc ==
              if vd.lastRtc == 0 then now - TruncDiv(cfg.retargetTime, 2)
              else if IsRetarget(cfg, vd, now) then now else vd.lastRtc
    ensures var gaps := Call(cfg, target, vd, now, current).0.gaps;
            gaps == [] || gaps == Pushed(vd.gaps, cfg.BufferSize(), now - vd.lastTimestamp)
  {
  }

  lemma StartInv(cfg: Config, now: int)
    requires cfg.Valid()
    ensures Inv(cfg, Start(cfg, now))
  {
  }

  // ---- The object ----

  class VarDiff {
    const cfg: Config
    const TimeBuffer: RingBuffer
    var LastRtc: int
    var LastTimestamp: int

    ghost predicate Valid()
      reads this, TimeBuffer
    {
      && TimeBuffer.Valid()
      && cfg.targetTime != 0
      && TimeBuffer.MaxSize == cfg.BufferSize()
    }

    ghost function Model(): State
      requires Valid()
      reads this, TimeBuffer
    {
      State(TimeBuffer.History(), LastRtc, LastTimestamp)
    }

    /** The division by the target time is the source's; it panics on zero. */
    constructor (cfg: Config, now: int)
      requires cfg.targetTime != 0
      ensures Valid() && fresh(TimeBuffer)
      ensures this.cfg == cfg && Model() == Start(cfg, now)
    {
      this.cfg := cfg;
      TimeBuffer := new RingBuffer(cfg.BufferSize());
      LastRtc := now - TruncDiv(cfg.retargetTime, 2);
      LastTimestamp := now;
    }

    method CalcNextDiff(timestamp: int, currentDiff: real) returns (newDiff: real)
      requires Valid() && Inv(cfg, Model()) && ClockOk(LastTimestamp, timestamp) && currentDiff > 0.0
      modifies this, TimeBuffer
      ensures Valid() && (Model(), newDiff) == Call(cfg, cfg.Nanos(), old(Model()), timestamp, currentDiff)
      ensures Inv(cfg, Model())
    {
      CallKeepsInv(cfg, cfg.Nanos(), Model(), timestamp, currentDiff);
      newDiff := 0.0;
      if LastRtc == 0 {
        LastRtc := timestamp - TruncDiv(cfg.retargetTime, 2);
        LastTimestamp := timestamp;
        return;
      }
      ghost var before := Model();
      var sinceLast := timestamp - LastTimestamp;
      TimeBuffer.Append(sinceLast);
      LastTimestamp := timestamp;
      var size := TimeBuffer.Size();
      if timestamp - LastRtc < cfg.retargetTime && size > 0 {
        return;
      }
      LastRtc := timestamp;
      RetargetMeanPositive(cfg, before, timestamp);
      var mean := TimeBuffer.Avg();
      var avg := mean.value;
      var adjusted;
      adjusted, newDiff := Adjust(cfg, avg, currentDiff);
      if adjusted {
        TimeBuffer.Clear();
      }
    }
  }

  /** The end of CalcNextDiff: whether the buffer is to be cleared, and the answer. */
  method Adjust(cfg: Config, avg: real, currentDiff: real) returns (adjusted: bool, newDiff: real)
    requires cfg.Valid() && avg > 0.0 && currentDiff > 0.0
    ensures adjusted <==> TooSlow(cfg, avg, currentDiff) || TooFast(cfg, avg, currentDiff)
    ensures newDiff == NextDiff(cfg, cfg.Nanos(), avg, currentDiff)
  {
    var ddiff := cfg.Nanos() / avg;
    if avg > cfg.MaxTargetTime() && currentDiff > cfg.minDiff {
      if cfg.x2Mode {
        ddiff := 0.5;
      }
      ghost var wish := ddiff;
      if ddiff * currentDiff < cfg.minDiff {
        ddiff := cfg.minDiff / currentDiff;
      }
      CutFactor(currentDiff, wish, cfg.minDiff);
    } else if avg < cfg.MinTargetTime() {
      if cfg.x2Mode {
        ddiff := 2.0;
      }
      ghost var wish := ddiff;
      var diffMax := cfg.maxDiff;
      if ddiff * currentDiff > diffMax {
        ddiff := diffMax / currentDiff;
      }
      CutFactor(currentDiff, wish, cfg.maxDiff);
    } else {
      return false, currentDiff;
    }
    newDiff := currentDiff * ddiff;
    if newDiff <= 0.0 {
      newDiff := currentDiff;
    }
    adjusted := true;
  }

  /** A factor replaced so that the product is the bound. */
  lemma CutFactor(current: real, d: real, bound: real)
    requires current > 0.0 && d > 0.0 && bound > 0.0
    ensures current * (bound / current) == bound
    ensures current * d == d * current > 0.0
  {
    Ordered(0.0, d, current);
  }

  // ---- Runs: each answer other than 0 becomes the current difficulty of the next call ----

  ghost predicate Clock(last: int, calls: seq<int>)
    decreases |calls|
  {
    calls == [] || (ClockOk(last, calls[0]) && Clock(calls[0], calls[1..]))
  }

  function Follow(current: real, answer: real): real
  {
    if answer == 0.0 then current else answer
  }

  ghost function After(cfg: Config, target: real, vd: State, current: real, calls: seq<int>): (State, real)
    requires target > 0.0
    requires Inv(cfg, vd) && Clock(vd.lastTimestamp, calls) && current > 0.0
    decreases |calls|
  {
    if calls == [] then (vd, current)
    else
      CallKeepsInv(cfg, target, vd, calls[0], current);
      AnswerPositive(cfg, target, vd, calls[0], current);
      var (next, answer) := Call(cfg, target, vd, calls[0], current);
      After(cfg, target, next, Follow(current, answer), calls[1..])
  }

  /** The answers of a run, call by call. */
  ghost function Answers(cfg: Config, target: real, vd: State, current: real, calls: seq<int>): seq<real>
    requires target > 0.0
    requires Inv(cfg, vd) && Clock(vd.lastTimestamp, calls) && current > 0.0
    decreases |calls|
  {
    if calls == [] then []
    else
      CallKeepsInv(cfg, target, vd, calls[0], current);
      AnswerPositive(cfg, target, vd, calls[0], current);
      var (next, answer) := Call(cfg, target, vd, calls[0], current);
      [answer] + Answers(cfg, target, next, Follow(current, answer), calls[1..])
  }

  lemma AnswerPositive(cfg: Config, target: real, vd: State, now: int, current: real)
    requires target > 0.0
    requires Inv(cfg, vd) && ClockOk(vd.lastTimestamp, now) && current > 0.0
    ensures Follow(current, Call(cfg, target, vd, now, current).1) > 0.0
  {
  }

  /**
   * Every run stays in range: from a difficulty in range each answer is 0 or in range again, in doubling mode
   * as coded and in the other mode with the target in seconds.
   */
  lemma {:induction false} RunStaysInRange(cfg: Config, target: real, vd: State, current: real, calls: seq<int>)
    requires Inv(cfg, vd) && Clock(vd.lastTimestamp, calls) && InRange(cfg, current)
    requires target > 0.0
    requires cfg.x2Mode || (target == cfg.Seconds() && 0.0 < cfg.variancePercent < 1.0)
    ensures forall i :: 0 <= i < |Answers(cfg, target, vd, current, calls)| ==>
              var a := Answers(cfg, target, vd, current, calls)[i]; a == 0.0 || InRange(cfg, a)
    ensures InRange(cfg, After(cfg, target, vd, current, calls).1)
    decreases |calls|
  {
    if calls != [] {
      var now := calls[0];
      CallKeepsInv(cfg, target, vd, now, current);
      var (next, answer) := Call(cfg, target, vd, now, current);
      if IsRetarget(cfg, vd, now) {
        RetargetMeanPositive(cfg, vd, now);
        var avg := Mean(Pushed(vd.gaps, cfg.BufferSize(), now - vd.lastTimestamp)).value;
        if cfg.x2Mode {
          X2StaysInRange(cfg, target, avg, current);
        } else {
          SecondsStayInRange(cfg, avg, current);
        }
      }
      RunStaysInRange(cfg, target, next, Follow(current, answer), calls[1..]);
    }
  }

  // ---- The mean is elapsed time over the number of gaps ----

  /** The kept gaps are those between the newest of the points in time seen so far. */
  ghost predicate Telescopes(vd: State, times: seq<int>)
  {
    times != [] && vd.lastTimestamp == times[|times| - 1] && NewestGaps(vd.gaps, times)
  }

  ghost predicate NewestGaps(gaps: seq<int>, times: seq<int>)
  {
    var base := |times| - 1 - |gaps|;
    base >= 0 && forall i :: 0 <= i < |gaps| ==> gaps[i] == times[base + i + 1] - times[base + i]
  }

  lemma CallTelescopes(cfg: Config, target: real, vd: State, now: int, current: real, times: seq<int>)
    requires target > 0.0
    requires Inv(cfg, vd) && ClockOk(vd.lastTimestamp, now) && current > 0.0
    requires Telescopes(vd, times)
    ensures Telescopes(Call(cfg, target, vd, now, current).0, times + [now])
  {
    CallKeepsInv(cfg, target, vd, now, current);
    GapsTelescope(vd.gaps, times, cfg.BufferSize(), now, Call(cfg, target, vd, now, current).0);
  }

  lemma GapsTelescope(gaps: seq<int>, times: seq<int>, maxSize: int, now: int, next: State)
    requires times != [] && NewestGaps(gaps, times) && next.lastTimestamp == now
    requires next.gaps == [] || next.gaps == Pushed(gaps, maxSize, now - times[|times| - 1])
    ensures Telescopes(next, times + [now])
  {
    if next.gaps != [] {
      PushedTelescopes(gaps, times, maxSize, now, now - times[|times| - 1]);
    }
  }

  lemma PushedTelescopes(gaps: seq<int>, times: seq<int>, maxSize: int, now: int, gap: int)
    requires times != [] && NewestGaps(gaps, times) && gap == now - times[|times| - 1]
    ensures NewestGaps(Pushed(gaps, maxSize, gap), times + [now])
  {
    var pushed, longer := Pushed(gaps, maxSize, gap), times + [now];
    var base, drop := |longer| - 1 - |pushed|, |gaps| + 1 - |pushed|;
    forall i | 0 <= i < |pushed|
      ensures pushed[i] == longer[base + i + 1] - longer[base + i]
    {
      if i < |pushed| - 1 {
        assert pushed[i] == gaps[drop + i];
      }
    }
  }

  /**
   * In every run from a new controller the kept gaps are exactly those between the newest points in time, so
   * their sum is the last timestamp minus the one just before the oldest gap: through full buffers and clears.
   */
  lemma {:induction false} RunTelescopes(cfg: Config, target: real, vd: State, current: real, calls: seq<int>, times: seq<int>)
    requires target > 0.0
    requires Inv(cfg, vd) && Clock(vd.lastTimestamp, calls) && current > 0.0
    requires Telescopes(vd, times)
    ensures Telescopes(After(cfg, target, vd, current, calls).0, times + calls)
    decreases |calls|
  {
    if calls == [] {
      assert times + calls == times;
    } else {
      var now := calls[0];
      CallKeepsInv(cfg, target, vd, now, current);
      AnswerPositive(cfg, target, vd, now, current);
      CallTelescopes(cfg, target, vd, now, current, times);
      var (next, answer) := Call(cfg, target, vd, now, current);
      RunTelescopes(cfg, target, next, Follow(current, answer), calls[1..], times + [now]);
      assert (times + [now]) + calls[1..] == times + calls;
    }
  }

  lemma {:induction false} NewestGapsSum(gaps: seq<int>, times: seq<int>)
    requires NewestGaps(gaps, times)
    ensures Sum(gaps) == times[|times| - 1] - times[|times| - 1 - |gaps|]
  {
    if gaps != [] {
      NewestGapsSum(gaps[1..], times);
    }
  }

  lemma StartTelescopes(cfg: Config, start: int)
    ensures Telescopes(Start(cfg, start), [start])
  {
  }

  /** So the sum over which a retarget takes its mean is the time that passed since the oldest kept gap began. */
  lemma SumIsElapsedTime(cfg: Config, target: real, start: int, current: real, calls: seq<int>)
    requires target > 0.0
    requires cfg.Valid() && Clock(start, calls) && current > 0.0
    ensures Inv(cfg, Start(cfg, start))
    ensures var vd := After(cfg, target, Start(cfg, start), current, calls).0;
            var times := [start] + calls;
            && |vd.gaps| < |times|
            && vd.lastTimestamp == times[|times| - 1]
            && Sum(vd.gaps) == vd.lastTimestamp - times[|times| - 1 - |vd.gaps|]
  {
    StartInv(cfg, start);
    StartTelescopes(cfg, start);
    RunTelescopes(cfg, target, Start(cfg, start), current, calls, [start]);
    NewestGapsSum(After(cfg, target, Start(cfg, start), current, calls).0.gaps, [start] + calls);
  }

  /** The mean of the gaps is the time that passed over the last of those points in time, divided by their number. */
  ghost predicate MeanIsElapsed(gaps: seq<int>, times: seq<int>)
  {
    var n := |gaps|;
    0 < n < |times| && Mean(gaps) == Some((times[|times| - 1] - times[|times| - 1 - n]) as real / n as real)
  }

  lemma MeanOfGaps(gaps: seq<int>, times: seq<int>)
    requires gaps != [] && NewestGaps(gaps, times)
    ensures MeanIsElapsed(gaps, times)
  {
    NewestGapsSum(gaps, times);
  }

  /**
   * And the mean a retarget works with, after any run, is elapsed time over the number of gaps: from the point
   * in time just before the oldest kept gap up to now.
   */
  lemma RetargetMeanIsElapsedTime(cfg: Config, target: real, start: int, current: real, calls: seq<int>, now: int)
    requires target > 0.0 && current > 0.0
    requires cfg.Valid() && Clock(start, calls)
    ensures Inv(cfg, Start(cfg, start))
    ensures var vd := After(cfg, target, Start(cfg, start), current, calls).0;
            MeanIsElapsed(Pushed(vd.gaps, cfg.BufferSize(), now - vd.lastTimestamp), [start] + calls + [now])
  {
    StartInv(cfg, start);
    StartTelescopes(cfg, start);
    RunTelescopes(cfg, target, Start(cfg, start), current, calls, [start]);
    var vd := After(cfg, target, Start(cfg, start), current, calls).0;
    PushedTelescopes(vd.gaps, [start] + calls, cfg.BufferSize(), now, now - vd.lastTimestamp);
    MeanOfGaps(Pushed(vd.gaps, cfg.BufferSize(), now - vd.lastTimestamp), [start] + calls + [now]);
  }

  // ---- Retargets are spaced ----

  /** The times at which a run retargets. */
  ghost function RetargetTimes(cfg: Config, target: real, vd: State, current: real, calls: seq<int>): seq<int>
    requires target > 0.0
    requires Inv(cfg, vd) && Clock(vd.lastTimestamp, calls) && current > 0.0
    decreases |calls|
  {
    if calls == [] then []
    else
      CallKeepsInv(cfg, target, vd, calls[0], current);
      AnswerPositive(cfg, target, vd, calls[0], current);
      var (next, answer) := Call(cfg, target, vd, calls[0], current);
      (if IsRetarget(cfg, vd, calls[0]) then [calls[0]] else [])
      + RetargetTimes(cfg, target, next, Follow(current, answer), calls[1..])
  }

  lemma {:induction false} RetargetsAfter(cfg: Config, target: real, vd: State, current: real, calls: seq<int>, k: nat)
    requires target > 0.0
    requires Inv(cfg, vd) && Clock(vd.lastTimestamp, calls) && current > 0.0
    requires vd.lastRtc != 0
    requires k < |RetargetTimes(cfg, target, vd, current, calls)|
    ensures RetargetTimes(cfg, target, vd, current, calls)[k] >= vd.lastRtc + cfg.retargetTime * (k + 1)
    decreases |calls|
  {
    var now := calls[0];
    CallKeepsInv(cfg, target, vd, now, current);
    AnswerPositive(cfg, target, vd, now, current);
    var (next, answer) := Call(cfg, target, vd, now, current);
    var times := RetargetTimes(cfg, target, vd, current, calls);
    var later := RetargetTimes(cfg, target, next, Follow(current, answer), calls[1..]);
    var r := cfg.retargetTime;
    if !IsRetarget(cfg, vd, now) {
      assert times == later;
      RetargetsAfter(cfg, target, next, Follow(current, answer), calls[1..], k);
    } else {
      assert times == [now] + later;
      assert now >= vd.lastRtc + r;
      assert r * (k + 1) == r * k + r;
      if k > 0 {
        RetargetsAfter(cfg, target, next, Follow(current, answer), calls[1..], k - 1);
        assert later[k - 1] >= now + r * (k - 1 + 1);
      }
    }
  }

  /** Any two retargets of a run are at least as many retarget times apart as their numbers differ by. */
  lemma {:induction false} RetargetsAreSpaced(cfg: Config, target: real, vd: State, current: real, calls: seq<int>, i: nat, j: nat)
    requires target > 0.0
    requires Inv(cfg, vd) && Clock(vd.lastTimestamp, calls) && current > 0.0
    requires i < j < |RetargetTimes(cfg, target, vd, current, calls)|
    ensures RetargetTimes(cfg, target, vd, current, calls)[j]
         >= RetargetTimes(cfg, target, vd, current, calls)[i] + cfg.retargetTime * (j - i)
    decreases |calls|
  {
    var now := calls[0];
    CallKeepsInv(cfg, target, vd, now, current);
    AnswerPositive(cfg, target, vd, now, current);
    var (next, answer) := Call(cfg, target, vd, now, current);
    var current' := Follow(current, answer);
    if !IsRetarget(cfg, vd, now) {
      RetargetsAreSpaced(cfg, target, next, current', calls[1..], i, j);
    } else if i == 0 {
      RetargetsAfter(cfg, target, next, current', calls[1..], j - 1);
    } else {
      RetargetsAreSpaced(cfg, target, next, current', calls[1..], i - 1, j - 1);
    }
  }
}
