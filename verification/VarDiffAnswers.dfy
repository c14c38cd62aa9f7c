/** When the controller retargets and what it answers then, said with times, means and bounds alone. */
module VarDiffAnswers {
  import opened RingBuffers
  import opened VarDiffs

  // ---- When: every run of a new controller ----

  /** Greedily from a due time on: the first call at or after it, then the first one `retarget` later, and so on. */
  function DueTimes(calls: seq<int>, due: int, retarget: int): seq<int>
  {
    if calls == [] then []
    else if calls[0] >= due then [calls[0]] + DueTimes(calls[1..], calls[0] + retarget, retarget)
    else DueTimes(calls[1..], due, retarget)
  }

  /**
   * The same for a controller created at `start`, whose first retarget is due half a retarget time later, the half
   * rounded up. The source takes a last retarget at time 0 for none: a controller created at half a retarget
   * time counts as created by its first call.
   */
  function DueFrom(calls: seq<int>, start: int, retarget: int): seq<int>
    decreases |calls|
  {
    if calls != [] && start == retarget / 2 then DueFrom(calls[1..], calls[0], retarget)
    else DueTimes(calls, start + retarget - retarget / 2, retarget)
  }

  /** The times of the calls with an answer other than 0. */
  function Answered(calls: seq<int>, answers: seq<real>): seq<int>
    requires |calls| == |answers|
  {
    if calls == [] then []
    else (if answers[0] != 0.0 then [calls[0]] else []) + Answered(calls[1..], answers[1..])
  }

  lemma NextDiffNotZero(cfg: Config, target: real, avg: real, current: real)
    requires cfg.Valid() && target > 0.0 && avg > 0.0 && current > 0.0
    ensures NextDiff(cfg, target, avg, current) > 0.0
  {
    Ordered(0.0, Wish(cfg, target, avg, current), current);
  }

  /** A call answers something other than 0 exactly if it is a retarget. */
  lemma AnswersIffRetarget(cfg: Config, target: real, vd: State, now: int, current: real)
    requires target > 0.0 && Inv(cfg, vd) && ClockOk(vd.lastTimestamp, now) && current > 0.0
    ensures Call(cfg, target, vd, now, current).1 != 0.0 <==> vd.lastRtc != 0 && now >= vd.lastRtc + cfg.retargetTime
  {
    if IsRetarget(cfg, vd, now) {
      RetargetMeanPositive(cfg, vd, now);
      NextDiffNotZero(cfg, target, Mean(Pushed(vd.gaps, cfg.BufferSize(), now - vd.lastTimestamp)).value, current);
    }
  }

  /** From a last retarget on, the answers come greedily one retarget time apart. */
  lemma {:induction false} AnswersAreDue(cfg: Config, target: real, vd: State, current: real, calls: seq<int>)
    requires target > 0.0 && Inv(cfg, vd) && Clock(vd.lastTimestamp, calls) && current > 0.0 && vd.lastRtc != 0
    ensures |Answers(cfg, target, vd, current, calls)| == |calls|
    ensures Answered(calls, Answers(cfg, target, vd, current, calls))
         == DueTimes(calls, vd.lastRtc + cfg.retargetTime, cfg.retargetTime)
    decreases |calls|
  {
    if calls != [] {
      var now := calls[0];
      CallKeepsInv(cfg, target, vd, now, current);
      AnswerPositive(cfg, target, vd, now, current);
      AnswersIffRetarget(cfg, target, vd, now, current);
      var (next, answer) := Call(cfg, target, vd, now, current);
      AnswersAreDue(cfg, target, next, Follow(current, answer), calls[1..]);
      assert Answers(cfg, target, vd, current, calls)[1..] == Answers(cfg, target, next, Follow(current, answer), calls[1..]);
    }
  }

  /** A controller created at half a retarget time is set up anew by its first call. */
  lemma SetUpCall(cfg: Config, target: real, start: int, current: real, calls: seq<int>)
    requires target > 0.0 && cfg.Valid() && Clock(start, calls) && current > 0.0
    requires start == cfg.retargetTime / 2 && calls != []
    ensures Inv(cfg, Start(cfg, start)) && Inv(cfg, Start(cfg, calls[0]))
    ensures Answers(cfg, target, Start(cfg, start), current, calls)
         == [0.0] + Answers(cfg, target, Start(cfg, calls[0]), current, calls[1..])
  {
    StartInv(cfg, start);
    StartInv(cfg, calls[0]);
    assert Call(cfg, target, Start(cfg, start), calls[0], current) == (Start(cfg, calls[0]), 0.0);
  }

  /**
   * A new controller answers exactly at the due times: first at the first call that comes at least
   * retargetTime - retargetTime / 2 seconds after its creation, and then at the first call one retarget time after
   * each answer, whatever the shares and difficulties are.
   */
  lemma {:induction false} NewControllerAnswersWhenDue(cfg: Config, target: real, start: int, current: real, calls: seq<int>)
    requires target > 0.0 && cfg.Valid() && Clock(start, calls) && current > 0.0
    ensures Inv(cfg, Start(cfg, start))
    ensures |Answers(cfg, target, Start(cfg, start), current, calls)| == |calls|
    ensures Answered(calls, Answers(cfg, target, Start(cfg, start), current, calls))
         == DueFrom(calls, start, cfg.retargetTime)
    decreases |calls|
  {
    StartInv(cfg, start);
    var vd := Start(cfg, start);
    if vd.lastRtc != 0 {
      AnswersAreDue(cfg, target, vd, current, calls);
    } else if calls != [] {
      SetUpCall(cfg, target, start, current, calls);
      NewControllerAnswersWhenDue(cfg, target, calls[0], current, calls[1..]);
      var others := Answers(cfg, target, Start(cfg, calls[0]), current, calls[1..]);
      assert ([0.0] + others)[1..] == others;
    }
  }

  lemma {:induction false} RetargetsAreDue(cfg: Config, target: real, vd: State, current: real, calls: seq<int>)
    requires target > 0.0 && Inv(cfg, vd) && Clock(vd.lastTimestamp, calls) && current > 0.0
    ensures |Answers(cfg, target, vd, current, calls)| == |calls|
    ensures RetargetTimes(cfg, target, vd, current, calls) == Answered(calls, Answers(cfg, target, vd, current, calls))
    decreases |calls|
  {
    if calls != [] {
      var now := calls[0];
      CallKeepsInv(cfg, target, vd, now, current);
      AnswerPositive(cfg, target, vd, now, current);
      AnswersIffRetarget(cfg, target, vd, now, current);
      var (next, answer) := Call(cfg, target, vd, now, current);
      RetargetsAreDue(cfg, target, next, Follow(current, answer), calls[1..]);
      assert Answers(cfg, target, vd, current, calls)[1..] == Answers(cfg, target, next, Follow(current, answer), calls[1..]);
    }
  }

  /** The same said of the times at which it retargets. */
  lemma NewControllerRetargetsWhenDue(cfg: Config, target: real, start: int, current: real, calls: seq<int>)
    requires target > 0.0 && cfg.Valid() && Clock(start, calls) && current > 0.0
    ensures Inv(cfg, Start(cfg, start))
    ensures RetargetTimes(cfg, target, Start(cfg, start), current, calls) == DueFrom(calls, start, cfg.retargetTime)
  {
    NewControllerAnswersWhenDue(cfg, target, start, current, calls);
    RetargetsAreDue(cfg, target, Start(cfg, start), current, calls);
  }

  lemma {:induction false} FirstDue(calls: seq<int>, due: int, retarget: int, k: nat)
    requires k < |calls| && calls[k] >= due && forall i :: 0 <= i < k ==> calls[i] < due
    ensures DueTimes(calls, due, retarget) != [] && DueTimes(calls, due, retarget)[0] == calls[k]
    decreases k
  {
    if k > 0 {
      FirstDue(calls[1..], due, retarget, k - 1);
    }
  }

  lemma FirstDueFrom(calls: seq<int>, start: int, retarget: int, k: nat)
    requires start != retarget / 2 && k < |calls| && calls[k] - start >= retarget - retarget / 2
    requires forall i :: 0 <= i < k ==> calls[i] - start < retarget - retarget / 2
    ensures DueFrom(calls, start, retarget) != [] && DueFrom(calls, start, retarget)[0] == calls[k]
  {
    FirstDue(calls, start + retarget - retarget / 2, retarget, k);
  }

  /** The first retarget of a new controller is at the first call half a retarget time after its creation, if there is one. */
  lemma FirstRetarget(cfg: Config, target: real, start: int, current: real, calls: seq<int>, k: nat)
    requires target > 0.0 && cfg.Valid() && Clock(start, calls) && current > 0.0
    requires start != cfg.retargetTime / 2 && k < |calls|
    requires calls[k] - start >= cfg.retargetTime - cfg.retargetTime / 2
    requires forall i :: 0 <= i < k ==> calls[i] - start < cfg.retargetTime - cfg.retargetTime / 2
    ensures Inv(cfg, Start(cfg, start))
    ensures var times := RetargetTimes(cfg, target, Start(cfg, start), current, calls); times != [] && times[0] == calls[k]
  {
    FirstDueFrom(calls, start, cfg.retargetTime, k);
    NewControllerRetargetsWhenDue(cfg, target, start, current, calls);
  }

  // ---- What: one retarget ----

  /**
   * The two bounds of the mean stand around the target time, at the variance's distance on either side. What the
   * source divides by the mean is 10^9 times the target time.
   */
  lemma BoundsStand(cfg: Config)
    ensures cfg.Nanos() == 1_000_000_000.0 * cfg.targetTime as real
    ensures cfg.MaxTargetTime() - cfg.targetTime as real == cfg.targetTime as real * cfg.variancePercent
    ensures cfg.targetTime as real - cfg.MinTargetTime() == cfg.targetTime as real * cfg.variancePercent
  {
  }

  /** The buffer holds four times the number of whole target times in a retarget time. */
  lemma BufferHoldsFourRetargets(cfg: Config)
    requires cfg.Valid()
    ensures cfg.BufferSize() % 4 == 0
    ensures cfg.BufferSize() * cfg.targetTime <= 4 * cfg.retargetTime < (cfg.BufferSize() + 4) * cfg.targetTime
  {
    var q, r := cfg.retargetTime / cfg.targetTime, cfg.retargetTime % cfg.targetTime;
    assert cfg.retargetTime == q * cfg.targetTime + r && 0 <= r < cfg.targetTime;
    FourTimes(cfg.retargetTime, cfg.targetTime, q, r);
  }

  lemma FourTimes(retarget: int, target: int, q: int, r: int)
    requires retarget == q * target + r && 0 <= r < target
    ensures (q * 4) * target <= 4 * retarget < (q * 4 + 4) * target
  {
    assert (q * 4) * target == 4 * (q * target);
    assert (q * 4 + 4) * target == 4 * (q * target) + 4 * target;
  }

  /**
   * In doubling mode: half the difficulty on slow shares, but no less than the minimum; twice as much on fast ones,
   * but no more than the maximum; and the same one otherwise. At the minimum, slow shares change nothing.
   */
  lemma DoublingAnswers(cfg: Config, target: real, avg: real, current: real)
    requires cfg.Valid() && cfg.x2Mode && target > 0.0 && avg > 0.0 && InRange(cfg, current)
    ensures avg > cfg.MaxTargetTime() && current > cfg.minDiff && current >= 2.0 * cfg.minDiff ==>
              2.0 * NextDiff(cfg, target, avg, current) == current
    ensures avg > cfg.MaxTargetTime() && current > cfg.minDiff && current < 2.0 * cfg.minDiff ==>
              NextDiff(cfg, target, avg, current) == cfg.minDiff
    ensures !(avg > cfg.MaxTargetTime() && current > cfg.minDiff) && avg < cfg.MinTargetTime() ==>
              NextDiff(cfg, target, avg, current) == if 2.0 * current <= cfg.maxDiff then current + current else cfg.maxDiff
    ensures !(avg > cfg.MaxTargetTime() && current > cfg.minDiff) && avg >= cfg.MinTargetTime() ==>
              NextDiff(cfg, target, avg, current) == current
  {
  }

  /**
   * In the other mode: the difficulty that brings the mean to the target, that is, answer times mean is target times
   * current difficulty; cut off at the minimum on slow shares, at the maximum on fast ones, and nowhere else.
   */
  lemma RatioAnswers(cfg: Config, target: real, avg: real, current: real)
    requires cfg.Valid() && !cfg.x2Mode && target > 0.0 && avg > 0.0 && InRange(cfg, current)
    ensures var next := NextDiff(cfg, target, avg, current);
            && (avg > cfg.MaxTargetTime() && current > cfg.minDiff ==>
                  if target * current < cfg.minDiff * avg then next == cfg.minDiff else next * avg == target * current)
            && (!(avg > cfg.MaxTargetTime() && current > cfg.minDiff) && avg < cfg.MinTargetTime() ==>
                  if target * current > cfg.maxDiff * avg then next == cfg.maxDiff else next * avg == target * current)
            && (!(avg > cfg.MaxTargetTime() && current > cfg.minDiff) && avg >= cfg.MinTargetTime() ==> next == current)
  {
    Rescaled(target, avg, current, cfg.minDiff);
    Rescaled(target, avg, current, cfg.maxDiff);
    assert TooSlow(cfg, avg, current) <==> avg > cfg.MaxTargetTime() && current > cfg.minDiff;
  }

  lemma Rescaled(target: real, avg: real, current: real, bound: real)
    requires target > 0.0 && avg > 0.0 && current > 0.0
    ensures target / avg * current * avg == target * current
    ensures target / avg * current < bound <==> target * current < bound * avg
    ensures target / avg * current > bound <==> target * current > bound * avg
  {
    Quotient(target, avg, current, bound);
    var q := target / avg;
    assert q * avg == target;
    assert q * current * avg == (q * avg) * current;
  }

  /** A retarget forgets the samples exactly if their mean lies outside the bounds, except for slow shares at the minimum. */
  lemma ClearsIffOutside(cfg: Config, target: real, vd: State, now: int, current: real)
    requires target > 0.0 && Inv(cfg, vd) && ClockOk(vd.lastTimestamp, now) && current > 0.0 && vd.lastRtc != 0
    ensures var gaps := Pushed(vd.gaps, cfg.BufferSize(), now - vd.lastTimestamp);
            var next := Call(cfg, target, vd, now, current).0;
            && (now < vd.lastRtc + cfg.retargetTime ==> next.gaps == gaps)
            && (now >= vd.lastRtc + cfg.retargetTime ==>
                  && Mean(gaps).Some?
                  && var avg := Mean(gaps).value;
                     next.gaps == if (avg > cfg.MaxTargetTime() && current > cfg.minDiff) || avg < cfg.MinTargetTime() then [] else gaps)
  {
  }
}
