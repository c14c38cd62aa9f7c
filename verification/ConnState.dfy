/** The state word of a connection: a time and a state packed into one 64-bit number, read and written atomically. */
module ConnStates {
  datatype ConnState = StateNew | StateActive | StateIdle | StateClosed
  {
    function Code(): (c: nat)
      ensures c < 4
    {
      match this
      case StateNew => 0
      case StateActive => 1
      case StateIdle => 2
      case StateClosed => 3
    }
  }

  const WORDS := 0x1_0000_0000_0000_0000
  const TIMES := 0x100_0000_0000_0000

  /** uint64(unixSec<<8) | uint64(state): the shift drops the top byte and the low byte is free for the state. */
  function Pack(unixSec: int, state: ConnState): (word: nat)
    ensures word < WORDS
  {
    (unixSec * 256) % WORDS + state.Code()
  }

  /** The code and the time of a word. A word never written, 0, reads as new at time 0. */
  function Unpack(word: nat): (nat, nat)
  {
    (word % 256, word / 256)
  }

  /** The state always comes back; the time does so exactly for seconds from 0 up to 2^56. */
  lemma PackRoundTrip(unixSec: int, state: ConnState)
    ensures Unpack(Pack(unixSec, state)).0 == state.Code()
    ensures Unpack(Pack(unixSec, state)).1 == unixSec % TIMES
    ensures Unpack(Pack(unixSec, state)).1 == unixSec <==> 0 <= unixSec < TIMES
  {
    var q, r := unixSec / TIMES, unixSec % TIMES;
    assert unixSec * 256 == q * WORDS + r * 256;
    ModUnique(unixSec * 256, WORDS, q, r * 256);
  }

  /** The words of the four states, for every such time. */
  lemma WordsOfStates(t: int)
    requires 0 <= t < TIMES
    ensures Pack(t, StateNew) == 256 * t && Pack(t, StateActive) == 256 * t + 1
    ensures Pack(t, StateIdle) == 256 * t + 2 && Pack(t, StateClosed) == 256 * t + 3
  {
    ModUnique(t * 256, WORDS, 0, t * 256);
  }

  lemma ModUnique(x: int, m: int, q: int, r: int)
    requires 0 <= r < m && x == q * m + r
    ensures x % m == r
  {
    var d := x / m - q;
    assert d * m == r - x % m;
    MulBound(d, m);
  }

  lemma MulBound(d: int, m: int)
    requires m > 0
    ensures d >= 1 ==> d * m >= m
    ensures d <= -1 ==> d * m <= -m
  {
    if d >= 1 {
      assert (d - 1) * m >= 0;
    } else if d <= -1 {
      assert (-1 - d) * m >= 0;
    }
  }

  /** What closeIdleConns makes of a word: idle, or new and over five seconds old; but never a word not yet written. */
  predicate Doomed(word: nat, now: int)
  {
    var (code, unixSec) := Unpack(word);
    var st := if code == StateNew.Code() && unixSec < now - 5 then StateIdle.Code() else code;
    st == StateIdle.Code() && unixSec != 0
  }

  /** In terms of what was stored: the decision is the one meant for that time and state. */
  lemma DoomedMeans(unixSec: int, state: ConnState, now: int)
    requires 0 < unixSec < TIMES
    ensures Doomed(Pack(unixSec, state), now) <==> state.StateIdle? || (state.StateNew? && unixSec < now - 5)
  {
    PackRoundTrip(unixSec, state);
  }

  lemma UnwrittenWordIsKept(now: int)
    ensures !Doomed(0, now)
  {
  }
}
