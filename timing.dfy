/**
 * The one clock computation shared by the round and the countdown services:
 * whole seconds left until a deadline, `Math.max(0, Math.floor((endMs - nowMs) / 1000))`.
 * Both derive it from stored timestamps and the caller's clock reading, never
 * from a decremented counter.
 */
module Timing {

  const MsPerSecond: int := 1000

  /**
   * Whole seconds from nowMs to endMs, 0 once fewer than 1000 ms remain.
   * Dafny's `/` with a positive divisor rounds toward negative infinity, as
   * `Math.floor` does.
   */
  function SecondsUntil(endMs: int, nowMs: int): (r: nat)
    ensures r == 0 <==> endMs - nowMs < MsPerSecond
    ensures r > 0 ==> r * MsPerSecond <= endMs - nowMs < (r + 1) * MsPerSecond
  {
    var q := (endMs - nowMs) / MsPerSecond;
    if q < 0 then 0 else q
  }

  /** A later clock reading never shows more seconds left. */
  lemma SecondsUntilAntitone(endMs: int, t1: int, t2: int)
    requires t1 <= t2
    ensures SecondsUntil(endMs, t2) <= SecondsUntil(endMs, t1)
  {
  }

  /** At the instant a window of `durationSec` seconds opens, exactly that many seconds are left. */
  lemma SecondsUntilFullWindow(startMs: int, durationSec: nat)
    ensures SecondsUntil(startMs + durationSec * MsPerSecond, startMs) == durationSec
  {
  }
}
