/**
 * The stand-alone countdown (`CountdownService` in server/countdown-service.ts):
 * a start timestamp restored from disk or set on first run, a fixed duration,
 * and the end and remaining time derived from them.
 */
module Countdown {
  import opened Schema
  import Timing

  /**
   * What `loadOrInitialize` finds: no file, a file that does not parse, or a
   * parsed record whose `startTimestampMs` is a number (Some) or is not (None).
   */
  datatype SavedStart = NoFile | Unreadable | Saved(startTimestampMs: Option<int>)

  /** A restored start is used only when it is a number greater than 0. */
  predicate Acceptable(saved: SavedStart) {
    saved.Saved? && saved.startTimestampMs.Some? && saved.startTimestampMs.value > 0
  }

  class CountdownService {
    const durationSeconds: int
    var startTimestampMs: int

    /** Construction runs `loadOrInitialize`: keep an acceptable saved start, else start at `now`. */
    constructor (durationSeconds: int, saved: SavedStart, now: int)
      ensures this.durationSeconds == durationSeconds
      ensures Acceptable(saved) ==> startTimestampMs == saved.startTimestampMs.value
      ensures !Acceptable(saved) ==> startTimestampMs == now
    {
      this.durationSeconds := durationSeconds;
      if saved.Saved? && saved.startTimestampMs.Some? && saved.startTimestampMs.value > 0 {
        startTimestampMs := saved.startTimestampMs.value;
      } else {
        startTimestampMs := now;
      }
    }

    function GetEndTimestampMs(): int
      reads this
    {
      startTimestampMs + durationSeconds * Timing.MsPerSecond
    }

    function GetRemainingSeconds(nowMs: int): (r: nat)
      reads this
      ensures r == 0 <==> GetEndTimestampMs() - nowMs < Timing.MsPerSecond
      ensures r > 0 ==> r * Timing.MsPerSecond <= GetEndTimestampMs() - nowMs < (r + 1) * Timing.MsPerSecond
    {
      Timing.SecondsUntil(GetEndTimestampMs(), nowMs)
    }

    /** Seconds left never grow as the clock advances. */
    lemma RemainingAntitone(t1: int, t2: int)
      requires t1 <= t2
      ensures GetRemainingSeconds(t2) <= GetRemainingSeconds(t1)
    {
      Timing.SecondsUntilAntitone(GetEndTimestampMs(), t1, t2);
    }

    /** At its start instant the countdown shows its whole duration. */
    lemma FullAtStart()
      requires durationSeconds >= 0
      ensures GetRemainingSeconds(startTimestampMs) == durationSeconds
      ensures GetEndTimestampMs() - startTimestampMs == durationSeconds * Timing.MsPerSecond
    {
      Timing.SecondsUntilFullWindow(startTimestampMs, durationSeconds);
    }

    /** Restarts the countdown at `nowMs`; the duration is fixed for the object's life. */
    method ResetStart(nowMs: int)
      modifies this
      ensures startTimestampMs == nowMs
      ensures durationSeconds >= 0 ==> GetRemainingSeconds(nowMs) == durationSeconds
    {
      startTimestampMs := nowMs;
      if durationSeconds >= 0 {
        FullAtStart();
      }
    }
  }
}
