/**
  The per-connection latency estimate. Every ping the transport sends records
  its send time as `lastPing`; every pong sets the connection's latency to half
  the time elapsed since then, capped at the configured `maxDelay`. Timestamps
  are integer milliseconds (`Date.now()`); the estimate is kept exact.
 */
module Latency {
  import opened Base

  /** The estimate a pong received at `now` produces, given the last ping time. */
  function PongLatency(now: int, lastPing: int, maxDelay: real): (latency: real)
    ensures latency <= maxDelay
    ensures 2.0 * latency <= (now - lastPing) as real
    ensures latency == maxDelay || 2.0 * latency == (now - lastPing) as real
  {
    Min((now - lastPing) as real / 2.0, maxDelay)
  }

  /** The estimate is non-negative exactly when the clock did not step back
      between ping and pong and the cap itself is non-negative: nothing clamps
      it from below. */
  lemma PongLatencyNonNegativeIff(now: int, lastPing: int, maxDelay: real)
    ensures 0.0 <= PongLatency(now, lastPing, maxDelay) <==> lastPing <= now && 0.0 <= maxDelay
  {
  }

  /** The cap is reached exactly when the round trip took at least twice `maxDelay`. */
  lemma PongLatencyCappedIff(now: int, lastPing: int, maxDelay: real)
    ensures PongLatency(now, lastPing, maxDelay) == maxDelay <==> 2.0 * maxDelay <= (now - lastPing) as real
  {
  }

  /** A pong that arrives before any ping was recorded measures from the initial
      `lastPing` of 0, so once the clock reads at least `2 * maxDelay` the
      estimate is the cap rather than being left alone. */
  lemma PongBeforeAnyPing(now: int, maxDelay: real)
    requires 2.0 * maxDelay <= now as real
    ensures PongLatency(now, 0, maxDelay) == maxDelay
  {
  }
}
