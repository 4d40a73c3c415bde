/** The time to the next health check: an exponential backoff with jitter, in nanoseconds, in exact
    arithmetic and with the random draw as a parameter. */
module Backoffs {
  import opened Common
  import opened HealthChecks

  datatype Backoff = Backoff(duration: int, factor: real, jitter: real)

  const SECOND := 1_000_000_000
  const DEFAULT_BACKOFF := Backoff(60 * SECOND, 2.0, 0.1)

  /** The backoff of a health server that was asked to check every `interval`. */
  function Configured(interval: int): Backoff {
    if interval > 0 then Backoff(interval, 2.0, 0.1) else DEFAULT_BACKOFF
  }

  function Pow(factor: real, n: nat): real {
    if n == 0 then 1.0 else factor * Pow(factor, n - 1)
  }

  /** Conversion to an integer, toward zero. */
  function Truncated(x: real): int {
    if x >= 0.0 then x.Floor else -(-x).Floor
  }

  function Raw(b: Backoff, attempt: nat): real {
    b.duration as real * Pow(b.factor, attempt)
  }

  function Base(b: Backoff, attempt: nat): int {
    Truncated(Raw(b, attempt) * (1.0 - b.jitter))
  }

  /** The random part is drawn from 0 up to this bound; drawing panics if it is not positive. */
  function JitterRange(b: Backoff, attempt: nat): int {
    Truncated(2.0 * b.jitter * Raw(b, attempt))
  }

  /** None if the code would panic; `draw` is what the generator gives. */
  function NextBackoff(b: Backoff, attempt: int, draw: nat): Option<int> {
    if attempt < 0 then Some(0)
    else if JitterRange(b, attempt) <= 0 then None
    else Some(Base(b, attempt) + draw)
  }

  function NextCheckTime(b: Backoff, h: Health, maxBackoff: int, draw: nat): Option<int> {
    match NextBackoff(b, h.attempt, draw)
    case None => None
    case Some(t) => Some(if t > maxBackoff then maxBackoff else t)
  }

  /** A value the generator can give in this state. */
  predicate Drawable(b: Backoff, h: Health, draw: nat) {
    h.attempt >= 0 ==> draw < JitterRange(b, h.attempt)
  }

  // ---------------------------------------------------------------- one step

  predicate Sensible(b: Backoff) {
    b.duration > 0 && b.factor >= 1.0 && 0.0 < b.jitter < 1.0
  }

  lemma {:induction false} PowAtLeastOne(factor: real, n: nat)
    requires factor >= 1.0
    ensures Pow(factor, n) >= 1.0
  {
    if n > 0 {
      PowAtLeastOne(factor, n - 1);
      AtLeastProduct(factor, Pow(factor, n - 1));
    }
  }

  lemma AtLeastProduct(x: real, y: real)
    requires x >= 1.0 && y >= 1.0
    ensures x * y >= y
  {
    assert (x - 1.0) * y >= 0.0;
  }

  lemma RawAtLeastDuration(b: Backoff, attempt: nat)
    requires Sensible(b)
    ensures Raw(b, attempt) >= b.duration as real
  {
    PowAtLeastOne(b.factor, attempt);
    assert b.duration as real * (Pow(b.factor, attempt) - 1.0) >= 0.0;
  }

  lemma Parts(raw: real, jitter: real)
    requires raw >= 0.0 && 0.0 < jitter < 1.0
    ensures (1.0 - jitter) * raw >= 0.0 && 2.0 * jitter * raw >= 0.0
    ensures raw * (1.0 - jitter) == (1.0 - jitter) * raw
    ensures (1.0 - jitter) * raw + 2.0 * jitter * raw == (1.0 + jitter) * raw
  {
  }

  /** The undisturbed backoff less, and plus, the jitter. */
  function Shortest(b: Backoff, attempt: nat): real {
    (1.0 - b.jitter) * Raw(b, attempt)
  }

  function Longest(b: Backoff, attempt: nat): real {
    (1.0 + b.jitter) * Raw(b, attempt)
  }

  lemma Rounding(low: real, wide: real, draw: nat)
    requires low >= 0.0 && wide >= 0.0 && draw < Truncated(wide)
    ensures low - 1.0 < (Truncated(low) + draw) as real <= low + wide - 1.0
  {
  }

  /** The backoff differs from the undisturbed one by less than the jitter, up to the truncation. */
  lemma WithinJitter(b: Backoff, attempt: nat, draw: nat)
    requires Sensible(b) && draw < JitterRange(b, attempt)
    ensures NextBackoff(b, attempt, draw).Some?
    ensures var t := NextBackoff(b, attempt, draw).value as real;
            Shortest(b, attempt) - 1.0 < t <= Longest(b, attempt) - 1.0
  {
    hide Raw, Truncated;
    var raw := Raw(b, attempt);
    RawAtLeastDuration(b, attempt);
    Parts(raw, b.jitter);
    Rounding((1.0 - b.jitter) * raw, 2.0 * b.jitter * raw, draw);
  }

  /** If the factor outweighs the jitter, every later attempt waits longer than every earlier one,
      whatever is drawn. */
  lemma LongerThanBefore(b: Backoff, attempt: nat, draw: nat, later: nat)
    requires Sensible(b) && b.factor * (1.0 - b.jitter) >= 1.0 + b.jitter
    requires draw < JitterRange(b, attempt) && later < JitterRange(b, attempt + 1)
    ensures NextBackoff(b, attempt, draw).Some? && NextBackoff(b, attempt + 1, later).Some?
    ensures NextBackoff(b, attempt, draw).value < NextBackoff(b, attempt + 1, later).value
  {
    hide Shortest, Longest, JitterRange, NextBackoff;
    WithinJitter(b, attempt, draw);
    WithinJitter(b, attempt + 1, later);
    ShortestAboveLongest(b, attempt);
  }

  lemma ShortestAboveLongest(b: Backoff, attempt: nat)
    requires Sensible(b) && b.factor * (1.0 - b.jitter) >= 1.0 + b.jitter
    ensures Shortest(b, attempt + 1) >= Longest(b, attempt)
  {
    hide Raw;
    RawAtLeastDuration(b, attempt);
    RawGrows(b, attempt);
    FactorOutweighs(Raw(b, attempt), Raw(b, attempt + 1), b.factor, b.jitter);
  }

  lemma FactorOutweighs(raw: real, next: real, factor: real, jitter: real)
    requires raw >= 0.0 && factor * (1.0 - jitter) >= 1.0 + jitter && next == factor * raw
    ensures (1.0 - jitter) * next >= (1.0 + jitter) * raw
  {
    var gain := factor * (1.0 - jitter);
    assert (1.0 - jitter) * (factor * raw) == gain * raw;
    Monotone(1.0 + jitter, gain, raw);
  }

  lemma Monotone(x: real, y: real, raw: real)
    requires x <= y && raw >= 0.0
    ensures x * raw <= y * raw
  {
    assert (y - x) * raw >= 0.0;
  }

  lemma RawGrows(b: Backoff, attempt: nat)
    ensures Raw(b, attempt + 1) == b.factor * Raw(b, attempt)
  {
    var d, p := b.duration as real, Pow(b.factor, attempt);
    assert d * (b.factor * p) == b.factor * (d * p);
  }

  // ---------------------------------------------------------------- health servers

  /** With the jitter of a health server, some attempt cannot draw exactly if the base is below 5ns. */
  lemma DrawsIffAtLeastFive(interval: int)
    ensures (forall attempt: nat :: JitterRange(Configured(interval), attempt) > 0) <==> interval <= 0 || interval >= 5
  {
    var b := Configured(interval);
    if b.duration >= 5 {
      forall attempt: nat ensures JitterRange(b, attempt) > 0 {
        RawAtLeastDuration(b, attempt);
      }
    } else {
      assert Pow(b.factor, 0) == 1.0;
      assert JitterRange(b, 0) <= 0;
    }
  }

  /** In every state that checks can lead to, the next check is in the future and within the cap. */
  lemma NextCheckIsSoon(interval: int, h: Health, answers: seq<bool>, maxBackoff: int, draw: nat)
    requires interval <= 0 || interval >= 5
    requires Tracks(h, answers) && maxBackoff > 0 && Drawable(Configured(interval), h, draw)
    ensures NextCheckTime(Configured(interval), h, maxBackoff, draw).Some?
    ensures 0 < NextCheckTime(Configured(interval), h, maxBackoff, draw).value <= maxBackoff
  {
    var b := Configured(interval);
    DrawsIffAtLeastFive(interval);
    RawAtLeastDuration(b, h.attempt);
    WithinJitter(b, h.attempt, draw);
  }

  /** A failed check never shortens the wait, whatever is drawn before and after it. */
  lemma FailureNeverShortensWait(interval: int, h: Health, answers: seq<bool>, error: string, maxBackoff: int,
                                 draw: nat, later: nat)
    requires interval <= 0 || interval >= 5
    requires Tracks(h, answers) && !Exhausted(h) && maxBackoff > 0
    requires Drawable(Configured(interval), h, draw)
    requires Drawable(Configured(interval), AfterCheck(h, Some(error)), later)
    ensures var before := NextCheckTime(Configured(interval), h, maxBackoff, draw);
            var after := NextCheckTime(Configured(interval), AfterCheck(h, Some(error)), maxBackoff, later);
            before.Some? && after.Some? && before.value <= after.value
            && (before.value < maxBackoff ==> before.value < after.value)
  {
    DrawsIffAtLeastFive(interval);
    LongerThanBefore(Configured(interval), h.attempt, draw, later);
  }

  // ---------------------------------------------------------------- the wait in whole nanoseconds

  const DEFAULT_INTERVAL := 60_000_000_000

  /** `d` doubled `n` times. */
  function Doubled(d: int, n: nat): int {
    if n == 0 then d else 2 * Doubled(d, n - 1)
  }

  function Interval(interval: int): int {
    if interval > 0 then interval else DEFAULT_INTERVAL
  }

  lemma {:induction false} RawIsDoubled(interval: int, n: nat)
    ensures Raw(Configured(interval), n) == Doubled(Interval(interval), n) as real
    ensures Doubled(Interval(interval), n) > 0
  {
    if n > 0 {
      RawIsDoubled(interval, n - 1);
      RawGrows(Configured(interval), n - 1);
    } else {
      assert Pow(2.0, 0) == 1.0;
    }
  }

  lemma TruncatedParts(x: nat)
    ensures Truncated(x as real * (1.0 - 0.1)) == 9 * x / 10
    ensures Truncated(2.0 * 0.1 * x as real) == x / 5
  {
    var q, p := 9 * x / 10, x / 5;
    assert 10 * q <= 9 * x < 10 * q + 10 && 5 * p <= x < 5 * p + 5;
    assert q as real <= x as real * 0.9 < q as real + 1.0;
    assert p as real <= 0.2 * x as real < p as real + 1.0;
  }

  /** After `n` failures in a row the wait is nine tenths of the interval doubled `n` times, plus a
      draw below a fifth of it, or the cap if that is less. */
  lemma WaitIs(interval: int, h: Health, answers: seq<bool>, maxBackoff: int, draw: nat)
    requires Tracks(h, answers) && (interval <= 0 || interval >= 5)
    ensures var x := Doubled(Interval(interval), TrailingFailures(answers));
            && (Drawable(Configured(interval), h, draw) <==> draw < x / 5)
            && NextCheckTime(Configured(interval), h, maxBackoff, draw) ==
               Some(if 9 * x / 10 + draw > maxBackoff then maxBackoff else 9 * x / 10 + draw)
  {
    var x := Doubled(Interval(interval), TrailingFailures(answers));
    RawIsDoubled(interval, h.attempt);
    DrawsIffAtLeastFive(interval);
    TruncatedParts(x);
    hide Raw, Truncated;
    assert Base(Configured(interval), h.attempt) == 9 * x / 10;
  }

  /** So the wait is the cap once nine tenths of the doubled interval have passed it, stays within a
      tenth of the doubled interval as long as the cap leaves room, and is different for different
      draws below the cap. */
  lemma WaitFollowsFailures(interval: int, h: Health, answers: seq<bool>, maxBackoff: int, draw: nat, other: nat)
    requires Tracks(h, answers) && (interval <= 0 || interval >= 5)
    requires Drawable(Configured(interval), h, draw) && Drawable(Configured(interval), h, other)
    ensures var x := Doubled(Interval(interval), TrailingFailures(answers));
            var t := NextCheckTime(Configured(interval), h, maxBackoff, draw);
            var u := NextCheckTime(Configured(interval), h, maxBackoff, other);
            && t.Some? && u.Some?
            && (9 * x >= 10 * (maxBackoff + 1) ==> t.value == maxBackoff)
            && (11 * x <= 10 * maxBackoff ==> 9 * x < 10 * (t.value + 1) <= 11 * x)
            && (draw != other && t.value < maxBackoff && u.value < maxBackoff ==> t.value != u.value)
  {
    WaitIs(interval, h, answers, maxBackoff, draw);
    WaitIs(interval, h, answers, maxBackoff, other);
  }

  /** A fresh server with the default interval waits between 54 and 66 seconds. */
  lemma FirstWait(draw: nat)
    requires draw < 12 * SECOND
    ensures NextCheckTime(Configured(0), NewHealth(DEFAULT_MAX_RETRIES), 600 * SECOND, draw) == Some(54 * SECOND + draw)
  {
    FreshTracks(DEFAULT_MAX_RETRIES);
    WaitIs(0, NewHealth(DEFAULT_MAX_RETRIES), [], 600 * SECOND, draw);
  }
}
