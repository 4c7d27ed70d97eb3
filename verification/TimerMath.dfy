/** Time arithmetic of the timer queue: nanosecond time points, microsecond intervals. */
module TimerMath {
  const US: int := 1000            // nanoseconds in a microsecond
  const MIN_DELAY: int := 100      // microseconds
  const SECOND: int := 1_000_000   // microseconds

  // duration_cast truncates toward zero.
  function Truncate(x: int, d: int): int
    requires d > 0
  {
    if x >= 0 then x / d else -((-x) / d)
  }

  lemma TruncatesTowardZero(x: int, d: int)
    requires d > 0
    ensures x >= 0 ==> 0 <= d * Truncate(x, d) <= x < d * Truncate(x, d) + d
    ensures x <= 0 ==> d * Truncate(x, d) - d < x <= d * Truncate(x, d) <= 0
  {
    if x >= 0 {
      DivExact(x, d);
    } else {
      DivExact(-x, d);
      assert d * -((-x) / d) == -(d * ((-x) / d));
    }
  }

  /** The value `Timer::restart` gives the expiration of a repeating timer. */
  function NextExpiration(e: int, interval: int, now: int): int
    requires interval > 0
  {
    var e1 := e + interval * US;
    if e1 <= now then e1 + interval * US * (Truncate(now - e1, US) / interval + 1) else e1
  }

  lemma DivExact(x: int, n: int)
    requires n > 0
    ensures n * (x / n) <= x < n * (x / n) + n
  {}

  lemma Monotone(n: int, a: int, b: int)
    requires n > 0
    ensures a >= b ==> n * a >= n * b
  {
    if a >= b {
      assert n * (a - b) >= 0;
    }
  }

  // Truncating to microseconds first does not move the multiple of the interval.
  lemma SkipExact(x: int, interval: int)
    requires x >= 0 && interval > 0
    ensures
      var k := Truncate(x, US) / interval + 1;
      x < interval * US * k <= x + interval * US
  {
    var us := x / US;
    var q := us / interval;
    DivExact(us, interval);
    assert interval * (q + 1) == interval * q + interval;
    assert interval * US * (q + 1) == US * (interval * (q + 1));
    assert interval * US * (q + 1) == interval * US * q + interval * US;
    assert interval * US * q == US * (interval * q);
  }

  /** Drift-free restart: the next expiration of an expired timer is the one instant that is a
      whole number of intervals after the old one and lies in (now, now + interval]. */
  lemma DriftFree(e: int, interval: int, now: int) returns (k: int)
    requires interval > 0 && e <= now
    ensures k >= 1 && NextExpiration(e, interval, now) == e + interval * US * k
    ensures now < NextExpiration(e, interval, now) <= now + interval * US
    ensures forall j: int {:trigger e + interval * US * j} ::
      now < e + interval * US * j <= now + interval * US ==> j == k
  {
    var step := interval * US;
    var e1 := e + step;
    if e1 <= now {
      SkipExact(now - e1, interval);
      k := Truncate(now - e1, US) / interval + 2;
      assert step * (k - 1) + step == step * k;
    } else {
      k := 1;
      assert step * 1 == step;
    }
    forall j: int | now < e + step * j <= now + step
      ensures j == k
    {
      assert step * (j + 1) == step * j + step && step * (k + 1) == step * k + step;
      Monotone(step, j, k + 1);
      Monotone(step, k, j + 1);
    }
  }

  // `howMuchTimeFromNow`, in microseconds.
  function Delay(when: int, now: int): int
  {
    var us := Truncate(when - now, US);
    if us < MIN_DELAY then MIN_DELAY else us
  }

  datatype TimeSpec = TimeSpec(sec: int, nsec: int)

  function ToTimeSpec(us: int): TimeSpec
    requires us >= 0
  {
    TimeSpec(us / SECOND, (us % SECOND) * US)
  }

  function Nanoseconds(ts: TimeSpec): int
  {
    ts.sec * SECOND * US + ts.nsec
  }

  /** The one-shot value is a valid non-zero timespec, never later than asked beyond the minimum
      delay, and early by less than a microsecond. */
  lemma DelayBounds(when: int, now: int)
    ensures
      var ts := ToTimeSpec(Delay(when, now));
      && 0 <= ts.nsec < SECOND * US && ts.sec >= 0
      && Nanoseconds(ts) == Delay(when, now) * US
      && Nanoseconds(ts) >= MIN_DELAY * US
      && now + Nanoseconds(ts) <= (if when > now + MIN_DELAY * US then when else now + MIN_DELAY * US)
      && when - US < now + Nanoseconds(ts)
  {
    var us := Delay(when, now);
    assert us == SECOND * (us / SECOND) + us % SECOND;
  }
}
