/** Monotonic time stamps as the clock correction uses them (libnstd/nstopwatch.c). */
module Stopwatch {
  import opened Common

  const MS: int := 1_000_000
  const SEC: int := 1_000_000_000

  datatype Stopwatch = Stopwatch(sec: int, nsec: int)

  /** The carry test lets a full second of nanoseconds stand. */
  predicate Normal(t: Stopwatch) {
    0 <= t.nsec <= SEC
  }

  function Ns(t: Stopwatch): int {
    t.sec * SEC + t.nsec
  }

  /** A reading of a clock that shows `ns`. */
  function Reading(ns: int): (t: Stopwatch)
    ensures Normal(t) && Ns(t) == ns
  {
    Stopwatch(ns / SEC, ns % SEC)
  }

  function Millis(t: Stopwatch): int
    requires Normal(t)
  {
    t.sec * 1000 + t.nsec / MS
  }

  /** The difference in milliseconds, each stamp cut to milliseconds first. */
  function Diff(t1: Stopwatch, t2: Stopwatch): int
    requires Normal(t1) && Normal(t2)
  {
    Millis(t1) - Millis(t2)
  }

  /** The age of `t` at `now`, in milliseconds: the nanosecond part is cut towards zero. */
  function Age(now: Stopwatch, t: Stopwatch): int {
    (now.sec - t.sec) * 1000 + TruncDiv(now.nsec - t.nsec, MS)
  }

  function Plus(t: Stopwatch, msec: int): Stopwatch
    decreases msec < 0
  {
    if msec < 0 then Minus(t, -msec)
    else
      var nsec := msec % 1000 * MS;
      if t.nsec + nsec > SEC then Stopwatch(t.sec + msec / 1000 + 1, t.nsec + nsec - SEC)
      else Stopwatch(t.sec + msec / 1000, t.nsec + nsec)
  }

  function Minus(t: Stopwatch, msec: int): Stopwatch
    decreases msec < 0
  {
    if msec < 0 then Plus(t, -msec)
    else
      var nsec := msec % 1000 * MS;
      if t.nsec - nsec < 0 then Stopwatch(t.sec - msec / 1000 - 1, t.nsec - nsec + SEC)
      else Stopwatch(t.sec - msec / 1000, t.nsec - nsec)
  }

  /** Adding or taking milliseconds, of either sign, moves a stamp by exactly that much. */
  lemma ExactShift(t: Stopwatch, msec: int)
    requires Normal(t)
    ensures Normal(Plus(t, msec)) && Ns(Plus(t, msec)) == Ns(t) + msec * MS
    ensures Normal(Minus(t, msec)) && Ns(Minus(t, msec)) == Ns(t) - msec * MS
  {
  }

  /** Cutting to milliseconds rounds the whole stamp down. */
  lemma MillisRoundsDown(t: Stopwatch)
    requires Normal(t)
    ensures Millis(t) * MS <= Ns(t) < (Millis(t) + 1) * MS
  {
  }

  /** The age is cut down while the nanoseconds have grown, and up, towards zero, while they have fallen. */
  lemma AgeIsClose(now: Stopwatch, t: Stopwatch)
    ensures -MS < Ns(now) - Ns(t) - Age(now, t) * MS < MS
    ensures now.nsec >= t.nsec ==> Age(now, t) * MS <= Ns(now) - Ns(t)
    ensures now.nsec <= t.nsec ==> Age(now, t) * MS >= Ns(now) - Ns(t)
  {
  }
}
