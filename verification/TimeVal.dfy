/** The `struct timeval` macros of the RIL event loop. */
module Time {

  const USEC_PER_SEC := 1000000

  datatype TimeVal = TimeVal(sec: int, usec: int)

  const ZERO := TimeVal(0, 0)

  /** Microseconds in the range a clock or `timeradd` produces. */
  predicate Normal(t: TimeVal) {
    0 <= t.usec < USEC_PER_SEC
  }

  /** A delay that does not point into the past. */
  predicate NonNegative(t: TimeVal) {
    0 <= t.sec && 0 <= t.usec
  }

  /** The instant as one number; the reference meaning of a `TimeVal`. */
  function Micros(t: TimeVal): int {
    t.sec * USEC_PER_SEC + t.usec
  }

  // timercmp(a, b, <)
  predicate Before(a: TimeVal, b: TimeVal) {
    if a.sec == b.sec then a.usec < b.usec else a.sec < b.sec
  }

  predicate NotAfter(a: TimeVal, b: TimeVal) {
    !Before(b, a)
  }

  // timeradd
  function Plus(a: TimeVal, b: TimeVal): TimeVal {
    var sec, usec := a.sec + b.sec, a.usec + b.usec;
    if usec >= USEC_PER_SEC then TimeVal(sec + 1, usec - USEC_PER_SEC) else TimeVal(sec, usec)
  }

  // timersub
  function Minus(a: TimeVal, b: TimeVal): TimeVal {
    var sec, usec := a.sec - b.sec, a.usec - b.usec;
    if usec < 0 then TimeVal(sec - 1, usec + USEC_PER_SEC) else TimeVal(sec, usec)
  }

  /** On normalised times the macros compute with microseconds. */
  lemma MacrosAreMicros(a: TimeVal, b: TimeVal)
    requires Normal(a) && Normal(b)
    ensures Before(a, b) <==> Micros(a) < Micros(b)
    ensures Normal(Plus(a, b)) && Micros(Plus(a, b)) == Micros(a) + Micros(b)
    ensures Normal(Minus(a, b)) && Micros(Minus(a, b)) == Micros(a) - Micros(b)
  {
  }

  /** A deadline computed from a non-negative delay is never before the clock reading it starts from. */
  lemma DeadlineNotBeforeNow(now: TimeVal, delay: TimeVal)
    requires NonNegative(delay)
    ensures NotAfter(now, Plus(now, delay))
  {
  }
}
