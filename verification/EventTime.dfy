/** Deadlines of the event scheduler: the arithmetic of the `event` constructor and `eventCompare`. */
module EventTime {
  import Ints

  const BILLION := 1_000_000_000

  type int32 = Ints.int32

  /** A struct timespec.  A clock reading has tv_nsec in 0..10^9; a deadline need not. */
  datatype Timespec = Timespec(sec: int, nsec: int)

  predicate ClockReading(t: Timespec) {
    0 <= t.nsec < BILLION
  }

  /** The instant a timespec stands for, in nanoseconds. */
  function Nanos(t: Timespec): int {
    t.sec * BILLION + t.nsec
  }

  /** C++ division and remainder, which truncate towards zero. */
  function Quotient(a: int, b: int): int
    requires b > 0
  {
    if a >= 0 then a / b else -(-a / b)
  }

  function Remainder(a: int, b: int): int
    requires b > 0
  {
    a - b * Quotient(a, b)
  }

  /** The `timeout` field of an event created at `now`.  The nanoseconds are not carried over into the
      seconds after the addition. */
  function Deadline(now: Timespec, timeout: int32): Timespec {
    var sec, nsec := Quotient(timeout, 1000), Remainder(timeout, 1000) * 1_000_000;
    if nsec > BILLION then
      Timespec(now.sec + sec + nsec / BILLION, now.nsec + nsec % BILLION)
    else
      Timespec(now.sec + sec, now.nsec + nsec)
  }

  /** eventCompare(a, b). */
  predicate Later(a: Timespec, b: Timespec) {
    a.sec > b.sec || (a.sec == b.sec && a.nsec > b.nsec)
  }

  /** However the time is split up, the instant is exactly `timeout` milliseconds after `now`. */
  lemma DeadlineExact(now: Timespec, timeout: int32)
    ensures Nanos(Deadline(now, timeout)) == Nanos(now) + timeout * 1_000_000
  {
  }

  /** How the timeout is split up: into the seconds goes what of it makes whole seconds, rounded towards
      zero, and the rest into the nanoseconds, whatever the clock reading. */
  lemma DeadlineSplit(now: Timespec, timeout: int32)
    ensures var d := Deadline(now, timeout);
            var rest := timeout - 1000 * (d.sec - now.sec);
            && -999 <= rest <= 999 && (timeout >= 0 ==> rest >= 0) && (timeout <= 0 ==> rest <= 0)
            && d.nsec - now.nsec == rest * 1_000_000
  {
  }

  /** So the seconds and nanoseconds added do not depend on the clock: nothing is ever carried over. */
  lemma DeadlineNoCarry(now: Timespec, now': Timespec, timeout: int32)
    ensures var d, d' := Deadline(now, timeout), Deadline(now', timeout);
            d.sec - now.sec == d'.sec - now'.sec && d.nsec - now.nsec == d'.nsec - now'.nsec
  {
    DeadlineSplit(now, timeout);
    DeadlineSplit(now', timeout);
  }

  /** Exactly when a deadline is normalised, for timeouts that are not negative. */
  lemma DeadlineNormalised(now: Timespec, timeout: int32)
    requires ClockReading(now) && timeout >= 0
    ensures ClockReading(Deadline(now, timeout)) <==> now.nsec + timeout % 1000 * 1_000_000 < BILLION
  {
    DeadlineSplit(now, timeout);
  }

  /** The carry in the constructor is dead code: the nanoseconds of the timeout never reach 10^9. */
  lemma DeadlineRange(now: Timespec, timeout: int32)
    requires ClockReading(now)
    ensures var n := Deadline(now, timeout).nsec;
            && -999_000_000 <= n <= 1_998_999_999
            && (timeout >= 0 ==> 0 <= n)
            && (timeout <= 0 ==> n < BILLION)
  {
  }

  /** The dispatcher's difference is the difference of the instants. */
  function DifferenceNsec(current: Timespec, next: Timespec): int {
    (current.sec - next.sec) * BILLION + (current.nsec - next.nsec)
  }

  lemma DifferenceExact(current: Timespec, next: Timespec)
    ensures DifferenceNsec(current, next) == Nanos(current) - Nanos(next)
  {
  }

  /** An event that the comparator does not put later is at most this much later. */
  lemma InversionBound(a: Timespec, b: Timespec, least: int, most: int)
    requires !Later(a, b) && least <= b.nsec && a.nsec <= most && least + BILLION <= most
    ensures Nanos(a) - Nanos(b) <= most - least - BILLION
  {
  }

  /** With both deadlines normalised the comparator orders instants. */
  lemma NormalisedExact(a: Timespec, b: Timespec)
    requires ClockReading(a) && ClockReading(b)
    ensures Later(a, b) <==> Nanos(a) > Nanos(b)
  {
  }

  /** Event a, which the comparator does not put later than b, is nevertheless due later: it has fewer
      seconds, and so many more nanoseconds that they outweigh the difference. */
  predicate Inverted(a: Timespec, b: Timespec) {
    || (b.sec == a.sec + 1 && a.nsec - b.nsec > BILLION)
    || (b.sec == a.sec + 2 && a.nsec - b.nsec > 2 * BILLION)
  }

  /** Exactly when the comparator is wrong about two deadlines; with timeouts that are not negative the
      seconds differ by one. */
  lemma InversionExact(a: Timespec, b: Timespec)
    requires !Later(a, b) && -999_000_000 <= b.nsec && a.nsec <= 1_998_999_999
    ensures Nanos(a) > Nanos(b) <==> Inverted(a, b)
    ensures 0 <= b.nsec ==> (Inverted(a, b) <==> b.sec == a.sec + 1 && a.nsec - b.nsec > BILLION)
  {
  }

  /** The bound is attained: two events scheduled within a nanosecond of each other, where the one due
      998,999,999 ns later is fired first. */
  lemma InversionAttained(s: int)
    ensures var a, b := Deadline(Timespec(s, 999_999_999), 999), Deadline(Timespec(s + 1, 0), 0);
            Later(b, a) && Nanos(a) - Nanos(b) == 998_999_999
  {
  }
}
