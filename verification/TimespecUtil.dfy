/**
 src/timespec_util.c: seconds and nanoseconds with 64-bit seconds, and the
 arithmetic of instants that fall due at a fixed interval.
 */
module TimespecUtil {
  const INT64_MAX := 0x7fff_ffff_ffff_ffff
  const INT64_MIN := -0x8000_0000_0000_0000
  const NANOS := 1_000_000_000

  /** The latest instant that 64-bit seconds can name, in nanoseconds. */
  const MAX_TIME := INT64_MAX * NANOS + 999_999_999

  datatype Timespec = Timespec(sec: int, nsec: int)

  function Nanos(t: Timespec): int {
    t.sec * NANOS + t.nsec
  }

  function FromNanos(n: int): Timespec {
    Timespec(n / NANOS, n % NANOS)
  }

  /** timespec_is_valid, on 64-bit seconds. */
  predicate ValidTime(t: Timespec) {
    0 <= t.sec <= INT64_MAX && 0 <= t.nsec < NANOS
  }

  /** Valid times are the nanosecond counts up to MAX_TIME, one for one. */
  lemma ValidNanos(t: Timespec)
    requires ValidTime(t)
    ensures 0 <= Nanos(t) <= MAX_TIME && FromNanos(Nanos(t)) == t
    ensures Nanos(t) == 0 <==> t.sec == 0 && t.nsec == 0
  {
  }

  lemma NanosValid(n: int)
    requires 0 <= n <= MAX_TIME
    ensures ValidTime(FromNanos(n)) && Nanos(FromNanos(n)) == n
  {
  }

  /** timespeccmp: seconds decide before nanoseconds. */
  predicate Before(t: Timespec, u: Timespec) {
    if t.sec == u.sec then t.nsec < u.nsec else t.sec < u.sec
  }

  lemma BeforeNanos(t: Timespec, u: Timespec)
    requires 0 <= t.nsec < NANOS && 0 <= u.nsec < NANOS
    ensures Before(t, u) <==> Nanos(t) < Nanos(u)
  {
  }

  predicate Int64(x: int) {
    INT64_MIN <= x <= INT64_MAX
  }

  /** A struct timespec that is written through a pointer. */
  class Variable {
    var sec: int
    var nsec: int

    constructor (t: Timespec)
      ensures Get() == t
    {
      sec, nsec := t.sec, t.nsec;
    }

    function Get(): Timespec
      reads this
    {
      Timespec(sec, nsec)
    }
  }

  /** timespecadd_safe: the exact sum, or false if it is past MAX_TIME; vsp may be tsp or usp. */
  method AddSafe(tsp: Variable, usp: Variable, vsp: Variable) returns (ok: bool)
    requires ValidTime(tsp.Get()) && ValidTime(usp.Get())
    modifies vsp
    ensures ok <==> old(Nanos(tsp.Get()) + Nanos(usp.Get())) <= MAX_TIME
    ensures ok ==> ValidTime(vsp.Get()) && Nanos(vsp.Get()) == old(Nanos(tsp.Get()) + Nanos(usp.Get()))
  {
    if !Int64(tsp.sec + usp.sec) {
      return false;
    }
    vsp.sec := tsp.sec + usp.sec;
    vsp.nsec := tsp.nsec + usp.nsec;
    if vsp.nsec >= NANOS {
      if !Int64(vsp.sec + 1) {
        return false;
      }
      vsp.sec := vsp.sec + 1;
      vsp.nsec := vsp.nsec - NANOS;
    }
    return true;
  }

  /** timespecsub_safe: the exact difference of two valid times always fits. */
  method SubSafe(tsp: Variable, usp: Variable, vsp: Variable) returns (ok: bool)
    requires ValidTime(tsp.Get()) && ValidTime(usp.Get())
    modifies vsp
    ensures ok
    ensures Nanos(vsp.Get()) == old(Nanos(tsp.Get()) - Nanos(usp.Get()))
    ensures 0 <= vsp.nsec < NANOS
    ensures vsp.sec < 0 <==> old(Nanos(tsp.Get()) < Nanos(usp.Get()))
  {
    if !Int64(tsp.sec - usp.sec) {
      return false;
    }
    vsp.sec := tsp.sec - usp.sec;
    vsp.nsec := tsp.nsec - usp.nsec;
    if vsp.nsec < 0 {
      if !Int64(vsp.sec - 1) {
        return false;
      }
      vsp.sec := vsp.sec - 1;
      vsp.nsec := vsp.nsec + NANOS;
    }
    return true;
  }
}
