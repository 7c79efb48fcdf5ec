/**
 src/timerfd_ctx.c for timers on CLOCK_MONOTONIC: the lazy advance to the
 current time, the one-shot kernel timer behind it, and what a run of reads
 and gettimes reports.  All calls into the kernel succeed.
 */
module TimerFd {
  import opened Options
  import opened TimespecUtil

  const UINT64 := 0x1_0000_0000_0000_0000

  // ---------- Instants at a fixed interval ----------

  /** How many of the instants start, start + i, start + 2 * i, ... are not after now. */
  function Due(start: int, i: int, now: int): (n: nat)
    requires i > 0
  {
    if now < start then 0 else (now - start) / i + 1
  }

  /** start + n * i is the first instant after now. */
  predicate FirstAfter(start: int, i: int, now: int, n: nat) {
    now < start + n * i && (n == 0 || start + (n - 1) * i <= now)
  }

  lemma DueFirstAfter(start: int, i: int, now: int)
    requires i > 0
    ensures FirstAfter(start, i, now, Due(start, i, now))
  {
    if now >= start {
      var q := (now - start) / i;
      assert (now - start) == q * i + (now - start) % i;
      assert (q + 1) * i == q * i + i;
    }
  }

  lemma DueExact(start: int, i: int, now: int, k: nat)
    requires i > 0
    ensures start + k * i <= now <==> k < Due(start, i, now)
  {
    var n := Due(start, i, now);
    DueFirstAfter(start, i, now);
    if k < n {
      MulOrder(k, n - 1, i);
    } else {
      MulOrder(n, k, i);
    }
  }

  lemma MulOrder(a: int, b: int, i: int)
    requires a <= b && i > 0
    ensures a * i <= b * i
  {
    assert (b - a) * i >= 0;
    assert (b - a) * i == b * i - a * i;
  }

  /** The first instant after now comes within one interval. */
  lemma DueSpan(start: int, i: int, now: int)
    requires i > 0
    ensures var n := Due(start, i, now);
      && (n == 0 <==> now < start)
      && 0 <= n * i && (n > 0 ==> now < start + n * i <= now + i)
  {
    var n := Due(start, i, now);
    DueFirstAfter(start, i, now);
    assert (n - 1) * i == n * i - i;
    MulOrder(0, n, i);
  }

  lemma DueUnique(start: int, i: int, now: int, n: nat)
    requires i > 0 && FirstAfter(start, i, now, n)
    ensures n == Due(start, i, now)
  {
    DueExact(start, i, now, n);
    if n > 0 {
      DueExact(start, i, now, n - 1);
    }
  }

  /** Counting up to t1 and then on to t2 is counting up to t2. */
  lemma DueSplit(start: int, i: int, t1: int, t2: int)
    requires i > 0 && t1 <= t2
    ensures var n := Due(start, i, t1); Due(start, i, t2) == n + Due(start + n * i, i, t2)
  {
    var n := Due(start, i, t1);
    var m := Due(start + n * i, i, t2);
    DueFirstAfter(start, i, t1);
    DueFirstAfter(start + n * i, i, t2);
    assert (n + m) * i == n * i + m * i;
    assert (n + m - 1) * i == n * i + (m - 1) * i;
    DueUnique(start, i, t2, n + m);
  }

  // ---------- The advance to the current time ----------

  datatype Kind = Unspecified | Relative | Absolute

  /** it_value is the next expiry, or zero; it_interval is zero for a one-shot timer. */
  datatype Timer = Timer(kind: Kind, value: Timespec, interval: Timespec, expirations: int)

  const ZERO := Timespec(0, 0)

  predicate Disarmed(t: Timer) {
    t.value.sec == 0 && t.value.nsec == 0
  }

  predicate Periodic(t: Timer) {
    t.interval.sec != 0 || t.interval.nsec != 0
  }

  function Disarm(t: Timer): Timer {
    t.(value := ZERO, kind := Unspecified)
  }

  predicate ValidTimer(t: Timer) {
    && ValidTime(t.value) && ValidTime(t.interval) && 0 <= t.expirations < UINT64
    && (t.kind.Unspecified? <==> Disarmed(t))
  }

  /** The instants that fell due since the last advance. */
  function Missed(t: Timer, now: Timespec): nat
    requires ValidTimer(t) && Periodic(t)
  {
    ValidNanos(t.interval);
    Due(Nanos(t.value), Nanos(t.interval), Nanos(now))
  }

  /** The time to advance by does not fit 64 bits of nanoseconds, or the next expiry cannot be named. */
  predicate Overflows(t: Timer, now: Timespec)
    requires ValidTimer(t)
  {
    Periodic(t) && !Disarmed(t) && Missed(t, now) > 0 &&
    ( Missed(t, now) * Nanos(t.interval) > INT64_MAX
      || Nanos(t.value) + Missed(t, now) * Nanos(t.interval) > MAX_TIME)
  }

  /** n instants later, which is span nanoseconds. */
  function Moved(t: Timer, n: nat, span: int): Timer {
    t.(value := FromNanos(Nanos(t.value) + span), expirations := (t.expirations + n) % UINT64)
  }

  lemma MovedTwice(t: Timer, n: nat, a: int, m: nat, b: int)
    requires 0 <= Nanos(t.value) + a
    ensures Moved(Moved(t, n, a), m, b) == Moved(t, n + m, a + b)
  {
  }

  /** What timerfd_ctx_update_to_current_time makes of a timer. */
  function Updated(t: Timer, now: Timespec): Timer
    requires ValidTimer(t)
  {
    if Disarmed(t) then t
    else if Overflows(t, now) then Disarm(t)
    else if Periodic(t) then Moved(t, Missed(t, now), Missed(t, now) * Nanos(t.interval))
    else if Nanos(t.value) <= Nanos(now) then Disarm(t.(expirations := (t.expirations + 1) % UINT64))
    else t
  }

  /** The advance keeps timers well-formed and leaves no expiry in the past. */
  lemma UpdatedValid(t: Timer, now: Timespec)
    requires ValidTimer(t) && ValidTime(now)
    ensures ValidTimer(Updated(t, now))
    ensures Disarmed(Updated(t, now)) || Nanos(now) < Nanos(Updated(t, now).value)
  {
    ValidNanos(t.value);
    ValidNanos(t.interval);
    if !Disarmed(t) && Periodic(t) && !Overflows(t, now) {
      var (v, i, n) := (Nanos(t.value), Nanos(t.interval), Missed(t, now));
      DueFirstAfter(v, i, Nanos(now));
      assert n == 0 || v + n * i <= MAX_TIME;
      assert n * i >= 0;
      NanosValid(v + n * i);
    }
  }

  /**
   Without overflow a periodic timer that was due counts exactly the instants
   k with value + k * interval <= now, and its next expiry is in (now, now + interval].
   */
  lemma UpdatedExact(t: Timer, now: Timespec, k: nat)
    requires ValidTimer(t) && ValidTime(now)
    requires !Disarmed(t) && Periodic(t) && !Overflows(t, now) && t.expirations + Missed(t, now) < UINT64
    ensures var u := Updated(t, now);
      && (Nanos(t.value) + k * Nanos(t.interval) <= Nanos(now) <==> k < u.expirations - t.expirations)
      && (Nanos(t.value) <= Nanos(now) ==> Nanos(now) < Nanos(u.value) <= Nanos(now) + Nanos(t.interval))
      && (Nanos(now) < Nanos(t.value) ==> u == t)
  {
    ValidNanos(t.value);
    ValidNanos(t.interval);
    DueExact(Nanos(t.value), Nanos(t.interval), Nanos(now), k);
    DueSpan(Nanos(t.value), Nanos(t.interval), Nanos(now));
    UpdatedBy(t, now, Missed(t, now), Missed(t, now) * Nanos(t.interval));
  }

  lemma UpdatedBy(t: Timer, now: Timespec, n: nat, span: int)
    requires ValidTimer(t) && !Disarmed(t) && Periodic(t) && !Overflows(t, now)
    requires n == Missed(t, now) && span == n * Nanos(t.interval) && 0 <= span && (n == 0 ==> span == 0)
    ensures Updated(t, now) == Moved(t, n, span) && Nanos(Updated(t, now).value) == Nanos(t.value) + span
    ensures n == 0 ==> Updated(t, now) == t
  {
    ValidNanos(t.value);
    NanosValid(Nanos(t.value) + span);
  }

  /** Advancing to t1 and then to t2 is advancing to t2. */
  lemma UpdateSplits(t: Timer, t1: Timespec, t2: Timespec)
    requires ValidTimer(t) && ValidTime(t1) && ValidTime(t2) && Nanos(t1) <= Nanos(t2)
    requires !Overflows(t, t2)
    ensures ValidTimer(Updated(t, t1)) && Updated(Updated(t, t1), t2) == Updated(t, t2)
  {
    UpdatedValid(t, t1);
    if !Disarmed(t) && Periodic(t) {
      ValidNanos(t.value);
      ValidNanos(t.interval);
      var (v, i) := (Nanos(t.value), Nanos(t.interval));
      var n, m := Due(v, i, Nanos(t1)), Due(v + Due(v, i, Nanos(t1)) * i, i, Nanos(t2));
      DueSplit(v, i, Nanos(t1), Nanos(t2));
      assert (n + m) * i == n * i + m * i;
      MulOrder(0, n, i);
      MulOrder(0, m, i);
      UpdateSplitsAt(t, t1, t2, n, m);
    }
  }

  lemma UpdateSplitsAt(t: Timer, t1: Timespec, t2: Timespec, n: nat, m: nat)
    requires ValidTimer(t) && !Disarmed(t) && Periodic(t) && !Overflows(t, t2)
    requires n == Missed(t, t1) && n + m == Missed(t, t2) && Nanos(t.value) > 0
    requires m == Due(Nanos(t.value) + n * Nanos(t.interval), Nanos(t.interval), Nanos(t2))
    requires var i := Nanos(t.interval); 0 <= n * i <= (n + m) * i && (n + m) * i == n * i + m * i && 0 <= m * i
    requires ValidTimer(Updated(t, t1))
    ensures Updated(Updated(t, t1), t2) == Updated(t, t2)
  {
    var (v, i) := (Nanos(t.value), Nanos(t.interval));
    ValidNanos(t.value);
    ValidNanos(t.interval);
    assert Nanos(t.value) + (n + m) * i <= MAX_TIME;
    assert !Overflows(t, t1);
    var u := Moved(t, n, n * i);
    assert Updated(t, t1) == u;
    NanosValid(v + n * i);
    assert Nanos(u.value) == v + n * i && Missed(u, t2) == m;
    assert Updated(u, t2) == Moved(u, m, m * i);
    MovedTwice(t, n, n * i, m, m * i);
  }

  /** An advance disarms a periodic timer in case of overflow, and only then. */
  lemma DisarmsOnOverflow(t: Timer, now: Timespec)
    requires ValidTimer(t) && ValidTime(now) && !Disarmed(t) && Periodic(t)
    ensures Disarmed(Updated(t, now)) <==> Overflows(t, now)
    ensures Overflows(t, now) ==> Updated(t, now).expirations == t.expirations
  {
    UpdatedValid(t, now);
    ValidNanos(t.value);
    ValidNanos(t.interval);
    MulOrder(0, Missed(t, now), Nanos(t.interval));
    if !Overflows(t, now) && Missed(t, now) > 0 {
      NanosValid(Nanos(t.value) + Missed(t, now) * Nanos(t.interval));
    }
  }

  // ---------- The one-shot kernel timer ----------

  /** Timeouts of ten years and more are not handed to the kernel. */
  const TEN_YEARS := 315_360_000

  function Micros(d: Timespec): int {
    d.sec * 1_000_000 + d.nsec / 1000 + if d.nsec % 1000 != 0 then 1 else 0
  }

  function Millis(d: Timespec): int {
    d.sec * 1000 + d.nsec / 1_000_000 + if d.nsec % 1_000_000 != 0 then 1 else 0
  }

  /** Both conversions give the least number of units that is no shorter than asked. */
  lemma LeastUnits(d: Timespec)
    requires 0 <= d.nsec < NANOS
    ensures 1000 * (Micros(d) - 1) < Nanos(d) <= 1000 * Micros(d)
    ensures 1_000_000 * (Millis(d) - 1) < Nanos(d) <= 1_000_000 * Millis(d)
  {
    assert d.nsec == 1000 * (d.nsec / 1000) + d.nsec % 1000;
    assert d.nsec == 1_000_000 * (d.nsec / 1_000_000) + d.nsec % 1_000_000;
  }

  /** How long register_event asks the kernel to wait. */
  function Delay(expiry: Timespec, now: Timespec): Timespec {
    if Nanos(expiry) < Nanos(now) then ZERO else FromNanos(Nanos(expiry) - Nanos(now))
  }

  /** From when on the kernel timer may fire, if one is registered. */
  function Registered(expiry: Timespec, now: Timespec): Option<int> {
    var d := Delay(expiry, now);
    if d.sec >= TEN_YEARS then None else Some(Nanos(now) + 1000 * Micros(d))
  }

  /** Not before the expiry, and less than a microsecond after it or after now. */
  lemma RegisteredOnTime(expiry: Timespec, now: Timespec)
    requires ValidTime(expiry) && ValidTime(now)
    ensures var (e, n, r) := (Nanos(expiry), Nanos(now), Registered(expiry, now));
      && (r.None? <==> e - n >= 10 * 365 * 86_400 * NANOS)
      && (r.Some? ==> e <= r.value < (if e < n then n else e) + 1000)
  {
    var d := Delay(expiry, now);
    ValidNanos(expiry);
    ValidNanos(now);
    if Nanos(now) <= Nanos(expiry) {
      NanosValid(Nanos(expiry) - Nanos(now));
    }
    LeastUnits(d);
  }

  // ---------- settime, gettime, read ----------

  /** A timer and the kernel timer behind it. */
  datatype Fd = Fd(timer: Timer, deadline: Option<int>)

  datatype Answer = Value(n: int) | Again | Invalid | Aborted

  function Advanced(f: Fd, now: Timespec): Fd
    requires ValidTimer(f.timer)
  {
    if f.timer.kind.Unspecified? then f else f.(timer := Updated(f.timer, now))
  }

  /** The time left until the next expiry, as gettime reports it. */
  function Left(f: Fd, now: Timespec): Timespec {
    if f.timer.kind.Unspecified? then f.timer.value
    else FromNanos(Nanos(f.timer.value) - Nanos(now))
  }

  /** timerfd_ctx_read after a kevent call that did or did not return the kernel timer. */
  function ReadStep(f: Fd, now: Timespec, got: bool): (Fd, Answer)
    requires ValidTimer(f.timer)
  {
    if f.timer.kind.Unspecified? then (f, Again) else
    var u := Updated(f.timer, now);
    var c := u.(expirations := 0);
    if u.expirations != 0 then
      (Fd(c, if Disarmed(c) then None else Registered(c.value, now)), Value(u.expirations))
    else if got then
      (Fd(c, None), Aborted)
    else
      (Fd(c, f.deadline), Again)
  }

  /** The first expiry of a new setting, unless it cannot be named. */
  function Expiry(abs: bool, value: Timespec, now: Timespec): Option<Timespec> {
    if abs then Some(value)
    else if Nanos(now) + Nanos(value) > MAX_TIME then None
    else Some(FromNanos(Nanos(now) + Nanos(value)))
  }

  /** A time read for the old setting serves the new one, unless the kind of timer changes. */
  function TimeOfSetting(f: Fd, abs: bool, old_: bool, now1: Timespec, now2: Timespec): Timespec
    requires ValidTimer(f.timer)
  {
    var kind := if abs then Absolute else Relative;
    if old_ && !f.timer.kind.Unspecified? && Advanced(f, now1).timer.kind == kind then now1 else now2
  }

  /** timerfd_ctx_settime; now1 is the time of the old setting, now2 of the new one. */
  function SettimeStep(f: Fd, abs: bool, value: Timespec, interval: Timespec, old_: bool, now1: Timespec,
      now2: Timespec): (Fd, Answer)
    requires ValidTimer(f.timer)
  {
    if !ValidTime(value) || !ValidTime(interval) then (f, Invalid) else
    var g := if old_ then Advanced(f, now1) else f;
    if value.sec == 0 && value.nsec == 0 then (Fd(Disarm(g.timer).(expirations := 0), None), Value(0)) else
    var kind := if abs then Absolute else Relative;
    var now := TimeOfSetting(f, abs, old_, now1, now2);
    match Expiry(abs, value, now)
    case None => (g, Invalid)
    case Some(expiry) => (Fd(Timer(kind, expiry, interval, 0), Registered(expiry, now)), Value(0))
  }

  /** The kernel returns a timer that is registered, and no earlier than it was asked to. */
  predicate Delivers(f: Fd, now: Timespec, got: bool) {
    got ==> f.deadline.Some? && f.deadline.value <= Nanos(now)
  }

  // ---------- Runs of a periodic timer ----------

  /** The advance neither overflows nor wraps the count. */
  predicate Advances(t: Timer, now: Timespec)
    requires ValidTimer(t)
  {
    !Overflows(t, now) && (Periodic(t) ==> t.expirations + Missed(t, now) < UINT64)
  }

  /** A timer that expires at start, start + i, ..., up to `seen`, after reads returned a total. */
  predicate Counting(t: Timer, start: int, i: int, total: int, seen: int) {
    && ValidTimer(t) && !Disarmed(t) && Nanos(t.interval) == i > 0 && total >= 0
    && total + t.expirations == Due(start, i, seen)
    && Nanos(t.value) == start + (total + t.expirations) * i
  }

  /**
   The kernel timer is not due before the first instant no read has returned.
   With delays under ten years there is one, less than a microsecond late.
   */
  predicate OnTime(deadline: Option<int>, set_: int, start: int, i: int, total: int) {
    var next := start + total * i;
    && (deadline.Some? ==> next <= deadline.value)
    && (i < TEN_YEARS * NANOS && start - set_ < TEN_YEARS * NANOS ==>
          deadline.Some? && deadline.value < (if next < set_ then set_ else next) + 1000)
  }

  /** A periodic timer set at time set_. */
  predicate Ticking(f: Fd, set_: int, start: int, i: int, total: int, seen: int) {
    Counting(f.timer, start, i, total, seen) && OnTime(f.deadline, set_, start, i, total)
  }

  /** Such an advance counts everything up to now. */
  lemma Advance(t: Timer, start: int, i: int, total: int, seen: int, now: Timespec)
    requires Counting(t, start, i, total, seen)
    requires ValidTime(now) && seen <= Nanos(now) && Advances(t, now)
    ensures Counting(Updated(t, now), start, i, total, Nanos(now))
  {
    var (m, n) := (total + t.expirations, Missed(t, now));
    MissedSplit(t, start, i, total, seen, now);
    DueSpan(Nanos(t.value), i, Nanos(now));
    MulSum(m, n, i);
    UpdatedValid(t, now);
    UpdatedBy(t, now, n, n * i);
    CountingMoved(t, start, i, total, seen, Nanos(now), n, n * i);
  }

  lemma MulSum(m: int, n: int, i: int)
    ensures (m + n) * i == m * i + n * i
  {
  }

  lemma MissedSplit(t: Timer, start: int, i: int, total: int, seen: int, now: Timespec)
    requires Counting(t, start, i, total, seen) && seen <= Nanos(now)
    ensures Due(start, i, Nanos(now)) == total + t.expirations + Missed(t, now)
  {
    DueSplit(start, i, seen, Nanos(now));
  }

  lemma CountingMoved(t: Timer, start: int, i: int, total: int, seen: int, now: int, n: nat, span: int)
    requires Counting(t, start, i, total, seen) && t.expirations + n < UINT64 && span >= 0
    requires Due(start, i, now) == total + t.expirations + n
    requires (total + t.expirations + n) * i == (total + t.expirations) * i + span
    requires var u := Moved(t, n, span); ValidTimer(u) && Nanos(u.value) == Nanos(t.value) + span
    ensures Counting(Moved(t, n, span), start, i, total, now)
  {
    ValidNanos(t.value);
  }

  /** Times in the first 292 years or so, in which every advance is of that kind. */
  predicate InRange(start: int, i: int, now: int) {
    now - start + i <= INT64_MAX && now + i <= MAX_TIME
  }

  lemma InRangeAdvances(t: Timer, start: int, i: int, total: int, seen: int, now: Timespec)
    requires Counting(t, start, i, total, seen)
    requires ValidTime(now) && seen <= Nanos(now) && InRange(start, i, Nanos(now))
    ensures Advances(t, now)
  {
    var m := total + t.expirations;
    ValidNanos(t.interval);
    MulOrder(0, m, i);
    DueSpan(start + m * i, i, Nanos(now));
    DueSplit(start, i, seen, Nanos(now));
    InRangeCount(start, i, Nanos(now));
  }

  lemma MulAtLeast(a: nat, i: int)
    requires i >= 1
    ensures a <= a * i
  {
    assert a * i - a == a * (i - 1) >= 0;
  }

  lemma InRangeCount(start: int, i: int, now: int)
    requires i > 0 && InRange(start, i, now)
    ensures Due(start, i, now) < UINT64
  {
    var n := Due(start, i, now);
    DueFirstAfter(start, i, now);
    if n > 0 {
      MulAtLeast(n - 1, i);
    }
  }

  /** A timer just stored, with the kernel timer just registered. */
  lemma StoreTicks(kind: Kind, expiry: Timespec, interval: Timespec, now: Timespec, seen: int)
    requires ValidTime(expiry) && ValidTime(interval) && ValidTime(now)
    requires !kind.Unspecified? && Nanos(expiry) > 0 && Nanos(interval) > 0 && seen < Nanos(expiry)
    ensures Ticking(Fd(Timer(kind, expiry, interval, 0), Registered(expiry, now)),
              Nanos(now), Nanos(expiry), Nanos(interval), 0, seen)
  {
    ValidNanos(expiry);
    RegisteredOnTime(expiry, now);
  }

  /** A periodic timer starts ticking when it is set; seen is any time before its first expiry. */
  lemma SetTicks(f: Fd, abs: bool, value: Timespec, interval: Timespec, old_: bool, now1: Timespec, now2: Timespec,
      seen: int)
    requires ValidTimer(f.timer) && ValidTime(now1) && ValidTime(now2)
    requires ValidTime(value) && ValidTime(interval) && Nanos(value) > 0 && Nanos(interval) > 0
    requires SettimeStep(f, abs, value, interval, old_, now1, now2).1 == Value(0)
    requires seen < if abs then Nanos(value) else Nanos(TimeOfSetting(f, abs, old_, now1, now2)) + Nanos(value)
    ensures var now := TimeOfSetting(f, abs, old_, now1, now2);
      var start := if abs then Nanos(value) else Nanos(now) + Nanos(value);
      Ticking(SettimeStep(f, abs, value, interval, old_, now1, now2).0, Nanos(now), start, Nanos(interval), 0, seen)
  {
    var now := TimeOfSetting(f, abs, old_, now1, now2);
    ValidNanos(now);
    ValidNanos(value);
    ExpiryNanos(abs, value, now);
    StoreTicks(if abs then Absolute else Relative, Expiry(abs, value, now).value, interval, now, seen);
  }

  lemma ExpiryNanos(abs: bool, value: Timespec, now: Timespec)
    requires ValidTime(value) && ValidTime(now)
    ensures var e := Expiry(abs, value, now);
      e.Some? ==> ValidTime(e.value) && Nanos(e.value) == if abs then Nanos(value) else Nanos(now) + Nanos(value)
  {
    ValidNanos(now);
    ValidNanos(value);
    if !abs && Nanos(now) + Nanos(value) <= MAX_TIME {
      NanosValid(Nanos(now) + Nanos(value));
    }
  }

  /** gettime reports the time to the next instant after now, and changes nothing a read would see. */
  lemma GettimeTicks(f: Fd, set_: int, start: int, i: int, total: int, seen: int, now: Timespec)
    requires Ticking(f, set_, start, i, total, seen)
    requires ValidTime(now) && seen <= Nanos(now) && Advances(f.timer, now)
    ensures var g := Advanced(f, now);
      && Ticking(g, set_, start, i, total, Nanos(now))
      && Nanos(Left(g, now)) == start + Due(start, i, Nanos(now)) * i - Nanos(now) > 0
  {
    Advance(f.timer, start, i, total, seen, now);
    UpdatedValid(f.timer, now);
  }

  /** Handing out the count and registering the next expiry. */
  lemma Rearmed(f: Fd, set_: int, start: int, i: int, total: int, now: Timespec)
    requires Ticking(f, set_, start, i, total, Nanos(now)) && ValidTime(now) && f.timer.expirations > 0
    ensures var t := f.timer;
      Ticking(Fd(t.(expirations := 0), Registered(t.value, now)), set_, start, i, total + t.expirations, Nanos(now))
  {
    var n := total + f.timer.expirations;
    DueFirstAfter(start, i, Nanos(now));
    assert (n - 1) * i == n * i - i;
    RegisteredOnTime(f.timer.value, now);
  }

  /**
   A read returns exactly the instants that fell due and were not returned
   before; it fails with EAGAIN if there are none, and its assertions hold.
   */
  lemma ReadTicks(f: Fd, set_: int, start: int, i: int, total: int, seen: int, now: Timespec, got: bool)
    requires Ticking(f, set_, start, i, total, seen)
    requires ValidTime(now) && seen <= Nanos(now) && Advances(f.timer, now) && Delivers(f, now, got)
    ensures var (g, answer) := ReadStep(f, now, got);
      var n := Due(start, i, Nanos(now)) - total;
      && answer == (if n == 0 then Again else Value(n))
      && Ticking(g, set_, start, i, total + n, Nanos(now))
  {
    Advance(f.timer, start, i, total, seen, now);
    UpdatedValid(f.timer, now);
    var h := f.(timer := Updated(f.timer, now));
    DueExact(start, i, Nanos(now), total);
    if h.timer.expirations > 0 {
      Rearmed(h, set_, start, i, total, now);
    }
  }

  // ---------- Runs ----------

  datatype Op = Gettime(now: Timespec) | Read(now: Timespec, got: bool)

  /** One operation; gettime hands out nothing. */
  function Do(f: Fd, op: Op): (r: (Fd, Answer))
    requires ValidTimer(f.timer) && ValidTime(op.now)
    ensures ValidTimer(r.0.timer)
  {
    UpdatedValid(f.timer, op.now);
    match op
    case Gettime(now) => (Advanced(f, now), Value(0))
    case Read(now, got) => ReadStep(f, now, got)
  }

  /** Time goes on, no advance overflows or wraps the count, and the kernel is never early. */
  predicate Lawful(f: Fd, ops: seq<Op>, seen: int)
    requires ValidTimer(f.timer)
    decreases |ops|
  {
    ops != [] ==>
      var op := ops[0];
      && ValidTime(op.now) && seen <= Nanos(op.now) && Advances(f.timer, op.now)
      && (op.Read? ==> Delivers(f, op.now, op.got))
      && Lawful(Do(f, op).0, ops[1..], Nanos(op.now))
  }

  function Run(f: Fd, ops: seq<Op>): (Fd, seq<Answer>)
    requires ValidTimer(f.timer) && forall op :: op in ops ==> ValidTime(op.now)
    decreases |ops|
  {
    if ops == [] then (f, [])
    else
      var (g, answer) := Do(f, ops[0]);
      var (h, answers) := Run(g, ops[1..]);
      (h, [answer] + answers)
  }

  function Handed(answer: Answer): int {
    if answer.Value? then answer.n else 0
  }

  function Total(answers: seq<Answer>): int {
    if answers == [] then 0
    else Handed(answers[0]) + Total(answers[1..])
  }

  function LastSeen(ops: seq<Op>, seen: int): int {
    if ops == [] then seen else Nanos(ops[|ops| - 1].now)
  }

  lemma DoTicks(f: Fd, set_: int, start: int, i: int, total: int, seen: int, op: Op)
    requires Ticking(f, set_, start, i, total, seen)
    requires ValidTime(op.now) && seen <= Nanos(op.now) && Advances(f.timer, op.now)
    requires op.Read? ==> Delivers(f, op.now, op.got)
    ensures var (g, answer) := Do(f, op);
      answer != Aborted && Ticking(g, set_, start, i, total + Handed(answer), Nanos(op.now))
  {
    match op
    case Gettime(now) => GettimeTicks(f, set_, start, i, total, seen, now);
    case Read(now, got) => ReadTicks(f, set_, start, i, total, seen, now, got);
  }

  /**
   Whatever reads and gettimes follow, the values returned plus the pending
   count are the instants due up to the last update, and no assertion fails.
   */
  lemma {:induction false} PeriodicRun(f: Fd, set_: int, start: int, i: int, total: int, seen: int, ops: seq<Op>)
    returns (sum: int, last: int)
    requires Ticking(f, set_, start, i, total, seen) && Lawful(f, ops, seen)
    requires forall op :: op in ops ==> ValidTime(op.now)
    ensures var (g, answers) := Run(f, ops);
      && Aborted !in answers
      && sum == total + Total(answers) && last == LastSeen(ops, seen)
      && Ticking(g, set_, start, i, sum, last)
      && sum + g.timer.expirations == Due(start, i, last)
    decreases |ops|
  {
    if ops == [] {
      sum, last := total, seen;
    } else {
      var op := ops[0];
      var (g, answer) := Do(f, op);
      DoTicks(f, set_, start, i, total, seen, op);
      assert forall o :: o in ops[1..] ==> o in ops;
      sum, last := PeriodicRun(g, set_, start, i, total + Handed(answer), Nanos(op.now), ops[1..]);
      var answers := Run(g, ops[1..]).1;
      assert ([answer] + answers)[1..] == answers;
    }
  }

  /** From the setting on: the first expiry is `value` from now, or at `value`. */
  lemma SetAndRun(f: Fd, abs: bool, value: Timespec, interval: Timespec, now: Timespec, ops: seq<Op>)
    requires ValidTimer(f.timer) && ValidTime(now) && forall op :: op in ops ==> ValidTime(op.now)
    requires ValidTime(value) && ValidTime(interval) && Nanos(value) > 0 && Nanos(interval) > 0
    requires SettimeStep(f, abs, value, interval, false, now, now).1 == Value(0)
    requires var (g, i) := (SettimeStep(f, abs, value, interval, false, now, now).0, Nanos(interval));
      var start := if abs then Nanos(value) else Nanos(now) + Nanos(value);
      ValidTimer(g.timer) && Lawful(g, ops, if start <= Nanos(now) then start - 1 else Nanos(now))
    ensures var (g, i) := (SettimeStep(f, abs, value, interval, false, now, now).0, Nanos(interval));
      var start := if abs then Nanos(value) else Nanos(now) + Nanos(value);
      var (h, answers) := Run(g, ops);
      Aborted !in answers &&
      (ops != [] ==> Total(answers) + h.timer.expirations == Due(start, i, Nanos(ops[|ops| - 1].now)))
  {
    var g := SettimeStep(f, abs, value, interval, false, now, now).0;
    var start := if abs then Nanos(value) else Nanos(now) + Nanos(value);
    var seen := if start <= Nanos(now) then start - 1 else Nanos(now);
    SetTicks(f, abs, value, interval, false, now, now, seen);
    var sum, last := PeriodicRun(g, Nanos(now), start, Nanos(interval), 0, seen, ops);
  }

  // ---------- Disarming, refusing, and one-shot timers ----------

  /** A zero it_value disarms: no kernel timer, no time left, and nothing to read, at any later time. */
  lemma SetToZero(f: Fd, abs: bool, interval: Timespec, old_: bool, now1: Timespec, now2: Timespec, later: Timespec,
      got: bool)
    requires ValidTimer(f.timer) && ValidTime(now1) && ValidTime(later) && ValidTime(interval)
    ensures var (g, answer) := SettimeStep(f, abs, ZERO, interval, old_, now1, now2);
      && answer == Value(0) && g.deadline == None && ValidTimer(g.timer)
      && Left(Advanced(g, later), later) == ZERO && ReadStep(g, later, got).1 == Again
  {
    UpdatedValid(f.timer, now1);
  }

  /** A setting is refused exactly if it is not valid or its first expiry cannot be named, and then not made. */
  lemma Refuses(f: Fd, abs: bool, value: Timespec, interval: Timespec, old_: bool, now1: Timespec, now2: Timespec)
    requires ValidTimer(f.timer) && ValidTime(now1) && ValidTime(now2)
    ensures var (g, answer) := SettimeStep(f, abs, value, interval, old_, now1, now2);
      var now := TimeOfSetting(f, abs, old_, now1, now2);
      && (answer == Value(0) || answer == Invalid)
      && (answer == Invalid <==>
            || !ValidTime(value) || !ValidTime(interval)
            || (!abs && Nanos(value) > 0 && Nanos(now) + Nanos(value) > MAX_TIME))
      && (answer == Invalid ==> g == f || (old_ && g == Advanced(f, now1)))
  {
    if ValidTime(value) {
      ValidNanos(value);
    }
  }

  /** Unless an armed relative timer is handed out, the time of a relative one starts when it is set. */
  lemma SetsFromNow(f: Fd, value: Timespec, interval: Timespec, old_: bool, now1: Timespec, now2: Timespec)
    requires ValidTimer(f.timer) && ValidTime(now1) && ValidTime(now2)
    requires ValidTime(value) && ValidTime(interval) && Nanos(value) > 0
    requires old_ ==> !Advanced(f, now1).timer.kind.Relative?
    ensures var (g, answer) := SettimeStep(f, false, value, interval, old_, now1, now2);
      answer == Value(0) ==>
        Nanos(g.timer.value) == Nanos(now2) + Nanos(value) && g.timer.interval == interval && g.timer.expirations == 0
  {
    ExpiryNanos(false, value, now2);
    ValidNanos(value);
  }

  /** Putting a relative setting back the moment it is handed out changes no expiry: no time is lost in between. */
  lemma SwapsBack(f: Fd, now1: Timespec, now2: Timespec)
    requires ValidTimer(f.timer) && ValidTime(now1) && ValidTime(now2)
    requires var t := Advanced(f, now1).timer; t.kind.Relative?
    ensures var was := Advanced(f, now1);
      var (g, answer) := SettimeStep(f, false, Left(was, now1), was.timer.interval, true, now1, now2);
      && answer == Value(0) && g.timer == was.timer.(expirations := 0)
      && g.deadline == Registered(was.timer.value, now1)
  {
    UpdatedValid(f.timer, now1);
    var was := Advanced(f, now1);
    ValidNanos(was.timer.value);
    ValidNanos(now1);
    NanosValid(Nanos(was.timer.value) - Nanos(now1));
    ExpiryNanos(false, Left(was, now1), now1);
    ValidNanos(Expiry(false, Left(was, now1), now1).value);
  }

  /** Before its expiry a one-shot timer tells the time left, and a read finds nothing and changes nothing. */
  lemma OneShotBefore(f: Fd, now: Timespec, got: bool)
    requires ValidTimer(f.timer) && ValidTime(now)
    requires !Disarmed(f.timer) && !Periodic(f.timer) && f.timer.expirations == 0
    requires f.deadline.Some? ==> Nanos(f.timer.value) <= f.deadline.value
    requires Nanos(now) < Nanos(f.timer.value) && Delivers(f, now, got)
    ensures Advanced(f, now) == f && Nanos(Left(f, now)) == Nanos(f.timer.value) - Nanos(now) > 0
    ensures ReadStep(f, now, got) == (f, Again)
  {
    ValidNanos(f.timer.value);
    ValidNanos(now);
    NanosValid(Nanos(f.timer.value) - Nanos(now));
  }

  /** The first read from then on returns 1 and leaves no kernel timer; none after it returns anything. */
  lemma OneShotAfter(f: Fd, now: Timespec, got: bool, later: Timespec, gotLater: bool)
    requires ValidTimer(f.timer) && ValidTime(now)
    requires !Disarmed(f.timer) && !Periodic(f.timer) && f.timer.expirations == 0
    requires Nanos(f.timer.value) <= Nanos(now)
    ensures var (g, answer) := ReadStep(f, now, got);
      && answer == Value(1) && g.deadline == None && ValidTimer(g.timer)
      && Left(Advanced(g, later), later) == ZERO && ReadStep(g, later, gotLater) == (g, Again)
  {
  }

  // ---------- Where the code does less ----------

  /** The assertions of a periodic read that the kernel timer woke up fail on overflow, and only then. */
  lemma AbortsOnOverflow(f: Fd, now: Timespec)
    requires ValidTimer(f.timer) && ValidTime(now) && !Disarmed(f.timer) && Periodic(f.timer)
    requires f.timer.expirations == 0 && Nanos(f.timer.value) <= Nanos(now)
    ensures ReadStep(f, now, true).1 == Aborted <==> Overflows(f.timer, now)
  {
    var (v, i) := (Nanos(f.timer.value), Nanos(f.timer.interval));
    ValidNanos(f.timer.interval);
    DueSpan(v, i, Nanos(now));
    MulAtLeast(Missed(f.timer, now), i);
  }

  /** So an interval of more than 2^63 nanoseconds makes the first read that the kernel timer wakes up abort. */
  lemma LongIntervalAborts(f: Fd, abs: bool, value: Timespec, interval: Timespec, old_: bool, now1: Timespec,
      now2: Timespec, later: Timespec)
    requires ValidTimer(f.timer) && ValidTime(now1) && ValidTime(now2) && ValidTime(later)
    requires ValidTime(value) && ValidTime(interval) && Nanos(value) > 0 && Nanos(interval) > INT64_MAX
    requires SettimeStep(f, abs, value, interval, old_, now1, now2).1 == Value(0)
    requires Delivers(SettimeStep(f, abs, value, interval, old_, now1, now2).0, later, true)
    ensures var g := SettimeStep(f, abs, value, interval, old_, now1, now2).0;
      ValidTimer(g.timer) && ReadStep(g, later, true).1 == Aborted
  {
    var now := TimeOfSetting(f, abs, old_, now1, now2);
    var g := SettimeStep(f, abs, value, interval, old_, now1, now2).0;
    ValidNanos(now);
    ExpiryNanos(abs, value, now);
    RegisteredOnTime(g.timer.value, now);
    IntervalFits(g.timer, later);
    AbortsOnOverflow(g, later);
  }

  /** For one, on a fresh timer: settime with 1 ns and 10^10 s, and a read a microsecond later. */
  lemma AbortReached(now: Timespec)
    requires 0 <= now.sec < 1_000_000_000 && 0 <= now.nsec < NANOS - 1000
    ensures var created := Fd(Timer(Unspecified, ZERO, ZERO, 0), None);
      var (g, answer) := SettimeStep(created, false, Timespec(0, 1), Timespec(10_000_000_000, 0), false, now, now);
      var later := now.(nsec := now.nsec + 1000);
      && answer == Value(0) && Delivers(g, later, true)
      && ValidTimer(g.timer) && ReadStep(g, later, true).1 == Aborted
  {
    var created := Fd(Timer(Unspecified, ZERO, ZERO, 0), None);
    var later := now.(nsec := now.nsec + 1000);
    LongIntervalAborts(created, false, Timespec(0, 1), Timespec(10_000_000_000, 0), false, now, now, later);
  }

  /** The expiry of a one-shot timer reaches a read unless a gettime saw it first. */
  lemma OneShotRead(f: Fd, t1: Timespec, t2: Timespec, got: bool)
    requires ValidTimer(f.timer) && ValidTime(t1) && ValidTime(t2)
    requires !Disarmed(f.timer) && !Periodic(f.timer) && f.timer.expirations == 0
    requires Nanos(f.timer.value) <= Nanos(t2)
    ensures ValidTimer(Advanced(f, t1).timer)
    ensures ReadStep(Advanced(f, t1), t2, got).1 ==
      if Nanos(t1) < Nanos(f.timer.value) then Value(1) else Again
    ensures Nanos(f.timer.value) <= Nanos(t1) ==> Advanced(f, t1).timer.expirations == 1
  {
    UpdatedValid(f.timer, t1);
  }

  /** Such a run from a fresh timer: a one-shot setting of 1 ns, a gettime a microsecond later, a read that fails. */
  lemma OneShotLost(now: Timespec, later: Timespec, got: bool)
    requires 0 <= now.sec < 1_000_000_000 && 0 <= now.nsec < NANOS - 1000
    requires ValidTime(later) && Nanos(now) + 1000 <= Nanos(later)
    ensures var created := Fd(Timer(Unspecified, ZERO, ZERO, 0), None);
      var (set_, answer) := SettimeStep(created, false, Timespec(0, 1), ZERO, false, now, now);
      && answer == Value(0) && ValidTimer(set_.timer)
      && var seen := Advanced(set_, now.(nsec := now.nsec + 1000));
         && Left(seen, now.(nsec := now.nsec + 1000)) == ZERO
         && ValidTimer(seen.timer) && ReadStep(seen, later, got).1 == Again
  {
    var created := Fd(Timer(Unspecified, ZERO, ZERO, 0), None);
    var set_ := SettimeStep(created, false, Timespec(0, 1), ZERO, false, now, now).0;
    ValidNanos(now);
    ExpiryNanos(false, Timespec(0, 1), now);
    OneShotRead(set_, now.(nsec := now.nsec + 1000), later, got);
  }

  // ---------- NetBSD: whole ticks ----------

  function Uint32(x: int): int {
    x % 0x1_0000_0000
  }

  function MsPerTick(hz: int): int
    requires hz > 0
  {
    Uint32(1000 / hz + if 1000 % hz != 0 then 1 else 0)
  }

  /** round_up_millis, in 32-bit unsigned arithmetic. */
  function RoundUpMillis(millis: int, hz: int): Option<int> {
    if hz <= 0 then None else Some(RoundToTicks(millis, MsPerTick(hz)))
  }

  function RoundToTicks(millis: int, tick: int): int
    requires tick != 0
  {
    var ms := Uint32(millis);
    OneTickMore(ms, Uint32(Whole(ms, tick)), tick)
  }

  function Whole(ms: int, tick: int): int
    requires tick != 0
  {
    ms / tick * tick
  }

  /** Its second half: up to the next whole tick, one tick more, and a second for long sleeps. */
  function OneTickMore(ms: int, whole: int, tick: int): int {
    var up := if whole < ms then Uint32(whole + tick) else whole;
    var more := Uint32(up + tick);
    if more >= 0x20000 && more % 1000 != 0 then Uint32(more + 1000) else more
  }

  /** The kernel's own conversion to ticks, in 32-bit unsigned arithmetic too. */
  function KernelTicks(ms: int, hz: int): int {
    if ms >= 0x20000 then Uint32(ms / 1000 * hz) else Uint32(ms * hz) / 1000
  }

  /** How long the kernel sleeps. */
  function KernelMillis(ms: int, hz: int): int
    requires hz > 0
  {
    KernelTicks(ms, hz) * 1000 / hz
  }

  lemma TickLength(hz: int)
    requires hz > 0
    ensures 1 <= MsPerTick(hz) <= 1000 && MsPerTick(hz) * hz >= 1000
  {
    var (q, r) := (1000 / hz, 1000 % hz);
    var up := if r != 0 then 1 else 0;
    Divided(1000, hz);
    if r != 0 && q > 0 {
      MulOrder(2, hz, q);
    }
    assert Uint32(q + up) == q + up;
    assert (q + up) * hz == q * hz + up * hz;
  }

  lemma Divided(a: nat, b: int)
    requires b > 0
    ensures a == a / b * b + a % b && 0 <= a % b < b && 0 <= a / b <= a
  {
    MulAtLeast(a / b, b);
  }

  /** Up to the next multiple of a tick, and one tick more. */
  lemma WholeTicks(ms: int, tick: int)
    requires ms >= 0 && tick > 0
    ensures ms - tick < ms / tick * tick <= ms && ms / tick * tick >= 0
  {
    assert ms == ms / tick * tick + ms % tick;
    MulOrder(0, ms / tick, tick);
  }

  /** Up to 1014 ticks a second the products stay below 2^32. */
  const MAX_HZ := 1014

  lemma ShortSleep(r: int, ms: int, tick: int, hz: int)
    requires 0 < hz <= MAX_HZ && ms >= 0 && tick * hz >= 1000 && ms + tick <= r < 0x20000
    ensures KernelMillis(r, hz) >= ms
  {
    MulOrder(ms + tick, r, hz);
    assert (ms + tick) * hz == ms * hz + tick * hz;
    MulRoom(r, 0x20000, hz);
    var q := r * hz / 1000;
    assert q * 1000 >= ms * hz;
    DivAtLeast(q * 1000, ms, hz);
  }

  lemma LongSleep(r: int, ms: int, hz: int)
    requires 0 < hz <= MAX_HZ && 0x20000 <= r <= LONGEST + 3000 && ms <= r / 1000 * 1000
    ensures KernelMillis(r, hz) >= ms
  {
    var q := r / 1000;
    MulRoom(q, LONGEST / 1000 + 3, hz);
    assert q * hz * 1000 == q * 1000 * hz;
    MulOrder(ms, q * 1000, hz);
    DivAtLeast(q * hz * 1000, ms, hz);
  }

  lemma MulRoom(a: nat, b: nat, hz: int)
    requires a <= b && 0 < hz <= MAX_HZ && b * MAX_HZ < 0x1_0000_0000
    ensures Uint32(a * hz) == a * hz >= 0
  {
    MulOrder(0, a, hz);
    MulOrder(a, b, hz);
    if b > 0 {
      MulOrder(hz, MAX_HZ, b);
    }
  }

  lemma DivAtLeast(a: int, b: int, c: int)
    requires c > 0 && a >= b * c
    ensures a / c >= b
  {
    var q := a / c;
    assert a == q * c + a % c;
    assert (q + 1) * c == q * c + c;
    if q < b {
      MulOrder(q + 1, b, c);
    }
  }

  /** The longest duration in milliseconds: 49 days. */
  const LONGEST := 4_233_600_000

  /** Up to there nothing wraps. */
  lemma Rounded(ms: int, whole: int, tick: int)
    requires 1 <= tick <= 1000 && 0 < ms <= LONGEST && 0 <= whole && ms - tick < whole <= ms
    ensures var more := (if whole < ms then whole + tick else whole) + tick;
      && ms + tick <= more <= ms + 2000
      && OneTickMore(ms, whole, tick) == if more >= 0x20000 && more % 1000 != 0 then more + 1000 else more
  {
    var up := if whole < ms then whole + tick else whole;
    assert Uint32(whole + tick) == whole + tick;
    assert Uint32(up + tick) == up + tick;
    assert Uint32(up + tick + 1000) == up + tick + 1000;
  }

  lemma WholeSeconds(ms: int, more: int)
    requires ms < more
    ensures var r := if more % 1000 != 0 then more + 1000 else more; ms <= r / 1000 * 1000
  {
  }

  /** A duration that register_event hands to the kernel on NetBSD: more than zero and below 49 days. */
  predicate Sleeps(d: Timespec) {
    0 <= d.sec < 4_233_600 && 0 <= d.nsec < NANOS && Millis(d) > 0
  }

  /** The rounding itself does not wrap. */
  lemma RoundedUp(d: Timespec, hz: int)
    requires Sleeps(d) && hz > 0
    ensures var r := RoundUpMillis(Millis(d), hz); r.Some? && Millis(d) < r.value <= Millis(d) + 3000
  {
    var (ms, tick) := (Millis(d), MsPerTick(hz));
    TickLength(hz);
    WholeTicks(ms, tick);
    Small(ms);
    RoundUpIs(ms, tick, Whole(ms, tick));
    Rounded(ms, Whole(ms, tick), tick);
  }

  lemma NotEarly(d: Timespec, hz: int)
    requires Sleeps(d) && 0 < hz <= MAX_HZ
    ensures KernelMillis(RoundToTicks(Millis(d), MsPerTick(hz)), hz) >= Millis(d)
  {
    var (ms, tick) := (Millis(d), MsPerTick(hz));
    TickLength(hz);
    WholeTicks(ms, tick);
    Small(ms);
    RoundUpIs(ms, tick, Whole(ms, tick));
    RoundedTicks(ms, hz, tick, Whole(ms, tick), RoundToTicks(ms, tick));
  }

  /** Every duration sleeps as long as asked. */
  ghost predicate NeverEarly(hz: int)
    requires hz > 0
  {
    forall d :: Sleeps(d) ==> KernelMillis(RoundToTicks(Millis(d), MsPerTick(hz)), hz) >= Millis(d)
  }

  /** One nanosecond below the cutoff: 2^32 - 1 ticks are too few. */
  const TOO_LONG := Timespec(4_233_599, 999_999_999)

  lemma Early(hz: int)
    requires hz > MAX_HZ
    ensures Sleeps(TOO_LONG) && KernelMillis(RoundToTicks(Millis(TOO_LONG), MsPerTick(hz)), hz) < Millis(TOO_LONG)
  {
    var ticks := KernelTicks(RoundToTicks(Millis(TOO_LONG), MsPerTick(hz)), hz);
    assert ticks < 0x1_0000_0000;
    assert Millis(TOO_LONG) == LONGEST;
    MulOrder(MAX_HZ + 1, hz, LONGEST);
    DivBelow(ticks * 1000, LONGEST, hz);
  }

  lemma DivBelow(a: int, b: int, c: int)
    requires c > 0 && a < b * c
    ensures a / c < b
  {
    var q := a / c;
    assert a == q * c + a % c;
    if b <= q {
      MulOrder(b, q, c);
    }
  }

  /** The kernel sleeps no shorter than asked, whatever is asked, exactly up to 1014 ticks a second. */
  lemma TicksNeverEarly(hz: int)
    requires hz > 0
    ensures NeverEarly(hz) <==> hz <= MAX_HZ
  {
    if hz <= MAX_HZ {
      forall d | Sleeps(d)
        ensures KernelMillis(RoundToTicks(Millis(d), MsPerTick(hz)), hz) >= Millis(d)
      {
        NotEarly(d, hz);
      }
    } else {
      Early(hz);
    }
  }

  /** At 1015 ticks a second the longest sleep of almost 49 days ends after about 35 minutes. */
  lemma EarlyAt1015()
    ensures RoundUpMillis(Millis(TOO_LONG), 1015) == Some(4_233_601_001)
    ensures KernelMillis(4_233_601_001, 1015) == 2_106_127
  {
    var ms := Millis(TOO_LONG);
    assert ms == LONGEST && MsPerTick(1015) == 1;
    RoundUpIs(ms, 1, ms);
    Rounded(ms, ms, 1);
    KernelTicksAre(4_233_601_001, 1015, 4_233_601, 2_137_719);
  }

  lemma KernelTicksAre(ms: int, hz: int, seconds: int, ticks: int)
    requires ms >= 0x20000 && seconds == ms / 1000
    requires seconds * hz == ticks + 0x1_0000_0000 && 0 <= ticks < 0x1_0000_0000
    ensures KernelTicks(ms, hz) == ticks
  {
  }

  lemma RoundUpIs(ms: int, tick: int, whole: int)
    requires tick > 0 && 0 < ms <= LONGEST && 0 <= whole <= ms
    requires Whole(Uint32(ms), tick) == whole
    ensures RoundToTicks(ms, tick) == OneTickMore(ms, whole, tick)
  {
    Small(ms);
    Small(whole);
  }

  lemma Small(x: int)
    requires 0 <= x < 0x1_0000_0000
    ensures Uint32(x) == x
  {
  }

  lemma RoundedTicks(ms: int, hz: int, tick: int, whole: int, r: int)
    requires 0 < hz <= MAX_HZ && 1 <= tick <= 1000 && tick * hz >= 1000 && r == OneTickMore(ms, whole, tick)
    requires 0 < ms <= LONGEST && 0 <= whole && ms - tick < whole <= ms
    ensures KernelMillis(r, hz) >= ms
  {
    Rounded(ms, whole, tick);
    if r < 0x20000 {
      ShortSleep(r, ms, tick, hz);
    } else {
      WholeSeconds(ms, (if whole < ms then whole + tick else whole) + tick);
      LongSleep(r, ms, hz);
    }
  }

  // ---------- The object ----------

  /** The timespecsub macro. */
  function Minus(t: Timespec, u: Timespec): (r: Timespec)
    requires ValidTime(t) && ValidTime(u) && Nanos(u) <= Nanos(t)
    ensures r == FromNanos(Nanos(t) - Nanos(u))
  {
    if t.nsec - u.nsec < 0 then Timespec(t.sec - u.sec - 1, t.nsec - u.nsec + NANOS)
    else Timespec(t.sec - u.sec, t.nsec - u.nsec)
  }

  /** ts_to_nanos: None stands for EOVERFLOW. */
  function TsToNanos(t: Timespec): (r: Option<int>)
    requires 0 <= t.sec && 0 <= t.nsec < NANOS
    ensures r == if Nanos(t) <= INT64_MAX then Some(Nanos(t)) else None
  {
    if !Int64(t.sec * NANOS) then None
    else if !Int64(t.sec * NANOS + t.nsec) then None
    else Some(t.sec * NANOS + t.nsec)
  }

  class TimerFD {
    var kind: Kind
    var value: Timespec
    var interval: Timespec
    var expirations: int
    /** The kernel timer with ident 0, which only the kernel can see. */
    ghost var deadline: Option<int>

    function Current(): Timer
      reads this
    {
      Timer(kind, value, interval, expirations)
    }

    ghost function State(): Fd
      reads this
    {
      Fd(Current(), deadline)
    }

    ghost predicate Valid()
      reads this
    {
      ValidTimer(Current())
    }

    constructor ()
      ensures Valid() && State() == Fd(Timer(Unspecified, ZERO, ZERO, 0), None)
    {
      kind, value, interval, expirations, deadline := Unspecified, ZERO, ZERO, 0, None;
    }

    method DisarmNow()
      modifies this`kind, this`value
      ensures Current() == Disarm(old(Current()))
    {
      value, kind := ZERO, Unspecified;
    }

    /** timerfd_ctx_update_to_current_time. */
    method UpdateToCurrentTime(now: Timespec)
      requires Valid() && ValidTime(now)
      modifies this`kind, this`value, this`expirations
      ensures Valid() && Current() == Updated(old(Current()), now)
    {
      UpdatedValid(Current(), now);
      ValidNanos(value);
      if Disarmed(Current()) {
        return;
      }
      if Periodic(Current()) {
        PeriodicUpdate(now);
      } else {
        BeforeNanos(now, value);
        if !Before(now, value) {
          expirations := (expirations + 1) % UINT64;
          DisarmNow();
        }
      }
    }

    /** The branch for interval timers. */
    method PeriodicUpdate(now: Timespec)
      requires Valid() && ValidTime(now) && !Disarmed(Current()) && Periodic(Current())
      modifies this`kind, this`value, this`expirations
      ensures Current() == Updated(old(Current()), now)
    {
      ghost var t := Current();
      ValidNanos(value);
      ValidNanos(interval);
      DueSpan(Nanos(value), Nanos(interval), Nanos(now));
      var diff := new Variable(now);
      var it := new Variable(value);
      var ok := SubSafe(diff, it, diff);
      if diff.sec < 0 {
        UpdatedBy(t, now, 0, 0);
        return;
      }
      var diffNanos := TsToNanos(diff.Get());
      var intervalNanos := TsToNanos(interval);
      MulAtLeast(Missed(t, now), Nanos(interval));
      if diffNanos.None? || intervalNanos.None? {
        IntervalFits(t, now);
        DisarmNow();
        return;
      }
      var n := diffNanos.value / intervalNanos.value;
      assert n + 1 == Missed(t, now);
      if n == INT64_MAX {
        DisarmNow();
        return;
      }
      n := n + 1;
      var nanosToAdd := n * intervalNanos.value;
      if !Int64(nanosToAdd) {
        DisarmNow();
        return;
      }
      var next := new Variable(FromNanos(nanosToAdd));
      NanosValid(nanosToAdd);
      ok := AddSafe(next, it, next);
      if !ok {
        DisarmNow();
        return;
      }
      expirations := (expirations + n) % UINT64;
      value := next.Get();
      ValidNanos(value);
    }

    /** The first lines of timerfd_ctx_register_event. */
    method TimeUntil(expiry: Timespec, now: Timespec) returns (d: Timespec)
      requires ValidTime(expiry) && ValidTime(now)
      ensures d == Delay(expiry, now)
    {
      ValidNanos(expiry);
      ValidNanos(now);
      var diff := new Variable(expiry);
      var current := new Variable(now);
      var ok := SubSafe(diff, current, diff);
      if !ok || diff.sec < 0 {
        diff.sec, diff.nsec := 0, 0;
      } else {
        ValidNanos(diff.Get());
      }
      return diff.Get();
    }

    /** timerfd_ctx_register_event: the old kernel timer goes, a new one is asked for. */
    method RegisterEvent(expiry: Timespec, now: Timespec)
      requires ValidTime(expiry) && ValidTime(now)
      modifies this`deadline
      ensures deadline == Registered(expiry, now)
    {
      var diff := TimeUntil(expiry, now);
      deadline := None;
      if diff.sec >= TEN_YEARS {
        return;
      }
      var micros := diff.sec * 1_000_000 + diff.nsec / 1000;
      if diff.nsec % 1000 != 0 {
        micros := micros + 1;
      }
      deadline := Some(Nanos(now) + 1000 * micros);
    }

    /** timerfd_ctx_rearm_kevent. */
    method Rearm(now: Timespec, needDelete: bool)
      requires Valid() && ValidTime(now) && (!needDelete ==> Disarmed(Current()) ==> deadline == None)
      modifies this`deadline
      ensures deadline == if Disarmed(Current()) then None else Registered(value, now)
    {
      if !Disarmed(Current()) {
        RegisterEvent(value, now);
      } else if needDelete {
        deadline := None;
      }
    }

    /** timerfd_ctx_gettime: the time left, and the interval. */
    method Gettime(now: Timespec) returns (left: Timespec, every: Timespec)
      requires Valid() && ValidTime(now)
      modifies this`kind, this`value, this`expirations
      ensures Valid() && State() == Advanced(old(State()), now)
      ensures left == Left(State(), now) && every == interval
    {
      UpdatedValid(Current(), now);
      var known := !kind.Unspecified?;
      if known {
        UpdateToCurrentTime(now);
      }
      left, every := value, interval;
      if known && !Disarmed(Current()) {
        BeforeNanos(now, value);
        assert Before(now, left);
        left := Minus(left, now);
      }
    }

    method NewExpiry(abs: bool, newValue: Timespec, now: Timespec) returns (r: Option<Timespec>)
      requires ValidTime(newValue) && ValidTime(now)
      ensures r == Expiry(abs, newValue, now)
      ensures r.Some? ==> ValidTime(r.value) && (Nanos(newValue) > 0 ==> Nanos(r.value) > 0)
    {
      if abs {
        return Some(newValue);
      }
      var sum := new Variable(now);
      var delay := new Variable(newValue);
      var ok := AddSafe(sum, delay, sum);
      ValidNanos(now);
      if !ok {
        return None;
      }
      ValidNanos(sum.Get());
      return Some(sum.Get());
    }

    /** timerfd_ctx_settime; with old_, the setting it replaces is advanced to now1 first. */
    method Settime(abs: bool, newValue: Timespec, newInterval: Timespec, old_: bool, now1: Timespec, now2: Timespec)
      returns (answer: Answer, left: Timespec, every: Timespec)
      requires Valid() && ValidTime(now1) && ValidTime(now2)
      modifies this
      ensures Valid()
      ensures (State(), answer) == SettimeStep(old(State()), abs, newValue, newInterval, old_, now1, now2)
      ensures old_ && ValidTime(newValue) && ValidTime(newInterval) ==>
        left == Left(Advanced(old(State()), now1), now1) && every == old(interval)
    {
      answer, left, every := Value(0), ZERO, ZERO;
      if !ValidTime(newValue) || !ValidTime(newInterval) {
        return Invalid, left, every;
      }
      var hasTime := false;
      if old_ {
        hasTime := !kind.Unspecified?;
        left, every := Gettime(now1);
      }
      if newValue.sec == 0 && newValue.nsec == 0 {
        deadline := None;
        DisarmNow();
        expirations := 0;
        return;
      }
      var newKind := if abs then Absolute else Relative;
      var now := if !hasTime || kind != newKind then now2 else now1;
      var expiry := NewExpiry(abs, newValue, now);
      if expiry.None? {
        return Invalid, left, every;
      }
      Store(newKind, expiry.value, newInterval, now);
    }

    method Store(newKind: Kind, expiry: Timespec, newInterval: Timespec, now: Timespec)
      requires ValidTime(expiry) && ValidTime(now)
      modifies this
      ensures State() == Fd(Timer(newKind, expiry, newInterval, 0), Registered(expiry, now))
    {
      RegisterEvent(expiry, now);
      kind, value, interval, expirations := newKind, expiry, newInterval, 0;
    }

    /** timerfd_ctx_read; Aborted stands for its failing assertion. */
    method Read(now: Timespec, got: bool) returns (answer: Answer)
      requires Valid() && ValidTime(now)
      modifies this
      ensures Valid()
      ensures (State(), answer) == ReadStep(old(State()), now, got)
    {
      UpdatedValid(Current(), now);
      if kind.Unspecified? {
        return Again;
      }
      if got {
        deadline := None;
      }
      UpdateToCurrentTime(now);
      var n := expirations;
      expirations := 0;
      if n == 0 {
        return if got then Aborted else Again;
      }
      Rearm(now, !got);
      return Value(n);
    }
  }

  lemma IntervalFits(t: Timer, now: Timespec)
    requires ValidTimer(t) && !Disarmed(t) && Periodic(t)
    requires Nanos(t.value) <= Nanos(now)
    requires Nanos(now) - Nanos(t.value) > INT64_MAX || Nanos(t.interval) > INT64_MAX
    ensures Overflows(t, now)
  {
    ValidNanos(t.interval);
    DueSpan(Nanos(t.value), Nanos(t.interval), Nanos(now));
    MulOrder(1, Missed(t, now), Nanos(t.interval));
  }
}
