/**
 The accounting behind the realtime step detector: src/timerfd.c counts the
 timerfds that a clock step can affect, and src/epoll_shim_ctx.c runs a
 detector thread while there are any.  Any number of timerfds and threads; the
 section under step_detector_mutex is one step, what leads to it another.
 */
module StepDetector {
  import opened Options
  import Counting

  /** The life of a timerfd; its mutex, or being its last user, serializes what is done to it. */
  datatype Phase =
    | Absent
    | Live
    | Setting(oldCanJump: bool)     // settime has changed is_abstime, the counter does not know
    | Closing                       // the last reference is gone, the counter does not know

  datatype Timer = Timer(realtime: bool, abstime: bool, phase: Phase)

  datatype State = State(
    timers: seq<Timer>,
    count: int,                     // nr_fds_for_realtime_step_detector
    generation: int,                // realtime_step_detector_generation
    detectors: multiset<int>)       // the generation of each running detector thread

  datatype Action =
    | Create(realtime: bool)
    | Set(changes: bool, abstime: bool)     // timerfd_ctx_settime, which may fail and change nothing
    | DropLast
    | Update(starts: bool)                  // epoll_shim_ctx_update_realtime_change_monitoring
    | Tick(generation: int)                 // a detector thread looks at the generation

  function Init(slots: nat): State {
    State(seq(slots, _ => Timer(false, false, Absent)), 0, 0, multiset{})
  }

  predicate CanJump(t: Timer) {
    t.realtime && t.abstime
  }

  /** new_can_jump - old_can_jump, or minus old_can_jump on close. */
  function ChangeOf(t: Timer): int {
    match t.phase
    case Setting(old_) => (if CanJump(t) then 1 else 0) - (if old_ then 1 else 0)
    case Closing => if CanJump(t) then -1 else 0
    case _ => 0
  }

  function After(t: Timer): Timer {
    t.(phase := if t.phase.Setting? then Live else Absent)
  }

  /** The body of the function, between locking and unlocking. */
  function Monitor(s: State, change: int, starts: bool): State {
    if change == 0 then s
    else if change < 0 then
      var count := s.count + change;
      s.(count := count, generation := if count == 0 then s.generation + 1 else s.generation)
    else
      s.(count := s.count + change,
         detectors := if s.count == 0 && starts then s.detectors + multiset{s.generation} else s.detectors)
  }

  /** What an action makes of one timerfd; None if it does not apply. */
  function Next(t: Timer, a: Action): Option<Timer> {
    match a
    case Create(realtime) =>
      if t.phase.Absent? then Some(Timer(realtime, false, Live)) else None
    case Set(changes, abstime) =>
      if !t.phase.Live? then None
      else Some(if changes then t.(abstime := abstime, phase := Setting(CanJump(t))) else t)
    case DropLast =>
      if t.phase.Live? then Some(t.(phase := Closing)) else None
    case Update(_) =>
      if t.phase.Setting? || t.phase.Closing? then Some(After(t)) else None
    case Tick(_) => None
  }

  function Step(s: State, i: nat, a: Action): Option<State> {
    if a.Tick? then
      if a.generation !in s.detectors then None
      else if a.generation == s.generation then Some(s)
      else Some(s.(detectors := s.detectors - multiset{a.generation}))
    else if i >= |s.timers| then None
    else
      var t := s.timers[i];
      match Next(t, a)
      case None => None
      case Some(u) =>
        var m := if a.Update? then Monitor(s, ChangeOf(t), a.starts) else s;
        Some(m.(timers := s.timers[i := u]))
  }

  /** The counter includes this timer. */
  predicate Accounted(t: Timer) {
    match t.phase
    case Absent => false
    case Setting(old_) => old_
    case _ => CanJump(t)
  }

  function InCount(): Timer -> bool {
    (t: Timer) => Accounted(t)
  }

  ghost predicate Inv(s: State) {
    && s.count == Counting.Count(s.timers, InCount())
    && (forall g :: g in s.detectors ==> g <= s.generation)
    && s.detectors[s.generation] <= (if s.count == 0 then 0 else 1)
  }

  lemma InitInv(slots: nat)
    ensures Inv(Init(slots))
  {
    Counting.CountNone(Init(slots).timers, InCount());
  }

  /** The assertion that the counter does not underflow. */
  lemma NoUnderflow(s: State, i: nat)
    requires Inv(s) && i < |s.timers|
    ensures s.count >= -ChangeOf(s.timers[i])
  {
    if ChangeOf(s.timers[i]) < 0 {
      Counting.CountMember(s.timers, i, InCount());
    }
  }

  lemma StepInv(s: State, i: nat, a: Action)
    requires Inv(s) && Step(s, i, a).Some?
    ensures Inv(Step(s, i, a).value)
  {
    if !a.Tick? {
      var n := Step(s, i, a).value;
      NoUnderflow(s, i);
      Counting.CountMove(s.timers, i, n.timers[i], InCount());
    }
  }

  /** Every life of a timerfd is possible, and a detector thread always gets to look. */
  lemma Enabled(s: State, i: nat, realtime: bool, changes: bool, abstime: bool, starts: bool, g: int)
    requires i < |s.timers|
    ensures var p := s.timers[i].phase;
      && (Step(s, i, Create(realtime)).Some? <==> p.Absent?)
      && (Step(s, i, Set(changes, abstime)).Some? <==> p.Live?) && (Step(s, i, DropLast).Some? <==> p.Live?)
      && (Step(s, i, Update(starts)).Some? <==> p.Setting? || p.Closing?)
      && (Step(s, i, Tick(g)).Some? <==> g in s.detectors)
  {
  }

  /** What becomes of a timerfd: its clock is chosen once, its mode by the last setting that took effect. */
  lemma TimerStep(s: State, i: nat, a: Action, j: nat)
    requires Step(s, i, a).Some? && j < |s.timers|
    ensures var n := Step(s, i, a).value;
      && |n.timers| == |s.timers|
      && (a.Tick? || j != i ==> n.timers[j] == s.timers[j])
      && (!a.Tick? && j == i ==>
            var (t, u) := (s.timers[j], n.timers[j]);
            && u.realtime == (if a.Create? then a.realtime else t.realtime)
            && u.abstime == (if a.Create? then false else if a.Set? && a.changes then a.abstime else t.abstime)
            && (u.phase.Absent? <==> a.Update? && t.phase.Closing?)
            && (u.phase.Closing? <==> a.DropLast?))
  {
  }

  /** A detector of the current generation runs from the rise from zero, if it could be started, to the fall to zero. */
  lemma DetectorStep(s: State, i: nat, a: Action)
    requires Inv(s) && Step(s, i, a).Some?
    ensures var n := Step(s, i, a).value;
      n.detectors[n.generation] ==
        if n.count == 0 then 0
        else if s.count == 0 then (if a.Update? && a.starts then 1 else 0)
        else s.detectors[s.generation]
  {
    StepInv(s, i, a);
    if !a.Tick? {
      NoUnderflow(s, i);
    }
  }

  datatype Event = Event(i: nat, a: Action)

  function Run(s: State, trace: seq<Event>): Option<State>
    decreases |trace|
  {
    if trace == [] then Some(s)
    else match Step(s, trace[0].i, trace[0].a)
         case None => None
         case Some(n) => Run(n, trace[1..])
  }

  lemma {:induction false} RunInv(s: State, trace: seq<Event>)
    requires Inv(s) && Run(s, trace).Some?
    ensures Inv(Run(s, trace).value)
    decreases |trace|
  {
    if trace != [] {
      StepInv(s, trace[0].i, trace[0].a);
      RunInv(Step(s, trace[0].i, trace[0].a).value, trace[1..]);
    }
  }

  /** Threads can be started. */
  predicate AllStart(trace: seq<Event>) {
    forall k :: 0 <= k < |trace| && trace[k].a.Update? ==> trace[k].a.starts
  }

  predicate Detected(s: State) {
    s.detectors[s.generation] == if s.count == 0 then 0 else 1
  }

  lemma {:induction false} RunDetected(s: State, trace: seq<Event>)
    requires Inv(s) && Detected(s) && Run(s, trace).Some? && AllStart(trace)
    ensures Detected(Run(s, trace).value)
    decreases |trace|
  {
    if trace != [] {
      var (i, a) := (trace[0].i, trace[0].a);
      StepInv(s, i, a);
      DetectorStep(s, i, a);
      if !a.Update? {
        CountsByUpdate(s, i, a);
      }
      RunDetected(Step(s, i, a).value, trace[1..]);
    }
  }

  lemma CountsByUpdate(s: State, i: nat, a: Action)
    requires Step(s, i, a).Some? && !a.Update?
    ensures Step(s, i, a).value.count == s.count
  {
  }

  /** Where threads can be started, exactly one detector runs while there is a timer that a clock step can affect. */
  lemma AlwaysDetected(slots: nat, trace: seq<Event>)
    requires Run(Init(slots), trace).Some? && AllStart(trace)
    ensures var s := Run(Init(slots), trace).value; s.detectors[s.generation] == if s.count == 0 then 0 else 1
  {
    InitInv(slots);
    RunDetected(Init(slots), trace);
  }

  function Jumping(): Timer -> bool {
    (t: Timer) => !t.phase.Absent? && CanJump(t)
  }

  lemma {:induction false} SettledCount(timers: seq<Timer>)
    requires forall i :: 0 <= i < |timers| ==> timers[i].phase.Absent? || timers[i].phase.Live?
    ensures Counting.Count(timers, InCount()) == Counting.Count(timers, Jumping())
  {
    if timers != [] {
      SettledCount(timers[1..]);
    }
  }

  /**
   In every run at most one detector thread carries the current generation,
   none if the counter is zero, and all others are going to stop; between
   calls the counter is the number of absolute realtime timers.
   */
  lemma Detection(slots: nat, trace: seq<Event>)
    requires Run(Init(slots), trace).Some?
    ensures var s := Run(Init(slots), trace).value;
      && s.detectors[s.generation] <= (if s.count == 0 then 0 else 1)
      && (forall g :: g in s.detectors && g != s.generation ==>
            Step(s, 0, Tick(g)) == Some(s.(detectors := s.detectors - multiset{g})))
      && ((forall i :: 0 <= i < |s.timers| ==> s.timers[i].phase.Absent? || s.timers[i].phase.Live?) ==>
            s.count == Counting.Count(s.timers, Jumping()))
  {
    InitInv(slots);
    RunInv(Init(slots), trace);
    var s := Run(Init(slots), trace).value;
    if forall i :: 0 <= i < |s.timers| ==> s.timers[i].phase.Absent? || s.timers[i].phase.Live? {
      SettledCount(s.timers);
    }
  }
}
