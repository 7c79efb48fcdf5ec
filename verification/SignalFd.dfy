/**
 The wakeup protocol of src/signalfd_ctx.c on top of src/kqueue_event.c.
 Calls on one signalfd are serialized by desc->mutex; signals arrive, and are
 taken by other threads, between any two system calls.  No system call fails.
 */
module SignalFd {
  import opened Options

  /** Where the call in progress is. */
  datatype Pc =
    | Fresh                     // not yet registered with the kqueue
    | Registered                // signalfd_ctx_init, about to look for pending signals
    | Idle
    | Waiting                   // signalfd_ctx_read, about to call sigtimedwait
    | Peeking                   // clear_signal with was_triggered, about to look first
    | Draining                  // kqueue_event_clear, in its loop
    | Drained                   // the kqueue was empty, is_triggered_ not yet cleared
    | Rechecking                // cleared, about to look again
    | Triggering                // saw a pending signal, about to trigger

  datatype State = State(
    sigs: set<int>,
    pending: set<int>,          // pending signals that the signalfd is for
    active: set<int>,           // EVFILT_SIGNAL events in the kqueue
    user: bool,                 // the EVFILT_USER event is in the kqueue
    triggered: bool,            // is_triggered_
    pc: Pc)

  datatype Action =
    | Arrive(signal: int) | Take(signal: int)
    | Register | Look
    | Read | Poll(reports: bool)
    | SigWait(signal: int, more: bool) | Peek
    | Kevent(returned: set<int>, user: bool) | Untrigger | Recheck | Trigger

  function Init(sigs: set<int>, pending: set<int>): State {
    State(sigs, sigs * pending, {}, false, false, Fresh)
  }

  predicate Readable(s: State) {
    s.user || s.active != {}
  }

  /** One step, or None where it is not possible. */
  function Step(s: State, a: Action): Option<State> {
    match a
    case Arrive(signal) =>
      if signal !in s.sigs then None
      else Some(s.(pending := s.pending + {signal},
                   active := if s.pc.Fresh? then s.active else s.active + {signal}))
    case Take(signal) =>
      Some(s.(pending := s.pending - {signal}))
    case Register =>
      if s.pc.Fresh? then Some(s.(pc := Registered)) else None
    case Look =>
      if s.pc.Registered? then Some(s.(pc := if s.pending != {} then Triggering else Idle)) else None
    case Read =>
      if s.pc.Idle? then Some(s.(pc := Waiting)) else None
    case Poll(reports) =>
      if s.pc.Idle? then Some(s.(pc := if reports then Peeking else Draining)) else None
    case SigWait(signal, more) =>
      if !s.pc.Waiting? then None
      else if s.pending == {} then Some(s.(pc := Draining))
      else if signal !in s.pending then None
      else Some(s.(pc := Draining, pending := if more then s.pending else s.pending - {signal}))
    case Peek =>
      if s.pc.Peeking? then Some(s.(pc := if s.pending != {} then Idle else Draining)) else None
    case Kevent(returned, user) =>
      if !s.pc.Draining? || !(returned <= s.active) || |returned| + (if user then 1 else 0) > 32 then None
      else if !Readable(s) then Some(s.(pc := Drained))
      else if (returned == {} && !user) || (user && !s.user) then None
      else Some(s.(active := s.active - returned, user := s.user && !user))
    case Untrigger =>
      if s.pc.Drained? then Some(s.(triggered := false, pc := Rechecking)) else None
    case Recheck =>
      if s.pc.Rechecking? then Some(s.(pc := if s.pending != {} then Triggering else Idle)) else None
    case Trigger =>
      if s.pc.Triggering? then Some(s.(user := s.user || !s.triggered, triggered := true, pc := Idle)) else None
  }

  /** A pending signal shows, except where the call in progress is going to see it. */
  ghost predicate Inv(s: State) {
    && (s.pc.Idle? || s.pc.Waiting? || s.pc.Peeking? ==> s.pending != {} ==> Readable(s))
    && (s.pc.Rechecking? || s.pc.Triggering? || s.pc.Registered? || s.pc.Fresh? ==> !s.triggered)
    && (s.triggered && !s.pc.Draining? && !s.pc.Drained? ==> s.user)
  }

  lemma StepInv(s: State, a: Action)
    requires Inv(s) && Step(s, a).Some?
    ensures Inv(Step(s, a).value)
  {
  }

  /** A signal is pending from its arrival until a read, or somebody else, takes it; a read takes one only. */
  lemma PendingStep(s: State, a: Action, signal: int)
    requires Step(s, a).Some?
    ensures var n := Step(s, a).value;
      var read := a.SigWait? && a.signal == signal && s.pending != {} && !a.more;
      n.sigs == s.sigs &&
      (signal in n.pending <==> a == Arrive(signal) || (signal in s.pending && a != Take(signal) && !read))
    ensures a.SigWait? && s.pending != {} ==> a.signal in s.pending
  {
  }

  /** A read or poll has begun, and the kqueue is as far cleared as it has got. */
  predicate Clearing(s: State) {
    match s.pc
    case Waiting => true
    case Peeking => true
    case Draining => true
    case Drained => !Readable(s)
    case Rechecking => !Readable(s)
    case Triggering => !Readable(s) && s.pending != {}
    case Idle => Readable(s) <==> s.pending != {}
    case _ => false
  }

  /** Its system calls. */
  predicate InCall(a: Action) {
    a.SigWait? || a.Peek? || a.Kevent? || a.Untrigger? || a.Recheck? || a.Trigger?
  }

  /** No signal arrives or is taken by others meanwhile. */
  predicate Undisturbed(trace: seq<Action>) {
    forall k :: 0 <= k < |trace| ==> InCall(trace[k])
  }

  lemma ClearingStep(s: State, a: Action)
    requires Inv(s) && Clearing(s) && Step(s, a).Some?
    requires InCall(a)
    ensures Clearing(Step(s, a).value)
  {
  }

  /** kevent takes away exactly the events it returns, and with them the draining comes nearer to its end. */
  lemma KeventStep(s: State, returned: set<int>, user: bool)
    requires Step(s, Kevent(returned, user)).Some?
    ensures var n := Step(s, Kevent(returned, user)).value;
      && n.active == s.active - returned && (n.user <==> s.user && !user)
      && (Readable(s) ==>
            n.pc == s.pc && |n.active| + (if n.user then 1 else 0) < |s.active| + (if s.user then 1 else 0))
  {
    if s.active !! returned {
      assert s.active - returned == s.active;
    } else {
      assert (s.active - returned) + (s.active * returned) == s.active;
    }
  }

  /** After a read or poll that nobody disturbed the kqueue is readable exactly if there is a signal to read. */
  lemma {:induction false} ClearsExactly(s: State, trace: seq<Action>)
    requires Inv(s) && Clearing(s) && Undisturbed(trace) && Run(s, trace).Some?
    ensures var n := Run(s, trace).value; n.pc.Idle? ==> (Readable(n) <==> n.pending != {})
    decreases |trace|
  {
    if trace != [] {
      StepInv(s, trace[0]);
      ClearingStep(s, trace[0]);
      ClearsExactly(Step(s, trace[0]).value, trace[1..]);
    }
  }

  function Run(s: State, trace: seq<Action>): Option<State>
    decreases |trace|
  {
    if trace == [] then Some(s)
    else match Step(s, trace[0])
         case None => None
         case Some(n) => Run(n, trace[1..])
  }

  lemma {:induction false} RunInv(s: State, trace: seq<Action>)
    requires Inv(s) && Run(s, trace).Some?
    ensures Inv(Run(s, trace).value)
    decreases |trace|
  {
    if trace != [] {
      StepInv(s, trace[0]);
      RunInv(Step(s, trace[0]).value, trace[1..]);
    }
  }

  /** Pending at first or arrived since, for this signalfd, and not taken since by a read or by somebody else. */
  predicate Outstanding(sigs: set<int>, pending: set<int>, trace: seq<Action>, signal: int) {
    if trace == [] then signal in sigs && signal in pending
    else
      var last := trace[|trace| - 1];
      || last == Arrive(signal)
      || (last != Take(signal) && last != SigWait(signal, false)
          && Outstanding(sigs, pending, trace[..|trace| - 1], signal))
  }

  lemma {:induction false} RunLast(s: State, trace: seq<Action>)
    requires trace != [] && Run(s, trace).Some?
    ensures var m := Run(s, trace[..|trace| - 1]);
      m.Some? && Step(m.value, trace[|trace| - 1]) == Run(s, trace)
    decreases |trace|
  {
    if |trace| > 1 {
      RunLast(Step(s, trace[0]).value, trace[1..]);
      assert trace[..|trace| - 1][1..] == trace[1..][..|trace| - 2];
    }
  }

  lemma {:induction false} RunPending(sigs: set<int>, pending: set<int>, trace: seq<Action>, signal: int)
    requires Run(Init(sigs, pending), trace).Some?
    ensures signal in Run(Init(sigs, pending), trace).value.pending <==> Outstanding(sigs, pending, trace, signal)
    decreases |trace|
  {
    if trace != [] {
      var n := |trace| - 1;
      RunLast(Init(sigs, pending), trace);
      RunPending(sigs, pending, trace[..n], signal);
      PendingStep(Run(Init(sigs, pending), trace[..n]).value, trace[n], signal);
    }
  }

  /** Where each call is in progress and goes on; Trigger shows once, however often it is asked for. */
  lemma CallOrder(s: State, a: Action)
    requires Step(s, a).Some?
    ensures var n := Step(s, a).value;
      match a
      case Register => s.pc.Fresh? && n.pc == Registered
      case Look => s.pc.Registered? && n.pc == if s.pending != {} then Triggering else Idle
      case Read => s.pc.Idle? && n.pc == Waiting
      case Poll(reports) => s.pc.Idle? && n.pc == if reports then Peeking else Draining
      case SigWait(_, _) => s.pc.Waiting? && n.pc == Draining
      case Peek => s.pc.Peeking? && n.pc == if s.pending != {} then Idle else Draining
      case Kevent(_, _) => s.pc.Draining? && n.pc == if Readable(s) then Draining else Drained
      case Untrigger => s.pc.Drained? && n.pc == Rechecking && !n.triggered
      case Recheck => s.pc.Rechecking? && n.pc == if s.pending != {} then Triggering else Idle
      case Trigger => s.pc.Triggering? && n.pc == Idle && n.triggered && (n.user <==> s.user || !s.triggered)
      case Arrive(signal) => signal in s.sigs && n.pc == s.pc
      case Take(_) => n.pc == s.pc
  {
  }

  ghost function Member<T>(s: set<T>): (x: T)
    requires s != {}
    ensures x in s
  {
    var x :| x in s;
    x
  }

  /** Signals come and go at any time, and every call can go on. */
  lemma Enabled(s: State, signal: int, reports: bool)
    ensures Step(s, Take(signal)).Some? && (Step(s, Arrive(signal)).Some? <==> signal in s.sigs)
    ensures match s.pc
      case Fresh => Step(s, Register).Some?
      case Registered => Step(s, Look).Some?
      case Idle => Step(s, Read).Some? && Step(s, Poll(reports)).Some?
      case Waiting => exists other :: Step(s, SigWait(other, false)).Some?
      case Peeking => Step(s, Peek).Some?
      case Draining => exists returned, user :: Step(s, Kevent(returned, user)).Some?
      case Drained => Step(s, Untrigger).Some?
      case Rechecking => Step(s, Recheck).Some?
      case Triggering => Step(s, Trigger).Some?
  {
    if s.pc.Waiting? {
      var other := if s.pending == {} then signal else Member(s.pending);
      assert Step(s, SigWait(other, false)).Some?;
    } else if s.pc.Draining? {
      var returned := if s.active == {} then {} else {Member(s.active)};
      assert Step(s, Kevent(returned, s.user && s.active == {})).Some?;
    }
  }

  /** Whatever happens in between, after init, read and poll a pending signal makes the kqueue readable. */
  lemma NoLostSignal(sigs: set<int>, pending: set<int>, trace: seq<Action>, signal: int)
    requires Run(Init(sigs, pending), trace).Some?
    ensures var s := Run(Init(sigs, pending), trace).value;
      s.pc.Idle? && Outstanding(sigs, pending, trace, signal) ==> Readable(s)
  {
    RunInv(Init(sigs, pending), trace);
    RunPending(sigs, pending, trace, signal);
  }
}
