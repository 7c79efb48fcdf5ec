/**
 How a change to the poll-only list flushes all threads out of ppoll:
 epollfd_ctx__trigger_repoll of src/epollfd_ctx.c against
 epollfd_ctx_wait_or_block of src/epoll.c.  Any number of threads; a step is
 one critical section of nr_polling_threads_mutex or one operation outside it.
 */
module Repoll {
  import opened Options
  import Counting

  /** An entry of the list as it is handed to ppoll: descriptor and events. */
  datatype PollFd = PollFd(fd: int, events: int)

  type Snapshot = seq<PollFd>

  datatype Pc =
    | Idle
    | Locked                            // owns the epoll mutex, nothing pending
    | Filled(snap: Snapshot)            // owns it, has filled its pollfds
    | Counted(snap: Snapshot)           // owns it, has incremented nr_polling_threads
    | Polling(snap: Snapshot)           // in ppoll
    | Returned(snap: Snapshot)          // out of ppoll, not yet decremented
    | Changed                           // owns it, has changed the list
    | Triggering                        // owns it, has seen nr_polling_threads != 0
    | Checking                          // owns it, about to test the counter again
    | Sleeping(signalled: bool)         // owns it, in pthread_cond_wait

  datatype State = State(
    pcs: seq<Pc>,
    owner: Option<nat>,                 // of the epoll mutex
    polling: int,                       // nr_polling_threads
    list: Snapshot,                     // the poll-only list
    readable: bool)                     // the self trigger is pending in the kqueue

  datatype Action =
    | Lock | Unlock | Drain
    | Fill | Increment | Enter | Return | Decrement
    | Change(list: Snapshot) | Peek | Trigger | Check | WakeUp

  function Init(threads: nat, list: Snapshot): State {
    State(seq(threads, _ => Idle), None, 0, list, false)
  }

  function Move(s: State, t: nat, pc: Pc): State
    requires t < |s.pcs|
  {
    s.(pcs := s.pcs[t := pc])
  }

  /** pthread_cond_signal: only the owner of the epoll mutex can be waiting. */
  function Signal(s: State): State {
    if s.owner.Some? && s.owner.value < |s.pcs| && s.pcs[s.owner.value].Sleeping?
    then Move(s, s.owner.value, Sleeping(true))
    else s
  }

  /** One step of thread t, or None where the thread cannot take it. */
  function Step(s: State, t: nat, a: Action): Option<State> {
    if t >= |s.pcs| then None else
    var pc := s.pcs[t];
    match a
    case Lock =>
      if pc.Idle? && s.owner.None? then Some(Move(s, t, Locked).(owner := Some(t))) else None
    case Unlock =>
      if pc.Locked? then Some(Move(s, t, Idle).(owner := None)) else None
    case Drain =>
      if pc.Locked? then Some(s.(readable := false)) else None
    case Fill =>
      if pc.Locked? then Some(Move(s, t, Filled(s.list))) else None
    case Increment =>
      if pc.Filled? then Some(Move(s, t, Counted(pc.snap)).(polling := s.polling + 1)) else None
    case Enter =>
      if pc.Counted? then Some(Move(s, t, Polling(pc.snap)).(owner := None)) else None
    case Return =>
      if pc.Polling? then Some(Move(s, t, Returned(pc.snap))) else None
    case Decrement =>
      if !pc.Returned? then None else
      var m := Move(s, t, Idle).(polling := s.polling - 1);
      Some(if m.polling == 0 then Signal(m) else m)
    case Change(list) =>
      if pc.Locked? then Some(Move(s, t, Changed).(list := list)) else None
    case Peek =>
      if pc.Changed? then Some(Move(s, t, if s.polling == 0 then Locked else Triggering)) else None
    case Trigger =>
      if pc.Triggering? then Some(Move(s, t, Checking).(readable := true)) else None
    case Check =>
      if pc.Checking? then Some(Move(s, t, if s.polling != 0 then Sleeping(false) else Locked)) else None
    case WakeUp =>
      if pc.Sleeping? then Some(Move(s, t, Checking)) else None
  }

  predicate OwnsMutex(pc: Pc) {
    pc.Locked? || pc.Filled? || pc.Counted? || Flushing(pc)
  }

  /** Between changing the list and the return of trigger_repoll. */
  predicate Flushing(pc: Pc) {
    pc.Changed? || pc.Triggering? || pc.Checking? || pc.Sleeping?
  }

  /** Counted by nr_polling_threads. */
  predicate InFlight(pc: Pc) {
    pc.Counted? || pc.Polling? || pc.Returned?
  }

  predicate HasSnapshot(pc: Pc) {
    pc.Filled? || InFlight(pc)
  }

  function Flying(): Pc -> bool {
    (pc: Pc) => InFlight(pc)
  }

  function Flushed(s: State): bool {
    s.owner.Some? && s.owner.value < |s.pcs| && Flushing(s.pcs[s.owner.value])
  }

  ghost predicate OneOwner(s: State) {
    && (s.owner.Some? ==> s.owner.value < |s.pcs|)
    && forall t :: 0 <= t < |s.pcs| ==> (OwnsMutex(s.pcs[t]) <==> s.owner == Some(t))
  }

  /** Threads in or before ppoll hold the current list, unless a flush is under way. */
  ghost predicate Current(s: State) {
    forall t :: 0 <= t < |s.pcs| && HasSnapshot(s.pcs[t]) ==> s.pcs[t].snap == s.list
  }

  ghost predicate Inv(s: State) {
    && OneOwner(s)
    && s.polling == Counting.Count(s.pcs, Flying())
    && (!Flushed(s) ==> Current(s))
    && (forall t :: 0 <= t < |s.pcs| && (s.pcs[t].Checking? || s.pcs[t].Sleeping?) ==> s.readable)
    && (forall t :: 0 <= t < |s.pcs| && s.pcs[t].Sleeping? && s.polling == 0 ==> s.pcs[t].signalled)
  }

  lemma InitInv(threads: nat, list: Snapshot)
    ensures Inv(Init(threads, list))
  {
    Counting.CountNone(Init(threads, list).pcs, Flying());
  }

  lemma StepOwner(s: State, t: nat, a: Action)
    requires OneOwner(s) && Step(s, t, a).Some?
    ensures OneOwner(Step(s, t, a).value)
  {
    var n := Step(s, t, a).value;
    assert OwnsMutex(s.pcs[t]) <==> s.owner == Some(t);
    forall u | 0 <= u < |n.pcs|
      ensures OwnsMutex(n.pcs[u]) <==> n.owner == Some(u)
    {
      assert OwnsMutex(s.pcs[u]) <==> s.owner == Some(u);
    }
  }

  /** nr_polling_threads changes with the threads it counts. */
  lemma StepCount(s: State, t: nat, a: Action)
    requires Inv(s) && Step(s, t, a).Some?
    ensures var n := Step(s, t, a).value; n.polling == Counting.Count(n.pcs, Flying())
  {
    var n := Step(s, t, a).value;
    var m := s.pcs[t := n.pcs[t]];
    Counting.CountMove(s.pcs, t, n.pcs[t], Flying());
    if a.Decrement? && n.pcs != m {
      var o := s.owner.value;
      assert s.pcs[o].Sleeping? && o != t;
      Counting.CountMove(m, o, Sleeping(true), Flying());
    }
  }

  lemma CountedNone(s: State)
    requires s.polling == Counting.Count(s.pcs, Flying()) && s.polling == 0
    ensures forall t :: 0 <= t < |s.pcs| ==> !InFlight(s.pcs[t])
  {
    forall t | 0 <= t < |s.pcs|
      ensures !InFlight(s.pcs[t])
    {
      if Flying()(s.pcs[t]) {
        Counting.CountMember(s.pcs, t, Flying());
      }
    }
  }

  lemma StepCurrent(s: State, t: nat, a: Action)
    requires Inv(s) && Step(s, t, a).Some?
    ensures var n := Step(s, t, a).value; !Flushed(n) ==> Current(n)
  {
    var n := Step(s, t, a).value;
    StepOwner(s, t, a);
    assert OwnsMutex(s.pcs[t]) <==> s.owner == Some(t);
    if (a.Peek? || a.Check?) && n.pcs[t].Locked? {
      CountedNone(s);
    }
    if !Flushed(n) {
      forall u | 0 <= u < |n.pcs| && HasSnapshot(n.pcs[u])
        ensures n.pcs[u].snap == n.list
      {
        assert OwnsMutex(s.pcs[u]) <==> s.owner == Some(u);
      }
    }
  }

  lemma StepWakeup(s: State, t: nat, a: Action)
    requires Inv(s) && Step(s, t, a).Some?
    ensures var n := Step(s, t, a).value;
      && (forall u :: 0 <= u < |n.pcs| && (n.pcs[u].Checking? || n.pcs[u].Sleeping?) ==> n.readable)
      && (forall u :: 0 <= u < |n.pcs| && n.pcs[u].Sleeping? && n.polling == 0 ==> n.pcs[u].signalled)
  {
    var n := Step(s, t, a).value;
    assert OwnsMutex(s.pcs[t]) <==> s.owner == Some(t);
    forall u | 0 <= u < |n.pcs| && (n.pcs[u].Checking? || n.pcs[u].Sleeping?)
      ensures n.readable && (n.pcs[u].Sleeping? && n.polling == 0 ==> n.pcs[u].signalled)
    {
      assert OwnsMutex(s.pcs[u]) <==> s.owner == Some(u);
    }
  }

  lemma StepInv(s: State, t: nat, a: Action)
    requires Inv(s) && Step(s, t, a).Some?
    ensures Inv(Step(s, t, a).value)
  {
    StepOwner(s, t, a);
    StepCount(s, t, a);
    StepCurrent(s, t, a);
    StepWakeup(s, t, a);
  }

  // ---------- Runs ----------

  datatype Event = Event(t: nat, a: Action)

  function Run(s: State, trace: seq<Event>): Option<State>
    decreases |trace|
  {
    if trace == [] then Some(s)
    else match Step(s, trace[0].t, trace[0].a)
         case None => None
         case Some(n) => Run(n, trace[1..])
  }

  lemma {:induction false} RunInv(s: State, trace: seq<Event>)
    requires Inv(s) && Run(s, trace).Some?
    ensures Inv(Run(s, trace).value)
    decreases |trace|
  {
    if trace != [] {
      StepInv(s, trace[0].t, trace[0].a);
      RunInv(Step(s, trace[0].t, trace[0].a).value, trace[1..]);
    }
  }

  /** The list as the last change made it. */
  function LastList(list: Snapshot, trace: seq<Event>): Snapshot {
    if trace == [] then list
    else if trace[|trace| - 1].a.Change? then trace[|trace| - 1].a.list
    else LastList(list, trace[..|trace| - 1])
  }

  lemma ListStep(s: State, t: nat, a: Action)
    requires Step(s, t, a).Some?
    ensures Step(s, t, a).value.list == if a.Change? then a.list else s.list
  {
  }

  lemma {:induction false} LastListFirst(list: Snapshot, trace: seq<Event>)
    requires trace != []
    ensures LastList(list, trace) == LastList(if trace[0].a.Change? then trace[0].a.list else list, trace[1..])
    decreases |trace|
  {
    var n := |trace| - 1;
    if n > 0 && !trace[n].a.Change? {
      LastListFirst(list, trace[..n]);
      assert trace[..n][1..] == trace[1..][..n - 1];
    }
  }

  lemma {:induction false} RunList(s: State, trace: seq<Event>)
    requires Run(s, trace).Some?
    ensures Run(s, trace).value.list == LastList(s.list, trace)
    decreases |trace|
  {
    if trace != [] {
      ListStep(s, trace[0].t, trace[0].a);
      LastListFirst(s.list, trace);
      RunList(Step(s, trace[0].t, trace[0].a).value, trace[1..]);
    }
  }

  /** Who has the epoll mutex may change the list, fill in what to poll, drain or leave; all else goes on by itself. */
  lemma Enabled(s: State, t: nat, list: Snapshot)
    requires t < |s.pcs|
    ensures match s.pcs[t]
      case Idle => Step(s, t, Lock).Some? <==> s.owner.None?
      case Locked =>
        Step(s, t, Unlock).Some? && Step(s, t, Drain).Some? && Step(s, t, Fill).Some? && Step(s, t, Change(list)).Some?
      case Filled(_) => Step(s, t, Increment).Some?
      case Counted(_) => Step(s, t, Enter).Some?
      case Polling(_) => Step(s, t, Return).Some?
      case Returned(_) => Step(s, t, Decrement).Some?
      case Changed => Step(s, t, Peek).Some?
      case Triggering => Step(s, t, Trigger).Some?
      case Checking => Step(s, t, Check).Some?
      case Sleeping(_) => Step(s, t, WakeUp).Some?
  {
  }

  /** A thread polls exactly the list it filled in, and only it moves itself, but for being signalled. */
  lemma PollOrder(s: State, t: nat, a: Action, u: nat)
    requires Step(s, t, a).Some? && u < |s.pcs|
    ensures var (p, q) := (s.pcs[u], Step(s, t, a).value.pcs[u]);
      && (u != t ==>
            q == p || (p.Sleeping? && q == Sleeping(true) && a.Decrement? && Step(s, t, a).value.polling == 0))
      && (u == t ==>
            match p
            case Filled(snap) => q == Counted(snap)
            case Counted(snap) => q == Polling(snap)
            case Polling(snap) => q == Returned(snap)
            case Returned(_) => q.Idle?
            case Locked => q.Locked? || q.Idle? || q == Filled(s.list) || q.Changed?
            case Changed => q == if s.polling == 0 then Locked else Triggering
            case Triggering => q.Checking?
            case Checking => q == if s.polling == 0 then Locked else Sleeping(false)
            case Sleeping(_) => q.Checking?
            case Idle => q.Locked?)
  {
  }

  /** Whenever the epoll mutex is free, every thread in ppoll polls the list as it was last changed. */
  lemma PollsCurrentList(threads: nat, list: Snapshot, trace: seq<Event>, t: nat)
    requires Run(Init(threads, list), trace).Some?
    requires var s := Run(Init(threads, list), trace).value; s.owner.None? && t < |s.pcs| && s.pcs[t].Polling?
    ensures Run(Init(threads, list), trace).value.pcs[t].snap == LastList(list, trace)
  {
    InitInv(threads, list);
    RunInv(Init(threads, list), trace);
    RunList(Init(threads, list), trace);
  }

  /** trigger_repoll returns only once no thread is in ppoll, or can get there with an old list. */
  lemma FlushReturns(s: State, t: nat, a: Action)
    requires Inv(s) && Step(s, t, a).Some? && Flushing(s.pcs[t]) && !Flushing(Step(s, t, a).value.pcs[t])
    ensures var n := Step(s, t, a).value;
      forall u :: 0 <= u < |n.pcs| ==> !HasSnapshot(n.pcs[u])
  {
    CountedNone(s);
    forall u | 0 <= u < |s.pcs|
      ensures !s.pcs[u].Filled?
    {
      assert OwnsMutex(s.pcs[t]) && (OwnsMutex(s.pcs[u]) <==> s.owner == Some(u));
    }
  }

  // ---------- The flush comes to an end ----------

  function Inside(): Pc -> bool {
    (pc: Pc) => pc.Polling?
  }

  /** How many steps other threads still take before the counter is zero, at most. */
  function Work(s: State): nat {
    Counting.Count(s.pcs, Flying()) + Counting.Count(s.pcs, Inside())
  }

  predicate Yields(a: Action) {
    a.Return? || a.Decrement?
  }

  /** During a flush nobody joins, and every step towards the exit counts. */
  lemma FlushStep(s: State, t: nat, a: Action)
    requires Inv(s) && Flushed(s) && Step(s, t, a).Some?
    ensures var n := Step(s, t, a).value; Work(n) + (if Yields(a) then 1 else 0) == Work(s)
  {
    var n := Step(s, t, a).value;
    var m := s.pcs[t := n.pcs[t]];
    assert OwnsMutex(s.pcs[t]) <==> s.owner == Some(t);
    Counting.CountMove(s.pcs, t, n.pcs[t], Flying());
    Counting.CountMove(s.pcs, t, n.pcs[t], Inside());
    if a.Decrement? && n.pcs != m {
      var o := s.owner.value;
      assert s.pcs[o].Sleeping? && o != t;
      Counting.CountMove(m, o, Sleeping(true), Flying());
      Counting.CountMove(m, o, Sleeping(true), Inside());
    }
  }

  /** A flush is never stuck: its thread can go on, or a thread in flight can. */
  lemma FlushDue(s: State) returns (u: nat, a: Action)
    requires Inv(s) && Flushed(s)
    ensures u < |s.pcs| && Step(s, u, a).Some?
    ensures u == s.owner.value || (Yields(a) && s.readable)
    ensures s.pcs[s.owner.value] == Sleeping(false) ==> u != s.owner.value
  {
    u := s.owner.value;
    match s.pcs[u]
    case Changed => a := Peek;
    case Triggering => a := Trigger;
    case Checking => a := Check;
    case Sleeping(signalled) =>
      if signalled {
        a := WakeUp;
      } else {
        u := Counting.CountWitness(s.pcs, Flying());
        assert OwnsMutex(s.pcs[u]) <==> s.owner == Some(u);
        a := if s.pcs[u].Polling? then Return else Decrement;
      }
  }

  function Yielding(trace: seq<Event>): nat {
    if trace == [] then 0 else (if Yields(trace[0].a) then 1 else 0) + Yielding(trace[1..])
  }

  /** All states on the way belong to one flush. */
  predicate AllFlushed(s: State, trace: seq<Event>)
    decreases |trace|
  {
    Flushed(s) && (trace != [] ==> Step(s, trace[0].t, trace[0].a).Some? &&
                                   AllFlushed(Step(s, trace[0].t, trace[0].a).value, trace[1..]))
  }

  /** One flush waits for exactly the threads that were in flight when it began, two steps each at most. */
  lemma {:induction false} FlushRun(s: State, trace: seq<Event>)
    requires Inv(s) && AllFlushed(s, trace)
    ensures Run(s, trace).Some? && Yielding(trace) + Work(Run(s, trace).value) == Work(s) <= 2 * s.polling
    decreases |trace|
  {
    InsideFlying(s.pcs);
    if trace != [] {
      StepInv(s, trace[0].t, trace[0].a);
      FlushStep(s, trace[0].t, trace[0].a);
      FlushRun(Step(s, trace[0].t, trace[0].a).value, trace[1..]);
    }
  }

  lemma {:induction false} InsideFlying(pcs: seq<Pc>)
    ensures Counting.Count(pcs, Inside()) <= Counting.Count(pcs, Flying())
  {
    if pcs != [] {
      InsideFlying(pcs[1..]);
    }
  }
}
