/**
 The reader/writer lock of src/rwlock.c as a state machine: any number of
 threads, one atomic operation, semaphore operation or mutex operation per step.
 */
module RwLock {
  import opened Options
  import Counting

  const MAX_READERS := 0x4000_0000

  /** Where a thread is, named after what it does next or where it rests. */
  datatype Pc =
    | Idle
    | AwaitToken                                // lock_read, on reader_wait
    | Reading                                   // inside as a reader
    | Departing                                 // unlock_read, between its two decrements
    | Waking                                    // unlock_read, about to post writer_wait
    | AwaitMutex                                // lock_write
    | Announcing                                // lock_write, owns the mutex
    | Tallying(r: int)                          // lock_write, has announced itself
    | AwaitReaders                              // lock_write, on writer_wait
    | Writing                                   // inside as a writer
    | Releasing(keep: int, i: int, r: int)      // unlock_common, in its loop of posts

  /** The fields of the lock, each changed by one atomic operation at a time. */
  datatype Shared = Shared(mutex: Option<nat>, writerWait: nat, readerWait: nat, pending: int, departing: int)

  datatype State = State(pcs: seq<Pc>, shared: Shared)

  datatype Action =
    | AddPending | TakeToken | SubPending | SubDeparting | PostWriter
    | QueueWriter | LockMutex | Announce | Tally | WakeWriter
    | Release(keepReading: bool) | PostReader | UnlockMutex

  function Init(threads: nat): State {
    State(seq(threads, _ => Idle), Shared(None, 0, 0, 0, 0))
  }

  /** What an action makes of its thread and the shared fields, unless it cannot be taken. */
  datatype Effect = Refused | Effect(pc: Pc, shared: Shared)

  function Act(t: nat, pc: Pc, s: Shared, a: Action): Effect {
    match a
    case AddPending =>
      if !pc.Idle? then Refused
      else Effect(if s.pending + 1 < 0 then AwaitToken else Reading, s.(pending := s.pending + 1))
    case TakeToken =>
      if !pc.AwaitToken? || s.readerWait == 0 then Refused
      else Effect(Reading, s.(readerWait := s.readerWait - 1))
    case SubPending =>
      if !pc.Reading? then Refused
      else Effect(if s.pending - 1 < 0 then Departing else Idle, s.(pending := s.pending - 1))
    case SubDeparting =>
      if !pc.Departing? then Refused
      else Effect(if s.departing - 1 == 0 then Waking else Idle, s.(departing := s.departing - 1))
    case PostWriter =>
      if !pc.Waking? then Refused else Effect(Idle, s.(writerWait := s.writerWait + 1))
    case QueueWriter =>
      if !pc.Idle? then Refused else Effect(AwaitMutex, s)
    case LockMutex =>
      if !pc.AwaitMutex? || s.mutex.Some? then Refused else Effect(Announcing, s.(mutex := Some(t)))
    case Announce =>
      if !pc.Announcing? then Refused
      else Effect(if s.pending == 0 then Writing else Tallying(s.pending),
                       s.(pending := s.pending - MAX_READERS))
    case Tally =>
      if !pc.Tallying? then Refused
      else Effect(if s.departing + pc.r != 0 then AwaitReaders else Writing,
                       s.(departing := s.departing + pc.r))
    case WakeWriter =>
      if !pc.AwaitReaders? || s.writerWait == 0 then Refused
      else Effect(Writing, s.(writerWait := s.writerWait - 1))
    case Release(keepReading) =>
      if !pc.Writing? then Refused else
      var keep := if keepReading then 1 else 0;
      var r := s.pending + MAX_READERS + keep;
      Effect(Releasing(keep, keep, r), s.(pending := r))
    case PostReader =>
      if !pc.Releasing? || pc.i >= pc.r then Refused
      else Effect(pc.(i := pc.i + 1), s.(readerWait := s.readerWait + 1))
    case UnlockMutex =>
      if !pc.Releasing? || pc.i < pc.r then Refused
      else Effect(if pc.keep == 1 then Reading else Idle, s.(mutex := None))
  }

  /** One step of thread t, or None where the thread cannot take it. */
  function Step(s: State, t: nat, a: Action): Option<State> {
    if t >= |s.pcs| then None else
    match Act(t, s.pcs[t], s.shared, a)
    case Refused => None
    case Effect(pc, shared) =>
      Some(State(s.pcs[t := pc], shared))
  }

  /** Where each operation can lead; only a downgrade keeps its thread inside, as a reader. */
  lemma CallOrder(t: nat, pc: Pc, s: Shared, a: Action)
    requires Act(t, pc, s, a).Effect?
    ensures var q := Act(t, pc, s, a).pc;
      match pc
      case Idle => q.Reading? || q.AwaitToken? || q.AwaitMutex?
      case AwaitToken => q.Reading?
      case Reading => q.Idle? || q.Departing?
      case Departing => q.Idle? || q.Waking?
      case Waking => q.Idle?
      case AwaitMutex => q.Announcing?
      case Announcing => q.Writing? || q.Tallying?
      case Tallying(_) => q.Writing? || q.AwaitReaders?
      case AwaitReaders => q.Writing?
      case Writing => q.Releasing? && q.keep == (if a == Release(true) then 1 else 0)
      case Releasing(keep, _, _) =>
        if a.PostReader? then q.Releasing? && q.keep == keep else q == if keep == 1 then Reading else Idle
  {
  }

  /** A thread waits for a token, for the mutex or for the readers, and for nothing else. */
  lemma Enabled(t: nat, pc: Pc, s: Shared, keepReading: bool)
    ensures match pc
      case Idle => Act(t, pc, s, AddPending).Effect? && Act(t, pc, s, QueueWriter).Effect?
      case AwaitToken => Act(t, pc, s, TakeToken).Effect? <==> s.readerWait > 0
      case Reading => Act(t, pc, s, SubPending).Effect?
      case Departing => Act(t, pc, s, SubDeparting).Effect?
      case Waking => Act(t, pc, s, PostWriter).Effect?
      case AwaitMutex => Act(t, pc, s, LockMutex).Effect? <==> s.mutex.None?
      case Announcing => Act(t, pc, s, Announce).Effect?
      case Tallying(_) => Act(t, pc, s, Tally).Effect?
      case AwaitReaders => Act(t, pc, s, WakeWriter).Effect? <==> s.writerWait > 0
      case Writing => Act(t, pc, s, Release(keepReading)).Effect?
      case Releasing(_, i, r) => Act(t, pc, s, if i < r then PostReader else UnlockMutex).Effect?
  {
  }

  // ---------- Counting threads, whoever they are ----------

  datatype Role = Inside | Blocked | Leaving | Waker | Elsewhere

  function RoleOf(pc: Pc): Role {
    match pc
    case Reading => Inside
    case Releasing(keep, _, _) => if keep == 1 then Inside else Elsewhere
    case AwaitToken => Blocked
    case Departing => Leaving
    case Waking => Waker
    case _ => Elsewhere
  }

  function Tell(pc: Pc, role: Role): nat {
    if RoleOf(pc) == role then 1 else 0
  }

  function Is(role: Role): Pc -> bool {
    (pc: Pc) => RoleOf(pc) == role
  }

  function Count(pcs: seq<Pc>, role: Role): nat {
    Counting.Count(pcs, Is(role))
  }

  lemma CountMember(pcs: seq<Pc>, t: nat)
    requires t < |pcs|
    ensures Count(pcs, RoleOf(pcs[t])) > 0
  {
    Counting.CountMember(pcs, t, Is(RoleOf(pcs[t])));
  }

  // ---------- The invariant ----------

  predicate OwnsMutex(pc: Pc) {
    pc.Announcing? || pc.Tallying? || pc.AwaitReaders? || pc.Writing? || pc.Releasing?
  }

  /** Where the one writer past the mutex is; Idle stands for nobody. */
  function Phase(s: State): Pc {
    if s.shared.mutex.Some? && s.shared.mutex.value < |s.pcs| then s.pcs[s.shared.mutex.value] else Idle
  }

  function Readers(s: State): nat {
    Count(s.pcs, Inside) + Count(s.pcs, Blocked)
  }

  ghost predicate OneOwner(s: State) {
    && (s.shared.mutex.Some? ==> s.shared.mutex.value < |s.pcs|)
    && forall t :: 0 <= t < |s.pcs| ==> (OwnsMutex(s.pcs[t]) <==> s.shared.mutex == Some(t))
  }

  /** The writer has subtracted 2^30 and not yet added it back. */
  predicate Announced(phase: Pc) {
    phase.Tallying? || phase.AwaitReaders? || phase.Writing?
  }

  /** The last of the old readers is gone, and the post to writer_wait is on its way or there. */
  predicate Due(phase: Pc, s: Shared) {
    phase.AwaitReaders? && s.departing == 0
  }

  /** i readers inside, b blocked, l leaving, w about to wake the writer. */
  predicate Balanced(phase: Pc, s: Shared, i: int, b: int, l: int, w: int) {
    && (Announced(phase) ==> s.pending + MAX_READERS == i + b && s.readerWait <= b)
    && (!Announced(phase) ==> s.pending == i + b)
    && (Due(phase, s) ==> w + s.writerWait == 1)
    && (!Due(phase, s) ==> w == 0 && s.writerWait == 0)
    && match phase
       case Tallying(r) => s.departing == i + s.readerWait + l - r && s.departing <= 0 < r < MAX_READERS
       case AwaitReaders => s.departing == i + s.readerWait + l && s.departing < MAX_READERS
       case Writing => s.departing == 0 && l == 0 && i == 0 && s.readerWait == 0
       case Releasing(keep, n, r) =>
         s.departing == 0 && l == 0 && b == s.readerWait + (r - n) && n <= r && (keep == 0 || keep == 1)
       case _ => s.departing == 0 && l == 0 && b == s.readerWait
  }

  ghost predicate Inv(s: State) {
    && OneOwner(s)
    && Readers(s) < MAX_READERS
    && Balanced(Phase(s), s.shared, Count(s.pcs, Inside), Count(s.pcs, Blocked),
                Count(s.pcs, Leaving), Count(s.pcs, Waker))
  }

  lemma InitInv(threads: nat)
    ensures Inv(Init(threads))
  {
    var pcs := Init(threads).pcs;
    Counting.CountNone(pcs, Is(Inside));
    Counting.CountNone(pcs, Is(Blocked));
    Counting.CountNone(pcs, Is(Leaving));
    Counting.CountNone(pcs, Is(Waker));
  }

  /** Enough threads in a role for one at pc to be among them. */
  predicate Among(pc: Pc, i: int, b: int, l: int, w: int) {
    i >= Tell(pc, Inside) && b >= Tell(pc, Blocked) && l >= Tell(pc, Leaving) && w >= Tell(pc, Waker)
  }

  /** A thread at u takes a step in a balanced state. */
  predicate Moves(phase: Pc, t: nat, s: Shared, u: Pc, a: Action, e: Effect, i: int, b: int, l: int, w: int) {
    && e.Effect? && Act(t, u, s, a) == e && Among(u, i, b, l, w)
    && Balanced(phase, s, i, b, l, w) && i + b < MAX_READERS && l >= 0 && w >= 0
    && (if OwnsMutex(u) then phase == u else a.LockMutex? ==> phase == Idle)
  }

  /** The counters after that step. */
  predicate Moved(phase: Pc, u: Pc, e: Effect, i: int, b: int, l: int, w: int)
    requires e.Effect?
  {
    Balanced(phase, e.shared, i - Tell(u, Inside) + Tell(e.pc, Inside), b - Tell(u, Blocked) + Tell(e.pc, Blocked),
             l - Tell(u, Leaving) + Tell(e.pc, Leaving), w - Tell(u, Waker) + Tell(e.pc, Waker))
  }

  lemma AddPendingKeeps(phase: Pc, t: nat, s: Shared, u: Pc, a: Action, e: Effect, i: int, b: int, l: int, w: int)
    requires Moves(phase, t, s, u, a, e, i, b, l, w) && a.AddPending?
    requires i - Tell(u, Inside) + Tell(e.pc, Inside) + b - Tell(u, Blocked) + Tell(e.pc, Blocked) < MAX_READERS
    ensures Moved(phase, u, e, i, b, l, w)
  {
  }

  lemma TakeTokenKeeps(phase: Pc, t: nat, s: Shared, u: Pc, a: Action, e: Effect, i: int, b: int, l: int, w: int)
    requires Moves(phase, t, s, u, a, e, i, b, l, w) && a.TakeToken?
    ensures Moved(phase, u, e, i, b, l, w)
  {
  }

  lemma SubPendingKeeps(phase: Pc, t: nat, s: Shared, u: Pc, a: Action, e: Effect, i: int, b: int, l: int, w: int)
    requires Moves(phase, t, s, u, a, e, i, b, l, w) && a.SubPending?
    ensures Moved(phase, u, e, i, b, l, w)
  {
  }

  lemma SubDepartingKeeps(phase: Pc, t: nat, s: Shared, u: Pc, a: Action, e: Effect, i: int, b: int, l: int, w: int)
    requires Moves(phase, t, s, u, a, e, i, b, l, w) && a.SubDeparting?
    ensures Moved(phase, u, e, i, b, l, w)
  {
  }

  lemma PostWriterKeeps(phase: Pc, t: nat, s: Shared, u: Pc, a: Action, e: Effect, i: int, b: int, l: int, w: int)
    requires Moves(phase, t, s, u, a, e, i, b, l, w) && a.PostWriter?
    ensures Moved(phase, u, e, i, b, l, w)
  {
  }

  lemma QueueWriterKeeps(phase: Pc, t: nat, s: Shared, u: Pc, a: Action, e: Effect, i: int, b: int, l: int, w: int)
    requires Moves(phase, t, s, u, a, e, i, b, l, w) && a.QueueWriter?
    ensures Moved(phase, u, e, i, b, l, w)
  {
  }

  lemma LockMutexKeeps(phase: Pc, t: nat, s: Shared, u: Pc, a: Action, e: Effect, i: int, b: int, l: int, w: int)
    requires Moves(phase, t, s, u, a, e, i, b, l, w) && a.LockMutex?
    ensures Moved(e.pc, u, e, i, b, l, w)
  {
  }

  lemma AnnounceKeeps(phase: Pc, t: nat, s: Shared, u: Pc, a: Action, e: Effect, i: int, b: int, l: int, w: int)
    requires Moves(phase, t, s, u, a, e, i, b, l, w) && a.Announce?
    ensures Moved(e.pc, u, e, i, b, l, w)
  {
  }

  lemma TallyKeeps(phase: Pc, t: nat, s: Shared, u: Pc, a: Action, e: Effect, i: int, b: int, l: int, w: int)
    requires Moves(phase, t, s, u, a, e, i, b, l, w) && a.Tally?
    ensures Moved(e.pc, u, e, i, b, l, w)
  {
  }

  lemma WakeWriterKeeps(phase: Pc, t: nat, s: Shared, u: Pc, a: Action, e: Effect, i: int, b: int, l: int, w: int)
    requires Moves(phase, t, s, u, a, e, i, b, l, w) && a.WakeWriter?
    ensures Moved(e.pc, u, e, i, b, l, w)
  {
  }

  lemma ReleaseKeeps(phase: Pc, t: nat, s: Shared, u: Pc, a: Action, e: Effect, i: int, b: int, l: int, w: int)
    requires Moves(phase, t, s, u, a, e, i, b, l, w) && a.Release?
    ensures Moved(e.pc, u, e, i, b, l, w)
  {
  }

  lemma PostReaderKeeps(phase: Pc, t: nat, s: Shared, u: Pc, a: Action, e: Effect, i: int, b: int, l: int, w: int)
    requires Moves(phase, t, s, u, a, e, i, b, l, w) && a.PostReader?
    ensures Moved(e.pc, u, e, i, b, l, w)
  {
  }

  lemma UnlockMutexKeeps(phase: Pc, t: nat, s: Shared, u: Pc, a: Action, e: Effect, i: int, b: int, l: int, w: int)
    requires Moves(phase, t, s, u, a, e, i, b, l, w) && a.UnlockMutex?
    ensures Moved(e.pc, u, e, i, b, l, w)
  {
  }

  lemma StepCounts(s: State, t: nat, a: Action)
    requires Step(s, t, a).Some?
    ensures var (u, n) := (s.pcs[t], Step(s, t, a).value.pcs);
      && n == s.pcs[t := n[t]]
      && Count(n, Inside) == Count(s.pcs, Inside) - Tell(u, Inside) + Tell(n[t], Inside)
      && Count(n, Blocked) == Count(s.pcs, Blocked) - Tell(u, Blocked) + Tell(n[t], Blocked)
      && Count(n, Leaving) == Count(s.pcs, Leaving) - Tell(u, Leaving) + Tell(n[t], Leaving)
      && Count(n, Waker) == Count(s.pcs, Waker) - Tell(u, Waker) + Tell(n[t], Waker)
      && Among(u, Count(s.pcs, Inside), Count(s.pcs, Blocked), Count(s.pcs, Leaving), Count(s.pcs, Waker))
  {
    var v := Step(s, t, a).value.pcs[t];
    Counting.CountMove(s.pcs, t, v, Is(Inside));
    Counting.CountMove(s.pcs, t, v, Is(Blocked));
    Counting.CountMove(s.pcs, t, v, Is(Leaving));
    Counting.CountMove(s.pcs, t, v, Is(Waker));
    CountMember(s.pcs, t);
  }

  lemma StepOwner(s: State, t: nat, a: Action)
    requires OneOwner(s) && Step(s, t, a).Some?
    ensures var (u, n) := (s.pcs[t], Step(s, t, a).value);
      && OneOwner(n)
      && (OwnsMutex(u) <==> s.shared.mutex == Some(t))
      && Phase(n) == if a.UnlockMutex? then Idle
                     else if OwnsMutex(u) || a.LockMutex? then n.pcs[t] else Phase(s)
  {
    var n := Step(s, t, a).value;
    assert OwnsMutex(s.pcs[t]) <==> s.shared.mutex == Some(t);
    forall u | 0 <= u < |n.pcs|
      ensures OwnsMutex(n.pcs[u]) <==> n.shared.mutex == Some(u)
    {
      assert OwnsMutex(s.pcs[u]) <==> s.shared.mutex == Some(u);
    }
  }

  lemma MoveKeeps(phase: Pc, t: nat, s: Shared, u: Pc, a: Action, e: Effect, i: int, b: int, l: int, w: int)
    requires Moves(phase, t, s, u, a, e, i, b, l, w)
    requires i - Tell(u, Inside) + Tell(e.pc, Inside) + b - Tell(u, Blocked) + Tell(e.pc, Blocked) < MAX_READERS
    ensures Moved(if a.LockMutex? || OwnsMutex(u) then e.pc else phase, u, e, i, b, l, w)
  {
    match a
    case AddPending => AddPendingKeeps(phase, t, s, u, a, e, i, b, l, w);
    case TakeToken => TakeTokenKeeps(phase, t, s, u, a, e, i, b, l, w);
    case SubPending => SubPendingKeeps(phase, t, s, u, a, e, i, b, l, w);
    case SubDeparting => SubDepartingKeeps(phase, t, s, u, a, e, i, b, l, w);
    case PostWriter => PostWriterKeeps(phase, t, s, u, a, e, i, b, l, w);
    case QueueWriter => QueueWriterKeeps(phase, t, s, u, a, e, i, b, l, w);
    case LockMutex => LockMutexKeeps(phase, t, s, u, a, e, i, b, l, w);
    case Announce => AnnounceKeeps(phase, t, s, u, a, e, i, b, l, w);
    case Tally => TallyKeeps(phase, t, s, u, a, e, i, b, l, w);
    case WakeWriter => WakeWriterKeeps(phase, t, s, u, a, e, i, b, l, w);
    case Release(_) => ReleaseKeeps(phase, t, s, u, a, e, i, b, l, w);
    case PostReader => PostReaderKeeps(phase, t, s, u, a, e, i, b, l, w);
    case UnlockMutex => UnlockMutexKeeps(phase, t, s, u, a, e, i, b, l, w);
  }

  /** Every step of every thread keeps the invariant, as long as there are fewer than 2^30 readers. */
  lemma StepInv(s: State, t: nat, a: Action)
    requires Inv(s) && Step(s, t, a).Some?
    requires Readers(Step(s, t, a).value) < MAX_READERS
    ensures Inv(Step(s, t, a).value)
  {
    StepOwner(s, t, a);
    StepCounts(s, t, a);
    MoveKeeps(Phase(s), t, s.shared, s.pcs[t], a, Act(t, s.pcs[t], s.shared, a),
              Count(s.pcs, Inside), Count(s.pcs, Blocked), Count(s.pcs, Leaving), Count(s.pcs, Waker));
  }

  // ---------- Runs ----------

  datatype Event = Event(t: nat, a: Action)

  /** The state after a trace of steps; None if a step in it cannot be taken. */
  function Run(s: State, trace: seq<Event>): Option<State>
    decreases |trace|
  {
    if trace == [] then Some(s)
    else match Step(s, trace[0].t, trace[0].a)
         case None => None
         case Some(n) => Run(n, trace[1..])
  }

  /** The trace can be run, with fewer than 2^30 readers at any time. */
  predicate Within(s: State, trace: seq<Event>)
    decreases |trace|
  {
    && Readers(s) < MAX_READERS
    && (trace != [] ==>
          && Step(s, trace[0].t, trace[0].a).Some?
          && Within(Step(s, trace[0].t, trace[0].a).value, trace[1..]))
  }

  lemma {:induction false} RunInv(s: State, trace: seq<Event>)
    requires Inv(s) && Within(s, trace)
    ensures Run(s, trace).Some? && Inv(Run(s, trace).value)
    decreases |trace|
  {
    if trace != [] {
      StepInv(s, trace[0].t, trace[0].a);
      RunInv(Step(s, trace[0].t, trace[0].a).value, trace[1..]);
    }
  }

  // ---------- Exclusion ----------

  /** A writer inside is alone: no reader, no writer on its way out, no other writer. */
  lemma Exclusion(threads: nat, trace: seq<Event>, t: nat, u: nat)
    requires Within(Init(threads), trace)
    requires var s := Run(Init(threads), trace);
      s.Some? && t < |s.value.pcs| && u < |s.value.pcs| && t != u && s.value.pcs[t] == Writing
    ensures var v := Run(Init(threads), trace).value.pcs[u]; RoleOf(v) != Inside && !OwnsMutex(v)
  {
    InitInv(threads);
    RunInv(Init(threads), trace);
    Alone(Run(Init(threads), trace).value, t, u);
  }

  lemma Alone(s: State, t: nat, u: nat)
    requires Inv(s) && t < |s.pcs| && u < |s.pcs| && t != u && s.pcs[t] == Writing
    ensures RoleOf(s.pcs[u]) != Inside && !OwnsMutex(s.pcs[u])
  {
    assert OwnsMutex(s.pcs[t]) && (OwnsMutex(s.pcs[u]) <==> s.shared.mutex == Some(u));
    CountMember(s.pcs, u);
  }

  lemma NoneWriting(s: State, t: nat)
    requires Inv(s) && t < |s.pcs| && RoleOf(s.pcs[t]) == Inside
    ensures forall u :: 0 <= u < |s.pcs| ==> s.pcs[u] != Writing
  {
    forall u | 0 <= u < |s.pcs|
      ensures s.pcs[u] != Writing
    {
      if s.pcs[u] == Writing {
        Alone(s, u, t);
      }
    }
  }

  /** Nothing but its own unlock_read takes a reader out, not even the end of a downgrade. */
  lemma StepStays(s: State, t: nat, e: Event)
    requires Inv(s) && t < |s.pcs| && RoleOf(s.pcs[t]) == Inside
    requires Step(s, e.t, e.a).Some? && e != Event(t, SubPending)
    ensures var n := Step(s, e.t, e.a).value; |n.pcs| == |s.pcs| && RoleOf(n.pcs[t]) == Inside
  {
    if s.pcs[t].Releasing? {
      assert OwnsMutex(s.pcs[t]);
    }
  }

  /**
   A thread that is inside as a reader, in particular one that has just begun
   to downgrade, stays inside until its own unlock_read, and until then no
   writer gets in.
   */
  lemma {:induction false} ReaderStays(s: State, trace: seq<Event>, t: nat)
    requires Inv(s) && Within(s, trace) && t < |s.pcs| && RoleOf(s.pcs[t]) == Inside
    requires Event(t, SubPending) !in trace
    ensures var n := Run(s, trace);
      && n.Some? && |n.value.pcs| == |s.pcs| && RoleOf(n.value.pcs[t]) == Inside
      && forall u :: 0 <= u < |s.pcs| ==> n.value.pcs[u] != Writing
    decreases |trace|
  {
    if trace == [] {
      NoneWriting(s, t);
    } else {
      assert trace[0] in trace;
      StepInv(s, trace[0].t, trace[0].a);
      StepStays(s, t, trace[0]);
      assert Event(t, SubPending) !in trace[1..];
      ReaderStays(Step(s, trace[0].t, trace[0].a).value, trace[1..], t);
    }
  }

  /** Downgrading does not let go: from the release on, the thread is inside as a reader. */
  lemma Downgrade(s: State, trace: seq<Event>, t: nat)
    requires Inv(s) && t < |s.pcs| && s.pcs[t] == Writing
    requires Within(s, [Event(t, Release(true))] + trace) && Event(t, SubPending) !in trace
    ensures var n := Run(s, [Event(t, Release(true))] + trace);
      && n.Some? && |n.value.pcs| == |s.pcs| && RoleOf(n.value.pcs[t]) == Inside
      && forall u :: 0 <= u < |s.pcs| ==> n.value.pcs[u] != Writing
  {
    StepInv(s, t, Release(true));
    assert ([Event(t, Release(true))] + trace)[1..] == trace;
    ReaderStays(Step(s, t, Release(true)).value, trace, t);
  }

  /** The bound on readers is needed: with a writer inside, the 2^30th reader is let in, and no earlier one. */
  lemma LateReader(s: State, t: nat, w: nat)
    requires Inv(s) && t < |s.pcs| && w < |s.pcs| && s.pcs[w] == Writing && s.pcs[t] == Idle
    ensures Step(s, t, AddPending).value.pcs[t] == Reading <==> Readers(s) + 1 == MAX_READERS
  {
    assert OwnsMutex(s.pcs[w]);
  }

  /** The counters stay within 32 bits. */
  lemma NoOverflow(s: State)
    requires Inv(s)
    ensures -MAX_READERS <= s.shared.pending < MAX_READERS
    ensures -MAX_READERS < s.shared.departing < MAX_READERS
  {
  }

  // ---------- Progress ----------

  /** Whenever some thread has not finished its call, some such thread can take a step. */
  lemma NotStuck(s: State, t: nat) returns (u: nat, a: Action)
    requires Inv(s) && t < |s.pcs| && s.pcs[t] != Idle
    ensures u < |s.pcs| && s.pcs[u] != Idle && Step(s, u, a).Some?
  {
    if s.shared.mutex.Some? {
      u := s.shared.mutex.value;
      assert OwnsMutex(s.pcs[u]);
      match s.pcs[u]
      case Announcing => a := Announce;
      case Tallying(_) => a := Tally;
      case Writing => a := Release(false);
      case Releasing(_, i, r) => a := if i < r then PostReader else UnlockMutex;
      case AwaitReaders => u, a := WriterDue(s);
    } else {
      assert !OwnsMutex(s.pcs[t]);
      CountMember(s.pcs, t);
      u := t;
      match s.pcs[t]
      case AwaitMutex => a := LockMutex;
      case Reading => a := SubPending;
      case AwaitToken => a := TakeToken;
      case Departing =>
      case Waking =>
    }
  }

  /** A reader's step towards letting the waiting writer in. */
  predicate Yields(a: Action) {
    a.TakeToken? || a.SubPending? || a.SubDeparting? || a.PostWriter?
  }

  /** How many such steps a waiting writer still has to wait for, at most. */
  function Work(s: State): nat {
    4 * s.shared.readerWait + 3 * Count(s.pcs, Inside) + 2 * Count(s.pcs, Leaving) + Count(s.pcs, Waker)
  }

  /** A waiting writer can go on, or some reader can bring that closer. */
  lemma WriterDue(s: State) returns (u: nat, a: Action)
    requires Inv(s) && Phase(s) == AwaitReaders
    ensures u < |s.pcs| && s.pcs[u] != Idle && Step(s, u, a).Some?
    ensures Work(s) == 0 <==> s.shared.writerWait > 0
    ensures if Work(s) == 0 then a == WakeWriter else Yields(a)
  {
    if s.shared.writerWait > 0 {
      u, a := s.shared.mutex.value, WakeWriter;
    } else if Count(s.pcs, Waker) > 0 {
      u := Counting.CountWitness(s.pcs, Is(Waker));
      a := PostWriter;
    } else if Count(s.pcs, Leaving) > 0 {
      u := Counting.CountWitness(s.pcs, Is(Leaving));
      a := SubDeparting;
    } else if s.shared.readerWait > 0 {
      u := Counting.CountWitness(s.pcs, Is(Blocked));
      a := TakeToken;
    } else {
      u := Counting.CountWitness(s.pcs, Is(Inside));
      a := SubPending;
      assert OwnsMutex(s.pcs[u]) <==> s.shared.mutex == Some(u);
    }
  }

  function Weight(pc: Pc): nat {
    3 * Tell(pc, Inside) + 2 * Tell(pc, Leaving) + Tell(pc, Waker)
  }

  lemma WaitAct(t: nat, u: Pc, s: Shared, a: Action)
    requires Act(t, u, s, a).Effect? && !OwnsMutex(u) && s.mutex.Some?
    requires s.pending < 0 && (a.AddPending? ==> s.pending + 1 < 0)
    ensures var e := Act(t, u, s, a);
      && !OwnsMutex(e.pc)
      && 4 * e.shared.readerWait + Weight(e.pc) + (if Yields(a) then 1 else 0) <= 4 * s.readerWait + Weight(u)
  {
  }

  /** Such a step brings the writer closer by one or two; new arrivals do not push it away. */
  lemma WaitStep(s: State, t: nat, a: Action)
    requires Inv(s) && Phase(s) == AwaitReaders && Step(s, t, a).Some? && a != WakeWriter
    requires Readers(Step(s, t, a).value) < MAX_READERS
    ensures var n := Step(s, t, a).value;
      Phase(n) == AwaitReaders && Work(n) + (if Yields(a) then 1 else 0) <= Work(s)
  {
    StepOwner(s, t, a);
    StepCounts(s, t, a);
    WaitAct(t, s.pcs[t], s.shared, a);
  }

  function Yielding(trace: seq<Event>): nat {
    if trace == [] then 0 else (if Yields(trace[0].a) then 1 else 0) + Yielding(trace[1..])
  }

  /** However many readers and writers arrive meanwhile, a writer waits for no more than Work(s) reader steps. */
  lemma {:induction false} WaitRun(s: State, trace: seq<Event>)
    requires Inv(s) && Within(s, trace) && Phase(s) == AwaitReaders
    requires forall e :: e in trace ==> e.a != WakeWriter
    ensures var n := Run(s, trace);
      && n.Some? && Phase(n.value) == AwaitReaders && Inv(n.value)
      && Yielding(trace) + Work(n.value) <= Work(s)
    decreases |trace|
  {
    if trace != [] {
      assert trace[0] in trace;
      StepInv(s, trace[0].t, trace[0].a);
      WaitStep(s, trace[0].t, trace[0].a);
      assert forall e :: e in trace[1..] ==> e in trace;
      WaitRun(Step(s, trace[0].t, trace[0].a).value, trace[1..]);
    }
  }

  /** With no writer past the mutex, every blocked reader has its token; unlock_common owes exactly the rest. */
  lemma NoLostWakeup(s: State)
    requires Inv(s)
    ensures s.shared.mutex.None? ==> Count(s.pcs, Blocked) == s.shared.readerWait
    ensures s.shared.mutex.Some? && s.pcs[s.shared.mutex.value].Releasing? ==>
      var pc := s.pcs[s.shared.mutex.value]; Count(s.pcs, Blocked) == s.shared.readerWait + (pc.r - pc.i)
  {
  }
}
