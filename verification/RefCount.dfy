/**
 Reference counts of file descriptions: src/epoll_shim_ctx.c with the
 references that kqueue nodes of src/epollfd_ctx.c hold.  Every reference is a
 cell that says who holds it; any number of threads, one atomic operation or
 one table access per step.  The reader/writer lock is taken for what RwLock
 proves of it.
 */
module RefCount {
  import opened Options
  import Counting

  /** A reference: a table slot, a node of epoll instance e, or a thread in the middle of a call. */
  datatype Ref = Free | Slot(fd: int, desc: nat) | Node(epoll: nat, fd: int, desc: nat) | Hand(thread: nat, desc: nat)

  /** A description whose count has come to zero is destroyed by the thread that dropped the last reference. */
  datatype Life = Alive | Dying(dropper: nat) | Dead

  datatype Pc =
    | Idle
    | Reading                       // holds the lock for reading
    | Found(fd: int, desc: nat, sharing: bool)  // so does this one, or it has downgraded; has read the slot
    | Writing
    | Sharing                       // has downgraded

  datatype State = State(refs: seq<Ref>, counts: seq<int>, lives: seq<Life>, pcs: seq<Pc>)

  datatype Action =
    | LockRead | Look(cell: nat) | Grab | Visit | Back | UnlockRead
    | LockWrite | Empty(cell: nat) | Create | Install(cell: nat, fd: int) | UnlockWrite
    | Downgrade | UnlockShared
    | Release(cell: nat)
    | Register(cell: nat, epoll: nat, fd: int)
    | Unregister(cell: nat, epoll: nat)
    | Destroy(desc: nat)

  function Init(threads: nat): State {
    State([], [], [], seq(threads, _ => Idle))
  }

  predicate Reads(pc: Pc) {
    pc.Reading? || pc.Found? || pc.Sharing?
  }

  /** Nobody has the lock in a way that excludes readers, or writers. */
  predicate NoWriter(s: State) {
    forall u :: 0 <= u < |s.pcs| ==> !s.pcs[u].Writing?
  }

  predicate NoUser(s: State) {
    forall u :: 0 <= u < |s.pcs| ==> !s.pcs[u].Writing? && !Reads(s.pcs[u])
  }

  predicate IsHand(s: State, cell: nat, t: nat) {
    cell < |s.refs| && s.refs[cell].Hand? && s.refs[cell].thread == t && s.refs[cell].desc < |s.counts|
  }

  /** Thread t holds the epoll instance e, or is visiting it in one of the passes of a close. */
  predicate MayEdit(s: State, t: nat, e: nat) {
    (exists x :: 0 <= x < |s.refs| && s.refs[x] == Hand(t, e)) ||
    (t < |s.pcs| && s.pcs[t].Found? && s.pcs[t].sharing && s.pcs[t].desc == e)
  }

  function At(s: State, t: nat, pc: Pc): seq<Pc>
    requires t < |s.pcs|
  {
    s.pcs[t := pc]
  }

  /** The nodes of a destroyed epoll instance become references its destroyer has to drop. */
  function Orphaned(refs: seq<Ref>, t: nat, e: nat): seq<Ref> {
    seq(|refs|, i requires 0 <= i < |refs| =>
      if refs[i].Node? && refs[i].epoll == e then Hand(t, refs[i].desc) else refs[i])
  }

  function Step(s: State, t: nat, a: Action): Option<State> {
    if t >= |s.pcs| || |s.counts| != |s.lives| then None else
    var pc := s.pcs[t];
    match a
    case LockRead =>
      if pc.Idle? && NoWriter(s) then Some(s.(pcs := At(s, t, Reading))) else None
    case Look(x) =>
      if (pc.Reading? || pc.Sharing?) && x < |s.refs| && s.refs[x].Slot?
      then Some(s.(pcs := At(s, t, Found(s.refs[x].fd, s.refs[x].desc, pc.Sharing?)))) else None
    case Grab =>
      if pc.Found? && !pc.sharing && pc.desc < |s.counts|
      then Some(s.(pcs := At(s, t, Reading), refs := s.refs + [Hand(t, pc.desc)],
                   counts := s.counts[pc.desc := s.counts[pc.desc] + 1])) else None
    case Visit =>
      if pc.Found? then Some(s) else None
    case Back =>
      if pc.Found? then Some(s.(pcs := At(s, t, if pc.sharing then Sharing else Reading))) else None
    case UnlockRead =>
      if pc.Reading? then Some(s.(pcs := At(s, t, Idle))) else None
    case LockWrite =>
      if pc.Idle? && NoUser(s) then Some(s.(pcs := At(s, t, Writing))) else None
    case Empty(x) =>
      if pc.Writing? && x < |s.refs| && s.refs[x].Slot?
      then Some(s.(refs := s.refs[x := Hand(t, s.refs[x].desc)])) else None
    case Create =>
      if pc.Writing?
      then Some(s.(refs := s.refs + [Hand(t, |s.counts|)], counts := s.counts + [1], lives := s.lives + [Alive]))
      else None
    case Install(x, fd) =>
      if pc.Writing? && IsHand(s, x, t) && (forall y :: 0 <= y < |s.refs| ==> !(s.refs[y].Slot? && s.refs[y].fd == fd))
      then Some(s.(pcs := At(s, t, Idle), refs := s.refs[x := Slot(fd, s.refs[x].desc)])) else None
    case UnlockWrite =>
      if pc.Writing? then Some(s.(pcs := At(s, t, Idle))) else None
    case Downgrade =>
      if pc.Writing? then Some(s.(pcs := At(s, t, Sharing))) else None
    case UnlockShared =>
      if pc.Sharing? then Some(s.(pcs := At(s, t, Idle))) else None
    case Release(x) =>
      if !IsHand(s, x, t) then None else
      var d := s.refs[x].desc;
      Some(s.(refs := s.refs[x := Free], counts := s.counts[d := s.counts[d] - 1],
              lives := if s.counts[d] == 1 then s.lives[d := Dying(t)] else s.lives))
    case Register(x, e, fd) =>
      if !IsHand(s, x, t) || !MayEdit(s, t, e) then None else
      var d := s.refs[x].desc;
      Some(s.(refs := s.refs + [Node(e, fd, d)], counts := s.counts[d := s.counts[d] + 1]))
    case Unregister(x, e) =>
      if x < |s.refs| && s.refs[x].Node? && s.refs[x].epoll == e && MayEdit(s, t, e)
      then Some(s.(refs := s.refs[x := Hand(t, s.refs[x].desc)])) else None
    case Destroy(d) =>
      if d < |s.lives| && s.lives[d] == Dying(t)
      then Some(s.(lives := s.lives[d := Dead], refs := Orphaned(s.refs, t, d))) else None
  }

  // ---------- The invariant ----------

  predicate PointsTo(r: Ref, d: nat) {
    !r.Free? && r.desc == d
  }

  function To(d: nat): Ref -> bool {
    (r: Ref) => PointsTo(r, d)
  }

  /** Slots, nodes and threads together account for every count. */
  ghost predicate Counted(s: State) {
    && |s.counts| == |s.lives|
    && (forall d :: 0 <= d < |s.counts| ==> s.counts[d] == Counting.Count(s.refs, To(d)))
    && (forall d :: 0 <= d < |s.counts| ==> (s.lives[d].Alive? <==> s.counts[d] > 0))
  }

  ghost predicate Known(s: State) {
    && (forall x :: 0 <= x < |s.refs| && !s.refs[x].Free? ==> s.refs[x].desc < |s.counts|)
    && (forall x :: 0 <= x < |s.refs| && s.refs[x].Node? ==>
          s.refs[x].epoll < |s.lives| && !s.lives[s.refs[x].epoll].Dead?)
    && (forall d :: 0 <= d < |s.lives| && s.lives[d].Dying? ==> s.lives[d].dropper < |s.pcs|)
  }

  ghost predicate Locked(s: State) {
    && (forall u, v :: 0 <= u < |s.pcs| && 0 <= v < |s.pcs| && u != v && s.pcs[u].Writing? ==>
          !s.pcs[v].Writing? && !Reads(s.pcs[v]))
    && (forall u :: 0 <= u < |s.pcs| && s.pcs[u].Found? ==> HasSlot(s, s.pcs[u].fd, s.pcs[u].desc))
  }

  ghost predicate HasSlot(s: State, fd: int, d: nat) {
    exists x :: 0 <= x < |s.refs| && s.refs[x] == Slot(fd, d)
  }

  ghost predicate Inv(s: State) {
    Counted(s) && Known(s) && Locked(s)
  }

  lemma InitInv(threads: nat)
    ensures Inv(Init(threads))
  {
  }

  /** A reference keeps its description alive. */
  lemma HeldAlive(s: State, x: nat)
    requires Counted(s) && x < |s.refs| && !s.refs[x].Free? && s.refs[x].desc < |s.counts|
    ensures s.counts[s.refs[x].desc] > 0 && s.lives[s.refs[x].desc].Alive?
  {
    Counting.CountMember(s.refs, x, To(s.refs[x].desc));
  }

  /** A change that leaves every cell pointing where it did. */
  lemma CountedSame(s: State, n: State)
    requires Counted(s) && n.counts == s.counts && |n.lives| == |s.lives| && |n.refs| == |s.refs|
    requires forall x, d :: 0 <= x < |s.refs| ==> PointsTo(n.refs[x], d) == PointsTo(s.refs[x], d)
    requires forall d :: 0 <= d < |s.lives| ==> (n.lives[d].Alive? <==> s.lives[d].Alive?)
    ensures Counted(n)
  {
    forall d | 0 <= d < |s.counts|
      ensures n.counts[d] == Counting.Count(n.refs, To(d))
    {
      Counting.CountSame(s.refs, n.refs, To(d));
    }
  }

  /** A new cell, and one more in the count of its description. */
  lemma CountedAppend(s: State, n: State, r: Ref)
    requires Counted(s) && !r.Free? && r.desc < |s.counts| && s.counts[r.desc] > 0
    requires n.refs == s.refs + [r] && n.counts == s.counts[r.desc := s.counts[r.desc] + 1] && n.lives == s.lives
    ensures Counted(n)
  {
    forall d | 0 <= d < |s.counts|
      ensures n.counts[d] == Counting.Count(n.refs, To(d))
    {
      Counting.CountAppend(s.refs, r, To(d));
    }
  }

  lemma CountedCreate(s: State, n: State, t: nat)
    requires Counted(s) && Known(s)
    requires n.refs == s.refs + [Hand(t, |s.counts|)] && n.counts == s.counts + [1] && n.lives == s.lives + [Alive]
    ensures Counted(n)
  {
    forall d | 0 <= d < |n.counts|
      ensures n.counts[d] == Counting.Count(n.refs, To(d))
    {
      Counting.CountAppend(s.refs, Hand(t, |s.counts|), To(d));
      if d == |s.counts| {
        Counting.CountNone(s.refs, To(d));
      }
    }
  }

  lemma CountedRelease(s: State, n: State, x: nat, t: nat)
    requires Counted(s) && x < |s.refs| && !s.refs[x].Free? && s.refs[x].desc < |s.counts|
    requires var d := s.refs[x].desc;
      && n.refs == s.refs[x := Free] && n.counts == s.counts[d := s.counts[d] - 1]
      && n.lives == if s.counts[d] == 1 then s.lives[d := Dying(t)] else s.lives
    ensures Counted(n)
  {
    HeldAlive(s, x);
    forall d | 0 <= d < |s.counts|
      ensures n.counts[d] == Counting.Count(n.refs, To(d))
    {
      Counting.CountMove(s.refs, x, Free, To(d));
    }
  }

  lemma FoundAlive(s: State, t: nat)
    requires Counted(s) && Known(s) && Locked(s) && t < |s.pcs| && s.pcs[t].Found?
    ensures s.pcs[t].desc < |s.counts| && s.counts[s.pcs[t].desc] > 0
  {
    var x :| 0 <= x < |s.refs| && s.refs[x] == Slot(s.pcs[t].fd, s.pcs[t].desc);
    HeldAlive(s, x);
  }

  lemma StepCounted(s: State, t: nat, a: Action)
    requires Inv(s) && Step(s, t, a).Some?
    ensures Counted(Step(s, t, a).value)
  {
    var n := Step(s, t, a).value;
    match a
    case Grab =>
      FoundAlive(s, t);
      CountedAppend(s, n, Hand(t, s.pcs[t].desc));
    case Create => CountedCreate(s, n, t);
    case Release(x) => CountedRelease(s, n, x, t);
    case Register(x, e, fd) =>
      HeldAlive(s, x);
      CountedAppend(s, n, Node(e, fd, s.refs[x].desc));
    case Empty(_) => CountedSame(s, n);
    case Install(_, _) => CountedSame(s, n);
    case Unregister(_, _) => CountedSame(s, n);
    case Destroy(_) => CountedSame(s, n);
    case _ =>
  }

  lemma EditAlive(s: State, t: nat, e: nat)
    requires Counted(s) && Known(s) && Locked(s) && MayEdit(s, t, e)
    ensures e < |s.lives| && s.lives[e].Alive?
  {
    if x :| 0 <= x < |s.refs| && s.refs[x] == Hand(t, e) {
      HeldAlive(s, x);
    } else {
      FoundAlive(s, t);
    }
  }

  lemma StepKnownAt(s: State, t: nat, a: Action, x: nat)
    requires Inv(s) && Step(s, t, a).Some? && x < |Step(s, t, a).value.refs|
    requires a.Register? ==> a.epoll < |s.lives| && s.lives[a.epoll].Alive?
    requires a.Grab? ==> s.pcs[t].desc < |s.counts|
    ensures var n := Step(s, t, a).value; var r := n.refs[x];
      && (!r.Free? ==> r.desc < |n.counts|)
      && (r.Node? ==> r.epoll < |n.lives| && !n.lives[r.epoll].Dead?)
  {
  }

  lemma StepKnown(s: State, t: nat, a: Action)
    requires Inv(s) && Step(s, t, a).Some?
    ensures Known(Step(s, t, a).value)
  {
    if a.Register? {
      EditAlive(s, t, a.epoll);
    } else if a.Grab? {
      FoundAlive(s, t);
    }
    forall x | 0 <= x < |Step(s, t, a).value.refs|
      ensures var n := Step(s, t, a).value; var r := n.refs[x];
        && (!r.Free? ==> r.desc < |n.counts|)
        && (r.Node? ==> r.epoll < |n.lives| && !n.lives[r.epoll].Dead?)
    {
      StepKnownAt(s, t, a, x);
    }
  }

  lemma StepLocked(s: State, t: nat, a: Action)
    requires Inv(s) && Step(s, t, a).Some?
    ensures Locked(Step(s, t, a).value)
  {
    var n := Step(s, t, a).value;
    forall u | 0 <= u < |n.pcs| && n.pcs[u].Found?
      ensures HasSlot(n, n.pcs[u].fd, n.pcs[u].desc)
    {
      var x: nat;
      if u == t && a.Look? {
        x := a.cell;
      } else {
        x :| 0 <= x < |s.refs| && s.refs[x] == Slot(s.pcs[u].fd, s.pcs[u].desc);
      }
      assert n.refs[x] == Slot(n.pcs[u].fd, n.pcs[u].desc);
    }
  }

  /** Every step of every thread keeps the accounts. */
  lemma StepInv(s: State, t: nat, a: Action)
    requires Inv(s) && Step(s, t, a).Some?
    ensures Inv(Step(s, t, a).value)
  {
    StepCounted(s, t, a);
    StepKnown(s, t, a);
    StepLocked(s, t, a);
  }

  /** When the lock can be taken, and what a reader of the table may do. */
  lemma ReaderEnabled(s: State, t: nat, x: nat)
    requires |s.counts| == |s.lives| && t < |s.pcs| && (s.pcs[t].Found? ==> s.pcs[t].desc < |s.counts|)
    ensures var (pc, slot) := (s.pcs[t], x < |s.refs| && s.refs[x].Slot?);
      && (Step(s, t, LockRead).Some? <==> pc.Idle? && NoWriter(s))
      && (Step(s, t, LockWrite).Some? <==> pc.Idle? && NoUser(s))
      && (Step(s, t, Look(x)).Some? <==> (pc.Reading? || pc.Sharing?) && slot)
      && (Step(s, t, Visit).Some? <==> pc.Found?) && (Step(s, t, Back).Some? <==> pc.Found?)
      && (Step(s, t, Grab).Some? <==> pc.Found? && !pc.sharing)
      && (Step(s, t, UnlockRead).Some? <==> pc.Reading?) && (Step(s, t, UnlockShared).Some? <==> pc.Sharing?)
  {
  }

  /** What a writer may do with the table. */
  lemma WriterEnabled(s: State, t: nat, x: nat, fd: int)
    requires |s.counts| == |s.lives| && t < |s.pcs|
    ensures var (pc, slot) := (s.pcs[t], x < |s.refs| && s.refs[x].Slot?);
      && (Step(s, t, Create).Some? <==> pc.Writing?) && (Step(s, t, UnlockWrite).Some? <==> pc.Writing?)
      && (Step(s, t, Downgrade).Some? <==> pc.Writing?) && (Step(s, t, Empty(x)).Some? <==> pc.Writing? && slot)
      && (Step(s, t, Install(x, fd)).Some? <==>
            pc.Writing? && IsHand(s, x, t) && forall y :: 0 <= y < |s.refs| && s.refs[y].Slot? ==> s.refs[y].fd != fd)
  {
  }

  /** What a thread holds it may release, and in the invariant nothing it found is missing. */
  lemma HolderEnabled(s: State, t: nat, x: nat)
    requires Inv(s) && t < |s.pcs|
    ensures Step(s, t, Release(x)).Some? <==> x < |s.refs| && s.refs[x].Hand? && s.refs[x].thread == t
    ensures s.pcs[t].Found? ==> s.pcs[t].desc < |s.counts|
  {
    if s.pcs[t].Found? {
      FoundAlive(s, t);
    }
  }

  /** Who holds an epoll instance, or visits it in a close, may register what it holds there, and remove its nodes. */
  lemma EditEnabled(s: State, t: nat, x: nat, e: nat, fd: int, y: nat)
    requires Inv(s) && t < |s.pcs| && y < |s.refs|
    requires s.refs[y] == Hand(t, e) || (s.pcs[t].Found? && s.pcs[t].sharing && s.pcs[t].desc == e)
    ensures x < |s.refs| && s.refs[x].Hand? && s.refs[x].thread == t ==> Step(s, t, Register(x, e, fd)).Some?
    ensures x < |s.refs| && s.refs[x].Node? && s.refs[x].epoll == e ==> Step(s, t, Unregister(x, e)).Some?
  {
    assert MayEdit(s, t, e);
  }

  // ---------- The table ----------

  /** A descriptor has one slot. */
  ghost predicate OneSlot(s: State) {
    forall x, y :: 0 <= x < y < |s.refs| && s.refs[x].Slot? && s.refs[y].Slot? ==> s.refs[x].fd != s.refs[y].fd
  }

  lemma StepSlots(s: State, t: nat, a: Action)
    requires OneSlot(s) && Step(s, t, a).Some?
    ensures OneSlot(Step(s, t, a).value)
  {
  }

  lemma {:induction false} RunSlots(s: State, trace: seq<Event>)
    requires OneSlot(s) && Run(s, trace).Some?
    ensures OneSlot(Run(s, trace).value)
    decreases |trace|
  {
    if trace != [] {
      StepSlots(s, trace[0].t, trace[0].a);
      RunSlots(Step(s, trace[0].t, trace[0].a).value, trace[1..]);
    }
  }

  // ---------- Who holds what ----------

  /**
   A reference never comes to point elsewhere; it changes hands when a slot is
   emptied or filled, a node unregistered or its epoll instance destroyed, and
   goes when the thread that holds it releases it.
   */
  lemma HolderStep(s: State, t: nat, a: Action, x: nat)
    requires Step(s, t, a).Some? && x < |s.refs|
    ensures var n := Step(s, t, a).value;
      x < |n.refs| &&
      match s.refs[x]
      case Free => n.refs[x] == Free
      case Slot(_, d) => n.refs[x] == if a == Empty(x) then Hand(t, d) else s.refs[x]
      case Node(e, _, d) => n.refs[x] == if a == Unregister(x, e) || a == Destroy(e) then Hand(t, d) else s.refs[x]
      case Hand(u, d) =>
        n.refs[x] == if a == Release(x) then Free else if a.Install? && a.cell == x then Slot(a.fd, d) else s.refs[x]
    ensures (a == Release(x) || (a.Install? && a.cell == x)) ==> s.refs[x].Hand? && s.refs[x].thread == t
  {
  }

  /** A new reference is to what was found in the table, to a description just made, or that of a registration. */
  lemma HolderNew(s: State, t: nat, a: Action)
    requires Step(s, t, a).Some?
    ensures var n := Step(s, t, a).value;
      match a
      case Grab => n.refs[|s.refs|..] == [Hand(t, s.pcs[t].desc)]
      case Create => n.refs[|s.refs|..] == [Hand(t, |s.counts|)] && |n.counts| == |s.counts| + 1
      case Register(x, e, fd) => s.refs[x].Hand? && n.refs[|s.refs|..] == [Node(e, fd, s.refs[x].desc)]
      case _ => |n.refs| == |s.refs| && |n.counts| == |s.counts|
  {
  }

  /** A thread that looks finds what the slot holds; one that has downgraded still keeps writers out. */
  lemma LockStep(s: State, t: nat, a: Action)
    requires Step(s, t, a).Some?
    ensures var q := Step(s, t, a).value.pcs[t];
      && (a.Look? ==> q.Found? && s.refs[a.cell] == Slot(q.fd, q.desc))
      && (a.Downgrade? ==> q.Sharing? && Reads(q))
      && (a.Grab? ==> s.pcs[t].Found? && !s.pcs[t].sharing)
      && (a.Back? ==> q == if s.pcs[t].sharing then Sharing else Reading)
      && (a.UnlockRead? || a.UnlockWrite? || a.UnlockShared? || a.Install? ==> q.Idle?)
      && (a.LockRead? || a.Grab? ==> q.Reading?) && (a.LockWrite? ==> q.Writing?)
      && (forall u :: 0 <= u < |s.pcs| && u != t ==> Step(s, t, a).value.pcs[u] == s.pcs[u])
  {
  }

  // ---------- What the counts mean ----------

  function InSlot(d: nat): Ref -> bool {
    (r: Ref) => r.Slot? && r.desc == d
  }

  function InNode(d: nat): Ref -> bool {
    (r: Ref) => r.Node? && r.desc == d
  }

  function InHand(d: nat): Ref -> bool {
    (r: Ref) => r.Hand? && r.desc == d
  }

  lemma {:induction false} ByHolder(refs: seq<Ref>, d: nat)
    ensures Counting.Count(refs, To(d)) ==
      Counting.Count(refs, InSlot(d)) + Counting.Count(refs, InNode(d)) + Counting.Count(refs, InHand(d))
  {
    if refs != [] {
      ByHolder(refs[1..], d);
    }
  }

  datatype Event = Event(t: nat, a: Action)

  function Run(s: State, trace: seq<Event>): Option<State>
    decreases |trace|
  {
    if trace == [] then Some(s)
    else match Step(s, trace[0].t, trace[0].a)
         case None => None
         case Some(n) => Run(n, trace[1..])
  }

  lemma {:induction false} RunInv(s: State, trace: seq<Event>)
    requires Inv(s) && Run(s, trace).Some?
    ensures Inv(Run(s, trace).value)
    decreases |trace|
  {
    if trace != [] {
      StepInv(s, trace[0].t, trace[0].a);
      RunInv(Step(s, trace[0].t, trace[0].a).value, trace[1..]);
    }
  }

  /** In every run, each count is the table slots plus the nodes plus the threads that hold the description. */
  lemma Conservation(threads: nat, trace: seq<Event>, d: nat)
    requires Run(Init(threads), trace).Some? && d < |Run(Init(threads), trace).value.counts|
    ensures var s := Run(Init(threads), trace).value;
      && s.counts[d] ==
           Counting.Count(s.refs, InSlot(d)) + Counting.Count(s.refs, InNode(d)) + Counting.Count(s.refs, InHand(d))
      && d < |s.lives| && (s.counts[d] == 0 <==> !s.lives[d].Alive?)
  {
    RunInv(Init(threads), trace);
    ByHolder(Run(Init(threads), trace).value.refs, d);
  }

  /** The step reads or changes description d. */
  predicate Touches(s: State, t: nat, a: Action, d: nat) {
    match a
    case Grab => t < |s.pcs| && s.pcs[t].Found? && s.pcs[t].desc == d
    case Visit => t < |s.pcs| && s.pcs[t].Found? && s.pcs[t].desc == d
    case Release(x) => x < |s.refs| && PointsTo(s.refs[x], d)
    case Register(x, e, _) => x < |s.refs| && (PointsTo(s.refs[x], d) || e == d)
    case Unregister(x, e) => x < |s.refs| && (PointsTo(s.refs[x], d) || e == d)
    case Install(x, _) => x < |s.refs| && PointsTo(s.refs[x], d)
    case _ => false
  }

  /** No step touches a description that has been destroyed, or is about to be. */
  lemma NoUseAfterFree(s: State, t: nat, a: Action, d: nat)
    requires Inv(s) && Step(s, t, a).Some? && Touches(s, t, a, d)
    ensures d < |s.counts| && s.counts[d] > 0 && s.lives[d].Alive?
  {
    match a
    case Grab => FoundAlive(s, t);
    case Visit => FoundAlive(s, t);
    case Release(x) => HeldAlive(s, x);
    case Install(x, _) => HeldAlive(s, x);
    case Register(x, e, _) =>
      HeldAlive(s, x);
      EditAlive(s, t, e);
    case Unregister(x, e) =>
      HeldAlive(s, x);
      EditAlive(s, t, e);
    case _ =>
  }

  function Age(l: Life): nat {
    if l.Alive? then 0 else if l.Dying? then 1 else 2
  }

  lemma Ages(s: State, t: nat, a: Action, d: nat)
    requires Inv(s) && Step(s, t, a).Some? && d < |s.lives|
    ensures var n := Step(s, t, a).value;
      && d < |n.lives| && Age(n.lives[d]) >= Age(s.lives[d])
      && (a == Destroy(d) ==> s.lives[d].Dying? && n.lives[d].Dead?)
      && (a.Destroy? && a.desc != d ==> n.lives[d] == s.lives[d])
  {
    if a.Release? {
      HeldAlive(s, a.cell);
    }
  }

  function Destructions(trace: seq<Event>, d: nat): nat {
    if trace == [] then 0 else (if trace[0].a == Destroy(d) then 1 else 0) + Destructions(trace[1..], d)
  }

  /** No description is destroyed twice, and one without references is destroyed or its destroyer is on the way. */
  lemma {:induction false} DestroyedOnce(s: State, trace: seq<Event>, d: nat)
    requires Inv(s) && Run(s, trace).Some? && d < |s.lives|
    ensures var n := Run(s, trace).value;
      && d < |n.lives| && |n.lives| == |n.counts|
      && Destructions(trace, d) + (if s.lives[d].Dead? then 1 else 0) == (if n.lives[d].Dead? then 1 else 0)
      && (n.counts[d] == 0 ==> n.lives[d].Dead? || (n.lives[d].Dying? && Step(n, n.lives[d].dropper, Destroy(d)).Some?))
    decreases |trace|
  {
    if trace != [] {
      StepInv(s, trace[0].t, trace[0].a);
      Ages(s, trace[0].t, trace[0].a, d);
      if trace[0].a != Destroy(d) {
        DiesByDestroy(s, trace[0].t, trace[0].a, d);
      }
      DestroyedOnce(Step(s, trace[0].t, trace[0].a).value, trace[1..], d);
    }
  }

  lemma DiesByDestroy(s: State, t: nat, a: Action, d: nat)
    requires Inv(s) && Step(s, t, a).Some? && d < |s.lives| && a != Destroy(d)
    ensures Step(s, t, a).value.lives[d].Dead? <==> s.lives[d].Dead?
  {
    if a.Release? {
      HeldAlive(s, a.cell);
    }
  }
}
