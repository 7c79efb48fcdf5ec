/**
 epoll_shim_ctx_remove_desc of src/epoll_shim_ctx.c: a close locks every epoll
 instance of the table, removes the descriptor from each, closes it and
 unlocks them again, while other threads run epoll_ctl and epoll_wait on
 those instances.  The reader/writer lock is that of RwLock in larger steps:
 an announced writer keeps new readers out and waits for those inside, among
 them readers that still have to take the tokens the writer before it posted,
 and any blocked reader may take such a token in place of another one.
 */
module CloseFd {
  import opened Options

  /** Where a thread is; indices run over open_files. */
  datatype Pc =
    | Idle
    | AwaitRead                                 // counted as a reader, blocked by a writer
    | Admitted                                  // likewise, and a token has been posted for it
    | Reading                                   // find_desc, poll, the step detector
    | Queued(fd: int)                           // close or create, before it has the mutex of the lock
    | Announced(fd: int)                        // with it; no reader gets in any more, some are still inside
    | Writing(fd: int)                          // with the lock
    | Releasing(fd: int, keep: bool)            // new readers get in again; about to post tokens to the blocked ones
    | LockPass(fd: int, i: nat)                 // close, first pass
    | RemovePass(fd: int, i: nat)               // second pass
    | Removed(fd: int)                          // about to close the descriptor itself
    | UnlockPass(fd: int, i: nat)               // third pass
    | AwaitMutex(epoll: int)                    // epoll_ctl, epoll_wait
    | Editing(epoll: int)                       // inside, with the mutex of one epoll instance
    | Flushing(epoll: int)                      // likewise, waiting until nobody polls the old list
    | Polling(epoll: int)                       // in ppoll, without the mutex

  datatype State = State(
    files: seq<Option<int>>,        // open_files: the epoll instance in a slot, if there is one
    watched: map<int, set<int>>,    // the descriptors each epoll instance has registered
    owner: map<int, nat>,           // who owns the mutex of an epoll instance; free ones are absent
    pcs: seq<Pc>)

  datatype Action =
    | LockRead | TakeToken | Steal(donor: nat) | UnlockRead
    | WantWrite(fd: int) | Announce | LockWrite | Put(i: nat, to: Option<int>) | UnlockWrite | Downgrade
    | Post(reader: nat) | Release
    | LockNext | RemoveNext(flush: bool) | CloseIt | UnlockNext
    | WantMutex(epoll: int) | LockMutex | Watch(fd: int) | Unwatch(fd: int) | UnlockMutex
    | Flush | Flushed | Poll | Return

  /** The passes of a close, under the downgraded lock. */
  predicate InPasses(pc: Pc) {
    pc.LockPass? || pc.RemovePass? || pc.Removed? || pc.UnlockPass?
  }

  /** It is a reader that was the writer. */
  predicate Downgraded(pc: Pc) {
    InPasses(pc) || (pc.Releasing? && pc.keep)
  }

  /** A reader that does not wait for a writer. */
  predicate HoldsRead(pc: Pc) {
    pc.Reading? || pc.Admitted? || Downgraded(pc)
  }

  /** It has told readers to stay out. */
  predicate Claims(pc: Pc) {
    pc.Announced? || pc.Writing?
  }

  /** It has the mutex of the lock. */
  predicate OwnsLock(pc: Pc) {
    Claims(pc) || pc.Releasing?
  }

  predicate NoClaim(s: State) {
    forall u :: 0 <= u < |s.pcs| ==> !Claims(s.pcs[u])
  }

  predicate NoOwner(s: State) {
    forall u :: 0 <= u < |s.pcs| ==> !OwnsLock(s.pcs[u])
  }

  predicate NoReader(s: State) {
    forall u :: 0 <= u < |s.pcs| ==> !HoldsRead(s.pcs[u])
  }

  predicate NobodyPolls(s: State, e: int) {
    forall u :: 0 <= u < |s.pcs| ==> s.pcs[u] != Polling(e)
  }

  function Move(s: State, t: nat, pc: Pc): State
    requires t < |s.pcs|
  {
    s.(pcs := s.pcs[t := pc])
  }

  /** Every blocked reader has a token. */
  function AllAdmitted(pcs: seq<Pc>): seq<Pc> {
    seq(|pcs|, i requires 0 <= i < |pcs| => if pcs[i].AwaitRead? then Admitted else pcs[i])
  }

  function Watched(s: State, e: int): set<int> {
    if e in s.watched then s.watched[e] else {}
  }

  /** One step of thread t, or None where it has to wait or the action does not apply. */
  function Step(s: State, t: nat, a: Action): Option<State> {
    if t >= |s.pcs| then None else
    var pc := s.pcs[t];
    match a
    case LockRead => if pc.Idle? then Some(Move(s, t, if NoClaim(s) then Reading else AwaitRead)) else None
    case TakeToken => if pc.Admitted? then Some(Move(s, t, Reading)) else None
    case Steal(m) =>
      if pc.AwaitRead? && m < |s.pcs| && s.pcs[m].Admitted?
      then Some(s.(pcs := s.pcs[t := Admitted][m := AwaitRead])) else None
    case UnlockRead => if pc.Reading? then Some(Move(s, t, Idle)) else None
    case WantWrite(fd) => if pc.Idle? then Some(Move(s, t, Queued(fd))) else None
    case Announce => if pc.Queued? && NoOwner(s) then Some(Move(s, t, Announced(pc.fd))) else None
    case LockWrite => if pc.Announced? && NoReader(s) then Some(Move(s, t, Writing(pc.fd))) else None
    case Put(i, to) =>
      if pc.Writing? && i < |s.files| && (forall k :: 0 <= k < |s.files| && k != i && to.Some? ==> s.files[k] != to)
      then Some(s.(files := s.files[i := to])) else None
    case UnlockWrite => if pc.Writing? then Some(Move(s, t, Releasing(pc.fd, false))) else None
    case Downgrade => if pc.Writing? then Some(Move(s, t, Releasing(pc.fd, true))) else None
    case Post(u) =>
      if pc.Releasing? && u < |s.pcs| && s.pcs[u].AwaitRead? then Some(Move(s, u, Admitted)) else None
    case Release =>
      if pc.Releasing?
      then Some(s.(pcs := AllAdmitted(s.pcs)[t := if pc.keep then LockPass(pc.fd, 0) else Idle])) else None
    case LockNext =>
      if !pc.LockPass? then None
      else if pc.i >= |s.files| then Some(Move(s, t, RemovePass(pc.fd, 0)))
      else if s.files[pc.i].None? then Some(Move(s, t, LockPass(pc.fd, pc.i + 1)))
      else if s.files[pc.i].value in s.owner then None
      else Some(Move(s, t, LockPass(pc.fd, pc.i + 1)).(owner := s.owner[s.files[pc.i].value := t]))
    case RemoveNext(flush) =>
      if !pc.RemovePass? then None
      else if pc.i >= |s.files| then Some(Move(s, t, Removed(pc.fd)))
      else if s.files[pc.i].None? then Some(Move(s, t, RemovePass(pc.fd, pc.i + 1)))
      else if flush && !NobodyPolls(s, s.files[pc.i].value) then None
      else
        var e := s.files[pc.i].value;
        Some(Move(s, t, RemovePass(pc.fd, pc.i + 1)).(watched := s.watched[e := Watched(s, e) - {pc.fd}]))
    case CloseIt => if pc.Removed? then Some(Move(s, t, UnlockPass(pc.fd, 0))) else None
    case UnlockNext =>
      if !pc.UnlockPass? then None
      else if pc.i >= |s.files| then Some(Move(s, t, Idle))
      else if s.files[pc.i].None? then Some(Move(s, t, UnlockPass(pc.fd, pc.i + 1)))
      else Some(Move(s, t, UnlockPass(pc.fd, pc.i + 1)).(owner := s.owner - {s.files[pc.i].value}))
    case WantMutex(e) => if pc.Idle? then Some(Move(s, t, AwaitMutex(e))) else None
    case LockMutex =>
      if pc.AwaitMutex? && pc.epoll !in s.owner
      then Some(Move(s, t, Editing(pc.epoll)).(owner := s.owner[pc.epoll := t])) else None
    case Watch(fd) =>
      if pc.Editing? then Some(s.(watched := s.watched[pc.epoll := Watched(s, pc.epoll) + {fd}])) else None
    case Unwatch(fd) =>
      if pc.Editing? then Some(s.(watched := s.watched[pc.epoll := Watched(s, pc.epoll) - {fd}])) else None
    case UnlockMutex =>
      if pc.Editing? then Some(Move(s, t, Idle).(owner := s.owner - {pc.epoll})) else None
    case Flush => if pc.Editing? then Some(Move(s, t, Flushing(pc.epoll))) else None
    case Flushed =>
      if pc.Flushing? && NobodyPolls(s, pc.epoll) then Some(Move(s, t, Editing(pc.epoll))) else None
    case Poll =>
      if pc.Editing? then Some(Move(s, t, Polling(pc.epoll)).(owner := s.owner - {pc.epoll})) else None
    case Return => if pc.Polling? then Some(Move(s, t, Idle)) else None
  }

  /** The stretch of the table whose mutexes a thread in its passes owns. */
  function From(pc: Pc): nat {
    if pc.UnlockPass? then pc.i else 0
  }

  function Upto(pc: Pc, length: nat): nat {
    if pc.LockPass? then pc.i
    else if pc.RemovePass? || pc.Removed? || pc.UnlockPass? then length
    else 0
  }

  predicate InTable(files: seq<Option<int>>, lo: nat, hi: nat, e: int) {
    exists k :: lo <= k < hi && k < |files| && files[k] == Some(e)
  }

  /** The mutexes that thread t is meant to own, given the table. */
  predicate Owns(s: State, t: nat, e: int)
    requires t < |s.pcs|
  {
    s.pcs[t] == Editing(e) || s.pcs[t] == Flushing(e) || InTable(s.files, From(s.pcs[t]), Upto(s.pcs[t], |s.files|), e)
  }

  ghost predicate OneSlot(s: State) {
    forall j, k :: 0 <= j < k < |s.files| && s.files[j].Some? ==> s.files[j] != s.files[k]
  }

  /** What the lock keeps apart. */
  ghost predicate Apart(p: Pc, q: Pc) {
    && (p.Writing? ==> !HoldsRead(q))
    && (OwnsLock(p) ==> !OwnsLock(q))
    && (Downgraded(p) ==> !Downgraded(q))
  }

  ghost predicate Locked(s: State) {
    forall u, v :: 0 <= u < |s.pcs| && 0 <= v < |s.pcs| && u != v ==> Apart(s.pcs[u], s.pcs[v])
  }

  /** Readers are blocked by a writer, until it has posted all tokens. */
  ghost predicate Blocked(s: State) {
    (exists t :: 0 <= t < |s.pcs| && s.pcs[t].AwaitRead?) ==> exists u :: 0 <= u < |s.pcs| && OwnsLock(s.pcs[u])
  }

  ghost predicate Owned(s: State) {
    forall t, e :: 0 <= t < |s.pcs| ==> ((e in s.owner && s.owner[e] == t) <==> Owns(s, t, e))
  }

  /** Slot k is behind the second pass of a close, and its mutex still locked. */
  predicate Cleared(pc: Pc, k: nat) {
    (pc.RemovePass? && k < pc.i) || pc.Removed? || (pc.UnlockPass? && k >= pc.i)
  }

  /** Instances behind the second pass no longer watch the descriptor. */
  ghost predicate Gone(s: State) {
    forall t, k :: 0 <= t < |s.pcs| && 0 <= k < |s.files| && s.files[k].Some? && Cleared(s.pcs[t], k) ==>
      s.pcs[t].fd !in Watched(s, s.files[k].value)
  }

  ghost predicate Inv(s: State) {
    && OneSlot(s) && Locked(s) && Blocked(s) && Owned(s) && Gone(s)
    && forall e :: e in s.owner ==> s.owner[e] < |s.pcs|
  }

  lemma StepSlots(s: State, t: nat, a: Action)
    requires OneSlot(s) && Step(s, t, a).Some?
    ensures OneSlot(Step(s, t, a).value)
  {
  }

  /** Who hands out or takes tokens. */
  predicate MovesTokens(a: Action) {
    a.Steal? || a.Post? || a.Release?
  }

  lemma TokensApart(s: State, t: nat, a: Action, u: nat, v: nat)
    requires Locked(s) && Step(s, t, a).Some? && u < |s.pcs| && v < |s.pcs| && u != v && MovesTokens(a)
    ensures var n := Step(s, t, a).value; Apart(n.pcs[u], n.pcs[v])
  {
    assert Apart(s.pcs[u], s.pcs[v]);
    assert u != t ==> Apart(s.pcs[u], s.pcs[t]);
    assert v != t ==> Apart(s.pcs[t], s.pcs[v]);
    assert a.Steal? && u != a.donor ==> Apart(s.pcs[u], s.pcs[a.donor]);
  }

  lemma StepLockedAt(s: State, t: nat, a: Action, u: nat, v: nat)
    requires Locked(s) && Step(s, t, a).Some? && u < |s.pcs| && v < |s.pcs| && u != v
    ensures var n := Step(s, t, a).value; Apart(n.pcs[u], n.pcs[v])
  {
    if MovesTokens(a) {
      TokensApart(s, t, a, u, v);
    } else {
      assert Apart(s.pcs[u], s.pcs[v]) && Apart(s.pcs[v], s.pcs[u]);
    }
  }

  lemma StepLocked(s: State, t: nat, a: Action)
    requires Locked(s) && Step(s, t, a).Some?
    ensures Locked(Step(s, t, a).value)
  {
    var n := Step(s, t, a).value;
    forall u, v | 0 <= u < |n.pcs| && 0 <= v < |n.pcs| && u != v
      ensures Apart(n.pcs[u], n.pcs[v])
    {
      StepLockedAt(s, t, a, u, v);
    }
  }

  /** The mutex of the lock stays with its owner until that is done with its tokens. */
  lemma OwnerStays(s: State, t: nat, a: Action, u: nat)
    requires Locked(s) && Step(s, t, a).Some? && u < |s.pcs| && OwnsLock(s.pcs[u]) && !a.Release?
    ensures OwnsLock(Step(s, t, a).value.pcs[u])
  {
  }

  lemma ReleasedAll(s: State, t: nat, x: nat)
    requires Step(s, t, Release).Some? && x < |s.pcs|
    ensures !Step(s, t, Release).value.pcs[x].AwaitRead?
  {
  }

  lemma NewlyBlocked(s: State, t: nat, a: Action, x: nat)
    requires Step(s, t, a).Some? && x < |s.pcs| && Step(s, t, a).value.pcs[x].AwaitRead?
    ensures (a.LockRead? && !NoClaim(s)) || exists y :: 0 <= y < |s.pcs| && s.pcs[y].AwaitRead?
  {
    assert a.Steal? ==> s.pcs[t].AwaitRead?;
  }

  lemma StepBlocked(s: State, t: nat, a: Action)
    requires Locked(s) && Blocked(s) && Step(s, t, a).Some?
    ensures Blocked(Step(s, t, a).value)
  {
    var n := Step(s, t, a).value;
    if x: nat :| x < |n.pcs| && n.pcs[x].AwaitRead? {
      if a.Release? {
        ReleasedAll(s, t, x);
      }
      NewlyBlocked(s, t, a, x);
      var u: nat :| u < |s.pcs| && OwnsLock(s.pcs[u]);
      OwnerStays(s, t, a, u);
    }
  }

  /** The table only changes while nobody is in the passes of a close. */
  lemma TableFixed(s: State, t: nat, a: Action, u: nat)
    requires Locked(s) && Step(s, t, a).Some? && u < |s.pcs| && InPasses(s.pcs[u])
    ensures Step(s, t, a).value.files == s.files
  {
    assert u == t || Apart(s.pcs[t], s.pcs[u]);
  }

  lemma Stretch(files: seq<Option<int>>, lo: nat, i: nat, hi: nat, e: int)
    requires lo <= i < hi <= |files|
    ensures InTable(files, lo, i + 1, e) <==> InTable(files, lo, i, e) || files[i] == Some(e)
    ensures InTable(files, i, hi, e) <==> InTable(files, i + 1, hi, e) || files[i] == Some(e)
  {
  }

  lemma OnlySlot(s: State, i: nat, e: int)
    requires OneSlot(s) && i < |s.files| && s.files[i] == Some(e)
    ensures !InTable(s.files, 0, i, e) && !InTable(s.files, i + 1, |s.files|, e)
  {
  }

  /** The steps of a thread move no other one, but with the tokens of blocked readers. */
  lemma OtherStays(s: State, t: nat, a: Action, u: nat)
    requires Step(s, t, a).Some? && u < |s.pcs| && u != t
    ensures var (p, q) := (s.pcs[u], Step(s, t, a).value.pcs[u]);
      p == q || ((p.AwaitRead? || p.Admitted?) && (q.AwaitRead? || q.Admitted?))
  {
  }

  lemma OwnsOther(s: State, t: nat, a: Action, u: nat, e: int)
    requires Locked(s) && Step(s, t, a).Some? && u < |s.pcs| && u != t
    ensures Owns(Step(s, t, a).value, u, e) <==> Owns(s, u, e)
  {
    OtherStays(s, t, a, u);
    if InPasses(s.pcs[u]) {
      TableFixed(s, t, a, u);
    }
  }

  /** A step takes free mutexes and gives up its own ones. */
  lemma OwnerOther(s: State, t: nat, a: Action, u: nat, e: int)
    requires Step(s, t, a).Some? && u != t && u < |s.pcs|
    requires (e in s.owner && s.owner[e] == t) <==> Owns(s, t, e)
    ensures var n := Step(s, t, a).value;
      (e in n.owner && n.owner[e] == u) <==> (e in s.owner && s.owner[e] == u)
  {
    if a.UnlockNext? && s.pcs[t].i < |s.files| && s.files[s.pcs[t].i] == Some(e) {
      Stretch(s.files, s.pcs[t].i, s.pcs[t].i, |s.files|, e);
    }
  }

  /** What a thread owns changes with its own steps only. */
  lemma StepOwnedOther(s: State, t: nat, a: Action, u: nat, e: int)
    requires Inv(s) && Step(s, t, a).Some? && u < |s.pcs| && u != t
    ensures var n := Step(s, t, a).value; (e in n.owner && n.owner[e] == u) <==> Owns(n, u, e)
  {
    assert (e in s.owner && s.owner[e] == u) <==> Owns(s, u, e);
    assert (e in s.owner && s.owner[e] == t) <==> Owns(s, t, e);
    OwnsOther(s, t, a, u, e);
    OwnerOther(s, t, a, u, e);
  }

  lemma LockNextOwned(s: State, t: nat, e: int)
    requires Inv(s) && Step(s, t, LockNext).Some?
    ensures var n := Step(s, t, LockNext).value; (e in n.owner && n.owner[e] == t) <==> Owns(n, t, e)
  {
    assert (e in s.owner && s.owner[e] == t) <==> Owns(s, t, e);
    var i := s.pcs[t].i;
    if i < |s.files| {
      Stretch(s.files, 0, i, |s.files|, e);
    }
  }

  lemma UnlockNextOwned(s: State, t: nat, e: int)
    requires Inv(s) && Step(s, t, UnlockNext).Some?
    ensures var n := Step(s, t, UnlockNext).value; (e in n.owner && n.owner[e] == t) <==> Owns(n, t, e)
  {
    assert (e in s.owner && s.owner[e] == t) <==> Owns(s, t, e);
    var i := s.pcs[t].i;
    if i < |s.files| {
      Stretch(s.files, i, i, |s.files|, e);
      if s.files[i] == Some(e) {
        OnlySlot(s, i, e);
      }
    }
  }

  lemma PassOwned(s: State, t: nat, a: Action, e: int)
    requires Inv(s) && Step(s, t, a).Some? && (a.Release? || a.RemoveNext? || a.CloseIt?)
    ensures var n := Step(s, t, a).value; (e in n.owner && n.owner[e] == t) <==> Owns(n, t, e)
  {
    assert (e in s.owner && s.owner[e] == t) <==> Owns(s, t, e);
  }

  predicate UsesMutex(a: Action) {
    a.LockMutex? || a.UnlockMutex? || a.Flush? || a.Flushed? || a.Poll?
  }

  lemma MutexOwned(s: State, t: nat, a: Action, e: int)
    requires Inv(s) && Step(s, t, a).Some? && UsesMutex(a)
    ensures var n := Step(s, t, a).value; (e in n.owner && n.owner[e] == t) <==> Owns(n, t, e)
  {
    assert (e in s.owner && s.owner[e] == t) <==> Owns(s, t, e);
  }

  lemma OtherOwned(s: State, t: nat, a: Action, e: int)
    requires Inv(s) && Step(s, t, a).Some? && !UsesMutex(a)
    requires !(a.LockNext? || a.UnlockNext? || a.Release? || a.RemoveNext? || a.CloseIt?)
    ensures var n := Step(s, t, a).value; (e in n.owner && n.owner[e] == t) <==> Owns(n, t, e)
  {
    assert (e in s.owner && s.owner[e] == t) <==> Owns(s, t, e);
  }

  lemma StepOwnedSelf(s: State, t: nat, a: Action, e: int)
    requires Inv(s) && Step(s, t, a).Some?
    ensures var n := Step(s, t, a).value; (e in n.owner && n.owner[e] == t) <==> Owns(n, t, e)
  {
    if a.LockNext? {
      LockNextOwned(s, t, e);
    } else if a.UnlockNext? {
      UnlockNextOwned(s, t, e);
    } else if a.Release? || a.RemoveNext? || a.CloseIt? {
      PassOwned(s, t, a, e);
    } else if UsesMutex(a) {
      MutexOwned(s, t, a, e);
    } else {
      OtherOwned(s, t, a, e);
    }
  }

  lemma StepOwned(s: State, t: nat, a: Action)
    requires Inv(s) && Step(s, t, a).Some?
    ensures Owned(Step(s, t, a).value)
  {
    var n := Step(s, t, a).value;
    forall u, e | 0 <= u < |n.pcs|
      ensures (e in n.owner && n.owner[e] == u) <==> Owns(n, u, e)
    {
      if u == t {
        StepOwnedSelf(s, t, a, e);
      } else {
        StepOwnedOther(s, t, a, u, e);
      }
    }
  }

  /** What a close has locked is its own. */
  lemma ClearedOwned(s: State, u: nat, k: nat)
    requires Owned(s) && u < |s.pcs| && k < |s.files| && s.files[k].Some?
    requires Cleared(s.pcs[u], k) || s.pcs[u].RemovePass?
    ensures s.files[k].value in s.owner && s.owner[s.files[k].value] == u
  {
    var e := s.files[k].value;
    assert InTable(s.files, From(s.pcs[u]), Upto(s.pcs[u], |s.files|), e);
    assert Owns(s, u, e);
  }

  lemma ClearsBy(s: State, t: nat, a: Action, k: nat)
    requires Step(s, t, a).Some? && Cleared(Step(s, t, a).value.pcs[t], k)
    ensures a.RemoveNext? || a.CloseIt? || a.UnlockNext?
  {
  }

  lemma StepGoneSelf(s: State, t: nat, a: Action, k: nat)
    requires OneSlot(s) && Gone(s) && Step(s, t, a).Some? && k < |s.files|
    requires var n := Step(s, t, a).value; n.files[k].Some? && Cleared(n.pcs[t], k)
    ensures var n := Step(s, t, a).value; n.pcs[t].fd !in Watched(n, n.files[k].value)
  {
    ClearsBy(s, t, a, k);
    assert s.files[k].Some? && Cleared(s.pcs[t], k) ==> s.pcs[t].fd !in Watched(s, s.files[k].value);
  }

  /** While its mutex is locked by a close, nobody else changes what an epoll instance watches. */
  lemma StepGoneOther(s: State, t: nat, a: Action, u: nat, k: nat)
    requires Inv(s) && Step(s, t, a).Some? && u < |s.pcs| && u != t && k < |s.files|
    requires s.files[k].Some? && Cleared(s.pcs[u], k)
    ensures var n := Step(s, t, a).value; n.files == s.files && n.pcs[u].fd !in Watched(n, n.files[k].value)
  {
    var e := s.files[k].value;
    TableFixed(s, t, a, u);
    ClearedOwned(s, u, k);
    assert s.pcs[u].fd !in Watched(s, e);
    assert !Owns(s, t, e);
    assert Apart(s.pcs[u], s.pcs[t]);
  }

  lemma StepGone(s: State, t: nat, a: Action)
    requires Inv(s) && Step(s, t, a).Some?
    ensures Gone(Step(s, t, a).value)
  {
    var n := Step(s, t, a).value;
    forall u, k | 0 <= u < |n.pcs| && 0 <= k < |n.files| && n.files[k].Some? && Cleared(n.pcs[u], k)
      ensures n.pcs[u].fd !in Watched(n, n.files[k].value)
    {
      if u == t {
        StepGoneSelf(s, t, a, k);
      } else {
        TableFixed(s, t, a, u);
        StepGoneOther(s, t, a, u, k);
      }
    }
  }

  lemma StepOwners(s: State, t: nat, a: Action)
    requires Inv(s) && Step(s, t, a).Some?
    ensures var n := Step(s, t, a).value; |n.pcs| == |s.pcs| && forall e :: e in n.owner ==> n.owner[e] < |n.pcs|
  {
  }

  lemma StepInv(s: State, t: nat, a: Action)
    requires Inv(s) && Step(s, t, a).Some?
    ensures Inv(Step(s, t, a).value)
  {
    StepSlots(s, t, a);
    StepLocked(s, t, a);
    StepBlocked(s, t, a);
    StepOwned(s, t, a);
    StepGone(s, t, a);
    StepOwners(s, t, a);
  }

  function Init(slots: nat, threads: nat): State {
    State(seq(slots, _ => None), map[], map[], seq(threads, _ => Idle))
  }

  datatype Event = Event(t: nat, a: Action)

  function Run(s: State, trace: seq<Event>): Option<State>
    decreases |trace|
  {
    if trace == [] then Some(s)
    else match Step(s, trace[0].t, trace[0].a)
         case None => None
         case Some(n) => Run(n, trace[1..])
  }

  lemma {:induction false} RunInv(s: State, trace: seq<Event>)
    requires Inv(s) && Run(s, trace).Some?
    ensures Inv(Run(s, trace).value)
    decreases |trace|
  {
    if trace != [] {
      StepInv(s, trace[0].t, trace[0].a);
      RunInv(Step(s, trace[0].t, trace[0].a).value, trace[1..]);
    }
  }

  /** When a close gets to closing the descriptor, no epoll instance in the table watches it, and all are locked. */
  lemma Forgotten(slots: nat, threads: nat, trace: seq<Event>, t: nat, k: nat)
    requires Run(Init(slots, threads), trace).Some?
    requires var s := Run(Init(slots, threads), trace).value;
      t < |s.pcs| && s.pcs[t].Removed? && k < |s.files| && s.files[k].Some?
    ensures var s := Run(Init(slots, threads), trace).value; var e := s.files[k].value;
      s.pcs[t].fd !in Watched(s, e) && e in s.owner && s.owner[e] == t
  {
    RunInv(Init(slots, threads), trace);
    ClearedOwned(Run(Init(slots, threads), trace).value, t, k);
  }

  /**
   A close owns exactly the instances its first pass has reached, then all of
   the table, then exactly those its third pass has not reached; a thread
   outside calls owns none.
   */
  lemma PassesMatch(s: State, t: nat, e: int)
    requires Inv(s) && t < |s.pcs|
    ensures var owns := e in s.owner && s.owner[e] == t;
      match s.pcs[t]
      case LockPass(_, i) => owns <==> InTable(s.files, 0, i, e)
      case RemovePass(_, _) => owns <==> InTable(s.files, 0, |s.files|, e)
      case Removed(_) => owns <==> InTable(s.files, 0, |s.files|, e)
      case UnlockPass(_, i) => owns <==> InTable(s.files, i, |s.files|, e)
      case Editing(own) => owns <==> e == own
      case Flushing(own) => owns <==> e == own
      case _ => !owns
  {
    assert (e in s.owner && s.owner[e] == t) <==> Owns(s, t, e);
  }

  /** The trace can be run, with thread t in its passes all the while. */
  predicate StaysIn(s: State, trace: seq<Event>, t: nat)
    decreases |trace|
  {
    && t < |s.pcs| && InPasses(s.pcs[t])
    && (trace != [] ==>
          && Step(s, trace[0].t, trace[0].a).Some?
          && StaysIn(Step(s, trace[0].t, trace[0].a).value, trace[1..], t))
  }

  /** From its first lock to its last unlock a close works on one and the same table. */
  lemma {:induction false} PassesTable(s: State, trace: seq<Event>, t: nat)
    requires Inv(s) && StaysIn(s, trace, t)
    ensures Run(s, trace).Some? && Run(s, trace).value.files == s.files
    decreases |trace|
  {
    if trace != [] {
      StepInv(s, trace[0].t, trace[0].a);
      TableFixed(s, trace[0].t, trace[0].a, t);
      PassesTable(Step(s, trace[0].t, trace[0].a).value, trace[1..], t);
    }
  }

  // ---------- How calls go on ----------

  /** Where the next step of a call can lead, if it is not in the passes of a close. */
  lemma CallOrder(s: State, t: nat, a: Action)
    requires Step(s, t, a).Some?
    ensures var q := Step(s, t, a).value.pcs[t];
      match s.pcs[t]
      case Idle =>
        (if a.WantWrite? then q == Queued(a.fd) else if a.WantMutex? then q == AwaitMutex(a.epoll)
         else q.Reading? || q.AwaitRead?)
      case AwaitRead => q.Admitted?
      case Admitted => q.Reading?
      case Reading => q.Idle?
      case Queued(fd) => q == Announced(fd)
      case Announced(fd) => q == Writing(fd)
      case Writing(fd) => q == if a.Put? then Writing(fd) else Releasing(fd, a.Downgrade?)
      case Releasing(fd, keep) => q == if a.Post? then Releasing(fd, keep) else if keep then LockPass(fd, 0) else Idle
      case AwaitMutex(e) => q == Editing(e)
      case Editing(e) => q == Editing(e) || q == Flushing(e) || q == Polling(e) || q.Idle?
      case Flushing(e) => q == Editing(e)
      case Polling(_) => q.Idle?
      case _ => true
  {
  }

  /** Besides its next step a thread may start another call, or change what it has the mutex of, flush, and poll. */
  lemma EditChoices(s: State, t: nat, fd: int, e: int)
    requires t < |s.pcs|
    ensures var pc := s.pcs[t];
      && (pc.Idle? <==> Step(s, t, WantWrite(fd)).Some?) && (pc.Idle? <==> Step(s, t, WantMutex(e)).Some?)
      && (pc.Editing? <==> Step(s, t, Watch(fd)).Some?) && (pc.Editing? <==> Step(s, t, Unwatch(fd)).Some?)
      && (pc.Editing? <==> Step(s, t, Flush).Some?) && (pc.Editing? <==> Step(s, t, Poll).Some?)
  {
  }

  /** With the lock it may change the table and downgrade, after that post tokens; a blocked reader may take one. */
  lemma LockChoices(s: State, t: nat, u: nat)
    requires t < |s.pcs| && u < |s.pcs|
    ensures var pc := s.pcs[t];
      && (pc.Writing? <==> Step(s, t, Downgrade).Some?)
      && (pc.Releasing? && s.pcs[u].AwaitRead? <==> Step(s, t, Post(u)).Some?)
      && (pc.AwaitRead? && s.pcs[u].Admitted? <==> Step(s, t, Steal(u)).Some?)
      && (pc.Writing? && |s.files| > 0 ==> Step(s, t, Put(0, None)).Some?)
  {
  }

  function Left(i: nat, length: nat): nat {
    if i < length then length - i else 0
  }

  /** How many of its next steps a thread is from the end of its call, given the length of the table. */
  function Remaining(pc: Pc, length: nat): nat {
    match pc
    case Idle => 0
    case Reading => 1
    case Admitted => 2
    case AwaitRead => 3
    case Polling(_) => 1
    case Editing(_) => 1
    case Flushing(_) => 2
    case AwaitMutex(_) => 2
    case UnlockPass(_, i) => 1 + Left(i, length)
    case Removed(_) => 2 + length
    case RemovePass(_, i) => 3 + length + Left(i, length)
    case LockPass(_, i) => 4 + 2 * length + Left(i, length)
    case Releasing(_, keep) => if keep then 5 + 3 * length else 1
    case Writing(_) => 2
    case Announced(_) => 3
    case Queued(_) => 4
  }

  lemma PassCounts(s: State, t: nat)
    requires t < |s.pcs| && InPasses(s.pcs[t]) && Step(s, t, Next(s.pcs[t])).Some?
    ensures var n := Step(s, t, Next(s.pcs[t])).value;
      |n.files| == |s.files| && Remaining(n.pcs[t], |s.files|) + 1 == Remaining(s.pcs[t], |s.files|)
  {
  }

  lemma ReleaseCounts(s: State, t: nat)
    requires t < |s.pcs| && s.pcs[t].Releasing?
    ensures var n := Step(s, t, Release).value;
      |n.files| == |s.files| && Remaining(n.pcs[t], |s.files|) + 1 == Remaining(s.pcs[t], |s.files|)
  {
  }

  /** Every next step brings a thread one nearer to the end of its call. */
  lemma NextCounts(s: State, t: nat)
    requires t < |s.pcs| && !s.pcs[t].Idle? && Step(s, t, Next(s.pcs[t])).Some?
    ensures var n := Step(s, t, Next(s.pcs[t])).value;
      |n.files| == |s.files| && Remaining(n.pcs[t], |s.files|) + 1 == Remaining(s.pcs[t], |s.files|)
  {
    if InPasses(s.pcs[t]) {
      PassCounts(s, t);
    } else if s.pcs[t].Releasing? {
      ReleaseCounts(s, t);
    }
  }

  // ---------- What a close does, and nothing else ----------

  /** An epoll instance watches what was registered last, until it is removed there or its descriptor closed. */
  lemma WatchedStep(s: State, t: nat, a: Action, e: int, g: int)
    requires Step(s, t, a).Some?
    ensures var (n, pc) := (Step(s, t, a).value, s.pcs[t]);
      var adds := a == Watch(g) && pc == Editing(e);
      var removes := a == Unwatch(g) && pc == Editing(e);
      var closes := a.RemoveNext? && pc.fd == g && pc.i < |s.files| && s.files[pc.i] == Some(e);
      g in Watched(n, e) <==> adds || (g in Watched(s, e) && !removes && !closes)
  {
  }

  /** The table changes where something is put, and nowhere else. */
  lemma TableStep(s: State, t: nat, a: Action, k: nat)
    requires Step(s, t, a).Some? && k < |s.files|
    ensures var n := Step(s, t, a).value;
      |n.files| == |s.files| && n.files[k] == if a.Put? && a.i == k then a.to else s.files[k]
  {
  }

  /** Thread t has the mutex of the instance in slot k locked, at every state of the run. */
  predicate Keeps(s: State, trace: seq<Event>, t: nat, k: nat)
    decreases |trace|
  {
    && t < |s.pcs| && InPasses(s.pcs[t]) && From(s.pcs[t]) <= k < Upto(s.pcs[t], |s.files|)
    && (trace != [] ==>
          && Step(s, trace[0].t, trace[0].a).Some?
          && Keeps(Step(s, trace[0].t, trace[0].a).value, trace[1..], t, k))
  }

  lemma KeptStep(s: State, t: nat, a: Action, u: nat, k: nat, g: int)
    requires Inv(s) && Step(s, t, a).Some? && u < |s.pcs| && InPasses(s.pcs[u]) && k < |s.files| && s.files[k].Some?
    requires From(s.pcs[u]) <= k < Upto(s.pcs[u], |s.files|)
    requires var n := Step(s, t, a).value; u < |n.pcs| && InPasses(n.pcs[u])
    ensures var n := Step(s, t, a).value; var e := s.files[k].value;
      && n.files == s.files && n.pcs[u].fd == s.pcs[u].fd
      && (Cleared(s.pcs[u], k) && k >= From(n.pcs[u]) ==> Cleared(n.pcs[u], k))
      && (g in Watched(n, e) <==>
            g in Watched(s, e) && !(g == n.pcs[u].fd && Cleared(n.pcs[u], k) && !Cleared(s.pcs[u], k)))
  {
    var e := s.files[k].value;
    TableFixed(s, t, a, u);
    WatchedStep(s, t, a, e, g);
    assert InTable(s.files, From(s.pcs[u]), Upto(s.pcs[u], |s.files|), e);
    assert Owns(s, u, e) && ((e in s.owner && s.owner[e] == u) <==> Owns(s, u, e));
    assert (e in s.owner && s.owner[e] == t) <==> Owns(s, t, e);
    if t != u {
      OtherStays(s, t, a, u);
      assert Apart(s.pcs[u], s.pcs[t]);
    }
  }

  /** While a close has an instance locked, that loses the descriptor being closed, and no other comes or goes. */
  lemma {:induction false} LosesOnly(s: State, trace: seq<Event>, t: nat, k: nat, g: int)
    requires Inv(s) && Keeps(s, trace, t, k) && k < |s.files| && s.files[k].Some?
    ensures Run(s, trace).Some?
    ensures var n := Run(s, trace).value; var e := s.files[k].value;
      && t < |n.pcs| && InPasses(n.pcs[t]) && n.pcs[t].fd == s.pcs[t].fd && n.files == s.files
      && (Cleared(s.pcs[t], k) ==> Cleared(n.pcs[t], k))
      && (g in Watched(n, e) <==>
            g in Watched(s, e) && !(g == s.pcs[t].fd && Cleared(n.pcs[t], k) && !Cleared(s.pcs[t], k)))
    decreases |trace|
  {
    if trace != [] {
      StepInv(s, trace[0].t, trace[0].a);
      KeptStep(s, trace[0].t, trace[0].a, t, k, g);
      LosesOnly(Step(s, trace[0].t, trace[0].a).value, trace[1..], t, k, g);
    }
  }

  /** From its lock to its unlock, each instance keeps what it watched, less the descriptor being closed. */
  lemma ClosedInstance(s: State, trace: seq<Event>, t: nat, k: nat, g: int)
    requires Inv(s) && Keeps(s, trace, t, k) && k < |s.files| && s.files[k].Some? && s.pcs[t].LockPass?
    requires Run(s, trace).Some? && t < |Run(s, trace).value.pcs| && Run(s, trace).value.pcs[t].UnlockPass?
    ensures var n := Run(s, trace).value; var e := s.files[k].value;
      g in Watched(n, e) <==> g in Watched(s, e) && g != s.pcs[t].fd
  {
    LosesOnly(s, trace, t, k, g);
    KeepsEnd(s, trace, t, k);
  }

  lemma {:induction false} KeepsEnd(s: State, trace: seq<Event>, t: nat, k: nat)
    requires Keeps(s, trace, t, k) && Run(s, trace).Some?
    ensures var n := Run(s, trace).value; t < |n.pcs| && From(n.pcs[t]) <= k
    decreases |trace|
  {
    if trace != [] {
      KeepsEnd(Step(s, trace[0].t, trace[0].a).value, trace[1..], t, k);
    }
  }

  /** How far a close has got since its downgrade. */
  function Stage(pc: Pc): nat {
    match pc
    case Releasing(_, keep) => if keep then 1 else 0
    case LockPass(_, _) => 2
    case RemovePass(_, _) => 3
    case Removed(_) => 4
    case UnlockPass(_, _) => 5
    case _ => 0
  }

  /** A close takes its stages one by one, for one and the same descriptor. */
  lemma CloseInOrder(s: State, t: nat, a: Action, u: nat)
    requires Step(s, t, a).Some? && u < |s.pcs|
    ensures var (p, q) := (s.pcs[u], Step(s, t, a).value.pcs[u]);
      && (a == Downgrade && u == t ==> p.Writing? && q == Releasing(p.fd, true))
      && (Stage(p) > 0 ==>
            if u == t then (Stage(q) == Stage(p) || Stage(q) == Stage(p) + 1 || (Stage(p) == 5 && q.Idle?))
            else q == p)
      && (Stage(p) > 0 && Stage(q) > 0 ==> p.fd == q.fd)
      && (Stage(p) == 4 && Stage(q) == 5 ==> a == CloseIt && u == t)
  {
  }

  /** So one that has returned has closed its descriptor on the way, at a moment that Forgotten speaks of. */
  lemma {:induction false} ReturnsClosed(s: State, trace: seq<Event>, t: nat) returns (i: nat)
    requires Run(s, trace).Some? && t < |s.pcs| && 0 < Stage(s.pcs[t]) < 5 && |Run(s, trace).value.pcs| == |s.pcs|
    requires Run(s, trace).value.pcs[t].Idle?
    ensures i < |trace| && trace[i] == Event(t, CloseIt)
    ensures var m := Run(s, trace[..i]);
      m.Some? && t < |m.value.pcs| && m.value.pcs[t] == Removed(s.pcs[t].fd)
    decreases |trace|
  {
    var (u, a) := (trace[0].t, trace[0].a);
    var n := Step(s, u, a).value;
    CloseInOrder(s, u, a, t);
    if u == t && a == CloseIt {
      i := 0;
      assert trace[..0] == [];
    } else {
      i := ReturnsClosed(n, trace[1..], t);
      i := i + 1;
      RunPrefix(s, trace, i);
    }
  }

  lemma RunPrefix(s: State, trace: seq<Event>, i: nat)
    requires 0 < i <= |trace| && Step(s, trace[0].t, trace[0].a).Some?
    ensures Run(s, trace[..i]) == Run(Step(s, trace[0].t, trace[0].a).value, trace[1..][..i - 1])
  {
    assert trace[..i][0] == trace[0] && trace[..i][1..] == trace[1..][..i - 1];
  }

  // ---------- Who waits for whom ----------

  /**
   Thread t cannot go on before thread u has let go of a lock, or left ppoll;
   a blocked reader can only if it takes the token of another one, which then waits in its place.
   */
  predicate WaitsFor(s: State, t: nat, u: nat) {
    && t < |s.pcs| && u < |s.pcs| && t != u
    && var (p, q) := (s.pcs[t], s.pcs[u]);
    match p
    case AwaitRead => OwnsLock(q)
    case Queued(_) => OwnsLock(q)
    case Announced(_) => HoldsRead(q)
    case AwaitMutex(e) => e in s.owner && s.owner[e] == u
    case LockPass(_, i) =>
      i < |s.files| && s.files[i].Some? && s.files[i].value in s.owner && s.owner[s.files[i].value] == u
    case RemovePass(_, i) => i < |s.files| && s.files[i].Some? && q == Polling(s.files[i].value)
    case Flushing(e) => q == Polling(e)
    case _ => false
  }

  /** What a thread does next to get on with its call. */
  function Next(pc: Pc): Action {
    match pc
    case Idle => LockRead
    case AwaitRead => TakeToken
    case Admitted => TakeToken
    case Reading => UnlockRead
    case Queued(_) => Announce
    case Announced(_) => LockWrite
    case Writing(_) => UnlockWrite
    case Releasing(_, _) => Release
    case LockPass(_, _) => LockNext
    case RemovePass(_, _) => RemoveNext(true)
    case Removed(_) => CloseIt
    case UnlockPass(_, _) => UnlockNext
    case AwaitMutex(_) => LockMutex
    case Editing(_) => UnlockMutex
    case Flushing(_) => Flushed
    case Polling(_) => Return
  }

  /**
   These are all the waits there are: a thread is refused its next step
   exactly if it waits for another.
   */
  lemma RefusedWaits(s: State, t: nat)
    requires Inv(s) && t < |s.pcs|
    ensures Step(s, t, Next(s.pcs[t])).None? <==> exists u: nat :: WaitsFor(s, t, u)
  {
    var pc := s.pcs[t];
    match pc
    case AwaitMutex(e) =>
      if e in s.owner {
        OwnerWaited(s, t, e);
        assert WaitsFor(s, t, s.owner[e]);
      }
    case LockPass(_, i) =>
      if i < |s.files| && s.files[i].Some? && s.files[i].value in s.owner {
        OnlySlot(s, i, s.files[i].value);
        OwnerWaited(s, t, s.files[i].value);
        assert WaitsFor(s, t, s.owner[s.files[i].value]);
      }
    case _ => LockWaits(s, t);
  }

  /** The waits for the lock and for ppoll. */
  lemma LockWaits(s: State, t: nat)
    requires Inv(s) && t < |s.pcs| && !s.pcs[t].AwaitMutex? && !s.pcs[t].LockPass?
    ensures Step(s, t, Next(s.pcs[t])).None? <==> exists u: nat :: WaitsFor(s, t, u)
  {
    if u: nat :| u < |s.pcs| && MayStop(s, s.pcs[t], s.pcs[u]) {
      assert WaitsFor(s, t, u);
    } else {
      assert forall u: nat :: !WaitsFor(s, t, u);
    }
  }

  predicate MayStop(s: State, p: Pc, q: Pc) {
    match p
    case AwaitRead => OwnsLock(q)
    case Queued(_) => OwnsLock(q)
    case Announced(_) => HoldsRead(q)
    case RemovePass(_, i) => i < |s.files| && s.files[i].Some? && q == Polling(s.files[i].value)
    case Flushing(e) => q == Polling(e)
    case _ => false
  }

  lemma OwnerWaited(s: State, t: nat, e: int)
    requires Inv(s) && t < |s.pcs| && e in s.owner && !Owns(s, t, e)
    ensures s.owner[e] < |s.pcs| && s.owner[e] != t
  {
    assert (e in s.owner && s.owner[e] == t) <==> Owns(s, t, e);
  }

  /**
   Waiting goes downhill: blocked readers and queued writers wait for the
   writer that has the mutex of the lock, that one for readers with a token,
   readers inside and closes, a close for an editor, a close or an editor for
   who is in ppoll, and that for nobody.
   */
  function Height(pc: Pc): nat {
    match pc
    case AwaitRead => 4
    case Queued(_) => 4
    case Announced(_) => 3
    case AwaitMutex(_) => 3
    case LockPass(_, _) => 2
    case RemovePass(_, _) => 1
    case Flushing(_) => 1
    case _ => 0
  }

  lemma WaitsDown(s: State, t: nat, u: nat)
    requires Inv(s) && WaitsFor(s, t, u)
    ensures Height(s.pcs[u]) < Height(s.pcs[t]) && !s.pcs[u].Idle?
  {
    var p := s.pcs[t];
    if p.LockPass? {
      assert Owns(s, u, s.files[p.i].value) && Apart(p, s.pcs[u]);
    } else if p.AwaitMutex? {
      assert Owns(s, u, p.epoll);
    }
  }

  /** Whenever some thread is in a call, some such thread can take its next step. */
  lemma {:induction false} SomeoneGoesOn(s: State, t: nat) returns (u: nat)
    requires Inv(s) && t < |s.pcs| && !s.pcs[t].Idle?
    ensures u < |s.pcs| && !s.pcs[u].Idle? && Step(s, u, Next(s.pcs[u])).Some?
    decreases if t < |s.pcs| then Height(s.pcs[t]) else 0
  {
    RefusedWaits(s, t);
    if Step(s, t, Next(s.pcs[t])).Some? {
      u := t;
    } else {
      var v: nat :| WaitsFor(s, t, v);
      WaitsDown(s, t, v);
      u := SomeoneGoesOn(s, v);
    }
  }

  /** So no threads wait for each other in a circle: a chain of waiting has at most five threads. */
  lemma NoCircle(s: State, chain: seq<nat>)
    requires Inv(s) && |chain| > 0 && forall k :: 0 <= k < |chain| ==> chain[k] < |s.pcs|
    requires forall k :: 0 <= k < |chain| - 1 ==> WaitsFor(s, chain[k], chain[k + 1])
    ensures |chain| <= 5 && forall j, k :: 0 <= j < k < |chain| ==> chain[j] != chain[k]
  {
    ChainDown(s, chain);
  }

  lemma {:induction false} ChainDown(s: State, chain: seq<nat>)
    requires Inv(s) && |chain| > 0 && forall k :: 0 <= k < |chain| ==> chain[k] < |s.pcs|
    requires forall k :: 0 <= k < |chain| - 1 ==> WaitsFor(s, chain[k], chain[k + 1])
    ensures forall j, k :: 0 <= j < k < |chain| ==> Height(s.pcs[chain[k]]) < Height(s.pcs[chain[j]])
    ensures |chain| <= Height(s.pcs[chain[0]]) + 1
  {
    if |chain| > 1 {
      WaitsDown(s, chain[0], chain[1]);
      var rest := chain[1..];
      forall k | 0 <= k < |rest| - 1
        ensures WaitsFor(s, rest[k], rest[k + 1])
      {
        assert WaitsFor(s, chain[k + 1], chain[k + 2]);
      }
      ChainDown(s, rest);
      forall j, k | 0 <= j < k < |chain|
        ensures Height(s.pcs[chain[k]]) < Height(s.pcs[chain[j]])
      {
        assert chain[k] == rest[k - 1];
        if j > 0 {
          assert chain[j] == rest[j - 1];
        }
      }
    }
  }
}
