/**
 One pass of epollfd_ctx_wait (src/epollfd_ctx.c) as a function: what becomes
 of every registration through a batch of kevents, completion and the report.
 The kernel decides what a batch holds; what is required of it is that it
 delivers every registered or triggered filter at most once.
 */
module EpollPass {
  import opened EpollNode

  type Nodes = map<int, Node>

  /** The self trigger of the epoll instance: a kevent without a node. */
  const SELF := -1

  /** A kevent, and what the calls made while it is handled return. */
  datatype Delivery = Delivery(fd: int, kev: Kev, world: World, verdict: Verdict)

  datatype Entry = Entry(events: Mask, data: int)

  /** The entry is for this registration, and says no more than it asked for, EPOLLHUP and EPOLLERR. */
  predicate Answers(e: Entry, c: Config) {
    e.data == c.data && Within(e.events, Allowed(c))
  }

  predicate Distinct(batch: seq<Delivery>) {
    forall x, y :: 0 <= x < y < |batch| ==> batch[x].fd != batch[y].fd || batch[x].kev.filter != batch[y].kev.filter
  }

  /** What a kevent call may return while the nodes are as given. */
  predicate Delivered(nodes: Nodes, batch: seq<Delivery>) {
    && Distinct(batch)
    && forall x :: 0 <= x < |batch| ==>
         var d := batch[x];
         if d.fd == SELF then d.kev.filter.User?
         else
           d.fd in nodes && Possible(nodes[d.fd].hooks, d.kev)
           && Plausible(nodes[d.fd].cfg, d.kev, d.world, d.verdict)
  }

  /** Nothing is left to report, as it is between two calls. */
  predicate Rests(n: Node) {
    n.result.revents == NONE && !n.result.gotWrite && (n.result.gotRead ==> n.cfg.kind.Kqueue?)
  }

  ghost predicate Ready(nodes: Nodes) {
    forall fd :: fd in nodes ==> fd >= 0 && nodes[fd].cfg.fd == fd && Fit(nodes[fd]) && Rests(nodes[fd])
  }

  // ---------- The first loop, seen from one node ----------

  function Turn(n: Node, d: Delivery): Node {
    Process(n, d.kev, d.world, d.verdict)
  }

  /** Node n of descriptor fd after the first i kevents of a batch. */
  function After(n: Node, fd: int, batch: seq<Delivery>, i: nat): Node
    requires i <= |batch|
  {
    if i == 0 then n
    else
      var m := After(n, fd, batch, i - 1);
      if batch[i - 1].fd == fd then Turn(m, batch[i - 1]) else m
  }

  predicate IsNews(n: Node, m: Node) {
    m.result.revents != NONE && n.result.revents == NONE
  }

  /** One of these kevents gave the node something to report. */
  predicate Told(n: Node, fd: int, batch: seq<Delivery>, i: nat)
    requires i <= |batch|
  {
    i > 0 && (Told(n, fd, batch, i - 1) || IsNews(After(n, fd, batch, i - 1), After(n, fd, batch, i)))
  }

  predicate Untouched(batch: seq<Delivery>, i: nat, fd: int)
    requires i <= |batch|
  {
    forall x :: 0 <= x < i ==> batch[x].fd != fd
  }

  /** What a batch has for a node is possible and plausible. */
  ghost predicate Offered(n: Node, fd: int, batch: seq<Delivery>) {
    && Distinct(batch)
    && forall x :: 0 <= x < |batch| && batch[x].fd == fd ==>
         Possible(n.hooks, batch[x].kev) && Plausible(n.cfg, batch[x].kev, batch[x].world, batch[x].verdict)
  }

  ghost predicate DistinctInts(s: seq<int>) {
    forall x, y :: 0 <= x < y < |s| ==> s[x] != s[y]
  }

  lemma {:induction false} AfterUntouched(n: Node, fd: int, batch: seq<Delivery>, i: nat)
    requires i <= |batch| && Untouched(batch, i, fd)
    ensures After(n, fd, batch, i) == n && !Told(n, fd, batch, i)
  {
    if i > 0 {
      AfterUntouched(n, fd, batch, i - 1);
    }
  }

  /** The kernel has at most two events for a node: read and write, or its own trigger. */
  lemma AtMostTwo(n: Node, fd: int, batch: seq<Delivery>, x: nat, y: nat, z: nat)
    requires Fit(n) && Offered(n, fd, batch) && x < y < z < |batch| && batch[x].fd == batch[y].fd == fd
    ensures batch[z].fd != fd
  {
    assert Possible(n.hooks, batch[x].kev) && Possible(n.hooks, batch[y].kev);
    assert batch[z].fd == fd ==> Possible(n.hooks, batch[z].kev);
  }

  /** The first events have been digested; the node is in the list exactly if one of them was news. */
  predicate Midway(n0: Node, n: Node, told: bool) {
    n.cfg == n0.cfg && Fit(n) && Modest(n) && (!told ==> Rests(n))
  }

  /** When its turn comes, an event finds its node as feed_event asserts. */
  lemma TurnDigestible(n: Node, fd: int, batch: seq<Delivery>, i: nat)
    requires Fit(n) && Rests(n) && Offered(n, fd, batch) && i < |batch| && batch[i].fd == fd
    requires After(n, fd, batch, i).cfg == n.cfg
    ensures Digestible(After(n, fd, batch, i), batch[i].kev)
  {
    assert Possible(n.hooks, batch[i].kev);
    if batch[i].kev.filter.User? {
      forall x | 0 <= x < i
        ensures batch[x].fd != fd
      {
        assert batch[x].fd == fd ==> Possible(n.hooks, batch[x].kev);
      }
      AfterUntouched(n, fd, batch, i);
    }
  }

  /** Feeding marks a node as received from only where it also leaves something to report. */
  lemma FeedRests(n: Node, k: Kev, w: World)
    requires Rests(n) && Digestible(n, k)
    ensures Feed(n, k, w).result.revents == NONE ==> Rests(Feed(n, k, w))
  {
  }

  lemma TurnMidway(n0: Node, n: Node, d: Delivery, told: bool)
    requires Midway(n0, n, told) && Digestible(n, d.kev) && Plausible(n.cfg, d.kev, d.world, d.verdict)
    ensures FeedAsserts(n, d.kev, d.world)
    ensures Midway(n0, Turn(n, d), told || IsNews(n, Turn(n, d)))
  {
    ProcessFit(n, d.kev, d.world, d.verdict);
    FeedModest(n, d.kev, d.world, d.verdict);
    if !told {
      FeedRests(n, d.kev, d.world);
      RestsFrame(Feed(n, d.kev, d.world), Turn(n, d));
    }
  }

  lemma RestsFrame(n: Node, m: Node)
    requires n.cfg == m.cfg && n.result == m.result
    ensures Rests(n) <==> Rests(m)
  {
  }

  lemma RestsModest(n: Node)
    requires n.result.revents == NONE
    ensures Modest(n)
  {
  }

  /** Whatever the events before did, each event of a batch is digested as feed_event asserts. */
  lemma {:induction false} AfterMidway(n: Node, fd: int, batch: seq<Delivery>, i: nat)
    requires Fit(n) && Rests(n) && Offered(n, fd, batch) && i <= |batch|
    ensures Midway(n, After(n, fd, batch, i), Told(n, fd, batch, i))
    ensures i < |batch| && batch[i].fd == fd ==>
      var m := After(n, fd, batch, i); Digestible(m, batch[i].kev) && FeedAsserts(m, batch[i].kev, batch[i].world)
  {
    RestsModest(n);
    if i > 0 {
      AfterMidway(n, fd, batch, i - 1);
      var m := After(n, fd, batch, i - 1);
      if batch[i - 1].fd == fd {
        TurnMidway(n, m, batch[i - 1], Told(n, fd, batch, i - 1));
      }
    }
    if i < |batch| && batch[i].fd == fd {
      TurnDigestible(n, fd, batch, i);
      FeedFit(After(n, fd, batch, i), batch[i].kev, batch[i].world);
    }
  }

  lemma {:induction false} ToldTouched(n: Node, fd: int, batch: seq<Delivery>, i: nat) returns (x: nat)
    requires i <= |batch| && Told(n, fd, batch, i)
    ensures x < i && batch[x].fd == fd
  {
    if Told(n, fd, batch, i - 1) {
      x := ToldTouched(n, fd, batch, i - 1);
    } else {
      x := i - 1;
    }
  }

  /** A node in the list that an event is still to come for has something to report. */
  lemma {:induction false} NewsStays(n: Node, fd: int, batch: seq<Delivery>, i: nat, x: nat)
    requires Fit(n) && Offered(n, fd, batch) && i <= x < |batch| && batch[x].fd == fd && Told(n, fd, batch, i)
    ensures After(n, fd, batch, i).result.revents != NONE
  {
    if Told(n, fd, batch, i - 1) {
      if batch[i - 1].fd == fd {
        var y := ToldTouched(n, fd, batch, i - 1);
        AtMostTwo(n, fd, batch, y, i - 1, x);
      }
      NewsStays(n, fd, batch, i - 1, x);
    }
  }

  /** So a node is news at most once. */
  lemma NewsOnce(n: Node, fd: int, batch: seq<Delivery>, i: nat)
    requires Fit(n) && Offered(n, fd, batch) && i < |batch| && Told(n, fd, batch, i)
    ensures !IsNews(After(n, fd, batch, i), After(n, fd, batch, i + 1))
  {
    if batch[i].fd == fd {
      NewsStays(n, fd, batch, i, i);
    }
  }

  // ---------- Completion, seen from one node ----------

  /** Node n after the first i events of the completion kqueue. */
  function AfterLate(n: Node, fd: int, late: seq<Delivery>, i: nat): Node
    requires i <= |late|
  {
    if i == 0 then n
    else
      var m := AfterLate(n, fd, late, i - 1);
      if late[i - 1].fd == fd then Feed(m, late[i - 1].kev, late[i - 1].world) else m
  }

  /** It has only filters of the node that no event came from yet. */
  ghost predicate Asked(n: Node, fd: int, late: seq<Delivery>) {
    && Distinct(late)
    && forall x :: 0 <= x < |late| && late[x].fd == fd ==>
         Pending(n, late[x].kev) && (n.cfg.kind.Kqueue? ==> !late[x].kev.eof)
  }

  lemma PendingDigestible(n1: Node, n: Node, k: Kev)
    requires Fit(n1) && Completing(n1, n) && Pending(n1, k)
    ensures Digestible(n, k) && !k.filter.User?
  {
  }

  /** Completion re-registers nothing, and its events are digested as feed_event asserts. */
  lemma {:induction false} LateFit(n: Node, fd: int, late: seq<Delivery>, i: nat)
    requires Fit(n) && Modest(n) && Asked(n, fd, late) && i <= |late|
    ensures var m := AfterLate(n, fd, late, i); Completing(n, m) && Modest(m)
    ensures i < |late| && late[i].fd == fd ==>
      var m := AfterLate(n, fd, late, i); Digestible(m, late[i].kev) && FeedAsserts(m, late[i].kev, late[i].world)
  {
    if i > 0 {
      LateFit(n, fd, late, i - 1);
      var m := AfterLate(n, fd, late, i - 1);
      if late[i - 1].fd == fd {
        FeedFit(m, late[i - 1].kev, late[i - 1].world);
        FedHooks(m, late[i - 1].kev, late[i - 1].world);
        FeedModest(m, late[i - 1].kev, late[i - 1].world, late[i - 1].verdict);
      }
    }
    if i < |late| && late[i].fd == fd {
      PendingDigestible(n, AfterLate(n, fd, late, i), late[i].kev);
      FeedFit(AfterLate(n, fd, late, i), late[i].kev, late[i].world);
    }
  }

  lemma FedHooks(n: Node, k: Kev, w: World)
    requires !n.cfg.kind.Poll? && !k.filter.User?
    ensures Feed(n, k, w).hooks == n.hooks && Feed(n, k, w).cfg == n.cfg
  {
  }

  lemma {:induction false} LateUntouched(n: Node, fd: int, late: seq<Delivery>, i: nat)
    requires i <= |late| && Untouched(late, i, fd)
    ensures AfterLate(n, fd, late, i) == n
  {
    if i > 0 {
      LateUntouched(n, fd, late, i - 1);
    }
  }

  // ---------- Nothing is lost ----------

  /** The kernel takes no end of file of a socket back in the events from i on. */
  ghost predicate Steady(n: Node, fd: int, batch: seq<Delivery>, i: nat) {
    n.cfg.kind.Socket? ==> forall x :: i <= x < |batch| && batch[x].fd == fd ==> Sticky(n.seen, batch[x].kev)
  }

  lemma TurnSeen(n: Node, d: Delivery)
    requires Valid(n.cfg) && n.cfg.kind.Socket? && !d.kev.filter.User?
    ensures Turn(n, d).seen == Feed(n, d.kev, d.world).seen
  {
  }

  lemma FeedSteady(n: Node, fd: int, batch: seq<Delivery>, i: nat, m: Node)
    requires Distinct(batch) && i < |batch| && batch[i].fd == fd && Steady(n, fd, batch, i) && !n.cfg.kind.Poll?
    requires !batch[i].kev.filter.User? && m.cfg == n.cfg
    requires n.cfg.kind.Socket? ==> m.seen == Feed(n, batch[i].kev, batch[i].world).seen
    ensures Steady(m, fd, batch, i + 1)
  {
  }

  lemma {:induction false} AfterSteady(n: Node, fd: int, batch: seq<Delivery>, i: nat)
    requires Fit(n) && Rests(n) && Offered(n, fd, batch) && i <= |batch|
    requires n.cfg.kind.Socket? && Steady(n, fd, batch, 0)
    ensures Steady(After(n, fd, batch, i), fd, batch, i) && LinuxFits(After(n, fd, batch, i))
  {
    if i > 0 {
      AfterSteady(n, fd, batch, i - 1);
      var (m, d) := (After(n, fd, batch, i - 1), batch[i - 1]);
      AfterMidway(n, fd, batch, i - 1);
      if d.fd == fd {
        assert Possible(n.hooks, d.kev);
        TurnSeen(m, d);
        FeedSteady(m, fd, batch, i - 1, Turn(m, d));
        FeedKeeps(m, d.kev, d.world);
        ProcessFit(m, d.kev, d.world, d.verdict);
      }
    }
  }

  /** What was collected stays collected through the batch. */
  lemma {:induction false} AfterKeeps(n: Node, fd: int, batch: seq<Delivery>, x: nat, i: nat)
    requires Fit(n) && Rests(n) && Offered(n, fd, batch) && x <= i <= |batch|
    requires !n.cfg.kind.Kqueue? && Steady(n, fd, batch, 0)
    ensures Within(After(n, fd, batch, x).result.revents, After(n, fd, batch, i).result.revents)
  {
    if i > x {
      AfterKeeps(n, fd, batch, x, i - 1);
      if batch[i - 1].fd == fd {
        TurnKeeps(n, fd, batch, i - 1);
      }
    }
  }

  lemma TurnKeeps(n: Node, fd: int, batch: seq<Delivery>, i: nat)
    requires Fit(n) && Rests(n) && Offered(n, fd, batch) && i < |batch| && batch[i].fd == fd
    requires !n.cfg.kind.Kqueue? && Steady(n, fd, batch, 0)
    ensures Within(After(n, fd, batch, i).result.revents, After(n, fd, batch, i + 1).result.revents)
  {
    var (m, d) := (After(n, fd, batch, i), batch[i]);
    AfterMidway(n, fd, batch, i);
    if n.cfg.kind.Socket? {
      AfterSteady(n, fd, batch, i);
    } else {
      NoLinux(m);
    }
    FeedKeeps(m, d.kev, d.world);
    ProcessFit(m, d.kev, d.world, d.verdict);
  }

  /** EPOLLRDHUP in either spelling is for sockets. */
  lemma NoLinux(n: Node)
    requires Valid(n.cfg) && Modest(n) && !n.cfg.kind.Socket?
    ensures LinuxFits(n)
  {
    assert !n.result.revents.linux;
  }

  /** What an event of the batch says is collected, and the node listed if that is anything. */
  lemma AfterTold(n: Node, fd: int, batch: seq<Delivery>, x: nat)
    requires Fit(n) && Rests(n) && Offered(n, fd, batch) && x < |batch| && batch[x].fd == fd
    ensures var said := Tells(After(n, fd, batch, x), batch[x].kev, batch[x].world);
      && Within(said, After(n, fd, batch, x + 1).result.revents)
      && (said != NONE ==> Told(n, fd, batch, x + 1))
  {
    var (m, d) := (After(n, fd, batch, x), batch[x]);
    AfterMidway(n, fd, batch, x);
    TellsCollected(m, d.kev, d.world);
    ProcessFit(m, d.kev, d.world, d.verdict);
  }

  lemma {:induction false} ToldLater(n: Node, fd: int, batch: seq<Delivery>, x: nat, i: nat)
    requires x <= i <= |batch| && Told(n, fd, batch, x)
    ensures Told(n, fd, batch, i)
  {
    if x < i {
      ToldLater(n, fd, batch, x, i - 1);
    }
  }

  lemma {:induction false} LateSteady(n: Node, fd: int, late: seq<Delivery>, i: nat)
    requires Fit(n) && Modest(n) && Asked(n, fd, late) && i <= |late|
    requires n.cfg.kind.Socket? && Steady(n, fd, late, 0) && LinuxFits(n)
    ensures Steady(AfterLate(n, fd, late, i), fd, late, i) && LinuxFits(AfterLate(n, fd, late, i))
  {
    if i > 0 {
      LateSteady(n, fd, late, i - 1);
      LateFit(n, fd, late, i - 1);
      var (m, d) := (AfterLate(n, fd, late, i - 1), late[i - 1]);
      if d.fd == fd {
        PendingDigestible(n, m, d.kev);
        FedHooks(m, d.kev, d.world);
        FeedSteady(m, fd, late, i - 1, Feed(m, d.kev, d.world));
        FeedKeeps(m, d.kev, d.world);
      }
    }
  }

  lemma LateTurnKeeps(n: Node, fd: int, late: seq<Delivery>, i: nat)
    requires Fit(n) && Modest(n) && Asked(n, fd, late) && i < |late| && late[i].fd == fd && LinuxFits(n)
    requires !n.cfg.kind.Kqueue? && Steady(n, fd, late, 0)
    ensures Within(AfterLate(n, fd, late, i).result.revents, AfterLate(n, fd, late, i + 1).result.revents)
  {
    var (m, d) := (AfterLate(n, fd, late, i), late[i]);
    LateFit(n, fd, late, i);
    if n.cfg.kind.Socket? {
      LateSteady(n, fd, late, i);
    } else {
      NoLinux(m);
    }
    FeedKeeps(m, d.kev, d.world);
  }

  lemma {:induction false} LateKeeps(n: Node, fd: int, late: seq<Delivery>, x: nat, i: nat)
    requires Fit(n) && Modest(n) && Asked(n, fd, late) && x <= i <= |late| && LinuxFits(n)
    requires !n.cfg.kind.Kqueue? && Steady(n, fd, late, 0)
    ensures Within(AfterLate(n, fd, late, x).result.revents, AfterLate(n, fd, late, i).result.revents)
  {
    if i > x {
      LateKeeps(n, fd, late, x, i - 1);
      if late[i - 1].fd == fd {
        LateTurnKeeps(n, fd, late, i - 1);
      }
    }
  }

  /** The two halves of a pass from one node's view: through the batch, and through completion if it is listed. */
  ghost predicate InPass(n: Node, fd: int, batch: seq<Delivery>, late: seq<Delivery>) {
    && Fit(n) && Rests(n) && Offered(n, fd, batch)
    && Asked(Mid(n, fd, batch), fd, late)
    && (!Told(n, fd, batch, |batch|) ==> Untouched(late, |late|, fd))
  }

  /** The node when the batch has been digested. */
  function Mid(n: Node, fd: int, batch: seq<Delivery>): Node {
    After(n, fd, batch, |batch|)
  }

  /** The node when it is reported. */
  function Last(n: Node, fd: int, batch: seq<Delivery>, late: seq<Delivery>): Node {
    AfterLate(Mid(n, fd, batch), fd, late, |late|)
  }

  /** No end of file of a socket is taken back, neither by the batch nor by completion. */
  ghost predicate SteadyPass(n: Node, fd: int, batch: seq<Delivery>, late: seq<Delivery>) {
    Steady(n, fd, batch, 0) && Steady(Mid(n, fd, batch), fd, late, 0)
  }

  lemma MidLinux(n: Node, fd: int, batch: seq<Delivery>)
    requires Fit(n) && Rests(n) && Offered(n, fd, batch) && Steady(n, fd, batch, 0)
    ensures LinuxFits(Mid(n, fd, batch))
  {
    AfterMidway(n, fd, batch, |batch|);
    if n.cfg.kind.Socket? {
      AfterSteady(n, fd, batch, |batch|);
    } else {
      NoLinux(Mid(n, fd, batch));
    }
  }

  /** Delivery: what an event of the batch says is reported. */
  lemma NodeDelivered(n: Node, fd: int, batch: seq<Delivery>, late: seq<Delivery>, x: nat)
    requires InPass(n, fd, batch, late) && SteadyPass(n, fd, batch, late) && !n.cfg.kind.Kqueue?
    requires x < |batch| && batch[x].fd == fd
    ensures var said := Tells(After(n, fd, batch, x), batch[x].kev, batch[x].world);
      && Within(said, Last(n, fd, batch, late).result.revents)
      && (said != NONE ==> Told(n, fd, batch, |batch|))
  {
    AfterTold(n, fd, batch, x);
    AfterKeeps(n, fd, batch, x + 1, |batch|);
    AfterMidway(n, fd, batch, |batch|);
    MidLinux(n, fd, batch);
    LateKeeps(Mid(n, fd, batch), fd, late, 0, |late|);
    if Told(n, fd, batch, x + 1) {
      ToldLater(n, fd, batch, x + 1, |batch|);
    }
  }

  /** ... and so is what completion adds. */
  lemma NodeCompleted(n: Node, fd: int, batch: seq<Delivery>, late: seq<Delivery>, x: nat)
    requires InPass(n, fd, batch, late) && SteadyPass(n, fd, batch, late) && !n.cfg.kind.Kqueue?
    requires x < |late| && late[x].fd == fd
    ensures Within(Tells(AfterLate(Mid(n, fd, batch), fd, late, x), late[x].kev, late[x].world),
              Last(n, fd, batch, late).result.revents)
    ensures Told(n, fd, batch, |batch|)
  {
    var n1 := Mid(n, fd, batch);
    AfterMidway(n, fd, batch, |batch|);
    MidLinux(n, fd, batch);
    LateFit(n1, fd, late, x);
    TellsCollected(AfterLate(n1, fd, late, x), late[x].kev, late[x].world);
    LateKeeps(n1, fd, late, x + 1, |late|);
  }

  /** A listed node has something to report. */
  lemma {:induction false} ToldKept(n: Node, fd: int, batch: seq<Delivery>, i: nat)
    requires Fit(n) && Rests(n) && Offered(n, fd, batch) && i <= |batch| && Told(n, fd, batch, i)
    requires !n.cfg.kind.Kqueue? && Steady(n, fd, batch, 0)
    ensures After(n, fd, batch, i).result.revents != NONE
  {
    if Told(n, fd, batch, i - 1) {
      ToldKept(n, fd, batch, i - 1);
      AfterKeeps(n, fd, batch, i - 1, i);
    }
  }

  lemma NodeNotEmpty(n: Node, fd: int, batch: seq<Delivery>, late: seq<Delivery>)
    requires InPass(n, fd, batch, late) && SteadyPass(n, fd, batch, late) && !n.cfg.kind.Kqueue?
    requires Told(n, fd, batch, |batch|)
    ensures Last(n, fd, batch, late).result.revents != NONE
  {
    ToldKept(n, fd, batch, |batch|);
    AfterMidway(n, fd, batch, |batch|);
    MidLinux(n, fd, batch);
    LateKeeps(Mid(n, fd, batch), fd, late, 0, |late|);
  }

  // ---------- Hangup of sockets ----------

  /** A hangup that is new to this wait is going to be reported. */
  predicate Reports(n0: Node, n: Node) {
    Hup(n.seen) && !Hup(n0.seen) ==> n.result.revents.hup
  }

  lemma {:induction false} AfterReports(n: Node, fd: int, batch: seq<Delivery>, i: nat)
    requires Fit(n) && Rests(n) && Offered(n, fd, batch) && i <= |batch| && n.cfg.kind.Socket?
    ensures Reports(n, After(n, fd, batch, i))
  {
    if i > 0 {
      AfterReports(n, fd, batch, i - 1);
      var (m, d) := (After(n, fd, batch, i - 1), batch[i - 1]);
      AfterMidway(n, fd, batch, i - 1);
      if d.fd == fd {
        assert Possible(n.hooks, d.kev);
        HupReported(m, d.kev, d.world);
        TurnSeen(m, d);
        ProcessFit(m, d.kev, d.world, d.verdict);
      }
    }
  }

  lemma {:induction false} LateReports(n0: Node, n: Node, fd: int, late: seq<Delivery>, i: nat)
    requires Fit(n) && Modest(n) && Asked(n, fd, late) && i <= |late| && n.cfg.kind.Socket? && Reports(n0, n)
    ensures Reports(n0, AfterLate(n, fd, late, i))
  {
    if i > 0 {
      LateReports(n0, n, fd, late, i - 1);
      var (m, d) := (AfterLate(n, fd, late, i - 1), late[i - 1]);
      LateFit(n, fd, late, i - 1);
      if d.fd == fd {
        PendingDigestible(n, m, d.kev);
        HupReported(m, d.kev, d.world);
      }
    }
  }

  /** Whatever the kernel does, the node of a socket that has newly hung up is listed and reports EPOLLHUP. */
  lemma NodeHangup(n: Node, fd: int, batch: seq<Delivery>, late: seq<Delivery>)
    requires InPass(n, fd, batch, late) && n.cfg.kind.Socket?
    requires Hup(Last(n, fd, batch, late).seen) && !Hup(n.seen)
    ensures Told(n, fd, batch, |batch|) && Last(n, fd, batch, late).result.revents.hup
  {
    AfterReports(n, fd, batch, |batch|);
    AfterMidway(n, fd, batch, |batch|);
    LateReports(n, Mid(n, fd, batch), fd, late, |late|);
    if !Told(n, fd, batch, |batch|) {
      LateUntouched(Mid(n, fd, batch), fd, late, |late|);
    }
  }

  /** The half of a socket that a filter speaks for has ended. */
  predicate Ended(s: Seen, f: Filter) {
    (f.Read? && s.readEof) || (f.Write? && s.writeEof)
  }

  /** There is an event of that filter with EV_EOF. */
  predicate Ends(fd: int, batch: seq<Delivery>, f: Filter, i: nat)
    requires i <= |batch|
  {
    exists x :: 0 <= x < i && batch[x].fd == fd && batch[x].kev.filter == f && batch[x].kev.eof
  }

  lemma FeedEnds(n: Node, k: Kev, w: World, f: Filter)
    requires n.cfg.kind.Socket? && !k.filter.User? && !f.User? && Sticky(n.seen, k)
    ensures Ended(n.seen, f) || (k.filter == f && k.eof) ==> Ended(Feed(n, k, w).seen, f)
  {
  }

  lemma {:induction false} AfterEnds(n: Node, fd: int, batch: seq<Delivery>, f: Filter, i: nat)
    requires Fit(n) && Rests(n) && Offered(n, fd, batch) && i <= |batch| && !f.User?
    requires n.cfg.kind.Socket? && Steady(n, fd, batch, 0) && (Ended(n.seen, f) || Ends(fd, batch, f, i))
    ensures Ended(After(n, fd, batch, i).seen, f)
  {
    if i > 0 {
      var (m, d) := (After(n, fd, batch, i - 1), batch[i - 1]);
      if Ended(n.seen, f) || Ends(fd, batch, f, i - 1) {
        AfterEnds(n, fd, batch, f, i - 1);
      }
      if d.fd == fd {
        AfterSteady(n, fd, batch, i - 1);
        AfterMidway(n, fd, batch, i - 1);
        assert Possible(n.hooks, d.kev);
        TurnSeen(m, d);
        FeedEnds(m, d.kev, d.world, f);
      }
    }
  }

  lemma {:induction false} LateEnds(n: Node, fd: int, late: seq<Delivery>, f: Filter, i: nat)
    requires Fit(n) && Modest(n) && Asked(n, fd, late) && i <= |late| && !f.User? && LinuxFits(n)
    requires n.cfg.kind.Socket? && Steady(n, fd, late, 0) && (Ended(n.seen, f) || Ends(fd, late, f, i))
    ensures Ended(AfterLate(n, fd, late, i).seen, f)
  {
    if i > 0 {
      var (m, d) := (AfterLate(n, fd, late, i - 1), late[i - 1]);
      if Ended(n.seen, f) || Ends(fd, late, f, i - 1) {
        LateEnds(n, fd, late, f, i - 1);
      }
      if d.fd == fd {
        LateSteady(n, fd, late, i - 1);
        LateFit(n, fd, late, i - 1);
        PendingDigestible(n, m, d.kev);
        FeedEnds(m, d.kev, d.world, f);
      }
    }
  }

  /** A half has ended, or an event with EV_EOF says so now. */
  predicate EndsIn(n: Node, fd: int, batch: seq<Delivery>, late: seq<Delivery>, f: Filter) {
    Ended(n.seen, f) || Ends(fd, batch, f, |batch|) || Ends(fd, late, f, |late|)
  }

  lemma LastEnds(n: Node, fd: int, batch: seq<Delivery>, late: seq<Delivery>, f: Filter)
    requires InPass(n, fd, batch, late) && SteadyPass(n, fd, batch, late) && n.cfg.kind.Socket? && !f.User?
    requires EndsIn(n, fd, batch, late, f)
    ensures Ended(Last(n, fd, batch, late).seen, f)
  {
    AfterMidway(n, fd, batch, |batch|);
    MidLinux(n, fd, batch);
    if Ended(n.seen, f) || Ends(fd, batch, f, |batch|) {
      AfterEnds(n, fd, batch, f, |batch|);
    }
    LateEnds(Mid(n, fd, batch), fd, late, f, |late|);
  }

  /** The EV_EOF events that complete the hangup of a socket lead to EPOLLHUP. */
  lemma NodeEnds(n: Node, fd: int, batch: seq<Delivery>, late: seq<Delivery>)
    requires InPass(n, fd, batch, late) && SteadyPass(n, fd, batch, late) && n.cfg.kind.Socket? && !Hup(n.seen)
    requires EndsIn(n, fd, batch, late, Read) && EndsIn(n, fd, batch, late, Write)
    ensures Told(n, fd, batch, |batch|) && Last(n, fd, batch, late).result.revents.hup
  {
    LastEnds(n, fd, batch, late, Read);
    LastEnds(n, fd, batch, late, Write);
    NodeHangup(n, fd, batch, late);
  }

  // ---------- No hangup escapes ----------

  /** The kernel registers the filters of a socket. */
  ghost predicate Accepting(n: Node, fd: int, batch: seq<Delivery>) {
    n.cfg.kind.Socket? ==> forall x :: 0 <= x < |batch| && batch[x].fd == fd ==> Accepted(batch[x].verdict)
  }

  predicate Got(n: Node) {
    n.result.gotRead || n.result.gotWrite
  }

  predicate OnWatch(n: Node, told: bool) {
    Watched(n) && GotFits(n) && (told ==> Got(n))
  }

  /** A node without filters gets no event; one with filters keeps some. */
  lemma {:induction false} AfterArmed(n: Node, fd: int, batch: seq<Delivery>, i: nat)
    requires Fit(n) && Rests(n) && Offered(n, fd, batch) && i <= |batch|
    requires n.cfg.kind.Socket? && Watched(n) && Steady(n, fd, batch, 0) && Accepting(n, fd, batch)
    ensures Armed(n.hooks) ==> Armed(After(n, fd, batch, i).hooks)
  {
    if i > 0 {
      AfterArmed(n, fd, batch, i - 1);
      if batch[i - 1].fd == fd && Armed(n.hooks) {
        AfterMidway(n, fd, batch, i - 1);
        AfterExpected(n, fd, batch, i - 1, i - 1);
        TurnArmed(After(n, fd, batch, i - 1), batch[i - 1]);
      }
    }
  }

  lemma TurnArmed(n: Node, d: Delivery)
    requires Fit(n) && n.cfg.kind.Socket? && Watched(n) && Expected(n, d.kev) && Accepted(d.verdict)
    ensures Armed(Turn(n, d).hooks)
  {
    ProcessWatched(n, d.kev, d.world, d.verdict);
  }

  /** An event still to come for the node of a socket. */
  predicate Expected(n: Node, k: Kev) {
    !k.filter.User? && Armed(n.hooks) && (!Eof(n.seen) ==> Possible(n.hooks, k)) && Sticky(n.seen, k)
  }

  lemma TurnOnWatch(n: Node, d: Delivery, told: bool)
    requires Fit(n) && n.cfg.kind.Socket? && OnWatch(n, told) && Expected(n, d.kev) && Accepted(d.verdict)
    ensures OnWatch(Turn(n, d), told || IsNews(n, Turn(n, d)))
  {
    ProcessWatched(n, d.kev, d.world, d.verdict);
    ProcessGot(n, d.kev, d.world, d.verdict);
    TurnKeepsGot(n, d);
  }

  lemma TurnKeepsGot(n: Node, d: Delivery)
    requires Fit(n) && n.cfg.kind.Socket? && !d.kev.filter.User?
    ensures var m := Turn(n, d);
      m.cfg == n.cfg && m.result == Feed(n, d.kev, d.world).result && (Got(n) || IsNews(n, m) ==> Got(m))
  {
    RegisteredFit(Feed(n, d.kev, d.world), d.verdict);
  }

  lemma TurnExpected(n: Node, d: Delivery, k: Kev)
    requires Fit(n) && Watched(n) && n.cfg.kind.Socket? && Expected(n, d.kev) && Expected(n, k)
    requires k.filter != d.kev.filter && Accepted(d.verdict)
    ensures Expected(Turn(n, d), k)
  {
    var m := Feed(n, d.kev, d.world);
    ProcessWatched(n, d.kev, d.world, d.verdict);
    RegisteredFit(m, d.verdict);
    SomeFilter(n.cfg, n.seen);
  }

  /** The node of a socket stays on watch through the batch, and its events stay expected. */
  lemma {:induction false} AfterExpected(n: Node, fd: int, batch: seq<Delivery>, i: nat, x: nat)
    requires Fit(n) && Rests(n) && Offered(n, fd, batch) && i <= x < |batch| && batch[x].fd == fd
    requires n.cfg.kind.Socket? && Watched(n) && Steady(n, fd, batch, 0) && Accepting(n, fd, batch)
    ensures Expected(After(n, fd, batch, i), batch[x].kev) && OnWatch(After(n, fd, batch, i), Told(n, fd, batch, i))
    decreases i, 0
  {
    if i == 0 {
      assert Possible(n.hooks, batch[x].kev);
    } else {
      AfterExpected(n, fd, batch, i - 1, x);
      if batch[i - 1].fd == fd {
        AfterExpected(n, fd, batch, i - 1, i - 1);
        AfterMidway(n, fd, batch, i - 1);
        TurnExpected(After(n, fd, batch, i - 1), batch[i - 1], batch[x].kev);
        TurnOnWatch(After(n, fd, batch, i - 1), batch[i - 1], Told(n, fd, batch, i - 1));
      }
    }
  }

  lemma {:induction false} AfterOnWatch(n: Node, fd: int, batch: seq<Delivery>, i: nat)
    requires Fit(n) && Rests(n) && Offered(n, fd, batch) && i <= |batch|
    requires n.cfg.kind.Socket? && Watched(n) && Steady(n, fd, batch, 0) && Accepting(n, fd, batch)
    ensures OnWatch(After(n, fd, batch, i), Told(n, fd, batch, i))
  {
    if i > 0 {
      AfterOnWatch(n, fd, batch, i - 1);
      if batch[i - 1].fd == fd {
        AfterMidway(n, fd, batch, i - 1);
        AfterExpected(n, fd, batch, i - 1, i - 1);
        TurnOnWatch(After(n, fd, batch, i - 1), batch[i - 1], Told(n, fd, batch, i - 1));
      }
    }
  }

  lemma {:induction false} LateOnWatch(n: Node, fd: int, late: seq<Delivery>, i: nat)
    requires Fit(n) && Modest(n) && Asked(n, fd, late) && i <= |late| && LinuxFits(n)
    requires n.cfg.kind.Socket? && OnWatch(n, true) && Steady(n, fd, late, 0)
    ensures var m := AfterLate(n, fd, late, i); Watched(m) && EofKept(n.seen, m.seen)
  {
    if i > 0 {
      LateOnWatch(n, fd, late, i - 1);
      LateFit(n, fd, late, i - 1);
      LateSteady(n, fd, late, i - 1);
      if late[i - 1].fd == fd {
        CompleteWatched(n, AfterLate(n, fd, late, i - 1), late[i - 1].kev, late[i - 1].world);
      }
    }
  }

  /** With a kernel that takes nothing back and refuses nothing, the node of a socket stays on watch. */
  lemma NodeWatched(n: Node, fd: int, batch: seq<Delivery>, late: seq<Delivery>)
    requires InPass(n, fd, batch, late) && SteadyPass(n, fd, batch, late) && Accepting(n, fd, batch)
    requires n.cfg.kind.Socket? && Watched(n)
    ensures var m := Last(n, fd, batch, late); Watched(m) && (Armed(n.hooks) ==> Armed(m.hooks))
  {
    AfterMidway(n, fd, batch, |batch|);
    AfterOnWatch(n, fd, batch, |batch|);
    AfterArmed(n, fd, batch, |batch|);
    LateFit(Mid(n, fd, batch), fd, late, |late|);
    if Told(n, fd, batch, |batch|) {
      MidLinux(n, fd, batch);
      LateOnWatch(Mid(n, fd, batch), fd, late, |late|);
    } else {
      LateUntouched(Mid(n, fd, batch), fd, late, |late|);
    }
  }

  // ---------- Level-triggered nodes ----------

  /** The flags with which the filters of a node were last added. */
  function Added(n: Node, fd: int, batch: seq<Delivery>, i: nat, first: Needed): Needed
    requires i <= |batch|
  {
    if i == 0 then first
    else
      var m := After(n, fd, batch, i - 1);
      var fed := Feed(m, batch[i - 1].kev, batch[i - 1].world);
      if batch[i - 1].fd == fd && Reregisters(m, fed) then Needs(fed.cfg, fed.seen)
      else Added(n, fd, batch, i - 1, first)
  }

  /** The kernel registers the filters of a node again when asked to. */
  ghost predicate Accepts(n: Node, fd: int, batch: seq<Delivery>) {
    n.cfg.kind.Poll? || forall x :: 0 <= x < |batch| && batch[x].fd == fd ==> Accepted(batch[x].verdict)
  }

  /** Through a batch a level-triggered node has the filters it needs, added with the flags it needs. */
  lemma {:induction false} AfterHooked(n: Node, fd: int, batch: seq<Delivery>, i: nat)
    requires Fit(n) && Rests(n) && Offered(n, fd, batch) && i <= |batch|
    requires Hooked(n) && !n.cfg.edge && Accepts(n, fd, batch)
    ensures var m := After(n, fd, batch, i);
      Hooked(m) && (!n.cfg.kind.Poll? ==> Added(n, fd, batch, i, Needs(n.cfg, n.seen)) == Needs(m.cfg, m.seen))
  {
    if i > 0 {
      AfterHooked(n, fd, batch, i - 1);
      AfterMidway(n, fd, batch, i - 1);
      var (m, d) := (After(n, fd, batch, i - 1), batch[i - 1]);
      if d.fd == fd {
        ProcessHooked(m, d.kev, d.world, d.verdict);
        if !n.cfg.kind.Poll? {
          FedFit(m, d.kev, d.world);
          AfterMidway(n, fd, batch, i);
        }
      }
    }
  }

  // ---------- Nodes of other kqueues ----------

  /** Such a node has one event in a batch at most. */
  lemma KqueueAlone(n: Node, fd: int, batch: seq<Delivery>, x: nat, y: nat)
    requires Fit(n) && n.cfg.kind.Kqueue? && Offered(n, fd, batch) && x < |batch| && y < |batch|
    requires batch[x].fd == batch[y].fd == fd
    ensures x == y && batch[x].kev.filter.Read? && !batch[x].kev.eof
  {
    assert Possible(n.hooks, batch[x].kev) && Possible(n.hooks, batch[y].kev);
  }

  lemma {:induction false} AfterQuiet(n: Node, fd: int, batch: seq<Delivery>, x: nat, i: nat)
    requires x <= i <= |batch| && forall y :: x <= y < i ==> batch[y].fd != fd
    ensures After(n, fd, batch, i) == After(n, fd, batch, x) && Told(n, fd, batch, i) == Told(n, fd, batch, x)
  {
    if x < i {
      AfterQuiet(n, fd, batch, x, i - 1);
    }
  }

  /** The one event of a kqueue decides what the node looks like when the batch has been digested. */
  lemma KqueueMid(n: Node, fd: int, batch: seq<Delivery>, x: nat)
    requires Fit(n) && Rests(n) && n.cfg.kind.Kqueue? && Offered(n, fd, batch) && x < |batch| && batch[x].fd == fd
    ensures After(n, fd, batch, x) == n && Mid(n, fd, batch) == Turn(n, batch[x])
    ensures Told(n, fd, batch, |batch|) <==> Turn(n, batch[x]).result.revents != NONE
  {
    forall y | 0 <= y < |batch| && batch[y].fd == fd
      ensures y == x
    {
      KqueueAlone(n, fd, batch, x, y);
    }
    AfterUntouched(n, fd, batch, x);
    AfterQuiet(n, fd, batch, x + 1, |batch|);
  }

  /**
   Exactly when got_evfilt_read outlives the wait: the node is not listed, and
   it had the flag or its event is residual.
   */
  lemma NodeResidue(n: Node, fd: int, batch: seq<Delivery>, late: seq<Delivery>)
    requires InPass(n, fd, batch, late) && n.cfg.kind.Kqueue?
    ensures var told := Told(n, fd, batch, |batch|);
      (!told && Last(n, fd, batch, late).result.gotRead) <==>
      !told && (n.result.gotRead ||
        exists x :: 0 <= x < |batch| && batch[x].fd == fd && Residual(n.cfg, batch[x].kev, batch[x].world))
    ensures forall x :: 0 <= x < |batch| && batch[x].fd == fd && Residual(n.cfg, batch[x].kev, batch[x].world) ==>
      !Told(n, fd, batch, |batch|)
  {
    if !Told(n, fd, batch, |batch|) {
      LateUntouched(Mid(n, fd, batch), fd, late, |late|);
    }
    if x: nat :| x < |batch| && batch[x].fd == fd {
      KqueueMid(n, fd, batch, x);
      KqueueTurn(n, fd, batch, x);
      forall y | 0 <= y < |batch| && batch[y].fd == fd
        ensures y == x
      {
        KqueueAlone(n, fd, batch, x, y);
      }
    } else {
      AfterUntouched(n, fd, batch, |batch|);
    }
  }

  lemma KqueueTurn(n: Node, fd: int, batch: seq<Delivery>, x: nat)
    requires Fit(n) && Rests(n) && n.cfg.kind.Kqueue? && Offered(n, fd, batch) && x < |batch| && batch[x].fd == fd
    ensures var (r, residual) := (Turn(n, batch[x]).result, Residual(n.cfg, batch[x].kev, batch[x].world));
      && (r.revents == NONE ==> (r.gotRead <==> n.result.gotRead || residual))
      && (residual ==> r.gotRead && r.revents == NONE)
  {
    var d := batch[x];
    KqueueAlone(n, fd, batch, x, x);
    assert Plausible(n.cfg, d.kev, d.world, d.verdict);
    FeedResidue(n, d.kev, d.world);
    ProcessFit(n, d.kev, d.world, d.verdict);
  }

  /** No late event of a kqueue but the first. */
  lemma KqueueLate(n: Node, fd: int, late: seq<Delivery>, y: nat)
    requires Fit(n) && Modest(n) && n.cfg.kind.Kqueue? && Asked(n, fd, late) && y < |late| && late[y].fd == fd
    ensures AfterLate(n, fd, late, |late|) == Feed(n, late[y].kev, late[y].world)
    ensures forall z :: 0 <= z < |late| && late[z].fd == fd ==> z == y
  {
    forall z | 0 <= z < |late| && late[z].fd == fd
      ensures z == y
    {
      assert Pending(n, late[z].kev) && Pending(n, late[y].kev);
    }
    LateUntouched(n, fd, late, y);
    LateQuiet(n, fd, late, y + 1, |late|);
  }

  lemma {:induction false} LateQuiet(n: Node, fd: int, late: seq<Delivery>, x: nat, i: nat)
    requires x <= i <= |late| && forall y :: x <= y < i ==> late[y].fd != fd
    ensures AfterLate(n, fd, late, i) == AfterLate(n, fd, late, x)
  {
    if x < i {
      LateQuiet(n, fd, late, x, i - 1);
    }
  }

  /** The description behind a kqueue has nothing that was asked for. */
  predicate Bare(c: Config, w: World) {
    w.described.Some? && Masked(c, w.described.value) == NONE
  }

  /** No completion event of the node finds a description without some of these bits. */
  predicate Keeps(c: Config, fd: int, late: seq<Delivery>, said: Mask) {
    forall y :: 0 <= y < |late| && late[y].fd == fd && late[y].world.described.Some? ==>
      Within(said, Masked(c, late[y].world.described.value))
  }

  lemma KqueueFed(n: Node, k: Kev, w: World)
    requires Fit(n) && Modest(n) && n.cfg.kind.Kqueue? && !k.filter.User?
    ensures var r := Feed(n, k, w).result.revents;
      && (n.result.revents != NONE ==> (r == NONE <==> Bare(n.cfg, w)))
      && if w.described.Some? then r == Masked(n.cfg, w.described.value) else Within(n.result.revents, r)
  {
  }

  /** What the event of a kqueue says is there when its batch has been digested. */
  lemma KqueueHeard(n: Node, fd: int, batch: seq<Delivery>, x: nat)
    requires Fit(n) && Rests(n) && Offered(n, fd, batch) && n.cfg.kind.Kqueue? && x < |batch| && batch[x].fd == fd
    ensures var (said, m) := (Tells(n, batch[x].kev, batch[x].world), Mid(n, fd, batch));
      && (said != NONE ==> Told(n, fd, batch, |batch|)) && Within(said, m.result.revents)
      && Fit(m) && Modest(m) && m.cfg == n.cfg
      && (Told(n, fd, batch, |batch|) ==> m.result.revents != NONE)
  {
    KqueueMid(n, fd, batch, x);
    AfterMidway(n, fd, batch, |batch|);
    AfterMidway(n, fd, batch, x);
    TellsCollected(n, batch[x].kev, batch[x].world);
    ProcessFit(n, batch[x].kev, batch[x].world, batch[x].verdict);
  }

  /** A completion event replaces what was collected by what the description has then. */
  lemma KqueueOvertaken(n: Node, fd: int, late: seq<Delivery>, said: Mask)
    requires Fit(n) && Modest(n) && n.cfg.kind.Kqueue? && Asked(n, fd, late) && Within(said, n.result.revents)
    ensures var r := AfterLate(n, fd, late, |late|).result.revents;
      && (Within(said, r) <==> Keeps(n.cfg, fd, late, said))
      && (forall y :: 0 <= y < |late| && late[y].fd == fd ==> Within(Tells(n, late[y].kev, late[y].world), r))
      && (n.result.revents != NONE ==>
            (r == NONE <==> exists y :: 0 <= y < |late| && late[y].fd == fd && Bare(n.cfg, late[y].world)))
  {
    if Untouched(late, |late|, fd) {
      LateUntouched(n, fd, late, |late|);
    } else {
      var y: nat :| y < |late| && late[y].fd == fd;
      KqueueLate(n, fd, late, y);
      PendingDigestible(n, n, late[y].kev);
      TellsCollected(n, late[y].kev, late[y].world);
      KqueueFed(n, late[y].kev, late[y].world);
    }
  }

  /**
   The event of a kqueue is delivered, exactly unless a completion event
   overtakes it whose description lacks some of it; that one then is.  An
   entry is empty exactly if that one finds nothing.
   */
  lemma KqueueDelivered(n: Node, fd: int, batch: seq<Delivery>, late: seq<Delivery>, x: nat)
    requires InPass(n, fd, batch, late) && n.cfg.kind.Kqueue? && x < |batch| && batch[x].fd == fd
    ensures var said := Tells(n, batch[x].kev, batch[x].world);
      && (said != NONE ==> Told(n, fd, batch, |batch|))
      && (Within(said, Last(n, fd, batch, late).result.revents) <==> Keeps(n.cfg, fd, late, said))
    ensures forall y :: 0 <= y < |late| && late[y].fd == fd ==>
      Within(Tells(Mid(n, fd, batch), late[y].kev, late[y].world), Last(n, fd, batch, late).result.revents)
    ensures Told(n, fd, batch, |batch|) ==>
      (Last(n, fd, batch, late).result.revents == NONE <==>
       exists y :: 0 <= y < |late| && late[y].fd == fd && Bare(n.cfg, late[y].world))
  {
    KqueueHeard(n, fd, batch, x);
    KqueueOvertaken(Mid(n, fd, batch), fd, late, Tells(n, batch[x].kev, batch[x].world));
  }
}
