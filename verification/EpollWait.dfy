/**
 epollfd_ctx_wait and epollfd_ctx_ctl of src/epollfd_ctx.c on a whole epoll
 instance: from what happens to the descriptors to the entries of the caller's
 array, over one pass and over the passes between the jumps back to `again`.
 */
module EpollWait {
  import opened Options
  import opened EpollNode
  import opened EpollPass

  // ---------- What the kernel makes of its filters ----------

  function Tag(d: Delivery): (int, Filter) {
    (d.fd, d.kev.filter)
  }

  /** Of the events that happen, those for filters in `armed`, each filter once, and no more than cap. */
  function Fired(armed: set<(int, Filter)>, happening: seq<Delivery>, cap: nat): (r: seq<Delivery>)
    ensures |r| <= cap && forall d :: d in r ==> Tag(d) in armed && d in happening
    decreases |happening|
  {
    if happening == [] || cap == 0 then []
    else
      var d := happening[0];
      if Tag(d) in armed then [d] + Fired(armed - {Tag(d)}, happening[1..], cap - 1)
      else Fired(armed, happening[1..], cap)
  }

  lemma {:induction false} FiredDistinct(armed: set<(int, Filter)>, happening: seq<Delivery>, cap: nat)
    ensures Distinct(Fired(armed, happening, cap))
    decreases |happening|
  {
    if happening != [] && cap > 0 {
      var d := happening[0];
      if Tag(d) in armed {
        var rest := Fired(armed - {Tag(d)}, happening[1..], cap - 1);
        FiredDistinct(armed - {Tag(d)}, happening[1..], cap - 1);
        forall x | 0 <= x < |rest|
          ensures Tag(rest[x]) != Tag(d)
        {
          assert rest[x] in rest;
        }
      } else {
        FiredDistinct(armed, happening[1..], cap);
      }
    }
  }

  /** The filters of all nodes, and the self trigger. */
  function ArmedFilters(nodes: Nodes): set<(int, Filter)> {
    (set fd | fd in nodes && nodes[fd].hooks.read :: (fd, Read))
    + (set fd | fd in nodes && nodes[fd].hooks.write :: (fd, Write))
    + (set fd | fd in nodes && nodes[fd].hooks.triggered :: (fd, User))
    + {(SELF, User)}
  }

  // ---------- One pass ----------

  /** What happens to the descriptors before a pass, and while it completes. */
  datatype Input = Input(happening: seq<Delivery>, later: seq<Delivery>)

  /** It is what can happen to descriptors of these kinds. */
  predicate Sensible(nodes: Nodes, happening: seq<Delivery>) {
    forall x :: 0 <= x < |happening| ==> var d := happening[x];
      d.fd in nodes ==> Plausible(nodes[d.fd].cfg, d.kev, d.world, d.verdict)
  }

  predicate SensibleInput(nodes: Nodes, input: Input) {
    Sensible(nodes, input.happening) && Sensible(nodes, input.later)
  }

  lemma FiredDelivered(nodes: Nodes, happening: seq<Delivery>, cap: nat)
    requires Ready(nodes) && Sensible(nodes, happening)
    ensures Delivered(nodes, Fired(ArmedFilters(nodes), happening, cap))
  {
    var batch := Fired(ArmedFilters(nodes), happening, cap);
    FiredDistinct(ArmedFilters(nodes), happening, cap);
    forall x | 0 <= x < |batch|
      ensures var d := batch[x];
        if d.fd == SELF then d.kev.filter.User?
        else
          d.fd in nodes && Possible(nodes[d.fd].hooks, d.kev)
          && Plausible(nodes[d.fd].cfg, d.kev, d.world, d.verdict)
    {
      assert batch[x] in batch;
      assert Tag(batch[x]) in ArmedFilters(nodes) && batch[x] in happening;
    }
  }

  /** The nodes after the first i kevents of a batch. */
  function Digested(nodes: Nodes, batch: seq<Delivery>, i: nat): Nodes
    requires i <= |batch|
  {
    map fd | fd in nodes :: After(nodes[fd], fd, batch, i)
  }

  /** The registrations that became news, in that order. */
  function Listed(nodes: Nodes, batch: seq<Delivery>, i: nat): seq<int>
    requires i <= |batch|
  {
    if i == 0 then []
    else
      var (fd, listed) := (batch[i - 1].fd, Listed(nodes, batch, i - 1));
      if fd in nodes && IsNews(After(nodes[fd], fd, batch, i - 1), After(nodes[fd], fd, batch, i))
      then listed + [fd] else listed
  }

  /** What completion asks for: registered filters no event came from, of edge-triggered nodes or after a full batch. */
  function Asking(nodes: Nodes, listed: seq<int>, full: bool): set<(int, Filter)> {
    (set fd | fd in listed && fd in nodes && (full || nodes[fd].cfg.edge) && Pending(nodes[fd], READ) :: (fd, Read))
    + (set fd | fd in listed && fd in nodes && (full || nodes[fd].cfg.edge) && Pending(nodes[fd], WRITE) :: (fd, Write))
  }

  const READ := Kev(Read, false, false, false, 0)
  const WRITE := Kev(Write, false, false, false, 0)

  /** The nodes after the first i events of the completion kqueue. */
  function Completed(nodes: Nodes, late: seq<Delivery>, i: nat): Nodes
    requires i <= |late|
  {
    map fd | fd in nodes :: AfterLate(nodes[fd], fd, late, i)
  }

  /** Reported: nothing is left to report, and a one-shot node is taken out of the kqueue. */
  function Settled(n: Node): Node {
    var m := n.(result := QUIET);
    if n.cfg.oneshot then Unhooked(m) else m
  }

  function Reported(nodes: Nodes, listed: seq<int>): Nodes {
    map fd | fd in nodes :: End(nodes[fd], fd in listed)
  }

  /**
   A pass from `again` on: the kevents, the nodes they leave, who is listed,
   the events of completion, the nodes as they are reported, and after it.
   */
  datatype Pass = Pass(
    batch: seq<Delivery>, mid: Nodes, listed: seq<int>, late: seq<Delivery>, last: Nodes, nodes: Nodes)

  function PassOf(nodes: Nodes, input: Input, cap: nat): Pass {
    var batch := Fired(ArmedFilters(nodes), input.happening, cap);
    var mid := Digested(nodes, batch, |batch|);
    Finished(batch, mid, Listed(nodes, batch, |batch|), |batch| == cap, input.later)
  }

  /** ... after the first loop. */
  function Finished(batch: seq<Delivery>, mid: Nodes, listed: seq<int>, full: bool, later: seq<Delivery>): Pass {
    var late := Fired(Asking(mid, listed, full), later, |later|);
    var last := Completed(mid, late, |late|);
    Pass(batch, mid, listed, late, last, Reported(last, listed))
  }

  /** What the caller gets for a listed node. */
  function EntryFor(n: Node): Entry {
    Entry(n.result.revents, n.cfg.data)
  }

  /** The pass ends in the jump back. */
  predicate Again(p: Pass) {
    p.batch != [] && p.listed == []
  }

  // ---------- The pass, node by node ----------

  lemma {:induction false} ListedTold(nodes: Nodes, batch: seq<Delivery>, i: nat, fd: int)
    requires i <= |batch|
    ensures fd in Listed(nodes, batch, i) <==> fd in nodes && Told(nodes[fd], fd, batch, i)
  {
    if i > 0 {
      ListedTold(nodes, batch, i - 1, fd);
    }
  }

  lemma DeliveredOffered(nodes: Nodes, batch: seq<Delivery>, fd: int)
    requires Delivered(nodes, batch) && fd in nodes && fd != SELF
    ensures Offered(nodes[fd], fd, batch)
  {
  }

  /** Event i lists its node, or not; a node it lists was not listed before. */
  lemma ListedStep(nodes: Nodes, batch: seq<Delivery>, i: nat) returns (isNew: bool)
    requires Ready(nodes) && Delivered(nodes, batch) && i < |batch|
    ensures var (fd, listed) := (batch[i].fd, Listed(nodes, batch, i));
      && Listed(nodes, batch, i + 1) == (if isNew then listed + [fd] else listed)
      && (isNew ==> fd in nodes && fd !in listed)
      && (isNew <==> fd in nodes && IsNews(After(nodes[fd], fd, batch, i), After(nodes[fd], fd, batch, i + 1)))
  {
    var fd := batch[i].fd;
    isNew := fd in nodes && IsNews(After(nodes[fd], fd, batch, i), After(nodes[fd], fd, batch, i + 1));
    ListedTold(nodes, batch, i, fd);
    if isNew && fd in Listed(nodes, batch, i) {
      DeliveredOffered(nodes, batch, fd);
      NewsOnce(nodes[fd], fd, batch, i);
    }
  }

  /** i events list at most i registrations, each once. */
  ghost predicate ListFits(listed: seq<int>, i: nat, fds: set<int>) {
    DistinctInts(listed) && |listed| <= i && forall fd :: fd in listed ==> fd in fds
  }

  lemma ListFitsMore(listed: seq<int>, i: nat, fds: set<int>, fd: int)
    requires ListFits(listed, i, fds)
    ensures ListFits(listed, i + 1, fds)
    ensures fd in fds && fd !in listed ==> ListFits(listed + [fd], i + 1, fds)
  {
  }

  lemma ListedMore(nodes: Nodes, batch: seq<Delivery>, i: nat, listed: seq<int>) returns (next: seq<int>)
    requires Ready(nodes) && Delivered(nodes, batch) && i < |batch|
    requires listed == Listed(nodes, batch, i) && ListFits(listed, i, nodes.Keys)
    ensures next == Listed(nodes, batch, i + 1) && ListFits(next, i + 1, nodes.Keys)
  {
    var isNew := ListedStep(nodes, batch, i);
    ListFitsMore(listed, i, nodes.Keys, batch[i].fd);
    next := if isNew then listed + [batch[i].fd] else listed;
  }

  /** A registration enters the list of entries once. */
  lemma ListedOnce(nodes: Nodes, batch: seq<Delivery>, i: nat) returns (listed: seq<int>)
    requires Ready(nodes) && Delivered(nodes, batch) && i <= |batch|
    ensures listed == Listed(nodes, batch, i) && ListFits(listed, i, nodes.Keys)
  {
    listed := [];
    for k := 0 to i
      invariant listed == Listed(nodes, batch, k) && ListFits(listed, k, nodes.Keys)
    {
      listed := ListedMore(nodes, batch, k, listed);
    }
  }

  lemma AskingPending(nodes: Nodes, listed: seq<int>, full: bool, fd: int, f: Filter)
    requires (fd, f) in Asking(nodes, listed, full)
    ensures fd in listed && fd in nodes && forall k: Kev :: k.filter == f ==> Pending(nodes[fd], k)
  {
  }

  lemma LateAsked(nodes: Nodes, input: Input, cap: nat, fd: int)
    requires Ready(nodes) && SensibleInput(nodes, input) && fd in nodes
    requires var p := PassOf(nodes, input, cap); p.mid[fd].cfg == nodes[fd].cfg
    ensures var p := PassOf(nodes, input, cap);
      Asked(p.mid[fd], fd, p.late) && (fd !in p.listed ==> Untouched(p.late, |p.late|, fd))
  {
    var p := PassOf(nodes, input, cap);
    var asking := Asking(p.mid, p.listed, |p.batch| == cap);
    FiredDistinct(asking, input.later, |input.later|);
    forall x | 0 <= x < |p.late| && p.late[x].fd == fd
      ensures fd in p.listed && Pending(p.mid[fd], p.late[x].kev) && (p.mid[fd].cfg.kind.Kqueue? ==> !p.late[x].kev.eof)
    {
      assert p.late[x] in p.late;
      assert Tag(p.late[x]) in asking && p.late[x] in input.later;
      AskingPending(p.mid, p.listed, |p.batch| == cap, fd, p.late[x].kev.filter);
    }
  }

  /** A pass of the whole instance is one for each of its nodes. */
  lemma PassNode(nodes: Nodes, input: Input, cap: nat, fd: int)
    requires Ready(nodes) && SensibleInput(nodes, input) && fd in nodes
    ensures var p := PassOf(nodes, input, cap);
      && InPass(nodes[fd], fd, p.batch, p.late)
      && (fd in p.listed <==> Told(nodes[fd], fd, p.batch, |p.batch|))
      && p.mid[fd] == Mid(nodes[fd], fd, p.batch) && p.last[fd] == Last(nodes[fd], fd, p.batch, p.late)
  {
    var p := PassOf(nodes, input, cap);
    FiredDelivered(nodes, input.happening, cap);
    DeliveredOffered(nodes, p.batch, fd);
    ListedTold(nodes, p.batch, |p.batch|, fd);
    AfterMidway(nodes[fd], fd, p.batch, |p.batch|);
    LateAsked(nodes, input, cap, fd);
  }

  lemma SettledFit(n: Node)
    requires Fit(n)
    ensures Fit(Settled(n)) && Rests(Settled(n)) && Settled(n).cfg == n.cfg && Settled(n).seen == n.seen
    ensures Settled(n).hooks == if n.cfg.oneshot then UNHOOKED else n.hooks
    ensures Watched(n) ==> Watched(Settled(n))
  {
  }

  lemma LastFit(n: Node, fd: int, batch: seq<Delivery>, late: seq<Delivery>)
    requires InPass(n, fd, batch, late)
    ensures var m := Last(n, fd, batch, late);
      Fit(m) && Modest(m) && m.cfg == n.cfg && (!Told(n, fd, batch, |batch|) ==> Rests(m))
  {
    AfterMidway(n, fd, batch, |batch|);
    LateFit(Mid(n, fd, batch), fd, late, |late|);
    if !Told(n, fd, batch, |batch|) {
      LateUntouched(Mid(n, fd, batch), fd, late, |late|);
    }
  }

  /** A node after the last loop. */
  function End(n: Node, listed: bool): Node {
    if listed then Settled(n) else n
  }

  lemma EndsReady(n: Node, fd: int, batch: seq<Delivery>, late: seq<Delivery>, listed: bool)
    requires InPass(n, fd, batch, late) && (listed <==> Told(n, fd, batch, |batch|))
    ensures var m := End(Last(n, fd, batch, late), listed); Fit(m) && Rests(m) && m.cfg == n.cfg
  {
    LastFit(n, fd, batch, late);
    SettledFit(Last(n, fd, batch, late));
  }

  lemma PassNodeReady(nodes: Nodes, input: Input, cap: nat, fd: int)
    requires Ready(nodes) && SensibleInput(nodes, input) && fd in nodes
    ensures var n := PassOf(nodes, input, cap).nodes[fd]; Fit(n) && Rests(n) && n.cfg == nodes[fd].cfg
  {
    var p := PassOf(nodes, input, cap);
    PassNode(nodes, input, cap, fd);
    EndsReady(nodes[fd], fd, p.batch, p.late, fd in p.listed);
  }

  /** After a pass the nodes are at rest again: every node with something to report was listed. */
  lemma PassReady(nodes: Nodes, input: Input, cap: nat)
    requires Ready(nodes) && SensibleInput(nodes, input)
    ensures var p := PassOf(nodes, input, cap);
      && Ready(p.nodes) && p.nodes.Keys == nodes.Keys && forall fd :: fd in nodes ==> p.nodes[fd].cfg == nodes[fd].cfg
  {
    forall fd | fd in nodes
      ensures var n := PassOf(nodes, input, cap).nodes[fd]; Fit(n) && Rests(n) && n.cfg == nodes[fd].cfg
    {
      PassNodeReady(nodes, input, cap, fd);
    }
  }

  /** Each entry is for a registration of its own and says no more than that asked for; there is room for all. */
  lemma PassEntries(nodes: Nodes, input: Input, cap: nat)
    requires Ready(nodes) && SensibleInput(nodes, input)
    ensures var p := PassOf(nodes, input, cap);
      && DistinctInts(p.listed) && |p.listed| <= |p.batch| <= cap && |p.listed| <= |nodes|
      && forall fd :: fd in p.listed ==> fd in nodes && Answers(EntryFor(p.last[fd]), nodes[fd].cfg)
  {
    var p := PassOf(nodes, input, cap);
    FiredDelivered(nodes, input.happening, cap);
    var listed := ListedOnce(nodes, p.batch, |p.batch|);
    DistinctSize(p.listed, nodes.Keys);
    forall fd | fd in p.listed
      ensures Answers(EntryFor(p.last[fd]), nodes[fd].cfg)
    {
      PassNode(nodes, input, cap, fd);
      LastFit(nodes[fd], fd, p.batch, p.late);
    }
  }

  // ---------- Delivery ----------

  /** The kernel takes no end of file of a socket back during the pass. */
  ghost predicate SteadyKernel(nodes: Nodes, p: Pass) {
    forall fd :: fd in nodes ==> SteadyPass(nodes[fd], fd, p.batch, p.late)
  }

  /** ... and registers the filters of sockets when asked to. */
  ghost predicate BenignKernel(nodes: Nodes, p: Pass) {
    SteadyKernel(nodes, p) && forall fd :: fd in nodes ==> Accepting(nodes[fd], fd, p.batch)
  }

  /** What kevent x of the batch says to its node when its turn comes. */
  function Said(nodes: Nodes, batch: seq<Delivery>, x: nat): Mask
    requires x < |batch| && batch[x].fd in nodes
  {
    Tells(After(nodes[batch[x].fd], batch[x].fd, batch, x), batch[x].kev, batch[x].world)
  }

  /** Every kevent of a batch that says something is in the entries with all it says. */
  lemma EventsDelivered(nodes: Nodes, input: Input, cap: nat, x: nat)
    requires Ready(nodes) && SensibleInput(nodes, input)
    requires var p := PassOf(nodes, input, cap); SteadyKernel(nodes, p) && x < |p.batch| && p.batch[x].fd in nodes
    requires !nodes[PassOf(nodes, input, cap).batch[x].fd].cfg.kind.Kqueue?
    ensures var p := PassOf(nodes, input, cap); var fd := p.batch[x].fd;
      && (Said(nodes, p.batch, x) != NONE ==> fd in p.listed)
      && Within(Said(nodes, p.batch, x), EntryFor(p.last[fd]).events)
  {
    var p := PassOf(nodes, input, cap);
    var fd := p.batch[x].fd;
    PassNode(nodes, input, cap, fd);
    NodeDelivered(nodes[fd], fd, p.batch, p.late, x);
  }

  /**
   Data that can be read, or room to write, is reported to who asked for it;
   so is what poll finds, and EPOLLERR for a FIFO that still has no readers.
   */
  lemma DataReported(nodes: Nodes, input: Input, cap: nat, x: nat)
    requires Ready(nodes) && SensibleInput(nodes, input)
    requires var p := PassOf(nodes, input, cap); SteadyKernel(nodes, p) && x < |p.batch| && p.batch[x].fd in nodes
    requires !nodes[PassOf(nodes, input, cap).batch[x].fd].cfg.kind.Kqueue?
    ensures var p := PassOf(nodes, input, cap); var (d, c) := (p.batch[x], nodes[p.batch[x].fd].cfg);
      var (k, told, events) := (d.kev, d.fd in p.listed, p.last[d.fd].result.revents);
      var filled := c.kind.Fifo? && k.eof ==>
        k.bytes >= PIPE_BUF && !Deferred(After(nodes[d.fd], d.fd, p.batch, x), k);
      && (k.filter.Read? && c.events.input && (c.kind.Fifo? && k.eof ==> k.bytes != 0) ==> told && events.input)
      && (k.filter.Write? && c.events.output && filled ==> told && events.output)
      && (c.kind.Poll? ==> Within(Translated(c, PollResult(d.world)), events))
      && (c.kind.Poll? && Translated(c, PollResult(d.world)) != NONE ==> told)
      && (c.kind.Fifo? && k.filter.User? && !d.world.writeOk ==> told && events.err)
  {
    var p := PassOf(nodes, input, cap);
    var d := p.batch[x];
    PassNode(nodes, input, cap, d.fd);
    AfterMidway(nodes[d.fd], d.fd, p.batch, x);
    TellsData(After(nodes[d.fd], d.fd, p.batch, x), d.kev, d.world);
    EventsDelivered(nodes, input, cap, x);
  }

  /** A registered filter that no event came from. */
  predicate Unheard(n: Node, f: Filter) {
    (f.Read? && n.hooks.read && !n.result.gotRead) || (f.Write? && n.hooks.write && !n.result.gotWrite)
  }

  lemma AskingExactly(nodes: Nodes, listed: seq<int>, full: bool, fd: int, f: Filter)
    ensures (fd, f) in Asking(nodes, listed, full) <==>
      fd in listed && fd in nodes && (full || nodes[fd].cfg.edge) && Unheard(nodes[fd], f)
  {
  }

  /** All that meanwhile happens to such filters is among the events of completion. */
  lemma CompletionHasAll(nodes: Nodes, input: Input, cap: nat, fd: int, f: Filter, i: nat) returns (x: nat)
    requires var p := PassOf(nodes, input, cap);
      && fd in p.listed && fd in p.mid && (p.mid[fd].cfg.edge || |p.batch| == cap) && Unheard(p.mid[fd], f)
    requires i < |input.later| && Tag(input.later[i]) == (fd, f)
    ensures var p := PassOf(nodes, input, cap);
      x < |p.late| && Tag(p.late[x]) == (fd, f)
  {
    var p := PassOf(nodes, input, cap);
    AskingExactly(p.mid, p.listed, |p.batch| == cap, fd, f);
    x := FiredAll(Asking(p.mid, p.listed, |p.batch| == cap), input.later, |input.later|, i);
  }

  /** So what was asked for and completion finds is reported; for a FIFO at its end see FifoReports. */
  lemma CompletionReported(nodes: Nodes, input: Input, cap: nat, fd: int, f: Filter, i: nat) returns (x: nat)
    requires Ready(nodes) && SensibleInput(nodes, input) && fd in nodes && !nodes[fd].cfg.kind.Kqueue?
    requires SteadyKernel(nodes, PassOf(nodes, input, cap))
    requires var p := PassOf(nodes, input, cap);
      && fd in p.listed && fd in p.mid && (p.mid[fd].cfg.edge || |p.batch| == cap) && Unheard(p.mid[fd], f)
    requires i < |input.later| && Tag(input.later[i]) == (fd, f)
    ensures var p := PassOf(nodes, input, cap);
      && x < |p.late| && Tag(p.late[x]) == (fd, f) && fd in p.last
      && var (c, events) := (nodes[fd].cfg, EntryFor(p.last[fd]).events);
         && (f.Read? && c.events.input && (c.kind.Fifo? ==> !p.late[x].kev.eof) ==> events.input)
         && (f.Write? && c.events.output && (c.kind.Fifo? ==> !p.late[x].kev.eof) ==> events.output)
  {
    var p := PassOf(nodes, input, cap);
    x := CompletionHasAll(nodes, input, cap, fd, f, i);
    PassNode(nodes, input, cap, fd);
    AfterMidway(nodes[fd], fd, p.batch, |p.batch|);
    LateFit(p.mid[fd], fd, p.late, x);
    TellsData(AfterLate(p.mid[fd], fd, p.late, x), p.late[x].kev, p.late[x].world);
    CompletionDelivered(nodes, input, cap, x);
  }

  /** So is every event of completion, for nodes that are listed already. */
  lemma CompletionDelivered(nodes: Nodes, input: Input, cap: nat, x: nat)
    requires Ready(nodes) && SensibleInput(nodes, input)
    requires var p := PassOf(nodes, input, cap); SteadyKernel(nodes, p) && x < |p.late| && p.late[x].fd in nodes
    requires !nodes[PassOf(nodes, input, cap).late[x].fd].cfg.kind.Kqueue?
    ensures var p := PassOf(nodes, input, cap); var d := p.late[x];
      && d.fd in p.listed
      && Within(Tells(AfterLate(p.mid[d.fd], d.fd, p.late, x), d.kev, d.world), EntryFor(p.last[d.fd]).events)
  {
    var p := PassOf(nodes, input, cap);
    PassNode(nodes, input, cap, p.late[x].fd);
    NodeCompleted(nodes[p.late[x].fd], p.late[x].fd, p.batch, p.late, x);
  }

  /**
   The event of another kqueue is delivered too, exactly unless a completion
   event overtakes it whose description lacks some of it; that one then is.
   */
  lemma KqueueEventsDelivered(nodes: Nodes, input: Input, cap: nat, x: nat)
    requires Ready(nodes) && SensibleInput(nodes, input)
    requires var p := PassOf(nodes, input, cap); x < |p.batch| && p.batch[x].fd in nodes
    requires nodes[PassOf(nodes, input, cap).batch[x].fd].cfg.kind.Kqueue?
    ensures var p := PassOf(nodes, input, cap); var fd := p.batch[x].fd;
      && (Said(nodes, p.batch, x) != NONE ==> fd in p.listed)
      && (Within(Said(nodes, p.batch, x), EntryFor(p.last[fd]).events) <==>
            Keeps(nodes[fd].cfg, fd, p.late, Said(nodes, p.batch, x)))
      && (forall y :: 0 <= y < |p.late| && p.late[y].fd == fd ==>
            Within(Tells(p.mid[fd], p.late[y].kev, p.late[y].world), EntryFor(p.last[fd]).events))
  {
    var p := PassOf(nodes, input, cap);
    var fd := p.batch[x].fd;
    PassNode(nodes, input, cap, fd);
    KqueueMid(nodes[fd], fd, p.batch, x);
    KqueueDelivered(nodes[fd], fd, p.batch, p.late, x);
  }

  /** No entry is empty, except that of a kqueue whose description a completion event finds bare. */
  lemma EntriesNotEmpty(nodes: Nodes, input: Input, cap: nat, fd: int)
    requires Ready(nodes) && SensibleInput(nodes, input)
    requires var p := PassOf(nodes, input, cap); SteadyKernel(nodes, p) && fd in p.listed
    ensures fd in nodes
    ensures var p := PassOf(nodes, input, cap);
      EntryFor(p.last[fd]).events == NONE <==>
      nodes[fd].cfg.kind.Kqueue? &&
      exists y :: 0 <= y < |p.late| && p.late[y].fd == fd && Bare(nodes[fd].cfg, p.late[y].world)
  {
    var p := PassOf(nodes, input, cap);
    ListedTold(nodes, p.batch, |p.batch|, fd);
    PassNode(nodes, input, cap, fd);
    var n := nodes[fd];
    if n.cfg.kind.Kqueue? {
      var x := ToldTouched(n, fd, p.batch, |p.batch|);
      KqueueDelivered(n, fd, p.batch, p.late, x);
    } else {
      NodeNotEmpty(n, fd, p.batch, p.late);
    }
  }

  /** A pass that jumps back has skipped only kevents that say nothing. */
  lemma SkippedNothing(nodes: Nodes, input: Input, cap: nat, x: nat)
    requires Ready(nodes) && SensibleInput(nodes, input)
    requires var p := PassOf(nodes, input, cap); Again(p) && x < |p.batch| && p.batch[x].fd in nodes
    ensures Said(nodes, PassOf(nodes, input, cap).batch, x) == NONE
  {
    var p := PassOf(nodes, input, cap);
    var fd := p.batch[x].fd;
    PassNode(nodes, input, cap, fd);
    AfterTold(nodes[fd], fd, p.batch, x);
    if Told(nodes[fd], fd, p.batch, x + 1) {
      ToldLater(nodes[fd], fd, p.batch, x + 1, |p.batch|);
    }
  }

  /** A one-shot registration that was reported has no filter left in the kqueue and is not on the poll-only list. */
  lemma OneShotUnhooked(nodes: Nodes, input: Input, cap: nat, fd: int, q: Request)
    requires Ready(nodes) && SensibleInput(nodes, input) && fd in nodes && AsAsked(nodes[fd].cfg, fd, q) && q.oneshot
    requires fd in PassOf(nodes, input, cap).listed
    ensures PassOf(nodes, input, cap).nodes[fd].hooks == UNHOOKED
  {
    var p := PassOf(nodes, input, cap);
    PassNode(nodes, input, cap, fd);
    LastFit(nodes[fd], fd, p.batch, p.late);
  }

  /** So no pass reports it or changes it, whatever happens. */
  lemma OneShotPass(nodes: Nodes, input: Input, cap: nat, fd: int)
    requires Ready(nodes) && SensibleInput(nodes, input) && fd in nodes && nodes[fd].hooks == UNHOOKED
    ensures fd !in PassOf(nodes, input, cap).listed && PassOf(nodes, input, cap).nodes[fd] == nodes[fd]
  {
    var p := PassOf(nodes, input, cap);
    PassNode(nodes, input, cap, fd);
    forall x | 0 <= x < |p.batch|
      ensures p.batch[x].fd != fd
    {
      assert p.batch[x].fd == fd ==> Possible(nodes[fd].hooks, p.batch[x].kev);
    }
    AfterUntouched(nodes[fd], fd, p.batch, |p.batch|);
    LateUntouched(nodes[fd], fd, p.late, |p.late|);
  }

  // ---------- Hangup of sockets ----------

  ghost predicate AllWatched(nodes: Nodes) {
    forall fd :: fd in nodes ==> Watched(nodes[fd])
  }

  /** The entry for fd says that it has hung up. */
  predicate SaysHup(p: Pass, fd: int) {
    fd in p.listed && fd in p.last && EntryFor(p.last[fd]).events.hup
  }

  /** Whatever the kernel does, a socket that has newly hung up is in the entries, with EPOLLHUP. */
  lemma HangupsReported(nodes: Nodes, input: Input, cap: nat, fd: int)
    requires Ready(nodes) && SensibleInput(nodes, input) && fd in nodes && nodes[fd].cfg.kind.Socket?
    requires Hup(PassOf(nodes, input, cap).nodes[fd].seen) && !Hup(nodes[fd].seen)
    ensures SaysHup(PassOf(nodes, input, cap), fd)
  {
    var p := PassOf(nodes, input, cap);
    PassNode(nodes, input, cap, fd);
    NodeHangup(nodes[fd], fd, p.batch, p.late);
  }

  /** In terms of kevents: once EV_EOF has come for both halves, now or in earlier waits, the entry says so. */
  lemma EndsReported(nodes: Nodes, input: Input, cap: nat, fd: int)
    requires Ready(nodes) && SensibleInput(nodes, input) && fd in nodes && nodes[fd].cfg.kind.Socket?
    requires SteadyKernel(nodes, PassOf(nodes, input, cap)) && !Hup(nodes[fd].seen)
    requires var p := PassOf(nodes, input, cap);
      EndsIn(nodes[fd], fd, p.batch, p.late, Read) && EndsIn(nodes[fd], fd, p.batch, p.late, Write)
    ensures SaysHup(PassOf(nodes, input, cap), fd)
  {
    var p := PassOf(nodes, input, cap);
    PassNode(nodes, input, cap, fd);
    NodeEnds(nodes[fd], fd, p.batch, p.late);
  }

  /** An armed socket, unless it was to be reported once and has been. */
  predicate StaysOn(n: Node, listed: bool) {
    n.cfg.kind.Socket? && Armed(n.hooks) && !(n.cfg.oneshot && listed)
  }

  lemma PassNodeWatched(nodes: Nodes, input: Input, cap: nat, fd: int)
    requires Ready(nodes) && SensibleInput(nodes, input) && fd in nodes && Watched(nodes[fd])
    requires BenignKernel(nodes, PassOf(nodes, input, cap))
    ensures var m := PassOf(nodes, input, cap).nodes[fd];
      Watched(m) && (StaysOn(nodes[fd], fd in PassOf(nodes, input, cap).listed) ==> Armed(m.hooks))
  {
    var p := PassOf(nodes, input, cap);
    PassNode(nodes, input, cap, fd);
    LastFit(nodes[fd], fd, p.batch, p.late);
    SettledFit(p.last[fd]);
    if nodes[fd].cfg.kind.Socket? {
      NodeWatched(nodes[fd], fd, p.batch, p.late);
    }
  }

  /** And with a benign kernel every armed socket stays on watch, so that kevents keep coming until it has hung up. */
  lemma StaysOnWatch(nodes: Nodes, input: Input, cap: nat)
    requires Ready(nodes) && SensibleInput(nodes, input) && AllWatched(nodes)
    requires BenignKernel(nodes, PassOf(nodes, input, cap))
    ensures var p := PassOf(nodes, input, cap);
      AllWatched(p.nodes) && forall fd :: fd in nodes && StaysOn(nodes[fd], fd in p.listed) ==> Armed(p.nodes[fd].hooks)
  {
    forall fd | fd in nodes
      ensures var p := PassOf(nodes, input, cap);
        Watched(p.nodes[fd]) && (StaysOn(nodes[fd], fd in p.listed) ==> Armed(p.nodes[fd].hooks))
    {
      PassNodeWatched(nodes, input, cap, fd);
    }
  }

  // ---------- Level-triggered registrations ----------

  lemma AskingEdge(nodes: Nodes, listed: seq<int>, fd: int, f: Filter)
    requires (fd, f) in Asking(nodes, listed, false)
    ensures fd in nodes && nodes[fd].cfg.edge
  {
  }

  /** A batch that is not full asks nothing of level-triggered nodes. */
  lemma NotAsked(nodes: Nodes, input: Input, cap: nat, fd: int)
    requires Ready(nodes) && SensibleInput(nodes, input) && fd in nodes && !nodes[fd].cfg.edge
    requires |PassOf(nodes, input, cap).batch| < cap
    ensures var p := PassOf(nodes, input, cap); p.last[fd] == p.mid[fd]
  {
    var p := PassOf(nodes, input, cap);
    PassNode(nodes, input, cap, fd);
    AfterMidway(nodes[fd], fd, p.batch, |p.batch|);
    forall x | 0 <= x < |p.late|
      ensures p.late[x].fd != fd
    {
      assert p.late[x] in p.late;
      AskingEdge(p.mid, p.listed, p.late[x].fd, p.late[x].kev.filter);
    }
    LateUntouched(p.mid[fd], fd, p.late, |p.late|);
  }

  /** The filters, and the flags, that it takes to be woken again and again for what was asked for. */
  predicate LevelHooks(n: Node, flags: Needed) {
    var (c, e) := (n.cfg, n.cfg.events);
    && (e.input && (c.kind.Fifo? ==> c.kind.readable) ==> n.hooks.read && flags.read == Level)
    && (e.output && !c.kind.Kqueue? && (c.kind.Fifo? ==> c.kind.writable) ==> n.hooks.write && flags.write == Level)
  }

  /**
   After a pass whose batch was not full, a level-triggered registration has
   exactly the filters it needs, last added with the flags it needs; unless it
   is a socket that has hung up, it is going to be woken again for what it
   asked for.
   */
  lemma LevelStays(nodes: Nodes, input: Input, cap: nat, fd: int)
    requires Ready(nodes) && SensibleInput(nodes, input) && fd in nodes
    requires Hooked(nodes[fd]) && !nodes[fd].cfg.edge
    requires var p := PassOf(nodes, input, cap); |p.batch| < cap && Accepts(nodes[fd], fd, p.batch)
    ensures var (p, n) := (PassOf(nodes, input, cap), nodes[fd]); var m := p.nodes[fd];
      var flags := Added(n, fd, p.batch, |p.batch|, Needs(n.cfg, n.seen));
      && Hooked(m) && (!m.cfg.kind.Poll? ==> flags == Needs(m.cfg, m.seen))
      && (!m.cfg.kind.Poll? && !(m.cfg.kind.Socket? && Hup(m.seen)) ==> LevelHooks(m, flags))
  {
    var (p, n) := (PassOf(nodes, input, cap), nodes[fd]);
    PassNode(nodes, input, cap, fd);
    PassNodeReady(nodes, input, cap, fd);
    NotAsked(nodes, input, cap, fd);
    AfterHooked(n, fd, p.batch, |p.batch|);
    AfterMidway(n, fd, p.batch, |p.batch|);
    SettledLevel(p.mid[fd], fd in p.listed);
    var m := p.nodes[fd];
    if !m.cfg.kind.Poll? && !(m.cfg.kind.Socket? && Hup(m.seen)) {
      LevelFilters(m.cfg, m.seen);
    }
  }

  lemma SettledLevel(n: Node, listed: bool)
    requires Valid(n.cfg) && !n.cfg.edge
    ensures var m := End(n, listed); m.cfg == n.cfg && m.hooks == n.hooks && m.seen == n.seen && !n.cfg.oneshot
  {
  }

  // ---------- A flag that is left over ----------

  /**
   got_evfilt_read is false after a pass, except on a kqueue that is not
   listed and had it before, or got a residual event.
   */
  lemma FlagLeftOver(nodes: Nodes, input: Input, cap: nat, fd: int)
    requires Ready(nodes) && SensibleInput(nodes, input) && fd in nodes
    ensures var (p, n) := (PassOf(nodes, input, cap), nodes[fd]);
      p.nodes[fd].result.gotRead <==>
      n.cfg.kind.Kqueue? && fd !in p.listed && (n.result.gotRead ||
        exists x :: 0 <= x < |p.batch| && p.batch[x].fd == fd && Residual(n.cfg, p.batch[x].kev, p.batch[x].world))
  {
    var p := PassOf(nodes, input, cap);
    PassNode(nodes, input, cap, fd);
    PassNodeReady(nodes, input, cap, fd);
    if nodes[fd].cfg.kind.Kqueue? {
      NodeResidue(nodes[fd], fd, p.batch, p.late);
    }
  }

  /** The flag is reached: a kqueue just added, and one kevent after which its description has nothing to read. */
  lemma FlagReached(fd: int, w: World)
    requires fd >= 0 && w.described == Some(NONE)
    ensures var q := Request(NONE.(input := true), false, false, false, 0);
      var added := Registered(NewNode(fd, Kqueue, q), GRANTED);
      var d := Delivery(fd, Kev(Read, false, false, false, 1), w, GRANTED);
      && added.1 && Ready(map[fd := added.0]) && SensibleInput(map[fd := added.0], Input([d], []))
      && Again(PassOf(map[fd := added.0], Input([d], []), 1))
      && PassOf(map[fd := added.0], Input([d], []), 1).nodes[fd].result.gotRead
  {
    var q := Request(NONE.(input := true), false, false, false, 0);
    var n := Registered(NewNode(fd, Kqueue, q), GRANTED).0;
    var d := Delivery(fd, Kev(Read, false, false, false, 1), w, GRANTED);
    var nodes := map[fd := n];
    assert n.hooks.read && Fit(n) && Rests(n);
    assert Tag(d) in ArmedFilters(nodes);
    assert [d][1..] == [];
    assert Fired(ArmedFilters(nodes), [d], 1) == [d];
    var p := PassOf(nodes, Input([d], []), 1);
    assert Residual(n.cfg, p.batch[0].kev, p.batch[0].world);
    PassNode(nodes, Input([d], []), 1, fd);
    NodeResidue(n, fd, p.batch, p.late);
    FlagLeftOver(nodes, Input([d], []), 1, fd);
    assert !Told(n, fd, p.batch, 1) && Listed(nodes, p.batch, 1) == Listed(nodes, p.batch, 0);
  }

  // ---------- An entry without events ----------

  lemma FiredOne(armed: set<(int, Filter)>, d: Delivery, cap: nat)
    requires Tag(d) in armed && cap > 0
    ensures Fired(armed, [d], cap) == [d]
  {
    assert [d][1..] == [];
  }

  /** What only the description told does not count as received from the filter. */
  lemma FoundOnly(n: Node, d: Delivery)
    requires n.cfg.kind.Kqueue? && n.cfg.events == NONE.(output := true) && !n.cfg.translate && n.result == QUIET
    requires d.kev == Kev(Read, false, false, false, 1) && d.world.described == Some(NONE.(output := true))
    requires n.cfg.edge && Fit(n)
    ensures var m := Turn(n, d);
      m.result == QUIET.(revents := NONE.(output := true)) && m.hooks == n.hooks && m.cfg == n.cfg
  {
  }

  lemma EmptyAfter(n: Node, d: Delivery, late: Delivery)
    requires InPass(n, d.fd, [d], [late]) && n.cfg.kind.Kqueue? && Turn(n, d).result.revents != NONE
    requires late.fd == d.fd && Bare(n.cfg, late.world)
    ensures Told(n, d.fd, [d], 1) && Last(n, d.fd, [d], [late]).result.revents == NONE
  {
    KqueueMid(n, d.fd, [d], 0);
    KqueueDelivered(n, d.fd, [d], [late], 0);
    assert [late][0] == late;
  }

  /** An edge-triggered kqueue that is to report EPOLLOUT. */
  predicate WantsOutput(n: Node, fd: int) {
    && fd >= 0 && n.cfg == Config(fd, 0, Kqueue, NONE.(output := true), false, true, false)
    && n.hooks == UNHOOKED.(read := true) && !Eof(n.seen) && n.result == QUIET
  }

  lemma EmptyPass(nodes: Nodes, fd: int, d: Delivery, late: Delivery)
    requires nodes.Keys == {fd} && WantsOutput(nodes[fd], fd) && d.fd == late.fd == fd
    requires d.kev == late.kev == Kev(Read, false, false, false, 1)
    requires d.world.described == Some(NONE.(output := true)) && late.world.described == Some(NONE)
    ensures Ready(nodes) && SensibleInput(nodes, Input([d], [late]))
    ensures var p := PassOf(nodes, Input([d], [late]), 3);
      fd in p.listed && fd in p.last && EntryFor(p.last[fd]).events == NONE
  {
    var (n, input) := (nodes[fd], Input([d], [late]));
    var p := PassOf(nodes, input, 3);
    assert Tag(d) in ArmedFilters(nodes);
    FiredOne(ArmedFilters(nodes), d, 3);
    PassNode(nodes, input, 3, fd);
    KqueueMid(n, fd, p.batch, 0);
    FoundOnly(n, d);
    assert Tag(late) in Asking(p.mid, p.listed, |p.batch| == 3);
    FiredOne(Asking(p.mid, p.listed, |p.batch| == 3), late, 1);
    EmptyAfter(n, d, late);
  }

  /** It is reached: the event of such a kqueue, just added, finds EPOLLOUT, and completion does not any more. */
  lemma EmptyEntryReached(fd: int, w: World, w': World)
    requires fd >= 0 && w.described == Some(NONE.(output := true)) && w'.described == Some(NONE)
    ensures var q := Request(NONE.(output := true), true, false, false, 0);
      var added := Registered(NewNode(fd, Kqueue, q), GRANTED);
      var k := Kev(Read, false, false, false, 1);
      var input := Input([Delivery(fd, k, w, GRANTED)], [Delivery(fd, k, w', GRANTED)]);
      && !Refused(q) && added.1 && Ready(map[fd := added.0]) && SensibleInput(map[fd := added.0], input)
      && var p := PassOf(map[fd := added.0], input, 3);
         fd in p.listed && fd in p.last && EntryFor(p.last[fd]).events == NONE
  {
    var q := Request(NONE.(output := true), true, false, false, 0);
    var n := Registered(NewNode(fd, Kqueue, q), GRANTED).0;
    var k := Kev(Read, false, false, false, 1);
    EmptyPass(map[fd := n], fd, Delivery(fd, k, w, GRANTED), Delivery(fd, k, w', GRANTED));
  }

  // ---------- The passes of a wait ----------

  /** The pass that does not jump back, or the last one for which there is input. */
  function LastPass(nodes: Nodes, inputs: seq<Input>, cap: nat): Pass
    requires inputs != []
    decreases |inputs|
  {
    var p := PassOf(nodes, inputs[0], cap);
    if Again(p) && |inputs| > 1 then LastPass(p.nodes, inputs[1..], cap) else p
  }

  predicate SensibleInputs(nodes: Nodes, inputs: seq<Input>) {
    forall i :: 0 <= i < |inputs| ==> SensibleInput(nodes, inputs[i])
  }

  /** What is sensible stays so, since no pass changes what is registered. */
  lemma StaysSensible(nodes: Nodes, inputs: seq<Input>, cap: nat)
    requires Ready(nodes) && SensibleInputs(nodes, inputs) && inputs != []
    ensures SensibleInputs(PassOf(nodes, inputs[0], cap).nodes, inputs[1..])
  {
    PassReady(nodes, inputs[0], cap);
    var next := PassOf(nodes, inputs[0], cap).nodes;
    forall i | 0 <= i < |inputs[1..]|
      ensures SensibleInput(next, inputs[1..][i])
    {
      assert SensibleInput(nodes, inputs[i + 1]);
      SensibleFrame(nodes, next, inputs[i + 1].happening);
      SensibleFrame(nodes, next, inputs[i + 1].later);
    }
  }

  lemma SensibleFrame(nodes: Nodes, next: Nodes, happening: seq<Delivery>)
    requires Sensible(nodes, happening) && forall fd :: fd in next ==> fd in nodes && next[fd].cfg == nodes[fd].cfg
    ensures Sensible(next, happening)
  {
  }

  /** The passes before the last one jump back; it starts with what they leave. */
  lemma {:induction false} LastPassStarts(nodes: Nodes, inputs: seq<Input>, cap: nat) returns (start: Nodes, i: nat)
    requires Ready(nodes) && SensibleInputs(nodes, inputs) && inputs != []
    ensures i < |inputs| && Ready(start) && SensibleInput(start, inputs[i]) && start.Keys == nodes.Keys
    ensures LastPass(nodes, inputs, cap) == PassOf(start, inputs[i], cap)
    ensures Again(LastPass(nodes, inputs, cap)) ==> i == |inputs| - 1
    ensures forall fd :: fd in nodes ==> start[fd].cfg == nodes[fd].cfg
    ensures forall fd :: fd in nodes && nodes[fd].cfg.kind.Socket? && Hup(start[fd].seen) ==> Hup(nodes[fd].seen)
    decreases |inputs|
  {
    var p := PassOf(nodes, inputs[0], cap);
    if Again(p) && |inputs| > 1 {
      PassReady(nodes, inputs[0], cap);
      StaysSensible(nodes, inputs, cap);
      start, i := LastPassStarts(p.nodes, inputs[1..], cap);
      i := i + 1;
      forall fd | fd in nodes && nodes[fd].cfg.kind.Socket? && Hup(start[fd].seen)
        ensures Hup(nodes[fd].seen)
      {
        if !Hup(nodes[fd].seen) {
          HangupsReported(nodes, inputs[0], cap, fd);
        }
      }
    } else {
      start, i := nodes, 0;
    }
  }

  lemma {:induction false} OneShotPasses(nodes: Nodes, inputs: seq<Input>, cap: nat, fd: int)
    requires Ready(nodes) && SensibleInputs(nodes, inputs) && inputs != []
    requires fd in nodes && nodes[fd].hooks == UNHOOKED
    ensures var p := LastPass(nodes, inputs, cap); fd !in p.listed && fd in p.nodes && p.nodes[fd] == nodes[fd]
    decreases |inputs|
  {
    var p := PassOf(nodes, inputs[0], cap);
    OneShotPass(nodes, inputs[0], cap, fd);
    PassReady(nodes, inputs[0], cap);
    if Again(p) && |inputs| > 1 {
      StaysSensible(nodes, inputs, cap);
      OneShotPasses(p.nodes, inputs[1..], cap, fd);
    }
  }

  /** A wait, or a call that changes registrations. */
  datatype Call = Waiting(polled: seq<(int, Mask)>, inputs: seq<Input>, cap: nat) | Changing(next: Nodes)

  /** The pass a wait ends with. */
  function PassIn(nodes: Nodes, call: Call): Pass
    requires call.Waiting? && call.inputs != []
  {
    LastPass(Swept(nodes, call.polled), call.inputs, call.cap)
  }

  /** Calls that leave the registration of fd alone. */
  ghost predicate Calls(nodes: Nodes, calls: seq<Call>, fd: int)
    decreases |calls|
  {
    calls != [] ==>
      match calls[0]
      case Waiting(polled, inputs, _) =>
        && Polled(nodes, polled) && inputs != [] && SensibleInputs(nodes, inputs)
        && Calls(PassIn(nodes, calls[0]).nodes, calls[1..], fd)
      case Changing(next) =>
        Ready(next) && fd in nodes && fd in next && next[fd] == nodes[fd] && Calls(next, calls[1..], fd)
  }

  /** None of the waits reports fd. */
  ghost predicate NeverListed(nodes: Nodes, calls: seq<Call>, fd: int)
    requires Calls(nodes, calls, fd)
    decreases |calls|
  {
    calls != [] ==>
      match calls[0]
      case Waiting(_, _, _) =>
        fd !in PassIn(nodes, calls[0]).listed && NeverListed(PassIn(nodes, calls[0]).nodes, calls[1..], fd)
      case Changing(next) => NeverListed(next, calls[1..], fd)
  }

  lemma OneShotWait(nodes: Nodes, call: Call, fd: int)
    requires Ready(nodes) && fd in nodes && nodes[fd].hooks == UNHOOKED
    requires call.Waiting? && Polled(nodes, call.polled) && call.inputs != [] && SensibleInputs(nodes, call.inputs)
    ensures var p := PassIn(nodes, call);
      Ready(p.nodes) && fd !in p.listed && fd in p.nodes && p.nodes[fd] == nodes[fd]
  {
    var swept := Swept(nodes, call.polled);
    SweptReady(nodes, call.polled);
    SweptSensible(nodes, call.polled, call.inputs);
    SweptAt(nodes, call.polled, fd);
    OneShotPasses(swept, call.inputs, call.cap, fd);
    var start, i := LastPassStarts(swept, call.inputs, call.cap);
    PassReady(start, call.inputs[i], call.cap);
  }

  /** Until it is changed a one-shot registration is not reported again, in any run of waits and changes to others. */
  lemma {:induction false} OneShotOnce(nodes: Nodes, calls: seq<Call>, fd: int)
    requires Ready(nodes) && fd in nodes && nodes[fd].hooks == UNHOOKED && Calls(nodes, calls, fd)
    ensures NeverListed(nodes, calls, fd)
    decreases |calls|
  {
    if calls != [] {
      match calls[0]
      case Waiting(_, _, _) =>
        OneShotWait(nodes, calls[0], fd);
        OneShotOnce(PassIn(nodes, calls[0]).nodes, calls[1..], fd);
      case Changing(next) =>
        OneShotOnce(next, calls[1..], fd);
    }
  }

  /** No batch is full, and the kernel registers the filters of fd again when asked to. */
  ghost predicate EasyPasses(nodes: Nodes, inputs: seq<Input>, cap: nat, fd: int)
    requires fd in nodes
    decreases |inputs|
  {
    inputs != [] ==>
      var p := PassOf(nodes, inputs[0], cap);
      && |p.batch| < cap && Accepts(nodes[fd], fd, p.batch)
      && (Again(p) && fd in p.nodes ==> EasyPasses(p.nodes, inputs[1..], cap, fd))
  }

  /** So over all passes a level-triggered registration keeps the filters it needs. */
  lemma {:induction false} WaitLevelStays(nodes: Nodes, inputs: seq<Input>, cap: nat, fd: int)
    requires Ready(nodes) && SensibleInputs(nodes, inputs) && inputs != []
    requires fd in nodes && Hooked(nodes[fd]) && !nodes[fd].cfg.edge && EasyPasses(nodes, inputs, cap, fd)
    ensures var p := LastPass(nodes, inputs, cap); fd in p.nodes && Hooked(p.nodes[fd])
    decreases |inputs|
  {
    var p := PassOf(nodes, inputs[0], cap);
    LevelStays(nodes, inputs[0], cap, fd);
    PassReady(nodes, inputs[0], cap);
    if Again(p) && |inputs| > 1 {
      StaysSensible(nodes, inputs, cap);
      WaitLevelStays(p.nodes, inputs[1..], cap, fd);
    }
  }

  /** Over all passes no hangup is lost: one that is new since the wait began is in the entries it ends with. */
  lemma WaitReportsHangups(nodes: Nodes, inputs: seq<Input>, cap: nat, fd: int)
    requires Ready(nodes) && SensibleInputs(nodes, inputs) && inputs != []
    requires fd in nodes && nodes[fd].cfg.kind.Socket? && fd in LastPass(nodes, inputs, cap).nodes
    requires Hup(LastPass(nodes, inputs, cap).nodes[fd].seen) && !Hup(nodes[fd].seen)
    ensures SaysHup(LastPass(nodes, inputs, cap), fd)
  {
    var start, i := LastPassStarts(nodes, inputs, cap);
    HangupsReported(start, inputs[i], cap, fd);
  }

  /** The kernel is benign in every pass that is made. */
  ghost predicate BenignPasses(nodes: Nodes, inputs: seq<Input>, cap: nat)
    decreases |inputs|
  {
    inputs != [] ==>
      var p := PassOf(nodes, inputs[0], cap);
      BenignKernel(nodes, p) && (Again(p) ==> BenignPasses(p.nodes, inputs[1..], cap))
  }

  lemma {:induction false} WaitStaysOnWatch(nodes: Nodes, inputs: seq<Input>, cap: nat)
    requires Ready(nodes) && SensibleInputs(nodes, inputs) && inputs != [] && AllWatched(nodes)
    requires BenignPasses(nodes, inputs, cap)
    ensures var p := LastPass(nodes, inputs, cap);
      && AllWatched(p.nodes)
      && forall fd :: fd in nodes && StaysOn(nodes[fd], fd in p.listed) ==> fd in p.nodes && Armed(p.nodes[fd].hooks)
    decreases |inputs|
  {
    var p := PassOf(nodes, inputs[0], cap);
    StaysOnWatch(nodes, inputs[0], cap);
    PassReady(nodes, inputs[0], cap);
    if Again(p) && |inputs| > 1 {
      StaysSensible(nodes, inputs, cap);
      WaitStaysOnWatch(p.nodes, inputs[1..], cap);
    }
  }

  /** A call that is not cut off returns every registered or triggered filter that something happens to. */
  lemma {:induction false} FiredAll(armed: set<(int, Filter)>, happening: seq<Delivery>, cap: nat, i: nat)
    returns (x: nat)
    requires i < |happening| && Tag(happening[i]) in armed
    requires |Fired(armed, happening, cap)| < cap || |happening| <= cap
    ensures x < |Fired(armed, happening, cap)| && Tag(Fired(armed, happening, cap)[x]) == Tag(happening[i])
    decreases |happening|
  {
    var d := happening[0];
    if Tag(d) !in armed {
      x := FiredAll(armed, happening[1..], cap, i - 1);
    } else if Tag(happening[i]) == Tag(d) {
      x := 0;
    } else {
      x := FiredAll(armed - {Tag(d)}, happening[1..], cap - 1, i - 1);
      x := x + 1;
    }
  }

  /** It is for a filter of a registration, or the trigger of a registration or of the instance. */
  predicate CanFire(nodes: Nodes, d: Delivery) {
    if d.fd == SELF then d.kev.filter.User? else d.fd in nodes && Possible(nodes[d.fd].hooks, d.kev)
  }

  /** So with an array that covers all registrations, whatever happens to a filter is in the batch. */
  lemma BatchHasAll(nodes: Nodes, input: Input, cnt: int, i: nat) returns (x: nat)
    requires Ready(nodes) && SensibleInput(nodes, input) && cnt >= |nodes| && BatchSize(cnt, |nodes|).Some?
    requires i < |input.happening| && CanFire(nodes, input.happening[i])
    ensures var p := PassOf(nodes, input, BatchSize(cnt, |nodes|).value);
      x < |p.batch| && Tag(p.batch[x]) == Tag(input.happening[i])
  {
    var cap := BatchSize(cnt, |nodes|).value;
    assert Tag(input.happening[i]) in ArmedFilters(nodes);
    FiredDelivered(nodes, input.happening, cap);
    BatchFits(nodes, Fired(ArmedFilters(nodes), input.happening, cap), cnt);
    x := FiredAll(ArmedFilters(nodes), input.happening, cap, i);
  }

  /** From one pass to the next. */
  lemma PassOn(nodes: Nodes, inputs: seq<Input>, i: nat, cap: nat)
    requires Ready(nodes) && i < |inputs| && SensibleInputs(nodes, inputs[i..])
    ensures var p := PassOf(nodes, inputs[i], cap);
      && SensibleInput(nodes, inputs[i]) && Ready(p.nodes) && |p.nodes| == |nodes|
      && SensibleInputs(p.nodes, inputs[i + 1..])
      && LastPass(nodes, inputs[i..], cap) ==
           if Again(p) && i + 1 < |inputs| then LastPass(p.nodes, inputs[i + 1..], cap) else p
  {
    assert inputs[i..][0] == inputs[i] && inputs[i..][1..] == inputs[i + 1..];
    PassReady(nodes, inputs[i], cap);
    StaysSensible(nodes, inputs[i..], cap);
    var p := PassOf(nodes, inputs[i], cap);
    assert |nodes| == |nodes.Keys| && |p.nodes| == |p.nodes.Keys|;
  }

  // ---------- The sizes ----------

  const INT_MAX := 0x7fff_ffff

  /** How many kevents a wait asks for, or None for ENOMEM. */
  function BatchSize(cnt: int, registered: nat): Option<int> {
    if cnt < registered then Some(cnt)
    else if cnt + 1 > INT_MAX || (cnt + 1) * 3 > INT_MAX then None
    else Some((cnt + 1) * 3)
  }

  function Keys(batch: seq<Delivery>): set<(int, Filter)> {
    set x | 0 <= x < |batch| :: (batch[x].fd, batch[x].kev.filter)
  }

  lemma {:induction false} KeysSize(batch: seq<Delivery>)
    requires Distinct(batch)
    ensures |Keys(batch)| == |batch|
  {
    if batch == [] {
      assert Keys(batch) == {};
    } else {
      var n := |batch| - 1;
      KeysSize(batch[..n]);
      assert Keys(batch) == Keys(batch[..n]) + {(batch[n].fd, batch[n].kev.filter)};
    }
  }

  function Tagged(fds: set<int>, filter: Filter): set<(int, Filter)> {
    set fd | fd in fds :: (fd, filter)
  }

  lemma Pick<T>(s: set<T>) returns (x: T)
    requires |s| > 0
    ensures x in s
  {
    x :| x in s;
  }

  lemma {:induction false} TaggedSize(fds: set<int>, filter: Filter)
    ensures |Tagged(fds, filter)| == |fds|
  {
    if |fds| == 0 {
      assert Tagged(fds, filter) == {};
    } else {
      var fd := Pick(fds);
      TaggedSize(fds - {fd}, filter);
      assert (fd, filter) !in Tagged(fds - {fd}, filter);
      assert Tagged(fds, filter) == Tagged(fds - {fd}, filter) + {(fd, filter)};
    }
  }

  /** With room for all registrations, no batch is ever cut off. */
  lemma BatchFits(nodes: Nodes, batch: seq<Delivery>, cnt: int)
    requires Delivered(nodes, batch) && cnt >= |nodes| && BatchSize(cnt, |nodes|).Some?
    ensures |batch| < BatchSize(cnt, |nodes|).value
  {
    KeysSize(batch);
    TaggedSize(nodes.Keys, Read);
    TaggedSize(nodes.Keys, Write);
    TaggedSize(nodes.Keys, User);
    var all := Tagged(nodes.Keys, Read) + Tagged(nodes.Keys, Write) + Tagged(nodes.Keys, User) + {(SELF, User)};
    forall p | p in Keys(batch)
      ensures p in all
    {
    }
    SubsetSize(Keys(batch), all);
  }

  lemma {:induction false} SubsetSize<T>(a: set<T>, b: set<T>)
    requires a <= b
    ensures |a| <= |b|
  {
    if x :| x in a {
      SubsetSize(a - {x}, b - {x});
    }
  }

  /** As many different registrations as entries. */
  lemma {:induction false} DistinctSize(s: seq<int>, fds: set<int>)
    requires DistinctInts(s) && forall x :: x in s ==> x in fds
    ensures |s| <= |fds|
  {
    if s != [] {
      var n := |s| - 1;
      assert s[n] in s;
      assert s[n] in fds;
      forall x | x in s[..n]
        ensures x in fds - {s[n]}
      {
        var y :| 0 <= y < n && s[y] == x;
        assert s[y] != s[n];
      }
      DistinctSize(s[..n], fds - {s[n]});
    }
  }

  // ---------- The loops ----------

  /** A turn of the first loop for the whole instance. */
  lemma DigestedStep(nodes: Nodes, batch: seq<Delivery>, i: nat)
    requires i < |batch|
    ensures var (was, fd) := (Digested(nodes, batch, i), batch[i].fd);
      Digested(nodes, batch, i + 1) == if fd in nodes then was[fd := Turn(was[fd], batch[i])] else was
  {
  }

  lemma DigestionStarts(nodes: Nodes, batch: seq<Delivery>)
    ensures Digested(nodes, batch, 0) == nodes && Listed(nodes, batch, 0) == []
  {
  }

  lemma CompletionStarts(nodes: Nodes, late: seq<Delivery>)
    ensures Completed(nodes, late, 0) == nodes
  {
  }

  /** What completion needs to know of the nodes and of its events. */
  ghost predicate AllAsked(nodes: Nodes, late: seq<Delivery>) {
    && (forall x :: 0 <= x < |late| ==> late[x].fd in nodes)
    && (forall fd :: fd in nodes ==> Fit(nodes[fd]) && Modest(nodes[fd]) && Asked(nodes[fd], fd, late))
  }

  lemma CompletedStep(nodes: Nodes, late: seq<Delivery>, i: nat)
    requires i < |late|
    ensures var (was, d) := (Completed(nodes, late, i), late[i]);
      Completed(nodes, late, i + 1) ==
        if d.fd in nodes then was[d.fd := Feed(was[d.fd], d.kev, d.world)] else was
  {
  }

  // ---------- The poll-only list ----------

  /** A triggered EVFILT_USER event waits in the kqueue. */
  function Triggered(n: Node): Node {
    n.(hooks := n.hooks.(triggered := true))
  }

  /** One result of poll for each node of the poll-only list. */
  ghost predicate Polled(nodes: Nodes, polled: seq<(int, Mask)>) {
    && (forall x, y :: 0 <= x < y < |polled| ==> polled[x].0 != polled[y].0)
    && (forall x :: 0 <= x < |polled| ==> polled[x].0 in nodes && nodes[polled[x].0].hooks.listed)
  }

  function Swept(nodes: Nodes, polled: seq<(int, Mask)>): Nodes
    decreases |polled|
  {
    if polled == [] then nodes
    else
      var (fd, revents) := polled[0];
      var next := if fd !in nodes then nodes
                  else if revents.nval then nodes - {fd}
                  else if revents != NONE then nodes[fd := Triggered(nodes[fd])]
                  else nodes;
      Swept(next, polled[1..])
  }

  lemma SweptOnce(nodes: Nodes, polled: seq<(int, Mask)>)
    requires Polled(nodes, polled) && polled != []
    ensures var (fd, revents) := polled[0];
      var next := if revents.nval then nodes - {fd}
                  else if revents != NONE then nodes[fd := Triggered(nodes[fd])]
                  else nodes;
      fd in nodes && Polled(next, polled[1..]) && Swept(next, polled[1..]) == Swept(nodes, polled)
  {
    assert forall x :: 0 < x < |polled| ==> polled[x].0 != polled[0].0;
  }

  /** What poll says of a node decides what becomes of it. */
  predicate SweptTo(nodes: Nodes, swept: Nodes, fd: int, revents: Mask) {
    fd in nodes &&
    if revents.nval then fd !in swept
    else
      fd in swept && swept[fd].(hooks := nodes[fd].hooks) == nodes[fd]
      && swept[fd].hooks == if revents != NONE then nodes[fd].hooks.(triggered := true) else nodes[fd].hooks
  }

  /** Nodes that poll finds invalid go, others with events are triggered, and nothing else changes. */
  lemma {:induction false} SweptAt(nodes: Nodes, polled: seq<(int, Mask)>, fd: int)
    requires Polled(nodes, polled)
    ensures forall x :: 0 <= x < |polled| && polled[x].0 == fd ==>
      SweptTo(nodes, Swept(nodes, polled), fd, polled[x].1)
    ensures (forall x :: 0 <= x < |polled| ==> polled[x].0 != fd) ==>
      (fd in Swept(nodes, polled) <==> fd in nodes) && (fd in nodes ==> Swept(nodes, polled)[fd] == nodes[fd])
    decreases |polled|
  {
    if polled != [] {
      SweptOnce(nodes, polled);
      var (first, revents) := polled[0];
      var next := if revents.nval then nodes - {first}
                  else if revents != NONE then nodes[first := Triggered(nodes[first])]
                  else nodes;
      SweptAt(next, polled[1..], fd);
      assert forall x :: 0 <= x < |polled[1..]| ==> polled[1..][x] == polled[x + 1];
      assert forall x :: 0 < x < |polled| ==> polled[x] == polled[1..][x - 1] && polled[x].0 != first;
    }
  }

  /** Sweeping drops nodes and triggers poll-only ones, and that is all. */
  lemma {:induction false} SweptReady(nodes: Nodes, polled: seq<(int, Mask)>)
    requires Ready(nodes) && Polled(nodes, polled)
    ensures Ready(Swept(nodes, polled)) && (AllWatched(nodes) ==> AllWatched(Swept(nodes, polled)))
    ensures forall fd :: fd in Swept(nodes, polled) ==> fd in nodes && Swept(nodes, polled)[fd].cfg == nodes[fd].cfg
    decreases |polled|
  {
    if polled != [] {
      SweptOnce(nodes, polled);
      var (fd, revents) := polled[0];
      assert Fit(nodes[fd]) && nodes[fd].hooks.listed;
      if revents.nval {
        SweptReady(nodes - {fd}, polled[1..]);
      } else if revents != NONE {
        SweptReady(nodes[fd := Triggered(nodes[fd])], polled[1..]);
      } else {
        SweptReady(nodes, polled[1..]);
      }
    }
  }

  /** What is sensible stays so when nodes are dropped or triggered. */
  lemma SweptSensible(nodes: Nodes, polled: seq<(int, Mask)>, inputs: seq<Input>)
    requires Ready(nodes) && Polled(nodes, polled) && SensibleInputs(nodes, inputs)
    ensures SensibleInputs(Swept(nodes, polled), inputs)
  {
    SweptReady(nodes, polled);
    forall i | 0 <= i < |inputs|
      ensures SensibleInput(Swept(nodes, polled), inputs[i])
    {
      assert SensibleInput(nodes, inputs[i]);
      SensibleFrame(nodes, Swept(nodes, polled), inputs[i].happening);
      SensibleFrame(nodes, Swept(nodes, polled), inputs[i].later);
    }
  }

  // ---------- The epoll instance ----------

  datatype CtlOp = Add | Del | Mod | Unknown

  datatype Stat = Missing | Unusable | Is(kind: Kind)

  /** Success, an error that leaves the node out, or an error that changes nothing. */
  datatype CtlResult = Done | Gone | Stays

  const UNSEEN := Seen(false, false, false)

  function NewNode(fd: int, kind: Kind, q: Request): Node {
    Node(Configured(fd, kind, q), UNHOOKED, UNSEEN, QUIET)
  }

  function Changed(n: Node, fd: int, q: Request): Node {
    n.(cfg := Configured(fd, n.cfg.kind, q))
  }

  /** The flags are those of the request; only sockets have EPOLLPRI and EPOLLRDHUP, whose 0x2000 is Linux's. */
  predicate AsAsked(c: Config, fd: int, q: Request) {
    var (asked, socket) := (q.events, c.kind.Socket?);
    && c.fd == fd && c.data == q.data
    && c.oneshot == q.oneshot && c.edge == (q.edge || q.oneshot) && c.translate == asked.linux
    && c.events == NONE.(input := asked.input, output := asked.output,
                         pri := socket && asked.pri, rdhup := socket && (asked.rdhup || asked.linux))
  }

  /** A device may turn out to support poll only. */
  predicate OfKind(kind: Kind, stat: Kind) {
    kind == stat || (stat.Other? && kind.Poll?)
  }

  lemma ConfiguresAsAsked(n: Node, fd: int, kind: Kind, q: Request)
    requires Configures(n, fd, kind, q)
    ensures AsAsked(n.cfg, fd, q) && OfKind(n.cfg.kind, kind)
  {
  }

  /** The node has the flags of the request, as far as its kind supports them; a device may turn out poll-only. */
  predicate Configures(n: Node, fd: int, kind: Kind, q: Request) {
    var c := Supported(Configured(fd, kind, q));
    n.cfg == c || (kind.Other? && n.cfg == c.(kind := Poll))
  }

  /** Only a FIFO that turned out to have no readers changes what was seen. */
  predicate KeepsSeen(n: Node, s: Seen, v: Verdict) {
    n.seen == if n.cfg.kind.Fifo? && ListensWrite(n.cfg, s) && v.write.Epipe? then Seen(true, true, s.pri) else s
  }

  lemma RegisteredRests(n: Node, v: Verdict)
    requires Rests(n) && Registered(n, v).1
    ensures Rests(Registered(n, v).0)
  {
  }

  /** It has the filters it needs, unless it is a FIFO without readers, and a socket is on watch. */
  predicate Listens(n: Node, v: Verdict) {
    && (!(n.cfg.kind.Fifo? && v.write.Epipe?) ==> Hooked(n))
    && Watched(n) && (n.cfg.kind.Socket? ==> Armed(n.hooks))
  }

  lemma Entered(n: Node, fd2: int, q: Request, v: Verdict)
    requires n.cfg == Configured(fd2, n.cfg.kind, q) && Rests(n) && Registered(n, v).1
    requires n.cfg.kind.Fifo? ==> n.cfg.kind.readable || n.cfg.kind.writable
    requires (n.cfg.kind.Kqueue? ==> !Eof(n.seen)) && (n.cfg.kind.Poll? ==> !Armed(n.hooks))
    ensures var m := Registered(n, v).0;
      && Fit(m) && Rests(m) && m.cfg.fd == fd2 && Listens(m, v)
      && AsAsked(m.cfg, fd2, q) && OfKind(m.cfg.kind, n.cfg.kind) && KeepsSeen(m, n.seen, v)
  {
    ConfiguredValid(fd2, n.cfg.kind, q);
    RegisteredNew(fd2, n.cfg.kind, q, n, v);
    RegisteredRests(n, v);
    EnteredWhat(n, fd2, q, v);
    if !(n.cfg.kind.Fifo? && v.write.Epipe?) {
      RegisteredHooked(n, v);
    }
  }

  lemma EnteredWhat(n: Node, fd2: int, q: Request, v: Verdict)
    requires n.cfg == Configured(fd2, n.cfg.kind, q) && Valid(Supported(n.cfg)) && Registered(n, v).1
    ensures var m := Registered(n, v).0;
      AsAsked(m.cfg, fd2, q) && OfKind(m.cfg.kind, n.cfg.kind) && KeepsSeen(m, n.seen, v)
  {
    RegisteredWhat(n, v);
    ConfiguresAsAsked(Registered(n, v).0, fd2, n.cfg.kind, q);
  }

  class EpollFD {
    var nodes: Nodes

    ghost predicate Valid()
      reads this
    {
      Ready(nodes)
    }

    constructor ()
      ensures Valid() && nodes == map[]
    {
      nodes := map[];
    }

    /** The entries of ev point to the listed nodes. */
    ghost predicate Points(ev: array<Entry>, j: nat, listed: seq<int>)
      reads ev
    {
      j == |listed| <= ev.Length && forall x :: 0 <= x < j ==> ev[x].data == listed[x]
    }

    /** The first loop of epollfd_ctx_wait; each entry holds a pointer to its node. */
    method Collect(batch: seq<Delivery>, ev: array<Entry>) returns (j: nat)
      requires Valid() && Delivered(nodes, batch)
      requires |batch| <= ev.Length || |nodes| <= ev.Length
      modifies this, ev
      ensures nodes == Digested(old(nodes), batch, |batch|)
      ensures Points(ev, j, Listed(old(nodes), batch, |batch|))
    {
      ghost var was := nodes;
      ghost var listed := [];
      j := 0;
      DigestionStarts(nodes, batch);
      for i := 0 to |batch|
        invariant nodes == Digested(was, batch, i)
        invariant listed == Listed(was, batch, i) && Points(ev, j, listed)
      {
        j, listed := Take(batch, i, ev, j, was, listed);
      }
    }

    /** One turn of that loop: its node, and the entry if it is news. */
    method Take(batch: seq<Delivery>, i: nat, ev: array<Entry>, j0: nat, ghost was: Nodes, ghost listed: seq<int>)
      returns (j: nat, ghost next: seq<int>)
      requires Ready(was) && Delivered(was, batch) && i < |batch| && nodes == Digested(was, batch, i)
      requires listed == Listed(was, batch, i) && Points(ev, j0, listed)
      requires |batch| <= ev.Length || |was| <= ev.Length
      modifies this, ev
      ensures nodes == Digested(was, batch, i + 1) && next == Listed(was, batch, i + 1) && Points(ev, j, next)
    {
      var isNew;
      isNew, next := Handle(batch, i, ev.Length, was, listed);
      j := j0;
      if isNew {
        Point(ev, j, listed, batch[i].fd);
        j := j + 1;
      }
    }

    /** The next entry points to its node. */
    method Point(ev: array<Entry>, j: nat, ghost listed: seq<int>, fd: int)
      requires Points(ev, j, listed) && j < ev.Length
      modifies ev
      ensures Points(ev, j + 1, listed + [fd])
    {
      ev[j] := ev[j].(data := fd);
    }

    /** The node digests its event; has it become news?  Then there is an entry left for it. */
    method Handle(batch: seq<Delivery>, i: nat, cnt: nat, ghost was: Nodes, ghost listed: seq<int>)
      returns (isNew: bool, ghost next: seq<int>)
      requires Ready(was) && Delivered(was, batch) && i < |batch| && nodes == Digested(was, batch, i)
      requires listed == Listed(was, batch, i) && (|batch| <= cnt || |was| <= cnt)
      modifies this
      ensures nodes == Digested(was, batch, i + 1) && next == Listed(was, batch, i + 1)
      ensures next == (if isNew then listed + [batch[i].fd] else listed) && |next| <= cnt
    {
      var d := batch[i];
      DigestedStep(was, batch, i);
      var news := ListedStep(was, batch, i);
      next := if news then listed + [d.fd] else listed;
      Room(was, batch, i + 1, cnt);
      if d.fd == SELF {
        assert d.kev.filter.User?;
        return false, next;
      }
      isNew := Feeds(batch, i, was);
    }

    /** feed_event, and registering again where that takes other filters. */
    method Feeds(batch: seq<Delivery>, i: nat, ghost was: Nodes) returns (isNew: bool)
      requires Ready(was) && Delivered(was, batch) && i < |batch| && nodes == Digested(was, batch, i)
      requires batch[i].fd != SELF
      modifies this
      ensures var (d, n) := (batch[i], old(nodes));
        && d.fd in n && nodes == n[d.fd := Turn(n[d.fd], d)] && (isNew <==> IsNews(n[d.fd], nodes[d.fd]))
    {
      var d := batch[i];
      DeliveredOffered(was, batch, d.fd);
      AfterMidway(was[d.fd], d.fd, batch, i);
      var n := nodes[d.fd];
      assert FeedAsserts(n, d.kev, d.world);
      nodes := nodes[d.fd := Turn(n, d)];
      isNew := IsNews(n, nodes[d.fd]);
    }

    /** registered_fds_node_complete. */
    method Complete(late: seq<Delivery>)
      requires AllAsked(nodes, late)
      modifies this
      ensures nodes == Completed(old(nodes), late, |late|)
    {
      ghost var was := nodes;
      CompletionStarts(nodes, late);
      for i := 0 to |late|
        invariant nodes == Completed(was, late, i)
      {
        FeedLate(late, i, was);
      }
    }

    method FeedLate(late: seq<Delivery>, i: nat, ghost was: Nodes)
      requires AllAsked(was, late) && i < |late| && nodes == Completed(was, late, i)
      modifies this
      ensures nodes == Completed(was, late, i + 1)
    {
      var d := late[i];
      LateFit(was[d.fd], d.fd, late, i);
      assert FeedAsserts(nodes[d.fd], d.kev, d.world);
      CompletedStep(was, late, i);
      nodes := nodes[d.fd := Feed(nodes[d.fd], d.kev, d.world)];
    }

    /** The last loop: the entries get their contents, the nodes come to rest. */
    method Report(ev: array<Entry>, j: nat, ghost listed: seq<int>)
      requires Points(ev, j, listed) && DistinctInts(listed)
      requires forall fd :: fd in listed ==> fd in nodes
      modifies this, ev
      ensures nodes == Reported(old(nodes), listed)
      ensures forall x :: 0 <= x < j ==> ev[x] == EntryFor(old(nodes)[listed[x]])
    {
      ghost var was := nodes;
      var i := 0;
      ReportedNone(was, listed[..0]);
      while i < j
        invariant 0 <= i <= j && nodes == Reported(was, listed[..i])
        invariant forall x :: 0 <= x < i ==> ev[x] == EntryFor(was[listed[x]])
        invariant forall x :: i <= x < j ==> ev[x].data == listed[x]
      {
        var fd := ev[i].data;
        assert fd in listed && fd !in listed[..i];
        var n := nodes[fd];
        assert n == was[fd];
        ev[i] := Entry(n.result.revents, n.cfg.data);
        nodes := nodes[fd := Settled(n)];
        ReportedStep(was, listed, i);
        i := i + 1;
      }
      assert listed[..j] == listed;
    }

    /** The loop over the entries that asks for completion. */
    method AskForCompletion(full: bool, ev: array<Entry>, j: nat, ghost listed: seq<int>)
      returns (asked: set<(int, Filter)>)
      requires Points(ev, j, listed) && forall fd :: fd in listed ==> fd in nodes && nodes[fd].cfg.fd == fd
      ensures asked == Asking(nodes, listed, full)
      ensures forall fd, f :: (fd, f) in asked <==>
        fd in listed && (full || nodes[fd].cfg.edge) && Unheard(nodes[fd], f)
    {
      asked := {};
      var i := 0;
      assert listed[..0] == [];
      while i < j
        invariant 0 <= i <= j && asked == Asking(nodes, listed[..i], full)
      {
        var fd := ev[i].data;
        assert fd in listed;
        if full || nodes[fd].cfg.edge {
          asked := asked + Register(nodes[fd]);
        }
        AskingStep(nodes, listed, full, i);
        i := i + 1;
      }
      assert listed[..j] == listed;
      forall fd, f
        ensures (fd, f) in asked <==> fd in listed && (full || nodes[fd].cfg.edge) && Unheard(nodes[fd], f)
      {
        AskingExactly(nodes, listed, full, fd, f);
      }
    }

    /** The first j entries are what pass p reports. */
    ghost predicate Shows(ev: array<Entry>, j: nat, p: Pass)
      reads ev
    {
      j == |p.listed| <= ev.Length &&
      forall x :: 0 <= x < j ==> p.listed[x] in p.last && ev[x] == EntryFor(p.last[p.listed[x]])
    }

    /** One pass from `again` on. */
    method Round(input: Input, cap: nat, ev: array<Entry>) returns (j: nat, again: bool)
      requires Valid() && SensibleInput(nodes, input)
      requires cap <= ev.Length || |nodes| <= ev.Length
      modifies this, ev
      ensures var p := PassOf(old(nodes), input, cap);
        nodes == p.nodes && Shows(ev, j, p) && (again <==> Again(p))
    {
      ghost var p := PassOf(nodes, input, cap);
      PassStart(nodes, input, cap);
      PassMid(nodes, input, cap);
      var batch := Fired(ArmedFilters(nodes), input.happening, cap);
      j := Collect(batch, ev);
      Finish(|batch| == cap, input.later, ev, j, p);
      again := |batch| != 0 && j == 0;
    }

    /** The part of a pass after the first loop. */
    method Finish(full: bool, later: seq<Delivery>, ev: array<Entry>, j: nat, ghost p: Pass)
      requires nodes == p.mid && Points(ev, j, p.listed) && p == Finished(p.batch, p.mid, p.listed, full, later)
      requires DistinctInts(p.listed) && forall fd :: fd in p.listed ==> fd in nodes && nodes[fd].cfg.fd == fd
      requires AllAsked(nodes, p.late)
      modifies this, ev
      ensures nodes == p.nodes && Shows(ev, j, p)
    {
      var asked := AskForCompletion(full, ev, j, p.listed);
      var late := Fired(asked, later, |later|);
      Complete(late);
      Report(ev, j, p.listed);
    }

    /** The loop over the poll-only list after the zero-timeout poll. */
    method Sweep(polled: seq<(int, Mask)>)
      requires Valid() && Polled(nodes, polled)
      modifies this
      ensures Valid() && nodes == Swept(old(nodes), polled)
      ensures AllWatched(old(nodes)) ==> AllWatched(nodes)
    {
      SweptReady(nodes, polled);
      ghost var was := nodes;
      var i := 0;
      while i < |polled|
        invariant 0 <= i <= |polled|
        invariant Polled(nodes, polled[i..]) && Swept(nodes, polled[i..]) == Swept(was, polled)
      {
        var (fd, revents) := polled[i];
        assert polled[i..][0] == polled[i] && polled[i..][1..] == polled[i + 1..];
        SweptOnce(nodes, polled[i..]);
        if revents.nval {
          nodes := nodes - {fd};
        } else if revents != NONE {
          nodes := nodes[fd := Triggered(nodes[fd])];
        }
        i := i + 1;
      }
    }

    /** epollfd_ctx_wait, as far as there is input for its passes; `again` says that it goes on. */
    method Wait(ready: bool, polled: seq<(int, Mask)>, inputs: seq<Input>, ev: array<Entry>)
      returns (r: Option<nat>, again: bool)
      requires Valid() && Polled(nodes, polled) && 1 <= ev.Length && inputs != [] && SensibleInputs(nodes, inputs)
      modifies this, ev
      ensures Valid()
      ensures !ready ==> r == Some(0) && !again && nodes == old(nodes)
      ensures r.None? <==>
        ready && ev.Length >= |Swept(old(nodes), polled)| && 3 * (ev.Length + 1) > INT_MAX
      ensures r.None? ==> nodes == Swept(old(nodes), polled)
      ensures ready && r.Some? ==>
        var swept := Swept(old(nodes), polled);
        var p := LastPass(swept, inputs, BatchSize(ev.Length, |swept|).value);
        nodes == p.nodes && Shows(ev, r.value, p) && (again <==> Again(p))
    {
      again := false;
      if !ready {
        return Some(0), false;
      }
      SweptSensible(nodes, polled, inputs);
      Sweep(polled);
      var size := BatchSize(ev.Length, |nodes|);
      if size.None? {
        return None, false;
      }
      var j;
      j, again := Rounds(inputs, size.value, ev);
      r := Some(j);
    }

    /** The passes of a wait. */
    method Rounds(inputs: seq<Input>, cap: nat, ev: array<Entry>) returns (j: nat, again: bool)
      requires Valid() && inputs != [] && SensibleInputs(nodes, inputs)
      requires cap <= ev.Length || |nodes| <= ev.Length
      modifies this, ev
      ensures Valid()
      ensures var p := LastPass(old(nodes), inputs, cap);
        nodes == p.nodes && Shows(ev, j, p) && (again <==> Again(p))
    {
      ghost var was := nodes;
      ghost var p := PassOf(nodes, inputs[0], cap);
      assert inputs[0..] == inputs;
      PassOn(nodes, inputs, 0, cap);
      j, again := Round(inputs[0], cap, ev);
      var i := 1;
      while again && i < |inputs|
        invariant 1 <= i <= |inputs| && Valid() && |nodes| == |was| && SensibleInputs(nodes, inputs[i..])
        invariant nodes == p.nodes && Shows(ev, j, p) && (again <==> Again(p))
        invariant LastPass(was, inputs, cap) ==
          if again && i < |inputs| then LastPass(nodes, inputs[i..], cap) else p
      {
        p := PassOf(nodes, inputs[i], cap);
        PassOn(nodes, inputs, i, cap);
        j, again := Round(inputs[i], cap, ev);
        i := i + 1;
      }
    }

    /** epollfd_ctx_ctl; what fstat and fcntl tell about fd2 is in `stat`, which is Missing for a negative one. */
    method Ctl(op: CtlOp, kq: int, fd2: int, stat: Stat, q: Request, v: Verdict) returns (r: CtlResult)
      requires Valid() && (fd2 < 0 ==> stat.Missing?)
      requires forall kind :: stat == Is(kind) ==> !kind.Poll?
      modifies this
      ensures Valid() && (AllWatched(old(nodes)) ==> AllWatched(nodes))
      ensures forall fd :: fd != fd2 ==>
        (fd in nodes <==> fd in old(nodes)) && (fd in nodes ==> nodes[fd] == old(nodes)[fd])
      ensures r.Stays? <==>
        || kq == fd2
        || (!op.Del? && (q.unknown || q.events.nval || (q.events.rdhup && q.events.linux)))
        || (!stat.Missing? &&
            match op
            case Add =>
              fd2 in old(nodes) || stat.Unusable? || (stat.kind.Fifo? && !stat.kind.readable && !stat.kind.writable)
            case Unknown => true
            case _ => fd2 !in old(nodes))
      ensures stat.Missing? ==> !r.Done?
      ensures r.Gone? && op.Del? ==> stat.Missing?
      ensures !r.Stays? && !stat.Missing? && op.Add? ==> (r.Done? <==> Registered(NewNode(fd2, stat.kind, q), v).1)
      ensures !r.Stays? && !stat.Missing? && op.Mod? ==>
        (r.Done? <==> Registered(Changed(old(nodes)[fd2], fd2, q), v).1)
      ensures !r.Stays? && !stat.Missing? && v == GRANTED ==> r.Done?
      ensures r.Stays? ==> nodes == old(nodes)
      ensures fd2 in nodes <==> if r.Done? then !op.Del? else r.Stays? && fd2 in old(nodes)
      ensures r.Done? && op.Add? ==>
        && AsAsked(nodes[fd2].cfg, fd2, q) && OfKind(nodes[fd2].cfg.kind, stat.kind)
        && KeepsSeen(nodes[fd2], Seen(false, false, false), v) && Listens(nodes[fd2], v)
      ensures r.Done? && op.Mod? ==>
        && AsAsked(nodes[fd2].cfg, fd2, q) && OfKind(nodes[fd2].cfg.kind, old(nodes)[fd2].cfg.kind)
        && KeepsSeen(nodes[fd2], old(nodes)[fd2].seen, v) && Listens(nodes[fd2], v)
    {
      if kq == fd2 || (!op.Del? && Refused(q)) {
        return Stays;
      }
      if stat.Missing? {
        nodes := nodes - {fd2};
        return Gone;
      }
      match op
      case Add =>
        if fd2 in nodes || stat.Unusable? || (stat.kind.Fifo? && !stat.kind.readable && !stat.kind.writable) {
          return Stays;
        }
        r := Enter(NewNode(fd2, stat.kind, q), fd2, q, v);
      case Del =>
        if fd2 !in nodes {
          return Stays;
        }
        nodes := nodes - {fd2};
        return Done;
      case Mod =>
        if fd2 !in nodes {
          return Stays;
        }
        assert Fit(nodes[fd2]) && Rests(nodes[fd2]);
        r := Enter(Changed(nodes[fd2], fd2, q), fd2, q, v);
      case Unknown =>
        return Stays;
    }

    /** Registering a new or changed node; failing to do so removes it. */
    method Enter(n: Node, fd2: int, q: Request, v: Verdict) returns (r: CtlResult)
      requires Valid() && fd2 >= 0 && n.cfg == Configured(fd2, n.cfg.kind, q) && Rests(n)
      requires n.cfg.kind.Fifo? ==> n.cfg.kind.readable || n.cfg.kind.writable
      requires (n.cfg.kind.Kqueue? ==> !Eof(n.seen)) && (n.cfg.kind.Poll? ==> !Armed(n.hooks))
      modifies this
      ensures Valid() && (AllWatched(old(nodes)) ==> AllWatched(nodes))
      ensures r == (if Registered(n, v).1 then Done else Gone) && (v == GRANTED ==> r.Done?)
      ensures nodes == if r.Done? then old(nodes)[fd2 := Registered(n, v).0] else old(nodes) - {fd2}
      ensures r.Done? ==>
        && AsAsked(nodes[fd2].cfg, fd2, q) && OfKind(nodes[fd2].cfg.kind, n.cfg.kind)
        && KeepsSeen(nodes[fd2], n.seen, v) && Listens(nodes[fd2], v)
    {
      if v == GRANTED {
        GrantedSucceeds(n);
      }
      var (node, ok) := Registered(n, v);
      if ok {
        Entered(n, fd2, q, v);
        nodes := nodes[fd2 := node];
        return Done;
      }
      nodes := nodes - {fd2};
      return Gone;
    }
  }

  /** registered_fds_node_register_for_completion, the filters it adds to the completion kqueue. */
  function Register(n: Node): set<(int, Filter)> {
    (if n.hooks.read && !n.result.gotRead then {(n.cfg.fd, Read)} else {})
    + (if n.hooks.write && !n.result.gotWrite then {(n.cfg.fd, Write)} else {})
  }

  lemma AskingStep(nodes: Nodes, listed: seq<int>, full: bool, i: nat)
    requires i < |listed| && listed[i] in nodes && nodes[listed[i]].cfg.fd == listed[i]
    ensures var n := nodes[listed[i]];
      Asking(nodes, listed[..i + 1], full) ==
        Asking(nodes, listed[..i], full) + if full || n.cfg.edge then Register(n) else {}
  {
    assert listed[..i + 1] == listed[..i] + [listed[i]];
  }

  lemma ReportedNone(nodes: Nodes, listed: seq<int>)
    requires listed == []
    ensures Reported(nodes, listed) == nodes
  {
    forall fd | fd in nodes
      ensures End(nodes[fd], fd in listed) == nodes[fd]
    {
    }
  }

  lemma ReportedStep(nodes: Nodes, listed: seq<int>, i: nat)
    requires i < |listed| && listed[i] in nodes && listed[i] !in listed[..i]
    ensures Reported(nodes, listed[..i + 1]) == Reported(nodes, listed[..i])[listed[i] := Settled(nodes[listed[i]])]
  {
    assert listed[..i + 1] == listed[..i] + [listed[i]];
    forall fd | fd in nodes
      ensures End(nodes[fd], fd in listed[..i + 1]) ==
        if fd == listed[i] then Settled(nodes[fd]) else End(nodes[fd], fd in listed[..i])
    {
    }
  }

  /** There are entries enough for who is listed. */
  lemma Room(nodes: Nodes, batch: seq<Delivery>, i: nat, cnt: int)
    requires Ready(nodes) && Delivered(nodes, batch) && i <= |batch| && (|batch| <= cnt || |nodes| <= cnt)
    ensures |Listed(nodes, batch, i)| <= cnt
  {
    var listed := ListedOnce(nodes, batch, i);
    DistinctSize(listed, nodes.Keys);
  }

  lemma PassStart(nodes: Nodes, input: Input, cap: nat)
    requires Ready(nodes) && SensibleInput(nodes, input)
    ensures var p := PassOf(nodes, input, cap);
      && Delivered(nodes, p.batch) && |p.batch| <= cap && DistinctInts(p.listed)
      && forall fd :: fd in p.listed ==> fd in p.mid
  {
    FiredDelivered(nodes, input.happening, cap);
    PassEntries(nodes, input, cap);
  }

  lemma MidAsked(nodes: Nodes, input: Input, cap: nat, fd: int)
    requires Ready(nodes) && SensibleInput(nodes, input) && fd in nodes
    ensures var p := PassOf(nodes, input, cap); var n := p.mid[fd];
      Fit(n) && Modest(n) && n.cfg.fd == fd && Asked(n, fd, p.late)
  {
    PassNode(nodes, input, cap, fd);
    var p := PassOf(nodes, input, cap);
    AfterMidway(nodes[fd], fd, p.batch, |p.batch|);
  }

  lemma LateKnown(nodes: Nodes, input: Input, cap: nat, x: nat)
    requires x < |PassOf(nodes, input, cap).late|
    ensures var p := PassOf(nodes, input, cap); p.late[x].fd in p.mid
  {
    var p := PassOf(nodes, input, cap);
    assert p.late[x] in p.late;
    AskingPending(p.mid, p.listed, |p.batch| == cap, p.late[x].fd, p.late[x].kev.filter);
  }

  /** In the middle of a pass every node is as completion needs it. */
  lemma PassMid(nodes: Nodes, input: Input, cap: nat)
    requires Ready(nodes) && SensibleInput(nodes, input)
    ensures var p := PassOf(nodes, input, cap);
      AllAsked(p.mid, p.late) && forall fd :: fd in p.mid ==> p.mid[fd].cfg.fd == fd
  {
    var p := PassOf(nodes, input, cap);
    forall fd | fd in p.mid
      ensures Fit(p.mid[fd]) && Modest(p.mid[fd]) && p.mid[fd].cfg.fd == fd && Asked(p.mid[fd], fd, p.late)
    {
      MidAsked(nodes, input, cap, fd);
    }
    forall x | 0 <= x < |p.late|
      ensures p.late[x].fd in p.mid
    {
      LateKnown(nodes, input, cap, x);
    }
  }
}
