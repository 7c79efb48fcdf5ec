/**
 One registration of an epoll instance (src/epollfd_ctx.c): which kqueue
 filters it needs, how it digests one kevent, and how it is (re-)registered.
 Build: EVFILT_USER defined, EVFILT_EXCEPT not defined, EPOLLRDHUP other
 than Linux's 0x2000.
 */
module EpollNode {
  import opened Options

  /** A set of EPOLL* or POLL* bits; linux stands for 0x2000. */
  datatype Mask = Mask(
    input: bool, pri: bool, output: bool, err: bool, hup: bool, nval: bool, rdhup: bool, linux: bool)

  const NONE := Mask(false, false, false, false, false, false, false, false)

  function Or(a: Mask, b: Mask): Mask {
    Mask(a.input || b.input, a.pri || b.pri, a.output || b.output, a.err || b.err,
         a.hup || b.hup, a.nval || b.nval, a.rdhup || b.rdhup, a.linux || b.linux)
  }

  function And(a: Mask, b: Mask): Mask {
    Mask(a.input && b.input, a.pri && b.pri, a.output && b.output, a.err && b.err,
         a.hup && b.hup, a.nval && b.nval, a.rdhup && b.rdhup, a.linux && b.linux)
  }

  datatype Kind = Fifo(readable: bool, writable: bool) | Socket | Kqueue | Other | Poll

  /** What epoll_ctl set. */
  datatype Config = Config(
    fd: int, data: int, kind: Kind, events: Mask, translate: bool, edge: bool, oneshot: bool)

  /** Filters in the kqueue, a triggered EVFILT_USER event there, and the poll-only list. */
  datatype Hooks = Hooks(read: bool, write: bool, triggered: bool, listed: bool)

  /** What the last events told about the two halves and about urgent data. */
  datatype Seen = Seen(readEof: bool, writeEof: bool, pri: bool)

  /** What the wait in progress collects. */
  datatype Result = Result(revents: Mask, gotRead: bool, gotWrite: bool)

  datatype Node = Node(cfg: Config, hooks: Hooks, seen: Seen, result: Result)

  const UNHOOKED := Hooks(false, false, false, false)
  const QUIET := Result(NONE, false, false)

  predicate Eof(s: Seen) {
    s.readEof || s.writeEof
  }

  predicate Hup(s: Seen) {
    s.readEof && s.writeEof
  }

  // ---------- get_needed_filters ----------

  /** Not needed, needed, or needed with EV_CLEAR. */
  datatype Want = Off | Level | Clear

  datatype Needed = Needed(read: Want, write: Want)

  function If(b: bool): Want {
    if b then Level else Off
  }

  function Unless(b: bool): Want {
    if b then Level else Clear
  }

  function FifoNeeds(c: Config, s: Seen): Needed
    requires c.kind.Fifo?
  {
    if c.kind.readable && c.kind.writable then
      Needed(if c.events == NONE then Unless(Eof(s)) else If(c.events.input), If(c.events.output))
    else if c.kind.readable then
      Needed(if c.events.input then Level else Unless(Eof(s)), Off)
    else
      Needed(Off, if c.events.output then Level else Unless(Eof(s)))
  }

  function SocketNeeds(c: Config, s: Seen): Needed {
    var r0 := If(c.events.input);
    var r1 := if r0.Off? && c.events.rdhup then Unless(s.readEof) else r0;
    var r2 := if r1.Off? && c.events.pri then Unless(s.pri) else r1;
    var w := If(c.events.output);
    if Hup(s) then
      var r3 := if r2 != Level && w != Level then Level else r2;
      if r3 != Off then Needed(r3, Off) else Needed(Off, w)
    else if s.readEof then Needed(r2, if w.Off? then Clear else w)
    else if s.writeEof then Needed(if r2.Off? then Clear else r2, w)
    else Needed(if r2.Off? && w.Off? then Clear else r2, w)
  }

  function LevelNeeds(c: Config, s: Seen): Needed {
    match c.kind
    case Fifo(_, _) => FifoNeeds(c, s)
    case Kqueue => Needed(if c.events.input then Level else Clear, Off)
    case Socket => SocketNeeds(c, s)
    case _ => Needed(if c.events == NONE then Unless(Eof(s)) else If(c.events.input), If(c.events.output))
  }

  function ToEdge(w: Want): Want {
    if w.Off? then Off else Clear
  }

  function Needs(c: Config, s: Seen): Needed {
    var needed := LevelNeeds(c, s);
    if c.edge then Needed(ToEdge(needed.read), ToEdge(needed.write)) else needed
  }

  // ---------- registered_fds_node_feed_event ----------

  const PIPE_BUF := 512

  datatype Filter = Read | Write | User

  /** A kevent for a node; fflags is only ever compared with zero. */
  datatype Kev = Kev(filter: Filter, eof: bool, fflags: bool, error: bool, bytes: int)

  /** What the calls made while digesting an event return. */
  datatype World = World(
    polled: Option<Mask>,       // poll on a poll-only descriptor, None for an error
    pri: bool,                  // poll reports POLLPRI
    writeOk: bool,              // EVFILT_WRITE of a FIFO could be added
    described: Option<Mask>)    // pollable_desc_poll, None without a descriptor

  /** revents & (events | EPOLLHUP | EPOLLERR). */
  function Masked(c: Config, revents: Mask): Mask {
    And(revents, c.events.(hup := true, err := true))
  }

  function Translated(c: Config, revents: Mask): Mask {
    if revents.rdhup && c.translate then revents.(rdhup := false, linux := true) else revents
  }

  function PollResult(w: World): Mask {
    if w.polled.None? then NONE.(err := true) else if w.polled.value.nval then NONE else w.polled.value
  }

  /** The end-of-file state and urgent-data state after an event of a read or write filter. */
  function SeenAfter(c: Config, s: Seen, k: Kev, w: World): Seen {
    var pri := if k.filter.Read? && c.events.pri then w.pri else s.pri;
    if !c.kind.Socket? then Seen(k.eof, k.eof, pri)
    else if k.filter.Read? then Seen(k.eof, s.writeEof, pri)
    else Seen(s.readEof, k.eof, pri)
  }

  /** What the event itself stands for, before the end-of-file state comes in. */
  function Direct(c: Config, k: Kev, w: World): Mask {
    NONE.(input := k.filter.Read?, pri := k.filter.Read? && c.events.pri && w.pri, output := k.filter.Write?,
          err := k.error || (k.eof && k.fflags))
  }

  /** The same with an end-of-file state that already includes the event. */
  function WithEof(c: Config, s: Seen, k: Kev, direct: Mask): Mask {
    if !Eof(s) then direct
    else match c.kind
         case Fifo(_, _) =>
           if k.filter.Read? then direct.(input := direct.input && k.bytes != 0, hup := true)
           else direct.(output := direct.output && k.bytes >= PIPE_BUF, err := true)
         case Socket =>
           direct.(input := direct.input || s.readEof, rdhup := s.readEof,
                   output := direct.output || s.writeEof, hup := Hup(s))
         case _ => direct.(hup := true)
  }

  /** The write end of a FIFO that is also read: only the read filter reports, the write filter adds EPOLLHUP. */
  predicate Deferred(n: Node, k: Kev) {
    n.cfg.kind.Fifo? && k.filter.Write? && k.eof && n.hooks.read
  }

  function FilterResult(n: Node, s: Seen, k: Kev, w: World): Result {
    var r := n.result;
    if Deferred(n, k) then r.(revents := if r.revents != NONE then r.revents.(hup := true) else NONE) else
    var revents := Masked(n.cfg, Or(r.revents, WithEof(n.cfg, s, k, Direct(n.cfg, k, w))));
    var got := revents != NONE;
    Result(if n.cfg.kind.Kqueue? && w.described.Some? then Masked(n.cfg, w.described.value) else revents,
           r.gotRead || (got && k.filter.Read?), r.gotWrite || (got && k.filter.Write?))
  }

  function Collected(c: Config, r: Result): Result {
    r.(revents := Translated(c, r.revents))
  }

  function Feed(n: Node, k: Kev, w: World): Node {
    if n.cfg.kind.Poll? then
      Node(n.cfg, n.hooks.(triggered := false), n.seen, Collected(n.cfg, n.result.(revents := PollResult(w))))
    else if n.cfg.kind.Fifo? && k.filter.User? then
      if w.writeOk then
        Node(n.cfg, n.hooks.(write := true, triggered := false), n.seen, Collected(n.cfg, n.result))
      else
        Node(n.cfg, n.hooks.(triggered := !n.cfg.edge), n.seen,
             Collected(n.cfg, n.result.(revents := Masked(n.cfg, n.result.revents.(err := true, output := true)))))
    else
      var s := SeenAfter(n.cfg, n.seen, k, w);
      Node(n.cfg, n.hooks, s, Collected(n.cfg, FilterResult(n, s, k, w)))
  }

  /** The assertions on the way. */
  predicate FeedAsserts(n: Node, k: Kev, w: World) {
    if n.cfg.kind.Poll? then
      n.result.revents == NONE && k.filter.User? && !PollResult(w).pri && !PollResult(w).nval && !PollResult(w).linux
    else if n.cfg.kind.Fifo? && k.filter.User? then
      n.result.revents == NONE && !n.hooks.read && !n.hooks.write && !Needs(n.cfg, n.seen).write.Off?
    else
      !k.filter.User? && (Deferred(n, k) ==> n.cfg.kind.readable && n.cfg.kind.writable)
  }

  // ---------- registration ----------

  datatype Code = Ok | Epipe | Enodev | Fails

  /** What kevent says to the changes that a registration asks for. */
  datatype Verdict = Verdict(call: bool, read: Code, write: Code, user: bool, list: bool)

  /** epollfd_ctx__remove_node_from_kq. */
  function Unhooked(n: Node): Node {
    n.(hooks := if n.cfg.kind.Poll? then n.hooks.(triggered := false, listed := false) else UNHOOKED)
  }

  function AsPoll(n: Node, v: Verdict): (Node, bool) {
    var p := Node(n.cfg.(kind := Poll), n.hooks.(read := false, write := false), n.seen, n.result);
    if !v.user then (p, false)
    else if p.hooks.listed then (p, true)
    else if !v.list then (p, false)
    else (p.(hooks := p.hooks.(listed := true)), true)
  }

  /** The errors of the write filter; only a FIFO without readers survives them. */
  function WriteVerdict(n: Node, v: Verdict): (Node, bool) {
    if v.write.Ok? then (n, true)
    else if v.write.Epipe? && n.cfg.kind.Fifo? then
      var hooks := n.hooks.(write := false, triggered := !n.hooks.read && v.user);
      (Node(n.cfg, hooks, Seen(true, true, n.seen.pri), n.result), n.hooks.read || v.user)
    else (n, false)
  }

  /** Only sockets support EPOLLRDHUP and EPOLLPRI. */
  function Supported(c: Config): Config {
    if c.kind.Socket? then c else c.(events := c.events.(rdhup := false, pri := false))
  }

  /** epollfd_ctx__register_events. */
  function Registered(n: Node, v: Verdict): (Node, bool) {
    var c := Supported(n.cfg);
    if c.kind.Poll? then AsPoll(n.(cfg := c), v) else
    var needed := Needs(c, n.seen);
    var r := Node(c, Hooks(!needed.read.Off?, !needed.write.Off?, false, false), n.seen, n.result);
    if !v.call then (r, false)
    else if c.kind.Other? && (if r.hooks.read then v.read else v.write) == Enodev then AsPoll(r, v)
    else if r.hooks.read && v.read != Ok then (r, false)
    else if r.hooks.write then WriteVerdict(r, v)
    else (r, true)
  }

  /** Whether that turn registers again a node that was n and has become m. */
  predicate Reregisters(n: Node, m: Node) {
    !m.cfg.kind.Poll? && !(m.cfg.edge && Hup(m.seen) && !m.cfg.kind.Fifo?)
    && Needs(m.cfg, m.seen) != Needs(n.cfg, n.seen)
  }

  /** One turn of the first loop of epollfd_ctx_wait. */
  function Process(n: Node, k: Kev, w: World, v: Verdict): Node {
    var m := Feed(n, k, w);
    if Reregisters(n, m) then
      var (r, ok) := Registered(m, v);
      if ok then r else Unhooked(r)
    else m
  }

  // ---------- What holds of a node ----------

  predicate Armed(h: Hooks) {
    h.read || h.write
  }

  predicate Valid(c: Config) {
    && (c.kind.Fifo? ==> c.kind.readable || c.kind.writable)
    && (c.kind.Poll? ==> !c.events.pri && !c.events.rdhup)
    && (!c.kind.Socket? ==> !c.events.rdhup && !c.events.pri)
    && (c.oneshot ==> c.edge)
    && c.events ==
         NONE.(input := c.events.input, pri := c.events.pri, output := c.events.output, rdhup := c.events.rdhup)
  }

  /** A FIFO that a registration listens on with its write filter only, whatever its end-of-file state. */
  predicate WriteOnly(c: Config) {
    c.kind.Fifo? && c.kind.writable && (c.kind.readable ==> c.events.output && !c.events.input)
  }

  /** The filters in the kqueue fit the kind of descriptor, also in the middle of a wait. */
  predicate HooksFit(c: Config, h: Hooks) {
    match c.kind
    case Fifo(readable, writable) =>
      && (h.read ==> readable) && (h.write ==> writable) && !h.listed
      && (h.triggered ==> !Armed(h) && WriteOnly(c))
    case Poll => !Armed(h)
    case Kqueue => !h.write && !h.triggered && !h.listed
    case _ => !h.triggered && !h.listed
  }

  predicate Fit(n: Node) {
    Valid(n.cfg) && HooksFit(n.cfg, n.hooks) && (n.cfg.kind.Kqueue? ==> !Eof(n.seen))
  }

  /** The kernel delivers an event only for a filter that is registered, or triggered. */
  predicate Possible(h: Hooks, k: Kev) {
    match k.filter
    case Read => h.read
    case Write => h.write
    case User => h.triggered
  }

  predicate PollsAsked(c: Config, w: World) {
    w.polled.Some? ==> Within(w.polled.value, c.events.(err := true, hup := true, nval := true))
  }

  /** A kqueue never ends, poll reports what was asked for, and a device once accepted stays one. */
  predicate Plausible(c: Config, k: Kev, w: World, v: Verdict) {
    && (c.kind.Kqueue? ==> !k.eof)
    && (c.kind.Poll? ==> PollsAsked(c, w))
    && (c.kind.Other? ==> v.read != Enodev && v.write != Enodev)
  }

  /** The assertions of get_needed_filters. */
  lemma SomeFilter(c: Config, s: Seen)
    requires Valid(c) && (c.kind.Kqueue? ==> !Eof(s))
    ensures var needed := Needs(c, s);
      && (!needed.read.Off? || !needed.write.Off?)
      && (c.edge ==> needed.read != Level && needed.write != Level)
      && (!c.kind.Poll? ==> HooksFit(c, Hooks(!needed.read.Off?, !needed.write.Off?, false, false)))
      && (WriteOnly(c) ==> !needed.write.Off?)
  {
  }

  /** What makes the assertions hold when an event of a batch gets its turn. */
  predicate Digestible(n: Node, k: Kev) {
    if k.filter.User? then n.hooks.triggered && n.result.revents == NONE
    else
      !n.cfg.kind.Poll? && (n.cfg.kind.Fifo? && k.filter.Write? ==> n.cfg.kind.writable)
      && (n.cfg.kind.Kqueue? ==> k.filter.Read?)
  }

  lemma FeedFit(n: Node, k: Kev, w: World)
    requires Fit(n) && Digestible(n, k)
    requires (n.cfg.kind.Kqueue? ==> !k.eof) && (n.cfg.kind.Poll? ==> PollsAsked(n.cfg, w))
    ensures FeedAsserts(n, k, w)
    ensures Fit(Feed(n, k, w)) && Feed(n, k, w).cfg == n.cfg
  {
    SomeFilter(n.cfg, n.seen);
  }

  lemma RegisteredFit(n: Node, v: Verdict)
    requires Fit(n) && !n.cfg.kind.Poll? && (n.cfg.kind.Other? ==> v.read != Enodev && v.write != Enodev)
    ensures var (r, ok) := Registered(n, v);
      && Fit(r) && Fit(Unhooked(r)) && r.cfg == n.cfg && r.result == n.result
  {
    SomeFilter(n.cfg, n.seen);
  }

  lemma ProcessFit(n: Node, k: Kev, w: World, v: Verdict)
    requires Fit(n) && Digestible(n, k) && Plausible(n.cfg, k, w, v)
    ensures FeedAsserts(n, k, w)
    ensures var (m, r) := (Feed(n, k, w), Process(n, k, w, v)); Fit(r) && r.cfg == n.cfg && r.result == m.result
  {
    FeedFit(n, k, w);
    var m := Feed(n, k, w);
    if !m.cfg.kind.Poll? {
      RegisteredFit(m, v);
    }
  }

  // ---------- What is reported ----------

  /** The bits a registration may see: what it asked for, EPOLLHUP and EPOLLERR, EPOLLRDHUP as it spelled it. */
  function Allowed(c: Config): Mask {
    c.events.(hup := true, err := true, rdhup := c.events.rdhup && !c.translate, linux := c.events.rdhup && c.translate)
  }

  predicate Within(a: Mask, b: Mask) {
    And(a, b) == a
  }

  predicate Modest(n: Node) {
    Within(n.result.revents, Allowed(n.cfg))
  }

  lemma MaskedWithin(c: Config, r: Mask)
    requires Valid(c)
    ensures Within(Translated(c, Masked(c, r)), Allowed(c))
    ensures Within(r, Allowed(c)) ==> Within(Translated(c, r), Allowed(c))
    ensures Within(r, Allowed(c)) ==> Within(Translated(c, r.(hup := true)), Allowed(c))
  {
  }

  lemma PolledWithin(c: Config, w: World)
    requires Valid(c) && c.kind.Poll?
    requires PollsAsked(c, w)
    ensures Within(Translated(c, PollResult(w)), Allowed(c))
  {
  }

  lemma FilterModest(n: Node, s: Seen, k: Kev, w: World)
    requires Valid(n.cfg) && Modest(n)
    ensures Within(Translated(n.cfg, FilterResult(n, s, k, w).revents), Allowed(n.cfg))
  {
    if Deferred(n, k) {
      MaskedWithin(n.cfg, n.result.revents);
    } else if n.cfg.kind.Kqueue? && w.described.Some? {
      MaskedWithin(n.cfg, w.described.value);
    } else {
      var all := Or(n.result.revents, WithEof(n.cfg, s, k, Direct(n.cfg, k, w)));
      assert FilterResult(n, s, k, w).revents == Masked(n.cfg, all);
      MaskedWithin(n.cfg, all);
    }
  }

  lemma FeedModest(n: Node, k: Kev, w: World, v: Verdict)
    requires Fit(n) && Modest(n) && (n.cfg.kind.Poll? ==> Plausible(n.cfg, k, w, v))
    ensures Modest(Feed(n, k, w))
  {
    if n.cfg.kind.Poll? {
      PolledWithin(n.cfg, w);
    } else if n.cfg.kind.Fifo? && k.filter.User? {
      MaskedWithin(n.cfg, n.result.revents);
      MaskedWithin(n.cfg, n.result.revents.(err := true, output := true));
    } else {
      FilterModest(n, SeenAfter(n.cfg, n.seen, k, w), k, w);
    }
  }

  /** A socket reports an event together with the ends of file seen so far, and EPOLLHUP for both. */
  lemma SocketReports(n: Node, k: Kev, w: World)
    requires n.cfg.kind.Socket? && Valid(n.cfg) && n.result.revents == NONE && !k.filter.User?
    ensures var (e, s, r) := (n.cfg.events, Feed(n, k, w).seen, Feed(n, k, w).result.revents);
      && (r.input <==> e.input && (k.filter.Read? || s.readEof))
      && (r.output <==> e.output && (k.filter.Write? || s.writeEof))
      && (r.pri <==> e.pri && k.filter.Read? && w.pri)
      && (r.rdhup || r.linux <==> e.rdhup && s.readEof) && (r.linux ==> n.cfg.translate)
      && (r.hup <==> s.readEof && s.writeEof)
      && (r.err <==> k.error || (k.eof && k.fflags))
  {
  }

  /** A FIFO at its end: EPOLLHUP for the reader, EPOLLERR for the writer, data only if there is any or room for it. */
  lemma FifoReports(n: Node, k: Kev, w: World)
    requires n.cfg.kind.Fifo? && Valid(n.cfg) && n.result.revents == NONE && !k.filter.User?
    ensures var (e, r) := (n.cfg.events, Feed(n, k, w).result.revents);
      if Deferred(n, k) then r == NONE
      else
        && (r.input <==> e.input && k.filter.Read? && (!k.eof || k.bytes != 0))
        && (r.output <==> e.output && k.filter.Write? && (!k.eof || k.bytes >= PIPE_BUF))
        && (r.hup <==> k.filter.Read? && k.eof)
        && (r.err <==> k.error || (k.eof && (k.fflags || k.filter.Write?)))
  {
  }

  /** Another descriptor reports its event, and EPOLLHUP at its end. */
  lemma OtherReports(n: Node, k: Kev, w: World)
    requires n.cfg.kind.Other? && Valid(n.cfg) && n.result.revents == NONE && !k.filter.User?
    ensures var (e, r) := (n.cfg.events, Feed(n, k, w).result.revents);
      && (r.input <==> e.input && k.filter.Read?) && (r.output <==> e.output && k.filter.Write?)
      && (r.hup <==> k.eof) && (r.err <==> k.error || (k.eof && k.fflags))
      && !r.pri && !r.rdhup && !r.linux && !r.nval
  {
  }

  /** A kqueue reports what its description has, its event if there is no description. */
  lemma KqueueReports(n: Node, k: Kev, w: World)
    requires n.cfg.kind.Kqueue? && Valid(n.cfg) && n.result.revents == NONE && k.filter.Read? && !k.eof
    ensures var (e, r) := (n.cfg.events, Feed(n, k, w).result.revents);
      var found := if w.described.Some? then w.described.value else NONE.(input := true, err := k.error);
      && (r.input <==> e.input && found.input) && (r.output <==> e.output && found.output)
      && (r.hup <==> found.hup) && (r.err <==> found.err) && !r.pri && !r.rdhup && !r.linux && !r.nval
  {
  }

  /** A poll-only descriptor reports what poll returns, EPOLLERR if it fails, nothing if it is not valid any more. */
  lemma PollReports(n: Node, k: Kev, w: World)
    requires n.cfg.kind.Poll? && Valid(n.cfg) && k.filter.User? && PollsAsked(n.cfg, w)
    ensures var m := Feed(n, k, w); var r := m.result.revents;
      && (w.polled.None? ==> r == NONE.(err := true))
      && (w.polled.Some? ==> r == if w.polled.value.nval then NONE else w.polled.value)
      && m.hooks == n.hooks.(triggered := false) && m.seen == n.seen
  {
  }

  /** The own trigger of a FIFO without readers listens again, or reports and, level-triggered, stays triggered. */
  lemma BrokenFifoReports(n: Node, k: Kev, w: World)
    requires n.cfg.kind.Fifo? && Valid(n.cfg) && n.result.revents == NONE && k.filter.User?
    ensures var m := Feed(n, k, w); var (e, r) := (n.cfg.events, m.result.revents);
      && m.seen == n.seen && m.hooks.read == n.hooks.read && m.hooks.listed == n.hooks.listed
      && (w.writeOk ==> r == NONE && m.hooks.write && !m.hooks.triggered)
      && (!w.writeOk ==>
            r == NONE.(err := true, output := e.output) && m.hooks.write == n.hooks.write
            && (m.hooks.triggered <==> !n.cfg.edge))
  {
  }

  /** The write end that ends while the read filter is there only adds EPOLLHUP to what that one found. */
  lemma DeferredAdds(n: Node, k: Kev, w: World)
    requires Deferred(n, k) && Valid(n.cfg) && Modest(n)
    ensures var r := n.result.revents;
      Feed(n, k, w).result.revents == if r == NONE then NONE else r.(hup := true)
  {
    var e := n.cfg.events;
    assert e == NONE.(input := e.input, pri := e.pri, output := e.output, rdhup := e.rdhup);
  }

  /** What an event of a read or write filter tells about the two halves and about urgent data. */
  lemma FeedSeen(n: Node, k: Kev, w: World)
    requires !n.cfg.kind.Poll? && !k.filter.User?
    ensures var (s, m) := (n.seen, Feed(n, k, w).seen);
      && (n.cfg.kind.Socket? ==>
            && m.readEof == (if k.filter.Read? then k.eof else s.readEof)
            && m.writeEof == (if k.filter.Write? then k.eof else s.writeEof))
      && (!n.cfg.kind.Socket? ==> m.readEof == m.writeEof == k.eof)
      && m.pri == (if k.filter.Read? && n.cfg.events.pri then w.pri else s.pri)
  {
  }

  /** An event counts as received from its filter exactly if there is something to report then. */
  lemma FeedGot(n: Node, k: Kev, w: World)
    requires !n.cfg.kind.Poll? && !k.filter.User? && !n.cfg.kind.Kqueue? && Valid(n.cfg) && Modest(n)
    ensures var (r, m) := (n.result, Feed(n, k, w).result);
      var counts := !Deferred(n, k) && m.revents != NONE;
      && (m.gotRead <==> r.gotRead || (counts && k.filter.Read?))
      && (m.gotWrite <==> r.gotWrite || (counts && k.filter.Write?))
  {
  }

  /**
   What was collected is not lost to a later event, except a 0x2000 that stood
   for an end of file which the later event takes back.
   */
  lemma FeedAdds(n: Node, k: Kev, w: World)
    requires Valid(n.cfg) && Modest(n) && !k.filter.User? && !n.cfg.kind.Kqueue? && !n.cfg.kind.Poll?
    ensures Within(n.result.revents, Feed(n, k, w).result.revents) <==>
      (n.result.revents.linux ==> Feed(n, k, w).seen.readEof)
  {
    var c := n.cfg;
    var e := c.events;
    assert e == NONE.(input := e.input, pri := e.pri, output := e.output, rdhup := e.rdhup);
  }

  /** What an event says on its own, to a node that has collected nothing yet. */
  function Tells(n: Node, k: Kev, w: World): Mask {
    Feed(n.(result := QUIET), k, w).result.revents
  }

  /**
   An event says that there is data to read or room to write, at the end of a
   FIFO only if there is; what poll found; that a FIFO still has no readers.
   */
  lemma TellsData(n: Node, k: Kev, w: World)
    requires Digestible(n, k) && !n.cfg.kind.Kqueue?
    ensures k.filter.Read? && n.cfg.events.input && (n.cfg.kind.Fifo? && k.eof ==> k.bytes != 0) ==>
      Tells(n, k, w).input
    ensures var room := n.cfg.kind.Fifo? && k.eof ==> k.bytes >= PIPE_BUF && !Deferred(n, k);
      k.filter.Write? && n.cfg.events.output && room ==> Tells(n, k, w).output
    ensures k.filter.User? && n.cfg.kind.Poll? ==> Tells(n, k, w) == Translated(n.cfg, PollResult(w))
    ensures k.filter.User? && n.cfg.kind.Fifo? && !w.writeOk ==> Tells(n, k, w).err
  {
  }

  /** Whatever was collected before, what an event says is collected. */
  lemma TellsCollected(n: Node, k: Kev, w: World)
    requires Digestible(n, k)
    ensures Within(Tells(n, k, w), Feed(n, k, w).result.revents)
  {
    if !k.filter.User? {
      TellsByFilter(n, n.(result := QUIET), SeenAfter(n.cfg, n.seen, k, w), k, w);
    }
  }

  lemma MoreCollected(c: Config, a: Mask, b: Mask)
    requires Within(a, b)
    ensures Within(Translated(c, Masked(c, a)), Translated(c, Masked(c, b)))
  {
    MaskedMore(c, a, b);
  }

  lemma MaskedMore(c: Config, a: Mask, b: Mask)
    requires Within(a, b)
    ensures Within(Masked(c, a), Masked(c, b))
  {
  }

  lemma OrMore(a: Mask, b: Mask, more: Mask)
    requires a == NONE
    ensures Within(Or(a, more), Or(b, more))
  {
  }

  /** With and without what was collected before. */
  lemma TellsByFilter(n: Node, m: Node, s: Seen, k: Kev, w: World)
    requires m.cfg == n.cfg && m.hooks == n.hooks && m.result.revents == NONE
    ensures Within(Translated(n.cfg, FilterResult(m, s, k, w).revents),
              Translated(n.cfg, FilterResult(n, s, k, w).revents))
  {
    if Deferred(n, k) {
    } else if !n.cfg.kind.Kqueue? || w.described.None? {
      var said := WithEof(n.cfg, s, k, Direct(n.cfg, k, w));
      OrMore(m.result.revents, n.result.revents, said);
      MoreCollected(n.cfg, Or(m.result.revents, said), Or(n.result.revents, said));
    }
  }

  /** A 0x2000 stands for an end of file of the read half. */
  predicate LinuxFits(n: Node) {
    n.result.revents.linux ==> n.seen.readEof
  }

  /** As long as no end of file is taken back, a later event takes nothing back either. */
  lemma FeedKeeps(n: Node, k: Kev, w: World)
    requires Fit(n) && Modest(n) && Digestible(n, k) && !n.cfg.kind.Kqueue? && LinuxFits(n)
    requires n.cfg.kind.Socket? ==> Sticky(n.seen, k)
    ensures Within(n.result.revents, Feed(n, k, w).result.revents)
    ensures n.cfg.kind.Socket? ==> LinuxFits(Feed(n, k, w))
  {
    if !k.filter.User? {
      FeedAdds(n, k, w);
      if !n.cfg.kind.Socket? {
        assert !n.result.revents.linux;
      }
    }
  }

  /**
   The one way got_evfilt_read can outlive a wait: the description behind a
   kqueue has nothing that was asked for any more, although its event has.
   */
  predicate Residual(c: Config, k: Kev, w: World) {
    w.described.Some? && Masked(c, w.described.value) == NONE && (c.events.input || k.error)
  }

  lemma FeedResidue(n: Node, k: Kev, w: World)
    requires Fit(n) && n.cfg.kind.Kqueue? && n.result.revents == NONE && k.filter.Read? && !k.eof
    ensures var r := Feed(n, k, w).result;
      && (r.revents == NONE && !n.result.gotRead ==> (r.gotRead <==> Residual(n.cfg, k, w)))
      && (Residual(n.cfg, k, w) ==> r.gotRead && r.revents == NONE)
      && (n.result.gotRead ==> r.gotRead)
  {
  }

  // ---------- What is listened for, in terms of what was asked for and seen ----------

  predicate Nothing(e: Mask) {
    !e.input && !e.output
  }

  /** A socket that has hung up keeps the write filter only if nothing but EPOLLOUT was asked for. */
  predicate OutputOnly(e: Mask) {
    e.output && !e.input && !e.rdhup && !e.pri
  }

  /** The read filter is wanted: for what was asked for, or to notice the end of a half that has not ended. */
  predicate ListensRead(c: Config, s: Seen) {
    var e := c.events;
    match c.kind
    case Fifo(readable, writable) => readable && (writable ==> e.input || Nothing(e))
    case Kqueue => true
    case Socket =>
      if Hup(s) then !OutputOnly(e)
      else e.input || e.rdhup || e.pri || s.writeEof || (!e.output && !s.readEof)
    case _ => e.input || Nothing(e)
  }

  /** It wakes again and again. */
  predicate RepeatsRead(c: Config, s: Seen) {
    var e := c.events;
    match c.kind
    case Fifo(_, writable) => e.input || (Eof(s) && (writable ==> Nothing(e)))
    case Kqueue => e.input
    case Socket =>
      || e.input || (e.rdhup && s.readEof) || (e.pri && s.pri && !e.rdhup)
      || (Hup(s) && !e.output)
    case _ => e.input || (Nothing(e) && Eof(s))
  }

  predicate ListensWrite(c: Config, s: Seen) {
    var e := c.events;
    match c.kind
    case Fifo(readable, writable) => writable && (readable ==> e.output)
    case Kqueue => false
    case Socket => if Hup(s) then OutputOnly(e) else e.output || s.readEof
    case _ => e.output
  }

  predicate RepeatsWrite(c: Config, s: Seen) {
    c.events.output || (c.kind.Fifo? && !c.kind.readable && Eof(s))
  }

  function Flag(listens: bool, repeats: bool): Want {
    if !listens then Off else if repeats then Level else Clear
  }

  /** Exactly which filters a registration has, and which of them with EV_CLEAR. */
  lemma NeedsExactly(c: Config, s: Seen)
    requires Valid(c) && !c.kind.Poll?
    ensures Needs(c, s) ==
      Needed(Flag(ListensRead(c, s), !c.edge && RepeatsRead(c, s)),
             Flag(ListensWrite(c, s), !c.edge && RepeatsWrite(c, s)))
  {
    var e := c.events;
    assert e == NONE <==> !e.input && !e.output && !e.pri && !e.rdhup;
  }

  /**
   Urgent data wakes a level-triggered socket again and again, unless it also
   asked for EPOLLRDHUP, not for EPOLLIN, and its peer still sends.
   */
  lemma UrgentFilters(c: Config, s: Seen)
    requires Valid(c) && !c.edge && c.kind.Socket? && !Hup(s) && c.events.pri && s.pri
    ensures Needs(c, s).read == Level <==> c.events.input || !c.events.rdhup || s.readEof
  {
  }

  /** Such a socket is reached: asked for EPOLLPRI and EPOLLRDHUP, and woken for urgent data. */
  lemma UrgentReached(fd: int, data: int, k: Kev, w: World)
    requires k.filter.Read? && !k.eof && w.pri
    ensures var q := Request(NONE.(pri := true, rdhup := true), false, false, false, data);
      var n := Node(Configured(fd, Socket, q), UNHOOKED, Seen(false, false, false), QUIET);
      var (added, ok) := Registered(n, GRANTED);
      var m := Process(added, k, w, GRANTED);
      && !Refused(q) && ok && Possible(added.hooks, k) && m.result.revents.pri
      && m.seen.pri && !Hup(m.seen) && Needs(m.cfg, m.seen) == Needed(Clear, Off)
  {
  }

  /**
   A level-triggered registration that has not hung up keeps being woken for
   what it asked for; a filter that is only there to notice the end of file
   wakes it once.
   */
  lemma LevelFilters(c: Config, s: Seen)
    requires Valid(c) && !c.edge && (c.kind.Kqueue? ==> !Eof(s)) && !c.kind.Poll? && !(c.kind.Socket? && Hup(s))
    ensures var needed := Needs(c, s);
      && (c.events.input && (c.kind.Fifo? ==> c.kind.readable) ==> needed.read == Level)
      && (c.events.output && !c.kind.Kqueue? && (c.kind.Fifo? ==> c.kind.writable) ==> needed.write == Level)
      && (!Eof(s) && !s.pri && !c.events.input ==> needed.read != Level)
      && (!Eof(s) && !c.events.output ==> needed.write != Level)
  {
  }

  /** The kqueue has exactly the filters that are needed, and a poll-only node is on its list. */
  predicate Hooked(n: Node) {
    var needed := Needs(n.cfg, n.seen);
    if n.cfg.kind.Poll? then n.hooks.listed
    else
      && (n.hooks.read <==> !needed.read.Off?) && (n.hooks.write <==> !needed.write.Off?)
      && !n.hooks.triggered
  }

  /** Every registration that succeeds starts like that, except a FIFO without readers. */
  lemma RegisteredHooked(n: Node, v: Verdict)
    requires Registered(n, v).1 && !(n.cfg.kind.Fifo? && v.write.Epipe?)
    ensures Hooked(Registered(n, v).0)
  {
  }

  predicate Accepted(v: Verdict) {
    v.call && v.read.Ok? && v.write.Ok?
  }

  /** An accepted registration changes nothing but the filters. */
  lemma AcceptedHooked(n: Node, v: Verdict)
    requires Fit(n) && !n.cfg.kind.Poll? && Accepted(v)
    ensures var (r, ok) := Registered(n, v); ok && r.cfg == n.cfg && r.seen == n.seen && Hooked(r)
  {
    RegisteredFit(n, v);
    RegisteredHooked(n, v);
  }

  /** An edge-triggered node that has hung up, other than a FIFO, keeps the filters it has. */
  lemma HungUpStays(n: Node, k: Kev, w: World, v: Verdict)
    requires n.cfg.edge && !n.cfg.kind.Fifo? && !n.cfg.kind.Poll? && Hup(Feed(n, k, w).seen)
    ensures Process(n, k, w, v).hooks == n.hooks
  {
  }

  /** If registering again fails the node has no filter left. */
  lemma ProcessFails(n: Node, k: Kev, w: World, v: Verdict)
    requires Reregisters(n, Feed(n, k, w)) && !Registered(Feed(n, k, w), v).1
    ensures var h := Process(n, k, w, v).hooks; !Armed(h) && !h.triggered && !h.listed
  {
    NoFilters(Registered(Feed(n, k, w), v).0);
  }

  lemma NoFilters(n: Node)
    ensures var h := Unhooked(n).hooks;
      !h.triggered && !h.listed && (!n.cfg.kind.Poll? || !Armed(n.hooks) ==> !Armed(h))
  {
  }

  /**
   Digesting an event leaves a node with the filters it then needs, unless it
   is edge-triggered and has hung up.
   */
  lemma ProcessHooked(n: Node, k: Kev, w: World, v: Verdict)
    requires Fit(n) && Hooked(n) && Digestible(n, k) && (n.cfg.kind.Kqueue? ==> !k.eof)
    requires n.cfg.kind.Poll? || Accepted(v)
    requires n.cfg.edge && !n.cfg.kind.Fifo? && !n.cfg.kind.Poll? ==> !Hup(Feed(n, k, w).seen)
    ensures var r := Process(n, k, w, v); Hooked(r) && (!n.cfg.kind.Poll? ==> r.seen == Feed(n, k, w).seen)
  {
    var m := Feed(n, k, w);
    if !n.cfg.kind.Poll? {
      FedFit(n, k, w);
      AcceptedHooked(m, v);
    }
  }

  lemma FedFit(n: Node, k: Kev, w: World)
    requires Fit(n) && Digestible(n, k) && (n.cfg.kind.Kqueue? ==> !k.eof) && !n.cfg.kind.Poll?
    ensures Fit(Feed(n, k, w)) && Feed(n, k, w).cfg == n.cfg
  {
    FeedFit(n, k, w);
  }

  /**
   A level-triggered socket that has hung up keeps being woken, unless it asked
   for EPOLLPRI and EPOLLOUT only: then its one filter left is an EV_CLEAR one.
   */
  lemma HungUpFilters(c: Config, s: Seen)
    requires Valid(c) && !c.edge && c.kind.Socket? && Hup(s)
    ensures var (needed, e) := (Needs(c, s), c.events);
      (needed.read == Level || needed.write == Level) <==> !(e.pri && e.output && !e.input && !e.rdhup && !s.pri)
  {
  }

  // ---------- Hangup of sockets ----------

  /**
   An armed socket that has not hung up listens on a half whose end of file
   it has not seen.
   */
  predicate Watched(n: Node) {
    n.cfg.kind.Socket? && Armed(n.hooks) ==>
      && (!Eof(n.seen) ==> var needed := Needs(n.cfg, n.seen);
            (n.hooks.read <==> !needed.read.Off?) && (n.hooks.write <==> !needed.write.Off?))
      && (n.seen.readEof && !n.seen.writeEof ==> n.hooks.write)
      && (n.seen.writeEof && !n.seen.readEof ==> n.hooks.read)
  }

  /** The kernel does not take an end of file back. */
  predicate Sticky(s: Seen, k: Kev) {
    (k.filter.Read? && s.readEof ==> k.eof) && (k.filter.Write? && s.writeEof ==> k.eof)
  }

  lemma UnseenHalf(n: Node)
    requires Fit(n) && Watched(n) && n.cfg.kind.Socket? && Armed(n.hooks) && !Hup(n.seen)
    ensures (n.hooks.read && !n.seen.readEof) || (n.hooks.write && !n.seen.writeEof)
  {
  }

  lemma RegisteredWatched(n: Node, v: Verdict)
    requires Valid(n.cfg) && n.cfg.kind.Socket?
    ensures Watched(Registered(n, v).0)
    ensures v.call && v.read.Ok? && v.write.Ok? ==> Registered(n, v).1 && Armed(Registered(n, v).0.hooks)
  {
    SomeFilter(n.cfg, n.seen);
  }

  /** Digesting an event keeps the watch; only a failing registration disarms. */
  lemma ProcessWatched(n: Node, k: Kev, w: World, v: Verdict)
    requires Fit(n) && Watched(n) && n.cfg.kind.Socket? && !k.filter.User? && Sticky(n.seen, k)
    ensures Watched(Process(n, k, w, v))
    ensures Armed(n.hooks) && v.call && v.read.Ok? && v.write.Ok? ==> Armed(Process(n, k, w, v).hooks)
  {
    var m := Feed(n, k, w);
    RegisteredWatched(m, v);
    SomeFilter(n.cfg, n.seen);
  }

  /** The event that completes the hangup reports EPOLLHUP, and later events keep it. */
  lemma HupReported(n: Node, k: Kev, w: World)
    requires n.cfg.kind.Socket? && !k.filter.User?
    ensures Hup(Feed(n, k, w).seen) && !Hup(n.seen) ==> Feed(n, k, w).result.revents.hup
    ensures n.result.revents.hup ==> Feed(n, k, w).result.revents.hup
  {
  }

  /** An open socket in the middle of a wait was woken by a filter it still listens on. */
  predicate GotFits(n: Node) {
    n.cfg.kind.Socket? && !Eof(n.seen) && Armed(n.hooks) && (n.result.gotRead || n.result.gotWrite) ==>
      (n.hooks.read && n.result.gotRead) || (n.hooks.write && n.result.gotWrite)
  }

  lemma ProcessGot(n: Node, k: Kev, w: World, v: Verdict)
    requires Fit(n) && Watched(n) && GotFits(n) && n.cfg.kind.Socket? && !k.filter.User? && Sticky(n.seen, k)
    requires Armed(n.hooks) && (!Eof(n.seen) ==> Possible(n.hooks, k))
    ensures GotFits(Process(n, k, w, v))
  {
    ProcessWatched(n, k, w, v);
    var m := Feed(n, k, w);
    RegisteredWatched(m, v);
    SomeFilter(n.cfg, n.seen);
  }

  // ---------- registered_fds_node_complete ----------

  /** The filters that completion asks about: registered, but not among the events so far. */
  predicate Pending(n: Node, k: Kev) {
    match k.filter
    case Read => n.hooks.read && !n.result.gotRead
    case Write => n.hooks.write && !n.result.gotWrite
    case User => false
  }

  /** n0 when completion started, and n some events later. */
  predicate Completing(n0: Node, n: Node) {
    Fit(n) && n.cfg == n0.cfg && n.hooks == n0.hooks
  }

  predicate EofKept(s: Seen, s': Seen) {
    (s.readEof ==> s'.readEof) && (s.writeEof ==> s'.writeEof)
  }

  /** Completion does not re-register, and yet no hangup escapes. */
  lemma CompleteWatched(n0: Node, n: Node, k: Kev, w: World)
    requires Fit(n0) && GotFits(n0) && (n0.result.gotRead || n0.result.gotWrite) && Pending(n0, k)
    requires Completing(n0, n) && EofKept(n0.seen, n.seen) && Watched(n) && n.cfg.kind.Socket? && Sticky(n.seen, k)
    ensures Watched(Feed(n, k, w)) && EofKept(n0.seen, Feed(n, k, w).seen)
  {
    FeedFit(n, k, w);
  }

  // ---------- epoll_ctl ----------

  /** struct epoll_event: the known bits, EPOLLET, EPOLLONESHOT, and whether any other bit is set. */
  datatype Request = Request(events: Mask, edge: bool, oneshot: bool, unknown: bool, data: int)

  predicate Refused(q: Request) {
    q.unknown || q.events.nval || (q.events.rdhup && q.events.linux)
  }

  /** registered_fds_node_update_flags_from_epoll_event. */
  function Configured(fd: int, kind: Kind, q: Request): Config {
    var e := q.events;
    Config(fd, q.data, kind,
           NONE.(input := e.input, pri := e.pri, output := e.output, rdhup := e.rdhup || e.linux),
           e.linux, q.edge || q.oneshot, q.oneshot)
  }

  lemma ConfiguredValid(fd: int, kind: Kind, q: Request)
    requires kind.Fifo? ==> kind.readable || kind.writable
    ensures Valid(Supported(Configured(fd, kind, q))) && (kind.Socket? ==> Valid(Configured(fd, kind, q)))
  {
  }

  lemma HookedFit(c: Config, n: Node)
    requires Valid(c) && !c.kind.Poll? && (c.kind.Kqueue? ==> !Eof(n.seen))
    ensures var needed := Needs(c, n.seen);
      var r := Node(c, Hooks(!needed.read.Off?, !needed.write.Off?, false, false), n.seen, n.result);
      Fit(r) && (c.kind.Fifo? && !r.hooks.read ==> WriteOnly(c))
  {
    SomeFilter(c, n.seen);
  }

  lemma RegisteredSupported(n: Node, v: Verdict)
    requires Valid(Supported(n.cfg)) && !n.cfg.kind.Poll? && (n.cfg.kind.Kqueue? ==> !Eof(n.seen))
    ensures Registered(n, v).1 ==> Fit(Registered(n, v).0)
  {
    var c := Supported(n.cfg);
    var needed := Needs(c, n.seen);
    HookedFit(c, n);
    var r := Node(c, Hooks(!needed.read.Off?, !needed.write.Off?, false, false), n.seen, n.result);
    if c.kind.Other? {
      AsPollFit(r, v);
    }
    if r.hooks.write {
      VerdictFit(r, v);
    }
  }

  lemma AsPollFit(r: Node, v: Verdict)
    requires Fit(r) && r.cfg.kind.Other?
    ensures Fit(AsPoll(r, v).0)
  {
  }

  lemma RegisteredSame(n: Node, v: Verdict)
    ensures var r := Registered(n, v).0; r.result == n.result && r.cfg.fd == n.cfg.fd && r.cfg.data == n.cfg.data
  {
  }

  lemma VerdictFit(r: Node, v: Verdict)
    requires Fit(r) && r.hooks.write && !r.cfg.kind.Poll? && (r.cfg.kind.Fifo? && !r.hooks.read ==> WriteOnly(r.cfg))
    ensures WriteVerdict(r, v).1 ==> Fit(WriteVerdict(r, v).0)
  {
  }

  /** A registration that succeeds leaves a node that fits its descriptor, and a socket on watch. */
  lemma RegisteredNew(fd: int, kind: Kind, q: Request, n: Node, v: Verdict)
    requires n.cfg == Configured(fd, kind, q) && (kind.Fifo? ==> kind.readable || kind.writable)
    requires (kind.Kqueue? ==> !Eof(n.seen)) && (kind.Poll? ==> !Armed(n.hooks))
    ensures var (r, ok) := Registered(n, v);
      ok ==>
        && Fit(r) && Watched(r) && r.result == n.result && r.cfg.fd == fd && r.cfg.data == q.data
        && (kind.Socket? ==> Armed(r.hooks))
  {
    ConfiguredValid(fd, kind, q);
    if kind.Socket? {
      RegisteredSocket(n, v);
    } else if !kind.Poll? {
      RegisteredSupported(n, v);
      RegisteredSame(n, v);
      RegisteredNoSocket(n, v);
    }
  }

  lemma RegisteredSocket(n: Node, v: Verdict)
    requires Valid(n.cfg) && n.cfg.kind.Socket?
    ensures var (r, ok) := Registered(n, v);
      Fit(r) && Watched(r) && Armed(r.hooks) && r.result == n.result && r.cfg == n.cfg
  {
    SomeFilter(n.cfg, n.seen);
    RegisteredWatched(n, v);
  }

  lemma RegisteredNoSocket(n: Node, v: Verdict)
    requires !n.cfg.kind.Socket?
    ensures !Registered(n, v).0.cfg.kind.Socket?
  {
  }

  /**
   What a registration that succeeds leaves: the flags asked for, as far as
   the kind of descriptor supports them, perhaps on the poll-only list, the
   ends of file seen before, and in the kqueue the filters that are needed; a
   FIFO without readers counts as ended and lacks the write filter.
   */
  lemma RegisteredWhat(n: Node, v: Verdict)
    requires Valid(Supported(n.cfg)) && Registered(n, v).1
    ensures var (r, c) := (Registered(n, v).0, Supported(n.cfg));
      && (r.cfg == c || (c.kind.Other? && r.cfg == c.(kind := Poll)))
      && r.seen == (if c.kind.Fifo? && ListensWrite(c, n.seen) && v.write.Epipe? then Seen(true, true, n.seen.pri)
                    else n.seen)
      && (r.cfg.kind.Poll? ==> r.hooks.listed && (r.hooks.triggered <==> c.kind.Poll? && n.hooks.triggered))
      && (!r.cfg.kind.Poll? ==>
            var (needed, broken) := (Needs(c, n.seen), c.kind.Fifo? && v.write.Epipe?);
            && (r.hooks.read <==> !needed.read.Off?)
            && (r.hooks.write <==> !needed.write.Off? && !broken)
            && (r.hooks.triggered <==> !needed.write.Off? && broken && !r.hooks.read))
  {
    if !n.cfg.kind.Poll? {
      NeedsExactly(Supported(n.cfg), n.seen);
    }
  }

  /** When a registration succeeds: a poll-only one needs its trigger, and a place on the list if it has none. */
  lemma PollRegisteredExactly(n: Node, v: Verdict)
    requires n.cfg.kind.Poll?
    ensures Registered(n, v).1 <==> v.user && (n.hooks.listed || v.list)
  {
  }

  lemma RegisteredExactly(n: Node, v: Verdict)
    requires Valid(Supported(n.cfg)) && !n.cfg.kind.Poll?
    ensures var c := Supported(n.cfg);
      var (read, write) := (ListensRead(c, n.seen), ListensWrite(c, n.seen));
      var pollOnly := c.kind.Other? && (if read then v.read else v.write) == Enodev;
      var broken := c.kind.Fifo? && v.write.Epipe? && (read || v.user);
      Registered(n, v).1 <==>
        v.call && if pollOnly then v.user && v.list
                  else (read ==> v.read.Ok?) && (write ==> v.write.Ok? || broken)
    ensures Registered(n, v).1 ==>
      (Registered(n, v).0.cfg.kind.Poll? <==>
       Supported(n.cfg).kind.Other? && (if ListensRead(Supported(n.cfg), n.seen) then v.read else v.write) == Enodev)
  {
    NeedsExactly(Supported(n.cfg), n.seen);
  }

  const GRANTED := Verdict(true, Code.Ok, Code.Ok, true, true)

  /** A registration that the kernel grants everything succeeds. */
  lemma GrantedSucceeds(n: Node)
    ensures Registered(n, GRANTED).1
  {
  }

  /**
   A hung-up socket without a level-triggered filter is reached: registered
   level-triggered for EPOLLPRI and EPOLLOUT, it gets EV_EOF for both halves
   and no urgent data, and nothing fails.
   */
  lemma HungUpReached(fd: int, data: int, k: Kev, l: Kev, w: World)
    requires k.filter.Read? && l.filter.Write? && k.eof && l.eof && !w.pri
    ensures var q := Request(NONE.(pri := true, output := true), false, false, false, data);
      var n := Node(Configured(fd, Socket, q), UNHOOKED, Seen(false, false, false), QUIET);
      var (added, ok) := Registered(n, GRANTED);
      var half := Process(added, k, w, GRANTED);
      var hungUp := Process(half, l, w, GRANTED);
      && !Refused(q) && ok && Possible(added.hooks, k) && Possible(half.hooks, l)
      && Hup(hungUp.seen) && hungUp.hooks == Hooks(true, false, false, false)
      && Needs(hungUp.cfg, hungUp.seen) == Needed(Clear, Off)
  {
  }
}
