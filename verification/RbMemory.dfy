/**
 The nodes of a tree in memory: one cell with left, right and parent pointers
 and two difference bits for every node, and which cells a tree of WavlTree
 asks for.  A node is named by the descriptor it holds.
 */
module RbMemory {
  import opened Options
  import opened WavlTree

  const NULL := -1

  /** The source packs the two bits into the low end of the parent pointer. */
  datatype Cell = Cell(left: int, right: int, parent: int, redLeft: bool, redRight: bool)

  type Memory = map<int, Cell>

  // ---------- Which cell a tree asks for ----------

  function Ptr(t: Tree): int {
    if t.Nil? then NULL else t.fd
  }

  function PathPtr(p: Path): int {
    if p.Top? then NULL else p.fd
  }

  function PathRoot(p: Path, child: int): int {
    if p.Top? then child else PathRoot(p.up, p.fd)
  }

  /** The cell of node k in a tree whose root has `parent` for a parent. */
  function CellOf(t: Tree, parent: int, k: int): Option<Cell> {
    if t.Nil? then None
    else if k < t.fd then CellOf(t.left, t.fd, k)
    else if k > t.fd then CellOf(t.right, t.fd, k)
    else Some(Cell(Ptr(t.left), Ptr(t.right), parent, t.redLeft, t.redRight))
  }

  function PathCell(p: Path, child: int, k: int): Option<Cell>
    decreases p
  {
    match p
    case Top => None
    case InLeft(fd, rl, rr, r, up) =>
      if k == fd then Some(Cell(child, Ptr(r), PathPtr(up), rl, rr))
      else if fd < k < Hi(up) then CellOf(r, fd, k)
      else PathCell(up, fd, k)
    case InRight(l, fd, rl, rr, up) =>
      if k == fd then Some(Cell(Ptr(l), child, PathPtr(up), rl, rr))
      else if Lo(up) < k < fd then CellOf(l, fd, k)
      else PathCell(up, fd, k)
  }

  function CellAt(t: Tree, p: Path, k: int): Option<Cell> {
    if Lo(p) < k < Hi(p) then CellOf(t, PathPtr(p), k) else PathCell(p, Ptr(t), k)
  }

  function Lookup(m: Memory, k: int): Option<Cell> {
    if k in m then Some(m[k]) else None
  }

  // ---------- Rotations as values ----------

  function RotatedLeft(t: Tree): Tree
    requires t.Bin? && t.right.Bin?
  {
    var r := t.right;
    Bin(Bin(t.left, t.fd, t.redLeft, t.redRight, r.left), r.fd, r.redLeft, r.redRight, r.right)
  }

  function RotatedRight(t: Tree): Tree
    requires t.Bin? && t.left.Bin?
  {
    var l := t.left;
    Bin(l.left, l.fd, l.redLeft, l.redRight, Bin(l.right, t.fd, t.redLeft, t.redRight, t.right))
  }

  /** A node of t other than its root is looked up in a child. */
  lemma CellBelow(t: Tree, parent: int, k: int)
    requires t.Bin?
    ensures CellOf(t, parent, k) ==
      if k < t.fd then CellOf(t.left, t.fd, k)
      else if k > t.fd then CellOf(t.right, t.fd, k)
      else Some(Cell(Ptr(t.left), Ptr(t.right), parent, t.redLeft, t.redRight))
  {
  }

  /** The parent of a tree shows in the cell of its root and nowhere else. */
  lemma CellAdopted(t: Tree, x: int, y: int, k: int)
    ensures t.Bin? && k == t.fd ==>
      && CellOf(t, x, k).Some? && CellOf(t, x, k).value.parent == x
      && CellOf(t, y, k) == Some(CellOf(t, x, k).value.(parent := y))
    ensures k != Ptr(t) ==> CellOf(t, x, k) == CellOf(t, y, k)
  {
  }

  /** The cells of a tree that RB_ROTATE_LEFT reads and writes. */
  lemma RotatedCells(t: Tree, p: Path, k: int)
    requires BstAt(t, p) && t.Bin? && t.right.Bin?
    ensures BstAt(RotatedLeft(t), p)
    ensures var (x, y, c) := (t.fd, t.right.fd, Ptr(t.right.left));
      var (u, v) := (CellAt(t, p, k), CellAt(RotatedLeft(t), p, k));
      && Lo(p) < x < y < Hi(p) && (c != NULL ==> x < c < y)
      && if k == x then
           u == Some(Cell(Ptr(t.left), y, PathPtr(p), t.redLeft, t.redRight))
           && v == Some(u.value.(right := c, parent := y))
         else if k == y then
           u == Some(Cell(c, Ptr(t.right.right), x, t.right.redLeft, t.right.redRight))
           && v == Some(u.value.(left := x, parent := PathPtr(p)))
         else if k == c && c != NULL then
           u.Some? && u.value.parent == y && v == Some(u.value.(parent := x))
         else k == PathPtr(p) || u == v
  {
    var n, r := RotatedLeft(t), t.right;
    assert Bst(r, t.fd, Hi(p)) && Bst(r.left, t.fd, r.fd);
    CellBelow(t, PathPtr(p), k);
    CellBelow(r, t.fd, k);
    CellBelow(n, PathPtr(p), k);
    CellBelow(n.left, n.fd, k);
    CellAdopted(r.left, r.fd, t.fd, k);
  }

  /** The innermost ancestor is the only one to know what fills its hole. */
  lemma PathRefill(p: Path, x: int, y: int, k: int)
    requires BstPath(p)
    ensures p.Top? || p.fd <= Lo(p) || p.fd >= Hi(p)
    ensures p.Top? || k != p.fd ==> PathCell(p, x, k) == PathCell(p, y, k)
    ensures !p.Top? && k == p.fd ==>
      && PathCell(p, x, k).Some?
      && var u := PathCell(p, x, k).value;
      && u.parent == PathPtr(p.up)
      && PathCell(p, y, k) == Some(if p.InLeft? then u.(left := y) else u.(right := y))
    ensures PathRoot(p, y) == if p.Top? then y else PathRoot(p, x)
  {
  }

  lemma PathCells(p: Path, x: int, y: int, k: int)
    requires BstPath(p) && Lo(p) < x < Hi(p)
    ensures p.Top? || p.fd <= Lo(p) || p.fd >= Hi(p)
    ensures p.Top? || k != p.fd ==> PathCell(p, x, k) == PathCell(p, y, k)
    ensures !p.Top? && k == p.fd ==>
      && PathCell(p, x, k).Some?
      && var u := PathCell(p, x, k).value;
      && (u.left == x <==> p.InLeft?)
      && PathCell(p, y, k) == Some(if p.InLeft? then u.(left := y) else u.(right := y))
    ensures PathRoot(p, y) == if p.Top? then y else PathRoot(p, x)
  {
    PathRefill(p, x, y, k);
  }

  /** The memory holds the tree t in the hole of p, link by link, and nothing else. */
  ghost predicate Holds(m: Memory, t: Tree, p: Path) {
    forall k :: Lookup(m, k) == CellAt(t, p, k)
  }

  function SwapLink(m: Memory, p: Path, into: int): Memory
    requires !p.Top? ==> p.fd in m
  {
    if p.Top? then m
    else m[p.fd := if p.InLeft? then m[p.fd].(left := into) else m[p.fd].(right := into)]
  }

  function SetUp(m: Memory, k: int, parent: int): Memory
    requires k != NULL ==> k in m
  {
    if k == NULL then m else m[k := m[k].(parent := parent)]
  }

  /** The writes of RB_ROTATE_LEFT, in the order of the source. */
  function RelinkLeft(m: Memory, elm: int, p: Path): Memory
    requires elm in m && m[elm].right in m
    requires !p.Top? ==> p.fd in m
    requires var c := m[m[elm].right].left; c != NULL ==> c in m
  {
    var tmp := m[elm].right;
    var c := m[tmp].left;
    var m1 := SetUp(m[elm := m[elm].(right := c)], c, elm);
    var m2 := SwapLink(SetUp(m1, tmp, PathPtr(p)), p, tmp);
    SetUp(m2[tmp := m2[tmp].(left := elm)], elm, tmp)
  }

  /** The writes of RB_ROTATE_RIGHT. */
  function RelinkRight(m: Memory, elm: int, p: Path): Memory
    requires elm in m && m[elm].left in m
    requires !p.Top? ==> p.fd in m
    requires var c := m[m[elm].left].right; c != NULL ==> c in m
  {
    var tmp := m[elm].left;
    var c := m[tmp].right;
    var m1 := SetUp(m[elm := m[elm].(left := c)], c, elm);
    var m2 := SwapLink(SetUp(m1, tmp, PathPtr(p)), p, tmp);
    SetUp(m2[tmp := m2[tmp].(right := elm)], elm, tmp)
  }

  /** What a rotation of either direction finds in memory around the edge (x, y). */
  ghost predicate Edge(m: Memory, p: Path, x: int, y: int, c: int, top: int)
    requires top == x || top == y
  {
    var q := PathPtr(p);
    && x in m && y in m && (c != NULL ==> c in m) && (!p.Top? ==> q in m)
    && m[top].parent == q && (!p.Top? ==> (m[q].left == top <==> p.InLeft?))
    && x != y && c != x && c != y && q != x && q != y && (q == c ==> c == NULL)
  }

  lemma RotateLeftReady(m: Memory, t: Tree, p: Path)
    requires Holds(m, t, p) && BstAt(t, p) && t.Bin? && t.right.Bin?
    ensures var (x, y, c) := (t.fd, t.right.fd, Ptr(t.right.left));
      Edge(m, p, x, y, c, x) && m[x].right == y && m[y].left == c
  {
    var (x, y, c, q) := (t.fd, t.right.fd, Ptr(t.right.left), PathPtr(p));
    RotatedCells(t, p, x);
    RotatedCells(t, p, y);
    RotatedCells(t, p, c);
    PathCells(p, x, y, q);
    assert Lookup(m, x) == CellAt(t, p, x) && Lookup(m, y) == CellAt(t, p, y);
    assert Lookup(m, c) == CellAt(t, p, c) && Lookup(m, q) == CellAt(t, p, q);
  }

  lemma RotateRightReady(m: Memory, t: Tree, p: Path)
    requires BstAt(t, p) && t.Bin? && t.right.Bin? && Holds(m, RotatedLeft(t), p)
    ensures var (x, y, c) := (t.fd, t.right.fd, Ptr(t.right.left));
      Edge(m, p, x, y, c, y) && m[y].left == x && m[x].right == c
  {
    var (x, y, c, q) := (t.fd, t.right.fd, Ptr(t.right.left), PathPtr(p));
    var n := RotatedLeft(t);
    RotatedCells(t, p, x);
    RotatedCells(t, p, y);
    RotatedCells(t, p, c);
    PathCells(p, y, x, q);
    assert Lookup(m, x) == CellAt(n, p, x) && Lookup(m, y) == CellAt(n, p, y);
    assert Lookup(m, c) == CellAt(n, p, c) && Lookup(m, q) == CellAt(n, p, q);
  }

  lemma RotateLeftRelinks(m: Memory, t: Tree, p: Path)
    requires Holds(m, t, p) && BstAt(t, p) && t.Bin? && t.right.Bin?
    requires Edge(m, p, t.fd, t.right.fd, Ptr(t.right.left), t.fd)
    requires m[t.fd].right == t.right.fd && m[t.right.fd].left == Ptr(t.right.left)
    ensures BstAt(RotatedLeft(t), p) && Holds(RelinkLeft(m, t.fd, p), RotatedLeft(t), p)
  {
    RotatedCells(t, p, t.fd);
    forall k
      ensures Lookup(RelinkLeft(m, t.fd, p), k) == CellAt(RotatedLeft(t), p, k)
    {
      RotateLeftRelinksAt(m, t, p, k);
    }
  }

  lemma RotateLeftRelinksAt(m: Memory, t: Tree, p: Path, k: int)
    requires Holds(m, t, p) && BstAt(t, p) && t.Bin? && t.right.Bin?
    requires Edge(m, p, t.fd, t.right.fd, Ptr(t.right.left), t.fd)
    requires m[t.fd].right == t.right.fd && m[t.right.fd].left == Ptr(t.right.left)
    ensures Lookup(RelinkLeft(m, t.fd, p), k) == CellAt(RotatedLeft(t), p, k)
  {
    assert Lookup(m, k) == CellAt(t, p, k);
    RotatedCells(t, p, k);
    PathCells(p, t.fd, t.right.fd, k);
  }

  lemma RotateRightRelinks(m: Memory, t: Tree, p: Path)
    requires BstAt(t, p) && t.Bin? && t.right.Bin? && Holds(m, RotatedLeft(t), p)
    requires Edge(m, p, t.fd, t.right.fd, Ptr(t.right.left), t.right.fd)
    requires m[t.right.fd].left == t.fd && m[t.fd].right == Ptr(t.right.left)
    ensures Holds(RelinkRight(m, t.right.fd, p), t, p)
  {
    forall k
      ensures Lookup(RelinkRight(m, t.right.fd, p), k) == CellAt(t, p, k)
    {
      RotateRightRelinksAt(m, t, p, k);
    }
  }

  lemma RotateRightRelinksAt(m: Memory, t: Tree, p: Path, k: int)
    requires BstAt(t, p) && t.Bin? && t.right.Bin? && Holds(m, RotatedLeft(t), p)
    requires Edge(m, p, t.fd, t.right.fd, Ptr(t.right.left), t.right.fd)
    requires m[t.right.fd].left == t.fd && m[t.fd].right == Ptr(t.right.left)
    ensures Lookup(RelinkRight(m, t.right.fd, p), k) == CellAt(t, p, k)
  {
    assert Lookup(m, k) == CellAt(RotatedLeft(t), p, k);
    RotatedCells(t, p, k);
    PathCells(p, t.right.fd, t.fd, k);
  }

  // ---------- Moving and flipping ----------

  /** The subtree one level up. */
  function Join(t: Tree, p: Path): Tree
    requires !p.Top?
  {
    if p.InLeft? then Bin(t, p.fd, p.redLeft, p.redRight, p.right)
    else Bin(p.left, p.fd, p.redLeft, p.redRight, t)
  }

  lemma Up(m: Memory, t: Tree, p: Path)
    requires !p.Top?
    ensures BstAt(t, p) <==> BstAt(Join(t, p), p.up)
    ensures BstAt(t, p) ==> (Holds(m, t, p) <==> Holds(m, Join(t, p), p.up))
    ensures PathRoot(p, Ptr(t)) == PathRoot(p.up, Ptr(Join(t, p)))
  {
    if BstAt(t, p) {
      forall k
        ensures CellAt(t, p, k) == CellAt(Join(t, p), p.up, k)
      {
      }
      if Holds(m, Join(t, p), p.up) {
        forall k
          ensures Lookup(m, k) == CellAt(t, p, k)
        {
          assert Lookup(m, k) == CellAt(Join(t, p), p.up, k);
        }
      }
    }
  }

  function Painted(t: Tree, redLeft: bool, redRight: bool): Tree
    requires t.Bin?
  {
    t.(redLeft := redLeft, redRight := redRight)
  }

  lemma RootCell(m: Memory, t: Tree, p: Path)
    requires Holds(m, t, p) && BstAt(t, p) && t.Bin?
    ensures t.fd in m
    ensures m[t.fd] == Cell(Ptr(t.left), Ptr(t.right), PathPtr(p), t.redLeft, t.redRight)
  {
    assert Lookup(m, t.fd) == CellAt(t, p, t.fd);
  }

  /** The search for k moves through memory without touching it. */
  lemma {:induction false} DescendHolds(m: Memory, t: Tree, p: Path, k: int)
    requires Holds(m, t, p) && BstAt(t, p)
    ensures var (s, q) := Descend(t, p, k);
      Holds(m, s, q) && BstAt(s, q) && PathRoot(q, Ptr(s)) == PathRoot(p, Ptr(t))
  {
    if t.Bin? {
      if k < t.fd {
        var q := InLeft(t.fd, t.redLeft, t.redRight, t.right, p);
        Up(m, t.left, q);
        DescendHolds(m, t.left, q, k);
      } else if k > t.fd {
        var q := InRight(t.left, t.fd, t.redLeft, t.redRight, p);
        Up(m, t.right, q);
        DescendHolds(m, t.right, q, k);
      }
    }
  }

  lemma ParentCell(m: Memory, t: Tree, p: Path)
    requires Holds(m, t, p) && BstAt(t, p) && !p.Top?
    ensures p.fd in m && m[p.fd].parent == PathPtr(p.up)
    ensures m[p.fd].redLeft == p.redLeft && m[p.fd].redRight == p.redRight
    ensures m[p.fd].left == Ptr(Join(t, p).left) && m[p.fd].right == Ptr(Join(t, p).right)
    ensures t.Bin? || Braced(t, p) ==> (m[p.fd].left == Ptr(t) <==> p.InLeft?)
    ensures t.Bin? || Braced(t, p) ==> (m[p.fd].right == Ptr(t) <==> p.InRight?)
    ensures m[p.fd].left == Ptr(t) && m[p.fd].right == Ptr(t) <==> !Braced(t, p)
  {
    Up(m, t, p);
    RootCell(m, Join(t, p), p.up);
  }

  lemma SiblingRight(m: Memory, t: Tree, p: Path)
    requires Holds(m, t, p) && BstAt(t, p) && t.Bin? && t.right.Bin?
    ensures t.right.fd in m
    ensures m[t.right.fd].redLeft == t.right.redLeft && m[t.right.fd].redRight == t.right.redRight
  {
    var q := InRight(t.left, t.fd, t.redLeft, t.redRight, p);
    Up(m, t.right, q);
    RootCell(m, t.right, q);
  }

  lemma SiblingLeft(m: Memory, t: Tree, p: Path)
    requires Holds(m, t, p) && BstAt(t, p) && t.Bin? && t.left.Bin?
    ensures t.left.fd in m
    ensures m[t.left.fd].redLeft == t.left.redLeft && m[t.left.fd].redRight == t.left.redRight
  {
    var q := InLeft(t.fd, t.redLeft, t.redRight, t.right, p);
    Up(m, t.left, q);
    RootCell(m, t.left, q);
  }

  lemma {:induction false} PlugHolds(m: Memory, t: Tree, p: Path)
    requires Holds(m, t, p) && BstAt(t, p)
    ensures BstAt(Plug(t, p), Top) && Holds(m, Plug(t, p), Top)
    ensures PathRoot(p, Ptr(t)) == Ptr(Plug(t, p))
    decreases p
  {
    if !p.Top? {
      Up(m, t, p);
      PlugHolds(m, Join(t, p), p.up);
    }
  }

  lemma PaintedHolds(m: Memory, t: Tree, p: Path, redLeft: bool, redRight: bool)
    requires Holds(m, t, p) && BstAt(t, p) && t.Bin?
    ensures t.fd in m && BstAt(Painted(t, redLeft, redRight), p)
    ensures Holds(m[t.fd := m[t.fd].(redLeft := redLeft, redRight := redRight)], Painted(t, redLeft, redRight), p)
  {
    RootCell(m, t, p);
    var m' := m[t.fd := m[t.fd].(redLeft := redLeft, redRight := redRight)];
    forall k
      ensures Lookup(m', k) == CellAt(Painted(t, redLeft, redRight), p, k)
    {
      assert Lookup(m, k) == CellAt(t, p, k);
    }
  }

  /** The right child takes over the right bit of its new parent. */
  ghost function Sunk(n: Tree): Tree
    requires n.Bin? && n.right.Bin?
  {
    n.(right := n.right.(redLeft := n.redRight))
  }

  ghost function SunkLeft(n: Tree): Tree
    requires n.Bin? && n.left.Bin?
  {
    n.(left := n.left.(redRight := n.redLeft))
  }

  // ---------- Linking and unlinking ----------

  function LinkLeaf(m: Memory, elm: int, p: Path): Memory
    requires !p.Top? ==> p.fd in m
  {
    SwapLink(m[elm := Cell(NULL, NULL, PathPtr(p), false, false)], p, elm)
  }

  lemma LinkLeafHolds(m: Memory, elm: Fd, p: Path)
    requires Holds(m, Nil, p) && BstPath(p) && Lo(p) < elm < Hi(p)
    ensures !p.Top? ==> p.fd in m && p.fd != elm
    ensures elm !in m
    ensures BstAt(Leaf(elm), p) && Holds(LinkLeaf(m, elm, p), Leaf(elm), p)
    ensures PathRoot(p, elm) == if p.Top? then elm else PathRoot(p, NULL)
  {
    PathRefill(p, NULL, elm, PathPtr(p));
    assert Lookup(m, PathPtr(p)) == CellAt(Nil, p, PathPtr(p));
    assert Lookup(m, elm) == CellAt(Nil, p, elm);
    forall k
      ensures Lookup(LinkLeaf(m, elm, p), k) == CellAt(Leaf(elm), p, k)
    {
      assert Lookup(m, k) == CellAt(Nil, p, k);
      PathRefill(p, NULL, elm, k);
      CellBelow(Leaf(elm), PathPtr(p), k);
    }
  }

  /** A node with at most one child gives its place to that child, or to null. */
  function Unlink(m: Memory, s: Tree, c: Tree, p: Path): Memory
    requires s.Bin? && (c.Bin? ==> c.fd in m)
    requires !p.Top? ==> p.fd in m
  {
    SetUp(SwapLink(m, p, Ptr(c)), Ptr(c), PathPtr(p)) - {s.fd}
  }

  lemma UnlinkReady(m: Memory, s: Tree, p: Path)
    requires Holds(m, s, p) && BstAt(s, p) && s.Bin? && (s.left.Nil? || s.right.Nil?)
    ensures var c := OnlyChild(s);
      && (c.Bin? ==> c.fd in m && Lo(p) < c.fd < Hi(p) && c.fd != s.fd)
      && (!p.Top? ==> p.fd in m && (m[p.fd].left == s.fd <==> p.InLeft?))
      && (p.Top? || p.fd <= Lo(p) || p.fd >= Hi(p))
      && BstAt(c, p)
      && PathRoot(p, Ptr(c)) == if p.Top? then Ptr(c) else PathRoot(p, s.fd)
  {
    var c := OnlyChild(s);
    if s.left.Nil? {
      BstWiden(s.right, s.fd, Hi(p), Lo(p), Hi(p));
    } else {
      BstWiden(s.left, Lo(p), s.fd, Lo(p), Hi(p));
    }
    PathCells(p, s.fd, Ptr(c), PathPtr(p));
    assert Lookup(m, PathPtr(p)) == CellAt(s, p, PathPtr(p));
    CellAdopted(c, s.fd, PathPtr(p), Ptr(c));
    CellBelow(s, PathPtr(p), Ptr(c));
    assert Lookup(m, Ptr(c)) == CellAt(s, p, Ptr(c));
  }

  lemma UnlinkCells(s: Tree, p: Path, k: int)
    requires BstAt(s, p) && s.Bin? && (s.left.Nil? || s.right.Nil?)
    ensures var c := OnlyChild(s);
      if k == s.fd then CellAt(c, p, k) == None
      else if c.Bin? && k == c.fd then
        CellAt(s, p, k).Some? && CellAt(c, p, k) == Some(CellAt(s, p, k).value.(parent := PathPtr(p)))
      else k == PathPtr(p) || CellAt(c, p, k) == CellAt(s, p, k)
  {
    var c := OnlyChild(s);
    CellBelow(s, PathPtr(p), k);
    CellAdopted(c, s.fd, PathPtr(p), k);
    if s.left.Nil? {
      CellOutside(c, PathPtr(p), s.fd, Hi(p), k);
    } else {
      CellOutside(c, PathPtr(p), Lo(p), s.fd, k);
    }
    PathCells(p, s.fd, Ptr(c), k);
  }

  lemma UnlinkHolds(m: Memory, s: Tree, p: Path)
    requires Holds(m, s, p) && BstAt(s, p) && s.Bin? && (s.left.Nil? || s.right.Nil?)
    requires OnlyChild(s).Bin? ==> OnlyChild(s).fd in m
    requires !p.Top? ==> p.fd in m
    ensures Holds(Unlink(m, s, OnlyChild(s), p), OnlyChild(s), p)
  {
    var c := OnlyChild(s);
    UnlinkReady(m, s, p);
    forall k
      ensures Lookup(Unlink(m, s, c, p), k) == CellAt(c, p, k)
    {
      assert Lookup(m, k) == CellAt(s, p, k);
      UnlinkCells(s, p, k);
      PathCells(p, s.fd, Ptr(c), k);
    }
  }

  lemma {:induction false} CellOutside(t: Tree, parent: int, lo: int, hi: int, k: int)
    requires Bst(t, lo, hi)
    ensures !(lo < k < hi) ==> CellOf(t, parent, k) == None
  {
    if t.Bin? {
      if k < t.fd {
        CellOutside(t.left, t.fd, lo, t.fd, k);
      } else if k > t.fd {
        CellOutside(t.right, t.fd, t.fd, hi, k);
      }
    }
  }

  // ---------- The successor takes the place of a node with two children ----------

  /** A tree without its minimum differs in two cells: the child and the parent of the gap. */
  lemma {:induction false} MinHoleCells(t: Tree, p: Path, k: int)
    requires t.Bin? && BstPath(p) && Lo(p) == Min(t) && Bst(t, Lo(p) - 1, Hi(p))
    ensures var (c, q) := MinHole(t, p);
      var (u, v) := (CellOf(t, PathPtr(p), k), CellAt(c, q, k));
      && (t.left.Bin? ==> Lo(p) < PathPtr(q) < Hi(p))
      && (t.left.Nil? ==> q == p)
      && (c.Bin? ==> Lo(p) < c.fd < Hi(p) && c.fd != PathPtr(q) && (t.left.Bin? ==> c.fd < t.fd))
      && if Lo(p) < k < Hi(p) then
           if c.Bin? && k == c.fd then u.Some? && v == Some(u.value.(parent := PathPtr(q)))
           else if t.left.Bin? && k == PathPtr(q) then u.Some? && v == Some(u.value.(left := Ptr(c)))
           else v == u
         else v == PathCell(p, if t.left.Nil? then Ptr(c) else t.fd, k)
  {
    CellBelow(t, PathPtr(p), k);
    if t.left.Nil? {
      CellAdopted(t.right, t.fd, PathPtr(p), k);
    } else {
      MinHoleCells(t.left, InLeft(t.fd, t.redLeft, t.redRight, t.right, p), k);
    }
  }

  lemma {:induction false} MinCell(t: Tree, p: Path)
    requires t.Bin? && BstPath(p) && Lo(p) == Min(t) && Bst(t, Lo(p) - 1, Hi(p))
    ensures var ((c, q), u) := (MinHole(t, p), CellOf(t, PathPtr(p), Min(t)));
      && u.Some? && u.value.left == NULL && u.value.right == Ptr(c) && u.value.parent == PathPtr(q)
  {
    if t.left.Bin? {
      MinLeast(t.left, Lo(p) - 1, t.fd, t.fd);
      CellBelow(t, PathPtr(p), Min(t));
      MinCell(t.left, InLeft(t.fd, t.redLeft, t.redRight, t.right, p));
    }
  }

  ghost predicate TwoChildren(s: Tree, p: Path) {
    s.Bin? && s.left.Bin? && s.right.Bin? && BstAt(s, p)
  }

  lemma SuccessorPath(s: Tree, p: Path)
    requires TwoChildren(s, p)
    ensures var q := Successor(s, p);
      BstPath(q) && Lo(q) == Min(s.right) && Bst(s.right, Lo(q) - 1, Hi(q)) && s.fd < Min(s.right) < Hi(p)
  {
    MinLeast(s.right, s.fd, Hi(p), s.fd);
    BstWiden(s.left, Lo(p), s.fd, Lo(p), Min(s.right));
    BstRaise(s.right, s.fd, Hi(p), Min(s.right) - 1);
  }

  /** Node k before and after the successor has replaced s. */
  ghost predicate Spliced(s: Tree, p: Path, k: int)
    requires TwoChildren(s, p)
  {
    var (l, r, y) := (s.left, s.right, Min(s.right));
    var (c, q) := MinHole(r, Successor(s, p));
    var (u, v) := (CellAt(s, p, k), CellAt(c, q, k));
    if k == s.fd then v == None
    else if k == y then
      v == Some(Cell(l.fd, if r.left.Nil? then Ptr(c) else r.fd, PathPtr(p), s.redLeft, s.redRight))
    else if k == l.fd then u.Some? && v == Some(u.value.(parent := y))
    else if c.Bin? && k == c.fd then u.Some? && v == Some(u.value.(parent := PathPtr(q)))
    else if r.left.Bin? && (k == r.fd || k == PathPtr(q)) then
      u.Some? && v == Some(u.value.(
        left := if k == PathPtr(q) then Ptr(c) else u.value.left,
        parent := if k == r.fd then y else u.value.parent))
    else if !p.Top? && k == p.fd then
      u.Some? && v == Some(if p.InLeft? then u.value.(left := y) else u.value.(right := y))
    else v == u
  }

  lemma SplicedAbove(s: Tree, p: Path, k: int)
    requires TwoChildren(s, p) && Min(s.right) < k < Hi(p)
    ensures Spliced(s, p, k)
  {
    SuccessorPath(s, p);
    MinHoleCells(s.right, Successor(s, p), k);
    CellBelow(s, PathPtr(p), k);
    CellAdopted(s.right, s.fd, Min(s.right), k);
  }

  lemma SplicedBelow(s: Tree, p: Path, k: int)
    requires TwoChildren(s, p) && Lo(p) < k <= Min(s.right)
    ensures Spliced(s, p, k)
  {
    var y := Min(s.right);
    SuccessorPath(s, p);
    MinHoleCells(s.right, Successor(s, p), k);
    CellBelow(s, PathPtr(p), k);
    CellAdopted(s.left, s.fd, y, k);
    CellOutside(s.left, y, Lo(p), s.fd, k);
    CellOutside(s.right, s.fd, y - 1, Hi(p), k);
  }

  lemma SplicedOutside(s: Tree, p: Path, k: int)
    requires TwoChildren(s, p) && !(Lo(p) < k < Hi(p))
    ensures Spliced(s, p, k)
  {
    SuccessorPath(s, p);
    MinHoleCells(s.right, Successor(s, p), k);
    PathRefill(p, s.fd, Min(s.right), k);
  }

  lemma SplicedAt(s: Tree, p: Path, k: int)
    requires TwoChildren(s, p)
    ensures Spliced(s, p, k)
  {
    if !(Lo(p) < k < Hi(p)) {
      SplicedOutside(s, p, k);
    } else if k <= Min(s.right) {
      SplicedBelow(s, p, k);
    } else {
      SplicedAbove(s, p, k);
    }
  }

  /** One write to one cell, or none where there is no cell. */
  function WithLeft(m: Memory, k: int, to: int): Memory {
    if k in m then m[k := m[k].(left := to)] else m
  }

  function WithRight(m: Memory, k: int, to: int): Memory {
    if k in m then m[k := m[k].(right := to)] else m
  }

  function WithParent(m: Memory, k: int, to: int): Memory {
    if k != NULL && k in m then m[k := m[k].(parent := to)] else m
  }

  function WithChild(m: Memory, p: Path, to: int): Memory {
    if p.Top? then m else if p.InLeft? then WithLeft(m, p.fd, to) else WithRight(m, p.fd, to)
  }

  /** RB_REMOVE for a node out with two children: close the gap its successor y leaves, */
  function CloseGap(m: Memory, out: int, y: int, child: int, gap: int): Memory {
    if out !in m then m
    else if gap == y then WithRight(m, out, child)
    else WithParent(WithLeft(m, gap, child), m[out].right, y)
  }

  /** and put y where out was. */
  function TakePlace(m: Memory, out: int, y: int, child: int, gap: int, p: Path): Memory {
    if out !in m then m else
    var m2 := WithParent(m, m[out].left, y);
    if out !in m2 then m else
    WithParent(WithChild(m2[y := m2[out]], p, y), child, gap) - {out}
  }

  function Splice(m: Memory, out: int, y: int, child: int, gap: int, p: Path): Memory {
    TakePlace(CloseGap(m, out, y, child, gap), out, y, child, gap, p)
  }

  /** What RB_REMOVE reads on its way to the successor. */
  lemma SpliceReady(m: Memory, s: Tree, p: Path)
    requires TwoChildren(s, p) && Holds(m, s, p)
    ensures var (l, r, y) := (s.left, s.right, Min(s.right));
      && s.fd in m && m[s.fd] == Cell(l.fd, r.fd, PathPtr(p), s.redLeft, s.redRight)
      && l.fd in m && r.fd in m && m[r.fd].left == Ptr(r.left)
      && (!p.Top? ==> p.fd in m && (m[p.fd].left == s.fd <==> p.InLeft?))
      && PathRoot(p, y) == (if p.Top? then y else PathRoot(p, s.fd))
  {
    var (l, r) := (s.left, s.right);
    RootCell(m, s, p);
    var w := InRight(l, s.fd, s.redLeft, s.redRight, p);
    Up(m, r, w);
    RootCell(m, r, w);
    var v := InLeft(s.fd, s.redLeft, s.redRight, r, p);
    Up(m, l, v);
    RootCell(m, l, v);
    PathCells(p, s.fd, Min(r), PathPtr(p));
    assert Lookup(m, PathPtr(p)) == CellAt(s, p, PathPtr(p));
  }

  lemma SuccessorCells(m: Memory, s: Tree, p: Path)
    requires TwoChildren(s, p) && Holds(m, s, p)
    ensures var (r, y) := (s.right, Min(s.right));
      var (c, q) := MinHole(r, Successor(s, p));
      && y in m && m[y].right == Ptr(c)
      && (c.Bin? ==> c.fd in m && y < c.fd < Hi(p) && (r.left.Bin? ==> c.fd < r.fd))
      && (if r.left.Bin? then m[y].parent == PathPtr(q) && PathPtr(q) in m && y < PathPtr(q) < Hi(p)
          else r.fd == y == PathPtr(q))
      && (c.Bin? ==> c.fd != PathPtr(q))
  {
    var (r, y) := (s.right, Min(s.right));
    var path := Successor(s, p);
    var (c, q) := MinHole(r, path);
    SuccessorPath(s, p);
    MinCell(r, path);
    MinHoleCells(r, path, Ptr(c));
    MinHoleCells(r, path, PathPtr(q));
    CellAdopted(r, s.fd, y, y);
    CellAdopted(r, s.fd, y, Ptr(c));
    CellAdopted(r, s.fd, y, PathPtr(q));
    CellBelow(s, PathPtr(p), y);
    CellBelow(s, PathPtr(p), Ptr(c));
    CellBelow(s, PathPtr(p), PathPtr(q));
    assert Lookup(m, y) == CellAt(s, p, y);
    assert Lookup(m, Ptr(c)) == CellAt(s, p, Ptr(c));
    assert Lookup(m, PathPtr(q)) == CellAt(s, p, PathPtr(q));
  }

  /** The cells that Splice touches are there and apart from each other. */
  ghost predicate SpliceApart(m: Memory, out: int, y: int, child: int, gap: int, p: Path) {
    && out in m && y in m && m[out].left in m && m[out].right in m
    && var (l, r) := (m[out].left, m[out].right);
    && l != out && l != y && l != r && l != child && l != gap && out != y && out != r
    && child != out && child != y && child != gap && gap != out && (child != NULL ==> child in m)
    && (if gap == y then r == y else gap in m && r != y && r != child)
    && (!p.Top? ==> p.fd in m && p.fd !in {out, y, l, r, child, gap})
    && NULL !in {out, y, l, r, gap}
  }

  /** Node k after the writes of Splice. */
  ghost predicate SpliceWrites(m: Memory, out: int, y: int, child: int, gap: int, p: Path, k: int)
    requires SpliceApart(m, out, y, child, gap, p)
  {
    var (l, r, u) := (m[out].left, m[out].right, Lookup(m, k));
    Lookup(Splice(m, out, y, child, gap, p), k) ==
      if k == out then None
      else if k == y then Some(m[out].(right := if gap == y then child else r))
      else if u.None? then None
      else if k == l then Some(u.value.(parent := y))
      else if k == child then Some(u.value.(parent := gap))
      else if gap != y && (k == r || k == gap) then Some(u.value.(
        left := if k == gap then child else u.value.left,
        parent := if k == r then y else u.value.parent))
      else if !p.Top? && k == p.fd then
        Some(if p.InLeft? then u.value.(left := y) else u.value.(right := y))
      else u
  }

  lemma SpliceNear(m: Memory, out: int, y: int, child: int, p: Path, k: int)
    requires SpliceApart(m, out, y, child, y, p) && NULL !in m
    ensures SpliceWrites(m, out, y, child, y, p, k)
  {
  }

  lemma SpliceFar(m: Memory, out: int, y: int, child: int, gap: int, p: Path, k: int)
    requires SpliceApart(m, out, y, child, gap, p) && gap != y && NULL !in m
    ensures SpliceWrites(m, out, y, child, gap, p, k)
  {
  }

  lemma {:induction false} NoNull(p: Path, child: int)
    requires BstPath(p)
    ensures PathCell(p, child, NULL) == None
    decreases p
  {
    if !p.Top? {
      LoHi(p.up);
      NoNull(p.up, p.fd);
    }
  }

  lemma SpliceIsApart(m: Memory, s: Tree, p: Path)
    requires TwoChildren(s, p) && Holds(m, s, p)
    ensures NULL !in m
    ensures var (c, q) := MinHole(s.right, Successor(s, p));
      SpliceApart(m, s.fd, Min(s.right), Ptr(c), PathPtr(q), p)
  {
    LoHi(p);
    NoNull(p, s.fd);
    assert Lookup(m, NULL) == CellAt(s, p, NULL);
    SpliceReady(m, s, p);
    SuccessorCells(m, s, p);
    SuccessorPath(s, p);
    PathRefill(p, s.fd, s.fd, s.fd);
    var (c, q) := MinHole(s.right, Successor(s, p));
    assert Bst(s.left, Lo(p), s.fd) && Bst(s.right, s.fd, Hi(p));
    assert Lo(Top) < s.left.fd < s.fd < Min(s.right) <= s.right.fd < Hi(p) by {
      MinLeast(s.right, s.fd, Hi(p), s.right.fd);
    }
    assert c.Bin? ==> Ptr(c) in m && Min(s.right) < c.fd;
    assert s.right.left.Bin? ==> s.right.fd != Min(s.right) by {
      if s.right.left.Bin? {
        MinLeast(s.right.left, s.fd, s.right.fd, s.right.fd);
      }
    }
  }

  lemma SpliceHoldsAt(m: Memory, s: Tree, p: Path, k: int)
    requires TwoChildren(s, p) && Holds(m, s, p)
    ensures var (c, q) := MinHole(s.right, Successor(s, p));
      Lookup(Splice(m, s.fd, Min(s.right), Ptr(c), PathPtr(q), p), k) == CellAt(c, q, k)
  {
    var (c, q) := MinHole(s.right, Successor(s, p));
    SpliceReady(m, s, p);
    SuccessorCells(m, s, p);
    SpliceIsApart(m, s, p);
    SplicedAt(s, p, k);
    assert Lookup(m, k) == CellAt(s, p, k);
    if s.right.left.Nil? {
      SpliceNear(m, s.fd, Min(s.right), Ptr(c), p, k);
    } else {
      SpliceFar(m, s.fd, Min(s.right), Ptr(c), PathPtr(q), p, k);
    }
  }

  lemma SpliceHolds(m: Memory, s: Tree, p: Path)
    requires TwoChildren(s, p) && Holds(m, s, p)
    ensures var (c, q) := MinHole(s.right, Successor(s, p));
      Holds(Splice(m, s.fd, Min(s.right), Ptr(c), PathPtr(q), p), c, q)
  {
    var (c, q) := MinHole(s.right, Successor(s, p));
    forall k
      ensures Lookup(Splice(m, s.fd, Min(s.right), Ptr(c), PathPtr(q), p), k) == CellAt(c, q, k)
    {
      SpliceHoldsAt(m, s, p, k);
    }
  }

  /** Everything above the gap still hangs from the same root, or from the successor. */
  lemma {:induction false} MinHoleRoot(t: Tree, p: Path)
    requires t.Bin?
    ensures var (c, q) := MinHole(t, p); PathRoot(q, Ptr(c)) == PathRoot(p, if t.left.Nil? then Ptr(t.right) else t.fd)
  {
    if t.left.Bin? {
      MinHoleRoot(t.left, InLeft(t.fd, t.redLeft, t.redRight, t.right, p));
    }
  }

  /** All that RB_REMOVE needs to know of a node with two children. */
  lemma SplicePlan(m: Memory, s: Tree, p: Path)
    requires TwoChildren(s, p) && Holds(m, s, p)
    ensures var (r, y) := (s.right, Min(s.right));
      var (c, q) := MinHole(r, Successor(s, p));
      && SpliceApart(m, s.fd, y, Ptr(c), PathPtr(q), p)
      && m[s.fd].parent == PathPtr(p) && m[s.fd].right == r.fd && m[r.fd].left == Ptr(r.left)
      && m[y].right == Ptr(c)
      && (if r.left.Nil? then r.fd == y == PathPtr(q) else m[y].parent == PathPtr(q) != y)
      && (!p.Top? ==> p.fd in m && (m[p.fd].left == s.fd <==> p.InLeft?))
      && Holds(Splice(m, s.fd, y, Ptr(c), PathPtr(q), p), c, q)
      && PathRoot(q, Ptr(c)) == if p.Top? then y else PathRoot(p, s.fd)
  {
    SpliceReady(m, s, p);
    SuccessorCells(m, s, p);
    SpliceIsApart(m, s, p);
    SpliceHolds(m, s, p);
    MinHoleRoot(s.right, Successor(s, p));
  }

  /** How RB_REMOVE starts: at the node of elm, in memory that holds the whole tree. */
  lemma RemovePlan(m: Memory, t: Tree, elm: Fd) returns (s: Tree, p: Path, c: Tree, q: Path)
    requires WavlTree.Valid(t) && Has(t, elm) && BstAt(t, Top) && Holds(m, t, Top)
    ensures s.Bin? && s.fd == elm && Wavl(s) && Fits(p, Rank(s))
    ensures BstAt(s, p) && Holds(m, s, p) && PathRoot(p, Ptr(s)) == Ptr(t)
    ensures (c, q) == Vacate(s, p) && Demoted(c, q) && BstAt(c, q)
    ensures Remove(t, elm) == RemoveColor(c, q)
    ensures q.Top? ==> Remove(t, elm) == c
  {
    Descended(t, Top, elm);
    DescendHolds(m, t, Top, elm);
    var (s', p') := Descend(t, Top, elm);
    s, p := s', p';
    Vacated(s, p, elm);
    var (c', q') := Vacate(s, p);
    c, q := c', q';
  }
}
