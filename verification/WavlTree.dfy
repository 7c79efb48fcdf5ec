/**
 The weak-AVL tree of external/tree-macros/include/sys/tree.h as a value: a
 search tree of descriptors whose nodes carry two rank-difference bits, and
 what the RB_* macros make of it.

 A repair climbs from a subtree to the root.  What the source reaches through
 parent pointers is here the path from the subtree to the root.
 */
module WavlTree {
  import opened Powers

  const INT_MAX := 0x7fff_ffff

  type Fd = x: int | 0 <= x <= INT_MAX

  /** A set bit stands for a rank difference of 2, a clear one for 1. */
  datatype Tree =
    | Nil
    | Bin(left: Tree, fd: Fd, redLeft: bool, redRight: bool, right: Tree)

  /** A tree with a hole: the ancestors of the hole, innermost first. */
  datatype Path =
    | Top
    | InLeft(fd: Fd, redLeft: bool, redRight: bool, right: Tree, up: Path)
    | InRight(left: Tree, fd: Fd, redLeft: bool, redRight: bool, up: Path)

  function Plug(t: Tree, p: Path): Tree
    decreases p
  {
    match p
    case Top => t
    case InLeft(fd, rl, rr, r, up) => Plug(Bin(t, fd, rl, rr, r), up)
    case InRight(l, fd, rl, rr, up) => Plug(Bin(l, fd, rl, rr, t), up)
  }

  // ---------- Search order ----------

  /** A search tree of descriptors strictly between lo and hi. */
  predicate Bst(t: Tree, lo: int, hi: int) {
    t.Bin? ==> lo < t.fd < hi && Bst(t.left, lo, t.fd) && Bst(t.right, t.fd, hi)
  }

  /** The bounds a path sets to whatever fills its hole. */
  function Lo(p: Path): int {
    match p
    case Top => -1
    case InLeft(_, _, _, _, up) => Lo(up)
    case InRight(_, fd, _, _, _) => fd
  }

  function Hi(p: Path): int {
    match p
    case Top => INT_MAX + 1
    case InLeft(fd, _, _, _, _) => fd
    case InRight(_, _, _, _, up) => Hi(up)
  }

  predicate BstPath(p: Path)
    decreases p
  {
    match p
    case Top => true
    case InLeft(fd, _, _, r, up) => Lo(up) < fd < Hi(up) && Bst(r, fd, Hi(up)) && BstPath(up)
    case InRight(l, fd, _, _, up) => Lo(up) < fd < Hi(up) && Bst(l, Lo(up), fd) && BstPath(up)
  }

  predicate BstAt(t: Tree, p: Path) {
    Bst(t, Lo(p), Hi(p)) && BstPath(p)
  }

  /** Membership, by search. */
  predicate Has(t: Tree, k: int) {
    t.Bin? && (if k < t.fd then Has(t.left, k) else k == t.fd || Has(t.right, k))
  }

  predicate HasPath(p: Path, k: int)
    decreases p
  {
    match p
    case Top => false
    case InLeft(fd, _, _, r, up) => k == fd || (if fd < k < Hi(up) then Has(r, k) else HasPath(up, k))
    case InRight(l, fd, _, _, up) => k == fd || (if Lo(up) < k < fd then Has(l, k) else HasPath(up, k))
  }

  predicate HasAt(t: Tree, p: Path, k: int) {
    if Lo(p) < k < Hi(p) then Has(t, k) else HasPath(p, k)
  }

  lemma {:induction false} HasBounds(t: Tree, lo: int, hi: int, k: int)
    requires Bst(t, lo, hi) && Has(t, k)
    ensures lo < k < hi
  {
    if k < t.fd {
      HasBounds(t.left, lo, t.fd, k);
    } else if k > t.fd {
      HasBounds(t.right, t.fd, hi, k);
    }
  }

  lemma {:induction false} PlugKeeps(t: Tree, p: Path, k: int)
    requires BstAt(t, p)
    ensures Bst(Plug(t, p), Lo(Top), Hi(Top))
    ensures Lo(Top) < k < Hi(Top) ==> (Has(Plug(t, p), k) <==> HasAt(t, p, k))
    decreases p
  {
    match p
    case Top =>
    case InLeft(fd, rl, rr, r, up) =>
      PlugKeeps(Bin(t, fd, rl, rr, r), up, k);
    case InRight(l, fd, rl, rr, up) =>
      PlugKeeps(Bin(l, fd, rl, rr, t), up, k);
  }

  /** The descriptors of a tree in order. */
  function Keys(t: Tree): seq<int> {
    match t
    case Nil => []
    case Bin(l, fd, _, _, r) => Keys(l) + [fd] + Keys(r)
  }

  /** In order means ascending, and search finds exactly what is there. */
  lemma {:induction false} KeysAscend(t: Tree, lo: int, hi: int)
    requires Bst(t, lo, hi)
    ensures forall i, j :: 0 <= i < j < |Keys(t)| ==> Keys(t)[i] < Keys(t)[j]
    ensures forall i :: 0 <= i < |Keys(t)| ==> lo < Keys(t)[i] < hi && Has(t, Keys(t)[i])
    ensures forall k :: Has(t, k) ==> k in Keys(t)
  {
    if t.Bin? {
      KeysAscend(t.left, lo, t.fd);
      KeysAscend(t.right, t.fd, hi);
    }
  }

  // ---------- The rank rule ----------

  function Difference(red: bool): int {
    if red then 2 else 1
  }

  /** The rank of null is 0; the left edge says how much higher a node is. */
  function Rank(t: Tree): nat {
    if t.Nil? then 0 else Rank(t.left) + Difference(t.redLeft)
  }

  /** Rank differences agree on every way down, and every leaf has rank 1. */
  predicate Wavl(t: Tree) {
    t.Bin? ==>
      && Rank(t.left) + Difference(t.redLeft) == Rank(t.right) + Difference(t.redRight)
      && (t.left.Nil? && t.right.Nil? ==> !t.redLeft && !t.redRight)
      && Wavl(t.left) && Wavl(t.right)
  }

  /** The path obeys the rank rule once a tree of rank k fills its hole. */
  predicate Fits(p: Path, k: int)
    decreases p
  {
    match p
    case Top => true
    case InLeft(_, rl, rr, r, up) =>
      && Wavl(r) && k + Difference(rl) == Rank(r) + Difference(rr)
      && (k == 0 && r.Nil? ==> !rl)
      && Fits(up, k + Difference(rl))
    case InRight(l, _, rl, rr, up) =>
      && Wavl(l) && k + Difference(rr) == Rank(l) + Difference(rl)
      && (k == 0 && l.Nil? ==> !rl)
      && Fits(up, k + Difference(rr))
  }

  lemma {:induction false} WavlPlug(t: Tree, p: Path)
    requires Wavl(t) && Fits(p, Rank(t))
    ensures Wavl(Plug(t, p))
    decreases p
  {
    match p
    case Top =>
    case InLeft(fd, rl, rr, r, up) =>
      WavlPlug(Bin(t, fd, rl, rr, r), up);
    case InRight(l, fd, rl, rr, up) =>
      WavlPlug(Bin(l, fd, rl, rr, t), up);
  }

  // ---------- RB_FIND ----------

  /** Where the search for k ends: at its node, or at the null in its place. */
  function Descend(t: Tree, p: Path, k: int): (r: (Tree, Path)) {
    if t.Nil? then (t, p)
    else if k < t.fd then Descend(t.left, InLeft(t.fd, t.redLeft, t.redRight, t.right, p), k)
    else if k > t.fd then Descend(t.right, InRight(t.left, t.fd, t.redLeft, t.redRight, p), k)
    else (t, p)
  }

  lemma {:induction false} Descended(t: Tree, p: Path, k: int)
    requires Wavl(t) && Fits(p, Rank(t)) && BstAt(t, p) && Lo(p) < k < Hi(p)
    ensures var (s, q) := Descend(t, p, k);
      && Plug(s, q) == Plug(t, p)
      && Wavl(s) && Fits(q, Rank(s)) && BstAt(s, q) && Lo(q) < k < Hi(q)
      && (if Has(t, k) then s.Bin? && s.fd == k else s.Nil?)
  {
    if t.Bin? {
      if k < t.fd {
        Descended(t.left, InLeft(t.fd, t.redLeft, t.redRight, t.right, p), k);
      } else if k > t.fd {
        Descended(t.right, InRight(t.left, t.fd, t.redLeft, t.redRight, p), k);
      }
    }
  }

  // ---------- RB_INSERT_COLOR ----------

  predicate BothRed(t: Tree) {
    t.Bin? && t.redLeft && t.redRight
  }

  /** The shape of a node right after it was linked in or promoted. */
  predicate Lopsided(t: Tree) {
    t.Bin? &&
    ( (t.left.Nil? && t.right.Nil?)
      || (t.redLeft && !t.redRight && !BothRed(t.right))
      || (!t.redLeft && t.redRight && !BothRed(t.left)))
  }

  /** t is one rank higher than the bits of its parent say. */
  predicate Promoted(t: Tree, p: Path) {
    Wavl(t) && Lopsided(t) && Fits(p, Rank(t) - 1)
  }

  /** One rotation, or two, at a node fd whose left child t stands as high as itself. */
  function LiftLeft(t: Tree, fd: Fd, r: Tree): Tree
    requires Lopsided(t) && (t.redRight || t.right.Bin?)
  {
    if t.redRight then
      Bin(t.left, t.fd, false, false, Bin(t.right, fd, false, false, r))
    else
      var c := t.right;
      Bin(Bin(t.left, t.fd, !t.redLeft, c.redLeft, c.left),
          c.fd, false, false,
          Bin(c.right, fd, !c.redLeft && c.redRight, false, r))
  }

  function LiftRight(l: Tree, fd: Fd, t: Tree): Tree
    requires Lopsided(t) && (t.redLeft || t.left.Bin?)
  {
    if t.redLeft then
      Bin(Bin(l, fd, false, false, t.left), t.fd, false, false, t.right)
    else
      var c := t.left;
      Bin(Bin(l, fd, false, !c.redRight && c.redLeft, c.left),
          c.fd, false, false,
          Bin(c.right, t.fd, c.redRight, !t.redRight, t.right))
  }

  lemma LiftedLeft(t: Tree, fd: Fd, r: Tree)
    requires Wavl(t) && Lopsided(t) && Wavl(r) && Rank(t) == Rank(r) + 2
    ensures t.redRight || t.right.Bin?
    ensures Wavl(LiftLeft(t, fd, r)) && Rank(LiftLeft(t, fd, r)) == Rank(t)
  {
  }

  lemma LiftedRight(l: Tree, fd: Fd, t: Tree)
    requires Wavl(t) && Lopsided(t) && Wavl(l) && Rank(t) == Rank(l) + 2
    ensures t.redLeft || t.left.Bin?
    ensures Wavl(LiftRight(l, fd, t)) && Rank(LiftRight(l, fd, t)) == Rank(t)
  {
  }

  lemma LiftLeftKeeps(t: Tree, fd: Fd, r: Tree, lo: int, hi: int, k: int)
    requires Lopsided(t) && (t.redRight || t.right.Bin?)
    requires lo < fd < hi && Bst(t, lo, fd) && Bst(r, fd, hi)
    ensures Bst(LiftLeft(t, fd, r), lo, hi)
    ensures Has(LiftLeft(t, fd, r), k) <==> Has(Bin(t, fd, false, false, r), k)
  {
    assert Has(t, k) <==> if k < t.fd then Has(t.left, k) else k == t.fd || Has(t.right, k);
    assert Bst(t.right, t.fd, fd);
  }

  lemma LiftRightKeeps(l: Tree, fd: Fd, t: Tree, lo: int, hi: int, k: int)
    requires Lopsided(t) && (t.redLeft || t.left.Bin?)
    requires lo < fd < hi && Bst(l, lo, fd) && Bst(t, fd, hi)
    ensures Bst(LiftRight(l, fd, t), lo, hi)
    ensures Has(LiftRight(l, fd, t), k) <==> Has(Bin(l, fd, false, false, t), k)
  {
    assert Has(t, k) <==> if k < t.fd then Has(t.left, k) else k == t.fd || Has(t.right, k);
    assert Bst(t.left, fd, t.fd);
  }

  /** One turn of a repair loop: finished, or one level further up. */
  datatype Step = Done(t: Tree, p: Path) | Climb(t: Tree, p: Path)

  function InsertStep(t: Tree, p: Path): Step
    requires Promoted(t, p) && !p.Top?
  {
    match p
    case InLeft(fd, rl, rr, r, up) =>
      if rl then Done(Bin(t, fd, false, rr, r), up)
      else if !rr then Climb(Bin(t, fd, false, true, r), up)
      else LiftedLeft(t, fd, r); Done(LiftLeft(t, fd, r), up)
    case InRight(l, fd, rl, rr, up) =>
      if rr then Done(Bin(l, fd, rl, false, t), up)
      else if !rl then Climb(Bin(l, fd, true, false, t), up)
      else LiftedRight(l, fd, t); Done(LiftRight(l, fd, t), up)
  }

  lemma InsertStepRanks(t: Tree, p: Path)
    requires Promoted(t, p) && !p.Top?
    ensures var s := InsertStep(t, p);
      s.p == p.up && if s.Done? then Wavl(s.t) && Fits(s.p, Rank(s.t)) else Promoted(s.t, s.p)
  {
    if p.InLeft? && !p.redLeft && p.redRight {
      LiftedLeft(t, p.fd, p.right);
    } else if p.InRight? && !p.redRight && p.redLeft {
      LiftedRight(p.left, p.fd, t);
    }
  }

  lemma InsertStepKeeps(t: Tree, p: Path, k: int)
    requires Promoted(t, p) && !p.Top? && BstAt(t, p)
    ensures var s := InsertStep(t, p);
      BstAt(s.t, s.p) && (HasAt(s.t, s.p, k) <==> HasAt(t, p, k))
  {
    if p.InLeft? && !p.redLeft && p.redRight {
      LiftedLeft(t, p.fd, p.right);
      LiftLeftKeeps(t, p.fd, p.right, Lo(p), Hi(p.up), k);
    } else if p.InRight? && !p.redRight && p.redLeft {
      LiftedRight(p.left, p.fd, t);
      LiftRightKeeps(p.left, p.fd, t, Lo(p.up), Hi(p), k);
    }
  }

  /** The repair after an insertion restores the rank rule all over the tree. */
  function InsertColor(t: Tree, p: Path): (r: Tree)
    requires Promoted(t, p)
    ensures Wavl(r)
    decreases p
  {
    if p.Top? then t else
    InsertStepRanks(t, p);
    match InsertStep(t, p)
    case Done(t', q) => WavlPlug(t', q); Plug(t', q)
    case Climb(t', q) => InsertColor(t', q)
  }

  /** ... and neither adds nor loses nor misplaces a descriptor. */
  lemma {:induction false} InsertColorKeeps(t: Tree, p: Path, k: int)
    requires Promoted(t, p) && BstAt(t, p) && Lo(Top) < k < Hi(Top)
    ensures Bst(InsertColor(t, p), Lo(Top), Hi(Top))
    ensures Has(InsertColor(t, p), k) <==> HasAt(t, p, k)
    decreases p
  {
    if !p.Top? {
      InsertStepRanks(t, p);
      InsertStepKeeps(t, p, k);
      match InsertStep(t, p)
      case Done(t', q) => PlugKeeps(t', q, k);
      case Climb(t', q) => InsertColorKeeps(t', q, k);
    }
  }

  // ---------- RB_REMOVE_COLOR ----------

  /** t is one rank lower than the bits of its parent say. */
  predicate Demoted(t: Tree, p: Path) {
    Wavl(t) && Fits(p, Rank(t) + 1)
  }

  /** The parent is not a node that just became a leaf. */
  predicate Braced(t: Tree, p: Path) {
    t.Bin? || match p
              case Top => true
              case InLeft(_, _, _, r, _) => r.Bin?
              case InRight(l, _, _, _, _) => l.Bin?
  }

  /** The rotations at a node fd whose left child t stands three ranks lower. */
  function DropLeft(t: Tree, fd: Fd, r: Tree): Tree
    requires r.Bin? && (r.redLeft || !r.redRight || r.left.Bin?)
  {
    if r.redLeft then
      Bin(Bin(t, fd, false, false, r.left), r.fd, true, !r.redRight, r.right)
    else if r.redRight then
      var c := r.left;
      Bin(Bin(t, fd, false, c.redLeft, c.left), c.fd, true, true,
          Bin(c.right, r.fd, c.redRight, false, r.right))
    else
      Bin(Bin(t, fd, true, false, r.left), r.fd, false, true, r.right)
  }

  function DropRight(l: Tree, fd: Fd, t: Tree): Tree
    requires l.Bin? && (l.redRight || !l.redLeft || l.right.Bin?)
  {
    if l.redRight then
      Bin(l.left, l.fd, !l.redLeft, true, Bin(l.right, fd, false, false, t))
    else if l.redLeft then
      var c := l.right;
      Bin(Bin(l.left, l.fd, false, c.redLeft, c.left), c.fd, true, true,
          Bin(c.right, fd, c.redRight, false, t))
    else
      Bin(l.left, l.fd, true, false, Bin(l.right, fd, false, true, t))
  }

  lemma DroppedLeft(t: Tree, fd: Fd, r: Tree)
    requires Wavl(t) && Wavl(r) && Rank(r) == Rank(t) + 2 && !BothRed(r)
    ensures r.Bin? && (r.redLeft || !r.redRight || r.left.Bin?)
    ensures Wavl(DropLeft(t, fd, r)) && Rank(DropLeft(t, fd, r)) == Rank(t) + 3
  {
  }

  lemma DroppedRight(l: Tree, fd: Fd, t: Tree)
    requires Wavl(t) && Wavl(l) && Rank(l) == Rank(t) + 2 && !BothRed(l)
    ensures l.Bin? && (l.redRight || !l.redLeft || l.right.Bin?)
    ensures Wavl(DropRight(l, fd, t)) && Rank(DropRight(l, fd, t)) == Rank(t) + 3
  {
  }

  function Demote(t: Tree): Tree
    requires t.Bin?
  {
    t.(redLeft := false, redRight := false)
  }

  lemma DropLeftKeeps(t: Tree, fd: Fd, r: Tree, lo: int, hi: int, k: int)
    requires r.Bin? && (r.redLeft || !r.redRight || r.left.Bin?)
    requires lo < fd < hi && Bst(t, lo, fd) && Bst(r, fd, hi)
    ensures Bst(DropLeft(t, fd, r), lo, hi)
    ensures Has(DropLeft(t, fd, r), k) <==> Has(Bin(t, fd, false, false, r), k)
  {
    assert Has(r, k) <==> if k < r.fd then Has(r.left, k) else k == r.fd || Has(r.right, k);
    assert Bst(r.left, fd, r.fd);
  }

  lemma DropRightKeeps(l: Tree, fd: Fd, t: Tree, lo: int, hi: int, k: int)
    requires l.Bin? && (l.redRight || !l.redLeft || l.right.Bin?)
    requires lo < fd < hi && Bst(l, lo, fd) && Bst(t, fd, hi)
    ensures Bst(DropRight(l, fd, t), lo, hi)
    ensures Has(DropRight(l, fd, t), k) <==> Has(Bin(l, fd, false, false, t), k)
  {
    assert Has(l, k) <==> if k < l.fd then Has(l.left, k) else k == l.fd || Has(l.right, k);
    assert Bst(l.right, l.fd, fd);
  }

  lemma DemoteKeeps(t: Tree, lo: int, hi: int, k: int)
    requires t.Bin? && Bst(t, lo, hi)
    ensures Bst(Demote(t), lo, hi)
    ensures Has(Demote(t), k) <==> Has(t, k)
  {
  }

  function RemoveStep(t: Tree, p: Path): Step
    requires Demoted(t, p) && Braced(t, p) && !p.Top?
  {
    match p
    case InLeft(fd, rl, rr, r, up) =>
      if !rl then Done(Bin(t, fd, true, rr, r), up)
      else if rr then Climb(Bin(t, fd, true, false, r), up)
      else if BothRed(r) then Climb(Bin(t, fd, true, false, Demote(r)), up)
      else DroppedLeft(t, fd, r); Done(DropLeft(t, fd, r), up)
    case InRight(l, fd, rl, rr, up) =>
      if !rr then Done(Bin(l, fd, rl, true, t), up)
      else if rl then Climb(Bin(l, fd, false, true, t), up)
      else if BothRed(l) then Climb(Bin(Demote(l), fd, false, true, t), up)
      else DroppedRight(l, fd, t); Done(DropRight(l, fd, t), up)
  }

  lemma RemoveStepRanks(t: Tree, p: Path)
    requires Demoted(t, p) && Braced(t, p) && !p.Top?
    ensures var s := RemoveStep(t, p);
      s.p == p.up && if s.Done? then Wavl(s.t) && Fits(s.p, Rank(s.t))
                     else s.t.Bin? && Demoted(s.t, s.p)
  {
    if p.InLeft? {
      RemoveStepRanksLeft(t, p);
    } else {
      RemoveStepRanksRight(t, p);
    }
  }

  lemma RemoveStepRanksLeft(t: Tree, p: Path)
    requires Demoted(t, p) && Braced(t, p) && p.InLeft?
    ensures var s := RemoveStep(t, p);
      s.p == p.up && if s.Done? then Wavl(s.t) && Fits(s.p, Rank(s.t))
                     else s.t.Bin? && Demoted(s.t, s.p)
  {
    if p.redLeft && !p.redRight && !BothRed(p.right) {
      DroppedLeft(t, p.fd, p.right);
    }
  }

  lemma RemoveStepRanksRight(t: Tree, p: Path)
    requires Demoted(t, p) && Braced(t, p) && p.InRight?
    ensures var s := RemoveStep(t, p);
      s.p == p.up && if s.Done? then Wavl(s.t) && Fits(s.p, Rank(s.t))
                     else s.t.Bin? && Demoted(s.t, s.p)
  {
    if p.redRight && !p.redLeft && !BothRed(p.left) {
      DroppedRight(p.left, p.fd, t);
    }
  }

  lemma RemoveStepKeeps(t: Tree, p: Path, k: int)
    requires Demoted(t, p) && Braced(t, p) && !p.Top? && BstAt(t, p)
    ensures var s := RemoveStep(t, p);
      BstAt(s.t, s.p) && (HasAt(s.t, s.p, k) <==> HasAt(t, p, k))
  {
    if p.InLeft? {
      RemoveStepKeepsLeft(t, p, k);
    } else {
      RemoveStepKeepsRight(t, p, k);
    }
  }

  lemma RemoveStepKeepsLeft(t: Tree, p: Path, k: int)
    requires Demoted(t, p) && Braced(t, p) && p.InLeft? && BstAt(t, p)
    ensures var s := RemoveStep(t, p);
      BstAt(s.t, s.p) && (HasAt(s.t, s.p, k) <==> HasAt(t, p, k))
  {
    if p.redLeft && !p.redRight && !BothRed(p.right) {
      DroppedLeft(t, p.fd, p.right);
      DropLeftKeeps(t, p.fd, p.right, Lo(p), Hi(p.up), k);
    } else if BothRed(p.right) {
      DemoteKeeps(p.right, p.fd, Hi(p.up), k);
    }
  }

  lemma RemoveStepKeepsRight(t: Tree, p: Path, k: int)
    requires Demoted(t, p) && Braced(t, p) && p.InRight? && BstAt(t, p)
    ensures var s := RemoveStep(t, p);
      BstAt(s.t, s.p) && (HasAt(s.t, s.p, k) <==> HasAt(t, p, k))
  {
    if p.redRight && !p.redLeft && !BothRed(p.left) {
      DroppedRight(p.left, p.fd, t);
      DropRightKeeps(p.left, p.fd, t, Lo(p.up), Hi(p), k);
    } else if BothRed(p.left) {
      DemoteKeeps(p.left, Lo(p.up), p.fd, k);
    }
  }

  /** The climbing loop of RB_REMOVE_COLOR restores the rank rule. */
  function Lower(t: Tree, p: Path): (r: Tree)
    requires Demoted(t, p) && Braced(t, p)
    ensures Wavl(r)
    decreases p
  {
    if p.Top? then t else
    RemoveStepRanks(t, p);
    match RemoveStep(t, p)
    case Done(t', q) => WavlPlug(t', q); Plug(t', q)
    case Climb(t', q) => Lower(t', q)
  }

  lemma {:induction false} LowerKeeps(t: Tree, p: Path, k: int)
    requires Demoted(t, p) && Braced(t, p) && BstAt(t, p) && Lo(Top) < k < Hi(Top)
    ensures Bst(Lower(t, p), Lo(Top), Hi(Top))
    ensures Has(Lower(t, p), k) <==> HasAt(t, p, k)
    decreases p
  {
    if !p.Top? {
      RemoveStepRanks(t, p);
      RemoveStepKeeps(t, p, k);
      match RemoveStep(t, p)
      case Done(t', q) => PlugKeeps(t', q, k);
      case Climb(t', q) => LowerKeeps(t', q, k);
    }
  }

  /** All of RB_REMOVE_COLOR: a parent left without children is lowered first. */
  function RemoveColor(t: Tree, p: Path): (r: Tree)
    requires Demoted(t, p)
    ensures Wavl(r)
  {
    if Braced(t, p) then Lower(t, p)
    else Lower(Bin(Nil, p.fd, false, false, Nil), p.up)
  }

  lemma RemoveColorKeeps(t: Tree, p: Path, k: int)
    requires Demoted(t, p) && BstAt(t, p) && Lo(Top) < k < Hi(Top)
    ensures Bst(RemoveColor(t, p), Lo(Top), Hi(Top))
    ensures Has(RemoveColor(t, p), k) <==> HasAt(t, p, k)
  {
    if Braced(t, p) {
      LowerKeeps(t, p, k);
    } else {
      LowerKeeps(Bin(Nil, p.fd, false, false, Nil), p.up, k);
    }
  }

  // ---------- RB_INSERT, RB_REMOVE ----------

  /** What holds of a tree between two operations. */
  predicate Valid(t: Tree) {
    Wavl(t) && Bst(t, Lo(Top), Hi(Top))
  }

  function Leaf(fd: Fd): Tree {
    Bin(Nil, fd, false, false, Nil)
  }

  function Insert(t: Tree, fd: Fd): Tree
    requires Valid(t)
  {
    Descended(t, Top, fd);
    var (s, p) := Descend(t, Top, fd);
    if s.Bin? then t else InsertColor(Leaf(fd), p)
  }

  /** An equal descriptor leaves the tree alone; any other is added, and only that. */
  lemma InsertCorrect(t: Tree, fd: Fd, k: int)
    requires Valid(t)
    ensures Valid(Insert(t, fd))
    ensures Has(t, fd) ==> Insert(t, fd) == t
    ensures Lo(Top) < k < Hi(Top) ==> (Has(Insert(t, fd), k) <==> Has(t, k) || k == fd)
  {
    Descended(t, Top, fd);
    var (s, p) := Descend(t, Top, fd);
    if s.Nil? {
      InsertColorKeeps(Leaf(fd), p, fd);
      if Lo(Top) < k < Hi(Top) {
        InsertColorKeeps(Leaf(fd), p, k);
        PlugKeeps(Nil, p, k);
      }
    }
  }

  lemma Inserted(t: Tree, fd: Fd)
    requires Valid(t)
    ensures Valid(Insert(t, fd)) && (Has(t, fd) ==> Insert(t, fd) == t)
    ensures forall k :: Has(Insert(t, fd), k) <==> Has(t, k) || k == fd
  {
    InsertCorrect(t, fd, fd);
    WithinBounds(t);
    WithinBounds(Insert(t, fd));
    forall k
      ensures Has(Insert(t, fd), k) <==> Has(t, k) || k == fd
    {
      InsertCorrect(t, fd, k);
    }
  }

  function Min(t: Tree): Fd
    requires t.Bin?
  {
    if t.left.Nil? then t.fd else Min(t.left)
  }

  lemma {:induction false} MinLeast(t: Tree, lo: int, hi: int, k: int)
    requires t.Bin? && Bst(t, lo, hi)
    ensures lo < Min(t) < hi && Has(t, Min(t))
    ensures Has(t, k) ==> Min(t) <= k
  {
    if t.left.Bin? {
      MinLeast(t.left, lo, t.fd, k);
      assert Min(t) == Min(t.left) < t.fd && Has(t.left, Min(t));
    }
    if Has(t, k) && k < t.fd {
      assert Has(t.left, k);
    }
  }

  function Max(t: Tree): Fd
    requires t.Bin?
  {
    if t.right.Nil? then t.fd else Max(t.right)
  }

  lemma {:induction false} MaxGreatest(t: Tree, lo: int, hi: int, k: int)
    requires t.Bin? && Bst(t, lo, hi)
    ensures lo < Max(t) < hi && Has(t, Max(t))
    ensures Has(t, k) ==> k <= Max(t)
  {
    if t.right.Bin? {
      MaxGreatest(t.right, t.fd, hi, k);
      assert Max(t) == Max(t.right) > t.fd && Has(t.right, Max(t));
    }
    if Has(t, k) && k > t.fd {
      assert Has(t.right, k);
    }
  }

  lemma {:induction false} BstWiden(t: Tree, lo: int, hi: int, lo': int, hi': int)
    requires Bst(t, lo, hi) && lo' <= lo && hi <= hi'
    ensures Bst(t, lo', hi')
  {
    if t.Bin? {
      BstWiden(t.left, lo, t.fd, lo', t.fd);
      BstWiden(t.right, t.fd, hi, t.fd, hi');
    }
  }

  /** The successor of a node with a right child is the least descriptor there. */
  lemma SuccessorBelow(t: Tree, s: Tree, p: Path)
    requires Plug(s, p) == t && BstAt(s, p) && s.Bin? && s.right.Bin?
    ensures s.fd < Min(s.right) && Has(t, Min(s.right))
    ensures forall k :: Has(t, k) && s.fd < k ==> Min(s.right) <= k
  {
    MinLeast(s.right, s.fd, Hi(p), s.fd);
    PlugKeeps(s, p, Min(s.right));
    forall k | Has(t, k) && s.fd < k
      ensures Min(s.right) <= k
    {
      PlugKeeps(s, p, k);
      HasBounds(t, Lo(Top), Hi(Top), k);
      MinLeast(s.right, s.fd, Hi(p), k);
      if k < Hi(p) {
        assert Has(s, k) && Has(s.right, k);
      }
    }
  }

  lemma {:induction false} LoHi(p: Path)
    requires BstPath(p)
    ensures Lo(Top) <= Lo(p) && Hi(p) <= Hi(Top)
    decreases p
  {
    if !p.Top? {
      LoHi(p.up);
    }
  }

  lemma NothingAbove(t: Tree, s: Tree, p: Path)
    requires Plug(s, p) == t && BstAt(s, p) && s.Bin? && s.right.Nil?
    ensures forall k :: s.fd < k < Hi(p) ==> !Has(t, k)
  {
    LoHi(p);
    forall k | s.fd < k < Hi(p)
      ensures !Has(t, k)
    {
      PlugKeeps(s, p, k);
      assert Has(s, k) == Has(s.right, k);
    }
  }

  lemma WithinBounds(t: Tree)
    requires Bst(t, Lo(Top), Hi(Top))
    ensures forall k :: Has(t, k) ==> Lo(Top) < k < Hi(Top)
  {
    forall k | Has(t, k)
      ensures Lo(Top) < k < Hi(Top)
    {
      HasBounds(t, Lo(Top), Hi(Top), k);
    }
  }

  /** What is left of t without its minimum, and the way down to the gap. */
  function MinHole(t: Tree, p: Path): (Tree, Path)
    requires t.Bin?
  {
    if t.left.Nil? then (t.right, p)
    else MinHole(t.left, InLeft(t.fd, t.redLeft, t.redRight, t.right, p))
  }

  lemma {:induction false} MinHoled(t: Tree, p: Path, k: int)
    requires t.Bin? && Wavl(t) && Fits(p, Rank(t))
    requires BstPath(p) && Lo(p) == Min(t) && Bst(t, Lo(p) - 1, Hi(p))
    ensures var (c, q) := MinHole(t, p);
      && Demoted(c, q) && BstAt(c, q)
      && (k > Min(t) ==> (HasAt(c, q, k) <==> HasAt(t, p, k)))
      && (k <= Min(t) ==> (HasAt(c, q, k) <==> HasPath(p, k)))
  {
    if t.left.Bin? {
      MinHoled(t.left, InLeft(t.fd, t.redLeft, t.redRight, t.right, p), k);
    }
  }

  /** The path to the gap of a two-child node s: its successor takes its place. */
  function Successor(s: Tree, p: Path): Path
    requires s.Bin? && s.right.Bin?
  {
    InRight(s.left, Min(s.right), s.redLeft, s.redRight, p)
  }

  lemma SuccessorHole(s: Tree, p: Path, k: int)
    requires s.Bin? && s.left.Bin? && s.right.Bin?
    requires Wavl(s) && Fits(p, Rank(s)) && BstAt(s, p)
    ensures var (c, q) := MinHole(s.right, Successor(s, p));
      && Demoted(c, q) && BstAt(c, q)
      && (HasAt(c, q, k) <==> HasAt(s, p, k) && k != s.fd)
  {
    var m := Min(s.right);
    var q := Successor(s, p);
    MinLeast(s.right, s.fd, Hi(p), k);
    MinLeast(s.right, s.fd, Hi(p), m);
    BstWiden(s.left, Lo(p), s.fd, Lo(p), m);
    BstRaise(s.right, s.fd, Hi(p), m - 1);
    if Has(s.left, k) {
      HasBounds(s.left, Lo(p), s.fd, k);
    }
    MinHoled(s.right, q, k);
  }

  lemma {:induction false} BstRaise(t: Tree, lo: int, hi: int, lo': int)
    requires Bst(t, lo, hi) && (t.Bin? ==> lo' < Min(t))
    ensures Bst(t, lo', hi)
  {
    if t.Bin? {
      MinLeast(t, lo, hi, t.fd);
      BstRaise(t.left, lo, t.fd, lo');
    }
  }

  function OnlyChild(s: Tree): Tree
    requires s.Bin?
  {
    if s.left.Nil? then s.right else s.left
  }

  /** Where the repair starts once the node s is out of the tree. */
  function Vacate(s: Tree, p: Path): (Tree, Path)
    requires s.Bin?
  {
    if s.left.Nil? || s.right.Nil? then (OnlyChild(s), p) else MinHole(s.right, Successor(s, p))
  }

  lemma Vacated(s: Tree, p: Path, k: int)
    requires s.Bin? && Wavl(s) && Fits(p, Rank(s)) && BstAt(s, p)
    ensures var (c, q) := Vacate(s, p);
      && Demoted(c, q) && BstAt(c, q)
      && (HasAt(c, q, k) <==> HasAt(s, p, k) && k != s.fd)
  {
    if s.left.Nil? {
      BstWiden(s.right, s.fd, Hi(p), Lo(p), Hi(p));
      if k <= s.fd {
        NotBelow(s.right, s.fd, Hi(p), k);
      }
    } else if s.right.Nil? {
      BstWiden(s.left, Lo(p), s.fd, Lo(p), Hi(p));
      if k >= s.fd {
        NotBelow(s.left, Lo(p), s.fd, k);
      }
    } else {
      SuccessorHole(s, p, k);
    }
  }

  function Remove(t: Tree, fd: Fd): (r: Tree)
    requires Valid(t) && Has(t, fd)
    ensures Wavl(r)
  {
    Descended(t, Top, fd);
    var (s, p) := Descend(t, Top, fd);
    Vacated(s, p, fd);
    var (c, q) := Vacate(s, p);
    RemoveColor(c, q)
  }

  /** The descriptor goes, and only that. */
  lemma RemoveCorrect(t: Tree, fd: Fd, k: int)
    requires Valid(t) && Has(t, fd)
    ensures Valid(Remove(t, fd))
    ensures Lo(Top) < k < Hi(Top) ==> (Has(Remove(t, fd), k) <==> Has(t, k) && k != fd)
  {
    if Lo(Top) < k < Hi(Top) {
      RemoveCorrectAt(t, fd, k);
    }
    RemoveCorrectAt(t, fd, fd);
  }

  lemma Removed(t: Tree, fd: Fd)
    requires Valid(t) && Has(t, fd)
    ensures Valid(Remove(t, fd))
    ensures forall k :: Has(Remove(t, fd), k) <==> Has(t, k) && k != fd
  {
    RemoveCorrect(t, fd, fd);
    WithinBounds(t);
    WithinBounds(Remove(t, fd));
    forall k
      ensures Has(Remove(t, fd), k) <==> Has(t, k) && k != fd
    {
      RemoveCorrect(t, fd, k);
    }
  }

  lemma RemoveCorrectAt(t: Tree, fd: Fd, k: Fd)
    requires Valid(t) && Has(t, fd)
    ensures Bst(Remove(t, fd), Lo(Top), Hi(Top))
    ensures Has(Remove(t, fd), k) <==> Has(t, k) && k != fd
  {
    Descended(t, Top, fd);
    var (s, p) := Descend(t, Top, fd);
    PlugKeeps(s, p, k);
    Vacated(s, p, k);
    var (c, q) := Vacate(s, p);
    RemoveColorKeeps(c, q, k);
  }

  lemma NotBelow(t: Tree, lo: int, hi: int, k: int)
    requires Bst(t, lo, hi) && !(lo < k < hi)
    ensures !Has(t, k)
  {
    if Has(t, k) {
      HasBounds(t, lo, hi, k);
    }
  }

  // ---------- RB_FOREACH_SAFE with RB_REMOVE in its body ----------

  ghost predicate Ascending(s: seq<int>) {
    forall i, j :: 0 <= i < j < |s| ==> s[i] < s[j]
  }

  lemma {:induction false} AscendingUnique(a: seq<int>, b: seq<int>)
    requires Ascending(a) && Ascending(b)
    requires forall k :: k in a <==> k in b
    ensures a == b
  {
    var k := if a != [] then a[0] else if b != [] then b[0] else 0;
    assert k in a <==> k in b;
    if a != [] {
      assert a[0] in b && b[0] in a;
      forall k
        ensures k in a[1..] <==> k in b[1..]
      {
        assert k in a[1..] <==> k in a && k != a[0];
        assert k in b[1..] <==> k in b && k != b[0];
      }
      AscendingUnique(a[1..], b[1..]);
      assert a == [a[0]] + a[1..] && b == [b[0]] + b[1..];
    }
  }

  lemma KeysHas(t: Tree, k: int)
    requires Bst(t, Lo(Top), Hi(Top))
    ensures k in Keys(t) <==> Has(t, k)
  {
    KeysAscend(t, Lo(Top), Hi(Top));
  }

  /** Removing the minimum takes the first descriptor off the front. */
  lemma MinRemoved(t: Tree)
    requires Valid(t) && t.Bin?
    ensures Has(t, Min(t)) && Keys(t) == [Min(t)] + Keys(Remove(t, Min(t)))
  {
    MinLeast(t, Lo(Top), Hi(Top), 0);
    var y := Min(t);
    var r := Remove(t, y);
    Removed(t, y);
    KeysAscend(t, Lo(Top), Hi(Top));
    KeysAscend(r, Lo(Top), Hi(Top));
    forall i | 0 <= i < |Keys(r)|
      ensures y < Keys(r)[i]
    {
      MinLeast(t, Lo(Top), Hi(Top), Keys(r)[i]);
    }
    forall k
      ensures k in Keys(t) <==> k in [y] + Keys(r)
    {
      KeysHas(t, k);
      KeysHas(r, k);
    }
    AscendingUnique(Keys(t), [y] + Keys(r));
  }

  /** The successor of the minimum is the minimum of what is left. */
  lemma MinNext(t: Tree, y: int)
    requires Valid(t) && t.Bin? && Has(t, Min(t))
    requires y == -1 ==> forall k :: Has(t, k) ==> k <= Min(t)
    requires y != -1 ==> Min(t) < y && Has(t, y) && forall k :: Has(t, k) && Min(t) < k ==> y <= k
    ensures var r := Remove(t, Min(t)); y == if r.Nil? then -1 else Min(r)
  {
    var r := Remove(t, Min(t));
    Removed(t, Min(t));
    if r.Bin? {
      MinLeast(r, Lo(Top), Hi(Top), y);
      MinLeast(t, Lo(Top), Hi(Top), Min(r));
    } else {
      assert !Has(r, y);
    }
  }

  // ---------- Height ----------

  function Height(t: Tree): nat {
    if t.Nil? then 0
    else 1 + if Height(t.left) < Height(t.right) then Height(t.right) else Height(t.left)
  }

  function Count(t: Tree): nat {
    if t.Nil? then 0 else Count(t.left) + 1 + Count(t.right)
  }

  /** How many nodes the search for k looks at. */
  function Comparisons(t: Tree, k: int): nat {
    if t.Nil? then 0
    else if k < t.fd then 1 + Comparisons(t.left, k)
    else if k > t.fd then 1 + Comparisons(t.right, k)
    else 1
  }

  lemma {:induction false} HeightRank(t: Tree, k: int)
    requires Wavl(t)
    ensures Comparisons(t, k) <= Height(t) <= Rank(t)
  {
    if t.Bin? {
      HeightRank(t.left, k);
      HeightRank(t.right, k);
    }
  }

  lemma SquareOfSum(a: nat, b: nat, p: nat)
    requires p <= a * a && p <= b * b
    ensures 4 * p <= (a + b) * (a + b)
  {
    if a <= b {
      assert a * a <= a * b;
    } else {
      assert b * b <= a * b;
    }
    assert (a + b) * (a + b) == a * a + 2 * (a * b) + b * b;
  }

  lemma {:induction false} RankCount(t: Tree)
    requires Wavl(t)
    ensures Pow2(Rank(t)) <= (Count(t) + 1) * (Count(t) + 1)
  {
    if t.Bin? && Rank(t) >= 2 {
      RankCount(t.left);
      RankCount(t.right);
      var k := Rank(t) - 2;
      Pow2Monotone(k, Rank(t.left));
      Pow2Monotone(k, Rank(t.right));
      SquareOfSum(Count(t.left) + 1, Count(t.right) + 1, Pow2(k));
      assert Pow2(Rank(t)) == 2 * Pow2(k + 1) == 4 * Pow2(k);
    }
  }

  /** 2^height <= (n + 1)^2: a search looks at no more than 2 lg (n + 1) nodes. */
  lemma HeightBound(t: Tree, k: int)
    requires Wavl(t)
    ensures Pow2(Comparisons(t, k)) <= Pow2(Height(t)) <= (Count(t) + 1) * (Count(t) + 1)
  {
    HeightRank(t, k);
    RankCount(t);
    Pow2Monotone(Comparisons(t, k), Height(t));
    Pow2Monotone(Height(t), Rank(t));
  }

  // ---------- Every tree a run of insertions and removals can reach ----------

  datatype Op = Add(fd: Fd) | Del(fd: Fd)

  /** epollfd_ctx looks a descriptor up before it removes it. */
  function Apply(t: Tree, op: Op): Tree
    requires Valid(t)
  {
    match op
    case Add(fd) => Insert(t, fd)
    case Del(fd) => if Has(t, fd) then Remove(t, fd) else t
  }

  function Run(ops: seq<Op>): (t: Tree)
    ensures Valid(t)
  {
    if ops == [] then Nil else
    var t, op := Run(ops[..|ops| - 1]), ops[|ops| - 1];
    Inserted(t, op.fd);
    if Has(t, op.fd) then Removed(t, op.fd); Apply(t, op) else Apply(t, op)
  }

  /** The set that the run stands for. */
  function Registered(ops: seq<Op>): set<int> {
    if ops == [] then {} else
    var r, op := Registered(ops[..|ops| - 1]), ops[|ops| - 1];
    if op.Add? then r + {op.fd} else r - {op.fd}
  }

  lemma {:induction false} RunMembers(ops: seq<Op>)
    ensures forall k :: Has(Run(ops), k) <==> k in Registered(ops)
  {
    if ops != [] {
      var t, op := Run(ops[..|ops| - 1]), ops[|ops| - 1];
      RunMembers(ops[..|ops| - 1]);
      Inserted(t, op.fd);
      if Has(t, op.fd) {
        Removed(t, op.fd);
      }
    }
  }

  lemma {:induction false} AscendingSize(s: seq<int>, elements: set<int>)
    requires Ascending(s) && forall k :: k in s <==> k in elements
    ensures |elements| == |s|
  {
    forall k
      ensures k in elements <==> exists i :: 0 <= i < |s| && s[i] == k
    {
      assert k in s <==> k in elements;
    }
    if s == [] {
      assert elements == {};
    } else {
      var n := |s| - 1;
      assert s[n] in elements;
      forall k
        ensures k in s[..n] <==> k in elements - {s[n]}
      {
      }
      AscendingSize(s[..n], elements - {s[n]});
    }
  }

  lemma {:induction false} CountKeys(t: Tree)
    ensures Count(t) == |Keys(t)|
  {
    if t.Bin? {
      CountKeys(t.left);
      CountKeys(t.right);
    }
  }

  /** With n registrations, however they came about, a search makes at most 2 lg (n + 1) comparisons. */
  lemma RunHeight(ops: seq<Op>, k: int)
    ensures var n := |Registered(ops)|;
      Pow2(Comparisons(Run(ops), k)) <= Pow2(Height(Run(ops))) <= (n + 1) * (n + 1)
  {
    var t := Run(ops);
    RunMembers(ops);
    KeysAscend(t, Lo(Top), Hi(Top));
    forall i
      ensures i in Keys(t) <==> i in Registered(ops)
    {
      KeysHas(t, i);
    }
    AscendingSize(Keys(t), Registered(ops));
    CountKeys(t);
    HeightBound(t, k);
  }
}
