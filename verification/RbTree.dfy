/**
 The RB_* macros of external/tree-macros/include/sys/tree.h: they walk and
 relink cells in place, inside loops.  Their contracts say which tree, as a
 value of WavlTree, the memory holds before and after.
 */
module RbTree {
  import opened WavlTree
  import opened RbMemory

  class RbHead {
    var root: int
    var mem: Memory
    ghost var tree: Tree

    ghost predicate Held(t: Tree, p: Path)
      reads this
    {
      && BstAt(t, p)
      && root == PathRoot(p, Ptr(t))
      && Holds(mem, t, p)
    }

    /** RB_SWAP_CHILD: whoever points down at out points at into instead. */
    method SwapChild(out: int, into: int, ghost p: Path)
      requires out in mem && mem[out].parent == PathPtr(p)
      requires !p.Top? ==> p.fd in mem && (mem[p.fd].left == out <==> p.InLeft?)
      modifies this`root, this`mem
      ensures root == if p.Top? then into else old(root)
      ensures mem == SwapLink(old(mem), p, into)
    {
      var q := mem[out].parent;
      if q == NULL {
        root := into;
      } else if mem[q].left == out {
        mem := mem[q := mem[q].(left := into)];
      } else {
        mem := mem[q := mem[q].(right := into)];
      }
    }

    /** RB_ROTATE_LEFT. */
    method RotateLeft(elm: int, ghost t: Tree, ghost p: Path) returns (tmp: int)
      requires Held(t, p) && t.Bin? && t.right.Bin? && elm == t.fd
      modifies this`root, this`mem
      ensures tmp == t.right.fd
      ensures Held(RotatedLeft(t), p)
    {
      ghost var m0 := mem;
      RotateLeftReady(mem, t, p);
      tmp := mem[elm].right;
      var c := mem[tmp].left;
      mem := mem[elm := mem[elm].(right := c)];
      if c != NULL {
        mem := mem[c := mem[c].(parent := elm)];
      }
      mem := mem[tmp := mem[tmp].(parent := mem[elm].parent)];
      SwapChild(elm, tmp, p);
      mem := mem[tmp := mem[tmp].(left := elm)];
      mem := mem[elm := mem[elm].(parent := tmp)];
      assert mem == RelinkLeft(m0, elm, p);
      RotateLeftRelinks(m0, t, p);
      PathCells(p, elm, tmp, elm);
    }

    /** RB_ROTATE_RIGHT, which undoes RB_ROTATE_LEFT. */
    method RotateRight(elm: int, ghost t: Tree, ghost p: Path) returns (tmp: int)
      requires Held(t, p) && t.Bin? && t.left.Bin? && elm == t.fd
      modifies this`root, this`mem
      ensures tmp == t.left.fd
      ensures Held(RotatedRight(t), p)
    {
      ghost var m0, s := mem, RotatedRight(t);
      assert RotatedLeft(s) == t && BstAt(s, p) by {
        assert Bst(t.left, Lo(p), t.fd) && Bst(t.left.right, t.left.fd, t.fd);
      }
      RotateRightReady(mem, s, p);
      tmp := mem[elm].left;
      var c := mem[tmp].right;
      mem := mem[elm := mem[elm].(left := c)];
      if c != NULL {
        mem := mem[c := mem[c].(parent := elm)];
      }
      mem := mem[tmp := mem[tmp].(parent := mem[elm].parent)];
      SwapChild(elm, tmp, p);
      mem := mem[tmp := mem[tmp].(right := elm)];
      mem := mem[elm := mem[elm].(parent := tmp)];
      assert mem == RelinkRight(m0, elm, p);
      RotateRightRelinks(m0, s, p);
      PathCells(p, elm, tmp, elm);
    }

    /** RB_FLIP_LEFT. */
    method FlipLeft(elm: int, ghost t: Tree, ghost p: Path)
      requires Held(t, p) && t.Bin? && elm == t.fd
      modifies this`root, this`mem
      ensures Held(Painted(t, !t.redLeft, t.redRight), p)
    {
      RootCell(mem, t, p);
      PaintedHolds(mem, t, p, !t.redLeft, t.redRight);
      mem := mem[elm := mem[elm].(redLeft := !mem[elm].redLeft)];
    }

    /** RB_FLIP_RIGHT. */
    method FlipRight(elm: int, ghost t: Tree, ghost p: Path)
      requires Held(t, p) && t.Bin? && elm == t.fd
      modifies this`root, this`mem
      ensures Held(Painted(t, t.redLeft, !t.redRight), p)
    {
      RootCell(mem, t, p);
      PaintedHolds(mem, t, p, t.redLeft, !t.redRight);
      mem := mem[elm := mem[elm].(redRight := !mem[elm].redRight)];
    }

    /** RB_BITS(elm) |= or &= ~RB_RED_MASK: both bits at once. */
    method SetBits(elm: int, red: bool, ghost t: Tree, ghost p: Path)
      requires Held(t, p) && t.Bin? && elm == t.fd
      modifies this`root, this`mem
      ensures Held(Painted(t, red, red), p)
    {
      PaintedHolds(mem, t, p, red, red);
      mem := mem[elm := mem[elm].(redLeft := red, redRight := red)];
    }

    // ---------- RB_INSERT_COLOR ----------

    /** The rotations for an elm that stands as high as its parent, on the left. */
    method LiftFromLeft(parent: int, elm: int, ghost t: Tree, ghost r: Tree, ghost p: Path)
      requires t.Bin? && elm == t.fd && 0 <= parent <= INT_MAX
      requires Held(Bin(t, parent, false, false, r), p)
      requires Lopsided(t) && (t.redRight || t.right.Bin?)
      modifies this`root, this`mem
      ensures Held(LiftLeft(t, parent, r), p)
    {
      ghost var s := Bin(t, parent, false, false, r);
      ghost var q := InLeft(parent, false, false, r, p);
      Up(mem, t, q);
      RootCell(mem, t, q);
      var top := elm;
      if !mem[elm].redRight {
        FlipLeft(elm, t, q);
        ghost var n := Painted(t, !t.redLeft, t.redRight);
        var child := RotateLeft(elm, n, q);
        n := RotatedLeft(n);
        RootCell(mem, n, q);
        if mem[child].redLeft {
          ghost var w := InLeft(n.fd, n.redLeft, n.redRight, n.right, q);
          Up(mem, n.left, w);
          FlipRight(elm, n.left, w);
          ghost var e := Painted(n.left, n.left.redLeft, !n.left.redRight);
          Up(mem, e, w);
          n := Join(e, w);
          Up(mem, n, q);
          s := Join(n, q);
        } else {
          Up(mem, n, q);
          s := Join(n, q);
          if mem[child].redRight {
            FlipLeft(parent, s, p);
            s := Painted(s, !s.redLeft, s.redRight);
          }
        }
        top := child;
      }
      var tmp := RotateRight(parent, s, p);
      SetBits(top, false, RotatedRight(s), p);
    }

    method LiftFromRight(parent: int, elm: int, ghost l: Tree, ghost t: Tree, ghost p: Path)
      requires t.Bin? && elm == t.fd && 0 <= parent <= INT_MAX
      requires Held(Bin(l, parent, false, false, t), p)
      requires Lopsided(t) && (t.redLeft || t.left.Bin?)
      modifies this`root, this`mem
      ensures Held(LiftRight(l, parent, t), p)
    {
      ghost var s := Bin(l, parent, false, false, t);
      ghost var q := InRight(l, parent, false, false, p);
      Up(mem, t, q);
      RootCell(mem, t, q);
      var top := elm;
      if !mem[elm].redLeft {
        FlipRight(elm, t, q);
        ghost var n := Painted(t, t.redLeft, !t.redRight);
        var child := RotateRight(elm, n, q);
        n := RotatedRight(n);
        RootCell(mem, n, q);
        if mem[child].redRight {
          ghost var w := InRight(n.left, n.fd, n.redLeft, n.redRight, q);
          Up(mem, n.right, w);
          FlipLeft(elm, n.right, w);
          ghost var e := Painted(n.right, !n.right.redLeft, n.right.redRight);
          Up(mem, e, w);
          n := Join(e, w);
          Up(mem, n, q);
          s := Join(n, q);
        } else {
          Up(mem, n, q);
          s := Join(n, q);
          if mem[child].redLeft {
            FlipRight(parent, s, p);
            s := Painted(s, s.redLeft, !s.redRight);
          }
        }
        top := child;
      }
      var tmp := RotateLeft(parent, s, p);
      SetBits(top, false, RotatedLeft(s), p);
    }

    /** RB_INSERT_COLOR: elm is t, linked into the hole of p. */
    method InsertColor(elm: int, ghost t: Tree, ghost p: Path)
      requires Held(t, p) && Promoted(t, p) && elm == t.fd
      modifies this`root, this`mem
      ensures Held(WavlTree.InsertColor(t, p), Top)
    {
      var n, climb := elm, true;
      ghost var s, q := t, p;
      RootCell(mem, t, p);
      var parent := mem[n].parent;
      while climb && parent != NULL
        invariant Held(s, q)
        invariant climb ==> Promoted(s, q) && n == s.fd && parent == PathPtr(q)
        invariant WavlTree.InsertColor(t, p) == if climb then WavlTree.InsertColor(s, q) else Plug(s, q)
        decreases q
      {
        ParentCell(mem, s, q);
        InsertStepRanks(s, q);
        if mem[parent].left == n {
          climb := InsertTurnLeft(parent, n, s, q);
        } else {
          climb := InsertTurnRight(parent, n, s, q);
        }
        s, q := InsertStep(s, q).t, q.up;
        if climb {
          RootCell(mem, s, q);
          n := parent;
          parent := mem[n].parent;
        }
      }
      PlugHolds(mem, s, q);
    }

    /** One turn of the loop, for a left child; whether the loop goes on at parent. */
    method InsertTurnLeft(parent: int, elm: int, ghost t: Tree, ghost p: Path) returns (climb: bool)
      requires Held(t, p) && Promoted(t, p) && p.InLeft? && elm == t.fd && parent == p.fd
      modifies this`root, this`mem
      ensures var s := InsertStep(t, p); Held(s.t, s.p) && (climb <==> s.Climb?)
      ensures climb ==> InsertStep(t, p).t.Bin? && InsertStep(t, p).t.fd == parent
    {
      ghost var u, up := Join(t, p), p.up;
      ParentCell(mem, t, p);
      Up(mem, t, p);
      if mem[parent].redLeft {
        FlipLeft(parent, u, up);
        return false;
      }
      FlipRight(parent, u, up);
      u := Painted(u, u.redLeft, !u.redRight);
      RootCell(mem, u, up);
      if mem[parent].redRight {
        return true;
      }
      LiftedLeft(t, parent, u.right);
      LiftFromLeft(parent, elm, t, u.right, up);
      return false;
    }

    method InsertTurnRight(parent: int, elm: int, ghost t: Tree, ghost p: Path) returns (climb: bool)
      requires Held(t, p) && Promoted(t, p) && p.InRight? && elm == t.fd && parent == p.fd
      modifies this`root, this`mem
      ensures var s := InsertStep(t, p); Held(s.t, s.p) && (climb <==> s.Climb?)
      ensures climb ==> InsertStep(t, p).t.Bin? && InsertStep(t, p).t.fd == parent
    {
      ghost var u, up := Join(t, p), p.up;
      ParentCell(mem, t, p);
      Up(mem, t, p);
      if mem[parent].redRight {
        FlipRight(parent, u, up);
        return false;
      }
      FlipLeft(parent, u, up);
      u := Painted(u, !u.redLeft, u.redRight);
      RootCell(mem, u, up);
      if mem[parent].redLeft {
        return true;
      }
      LiftedRight(u.left, parent, t);
      LiftFromRight(parent, elm, u.left, t, up);
      return false;
    }

    // ---------- RB_REMOVE_COLOR ----------

    /** The rotations for an elm three ranks below its parent, on the left. */
    method DropFromLeft(parent: int, ghost t: Tree, ghost r: Tree, ghost p: Path)
      requires 0 <= parent <= INT_MAX && Held(Bin(t, parent, true, false, r), p)
      requires r.Bin? && !BothRed(r) && (r.redLeft || !r.redRight || r.left.Bin?)
      modifies this`root, this`mem
      ensures Held(DropLeft(t, parent, r), p)
    {
      ghost var s := Bin(t, parent, true, false, r);
      ghost var q := InRight(t, parent, true, false, p);
      RootCell(mem, s, p);
      Up(mem, r, q);
      var sib := mem[parent].right;
      FlipRight(sib, r, q);
      ghost var n := Painted(r, r.redLeft, !r.redRight);
      RootCell(mem, n, q);
      Up(mem, n, q);
      s := Join(n, q);
      if mem[sib].redLeft {
        FlipLeft(parent, s, p);
        s := Painted(s, !s.redLeft, s.redRight);
      } else if !mem[sib].redRight {
        FlipLeft(parent, s, p);
        q := InRight(t, parent, false, false, p);
        Up(mem, n, q);
        sib := DoubleDropLeft(parent, sib, t, n, p);
        s := Bin(t, parent, false, n.left.redLeft, Painted(Sunk(RotatedRight(n)), true, true));
      }
      var tmp := RotateLeft(parent, s, p);
    }

    /** The second rotation: sib sinks below its left child, which takes both bits. */
    method DoubleDropLeft(parent: int, sib: int, ghost t: Tree, ghost r: Tree, ghost p: Path)
      returns (elm: int)
      requires 0 <= parent <= INT_MAX && Held(r, InRight(t, parent, false, false, p))
      requires r.Bin? && r.left.Bin? && !r.redLeft && sib == r.fd
      modifies this`root, this`mem
      ensures Held(Bin(t, parent, false, r.left.redLeft, Painted(Sunk(RotatedRight(r)), true, true)), p)
    {
      ghost var q := InRight(t, parent, false, false, p);
      elm := RotateRight(sib, r, q);
      ghost var n := RotatedRight(r);
      RootCell(mem, n, q);
      if mem[elm].redRight {
        ghost var w := InRight(n.left, n.fd, n.redLeft, n.redRight, q);
        Up(mem, n.right, w);
        FlipLeft(sib, n.right, w);
        n := Sunk(n);
        Up(mem, n.right, w);
      }
      RootCell(mem, n, q);
      if mem[elm].redLeft {
        ghost var s := Join(n, q);
        Up(mem, n, q);
        FlipRight(parent, s, p);
        q := InRight(t, parent, false, true, p);
        Up(mem, n, q);
      }
      SetBits(elm, true, n, q);
      Up(mem, Painted(n, true, true), q);
    }

    method DropFromRight(parent: int, ghost l: Tree, ghost t: Tree, ghost p: Path)
      requires 0 <= parent <= INT_MAX && Held(Bin(l, parent, false, true, t), p)
      requires l.Bin? && !BothRed(l) && (l.redRight || !l.redLeft || l.right.Bin?)
      modifies this`root, this`mem
      ensures Held(DropRight(l, parent, t), p)
    {
      ghost var s := Bin(l, parent, false, true, t);
      ghost var q := InLeft(parent, false, true, t, p);
      RootCell(mem, s, p);
      Up(mem, l, q);
      var sib := mem[parent].left;
      FlipLeft(sib, l, q);
      ghost var n := Painted(l, !l.redLeft, l.redRight);
      RootCell(mem, n, q);
      Up(mem, n, q);
      s := Join(n, q);
      if mem[sib].redRight {
        FlipRight(parent, s, p);
        s := Painted(s, s.redLeft, !s.redRight);
      } else if !mem[sib].redLeft {
        FlipRight(parent, s, p);
        q := InLeft(parent, false, false, t, p);
        Up(mem, n, q);
        sib := DoubleDropRight(parent, sib, n, t, p);
        s := Bin(Painted(SunkLeft(RotatedLeft(n)), true, true), parent, n.right.redRight, false, t);
      }
      var tmp := RotateRight(parent, s, p);
    }

    method DoubleDropRight(parent: int, sib: int, ghost l: Tree, ghost t: Tree, ghost p: Path)
      returns (elm: int)
      requires 0 <= parent <= INT_MAX && Held(l, InLeft(parent, false, false, t, p))
      requires l.Bin? && l.right.Bin? && !l.redRight && sib == l.fd
      modifies this`root, this`mem
      ensures Held(Bin(Painted(SunkLeft(RotatedLeft(l)), true, true), parent, l.right.redRight, false, t), p)
    {
      ghost var q := InLeft(parent, false, false, t, p);
      elm := RotateLeft(sib, l, q);
      ghost var n := RotatedLeft(l);
      RootCell(mem, n, q);
      if mem[elm].redLeft {
        ghost var w := InLeft(n.fd, n.redLeft, n.redRight, n.right, q);
        Up(mem, n.left, w);
        FlipRight(sib, n.left, w);
        n := SunkLeft(n);
        Up(mem, n.left, w);
      }
      RootCell(mem, n, q);
      if mem[elm].redRight {
        ghost var s := Join(n, q);
        Up(mem, n, q);
        FlipLeft(parent, s, p);
        q := InLeft(parent, true, false, t, p);
        Up(mem, n, q);
      }
      SetBits(elm, true, n, q);
      Up(mem, Painted(n, true, true), q);
    }

    /** RB_REMOVE_COLOR: elm, possibly null, is t in the hole below parent. */
    method RemoveColor(parent: int, elm: int, ghost t: Tree, ghost p: Path)
      requires Held(t, p) && Demoted(t, p) && !p.Top?
      requires elm == Ptr(t) && parent == p.fd
      modifies this`root, this`mem
      ensures Held(WavlTree.RemoveColor(t, p), Top)
    {
      var n, up := elm, parent;
      ghost var s, q := t, p;
      ParentCell(mem, t, p);
      if mem[up].left == n && mem[up].right == n {
        Up(mem, t, p);
        SetBits(up, false, Join(t, p), p.up);
        s, q := Painted(Join(t, p), false, false), p.up;
        RootCell(mem, s, q);
        n := up;
        up := mem[n].parent;
        if up == NULL {
          return;
        }
      }
      RemoveLoop(up, n, s, q);
    }

    /** The do-while loop of RB_REMOVE_COLOR. */
    method RemoveLoop(parent: int, elm: int, ghost t: Tree, ghost p: Path)
      requires Held(t, p) && Demoted(t, p) && Braced(t, p) && !p.Top?
      requires elm == Ptr(t) && parent == p.fd
      modifies this`root, this`mem
      ensures Held(Lower(t, p), Top)
    {
      var n, up, climb := elm, parent, true;
      ghost var s, q := t, p;
      while climb && up != NULL
        invariant Held(s, q)
        invariant climb ==> Demoted(s, q) && Braced(s, q)
        invariant climb ==> n == Ptr(s) && up == PathPtr(q)
        invariant Lower(t, p) == if climb then Lower(s, q) else Plug(s, q)
        decreases q
      {
        ParentCell(mem, s, q);
        RemoveStepRanks(s, q);
        if mem[up].left == n {
          climb := RemoveTurnLeft(up, s, q);
        } else {
          climb := RemoveTurnRight(up, s, q);
        }
        s, q := RemoveStep(s, q).t, q.up;
        if climb {
          RootCell(mem, s, q);
          n := up;
          up := mem[n].parent;
        }
      }
      PlugHolds(mem, s, q);
    }

    /** One turn of the loop, for a left child; whether the loop goes on at parent. */
    method RemoveTurnLeft(parent: int, ghost t: Tree, ghost p: Path) returns (climb: bool)
      requires Held(t, p) && Demoted(t, p) && Braced(t, p) && p.InLeft? && parent == p.fd
      modifies this`root, this`mem
      ensures var s := RemoveStep(t, p); Held(s.t, s.p) && (climb <==> s.Climb?)
      ensures climb ==> RemoveStep(t, p).t.Bin? && RemoveStep(t, p).t.fd == parent
    {
      ghost var u, up := Join(t, p), p.up;
      ParentCell(mem, t, p);
      Up(mem, t, p);
      if !mem[parent].redLeft {
        FlipLeft(parent, u, up);
        return false;
      }
      if mem[parent].redRight {
        FlipRight(parent, u, up);
        return true;
      }
      var sib := mem[parent].right;
      SiblingRight(mem, u, up);
      if mem[sib].redLeft && mem[sib].redRight {
        ghost var w := InRight(t, parent, u.redLeft, u.redRight, up);
        Up(mem, u.right, w);
        SetBits(sib, false, u.right, w);
        Up(mem, Painted(u.right, false, false), w);
        return true;
      }
      DroppedLeft(t, parent, u.right);
      DropFromLeft(parent, t, u.right, up);
      return false;
    }

    method RemoveTurnRight(parent: int, ghost t: Tree, ghost p: Path) returns (climb: bool)
      requires Held(t, p) && Demoted(t, p) && Braced(t, p) && p.InRight? && parent == p.fd
      modifies this`root, this`mem
      ensures var s := RemoveStep(t, p); Held(s.t, s.p) && (climb <==> s.Climb?)
      ensures climb ==> RemoveStep(t, p).t.Bin? && RemoveStep(t, p).t.fd == parent
    {
      ghost var u, up := Join(t, p), p.up;
      ParentCell(mem, t, p);
      Up(mem, t, p);
      if !mem[parent].redRight {
        FlipRight(parent, u, up);
        return false;
      }
      if mem[parent].redLeft {
        FlipLeft(parent, u, up);
        return true;
      }
      var sib := mem[parent].left;
      SiblingLeft(mem, u, up);
      if mem[sib].redLeft && mem[sib].redRight {
        ghost var w := InLeft(parent, u.redLeft, u.redRight, t, up);
        Up(mem, u.left, w);
        SetBits(sib, false, u.left, w);
        Up(mem, Painted(u.left, false, false), w);
        return true;
      }
      DroppedRight(u.left, parent, t);
      DropFromRight(parent, u.left, t, up);
      return false;
    }

    // ---------- RB_FIND, RB_MINMAX, RB_NEXT ----------

    /** Between two operations the memory holds this tree, and it is a valid one. */
    ghost predicate Valid()
      reads this
    {
      Held(tree, Top) && WavlTree.Valid(tree)
    }

    constructor ()
      ensures Valid() && tree == Nil
    {
      root, mem, tree := NULL, map[], Nil;
    }

    /** RB_FIND, and how many nodes it compares with. */
    method Find(elm: int) returns (r: int, ghost comparisons: nat)
      requires Valid()
      ensures r == if Has(tree, elm) then elm else NULL
      ensures comparisons == Comparisons(tree, elm)
    {
      var tmp := root;
      ghost var s, q := tree, Top;
      comparisons := 0;
      while tmp != NULL
        invariant Held(s, q) && tmp == Ptr(s)
        invariant Has(tree, elm) <==> Has(s, elm)
        invariant comparisons + Comparisons(s, elm) == Comparisons(tree, elm)
        decreases s
      {
        RootCell(mem, s, q);
        comparisons := comparisons + 1;
        var comp := FdCmp(elm, tmp);
        if comp < 0 {
          s, q := s.left, InLeft(s.fd, s.redLeft, s.redRight, s.right, q);
          Up(mem, s, q);
          tmp := mem[tmp].left;
        } else if comp > 0 {
          s, q := s.right, InRight(s.left, s.fd, s.redLeft, s.redRight, q);
          Up(mem, s, q);
          tmp := mem[tmp].right;
        } else {
          return tmp, comparisons;
        }
      }
      return NULL, comparisons;
    }

    /** RB_MINMAX: the least descriptor for val < 0, the greatest otherwise. */
    method MinMax(val: int) returns (r: int)
      requires Valid()
      ensures r == if tree.Nil? then NULL else if val < 0 then Min(tree) else Max(tree)
    {
      var tmp := root;
      r := NULL;
      ghost var s, q := tree, Top;
      while tmp != NULL
        invariant Held(s, q) && tmp == Ptr(s)
        invariant r == NULL ==> s == tree
        invariant r != NULL ==> tree.Bin?
        invariant r != NULL && val < 0 ==> Min(tree) == if s.Nil? then r else Min(s)
        invariant r != NULL && val >= 0 ==> Max(tree) == if s.Nil? then r else Max(s)
        decreases s
      {
        RootCell(mem, s, q);
        r := tmp;
        if val < 0 {
          s, q := s.left, InLeft(s.fd, s.redLeft, s.redRight, s.right, q);
          Up(mem, s, q);
          tmp := mem[tmp].left;
        } else {
          s, q := s.right, InRight(s.left, s.fd, s.redLeft, s.redRight, q);
          Up(mem, s, q);
          tmp := mem[tmp].right;
        }
      }
    }

    /** RB_NEXT: the least descriptor above elm, or null. */
    method Next(elm: int) returns (r: int)
      requires Valid() && Has(tree, elm) && 0 <= elm <= INT_MAX
      ensures r == NULL ==> forall k :: Has(tree, k) ==> k <= elm
      ensures r != NULL ==> elm < r && Has(tree, r) && forall k :: Has(tree, k) && elm < k ==> r <= k
    {
      ghost var (s, q) := Descend(tree, Top, elm);
      Descended(tree, Top, elm);
      DescendHolds(mem, tree, Top, elm);
      RootCell(mem, s, q);
      r := mem[elm].right;
      if r != NULL {
        r := LeftMost(r, s.right, InRight(s.left, s.fd, s.redLeft, s.redRight, q));
        SuccessorBelow(tree, s, q);
      } else {
        NothingAbove(tree, s, q);
        r := FirstAbove(elm, s, q);
      }
    }

    /** The climb of RB_NEXT, to the first ancestor that holds elm on its left. */
    method FirstAbove(elm: int, ghost t: Tree, ghost p: Path) returns (r: int)
      requires Valid() && Held(t, p) && t.Bin? && elm == t.fd && Plug(t, p) == tree
      requires forall k :: elm < k < Hi(p) ==> !Has(tree, k)
      ensures r == NULL ==> forall k :: Has(tree, k) ==> k <= elm
      ensures r != NULL ==> elm < r && Has(tree, r) && forall k :: Has(tree, k) && elm < k ==> r <= k
    {
      r := elm;
      ghost var s, q := t, p;
      RootCell(mem, s, q);
      var up := mem[r].parent;
      if up != NULL {
        ParentCell(mem, s, q);
      }
      while up != NULL && r == mem[up].right
        invariant Held(s, q) && s.Bin? && r == s.fd && up == PathPtr(q) && elm < Hi(q)
        invariant !q.Top? ==> up in mem && (mem[up].right == r <==> q.InRight?)
        invariant Plug(s, q) == tree && Hi(q) == Hi(p)
        decreases q
      {
        Up(mem, s, q);
        s, q := Join(s, q), q.up;
        r := up;
        RootCell(mem, s, q);
        up := mem[r].parent;
        if up != NULL {
          ParentCell(mem, s, q);
        }
      }
      PlugKeeps(s, q, if up == NULL then elm else up);
      WithinBounds(tree);
      r := up;
    }

    /** The loop down the left edge, as in RB_NEXT. */
    method LeftMost(elm: int, ghost t: Tree, ghost p: Path) returns (r: int)
      requires Held(t, p) && t.Bin? && elm == t.fd
      ensures r == Min(t)
    {
      r := elm;
      ghost var s, q := t, p;
      RootCell(mem, t, p);
      while mem[r].left != NULL
        invariant Held(s, q) && s.Bin? && r == s.fd && Min(s) == Min(t)
        invariant r in mem && mem[r].left == Ptr(s.left)
        decreases s
      {
        s, q := s.left, InLeft(s.fd, s.redLeft, s.redRight, s.right, q);
        Up(mem, s, q);
        r := mem[r].left;
        RootCell(mem, s, q);
      }
    }

    // ---------- RB_INSERT ----------

    /** The search loop of RB_INSERT: the equal node, or the parent of the slot. */
    method FindSlot(elm: int) returns (tmp: int, parent: int, comp: int)
      requires Valid() && Lo(Top) < elm < Hi(Top)
      ensures var (s, q) := Descend(tree, Top, elm);
        && Held(s, q) && tmp == Ptr(s)
        && (s.Nil? ==> parent == PathPtr(q) && (q.InLeft? ==> comp < 0) && (q.InRight? ==> comp > 0))
    {
      tmp, parent, comp := root, NULL, 0;
      ghost var s, q := tree, Top;
      while tmp != NULL
        invariant Held(s, q) && tmp == Ptr(s) && parent == PathPtr(q)
        invariant q.InLeft? ==> comp < 0
        invariant q.InRight? ==> comp > 0
        invariant Descend(s, q, elm) == Descend(tree, Top, elm)
        decreases s
      {
        RootCell(mem, s, q);
        parent := tmp;
        comp := FdCmp(elm, parent);
        if comp < 0 {
          s, q := s.left, InLeft(s.fd, s.redLeft, s.redRight, s.right, q);
          Up(mem, s, q);
          tmp := mem[tmp].left;
        } else if comp > 0 {
          s, q := s.right, InRight(s.left, s.fd, s.redLeft, s.redRight, q);
          Up(mem, s, q);
          tmp := mem[tmp].right;
        } else {
          return;
        }
      }
    }

    method Insert(elm: int) returns (r: int)
      requires Valid() && 0 <= elm <= INT_MAX
      modifies this
      ensures Valid() && tree == WavlTree.Insert(old(tree), elm)
      ensures r == if Has(old(tree), elm) then elm else NULL
      ensures r != NULL ==> mem == old(mem) && root == old(root) && tree == old(tree)
      ensures forall k :: Has(tree, k) <==> Has(old(tree), k) || k == elm
    {
      Descended(tree, Top, elm);
      Inserted(tree, elm);
      var tmp, parent, comp := FindSlot(elm);
      if tmp != NULL {
        return tmp;
      }
      ghost var q := Descend(tree, Top, elm).1;
      LinkLeafHolds(mem, elm, q);
      mem := mem[elm := Cell(NULL, NULL, parent, false, false)];
      if parent == NULL {
        root := elm;
      } else if comp < 0 {
        mem := mem[parent := mem[parent].(left := elm)];
      } else {
        mem := mem[parent := mem[parent].(right := elm)];
      }
      InsertColor(elm, Leaf(elm), q);
      tree := WavlTree.Insert(tree, elm);
      return NULL;
    }

    // ---------- RB_REMOVE ----------

    /** A node with at most one child: where the repair starts. */
    method RemoveOne(elm: int, ghost s: Tree, ghost p: Path) returns (parent: int, child: int)
      requires Held(s, p) && s.Bin? && elm == s.fd && (s.left.Nil? || s.right.Nil?)
      modifies this`root, this`mem
      ensures Held(OnlyChild(s), p)
      ensures parent == PathPtr(p) && child == Ptr(OnlyChild(s))
    {
      RootCell(mem, s, p);
      UnlinkReady(mem, s, p);
      UnlinkHolds(mem, s, p);
      parent := mem[elm].parent;
      child := mem[elm].right;
      if mem[elm].left != NULL {
        child := mem[elm].left;
      }
      SwapChild(elm, child, p);
      if child != NULL {
        mem := mem[child := mem[child].(parent := parent)];
      }
      mem := mem - {elm};
    }

    /** The last writes of RB_REMOVE for a node with two children: y takes the place of elm. */
    method TakePlace(elm: int, y: int, child: int, parent: int, ghost p: Path)
      requires elm in mem && mem[elm].left in mem && mem[elm].parent == PathPtr(p)
      requires child != NULL ==> child in mem
      requires NULL !in {elm, y, mem[elm].left} && elm !in {y, child, mem[elm].left}
      requires !p.Top? ==> p.fd in mem && (mem[p.fd].left == elm <==> p.InLeft?)
      requires !p.Top? ==> p.fd !in {elm, y, mem[elm].left, child}
      modifies this`root, this`mem
      ensures mem == RbMemory.TakePlace(old(mem), elm, y, child, parent, p)
      ensures root == if p.Top? then y else old(root)
    {
      var l := mem[elm].left;
      mem := mem[l := mem[l].(parent := y)];
      mem := mem[y := mem[elm]];
      SwapChild(elm, y, p);
      if child != NULL {
        mem := mem[child := mem[child].(parent := parent)];
      }
      mem := mem - {elm};
    }

    /** The do-while loop of RB_REMOVE. */
    method SuccessorOf(child: int, ghost s: Tree, ghost p: Path) returns (y: int)
      requires Held(s, p) && TwoChildren(s, p) && child == Ptr(s.right.left) != NULL
      ensures y == Min(s.right)
    {
      ghost var w := InRight(s.left, s.fd, s.redLeft, s.redRight, p);
      ghost var r := s.right;
      ghost var v := InLeft(r.fd, r.redLeft, r.redRight, r.right, w);
      Up(mem, r, w);
      Up(mem, r.left, v);
      y := LeftMost(child, r.left, v);
    }

    /** A node with two children: its successor takes its place, and leaves a gap. */
    method RemoveTwo(elm: int, ghost s: Tree, ghost p: Path) returns (parent: int, child: int)
      requires Held(s, p) && TwoChildren(s, p) && elm == s.fd
      requires var (c, q) := MinHole(s.right, Successor(s, p)); BstAt(c, q)
      modifies this`root, this`mem
      ensures var (c, q) := MinHole(s.right, Successor(s, p));
        Held(c, q) && parent == PathPtr(q) && child == Ptr(c)
    {
      ghost var (c, q) := MinHole(s.right, Successor(s, p));
      ghost var m0 := mem;
      SplicePlan(mem, s, p);
      var right := mem[elm].right;
      child := mem[right].left;
      var y := right;
      if child == NULL {
        child := mem[right].right;
        mem := mem[elm := mem[elm].(right := child)];
        parent := right;
      } else {
        y := SuccessorOf(child, s, p);
        child := mem[y].right;
        parent := mem[y].parent;
        mem := mem[parent := mem[parent].(left := child)];
        mem := mem[mem[elm].right := mem[mem[elm].right].(parent := y)];
      }
      assert mem == CloseGap(m0, elm, y, child, parent);
      TakePlace(elm, y, child, parent, p);
    }

    /** The part of RB_REMOVE before the repair. */
    method Detach(elm: int, ghost s: Tree, ghost p: Path, ghost c: Tree, ghost q: Path)
      returns (parent: int, child: int)
      requires Held(s, p) && s.Bin? && elm == s.fd
      requires (c, q) == Vacate(s, p) && BstAt(c, q)
      modifies this`root, this`mem
      ensures Held(c, q) && parent == PathPtr(q) && child == Ptr(c)
    {
      RootCell(mem, s, p);
      if mem[elm].left == NULL || mem[elm].right == NULL {
        parent, child := RemoveOne(elm, s, p);
      } else {
        parent, child := RemoveTwo(elm, s, p);
      }
    }

    method Remove(elm: int) returns (removed: int)
      requires Valid() && Has(tree, elm) && 0 <= elm <= INT_MAX
      modifies this
      ensures Valid() && tree == WavlTree.Remove(old(tree), elm) && removed == elm
      ensures forall k :: Has(tree, k) <==> Has(old(tree), k) && k != elm
    {
      RemoveThis(elm);
      Removed(tree, elm);
      tree := WavlTree.Remove(tree, elm);
      return elm;
    }

    method RemoveThis(elm: int)
      requires Valid() && Has(tree, elm) && 0 <= elm <= INT_MAX
      modifies this`root, this`mem
      ensures Held(WavlTree.Remove(tree, elm), Top)
    {
      ghost var s, p, c, q := RemovePlan(mem, tree, elm);
      var parent, child := Detach(elm, s, p, c, q);
      if parent != NULL {
        RemoveColor(parent, child, c, q);
      }
    }

    // ---------- RB_FOREACH_SAFE ----------

    /** The loop of epollfd_ctx_terminate: np_temp is fetched before np goes. */
    method Teardown() returns (visited: seq<int>)
      requires Valid()
      modifies this
      ensures visited == Keys(old(tree))
      ensures Valid() && tree == Nil && root == NULL && mem == map[]
    {
      visited := [];
      var np := MinMax(-1);
      while np != NULL
        invariant Valid()
        invariant np == if tree.Nil? then NULL else Min(tree)
        invariant visited + Keys(tree) == Keys(old(tree))
        decreases |Keys(tree)|
      {
        MinRemoved(tree);
        var temp := Next(np);
        MinNext(tree, temp);
        var removed := Remove(np);
        visited := visited + [removed];
        np := temp;
      }
      forall k
        ensures k !in mem
      {
        assert Lookup(mem, k) == CellAt(Nil, Top, k);
      }
    }
  }

  /** fd_cmp of src/epollfd_ctx.c. */
  function FdCmp(a: int, b: int): (r: int)
    ensures (r < 0 <==> a < b) && (r > 0 <==> a > b)
  {
    if a < b then -1 else if a > b then 1 else 0
  }
}
