/**
 The table of src/epoll_shim_ctx.c that maps descriptors to file
 descriptions: an array that grows and is written in place, under the
 reader/writer lock.
 */
module OpenFiles {
  import opened Options
  import opened Powers

  const INT_MAX := 0x7fff_ffff

  /** unsigned int. */
  function Uint32(x: int): int {
    x % 0x1_0000_0000
  }

  /** The loop that doubles the size: it ends before it wraps, at the least of 32, 64, ... that covers kq. */
  method SpaceNeeded(kq: int) returns (size: int)
    requires 0 <= kq <= INT_MAX
    ensures kq < size <= INT_MAX + 1 && (size == 32 || size <= 2 * kq)
    ensures exists k: nat :: size == 32 * Pow2(k)
  {
    size := 32;
    ghost var k: nat := 0;
    while size <= kq
      invariant 32 <= size <= INT_MAX + 1 && (size == 32 || size <= 2 * kq)
      invariant size == 32 * Pow2(k)
      decreases INT_MAX + 1 - size
    {
      PowerBound(k, kq);
      size := Uint32(size * 2);
      k := k + 1;
    }
  }

  /** Powers of two up to INT_MAX are at most half of INT_MAX + 1. */
  lemma PowerBound(k: nat, kq: int)
    requires 32 * Pow2(k) <= kq <= INT_MAX
    ensures 32 * Pow2(k) * 2 <= INT_MAX + 1
  {
    assert Pow2(5) == 32;
    Pow2Sum(5, 5);
    Pow2Sum(10, 10);
    Pow2Sum(20, 5);
    assert Pow2(25) == 0x200_0000;
    if k > 25 {
      Pow2Monotone(26, k);
    } else {
      Pow2Monotone(k, 25);
    }
  }

  class Table {
    /** open_files and its length; None stands for a null pointer. */
    var files: array<Option<nat>>

    function Find(fd: int): Option<nat>
      reads this, files
    {
      if fd < 0 || fd >= files.Length then None else files[fd]
    }

    constructor ()
      ensures fresh(files) && forall fd :: Find(fd) == None
    {
      files := new Option<nat>[0];
    }

    /** epoll_shim_ctx_create_desc: room for kq, and what somebody left there without our close. */
    method Prepare(kq: int) returns (left: Option<nat>)
      requires 0 <= kq <= INT_MAX
      modifies this, files
      ensures files == old(files) || fresh(files)
      ensures kq < files.Length && old(files.Length) <= files.Length && Find(kq) == None
      ensures left == old(Find(kq))
      ensures forall fd :: fd != kq ==> Find(fd) == old(Find(fd))
    {
      if files.Length <= kq {
        var size := SpaceNeeded(kq);
        var grown := new Option<nat>[size];
        var was := files;
        forall i | 0 <= i < size {
          grown[i] := if i < was.Length then was[i] else None;
        }
        files := grown;
      }
      left := files[kq];
      if left.Some? {
        files[kq] := None;
      }
    }

    /** epoll_shim_ctx_install_desc, and the first lines of remove_desc with None. */
    method Put(fd: int, desc: Option<nat>)
      requires 0 <= fd < files.Length
      modifies files
      ensures Find(fd) == desc && forall other :: other != fd ==> Find(other) == old(Find(other))
    {
      files[fd] := desc;
    }

    /** epoll_shim_ctx_for_each_unlocked: every description once, in the order of descriptors. */
    method ForEach() returns (visited: seq<(nat, int)>)
      ensures forall k :: 0 <= k < |visited| ==> Find(visited[k].1) == Some(visited[k].0)
      ensures forall j, k :: 0 <= j < k < |visited| ==> visited[j].1 < visited[k].1
      ensures forall fd :: 0 <= fd <= INT_MAX && Find(fd).Some? ==> (Find(fd).value, fd) in visited
    {
      visited := [];
      var i := 0;
      while i < files.Length && i <= INT_MAX
        invariant 0 <= i <= files.Length
        invariant forall k :: 0 <= k < |visited| ==> visited[k].1 < i && Find(visited[k].1) == Some(visited[k].0)
        invariant forall j, k :: 0 <= j < k < |visited| ==> visited[j].1 < visited[k].1
        invariant forall fd :: 0 <= fd < i && Find(fd).Some? ==> (Find(fd).value, fd) in visited
      {
        if files[i].Some? {
          visited := visited + [(files[i].value, i)];
        }
        i := i + 1;
      }
    }
  }
}
