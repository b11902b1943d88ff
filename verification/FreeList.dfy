/** The circular free list of user/umalloc.c as a value: which blocks are on it, in
    address order, with the ptr and size fields of their headers. Addresses and
    lengths are in bytes; a header is HEADER bytes and sizes count headers. */
module FreeList {
  type Addr = nat

  const HEADER := 16

  /** order lists the blocks by address, order[0] being the static base block. */
  datatype List = List(order: seq<Addr>, ptr: map<Addr, Addr>, size: map<Addr, nat>) {
    /** The first address past block i. */
    ghost function End(i: int): Addr
      requires 0 <= i < |order| && order[i] in size
    {
      order[i] + HEADER * size[order[i]]
    }

    /** Byte x lies in some block of the list. */
    ghost predicate Holds(x: int)
      requires Present()
    {
      exists i :: 0 <= i < |order| && Covers(i, x)
    }

    ghost predicate Covers(i: int, x: int)
      requires Present() && 0 <= i < |order|
    {
      order[i] <= x < End(i)
    }

    ghost predicate Present() {
      forall i :: 0 <= i < |order| ==> order[i] in ptr && order[i] in size
    }

    /** The ptr fields go through the blocks in address order and back to the base. */
    ghost predicate Circular() {
      && Present() && |order| > 0
      && forall i :: 0 <= i < |order| ==> Points(i)
    }

    ghost predicate Points(i: int)
      requires Present() && 0 <= i < |order|
    {
      ptr[order[i]] == order[Next(|order|, i)]
    }

    /** Blocks are disjoint, in increasing order, and only the base is empty. */
    ghost predicate Sorted() {
      && Present() && |order| > 0 && size[order[0]] == 0
      && (forall i :: 1 <= i < |order| ==> size[order[i]] > 0 && order[0] + HEADER <= order[i])
      && (forall i, j :: 0 <= i < j < |order| ==> Before(i, j))
    }

    ghost predicate Before(i: int, j: int)
      requires Present() && 0 <= i < j < |order|
    {
      End(i) <= order[j]
    }

    /** Block i ends where the next one starts. */
    ghost predicate Touches(i: int)
      requires Present() && 0 <= i < |order| - 1
    {
      End(i) == order[i + 1]
    }

    ghost predicate Ok() {
      Circular() && Sorted() && forall i :: 0 <= i < |order| - 1 ==> !Touches(i)
    }

    /** Bytes lo to hi are in no block. */
    ghost predicate Clear(lo: int, hi: int)
      requires Present()
    {
      forall i :: 0 <= i < |order| ==> End(i) <= lo || hi <= order[i]
    }
  }

  function Next(n: nat, i: nat): nat {
    if i + 1 < n then i + 1 else 0
  }

  /** Put block b, with its size already in its header, after block k. */
  ghost function Link(f: List, k: nat, b: Addr, n: nat): List
    requires f.Circular() && k < |f.order|
  {
    List(f.order[..k + 1] + [b] + f.order[k + 1..],
         f.ptr[b := f.ptr[f.order[k]]][f.order[k] := b],
         f.size[b := n])
  }

  /** Merge block k + 1 into block k. */
  ghost function Absorb(f: List, k: nat): List
    requires f.Circular() && k + 1 < |f.order|
  {
    var a, b := f.order[k], f.order[k + 1];
    List(f.order[..k + 1] + f.order[k + 2..], f.ptr[a := f.ptr[b]], f.size[a := f.size[a] + f.size[b]])
  }

  /** Take block k + 1 off the list. */
  ghost function Unlink(f: List, k: nat): List
    requires f.Circular() && k + 1 < |f.order|
  {
    List(f.order[..k + 1] + f.order[k + 2..], f.ptr[f.order[k] := f.ptr[f.order[k + 1]]], f.size)
  }

  /** Where block b belongs: after block k. */
  ghost predicate Fits(f: List, k: nat, b: Addr, n: nat) {
    && f.Circular() && f.Sorted() && k < |f.order|
    && f.order[k] < b && (k + 1 < |f.order| ==> b < f.order[k + 1])
    && n > 0 && f.order[0] + HEADER <= b && f.Clear(b, b + HEADER * n)
  }

  lemma Increasing(f: List, i: nat, j: nat)
    requires f.Sorted() && i < j < |f.order|
    ensures f.order[i] < f.order[j]
  {
    assert f.Before(i, j);
  }

  /** Link moves the blocks from k + 1 on one place up and leaves their headers. */
  lemma LinkPlaces(f: List, k: nat, b: Addr, n: nat, g: List)
    requires Fits(f, k, b, n) && g == Link(f, k, b, n)
    ensures |g.order| == |f.order| + 1 && g.Present()
    ensures forall i :: 0 <= i < |f.order| ==> f.order[i] != b && (i != k ==> f.order[i] != f.order[k])
    ensures forall i :: 0 <= i < |g.order| ==> g.order[i] == if i <= k then f.order[i] else if i == k + 1 then b else f.order[i - 1]
  {
    forall i | 0 <= i < |f.order| ensures f.order[i] != b && (i != k ==> f.order[i] != f.order[k]) {
      if i < k {
        Increasing(f, i, k);
      } else if i > k {
        Increasing(f, k, i);
        if i > k + 1 {
          Increasing(f, k + 1, i);
        }
      }
    }
  }

  lemma LinkCircular(f: List, k: nat, b: Addr, n: nat, g: List)
    requires Fits(f, k, b, n) && g == Link(f, k, b, n)
    ensures g.Circular()
  {
    LinkPlaces(f, k, b, n, g);
    forall i | 0 <= i < |g.order| ensures g.Points(i) {
      assert f.Points(if i <= k then i else i - 1);
    }
  }

  lemma LinkAt(f: List, k: nat, b: Addr, n: nat, g: List, i: nat)
    requires Fits(f, k, b, n) && g == Link(f, k, b, n) && g.Present() && i < |g.order|
    ensures |g.order| == |f.order| + 1
    ensures i <= k ==> g.order[i] == f.order[i] && g.End(i) == f.End(i)
    ensures i == k + 1 ==> g.order[i] == b && g.End(i) == b + HEADER * n
    ensures i > k + 1 ==> g.order[i] == f.order[i - 1] && g.End(i) == f.End(i - 1)
  {
    hide List.Points, List.Clear, List.Before;
    LinkPlaces(f, k, b, n, g);
  }

  lemma LinkBefore(f: List, k: nat, b: Addr, n: nat, g: List, i: nat, j: nat)
    requires Fits(f, k, b, n) && g == Link(f, k, b, n) && g.Present() && i < j < |g.order|
    ensures g.Before(i, j)
  {
    hide List.Points, Link;
    LinkAt(f, k, b, n, g, i);
    LinkAt(f, k, b, n, g, j);
    if j == k + 1 {
      if i < k {
        Increasing(f, i, k);
      }
    } else if i == k + 1 {
      if k + 1 < j - 1 {
        Increasing(f, k + 1, j - 1);
      }
    } else {
      assert f.Before(if i <= k then i else i - 1, if j <= k then j else j - 1);
    }
  }

  lemma LinkSorted(f: List, k: nat, b: Addr, n: nat, g: List)
    requires Fits(f, k, b, n) && g == Link(f, k, b, n)
    ensures g.Present() && g.Sorted()
  {
    hide List.Points, List.Before, List.Clear;
    LinkPlaces(f, k, b, n, g);
    forall i, j | 0 <= i < j < |g.order| ensures g.Before(i, j) {
      LinkBefore(f, k, b, n, g, i, j);
    }
  }

  lemma LinkCovers(f: List, k: nat, b: Addr, n: nat, g: List, i: nat, x: int)
    requires Fits(f, k, b, n) && g == Link(f, k, b, n) && g.Present() && i < |f.order|
    ensures |g.order| == |f.order| + 1 && (g.Covers(if i <= k then i else i + 1, x) <==> f.Covers(i, x))
    ensures g.Covers(k + 1, x) <==> b <= x < b + HEADER * n
  {
    hide List.Sorted, List.Points, List.Clear;
    LinkPlaces(f, k, b, n, g);
  }

  lemma LinkHolds(f: List, k: nat, b: Addr, n: nat, g: List, x: int)
    requires Fits(f, k, b, n) && g == Link(f, k, b, n) && g.Present()
    ensures g.Holds(x) <==> f.Holds(x) || b <= x < b + HEADER * n
  {
    hide Link, List.Sorted, List.Points, List.Clear, List.Covers;
    LinkCovers(f, k, b, n, g, k, x);
    if i :| 0 <= i < |f.order| && f.Covers(i, x) {
      LinkCovers(f, k, b, n, g, i, x);
    }
    if j :| 0 <= j < |g.order| && j != k + 1 && g.Covers(j, x) {
      LinkCovers(f, k, b, n, g, if j <= k then j else j - 1, x);
    }
  }

  lemma AbsorbPlaces(f: List, k: nat, g: List)
    requires f.Circular() && f.Sorted() && k + 1 < |f.order| && g == Absorb(f, k)
    ensures |g.order| == |f.order| - 1 && g.Present()
    ensures forall i :: 0 <= i < |f.order| && i != k ==> f.order[i] != f.order[k]
    ensures forall i :: 0 <= i < |g.order| ==> g.order[i] == if i <= k then f.order[i] else f.order[i + 1]
  {
    forall i | 0 <= i < |f.order| && i != k ensures f.order[i] != f.order[k] {
      if i < k {
        Increasing(f, i, k);
      } else if i > k {
        Increasing(f, k, i);
      }
    }
  }

  lemma AbsorbCircular(f: List, k: nat, g: List)
    requires f.Circular() && f.Sorted() && k + 1 < |f.order| && g == Absorb(f, k)
    ensures g.Circular()
  {
    AbsorbPlaces(f, k, g);
    forall i | 0 <= i < |g.order| ensures g.Points(i) {
      assert f.Points(if i < k then i else i + 1);
    }
  }

  lemma AbsorbSorted(f: List, k: nat, g: List)
    requires f.Circular() && f.Sorted() && 1 <= k && k + 1 < |f.order| && f.Touches(k) && g == Absorb(f, k)
    ensures g.Sorted() && g.End(k) == f.End(k + 1)
  {
    AbsorbPlaces(f, k, g);
    forall i, j | 0 <= i < j < |g.order| ensures g.Before(i, j) {
      assert f.Before(if i < k then i else i + 1, if j <= k then j else j + 1);
    }
  }

  lemma AbsorbHolds(f: List, k: nat, g: List, x: int)
    requires f.Circular() && f.Sorted() && k + 1 < |f.order| && f.Touches(k) && g == Absorb(f, k) && g.Present()
    ensures g.Holds(x) <==> f.Holds(x)
  {
    AbsorbPlaces(f, k, g);
    if i :| 0 <= i < |f.order| && f.Covers(i, x) {
      var j := if i <= k then i else i - 1;
      assert g.Covers(j, x);
    }
    if j :| 0 <= j < |g.order| && g.Covers(j, x) {
      var i := if j < k || (j == k && x < f.End(k)) then j else j + 1;
      assert f.Covers(i, x);
    }
  }

  lemma UnlinkPlaces(f: List, k: nat, g: List)
    requires f.Circular() && f.Sorted() && k + 1 < |f.order| && g == Unlink(f, k)
    ensures |g.order| == |f.order| - 1 && g.Present()
    ensures forall i :: 0 <= i < |f.order| && i != k ==> f.order[i] != f.order[k]
    ensures forall i :: 0 <= i < |g.order| ==> g.order[i] == if i <= k then f.order[i] else f.order[i + 1]
  {
    forall i | 0 <= i < |f.order| && i != k ensures f.order[i] != f.order[k] {
      if i < k {
        Increasing(f, i, k);
      } else if i > k {
        Increasing(f, k, i);
      }
    }
  }

  lemma UnlinkCircular(f: List, k: nat, g: List)
    requires f.Circular() && f.Sorted() && k + 1 < |f.order| && g == Unlink(f, k)
    ensures g.Circular()
  {
    hide List.Sorted;
    UnlinkPlaces(f, k, g);
    forall i | 0 <= i < |g.order| ensures g.Points(i) {
      assert f.Points(if i < k then i else i + 1);
      assert i == k ==> f.Points(k);
    }
  }

  lemma UnlinkSorted(f: List, k: nat, g: List)
    requires f.Circular() && f.Sorted() && k + 1 < |f.order| && g == Unlink(f, k)
    ensures g.Sorted()
  {
    hide List.Points;
    UnlinkPlaces(f, k, g);
    forall i, j | 0 <= i < j < |g.order| ensures g.Before(i, j) {
      assert f.Before(if i <= k then i else i + 1, if j <= k then j else j + 1);
    }
  }

  lemma UnlinkKeeps(f: List, k: nat, g: List)
    requires f.Ok() && k + 1 < |f.order| && g == Unlink(f, k)
    ensures g.Ok()
  {
    UnlinkPlaces(f, k, g);
    UnlinkCircular(f, k, g);
    UnlinkSorted(f, k, g);
    forall i | 0 <= i < |g.order| - 1 ensures !g.Touches(i) {
      assert !f.Touches(if i <= k then i else i + 1);
      if i == k {
        assert f.Before(k, k + 1) && f.Before(k + 1, k + 2);
      }
    }
  }

  /** A byte is in one block at most. */
  lemma OneCover(f: List, i: nat, j: nat, x: int)
    requires f.Sorted() && i < |f.order| && j < |f.order| && f.Covers(i, x) && f.Covers(j, x)
    ensures i == j
  {
    assert (i < j ==> f.Before(i, j)) && (j < i ==> f.Before(j, i));
  }

  lemma UnlinkHolds(f: List, k: nat, g: List, x: int)
    requires f.Circular() && f.Sorted() && k + 1 < |f.order| && g == Unlink(f, k) && g.Present()
    ensures g.Holds(x) <==> f.Holds(x) && !f.Covers(k + 1, x)
  {
    UnlinkPlaces(f, k, g);
    if i :| 0 <= i < |f.order| && f.Covers(i, x) {
      if i != k + 1 {
        var j := if i <= k then i else i - 1;
        assert g.Covers(j, x);
        if f.Covers(k + 1, x) {
          OneCover(f, i, k + 1, x);
        }
      }
    }
    if j :| 0 <= j < |g.order| && g.Covers(j, x) {
      var i := if j <= k then j else j + 1;
      assert f.Covers(i, x);
      if f.Covers(k + 1, x) {
        OneCover(f, i, k + 1, x);
      }
    }
  }

  /** Cut the last n units off block k. */
  ghost function Shrink(f: List, k: nat, n: nat): List
    requires f.Present() && k < |f.order| && n <= f.size[f.order[k]]
  {
    f.(size := f.size[f.order[k] := f.size[f.order[k]] - n])
  }

  lemma ShrinkKeeps(f: List, k: nat, n: nat, g: List)
    requires f.Ok() && 1 <= k < |f.order| && 0 < n < f.size[f.order[k]] && g == Shrink(f, k, n)
    ensures g.Ok()
  {
    forall i | 0 <= i < |f.order| && i != k ensures f.order[i] != f.order[k] {
      if i < k {
        Increasing(f, i, k);
      } else {
        Increasing(f, k, i);
      }
    }
    forall i | 0 <= i < |g.order| ensures g.Points(i) {
      assert f.Points(i);
    }
    forall i, j | 0 <= i < j < |g.order| ensures g.Before(i, j) {
      assert f.Before(i, j);
    }
    forall i | 0 <= i < |g.order| - 1 ensures !g.Touches(i) {
      assert !f.Touches(i) && f.Before(i, i + 1);
    }
  }

  lemma ShrinkHolds(f: List, k: nat, n: nat, g: List, x: int)
    requires f.Sorted() && 1 <= k < |f.order| && 0 < n < f.size[f.order[k]] && g == Shrink(f, k, n) && g.Present()
    ensures g.End(k) == f.End(k) - HEADER * n
    ensures g.Holds(x) <==> f.Holds(x) && !(g.End(k) <= x < f.End(k))
  {
    forall i | 0 <= i < |f.order| && i != k ensures f.order[i] != f.order[k] {
      if i < k {
        Increasing(f, i, k);
      } else {
        Increasing(f, k, i);
      }
    }
    if i :| 0 <= i < |f.order| && f.Covers(i, x) {
      if !(g.End(k) <= x < f.End(k)) {
        assert g.Covers(i, x);
      } else {
        assert f.Covers(k, x);
        OneCover(f, i, k, x);
      }
    }
    if j :| 0 <= j < |g.order| && g.Covers(j, x) {
      assert f.Covers(j, x);
      if f.Covers(k, x) {
        OneCover(f, j, k, x);
      }
    }
  }

  lemma LinkTouches(f: List, k: nat, b: Addr, n: nat, g: List, i: nat)
    requires Fits(f, k, b, n) && g == Link(f, k, b, n) && g.Present()
    requires i < |g.order| - 1 && i != k && i != k + 1
    ensures g.Touches(i) <==> f.Touches(if i < k then i else i - 1)
  {
    LinkPlaces(f, k, b, n, g);
  }

  lemma AbsorbTouches(f: List, k: nat, g: List, i: nat)
    requires f.Circular() && f.Sorted() && 1 <= k && k + 1 < |f.order| && f.Touches(k) && g == Absorb(f, k)
    requires g.Present() && i < |g.order| - 1
    ensures g.Touches(i) <==> f.Touches(if i < k then i else i + 1)
  {
    AbsorbPlaces(f, k, g);
    AbsorbSorted(f, k, g);
  }

  /** No two blocks touch before block k; none do after it. */
  ghost predicate ApartBelow(f: List, k: nat)
    requires f.Present()
  {
    forall i :: 0 <= i < k && i < |f.order| - 1 ==> !f.Touches(i)
  }

  ghost predicate ApartAbove(f: List, k: nat)
    requires f.Present()
  {
    forall i :: k < i < |f.order| - 1 ==> !f.Touches(i)
  }

  ghost predicate Chained(f: List) {
    f.Circular() && f.Sorted()
  }

  /** Merge block k with the next one if they touch. */
  ghost function MergeAt(f: List, k: nat): List
    requires f.Circular() && k < |f.order|
  {
    if k + 1 < |f.order| && f.Touches(k) then Absorb(f, k) else f
  }

  lemma MergeKeeps(f: List, k: nat, g: List)
    requires Chained(f) && k < |f.order| && g == MergeAt(f, k) && ApartAbove(f, k)
    ensures Chained(g) && k < |g.order| && g.order[..k + 1] == f.order[..k + 1]
    ensures k + 1 < |g.order| ==> !g.Touches(k)
    ensures ApartAbove(g, k)
    ensures forall j :: 0 <= j <= k && ApartBelow(f, j) ==> ApartBelow(g, j)
  {
    if k + 1 < |f.order| && f.Touches(k) {
      assert k != 0 by { Increasing(f, 0, 1); }
      AbsorbPlaces(f, k, g);
      AbsorbCircular(f, k, g);
      AbsorbSorted(f, k, g);
      forall i | 0 <= i < |g.order| - 1 ensures g.Touches(i) <==> f.Touches(if i < k then i else i + 1) {
        AbsorbTouches(f, k, g, i);
      }
    }
  }

  lemma MergeHolds(f: List, k: nat, g: List, x: int)
    requires Chained(f) && k < |f.order| && g == MergeAt(f, k) && Chained(g)
    ensures g.Holds(x) <==> f.Holds(x)
  {
    if k + 1 < |f.order| && f.Touches(k) {
      AbsorbHolds(f, k, g, x);
    }
  }

  lemma LinkKeeps(f: List, k: nat, b: Addr, n: nat, g: List)
    requires f.Ok() && Fits(f, k, b, n) && g == Link(f, k, b, n)
    ensures Chained(g) && k + 1 < |g.order| && g.order[..k + 1] == f.order[..k + 1]
    ensures ApartBelow(g, k) && ApartAbove(g, k + 1)
  {
    LinkPlaces(f, k, b, n, g);
    LinkCircular(f, k, b, n, g);
    LinkSorted(f, k, b, n, g);
    forall i | 0 <= i < |g.order| - 1 && i != k && i != k + 1 ensures !g.Touches(i) {
      LinkTouches(f, k, b, n, g, i);
    }
  }

  /** What free makes of the list: the block goes in after block k, and touching
      blocks merge. */
  ghost function Release(f: List, k: nat, b: Addr, n: nat): List
    requires f.Ok() && Fits(f, k, b, n)
  {
    var g := Link(f, k, b, n);
    LinkKeeps(f, k, b, n, g);
    var h := MergeAt(g, k + 1);
    MergeKeeps(g, k + 1, h);
    MergeAt(h, k)
  }

  /** Releasing a block keeps the list circular, in address order, disjoint and
      without adjacent blocks, and adds exactly the block's bytes. */
  lemma ReleaseKeeps(f: List, k: nat, b: Addr, n: nat, r: List)
    requires f.Ok() && Fits(f, k, b, n) && r == Release(f, k, b, n)
    ensures r.Ok() && k < |r.order| && r.order[..k + 1] == f.order[..k + 1]
    ensures forall x :: r.Holds(x) <==> f.Holds(x) || b <= x < b + HEADER * n
  {
    hide List.Points, List.Before, List.Holds, List.Covers, List.Sorted, Link, MergeAt, List.Touches;
    var g := Link(f, k, b, n);
    LinkKeeps(f, k, b, n, g);
    var h := MergeAt(g, k + 1);
    MergeKeeps(g, k + 1, h);
    assert h.order[..k + 1] == g.order[..k + 1];
    MergeKeeps(h, k, r);
    forall x ensures r.Holds(x) <==> f.Holds(x) || b <= x < b + HEADER * n {
      LinkHolds(f, k, b, n, g, x);
      MergeHolds(g, k + 1, h, x);
      MergeHolds(h, k, r, x);
    }
  }
}
