/** malloc, free and morecore (user/umalloc.c) over the free list of FreeList. */
module Umalloc {
  import opened Basics
  import opened FreeList

  const INT_LIMIT := 0x8000_0000

  /** Block b after the greatest block of the list below it. */
  ghost predicate Slot(f: List, k: nat, b: Addr) {
    k < |f.order| && f.order[k] < b && (k + 1 < |f.order| ==> b < f.order[k + 1])
  }

  lemma SlotExists(f: List, b: Addr) returns (k: nat)
    requires Chained(f) && f.order[0] < b && b !in f.order
    ensures Slot(f, k, b)
  {
    k := 0;
    while k + 1 < |f.order| && f.order[k + 1] < b
      invariant k < |f.order| && f.order[k] < b
    {
      k := k + 1;
    }
  }

  /** No byte of an allocated block is on the free list. */
  ghost predicate Apart(f: List, used: map<Addr, nat>)
    requires f.Present()
  {
    forall a, x :: a in used && a <= x < a + HEADER * used[a] ==> !f.Holds(x)
  }

  /** Allocated blocks are disjoint, above the base, and their headers hold their
      sizes. */
  ghost predicate Separate(base: Addr, size: map<Addr, nat>, used: map<Addr, nat>) {
    && (forall a :: a in used ==> used[a] > 0 && base + HEADER <= a && a in size && size[a] == used[a])
    && (forall a, b :: a in used && b in used && a < b ==> a + HEADER * used[a] <= b)
  }

  /** Every block ends at or below brk. */
  ghost predicate Within(f: List, used: map<Addr, nat>, base: Addr, brk: Addr)
    requires f.Present()
  {
    && base + HEADER <= brk
    && (forall x :: f.Holds(x) ==> x < brk)
    && (forall a :: a in used ==> a + HEADER * used[a] <= brk)
  }

  lemma WithinTaken(f: List, used: map<Addr, nat>, base: Addr, brk: Addr, b: Addr, n: nat, g: List)
    requires f.Present() && g.Present() && n > 0 && b !in used
    requires forall x :: b <= x < b + HEADER * n ==> f.Holds(x)
    requires forall x :: g.Holds(x) <==> f.Holds(x) && !(b <= x < b + HEADER * n)
    ensures Within(f, used, base, brk) <==> Within(g, used[b := n], base, brk)
  {
    hide List.Holds;
    if Within(f, used, base, brk) {
      assert f.Holds(b + HEADER * n - 1);
    }
    if Within(g, used[b := n], base, brk) {
      assert b in used[b := n];
      forall x | f.Holds(x) ensures x < brk {
        assert g.Holds(x) || b <= x < b + HEADER * n;
      }
      forall a | a in used ensures a + HEADER * used[a] <= brk {
        assert a in used[b := n];
      }
    }
  }

  lemma ClearOf(f: List, lo: int, hi: int)
    requires f.Sorted() && f.order[0] <= lo && forall x :: lo <= x < hi ==> !f.Holds(x)
    requires lo < hi
    ensures f.Clear(lo, hi)
  {
    forall i | 0 <= i < |f.order| ensures f.End(i) <= lo || hi <= f.order[i] {
      if i > 0 {
        var x := if lo < f.order[i] then f.order[i] else lo;
        if lo <= x < hi {
          assert !f.Holds(x);
          assert !f.Covers(i, x);
        }
      }
    }
  }

  class Heap {
    const base: Addr
    var ptr: map<Addr, Addr>
    var size: map<Addr, nat>
    var freep: Addr              // 0 until the first malloc
    var brk: Addr                // the process size, moved by sbrk
    ghost var order: seq<Addr>
    ghost var used: map<Addr, nat>

    ghost function Blocks(): List
      reads this
    {
      List(order, ptr, size)
    }

    /** The free list is circular, in address order, with disjoint blocks no two of
        which touch, and disjoint from the allocated blocks. */
    ghost predicate Listed()
      reads this
    {
      && base > 0 && Blocks().Ok() && order[0] == base && freep in order && freep != 0
      && Separate(base, size, used) && Apart(Blocks(), used)
    }

    /** Every block lies in memory that sbrk has granted. */
    ghost predicate Backed()
      reads this
    {
      Blocks().Present() && Within(Blocks(), used, base, brk)
    }

    ghost predicate Valid()
      reads this
    {
      && base > 0 && Backed()
      && (if freep == 0 then order == [] && used == map[] else Listed())
    }

    /** Static data: base is zero-initialised and below the break. */
    constructor (base: Addr, brk: Addr)
      requires 0 < base && base + HEADER <= brk
      ensures Valid() && this.base == base && this.brk == brk && used == map[]
    {
      this.base, this.brk := base, brk;
      ptr, size, freep := map[], map[], 0;
      order, used := [], map[];
    }

    /** The search of free: it ends, at the block after which b belongs. */
    method Search(b: Addr) returns (p: Addr, ghost k: nat)
      requires Chained(Blocks()) && freep in order && order[0] < b && b !in order
      ensures Slot(Blocks(), k, b) && p == order[k]
      ensures p in ptr && p < b && (b < ptr[p] || ptr[p] == order[0])
    {
      ghost var f := Blocks();
      ghost var n := |order|;
      ghost var goal := SlotExists(f, b);
      p := freep;
      ghost var i :| 0 <= i < n && order[i] == freep;
      while !(b > p && b < ptr[p])
        invariant 0 <= i < n && p == order[i] && p in ptr
        invariant f.Points(i)
        decreases if i <= goal then goal - i else goal - i + n
      {
        if p >= ptr[p] && (b > p || b < ptr[p]) {
          break;
        }
        p := ptr[p];
        i := Next(n, i);
        assert f.Points(i);
      }
      if i + 1 < n {
        Increasing(f, i, i + 1);
      }
      k := i;
    }

    /** The first half of free's relinking: b takes over the next block if they
        touch. */
    method JoinNext(b: Addr, p: Addr, ghost k: nat, ghost g: List)
      requires Blocks().Ok() && b in size && Fits(Blocks(), k, b, size[b]) && p == order[k]
      requires g == Link(Blocks(), k, b, size[b]) && Chained(g) && k + 1 < |g.order|
      modifies `ptr, `size
      ensures size == MergeAt(g, k + 1).size && ptr[p := b] == MergeAt(g, k + 1).ptr && b in ptr
    {
      NextTouches(Blocks(), k, b, size[b], g);
      if b + HEADER * size[b] == ptr[p] {
        size := size[b := size[b] + size[ptr[p]]];
        ptr := ptr[b := ptr[ptr[p]]];
      } else {
        ptr := ptr[b := ptr[p]];
      }
    }

    /** The second half: the block at p takes over b if they touch. */
    method JoinPrevious(b: Addr, p: Addr, ghost k: nat, ghost h: List)
      requires Chained(h) && k + 1 < |h.order| && p == h.order[k] && b == h.order[k + 1]
      requires size == h.size && ptr[p := b] == h.ptr && b in ptr
      modifies `ptr, `size, `freep
      ensures size == MergeAt(h, k).size && ptr == MergeAt(h, k).ptr && freep == p
    {
      Increasing(h, k, k + 1);
      if p + HEADER * size[p] == b {
        size := size[p := size[p] + size[b]];
        ptr := ptr[p := ptr[b]];
      } else {
        ptr := ptr[p := b];
      }
      freep := p;
    }

    /** Put b on the list after block k, which is at p. */
    method Relink(b: Addr, p: Addr, ghost k: nat)
      requires Blocks().Ok() && b in size && Fits(Blocks(), k, b, size[b]) && p == order[k]
      modifies `ptr, `size, `freep, `order
      ensures Blocks() == Release(old(Blocks()), k, b, old(size[b])) && freep == p
    {
      hide List.Ok, List.Circular, List.Sorted, Link, MergeAt, List.Holds, List.Touches;
      ghost var f := Blocks();
      ghost var g, h := Halfway(f, k, b, size[b]);
      JoinNext(b, p, k, g);
      JoinPrevious(b, p, k, h);
      order := MergeAt(h, k).order;
    }

    /** Give back the block that malloc returned as ap. */
    method Free(ap: Addr)
      requires Listed() && ap >= HEADER && ap - HEADER in used
      modifies `ptr, `size, `freep, `order, `used
      ensures Listed() && used == old(used) - {ap - HEADER}
      ensures forall x :: Blocks().Holds(x) <==>
        old(Blocks().Holds(x)) || ap - HEADER <= x < ap - HEADER + HEADER * old(used[ap - HEADER])
      ensures Roomy(Blocks(), freep, old(used[ap - HEADER]))
      ensures old(Backed()) ==> Backed()
    {
      hide List.Holds, List.Touches, Release, Fits, Apart, Roomy;
      var b := ap - HEADER;
      ghost var f := Blocks();
      NotOnList(f, used, b, size[b]);
      var p: Addr;
      ghost var k: nat;
      p, k := Search(b);
      FitsFreed(f, k, base, used, b);
      ghost var r := FreedApart(f, k, base, used, b);
      Relink(b, p, k);
      used := used - {b};
      assert order[k] == freep;
    }

    /** sbrk: n is a C int; grant says whether the kernel finds the pages. */
    method Sbrk(n: int, grant: bool) returns (r: Option<Addr>)
      modifies `brk
      ensures r.None? <==> n > 0 && !grant
      ensures r.None? ==> brk == old(brk)
      ensures r.Some? ==> r.value == old(brk) && brk == if old(brk) + n >= 0 then old(brk) + n else old(brk)
    {
      if n > 0 && !grant {
        return None;
      }
      r := Some(brk);
      if brk + n >= 0 {
        brk := brk + n;
      }
    }

    /** Ask for at least nu units and put them on the list. The list stays as it must
        whatever nu is; the new block lies in granted memory exactly when its length
        is a C int. */
    method Morecore(nu: nat, grant: bool) returns (r: Option<Addr>)
      requires Listed() && Backed()
      modifies this
      ensures Listed() && used == old(used)
      ensures r.None? ==> !grant && unchanged(this)
      ensures r.Some? ==> r.value == freep && Roomy(Blocks(), freep, nu)
      ensures r.Some? ==>
        forall x :: Blocks().Holds(x) <==> old(Blocks().Holds(x)) || old(brk) <= x < old(brk) + HEADER * Units(nu)
      ensures r.Some? ==> (Backed() <==> HEADER * Units(nu) < INT_LIMIT)
    {
      hide Apart, Separate, List.Holds, List.Touches, List.Points, List.Before;
      var n := Units(nu);
      ghost var f := Blocks();
      FreshBlock(f, base, used, brk, n);
      var p := Sbrk(ToInt(HEADER * n), grant);
      if p.None? {
        return None;
      }
      var hp := p.value;
      size := size[hp := n];
      used := used[hp := n];
      Free(hp + HEADER);
      r := Some(freep);
      assert used == old(used);
      assert Blocks().Holds(hp + HEADER * n - 1);
    }

    /** Take nunits off the block at p, which follows prevp: all of it, or its tail. */
    method Take(prevp: Addr, p: Addr, nunits: nat, ghost k: nat) returns (b: Addr)
      requires Listed() && k + 1 < |order| && order[k] == prevp && order[k + 1] == p && 0 < nunits <= size[p]
      modifies `ptr, `size, `freep, `order, `used
      ensures Listed() && b !in old(used) && used == old(used)[b := nunits]
      ensures b == p + HEADER * (old(size)[p] - nunits)
      ensures forall x :: b <= x < b + HEADER * nunits ==> old(Blocks().Holds(x))
      ensures forall x :: Blocks().Holds(x) <==> old(Blocks().Holds(x)) && !(b <= x < b + HEADER * nunits)
      ensures Backed() <==> old(Backed())
    {
      hide List.Holds, List.Touches, List.Points, List.Before, Apart, Separate, Within;
      ghost var f := Blocks();
      assert Listed();
      if size[p] == nunits {
        TakeWhole(f, base, used, k);
        b := p;
        ptr := ptr[prevp := ptr[p]];
        order := order[..k + 1] + order[k + 2..];
        assert order[k] == prevp;
      } else {
        TakeTail(f, base, used, k + 1, nunits);
        size := size[p := size[p] - nunits];
        b := p + HEADER * size[p];
        size := size[b := nunits];
      }
      WithinTaken(f, used, base, brk, b, nunits, Blocks());
      used := used[b := nunits];
      freep := prevp;
      assert order[k] == freep;
    }

    /** The first malloc makes the base a list of its own. */
    method Start()
      requires Valid()
      modifies `ptr, `size, `freep, `order
      ensures Listed() && Backed()
      ensures forall x :: Blocks().Holds(x) <==> old(Blocks().Holds(x))
      ensures old(freep) != 0 ==> unchanged(this)
    {
      if freep == 0 {
        ptr := ptr[base := base];
        freep := base;
        size := size[base := 0];
        order := [base];
      }
    }

    /** Allocate nbytes; grant is sbrk's answer, should it be asked. The block given is
        fresh, large enough, and cut from free memory; every other byte stays as it
        was. sbrk is asked at most once, and only if no free block is large enough;
        only then can the answer be no. */
    method Malloc(nbytes: nat, grant: bool) returns (r: Option<Addr>, ghost asked: bool)
      requires Valid() && nbytes < 0x1_0000_0000
      modifies this
      ensures Listed()
      ensures asked ==> old(NoFit(Blocks(), UnitsFor(nbytes)))
      ensures r.Some? && !asked && old(freep) != 0 ==>
        old(FirstFit(Blocks(), freep, UnitsFor(nbytes), r.value - HEADER))
      ensures r.None? ==> asked && !grant && used == old(used) && Backed()
      ensures r.None? ==> forall x :: Blocks().Holds(x) <==> old(Blocks().Holds(x))
      ensures r.Some? ==>
        && r.value >= HEADER && r.value - HEADER !in old(used)
        && used == old(used)[r.value - HEADER := UnitsFor(nbytes)]
        && r.value + nbytes <= r.value - HEADER + HEADER * UnitsFor(nbytes)
      ensures r.Some? ==> forall x :: Blocks().Holds(x) <==>
        && (old(Blocks().Holds(x)) || (asked && old(brk) <= x < old(brk) + HEADER * Units(UnitsFor(nbytes))))
        && !(r.value - HEADER <= x < r.value - HEADER + HEADER * UnitsFor(nbytes))
      ensures r.Some? ==> (Backed() <==> (asked ==> HEADER * Units(UnitsFor(nbytes)) < INT_LIMIT))
    {
      hide List.Ok, List.Holds, Apart, Separate, Looking, FirstFit, Roomy, List.Sorted, List.Points;
      var nunits := (nbytes + HEADER - 1) / HEADER + 1;
      assert old(NoFit(Blocks(), nunits)) || old(freep) != 0;
      Start();
      asked := false;
      var prevp := freep;
      Listing();
      var p := ptr[prevp];
      ghost var s := 0;
      LookFirst(Blocks(), freep, nunits);
      while true
        invariant Listed() && used == old(used) && Chained(Blocks())
        invariant Looking(Blocks(), freep, s, prevp, p, nunits)
        invariant asked ==> Roomy(Blocks(), freep, nunits) && old(NoFit(Blocks(), nunits))
        invariant !asked ==> brk == old(brk)
        invariant !asked && old(freep) != 0 ==> Blocks() == old(Blocks()) && freep == old(freep)
        invariant !asked && NoFit(Blocks(), nunits) ==> old(NoFit(Blocks(), nunits))
        invariant forall x :: Blocks().Holds(x) <==>
          old(Blocks().Holds(x)) || (asked && old(brk) <= x < old(brk) + HEADER * Units(nunits))
        invariant Backed() <==> (asked ==> HEADER * Units(nunits) < INT_LIMIT)
        decreases !asked, |order| - s
      {
        Listing();
        LookAt(Blocks(), freep, s, prevp, p, nunits);
        if size[p] >= nunits {
          LookFits(Blocks(), freep, s, prevp, p, nunits);
          ghost var k := LookTake(Blocks(), freep, s, prevp, p, nunits);
          var b := Take(prevp, p, nunits, k);
          return Some(b + HEADER), asked;
        }
        if p == freep {
          LookLast(Blocks(), freep, s, prevp, p, nunits);
          var core := Morecore(nunits, grant);
          asked := true;
          if core.None? {
            return None, true;
          }
          p := core.value;
          s := 0;
          Listing();
          LookFirst(Blocks(), freep, nunits);
        } else {
          LookNext(Blocks(), freep, s, prevp, p, nunits);
          s := s + 1;
        }
        prevp := p;
        p := ptr[p];
      }
    }

    lemma Listing()
      requires Listed()
      ensures Chained(Blocks()) && freep in order && freep in ptr && order[0] == base && base > 0
    {
      var i :| 0 <= i < |order| && order[i] == freep;
      assert Blocks().Points(i);
    }
  }

  /** Header units for nbytes of payload. */
  function UnitsFor(nbytes: nat): nat {
    (nbytes + HEADER - 1) / HEADER + 1
  }

  /** No free block has n units. */
  ghost predicate NoFit(f: List, n: nat) {
    forall i :: 0 <= i < |f.order| && f.order[i] in f.size ==> f.size[f.order[i]] < n
  }

  /** The blocks in the order in which malloc visits them when freep is block i. */
  ghost function Ring(f: List, i: nat): seq<Addr>
    requires i < |f.order|
  {
    f.order[i + 1..] + f.order[..i + 1]
  }

  /** malloc looks at block p, the s-th after freep; those before it are too small. */
  ghost predicate Looking(f: List, freep: Addr, s: nat, prevp: Addr, p: Addr, n: nat)
    requires f.Present()
  {
    exists i :: 0 <= i < |f.order| && f.order[i] == freep && s < |f.order| && Visit(f, i, s, prevp, p, n)
  }

  ghost predicate Visit(f: List, i: nat, s: nat, prevp: Addr, p: Addr, n: nat)
    requires f.Present() && i < |f.order| && s < |f.order|
  {
    && p == Ring(f, i)[s]
    && prevp == (if s == 0 then f.order[i] else Ring(f, i)[s - 1])
    && forall t :: 0 <= t < s ==> f.size[Ring(f, i)[t]] < n
  }

  /** b is the tail of n units of the first block after freep that has them. */
  ghost predicate FirstFit(f: List, freep: Addr, n: nat, b: int) {
    && f.Present()
    && exists s: nat, prevp: Addr, p: Addr ::
         && Looking(f, freep, s, prevp, p, n)
         && p in f.size && f.size[p] >= n && b == p + HEADER * (f.size[p] - n)
  }

  lemma LookFits(f: List, freep: Addr, s: nat, prevp: Addr, p: Addr, n: nat)
    requires Chained(f) && Looking(f, freep, s, prevp, p, n) && p in f.size && f.size[p] >= n
    ensures FirstFit(f, freep, n, p + HEADER * (f.size[p] - n))
  {
  }

  lemma LookFirst(f: List, freep: Addr, n: nat)
    requires Chained(f) && freep in f.order
    ensures freep in f.ptr && Looking(f, freep, 0, freep, f.ptr[freep], n)
  {
    var i :| 0 <= i < |f.order| && f.order[i] == freep;
    assert f.Points(i);
    assert Visit(f, i, 0, freep, f.ptr[freep], n);
  }

  lemma LookAt(f: List, freep: Addr, s: nat, prevp: Addr, p: Addr, n: nat)
    requires Chained(f) && Looking(f, freep, s, prevp, p, n)
    ensures p in f.order && prevp in f.order && p in f.ptr && p in f.size && s < |f.order|
  {
    var i :| 0 <= i < |f.order| && f.order[i] == freep && Visit(f, i, s, prevp, p, n);
    assert p in Ring(f, i) && prevp in f.order[i..i + 1] + Ring(f, i);
  }

  /** Block s of the ring, by its place on the list. */
  lemma RingPlace(f: List, i: nat, s: nat) returns (j: nat)
    requires Chained(f) && i < |f.order| && s < |f.order|
    ensures j < |f.order| && Ring(f, i)[s] == f.order[j]
        && j == if i + 1 + s < |f.order| then i + 1 + s else i + 1 + s - |f.order|
    ensures f.ptr[f.order[j]] == if s + 1 < |f.order| then Ring(f, i)[s + 1] else Ring(f, i)[0]
  {
    j := if i + 1 + s < |f.order| then i + 1 + s else i + 1 + s - |f.order|;
    assert f.Points(j);
  }

  lemma OnePlaceEach(f: List, i: nat, j: nat)
    requires f.Sorted() && i < |f.order| && j < |f.order| && f.order[i] == f.order[j]
    ensures i == j
  {
    if i < j {
      Increasing(f, i, j);
    } else if j < i {
      Increasing(f, j, i);
    }
  }

  lemma LookNext(f: List, freep: Addr, s: nat, prevp: Addr, p: Addr, n: nat)
    requires Chained(f) && Looking(f, freep, s, prevp, p, n) && p in f.size && f.size[p] < n && p != freep
    ensures p in f.ptr && s + 1 < |f.order| && Looking(f, freep, s + 1, p, f.ptr[p], n)
  {
    var i :| 0 <= i < |f.order| && f.order[i] == freep && Visit(f, i, s, prevp, p, n);
    var j := RingPlace(f, i, s);
    assert s + 1 < |f.order|;
    assert Visit(f, i, s + 1, p, f.ptr[p], n);
  }

  lemma RingIndex(f: List, i: nat, j: nat) returns (t: nat)
    requires i < |f.order| && j < |f.order|
    ensures t < |f.order| && Ring(f, i)[t] == f.order[j] && (j != i ==> t < |f.order| - 1)
  {
    t := if j > i then j - i - 1 else |f.order| - 1 - i + j;
  }

  lemma AllSmall(f: List, i: nat, s: nat, prevp: Addr, p: Addr, n: nat)
    requires Chained(f) && i < |f.order| && s < |f.order| && Visit(f, i, s, prevp, p, n) && f.order[i] == p
    requires f.size[p] < n
    ensures NoFit(f, n)
  {
    var at := RingPlace(f, i, s);
    OnePlaceEach(f, i, at);
    forall j | 0 <= j < |f.order| ensures f.size[f.order[j]] < n {
      if j != i {
        var t := RingIndex(f, i, j);
      }
    }
  }

  lemma LookLast(f: List, freep: Addr, s: nat, prevp: Addr, p: Addr, n: nat)
    requires Chained(f) && Looking(f, freep, s, prevp, p, n) && p in f.size && f.size[p] < n && p == freep
    ensures NoFit(f, n) && !Roomy(f, freep, n)
  {
    hide Visit;
    var i :| 0 <= i < |f.order| && f.order[i] == freep && Visit(f, i, s, prevp, p, n);
    AllSmall(f, i, s, prevp, p, n);
    assert f.Points(i);
  }

  lemma LookTake(f: List, freep: Addr, s: nat, prevp: Addr, p: Addr, n: nat) returns (k: nat)
    requires Chained(f) && Looking(f, freep, s, prevp, p, n) && p in f.size && f.size[p] >= n > 0
    ensures k + 1 < |f.order| && f.order[k] == prevp && f.order[k + 1] == p
  {
    hide List.Circular, List.Points, List.Before, Ring;
    var i :| 0 <= i < |f.order| && f.order[i] == freep && Visit(f, i, s, prevp, p, n);
    var j := RingPlace(f, i, s);
    assert j > 0;
    k := j - 1;
    if s > 0 {
      var j' := RingPlace(f, i, s - 1);
      assert j' == k;
    } else {
      assert i == k;
    }
  }

  /** A block cut from the list is apart from the allocated ones. */
  lemma TakenApart(f: List, base: Addr, used: map<Addr, nat>, b: Addr, n: nat, g: List)
    requires f.Ok() && g.Ok() && Separate(base, f.size, used) && Apart(f, used) && n > 0 && base + HEADER <= b
    requires forall x :: b <= x < b + HEADER * n ==> f.Holds(x)
    requires forall x :: g.Holds(x) <==> f.Holds(x) && !(b <= x < b + HEADER * n)
    requires b in g.size && g.size[b] == n
    requires forall a :: a in used ==> a in g.size && (a != b ==> g.size[a] == f.size[a])
    ensures b !in used && Separate(base, g.size, used[b := n]) && Apart(g, used[b := n])
  {
    forall a: Addr | a in used ensures a + HEADER * used[a] <= b || b + HEADER * n <= a {
      var x := if a < b then b else a;
      assert b <= x < b + HEADER * n ==> f.Holds(x);
    }
  }

  lemma TakeWhole(f: List, base: Addr, used: map<Addr, nat>, k: nat)
    requires f.Ok() && f.order[0] == base && Separate(base, f.size, used) && Apart(f, used) && k + 1 < |f.order|
    ensures var g := Unlink(f, k); var b := f.order[k + 1]; var n := f.size[b];
      && g.Ok() && k < |g.order| && g.order[k] == f.order[k] && g.order[0] == base
      && b !in used && Separate(base, g.size, used[b := n]) && Apart(g, used[b := n])
      && (forall x :: b <= x < b + HEADER * n ==> f.Holds(x))
      && forall x :: g.Holds(x) <==> f.Holds(x) && !(b <= x < b + HEADER * n)
  {
    var g, b: Addr := Unlink(f, k), f.order[k + 1];
    UnlinkKeeps(f, k, g);
    forall x ensures g.Holds(x) <==> f.Holds(x) && !f.Covers(k + 1, x) {
      UnlinkHolds(f, k, g, x);
    }
    forall x | b <= x < b + HEADER * f.size[b] ensures f.Holds(x) {
      assert f.Covers(k + 1, x);
    }
    TakenApart(f, base, used, b, f.size[b], g);
  }

  /** The tail of n units cut off block k starts no block of the list. */
  lemma TailCut(f: List, k: nat, n: nat, b: Addr)
    requires f.Ok() && 1 <= k < |f.order| && 0 < n < f.size[f.order[k]]
    requires b == f.order[k] + HEADER * (f.size[f.order[k]] - n)
    ensures b !in f.order && forall x :: b <= x < b + HEADER * n ==> f.Holds(x)
  {
    hide List.Points, List.Touches, List.Before;
    if i :| 0 <= i < |f.order| && f.order[i] == b {
      assert f.Covers(i, b) && f.Covers(k, b);
      OneCover(f, i, k, b);
    }
    forall x | b <= x < b + HEADER * n ensures f.Holds(x) {
      assert f.Covers(k, x);
    }
  }

  lemma TakeTail(f: List, base: Addr, used: map<Addr, nat>, k: nat, n: nat)
    requires f.Ok() && f.order[0] == base && Separate(base, f.size, used) && Apart(f, used)
    requires 1 <= k < |f.order| && 0 < n < f.size[f.order[k]]
    ensures var h := Shrink(f, k, n); var b := f.order[k] + HEADER * (f.size[f.order[k]] - n);
      var g := h.(size := h.size[b := n]);
      && g.Ok() && g.order == f.order
      && b !in used && Separate(base, g.size, used[b := n]) && Apart(g, used[b := n])
      && (forall x :: b <= x < b + HEADER * n ==> f.Holds(x))
      && forall x :: g.Holds(x) <==> f.Holds(x) && !(b <= x < b + HEADER * n)
  {
    hide List.Points, List.Touches, List.Before, List.Covers;
    var p: Addr := f.order[k];
    var h, b: Addr := Shrink(f, k, n), p + HEADER * (f.size[p] - n);
    var g := h.(size := h.size[b := n]);
    ShrinkKeeps(f, k, n, h);
    forall x ensures h.Holds(x) <==> f.Holds(x) && !(b <= x < b + HEADER * n) {
      ShrinkHolds(f, k, n, h, x);
    }
    TailCut(f, k, n, b);
    OffList(h, b, n, g);
    NotOnListAt(f, used, p);
    TakenApart(f, base, used, b, n, g);
  }

  lemma NotOnListAt(f: List, used: map<Addr, nat>, p: Addr)
    requires f.Sorted() && Apart(f, used) && p in f.order && p != f.order[0]
    requires forall a :: a in used ==> used[a] > 0
    ensures p !in used
  {
    if p in used {
      var i :| 0 <= i < |f.order| && f.order[i] == p;
      assert f.Covers(i, p);
      assert f.Holds(p);
    }
  }

  /** morecore asks for at least 4096 units. */
  function Units(nu: nat): nat {
    if nu < 4096 then 4096 else nu
  }

  /** Conversion of a non-negative value to a C int. */
  function ToInt(x: nat): (r: int)
    ensures -INT_LIMIT <= r < INT_LIMIT && (r == x <==> x < INT_LIMIT) && r <= x
  {
    var y := x % 0x1_0000_0000;
    if y < INT_LIMIT then y else y - 0x1_0000_0000
  }

  /** Headers off the list do not matter to it. */
  lemma OffList(f: List, h: Addr, n: nat, g: List)
    requires f.Ok() && h !in f.order && g == f.(size := f.size[h := n])
    ensures g.Ok() && forall x :: g.Holds(x) <==> f.Holds(x)
  {
    forall i | 0 <= i < |g.order| ensures g.Points(i) {
      assert f.Points(i);
    }
    forall i, j | 0 <= i < j < |g.order| ensures g.Before(i, j) {
      assert f.Before(i, j);
    }
    forall i | 0 <= i < |g.order| - 1 ensures !g.Touches(i) {
      assert !f.Touches(i);
    }
    forall x ensures g.Holds(x) <==> f.Holds(x) {
      if i :| 0 <= i < |f.order| && f.Covers(i, x) {
        assert g.Covers(i, x);
      }
      if i :| 0 <= i < |g.order| && g.Covers(i, x) {
        assert f.Covers(i, x);
      }
    }
  }

  /** A block that starts at the break is apart from all others. */
  lemma FreshBlock(f: List, base: Addr, used: map<Addr, nat>, brk: Addr, n: nat)
    requires f.Ok() && f.order[0] == base && base + HEADER <= brk && n > 0
    requires Separate(base, f.size, used) && Apart(f, used)
    requires forall x :: f.Holds(x) ==> x < brk
    requires forall a :: a in used ==> a + HEADER * used[a] <= brk
    ensures brk !in used && brk !in f.order
    ensures var g := f.(size := f.size[brk := n]); var v := used[brk := n];
      g.Ok() && Separate(base, g.size, v) && Apart(g, v) && forall x :: g.Holds(x) <==> f.Holds(x)
  {
    if i :| 0 <= i < |f.order| && f.order[i] == brk {
      assert f.Covers(i, brk);
      assert f.Holds(brk);
    }
    OffList(f, brk, n, f.(size := f.size[brk := n]));
  }

  /** Block p, or the one after it, has at least n units. */
  ghost predicate Roomy(f: List, p: Addr, n: nat) {
    && p in f.ptr && f.ptr[p] in f.size && p in f.size
    && (f.size[p] >= n || f.size[f.ptr[p]] >= n)
  }

  lemma NotOnList(f: List, used: map<Addr, nat>, b: Addr, n: nat)
    requires f.Sorted() && Apart(f, used) && b in used && used[b] == n > 0 && f.order[0] < b
    ensures b !in f.order
  {
    if i :| 0 <= i < |f.order| && f.order[i] == b {
      assert f.Covers(i, b);
      assert f.Holds(b);
    }
  }

  lemma FitsFreed(f: List, k: nat, base: Addr, used: map<Addr, nat>, b: Addr)
    requires f.Ok() && Slot(f, k, b) && f.order[0] == base
    requires Separate(base, f.size, used) && Apart(f, used) && b in used
    ensures Fits(f, k, b, used[b])
  {
    ClearOf(f, b, b + HEADER * used[b]);
  }

  lemma FreedApart(f: List, k: nat, base: Addr, used: map<Addr, nat>, b: Addr) returns (r: List)
    requires f.Ok() && f.order[0] == base && Separate(base, f.size, used) && Apart(f, used) && b in used
    requires Fits(f, k, b, used[b])
    ensures r == Release(f, k, b, used[b]) && r.Ok() && k < |r.order| && r.order[k] == f.order[k] && r.order[0] == base
    ensures Separate(base, r.size, used - {b}) && Apart(r, used - {b})
    ensures Roomy(r, r.order[k], used[b])
    ensures forall x :: r.Holds(x) <==> f.Holds(x) || b <= x < b + HEADER * used[b]
  {
    r := Release(f, k, b, used[b]);
    ReleaseKeeps(f, k, b, used[b], r);
    assert r.order[k] == r.order[..k + 1][k] && r.order[0] == r.order[..k + 1][0];
    ReleaseSizes(f, k, b, used[b], r);
    forall a | a in used && a != b ensures a in r.size && r.size[a] == used[a] {
      NotOnList(f, used, a, used[a]);
    }
  }

  /** The list between the two halves of free's relinking. */
  lemma Halfway(f: List, k: nat, b: Addr, n: nat) returns (g: List, h: List)
    requires f.Ok() && Fits(f, k, b, n)
    ensures g == Link(f, k, b, n) && Chained(g) && k + 1 < |g.order|
    ensures h == MergeAt(g, k + 1) && Chained(h) && k + 1 < |h.order| && h.order[k] == f.order[k] && h.order[k + 1] == b
    ensures Release(f, k, b, n) == MergeAt(h, k)
  {
    g := Link(f, k, b, n);
    LinkKeeps(f, k, b, n, g);
    LinkPlaces(f, k, b, n, g);
    h := MergeAt(g, k + 1);
    MergeKeeps(g, k + 1, h);
    assert h.order[k] == h.order[..k + 2][k] && h.order[k + 1] == h.order[..k + 2][k + 1];
  }

  lemma ReleaseSizes(f: List, k: nat, b: Addr, n: nat, r: List)
    requires f.Ok() && Fits(f, k, b, n) && r == Release(f, k, b, n)
    ensures forall a :: a in f.size && a != b && a != f.order[k] ==> a in r.size && r.size[a] == f.size[a]
    ensures Roomy(r, f.order[k], n)
  {
    hide Release, List.Sorted, List.Holds, Fits;
    var g, h := Halfway(f, k, b, n);
    assert h.size[b] >= n;
    assert h.Points(k) && h.Points(k + 1);
  }

  lemma NextTouches(f: List, k: nat, b: Addr, n: nat, g: List)
    requires f.Ok() && Fits(f, k, b, n) && g == Link(f, k, b, n) && Chained(g)
    ensures var p := f.order[k]; var q := f.ptr[p];
      && q in f.ptr && q in f.size && q != b && p != b && (k + 1 < |f.order| ==> q != p)
      && (b + HEADER * n == q <==> k + 2 < |g.order| && g.Touches(k + 1))
      && (k + 2 < |g.order| ==> g.order[k + 2] == q && g.ptr[q] == f.ptr[q] && g.size[q] == f.size[q])
      && g.order[k + 1] == b
  {
    LinkPlaces(f, k, b, n, g);
    assert f.Points(k);
    if k + 1 < |f.order| {
      Increasing(f, k, k + 1);
    }
  }
}
