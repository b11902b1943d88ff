/** Physical frames and who holds them (kernel/kalloc.c, kernel/vm.c): the free
    list, page-table pages, user pages, and the flat map from virtual pages to
    leaf entries that the page tables refine. */
module VmMemory {
  import opened Basics
  import opened VmTree

  type Page = p: seq<Byte> | |p| == PGSIZE witness seq(PGSIZE, _ => 0)

  function ZeroPage(): Page { seq(PGSIZE, _ => 0) }

  /** A virtual page of the address space with the given root table. */
  datatype Vpage = Vpage(root: nat, vpn: nat)

  type Flat = map<Vpage, Pte>

  function Elems(s: seq<nat>): set<nat> {
    set x | x in s
  }

  /** Every frame is in exactly one place, and on the free list at most once. */
  ghost predicate Conserved(frames: set<nat>, free: seq<nat>, tables: set<nat>, data: set<nat>, loose: set<nat>) {
    && Distinct(free)
    && Elems(free) + tables + data + loose == frames
    && Elems(free) !! tables && Elems(free) !! data && Elems(free) !! loose
    && tables !! data && tables !! loose && data !! loose
    && 0 !in frames
  }

  /** The page tables stand for the flat map. */
  ghost predicate Refines(t: Trees, flat: Flat)
    requires TreesOk(t)
  {
    && (forall k :: k in flat ==> IsRoot(t, k.root) && k.vpn < NVPN)
    && forall r, vpn :: IsRoot(t, r) && 0 <= vpn < NVPN ==>
         Lookup(t, r, vpn) == if Vpage(r, vpn) in flat then Some(flat[Vpage(r, vpn)]) else None
  }

  /** Pages are user pages, each on a user frame of its own, except the kernel's
      pages `kern` (trampoline and trapframe), which the user cannot reach. */
  ghost predicate Exclusive(flat: Flat, data: set<nat>, owner: map<nat, Vpage>, kern: set<Vpage>) {
    && (forall k :: k in flat && k !in kern ==> flat[k].ppn in owner && owner[flat[k].ppn] == k)
    && (forall k :: k in kern ==> k in flat && !flat[k].U())
    && (forall f :: f in owner ==> f in data && owner[f] in flat && owner[f] !in kern && flat[owner[f]].ppn == f)
  }

  // ---- the free list ----

  lemma PopConserved(frames: set<nat>, free: seq<nat>, tables: set<nat>, data: set<nat>, loose: set<nat>)
    requires Conserved(frames, free, tables, data, loose) && free != []
    ensures Conserved(frames, free[1..], tables, data, loose + {free[0]})
  {
    assert Elems(free) == Elems(free[1..]) + {free[0]};
  }

  lemma PushConserved(frames: set<nat>, free: seq<nat>, tables: set<nat>, data: set<nat>, loose: set<nat>, f: nat)
    requires Conserved(frames, free, tables, data, loose) && f in loose
    ensures Conserved(frames, [f] + free, tables, data, loose - {f})
  {
    assert Elems([f] + free) == Elems(free) + {f};
  }

  // ---- the flat map ----

  lemma RefinesSame(t: Trees, u: Trees, flat: Flat)
    requires TreesOk(t) && TreesOk(u) && SameLookups(t, u) && Refines(t, flat)
    ensures Refines(u, flat)
  {
  }

  lemma RefinesSet(t: Trees, f: nat, r: nat, vpn: nat, e: Pte, flat: Flat)
    requires TreesOk(t) && Refines(t, flat) && IsRoot(t, r) && vpn < NVPN && LowFor(t, r, vpn) == Some(f)
    requires e.V() ==> e.Rwx()
    ensures var u := SetLeaf(t, f, Px0(vpn), e);
            TreesOk(u) && Refines(u, if e.V() then flat[Vpage(r, vpn) := e] else flat - {Vpage(r, vpn)})
  {
    hide PlaceOk, LowFor, Lookup;
    SetLeafKeeps(t, f, r, vpn, e);
  }

  lemma ExclusiveMap(flat: Flat, data: set<nat>, owner: map<nat, Vpage>, kern: set<Vpage>, k: Vpage, e: Pte, user: bool)
    requires Exclusive(flat, data, owner, kern) && k !in flat
    requires if user then e.ppn in data && e.ppn !in owner else !e.U()
    ensures Exclusive(flat[k := e], data, if user then owner[e.ppn := k] else owner, if user then kern else kern + {k})
  {
  }

  lemma ExclusiveUnmap(flat: Flat, data: set<nat>, owner: map<nat, Vpage>, kern: set<Vpage>, k: Vpage)
    requires Exclusive(flat, data, owner, kern) && k in flat
    ensures Exclusive(flat - {k}, data, if k in kern then owner else owner - {flat[k].ppn}, kern - {k})
  {
  }

  // ---- ranges ----

  /** n consecutive pages from v mapped to n consecutive frames from p. */
  ghost function MapRange(flat: Flat, root: nat, v: nat, n: nat, p: nat, flags: bv10): Flat {
    if n == 0 then flat else MapRange(flat, root, v, n - 1, p, flags)[Vpage(root, v + n - 1) := Pte(p + n - 1, flags)]
  }

  lemma {:induction false} MapRangeAt(flat: Flat, root: nat, v: nat, n: nat, p: nat, flags: bv10)
    ensures var r := MapRange(flat, root, v, n, p, flags);
            && (forall k :: k in r <==> k in flat || (k.root == root && v <= k.vpn < v + n))
            && forall k :: k in r ==>
                 r[k] == if k.root == root && v <= k.vpn < v + n then Pte(p + k.vpn - v, flags) else flat[k]
  {
    if n > 0 {
      MapRangeAt(flat, root, v, n - 1, p, flags);
    }
  }

  /** Those frames, as user frames, now belong to those pages. */
  ghost function OwnRange(owner: map<nat, Vpage>, root: nat, v: nat, n: nat, p: nat): map<nat, Vpage> {
    if n == 0 then owner
    else OwnRange(owner, root, v, n - 1, p)[p + n - 1 := Vpage(root, v + n - 1)]
  }

  lemma {:induction false} OwnRangeAt(owner: map<nat, Vpage>, root: nat, v: nat, n: nat, p: nat)
    ensures forall f :: f in OwnRange(owner, root, v, n, p) <==> f in owner || p <= f < p + n
  {
    if n > 0 {
      OwnRangeAt(owner, root, v, n - 1, p);
    }
  }

  /** The next page of a run is not yet mapped, nor its frame owned. */
  lemma RunNext(flat: Flat, owner: map<nat, Vpage>, root: nat, v: nat, n: nat, p: nat, flags: bv10)
    ensures Vpage(root, v + n) in MapRange(flat, root, v, n, p, flags) <==> Vpage(root, v + n) in flat
    ensures p + n !in owner ==> p + n !in OwnRange(owner, root, v, n, p)
    ensures MapRange(flat, root, v, n + 1, p, flags) == MapRange(flat, root, v, n, p, flags)[Vpage(root,
        v + n) := Pte(p + n, flags)]
    ensures OwnRange(owner, root, v, n + 1, p) == OwnRange(owner, root, v, n, p)[p + n := Vpage(root, v + n)]
    ensures Pages(root, v, n + 1) == Pages(root, v, n) + {Vpage(root, v + n)}
  {
    MapRangeAt(flat, root, v, n, p, flags);
    OwnRangeAt(owner, root, v, n, p);
    assert Pages(root, v, n + 1) == Pages(root, v, n) + {Vpage(root, v + n)};
  }

  /** n consecutive pages from v. */
  ghost function Pages(root: nat, v: nat, n: nat): set<Vpage> {
    set j | v <= j < v + n :: Vpage(root, j)
  }

  /** The frames those pages are mapped to. */
  ghost function FramesOf(flat: Flat, ks: set<Vpage>): set<nat> {
    set k | k in ks && k in flat :: flat[k].ppn
  }

  lemma PagesNext(flat: Flat, root: nat, v: nat, n: nat)
    requires Vpage(root, v + n) in flat
    ensures Pages(root, v, n + 1) == Pages(root, v, n) + {Vpage(root, v + n)}
    ensures FramesOf(flat, Pages(root, v, n + 1)) == FramesOf(flat, Pages(root, v, n)) + {flat[Vpage(root, v + n)].ppn}
    ensures Vpage(root, v + n) !in Pages(root, v, n)
  {
    assert Pages(root, v, n + 1) == Pages(root, v, n) + {Vpage(root, v + n)};
    var a, b := FramesOf(flat, Pages(root, v, n + 1)), FramesOf(flat, Pages(root, v, n)) + {flat[Vpage(root, v + n)].ppn};
    forall f | f in b
      ensures f in a
    {
      if f != flat[Vpage(root, v + n)].ppn {
        var k :| k in Pages(root, v, n) && k in flat && flat[k].ppn == f;
        assert k in Pages(root, v, n + 1);
      } else {
        assert Vpage(root, v + n) in Pages(root, v, n + 1);
      }
    }
  }

  lemma RangesEmpty(flat: Flat, owner: map<nat, Vpage>, root: nat, v: nat, p: nat, flags: bv10)
    ensures MapRange(flat, root, v, 0, p, flags) == flat && OwnRange(owner, root, v, 0, p) == owner
    ensures Pages(root, v, 0) == {}
  {
  }

  // ---- growing an address space ----

  /** Exactly the pages ks were added, each on a user frame of its own; taking
      them away again gives back the old mapping and the old user frames. */
  ghost predicate Added(flat0: Flat, data0: map<nat, Page>, owner0: map<nat, Vpage>,
                        flat: Flat, data: map<nat, Page>, owner: map<nat, Vpage>, ks: set<Vpage>) {
    && ks <= flat.Keys && ks !! flat0.Keys && flat - ks == flat0
    && FramesOf(flat, ks) <= data.Keys && FramesOf(flat, ks) !! data0.Keys && data - FramesOf(flat, ks) == data0
    && FramesOf(flat, ks) <= owner.Keys && owner - FramesOf(flat, ks) == owner0
  }

  lemma AddedNone(flat: Flat, data: map<nat, Page>, owner: map<nat, Vpage>)
    ensures Added(flat, data, owner, flat, data, owner, {})
  {
  }

  lemma AddedMore(flat0: Flat, data0: map<nat, Page>, owner0: map<nat, Vpage>,
                  flat: Flat, data: map<nat, Page>, owner: map<nat, Vpage>, ks: set<Vpage>, k: Vpage, e: Pte, page: Page)
    requires Added(flat0, data0, owner0, flat, data, owner, ks)
    requires k !in flat && e.ppn !in data && e.ppn !in owner
    ensures FramesOf(flat[k := e], ks + {k}) == FramesOf(flat, ks) + {e.ppn}
    ensures Added(flat0, data0, owner0, flat[k := e], data[e.ppn := page], owner[e.ppn := k], ks + {k})
  {
    var flat', ks' := flat[k := e], ks + {k};
    assert FramesOf(flat', ks') == FramesOf(flat, ks) + {e.ppn} by {
      assert forall j :: j in ks ==> flat'[j] == flat[j];
      assert flat'[k].ppn in FramesOf(flat', ks');
      forall f | f in FramesOf(flat, ks)
        ensures f in FramesOf(flat', ks')
      {
        var j :| j in ks && j in flat && flat[j].ppn == f;
        assert j in ks' && j in flat' && flat'[j].ppn == f;
      }
    }
    assert flat' - ks' == flat - ks;
  }

  function PgRoundUp(sz: nat): (r: nat)
    ensures r % PGSIZE == 0 && sz <= r < sz + PGSIZE
  {
    (sz + PGSIZE - 1) / PGSIZE * PGSIZE
  }

  /** The pages ks have the given flags and contents. */
  ghost predicate Filled(flat: Flat, data: map<nat, Page>, ks: set<Vpage>, flags: bv10, page: Page)
    requires ks <= flat.Keys
  {
    forall k :: k in ks ==> flat[k].flags == flags && flat[k].ppn in data && data[flat[k].ppn] == page
  }

  lemma FilledMore(flat: Flat, data: map<nat, Page>, ks: set<Vpage>, k: Vpage, e: Pte, page: Page)
    requires ks <= flat.Keys && Filled(flat, data, ks, e.flags, page) && k !in flat && e.ppn !in data
    ensures Filled(flat[k := e], data[e.ppn := page], ks + {k}, e.flags, page)
  {
  }

  lemma Rounding(oldsz: nat, newsz: nat, a: nat)
    requires a % PGSIZE == 0 && PgRoundUp(oldsz) <= a < newsz
    ensures a + PGSIZE <= PgRoundUp(newsz) && (newsz <= a + PGSIZE ==> PgRoundUp(newsz) == a + PGSIZE)
  {
  }

  lemma RoundAligned(a: nat)
    requires a % PGSIZE == 0
    ensures PgRoundUp(a) == a
  {
  }

  lemma KernMapped(flat: Flat, data: set<nat>, owner: map<nat, Vpage>, kern: set<Vpage>)
    requires Exclusive(flat, data, owner, kern)
    ensures kern <= flat.Keys
  {
  }

  lemma RoundingDone(oldsz: nat, newsz: nat)
    requires oldsz <= newsz
    ensures PgRoundUp(oldsz) <= PgRoundUp(newsz)
    ensures newsz <= PgRoundUp(oldsz) ==> PgRoundUp(newsz) == PgRoundUp(oldsz)
    ensures PgRoundUp(PgRoundUp(oldsz)) == PgRoundUp(oldsz)
  {
  }

  // ---- user bytes ----

  function PageOf(va: nat): nat { va / PGSIZE }

  ghost predicate Readable(flat: Flat, root: nat, va: nat) {
    Vpage(root, PageOf(va)) in flat && flat[Vpage(root, PageOf(va))].U()
  }

  ghost predicate Writable(flat: Flat, root: nat, va: nat) {
    Readable(flat, root, va) && flat[Vpage(root, PageOf(va))].W()
  }

  /** The byte a user address names, zero where nothing is mapped. */
  ghost function UserByte(flat: Flat, data: map<nat, Page>, root: nat, va: nat): Byte {
    var k := Vpage(root, PageOf(va));
    if k in flat && flat[k].ppn in data then data[flat[k].ppn][va % PGSIZE] else 0
  }

  /** `bytes` have been stored at addresses from va on, and nowhere else. */
  ghost predicate StoredAt(flat: Flat, kern: set<Vpage>, data0: map<nat, Page>, data: map<nat, Page>, root: nat,
      va: nat, bytes: seq<Byte>) {
    && data.Keys == data0.Keys
    && forall r, a :: 0 <= a && Vpage(r, PageOf(a)) !in kern ==>
         UserByte(flat, data, r, a) ==
         if r == root && va <= a < va + |bytes| then bytes[a - va] else UserByte(flat, data0, r, a)
  }

  function Patch(p: Page, at: nat, piece: seq<Byte>): (r: Page)
    requires at + |piece| <= PGSIZE
  {
    p[..at] + piece + p[at + |piece|..]
  }

  /** One iteration of copyout's loop. */
  lemma StoreMore(flat: Flat, owner: map<nat, Vpage>, kern: set<Vpage>, data0: map<nat, Page>, data: map<nat, Page>,
                  root: nat, va: nat, bytes: seq<Byte>, pos: nat, f: nat, piece: seq<Byte>)
    requires Exclusive(flat, data.Keys, owner, kern) && StoredAt(flat, kern, data0, data, root, va, bytes)
    requires pos == va + |bytes| && Readable(flat, root, pos) && f == flat[Vpage(root, PageOf(pos))].ppn
    requires pos % PGSIZE + |piece| <= PGSIZE
    ensures f in data
    ensures StoredAt(flat, kern, data0, data[f := Patch(data[f], pos % PGSIZE, piece)], root, va, bytes + piece)
  {
    var k := Vpage(root, PageOf(pos));
    var data' := data[f := Patch(data[f], pos % PGSIZE, piece)];
    forall r, a | 0 <= a && Vpage(r, PageOf(a)) !in kern
      ensures UserByte(flat, data', r, a) ==
              if r == root && va <= a < va + |bytes + piece| then (bytes + piece)[a - va] else UserByte(flat, data0, r, a)
    {
      StoreByte(flat, owner, kern, data0, data, root, va, bytes, pos, f, piece, r, a);
    }
  }

  lemma StoreByte(flat: Flat, owner: map<nat, Vpage>, kern: set<Vpage>, data0: map<nat, Page>, data: map<nat, Page>,
                  root: nat, va: nat, bytes: seq<Byte>, pos: nat, f: nat, piece: seq<Byte>, r: nat, a: nat)
    requires Exclusive(flat, data.Keys, owner, kern) && StoredAt(flat, kern, data0, data, root, va, bytes)
    requires pos == va + |bytes| && Readable(flat, root, pos) && f == flat[Vpage(root, PageOf(pos))].ppn && f in data
    requires pos % PGSIZE + |piece| <= PGSIZE && Vpage(r, PageOf(a)) !in kern
    ensures UserByte(flat, data[f := Patch(data[f], pos % PGSIZE, piece)], r, a) ==
            if r == root && va <= a < va + |bytes + piece| then (bytes + piece)[a - va] else UserByte(flat, data0, r, a)
  {
    var k, j := Vpage(root, PageOf(pos)), Vpage(r, PageOf(a));
    assert UserByte(flat, data, r, a) == if r == root
        && va <= a < va + |bytes| then bytes[a - va] else UserByte(flat, data0, r, a);
    assert owner[f] == k;
    assert r == root && pos <= a < pos + |piece| ==> PageOf(a) == PageOf(pos);
    if j in flat && flat[j].ppn == f {
      assert j == k;
      assert a == PageOf(a) * PGSIZE + a % PGSIZE && pos == PageOf(pos) * PGSIZE + pos % PGSIZE;
    }
  }

  // ---- copying an address space ----

  /** The first n pages of `to` have the flags and contents of those of `from`. */
  ghost predicate Copied(flat: Flat, data: map<nat, Page>, from: nat, to: nat, n: nat) {
    forall v :: 0 <= v < n ==> CopiedPage(flat, data, from, to, v)
  }

  ghost predicate CopiedPage(flat: Flat, data: map<nat, Page>, from: nat, to: nat, v: nat) {
    var a, b := Vpage(from, v), Vpage(to, v);
    && a in flat && b in flat && flat[a].ppn in data && flat[b].ppn in data
    && flat[b].flags == flat[a].flags && data[flat[b].ppn] == data[flat[a].ppn]
  }

  lemma CopiedMore(flat: Flat, data: map<nat, Page>, from: nat, to: nat, n: nat, f: nat)
    requires Copied(flat, data, from, to, n) && from != to
    requires Vpage(from, n) in flat && flat[Vpage(from, n)].ppn in data
    requires Vpage(to, n) !in flat && f !in data
    ensures var e := flat[Vpage(from, n)];
            Copied(flat[Vpage(to, n) := Pte(f, e.flags)], data[f := data[e.ppn]], from, to, n + 1)
  {
    var e := flat[Vpage(from, n)];
    var flat', data' := flat[Vpage(to, n) := Pte(f, e.flags)], data[f := data[e.ppn]];
    forall v | 0 <= v < n + 1
      ensures CopiedPage(flat', data', from, to, v)
    {
      if v < n {
        assert CopiedPage(flat, data, from, to, v);
      }
    }
  }

  lemma FlagsHaveV(e: Pte)
    requires e.V()
    ensures e.flags | PTE_V == e.flags
  {
  }

  /** Pages of an address space that Added has not touched. */
  lemma AddedKeeps(flat0: Flat, data0: map<nat, Page>, owner0: map<nat, Vpage>,
                   flat: Flat, data: map<nat, Page>, owner: map<nat, Vpage>, ks: set<Vpage>, k: Vpage)
    requires Added(flat0, data0, owner0, flat, data, owner, ks) && k in flat0 && flat0[k].ppn in data0
    ensures k in flat && flat[k] == flat0[k] && flat[k].ppn in data && data[flat[k].ppn] == data0[flat0[k].ppn]
  {
    assert k in flat - ks && (flat - ks)[k] == flat[k];
    var f := flat0[k].ppn;
    assert f in data - FramesOf(flat, ks) && (data - FramesOf(flat, ks))[f] == data[f];
  }
}
