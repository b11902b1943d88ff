/** kernel/kalloc.c and kernel/vm.c as code on the machine's frames. A panic is an outcome:
    Panicked, or a false result. */
module VmCode {
  import opened Basics
  import opened VmTree
  import opened VmMemory
  import opened VmDemand

  /** Index PX(level, va). */
  function Px(level: nat, vpn: nat): (i: nat)
    requires level <= 2 && vpn < NVPN
    ensures i < 512
  {
    if level == 2 then vpn / 0x4_0000 % 512 else if level == 1 then vpn / 512 % 512 else vpn % 512
  }

  /** Frame f lies entirely at or above address pa. */
  predicate WholePage(pa: nat, f: nat) {
    pa <= f * PGSIZE
  }

  datatype MapResult = AllMapped | NoMemory | Panicked

  predicate WholePages(va: nat, size: nat) {
    va % PGSIZE == 0 && size % PGSIZE == 0 && size > 0
  }

  lemma EntryMapped(t: Trees, root: nat, vpn: nat, low: nat, flat: Flat)
    requires TreesOk(t) && Refines(t, flat) && IsRoot(t, root) && vpn < NVPN && LowFor(t, root, vpn) == Some(low)
    ensures low in t.tables && (t.tables[low][Px0(vpn)].V() <==> Vpage(root, vpn) in flat)
  {
    assert Lookup(t, root, vpn) == if Vpage(root, vpn) in flat then Some(flat[Vpage(root, vpn)]) else None;
  }

  /** mappages panics at the page. */
  ghost predicate Bad(flat: Flat, root: nat, vpn: nat) {
    vpn >= NVPN || Vpage(root, vpn) in flat
  }

  /** The n pages from v on are below MAXVA and not mapped. */
  ghost predicate Unmapped(flat: Flat, root: nat, v: nat, n: nat) {
    forall j :: v <= j < v + n ==> !Bad(flat, root, j)
  }

  /** They are mapped. */
  ghost predicate Present(flat: Flat, root: nat, v: nat, n: nat) {
    forall j :: v <= j < v + n ==> Vpage(root, j) in flat
  }

  /** What becomes of the page after k of the n pages from v on. */
  ghost predicate Outcome(flat: Flat, have: set<Role>, free: nat, root: nat, v: nat, k: nat, r: MapResult) {
    if Bad(flat, root, v + k) then r == if free < Demand(have, root, v, k) + 1 then NoMemory else Panicked
    else r == if free < Demand(have, root, v, k + 1) then NoMemory else AllMapped
  }

  /** There is a first bad page, and frames enough to get there and take one more. */
  ghost predicate Panics(flat: Flat, have: set<Role>, free: nat, root: nat, v: nat, n: nat) {
    exists b :: 0 <= b < n && Unmapped(flat, root, v, b) && Bad(flat, root, v + b) && Demand(have, root, v, b) < free
  }

  /** Where the growth stops short. */
  lemma Stopped(flat: Flat, have: set<Role>, free: nat, root: nat, v: nat, n: nat, k: nat, r: MapResult)
    requires k < n && Unmapped(flat, root, v, k) && Outcome(flat, have, free, root, v, k, r) && !r.AllMapped?
    ensures !(Unmapped(flat, root, v, n) && Demand(have, root, v, n) <= free)
    ensures r.Panicked? <==> Panics(flat, have, free, root, v, n)
  {
    hide Demand;
    DemandMore(have, root, v, k + 1, n);
    assert Unmapped(flat, root, v, n) ==> !Bad(flat, root, v + k);
    if !r.Panicked? {
      forall b | 0 <= b < n && Unmapped(flat, root, v, b) && Bad(flat, root, v + b)
        ensures free <= Demand(have, root, v, b)
      {
        if k < b {
          assert !Bad(flat, root, v + k);
          DemandMore(have, root, v, k + 1, b);
        }
      }
    }
  }

  /** What becomes of the page after k of those that are copied. */
  ghost predicate CopyOutcome(flat: Flat, have: set<Role>, free: nat, from: nat, to: nat, k: nat, r: MapResult) {
    if Vpage(from, k) !in flat then r.Panicked? && Demand(have, to, 0, k) <= free
    else Outcome(flat, have, free, to, 0, k, r)
  }

  /** There is a first page that cannot be copied, and frames enough to get there. */
  ghost predicate CopyPanics(flat: Flat, have: set<Role>, free: nat, from: nat, to: nat, n: nat) {
    exists b :: 0 <= b < n && CopyPanicsAt(flat, have, free, from, to, b)
  }

  ghost predicate CopyPanicsAt(flat: Flat, have: set<Role>, free: nat, from: nat, to: nat, b: nat) {
    && Present(flat, from, 0, b) && Unmapped(flat, to, 0, b)
    && if Vpage(from, b) !in flat then Demand(have, to, 0, b) <= free else Bad(flat, to, b) && Demand(have, to, 0, b) < free
  }

  lemma CopyStopped(flat: Flat, have: set<Role>, free: nat, from: nat, to: nat, n: nat, k: nat, r: MapResult)
    requires k < n && Present(flat, from, 0, k) && Unmapped(flat, to, 0, k)
    requires CopyOutcome(flat, have, free, from, to, k, r) && !r.AllMapped?
    ensures !(Present(flat, from, 0, n) && Unmapped(flat, to, 0, n) && Demand(have, to, 0, n) <= free)
    ensures r.Panicked? <==> CopyPanics(flat, have, free, from, to, n)
  {
    hide Demand;
    DemandMore(have, to, 0, k + 1, n);
    assert Present(flat, from, 0, n) ==> Vpage(from, k) in flat;
    assert Unmapped(flat, to, 0, n) ==> !Bad(flat, to, k);
    if r.Panicked? {
      assert CopyPanicsAt(flat, have, free, from, to, k);
    } else {
      forall b | 0 <= b < n
        ensures !CopyPanicsAt(flat, have, free, from, to, b)
      {
        if k < b {
          assert Present(flat, from, 0, b) ==> Vpage(from, k) in flat;
          assert Unmapped(flat, to, 0, b) ==> !Bad(flat, to, k);
          DemandMore(have, to, 0, k + 1, b);
        } else if b < k {
          assert Vpage(from, b) in flat && !Bad(flat, to, b);
        }
      }
    }
  }

  /** How many pages a growth from oldsz to newsz adds. */
  function Growth(oldsz: nat, newsz: nat): nat {
    if newsz < oldsz then 0 else (PgRoundUp(newsz) - PgRoundUp(oldsz)) / PGSIZE
  }

  lemma GrowthOf(oldsz: nat, newsz: nat, v: nat, k: nat)
    requires oldsz <= newsz && PgRoundUp(oldsz) == v * PGSIZE && PgRoundUp(newsz) == (v + k) * PGSIZE
    ensures Growth(oldsz, newsz) == k && PgRoundUp(oldsz) / PGSIZE == v
  {
    hide PgRoundUp;
  }

  lemma PagesIn(size: nat, n: nat)
    requires n * PGSIZE <= size
    ensures n <= size / PGSIZE
  {
  }

  lemma GrowthAt(oldsz: nat, newsz: nat, v: nat, k: nat)
    requires oldsz <= newsz && PgRoundUp(oldsz) == v * PGSIZE && (v + k + 1) * PGSIZE <= PgRoundUp(newsz)
    ensures PgRoundUp(oldsz) / PGSIZE == v && k < Growth(oldsz, newsz)
  {
    hide PgRoundUp;
    PagesIn(PgRoundUp(newsz) - PgRoundUp(oldsz), k + 1);
  }

  /** The pages between two sizes of an address space. */
  ghost function Dealloc(root: nat, oldsz: nat, newsz: nat): set<Vpage> {
    var hi, lo := PgRoundUp(oldsz), PgRoundUp(newsz);
    Pages(root, lo / PGSIZE, if hi > lo then (hi - lo) / PGSIZE else 0)
  }

  lemma RoundUpAligned(sz: nat)
    ensures PgRoundUp(sz) % PGSIZE == 0
  {
  }

  lemma KernApart(root: nat, v: nat, k: nat, n: nat, kern: set<Vpage>)
    requires k <= n && Pages(root, v, n) !! kern
    ensures kern - Pages(root, v, k) == kern
  {
  }

  lemma UserData(flat: Flat, data: set<nat>, owner: map<nat, Vpage>, kern: set<Vpage>, k: Vpage)
    requires Exclusive(flat, data, owner, kern) && k in flat
    ensures k !in kern ==> flat[k].ppn in data
  {
  }

  lemma UserNext(flat: Flat, kern: set<Vpage>, root: nat, v: nat, k: nat)
    requires Vpage(root, v + k) in flat
    ensures FramesOf(flat, Pages(root, v, k + 1) - kern) ==
            FramesOf(flat, Pages(root, v, k) - kern) +
            if Vpage(root, v + k) in kern then {} else {flat[Vpage(root, v + k)].ppn}
    ensures Pages(root, v, k) !! kern ==> Pages(root, v, k) - kern == Pages(root, v, k)
  {
    hide FramesOf;
    PagesNext(flat, root, v, k);
    var p := Vpage(root, v + k);
    if p in kern {
      assert Pages(root, v, k + 1) - kern == Pages(root, v, k) - kern;
    } else {
      assert Pages(root, v, k + 1) - kern == Pages(root, v, k) - kern + {p};
      FramesOfOne(flat, Pages(root, v, k) - kern, p);
    }
  }

  lemma FramesOfOne(flat: Flat, ks: set<Vpage>, p: Vpage)
    requires p in flat
    ensures FramesOf(flat, ks + {p}) == FramesOf(flat, ks) + {flat[p].ppn}
  {
  }

  lemma NoPages(flat: Flat, owner: map<nat, Vpage>, data: map<nat, Page>, root: nat, v: nat)
    ensures Pages(root, v, 0) == {} && FramesOf(flat, {}) == {}
    ensures flat - {} == flat && owner - {} == owner && data - {} == data
  {
  }

  lemma LooseData(frames: set<nat>, free: seq<nat>, tables: set<nat>, data: set<nat>, loose: set<nat>, f: nat)
    requires Conserved(frames, free, tables, data, loose) && f in data
    ensures f in frames && f !in loose && Conserved(frames, free, tables, data - {f}, loose + {f})
  {
  }

  lemma PushBroken(frames: set<nat>, free: seq<nat>, tables: set<nat>, data: set<nat>, loose: set<nat>, f: nat)
    requires Conserved(frames, free, tables, data, loose) && f !in loose
    ensures !Conserved(frames, [f] + free, tables, data, loose - {f})
  {
    var g := [f] + free;
    assert g[0] == f && f in Elems(g);
    if f in free {
      var i :| 0 <= i < |free| && free[i] == f;
      assert g[i + 1] == f;
    } else {
      assert f in frames ==> f in tables || f in data;
    }
  }

  class Memory {
    const frames: set<nat>          // every frame kinit gave to the allocator
    var freelist: seq<nat>
    var tables: map<nat, Table>     // frames in use as page-table pages
    var data: map<nat, Page>        // frames in use as user pages
    ghost var loose: set<nat>       // frames kalloc has returned, not yet put to use
    ghost var roles: map<nat, Role>
    ghost var flat: Flat
    ghost var owner: map<nat, Vpage>
    ghost var kern: set<Vpage>      // trampoline and trapframe pages

    ghost function T(): Trees
      reads this
    {
      Trees(tables, roles)
    }

    ghost predicate Valid()
      reads this
    {
      && Conserved(frames, freelist, tables.Keys, data.Keys, loose)
      && TreesOk(T())
      && Refines(T(), flat)
      && Exclusive(flat, data.Keys, owner, kern)
    }

    /** kinit and freerange: every whole page between the two addresses, once. */
    constructor (paStart: nat, paEnd: nat)
      requires paStart > 0
      ensures Valid() && tables == map[] && data == map[] && loose == {} && flat == map[]
      ensures frames == set f | 0 <= f < paEnd / PGSIZE && WholePage(paStart, f)
    {
      frames := set f | 0 <= f < paEnd / PGSIZE && WholePage(paStart, f);
      freelist, tables, data, loose, roles := [], map[], map[], {}, map[];
      flat, owner, kern := map[], map[], {};
      new;
      var p := PgRoundUp(paStart);
      ghost var first := p / PGSIZE;
      while p + PGSIZE <= paEnd
        invariant p % PGSIZE == 0 && first <= p / PGSIZE
        invariant p <= paEnd || p / PGSIZE == first
        invariant Distinct(freelist) && forall f :: f in freelist <==> first <= f < p / PGSIZE
        invariant tables == map[] && data == map[] && loose == {} && roles == map[]
        invariant flat == map[] && owner == map[] && kern == {}
        decreases paEnd - p
      {
        assert p / PGSIZE !in freelist;
        freelist := [p / PGSIZE] + freelist;
        p := p + PGSIZE;
      }
    }

    method Kalloc() returns (r: Option<nat>)
      requires Conserved(frames, freelist, tables.Keys, data.Keys, loose)
      modifies `freelist, `loose
      ensures Conserved(frames, freelist, tables.Keys, data.Keys, loose)
      ensures r.None? <==> old(freelist) == []
      ensures r.None? ==> freelist == old(freelist) && loose == old(loose)
      ensures r.Some? ==> r.value == old(freelist)[0] && r.value !in old(loose)
      ensures r.Some? ==> freelist == old(freelist)[1..] && loose == old(loose) + {r.value}
    {
      if freelist == [] {
        return None;
      }
      PopConserved(frames, freelist, tables.Keys, data.Keys, loose);
      r := Some(freelist[0]);
      loose := loose + {freelist[0]};
      freelist := freelist[1..];
    }

    /** kfree. False is the panic, for an address that is not the start of one of the pages
        given to the allocator. It does not look at who holds the frame: every frame is
        still in one place exactly if the caller held it. */
    method Kfree(pa: nat) returns (ok: bool)
      requires Conserved(frames, freelist, tables.Keys, data.Keys, loose)
      modifies `freelist, `loose
      ensures ok <==> pa % PGSIZE == 0 && pa / PGSIZE in frames
      ensures ok ==> (Conserved(frames, freelist, tables.Keys, data.Keys, loose) <==> pa / PGSIZE in old(loose))
      ensures ok ==> freelist == [pa / PGSIZE] + old(freelist) && loose == old(loose) - {pa / PGSIZE}
      ensures !ok ==> freelist == old(freelist) && loose == old(loose)
    {
      var f := pa / PGSIZE;
      if pa % PGSIZE != 0 || f !in frames {
        return false;
      }
      if f in loose {
        PushConserved(frames, freelist, tables.Keys, data.Keys, loose, f);
      } else {
        PushBroken(frames, freelist, tables.Keys, data.Keys, loose, f);
      }
      freelist := [f] + freelist;
      loose := loose - {f};
      ok := true;
    }

    /** The tables there are. */
    ghost function Have(): set<Role>
      reads `roles
    {
      roles.Values
    }

    /** Since there were `free` frames free and the tables of have, one frame has been taken for
        every new table. */
    ghost predicate Paid(have: set<Role>, free: nat)
      reads `roles, `freelist
    {
      have <= Have() && |freelist| + |Have() - have| == free
    }

    /** walk: the level-0 table of a page, its interior tables created on demand, each in one
        frame; None exactly if fewer frames are free than tables are missing. The mapping
        itself never changes, even when memory runs out half way. */
    method Walk(root: nat, vpn: nat, alloc: bool) returns (loc: Option<nat>)
      requires Valid() && IsRoot(T(), root) && vpn < NVPN
      modifies `freelist, `loose, `tables, `roles
      ensures Valid() && loose == old(loose) && (forall q :: IsRoot(T(), q) <==> IsRoot(old(T()), q))
      ensures loc == LowFor(T(), root, vpn)
      ensures !alloc ==> T() == old(T()) && freelist == old(freelist)
      ensures loc.None? ==> Vpage(root, vpn) !in flat && (alloc ==> freelist == [])
      ensures alloc ==> (loc.None? <==> |old(freelist)| < |Way(root, vpn) - old(Have())|)
      ensures alloc && loc.Some? ==> Paid(old(Have()), |old(freelist)|) && Have() == old(Have()) + Way(root, vpn)
    {
      hide Conserved, Refines, Exclusive, PlaceOk, LowFor, Paid, Done, Way, Below, Have;
      ghost var have, free := Have(), |freelist|;
      PaidNothing();
      var pagetable := root;
      var level := 2;
      while level > 0
        invariant 0 <= level <= 2 && Valid() && loose == old(loose)
        invariant forall q :: IsRoot(T(), q) <==> IsRoot(old(T()), q)
        invariant !alloc ==> T() == old(T()) && freelist == old(freelist)
        invariant AtLevel(T(), root, vpn, level, pagetable)
        invariant alloc ==> Paid(have, free) && Have() == have + Done(root, vpn, level)
      {
        var pte := tables[pagetable][Px(level, vpn)];
        TableThere(root, vpn, level, pagetable);
        if pte.V() {
          Descend(T(), root, vpn, level, pagetable);
          pagetable := pte.ppn;
        } else {
          NotReached(T(), root, vpn, level, pagetable, flat);
          if !alloc {
            return None;
          }
          var page := Extend(root, vpn, level, pagetable, have, free);
          if page.None? {
            return None;
          }
          pagetable := page.value;
        }
        level := level - 1;
      }
      AllThere(have, free, root, vpn, alloc);
      loc := Some(pagetable);
    }

    lemma PaidNothing()
      ensures Paid(Have(), |freelist|) && forall root, vpn :: Have() == Have() + Done(root, vpn, 2)
    {
      assert Have() - Have() == {};
    }

    /** The table that an entry of the walk leads to. */
    ghost function Below(root: nat, vpn: nat, level: nat): Role
      requires 1 <= level <= 2 && vpn < NVPN
    {
      if level == 2 then Mid(root, Px2(vpn)) else Low(root, Px2(vpn), Px1(vpn))
    }

    lemma TableThere(root: nat, vpn: nat, level: nat, pagetable: nat)
      requires TreesOk(T()) && 1 <= level <= 2 && AtLevel(T(), root, vpn, level, pagetable)
      ensures Below(root, vpn, level) in Have() <==> tables[pagetable][Px(level, vpn)].V()
      ensures Done(root, vpn, level - 1) == Done(root, vpn, level) + {Below(root, vpn, level)}
    {
      if level == 2 {
        MidThere(T(), root, vpn);
      } else {
        LowThere(T(), root, vpn, pagetable);
      }
    }

    lemma NotEnough(have: set<Role>, free: nat, root: nat, vpn: nat, level: nat)
      requires 1 <= level <= 2 && vpn < NVPN && Paid(have, free) && freelist == []
      requires Have() == have + Done(root, vpn, level) && Below(root, vpn, level) !in Have()
      requires Done(root, vpn, level - 1) == Done(root, vpn, level) + {Below(root, vpn, level)}
      ensures free < |Way(root, vpn) - have|
    {
      assert Below(root, vpn, level) in Done(root, vpn, level - 1);
      OneMissing(have, Have(), root, vpn, level);
    }

    lemma AllThere(have: set<Role>, free: nat, root: nat, vpn: nat, alloc: bool)
      requires alloc ==> Paid(have, free) && Have() == have + Done(root, vpn, 0)
      ensures alloc ==> free >= |Way(root, vpn) - have| && Have() == have + Way(root, vpn)
    {
      if alloc {
        assert Have() - have == Way(root, vpn) - have;
      }
    }

    /** The next table of the walk, in a new frame. */
    method Extend(root: nat, vpn: nat, level: nat, pagetable: nat, ghost have: set<Role>, ghost free: nat)
        returns (page: Option<nat>)
      requires Valid() && IsRoot(T(), root) && vpn < NVPN && 1 <= level <= 2
      requires AtLevel(T(), root, vpn, level, pagetable) && !tables[pagetable][Px(level, vpn)].V()
      requires Paid(have, free) && Have() == have + Done(root, vpn, level) && Below(root, vpn, level) !in Have()
      requires Done(root, vpn, level - 1) == Done(root, vpn, level) + {Below(root, vpn, level)}
      modifies `freelist, `loose, `tables, `roles
      ensures Valid() && loose == old(loose) && (forall q :: IsRoot(T(), q) <==> IsRoot(old(T()), q))
      ensures page.None? ==> T() == old(T()) && freelist == [] && free < |Way(root, vpn) - have|
      ensures page.Some? ==> AtLevel(T(), root, vpn, level - 1, page.value)
      ensures page.Some? ==> Paid(have, free) && Have() == have + Done(root, vpn, level - 1)
    {
      hide Conserved, Refines, Exclusive, PlaceOk, LowFor, TreesOk, AtLevel, Done, Way, Below, Have;
      ghost var had := Have();
      page := Kalloc();
      if page.None? {
        NotEnough(have, free, root, vpn, level);
        return;
      }
      OneAdded(have, Have(), Below(root, vpn, level));
      Link(root, vpn, level, pagetable, page.value);
      assert Have() == had + {Below(root, vpn, level)} == have + Done(root, vpn, level - 1);
      assert loose == old(loose);
    }

    /** Zero a page just allocated and link it. */
    method Link(root: nat, vpn: nat, level: nat, pagetable: nat, page: nat)
      requires Valid() && IsRoot(T(), root) && vpn < NVPN && 1 <= level <= 2 && page in loose
      requires AtLevel(T(), root, vpn, level, pagetable) && !tables[pagetable][Px(level, vpn)].V()
      modifies `loose, `tables, `roles
      ensures Valid() && loose == old(loose) - {page} && (forall q :: IsRoot(T(), q) <==> IsRoot(old(T()), q))
      ensures AtLevel(T(), root, vpn, level - 1, page)
      ensures Have() == old(Have()) + {Below(root, vpn, level)}
    {
      hide Conserved, Refines, Exclusive, PlaceOk, LowFor, Lookup;
      LinkConserved(frames, freelist, tables.Keys, data.Keys, loose, page);
      LinkKeeps(T(), root, vpn, level, pagetable, page, flat);
      AddRole(roles, page, Below(root, vpn, level));
      roles := roles[page := Below(root, vpn, level)];
      tables := tables[page := EmptyTable()][pagetable := tables[pagetable][Px(level, vpn) := Pte(page, PTE_V)]];
      loose := loose - {page};
      assert tables.Keys == old(tables.Keys) + {page};
    }

    /** The body of mappages' loop for one page. */
    method MapPage(root: nat, vpn: nat, ppn: nat, perm: bv10, ghost user: bool) returns (r: MapResult)
      requires Valid() && IsRoot(T(), root) && Pte(0, perm).Rwx()
      requires if user then ppn in data && ppn !in owner else !Pte(0, perm).U()
      modifies `freelist, `loose, `tables, `roles, `flat, `owner, `kern
      ensures Valid() && loose == old(loose) && (forall q :: IsRoot(T(), q) <==> IsRoot(old(T()), q))
      ensures r.Panicked? <==> vpn >= NVPN || Vpage(root, vpn) in old(flat)
      ensures r.AllMapped? ==> flat == old(flat)[Vpage(root, vpn) := Pte(ppn, perm | PTE_V)]
      ensures r.AllMapped? ==> owner == if user then old(owner)[ppn := Vpage(root, vpn)] else old(owner)
      ensures r.AllMapped? ==> kern == if user then old(kern) else old(kern) + {Vpage(root, vpn)}
      ensures !r.AllMapped? ==> flat == old(flat) && owner == old(owner) && kern == old(kern)
      ensures r.NoMemory? ==> freelist == []
      ensures !Bad(old(flat), root, vpn) ==> (r.NoMemory? <==> |old(freelist)| < |Way(root, vpn) - old(Have())|)
      ensures r.AllMapped? ==> Paid(old(Have()), |old(freelist)|) && Have() == old(Have()) + Way(root, vpn)
    {
      hide Conserved, PlaceOk, LowFor, Exclusive, Have, Paid, Way;
      if vpn >= NVPN {
        return Panicked;
      }
      var loc := Walk(root, vpn, true);
      if loc.None? {
        return NoMemory;
      }
      EntryMapped(T(), root, vpn, loc.value, flat);
      if tables[loc.value][Px0(vpn)].V() {
        return Panicked;
      }
      SetEntry(root, vpn, loc.value, Pte(ppn, perm | PTE_V), user);
      r := AllMapped;
    }

    /** *pte = e, for an unmapped page. */
    method SetEntry(root: nat, vpn: nat, low: nat, e: Pte, ghost user: bool)
      requires Valid() && IsRoot(T(), root) && vpn < NVPN && LowFor(T(), root, vpn) == Some(low)
      requires Vpage(root, vpn) !in flat && e.V() && e.Rwx()
      requires if user then e.ppn in data && e.ppn !in owner else !e.U()
      modifies `tables, `flat, `owner, `kern
      ensures Valid() && (forall q :: IsRoot(T(), q) <==> IsRoot(old(T()), q))
      ensures flat == old(flat)[Vpage(root, vpn) := e]
      ensures owner == if user then old(owner)[e.ppn := Vpage(root, vpn)] else old(owner)
      ensures kern == if user then old(kern) else old(kern) + {Vpage(root, vpn)}
    {
      hide Conserved, Exclusive, PlaceOk, Lookup, Refines;
      RefinesSet(T(), low, root, vpn, e, flat);
      ExclusiveMap(flat, data.Keys, owner, kern, Vpage(root, vpn), e, user);
      tables := tables[low := tables[low][Px0(vpn) := e]];
      assert tables.Keys == old(tables.Keys);
      flat := flat[Vpage(root, vpn) := e];
      if user {
        owner := owner[e.ppn := Vpage(root, vpn)];
      } else {
        kern := kern + {Vpage(root, vpn)};
      }
    }

    /** mappages: maps the first k of the pages asked for, none of which was mapped; all
        of them, or up to one for which memory ran out, or up to a panic: an unaligned
        or empty range, a page that is mapped already, or one past MAXVA. */
    method Mappages(root: nat, va: nat, size: nat, pa: nat, perm: bv10, ghost user: bool) returns (r: MapResult, ghost k: nat)
      requires Valid() && IsRoot(T(), root) && Pte(0, perm).Rwx() && pa % PGSIZE == 0
      requires if user then forall f :: pa / PGSIZE <= f < (pa + size) / PGSIZE ==> f in data && f !in owner
               else !Pte(0, perm).U()
      modifies `freelist, `loose, `tables, `roles, `flat, `owner, `kern
      ensures Valid() && loose == old(loose) && (forall q :: IsRoot(T(), q) <==> IsRoot(old(T()), q))
      ensures !WholePages(va, size) ==> r.Panicked? && k == 0
      ensures WholePages(va, size) ==> k <= size / PGSIZE && (r.AllMapped? <==> k == size / PGSIZE)
      ensures r.NoMemory? ==> freelist == [] && Vpage(root, va / PGSIZE + k) !in old(flat)
      ensures r.Panicked? && WholePages(va, size) ==> va / PGSIZE + k >= NVPN || Vpage(root, va / PGSIZE + k) in old(flat)
      ensures Pages(root, va / PGSIZE, k) !! old(flat.Keys)
      ensures flat == MapRange(old(flat), root, va / PGSIZE, k, pa / PGSIZE, perm | PTE_V)
      ensures owner == if user then OwnRange(old(owner), root, va / PGSIZE, k, pa / PGSIZE) else old(owner)
      ensures kern == if user then old(kern) else old(kern) + Pages(root, va / PGSIZE, k)
    {
      hide Conserved, PlaceOk, TreesOk, Refines, Exclusive, MapRange, OwnRange, Pages;
      ghost var n, v, p := size / PGSIZE, va / PGSIZE, pa / PGSIZE;
      RangesEmpty(flat, owner, root, v, p, perm | PTE_V);
      k := 0;
      if va % PGSIZE != 0 || size % PGSIZE != 0 || size == 0 {
        return Panicked, k;
      }
      assert va == v * PGSIZE && pa == p * PGSIZE && size == n * PGSIZE;
      var a, q := va, pa;
      var last := va + size - PGSIZE;
      while true
        invariant 0 <= k < n && a == (v + k) * PGSIZE && q == (p + k) * PGSIZE
        invariant Valid() && loose == old(loose) && (forall r :: IsRoot(T(), r) <==> IsRoot(old(T()), r))
        invariant Mapped(old(flat), old(owner), old(kern), root, v, k, p, perm | PTE_V, user)
        invariant Pages(root, v, k) !! old(flat.Keys)
        decreases n - k
      {
        RunNext(old(flat), old(owner), root, v, k, p, perm | PTE_V);
        r := MapNth(root, a / PGSIZE, q / PGSIZE, perm, user, old(flat), old(owner), old(kern), v, k, p);
        if !r.AllMapped? {
          return;
        }
        k := k + 1;
        if a == last {
          break;
        }
        a := a + PGSIZE;
        q := q + PGSIZE;
      }
    }

    /** Since flat0, owner0 and kern0, the first k pages of a run have been mapped. */
    ghost predicate Mapped(flat0: Flat, owner0: map<nat, Vpage>, kern0: set<Vpage>,
                           root: nat, v: nat, k: nat, p: nat, flags: bv10, user: bool)
      reads this
    {
      && flat == MapRange(flat0, root, v, k, p, flags)
      && owner == (if user then OwnRange(owner0, root, v, k, p) else owner0)
      && kern == if user then kern0 else kern0 + Pages(root, v, k)
    }

    /** The k-th page of a run. */
    method MapNth(root: nat, vpn: nat, ppn: nat, perm: bv10, ghost user: bool,
                  ghost flat0: Flat, ghost owner0: map<nat, Vpage>, ghost kern0: set<Vpage>, ghost v: nat,
                      ghost k: nat, ghost p: nat)
        returns (r: MapResult)
      requires Valid() && IsRoot(T(), root) && vpn == v + k && ppn == p + k && Pte(0, perm).Rwx()
      requires Mapped(flat0, owner0, kern0, root, v, k, p, perm | PTE_V, user)
      requires if user then ppn in data && ppn !in owner0 else !Pte(0, perm).U()
      modifies `freelist, `loose, `tables, `roles, `flat, `owner, `kern
      ensures Valid() && loose == old(loose) && (forall q :: IsRoot(T(), q) <==> IsRoot(old(T()), q))
      ensures r.NoMemory? ==> freelist == []
      ensures r.Panicked? <==> vpn >= NVPN || Vpage(root, vpn) in flat0
      ensures Mapped(flat0, owner0, kern0, root, v, if r.AllMapped? then k + 1 else k, p, perm | PTE_V, user)
    {
      hide Conserved, PlaceOk, TreesOk, Refines, Exclusive, MapRange, OwnRange, Pages;
      RunNext(flat0, owner0, root, v, k, p, perm | PTE_V);
      r := MapPage(root, vpn, ppn, perm, user);
    }

    /** *pte = 0 for a mapped page. */
    method ClearEntry(root: nat, vpn: nat, low: nat)
      requires Valid() && IsRoot(T(), root) && vpn < NVPN && LowFor(T(), root, vpn) == Some(low)
      requires Vpage(root, vpn) in flat
      modifies `tables, `flat, `owner, `kern
      ensures Valid() && (forall q :: IsRoot(T(), q) <==> IsRoot(old(T()), q))
      ensures flat == old(flat) - {Vpage(root, vpn)}
      ensures owner == if Vpage(root, vpn) in old(kern) then old(owner) else old(owner) - {old(flat)[Vpage(root,
          vpn)].ppn}
      ensures kern == old(kern) - {Vpage(root, vpn)}
    {
      hide Conserved, Exclusive, PlaceOk, Lookup, Refines;
      RefinesSet(T(), low, root, vpn, NoPte(), flat);
      ExclusiveUnmap(flat, data.Keys, owner, kern, Vpage(root, vpn));
      if Vpage(root, vpn) !in kern {
        owner := owner - {flat[Vpage(root, vpn)].ppn};
      }
      tables := tables[low := tables[low][Px0(vpn) := NoPte()]];
      assert tables.Keys == old(tables.Keys);
      flat, kern := flat - {Vpage(root, vpn)}, kern - {Vpage(root, vpn)};
    }

    /** kfree of a user page that is no longer mapped. */
    method FreeData(f: nat)
      requires Valid() && f in data && f !in owner
      modifies `freelist, `data, `loose
      ensures Valid() && loose == old(loose) && data == old(data) - {f} && freelist == [f] + old(freelist)
    {
      hide PlaceOk, Refines, TreesOk, Conserved;
      LooseData(frames, freelist, tables.Keys, data.Keys, loose, f);
      data := data - {f};
      loose := loose + {f};
      assert data.Keys == old(data.Keys) - {f};
      var fine := Kfree(f * PGSIZE);
      assert loose == old(loose);
    }

    /** The body of uvmunmap's loop. */
    method UnmapPage(root: nat, vpn: nat, doFree: bool)
      requires Valid() && IsRoot(T(), root) && vpn < NVPN && Vpage(root, vpn) in flat
      requires doFree ==> Vpage(root, vpn) !in kern
      modifies `freelist, `loose, `tables, `roles, `data, `flat, `owner, `kern
      ensures Valid() && loose == old(loose) && roles == old(roles)
      ensures flat == old(flat) - {Vpage(root, vpn)} && kern == old(kern) - {Vpage(root, vpn)}
      ensures owner == if Vpage(root, vpn) in old(kern) then old(owner) else old(owner) - {old(flat)[Vpage(root, vpn)].ppn}
      ensures data == if doFree then old(data) - {old(flat)[Vpage(root, vpn)].ppn} else old(data)
    {
      hide Conserved, PlaceOk, TreesOk, Refines, LowFor, Lookup, Exclusive;
      MappedHasLow(T(), root, vpn, flat);
      UserData(flat, data.Keys, owner, kern, Vpage(root, vpn));
      var loc := Walk(root, vpn, false);
      var pa := tables[loc.value][Px0(vpn)].ppn;
      ClearEntry(root, vpn, loc.value);
      if doFree {
        FreeData(pa);
      }
    }

    /** Is the page mapped? A page past MAXVA is walk's panic, and never is. */
    method IsMapped(root: nat, vpn: nat) returns (mapped: bool)
      requires Valid() && IsRoot(T(), root)
      modifies `freelist, `loose, `tables, `roles
      ensures Valid() && T() == old(T()) && freelist == old(freelist) && loose == old(loose)
      ensures mapped <==> Vpage(root, vpn) in flat
      ensures mapped ==> vpn < NVPN
    {
      hide Conserved, PlaceOk, Exclusive;
      if vpn >= NVPN {
        return false;
      }
      var loc := Walk(root, vpn, false);
      mapped := loc.Some? && tables[loc.value][Px0(vpn)].V();
    }

    /** uvmunmap: exactly the named pages go, and with doFree their frames, which without it
        are left to the caller. The panics, at an unaligned address and at the first page
        that is not mapped, are a false result; k pages are gone by then. */
    method Uvmunmap(root: nat, va: nat, npages: nat, doFree: bool) returns (ok: bool, ghost k: nat)
      requires Valid() && IsRoot(T(), root)
      requires doFree ==> Pages(root, va / PGSIZE, npages) !! kern
      modifies `freelist, `loose, `tables, `roles, `data, `flat, `owner, `kern
      ensures Valid() && loose == old(loose) && roles == old(roles)
      ensures ok <==> va % PGSIZE == 0 && Pages(root, va / PGSIZE, npages) <= old(flat.Keys)
      ensures k <= npages && (ok ==> k == npages) && Pages(root, va / PGSIZE, k) <= old(flat.Keys)
      ensures !ok && va % PGSIZE == 0 ==> k < npages && Vpage(root, va / PGSIZE + k) !in old(flat)
      ensures !ok && va % PGSIZE != 0 ==> k == 0
      ensures flat == old(flat) - Pages(root, va / PGSIZE, k) && kern == old(kern) - Pages(root, va / PGSIZE, k)
      ensures owner == old(owner) - FramesOf(old(flat), Pages(root, va / PGSIZE, k) - old(kern))
      ensures doFree ==> owner == old(owner) - FramesOf(old(flat), Pages(root, va / PGSIZE, k))
      ensures data == if doFree then old(data) - FramesOf(old(flat), Pages(root, va / PGSIZE, k)) else old(data)
    {
      hide Conserved, TreesOk, Refines, Exclusive, FramesOf;
      k := 0;
      NoPages(flat, owner, data, root, va / PGSIZE);
      assert {} - kern == {};
      if va % PGSIZE != 0 {
        return false, k;
      }
      ghost var v := va / PGSIZE;
      assert va == v * PGSIZE;
      var a := va;
      while a < va + npages * PGSIZE
        invariant 0 <= k <= npages && a == (v + k) * PGSIZE
        invariant Valid() && loose == old(loose) && roles == old(roles)
        invariant flat == old(flat) - Pages(root, v, k) && kern == old(kern) - Pages(root, v, k)
        invariant owner == old(owner) - FramesOf(old(flat), Pages(root, v, k) - old(kern))
        invariant doFree ==> Pages(root, v, k) - old(kern) == Pages(root, v, k)
        invariant data == if doFree then old(data) - FramesOf(old(flat), Pages(root, v, k)) else old(data)
        invariant Pages(root, v, k) <= old(flat.Keys)
        decreases npages - k
      {
        assert Vpage(root, v + k) in Pages(root, v, npages);
        var mapped := IsMapped(root, a / PGSIZE);
        if !mapped {
          return false, k;
        }
        PagesNext(old(flat), root, v, k);
        UserNext(old(flat), old(kern), root, v, k);
        assert doFree ==> Pages(root, v, k + 1) - old(kern) == Pages(root, v, k + 1);
        UnmapPage(root, a / PGSIZE, doFree);
        k := k + 1;
        a := a + PGSIZE;
      }
      ok := true;
    }

    /** kalloc for a user page with the given contents. */
    method TakePage(page: Page) returns (r: Option<nat>)
      requires Valid()
      modifies `freelist, `loose, `data
      ensures Valid() && loose == old(loose) && (r.None? <==> old(freelist) == [])
      ensures r.None? ==> data == old(data) && freelist == old(freelist)
      ensures r.Some? ==> |freelist| == |old(freelist)| - 1
      ensures r.Some? ==> r.value !in old(data) && r.value !in owner && data == old(data)[r.value := page]
    {
      hide PlaceOk, Refines, TreesOk;
      r := Kalloc();
      if r.Some? {
        assert r.value in loose && r.value !in data.Keys;
        data := data[r.value := page];
        loose := loose - {r.value};
        assert data.Keys == old(data.Keys) + {r.value};
      }
    }

    /** uvmdealloc; the panic of uvmunmap, at a page that is not mapped, is a false ok. */
    method Uvmdealloc(root: nat, oldsz: nat, newsz: nat) returns (sz: nat, ok: bool)
      requires Valid() && IsRoot(T(), root)
      requires newsz < oldsz ==> Dealloc(root, oldsz, newsz) !! kern
      modifies `freelist, `loose, `tables, `roles, `data, `flat, `owner, `kern
      ensures Valid() && loose == old(loose) && roles == old(roles) && kern == old(kern)
      ensures ok <==> newsz < oldsz ==> Dealloc(root, oldsz, newsz) <= old(flat.Keys)
      ensures sz == if newsz >= oldsz then oldsz else newsz
      ensures newsz >= oldsz ==> flat == old(flat) && data == old(data) && owner == old(owner)
      ensures newsz < oldsz && ok ==>
                var ks := Dealloc(root, oldsz, newsz);
                && flat == old(flat) - ks
                && data == old(data) - FramesOf(old(flat), ks) && owner == old(owner) - FramesOf(old(flat), ks)
    {
      hide Conserved, TreesOk, Refines, Exclusive, PgRoundUp;
      if newsz >= oldsz {
        return oldsz, true;
      }
      sz, ok := newsz, true;
      RoundUpAligned(newsz);
      if PgRoundUp(newsz) < PgRoundUp(oldsz) {
        var npages := (PgRoundUp(oldsz) - PgRoundUp(newsz)) / PGSIZE;
        ghost var k;
        ok, k := Uvmunmap(root, PgRoundUp(newsz), npages, true);
        KernApart(root, PgRoundUp(newsz) / PGSIZE, k, npages, old(kern));
      } else {
        assert Dealloc(root, oldsz, newsz) == {};
      }
    }

    /** kalloc, fill and mappages of one user page; nothing changed but perhaps interior
        tables when memory runs out, and the panic of mappages for a page that is mapped
        already or past MAXVA. */
    method AddPage(root: nat, vpn: nat, page: Page, perm: bv10) returns (r: MapResult, ghost mem: nat)
      requires Valid() && IsRoot(T(), root) && Pte(0, perm).Rwx()
      modifies `freelist, `loose, `tables, `roles, `data, `flat, `owner, `kern
      ensures Valid() && loose == old(loose) && kern == old(kern) && (forall q :: IsRoot(T(), q) <==> IsRoot(old(T()), q))
      ensures if Bad(old(flat), root, vpn) then !r.AllMapped? else !r.Panicked?
      ensures r.NoMemory? <==> |old(freelist)| < 1 + if Bad(old(flat), root, vpn) then 0 else |Way(root, vpn) - old(Have())|
      ensures r.AllMapped? ==>
                Have() == old(Have()) + Way(root, vpn) && |freelist| + 1 + |Way(root, vpn) - old(Have())| == |old(freelist)|
      ensures r.NoMemory? ==> flat == old(flat) && data == old(data) && owner == old(owner)
      ensures r.AllMapped? ==>
                && mem !in old(data) && mem !in old(owner)
                && flat == old(flat)[Vpage(root, vpn) := Pte(mem, perm | PTE_V)]
                && data == old(data)[mem := page] && owner == old(owner)[mem := Vpage(root, vpn)]
    {
      hide Conserved, PlaceOk, TreesOk, Refines, Exclusive, Have, Way;
      mem := 0;
      var pa := TakePage(page);
      if pa.None? {
        return NoMemory, mem;
      }
      mem := pa.value;
      r := MapPage(root, vpn, pa.value, perm, true);
      if r.NoMemory? {
        FreeData(pa.value);
      } else if r.AllMapped? {
        assert Have() - old(Have()) == Way(root, vpn) - old(Have());
      }
    }

    /** uvmalloc: grows by zeroed pages, or, if memory runs out, leaves mapping and user frames
        as they were. It succeeds exactly if the pages are unmapped and below MAXVA and there
        are frames for them and for the tables that are missing. The panic is that of
        mappages, at a page that is not so, and is met exactly if there are frames for
        the pages before it and one more. */
    method Uvmalloc(root: nat, oldsz: nat, newsz: nat, xperm: bv10) returns (sz: nat, r: MapResult)
      requires Valid() && IsRoot(T(), root)
      modifies `freelist, `loose, `tables, `roles, `data, `flat, `owner, `kern
      ensures Valid() && loose == old(loose) && kern == old(kern) && (forall q :: IsRoot(T(), q) <==> IsRoot(old(T()), q))
      ensures sz == if newsz < oldsz then oldsz else if r.AllMapped? then newsz else 0
      ensures newsz < oldsz ==> r.AllMapped?
      ensures newsz < oldsz || r.NoMemory? ==> flat == old(flat) && data == old(data) && owner == old(owner)
      ensures newsz >= oldsz ==>
                var v, n := PgRoundUp(oldsz) / PGSIZE, Growth(oldsz, newsz);
                && (r.AllMapped? <==>
                      Unmapped(old(flat), root, v, n) && Demand(old(Have()), root, v, n) <= |old(freelist)|)
                && (r.Panicked? <==> Panics(old(flat), old(Have()), |old(freelist)|, root, v, n))
      ensures newsz >= oldsz && r.AllMapped? ==>
                var ks := Pages(root, PgRoundUp(oldsz) / PGSIZE, Growth(oldsz, newsz));
                && Added(old(flat), old(data), old(owner), flat, data, owner, ks)
                && Filled(flat, data, ks, PTE_R | PTE_U | xperm | PTE_V, ZeroPage())
    {
      hide Conserved, PlaceOk, TreesOk, Refines, Exclusive, Added, Filled, Pages, FramesOf, PgRoundUp,
        Growth, Unmapped, Have, Demand, Ways, Panics, Bad;
      if newsz < oldsz {
        return oldsz, AllMapped;
      }
      RoundingDone(oldsz, newsz);
      var start := PgRoundUp(oldsz);
      ghost var v, k := start / PGSIZE, 0;
      GrowStart(flat, data, owner, root, v, PTE_R | PTE_U | xperm | PTE_V);
      KernMapped(flat, data.Keys, owner, kern);
      CostsNothing(root, v);
      var a := start;
      while a < newsz
        invariant a == (v + k) * PGSIZE && start == v * PGSIZE <= a <= PgRoundUp(newsz)
        invariant a < newsz || a == PgRoundUp(newsz)
        invariant Valid() && loose == old(loose) && kern == old(kern) && (forall q :: IsRoot(T(), q) <==> IsRoot(old(T()), q))
        invariant Grown(old(flat), old(data), old(owner), root, v, k, PTE_R | PTE_U | xperm)
        invariant Costs(old(Have()), |old(freelist)|, root, v, k)
        decreases newsz - a
      {
        Rounding(oldsz, newsz, a);
        r := GrowPage(root, a / PGSIZE, PTE_R | PTE_U | xperm, old(flat), old(data), old(owner),
                      old(Have()), |old(freelist)|, v, k);
        if !r.AllMapped? {
          GrowthAt(oldsz, newsz, v, k);
          Stopped(old(flat), old(Have()), |old(freelist)|, root, v, Growth(oldsz, newsz), k, r);
        }
        if r.Panicked? {
          return 0, r;
        }
        if r.NoMemory? {
          ShrinkBack(old(flat), old(data), old(owner), flat, data, owner, kern, root, v, k);
          RoundAligned(a);
          RoundAligned(start);
          var back, fine := Uvmdealloc(root, a, start);
          return 0, r;
        }
        k := k + 1;
        a := a + PGSIZE;
      }
      GrowthOf(oldsz, newsz, v, k);
      Through(old(flat), old(Have()), |old(freelist)|, root, v, k);
      sz, r := newsz, AllMapped;
    }

    /** Since flat0, data0 and owner0, k zeroed pages have been added from v on. */
    ghost predicate Grown(flat0: Flat, data0: map<nat, Page>, owner0: map<nat, Vpage>, root: nat, v: nat, k: nat, perm: bv10)
      reads this
    {
      && Unmapped(flat0, root, v, k) && Added(flat0, data0, owner0, flat, data, owner, Pages(root, v, k))
      && Pages(root, v, k) <= flat.Keys && Filled(flat, data, Pages(root, v, k), perm | PTE_V, ZeroPage())
    }

    /** Those pages and their tables have been paid for out of `free` frames. */
    ghost predicate Costs(have: set<Role>, free: nat, root: nat, v: nat, k: nat)
      reads `roles, `freelist
    {
      Have() == have + Ways(root, v, k) && |freelist| + Demand(have, root, v, k) == free
    }

    lemma CostsNothing(root: nat, v: nat)
      ensures Costs(Have(), |freelist|, root, v, 0)
    {
      assert Ways(root, v, 0) - Have() == {};
    }

    lemma Through(flat0: Flat, have: set<Role>, free: nat, root: nat, v: nat, n: nat)
      requires Costs(have, free, root, v, n) && Unmapped(flat0, root, v, n)
      ensures Demand(have, root, v, n) <= free && !Panics(flat0, have, free, root, v, n)
    {
      hide Demand, Ways;
    }

    /** One more. */
    method GrowPage(root: nat, vpn: nat, perm: bv10, ghost flat0: Flat, ghost data0: map<nat, Page>,
                    ghost owner0: map<nat, Vpage>, ghost have: set<Role>, ghost free: nat, ghost v: nat, ghost k: nat)
        returns (r: MapResult)
      requires Valid() && IsRoot(T(), root) && Pte(0, perm).Rwx() && vpn == v + k
      requires Grown(flat0, data0, owner0, root, v, k, perm) && Costs(have, free, root, v, k)
      modifies `freelist, `loose, `tables, `roles, `data, `flat, `owner, `kern
      ensures Valid() && loose == old(loose) && kern == old(kern) && (forall q :: IsRoot(T(), q) <==> IsRoot(old(T()), q))
      ensures r.AllMapped? ==> Grown(flat0, data0, owner0, root, v, k + 1, perm) && Costs(have, free, root, v, k + 1)
      ensures r.NoMemory? ==> flat == old(flat) && data == old(data) && owner == old(owner)
      ensures Outcome(flat0, have, free, root, v, k, r)
    {
      hide Conserved, PlaceOk, TreesOk, Refines, Exclusive, Added, Filled, Pages, FramesOf, Have, Way, Ways, Demand;
      ghost var f, d, o, mem := flat, data, owner, 0;
      GrowAt(flat0, data0, owner0, flat, data, owner, root, v, k);
      DemandNext(have, root, v, k);
      r, mem := AddPage(root, vpn, ZeroPage(), perm);
      if r.AllMapped? {
        GrowMore(flat0, data0, owner0, f, d, o, root, v, k, Pte(mem, perm | PTE_V), ZeroPage());
        assert have + Ways(root, v, k) + Way(root, v + k) == have + Ways(root, v, k + 1);
      }
    }

    /** freewalk: every table of the tree t below f goes back to the allocator,
        each once. The tables below f are still as in t. False is the panic at a leaf
        that is left. */
    method Freewalk(f: nat, ghost t: Trees) returns (ok: bool)
      requires TreesOk(t) && f in t.roles
      requires Conserved(frames, freelist, tables.Keys, data.Keys, loose)
      requires Subtree(t, f) <= tables.Keys && forall g :: g in Subtree(t, f) ==> tables[g] == t.tables[g]
      modifies `freelist, `loose, `tables
      ensures Conserved(frames, freelist, tables.Keys, data.Keys, loose) && loose == old(loose)
      ensures ok <==> NoLeaves(t, f)
      ensures ok ==> tables == old(tables) - Subtree(t, f)
      decreases Level(t.roles[f]), 1
    {
      hide Conserved, PlaceOk, NoLeaves, Subtree, BelowFirst, Leafless, SlotLeafless;
      SubtreeParts(t, f);
      LeaflessEnds(t, f);
      var i := 0;
      while i < 512
        invariant 0 <= i <= 512
        invariant Conserved(frames, freelist, tables.Keys, data.Keys, loose) && loose == old(loose)
        invariant f in tables && tables - {f} == old(tables) - {f} - BelowFirst(t, f, i)
        invariant forall j :: i <= j < 512 ==> tables[f][j] == t.tables[f][j]
        invariant Leafless(t, f, i)
      {
        LeaflessNext(t, f, i);
        ok := FreeSlot(f, i, t, old(tables));
        if !ok {
          return;
        }
        i := i + 1;
      }
      DropTable(frames, freelist, tables.Keys, data.Keys, loose, f);
      tables := tables - {f};
      loose := loose + {f};
      var fine := Kfree(f * PGSIZE);
      assert loose == old(loose);
      ok := true;
    }

    /** One entry of freewalk's loop. */
    method FreeSlot(f: nat, i: nat, ghost t: Trees, ghost was: map<nat, Table>) returns (ok: bool)
      requires TreesOk(t) && f in t.roles && i < 512
      requires Conserved(frames, freelist, tables.Keys, data.Keys, loose)
      requires Subtree(t, f) <= was.Keys && forall g :: g in Subtree(t, f) ==> was[g] == t.tables[g]
      requires f in tables && tables - {f} == was - {f} - BelowFirst(t, f, i)
      requires forall j :: i <= j < 512 ==> tables[f][j] == t.tables[f][j]
      modifies `freelist, `loose, `tables
      ensures Conserved(frames, freelist, tables.Keys, data.Keys, loose) && loose == old(loose)
      ensures ok <==> SlotLeafless(t, f, i)
      ensures ok ==> f in tables && tables - {f} == was - {f} - BelowFirst(t, f, i + 1)
      ensures ok ==> forall j :: i < j < 512 ==> tables[f][j] == t.tables[f][j]
      decreases Level(t.roles[f]), 0
    {
      hide Conserved, TreesOk, NoLeaves, Subtree, BelowFirst;
      var pte := tables[f][i];
      EntryKind(t, f, i);
      if pte.V() && !pte.Rwx() {
        ChildSubtree(t, f, i, was, tables);
        ok := Freewalk(pte.ppn, t);
        if !ok {
          return;
        }
        tables := tables[f := tables[f][i := NoPte()]];
        assert tables.Keys == (old(tables) - Subtree(t, pte.ppn)).Keys;
        assert tables - {f} == old(tables) - {f} - Subtree(t, pte.ppn);
        assert was - {f} - BelowFirst(t, f, i) - Subtree(t, pte.ppn) == was - {f} - (BelowFirst(t, f, i) + Subtree(t,
            pte.ppn));
      } else if pte.V() {
        return false;
      }
      ok := true;
    }

    /** uvmcreate: an empty address space. */
    method Uvmcreate() returns (r: Option<nat>)
      requires Valid()
      modifies `freelist, `loose, `tables, `roles
      ensures Valid() && loose == old(loose) && (r.None? <==> old(freelist) == [])
      ensures r.None? ==> T() == old(T()) && freelist == old(freelist)
      ensures r.Some? ==>
                && r.value !in old(roles) && roles == old(roles)[r.value := Root]
                && forall k :: k in flat ==> k.root != r.value
    {
      hide PlaceOk, Lookup, Refines, Exclusive, Conserved;
      r := Kalloc();
      if r.Some? {
        LinkConserved(frames, freelist, tables.Keys, data.Keys, loose, r.value);
        NewRoot(T(), r.value, flat);
        tables := tables[r.value := EmptyTable()];
        roles := roles[r.value := Root];
        loose := loose - {r.value};
        assert tables.Keys == old(tables.Keys) + {r.value};
      }
    }

    /** uvmfree: the user pages and every table of the address space are freed. False is one of
        the panics, at a page below sz that is not mapped or at one past it that is. */
    method Uvmfree(root: nat, sz: nat) returns (ok: bool)
      requires Valid() && IsRoot(T(), root) && Pages(root, 0, PgRoundUp(sz) / PGSIZE) !! kern
      modifies `freelist, `loose, `tables, `roles, `data, `flat, `owner, `kern
      ensures Conserved(frames, freelist, tables.Keys, data.Keys, loose) && loose == old(loose) && kern == old(kern)
      ensures ok <==> forall v: nat :: v < PgRoundUp(sz) / PGSIZE <==> Vpage(root, v) in old(flat)
      ensures ok ==> Valid() && roles == old(roles) - Subtree(old(T()), root)
      ensures ok ==> flat == old(flat) - Pages(root, 0, PgRoundUp(sz) / PGSIZE) && forall k :: k in flat ==> k.root != root
      ensures ok ==> data == old(data) - FramesOf(old(flat), Pages(root, 0, PgRoundUp(sz) / PGSIZE))
      ensures ok ==> owner == old(owner) - FramesOf(old(flat), Pages(root, 0, PgRoundUp(sz) / PGSIZE))
    {
      hide Conserved, PlaceOk, Refines, Exclusive, Lookup, LowFor, PgRoundUp, NoLeaves, Subtree, FramesOf, TreesOk;
      ghost var n := PgRoundUp(sz) / PGSIZE;
      if sz > 0 {
        ghost var k;
        ok, k := Uvmunmap(root, 0, PgRoundUp(sz) / PGSIZE, true);
        KernApart(root, 0, k, n, old(kern));
        if !ok {
          assert Vpage(root, k) !in old(flat);
          return;
        }
      } else {
        RoundAligned(0);
        NoPages(flat, owner, data, root, 0);
      }
      assert forall v: nat :: v < n ==> Vpage(root, v) in Pages(root, 0, n);
      SubtreeSame(old(T()), T(), root);
      ok := FreeTree(root);
    }

    method FreeTree(root: nat) returns (ok: bool)
      requires Valid() && IsRoot(T(), root)
      modifies `freelist, `loose, `tables, `roles
      ensures Conserved(frames, freelist, tables.Keys, data.Keys, loose) && loose == old(loose)
      ensures ok <==> forall k :: k in flat ==> k.root != root
      ensures ok ==> Valid() && roles == old(roles) - Subtree(old(T()), root)
    {
      hide Conserved, PlaceOk, Exclusive, Lookup, LowFor, NoLeaves, Subtree;
      ghost var t := T();
      UnmappedNoLeaves(t, root, flat);
      SubtreeTables(t, root);
      ok := Freewalk(root, t);
      if ok {
        RemoveTree(t, root);
        RefinesWithout(t, root, flat);
        roles := roles - Subtree(t, root);
      }
    }

    /** uvmcopy: the pages of `from` below sz are copied to fresh frames in `to`, or, if memory
        runs out, `to` is left as it was. It succeeds exactly if `from` has the pages, `to`
        does not, and there are frames for them and for the tables that `to` lacks. A
        panic, at a page that `from` does not have or that `to` has already, is met
        exactly if there are frames for the pages before it, and one more in the
        second case. */
    method Uvmcopy(from: nat, to: nat, sz: nat) returns (r: MapResult)
      requires Valid() && IsRoot(T(), from) && IsRoot(T(), to) && Pages(from, 0, PgRoundUp(sz) / PGSIZE) !! kern
      modifies `freelist, `loose, `tables, `roles, `data, `flat, `owner, `kern
      ensures Valid() && loose == old(loose) && kern == old(kern) && (forall q :: IsRoot(T(), q) <==> IsRoot(old(T()), q))
      ensures r.NoMemory? ==> flat == old(flat) && data == old(data) && owner == old(owner)
      ensures var n := PgRoundUp(sz) / PGSIZE;
              && (r.AllMapped? <==>
                    && Present(old(flat), from, 0, n) && Unmapped(old(flat), to, 0, n)
                    && Demand(old(Have()), to, 0, n) <= |old(freelist)|)
              && (r.Panicked? <==> CopyPanics(old(flat), old(Have()), |old(freelist)|, from, to, n))
      ensures r.AllMapped? ==>
                && Added(old(flat), old(data), old(owner), flat, data, owner, Pages(to, 0, PgRoundUp(sz) / PGSIZE))
                && Copied(flat, data, from, to, PgRoundUp(sz) / PGSIZE)
    {
      hide Conserved, PlaceOk, TreesOk, Refines, Exclusive, Added, Copied, Pages, FramesOf, PgRoundUp, Have, Demand, Ways,
        Present, Unmapped, CopyPanics, CopyOutcome;
      RoundAligned(0);
      RoundingDone(0, sz);
      ghost var n := PgRoundUp(sz) / PGSIZE;
      CopyStart(flat, data, owner, from, to);
      KernMapped(flat, data.Keys, owner, kern);
      CostsNothing(to, 0);
      ghost var k := 0;
      var i := 0;
      while i < sz
        invariant i == k * PGSIZE <= PgRoundUp(sz) == n * PGSIZE && (i < sz || i == PgRoundUp(sz))
        invariant Valid() && loose == old(loose) && kern == old(kern) && (forall q :: IsRoot(T(), q) <==> IsRoot(old(T()), q))
        invariant Copying(old(flat), old(data), old(owner), from, to, k)
        invariant Costs(old(Have()), |old(freelist)|, to, 0, k)
        decreases sz - i
      {
        Rounding(0, sz, i);
        SourcePage(old(flat), old(data), old(owner), kern, flat, data, owner, from, to, k, n);
        r := CopyNext(from, to, i / PGSIZE, old(flat), old(data), old(owner), old(Have()), |old(freelist)|);
        if !r.AllMapped? {
          CopyStopped(old(flat), old(Have()), |old(freelist)|, from, to, n, k, r);
        }
        if r.Panicked? {
          return;
        }
        if r.NoMemory? {
          ShrinkBack(old(flat), old(data), old(owner), flat, data, owner, kern, to, 0, k);
          ghost var gone;
          var ok;
          ok, gone := Uvmunmap(to, 0, i / PGSIZE, true);
          return;
        }
        k := k + 1;
        i := i + PGSIZE;
      }
      CopiedAll(old(flat), old(Have()), |old(freelist)|, from, to, k);
      r := AllMapped;
    }

    /** Since flat0, data0 and owner0, k pages have been copied. */
    ghost predicate Copying(flat0: Flat, data0: map<nat, Page>, owner0: map<nat, Vpage>, from: nat, to: nat, k: nat)
      reads this
    {
      && Present(flat0, from, 0, k) && Unmapped(flat0, to, 0, k) && (k > 0 ==> from != to)
      && Added(flat0, data0, owner0, flat, data, owner, Pages(to, 0, k)) && Copied(flat, data, from, to, k)
    }

    lemma CopiedAll(flat0: Flat, have: set<Role>, free: nat, from: nat, to: nat, n: nat)
      requires Costs(have, free, to, 0, n) && Present(flat0, from, 0, n) && Unmapped(flat0, to, 0, n)
      ensures Demand(have, to, 0, n) <= free && !CopyPanics(flat0, have, free, from, to, n)
    {
      hide Demand, Ways;
    }

    /** The next one. */
    method CopyNext(from: nat, to: nat, vpn: nat, ghost flat0: Flat, ghost data0: map<nat, Page>, ghost owner0: map<nat, Vpage>,
                    ghost have: set<Role>, ghost free: nat)
        returns (r: MapResult)
      requires Valid() && IsRoot(T(), from) && IsRoot(T(), to)
      requires Vpage(from, vpn) in flat <==> Vpage(from, vpn) in flat0
      requires Vpage(from, vpn) in flat ==> flat[Vpage(from, vpn)].ppn in data
      requires Copying(flat0, data0, owner0, from, to, vpn) && Costs(have, free, to, 0, vpn)
      modifies `freelist, `loose, `tables, `roles, `data, `flat, `owner, `kern
      ensures Valid() && loose == old(loose) && kern == old(kern) && (forall q :: IsRoot(T(), q) <==> IsRoot(old(T()), q))
      ensures r.AllMapped? ==> Copying(flat0, data0, owner0, from, to, vpn + 1) && Costs(have, free, to, 0, vpn + 1)
      ensures r.NoMemory? ==> flat == old(flat) && data == old(data) && owner == old(owner)
      ensures CopyOutcome(flat0, have, free, from, to, vpn, r)
    {
      hide Conserved, PlaceOk, TreesOk, Refines, Exclusive, Added, Copied, Pages, FramesOf, Have, Way, Ways, Demand;
      ghost var f, d, o, mem := flat, data, owner, 0;
      GrowAt(flat0, data0, owner0, flat, data, owner, to, 0, vpn);
      DemandNext(have, to, 0, vpn);
      r, mem := CopyPage(from, to, vpn);
      if r.AllMapped? {
        CopyMore(flat0, data0, owner0, f, d, o, from, to, vpn, mem);
        assert have + Ways(to, 0, vpn) + Way(to, vpn) == have + Ways(to, 0, vpn + 1);
      }
    }

    /** One page of uvmcopy: walk, kalloc, memmove and mappages with the same flags. */
    method CopyPage(from: nat, to: nat, vpn: nat) returns (r: MapResult, ghost mem: nat)
      requires Valid() && IsRoot(T(), from) && IsRoot(T(), to)
      requires Vpage(from, vpn) in flat ==> flat[Vpage(from, vpn)].ppn in data
      modifies `freelist, `loose, `tables, `roles, `data, `flat, `owner, `kern
      ensures Valid() && loose == old(loose) && kern == old(kern) && (forall q :: IsRoot(T(), q) <==> IsRoot(old(T()), q))
      ensures Vpage(from, vpn) !in old(flat) ==> r.Panicked?
      ensures Vpage(from, vpn) in old(flat) ==>
                && (if Bad(old(flat), to, vpn) then !r.AllMapped? else !r.Panicked?)
                && (r.NoMemory? <==>
                      |old(freelist)| < 1 + if Bad(old(flat), to, vpn) then 0 else |Way(to, vpn) - old(Have())|)
      ensures r.AllMapped? ==>
                Have() == old(Have()) + Way(to, vpn) && |freelist| + 1 + |Way(to, vpn) - old(Have())| == |old(freelist)|
      ensures r.NoMemory? ==> flat == old(flat) && data == old(data) && owner == old(owner)
      ensures r.AllMapped? ==>
                var e := old(flat)[Vpage(from, vpn)];
                && mem !in old(data) && mem !in old(owner)
                && flat == old(flat)[Vpage(to, vpn) := Pte(mem, e.flags)]
                && data == old(data)[mem := old(data)[e.ppn]] && owner == old(owner)[mem := Vpage(to, vpn)]
    {
      hide Conserved, PlaceOk, Exclusive, TreesOk, Refines, LowFor, Lookup, Have, Way;
      mem := 0;
      var mapped := IsMapped(from, vpn);
      if !mapped {
        return Panicked, mem;
      }
      MappedIsLeaf(T(), from, vpn, flat);
      MappedHasLow(T(), from, vpn, flat);
      var loc := Walk(from, vpn, false);
      var pte := tables[loc.value][Px0(vpn)];
      FlagsHaveV(pte);
      r, mem := AddPage(to, vpn, data[pte.ppn], pte.flags);
    }

    /** copyout: stores src at dstva, page by page; `done` bytes have been stored
        when it stops, at the first page that is not writable by the user. */
    method Copyout(root: nat, dstva: nat, src: seq<Byte>) returns (ok: bool, ghost done: nat)
      requires Valid() && IsRoot(T(), root)
      modifies `freelist, `loose, `tables, `roles, `data
      ensures Valid() && T() == old(T()) && freelist == old(freelist) && loose == old(loose)
      ensures done <= |src| && ok == (done == |src|)
      ensures !ok ==> !Writable(flat, root, dstva + done)
      ensures forall j :: dstva <= j < dstva + done ==> Writable(flat, root, j)
      ensures StoredAt(flat, kern, old(data), data, root, dstva, src[..done])
    {
      hide Conserved, PlaceOk, TreesOk, Refines, Exclusive, StoredAt, Writable, PageOf;
      StoreNothing(flat, kern, data, root, dstva);
      assert src[..0] == [];
      var va, len := dstva, |src|;
      done := 0;
      while len > 0
        invariant done <= |src| && len == |src| - done && va == dstva + done
        invariant Valid() && T() == old(T()) && freelist == old(freelist) && loose == old(loose)
        invariant forall j :: dstva <= j < va ==> Writable(flat, root, j)
        invariant StoredAt(flat, kern, old(data), data, root, dstva, src[..done])
        decreases len
      {
        var n := if PGSIZE - va % PGSIZE > len then len else PGSIZE - va % PGSIZE;
        var at := |src| - len;
        var stored := CopyoutPage(root, va, src[at..at + n], old(data), dstva, src[..done]);
        if !stored {
          return false, done;
        }
        assert src[..done] + src[done..done + n] == src[..done + n];
        len := len - n;
        va := va + n;
        done := done + n;
      }
      ok := true;
    }

    /** One iteration of copyout's loop. */
    method CopyoutPage(root: nat, va: nat, piece: seq<Byte>, ghost data0: map<nat, Page>, ghost dstva: nat,
        ghost bytes: seq<Byte>)
        returns (ok: bool)
      requires Valid() && IsRoot(T(), root) && va % PGSIZE + |piece| <= PGSIZE && va == dstva + |bytes|
      requires StoredAt(flat, kern, data0, data, root, dstva, bytes)
      modifies `freelist, `loose, `tables, `roles, `data
      ensures Valid() && T() == old(T()) && freelist == old(freelist) && loose == old(loose)
      ensures !ok ==> !Writable(flat, root, va)
      ensures ok ==> forall j :: va <= j < va + |piece| ==> Writable(flat, root, j)
      ensures StoredAt(flat, kern, data0, data, root, dstva, if ok then bytes + piece else bytes)
    {
      hide Conserved, TreesOk, Refines, Exclusive, StoredAt;
      if va / PGSIZE * PGSIZE >= MAXVA {
        BeyondMaxva(T(), flat, root, va / PGSIZE);
        return false;
      }
      var pte := LookupPte(root, va / PGSIZE);
      if !(pte.V() && pte.U() && pte.W()) {
        return false;
      }
      StoreMore(flat, owner, kern, data0, data, root, dstva, bytes, va, pte.ppn, piece);
      data := data[pte.ppn := Patch(data[pte.ppn], va % PGSIZE, piece)];
      assert data.Keys == old(data.Keys);
      SamePage(va, |piece|);
      ok := true;
    }

    /** *walk(root, va, 0), or an invalid entry when walk returns 0. */
    method LookupPte(root: nat, vpn: nat) returns (pte: Pte)
      requires Valid() && IsRoot(T(), root) && vpn < NVPN
      modifies `freelist, `loose, `tables, `roles
      ensures Valid() && T() == old(T()) && freelist == old(freelist) && loose == old(loose)
      ensures pte.V() <==> Vpage(root, vpn) in flat
      ensures pte.V() ==> pte == flat[Vpage(root, vpn)]
    {
      hide Conserved, Exclusive, PlaceOk, LowFor;
      assert Lookup(T(), root, vpn) == if Vpage(root, vpn) in flat then Some(flat[Vpage(root, vpn)]) else None;
      var loc := Walk(root, vpn, false);
      pte := if loc.None? then NoPte() else tables[loc.value][Px0(vpn)];
    }

    /** copyin: the user's bytes, or None when some page of the range is not
        readable by the user. */
    method Copyin(root: nat, srcva: nat, len: nat) returns (r: Option<seq<Byte>>)
      requires Valid() && IsRoot(T(), root)
      modifies `freelist, `loose, `tables, `roles
      ensures Valid() && T() == old(T()) && freelist == old(freelist) && loose == old(loose)
      ensures r.Some? <==> forall j :: srcva <= j < srcva + len ==> Readable(flat, root, j)
      ensures r.Some? ==> |r.value| == len && forall j :: 0 <= j < len ==> r.value[j] == UserByte(flat, data, root,
          srcva + j)
    {
      hide Conserved, PlaceOk, TreesOk, Refines, Exclusive, Readable, UserByte, PageOf;
      var dst, va, left := [], srcva, len;
      while left > 0
        invariant 0 <= left <= len && va == srcva + (len - left) && |dst| == len - left
        invariant Valid() && T() == old(T()) && freelist == old(freelist) && loose == old(loose)
        invariant forall j :: srcva <= j < va ==> Readable(flat, root, j)
        invariant forall j :: 0 <= j < |dst| ==> dst[j] == UserByte(flat, data, root, srcva + j)
        decreases left
      {
        var n := if PGSIZE - va % PGSIZE > left then left else PGSIZE - va % PGSIZE;
        var piece := CopyinPage(root, va, n);
        if piece.None? {
          return None;
        }
        dst := dst + piece.value;
        left := left - n;
        va := va + n;
      }
      r := Some(dst);
    }

    /** One iteration of copyin's loop; walkaddr's frame 0 is never mapped. */
    method CopyinPage(root: nat, va: nat, n: nat) returns (r: Option<seq<Byte>>)
      requires Valid() && IsRoot(T(), root) && va % PGSIZE + n <= PGSIZE
      modifies `freelist, `loose, `tables, `roles
      ensures Valid() && T() == old(T()) && freelist == old(freelist) && loose == old(loose)
      ensures r.None? ==> !Readable(flat, root, va)
      ensures r.Some? ==>
                && (forall j :: va <= j < va + n ==> Readable(flat, root, j))
                && |r.value| == n && forall j :: 0 <= j < n ==> r.value[j] == UserByte(flat, data, root, va + j)
    {
      hide Conserved, TreesOk, Refines, Exclusive;
      if va / PGSIZE * PGSIZE >= MAXVA {
        BeyondMaxva(T(), flat, root, va / PGSIZE);
        return None;
      }
      var pte := LookupPte(root, va / PGSIZE);
      if !(pte.V() && pte.U()) {
        return None;
      }
      var pa0 := pte.ppn;
      UserFrame(frames, freelist, tables.Keys, data.Keys, loose, flat, owner, kern, Vpage(root, va / PGSIZE));
      if pa0 == 0 {
        assert false;
      }
      SamePage(va, n);
      r := Some(data[pa0][va % PGSIZE..va % PGSIZE + n]);
    }

    /** copyout then copyin over the same range gives the same bytes. */
    method CopyRoundTrip(root: nat, va: nat, src: seq<Byte>) returns (r: Option<seq<Byte>>)
      requires Valid() && IsRoot(T(), root)
      modifies `freelist, `loose, `tables, `roles, `data
      ensures r.Some? <==> forall j :: va <= j < va + |src| ==> Writable(flat, root, j)
      ensures r.Some? ==> r.value == src
    {
      hide Conserved, PlaceOk, TreesOk, Refines;
      var ok;
      ghost var done;
      ok, done := Copyout(root, va, src);
      if !ok {
        return None;
      }
      assert src[..done] == src;
      r := Copyin(root, va, |src|);
      forall j | va <= j < va + |src|
        ensures Readable(flat, root, j) && Vpage(root, PageOf(j)) !in kern
      {
        assert Writable(flat, root, j);
      }
      assert r.value == src;
    }
  }

  lemma BeyondMaxva(t: Trees, flat: Flat, root: nat, vpn: nat)
    requires TreesOk(t) && Refines(t, flat) && vpn >= NVPN
    ensures Vpage(root, vpn) !in flat
  {
  }

  /** A page the user can reach is on a frame of the allocator, never frame 0. */
  lemma UserFrame(frames: set<nat>, free: seq<nat>, tables: set<nat>, data: set<nat>, loose: set<nat>,
                  flat: Flat, owner: map<nat, Vpage>, kern: set<Vpage>, k: Vpage)
    requires Conserved(frames, free, tables, data, loose) && Exclusive(flat, data, owner, kern)
    requires k in flat && flat[k].U()
    ensures flat[k].ppn in data && flat[k].ppn != 0
  {
  }

  lemma SamePage(va: nat, n: nat)
    requires va % PGSIZE + n <= PGSIZE
    ensures forall j :: va <= j < va + n ==> PageOf(j) == PageOf(va) && j % PGSIZE == va % PGSIZE + (j - va)
  {
  }

  lemma StoreNothing(flat: Flat, kern: set<Vpage>, data: map<nat, Page>, root: nat, va: nat)
    ensures StoredAt(flat, kern, data, data, root, va, [])
  {
  }

  lemma MappedIsLeaf(t: Trees, root: nat, vpn: nat, flat: Flat)
    requires TreesOk(t) && Refines(t, flat) && IsRoot(t, root) && vpn < NVPN && Vpage(root, vpn) in flat
    ensures flat[Vpage(root, vpn)].V() && flat[Vpage(root, vpn)].Rwx()
  {
    MappedHasLow(t, root, vpn, flat);
    assert PlaceOk(t, LowFor(t, root, vpn).value);
  }

  lemma CopyStart(flat: Flat, data: map<nat, Page>, owner: map<nat, Vpage>, from: nat, to: nat)
    ensures Added(flat, data, owner, flat, data, owner, Pages(to, 0, 0)) && Copied(flat, data, from, to, 0)
    ensures Present(flat, from, 0, 0) && Unmapped(flat, to, 0, 0)
  {
    assert Pages(to, 0, 0) == {};
    AddedNone(flat, data, owner);
  }

  lemma SourcePage(flat0: Flat, data0: map<nat, Page>, owner0: map<nat, Vpage>, kern: set<Vpage>,
                   flat: Flat, data: map<nat, Page>, owner: map<nat, Vpage>, from: nat, to: nat, k: nat, n: nat)
    requires Exclusive(flat0, data0.Keys, owner0, kern) && Pages(from, 0, n) !! kern && k < n
    requires Added(flat0, data0, owner0, flat, data, owner, Pages(to, 0, k))
    ensures Vpage(from, k) in flat <==> Vpage(from, k) in flat0
    ensures Vpage(from, k) in flat ==> flat[Vpage(from, k)].ppn in data
  {
    assert Vpage(from, k) in Pages(from, 0, n);
    assert Vpage(from, k) !in Pages(to, 0, k);
    assert Vpage(from, k) in flat <==> Vpage(from, k) in flat - Pages(to, 0, k);
    if Vpage(from, k) in flat {
      AddedKeeps(flat0, data0, owner0, flat, data, owner, Pages(to, 0, k), Vpage(from, k));
    }
  }

  lemma CopyMore(flat0: Flat, data0: map<nat, Page>, owner0: map<nat, Vpage>,
                 flat: Flat, data: map<nat, Page>, owner: map<nat, Vpage>, from: nat, to: nat, k: nat, f: nat)
    requires Added(flat0, data0, owner0, flat, data, owner, Pages(to, 0, k)) && Copied(flat, data, from, to, k)
        && from != to
    requires Vpage(from, k) in flat && flat[Vpage(from, k)].ppn in data
    requires Vpage(to, k) !in flat && f !in data && f !in owner
    ensures var e := flat[Vpage(from, k)];
            var key := Vpage(to, k);
            && Added(flat0, data0, owner0, flat[key := Pte(f, e.flags)], data[f := data[e.ppn]], owner[f := key],
                Pages(to, 0, k + 1))
            && Copied(flat[key := Pte(f, e.flags)], data[f := data[e.ppn]], from, to, k + 1)
  {
    var e := flat[Vpage(from, k)];
    assert Pages(to, 0, k + 1) == Pages(to, 0, k) + {Vpage(to, k)};
    AddedMore(flat0, data0, owner0, flat, data, owner, Pages(to, 0, k), Vpage(to, k), Pte(f, e.flags), data[e.ppn]);
    CopiedMore(flat, data, from, to, k, f);
  }

  lemma NewRoot(t: Trees, f: nat, flat: Flat)
    requires TreesOk(t) && Refines(t, flat) && f !in t.roles
    ensures var u := Trees(t.tables[f := EmptyTable()], t.roles[f := Root]);
            TreesOk(u) && Refines(u, flat) && forall k :: k in flat ==> k.root != f
  {
    var u := Trees(t.tables[f := EmptyTable()], t.roles[f := Root]);
    forall g | g in u.roles
      ensures PlaceOk(u, g)
    {
      if g != f {
        assert PlaceOk(t, g);
      }
    }
    forall r, vpn | IsRoot(u, r) && 0 <= vpn < NVPN
      ensures Lookup(u, r, vpn) == if Vpage(r, vpn) in flat then Some(flat[Vpage(r, vpn)]) else None
    {
      if r != f {
        assert PlaceOk(t, r);
        assert Lookup(u, r, vpn) == Lookup(t, r, vpn);
      }
    }
  }

  lemma SubtreeSame(t: Trees, u: Trees, f: nat)
    requires t.roles == u.roles && f in t.roles
    ensures Subtree(t, f) == Subtree(u, f)
  {
    assert forall g, i :: Below(t, f, i, g) <==> Below(u, f, i, g);
  }

  lemma SubtreeTables(t: Trees, f: nat)
    requires TreesOk(t) && f in t.roles
    ensures Subtree(t, f) <= t.tables.Keys
  {
  }

  /** With no page mapped, and only then, no level-0 table of the tree has a valid entry. */
  lemma UnmappedNoLeaves(t: Trees, root: nat, flat: Flat)
    requires TreesOk(t) && IsRoot(t, root) && Refines(t, flat)
    ensures NoLeaves(t, root) <==> forall k :: k in flat ==> k.root != root
  {
    if forall k :: k in flat ==> k.root != root {
      forall g, i | g in Subtree(t, root) && g in t.roles && t.roles[g].Low? && 0 <= i < 512
        ensures !t.tables[g][i].V()
      {
        EmptyLow(t, root, flat, g, i);
      }
    }
    forall k | k in flat && k.root == root
      ensures !NoLeaves(t, root)
    {
      MappedLeaf(t, root, flat, k);
    }
  }

  lemma EmptyLow(t: Trees, root: nat, flat: Flat, g: nat, i: nat)
    requires TreesOk(t) && IsRoot(t, root) && Refines(t, flat) && forall k :: k in flat ==> k.root != root
    requires g in Subtree(t, root) && g in t.roles && t.roles[g].Low? && i < 512
    ensures !t.tables[g][i].V()
  {
    InSubtree(t, root, g);
    assert PlaceOk(t, g);
    var Low(_, i2, i1) := t.roles[g];
    var vpn := i2 * 0x4_0000 + i1 * 512 + i;
    PxOf(i2, i1, i);
    assert LowFor(t, root, vpn) == Some(g);
    assert Lookup(t, root, vpn) == None;
  }

  lemma MappedLeaf(t: Trees, root: nat, flat: Flat, k: Vpage)
    requires TreesOk(t) && IsRoot(t, root) && Refines(t, flat) && k in flat && k.root == root
    ensures !NoLeaves(t, root)
  {
    hide Subtree;
    MappedHasLow(t, root, k.vpn, flat);
    MappedIsLeaf(t, root, k.vpn, flat);
    var g := LowFor(t, root, k.vpn).value;
    InSubtree(t, root, g);
    assert t.tables[g][Px0(k.vpn)].V();
  }

  lemma PxOf(i2: nat, i1: nat, i0: nat)
    requires i2 < 256 && i1 < 512 && i0 < 512
    ensures var vpn := i2 * 0x4_0000 + i1 * 512 + i0;
            vpn < NVPN && Px2(vpn) == i2 && Px1(vpn) == i1 && Px0(vpn) == i0
  {
    var vpn := i2 * 0x4_0000 + i1 * 512 + i0;
    assert vpn / 512 == i2 * 512 + i1;
  }

  lemma RefinesWithout(t: Trees, root: nat, flat: Flat)
    requires TreesOk(t) && IsRoot(t, root) && Refines(t, flat) && forall k :: k in flat ==> k.root != root
    requires TreesOk(Trees(t.tables - Subtree(t, root), t.roles - Subtree(t, root)))
    ensures Refines(Trees(t.tables - Subtree(t, root), t.roles - Subtree(t, root)), flat)
  {
    hide PlaceOk, Lookup, LowFor, Subtree;
    RemoveTree(t, root);
  }

  lemma DropTable(frames: set<nat>, free: seq<nat>, tables: set<nat>, data: set<nat>, loose: set<nat>, f: nat)
    requires Conserved(frames, free, tables, data, loose) && f in tables
    ensures f in frames && f !in loose && Conserved(frames, free, tables - {f}, data, loose + {f})
  {
  }

  lemma SubtreeParts(t: Trees, f: nat)
    requires f in t.roles
    ensures f in Subtree(t, f) && BelowFirst(t, f, 0) == {} && Subtree(t, f) == BelowFirst(t, f, 512) + {f}
    ensures f !in BelowFirst(t, f, 512)
  {
  }

  /** No leaf below f through its first n slots, or in them. */
  ghost predicate Leafless(t: Trees, f: nat, n: nat)
    requires TreesOk(t) && f in t.roles && n <= 512
  {
    && (forall g, i :: g in BelowFirst(t, f, n) && t.roles[g].Low? && 0 <= i < 512 ==> !t.tables[g][i].V())
    && (t.roles[f].Low? ==> forall i :: 0 <= i < n ==> !t.tables[f][i].V())
  }

  ghost predicate SlotLeafless(t: Trees, f: nat, i: nat)
    requires TreesOk(t) && f in t.roles && i < 512
  {
    var e := t.tables[f][i];
    e.V() ==> !e.Rwx() && e.ppn in t.roles && NoLeaves(t, e.ppn)
  }

  lemma LeaflessEnds(t: Trees, f: nat)
    requires TreesOk(t) && f in t.roles
    ensures Leafless(t, f, 0) && (Leafless(t, f, 512) <==> NoLeaves(t, f))
  {
    assert PlaceOk(t, f);
  }

  lemma LeaflessNext(t: Trees, f: nat, i: nat)
    requires TreesOk(t) && f in t.roles && i < 512
    ensures Leafless(t, f, i + 1) <==> Leafless(t, f, i) && SlotLeafless(t, f, i)
    ensures NoLeaves(t, f) ==> Leafless(t, f, i + 1)
  {
    assert PlaceOk(t, f);
    if !t.roles[f].Low? {
      BelowNext(t, f, i);
      BelowGrows(t, f, i + 1);
    }
  }

  /** A valid entry of an interior table points to a table, one of a level-0 table to a page. */
  lemma EntryKind(t: Trees, f: nat, i: nat)
    requires TreesOk(t) && f in t.roles && i < 512
    ensures t.tables[f][i].V() ==> (t.roles[f].Low? <==> t.tables[f][i].Rwx())
    ensures !t.tables[f][i].V() ==> BelowFirst(t, f, i + 1) == BelowFirst(t, f, i)
  {
    assert PlaceOk(t, f);
    if !t.tables[f][i].V() && !t.roles[f].Low? {
      BelowNext(t, f, i);
    }
  }

  lemma BelowGrows(t: Trees, f: nat, n: nat)
    requires f in t.roles && n <= 512
    ensures BelowFirst(t, f, n) <= Subtree(t, f)
  {
  }

  lemma ChildSubtree(t: Trees, f: nat, i: nat, was: map<nat, Table>, now: map<nat, Table>)
    requires TreesOk(t) && f in t.roles && i < 512 && !t.roles[f].Low? && t.tables[f][i].V()
    requires Subtree(t, f) <= was.Keys && forall g :: g in Subtree(t, f) ==> was[g] == t.tables[g]
    requires now - {f} == was - {f} - BelowFirst(t, f, i)
    ensures var c := t.tables[f][i].ppn;
            && c in t.roles && Level(t.roles[c]) == Level(t.roles[f]) - 1 && f !in Subtree(t, c)
            && Subtree(t, c) <= now.Keys && (forall g :: g in Subtree(t, c) ==> now[g] == t.tables[g])
            && BelowFirst(t, f, i + 1) == BelowFirst(t, f, i) + Subtree(t, c)
  {
    BelowNext(t, f, i);
    BelowGrows(t, f, i + 1);
    var c := t.tables[f][i].ppn;
    forall g | g in Subtree(t, c)
      ensures g in now && now[g] == t.tables[g]
    {
      assert g in was - {f} - BelowFirst(t, f, i);
      assert g in now - {f};
      assert now[g] == (now - {f})[g];
    }
  }

  lemma GrowStart(flat: Flat, data: map<nat, Page>, owner: map<nat, Vpage>, root: nat, v: nat, flags: bv10)
    ensures Pages(root, v, 0) <= flat.Keys && Added(flat, data, owner, flat, data, owner, Pages(root, v, 0))
    ensures Filled(flat, data, Pages(root, v, 0), flags, ZeroPage()) && Unmapped(flat, root, v, 0)
  {
    assert Pages(root, v, 0) == {};
    AddedNone(flat, data, owner);
  }

  lemma GrowAt(flat0: Flat, data0: map<nat, Page>, owner0: map<nat, Vpage>,
               flat: Flat, data: map<nat, Page>, owner: map<nat, Vpage>, root: nat, v: nat, k: nat)
    requires Added(flat0, data0, owner0, flat, data, owner, Pages(root, v, k))
    ensures Vpage(root, v + k) in flat <==> Vpage(root, v + k) in flat0
  {
    assert Vpage(root, v + k) !in Pages(root, v, k);
    assert Vpage(root, v + k) in flat <==> Vpage(root, v + k) in flat - Pages(root, v, k);
  }

  lemma GrowMore(flat0: Flat, data0: map<nat, Page>, owner0: map<nat, Vpage>,
                 flat: Flat, data: map<nat, Page>, owner: map<nat, Vpage>, root: nat, v: nat, k: nat, e: Pte, page: Page)
    requires Added(flat0, data0, owner0, flat, data, owner, Pages(root, v, k))
    requires Filled(flat, data, Pages(root, v, k), e.flags, page)
    requires Vpage(root, v + k) !in flat && e.ppn !in data && e.ppn !in owner
    ensures var key := Vpage(root, v + k);
            && Pages(root, v, k + 1) <= flat[key := e].Keys
            && Added(flat0, data0, owner0, flat[key := e], data[e.ppn := page], owner[e.ppn := key], Pages(root, v,
                k + 1))
            && Filled(flat[key := e], data[e.ppn := page], Pages(root, v, k + 1), e.flags, page)
  {
    var key := Vpage(root, v + k);
    assert Pages(root, v, k + 1) == Pages(root, v, k) + {key};
    AddedMore(flat0, data0, owner0, flat, data, owner, Pages(root, v, k), key, e, page);
    FilledMore(flat, data, Pages(root, v, k), key, e, page);
  }

  /** What uvmdealloc needs to undo a partial growth, and what undoing gives. */
  lemma ShrinkBack(flat0: Flat, data0: map<nat, Page>, owner0: map<nat, Vpage>,
                   flat: Flat, data: map<nat, Page>, owner: map<nat, Vpage>, kern: set<Vpage>, root: nat, v: nat, k: nat)
    requires Added(flat0, data0, owner0, flat, data, owner, Pages(root, v, k)) && kern <= flat0.Keys
    ensures Pages(root, v, k) <= flat.Keys && Pages(root, v, k) !! kern
    ensures flat - Pages(root, v, k) == flat0
    ensures data - FramesOf(flat, Pages(root, v, k)) == data0 && owner - FramesOf(flat, Pages(root, v, k)) == owner0
    ensures k == 0 ==> flat == flat0 && data == data0 && owner == owner0
  {
    if k == 0 {
      assert Pages(root, v, 0) == {};
      assert FramesOf(flat, {}) == {};
      assert flat - {} == flat && data - {} == data && owner - {} == owner;
    }
  }

  lemma MappedHasLow(t: Trees, root: nat, vpn: nat, flat: Flat)
    requires TreesOk(t) && Refines(t, flat) && IsRoot(t, root) && vpn < NVPN && Vpage(root, vpn) in flat
    ensures LowFor(t, root, vpn).Some? && LowFor(t, root, vpn).value in t.tables
    ensures t.tables[LowFor(t, root, vpn).value][Px0(vpn)] == flat[Vpage(root, vpn)]
  {
    assert Lookup(t, root, vpn) == Some(flat[Vpage(root, vpn)]);
  }

  lemma LinkConserved(frames: set<nat>, free: seq<nat>, tables: set<nat>, data: set<nat>, loose: set<nat>, page: nat)
    requires Conserved(frames, free, tables, data, loose) && page in loose
    ensures page !in tables && Conserved(frames, free, tables + {page}, data, loose - {page})
  {
  }

  /** Linking a fresh page below the table a walk has reached. */
  lemma LinkKeeps(t: Trees, root: nat, vpn: nat, level: nat, pagetable: nat, page: nat, flat: Flat)
    requires TreesOk(t) && Refines(t, flat) && 1 <= level <= 2 && AtLevel(t, root, vpn, level, pagetable)
    requires !t.tables[pagetable][Px(level, vpn)].V() && page !in t.roles
    ensures var role := if level == 2 then Mid(root, Px2(vpn)) else Low(root, Px2(vpn), Px1(vpn));
            var u := Trees(t.tables[page := EmptyTable()][pagetable := t.tables[pagetable][Px(level,
                vpn) := Pte(page, PTE_V)]],
                           t.roles[page := role]);
            && TreesOk(u) && Refines(u, flat) && AtLevel(u, root, vpn, level - 1, page)
            && forall q :: IsRoot(u, q) <==> IsRoot(t, q)
  {
    if level == 2 {
      var u := AddMid(t, root, Px2(vpn), page);
      AddMidKeeps(t, root, Px2(vpn), page);
      RefinesSame(t, u, flat);
    } else {
      var u := AddLow(t, pagetable, root, Px2(vpn), Px1(vpn), page);
      AddLowKeeps(t, pagetable, root, Px2(vpn), Px1(vpn), page);
      RefinesSame(t, u, flat);
      assert PlaceOk(u, page);
    }
  }

  lemma Descend(t: Trees, root: nat, vpn: nat, level: nat, pagetable: nat)
    requires TreesOk(t) && 1 <= level <= 2 && AtLevel(t, root, vpn, level, pagetable)
    requires t.tables[pagetable][Px(level, vpn)].V()
    ensures AtLevel(t, root, vpn, level - 1, t.tables[pagetable][Px(level, vpn)].ppn)
  {
    assert PlaceOk(t, pagetable);
  }

  /** The walk for a page has reached `pagetable` at the given level. */
  ghost predicate AtLevel(t: Trees, root: nat, vpn: nat, level: nat, pagetable: nat)
    requires TreesOk(t)
  {
    && IsRoot(t, root) && vpn < NVPN && pagetable in t.tables
    && (level == 2 ==> pagetable == root)
    && (level == 1 ==> t.roles[pagetable] == Mid(root, Px2(vpn)))
    && (level == 0 ==> LowFor(t, root, vpn) == Some(pagetable))
  }

  /** An invalid interior entry on the way means the page is not mapped. */
  lemma NotReached(t: Trees, root: nat, vpn: nat, level: nat, pagetable: nat, flat: Flat)
    requires TreesOk(t) && Refines(t, flat) && 1 <= level <= 2 && vpn < NVPN
    requires AtLevel(t, root, vpn, level, pagetable) && !t.tables[pagetable][Px(level, vpn)].V()
    ensures LowFor(t, root, vpn) == None && Vpage(root, vpn) !in flat
  {
    assert PlaceOk(t, pagetable);
    assert Lookup(t, root, vpn) == None;
  }
}
