/** Sv39 page tables (kernel/vm.c, kernel/riscv.h; section 4.4 of the RISC-V
    Privileged Architecture): three levels of 512-entry tables, and the partial
    map from virtual pages to leaf entries that they stand for. */
module VmTree {
  import opened Basics

  const PGSIZE: nat := 4096
  // MAXVA is 1 << 38; virtual page numbers stop at MAXVA / PGSIZE.
  const MAXVA: nat := 0x40_0000_0000
  const NVPN: nat := MAXVA / PGSIZE

  // Flag bits of a page-table entry.
  const PTE_V: bv10 := 1
  const PTE_R: bv10 := 2
  const PTE_W: bv10 := 4
  const PTE_X: bv10 := 8
  const PTE_U: bv10 := 16

  /** A page-table entry: the frame number and PTE_FLAGS. */
  datatype Pte = Pte(ppn: nat, flags: bv10) {
    predicate V() { flags & PTE_V != 0 }
    predicate U() { flags & PTE_U != 0 }
    predicate W() { flags & PTE_W != 0 }
    predicate Rwx() { flags & (PTE_R | PTE_W | PTE_X) != 0 }
  }

  function NoPte(): Pte { Pte(0, 0) }

  type Table = t: seq<Pte> | |t| == 512 witness seq(512, _ => Pte(0, 0))

  function EmptyTable(): Table { seq(512, _ => NoPte()) }

  // ---- PX(level, va), on page numbers ----

  function Px2(vpn: nat): (i: nat)
    requires vpn < NVPN
    ensures i < 256
  {
    vpn / 0x4_0000
  }

  function Px1(vpn: nat): (i: nat)
    ensures i < 512
  {
    vpn / 512 % 512
  }

  function Px0(vpn: nat): (i: nat)
    ensures i < 512
  {
    vpn % 512
  }

  /** The three indices determine the page. */
  lemma PxInjective(a: nat, b: nat)
    requires a < NVPN && b < NVPN
    requires Px2(a) == Px2(b) && Px1(a) == Px1(b) && Px0(a) == Px0(b)
    ensures a == b
  {
    assert a / 512 / 512 == Px2(a) && b / 512 / 512 == Px2(b);
    assert a / 512 == b / 512;
  }

  // ---- trees ----

  /** Where a page-table page sits: a root, the level-1 table in slot i2 of a
      root, or the level-0 table in slot i1 below that. */
  datatype Role = Root | Mid(root: nat, i2: nat) | Low(root: nat, i2: nat, i1: nat)

  /** All page-table pages, by frame, with their places. */
  datatype Trees = Trees(tables: map<nat, Table>, roles: map<nat, Role>)

  ghost predicate RootOk(t: Trees, f: nat)
    requires f in t.tables
  {
    forall i :: 0 <= i < 512 && t.tables[f][i].V() ==>
      && t.tables[f][i].flags == PTE_V
      && t.tables[f][i].ppn in t.roles && t.roles[t.tables[f][i].ppn] == Mid(f, i)
  }

  /** Slot i of root r points to a level-1 table. */
  ghost predicate HasMid(t: Trees, r: nat, i2: nat) {
    && r in t.roles && r in t.tables && t.roles[r] == Root && i2 < 256 && t.tables[r][i2].V()
    && t.tables[r][i2].ppn in t.tables
  }

  ghost predicate MidOk(t: Trees, f: nat, r: nat, i2: nat)
    requires f in t.tables
  {
    && HasMid(t, r, i2) && t.tables[r][i2].ppn == f
    && forall i :: 0 <= i < 512 && t.tables[f][i].V() ==>
         && t.tables[f][i].flags == PTE_V
         && t.tables[f][i].ppn in t.roles && t.roles[t.tables[f][i].ppn] == Low(r, i2, i)
  }

  ghost predicate HasLow(t: Trees, r: nat, i2: nat, i1: nat) {
    && HasMid(t, r, i2) && i1 < 512
    && t.tables[t.tables[r][i2].ppn][i1].V()
    && t.tables[t.tables[r][i2].ppn][i1].ppn in t.tables
  }

  ghost predicate LowOk(t: Trees, f: nat, r: nat, i2: nat, i1: nat)
    requires f in t.tables
  {
    && HasLow(t, r, i2, i1) && t.tables[t.tables[r][i2].ppn][i1].ppn == f
    && forall i :: 0 <= i < 512 && t.tables[f][i].V() ==> t.tables[f][i].Rwx()
  }

  ghost predicate PlaceOk(t: Trees, f: nat)
    requires f in t.tables && f in t.roles
  {
    match t.roles[f]
    case Root => RootOk(t, f)
    case Mid(r, i2) => MidOk(t, f, r, i2)
    case Low(r, i2, i1) => LowOk(t, f, r, i2, i1)
  }

  ghost predicate TreesOk(t: Trees) {
    && t.tables.Keys == t.roles.Keys
    && forall f :: f in t.roles ==> PlaceOk(t, f)
  }

  ghost predicate IsRoot(t: Trees, r: nat) {
    r in t.roles && t.roles[r] == Root
  }

  /** The level-0 table for a page, if the walk reaches one. */
  ghost function LowFor(t: Trees, r: nat, vpn: nat): (o: Option<nat>)
    requires TreesOk(t) && IsRoot(t, r) && vpn < NVPN
    ensures o.Some? ==> o.value in t.roles && t.roles[o.value] == Low(r, Px2(vpn), Px1(vpn))
  {
    var e2 := t.tables[r][Px2(vpn)];
    assert PlaceOk(t, r);
    if !e2.V() then None
    else
      assert PlaceOk(t, e2.ppn);
      var e1 := t.tables[e2.ppn][Px1(vpn)];
      if !e1.V() then None else Some(e1.ppn)
  }

  /** The leaf entry a page is mapped by, if any. */
  ghost function Lookup(t: Trees, r: nat, vpn: nat): (o: Option<Pte>)
    requires TreesOk(t) && IsRoot(t, r) && vpn < NVPN
  {
    match LowFor(t, r, vpn)
    case None => None
    case Some(f) => if t.tables[f][Px0(vpn)].V() then Some(t.tables[f][Px0(vpn)]) else None
  }

  // ---- changes ----

  ghost predicate SameLookups(t: Trees, u: Trees)
    requires TreesOk(t) && TreesOk(u)
  {
    && (forall r :: IsRoot(t, r) <==> IsRoot(u, r))
    && forall r, vpn :: IsRoot(t, r) && IsRoot(u, r) && 0 <= vpn < NVPN ==> Lookup(u, r, vpn) == Lookup(t, r, vpn)
  }

  /** Linking a fresh zeroed page as a level-1 table. */
  function AddMid(t: Trees, r: nat, i2: nat, f: nat): Trees
    requires r in t.tables && i2 < 512
  {
    Trees(t.tables[f := EmptyTable()][r := t.tables[r][i2 := Pte(f, PTE_V)]], t.roles[f := Mid(r, i2)])
  }

  lemma AddMidPlace(t: Trees, r: nat, i2: nat, f: nat, u: Trees, g: nat)
    requires TreesOk(t) && IsRoot(t, r) && i2 < 256 && !t.tables[r][i2].V() && f !in t.roles
    requires u == AddMid(t, r, i2, f) && u.tables.Keys == u.roles.Keys && g in u.roles
    ensures PlaceOk(u, g)
  {
    if g != f {
      assert PlaceOk(t, g);
    }
  }

  lemma AddMidOk(t: Trees, r: nat, i2: nat, f: nat)
    requires TreesOk(t) && IsRoot(t, r) && i2 < 256 && !t.tables[r][i2].V() && f !in t.roles
    ensures TreesOk(AddMid(t, r, i2, f))
  {
    hide PlaceOk;
    var u := AddMid(t, r, i2, f);
    forall g | g in u.roles
      ensures PlaceOk(u, g)
    {
      AddMidPlace(t, r, i2, f, u, g);
    }
  }

  lemma AddMidKeeps(t: Trees, r: nat, i2: nat, f: nat)
    requires TreesOk(t) && IsRoot(t, r) && i2 < 256 && !t.tables[r][i2].V() && f !in t.roles
    ensures var u := AddMid(t, r, i2, f);
            TreesOk(u) && SameLookups(t, u)
  {
    var u := AddMid(t, r, i2, f);
    AddMidOk(t, r, i2, f);
    forall q, vpn | IsRoot(t, q) && IsRoot(u, q) && 0 <= vpn < NVPN
      ensures Lookup(u, q, vpn) == Lookup(t, q, vpn)
    {
      assert PlaceOk(t, q);
    }
  }

  /** Linking a fresh zeroed page as a level-0 table below level-1 table m. */
  function AddLow(t: Trees, m: nat, r: nat, i2: nat, i1: nat, f: nat): Trees
    requires m in t.tables && i1 < 512
  {
    Trees(t.tables[f := EmptyTable()][m := t.tables[m][i1 := Pte(f, PTE_V)]], t.roles[f := Low(r, i2, i1)])
  }

  lemma AddLowOk(t: Trees, m: nat, r: nat, i2: nat, i1: nat, f: nat)
    requires TreesOk(t) && m in t.roles && t.roles[m] == Mid(r, i2) && i1 < 512
    requires !t.tables[m][i1].V() && f !in t.roles
    ensures TreesOk(AddLow(t, m, r, i2, i1, f))
  {
    var u := AddLow(t, m, r, i2, i1, f);
    assert PlaceOk(t, m);
    forall g | g in u.roles
      ensures PlaceOk(u, g)
    {
      if g != f {
        assert PlaceOk(t, g);
      }
    }
  }

  lemma AddLowLookup(t: Trees, m: nat, r: nat, i2: nat, i1: nat, f: nat, q: nat, vpn: nat)
    requires TreesOk(t) && m in t.roles && t.roles[m] == Mid(r, i2) && i1 < 512
    requires !t.tables[m][i1].V() && f !in t.roles && IsRoot(t, q) && vpn < NVPN
    requires TreesOk(AddLow(t, m, r, i2, i1, f)) && IsRoot(AddLow(t, m, r, i2, i1, f), q)
    ensures Lookup(AddLow(t, m, r, i2, i1, f), q, vpn) == Lookup(t, q, vpn)
  {
    hide LowOk, Px2, Px1, Px0;
    assert PlaceOk(t, q);
    var e2 := t.tables[q][Px2(vpn)];
    if e2.V() {
      assert PlaceOk(t, e2.ppn);
    }
  }

  lemma AddLowKeeps(t: Trees, m: nat, r: nat, i2: nat, i1: nat, f: nat)
    requires TreesOk(t) && m in t.roles && t.roles[m] == Mid(r, i2) && i1 < 512
    requires !t.tables[m][i1].V() && f !in t.roles
    ensures var u := AddLow(t, m, r, i2, i1, f);
            TreesOk(u) && SameLookups(t, u)
  {
    hide PlaceOk, Lookup, LowFor;
    var u := AddLow(t, m, r, i2, i1, f);
    AddLowOk(t, m, r, i2, i1, f);
    forall q, vpn | IsRoot(t, q) && IsRoot(u, q) && 0 <= vpn < NVPN
      ensures Lookup(u, q, vpn) == Lookup(t, q, vpn)
    {
      AddLowLookup(t, m, r, i2, i1, f, q, vpn);
    }
  }

  /** Writing leaf entry i0 of level-0 table f. */
  function SetLeaf(t: Trees, f: nat, i0: nat, e: Pte): Trees
    requires f in t.tables && i0 < 512
  {
    t.(tables := t.tables[f := t.tables[f][i0 := e]])
  }

  lemma SetLeafOk(t: Trees, f: nat, i0: nat, e: Pte)
    requires TreesOk(t) && f in t.roles && t.roles[f].Low? && i0 < 512 && (e.V() ==> e.Rwx())
    ensures TreesOk(SetLeaf(t, f, i0, e))
  {
    var u := SetLeaf(t, f, i0, e);
    forall g | g in u.roles
      ensures PlaceOk(u, g)
    {
      assert PlaceOk(t, g);
    }
  }

  /** It changes the mapping of exactly one page. */
  lemma SetLeafKeeps(t: Trees, f: nat, r: nat, vpn: nat, e: Pte)
    requires TreesOk(t) && IsRoot(t, r) && vpn < NVPN && LowFor(t, r, vpn) == Some(f) && (e.V() ==> e.Rwx())
    ensures var u := SetLeaf(t, f, Px0(vpn), e);
            && TreesOk(u)
            && (forall q :: IsRoot(t, q) <==> IsRoot(u, q))
            && (forall q, p :: IsRoot(t, q) && IsRoot(u, q) && 0 <= p < NVPN ==>
                  Lookup(u, q, p) == if q == r && p == vpn then (if e.V() then Some(e) else None) else Lookup(t, q, p))
  {
    var u := SetLeaf(t, f, Px0(vpn), e);
    SetLeafOk(t, f, Px0(vpn), e);
    forall q, p | IsRoot(t, q) && IsRoot(u, q) && 0 <= p < NVPN
      ensures Lookup(u, q, p) == if q == r && p == vpn then (if e.V() then Some(e) else None) else Lookup(t, q, p)
    {
      assert PlaceOk(t, q);
      var e2 := t.tables[q][Px2(p)];
      if e2.V() {
        assert PlaceOk(t, e2.ppn);
        var e1 := t.tables[e2.ppn][Px1(p)];
        if e1.V() && e1.ppn == f && Px0(p) == Px0(vpn) {
          assert t.roles[f] == Low(q, Px2(p), Px1(p));
          PxInjective(p, vpn);
        }
      }
    }
  }

  // ---- the tables below one table ----

  function Level(role: Role): nat {
    match role
    case Root => 2
    case Mid(_, _) => 1
    case Low(_, _, _) => 0
  }

  /** g is a table strictly below f, reached through slot i of f. */
  ghost predicate Below(t: Trees, f: nat, i: nat, g: nat)
    requires f in t.roles
  {
    g in t.roles &&
    match t.roles[f]
    case Root => t.roles[g] == Mid(f, i) || (t.roles[g].Low? && t.roles[g].root == f && t.roles[g].i2 == i)
    case Mid(r, i2) => t.roles[g] == Low(r, i2, i)
    case Low(_, _, _) => false
  }

  /** The tables below f through its first n slots. */
  ghost function BelowFirst(t: Trees, f: nat, n: nat): set<nat>
    requires f in t.roles
  {
    set g | g in t.roles && exists i :: 0 <= i < n && Below(t, f, i, g)
  }

  ghost function Subtree(t: Trees, f: nat): set<nat>
    requires f in t.roles
  {
    BelowFirst(t, f, 512) + {f}
  }

  /** The tables below slot n are the subtree of the table it points to. */
  lemma BelowNext(t: Trees, f: nat, n: nat)
    requires TreesOk(t) && f in t.roles && n < 512 && !t.roles[f].Low?
    ensures t.tables[f][n].V() ==>
              && t.tables[f][n].ppn in t.roles && Level(t.roles[t.tables[f][n].ppn]) == Level(t.roles[f]) - 1
              && BelowFirst(t, f, n + 1) == BelowFirst(t, f, n) + Subtree(t, t.tables[f][n].ppn)
              && BelowFirst(t, f, n) !! Subtree(t, t.tables[f][n].ppn)
              && f !in Subtree(t, t.tables[f][n].ppn)
    ensures !t.tables[f][n].V() ==> BelowFirst(t, f, n + 1) == BelowFirst(t, f, n)
  {
    assert PlaceOk(t, f);
    if t.tables[f][n].V() {
      var c := t.tables[f][n].ppn;
      assert PlaceOk(t, c);
      forall g
        ensures g in Subtree(t, c) <==> Below(t, f, n, g)
      {
        BelowIsSubtree(t, f, n, c, g);
      }
    } else {
      forall g | g in t.roles
        ensures !Below(t, f, n, g)
      {
        assert PlaceOk(t, g);
      }
    }
  }

  lemma BelowIsSubtree(t: Trees, f: nat, n: nat, c: nat, g: nat)
    requires TreesOk(t) && f in t.roles && n < 512 && !t.roles[f].Low?
    requires t.tables[f][n].V() && c == t.tables[f][n].ppn && c in t.roles
    ensures g in Subtree(t, c) <==> Below(t, f, n, g)
  {
    assert PlaceOk(t, f);
    assert PlaceOk(t, c);
    if Below(t, f, n, g) {
      assert PlaceOk(t, g);
      if t.roles[f] == Root && t.roles[g].Low? {
        assert Below(t, c, t.roles[g].i1, g);
      }
    }
    if g in BelowFirst(t, c, 512) {
      var i :| 0 <= i < 512 && Below(t, c, i, g);
    }
  }

  /** No table below f, f included, maps a page. */
  ghost predicate NoLeaves(t: Trees, f: nat)
    requires TreesOk(t) && f in t.roles
  {
    forall g, i :: g in Subtree(t, f) && g in t.roles && t.roles[g].Low? && 0 <= i < 512 ==> !t.tables[g][i].V()
  }

  /** Taking away a whole tree leaves the others as they are. */
  lemma RemoveTree(t: Trees, r: nat)
    requires TreesOk(t) && IsRoot(t, r)
    ensures var u := Trees(t.tables - Subtree(t, r), t.roles - Subtree(t, r));
            && TreesOk(u)
            && (forall q :: IsRoot(u, q) <==> IsRoot(t, q) && q != r)
            && (forall q, vpn :: IsRoot(u, q) && IsRoot(t, q) && 0 <= vpn < NVPN ==> Lookup(u, q, vpn) == Lookup(t,
                q, vpn))
  {
    var u := Trees(t.tables - Subtree(t, r), t.roles - Subtree(t, r));
    forall g | g in t.roles
      ensures g in Subtree(t, r) <==> g == r || (!t.roles[g].Root? && t.roles[g].root == r)
    {
      InSubtree(t, r, g);
    }
    forall g | g in u.roles
      ensures PlaceOk(u, g)
    {
      assert PlaceOk(t, g);
    }
    forall q, vpn | IsRoot(u, q) && IsRoot(t, q) && 0 <= vpn < NVPN
      ensures Lookup(u, q, vpn) == Lookup(t, q, vpn)
    {
      assert PlaceOk(t, q);
      var e2 := t.tables[q][Px2(vpn)];
      if e2.V() {
        assert PlaceOk(t, e2.ppn);
      }
    }
  }

  lemma InSubtree(t: Trees, r: nat, g: nat)
    requires TreesOk(t) && IsRoot(t, r) && g in t.roles
    ensures g in Subtree(t, r) <==> g == r || (!t.roles[g].Root? && t.roles[g].root == r)
  {
    assert PlaceOk(t, g);
    if !t.roles[g].Root? && t.roles[g].root == r {
      assert Below(t, r, t.roles[g].i2, g);
    }
  }
}
