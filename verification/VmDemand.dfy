/** How many frames mapping a run of pages takes: one for each page and one for each table on
    the way that is not there yet. */
module VmDemand {
  import opened Basics
  import opened VmTree

  /** The tables that the walk to a page goes through, below the root. */
  function Way(root: nat, vpn: nat): set<Role> {
    {Mid(root, vpn / 0x4_0000), Low(root, vpn / 0x4_0000, Px1(vpn))}
  }

  function Ways(root: nat, v: nat, n: nat): set<Role> {
    if n == 0 then {} else Ways(root, v, n - 1) + Way(root, v + n - 1)
  }

  /** Frames for n pages from v on, where the tables of `have` are there. */
  function Demand(have: set<Role>, root: nat, v: nat, n: nat): nat {
    n + |Ways(root, v, n) - have|
  }

  lemma DemandNext(have: set<Role>, root: nat, v: nat, n: nat)
    ensures Ways(root, v, n + 1) == Ways(root, v, n) + Way(root, v + n)
    ensures Demand(have, root, v, n + 1) == Demand(have, root, v, n) + 1 + |Way(root, v + n) - (have + Ways(root, v, n))|
  {
    hide Way;
    var a, b := Ways(root, v, n) - have, Way(root, v + n) - (have + Ways(root, v, n));
    assert Ways(root, v, n + 1) - have == a + b && a !! b;
  }

  lemma {:induction false} DemandMore(have: set<Role>, root: nat, v: nat, m: nat, n: nat)
    requires m <= n
    ensures Demand(have, root, v, m) + (n - m) <= Demand(have, root, v, n)
    decreases n
  {
    if m < n {
      DemandMore(have, root, v, m, n - 1);
      DemandNext(have, root, v, n - 1);
    }
  }

  /** The level-1 table of a page is there exactly if the root has an entry for it. */
  lemma MidThere(t: Trees, root: nat, vpn: nat)
    requires TreesOk(t) && IsRoot(t, root) && vpn < NVPN
    ensures Mid(root, Px2(vpn)) in t.roles.Values <==> t.tables[root][Px2(vpn)].V()
  {
    assert PlaceOk(t, root);
    var i := Px2(vpn);
    if t.tables[root][i].V() {
      assert t.roles[t.tables[root][i].ppn] == Mid(root, i);
    }
    if Mid(root, i) in t.roles.Values {
      var f :| f in t.roles && t.roles[f] == Mid(root, i);
      assert PlaceOk(t, f);
    }
  }

  /** And the level-0 table exactly if that one, m, has. */
  lemma LowThere(t: Trees, root: nat, vpn: nat, m: nat)
    requires TreesOk(t) && IsRoot(t, root) && vpn < NVPN && m in t.roles && t.roles[m] == Mid(root, Px2(vpn))
    ensures Low(root, Px2(vpn), Px1(vpn)) in t.roles.Values <==> t.tables[m][Px1(vpn)].V()
  {
    assert PlaceOk(t, m);
    var i2, i1 := Px2(vpn), Px1(vpn);
    if t.tables[m][i1].V() {
      assert t.roles[t.tables[m][i1].ppn] == Low(root, i2, i1);
    }
    if Low(root, i2, i1) in t.roles.Values {
      var f :| f in t.roles && t.roles[f] == Low(root, i2, i1);
      assert PlaceOk(t, f);
    }
  }

  /** A new table in an unused frame. */
  lemma AddRole(roles: map<nat, Role>, f: nat, x: Role)
    requires f !in roles
    ensures roles[f := x].Values == roles.Values + {x}
  {
    var m := roles[f := x];
    forall y
      ensures y in m.Values <==> y in roles.Values + {x}
    {
      if y in roles.Values {
        var g :| g in roles && roles[g] == y;
        assert m[g] == y;
      }
      assert m[f] == x;
    }
  }

  /** Walking to a page: so many of its tables are there when the walk is at the level. */
  ghost function Done(root: nat, vpn: nat, level: nat): set<Role>
    requires level <= 2
  {
    if level == 2 then {} else if level == 1 then {Mid(root, vpn / 0x4_0000)} else Way(root, vpn)
  }

  /** One more is missing than have been added. */
  lemma OneMissing(have: set<Role>, now: set<Role>, root: nat, vpn: nat, level: nat)
    requires 1 <= level <= 2 && now == have + Done(root, vpn, level) && !(Done(root, vpn, level - 1) <= now)
    ensures |now - have| < |Way(root, vpn) - have|
  {
    var a, b := now - have, Way(root, vpn) - have;
    var x :| x in Done(root, vpn, level - 1) && x !in now;
    assert x in b && x !in a && a <= b - {x};
    Fewer(a, b - {x});
  }

  lemma {:induction false} Fewer(a: set<Role>, b: set<Role>)
    requires a <= b
    ensures |a| <= |b|
    decreases |a|
  {
    if a != {} {
      var x :| x in a;
      Fewer(a - {x}, b - {x});
    }
  }

  /** One more added. */
  lemma OneAdded(have: set<Role>, now: set<Role>, x: Role)
    requires have <= now && x !in now
    ensures |now + {x} - have| == |now - have| + 1
  {
    assert now + {x} - have == (now - have) + {x};
  }
}
