/** The slots of an inode being emptied one by one (kernel/fs.c, itrunc). */
module FsTrunc {
  import opened Params
  import opened FsVolume
  import opened FsGrow

  /** Slots of inode i that itrunc has already freed while they still hold the
      old numbers: the first n entries of its indirect block. */
  predicate Freed(i: nat, n: nat, j: nat, s: nat) {
    j == i && NDIRECT < s < NDIRECT + 1 + n
  }

  /** Owned, but for the freed slots. */
  ghost predicate OwnedFrom(sb: Superblock, v: Volume, o: Owners, i: nat, n: nat)
    requires Shaped(sb, v)
  {
    && (forall j, s :: 0 <= j < sb.ninodes && 0 <= s < NSLOTS && !Freed(i, n, j, s) && Named(sb, v, j, s) != 0 ==>
          Named(sb, v, j, s) in o && o[Named(sb, v, j, s)] == Slot(j, s))
    && (forall b :: b in o ==> Records(sb, v, o, b) && !Freed(i, n, o[b].inum, o[b].idx))
  }

  lemma AllOwned(sb: Superblock, v: Volume, o: Owners, i: nat)
    requires Shaped(sb, v) && Owned(sb, v, o)
    ensures OwnedFrom(sb, v, o, i, 0)
  {
  }

  /** Emptying direct slot s of inode i. */
  lemma DetachDirect(sb: Superblock, v: Volume, o: Owners, i: nat, s: nat)
    requires Shaped(sb, v) && Owned(sb, v, o) && i < sb.ninodes && s < NDIRECT && v.table[i].addrs[s] != 0
    ensures var b := v.table[i].addrs[s];
            var w := v.(table := v.table[i := v.table[i].(addrs := v.table[i].addrs[s := 0])]);
            && b in o && sb.datastart <= b < sb.size
            && Shaped(sb, w) && Owned(sb, w, o - {b}) && o[b].inum == i
  {
    var b := v.table[i].addrs[s];
    var w := v.(table := v.table[i := v.table[i].(addrs := v.table[i].addrs[s := 0])]);
    assert Named(sb, v, i, s) == b;
    NamedInRange(sb, v, o, i, s);
    assert SameNamesBut(sb, v, w, i, s);
    forall c | c in o - {b}
      ensures Records(sb, w, o - {b}, c)
    {
      assert Records(sb, v, o, c);
    }
  }

  /** Freeing entry n of inode i's indirect block. */
  lemma FreeEntry(sb: Superblock, v: Volume, o: Owners, i: nat, n: nat)
    requires Shaped(sb, v) && OwnedFrom(sb, v, o, i, n) && i < sb.ninodes && n < NINDIRECT
    ensures var b := Named(sb, v, i, NDIRECT + 1 + n);
            && OwnedFrom(sb, v, if b == 0 then o else o - {b}, i, n + 1)
            && (b != 0 ==> b in o && sb.datastart <= b < sb.size && o[b].inum == i)
  {
    var b := Named(sb, v, i, NDIRECT + 1 + n);
    var q := if b == 0 then o else o - {b};
    if b != 0 {
      assert o[b] == Slot(i, NDIRECT + 1 + n);
      assert Records(sb, v, o, b);
    }
    forall c | c in q
      ensures Records(sb, v, q, c) && !Freed(i, n + 1, q[c].inum, q[c].idx)
    {
      assert Records(sb, v, o, c);
    }
  }

  lemma AddrNamed(sb: Superblock, v: Volume, i: nat, s: nat)
    requires Shaped(sb, v) && i < sb.ninodes && s <= NDIRECT
    ensures Named(sb, v, i, s) == v.table[i].addrs[s]
  {
  }

  lemma DropIndirectName(sb: Superblock, v: Volume, i: nat, w: Volume, j: nat, s: nat)
    requires Shaped(sb, v) && Shaped(sb, w) && i < sb.ninodes && j < sb.ninodes && s < NSLOTS
    requires w == v.(table := v.table[i := v.table[i].(addrs := v.table[i].addrs[NDIRECT := 0])])
    ensures Named(sb, w, j, s) == if j == i && s >= NDIRECT then 0 else Named(sb, v, j, s)
  {
  }

  lemma DropIndirectRecord(sb: Superblock, v: Volume, o: Owners, i: nat, w: Volume, c: nat)
    requires Shaped(sb, v) && OwnedFrom(sb, v, o, i, NINDIRECT) && i < sb.ninodes && Shaped(sb, w)
    requires w == v.(table := v.table[i := v.table[i].(addrs := v.table[i].addrs[NDIRECT := 0])])
    requires c in o && c != v.table[i].addrs[NDIRECT]
    ensures Records(sb, w, o - {v.table[i].addrs[NDIRECT]}, c)
  {
    assert Records(sb, v, o, c);
    assert o[c] != Slot(i, NDIRECT);
  }

  /** Dropping the indirect block itself, all its entries freed. */
  lemma DropIndirect(sb: Superblock, v: Volume, o: Owners, i: nat)
    requires Shaped(sb, v) && OwnedFrom(sb, v, o, i, NINDIRECT) && i < sb.ninodes && v.table[i].addrs[NDIRECT] != 0
    ensures var b := v.table[i].addrs[NDIRECT];
            var w := v.(table := v.table[i := v.table[i].(addrs := v.table[i].addrs[NDIRECT := 0])]);
            && b in o && sb.datastart <= b < sb.size
            && Shaped(sb, w) && Owned(sb, w, o - {b}) && o[b].inum == i
            && (forall s :: NDIRECT <= s < NSLOTS ==> Named(sb, w, i, s) == 0)
  {
    hide Named, Word;
    var b := v.table[i].addrs[NDIRECT];
    var w := v.(table := v.table[i := v.table[i].(addrs := v.table[i].addrs[NDIRECT := 0])]);
    assert Named(sb, v, i, NDIRECT) == b by {
      AddrNamed(sb, v, i, NDIRECT);
    }
    assert Records(sb, v, o, b);
    forall j, s | 0 <= j < sb.ninodes && 0 <= s < NSLOTS && Named(sb, w, j, s) != 0
      ensures Named(sb, w, j, s) in o - {b} && (o - {b})[Named(sb, w, j, s)] == Slot(j, s)
    {
      DropIndirectName(sb, v, i, w, j, s);
      assert !Freed(i, NINDIRECT, j, s);
    }
    forall c | c in o - {b}
      ensures Records(sb, w, o - {b}, c)
    {
      DropIndirectRecord(sb, v, o, i, w, c);
    }
    forall s | NDIRECT <= s < NSLOTS
      ensures Named(sb, w, i, s) == 0
    {
      DropIndirectName(sb, v, i, w, i, s);
    }
  }

  /** The other inodes while inode i's addresses change: blocks are not written. */
  ghost predicate OnlyAddrsOf(v: Volume, w: Volume, i: nat) {
    && w.blocks == v.blocks && |w.table| == |v.table|
    && (forall j :: 0 <= j < |v.table| && j != i ==> w.table[j] == v.table[j])
    && (i < |v.table| ==> w.table[i] == v.table[i].(addrs := w.table[i].addrs))
  }

  lemma OnlyAddrsStep(v0: Volume, v: Volume, i: nat, addrs: seq<nat>)
    requires OnlyAddrsOf(v0, v, i) && i < |v.table|
    ensures OnlyAddrsOf(v0, v.(table := v.table[i := v.table[i].(addrs := addrs)]), i)
  {
  }

  /** Emptied: with no names left, size 0 makes the volume sound again. */
  lemma TruncSound(sb: Superblock, v0: Volume, o0: Owners, v: Volume, o: Owners, i: nat)
    requires Sound(sb, v0, o0) && i < sb.ninodes && Shaped(sb, v) && Owned(sb, v, o) && OnlyAddrsOf(v0, v, i)
    requires forall s :: 0 <= s < NSLOTS ==> Named(sb, v, i, s) == 0
    ensures Sound(sb, v.(table := v.table[i := v.table[i].(size := 0)]), o)
  {
    var w := v.(table := v.table[i := v.table[i].(size := 0)]);
    assert Shaped(sb, w);
    assert SameNames(sb, v, w);
    SameNamesOwned(sb, v, w, o);
    forall j | 0 <= j < sb.ninodes
      ensures NoHoles(sb, w, j, w.table[j].size)
    {
      if j != i {
        assert NoHoles(sb, v0, j, v0.table[j].size);
        assert forall s :: 0 <= s < NSLOTS ==> Named(sb, w, j, s) == Named(sb, v0, j, s);
      }
    }
    forall j, s | 0 <= j < sb.ninodes && 0 <= s < NSLOTS && w.table[j].typ == 0
      ensures Named(sb, w, j, s) == 0
    {
      if j != i {
        assert Named(sb, w, j, s) == Named(sb, v0, j, s);
      }
    }
  }

  function NoAddrs(): (a: seq<nat>)
    ensures |a| == NDIRECT + 1
  {
    seq(NDIRECT + 1, _ => 0)
  }

  /** Clearing and typing a free inode, which names nothing. */
  lemma ClearedSound(sb: Superblock, v: Volume, o: Owners, i: nat, typ: nat)
    requires Sound(sb, v, o) && i < sb.ninodes && v.table[i].typ == 0
    ensures Sound(sb, v.(table := v.table[i := Dinode(typ, 0, 0, NoAddrs())]), o)
  {
    var w := v.(table := v.table[i := Dinode(typ, 0, 0, NoAddrs())]);
    assert Shaped(sb, w);
    assert SameNames(sb, v, w);
    EmptyInodeSound(sb, v, o, w, i);
  }

  /** Marking an emptied inode free. */
  lemma RetypedSound(sb: Superblock, v: Volume, o: Owners, i: nat)
    requires Sound(sb, v, o) && i < sb.ninodes && v.table[i].size == 0
    requires forall s :: 0 <= s < NSLOTS ==> Named(sb, v, i, s) == 0
    ensures Sound(sb, v.(table := v.table[i := v.table[i].(typ := 0)]), o)
  {
    var w := v.(table := v.table[i := v.table[i].(typ := 0)]);
    assert Shaped(sb, w);
    assert SameNames(sb, v, w);
    EmptyInodeSound(sb, v, o, w, i);
  }

  lemma EmptyInodeSound(sb: Superblock, v: Volume, o: Owners, w: Volume, i: nat)
    requires Sound(sb, v, o) && Shaped(sb, w) && SameNames(sb, v, w) && i < sb.ninodes
    requires forall j :: 0 <= j < sb.ninodes && j != i ==> w.table[j] == v.table[j]
    requires w.table[i].size == 0 && forall s :: 0 <= s < NSLOTS ==> Named(sb, w, i, s) == 0
    ensures Sound(sb, w, o)
  {
    SameNamesOwned(sb, v, w, o);
    forall j | 0 <= j < sb.ninodes
      ensures NoHoles(sb, w, j, w.table[j].size)
    {
      if j != i {
        assert NoHoles(sb, v, j, v.table[j].size);
      }
    }
  }

  /** A volume with nothing in it. */
  function FreshVolume(sb: Superblock): Volume {
    Volume(seq(sb.size, _ => ZeroBlock()), seq(sb.ninodes, _ => Dinode(0, 0, 0, NoAddrs())))
  }

  lemma FreshSound(sb: Superblock)
    requires sb.Ok()
    ensures Sound(sb, FreshVolume(sb), map[])
  {
  }
}
