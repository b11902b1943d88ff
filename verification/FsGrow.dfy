/** How allocation changes a volume: the bitmap agrees with the slots, slots in
    use keep their blocks, and fresh blocks read as zero. */
module FsGrow {
  import opened Params
  import opened FsVolume
  import opened FsBitmap

  /** A block is marked when it is metadata or some slot names it. */
  ghost predicate Marked(sb: Superblock, bm: Bitmap, o: Owners) {
    && BitmapOk(sb, bm)
    && forall b :: 0 <= b < sb.size ==> (Bit(sb, bm, b) <==> b < sb.datastart || b in o)
  }

  lemma MarkedShape(sb: Superblock, bm: Bitmap, o: Owners)
    requires Marked(sb, bm, o)
    ensures BitmapOk(sb, bm)
  {
  }

  ghost predicate ZeroIfNamed(sb: Superblock, w: Volume, j: nat, s: nat)
    requires Shaped(sb, w) && j < sb.ninodes && s < NSLOTS
  {
    var b := Named(sb, w, j, s);
    0 < b < sb.size ==> w.blocks[b] == ZeroBlock()
  }

  /** w is v with blocks added to inode i: slots in use keep their blocks, data
      blocks in use keep their contents, and no other inode changes. */
  ghost predicate Extends(sb: Superblock, v: Volume, o: Owners, w: Volume, q: Owners, i: nat)
    requires Shaped(sb, v) && Shaped(sb, w)
  {
    && (forall j, s :: 0 <= j < sb.ninodes && 0 <= s < NSLOTS && (j != i || Named(sb, v, j, s) != 0) ==>
          Named(sb, w, j, s) == Named(sb, v, j, s))
    && (forall b :: b in o ==> b in q && q[b] == o[b])
    && (forall b :: b in o && 0 <= b < sb.size && o[b].idx != NDIRECT ==> w.blocks[b] == v.blocks[b])
    && (forall j, s :: 0 <= j < sb.ninodes && 0 <= s < NSLOTS && s != NDIRECT && Named(sb, v, j, s) == 0 ==>
          ZeroIfNamed(sb, w, j, s))
    && (forall j :: 0 <= j < sb.ninodes ==> w.table[j] == v.table[j].(addrs := w.table[j].addrs))
    && (forall j :: 0 <= j < sb.ninodes && j != i ==> w.table[j] == v.table[j])
  }

  ghost predicate NoneFree(sb: Superblock, o: Owners) {
    forall c :: sb.datastart <= c < sb.size ==> c in o
  }

  ghost predicate OneFreeAtMost(sb: Superblock, o: Owners) {
    forall b, c :: sb.datastart <= b < sb.size && sb.datastart <= c < sb.size && b !in o && c !in o ==> b == c
  }

  /** There are too few free blocks for file block bn: it is missing and none is free,
      or the indirect block is missing as well and at most one is. */
  ghost predicate Stuck(sb: Superblock, v: Volume, o: Owners, i: nat, bn: nat)
    requires Shaped(sb, v) && i < sb.ninodes && bn < MAXFILE
  {
    && Named(sb, v, i, SlotOf(bn)) == 0
    && if bn < NDIRECT || v.table[i].addrs[NDIRECT] != 0 then NoneFree(sb, o) else OneFreeAtMost(sb, o)
  }

  lemma FullNone(sb: Superblock, bm: Bitmap, o: Owners)
    requires Marked(sb, bm, o) && forall c :: 0 <= c < sb.size ==> Bit(sb, bm, c)
    ensures NoneFree(sb, o)
  {
    hide Bit;
  }

  lemma LastFree(sb: Superblock, o: Owners, x: nat, s: Slot)
    requires sb.datastart <= x < sb.size && x !in o
    ensures NoneFree(sb, o[x := s]) <==> OneFreeAtMost(sb, o)
  {
    var p := o[x := s];
    if NoneFree(sb, p) {
      forall b, c | sb.datastart <= b < sb.size && sb.datastart <= c < sb.size && b !in o && c !in o
        ensures b == c
      {
        assert b in p && c in p;
      }
    }
    if OneFreeAtMost(sb, o) {
      forall c | sb.datastart <= c < sb.size
        ensures c in p
      {
        assert c in o || c == x;
      }
    }
  }

  /** bmap's indirect path, x being the indirect block it found or allocated and p the
      owners after that. */
  lemma StuckIndirect(sb: Superblock, v: Volume, o: Owners, i: nat, bn: nat, x: nat, p: Owners, addr: nat)
    requires Shaped(sb, v) && i < sb.ninodes && NDIRECT <= bn < MAXFILE
    requires Named(sb, v, i, SlotOf(bn)) != 0 ==> v.table[i].addrs[NDIRECT] != 0 && addr != 0
    requires v.table[i].addrs[NDIRECT] != 0 ==> x != 0 && p == o
    requires v.table[i].addrs[NDIRECT] == 0 ==> (x == 0 <==> NoneFree(sb, o))
    requires v.table[i].addrs[NDIRECT] == 0 && x != 0 ==>
               x !in o && sb.datastart <= x < sb.size && p == o[x := Slot(i, NDIRECT)]
    requires x == 0 ==> addr == 0
    requires x != 0 && Named(sb, v, i, SlotOf(bn)) == 0 ==> (addr == 0 <==> NoneFree(sb, p))
    ensures addr == 0 <==> Stuck(sb, v, o, i, bn)
  {
    hide Named;
    if v.table[i].addrs[NDIRECT] == 0 && x != 0 {
      LastFree(sb, o, x, Slot(i, NDIRECT));
    }
  }

  /** Every disk block that differs from before, bitmap blocks included, was passed to
      log_write. */
  ghost predicate LogsAll(sb: Superblock, b0: seq<Block>, m0: Bitmap, lg0: set<nat>, b: seq<Block>, m: Bitmap, lg: set<nat>) {
    && lg0 <= lg && |b| == |b0| && |m| == |m0|
    && (forall x :: 0 <= x < |b| && b[x] != b0[x] ==> x in lg)
    && (forall k :: 0 <= k < |m| && m[k] != m0[k] ==> sb.bmapstart + k in lg)
  }

  /** The same but for block x. */
  ghost predicate LogsBut(sb: Superblock, b0: seq<Block>, m0: Bitmap, lg0: set<nat>, b: seq<Block>, m: Bitmap, lg: set<nat>,
                          x: nat) {
    && lg0 <= lg && |b| == |b0| && |m| == |m0|
    && (forall y :: 0 <= y < |b| && y != x && b[y] != b0[y] ==> y in lg)
    && (forall k :: 0 <= k < |m| && m[k] != m0[k] ==> sb.bmapstart + k in lg)
  }

  lemma LogsThenBut(sb: Superblock, b0: seq<Block>, m0: Bitmap, lg0: set<nat>, b1: seq<Block>, m1: Bitmap, lg1: set<nat>,
                    b2: seq<Block>, m2: Bitmap, lg2: set<nat>, x: nat)
    requires LogsAll(sb, b0, m0, lg0, b1, m1, lg1) && LogsBut(sb, b1, m1, lg1, b2, m2, lg2, x)
    ensures LogsBut(sb, b0, m0, lg0, b2, m2, lg2, x)
    ensures x < |b2| && (b2[x] == b0[x] || x in lg2) ==> LogsAll(sb, b0, m0, lg0, b2, m2, lg2)
  {
    forall y | 0 <= y < |b2| && y != x && b2[y] != b0[y]
      ensures y in lg2
    {
      assert b1[y] != b0[y] || b2[y] != b1[y];
    }
    forall k | 0 <= k < |m2| && m2[k] != m0[k]
      ensures sb.bmapstart + k in lg2
    {
      assert m1[k] != m0[k] || m2[k] != m1[k];
    }
  }

  /** A first part that logs all it changes decides nothing. */
  lemma LogsThenIff(sb: Superblock, b0: seq<Block>, m0: Bitmap, lg0: set<nat>, b1: seq<Block>, m1: Bitmap, lg1: set<nat>,
                    b2: seq<Block>, m2: Bitmap, lg2: set<nat>, x: nat)
    requires LogsAll(sb, b0, m0, lg0, b1, m1, lg1) && LogsBut(sb, b1, m1, lg1, b2, m2, lg2, x)
    ensures LogsAll(sb, b0, m0, lg0, b2, m2, lg2) <==> LogsAll(sb, b1, m1, lg1, b2, m2, lg2)
  {
    if LogsAll(sb, b1, m1, lg1, b2, m2, lg2) {
      LogsTwice(sb, b0, m0, lg0, b1, m1, lg1, b2, m2, lg2);
    }
  }

  /** A store of c to block x that is not logged. */
  lemma LogsThenSpill(sb: Superblock, b0: seq<Block>, m0: Bitmap, lg0: set<nat>, b1: seq<Block>, m1: Bitmap, lg1: set<nat>,
                      x: nat, c: Block)
    requires LogsAll(sb, b0, m0, lg0, b1, m1, lg1) && x < |b1|
    ensures LogsAll(sb, b0, m0, lg0, b1[x := c], m1, lg1) <==> c == b0[x] || x in lg1
  {
    var b2 := b1[x := c];
    assert b2[x] == c;
  }

  lemma LogsTwice(sb: Superblock, b0: seq<Block>, m0: Bitmap, lg0: set<nat>, b1: seq<Block>, m1: Bitmap, lg1: set<nat>,
                  b2: seq<Block>, m2: Bitmap, lg2: set<nat>)
    requires LogsAll(sb, b0, m0, lg0, b1, m1, lg1) && LogsAll(sb, b1, m1, lg1, b2, m2, lg2)
    ensures LogsAll(sb, b0, m0, lg0, b2, m2, lg2)
  {
    forall x | 0 <= x < |b2| && b2[x] != b0[x]
      ensures x in lg2
    {
      assert b1[x] != b0[x] || b2[x] != b1[x];
    }
    forall k | 0 <= k < |m2| && m2[k] != m0[k]
      ensures sb.bmapstart + k in lg2
    {
      assert m1[k] != m0[k] || m2[k] != m1[k];
    }
  }

  /** From bitmap m0 to m, with lg0 logged before and lg after: the bitmap blocks that
      changed are logged, and none but bitmap blocks are new. */
  ghost predicate BitmapLogs(sb: Superblock, m0: Bitmap, lg0: set<nat>, m: Bitmap, lg: set<nat>) {
    && lg0 <= lg && |m| == |m0|
    && (forall k :: 0 <= k < |m| && m[k] != m0[k] ==> sb.bmapstart + k in lg)
    && (forall x :: x in lg ==> x in lg0 || sb.bmapstart <= x < sb.bmapstart + |m|)
  }

  lemma BitmapLogsTwice(sb: Superblock, m0: Bitmap, lg0: set<nat>, m1: Bitmap, lg1: set<nat>, m: Bitmap, lg: set<nat>)
    requires BitmapLogs(sb, m0, lg0, m1, lg1) && BitmapLogs(sb, m1, lg1, m, lg)
    ensures BitmapLogs(sb, m0, lg0, m, lg)
  {
    forall k | 0 <= k < |m| && m[k] != m0[k]
      ensures sb.bmapstart + k in lg
    {
      assert m1[k] != m0[k] || m[k] != m1[k];
    }
  }

  /** What bfree changes it logs. */
  lemma LogsClear(sb: Superblock, m: Bitmap, lg: set<nat>, b: nat)
    requires BitmapOk(sb, m) && b < sb.size
    ensures BitmapLogs(sb, m, lg, Clear(sb, m, b), lg + {sb.Bblock(b)})
  {
    hide Less;
  }

  /** What balloc changes it logs. */
  lemma LogsAlloc(sb: Superblock, b0: seq<Block>, m0: Bitmap, lg0: set<nat>, r: nat, m: Bitmap)
    requires sb.Ok() && |b0| == sb.size && BitmapOk(sb, m0) && r < sb.size && m == Mark(sb, m0, r)
    ensures LogsAll(sb, b0, m0, lg0, b0[r := ZeroBlock()], m, lg0 + {sb.Bblock(r), r})
  {
    hide With;
    forall k | 0 <= k < |m| && m[k] != m0[k]
      ensures sb.bmapstart + k == sb.Bblock(r)
    {
    }
  }

  lemma LogsGrow(sb: Superblock, b0: seq<Block>, m0: Bitmap, lg0: set<nat>, b: seq<Block>, m: Bitmap, lg: set<nat>)
    requires LogsAll(sb, b0, m0, lg0, b, m, lg)
    ensures lg0 <= lg
  {
  }

  lemma LogsNone(sb: Superblock, b: seq<Block>, m: Bitmap, lg: set<nat>)
    ensures LogsAll(sb, b, m, lg, b, m, lg)
  {
  }

  lemma LogsMore(sb: Superblock, b0: seq<Block>, m0: Bitmap, lg0: set<nat>, b: seq<Block>, m: Bitmap, lg: set<nat>, x: nat)
    requires LogsAll(sb, b0, m0, lg0, b, m, lg)
    ensures LogsAll(sb, b0, m0, lg0, b, m, lg + {x})
  {
  }

  lemma ButMore(sb: Superblock, b0: seq<Block>, m0: Bitmap, lg0: set<nat>, b: seq<Block>, m: Bitmap, lg: set<nat>, x: nat, y: nat)
    requires LogsBut(sb, b0, m0, lg0, b, m, lg, x)
    ensures LogsBut(sb, b0, m0, lg0, b, m, lg + {y}, x)
    ensures x != y ==> (LogsAll(sb, b0, m0, lg0, b, m, lg + {y}) <==> LogsAll(sb, b0, m0, lg0, b, m, lg))
  {
  }

  lemma ButUnlogged(sb: Superblock, b0: seq<Block>, m0: Bitmap, lg0: set<nat>, b: seq<Block>, m: Bitmap, lg: set<nat>, x: nat)
    requires LogsBut(sb, b0, m0, lg0, b, m, lg, x) && !LogsAll(sb, b0, m0, lg0, b, m, lg)
    ensures x < |b| == |b0| && b[x] != b0[x] && x !in lg
  {
  }

  /** A store to one block. */
  lemma ButStore(sb: Superblock, b: seq<Block>, m: Bitmap, lg: set<nat>, x: nat, c: Block)
    requires x < |b|
    ensures LogsBut(sb, b, m, lg, b[x := c], m, lg, x)
  {
  }

  /** A logged store to one block. */
  lemma LogsStore(sb: Superblock, b: seq<Block>, m: Bitmap, lg: set<nat>, x: nat, c: Block)
    requires x < |b|
    ensures LogsAll(sb, b, m, lg, b[x := c], m, lg + {x})
  {
  }

  /** What bmap passes to log_write: the new block, the indirect block, and one
      bitmap block for each block it had to allocate. */
  ghost predicate BmapLogs(sb: Superblock, v: Volume, lg: set<nat>, w: Volume, lg': set<nat>,
                           i: nat, bn: nat, addr: nat, maps: set<nat>)
    requires Shaped(sb, v) && Shaped(sb, w) && i < sb.ninodes && bn < MAXFILE
  {
    && lg' <= lg + maps + (if addr == 0 then {} else {addr})
              + (if bn < NDIRECT then {} else {w.table[i].addrs[NDIRECT]})
    && |maps| <= (if Named(sb, v, i, SlotOf(bn)) == 0 then 1 else 0)
                 + (if bn >= NDIRECT && v.table[i].addrs[NDIRECT] == 0 then 1 else 0)
    && OneMap(sb, maps)
  }

  /** On a disk with one bitmap block, that is the one. */
  ghost predicate OneMap(sb: Superblock, maps: set<nat>) {
    sb.size <= BPB ==> maps <= {sb.bmapstart}
  }

  lemma NoLogs(sb: Superblock, v: Volume, lg: set<nat>, i: nat, bn: nat)
    requires Shaped(sb, v) && i < sb.ninodes && bn < MAXFILE
    ensures BmapLogs(sb, v, lg, v, lg, i, bn, 0, {})
  {
  }

  lemma UnionBound(a: set<nat>, b: set<nat>)
    ensures |a + b| <= |a| + |b|
  {
    assert a + b == a + (b - a);
    assert |a + (b - a)| == |a| + |b - a|;
    SubsetBound(b - a, b);
  }

  lemma {:induction false} SubsetBound(a: set<nat>, b: set<nat>)
    requires a <= b
    ensures |a| <= |b|
    decreases |a|
  {
    if a != {} {
      var x :| x in a;
      SubsetBound(a - {x}, b - {x});
    }
  }

  /** What filling slot s of inode i passes to log_write, the indirect block aside. */
  ghost predicate SlotLogs(sb: Superblock, v: Volume, lg: set<nat>, lg': set<nat>, i: nat, s: nat, addr: nat,
      maps: set<nat>,
                           extra: set<nat>)
    requires Shaped(sb, v) && i < sb.ninodes && s < NSLOTS
  {
    && lg' <= lg + maps + extra + (if addr == 0 then {} else {addr})
    && |maps| <= (if Named(sb, v, i, s) == 0 then 1 else 0)
    && OneMap(sb, maps)
  }

  /** An indirect block x and then an entry in it. */
  lemma BothLog(sb: Superblock, v: Volume, lg: set<nat>, u: Volume, lg1: set<nat>, w: Volume, lg2: set<nat>,
                i: nat, bn: nat, x: nat, addr: nat, maps: set<nat>, more: set<nat>)
    requires Shaped(sb, v) && Shaped(sb, u) && Shaped(sb, w) && i < sb.ninodes && NDIRECT <= bn < MAXFILE
    requires SlotLogs(sb, v, lg, lg1, i, NDIRECT, x, maps, {}) && SlotLogs(sb, u, lg1, lg2, i, SlotOf(bn), addr,
        more, {x})
    requires x == w.table[i].addrs[NDIRECT] && Named(sb, v, i, SlotOf(bn)) == Named(sb, u, i, SlotOf(bn))
    ensures BmapLogs(sb, v, lg, w, lg2, i, bn, addr, maps + more)
  {
    UnionBound(maps, more);
  }

  /** Giving inode i its indirect block changes no other name. */
  lemma AfterIndirect(sb: Superblock, v: Volume, u: Volume, i: nat, bn: nat)
    requires Shaped(sb, v) && Shaped(sb, u) && i < sb.ninodes && NDIRECT <= bn < MAXFILE
    requires if v.table[i].addrs[NDIRECT] != 0 then u == v else SameNamesBut(sb, v, u, i, NDIRECT)
    ensures Named(sb, v, i, SlotOf(bn)) == Named(sb, u, i, SlotOf(bn))
    ensures Named(sb, v, i, SlotOf(bn)) != 0 ==> v.table[i].addrs[NDIRECT] != 0
  {
  }

  lemma OneMapOf(sb: Superblock, b: nat)
    requires b < sb.size
    ensures OneMap(sb, {sb.Bblock(b)})
  {
  }

  lemma ExtendsIndirect(sb: Superblock, v: Volume, o: Owners, w: Volume, q: Owners, i: nat)
    requires Shaped(sb, v) && Shaped(sb, w) && Extends(sb, v, o, w, q, i) && i < sb.ninodes
    ensures w.table[i].typ == v.table[i].typ
    ensures v.table[i].addrs[NDIRECT] != 0 ==> w.table[i].addrs[NDIRECT] == v.table[i].addrs[NDIRECT]
  {
    assert Named(sb, v, i, NDIRECT) == v.table[i].addrs[NDIRECT];
    assert Named(sb, w, i, NDIRECT) == w.table[i].addrs[NDIRECT];
  }

  lemma EntryExtends(sb: Superblock, v: Volume, o: Owners, w: Volume, i: nat, k: nat, r: nat)
    requires Shaped(sb, v) && Shaped(sb, w) && Owned(sb, v, o) && i < sb.ninodes && k < NINDIRECT && r !in o
    requires v.table[i].addrs[NDIRECT] != 0 && Named(sb, v, i, NDIRECT + 1 + k) == 0
    requires w.table == v.table && SameNamesBut(sb, v, w, i, NDIRECT + 1 + k)
    requires forall b :: 0 <= b < sb.size && b != r && b != v.table[i].addrs[NDIRECT] ==> w.blocks[b] == v.blocks[b]
    requires r < sb.size && w.blocks[r] == ZeroBlock() && Named(sb, w, i, NDIRECT + 1 + k) == r
    ensures Extends(sb, v, o, w, o[r := Slot(i, NDIRECT + 1 + k)], i)
  {
    var x := v.table[i].addrs[NDIRECT];
    assert Named(sb, v, i, NDIRECT) == x;
    assert o[x] == Slot(i, NDIRECT);
  }

  /** Allocating block r for an empty entry of inode i's indirect block x. */
  lemma EntryAttached(sb: Superblock, v: Volume, o: Owners, i: nat, k: nat, r: nat)
    requires Sound(sb, v, o) && i < sb.ninodes && v.table[i].typ != 0 && k < NINDIRECT
    requires r !in o && sb.datastart <= r < sb.size
    requires v.table[i].addrs[NDIRECT] != 0 && Named(sb, v, i, NDIRECT + 1 + k) == 0
    ensures var x := v.table[i].addrs[NDIRECT];
            var w := v.(blocks := v.blocks[r := ZeroBlock()][x := SetWord(v.blocks[x], k, r)]);
            var q := o[r := Slot(i, NDIRECT + 1 + k)];
            && r != x
            && Sound(sb, w, q) && Extends(sb, v, o, w, q, i)
            && SameNamesBut(sb, v, w, i, NDIRECT + 1 + k)
            && Named(sb, w, i, NDIRECT + 1 + k) == r
  {
    var x := v.table[i].addrs[NDIRECT];
    assert Named(sb, v, i, NDIRECT) == x && x in o;
    ZeroedSound(sb, v, o, r);
    var z := v.(blocks := v.blocks[r := ZeroBlock()]);
    SetEntryNames(sb, z, o, i, k, r);
    var w := z.(blocks := z.blocks[x := SetWord(z.blocks[x], k, r)]);
    AttachSound(sb, z, w, o, i, NDIRECT + 1 + k, r);
    EntryExtends(sb, v, o, w, i, k, r);
  }

  lemma ExtendsNone(sb: Superblock, v: Volume, o: Owners, i: nat)
    requires Shaped(sb, v) && Owned(sb, v, o)
    ensures Extends(sb, v, o, v, o, i)
  {
  }

  lemma ExtendsTwice(sb: Superblock, v: Volume, o: Owners, u: Volume, p: Owners, w: Volume, q: Owners, i: nat)
    requires Shaped(sb, v) && Shaped(sb, u) && Shaped(sb, w) && Owned(sb, u, p)
    requires Extends(sb, v, o, u, p, i) && Extends(sb, u, p, w, q, i)
    ensures Extends(sb, v, o, w, q, i)
  {
  }

  lemma MarkedMore(sb: Superblock, bm: Bitmap, o: Owners, b: nat, s: Slot)
    requires Marked(sb, bm, o) && sb.datastart <= b < sb.size
    ensures Marked(sb, Mark(sb, bm, b), o[b := s])
  {
    forall c | 0 <= c < sb.size
      ensures BitmapOk(sb, Mark(sb, bm, b))
      ensures Bit(sb, Mark(sb, bm, b), c) <==> c < sb.datastart || c in o[b := s]
    {
      MarkBit(sb, bm, b, c);
    }
  }

  lemma MarkedLess(sb: Superblock, bm: Bitmap, o: Owners, b: nat)
    requires Marked(sb, bm, o) && sb.datastart <= b < sb.size
    ensures Marked(sb, Clear(sb, bm, b), o - {b})
  {
    forall c | 0 <= c < sb.size
      ensures BitmapOk(sb, Clear(sb, bm, b))
      ensures Bit(sb, Clear(sb, bm, b), c) <==> c < sb.datastart || c in o - {b}
    {
      ClearBit(sb, bm, b, c);
    }
  }

  /** v with freshly allocated block b zeroed. */
  lemma ZeroedSound(sb: Superblock, v: Volume, o: Owners, b: nat)
    requires Sound(sb, v, o) && b !in o && sb.datastart <= b < sb.size
    ensures Sound(sb, v.(blocks := v.blocks[b := ZeroBlock()]), o)
    ensures SameNames(sb, v, v.(blocks := v.blocks[b := ZeroBlock()]))
  {
    var w := v.(blocks := v.blocks[b := ZeroBlock()]);
    DataNotIndirect(sb, v, o, b);
    RewriteKeepsNames(sb, v, b, ZeroBlock());
    SameNamesSound(sb, v, w, o);
  }

  lemma SameNamesSound(sb: Superblock, v: Volume, w: Volume, o: Owners)
    requires Sound(sb, v, o) && Shaped(sb, w) && SameNames(sb, v, w)
    requires forall i :: 0 <= i < sb.ninodes ==> w.table[i].size == v.table[i].size && w.table[i].typ == v.table[i].typ
    ensures Sound(sb, w, o)
  {
    SameNamesOwned(sb, v, w, o);
    forall i | 0 <= i < sb.ninodes
      ensures NoHoles(sb, w, i, w.table[i].size)
    {
      assert NoHoles(sb, v, i, v.table[i].size);
    }
  }

  /** Naming one more block keeps the volume sound. */
  lemma AttachSound(sb: Superblock, v: Volume, w: Volume, o: Owners, i: nat, s: nat, b: nat)
    requires Sound(sb, v, o) && Shaped(sb, w)
    requires i < sb.ninodes && s < NSLOTS && SameNamesBut(sb, v, w, i, s) && v.table[i].typ != 0
    requires Named(sb, v, i, s) == 0 && Named(sb, w, i, s) == b
    requires b !in o && sb.datastart <= b < sb.size
    requires forall j :: 0 <= j < sb.ninodes ==> w.table[j].size == v.table[j].size && w.table[j].typ == v.table[j].typ
    ensures Sound(sb, w, o[b := Slot(i, s)])
  {
    AttachOwned(sb, v, w, o, i, s, b);
    forall j | 0 <= j < sb.ninodes
      ensures NoHoles(sb, w, j, w.table[j].size)
    {
      assert NoHoles(sb, v, j, v.table[j].size);
    }
  }

  lemma Split(b: nat, bi: nat)
    requires b % BPB == 0 && bi < BPB
    ensures (b + bi) / BPB == b / BPB && (b + bi) % BPB == bi
  {
  }
}
