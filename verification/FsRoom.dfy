/** Whether the free blocks suffice for a range of a file, and what filling its blocks
    one after the other leaves of that. */
module FsRoom {
  import opened Params
  import opened FsVolume
  import opened FsGrow

  ghost function FreeBlocks(sb: Superblock, o: Owners): set<nat> {
    set c: nat | sb.datastart <= c < sb.size && c !in o
  }

  /** The blocks from a up to e that file i does not have. */
  ghost function Missing(sb: Superblock, v: Volume, i: nat, a: nat, e: nat): set<nat>
    requires Shaped(sb, v) && i < sb.ninodes && e <= MAXFILE
  {
    set bn: nat | a <= bn < e && Named(sb, v, i, SlotOf(bn)) == 0
  }

  /** How many blocks bmap has to allocate for them, the indirect block included. */
  ghost function Needs(sb: Superblock, v: Volume, i: nat, a: nat, e: nat): nat
    requires Shaped(sb, v) && i < sb.ninodes && e <= MAXFILE
  {
    |Missing(sb, v, i, a, e)| + if a < e && NDIRECT < e && v.table[i].addrs[NDIRECT] == 0 then 1 else 0
  }

  ghost predicate Room(sb: Superblock, v: Volume, o: Owners, i: nat, a: nat, e: nat)
    requires Shaped(sb, v) && i < sb.ninodes && e <= MAXFILE
  {
    Needs(sb, v, i, a, e) <= |FreeBlocks(sb, o)|
  }

  lemma NoNeeds(sb: Superblock, v: Volume, o: Owners, i: nat, a: nat)
    requires Shaped(sb, v) && i < sb.ninodes && a <= MAXFILE
    ensures Room(sb, v, o, i, a, a)
  {
    assert Missing(sb, v, i, a, a) == {};
  }

  lemma RoomLess(sb: Superblock, v: Volume, o: Owners, i: nat, a: nat, d: nat, e: nat)
    requires Shaped(sb, v) && i < sb.ninodes && d <= e <= MAXFILE && Room(sb, v, o, i, a, e)
    ensures Room(sb, v, o, i, a, d)
  {
    SubsetBound(Missing(sb, v, i, a, d), Missing(sb, v, i, a, e));
  }

  /** bmap finds too few blocks for block bn exactly if there is no room for it. */
  lemma RoomOne(sb: Superblock, v: Volume, o: Owners, i: nat, bn: nat)
    requires Shaped(sb, v) && i < sb.ninodes && bn < MAXFILE
    ensures Room(sb, v, o, i, bn, bn + 1) <==> !Stuck(sb, v, o, i, bn)
  {
    assert Missing(sb, v, i, bn, bn + 1) == if Named(sb, v, i, SlotOf(bn)) == 0 then {bn} else {};
    NoneCount(sb, o);
    OneCount(sb, o);
  }

  lemma NoneCount(sb: Superblock, o: Owners)
    ensures NoneFree(sb, o) <==> |FreeBlocks(sb, o)| == 0
  {
    if !NoneFree(sb, o) {
      var c :| sb.datastart <= c < sb.size && c !in o;
      assert c in FreeBlocks(sb, o);
    }
  }

  lemma OneCount(sb: Superblock, o: Owners)
    ensures OneFreeAtMost(sb, o) <==> |FreeBlocks(sb, o)| <= 1
  {
    var f := FreeBlocks(sb, o);
    if OneFreeAtMost(sb, o) && f != {} {
      var c :| c in f;
      assert f == {c};
    }
    if !OneFreeAtMost(sb, o) {
      var b, c :| sb.datastart <= b < sb.size && sb.datastart <= c < sb.size && b !in o && c !in o && b != c;
      SubsetBound({b, c}, f);
    }
  }

  lemma FreeLess(sb: Superblock, o: Owners, x: nat, s: Slot)
    requires sb.datastart <= x < sb.size && x !in o
    ensures |FreeBlocks(sb, o)| == |FreeBlocks(sb, o[x := s])| + 1
  {
    assert FreeBlocks(sb, o) == FreeBlocks(sb, o[x := s]) + {x};
  }

  /** bmap has given file i its block bn, and no other block of the file has changed:
      as many free blocks are gone as it had to allocate. */
  ghost predicate Grew(sb: Superblock, v: Volume, o: Owners, w: Volume, q: Owners, i: nat, bn: nat)
    requires Shaped(sb, v) && Shaped(sb, w) && i < sb.ninodes && bn < MAXFILE
  {
    && (forall b :: 0 <= b < MAXFILE && b != bn ==> Named(sb, w, i, SlotOf(b)) == Named(sb, v, i, SlotOf(b)))
    && Named(sb, w, i, SlotOf(bn)) != 0
    && (if bn < NDIRECT then w.table[i].addrs[NDIRECT] == v.table[i].addrs[NDIRECT] else w.table[i].addrs[NDIRECT] != 0)
    && |FreeBlocks(sb, o)| == |FreeBlocks(sb, q)| + (if Named(sb, v, i, SlotOf(bn)) == 0 then 1 else 0)
                              + (if bn >= NDIRECT && v.table[i].addrs[NDIRECT] == 0 then 1 else 0)
  }

  lemma GrewNone(sb: Superblock, v: Volume, o: Owners, i: nat, bn: nat)
    requires Shaped(sb, v) && i < sb.ninodes && bn < MAXFILE && Named(sb, v, i, SlotOf(bn)) != 0
    ensures Grew(sb, v, o, v, o, i, bn)
  {
  }

  lemma GrewDirect(sb: Superblock, v: Volume, o: Owners, w: Volume, i: nat, bn: nat, r: nat)
    requires Shaped(sb, v) && Shaped(sb, w) && i < sb.ninodes && bn < NDIRECT
    requires Named(sb, v, i, bn) == 0 && Named(sb, w, i, bn) == r != 0 && SameNamesBut(sb, v, w, i, bn)
    requires sb.datastart <= r < sb.size && r !in o
    ensures Grew(sb, v, o, w, o[r := Slot(i, bn)], i, bn)
  {
    FreeLess(sb, o, r, Slot(i, bn));
    assert Named(sb, w, i, NDIRECT) == Named(sb, v, i, NDIRECT);
  }

  /** bmap past the direct blocks: first the indirect block x, if it is missing, then the
      entry. */
  lemma GrewIndirect(sb: Superblock, v: Volume, o: Owners, u: Volume, p: Owners, w: Volume, q: Owners, i: nat, bn: nat,
                     x: nat, r: nat)
    requires Shaped(sb, v) && Shaped(sb, u) && Shaped(sb, w) && i < sb.ninodes && NDIRECT <= bn < MAXFILE
    requires x == u.table[i].addrs[NDIRECT] == w.table[i].addrs[NDIRECT] != 0
    requires if v.table[i].addrs[NDIRECT] != 0 then u == v && p == o
             else SameNamesBut(sb, v, u, i, NDIRECT) && sb.datastart <= x < sb.size && x !in o && p == o[x := Slot(i, NDIRECT)]
    requires if Named(sb, u, i, SlotOf(bn)) != 0 then w == u && q == p
             else && SameNamesBut(sb, u, w, i, SlotOf(bn)) && Named(sb, w, i, SlotOf(bn)) == r != 0
                  && sb.datastart <= r < sb.size && r !in p && q == p[r := Slot(i, SlotOf(bn))]
    ensures Grew(sb, v, o, w, q, i, bn)
  {
    hide FreeBlocks;
    if v.table[i].addrs[NDIRECT] == 0 {
      FreeLess(sb, o, x, Slot(i, NDIRECT));
    }
    if Named(sb, u, i, SlotOf(bn)) == 0 {
      FreeLess(sb, p, r, Slot(i, SlotOf(bn)));
    }
  }

  lemma GrewThenSame(sb: Superblock, v: Volume, o: Owners, u: Volume, w: Volume, q: Owners, i: nat, bn: nat)
    requires Shaped(sb, v) && Shaped(sb, u) && Shaped(sb, w) && i < sb.ninodes && bn < MAXFILE
    requires Grew(sb, v, o, u, q, i, bn) && SameNames(sb, u, w)
    ensures Grew(sb, v, o, w, q, i, bn)
  {
    hide FreeBlocks;
    assert Named(sb, w, i, NDIRECT) == Named(sb, u, i, NDIRECT);
  }

  /** With block bn in place, what is left to do is the rest. */
  lemma RoomNext(sb: Superblock, v: Volume, o: Owners, w: Volume, q: Owners, i: nat, bn: nat, e: nat)
    requires Shaped(sb, v) && Shaped(sb, w) && i < sb.ninodes && bn < e <= MAXFILE && Grew(sb, v, o, w, q, i, bn)
    ensures Room(sb, v, o, i, bn, e) <==> Room(sb, w, q, i, bn + 1, e)
  {
    hide FreeBlocks, Missing, Named;
    MissingNext(sb, v, o, w, q, i, bn, e);
  }

  lemma MissingNext(sb: Superblock, v: Volume, o: Owners, w: Volume, q: Owners, i: nat, bn: nat, e: nat)
    requires Shaped(sb, v) && Shaped(sb, w) && i < sb.ninodes && bn < e <= MAXFILE && Grew(sb, v, o, w, q, i, bn)
    ensures |Missing(sb, v, i, bn, e)| == |Missing(sb, w, i, bn + 1, e)| + if Named(sb, v, i, SlotOf(bn)) == 0 then 1 else 0
  {
    hide FreeBlocks, Named;
    var all, rest := Missing(sb, v, i, bn, e), Missing(sb, w, i, bn + 1, e);
    if Named(sb, v, i, SlotOf(bn)) == 0 {
      assert all == rest + {bn};
    } else {
      assert all == rest;
    }
  }

  /** The blocks from a up to c are in place: there was room for them, and for more exactly
      if there is room now for what is left. */
  ghost predicate Filled(sb: Superblock, v: Volume, o: Owners, w: Volume, q: Owners, i: nat, a: nat, c: nat)
    requires Shaped(sb, v) && Shaped(sb, w) && i < sb.ninodes
  {
    c <= MAXFILE && forall e :: c <= e <= MAXFILE ==> (Room(sb, v, o, i, a, e) <==> Room(sb, w, q, i, c, e))
  }

  lemma FilledStart(sb: Superblock, v: Volume, o: Owners, i: nat, a: nat)
    requires Shaped(sb, v) && i < sb.ninodes && a <= MAXFILE
    ensures Filled(sb, v, o, v, o, i, a, a)
  {
  }

  lemma FilledNext(sb: Superblock, v: Volume, o: Owners, u: Volume, p: Owners, w: Volume, q: Owners, i: nat, a: nat, c: nat)
    requires Shaped(sb, v) && Shaped(sb, u) && Shaped(sb, w) && i < sb.ninodes && c < MAXFILE
    requires Filled(sb, v, o, u, p, i, a, c) && Grew(sb, u, p, w, q, i, c)
    ensures Filled(sb, v, o, w, q, i, a, c + 1)
  {
    hide Room, Grew;
    forall e | c + 1 <= e <= MAXFILE
      ensures Room(sb, v, o, i, a, e) <==> Room(sb, w, q, i, c + 1, e)
    {
      RoomNext(sb, u, p, w, q, i, c, e);
    }
  }

  lemma FilledRoom(sb: Superblock, v: Volume, o: Owners, w: Volume, q: Owners, i: nat, a: nat, c: nat, e: nat)
    requires Shaped(sb, v) && Shaped(sb, w) && i < sb.ninodes && Filled(sb, v, o, w, q, i, a, c) && e <= c
    ensures Room(sb, v, o, i, a, e)
  {
    hide Room;
    NoNeeds(sb, w, q, i, c);
    RoomLess(sb, v, o, i, a, e, c);
  }

  lemma FilledStuck(sb: Superblock, v: Volume, o: Owners, w: Volume, q: Owners, i: nat, a: nat, c: nat, e: nat)
    requires Shaped(sb, v) && Shaped(sb, w) && i < sb.ninodes && Filled(sb, v, o, w, q, i, a, c)
    requires c < e <= MAXFILE && Stuck(sb, w, q, i, c)
    ensures !Room(sb, v, o, i, a, e)
  {
    hide Room, Stuck;
    RoomOne(sb, w, q, i, c);
    if Room(sb, w, q, i, c, e) {
      RoomLess(sb, w, q, i, c, c + 1, e);
    }
  }

  /** A new size changes nothing about that. */
  lemma FilledSame(sb: Superblock, v: Volume, o: Owners, u: Volume, w: Volume, q: Owners, i: nat, a: nat, c: nat)
    requires Shaped(sb, v) && Shaped(sb, u) && Shaped(sb, w) && i < sb.ninodes && SameNames(sb, u, w)
    requires Filled(sb, v, o, u, q, i, a, c)
    ensures Filled(sb, v, o, w, q, i, a, c)
  {
    hide FreeBlocks;
    assert Named(sb, w, i, NDIRECT) == Named(sb, u, i, NDIRECT);
    forall e | c <= e <= MAXFILE
      ensures Room(sb, u, q, i, c, e) == Room(sb, w, q, i, c, e)
    {
      MissingSame(sb, u, w, i, c, e);
    }
  }

  lemma MissingSame(sb: Superblock, u: Volume, w: Volume, i: nat, c: nat, e: nat)
    requires Shaped(sb, u) && Shaped(sb, w) && i < sb.ninodes && SameNames(sb, u, w) && e <= MAXFILE
    ensures Missing(sb, w, i, c, e) == Missing(sb, u, i, c, e)
  {
    hide Named;
  }

  /** There is room from block c on exactly if there is from the block before, which the file
      has. */
  lemma RoomBack(sb: Superblock, v: Volume, o: Owners, i: nat, c: nat, e: nat)
    requires Shaped(sb, v) && i < sb.ninodes && c < e <= MAXFILE && Named(sb, v, i, SlotOf(c)) != 0
    ensures Room(sb, v, o, i, c, e) <==> Room(sb, v, o, i, c + 1, e)
  {
    GrewNone(sb, v, o, i, c);
    RoomNext(sb, v, o, v, o, i, c, e);
  }

  /** First the blocks from a up to c, then those from d on, where d is c or the block before
      it. */
  lemma FilledTwice(sb: Superblock, v: Volume, o: Owners, u: Volume, p: Owners, w: Volume, q: Owners, i: nat,
                    a: nat, c: nat, d: nat, f: nat)
    requires Shaped(sb, v) && Shaped(sb, u) && Shaped(sb, w) && i < sb.ninodes
    requires Filled(sb, v, o, u, p, i, a, c) && Filled(sb, u, p, w, q, i, d, f) && c <= f
    requires d == c || (d + 1 == c && Named(sb, u, i, SlotOf(d)) != 0)
    ensures Filled(sb, v, o, w, q, i, a, f)
  {
    hide Room;
    forall e | f <= e <= MAXFILE
      ensures Room(sb, v, o, i, a, e) <==> Room(sb, w, q, i, f, e)
    {
      if d < c {
        RoomBack(sb, u, p, i, d, e);
      }
    }
  }

  /** What is not yet written to: the blocks of file i from block c on are as in v, and of
      them only those have been logged that lg holds. */
  ghost predicate Ahead(sb: Superblock, v: Volume, lg: set<nat>, w: Volume, lg': set<nat>, i: nat, c: nat)
    requires Shaped(sb, v) && Shaped(sb, w) && i < sb.ninodes
  {
    forall bn :: c <= bn < MAXFILE ==> SameAt(sb, v, lg, w, lg', i, bn)
  }

  lemma AheadStart(sb: Superblock, v: Volume, o: Owners, lg: set<nat>, i: nat, c: nat)
    requires Sound(sb, v, o) && i < sb.ninodes
    ensures Ahead(sb, v, lg, v, lg, i, c)
  {
    forall bn | c <= bn < MAXFILE
      ensures SameAt(sb, v, lg, v, lg, i, bn)
    {
      if Named(sb, v, i, SlotOf(bn)) != 0 {
        NamedInRange(sb, v, o, i, SlotOf(bn));
      }
    }
  }

  ghost predicate SameAt(sb: Superblock, v: Volume, lg: set<nat>, w: Volume, lg': set<nat>, i: nat, bn: nat)
    requires Shaped(sb, v) && Shaped(sb, w) && i < sb.ninodes && bn < MAXFILE
  {
    var a := Named(sb, v, i, SlotOf(bn));
    && Named(sb, w, i, SlotOf(bn)) == a
    && (a != 0 ==> a < sb.size && w.blocks[a] == v.blocks[a] && (a in lg' ==> a in lg))
  }

  /** Of the data blocks in use only block a may have changed or been logged. */
  ghost predicate KeptBut(sb: Superblock, v: Volume, o: Owners, lg: set<nat>, w: Volume, lg': set<nat>, a: nat)
    requires Shaped(sb, v) && Shaped(sb, w)
  {
    forall b :: b in o && b < sb.size && o[b].idx != NDIRECT && b != a ==>
      w.blocks[b] == v.blocks[b] && (b in lg' ==> b in lg)
  }

  /** An allocation takes a block nobody uses, and writes to no other but an indirect block x. */
  lemma KeptAlloc(sb: Superblock, v: Volume, o: Owners, lg: set<nat>, w: Volume, lg': set<nat>, r: nat, x: nat)
    requires Shaped(sb, v) && Shaped(sb, w) && Owned(sb, v, o) && r !in o && r < sb.size
    requires lg' <= lg + {sb.Bblock(r), r, x} && (x in o ==> o[x].idx == NDIRECT)
    requires forall b :: 0 <= b < sb.size && b != r && b != x ==> w.blocks[b] == v.blocks[b]
    ensures KeptBut(sb, v, o, lg, w, lg', 0)
  {
    hide Named;
    BblockLow(sb, r);
    forall b | b in o && b < sb.size && o[b].idx != NDIRECT && b != 0
      ensures w.blocks[b] == v.blocks[b] && (b in lg' ==> b in lg)
    {
      assert Records(sb, v, o, b);
      assert b != r && b != x && b != sb.Bblock(r);
    }
  }

  lemma BblockLow(sb: Superblock, b: nat)
    requires sb.Ok() && b < sb.size
    ensures sb.Bblock(b) < sb.datastart
  {
  }

  lemma KeptEntry(sb: Superblock, v: Volume, o: Owners, lg: set<nat>, w: Volume, lg': set<nat>, i: nat, r: nat, x: nat)
    requires Shaped(sb, v) && Shaped(sb, w) && Owned(sb, v, o) && i < sb.ninodes && r !in o && r < sb.size
    requires x == v.table[i].addrs[NDIRECT] != 0 && lg' <= lg + {sb.Bblock(r), r, x}
    requires forall b :: 0 <= b < sb.size && b != r && b != x ==> w.blocks[b] == v.blocks[b]
    ensures KeptBut(sb, v, o, lg, w, lg', 0)
  {
    assert Named(sb, v, i, NDIRECT) == x;
    KeptAlloc(sb, v, o, lg, w, lg', r, x);
  }

  lemma KeptTwice(sb: Superblock, v: Volume, o: Owners, lg: set<nat>, u: Volume, p: Owners, lg1: set<nat>, w: Volume,
                  lg2: set<nat>, a: nat)
    requires Shaped(sb, v) && Shaped(sb, u) && Shaped(sb, w) && Owned(sb, v, o)
    requires forall b :: b in o ==> b in p && p[b] == o[b]
    requires KeptBut(sb, v, o, lg, u, lg1, 0) && KeptBut(sb, u, p, lg1, w, lg2, a)
    ensures KeptBut(sb, v, o, lg, w, lg2, a)
  {
    forall b | b in o && b < sb.size && o[b].idx != NDIRECT && b != a
      ensures w.blocks[b] == v.blocks[b] && (b in lg2 ==> b in lg)
    {
      assert Records(sb, v, o, b);
    }
  }

  lemma KeptSame(sb: Superblock, v: Volume, o: Owners, lg: set<nat>)
    requires Shaped(sb, v)
    ensures KeptBut(sb, v, o, lg, v, lg, 0)
  {
  }

  lemma KeptStore(sb: Superblock, v: Volume, o: Owners, lg: set<nat>, w: Volume, lg': set<nat>, a: nat, c: Block)
    requires Shaped(sb, v) && Shaped(sb, w) && a < sb.size && w.blocks == v.blocks[a := c] && lg' <= lg + {a}
    ensures KeptBut(sb, v, o, lg, w, lg', a)
  {
  }

  lemma AheadNext(sb: Superblock, v: Volume, lg: set<nat>, u: Volume, p: Owners, lg1: set<nat>, w: Volume, q: Owners,
                  lg2: set<nat>, i: nat, c: nat)
    requires Shaped(sb, v) && Sound(sb, u, p) && Sound(sb, w, q) && i < sb.ninodes && c < MAXFILE
    requires Ahead(sb, v, lg, u, lg1, i, c) && Grew(sb, u, p, w, q, i, c)
    requires KeptBut(sb, u, p, lg1, w, lg2, Named(sb, w, i, SlotOf(c)))
    ensures Ahead(sb, v, lg, w, lg2, i, c + 1)
  {
    forall bn | c + 1 <= bn < MAXFILE
      ensures SameAt(sb, v, lg, w, lg2, i, bn)
    {
      AheadAt(sb, v, lg, u, p, lg1, w, q, lg2, i, c, bn);
    }
  }

  lemma AheadAt(sb: Superblock, v: Volume, lg: set<nat>, u: Volume, p: Owners, lg1: set<nat>, w: Volume, q: Owners,
                lg2: set<nat>, i: nat, c: nat, bn: nat)
    requires Shaped(sb, v) && Sound(sb, u, p) && Sound(sb, w, q) && i < sb.ninodes && c < bn < MAXFILE
    requires SameAt(sb, v, lg, u, lg1, i, bn) && Grew(sb, u, p, w, q, i, c)
    requires KeptBut(sb, u, p, lg1, w, lg2, Named(sb, w, i, SlotOf(c)))
    ensures SameAt(sb, v, lg, w, lg2, i, bn)
  {
    hide NoHoles, FreeBlocks;
    var a := Named(sb, u, i, SlotOf(bn));
    if a != 0 {
      assert a in p && p[a] == Slot(i, SlotOf(bn));
      assert Named(sb, w, i, SlotOf(bn)) == a;
      if a == Named(sb, w, i, SlotOf(c)) {
        NotNamedTwice(sb, w, q, i, SlotOf(bn), i, SlotOf(c));
      }
    }
  }
}
