/** The bookkeeping of writei's loop: how far it has got, and which blocks it has
    passed to log_write. */
module FsWrite {
  import opened Basics
  import opened Params
  import opened FsVolume
  import opened FsBitmap
  import opened FsGrow
  import opened FsRoom
  import opened FsBytes

  function Max(a: nat, b: nat): nat {
    if a < b then b else a
  }

  /** The volume after storing `data` at off0, before the size is updated. */
  ghost predicate Progress(sb: Superblock, v0: Volume, v: Volume, o: Owners, i: nat, off0: nat, data: seq<Byte>)
    requires Shaped(sb, v0) && i < sb.ninodes
  {
    && Sound(sb, v, o)
    && Wrote(sb, v0, v, i, off0, data)
    && (forall j :: 0 <= j < sb.ninodes && j != i ==> SameBytes(sb, v0, v, j) && v.table[j] == v0.table[j])
    && v.table[i] == v0.table[i].(addrs := v.table[i].addrs)
    && NoHoles(sb, v, i, Max(v0.table[i].size, off0 + |data|))
  }

  lemma ProgressStart(sb: Superblock, v0: Volume, o: Owners, i: nat, off0: nat)
    requires Sound(sb, v0, o) && i < sb.ninodes && off0 <= v0.table[i].size
    ensures Progress(sb, v0, v0, o, i, off0, [])
  {
    assert NoHoles(sb, v0, i, v0.table[i].size);
  }

  /** The block that holds an unaligned starting offset already exists. */
  lemma FirstBlockNamed(sb: Superblock, v0: Volume, v: Volume, o: Owners, i: nat, off0: nat, data: seq<Byte>)
    requires Shaped(sb, v0) && i < sb.ninodes && Progress(sb, v0, v, o, i, off0, data) && off0 < MAXBYTES
    ensures off0 % BSIZE != 0 ==> Named(sb, v, i, SlotOf(off0 / BSIZE)) != 0
  {
    if off0 % BSIZE != 0 {
      assert off0 / BSIZE * BSIZE < off0;
    }
  }

  lemma ProgressSound(sb: Superblock, v0: Volume, v: Volume, o: Owners, i: nat, off0: nat, data: seq<Byte>)
    requires Shaped(sb, v0) && i < sb.ninodes && Progress(sb, v0, v, o, i, off0, data)
    ensures Sound(sb, v, o)
  {
  }

  lemma WroteTable(sb: Superblock, v0: Volume, v: Volume, o: Owners, i: nat, off0: nat, data: seq<Byte>)
    requires Shaped(sb, v0) && i < sb.ninodes && Progress(sb, v0, v, o, i, off0, data)
    ensures |v.table| == sb.ninodes && v.table[i].size == v0.table[i].size
  {
  }

  /** Where bmap runs out of space: at a block boundary, past the end of the file. */
  lemma NoSpaceAt(sb: Superblock, v0: Volume, v: Volume, o: Owners, i: nat, off0: nat, data: seq<Byte>, pos: nat)
    requires Shaped(sb, v0) && i < sb.ninodes && Progress(sb, v0, v, o, i, off0, data)
    requires pos == off0 + |data| < MAXBYTES && Named(sb, v, i, SlotOf(pos / BSIZE)) == 0
    ensures pos % BSIZE == 0 && v0.table[i].size <= pos
  {
    assert pos == pos / BSIZE * BSIZE + pos % BSIZE;
  }

  lemma WroteSame(sb: Superblock, v0: Volume, v: Volume, w: Volume, i: nat, off0: nat, data: seq<Byte>)
    requires Shaped(sb, v0) && Shaped(sb, v) && Shaped(sb, w) && i < sb.ninodes
    requires Wrote(sb, v0, v, i, off0, data) && SameBytes(sb, v, w, i)
    ensures Wrote(sb, v0, w, i, off0, data)
  {
    hide ByteAt, Shaped;
  }

  lemma ExtendsNoHoles(sb: Superblock, v: Volume, o: Owners, w: Volume, q: Owners, i: nat, size: nat)
    requires Shaped(sb, v) && Shaped(sb, w) && Extends(sb, v, o, w, q, i) && i < sb.ninodes && NoHoles(sb, v, i, size)
    ensures NoHoles(sb, w, i, size)
  {
    hide Named, Shaped;
  }

  lemma ProgressBmap(sb: Superblock, v0: Volume, v: Volume, o: Owners, w: Volume, q: Owners, i: nat, off0: nat,
      data: seq<Byte>)
    requires Shaped(sb, v0) && i < sb.ninodes && Progress(sb, v0, v, o, i, off0, data)
    requires Sound(sb, w, q) && Extends(sb, v, o, w, q, i)
    ensures Progress(sb, v0, w, q, i, off0, data)
  {
    forall j | 0 <= j < sb.ninodes
      ensures SameBytes(sb, v, w, j)
    {
      ExtendsBytes(sb, v, o, w, q, i, j);
    }
    ExtendsNoHoles(sb, v, o, w, q, i, Max(v0.table[i].size, off0 + |data|));
    WroteSame(sb, v0, v, w, i, off0, data);
    ProgressOthers(sb, v0, v, w, i);
    ExtendsTable(sb, v, o, w, q, i);
  }

  lemma ExtendsTable(sb: Superblock, v: Volume, o: Owners, w: Volume, q: Owners, i: nat)
    requires Shaped(sb, v) && Shaped(sb, w) && Extends(sb, v, o, w, q, i) && i < sb.ninodes
    ensures forall j :: 0 <= j < sb.ninodes && j != i ==> w.table[j] == v.table[j]
    ensures w.table[i] == v.table[i].(addrs := w.table[i].addrs)
  {
    hide Named;
  }

  lemma OverlayNothing(b: Block, at: nat)
    requires at <= BSIZE
    ensures Overlay(b, at, []) == b
  {
  }

  lemma OverlayPieced(sb: Superblock, v: Volume, i: nat, pos: nat, piece: seq<Byte>)
    requires Shaped(sb, v) && i < sb.ninodes && pos < MAXBYTES && pos % BSIZE + |piece| <= BSIZE
    requires 0 < Named(sb, v, i, SlotOf(pos / BSIZE)) < sb.size
    ensures Pieced(sb, v, i, pos, piece, Overlay(v.blocks[Named(sb, v, i, SlotOf(pos / BSIZE))], pos % BSIZE, piece))
  {
    var bn := pos / BSIZE;
    var c := Overlay(v.blocks[Named(sb, v, i, SlotOf(bn))], pos % BSIZE, piece);
    forall k | 0 <= k < BSIZE
      ensures c[k] == if pos % BSIZE <= k < pos % BSIZE + |piece| then piece[k - pos % BSIZE]
                      else ByteAt(sb, v, i, bn * BSIZE + k)
    {
      assert (bn * BSIZE + k) / BSIZE == bn && (bn * BSIZE + k) % BSIZE == k;
    }
  }

  lemma StoreWrote(sb: Superblock, v0: Volume, v: Volume, o: Owners, i: nat, off0: nat, data: seq<Byte>, piece: seq<Byte>,
                   pos: nat, a: nat, w: Volume)
    requires Shaped(sb, v0) && i < sb.ninodes && Sound(sb, v, o) && Wrote(sb, v0, v, i, off0, data)
    requires pos == off0 + |data| < MAXBYTES && pos % BSIZE + |piece| <= BSIZE
    requires 0 < a == Named(sb, v, i, SlotOf(pos / BSIZE)) < sb.size
    requires w == v.(blocks := v.blocks[a := Overlay(v.blocks[a], pos % BSIZE, piece)])
    ensures Sound(sb, w, o) && SameNames(sb, v, w) && Wrote(sb, v0, w, i, off0, data + piece)
    ensures forall j :: 0 <= j < sb.ninodes && j != i ==> SameBytes(sb, v, w, j)
  {
    var c := Overlay(v.blocks[a], pos % BSIZE, piece);
    RewriteBytes(sb, v, o, i, pos / BSIZE, c);
    OverlayPieced(sb, v, i, pos, piece);
    WroteMore(sb, v0, v, w, i, off0, data, piece, pos, c);
  }

  lemma ProgressStore(sb: Superblock, v0: Volume, v: Volume, o: Owners, i: nat, off0: nat, data: seq<Byte>,
      piece: seq<Byte>,
                      pos: nat, a: nat, w: Volume)
    requires Shaped(sb, v0) && i < sb.ninodes && Progress(sb, v0, v, o, i, off0, data)
    requires pos == off0 + |data| < MAXBYTES && pos % BSIZE + |piece| <= BSIZE
    requires 0 < a == Named(sb, v, i, SlotOf(pos / BSIZE)) < sb.size
    requires w == v.(blocks := v.blocks[a := Overlay(v.blocks[a], pos % BSIZE, piece)])
    ensures Progress(sb, v0, w, o, i, off0, data + piece) && SameNames(sb, v, w)
  {
    StoreWrote(sb, v0, v, o, i, off0, data, piece, pos, a, w);
    StoreNoHoles(sb, v, w, i, Max(v0.table[i].size, pos), pos, |piece|, v0.table[i].size);
    ProgressOthers(sb, v0, v, w, i);
  }

  lemma ProgressOthers(sb: Superblock, v0: Volume, v: Volume, w: Volume, i: nat)
    requires Shaped(sb, v0) && Shaped(sb, v) && Shaped(sb, w)
    requires forall j :: 0 <= j < sb.ninodes && j != i ==> SameBytes(sb, v0, v, j)
    requires forall j :: 0 <= j < sb.ninodes && j != i ==> SameBytes(sb, v, w, j)
    ensures forall j :: 0 <= j < sb.ninodes && j != i ==> SameBytes(sb, v0, w, j)
  {
    forall j | 0 <= j < sb.ninodes && j != i
      ensures SameBytes(sb, v0, w, j)
    {
      assert SameBytes(sb, v0, v, j) && SameBytes(sb, v, w, j);
    }
  }

  lemma StoreNoHoles(sb: Superblock, v: Volume, w: Volume, i: nat, upto: nat, pos: nat, m: nat, size: nat)
    requires Shaped(sb, v) && Shaped(sb, w) && SameNames(sb, v, w) && i < sb.ninodes
    requires NoHoles(sb, v, i, upto) && upto == Max(size, pos)
    requires pos < MAXBYTES && pos % BSIZE + m <= BSIZE && Named(sb, v, i, SlotOf(pos / BSIZE)) != 0
    ensures NoHoles(sb, w, i, Max(size, pos + m))
  {
    forall bn | 0 <= bn < MAXFILE && bn * BSIZE < Max(size, pos + m)
      ensures Named(sb, w, i, SlotOf(bn)) != 0
    {
      if bn != pos / BSIZE {
        assert bn * BSIZE < upto;
      }
    }
  }

  /** w is v0 with `data` spliced into file i at off and its size extended to
      match; every other file is untouched. */
  ghost predicate Stored(sb: Superblock, v0: Volume, w: Volume, i: nat, off: nat, data: seq<Byte>) {
    && Shaped(sb, v0) && Shaped(sb, w) && i < sb.ninodes
    && (forall j :: 0 <= j < sb.ninodes ==> v0.table[j].size <= MAXBYTES && w.table[j].size <= MAXBYTES)
    && off <= v0.table[i].size
    && Content(sb, w, i) == Splice(Content(sb, v0, i), off, data)
    && w.table[i] == v0.table[i].(addrs := w.table[i].addrs, size := Max(v0.table[i].size, off + |data|))
    && (forall j :: 0 <= j < sb.ninodes && j != i ==>
          w.table[j] == v0.table[j] && Content(sb, w, j) == Content(sb, v0, j))
  }

  /** The same with n of the bytes accounted for in the size: past the end of the file the
      others do not show. */
  ghost predicate StoredPart(sb: Superblock, v0: Volume, w: Volume, i: nat, off: nat, data: seq<Byte>, n: nat) {
    && Shaped(sb, v0) && Shaped(sb, w) && i < sb.ninodes && n <= |data|
    && (forall j :: 0 <= j < sb.ninodes ==> v0.table[j].size <= MAXBYTES && w.table[j].size <= MAXBYTES)
    && off <= v0.table[i].size
    && |Splice(Content(sb, v0, i), off, data)| >= Max(v0.table[i].size, off + n)
    && Content(sb, w, i) == Splice(Content(sb, v0, i), off, data)[..Max(v0.table[i].size, off + n)]
    && w.table[i] == v0.table[i].(addrs := w.table[i].addrs, size := Max(v0.table[i].size, off + n))
    && (forall j :: 0 <= j < sb.ninodes && j != i ==>
          w.table[j] == v0.table[j] && Content(sb, w, j) == Content(sb, v0, j))
  }

  lemma StoredWhole(sb: Superblock, v0: Volume, w: Volume, i: nat, off: nat, data: seq<Byte>)
    ensures StoredPart(sb, v0, w, i, off, data, |data|) <==> Stored(sb, v0, w, i, off, data)
  {
    if Shaped(sb, v0) && i < sb.ninodes && v0.table[i].size <= MAXBYTES && off <= v0.table[i].size {
      var s := Splice(Content(sb, v0, i), off, data);
      assert |s| == Max(v0.table[i].size, off + |data|) && s[..|s|] == s;
    }
  }

  lemma PartContent(sb: Superblock, v0: Volume, v: Volume, i: nat, off: nat, data: seq<Byte>, n: nat)
    requires Shaped(sb, v0) && Shaped(sb, v) && i < sb.ninodes && Wrote(sb, v0, v, i, off, data) && n <= |data|
    requires v0.table[i].size <= MAXBYTES && v.table[i].size <= MAXBYTES && off <= v0.table[i].size
    requires off + |data| <= MAXBYTES && v.table[i].size == Max(v0.table[i].size, off + n)
    ensures |Splice(Content(sb, v0, i), off, data)| >= v.table[i].size
    ensures Content(sb, v, i) == Splice(Content(sb, v0, i), off, data)[..v.table[i].size]
  {
    var s := Splice(Content(sb, v0, i), off, data);
    assert |s| == Max(v0.table[i].size, off + |data|);
    forall p | 0 <= p < v.table[i].size
      ensures Content(sb, v, i)[p] == s[p]
    {
    }
  }

  /** writei's last steps: the size follows the first n bytes of the data. */
  lemma WriteEnds(sb: Superblock, v0: Volume, o0: Owners, v: Volume, o: Owners, w: Volume, i: nat, off: nat,
      data: seq<Byte>, n: nat)
    requires Sound(sb, v0, o0) && i < sb.ninodes && Progress(sb, v0, v, o, i, off, data)
    requires off <= v0.table[i].size && n <= |data|
    requires w == v.(table := v.table[i := v.table[i].(size := Max(v0.table[i].size, off + n))])
    ensures Sound(sb, w, o) && StoredPart(sb, v0, w, i, off, data, n)
  {
    assert forall j :: 0 <= j < sb.ninodes ==> NoHoles(sb, v0, j, v0.table[j].size);
    assert NoHoles(sb, v, i, Max(v0.table[i].size, off + n));
    ResizeKeeps(sb, v, o, i, Max(v0.table[i].size, off + n));
    assert forall j :: 0 <= j < sb.ninodes ==> NoHoles(sb, w, j, w.table[j].size);
    assert Wrote(sb, v0, w, i, off, data) by {
      assert SameBytes(sb, v, w, i);
    }
    PartContent(sb, v0, w, i, off, data, n);
    forall j | 0 <= j < sb.ninodes && j != i
      ensures Content(sb, w, j) == Content(sb, v0, j)
    {
      assert SameBytes(sb, v0, v, j) && SameBytes(sb, v, w, j);
      SameContent(sb, v0, w, j);
    }
  }

  /** Of the bytes up to `upto` at off, tot is the number for which there was room. */
  ghost predicate Reached(sb: Superblock, v: Volume, o: Owners, i: nat, off: nat, upto: nat, tot: nat)
    requires Shaped(sb, v) && i < sb.ninodes && off + upto <= MAXBYTES
  {
    tot <= upto && forall t :: 0 <= t <= upto ==> (t <= tot <==> Room(sb, v, o, i, off / BSIZE, BlockEnd(off, t)))
  }

  lemma ReachedAll(sb: Superblock, v: Volume, o: Owners, w: Volume, q: Owners, i: nat, off: nat, upto: nat)
    requires Shaped(sb, v) && Shaped(sb, w) && i < sb.ninodes && off + upto <= MAXBYTES
    requires Filled(sb, v, o, w, q, i, off / BSIZE, BlockEnd(off, upto))
    ensures Reached(sb, v, o, i, off, upto, upto)
  {
    hide Room, Filled, BlockEnd;
    forall t | 0 <= t <= upto
      ensures Room(sb, v, o, i, off / BSIZE, BlockEnd(off, t))
    {
      EndMore(off, t, upto);
      FilledRoom(sb, v, o, w, q, i, off / BSIZE, BlockEnd(off, upto), BlockEnd(off, t));
    }
  }

  lemma ReachedSome(sb: Superblock, v: Volume, o: Owners, w: Volume, q: Owners, i: nat, off: nat, n: nat, upto: nat, tot: nat,
                    rounds: nat)
    requires Shaped(sb, v) && Shaped(sb, w) && i < sb.ninodes && off + n <= MAXBYTES
    requires AtRound(off, n, tot, rounds) && tot < n && tot < upto <= n
    requires Filled(sb, v, o, w, q, i, off / BSIZE, BlockEnd(off, tot)) && Stuck(sb, w, q, i, (off + tot) / BSIZE)
    ensures Reached(sb, v, o, i, off, upto, tot)
  {
    hide Room, Filled, Stuck;
    EndNext(off, n, tot, rounds);
    forall t | 0 <= t <= upto
      ensures t <= tot <==> Room(sb, v, o, i, off / BSIZE, BlockEnd(off, t))
    {
      if t <= tot {
        EndMore(off, t, tot);
        FilledRoom(sb, v, o, w, q, i, off / BSIZE, BlockEnd(off, tot), BlockEnd(off, t));
      } else {
        EndPast(off, n, tot, rounds, t);
        FilledStuck(sb, v, o, w, q, i, off / BSIZE, BlockEnd(off, tot), BlockEnd(off, t));
      }
    }
  }

  lemma EndShift(off: nat, k: nat, t: nat)
    requires k < t
    ensures BlockEnd(off + k, t - k) == BlockEnd(off, t)
    ensures (off + k) / BSIZE < BlockEnd(off, t) && BlockEnd(off, k) <= BlockEnd(off, t)
    ensures BlockEnd(off, k) == (off + k) / BSIZE || (BlockEnd(off, k) == (off + k) / BSIZE + 1 && (off + k) % BSIZE != 0)
  {
  }

  /** The block that holds offset pos, inside it, is there. */
  ghost predicate Inside(sb: Superblock, v: Volume, i: nat, pos: nat)
    requires Shaped(sb, v) && i < sb.ninodes
  {
    pos % BSIZE != 0 && pos / BSIZE < MAXFILE ==> Named(sb, v, i, SlotOf(pos / BSIZE)) != 0
  }

  lemma InsideFile(sb: Superblock, v: Volume, o: Owners, i: nat, pos: nat)
    requires Sound(sb, v, o) && i < sb.ninodes && pos <= v.table[i].size
    ensures Inside(sb, v, i, pos)
  {
    assert NoHoles(sb, v, i, v.table[i].size);
    if pos % BSIZE != 0 {
      assert pos / BSIZE * BSIZE < pos;
    }
  }

  /** k bytes in place, and of the next m those for which there was room then: so many there
      was room for from the start. */
  lemma ReachedMore(sb: Superblock, v: Volume, o: Owners, u: Volume, p: Owners, i: nat, off: nat, k: nat, m: nat, r: nat,
                    upto: nat)
    requires Shaped(sb, v) && Shaped(sb, u) && i < sb.ninodes && off + upto <= MAXBYTES && k + m <= upto
    requires Filled(sb, v, o, u, p, i, off / BSIZE, BlockEnd(off, k)) && Inside(sb, u, i, off + k)
    requires Reached(sb, u, p, i, off + k, m, r) && (r == m ==> upto == k + m)
    ensures Reached(sb, v, o, i, off, upto, k + r)
  {
    hide Room, Filled, BlockEnd;
    forall t | 0 <= t <= upto
      ensures t <= k + r <==> Room(sb, v, o, i, off / BSIZE, BlockEnd(off, t))
    {
      if t <= k {
        EndMore(off, t, k);
        FilledRoom(sb, v, o, u, p, i, off / BSIZE, BlockEnd(off, k), BlockEnd(off, t));
      } else if t <= k + m {
        RoomShift(sb, v, o, u, p, i, off, k, t);
        assert t - k <= r <==> Room(sb, u, p, i, (off + k) / BSIZE, BlockEnd(off + k, t - k));
      } else {
        RoomShift(sb, v, o, u, p, i, off, k, k + m);
        assert m <= r <==> Room(sb, u, p, i, (off + k) / BSIZE, BlockEnd(off + k, k + m - k));
        EndMore(off, k + m, t);
        if Room(sb, v, o, i, off / BSIZE, BlockEnd(off, t)) {
          RoomLess(sb, v, o, i, off / BSIZE, BlockEnd(off, k + m), BlockEnd(off, t));
        }
      }
    }
  }

  lemma RoomShift(sb: Superblock, v: Volume, o: Owners, u: Volume, p: Owners, i: nat, off: nat, k: nat, t: nat)
    requires Shaped(sb, v) && Shaped(sb, u) && i < sb.ninodes && off + t <= MAXBYTES && k < t
    requires Filled(sb, v, o, u, p, i, off / BSIZE, BlockEnd(off, k)) && Inside(sb, u, i, off + k)
    ensures Room(sb, v, o, i, off / BSIZE, BlockEnd(off, t))
            <==> Room(sb, u, p, i, (off + k) / BSIZE, BlockEnd(off + k, t - k))
  {
    hide Room, BlockEnd, Named;
    EndShift(off, k, t);
    if BlockEnd(off, k) != (off + k) / BSIZE {
      RoomBack(sb, u, p, i, (off + k) / BSIZE, BlockEnd(off, t));
    }
  }

  lemma FilledMore(sb: Superblock, v: Volume, o: Owners, u: Volume, p: Owners, w: Volume, q: Owners, i: nat, off: nat, k: nat,
                   m: nat)
    requires Shaped(sb, v) && Shaped(sb, u) && Shaped(sb, w) && i < sb.ninodes && off + k + m <= MAXBYTES && m > 0
    requires Filled(sb, v, o, u, p, i, off / BSIZE, BlockEnd(off, k)) && Inside(sb, u, i, off + k)
    requires Filled(sb, u, p, w, q, i, (off + k) / BSIZE, BlockEnd(off + k, m))
    ensures Filled(sb, v, o, w, q, i, off / BSIZE, BlockEnd(off, k + m))
  {
    hide Filled, BlockEnd;
    EndShift(off, k, k + m);
    FilledTwice(sb, v, o, u, p, w, q, i, off / BSIZE, BlockEnd(off, k), (off + k) / BSIZE, BlockEnd(off, k + m));
  }

  /** Data within one block. */
  lemma OneReached(sb: Superblock, v: Volume, o: Owners, i: nat, off: nat, n: nat, tot: nat)
    requires Shaped(sb, v) && i < sb.ninodes && off + n <= MAXBYTES && 0 < n && off % BSIZE + n <= BSIZE
    requires Reached(sb, v, o, i, off, n, tot)
    ensures tot == n <==> !Stuck(sb, v, o, i, off / BSIZE)
  {
    hide Room, Stuck;
    assert BlockEnd(off, n) == off / BSIZE + 1;
    RoomOne(sb, v, o, i, off / BSIZE);
  }

  /** The bytes of piece, which copyin delivers to offset pos of the file before it fails,
      change a block that the file has and that is not logged. */
  ghost predicate SpillsAt(sb: Superblock, v: Volume, lg: set<nat>, i: nat, pos: nat, piece: seq<Byte>)
    requires Shaped(sb, v) && i < sb.ninodes && pos < MAXBYTES && pos % BSIZE + |piece| <= BSIZE
  {
    var a := Named(sb, v, i, SlotOf(pos / BSIZE));
    && a != 0 && a !in lg
    && exists j :: 0 <= j < |piece| && piece[j] != ByteAt(sb, v, i, pos + j)
  }

  /** The bytes after the first tot, up to the one at which copyin fails. */
  ghost predicate SpillsFrom(sb: Superblock, v: Volume, lg: set<nat>, i: nat, off: nat, src: seq<Byte>, tot: nat, good: nat)
    requires Shaped(sb, v) && i < sb.ninodes && off + |src| <= MAXBYTES && Cut(off, |src|, good, tot)
  {
    SpillsAt(sb, v, lg, i, off + tot, src[tot..good])
  }

  /** writei leaves a changed block unlogged: copyin fails, there is room for the blocks
      before the one in which it does, and in that one its bytes spill. */
  ghost predicate Spills(sb: Superblock, v: Volume, o: Owners, lg: set<nat>, i: nat, off: nat, src: seq<Byte>, good: nat)
    requires Shaped(sb, v) && i < sb.ninodes && good <= |src| && off + |src| <= MAXBYTES
  {
    good < |src|
    && var k := Upto(off, |src|, good);
       && Room(sb, v, o, i, off / BSIZE, BlockEnd(off, k))
       && SpillsAt(sb, v, lg, i, off + k, src[k..good])
  }

  lemma OverlaySame(sb: Superblock, v: Volume, i: nat, pos: nat, piece: seq<Byte>)
    requires Shaped(sb, v) && i < sb.ninodes && pos < MAXBYTES && pos % BSIZE + |piece| <= BSIZE
    requires 0 < Named(sb, v, i, SlotOf(pos / BSIZE)) < sb.size
    ensures var c := v.blocks[Named(sb, v, i, SlotOf(pos / BSIZE))];
            Overlay(c, pos % BSIZE, piece) == c <==> forall j :: 0 <= j < |piece| ==> piece[j] == ByteAt(sb, v, i, pos + j)
  {
    hide Named, ByteAt, Overlay;
    var c, at := v.blocks[Named(sb, v, i, SlotOf(pos / BSIZE))], pos % BSIZE;
    forall j | 0 <= j < |piece|
      ensures piece[j] == ByteAt(sb, v, i, pos + j) <==> piece[j] == c[at + j]
    {
      ByteIn(sb, v, i, pos, j);
    }
    OverlayIs(c, at, piece);
  }

  lemma ByteIn(sb: Superblock, v: Volume, i: nat, pos: nat, j: nat)
    requires Shaped(sb, v) && i < sb.ninodes && pos < MAXBYTES && pos % BSIZE + j < BSIZE
    requires 0 < Named(sb, v, i, SlotOf(pos / BSIZE)) < sb.size
    ensures ByteAt(sb, v, i, pos + j) == v.blocks[Named(sb, v, i, SlotOf(pos / BSIZE))][pos % BSIZE + j]
  {
    hide Named;
    assert (pos + j) / BSIZE == pos / BSIZE && (pos + j) % BSIZE == pos % BSIZE + j;
  }

  lemma OverlayIs(c: Block, at: nat, piece: seq<Byte>)
    requires at + |piece| <= BSIZE
    ensures Overlay(c, at, piece) == c <==> forall j :: 0 <= j < |piece| ==> piece[j] == c[at + j]
  {
    var d := Overlay(c, at, piece);
    assert forall j :: 0 <= j < |piece| ==> d[at + j] == piece[j];
    if forall j :: 0 <= j < |piece| ==> piece[j] == c[at + j] {
      assert c == c[..at] + c[at..at + |piece|] + c[at + |piece|..];
      assert piece == c[at..at + |piece|];
    }
  }

  /** bmap finds or allocates block addr, which is not logged again when piece is stored in it. */
  lemma SpillLogged(sb: Superblock, v: Volume, o: Owners, m: Bitmap, lg: set<nat>, u: Volume, m1: Bitmap,
                    lg1: set<nat>, i: nat, pos: nat, piece: seq<Byte>, addr: nat)
    requires Sound(sb, v, o) && Shaped(sb, u) && i < sb.ninodes && pos < MAXBYTES && pos % BSIZE + |piece| <= BSIZE
    requires LogsAll(sb, v.blocks, m, lg, u.blocks, m1, lg1) && 0 < addr == Named(sb, u, i, SlotOf(pos / BSIZE)) < sb.size
    requires if Named(sb, v, i, SlotOf(pos / BSIZE)) == 0 then addr in lg1 else u == v && lg1 == lg
    ensures LogsAll(sb, v.blocks, m, lg, u.blocks[addr := Overlay(u.blocks[addr], pos % BSIZE, piece)], m1, lg1)
            <==> !SpillsAt(sb, v, lg, i, pos, piece)
  {
    hide LogsAll, Overlay, Sound;
    SoundShaped(sb, v, o);
    LogsThenSpill(sb, v.blocks, m, lg, u.blocks, m1, lg1, addr, Overlay(u.blocks[addr], pos % BSIZE, piece));
    if Named(sb, v, i, SlotOf(pos / BSIZE)) != 0 {
      OverlaySame(sb, v, i, pos, piece);
    }
  }

  lemma ExtendsOwners(sb: Superblock, v: Volume, o: Owners, w: Volume, q: Owners, i: nat)
    requires Shaped(sb, v) && Shaped(sb, w) && Extends(sb, v, o, w, q, i)
    ensures forall b :: b in o ==> b in q && q[b] == o[b]
  {
  }

  /** What is still ahead spills as it would have at the start. */
  lemma SpillsAhead(sb: Superblock, v: Volume, lg: set<nat>, w: Volume, lg': set<nat>, i: nat, pos: nat, piece: seq<Byte>)
    requires Shaped(sb, v) && Shaped(sb, w) && i < sb.ninodes && pos < MAXBYTES && pos % BSIZE + |piece| <= BSIZE
    requires SameAt(sb, v, lg, w, lg', i, pos / BSIZE) && lg <= lg'
    ensures SpillsAt(sb, v, lg, i, pos, piece) <==> SpillsAt(sb, w, lg', i, pos, piece)
  {
    forall p | pos <= p < pos + |piece|
      ensures ByteAt(sb, w, i, p) == ByteAt(sb, v, i, p)
    {
      assert p / BSIZE == pos / BSIZE;
    }
  }

  // ---- what the loop logs ----

  /** The blocks an operation has logged in writei's loop, by kind, and how many
      blocks it allocated: `news` for data, `grown` for the indirect block. */
  datatype Tally = Tally(data: set<nat>, maps: set<nat>, ind: set<nat>, rounds: nat, news: nat, grown: nat)

  ghost predicate Counts(sb: Superblock, t: Tally, lg0: set<nat>, lg: set<nat>) {
    && OneMap(sb, t.maps)
    && lg <= lg0 + t.data + t.maps + t.ind
    && |t.data| <= t.rounds
    && |t.maps| <= t.news + t.grown
    && |t.ind| <= 1
  }

  /** At the start of a round with the inode's indirect address at `x`. */
  ghost predicate Running(t: Tally, off0: nat, x: nat) {
    && (t.ind != {} ==> t.ind == {x} && x != 0)
    && (if x == 0 then t.grown == 0 else t.grown <= 1)
    && t.news <= t.rounds - (if off0 % BSIZE != 0 && t.rounds > 0 then 1 else 0)
  }

  ghost function NextTally(sb: Superblock, v: Volume, w: Volume, i: nat, bn: nat, addr: nat, more: set<nat>,
      t: Tally): Tally
    requires Shaped(sb, v) && Shaped(sb, w) && i < sb.ninodes && bn < MAXFILE
  {
    Tally(t.data + (if addr == 0 then {} else {addr}), t.maps + more,
          if bn < NDIRECT then t.ind else {w.table[i].addrs[NDIRECT]},
          t.rounds + 1,
          t.news + (if Named(sb, v, i, SlotOf(bn)) == 0 then 1 else 0),
          t.grown + (if bn >= NDIRECT && v.table[i].addrs[NDIRECT] == 0 then 1 else 0))
  }

  lemma TallyStep(sb: Superblock, v: Volume, lg0: set<nat>, lg: set<nat>, w: Volume, lg': set<nat>,
                  i: nat, off0: nat, pos: nat, addr: nat, more: set<nat>, t: Tally)
    requires Shaped(sb, v) && Shaped(sb, w) && i < sb.ninodes && pos < MAXBYTES
    requires Counts(sb, t, lg0, lg) && Running(t, off0, v.table[i].addrs[NDIRECT])
    requires BmapLogs(sb, v, lg, w, lg', i, pos / BSIZE, addr, more)
    requires v.table[i].addrs[NDIRECT] != 0 ==> w.table[i].addrs[NDIRECT] == v.table[i].addrs[NDIRECT]
    requires addr == Named(sb, w, i, SlotOf(pos / BSIZE))
    requires t.rounds == 0 && off0 % BSIZE != 0 ==> Named(sb, v, i, SlotOf(pos / BSIZE)) != 0
    ensures var t' := NextTally(sb, v, w, i, pos / BSIZE, addr, more, t);
            && t'.rounds == t.rounds + 1 && Counts(sb, t', lg0, lg')
            && t'.news <= t'.rounds - (if off0 % BSIZE != 0 then 1 else 0) && t'.grown <= 1
            && (addr != 0 ==> Running(t', off0, w.table[i].addrs[NDIRECT]))
  {
    var t' := NextTally(sb, v, w, i, pos / BSIZE, addr, more, t);
    UnionBound(t.maps, more);
    UnionBound(t.data, if addr == 0 then {} else {addr});
    var x := w.table[i].addrs[NDIRECT];
    assert t.ind <= t'.ind;
  }

  /** The most blocks that an operation of filewrite's size logs: MAXOPBLOCKS, or 7 if
      all allocations fall in one bitmap block. */
  function ChunkLimit(sb: Superblock): nat {
    if sb.size <= BPB then 7 else MAXOPBLOCKS
  }

  /** The whole operation's log blocks, inode block included, for a chunk of
      filewrite's size, however many bitmap blocks there are. */
  lemma TallyTotal(sb: Superblock, lg: set<nat>, t: Tally, off0: nat, inode: nat)
    requires Counts(sb, t, {}, lg) && t.grown <= 1
    requires t.rounds <= if off0 % BSIZE == 0 then 3 else 4
    requires t.rounds > 0 ==> t.news <= t.rounds - (if off0 % BSIZE != 0 then 1 else 0)
    requires t.rounds == 0 ==> t.news == 0
    ensures |lg + {inode}| <= ChunkLimit(sb)
  {
    if sb.size <= BPB {
      SubsetBound(t.maps, {sb.bmapstart});
    }
    var all := t.data + t.maps + t.ind + {inode};
    SubsetBound(lg + {inode}, all);
    UnionBound(t.data, t.maps);
    UnionBound(t.data + t.maps, t.ind);
    UnionBound(t.data + t.maps + t.ind, {inode});
  }

  // ---- rounds ----

  /** Where the loop stands after `rounds` iterations: at off0, then at block
      boundaries until the data is used up. */
  predicate AtRound(off0: nat, n: nat, tot: nat, rounds: nat) {
    && tot <= n
    && (rounds == 0 ==> tot == 0)
    && (rounds > 0 && tot < n ==> (off0 + tot) % BSIZE == 0 && (off0 + tot) / BSIZE == off0 / BSIZE + rounds)
  }

  function Chunk(off0: nat, n: nat, tot: nat): (m: nat)
    requires tot < n
    ensures 0 < m <= n - tot && (off0 + tot) % BSIZE + m <= BSIZE
  {
    if n - tot < BSIZE - (off0 + tot) % BSIZE then n - tot else BSIZE - (off0 + tot) % BSIZE
  }

  /** copyin fails in the chunk after tot bytes. */
  predicate Cut(off0: nat, n: nat, good: nat, tot: nat) {
    tot < n && tot <= good < tot + Chunk(off0, n, tot)
  }

  lemma CutShort(off0: nat, n: nat, good: nat, tot: nat)
    requires Cut(off0, n, good, tot)
    ensures good < n
  {
  }

  lemma NeverCut(off0: nat, n: nat, tot: nat)
    ensures !Cut(off0, n, n, tot)
  {
  }

  /** The block past the one that holds the last of t bytes at off. */
  function BlockEnd(off: nat, t: nat): (e: nat)
    ensures off + t <= MAXBYTES ==> e <= MAXFILE
  {
    if t == 0 then off / BSIZE else (off + t - 1) / BSIZE + 1
  }

  lemma EndNext(off: nat, n: nat, tot: nat, rounds: nat)
    requires AtRound(off, n, tot, rounds) && tot < n
    ensures BlockEnd(off, tot) == (off + tot) / BSIZE
    ensures BlockEnd(off, tot + Chunk(off, n, tot)) == (off + tot) / BSIZE + 1
  {
  }

  lemma EndMore(off: nat, s: nat, t: nat)
    requires s <= t
    ensures BlockEnd(off, s) <= BlockEnd(off, t)
  {
  }

  lemma EndPast(off: nat, n: nat, tot: nat, rounds: nat, t: nat)
    requires AtRound(off, n, tot, rounds) && tot < t <= n
    ensures BlockEnd(off, tot) < BlockEnd(off, t)
  {
  }

  /** How many of n bytes at off fill whole chunks when copyin can deliver `good` of them: all,
      or those before the block in which it fails. */
  function Upto(off: nat, n: nat, good: nat): (k: nat)
    requires good <= n
    ensures k <= good && (good < n ==> (off + k) % BSIZE + good - k < BSIZE && (off + k) / BSIZE == (off + good) / BSIZE)
  {
    if good == n then n else if off / BSIZE == (off + good) / BSIZE then 0 else (off + good) / BSIZE * BSIZE - off
  }

  lemma ChunkUpto(off: nat, n: nat, good: nat, tot: nat, rounds: nat)
    requires AtRound(off, n, tot, rounds) && tot < n && tot <= good <= n && tot <= Upto(off, n, good)
    ensures if tot + Chunk(off, n, tot) <= good then tot + Chunk(off, n, tot) <= Upto(off, n, good)
            else tot == Upto(off, n, good)
  {
  }

  lemma NextRound(off0: nat, n: nat, tot: nat, rounds: nat)
    requires AtRound(off0, n, tot, rounds) && tot < n
    ensures AtRound(off0, n, tot + Chunk(off0, n, tot), rounds + 1)
  {
    var pos := off0 + tot;
    var m := Chunk(off0, n, tot);
    if tot + m < n {
      assert pos + m == (pos / BSIZE + 1) * BSIZE;
    }
  }

  /** filewrite's chunk takes at most three rounds, four when unaligned. */
  lemma RoundLimit(off0: nat, n: nat, tot: nat, rounds: nat)
    requires AtRound(off0, n, tot, rounds) && tot < n <= 3 * BSIZE
    ensures rounds + 1 <= if off0 % BSIZE == 0 then 3 else 4
  {
    if rounds > 0 {
      assert off0 + tot == (off0 / BSIZE + rounds) * BSIZE;
    }
  }
}
