/** The block allocator, block map and inode contents of kernel/fs.c, as code on
    the volume: balloc, bfree, bmap, itrunc, readi, writei, ialloc and iput. */
module FsCode {
  import opened Basics
  import opened Params
  import opened FsVolume
  import opened FsBitmap
  import opened FsGrow
  import opened FsRoom
  import opened FsBytes
  import opened FsWrite
  import opened FsTrunc

  class FileSystem {
    const sb: Superblock
    var bitmap: Bitmap
    var blocks: seq<Block>
    var table: seq<Dinode>     // inodes as the kernel sees them, in memory or on disk
    var dinodes: seq<Dinode>   // inodes as last written by iupdate
    ghost var owner: Owners
    ghost var logged: set<nat> // blocks passed to log_write by the current operation

    ghost function Vol(): Volume
      reads this
    {
      Volume(blocks, table)
    }

    ghost predicate Valid()
      reads this
    {
      Sound(sb, Vol(), owner) && Marked(sb, bitmap, owner)
    }

    /** The file system as mkfs starts it: every inode free, and of the blocks only the
        metadata marked. */
    constructor (sb: Superblock)
      requires sb.Ok()
      ensures Valid() && this.sb == sb && dinodes == table && |dinodes| == sb.ninodes && owner == map[] && logged == {}
      ensures forall i :: 0 <= i < sb.ninodes ==> table[i].typ == 0
    {
      this.sb := sb;
      blocks, table := FreshVolume(sb).blocks, FreshVolume(sb).table;
      dinodes := FreshVolume(sb).table;
      bitmap := NoBits(sb);
      owner, logged := map[], {};
      new;
      FreshSound(sb);
      forall c | 0 <= c < sb.size ensures !Bit(sb, bitmap, c) {
        NoBitSet(sb, c);
      }
      var b := 0;
      while b < sb.datastart
        invariant 0 <= b <= sb.datastart && BitmapOk(sb, bitmap)
        invariant forall c :: 0 <= c < sb.size ==> (Bit(sb, bitmap, c) <==> c < b)
        invariant owner == map[] && logged == {} && dinodes == table && Vol() == FreshVolume(sb)
      {
        MarkNext(sb, bitmap, b);
        bitmap := Mark(sb, bitmap, b);
        b := b + 1;
      }
    }

    /** Every block of the disk is in use. */
    ghost predicate Full()
      reads `bitmap
      requires BitmapOk(sb, bitmap)
    {
      forall c :: 0 <= c < sb.size ==> Bit(sb, bitmap, c)
    }

    /** balloc: the lowest free block, marked, zeroed and logged; 0 when none is free. */
    method Balloc() returns (r: nat)
      requires Valid()
      modifies `bitmap, `blocks, `logged
      ensures r == 0 ==> bitmap == old(bitmap) && blocks == old(blocks) && logged == old(logged)
      ensures r == 0 ==> Full()
      ensures r == 0 <==> NoneFree(sb, owner)
      ensures r != 0 ==>
                && sb.datastart <= r < sb.size && r !in owner
                && bitmap == Mark(sb, old(bitmap), r)
                && (forall c :: 0 <= c < r ==> Bit(sb, old(bitmap), c))
                && blocks == old(blocks)[r := ZeroBlock()]
                && logged == old(logged) + {sb.Bblock(r), r}
    {
      hide Sound, Has, Marked, Bit;
      MarkedShape(sb, bitmap, owner);
      var b := 0;
      while b < sb.size
        invariant b % BPB == 0
        invariant bitmap == old(bitmap) && blocks == old(blocks) && logged == old(logged)
        invariant forall c :: 0 <= c < b && c < sb.size ==> Bit(sb, bitmap, c)
        decreases sb.size - b
      {
        var bi := FirstClear(b);
        if bi < BPB && b + bi < sb.size {
          Take(b + bi);
          return b + bi;
        }
        b := b + BPB;
      }
      FullNone(sb, bitmap, owner);
      r := 0;
    }

    /** balloc's inner loop: the first clear bit of one bitmap block. */
    method FirstClear(b: nat) returns (bi: nat)
      requires BitmapOk(sb, bitmap) && b < sb.size && b % BPB == 0
      ensures bi <= BPB && (bi < BPB && b + bi < sb.size ==> !Bit(sb, bitmap, b + bi))
      ensures bi == BPB || b + bi >= sb.size || !Bit(sb, bitmap, b + bi)
      ensures forall c :: b <= c < b + bi && c < sb.size ==> Bit(sb, bitmap, c)
    {
      hide Has;
      bi := 0;
      while bi < BPB && b + bi < sb.size
        invariant 0 <= bi <= BPB
        invariant forall c :: b <= c < b + bi && c < sb.size ==> Bit(sb, bitmap, c)
      {
        Split(b, bi);
        if !Has(bitmap[b / BPB][bi / 8], bi % 8) {
          break;
        }
        bi := bi + 1;
      }
    }

    /** Mark block b in use, log its bitmap block, and bzero it. */
    method Take(b: nat)
      requires Valid() && b < sb.size && !Bit(sb, bitmap, b)
      modifies `bitmap, `blocks, `logged
      ensures 0 < sb.datastart <= b && b !in owner
      ensures bitmap == Mark(sb, old(bitmap), b) && blocks == old(blocks)[b := ZeroBlock()]
      ensures logged == old(logged) + {sb.Bblock(b), b}
    {
      var bi := b % BPB;
      bitmap := bitmap[b / BPB := bitmap[b / BPB][bi / 8 := With(bitmap[b / BPB][bi / 8], bi % 8)]];
      blocks := blocks[b := ZeroBlock()];
      logged := logged + {sb.Bblock(b), b};
    }

    /** bfree: false is the "freeing free block" panic. */
    method Bfree(b: nat) returns (ok: bool)
      requires BitmapOk(sb, bitmap) && b < sb.size
      modifies `bitmap, `logged
      ensures ok <==> Bit(sb, old(bitmap), b)
      ensures ok ==> bitmap == Clear(sb, old(bitmap), b) && logged == old(logged) + {sb.Bblock(b)}
      ensures !ok ==> bitmap == old(bitmap) && logged == old(logged)
    {
      var bi := b % BPB;
      var x := bitmap[b / BPB][bi / 8];
      if !Has(x, bi % 8) {
        return false;
      }
      bitmap := bitmap[b / BPB := bitmap[b / BPB][bi / 8 := Less(x, bi % 8)]];
      logged := logged + {sb.Bblock(b)};
      ok := true;
    }

    /** Allocate a block for an empty direct or indirect address of inode i. */
    method AllocAddr(i: nat, s: nat) returns (r: nat)
      requires Valid() && i < sb.ninodes && table[i].typ != 0 && s <= NDIRECT && table[i].addrs[s] == 0
      modifies `bitmap, `blocks, `table, `owner, `logged
      ensures Valid() && Extends(sb, old(Vol()), old(owner), Vol(), owner, i)
      ensures r == 0 ==> Full() && bitmap == old(bitmap) && Vol() == old(Vol()) && owner == old(owner) && logged == old(logged)
      ensures r != 0 ==>
                && r !in old(owner) && sb.datastart <= r < sb.size && owner == old(owner)[r := Slot(i, s)]
                && blocks == old(blocks)[r := ZeroBlock()]
                && table == old(table)[i := old(table)[i].(addrs := old(table)[i].addrs[s := r])]
                && SameNamesBut(sb, old(Vol()), Vol(), i, s)
                && logged == old(logged) + {sb.Bblock(r), r}
      ensures LogsAll(sb, old(blocks), old(bitmap), old(logged), blocks, bitmap, logged)
      ensures r == 0 <==> NoneFree(sb, old(owner))
      ensures KeptBut(sb, old(Vol()), old(owner), old(logged), Vol(), logged, 0)
    {
      hide Owned, NoHoles, Marked, Bit, LogsAll, Mark, KeptBut;
      ghost var v, o, bm, lg := Vol(), owner, bitmap, logged;
      LogsNone(sb, blocks, bitmap, logged);
      MarkedShape(sb, bm, o);
      KeptSame(sb, v, o, lg);
      r := Balloc();
      if r != 0 {
        LogsAlloc(sb, v.blocks, bm, lg, r, bitmap);
        ZeroedSound(sb, v, o, r);
        ghost var z := Vol();
        SetAddrNames(sb, z, i, s, r);
        table := table[i := table[i].(addrs := table[i].addrs[s := r])];
        AttachSound(sb, z, Vol(), o, i, s, r);
        MarkedMore(sb, bm, o, r, Slot(i, s));
        owner := owner[r := Slot(i, s)];
        KeptAlloc(sb, v, o, lg, Vol(), logged, r, r);
      }
    }

    /** Allocate a block for an empty entry of inode i's indirect block. */
    method AllocEntry(i: nat, k: nat) returns (r: nat)
      requires Valid() && i < sb.ninodes && table[i].typ != 0 && k < NINDIRECT
      requires table[i].addrs[NDIRECT] != 0 && Word(blocks[table[i].addrs[NDIRECT]], k) == 0
      modifies `bitmap, `blocks, `owner, `logged
      ensures Valid() && Extends(sb, old(Vol()), old(owner), Vol(), owner, i)
      ensures r == 0 ==> Full() && bitmap == old(bitmap) && blocks == old(blocks) && owner == old(owner) && logged == old(logged)
      ensures r != 0 ==>
                var x := table[i].addrs[NDIRECT];
                && r !in old(owner) && sb.datastart <= r < sb.size && owner == old(owner)[r := Slot(i, NDIRECT + 1 + k)]
                && r != x && blocks == old(blocks)[r := ZeroBlock()][x := SetWord(old(blocks)[x], k, r)]
                && SameNamesBut(sb, old(Vol()), Vol(), i, NDIRECT + 1 + k)
                && Named(sb, Vol(), i, NDIRECT + 1 + k) == r
                && logged == old(logged) + {sb.Bblock(r), r, x}
      ensures LogsAll(sb, old(blocks), old(bitmap), old(logged), blocks, bitmap, logged)
      ensures r == 0 <==> NoneFree(sb, old(owner))
      ensures KeptBut(sb, old(Vol()), old(owner), old(logged), Vol(), logged, 0)
    {
      hide LogsAll, KeptBut, Owned, NoHoles, Marked, Extends, SameNamesBut, Mark, SetWord, Word;
      var x := table[i].addrs[NDIRECT];
      ghost var v, o, bm, lg := Vol(), owner, bitmap, logged;
      LogsNone(sb, blocks, bitmap, logged);
      KeptSame(sb, v, o, lg);
      ExtendsNone(sb, v, o, i);
      MarkedShape(sb, bm, o);
      r := Balloc();
      if r != 0 {
        LogsAlloc(sb, v.blocks, bm, lg, r, bitmap);
        ghost var b1, lg1 := blocks, logged;
        EntryAttached(sb, v, o, i, k, r);
        MarkedMore(sb, bm, o, r, Slot(i, NDIRECT + 1 + k));
        blocks := blocks[x := SetWord(blocks[x], k, r)];
        owner := owner[r := Slot(i, NDIRECT + 1 + k)];
        logged := logged + {x};
        LogsStore(sb, b1, bitmap, lg1, x, blocks[x]);
        KeptEntry(sb, v, o, lg, Vol(), logged, i, r, x);
        LogsTwice(sb, v.blocks, bm, lg, b1, bitmap, lg1, blocks, bitmap, logged);
      }
    }

    /** bmap: the block of file block bn, allocated when missing; 0 when space
        runs out. `maps` is the bitmap blocks it logged. */
    method Bmap(i: nat, bn: nat) returns (addr: nat, ghost maps: set<nat>)
      requires Valid() && i < sb.ninodes && table[i].typ != 0 && bn < MAXFILE
      modifies `bitmap, `blocks, `table, `owner, `logged
      ensures Valid() && Extends(sb, old(Vol()), old(owner), Vol(), owner, i)
      ensures addr == Named(sb, Vol(), i, SlotOf(bn)) && (addr == 0 ==> Full())
      ensures Named(sb, old(Vol()), i, SlotOf(bn)) != 0 ==>
                && addr == Named(sb, old(Vol()), i, SlotOf(bn))
                && bitmap == old(bitmap) && Vol() == old(Vol()) && owner == old(owner) && logged == old(logged)
                    && maps == {}
      ensures BmapLogs(sb, old(Vol()), old(logged), Vol(), logged, i, bn, addr, maps)
      ensures LogsAll(sb, old(blocks), old(bitmap), old(logged), blocks, bitmap, logged)
      ensures addr == 0 <==> Stuck(sb, old(Vol()), old(owner), i, bn)
      ensures addr != 0 ==> Grew(sb, old(Vol()), old(owner), Vol(), owner, i, bn)
      ensures Named(sb, old(Vol()), i, SlotOf(bn)) == 0 && addr != 0 ==> addr in logged
      ensures KeptBut(sb, old(Vol()), old(owner), old(logged), Vol(), logged, 0)
    {
      hide Grew, KeptBut;
      ghost var v, o := Vol(), owner;
      if bn < NDIRECT {
        addr, maps := DirectBlock(i, bn);
        if Named(sb, v, i, bn) != 0 {
          GrewNone(sb, v, o, i, bn);
        } else if addr != 0 {
          GrewDirect(sb, v, o, Vol(), i, bn, addr);
        }
      } else {
        addr, maps := IndirectBlock(i, bn);
      }
    }

    method IndirectBlock(i: nat, bn: nat) returns (addr: nat, ghost maps: set<nat>)
      requires Valid() && i < sb.ninodes && table[i].typ != 0 && NDIRECT <= bn < MAXFILE
      modifies `bitmap, `blocks, `table, `owner, `logged
      ensures Valid() && Extends(sb, old(Vol()), old(owner), Vol(), owner, i)
      ensures addr == Named(sb, Vol(), i, SlotOf(bn)) && (addr == 0 ==> Full())
      ensures Named(sb, old(Vol()), i, SlotOf(bn)) != 0 ==>
                bitmap == old(bitmap) && Vol() == old(Vol()) && owner == old(owner) && logged == old(logged) && maps == {}
      ensures BmapLogs(sb, old(Vol()), old(logged), Vol(), logged, i, bn, addr, maps)
      ensures LogsAll(sb, old(blocks), old(bitmap), old(logged), blocks, bitmap, logged)
      ensures addr == 0 <==> Stuck(sb, old(Vol()), old(owner), i, bn)
      ensures addr != 0 ==> Grew(sb, old(Vol()), old(owner), Vol(), owner, i, bn)
      ensures Named(sb, old(Vol()), i, SlotOf(bn)) == 0 && addr != 0 ==> addr in logged
      ensures KeptBut(sb, old(Vol()), old(owner), old(logged), Vol(), logged, 0)
    {
      hide Extends, Sound, Owned, Marked, Full, BmapLogs, SlotLogs, SameNamesBut, Word, LogsAll, Stuck, NoneFree, Grew,
        KeptBut;
      ghost var v, o, lg, m0 := Vol(), owner, logged, bitmap;
      SoundShaped(sb, v, o);
      AfterIndirect(sb, v, v, i, bn);
      var x;
      x, maps := DirectBlock(i, NDIRECT);
      if x == 0 {
        StuckIndirect(sb, v, o, i, bn, 0, owner, 0);
        NoLogs(sb, v, lg, i, bn);
        return 0, {};
      }
      ghost var more, u, p, lg1, m1 := {}, Vol(), owner, logged, bitmap;
      SoundShaped(sb, u, p);
      AfterIndirect(sb, v, u, i, bn);
      addr, more := EntryBlock(i, bn - NDIRECT);
      assert Named(sb, v, i, SlotOf(bn)) != 0 ==> Vol() == u == v && maps == more == {};
      StuckIndirect(sb, v, o, i, bn, x, p, addr);
      SoundShaped(sb, Vol(), owner);
      ExtendsTwice(sb, v, o, u, p, Vol(), owner, i);
      LogsTwice(sb, v.blocks, m0, lg, u.blocks, m1, lg1, blocks, bitmap, logged);
      KeptTwice(sb, v, o, lg, u, p, lg1, Vol(), logged, 0);
      if addr != 0 {
        GrewIndirect(sb, v, o, u, p, Vol(), owner, i, bn, x, addr);
      }
      BothLog(sb, v, lg, u, lg1, Vol(), logged, i, bn, x, addr, maps, more);
      maps := maps + more;
    }

    /** An address of inode i, filled when empty. */
    method DirectBlock(i: nat, s: nat) returns (addr: nat, ghost maps: set<nat>)
      requires Valid() && i < sb.ninodes && table[i].typ != 0 && s <= NDIRECT
      modifies `bitmap, `blocks, `table, `owner, `logged
      ensures Valid() && Extends(sb, old(Vol()), old(owner), Vol(), owner, i)
      ensures addr == Named(sb, Vol(), i, s) && (addr == 0 ==> Full())
      ensures old(table)[i].addrs[s] != 0 || addr == 0 ==>
                bitmap == old(bitmap) && Vol() == old(Vol()) && owner == old(owner) && logged == old(logged) && maps == {}
      ensures old(table)[i].addrs[s] == 0 ==> SameNamesBut(sb, old(Vol()), Vol(), i, s)
      ensures SlotLogs(sb, old(Vol()), old(logged), logged, i, s, addr, maps, {})
      ensures LogsAll(sb, old(blocks), old(bitmap), old(logged), blocks, bitmap, logged)
      ensures old(table)[i].addrs[s] == 0 ==> (addr == 0 <==> NoneFree(sb, old(owner)))
      ensures old(table)[i].addrs[s] == 0 && addr != 0 ==>
                && addr !in old(owner) && sb.datastart <= addr < sb.size && owner == old(owner)[addr := Slot(i, s)]
                && addr in logged
      ensures KeptBut(sb, old(Vol()), old(owner), old(logged), Vol(), logged, 0)
    {
      KeptSame(sb, Vol(), owner, logged);
      addr, maps := table[i].addrs[s], {};
      if addr == 0 {
        addr := AllocAddr(i, s);
        if addr != 0 {
          OneMapOf(sb, addr);
          maps := {sb.Bblock(addr)};
        }
      }
    }

    /** An entry of inode i's indirect block, filled when empty. */
    method EntryBlock(i: nat, k: nat) returns (addr: nat, ghost maps: set<nat>)
      requires Valid() && i < sb.ninodes && table[i].typ != 0 && k < NINDIRECT && table[i].addrs[NDIRECT] != 0
      modifies `bitmap, `blocks, `owner, `logged
      ensures Valid() && Extends(sb, old(Vol()), old(owner), Vol(), owner, i)
      ensures addr == Named(sb, Vol(), i, NDIRECT + 1 + k) && (addr == 0 ==> Full())
      ensures Named(sb, old(Vol()), i, NDIRECT + 1 + k) != 0 || addr == 0 ==>
                bitmap == old(bitmap) && Vol() == old(Vol()) && owner == old(owner) && logged == old(logged) && maps == {}
      ensures SlotLogs(sb, old(Vol()), old(logged), logged, i, NDIRECT + 1 + k, addr, maps, {table[i].addrs[NDIRECT]})
      ensures table == old(table)
      ensures LogsAll(sb, old(blocks), old(bitmap), old(logged), blocks, bitmap, logged)
      ensures Named(sb, old(Vol()), i, NDIRECT + 1 + k) == 0 ==> (addr == 0 <==> NoneFree(sb, old(owner)))
      ensures Named(sb, old(Vol()), i, NDIRECT + 1 + k) == 0 && addr != 0 ==>
                && addr !in old(owner) && sb.datastart <= addr < sb.size
                && owner == old(owner)[addr := Slot(i, NDIRECT + 1 + k)]
                && addr in logged && SameNamesBut(sb, old(Vol()), Vol(), i, NDIRECT + 1 + k)
      ensures KeptBut(sb, old(Vol()), old(owner), old(logged), Vol(), logged, 0)
    {
      hide LogsAll, Extends, Marked, Full, NoneFree, NoHoles, KeptBut;
      KeptSame(sb, Vol(), owner, logged);
      LogsNone(sb, blocks, bitmap, logged);
      ExtendsNone(sb, Vol(), owner, i);
      maps := {};
      addr := Word(blocks[table[i].addrs[NDIRECT]], k);
      if addr == 0 {
        addr := AllocEntry(i, k);
        if addr != 0 {
          OneMapOf(sb, addr);
          maps := {sb.Bblock(addr)};
        }
      }
    }

    method Iupdate(i: nat)
      requires i < |table| == |dinodes|
      modifies `dinodes, `logged
      ensures dinodes == old(dinodes)[i := table[i]] && logged == old(logged) + {sb.Iblock(i)}
    {
      dinodes := dinodes[i := table[i]];
      logged := logged + {sb.Iblock(i)};
    }

    /** One iteration of writei's loop, where copyin delivers piece; false when there is no
        space. The block is logged if copyin succeeds, or if it is new; otherwise a change to it
        spills. */
    method WriteChunk(i: nat, pos: nat, piece: seq<Byte>, whole: bool, ghost v0: Volume, ghost off0: nat, ghost data: seq<Byte>)
        returns (ok: bool, addr: nat, ghost maps: set<nat>)
      requires Valid() && i < sb.ninodes && table[i].typ != 0
      requires Shaped(sb, v0) && Progress(sb, v0, Vol(), owner, i, off0, data)
      requires pos == off0 + |data| < MAXBYTES && pos % BSIZE + |piece| <= BSIZE
      modifies `bitmap, `blocks, `table, `owner, `logged
      ensures Valid() && ok == (addr != 0) && (!ok ==> Full() && pos % BSIZE == 0 && v0.table[i].size <= pos)
      ensures Progress(sb, v0, Vol(), owner, i, off0, if ok then data + piece else data)
      ensures table[i].typ == old(table)[i].typ && addr == Named(sb, Vol(), i, SlotOf(pos / BSIZE))
      ensures old(table)[i].addrs[NDIRECT] != 0 ==> table[i].addrs[NDIRECT] == old(table)[i].addrs[NDIRECT]
      ensures BmapLogs(sb, old(Vol()), old(logged), Vol(), logged, i, pos / BSIZE, addr, maps)
      ensures whole || !ok || piece == [] ==> LogsAll(sb, old(blocks), old(bitmap), old(logged), blocks, bitmap, logged)
      ensures !whole && ok ==> LogsBut(sb, old(blocks), old(bitmap), old(logged), blocks, bitmap, logged, addr)
      ensures !whole && ok ==>
                (LogsAll(sb, old(blocks), old(bitmap), old(logged), blocks, bitmap, logged)
                 <==> !SpillsAt(sb, old(Vol()), old(logged), i, pos, piece))
      ensures ok <==> !Stuck(sb, old(Vol()), old(owner), i, pos / BSIZE)
      ensures ok ==> Grew(sb, old(Vol()), old(owner), Vol(), owner, i, pos / BSIZE)
      ensures KeptBut(sb, old(Vol()), old(owner), old(logged), Vol(), logged, addr)
    {
      hide Extends, Sound, Marked, Progress, OneMap, Full, LogsAll, LogsBut, Stuck, Grew, KeptBut, SpillsAt, Overlay;
      ghost var v, o, lg, m0 := Vol(), owner, logged, bitmap;
      SoundShaped(sb, v, o);
      addr, maps := Bmap(i, pos / BSIZE);
      SoundShaped(sb, Vol(), owner);
      ProgressBmap(sb, v0, v, o, Vol(), owner, i, off0, data);
      ExtendsIndirect(sb, v, o, Vol(), owner, i);
      if addr == 0 {
        NoSpaceAt(sb, v0, Vol(), owner, i, off0, data, pos);
        return false, 0, maps;
      }
      ghost var u, lg1, m1 := Vol(), logged, bitmap;
      ghost var p := owner;
      NamedInRange(sb, u, p, i, SlotOf(pos / BSIZE));
      StoreChunk(i, pos, piece, whole, addr, v0, off0, data);
      SoundShaped(sb, Vol(), owner);
      ExtendsOwners(sb, v, o, u, p, i);
      KeptStore(sb, u, p, lg1, Vol(), logged, addr, blocks[addr]);
      KeptTwice(sb, v, o, lg, u, p, lg1, Vol(), logged, addr);
      GrewThenSame(sb, v, o, u, Vol(), p, i, pos / BSIZE);
      if whole || piece == [] {
        LogsTwice(sb, v.blocks, m0, lg, u.blocks, m1, lg1, blocks, bitmap, logged);
      }
      if !whole {
        LogsThenBut(sb, v.blocks, m0, lg, u.blocks, m1, lg1, blocks, bitmap, logged, addr);
        assert logged == lg1;
        SpillLogged(sb, v, o, m0, lg, u, m1, lg1, i, pos, piece, addr);
      }
      ok := true;
    }

    /** either_copyin into the block's buffer, and log_write unless it fails. */
    method StoreChunk(i: nat, pos: nat, piece: seq<Byte>, whole: bool, addr: nat, ghost v0: Volume, ghost off0: nat,
        ghost data: seq<Byte>)
      requires Valid() && i < sb.ninodes && Shaped(sb, v0) && Progress(sb, v0, Vol(), owner, i, off0, data)
      requires pos == off0 + |data| < MAXBYTES && pos % BSIZE + |piece| <= BSIZE
      requires addr == Named(sb, Vol(), i, SlotOf(pos / BSIZE)) != 0
      modifies `blocks, `logged
      ensures Valid() && Progress(sb, v0, Vol(), owner, i, off0, data + piece) && SameNames(sb, old(Vol()), Vol())
      ensures logged == old(logged) + if whole then {addr} else {}
      ensures addr < sb.size == |old(blocks)| && blocks == old(blocks)[addr := Overlay(old(blocks)[addr], pos % BSIZE, piece)]
      ensures whole || piece == [] ==> LogsAll(sb, old(blocks), old(bitmap), old(logged), blocks, bitmap, logged)
      ensures !whole ==> LogsBut(sb, old(blocks), old(bitmap), old(logged), blocks, bitmap, logged, addr)
    {
      hide LogsAll, LogsBut, Sound, Marked, Progress, Overlay, SameNames, Named;
      ghost var u, lg := Vol(), logged;
      SoundShaped(sb, u, owner);
      NamedInRange(sb, u, owner, i, SlotOf(pos / BSIZE));
      ghost var c := Overlay(blocks[addr], pos % BSIZE, piece);
      blocks := blocks[addr := Overlay(blocks[addr], pos % BSIZE, piece)];
      if whole {
        logged := logged + {addr};
        LogsStore(sb, u.blocks, bitmap, lg, addr, c);
      } else {
        ButStore(sb, u.blocks, bitmap, lg, addr, c);
      }
      if !whole && piece == [] {
        OverlayNothing(u.blocks[addr], pos % BSIZE);
        assert blocks == u.blocks;
        LogsNone(sb, blocks, bitmap, logged);
      }
      ProgressStore(sb, v0, u, owner, i, off0, data, piece, pos, addr, Vol());
      ProgressSound(sb, v0, Vol(), owner, i, off0, data + piece);
    }

    /** writei's loop invariant: `tot` bytes of src are stored, and t accounts for
        the blocks logged since lg0. */
    ghost predicate Writing(v0: Volume, lg0: set<nat>, t: Tally, i: nat, src: seq<Byte>, off: nat, tot: nat, going: bool)
      reads this
      requires Shaped(sb, v0) && i < sb.ninodes && off + |src| <= MAXBYTES
    {
      && Valid() && table[i].typ != 0 && tot <= |src|
      && Progress(sb, v0, Vol(), owner, i, off, src[..tot])
      && Counts(sb, t, lg0, logged)
      && t.grown <= 1 && t.news <= t.rounds - (if off % BSIZE != 0 && t.rounds > 0 then 1 else 0)
      && (|src| <= 3 * BSIZE ==> t.rounds <= if off % BSIZE == 0 then 3 else 4)
      && (if going then AtRound(off, |src|, tot, t.rounds) && Running(t, off, table[i].addrs[NDIRECT])
          else Full() && (off + tot) % BSIZE == 0 && v0.table[i].size <= off + tot)
    }

    /** WriteChunk with the account kept. */
    method TalliedChunk(i: nat, pos: nat, piece: seq<Byte>, whole: bool, ghost v0: Volume, ghost off0: nat, ghost data: seq<Byte>,
                        ghost lg0: set<nat>, ghost t: Tally)
        returns (ok: bool, addr: nat, ghost t': Tally)
      requires Valid() && i < sb.ninodes && table[i].typ != 0
      requires Shaped(sb, v0) && Progress(sb, v0, Vol(), owner, i, off0, data)
      requires pos == off0 + |data| < MAXBYTES && pos % BSIZE + |piece| <= BSIZE
      requires Counts(sb, t, lg0, logged) && Running(t, off0, table[i].addrs[NDIRECT]) && (t.rounds == 0 ==> data == [])
      modifies `bitmap, `blocks, `table, `owner, `logged
      ensures Valid() && table[i].typ != 0 && (!ok ==> Full() && pos % BSIZE == 0 && v0.table[i].size <= pos)
      ensures Progress(sb, v0, Vol(), owner, i, off0, if ok then data + piece else data)
      ensures Counts(sb, t', lg0, logged) && t'.rounds == t.rounds + 1 && t'.grown <= 1
      ensures t'.news <= t'.rounds - if off0 % BSIZE != 0 then 1 else 0
      ensures ok ==> Running(t', off0, table[i].addrs[NDIRECT])
      ensures addr == Named(sb, Vol(), i, SlotOf(pos / BSIZE)) && ok == (addr != 0)
      ensures whole || !ok || piece == [] ==> LogsAll(sb, old(blocks), old(bitmap), old(logged), blocks, bitmap, logged)
      ensures !whole && ok ==> LogsBut(sb, old(blocks), old(bitmap), old(logged), blocks, bitmap, logged, addr)
      ensures !whole && ok ==>
                (LogsAll(sb, old(blocks), old(bitmap), old(logged), blocks, bitmap, logged)
                 <==> !SpillsAt(sb, old(Vol()), old(logged), i, pos, piece))
      ensures ok <==> !Stuck(sb, old(Vol()), old(owner), i, pos / BSIZE)
      ensures ok ==> Grew(sb, old(Vol()), old(owner), Vol(), owner, i, pos / BSIZE)
      ensures KeptBut(sb, old(Vol()), old(owner), old(logged), Vol(), logged, addr)
    {
      hide Progress, Counts, BmapLogs, Running, Sound, Marked, Full, LogsAll, LogsBut, Stuck, NextTally, Named, Grew,
        KeptBut, SpillsAt;
      ghost var v, lg := Vol(), logged;
      SoundShaped(sb, v, owner);
      FirstBlockNamed(sb, v0, v, owner, i, off0, data);
      ghost var more;
      ok, addr, more := WriteChunk(i, pos, piece, whole, v0, off0, data);
      SoundShaped(sb, Vol(), owner);
      TallyStep(sb, v, lg0, lg, Vol(), logged, i, off0, pos, addr, more, t);
      t' := NextTally(sb, v, Vol(), i, pos / BSIZE, addr, more, t);
    }

    method WriteRound(i: nat, src: seq<Byte>, off: nat, tot: nat, ghost v0: Volume, ghost lg0: set<nat>, ghost t: Tally)
        returns (going: bool, tot': nat, ghost t': Tally)
      requires Shaped(sb, v0) && i < sb.ninodes && off + |src| <= MAXBYTES && tot < |src|
      requires Writing(v0, lg0, t, i, src, off, tot, true)
      modifies `bitmap, `blocks, `table, `owner, `logged
      ensures Writing(v0, lg0, t', i, src, off, tot', going) && tot <= tot' && (going ==> tot < tot')
      ensures LogsAll(sb, old(blocks), old(bitmap), old(logged), blocks, bitmap, logged)
      ensures tot' == (if going then tot + Chunk(off, |src|, tot) else tot)
      ensures going <==> !Stuck(sb, old(Vol()), old(owner), i, (off + tot) / BSIZE)
      ensures going ==>
                && Grew(sb, old(Vol()), old(owner), Vol(), owner, i, (off + tot) / BSIZE)
                && KeptBut(sb, old(Vol()), old(owner), old(logged), Vol(), logged,
                           Named(sb, Vol(), i, SlotOf((off + tot) / BSIZE)))
    {
      hide Progress, Counts, Running, Sound, Marked, LogsAll, Stuck, Grew, KeptBut, Named;
      assert t.rounds == 0 ==> tot == 0;
      var m := Chunk(off, |src|, tot);
      assert src[..tot] + src[tot..tot + m] == src[..tot + m];
      NextRound(off, |src|, tot, t.rounds);
      if |src| <= 3 * BSIZE {
        RoundLimit(off, |src|, tot, t.rounds);
      }
      var addr;
      going, addr, t' := TalliedChunk(i, off + tot, src[tot..tot + m], true, v0, off, src[..tot], lg0, t);
      tot' := if going then tot + m else tot;
    }

    /** The round in which copyin fails after delivering the bytes up to good: they reach the
        block's buffer, and the block is not logged. */
    method SpillRound(i: nat, src: seq<Byte>, off: nat, tot: nat, good: nat,
                      ghost v0: Volume, ghost lg0: set<nat>, ghost t: Tally)
        returns (ok: bool, x: nat, ghost t': Tally)
      requires Shaped(sb, v0) && i < sb.ninodes && off + |src| <= MAXBYTES && tot < |src|
      requires Cut(off, |src|, good, tot) && Writing(v0, lg0, t, i, src, off, tot, true)
      modifies `bitmap, `blocks, `table, `owner, `logged
      ensures Valid() && table[i].typ != 0
      ensures Progress(sb, v0, Vol(), owner, i, off, src[..if ok then good else tot])
      ensures !ok ==> Full() && (off + tot) % BSIZE == 0 && v0.table[i].size <= off + tot
      ensures x == Named(sb, Vol(), i, SlotOf((off + tot) / BSIZE)) && ok == (x != 0)
      ensures !ok || good == tot ==> LogsAll(sb, old(blocks), old(bitmap), old(logged), blocks, bitmap, logged)
      ensures LogsAll(sb, old(blocks), old(bitmap), old(logged), blocks, bitmap, logged)
              <==> !SpillsFrom(sb, old(Vol()), old(logged), i, off, src, tot, good)
      ensures ok ==> LogsBut(sb, old(blocks), old(bitmap), old(logged), blocks, bitmap, logged, x)
      ensures Counts(sb, t', lg0, logged) && t'.rounds > 0 && t'.grown <= 1
      ensures t'.news <= t'.rounds - if off % BSIZE != 0 then 1 else 0
      ensures |src| <= 3 * BSIZE ==> t'.rounds <= if off % BSIZE == 0 then 3 else 4
    {
      hide Progress, Counts, Running, Sound, Marked, LogsAll, LogsBut, Grew, KeptBut;
      assert t.rounds == 0 ==> tot == 0;
      assert src[..tot] + src[tot..good] == src[..good];
      if |src| <= 3 * BSIZE {
        RoundLimit(off, |src|, tot, t.rounds);
      }
      ok, x, t' := TalliedChunk(i, off + tot, src[tot..good], false, v0, off, src[..tot], lg0, t);
    }

    /** Where the loop stands: while it is going, the blocks before the next one are in place
        and those from it on untouched; once it has stopped, there was no room for more. */
    ghost predicate OnCourse(v0: Volume, o0: Owners, lg0: set<nat>, i: nat, off: nat, upto: nat, tot: nat, going: bool)
      reads this
      requires Shaped(sb, v0) && Shaped(sb, Vol()) && i < sb.ninodes && off + upto <= MAXBYTES
    {
      if going then
        && tot <= upto
        && Filled(sb, v0, o0, Vol(), owner, i, off / BSIZE, BlockEnd(off, tot))
        && Ahead(sb, v0, lg0, Vol(), logged, i, BlockEnd(off, tot))
      else
        tot < upto && Reached(sb, v0, o0, i, off, upto, tot)
    }

    /** One of them. */
    method CourseRound(i: nat, src: seq<Byte>, off: nat, good: nat, tot: nat,
                       ghost v0: Volume, ghost o0: Owners, ghost lg0: set<nat>, ghost t: Tally)
        returns (going: bool, tot': nat, ghost t': Tally)
      requires Shaped(sb, v0) && i < sb.ninodes && off + |src| <= MAXBYTES && good <= |src|
      requires Writing(v0, lg0, t, i, src, off, tot, true)
      requires OnCourse(v0, o0, lg0, i, off, Upto(off, |src|, good), tot, true)
      requires tot < |src| && tot + Chunk(off, |src|, tot) <= good
      modifies `bitmap, `blocks, `table, `owner, `logged
      ensures Writing(v0, lg0, t', i, src, off, tot', going) && tot <= tot' <= good && (going ==> tot < tot')
      ensures OnCourse(v0, o0, lg0, i, off, Upto(off, |src|, good), tot', going)
      ensures LogsAll(sb, old(blocks), old(bitmap), old(logged), blocks, bitmap, logged)
    {
      hide Progress, Counts, Running, Sound, Marked, LogsAll, Stuck, Full, Upto, Chunk, BlockEnd, Filled, Ahead, Reached, Grew,
        KeptBut, Named;
      ghost var u, p, lg1 := Vol(), owner, logged;
      SoundShaped(sb, u, p);
      EndNext(off, |src|, tot, t.rounds);
      ChunkUpto(off, |src|, good, tot, t.rounds);
      going, tot', t' := WriteRound(i, src, off, tot, v0, lg0, t);
      SoundShaped(sb, Vol(), owner);
      if going {
        FilledNext(sb, v0, o0, u, p, Vol(), owner, i, off / BSIZE, (off + tot) / BSIZE);
        AheadNext(sb, v0, lg0, u, p, lg1, Vol(), owner, logged, i, (off + tot) / BSIZE);
      } else {
        ReachedSome(sb, v0, o0, u, p, i, off, |src|, Upto(off, |src|, good), tot, t.rounds);
      }
    }

    /** The rounds of writei's loop in which copyin succeeds, `good` bytes being what it
        can deliver. */
    method WholeRounds(i: nat, src: seq<Byte>, off: nat, good: nat) returns (going: bool, tot: nat, ghost t: Tally)
      requires Valid() && i < sb.ninodes && table[i].typ != 0
      requires off <= table[i].size && off + |src| <= MAXBYTES && good <= |src|
      modifies `bitmap, `blocks, `table, `owner, `logged
      ensures Shaped(sb, old(Vol())) && Writing(old(Vol()), old(logged), t, i, src, off, tot, going) && tot <= good
      ensures OnCourse(old(Vol()), old(owner), old(logged), i, off, Upto(off, |src|, good), tot, going)
      ensures going ==> tot == Upto(off, |src|, good) && (tot < |src| ==> Cut(off, |src|, good, tot))
      ensures LogsAll(sb, old(blocks), old(bitmap), old(logged), blocks, bitmap, logged)
    {
      hide Progress, Sound, Marked, LogsAll, Stuck, Chunk, Full, Upto, OnCourse;
      ghost var v0, o0, m0, lg0 := Vol(), owner, bitmap, logged;
      t := Tally({}, {}, {}, 0, 0, 0);
      SoundShaped(sb, v0, o0);
      LogsNone(sb, blocks, bitmap, logged);
      ProgressStart(sb, v0, owner, i, off);
      StartCourse(i, off, Upto(off, |src|, good));
      tot := 0;
      assert src[..0] == [];
      going := true;
      while tot < |src| && going && tot + Chunk(off, |src|, tot) <= good
        invariant Writing(v0, lg0, t, i, src, off, tot, going) && tot <= good
        invariant Shaped(sb, Vol()) && OnCourse(v0, o0, lg0, i, off, Upto(off, |src|, good), tot, going)
        invariant LogsAll(sb, v0.blocks, m0, lg0, blocks, bitmap, logged)
        decreases |src| - tot, going
      {
        ghost var b1, m1, lg1 := blocks, bitmap, logged;
        going, tot, t := CourseRound(i, src, off, good, tot, v0, o0, lg0, t);
        SoundShaped(sb, Vol(), owner);
        LogsTwice(sb, v0.blocks, m0, lg0, b1, m1, lg1, blocks, bitmap, logged);
      }
      if going {
        EndCourse(i, src, off, good, tot, v0, o0, lg0, t.rounds);
      }
    }

    lemma StartCourse(i: nat, off: nat, upto: nat)
      requires Valid() && i < sb.ninodes && off + upto <= MAXBYTES
      ensures Shaped(sb, Vol()) && OnCourse(Vol(), owner, logged, i, off, upto, 0, true)
    {
      SoundShaped(sb, Vol(), owner);
      FilledStart(sb, Vol(), owner, i, off / BSIZE);
      AheadStart(sb, Vol(), owner, logged, i, off / BSIZE);
    }

    lemma EndCourse(i: nat, src: seq<Byte>, off: nat, good: nat, tot: nat, v0: Volume, o0: Owners, lg0: set<nat>, rounds: nat)
      requires Shaped(sb, v0) && Shaped(sb, Vol()) && i < sb.ninodes && off + |src| <= MAXBYTES && tot <= good <= |src|
      requires OnCourse(v0, o0, lg0, i, off, Upto(off, |src|, good), tot, true) && AtRound(off, |src|, tot, rounds)
      requires tot < |src| ==> tot + Chunk(off, |src|, tot) > good
      ensures tot == Upto(off, |src|, good)
    {
      hide Filled, Ahead;
      if tot < |src| {
        ChunkUpto(off, |src|, good, tot, rounds);
      }
    }

    /** The loop of writei: tot bytes are stored and logged, as many as copyin delivers whole
        chunks of and there is room for, and up to `stored` have reached the cache. Every
        block that it changes it logs, unless the last of them spill. */
    method WriteLoop(i: nat, src: seq<Byte>, off: nat, good: nat) returns (tot: nat, ghost stored: nat)
      requires Valid() && i < sb.ninodes && table[i].typ != 0
      requires off <= table[i].size && off + |src| <= MAXBYTES && good <= |src|
      modifies `bitmap, `blocks, `table, `owner, `logged
      ensures Shaped(sb, old(Vol())) && Valid() && tot <= stored <= |src| && tot <= good
      ensures tot < stored ==> Cut(off, |src|, good, tot) && stored == good
      ensures tot == stored < |src| ==>
                Cut(off, |src|, good, tot) || (Full() && (off + tot) % BSIZE == 0 && old(table)[i].size <= off + tot)
      ensures Progress(sb, old(Vol()), Vol(), owner, i, off, src[..stored])
      ensures old(logged) == {} && |src| <= 3 * BSIZE ==> |logged + {sb.Iblock(i)}| <= ChunkLimit(sb)
      ensures stored == tot ==> LogsAll(sb, old(blocks), old(bitmap), old(logged), blocks, bitmap, logged)
      ensures tot < stored ==>
                var x := Named(sb, Vol(), i, SlotOf((off + tot) / BSIZE));
                x != 0 && LogsBut(sb, old(blocks), old(bitmap), old(logged), blocks, bitmap, logged, x)
      ensures Reached(sb, old(Vol()), old(owner), i, off, Upto(off, |src|, good), tot)
      ensures tot == |src| ==> Filled(sb, old(Vol()), old(owner), Vol(), owner, i, off / BSIZE, BlockEnd(off, tot))
      ensures LogsAll(sb, old(blocks), old(bitmap), old(logged), blocks, bitmap, logged)
              <==> !Spills(sb, old(Vol()), old(owner), old(logged), i, off, src, good)
    {
      hide Progress, Sound, Marked, LogsAll, LogsBut, Stuck, Chunk, Full, Named, Upto, OnCourse, Reached, SpillsFrom, Room,
        Spills, Cut, Filled;
      ghost var v0, o0, m0, lg0, upto := Vol(), owner, bitmap, logged, Upto(off, |src|, good);
      var going;
      ghost var t;
      going, tot, t := WholeRounds(i, src, off, good);
      stored := tot;
      SoundShaped(sb, Vol(), owner);
      if tot < |src| && going {
        ghost var u, m1, lg1 := Vol(), bitmap, logged;
        LogsGrow(sb, v0.blocks, m0, lg0, u.blocks, m1, lg1);
        CourseSpills(i, src, off, good, tot, v0, o0, lg0, t.rounds);
        var ok, x;
        ok, x, t := SpillRound(i, src, off, tot, good, v0, lg0, t);
        if ok {
          stored := good;
          LogsThenBut(sb, v0.blocks, m0, lg0, u.blocks, m1, lg1, blocks, bitmap, logged, x);
          LogsThenIff(sb, v0.blocks, m0, lg0, u.blocks, m1, lg1, blocks, bitmap, logged, x);
        }
        if stored == tot {
          LogsTwice(sb, v0.blocks, m0, lg0, u.blocks, m1, lg1, blocks, bitmap, logged);
        }
      } else {
        CourseDone(i, src, off, good, tot, going, v0, o0, lg0);
      }
      if lg0 == {} && |src| <= 3 * BSIZE {
        TallyTotal(sb, logged, t, off, sb.Iblock(i));
      }
    }

    /** The loop stops without meeting a failing copyin. */
    lemma CourseDone(i: nat, src: seq<Byte>, off: nat, good: nat, tot: nat, going: bool, v0: Volume, o0: Owners, lg0: set<nat>)
      requires Shaped(sb, v0) && Shaped(sb, Vol()) && i < sb.ninodes && off + |src| <= MAXBYTES && good <= |src|
      requires OnCourse(v0, o0, lg0, i, off, Upto(off, |src|, good), tot, going) && (going ==> tot == |src|)
      ensures Reached(sb, v0, o0, i, off, Upto(off, |src|, good), tot) && !Spills(sb, v0, o0, lg0, i, off, src, good)
      ensures tot == |src| ==> Filled(sb, v0, o0, Vol(), owner, i, off / BSIZE, BlockEnd(off, tot))
    {
      hide Filled, Ahead, Room, SpillsAt;
      if going {
        ReachedAll(sb, v0, o0, Vol(), owner, i, off, tot);
      }
    }

    /** It meets one: what spills now would have spilled at the start. */
    lemma CourseSpills(i: nat, src: seq<Byte>, off: nat, good: nat, tot: nat, v0: Volume, o0: Owners, lg0: set<nat>, rounds: nat)
      requires Shaped(sb, v0) && Shaped(sb, Vol()) && i < sb.ninodes && off + |src| <= MAXBYTES && good <= |src|
      requires OnCourse(v0, o0, lg0, i, off, Upto(off, |src|, good), tot, true) && lg0 <= logged
      requires tot == Upto(off, |src|, good) < |src| && AtRound(off, |src|, tot, rounds)
      requires Cut(off, |src|, good, tot)
      ensures Reached(sb, v0, o0, i, off, tot, tot)
      ensures Spills(sb, v0, o0, lg0, i, off, src, good) <==> SpillsFrom(sb, Vol(), logged, i, off, src, tot, good)
    {
      hide Filled, Room, SpillsAt, SameAt;
      ReachedAll(sb, v0, o0, Vol(), owner, i, off, tot);
      EndNext(off, |src|, tot, rounds);
      assert SameAt(sb, v0, lg0, Vol(), logged, i, (off + tot) / BSIZE);
      SpillsAhead(sb, v0, lg0, Vol(), logged, i, off + tot, src[tot..good]);
    }

    /** writei, where copyin can deliver the first `good` bytes of src (all of them, for a
        source in the kernel): -1 for a bad range, else the number of bytes stored and
        logged, which is as many as copyin delivers whole chunks of and there is room for.
        It falls short only when the disk is full, at a block boundary past the end of the
        file, or when copyin fails; then the bytes up to `stored` have reached the cached
        block, and the file as far as its size goes. Every block that it changes it logs,
        but for that one, and that one exactly if they spill. */
    method Writei(i: nat, src: seq<Byte>, off: nat, good: nat) returns (r: int, ghost stored: nat)
      requires Valid() && i < sb.ninodes && table[i].typ != 0 && |dinodes| == sb.ninodes
      requires off < UINT_LIMIT && |src| < UINT_LIMIT && good <= |src|
      modifies `bitmap, `blocks, `table, `dinodes, `owner, `logged
      ensures Valid() && |dinodes| == sb.ninodes
      ensures r == -1 <==> off > old(table)[i].size || (off + |src|) % UINT_LIMIT < off || off + |src| > MAXBYTES
      ensures r == -1 ==> bitmap == old(bitmap) && Vol() == old(Vol()) && dinodes == old(dinodes) && logged == old(logged)
      ensures r != -1 ==>
                && 0 <= r <= stored <= |src| && r <= good
                && (r < stored ==> Cut(off, |src|, good, r) && stored == good)
                && (r == stored < |src| ==>
                      Cut(off, |src|, good, r) || (Full() && (off + r) % BSIZE == 0 && old(table)[i].size <= off + r))
                && StoredPart(sb, old(Vol()), Vol(), i, off, src[..stored], r)
                && dinodes == old(dinodes)[i := table[i]] && sb.Iblock(i) in logged
      ensures old(logged) == {} && |src| <= 3 * BSIZE ==> |logged| <= ChunkLimit(sb)
      ensures r == -1 || stored == r ==> LogsAll(sb, old(blocks), old(bitmap), old(logged), blocks, bitmap, logged)
      ensures r != -1 && r < stored ==>
                LogsBut(sb, old(blocks), old(bitmap), old(logged), blocks, bitmap, logged,
                        Named(sb, Vol(), i, SlotOf((off + r) / BSIZE)))
      ensures r != -1 ==> Shaped(sb, old(Vol())) && Reached(sb, old(Vol()), old(owner), i, off, Upto(off, |src|, good), r)
      ensures r == |src| ==>
                Shaped(sb, Vol()) && Filled(sb, old(Vol()), old(owner), Vol(), owner, i, off / BSIZE, BlockEnd(off, r))
      ensures r != -1 ==>
                (LogsAll(sb, old(blocks), old(bitmap), old(logged), blocks, bitmap, logged)
                 <==> !Spills(sb, old(Vol()), old(owner), old(logged), i, off, src, good))
      ensures r != -1 && |src| > 0 && off % BSIZE + |src| <= BSIZE && good == |src| ==>
                (r == |src| <==> !Stuck(sb, old(Vol()), old(owner), i, off / BSIZE))
    {
      hide LogsAll, LogsBut, Progress, Sound, Marked, StoredPart, Full, Cut, Stuck, Named, Shaped, Reached, Spills,
        Filled, SameNames;
      ghost var v0, o0, m0, lg0 := Vol(), owner, bitmap, logged;
      stored := 0;
      SoundTable(sb, v0, o0);
      LogsNone(sb, blocks, bitmap, logged);
      if off > table[i].size || (off + |src|) % UINT_LIMIT < off {
        return -1, stored;
      }
      if off + |src| > MAXBYTES {
        return -1, stored;
      }
      var tot;
      tot, stored := WriteLoop(i, src, off, good);
      ghost var lg, x := logged, SpillAt(i, off, tot, stored);
      ghost var u := Vol();
      EndWrite(i, off, tot, src[..stored], v0, o0, x);
      if tot == |src| {
        FilledSame(sb, v0, o0, u, Vol(), owner, i, off / BSIZE, BlockEnd(off, tot));
      }
      if stored == tot {
        LogsMore(sb, v0.blocks, m0, lg0, blocks, bitmap, lg, sb.Iblock(i));
      } else {
        IblockApart(i, SlotOf((off + tot) / BSIZE));
        ButMore(sb, v0.blocks, m0, lg0, blocks, bitmap, lg, x, sb.Iblock(i));
      }
      r := tot;
      if |src| > 0 && off % BSIZE + |src| <= BSIZE && good == |src| {
        OneReached(sb, v0, o0, i, off, |src|, tot);
      }
    }

    /** The block that the bytes past tot are in. */
    ghost function SpillAt(i: nat, off: nat, tot: nat, stored: nat): (x: nat)
      requires Valid() && i < sb.ninodes
      reads this
      ensures tot < stored && off + stored <= MAXBYTES ==> x == Named(sb, Vol(), i, SlotOf((off + tot) / BSIZE))
    {
      if tot < stored && off + stored <= MAXBYTES then Named(sb, Vol(), i, SlotOf((off + tot) / BSIZE)) else 0
    }

    lemma IblockApart(i: nat, s: nat)
      requires Valid() && i < sb.ninodes && s < NSLOTS && Named(sb, Vol(), i, s) != 0
      ensures Named(sb, Vol(), i, s) != sb.Iblock(i)
    {
      NamedInRange(sb, Vol(), owner, i, s);
    }

    /** writei's end: the size follows the bytes counted, and the inode goes to its block. */
    method EndWrite(i: nat, off: nat, tot: nat, ghost data: seq<Byte>, ghost v0: Volume, ghost o0: Owners, ghost x: nat)
      requires Valid() && i < sb.ninodes && |dinodes| == sb.ninodes && Sound(sb, v0, o0)
      requires Progress(sb, v0, Vol(), owner, i, off, data) && off <= v0.table[i].size && tot <= |data|
      requires tot < |data| && off + |data| <= MAXBYTES ==> x == Named(sb, Vol(), i, SlotOf((off + tot) / BSIZE))
      modifies `table, `dinodes, `logged
      ensures Valid() && StoredPart(sb, v0, Vol(), i, off, data, tot)
      ensures Shaped(sb, old(Vol())) && Shaped(sb, Vol()) && SameNames(sb, old(Vol()), Vol())
      ensures dinodes == old(dinodes)[i := table[i]] && |table| == sb.ninodes && logged == old(logged) + {sb.Iblock(i)}
      ensures tot < |data| && off + |data| <= MAXBYTES ==> x == Named(sb, Vol(), i, SlotOf((off + tot) / BSIZE))
    {
      hide Progress, Sound, Marked, StoredPart;
      ghost var v := Vol();
      SoundShaped(sb, v0, o0);
      WroteTable(sb, v0, v, owner, i, off, data);
      SoundShaped(sb, v, owner);
      if off + tot > table[i].size {
        table := table[i := table[i].(size := off + tot)];
      }
      WriteEnds(sb, v0, o0, v, owner, Vol(), i, off, data, tot);
      SoundShaped(sb, Vol(), owner);
      Iupdate(i);
    }

    /** readi, where copyout can deliver `good` bytes: exactly the clipped slice of the
        file, or -1, here None, if that is longer; nothing is allocated. */
    method Readi(i: nat, off: nat, n: nat, good: nat) returns (r: Option<seq<Byte>>)
      requires Valid() && i < sb.ninodes && table[i].typ != 0 && off < UINT_LIMIT && n < UINT_LIMIT
      modifies `bitmap, `blocks, `table, `owner, `logged
      ensures bitmap == old(bitmap) && Vol() == old(Vol()) && owner == old(owner) && logged == old(logged) && Valid()
      ensures var slice := if off > table[i].size || (off + n) % UINT_LIMIT < off then []
                           else Content(sb, Vol(), i)[off..Min(off + n, table[i].size)];
              r == if |slice| <= good then Some(slice) else None
    {
      if off > table[i].size || (off + n) % UINT_LIMIT < off {
        return Some([]);
      }
      r := ReadLoop(i, off, Min(off + n, table[i].size) - off, good);
    }

    /** The loop of readi. */
    method ReadLoop(i: nat, off: nat, len: nat, good: nat) returns (r: Option<seq<Byte>>)
      requires Valid() && i < sb.ninodes && table[i].typ != 0 && off + len <= table[i].size
      modifies `bitmap, `blocks, `table, `owner, `logged
      ensures bitmap == old(bitmap) && Vol() == old(Vol()) && owner == old(owner) && logged == old(logged)
      ensures Valid() && r == if len <= good then Some(Content(sb, Vol(), i)[off..off + len]) else None
    {
      hide Sound, Marked, Content;
      ghost var file := FileOf(i);
      var dst: seq<Byte> := [];
      var tot := 0;
      while tot < len
        invariant 0 <= tot <= len
        invariant bitmap == old(bitmap) && Vol() == old(Vol()) && owner == old(owner) && logged == old(logged)
        invariant dst == file[off..off + tot] && tot <= good
      {
        var m := Chunk(off, len, tot);
        var piece := ReadBlock(i, off + tot, m);
        if tot + m > good {
          return None;
        }
        assert file[off..off + tot] + file[off + tot..off + tot + m] == file[off..off + tot + m];
        dst := dst + piece;
        tot := tot + m;
      }
      r := Some(dst);
    }

    lemma FileOf(i: nat) returns (file: seq<Byte>)
      requires Valid() && i < sb.ninodes
      ensures Shaped(sb, Vol()) && table[i].size <= MAXFILE * BSIZE && file == Content(sb, Vol(), i)
    {
      assert NoHoles(sb, Vol(), i, table[i].size);
      file := Content(sb, Vol(), i);
    }

    /** One iteration of readi's loop: the block exists, so bmap only looks it up. */
    method ReadBlock(i: nat, pos: nat, m: nat) returns (piece: seq<Byte>)
      requires Valid() && i < sb.ninodes && table[i].typ != 0
      requires pos < table[i].size && pos + m <= table[i].size && pos % BSIZE + m <= BSIZE
      modifies `bitmap, `blocks, `table, `owner, `logged
      ensures bitmap == old(bitmap) && Vol() == old(Vol()) && owner == old(owner) && logged == old(logged)
      ensures Valid() && piece == Content(sb, Vol(), i)[pos..pos + m]
    {
      assert NoHoles(sb, Vol(), i, table[i].size);
      assert pos / BSIZE * BSIZE <= pos;
      NamedInRange(sb, Vol(), owner, i, SlotOf(pos / BSIZE));
      SliceOfFile(sb, Vol(), i, pos, m);
      var addr;
      ghost var maps;
      addr, maps := Bmap(i, pos / BSIZE);
      piece := blocks[addr][pos % BSIZE..pos % BSIZE + m];
    }

    /** itrunc: every block of inode i is freed, none of them twice. */
    method Itrunc(i: nat)
      requires Valid() && i < sb.ninodes && |dinodes| == sb.ninodes
      modifies `bitmap, `table, `dinodes, `owner, `logged
      ensures Valid()
      ensures table[i] == old(table)[i].(size := 0, addrs := NoAddrs())
      ensures forall s :: 0 <= s < NSLOTS ==> Named(sb, Vol(), i, s) == 0
      ensures forall j :: 0 <= j < sb.ninodes && j != i ==> table[j] == old(table)[j]
      ensures forall b :: b in owner <==> b in old(owner) && old(owner)[b].inum != i
      ensures forall b :: b in owner ==> owner[b] == old(owner)[b]
      ensures dinodes == old(dinodes)[i := table[i]]
      ensures exists lg :: BitmapLogs(sb, old(bitmap), old(logged), bitmap, lg) && logged == lg + {sb.Iblock(i)}
    {
      ghost var v0, o0 := Vol(), owner;
      FreeAll(i);
      TruncSound(sb, v0, o0, Vol(), owner, i);
      table := table[i := table[i].(size := 0)];
      forall k | 0 <= k <= NDIRECT
        ensures table[i].addrs[k] == 0
      {
        assert Named(sb, Vol(), i, k) == 0;
      }
      assert table[i].addrs == NoAddrs();
      Iupdate(i);
    }

    /** Both halves of itrunc's freeing. */
    method FreeAll(i: nat)
      requires Shaped(sb, Vol()) && Owned(sb, Vol(), owner) && Marked(sb, bitmap, owner) && i < sb.ninodes
      modifies `bitmap, `table, `owner, `logged
      ensures Shaped(sb, Vol()) && Owned(sb, Vol(), owner) && Truncating(old(Vol()), old(owner), i)
      ensures forall s :: 0 <= s < NSLOTS ==> Named(sb, Vol(), i, s) == 0
      ensures forall b :: b in owner ==> owner[b].inum != i
      ensures BitmapLogs(sb, old(bitmap), old(logged), bitmap, logged)
    {
      ghost var m0, lg0 := bitmap, logged;
      FreeDirect(i);
      ghost var m1, lg1 := bitmap, logged;
      FreeIndirect(i);
      BitmapLogsTwice(sb, m0, lg0, m1, lg1, bitmap, logged);
      forall s | 0 <= s < NDIRECT
        ensures table[i].addrs[s] == 0
      {
        assert table[i].addrs[..NDIRECT][s] == 0;
      }
      forall b | b in owner
        ensures owner[b].inum != i
      {
        assert Records(sb, Vol(), owner, b);
      }
    }

    /** What a partly truncated inode i leaves to the rest of the volume. */
    ghost predicate Truncating(v0: Volume, o0: Owners, i: nat)
      reads this
    {
      && OnlyAddrsOf(v0, Vol(), i)
      && Marked(sb, bitmap, owner)
      && (forall b :: b in owner ==> b in o0 && owner[b] == o0[b])
      && (forall b :: b in o0 && o0[b].inum != i ==> b in owner)
    }

    method FreeDirect(i: nat)
      requires Shaped(sb, Vol()) && Owned(sb, Vol(), owner) && Marked(sb, bitmap, owner) && i < sb.ninodes
      modifies `bitmap, `table, `owner, `logged
      ensures Shaped(sb, Vol()) && Owned(sb, Vol(), owner) && Truncating(old(Vol()), old(owner), i)
      ensures forall k :: 0 <= k < NDIRECT ==> table[i].addrs[k] == 0
      ensures BitmapLogs(sb, old(bitmap), old(logged), bitmap, logged)
    {
      ghost var v0, o0, m0, lg0 := Vol(), owner, bitmap, logged;
      var k := 0;
      while k < NDIRECT
        invariant 0 <= k <= NDIRECT && Shaped(sb, Vol()) && Owned(sb, Vol(), owner) && Truncating(v0, o0, i)
        invariant forall j :: 0 <= j < k ==> table[i].addrs[j] == 0
        invariant BitmapLogs(sb, m0, lg0, bitmap, logged)
      {
        ghost var m1, lg1 := bitmap, logged;
        FreeAddr(i, k, v0, o0);
        BitmapLogsTwice(sb, m0, lg0, m1, lg1, bitmap, logged);
        k := k + 1;
      }
    }

    method FreeAddr(i: nat, k: nat, ghost v0: Volume, ghost o0: Owners)
      requires Shaped(sb, Vol()) && Owned(sb, Vol(), owner) && Truncating(v0, o0, i) && i < sb.ninodes && k < NDIRECT
      modifies `bitmap, `table, `owner, `logged
      ensures Shaped(sb, Vol()) && Owned(sb, Vol(), owner) && Truncating(v0, o0, i)
      ensures table[i].addrs == old(table)[i].addrs[k := 0]
      ensures BitmapLogs(sb, old(bitmap), old(logged), bitmap, logged)
    {
      if table[i].addrs[k] != 0 {
        DetachDirect(sb, Vol(), owner, i, k);
        OnlyAddrsStep(v0, Vol(), i, table[i].addrs[k := 0]);
        FreeBlock(table[i].addrs[k]);
        table := table[i := table[i].(addrs := table[i].addrs[k := 0])];
      }
    }

    /** bfree of a block in use: the "freeing free block" panic cannot happen. */
    method FreeBlock(b: nat)
      requires Marked(sb, bitmap, owner) && b in owner && sb.datastart <= b < sb.size
      modifies `bitmap, `owner, `logged
      ensures owner == old(owner) - {b} && Marked(sb, bitmap, owner)
      ensures BitmapLogs(sb, old(bitmap), old(logged), bitmap, logged)
    {
      LogsClear(sb, bitmap, logged, b);
      MarkedLess(sb, bitmap, owner, b);
      var ok := Bfree(b);
      assert ok;
      owner := owner - {b};
    }

    method FreeIndirect(i: nat)
      requires Shaped(sb, Vol()) && Owned(sb, Vol(), owner) && Marked(sb, bitmap, owner) && i < sb.ninodes
      modifies `bitmap, `table, `owner, `logged
      ensures Shaped(sb, Vol()) && Owned(sb, Vol(), owner) && Truncating(old(Vol()), old(owner), i)
      ensures table[i].addrs[..NDIRECT] == old(table)[i].addrs[..NDIRECT]
      ensures forall s :: NDIRECT <= s < NSLOTS ==> Named(sb, Vol(), i, s) == 0
      ensures BitmapLogs(sb, old(bitmap), old(logged), bitmap, logged)
    {
      if table[i].addrs[NDIRECT] != 0 {
        FreeEntries(i);
        ghost var m1, lg1 := bitmap, logged;
        FreeIndirectBlock(i, old(Vol()), old(owner));
        BitmapLogsTwice(sb, old(bitmap), old(logged), m1, lg1, bitmap, logged);
      }
    }

    method FreeEntries(i: nat)
      requires Shaped(sb, Vol()) && Owned(sb, Vol(), owner) && Marked(sb, bitmap, owner) && i < sb.ninodes
      requires table[i].addrs[NDIRECT] != 0
      modifies `bitmap, `owner, `logged
      ensures OwnedFrom(sb, Vol(), owner, i, NINDIRECT) && Truncating(old(Vol()), old(owner), i)
      ensures BitmapLogs(sb, old(bitmap), old(logged), bitmap, logged)
    {
      hide Records, Named, Marked;
      ghost var v0, o0, m0, lg0 := Vol(), owner, bitmap, logged;
      AllOwned(sb, v0, o0, i);
      var x := table[i].addrs[NDIRECT];
      var n := 0;
      while n < NINDIRECT
        invariant 0 <= n <= NINDIRECT && Vol() == v0 && OwnedFrom(sb, Vol(), owner, i, n) && Truncating(v0, o0, i)
        invariant BitmapLogs(sb, m0, lg0, bitmap, logged)
      {
        ghost var m1, lg1 := bitmap, logged;
        FreeOneEntry(i, x, n, v0, o0);
        BitmapLogsTwice(sb, m0, lg0, m1, lg1, bitmap, logged);
        n := n + 1;
      }
    }

    method FreeOneEntry(i: nat, x: nat, n: nat, ghost v0: Volume, ghost o0: Owners)
      requires Shaped(sb, Vol()) && OwnedFrom(sb, Vol(), owner, i, n) && Truncating(v0, o0, i)
      requires i < sb.ninodes && x == table[i].addrs[NDIRECT] != 0 && n < NINDIRECT
      modifies `bitmap, `owner, `logged
      ensures OwnedFrom(sb, Vol(), owner, i, n + 1) && Truncating(v0, o0, i)
      ensures BitmapLogs(sb, old(bitmap), old(logged), bitmap, logged)
    {
      FreeEntry(sb, Vol(), owner, i, n);
      assert Named(sb, Vol(), i, NDIRECT + 1 + n) == Word(blocks[x], n);
      if Word(blocks[x], n) != 0 {
        FreeBlock(Word(blocks[x], n));
      }
    }

    method FreeIndirectBlock(i: nat, ghost v0: Volume, ghost o0: Owners)
      requires Shaped(sb, Vol()) && OwnedFrom(sb, Vol(), owner, i, NINDIRECT) && Truncating(v0, o0, i) && i < sb.ninodes
      requires table[i].addrs[NDIRECT] != 0
      modifies `bitmap, `table, `owner, `logged
      ensures Shaped(sb, Vol()) && Owned(sb, Vol(), owner) && Truncating(v0, o0, i)
      ensures table == old(table)[i := old(table)[i].(addrs := old(table)[i].addrs[NDIRECT := 0])]
      ensures forall s :: NDIRECT <= s < NSLOTS ==> Named(sb, Vol(), i, s) == 0
      ensures BitmapLogs(sb, old(bitmap), old(logged), bitmap, logged)
    {
      hide Owned, OwnedFrom, Marked, Named, OnlyAddrsOf;
      DropIndirect(sb, Vol(), owner, i);
      OnlyAddrsStep(v0, Vol(), i, table[i].addrs[NDIRECT := 0]);
      FreeBlock(table[i].addrs[NDIRECT]);
      table := table[i := table[i].(addrs := table[i].addrs[NDIRECT := 0])];
    }

    /** An inode that is free on disk is free in memory: both change together, when iput
        drops the last reference. */
    ghost predicate FreeAlike()
      reads `table, `dinodes
    {
      |dinodes| == |table| == sb.ninodes && forall j :: 0 <= j < sb.ninodes && dinodes[j].typ == 0 ==> table[j].typ == 0
    }

    /** ialloc: the lowest inode that is free on disk, cleared and typed there and, on the
        next ilock, in memory; 0 when there is none. */
    method Ialloc(typ: nat) returns (r: nat)
      requires Valid() && FreeAlike() && typ != 0
      modifies `table, `dinodes, `logged
      ensures Valid() && FreeAlike()
      ensures r == 0 <==> forall j :: 1 <= j < sb.ninodes ==> old(dinodes)[j].typ != 0
      ensures r == 0 ==> table == old(table) && dinodes == old(dinodes) && logged == old(logged)
      ensures r != 0 ==>
                && r < sb.ninodes && old(dinodes)[r].typ == 0 == old(table)[r].typ
                && (forall j :: 1 <= j < r ==> old(dinodes)[j].typ != 0)
                && table == old(table)[r := Dinode(typ, 0, 0, NoAddrs())]
                && dinodes == old(dinodes)[r := Dinode(typ, 0, 0, NoAddrs())]
                && logged == old(logged) + {sb.Iblock(r)}
    {
      var inum := 1;
      while inum < sb.ninodes
        invariant inum >= 1
        invariant forall j :: 1 <= j < inum && j < sb.ninodes ==> dinodes[j].typ != 0
        invariant table == old(table) && dinodes == old(dinodes) && logged == old(logged)
      {
        if dinodes[inum].typ == 0 {
          ClearedSound(sb, Vol(), owner, inum, typ);
          dinodes := dinodes[inum := Dinode(typ, 0, 0, NoAddrs())];
          table := table[inum := Dinode(typ, 0, 0, NoAddrs())];
          logged := logged + {sb.Iblock(inum)};
          return inum;
        }
        inum := inum + 1;
      }
      r := 0;
    }

    /** iput dropping the last reference of an inode without links: its blocks
        and the inode itself are free again. */
    method IputLast(i: nat)
      requires Valid() && i < sb.ninodes && |dinodes| == sb.ninodes && table[i].nlink == 0
      modifies `bitmap, `table, `dinodes, `owner, `logged
      ensures Valid() && table[i] == Dinode(0, 0, 0, NoAddrs()) && dinodes == old(dinodes)[i := table[i]]
      ensures forall j :: 0 <= j < sb.ninodes && j != i ==> table[j] == old(table)[j]
      ensures forall b :: b in owner <==> b in old(owner) && old(owner)[b].inum != i
      ensures forall b :: b in owner ==> owner[b] == old(owner)[b]
      ensures exists lg :: BitmapLogs(sb, old(bitmap), old(logged), bitmap, lg) && logged == lg + {sb.Iblock(i)}
    {
      Itrunc(i);
      RetypedSound(sb, Vol(), owner, i);
      table := table[i := table[i].(typ := 0)];
      Iupdate(i);
    }
  }
}
