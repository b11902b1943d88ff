/** Files across crashes: what the blocks of the disk say about the file system, and that a
    recovered disk always says what a consistent one would. */
module FsCrash {
  import opened Basics
  import opened Params
  import opened FsVolume
  import opened FsBitmap
  import opened FsGrow
  import opened FsBytes
  import opened FsWrite
  import opened FsCode
  import opened FileWrite
  import LogDisk
  import LogProtocol
  import LogPoint

  // ---- blocks as the log sees them ----

  /** Four bytes to a word, little endian. */
  function Packed(b: Block): LogDisk.Block {
    seq(LogDisk.WORDS, k requires 0 <= k < LogDisk.WORDS => Word(b, k))
  }

  function WordByte(w: nat, k: nat): nat {
    if k == 0 then w % 256 else if k == 1 then w / 0x100 % 256 else if k == 2 then w / 0x1_0000 % 256 else w / 0x100_0000
  }

  lemma WordBytes(b: Block, k: nat, j: nat)
    requires k < NINDIRECT && j < 4
    ensures WordByte(Word(b, k), j) == b[4 * k + j]
  {
    var b0: int, b1: int, b2: int, b3: int := b[4 * k], b[4 * k + 1], b[4 * k + 2], b[4 * k + 3];
    var w := Word(b, k);
    assert w == b0 + 0x100 * (b1 + 0x100 * (b2 + 0x100 * b3));
    assert w / 0x100 == b1 + 0x100 * (b2 + 0x100 * b3);
    assert w / 0x1_0000 == w / 0x100 / 0x100 == b2 + 0x100 * b3;
    assert w / 0x100_0000 == w / 0x1_0000 / 0x100 == b3;
  }

  lemma PackedOnce(a: Block, b: Block)
    requires Packed(a) == Packed(b)
    ensures a == b
  {
    forall p | 0 <= p < BSIZE
      ensures a[p] == b[p]
    {
      assert Packed(a)[p / 4] == Packed(b)[p / 4];
      WordBytes(a, p / 4, p % 4);
      WordBytes(b, p / 4, p % 4);
    }
  }

  function MapBlock(x: seq<bv8>): Block
    requires |x| == BSIZE
  {
    seq(BSIZE, k requires 0 <= k < BSIZE => x[k] as int)
  }

  const DWORDS: nat := 16  // sizeof(struct dinode) / sizeof(uint)

  /** struct dinode as words: type and major, minor and nlink, size, addrs. */
  function DinodeWords(d: Dinode): (w: seq<nat>)
    requires |d.addrs| == NDIRECT + 1
    ensures |w| == DWORDS
  {
    [d.typ % 65536, d.nlink % 65536 * 65536, d.size] + d.addrs
  }

  predicate Shorts(d: Dinode) {
    |d.addrs| == NDIRECT + 1 && d.typ < 65536 && -32768 <= d.nlink <= 32767
  }

  lemma DinodeOnce(d: Dinode, e: Dinode)
    requires Shorts(d) && Shorts(e) && DinodeWords(d) == DinodeWords(e)
    ensures d == e
  {
    var w, x := DinodeWords(d), DinodeWords(e);
    assert w[0] == x[0] && w[1] == x[1] && w[2] == x[2] && w[3..] == x[3..];
    assert w[3..] == d.addrs && x[3..] == e.addrs;
    assert d.nlink % 65536 == e.nlink % 65536;
  }

  // ---- the file system on disk ----

  /** Data blocks, bitmap and inodes, as they are written. */
  datatype Snap = Snap(blocks: seq<Block>, bitmap: Bitmap, dinodes: seq<Dinode>)

  ghost predicate SnapOk(sb: Superblock, s: Snap) {
    && sb.Ok() && |s.blocks| == sb.size && BitmapOk(sb, s.bitmap) && |s.dinodes| == sb.ninodes
    && forall i :: 0 <= i < sb.ninodes ==> |s.dinodes[i].addrs| == NDIRECT + 1
  }

  /** What fsck would ask for: every block in use is named once, marked, and by an inode that
      is in use; no file has holes; nothing else is marked. */
  ghost predicate Consistent(sb: Superblock, s: Snap) {
    exists o: Owners :: Sound(sb, Volume(s.blocks, s.dinodes), o) && Marked(sb, s.bitmap, o)
  }

  /** Contents w of disk block b say what s does. */
  ghost predicate ShowsAt(sb: Superblock, s: Snap, b: nat, w: LogDisk.Block)
    requires SnapOk(sb, s) && b < sb.size
  {
    if b >= sb.datastart then w == Packed(s.blocks[b])
    else if sb.bmapstart <= b then b < sb.bmapstart + |s.bitmap| ==> w == Packed(MapBlock(s.bitmap[b - sb.bmapstart]))
    else forall i :: 0 <= i < sb.ninodes && sb.Iblock(i) == b ==> ShowsInode(s, i, w)
  }

  ghost predicate ShowsInode(s: Snap, i: nat, w: LogDisk.Block)
    requires i < |s.dinodes| && |s.dinodes[i].addrs| == NDIRECT + 1
  {
    var at := i % IPB * DWORDS;
    w[at..at + DWORDS] == DinodeWords(s.dinodes[i])
  }

  ghost predicate Shows(sb: Superblock, s: Snap, d: LogDisk.Disk) {
    && SnapOk(sb, s) && sb.size <= |d|
    && forall b :: sb.inodestart <= b < sb.size ==> ShowsAt(sb, s, b, d[b])
  }

  /** A disk shows one file system only. */
  lemma ShowsOnce(sb: Superblock, s: Snap, t: Snap, d: LogDisk.Disk)
    requires Shows(sb, s, d) && Shows(sb, t, d)
    requires forall i :: 0 <= i < sb.ninodes ==> Shorts(s.dinodes[i]) && Shorts(t.dinodes[i])
    ensures s.dinodes == t.dinodes && s.bitmap == t.bitmap && s.blocks[sb.datastart..] == t.blocks[sb.datastart..]
  {
    forall i | 0 <= i < sb.ninodes
      ensures s.dinodes[i] == t.dinodes[i]
    {
      var b := sb.Iblock(i);
      assert ShowsAt(sb, s, b, d[b]) && ShowsAt(sb, t, b, d[b]);
      assert ShowsInode(s, i, d[b]) && ShowsInode(t, i, d[b]);
      DinodeOnce(s.dinodes[i], t.dinodes[i]);
    }
    forall k | 0 <= k < |s.bitmap|
      ensures s.bitmap[k] == t.bitmap[k]
    {
      var b := sb.bmapstart + k;
      assert ShowsAt(sb, s, b, d[b]) && ShowsAt(sb, t, b, d[b]);
      PackedOnce(MapBlock(s.bitmap[k]), MapBlock(t.bitmap[k]));
      MapOnce(s.bitmap[k], t.bitmap[k]);
    }
    forall b | sb.datastart <= b < sb.size
      ensures s.blocks[b] == t.blocks[b]
    {
      assert ShowsAt(sb, s, b, d[b]) && ShowsAt(sb, t, b, d[b]);
      PackedOnce(s.blocks[b], t.blocks[b]);
    }
  }

  lemma MapOnce(x: seq<bv8>, y: seq<bv8>)
    requires |x| == |y| == BSIZE && MapBlock(x) == MapBlock(y)
    ensures x == y
  {
    forall k | 0 <= k < BSIZE
      ensures x[k] == y[k]
    {
      assert MapBlock(x)[k] == MapBlock(y)[k];
      assert (x[k] as int) as bv8 == (y[k] as int) as bv8;
    }
  }

  // ---- operations ----

  /** Every disk block on which the two differ is in lg. */
  ghost predicate LogsChanges(sb: Superblock, s: Snap, t: Snap, lg: set<nat>) {
    && SnapOk(sb, s) && SnapOk(sb, t)
    && LogsAll(sb, s.blocks, s.bitmap, {}, t.blocks, t.bitmap, lg)
    && forall i :: 0 <= i < sb.ninodes && t.dinodes[i] != s.dinodes[i] ==> sb.Iblock(i) in lg
  }

  lemma ChangesTwice(sb: Superblock, s: Snap, t: Snap, u: Snap, lg: set<nat>, lg': set<nat>)
    requires LogsChanges(sb, s, t, lg) && LogsChanges(sb, t, u, lg')
    ensures LogsChanges(sb, s, u, lg + lg')
  {
    forall x | 0 <= x < |u.blocks| && u.blocks[x] != s.blocks[x]
      ensures x in lg + lg'
    {
      assert t.blocks[x] != s.blocks[x] || u.blocks[x] != t.blocks[x];
    }
    forall k | 0 <= k < |u.bitmap| && u.bitmap[k] != s.bitmap[k]
      ensures sb.bmapstart + k in lg + lg'
    {
      assert t.bitmap[k] != s.bitmap[k] || u.bitmap[k] != t.bitmap[k];
    }
  }

  /** A block that is not logged shows the new file system as it did the old one. */
  lemma UnloggedShows(sb: Superblock, s: Snap, t: Snap, lg: set<nat>, b: nat, w: LogDisk.Block)
    requires LogsChanges(sb, s, t, lg) && sb.inodestart <= b < sb.size && b !in lg && ShowsAt(sb, s, b, w)
    ensures ShowsAt(sb, t, b, w)
  {
    if b >= sb.datastart {
      assert t.blocks[b] == s.blocks[b];
    } else if b >= sb.bmapstart {
      if b < sb.bmapstart + |t.bitmap| {
        var k := b - sb.bmapstart;
        assert sb.bmapstart + k !in lg;
        assert t.bitmap[k] == s.bitmap[k];
      }
    } else {
      forall i | 0 <= i < sb.ninodes && sb.Iblock(i) == b
        ensures ShowsInode(t, i, w)
      {
        assert ShowsInode(s, i, w) && t.dinodes[i] == s.dinodes[i];
      }
    }
  }

  /** The cache e after the operations of a transaction that changes s to t: it differs from d
      on the logged blocks only, and those show t. */
  lemma Carried(sb: Superblock, s: Snap, d: LogDisk.Disk, t: Snap, e: LogDisk.Disk, lg: set<nat>)
    requires Shows(sb, s, d) && LogsChanges(sb, s, t, lg) && |e| == |d|
    requires forall b :: sb.inodestart <= b < sb.size ==> if b in lg then ShowsAt(sb, t, b, e[b]) else e[b] == d[b]
    ensures Shows(sb, t, e)
  {
    forall b | sb.inodestart <= b < sb.size
      ensures ShowsAt(sb, t, b, e[b])
    {
      if b !in lg {
        UnloggedShows(sb, s, t, lg, b, d[b]);
      }
    }
  }

  ghost function SnapOf(fs: FileSystem): Snap
    reads fs
  {
    Snap(fs.blocks, fs.bitmap, fs.dinodes)
  }

  /** One operation of filewrite, from inodes that are all written back: it leaves a consistent
      file system with all inodes written back, and every disk block in which that
      differs from the one before is in the log, exactly if nothing spills. */
  method WriteLogged(f: File, piece: seq<Byte>, good: nat) returns (r: int)
    requires f.Valid() && |piece| <= MAXCHUNK && good <= |piece| && f.fs.dinodes == f.fs.table
    modifies f, f.fs
    ensures f.Valid() && f.fs.dinodes == f.fs.table && Consistent(f.fs.sb, SnapOf(f.fs))
    ensures r == -1 ==> SnapOf(f.fs) == old(SnapOf(f.fs))
    ensures r != -1 ==>
              && Shaped(f.fs.sb, old(f.fs.Vol())) && old(f.off) + |piece| <= MAXBYTES
              && (LogsChanges(f.fs.sb, old(SnapOf(f.fs)), SnapOf(f.fs), f.fs.logged)
                  <==> !Spills(f.fs.sb, old(f.fs.Vol()), old(f.fs.owner), {}, f.ip, old(f.off), piece, good))
  {
    hide Spills, Reached, Upto, StoredPart, LogsAll, Sound, Marked, Consistent, ChunkLimit;
    ghost var sb, v, stored := f.fs.sb, f.fs.Vol(), 0;
    ConsistentOf(sb, SnapOf(f.fs), f.fs.owner);
    r, stored := f.WriteOp(piece, good);
    if r != -1 {
      StoredTable(sb, v, f.fs.Vol(), f.ip, old(f.off), piece[..stored], r);
    }
    ConsistentOf(sb, SnapOf(f.fs), f.fs.owner);
  }

  lemma ConsistentOf(sb: Superblock, s: Snap, o: Owners)
    requires Sound(sb, Volume(s.blocks, s.dinodes), o) && Marked(sb, s.bitmap, o)
    ensures Consistent(sb, s) && SnapOk(sb, s)
  {
  }

  lemma StoredTable(sb: Superblock, v: Volume, w: Volume, i: nat, off: nat, a: seq<Byte>, n: nat)
    requires StoredPart(sb, v, w, i, off, a, n)
    ensures i < |v.table| == |w.table| && w.table == v.table[i := w.table[i]]
  {
    hide Content;
  }

  // ---- crashes ----

  /** The file system lies outside the log. */
  predicate Laid(sb: Superblock, l: LogDisk.Layout) {
    sb.Ok() && l.Ok() && l.start + l.size <= sb.inodestart && sb.size <= l.nblocks
  }

  /** The operations of one transaction take file system s to t, logging the blocks lh, which
      then show t in the cache. */
  ghost predicate Transacts(sb: Superblock, s: Snap, t: Snap, mem: LogDisk.Disk, lh: seq<nat>) {
    && LogsChanges(sb, s, t, set b | b in lh) && (Consistent(sb, s) ==> Consistent(sb, t))
    && forall b :: b in lh && sb.inodestart <= b < sb.size && b < |mem| ==> ShowsAt(sb, t, b, mem[b])
  }

  /** A run of the log over a file system: snaps[e] is the file system at each point e at
      which no operation is outstanding. */
  ghost predicate FileRun(sb: Superblock, c: LogProtocol.Config, run: seq<LogProtocol.Sys>, snaps: seq<Snap>) {
    && Laid(sb, c.layout) && LogProtocol.IsRun(c, run) && |snaps| == |run|
    && Shows(sb, snaps[0], c.image) && Consistent(sb, snaps[0])
    && forall q: nat, e: nat :: LogPoint.Follows(c, run, q, e) ==> Transacts(sb, snaps[q], snaps[e], run[e].mem, run[e].lh)
  }

  lemma {:induction false} PointShows(sb: Superblock, c: LogProtocol.Config, run: seq<LogProtocol.Sys>, snaps: seq<Snap>,
                                      e: nat)
    requires FileRun(sb, c, run, snaps) && LogPoint.Ends(run, e)
    ensures Shows(sb, snaps[e], run[e].mem) && Consistent(sb, snaps[e])
    decreases e
  {
    hide Shows, Consistent, LogProtocol.Next;
    if e > 0 {
      var q := LogPoint.PreviousPoint(c, run, e);
      PointShows(sb, c, run, snaps, q);
      Carried(sb, snaps[q], run[q].mem, snaps[e], run[e].mem, set b | b in run[e].lh);
    }
  }

  lemma ShowsHome(sb: Superblock, c: LogProtocol.Config, s: Snap, d: LogDisk.Disk, e: LogDisk.Disk)
    requires Laid(sb, c.layout) && Shows(sb, s, d) && |d| == |e| == c.layout.nblocks && LogProtocol.HomeIs(c, e, d)
    ensures Shows(sb, s, e)
  {
  }

  /** FILES SURVIVE. Stop any run at any moment and let recovery complete: the disk then shows a
      consistent file system, the one of the last point whose operations are committed,
      and they are exactly the operations that had ended by then. */
  lemma FilesSurvive(sb: Superblock, c: LogProtocol.Config, run: seq<LogProtocol.Sys>, snaps: seq<Snap>, i: nat)
      returns (q: nat)
    requires FileRun(sb, c, run, snaps) && i < |run|
    ensures q <= i && LogPoint.Ends(run, q) && run[q].committed + run[q].finished == run[i].committed
    ensures LogDisk.DiskOk(c.layout, run[i].disk)
    ensures Shows(sb, snaps[q], LogDisk.Apply(run[i].disk, LogDisk.RecoverWrites(c.layout, run[i].disk)))
    ensures Consistent(sb, snaps[q])
  {
    hide Shows, Consistent, LogProtocol.Next, LogProtocol.HomeIs, LogPoint.Ends;
    q := LogPoint.RecoversTo(c, run, i);
    PointShows(sb, c, run, snaps, q);
    ShowsHome(sb, c, snaps[q], run[q].mem, LogDisk.Apply(run[i].disk, LogDisk.RecoverWrites(c.layout, run[i].disk)));
  }
}
