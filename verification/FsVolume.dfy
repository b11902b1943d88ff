/** The file system's on-disk state above the log (kernel/fs.h): block contents,
    the inode table, which slots of which inodes name which blocks, and the
    bytes of each file. */
module FsVolume {
  import opened Basics
  import opened Params

  const NDIRECT: nat := 12
  const NINDIRECT: nat := BSIZE / 4
  const MAXFILE: nat := NDIRECT + NINDIRECT
  const BPB: nat := BSIZE * 8
  const IPB: nat := 16          // BSIZE / sizeof(struct dinode)
  const NSLOTS: nat := NDIRECT + 1 + NINDIRECT

  type Block = b: seq<Byte> | |b| == BSIZE witness seq(BSIZE, _ => 0)

  function ZeroBlock(): Block { seq(BSIZE, _ => 0) }

  datatype Superblock = Superblock(size: nat, ninodes: nat, inodestart: nat, bmapstart: nat, datastart: nat) {
    predicate Ok() {
      && 0 < datastart <= size < UINT_LIMIT
      && inodestart + ninodes / IPB < bmapstart
      && bmapstart + size / BPB < datastart
    }
    function Bblock(b: nat): nat { b / BPB + bmapstart }
    function Iblock(i: nat): nat { i / IPB + inodestart }
  }

  /** struct dinode; typ 0 is a free inode. */
  datatype Dinode = Dinode(typ: nat, nlink: int, size: nat, addrs: seq<nat>)

  // ---- block numbers stored in an indirect block, little endian ----

  function Word(b: Block, i: nat): (w: nat)
    requires i < NINDIRECT
  {
    var b0: int, b1: int, b2: int, b3: int := b[4 * i], b[4 * i + 1], b[4 * i + 2], b[4 * i + 3];
    b0 + 0x100 * b1 + 0x1_0000 * b2 + 0x100_0000 * b3
  }

  function SetWord(b: Block, i: nat, w: nat): (r: Block)
    requires i < NINDIRECT
  {
    b[4 * i := w % 256][4 * i + 1 := w / 0x100 % 256][4 * i + 2 := w / 0x1_0000 % 256][4 * i + 3 := w / 0x100_0000 % 256]
  }

  lemma WordSet(b: Block, i: nat, w: nat, j: nat)
    requires i < NINDIRECT && j < NINDIRECT && w < UINT_LIMIT
    ensures Word(SetWord(b, i, w), j) == if j == i then w else Word(b, j)
  {
    if j == i {
      var w1, w2, w3 := w / 0x100, w / 0x1_0000, w / 0x100_0000;
      assert w2 == w1 / 0x100 && w3 == w2 / 0x100 && w3 < 256;
    }
  }

  lemma WordZero(j: nat)
    requires j < NINDIRECT
    ensures Word(ZeroBlock(), j) == 0
  {
  }

  // ---- slots ----

  /** A place that can name a block: slots 0..11 of an inode are its direct
      addresses, slot 12 its indirect block, slots 13.. the entries of that
      block. */
  datatype Slot = Slot(inum: nat, idx: nat)

  datatype Volume = Volume(blocks: seq<Block>, table: seq<Dinode>)

  ghost predicate Shaped(sb: Superblock, v: Volume) {
    && sb.Ok()
    && |v.blocks| == sb.size
    && |v.table| == sb.ninodes
    && forall i :: 0 <= i < |v.table| ==> |v.table[i].addrs| == NDIRECT + 1 && v.table[i].addrs[NDIRECT] < sb.size
  }

  /** The block number in a slot, 0 when the slot is empty. */
  ghost function Named(sb: Superblock, v: Volume, i: nat, s: nat): (b: nat)
    requires Shaped(sb, v) && i < sb.ninodes && s < NSLOTS
  {
    var d := v.table[i];
    if s <= NDIRECT then d.addrs[s]
    else if d.addrs[NDIRECT] == 0 then 0
    else Word(v.blocks[d.addrs[NDIRECT]], s - NDIRECT - 1)
  }

  /** The slot of a file's bn-th block. */
  function SlotOf(bn: nat): (s: nat)
    requires bn < MAXFILE
    ensures s < NSLOTS && s != NDIRECT
  {
    if bn < NDIRECT then bn else bn + 1
  }

  // ---- ownership ----

  type Owners = map<nat, Slot>

  /** `o` says for each block in use which slot names it: every non-empty slot is
      recorded, so no block is named twice, and every record is real. */
  ghost predicate Owned(sb: Superblock, v: Volume, o: Owners)
    requires Shaped(sb, v)
  {
    && (forall i, s :: 0 <= i < sb.ninodes && 0 <= s < NSLOTS && Named(sb, v, i, s) != 0 ==>
          Named(sb, v, i, s) in o && o[Named(sb, v, i, s)] == Slot(i, s))
    && (forall b :: b in o ==> Records(sb, v, o, b))
  }

  ghost predicate Records(sb: Superblock, v: Volume, o: Owners, b: nat)
    requires Shaped(sb, v) && b in o
  {
    && sb.datastart <= b < sb.size
    && o[b].inum < sb.ninodes && o[b].idx < NSLOTS
    && Named(sb, v, o[b].inum, o[b].idx) == b
  }

  lemma NotNamedTwice(sb: Superblock, v: Volume, o: Owners, i: nat, s: nat, j: nat, t: nat)
    requires Shaped(sb, v) && Owned(sb, v, o)
    requires i < sb.ninodes && j < sb.ninodes && s < NSLOTS && t < NSLOTS
    requires Named(sb, v, i, s) == Named(sb, v, j, t) != 0
    ensures i == j && s == t
  {
    assert o[Named(sb, v, i, s)] == Slot(i, s);
  }

  // ---- file contents ----

  ghost predicate NoHoles(sb: Superblock, v: Volume, i: nat, size: nat)
    requires Shaped(sb, v) && i < sb.ninodes
  {
    size <= MAXFILE * BSIZE
    && forall bn :: 0 <= bn < MAXFILE && bn * BSIZE < size ==> Named(sb, v, i, SlotOf(bn)) != 0
  }

  /** The byte at offset p of a file, zero where there is no block. */
  ghost function ByteAt(sb: Superblock, v: Volume, i: nat, p: nat): (c: Byte)
    requires Shaped(sb, v) && i < sb.ninodes && p < MAXFILE * BSIZE
  {
    var b := Named(sb, v, i, SlotOf(p / BSIZE));
    if 0 < b < sb.size then v.blocks[b][p % BSIZE] else 0
  }

  ghost predicate Sound(sb: Superblock, v: Volume, o: Owners) {
    && Shaped(sb, v)
    && Owned(sb, v, o)
    && (forall i :: 0 <= i < sb.ninodes ==> NoHoles(sb, v, i, v.table[i].size))
    && (forall i, s :: 0 <= i < sb.ninodes && 0 <= s < NSLOTS && v.table[i].typ == 0 ==> Named(sb, v, i, s) == 0)
  }

  lemma SoundShaped(sb: Superblock, v: Volume, o: Owners)
    requires Sound(sb, v, o)
    ensures Shaped(sb, v) && Owned(sb, v, o)
  {
  }

  lemma SoundTable(sb: Superblock, v: Volume, o: Owners)
    requires Sound(sb, v, o)
    ensures Shaped(sb, v) && |v.table| == sb.ninodes
  {
  }

  lemma NamedInRange(sb: Superblock, v: Volume, o: Owners, i: nat, s: nat)
    requires Shaped(sb, v) && Owned(sb, v, o) && i < sb.ninodes && s < NSLOTS
    requires Named(sb, v, i, s) != 0
    ensures sb.datastart <= Named(sb, v, i, s) < sb.size
  {
    assert Records(sb, v, o, Named(sb, v, i, s));
  }

  /** The file as a byte sequence. */
  ghost function Content(sb: Superblock, v: Volume, i: nat): (c: seq<Byte>)
    requires Shaped(sb, v) && i < sb.ninodes && v.table[i].size <= MAXFILE * BSIZE
    ensures |c| == v.table[i].size
  {
    seq(v.table[i].size, p requires 0 <= p < v.table[i].size => ByteAt(sb, v, i, p))
  }

  // ---- elementary updates ----

  /** The two volumes name the same blocks, but for slot s0 of inode i0. */
  ghost predicate SameNamesBut(sb: Superblock, v: Volume, w: Volume, i0: nat, s0: nat)
    requires Shaped(sb, v) && Shaped(sb, w)
  {
    forall i, s :: 0 <= i < sb.ninodes && 0 <= s < NSLOTS && (i != i0 || s != s0) ==>
      Named(sb, w, i, s) == Named(sb, v, i, s)
  }

  ghost predicate SameNames(sb: Superblock, v: Volume, w: Volume)
    requires Shaped(sb, v) && Shaped(sb, w)
  {
    forall i, s :: 0 <= i < sb.ninodes && 0 <= s < NSLOTS ==> Named(sb, w, i, s) == Named(sb, v, i, s)
  }

  /** No inode uses b as its indirect block. */
  ghost predicate NotIndirect(v: Volume, b: nat) {
    forall i :: 0 <= i < |v.table| && |v.table[i].addrs| > NDIRECT ==> v.table[i].addrs[NDIRECT] != b
  }

  lemma RewriteKeepsNames(sb: Superblock, v: Volume, b: nat, c: Block)
    requires Shaped(sb, v) && b < sb.size && (b == 0 || NotIndirect(v, b))
    ensures Shaped(sb, v.(blocks := v.blocks[b := c]))
    ensures SameNames(sb, v, v.(blocks := v.blocks[b := c]))
  {
  }

  /** A block holding file data, or no block in use, is nobody's indirect block. */
  lemma DataNotIndirect(sb: Superblock, v: Volume, o: Owners, b: nat)
    requires Shaped(sb, v) && Owned(sb, v, o) && b != 0
    requires b in o ==> o[b].idx != NDIRECT
    ensures NotIndirect(v, b)
  {
    forall i | 0 <= i < |v.table|
      ensures v.table[i].addrs[NDIRECT] != b
    {
      assert Named(sb, v, i, NDIRECT) == v.table[i].addrs[NDIRECT];
    }
  }

  lemma SameNamesOwned(sb: Superblock, v: Volume, w: Volume, o: Owners)
    requires Shaped(sb, v) && Shaped(sb, w) && SameNames(sb, v, w) && Owned(sb, v, o)
    ensures Owned(sb, w, o)
  {
    forall b | b in o
      ensures Records(sb, w, o, b)
    {
      assert Records(sb, v, o, b);
    }
  }

  /** Naming an unused block in an empty slot. */
  lemma AttachOwned(sb: Superblock, v: Volume, w: Volume, o: Owners, i: nat, s: nat, b: nat)
    requires Shaped(sb, v) && Shaped(sb, w) && Owned(sb, v, o)
    requires i < sb.ninodes && s < NSLOTS && SameNamesBut(sb, v, w, i, s)
    requires Named(sb, v, i, s) == 0 && Named(sb, w, i, s) == b
    requires b !in o && sb.datastart <= b < sb.size
    ensures Owned(sb, w, o[b := Slot(i, s)])
  {
    var q := o[b := Slot(i, s)];
    forall c | c in q
      ensures Records(sb, w, q, c)
    {
      if c != b {
        assert Records(sb, v, o, c);
      }
    }
    forall j, t | 0 <= j < sb.ninodes && 0 <= t < NSLOTS && Named(sb, w, j, t) != 0
      ensures Named(sb, w, j, t) in q && q[Named(sb, w, j, t)] == Slot(j, t)
    {
      if j != i || t != s {
        assert Named(sb, w, j, t) == Named(sb, v, j, t);
      }
    }
  }

  /** Storing a zeroed block's number in addrs[s], s <= NDIRECT. */
  lemma SetAddrNames(sb: Superblock, v: Volume, i: nat, s: nat, b: nat)
    requires Shaped(sb, v) && i < sb.ninodes && s <= NDIRECT && b < sb.size
    requires v.table[i].addrs[s] == 0 && v.blocks[b] == ZeroBlock()
    ensures var w := v.(table := v.table[i := v.table[i].(addrs := v.table[i].addrs[s := b])]);
            Shaped(sb, w) && SameNamesBut(sb, v, w, i, s) && Named(sb, w, i, s) == b
  {
    var w := v.(table := v.table[i := v.table[i].(addrs := v.table[i].addrs[s := b])]);
    forall j, t | 0 <= j < sb.ninodes && 0 <= t < NSLOTS && (j != i || t != s)
      ensures Named(sb, w, j, t) == Named(sb, v, j, t)
    {
      if s == NDIRECT && t > NDIRECT {
        WordZero(t - NDIRECT - 1);
      }
    }
  }

  /** Storing a block number in an entry of inode i's indirect block. */
  lemma SetEntryNames(sb: Superblock, v: Volume, o: Owners, i: nat, k: nat, b: nat)
    requires Shaped(sb, v) && Owned(sb, v, o) && i < sb.ninodes && k < NINDIRECT && b < sb.size
    requires v.table[i].addrs[NDIRECT] != 0
    ensures var x := v.table[i].addrs[NDIRECT];
            var w := v.(blocks := v.blocks[x := SetWord(v.blocks[x], k, b)]);
            Shaped(sb, w) && SameNamesBut(sb, v, w, i, NDIRECT + 1 + k) && Named(sb, w, i, NDIRECT + 1 + k) == b
  {
    var x := v.table[i].addrs[NDIRECT];
    var w := v.(blocks := v.blocks[x := SetWord(v.blocks[x], k, b)]);
    WordSet(v.blocks[x], k, b, k);
    forall j, t | 0 <= j < sb.ninodes && 0 <= t < NSLOTS && (j != i || t != NDIRECT + 1 + k)
      ensures Named(sb, w, j, t) == Named(sb, v, j, t)
    {
      if t > NDIRECT {
        if j == i {
          WordSet(v.blocks[x], k, b, t - NDIRECT - 1);
        } else {
          assert Named(sb, v, i, NDIRECT) == x && Named(sb, v, j, NDIRECT) == v.table[j].addrs[NDIRECT];
        }
      }
    }
  }
}
