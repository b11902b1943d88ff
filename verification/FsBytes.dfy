/** Files as byte sequences: what allocating a block, rewriting a data block and
    changing the size do to the bytes of every file. */
module FsBytes {
  import opened Basics
  import opened Params
  import opened FsVolume
  import opened FsGrow

  const MAXBYTES: nat := MAXFILE * BSIZE

  ghost predicate SameBytes(sb: Superblock, v: Volume, w: Volume, i: nat)
    requires Shaped(sb, v) && Shaped(sb, w) && i < sb.ninodes
  {
    forall p :: 0 <= p < MAXBYTES ==> ByteAt(sb, w, i, p) == ByteAt(sb, v, i, p)
  }

  /** Allocation is invisible: a new block reads as the zeros that were there. */
  lemma ExtendsBytes(sb: Superblock, v: Volume, o: Owners, w: Volume, q: Owners, i: nat, j: nat)
    requires Sound(sb, v, o) && Shaped(sb, w) && Extends(sb, v, o, w, q, i) && j < sb.ninodes
    ensures SameBytes(sb, v, w, j)
  {
    forall p | 0 <= p < MAXBYTES
      ensures ByteAt(sb, w, j, p) == ByteAt(sb, v, j, p)
    {
      var s := SlotOf(p / BSIZE);
      if Named(sb, v, j, s) != 0 {
        NamedInRange(sb, v, o, j, s);
      } else {
        assert ZeroIfNamed(sb, w, j, s);
      }
    }
  }

  /** Rewriting file block bn of inode i. */
  lemma RewriteBytes(sb: Superblock, v: Volume, o: Owners, i: nat, bn: nat, c: Block)
    requires Sound(sb, v, o) && i < sb.ninodes && bn < MAXFILE && Named(sb, v, i, SlotOf(bn)) != 0
    ensures var a := Named(sb, v, i, SlotOf(bn));
            a < sb.size &&
            var w := v.(blocks := v.blocks[a := c]);
            && Sound(sb, w, o) && SameNames(sb, v, w)
            && (forall j :: 0 <= j < sb.ninodes && j != i ==> SameBytes(sb, v, w, j))
            && (forall p :: 0 <= p < MAXBYTES ==>
                  ByteAt(sb, w, i, p) == if p / BSIZE == bn then c[p % BSIZE] else ByteAt(sb, v, i, p))
  {
    var a := Named(sb, v, i, SlotOf(bn));
    NamedInRange(sb, v, o, i, SlotOf(bn));
    var w := v.(blocks := v.blocks[a := c]);
    DataNotIndirect(sb, v, o, a);
    RewriteKeepsNames(sb, v, a, c);
    SameNamesSound(sb, v, w, o);
    forall j, p | 0 <= j < sb.ninodes && 0 <= p < MAXBYTES
      ensures ByteAt(sb, w, j, p) == if j == i && p / BSIZE == bn then c[p % BSIZE] else ByteAt(sb, v, j, p)
    {
      RewriteByte(sb, v, o, i, bn, c, j, p);
    }
  }

  lemma RewriteByte(sb: Superblock, v: Volume, o: Owners, i: nat, bn: nat, c: Block, j: nat, p: nat)
    requires Shaped(sb, v) && Owned(sb, v, o) && i < sb.ninodes && bn < MAXFILE
    requires 0 < Named(sb, v, i, SlotOf(bn)) < sb.size
    requires j < sb.ninodes && p < MAXBYTES
    requires var w := v.(blocks := v.blocks[Named(sb, v, i, SlotOf(bn)) := c]);
             Shaped(sb, w) && SameNames(sb, v, w)
    ensures var w := v.(blocks := v.blocks[Named(sb, v, i, SlotOf(bn)) := c]);
            ByteAt(sb, w, j, p) == if j == i && p / BSIZE == bn then c[p % BSIZE] else ByteAt(sb, v, j, p)
  {
    var t := SlotOf(p / BSIZE);
    if Named(sb, v, j, t) == Named(sb, v, i, SlotOf(bn)) {
      NotNamedTwice(sb, v, o, i, SlotOf(bn), j, t);
    }
  }

  /** v is v0 with `data` stored at offset off of file i. */
  ghost predicate Wrote(sb: Superblock, v0: Volume, v: Volume, i: nat, off: nat, data: seq<Byte>)
    requires Shaped(sb, v0) && Shaped(sb, v) && i < sb.ninodes
  {
    forall p :: 0 <= p < MAXBYTES ==>
      ByteAt(sb, v, i, p) == if off <= p < off + |data| then data[p - off] else ByteAt(sb, v0, i, p)
  }

  /** Part of a block replaced (memmove into the buffer). */
  function Overlay(b: Block, at: nat, piece: seq<Byte>): (r: Block)
    requires at + |piece| <= BSIZE
  {
    b[..at] + piece + b[at + |piece|..]
  }

  /** One iteration of writei's loop: block c takes the place of the block that
      holds offset pos, and differs from it only by the piece stored at pos. */
  lemma WroteMore(sb: Superblock, v0: Volume, v: Volume, w: Volume, i: nat, off: nat, data: seq<Byte>, piece: seq<Byte>,
                  pos: nat, c: Block)
    requires Shaped(sb, v0) && Shaped(sb, v) && Shaped(sb, w) && i < sb.ninodes
    requires Wrote(sb, v0, v, i, off, data)
    requires pos == off + |data| < MAXBYTES && pos % BSIZE + |piece| <= BSIZE
    requires Pieced(sb, v, i, pos, piece, c)
    requires forall p :: 0 <= p < MAXBYTES ==>
               ByteAt(sb, w, i, p) == if p / BSIZE == pos / BSIZE then c[p % BSIZE] else ByteAt(sb, v, i, p)
    ensures Wrote(sb, v0, w, i, off, data + piece)
  {
    hide ByteAt, Shaped, Pieced;
    forall p | 0 <= p < MAXBYTES
      ensures ByteAt(sb, w, i, p) ==
              if off <= p < off + |data + piece| then (data + piece)[p - off] else ByteAt(sb, v0, i, p)
    {
      if p / BSIZE == pos / BSIZE {
        PiecedAt(sb, v, i, pos, piece, c, p);
      } else {
        OtherBlock(p, pos, |piece|);
      }
    }
  }

  lemma PiecedAt(sb: Superblock, v: Volume, i: nat, pos: nat, piece: seq<Byte>, c: Block, p: nat)
    requires Shaped(sb, v) && i < sb.ninodes && pos < MAXBYTES && pos % BSIZE + |piece| <= BSIZE
    requires Pieced(sb, v, i, pos, piece, c) && p < MAXBYTES && p / BSIZE == pos / BSIZE
    ensures c[p % BSIZE] == if pos <= p < pos + |piece| then piece[p - pos] else ByteAt(sb, v, i, p)
  {
    hide ByteAt, Shaped;
    SameBlock(p, pos, |piece|);
    var k := p % BSIZE;
    assert pos / BSIZE * BSIZE + k == p;
  }

  lemma OtherBlock(p: nat, pos: nat, m: nat)
    requires pos % BSIZE + m <= BSIZE && p / BSIZE != pos / BSIZE
    ensures !(pos <= p < pos + m)
  {
    SameBlock(p, pos, m);
  }

  /** Offsets in one block, seen from the start of the block. */
  lemma SameBlock(p: nat, pos: nat, m: nat)
    requires pos % BSIZE + m <= BSIZE
    ensures p / BSIZE == pos / BSIZE ==> p == pos / BSIZE * BSIZE + p % BSIZE && p - pos == p % BSIZE - pos % BSIZE
    ensures pos <= p < pos + m ==> p / BSIZE == pos / BSIZE
  {
    assert p == p / BSIZE * BSIZE + p % BSIZE && pos == pos / BSIZE * BSIZE + pos % BSIZE;
  }

  /** c is the block holding offset pos of file i, with piece stored at pos. */
  ghost predicate Pieced(sb: Superblock, v: Volume, i: nat, pos: nat, piece: seq<Byte>, c: Block)
    requires Shaped(sb, v) && i < sb.ninodes && pos < MAXBYTES && pos % BSIZE + |piece| <= BSIZE
  {
    forall k :: 0 <= k < BSIZE ==>
      c[k] == if pos % BSIZE <= k < pos % BSIZE + |piece| then piece[k - pos % BSIZE]
              else ByteAt(sb, v, i, pos / BSIZE * BSIZE + k)
  }

  // ---- contents ----

  function Splice(c: seq<Byte>, off: nat, d: seq<Byte>): (r: seq<Byte>)
    requires off <= |c|
  {
    c[..off] + d + if off + |d| < |c| then c[off + |d|..] else []
  }

  lemma SameContent(sb: Superblock, v: Volume, w: Volume, i: nat)
    requires Shaped(sb, v) && Shaped(sb, w) && i < sb.ninodes && SameBytes(sb, v, w, i)
    requires v.table[i].size == w.table[i].size <= MAXBYTES
    ensures Content(sb, w, i) == Content(sb, v, i)
  {
  }

  /** Only the size field of inode i differs. */
  lemma ResizeKeeps(sb: Superblock, v: Volume, o: Owners, i: nat, size: nat)
    requires Sound(sb, v, o) && i < sb.ninodes && NoHoles(sb, v, i, size)
    ensures var w := v.(table := v.table[i := v.table[i].(size := size)]);
            && Sound(sb, w, o) && SameNames(sb, v, w)
            && forall j :: 0 <= j < sb.ninodes ==> SameBytes(sb, v, w, j)
  {
    var w := v.(table := v.table[i := v.table[i].(size := size)]);
    assert Shaped(sb, w) && SameNames(sb, v, w);
    SameNamesOwned(sb, v, w, o);
    forall j | 0 <= j < sb.ninodes
      ensures NoHoles(sb, w, j, w.table[j].size)
    {
      assert NoHoles(sb, v, j, v.table[j].size);
    }
  }

  function Min(a: nat, b: nat): nat {
    if a < b then a else b
  }

  /** Part of one block is part of the file. */
  lemma SliceOfFile(sb: Superblock, v: Volume, i: nat, pos: nat, m: nat)
    requires Shaped(sb, v) && i < sb.ninodes && v.table[i].size <= MAXBYTES
    requires pos % BSIZE + m <= BSIZE && pos + m <= v.table[i].size && pos < MAXBYTES
    requires 0 < Named(sb, v, i, SlotOf(pos / BSIZE)) < sb.size
    ensures v.blocks[Named(sb, v, i, SlotOf(pos / BSIZE))][pos % BSIZE..pos % BSIZE + m] ==
            Content(sb, v, i)[pos..pos + m]
  {
    var x := v.blocks[Named(sb, v, i, SlotOf(pos / BSIZE))][pos % BSIZE..pos % BSIZE + m];
    var y := Content(sb, v, i)[pos..pos + m];
    forall k | 0 <= k < m
      ensures x[k] == y[k]
    {
      assert pos + k == pos / BSIZE * BSIZE + (pos % BSIZE + k);
      assert (pos + k) / BSIZE == pos / BSIZE && (pos + k) % BSIZE == pos % BSIZE + k;
    }
  }
}
