/** The free-block bitmap (kernel/fs.c, balloc and bfree): one bit per disk
    block, eight to a byte, BPB to a bitmap block. */
module FsBitmap {
  import opened Params
  import opened FsVolume

  type Bitmap = seq<seq<bv8>>

  ghost predicate BitmapOk(sb: Superblock, bm: Bitmap) {
    && |bm| == sb.size / BPB + 1
    && forall k :: 0 <= k < |bm| ==> |bm[k]| == BSIZE
  }

  function Mask(k: nat): bv8
    requires k < 8
  {
    (1 as bv8) << k
  }

  lemma MaskTable(k: nat)
    requires k < 8
    ensures Mask(k) == if k == 0 then 1 else if k == 1 then 2 else if k == 2 then 4 else if k == 3 then 8
                       else if k == 4 then 16 else if k == 5 then 32 else if k == 6 then 64 else 128
  {
  }

  predicate Has(x: bv8, k: nat)
    requires k < 8
  {
    (x & Mask(k)) != 0
  }

  function With(x: bv8, k: nat): bv8
    requires k < 8
  {
    x | Mask(k)
  }

  function Less(x: bv8, k: nat): bv8
    requires k < 8
  {
    x & !Mask(k)
  }

  lemma MasksApart(i: nat, j: nat)
    requires i < 8 && j < 8
    ensures Mask(i) != 0 && (i != j ==> Mask(i) & Mask(j) == 0)
  {
    MaskTable(i);
    MaskTable(j);
  }

  lemma OtherBits(x: bv8, m: bv8, k: bv8)
    requires m & k == 0
    ensures (x | m) & k == x & k && (x & !m) & k == x & k
  {
  }

  lemma OwnBit(x: bv8, m: bv8)
    ensures (x | m) & m == m && (x & !m) & m == 0
  {
  }

  lemma ByteBits(x: bv8, i: nat, j: nat)
    requires i < 8 && j < 8
    ensures Has(With(x, i), j) <==> i == j || Has(x, j)
    ensures Has(Less(x, i), j) <==> i != j && Has(x, j)
  {
    hide Mask;
    MasksApart(i, j);
    if i == j {
      OwnBit(x, Mask(i));
    } else {
      OtherBits(x, Mask(i), Mask(j));
    }
  }

  predicate Bit(sb: Superblock, bm: Bitmap, b: nat)
    requires BitmapOk(sb, bm) && b < sb.size
  {
    Has(bm[b / BPB][b % BPB / 8], b % BPB % 8)
  }

  function SetByte(bm: Bitmap, b: nat, c: bv8): (r: Bitmap)
    requires b / BPB < |bm| && |bm[b / BPB]| == BSIZE
  {
    bm[b / BPB := bm[b / BPB][b % BPB / 8 := c]]
  }

  predicate SameByte(b: nat, c: nat) {
    b / BPB == c / BPB && b % BPB / 8 == c % BPB / 8
  }

  lemma SetByteBit(sb: Superblock, bm: Bitmap, b: nat, y: bv8, c: nat)
    requires BitmapOk(sb, bm) && b < sb.size && c < sb.size
    ensures BitmapOk(sb, SetByte(bm, b, y))
    ensures Bit(sb, SetByte(bm, b, y), c) <==>
            if SameByte(b, c) then Has(y, c % BPB % 8) else Bit(sb, bm, c)
  {
  }

  lemma SameBit(b: nat, c: nat)
    requires SameByte(b, c) && b % BPB % 8 == c % BPB % 8
    ensures b == c
  {
    assert b % BPB == c % BPB;
  }

  function Mark(sb: Superblock, bm: Bitmap, b: nat): Bitmap
    requires BitmapOk(sb, bm) && b < sb.size
  {
    SetByte(bm, b, With(bm[b / BPB][b % BPB / 8], b % BPB % 8))
  }

  function Clear(sb: Superblock, bm: Bitmap, b: nat): Bitmap
    requires BitmapOk(sb, bm) && b < sb.size
  {
    SetByte(bm, b, Less(bm[b / BPB][b % BPB / 8], b % BPB % 8))
  }

  /** Marking a block leaves every other block's bit alone. */
  lemma MarkBit(sb: Superblock, bm: Bitmap, b: nat, c: nat)
    requires BitmapOk(sb, bm) && b < sb.size && c < sb.size
    ensures BitmapOk(sb, Mark(sb, bm, b))
    ensures Bit(sb, Mark(sb, bm, b), c) <==> c == b || Bit(sb, bm, c)
  {
    var x := bm[b / BPB][b % BPB / 8];
    SetByteBit(sb, bm, b, With(x, b % BPB % 8), c);
    if SameByte(b, c) {
      ByteBits(x, b % BPB % 8, c % BPB % 8);
      if b % BPB % 8 == c % BPB % 8 {
        SameBit(b, c);
      }
    }
  }

  /** Clearing a block leaves every other block's bit alone. */
  lemma ClearBit(sb: Superblock, bm: Bitmap, b: nat, c: nat)
    requires BitmapOk(sb, bm) && b < sb.size && c < sb.size
    ensures BitmapOk(sb, Clear(sb, bm, b))
    ensures Bit(sb, Clear(sb, bm, b), c) <==> c != b && Bit(sb, bm, c)
  {
    var x := bm[b / BPB][b % BPB / 8];
    SetByteBit(sb, bm, b, Less(x, b % BPB % 8), c);
    if SameByte(b, c) {
      ByteBits(x, b % BPB % 8, c % BPB % 8);
      if b % BPB % 8 == c % BPB % 8 {
        SameBit(b, c);
      }
    }
  }

  function NoBits(sb: Superblock): Bitmap {
    seq(sb.size / BPB + 1, _ => seq(BSIZE, _ => 0))
  }

  lemma NoBitSet(sb: Superblock, c: nat)
    requires c < sb.size
    ensures BitmapOk(sb, NoBits(sb)) && !Bit(sb, NoBits(sb), c)
  {
  }

  lemma MarkNext(sb: Superblock, bm: Bitmap, b: nat)
    requires BitmapOk(sb, bm) && b < sb.size
    requires forall c :: 0 <= c < sb.size ==> (Bit(sb, bm, c) <==> c < b)
    ensures BitmapOk(sb, Mark(sb, bm, b)) && forall c :: 0 <= c < sb.size ==> (Bit(sb, Mark(sb, bm, b), c) <==> c <= b)
  {
    hide Bit, Mark;
    MarkBit(sb, bm, b, b);
    forall c | 0 <= c < sb.size ensures Bit(sb, Mark(sb, bm, b), c) <==> c <= b {
      MarkBit(sb, bm, b, c);
    }
  }
}
