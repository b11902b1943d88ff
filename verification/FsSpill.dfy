/** The write that spills: an input on which writei changes a block without logging it. */
module FsSpill {
  import opened Basics
  import opened Params
  import opened FsVolume
  import opened FsGrow
  import opened FsRoom
  import opened FsBytes
  import opened FsWrite
  import opened FsCode

  lemma FirstRoom(sb: Superblock, v: Volume, o: Owners, i: nat)
    requires Shaped(sb, v) && i < sb.ninodes && o == map[] && sb.datastart < sb.size
    ensures !Stuck(sb, v, o, i, 0)
  {
    assert sb.datastart !in o;
  }

  /** In a file of the one byte 1, a first byte other than that spills if copyin fails after it. */
  lemma OneSpills(sb: Superblock, v: Volume, o: Owners, i: nat, src: seq<Byte>)
    requires Sound(sb, v, o) && i < sb.ninodes && v.table[i].size <= MAXBYTES && Content(sb, v, i) == [1]
    requires |src| == 2 && src[0] != 1
    ensures Spills(sb, v, o, {}, i, 0, src, 1)
  {
    hide Owned;
    NoNeeds(sb, v, o, i, 0);
    assert NoHoles(sb, v, i, v.table[i].size);
    assert ByteAt(sb, v, i, 0) == Content(sb, v, i)[0];
    assert src[0..1][0] != ByteAt(sb, v, i, 0 + 0);
  }

  /** On any disk with a free block and a free inode: write one byte to a new file, and in the
      next operation two more over it, of which copyin can deliver one. writei counts none,
      the file has changed, and the block that holds it is not in the log. */
  method UnloggedBlock(sb: Superblock)
      returns (fs: FileSystem, i: nat, r: int, x: nat, ghost before: seq<Block>)
    requires sb.Ok() && sb.datastart < sb.size && sb.ninodes > 1
    ensures fs.Valid() && fs.sb == sb && i < sb.ninodes && r == 0
    ensures fs.table[i].size <= MAXBYTES && Content(sb, fs.Vol(), i) == [2]
    ensures x < sb.size == |before| && fs.blocks[x] != before[x] && x !in fs.logged
  {
    hide Sound, Marked, Stored, LogsAll, LogsBut, Spills, Reached, Upto, Stuck;
    fs := new FileSystem(sb);
    assert fs.dinodes[1].typ == 0;
    i := fs.Ialloc(2);
    SoundShaped(sb, fs.Vol(), fs.owner);
    FirstRoom(sb, fs.Vol(), fs.owner, i);
    ghost var stored;
    r, stored := fs.Writei(i, [1], 0, 1);
    fs.logged := {};
    OneSpills(sb, fs.Vol(), fs.owner, i, [2, 3]);
    before := fs.blocks;
    ghost var bits := fs.bitmap;
    r, stored := fs.Writei(i, [2, 3], 0, 1);
    SoundShaped(sb, fs.Vol(), fs.owner);
    x := fs.table[i].addrs[0];
    ButUnlogged(sb, before, bits, {}, fs.blocks, fs.bitmap, fs.logged, x);
  }
}
