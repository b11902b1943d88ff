/** filewrite (kernel/file.c): a write split into transaction-sized chunks. */
module FileWrite {
  import opened Basics
  import opened Params
  import opened FsVolume
  import opened FsBytes
  import opened FsWrite
  import opened FsCode
  import opened FsGrow
  import opened FsRoom
  import LogDisk
  import LogProtocol
  import LogSpace

  // ((MAXOPBLOCKS - 1 - 1 - 2) / 2) * BSIZE
  const MAXCHUNK: nat := (MAXOPBLOCKS - 1 - 1 - 2) / 2 * BSIZE

  lemma SpliceTwice(c: seq<Byte>, off: nat, a: seq<Byte>, b: seq<Byte>)
    requires off <= |c|
    ensures Splice(Splice(c, off, a), off + |a|, b) == Splice(c, off, a + b)
  {
  }

  /** Consecutive stores add up. */
  lemma StoredTwice(sb: Superblock, u: Volume, v: Volume, w: Volume, i: nat, off: nat, a: seq<Byte>, b: seq<Byte>, n: nat)
    requires Stored(sb, u, v, i, off, a) && StoredPart(sb, v, w, i, off + |a|, b, n)
    ensures StoredPart(sb, u, w, i, off, a + b, |a| + n)
  {
    SpliceTwice(Content(sb, u, i), off, a, b);
  }

  lemma StoredNothing(sb: Superblock, v: Volume, i: nat, off: nat)
    requires Shaped(sb, v) && i < sb.ninodes && off <= v.table[i].size
    requires forall j :: 0 <= j < sb.ninodes ==> v.table[j].size <= MAXBYTES
    ensures Stored(sb, v, v, i, off, [])
  {
  }

  lemma StoredRange(sb: Superblock, v: Volume, w: Volume, i: nat, off: nat, a: seq<Byte>, n: nat)
    requires StoredPart(sb, v, w, i, off, a, n)
    ensures i < sb.ninodes && Shaped(sb, v) && Shaped(sb, w)
    ensures off <= v.table[i].size && off + n <= w.table[i].size <= MAXBYTES
    ensures w.table[i].typ == v.table[i].typ
  {
  }

  /** How many of n bytes at off filewrite asks of writei when copyin can deliver `good` of them:
      the chunks that end within the largest file, up to the block in which copyin fails. */
  function Asked(off: nat, n: nat, good: nat): (k: nat)
    requires off <= MAXBYTES && good <= n
    ensures k <= n && off + k <= MAXBYTES
  {
    var fit, i := Fit(off, n), Down(good);
    if good == n || fit <= i then fit
    else
      ChunkFits(off, n, good, i);
      i + Upto(off + i, ChunkAt(n, i), good - i)
  }

  lemma ChunkFits(off: nat, n: nat, good: nat, i: nat)
    requires off <= MAXBYTES && good < n && i == Down(good) < Fit(off, n)
    ensures i <= good < i + ChunkAt(n, i) <= Fit(off, n)
  {
    assert MAXCHUNK == 3072;
    if off + n > MAXBYTES {
      var a, b := good / MAXCHUNK, (MAXBYTES - off) / MAXCHUNK;
      assert a < b;
    }
  }

  /** The whole chunks that end within the largest file. */
  function Fit(off: nat, n: nat): (k: nat)
    requires off <= MAXBYTES
    ensures k <= n && off + k <= MAXBYTES
  {
    if off + n <= MAXBYTES then n else Down(MAXBYTES - off)
  }

  /** The multiple of MAXCHUNK at or below x. */
  function Down(x: nat): (i: nat)
    ensures i <= x
  {
    x / MAXCHUNK * MAXCHUNK
  }

  /** What of that falls in the chunk of n1 bytes after the first i. */
  function Part(good: nat, i: nat, n1: nat): (g: nat)
    ensures g <= n1
  {
    if good >= i + n1 then n1 else if good <= i then 0 else good - i
  }

  /** Where the loop stands after i bytes. */
  predicate AtChunk(n: nat, i: nat) {
    i <= n && (i < n ==> i % MAXCHUNK == 0)
  }

  function ChunkAt(n: nat, i: nat): (n1: nat)
    requires i < n
    ensures 0 < n1 <= MAXCHUNK && i + n1 <= n
  {
    if n - i > MAXCHUNK then MAXCHUNK else n - i
  }

  lemma NextChunk(n: nat, i: nat)
    requires AtChunk(n, i) && i < n
    ensures AtChunk(n, i + ChunkAt(n, i))
  {
  }

  /** The chunk after i bytes is past the largest file. */
  lemma AskedTooFar(off: nat, n: nat, good: nat, i: nat)
    requires i < n && off + i <= MAXBYTES < off + i + ChunkAt(n, i) && AtChunk(n, i) && i <= good <= n
    ensures Asked(off, n, good) == i
  {
    Multiple(MAXBYTES - off, i);
    Below(good, i);
  }

  /** It is the one in which copyin fails, or all of it is asked. */
  lemma AskedHere(off: nat, n: nat, good: nat, i: nat)
    requires i < n && off + i + ChunkAt(n, i) <= MAXBYTES && AtChunk(n, i) && i <= good <= n
    ensures if good < i + ChunkAt(n, i)
            then Asked(off, n, good) == i + Upto(off + i, ChunkAt(n, i), Part(good, i, ChunkAt(n, i)))
            else Asked(off, n, good) >= i + ChunkAt(n, i)
  {
    hide Upto, Fit, Down;
    var n1 := ChunkAt(n, i);
    FitHere(off, n, i);
    if good < i + n1 {
      Multiple(good, i);
      assert Part(good, i, n1) == good - i;
    } else if good < n {
      NextChunk(n, i);
      Below(good, i + n1);
    }
  }

  lemma FitHere(off: nat, n: nat, i: nat)
    requires i < n && off + i + ChunkAt(n, i) <= MAXBYTES && AtChunk(n, i)
    ensures i + ChunkAt(n, i) <= Fit(off, n)
  {
    if off + n > MAXBYTES {
      NextChunk(n, i);
      Below(MAXBYTES - off, i + MAXCHUNK);
    }
  }

  lemma Multiple(x: nat, i: nat)
    requires i % MAXCHUNK == 0 && i <= x < i + MAXCHUNK
    ensures Down(x) == i
  {
    assert MAXCHUNK == 3072;
  }

  lemma Below(x: nat, i: nat)
    requires i % MAXCHUNK == 0 && i <= x
    ensures i <= Down(x)
  {
    assert MAXCHUNK == 3072;
    var q := i / MAXCHUNK;
    assert i == q * MAXCHUNK;
    assert q <= x / MAXCHUNK;
  }

  /** An open file of type FD_INODE: its inode and offset. */
  class File {
    const fs: FileSystem
    const ip: nat
    var off: nat
    ghost var ops: seq<set<nat>>   // blocks logged by each begin_op..end_op

    constructor (fs: FileSystem, ip: nat, off: nat)
      ensures this.fs == fs && this.ip == ip && this.off == off && ops == []
    {
      this.fs, this.ip, this.off, ops := fs, ip, off, [];
    }

    ghost predicate Valid()
      reads this, fs
    {
      fs.Valid() && ip < fs.sb.ninodes && fs.table[ip].typ != 0 && |fs.dinodes| == fs.sb.ninodes && off < UINT_LIMIT
    }

    /** The operation whose blocks lg are has changed no disk block but those, and of the
        inodes at most this file's. */
    twostate predicate ChangedOnly(lg: set<nat>)
      reads this, fs
    {
      && LogsAll(fs.sb, old(fs.blocks), old(fs.bitmap), {}, fs.blocks, fs.bitmap, lg)
      && |fs.dinodes| == old(|fs.dinodes|)
      && forall j :: 0 <= j < |fs.dinodes| && fs.dinodes[j] != old(fs.dinodes[j]) ==> j == ip && fs.sb.Iblock(j) in lg
    }

    /** One begin_op..end_op of filewrite, where copyin can deliver the first `good` bytes.
        Every disk block it changes it logs, unless copyin fails within a block and the bytes
        up to `stored` spill into it. */
    method WriteOp(piece: seq<Byte>, good: nat) returns (r: int, ghost stored: nat)
      requires Valid() && |piece| <= MAXCHUNK && good <= |piece|
      modifies this, fs
      ensures Valid() && ops == old(ops) + [fs.logged] && |fs.logged| <= ChunkLimit(fs.sb)
      ensures -1 <= r <= |piece| && off == if r > 0 then old(off) + r else old(off)
      ensures r == -1 ==> fs.Vol() == old(fs.Vol()) && fs.bitmap == old(fs.bitmap) && fs.dinodes == old(fs.dinodes)
      ensures r != -1 ==> fs.dinodes == old(fs.dinodes)[ip := fs.table[ip]] && |fs.table| == |old(fs.table)|
      ensures r != -1 ==> r <= stored <= |piece| && (r < stored ==> stored == good < |piece|)
      ensures r != -1 ==> StoredPart(fs.sb, old(fs.Vol()), fs.Vol(), ip, old(off), piece[..stored], r)
      ensures r == -1 || r == stored ==> ChangedOnly(fs.logged)
      ensures r != -1 ==>
                && Shaped(fs.sb, old(fs.Vol())) && old(off) + |piece| <= MAXBYTES
                && Reached(fs.sb, old(fs.Vol()), old(fs.owner), ip, old(off), Upto(old(off), |piece|, good), r)
                && (ChangedOnly(fs.logged)
                    <==> !Spills(fs.sb, old(fs.Vol()), old(fs.owner), {}, ip, old(off), piece, good))
      ensures r == -1 <==> old(off) > old(fs.table)[ip].size || old(off) + |piece| > MAXBYTES
      ensures r == |piece| ==>
                && Shaped(fs.sb, fs.Vol())
                && Filled(fs.sb, old(fs.Vol()), old(fs.owner), fs.Vol(), fs.owner, ip, old(off) / BSIZE, BlockEnd(old(off), r))
    {
      hide StoredPart, Cut, LogsAll, Reached, Spills, Upto, Sound, Marked, ChunkLimit, LogsBut, Named, Filled;
      fs.logged := {};
      r, stored := fs.Writei(ip, piece, off, good);
      if r != -1 {
        StoredRange(fs.sb, old(fs.Vol()), fs.Vol(), ip, off, piece[..stored], r);
        if r < stored {
          CutShort(off, |piece|, good, r);
        }
      }
      if r > 0 {
        off := off + r;
      }
      ops := ops + [fs.logged];
    }

    /** filewrite of n bytes, src being what the caller has there. Every chunk is one operation
        of at most MAXOPBLOCKS log blocks, of at most 7 on a disk with one bitmap block.
        The file gets the first `done` bytes of src at the
        old offset; n is returned exactly when that is n of them, and -1 else, also for a
        negative n. Where copyin fails, the bytes up to `stored` may show as well, as far
        as the old size goes. */
    method Write(src: seq<Byte>, n: int, good: nat) returns (ret: int, ghost done: nat, ghost stored: nat)
      requires Valid() && good <= |src| == (if n > 0 then n else 0) < UINT_LIMIT
      modifies this, fs
      ensures Valid() && done <= stored <= |src| && ret == (if done == n then n else -1)
      ensures done < stored ==> stored == good < |src|
      ensures off == old(off) + done
      ensures if old(off) <= old(fs.table)[ip].size
              then StoredPart(fs.sb, old(fs.Vol()), fs.Vol(), ip, old(off), src[..stored], done)
              else fs.Vol() == old(fs.Vol()) && done == 0
      ensures old(ops) <= ops && forall k :: |old(ops)| <= k < |ops| ==> |ops[k]| <= ChunkLimit(fs.sb)
      ensures old(off) <= old(fs.table)[ip].size ==>
                && Shaped(fs.sb, old(fs.Vol())) && old(off) <= MAXBYTES
                && Reached(fs.sb, old(fs.Vol()), old(fs.owner), ip, old(off), Asked(old(off), |src|, good), done)
                && (n >= 0 && good == |src| && old(off) + |src| <= MAXBYTES ==>
                      (ret == n <==>
                       Room(fs.sb, old(fs.Vol()), old(fs.owner), ip, old(off) / BSIZE, BlockEnd(old(off), |src|))))
    {
      hide StoredPart, FileSystem.Valid, Reached, Filled, Asked, Room;
      var i := 0;
      ghost var v0, o0, off0 := fs.Vol(), fs.owner, off;
      done, stored := 0, 0;
      StartedAt(src);
      while i < n
        invariant 0 <= i <= |src| && done == stored == i && Valid() && off == off0 + i && AtChunk(|src|, i) && i <= good
        invariant Written(v0, off0, src, i, i) && Along(v0, o0, off0, i)
        invariant old(ops) <= ops && forall k :: |old(ops)| <= k < |ops| ==> |ops[k]| <= ChunkLimit(fs.sb)
      {
        var n1 := if n - i > MAXCHUNK then MAXCHUNK else n - i;
        NextChunk(|src|, i);
        var r;
        r, stored := WriteNext(src, i, n1, good, v0, o0, off0);
        if r > 0 {
          done := i + r;
        }
        if r != n1 {
          break;
        }
        i := i + r;
      }
      ret := if i == n then n else -1;
      if off0 <= v0.table[ip].size {
        if i >= n {
          AllReached(src, good, v0, o0, off0);
        }
        if good == |src| && off0 + |src| <= MAXBYTES {
          WholeReached(fs.sb, v0, o0, ip, off0, |src|, done);
        }
      }
    }

    /** The blocks of those bytes are in place. */
    ghost predicate Along(v0: Volume, o0: Owners, off0: nat, i: nat)
      requires Shaped(fs.sb, v0) && ip < fs.sb.ninodes
      reads this, fs
    {
      off0 <= v0.table[ip].size ==>
        && Shaped(fs.sb, fs.Vol()) && off0 + i <= fs.table[ip].size <= MAXBYTES
        && Filled(fs.sb, v0, o0, fs.Vol(), fs.owner, ip, off0 / BSIZE, BlockEnd(off0, i))
    }

    lemma AllReached(src: seq<Byte>, good: nat, v0: Volume, o0: Owners, off0: nat)
      requires Valid() && Shaped(fs.sb, v0) && off0 <= v0.table[ip].size && good == |src| && Along(v0, o0, off0, |src|)
      ensures off0 <= MAXBYTES && Reached(fs.sb, v0, o0, ip, off0, Asked(off0, |src|, good), |src|)
    {
      hide Filled, Reached;
      ReachedAll(fs.sb, v0, o0, fs.Vol(), fs.owner, ip, off0, |src|);
    }

    /** So far the first i bytes of src have gone to offset off0, and those up to stored to
        the cache. */
    ghost predicate Written(v0: Volume, off0: nat, src: seq<Byte>, i: nat, stored: nat)
      requires Shaped(fs.sb, v0) && ip < fs.sb.ninodes && i <= stored <= |src|
      reads this, fs
    {
      if off0 <= v0.table[ip].size then StoredPart(fs.sb, v0, fs.Vol(), ip, off0, src[..stored], i)
      else fs.Vol() == v0 && i == 0
    }

    lemma StartedAt(src: seq<Byte>)
      requires Valid()
      ensures Shaped(fs.sb, fs.Vol()) && Written(fs.Vol(), off, src, 0, 0) && Along(fs.Vol(), fs.owner, off, 0)
    {
      hide Filled;
      assert src[..0] == [];
      assert forall j :: 0 <= j < fs.sb.ninodes ==> NoHoles(fs.sb, fs.Vol(), j, fs.table[j].size);
      if off <= fs.table[ip].size {
        StoredNothing(fs.sb, fs.Vol(), ip, off);
        StoredWhole(fs.sb, fs.Vol(), fs.Vol(), ip, off, []);
        FilledStart(fs.sb, fs.Vol(), fs.owner, ip, off / BSIZE);
      }
    }

    /** One chunk. */
    method ChunkOp(src: seq<Byte>, i: nat, n1: nat, good: nat, ghost v0: Volume, ghost off0: nat)
        returns (r: int, ghost stored: nat)
      requires Valid() && i + n1 <= |src| && 0 < n1 <= MAXCHUNK && off == off0 + i && good <= |src|
      requires Shaped(fs.sb, v0) && Written(v0, off0, src, i, i)
      modifies this, fs
      ensures Valid() && ops == old(ops) + [fs.logged] && |fs.logged| <= ChunkLimit(fs.sb)
      ensures -1 <= r <= n1 && off == off0 + i + if r > 0 then r else 0
      ensures var done := if r > 0 then i + r else i;
              && done <= stored <= |src| && (done < stored ==> stored == good < |src|) && (r == n1 ==> stored == done)
              && Written(v0, off0, src, done, stored)
              && (off0 <= v0.table[ip].size ==> off0 + done <= fs.table[ip].size <= MAXBYTES)
      ensures r == -1 <==> off0 + i > old(fs.table)[ip].size || off0 + i + n1 > MAXBYTES
      ensures r != -1 ==>
                && Shaped(fs.sb, old(fs.Vol()))
                && Reached(fs.sb, old(fs.Vol()), old(fs.owner), ip, off0 + i, Upto(off0 + i, n1, Part(good, i, n1)), r)
      ensures r == n1 ==>
                && Shaped(fs.sb, fs.Vol())
                && Filled(fs.sb, old(fs.Vol()), old(fs.owner), fs.Vol(), fs.owner, ip, (off0 + i) / BSIZE, BlockEnd(off0 + i, n1))
    {
      hide StoredPart, Stored, FileSystem.Valid, Filled, Reached, Spills, Upto, Part, BlockEnd, Splice, ChunkLimit;
      ghost var v := fs.Vol();
      r, stored := WriteOp(src[i..i + n1], Part(good, i, n1));
      if r != -1 {
        PartIs(good, i, n1);
        assert src[i..i + n1][..stored] == src[i..i + stored];
        assert src[..i] + src[i..i + stored] == src[..i + stored];
        if off0 <= v0.table[ip].size {
          StoredWhole(fs.sb, v0, v, ip, off0, src[..i]);
          StoredTwice(fs.sb, v0, v, fs.Vol(), ip, off0, src[..i], src[i..i + stored], r);
          StoredRange(fs.sb, v0, fs.Vol(), ip, off0, src[..i + stored], i + r);
        }
        stored := i + stored;
      } else {
        stored := i;
        if off0 <= v0.table[ip].size {
          StoredRange(fs.sb, v0, fs.Vol(), ip, off0, src[..i], i);
        }
      }
    }

    /** Unless all of it is stored, as much is as there was room for at the start of what
        filewrite asks for. */
    method WriteNext(src: seq<Byte>, i: nat, n1: nat, good: nat, ghost v0: Volume, ghost o0: Owners, ghost off0: nat)
        returns (r: int, ghost stored: nat)
      requires Valid() && i <= good <= |src| && i < |src| && AtChunk(|src|, i) && n1 == ChunkAt(|src|, i) && off == off0 + i
      requires Shaped(fs.sb, v0) && Written(v0, off0, src, i, i) && Along(v0, o0, off0, i)
      modifies this, fs
      ensures Valid() && ops == old(ops) + [fs.logged] && |fs.logged| <= ChunkLimit(fs.sb)
      ensures -1 <= r <= n1 && off == off0 + i + if r > 0 then r else 0
      ensures var done := if r > 0 then i + r else i;
              && done <= stored <= |src| && (done < stored ==> stored == good < |src|) && (r == n1 ==> stored == done)
              && Written(v0, off0, src, done, stored)
              && (r == n1 ==> done <= good && Along(v0, o0, off0, done))
              && (r != n1 && off0 <= v0.table[ip].size ==>
                    off0 <= MAXBYTES && Reached(fs.sb, v0, o0, ip, off0, Asked(off0, |src|, good), done))
    {
      hide Sound, Marked, StoredPart, Filled, Reached, Inside, Asked, Upto, Part, ChunkAt, BlockEnd, ChunkLimit;
      ghost var v, o := fs.Vol(), fs.owner;
      r, stored := ChunkOp(src, i, n1, good, v0, off0);
      if off0 <= v0.table[ip].size {
        SizeBound(fs.sb, v, o, ip, off0 + i);
        if r == -1 {
          TooFar(fs.sb, v0, o0, v, o, ip, off0, |src|, good, i);
        } else {
          ChunkReached(fs.sb, v0, o0, v, o, fs.Vol(), fs.owner, ip, off0, |src|, good, i, r);
        }
      }
    }
  }

  lemma PartIs(good: nat, i: nat, n1: nat)
    ensures Part(good, i, n1) < n1 && Part(good, i, n1) > 0 ==> i + Part(good, i, n1) == good
    ensures good <= i ==> Part(good, i, n1) == 0
  {
  }

  lemma SizeBound(sb: Superblock, v: Volume, o: Owners, i: nat, pos: nat)
    requires Sound(sb, v, o) && i < sb.ninodes && pos <= v.table[i].size
    ensures Shaped(sb, v) && v.table[i].size <= MAXBYTES && Inside(sb, v, i, pos)
  {
    assert NoHoles(sb, v, i, v.table[i].size);
    InsideFile(sb, v, o, i, pos);
  }

  lemma WholeReached(sb: Superblock, v: Volume, o: Owners, i: nat, off: nat, n: nat, done: nat)
    requires Shaped(sb, v) && i < sb.ninodes && off + n <= MAXBYTES && Reached(sb, v, o, i, off, Asked(off, n, n), done)
    ensures done == n <==> Room(sb, v, o, i, off / BSIZE, BlockEnd(off, n))
  {
    hide Room;
  }

  /** writei refuses the chunk: it would end past the largest file. */
  lemma TooFar(sb: Superblock, v: Volume, o: Owners, u: Volume, p: Owners, ip: nat, off: nat, n: nat, good: nat, i: nat)
    requires Shaped(sb, v) && Shaped(sb, u) && ip < sb.ninodes && i < n && AtChunk(n, i) && i <= good <= n
    requires off + i <= MAXBYTES < off + i + ChunkAt(n, i)
    requires Filled(sb, v, o, u, p, ip, off / BSIZE, BlockEnd(off, i))
    ensures Reached(sb, v, o, ip, off, Asked(off, n, good), i)
  {
    hide Reached, Filled;
    AskedTooFar(off, n, good, i);
    ReachedAll(sb, v, o, u, p, ip, off, i);
  }

  /** It stores r bytes of it. */
  lemma ChunkReached(sb: Superblock, v: Volume, o: Owners, u: Volume, p: Owners, w: Volume, q: Owners, ip: nat,
                     off: nat, n: nat, good: nat, i: nat, r: nat)
    requires Shaped(sb, v) && Shaped(sb, u) && ip < sb.ninodes && i < n && AtChunk(n, i) && i <= good <= n
    requires off + i + ChunkAt(n, i) <= MAXBYTES && Inside(sb, u, ip, off + i)
    requires Filled(sb, v, o, u, p, ip, off / BSIZE, BlockEnd(off, i))
    requires Reached(sb, u, p, ip, off + i, Upto(off + i, ChunkAt(n, i), Part(good, i, ChunkAt(n, i))), r)
    requires r == ChunkAt(n, i) ==>
               Shaped(sb, w) && Filled(sb, u, p, w, q, ip, (off + i) / BSIZE, BlockEnd(off + i, ChunkAt(n, i)))
    ensures if r == ChunkAt(n, i)
            then i + r <= good && Filled(sb, v, o, w, q, ip, off / BSIZE, BlockEnd(off, i + r))
            else Reached(sb, v, o, ip, off, Asked(off, n, good), i + r)
  {
    hide Reached, Filled, Upto, Asked, ChunkAt;
    var n1 := ChunkAt(n, i);
    ReachedBound(sb, u, p, ip, off + i, Upto(off + i, n1, Part(good, i, n1)), r);
    AskedHere(off, n, good, i);
    WholeUpto(off + i, n1);
    if r == n1 {
      FilledMore(sb, v, o, u, p, w, q, ip, off, i, n1);
    } else {
      ReachedMore(sb, v, o, u, p, ip, off, i, Upto(off + i, n1, Part(good, i, n1)), r, Asked(off, n, good));
    }
  }

  lemma ReachedBound(sb: Superblock, v: Volume, o: Owners, i: nat, off: nat, upto: nat, tot: nat)
    requires Shaped(sb, v) && i < sb.ninodes && off + upto <= MAXBYTES && Reached(sb, v, o, i, off, upto, tot)
    ensures tot <= upto
  {
  }

  lemma WholeUpto(off: nat, n: nat)
    ensures Upto(off, n, n) == n
  {
  }

  /** The blocks that each operation logs. */
  type Ops = map<LogProtocol.OpId, set<nat>>

  /** A step of a run in which operation op logs only blocks of ops[op]. */
  ghost predicate NextOf(c: LogProtocol.Config, ops: Ops, s: LogProtocol.Sys, t: LogProtocol.Sys) {
    exists st :: LogProtocol.Enabled(c, s, st) && t == LogProtocol.Do(c, s, st)
                 && (st.LogWrite? ==> st.op in ops && st.b in ops[st.op])
  }

  /** A run whose operations are those of ops, each logging the blocks given there. */
  ghost predicate RunOf(c: LogProtocol.Config, ops: Ops, run: seq<LogProtocol.Sys>) {
    && |run| > 0 && LogProtocol.Init(c, run[0])
    && forall i :: 0 <= i < |run| - 1 ==> NextOf(c, ops, run[i], run[i + 1])
  }

  ghost predicate LogsOwn(ops: Ops, s: LogProtocol.Sys) {
    forall op :: op in s.active && s.active[op] != {} ==> op in ops && s.active[op] <= ops[op]
  }

  /** The limit of a configuration matters to log_write alone. */
  lemma OtherLimit(c: LogProtocol.Config, limit: nat, s: LogProtocol.Sys, st: LogProtocol.Step)
    requires LogProtocol.Enabled(c, s, st)
    requires st.LogWrite? ==> |s.active[st.op] + {st.b}| <= limit
    ensures var d := c.(limit := limit); LogProtocol.Enabled(d, s, st) && LogProtocol.Do(d, s, st) == LogProtocol.Do(c, s, st)
  {
    hide LogDisk.CommitWrites, LogDisk.RecoverWrites, LogDisk.DiskOk, LogDisk.TargetsOk, LogProtocol.Put;
  }

  lemma OwnLogged(c: LogProtocol.Config, ops: Ops, s: LogProtocol.Sys, st: LogProtocol.Step, t: LogProtocol.Sys)
    requires LogProtocol.Enabled(c, s, st) && t == LogProtocol.Do(c, s, st)
    requires st.LogWrite? ==> st.op in ops && st.b in ops[st.op]
    requires LogsOwn(ops, s)
    ensures LogsOwn(ops, t)
  {
    hide LogDisk.CommitWrites, LogDisk.RecoverWrites, LogDisk.DiskOk, LogDisk.TargetsOk, LogProtocol.Put;
  }

  lemma OwnStep(c: LogProtocol.Config, ops: Ops, limit: nat, s: LogProtocol.Sys, t: LogProtocol.Sys)
    requires NextOf(c, ops, s, t) && LogsOwn(ops, s) && forall op :: op in ops ==> |ops[op]| <= limit
    ensures LogProtocol.Next(c.(limit := limit), s, t) && LogsOwn(ops, t)
  {
    hide LogProtocol.Do;
    var st :| LogProtocol.Enabled(c, s, st) && t == LogProtocol.Do(c, s, st)
              && (st.LogWrite? ==> st.op in ops && st.b in ops[st.op]);
    OwnLogged(c, ops, s, st, t);
    if st.LogWrite? {
      SubsetBound(s.active[st.op] + {st.b}, ops[st.op]);
    }
    OtherLimit(c, limit, s, st);
  }

  lemma {:induction false} OwnRun(c: LogProtocol.Config, ops: Ops, limit: nat, run: seq<LogProtocol.Sys>, n: nat)
    requires RunOf(c, ops, run) && n < |run| && forall op :: op in ops ==> |ops[op]| <= limit
    ensures LogProtocol.IsRun(c.(limit := limit), run[..n + 1]) && LogsOwn(ops, run[n])
    decreases n
  {
    hide NextOf, LogProtocol.Next, LogsOwn;
    if n == 0 {
      StartOwn(c, ops, limit, run[0]);
    } else {
      OwnRun(c, ops, limit, run, n - 1);
      assert NextOf(c, ops, run[n - 1], run[n - 1 + 1]);
      OwnStep(c, ops, limit, run[n - 1], run[n]);
      var l := run[..n + 1];
      forall i | 0 <= i < |l| - 1
        ensures LogProtocol.Next(c.(limit := limit), l[i], l[i + 1])
      {
        if i < n - 1 {
          assert run[..n][i] == l[i] && run[..n][i + 1] == l[i + 1];
        }
      }
    }
  }

  lemma StartOwn(c: LogProtocol.Config, ops: Ops, limit: nat, s: LogProtocol.Sys)
    requires LogProtocol.Init(c, s)
    ensures LogProtocol.Init(c.(limit := limit), s) && LogsOwn(ops, s)
  {
  }

  /** FILE WRITES FIT THE LOG. Take any operations whose block sets are within the bound
      that WriteOp's contract gives for the sets it records in ops, on a disk where all
      bitmap bits fit in one block. However they are interleaved, with commits and
      crashes anywhere, no run of them reaches log_write's panic. */
  lemma FileWritesFit(sb: Superblock, c: LogProtocol.Config, ops: Ops, run: seq<LogProtocol.Sys>, i: nat)
    requires sb.size <= BPB && (forall op :: op in ops ==> |ops[op]| <= ChunkLimit(sb)) && c.layout.size >= NLOG
    requires RunOf(c, ops, run) && i < |run|
    ensures !run[i].phase.Panicked?
  {
    hide RunOf;
    OwnRun(c, ops, ChunkLimit(sb), run, i);
    LogSpace.SmallOperationsFit(c.(limit := ChunkLimit(sb)), run[..i + 1], i);
  }
}
