/** Directories on the volume: dirlookup, dirlink, isdirempty and unlink's erasure
    (kernel/fs.c, kernel/sysfile.c) over readi and writei, and the entries that the
    bytes of a directory file stand for. */
module DirDisk {
  import opened Basics
  import opened Params
  import opened FsVolume
  import opened FsBytes
  import opened FsGrow
  import opened FsWrite
  import opened FsCode
  import opened DirEntries

  const DIRENT: nat := 16        // sizeof(struct dirent)
  const USHORT_LIMIT: nat := 0x1_0000

  // ---- struct dirent: a little-endian ushort and the name field ----

  function Encode(e: Dirent): (b: seq<Byte>)
    requires e.inum < USHORT_LIMIT && Field(e.name)
    ensures |b| == DIRENT
  {
    [e.inum % 256, e.inum / 256] + e.name
  }

  function Decode(b: seq<Byte>): (e: Dirent)
    requires |b| == DIRENT
    ensures e.inum < USHORT_LIMIT && Field(e.name)
  {
    var lo: int, hi: int := b[0], b[1];
    Dirent(lo + 256 * hi, b[2..])
  }

  lemma EntryRoundTrip(e: Dirent, b: seq<Byte>)
    requires |b| == DIRENT && e.inum < USHORT_LIMIT && Field(e.name)
    ensures Decode(Encode(e)) == e && Encode(Decode(b)) == b
  {
    assert Encode(e)[2..] == e.name;
    assert [b[0], b[1]] + b[2..] == b;
  }

  /** Bytes 16 k to 16 k + 15 of the file. */
  function Piece(c: seq<Byte>, k: nat): (b: seq<Byte>)
    requires k < |c| / DIRENT
    ensures |b| == DIRENT
  {
    c[DIRENT * k..DIRENT * k + DIRENT]
  }

  /** The entries in the bytes of a directory file; a remainder counts for nothing. */
  ghost function Entries(c: seq<Byte>): (d: seq<Dirent>)
    ensures |d| == |c| / DIRENT && forall k :: 0 <= k < |d| ==> d[k] == Decode(Piece(c, k))
  {
    seq(|c| / DIRENT, k requires 0 <= k < |c| / DIRENT => Decode(Piece(c, k)))
  }

  lemma SplicePiece(c: seq<Byte>, k: nat, b: seq<Byte>, s: seq<Byte>, j: nat)
    requires |c| % DIRENT == 0 && DIRENT * k <= |c| && |b| == DIRENT && s == Splice(c, DIRENT * k, b) && j < |s| / DIRENT
    ensures j != k ==> j < |c| / DIRENT
    ensures Piece(s, j) == if j == k then b else Piece(c, j)
  {
    hide Decode;
  }

  /** Storing an entry's bytes stores the entry. */
  lemma SpliceEntry(c: seq<Byte>, k: nat, b: seq<Byte>)
    requires |c| % DIRENT == 0 && DIRENT * k <= |c| && |b| == DIRENT
    ensures var s := Splice(c, DIRENT * k, b);
            |s| % DIRENT == 0 && k <= |Entries(c)| && Entries(s) == Put(Entries(c), k, Decode(b))
  {
    hide Decode;
    var s := Splice(c, DIRENT * k, b);
    assert |s| == if DIRENT * k == |c| then |c| + DIRENT else |c|;
    forall j | 0 <= j < |s| / DIRENT
      ensures Entries(s)[j] == Put(Entries(c), k, Decode(b))[j]
    {
      SplicePiece(c, k, b, s, j);
    }
  }

  // ---- the directory in an inode ----

  ghost function DirIn(sb: Superblock, v: Volume, dp: nat): (d: seq<Dirent>)
    requires Shaped(sb, v) && dp < sb.ninodes && v.table[dp].size <= MAXBYTES
    ensures |d| == v.table[dp].size / DIRENT
  {
    Entries(Content(sb, v, dp))
  }

  ghost function DirOf(fs: FileSystem, dp: nat): (d: seq<Dirent>)
    requires fs.Valid() && dp < fs.sb.ninodes
    reads fs
    ensures |d| == fs.table[dp].size / DIRENT && fs.table[dp].size <= MAXBYTES
  {
    assert NoHoles(fs.sb, fs.Vol(), dp, fs.table[dp].size);
    DirIn(fs.sb, fs.Vol(), dp)
  }

  ghost predicate Listed(d: seq<Dirent>, key: seq<Byte>) {
    exists k :: Holds(d, key, k)
  }

  lemma ListedAt(d: seq<Dirent>, key: seq<Byte>, k: nat)
    requires k < |d|
    ensures Holds(d, key, k) <==> d[k].inum != 0 && Trim(d[k].name) == key
    ensures Holds(d, key, k) ==> Listed(d, key)
  {
    hide Trim;
  }

  lemma NotListed(d: seq<Dirent>, key: seq<Byte>, k: nat)
    requires k >= |d| && forall j :: 0 <= j < k ==> !Holds(d, key, j)
    ensures !Listed(d, key)
  {
    hide Trim;
  }

  lemma DirFields(fs: FileSystem, dp: nat, k: nat)
    requires fs.Valid() && dp < fs.sb.ninodes && k < |DirOf(fs, dp)|
    ensures Field(DirOf(fs, dp)[k].name)
  {
  }

  twostate predicate Untouched(fs: FileSystem)
    reads fs
  {
    && fs.bitmap == old(fs.bitmap) && fs.Vol() == old(fs.Vol()) && fs.owner == old(fs.owner)
    && fs.logged == old(fs.logged) && fs.dinodes == old(fs.dinodes)
  }

  lemma Table(fs: FileSystem)
    requires fs.Valid()
    ensures |fs.table| == fs.sb.ninodes && Shaped(fs.sb, fs.Vol())
    ensures forall j :: 0 <= j < fs.sb.ninodes ==> fs.table[j].size <= MAXBYTES
  {
    forall j | 0 <= j < fs.sb.ninodes
      ensures fs.table[j].size <= MAXBYTES
    {
      assert NoHoles(fs.sb, fs.Vol(), j, fs.table[j].size);
    }
  }

  /** readi of entry k; it falls short exactly if the file ends inside the entry. */
  method ReadEntry(fs: FileSystem, dp: nat, off: nat, ghost k: nat) returns (ok: bool, de: Dirent)
    requires fs.Valid() && dp < fs.sb.ninodes && fs.table[dp].typ != 0 && off == DIRENT * k < fs.table[dp].size
    modifies fs
    ensures fs.Valid() && Untouched(fs) && DirOf(fs, dp) == old(DirOf(fs, dp))
    ensures ok <==> k < |DirOf(fs, dp)|
    ensures ok ==> de == DirOf(fs, dp)[k]
  {
    hide Sound, Marked, Shaped, Decode;
    Table(fs);
    var r := fs.Readi(dp, off, DIRENT, DIRENT);
    var dst := r.value;
    ok, de := |dst| == DIRENT, Erased();
    if ok {
      assert dst == Piece(Content(fs.sb, fs.Vol(), dp), k);
      de := Decode(dst);
    }
  }

  datatype Lookup = Found(inum: nat, off: nat) | Missing | Panicked

  /** dirlookup: the first entry in use with the name. It panics on an inode that is
      no directory, and when it comes to an entry cut short by the end of the file. */
  method LookupAt(fs: FileSystem, dp: nat, name: seq<Byte>) returns (r: Lookup, ghost k: nat)
    requires fs.Valid() && dp < fs.sb.ninodes && fs.table[dp].typ != 0 && Field(name)
    modifies fs
    ensures fs.Valid() && Untouched(fs) && DirOf(fs, dp) == old(DirOf(fs, dp))
    ensures r.Found? ==>
              && r.off == DIRENT * k && Holds(DirOf(fs, dp), Trim(name), k) && r.inum == DirOf(fs, dp)[k].inum
              && forall j :: 0 <= j < k ==> !Holds(DirOf(fs, dp), Trim(name), j)
    ensures r.Found? <==> fs.table[dp].typ == T_DIR && Listed(DirOf(fs, dp), Trim(name))
    ensures r.Panicked? <==>
              fs.table[dp].typ != T_DIR || (!Listed(DirOf(fs, dp), Trim(name)) && fs.table[dp].size % DIRENT != 0)
  {
    hide Trim, Sound, Marked, Shaped, DirIn, Listed, Holds;
    Table(fs);
    k := 0;
    if fs.table[dp].typ != T_DIR {
      return Panicked, k;
    }
    ghost var d := DirOf(fs, dp);
    var off := 0;
    while off < fs.table[dp].size
      invariant off == DIRENT * k && fs.Valid() && Untouched(fs) && DirOf(fs, dp) == d && k <= |d|
      invariant forall j :: 0 <= j < k ==> !Holds(d, Trim(name), j)
    {
      var ok, de := ReadEntry(fs, dp, off, k);
      if !ok {
        NotListed(d, Trim(name), k);
        return Panicked, k;
      }
      DirFields(fs, dp, k);
      var eq := NameEq(name, de.name);
      ListedAt(d, Trim(name), k);
      if de.inum != 0 && eq {
        return Found(de.inum, off), k;
      }
      off, k := off + DIRENT, k + 1;
    }
    NotListed(d, Trim(name), k);
    return Missing, k;
  }

  /** dirlink's search: the first unused entry, or the end of the file. */
  method FirstUnused(fs: FileSystem, dp: nat) returns (off: nat, ghost k: nat)
    requires fs.Valid() && dp < fs.sb.ninodes && fs.table[dp].typ != 0 && fs.table[dp].size % DIRENT == 0
    modifies fs
    ensures fs.Valid() && Untouched(fs) && DirOf(fs, dp) == old(DirOf(fs, dp))
    ensures off == DIRENT * k <= fs.table[dp].size
    ensures !Used(DirOf(fs, dp), k) && forall j :: 0 <= j < k ==> Used(DirOf(fs, dp), j)
  {
    hide Sound, Marked, Shaped, DirIn;
    Table(fs);
    ghost var d := DirOf(fs, dp);
    off, k := 0, 0;
    while off < fs.table[dp].size
      invariant off == DIRENT * k && fs.Valid() && Untouched(fs) && DirOf(fs, dp) == d && k <= |d|
      invariant forall j :: 0 <= j < k ==> Used(d, j)
    {
      var ok, de := ReadEntry(fs, dp, off, k);
      if de.inum == 0 {
        break;
      }
      off, k := off + DIRENT, k + 1;
    }
  }

  // ---- writing an entry ----

  lemma StoredEntry(sb: Superblock, v: Volume, w: Volume, dp: nat, k: nat, b: seq<Byte>)
    requires Stored(sb, v, w, dp, DIRENT * k, b) && |b| == DIRENT && v.table[dp].size % DIRENT == 0
    ensures Entries(Content(sb, w, dp)) == Put(Entries(Content(sb, v, dp)), k, Decode(b))
    ensures w.table[dp].size % DIRENT == 0 && w.table[dp].typ == v.table[dp].typ
    ensures forall j :: 0 <= j < sb.ninodes && j != dp ==>
              w.table[j] == v.table[j] && Content(sb, w, j) == Content(sb, v, j)
  {
    hide Content, Splice, Entries, Put, Decode;
    SpliceEntry(Content(sb, v, dp), k, b);
  }

  lemma StoredNothing(sb: Superblock, v: Volume, w: Volume, dp: nat, off: nat)
    requires Stored(sb, v, w, dp, off, [])
    ensures Content(sb, w, dp) == Content(sb, v, dp) && w.table[dp].typ == v.table[dp].typ
    ensures forall j :: 0 <= j < sb.ninodes && j != dp ==>
              w.table[j] == v.table[j] && Content(sb, w, j) == Content(sb, v, j)
  {
    hide Content;
  }

  /** No file but dp has changed. */
  twostate predicate Others(fs: FileSystem, dp: nat)
    requires old(fs.Valid()) && fs.Valid()
    reads fs
  {
    forall j :: 0 <= j < fs.sb.ninodes && j != dp ==> fs.table[j].typ == old(fs.table[j].typ) && DirOf(fs, j) == old(DirOf(fs, j))
  }

  /** No entry crosses a block boundary. */
  lemma EntryInBlock(k: nat)
    ensures DIRENT * k % BSIZE + DIRENT <= BSIZE
  {
    assert DIRENT * k % BSIZE == DIRENT * (k % (BSIZE / DIRENT));
  }

  /** One more entry fits: the file may be longer, and the blocks that takes are free. */
  ghost predicate CanGrow(fs: FileSystem, dp: nat)
    requires fs.Valid() && dp < fs.sb.ninodes
    reads fs
  {
    var size := fs.table[dp].size;
    size + DIRENT <= MAXBYTES && !Stuck(fs.sb, fs.Vol(), fs.owner, dp, size / BSIZE)
  }

  /** writei of entry k, which may be just past the end: all of it or nothing, because
      no entry crosses a block boundary. Inside the file it does not fail; past the end
      it fails exactly when the file cannot grow. */
  method WriteEntry(fs: FileSystem, dp: nat, off: nat, e: Dirent, ghost k: nat) returns (ok: bool)
    requires fs.Valid() && dp < fs.sb.ninodes && fs.table[dp].typ != 0 && |fs.dinodes| == fs.sb.ninodes
    requires off == DIRENT * k <= fs.table[dp].size && fs.table[dp].size % DIRENT == 0
    requires e.inum < USHORT_LIMIT && Field(e.name)
    modifies fs
    ensures fs.Valid() && |fs.dinodes| == fs.sb.ninodes && Others(fs, dp) && fs.table[dp].typ == old(fs.table[dp].typ)
    ensures ok ==> DirOf(fs, dp) == Put(old(DirOf(fs, dp)), k, e) && fs.table[dp].size % DIRENT == 0
    ensures !ok ==> DirOf(fs, dp) == old(DirOf(fs, dp)) && fs.table[dp].size == old(fs.table[dp].size) == off
    ensures off == old(fs.table[dp].size) ==> (ok <==> old(CanGrow(fs, dp)))
  {
    hide Sound, Marked, Shaped, Stored, StoredPart, Cut, Encode, Decode, Put, Entries, Content, FileSystem.Full, Stuck,
      Reached, Upto, Spills, LogsAll, LogsBut, Named;
    Table(fs);
    EntryRoundTrip(e, Encode(e));
    ghost var v := fs.Vol();
    EntryInBlock(k);
    var r;
    ghost var stored;
    r, stored := fs.Writei(dp, Encode(e), off, DIRENT);
    ok := r == DIRENT;
    Table(fs);
    if r != -1 {
      NeverCut(off, DIRENT, r);
      StoredWhole(fs.sb, v, fs.Vol(), dp, off, Encode(e)[..r]);
    }
    if ok {
      assert Encode(e)[..r] == Encode(e);
      StoredEntry(fs.sb, v, fs.Vol(), dp, k, Encode(e));
    } else if r != -1 {
      assert (off + r) % BSIZE == 0 && off % DIRENT == 0;
      assert r == 0 && Encode(e)[..r] == [];
      StoredNothing(fs.sb, v, fs.Vol(), dp, off);
    }
  }

  /** A new entry whose inode number is cut to 16 bits names the inode exactly if that
      changes nothing. */
  lemma PutCut(d: seq<Dirent>, k: nat, inum: nat, field: seq<Byte>, g: seq<Dirent>)
    requires DirOk(d) && k <= |d| && !Used(d, k) && Field(field) && inum > 0
    requires g == Put(d, k, Dirent(inum % USHORT_LIMIT, field)) && !Listed(d, Trim(field))
    ensures DirOk(g) && (DirMap(g) == DirMap(d)[Trim(field) := inum] <==> inum < USHORT_LIMIT)
  {
    hide Trim, DirMap, DirOk;
    if inum % USHORT_LIMIT != 0 {
      PutKeeps(d, k, Dirent(inum % USHORT_LIMIT, field), g);
      assert inum >= USHORT_LIMIT ==> DirMap(g)[Trim(field)] != inum;
    } else {
      PutUnused(d, k, Dirent(0, field), g);
      DirMapAt(d, Trim(field));
    }
  }

  /** An entry with inode number 0 is no entry. */
  lemma PutUnused(d: seq<Dirent>, k: nat, e: Dirent, g: seq<Dirent>)
    requires DirOk(d) && k <= |d| && !Used(d, k) && Field(e.name) && e.inum == 0 && g == Put(d, k, e)
    ensures DirOk(g) && DirMap(g) == DirMap(d)
  {
    hide Trim, DirMap;
    assert forall j :: Used(g, j) <==> Used(d, j);
    forall key
      ensures key in DirMap(g) <==> key in DirMap(d)
      ensures key in DirMap(g) ==> DirMap(g)[key] == DirMap(d)[key]
    {
      DirMapAt(g, key);
      DirMapAt(d, key);
      assert forall j :: Holds(g, key, j) <==> Holds(d, key, j);
    }
  }

  datatype Outcome = Done | Failed | Panic

  /** dirlink on the volume refines DirLink on entries: with d the entries before, the
      name must not be there; the first unused entry, or one more at the end, then holds
      it and the inode number cut to 16 bits. It fails, leaving every directory as it was,
      exactly if the name is there, or if no entry is unused and the directory cannot
      grow: it is of maximal length, or too few blocks are free. */
  method LinkAt(fs: FileSystem, dp: nat, name: seq<Byte>, inum: nat) returns (r: Outcome, ghost k: nat)
    requires fs.Valid() && dp < fs.sb.ninodes && fs.table[dp].typ != 0 && |fs.dinodes| == fs.sb.ninodes && Field(name)
    modifies fs
    ensures fs.Valid() && |fs.dinodes| == fs.sb.ninodes && Others(fs, dp) && fs.table[dp].typ == old(fs.table[dp].typ)
    ensures r.Panic? <==> old(fs.table[dp].typ) != T_DIR ||
                          (!Listed(old(DirOf(fs, dp)), Trim(name)) && old(fs.table[dp].size) % DIRENT != 0)
    ensures !r.Panic? ==>
              (r.Done? <==> !Listed(old(DirOf(fs, dp)), Trim(name)) &&
                            (old(CanGrow(fs, dp)) || exists j :: 0 <= j < |old(DirOf(fs, dp))| && !Used(old(DirOf(fs, dp)), j)))
    ensures r.Done? ==>
              && k <= |old(DirOf(fs, dp))| && !Used(old(DirOf(fs, dp)), k)
              && (forall j :: 0 <= j < k ==> Used(old(DirOf(fs, dp)), j))
              && k < |DirOf(fs, dp)| && DirOf(fs, dp) == Put(old(DirOf(fs, dp)), k, DirOf(fs, dp)[k])
              && DirOf(fs, dp)[k].inum == inum % USHORT_LIMIT && Trim(DirOf(fs, dp)[k].name) == Trim(name)
              && fs.table[dp].size % DIRENT == 0
    ensures !r.Done? ==> DirOf(fs, dp) == old(DirOf(fs, dp)) && fs.table[dp].size == old(fs.table[dp].size)
    ensures r.Done? && DirOk(old(DirOf(fs, dp))) && inum > 0 ==>
              && DirOk(DirOf(fs, dp))
              && (DirMap(DirOf(fs, dp)) == DirMap(old(DirOf(fs, dp)))[Trim(name) := inum] <==> inum < USHORT_LIMIT)
  {
    hide Trim, Sound, Marked, Shaped, DirIn, FileSystem.Full, DirOk, DirMap, Listed, Holds, Stuck;
    var there;
    there, k := LookupAt(fs, dp, name);
    if there.Panicked? {
      return Panic, k;
    }
    if there.Found? {
      return Failed, k;
    }
    var off;
    off, k := FirstUnused(fs, dp);
    var field := CopyName(name);
    var ok := WriteEntry(fs, dp, off, Dirent(inum % USHORT_LIMIT, field), k);
    if !ok {
      return Failed, k;
    }
    if DirOk(old(DirOf(fs, dp))) && inum > 0 {
      PutCut(old(DirOf(fs, dp)), k, inum, field, DirOf(fs, dp));
    }
    r := Done;
  }

  /** unlink's erasure of the entry that dirlookup found: writei's panic is out of reach,
      and the map loses exactly the name. */
  method EraseAt(fs: FileSystem, dp: nat, off: nat, ghost k: nat) returns (r: Outcome)
    requires fs.Valid() && dp < fs.sb.ninodes && fs.table[dp].typ != 0 && |fs.dinodes| == fs.sb.ninodes
    requires fs.table[dp].size % DIRENT == 0 && off == DIRENT * k && Used(DirOf(fs, dp), k)
    modifies fs
    ensures fs.Valid() && |fs.dinodes| == fs.sb.ninodes && Others(fs, dp) && r.Done?
    ensures k < |old(DirOf(fs, dp))| && DirOf(fs, dp) == old(DirOf(fs, dp))[k := Erased()]
    ensures DirOk(old(DirOf(fs, dp))) ==>
              && DirOk(DirOf(fs, dp))
              && DirMap(DirOf(fs, dp)) == DirMap(old(DirOf(fs, dp))) - {Trim(old(DirOf(fs, dp))[k].name)}
  {
    hide Trim, Sound, Marked, Shaped, DirIn, FileSystem.Full, DirMap;
    ghost var d := DirOf(fs, dp);
    var ok := WriteEntry(fs, dp, off, Erased(), k);
    if DirOk(d) {
      EraseKeeps(d, k, DirOf(fs, dp));
    }
    r := if ok then Done else Panic;
  }

  /** isdirempty: nothing past the first two entries is in use. None is the panic, for a
      directory that ends inside an entry, which it meets if no whole one is in use. */
  method EmptyAt(fs: FileSystem, dp: nat) returns (r: Option<bool>)
    requires fs.Valid() && dp < fs.sb.ninodes && fs.table[dp].typ != 0
    modifies fs
    ensures fs.Valid() && Untouched(fs) && DirOf(fs, dp) == old(DirOf(fs, dp))
    ensures var empty := forall j :: 2 <= j < |DirOf(fs, dp)| ==> !Used(DirOf(fs, dp), j);
            r == if empty && fs.table[dp].size > 2 * DIRENT && fs.table[dp].size % DIRENT != 0 then None else Some(empty)
  {
    hide Sound, Marked, Shaped, DirIn;
    Table(fs);
    ghost var d, k := DirOf(fs, dp), 2;
    var off := 2 * DIRENT;
    while off < fs.table[dp].size
      invariant off == DIRENT * k && fs.Valid() && Untouched(fs) && DirOf(fs, dp) == d && k >= 2
      invariant k > 2 ==> k <= |d|
      invariant forall j :: 2 <= j < k && j < |d| ==> !Used(d, j)
    {
      var ok, de := ReadEntry(fs, dp, off, k);
      if !ok {
        return None;
      }
      if de.inum != 0 {
        assert Used(d, k);
        return Some(false);
      }
      off, k := off + DIRENT, k + 1;
    }
    return Some(true);
  }
}
