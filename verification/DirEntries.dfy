/** Directories as sequences of entries (kernel/fs.c): name comparison and copying,
    dirlookup and dirlink, and the finite map from names to inode numbers that a
    directory stands for. */
module DirEntries {
  import opened Basics

  const DIRSIZ := 14

  // Inode types (kernel/stat.h).
  const T_DIR := 1
  const T_FILE := 2
  const T_DEVICE := 3

  /** An entry; inum 0 marks it unused. */
  datatype Dirent = Dirent(inum: nat, name: seq<Byte>)

  /** A DIRSIZ-byte name field. */
  predicate Field(name: seq<Byte>) {
    |name| == DIRSIZ
  }

  /** The name in a field: the bytes before the first NUL. */
  function Trim(name: seq<Byte>): (r: seq<Byte>)
    ensures |r| <= |name| && r == name[..|r|] && (forall k :: 0 <= k < |r| ==> r[k] != 0)
    ensures |r| < |name| ==> name[|r|] == 0
  {
    if name == [] || name[0] == 0 then [] else [name[0]] + Trim(name[1..])
  }

  lemma {:induction false} TrimIs(name: seq<Byte>, n: nat)
    requires n <= |name| && (forall k :: 0 <= k < n ==> name[k] != 0) && (n < |name| ==> name[n] == 0)
    ensures Trim(name) == name[..n]
  {
    if n > 0 {
      var rest := name[1..];
      forall k | 0 <= k < n - 1
        ensures rest[k] != 0
      {
        assert rest[k] == name[k + 1];
      }
      TrimIs(rest, n - 1);
      assert name[..n] == [name[0]] + rest[..n - 1];
    }
  }

  /** strncmp over DIRSIZ bytes, as namecmp uses it: do the fields hold the same
      name? */
  method NameEq(p: seq<Byte>, q: seq<Byte>) returns (eq: bool)
    requires Field(p) && Field(q)
    ensures eq <==> Trim(p) == Trim(q)
  {
    var i := 0;
    while i < DIRSIZ && p[i] != 0 && p[i] == q[i]
      invariant 0 <= i <= DIRSIZ
      invariant forall k :: 0 <= k < i ==> p[k] == q[k] != 0
    {
      i := i + 1;
    }
    eq := i == DIRSIZ || p[i] == q[i];
  }

  /** strncpy over DIRSIZ bytes: the name, then NULs. */
  method CopyName(t: seq<Byte>) returns (s: seq<Byte>)
    requires Field(t)
    ensures Field(s) && Trim(s) == Trim(t) && forall k :: |Trim(t)| <= k < DIRSIZ ==> s[k] == 0
  {
    s := [];
    var i := 0;
    while i < DIRSIZ && t[i] != 0
      invariant 0 <= i <= DIRSIZ && s == t[..i] && forall k :: 0 <= k < i ==> t[k] != 0
    {
      s := s + [t[i]];
      i := i + 1;
    }
    TrimIs(t, i);
    ghost var n := i;
    while i < DIRSIZ
      invariant n <= i <= DIRSIZ && |s| == i && s[..n] == t[..n]
      invariant forall k :: n <= k < i ==> s[k] == 0
      invariant forall k :: 0 <= k < n ==> s[k] != 0
    {
      s := s + [0];
      i := i + 1;
    }
    TrimIs(s, n);
  }

  ghost predicate Used(d: seq<Dirent>, k: int) {
    0 <= k < |d| && d[k].inum != 0
  }

  /** Names fill their fields, and no two entries in use have the same name. */
  ghost predicate DirOk(d: seq<Dirent>) {
    && (forall k :: 0 <= k < |d| ==> Field(d[k].name))
    && (forall j, k :: Used(d, j) && Used(d, k) && Trim(d[j].name) == Trim(d[k].name) ==> j == k)
  }

  /** The finite map that the directory stands for. */
  ghost function DirMap(d: seq<Dirent>): map<seq<Byte>, nat>
    requires DirOk(d)
  {
    map k | 0 <= k < |d| && Used(d, k) :: Trim(d[k].name) := d[k].inum
  }

  ghost predicate Holds(d: seq<Dirent>, key: seq<Byte>, k: int) {
    Used(d, k) && Trim(d[k].name) == key
  }

  lemma DirMapAt(d: seq<Dirent>, key: seq<Byte>)
    requires DirOk(d)
    ensures key in DirMap(d) <==> exists k :: Holds(d, key, k)
    ensures forall k :: Holds(d, key, k) ==> DirMap(d)[key] == d[k].inum
  {
    if k :| Holds(d, key, k) {
      assert key in DirMap(d);
    }
    if key in DirMap(d) {
      var k :| 0 <= k < |d| && Used(d, k) && Trim(d[k].name) == key;
      assert Holds(d, key, k);
    }
  }

  /** dirlookup: the map's answer, with the entry's index. */
  method DirLookup(d: seq<Dirent>, name: seq<Byte>) returns (r: Option<nat>)
    requires DirOk(d) && Field(name)
    ensures r.Some? ==> Holds(d, Trim(name), r.value)
    ensures r.Some? ==> Trim(name) in DirMap(d) && DirMap(d)[Trim(name)] == d[r.value].inum
    ensures r.None? ==> Trim(name) !in DirMap(d) && forall k :: !Holds(d, Trim(name), k)
  {
    DirMapAt(d, Trim(name));
    var off := 0;
    while off < |d|
      invariant 0 <= off <= |d|
      invariant forall k :: 0 <= k < off ==> !Holds(d, Trim(name), k)
    {
      if d[off].inum != 0 {
        var eq := NameEq(name, d[off].name);
        if eq {
          return Some(off);
        }
      }
      off := off + 1;
    }
    return None;
  }

  /** Entry k becomes e; k may be just past the end. */
  ghost function Put(d: seq<Dirent>, k: nat, e: Dirent): seq<Dirent>
    requires k <= |d|
  {
    if k < |d| then d[k := e] else d + [e]
  }

  lemma PutOk(d: seq<Dirent>, k: nat, e: Dirent, g: seq<Dirent>)
    requires DirOk(d) && k <= |d| && !Used(d, k) && Field(e.name) && g == Put(d, k, e)
    requires e.inum != 0 && forall j :: !Holds(d, Trim(e.name), j)
    ensures DirOk(g)
  {
    hide Trim;
    forall i, j | Used(g, i) && Used(g, j) && Trim(g[i].name) == Trim(g[j].name) ensures i == j {
      assert !Holds(d, Trim(e.name), i) && !Holds(d, Trim(e.name), j);
      assert (i != k ==> Used(d, i)) && (j != k ==> Used(d, j));
    }
  }

  lemma PutHolds(d: seq<Dirent>, k: nat, e: Dirent, g: seq<Dirent>, key: seq<Byte>, j: int)
    requires k <= |d| && g == Put(d, k, e) && e.inum != 0
    ensures Holds(g, key, j) <==> if j == k then key == Trim(e.name) else Holds(d, key, j)
  {
    hide Trim;
  }

  /** Adding an entry adds its name to the map. */
  lemma PutKeeps(d: seq<Dirent>, k: nat, e: Dirent, g: seq<Dirent>)
    requires DirOk(d) && k <= |d| && !Used(d, k) && Field(e.name) && g == Put(d, k, e)
    requires e.inum != 0 && forall j :: !Holds(d, Trim(e.name), j)
    ensures DirOk(g) && DirMap(g) == DirMap(d)[Trim(e.name) := e.inum]
  {
    hide Trim, DirMap;
    PutOk(d, k, e, g);
    forall key ensures key in DirMap(g) <==> key == Trim(e.name) || key in DirMap(d)
      ensures key in DirMap(g) ==> DirMap(g)[key] == DirMap(d)[Trim(e.name) := e.inum][key]
    {
      DirMapAt(g, key);
      DirMapAt(d, key);
      PutHolds(d, k, e, g, key, k);
      forall j ensures Holds(g, key, j) <==> if j == k then key == Trim(e.name) else Holds(d, key, j) {
        PutHolds(d, k, e, g, key, j);
      }
      if key in DirMap(g) {
        var j :| Holds(g, key, j);
        assert j != k ==> Holds(d, key, j) && g[j] == d[j];
      }
    }
  }

  function Erased(): (e: Dirent)
    ensures Field(e.name)
  {
    Dirent(0, seq(DIRSIZ, _ => 0))
  }

  /** Erasing an entry takes its name out of the map. */
  lemma EraseKeeps(d: seq<Dirent>, k: nat, g: seq<Dirent>)
    requires DirOk(d) && Used(d, k) && g == d[k := Erased()]
    ensures DirOk(g) && DirMap(g) == DirMap(d) - {Trim(d[k].name)}
  {
    hide Trim, DirMap;
    forall j ensures Used(g, j) <==> j != k && Used(d, j) {
    }
    forall key ensures key in DirMap(g) <==> key != Trim(d[k].name) && key in DirMap(d)
      ensures key in DirMap(g) ==> DirMap(g)[key] == DirMap(d)[key]
    {
      DirMapAt(g, key);
      DirMapAt(d, key);
      if key in DirMap(g) {
        var j :| Holds(g, key, j);
        assert Holds(d, key, j);
      }
      if key in DirMap(d) && key != Trim(d[k].name) {
        var j :| Holds(d, key, j);
        assert Holds(g, key, j);
      }
    }
  }

  /** The first unused entry, or the end. */
  method FindFree(d: seq<Dirent>) returns (k: nat)
    ensures k <= |d| && !Used(d, k) && forall j :: 0 <= j < k ==> Used(d, j)
  {
    k := 0;
    while k < |d|
      invariant 0 <= k <= |d| && forall j :: 0 <= j < k ==> Used(d, j)
    {
      if d[k].inum == 0 {
        break;
      }
      k := k + 1;
    }
  }

  /** dirlink: add the name to the map. It fails, changing nothing, if the name is
      there already, or if the directory must grow and there is no room. */
  method DirLink(d: seq<Dirent>, name: seq<Byte>, inum: nat, room: bool) returns (ok: bool, g: seq<Dirent>, ghost k: nat)
    requires DirOk(d) && Field(name) && inum != 0
    ensures ok <==> Trim(name) !in DirMap(d) && (room || exists j :: 0 <= j < |d| && !Used(d, j))
    ensures !ok ==> g == d
    ensures ok ==> DirOk(g) && DirMap(g) == DirMap(d)[Trim(name) := inum]
    ensures ok ==> k <= |d| && !Used(d, k) && (forall j :: 0 <= j < k ==> Used(d, j))
    ensures ok ==> |g| >= |d| && k < |g| && g == Put(d, k, g[k]) && g[k].inum == inum && Trim(g[k].name) == Trim(name)
  {
    k := 0;
    var there := DirLookup(d, name);
    if there.Some? {
      return false, d, 0;
    }
    var off := FindFree(d);
    k := off;
    if off == |d| && !room {
      return false, d, 0;
    }
    var field := CopyName(name);
    var e := Dirent(inum, field);
    g := if off < |d| then d[off := e] else d + [e];
    PutKeeps(d, off, e, g);
    ok := true;
  }

  /** isdirempty: nothing but the first two entries is in use. */
  method IsDirEmpty(d: seq<Dirent>) returns (empty: bool)
    ensures empty <==> forall k :: 2 <= k < |d| ==> !Used(d, k)
  {
    var off := 2;
    while off < |d|
      invariant 2 <= off && forall k :: 2 <= k < off && k < |d| ==> !Used(d, k)
    {
      if d[off].inum != 0 {
        assert Used(d, off);
        return false;
      }
      off := off + 1;
    }
    return true;
  }
}
