/** sys_link, sys_unlink and create (kernel/sysfile.c) once the paths are resolved:
    dp is the directory that nameiparent found and name its last element. */
module DirCode {
  import opened Basics
  import opened DirEntries
  import opened DirTree

  /** A string of fewer than DIRSIZ bytes in a name field. */
  function Filled(name: seq<Byte>): (r: seq<Byte>)
    requires |name| < DIRSIZ
    ensures Field(r) && ((forall k :: 0 <= k < |name| ==> name[k] != 0) ==> Trim(r) == name)
  {
    var r := name + seq(DIRSIZ - |name|, _ => 0);
    assert (forall k :: 0 <= k < |name| ==> name[k] != 0) ==> Trim(r) == name by {
      if forall k :: 0 <= k < |name| ==> name[k] != 0 {
        TrimIs(r, |name|);
        assert r[..|name|] == name;
      }
    }
    r
  }

  /** The directory's map gains key, naming i. */
  ghost predicate Gains(d: seq<Dirent>, g: seq<Dirent>, key: seq<Byte>, i: nat) {
    DirOk(d) && DirOk(g) && key !in DirMap(d) && DirMap(g) == DirMap(d)[key := i]
  }

  ghost predicate Loses(d: seq<Dirent>, g: seq<Dirent>, key: seq<Byte>) {
    DirOk(d) && DirOk(g) && key in DirMap(d) && DirMap(g) == DirMap(d) - {key}
  }

  lemma ShortBack(x: int)
    requires 0 <= x <= SHORT_MAX
    ensures Short(Short(x + 1) - 1) == x
  {
  }

  lemma FirstFree(t: Tree, dp: int, k: nat)
    requires Shaped(t) && 0 < dp < |t.typ| && DirAt(t, dp) && !Used(t.dirs[dp], k)
    ensures k >= 2
  {
    assert Used(t.dirs[dp], 0) && Used(t.dirs[dp], 1);
  }

  lemma DirHere(t: Tree, dp: int)
    requires Ok(t) && 0 < dp < |t.typ| && t.typ[dp] == T_DIR
    ensures Shaped(t) && DirAt(t, dp)
  {
  }

  /** What create finds when ialloc gives it inode i. */
  lemma SpareInode(t: Tree, dp: int, i: int)
    requires Ok(t) && 0 < dp < |t.typ| && t.typ[dp] == T_DIR && 0 < i < |t.typ| && t.typ[i] == 0
    ensures Shaped(t) && DirAt(t, dp) && t.nlink[i] == 0 && t.dirs[i] == []
  {
    NoLinks(t, i);
  }

  /** Entry k of directory dp has the name, and is of a file or a device. */
  ghost predicate NamesFile(t: Tree, dp: nat, name: seq<Byte>, k: int) {
    && dp < |t.dirs| && Holds(t.dirs[dp], name, k) && t.dirs[dp][k].inum < |t.typ|
    && (t.typ[t.dirs[dp][k].inum] == T_FILE || t.typ[t.dirs[dp][k].inum] == T_DEVICE)
  }

  /** A name has one entry. */
  lemma OnlyFile(t: Tree, dp: nat, name: seq<Byte>, k: int)
    requires Shaped(t) && 0 < dp < |t.typ| && DirAt(t, dp) && Holds(t.dirs[dp], name, k)
    ensures t.dirs[dp][k].inum < |t.typ| && forall j :: NamesFile(t, dp, name, j) ==> j == k
  {
  }

  class Namespace {
    var typ: seq<nat>
    var nlink: seq<int>
    var dirs: seq<seq<Dirent>>

    ghost function T(): Tree
      reads this
    {
      Tree(typ, nlink, dirs)
    }

    ghost predicate IsDir(d: int)
      reads this
    {
      0 < d < |typ| && typ[d] == T_DIR
    }

    /** dirlink in directory dp, which is as it was in the tree t. */
    method EnterName(dp: nat, name: seq<Byte>, i: nat, room: bool, ghost t: Tree)
      returns (ok: bool, ghost at: nat, ghost e: Dirent)
      requires Shaped(t) && |dirs| == |t.typ| && 0 < dp < |dirs| && dirs[dp] == t.dirs[dp] && t.typ[dp] == T_DIR
      requires DirAt(t, dp) && 0 < i < |t.typ| && Field(name)
      modifies `dirs
      ensures ok <==> CanEnter(t.dirs[dp], Trim(name), room)
      ensures !ok ==> dirs == old(dirs)
      ensures ok ==> Enterable(t, dp, at, e) && e.inum == i && dirs == old(dirs)[dp := Put(t.dirs[dp], at, e)]
      ensures ok ==> Gains(t.dirs[dp], dirs[dp], Trim(name), i)
    {
      hide DirMap, Trim;
      var g;
      ok, g, at := DirLink(dirs[dp], name, i, room);
      e := Erased();
      if ok {
        e := g[at];
        FirstFree(t, dp, at);
        Entered(t, dp, at, g, name);
        dirs := dirs[dp := g];
      }
    }

    /** sys_link of ip: on success the name is in the directory, and the counts are
        right exactly if the directory still has a link and the count has room; on
        failure nothing has changed. */
    method Link(ip: nat, dp: Option<nat>, name: seq<Byte>, room: bool) returns (ok: bool)
      requires Ok(T()) && 0 < ip < |typ| && typ[ip] != 0 && Field(name)
      requires dp.Some? ==> IsDir(dp.value)
      modifies this
      ensures ok <==> dp.Some? && old(typ[ip]) != T_DIR && old(CanEnter(dirs[dp.value], Trim(name), room))
      ensures !ok ==> T() == old(T())
      ensures ok ==> typ == old(typ) && nlink == old(nlink)[ip := Short(old(nlink[ip]) + 1)]
      ensures ok ==> |dirs| == old(|dirs|) && Gains(old(dirs[dp.value]), dirs[dp.value], Trim(name), ip)
      ensures ok ==> forall d :: 0 <= d < |dirs| && d != dp.value ==> dirs[d] == old(dirs[d])
      ensures ok ==> (Ok(T()) <==> old(Linked(T(), dp.value)) && old(nlink[ip]) < SHORT_MAX)
    {
      hide Counted, DirMap, HasParent, ChildAt, Names, Refs, Trim, DirAt, Gains, CanEnter, Put;
      if typ[ip] == T_DIR {
        return false;
      }
      ghost var t := T();
      NoLinks(t, ip);
      ShortBack(nlink[ip]);
      nlink := nlink[ip := Short(nlink[ip] + 1)];
      ok := false;
      if dp.Some? {
        ghost var at, e;
        ok, at, e := EnterName(dp.value, name, ip, room, t);
        if ok {
          AddLinkIff(t, dp.value, at, e, T());
          return;
        }
      }
      nlink := nlink[ip := Short(nlink[ip] - 1)];
    }

    /** sys_unlink: "." and ".." stay, and so does a directory with entries; otherwise
        the name goes. The counts stay right either way. */
    method Unlink(dp: nat, name: seq<Byte>) returns (ok: bool, ghost i: nat)
      requires Ok(T()) && IsDir(dp) && Field(name)
      modifies this
      ensures Ok(T()) && (!ok ==> T() == old(T()))
      ensures ok <==> old(Removable(T(), dp, Trim(name)))
      ensures ok ==> typ == old(typ) && |dirs| == old(|dirs|) && Loses(old(dirs[dp]), dirs[dp], Trim(name))
      ensures ok ==> i == DirMap(old(dirs[dp]))[Trim(name)] && 0 < i < |typ| && nlink == old(Fewer(T(), dp, i))
      ensures ok ==> forall d :: 0 <= d < |dirs| && d != dp ==> dirs[d] == old(dirs[d])
    {
      hide Counted, Wellformed, DirMap, Trim, DirOk;
      ghost var t := T();
      i := 0;
      DirHere(t, dp);
      var dot := NameEq(name, Filled(DOT));
      var dotdot := NameEq(name, Filled(DOTDOT));
      if dot || dotdot {
        return false, i;
      }
      var off := DirLookup(dirs[dp], name);
      if off.None? {
        return false, i;
      }
      var k := off.value;
      var ip := dirs[dp][k].inum;
      i := ip;
      PastDots(t, dp, k, Trim(name));
      if typ[ip] == T_DIR {
        var empty := IsDirEmpty(dirs[ip]);
        if !empty {
          return false, i;
        }
      }
      EraseKeeps(dirs[dp], k, dirs[dp][k := Erased()]);
      dirs := dirs[dp := dirs[dp][k := Erased()]];
      if typ[ip] == T_DIR {
        nlink := nlink[dp := Short(nlink[dp] - 1)];
      }
      nlink := nlink[ip := Short(nlink[ip] - 1)];
      RemoveKeeps(t, dp, k, T());
      ok := true;
    }

    /** The "." and ".." of a new directory. */
    method MakeDots(i: nat, dp: nat, roomDot: bool, roomDotDot: bool) returns (ok: bool)
      requires 0 < i < |dirs| && dirs[i] == [] && dp > 0
      modifies `dirs
      ensures ok <==> roomDot && roomDotDot
      ensures |dirs| == old(|dirs|) && forall d :: 0 <= d < |dirs| && d != i ==> dirs[d] == old(dirs[d])
      ensures ok ==> NewDir(dirs[i], i, dp)
    {
      hide Trim;
      var g;
      ghost var at;
      ok, g, at := DirLink(dirs[i], Filled(DOT), i, roomDot);
      dirs := dirs[i := g];
      if !ok {
        return;
      }
      assert DirMap(dirs[i]) == map[DOT := i];
      ok, g, at := DirLink(dirs[i], Filled(DOTDOT), dp, roomDotDot);
      dirs := dirs[i := g];
    }

    /** create, from ialloc on: inode i becomes one of the type with one link, entered
        in dp. If that fails i is freed again. */
    method MakeInode(dp: nat, name: seq<Byte>, what: nat, i: nat, roomDot: bool, roomDotDot: bool, room: bool)
      returns (made: bool)
      requires Ok(T()) && IsDir(dp) && Field(name) && what in {T_DIR, T_FILE, T_DEVICE}
      requires 0 < i < |typ| && typ[i] == 0
      modifies this
      ensures made <==> old(CanEnter(dirs[dp], Trim(name), room)) && (what == T_DIR ==> roomDot && roomDotDot)
      ensures !made ==> T() == old(T())
      ensures made ==> typ == old(typ)[i := what] && nlink == old(More(T(), dp, i, what)) && |dirs| == old(|dirs|)
      ensures made ==> Gains(old(dirs[dp]), dirs[dp], Trim(name), i)
      ensures made && what == T_DIR ==> NewDir(dirs[i], i, dp)
      ensures made ==> forall d :: 0 <= d < |dirs| && d != dp && d != i ==> dirs[d] == old(dirs[d])
      ensures made ==> (Ok(T()) <==> old(Linked(T(), dp)) && (what == T_DIR ==> old(nlink[dp]) < SHORT_MAX))
    {
      hide Ok, Linked, DirMap, Trim, DirOk, Put, Gains, CanEnter, DirAt, NewDir, Enterable;
      ghost var t := T();
      SpareInode(t, dp, i);
      typ := typ[i := what];
      nlink := nlink[i := 1];
      made := true;
      if what == T_DIR {
        made := MakeDots(i, dp, roomDot, roomDotDot);
      }
      if made {
        ghost var at, e;
        made, at, e := EnterName(dp, name, i, room, t);
        if made {
          if what == T_DIR {
            nlink := nlink[dp := Short(nlink[dp] + 1)];
          }
          NewInode(t, dp, at, e, what, dirs[i], T());
          return;
        }
      }
      nlink := nlink[i := 0];
      typ := typ[i := 0];
      dirs := dirs[i := []];
    }

    /** create: an existing file or device is what T_FILE asks for, and exactly then the answer
        where the name exists; otherwise spare, ialloc's answer, becomes the new inode. The
        counts are right exactly if dp still has a link and, for a new directory, its count
        has room. On failure nothing has changed. */
    method Create(dp: nat, name: seq<Byte>, what: nat, spare: Option<nat>, roomDot: bool, roomDotDot: bool, room: bool)
      returns (r: Option<nat>, ghost made: bool)
      requires Ok(T()) && IsDir(dp) && Field(name) && what in {T_DIR, T_FILE, T_DEVICE}
      requires spare.Some? ==> 0 < spare.value < |typ| && typ[spare.value] == 0
      modifies this
      ensures made <==> spare.Some? && old(CanEnter(dirs[dp], Trim(name), room)) && (what == T_DIR ==> roomDot && roomDotDot)
      ensures !made ==> T() == old(T())
      ensures r.Some? <==> made || (what == T_FILE && exists k :: NamesFile(old(T()), dp, Trim(name), k))
      ensures !made && r.Some? ==>
                IsFile(T(), r.value) && exists k :: NamesFile(old(T()), dp, Trim(name), k) && old(dirs)[dp][k].inum == r.value
      ensures made ==> r == spare && typ == old(typ)[spare.value := what] && |dirs| == old(|dirs|)
      ensures made ==> nlink == old(More(T(), dp, spare.value, what))
      ensures made ==> Gains(old(dirs[dp]), dirs[dp], Trim(name), spare.value)
      ensures made && what == T_DIR ==> NewDir(dirs[spare.value], spare.value, dp)
      ensures made ==> forall d :: 0 <= d < |dirs| && d != dp && d != spare.value ==> dirs[d] == old(dirs[d])
      ensures made ==> (Ok(T()) <==> old(Linked(T(), dp)) && (what == T_DIR ==> old(nlink[dp]) < SHORT_MAX))
    {
      hide Counted, DirMap, HasParent, ChildAt, Names, Refs, Trim, DirOk, Put, Gains;
      assert DirAt(T(), dp);
      var off := DirLookup(dirs[dp], name);
      if off.Some? {
        var ip := dirs[dp][off.value].inum;
        OnlyFile(T(), dp, Trim(name), off.value);
        if what == T_FILE && (typ[ip] == T_FILE || typ[ip] == T_DEVICE) {
          assert NamesFile(T(), dp, Trim(name), off.value);
          return Some(ip), false;
        }
        return None, false;
      }
      if spare.None? {
        return None, false;
      }
      var ok := MakeInode(dp, name, what, spare.value, roomDot, roomDotDot, room);
      made := ok;
      r := if ok then spare else None;
    }

    /** iput of the last reference to an inode without links frees it. */
    method Iput(i: nat)
      requires Ok(T()) && 0 < i < |typ| && nlink[i] == 0
      modifies this
      ensures Ok(T()) && T() == Retype(old(T()), i, 0)
    {
      hide Counted, HasParent, ChildAt, Names, Refs, DirAt;
      RetypeKeeps(T(), i, 0, Retype(T(), i, 0));
      dirs := dirs[i := []];
      typ := typ[i := 0];
    }

    /** The tree that mkfs writes: the root directory alone. */
    constructor (n: nat)
      requires n > ROOTINO
      ensures Ok(T()) && |typ| == n && IsDir(ROOTINO) && nlink[ROOTINO] == 1
      ensures NewDir(dirs[ROOTINO], ROOTINO, ROOTINO) && forall i :: 0 <= i < n && i != ROOTINO ==> typ[i] == 0
    {
      var es := [Dirent(ROOTINO, Filled(DOT)), Dirent(ROOTINO, Filled(DOTDOT))];
      typ := seq(n, _ => 0)[ROOTINO := T_DIR];
      nlink := seq(n, _ => 0)[ROOTINO := 1];
      dirs := seq(n, _ => [])[ROOTINO := es];
      new;
      RootOnly(T(), es);
    }
  }

  ghost predicate RootTree(t: Tree, es: seq<Dirent>) {
    && Shaped(t) && NewDir(es, ROOTINO, ROOTINO)
    && t.typ == seq(|t.typ|, _ => 0)[ROOTINO := T_DIR]
    && t.nlink == seq(|t.typ|, _ => 0)[ROOTINO := 1]
    && t.dirs == seq(|t.typ|, _ => [])[ROOTINO := es]
  }

  lemma RootNames(t: Tree, es: seq<Dirent>, d: int, k: int, i: int)
    requires RootTree(t, es)
    ensures (Linked(t, d) <==> d == ROOTINO)
    ensures i != 0 ==> (Names(t, d, k, i) <==> i == ROOTINO && (d, k) == (ROOTINO, 1))
  {
    hide Trim, DirOk;
  }

  lemma RootOnly(t: Tree, es: seq<Dirent>)
    requires RootTree(t, es)
    ensures Ok(t)
  {
    hide Trim, DirOk, Names;
    forall d ensures Linked(t, d) <==> d == ROOTINO {
      RootNames(t, es, d, 0, 0);
    }
    forall i | 0 < i < |t.typ| ensures t.nlink[i] == |Refs(t, i)| {
      forall y ensures y in Refs(t, i) <==> i == ROOTINO && y == (ROOTINO, 1) {
        RefsAt(t, i, y.0, y.1);
        RootNames(t, es, y.0, y.1, i);
      }
      assert Refs(t, i) == if i == ROOTINO then {(ROOTINO, 1)} else {};
    }
  }

  /** The tree after create: a file, or a directory with entries es. */
  ghost function Created(t: Tree, dp: int, k: nat, e: Dirent, what: nat, es: seq<Dirent>): Tree
    requires Enterable(t, dp, k, e)
  {
    Tree(t.typ[e.inum := what], More(t, dp, e.inum, what), t.dirs[e.inum := es][dp := Put(t.dirs[dp], k, e)])
  }

  /** The counts with a new inode i in dp: one link for i, and one more for dp if i has a
      "..". */
  ghost function More(t: Tree, dp: int, i: int, what: nat): seq<int>
    requires Shaped(t) && 0 < dp < |t.typ| && 0 <= i < |t.typ|
  {
    if what == T_DIR then t.nlink[i := 1][dp := Short(t.nlink[dp] + 1)] else t.nlink[i := 1]
  }

  ghost predicate Creates(t: Tree, dp: int, k: nat, e: Dirent, what: nat, es: seq<Dirent>, u: Tree) {
    && Ok(t) && Enterable(t, dp, k, e) && t.typ[e.inum] == 0 && what != 0
    && (if what == T_DIR then NewDir(es, e.inum, dp) else es == [])
    && u == Created(t, dp, k, e, what, es)
  }

  lemma NewInode(t: Tree, dp: int, k: nat, e: Dirent, what: nat, es: seq<Dirent>, u: Tree)
    requires Creates(t, dp, k, e, what, es, u)
    ensures Ok(u) <==> Linked(t, dp) && (what == T_DIR ==> t.nlink[dp] < SHORT_MAX)
  {
    hide Counted, HasParent, ChildAt, Names, Refs, Trim, DirOk, Put, DirAt;
    if what == T_DIR {
      MakeDirIff(t, dp, k, e, es, u);
    } else {
      assert t.dirs[e.inum := es] == t.dirs;
      NewFile(t, dp, k, e, what, u);
    }
  }

  /** A new file is an inode retyped and then linked. */
  lemma NewFile(t: Tree, dp: int, k: nat, e: Dirent, what: nat, u: Tree)
    requires Ok(t) && Enterable(t, dp, k, e) && t.typ[e.inum] == 0 && what != 0 && what != T_DIR
    requires u == Tree(t.typ[e.inum := what], t.nlink[e.inum := 1], t.dirs[dp := Put(t.dirs[dp], k, e)])
    ensures Ok(u) <==> Linked(t, dp)
  {
    hide Counted, HasParent, ChildAt, Names, Refs, Trim, DirOk;
    NoLinks(t, e.inum);
    var v := Retype(t, e.inum, what);
    RetypeKeeps(t, e.inum, what, v);
    RetypeNames(t, e.inum, what, v, dp, 0, 0);
    assert v.dirs == t.dirs;
    AddLinkIff(v, dp, k, e, u);
  }

  /** What dirlink needs: a new name, and a free slot or room to grow. */
  ghost predicate CanEnter(d: seq<Dirent>, key: seq<Byte>, room: bool) {
    DirOk(d) && key !in DirMap(d) && (room || exists j :: 0 <= j < |d| && !Used(d, j))
  }

  /** What unlink needs: a name in the directory other than "." and "..", for a file or
      an empty directory. */
  ghost predicate Removable(t: Tree, dp: int, key: seq<Byte>)
    requires Shaped(t) && 0 < dp < |t.typ|
  {
    && key != DOT && key != DOTDOT
    && exists k :: Holds(t.dirs[dp], key, k) && 0 < t.dirs[dp][k].inum < |t.typ| && Emptied(t, t.dirs[dp][k].inum)
  }

  ghost predicate Emptied(t: Tree, i: int)
    requires Shaped(t) && 0 < i < |t.typ|
  {
    t.typ[i] == T_DIR ==> forall j :: 2 <= j < |t.dirs[i]| ==> !Used(t.dirs[i], j)
  }

  /** A name other than "." and ".." is found past them, in a directory that still has
      a link. */
  lemma PastDots(t: Tree, dp: int, k: int, key: seq<Byte>)
    requires Wellformed(t) && 0 < dp < |t.typ| && t.typ[dp] == T_DIR && Holds(t.dirs[dp], key, k)
    requires key != DOT && key != DOTDOT
    ensures k >= 2 && Linked(t, dp) && 0 < t.dirs[dp][k].inum < |t.typ|
    ensures forall j :: Holds(t.dirs[dp], key, j) ==> j == k
  {
    hide Trim, HasParent, ChildAt;
    assert DirAt(t, dp);
  }

  lemma Entered(t: Tree, dp: int, k: nat, g: seq<Dirent>, name: seq<Byte>)
    requires Shaped(t) && 0 < dp < |t.typ| && t.typ[dp] == T_DIR && DirAt(t, dp) && Field(name)
    requires 2 <= k <= |t.dirs[dp]| && !Used(t.dirs[dp], k) && k < |g| && g == Put(t.dirs[dp], k, g[k])
    requires DirOk(g) && 0 < g[k].inum < |t.typ| && Trim(g[k].name) == Trim(name) && Trim(name) !in DirMap(t.dirs[dp])
    ensures Enterable(t, dp, k, g[k])
  {
    hide Trim, DirMap;
    DirMapAt(t.dirs[dp], Trim(name));
  }
}
