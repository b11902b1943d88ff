/** Inode link counts and the directory tree, as values (kernel/sysfile.c). */
module DirTree {
  import opened Basics
  import opened DirEntries

  const ROOTINO := 1
  const SHORT_MAX := 32767

  const DOT: seq<Byte> := [46]
  const DOTDOT: seq<Byte> := [46, 46]

  /** Type, link count and, for a directory, entries of every inode; type 0 is free. */
  datatype Tree = Tree(typ: seq<nat>, nlink: seq<int>, dirs: seq<seq<Dirent>>)

  ghost predicate Shaped(t: Tree) {
    |t.nlink| == |t.dirs| == |t.typ| && ROOTINO < |t.typ|
  }

  /** A directory that still has a link. */
  ghost predicate Linked(t: Tree, d: int)
    requires Shaped(t)
  {
    0 < d < |t.typ| && t.typ[d] == T_DIR && t.nlink[d] > 0
  }

  /** Entry k of directory d is in use, is not ".", names i, and d still has a link. */
  ghost predicate Names(t: Tree, d: int, k: int, i: int)
    requires Shaped(t)
  {
    Linked(t, d) && Used(t.dirs[d], k) && t.dirs[d][k].inum == i && Trim(t.dirs[d][k].name) != DOT
  }

  ghost function Refs(t: Tree, i: int): set<(int, int)>
    requires Shaped(t)
  {
    set d, k | 0 <= d < |t.dirs| && 0 <= k < |t.dirs[d]| && Names(t, d, k, i) :: (d, k)
  }

  /** Every link count is the number of entries other than "." that name the inode in
      directories that still have a link. */
  ghost predicate Counted(t: Tree)
    requires Shaped(t)
  {
    forall i :: 0 < i < |t.typ| ==> t.nlink[i] == |Refs(t, i)|
  }

  /** "." and ".." come first; a directory without a link holds nothing else. */
  ghost predicate DirAt(t: Tree, d: int)
    requires Shaped(t) && 0 < d < |t.typ|
  {
    var es := t.dirs[d];
    && DirOk(es) && |es| >= 2
    && es[0].inum == d && Trim(es[0].name) == DOT
    && 0 < es[1].inum < |t.typ| && Trim(es[1].name) == DOTDOT && (d == ROOTINO || es[1].inum != d)
    && (forall k :: Used(es, k) ==> es[k].inum < |t.typ|)
    && (t.nlink[d] <= 0 ==> forall k :: 2 <= k < |es| ==> !Used(es, k))
  }

  /** Directory e has ".." naming a linked directory that has an entry for e. */
  ghost predicate HasParent(t: Tree, e: int)
    requires Shaped(t) && 0 < e < |t.typ|
  {
    && |t.dirs[e]| >= 2 && Linked(t, t.dirs[e][1].inum)
    && (if e == ROOTINO then t.dirs[e][1].inum == e
        else exists k :: k >= 2 && Names(t, t.dirs[e][1].inum, k, e))
  }

  /** Past "." and "..", only its parent names a directory, and in one entry. */
  ghost predicate ChildAt(t: Tree, d: int, k: int)
    requires Shaped(t) && Linked(t, d) && Used(t.dirs[d], k)
  {
    var e := t.dirs[d][k].inum;
    0 < e < |t.typ| && t.typ[e] == T_DIR ==>
      && e != d && e != ROOTINO && Linked(t, e)
      && |t.dirs[e]| >= 2 && t.dirs[e][1].inum == d
      && forall j :: j >= 2 && Used(t.dirs[d], j) && t.dirs[d][j].inum == e ==> j == k
  }

  ghost predicate Wellformed(t: Tree) {
    && Shaped(t) && Linked(t, ROOTINO)
    && (forall d {:trigger DirAt(t, d)} :: 0 < d < |t.typ| && t.typ[d] == T_DIR ==> DirAt(t, d))
    && (forall e {:trigger HasParent(t, e)} :: Linked(t, e) ==> HasParent(t, e))
    && (forall d, k {:trigger ChildAt(t, d, k)} :: k >= 2 && Linked(t, d) && Used(t.dirs[d], k) ==> ChildAt(t, d, k))
    && (forall i :: 0 < i < |t.typ| ==> t.nlink[i] <= SHORT_MAX && (t.nlink[i] > 0 ==> t.typ[i] != 0))
    && (forall i :: 0 < i < |t.typ| && t.typ[i] != T_DIR ==> t.dirs[i] == [])
  }

  ghost predicate Ok(t: Tree) {
    Wellformed(t) && Counted(t)
  }

  /** A C short. */
  function Short(x: int): (r: int)
    ensures -SHORT_MAX - 1 <= r <= SHORT_MAX && (r == x <==> -SHORT_MAX - 1 <= x <= SHORT_MAX)
  {
    (x + SHORT_MAX + 1) % 65536 - SHORT_MAX - 1
  }

  lemma RefsAt(t: Tree, i: int, d: int, k: int)
    requires Shaped(t)
    ensures (d, k) in Refs(t, i) <==> Names(t, d, k, i)
  {
  }

  /** One more, or one fewer, entry names i. */
  lemma OneMore(t: Tree, u: Tree, i: int, x: (int, int))
    requires Shaped(t) && Shaped(u) && !Names(t, x.0, x.1, i)
    requires forall d, k :: Names(u, d, k, i) <==> Names(t, d, k, i) || (d, k) == x
    ensures |Refs(u, i)| == |Refs(t, i)| + 1
  {
    hide Names;
    RefsAt(t, i, x.0, x.1);
    forall y ensures y in Refs(u, i) <==> y in Refs(t, i) + {x} {
      RefsAt(t, i, y.0, y.1);
      RefsAt(u, i, y.0, y.1);
    }
    assert Refs(u, i) == Refs(t, i) + {x};
  }

  lemma Same(t: Tree, u: Tree, i: int)
    requires Shaped(t) && Shaped(u)
    requires forall d, k :: Names(u, d, k, i) <==> Names(t, d, k, i)
    ensures |Refs(u, i)| == |Refs(t, i)|
  {
    hide Names;
    forall y ensures y in Refs(u, i) <==> y in Refs(t, i) {
      RefsAt(t, i, y.0, y.1);
      RefsAt(u, i, y.0, y.1);
    }
    assert Refs(u, i) == Refs(t, i);
  }

  /** A new entry e in slot k of directory dp, whatever it names. */
  ghost function Enter(t: Tree, dp: int, k: nat, e: Dirent): Tree
    requires Shaped(t) && 0 < dp < |t.typ| && k <= |t.dirs[dp]|
  {
    t.(dirs := t.dirs[dp := Put(t.dirs[dp], k, e)])
  }

  /** The slot is free and the name new to the directory. */
  ghost predicate Enterable(t: Tree, dp: int, k: nat, e: Dirent) {
    && Shaped(t) && 0 < dp < |t.typ| && t.typ[dp] == T_DIR && DirAt(t, dp)
    && 2 <= k <= |t.dirs[dp]| && !Used(t.dirs[dp], k)
    && 0 < e.inum < |t.typ| && Field(e.name) && forall j :: !Holds(t.dirs[dp], Trim(e.name), j)
  }

  /** A link to a file: the entry, and one more in its count. */
  ghost function AddLink(t: Tree, dp: int, k: nat, e: Dirent): Tree
    requires Enterable(t, dp, k, e)
  {
    Enter(t, dp, k, e).(nlink := t.nlink[e.inum := Short(t.nlink[e.inum] + 1)])
  }

  ghost predicate IsFile(t: Tree, i: int) {
    Shaped(t) && 0 < i < |t.typ| && t.typ[i] != 0 && t.typ[i] != T_DIR
  }

  lemma AddLinkNames(t: Tree, dp: int, k: nat, e: Dirent, u: Tree, d: int, j: int, i: int)
    requires Enterable(t, dp, k, e) && IsFile(t, e.inum) && u == AddLink(t, dp, k, e)
    ensures Shaped(u) && (Linked(u, d) <==> Linked(t, d))
    ensures Names(u, d, j, i) <==> Names(t, d, j, i) || (Linked(t, dp) && d == dp && j == k && i == e.inum)
  {
    hide DirOk, Trim;
    NewName(t, dp, e);
  }

  lemma NewName(t: Tree, dp: int, e: Dirent)
    requires Shaped(t) && 0 < dp < |t.typ| && DirAt(t, dp) && forall j :: !Holds(t.dirs[dp], Trim(e.name), j)
    ensures Trim(e.name) != DOT && Trim(e.name) != DOTDOT
  {
    assert !Holds(t.dirs[dp], Trim(e.name), 0) && !Holds(t.dirs[dp], Trim(e.name), 1);
  }

  /** A link keeps every count right exactly if the directory still has a link and the
      count has room. */
  lemma AddLinkCounted(t: Tree, dp: int, k: nat, e: Dirent, u: Tree)
    requires Ok(t) && Enterable(t, dp, k, e) && IsFile(t, e.inum) && u == AddLink(t, dp, k, e)
    ensures Shaped(u) && (Counted(u) <==> Linked(t, dp) && t.nlink[e.inum] < SHORT_MAX)
  {
    hide Names, Linked, Refs, DirAt, HasParent, ChildAt;
    var f := e.inum;
    forall i | 0 < i < |t.typ|
      ensures |Refs(u, i)| == |Refs(t, i)| + if i == f && Linked(t, dp) then 1 else 0
    {
      forall d, j ensures Names(u, d, j, i) <==> Names(t, d, j, i) || (Linked(t, dp) && d == dp && j == k && i == f) {
        AddLinkNames(t, dp, k, e, u, d, j, i);
      }
      if i == f && Linked(t, dp) {
        Unnamed(t, dp, k, i);
        OneMore(t, u, i, (dp, k));
      } else {
        Same(t, u, i);
      }
    }
    assert |Refs(u, f)| == t.nlink[f] + if Linked(t, dp) then 1 else 0;
  }

  lemma Unnamed(t: Tree, d: int, k: int, i: int)
    requires Shaped(t) && 0 < d < |t.typ| && !Used(t.dirs[d], k)
    ensures !Names(t, d, k, i)
  {
  }

  /** Entry k of a directory without a link would break DirAt, so the rest needs one. */
  lemma EnterDirAt(t: Tree, dp: int, k: nat, e: Dirent, u: Tree, d: int)
    requires Enterable(t, dp, k, e) && Shaped(u) && u.dirs == Enter(t, dp, k, e).dirs && 0 < d < |t.typ|
    requires |u.typ| == |t.typ| && DirAt(t, d) && (d == dp ==> u.nlink[d] > 0) && (t.nlink[d] > 0 ==> u.nlink[d] > 0)
    ensures DirAt(u, d)
  {
    hide Trim, DirMap;
    if d == dp {
      PutKeeps(t.dirs[dp], k, e, u.dirs[dp]);
    }
  }

  lemma AddLinkWellformed(t: Tree, dp: int, k: nat, e: Dirent, u: Tree)
    requires Wellformed(t) && Enterable(t, dp, k, e) && IsFile(t, e.inum) && u == AddLink(t, dp, k, e)
    requires Linked(t, dp)
    ensures Wellformed(u)
  {
    hide DirAt, Names, HasParent, ChildAt, Trim;
    forall d, j, i ensures (Linked(u, d) <==> Linked(t, d)) && (Names(t, d, j, i) ==> Names(u, d, j, i)) {
      AddLinkNames(t, dp, k, e, u, d, j, i);
    }
    forall d | 0 < d < |u.typ| && u.typ[d] == T_DIR ensures DirAt(u, d) {
      EnterDirAt(t, dp, k, e, u, d);
    }
    forall d | Linked(u, d) ensures HasParent(u, d) {
      AddLinkParent(t, dp, k, e, u, d);
    }
    forall d, j | j >= 2 && Linked(u, d) && Used(u.dirs[d], j) ensures ChildAt(u, d, j) {
      AddLinkChild(t, dp, k, e, u, d, j);
    }
  }

  lemma AddLinkParent(t: Tree, dp: int, k: nat, e: Dirent, u: Tree, d: int)
    requires Enterable(t, dp, k, e) && IsFile(t, e.inum) && u == AddLink(t, dp, k, e)
    requires Linked(t, d) && HasParent(t, d)
    ensures Shaped(u) && HasParent(u, d)
  {
    hide Names, DirAt;
    assert t.dirs[d][1] == u.dirs[d][1];
    AddLinkNames(t, dp, k, e, u, t.dirs[d][1].inum, 0, 0);
    if d != ROOTINO {
      var j :| j >= 2 && Names(t, t.dirs[d][1].inum, j, d);
      AddLinkNames(t, dp, k, e, u, t.dirs[d][1].inum, j, d);
    }
  }

  lemma AddLinkChild(t: Tree, dp: int, k: nat, e: Dirent, u: Tree, d: int, j: int)
    requires Wellformed(t) && Enterable(t, dp, k, e) && IsFile(t, e.inum) && u == AddLink(t, dp, k, e)
    requires j >= 2 && Shaped(u) && Linked(u, d) && Linked(t, d) && Used(u.dirs[d], j)
    ensures ChildAt(u, d, j)
  {
    hide Names, DirAt, HasParent, Trim;
    if (d, j) != (dp, k) {
      assert Used(t.dirs[d], j) && u.dirs[d][j] == t.dirs[d][j];
      assert ChildAt(t, d, j);
    }
  }

  /** The entries of a new directory. */
  ghost predicate NewDir(es: seq<Dirent>, self: nat, parent: nat) {
    && |es| == 2 && DirOk(es)
    && es[0].inum == self && Trim(es[0].name) == DOT
    && es[1].inum == parent && Trim(es[1].name) == DOTDOT
  }

  /** A new directory with entries es, entered in slot k of dp. */
  ghost function MakeDir(t: Tree, dp: int, k: nat, e: Dirent, es: seq<Dirent>): Tree
    requires Enterable(t, dp, k, e)
  {
    Tree(t.typ[e.inum := T_DIR],
         t.nlink[e.inum := 1][dp := Short(t.nlink[dp] + 1)],
         t.dirs[e.inum := es][dp := Put(t.dirs[dp], k, e)])
  }

  /** No entry that counts names an inode without links. */
  lemma NotNamed(t: Tree, i: int, d: int, k: int)
    requires Ok(t) && 0 < i < |t.typ| && t.nlink[i] <= 0
    ensures !Names(t, d, k, i)
  {
    hide Names;
    RefsAt(t, i, d, k);
  }

  ghost predicate Makes(t: Tree, dp: int, k: nat, e: Dirent, es: seq<Dirent>, u: Tree) {
    && Ok(t) && Enterable(t, dp, k, e) && t.typ[e.inum] == 0 && NewDir(es, e.inum, dp)
    && u == MakeDir(t, dp, k, e, es)
  }

  lemma MakeDirNames(t: Tree, dp: int, k: nat, e: Dirent, es: seq<Dirent>, u: Tree, d: int, j: int, x: int)
    requires Makes(t, dp, k, e, es, u) && Linked(t, dp) && t.nlink[dp] < SHORT_MAX
    ensures Shaped(u) && (Linked(u, d) <==> Linked(t, d) || d == e.inum)
    ensures Names(u, d, j, x) <==>
      Names(t, d, j, x) || (d == dp && j == k && x == e.inum) || (d == e.inum && j == 1 && x == dp)
  {
    hide DirOk, Trim, Counted, HasParent, ChildAt;
    NewName(t, dp, e);
  }

  lemma MakeDirCounted(t: Tree, dp: int, k: nat, e: Dirent, es: seq<Dirent>, u: Tree)
    requires Makes(t, dp, k, e, es, u) && Linked(t, dp) && t.nlink[dp] < SHORT_MAX
    ensures Shaped(u) && Counted(u)
  {
    hide Names, Linked, Refs, DirAt, HasParent, ChildAt, DirOk, Trim;
    var f := e.inum;
    forall x | 0 < x < |t.typ| ensures u.nlink[x] == |Refs(u, x)| {
      forall d, j ensures Names(u, d, j, x) <==>
        Names(t, d, j, x) || (d == dp && j == k && x == f) || (d == f && j == 1 && x == dp)
      {
        MakeDirNames(t, dp, k, e, es, u, d, j, x);
      }
      if x == f {
        Unnamed(t, dp, k, x);
        OneMore(t, u, x, (dp, k));
      } else if x == dp {
        FreeNames(t, f, 1, x);
        OneMore(t, u, x, (f, 1));
      } else {
        Same(t, u, x);
      }
    }
  }

  lemma FreeNames(t: Tree, d: int, k: int, i: int)
    requires Shaped(t) && 0 < d < |t.typ| && t.typ[d] == 0
    ensures !Names(t, d, k, i)
  {
  }

  lemma MakeDirDirAt(t: Tree, dp: int, k: nat, e: Dirent, es: seq<Dirent>, u: Tree, d: int)
    requires Makes(t, dp, k, e, es, u) && Linked(t, dp) && t.nlink[dp] < SHORT_MAX
    requires 0 < d < |u.typ| && u.typ[d] == T_DIR
    ensures Shaped(u) && DirAt(u, d)
  {
    hide Trim, DirMap, Counted, HasParent, ChildAt;
    if d == dp {
      PutKeeps(t.dirs[dp], k, e, u.dirs[dp]);
    } else if d != e.inum {
      assert DirAt(t, d);
    }
  }

  /** What ".." is in each directory with a link. */
  lemma MakeDirDotDot(t: Tree, dp: int, k: nat, e: Dirent, es: seq<Dirent>, u: Tree, d: int)
    requires Makes(t, dp, k, e, es, u) && Linked(t, dp) && t.nlink[dp] < SHORT_MAX
    requires Shaped(u) && Linked(u, d)
    ensures k >= 2 && Shaped(t) && Linked(u, dp) && 0 < e.inum < |t.typ| && |u.dirs[d]| >= 2
    ensures d == e.inum ==> u.dirs[d][1].inum == dp && d != ROOTINO
    ensures d != e.inum ==> Linked(t, d) && HasParent(t, d) && u.dirs[d][1] == t.dirs[d][1]
  {
    hide Names, Ok, DirOk, Trim, DirAt, HasParent;
    RootLinked(t);
    if d != e.inum {
      assert Linked(t, d);
      ParentOf(t, d);
    }
  }

  lemma RootLinked(t: Tree)
    requires Ok(t)
    ensures Shaped(t) && Linked(t, ROOTINO)
  {
  }

  lemma ParentOf(t: Tree, d: int)
    requires Ok(t) && Shaped(t) && Linked(t, d)
    ensures HasParent(t, d) && |t.dirs[d]| >= 2
  {
  }

  lemma MakeDirParent(t: Tree, dp: int, k: nat, e: Dirent, es: seq<Dirent>, u: Tree, d: int)
    requires Makes(t, dp, k, e, es, u) && Linked(t, dp) && t.nlink[dp] < SHORT_MAX
    requires Shaped(u) && Linked(u, d)
    ensures HasParent(u, d)
  {
    hide Names, Makes, Put, DirOk, Trim;
    MakeDirNames(t, dp, k, e, es, u, d, k, d);
    MakeDirDotDot(t, dp, k, e, es, u, d);
    if d == e.inum {
      MakeDirNames(t, dp, k, e, es, u, dp, k, d);
    } else {
      var p := t.dirs[d][1].inum;
      MakeDirNames(t, dp, k, e, es, u, p, k, d);
      if d != ROOTINO {
        var j :| j >= 2 && Names(t, p, j, d);
        MakeDirNames(t, dp, k, e, es, u, p, j, d);
      }
    }
  }

  /** Past the first two entries, an entry in use counts. */
  lemma EntryNames(t: Tree, d: int, j: int)
    requires Shaped(t) && Linked(t, d) && DirAt(t, d) && j >= 2 && Used(t.dirs[d], j)
    ensures Names(t, d, j, t.dirs[d][j].inum) && Trim(t.dirs[d][j].name) != DOTDOT
  {
    hide Trim;
    assert Used(t.dirs[d], 0) && Used(t.dirs[d], 1);
  }

  lemma MakeDirChild(t: Tree, dp: int, k: nat, e: Dirent, es: seq<Dirent>, u: Tree, d: int, j: int)
    requires Makes(t, dp, k, e, es, u) && Linked(t, dp) && t.nlink[dp] < SHORT_MAX
    requires j >= 2 && Shaped(u) && Linked(u, d) && Used(u.dirs[d], j)
    ensures ChildAt(u, d, j)
  {
    hide Counted, HasParent, Trim, DirOk, DirMap;
    var f := e.inum;
    assert d != f;
    forall i | i >= 2 && Used(t.dirs[d], i) ensures t.dirs[d][i].inum != f {
      EntryNames(t, d, i);
      NotNamed(t, f, d, i);
    }
    if d == dp && j == k {
      assert forall i :: i >= 2 && Used(u.dirs[d], i) && i != k ==> Used(t.dirs[d], i) && u.dirs[d][i] == t.dirs[d][i];
    } else {
      assert Used(t.dirs[d], j) && u.dirs[d][j] == t.dirs[d][j];
      assert ChildAt(t, d, j);
    }
  }

  lemma MakeDirWellformed(t: Tree, dp: int, k: nat, e: Dirent, es: seq<Dirent>, u: Tree)
    requires Makes(t, dp, k, e, es, u) && Linked(t, dp) && t.nlink[dp] < SHORT_MAX
    ensures Wellformed(u)
  {
    hide DirAt, Names, HasParent, ChildAt, Trim, Counted, DirOk;
    MakeDirNames(t, dp, k, e, es, u, ROOTINO, 0, 0);
    forall d | 0 < d < |u.typ| && u.typ[d] == T_DIR ensures DirAt(u, d) {
      MakeDirDirAt(t, dp, k, e, es, u, d);
    }
    forall d | Linked(u, d) ensures HasParent(u, d) {
      MakeDirParent(t, dp, k, e, es, u, d);
    }
    forall d, j | j >= 2 && Linked(u, d) && Used(u.dirs[d], j) ensures ChildAt(u, d, j) {
      MakeDirChild(t, dp, k, e, es, u, d, j);
    }
  }

  lemma NoLinks(t: Tree, i: int)
    requires Ok(t) && 0 < i < |t.typ|
    ensures 0 <= t.nlink[i] <= SHORT_MAX && (t.typ[i] == 0 ==> t.nlink[i] == 0)
  {
  }

  lemma UnlinkedNames(t: Tree, dp: int, k: nat, e: Dirent, es: seq<Dirent>, u: Tree, d: int, j: int, p: int)
    requires Enterable(t, dp, k, e) && t.typ[e.inum] == 0 && NewDir(es, e.inum, dp) && u == MakeDir(t, dp, k, e, es)
    requires t.nlink[dp] == 0 && dp != ROOTINO && p == t.dirs[dp][1].inum
    ensures Shaped(u) && p != dp && !Names(t, dp, j, p)
    ensures Names(u, d, j, p) <==> Names(t, d, j, p) || (d == dp && j == 1) || (d == dp && j == k && p == e.inum)
  {
    hide DirOk, Trim;
    NewName(t, dp, e);
    assert e.inum != dp;
    if d == dp {
      assert u.nlink[dp] == 1 && Linked(u, dp);
      assert u.dirs[dp][0] == t.dirs[dp][0] && u.dirs[dp][1] == t.dirs[dp][1];
      if j >= 2 && j != k {
        assert !Used(t.dirs[dp], j);
        assert !Used(u.dirs[dp], j);
      }
    }
  }

  /** In a directory without a link a new directory brings the link count of ".." out
      of step: the directory looks linked again. */
  lemma MakeDirUnlinked(t: Tree, dp: int, k: nat, e: Dirent, es: seq<Dirent>, u: Tree)
    requires Makes(t, dp, k, e, es, u) && !Linked(t, dp)
    ensures Shaped(u) && !Counted(u)
  {
    hide HasParent, ChildAt, Trim, DirOk, DirMap, Refs, Names;
    var p, f := t.dirs[dp][1].inum, e.inum;
    NoLinks(t, f);
    NoLinks(t, dp);
    forall d, j ensures Names(u, d, j, p) <==>
      Names(t, d, j, p) || (d == dp && j == 1) || (d == dp && j == k && p == f)
    {
      UnlinkedNames(t, dp, k, e, es, u, d, j, p);
    }
    UnlinkedNames(t, dp, k, e, es, u, dp, 1, p);
    if p == f {
      RefsAt(u, p, dp, 1);
      RefsAt(u, p, dp, k);
      Two(Refs(u, p), (dp, 1), (dp, k));
    } else {
      OneMore(t, u, p, (dp, 1));
    }
    assert u.nlink[p] != |Refs(u, p)|;
  }

  lemma Two(s: set<(int, int)>, x: (int, int), y: (int, int))
    requires x in s && y in s && x != y
    ensures |s| >= 2
  {
    assert |s - {x}| >= 1 by { assert y in s - {x}; }
  }

  /** A new directory keeps every count right exactly if its parent still has a link
      and the parent's count has room. */
  lemma MakeDirIff(t: Tree, dp: int, k: nat, e: Dirent, es: seq<Dirent>, u: Tree)
    requires Makes(t, dp, k, e, es, u)
    ensures Ok(u) <==> Linked(t, dp) && t.nlink[dp] < SHORT_MAX
  {
    hide Wellformed, DirAt, DirOk, Refs, Names;
    if !Linked(t, dp) {
      MakeDirUnlinked(t, dp, k, e, es, u);
    } else if t.nlink[dp] < SHORT_MAX {
      MakeDirCounted(t, dp, k, e, es, u);
      MakeDirWellformed(t, dp, k, e, es, u);
    } else {
      NoLinks(t, dp);
      assert u.nlink[dp] < 0;
    }
  }

  lemma AddLinkIff(t: Tree, dp: int, k: nat, e: Dirent, u: Tree)
    requires Ok(t) && Enterable(t, dp, k, e) && IsFile(t, e.inum) && u == AddLink(t, dp, k, e)
    ensures Ok(u) <==> Linked(t, dp) && t.nlink[e.inum] < SHORT_MAX
  {
    hide DirAt, DirOk, Refs, Names, HasParent, ChildAt, Counted;
    AddLinkCounted(t, dp, k, e, u);
    if Linked(t, dp) {
      AddLinkWellformed(t, dp, k, e, u);
    }
  }

  /** What unlink removes: entry k of dp, one link of what it names and, if that is a
      directory, the link that its ".." gave dp. */
  ghost function Remove(t: Tree, dp: int, k: nat): Tree
    requires Shaped(t) && 0 < dp < |t.typ| && Used(t.dirs[dp], k) && t.dirs[dp][k].inum < |t.typ|
  {
    t.(dirs := t.dirs[dp := t.dirs[dp][k := Erased()]], nlink := Fewer(t, dp, t.dirs[dp][k].inum))
  }

  /** The counts when inode i has lost its entry in dp: one less for i, and for dp if the
      ".." of i goes with it. */
  ghost function Fewer(t: Tree, dp: int, i: int): seq<int>
    requires Shaped(t) && 0 < dp < |t.typ| && 0 <= i < |t.typ|
  {
    var n := if t.typ[i] == T_DIR then t.nlink[dp := Short(t.nlink[dp] - 1)] else t.nlink;
    n[i := Short(n[i] - 1)]
  }

  ghost predicate Removes(t: Tree, dp: int, k: nat, u: Tree) {
    && Ok(t) && Linked(t, dp) && k >= 2 && Used(t.dirs[dp], k) && 0 < t.dirs[dp][k].inum < |t.typ|
    && (t.typ[t.dirs[dp][k].inum] == T_DIR ==>
          forall j :: 2 <= j < |t.dirs[t.dirs[dp][k].inum]| ==> !Used(t.dirs[t.dirs[dp][k].inum], j))
    && u == Remove(t, dp, k)
  }

  /** An empty directory has the one link that its parent's entry gives it. */
  lemma EmptyDirOnce(t: Tree, dp: int, k: nat, u: Tree)
    requires Removes(t, dp, k, u) && t.typ[t.dirs[dp][k].inum] == T_DIR
    ensures t.nlink[t.dirs[dp][k].inum] == 1
  {
    hide Trim, DirOk, Refs, Names;
    var i := t.dirs[dp][k].inum;
    EntryNames(t, dp, k);
    forall d, j ensures Names(t, d, j, i) <==> (d, j) == (dp, k) {
      NamedOnce(t, dp, k, u, d, j);
    }
    forall y ensures y in Refs(t, i) <==> y in {(dp, k)} {
      RefsAt(t, i, y.0, y.1);
    }
    assert Refs(t, i) == {(dp, k)};
  }

  lemma NamedOnce(t: Tree, dp: int, k: nat, u: Tree, d: int, j: int)
    requires Removes(t, dp, k, u) && t.typ[t.dirs[dp][k].inum] == T_DIR
    ensures Names(t, d, j, t.dirs[dp][k].inum) ==> (d, j) == (dp, k)
  {
    hide Trim, Counted, HasParent, ChildAt, DirAt, DirOk;
    var i := t.dirs[dp][k].inum;
    assert ChildAt(t, dp, k);
    if Names(t, d, j, i) {
      assert DirAt(t, d) && HasParent(t, d);
      assert j >= 2 ==> ChildAt(t, d, j);
      NamedFrom(t, dp, k, i, d, j);
    }
  }

  lemma NamedFrom(t: Tree, dp: int, k: nat, i: int, d: int, j: int)
    requires Shaped(t) && Linked(t, dp) && Used(t.dirs[dp], k) && t.dirs[dp][k].inum == i && 0 < i < |t.typ|
    requires k >= 2 && t.typ[i] == T_DIR && ChildAt(t, dp, k)
    requires forall m :: 2 <= m < |t.dirs[i]| ==> !Used(t.dirs[i], m)
    requires Names(t, d, j, i) && DirAt(t, d) && HasParent(t, d) && (j >= 2 ==> ChildAt(t, d, j))
    ensures (d, j) == (dp, k)
  {
    hide Trim, DirOk;
  }

  ghost predicate DirGone(t: Tree, dp: int, k: nat, d: int)
    requires Shaped(t) && Linked(t, dp) && Used(t.dirs[dp], k) && t.dirs[dp][k].inum < |t.typ|
  {
    d == t.dirs[dp][k].inum && t.typ[d] == T_DIR
  }

  lemma ChildDotDot(t: Tree, dp: int, k: nat, u: Tree)
    requires Removes(t, dp, k, u) && t.typ[t.dirs[dp][k].inum] == T_DIR
    ensures Names(t, t.dirs[dp][k].inum, 1, dp) && HasParent(t, dp) && (dp == ROOTINO ==> Names(t, dp, 1, dp))
  {
    hide Trim, DirOk, Refs;
    assert DirAt(t, t.dirs[dp][k].inum) && HasParent(t, dp) && DirAt(t, dp) && ChildAt(t, dp, k);
  }

  /** A directory with a subdirectory has two links: its own and the "..". */
  lemma ParentTwice(t: Tree, dp: int, k: nat, u: Tree)
    requires Removes(t, dp, k, u) && t.typ[t.dirs[dp][k].inum] == T_DIR
    ensures t.nlink[dp] >= 2
  {
    hide Trim, DirOk, Refs, ChildAt, Names;
    var i := t.dirs[dp][k].inum;
    NotItself(t, dp, k);
    ChildDotDot(t, dp, k, u);
    RefsAt(t, dp, i, 1);
    if dp == ROOTINO {
      RefsAt(t, dp, dp, 1);
      Two(Refs(t, dp), (i, 1), (dp, 1));
    } else {
      var p := t.dirs[dp][1].inum;
      var m :| m >= 2 && Names(t, p, m, dp);
      RefsAt(t, dp, p, m);
      Two(Refs(t, dp), (i, 1), (p, m));
    }
  }

  lemma RemoveNames(t: Tree, dp: int, k: nat, u: Tree, d: int, j: int, x: int)
    requires Removes(t, dp, k, u)
    ensures Shaped(u) && (Linked(u, d) <==> Linked(t, d) && !DirGone(t, dp, k, d))
    ensures Names(u, d, j, x) <==> Names(t, d, j, x) && (d, j) != (dp, k) && !DirGone(t, dp, k, d)
  {
    hide DirOk, Trim, HasParent, DirAt, Refs, ChildAt;
    var i := t.dirs[dp][k].inum;
    NoLinks(t, dp);
    NoLinks(t, i);
    if t.typ[i] == T_DIR {
      assert i != dp by { NotItself(t, dp, k); }
      EmptyDirOnce(t, dp, k, u);
      ParentTwice(t, dp, k, u);
    }
  }

  lemma NotItself(t: Tree, dp: int, k: nat)
    requires Wellformed(t) && Linked(t, dp) && k >= 2 && Used(t.dirs[dp], k) && 0 < t.dirs[dp][k].inum < |t.typ|
    requires t.typ[t.dirs[dp][k].inum] == T_DIR
    ensures t.dirs[dp][k].inum != dp && t.dirs[dp][k].inum != ROOTINO && Linked(t, t.dirs[dp][k].inum)
    ensures |t.dirs[t.dirs[dp][k].inum]| >= 2 && t.dirs[t.dirs[dp][k].inum][1].inum == dp
  {
    assert ChildAt(t, dp, k);
  }

  lemma RemoveCounted(t: Tree, dp: int, k: nat, u: Tree)
    requires Removes(t, dp, k, u)
    ensures Shaped(u) && Counted(u)
  {
    hide Names, Refs, DirAt, HasParent, ChildAt, DirOk, Trim;
    var i := t.dirs[dp][k].inum;
    EntryNamesOk(t, dp, k);
    NoLinks(t, dp);
    NoLinks(t, i);
    if t.typ[i] == T_DIR {
      EmptyDirOnce(t, dp, k, u);
      ParentTwice(t, dp, k, u);
      NotItselfOk(t, dp, k);
    }
    forall x | 0 < x < |t.typ| ensures u.nlink[x] == |Refs(u, x)| {
      forall d, j ensures Names(u, d, j, x) <==>
        Names(t, d, j, x) && (d, j) != (dp, k) && !(t.typ[i] == T_DIR && (d, j) == (i, 1))
      {
        RemoveNames(t, dp, k, u, d, j, x);
        if t.typ[i] == T_DIR && d == i {
          EmptyNames(t, dp, k, j, x);
        }
      }
      if x == i {
        if t.typ[i] == T_DIR {
          EmptyNames(t, dp, k, 1, x);
        }
        OneMore(u, t, x, (dp, k));
      } else {
        OtherNames(t, dp, k, x);
        if t.typ[i] == T_DIR && x == dp {
          EmptyNames(t, dp, k, 1, x);
          OneMore(u, t, x, (i, 1));
        } else {
          if t.typ[i] == T_DIR {
            EmptyNames(t, dp, k, 1, x);
          }
          Same(t, u, x);
        }
      }
    }
  }

  lemma EntryNamesOk(t: Tree, dp: int, k: nat)
    requires Wellformed(t) && Linked(t, dp) && k >= 2 && Used(t.dirs[dp], k)
    ensures Names(t, dp, k, t.dirs[dp][k].inum)
  {
    EntryNames(t, dp, k);
  }

  lemma NotItselfOk(t: Tree, dp: int, k: nat)
    requires Wellformed(t) && Linked(t, dp) && k >= 2 && Used(t.dirs[dp], k) && 0 < t.dirs[dp][k].inum < |t.typ|
    requires t.typ[t.dirs[dp][k].inum] == T_DIR
    ensures t.dirs[dp][k].inum != dp
  {
    NotItself(t, dp, k);
  }

  lemma OtherNames(t: Tree, d: int, k: int, x: int)
    requires Shaped(t) && Linked(t, d) && Used(t.dirs[d], k) && t.dirs[d][k].inum != x
    ensures !Names(t, d, k, x)
  {
  }

  /** The one entry of an empty directory that counts is "..". */
  lemma EmptyNames(t: Tree, dp: int, k: nat, j: int, x: int)
    requires Wellformed(t) && Linked(t, dp) && k >= 2 && Used(t.dirs[dp], k) && 0 < t.dirs[dp][k].inum < |t.typ|
    requires var i := t.dirs[dp][k].inum; t.typ[i] == T_DIR && forall m :: 2 <= m < |t.dirs[i]| ==> !Used(t.dirs[i], m)
    ensures Names(t, t.dirs[dp][k].inum, j, x) <==> j == 1 && x == dp
  {
    hide Trim, DirOk, HasParent, ChildAt;
    NotItself(t, dp, k);
    assert DirAt(t, t.dirs[dp][k].inum);
  }

  lemma RemoveDirAt(t: Tree, dp: int, k: nat, u: Tree, d: int)
    requires Removes(t, dp, k, u) && 0 < d < |u.typ| && u.typ[d] == T_DIR
    ensures Shaped(u) && DirAt(u, d)
  {
    hide Trim, DirMap, Counted, HasParent, ChildAt;
    RemoveNames(t, dp, k, u, d, 0, 0);
    assert DirAt(t, d);
    if d == dp {
      EraseKeeps(t.dirs[dp], k, u.dirs[dp]);
    }
  }

  lemma RemoveParent(t: Tree, dp: int, k: nat, u: Tree, e: int)
    requires Removes(t, dp, k, u) && Shaped(t) && Shaped(u) && Linked(u, e) && Linked(t, e) && HasParent(t, e)
    requires !DirGone(t, dp, k, e)
    ensures HasParent(u, e)
  {
    hide Trim, Wellformed, Counted, ChildAt, DirOk, Names;
    assert u.dirs[e][1] == t.dirs[e][1];
    var p := t.dirs[e][1].inum;
    RemoveNames(t, dp, k, u, p, 0, 0);
    if e != ROOTINO {
      var j :| j >= 2 && Names(t, p, j, e);
      RemoveNames(t, dp, k, u, p, j, e);
      StillNamed(t, dp, k, u, p, j, e);
    }
  }

  /** What an entry names has a link, so unlink's panic on a count below 1 is out of
      reach. */
  lemma NamedHasLink(t: Tree, d: int, k: int, i: int)
    requires Ok(t) && Names(t, d, k, i) && 0 < i < |t.typ|
    ensures t.nlink[i] >= 1 && t.typ[i] != 0
  {
    hide Names, Refs, DirAt, HasParent, ChildAt;
    RefsAt(t, i, d, k);
  }

  lemma StillNamed(t: Tree, dp: int, k: nat, u: Tree, p: int, j: int, e: int)
    requires Removes(t, dp, k, u) && j >= 2 && Names(t, p, j, e) && Linked(t, e) && !DirGone(t, dp, k, e)
    ensures (p, j) != (dp, k) && !DirGone(t, dp, k, p)
  {
    hide Trim, Counted, ChildAt, DirOk, HasParent, DirAt;
  }

  lemma RemoveChild(t: Tree, dp: int, k: nat, u: Tree, d: int, j: int)
    requires Removes(t, dp, k, u) && j >= 2 && Shaped(u) && Linked(u, d) && Used(u.dirs[d], j)
    ensures ChildAt(u, d, j)
  {
    hide Trim, Counted, DirOk, HasParent, DirAt, Names;
    RemoveNames(t, dp, k, u, d, 0, 0);
    assert Used(t.dirs[d], j) && u.dirs[d][j] == t.dirs[d][j] && (d, j) != (dp, k);
    assert ChildAt(t, d, j) && ChildAt(t, dp, k);
    RemoveNames(t, dp, k, u, u.dirs[d][j].inum, 0, 0);
  }

  /** Removing an entry of a directory that still has a link, for a file or an empty
      directory, keeps the tree and every count right. */
  lemma RemoveKeeps(t: Tree, dp: int, k: nat, u: Tree)
    requires Removes(t, dp, k, u)
    ensures Ok(u)
  {
    hide DirAt, Names, HasParent, ChildAt, Trim, Counted, DirOk;
    EntryNamesOk(t, dp, k);
    NamedHasLink(t, dp, k, t.dirs[dp][k].inum);
    RemoveCounted(t, dp, k, u);
    RemoveNames(t, dp, k, u, ROOTINO, 0, 0);
    forall d | 0 < d < |u.typ| && u.typ[d] == T_DIR ensures DirAt(u, d) {
      RemoveDirAt(t, dp, k, u, d);
    }
    forall d | Linked(u, d) ensures HasParent(u, d) {
      RemoveNames(t, dp, k, u, d, 0, 0);
      RemoveParent(t, dp, k, u, d);
    }
    forall d, j | j >= 2 && Linked(u, d) && Used(u.dirs[d], j) ensures ChildAt(u, d, j) {
      RemoveChild(t, dp, k, u, d, j);
    }
    assert t.typ[t.dirs[dp][k].inum] == T_DIR ==> t.dirs[dp][k].inum != ROOTINO by {
      if t.typ[t.dirs[dp][k].inum] == T_DIR {
        NotItself(t, dp, k);
      }
    }
  }

  /** Another type, not a directory, for an inode without links. */
  ghost function Retype(t: Tree, i: int, typ: nat): Tree
    requires Shaped(t) && 0 < i < |t.typ|
  {
    t.(typ := t.typ[i := typ], dirs := t.dirs[i := []])
  }

  lemma RetypeNames(t: Tree, i: int, typ: nat, u: Tree, d: int, j: int, x: int)
    requires Shaped(t) && 0 < i < |t.typ| && t.nlink[i] <= 0 && typ != T_DIR && u == Retype(t, i, typ)
    ensures Shaped(u) && (Linked(u, d) <==> Linked(t, d)) && (Names(u, d, j, x) <==> Names(t, d, j, x))
  {
    hide Trim;
  }

  /** An inode without links may be freed, or given to a file. */
  lemma RetypeKeeps(t: Tree, i: int, typ: nat, u: Tree)
    requires Ok(t) && 0 < i < |t.typ| && t.nlink[i] <= 0 && typ != T_DIR && u == Retype(t, i, typ)
    ensures Ok(u)
  {
    hide DirAt, Names, HasParent, ChildAt, Trim, DirOk, Refs;
    forall d, j, x ensures (Linked(u, d) <==> Linked(t, d)) && (Names(u, d, j, x) <==> Names(t, d, j, x)) {
      RetypeNames(t, i, typ, u, d, j, x);
    }
    forall x | 0 < x < |t.typ| ensures |Refs(u, x)| == |Refs(t, x)| {
      Same(t, u, x);
    }
    forall d | 0 < d < |u.typ| && u.typ[d] == T_DIR ensures DirAt(u, d) {
      RetypeDirAt(t, i, typ, u, d);
    }
    forall e | Linked(u, e) ensures HasParent(u, e) {
      RetypeParent(t, i, typ, u, e);
    }
    forall d, j | j >= 2 && Linked(u, d) && Used(u.dirs[d], j) ensures ChildAt(u, d, j) {
      assert ChildAt(t, d, j);
      RetypeChild(t, i, typ, u, d, j);
    }
  }

  lemma RetypeDirAt(t: Tree, i: int, typ: nat, u: Tree, d: int)
    requires Shaped(t) && 0 < i < |t.typ| && typ != T_DIR && u == Retype(t, i, typ)
    requires 0 < d < |u.typ| && u.typ[d] == T_DIR && DirAt(t, d)
    ensures Shaped(u) && DirAt(u, d)
  {
    hide Trim, DirOk;
  }

  lemma RetypeParent(t: Tree, i: int, typ: nat, u: Tree, e: int)
    requires Shaped(t) && 0 < i < |t.typ| && t.nlink[i] <= 0 && typ != T_DIR && u == Retype(t, i, typ)
    requires Linked(t, e) && HasParent(t, e)
    ensures Shaped(u) && HasParent(u, e)
  {
    hide Names;
    RetypeNames(t, i, typ, u, t.dirs[e][1].inum, 0, 0);
    if e != ROOTINO {
      var j :| j >= 2 && Names(t, t.dirs[e][1].inum, j, e);
      RetypeNames(t, i, typ, u, t.dirs[e][1].inum, j, e);
    }
  }

  lemma RetypeChild(t: Tree, i: int, typ: nat, u: Tree, d: int, j: int)
    requires Shaped(t) && 0 < i < |t.typ| && t.nlink[i] <= 0 && typ != T_DIR && u == Retype(t, i, typ)
    requires Linked(t, d) && Used(t.dirs[d], j) && ChildAt(t, d, j) && Shaped(u) && Linked(u, d) && Used(u.dirs[d], j)
    ensures ChildAt(u, d, j)
  {
  }
}
