/** Path names (kernel/fs.c): skipelem takes a path apart, namex walks it through the
    directories. A C string is the sequence of its bytes before the NUL. */
module DirPath {
  import opened Basics
  import opened DirEntries
  import opened DirTree
  import opened DirCode

  const SLASH: Byte := 47

  /** The bytes before the first slash. */
  function Element(path: seq<Byte>): (e: seq<Byte>)
    ensures |e| <= |path| && e == path[..|e|] && SLASH !in e && (|e| < |path| ==> path[|e|] == SLASH)
  {
    if path == [] || path[0] == SLASH then [] else [path[0]] + Element(path[1..])
  }

  /** The elements of a path, without the slashes. */
  function Elements(path: seq<Byte>): seq<seq<Byte>>
    decreases |path|
  {
    if path == [] then []
    else if path[0] == SLASH then Elements(path[1..])
    else [Element(path)] + Elements(path[|Element(path)|..])
  }

  /** What a name field holds of an element. */
  function Clip(e: seq<Byte>): seq<Byte> {
    if |e| > DIRSIZ then e[..DIRSIZ] else e
  }

  lemma {:induction false} ElementIs(path: seq<Byte>, n: nat)
    requires n <= |path| && (forall k :: 0 <= k < n ==> path[k] != SLASH) && (n < |path| ==> path[n] == SLASH)
    ensures Element(path) == path[..n]
  {
    if n > 0 {
      var rest := path[1..];
      forall k | 0 <= k < n - 1
        ensures rest[k] != SLASH
      {
        assert rest[k] == path[k + 1];
      }
      ElementIs(rest, n - 1);
      assert path[..n] == [path[0]] + rest[..n - 1];
    }
  }

  /** A path that does not start with a slash starts with its first element. */
  lemma FirstElement(path: seq<Byte>, n: nat)
    requires path != [] && path[0] != SLASH && n <= |path|
    requires (forall k :: 0 <= k < n ==> path[k] != SLASH) && (n < |path| ==> path[n] == SLASH)
    ensures n > 0 && Elements(path) == [path[..n]] + Elements(path[n..])
  {
    hide Element;
    ElementIs(path, n);
  }

  lemma NoneLeft(path: seq<Byte>)
    requires path != [] ==> path[0] != SLASH
    ensures path == [] <==> Elements(path) == []
  {
    hide Element;
  }

  method SkipSlashes(path: seq<Byte>) returns (i: nat)
    ensures i <= |path| && Elements(path[i..]) == Elements(path) && (i < |path| ==> path[i] != SLASH)
  {
    i := 0;
    while i < |path| && path[i] == SLASH
      invariant 0 <= i <= |path| && Elements(path[i..]) == Elements(path)
    {
      assert path[i..][1..] == path[i + 1..];
      i := i + 1;
    }
  }

  /** The element, cut to DIRSIZ bytes or ended by a NUL, over what the field held. */
  method FillName(e: seq<Byte>, name: seq<Byte>) returns (field: seq<Byte>)
    requires Field(name) && 0 !in e
    ensures Field(field) && Trim(field) == Clip(e)
  {
    if |e| >= DIRSIZ {
      field := e[..DIRSIZ];
      TrimIs(field, DIRSIZ);
      assert field[..DIRSIZ] == field;
    } else {
      field := e + [0] + name[|e| + 1..];
      TrimIs(field, |e|);
      assert field[..|e|] == e;
    }
  }

  /** skipelem: the next element goes into the name field, and the rest has no leading
      slash, so that it is empty exactly after the last element. */
  method SkipElem(path: seq<Byte>, name: seq<Byte>) returns (rest: Option<seq<Byte>>, field: seq<Byte>)
    requires Field(name) && 0 !in path
    ensures Field(field) && (rest.None? <==> Elements(path) == [])
    ensures rest.Some? ==> |rest.value| < |path| && 0 !in rest.value && (rest.value == [] <==> Elements(rest.value) == [])
    ensures rest.Some? ==> exists e :: Elements(path) == [e] + Elements(rest.value) && Trim(field) == Clip(e)
  {
    hide Trim, Clip, Elements, Element;
    var i := SkipSlashes(path);
    var s := path[i..];
    NoneLeft(s);
    if i == |path| {
      return None, name;
    }
    var len := 0;
    while len < |s| && s[len] != SLASH
      invariant 0 <= len <= |s| && forall k :: 0 <= k < len ==> s[k] != SLASH
    {
      len := len + 1;
    }
    FirstElement(s, len);
    field := FillName(s[..len], name);
    var tail := s[len..];
    var j := SkipSlashes(tail);
    rest := Some(tail[j..]);
    NoneLeft(rest.value);
    assert Elements(path) == [s[..len]] + Elements(rest.value);
  }

  /** Where a walk ends: at an inode, nowhere, or in ilock's panic on a free inode. */
  datatype Walk = At(i: nat) | Missing | NoType

  /** From inode i along the names. */
  ghost function Resolve(t: Tree, i: nat, keys: seq<seq<Byte>>): (w: Walk)
    requires Ok(t) && 0 < i < |t.typ|
    ensures w.At? ==> 0 < w.i < |t.typ|
    decreases |keys|
  {
    if keys == [] then At(i)
    else if t.typ[i] == 0 then NoType
    else if t.typ[i] != T_DIR then Missing
    else
      var es := t.dirs[i];
      assert DirAt(t, i);
      if Clip(keys[0]) in DirMap(es) then
        DirMapAt(es, Clip(keys[0]));
        Resolve(t, DirMap(es)[Clip(keys[0])], keys[1..])
      else Missing
  }

  /** In directory i, the walk goes on from what the map names. */
  lemma ResolveStep(t: Tree, i: nat, e: seq<Byte>, rest: seq<seq<Byte>>, off: Option<nat>)
    requires Ok(t) && 0 < i < |t.typ| && t.typ[i] == T_DIR && DirAt(t, i)
    requires off.Some? ==> Holds(t.dirs[i], Clip(e), off.value)
    requires off.None? ==> Clip(e) !in DirMap(t.dirs[i])
    ensures off.Some? ==> 0 < t.dirs[i][off.value].inum < |t.typ|
    ensures Resolve(t, i, [e] + rest) == if off.None? then Missing else Resolve(t, t.dirs[i][off.value].inum, rest)
  {
    hide Clip, Counted, HasParent, ChildAt, Trim;
    DirMapAt(t.dirs[i], Clip(e));
    assert ([e] + rest)[1..] == rest;
  }

  /** The walk to the directory of the last element. */
  ghost function ResolveParent(t: Tree, i: nat, keys: seq<seq<Byte>>): (w: Walk)
    requires Ok(t) && 0 < i < |t.typ|
  {
    if keys == [] then Missing
    else
      var w := Resolve(t, i, keys[..|keys| - 1]);
      if w.At? && t.typ[w.i] == 0 then NoType else if w.At? && t.typ[w.i] != T_DIR then Missing else w
  }

  /** What namex is to return: the inode at the end of the path, or the directory that
      holds its last element. */
  ghost function Outcome(t: Tree, i: nat, keys: seq<seq<Byte>>, parent: bool): Walk
    requires Ok(t) && 0 < i < |t.typ|
  {
    if parent then ResolveParent(t, i, keys) else Resolve(t, i, keys)
  }

  lemma OutcomeStep(t: Tree, i: nat, e: seq<Byte>, rest: seq<seq<Byte>>, off: Option<nat>, parent: bool)
    requires Ok(t) && 0 < i < |t.typ| && t.typ[i] == T_DIR && DirAt(t, i) && (parent ==> rest != [])
    requires off.Some? ==> Holds(t.dirs[i], Clip(e), off.value)
    requires off.None? ==> Clip(e) !in DirMap(t.dirs[i])
    ensures off.Some? ==> 0 < t.dirs[i][off.value].inum < |t.typ|
    ensures Outcome(t, i, [e] + rest, parent) == if off.None? then Missing else Outcome(t, t.dirs[i][off.value].inum,
        rest, parent)
  {
    hide Resolve, Clip, Counted, HasParent, ChildAt, Trim, DirAt, DirMap;
    ResolveStep(t, i, e, rest, off);
    if parent {
      var init := rest[..|rest| - 1];
      ResolveStep(t, i, e, init, off);
      assert ([e] + rest)[..|rest|] == [e] + init;
    }
  }

  lemma OutcomeStop(t: Tree, i: nat, e: seq<Byte>, rest: seq<seq<Byte>>, parent: bool)
    requires Ok(t) && 0 < i < |t.typ|
    ensures t.typ[i] == 0 ==> Outcome(t, i, [e] + rest, parent) == NoType
    ensures t.typ[i] != 0 && t.typ[i] != T_DIR ==> Outcome(t, i, [e] + rest, parent) == Missing
    ensures t.typ[i] == T_DIR && parent && rest == [] ==> Outcome(t, i, [e] + rest, parent) == At(i)
  {
    hide Clip, Counted, HasParent, ChildAt, Trim, DirAt, DirMap;
    if parent {
      var keys := [e] + rest;
      var init := keys[..|keys| - 1];
      assert rest != [] ==> init[0] == e;
    }
  }

  /** namex from inode start, the root for a path that begins with a slash and the
      current directory otherwise; with the last element's name for its parent. */
  method Namex(t: Tree, path: seq<Byte>, parent: bool, start: nat) returns (w: Walk, name: seq<Byte>)
    requires Ok(t) && 0 < start < |t.typ| && 0 !in path
    ensures w == Outcome(t, start, Elements(path), parent)
    ensures Field(name) && (parent && w.At? ==>
      var es := Elements(path); es != [] && Trim(name) == Clip(es[|es| - 1]))
  {
    hide Resolve, ResolveParent, Clip, Counted, HasParent, ChildAt, Trim, DirAt, DirMap, Elements;
    name := seq(DIRSIZ, _ => 0);
    var ip, left := start, path;
    ghost var all := Elements(path);
    while true
      invariant 0 !in left && 0 < ip < |t.typ| && Field(name)
      invariant Outcome(t, ip, Elements(left), parent) == Outcome(t, start, all, parent)
      invariant Elements(left) != [] ==> all != [] && Elements(left)[|Elements(left)| - 1] == all[|all| - 1]
      invariant parent ==> Elements(left) != [] || left == path
      decreases |left|
    {
      var rest;
      rest, name := SkipElem(left, name);
      if rest.None? {
        break;
      }
      ghost var tail := Elements(rest.value);
      ghost var e :| Elements(left) == [e] + tail && Trim(name) == Clip(e);
      OutcomeStop(t, ip, e, tail, parent);
      if t.typ[ip] == 0 {
        return NoType, name;
      }
      if t.typ[ip] != T_DIR {
        return Missing, name;
      }
      if parent && rest.value == [] {
        return At(ip), name;
      }
      DirsOk(t, ip);
      var off := DirLookup(t.dirs[ip], name);
      OutcomeStep(t, ip, e, tail, off, parent);
      if off.None? {
        return Missing, name;
      }
      ip := t.dirs[ip][off.value].inum;
      left := rest.value;
    }
    OutcomeEnd(t, ip, parent);
    w := if parent then Missing else At(ip);
  }

  lemma OutcomeEnd(t: Tree, i: nat, parent: bool)
    requires Ok(t) && 0 < i < |t.typ|
    ensures Outcome(t, i, [], parent) == if parent then Missing else At(i)
  {
  }

  lemma DirsOk(t: Tree, i: nat)
    requires Wellformed(t) && 0 < i < |t.typ| && t.typ[i] == T_DIR
    ensures DirAt(t, i) && DirOk(t.dirs[i])
  {
  }

  /** A walk that starts at a directory with a link meets only inodes with links: it
      never comes to the panic. */
  lemma {:induction false} LinkedWalk(t: Tree, i: nat, keys: seq<seq<Byte>>)
    requires Ok(t) && 0 < i < |t.typ| && t.nlink[i] > 0
    ensures !Resolve(t, i, keys).NoType?
    ensures Resolve(t, i, keys).At? ==> t.nlink[Resolve(t, i, keys).i] > 0
    decreases |keys|
  {
    hide Clip, Counted, HasParent, ChildAt, Trim, DirAt, Names;
    if keys != [] && t.typ[i] == T_DIR {
      DirsOk(t, i);
      DirMapAt(t.dirs[i], Clip(keys[0]));
      if Clip(keys[0]) in DirMap(t.dirs[i]) {
        var k :| Holds(t.dirs[i], Clip(keys[0]), k);
        LinkedEntry(t, i, k);
        LinkedWalk(t, t.dirs[i][k].inum, keys[1..]);
      }
    }
  }

  lemma LinkedEntry(t: Tree, d: nat, k: int)
    requires Ok(t) && Linked(t, d) && Used(t.dirs[d], k)
    ensures 0 < t.dirs[d][k].inum < |t.typ| && t.nlink[t.dirs[d][k].inum] > 0
  {
    hide Counted, HasParent, ChildAt, Trim;
    assert DirAt(t, d);
    var i := t.dirs[d][k].inum;
    if i != d {
      assert Names(t, d, k, i) by { NotDot(t, d, k); }
      NamedHasLink(t, d, k, i);
    }
  }

  lemma NotDot(t: Tree, d: nat, k: int)
    requires Shaped(t) && 0 < d < |t.typ| && DirAt(t, d) && Used(t.dirs[d], k) && t.dirs[d][k].inum != d
    ensures Trim(t.dirs[d][k].name) != DOT
  {
    hide Trim;
    assert Used(t.dirs[d], 0);
  }

  /** n times up from inode i through directories that have lost their link. */
  ghost function Climb(t: Tree, i: nat, n: nat): (j: nat)
    requires Ok(t) && 0 < i < |t.typ|
    ensures 0 < j < |t.typ|
  {
    if n == 0 then i
    else
      var j := Climb(t, i, n - 1);
      assert t.typ[j] == T_DIR ==> DirAt(t, j);
      if t.typ[j] == T_DIR && t.nlink[j] <= 0 then t.dirs[j][1].inum else j
  }

  ghost function Ups(n: nat): seq<seq<Byte>> {
    seq(n, _ => DOTDOT)
  }

  /** In a directory without a link, "." stays, ".." climbs and no other name is found. */
  lemma UnlinkedStep(t: Tree, j: nat, e: seq<Byte>, rest: seq<seq<Byte>>)
    requires Ok(t) && 0 < j < |t.typ| && t.typ[j] == T_DIR && t.nlink[j] <= 0
    ensures DirAt(t, j) && 0 < t.dirs[j][1].inum < |t.typ|
    ensures Resolve(t, j, [e] + rest) ==
      if Clip(e) == DOT then Resolve(t, j, rest) else if Clip(e) == DOTDOT then Resolve(t, t.dirs[j][1].inum,
          rest) else Missing
  {
    hide Clip, Counted, HasParent, ChildAt, Trim;
    DirsOk(t, j);
    assert Holds(t.dirs[j], DOT, 0) && Holds(t.dirs[j], DOTDOT, 1);
    var off := if Clip(e) == DOT then Some(0) else if Clip(e) == DOTDOT then Some(1) else None;
    DirMapAt(t.dirs[j], Clip(e));
    ResolveStep(t, j, e, rest, off);
  }

  lemma {:induction false} UpsReach(t: Tree, i: nat, n: nat, k: nat)
    requires Ok(t) && 0 < i < |t.typ| && k <= n && t.typ[Climb(t, i, n)] == 0
    requires forall m :: 0 <= m < n ==> t.typ[Climb(t, i, m)] != 0
    ensures Resolve(t, Climb(t, i, k), Ups(n + 1 - k)) == NoType
    decreases n - k
  {
    hide Resolve, Climb, Counted, Clip;
    var j := Climb(t, i, k);
    var rest := Ups(n - k);
    assert Ups(n + 1 - k) == [DOTDOT] + rest;
    if k == n {
      OutcomeStop(t, j, DOTDOT, rest, false);
    } else {
      StillClimbing(t, i, n, k);
      UnlinkedStep(t, j, DOTDOT, rest);
      assert Clip(DOTDOT) == DOTDOT by { ClipDots(); }
      UpsReach(t, i, n, k + 1);
    }
  }

  lemma ClipDots()
    ensures Clip(DOTDOT) == DOTDOT && DOT != DOTDOT
  {
  }

  /** Short of the free inode, the climb is in directories without a link. */
  lemma {:induction false} StillClimbing(t: Tree, i: nat, n: nat, k: nat)
    requires Ok(t) && 0 < i < |t.typ| && k < n && t.typ[Climb(t, i, n)] == 0 && t.typ[Climb(t, i, k)] != 0
    ensures var j := Climb(t, i, k);
            t.typ[j] == T_DIR && t.nlink[j] <= 0 && |t.dirs[j]| >= 2 && Climb(t, i, k + 1) == t.dirs[j][1].inum
  {
    hide Counted, HasParent, ChildAt, Trim, DirOk;
    var j := Climb(t, i, k);
    if t.typ[j] == T_DIR && t.nlink[j] <= 0 {
      DirsOk(t, j);
      assert Climb(t, i, k + 1) == t.dirs[j][1].inum;
    } else {
      Stays(t, i, k, n);
    }
  }

  lemma {:induction false} Stays(t: Tree, i: nat, k: nat, n: nat)
    requires Ok(t) && 0 < i < |t.typ| && k <= n
    requires var j := Climb(t, i, k); !(t.typ[j] == T_DIR && t.nlink[j] <= 0)
    ensures Climb(t, i, n) == Climb(t, i, k)
    decreases n
  {
    hide Ok;
    if k < n {
      Stays(t, i, k, n - 1);
    }
  }

  lemma {:induction false} ClimbSafe(t: Tree, i: nat, n: nat, keys: seq<seq<Byte>>)
    requires Ok(t) && 0 < i < |t.typ| && forall m: nat :: t.typ[Climb(t, i, m)] != 0
    ensures !Resolve(t, Climb(t, i, n), keys).NoType?
    decreases |keys|
  {
    hide Climb, Counted, Clip, HasParent, ChildAt, DirAt;
    var j := Climb(t, i, n);
    if t.nlink[j] > 0 {
      LinkedWalk(t, j, keys);
    } else if keys != [] && t.typ[j] == T_DIR {
      var e, rest := keys[0], keys[1..];
      assert keys == [e] + rest;
      UnlinkedStep(t, j, e, rest);
      ClimbNext(t, i, n);
      ClimbSafe(t, i, n, rest);
      ClimbSafe(t, i, n + 1, rest);
    }
  }

  lemma ClimbNext(t: Tree, i: nat, n: nat)
    requires Ok(t) && 0 < i < |t.typ|
    requires var j := Climb(t, i, n); t.typ[j] == T_DIR && t.nlink[j] <= 0
    ensures |t.dirs[Climb(t, i, n)]| >= 2 && Climb(t, i, n + 1) == t.dirs[Climb(t, i, n)][1].inum
  {
    hide Counted, HasParent, ChildAt, Trim, DirOk;
    DirsOk(t, Climb(t, i, n));
  }

  /** No path from i meets ilock's panic if and only if climbing from i through
      directories that have lost their link meets no free inode. */
  lemma PanicFreeIff(t: Tree, i: nat)
    requires Ok(t) && 0 < i < |t.typ|
    ensures (forall keys :: !Resolve(t, i, keys).NoType?) <==> forall n: nat :: t.typ[Climb(t, i, n)] != 0
  {
    hide Ok, Resolve;
    if forall n: nat :: t.typ[Climb(t, i, n)] != 0 {
      forall keys ensures !Resolve(t, i, keys).NoType? {
        ClimbSafe(t, i, 0, keys);
      }
    } else {
      var n: nat :| t.typ[Climb(t, i, n)] == 0;
      var m := FirstFree(t, i, n);
      UpsReach(t, i, m, 0);
      assert Resolve(t, i, Ups(m + 1)) == NoType;
    }
  }

  lemma {:induction false} FirstFree(t: Tree, i: nat, n: nat) returns (m: nat)
    requires Ok(t) && 0 < i < |t.typ| && t.typ[Climb(t, i, n)] == 0
    ensures m <= n && t.typ[Climb(t, i, m)] == 0 && forall k :: 0 <= k < m ==> t.typ[Climb(t, i, k)] != 0
  {
    hide Ok, Climb;
    m := 0;
    while t.typ[Climb(t, i, m)] != 0
      invariant m <= n && forall k :: 0 <= k < m ==> t.typ[Climb(t, i, k)] != 0
      decreases n - m
    {
      m := m + 1;
    }
  }

  // ---- the panic reached ----

  lemma NewDirMap(es: seq<Dirent>, self: nat, parent: nat)
    requires NewDir(es, self, parent) && self != 0 && parent != 0
    ensures DirMap(es) == map[DOT := self, DOTDOT := parent]
  {
    hide Trim, DirMap;
    forall key
      ensures key in DirMap(es) <==> key == DOT || key == DOTDOT
      ensures key in DirMap(es) ==> DirMap(es)[key] == map[DOT := self, DOTDOT := parent][key]
    {
      DirMapAt(es, key);
      assert key == DOT ==> Holds(es, key, 0);
      assert key == DOTDOT ==> Holds(es, key, 1);
    }
  }

  /** A directory whose map has no other names than "." and ".." is empty. */
  lemma OnlyDots(t: Tree, d: int)
    requires Shaped(t) && 0 < d < |t.typ| && DirAt(t, d) && DirMap(t.dirs[d]).Keys == {DOT, DOTDOT}
    ensures forall j :: 2 <= j < |t.dirs[d]| ==> !Used(t.dirs[d], j)
  {
    hide Trim, DirMap;
    var es := t.dirs[d];
    assert Used(es, 0) && Used(es, 1);
    forall j | 2 <= j < |es|
      ensures !Used(es, j)
    {
      if Used(es, j) {
        assert Holds(es, Trim(es[j].name), j);
        DirMapAt(es, Trim(es[j].name));
        assert false;
      }
    }
  }

  lemma MapNames(t: Tree, dp: int, key: seq<Byte>, i: nat)
    requires Shaped(t) && 0 < dp < |t.typ| && DirAt(t, dp) && key != DOT && key != DOTDOT && 0 < i < |t.typ|
    requires key in DirMap(t.dirs[dp]) && DirMap(t.dirs[dp])[key] == i && Emptied(t, i)
    ensures Removable(t, dp, key)
  {
    hide Trim, DirMap;
    DirMapAt(t.dirs[dp], key);
  }

  const A: seq<Byte> := [97]
  const B: seq<Byte> := [98]

  /** mkdir a; mkdir a/b, as inodes 2 and 3. */
  method MakeTwo() returns (ns: Namespace)
    ensures fresh(ns) && Ok(ns.T()) && ns.typ == [0, T_DIR, T_DIR, T_DIR]
    ensures ns.nlink[2] == 2 && ns.nlink[3] == 1 && NewDir(ns.dirs[3], 3, 2)
    ensures DirOk(ns.dirs[1]) && DirMap(ns.dirs[1]) == map[DOT := 1, DOTDOT := 1, A := 2]
    ensures DirOk(ns.dirs[2]) && DirMap(ns.dirs[2]) == map[DOT := 2, DOTDOT := 1, B := 3]
  {
    hide Wellformed, Counted, Trim, DirMap, DirOk;
    ns := new Namespace(4);
    DirHere(ns.T(), 1);
    NewDirMap(ns.dirs[1], 1, 1);
    ghost var made;
    var r;
    r, made := ns.Create(1, Filled(A), T_DIR, Some(2), true, true, true);
    DirHere(ns.T(), 2);
    NewDirMap(ns.dirs[2], 2, 1);
    r, made := ns.Create(2, Filled(B), T_DIR, Some(3), true, true, true);
  }

  /** THE PANIC REACHED. In a directory b below a, remove b and then a, and let the last
      reference to a go, while b is still some process's current directory. The counts
      are right at every step, and the path "../.." from b meets a free inode: ".." stays
      behind when the parent is freed. */
  method StaleDotDot() returns (ns: Namespace)
    ensures fresh(ns) && Ok(ns.T()) && |ns.typ| == 4 && ns.typ[3] == T_DIR
    ensures Resolve(ns.T(), 3, [DOTDOT, DOTDOT]) == NoType
  {
    hide Wellformed, Counted, Trim, DirMap, DirOk;
    ns := MakeTwo();
    DirHere(ns.T(), 2);
    MapNames(ns.T(), 2, B, 3);
    ghost var i;
    var ok;
    ok, i := ns.Unlink(2, Filled(B));
    assert DirMap(ns.dirs[2]) == map[DOT := 2, DOTDOT := 1];
    DirHere(ns.T(), 1);
    DirHere(ns.T(), 2);
    OnlyDots(ns.T(), 2);
    MapNames(ns.T(), 1, A, 2);
    ok, i := ns.Unlink(1, Filled(A));
    ns.Iput(2);
    NewDirMap(ns.dirs[3], 3, 2);
    assert [DOTDOT, DOTDOT][1..] == [DOTDOT];
  }
}
