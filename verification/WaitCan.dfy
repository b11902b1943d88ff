/** wait finds an exited child: from every reachable state in which a process waits and a child
    of it has exited, it can go on to free one. */
module WaitCan {
  import opened Basics
  import opened WaitExit
  import opened WaitEnds

  // ---- scans stay in the table ----

  predicate Bounded(pc: Pc, n: nat) {
    && (pc.Scan? || pc.Reparent? || pc.WakeInit? ==> pc.next <= n)
    && (pc.WakeInit? || pc.WakeParent? ==> pc.k <= n)
  }

  ghost predicate Bounds(s: Sys) {
    forall p :: 0 <= p < |s.pc| ==> Bounded(s.pc[p], |s.pc|)
  }

  lemma BoundedOwn(s: Sys, st: Step, t: Sys)
    requires Enabled(s, st) && t == Do(s, st) && Bounded(s.pc[st.p], |s.pc|)
    ensures |t.pc| == |s.pc| && Bounded(t.pc[st.p], |t.pc|)
  {
    hide Target;
  }

  lemma BoundsStep(s: Sys, st: Step, t: Sys)
    requires Inv(s) && Bounds(s) && Enabled(s, st) && t == Do(s, st)
    ensures Bounds(t)
  {
    hide Inv, Enabled, Do, Bounded;
    InRange(s, st);
    InvForks(s);
    BoundedOwn(s, st, t);
    forall p | 0 <= p < |t.pc|
      ensures Bounded(t.pc[p], |t.pc|)
    {
      if p != st.p {
        OthersStay(s, st, t, p);
        BoundedPlain(t.pc[p], |t.pc|);
      }
    }
  }

  lemma BoundedPlain(pc: Pc, n: nat)
    ensures pc.Free? || pc.Born? || pc.User? ==> Bounded(pc, n)
  {
  }

  lemma {:induction false} BoundsKept(run: seq<Sys>, i: nat)
    requires IsRun(run) && i < |run|
    ensures Inv(run[i]) && Bounds(run[i])
  {
    hide Inv, Enabled, Do, Bounds;
    RunKeeps(run, i);
    if i == 0 {
      StartBounds(run[0]);
    } else {
      BoundsKept(run, i - 1);
      assert Next(run[i - 1], run[i - 1 + 1]);
      var st :| Enabled(run[i - 1], st) && run[i] == Do(run[i - 1], st);
      BoundsStep(run[i - 1], st, run[i]);
    }
  }

  lemma StartBounds(s: Sys)
    requires Init(s)
    ensures Bounds(s)
  {
  }

  // ---- the holder of wait_lock goes on ----

  /** What a process still does with its own lock held. */
  function Own(pc: Pc): nat {
    if pc.Gave? then 2 else if pc.Slept? || pc.Leaving? then 1 else 0
  }

  /** The slot at which the holder's scan stands. */
  function Place(pc: Pc): nat {
    if pc.Scan? then pc.next else if pc.WakeInit? || pc.WakeParent? then pc.k else 0
  }

  function Major(pc: Pc, n: nat): nat {
    match pc
    case Scan(_, _) => 3
    case Entering => 2
    case WakeParent(_) => 2
    case Reparent(m) => if m <= n then 3 + 2 * (n - m) else 3
    case WakeInit(m, _) => if m <= n then 4 + 2 * (n - m) else 4
    case _ => 1
  }

  function Minor(pc: Pc, n: nat): nat {
    if (pc.Scan? || pc.WakeInit? || pc.WakeParent?) && Place(pc) < n then n - Place(pc) else 0
  }

  ghost function Waits(s: Sys, q: Proc): nat
    requires q < |s.pc|
  {
    if (s.pc[q].Scan? || s.pc[q].WakeInit? || s.pc[q].WakeParent?) && Place(s.pc[q]) < |s.pc|
    then Own(s.pc[Place(s.pc[q])]) else 0
  }

  /** t is nearer than s to q's release of wait_lock. */
  ghost predicate Nearer(s: Sys, t: Sys, q: Proc) {
    && q < |s.pc| == |t.pc| && t.lock == Some(q)
    && var n := |s.pc|;
       || Major(t.pc[q], n) < Major(s.pc[q], n)
       || (Major(t.pc[q], n) == Major(s.pc[q], n) && Minor(t.pc[q], n) < Minor(s.pc[q], n))
       || (t.pc[q] == s.pc[q] && Waits(t, q) < Waits(s, q))
  }

  /** A step of q, or one of another process towards the release of its own lock. */
  predicate For(st: Step, q: Proc) {
    st.SetState? || st.Switch? || st.Gone? || (st.p == q && !st.CopyFails?)
  }

  /** Process k goes on with its own lock held, where the scan of q stands. */
  lemma OwnStep(s: Sys, q: Proc, k: Proc) returns (st: Step)
    requires Inv(s) && q < |s.pc| && k < |s.pc| && k != q && s.lock == Some(q) && HoldsOwn(s.pc[k])
    requires (s.pc[q].Scan? || s.pc[q].WakeInit? || s.pc[q].WakeParent?) && Place(s.pc[q]) == k
    ensures Enabled(s, st) && For(st, q) && st.p == k && Nearer(s, Do(s, st), q)
  {
    hide Family, Watched, Forks;
    assert LockAt(s, k);
    st := if s.pc[k].Gave? then SetState(k) else if s.pc[k].Slept? then Switch(k) else Gone(k);
  }

  lemma ScanStep(s: Sys, q: Proc) returns (st: Step)
    requires Inv(s) && Bounds(s) && q < |s.pc| && s.lock == Some(q) && s.pc[q].Scan?
    ensures Enabled(s, st) && For(st, q) && (Do(s, st).lock.None? || Nearer(s, Do(s, st), q))
    ensures s.pc[q].next < |s.pc| ==> st.p != q || st.Reap? || (st.ScanOne? && (AtChild(s, q) ==> !Zombie(s.pc[s.pc[q].next])))
  {
    hide Inv;
    InvForks(s);
    var k := s.pc[q].next;
    assert Bounded(s.pc[q], |s.pc|);
    if k == |s.pc| {
      st := if !s.pc[q].kids || s.killed[q] then GiveUp(q) else Sleep(q);
    } else if AtChild(s, q) && HoldsOwn(s.pc[k]) {
      NotOwnChild(s, q);
      st := OwnStep(s, q, k);
    } else if AtChild(s, q) && s.pc[k].Dead? {
      st := Reap(q);
    } else {
      st := ScanOne(q);
    }
  }

  /** Nobody scans itself as its child. */
  lemma NotOwnChild(s: Sys, q: Proc)
    requires Inv(s) && q < |s.pc| && s.pc[q].Scan? && s.pc[q].next < |s.pc| && HoldsOwn(s.pc[s.pc[q].next])
    ensures s.pc[q].next != q
  {
  }

  lemma WakeStep(s: Sys, q: Proc) returns (st: Step)
    requires Inv(s) && Bounds(s) && q < |s.pc| && s.lock == Some(q) && (s.pc[q].WakeInit? || s.pc[q].WakeParent?)
    ensures Enabled(s, st) && For(st, q) && Nearer(s, Do(s, st), q)
  {
    hide Inv;
    InvForks(s);
    var k := s.pc[q].k;
    assert Bounded(s.pc[q], |s.pc|);
    if k == |s.pc| {
      st := if s.pc[q].WakeInit? then WakeInitDone(q) else Mark(q);
    } else if k != q && HoldsOwn(s.pc[k]) {
      st := OwnStep(s, q, k);
    } else {
      st := WakeOne(q);
    }
  }

  lemma LockStep(s: Sys, q: Proc) returns (st: Step)
    requires Inv(s) && Bounds(s) && q < |s.pc| && s.lock == Some(q)
    ensures Enabled(s, st) && For(st, q) && (Do(s, st).lock.None? || Nearer(s, Do(s, st), q))
    ensures s.pc[q].Scan? && s.pc[q].next < |s.pc| ==>
              st.p != q || st.Reap? || (st.ScanOne? && (AtChild(s, q) ==> !Zombie(s.pc[s.pc[q].next])))
  {
    HolderKind(s, q);
    if s.pc[q].Scan? {
      st := ScanStep(s, q);
    } else if s.pc[q].WakeInit? || s.pc[q].WakeParent? {
      st := WakeStep(s, q);
    } else {
      st := PlainStep(s, q);
    }
  }

  lemma HolderKind(s: Sys, q: Proc)
    requires Inv(s) && q < |s.pc| && s.lock == Some(q)
    ensures HoldsWait(s.pc[q])
  {
    assert LockAt(s, q);
  }

  lemma PlainStep(s: Sys, q: Proc) returns (st: Step)
    requires Inv(s) && Bounds(s) && q < |s.pc| && s.lock == Some(q)
    requires s.pc[q].Entering? || s.pc[q].OwnLocked? || s.pc[q].Reparent? || s.pc[q].Zombied?
    ensures Enabled(s, st) && For(st, q) && (Do(s, st).lock.None? || Nearer(s, Do(s, st), q))
  {
    hide Inv;
    InvForks(s);
    assert Bounded(s.pc[q], |s.pc|);
    st := if s.pc[q].Entering? then TakeOwn(q)
          else if s.pc[q].OwnLocked? then GiveWait(q)
          else if s.pc[q].Zombied? then LeaveExit(q)
          else if s.pc[q].next < |s.pc| then ReparentOne(q) else ReparentDone(q);
  }

  // ---- wait frees a child ----

  /** p waits, and its child c has exited. */
  ghost predicate Due(s: Sys, p: Proc, c: Proc) {
    && Shape(s) && p < |s.pc| && c < |s.pc| && InWait(s.pc[p]) && s.parent[c] == Some(p) && Zombie(s.pc[c])
  }

  /** What the invariant says of such a process: it is not asleep when wait_lock is free, and
      its scan has not passed the child. */
  lemma DueSeen(s: Sys, p: Proc, c: Proc)
    requires Inv(s) && Due(s, p, c)
    ensures s.lock.None? ==> s.pc[p].WantWait? || (s.pc[p].Parked? && !s.asleep[p])
    ensures s.lock == Some(p) ==> s.pc[p].Scan? && s.pc[p].next <= c
    ensures s.lock.Some? ==> s.lock.value < |s.pc|
  {
    assert Seen(s, c, p) && LockAt(s, p);
  }

  lemma DueStep(s: Sys, st: Step, t: Sys, q: Proc, p: Proc, c: Proc)
    requires Inv(s) && Due(s, p, c) && Enabled(s, st) && t == Do(s, st) && For(st, q)
    requires q == p ==> !st.GiveUp? && !(st.Reap? && st.p == p)
    ensures Due(t, p, c)
  {
    hide Inv, Enabled, Do, Due;
    DueRange(s, st, p, c);
    DueChild(s, st, t, q, p, c);
    if st.p == p {
      DueOwn(s, st, t, q, p, c);
    } else {
      DueOther(s, st, t, p, c);
    }
    DueIs(t, p, c);
  }

  lemma DueRange(s: Sys, st: Step, p: Proc, c: Proc)
    requires Inv(s) && Due(s, p, c) && Enabled(s, st)
    ensures Shape(s) && p < |s.pc| && c < |s.pc| && st.p < |s.pc| && InWait(s.pc[p])
  {
  }

  lemma DueIs(s: Sys, p: Proc, c: Proc)
    requires Shape(s) && p < |s.pc| && c < |s.pc| && InWait(s.pc[p]) && s.parent[c] == Some(p) && Zombie(s.pc[c])
    ensures Due(s, p, c)
  {
  }

  lemma DueChild(s: Sys, st: Step, t: Sys, q: Proc, p: Proc, c: Proc)
    requires Inv(s) && Due(s, p, c) && Enabled(s, st) && t == Do(s, st) && For(st, q)
    requires q == p ==> !st.GiveUp? && !(st.Reap? && st.p == p)
    ensures Shape(t) && |t.pc| == |s.pc| && t.parent[c] == Some(p) && Zombie(t.pc[c])
  {
    hide Locks, Watched, Target;
    assert MyFork(s, st.p);
  }

  lemma DueOwn(s: Sys, st: Step, t: Sys, q: Proc, p: Proc, c: Proc)
    requires Inv(s) && Due(s, p, c) && Enabled(s, st) && t == Do(s, st) && For(st, q) && st.p == p
    requires q == p ==> !st.GiveUp? && !(st.Reap? && st.p == p)
    ensures p < |t.pc| && InWait(t.pc[p])
  {
    hide Inv, Target;
  }

  lemma DueOther(s: Sys, st: Step, t: Sys, p: Proc, c: Proc)
    requires Inv(s) && Due(s, p, c) && Enabled(s, st) && t == Do(s, st) && st.p != p
    ensures p < |t.pc| && InWait(t.pc[p])
  {
    hide Enabled, Do, Inv;
    InvForks(s);
    OthersStay(s, st, t, p);
  }

  ghost predicate Path(ss: seq<Sys>) {
    |ss| > 0 && forall i :: 0 <= i < |ss| - 1 ==> Next(ss[i], ss[i + 1])
  }

  lemma PathCons(s: Sys, st: Step, ss: seq<Sys>)
    requires Path(ss) && Enabled(s, st) && ss[0] == Do(s, st)
    ensures Path([s] + ss)
  {
    hide Enabled, Do;
    var l := [s] + ss;
    forall i | 0 <= i < |l| - 1
      ensures Next(l[i], l[i + 1])
    {
      if i > 0 {
        assert Next(ss[i - 1], ss[i - 1 + 1]);
      }
    }
  }

  /** A path whose last step frees a child of p. */
  ghost predicate Frees(s: Sys, ss: seq<Sys>, p: Proc) {
    |ss| >= 2 && Path(ss) && ss[0] == s && Freed(ss[|ss| - 2], ss[|ss| - 1], p)
  }

  ghost predicate Freed(s: Sys, t: Sys, p: Proc) {
    exists c :: Reaps(s, t, p, c)
  }

  lemma FreesCons(s: Sys, st: Step, ss: seq<Sys>, p: Proc)
    requires Enabled(s, st) && Frees(Do(s, st), ss, p)
    ensures Frees(s, [s] + ss, p)
  {
    hide Enabled, Do, Path, Freed;
    PathCons(s, st, ss);
    var l := [s] + ss;
    assert l[|l| - 2] == ss[|ss| - 2] && l[|l| - 1] == ss[|ss| - 1];
  }

  lemma FreesNow(s: Sys, p: Proc)
    requires Inv(s) && Enabled(s, Reap(p))
    ensures Frees(s, [s, Do(s, Reap(p))], p)
  {
    var t := Do(s, Reap(p));
    var ss := [s, t];
    assert Next(s, t);
    ReapsNow(s, p, t);
    assert Freed(s, t, p);
    assert ss[|ss| - 2] == s && ss[|ss| - 1] == t;
  }

  lemma ReapsNow(s: Sys, p: Proc, t: Sys)
    requires Enabled(s, Reap(p)) && t == Do(s, Reap(p))
    ensures Reaps(s, t, p, s.pc[p].next)
  {
  }

  /** Which of four stretches p is in. */
  ghost function Stretch(s: Sys, p: Proc): nat
    requires p < |s.pc|
  {
    if s.lock == Some(p) then 0 else if s.lock.Some? then 3 else if s.pc[p].WantWait? then 1 else 2
  }

  ghost function Holder(s: Sys): Proc {
    if s.lock.Some? && s.lock.value < |s.pc| then s.lock.value else 0
  }

  lemma {:induction false} GoesOn(s: Sys, p: Proc, c: Proc) returns (ss: seq<Sys>)
    requires Inv(s) && Bounds(s) && p < |s.pc| && Due(s, p, c)
    ensures Frees(s, ss, p)
    decreases Stretch(s, p), Major(s.pc[Holder(s)], |s.pc|), Minor(s.pc[Holder(s)], |s.pc|), Waits(s, Holder(s))
  {
    hide Inv, Bounds, Due, Frees, Enabled, Do, Major, Minor, Waits;
    DueSeen(s, p, c);
    InvForks(s);
    var st;
    if s.lock.Some? {
      st := LockStep(s, s.lock.value);
      NotGivenUp(s, st, p, c);
    } else {
      st := if s.pc[p].WantWait? then TakeWait(p) else Resume(p);
      FreeLock(s, p, st);
    }
    if st == Reap(p) {
      FreesNow(s, p);
      ss := [s, Do(s, st)];
    } else {
      var t := Do(s, st);
      DueStep(s, st, t, if s.lock.Some? then s.lock.value else p, p, c);
      StepKeeps(s, st, t);
      BoundsStep(s, st, t);
      DueSeen(t, p, c);
      SameLength(s, st, t);
      ss := GoesOn(t, p, c);
      FreesCons(s, st, ss, p);
      ss := [s] + ss;
    }
  }

  lemma NotGivenUp(s: Sys, st: Step, p: Proc, c: Proc)
    requires Inv(s) && Due(s, p, c) && s.lock.Some? && s.lock.value < |s.pc| && For(st, s.lock.value) && Enabled(s, st)
    requires s.lock == Some(p) && s.pc[p].Scan? && s.pc[p].next < |s.pc| ==> st.p != p || st.Reap? || st.ScanOne?
    ensures s.lock == Some(p) ==> !st.GiveUp? && (st != Reap(p) ==> Do(s, st).lock == Some(p))
  {
    hide Inv;
    DueSeen(s, p, c);
  }

  lemma FreeLock(s: Sys, p: Proc, st: Step)
    requires Shape(s) && p < |s.pc| && s.lock.None? && (s.pc[p].WantWait? || (s.pc[p].Parked? && !s.asleep[p]))
    requires st == if s.pc[p].WantWait? then TakeWait(p) else Resume(p)
    ensures Enabled(s, st) && For(st, p) && p < |Do(s, st).pc|
    ensures Stretch(Do(s, st), p) < Stretch(s, p)
  {
  }

  /** AN EXITED CHILD IS FOUND. In every reachable state, a process that is in wait and has a child
      that has exited can go on to free a child. */
  lemma WaitCanReap(run: seq<Sys>, i: nat, p: Proc, c: Proc) returns (ss: seq<Sys>)
    requires IsRun(run) && i < |run| && p < |run[i].pc| && Due(run[i], p, c)
    ensures Frees(run[i], ss, p)
  {
    BoundsKept(run, i);
    ss := GoesOn(run[i], p, c);
  }

  // ---- exit comes to its end ----

  /** In user space or in exit. */
  predicate Leaves(pc: Pc) {
    pc.User? || Exiting(pc) || pc.Zombied? || pc.Leaving?
  }

  ghost function ExitStage(s: Sys, p: Proc): nat
    requires p < |s.pc|
  {
    if s.pc[p].Leaving? then 0 else if s.lock == Some(p) then 1 else if s.lock.None? then 2 else 3
  }

  /** What happens next on the way of p out of exit. */
  lemma ExitStep(s: Sys, p: Proc) returns (st: Step)
    requires Inv(s) && Bounds(s) && p < |s.pc| && p != s.init && Leaves(s.pc[p])
    ensures Enabled(s, st) && |Do(s, st).pc| == |s.pc| && Do(s, st).init == s.init
    ensures var t := Do(s, st);
            || t.pc[p].Dead?
            || (Leaves(t.pc[p]) && (ExitStage(t, p) < ExitStage(s, p)
                                    || (ExitStage(t, p) == ExitStage(s, p) && s.lock.Some? && Nearer(s, t, s.lock.value))))
  {
    hide Inv, Bounds, Nearer;
    InvForks(s);
    ExitLock(s, p);
    if s.pc[p].Leaving? {
      st := Gone(p);
    } else if s.lock.None? {
      st := CallExit(p);
    } else {
      st := LockStep(s, s.lock.value);
      ExitKeeps(s, st, p);
    }
  }

  lemma ExitLock(s: Sys, p: Proc)
    requires Inv(s) && p < |s.pc|
    ensures Exiting(s.pc[p]) || s.pc[p].Zombied? ==> s.lock == Some(p)
    ensures s.lock.Some? ==> s.lock.value < |s.pc| && HoldsWait(s.pc[s.lock.value])
  {
    assert LockAt(s, p);
    if s.lock.Some? {
      HolderKind(s, s.lock.value);
    }
  }

  lemma ExitKeeps(s: Sys, st: Step, p: Proc)
    requires Inv(s) && p < |s.pc| && Leaves(s.pc[p]) && !s.pc[p].Leaving? && s.lock.Some? && s.lock.value < |s.pc|
    requires Enabled(s, st) && For(st, s.lock.value) && (Do(s, st).lock.None? || Nearer(s, Do(s, st), s.lock.value))
    ensures |Do(s, st).pc| == |s.pc| && Do(s, st).init == s.init && Leaves(Do(s, st).pc[p])
    ensures var t := Do(s, st); t.lock == s.lock || ExitStage(t, p) < ExitStage(s, p)
  {
    hide Inv, Nearer, Target;
    InvForks(s);
    ExitLock(s, p);
    if st.p != p {
      OthersStay(s, st, Do(s, st), p);
    }
  }

  /** EXIT ENDS. In every reachable state a process other than init that is in user space or in exit
      can go on to be a zombie that its parent can free. */
  lemma {:induction false} Exits(s: Sys, p: Proc) returns (ss: seq<Sys>)
    requires Inv(s) && Bounds(s) && p < |s.pc| && p != s.init && Leaves(s.pc[p])
    ensures Path(ss) && |ss| > 0 && ss[0] == s && p < |ss[|ss| - 1].pc| && ss[|ss| - 1].pc[p].Dead?
    decreases ExitStage(s, p), Major(s.pc[Holder(s)], |s.pc|), Minor(s.pc[Holder(s)], |s.pc|), Waits(s, Holder(s))
  {
    hide Inv, Bounds, Enabled, Do, Major, Minor, Waits, ExitStage, Path;
    var st := ExitStep(s, p);
    var t := Do(s, st);
    StepKeeps(s, st, t);
    BoundsStep(s, st, t);
    if t.pc[p].Dead? {
      ss := [t];
      OnePath(t);
    } else {
      ss := Exits(t, p);
    }
    PathCons(s, st, ss);
    ss := [s] + ss;
  }

  lemma OnePath(s: Sys)
    ensures Path([s])
  {
  }

  lemma ExitCanEnd(run: seq<Sys>, i: nat, p: Proc) returns (ss: seq<Sys>)
    requires IsRun(run) && i < |run| && p < |run[i].pc| && p != run[i].init && Leaves(run[i].pc[p])
    ensures Path(ss) && ss[0] == run[i] && p < |ss[|ss| - 1].pc| && ss[|ss| - 1].pc[p].Dead?
  {
    BoundsKept(run, i);
    ss := Exits(run[i], p);
  }
}
