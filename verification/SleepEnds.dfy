/** How a call of acquiresleep ends: only with the lock held, and from every reachable state it
    can. */
module SleepEnds {
  import opened Basics
  import opened SleepLock

  /** In acquiresleep. */
  predicate Acquiring(pc: Pc) {
    pc.WantInner? || pc.Testing? || pc.Entering? || pc.OwnLocked? || pc.Gave? || pc.Slept? || pc.Parked?
  }

  lemma AcquireStep(s: Sys, st: Step, t: Sys, p: Proc)
    requires Enabled(s, st) && t == Do(s, st) && p < |s.pc| && Acquiring(s.pc[p])
    ensures |t.pc| == |s.pc| && (Acquiring(t.pc[p]) || (st == Grab(p) && !s.locked && t.pc[p].Holding? && t.locked))
  {
  }

  /** ACQUIRESLEEP ENDS HOLDING. The first state after a process was in acquiresleep in which it
      is not is one in which it holds the lock, and just before the lock was free: a woken
      process goes back to the test. */
  lemma AcquireEnds(run: seq<Sys>, i: nat, p: Proc)
    requires IsRun(run) && i + 1 < |run| && p < |run[i].pc| && Acquiring(run[i].pc[p])
    ensures p < |run[i + 1].pc|
    ensures !Acquiring(run[i + 1].pc[p]) ==> run[i + 1].pc[p].Holding? && run[i + 1].locked && !run[i].locked
  {
    hide Enabled, Do;
    assert Next(run[i], run[i + 1]);
    var st :| Enabled(run[i], st) && run[i + 1] == Do(run[i], st);
    AcquireStep(run[i], st, run[i + 1], p);
  }

  // ---- it can end ----

  ghost predicate Path(ss: seq<Sys>) {
    |ss| > 0 && forall i :: 0 <= i < |ss| - 1 ==> Next(ss[i], ss[i + 1])
  }

  lemma PathCons(s: Sys, st: Step, ss: seq<Sys>)
    requires Path(ss) && Enabled(s, st) && ss[0] == Do(s, st)
    ensures Path([s] + ss)
  {
    hide Enabled, Do;
    var l := [s] + ss;
    forall i | 0 <= i < |l| - 1
      ensures Next(l[i], l[i + 1])
    {
      if i > 0 {
        assert Next(ss[i - 1], ss[i - 1 + 1]);
      }
    }
  }

  /** What a process still does with its own lock held. */
  function Own(pc: Pc): nat {
    if pc.Gave? then 2 else if pc.Slept? then 1 else 0
  }

  /** How much has to happen before p has the lock, if nobody else starts anything: the holder
      of lk->lk gives it up, the holder of the sleep lock releases it and wakes the
      others, and p tests again. */
  ghost function Far(s: Sys, p: Proc): nat
    requires Inv(s) && p < |s.pc|
  {
    var all := 4 + 3 * |s.pc|;
    if s.inner.Some? && s.inner.value < |s.pc| then
      match s.pc[s.inner.value]
      case Testing => if s.locked then all + 8 else if s.inner.value == p then 1 else all + 5
      case Entering => all + 7
      case OwnLocked => all + 6
      case Waking(n) => if n < |s.pc| then 4 + 3 * (|s.pc| - n) + Own(s.pc[n]) else 4
      case _ => 0
    else if s.locked then
      if exists h :: 0 <= h < |s.pc| && s.pc[h].Holding? then all + 4 else all + 3
    else if s.pc[p].WantInner? then 2 else 3
  }

  /** What happens next. */
  lemma NextStep(s: Sys, p: Proc) returns (st: Step)
    requires Inv(s) && p < |s.pc| && Acquiring(s.pc[p])
    ensures Enabled(s, st) && Inv(Do(s, st)) && |Do(s, st).pc| == |s.pc|
    ensures var t := Do(s, st); t.pc[p].Holding? || (Acquiring(t.pc[p]) && Far(t, p) < Far(s, p))
  {
    hide Owned, Reached;
    assert SpinAt(s, p);
    if s.inner.Some? {
      InnerInRange(s);
      st := InnerStep(s, s.inner.value, p);
    } else if s.locked {
      st := HolderStep(s, p);
    } else {
      FreeOf(s, p);
      st := if s.pc[p].WantInner? then TakeInner(p) else Resume(p);
      StepKeeps(s, st, Do(s, st));
    }
  }

  lemma InnerInRange(s: Sys)
    requires Inv(s) && s.inner.Some?
    ensures s.inner.value < |s.pc| && HoldsInner(s.pc[s.inner.value])
  {
    assert SpinAt(s, s.inner.value);
  }

  /** With lk->lk and the lock free, p is neither asleep nor on the way there. */
  lemma FreeOf(s: Sys, p: Proc)
    requires Inv(s) && p < |s.pc| && Acquiring(s.pc[p]) && s.inner.None? && !s.locked
    ensures s.pc[p].WantInner? || (s.pc[p].Parked? && !s.asleep[p])
  {
    assert SpinAt(s, p) && ReachedAt(s, p);
  }

  /** The holder q of lk->lk goes on: in acquiresleep, or in releasesleep. */
  lemma InnerStep(s: Sys, q: Proc, p: Proc) returns (st: Step)
    requires Inv(s) && p < |s.pc| && Acquiring(s.pc[p]) && q < |s.pc| && s.inner == Some(q) && HoldsInner(s.pc[q])
    ensures Enabled(s, st) && Inv(Do(s, st)) && |Do(s, st).pc| == |s.pc|
    ensures var t := Do(s, st); t.pc[p].Holding? || (Acquiring(t.pc[p]) && Far(t, p) < Far(s, p))
  {
    hide Inv, Far, Enabled, Do;
    if s.pc[q].Waking? {
      st := WakingStep(s, q, p);
    } else {
      st := TestingStep(s, q, p);
    }
  }

  lemma TestingStep(s: Sys, q: Proc, p: Proc) returns (st: Step)
    requires Inv(s) && p < |s.pc| && Acquiring(s.pc[p]) && q < |s.pc| && s.inner == Some(q)
    requires s.pc[q].Testing? || s.pc[q].Entering? || s.pc[q].OwnLocked?
    ensures Enabled(s, st) && Inv(Do(s, st)) && |Do(s, st).pc| == |s.pc|
    ensures var t := Do(s, st); t.pc[p].Holding? || (Acquiring(t.pc[p]) && Far(t, p) < Far(s, p))
  {
    hide Owned, Reached;
    assert SpinAt(s, q);
    st := if s.pc[q].Testing? then (if s.locked then Block(q) else Grab(q))
          else if s.pc[q].Entering? then TakeOwn(q) else GiveInner(q);
    StepKeeps(s, st, Do(s, st));
    assert st == Grab(q) ==> Do(s, st).pc[q].Holding?;
  }

  lemma WakingStep(s: Sys, q: Proc, p: Proc) returns (st: Step)
    requires Inv(s) && p < |s.pc| && Acquiring(s.pc[p]) && q < |s.pc| && s.inner == Some(q) && s.pc[q].Waking?
    ensures Enabled(s, st) && Inv(Do(s, st)) && |Do(s, st).pc| == |s.pc|
    ensures var t := Do(s, st); Acquiring(t.pc[p]) && Far(t, p) < Far(s, p)
  {
    hide Owned, Reached;
    assert SpinAt(s, q);
    var n := s.pc[q].next;
    if n == |s.pc| {
      st := Done(q);
    } else {
      assert SpinAt(s, n);
      st := if s.pc[n].Gave? then SetState(n) else if s.pc[n].Slept? then Switch(n) else WakeOne(q);
    }
    StepKeeps(s, st, Do(s, st));
  }

  /** The holder of the lock releases it. */
  lemma HolderStep(s: Sys, p: Proc) returns (st: Step)
    requires Inv(s) && p < |s.pc| && Acquiring(s.pc[p]) && s.inner.None? && s.locked
    ensures Enabled(s, st) && Inv(Do(s, st)) && |Do(s, st).pc| == |s.pc|
    ensures var t := Do(s, st); Acquiring(t.pc[p]) && Far(t, p) < Far(s, p)
  {
    var h :| 0 <= h < |s.pc| && HoldsLock(s.pc[h]);
    st := if s.pc[h].Holding? then Leave(h) else Unlock(h);
    StepKeeps(s, st, Do(s, st));
    var t := Do(s, st);
    forall g | 0 <= g < |s.pc| && g != h
      ensures !HoldsLock(s.pc[g])
    {
    }
    assert Do(s, st).pc[h] != Holding;
  }

  /** A process in acquiresleep can come to hold the lock, without any other process starting a
      call of its own. */
  lemma {:induction false} CanAcquire(s: Sys, p: Proc) returns (ss: seq<Sys>)
    requires Inv(s) && p < |s.pc| && Acquiring(s.pc[p])
    ensures Path(ss) && ss[0] == s && p < |ss[|ss| - 1].pc| && ss[|ss| - 1].pc[p].Holding?
    decreases Far(s, p)
  {
    hide Inv, Enabled, Do, Far, Next;
    var st := NextStep(s, p);
    var t := Do(s, st);
    ss := [t];
    if !t.pc[p].Holding? {
      ss := CanAcquire(t, p);
    }
    PathCons(s, st, ss);
    ss := [s] + ss;
  }

  /** IT CAN END. From every reachable state any process that is not in a call, or is in
      acquiresleep, can come to hold the lock. */
  lemma AcquireCanEnd(run: seq<Sys>, i: nat, p: Proc) returns (ss: seq<Sys>)
    requires IsRun(run) && i < |run| && p < |run[i].pc| && (run[i].pc[p].Out? || Acquiring(run[i].pc[p]))
    ensures Path(ss) && ss[0] == run[i] && p < |ss[|ss| - 1].pc| && ss[|ss| - 1].pc[p].Holding?
  {
    RunKeeps(run, i);
    var s := run[i];
    if s.pc[p].Out? {
      var t := Do(s, Start(p));
      StepKeeps(s, Start(p), t);
      ss := CanAcquire(t, p);
      PathCons(s, Start(p), ss);
      ss := [s] + ss;
    } else {
      ss := CanAcquire(s, p);
    }
  }
}
