/** How a call of wait ends. */
module WaitEnds {
  import opened Basics
  import opened WaitExit

  predicate InWait(pc: Pc) {
    pc.WantWait? || pc.Scan? || pc.Entering? || pc.OwnLocked? || pc.Gave? || pc.Slept? || pc.Parked?
  }

  ghost predicate HasChild(s: Sys, p: Proc, n: int) {
    exists c :: 0 <= c < n && c < |s.parent| && s.parent[c] == Some(p)
  }

  /** havekids says whether a child has been met in the scan. */
  ghost predicate KidsAt(s: Sys, p: Proc)
    requires Shape(s) && p < |s.pc|
  {
    s.pc[p].Scan? ==> s.pc[p].next <= |s.pc| && (s.pc[p].kids <==> HasChild(s, p, s.pc[p].next))
  }

  /** Another process's step moves only a free, a new or an exited one, and not into wait. */
  lemma OthersStay(s: Sys, st: Step, t: Sys, p: Proc)
    requires Shape(s) && Forks(s) && Enabled(s, st) && t == Do(s, st) && p < |s.pc| && st.p != p
    ensures Shape(t) && |t.pc| == |s.pc|
    ensures t.pc[p] == s.pc[p] || ((s.pc[p].Free? || s.pc[p].Born? || s.pc[p].Dead?)
                                   && (t.pc[p].Free? || t.pc[p].Born? || t.pc[p].User?))
  {
    hide Target;
    assert MyFork(s, st.p);
  }

  /** Only the holder of wait_lock changes parents while it is held. */
  lemma ParentsKept(s: Sys, st: Step, t: Sys, p: Proc)
    requires Inv(s) && Enabled(s, st) && t == Do(s, st) && p < |s.pc| && s.pc[p].Scan? && st.p != p
    ensures t.parent == s.parent && Shape(t) && |t.pc| == |s.pc| && t.pc[p] == s.pc[p]
  {
    hide Family, Watched;
    assert LockAt(s, p) && LockAt(s, st.p);
  }

  lemma OwnScan(s: Sys, st: Step, t: Sys)
    requires Inv(s) && Enabled(s, st) && t == Do(s, st) && KidsAt(s, st.p)
    ensures Shape(t) && |t.pc| == |s.pc| && KidsAt(t, st.p)
  {
    hide Family, Watched, Locks, Forks;
    var p := st.p;
    if st.ScanOne? {
      var n := s.pc[p].next;
      if c :| 0 <= c < n && c < |s.parent| && s.parent[c] == Some(p) {
        assert HasChild(t, p, n + 1);
      }
      if AtChild(s, p) {
        assert t.parent[n] == Some(p);
      }
    } else if st.TakeWait? {
      assert !HasChild(t, p, 0);
    }
  }

  lemma KidsStep(s: Sys, st: Step, t: Sys, p: Proc)
    requires Inv(s) && Enabled(s, st) && t == Do(s, st) && p < |s.pc| && KidsAt(s, p)
    ensures Shape(t) && |t.pc| == |s.pc| && KidsAt(t, p)
  {
    hide Inv, Enabled, Do, KidsAt;
    if st.p == p {
      InRange(s, st);
      OwnScan(s, st, t);
    } else {
      OtherScan(s, st, t, p);
    }
  }

  lemma InRange(s: Sys, st: Step)
    requires Enabled(s, st)
    ensures Shape(s) && st.p < |s.pc|
  {
  }

  lemma OtherScan(s: Sys, st: Step, t: Sys, p: Proc)
    requires Inv(s) && Enabled(s, st) && t == Do(s, st) && p < |s.pc| && st.p != p && KidsAt(s, p)
    ensures Shape(t) && |t.pc| == |s.pc| && KidsAt(t, p)
  {
    hide Family, Watched, Do, Enabled, Locks, Forks;
    InvForks(s);
    OthersStay(s, st, t, p);
    if s.pc[p].Scan? {
      ParentsKept(s, st, t, p);
    }
  }

  lemma {:induction false} KidsRight(run: seq<Sys>, i: nat, p: Proc)
    requires IsRun(run) && i < |run| && p < |run[i].pc|
    ensures Inv(run[i]) && KidsAt(run[i], p)
  {
    hide Inv, Enabled, Do, KidsAt;
    RunKeeps(run, i);
    if i == 0 {
      StartKids(run[0], p);
    } else {
      assert Next(run[i - 1], run[i - 1 + 1]);
      var st :| Enabled(run[i - 1], st) && run[i] == Do(run[i - 1], st);
      RunKeeps(run, i - 1);
      SameLength(run[i - 1], st, run[i]);
      KidsRight(run, i - 1, p);
      KidsStep(run[i - 1], st, run[i], p);
    }
  }

  lemma StartKids(s: Sys, p: Proc)
    requires Init(s) && p < |s.pc|
    ensures KidsAt(s, p)
  {
  }

  lemma SameLength(s: Sys, st: Step, t: Sys)
    requires Inv(s) && Enabled(s, st) && t == Do(s, st)
    ensures |t.pc| == |s.pc|
  {
    ShapeKept(s, st, t);
  }

  /** wait has freed child c, an exited process, and nothing else has changed. */
  ghost predicate Reaps(s: Sys, t: Sys, p: Proc, c: Proc) {
    && Shape(s) && p < |s.pc| && c < |s.pc| && c != p && s.parent[c] == Some(p) && Zombie(s.pc[c])
    && t == s.(pc := s.pc[p := User][c := Free], parent := s.parent[c := None], killed := s.killed[c := false], lock := None)
  }

  /** wait returns -1: nothing has changed, and the process was killed, or has no children, or
      has an exited child whose status cannot be delivered. */
  ghost predicate Fails(s: Sys, t: Sys, p: Proc) {
    && Shape(s) && p < |s.pc| && t == s.(pc := s.pc[p := User], lock := None)
    && (|| s.killed[p] || !HasChild(s, p, |s.pc|)
        || exists c :: 0 <= c < |s.pc| && s.parent[c] == Some(p) && Zombie(s.pc[c]))
  }

  /** HOW WAIT ENDS. A process leaves wait by freeing exactly one exited child of its own, or
      without any change for one of the three reasons. */
  lemma HowWaitEnds(run: seq<Sys>, i: nat, p: Proc)
    requires IsRun(run) && i + 1 < |run| && p < |run[i].pc| && InWait(run[i].pc[p])
    ensures p < |run[i + 1].pc|
    ensures var s, t := run[i], run[i + 1];
            InWait(t.pc[p]) || (exists c :: Reaps(s, t, p, c)) || Fails(s, t, p)
  {
    hide Inv, Enabled, Do, KidsAt, Reaps, Fails;
    KidsRight(run, i, p);
    assert Next(run[i], run[i + 1]);
    var st :| Enabled(run[i], st) && run[i + 1] == Do(run[i], st);
    EndStep(run[i], st, run[i + 1], p);
  }

  lemma EndStep(s: Sys, st: Step, t: Sys, p: Proc)
    requires Inv(s) && Enabled(s, st) && t == Do(s, st) && p < |s.pc| && KidsAt(s, p) && InWait(s.pc[p])
    ensures p < |t.pc| && (InWait(t.pc[p]) || (exists c :: Reaps(s, t, p, c)) || Fails(s, t, p))
  {
    hide Inv, Enabled, Do, Reaps, Fails, KidsAt;
    if st.p == p {
      OwnEnd(s, st, t);
    } else {
      InvForks(s);
      OthersStay(s, st, t, p);
    }
  }

  lemma InvForks(s: Sys)
    requires Inv(s)
    ensures Shape(s) && Forks(s)
  {
  }

  lemma OwnEnd(s: Sys, st: Step, t: Sys)
    requires Enabled(s, st) && t == Do(s, st) && KidsAt(s, st.p) && InWait(s.pc[st.p])
    ensures st.p < |t.pc| && (InWait(t.pc[st.p]) || (exists c :: Reaps(s, t, st.p, c)) || Fails(s, t, st.p))
  {
    if st.Reap? {
      assert Reaps(s, t, st.p, s.pc[st.p].next);
    }
  }

  /** It sleeps only with a child to wait for, and not when killed. */
  lemma SleepStep(s: Sys, st: Step, t: Sys, p: Proc)
    requires Inv(s) && Enabled(s, st) && t == Do(s, st) && p < |s.pc| && KidsAt(s, p)
    ensures p < |t.pc| && (t.pc[p].Entering? && !s.pc[p].Entering? ==> HasChild(s, p, |s.pc|) && !s.killed[p])
  {
    hide Enabled, Do, Forks, Family, Watched, Locks;
    if st.p == p {
      OwnSleep(s, st, t);
    } else {
      InvForks(s);
      OthersStay(s, st, t, p);
    }
  }

  lemma OwnSleep(s: Sys, st: Step, t: Sys)
    requires Enabled(s, st) && t == Do(s, st) && KidsAt(s, st.p)
    ensures st.p < |t.pc| && (t.pc[st.p].Entering? && !s.pc[st.p].Entering? ==> HasChild(s, st.p, |s.pc|) && !s.killed[st.p])
  {
    hide Target, HasChild;
  }

  lemma WaitSleeps(run: seq<Sys>, i: nat, p: Proc)
    requires IsRun(run) && i + 1 < |run| && p < |run[i].pc|
    ensures p < |run[i + 1].pc| && Shape(run[i])
    ensures run[i + 1].pc[p].Entering? && !run[i].pc[p].Entering? ==> HasChild(run[i], p, |run[i].pc|) && !run[i].killed[p]
  {
    hide Inv, Enabled, Do, KidsAt;
    KidsRight(run, i, p);
    assert Next(run[i], run[i + 1]);
    var st :| Enabled(run[i], st) && run[i + 1] == Do(run[i], st);
    InRange(run[i], st);
    SleepStep(run[i], st, run[i + 1], p);
  }

  // ---- killed in wait ----

  /** Before the test of killed. */
  ghost predicate Untested(s: Sys, p: Proc) {
    Shape(s) && p < |s.pc| && (s.pc[p].WantWait? || s.pc[p].Scan? || (s.pc[p].Parked? && !s.asleep[p]))
  }

  lemma KilledStep(s: Sys, st: Step, t: Sys, p: Proc)
    requires Inv(s) && Enabled(s, st) && t == Do(s, st) && Untested(s, p) && s.killed[p]
    ensures Shape(t) && |t.pc| == |s.pc| && (InWait(t.pc[p]) ==> Untested(t, p) && t.killed[p])
  {
    hide Inv, Enabled, Do;
    InRange(s, st);
    if st.p == p {
      OwnKilled(s, st, t);
    } else {
      InvForks(s);
      OthersStay(s, st, t, p);
      OthersKilled(s, st, t, p);
    }
  }

  lemma OwnKilled(s: Sys, st: Step, t: Sys)
    requires Enabled(s, st) && t == Do(s, st) && Untested(s, st.p) && s.killed[st.p]
    ensures Shape(t) && |t.pc| == |s.pc| && (InWait(t.pc[st.p]) ==> Untested(t, st.p) && t.killed[st.p])
  {
    hide Target;
  }

  lemma OthersKilled(s: Sys, st: Step, t: Sys, p: Proc)
    requires Enabled(s, st) && t == Do(s, st) && Untested(s, p) && st.p != p && s.killed[p]
    ensures Shape(t) && |t.pc| == |s.pc| && t.killed[p] && (t.asleep[p] ==> s.asleep[p])
  {
    hide Target;
  }

  /** KILLED IN WAIT. A process that is killed before the test of killed in wait does not sleep
      there any more: as long as it is in wait, it is before the test. */
  lemma {:induction false} KilledStaysAwake(run: seq<Sys>, k: nat, j: nat, p: Proc)
    requires IsRun(run) && k <= j < |run| && Untested(run[k], p) && run[k].killed[p]
    requires forall m :: k <= m <= j ==> p < |run[m].pc| && InWait(run[m].pc[p])
    ensures Untested(run[j], p) && run[j].killed[p]
    decreases j
  {
    hide Inv, Enabled, Do, Untested, Init;
    if k < j {
      KilledStaysAwake(run, k, j - 1, p);
      RunKeeps(run, j - 1);
      assert Next(run[j - 1], run[j - 1 + 1]);
      var st :| Enabled(run[j - 1], st) && run[j] == Do(run[j - 1], st);
      KilledStep(run[j - 1], st, run[j], p);
    }
  }

  /** Two slots: init, with its child beside it. */
  function Two(pc: Pc, child: Pc, parent: Option<Proc>, asleep: bool, killed: bool, lock: Option<Proc>): Sys {
    Sys(0, [pc, child], [None, parent], [asleep, false], [killed, false], lock)
  }

  lemma OneMore(run: seq<Sys>, st: Step, t: Sys) returns (more: seq<Sys>)
    requires IsRun(run) && Enabled(run[|run| - 1], st) && t == Do(run[|run| - 1], st)
    ensures IsRun(more) && more == run + [t]
  {
    hide Enabled, Do, Init;
    more := run + [t];
    assert Next(run[|run| - 1], t);
    forall i | 0 <= i < |more| - 1
      ensures Next(more[i], more[i + 1])
    {
      if i < |run| - 1 {
        assert Next(run[i], run[i + 1]);
      }
    }
  }

  /** init forks a child. */
  lemma ForkedRun() returns (run: seq<Sys>)
    ensures IsRun(run) && run[|run| - 1] == Two(User, User, Some(0), false, false, None)
  {
    hide IsRun;
    run := StartRun();
    run := OneMore(run, ForkAlloc(0, 1), Two(Forking(1, false), Born, None, false, false, None));
    run := OneMore(run, ForkName(0), Two(Forking(1, true), Born, Some(0), false, false, None));
    run := OneMore(run, ForkReady(0), Two(User, User, Some(0), false, false, None));
  }

  lemma StartRun() returns (run: seq<Sys>)
    ensures IsRun(run) && run == [Two(User, Free, None, false, false, None)]
  {
    run := [Two(User, Free, None, false, false, None)];
  }

  /** It waits; the scan is over, and killed is tested. */
  lemma TestedRun() returns (run: seq<Sys>)
    ensures IsRun(run) && |run| > 0 && run[|run| - 1] == Two(Entering, User, Some(0), false, false, Some(0))
  {
    hide IsRun;
    run := ForkedRun();
    run := OneMore(run, CallWait(0), Two(WantWait, User, Some(0), false, false, None));
    run := OneMore(run, TakeWait(0), Two(Scan(0, false), User, Some(0), false, false, Some(0)));
    run := OneMore(run, ScanOne(0), Two(Scan(1, false), User, Some(0), false, false, Some(0)));
    run := OneMore(run, ScanOne(0), Two(Scan(2, true), User, Some(0), false, false, Some(0)));
    run := OneMore(run, Sleep(0), Two(Entering, User, Some(0), false, false, Some(0)));
  }

  /** A kill between that test and the acquire of p->lock in sleep goes unnoticed: the process is
      killed and asleep in wait, its child alive. */
  lemma KilledAsleep() returns (run: seq<Sys>, k: nat)
    ensures IsRun(run) && k + 1 < |run| && run[k] == Two(Entering, User, Some(0), false, false, Some(0))
    ensures run[k + 1] == Two(Entering, User, Some(0), false, true, Some(0))
    ensures run[|run| - 1] == Two(Parked, User, Some(0), true, true, None)
  {
    hide IsRun;
    run := TestedRun();
    k := |run| - 1;
    run := OneMore(run, Kill(0), Two(Entering, User, Some(0), false, true, Some(0)));
    run := OneMore(run, TakeOwn(0), Two(OwnLocked, User, Some(0), false, true, Some(0)));
    run := OneMore(run, GiveWait(0), Two(Gave, User, Some(0), false, true, None));
    run := OneMore(run, SetState(0), Two(Slept, User, Some(0), true, true, None));
    run := OneMore(run, Switch(0), Two(Parked, User, Some(0), true, true, None));
  }

  /** After a kill at state k of the run, p goes to sleep in the same call of wait. */
  ghost predicate SleepsKilled(run: seq<Sys>, k: nat, more: seq<Sys>, p: Proc) {
    && k < |run| && k + 1 < |more| && run[..k + 1] == more[..k + 1] && IsRun(more)
    && Enabled(run[k], Kill(p)) && more[k + 1] == Do(run[k], Kill(p))
    && (forall m :: k < m < |more| ==> Shape(more[m]) && p < |more[m].pc| && InWait(more[m].pc[p]))
    && more[|more| - 1].asleep[p]
  }

  /** A KILL GOES UNNOTICED in wait, so that the process can still fall asleep there, if and only
      if it comes between the test of killed and sleep's acquire of p->lock. */
  lemma KillUnnoticedIff(run: seq<Sys>, k: nat, p: Proc)
    requires IsRun(run) && k < |run| && p < |run[k].pc| && InWait(run[k].pc[p]) && Enabled(run[k], Kill(p))
    ensures (exists more :: SleepsKilled(run, k, more, p)) <==> run[k].pc[p].Entering?
  {
    hide Inv, Init, IsRun, Enabled, Do, Untested;
    if run[k].pc[p].Entering? {
      var more := Unnoticed(run, k, p);
    } else {
      forall more | SleepsKilled(run, k, more, p)
        ensures false
      {
        KillNoticed(run[k], p);
        KilledStaysAwake(more, k + 1, |more| - 1, p);
        RunKeeps(more, |more| - 1);
        AwakeYet(more[|more| - 1], p);
      }
    }
  }

  lemma KillNoticed(s: Sys, p: Proc)
    requires Enabled(s, Kill(p)) && p < |s.pc| && InWait(s.pc[p]) && !s.pc[p].Entering?
    ensures Untested(Do(s, Kill(p)), p) && Do(s, Kill(p)).killed[p]
  {
  }

  lemma AwakeYet(s: Sys, p: Proc)
    requires Inv(s) && Untested(s, p)
    ensures !s.asleep[p]
  {
    assert LockAt(s, p);
  }

  lemma Unnoticed(run: seq<Sys>, k: nat, p: Proc) returns (more: seq<Sys>)
    requires IsRun(run) && k < |run| && p < |run[k].pc| && run[k].pc[p].Entering? && Enabled(run[k], Kill(p))
    ensures SleepsKilled(run, k, more, p)
  {
    hide Init;
    more := run[..k + 1];
    assert IsRun(more);
    hide IsRun;
    var s := run[k];
    more := OneMore(more, Kill(p), Do(s, Kill(p)));
    more := OneMore(more, TakeOwn(p), Go(Do(s, Kill(p)), p, OwnLocked));
    more := OneMore(more, GiveWait(p), Do(more[|more| - 1], GiveWait(p)));
    more := OneMore(more, SetState(p), Do(more[|more| - 1], SetState(p)));
  }
}
