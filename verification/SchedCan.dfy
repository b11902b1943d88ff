/** Who can still be dispatched. */
module SchedCan {
  import opened Basics
  import opened Params
  import opened Sched
  import opened SchedLate

  /** The process is on its way back to a CPU, or can be put on it. */
  ghost predicate CanGo(s: Sys, p: Proc) {
    p < |s.state| && !s.state[p].Zombie? && (s.state[p].Dropped? ==> OnSome(s, p))
  }

  /** p is RUNNABLE and waiting, or taken from the heap by CPU c; and it is in time. */
  ghost predicate Waiting(s: Sys, c: nat, p: Proc) {
    && c < |s.cpus| && p < NPROC && p < |s.state| && !IsLate(s, p)
    && (|| (s.state[p].Runnable? && !InHand(s, p))
        || s.cpus[c] == Popped(p) || s.cpus[c] == Chosen(p))
  }

  /** How many stretches CPU c has to go until it takes p: first to the end of the scan that
      has passed it by, then through the scan that finds it, then through the heap. */
  ghost function Round(s: Sys, c: nat, p: Proc): nat
    requires c < |s.cpus|
  {
    if Holds(s.cpus[c], p) then 0
    else if p in s.heap then (if s.cpus[c].Dry? then 1 else 0)
    else match s.cpus[c]
      case Scan(n) => if n <= p then 1 else 2
      case Drain => 2
      case Dry => 2
      case Popped(_) => 2
      case _ => 1
  }

  lemma WaitingStep(s: Sys, c: nat, p: Proc, st: Step, t: Sys)
    requires Inv(s) && Waiting(s, c, p) && Enabled(s, st) && t == Do(s, st) && For(st, c) && s.cpus[c] != Chosen(p)
    ensures Waiting(t, c, p) && c < |t.cpus| && t.ticks == s.ticks && Live(s, p)
  {
    hide HeapOk, PlacedOk, PqLockFree, ProcLockFree, Adds, Compatible, QueueOk;
    WaitingApart(s, c, p);
    if s.state[p].Runnable? && !InHand(s, p) && t.cpus[c] != Popped(p) {
      forall d | 0 <= d < |t.cpus|
        ensures !Holds(t.cpus[d], p)
      {
        assert !Holds(s.cpus[d], p);
      }
    }
  }

  /** No other CPU has it, and it is not queued. */
  lemma WaitingApart(s: Sys, c: nat, p: Proc)
    requires Inv(s) && Waiting(s, c, p) && s.cpus[c] != Chosen(p)
    ensures p !in s.queue && forall d :: 0 <= d < |s.cpus| && d != c ==> !Holds(s.cpus[d], p)
  {
    if s.cpus[c] == Popped(p) {
      forall d | 0 <= d < |s.cpus| && d != c
        ensures !Holds(s.cpus[d], p)
      {
        assert Compatible(s.cpus[c], s.cpus[d]);
      }
    }
  }

  lemma RoundStep(s: Sys, c: nat, p: Proc, st: Step, t: Sys)
    requires Inv(s) && Waiting(s, c, p) && Waiting(t, c, p) && Enabled(s, st) && t == Do(s, st) && For(st, c)
    requires s.cpus[c] != Chosen(p)
    ensures Round(t, c, p) <= Round(s, c, p)
    ensures st == PopQueue(c) ==> Round(t, c, p) < Round(s, c, p)
  {
    hide PlacedOk, PqLockFree, ProcLockFree, Compatible;
    WaitingApart(s, c, p);
    if st.CheckPush? && s.state[s.cpus[c].next].Runnable? && s.cpus[c].next !in s.heap {
      AddsDistinct(s.heap, s.cpus[c].next, st.heap');
    } else if st.PopHeap? {
      AddsDistinct(st.heap', s.heap[0], s.heap);
    }
  }

  /** CPU c runs what it has, each until it sleeps, scans and empties the heap until it takes p. */
  lemma {:induction false} Reach(s: Sys, c: nat, p: Proc) returns (ss: seq<Sys>)
    requires Inv(s) && c < |s.cpus| && Waiting(s, c, p)
    ensures Reruns(s, ss, p)
    decreases Round(s, c, p), Supply(s, c), Stage(s.cpus[c]), Locks(s.cpus)
  {
    hide Inv, Reruns, Waiting, Round, For, Enabled, Do;
    if s.cpus[c] == Chosen(p) {
      ss := BringOn(s, c, p);
    } else {
      var st;
      if s.cpus[c].Dry? {
        st := PopQueue(c);
        DryPops(s, c);
      } else {
        st := NextOf(s, c);
      }
      var t := Do(s, st);
      StepKeeps(s, st, t);
      WaitingStep(s, c, p, st, t);
      RoundStep(s, c, p, st, t);
      ss := Reach(t, c, p);
      RerunsCons(s, st, t, ss, p);
      ss := [s] + ss;
    }
  }

  lemma DryPops(s: Sys, c: nat)
    requires c < |s.cpus| && s.cpus[c].Dry?
    ensures Enabled(s, PopQueue(c)) && For(PopQueue(c), c)
  {
  }

  // ---- everyone else ----

  /** The steps of its own that p has left before it waits. */
  ghost function Left(s: Sys, p: Proc): nat {
    if OnSome(s, p) then 4
    else if exists c :: 0 <= c < |s.cpus| && s.cpus[c] == Returned(p) then 3
    else if p < |s.state| && s.state[p].Sleeping? then (if ProcLockFree(s, p) then 1 else 2)
    else 0
  }

  /** What p can do next, or have done, on its way back to a CPU. */
  lemma GoesBack(s: Sys, p: Proc) returns (st: Step)
    requires Inv(s) && p < NPROC && CanGo(s, p) && !IsLate(s, p) && Live(s, p) && Left(s, p) > 0
    ensures Enabled(s, st)
    ensures var t := Do(s, st);
            t.ticks == s.ticks && CanGo(t, p) && !IsLate(t, p) && Live(t, p) && Left(t, p) < Left(s, p)
  {
    if OnSome(s, p) {
      var c :| 0 <= c < |s.cpus| && Runs(s.cpus[c], p);
      st := GiveUp(c, Runnable);
      Unlocked(s, c);
      OffCpu(s, c, p, Do(s, st));
    } else if c :| 0 <= c < |s.cpus| && s.cpus[c] == Returned(p) {
      st := Settle(c);
      Judged(s, c, p, Do(s, st));
    } else if ProcLockFree(s, p) {
      st := Wake(p);
    } else {
      var c :| 0 <= c < |s.cpus| && s.cpus[c] == Tail(p);
      st := Finish(c);
      Let(s, c, p, Do(s, st));
    }
  }

  lemma OffCpu(s: Sys, c: nat, p: Proc, t: Sys)
    requires Inv(s) && p < NPROC && !IsLate(s, p) && c < |s.cpus| && Runs(s.cpus[c], p)
    requires Enabled(s, GiveUp(c, Runnable)) && t == Do(s, GiveUp(c, Runnable))
    ensures CanGo(t, p) && !IsLate(t, p) && Live(t, p) && Left(t, p) < 4
  {
    hide HeapOk, QueueOk, PlacedOk;
    forall d | 0 <= d < |t.cpus|
      ensures !Runs(t.cpus[d], p)
    {
      assert d != c ==> Compatible(s.cpus[c], s.cpus[d]);
    }
  }

  lemma Judged(s: Sys, c: nat, p: Proc, t: Sys)
    requires Inv(s) && p < NPROC && CanGo(s, p) && !IsLate(s, p) && c < |s.cpus| && s.cpus[c] == Returned(p) && !OnSome(s, p)
    requires Enabled(s, Settle(c)) && t == Do(s, Settle(c))
    ensures CanGo(t, p) && !IsLate(t, p) && Live(t, p) && Left(t, p) < 3
  {
    hide HeapOk, QueueOk, PlacedOk;
    forall d | 0 <= d < |t.cpus|
      ensures !Runs(t.cpus[d], p) && t.cpus[d] != Returned(p)
    {
      assert d != c ==> Compatible(s.cpus[c], s.cpus[d]);
      assert !Runs(s.cpus[d], p);
    }
  }

  lemma Let(s: Sys, c: nat, p: Proc, t: Sys)
    requires Inv(s) && p < NPROC && CanGo(s, p) && !IsLate(s, p) && c < |s.cpus| && s.cpus[c] == Tail(p) && s.state[p].Sleeping?
    requires Enabled(s, Finish(c)) && t == Do(s, Finish(c))
    ensures CanGo(t, p) && !IsLate(t, p) && Live(t, p) && Left(t, p) < 2
  {
    hide HeapOk, QueueOk, PlacedOk;
    forall d | 0 <= d < |t.cpus|
      ensures !Runs(t.cpus[d], p) && t.cpus[d] != Returned(p) && t.cpus[d] != Tail(p)
    {
      assert d != c ==> Compatible(s.cpus[c], s.cpus[d]);
    }
  }

  /** With nothing of its own left to do, p waits, or is queued or chosen. */
  lemma WaitsOrPromised(s: Sys, p: Proc)
    requires Inv(s) && p < NPROC && CanGo(s, p) && !IsLate(s, p) && Live(s, p) && Left(s, p) == 0
    ensures Promised(s, p) || exists c :: Waiting(s, c, p)
  {
    if InHand(s, p) {
      var c :| 0 <= c < |s.cpus| && Holds(s.cpus[c], p);
      assert !Runs(s.cpus[c], p);
      assert s.cpus[c] == Popped(p) ==> Waiting(s, c, p);
    } else {
      assert s.state[p].Runnable? ==> Waiting(s, 0, p);
    }
  }

  lemma {:induction false} Dispatchable(s: Sys, p: Proc) returns (ss: seq<Sys>)
    requires Inv(s) && p < NPROC && CanGo(s, p) && !IsLate(s, p) && Live(s, p)
    ensures Reruns(s, ss, p)
    decreases Left(s, p)
  {
    hide Inv, Reruns, Left, CanGo, Enabled, Do, IsLate, Live;
    if Left(s, p) > 0 {
      var st := GoesBack(s, p);
      var t := Do(s, st);
      StepKeeps(s, st, t);
      ss := Dispatchable(t, p);
      RerunsCons(s, st, t, ss, p);
      ss := [s] + ss;
    } else {
      WaitsOrPromised(s, p);
      if Promised(s, p) {
        var c := Holder(s, p);
        ss := BringOn(s, c, p);
      } else {
        var c: nat :| Waiting(s, c, p);
        ss := Reach(s, c, p);
      }
    }
  }

  lemma Holder(s: Sys, p: Proc) returns (c: nat)
    requires Inv(s) && Promised(s, p)
    ensures c < |s.cpus| && (p in s.queue || s.cpus[c] == Chosen(p))
  {
    c := 0;
    if p !in s.queue {
      c :| 0 <= c < |s.cpus| && s.cpus[c] == Chosen(p);
    }
  }

  lemma {:induction false} ZombiePath(ss: seq<Sys>, j: nat, p: Proc)
    requires Path(ss) && Inv(ss[0]) && Calm(ss, 0, |ss| - 1, p) && j < |ss| && p < NPROC && ss[0].state[p].Zombie?
    ensures Inv(ss[j]) && ss[j].state[p].Zombie?
    decreases j
  {
    hide Enabled, Do, HeapOk, QueueOk, PlacedOk;
    if j > 0 {
      ZombiePath(ss, j - 1, p);
      assert Next(ss[j - 1], ss[j - 1 + 1]);
      var st :| Enabled(ss[j - 1], st) && ss[j] == Do(ss[j - 1], st);
      StepKeeps(ss[j - 1], st, ss[j]);
      ZombieStep(ss[j - 1], st, ss[j], p);
    }
  }

  lemma ZombieStep(s: Sys, st: Step, t: Sys, p: Proc)
    requires Inv(s) && Enabled(s, st) && t == Do(s, st) && p < NPROC && s.state[p].Zombie? && Live(t, p)
    ensures t.state[p].Zombie?
  {
    hide PlacedOk, PqLockFree, ProcLockFree, Adds, Compatible, Distinct;
    assert s.heap != [] ==> s.heap[0] in s.heap;
  }

  /** A process that is about to be dispatched is not a zombie. */
  lemma ChosenFits(s: Sys, c: nat, p: Proc)
    requires Inv(s) && c < |s.cpus| && s.cpus[c] == Chosen(p)
    ensures p < NPROC && !s.state[p].Zombie? && !s.state[p].Dropped? && InHand(s, p)
  {
    assert Holds(s.cpus[c], p);
  }

  /** WHO CAN STILL RUN. In every reachable state a process can be dispatched, before its slot is
      freed and the clock wraps, if and only if it is queued or chosen, or it is in time and
      neither a zombie nor dropped off every CPU. */
  lemma WhoCanRun(run: seq<Sys>, i: nat, p: Proc)
    requires IsRun(run) && i < |run| && Live(run[i], p)
    ensures (exists ss :: Reruns(run[i], ss, p)) <==>
            Promised(run[i], p) || (!IsLate(run[i], p) && CanGo(run[i], p))
  {
    hide Enabled, Do, Init, Next, Promised, IsLate, CanGo;
    RunKeeps(run, i);
    var s := run[i];
    assert p < NPROC;
    if Promised(s, p) {
      var c := Holder(s, p);
      var ss := BringOn(s, c, p);
    } else if !IsLate(s, p) && CanGo(s, p) {
      var ss := Dispatchable(s, p);
    } else if ss :| Reruns(s, ss, p) {
      NotAgain(s, ss, p);
    }
  }

  lemma NotAgain(s: Sys, ss: seq<Sys>, p: Proc)
    requires Inv(s) && p < NPROC && Live(s, p) && Reruns(s, ss, p) && !Promised(s, p)
    ensures !IsLate(s, p) && CanGo(s, p)
  {
    hide Enabled, Do, Next, InHand, HeapOk, QueueOk, PlacedOk;
    var n := |ss| - 2;
    var c :| 0 <= c < |ss[n].cpus| && ss[n].cpus[c] == Chosen(p);
    if IsLate(s, p) {
      LatePath(ss, n, p);
    } else if s.state[p].Zombie? {
      ZombiePath(ss, n, p);
      ChosenFits(ss[n], c, p);
    } else if s.state[p].Dropped? && !OnSome(s, p) {
      OffEvery(s, p);
      DroppedPath(ss, n, p);
      ChosenFits(ss[n], c, p);
    }
  }

  lemma OffEvery(s: Sys, p: Proc)
    requires Inv(s) && p < NPROC && s.state[p].Dropped? && !OnSome(s, p)
    ensures !InHand(s, p)
  {
    forall c | 0 <= c < |s.cpus|
      ensures !Holds(s.cpus[c], p)
    {
      assert !Runs(s.cpus[c], p);
    }
  }

  // ---- slots ----

  /** The lock of p is let go: its CPU gives the verdict and finishes. */
  lemma {:induction false} LetGo(s: Sys, p: Proc) returns (ss: seq<Sys>)
    requires Inv(s) && p < NPROC && s.state[p].Zombie?
    ensures Path(ss) && |ss| > 0 && ss[0] == s && Inv(ss[|ss| - 1])
    ensures ss[|ss| - 1].state[p].Zombie? && ProcLockFree(ss[|ss| - 1], p)
    decreases Locks(s.cpus)
  {
    hide Inv, Enabled, Do, Path;
    if ProcLockFree(s, p) {
      ss := [s];
      OnePath(s);
    } else {
      var c :| 0 <= c < |s.cpus| && (s.cpus[c] == Returned(p) || s.cpus[c] == Tail(p));
      var st := if s.cpus[c] == Returned(p) then Settle(c) else Finish(c);
      ZombieLet(s, c, p, st);
      var t := Do(s, st);
      StepKeeps(s, st, t);
      var rest := LetGo(t, p);
      PathCons(s, st, rest);
      ss := [s] + rest;
      assert ss[|ss| - 1] == rest[|rest| - 1];
    }
  }

  lemma OnePath(s: Sys)
    ensures Path([s])
  {
  }

  lemma ZombieLet(s: Sys, c: nat, p: Proc, st: Step)
    requires Inv(s) && p < NPROC && s.state[p].Zombie? && c < |s.cpus|
    requires (s.cpus[c] == Returned(p) && st == Settle(c)) || (s.cpus[c] == Tail(p) && st == Finish(c))
    ensures Enabled(s, st) && p < |Do(s, st).state| && Do(s, st).state[p].Zombie? && Locks(Do(s, st).cpus) < Locks(s.cpus)
  {
    hide HeapOk, QueueOk, PlacedOk;
    LocksSet(s.cpus, c, Do(s, st).cpus[c]);
    assert Do(s, st).cpus == s.cpus[c := Do(s, st).cpus[c]];
  }

  /** A SLOT IS USED AGAIN. From every reachable state with a zombie, wait can free its slot, and a
      fork can put a new process with any deadline into it, RUNNABLE and charged
      nothing. */
  lemma SlotReused(run: seq<Sys>, i: nat, p: Proc, d: nat) returns (ss: seq<Sys>)
    requires IsRun(run) && i < |run| && p < NPROC == |run[i].state| && run[i].state[p].Zombie? && d < UINT_LIMIT
    ensures Path(ss) && ss[0] == run[i]
    ensures var t := ss[|ss| - 1];
            && p < |t.state| == |t.deadline| == |t.usage| && t.state[p].Runnable? && t.deadline[p] == d
            && t.usage[p] == Usage(0, 0, NO_DEADLINE)
  {
    hide IsRun, Path;
    RunKeeps(run, i);
    ss := LetGo(run[i], p);
    ss := Onward(ss, Free(p));
    ss := Onward(ss, Alloc(p));
    ss := Onward(ss, Ready(p, d));
  }

  /** A path goes on with any enabled step. */
  lemma Onward(ss: seq<Sys>, st: Step) returns (more: seq<Sys>)
    requires Path(ss) && Enabled(ss[|ss| - 1], st)
    ensures Path(more) && more[0] == ss[0] && more == ss + [Do(ss[|ss| - 1], st)] && more[|more| - 1] == Do(ss[|ss| - 1], st)
  {
    hide Enabled, Do;
    var t := Do(ss[|ss| - 1], st);
    more := ss + [t];
    assert Next(ss[|ss| - 1], t);
    forall k | 0 <= k < |more| - 1
      ensures Next(more[k], more[k + 1])
    {
      if k < |ss| - 1 {
        assert Next(ss[k], ss[k + 1]);
      }
    }
  }
}
