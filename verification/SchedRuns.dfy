/** Runs of the scheduler from boot: init, a child with a deadline, a mark that is undone, a
    clock that wraps, and a process in the queue. */
module SchedRuns {
  import opened Basics
  import opened Params
  import opened Sched
  import opened SchedLate
  import opened SchedCan

  // ---- the mark undone, and the clock wrapping ----

  /** One CPU, with process q in state x and every other as in b. */
  ghost predicate At(s: Sys, b: Sys, q: Proc, ticks: nat, x: State, heap: seq<Proc>, cpu: Cpu) {
    && q < |b.state| && |s.usage| == |b.state| == |b.deadline| == NPROC
    && s == b.(ticks := ticks, state := b.state[q := x], heap := heap, cpus := [cpu], usage := s.usage)
  }

  /** None of the others is RUNNABLE, and the queue is empty. */
  ghost predicate Alone(b: Sys, q: Proc) {
    && |b.state| == |b.deadline| == NPROC && q < NPROC && b.queue == []
    && forall p :: 0 <= p < NPROC && p != q ==> !b.state[p].Runnable?
  }

  /** A step of that machine. */
  lemma OneStep(run: seq<Sys>, st: Step, b: Sys, q: Proc, ticks: nat, x: State, heap: seq<Proc>, cpu: Cpu)
      returns (more: seq<Sys>)
    requires IsRun(run) && Enabled(run[|run| - 1], st) && q < |b.state| == |b.deadline| == NPROC
    requires var u := Do(run[|run| - 1], st);
             && u.ticks == ticks && u.heap == heap && u.queue == b.queue && u.cpus == [cpu] && |u.usage| == NPROC
             && |u.state| == NPROC && (forall i :: 0 <= i < NPROC ==> u.state[i] == if i == q then x else b.state[i])
             && |u.deadline| == NPROC && (forall i :: 0 <= i < NPROC ==> u.deadline[i] == b.deadline[i])
    ensures IsRun(more) && more == run + [Do(run[|run| - 1], st)] && At(more[|more| - 1], b, q, ticks, x, heap, cpu)
  {
    var u := Do(run[|run| - 1], st);
    assert u.state == b.state[q := x] && u.deadline == b.deadline;
    RunMore(run, st, u);
    more := run + [u];
  }

  /** The rest of the scan, from slot n on. */
  lemma {:induction false} Scanned(run: seq<Sys>, b: Sys, q: Proc, ticks: nat, n: nat) returns (more: seq<Sys>)
    requires IsRun(run) && Alone(b, q) && n < NPROC
    requires At(run[|run| - 1], b, q, ticks, Runnable, if n <= q then [] else [q], Scan(n))
    ensures IsRun(more) && run <= more && At(more[|more| - 1], b, q, ticks, Runnable, [q], Drain)
    decreases NPROC - n
  {
    assert multiset([q]) == multiset([]) + multiset{q};
    var h := if n < q then [] else [q];
    more := OneStep(run, CheckPush(0, h), b, q, ticks, Runnable, h, if n + 1 < NPROC then Scan(n + 1) else Drain);
    if n + 1 < NPROC {
      more := Scanned(more, b, q, ticks, n + 1);
    }
  }

  /** Chosen from the heap in time, the process is dispatched. */
  lemma Dispatched(run: seq<Sys>, b: Sys, q: Proc, ticks: nat) returns (more: seq<Sys>)
    requires IsRun(run) && Alone(b, q) && At(run[|run| - 1], b, q, ticks, Runnable, [], Scan(0)) && ticks < b.deadline[q]
    ensures IsRun(more) && run <= more && At(more[|more| - 1], b, q, ticks, Running, [], OnCpu(q))
    ensures more[|more| - 1].usage[q].since == ticks
  {
    hide IsRun;
    more := Scanned(run, b, q, ticks, 0);
    more := OneStep(more, PopHeap(0, []), b, q, ticks, ChosenToRun, [], Popped(q));
    more := OneStep(more, Judge(0), b, q, ticks, ChosenToRun, [], Chosen(q));
    more := OneStep(more, Dispatch(0), b, q, ticks, Running, [], OnCpu(q));
  }

  /** The clock goes on to n. */
  lemma {:induction false} Ticking(run: seq<Sys>, b: Sys, q: Proc, x: State, cpu: Cpu, n: nat) returns (more: seq<Sys>)
    requires IsRun(run) && run[|run| - 1].ticks <= n < UINT_LIMIT && At(run[|run| - 1], b, q, run[|run| - 1].ticks, x, [], cpu)
    ensures IsRun(more) && At(more[|more| - 1], b, q, n, x, [], cpu)
    decreases n - run[|run| - 1].ticks
  {
    more := run;
    var now := run[|run| - 1].ticks;
    if now < n {
      more := OneStep(run, Tick, b, q, now + 1, x, [], cpu);
      more := Ticking(more, b, q, x, cpu, n);
    }
  }

  /** init is in slot 0. It has no deadline, and is asleep in wait. */
  function Booted(d: nat): Sys {
    Forking(Sleeping, Unused, d)
  }

  /** init in state x, its child in state y with deadline d. */
  function Forking(x: State, y: State, d: nat): Sys {
    Sys(0, seq(NPROC, i => if i == 0 then x else if i == 1 then y else Unused),
        seq(NPROC, i => if i == 0 then NO_DEADLINE else if i == 1 then d else 0), seq(NPROC, i => Usage(0, 0, 0)),
        [], [], [Scan(0)])
  }

  lemma BootRun(b: Sys) returns (run: seq<Sys>)
    requires b == Forking(Unused, Unused, 0)
    ensures IsRun(run) && run == [b.(deadline := seq(NPROC, i => 0))]
  {
    run := [b.(deadline := seq(NPROC, i => 0))];
  }

  /** init starts. */
  lemma Started() returns (run: seq<Sys>)
    ensures IsRun(run) && At(run[|run| - 1], Forking(Unused, Unused, 0), 0, 0, Running, [], OnCpu(0))
  {
    hide IsRun;
    var b := Forking(Unused, Unused, 0);
    run := BootRun(b);
    run := OneStep(run, Alloc(0), b, 0, 0, Used, [], Scan(0));
    run := OneStep(run, Ready(0, NO_DEADLINE), b, 0, 0, Runnable, [], Scan(0));
    run := Dispatched(run, b, 0, 0);
  }

  /** It forks a child with deadline d into slot 1, and waits for it. */
  lemma Forked(d: nat) returns (run: seq<Sys>)
    requires d < UINT_LIMIT
    ensures IsRun(run) && Alone(Booted(d), 1) && At(run[|run| - 1], Booted(d), 1, 0, Runnable, [], Scan(0))
  {
    hide IsRun;
    run := Started();
    run := OneStep(run, Alloc(1), Forking(Unused, Used, NO_DEADLINE), 0, 0, Running, [], OnCpu(0));
    run := OneStep(run, Ready(1, d), Forking(Unused, Runnable, d), 0, 0, Running, [], OnCpu(0));
    run := Waits(run, d);
  }

  lemma Waits(run: seq<Sys>, d: nat) returns (more: seq<Sys>)
    requires IsRun(run) && At(run[|run| - 1], Forking(Unused, Runnable, d), 0, 0, Running, [], OnCpu(0))
    ensures IsRun(more) && At(more[|more| - 1], Booted(d), 1, 0, Runnable, [], Scan(0))
  {
    hide IsRun;
    var b := Forking(Unused, Runnable, d);
    more := OneStep(run, GiveUp(0, Sleeping), b, 0, 0, Sleeping, [], Returned(0));
    more := OneStep(more, Settle(0), b, 0, 0, Sleeping, [], Tail(0));
    more := OneStep(more, Finish(0), Booted(d), 1, 0, Runnable, [], Scan(0));
  }

  /** That child, marked at a trap at its deadline, d ticks after boot. */
  lemma MarkedRun(d: nat) returns (run: seq<Sys>)
    requires 0 < d < UINT_LIMIT
    ensures IsRun(run) && |run| > 0 && At(run[|run| - 1], Booted(d), 1, d, Dropped, [], Marked(1)) && IsLate(run[|run| - 1], 1)
  {
    hide IsRun;
    var b := Booted(d);
    run := Forked(d);
    run := Dispatched(run, b, 1, 0);
    run := Ticking(run, b, 1, Running, OnCpu(1), d);
    run := OneStep(run, TrapLate(0), b, 1, d, Dropped, [], Marked(1));
  }

  /** A process on a CPU need not be RUNNING, and DROPPED need not last: usertrap
      marks the process, and its own yield makes it RUNNABLE again. */
  lemma MarkUndone() returns (run: seq<Sys>, i: nat)
    ensures IsRun(run) && i + 1 < |run|
    ensures At(run[i], Booted(1), 1, 1, Dropped, [], Marked(1)) && OnSome(run[i], 1)
    ensures At(run[i + 1], Booted(1), 1, 1, Runnable, [], Returned(1))
  {
    run := MarkedRun(1);
    i := |run| - 1;
    run := OneStep(run, GiveUp(0, Runnable), Booted(1), 1, 1, Runnable, [], Returned(1));
    assert Runs(run[i].cpus[0], 1);
  }

  /** A process in the queue: the child, with a quota of no ticks, yields in time. */
  lemma QueuedRun() returns (run: seq<Sys>)
    ensures IsRun(run) && At(run[|run| - 1], Booted(1).(queue := [1]), 1, 0, PassedQuota, [], Tail(1))
  {
    hide IsRun;
    var b := Booted(1);
    run := Forked(1);
    run := Dispatched(run, b, 1, 0);
    run := OneStep(run, SetQuota(1, 0), b, 1, 0, Running, [], OnCpu(1));
    var u := run[|run| - 1];
    assert u.usage[1].quota == 0;
    run := OneStep(run, GiveUp(0, Runnable), b, 1, 0, Runnable, [], Returned(1));
    assert run[|run| - 1].usage[1].quota == 0;
    run := OneStep(run, Settle(0), b.(queue := [1]), 1, 0, PassedQuota, [], Tail(1));
  }

  lemma Wrapped(run: seq<Sys>, d: nat) returns (more: seq<Sys>)
    requires IsRun(run) && At(run[|run| - 1], Booted(d), 1, d, Dropped, [], Marked(1)) && d == UINT_LIMIT - 1
    ensures IsRun(more) && |more| == |run| + 1 && run <= more
    ensures At(more[|more| - 1], Booted(d), 1, 0, Dropped, [], Marked(1))
  {
    more := OneStep(run, Tick, Booted(d), 1, 0, Dropped, [], Marked(1));
  }

  /** A run goes on along a path. */
  lemma {:induction false} RunAlong(run: seq<Sys>, ss: seq<Sys>)
    requires IsRun(run) && Path(ss) && ss[0] == run[|run| - 1]
    ensures IsRun(run + ss[1..])
  {
    hide Init, Enabled, Do;
    var l := run + ss[1..];
    forall i | 0 <= i < |l| - 1
      ensures Next(l[i], l[i + 1])
    {
      if i < |run| - 1 {
        assert Next(run[i], run[i + 1]);
      } else {
        var j := i - (|run| - 1);
        assert Next(ss[j], ss[j + 1]);
        assert l[i] == ss[j] && l[i + 1] == ss[j + 1];
      }
    }
  }

  /** The clock must not wrap in LateAtTrap: with the greatest deadline, one tick
      between the mark and the verdict puts ticks back to 0, and the process that
      was late at a trap is dispatched again. */
  lemma LateRunsAfterWrap() returns (run: seq<Sys>, i: nat)
    ensures IsRun(run) && i + 1 < |run| && |run[i].cpus| == 1 && run[i].cpus[0] == Marked(1) && IsLate(run[i], 1)
    ensures Starts(run[|run| - 2], run[|run| - 1], 1) && forall m :: i <= m < |run| ==> Live(run[m], 1)
  {
    hide IsRun, Starts, Path, Promised;
    var d := UINT_LIMIT - 1;
    run := MarkedRun(d);
    i := |run| - 1;
    run := Wrapped(run, d);
    var n := |run|;
    assert Runs(run[n - 1].cpus[0], 1);
    WhoCanRun(run, n - 1, 1);
    var ss :| Reruns(run[n - 1], ss, 1);
    RunAlong(run, ss);
    assert forall m :: n <= m < n + |ss| - 1 ==> (run + ss[1..])[m] == ss[m - n + 1];
    run := run + ss[1..];
  }
}
