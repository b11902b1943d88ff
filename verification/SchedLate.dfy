/** Deadlines over whole runs of the scheduler: when a late process can still run,
    when a DROPPED process stays dropped, and what the wrap of the 32-bit clock
    does to both. */
module SchedLate {
  import opened Basics
  import opened Params
  import opened Sched

  // ---- paths ----

  lemma PathCons(s: Sys, st: Step, ss: seq<Sys>)
    requires Path(ss) && Enabled(s, st) && ss[0] == Do(s, st)
    ensures Path([s] + ss)
  {
    hide Enabled, Do;
    var l := [s] + ss;
    forall i | 0 <= i < |l| - 1
      ensures Next(l[i], l[i + 1])
    {
      if i > 0 {
        assert Next(ss[i - 1], ss[i - 1 + 1]);
      }
    }
  }

  /** A run goes on with any enabled step. */
  lemma RunMore(run: seq<Sys>, st: Step, t: Sys)
    requires IsRun(run) && Enabled(run[|run| - 1], st) && t == Do(run[|run| - 1], st)
    ensures IsRun(run + [t])
  {
    hide Enabled, Do, Init;
    var l := run + [t];
    assert Next(run[|run| - 1], t);
    forall i | 0 <= i < |l| - 1
      ensures Next(l[i], l[i + 1])
    {
      if i < |run| - 1 {
        assert Next(run[i], run[i + 1]);
      }
    }
  }

  // ---- a late process ----

  /** The slot holds a process that has been made runnable once. */
  predicate Live(s: Sys, p: Proc) {
    p < |s.state| && !s.state[p].Unused? && !s.state[p].Used?
  }

  /** From i to j the slot keeps its process and the clock does not wrap. */
  ghost predicate Calm(ss: seq<Sys>, i: nat, j: nat, p: Proc) {
    && j < |ss|
    && (forall m :: i <= m <= j ==> Live(ss[m], p))
    && (forall m :: i <= m < j ==> ss[m].ticks <= ss[m + 1].ticks)
  }

  /** Process p will be dispatched without another look at its deadline. */
  ghost predicate Promised(s: Sys, p: Proc) {
    p in s.queue || exists c :: 0 <= c < |s.cpus| && s.cpus[c] == Chosen(p)
  }

  lemma LateStep(s: Sys, st: Step, t: Sys, p: Proc)
    requires Inv(s) && Enabled(s, st) && t == Do(s, st)
    requires Live(s, p) && Live(t, p) && s.ticks <= t.ticks
    requires IsLate(s, p) && !Promised(s, p)
    ensures IsLate(t, p) && !Promised(t, p)
    ensures |t.cpus| == |s.cpus| && forall c :: 0 <= c < |s.cpus| && t.cpus[c] == OnCpu(p) ==> s.cpus[c] == OnCpu(p)
  {
    hide HeapOk, QueueOk, PlacedOk, Compatible, PqLockFree, ProcLockFree, Adds;
    forall c | 0 <= c < |t.cpus|
      ensures t.cpus[c] != Chosen(p)
    {
      assert s.cpus[c] != Chosen(p);
    }
  }

  /** A late process that is neither queued nor chosen is not dispatched again: when
      it is on a CPU later, it has been there all the time. */
  lemma {:induction false} LateStaysOff(run: seq<Sys>, i: nat, j: nat, p: Proc)
    requires IsRun(run) && i <= j && Calm(run, i, j, p)
    requires IsLate(run[i], p) && !Promised(run[i], p)
    ensures IsLate(run[j], p) && !Promised(run[j], p)
    ensures |run[i].cpus| == |run[j].cpus|
    ensures forall c :: 0 <= c < |run[j].cpus| && run[j].cpus[c] == OnCpu(p) ==>
              forall m :: i <= m <= j ==> |run[m].cpus| == |run[j].cpus| && run[m].cpus[c] == OnCpu(p)
    decreases j
  {
    hide Inv, Enabled, Do, Init, Promised, IsLate;
    if i < j {
      LateStaysOff(run, i, j - 1, p);
      RunKeeps(run, j - 1);
      assert Next(run[j - 1], run[j - 1 + 1]);
      var st :| Enabled(run[j - 1], st) && run[j] == Do(run[j - 1], st);
      LateStep(run[j - 1], st, run[j], p);
    }
  }

  /** CPU c is on its way from the mark to the scheduler's verdict. */
  predicate Leaving(cpu: Cpu, p: Proc) {
    cpu == Marked(p) || cpu == Returned(p)
  }

  ghost predicate Pending(s: Sys, c: nat, p: Proc) {
    && p < |s.state| == |s.deadline| && c < |s.cpus|
    && (s.cpus[c] == Marked(p) || (s.cpus[c] == Returned(p) && s.state[p].Runnable?))
  }

  /** A marked process yields, and at the verdict it is dropped if and only if it is late
      then. */
  lemma PendingStep(s: Sys, st: Step, t: Sys, c: nat, p: Proc)
    requires Inv(s) && Enabled(s, st) && t == Do(s, st) && Pending(s, c, p)
    ensures |t.state| == |t.deadline| == NPROC && |t.cpus| == |s.cpus| && t.deadline[p] == s.deadline[p]
    ensures if Leaving(t.cpus[c], p) then Pending(t, c, p)
            else (t.state[p].Dropped? <==> IsLate(s, p)) && !InHand(t, p)
  {
    hide HeapOk, QueueOk, PlacedOk, PqLockFree, ProcLockFree, Adds;
    PendingNowhere(s, c, p);
    forall d | 0 <= d < |s.cpus| && d != c
      ensures !Holds(t.cpus[d], p)
    {
      assert Compatible(s.cpus[c], s.cpus[d]);
    }
  }

  lemma PendingNowhere(s: Sys, c: nat, p: Proc)
    requires Inv(s) && Pending(s, c, p)
    ensures p !in s.heap && !Promised(s, p)
    ensures forall d :: 0 <= d < |s.cpus| ==> s.cpus[d] != OnCpu(p)
  {
    forall d | 0 <= d < |s.cpus|
      ensures s.cpus[d] != OnCpu(p) && s.cpus[d] != Chosen(p)
    {
      assert d != c ==> Compatible(s.cpus[c], s.cpus[d]);
    }
  }

  lemma {:induction false} PendingUntil(run: seq<Sys>, i: nat, m: nat, c: nat, p: Proc)
    requires IsRun(run) && i <= m < |run| && c < |run[i].cpus| && run[i].cpus[c] == Marked(p)
    requires forall k :: i <= k <= m ==> c < |run[k].cpus| && Leaving(run[k].cpus[c], p)
    ensures Inv(run[m]) && Pending(run[m], c, p) && p < |run[i].deadline| && run[m].deadline[p] == run[i].deadline[p]
    decreases m
  {
    hide Inv, Init, Enabled, Do, Leaving;
    RunKeeps(run, m);
    if i == m {
      MarkedPending(run[i], c, p);
    } else {
      PendingUntil(run, i, m - 1, c, p);
      assert Next(run[m - 1], run[m - 1 + 1]);
      var st :| Enabled(run[m - 1], st) && run[m] == Do(run[m - 1], st);
      PendingStep(run[m - 1], st, run[m], c, p);
    }
  }

  lemma MarkedPending(s: Sys, c: nat, p: Proc)
    requires Inv(s) && c < |s.cpus| && s.cpus[c] == Marked(p)
    ensures Pending(s, c, p)
  {
  }

  /** m is the first state after the mark at i in which CPU c has given its verdict. */
  ghost predicate Verdict(run: seq<Sys>, i: nat, m: nat, c: nat, p: Proc) {
    && i < m < |run| && c < |run[i].cpus| && run[i].cpus[c] == Marked(p)
    && (forall k :: i <= k < m ==> c < |run[k].cpus| && Leaving(run[k].cpus[c], p))
    && c < |run[m].cpus| && !Leaving(run[m].cpus[c], p)
  }

  /** Not placed anywhere, and on no CPU. */
  ghost predicate Gone(s: Sys, p: Proc) {
    p < |s.state| && s.state[p].Dropped? && p !in s.heap && p !in s.queue && !InHand(s, p)
  }

  /** THE VERDICT. A process marked at a trap is dropped, and then for good, if and only if
      it is late when the scheduler gives its verdict. */
  lemma VerdictIff(run: seq<Sys>, i: nat, m: nat, j: nat, c: nat, p: Proc)
    requires IsRun(run) && Verdict(run, i, m, c, p) && m <= j < |run|
    ensures p < |run[m].state| && (run[m].state[p].Dropped? <==> IsLate(run[m - 1], p))
    ensures IsLate(run[m - 1], p) ==> Gone(run[j], p)
  {
    hide Inv, Init, Enabled, Do, Leaving, Pending, IsLate, InHand;
    PendingUntil(run, i, m - 1, c, p);
    assert Next(run[m - 1], run[m - 1 + 1]);
    var st :| Enabled(run[m - 1], st) && run[m] == Do(run[m - 1], st);
    PendingRange(run[m - 1], c, p);
    PendingStep(run[m - 1], st, run[m], c, p);
    if IsLate(run[m - 1], p) {
      DroppedForGood(run, m, j, p);
    }
  }

  lemma PendingRange(s: Sys, c: nat, p: Proc)
    requires Inv(s) && Pending(s, c, p)
    ensures p < NPROC && c < |s.cpus|
  {
  }

  lemma {:induction false} TicksOn(run: seq<Sys>, i: nat, j: nat)
    requires i <= j < |run| && forall k :: i <= k < j ==> run[k].ticks <= run[k + 1].ticks
    ensures run[i].ticks <= run[j].ticks
    decreases j
  {
    if i < j {
      TicksOn(run, i, j - 1);
      assert run[j - 1].ticks <= run[j - 1 + 1].ticks;
    }
  }

  /** LATE AT A TRAP. A process that usertrap finds late leaves its CPU, being neither in the
      heap nor queued nor chosen meanwhile, and is dropped for good, unless the clock
      wraps before the verdict; what the clock does afterwards is of no matter. */
  lemma LateAtTrap(run: seq<Sys>, i: nat, m: nat, j: nat, c: nat, p: Proc)
    requires IsRun(run) && Verdict(run, i, m, c, p) && m <= j < |run|
    requires IsLate(run[i], p) && forall k :: i <= k < m - 1 ==> run[k].ticks <= run[k + 1].ticks
    ensures forall k :: i <= k < m ==>
              p !in run[k].heap && !Promised(run[k], p) && forall d :: 0 <= d < |run[k].cpus| ==> run[k].cpus[d] != OnCpu(p)
    ensures Gone(run[j], p)
  {
    hide Inv, Init, Next, Leaving, Pending, Promised, Gone;
    forall k | i <= k < m
      ensures p !in run[k].heap && !Promised(run[k], p) && forall d :: 0 <= d < |run[k].cpus| ==> run[k].cpus[d] != OnCpu(p)
    {
      PendingUntil(run, i, k, c, p);
      PendingNowhere(run[k], c, p);
    }
    PendingUntil(run, i, m - 1, c, p);
    TicksOn(run, i, m - 1);
    PendingRange(run[m - 1], c, p);
    LateStill(run[i], run[m - 1], c, p);
    VerdictIff(run, i, m, j, c, p);
  }

  lemma LateStill(s: Sys, t: Sys, c: nat, p: Proc)
    requires IsLate(s, p) && Pending(t, c, p) && t.deadline[p] == s.deadline[p] && s.ticks <= t.ticks
    ensures IsLate(t, p)
  {
  }

  // ---- when a late process does run ----

  /** Process p is dispatched between s and t. */
  ghost predicate Starts(s: Sys, t: Sys, p: Proc) {
    |s.cpus| == |t.cpus| && exists c :: 0 <= c < |s.cpus| && s.cpus[c] == Chosen(p) && t.cpus[c] == OnCpu(p)
  }

  /** A calm path from s whose last step dispatches p. */
  ghost predicate Reruns(s: Sys, ss: seq<Sys>, p: Proc) {
    && |ss| >= 2 && Path(ss) && ss[0] == s && Calm(ss, 0, |ss| - 1, p)
    && Starts(ss[|ss| - 2], ss[|ss| - 1], p)
  }

  /** What CPU c has left to do before it looks into the queue. */
  function Stage(cpu: Cpu): nat {
    match cpu
    case Dry => 0
    case Drain => 1
    case Scan(n) => if n < NPROC then 2 + NPROC - n else 2
    case Tail(_) => NPROC + 3
    case Returned(_) => NPROC + 4
    case OnCpu(_) => NPROC + 5
    case Marked(_) => NPROC + 5
    case Chosen(_) => NPROC + 6
    case Popped(_) => NPROC + 7
  }

  ghost function RunnableSet(x: seq<State>): set<nat> {
    set p: nat | p < |x| && x[p].Runnable?
  }

  /** How many processes it may find RUNNABLE before that, the one it has marked included. */
  ghost function Supply(s: Sys, c: nat): nat
    requires c < |s.cpus|
  {
    |RunnableSet(s.state)| + if s.cpus[c].Marked? then 1 else 0
  }

  lemma SupplySet(x: seq<State>, p: nat, y: State)
    requires p < |x|
    ensures |RunnableSet(x[p := y])| <=
            |RunnableSet(x)| + (if y.Runnable? then 1 else 0) - (if x[p].Runnable? && !y.Runnable? then 1 else 0)
  {
    var z := x[p := y];
    var a, b := RunnableSet(x), RunnableSet(z);
    forall q: nat
      ensures q in b <==> if q == p then y.Runnable? else q in a
    {
      assert q < |x| && q != p ==> z[q] == x[q];
    }
    if y.Runnable? {
      assert b == a + {p};
    } else {
      assert b == a - {p};
    }
  }

  /** How much has to happen until a CPU holds no lock. */
  function Hold(cpu: Cpu): nat {
    match cpu
    case Returned(_) => 2
    case Tail(_) => 1
    case Popped(_) => 1
    case _ => 0
  }

  function Locks(cpus: seq<Cpu>): nat {
    if cpus == [] then 0 else Locks(cpus[..|cpus| - 1]) + Hold(cpus[|cpus| - 1])
  }

  lemma {:induction false} LocksSet(cpus: seq<Cpu>, d: nat, x: Cpu)
    requires d < |cpus|
    ensures Locks(cpus[d := x]) + Hold(cpus[d]) == Locks(cpus) + Hold(x)
    decreases |cpus|
  {
    var n := |cpus| - 1;
    if d == n {
      assert cpus[d := x][..n] == cpus[..n];
    } else {
      assert cpus[d := x][..n] == cpus[..n][d := x];
      LocksSet(cpus[..n], d, x);
    }
  }

  /** t is nearer than s to CPU c's next look into the queue, which may have grown. */
  ghost predicate Nearer(s: Sys, t: Sys, c: nat)
    requires c < |s.cpus|
  {
    && s.queue <= t.queue && t.ticks == s.ticks && |t.cpus| == |s.cpus|
    && (|| Supply(t, c) < Supply(s, c)
        || (Supply(t, c) == Supply(s, c) && Stage(t.cpus[c]) < Stage(s.cpus[c]))
        || (Supply(t, c) == Supply(s, c) && t.cpus[c] == s.cpus[c] && Locks(t.cpus) < Locks(s.cpus)))
  }

  /** A step of CPU c in the scheduler or out of it, or one of another CPU towards the release
      of a lock. */
  predicate For(st: Step, c: nat) {
    match st
    case CheckPush(d, _) => d == c
    case PopHeap(d, _) => d == c
    case PopNone(d) => d == c
    case PopQueue(d) => d == c
    case Dispatch(d) => d == c
    case GiveUp(d, _) => d == c
    case Judge(_) => true
    case Settle(_) => true
    case Finish(_) => true
    case _ => false
  }

  /** A CPU d that holds a lock can go on towards its release. */
  lemma Release(s: Sys, c: nat, d: nat) returns (st: Step)
    requires Inv(s) && c < |s.cpus| && d < |s.cpus| && d != c && Hold(s.cpus[d]) > 0
    ensures Enabled(s, st) && Nearer(s, Do(s, st), c) && Do(s, st).cpus[c] == s.cpus[c] && For(st, c)
  {
    hide HeapOk, QueueOk, PlacedOk, Nearer, Compatible;
    match s.cpus[d] {
      case Popped(_) => st := Judge(d); Unlocked(s, d);
      case Returned(_) => st := Settle(d);
      case Tail(_) => st := Finish(d);
    }
    Released(s, c, d, Do(s, st));
  }

  lemma Released(s: Sys, c: nat, d: nat, t: Sys)
    requires c < |s.cpus| && d < |s.cpus| && d != c && !Idle(s.cpus[d]) && s.cpus[d].p < |s.state|
    requires s.queue <= t.queue && t.ticks == s.ticks
    requires |t.cpus| == |s.cpus| && t.cpus == s.cpus[d := t.cpus[d]] && Hold(t.cpus[d]) < Hold(s.cpus[d])
    requires t.state == s.state || t.state == s.state[s.cpus[d].p := Dropped] || t.state == s.state[s.cpus[d].p := PassedQuota]
    ensures Nearer(s, t, c)
  {
    LocksSet(s.cpus, d, t.cpus[d]);
    SupplySet(s.state, s.cpus[d].p, Dropped);
    SupplySet(s.state, s.cpus[d].p, PassedQuota);
  }

  /** The next thing CPU c can do on its way to the queue, or, if another CPU holds a lock it
      needs, what brings that CPU nearer to the release. */
  lemma NextOf(s: Sys, c: nat) returns (st: Step)
    requires Inv(s) && c < |s.cpus| && !s.cpus[c].Dry?
    ensures Enabled(s, st) && Nearer(s, Do(s, st), c) && For(st, c)
    ensures s.cpus[c].Chosen? ==> st == Dispatch(c) || Do(s, st).cpus[c] == s.cpus[c]
  {
    if d :| 0 <= d < |s.cpus| && d != c && s.cpus[d].Popped? && (s.cpus[c].Scan? || s.cpus[c].Drain?) {
      st := Release(s, c, d);
    } else if d :| 0 <= d < |s.cpus| && d != c && Blocks(s, c, d) {
      st := Release(s, c, d);
    } else if Idle(s.cpus[c]) {
      st := NextIdle(s, c);
    } else {
      st := NextBusy(s, c);
    }
  }

  /** CPU d holds the lock of the process that CPU c is to scan or to dispatch. */
  predicate Blocks(s: Sys, c: nat, d: nat)
    requires c < |s.cpus| && d < |s.cpus|
  {
    && (s.cpus[c].Scan? || s.cpus[c].Chosen?)
    && var p := if s.cpus[c].Scan? then s.cpus[c].next else s.cpus[c].p;
       s.cpus[d] == Returned(p) || s.cpus[d] == Tail(p)
  }

  lemma NotBlocked(s: Sys, c: nat)
    requires c < |s.cpus| && (s.cpus[c].Scan? || s.cpus[c].Chosen?)
    requires forall d :: 0 <= d < |s.cpus| && d != c ==> !Blocks(s, c, d)
    ensures ProcLockFree(s, if s.cpus[c].Scan? then s.cpus[c].next else s.cpus[c].p)
  {
    var p := if s.cpus[c].Scan? then s.cpus[c].next else s.cpus[c].p;
    forall d | 0 <= d < |s.cpus|
      ensures s.cpus[d] != Returned(p) && s.cpus[d] != Tail(p)
    {
      assert d != c ==> !Blocks(s, c, d);
    }
  }

  lemma NextIdle(s: Sys, c: nat) returns (st: Step)
    requires Inv(s) && c < |s.cpus| && (s.cpus[c].Scan? || s.cpus[c].Drain?) && PqLockFree(s, c)
    requires forall d :: 0 <= d < |s.cpus| && d != c ==> !Blocks(s, c, d)
    ensures Enabled(s, st) && Nearer(s, Do(s, st), c) && For(st, c)
  {
    hide QueueOk, PlacedOk, Compatible, Blocks;
    if s.cpus[c].Scan? {
      var p := s.cpus[c].next;
      NotBlocked(s, c);
      st := CheckPush(c, if s.state[p].Runnable? && p !in s.heap then s.heap + [p] else s.heap);
    } else if s.heap == [] {
      st := PopNone(c);
    } else {
      assert s.heap == [s.heap[0]] + s.heap[1..] && s.heap[0] in s.heap;
      st := PopHeap(c, s.heap[1..]);
      SupplySet(s.state, s.heap[0], ChosenToRun);
    }
  }

  lemma NextBusy(s: Sys, c: nat) returns (st: Step)
    requires Inv(s) && c < |s.cpus| && !Idle(s.cpus[c])
    requires forall d :: 0 <= d < |s.cpus| && d != c ==> !Blocks(s, c, d)
    ensures Enabled(s, st) && Nearer(s, Do(s, st), c) && For(st, c) && (s.cpus[c].Chosen? ==> st == Dispatch(c))
  {
    hide HeapOk, QueueOk, PlacedOk;
    var p := s.cpus[c].p;
    match s.cpus[c] {
      case Tail(_) => st := Finish(c);
      case Returned(_) => st := Settle(c); SupplySet(s.state, p, Dropped); SupplySet(s.state, p, PassedQuota);
      case OnCpu(_) => st := GiveUp(c, Sleeping); Unlocked(s, c); SupplySet(s.state, p, Sleeping);
      case Marked(_) => st := GiveUp(c, Runnable); Unlocked(s, c); SupplySet(s.state, p, Runnable);
      case Popped(_) => st := Judge(c); Unlocked(s, c); SupplySet(s.state, p, Dropped);
      case Chosen(_) => st := Dispatch(c); NotBlocked(s, c); SupplySet(s.state, p, Running);
    }
  }

  lemma Unlocked(s: Sys, c: nat)
    requires Inv(s) && c < |s.cpus| && (s.cpus[c].OnCpu? || s.cpus[c].Marked? || s.cpus[c].Popped?)
    ensures ProcLockFree(s, s.cpus[c].p)
  {
    forall d | 0 <= d < |s.cpus|
      ensures s.cpus[d] != Returned(s.cpus[c].p) && s.cpus[d] != Tail(s.cpus[c].p)
    {
      assert d != c ==> Compatible(s.cpus[c], s.cpus[d]);
    }
  }

  lemma CalmCons(s: Sys, ss: seq<Sys>, p: Proc)
    requires |ss| > 0 && Calm(ss, 0, |ss| - 1, p) && Live(s, p) && s.ticks <= ss[0].ticks
    ensures Calm([s] + ss, 0, |ss|, p)
  {
    hide Live;
    var l := [s] + ss;
    forall m | 0 <= m <= |ss|
      ensures Live(l[m], p)
    {
      assert m > 0 ==> l[m] == ss[m - 1];
    }
    forall m | 0 <= m < |ss|
      ensures l[m].ticks <= l[m + 1].ticks
    {
      assert m > 0 ==> l[m] == ss[m - 1] && ss[m - 1].ticks <= ss[m - 1 + 1].ticks;
    }
  }

  lemma RerunsCons(s: Sys, st: Step, t: Sys, ss: seq<Sys>, p: Proc)
    requires Enabled(s, st) && t == Do(s, st) && Live(s, p) && s.ticks <= t.ticks && Reruns(t, ss, p)
    ensures Reruns(s, [s] + ss, p)
  {
    hide Enabled, Do, Next, Path, Calm, Live, Starts;
    PathCons(s, st, ss);
    CalmCons(s, ss, p);
    var l := [s] + ss;
    assert l[|l| - 2] == ss[|ss| - 2] && l[|l| - 1] == ss[|ss| - 1];
  }

  lemma DispatchStarts(s: Sys, c: nat, p: Proc, t: Sys)
    requires Inv(s) && c < |s.cpus| && s.cpus[c] == Chosen(p) && Enabled(s, Dispatch(c)) && t == Do(s, Dispatch(c))
    ensures Reruns(s, [s, t], p)
  {
    assert Next(s, t);
    assert t.cpus[c] == OnCpu(p);
  }

  /** How many have to be taken from the queue until p is. */
  ghost function Turn(s: Sys, p: Proc): (n: nat)
    ensures p in s.queue ==> 0 < n <= |s.queue| && s.queue[n - 1] == p && p !in s.queue[..n - 1]
    ensures p !in s.queue ==> n == 0
  {
    TurnOf(s.queue, p)
  }

  function TurnOf(q: seq<Proc>, p: Proc): (n: nat)
    ensures p in q ==> 0 < n <= |q| && q[n - 1] == p && p !in q[..n - 1]
    ensures p !in q ==> n == 0
  {
    if p !in q then 0 else if q[0] == p then 1 else 1 + TurnOf(q[1..], p)
  }

  lemma ChosenNotQueued(s: Sys, c: nat, p: Proc)
    requires Inv(s) && c < |s.cpus| && s.cpus[c] == Chosen(p)
    ensures p !in s.queue
  {
  }

  lemma TurnLess(s: Sys, c: nat, p: Proc, t: Sys)
    requires Inv(s) && c < |s.cpus| && s.cpus[c].Dry? && p in s.queue && t == Do(s, PopQueue(c))
    ensures Turn(t, p) < Turn(s, p)
  {
    TailOf(s.queue);
  }

  lemma {:induction false} TurnSame(q: seq<Proc>, r: seq<Proc>, p: Proc)
    requires q <= r && p in q
    ensures TurnOf(r, p) == TurnOf(q, p)
    decreases |q|
  {
    if q[0] != p {
      TurnSame(q[1..], r[1..], p);
    }
  }

  /** CPU c runs what it has and what the heap holds, each until it sleeps, and then takes
      from the queue, again and again until it dispatches p. */
  lemma {:induction false} BringOn(s: Sys, c: nat, p: Proc) returns (ss: seq<Sys>)
    requires Inv(s) && c < |s.cpus| && (p in s.queue || s.cpus[c] == Chosen(p))
    ensures Reruns(s, ss, p)
    decreases Turn(s, p), Supply(s, c), Stage(s.cpus[c]), Locks(s.cpus)
  {
    hide Inv, Reruns;
    var st;
    if s.cpus[c].Dry? {
      st := PopQueue(c);
    } else {
      st := NextOf(s, c);
    }
    var t := Do(s, st);
    StepKeeps(s, st, t);
    PromisedLive(s, c, p);
    if s.cpus[c] == Chosen(p) && st == Dispatch(c) {
      DispatchStarts(s, c, p, t);
      ss := [s, t];
    } else {
      if s.cpus[c].Dry? {
        TurnLess(s, c, p, t);
      } else if p in s.queue {
        TurnSame(s.queue, t.queue, p);
      } else {
        ChosenNotQueued(t, c, p);
      }
      ss := BringOn(t, c, p);
      RerunsCons(s, st, t, ss, p);
      ss := [s] + ss;
    }
  }

  lemma PromisedLive(s: Sys, c: nat, p: Proc)
    requires Inv(s) && c < |s.cpus| && (p in s.queue || s.cpus[c] == Chosen(p))
    ensures Live(s, p)
  {
  }

  lemma {:induction false} LatePath(ss: seq<Sys>, j: nat, p: Proc)
    requires Path(ss) && Inv(ss[0]) && Calm(ss, 0, |ss| - 1, p) && j < |ss|
    requires IsLate(ss[0], p) && !Promised(ss[0], p)
    ensures Inv(ss[j]) && IsLate(ss[j], p) && !Promised(ss[j], p)
    decreases j
  {
    hide Inv, Enabled, Do, Promised, IsLate, Live;
    if j > 0 {
      LatePath(ss, j - 1, p);
      assert Next(ss[j - 1], ss[j - 1 + 1]);
      var st :| Enabled(ss[j - 1], st) && ss[j] == Do(ss[j - 1], st);
      StepKeeps(ss[j - 1], st, ss[j]);
      LateStep(ss[j - 1], st, ss[j], p);
    }
  }

  /** WHEN A LATE PROCESS RUNS AGAIN. In every reachable state, a late process can
      still be dispatched, before its slot is freed and the clock wraps, if and only
      if it waits in the queue or is chosen already: neither is followed by another
      look at the deadline. */
  lemma LateRunsAgainIff(run: seq<Sys>, i: nat, p: Proc)
    requires IsRun(run) && i < |run| && Live(run[i], p) && IsLate(run[i], p)
    ensures (exists ss :: Reruns(run[i], ss, p)) <==> Promised(run[i], p)
  {
    hide Enabled, Do, Init, Next, Calm;
    RunKeeps(run, i);
    var s := run[i];
    if Promised(s, p) {
      var c := 0;
      if p !in s.queue {
        c :| 0 <= c < |s.cpus| && s.cpus[c] == Chosen(p);
      }
      var ss := BringOn(s, c, p);
    } else if ss :| Reruns(s, ss, p) {
      LatePath(ss, |ss| - 2, p);
    }
  }

  // ---- when a dropped process stays dropped ----

  lemma {:induction false} DroppedPath(ss: seq<Sys>, j: nat, p: Proc)
    requires Path(ss) && Inv(ss[0]) && j < |ss| && p < NPROC && ss[0].state[p].Dropped? && !InHand(ss[0], p)
    ensures Inv(ss[j]) && ss[j].state[p].Dropped? && !InHand(ss[j], p)
    decreases j
  {
    hide Enabled, Do, InHand, HeapOk, QueueOk, PlacedOk;
    if j > 0 {
      DroppedPath(ss, j - 1, p);
      assert Next(ss[j - 1], ss[j - 1 + 1]);
      var st :| Enabled(ss[j - 1], st) && ss[j] == Do(ss[j - 1], st);
      StepKeeps(ss[j - 1], st, ss[j]);
      DroppedStep(ss[j - 1], st, ss[j], p);
    }
  }

  /** Every path from s leaves p dropped. */
  ghost predicate StaysDropped(s: Sys, p: Proc) {
    forall ss: seq<Sys> :: Path(ss) && ss[0] == s ==> p < |ss[|ss| - 1].state| && ss[|ss| - 1].state[p].Dropped?
  }

  /** WHEN DROPPED IS FOR GOOD. A DROPPED process of a reachable state stays dropped
      whatever happens if and only if no CPU is on it. */
  lemma DroppedForGoodIff(run: seq<Sys>, i: nat, p: Proc)
    requires IsRun(run) && i < |run| && p < |run[i].state| && run[i].state[p].Dropped?
    ensures StaysDropped(run[i], p) <==> !OnSome(run[i], p)
  {
    RunKeeps(run, i);
    var s := run[i];
    if OnSome(s, p) {
      var c :| 0 <= c < |s.cpus| && Runs(s.cpus[c], p);
      Unlocked(s, c);
      var t := Do(s, GiveUp(c, Runnable));
      assert Next(s, t);
      assert Path([s, t]) && [s, t][0] == s && t.state[p].Runnable?;
    } else {
      assert !InHand(s, p);
      forall ss: seq<Sys> | Path(ss) && ss[0] == s
        ensures p < |ss[|ss| - 1].state| && ss[|ss| - 1].state[p].Dropped?
      {
        DroppedPath(ss, |ss| - 1, p);
      }
    }
  }
}
