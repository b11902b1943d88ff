/** The quota queue over whole runs: who enters it, and in what order it is left. */
module SchedQueue {
  import opened Basics
  import opened Params
  import opened Sched

  ghost predicate Takes(s: Sys, st: Step, t: Sys) {
    Enabled(s, st) && t == Do(s, st)
  }

  /** A run with the steps taken. */
  ghost predicate Trace(run: seq<Sys>, sts: seq<Step>) {
    && |run| == |sts| + 1 && Init(run[0])
    && forall i :: 0 <= i < |sts| ==> Takes(run[i], sts[i], run[i + 1])
  }

  lemma TraceRuns(run: seq<Sys>, sts: seq<Step>)
    requires Trace(run, sts)
    ensures IsRun(run)
  {
    hide Enabled, Do, Init;
    forall i | 0 <= i < |run| - 1
      ensures Next(run[i], run[i + 1])
    {
      assert Takes(run[i], sts[i], run[i + 1]);
    }
  }

  /** The verdict on process p is that it has used up its quota: it is RUNNABLE and in time,
      and the ticks charged to it have reached the quota. */
  ghost predicate OverAt(s: Sys, st: Step, p: Proc) {
    && st.Settle? && st.c < |s.cpus| && s.cpus[st.c] == Returned(p)
    && p < |s.state| && s.state[p].Runnable? && !IsLate(s, p) && IsOver(s, p)
  }

  /** Who enters the queue in a step. */
  ghost function Enters(s: Sys, st: Step): seq<Proc> {
    if st.Settle? && st.c < |s.cpus| && s.cpus[st.c].Returned? && OverAt(s, st, s.cpus[st.c].p) then [s.cpus[st.c].p] else []
  }

  /** Whom a CPU takes from it. */
  ghost function Leaves(st: Step, t: Sys): seq<Proc> {
    if st.PopQueue? && st.c < |t.cpus| && t.cpus[st.c].Chosen? then [t.cpus[st.c].p] else []
  }

  /** OVER QUOTA. Such a verdict makes a process PASSED_QUOTA and puts it last in the queue,
      which always has room. */
  lemma OverQuota(s: Sys, st: Step, t: Sys, p: Proc)
    requires Inv(s) && Takes(s, st, t) && OverAt(s, st, p)
    ensures p < |t.state| && t.state[p].PassedQuota? && t.queue == s.queue + [p] && p !in t.heap && !InHand(t, p)
  {
    Pigeonhole(s.queue + [p], NPROC);
    forall d | 0 <= d < |t.cpus|
      ensures !Holds(t.cpus[d], p)
    {
      assert d != st.c ==> Compatible(s.cpus[st.c], s.cpus[d]);
    }
  }

  /** Nobody becomes PASSED_QUOTA otherwise. */
  lemma OnlyOver(s: Sys, st: Step, t: Sys, p: Proc)
    requires Inv(s) && Takes(s, st, t) && p < NPROC && !s.state[p].PassedQuota?
    ensures |t.state| == NPROC && (t.state[p].PassedQuota? <==> OverAt(s, st, p))
  {
    hide HeapOk, QueueOk, PlacedOk, PqLockFree, ProcLockFree, Adds, Compatible;
  }

  lemma QueueStep(s: Sys, st: Step, t: Sys)
    requires Inv(s) && Takes(s, st, t)
    ensures s.queue + Enters(s, st) == Leaves(st, t) + t.queue
  {
    hide HeapOk, PlacedOk, PqLockFree, ProcLockFree, Adds, Compatible;
    if st.Settle? {
      Pigeonhole(s.queue + [s.cpus[st.c].p], NPROC);
    }
  }

  /** Who enters from state i to state j, and who leaves, in order. */
  ghost function Entered(run: seq<Sys>, sts: seq<Step>, i: nat, j: nat): seq<Proc>
    requires i <= j <= |sts| < |run|
    decreases j
  {
    if i == j then [] else Entered(run, sts, i, j - 1) + Enters(run[j - 1], sts[j - 1])
  }

  ghost function Left(run: seq<Sys>, sts: seq<Step>, i: nat, j: nat): seq<Proc>
    requires i <= j <= |sts| < |run|
    decreases j
  {
    if i == j then [] else Left(run, sts, i, j - 1) + Leaves(sts[j - 1], run[j])
  }

  lemma Chain(q: seq<Proc>, a: seq<Proc>, b: seq<Proc>, r: seq<Proc>, e: seq<Proc>, l: seq<Proc>, t: seq<Proc>)
    requires q + a == b + r && r + e == l + t
    ensures q + (a + e) == (b + l) + t
  {
    assert q + (a + e) == (q + a) + e;
    assert (b + r) + e == b + (r + e);
    assert b + (l + t) == (b + l) + t;
  }

  /** FIRST IN, FIRST OUT. Between any two states of a run, those in the queue at first and
      then those who enter are, in this order, those who leave and then those in the queue
      at last. */
  lemma {:induction false} FirstInFirstOut(run: seq<Sys>, sts: seq<Step>, i: nat, j: nat)
    requires Trace(run, sts) && i <= j < |run|
    ensures run[i].queue + Entered(run, sts, i, j) == Left(run, sts, i, j) + run[j].queue
    decreases j
  {
    hide Inv, Takes, Init, Enters, Leaves;
    if i < j {
      FirstInFirstOut(run, sts, i, j - 1);
      TraceRuns(run, sts);
      RunKeeps(run, j - 1);
      assert Takes(run[j - 1], sts[j - 1], run[j - 1 + 1]);
      QueueStep(run[j - 1], sts[j - 1], run[j]);
      Chain(run[i].queue, Entered(run, sts, i, j - 1), Left(run, sts, i, j - 1), run[j - 1].queue,
            Enters(run[j - 1], sts[j - 1]), Leaves(sts[j - 1], run[j]), run[j].queue);
    }
  }

  /** IN ITS TURN. The process behind m others in the queue is still there, PASSED_QUOTA and
      neither in the heap nor on a CPU, as long as no more than m have left; and it is the
      next one to leave. */
  lemma InTurn(run: seq<Sys>, sts: seq<Step>, i: nat, j: nat, m: nat)
    requires Trace(run, sts) && i <= j < |run| && m < |run[i].queue|
    ensures var p, gone := run[i].queue[m], |Left(run, sts, i, j)|;
            && (gone > m ==> Left(run, sts, i, j)[m] == p)
            && (gone <= m ==>
                  && m - gone < |run[j].queue| && run[j].queue[m - gone] == p
                  && p < |run[j].state| && run[j].state[p].PassedQuota? && p !in run[j].heap && !InHand(run[j], p))
  {
    hide Inv, Trace, Left, Entered;
    TraceRuns(run, sts);
    TraceLength(run, sts);
    FirstInFirstOut(run, sts, i, j);
    var p, l := run[i].queue[m], Left(run, sts, i, j);
    assert (run[i].queue + Entered(run, sts, i, j))[m] == p;
    assert (l + run[j].queue)[m] == p;
    if |l| <= m {
      RunKeeps(run, i);
      QueuedProc(run[i], m);
      OnePlace(run, j, p);
      assert p in run[j].queue;
    }
  }

  lemma QueuedProc(s: Sys, m: nat)
    requires Inv(s) && m < |s.queue|
    ensures s.queue[m] < NPROC
  {
    assert s.queue[m] in s.queue;
  }

  lemma TraceLength(run: seq<Sys>, sts: seq<Step>)
    requires Trace(run, sts)
    ensures |run| == |sts| + 1
  {
  }

  // ---- the ticks that are charged ----

  predicate Busy(cpu: Cpu, p: Proc) {
    cpu == OnCpu(p) || cpu == Marked(p) || cpu == Returned(p)
  }

  function Wrap(x: int): nat {
    x % UINT_LIMIT
  }

  /** Step st of CPU c sets last_sched_tick of its process. */
  predicate Marks(st: Step, c: nat) {
    st == Dispatch(c) || st == Trap(c) || st == TrapLate(c) || st == TrapRet(c) || (st.GiveUp? && st.c == c)
  }

  /** What would be charged grows with the clock, and loses the time since the last mark where
      a trap returns. */
  lemma ChargedStep(s: Sys, st: Step, t: Sys, c: nat, p: Proc)
    requires Inv(s) && Takes(s, st, t) && c < |s.cpus| && Busy(s.cpus[c], p) && st != Settle(c)
    ensures p < NPROC == |s.usage| == |t.usage| && t.ticks < UINT_LIMIT
    ensures t.usage[p].since == if Marks(st, c) then s.ticks else s.usage[p].since
    ensures Charged(t.usage[p], t.ticks) ==
            Wrap(Charged(s.usage[p], s.ticks) + (t.ticks - s.ticks) - if st == TrapRet(c) then s.ticks - s.usage[p].since else 0)
  {
    hide Inv, Takes, Charged, Wrap, Busy;
    UsageOf(s, st, t, c, p);
    ChargedNow(s.usage[p], s.ticks);
    ChargedBack(s.usage[p], s.ticks);
    if st.Tick? {
      ChargedTick(s.usage[p], s.ticks, t.ticks);
    } else {
      ChargedAgain(s.usage[p], s.ticks);
    }
  }

  lemma UsageOf(s: Sys, st: Step, t: Sys, c: nat, p: Proc)
    requires Inv(s) && Takes(s, st, t) && c < |s.cpus| && Busy(s.cpus[c], p) && st != Settle(c)
    ensures p < NPROC == |s.usage| == |t.usage| && s.ticks < UINT_LIMIT
    ensures t.ticks == if st.Tick? then (s.ticks + 1) % UINT_LIMIT else s.ticks
    ensures var u := s.usage[p];
            t.usage[p] == if st == TrapRet(c) then u.(since := s.ticks)
                          else if Marks(st, c) then u.(sum := Charged(u, s.ticks), since := s.ticks)
                          else if st.SetQuota? && st.p == p then u.(quota := st.quota) else u
  {
    hide Inv, PqLockFree, ProcLockFree, Adds, Charged, IsLate, IsOver;
    BusyAlone(s, c, p);
  }

  lemma BusyAlone(s: Sys, c: nat, p: Proc)
    requires Inv(s) && c < |s.cpus| && Busy(s.cpus[c], p)
    ensures p < NPROC == |s.usage| == |s.state| && s.ticks < UINT_LIMIT && !s.state[p].Unused?
    ensures forall d :: 0 <= d < |s.cpus| && d != c ==> Idle(s.cpus[d]) || s.cpus[d].p != p
  {
    assert forall d :: 0 <= d < |s.cpus| && d != c ==> Compatible(s.cpus[c], s.cpus[d]);
  }

  /** last_sched_tick moved without a charge. */
  lemma ChargedBack(u: Usage, now: nat)
    ensures Charged(u.(since := now), now) == Wrap(Charged(u, now) - (now - u.since))
  {
    AddMod(u.sum, now - u.since);
    AddMod(-(now - u.since), u.sum + (now - u.since));
  }

  lemma ChargedNow(u: Usage, now: nat)
    ensures Charged(u, now) < UINT_LIMIT && Wrap(Charged(u, now)) == Charged(u, now)
  {
  }

  lemma ChargedAgain(u: Usage, now: nat)
    ensures Charged(u.(sum := Charged(u, now), since := now), now) == Charged(u, now)
    ensures forall q :: Charged(u.(quota := q), now) == Charged(u, now)
  {
  }

  lemma ChargedTick(u: Usage, now: nat, next: nat)
    requires now < UINT_LIMIT && next == (now + 1) % UINT_LIMIT
    ensures Charged(u, next) == Wrap(Charged(u, now) + (next - now))
  {
    var a, b := now - u.since, next - u.since;
    AddMod(u.sum, a);
    AddMod(u.sum, b);
    AddMod(next - now, u.sum + a);
    assert (next - now + (u.sum + a)) % UINT_LIMIT == (u.sum + b) % UINT_LIMIT;
  }

  lemma AddMod(x: int, y: int)
    ensures (x + y % UINT_LIMIT) % UINT_LIMIT == (x + y) % UINT_LIMIT
  {
    var q := y / UINT_LIMIT;
    assert y == q * UINT_LIMIT + y % UINT_LIMIT;
    SameMod(x + y % UINT_LIMIT, q);
  }

  lemma SameMod(x: int, q: int)
    ensures (x + q * UINT_LIMIT) % UINT_LIMIT == x % UINT_LIMIT
  {
  }

  lemma ModChain(x: int, d: int)
    ensures Wrap(Wrap(x) + d) == Wrap(x + d)
  {
    AddMod(d, x);
  }

  /** CPU c is on process p from state k + 1 to state m. */
  ghost predicate Stretch(run: seq<Sys>, sts: seq<Step>, k: nat, m: nat, c: nat, p: Proc) {
    && k < m < |sts| < |run| && sts[k] == Dispatch(c) && c < |run[k].cpus| && run[k].cpus[c] == Chosen(p)
    && (forall j :: k < j <= m ==> c < |run[j].cpus| && Busy(run[j].cpus[c], p))
    && (forall j :: k < j < m ==> sts[j] != Settle(c))
  }

  /** The tick of the last mark since step k, at state j. */
  ghost function Since(run: seq<Sys>, sts: seq<Step>, k: nat, j: nat, c: nat): nat
    requires k < j <= |sts| < |run|
    decreases j
  {
    if j == k + 1 then run[k].ticks else if Marks(sts[j - 1], c) then run[j - 1].ticks else Since(run, sts, k, j - 1, c)
  }

  /** The time that is not charged: what has passed since the last mark where a trap returns. */
  ghost function Uncharged(run: seq<Sys>, sts: seq<Step>, k: nat, j: nat, c: nat): int
    requires k < j <= |sts| < |run|
    decreases j
  {
    if j == k + 1 then 0
    else Uncharged(run, sts, k, j - 1, c) +
         if sts[j - 1] == TrapRet(c) then run[j - 1].ticks - Since(run, sts, k, j - 1, c) else 0
  }

  lemma {:induction false} ChargedSince(run: seq<Sys>, sts: seq<Step>, k: nat, m: nat, c: nat, p: Proc, j: nat)
    requires Trace(run, sts) && Stretch(run, sts, k, m, c, p) && k < j <= m && p < NPROC == |run[k].usage|
    ensures |run[j].usage| == NPROC && run[j].usage[p].since == Since(run, sts, k, j, c)
    ensures Charged(run[j].usage[p], run[j].ticks) ==
            Wrap(run[k].usage[p].sum + (run[j].ticks - run[k].ticks) - Uncharged(run, sts, k, j, c))
    decreases j
  {
    hide Inv, Takes, Init, Charged, Busy, Wrap, Trace, Stretch, Marks;
    StretchAt(run, sts, k, m, c, p, j);
    StepAt(run, sts, j - 1);
    if j == k + 1 {
      FirstCharge(run[k], c, p, run[j]);
    } else {
      ChargedSince(run, sts, k, m, c, p, j - 1);
      StretchAt(run, sts, k, m, c, p, j - 1);
      var s, t, st := run[j - 1], run[j], sts[j - 1];
      ChargedStep(s, st, t, c, p);
      ModChain(run[k].usage[p].sum + (s.ticks - run[k].ticks) - Uncharged(run, sts, k, j - 1, c),
               (t.ticks - s.ticks) - if st == TrapRet(c) then s.ticks - s.usage[p].since else 0);
    }
  }

  lemma StepAt(run: seq<Sys>, sts: seq<Step>, j: nat)
    requires Trace(run, sts) && j < |sts|
    ensures |run| == |sts| + 1 && Inv(run[j]) && Takes(run[j], sts[j], run[j + 1])
  {
    hide Inv, Takes, Init;
    TraceRuns(run, sts);
    RunKeeps(run, j);
  }

  lemma StretchAt(run: seq<Sys>, sts: seq<Step>, k: nat, m: nat, c: nat, p: Proc, j: nat)
    requires Stretch(run, sts, k, m, c, p) && k < j <= m
    ensures m < |sts| < |run| && sts[k] == Dispatch(c) && c < |run[k].cpus| && run[k].cpus[c] == Chosen(p)
    ensures c < |run[j].cpus| && Busy(run[j].cpus[c], p) && (j < m ==> sts[j] != Settle(c))
  {
  }

  lemma FirstCharge(s: Sys, c: nat, p: Proc, t: Sys)
    requires Inv(s) && Takes(s, Dispatch(c), t) && c < |s.cpus| && s.cpus[c] == Chosen(p) && p < NPROC
    ensures |t.usage| == NPROC && t.ticks == s.ticks == t.usage[p].since
    ensures Charged(t.usage[p], t.ticks) == Wrap(s.usage[p].sum + (t.ticks - s.ticks))
  {
    hide HeapOk, QueueOk, PlacedOk, PqLockFree, ProcLockFree;
  }

  /** THE TICKS OF A STRETCH. The verdict at the end of a stretch on a CPU charges a process the
      ticks since its dispatch, in 32 bits, less those between a trap and its return. */
  lemma TicksCharged(run: seq<Sys>, sts: seq<Step>, k: nat, m: nat, c: nat, p: Proc)
    requires Trace(run, sts) && Stretch(run, sts, k, m, c, p) && sts[m] == Settle(c) && run[m].cpus[c] == Returned(p)
    ensures p < |run[k].usage| && p < |run[m + 1].usage|
    ensures run[m + 1].usage[p].sum ==
            Wrap(run[k].usage[p].sum + (run[m].ticks - run[k].ticks) - Uncharged(run, sts, k, m, c))
  {
    hide Inv, Init, Enabled, Do, Charged, Busy, Takes, Wrap;
    TraceRuns(run, sts);
    RunKeeps(run, k);
    RunKeeps(run, m);
    assert Takes(run[m], sts[m], run[m + 1]);
    ChosenProc(run[k], c, p);
    ChargedSince(run, sts, k, m, c, p, m);
    LastCharge(run[m], c, p, run[m + 1]);
  }

  lemma ChosenProc(s: Sys, c: nat, p: Proc)
    requires Inv(s) && c < |s.cpus| && s.cpus[c] == Chosen(p)
    ensures p < NPROC == |s.usage|
  {
  }

  lemma LastCharge(s: Sys, c: nat, p: Proc, t: Sys)
    requires Inv(s) && Takes(s, Settle(c), t) && c < |s.cpus| && s.cpus[c] == Returned(p)
    ensures p < |t.usage| == |s.usage| && t.usage[p].sum == Charged(s.usage[p], s.ticks)
  {
    hide HeapOk, QueueOk, PlacedOk, PqLockFree, ProcLockFree, Charged;
  }
}
