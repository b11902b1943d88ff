/** The scheduler of kernel/proc.c as a step system over all CPUs, for processes
    without threads. A step is a stretch of code under the locks it holds: the
    heap's lock, the queue's lock, or a process's own lock, which a CPU keeps from
    the moment its process gives up the CPU until the scheduler is done with it.
    The mark that usertrap puts on a late process is a step without any lock. */
module Sched {
  import opened Basics
  import opened Params

  datatype State = Unused | Used | Sleeping | Runnable | Running | Zombie | PassedQuota | ChosenToRun | Dropped

  type Proc = nat

  /** What a CPU is doing for which process:
      - Scan: in the scheduler's pass over the process table, at slot next;
      - Drain: taking processes from the heap, none in hand;
      - Dry: has seen the heap empty, and turns to the queue;
      - Popped: process taken from the heap, heap lock still held;
      - Chosen: process in hand, no lock held;
      - OnCpu: switched to the process;
      - Marked: still on the process, which usertrap has found late and marked
        DROPPED; yield is next;
      - Returned: switched back, process lock held, verdict pending;
      - Tail: verdict given, process lock still held. */
  datatype Cpu =
    | Scan(next: nat) | Drain | Dry
    | Popped(p: Proc) | Chosen(p: Proc) | OnCpu(p: Proc) | Marked(p: Proc) | Returned(p: Proc) | Tail(p: Proc)

  /** No process in hand. */
  predicate Idle(cpu: Cpu) {
    cpu.Scan? || cpu.Drain? || cpu.Dry?
  }

  // The deadline allocproc gives a process (MAX_UINT in kernel/param.h).
  const NO_DEADLINE: nat := 4000000000

  /** The ticks a process has used, those at which it was last charged, and its quota. */
  datatype Usage = Usage(sum: nat, since: nat, quota: nat)

  /** ticks is the 32-bit clock; deadline and usage are fields of p->usage_time. */
  datatype Sys = Sys(ticks: nat, state: seq<State>, deadline: seq<nat>, usage: seq<Usage>, heap: seq<Proc>, queue: seq<Proc>,
                     cpus: seq<Cpu>)

  /** sum_of_ticks += ticks - last_sched_tick, in 32 bits. */
  function Charged(u: Usage, ticks: nat): (sum: nat) {
    (u.sum + (ticks - u.since) % UINT_LIMIT) % UINT_LIMIT
  }

  /** The scheduler's verdict would find the quota used up. */
  predicate IsOver(s: Sys, p: Proc) {
    p < |s.usage| && Charged(s.usage[p], s.ticks) >= s.usage[p].quota
  }

  datatype Step =
    | CheckPush(c: nat, heap': seq<Proc>)   // pq_check_and_push of the scan's next slot
    | PopHeap(c: nat, heap': seq<Proc>)     // pq_pop
    | PopNone(c: nat)                       // pq_pop returns NULL
    | Judge(c: nat)                         // deadline test on the popped process
    | PopQueue(c: nat)                      // pop, which may return NULL
    | Dispatch(c: nat)                      // state = RUNNING; swtch
    | Trap(c: nat)                          // usertrap charges the process
    | TrapLate(c: nat)                      // and finds it late: the unlocked state = DROPPED
    | TrapRet(c: nat)                       // back to user space: last_sched_tick = ticks
    | SetQuota(p: Proc, quota: nat)         // set_cpu_quota
    | GiveUp(c: nat, s: State)              // yield, sleep or exit, then swtch back
    | Settle(c: nat)                        // deadline and quota after swtch
    | Finish(c: nat)                        // release p->lock
    | Wake(p: Proc)                         // wakeup or kill
    | Alloc(p: Proc)                        // allocproc
    | Ready(p: Proc, deadline: nat)         // fork, fork_deadline, userinit
    | Free(p: Proc)                         // wait, or a failed fork
    | Tick                                  // clockintr

  /** ticks >= p->usage_time->deadline. */
  predicate IsLate(s: Sys, p: Proc) {
    p < |s.deadline| && s.ticks >= s.deadline[p]
  }

  ghost predicate PqLockFree(s: Sys, c: nat) {
    forall d :: 0 <= d < |s.cpus| && d != c ==> !s.cpus[d].Popped?
  }

  ghost predicate ProcLockFree(s: Sys, p: Proc) {
    forall d :: 0 <= d < |s.cpus| ==> s.cpus[d] != Returned(p) && s.cpus[d] != Tail(p)
  }

  /** Adding one element, removing one element, in any internal order. */
  predicate Adds(h: seq<Proc>, p: Proc, h': seq<Proc>) {
    multiset(h') == multiset(h) + multiset{p}
  }

  ghost predicate Enabled(s: Sys, st: Step) {
    match st
    case CheckPush(c, h') =>
      && c < |s.cpus| && s.cpus[c].Scan? && PqLockFree(s, c)
      && var p := s.cpus[c].next;
      && p < |s.state| && ProcLockFree(s, p)
      && (if s.state[p].Runnable? && p !in s.heap then Adds(s.heap, p, h') else h' == s.heap)
    case PopNone(c) =>
      c < |s.cpus| && s.cpus[c].Drain? && PqLockFree(s, c) && s.heap == []
    case PopHeap(c, h') =>
      && c < |s.cpus| && s.cpus[c].Drain? && PqLockFree(s, c)
      && s.heap != [] && s.heap[0] < |s.state| && ProcLockFree(s, s.heap[0])
      && Adds(h', s.heap[0], s.heap)
    case Judge(c) =>
      c < |s.cpus| && s.cpus[c].Popped? && s.cpus[c].p < |s.state| && ProcLockFree(s, s.cpus[c].p)
    case PopQueue(c) =>
      c < |s.cpus| && s.cpus[c].Dry?
    case Dispatch(c) =>
      c < |s.cpus| && s.cpus[c].Chosen? && s.cpus[c].p < |s.state| == |s.usage| && ProcLockFree(s, s.cpus[c].p)
    case Trap(c) =>
      c < |s.cpus| && s.cpus[c].OnCpu? && s.cpus[c].p < |s.state| == |s.usage| && !IsLate(s, s.cpus[c].p)
    case TrapLate(c) =>
      c < |s.cpus| && s.cpus[c].OnCpu? && s.cpus[c].p < |s.state| == |s.usage| && IsLate(s, s.cpus[c].p)
    case TrapRet(c) =>
      c < |s.cpus| && s.cpus[c].OnCpu? && s.cpus[c].p < |s.state| == |s.usage|
    case SetQuota(p, q) =>
      q < UINT_LIMIT && p < |s.state| == |s.usage| && !s.state[p].Unused?
    case GiveUp(c, x) =>
      && c < |s.cpus| && (s.cpus[c].OnCpu? || s.cpus[c].Marked?)
      && s.cpus[c].p < |s.state| == |s.usage| && ProcLockFree(s, s.cpus[c].p)
      && (x.Runnable? || (s.cpus[c].OnCpu? && (x.Sleeping? || x.Zombie?)))
    case Settle(c) =>
      c < |s.cpus| && s.cpus[c].Returned? && s.cpus[c].p < |s.state| == |s.usage|
    case Finish(c) =>
      c < |s.cpus| && s.cpus[c].Tail? && s.cpus[c].p < |s.state|
    case Wake(p) => p < |s.state| && s.state[p].Sleeping? && ProcLockFree(s, p)
    case Alloc(p) => p < |s.state| == |s.deadline| == |s.usage| && s.state[p].Unused? && ProcLockFree(s, p)
    case Ready(p, d) => d < UINT_LIMIT && p < |s.state| == |s.deadline| && s.state[p].Used? && ProcLockFree(s, p)
    case Free(p) => p < |s.state| && (s.state[p].Zombie? || s.state[p].Used?) && ProcLockFree(s, p)
    case Tick => true
  }

  ghost function Do(s: Sys, st: Step): Sys
    requires Enabled(s, st)
  {
    match st
    case CheckPush(c, h') =>
      var n := s.cpus[c].next + 1;
      s.(heap := h', cpus := s.cpus[c := if n < NPROC then Scan(n) else Drain])
    case PopNone(c) => s.(cpus := s.cpus[c := Dry])
    case PopHeap(c, h') =>
      s.(heap := h', state := s.state[s.heap[0] := ChosenToRun], cpus := s.cpus[c := Popped(s.heap[0])])
    case Judge(c) =>
      var p := s.cpus[c].p;
      if IsLate(s, p) then s.(state := s.state[p := Dropped], cpus := s.cpus[c := Drain])
      else s.(cpus := s.cpus[c := Chosen(p)])
    case PopQueue(c) =>
      if s.queue == [] then s.(cpus := s.cpus[c := Scan(0)])
      else s.(queue := s.queue[1..], cpus := s.cpus[c := Chosen(s.queue[0])])
    case Dispatch(c) =>
      var p := s.cpus[c].p;
      s.(state := s.state[p := Running], cpus := s.cpus[c := OnCpu(p)], usage := s.usage[p := s.usage[p].(since := s.ticks)])
    case Trap(c) => s.(usage := Charge(s, s.cpus[c].p))
    case TrapLate(c) =>
      var p := s.cpus[c].p;
      s.(state := s.state[p := Dropped], cpus := s.cpus[c := Marked(p)], usage := Charge(s, p))
    case TrapRet(c) => s.(usage := s.usage[s.cpus[c].p := s.usage[s.cpus[c].p].(since := s.ticks)])
    case SetQuota(p, q) => s.(usage := s.usage[p := s.usage[p].(quota := q)])
    case GiveUp(c, x) =>
      var p := s.cpus[c].p;
      s.(state := s.state[p := x], cpus := s.cpus[c := Returned(p)], usage := Charge(s, p))
    case Settle(c) =>
      var p := s.cpus[c].p;
      // the scheduler charges without moving last_sched_tick
      var s' := s.(cpus := s.cpus[c := Tail(p)], usage := s.usage[p := s.usage[p].(sum := Charged(s.usage[p], s.ticks))]);
      if IsLate(s, p) && s.state[p].Runnable? then s'.(state := s.state[p := Dropped])
      else if IsOver(s, p) && s.state[p].Runnable? then
        // enqueue returns without storing when the queue is full
        s'.(state := s.state[p := PassedQuota], queue := if |s.queue| == NPROC then s.queue else s.queue + [p])
      else s'
    case Finish(c) =>
      var p := s.cpus[c].p;
      s.(state := if s.state[p].Running? then s.state[p := Runnable] else s.state, cpus := s.cpus[c := Scan(0)])
    case Wake(p) => s.(state := s.state[p := Runnable])
    case Alloc(p) =>
      s.(state := s.state[p := Used], deadline := s.deadline[p := NO_DEADLINE],
         usage := s.usage[p := Usage(0, 0, NO_DEADLINE)])
    case Ready(p, d) => s.(state := s.state[p := Runnable], deadline := s.deadline[p := d])
    case Free(p) => s.(state := s.state[p := Unused])
    case Tick => s.(ticks := (s.ticks + 1) % UINT_LIMIT)
  }

  /** Process p charged now. */
  function Charge(s: Sys, p: Proc): seq<Usage>
    requires p < |s.usage|
  {
    s.usage[p := s.usage[p].(sum := Charged(s.usage[p], s.ticks), since := s.ticks)]
  }

  ghost predicate Init(s: Sys) {
    && s.ticks == 0
    && |s.state| == |s.deadline| == |s.usage| == NPROC && (forall p :: 0 <= p < NPROC ==> s.state[p].Unused?)
    && s.heap == [] && s.queue == []
    && |s.cpus| > 0 && forall c :: 0 <= c < |s.cpus| ==> s.cpus[c] == Scan(0)
  }

  ghost predicate Next(s: Sys, t: Sys) {
    exists st :: Enabled(s, st) && t == Do(s, st)
  }

  ghost predicate Path(ss: seq<Sys>) {
    |ss| > 0 && forall i :: 0 <= i < |ss| - 1 ==> Next(ss[i], ss[i + 1])
  }

  ghost predicate IsRun(run: seq<Sys>) {
    Path(run) && Init(run[0])
  }

  // ---- the invariant ----

  /** CPU c has process p in hand; after the verdict it no longer does. */
  predicate Holds(cpu: Cpu, p: Proc) {
    !Idle(cpu) && !cpu.Tail? && cpu.p == p
  }

  /** The state a process has in each place. */
  predicate Fits(cpu: Cpu, x: State) {
    match cpu
    case Scan(_) => true
    case Drain => true
    case Dry => true
    case Popped(_) => x.ChosenToRun?
    case Chosen(_) => x.ChosenToRun? || x.PassedQuota?
    case OnCpu(_) => x.Running?
    case Marked(_) => x.Dropped?
    case Returned(_) => x.Runnable? || x.Sleeping? || x.Zombie?
    case Tail(_) => x.Runnable? || x.Sleeping? || x.Zombie? || x.Dropped? || x.PassedQuota?
  }

  ghost predicate CpusOk(s: Sys) {
    && |s.state| == |s.deadline| == |s.usage| == NPROC && |s.cpus| > 0 && s.ticks < UINT_LIMIT
    && (forall c :: 0 <= c < |s.cpus| && !Idle(s.cpus[c]) ==>
          s.cpus[c].p < NPROC && Fits(s.cpus[c], s.state[s.cpus[c].p]))
    && (forall c :: 0 <= c < |s.cpus| && s.cpus[c].Scan? ==> s.cpus[c].next < NPROC)
    && (forall c, d :: 0 <= c < |s.cpus| && 0 <= d < |s.cpus| && c != d ==> Compatible(s.cpus[c], s.cpus[d]))
  }

  /** Two CPUs never have the same process, except that one may have chosen it
      from the queue while the other is still about to release its lock. */
  predicate Compatible(a: Cpu, b: Cpu) {
    && (a.Popped? ==> !b.Popped?)
    && (!Idle(a) && !Idle(b) && a.p == b.p ==> (a.Tail? && b.Chosen?) || (a.Chosen? && b.Tail?))
  }

  ghost predicate HeapOk(s: Sys) {
    && Distinct(s.heap)
    && (forall p :: p in s.heap ==> p < |s.state| && s.state[p].Runnable?)
    && (forall c :: 0 <= c < |s.cpus| && !Idle(s.cpus[c]) ==> s.cpus[c].p !in s.heap)
  }

  ghost predicate QueueOk(s: Sys) {
    && Distinct(s.queue)
    && (forall p :: p in s.queue ==> p < |s.state| && s.state[p].PassedQuota?)
    && (forall c :: 0 <= c < |s.cpus| && !Idle(s.cpus[c]) && !s.cpus[c].Tail? ==> s.cpus[c].p !in s.queue)
  }

  ghost predicate InHand(s: Sys, p: Proc) {
    exists c :: 0 <= c < |s.cpus| && Holds(s.cpus[c], p)
  }

  /** No process is lost: one that is marked as taken is in somebody's hand or queued. */
  ghost predicate PlacedOk(s: Sys) {
    forall p :: 0 <= p < |s.state| ==>
      && (s.state[p].Running? || s.state[p].ChosenToRun? ==> InHand(s, p))
      && (s.state[p].PassedQuota? ==> p in s.queue || InHand(s, p))
  }

  ghost predicate Inv(s: Sys) {
    CpusOk(s) && HeapOk(s) && QueueOk(s) && PlacedOk(s)
  }

  // ---- multisets and distinctness ----

  lemma {:induction false} DistinctOnce(s: seq<Proc>, x: Proc)
    requires Distinct(s)
    ensures multiset(s)[x] <= 1
    decreases |s|
  {
    if s != [] {
      var r, last := s[..|s| - 1], s[|s| - 1];
      assert s == r + [last];
      DistinctOnce(r, x);
      assert last !in r;
      assert last !in multiset(r);
    }
  }

  lemma OnceDistinct(s: seq<Proc>)
    requires forall x :: multiset(s)[x] <= 1
    ensures Distinct(s)
  {
    forall i, j | 0 <= i < j < |s|
      ensures s[i] != s[j]
    {
      assert s == s[..j] + [s[j]] + s[j + 1..];
      assert s[i] in s[..j];
      assert multiset(s[..j])[s[i]] >= 1 && multiset(s)[s[i]] <= 1;
      assert multiset(s) == multiset(s[..j]) + multiset{s[j]} + multiset(s[j + 1..]);
    }
  }

  lemma AddsDistinct(h: seq<Proc>, p: Proc, h': seq<Proc>)
    requires Adds(h, p, h')
    ensures Distinct(h) && p !in h ==> Distinct(h')
    ensures Distinct(h') ==> Distinct(h) && p !in h
    ensures forall x :: x in h' <==> x in h || x == p
  {
    forall x: Proc
      ensures x in h' <==> x in h || x == p
    {
      assert x in h' <==> x in multiset(h');
      assert x in h <==> x in multiset(h);
    }
    assert p in h <==> p in multiset(h);
    if Distinct(h) && p !in h {
      forall x
        ensures multiset(h')[x] <= 1
      {
        DistinctOnce(h, x);
      }
      OnceDistinct(h');
    }
    if Distinct(h') {
      forall x
        ensures multiset(h)[x] <= 1 && multiset(h')[x] <= 1
      {
        DistinctOnce(h', x);
      }
      OnceDistinct(h);
    }
  }

  /** Distinct processes below n number at most n. */
  lemma {:induction false} Pigeonhole(s: seq<Proc>, n: nat)
    requires Distinct(s) && forall p :: p in s ==> p < n
    ensures |s| <= n
    decreases n
  {
    assert |s| > 0 ==> s[0] in s;
    if n > 0 {
      if n - 1 in s {
        var i :| 0 <= i < |s| && s[i] == n - 1;
        var r := s[..i] + s[i + 1..];
        forall p | p in r
          ensures p < n - 1
        {
          var k :| 0 <= k < |r| && r[k] == p;
          var k' := if k < i then k else k + 1;
          assert p == s[k'] && s[k'] in s && s[k'] != s[i];
        }
        Pigeonhole(r, n - 1);
      } else {
        Pigeonhole(s, n - 1);
      }
    }
  }

  // ---- steps ----

  lemma InitOk(s: Sys)
    requires Init(s)
    ensures Inv(s)
  {
  }

  /** What the other CPUs have in hand stays in hand. */
  lemma HandsKept(s: Sys, t: Sys, c: nat)
    requires |t.cpus| == |s.cpus| && c < |s.cpus| && forall d :: 0 <= d < |s.cpus| && d != c ==> t.cpus[d] == s.cpus[d]
    ensures forall p :: InHand(s, p) && !Holds(s.cpus[c], p) ==> InHand(t, p)
    ensures forall p :: Holds(t.cpus[c], p) ==> InHand(t, p)
  {
    forall p | InHand(s, p) && !Holds(s.cpus[c], p)
      ensures InHand(t, p)
    {
      var d :| 0 <= d < |s.cpus| && Holds(s.cpus[d], p);
      assert Holds(t.cpus[d], p);
    }
  }

  lemma CheckPushKeeps(s: Sys, c: nat, h: seq<Proc>, t: Sys)
    requires Inv(s) && Enabled(s, CheckPush(c, h)) && t == Do(s, CheckPush(c, h))
    ensures Inv(t)
  {
    HandsKept(s, t, c);
    var p := s.cpus[c].next;
    if s.state[p].Runnable? && p !in s.heap {
      AddsDistinct(s.heap, p, h);
    }
  }

  lemma PopNoneKeeps(s: Sys, c: nat, t: Sys)
    requires Inv(s) && Enabled(s, PopNone(c)) && t == Do(s, PopNone(c))
    ensures Inv(t)
  {
    HandsKept(s, t, c);
  }

  lemma PopHeapKeeps(s: Sys, c: nat, h: seq<Proc>, t: Sys)
    requires Inv(s) && Enabled(s, PopHeap(c, h)) && t == Do(s, PopHeap(c, h))
    ensures Inv(t)
  {
    HandsKept(s, t, c);
    AddsDistinct(h, s.heap[0], s.heap);
    assert Holds(t.cpus[c], s.heap[0]);
  }

  lemma JudgeKeeps(s: Sys, c: nat, t: Sys)
    requires Inv(s) && Enabled(s, Judge(c)) && t == Do(s, Judge(c))
    ensures Inv(t)
  {
    hide Distinct, PqLockFree, InHand;
    HandsKept(s, t, c);
    assert Holds(s.cpus[c], s.cpus[c].p);
    assert !IsLate(s, s.cpus[c].p) ==> Holds(t.cpus[c], s.cpus[c].p);
  }

  lemma TailOf(q: seq<Proc>)
    requires Distinct(q) && q != []
    ensures Distinct(q[1..]) && forall x :: x in q[1..] <==> x in q && x != q[0]
  {
    var r := q[1..];
    forall x ensures x in r <==> x in q && x != q[0] {
      if x in r {
        var k :| 0 <= k < |r| && r[k] == x;
        assert q[k + 1] == x && q[0] != q[k + 1];
      }
      if x in q && x != q[0] {
        var k :| 0 <= k < |q| && q[k] == x;
        assert r[k - 1] == x;
      }
    }
  }

  lemma PopQueueKeeps(s: Sys, c: nat, t: Sys)
    requires Inv(s) && Enabled(s, PopQueue(c)) && t == Do(s, PopQueue(c))
    ensures Inv(t)
  {
    hide InHand, Distinct;
    HandsKept(s, t, c);
    if s.queue != [] {
      TailOf(s.queue);
      assert s.queue[0] in s.queue && Holds(t.cpus[c], s.queue[0]);
    }
  }

  lemma DispatchKeeps(s: Sys, c: nat, t: Sys)
    requires Inv(s) && Enabled(s, Dispatch(c)) && t == Do(s, Dispatch(c))
    ensures Inv(t)
  {
    HandsKept(s, t, c);
    assert Holds(t.cpus[c], s.cpus[c].p);
  }

  lemma TrapLateKeeps(s: Sys, c: nat, t: Sys)
    requires Inv(s) && Enabled(s, TrapLate(c)) && t == Do(s, TrapLate(c))
    ensures Inv(t)
  {
    hide Distinct, PqLockFree, InHand;
    HandsKept(s, t, c);
    assert Holds(t.cpus[c], s.cpus[c].p);
  }

  lemma UsageKeeps(s: Sys, st: Step, t: Sys)
    requires Inv(s) && Enabled(s, st) && t == Do(s, st) && (st.Trap? || st.TrapRet? || st.SetQuota?)
    ensures Inv(t)
  {
    hide IsLate, PqLockFree, ProcLockFree;
    assert t == s.(usage := t.usage) && |t.usage| == |s.usage|;
    assert forall p :: InHand(t, p) <==> InHand(s, p);
  }

  lemma TickKeeps(s: Sys, t: Sys)
    requires Inv(s) && t == Do(s, Tick)
    ensures Inv(t)
  {
    assert forall p :: InHand(t, p) <==> InHand(s, p);
  }

  lemma GiveUpKeeps(s: Sys, c: nat, x: State, t: Sys)
    requires Inv(s) && Enabled(s, GiveUp(c, x)) && t == Do(s, GiveUp(c, x))
    ensures Inv(t)
  {
    hide Distinct, PqLockFree, InHand;
    HandsKept(s, t, c);
    assert Holds(t.cpus[c], s.cpus[c].p);
  }

  lemma SettleQueue(s: Sys, c: nat, t: Sys)
    requires Inv(s) && Enabled(s, Settle(c)) && t == Do(s, Settle(c))
    ensures QueueOk(t)
  {
    hide HeapOk, PlacedOk, InHand;
    Pigeonhole(s.queue + [s.cpus[c].p], NPROC);
  }

  lemma SettlePlaced(s: Sys, c: nat, t: Sys)
    requires Inv(s) && Enabled(s, Settle(c)) && t == Do(s, Settle(c))
    ensures PlacedOk(t)
  {
    hide HeapOk, InHand;
    HandsKept(s, t, c);
    Pigeonhole(s.queue + [s.cpus[c].p], NPROC);
  }

  lemma SettleKeeps(s: Sys, c: nat, t: Sys)
    requires Inv(s) && Enabled(s, Settle(c)) && t == Do(s, Settle(c))
    ensures Inv(t)
  {
    hide QueueOk, PlacedOk, InHand;
    SettleQueue(s, c, t);
    SettlePlaced(s, c, t);
  }

  lemma FinishKeeps(s: Sys, c: nat, t: Sys)
    requires Inv(s) && Enabled(s, Finish(c)) && t == Do(s, Finish(c))
    ensures Inv(t)
  {
    HandsKept(s, t, c);
    assert t.state == s.state;
  }

  lemma OthersLists(s: Sys, st: Step, t: Sys)
    requires Inv(s) && Enabled(s, st) && t == Do(s, st) && (st.Wake? || st.Alloc? || st.Ready? || st.Free?)
    ensures HeapOk(t) && QueueOk(t)
  {
    hide PlacedOk, InHand, Distinct, Compatible;
  }

  lemma OthersKeep(s: Sys, st: Step, t: Sys)
    requires Inv(s) && Enabled(s, st) && t == Do(s, st) && (st.Wake? || st.Alloc? || st.Ready? || st.Free?)
    ensures Inv(t)
  {
    hide HeapOk, QueueOk, Compatible;
    OthersLists(s, st, t);
    assert forall p :: InHand(t, p) <==> InHand(s, p);
  }

  lemma StepKeeps(s: Sys, st: Step, t: Sys)
    requires Inv(s) && Enabled(s, st) && t == Do(s, st)
    ensures Inv(t)
  {
    hide Inv;
    match st
    case CheckPush(c, h) => CheckPushKeeps(s, c, h, t);
    case PopNone(c) => PopNoneKeeps(s, c, t);
    case PopHeap(c, h) => PopHeapKeeps(s, c, h, t);
    case Judge(c) => JudgeKeeps(s, c, t);
    case PopQueue(c) => PopQueueKeeps(s, c, t);
    case Dispatch(c) => DispatchKeeps(s, c, t);
    case Trap(_) => UsageKeeps(s, st, t);
    case TrapLate(c) => TrapLateKeeps(s, c, t);
    case TrapRet(_) => UsageKeeps(s, st, t);
    case SetQuota(_, _) => UsageKeeps(s, st, t);
    case GiveUp(c, x) => GiveUpKeeps(s, c, x, t);
    case Settle(c) => SettleKeeps(s, c, t);
    case Finish(c) => FinishKeeps(s, c, t);
    case Wake(_) => OthersKeep(s, st, t);
    case Alloc(_) => OthersKeep(s, st, t);
    case Ready(_, _) => OthersKeep(s, st, t);
    case Free(_) => OthersKeep(s, st, t);
    case Tick => TickKeeps(s, t);
  }

  lemma {:induction false} RunKeeps(run: seq<Sys>, i: nat)
    requires IsRun(run) && i < |run|
    ensures Inv(run[i])
    decreases i
  {
    hide Inv, Do, Enabled, Init;
    if i == 0 {
      InitOk(run[0]);
    } else {
      RunKeeps(run, i - 1);
      assert Next(run[i - 1], run[i - 1 + 1]);
      var st :| Enabled(run[i - 1], st) && run[i] == Do(run[i - 1], st);
      StepKeeps(run[i - 1], st, run[i]);
    }
  }

  // ---- the theorems about runs ----

  /** CPU c is switched to process p. */
  predicate Runs(cpu: Cpu, p: Proc) {
    cpu == OnCpu(p) || cpu == Marked(p)
  }

  ghost predicate OnSome(s: Sys, p: Proc) {
    exists c :: 0 <= c < |s.cpus| && Runs(s.cpus[c], p)
  }

  /** ONE PLACE. In every reachable state a process is in at most one of the heap,
      the queue and the CPUs' hands; heap members are RUNNABLE and queue members
      PASSED_QUOTA; no process is on two CPUs; a RUNNING process is on a CPU; and
      one that is on a CPU is RUNNING, or DROPPED between usertrap's mark and the
      yield after it. */
  lemma OnePlace(run: seq<Sys>, i: nat, p: Proc)
    requires IsRun(run) && i < |run| && p < NPROC
    ensures var s := run[i];
            && |s.state| == NPROC
            && (p in s.heap ==> s.state[p].Runnable? && p !in s.queue && !InHand(s, p))
            && (p in s.queue ==> s.state[p].PassedQuota? && !InHand(s, p))
            && (forall c, d :: 0 <= c < d < |s.cpus| ==> !(Holds(s.cpus[c], p) && Holds(s.cpus[d], p)))
            && (s.state[p].Running? ==> OnSome(s, p))
            && (OnSome(s, p) ==> s.state[p].Running? || s.state[p].Dropped?)
            && (forall c :: 0 <= c < |s.cpus| && Runs(s.cpus[c], p) ==> (s.cpus[c].Marked? <==> s.state[p].Dropped?))
  {
    RunKeeps(run, i);
    var s := run[i];
    if s.state[p].Running? {
      assert InHand(s, p);
      var c :| 0 <= c < |s.cpus| && Holds(s.cpus[c], p);
      assert Runs(s.cpus[c], p);
    }
    forall c, d | 0 <= c < d < |s.cpus|
      ensures !(Holds(s.cpus[c], p) && Holds(s.cpus[d], p))
    {
      assert Compatible(s.cpus[c], s.cpus[d]);
    }
  }

  /** NO OVERFLOW. Whenever the scheduler is about to push a process the heap has
      room, and whenever it is about to queue one the queue has room: the heap's
      panic and the queue's failure return are unreachable. */
  lemma NoOverflow(run: seq<Sys>, i: nat, p: Proc)
    requires IsRun(run) && i < |run| && p < NPROC
    ensures var s := run[i];
            && |s.state| == NPROC
            && (p !in s.heap ==> |s.heap| < NPROC)
            && (p !in s.queue ==> |s.queue| < NPROC)
            && (forall c :: 0 <= c < |s.cpus| && s.cpus[c] == Returned(p) ==> |s.queue| < NPROC)
  {
    RunKeeps(run, i);
    var s := run[i];
    if p !in s.heap {
      Pigeonhole(s.heap + [p], NPROC);
    }
    if p !in s.queue {
      Pigeonhole(s.queue + [p], NPROC);
    }
  }

  lemma DroppedNowhere(s: Sys, p: Proc)
    requires Inv(s) && p < NPROC && s.state[p].Dropped?
    ensures p !in s.heap && p !in s.queue
  {
  }

  lemma DroppedStep(s: Sys, st: Step, t: Sys, p: Proc)
    requires Inv(s) && Enabled(s, st) && t == Do(s, st) && p < NPROC && s.state[p].Dropped? && !InHand(s, p)
    ensures |t.state| == NPROC && t.state[p].Dropped? && !InHand(t, p)
  {
    hide HeapOk, QueueOk, PlacedOk, PqLockFree, ProcLockFree, Adds, Compatible;
    DroppedNowhere(s, p);
    forall c | 0 <= c < |t.cpus|
      ensures !Holds(t.cpus[c], p)
    {
      assert !Holds(s.cpus[c], p);
    }
  }

  /** DROPPED FOR GOOD. A dropped process that is on no CPU stays dropped, and is
      never again in the heap, in the queue or on a CPU. */
  lemma {:induction false} DroppedForGood(run: seq<Sys>, i: nat, j: nat, p: Proc)
    requires IsRun(run) && i <= j < |run| && p < NPROC
    requires |run[i].state| == NPROC && run[i].state[p].Dropped? && !InHand(run[i], p)
    ensures var s := run[j];
            |s.state| == NPROC && s.state[p].Dropped? && p !in s.heap && p !in s.queue && !InHand(s, p)
    decreases j
  {
    hide Inv, Enabled, Do, Init, InHand;
    if i < j {
      DroppedForGood(run, i, j - 1, p);
      RunKeeps(run, j - 1);
      assert Next(run[j - 1], run[j - 1 + 1]);
      var st :| Enabled(run[j - 1], st) && run[j] == Do(run[j - 1], st);
      DroppedStep(run[j - 1], st, run[j], p);
    }
    RunKeeps(run, j);
    DroppedNowhere(run[j], p);
  }
}
