/** Sleep locks over sleep and wakeup (kernel/sleeplock.c, kernel/proc.c), one
    lock and any number of processes. A step is the code between two points where
    another process can be observed: taking or releasing a spinlock, or one test
    of wakeup's scan. */
module SleepLock {
  import opened Basics

  type Proc = nat

  /** Where a process is:
      in acquiresleep   WantInner, Testing, then either Entering sleep, OwnLocked
                        (own p->lock and lk->lk held), Gave (lk->lk released, own
                        lock held), Slept (state set, own lock held), Parked
                        (switched out, own lock free), or Holding;
      in releasesleep   WantRelease, then Waking with the next process to test. */
  datatype Pc =
    | Out | WantInner | Testing | Entering | OwnLocked | Gave | Slept | Parked
    | Holding | WantRelease | Waking(next: nat)

  datatype Sys = Sys(pc: seq<Pc>, asleep: seq<bool>, locked: bool, inner: Option<Proc>)

  datatype Step =
    | Start(p: Proc)       // call acquiresleep
    | TakeInner(p: Proc)   // acquire(&lk->lk), in acquiresleep or when woken
    | Grab(p: Proc)        // locked was 0: take it, release(&lk->lk)
    | Block(p: Proc)       // locked was 1: call sleep
    | TakeOwn(p: Proc)     // acquire(&p->lock)
    | GiveInner(p: Proc)   // release(lk)
    | SetState(p: Proc)    // p->state = SLEEPING
    | Switch(p: Proc)      // sched; the scheduler releases p->lock
    | Resume(p: Proc)      // scheduled again; p->chan = 0, release(&p->lock)
    | Leave(p: Proc)       // call releasesleep
    | Unlock(p: Proc)      // acquire(&lk->lk); locked = 0
    | WakeOne(p: Proc)     // one iteration of wakeup
    | Done(p: Proc)        // release(&lk->lk)
    | Kill(p: Proc)        // kill marks a sleeping process runnable

  predicate HoldsOwn(pc: Pc) {
    pc.OwnLocked? || pc.Gave? || pc.Slept?
  }

  predicate HoldsInner(pc: Pc) {
    pc.Testing? || pc.Entering? || pc.OwnLocked? || pc.Waking?
  }

  predicate HoldsLock(pc: Pc) {
    pc.Holding? || pc.WantRelease?
  }

  /** Asleep on the lock, or past the point of no return on the way there. */
  predicate Sleeper(s: Sys, p: Proc)
    requires p < |s.pc| == |s.asleep|
  {
    s.asleep[p] || s.pc[p].Gave? || s.pc[p].Slept?
  }

  ghost predicate Enabled(s: Sys, st: Step) {
    && |s.asleep| == |s.pc|
    && st.p < |s.pc|
    && match st
       case Start(p) => s.pc[p].Out?
       case TakeInner(p) => s.pc[p].WantInner? && s.inner.None?
       case Grab(p) => s.pc[p].Testing? && !s.locked
       case Block(p) => s.pc[p].Testing? && s.locked
       case TakeOwn(p) => s.pc[p].Entering?
       case GiveInner(p) => s.pc[p].OwnLocked?
       case SetState(p) => s.pc[p].Gave?
       case Switch(p) => s.pc[p].Slept?
       case Resume(p) => s.pc[p].Parked? && !s.asleep[p]
       case Leave(p) => s.pc[p].Holding?
       case Unlock(p) => s.pc[p].WantRelease? && s.inner.None?
       case WakeOne(p) =>
         && s.pc[p].Waking? && s.pc[p].next < |s.pc|
         && (s.pc[p].next != p ==> !HoldsOwn(s.pc[s.pc[p].next]))
       case Done(p) => s.pc[p].Waking? && s.pc[p].next == |s.pc|
       case Kill(p) => s.asleep[p] && !HoldsOwn(s.pc[p])
  }

  function Go(s: Sys, p: Proc, pc: Pc): Sys
    requires p < |s.pc|
  {
    s.(pc := s.pc[p := pc])
  }

  ghost function Do(s: Sys, st: Step): Sys
    requires Enabled(s, st)
  {
    match st
    case Start(p) => Go(s, p, WantInner)
    case TakeInner(p) => Go(s, p, Testing).(inner := Some(p))
    case Grab(p) => Go(s, p, Holding).(locked := true, inner := None)
    case Block(p) => Go(s, p, Entering)
    case TakeOwn(p) => Go(s, p, OwnLocked)
    case GiveInner(p) => Go(s, p, Gave).(inner := None)
    case SetState(p) => Go(s, p, Slept).(asleep := s.asleep[p := true])
    case Switch(p) => Go(s, p, Parked)
    case Resume(p) => Go(s, p, WantInner)
    case Leave(p) => Go(s, p, WantRelease)
    case Unlock(p) => Go(s, p, Waking(0)).(locked := false, inner := Some(p))
    case WakeOne(p) =>
      var k := s.pc[p].next;
      Go(s, p, Waking(k + 1)).(asleep := if k != p then s.asleep[k := false] else s.asleep)
    case Done(p) => Go(s, p, Out).(inner := None)
    case Kill(p) => s.(asleep := s.asleep[p := false])
  }

  ghost predicate Init(s: Sys) {
    && |s.asleep| == |s.pc| && !s.locked && s.inner.None?
    && forall p :: 0 <= p < |s.pc| ==> s.pc[p].Out? && !s.asleep[p]
  }

  ghost predicate Next(s: Sys, t: Sys) {
    exists st :: Enabled(s, st) && t == Do(s, st)
  }

  ghost predicate IsRun(run: seq<Sys>) {
    && |run| > 0 && Init(run[0])
    && forall i :: 0 <= i < |run| - 1 ==> Next(run[i], run[i + 1])
  }

  ghost predicate Spin(s: Sys) {
    && |s.asleep| == |s.pc| && (s.inner.Some? ==> s.inner.value < |s.pc|)
    && forall p :: 0 <= p < |s.pc| ==> SpinAt(s, p)
  }

  /** The spinlock has one holder; a process enters sleep only while the lock is
      taken, and wakes others only while it is free; only sleepers in acquiresleep are marked asleep. */
  ghost predicate SpinAt(s: Sys, p: Proc)
    requires p < |s.pc| == |s.asleep|
  {
    && (HoldsInner(s.pc[p]) <==> s.inner == Some(p))
    && (s.pc[p].Entering? || s.pc[p].OwnLocked? ==> s.locked) && (s.pc[p].Waking? ==> !s.locked && s.pc[p].next <= |s.pc|)
    && (s.asleep[p] ==> s.pc[p].Slept? || s.pc[p].Parked?)
  }

  /** The sleep lock is marked locked exactly while it has a holder, and has at
      most one. */
  ghost predicate Owned(s: Sys) {
    && (s.locked <==> exists p :: 0 <= p < |s.pc| && HoldsLock(s.pc[p]))
    && (forall p, q :: 0 <= p < |s.pc| && 0 <= q < |s.pc| && HoldsLock(s.pc[p]) && HoldsLock(s.pc[q]) ==> p == q)
  }

  ghost predicate Ahead(s: Sys, p: Proc) {
    s.inner.Some? && s.inner.value < |s.pc| && s.pc[s.inner.value].Waking? && s.pc[s.inner.value].next <= p
  }

  /** A sleeper on a free lock is still ahead of the releaser's scan. */
  ghost predicate Reached(s: Sys)
    requires |s.asleep| == |s.pc|
  {
    forall p :: 0 <= p < |s.pc| ==> ReachedAt(s, p)
  }

  ghost predicate ReachedAt(s: Sys, p: Proc)
    requires p < |s.pc| == |s.asleep|
  {
    Sleeper(s, p) && !s.locked ==> Ahead(s, p)
  }

  ghost predicate Inv(s: Sys) {
    Spin(s) && Owned(s) && Reached(s)
  }

  lemma SpinAtKept(s: Sys, st: Step, t: Sys, r: Proc)
    requires Enabled(s, st) && t == Do(s, st) && r < |s.pc| && SpinAt(s, r) && SpinAt(s, st.p)
    ensures |t.pc| == |t.asleep| == |s.pc| && SpinAt(t, r)
  {
  }

  lemma SpinKept(s: Sys, st: Step, t: Sys)
    requires Spin(s) && Enabled(s, st) && t == Do(s, st)
    ensures Spin(t)
  {
    hide SpinAt;
    forall r | 0 <= r < |t.pc| ensures |t.asleep| == |t.pc| && SpinAt(t, r) {
      SpinAtKept(s, st, t, r);
    }
  }

  lemma HeldSame(s: Sys, st: Step, t: Sys, p: Proc)
    requires Enabled(s, st) && t == Do(s, st) && p < |s.pc|
    ensures |t.pc| == |s.pc|
    ensures HoldsLock(t.pc[p]) <==> if st.Grab? && p == st.p then true else if st.Unlock?
        && p == st.p then false else HoldsLock(s.pc[p])
  {
  }

  lemma OwnedKept(s: Sys, st: Step, t: Sys)
    requires Owned(s) && Enabled(s, st) && t == Do(s, st)
    ensures Owned(t)
  {
    hide HoldsLock, HoldsInner, HoldsOwn;
    if st.Unlock? {
      HeldNow(s, st);
    }
    forall p | 0 <= p < |s.pc|
      ensures |t.pc| == |s.pc|
      ensures HoldsLock(t.pc[p]) <==> if st.Grab? && p == st.p then true else if st.Unlock?
          && p == st.p then false else HoldsLock(s.pc[p])
    {
      HeldSame(s, st, t, p);
    }
    if st.Grab? {
      assert HoldsLock(t.pc[st.p]);
    } else if h :| 0 <= h < |s.pc| && HoldsLock(s.pc[h]) {
      assert st.Unlock? || HoldsLock(t.pc[h]);
    }
  }

  lemma HeldNow(s: Sys, st: Step)
    requires Enabled(s, st) && st.Unlock?
    ensures HoldsLock(s.pc[st.p])
  {
  }

  lemma ReachedAtKept(s: Sys, st: Step, t: Sys, r: Proc)
    requires Enabled(s, st) && t == Do(s, st) && r < |s.pc| && |t.pc| == |t.asleep| == |s.pc|
    requires SpinAt(s, r) && SpinAt(s, st.p) && ReachedAt(s, r)
    requires s.inner.Some? && s.inner.value < |s.pc| ==> SpinAt(s, s.inner.value)
    ensures ReachedAt(t, r)
  {
  }

  lemma ReachedKept(s: Sys, st: Step, t: Sys)
    requires Spin(s) && Reached(s) && Enabled(s, st) && t == Do(s, st)
    ensures |t.pc| == |t.asleep| && Reached(t)
  {
    hide SpinAt, ReachedAt;
    forall r | 0 <= r < |t.pc| ensures |t.pc| == |t.asleep| && ReachedAt(t, r) {
      ReachedAtKept(s, st, t, r);
    }
  }

  lemma StepKeeps(s: Sys, st: Step, t: Sys)
    requires Inv(s) && Enabled(s, st) && t == Do(s, st)
    ensures Inv(t)
  {
    hide Enabled, Do;
    SpinKept(s, st, t);
    OwnedKept(s, st, t);
    ReachedKept(s, st, t);
  }

  lemma {:induction false} RunKeeps(run: seq<Sys>, i: nat)
    requires IsRun(run) && i < |run|
    ensures Inv(run[i])
  {
    if i > 0 {
      RunKeeps(run, i - 1);
      assert Next(run[i - 1], run[i - 1 + 1]);
      var st :| Enabled(run[i - 1], st) && run[i] == Do(run[i - 1], st);
      StepKeeps(run[i - 1], st, run[i]);
    }
  }

  /** No wakeup is lost: in every state of every run, while lk->lk is free and the
      sleep lock is free, nobody is asleep on it or on the way to sleep. */
  lemma NoLostWakeup(run: seq<Sys>, i: nat, p: Proc)
    requires IsRun(run) && i < |run| && p < |run[i].pc| == |run[i].asleep|
    requires run[i].inner.None? && Sleeper(run[i], p)
    ensures run[i].locked
    ensures exists h :: 0 <= h < |run[i].pc| && HoldsLock(run[i].pc[h])
  {
    RunKeeps(run, i);
    assert ReachedAt(run[i], p);
  }

  /** The sleep lock excludes. */
  lemma MutualExclusion(run: seq<Sys>, i: nat, p: Proc, q: Proc)
    requires IsRun(run) && i < |run| && p < |run[i].pc| && q < |run[i].pc|
    requires HoldsLock(run[i].pc[p]) && HoldsLock(run[i].pc[q])
    ensures p == q
  {
    RunKeeps(run, i);
  }
}
