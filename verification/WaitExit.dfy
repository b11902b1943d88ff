/** fork, wait, exit and reparent over sleep and wakeup (kernel/proc.c), for any number
    of processes. A step is the code between two points where another process can
    be observed: taking or releasing a lock, or one iteration of a scan. */
module WaitExit {
  import opened Basics

  type Proc = nat

  /** Where a process is:
      in fork  Forking, with the slot of the child and whether its parent is set; the
               slot is Born until the child is runnable;
      in wait  WantWait, Scan with the next child to look at and havekids, then on
               the way to sleep Entering, OwnLocked (own p->lock and wait_lock
               held), Gave (wait_lock released), Slept (state set), Parked;
      in exit  Reparent with the next process to look at, WakeInit and WakeParent
               with the next process wakeup tests, then the ZOMBIE states Zombied
               (both locks held), Leaving (own lock held) and Dead. */
  datatype Pc =
    | Free | User
    | Forking(child: nat, named: bool) | Born
    | WantWait | Scan(next: nat, kids: bool)
    | Entering | OwnLocked | Gave | Slept | Parked
    | Reparent(next: nat) | WakeInit(next: nat, k: nat) | WakeParent(k: nat)
    | Zombied | Leaving | Dead

  /** parent, killed and asleep are fields of struct proc; asleep says SLEEPING on
      the process's own channel, the one wait sleeps on. */
  datatype Sys = Sys(init: Proc, pc: seq<Pc>, parent: seq<Option<Proc>>, asleep: seq<bool>, killed: seq<bool>,
                     lock: Option<Proc>)

  datatype Step =
    | CallWait(p: Proc)
    | TakeWait(p: Proc)     // acquire(&wait_lock), on entry or when woken
    | ScanOne(p: Proc)      // one child looked at, not a zombie
    | Reap(p: Proc)         // a zombie: freeproc
    | CopyFails(p: Proc)    // a zombie, but copyout fails
    | GiveUp(p: Proc)       // no children, or killed
    | Sleep(p: Proc)        // call sleep(p, &wait_lock)
    | TakeOwn(p: Proc)      // acquire(&p->lock)
    | GiveWait(p: Proc)     // release(&wait_lock)
    | SetState(p: Proc)     // p->state = SLEEPING
    | Switch(p: Proc)       // sched; the scheduler releases p->lock
    | Resume(p: Proc)       // scheduled again, release(&p->lock)
    | CallExit(p: Proc)     // acquire(&wait_lock) in exit
    | ReparentOne(p: Proc)
    | WakeOne(p: Proc)      // one iteration of wakeup
    | WakeInitDone(p: Proc)
    | ReparentDone(p: Proc)
    | Mark(p: Proc)         // acquire(&p->lock); p->state = ZOMBIE
    | LeaveExit(p: Proc)    // release(&wait_lock)
    | Gone(p: Proc)         // sched; the scheduler releases p->lock
    | ForkAlloc(p: Proc, c: Proc)  // allocproc
    | ForkFail(p: Proc)     // uvmcopy fails: freeproc
    | ForkName(p: Proc)     // np->parent = p, under wait_lock
    | ForkReady(p: Proc)    // np->state = RUNNABLE
    | Kill(p: Proc)

  predicate Zombie(pc: Pc) {
    pc.Zombied? || pc.Leaving? || pc.Dead?
  }

  predicate HoldsOwn(pc: Pc) {
    pc.OwnLocked? || pc.Gave? || pc.Slept? || pc.Zombied? || pc.Leaving?
  }

  predicate Exiting(pc: Pc) {
    pc.Reparent? || pc.WakeInit? || pc.WakeParent?
  }

  predicate HoldsWait(pc: Pc) {
    pc.Scan? || pc.Entering? || pc.OwnLocked? || Exiting(pc) || pc.Zombied?
  }

  ghost predicate Shape(s: Sys) {
    && s.init < |s.pc|
    && |s.parent| == |s.asleep| == |s.killed| == |s.pc|
  }

  /** Asleep in wait, or past the point of no return on the way there. */
  ghost predicate Sleeper(s: Sys, p: Proc)
    requires Shape(s) && p < |s.pc|
  {
    s.asleep[p] || s.pc[p].Gave? || s.pc[p].Slept?
  }

  /** The process whose channel the running wakeup names. */
  ghost function Target(s: Sys, p: Proc): Option<Proc>
    requires Shape(s) && p < |s.pc|
  {
    if s.pc[p].WakeInit? then Some(s.init) else s.parent[p]
  }

  ghost predicate AtChild(s: Sys, p: Proc)
    requires Shape(s) && p < |s.pc|
  {
    s.pc[p].Scan? && s.pc[p].next < |s.pc| && s.parent[s.pc[p].next] == Some(p)
  }

  ghost predicate Enabled(s: Sys, st: Step) {
    && Shape(s)
    && st.p < |s.pc|
    && match st
       case CallWait(p) => s.pc[p].User?
       case TakeWait(p) => s.pc[p].WantWait? && s.lock.None?
       case ScanOne(p) =>
         && s.pc[p].Scan? && s.pc[p].next < |s.pc|
         && (AtChild(s, p) ==> !HoldsOwn(s.pc[s.pc[p].next]) && !Zombie(s.pc[s.pc[p].next]))
       case Reap(p) => AtChild(s, p) && s.pc[s.pc[p].next].Dead?
       case CopyFails(p) => AtChild(s, p) && s.pc[s.pc[p].next].Dead?
       case GiveUp(p) => s.pc[p].Scan? && s.pc[p].next == |s.pc| && (!s.pc[p].kids || s.killed[p])
       case Sleep(p) => s.pc[p].Scan? && s.pc[p].next == |s.pc| && s.pc[p].kids && !s.killed[p]
       case TakeOwn(p) => s.pc[p].Entering?
       case GiveWait(p) => s.pc[p].OwnLocked?
       case SetState(p) => s.pc[p].Gave?
       case Switch(p) => s.pc[p].Slept?
       case Resume(p) => s.pc[p].Parked? && !s.asleep[p]
       case CallExit(p) => s.pc[p].User? && p != s.init && s.lock.None?
       case ReparentOne(p) => s.pc[p].Reparent? && s.pc[p].next < |s.pc|
       case WakeOne(p) =>
         && (s.pc[p].WakeInit? || s.pc[p].WakeParent?)
         && s.pc[p].k < |s.pc|
         && (s.pc[p].k != p ==> !HoldsOwn(s.pc[s.pc[p].k]))
       case WakeInitDone(p) => s.pc[p].WakeInit? && s.pc[p].k == |s.pc|
       case ReparentDone(p) => s.pc[p].Reparent? && s.pc[p].next == |s.pc|
       case Mark(p) => s.pc[p].WakeParent? && s.pc[p].k == |s.pc|
       case LeaveExit(p) => s.pc[p].Zombied?
       case Gone(p) => s.pc[p].Leaving?
       case ForkAlloc(p, c) => s.pc[p].User? && c < |s.pc| && s.pc[c].Free?
       case ForkFail(p) => s.pc[p].Forking? && s.pc[p].child < |s.pc| && !s.pc[p].named
       case ForkName(p) => s.pc[p].Forking? && s.pc[p].child < |s.pc| && !s.pc[p].named && s.lock.None?
       case ForkReady(p) => s.pc[p].Forking? && s.pc[p].child < |s.pc| && s.pc[p].named
       case Kill(p) => !s.pc[p].Free? && !HoldsOwn(s.pc[p])
  }

  function Go(s: Sys, p: Proc, pc: Pc): Sys
    requires p < |s.pc|
  {
    s.(pc := s.pc[p := pc])
  }

  ghost function Do(s: Sys, st: Step): Sys
    requires Enabled(s, st)
  {
    match st
    case CallWait(p) => Go(s, p, WantWait)
    case TakeWait(p) => Go(s, p, Scan(0, false)).(lock := Some(p))
    case ScanOne(p) => Go(s, p, Scan(s.pc[p].next + 1, s.pc[p].kids || AtChild(s, p)))
    case Reap(p) =>
      var c := s.pc[p].next;
      s.(pc := s.pc[p := User][c := Free], parent := s.parent[c := None], killed := s.killed[c := false], lock := None)
    case CopyFails(p) => Go(s, p, User).(lock := None)
    case GiveUp(p) => Go(s, p, User).(lock := None)
    case Sleep(p) => Go(s, p, Entering)
    case TakeOwn(p) => Go(s, p, OwnLocked)
    case GiveWait(p) => Go(s, p, Gave).(lock := None)
    case SetState(p) => Go(s, p, Slept).(asleep := s.asleep[p := true])
    case Switch(p) => Go(s, p, Parked)
    case Resume(p) => Go(s, p, WantWait)
    case CallExit(p) => Go(s, p, Reparent(0)).(lock := Some(p))
    case ReparentOne(p) =>
      var c := s.pc[p].next;
      if s.parent[c] == Some(p) then
        Go(s, p, WakeInit(c + 1, 0)).(parent := s.parent[c := Some(s.init)])
      else
        Go(s, p, Reparent(c + 1))
    case WakeOne(p) =>
      var k := s.pc[p].k;
      Go(s, p, s.pc[p].(k := k + 1)).(asleep := if k != p && Target(s,
          p) == Some(k) then s.asleep[k := false] else s.asleep)
    case WakeInitDone(p) => Go(s, p, Reparent(s.pc[p].next))
    case ReparentDone(p) => Go(s, p, WakeParent(0))
    case Mark(p) => Go(s, p, Zombied)
    case LeaveExit(p) => Go(s, p, Leaving).(lock := None)
    case Gone(p) => Go(s, p, Dead)
    case ForkAlloc(p, c) => s.(pc := s.pc[c := Born][p := Forking(c, false)])
    case ForkFail(p) => s.(pc := s.pc[s.pc[p].child := Free][p := User])
    case ForkName(p) => Go(s, p, Forking(s.pc[p].child, true)).(parent := s.parent[s.pc[p].child := Some(p)])
    case ForkReady(p) => s.(pc := s.pc[s.pc[p].child := User][p := User])
    case Kill(p) => s.(asleep := s.asleep[p := false], killed := s.killed[p := true])
  }

  ghost predicate Init(s: Sys) {
    && Shape(s) && s.lock.None?
    && (forall p :: 0 <= p < |s.pc| ==> s.parent[p].None? && !s.asleep[p])
    && (forall p :: 0 <= p < |s.pc| ==> s.pc[p] == if p == s.init then User else Free)
  }

  ghost predicate Next(s: Sys, t: Sys) {
    exists st :: Enabled(s, st) && t == Do(s, st)
  }

  ghost predicate IsRun(run: seq<Sys>) {
    && |run| > 0 && Init(run[0])
    && forall i :: 0 <= i < |run| - 1 ==> Next(run[i], run[i + 1])
  }

  /** wait_lock has one holder, and only sleepers in wait are marked asleep. */
  ghost predicate Locks(s: Sys) {
    && Shape(s)
    && (s.lock.Some? ==> s.lock.value < |s.pc|)
    && forall p :: 0 <= p < |s.pc| ==> LockAt(s, p)
  }

  ghost predicate LockAt(s: Sys, p: Proc)
    requires Shape(s) && p < |s.pc|
  {
    && (HoldsWait(s.pc[p]) <==> s.lock == Some(p))
    && (s.asleep[p] ==> s.pc[p].Slept? || s.pc[p].Parked?)
  }

  /** Every parent is a process that has not exited; a process past part of its
      reparent loop has no child in that part. */
  ghost predicate Family(s: Sys)
    requires Shape(s)
  {
    && InitLives(s)
    && (forall c :: 0 <= c < |s.pc| && !s.pc[c].Free? && !s.pc[c].Born? && c != s.init ==> s.parent[c].Some?)
    && (forall c :: 0 <= c < |s.pc| && s.parent[c].Some? ==> Living(s, c, s.parent[c].value))
  }

  ghost predicate InitLives(s: Sys)
    requires Shape(s)
  {
    !s.pc[s.init].Free? && !s.pc[s.init].Born? && !Exiting(s.pc[s.init]) && !Zombie(s.pc[s.init])
  }

  ghost predicate Living(s: Sys, c: Proc, q: Proc) {
    && q < |s.pc| && !s.pc[q].Free? && !s.pc[q].Born? && !Zombie(s.pc[q]) && !s.pc[q].WakeParent?
    && (s.pc[q].Reparent? || s.pc[q].WakeInit? ==> s.pc[q].next <= c)
  }

  /** A zombie whose parent sleeps in wait is one that exit has just handed to init,
      with init still ahead of the wakeup scan. A scan that has passed a child, or is
      about to sleep, has seen no zombie there. The wakeup of the exiting process's
      parent has woken it once the scan is past it. */
  ghost predicate Seen(s: Sys, c: Proc, q: Proc)
    requires Shape(s) && c < |s.pc| && q < |s.pc|
  {
    && (Zombie(s.pc[c]) && (s.asleep[q] || s.pc[q].Gave? || s.pc[q].Slept?) ==>
          && s.lock.Some? && s.lock.value < |s.pc| && s.pc[s.lock.value].WakeInit?
          && q == s.init && s.pc[s.lock.value].k <= q)
    && (Zombie(s.pc[c]) && s.pc[q].Scan? ==> s.pc[q].next <= c)
    && (Zombie(s.pc[c]) ==> !s.pc[q].Entering? && !s.pc[q].OwnLocked?)
    && (s.pc[c].WakeParent? && (s.asleep[q] || s.pc[q].Gave? || s.pc[q].Slept?) ==> s.pc[c].k <= q)
  }

  ghost predicate Watched(s: Sys)
    requires Shape(s)
  {
    forall c :: 0 <= c < |s.pc| && s.parent[c].Some? && s.parent[c].value < |s.pc| ==> Seen(s, c, s.parent[c].value)
  }

  /** A free slot has no parent; the slot that p is forking into is p's alone, and its
      child once named. */
  ghost predicate Forks(s: Sys)
    requires Shape(s)
  {
    && (forall c :: 0 <= c < |s.pc| && s.pc[c].Free? ==> s.parent[c].None?)
    && (forall p :: 0 <= p < |s.pc| && s.pc[p].Forking? ==> ForksOwn(s, p))
    && (forall p, q :: 0 <= p < q < |s.pc| && s.pc[p].Forking? && s.pc[q].Forking? ==> s.pc[p].child != s.pc[q].child)
  }

  ghost predicate ForksOwn(s: Sys, p: Proc)
    requires Shape(s) && p < |s.pc| && s.pc[p].Forking?
  {
    var c := s.pc[p].child;
    c < |s.pc| && s.pc[c].Born? && s.parent[c] == if s.pc[p].named then Some(p) else None
  }

  /** A process in fork has its slot to itself. */
  ghost predicate MyFork(s: Sys, p: Proc)
    requires Shape(s) && p < |s.pc|
  {
    s.pc[p].Forking? ==> ForksOwn(s, p)
  }

  ghost predicate Inv(s: Sys) {
    Locks(s) && Family(s) && Watched(s) && Forks(s)
  }

  predicate ForkStep(st: Step) {
    st.ForkAlloc? || st.ForkFail? || st.ForkName? || st.ForkReady?
  }

  lemma LockKeptInFork(s: Sys, st: Step, t: Sys, r: Proc)
    requires ForkStep(st)
    requires Enabled(s, st) && t == Do(s, st) && Shape(t) && r < |s.pc|
    requires LockAt(s, r) && LockAt(s, st.p) && MyFork(s, st.p)
    ensures LockAt(t, r)
  {
  }

  lemma LockKeptOtherwise(s: Sys, st: Step, t: Sys, r: Proc)
    requires !ForkStep(st)
    requires Enabled(s, st) && t == Do(s, st) && Shape(t) && r < |s.pc|
    requires LockAt(s, r) && LockAt(s, st.p) && MyFork(s, st.p)
    ensures LockAt(t, r)
  {
  }

  lemma LockKept(s: Sys, st: Step, t: Sys, r: Proc)
    requires Enabled(s, st) && t == Do(s, st) && Shape(t) && r < |s.pc|
    requires LockAt(s, r) && LockAt(s, st.p) && MyFork(s, st.p)
    ensures LockAt(t, r)
  {
    hide Do;
    if ForkStep(st) {
      LockKeptInFork(s, st, t, r);
    } else {
      LockKeptOtherwise(s, st, t, r);
    }
  }

  lemma ShapeKept(s: Sys, st: Step, t: Sys)
    requires Enabled(s, st) && t == Do(s, st) && (s.lock.Some? ==> s.lock.value < |s.pc|)
    ensures Shape(t) && |t.pc| == |s.pc| && (t.lock.Some? ==> t.lock.value < |t.pc|)
  {
  }

  lemma LocksKept(s: Sys, st: Step, t: Sys)
    requires Locks(s) && Forks(s) && Enabled(s, st) && t == Do(s, st)
    ensures Locks(t) && |t.pc| == |s.pc| && st.p < |s.pc|
  {
    hide LockAt, ForksOwn, Do;
    ShapeKept(s, st, t);
    forall r | 0 <= r < |t.pc| ensures LockAt(t, r) {
      LockKept(s, st, t, r);
    }
  }

  lemma LivingInExit(s: Sys, st: Step, t: Sys, c: Proc)
    requires Enabled(s, st) && t == Do(s, st) && ExitStep(st)
    requires Shape(t) && c < |t.pc| && t.parent[c].Some?
    requires s.parent[c].Some? ==> Living(s, c, s.parent[c].value)
    requires InitLives(s) && MyFork(s, st.p)
    ensures Living(t, c, t.parent[c].value)
  {
  }

  lemma LivingElsewhere(s: Sys, st: Step, t: Sys, c: Proc)
    requires Enabled(s, st) && t == Do(s, st) && !ExitStep(st)
    requires Shape(t) && c < |t.pc| && t.parent[c].Some?
    requires s.parent[c].Some? ==> Living(s, c, s.parent[c].value)
    requires InitLives(s) && MyFork(s, st.p)
    ensures Living(t, c, t.parent[c].value)
  {
  }

  lemma InitKeptInFork(s: Sys, st: Step, t: Sys)
    requires ForkStep(st)
    requires Locks(s) && InitLives(s) && Enabled(s, st) && t == Do(s, st) && MyFork(s, st.p)
    ensures Shape(t) && |t.pc| == |s.pc| && t.init == s.init && InitLives(t)
  {
    hide LockAt;
  }

  lemma InitKeptOtherwise(s: Sys, st: Step, t: Sys)
    requires !ForkStep(st)
    requires Locks(s) && InitLives(s) && Enabled(s, st) && t == Do(s, st) && MyFork(s, st.p)
    ensures Shape(t) && |t.pc| == |s.pc| && t.init == s.init && InitLives(t)
  {
    hide LockAt;
  }

  lemma InitKept(s: Sys, st: Step, t: Sys)
    requires Locks(s) && InitLives(s) && Enabled(s, st) && t == Do(s, st) && MyFork(s, st.p)
    ensures Shape(t) && |t.pc| == |s.pc| && t.init == s.init && InitLives(t)
  {
    hide Do;
    if ForkStep(st) {
      InitKeptInFork(s, st, t);
    } else {
      InitKeptOtherwise(s, st, t);
    }
  }

  lemma ParentKept(s: Sys, st: Step, t: Sys, c: Proc)
    requires Shape(s) && Enabled(s, st) && t == Do(s, st) && Shape(t) && c < |t.pc| && MyFork(s, st.p)
    requires !s.pc[c].Free? && !s.pc[c].Born? && c != s.init ==> s.parent[c].Some?
    ensures !t.pc[c].Free? && !t.pc[c].Born? && c != t.init ==> t.parent[c].Some?
  {
  }

  lemma KinKept(s: Sys, st: Step, t: Sys)
    requires Locks(s) && Family(s) && Forks(s) && Enabled(s, st) && t == Do(s, st)
    ensures Shape(t) && |t.pc| == |s.pc| && InitLives(t)
    ensures forall c :: 0 <= c < |t.pc| && !t.pc[c].Free? && !t.pc[c].Born? && c != t.init ==> t.parent[c].Some?
  {
    hide Do, LockAt, Watched, Seen, Sleeper, Living, ForksOwn;
    InitKept(s, st, t);
    forall c | 0 <= c < |t.pc| && !t.pc[c].Free? && !t.pc[c].Born? && c != t.init
      ensures t.parent[c].Some?
    {
      ParentKept(s, st, t, c);
    }
  }

  lemma LivingKept(s: Sys, st: Step, t: Sys, c: Proc)
    requires Enabled(s, st) && t == Do(s, st)
    requires Shape(t) && c < |t.pc| && t.parent[c].Some?
    requires s.parent[c].Some? ==> Living(s, c, s.parent[c].value)
    requires InitLives(s) && MyFork(s, st.p)
    ensures Living(t, c, t.parent[c].value)
  {
    if ExitStep(st) {
      LivingInExit(s, st, t, c);
    } else {
      LivingElsewhere(s, st, t, c);
    }
  }

  lemma FamilyKept(s: Sys, st: Step, t: Sys)
    requires Locks(s) && Family(s) && Forks(s) && Enabled(s, st) && t == Do(s, st)
    ensures Shape(t) && Family(t)
  {
    hide Do, LockAt, Watched, Seen, Sleeper, Living, ForksOwn;
    KinKept(s, st, t);
    forall c | 0 <= c < |t.pc| && t.parent[c].Some? ensures Living(t, c, t.parent[c].value) {
      LivingKept(s, st, t, c);
    }
  }

  lemma ForkKeptInFork(s: Sys, st: Step, t: Sys, q: Proc)
    requires ForkStep(st)
    requires Enabled(s, st) && t == Do(s, st) && Shape(t) && q < |t.pc| && t.pc[q].Forking?
    requires MyFork(s, st.p) && MyFork(s, q)
    requires s.pc[st.p].Forking? && s.pc[q].Forking? && q != st.p ==> s.pc[q].child != s.pc[st.p].child
    requires forall c :: 0 <= c < |s.pc| && s.pc[c].Free? ==> s.parent[c].None?
    ensures ForksOwn(t, q)
  {
  }

  lemma ForkKeptOtherwise(s: Sys, st: Step, t: Sys, q: Proc)
    requires !ForkStep(st)
    requires Enabled(s, st) && t == Do(s, st) && Shape(t) && q < |t.pc| && t.pc[q].Forking?
    requires MyFork(s, st.p) && MyFork(s, q)
    requires s.pc[st.p].Forking? && s.pc[q].Forking? && q != st.p ==> s.pc[q].child != s.pc[st.p].child
    requires forall c :: 0 <= c < |s.pc| && s.pc[c].Free? ==> s.parent[c].None?
    ensures ForksOwn(t, q)
  {
  }

  lemma ForkKept(s: Sys, st: Step, t: Sys, q: Proc)
    requires Enabled(s, st) && t == Do(s, st) && Shape(t) && q < |t.pc| && t.pc[q].Forking?
    requires MyFork(s, st.p) && MyFork(s, q)
    requires s.pc[st.p].Forking? && s.pc[q].Forking? && q != st.p ==> s.pc[q].child != s.pc[st.p].child
    requires forall c :: 0 <= c < |s.pc| && s.pc[c].Free? ==> s.parent[c].None?
    ensures ForksOwn(t, q)
  {
    hide Do;
    if ForkStep(st) {
      ForkKeptInFork(s, st, t, q);
    } else {
      ForkKeptOtherwise(s, st, t, q);
    }
  }

  lemma FreeKept(s: Sys, st: Step, t: Sys, c: Proc)
    requires Enabled(s, st) && t == Do(s, st) && Shape(t) && c < |t.pc| && MyFork(s, st.p)
    requires s.pc[c].Free? ==> s.parent[c].None?
    requires s.parent[c].Some? ==> s.parent[c].value < |s.pc| && !s.pc[s.parent[c].value].Free?
    ensures t.pc[c].Free? ==> t.parent[c].None?
  {
  }

  lemma ForksApartInFork(s: Sys, st: Step, t: Sys, p: Proc, q: Proc)
    requires ForkStep(st)
    requires Enabled(s, st) && t == Do(s, st) && Shape(t) && p < |t.pc| && q < |t.pc| && p != q
    requires MyFork(s, p) && MyFork(s, q)
    requires s.pc[p].Forking? && s.pc[q].Forking? ==> s.pc[p].child != s.pc[q].child
    ensures t.pc[p].Forking? && t.pc[q].Forking? ==> t.pc[p].child != t.pc[q].child
  {
  }

  lemma ForksApartOtherwise(s: Sys, st: Step, t: Sys, p: Proc, q: Proc)
    requires !ForkStep(st)
    requires Enabled(s, st) && t == Do(s, st) && Shape(t) && p < |t.pc| && q < |t.pc| && p != q
    requires MyFork(s, p) && MyFork(s, q)
    requires s.pc[p].Forking? && s.pc[q].Forking? ==> s.pc[p].child != s.pc[q].child
    ensures t.pc[p].Forking? && t.pc[q].Forking? ==> t.pc[p].child != t.pc[q].child
  {
  }

  /** Two processes fork into two slots. */
  lemma ForksApart(s: Sys, st: Step, t: Sys, p: Proc, q: Proc)
    requires Enabled(s, st) && t == Do(s, st) && Shape(t) && p < |t.pc| && q < |t.pc| && p != q
    requires MyFork(s, p) && MyFork(s, q)
    requires s.pc[p].Forking? && s.pc[q].Forking? ==> s.pc[p].child != s.pc[q].child
    ensures t.pc[p].Forking? && t.pc[q].Forking? ==> t.pc[p].child != t.pc[q].child
  {
    hide Do;
    if ForkStep(st) {
      ForksApartInFork(s, st, t, p, q);
    } else {
      ForksApartOtherwise(s, st, t, p, q);
    }
  }

  lemma ForksKept(s: Sys, st: Step, t: Sys)
    requires Inv(s) && Enabled(s, st) && t == Do(s, st) && Shape(t) && |t.pc| == |s.pc|
    ensures Forks(t)
  {
    hide Do, LockAt, Watched, Seen, ForksOwn;
    forall c | 0 <= c < |t.pc| && t.pc[c].Free?
      ensures t.parent[c].None?
    {
      FreeKept(s, st, t, c);
    }
    forall p | 0 <= p < |t.pc| && t.pc[p].Forking?
      ensures ForksOwn(t, p)
    {
      ForkKept(s, st, t, p);
    }
    forall p, q | 0 <= p < q < |t.pc| && t.pc[p].Forking? && t.pc[q].Forking?
      ensures t.pc[p].child != t.pc[q].child
    {
      ForksApart(s, st, t, p, q);
    }
  }

  /** What SeenKept needs of the state before the step. */
  ghost predicate Settled(s: Sys, p: Proc, c: Proc) {
    && Shape(s) && p < |s.pc| && c < |s.pc|
    && LockAt(s, p) && LockAt(s, c) && LockAt(s, s.init) && MyFork(s, p)
    && (s.lock.Some? ==> s.lock.value < |s.pc| && LockAt(s, s.lock.value))
    && (s.parent[c].Some? ==>
          && s.parent[c].value < |s.pc|
          && Seen(s, c, s.parent[c].value) && LockAt(s, s.parent[c].value))
  }

  predicate SleepStep(st: Step) {
    st.TakeOwn? || st.GiveWait? || st.SetState? || st.Switch? || st.Resume? || st.Kill? || st.CallExit? || st.Gone?
  }

  predicate ExitStep(st: Step) {
    st.ReparentOne? || st.WakeOne? || st.WakeInitDone? || st.ReparentDone? || st.Mark?
  }

  lemma SeenInExit(s: Sys, st: Step, t: Sys, c: Proc)
    requires Enabled(s, st) && t == Do(s, st) && Settled(s, st.p, c) && ExitStep(st)
    requires Shape(t) && t.parent[c].Some? && t.parent[c].value < |t.pc|
    ensures Seen(t, c, t.parent[c].value)
  {
  }

  lemma SeenInSleep(s: Sys, st: Step, t: Sys, c: Proc)
    requires Enabled(s, st) && t == Do(s, st) && Settled(s, st.p, c) && SleepStep(st)
    requires Shape(t) && t.parent[c].Some? && t.parent[c].value < |t.pc|
    ensures Seen(t, c, t.parent[c].value)
  {
  }

  lemma SeenElsewhereInFork(s: Sys, st: Step, t: Sys, c: Proc)
    requires ForkStep(st)
    requires Enabled(s, st) && t == Do(s, st) && Settled(s, st.p, c) && !ExitStep(st) && !SleepStep(st)
    requires Shape(t) && t.parent[c].Some? && t.parent[c].value < |t.pc|
    ensures Seen(t, c, t.parent[c].value)
  {
  }

  lemma SeenElsewhereOtherwise(s: Sys, st: Step, t: Sys, c: Proc)
    requires !ForkStep(st)
    requires Enabled(s, st) && t == Do(s, st) && Settled(s, st.p, c) && !ExitStep(st) && !SleepStep(st)
    requires Shape(t) && t.parent[c].Some? && t.parent[c].value < |t.pc|
    ensures Seen(t, c, t.parent[c].value)
  {
  }

  lemma SeenElsewhere(s: Sys, st: Step, t: Sys, c: Proc)
    requires Enabled(s, st) && t == Do(s, st) && Settled(s, st.p, c) && !ExitStep(st) && !SleepStep(st)
    requires Shape(t) && t.parent[c].Some? && t.parent[c].value < |t.pc|
    ensures Seen(t, c, t.parent[c].value)
  {
    hide Do;
    if ForkStep(st) {
      SeenElsewhereInFork(s, st, t, c);
    } else {
      SeenElsewhereOtherwise(s, st, t, c);
    }
  }

  lemma WatchedKept(s: Sys, st: Step, t: Sys)
    requires Inv(s) && Enabled(s, st) && t == Do(s, st)
    ensures Shape(t) && Watched(t)
  {
    hide LockAt, Seen, InitLives, Do, Enabled, ExitStep, ForksOwn;
    LocksKept(s, st, t);
    forall c | 0 <= c < |t.pc| && t.parent[c].Some? && t.parent[c].value < |t.pc|
      ensures Seen(t, c, t.parent[c].value)
    {
      assert Settled(s, st.p, c);
      if ExitStep(st) {
        SeenInExit(s, st, t, c);
      } else if SleepStep(st) {
        SeenInSleep(s, st, t, c);
      } else {
        SeenElsewhere(s, st, t, c);
      }
    }
  }

  lemma StepKeeps(s: Sys, st: Step, t: Sys)
    requires Inv(s) && Enabled(s, st) && t == Do(s, st)
    ensures Inv(t)
  {
    hide Enabled, Do, Watched, Family, LockAt, Forks;
    LocksKept(s, st, t);
    FamilyKept(s, st, t);
    WatchedKept(s, st, t);
    ForksKept(s, st, t);
  }

  lemma {:induction false} RunKeeps(run: seq<Sys>, i: nat)
    requires IsRun(run) && i < |run|
    ensures Inv(run[i])
  {
    if i > 0 {
      RunKeeps(run, i - 1);
      assert Next(run[i - 1], run[i - 1 + 1]);
      var st :| Enabled(run[i - 1], st) && run[i] == Do(run[i - 1], st);
      StepKeeps(run[i - 1], st, run[i]);
    }
  }

  /** No exit goes unnoticed: in every state of every run in which wait_lock is free,
      a zombie has a parent, the parent has not exited itself, and it is neither
      asleep in wait nor on the way to sleep there. This covers the children that
      exit hands to init. */
  lemma ZombieNoticed(run: seq<Sys>, i: nat, c: Proc)
    requires IsRun(run) && i < |run| && c < |run[i].pc|
    requires run[i].lock.None? && Zombie(run[i].pc[c])
    ensures Shape(run[i]) && run[i].parent[c].Some?
    ensures var q := run[i].parent[c].value;
      q < |run[i].pc| && !run[i].pc[q].Free? && !Zombie(run[i].pc[q]) && !Sleeper(run[i], q)
  {
    RunKeeps(run, i);
    assert Living(run[i], c, run[i].parent[c].value);
    assert Seen(run[i], c, run[i].parent[c].value);
  }

  /** A process that has exited, or was never started, is nobody's parent. */
  lemma NoOrphans(run: seq<Sys>, i: nat, c: Proc, q: Proc)
    requires IsRun(run) && i < |run| && c < |run[i].pc| && q < |run[i].pc|
    requires Zombie(run[i].pc[q]) || run[i].pc[q].Free?
    ensures Shape(run[i]) && run[i].parent[c] != Some(q)
  {
    RunKeeps(run, i);
    if run[i].parent[c].Some? {
      assert Living(run[i], c, run[i].parent[c].value);
    }
  }
}
