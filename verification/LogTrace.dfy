/** What survives a crash, told from the steps that were taken: which log_writes recovery
    shows, and which operations are committed when. */
module LogTrace {
  import opened Params
  import opened LogDisk
  import opened LogProtocol

  /** Run with the steps taken. */
  ghost predicate Trace(c: Config, run: seq<Sys>, sts: seq<Step>) {
    && |run| == |sts| + 1 && Init(c, run[0])
    && forall i :: 0 <= i < |sts| ==> Takes(c, run[i], sts[i], run[i + 1])
  }

  ghost predicate Takes(c: Config, s: Sys, st: Step, t: Sys) {
    Enabled(c, s, st) && t == Do(c, s, st)
  }

  lemma TraceRuns(c: Config, run: seq<Sys>, sts: seq<Step>)
    requires Trace(c, run, sts)
    ensures IsRun(c, run)
  {
    hide Enabled, Do, Init;
    forall i | 0 <= i < |run| - 1
      ensures Next(c, run[i], run[i + 1])
    {
      assert Takes(c, run[i], sts[i], run[i + 1]);
    }
  }

  /** Step k is a log_write of block b that did not panic. */
  ghost predicate Writes(run: seq<Sys>, sts: seq<Step>, k: nat, b: nat) {
    k < |sts| && k + 1 < |run| && sts[k].LogWrite? && sts[k].b == b && !run[k + 1].phase.Panicked?
  }

  /** The log_writes among the first i steps. */
  ghost function Written(run: seq<Sys>, sts: seq<Step>, i: nat): seq<Logged>
    requires i <= |sts| < |run|
  {
    if i == 0 then []
    else if sts[i - 1].LogWrite? && Writes(run, sts, i - 1, sts[i - 1].b)
    then Written(run, sts, i - 1) + [Logged(sts[i - 1].op, sts[i - 1].b, sts[i - 1].data)]
    else Written(run, sts, i - 1)
  }

  lemma IssuedStep(c: Config, s: Sys, st: Step, t: Sys)
    requires Inv(c, s) && Takes(c, s, st, t)
    ensures t.issued == if st.LogWrite? && !t.phase.Panicked? then s.issued + [Logged(st.op, st.b, st.data)] else s.issued
  {
    hide Images, CommitWrites, RecoverWrites, DiskOk, TargetsOk, Replay, Parties, Put, Absorb;
  }

  lemma {:induction false} IssuedAreWritten(c: Config, run: seq<Sys>, sts: seq<Step>, i: nat)
    requires Trace(c, run, sts) && i < |run|
    ensures run[i].issued == Written(run, sts, i)
  {
    hide Inv, Takes, Enabled, Do;
    if i > 0 {
      IssuedAreWritten(c, run, sts, i - 1);
      TraceRuns(c, run, sts);
      RunKeeps(c, run, i - 1);
      assert Takes(c, run[i - 1], sts[i - 1], run[i - 1 + 1]);
      IssuedStep(c, run[i - 1], sts[i - 1], run[i]);
    }
  }

  /** None of the writes after k, up to i, is of block b by one of ops. */
  ghost predicate NoneAfter(run: seq<Sys>, sts: seq<Step>, k: int, i: nat, b: nat, ops: set<OpId>) {
    forall j :: 0 <= j < |sts| && k < j < i && Writes(run, sts, j, b) ==> sts[j].op !in ops
  }

  lemma {:induction false} ReplayWritten(image: Disk, run: seq<Sys>, sts: seq<Step>, k: nat, i: nat, b: nat, ops: set<OpId>)
    requires k < i <= |sts| < |run| && b < |image|
    requires Writes(run, sts, k, b) && sts[k].op in ops && NoneAfter(run, sts, k, i, b, ops)
    ensures Replay(image, Written(run, sts, i), ops)[b] == sts[k].data
    decreases i
  {
    hide Replay;
    var st := sts[i - 1];
    if st.LogWrite? && Writes(run, sts, i - 1, st.b) {
      ReplaySnoc(image, Written(run, sts, i - 1), Logged(st.op, st.b, st.data), ops);
    }
    if i - 1 > k {
      ReplayWritten(image, run, sts, k, i - 1, b, ops);
    }
  }

  lemma ReplayNothing(image: Disk, ops: set<OpId>)
    ensures Replay(image, [], ops) == image
  {
  }

  lemma {:induction false} ReplayUntouched(image: Disk, run: seq<Sys>, sts: seq<Step>, i: nat, b: nat, ops: set<OpId>)
    requires i <= |sts| < |run| && b < |image| && NoneAfter(run, sts, -1, i, b, ops)
    ensures Replay(image, Written(run, sts, i), ops)[b] == image[b]
    decreases i
  {
    hide Replay;
    if i == 0 {
      ReplayNothing(image, ops);
    } else {
      var st := sts[i - 1];
      if st.LogWrite? && Writes(run, sts, i - 1, st.b) {
        ReplaySnoc(image, Written(run, sts, i - 1), Logged(st.op, st.b, st.data), ops);
      }
      ReplayUntouched(image, run, sts, i - 1, b, ops);
    }
  }

  /** Home block b after a crash at state i and a full recovery. */
  ghost function Recovered(c: Config, run: seq<Sys>, i: nat, b: nat): Block
    requires IsRun(c, run) && i < |run| && c.layout.Home(b)
  {
    CrashAnywhere(c, run, i, b);
    Apply(run[i].disk, RecoverWrites(c.layout, run[i].disk))[b]
  }

  /** THE LAST WRITE SURVIVES. Stop a run anywhere and recover: a block holds what the last
      log_write of it by a committed operation stored, absorbed or not. */
  lemma LastWriteSurvives(c: Config, run: seq<Sys>, sts: seq<Step>, k: nat, i: nat, b: nat)
    requires Trace(c, run, sts) && k < i < |run| && c.layout.Home(b)
    requires Writes(run, sts, k, b) && sts[k].op in run[i].committed && NoneAfter(run, sts, k, i, b, run[i].committed)
    ensures IsRun(c, run) && Recovered(c, run, i, b) == sts[k].data
  {
    hide Trace, Writes, NoneAfter;
    TraceRuns(c, run, sts);
    CrashAnywhere(c, run, i, b);
    TraceLengths(c, run, sts);
    IssuedAreWritten(c, run, sts, i);
    ReplayWritten(c.image, run, sts, k, i, b, run[i].committed);
  }

  /** A block that no committed operation has logged holds what it held at the start. */
  lemma OthersSurvive(c: Config, run: seq<Sys>, sts: seq<Step>, i: nat, b: nat)
    requires Trace(c, run, sts) && i < |run| && c.layout.Home(b) && NoneAfter(run, sts, -1, i, b, run[i].committed)
    ensures IsRun(c, run) && |c.image| == c.layout.nblocks && Recovered(c, run, i, b) == c.image[b]
  {
    hide Trace, NoneAfter;
    TraceRuns(c, run, sts);
    CrashAnywhere(c, run, i, b);
    TraceLengths(c, run, sts);
    IssuedAreWritten(c, run, sts, i);
    ReplayUntouched(c.image, run, sts, i, b, run[i].committed);
  }

  lemma TraceLengths(c: Config, run: seq<Sys>, sts: seq<Step>)
    requires Trace(c, run, sts)
    ensures |run| == |sts| + 1 && |c.image| == c.layout.nblocks
  {
  }

  // ---- which operations are committed ----

  /** From the end_op of op on: it waits for its commit or is committed. */
  ghost predicate Ended(s: Sys, op: OpId) {
    op in s.finished || op in s.committed
  }

  lemma EndedStep(c: Config, s: Sys, st: Step, t: Sys, op: OpId)
    requires Takes(c, s, st, t) && !st.Crash? && (Ended(s, op) || st == EndOp(op))
    ensures Ended(t, op)
  {
    hide CommitWrites, RecoverWrites, DiskOk, TargetsOk, Put, Absorb;
  }

  lemma {:induction false} EndedUntil(c: Config, run: seq<Sys>, sts: seq<Step>, k: nat, i: nat, op: OpId)
    requires Trace(c, run, sts) && k < i < |run| && sts[k] == EndOp(op)
    requires forall j :: k < j < i ==> !sts[j].Crash?
    ensures Ended(run[i], op)
    decreases i
  {
    hide Takes, Ended;
    assert Takes(c, run[i - 1], sts[i - 1], run[i - 1 + 1]);
    if i - 1 > k {
      EndedUntil(c, run, sts, k, i - 1, op);
    }
    EndedStep(c, run[i - 1], sts[i - 1], run[i], op);
  }

  /** ENDED IS COMMITTED. An operation that has ended, with no crash since, is committed by
      the time that no operation is outstanding and no commit under way. */
  lemma EndedIsCommitted(c: Config, run: seq<Sys>, sts: seq<Step>, k: nat, i: nat, op: OpId)
    requires Trace(c, run, sts) && k < i < |run| && sts[k] == EndOp(op)
    requires forall j :: k < j < i ==> !sts[j].Crash?
    requires run[i].phase.Running? && run[i].outstanding == 0
    ensures op in run[i].committed
  {
    hide Trace;
    TraceRuns(c, run, sts);
    EndedUntil(c, run, sts, k, i, op);
    CommitExcludesOperations(c, run, i);
  }

  /** An operation that has not ended is not committed. */
  lemma OpenStep(c: Config, s: Sys, st: Step, t: Sys, op: OpId)
    requires Takes(c, s, st, t) && !Ended(s, op) && st != EndOp(op)
    ensures !Ended(t, op)
  {
    hide CommitWrites, RecoverWrites, DiskOk, TargetsOk, Put, Absorb;
  }

  lemma {:induction false} NotEndedNotCommitted(c: Config, run: seq<Sys>, sts: seq<Step>, i: nat, op: OpId)
    requires Trace(c, run, sts) && i < |run| && forall j :: 0 <= j < i ==> sts[j] != EndOp(op)
    ensures !Ended(run[i], op)
    decreases i
  {
    hide Takes, Ended;
    if i == 0 {
      assert !Ended(run[0], op) by {
        StartOpen(c, run[0], op);
      }
    } else {
      NotEndedNotCommitted(c, run, sts, i - 1, op);
      assert Takes(c, run[i - 1], sts[i - 1], run[i - 1 + 1]);
      OpenStep(c, run[i - 1], sts[i - 1], run[i], op);
    }
  }

  lemma StartOpen(c: Config, s: Sys, op: OpId)
    requires Init(c, s)
    ensures !Ended(s, op)
  {
  }

  /** An operation that a crash has cut off. */
  ghost predicate Lost(s: Sys, op: OpId) {
    op in s.begun && op !in s.active && !Ended(s, op)
  }

  lemma LostStep(c: Config, s: Sys, st: Step, t: Sys, op: OpId)
    requires Takes(c, s, st, t) && (Lost(s, op) || (st.Crash? && op in s.begun && op !in s.committed))
    ensures Lost(t, op)
  {
    hide CommitWrites, RecoverWrites, DiskOk, TargetsOk, Put, Absorb;
  }

  /** A CRASH LOSES WHAT IS NOT COMMITTED. An operation that has begun and is not committed when
      the machine crashes never is: none of its writes is seen again. */
  lemma {:induction false} CrashLoses(c: Config, run: seq<Sys>, sts: seq<Step>, k: nat, i: nat, op: OpId)
    requires Trace(c, run, sts) && k < i < |run| && sts[k].Crash? && op in run[k].begun && op !in run[k].committed
    ensures Lost(run[i], op)
    decreases i
  {
    hide Takes, Lost;
    assert Takes(c, run[i - 1], sts[i - 1], run[i - 1 + 1]);
    if i - 1 > k {
      CrashLoses(c, run, sts, k, i - 1, op);
    }
    LostStep(c, run[i - 1], sts[i - 1], run[i], op);
  }

  // ---- commit and recovery come to an end ----

  /** The steps that commit or recovery has left, its end included. */
  ghost function Left(c: Config, s: Sys): nat
    requires Inv(c, s) && (s.phase.Committing? || s.phase.Recovering?)
  {
    match s.phase
    case Committing(k, _, _) => if s.lh == [] then 1 else 2 * |s.lh| + 3 - k
    case Recovering(k, base) => |RecoverWrites(c.layout, base)| + 1 - k
  }

  /** COMMIT AND RECOVERY COMPLETE. In every reachable state the next write, or the end, of a
      commit or recovery under way can be taken; it leaves one step fewer, and the last one
      leaves the system running with nothing in the log and nothing waiting. */
  lemma GoesOn(c: Config, run: seq<Sys>, i: nat) returns (st: Step)
    requires IsRun(c, run) && i < |run| && (run[i].phase.Committing? || run[i].phase.Recovering?)
    ensures Inv(c, run[i]) && Enabled(c, run[i], st) && Inv(c, Do(c, run[i], st))
    ensures var s, t := run[i], Do(c, run[i], st);
            if Left(c, s) == 1 then t.phase.Running? && t.lh == [] && t.finished == {}
            else (t.phase.Committing? || t.phase.Recovering?) && Left(c, t) == Left(c, s) - 1
  {
    hide Replay, CommitWrites, RecoverWrites, Put, Apply, Parties;
    RunKeeps(c, run, i);
    var s := run[i];
    match s.phase {
      case Committing(k, _, _) =>
        st := if s.lh == [] || k == 2 * |s.lh| + 2 then CommitEnd else CommitWrite;
      case Recovering(k, base) =>
        st := if k == |RecoverWrites(c.layout, base)| then RecoverEnd else RecoverWrite;
    }
    StepKeeps(c, s, st, Do(c, s, st));
  }
}
