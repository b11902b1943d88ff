/** Which state of the cache a recovered disk holds: that of the last end_op, among those
    that left no operation outstanding, whose commit got as far as the header. */
module LogPoint {
  import opened Params
  import opened LogDisk
  import opened LogProtocol

  /** State q is the start, or the last outstanding operation has just ended in it. */
  ghost predicate Ends(run: seq<Sys>, q: nat) {
    && q < |run| && run[q].active == map[]
    && (q > 0 ==> run[q].phase.Committing? && run[q - 1].active != map[])
  }

  lemma StartStep(c: Config, s: Sys, st: Step, t: Sys)
    requires Books(c, s) && Enabled(c, s, st) && t == Do(c, s, st) && t.phase.Committing?
    ensures if s.phase.Committing?
            then t.phase.memBase == s.phase.memBase && t.committed + t.finished == s.committed + s.finished
            else t.active == map[] && s.active != map[] && t.mem == t.phase.memBase
  {
    hide CommitWrites, RecoverWrites, DiskOk, TargetsOk, Parties, Put;
    if st.EndOp? && !s.phase.Committing? {
      assert t.active.Keys == {} by {
        DropKey(s.active, st.op);
      }
    }
  }

  /** The commit under way at i was started by such an end_op. */
  lemma {:induction false} CommitStart(c: Config, run: seq<Sys>, i: nat) returns (q: nat)
    requires IsRun(c, run) && i < |run| && run[i].phase.Committing?
    ensures q <= i && Ends(run, q) && run[q].mem == run[i].phase.memBase
    ensures run[q].committed + run[q].finished == run[i].committed + run[i].finished
    decreases i
  {
    hide Images, Books, Enabled, Do;
    RunKeeps(c, run, i - 1);
    assert Next(c, run[i - 1], run[i - 1 + 1]);
    var st :| Enabled(c, run[i - 1], st) && run[i] == Do(c, run[i - 1], st);
    StartStep(c, run[i - 1], st, run[i]);
    if run[i - 1].phase.Committing? {
      q := CommitStart(c, run, i - 1);
    } else {
      q := i;
    }
  }

  lemma SafeStep(c: Config, s: Sys, st: Step, t: Sys)
    requires Inv(c, s) && Enabled(c, s, st) && t == Do(c, s, st) && t.committed == s.committed
    ensures Safe(c, t) == Safe(c, s)
  {
    hide Images, CommitWrites, RecoverWrites, DiskOk, TargetsOk, Replay, Parties, Put, Absorb;
    if st.LogWrite? {
      PartiesActive(s.active.Keys, s.finished, s.committed, s.begun, st.op);
      ReplaySnoc(c.image, s.issued, Logged(st.op, st.b, st.data), s.committed);
    }
  }

  /** A commit makes durable what the cache held when it started. */
  lemma CommitStep(c: Config, s: Sys, st: Step, t: Sys)
    requires Inv(c, s) && Enabled(c, s, st) && t == Do(c, s, st) && t.committed != s.committed
    ensures s.phase.Committing? && |s.phase.memBase| == c.layout.nblocks && t.committed == s.committed + s.finished
    ensures HomeIs(c, s.phase.memBase, Safe(c, t))
  {
    hide Images, CommitWrites, RecoverWrites, TargetsOk, Replay, Parties, Put;
    CommittingMem(c, s.disk, s.mem, s.lh, s.phase, Safe(c, s), Full(c, s));
    assert s.committed + Live(s) == t.committed;
  }

  lemma CommittingMem(c: Config, disk: Disk, mem: Disk, lh: seq<nat>, ph: Phase, safe: Disk, full: Disk)
    requires |safe| == |full| == c.layout.nblocks && Images(c, disk, mem, lh, ph, safe, full)
    ensures ph.Committing? ==> |ph.memBase| == c.layout.nblocks && HomeIs(c, ph.memBase, full)
  {
    hide CommitWrites, RecoverWrites, TargetsOk, Apply;
  }

  /** THE POINT OF RECOVERY. In every state of every run the committed operations amount to the
      cache at one earlier moment at which no operation was outstanding, and are
      exactly those that had ended by then. */
  lemma {:induction false} CommittedAt(c: Config, run: seq<Sys>, i: nat) returns (q: nat)
    requires IsRun(c, run) && i < |run|
    ensures q <= i && Ends(run, q) && run[q].committed + run[q].finished == run[i].committed
    ensures |run[q].mem| == |Safe(c, run[i])| == c.layout.nblocks && HomeIs(c, run[q].mem, Safe(c, run[i]))
    decreases i
  {
    hide Inv, Enabled, Do, Replay, HomeIs;
    if i == 0 {
      q := 0;
      StartsSafe(c, run[0]);
    } else {
      RunKeeps(c, run, i - 1);
      assert Next(c, run[i - 1], run[i - 1 + 1]);
      var st :| Enabled(c, run[i - 1], st) && run[i] == Do(c, run[i - 1], st);
      if run[i].committed == run[i - 1].committed {
        SafeStep(c, run[i - 1], st, run[i]);
        q := CommittedAt(c, run, i - 1);
      } else {
        CommitStep(c, run[i - 1], st, run[i]);
        q := CommitStart(c, run, i - 1);
      }
    }
  }

  lemma StartsSafe(c: Config, s: Sys)
    requires Init(c, s)
    ensures |s.mem| == |Safe(c, s)| == c.layout.nblocks && HomeIs(c, s.mem, Safe(c, s))
  {
  }

  /** A recovered disk holds that cache. */
  lemma RecoversTo(c: Config, run: seq<Sys>, i: nat) returns (q: nat)
    requires IsRun(c, run) && i < |run|
    ensures q <= i && Ends(run, q) && run[q].committed + run[q].finished == run[i].committed
    ensures DiskOk(c.layout, run[i].disk)
    ensures var d := Apply(run[i].disk, RecoverWrites(c.layout, run[i].disk));
            |d| == |run[q].mem| == c.layout.nblocks && HomeIs(c, d, run[q].mem)
  {
    hide IsRun, Replay, Ends;
    q := CommittedAt(c, run, i);
    var d := run[i].disk;
    RunKeeps(c, run, i);
    DurableNow(c, run[i]);
    var e := Apply(d, RecoverWrites(c.layout, d));
    forall b | c.layout.Home(b)
      ensures e[b] == run[q].mem[b]
    {
      CrashAnywhere(c, run, i, b);
    }
  }

  /** Point q holds the operations that are committed at the later point e. */
  ghost predicate Follows(c: Config, run: seq<Sys>, q: nat, e: nat) {
    && Ends(run, q) && Ends(run, e) && q < e
    && run[q].committed + run[q].finished == run[e].committed
    && |run[q].mem| == |run[e].mem| == c.layout.nblocks
    && forall b :: c.layout.Home(b) && b !in run[e].lh ==> run[e].mem[b] == run[q].mem[b]
  }

  /** ONE TRANSACTION FROM POINT TO POINT. Whatever crashes lie between, the cache at a point
      differs from the cache at an earlier one only on the blocks in the log. */
  lemma PreviousPoint(c: Config, run: seq<Sys>, e: nat) returns (q: nat)
    requires IsRun(c, run) && 0 < e && Ends(run, e)
    ensures Follows(c, run, q, e)
  {
    hide Enabled, Do, Replay, Inv;
    RunKeeps(c, run, e);
    RunKeeps(c, run, e - 1);
    q := CommittedAt(c, run, e - 1);
    assert Next(c, run[e - 1], run[e - 1 + 1]);
    var st :| Enabled(c, run[e - 1], st) && run[e] == Do(c, run[e - 1], st);
    EndOpOnly(c, run[e - 1], st, run[e]);
    SafeStep(c, run[e - 1], st, run[e]);
    UnloggedSafe(c, run[e]);
  }

  lemma EndOpOnly(c: Config, s: Sys, st: Step, t: Sys)
    requires Inv(c, s) && Enabled(c, s, st) && t == Do(c, s, st) && s.active != map[] && t.active == map[]
    requires t.phase.Committing?
    ensures t.committed == s.committed && t.phase == Committing(0, t.disk, t.mem)
  {
    hide Images, CommitWrites, RecoverWrites, DiskOk, TargetsOk, Replay, Parties;
  }

  lemma UnloggedSafe(c: Config, s: Sys)
    requires Inv(c, s) && s.phase == Committing(0, s.disk, s.mem)
    ensures |s.mem| == |Safe(c, s)| == c.layout.nblocks
    ensures forall b :: c.layout.Home(b) && b !in s.lh ==> s.mem[b] == Safe(c, s)[b]
  {
    hide Books, CommitWrites, RecoverWrites, TargetsOk, Apply, Replay;
  }
}
