/** Log space under group commit: begin_op's reservation, and exactly when
    log_write's "too big a transaction" panic can be reached. */
module LogSpace {
  import opened Params
  import opened LogDisk
  import opened LogProtocol

  /** Blocks logged so far, summed over the active operations. */
  ghost function Spent(active: map<OpId, set<nat>>): (n: nat)
    decreases |active|
  {
    if active == map[] then 0
    else
      var op :| op in active;
      KeysRemoved(active, op);
      |active[op]| + Spent(active - {op})
  }

  lemma KeysRemoved(active: map<OpId, set<nat>>, op: OpId)
    requires op in active
    ensures |active - {op}| == |active| - 1
  {
    assert (active - {op}).Keys == active.Keys - {op};
  }

  /** The sum does not depend on the order the operations are taken in. */
  lemma {:induction false} SpentSplit(active: map<OpId, set<nat>>, op: OpId)
    requires op in active
    ensures Spent(active) == |active[op]| + Spent(active - {op})
    decreases |active|
  {
    var first :| first in active && Spent(active) == |active[first]| + Spent(active - {first});
    if first != op {
      KeysRemoved(active, first);
      KeysRemoved(active, op);
      SpentSplit(active - {first}, op);
      SpentSplit(active - {op}, first);
      assert active - {first} - {op} == active - {op} - {first};
    }
  }

  lemma OneMoreTimes(m: nat, n: nat)
    ensures m * (n + 1) == m * n + m
  {
  }

  lemma {:induction false} SpentBound(active: map<OpId, set<nat>>, m: nat)
    requires forall op :: op in active ==> |active[op]| <= m
    ensures Spent(active) <= m * |active|
    decreases |active|
  {
    if active != map[] {
      var op :| op in active;
      KeysRemoved(active, op);
      SpentSplit(active, op);
      SpentBound(active - {op}, m);
      OneMoreTimes(m, |active| - 1);
    }
  }

  ghost predicate WithinLimit(s: Sys, limit: nat) {
    forall op :: op in s.active ==> |s.active[op]| <= limit
  }

  /** The open transaction, plus what the active operations may still add at m
      blocks each, fits MAXOPBLOCKS + 2m blocks; for m = MAXOPBLOCKS that is
      LOGSIZE. */
  ghost predicate Reserved(s: Sys, m: nat) {
    s.phase.Running? ==> |s.lh| + m * |s.active| - Spent(s.active) <= MAXOPBLOCKS + 2 * m
  }

  /** Every block an active operation has logged is in the open transaction. */
  ghost predicate SpentInLog(s: Sys) {
    s.phase.Running? ==> forall op, b :: op in s.active && b in s.active[op] ==> b in s.lh
  }

  ghost predicate Space(c: Config, s: Sys, m: nat) {
    WithinLimit(s, c.limit) && SpentInLog(s) && Reserved(s, m)
  }

  /** begin_op's test leaves room for one more operation of m blocks. */
  lemma RoomForOne(lh: nat, n: nat, m: nat, spent: nat)
    requires lh + (n + 1) * MAXOPBLOCKS <= LOGSIZE && m <= MAXOPBLOCKS && (n == 0 ==> lh == 0)
    ensures lh + m * (n + 1) - spent <= MAXOPBLOCKS + 2 * m
  {
    assert n <= 2;
    assert m * (n + 1) == if n == 0 then m else if n == 1 then 2 * m else 3 * m;
  }

  lemma SpaceBegin(c: Config, s: Sys, op: OpId, t: Sys, m: nat)
    requires m <= MAXOPBLOCKS
    requires Books(c, s) && Space(c, s, m) && Enabled(c, s, BeginOp(op)) && t == Do(c, s, BeginOp(op))
    ensures Space(c, t, m)
  {
    hide TargetsOk, DiskOk, CommitWrites, RecoverWrites, Parties, Spent;
    AddKey(s.active, op, {}) by { PartiesBegin(s.active.Keys, s.finished, s.committed, s.begun, op); }
    if |s.active| == 0 {
      assert s.active.Keys == {};
      assert s.active == map[];
    }
    RoomForOne(|s.lh|, |s.active|, m, Spent(t.active));
  }

  lemma SpaceLogWrite(c: Config, s: Sys, op: OpId, b: nat, data: Block, t: Sys, m: nat)
    requires Books(c, s) && Space(c, s, m)
    requires Enabled(c, s, LogWrite(op, b, data)) && t == Do(c, s, LogWrite(op, b, data))
    ensures Space(c, t, m)
  {
    hide TargetsOk, DiskOk, CommitWrites, RecoverWrites, Parties;
    if !TooBig(c, s) {
      SpentSplit(s.active, op);
      SpentSplit(t.active, op);
      assert t.active - {op} == s.active - {op};
      assert t.active.Keys == s.active.Keys;
      if b in s.active[op] {
        assert s.active[op] + {b} == s.active[op];
      }
    }
  }

  lemma SpentEnd(active: map<OpId, set<nat>>, op: OpId, m: nat)
    requires op in active && |active[op]| <= m
    ensures m * |active - {op}| - Spent(active - {op}) <= m * |active| - Spent(active)
  {
    hide Spent;
    SpentSplit(active, op);
    KeysRemoved(active, op);
    assert m * |active| == m * (|active| - 1) + m;
  }

  lemma SpaceEnd(c: Config, s: Sys, op: OpId, t: Sys, m: nat)
    requires c.limit <= m
    requires Books(c, s) && Space(c, s, m) && Enabled(c, s, EndOp(op)) && t == Do(c, s, EndOp(op))
    ensures Space(c, t, m)
  {
    hide TargetsOk, DiskOk, CommitWrites, RecoverWrites, Spent, Parties;
    SpentEnd(s.active, op, m);
    assert t.active == s.active - {op};
  }

  lemma SpaceElsewhere(c: Config, s: Sys, st: Step, t: Sys, m: nat)
    requires Books(c, s) && Space(c, s, m) && Enabled(c, s, st) && t == Do(c, s, st)
    requires st.CommitWrite? || st.CommitEnd? || st.Crash? || st.RecoverWrite? || st.RecoverEnd?
    ensures Space(c, t, m)
  {
    hide TargetsOk, DiskOk, CommitWrites, RecoverWrites, Parties;
    assert t.phase.Running? ==> t.active == map[] && t.lh == [];
  }

  lemma SpaceStep(c: Config, s: Sys, st: Step, t: Sys, m: nat)
    requires c.limit <= m <= MAXOPBLOCKS
    requires Books(c, s) && Space(c, s, m) && Enabled(c, s, st) && t == Do(c, s, st)
    ensures Space(c, t, m)
  {
    hide Space;
    match st
    case BeginOp(op) => SpaceBegin(c, s, op, t, m);
    case LogWrite(op, b, data) => SpaceLogWrite(c, s, op, b, data, t, m);
    case EndOp(op) => SpaceEnd(c, s, op, t, m);
    case CommitWrite => SpaceElsewhere(c, s, st, t, m);
    case CommitEnd => SpaceElsewhere(c, s, st, t, m);
    case Crash => SpaceElsewhere(c, s, st, t, m);
    case RecoverWrite => SpaceElsewhere(c, s, st, t, m);
    case RecoverEnd => SpaceElsewhere(c, s, st, t, m);
  }

  lemma SpaceInit(c: Config, s: Sys, m: nat)
    requires Init(c, s)
    ensures Space(c, s, m)
  {
  }

  lemma {:induction false} SpaceAlways(c: Config, run: seq<Sys>, i: nat, m: nat)
    requires IsRun(c, run) && i < |run| && c.limit <= m <= MAXOPBLOCKS
    ensures Space(c, run[i], m)
    decreases i
  {
    hide Books, Do, Enabled, Space, Images;
    if i == 0 {
      SpaceInit(c, run[0], m);
    } else {
      SpaceAlways(c, run, i - 1, m);
      RunKeeps(c, run, i - 1);
      assert Next(c, run[i - 1], run[i - 1 + 1]);
      var st :| Enabled(c, run[i - 1], st) && run[i] == Do(c, run[i - 1], st);
      SpaceStep(c, run[i - 1], st, run[i], m);
    }
  }

  /** RESERVATION. When every operation logs at most MAXOPBLOCKS distinct blocks,
      the open transaction plus all unspent reservations never exceeds LOGSIZE. */
  lemma ReservationHolds(c: Config, run: seq<Sys>, i: nat)
    requires IsRun(c, run) && i < |run| && c.limit <= MAXOPBLOCKS && run[i].phase.Running?
    ensures 0 <= MAXOPBLOCKS * |run[i].active| - Spent(run[i].active)
    ensures |run[i].lh| + (MAXOPBLOCKS * |run[i].active| - Spent(run[i].active)) <= LOGSIZE
  {
    SpaceAlways(c, run, i, MAXOPBLOCKS);
    SpentBound(run[i].active, MAXOPBLOCKS);
  }

  // ---- when the panic is reachable ----

  lemma PanicStep(c: Config, s: Sys, st: Step, t: Sys)
    requires Books(c, s) && Enabled(c, s, st) && t == Do(c, s, st)
    requires !s.phase.Panicked? && t.phase.Panicked?
    ensures s.phase.Running? && st.LogWrite? && TooBig(c, s) && s.active != map[]
  {
    hide TargetsOk, DiskOk, CommitWrites, RecoverWrites, Parties;
  }

  lemma SmallStep(c: Config, s: Sys, st: Step, t: Sys)
    requires c.limit < MAXOPBLOCKS && c.layout.size >= NLOG
    requires Books(c, s) && Space(c, s, MAXOPBLOCKS - 1) && Enabled(c, s, st) && t == Do(c, s, st)
    requires !s.phase.Panicked?
    ensures !t.phase.Panicked?
  {
    hide TargetsOk, DiskOk, CommitWrites, RecoverWrites, Parties;
    if t.phase.Panicked? {
      PanicStep(c, s, st, t);
      SpentBound(s.active, MAXOPBLOCKS - 1);
      assert false;
    }
  }

  lemma {:induction false} SmallOperationsFit(c: Config, run: seq<Sys>, i: nat)
    requires IsRun(c, run) && i < |run|
    requires c.limit < MAXOPBLOCKS && c.layout.size >= NLOG
    ensures !run[i].phase.Panicked?
    decreases i
  {
    hide Books, Do, Enabled, Space, Images;
    if i > 0 {
      SmallOperationsFit(c, run, i - 1);
      RunKeeps(c, run, i - 1);
      SpaceAlways(c, run, i - 1, MAXOPBLOCKS - 1);
      assert Next(c, run[i - 1], run[i - 1 + 1]);
      var st :| Enabled(c, run[i - 1], st) && run[i] == Do(c, run[i - 1], st);
      SmallStep(c, run[i - 1], st, run[i]);
    }
  }

  /** How many of the first i log_writes, ten per operation, are operation op's. */
  function Share(i: nat, op: nat): nat {
    if i < 10 * op then 0 else if i < 10 * op + 10 then i - 10 * op else 10
  }

  ghost predicate OpFilled(active: map<OpId, set<nat>>, first: nat, i: nat, op: nat) {
    op in active && |active[op]| == Share(i, op) && forall b :: b in active[op] ==> b < first + i
  }

  /** The state of the run below after begin_op for operations 0, 1 and 2 and
      log_write of blocks first, first + 1, ..., ten per operation. */
  ghost predicate Filled(c: Config, s: Sys, first: nat, i: nat) {
    && s.phase.Running? && !s.committing && s.outstanding == 3
    && |s.lh| == i && (forall j :: 0 <= j < i ==> s.lh[j] < first + i)
    && OpFilled(s.active, first, i, 0) && OpFilled(s.active, first, i, 1) && OpFilled(s.active, first, i, 2)
  }

  /** log_write of a block that no operation has logged. */
  lemma Fresh(c: Config, s: Sys, op: OpId, b: nat, data: Block) returns (t: Sys)
    requires s.phase.Running? && op in s.active && c.layout.Home(b) && |s.active[op]| < c.limit
    requires b !in s.active[op] && b !in s.lh && !TooBig(c, s)
    ensures Next(c, s, t)
    ensures t.phase.Running? && t.committing == s.committing && t.outstanding == s.outstanding
    ensures t.lh == s.lh + [b] && t.active == s.active[op := s.active[op] + {b}]
  {
    hide Put, DiskOk, CommitWrites, RecoverWrites;
    var st := LogWrite(op, b, data);
    assert |s.active[op] + {b}| == |s.active[op]| + 1;
    assert Enabled(c, s, st);
    t := Do(c, s, st);
  }

  lemma OpNext(active: map<OpId, set<nat>>, first: nat, i: nat, cur: nat, op: nat)
    requires cur in active && OpFilled(active, first, i, op) && 10 * cur <= i < 10 * cur + 10
    ensures OpFilled(active[cur := active[cur] + {first + i}], first, i + 1, op)
  {
    if op == cur {
      assert first + i !in active[cur];
      assert |active[cur] + {first + i}| == |active[cur]| + 1;
    }
  }

  lemma FilledNext(c: Config, s: Sys, first: nat, i: nat, data: Block) returns (t: Sys)
    requires Filled(c, s, first, i) && i < 29
    requires c.layout.size == NLOG && c.limit >= MAXOPBLOCKS && c.layout.Home(first + i)
    ensures Next(c, s, t) && Filled(c, t, first, i + 1)
  {
    hide Next, OpFilled;
    var op := if i < 10 then 0 else if i < 20 then 1 else 2;
    OpRoom(s.active, first, i, op);
    t := Fresh(c, s, op, first + i, data);
    OpNext(s.active, first, i, op, 0);
    OpNext(s.active, first, i, op, 1);
    OpNext(s.active, first, i, op, 2);
  }

  lemma OpRoom(active: map<OpId, set<nat>>, first: nat, i: nat, op: nat)
    requires OpFilled(active, first, i, op) && 10 * op <= i < 10 * op + 10
    ensures op in active && first + i !in active[op] && |active[op]| == i - 10 * op
  {
  }

  lemma Begun(c: Config, s: Sys, op: OpId) returns (t: Sys)
    requires s.phase.Running? && !s.committing && s.lh == [] && 0 <= s.outstanding < 3 && op !in s.begun
    ensures Next(c, s, t)
    ensures t == s.(outstanding := s.outstanding + 1, active := s.active[op := {}], begun := s.begun + {op})
  {
    hide DiskOk, CommitWrites, RecoverWrites;
    assert Enabled(c, s, BeginOp(op));
    t := Do(c, s, BeginOp(op));
  }

  lemma ThreeBegun(c: Config, first: nat) returns (run: seq<Sys>)
    requires DiskOk(c.layout, c.image) && DecodeHead(c.image[c.layout.start]) == []
    ensures IsRun(c, run) && Filled(c, run[|run| - 1], first, 0)
  {
    hide Next, DiskOk;
    var s0 := Sys(c.image, c.image, [], 0, false, Running, map[], {}, {}, {}, []);
    var s1 := Begun(c, s0, 0);
    var s2 := Begun(c, s1, 1);
    var s3 := Begun(c, s2, 2);
    assert s3.active == map[0 := {}, 1 := {}, 2 := {}];
    run := [s0, s1, s2, s3];
  }

  lemma FilledPanics(c: Config, s: Sys, first: nat, data: Block) returns (t: Sys)
    requires Filled(c, s, first, 29)
    requires c.layout.size == NLOG && c.limit >= MAXOPBLOCKS && c.layout.Home(first + 29)
    ensures Next(c, s, t) && t.phase.Panicked?
  {
    var st := LogWrite(2, first + 29, data);
    assert |s.active[2] + {first + 29}| <= |s.active[2]| + 1;
    assert Enabled(c, s, st);
    t := Do(c, s, st);
  }

  /** With three operations of MAXOPBLOCKS distinct blocks each, all admitted by
      begin_op, the thirtieth log_write panics. */
  lemma LargeOperationsPanic(c: Config) returns (run: seq<Sys>)
    requires DiskOk(c.layout, c.image) && DecodeHead(c.image[c.layout.start]) == []
    requires c.layout.size == NLOG && c.limit >= MAXOPBLOCKS
    requires c.layout.nblocks >= c.layout.start + c.layout.size + LOGSIZE
    ensures IsRun(c, run) && run[|run| - 1].phase.Panicked?
  {
    var first := c.layout.start + c.layout.size;
    var data := c.image[0];
    run := ThreeBegun(c, first);
    var i := 0;
    while i < 29
      invariant 0 <= i <= 29
      invariant IsRun(c, run) && Filled(c, run[|run| - 1], first, i)
    {
      var t := FilledNext(c, run[|run| - 1], first, i, data);
      run := run + [t];
      i := i + 1;
    }
    var t := FilledPanics(c, run[|run| - 1], first, data);
    run := run + [t];
  }

  /** THE PANIC'S EXACT CONDITION. On a disk as mkfs lays it out, no run reaches
      the "too big a transaction" panic if and only if operations log fewer than
      MAXOPBLOCKS distinct blocks: the guard counts the header as a log block,
      begin_op's reservation does not. */
  lemma PanicUnreachableIff(c: Config)
    requires DiskOk(c.layout, c.image) && DecodeHead(c.image[c.layout.start]) == []
    requires c.layout.size == NLOG
    requires c.layout.nblocks >= c.layout.start + c.layout.size + LOGSIZE
    ensures (forall run: seq<Sys>, i :: IsRun(c, run) && 0 <= i < |run| ==> !run[i].phase.Panicked?)
            <==> c.limit < MAXOPBLOCKS
  {
    if c.limit < MAXOPBLOCKS {
      forall run: seq<Sys>, i | IsRun(c, run) && 0 <= i < |run|
        ensures !run[i].phase.Panicked?
      {
        SmallOperationsFit(c, run, i);
      }
    } else {
      var run := LargeOperationsPanic(c);
    }
  }
}
