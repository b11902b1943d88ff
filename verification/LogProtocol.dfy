/** Group commit as a step system: begin_op, log_write, end_op, the individual
    disk writes of commit and recovery, and a crash at any moment. The state
    carries, beside the kernel's own fields, an auxiliary record of which
    operations logged what, so that runs can be judged operation by operation. */
module LogProtocol {
  import opened Params
  import opened LogDisk

  type OpId = nat

  /** One log_write: operation op stored data in home block b. */
  datatype Logged = Logged(op: OpId, b: nat, data: Block)

  datatype Phase =
    | Running
    | Committing(k: nat, base: Disk, memBase: Disk)  // k writes of commit are on disk
    | Recovering(k: nat, base: Disk)                 // k writes of recovery are on disk
    | Panicked

  /** `limit` is the largest number of distinct blocks one operation logs. */
  datatype Config = Config(layout: Layout, limit: nat, image: Disk)

  datatype Sys = Sys(
    disk: Disk,
    mem: Disk,
    lh: seq<nat>,
    outstanding: int,
    committing: bool,
    phase: Phase,
    // auxiliary
    active: map<OpId, set<nat>>,  // operations between begin_op and end_op, and the blocks each logged
    finished: set<OpId>,          // ended, not yet committed
    committed: set<OpId>,
    begun: set<OpId>,
    issued: seq<Logged>)          // every log_write ever made

  datatype Step =
    | BeginOp(op: OpId)
    | LogWrite(op: OpId, b: nat, data: Block)
    | EndOp(op: OpId)
    | CommitWrite
    | CommitEnd
    | Crash
    | RecoverWrite
    | RecoverEnd

  ghost predicate Init(c: Config, s: Sys) {
    && DiskOk(c.layout, c.image)
    && DecodeHead(c.image[c.layout.start]) == []
    && s == Sys(c.image, c.image, [], 0, false, Running, map[], {}, {}, {}, [])
  }

  /** Commit's write list is defined. */
  ghost predicate Planned(c: Config, s: Sys) {
    && s.phase.Committing?
    && c.layout.Ok() && |s.phase.memBase| == c.layout.nblocks && TargetsOk(c.layout, s.lh)
  }

  /** Which steps can be taken: begin_op proceeds only past both of its waits;
      log_write is called inside an operation, on a home block, and keeps the
      operation within its limit of distinct blocks. */
  ghost predicate Enabled(c: Config, s: Sys, st: Step) {
    match st
    case BeginOp(op) =>
      && (s.phase.Running? || s.phase.Committing?)
      && !s.committing
      && |s.lh| + (s.outstanding + 1) * MAXOPBLOCKS <= LOGSIZE
      && op !in s.begun
    case LogWrite(op, b, data) =>
      && (s.phase.Running? || s.phase.Committing?)
      && op in s.active
      && c.layout.Home(b)
      && |s.active[op] + {b}| <= c.limit
    case EndOp(op) =>
      && (s.phase.Running? || s.phase.Committing?)
      && op in s.active
    case CommitWrite =>
      && Planned(c, s)
      && |s.lh| > 0 && s.phase.k < 2 * |s.lh| + 2
    case CommitEnd =>
      && s.phase.Committing?
      && (|s.lh| > 0 ==> s.phase.k == 2 * |s.lh| + 2)
    case Crash => true
    case RecoverWrite =>
      && s.phase.Recovering?
      && DiskOk(c.layout, s.phase.base)
      && s.phase.k < |RecoverWrites(c.layout, s.phase.base)|
    case RecoverEnd =>
      && s.phase.Recovering?
      && DiskOk(c.layout, s.phase.base)
      && s.phase.k == |RecoverWrites(c.layout, s.phase.base)|
  }

  function Absorb(lh: seq<nat>, b: nat): (r: seq<nat>) {
    if b in lh then lh else lh + [b]
  }

  /** log_write's guard. */
  predicate TooBig(c: Config, s: Sys) {
    |s.lh| >= LOGSIZE || |s.lh| >= c.layout.size - 1 || s.outstanding < 1
  }

  function Put(d: Disk, w: Write): (e: Disk)
    ensures |e| == |d|
  {
    if w.blockno < |d| then d[w.blockno := w.data] else d
  }

  ghost function Do(c: Config, s: Sys, st: Step): (t: Sys)
    requires Enabled(c, s, st)
  {
    match st
    case BeginOp(op) =>
      s.(outstanding := s.outstanding + 1, active := s.active[op := {}], begun := s.begun + {op})
    case LogWrite(op, b, data) =>
      if TooBig(c, s) then s.(phase := Panicked)
      else s.(lh := Absorb(s.lh, b),
              mem := Put(s.mem, Write(b, data)),
              active := s.active[op := s.active[op] + {b}],
              issued := s.issued + [Logged(op, b, data)])
    case EndOp(op) =>
      var s' := s.(outstanding := s.outstanding - 1,
                   active := s.active - {op}, finished := s.finished + {op});
      if s.committing then s'.(phase := Panicked)
      else if s'.outstanding == 0 then
        s'.(committing := true, phase := Committing(0, s.disk, s.mem))
      else s'
    case CommitWrite =>
      var w := CommitWrites(c.layout, s.phase.memBase, s.lh)[s.phase.k];
      var s' := s.(disk := Put(s.disk, w), mem := Put(s.mem, w), phase := Committing(s.phase.k + 1, s.phase.base,
          s.phase.memBase));
      // The header write, the one after the log copies, is the commit point.
      if s.phase.k == |s.lh| then s'.(committed := s.committed + s.finished, finished := {}) else s'
    case CommitEnd =>
      s.(lh := [], committing := false, phase := Running,
         committed := s.committed + s.finished, finished := {})
    case Crash =>
      s.(mem := s.disk, lh := [], outstanding := 0, committing := false,
         phase := Recovering(0, s.disk), active := map[], finished := {})
    case RecoverWrite =>
      var w := RecoverWrites(c.layout, s.phase.base)[s.phase.k];
      s.(disk := Put(s.disk, w), mem := Put(s.mem, w), phase := Recovering(s.phase.k + 1, s.phase.base))
    case RecoverEnd => s.(phase := Running)
  }

  ghost predicate Next(c: Config, s: Sys, t: Sys) {
    exists st :: Enabled(c, s, st) && t == Do(c, s, st)
  }

  ghost predicate IsRun(c: Config, run: seq<Sys>) {
    && |run| > 0
    && Init(c, run[0])
    && forall i :: 0 <= i < |run| - 1 ==> Next(c, run[i], run[i + 1])
  }

  // ---- what the logged writes of a set of operations amount to ----

  function Replay(image: Disk, log: seq<Logged>, ops: set<OpId>): (d: Disk)
    ensures |d| == |image|
  {
    if log == [] then image
    else
      var last := log[|log| - 1];
      var d := Replay(image, log[..|log| - 1], ops);
      if last.op in ops then Put(d, Write(last.b, last.data)) else d
  }

  lemma ReplaySnoc(image: Disk, log: seq<Logged>, w: Logged, ops: set<OpId>)
    ensures Replay(image, log + [w], ops) ==
            if w.op in ops then Put(Replay(image, log, ops), Write(w.b, w.data))
            else Replay(image, log, ops)
  {
    assert (log + [w])[..|log + [w]| - 1] == log;
  }

  /** Operations that logged nothing do not matter. */
  lemma {:induction false} ReplayIrrelevant(image: Disk, log: seq<Logged>, ops: set<OpId>, op: OpId)
    requires forall i :: 0 <= i < |log| ==> log[i].op != op
    ensures Replay(image, log, ops + {op}) == Replay(image, log, ops)
    decreases |log|
  {
    if log != [] {
      ReplayIrrelevant(image, log[..|log| - 1], ops, op);
    }
  }

  // ---- the invariant ----

  function Live(s: Sys): set<OpId> {
    s.active.Keys + s.finished
  }

  ghost predicate HomeIs(c: Config, d: Disk, e: Disk)
    requires |d| == |e| == c.layout.nblocks
  {
    forall b :: c.layout.Home(b) ==> d[b] == e[b]
  }

  /** An operation that has begun is active, finished or committed, or was lost in a
      crash; no operation is two of these. */
  predicate Parties(active: set<OpId>, finished: set<OpId>, committed: set<OpId>, begun: set<OpId>) {
    active + finished + committed <= begun && active !! finished && active + finished !! committed
  }

  lemma PartiesBegin(a: set<OpId>, f: set<OpId>, c: set<OpId>, b: set<OpId>, op: OpId)
    requires Parties(a, f, c, b) && op !in b
    ensures Parties(a + {op}, f, c, b + {op}) && op !in a && c + (a + {op} + f) == c + (a + f) + {op}
  {
  }

  lemma PartiesEnd(a: set<OpId>, f: set<OpId>, c: set<OpId>, b: set<OpId>, op: OpId)
    requires Parties(a, f, c, b) && op in a
    ensures Parties(a - {op}, f + {op}, c, b) && (a - {op}) + (f + {op}) == a + f
  {
  }

  lemma PartiesCommit(a: set<OpId>, f: set<OpId>, c: set<OpId>, b: set<OpId>)
    requires Parties(a, f, c, b)
    ensures Parties(a, {}, c + f, b) && c + f + (a + {}) == c + (a + f)
  {
  }

  lemma PartiesActive(a: set<OpId>, f: set<OpId>, c: set<OpId>, b: set<OpId>, op: OpId)
    requires Parties(a, f, c, b) && op in a
    ensures op in b && op !in c
  {
  }

  lemma AbsorbOk(l: Layout, lh: seq<nat>, b: nat)
    requires TargetsOk(l, lh) && l.Home(b) && |lh| < LOGSIZE && |lh| < l.size - 1
    ensures TargetsOk(l, Absorb(lh, b))
  {
  }

  lemma PartiesCrash(a: set<OpId>, f: set<OpId>, c: set<OpId>, b: set<OpId>)
    requires Parties(a, f, c, b)
    ensures Parties({}, {}, c, b)
  {
  }

  lemma AddKey(m: map<OpId, set<nat>>, op: OpId, v: set<nat>)
    requires op !in m
    ensures m[op := v].Keys == m.Keys + {op} && |m[op := v]| == |m| + 1
  {
    assert m[op := v].Keys == m.Keys + {op};
  }

  lemma DropKey(m: map<OpId, set<nat>>, op: OpId)
    requires op in m
    ensures (m - {op}).Keys == m.Keys - {op} && |m - {op}| == |m| - 1
  {
    assert (m - {op}).Keys == m.Keys - {op};
  }

  /** Who is where. */
  ghost predicate Books(c: Config, s: Sys) {
    && s.outstanding == |s.active|
    && Parties(s.active.Keys, s.finished, s.committed, s.begun)
    && (s.committing <==> s.phase.Committing?)
    && (s.phase.Committing? || s.phase.Recovering? ==> s.active == map[])
    && (s.phase.Recovering? ==> s.finished == {} && s.lh == [])
    && (s.phase.Running? && s.active == map[] ==> s.finished == {} && s.lh == [])
    && (forall i :: 0 <= i < |s.issued| ==> s.issued[i].op in s.begun)
    && TargetsOk(c.layout, s.lh)
    && (s.phase.Committing? && s.phase.k > |s.lh| ==> s.finished == {})
  }

  ghost predicate DurableIs(c: Config, d: Disk, e: Disk)
    requires DiskOk(c.layout, d) && |e| == |d|
  {
    forall b :: c.layout.Home(b) ==> Durable(c.layout, d, b) == e[b]
  }

  /** No commit under way: the disk is clean, and differs from the cache only on
      the blocks of the open transaction. */
  ghost predicate Clean(c: Config, disk: Disk, mem: Disk, lh: seq<nat>)
  {
    && DiskOk(c.layout, disk) && DecodeHead(disk[c.layout.start]) == []
    && |mem| == |disk|
    && forall b :: c.layout.Home(b) && b !in lh ==> mem[b] == disk[b]
  }

  /** What disk and cache hold in each phase, given the contents `safe` of the
      committed operations and `full` of those and the uncommitted ones. */
  ghost predicate Images(c: Config, disk: Disk, mem: Disk, lh: seq<nat>, phase: Phase, safe: Disk, full: Disk)
    requires |safe| == |full| == c.layout.nblocks
  {
    match phase
    case Running =>
      Clean(c, disk, mem, lh) && HomeIs(c, disk, safe) && HomeIs(c, mem, full)
    case Committing(k, base, memBase) =>
      && Clean(c, base, memBase, lh)
      && TargetsOk(c.layout, lh)
      && HomeIs(c, memBase, full)
      && HomeIs(c, if k <= |lh| then base else memBase, safe)
      && (if lh == [] then k == 0 && disk == base && mem == memBase
          else
            && k <= 2 * |lh| + 2
            && disk == Apply(base, CommitWrites(c.layout, memBase, lh)[..k])
            && mem == Apply(memBase, CommitWrites(c.layout, memBase, lh)[..k]))
    case Recovering(k, base) =>
      && DiskOk(c.layout, base) && DurableIs(c, base, safe)
      && k <= |RecoverWrites(c.layout, base)|
      && disk == mem == Apply(base, RecoverWrites(c.layout, base)[..k])
    case Panicked =>
      DiskOk(c.layout, disk) && DurableIs(c, disk, safe)
  }

  function Safe(c: Config, s: Sys): Disk {
    Replay(c.image, s.issued, s.committed)
  }

  function Full(c: Config, s: Sys): Disk {
    Replay(c.image, s.issued, s.committed + Live(s))
  }

  ghost predicate Inv(c: Config, s: Sys) {
    && DiskOk(c.layout, c.image)
    && Books(c, s)
    && Images(c, s.disk, s.mem, s.lh, s.phase, Safe(c, s), Full(c, s))
  }

  // ---- every step keeps the invariant ----

  lemma BeginBooks(c: Config, s: Sys, op: OpId, t: Sys)
    requires Books(c, s) && Enabled(c, s, BeginOp(op)) && t == Do(c, s, BeginOp(op))
    ensures s.phase.Running? && Books(c, t)
  {
    hide TargetsOk, DiskOk, CommitWrites, RecoverWrites, Parties;
    PartiesBegin(s.active.Keys, s.finished, s.committed, s.begun, op);
    AddKey(s.active, op, {});
  }

  lemma BeginAdds(c: Config, s: Sys, op: OpId, t: Sys)
    requires Books(c, s) && Enabled(c, s, BeginOp(op)) && t == Do(c, s, BeginOp(op))
    ensures t.committed + Live(t) == s.committed + Live(s) + {op}
    ensures forall i :: 0 <= i < |s.issued| ==> s.issued[i].op != op
  {
    hide TargetsOk, DiskOk, CommitWrites, RecoverWrites, Parties;
    PartiesBegin(s.active.Keys, s.finished, s.committed, s.begun, op);
    AddKey(s.active, op, {});
  }

  lemma BeginKeeps(c: Config, s: Sys, op: OpId, t: Sys)
    requires Inv(c, s) && Enabled(c, s, BeginOp(op)) && t == Do(c, s, BeginOp(op))
    ensures Inv(c, t)
  {
    hide Books, Images, Replay, DiskOk;
    BeginBooks(c, s, op, t);
    BeginAdds(c, s, op, t);
    ReplayIrrelevant(c.image, s.issued, s.committed + Live(s), op);
  }

  lemma LogWriteBooks(c: Config, s: Sys, op: OpId, b: nat, data: Block, t: Sys)
    requires Books(c, s) && Enabled(c, s, LogWrite(op, b, data)) && t == Do(c, s, LogWrite(op, b, data))
    ensures s.phase.Running? && Books(c, t) && t.committed == s.committed
    ensures t.committed + Live(t) == s.committed + Live(s) && op in Live(s) && op !in s.committed
  {
    hide DiskOk, CommitWrites, RecoverWrites, Parties, TargetsOk;
    PartiesActive(s.active.Keys, s.finished, s.committed, s.begun, op);
    if !TooBig(c, s) {
      assert t.active.Keys == s.active.Keys;
      AbsorbOk(c.layout, s.lh, b);
    }
  }

  lemma LogWriteImages(c: Config, disk: Disk, mem: Disk, lh: seq<nat>, safe: Disk, full: Disk, b: nat, data: Block)
    requires |safe| == |full| == c.layout.nblocks && c.layout.Home(b)
    requires Images(c, disk, mem, lh, Running, safe, full)
    ensures Images(c, disk, mem, lh, Panicked, safe, full)
    ensures Images(c, disk, Put(mem, Write(b, data)), Absorb(lh, b), Running, safe, Put(full, Write(b, data)))
  {
    hide CommitWrites, RecoverWrites, Apply, EncodeHead;
  }

  lemma LogWriteKeeps(c: Config, s: Sys, op: OpId, b: nat, data: Block, t: Sys)
    requires Inv(c, s) && Enabled(c, s, LogWrite(op, b, data)) && t == Do(c, s, LogWrite(op, b, data))
    ensures Inv(c, t)
  {
    hide Books, Images, Replay, CommitWrites, RecoverWrites, TargetsOk;
    LogWriteBooks(c, s, op, b, data, t);
    LogWriteImages(c, s.disk, s.mem, s.lh, Safe(c, s), Full(c, s), b, data);
    if !TooBig(c, s) {
      var w := Logged(op, b, data);
      ReplaySnoc(c.image, s.issued, w, s.committed);
      ReplaySnoc(c.image, s.issued, w, s.committed + Live(s));
    }
  }

  lemma EndBooks(c: Config, s: Sys, op: OpId, t: Sys)
    requires Books(c, s) && Enabled(c, s, EndOp(op)) && t == Do(c, s, EndOp(op))
    ensures s.phase.Running? && Books(c, t) && Live(t) == Live(s) && TargetsOk(c.layout, s.lh)
  {
    hide TargetsOk, DiskOk, CommitWrites, RecoverWrites, Parties;
    PartiesEnd(s.active.Keys, s.finished, s.committed, s.begun, op);
    DropKey(s.active, op);
    if t.outstanding == 0 {
      assert t.active.Keys == {};
    }
  }

  lemma EndKeeps(c: Config, s: Sys, op: OpId, t: Sys)
    requires Inv(c, s) && Enabled(c, s, EndOp(op)) && t == Do(c, s, EndOp(op))
    ensures Inv(c, t)
  {
    hide Books, Replay, CommitWrites, RecoverWrites;
    EndBooks(c, s, op, t);
    assert Full(c, t) == Full(c, s) && Safe(c, t) == Safe(c, s);
    if t.phase.Committing? {
      CommitStarts(c, s.disk, s.mem, s.lh, Safe(c, s), Full(c, s));
    }
  }

  lemma CommitStarts(c: Config, disk: Disk, mem: Disk, lh: seq<nat>, safe: Disk, full: Disk)
    requires |safe| == |full| == c.layout.nblocks && TargetsOk(c.layout, lh)
    requires Images(c, disk, mem, lh, Running, safe, full)
    ensures Images(c, disk, mem, lh, Committing(0, disk, mem), safe, full)
  {
    if lh != [] {
      assert CommitWrites(c.layout, mem, lh)[..0] == [];
    }
  }

  lemma ApplyNext(d: Disk, ws: seq<Write>, k: nat)
    requires k < |ws|
    ensures Apply(d, ws[..k + 1]) == Put(Apply(d, ws[..k]), ws[k])
  {
    assert ws[..k + 1][..|ws[..k + 1]| - 1] == ws[..k];
  }

  lemma CommitWriteBooks(c: Config, s: Sys, t: Sys)
    requires Books(c, s) && Enabled(c, s, CommitWrite) && t == Do(c, s, CommitWrite)
    ensures Books(c, t) && t.committed + Live(t) == s.committed + Live(s)
    ensures s.phase.k > |s.lh| ==> s.committed + Live(s) == s.committed
    ensures s.phase.k == |s.lh| ==> t.committed == s.committed + Live(s)
  {
    hide TargetsOk, DiskOk, CommitWrites, RecoverWrites, Parties;
    PartiesCommit(s.active.Keys, s.finished, s.committed, s.begun);
  }

  lemma CommitWriteImages(c: Config, s: Sys, t: Sys, safe: Disk, full: Disk)
    requires |safe| == |full| == c.layout.nblocks
    requires Enabled(c, s, CommitWrite) && t == Do(c, s, CommitWrite)
    requires Images(c, s.disk, s.mem, s.lh, s.phase, safe, full)
    ensures Images(c, t.disk, t.mem, t.lh, t.phase, if s.phase.k == |s.lh| then full else safe, full)
  {
    hide Clean, HomeIs, Apply, CommitWrites;
    var ws := CommitWrites(c.layout, s.phase.memBase, s.lh);
    ApplyNext(s.phase.base, ws, s.phase.k);
    ApplyNext(s.phase.memBase, ws, s.phase.k);
  }

  lemma CommitWriteKeeps(c: Config, s: Sys, t: Sys)
    requires Inv(c, s) && Enabled(c, s, CommitWrite) && t == Do(c, s, CommitWrite)
    ensures Inv(c, t)
  {
    hide Books, Images, Replay;
    CommitWriteBooks(c, s, t);
    CommitWriteImages(c, s, t, Safe(c, s), Full(c, s));
    assert Safe(c, t) == if s.phase.k == |s.lh| then Full(c, s) else Safe(c, s);
  }

  lemma CommitFinishes(c: Config, disk: Disk, mem: Disk, lh: seq<nat>, ph: Phase, safe: Disk, full: Disk)
    requires |safe| == |full| == c.layout.nblocks && ph.Committing?
    requires lh != [] ==> ph.k == 2 * |lh| + 2
    requires Images(c, disk, mem, lh, ph, safe, full)
    ensures Images(c, disk, mem, [], Running, full, full)
  {
    if lh != [] {
      var ws := CommitWrites(c.layout, ph.memBase, lh);
      assert ws[..ph.k] == ws;
      CommitFinished(c.layout, ph.base, ph.memBase, lh);
      CommitFinishedMem(c, ph.base, ph.memBase, lh);
    } else {
      assert HomeIs(c, ph.base, ph.memBase);
    }
  }

  lemma CommitEndKeeps(c: Config, s: Sys, t: Sys)
    requires Inv(c, s) && Enabled(c, s, CommitEnd) && t == Do(c, s, CommitEnd)
    ensures Inv(c, t)
  {
    hide Images, Replay, CommitWrites, RecoverWrites;
    CommitFinishes(c, s.disk, s.mem, s.lh, s.phase, Safe(c, s), Full(c, s));
    assert t.committed + Live(t) == t.committed == s.committed + Live(s);
    assert Full(c, t) == Safe(c, t) == Full(c, s);
  }

  /** Commit leaves the cached home blocks as they were. */
  lemma CommitFinishedMem(c: Config, base: Disk, mem: Disk, t: seq<nat>)
    requires Clean(c, base, mem, t) && TargetsOk(c.layout, t)
    ensures HomeIs(c, Apply(base, CommitWrites(c.layout, mem, t)), mem)
    ensures HomeIs(c, Apply(mem, CommitWrites(c.layout, mem, t)), mem)
  {
    CommitFinished(c.layout, base, mem, t);
    var ws := CommitWrites(c.layout, mem, t);
    forall b | c.layout.Home(b)
      ensures Apply(mem, ws)[b] == mem[b]
    {
      SameValue(mem, ws, b);
    }
  }

  lemma {:induction false} SameValue(d: Disk, ws: seq<Write>, b: nat)
    requires b < |d|
    requires forall i :: 0 <= i < |ws| && ws[i].blockno == b ==> ws[i].data == d[b]
    ensures Apply(d, ws)[b] == d[b]
    decreases |ws|
  {
    if ws != [] {
      SameValue(d, ws[..|ws| - 1], b);
    }
  }

  /** What the disk means at any moment: exactly the committed operations. */
  lemma DurableNow(c: Config, s: Sys)
    requires Inv(c, s)
    ensures DiskOk(c.layout, s.disk)
    ensures DurableIs(c, s.disk, Replay(c.image, s.issued, s.committed))
  {
    hide Replay, Apply, CommitWrites, RecoverWrites, EncodeHead, IndexOf;
    match s.phase
    case Running =>
    case Panicked =>
    case Recovering(k, base) =>
      RecoverCrash(c.layout, base, k);
    case Committing(k, base, memBase) =>
      if s.lh != [] {
        CommitCrash(c.layout, base, memBase, s.lh, k);
        if k > |s.lh| {
          forall b | c.layout.Home(b)
            ensures Committed(c.layout, base, memBase, s.lh, b) == memBase[b]
          {
          }
          assert s.committed + s.finished == s.committed;
        }
      }
  }

  lemma CrashBooks(c: Config, s: Sys, t: Sys)
    requires Books(c, s) && t == Do(c, s, Crash)
    ensures Books(c, t)
  {
    hide CommitWrites, RecoverWrites, Parties;
    PartiesCrash(s.active.Keys, s.finished, s.committed, s.begun);
  }

  lemma RecoverStarts(c: Config, disk: Disk, safe: Disk, full: Disk)
    requires DiskOk(c.layout, disk) && |safe| == |full| == c.layout.nblocks && DurableIs(c, disk, safe)
    ensures Images(c, disk, disk, [], Recovering(0, disk), safe, full)
  {
    hide DurableIs, DiskOk, RecoverWrites;
    assert RecoverWrites(c.layout, disk)[..0] == [];
  }

  lemma CrashKeeps(c: Config, s: Sys, t: Sys)
    requires Inv(c, s) && t == Do(c, s, Crash)
    ensures Inv(c, t)
  {
    hide Books, Images, Replay, DurableIs, CommitWrites, RecoverWrites;
    DurableNow(c, s);
    CrashBooks(c, s, t);
    RecoverStarts(c, s.disk, Safe(c, s), Full(c, t));
  }

  lemma RecoverWriteKeeps(c: Config, s: Sys, t: Sys)
    requires Inv(c, s) && Enabled(c, s, RecoverWrite) && t == Do(c, s, RecoverWrite)
    ensures Inv(c, t)
  {
    var k := s.phase.k;
    var ws := RecoverWrites(c.layout, s.phase.base);
    assert ws[..k + 1][..|ws[..k + 1]| - 1] == ws[..k];
    assert ws[..k + 1][k] == ws[k];
  }

  lemma RecoverEndKeeps(c: Config, s: Sys, t: Sys)
    requires Inv(c, s) && Enabled(c, s, RecoverEnd) && t == Do(c, s, RecoverEnd)
    ensures Inv(c, t)
  {
    RecoverCrash(c.layout, s.phase.base, s.phase.k);
    assert s.committed + Live(s) == s.committed;
  }

  lemma StepKeeps(c: Config, s: Sys, st: Step, t: Sys)
    requires Inv(c, s) && Enabled(c, s, st) && t == Do(c, s, st)
    ensures Inv(c, t)
  {
    match st
    case BeginOp(op) => BeginKeeps(c, s, op, t);
    case LogWrite(op, b, data) => LogWriteKeeps(c, s, op, b, data, t);
    case EndOp(op) => EndKeeps(c, s, op, t);
    case CommitWrite => CommitWriteKeeps(c, s, t);
    case CommitEnd => CommitEndKeeps(c, s, t);
    case Crash => CrashKeeps(c, s, t);
    case RecoverWrite => RecoverWriteKeeps(c, s, t);
    case RecoverEnd => RecoverEndKeeps(c, s, t);
  }

  lemma InitKeeps(c: Config, s: Sys)
    requires Init(c, s)
    ensures Inv(c, s)
  {
  }

  lemma {:induction false} RunKeeps(c: Config, run: seq<Sys>, i: nat)
    requires IsRun(c, run) && i < |run|
    ensures Inv(c, run[i])
    decreases i
  {
    hide Books, Do, Enabled, Images;
    if i == 0 {
      InitKeeps(c, run[0]);
    } else {
      RunKeeps(c, run, i - 1);
      assert Next(c, run[i - 1], run[i - 1 + 1]);
      var st :| Enabled(c, run[i - 1], st) && run[i] == Do(c, run[i - 1], st);
      StepKeeps(c, run[i - 1], st, run[i]);
    }
  }

  // ---- the theorems about runs ----

  /** ALL OR NOTHING. Stop any run at any moment and let recovery complete: every
      home block then holds exactly what the committed operations logged, in the
      order they logged it, and nothing of any other operation. */
  lemma CrashAnywhere(c: Config, run: seq<Sys>, i: nat, b: nat)
    requires IsRun(c, run) && i < |run| && c.layout.Home(b)
    ensures var s := run[i];
            && DiskOk(c.layout, s.disk)
            && |Replay(c.image, s.issued, s.committed)| == c.layout.nblocks
            && Apply(s.disk, RecoverWrites(c.layout, s.disk))[b] == Replay(c.image, s.issued, s.committed)[b]
  {
    var s := run[i];
    RunKeeps(c, run, i);
    DurableNow(c, s);
    var ws := RecoverWrites(c.layout, s.disk);
    assert ws[..|ws|] == ws;
    RecoverCrash(c.layout, s.disk, |ws|);
  }

  /** GROUP COMMIT. Commit never runs with an operation outstanding, so end_op
      never finds log.committing set; and when no operation is outstanding and no
      commit is under way, every operation that has ended is committed. */
  lemma CommitExcludesOperations(c: Config, run: seq<Sys>, i: nat)
    requires IsRun(c, run) && i < |run|
    ensures var s := run[i];
            && s.outstanding == |s.active|
            && (s.committing ==> s.outstanding == 0)
            && (forall op :: op in s.active ==> !s.committing)
            && (s.phase.Running? && s.outstanding == 0 ==> s.finished == {} && s.lh == [])
  {
    RunKeeps(c, run, i);
    var s := run[i];
    if s.outstanding == 0 {
      assert s.active.Keys == {};
      assert s.active == map[];
    }
  }

  lemma CommittedStep(c: Config, s: Sys, st: Step, t: Sys, op: OpId)
    requires Books(c, s) && op in s.committed && Enabled(c, s, st) && t == Do(c, s, st)
    ensures op in t.committed
    ensures s.issued <= t.issued
    ensures forall n :: |s.issued| <= n < |t.issued| ==> t.issued[n].op != op
  {
    match st
    case BeginOp(_) =>
    case LogWrite(o, _, _) => assert o != op;
    case EndOp(_) =>
    case _ =>
  }

  /** One commit per operation: once an operation is committed it stays so, and
      logs nothing more. */
  lemma CommitIsFinal(c: Config, run: seq<Sys>, i: nat, j: nat, op: OpId)
    requires IsRun(c, run) && i <= j < |run| && op in run[i].committed
    ensures op in run[j].committed
    ensures run[i].issued <= run[j].issued
    ensures forall n :: |run[i].issued| <= n < |run[j].issued| ==> run[j].issued[n].op != op
    decreases j
  {
    hide Books, Do, Enabled, Images;
    if i < j {
      CommitIsFinal(c, run, i, j - 1, op);
      RunKeeps(c, run, j - 1);
      assert Next(c, run[j - 1], run[j - 1 + 1]);
      var st :| Enabled(c, run[j - 1], st) && run[j] == Do(c, run[j - 1], st);
      CommittedStep(c, run[j - 1], st, run[j], op);
    }
  }
}
