/** The redo log on disk (kernel/log.c): its layout, the exact sequence of block
    writes that commit and recovery issue, and what a crash between any two of
    those writes leaves behind. */
module LogDisk {
  import opened Basics
  import opened Params

  // A disk block seen as its BSIZE / sizeof(uint) words; the header block uses
  // word 0 for n and the following words for block[].
  const WORDS: nat := BSIZE / 4
  type Block = b: seq<nat> | |b| == WORDS witness seq(WORDS, _ => 0)
  type Disk = seq<Block>

  /** Where the log lives: `start` is the header block, the `size - 1` blocks
      after it hold logged data; every other block is a home block. */
  datatype Layout = Layout(start: nat, size: nat, nblocks: nat) {
    predicate Ok() {
      1 <= size && start + size <= nblocks
    }
    predicate Home(b: int) {
      0 <= b < nblocks && !(start <= b < start + size)
    }
  }

  /** A list of home blocks that fits the log (struct logheader, block[0..n]). */
  predicate TargetsOk(l: Layout, t: seq<nat>) {
    && |t| <= LOGSIZE
    && |t| < l.size
    && (forall i :: 0 <= i < |t| ==> l.Home(t[i]))
    && Distinct(t)
  }

  // ---- the on-disk header ----

  /** The header block after write_head: n, then the block numbers; words
      beyond block[n] keep what the buffer held. */
  function EncodeHead(prev: Block, t: seq<nat>): (b: Block)
    requires |t| <= LOGSIZE
  {
    [|t|] + t + prev[1 + |t|..]
  }

  predicate HeadOk(b: Block) {
    b[0] <= LOGSIZE
  }

  function DecodeHead(b: Block): (t: seq<nat>)
    requires HeadOk(b)
  {
    b[1..1 + b[0]]
  }

  lemma HeadRoundTrip(prev: Block, t: seq<nat>)
    requires |t| <= LOGSIZE
    ensures HeadOk(EncodeHead(prev, t)) && DecodeHead(EncodeHead(prev, t)) == t
  {
  }

  ghost predicate DiskOk(l: Layout, d: Disk) {
    && l.Ok()
    && |d| == l.nblocks
    && HeadOk(d[l.start])
    && TargetsOk(l, DecodeHead(d[l.start]))
  }

  // ---- the meaning of a disk image ----

  /** Position of x in t, or |t| when absent. */
  function IndexOf(t: seq<nat>, x: int): (i: nat)
    ensures i <= |t|
    ensures i < |t| ==> t[i] == x
    ensures forall j :: 0 <= j < i ==> t[j] != x
  {
    if t == [] then 0 else if t[0] == x then 0 else 1 + IndexOf(t[1..], x)
  }

  /** What home block b holds once the log has been replayed: the logged copy
      when the header names b, its own contents otherwise. */
  function Durable(l: Layout, d: Disk, b: int): (c: Block)
    requires DiskOk(l, d) && l.Home(b)
  {
    var t := DecodeHead(d[l.start]);
    var i := IndexOf(t, b);
    if i < |t| then d[l.start + 1 + i] else d[b]
  }

  ghost predicate SameDurable(l: Layout, d: Disk, e: Disk)
    requires DiskOk(l, d) && DiskOk(l, e)
  {
    forall b :: l.Home(b) ==> Durable(l, d, b) == Durable(l, e, b)
  }

  // ---- block writes ----

  datatype Write = Write(blockno: nat, data: Block)

  /** The disk after a list of atomic block writes, in order. */
  function Apply(d: Disk, ws: seq<Write>): (e: Disk)
    ensures |e| == |d|
  {
    if ws == [] then d
    else
      var last := ws[|ws| - 1];
      var e := Apply(d, ws[..|ws| - 1]);
      if last.blockno < |d| then e[last.blockno := last.data] else e
  }

  lemma {:induction false} ApplyConcat(d: Disk, a: seq<Write>, b: seq<Write>)
    ensures Apply(d, a + b) == Apply(Apply(d, a), b)
    decreases |b|
  {
    if b == [] {
      assert a + b == a;
    } else {
      var b' := b[..|b| - 1];
      assert (a + b)[..|a + b| - 1] == a + b';
      ApplyConcat(d, a, b');
    }
  }

  /** A block no write names keeps its contents. */
  lemma {:induction false} ApplyUntouched(d: Disk, ws: seq<Write>, b: nat)
    requires b < |d|
    requires forall i :: 0 <= i < |ws| ==> ws[i].blockno != b
    ensures Apply(d, ws)[b] == d[b]
    decreases |ws|
  {
    if ws != [] {
      ApplyUntouched(d, ws[..|ws| - 1], b);
    }
  }

  /** When no two writes name the same block, each one's data survives. */
  lemma {:induction false} ApplyHit(d: Disk, ws: seq<Write>, i: nat)
    requires i < |ws| && ws[i].blockno < |d|
    requires forall j :: i < j < |ws| ==> ws[j].blockno != ws[i].blockno
    ensures Apply(d, ws)[ws[i].blockno] == ws[i].data
    decreases |ws|
  {
    if i < |ws| - 1 {
      ApplyHit(d, ws[..|ws| - 1], i);
    }
  }

  // ---- what commit and recovery write ----

  /** write_log: block i of the transaction goes to log slot i. */
  function LogCopies(l: Layout, mem: Disk, t: seq<nat>): (ws: seq<Write>)
    requires forall i :: 0 <= i < |t| ==> t[i] < |mem|
    ensures |ws| == |t|
    ensures forall i :: 0 <= i < |t| ==> ws[i] == Write(l.start + 1 + i, mem[t[i]])
  {
    seq(|t|, i requires 0 <= i < |t| => Write(l.start + 1 + i, mem[t[i]]))
  }

  /** install_trans: log slot i goes to its home block. */
  function HomeCopies(l: Layout, d: Disk, t: seq<nat>): (ws: seq<Write>)
    requires l.start + |t| < |d|
    ensures |ws| == |t|
    ensures forall i :: 0 <= i < |t| ==> ws[i] == Write(t[i], d[l.start + 1 + i])
  {
    seq(|t|, i requires 0 <= i < |t| => Write(t[i], d[l.start + 1 + i]))
  }

  /** The transaction's blocks as installed from the cache contents mem. */
  function CacheCopies(mem: Disk, t: seq<nat>): (ws: seq<Write>)
    requires forall i :: 0 <= i < |t| ==> t[i] < |mem|
    ensures |ws| == |t|
    ensures forall i :: 0 <= i < |t| ==> ws[i] == Write(t[i], mem[t[i]])
  {
    seq(|t|, i requires 0 <= i < |t| => Write(t[i], mem[t[i]]))
  }

  /** Every disk write of commit(), in order: write_log, write_head,
      install_trans, write_head with n = 0. */
  function CommitWrites(l: Layout, mem: Disk, t: seq<nat>): (ws: seq<Write>)
    requires l.Ok() && |mem| == l.nblocks && TargetsOk(l, t)
    ensures |ws| == 2 * |t| + 2
  {
    var head := EncodeHead(mem[l.start], t);
    LogCopies(l, mem, t) + [Write(l.start, head)] + CacheCopies(mem, t)
    + [Write(l.start, EncodeHead(head, []))]
  }

  /** Every disk write of recover_from_log() on disk image d, in order. */
  function RecoverWrites(l: Layout, d: Disk): (ws: seq<Write>)
    requires DiskOk(l, d)
    ensures |ws| == |DecodeHead(d[l.start])| + 1
  {
    var t := DecodeHead(d[l.start]);
    HomeCopies(l, d, t) + [Write(l.start, EncodeHead(d[l.start], []))]
  }

  // ---- crash points of commit ----

  /** The writes of commit, cut after k of them, by phase. */
  lemma CommitPrefix(l: Layout, mem: Disk, t: seq<nat>, k: nat)
    requires l.Ok() && |mem| == l.nblocks && TargetsOk(l, t)
    requires k <= 2 * |t| + 2
    ensures k <= |t| ==> CommitWrites(l, mem, t)[..k] == LogCopies(l, mem, t)[..k]
    ensures |t| < k < 2 * |t| + 2 ==>
              CommitWrites(l, mem, t)[..k] ==
              LogCopies(l, mem, t) + [Write(l.start, EncodeHead(mem[l.start], t))]
              + CacheCopies(mem, t)[..k - |t| - 1]
    ensures k == 2 * |t| + 2 ==>
              CommitWrites(l, mem, t)[..k] ==
              CommitWrites(l, mem, t)[..k - 1]
              + [Write(l.start, EncodeHead(EncodeHead(mem[l.start], t), []))]
  {
  }

  /** After the log copies and the header, the log area holds the transaction. */
  lemma LogAreaWritten(l: Layout, d: Disk, mem: Disk, t: seq<nat>)
    requires DiskOk(l, d) && |mem| == |d| && TargetsOk(l, t)
    ensures var e := Apply(d, LogCopies(l, mem, t) + [Write(l.start, EncodeHead(mem[l.start], t))]);
            && e[l.start] == EncodeHead(mem[l.start], t)
            && (forall i :: 0 <= i < |t| ==> e[l.start + 1 + i] == mem[t[i]])
            && (forall b :: l.Home(b) ==> e[b] == d[b])
  {
    hide Apply, EncodeHead, DecodeHead, Distinct;
    var head := EncodeHead(mem[l.start], t);
    var ws := LogCopies(l, mem, t) + [Write(l.start, head)];
    assert forall i :: 0 <= i < |ws| ==> ws[i].blockno == if i < |t| then l.start + 1 + i else l.start;
    ApplyHit(d, ws, |t|);
    forall i | 0 <= i < |t|
      ensures Apply(d, ws)[l.start + 1 + i] == mem[t[i]]
    {
      ApplyHit(d, ws, i);
    }
    forall b | l.Home(b)
      ensures Apply(d, ws)[b] == d[b]
    {
      ApplyUntouched(d, ws, b);
    }
  }

  /** The first |ws| home copies of targets t, block by block. */
  lemma InstallPointwise(l: Layout, e: Disk, t: seq<nat>, ws: seq<Write>)
    requires l.Ok() && |e| == l.nblocks && TargetsOk(l, t)
    requires |ws| <= |t|
    requires forall i :: 0 <= i < |ws| ==> ws[i].blockno == t[i]
    ensures forall b :: 0 <= b < |e| && b !in t ==> Apply(e, ws)[b] == e[b]
    ensures forall i :: 0 <= i < |ws| ==> Apply(e, ws)[t[i]] == ws[i].data
  {
    forall b | 0 <= b < |e| && b !in t
      ensures Apply(e, ws)[b] == e[b]
    {
      ApplyUntouched(e, ws, b);
    }
    forall i | 0 <= i < |ws|
      ensures Apply(e, ws)[t[i]] == ws[i].data
    {
      ApplyHit(e, ws, i);
    }
  }

  /** Two images with the same log area mean the same when they agree on every
      home block the header does not name. */
  lemma LogAreaDecides(l: Layout, e: Disk, f: Disk, t: seq<nat>)
    requires DiskOk(l, e) && t == DecodeHead(e[l.start]) && |f| == |e|
    requires forall b :: l.start <= b < l.start + l.size ==> f[b] == e[b]
    requires forall b :: l.Home(b) && b !in t ==> f[b] == e[b]
    ensures DiskOk(l, f) && SameDurable(l, f, e)
  {
    assert f[l.start] == e[l.start];
    forall b | l.Home(b)
      ensures Durable(l, f, b) == Durable(l, e, b)
    {
      var i := IndexOf(t, b);
      if i < |t| {
        assert f[l.start + 1 + i] == e[l.start + 1 + i];
      } else {
        assert b !in t;
      }
    }
  }

  /** Installing some of the named blocks never changes the image's meaning:
      the header still names all of them and the log area is intact. */
  lemma PartialInstall(l: Layout, e: Disk, t: seq<nat>, ws: seq<Write>)
    requires DiskOk(l, e) && t == DecodeHead(e[l.start])
    requires |ws| <= |t|
    requires forall i :: 0 <= i < |ws| ==> ws[i] == Write(t[i], e[l.start + 1 + i])
    ensures DiskOk(l, Apply(e, ws)) && Apply(e, ws)[l.start] == e[l.start]
    ensures SameDurable(l, Apply(e, ws), e)
    ensures |ws| == |t| ==> forall b :: l.Home(b) ==> Apply(e, ws)[b] == Durable(l, e, b)
  {
    hide Apply, DecodeHead, Distinct, IndexOf;
    var f := Apply(e, ws);
    InstallPointwise(l, e, t, ws);
    forall b | l.start <= b < l.start + l.size
      ensures f[b] == e[b]
    {
      assert b !in t;
    }
    LogAreaDecides(l, e, f, t);
    if |ws| == |t| {
      forall b | l.Home(b)
        ensures f[b] == Durable(l, e, b)
      {
        var i := IndexOf(t, b);
        if i < |t| {
          assert ws[i].blockno == t[i];
        }
      }
    }
  }

  /** Home contents after commit: the cached copy of every logged block, the
      old durable contents of every other one. */
  function Committed(l: Layout, d: Disk, mem: Disk, t: seq<nat>, b: int): Block
    requires DiskOk(l, d) && |mem| == |d| && l.Home(b)
  {
    if b in t then mem[b] else Durable(l, d, b)
  }

  /** CRASH ATOMICITY OF COMMIT. Cut commit's writes anywhere: with at most n of
      the 2n + 2 writes on disk the image still means the old contents; with
      more, it means the transaction, entirely. */
  lemma CommitCrash(l: Layout, d: Disk, mem: Disk, t: seq<nat>, k: nat)
    requires DiskOk(l, d) && DecodeHead(d[l.start]) == []
    requires |mem| == |d| && TargetsOk(l, t)
    requires k <= 2 * |t| + 2
    ensures var e := Apply(d, CommitWrites(l, mem, t)[..k]);
            && DiskOk(l, e)
            && (k <= |t| ==> SameDurable(l, e, d) && DecodeHead(e[l.start]) == [])
            && (k > |t| ==> forall b :: l.Home(b) ==> Durable(l, e, b) == Committed(l, d, mem, t, b))
            && (k == 2 * |t| + 2 ==> DecodeHead(e[l.start]) == [])
  {
    CommitPrefix(l, mem, t, k);
    if k <= |t| {
      CommitCrashEarly(l, d, mem, t, k);
    } else if k < 2 * |t| + 2 {
      CommitCrashLate(l, d, mem, t, k - |t| - 1);
    } else {
      CommitPrefix(l, mem, t, k - 1);
      CommitFinished(l, d, mem, t);
    }
  }

  lemma CommitCrashEarly(l: Layout, d: Disk, mem: Disk, t: seq<nat>, k: nat)
    requires DiskOk(l, d) && DecodeHead(d[l.start]) == []
    requires |mem| == |d| && TargetsOk(l, t) && k <= |t|
    ensures var e := Apply(d, LogCopies(l, mem, t)[..k]);
            DiskOk(l, e) && SameDurable(l, e, d) && DecodeHead(e[l.start]) == []
  {
    var ws := LogCopies(l, mem, t)[..k];
    forall b | l.Home(b) || b == l.start
      ensures Apply(d, ws)[b] == d[b]
    {
      ApplyUntouched(d, ws, b);
    }
  }

  /** The image once the header and j home copies are on disk. */
  lemma CommitCrashLate(l: Layout, d: Disk, mem: Disk, t: seq<nat>, j: nat)
    requires DiskOk(l, d) && DecodeHead(d[l.start]) == []
    requires |mem| == |d| && TargetsOk(l, t) && j <= |t|
    ensures var e := Apply(d, LogCopies(l, mem, t) + [Write(l.start, EncodeHead(mem[l.start], t))]
                              + CacheCopies(mem, t)[..j]);
            && DiskOk(l, e)
            && e[l.start] == EncodeHead(mem[l.start], t)
            && (forall b :: l.Home(b) ==> Durable(l, e, b) == Committed(l, d, mem, t, b))
            && (j == |t| ==> forall b :: l.Home(b) ==> e[b] == Committed(l, d, mem, t, b))
  {
    hide Apply, EncodeHead, IndexOf, Distinct;
    var ws := LogCopies(l, mem, t) + [Write(l.start, EncodeHead(mem[l.start], t))];
    var e := Apply(d, ws);
    LogAreaWritten(l, d, mem, t);
    HeadRoundTrip(mem[l.start], t);
    assert DiskOk(l, e);
    var js := CacheCopies(mem, t)[..j];
    ApplyConcat(d, ws, js);
    PartialInstall(l, e, t, js);
    HeaderGivesCommitted(l, d, mem, t, e);
  }

  /** With the header and the log area written, the image means the transaction. */
  lemma HeaderGivesCommitted(l: Layout, d: Disk, mem: Disk, t: seq<nat>, e: Disk)
    requires DiskOk(l, d) && DecodeHead(d[l.start]) == [] && |mem| == |d|
    requires DiskOk(l, e) && DecodeHead(e[l.start]) == t
    requires forall i :: 0 <= i < |t| ==> e[l.start + 1 + i] == mem[t[i]]
    requires forall b :: l.Home(b) ==> e[b] == d[b]
    ensures forall b :: l.Home(b) ==> Durable(l, e, b) == Committed(l, d, mem, t, b)
  {
    forall b | l.Home(b)
      ensures Durable(l, e, b) == Committed(l, d, mem, t, b)
    {
      var i := IndexOf(t, b);
      assert i < |t| <==> b in t;
    }
  }

  lemma CommitFinished(l: Layout, d: Disk, mem: Disk, t: seq<nat>)
    requires DiskOk(l, d) && DecodeHead(d[l.start]) == []
    requires |mem| == |d| && TargetsOk(l, t)
    ensures var e := Apply(d, CommitWrites(l, mem, t));
            && DiskOk(l, e) && DecodeHead(e[l.start]) == []
            && (forall b :: l.Home(b) ==> Durable(l, e, b) == e[b] == Committed(l, d, mem, t, b))
  {
    hide DecodeHead, EncodeHead, Committed;
    var ws := CommitWrites(l, mem, t);
    var head := EncodeHead(mem[l.start], t);
    var all := LogCopies(l, mem, t) + [Write(l.start, head)] + CacheCopies(mem, t)[..|t|];
    assert CacheCopies(mem, t)[..|t|] == CacheCopies(mem, t);
    CommitCrashLate(l, d, mem, t, |t|);
    assert ws[..|ws| - 1] == all;
    HeadRoundTrip(head, []);
    var f := Apply(d, all);
    assert Apply(d, ws) == f[l.start := EncodeHead(head, [])];
  }

  // ---- crash points of recovery ----

  /** CRASH SAFETY OF RECOVERY. Recovery may itself be cut after any of its
      writes: the image keeps its meaning, and the full run clears the header
      and leaves every home block holding its durable contents. */
  lemma RecoverCrash(l: Layout, d: Disk, k: nat)
    requires DiskOk(l, d)
    requires k <= |RecoverWrites(l, d)|
    ensures var e := Apply(d, RecoverWrites(l, d)[..k]);
            && DiskOk(l, e) && SameDurable(l, e, d)
            && (k == |RecoverWrites(l, d)| ==>
                  && DecodeHead(e[l.start]) == []
                  && forall b :: l.Home(b) ==> e[b] == Durable(l, d, b))
  {
    hide DecodeHead, Distinct, IndexOf, EncodeHead;
    var t := DecodeHead(d[l.start]);
    var ws := RecoverWrites(l, d);
    if k <= |t| {
      assert ws[..k] == HomeCopies(l, d, t)[..k];
      PartialInstall(l, d, t, ws[..k]);
    } else {
      assert ws[..k] == ws;
      RecoverDone(l, d);
    }
  }

  lemma RecoverDone(l: Layout, d: Disk)
    requires DiskOk(l, d)
    ensures var e := Apply(d, RecoverWrites(l, d));
            && DiskOk(l, e) && SameDurable(l, e, d) && DecodeHead(e[l.start]) == []
            && forall b :: l.Home(b) ==> e[b] == Durable(l, d, b)
  {
    hide DecodeHead, EncodeHead;
    var t := DecodeHead(d[l.start]);
    var ws := RecoverWrites(l, d);
    var f := Apply(d, HomeCopies(l, d, t));
    PartialInstall(l, d, t, HomeCopies(l, d, t));
    assert ws[..|ws| - 1] == HomeCopies(l, d, t);
    HeadRoundTrip(d[l.start], []);
    assert Apply(d, ws) == f[l.start := EncodeHead(d[l.start], [])];
  }

  /** Any number of recoveries, the i-th cut after cuts[i] of its writes. */
  ghost function CrashedRecoveries(l: Layout, d: Disk, cuts: seq<nat>): (e: Disk)
    requires DiskOk(l, d)
    ensures DiskOk(l, e) && SameDurable(l, e, d)
    decreases |cuts|
  {
    if cuts == [] then d
    else
      var m := CrashedRecoveries(l, d, cuts[..|cuts| - 1]);
      var ws := RecoverWrites(l, m);
      var k := if cuts[|cuts| - 1] <= |ws| then cuts[|cuts| - 1] else |ws|;
      RecoverCrash(l, m, k);
      Apply(m, ws[..k])
  }

  /** CRASH ATOMICITY. Commit is cut after k writes, any number of recoveries
      are cut in turn, and the next recovery completes: every home block is then
      as before the transaction, or every home block is as after it, and the
      header is clear. */
  lemma CrashAtomicity(l: Layout, d: Disk, mem: Disk, t: seq<nat>, k: nat, cuts: seq<nat>)
    requires DiskOk(l, d) && DecodeHead(d[l.start]) == []
    requires |mem| == |d| && TargetsOk(l, t)
    requires k <= 2 * |t| + 2
    ensures var crashed := Apply(d, CommitWrites(l, mem, t)[..k]);
            DiskOk(l, crashed) &&
            var m := CrashedRecoveries(l, crashed, cuts);
            var e := Apply(m, RecoverWrites(l, m));
            && DiskOk(l, e) && DecodeHead(e[l.start]) == []
            && (if k <= |t| then forall b :: l.Home(b) ==> e[b] == d[b]
                else forall b :: l.Home(b) ==> e[b] == if b in t then mem[b] else d[b])
  {
    CommitCrash(l, d, mem, t, k);
    var crashed := Apply(d, CommitWrites(l, mem, t)[..k]);
    var m := CrashedRecoveries(l, crashed, cuts);
    var ws := RecoverWrites(l, m);
    RecoverCrash(l, m, |ws|);
    assert ws[..|ws|] == ws;
    forall b | l.Home(b)
      ensures Durable(l, d, b) == d[b]
    {
    }
  }

  /** Recovering a recovered disk rewrites only the cleared header. */
  lemma RecoveryIdempotent(l: Layout, d: Disk)
    requires DiskOk(l, d)
    ensures var e := Apply(d, RecoverWrites(l, d));
            DiskOk(l, e) && Apply(e, RecoverWrites(l, e)) == e
  {
    var ws := RecoverWrites(l, d);
    RecoverCrash(l, d, |ws|);
    assert ws[..|ws|] == ws;
    var e := Apply(d, ws);
    HeadRoundTrip(d[l.start], []);
    assert e[l.start] == EncodeHead(d[l.start], []);
    var vs := RecoverWrites(l, e);
    assert vs == [Write(l.start, EncodeHead(e[l.start], []))];
    assert vs[..|vs| - 1] == [];
    assert EncodeHead(e[l.start], []) == e[l.start];
    assert Apply(e, []) == e;
    assert Apply(e, vs) == e;
  }
}
