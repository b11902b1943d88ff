/** kernel/log.c as written: the in-memory log, its loops over the buffer cache,
    and the disk writes they issue. Each method is proved against the write
    lists of LogDisk, so the crash theorems there are about this code. */
module LogCode {
  import opened Basics
  import opened Params
  import opened LogDisk

  datatype Outcome = Done | Panic

  class Log {
    const layout: Layout
    var disk: Disk          // what is on the device
    var mem: Disk           // what bread returns: cached contents, else the device's
    const block: array<nat> // lh.block
    var n: nat              // lh.n
    var outstanding: nat
    var committing: bool
    var pins: seq<nat>      // how often each block's buffer is pinned
    ghost var writes: seq<Write>  // every bwrite so far

    ghost predicate Sized()
      reads this
    {
      layout.Ok() && |disk| == |mem| == |pins| == layout.nblocks
    }

    /** The blocks of t are pinned, once each, and no others. */
    ghost predicate PinnedFor(t: seq<nat>)
      reads `pins
    {
      forall b :: 0 <= b < |pins| ==> pins[b] == if b in t then 1 else 0
    }

    ghost predicate Valid()
      reads this, block
    {
      && Sized()
      && block.Length == LOGSIZE
      && n <= LOGSIZE
      && TargetsOk(layout, block[..n])
    }

    function Targets(): (t: seq<nat>)
      requires n <= block.Length
      reads this, block
    {
      block[..n]
    }

    constructor (l: Layout, d: Disk)
      requires l.Ok() && |d| == l.nblocks
      ensures Valid() && fresh(block) && layout == l && disk == mem == d && n == 0
      ensures outstanding == 0 && !committing && PinnedFor([]) && writes == []
    {
      layout, disk, mem, n, outstanding, committing := l, d, d, 0, 0, false;
      pins := seq(l.nblocks, _ => 0);
      block := new nat[LOGSIZE](_ => 0);
      writes := [];
    }

    /** bwrite: the cached contents of block b reach the disk. */
    method Bwrite(b: nat)
      requires Sized() && b < layout.nblocks
      modifies `disk, `writes
      ensures Sized()
      ensures disk == old(disk)[b := mem[b]] && writes == old(writes) + [Write(b, mem[b])]
    {
      disk := disk[b := mem[b]];
      writes := writes + [Write(b, mem[b])];
    }

    /** Cache and disk have both taken the writes ws since they were m and d. */
    ghost predicate Took(m: Disk, d: Disk, w: seq<Write>, ws: seq<Write>)
      reads this
    {
      writes == w + ws && disk == Apply(d, ws) && mem == Apply(m, ws)
    }

    lemma TookNone()
      ensures Took(mem, disk, writes, [])
    {
      assert writes + [] == writes;
    }

    /** memmove into the buffer of block b, then bwrite. */
    method Store(b: nat, data: Block, ghost m: Disk, ghost d: Disk, ghost w: seq<Write>, ghost ws: seq<Write>)
      requires Sized() && b < layout.nblocks && |m| == |d| == layout.nblocks
      requires Took(m, d, w, ws)
      modifies `mem, `disk, `writes
      ensures Sized() && Took(m, d, w, ws + [Write(b, data)])
    {
      mem := mem[b := data];
      Bwrite(b);
      assert (ws + [Write(b, data)])[..|ws + [Write(b, data)]| - 1] == ws;
    }

    method WriteLog()
      requires Valid()
      modifies `mem, `disk, `writes
      ensures Valid()
      ensures Took(old(mem), old(disk), old(writes), LogCopies(layout, old(mem), Targets()))
    {
      hide Distinct, Apply;
      ghost var m, d, w, t := mem, disk, writes, Targets();
      TookNone();
      ghost var all := LogCopies(layout, m, t);
      var tail := 0;
      while tail < n
        invariant 0 <= tail <= n && Sized()
        invariant Took(m, d, w, all[..tail])
      {
        assert block[tail] == t[tail] && layout.Home(t[tail]);
        ApplyUntouched(m, all[..tail], t[tail]);
        Store(layout.start + tail + 1, mem[block[tail]], m, d, w, all[..tail]);
        assert all[..tail] + [all[tail]] == all[..tail + 1];
        tail := tail + 1;
      }
      assert all[..tail] == all;
    }

    method WriteHead()
      requires Valid()
      modifies `mem, `disk, `writes
      ensures Valid()
      ensures Took(old(mem), old(disk), old(writes),
                   [Write(layout.start, EncodeHead(old(mem)[layout.start], Targets()))])
    {
      var prev := mem[layout.start];
      var hb := prev[0 := n];
      var i := 0;
      while i < n
        invariant 0 <= i <= n && |hb| == WORDS && hb[0] == n
        invariant forall j :: 0 <= j < i ==> hb[1 + j] == block[j]
        invariant forall j :: i < j < WORDS ==> hb[j] == prev[j]
      {
        hb := hb[1 + i := block[i]];
        i := i + 1;
      }
      assert hb == EncodeHead(prev, Targets());
      Store(layout.start, hb, mem, disk, writes, []);
      assert [] + [Write(layout.start, hb)] == [Write(layout.start, hb)];
    }

    /** One block of install_trans: copy it home and, after a commit, unpin it. */
    method InstallOne(tail: nat, recovering: bool, ghost m: Disk, ghost d: Disk, ghost w: seq<Write>)
      requires Valid() && tail < n && |m| == |d| == layout.nblocks
      requires Took(m, d, w, HomeCopies(layout, m, Targets())[..tail])
      requires PinnedFor(if recovering then [] else Targets()[tail..])
      modifies `mem, `disk, `writes, `pins
      ensures Sized() && Took(m, d, w, HomeCopies(layout, m, Targets())[..tail + 1])
      ensures PinnedFor(if recovering then [] else Targets()[tail + 1..])
    {
      hide Distinct, Apply;
      ghost var t := Targets();
      ghost var all := HomeCopies(layout, m, t);
      assert block[tail] == t[tail] && layout.Home(t[tail]);
      assert forall i :: 0 <= i < tail ==> all[i].blockno == t[i];
      ApplyUntouched(m, all[..tail], layout.start + tail + 1);
      Store(block[tail], mem[layout.start + tail + 1], m, d, w, all[..tail]);
      assert all[..tail] + [all[tail]] == all[..tail + 1];
      if !recovering {
        RestDistinct(t, tail);
        Unpinned(t[tail..], pins);
        pins := pins[block[tail] := pins[block[tail]] - 1];
        assert t[tail..][1..] == t[tail + 1..];
      }
    }

    /** install_trans: copies the logged blocks home. After a commit it also unpins them;
        in recovery nothing is pinned. */
    method InstallTrans(recovering: bool)
      requires Valid() && PinnedFor(if recovering then [] else Targets())
      modifies `mem, `disk, `writes, `pins
      ensures Valid() && PinnedFor([])
      ensures Took(old(mem), old(disk), old(writes), HomeCopies(layout, old(mem), Targets()))
    {
      hide Distinct, Apply, HomeCopies, PinnedFor;
      ghost var m, d, w, t := mem, disk, writes, Targets();
      TookNone();
      ghost var all := HomeCopies(layout, m, t);
      var tail := 0;
      assert t[0..] == t;
      while tail < n
        invariant 0 <= tail <= n && Sized() && Took(m, d, w, all[..tail])
        invariant PinnedFor(if recovering then [] else t[tail..])
      {
        InstallOne(tail, recovering, m, d, w);
        tail := tail + 1;
      }
      assert all[..tail] == all && t[tail..] == [];
    }

    /** The first two phases of commit: log copies, then the header. */
    method WriteTransaction()
      requires Valid()
      modifies `mem, `disk, `writes
      ensures Valid()
      ensures Took(old(mem), old(disk), old(writes),
                   LogCopies(layout, old(mem), Targets())
                   + [Write(layout.start, EncodeHead(old(mem)[layout.start], Targets()))])
    {
      ghost var m, d, w, t := mem, disk, writes, Targets();
      WriteLog();
      ghost var w1 := LogCopies(layout, m, t);
      ApplyUntouched(m, w1, layout.start);
      WriteHead();
      TookTwo(m, d, w, w1, [Write(layout.start, EncodeHead(m[layout.start], t))]);
    }

    /** commit() issues exactly CommitWrites, and nothing when the log is empty. */
    method Commit()
      requires Valid() && PinnedFor(Targets())
      modifies `mem, `disk, `writes, `n, `pins
      ensures Valid() && n == 0 && PinnedFor(Targets())
      ensures Took(old(mem), old(disk), old(writes),
                   if old(n) > 0 then CommitWrites(layout, old(mem), old(Targets())) else [])
    {
      if n > 0 {
        ghost var m, d, w, t := mem, disk, writes, Targets();
        WriteTransaction();
        ghost var w2 := LogCopies(layout, m, t) + [Write(layout.start, EncodeHead(m[layout.start], t))];
        ghost var m2 := mem;
        AfterHead(layout, m, t);
        InstallTrans(false);
        assert HomeCopies(layout, m2, t) == CacheCopies(m, t);
        TookTwo(m, d, w, w2, CacheCopies(m, t));
        assert mem[layout.start] == EncodeHead(m[layout.start], t) by {
          assert forall i :: 0 <= i < |t| ==> t[i] != layout.start;
          ApplyUntouched(m2, CacheCopies(m, t), layout.start);
        }
        n := 0;
        assert Targets() == [];
        WriteHead();
        TookTwo(m, d, w, w2 + CacheCopies(m, t),
                [Write(layout.start, EncodeHead(EncodeHead(m[layout.start], t), []))]);
      } else {
        assert writes + [] == writes;
      }
    }

    lemma TookTwo(m: Disk, d: Disk, w: seq<Write>, a: seq<Write>, b: seq<Write>)
      requires Took(Apply(m, a), Apply(d, a), w + a, b)
      ensures Took(m, d, w, a + b)
    {
      hide Apply;
      ApplyConcat(m, a, b);
      ApplyConcat(d, a, b);
      assert (w + a) + b == w + (a + b);
    }

    method ReadHead()
      requires Sized() && block.Length == LOGSIZE && DiskOk(layout, mem)
      modifies `n, block
      ensures Valid() && Targets() == DecodeHead(mem[layout.start])
    {
      var lh := mem[layout.start];
      n := lh[0];
      var i := 0;
      while i < n
        invariant 0 <= i <= n == lh[0]
        invariant block[..i] == lh[1..1 + i]
      {
        block[i] := lh[1 + i];
        i := i + 1;
      }
    }

    /** recover_from_log() issues exactly RecoverWrites and leaves an empty log
        with every home block durable. */
    method RecoverFromLog()
      requires Valid() && mem == disk && DiskOk(layout, disk) && PinnedFor([])
      modifies `mem, `disk, `writes, `n, `pins, block
      ensures Valid() && n == 0 && mem == disk && PinnedFor([])
      ensures Took(old(disk), old(disk), old(writes), RecoverWrites(layout, old(disk)))
      ensures forall b :: layout.Home(b) ==> disk[b] == Durable(layout, old(disk), b)
    {
      ghost var d, w := disk, writes;
      ReadHead();
      ghost var t := Targets();
      InstallTrans(true);
      ghost var a := HomeCopies(layout, d, t);
      assert mem[layout.start] == d[layout.start] by {
        assert forall i :: 0 <= i < |t| ==> t[i] != layout.start;
        ApplyUntouched(d, a, layout.start);
      }
      n := 0;
      assert Targets() == [];
      WriteHead();
      TookTwo(d, d, w, a, [Write(layout.start, EncodeHead(d[layout.start], []))]);
      ghost var ws := RecoverWrites(layout, d);
      assert ws[..|ws|] == ws;
      RecoverCrash(layout, d, |ws|);
    }

    /** log_write: absorb a block already in the transaction, else append and pin it. */
    method LogWrite(b: nat) returns (r: Outcome)
      requires Valid() && layout.Home(b) && PinnedFor(Targets())
      modifies `n, `pins, block
      ensures Valid() && PinnedFor(Targets())
      ensures r == Panic <==> old(n) >= LOGSIZE || old(n) >= layout.size - 1 || outstanding < 1
      ensures r == Panic ==> Targets() == old(Targets())
      ensures r == Done ==> Targets() == if b in old(Targets()) then old(Targets()) else old(Targets()) + [b]
    {
      if n >= LOGSIZE || n >= layout.size - 1 {
        return Panic;
      }
      if outstanding < 1 {
        return Panic;
      }
      var i := 0;
      while i < n
        invariant 0 <= i <= n
        invariant forall j :: 0 <= j < i ==> block[j] != b
      {
        if block[i] == b {
          break;
        }
        i := i + 1;
      }
      ghost var t := Targets();
      block[i] := b;
      if i == n {
        pins := pins[b := pins[b] + 1];
        n := n + 1;
        assert Targets() == t + [b];
      } else {
        assert Targets() == t;
      }
      r := Done;
    }

    /** begin_op's loop body: wait, or reserve space and go on. */
    method BeginOp() returns (admitted: bool)
      modifies `outstanding
      ensures admitted <==> !committing && n + (old(outstanding) + 1) * MAXOPBLOCKS <= LOGSIZE
      ensures outstanding == old(outstanding) + if admitted then 1 else 0
    {
      if committing {
        return false;
      }
      if n + (outstanding + 1) * MAXOPBLOCKS > LOGSIZE {
        return false;
      }
      outstanding := outstanding + 1;
      admitted := true;
    }

    /** end_op: the last operation out commits. Then the device holds, in every home
        block, what the cache held if the transaction named the block, and nothing is
        logged or pinned any more. */
    method EndOp() returns (r: Outcome)
      requires Valid() && PinnedFor(Targets()) && outstanding > 0
      requires DiskOk(layout, disk) && DecodeHead(disk[layout.start]) == []
      modifies `mem, `disk, `writes, `n, `pins, `outstanding, `committing
      ensures Valid() && PinnedFor(Targets()) && outstanding == old(outstanding) - 1
      ensures r == Panic <==> old(committing)
      ensures r == Panic || outstanding > 0 ==>
                && disk == old(disk) && mem == old(mem) && writes == old(writes)
                && Targets() == old(Targets()) && committing == old(committing)
      ensures r == Done && outstanding == 0 ==>
                && !committing && n == 0 && DiskOk(layout, disk) && DecodeHead(disk[layout.start]) == []
                && forall b :: layout.Home(b) ==> disk[b] == if b in old(Targets()) then old(mem)[b] else old(disk)[b]
    {
      outstanding := outstanding - 1;
      if committing {
        return Panic;
      }
      r := Done;
      if outstanding == 0 {
        committing := true;
        ghost var d, m, t := disk, mem, Targets();
        Commit();
        Installed(d, m, t);
        committing := false;
      }
    }

    lemma Installed(d: Disk, m: Disk, t: seq<nat>)
      requires DiskOk(layout, d) && DecodeHead(d[layout.start]) == [] && |m| == |d| && TargetsOk(layout, t)
      requires disk == Apply(d, if |t| > 0 then CommitWrites(layout, m, t) else [])
      ensures DiskOk(layout, disk) && DecodeHead(disk[layout.start]) == []
      ensures forall b :: layout.Home(b) ==> disk[b] == if b in t then m[b] else d[b]
    {
      hide DecodeHead, CommitWrites;
      if |t| > 0 {
        CommitFinished(layout, d, m, t);
        forall b | layout.Home(b)
          ensures disk[b] == if b in t then m[b] else d[b]
        {
          assert Durable(layout, disk, b) == disk[b] == Committed(layout, d, m, t, b);
        }
      } else {
        assert Apply(d, []) == d;
      }
    }
  }

  lemma RestDistinct(t: seq<nat>, k: nat)
    requires Distinct(t) && k <= |t|
    ensures Distinct(t[k..])
  {
  }

  lemma Unpinned(t: seq<nat>, pins: seq<nat>)
    requires Distinct(t) && t != [] && t[0] < |pins|
    requires forall b :: 0 <= b < |pins| ==> pins[b] == if b in t then 1 else 0
    ensures pins[t[0]] == 1
    ensures forall b :: 0 <= b < |pins| ==> pins[t[0] := 0][b] == if b in t[1..] then 1 else 0
  {
    assert t == [t[0]] + t[1..];
    assert t[0] in t && t[0] !in t[1..];
  }

  /** After write_log and the header write the cached log area holds the
      transaction and the home blocks are untouched. */
  lemma AfterHead(l: Layout, m: Disk, t: seq<nat>)
    requires l.Ok() && |m| == l.nblocks && TargetsOk(l, t)
    ensures var e := Apply(m, LogCopies(l, m, t) + [Write(l.start, EncodeHead(m[l.start], t))]);
            && e[l.start] == EncodeHead(m[l.start], t)
            && forall i :: 0 <= i < |t| ==> e[l.start + 1 + i] == m[t[i]]
  {
    hide Apply, EncodeHead, Distinct;
    var ws := LogCopies(l, m, t) + [Write(l.start, EncodeHead(m[l.start], t))];
    assert forall i :: 0 <= i < |ws| ==> ws[i].blockno == if i < |t| then l.start + 1 + i else l.start;
    ApplyHit(m, ws, |t|);
    forall i | 0 <= i < |t|
      ensures Apply(m, ws)[l.start + 1 + i] == m[t[i]]
    {
      ApplyHit(m, ws, i);
    }
  }
}
