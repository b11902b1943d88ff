/** The buffer cache under the log: log_write pins one buffer for each block of the open
    transaction until it is installed, and processes hold references of their own.
    Exactly when bget can run out of buffers. */
module BcachePins {
  import opened Basics
  import opened Params
  import opened Bcache

  /** The pinned among the first n buffers. */
  ghost function Pinned(pins: seq<nat>, n: nat): set<nat>
    requires n <= |pins|
  {
    set i | 0 <= i < n && pins[i] > 0
  }

  /** References of processes to the first n buffers: a lock held counts as one. */
  ghost function Held(bs: seq<Buf>, claims: seq<nat>, n: nat): nat
    requires n <= |claims| && n <= |bs|
  {
    if n == 0 then 0 else Held(bs, claims, n - 1) + claims[n - 1] + (if bs[n - 1].locked then 1 else 0)
  }

  ghost function Taken(bs: seq<Buf>, n: nat): set<nat>
    requires n <= |bs|
  {
    set i | 0 <= i < n && bs[i].refcnt > 0
  }

  /** The log's pins: blocks t, each once, in the buffers that hold them, and no others. */
  ghost predicate LogPins(bs: seq<Buf>, pins: seq<nat>, dev: nat, t: seq<nat>)
    requires |bs| == NBUF + 1 && |pins| == NBUF
  {
    && Distinct(t)
    && (forall j :: 0 <= j < |t| ==> Addr(dev, t[j]) != NOWHERE && Cached(bs, Addr(dev, t[j])))
    && (forall i :: 0 <= i < NBUF ==> pins[i] == if Logs(bs[i].addr, dev, t) then 1 else 0)
  }

  ghost predicate Logs(a: Addr, dev: nat, t: seq<nat>) {
    a.dev == dev && a.blockno in t
  }

  // ---- counting ----

  lemma FewerPins(bs: seq<Buf>, pins: seq<nat>, dev: nat, t: seq<nat>, r: seq<nat>, b: nat, i: nat)
    requires |bs| == NBUF + 1 && |pins| == NBUF && Unique(bs) && LogPins(bs, pins, dev, t) && t == r + [b]
    requires i < NBUF && bs[i].addr == Addr(dev, b)
    ensures LogPins(bs, pins[i := 0], dev, r) && pins[i] == 1
  {
    hide Cached;
    assert t[|r|] == b && b in t;
    assert Distinct(r) && b !in r by {
      assert forall j :: 0 <= j < |r| ==> r[j] == t[j];
    }
    forall k | 0 <= k < NBUF
      ensures pins[i := 0][k] == if Logs(bs[k].addr, dev, r) then 1 else 0
    {
      assert bs[k].addr.blockno in t <==> bs[k].addr.blockno in r || bs[k].addr.blockno == b;
    }
    forall j | 0 <= j < |r|
      ensures Addr(dev, r[j]) != NOWHERE && Cached(bs, Addr(dev, r[j]))
    {
      assert r[j] == t[j];
    }
  }

  /** As many buffers are pinned as blocks are logged. */
  lemma {:induction false} PinnedAreLogged(bs: seq<Buf>, pins: seq<nat>, dev: nat, t: seq<nat>)
    requires |bs| == NBUF + 1 && |pins| == NBUF && Unique(bs) && LogPins(bs, pins, dev, t)
    ensures |Pinned(pins, NBUF)| == |t|
    decreases |t|
  {
    if t == [] {
      assert Pinned(pins, NBUF) == {};
    } else {
      hide Logs, Unique, Distinct;
      var b, r := t[|t| - 1], t[..|t| - 1];
      assert Cached(bs, Addr(dev, t[|t| - 1]));
      var i :| 0 <= i < NBUF && bs[i].addr == Addr(dev, b);
      FewerPins(bs, pins, dev, t, r, b, i);
      PinnedAreLogged(bs, pins[i := 0], dev, r);
      assert Pinned(pins, NBUF) == Pinned(pins[i := 0], NBUF) + {i};
    }
  }

  lemma OneMorePinned(pins: seq<nat>, n: nat)
    requires n < |pins|
    ensures |Pinned(pins, n + 1)| == |Pinned(pins, n)| + if pins[n] > 0 then 1 else 0
  {
    assert Pinned(pins, n + 1) == Pinned(pins, n) + if pins[n] > 0 then {n} else {};
  }

  lemma OneMoreTaken(bs: seq<Buf>, n: nat)
    requires n < |bs|
    ensures |Taken(bs, n + 1)| == |Taken(bs, n)| + if bs[n].refcnt > 0 then 1 else 0
  {
    assert Taken(bs, n + 1) == Taken(bs, n) + if bs[n].refcnt > 0 then {n} else {};
  }

  /** A referenced buffer is pinned, or some process has a reference to it. */
  lemma {:induction false} TakenBound(bs: seq<Buf>, pins: seq<nat>, claims: seq<nat>, n: nat)
    requires |bs| == NBUF + 1 && Counted(bs, pins, claims) && n <= NBUF
    ensures |Taken(bs, n)| <= |Pinned(pins, n)| + Held(bs, claims, n)
    decreases n
  {
    if n == 0 {
      assert Taken(bs, n) == {};
    } else {
      hide Taken, Pinned;
      TakenBound(bs, pins, claims, n - 1);
      OneMoreTaken(bs, n - 1);
      OneMorePinned(pins, n - 1);
    }
  }

  lemma {:induction false} AllTaken(bs: seq<Buf>, n: nat)
    requires n <= |bs|
    ensures |Taken(bs, n)| <= n
    ensures |Taken(bs, n)| == n <==> forall i :: 0 <= i < n ==> bs[i].refcnt > 0
    decreases n
  {
    if n == 0 {
      assert Taken(bs, n) == {};
    } else {
      hide Taken;
      AllTaken(bs, n - 1);
      OneMoreTaken(bs, n - 1);
    }
  }

  /** ENOUGH BUFFERS. While the logged blocks and the processes' references together are
      fewer than NBUF, some buffer is free: bget does not panic, whatever it is asked. */
  lemma EnoughBuffers(bs: seq<Buf>, pins: seq<nat>, claims: seq<nat>, dev: nat, t: seq<nat>)
    requires |bs| == NBUF + 1 && Counted(bs, pins, claims) && Unique(bs) && LogPins(bs, pins, dev, t)
    requires |t| + Held(bs, claims, NBUF) < NBUF
    ensures exists i :: 0 <= i < NBUF && bs[i].refcnt == 0
  {
    hide LogPins, Taken, Pinned;
    PinnedAreLogged(bs, pins, dev, t);
    TakenBound(bs, pins, claims, NBUF);
    AllTaken(bs, NBUF);
  }

  // ---- running dry ----

  /** The buffers in use hold blocks 1 to m of the device. */
  ghost predicate UpTo(bs: seq<Buf>, dev: nat, m: nat)
    requires |bs| == NBUF + 1
  {
    forall i :: 0 <= i < NBUF && bs[i].addr != NOWHERE ==> bs[i].addr.dev == dev && 1 <= bs[i].addr.blockno <= m
  }

  lemma NotYet(bs: seq<Buf>, dev: nat, m: nat)
    requires |bs| == NBUF + 1 && UpTo(bs, dev, m)
    ensures !Cached(bs, Addr(dev, m + 1))
  {
  }

  /** The effect of logging block b through buffer r on the log's pins. */
  lemma OneMorePin(bs: seq<Buf>, cs: seq<Buf>, pins: seq<nat>, claims: seq<nat>, dev: nat, t: seq<nat>, m: nat, r: nat)
    requires |bs| == |cs| == NBUF + 1 && Counted(bs, pins, claims) && LogPins(bs, pins, dev, t) && UpTo(bs, dev, m)
    requires r < NBUF && bs[r].refcnt == 0 && cs[r].addr == Addr(dev, m + 1)
    requires forall i :: 0 <= i < NBUF && i != r ==> cs[i].addr == bs[i].addr
    requires forall j :: 0 <= j < |t| ==> 1 <= t[j] <= m
    ensures LogPins(cs, pins[r := pins[r] + 1], dev, t + [m + 1]) && UpTo(cs, dev, m + 1)
  {
    var u := t + [m + 1];
    forall j | 0 <= j < |u|
      ensures Addr(dev, u[j]) != NOWHERE && Cached(cs, Addr(dev, u[j]))
    {
      if j < |t| {
        assert Cached(bs, Addr(dev, t[j]));
        var i :| 0 <= i < NBUF && bs[i].addr == Addr(dev, t[j]);
        assert Logs(bs[i].addr, dev, t) && i != r;
        assert cs[i].addr == Addr(dev, u[j]);
      }
    }
    forall i | 0 <= i < NBUF
      ensures pins[r := pins[r] + 1][i] == if Logs(cs[i].addr, dev, u) then 1 else 0
    {
      assert i != r ==> (Logs(cs[i].addr, dev, u) <==> Logs(bs[i].addr, dev, t));
      assert pins[r] == 0;
      assert u[|t|] == m + 1;
    }
  }

  ghost predicate NoneHeld(bs: seq<Buf>, claims: seq<nat>) {
    |bs| == NBUF + 1 && |claims| == NBUF && forall i :: 0 <= i < NBUF ==> claims[i] == 0 && !bs[i].locked
  }

  lemma {:induction false} HeldNone(bs: seq<Buf>, claims: seq<nat>, n: nat)
    requires NoneHeld(bs, claims) && n <= NBUF
    ensures Held(bs, claims, n) == 0
    decreases n
  {
    if n > 0 {
      HeldNone(bs, claims, n - 1);
    }
  }

  /** bread of a block that is not cached. */
  method ReadOne(c: Cache, a: Addr) returns (b: nat)
    requires c.Valid() && !Cached(c.buf[..], a) && exists i :: 0 <= i < NBUF && c.buf[i].refcnt == 0
    modifies c, c.buf
    ensures c.Valid() && b < NBUF && old(c.buf[b]).refcnt == 0 && c.claims == old(c.claims) && c.pins == old(c.pins)
    ensures c.buf[b].addr == a && c.buf[b].locked && c.buf[b].valid
    ensures forall i :: 0 <= i < NBUF && i != b ==> c.buf[i] == old(c.buf[i])
  {
    hide Linked, ByRelease, Coherent, Unique;
    var r := c.Bget(a);
    b := r.value;
    c.AcquireSleep(b);
    var data := c.Fill(b);
    assert c.claims == old(c.claims);
  }

  /** log_write and brelse of a buffer that is locked and new to the log. */
  method PinOne(c: Cache, b: nat)
    requires c.Valid() && b < NBUF && c.buf[b].locked
    modifies c, c.buf
    ensures c.Valid() && c.claims == old(c.claims) && c.pins == old(c.pins)[b := old(c.pins)[b] + 1]
    ensures !c.buf[b].locked
    ensures forall i :: 0 <= i < NBUF ==> c.buf[i].addr == old(c.buf[i]).addr
    ensures forall i :: 0 <= i < NBUF && i != b ==> c.buf[i].locked == old(c.buf[i]).locked
  {
    hide Linked, ByRelease, Coherent, Unique;
    c.Bpin(b);
    c.ReleaseSleep(b);
    c.Drop(b);
    assert c.claims == old(c.claims);
  }

  /** A process logs a block that is not cached. */
  method LogOne(c: Cache, dev: nat, m: nat, ghost t: seq<nat>)
    requires c.Valid() && LogPins(c.buf[..], c.pins, dev, t) && NoneHeld(c.buf[..], c.claims) && UpTo(c.buf[..], dev, m)
    requires |t| < NBUF && forall j :: 0 <= j < |t| ==> 1 <= t[j] <= m
    modifies c, c.buf
    ensures c.Valid() && LogPins(c.buf[..], c.pins, dev, t + [m + 1]) && NoneHeld(c.buf[..], c.claims)
    ensures UpTo(c.buf[..], dev, m + 1)
  {
    hide Linked, ByRelease, Coherent, Unique, LogPins, UpTo, Cached;
    ghost var bs, pins, claims := c.buf[..], c.pins, c.claims;
    HeldNone(bs, claims, NBUF);
    EnoughBuffers(bs, pins, claims, dev, t);
    NotYet(bs, dev, m);
    var b := ReadOne(c, Addr(dev, m + 1));
    PinOne(c, b);
    OneMorePin(bs, c.buf[..], pins, claims, dev, t, m, b);
  }

  /** Taking an unreferenced buffer for a block that is not logged leaves the pins. */
  lemma SamePins(bs: seq<Buf>, cs: seq<Buf>, pins: seq<nat>, claims: seq<nat>, dev: nat, t: seq<nat>, m: nat, r: nat)
    requires |bs| == |cs| == NBUF + 1 && Counted(bs, pins, claims) && LogPins(bs, pins, dev, t) && UpTo(bs, dev, m)
    requires r < NBUF && bs[r].refcnt == 0 && cs[r].addr == Addr(dev, m + 1)
    requires forall i :: 0 <= i < NBUF && i != r ==> cs[i].addr == bs[i].addr
    requires forall j :: 0 <= j < |t| ==> 1 <= t[j] <= m
    ensures LogPins(cs, pins, dev, t) && UpTo(cs, dev, m + 1)
  {
    forall j | 0 <= j < |t|
      ensures Cached(cs, Addr(dev, t[j]))
    {
      assert Cached(bs, Addr(dev, t[j]));
      var i :| 0 <= i < NBUF && bs[i].addr == Addr(dev, t[j]);
      assert Logs(bs[i].addr, dev, t) && i != r;
      assert cs[i].addr == Addr(dev, t[j]);
    }
  }

  lemma {:induction false} HeldMore(bs: seq<Buf>, cs: seq<Buf>, claims: seq<nat>, b: nat, n: nat)
    requires |bs| == |cs| == NBUF + 1 && |claims| == NBUF && n <= NBUF && b < NBUF
    requires forall i :: 0 <= i < NBUF ==> cs[i].locked == bs[i].locked
    ensures Held(cs, claims[b := claims[b] + 1], n) == Held(bs, claims, n) + if b < n then 1 else 0
    decreases n
  {
    if n > 0 {
      HeldMore(bs, cs, claims, b, n - 1);
    }
  }

  lemma TakenMore(bs: seq<Buf>, cs: seq<Buf>, b: nat)
    requires |bs| == |cs| == NBUF + 1 && b < NBUF && bs[b].refcnt == 0 && cs[b].refcnt > 0
    requires forall i :: 0 <= i < NBUF && i != b ==> cs[i].refcnt == bs[i].refcnt
    ensures |Taken(cs, NBUF)| == |Taken(bs, NBUF)| + 1
  {
    assert Taken(cs, NBUF) == Taken(bs, NBUF) + {b};
  }

  /** Another process gets as far as its reference to a block that is not cached. */
  method HoldOne(c: Cache, dev: nat, m: nat, ghost t: seq<nat>)
    requires c.Valid() && LogPins(c.buf[..], c.pins, dev, t) && UpTo(c.buf[..], dev, m)
    requires |Taken(c.buf[..], NBUF)| < NBUF && forall j :: 0 <= j < |t| ==> 1 <= t[j] <= m
    modifies c, c.buf
    ensures c.Valid() && LogPins(c.buf[..], c.pins, dev, t) && UpTo(c.buf[..], dev, m + 1)
    ensures Held(c.buf[..], c.claims, NBUF) == old(Held(c.buf[..], c.claims, NBUF)) + 1
    ensures |Taken(c.buf[..], NBUF)| == old(|Taken(c.buf[..], NBUF)|) + 1
  {
    hide Linked, ByRelease, Coherent, LogPins, UpTo, Cached, Held, Taken;
    ghost var bs, pins, claims := c.buf[..], c.pins, c.claims;
    AllTaken(bs, NBUF);
    NotYet(bs, dev, m);
    var r := c.Bget(Addr(dev, m + 1));
    SamePins(bs, c.buf[..], pins, claims, dev, t, m, r.value);
    HeldMore(bs, c.buf[..], claims, r.value, NBUF);
    TakenMore(bs, c.buf[..], r.value);
  }

  /** One more process waits for a block that is cached. */
  method HoldAgain(c: Cache, dev: nat, m: nat, ghost t: seq<nat>)
    requires c.Valid() && LogPins(c.buf[..], c.pins, dev, t) && UpTo(c.buf[..], dev, m)
    requires |Taken(c.buf[..], NBUF)| == NBUF
    modifies c, c.buf
    ensures c.Valid() && LogPins(c.buf[..], c.pins, dev, t) && UpTo(c.buf[..], dev, m)
    ensures Held(c.buf[..], c.claims, NBUF) == old(Held(c.buf[..], c.claims, NBUF)) + 1
    ensures |Taken(c.buf[..], NBUF)| == NBUF
  {
    hide Linked, ByRelease, Coherent, Held, Taken;
    ghost var bs, pins, claims := c.buf[..], c.pins, c.claims;
    AllTaken(bs, NBUF);
    assert bs[0].addr == c.buf[0].addr && Cached(bs, c.buf[0].addr);
    var r := c.Bget(c.buf[0].addr);
    CachedSame(bs, c.buf[..]);
    HeldMore(bs, c.buf[..], claims, r.value, NBUF);
    AllTaken(c.buf[..], NBUF);
  }

  /** With no process about, the referenced buffers are the pinned ones. */
  lemma StartTaken(bs: seq<Buf>, pins: seq<nat>, claims: seq<nat>, dev: nat, t: seq<nat>)
    requires |bs| == NBUF + 1 && Counted(bs, pins, claims) && Unique(bs) && LogPins(bs, pins, dev, t)
    requires NoneHeld(bs, claims)
    ensures |Taken(bs, NBUF)| == |t|
  {
    PinnedAreLogged(bs, pins, dev, t);
    assert Taken(bs, NBUF) == Pinned(pins, NBUF);
  }

  function Blocks(n: nat): (t: seq<nat>)
    ensures |t| == n && forall j :: 0 <= j < n ==> t[j] == j + 1
  {
    seq(n, j => j + 1)
  }

  /** Blocks 1 to n are logged, and k references are held by processes. */
  ghost predicate Loaded(c: Cache, dev: nat, n: nat, k: nat, m: nat)
    reads c, c.buf
  {
    && c.Valid() && c.buf.Length == NBUF + 1 && n <= m
    && LogPins(c.buf[..], c.pins, dev, Blocks(n)) && UpTo(c.buf[..], dev, m)
    && Held(c.buf[..], c.claims, NBUF) == k
  }

  method LogMany(dev: nat, n: nat) returns (c: Cache)
    requires n <= NBUF
    ensures fresh(c) && fresh(c.buf) && Loaded(c, dev, n, 0, n) && |Taken(c.buf[..], NBUF)| == n
  {
    hide Linked, ByRelease, Coherent, Unique, Held, Taken;
    c := new Cache(map[]);
    var m := 0;
    while m < n
      invariant 0 <= m <= n && fresh(c) && fresh(c.buf) && c.Valid()
      invariant LogPins(c.buf[..], c.pins, dev, Blocks(m)) && NoneHeld(c.buf[..], c.claims) && UpTo(c.buf[..], dev, m)
    {
      LogOne(c, dev, m, Blocks(m));
      assert Blocks(m) + [m + 1] == Blocks(m + 1);
      m := m + 1;
    }
    HeldNone(c.buf[..], c.claims, NBUF);
    StartTaken(c.buf[..], c.pins, c.claims, dev, Blocks(n));
  }

  /** Processes take the buffers that are left, and then wait for cached blocks. */
  method HoldMany(c: Cache, dev: nat, n: nat, k: nat) returns (m: nat)
    requires Loaded(c, dev, n, 0, n) && |Taken(c.buf[..], NBUF)| == n <= NBUF <= n + k
    modifies c, c.buf
    ensures Loaded(c, dev, n, k, m) && |Taken(c.buf[..], NBUF)| == NBUF
  {
    hide Cache.Valid, LogPins, UpTo, Held, Taken;
    m := n;
    ghost var held := 0;
    while m < NBUF
      invariant n <= m <= NBUF && held == m - n && Loaded(c, dev, n, held, m) && |Taken(c.buf[..], NBUF)| == m
    {
      HoldOne(c, dev, m, Blocks(n));
      m, held := m + 1, held + 1;
    }
    var more := 0;
    while more < n + k - NBUF
      invariant 0 <= more <= n + k - NBUF && Loaded(c, dev, n, held + more, m) && |Taken(c.buf[..], NBUF)| == NBUF
    {
      HoldAgain(c, dev, m, Blocks(n));
      more := more + 1;
    }
  }

  /** RUNNING DRY. EnoughBuffers is exact: with n blocks logged and k references held by
      processes, n + k at least NBUF, the cache's own operations lead to a state in which
      bget panics for a block that is not cached. For n == NBUF the log has to be longer
      than mkfs makes it: there log_write takes NLOG - 1 blocks, one fewer than NBUF. */
  method RunDry(dev: nat, n: nat, k: nat) returns (c: Cache, r: Option<nat>)
    requires n <= NBUF <= n + k
    ensures fresh(c) && c.Valid() && r.None?
    ensures LogPins(c.buf[..], c.pins, dev, Blocks(n)) && Held(c.buf[..], c.claims, NBUF) == k
  {
    hide Linked, ByRelease, Coherent, Unique, LogPins, UpTo, Held, Taken, Cached;
    c := LogMany(dev, n);
    var m := HoldMany(c, dev, n, k);
    AllTaken(c.buf[..], NBUF);
    NotYet(c.buf[..], dev, m);
    r := c.Bget(Addr(dev, m + 1));
  }
}
