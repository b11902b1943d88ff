/** The buffer cache (kernel/bio.c): NBUF buffers on a circular doubly linked
    list through their prev and next fields, with reference counts, pins and a
    sleep lock per buffer. Each method is one critical section of the kernel
    code, so its contract holds whatever other processes do in between. */
module Bcache {
  import opened Basics
  import opened Params

  type Contents = seq<nat>
  datatype Addr = Addr(dev: nat, blockno: nat)
  /** struct buf; prev and next are indices into bcache.buf, NBUF being
      bcache.head. */
  datatype Buf = Buf(addr: Addr, valid: bool, refcnt: nat, locked: bool,
                     prev: nat, next: nat, data: Contents)

  // binit leaves every buffer claiming this address.
  const NOWHERE: Addr := Addr(0, 0)

  // ---- the list ----

  /** The k-th node of the circle whose members, from the head on, are o. */
  function At(o: seq<nat>, k: int): (i: nat) {
    if 0 <= k < |o| then o[k] else NBUF
  }

  ghost predicate Linked(bs: seq<Buf>, o: seq<nat>) {
    && |bs| == NBUF + 1
    && (forall k :: 0 <= k < |o| ==> o[k] < NBUF)
    && (forall j, k :: 0 <= j < k < |o| ==> o[j] != o[k])
    && (forall k :: -1 <= k < |o| ==> bs[At(o, k)].next == At(o, k + 1))
    && (forall k :: 0 <= k <= |o| ==> bs[At(o, k)].prev == At(o, k - 1))
  }

  function Without(o: seq<nat>, k: nat): (r: seq<nat>)
    requires k < |o|
  {
    o[..k] + o[k + 1..]
  }

  /** b->next->prev = b->prev; b->prev->next = b->next */
  function Unlink(bs: seq<Buf>, b: nat): (r: seq<Buf>)
    requires |bs| == NBUF + 1 && b < NBUF && bs[b].next <= NBUF && bs[b].prev <= NBUF
    ensures |r| == |bs|
  {
    var x := bs[bs[b].next := bs[bs[b].next].(prev := bs[b].prev)];
    x[x[b].prev := x[x[b].prev].(next := x[b].next)]
  }

  /** b->next = head.next; b->prev = &head; head.next->prev = b; head.next = b */
  function PushFront(bs: seq<Buf>, b: nat): (r: seq<Buf>)
    requires |bs| == NBUF + 1 && b < NBUF && bs[NBUF].next <= NBUF
    ensures |r| == |bs|
  {
    var x := bs[b := bs[b].(next := bs[NBUF].next, prev := NBUF)];
    var y := x[x[NBUF].next := x[x[NBUF].next].(prev := b)];
    y[NBUF := y[NBUF].(next := b)]
  }

  /** Everything but the links of a buffer is as before. */
  ghost predicate SameButLinks(bs: seq<Buf>, cs: seq<Buf>) {
    && |bs| == |cs|
    && forall i :: 0 <= i < |bs| ==> cs[i] == bs[i].(prev := cs[i].prev, next := cs[i].next)
  }

  lemma UnlinkNext(bs: seq<Buf>, o: seq<nat>, k: nat, j: int)
    requires Linked(bs, o) && k < |o| && -1 <= j < |o| - 1 && bs[o[k]].next <= NBUF && bs[o[k]].prev <= NBUF
    ensures Unlink(bs, o[k])[At(Without(o, k), j)].next == At(Without(o, k), j + 1)
  {
    var b, p := o[k], Without(o, k);
    assert At(o, k) == b;
    assert bs[b].next == At(o, k + 1) && bs[b].prev == At(o, k - 1);
    var j0 := if j < k then j else j + 1;
    assert At(p, j) == At(o, j0);
    assert bs[At(o, j0)].next == At(o, j0 + 1);
  }

  lemma UnlinkPrev(bs: seq<Buf>, o: seq<nat>, k: nat, j: int)
    requires Linked(bs, o) && k < |o| && 0 <= j <= |o| - 1 && bs[o[k]].next <= NBUF && bs[o[k]].prev <= NBUF
    ensures Unlink(bs, o[k])[At(Without(o, k), j)].prev == At(Without(o, k), j - 1)
  {
    var b, p := o[k], Without(o, k);
    assert At(o, k) == b;
    assert bs[b].next == At(o, k + 1) && bs[b].prev == At(o, k - 1);
    var j0 := if j < k then j else j + 1;
    assert At(p, j) == At(o, j0);
    assert bs[At(o, j0)].prev == At(o, j0 - 1);
  }

  lemma UnlinkFields(bs: seq<Buf>, o: seq<nat>, k: nat)
    requires Linked(bs, o) && k < |o|
    ensures bs[o[k]].next <= NBUF && bs[o[k]].prev <= NBUF
    ensures SameButLinks(bs, Unlink(bs, o[k]))
  {
    var b := o[k];
    assert At(o, k) == b;
    assert bs[b].next == At(o, k + 1) && bs[b].prev == At(o, k - 1);
  }

  lemma UnlinkKeeps(bs: seq<Buf>, o: seq<nat>, k: nat)
    requires Linked(bs, o) && k < |o|
    ensures bs[o[k]].next <= NBUF && bs[o[k]].prev <= NBUF
    ensures Linked(Unlink(bs, o[k]), Without(o, k))
    ensures SameButLinks(bs, Unlink(bs, o[k]))
  {
    hide Unlink, SameButLinks;
    UnlinkFields(bs, o, k);
    var r, p := Unlink(bs, o[k]), Without(o, k);
    forall j | -1 <= j < |p|
      ensures r[At(p, j)].next == At(p, j + 1)
    {
      UnlinkNext(bs, o, k, j);
    }
    forall j | 0 <= j <= |p|
      ensures r[At(p, j)].prev == At(p, j - 1)
    {
      UnlinkPrev(bs, o, k, j);
    }
  }

  lemma PushFrontKeeps(bs: seq<Buf>, o: seq<nat>, b: nat)
    requires Linked(bs, o) && b < NBUF && b !in o
    ensures bs[NBUF].next <= NBUF
    ensures Linked(PushFront(bs, b), [b] + o)
    ensures SameButLinks(bs, PushFront(bs, b))
  {
    assert At(o, -1) == NBUF;
    assert bs[NBUF].next == At(o, 0);
    var r, p := PushFront(bs, b), [b] + o;
    forall j | -1 <= j < |p|
      ensures r[At(p, j)].next == At(p, j + 1)
    {
      if j > 0 {
        assert At(p, j) == At(o, j - 1);
        assert bs[At(o, j - 1)].next == At(o, j);
      }
    }
    forall j | 0 <= j <= |p|
      ensures r[At(p, j)].prev == At(p, j - 1)
    {
      if j > 0 {
        assert At(p, j) == At(o, j - 1);
        assert bs[At(o, j - 1)].prev == At(o, j - 2);
      }
    }
  }

  // ---- what the cache promises ----

  function Get(m: map<Addr, Contents>, a: Addr): Contents {
    if a in m then m[a] else []
  }

  /** No two buffers hold the same block, apart from the never used ones. */
  ghost predicate Unique(bs: seq<Buf>)
    requires |bs| == NBUF + 1
  {
    forall i, j :: 0 <= i < j < NBUF && bs[i].addr == bs[j].addr ==> bs[i].addr == NOWHERE
  }

  /** refcnt is the pins, the references without the lock, and the lock holder. */
  ghost predicate Counted(bs: seq<Buf>, pins: seq<nat>, claims: seq<nat>)
    requires |bs| == NBUF + 1
  {
    && |pins| == |claims| == NBUF
    && forall i :: 0 <= i < NBUF ==> bs[i].refcnt == pins[i] + claims[i] + if bs[i].locked then 1 else 0
  }

  ghost predicate Kept(b: Buf, pins: nat) {
    b.locked || pins > 0
  }

  /** The flat map `logical` is what the cache stands for: a valid buffer holds
      it; the disk holds it too except for valid buffers in use or pinned. */
  ghost predicate Coherent(bs: seq<Buf>, pins: seq<nat>, disk: map<Addr, Contents>, logical: map<Addr, Contents>)
    requires |bs| == NBUF + 1 && |pins| == NBUF
  {
    && (forall i :: 0 <= i < NBUF && bs[i].addr != NOWHERE && bs[i].valid ==>
          bs[i].data == Get(logical, bs[i].addr))
    && (forall i :: 0 <= i < NBUF && bs[i].addr != NOWHERE && !(bs[i].valid && Kept(bs[i], pins[i])) ==>
          Get(disk, bs[i].addr) == Get(logical, bs[i].addr))
    && (forall a :: a != NOWHERE && !Cached(bs, a) ==> Get(disk, a) == Get(logical, a))
  }

  ghost predicate Cached(bs: seq<Buf>, a: Addr)
    requires |bs| == NBUF + 1
  {
    exists i :: 0 <= i < NBUF && bs[i].addr == a
  }

  /** From the head on, the list is in order of last full release, latest first. */
  ghost predicate ByRelease(o: seq<nat>, stamp: seq<nat>, now: nat)
  {
    && |stamp| == NBUF
    && (forall k :: 0 <= k < |o| ==> o[k] < NBUF)
    && (forall i :: 0 <= i < NBUF ==> stamp[i] < now)
    && (forall j, k :: 0 <= j < k < |o| ==> stamp[o[j]] > stamp[o[k]])
  }

  /** Taking an unreferenced buffer for another block loses nothing. */
  lemma RecycleKeeps(bs: seq<Buf>, pins: seq<nat>, claims: seq<nat>,
                     disk: map<Addr, Contents>, logical: map<Addr, Contents>, i: nat, a: Addr)
    requires |bs| == NBUF + 1 && Counted(bs, pins, claims) && Unique(bs) && Coherent(bs, pins, disk, logical)
    requires i < NBUF && bs[i].refcnt == 0 && !Cached(bs, a)
    ensures var cs := bs[i := bs[i].(addr := a, valid := false, refcnt := 1)];
            && Counted(cs, pins, claims[i := 1]) && Unique(cs) && Coherent(cs, pins, disk, logical)
  {
    var cs := bs[i := bs[i].(addr := a, valid := false, refcnt := 1)];
    forall b | b != NOWHERE && !Cached(cs, b)
      ensures Get(disk, b) == Get(logical, b)
    {
      if bs[i].addr != b {
        assert forall j :: 0 <= j < NBUF && bs[j].addr == b ==> cs[j].addr == b;
      }
    }
  }

  /** Changing counts or locks of one buffer keeps the rest, as long as a buffer
      given up is clean. */
  lemma RecountKeeps(bs: seq<Buf>, pins: seq<nat>, pins': seq<nat>,
                     disk: map<Addr, Contents>, logical: map<Addr, Contents>, i: nat, b: Buf)
    requires |bs| == NBUF + 1 && |pins| == |pins'| == NBUF && i < NBUF
    requires Unique(bs) && Coherent(bs, pins, disk, logical)
    requires b.addr == bs[i].addr && b.valid == bs[i].valid && b.data == bs[i].data
    requires forall j :: 0 <= j < NBUF && j != i ==> pins'[j] == pins[j]
    requires Kept(b, pins'[i]) || Get(disk, b.addr) == Get(logical, b.addr) || b.addr == NOWHERE
    ensures Unique(bs[i := b]) && Coherent(bs[i := b], pins', disk, logical)
  {
    var cs := bs[i := b];
    forall a | Cached(bs, a)
      ensures Cached(cs, a)
    {
      var j :| 0 <= j < NBUF && bs[j].addr == a;
      assert cs[j].addr == a;
    }
  }

  /** Linked looks at links only. */
  lemma LinkedSame(bs: seq<Buf>, cs: seq<Buf>, o: seq<nat>)
    requires Linked(bs, o) && |cs| == |bs|
    requires forall i :: 0 <= i < |bs| ==> cs[i].prev == bs[i].prev && cs[i].next == bs[i].next
    ensures Linked(cs, o)
  {
  }

  /** p is o with its member b moved to the front. */
  ghost predicate Fronted(o: seq<nat>, b: nat, p: seq<nat>) {
    exists k :: 0 <= k < |o| && o[k] == b && p == [b] + Without(o, k)
  }

  class Cache {
    const buf: array<Buf>
    var disk: map<Addr, Contents>
    ghost var order: seq<nat>    // list members from head.next to head.prev
    ghost var pins: seq<nat>
    ghost var claims: seq<nat>   // references held by processes not holding the sleep lock
    ghost var stamp: seq<nat>    // time of each buffer's last full release
    ghost var now: nat
    ghost var logical: map<Addr, Contents>

    /** The list, the counts and the order are right, whatever the buffers hold. */
    ghost predicate Framed()
      reads this, buf
    {
      && buf.Length == NBUF + 1
      && Linked(buf[..], order)
      && (forall i :: 0 <= i < NBUF ==> i in order)
      && Unique(buf[..])
      && Counted(buf[..], pins, claims)
      && ByRelease(order, stamp, now)
    }

    ghost predicate Valid()
      reads this, buf
    {
      Framed() && Coherent(buf[..], pins, disk, logical)
    }

    /** Buffer b can do without a holder and a pin: what it holds is on disk. */
    ghost predicate Clean(b: nat)
      reads this, buf
      requires b < buf.Length
    {
      buf[b].addr == NOWHERE || !buf[b].valid || buf[b].data == Get(disk, buf[b].addr)
    }

    constructor (d: map<Addr, Contents>)
      ensures Valid() && fresh(buf) && disk == d && logical == d
      ensures forall i :: 0 <= i < NBUF ==> buf[i].addr == NOWHERE && !buf[i].valid && buf[i].refcnt == 0
    {
      buf := new Buf[NBUF + 1](_ => Buf(NOWHERE, false, 0, false, NBUF, NBUF, []));
      disk, logical := d, d;
      order := [];
      pins, claims := seq(NBUF, _ => 0), seq(NBUF, _ => 0);
      stamp := seq(NBUF, i => i);
      now := NBUF;
      new;
      var b := 0;
      while b < NBUF
        invariant 0 <= b <= NBUF && fresh(buf)
        invariant Linked(buf[..], order) && |order| == b
        invariant forall k :: 0 <= k < b ==> order[k] == b - 1 - k
        invariant forall i :: 0 <= i < NBUF ==> buf[i].addr == NOWHERE && !buf[i].valid && buf[i].refcnt == 0 && !buf[i].locked
        invariant disk == d && logical == d && stamp == seq(NBUF, i => i) && now == NBUF
        invariant pins == seq(NBUF, _ => 0) && claims == seq(NBUF, _ => 0)
      {
        Insert(b);
        b := b + 1;
      }
      forall i | 0 <= i < NBUF
        ensures i in order
      {
        assert order[NBUF - 1 - i] == i;
      }
    }

    /** Put buffer b, which is off the list, right behind the head. */
    method Insert(b: nat)
      requires buf.Length == NBUF + 1 && Linked(buf[..], order) && b < NBUF && b !in order
      modifies buf, `order
      ensures Linked(buf[..], [b] + old(order)) && order == [b] + old(order)
      ensures SameButLinks(old(buf[..]), buf[..])
    {
      PushFrontKeeps(buf[..], order, b);
      ghost var was := buf[..];
      buf[b] := buf[b].(next := buf[NBUF].next, prev := NBUF);
      buf[buf[NBUF].next] := buf[buf[NBUF].next].(prev := b);
      buf[NBUF] := buf[NBUF].(next := b);
      assert buf[..] == PushFront(was, b);
      order := [b] + order;
    }

    /** bget's first loop: the buffer holding a, or NBUF. */
    method Lookup(a: Addr) returns (b: nat)
      requires buf.Length == NBUF + 1 && Linked(buf[..], order) && forall i :: 0 <= i < NBUF ==> i in order
      ensures b <= NBUF
      ensures b == NBUF <==> !Cached(buf[..], a)
      ensures b < NBUF ==> buf[b].addr == a
    {
      assert At(order, -1) == NBUF;
      b := buf[NBUF].next;
      ghost var k := 0;
      while b != NBUF && buf[b].addr != a
        invariant 0 <= k <= |order| && b == At(order, k)
        invariant forall j :: 0 <= j < k ==> buf[order[j]].addr != a
        decreases |order| - k
      {
        assert buf[At(order, k)].next == At(order, k + 1);
        b := buf[b].next;
        k := k + 1;
      }
      if b == NBUF {
        forall i | 0 <= i < NBUF
          ensures buf[i].addr != a
        {
          assert i in order;
        }
      } else {
        assert buf[..][b].addr == a;
      }
    }

    /** bget's second loop: the least recently released unreferenced buffer, or
        NBUF when every buffer is referenced. */
    method Victim() returns (b: nat)
      requires buf.Length == NBUF + 1 && Linked(buf[..], order) && forall i :: 0 <= i < NBUF ==> i in order
      requires ByRelease(order, stamp, now)
      ensures b <= NBUF
      ensures b == NBUF <==> forall i :: 0 <= i < NBUF ==> buf[i].refcnt > 0
      ensures b < NBUF ==> buf[b].refcnt == 0 &&
                           forall j :: 0 <= j < NBUF && buf[j].refcnt == 0 ==> stamp[b] <= stamp[j]
    {
      assert At(order, |order|) == NBUF;
      b := buf[NBUF].prev;
      ghost var k := |order| - 1;
      while b != NBUF && buf[b].refcnt != 0
        invariant -1 <= k < |order| && b == At(order, k)
        invariant forall j :: k < j < |order| ==> buf[order[j]].refcnt > 0
        decreases k
      {
        assert buf[At(order, k)].prev == At(order, k - 1);
        b := buf[b].prev;
        k := k - 1;
      }
      if b == NBUF {
        forall i | 0 <= i < NBUF
          ensures buf[i].refcnt > 0
        {
          assert i in order;
        }
      } else {
        LeastRecent(order, stamp, now, buf[..], k);
      }
    }

    /** bget's critical section: the cached buffer of the block, else the least
        recently released unreferenced one, recycled; None is the panic. */
    method Bget(a: Addr) returns (r: Option<nat>)
      requires Valid()
      modifies buf, `claims
      ensures Valid()
      ensures r.None? <==> !Cached(old(buf[..]), a) && forall i :: 0 <= i < NBUF ==> old(buf[i].refcnt) > 0
      ensures r.None? ==> buf[..] == old(buf[..]) && claims == old(claims)
      ensures r.Some? ==> r.value < NBUF && claims == old(claims)[r.value := old(claims)[r.value] + 1]
      ensures r.Some? && Cached(old(buf[..]), a) ==>
                && old(buf[r.value]).addr == a
                && buf[..] == old(buf[..])[r.value := old(buf[r.value]).(refcnt := old(buf[r.value]).refcnt + 1)]
      ensures r.Some? && !Cached(old(buf[..]), a) ==>
                && old(buf[r.value]).refcnt == 0
                && buf[..] == old(buf[..])[r.value := old(buf[r.value]).(addr := a, valid := false, refcnt := 1)]
                && forall j :: 0 <= j < NBUF && old(buf[j].refcnt) == 0 ==> stamp[r.value] <= stamp[j]
      ensures forall i :: 0 <= i < NBUF && (pins[i] > 0 || old(buf[i]).locked) ==>
                buf[i].addr == old(buf[i]).addr && buf[i].data == old(buf[i]).data && buf[i].valid == old(buf[i]).valid
    {
      hide Linked, Coherent, Unique, ByRelease;
      var b := Lookup(a);
      if b != NBUF {
        Claim(b);
        return Some(b);
      }
      b := Victim();
      if b == NBUF {
        return None;
      }
      Recycle(b, a);
      r := Some(b);
    }

    method Claim(b: nat)
      requires Valid() && b < NBUF
      modifies buf, `claims
      ensures Valid() && claims == old(claims)[b := old(claims)[b] + 1]
      ensures buf[..] == old(buf[..])[b := old(buf[b]).(refcnt := old(buf[b]).refcnt + 1)]
    {
      ghost var was := buf[..];
      buf[b] := buf[b].(refcnt := buf[b].refcnt + 1);
      claims := claims[b := claims[b] + 1];
      Recounted(was, pins, b);
    }

    method Recycle(b: nat, a: Addr)
      requires Valid() && b < NBUF && buf[b].refcnt == 0 && !Cached(buf[..], a)
      modifies buf, `claims
      ensures Valid() && claims == old(claims)[b := old(claims)[b] + 1]
      ensures buf[..] == old(buf[..])[b := old(buf[b]).(addr := a, valid := false, refcnt := 1)]
    {
      ghost var was := buf[..];
      RecycleKeeps(was, pins, claims, disk, logical, b, a);
      buf[b] := buf[b].(addr := a, valid := false, refcnt := 1);
      claims := claims[b := claims[b] + 1];
      assert buf[..] == was[b := was[b].(addr := a, valid := false, refcnt := 1)];
      LinkedSame(was, buf[..], order);
    }

    /** acquiresleep by a process that bget gave a reference to b. */
    method AcquireSleep(b: nat)
      requires Valid() && b < NBUF && claims[b] > 0 && !buf[b].locked
      modifies buf, `claims
      ensures Valid() && buf[..] == old(buf[..])[b := old(buf[b]).(locked := true)]
      ensures claims == old(claims)[b := old(claims)[b] - 1]
    {
      ghost var was := buf[..];
      buf[b] := buf[b].(locked := true);
      claims := claims[b := claims[b] - 1];
      Recounted(was, pins, b);
    }

    /** The rest of bread: the caller gets what was last stored to the block. */
    method Fill(b: nat) returns (data: Contents)
      requires Valid() && b < NBUF && buf[b].locked
      modifies buf
      ensures Valid() && buf[b].valid && data == buf[b].data
      ensures buf[b].addr != NOWHERE ==> data == Get(logical, buf[b].addr)
      ensures buf[..] == old(buf[..])[b := old(buf[b]).(valid := true, data := data)]
    {
      ghost var was := buf[..];
      if !buf[b].valid {
        buf[b] := buf[b].(data := Get(disk, buf[b].addr), valid := true);
      }
      data := buf[b].data;
      assert buf[..] == was[b := was[b].(valid := true, data := data)];
      LinkedSame(was, buf[..], order);
      FillKeeps(was, pins, disk, logical, b, data);
    }

    /** The lock holder changes the buffer's contents. */
    method Store(b: nat, data: Contents)
      requires Valid() && b < NBUF && buf[b].locked && buf[b].valid
      modifies buf, `logical
      ensures Valid() && buf[..] == old(buf[..])[b := old(buf[b]).(data := data)]
      ensures logical == old(logical)[old(buf[b]).addr := data]
    {
      ghost var was := buf[..];
      buf[b] := buf[b].(data := data);
      assert buf[..] == was[b := was[b].(data := data)];
      LinkedSame(was, buf[..], order);
      StoreKeeps(was, pins, disk, logical, b, data);
      logical := logical[was[b].addr := data];
    }

    method Bwrite(b: nat)
      requires Valid() && b < NBUF && buf[b].locked && buf[b].valid
      modifies `disk
      ensures Valid() && disk == old(disk)[buf[b].addr := buf[b].data]
    {
      BwriteKeeps(buf[..], pins, disk, logical, b);
      disk := disk[buf[b].addr := buf[b].data];
    }

    /** brelse up to releasesleep. The cache still stands for its flat map exactly if a
        modified buffer has been written to disk, or pinned by log_write. */
    method ReleaseSleep(b: nat)
      requires Valid() && b < NBUF && buf[b].locked
      modifies buf, `claims
      ensures Framed() && (Valid() <==> old(Clean(b)) || pins[b] > 0)
      ensures buf[..] == old(buf[..])[b := old(buf[b]).(locked := false)]
      ensures claims == old(claims)[b := old(claims)[b] + 1]
    {
      ghost var was := buf[..];
      buf[b] := buf[b].(locked := false);
      claims := claims[b := claims[b] + 1];
      LetGo(was, pins, b);
    }

    /** brelse's critical section: the last reference moves the buffer to the
        front of the list. */
    method Drop(b: nat)
      requires Valid() && b < NBUF && claims[b] > 0
      modifies buf, `claims, `order, `stamp, `now
      ensures Valid() && claims == old(claims)[b := old(claims)[b] - 1]
      ensures SameButLinks(old(buf[..])[b := old(buf[b]).(refcnt := old(buf[b]).refcnt - 1)], buf[..])
      ensures old(buf[b]).refcnt > 1 ==> order == old(order) && stamp == old(stamp)
      ensures old(buf[b]).refcnt == 1 ==> Fronted(old(order), b, order) && stamp == old(stamp)[b := old(now)]
    {
      ghost var was := buf[..];
      buf[b] := buf[b].(refcnt := buf[b].refcnt - 1);
      claims := claims[b := claims[b] - 1];
      Recounted(was, pins, b);
      if buf[b].refcnt == 0 {
        MoveToFront(b);
      }
    }

    /** Take the k-th buffer off the list. */
    method Remove(b: nat, ghost k: nat)
      requires buf.Length == NBUF + 1 && Linked(buf[..], order) && k < |order| && order[k] == b
      modifies buf, `order
      ensures Linked(buf[..], Without(old(order), k)) && order == Without(old(order), k)
      ensures SameButLinks(old(buf[..]), buf[..])
    {
      ghost var was := buf[..];
      UnlinkKeeps(was, order, k);
      buf[buf[b].next] := buf[buf[b].next].(prev := buf[b].prev);
      buf[buf[b].prev] := buf[buf[b].prev].(next := buf[b].next);
      assert buf[..] == Unlink(was, b);
      order := Without(order, k);
    }

    method MoveToFront(b: nat)
      requires Valid() && b < NBUF
      modifies buf, `order, `stamp, `now
      ensures Valid() && SameButLinks(old(buf[..]), buf[..])
      ensures Fronted(old(order), b, order) && stamp == old(stamp)[b := old(now)]
    {
      ghost var was, o := buf[..], order;
      assert b in order;
      ghost var k :| 0 <= k < |order| && order[k] == b;
      FrontKeeps(order, stamp, now, k);
      Remove(b, k);
      Insert(b);
      stamp, now := stamp[b := now], now + 1;
      LinksOnly(was, buf[..], pins, claims, disk, logical);
      assert Without(o, k) == o[..k] + o[k + 1..];
    }

    method Bpin(b: nat)
      requires Valid() && b < NBUF
      modifies buf, `pins
      ensures Valid() && buf[..] == old(buf[..])[b := old(buf[b]).(refcnt := old(buf[b]).refcnt + 1)]
      ensures pins == old(pins)[b := old(pins)[b] + 1]
    {
      ghost var was, waspins := buf[..], pins;
      buf[b] := buf[b].(refcnt := buf[b].refcnt + 1);
      pins := pins[b := pins[b] + 1];
      Recounted(was, waspins, b);
    }

    /** bunpin. The cache still stands for its flat map exactly if the block has been
        installed, or the buffer is locked or pinned once more. */
    method Bunpin(b: nat)
      requires Valid() && b < NBUF && pins[b] > 0
      modifies buf, `pins
      ensures Framed() && (Valid() <==> old(Clean(b)) || buf[b].locked || pins[b] > 0)
      ensures buf[..] == old(buf[..])[b := old(buf[b]).(refcnt := old(buf[b]).refcnt - 1)]
      ensures pins == old(pins)[b := old(pins)[b] - 1]
    {
      ghost var was, waspins := buf[..], pins;
      buf[b] := buf[b].(refcnt := buf[b].refcnt - 1);
      pins := pins[b := pins[b] - 1];
      LetGo(was, waspins, b);
    }

    /** Only counts and the lock of buffer b have changed since `was`, when all was well:
        it still is exactly if b is held or pinned, or clean. */
    lemma LetGo(was: seq<Buf>, waspins: seq<nat>, b: nat)
      requires buf.Length == NBUF + 1 == |was| && |waspins| == |pins| == NBUF && b < NBUF
      requires Linked(was, order) && Unique(was) && Coherent(was, waspins, disk, logical)
      requires buf[..] == was[b := buf[b]]
      requires buf[b] == was[b].(refcnt := buf[b].refcnt, locked := buf[b].locked)
      requires forall j :: 0 <= j < NBUF && j != b ==> pins[j] == waspins[j]
      requires Kept(was[b], waspins[b])
      ensures Linked(buf[..], order) && Unique(buf[..])
      ensures Coherent(buf[..], pins, disk, logical) <==> Kept(buf[b], pins[b]) || Clean(b)
    {
      LinkedSame(was, buf[..], order);
      if Kept(buf[b], pins[b]) || Clean(b) {
        RecountKeeps(was, waspins, pins, disk, logical, b, buf[b]);
      }
    }

    /** Only counts and the lock of buffer b have changed since `was`. */
    lemma Recounted(was: seq<Buf>, waspins: seq<nat>, b: nat)
      requires buf.Length == NBUF + 1 == |was| && |waspins| == |pins| == NBUF && b < NBUF
      requires Linked(was, order) && Unique(was) && Coherent(was, waspins, disk, logical)
      requires buf[..] == was[b := buf[b]]
      requires buf[b] == was[b].(refcnt := buf[b].refcnt, locked := buf[b].locked)
      requires forall j :: 0 <= j < NBUF && j != b ==> pins[j] == waspins[j]
      requires Kept(buf[b], pins[b]) || buf[b].addr == NOWHERE
               || Get(disk, buf[b].addr) == Get(logical, buf[b].addr)
      ensures Linked(buf[..], order) && Unique(buf[..]) && Coherent(buf[..], pins, disk, logical)
    {
      LinkedSame(was, buf[..], order);
      RecountKeeps(was, waspins, pins, disk, logical, b, buf[b]);
    }
  }

  lemma CachedSame(bs: seq<Buf>, cs: seq<Buf>)
    requires |bs| == |cs| == NBUF + 1
    requires forall i :: 0 <= i < NBUF ==> cs[i].addr == bs[i].addr
    ensures forall a :: Cached(cs, a) <==> Cached(bs, a)
  {
    forall a
      ensures Cached(cs, a) <==> Cached(bs, a)
    {
      assert forall i :: 0 <= i < NBUF ==> (cs[i].addr == a <==> bs[i].addr == a);
    }
  }

  lemma FillKeeps(bs: seq<Buf>, pins: seq<nat>, disk: map<Addr, Contents>, logical: map<Addr, Contents>,
                  i: nat, data: Contents)
    requires |bs| == NBUF + 1 && |pins| == NBUF && i < NBUF && bs[i].locked
    requires Unique(bs) && Coherent(bs, pins, disk, logical)
    requires data == if bs[i].valid then bs[i].data else Get(disk, bs[i].addr)
    ensures bs[i].addr != NOWHERE ==> data == Get(logical, bs[i].addr)
    ensures var cs := bs[i := bs[i].(valid := true, data := data)];
            Unique(cs) && Coherent(cs, pins, disk, logical)
  {
    CachedSame(bs, bs[i := bs[i].(valid := true, data := data)]);
  }

  lemma StoreKeeps(bs: seq<Buf>, pins: seq<nat>, disk: map<Addr, Contents>, logical: map<Addr, Contents>,
                   i: nat, data: Contents)
    requires |bs| == NBUF + 1 && |pins| == NBUF && i < NBUF && bs[i].locked && bs[i].valid
    requires Unique(bs) && Coherent(bs, pins, disk, logical)
    ensures var cs := bs[i := bs[i].(data := data)];
            Unique(cs) && Coherent(cs, pins, disk, logical[bs[i].addr := data])
  {
    CachedSame(bs, bs[i := bs[i].(data := data)]);
    assert Cached(bs, bs[i].addr);
  }

  lemma BwriteKeeps(bs: seq<Buf>, pins: seq<nat>, disk: map<Addr, Contents>, logical: map<Addr, Contents>, i: nat)
    requires |bs| == NBUF + 1 && |pins| == NBUF && i < NBUF && bs[i].locked && bs[i].valid
    requires Unique(bs) && Coherent(bs, pins, disk, logical)
    ensures Coherent(bs, pins, disk[bs[i].addr := bs[i].data], logical)
  {
  }

  /** Moving the k-th member to the front and stamping it now keeps the order. */
  lemma FrontKeeps(o: seq<nat>, stamp: seq<nat>, now: nat, k: nat)
    requires ByRelease(o, stamp, now) && k < |o|
    requires forall i, j :: 0 <= i < j < |o| ==> o[i] != o[j]
    requires forall i :: 0 <= i < NBUF ==> i in o
    ensures o[k] !in Without(o, k)
    ensures ByRelease([o[k]] + Without(o, k), stamp[o[k] := now], now + 1)
    ensures forall i :: 0 <= i < NBUF ==> i in [o[k]] + Without(o, k)
  {
    var p := [o[k]] + Without(o, k);
    forall i | 0 <= i < NBUF
      ensures i in p
    {
      assert i in o;
      var j :| 0 <= j < |o| && o[j] == i;
      assert p[if j < k then j + 1 else if j == k then 0 else j] == i;
    }
  }

  lemma LinksOnly(bs: seq<Buf>, cs: seq<Buf>, pins: seq<nat>, claims: seq<nat>,
                  disk: map<Addr, Contents>, logical: map<Addr, Contents>)
    requires |bs| == NBUF + 1 && SameButLinks(bs, cs)
    requires Counted(bs, pins, claims) && Unique(bs) && Coherent(bs, pins, disk, logical)
    ensures Counted(cs, pins, claims) && Unique(cs) && Coherent(cs, pins, disk, logical)
  {
    CachedSame(bs, cs);
  }

  lemma LeastRecent(o: seq<nat>, stamp: seq<nat>, now: nat, bs: seq<Buf>, k: nat)
    requires ByRelease(o, stamp, now) && |bs| == NBUF + 1 && k < |o|
    requires forall i :: 0 <= i < NBUF ==> i in o
    requires forall j :: k < j < |o| ==> bs[o[j]].refcnt > 0
    ensures forall i :: 0 <= i < NBUF && bs[i].refcnt == 0 ==> stamp[o[k]] <= stamp[i]
  {
    forall i | 0 <= i < NBUF && bs[i].refcnt == 0
      ensures stamp[o[k]] <= stamp[i]
    {
      assert i in o;
      var j :| 0 <= j < |o| && o[j] == i;
    }
  }
}
