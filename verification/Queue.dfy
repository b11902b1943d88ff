/** The ring of processes past their quota (kernel/queue.h). */
module Queue {
  import opened Basics
  import opened Params

  /** n slots of the ring from `front` on. */
  ghost function Slots(a: seq<nat>, front: nat, n: nat): (s: seq<nat>)
    requires |a| == NPROC
    ensures |s| == n && forall k :: 0 <= k < n ==> s[k] == a[(front + k) % NPROC]
  {
    seq(n, k requires 0 <= k < n => a[(front + k) % NPROC])
  }

  lemma SlotsPush(a: seq<nat>, front: nat, n: nat, p: nat)
    requires |a| == NPROC && n < NPROC && front < NPROC
    ensures Slots(a[(front + n) % NPROC := p], front, n + 1) == Slots(a, front, n) + [p]
  {
    var b := a[(front + n) % NPROC := p];
    forall k | 0 <= k < n
      ensures Slots(b, front, n + 1)[k] == Slots(a, front, n)[k]
    {
      assert (front + k) % NPROC != (front + n) % NPROC;
    }
  }

  lemma SlotsPop(a: seq<nat>, front: nat, n: nat)
    requires |a| == NPROC && 0 < n <= NPROC && front < NPROC
    ensures Slots(a, front, n)[0] == a[front]
    ensures Slots(a, (front + 1) % NPROC, n - 1) == Slots(a, front, n)[1..]
  {
    var x, y := Slots(a, (front + 1) % NPROC, n - 1), Slots(a, front, n)[1..];
    forall k | 0 <= k < n - 1
      ensures x[k] == y[k]
    {
      assert ((front + 1) % NPROC + k) % NPROC == (front + (k + 1)) % NPROC;
    }
  }

  class Ring {
    const procs: array<nat>
    var front: nat
    var rear: nat
    var size: nat

    ghost predicate Valid()
      reads this
    {
      && procs.Length == NPROC && front < NPROC && size <= NPROC
      && rear == (front + size) % NPROC
    }

    /** The queued processes, oldest first. */
    ghost function Contents(): (s: seq<nat>)
      requires Valid()
      reads this, procs
    {
      Slots(procs[..], front, size)
    }

    constructor ()
      ensures Valid() && fresh(procs) && Contents() == []
    {
      procs := new nat[NPROC](_ => 0);
      front, rear, size := 0, 0, 0;
    }

    method Enqueue(p: nat) returns (ok: bool)
      requires Valid()
      modifies this, procs
      ensures Valid() && ok == (|old(Contents())| < NPROC)
      ensures Contents() == if ok then old(Contents()) + [p] else old(Contents())
    {
      if size == NPROC {
        return false;
      }
      SlotsPush(procs[..], front, size, p);
      procs[rear] := p;
      rear := (rear + 1) % NPROC;
      size := size + 1;
      ok := true;
    }

    method Pop() returns (r: Option<nat>)
      requires Valid()
      modifies this
      ensures Valid() && (r.None? <==> old(Contents()) == [])
      ensures r.None? ==> Contents() == old(Contents())
      ensures r.Some? ==> r.value == old(Contents())[0] && Contents() == old(Contents())[1..]
    {
      if size == 0 {
        return None;
      }
      SlotsPop(procs[..], front, size);
      r := Some(procs[front]);
      front := (front + 1) % NPROC;
      size := size - 1;
    }
  }
}
