/** Pipes (kernel/pipe.c): a ring of PIPESIZE bytes between two free-running 32-bit
    counters. Between taking pi->lock and giving it up, by sleeping or returning, a
    reader or writer runs alone; WriteRun and ReadRun are those stretches, so every
    interleaving of readers and writers is a sequence of calls to them. */
module Pipe {
  import opened Basics
  import opened Params

  const PIPESIZE := 512

  /** How a stretch ends: the call returns n, or sleeps with i bytes done. */
  datatype Outcome = Return(n: int) | Sleep(i: nat)

  /** The counter range is a multiple of the ring size. */
  lemma RingPlace(k: nat)
    ensures (k % UINT_LIMIT) % PIPESIZE == k % PIPESIZE
    ensures (k % UINT_LIMIT + 1) % UINT_LIMIT == (k + 1) % UINT_LIMIT
  {
    var q, r := k / UINT_LIMIT, k % UINT_LIMIT;
    assert k == PIPESIZE * (8388608 * q) + r;
  }

  /** The 32-bit counters tell full, empty and ring places apart like the unbounded
      counts do, because no more than PIPESIZE bytes are ever in the pipe. */
  lemma Counters(r: nat, w: nat)
    requires r <= w <= r + PIPESIZE
    ensures w % UINT_LIMIT == (r % UINT_LIMIT + PIPESIZE) % UINT_LIMIT <==> w == r + PIPESIZE
    ensures r % UINT_LIMIT == w % UINT_LIMIT <==> r == w
  {
    var d := w - r;
    assert w % UINT_LIMIT == if r % UINT_LIMIT + d < UINT_LIMIT then r % UINT_LIMIT + d else r % UINT_LIMIT + d - UINT_LIMIT;
  }

  /** Ring places of bytes less than PIPESIZE apart differ. */
  lemma PlacesDiffer(j: nat, k: nat)
    requires j < k < j + PIPESIZE
    ensures j % PIPESIZE != k % PIPESIZE
  {
  }

  /** The byte at which a stretch of pipewrite that began at byte i of n stops: at the
      end, or once room bytes are in, or where the page is missing or the kill is seen. */
  function WriteStop(i: nat, n: nat, room: nat, readable: nat, killedAt: nat): nat {
    var until := if readable < killedAt then readable else killedAt;
    var full := if i + room < n then i + room else n;
    if until <= i then i else if until < full then until else full
  }

  class Pipe {
    const data: array<Byte>
    var nread: nat
    var nwrite: nat
    var readopen: bool
    var writeopen: bool
    ghost var stored: seq<Byte>   // every byte ever put in
    ghost var taken: nat          // how many were taken out

    /** What was taken out is a prefix of what was put in; the rest, at most PIPESIZE
        bytes, is in the ring. */
    ghost predicate Valid()
      reads this, data
    {
      && data.Length == PIPESIZE
      && taken <= |stored| <= taken + PIPESIZE
      && nread == taken % UINT_LIMIT && nwrite == |stored| % UINT_LIMIT
      && forall k :: taken <= k < |stored| ==> data[k % PIPESIZE] == stored[k]
    }

    constructor ()
      ensures Valid() && fresh(data) && stored == [] && taken == 0 && readopen && writeopen
    {
      data := new Byte[PIPESIZE];
      readopen, writeopen := true, true;
      nwrite, nread := 0, 0;
      stored, taken := [], 0;
    }

    /** One byte in. */
    method Put(ch: Byte)
      requires Valid() && |stored| < taken + PIPESIZE
      modifies this`nwrite, this`stored, data
      ensures Valid() && stored == old(stored) + [ch]
    {
      RingPlace(|stored|);
      forall k | taken <= k < |stored| ensures k % PIPESIZE != |stored| % PIPESIZE {
        PlacesDiffer(k, |stored|);
      }
      data[nwrite % PIPESIZE] := ch;
      nwrite := (nwrite + 1) % UINT_LIMIT;
      stored := stored + [ch];
    }

    /** One byte out: the oldest. */
    method Get() returns (ch: Byte)
      requires Valid() && taken < |stored|
      modifies this`nread, this`taken
      ensures Valid() && taken == old(taken) + 1 && ch == stored[old(taken)]
    {
      RingPlace(taken);
      ch := data[nread % PIPESIZE];
      nread := (nread + 1) % UINT_LIMIT;
      taken := taken + 1;
    }

    /** A stretch of pipewrite that starts with i bytes of src stored. copyin fails at
        byte readable, and the writer is killed once killedAt bytes are stored. The
        stretch stores src from i on, in order; it sleeps only on a full pipe, and
        returns all, what could be copied in, or -1. */
    method WriteRun(src: seq<Byte>, i: nat, readable: nat, killedAt: nat) returns (o: Outcome, ghost j: nat)
      requires Valid() && i <= |src|
      modifies this`nwrite, this`stored, data
      ensures Valid() && i <= j <= |src| && stored == old(stored) + src[i..j]
      ensures o.Sleep? ==> o.i == j < |src| && |stored| == taken + PIPESIZE && readopen && j < killedAt
      ensures o.Return? && o.n >= 0 ==> o.n == j && (j == |src| || readable <= j)
      ensures o.Return? && o.n < 0 ==> o.n == -1 && j < |src| && ((!readopen && j == i) || killedAt <= j)
      ensures j == if readopen then WriteStop(i, |src|, old(PIPESIZE - (|stored| - taken)), readable, killedAt) else i
      ensures j < |src| && (!readopen || killedAt <= j) ==> o == Return(-1)
      ensures j < |src| && readopen && j < killedAt && |stored| == taken + PIPESIZE ==> o == Sleep(j)
    {
      j := i;
      var done := i;
      while done < |src|
        invariant Valid() && i <= done <= |src| && stored == old(stored) + src[i..done]
        invariant i < done ==> readopen && done <= readable && done <= killedAt
      {
        if !readopen || killedAt <= done {
          return Return(-1), done;
        }
        Counters(taken, |stored|);
        if nwrite == (nread + PIPESIZE) % UINT_LIMIT {
          return Sleep(done), done;
        }
        if readable <= done {
          return Return(done), done;
        }
        Put(src[done]);
        done := done + 1;
      }
      return Return(done), done;
    }

    /** A stretch of piperead. It sleeps only on an empty pipe with a writer; otherwise
        it delivers the oldest bytes, in order, up to n. copyout fails at byte
        writable: then one more byte is taken out and delivered to nobody. */
    method ReadRun(n: int, writable: nat, killed: bool) returns (o: Outcome, delivered: seq<Byte>)
      requires Valid()
      modifies this`nread, this`taken
      ensures Valid()
      ensures old(taken) + |delivered| <= |stored| && delivered == stored[old(taken)..old(taken) + |delivered|]
      ensures o.Sleep? ==> delivered == [] && taken == old(taken) == |stored| && writeopen && !killed
      ensures o == Return(-1) ==> delivered == [] && taken == old(taken) == |stored| && writeopen && killed
      ensures |delivered| <= if n < 0 then 0 else n
      ensures o.Return? && o.n != -1 ==>
        && o.n == |delivered| && (|stored| > old(taken) || !writeopen)
        && (if |delivered| == writable && writable < n && old(taken) + writable < |stored| then
              taken == old(taken) + |delivered| + 1
            else
              && taken == old(taken) + |delivered| && |delivered| <= writable
              && (|delivered| >= n || taken == |stored|))
    {
      delivered := [];
      Counters(taken, |stored|);
      if nread == nwrite && writeopen {
        return if killed then Return(-1) else Sleep(0), [];
      }
      var i := 0;
      while i < n
        invariant Valid() && i == |delivered| && i <= (if n < 0 then 0 else n) && i <= writable
        invariant taken == old(taken) + i && taken <= |stored|
        invariant delivered == stored[old(taken)..taken]
      {
        Counters(taken, |stored|);
        if nread == nwrite {
          break;
        }
        var ch := Get();
        if writable <= i {
          break;
        }
        delivered := delivered + [ch];
        i := i + 1;
      }
      o := Return(i);
    }
  }
}
