/** The scheduler's binary heap (kernel/priority_queue.h), ordered by CPU ticks
    used and, among equals, by deadline. */
module PriorityQueue {
  import opened Basics
  import opened Params

  /** The two fields of struct cpu_usage the heap looks at. */
  datatype Key = Key(ticks: nat, deadline: nat)

  type Proc = nat
  type Keys = seq<Key>

  predicate Le(a: Key, b: Key) {
    a.ticks < b.ticks || (a.ticks == b.ticks && a.deadline <= b.deadline)
  }

  predicate Known(ks: Keys, h: seq<Proc>) {
    forall i :: 0 <= i < |h| ==> h[i] < |ks|
  }

  function Parent(i: nat): (p: nat)
    requires i > 0
    ensures p < i
  {
    (i - 1) / 2
  }

  /** Node i is not below its parent. */
  predicate Edge(ks: Keys, h: seq<Proc>, i: nat)
    requires Known(ks, h) && 0 < i < |h|
  {
    Le(ks[h[Parent(i)]], ks[h[i]])
  }

  /** Parent at most child, everywhere. */
  predicate Ordered(ks: Keys, h: seq<Proc>)
    requires Known(ks, h)
  {
    forall i :: 0 < i < |h| ==> Edge(ks, h, i)
  }

  /** Node c is not below i's parent. */
  predicate Above(ks: Keys, h: seq<Proc>, i: nat, c: nat)
    requires Known(ks, h) && 0 < i < |h| && c < |h|
  {
    Le(ks[h[Parent(i)]], ks[h[c]])
  }

  predicate ChildOf(c: nat, i: nat) {
    0 < c && Parent(c) == i
  }

  /** The root of an ordered heap is a minimum. */
  lemma {:induction false} RootIsLeast(ks: Keys, h: seq<Proc>, i: nat)
    requires Known(ks, h) && Ordered(ks, h) && i < |h|
    ensures Le(ks[h[0]], ks[h[i]])
    decreases i
  {
    if i > 0 {
      assert Edge(ks, h, i);
      RootIsLeast(ks, h, Parent(i));
    }
  }

  function Swap(h: seq<Proc>, i: nat, j: nat): (r: seq<Proc>)
    requires i < |h| && j < |h|
    ensures |r| == |h|
  {
    h[i := h[j]][j := h[i]]
  }

  lemma SwapSame(h: seq<Proc>, i: nat, j: nat)
    requires i < |h| && j < |h|
    ensures multiset(Swap(h, i, j)) == multiset(h)
  {
  }

  lemma SwapKnown(ks: Keys, h: seq<Proc>, i: nat, j: nat)
    requires i < |h| && j < |h| && Known(ks, h)
    ensures Known(ks, Swap(h, i, j))
  {
  }

  // ---- bubbling up ----

  /** Ordered except between node i and its parent, where i may be too small;
      i's children are not below i's parent. */
  predicate UpTo(ks: Keys, h: seq<Proc>, i: nat)
    requires Known(ks, h) && i < |h|
  {
    && (forall j :: 0 < j < |h| && j != i ==> Edge(ks, h, j))
    && (i > 0 ==> forall c :: 0 <= c < |h| && ChildOf(c, i) ==> Above(ks, h, i, c))
  }

  lemma UpStep(ks: Keys, h: seq<Proc>, i: nat)
    requires 0 < i < |h| && Known(ks, h) && UpTo(ks, h, i) && !Edge(ks, h, i)
    ensures Known(ks, Swap(h, Parent(i), i)) && UpTo(ks, Swap(h, Parent(i), i), Parent(i))
  {
    var p := Parent(i);
    var r := Swap(h, p, i);
    forall j | 0 < j < |r| && j != p
      ensures Edge(ks, r, j)
    {
      if j != i {
        assert Edge(ks, h, j);
        assert ChildOf(j, i) ==> Above(ks, h, i, j);
      }
    }
    if p > 0 {
      assert Edge(ks, h, p);
      forall c | 0 <= c < |r| && ChildOf(c, p)
        ensures Above(ks, r, p, c)
      {
        if c != i {
          assert Edge(ks, h, c);
        }
      }
    }
  }

  // ---- bubbling down ----

  /** Ordered except between node i and its children, where i may be too large;
      i's children are not below i's parent. */
  predicate DownFrom(ks: Keys, h: seq<Proc>, i: nat)
    requires Known(ks, h) && (i < |h| || h == [])
  {
    && (forall j :: 0 < j < |h| && !ChildOf(j, i) ==> Edge(ks, h, j))
    && (0 < i < |h| ==> forall c :: 0 <= c < |h| && ChildOf(c, i) ==> Above(ks, h, i, c))
  }

  lemma DownStep(ks: Keys, h: seq<Proc>, i: nat, m: nat)
    requires Known(ks, h) && i < m < |h| && DownFrom(ks, h, i) && ChildOf(m, i)
    requires forall c :: 0 <= c < |h| && ChildOf(c, i) ==> Le(ks[h[m]], ks[h[c]])
    requires Le(ks[h[m]], ks[h[i]])
    ensures Known(ks, Swap(h, i, m)) && DownFrom(ks, Swap(h, i, m), m)
  {
    var r := Swap(h, i, m);
    forall j | 0 < j < |r| && !ChildOf(j, m)
      ensures Edge(ks, r, j)
    {
      if j == i {
        assert Above(ks, h, i, m);
      } else if !ChildOf(j, i) {
        assert Edge(ks, h, j);
      }
    }
    forall c | 0 <= c < |r| && ChildOf(c, m)
      ensures Above(ks, r, m, c)
    {
      assert Edge(ks, h, c);
    }
  }

  lemma DownDone(ks: Keys, h: seq<Proc>, i: nat)
    requires Known(ks, h) && i < |h| && DownFrom(ks, h, i)
    requires forall c :: 0 <= c < |h| && ChildOf(c, i) ==> Le(ks[h[i]], ks[h[c]])
    ensures Ordered(ks, h)
  {
  }

  /** Moving the last element over the root leaves only the root suspect. */
  lemma PopStart(ks: Keys, h: seq<Proc>)
    requires Known(ks, h) && |h| > 0
    ensures var r := h[0 := h[|h| - 1]][..|h| - 1];
            Known(ks, r) && (Ordered(ks, h) ==> DownFrom(ks, r, 0)) && multiset(r) == multiset(h) - multiset{h[0]}
  {
    var r := h[0 := h[|h| - 1]][..|h| - 1];
    if Ordered(ks, h) {
      forall j | 0 < j < |r| && !ChildOf(j, 0)
        ensures Edge(ks, r, j)
      {
        assert Edge(ks, h, j);
      }
    }
    PopSame(h, r);
  }

  lemma RootKnown(ks: Keys, h: seq<Proc>)
    requires Known(ks, h) && |h| > 0
    ensures h[0] < |ks|
  {
  }

  lemma PopSame(h: seq<Proc>, r: seq<Proc>)
    requires |h| > 0 && r == h[0 := h[|h| - 1]][..|h| - 1]
    ensures multiset(r) == multiset(h) - multiset{h[0]}
  {
    assert h == [h[0]] + h[1..];
    if |h| > 1 {
      assert r == [h[|h| - 1]] + h[1..|h| - 1];
      assert h[1..] == h[1..|h| - 1] + [h[|h| - 1]];
    }
  }

  /** Appending p leaves only the new leaf suspect. */
  lemma PushStart(ks: Keys, h: seq<Proc>, p: Proc)
    requires Known(ks, h) && Ordered(ks, h) && p < |ks|
    ensures Known(ks, h + [p]) && UpTo(ks, h + [p], |h|)
  {
    forall j | 0 < j < |h + [p]| && j != |h|
      ensures Edge(ks, h + [p], j)
    {
      assert Edge(ks, h, j);
    }
  }

  // ---- the code ----

  class Heap {
    const heap: array<Proc>
    var size: nat

    ghost predicate Valid()
      reads this
    {
      heap.Length == NPROC && size <= NPROC
    }

    function Contents(): seq<Proc>
      requires size <= heap.Length
      reads this, heap
    {
      heap[..size]
    }

    constructor ()
      ensures Valid() && fresh(heap) && Contents() == []
    {
      heap := new Proc[NPROC](_ => 0);
      size := 0;
    }

    method SwapAt(i: nat, j: nat)
      requires Valid() && i < size && j < size
      modifies heap
      ensures Contents() == Swap(old(Contents()), i, j)
    {
      heap[i], heap[j] := heap[j], heap[i];
    }

    /** pq_push; false is the overflow panic. An ordered heap stays ordered. */
    method Push(ks: Keys, p: Proc) returns (ok: bool)
      requires Valid() && Known(ks, Contents()) && p < |ks|
      modifies this, heap
      ensures Valid() && Known(ks, Contents()) && (old(Ordered(ks, Contents())) ==> Ordered(ks, Contents()))
      ensures ok <==> old(size) < NPROC
      ensures multiset(Contents()) == old(multiset(Contents())) + if ok then multiset{p} else multiset{}
    {
      hide Ordered, UpTo;
      if size >= NPROC {
        return false;
      }
      ghost var was := Contents();
      heap[size] := p;
      size := size + 1;
      assert Contents() == was + [p];
      if Ordered(ks, was) {
        PushStart(ks, was, p);
      }
      BubbleUp(ks, size - 1, Ordered(ks, was));
      ok := true;
    }

    /** pq_push's loop. */
    method BubbleUp(ks: Keys, start: nat, ghost ord: bool)
      requires Valid() && start < size && Known(ks, Contents()) && (ord ==> UpTo(ks, Contents(), start))
      modifies heap
      ensures Known(ks, Contents()) && (ord ==> Ordered(ks, Contents()))
      ensures multiset(Contents()) == old(multiset(Contents()))
    {
      var i: nat := start;
      while i > 0
        invariant i < size && Known(ks, Contents()) && (ord ==> UpTo(ks, Contents(), i))
        invariant multiset(Contents()) == old(multiset(Contents()))
      {
        var parent: nat := (i - 1) / 2;
        if ks[heap[parent]].ticks <= ks[heap[i]].ticks {
          if ks[heap[parent]].ticks == ks[heap[i]].ticks {
            if ks[heap[parent]].deadline <= ks[heap[i]].deadline {
              break;
            }
          } else {
            break;
          }
        }
        if ord {
          UpStep(ks, Contents(), i);
        }
        SwapKnown(ks, Contents(), parent, i);
        SwapSame(Contents(), parent, i);
        SwapAt(parent, i);
        i := parent;
      }
    }

    /** pq_pop's heap work: removes and returns the root, which on an ordered heap
        is a minimum, and keeps an ordered heap ordered. */
    method Pop(ks: Keys) returns (min: Option<Proc>)
      requires Valid() && Known(ks, Contents())
      modifies this, heap
      ensures Valid() && Known(ks, Contents()) && (old(Ordered(ks, Contents())) ==> Ordered(ks, Contents()))
      ensures min.None? <==> old(size) == 0
      ensures min.None? ==> Contents() == old(Contents())
      ensures min.Some? ==>
                && min.value == old(Contents())[0] && size == old(size) - 1
                && multiset(Contents()) == old(multiset(Contents())) - multiset{min.value}
                && min.value < |ks|
                && (old(Ordered(ks, Contents())) ==> forall q :: q in old(Contents()) ==> q < |ks| && Le(ks[min.value], ks[q]))
    {
      hide Ordered, DownFrom, Edge, Known, Le;
      if size == 0 {
        return None;
      }
      ghost var was := Contents();
      if Ordered(ks, was) {
        LeastOfAll(ks, was);
      }
      ghost var r := was[0 := was[|was| - 1]][..|was| - 1];
      PopStart(ks, was);
      RootKnown(ks, was);
      var root := TakeRoot();
      assert Contents() == r;
      BubbleDown(ks, Ordered(ks, was));
      min := Some(root);
    }

    /** The root leaves and the last element takes its place. */
    method TakeRoot() returns (root: Proc)
      requires Valid() && size > 0
      modifies this, heap
      ensures Valid() && size == old(size) - 1 && root == old(Contents())[0]
      ensures Contents() == old(Contents())[0 := old(Contents())[|old(Contents())| - 1]][..|old(Contents())| - 1]
    {
      root := heap[0];
      heap[0] := heap[size - 1];
      size := size - 1;
    }

    /** pq_pop's loop. */
    method BubbleDown(ks: Keys, ghost ord: bool)
      requires Valid() && Known(ks, Contents()) && (ord ==> DownFrom(ks, Contents(), 0))
      modifies heap
      ensures Known(ks, Contents()) && (ord ==> Ordered(ks, Contents()))
      ensures multiset(Contents()) == old(multiset(Contents()))
    {
      var i: nat := 0;
      while true
        invariant (i < size || size == 0) && Known(ks, Contents()) && (ord ==> DownFrom(ks, Contents(), i))
        invariant multiset(Contents()) == old(multiset(Contents()))
        decreases size - i
      {
        var smallest := SmallestOf(ks, i);
        if smallest == i {
          if size > 0 && ord {
            DownDone(ks, Contents(), i);
          }
          break;
        }
        if ord {
          DownStep(ks, Contents(), i, smallest);
        }
        SwapKnown(ks, Contents(), i, smallest);
        SwapSame(Contents(), i, smallest);
        SwapAt(i, smallest);
        i := smallest;
      }
    }

    /** The comparisons of pq_pop's loop: the least of node i and its children. */
    method SmallestOf(ks: Keys, i: nat) returns (m: nat)
      requires Valid() && Known(ks, Contents()) && (i < size || size == 0)
      ensures m == i || (m < size && ChildOf(m, i) && Le(ks[heap[m]], ks[heap[i]]))
      ensures i < size ==> forall c :: 0 <= c < size && ChildOf(c, i) ==> Le(ks[heap[m]], ks[heap[c]])
    {
      var left, right := 2 * i + 1, 2 * i + 2;
      m := i;
      if left < size && ks[heap[left]].ticks <= ks[heap[m]].ticks {
        if ks[heap[left]].ticks == ks[heap[m]].ticks {
          if ks[heap[left]].deadline < ks[heap[m]].deadline {
            m := left;
          }
        } else {
          m := left;
        }
      }
      if right < size && ks[heap[right]].ticks <= ks[heap[m]].ticks {
        if ks[heap[right]].ticks == ks[heap[m]].ticks {
          if ks[heap[right]].deadline < ks[heap[m]].deadline {
            m := right;
          }
        } else {
          m := right;
        }
      }
      assert forall c :: ChildOf(c, i) ==> c == left || c == right;
    }

    /** pq_check_and_push's loop: it climbs only past parents with equal ticks. */
    method BubbleUpEqual(ks: Keys, start: nat)
      requires Valid() && start < size && Known(ks, Contents())
      modifies heap
      ensures Known(ks, Contents()) && multiset(Contents()) == old(multiset(Contents()))
      ensures old(UpTo(ks, Contents(), start)) ==>
                (Ordered(ks, Contents()) <==> old(Climbs(ks, Contents(), start)))
    {
      hide Climbing, UpTo, Ordered, Climbs;
      ghost var h0 := Contents();
      ClimbFirst(ks, h0, start);
      var i: nat := start;
      while i > 0
        invariant i < size && i <= start && Known(ks, Contents()) && Climbing(ks, h0, start, Contents(), i)
      {
        var parent: nat := (i - 1) / 2;
        if ks[heap[parent]].ticks == ks[heap[i]].ticks {
          if ks[heap[parent]].deadline <= ks[heap[i]].deadline {
            break;
          }
        } else {
          break;
        }
        ClimbNext(ks, h0, start, Contents(), i);
        SwapAt(parent, i);
        i := parent;
      }
      ClimbEnd(ks, h0, start, Contents(), i);
    }

    /** pq_check_and_push: a runnable process that is not in the heap is added
        once. On an ordered heap, order survives if and only if the new slot is the
        root or its parent has no more ticks than the process. */
    method CheckAndPush(ks: Keys, p: Proc, runnable: bool) returns (pushed: bool, panic: bool)
      requires Valid() && Known(ks, Contents()) && p < |ks|
      modifies this, heap
      ensures Valid() && Known(ks, Contents())
      ensures pushed || panic <==> runnable && p !in old(Contents())
      ensures panic ==> !pushed && old(size) == NPROC
      ensures !pushed ==> Contents() == old(Contents())
      ensures pushed ==> size == old(size) + 1 && multiset(Contents()) == old(multiset(Contents())) + multiset{p}
      ensures pushed && old(Ordered(ks, Contents())) ==>
                (Ordered(ks, Contents()) <==>
                 old(size) == 0 || ks[old(Contents())[Parent(old(size))]].ticks <= ks[p].ticks)
    {
      if !runnable {
        return false, false;
      }
      for i := 0 to size
        invariant p !in Contents()[..i]
      {
        if heap[i] == p {
          assert Contents()[i] == p;
          return false, false;
        }
      }
      assert Contents()[..size] == Contents();
      if size >= NPROC {
        return false, true;
      }
      ghost var was := Contents();
      heap[size] := p;
      size := size + 1;
      assert Contents() == was + [p];
      if Ordered(ks, was) {
        PushStart(ks, was, p);
      }
      BubbleUpEqual(ks, size - 1);
      return true, false;
    }
  }

  /** Node i is the root, or its parent has no more ticks. */
  predicate Climbs(ks: Keys, h: seq<Proc>, i: nat)
    requires Known(ks, h) && i < |h|
  {
    i == 0 || ks[h[Parent(i)]].ticks <= ks[h[i]].ticks
  }

  /** The climb from slot start of h0 has reached slot i of h. */
  ghost predicate Climbing(ks: Keys, h0: seq<Proc>, start: nat, h: seq<Proc>, i: nat)
    requires Known(ks, h0) && start < |h0| && Known(ks, h)
  {
    && i < |h| && multiset(h) == multiset(h0)
    && (i == start ==> h == h0)
    && (i != start ==> Climbs(ks, h0, start))
    && (UpTo(ks, h0, start) && Climbs(ks, h0, start) ==> UpTo(ks, h, i) && Climbs(ks, h, i))
  }

  lemma ClimbFirst(ks: Keys, h: seq<Proc>, start: nat)
    requires Known(ks, h) && start < |h|
    ensures Climbing(ks, h, start, h, start)
  {
  }

  lemma ClimbNext(ks: Keys, h0: seq<Proc>, start: nat, h: seq<Proc>, i: nat)
    requires Known(ks, h0) && start < |h0| && Known(ks, h) && Climbing(ks, h0, start, h, i) && 0 < i <= start
    requires ks[h[Parent(i)]].ticks == ks[h[i]].ticks && ks[h[Parent(i)]].deadline > ks[h[i]].deadline
    ensures Known(ks, Swap(h, Parent(i), i)) && Climbing(ks, h0, start, Swap(h, Parent(i), i), Parent(i))
  {
    SwapKnown(ks, h, Parent(i), i);
    SwapSame(h, Parent(i), i);
    if UpTo(ks, h, i) {
      UpStep(ks, h, i);
      if Parent(i) > 0 {
        assert Edge(ks, h, Parent(i));
      }
    }
  }

  /** Where the climb stops, order holds exactly when it could start. */
  lemma ClimbEnd(ks: Keys, h0: seq<Proc>, start: nat, h: seq<Proc>, i: nat)
    requires Known(ks, h0) && start < |h0| && Known(ks, h) && Climbing(ks, h0, start, h, i)
    requires i > 0 ==> ks[h[Parent(i)]].ticks != ks[h[i]].ticks || ks[h[Parent(i)]].deadline <= ks[h[i]].deadline
    ensures multiset(h) == multiset(h0)
    ensures UpTo(ks, h0, start) ==> (Ordered(ks, h) <==> Climbs(ks, h0, start))
  {
    if i > 0 && Ordered(ks, h) {
      assert Edge(ks, h, i);
    }
  }

  lemma LeastOfAll(ks: Keys, h: seq<Proc>)
    requires Known(ks, h) && Ordered(ks, h) && |h| > 0
    ensures forall q :: q in h ==> q < |ks| && Le(ks[h[0]], ks[q])
  {
    forall q | q in h
      ensures q < |ks| && Le(ks[h[0]], ks[q])
    {
      var i :| 0 <= i < |h| && h[i] == q;
      RootIsLeast(ks, h, i);
    }
  }

  /** A process that has used fewer ticks than its slot's parent stays below it:
      here process 1 with 3 ticks under process 0 with 5. */
  lemma OrderLost()
    ensures var ks := [Key(5, 0), Key(3, 0)];
            Known(ks, [0]) && Ordered(ks, [0]) && UpTo(ks, [0, 1], 1) && !Climbs(ks, [0, 1], 1) && !Ordered(ks, [0, 1])
  {
    assert !Edge([Key(5, 0), Key(3, 0)], [0, 1], 1);
  }
}
