/**
  The queues of the kernel on the heap: one node for each task, shared between the free list, the run
  queue and the wait lists, which are pairwise disjoint rings. Each operation on rings is what
  KernelSpec says about sequences of tasks.
  */
module KernelLists {
  import opened Options
  import opened Queues
  import opened KernelSpec
  import opened KernelInv
  import opened IntrusiveList

  const FREE: nat := 0
  const RUN: nat := 1

  /** The number of the wait list of a semaphore. */
  function WaitList(h: nat): nat {
    2 + h
  }

  /** The queues of a kernel state, by number. */
  function QueuesOf(s: State): (qs: seq<seq<nat>>)
    ensures |qs| == 2 + |s.sems|
  {
    [s.freeTcbs, s.runQueue] + seq(|s.sems|, h requires 0 <= h < |s.sems| => s.sems[h].list)
  }

  /** No task is in two of the queues. */
  ghost predicate Split(qs: seq<seq<nat>>) {
    forall i, j, t :: 0 <= i < j < |qs| && t in qs[i] ==> t !in qs[j]
  }

  ghost predicate InNone(qs: seq<seq<nat>>, t: nat) {
    forall i :: 0 <= i < |qs| ==> t !in qs[i]
  }

  lemma SplitUpdate(qs: seq<seq<nat>>, i: nat, q: seq<nat>, t: nat)
    requires Split(qs) && i < |qs|
    requires forall x :: x in q ==> x in qs[i] || (x == t && InNone(qs, t))
    ensures Split(qs[i := q])
  {
  }

  /** Nodes that are each a ring of its own. */
  method MakeNodes(n: nat) returns (all: seq<ListObject>)
    ensures |all| == n && Distinct(all)
    ensures forall i :: 0 <= i < n ==> fresh(all[i]) && all[i].task == i && Ring([all[i]])
  {
    all := [];
    for t := 0 to n
      invariant |all| == t && Distinct(all)
      invariant forall i :: 0 <= i < t ==> fresh(all[i]) && all[i].task == i && Ring([all[i]])
    {
      var x := new ListObject(t);
      all := all + [x];
    }
  }

  function Empty(k: nat): seq<seq<nat>> {
    seq(k, i => [])
  }

  function Firsts(t: nat): (q: seq<nat>)
    ensures |q| == t && forall x :: x in q ==> x < t
  {
    seq(t, j => j)
  }

  lemma FirstsNext(t: nat, k: nat)
    requires 2 <= k
    ensures Insert(Firsts(t), t, t) == Firsts(t + 1)
    ensures InNone(Empty(k)[FREE := Firsts(t)], t)
    ensures Empty(k)[FREE := Firsts(t)][FREE := Firsts(t + 1)] == Empty(k)[FREE := Firsts(t + 1)]
  {
  }

  lemma BootQueues(n: nat, m: nat)
    ensures QueuesOf(Boot(n, m, BootStacks())) == Empty(2 + m)[FREE := Firsts(n)]
    ensures Tasks(Boot(n, m, BootStacks())) == n
  {
  }

  class Lists {
    const nodes: seq<ListObject>  // `pendList` of each task control block
    const heads: seq<ListObject>  // g_tskCbFreeList, g_runQueue, and `semList` of each semaphore
    ghost var queues: seq<seq<nat>>

    /** OsTskAMPInit and OsSemInit: all lists empty, then each control block put on the free list. */
    constructor (n: nat, m: nat)
      ensures Holds(Boot(n, m, BootStacks()))
      ensures forall x :: x in nodes + heads ==> fresh(x)
    {
      var all := MakeNodes(n + 2 + m);
      nodes, heads := all[..n], all[n..];
      queues := Empty(2 + m);
      new;
      assert nodes + heads == all;
      forall i {:trigger queues[i]} | 0 <= i < |queues| ensures Ring(RingOf(i, queues[i])) {
        assert RingOf(i, []) == [all[n + i]];
      }
      hide Ring, RingOf, Boot, Split, Distinct;
      assert queues == queues[FREE := Firsts(0)] by { assert Firsts(0) == []; }
      for t := 0 to n
        invariant Valid() && |nodes| == n && queues == Empty(2 + m)[FREE := Firsts(t)]
        invariant forall x :: x in nodes + heads ==> fresh(x)
      {
        FirstsNext(t, 2 + m);
        LinkBefore(FREE, t, heads[FREE], t);
      }
      BootQueues(n, m);
    }

    /** The heads and nodes are different objects, and a node knows its task. */
    ghost predicate Objects() {
      && Distinct(nodes + heads)
      && forall t :: 0 <= t < |nodes| ==> nodes[t].task == t
    }

    ghost predicate Known(q: seq<nat>) {
      forall k :: 0 <= k < |q| ==> q[k] < |nodes|
    }

    /** The nodes of list `i` when it holds the tasks `q`. */
    ghost function RingOf(i: nat, q: seq<nat>): (r: seq<ListObject>)
      requires i < |heads| && Known(q)
      ensures |r| == 1 + |q| && r[0] == heads[i] && forall k :: 0 <= k < |q| ==> r[k + 1] == nodes[q[k]]
    {
      [heads[i]] + seq(|q|, k requires 0 <= k < |q| => nodes[q[k]])
    }

    ghost predicate Shape(qs: seq<seq<nat>>) {
      && Objects()
      && |qs| == |heads|
      && (forall i :: 0 <= i < |qs| ==> Known(qs[i]))
      && Split(qs)
    }

    /** All rings but that of list `i`. */
    ghost function Others(qs: seq<seq<nat>>, i: nat): seq<seq<ListObject>>
      requires Shape(qs)
    {
      seq(|qs|, j requires 0 <= j < |qs| => if j == i then [] else RingOf(j, qs[j]))
    }

    /** Each list is a ring of its own. */
    ghost predicate Valid()
      reads this, nodes, heads
    {
      && Shape(queues)
      && forall i {:trigger queues[i]} :: 0 <= i < |queues| ==> Ring(RingOf(i, queues[i]))
    }

    // ----- one ring and the others -----

    /** A node or head is in the ring of the list it belongs to and in no other. */
    lemma Apart(qs: seq<seq<nat>>, i: nat, t: nat)
      requires Shape(qs) && i < |qs| && t < |nodes|
      ensures forall x :: x in RingOf(i, qs[i]) ==> x !in Nodes(Others(qs, i))
      ensures forall a :: 0 <= a <= |qs[i]| ==> RingOf(i, qs[i])[a] in nodes + heads
      ensures nodes[t] in nodes + heads
      ensures InNone(qs, t) ==> nodes[t] !in RingOf(i, qs[i]) && nodes[t] !in Nodes(Others(qs, i))
    {
      var x, all := RingOf(i, qs[i]), nodes + heads;
      assert nodes[t] == all[t];
      forall a | 0 <= a < |x| ensures x[a] in all {
        assert x[a] == if a == 0 then all[|nodes| + i] else all[qs[i][a - 1]];
      }
      forall j, a, b | 0 <= a < |x| && 0 <= j < |qs| && j != i && 0 <= b <= |qs[j]|
        ensures x[a] != RingOf(j, qs[j])[b]
      {
        var y := RingOf(j, qs[j]);
        assert x[a] == if a == 0 then all[|nodes| + i] else all[qs[i][a - 1]];
        assert y[b] == if b == 0 then all[|nodes| + j] else all[qs[j][b - 1]];
        if a > 0 && b > 0 { assert qs[i][a - 1] in qs[i] && qs[j][b - 1] in qs[j]; }
      }
      if InNone(qs, t) {
        forall j, b | 0 <= j < |qs| && 0 <= b <= |qs[j]| ensures RingOf(j, qs[j])[b] != nodes[t] {
          assert nodes[t] == all[t];
          assert RingOf(j, qs[j])[b] == if b == 0 then all[|nodes| + j] else all[qs[j][b - 1]];
          if b > 0 { assert qs[j][b - 1] in qs[j]; }
        }
      }
    }

    lemma OthersAreRings(i: nat)
      requires Valid()
      ensures Rings(Others(queues, i))
    {
      hide Ring;
    }

    /** Relinking list `i` to hold `q` gives lists that are rings again. */
    lemma Relinked(qs: seq<seq<nat>>, i: nat, q: seq<nat>)
      requires Shape(qs) && i < |qs| && Known(q) && Split(qs[i := q])
      requires Rings(Others(qs, i)) && Ring(RingOf(i, q))
      ensures Shape(qs[i := q])
      ensures forall j {:trigger qs[i := q][j]} :: 0 <= j < |qs| ==> Ring(RingOf(j, qs[i := q][j]))
    {
      hide Ring, Split, RingOf;
      forall j {:trigger qs[i := q][j]} | 0 <= j < |qs| ensures Ring(RingOf(j, qs[i := q][j])) {
        if j != i { assert Others(qs, i)[j] == RingOf(j, qs[j]); }
      }
    }

    // ----- places in a ring -----

    /** Where the node of the k-th waiter stands in the ring; the head stands behind the last. */
    ghost function Place(q: seq<nat>, k: nat): nat {
      if k < |q| then k + 1 else 0
    }

    lemma RingInsert(i: nat, q: seq<nat>, k: nat, t: nat)
      requires i < |heads| && Known(q) && k <= |q| && t < |nodes|
      ensures Known(Insert(q, k, t))
      ensures RingOf(i, Insert(q, k, t)) == Before(RingOf(i, q), Place(q, k), nodes[t])
    {
      InsertAtPlace(q, k, t);
      hide RingOf, Insert, Before;
      var r, p := RingOf(i, q), Insert(q, k, t);
      BeforeAtPlace(r, k, nodes[t]);
      var x, y := RingOf(i, p), Before(r, Place(q, k), nodes[t]);
      forall a | 0 <= a < |x| ensures x[a] == y[a] {
        if 0 < a <= k { assert p[a - 1] == q[a - 1]; }
        if a > k + 1 { assert p[a - 1] == q[a - 2]; }
      }
    }

    lemma RingDelete(i: nat, q: seq<nat>, k: nat)
      requires i < |heads| && Known(q) && k < |q|
      ensures Known(q[..k] + q[k + 1..])
      ensures var r := RingOf(i, q); RingOf(i, q[..k] + q[k + 1..]) == r[..k + 1] + r[k + 2..]
    {
      var r, p := RingOf(i, q), q[..k] + q[k + 1..];
      var x, y := RingOf(i, p), r[..k + 1] + r[k + 2..];
      forall a | 0 <= a < |x| ensures x[a] == y[a] {
        if 0 < a <= k { assert p[a - 1] == q[a - 1]; }
        if a > k { assert p[a - 1] == q[a]; }
      }
    }

    lemma RingFront(i: nat, q: seq<nat>, t: nat)
      requires i < |heads| && Known(q) && t < |nodes|
      ensures Known([t] + q)
      ensures var r := RingOf(i, q); RingOf(i, [t] + q) == [r[0], nodes[t]] + r[1..]
    {
      var x, y := RingOf(i, [t] + q), [heads[i], nodes[t]] + RingOf(i, q)[1..];
      hide RingOf;
      forall a | 0 <= a < |x| ensures x[a] == y[a] {
        if a > 0 { assert x[a] == nodes[([t] + q)[a - 1]]; }
      }
    }

    lemma QueueNoDup(i: nat)
      requires Valid() && i < |queues|
      ensures NoDup(queues[i])
    {
      var q, r := queues[i], RingOf(i, queues[i]);
      assert Distinct(r);
      forall a, b | 0 <= a < b < |q| ensures q[a] != q[b] { assert r[a + 1] != r[b + 1]; }
    }

    // ----- the list operations -----

    /** ListTailAdd in front of the node of the k-th task, or of the list head. */
    method LinkBefore(i: nat, ghost k: nat, at: ListObject, t: nat)
      requires Valid() && i < |heads| && t < |nodes| && InNone(queues, t) && k <= |queues[i]|
      requires at == if k < |queues[i]| then nodes[queues[i][k]] else heads[i]
      modifies this`queues, nodes + heads
      ensures Valid() && queues == old(queues)[i := Insert(old(queues[i]), k, t)]
    {
      hide Ring, Rings, Split, InNone, RingOf, Insert, Before, Nodes, Objects, Others;
      ghost var qs, r := queues, RingOf(i, queues[i]);
      ghost var q := Insert(qs[i], k, t);
      Apart(qs, i, t);
      OthersAreRings(i);
      ListTailAddAmong(nodes[t], at, r, Place(qs[i], k), Others(qs, i));
      RingInsert(i, qs[i], k, t);
      SplitInsert(qs, i, k, t);
      Relinked(qs, i, q);
      queues := qs[i := q];
    }

    /** ListAdd behind the list head. */
    method LinkFront(i: nat, t: nat)
      requires Valid() && i < |heads| && t < |nodes| && InNone(queues, t)
      modifies this`queues, nodes + heads
      ensures Valid() && queues == old(queues)[i := [t] + old(queues[i])]
    {
      hide Ring, Rings, Split, InNone, RingOf, Nodes, Objects, Others;
      ghost var qs, r := queues, RingOf(i, queues[i]);
      Apart(qs, i, t);
      OthersAreRings(i);
      ListAddAmong(nodes[t], heads[i], r, Others(qs, i));
      RingFront(i, qs[i], t);
      SplitFront(qs, i, t);
      Relinked(qs, i, [t] + qs[i]);
      queues := qs[i := [t] + qs[i]];
    }

    /** ListDelete: whichever list the task is in. */
    method Unlink(t: nat, ghost i: nat)
      requires Valid() && i < |heads| && t in queues[i]
      modifies this`queues, nodes + heads
      ensures Valid() && queues == old(queues)[i := Remove(old(queues[i]), t)]
    {
      hide Ring, Rings, Split, InNone, RingOf, Nodes, Objects, Others, Remove;
      ghost var qs, r := queues, RingOf(i, queues[i]);
      ghost var k :| 0 <= k < |qs[i]| && qs[i][k] == t;
      QueueNoDup(i);
      RemoveAt(qs[i], k);
      Apart(qs, i, t);
      OthersAreRings(i);
      ListDeleteAmong(nodes[t], r, k + 1, Others(qs, i));
      RingDelete(i, qs[i], k);
      SplitRemove(qs, i, t);
      Relinked(qs, i, Remove(qs[i], t));
      queues := qs[i := Remove(qs[i], t)];
    }

    /** LIST_FIRST and ListDelete. */
    method TakeFirst(i: nat) returns (t: nat)
      requires Valid() && i < |heads| && queues[i] != []
      modifies this`queues, nodes + heads
      ensures t == old(queues[i])[0]
      ensures Valid() && queues == old(queues)[i := old(queues[i])[1..]]
    {
      ghost var q := queues[i];
      assert Linked(RingOf(i, q)[0], RingOf(i, q)[1]);
      t := heads[i].next.task;
      assert t == q[0];
      FirstRemoved(q);
      hide Valid, Remove;
      Unlink(t, i);
    }

    /** ListEmpty, negated. */
    method Any(i: nat) returns (any: bool)
      requires Valid() && i < |heads|
      ensures any <==> queues[i] != []
    {
      assert queues[i] == queues[i];
      var empty := ListEmpty(heads[i], RingOf(i, queues[i]));
      any := !empty;
    }

    // ----- the kernel's own operations -----

    /** The lists hold the queues of the state. */
    ghost predicate Holds(s: State)
      reads this, nodes, heads
    {
      Valid() && |nodes| == Tasks(s) && queues == QueuesOf(s)
    }

    /** OsTskReadyAdd. */
    method ReadyAdd(t: nat, ghost s: State)
      requires Holds(s) && t < Tasks(s) && InNoQueue(s, t)
      modifies this`queues, nodes + heads
      ensures Holds(KernelSpec.ReadyAdd(s, t))
    {
      hide Valid, FirstMin;
      Alone(s, t);
      Sizes(s);
      LinkBefore(RUN, |s.runQueue|, heads[RUN], t);
      assert Insert(s.runQueue, |s.runQueue|, t) == s.runQueue + [t];
      assert queues == QueuesOf(KernelSpec.ReadyAdd(s, t));
    }

    /** OsTskReadyDel. */
    method ReadyDel(t: nat, ghost s: State)
      requires Holds(s) && t < Tasks(s) && t in s.runQueue
      modifies this`queues, nodes + heads
      ensures Holds(KernelSpec.ReadyDel(s, t))
    {
      hide Valid, FirstMin, Remove;
      Sizes(s);
      Unlink(t, RUN);
      assert queues == QueuesOf(KernelSpec.ReadyDel(s, t));
    }

    /** OsTskHighestSet. */
    method Highest(tcbs: seq<Tcb>, ghost s: State) returns (highest: Option<nat>)
      requires Holds(s) && tcbs == s.tcbs
      ensures highest == FirstMin(s.tcbs, s.runQueue)
    {
      Sizes(s);
      assert queues[RUN] == s.runQueue;
      RingTasks(RUN, s.runQueue);
      highest := IntrusiveList.HighestSet(heads[RUN], tcbs, RingOf(RUN, s.runQueue));
    }

    /** The tasks of a ring are those it was made for. */
    lemma RingTasks(i: nat, q: seq<nat>)
      requires i < |heads| && Known(q) && Objects()
      ensures TasksOf(RingOf(i, q)) == q
      ensures forall k :: 1 <= k <= |q| ==> RingOf(i, q)[k].task < |nodes|
    {
    }

    /** OsSemFindHighestWaiterPriority. */
    method LeastPriority(h: nat, tcbs: seq<Tcb>, ghost s: State) returns (p: nat)
      requires Holds(s) && h < |s.sems| && tcbs == s.tcbs
      ensures p == MinPrio(s.tcbs, s.sems[h].list)
    {
      Sizes(s);
      assert queues[WaitList(h)] == s.sems[h].list;
      RingTasks(WaitList(h), s.sems[h].list);
      p := HighestWaiterPriority(heads[WaitList(h)], tcbs, RingOf(WaitList(h), s.sems[h].list));
    }

    /** The place in list `i` for a task of priority `p`. */
    method FindWaiter(i: nat, tcbs: seq<Tcb>, p: nat) returns (at: ListObject, ghost k: nat)
      requires Valid() && i < |heads| && |nodes| <= |tcbs|
      ensures k == InsertAt(tcbs, queues[i], p)
      ensures at == if k < |queues[i]| then nodes[queues[i][k]] else heads[i]
    {
      hide InsertAt;
      RingTasks(i, queues[i]);
      at, k := FirstLessUrgent(heads[i], tcbs, p, RingOf(i, queues[i]));
    }

    /** The queueing in OsSemPendListPut. */
    method Enqueue(h: nat, tcbs: seq<Tcb>, t: nat, mode: SemMode, ghost s: State)
      requires Holds(s) && h < |s.sems| && tcbs == s.tcbs && t == s.running < Tasks(s) && mode == s.sems[h].mode
      requires InNoQueue(s, t)
      modifies this`queues, nodes + heads
      ensures Holds(SetSem(s, h, s.sems[h].(list := Insert(s.sems[h].list, PendPosition(s, h), t))))
    {
      hide Valid, InsertAt, Insert;
      Alone(s, t);
      Sizes(s);
      var i := WaitList(h);
      var at, k := heads[i], |s.sems[h].list|;
      assert queues[i] == s.sems[h].list;
      if mode == Prior {
        at, k := FindWaiter(i, tcbs, tcbs[t].priority);
      }
      LinkBefore(i, k, at, t);
      assert queues == QueuesOf(SetSem(s, h, s.sems[h].(list := Insert(s.sems[h].list, k, t))));
    }

    /** The dequeueing in OsSemPendListGet. */
    method Dequeue(h: nat, ghost s: State) returns (t: nat)
      requires Holds(s) && h < |s.sems| && s.sems[h].list != []
      modifies this`queues, nodes + heads
      ensures t == s.sems[h].list[0] && Holds(SetSem(s, h, s.sems[h].(list := s.sems[h].list[1..])))
    {
      hide Valid, Remove;
      Sizes(s);
      assert queues[WaitList(h)] == s.sems[h].list;
      t := TakeFirst(WaitList(h));
      assert queues == QueuesOf(SetSem(s, h, s.sems[h].(list := s.sems[h].list[1..])));
    }

    /** OsTaskCreateChkAndGetTcb: the first node off the free list. */
    method TakeFree(ghost s: State) returns (t: nat)
      requires Holds(s) && s.freeTcbs != []
      modifies this`queues, nodes + heads
      ensures t == s.freeTcbs[0] && Holds(s.(freeTcbs := s.freeTcbs[1..]))
    {
      hide Valid;
      Sizes(s);
      assert queues[FREE] == s.freeTcbs;
      t := TakeFirst(FREE);
      assert queues == QueuesOf(s.(freeTcbs := s.freeTcbs[1..]));
    }

    /** What OsTaskCreateOnly does when there is no stack: the node back to the front. */
    method PutBack(t: nat, ghost s: State)
      requires Holds(s) && t < Tasks(s) && InNoQueue(s, t)
      modifies this`queues, nodes + heads
      ensures Holds(s.(freeTcbs := [t] + s.freeTcbs))
    {
      hide Valid;
      Alone(s, t);
      Sizes(s);
      LinkFront(FREE, t);
      assert queues == QueuesOf(s.(freeTcbs := [t] + s.freeTcbs));
    }

    lemma Sizes(s: State)
      requires Holds(s)
      ensures |heads| == |queues| == 2 + |s.sems|
    {
    }
  }

  /** A node that no queue of the kernel mentions is in no ring. */
  lemma Alone(s: State, t: nat)
    requires InNoQueue(s, t)
    ensures InNone(QueuesOf(s), t)
  {
  }

  /** What stands where after an insertion, in the queue and in the ring. */
  lemma InsertAtPlace(q: seq<nat>, k: nat, t: nat)
    requires k <= |q|
    ensures var p := Insert(q, k, t);
            && |p| == |q| + 1 && p[k] == t
            && (forall a :: 0 <= a < k ==> p[a] == q[a]) && forall a :: k < a < |p| ==> p[a] == q[a - 1]
  {
  }

  lemma BeforeAtPlace(r: seq<ListObject>, k: nat, n: ListObject)
    requires k < |r|
    ensures var s := Before(r, if k + 1 < |r| then k + 1 else 0, n);
            && |s| == |r| + 1 && s[k + 1] == n
            && (forall a :: 0 <= a <= k ==> s[a] == r[a]) && forall a :: k + 1 < a < |s| ==> s[a] == r[a - 1]
  {
  }

  lemma FirstRemoved(q: seq<nat>)
    requires q != []
    ensures Remove(q, q[0]) == q[1..] && q[0] in q
  {
  }

  lemma SplitInsert(qs: seq<seq<nat>>, i: nat, k: nat, t: nat)
    requires Split(qs) && InNone(qs, t) && i < |qs| && k <= |qs[i]|
    ensures Split(qs[i := Insert(qs[i], k, t)])
  {
    assert qs[i] == qs[i][..k] + qs[i][k..];
    SplitUpdate(qs, i, Insert(qs[i], k, t), t);
  }

  lemma SplitFront(qs: seq<seq<nat>>, i: nat, t: nat)
    requires Split(qs) && InNone(qs, t) && i < |qs|
    ensures Split(qs[i := [t] + qs[i]])
  {
    SplitUpdate(qs, i, [t] + qs[i], t);
  }

  lemma SplitRemove(qs: seq<seq<nat>>, i: nat, t: nat)
    requires Split(qs) && i < |qs| && NoDup(qs[i])
    ensures Split(qs[i := Remove(qs[i], t)])
  {
    RemoveKeeps(qs[i], t);
    SplitUpdate(qs, i, Remove(qs[i], t), t);
  }
}
