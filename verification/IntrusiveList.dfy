/**
  The circular doubly linked lists of src/include/prt_list_external.h on the heap. A ring is described
  by its nodes in order, the list head first; the queues of the kernel are the task numbers behind the head.
  */
module IntrusiveList {
  import opened Options
  import opened Queues

  /** A node lies inside a task control block; `task` is the block that LIST_COMPONENT finds around it. */
  class ListObject {
    var prev: ListObject?
    var next: ListObject?
    const task: nat

    /** INIT_LIST_OBJECT */
    constructor (t: nat)
      ensures task == t && Ring([this])
    {
      task := t;
      prev, next := this, this;
    }
  }

  ghost predicate Distinct(r: seq<ListObject>) {
    forall i, j :: 0 <= i < j < |r| ==> r[i] != r[j]
  }

  ghost predicate Linked(a: ListObject, b: ListObject)
    reads a, b
  {
    a.next == b && b.prev == a
  }

  /** The nodes of `r` form one ring, in this order. */
  ghost predicate Ring(r: seq<ListObject>)
    reads r
  {
    && r != []
    && Distinct(r)
    && Linked(r[|r| - 1], r[0])
    && forall i :: 1 <= i < |r| ==> Linked(r[i - 1], r[i])
  }

  /** The tasks whose nodes stand behind the list head. */
  ghost function TasksOf(r: seq<ListObject>): (q: seq<nat>)
    requires r != []
    ensures |q| == |r| - 1
    ensures forall i :: 0 <= i < |q| ==> q[i] == r[i + 1].task
  {
    seq(|r| - 1, i requires 0 <= i < |r| - 1 => r[i + 1].task)
  }

  /** No task is the container of two nodes. */
  ghost predicate OneNodeEach(r: seq<ListObject>) {
    forall i, j :: 1 <= i < j < |r| ==> r[i].task != r[j].task
  }

  /** A node squeezed in between two neighbours, the k-th and the one after it. */
  method ListLowLevelAdd(newNode: ListObject, prev: ListObject, next: ListObject,
                         ghost r: seq<ListObject>, ghost k: nat)
    requires Ring(r) && newNode !in r
    requires k < |r| && prev == r[k] && next == if k + 1 < |r| then r[k + 1] else r[0]
    modifies newNode, prev`next, next`prev
    ensures Ring(r[..k + 1] + [newNode] + r[k + 1..])
  {
    newNode.next := next;
    newNode.prev := prev;
    next.prev := newNode;
    prev.next := newNode;
    ghost var s := r[..k + 1] + [newNode] + r[k + 1..];
    forall i | 1 <= i < |s|
      ensures Linked(s[i - 1], s[i])
    {
      if i <= k {
        assert s[i - 1] == r[i - 1] && s[i] == r[i] && Linked(r[i - 1], r[i]);
      } else if i > k + 2 {
        assert s[i - 1] == r[i - 2] && s[i] == r[i - 1] && Linked(r[i - 2], r[i - 1]);
      }
    }
  }

  /** Behind the k-th node: for the list head, at the front of the queue. */
  method ListAdd(newNode: ListObject, listObject: ListObject, ghost r: seq<ListObject>)
    requires Ring(r) && r[0] == listObject && newNode !in r
    modifies newNode, r
    ensures Ring([r[0], newNode] + r[1..])
    ensures TasksOf([r[0], newNode] + r[1..]) == [newNode.task] + TasksOf(r)
  {
    assert |r| > 1 ==> Linked(r[0], r[1]);
    ListLowLevelAdd(newNode, listObject, listObject.next, r, 0);
    assert r[..1] + [newNode] + r[1..] == [r[0], newNode] + r[1..];
  }

  /** The ring with a node in front of the k-th; in front of the list head is the end of the queue. */
  ghost function Before(r: seq<ListObject>, k: nat, n: ListObject): seq<ListObject>
    requires k < |r|
  {
    if k == 0 then r + [n] else r[..k] + [n] + r[k..]
  }

  lemma BeforeTasks(r: seq<ListObject>, k: nat, n: ListObject)
    requires k < |r|
    ensures var q := TasksOf(r);
            TasksOf(Before(r, k, n)) == if k == 0 then q + [n.task] else Insert(q, k - 1, n.task)
  {
    var x, q := TasksOf(Before(r, k, n)), TasksOf(r);
    var y := if k == 0 then q + [n.task] else Insert(q, k - 1, n.task);
    forall a | 0 <= a < |x| ensures x[a] == y[a] {
    }
  }

  method ListTailAdd(newNode: ListObject, listObject: ListObject, ghost r: seq<ListObject>, ghost k: nat)
    requires Ring(r) && k < |r| && r[k] == listObject && newNode !in r
    modifies newNode, r
    ensures Ring(Before(r, k, newNode))
    ensures var q := TasksOf(r);
            TasksOf(Before(r, k, newNode)) == if k == 0 then q + [newNode.task] else Insert(q, k - 1, newNode.task)
  {
    hide TasksOf, Insert;
    ghost var j := if k == 0 then |r| - 1 else k - 1;
    assert k > 0 ==> Linked(r[k - 1], r[k]);
    ListLowLevelAdd(newNode, listObject.prev, listObject, r, j);
    if k == 0 {
      assert r[..j + 1] + [newNode] + r[j + 1..] == r + [newNode];
    }
    BeforeTasks(r, k, newNode);
  }

  method ListLowLevelDelete(prevNode: ListObject, nextNode: ListObject)
    modifies prevNode`next, nextNode`prev
    ensures Linked(prevNode, nextNode)
  {
    nextNode.prev := prevNode;
    prevNode.next := nextNode;
  }

  /** A node taken out of its ring; the others stay linked in their order. */
  method ListDelete(node: ListObject, ghost r: seq<ListObject>, ghost k: nat)
    requires Ring(r) && 1 <= k < |r| && r[k] == node
    modifies r
    ensures Ring(r[..k] + r[k + 1..])
    ensures node.next == null && node.prev == null
    ensures TasksOf(r[..k] + r[k + 1..]) == TasksOf(r)[..k - 1] + TasksOf(r)[k..]
    ensures OneNodeEach(r) ==> TasksOf(r[..k] + r[k + 1..]) == Remove(TasksOf(r), node.task)
  {
    ghost var next := if k + 1 < |r| then r[k + 1] else r[0];
    assert Linked(r[k - 1], r[k]) && Linked(r[k], next) by {
      assert k + 1 < |r| ==> Linked(r[k], r[k + 1]);
    }
    ListLowLevelDelete(node.prev, node.next);
    node.next := null;
    node.prev := null;
    ghost var s := r[..k] + r[k + 1..];
    forall i | 1 <= i < |s|
      ensures Linked(s[i - 1], s[i])
    {
      if i < k {
        assert s[i - 1] == r[i - 1] && s[i] == r[i] && old(Linked(r[i - 1], r[i]));
      } else if i > k {
        assert s[i - 1] == r[i] && s[i] == r[i + 1] && old(Linked(r[i], r[i + 1]));
      }
    }
    if OneNodeEach(r) {
      assert NoDup(TasksOf(r));
      RemoveAt(TasksOf(r), k - 1);
    }
  }

  /** The list is empty when its head is alone in the ring. */
  method ListEmpty(listObject: ListObject, ghost r: seq<ListObject>) returns (empty: bool)
    requires Ring(r) && r[0] == listObject
    ensures empty <==> TasksOf(r) == []
  {
    assert |r| > 1 ==> Linked(r[0], r[1]);
    empty := listObject.next == listObject && listObject.prev == listObject;
  }

  // ----- among other lists -----

  ghost function Nodes(rs: seq<seq<ListObject>>): set<ListObject> {
    set j, b | 0 <= j < |rs| && 0 <= b < |rs[j]| :: rs[j][b]
  }

  /** Each list but the empty placeholders is a ring. */
  ghost predicate Rings(rs: seq<seq<ListObject>>)
    reads Nodes(rs)
  {
    forall j :: 0 <= j < |rs| && rs[j] != [] ==> Ring(rs[j])
  }

  /** Linking a node into a ring leaves every disjoint ring alone. */
  method ListTailAddAmong(newNode: ListObject, listObject: ListObject,
                          ghost r: seq<ListObject>, ghost k: nat, ghost others: seq<seq<ListObject>>)
    requires Ring(r) && k < |r| && r[k] == listObject && newNode !in r
    requires Rings(others) && newNode !in Nodes(others) && forall x :: x in r ==> x !in Nodes(others)
    modifies newNode, r
    ensures Ring(Before(r, k, newNode)) && Rings(others)
  {
    hide Before, TasksOf;
    ListTailAdd(newNode, listObject, r, k);
  }

  method ListAddAmong(newNode: ListObject, listObject: ListObject,
                      ghost r: seq<ListObject>, ghost others: seq<seq<ListObject>>)
    requires Ring(r) && r[0] == listObject && newNode !in r
    requires Rings(others) && newNode !in Nodes(others) && forall x :: x in r ==> x !in Nodes(others)
    modifies newNode, r
    ensures Ring([r[0], newNode] + r[1..]) && Rings(others)
  {
    hide TasksOf;
    ListAdd(newNode, listObject, r);
  }

  method ListDeleteAmong(node: ListObject, ghost r: seq<ListObject>, ghost k: nat, ghost others: seq<seq<ListObject>>)
    requires Ring(r) && 1 <= k < |r| && r[k] == node
    requires Rings(others) && forall x :: x in r ==> x !in Nodes(others)
    modifies r
    ensures Ring(r[..k] + r[k + 1..]) && Rings(others)
  {
    hide TasksOf, OneNodeEach;
    assert forall o :: o in Nodes(others) ==> o !in r;
    ListDelete(node, r, k);
    assert forall o :: o in Nodes(others) ==> unchanged(o);
  }

  /** A task moved from one queue to the end of another, as when it pends: both lists stay whole. */
  method MoveToTail(node: ListObject, head: ListObject,
                    ghost from: seq<ListObject>, ghost k: nat, ghost to: seq<ListObject>)
    requires Ring(from) && 1 <= k < |from| && from[k] == node && OneNodeEach(from)
    requires Ring(to) && to[0] == head
    requires forall i :: 0 <= i < |to| ==> to[i] !in from
    modifies from, to
    ensures Ring(from[..k] + from[k + 1..]) && TasksOf(from[..k] + from[k + 1..]) == Remove(TasksOf(from), node.task)
    ensures Ring(to + [node]) && TasksOf(to + [node]) == TasksOf(to) + [node.task]
  {
    hide TasksOf, Remove, OneNodeEach;
    ListDelete(node, from, k);
    assert Ring(to) by {
      assert forall i :: 0 <= i < |to| ==> unchanged(to[i]);
    }
    ListTailAdd(node, head, to, 0);
    assert from[k] !in from[..k] + from[k + 1..];
  }

  /** OsTskHighestSet: the traversal from the list head returns the first most urgent task. */
  method HighestSet(head: ListObject, tcbs: seq<Tcb>, ghost r: seq<ListObject>) returns (highest: Option<nat>)
    requires Ring(r) && r[0] == head
    requires forall i :: 1 <= i < |r| ==> r[i].task < |tcbs|
    ensures highest == FirstMin(tcbs, TasksOf(r))
  {
    highest := None;
    ghost var q := TasksOf(r);
    ghost var k := 1;
    var node := head.next;
    assert |r| > 1 ==> Linked(r[0], r[1]);
    while node != head
      invariant 1 <= k <= |r|
      invariant node == if k < |r| then r[k] else r[0]
      invariant highest == FirstMin(tcbs, q[..k - 1])
      invariant highest.Some? ==> highest.value < |tcbs|
      decreases |r| - k
    {
      assert q[..k][..k - 1] == q[..k - 1] && q[..k][k - 1] == node.task;
      if highest == None {
        highest := Some(node.task);
      } else if tcbs[node.task].priority < tcbs[highest.value].priority {
        highest := Some(node.task);
      }
      assert k + 1 < |r| ==> Linked(r[k], r[k + 1]);
      node := node.next;
      k := k + 1;
    }
    assert q[..k - 1] == q;
  }

  /** OsSemFindHighestWaiterPriority: the same traversal for the least priority number. */
  method HighestWaiterPriority(head: ListObject, tcbs: seq<Tcb>, ghost r: seq<ListObject>) returns (p: nat)
    requires Ring(r) && r[0] == head
    requires forall i :: 1 <= i < |r| ==> r[i].task < |tcbs|
    ensures p == MinPrio(tcbs, TasksOf(r))
  {
    hide MinPrio;
    ghost var q, k := TasksOf(r), 1;
    p := 255;
    var node := head.next;
    assert |r| > 1 ==> Linked(r[0], r[1]);
    MinPrioNone(tcbs, q);
    while node != head
      invariant 1 <= k <= |r|
      invariant node == if k < |r| then r[k] else r[0]
      invariant p == MinPrio(tcbs, q[..k - 1])
      decreases |r| - k
    {
      MinPrioNext(tcbs, q, k - 1);
      if tcbs[node.task].priority < p {
        p := tcbs[node.task].priority;
      }
      assert k + 1 < |r| ==> Linked(r[k], r[k + 1]);
      node := node.next;
      k := k + 1;
    }
    assert q[..k - 1] == q;
  }

  /** The search of OsSemPendListPut: the node of the first waiter that is less urgent, or the list head. */
  method FirstLessUrgent(head: ListObject, tcbs: seq<Tcb>, p: nat, ghost r: seq<ListObject>)
    returns (at: ListObject, ghost k: nat)
    requires Ring(r) && r[0] == head
    requires forall i :: 1 <= i < |r| ==> r[i].task < |tcbs|
    ensures k == InsertAt(tcbs, TasksOf(r), p)
    ensures at == if k + 1 < |r| then r[k + 1] else head
  {
    hide InsertAt;
    ghost var q := TasksOf(r);
    assert |r| > 1 ==> Linked(r[0], r[1]);
    assert Linked(r[|r| - 1], r[0]);
    at, k := head.next, 0;
    assert q[0..] == q && q[|q|..] == [];
    while at != head && tcbs[at.task].priority <= p
      invariant k <= |q| && at == if k < |q| then r[k + 1] else r[0]
      invariant InsertAt(tcbs, q, p) == k + InsertAt(tcbs, q[k..], p)
      decreases |q| - k
    {
      InsertAtNext(tcbs, q, k, p);
      assert k + 2 < |r| ==> Linked(r[k + 1], r[k + 2]);
      at := at.next;
      k := k + 1;
    }
    if k < |q| { InsertAtNext(tcbs, q, k, p); } else { InsertAtEnd(tcbs, p); }
  }

  /** Appending a task that is not more urgent never changes the choice. */
  lemma AppendKeepsHighest(tcbs: seq<Tcb>, q: seq<nat>, t: nat)
    requires q != []
    ensures FirstMin(tcbs, q + [t]) == FirstMin(tcbs, q) || FirstMin(tcbs, q + [t]) == Some(t)
    ensures FirstMin(tcbs, q + [t]) == FirstMin(tcbs, q) <==>
            Prio(tcbs, FirstMin(tcbs, q).value) <= Prio(tcbs, t) || FirstMin(tcbs, q) == Some(t)
  {
    FirstMinIs(tcbs, q);
    assert (q + [t])[..|q|] == q;
  }
}
