/**
  Task queues as sequences of task numbers without duplicates, and the searches
  that the kernel makes through them.
  */
module Queues {
  import opened Options

  ghost predicate NoDup(q: seq<nat>) {
    forall i, j :: 0 <= i < j < |q| ==> q[i] != q[j]
  }

  /** `q` without its first `t`. */
  function Remove(q: seq<nat>, t: nat): (r: seq<nat>)
    ensures t !in q ==> r == q
  {
    if q == [] then []
    else if q[0] == t then q[1..]
    else [q[0]] + Remove(q[1..], t)
  }

  lemma {:induction false} RemoveKeeps(q: seq<nat>, t: nat)
    requires NoDup(q)
    ensures NoDup(Remove(q, t))
    ensures forall x :: x in Remove(q, t) <==> x in q && x != t
    ensures |Remove(q, t)| == if t in q then |q| - 1 else |q|
  {
    if q != [] {
      assert q == [q[0]] + q[1..];
      if q[0] == t {
        assert forall x :: x in q[1..] ==> x != q[0];
      } else {
        RemoveKeeps(q[1..], t);
        assert q[0] !in Remove(q[1..], t);
      }
    }
  }

  /** Removing an element leaves the rest in order. */
  lemma {:induction false} RemoveAt(q: seq<nat>, i: nat)
    requires NoDup(q) && i < |q|
    ensures Remove(q, q[i]) == q[..i] + q[i + 1..]
  {
    if i > 0 {
      assert q[1..][i - 1] == q[i];
      RemoveAt(q[1..], i - 1);
      assert [q[0]] + (q[1..][..i - 1] + q[1..][i..]) == q[..i] + q[i + 1..];
    }
  }

  lemma AppendKeeps(q: seq<nat>, t: nat)
    requires NoDup(q) && t !in q
    ensures NoDup(q + [t])
    ensures forall x :: x in q + [t] <==> x in q || x == t
  {}

  lemma TailKeeps(q: seq<nat>)
    requires NoDup(q) && q != []
    ensures NoDup(q[1..])
    ensures forall x :: x in q[1..] <==> x in q && x != q[0]
  {
    assert q == [q[0]] + q[1..];
    assert forall x :: x in q[1..] ==> x != q[0];
  }

  // ----- task control blocks -----

  datatype Flag = InUse | Suspend | Pending | Ready | Running

  /** The fields of TagTskCb that scheduling depends on. No status bit is `OS_TSK_UNUSED`. */
  datatype Tcb = Tcb(status: set<Flag>, priority: nat, originalPriority: nat, taskSem: Option<nat>)

  /** The effective priority of a task; a lower number is more urgent. */
  function Prio(tcbs: seq<Tcb>, t: nat): nat {
    if t < |tcbs| then tcbs[t].priority else 0
  }

  // ----- the most urgent member of a queue -----

  /** The first member of `q` that no member is more urgent than. */
  function FirstMin(tcbs: seq<Tcb>, q: seq<nat>): Option<nat>
  {
    if q == [] then None
    else
      var rest := FirstMin(tcbs, q[..|q| - 1]);
      var last := q[|q| - 1];
      if rest == None then Some(last)
      else if Prio(tcbs, last) < Prio(tcbs, rest.value) then Some(last)
      else rest
  }

  /** Position `k` holds the first minimum: everything before is less urgent, nothing after is more urgent. */
  ghost predicate FirstMinAt(tcbs: seq<Tcb>, q: seq<nat>, k: nat) {
    && k < |q|
    && (forall i :: 0 <= i < k ==> Prio(tcbs, q[k]) < Prio(tcbs, q[i]))
    && (forall i :: k <= i < |q| ==> Prio(tcbs, q[k]) <= Prio(tcbs, q[i]))
  }

  ghost predicate IsFirstMin(tcbs: seq<Tcb>, q: seq<nat>, t: nat) {
    exists k: nat :: FirstMinAt(tcbs, q, k) && q[k] == t
  }

  lemma {:induction false} FirstMinIs(tcbs: seq<Tcb>, q: seq<nat>)
    ensures FirstMin(tcbs, q) == None <==> q == []
    ensures q != [] ==> IsFirstMin(tcbs, q, FirstMin(tcbs, q).value)
  {
    if q != [] {
      var n := |q| - 1;
      var front, last := q[..n], q[n];
      FirstMinIs(tcbs, front);
      if front == [] {
        assert FirstMinAt(tcbs, q, 0);
      } else {
        var m := FirstMin(tcbs, front).value;
        var k: nat :| FirstMinAt(tcbs, front, k) && front[k] == m;
        assert forall i :: 0 <= i < n ==> q[i] == front[i];
        assert FirstMinAt(tcbs, q, if Prio(tcbs, last) < Prio(tcbs, m) then n else k);
      }
    }
  }

  /** Being the first minimum determines the task. */
  lemma FirstMinUnique(tcbs: seq<Tcb>, q: seq<nat>, t: nat)
    requires IsFirstMin(tcbs, q, t)
    ensures FirstMin(tcbs, q) == Some(t)
  {
    FirstMinIs(tcbs, q);
  }

  /** The first minimum depends only on the priorities of the members. */
  lemma {:induction false} FirstMinFrame(c: seq<Tcb>, c': seq<Tcb>, q: seq<nat>)
    requires forall i :: 0 <= i < |q| ==> Prio(c, q[i]) == Prio(c', q[i])
    ensures FirstMin(c, q) == FirstMin(c', q)
  {
    if q != [] {
      FirstMinFrame(c, c', q[..|q| - 1]);
      if q[..|q| - 1] != [] { FirstMinIs(c, q[..|q| - 1]); }
    }
  }

  /** The most urgent priority in `q`; 255 stands for "no member". */
  function MinPrio(tcbs: seq<Tcb>, q: seq<nat>): nat
  {
    if q == [] then 255
    else
      var m := MinPrio(tcbs, q[..|q| - 1]);
      if Prio(tcbs, q[|q| - 1]) < m then Prio(tcbs, q[|q| - 1]) else m
  }

  /** The least priority number is a member's, and no member has a lower one. */
  lemma {:induction false} MinPrioIs(tcbs: seq<Tcb>, q: seq<nat>)
    ensures forall t :: t in q ==> MinPrio(tcbs, q) <= Prio(tcbs, t)
    ensures MinPrio(tcbs, q) == 255 || exists t :: t in q && Prio(tcbs, t) == MinPrio(tcbs, q)
    ensures MinPrio(tcbs, q) <= 255
  {
    if q != [] {
      var n := |q| - 1;
      MinPrioIs(tcbs, q[..n]);
      assert q == q[..n] + [q[n]];
      assert q[n] in q;
    }
  }

  lemma MinPrioNone(tcbs: seq<Tcb>, q: seq<nat>)
    ensures MinPrio(tcbs, q[..0]) == 255
  {
  }

  lemma MinPrioNext(tcbs: seq<Tcb>, q: seq<nat>, k: nat)
    requires k < |q|
    ensures MinPrio(tcbs, q[..k + 1]) ==
            if Prio(tcbs, q[k]) < MinPrio(tcbs, q[..k]) then Prio(tcbs, q[k]) else MinPrio(tcbs, q[..k])
  {
    assert q[..k + 1][..k] == q[..k];
  }

  /** Queueing one more waiter can only lower the least priority number, to its own. */
  lemma {:induction false} MinPrioInsert(tcbs: seq<Tcb>, q: seq<nat>, k: nat, t: nat)
    requires k <= |q|
    ensures MinPrio(tcbs, Insert(q, k, t)) ==
            if Prio(tcbs, t) < MinPrio(tcbs, q) then Prio(tcbs, t) else MinPrio(tcbs, q)
  {
    var n := |q|;
    var r := Insert(q, k, t);
    if k == n {
      assert r[..n] == q;
    } else {
      MinPrioInsert(tcbs, q[..n - 1], k, t);
      assert r[..n] == Insert(q[..n - 1], k, t);
      assert r[n] == q[n - 1];
    }
  }

  lemma {:induction false} MinPrioFrame(c: seq<Tcb>, c': seq<Tcb>, q: seq<nat>)
    requires forall i :: 0 <= i < |q| ==> Prio(c, q[i]) == Prio(c', q[i])
    ensures MinPrio(c, q) == MinPrio(c', q)
  {
    if q != [] { MinPrioFrame(c, c', q[..|q| - 1]); }
  }

  // ----- wait lists -----

  /** The position before which a waiter of priority `p` is queued: behind all that are as urgent. */
  function InsertAt(tcbs: seq<Tcb>, q: seq<nat>, p: nat): (k: nat)
    ensures k <= |q|
    ensures forall i :: 0 <= i < k ==> Prio(tcbs, q[i]) <= p
    ensures k < |q| ==> Prio(tcbs, q[k]) > p
  {
    if q == [] || Prio(tcbs, q[0]) > p then 0
    else 1 + InsertAt(tcbs, q[1..], p)
  }

  /** One step of the search. */
  lemma InsertAtNext(tcbs: seq<Tcb>, q: seq<nat>, k: nat, p: nat)
    requires k < |q|
    ensures InsertAt(tcbs, q[k..], p) == if Prio(tcbs, q[k]) > p then 0 else 1 + InsertAt(tcbs, q[k + 1..], p)
  {
    assert q[k..][1..] == q[k + 1..];
  }

  lemma InsertAtEnd(tcbs: seq<Tcb>, p: nat)
    ensures InsertAt(tcbs, [], p) == 0
  {
  }

  lemma {:induction false} InsertAtFrame(c: seq<Tcb>, c': seq<Tcb>, q: seq<nat>, p: nat)
    requires forall i :: 0 <= i < |q| ==> Prio(c, q[i]) == Prio(c', q[i])
    ensures InsertAt(c, q, p) == InsertAt(c', q, p)
  {
    if q != [] { InsertAtFrame(c, c', q[1..], p); }
  }

  function Insert(q: seq<nat>, k: nat, t: nat): seq<nat>
    requires k <= |q|
  {
    q[..k] + [t] + q[k..]
  }

  lemma InsertKeeps(q: seq<nat>, k: nat, t: nat)
    requires k <= |q| && NoDup(q) && t !in q
    ensures NoDup(Insert(q, k, t))
    ensures forall x :: x in Insert(q, k, t) <==> x in q || x == t
  {
    assert q == q[..k] + q[k..];
  }

  /** Most urgent first, and first come first served among equals. */
  ghost predicate Sorted(tcbs: seq<Tcb>, q: seq<nat>)
  {
    forall i, j :: 0 <= i < j < |q| ==> Prio(tcbs, q[i]) <= Prio(tcbs, q[j])
  }

  lemma InsertSorted(tcbs: seq<Tcb>, q: seq<nat>, t: nat)
    requires Sorted(tcbs, q)
    ensures Sorted(tcbs, Insert(q, InsertAt(tcbs, q, Prio(tcbs, t)), t))
  {
    hide Prio;
    var k := InsertAt(tcbs, q, Prio(tcbs, t));
    forall i | 0 <= i < |q[k..]|
      ensures Prio(tcbs, t) <= Prio(tcbs, q[k..][i])
    {
      assert q[k..][i] == q[k + i];
      if i > 0 { assert Prio(tcbs, q[k]) <= Prio(tcbs, q[k + i]); }
    }
    assert q[..k] + q[k..] == q;
    SortedJoin(tcbs, q[..k], t, q[k..]);
  }

  lemma SortedJoin(tcbs: seq<Tcb>, a: seq<nat>, t: nat, b: seq<nat>)
    requires Sorted(tcbs, a + b)
    requires forall i :: 0 <= i < |a| ==> Prio(tcbs, a[i]) <= Prio(tcbs, t)
    requires forall i :: 0 <= i < |b| ==> Prio(tcbs, t) <= Prio(tcbs, b[i])
    ensures Sorted(tcbs, a + [t] + b)
  {
    var r := a + [t] + b;
    forall i, j | 0 <= i < j < |r|
      ensures Prio(tcbs, r[i]) <= Prio(tcbs, r[j])
    {
      if i < |a| && j > |a| {
        assert r[i] == (a + b)[i] && r[j] == (a + b)[j - 1];
      } else if j < |a| {
        assert r[i] == (a + b)[i] && r[j] == (a + b)[j];
      } else if i > |a| {
        assert r[i] == (a + b)[i - 1] && r[j] == (a + b)[j - 1];
      }
    }
  }
}
