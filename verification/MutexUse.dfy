/**
  Semaphores used as mutexes, without nesting: created with count 1, posted by their
  owner only, and no task pends or exits while it owns one. Under this use, in either
  wake mode, priority inheritance does what it is for.
  */
module MutexUse {
  import opened Options
  import opened Queues
  import opened KernelSpec
  import opened KernelInv

  predicate Owns(s: State, t: nat, h: nat) {
    h < |s.sems| && s.sems[h].used && s.sems[h].owner == Some(t)
  }

  ghost predicate OwnsNothing(s: State, t: nat) {
    forall h {:trigger Owns(s, t, h)} :: 0 <= h < |s.sems| ==> !Owns(s, t, h)
  }

  /** A mutex is free, with count 1 and nobody waiting, or owned by a ready task. Its owner's priority
      is raised only to that of its most urgent waiter. In priority mode the waiters are sorted
      and none is more urgent than the owner. */
  ghost predicate MutexOk(s: State, h: nat)
    requires h < |s.sems|
  {
    var m := s.sems[h];
    m.used ==>
      && m.count == (if m.owner.None? then 1 else 0)
      && (m.owner == None ==> m.list == [])
      && (m.owner.Some? ==>
            var o := m.owner.value;
            && o in s.runQueue && o < Tasks(s)
            && (s.tcbs[o].priority != s.tcbs[o].originalPriority ==>
                  m.list != [] && s.tcbs[o].priority == MinPrio(s.tcbs, m.list))
            && (m.mode == Prior ==>
                  && Sorted(s.tcbs, m.list)
                  && forall w :: w in m.list ==> s.tcbs[o].priority <= Prio(s.tcbs, w)))
  }

  /** A task owns at most one mutex, and runs at its own priority while it owns none. */
  ghost predicate OwnerOk(s: State, t: nat)
    requires t < |s.tcbs|
  {
    && (s.tcbs[t].status != {} && OwnsNothing(s, t) ==> s.tcbs[t].priority == s.tcbs[t].originalPriority)
    && forall g: nat, h: nat {:trigger Owns(s, t, g), Owns(s, t, h)} :: Owns(s, t, g) && Owns(s, t, h) ==> g == h
  }

  ghost predicate MutexInv(s: State) {
    && WF(s)
    && (s.active ==> s.highest == Some(s.running))
    && (forall h {:trigger MutexOk(s, h)} :: 0 <= h < |s.sems| ==> MutexOk(s, h))
    && (forall t {:trigger OwnerOk(s, t)} :: 0 <= t < Tasks(s) ==> OwnerOk(s, t))
  }

  /** Non-nested mutex use. */
  ghost predicate MutexCall(s: State, c: Call) {
    && Allowed(s, c)
    && match c
       case CSemCreate(count, _, _) => count == 1
       case CPend(h, _) => OwnsNothing(s, s.running)
       case CPost(h) => h < |s.sems| && s.sems[h].used ==> s.sems[h].owner == Some(s.running)
       case CExit => OwnsNothing(s, s.running)
       case _ => true
  }

  lemma MutexIsWF(s: State)
    requires MutexInv(s)
    ensures WF(s)
  {}

  lemma GetMutex(s: State, h: nat)
    requires MutexInv(s) && h < |s.sems|
    ensures MutexOk(s, h) && SemOk(s, h)
  {}

  lemma GetOwner(s: State, t: nat)
    requires MutexInv(s) && t < Tasks(s)
    ensures OwnerOk(s, t) && TaskOk(s, t)
  {}

  // ----- what the invariant means -----

  /** Bounded inversion: the running task is at least as urgent as the owner of a priority-mode
      mutex, and the owner at least as urgent as each of its waiters. */
  lemma BoundedInversion(s: State, h: nat, w: nat)
    requires MutexInv(s) && s.active && h < |s.sems| && s.sems[h].mode == Prior && w in s.sems[h].list
    ensures s.sems[h].owner.Some?
    ensures Prio(s.tcbs, s.running) <= Prio(s.tcbs, s.sems[h].owner.value) <= Prio(s.tcbs, w)
    ensures Sorted(s.tcbs, s.sems[h].list)
  {
    GetMutex(s, h);
    MostUrgentRuns(s, s.sems[h].owner.value);
  }

  /** The cached task runs, and no ready task is more urgent. */
  lemma MostUrgentRuns(s: State, t: nat)
    requires MutexInv(s) && s.active && t in s.runQueue
    ensures s.highest == Some(s.running) && s.running in s.runQueue
    ensures Prio(s.tcbs, s.running) <= Prio(s.tcbs, t)
  {
    FirstMinIs(s.tcbs, s.runQueue);
    var k: nat :| FirstMinAt(s.tcbs, s.runQueue, k) && s.runQueue[k] == s.running;
    var i :| 0 <= i < |s.runQueue| && s.runQueue[i] == t;
  }

  /** Boost discipline: a priority differs from the original one only while the task owns a mutex
      with waiters, and then it is the priority of the most urgent waiter, above its own. */
  lemma BoostDiscipline(s: State, t: nat)
    requires MutexInv(s) && t < Tasks(s) && s.tcbs[t].status != {}
    requires s.tcbs[t].priority != s.tcbs[t].originalPriority
    ensures exists h: nat :: Owns(s, t, h) && s.sems[h].list != []
                        && s.tcbs[t].priority == MinPrio(s.tcbs, s.sems[h].list) < s.tcbs[t].originalPriority
                        && forall g: nat :: Owns(s, t, g) ==> g == h
  {
    GetOwner(s, t);
    var h: nat :| h < |s.sems| && Owns(s, t, h);
    GetMutex(s, h);
  }

  // ----- preservation, by cases -----

  lemma MutexTake(s: State, h: nat)
    requires MutexInv(s) && s.active && h < |s.sems| && s.sems[h].used && s.sems[h].count > 0
    requires OwnsNothing(s, s.running)
    ensures MutexInv(SetSem(s, h, s.sems[h].(count := s.sems[h].count - 1, owner := Some(s.running))))
  {
    var r := s.running;
    var s' := SetSem(s, h, s.sems[h].(count := s.sems[h].count - 1, owner := Some(r)));
    TakeWF(s, h);
    GetMutex(s, h);
    GetOwner(s, r);
    forall g | 0 <= g < |s'.sems| ensures MutexOk(s', g) { GetMutex(s, g); }
    forall t | 0 <= t < Tasks(s') ensures OwnerOk(s', t) {
      GetOwner(s, t);
      forall g: nat ensures Owns(s', t, g) <==> if g == h then t == r else Owns(s, t, g) {}
      if t == r { assert Owns(s', t, h); }
      if OwnsNothing(s', t) {
        forall g | 0 <= g < |s.sems| ensures !Owns(s, t, g) { assert !Owns(s', t, g); }
      }
    }
  }

  /** A mutex whose owner, waiters and control block are as before stays in order. */
  lemma MutexOkFrame(s: State, s': State, h: nat)
    requires MutexInv(s) && h < |s.sems| == |s'.sems| && |s'.tcbs| == |s.tcbs| && s'.sems[h] == s.sems[h]
    requires s.sems[h].used && s.sems[h].owner.Some? ==> s.sems[h].owner.value in s'.runQueue
    requires forall t :: 0 <= t < Tasks(s) && s.sems[h].used && (s.sems[h].owner == Some(t) || t in s.sems[h].list) ==>
               && s'.tcbs[t].priority == s.tcbs[t].priority
               && s'.tcbs[t].originalPriority == s.tcbs[t].originalPriority
    ensures MutexOk(s', h)
  {
    GetMutex(s, h);
    var m := s.sems[h];
    if m.used && m.owner.Some? {
      assert forall i :: 0 <= i < |m.list| ==> m.list[i] in m.list;
      forall i | 0 <= i < |m.list| ensures Prio(s.tcbs, m.list[i]) == Prio(s'.tcbs, m.list[i]) {
        assert m.list[i] in m.list;
        assert s'.tcbs[m.list[i]].priority == s.tcbs[m.list[i]].priority;
      }
      MinPrioFrame(s.tcbs, s'.tcbs, m.list);
    }
  }

  /** Ownership depends on the semaphores only. */
  lemma OwnerOkFrame(s: State, s': State, t: nat)
    requires MutexInv(s) && t < Tasks(s) && |s'.tcbs| == |s.tcbs| && |s'.sems| == |s.sems|
    requires forall h :: 0 <= h < |s.sems| ==> s'.sems[h].used == s.sems[h].used && s'.sems[h].owner == s.sems[h].owner
    requires OwnsNothing(s, t) && s'.tcbs[t].status != {} ==> s'.tcbs[t].priority == s'.tcbs[t].originalPriority
    ensures OwnerOk(s', t)
  {
    GetOwner(s, t);
    forall h: nat ensures Owns(s', t, h) <==> Owns(s, t, h) {}
    if OwnsNothing(s', t) {
      forall h | 0 <= h < |s.sems| ensures !Owns(s, t, h) { assert !Owns(s', t, h); }
    }
  }

  /** Choosing who runs changes neither priorities nor queues nor semaphores. */
  lemma ScheduleFrame(s: State)
    requires Switchable(s)
    ensures var s' := Schedule(s);
            && s' == s.(tcbs := s'.tcbs, running := s'.running)
            && |s'.tcbs| == |s.tcbs|
            && forall t :: 0 <= t < |s.tcbs| ==>
                 && s'.tcbs[t].priority == s.tcbs[t].priority
                 && s'.tcbs[t].originalPriority == s.tcbs[t].originalPriority
                 && s'.tcbs[t].taskSem == s.tcbs[t].taskSem
                 && (s'.tcbs[t].status == {} <==> s.tcbs[t].status == {})
  {
    ScheduleWF(s);
    forall t | 0 <= t < Tasks(s) ensures s.tcbs[t].status == {} <==> Schedule(s).tcbs[t].status == {} {
      GetTask(s, t);
      GetTask(Schedule(s), t);
    }
  }

  lemma OwnersDoNotWait(s: State, o: nat, h: nat, g: nat)
    requires MutexInv(s) && Owns(s, o, h) && g < |s.sems|
    ensures o !in s.sems[g].list && o in s.runQueue && o < Tasks(s)
  {
    GetMutex(s, h);
    GetMutex(s, g);
    GetOwner(s, o);
  }

  function Lower(p: nat, q: nat): nat {
    if q < p then q else p
  }

  /** Blocking on an owned mutex queues the caller and raises the owner to its most urgent waiter. */
  ghost predicate BlockedOn(s: State, s': State, h: nat, o: nat)
    requires h < |s.sems|
  {
    var r, list' := s.running, Insert(s.sems[h].list, PendPosition(s, h), s.running);
    && |s'.tcbs| == |s.tcbs| && o < Tasks(s) && o != r
    && s'.sems == s.sems[h := s.sems[h].(list := list')]
    && (forall t :: 0 <= t < |s.tcbs| ==>
          && s'.tcbs[t].originalPriority == s.tcbs[t].originalPriority
          && s'.tcbs[t].priority == if t == o then Lower(s.tcbs[o].priority, MinPrio(s.tcbs, list'))
                                    else s.tcbs[t].priority)
    && (forall t :: 0 <= t < |s.tcbs| && t != r ==> (s'.tcbs[t].status == {} <==> s.tcbs[t].status == {}))
  }

  /** The caller leaves the run queue for the wait list; no priority changes yet. */
  lemma QueuedEffect(s: State, h: nat)
    requires s.running < |s.tcbs| && h < |s.sems|
    ensures var r, s2 := s.running, Enlist(ReadyDel(s, s.running), h);
            && s2.sems == s.sems[h := s.sems[h].(list := Insert(s.sems[h].list, PendPosition(s, h), r))]
            && |s2.tcbs| == |s.tcbs| && s2.running == r
            && (forall t :: 0 <= t < |s.tcbs| ==>
                  && s2.tcbs[t].priority == s.tcbs[t].priority
                  && s2.tcbs[t].originalPriority == s.tcbs[t].originalPriority
                  && (t != r ==> s2.tcbs[t].status == s.tcbs[t].status))
  {
    var r, m := s.running, s.sems[h];
    var s1 := ReadyDel(s, r);
    var s1' := SetTcb(s1, r, s1.tcbs[r].(status := s1.tcbs[r].status + {Pending}, taskSem := Some(h)));
    InsertAtFrame(s.tcbs, s1'.tcbs, m.list, Prio(s.tcbs, r));
  }

  /** Inheritance from a waiter that is already queued takes the least priority number of the list. */
  lemma InheritEffect(s: State, h: nat, w: nat, o: nat)
    requires h < |s.sems| && s.sems[h].owner == Some(o) && o < |s.tcbs| && s.tcbs[o].status != {}
    requires MinPrio(s.tcbs, s.sems[h].list) <= Prio(s.tcbs, w)
    ensures var s' := Inherit(s, h, w);
            && |s'.tcbs| == |s.tcbs| && s'.sems == s.sems
            && s'.tcbs[o] == s.tcbs[o].(priority := Lower(s.tcbs[o].priority, MinPrio(s.tcbs, s.sems[h].list)))
            && forall t :: 0 <= t < |s.tcbs| && t != o ==> s'.tcbs[t] == s.tcbs[t]
  {
    SetPriorityFrame(s, o, MinPrio(s.tcbs, s.sems[h].list));
  }

  lemma BlockEffect(s: State, h: nat, o: nat)
    requires MutexInv(s) && s.active && s.running != s.idle && h < |s.sems| && s.sems[h].count == 0
    requires OwnsNothing(s, s.running) && Owns(s, o, h)
    ensures BlockedOn(s, PendListPut(s, h), h, o)
  {
    hide Enlist, Inherit, SetPriority, Insert, MutexOk, OwnerOk, FirstMin, Remove;
    var r, k := s.running, PendPosition(s, h);
    assert !Owns(s, r, h);
    OwnersDoNotWait(s, o, h, h);
    GetOwner(s, r);
    GetOwner(s, o);
    QueuedEffect(s, h);
    var s2, list' := Enlist(ReadyDel(s, r), h), Insert(s.sems[h].list, k, r);
    MinPrioFrame(s.tcbs, s2.tcbs, list');
    MinPrioInsert(s.tcbs, s.sems[h].list, k, r);
    InheritEffect(s2, h, r, o);
  }

  /** The waiters of the mutex that the caller was queued on keep their priorities. */
  lemma BlockedWaiters(s: State, s': State, h: nat, o: nat)
    requires MutexInv(s) && h < |s.sems| && Owns(s, o, h) && BlockedOn(s, s', h, o)
    requires s.running < Tasks(s) && s.running !in s.sems[h].list
    ensures var list' := s'.sems[h].list;
            && (forall w :: w in list' ==> Prio(s'.tcbs, w) == Prio(s.tcbs, w))
            && MinPrio(s'.tcbs, list') == MinPrio(s.tcbs, list')
                 == Lower(MinPrio(s.tcbs, s.sems[h].list), Prio(s.tcbs, s.running))
            && (s.sems[h].mode == Prior ==> Sorted(s'.tcbs, list'))
  {
    hide WF, OwnerOk, Insert;
    var m, r, k := s.sems[h], s.running, PendPosition(s, h);
    var list' := Insert(m.list, k, r);
    BlockedPrios(s, s', h, o);
    MinPrioFrame(s.tcbs, s'.tcbs, list');
    MinPrioInsert(s.tcbs, m.list, k, r);
    if m.mode == Prior {
      GetMutex(s, h);
      InsertSorted(s.tcbs, m.list, r);
      SortedFrame(s.tcbs, s'.tcbs, list');
    }
  }

  lemma BlockedPrios(s: State, s': State, h: nat, o: nat)
    requires MutexInv(s) && h < |s.sems| && Owns(s, o, h) && BlockedOn(s, s', h, o)
    requires s.running < Tasks(s) && s.running !in s.sems[h].list
    ensures var list' := s'.sems[h].list;
            forall i :: 0 <= i < |list'| ==> Prio(s'.tcbs, list'[i]) == Prio(s.tcbs, list'[i])
  {
    hide WF, OwnerOk, Insert;
    var list' := Insert(s.sems[h].list, PendPosition(s, h), s.running);
    GetMutex(s, h);
    OwnersDoNotWait(s, o, h, h);
    InsertKeeps(s.sems[h].list, PendPosition(s, h), s.running);
    forall i | 0 <= i < |list'| ensures Prio(s'.tcbs, list'[i]) == Prio(s.tcbs, list'[i]) {
      assert list'[i] in list';
    }
  }

  lemma SortedFrame(c: seq<Tcb>, c': seq<Tcb>, q: seq<nat>)
    requires Sorted(c, q) && forall i :: 0 <= i < |q| ==> Prio(c', q[i]) == Prio(c, q[i])
    ensures Sorted(c', q)
  {}

  /** The mutex that the caller was queued on. */
  lemma BlockedMutexOk(s: State, s': State, h: nat, o: nat)
    requires MutexInv(s) && h < |s.sems| && Owns(s, o, h) && BlockedOn(s, s', h, o)
    requires s.running < Tasks(s) && s.running !in s.sems[h].list && o in s'.runQueue
    ensures MutexOk(s', h)
  {
    hide Insert, WF, OwnerOk;
    GetMutex(s, h);
    BlockedWaiters(s, s', h, o);
    MinPrioIs(s'.tcbs, s'.sems[h].list);
    InsertNonempty(s.sems[h].list, PendPosition(s, h), s.running);
  }

  lemma InsertNonempty(q: seq<nat>, k: nat, t: nat)
    requires k <= |q|
    ensures Insert(q, k, t) != []
  {}

  lemma MutexBlock(s: State, h: nat)
    requires MutexInv(s) && s.active && s.running != s.idle && h < |s.sems| && s.sems[h].used && s.sems[h].count == 0
    requires OwnsNothing(s, s.running)
    ensures MutexInv(Schedule(PendListPut(s, h)))
  {
    hide PendListPut, Schedule, Insert, PendPosition;
    var s1, r := PendListPut(s, h), s.running;
    var s' := Schedule(s1);
    GetMutex(s, h);
    var o := s.sems[h].owner.value;
    assert Owns(s, o, h);
    BlockEffect(s, h, o);
    PendListPutSwitchable(s, h);
    ScheduleWF(s1);
    ScheduleFrame(s1);
    OwnersDoNotWait(s, o, h, h);
    GetOwner(s, r);
    forall g | 0 <= g < |s'.sems| ensures MutexOk(s', g) {
      if g == h {
        BlockedMutexOk(s, s', h, o);
      } else {
        BlockedElsewhere(s, s', h, o, g);
      }
    }
    forall t | 0 <= t < Tasks(s') ensures OwnerOk(s', t) {
      GetOwner(s, t);
      GetTask(s', t);
      OwnerOkFrame(s, s', t);
    }
  }

  lemma BlockedElsewhere(s: State, s': State, h: nat, o: nat, g: nat)
    requires MutexInv(s) && h < |s.sems| && Owns(s, o, h) && BlockedOn(s, s', h, o)
    requires g < |s.sems| && g != h && OwnsNothing(s, s.running)
    requires forall x :: x in s'.runQueue <==> x in s.runQueue && x != s.running
    ensures MutexOk(s', g)
  {
    GetMutex(s, g);
    GetOwner(s, o);
    assert !Owns(s, s.running, g) && !Owns(s, o, g);
    OwnersDoNotWait(s, o, h, g);
    MutexOkFrame(s, s', g);
  }

  /** Posting gives the owner its own priority back. */
  lemma RestoreEffect(s: State, h: nat, o: nat)
    requires MutexInv(s) && Owns(s, o, h) && o < Tasks(s)
    ensures s.sems[h].list == [] ==> Restore(s, h) == s
    ensures Restore(s, h).tcbs[o] == s.tcbs[o].(priority := s.tcbs[o].originalPriority)
    ensures forall t :: 0 <= t < |s.tcbs| && t != o ==> Restore(s, h).tcbs[t] == s.tcbs[t]
    ensures SameButPriority(s, Restore(s, h))
    ensures forall x :: x in Restore(s, h).runQueue <==> x in s.runQueue
  {
    GetMutex(s, h);
    GetOwner(s, o);
    RestoreCore(s, h);
    RestoreFrame(s, h);
    SetPriorityFrame(s, o, s.tcbs[o].originalPriority);
  }

  /** The owner's post with waiters: the first waiter owns the mutex, the poster is back at its priority. */
  ghost predicate HandedOver(s: State, s': State, h: nat, o: nat, t: nat)
    requires h < |s.sems|
  {
    && |s'.tcbs| == |s.tcbs| && o < Tasks(s) && t < Tasks(s) && o != t
    && s.sems[h].list != [] && t == s.sems[h].list[0]
    && s'.sems == s.sems[h := s.sems[h].(list := s.sems[h].list[1..], owner := Some(t))]
    && (forall x :: 0 <= x < |s.tcbs| ==>
          && s'.tcbs[x].originalPriority == s.tcbs[x].originalPriority
          && s'.tcbs[x].priority == (if x == o then s.tcbs[o].originalPriority else s.tcbs[x].priority)
          && (x < Tasks(s) ==> (s'.tcbs[x].status == {} <==> s.tcbs[x].status == {})))
    && (forall x :: x in s'.runQueue <==> x in s.runQueue || x == t)
  }

  /** The first waiter becomes ready; no priority changes. */
  lemma DequeuedEffect(s: State, h: nat)
    requires Core(s) && h < |s.sems| && s.sems[h].list != []
    ensures var t, s2 := s.sems[h].list[0], PendListGet(s, h);
            && t < Tasks(s)
            && s2.sems == s.sems[h := s.sems[h].(list := s.sems[h].list[1..])]
            && s2.runQueue == s.runQueue + [t]
            && |s2.tcbs| == |s.tcbs|
            && (forall x :: 0 <= x < |s.tcbs| ==>
                  && s2.tcbs[x].priority == s.tcbs[x].priority
                  && s2.tcbs[x].originalPriority == s.tcbs[x].originalPriority
                  && (s2.tcbs[x].status == {} <==> s.tcbs[x].status == {}))
  {
    PendListGetCore(s, h);
    var t := s.sems[h].list[0];
    GetTask(s, t);
    GetTask(PendListGet(s, h), t);
    assert Ready in PendListGet(s, h).tcbs[t].status;
    assert Remove(s.sems[h].list, t) == s.sems[h].list[1..];
  }

  lemma HandOffEffect(s: State, h: nat, o: nat)
    requires MutexInv(s) && s.active && Owns(s, o, h) && s.sems[h].list != []
    ensures HandedOver(s, Schedule(HandOff(s, h)), h, o, s.sems[h].list[0])
  {
    hide Restore, PendListGet, Schedule, MutexOk, OwnerOk, Cached, RunOk, Switchable, SemOk, TaskOk;
    var t := s.sems[h].list[0];
    assert t in s.sems[h].list;
    OwnersDoNotWait(s, o, h, h);
    RestoreEffect(s, h, o);
    RestoreCore(s, h);
    var s1 := Restore(s, h);
    DequeuedEffect(s1, h);
    HandOffSwitchable(s, h);
    ScheduleWF(HandOff(s, h));
    ScheduleFrame(HandOff(s, h));
  }

  lemma MutexHandOff(s: State, h: nat, o: nat)
    requires MutexInv(s) && s.active && Owns(s, o, h) && s.sems[h].used && s.sems[h].list != []
    ensures MutexInv(Schedule(HandOff(s, h)))
  {
    var s', t, list := Schedule(HandOff(s, h)), s.sems[h].list[0], s.sems[h].list;
    hide HandOff, Schedule, Switchable, WF, MutexOk, OwnerOk, HandedOver, Owns;
    MutexIsWF(s);
    HandOffEffect(s, h, o);
    HandOffSwitchable(s, h);
    ScheduleWF(HandOff(s, h));
    assert t in list;
    HandedOverSizes(s, s', h, o, t);
    forall g | 0 <= g < |s'.sems| ensures MutexOk(s', g) {
      if g == h {
        HandedOverMutexOk(s, s', h, o, t);
      } else {
        HandedOverElsewhere(s, s', h, o, t, g);
      }
    }
    forall x | 0 <= x < Tasks(s') ensures OwnerOk(s', x) {
      HandedOverOwnerOk(s, s', h, o, t, x);
    }
  }

  lemma WaitersOwnNothing(s: State, h: nat, t: nat)
    requires MutexInv(s) && h < |s.sems| && t in s.sems[h].list
    ensures t < Tasks(s) && OwnsNothing(s, t) && s.tcbs[t].priority == s.tcbs[t].originalPriority
  {
    GetMutex(s, h);
    GetOwner(s, t);
    forall g | 0 <= g < |s.sems| ensures !Owns(s, t, g) {
      if Owns(s, t, g) { OwnersDoNotWait(s, t, g, h); }
    }
  }

  lemma HandedOverMutexOk(s: State, s': State, h: nat, o: nat, t: nat)
    requires MutexInv(s) && Owns(s, o, h) && HandedOver(s, s', h, o, t)
    requires t in s.sems[h].list
    ensures MutexOk(s', h)
  {
    var list := s.sems[h].list;
    GetMutex(s, h);
    OwnersDoNotWait(s, o, h, h);
    WaitersOwnNothing(s, h, t);
    forall i | 0 <= i < |list| ensures Prio(s'.tcbs, list[i]) == Prio(s.tcbs, list[i]) {
      assert list[i] in list;
    }
    assert s'.sems[h].list == list[1..];
    if s.sems[h].mode == Prior {
      forall w | w in list[1..] ensures s'.tcbs[t].priority <= Prio(s'.tcbs, w) {
        var i :| 0 <= i < |list| - 1 && list[1..][i] == w;
        assert list[i + 1] == w;
      }
    }
  }

  lemma HandedOverSizes(s: State, s': State, h: nat, o: nat, t: nat)
    requires h < |s.sems| && HandedOver(s, s', h, o, t)
    ensures |s'.sems| == |s.sems| && |s'.tcbs| == |s.tcbs|
  {}

  lemma HandedOverElsewhere(s: State, s': State, h: nat, o: nat, t: nat, g: nat)
    requires MutexInv(s) && Owns(s, o, h) && HandedOver(s, s', h, o, t) && g < |s.sems| && g != h
    ensures MutexOk(s', g)
  {
    GetMutex(s, g);
    GetOwner(s, o);
    assert Owns(s, o, g) ==> g == h;
    OwnersDoNotWait(s, o, h, g);
    MutexOkFrame(s, s', g);
  }

  lemma HandedOverOwnerOk(s: State, s': State, h: nat, o: nat, t: nat, x: nat)
    requires MutexInv(s) && Owns(s, o, h) && HandedOver(s, s', h, o, t) && x < Tasks(s)
    requires t in s.sems[h].list
    ensures OwnerOk(s', x)
  {
    GetOwner(s, x);
    GetOwner(s, o);
    WaitersOwnNothing(s, h, t);
    forall g: nat ensures Owns(s', x, g) <==> if g == h then x == t else Owns(s, x, g) {}
    if x == t {
      assert Owns(s', t, h);
    } else if x != o && OwnsNothing(s', x) {
      forall g | 0 <= g < |s.sems| ensures !Owns(s, x, g) { assert !Owns(s', x, g); }
    }
  }

  /** The owner's post with nobody waiting frees the mutex. */
  lemma MutexRelease(s: State, h: nat, o: nat)
    requires MutexInv(s) && s.active && Owns(s, o, h) && s.sems[h].list == []
    ensures MutexInv(SemPost(s, h).0)
    ensures SemPost(s, h).0 == SetSem(s, h, s.sems[h].(count := 1, owner := None))
  {
    GetMutex(s, h);
    OwnersDoNotWait(s, o, h, h);
    RestoreEffect(s, h, o);
    ReleaseWF(s, h);
    var s' := SemPost(s, h).0;
    GetOwner(s, o);
    forall g | 0 <= g < |s'.sems| ensures MutexOk(s', g) { GetMutex(s, g); }
    forall x | 0 <= x < Tasks(s') ensures OwnerOk(s', x) {
      GetOwner(s, x);
      forall g: nat ensures Owns(s', x, g) <==> g != h && Owns(s, x, g) {}
      if OwnsNothing(s', x) && x != o {
        forall g | 0 <= g < |s.sems| ensures !Owns(s, x, g) { assert !Owns(s', x, g); }
      }
    }
  }

  /** Calls that leave the semaphores alone. */
  lemma MutexFrame(s: State, s': State)
    requires MutexInv(s) && WF(s') && (s'.active ==> s'.highest == Some(s'.running))
    requires s'.sems == s.sems && |s'.tcbs| == |s.tcbs|
    requires forall h :: 0 <= h < |s.sems| && s.sems[h].used && s.sems[h].owner.Some? ==>
               s.sems[h].owner.value in s'.runQueue
    requires forall t :: 0 <= t < Tasks(s) && s.tcbs[t].status != {} ==>
               && s'.tcbs[t].priority == s.tcbs[t].priority
               && s'.tcbs[t].originalPriority == s.tcbs[t].originalPriority
    requires forall t :: 0 <= t < Tasks(s) && s.tcbs[t].status == {} && s'.tcbs[t].status != {} ==>
               s'.tcbs[t].priority == s'.tcbs[t].originalPriority
    ensures MutexInv(s')
  {
    forall g | 0 <= g < |s'.sems| ensures MutexOk(s', g) {
      GetMutex(s, g);
      forall t | 0 <= t < Tasks(s) && s.sems[g].used && (s.sems[g].owner == Some(t) || t in s.sems[g].list)
        ensures s'.tcbs[t].priority == s.tcbs[t].priority
        ensures s'.tcbs[t].originalPriority == s.tcbs[t].originalPriority
      {
        GetOwner(s, t);
      }
      MutexOkFrame(s, s', g);
    }
    forall t | 0 <= t < Tasks(s') ensures OwnerOk(s', t) {
      GetOwner(s, t);
      OwnerOkFrame(s, s', t);
    }
  }

  lemma OwnersAreReady(s: State)
    requires MutexInv(s)
    ensures forall h :: 0 <= h < |s.sems| && s.sems[h].used && s.sems[h].owner.Some? ==>
              s.sems[h].owner.value in s.runQueue
  {
    forall h | 0 <= h < |s.sems| && s.sems[h].used && s.sems[h].owner.Some?
      ensures s.sems[h].owner.value in s.runQueue
    {
      GetMutex(s, h);
    }
  }

  lemma MutexExit(s: State)
    requires MutexInv(s) && s.active && s.running != s.idle && OwnsNothing(s, s.running)
    ensures MutexInv(TaskExit(s))
  {
    var r, s1 := s.running, ReadyDel(s, s.running);
    GetTask(s, r);
    assert InUse in s.tcbs[r].status - {Ready};
    TaskExitWF(s);
    ReadyDelCore(s, r);
    ScheduleWF(s1);
    ScheduleFrame(s1);
    OwnersAreReady(s);
    forall h | 0 <= h < |s.sems| && s.sems[h].used && s.sems[h].owner.Some?
      ensures s.sems[h].owner.value in TaskExit(s).runQueue
    {
      assert !Owns(s, r, h);
    }
    MutexFrame(s, TaskExit(s));
  }

  lemma MutexTaskCreate(s: State, prio: nat, stack: Stack)
    requires MutexInv(s) && prio <= OS_TSK_PRIORITY_LOWEST
    ensures MutexInv(TaskCreate(s, prio, stack).0)
  {
    var (s', r) := TaskCreate(s, prio, stack);
    TaskCreateWF(s, prio, stack);
    if r == Ok {
      assert s.freeTcbs[0] in s.freeTcbs;
      GetTask(s, s.freeTcbs[0]);
      OwnersAreReady(s);
      MutexFrame(s, s');
    }
  }

  /** Priorities, semaphores and the unused task control blocks are as before. */
  ghost predicate SamePriorities(s: State, s': State) {
    && s'.sems == s.sems && |s'.tcbs| == |s.tcbs|
    && forall t :: 0 <= t < |s.tcbs| ==>
         && s'.tcbs[t].priority == s.tcbs[t].priority
         && s'.tcbs[t].originalPriority == s.tcbs[t].originalPriority
         && (t < Tasks(s) ==> (s'.tcbs[t].status == {} <==> s.tcbs[t].status == {}))
  }

  lemma ReadiedFrame(s: State, t: nat)
    requires WF(s) && t < Tasks(s) && Suspend in s.tcbs[t].status
    ensures var s2 := ReadyAdd(SetTcb(s, t, s.tcbs[t].(status := s.tcbs[t].status - {Suspend})), t);
            && SamePriorities(s, s2)
            && s2.runQueue == s.runQueue + [t]
            && (s.active ==> Switchable(s2))
  {
    GetTask(s, t);
    UnsuspendCore(s, t);
    var s1 := SetTcb(s, t, s.tcbs[t].(status := s.tcbs[t].status - {Suspend}));
    assert InUse in s1.tcbs[t].status;
    ReadyAddCore(s1, t);
    if s.active { GetTask(s, s.running); }
  }

  lemma ResumeFrame(s: State, t: nat)
    requires WF(s) && t < Tasks(s)
    ensures var s' := TaskResume(s, t).0;
            && SamePriorities(s, s')
            && (forall x :: x in s.runQueue ==> x in s'.runQueue)
            && (s.active && TaskResume(s, t).1 == Ok ==> s'.highest == Some(s'.running))
            && (TaskResume(s, t).1 != Ok ==> s' == s)
            && s'.active == s.active
  {
    GetTask(s, t);
    if Suspend in s.tcbs[t].status {
      ReadiedFrame(s, t);
      var s2 := ReadyAdd(SetTcb(s, t, s.tcbs[t].(status := s.tcbs[t].status - {Suspend})), t);
      if s.active {
        ScheduleWF(s2);
        ScheduleFrame(s2);
      }
    }
  }

  lemma MutexSame(s: State, s': State)
    requires MutexInv(s) && WF(s') && (s'.active ==> s'.highest == Some(s'.running))
    requires SamePriorities(s, s') && forall x :: x in s.runQueue ==> x in s'.runQueue
    ensures MutexInv(s')
  {
    OwnersAreReady(s);
    MutexFrame(s, s');
  }

  lemma MutexTaskResume(s: State, t: nat)
    requires MutexInv(s) && t < Tasks(s)
    ensures MutexInv(TaskResume(s, t).0)
  {
    hide TaskResume, WF, MutexOk, OwnerOk, SamePriorities;
    assert WF(s) && (s.active ==> s.highest == Some(s.running));
    TaskResumeWF(s, t);
    ResumeFrame(s, t);
    MutexSame(s, TaskResume(s, t).0);
  }

  lemma MutexSemCreate(s: State, typ: SemType, mode: SemMode)
    requires MutexInv(s)
    ensures MutexInv(SemCreate(s, 1, typ, mode).0)
  {
    var (s', r) := SemCreate(s, 1, typ, mode);
    SemCreateWF(s, 1, typ, mode);
    if r == Ok {
      var h := s.freeSems[0];
      assert h in s.freeSems;
      GetMutex(s, h);
      forall g | 0 <= g < |s'.sems| ensures MutexOk(s', g) { GetMutex(s, g); }
      forall t | 0 <= t < Tasks(s') ensures OwnerOk(s', t) {
        GetOwner(s, t);
        forall g: nat ensures Owns(s', t, g) <==> Owns(s, t, g) {}
        if OwnsNothing(s', t) {
          forall g | 0 <= g < |s.sems| ensures !Owns(s, t, g) { assert !Owns(s', t, g); }
        }
      }
    }
  }

  lemma MutexActivate(s: State)
    requires MutexInv(s) && !s.active
    ensures MutexInv(Activate(s).0)
  {
    var (s1, r) := TaskCreate(s, OS_TSK_PRIORITY_LOWEST, Sized(STACK_SIZE));
    MutexTaskCreate(s, OS_TSK_PRIORITY_LOWEST, Sized(STACK_SIZE));
    ActivateWF(s);
    if r == Ok {
      var t := s.freeTcbs[0];
      assert t in s.freeTcbs;
      MutexTaskResume(s1, t);
      var (s2, r2) := TaskResume(s1, t);
      if r2 == Ok {
        FirstSwitchFrame(s2, t);
        MutexSame(s2, FirstTimeSwitch(s2.(idle := t, active := true)));
      }
    }
  }

  lemma FirstSwitchFrame(s: State, idle: nat)
    requires WF(s)
    ensures SamePriorities(s, FirstTimeSwitch(s.(idle := idle, active := true)))
    ensures FirstTimeSwitch(s.(idle := idle, active := true)).runQueue == s.runQueue
  {
    FirstMinIs(s.tcbs, s.runQueue);
    if s.runQueue != [] {
      assert s.highest.value in s.runQueue;
      GetTask(s, s.highest.value);
    }
  }

  // ----- runs -----

  /** Every call of non-nested mutex use keeps the invariant. */
  lemma MutexStep(s: State, c: Call)
    requires MutexInv(s) && MutexCall(s, c)
    ensures MutexInv(Next(s, c))
  {
    StepWF(s, c);
    match c
    case CSemCreate(_, typ, mode) => MutexSemCreate(s, typ, mode);
    case CTaskCreate(p, stack) => MutexTaskCreate(s, p, stack);
    case CTaskResume(t) => MutexTaskResume(s, t);
    case CActivate => MutexActivate(s);
    case CPend(h, timeout) =>
      if h < |s.sems| && s.sems[h].used {
        if s.sems[h].count > 0 { MutexTake(s, h); } else { MutexBlock(s, h); }
      }
    case CPost(h) =>
      if h < |s.sems| && s.sems[h].used {
        assert Owns(s, s.running, h);
        GetMutex(s, h);
        if s.sems[h].list != [] { MutexHandOff(s, h, s.running); } else { MutexRelease(s, h, s.running); }
      }
    case CExit => MutexExit(s);
  }

  /** The calls of a run are all of non-nested mutex use. */
  ghost predicate AllMutex(s: State, calls: seq<Call>) {
    calls != [] ==>
      var front := calls[..|calls| - 1];
      AllMutex(s, front) && MutexCall(After(s, front), calls[|calls| - 1])
  }

  lemma BootMutex(n: nat, m: nat, stacks: seq<bool>)
    ensures MutexInv(Boot(n, m, stacks))
  {
    var s := Boot(n, m, stacks);
    BootWF(n, m, stacks);
    forall g | 0 <= g < |s.sems| ensures MutexOk(s, g) {}
    forall t | 0 <= t < Tasks(s) ensures OwnerOk(s, t) {}
  }

  /** In every state reachable by non-nested mutex use the invariant holds. */
  lemma {:induction false} ReachableMutex(s: State, calls: seq<Call>)
    requires MutexInv(s) && AllMutex(s, calls)
    ensures MutexInv(After(s, calls))
  {
    if calls != [] {
      var front := calls[..|calls| - 1];
      ReachableMutex(s, front);
      MutexStep(After(s, front), calls[|calls| - 1]);
    }
  }

  /** What non-nested use can rely on: the most urgent ready task runs, inversion is bounded, and no boost outlives
      its cause. */
  ghost predicate Disciplined(s: State) {
    && (s.active ==> s.highest == Some(s.running))
    && (s.active ==> forall t :: t in s.runQueue ==> Prio(s.tcbs, s.running) <= Prio(s.tcbs, t))
    && (forall h, w :: s.active && 0 <= h < |s.sems| && s.sems[h].mode == Prior && w in s.sems[h].list ==>
          && s.sems[h].owner.Some?
          && Prio(s.tcbs, s.running) <= Prio(s.tcbs, s.sems[h].owner.value) <= Prio(s.tcbs, w))
    && (forall t :: 0 <= t < Tasks(s) && s.tcbs[t].status != {}
                    && s.tcbs[t].priority != s.tcbs[t].originalPriority ==>
          exists h: nat :: Owns(s, t, h) && s.sems[h].list != []
                           && s.tcbs[t].priority == MinPrio(s.tcbs, s.sems[h].list) < s.tcbs[t].originalPriority)
  }

  /** From power-on, whatever non-nested calls are made. */
  lemma DisciplinedFromBoot(n: nat, m: nat, stacks: seq<bool>, calls: seq<Call>)
    requires AllMutex(Boot(n, m, stacks), calls)
    ensures Disciplined(After(Boot(n, m, stacks), calls))
  {
    BootMutex(n, m, stacks);
    ReachableMutex(Boot(n, m, stacks), calls);
    IsDisciplined(After(Boot(n, m, stacks), calls));
  }

  lemma IsDisciplined(s: State)
    requires MutexInv(s)
    ensures Disciplined(s)
  {
    hide Sorted, SemOk, TaskOk, MutexOk, OwnerOk, Prio, MinPrio, FirstMin;
    if s.active {
      forall t | t in s.runQueue ensures Prio(s.tcbs, s.running) <= Prio(s.tcbs, t) { MostUrgentRuns(s, t); }
      forall h, w | 0 <= h < |s.sems| && s.sems[h].mode == Prior && w in s.sems[h].list
        ensures s.sems[h].owner.Some?
        ensures Prio(s.tcbs, s.running) <= Prio(s.tcbs, s.sems[h].owner.value) <= Prio(s.tcbs, w)
      {
        BoundedInversion(s, h, w);
      }
    }
    forall t | 0 <= t < Tasks(s) && s.tcbs[t].status != {} && s.tcbs[t].priority != s.tcbs[t].originalPriority
      ensures exists h: nat :: Owns(s, t, h) && s.sems[h].list != []
                && s.tcbs[t].priority == MinPrio(s.tcbs, s.sems[h].list) < s.tcbs[t].originalPriority
    {
      BoostDiscipline(s, t);
    }
  }

  /** The owner's post always gives it its original priority back. */
  lemma PostRestores(s: State, h: nat)
    requires MutexInv(s) && s.active && Owns(s, s.running, h)
    ensures var s' := SemPost(s, h).0;
            && s.running < |s'.tcbs|
            && s'.tcbs[s.running].priority == s.tcbs[s.running].originalPriority
            && OwnsNothing(s', s.running)
            && s'.highest == Some(s'.running)
  {
    var r, s' := s.running, SemPost(s, h).0;
    GetMutex(s, h);
    OwnersDoNotWait(s, r, h, h);
    GetOwner(s, r);
    MutexStep(s, CPost(h));
    if s.sems[h].list != [] {
      HandOffEffect(s, h, r);
    } else {
      MutexRelease(s, h, r);
    }
    forall g | 0 <= g < |s'.sems| ensures !Owns(s', r, g) {
      assert Owns(s, r, g) ==> g == h;
    }
    GetOwner(s', r);
  }

  /** A hand-off does not raise the new owner. It is at least as urgent as the remaining waiters exactly
      when the first waiter was one of the most urgent; priority mode ensures that, FIFO mode does not. */
  lemma HandOffInversion(s: State, h: nat)
    requires MutexInv(s) && s.active && Owns(s, s.running, h) && s.sems[h].list != []
    ensures var s', t := SemPost(s, h).0, s.sems[h].list[0];
            && Owns(s', t, h) && t < |s'.tcbs|
            && ((forall w :: w in s'.sems[h].list ==> Prio(s'.tcbs, t) <= Prio(s'.tcbs, w))
                <==> Prio(s.tcbs, t) == MinPrio(s.tcbs, s.sems[h].list))
    ensures s.sems[h].mode == Prior ==> Prio(s.tcbs, s.sems[h].list[0]) == MinPrio(s.tcbs, s.sems[h].list)
  {
    hide HandOff, Schedule, Switchable;
    var s', t, list := SemPost(s, h).0, s.sems[h].list[0], s.sems[h].list;
    GetMutex(s, h);
    OwnersDoNotWait(s, s.running, h, h);
    HandOffEffect(s, h, s.running);
    assert list == [t] + list[1..];
    assert forall w :: w in list <==> w == t || w in list[1..];
    assert forall w :: w in list ==> Prio(s'.tcbs, w) == Prio(s.tcbs, w);
    MinPrioIs(s.tcbs, list);
    GetOwner(s, t);
    forall w | w in list ensures s.sems[h].mode == Prior ==> Prio(s.tcbs, t) <= Prio(s.tcbs, w) {
      var i :| 0 <= i < |list| && list[i] == w;
    }
  }
}
