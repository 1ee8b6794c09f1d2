/**
  What every reachable state of the kernel satisfies: each task is in the one queue
  that its status says, and the cached most urgent task is right.
  */
module KernelInv {
  import opened Options
  import opened Queues
  import opened KernelSpec

  // ----- the invariant -----

  ghost predicate TaskOk(s: State, t: nat)
    requires t < |s.tcbs|
  {
    var c := s.tcbs[t];
    && (t in s.freeTcbs <==> c.status == {})
    && (t in s.runQueue <==> Ready in c.status)
    && (c.taskSem.Some? <==> Pending in c.status)
    && (c.taskSem.Some? ==> c.taskSem.value < |s.sems| && t in s.sems[c.taskSem.value].list)
    && (c.status != {} ==> InUse in c.status && c.priority <= c.originalPriority <= OS_TSK_PRIORITY_LOWEST)
    && !(Ready in c.status && Pending in c.status)
    && !(Ready in c.status && Suspend in c.status)
    && !(Suspend in c.status && Pending in c.status)
    && (Running in c.status <==> t == s.running)
  }

  ghost predicate SemOk(s: State, h: nat)
    requires h < |s.sems|
  {
    var m := s.sems[h];
    && NoDup(m.list)
    && (forall t :: t in m.list ==> t < Tasks(s) && s.tcbs[t].taskSem == Some(h))
    && (h in s.freeSems <==> !m.used)
    && (!m.used ==> m.list == [])
    && (m.list != [] ==> m.count == 0)
    && m.count <= OS_SEM_COUNT_MAX
    && (m.used && m.owner.Some? ==> m.owner.value < Tasks(s) && s.tcbs[m.owner.value].status != {})
  }

  ghost predicate QueuesOk(s: State) {
    && NoDup(s.runQueue) && NoDup(s.freeTcbs) && NoDup(s.freeSems)
    && (forall t :: t in s.runQueue ==> t < Tasks(s))
    && (forall t :: t in s.freeTcbs ==> t < Tasks(s))
    && (forall h :: h in s.freeSems ==> h < |s.sems|)
  }

  /** Each task is where its status says, and in no other list. */
  ghost predicate Core(s: State) {
    && |s.tcbs| >= 1
    && QueuesOk(s)
    && (forall t {:trigger TaskOk(s, t)} :: 0 <= t < Tasks(s) ==> TaskOk(s, t))
    && (forall h {:trigger SemOk(s, h)} :: 0 <= h < |s.sems| ==> SemOk(s, h))
  }

  /** `g_highestTask` is the first task of least priority number in the run queue. */
  ghost predicate Cached(s: State) {
    s.highest == FirstMin(s.tcbs, s.runQueue)
  }

  /** Who runs: the zombie until the scheduler starts, and a ready task afterwards. */
  ghost predicate RunOk(s: State) {
    if s.active then s.running in s.runQueue && s.idle in s.runQueue
    else s.running == Tasks(s) && forall t :: 0 <= t < Tasks(s) ==> s.tcbs[t].taskSem == None
  }

  /** The node of `t` is linked nowhere. */
  ghost predicate InNoQueue(s: State, t: nat) {
    t !in s.freeTcbs && t !in s.runQueue && forall h :: 0 <= h < |s.sems| ==> t !in s.sems[h].list
  }

  ghost predicate WF(s: State) {
    Core(s) && Cached(s) && RunOk(s)
  }

  // ----- each elementary update keeps Core -----

  lemma GetTask(s: State, t: nat)
    requires Core(s) && t < Tasks(s)
    ensures TaskOk(s, t)
  {}

  lemma GetSem(s: State, h: nat)
    requires Core(s) && h < |s.sems|
    ensures SemOk(s, h)
  {}

  lemma GetQueues(s: State)
    requires WF(s)
    ensures QueuesOk(s)
  {}

  /** Taken off the run queue, off its wait list, or suspended, a task is in no queue: its node is free
      to be linked again. */
  lemma RequeuedAlone(s: State, t: nat, p: nat)
    requires Core(s) && t < Tasks(s) && Ready in s.tcbs[t].status
    ensures t in s.runQueue && InNoQueue(ReadyDel(SetTcb(s, t, s.tcbs[t].(priority := p)), t), t)
  {
    GetTask(s, t);
    RemoveKeeps(s.runQueue, t);
    forall h | 0 <= h < |s.sems| ensures t !in s.sems[h].list { GetSem(s, h); }
  }

  lemma DequeuedAlone(s: State, h: nat)
    requires Core(s) && h < |s.sems| && s.sems[h].list != []
    ensures var t := s.sems[h].list[0];
            InNoQueue(SetSem(s, h, s.sems[h].(list := s.sems[h].list[1..])), t)
  {
    var t := s.sems[h].list[0];
    GetSem(s, h);
    assert t in s.sems[h].list;
    GetTask(s, t);
    TailKeeps(s.sems[h].list);
    forall g | 0 <= g < |s.sems| ensures g != h ==> t !in s.sems[g].list { GetSem(s, g); }
  }

  lemma SuspendedAlone(s: State, t: nat)
    requires Core(s) && t < Tasks(s) && Suspend in s.tcbs[t].status
    ensures InNoQueue(s, t)
  {
    GetTask(s, t);
    forall h | 0 <= h < |s.sems| ensures t !in s.sems[h].list { GetSem(s, h); }
  }

  lemma ReadyDelCore(s: State, t: nat)
    requires Core(s) && t < Tasks(s)
    requires s.tcbs[t].status - {Ready} != {}
    ensures Core(ReadyDel(s, t)) && Cached(ReadyDel(s, t))
    ensures forall x :: x in ReadyDel(s, t).runQueue <==> x in s.runQueue && x != t
  {
    var s' := ReadyDel(s, t);
    RemoveKeeps(s.runQueue, t);
    forall x | 0 <= x < Tasks(s') ensures TaskOk(s', x) { GetTask(s, x); }
    forall h | 0 <= h < |s'.sems| ensures SemOk(s', h) { GetSem(s, h); }
  }

  lemma ReadyAddCore(s: State, t: nat)
    requires Core(s) && t < Tasks(s)
    requires s.tcbs[t].status != {} && Ready !in s.tcbs[t].status
    requires Pending !in s.tcbs[t].status && Suspend !in s.tcbs[t].status
    ensures Core(ReadyAdd(s, t)) && Cached(ReadyAdd(s, t))
  {
    var s' := ReadyAdd(s, t);
    GetTask(s, t);
    AppendKeeps(s.runQueue, t);
    forall x | 0 <= x < Tasks(s') ensures TaskOk(s', x) { GetTask(s, x); }
    forall h | 0 <= h < |s'.sems| ensures SemOk(s', h) { GetSem(s, h); }
  }

  /** Changing a priority keeps every task in its queue. */
  lemma SetPriorityCore(s: State, t: nat, p: nat)
    requires Core(s) && t < Tasks(s) && s.tcbs[t].status != {} && p <= s.tcbs[t].originalPriority
    ensures Core(SetPriority(s, t, p))
    ensures Cached(s) ==> Cached(SetPriority(s, t, p))
    ensures forall x :: x in SetPriority(s, t, p).runQueue <==> x in s.runQueue
  {
    var s1 := SetTcb(s, t, s.tcbs[t].(priority := p));
    GetTask(s, t);
    assert Core(s1) by {
      forall x | 0 <= x < Tasks(s1) ensures TaskOk(s1, x) { GetTask(s, x); }
      forall h | 0 <= h < |s1.sems| ensures SemOk(s1, h) { GetSem(s, h); }
    }
    if Ready in s1.tcbs[t].status {
      assert InUse in s1.tcbs[t].status - {Ready};
      ReadyDelCore(s1, t);
      ReadyAddCore(ReadyDel(s1, t), t);
    } else if Cached(s) {
      FirstMinFrame(s.tcbs, s1.tcbs, s.runQueue);
    }
  }

  /** What SetPriority leaves alone. */
  lemma SetPriorityFrame(s: State, t: nat, p: nat)
    requires t < |s.tcbs|
    ensures var s' := SetPriority(s, t, p);
            && s' == s.(tcbs := s'.tcbs, runQueue := s'.runQueue, highest := s'.highest)
            && |s'.tcbs| == |s.tcbs|
            && s'.tcbs[t] == s.tcbs[t].(priority := p)
            && (forall x :: 0 <= x < |s.tcbs| && x != t ==> s'.tcbs[x] == s.tcbs[x])
  {
    var c := s.tcbs[t];
    if Ready in c.status { assert c.status - {Ready} + {Ready} == c.status; }
  }

  lemma InheritCore(s: State, h: nat, w: nat)
    requires Core(s) && h < |s.sems| && s.sems[h].used
    ensures Core(Inherit(s, h, w))
    ensures Cached(s) ==> Cached(Inherit(s, h, w))
    ensures forall x :: x in Inherit(s, h, w).runQueue <==> x in s.runQueue
  {
    GetSem(s, h);
    if s.sems[h].owner.Some? {
      var o := s.sems[h].owner.value;
      GetTask(s, o);
      var m := MinPrio(s.tcbs, s.sems[h].list);
      var p := if Prio(s.tcbs, w) < m then Prio(s.tcbs, w) else m;
      if s.tcbs[o].priority > p { SetPriorityCore(s, o, p); }
    }
  }

  lemma RestoreCore(s: State, h: nat)
    requires Core(s) && h < |s.sems| && s.sems[h].used
    ensures Core(Restore(s, h))
    ensures Cached(s) ==> Cached(Restore(s, h))
    ensures forall x :: x in Restore(s, h).runQueue <==> x in s.runQueue
  {
    GetSem(s, h);
    if s.sems[h].owner.Some? {
      var o := s.sems[h].owner.value;
      GetTask(s, o);
      var m := MinPrio(s.tcbs, s.sems[h].list);
      SetPriorityCore(s, o, s.tcbs[o].originalPriority);
      if m < s.tcbs[o].priority { SetPriorityCore(s, o, m); }
    }
  }

  /** Inheritance touches one priority, the run-queue order and the cached maximum, nothing else. */
  ghost predicate SameButPriority(s: State, s': State) {
    && s' == s.(tcbs := s'.tcbs, runQueue := s'.runQueue, highest := s'.highest)
    && |s'.tcbs| == |s.tcbs|
    && forall x :: 0 <= x < |s.tcbs| ==> s'.tcbs[x] == s.tcbs[x].(priority := s'.tcbs[x].priority)
  }

  lemma InheritFrame(s: State, h: nat, w: nat)
    requires h < |s.sems|
    ensures SameButPriority(s, Inherit(s, h, w))
  {
    if s.sems[h].owner.Some? && s.sems[h].owner.value < |s.tcbs| {
      var o := s.sems[h].owner.value;
      var m := MinPrio(s.tcbs, s.sems[h].list);
      SetPriorityFrame(s, o, if Prio(s.tcbs, w) < m then Prio(s.tcbs, w) else m);
    }
  }

  lemma RestoreFrame(s: State, h: nat)
    requires h < |s.sems|
    ensures SameButPriority(s, Restore(s, h))
  {
    if s.sems[h].owner.Some? && s.sems[h].owner.value < |s.tcbs| {
      var o := s.sems[h].owner.value;
      SetPriorityFrame(s, o, MinPrio(s.tcbs, s.sems[h].list));
      SetPriorityFrame(s, o, s.tcbs[o].originalPriority);
    }
  }

  lemma EnlistCore(s: State, h: nat)
    requires Core(s) && h < |s.sems| && s.sems[h].used && s.sems[h].count == 0
    requires s.running < Tasks(s) && s.tcbs[s.running].status != {} && s.tcbs[s.running].taskSem == None
    requires Ready !in s.tcbs[s.running].status && Suspend !in s.tcbs[s.running].status
    ensures Core(Enlist(s, h))
    ensures Cached(s) ==> Cached(Enlist(s, h))
  {
    var r, s' := s.running, Enlist(s, h);
    var s1 := SetTcb(s, r, s.tcbs[r].(status := s.tcbs[r].status + {Pending}, taskSem := Some(h)));
    GetTask(s, r);
    GetSem(s, h);
    InsertKeeps(s.sems[h].list, PendPosition(s1, h), r);
    forall x | 0 <= x < Tasks(s') ensures TaskOk(s', x) { GetTask(s, x); }
    forall g | 0 <= g < |s'.sems| ensures SemOk(s', g) { GetSem(s, g); }
    FirstMinFrame(s.tcbs, s'.tcbs, s.runQueue);
  }

  lemma PendListGetCore(s: State, h: nat)
    requires Core(s) && h < |s.sems| && s.sems[h].list != []
    ensures Core(PendListGet(s, h)) && Cached(PendListGet(s, h))
    ensures var t := s.sems[h].list[0];
            && t < Tasks(s) && t !in s.runQueue && s.tcbs[t].status != {}
            && |PendListGet(s, h).sems| == |s.sems|
            && PendListGet(s, h).runQueue == s.runQueue + [t]
  {
    var t := s.sems[h].list[0];
    GetSem(s, h);
    assert t in s.sems[h].list;
    GetTask(s, t);
    var c := s.tcbs[t];
    var s2 := SetTcb(SetSem(s, h, s.sems[h].(list := Remove(s.sems[h].list, t))),
                     t, c.(status := c.status - {Pending}, taskSem := None));
    RemoveKeeps(s.sems[h].list, t);
    assert InUse in s2.tcbs[t].status;
    forall x | 0 <= x < Tasks(s2) ensures TaskOk(s2, x) { GetTask(s, x); }
    forall g | 0 <= g < |s2.sems| ensures SemOk(s2, g) { GetSem(s, g); }
    ReadyAddCore(s2, t);
  }

  // ----- running and switching -----

  /** Core, the cache and the idle task are right; who is marked running is not yet settled. */
  ghost predicate Switchable(s: State) {
    && Core(s) && Cached(s) && s.active
    && s.idle in s.runQueue && s.running < Tasks(s)
    && (s.running in s.runQueue || Ready !in s.tcbs[s.running].status)
  }

  /** Marking who runs does not move any task. */
  lemma SwitchToCore(s: State, t: nat)
    requires Core(s) && t < Tasks(s) && s.tcbs[t].status != {} && s.running < |s.tcbs|
    requires s.running < Tasks(s) ==> InUse in s.tcbs[s.running].status
    ensures Core(SwitchTo(s, t))
    ensures Cached(s) ==> Cached(SwitchTo(s, t))
  {
    var s' := SwitchTo(s, t);
    GetTask(s, t);
    if s.running < Tasks(s) {
      GetTask(s, s.running);
      assert InUse in s'.tcbs[s.running].status;
    }
    forall x | 0 <= x < Tasks(s') ensures TaskOk(s', x) { GetTask(s, x); }
    forall h | 0 <= h < |s'.sems| ensures SemOk(s', h) { GetSem(s, h); }
    FirstMinFrame(s.tcbs, s'.tcbs, s.runQueue);
  }

  /** Scheduling establishes that the most urgent ready task runs. */
  lemma ScheduleWF(s: State)
    requires Switchable(s)
    ensures WF(Schedule(s)) && Schedule(s).highest == Some(Schedule(s).running)
    ensures Schedule(s).runQueue == s.runQueue && Schedule(s).active
    ensures Schedule(s).sems == s.sems && Schedule(s).idle == s.idle
  {
    FirstMinIs(s.tcbs, s.runQueue);
    var t := s.highest.value;
    assert t in s.runQueue;
    GetTask(s, t);
    GetTask(s, s.running);
    assert Running in s.tcbs[s.running].status;
    if t != s.running {
      SwitchToCore(s, t);
    }
  }

  // ----- each call keeps the invariant -----

  lemma SemPendWF(s: State, h: nat, timeout: nat)
    requires WF(s) && Allowed(s, CPend(h, timeout))
    ensures WF(SemPend(s, h, timeout).0)
  {
    GetTask(s, s.running);
    if h < |s.sems| && s.sems[h].used {
      GetSem(s, h);
      if s.sems[h].count > 0 {
        TakeWF(s, h);
      } else if timeout == OS_WAIT_FOREVER {
        BlockWF(s, h);
      }
    }
  }

  lemma TakeWF(s: State, h: nat)
    requires WF(s) && s.active && h < |s.sems| && s.sems[h].used && s.sems[h].count > 0
    ensures WF(SetSem(s, h, s.sems[h].(count := s.sems[h].count - 1, owner := Some(s.running))))
  {
    var s' := SetSem(s, h, s.sems[h].(count := s.sems[h].count - 1, owner := Some(s.running)));
    GetTask(s, s.running);
    forall x | 0 <= x < Tasks(s') ensures TaskOk(s', x) { GetTask(s, x); }
    forall g | 0 <= g < |s'.sems| ensures SemOk(s', g) { GetSem(s, g); }
  }

  lemma PendListPutSwitchable(s: State, h: nat)
    requires WF(s) && s.active && s.running != s.idle && h < |s.sems| && s.sems[h].used && s.sems[h].count == 0
    ensures Switchable(PendListPut(s, h))
    ensures PendListPut(s, h).running == s.running
    ensures forall x :: x in PendListPut(s, h).runQueue <==> x in s.runQueue && x != s.running
  {
    var r := s.running;
    GetTask(s, r);
    assert InUse in s.tcbs[r].status - {Ready};
    ReadyDelCore(s, r);
    var s1 := ReadyDel(s, r);
    EnlistCore(s1, h);
    var s2 := Enlist(s1, h);
    InheritCore(s2, h, r);
    InheritFrame(s2, h, r);
  }

  lemma BlockWF(s: State, h: nat)
    requires WF(s) && s.active && s.running != s.idle && h < |s.sems| && s.sems[h].used && s.sems[h].count == 0
    ensures WF(Schedule(PendListPut(s, h)))
    ensures Schedule(PendListPut(s, h)).highest == Some(Schedule(PendListPut(s, h)).running)
  {
    PendListPutSwitchable(s, h);
    ScheduleWF(PendListPut(s, h));
  }

  lemma OwnerSetCore(s: State, h: nat, t: nat)
    requires Core(s) && h < |s.sems| && t < Tasks(s) && s.tcbs[t].status != {}
    ensures Core(SetSem(s, h, s.sems[h].(owner := Some(t))))
  {
    var s' := SetSem(s, h, s.sems[h].(owner := Some(t)));
    forall x | 0 <= x < Tasks(s') ensures TaskOk(s', x) { GetTask(s, x); }
    forall g | 0 <= g < |s'.sems| ensures SemOk(s', g) { GetSem(s, g); }
  }

  lemma HandOffSwitchable(s: State, h: nat)
    requires WF(s) && s.active && h < |s.sems| && s.sems[h].used && s.sems[h].list != []
    ensures Switchable(HandOff(s, h))
  {
    hide Restore, PendListGet, SemOk;
    var t := s.sems[h].list[0];
    RestoreCore(s, h);
    RestoreFrame(s, h);
    var s1 := Restore(s, h);
    PendListGetCore(s1, h);
    var s2 := PendListGet(s1, h);
    assert t in s2.runQueue;
    GetTask(s2, t);
    OwnerSetCore(s2, h, t);
    PendListGetFrame(s1, h);
  }

  lemma PendListGetFrame(s: State, h: nat)
    requires h < |s.sems| && s.sems[h].list != []
    ensures PendListGet(s, h).active == s.active && PendListGet(s, h).idle == s.idle
    ensures PendListGet(s, h).running == s.running && |PendListGet(s, h).tcbs| == |s.tcbs|
  {}

  /** Nobody waits before the scheduler has been started. */
  lemma WaitersNeedScheduler(s: State, h: nat)
    requires WF(s) && h < |s.sems| && s.sems[h].list != []
    ensures s.active
  {
    GetSem(s, h);
    assert s.sems[h].list[0] in s.sems[h].list;
  }

  lemma ReleaseWF(s: State, h: nat)
    requires WF(s) && h < |s.sems| && s.sems[h].used && s.sems[h].list == []
    requires s.sems[h].count < OS_SEM_COUNT_MAX
    ensures WF(SemPost(s, h).0)
  {
    RestoreCore(s, h);
    RestoreFrame(s, h);
    var s1, s' := Restore(s, h), SemPost(s, h).0;
    if s' != s {
      forall x | 0 <= x < Tasks(s') ensures TaskOk(s', x) { GetTask(s1, x); }
      forall g | 0 <= g < |s'.sems| ensures SemOk(s', g) { GetSem(s1, g); }
    }
  }

  lemma SemPostWF(s: State, h: nat)
    requires WF(s)
    ensures WF(SemPost(s, h).0)
  {
    if h < |s.sems| && s.sems[h].used {
      GetSem(s, h);
      if s.sems[h].list != [] {
        WaitersNeedScheduler(s, h);
        HandOffSwitchable(s, h);
        ScheduleWF(HandOff(s, h));
      } else if s.sems[h].count < OS_SEM_COUNT_MAX {
        ReleaseWF(s, h);
      }
    }
  }

  lemma SemCreateWF(s: State, count: nat, typ: SemType, mode: SemMode)
    requires WF(s) && count <= OS_SEM_COUNT_MAX
    ensures WF(SemCreate(s, count, typ, mode).0)
  {
    if s.freeSems != [] {
      assert s.freeSems[0] in s.freeSems;
      var h, s' := s.freeSems[0], SemCreate(s, count, typ, mode).0;
      TailKeeps(s.freeSems);
      forall x | 0 <= x < Tasks(s') ensures TaskOk(s', x) {
        GetTask(s, x);
        GetSem(s, h);
      }
      forall g | 0 <= g < |s'.sems| ensures SemOk(s', g) { GetSem(s, g); }
    }
  }

  lemma TaskCreateWF(s: State, prio: nat, stack: Stack)
    requires WF(s) && prio <= OS_TSK_PRIORITY_LOWEST
    ensures WF(TaskCreate(s, prio, stack).0)
  {
    var s' := TaskCreate(s, prio, stack).0;
    if TaskCreate(s, prio, stack).1 == Ok {
      var t := s.freeTcbs[0];
      assert t in s.freeTcbs;
      TailKeeps(s.freeTcbs);
      GetTask(s, t);
      forall x | 0 <= x < Tasks(s') ensures TaskOk(s', x) { GetTask(s, x); }
      forall g | 0 <= g < |s'.sems| ensures SemOk(s', g) { GetSem(s, g); }
      FirstMinFrame(s.tcbs, s'.tcbs, s.runQueue);
    }
  }

  lemma UnsuspendCore(s: State, t: nat)
    requires Core(s) && t < Tasks(s) && Suspend in s.tcbs[t].status
    ensures Core(SetTcb(s, t, s.tcbs[t].(status := s.tcbs[t].status - {Suspend})))
  {
    var s' := SetTcb(s, t, s.tcbs[t].(status := s.tcbs[t].status - {Suspend}));
    GetTask(s, t);
    assert InUse in s'.tcbs[t].status;
    forall x | 0 <= x < Tasks(s') ensures TaskOk(s', x) { GetTask(s, x); }
    forall g | 0 <= g < |s'.sems| ensures SemOk(s', g) { GetSem(s, g); }
  }

  lemma TaskResumeWF(s: State, t: nat)
    requires WF(s) && t < Tasks(s)
    ensures WF(TaskResume(s, t).0)
    ensures TaskResume(s, t).1 == Ok ==>
              forall x :: x in TaskResume(s, t).0.runQueue <==> x in s.runQueue || x == t
  {
    GetTask(s, t);
    if Suspend in s.tcbs[t].status {
      UnsuspendCore(s, t);
      var s1 := SetTcb(s, t, s.tcbs[t].(status := s.tcbs[t].status - {Suspend}));
      assert InUse in s1.tcbs[t].status;
      ReadyAddCore(s1, t);
      var s2 := ReadyAdd(s1, t);
      if s.active {
        GetTask(s, s.running);
        ScheduleWF(s2);
      }
    }
  }

  lemma TaskExitWF(s: State)
    requires WF(s) && s.active && s.running != s.idle
    ensures WF(TaskExit(s)) && TaskExit(s).highest == Some(TaskExit(s).running)
  {
    var r := s.running;
    GetTask(s, r);
    assert InUse in s.tcbs[r].status - {Ready};
    ReadyDelCore(s, r);
    ScheduleWF(ReadyDel(s, r));
  }

  lemma ActivateWF(s: State)
    requires WF(s) && !s.active
    ensures WF(Activate(s).0)
    ensures Activate(s).1 == Ok ==> Activate(s).0.active && Activate(s).0.highest == Some(Activate(s).0.running)
  {
    hide WF, TaskCreate, TaskResume, FirstTimeSwitch;
    IdleResumed(s);
    var (s1, r) := TaskCreate(s, OS_TSK_PRIORITY_LOWEST, Sized(STACK_SIZE));
    if r == Ok {
      var (s2, r2) := TaskResume(s1, s.freeTcbs[0]);
      if r2 == Ok { FirstSwitchWF(s2, s.freeTcbs[0]); }
    }
  }

  /** Creating and resuming the idle task, before the scheduler runs. */
  lemma IdleResumed(s: State)
    requires WF(s) && !s.active
    ensures var (s1, r) := TaskCreate(s, OS_TSK_PRIORITY_LOWEST, Sized(STACK_SIZE));
            && WF(s1)
            && (r == Ok ==>
                  && s.freeTcbs != [] && s.freeTcbs[0] < Tasks(s) && |s1.tcbs| == |s.tcbs| && !s1.active
                  && var (s2, r2) := TaskResume(s1, s.freeTcbs[0]);
                     && WF(s2) && !s2.active && |s2.tcbs| == |s.tcbs|
                     && (r2 == Ok ==> s.freeTcbs[0] in s2.runQueue && forall t :: t in s2.runQueue ==> t < |s2.tcbs|))
  {
    hide Core, FirstMin;
    var (s1, r) := TaskCreate(s, OS_TSK_PRIORITY_LOWEST, Sized(STACK_SIZE));
    TaskCreateWF(s, OS_TSK_PRIORITY_LOWEST, Sized(STACK_SIZE));
    if r == Ok {
      FreeIsTask(s);
      TaskResumeWF(s1, s.freeTcbs[0]);
      ReadyKeeps(s1, s.freeTcbs[0]);
      QueuedAreTasks(TaskResume(s1, s.freeTcbs[0]).0);
    }
  }

  lemma FreeIsTask(s: State)
    requires Core(s) && s.freeTcbs != []
    ensures s.freeTcbs[0] < Tasks(s)
  {
    assert s.freeTcbs[0] in s.freeTcbs;
  }

  lemma QueuedAreTasks(s: State)
    requires Core(s)
    ensures forall t :: t in s.runQueue ==> t < |s.tcbs|
  {}

  lemma FirstSwitchWF(s: State, idle: nat)
    requires WF(s) && !s.active && idle in s.runQueue
    ensures var s' := FirstTimeSwitch(s.(idle := idle, active := true));
            WF(s') && s'.active && s'.highest == Some(s'.running)
  {
    var s' := FirstTimeSwitch(s.(idle := idle, active := true));
    FirstMinIs(s.tcbs, s.runQueue);
    assert s.highest.value in s.runQueue;
    GetTask(s, s.highest.value);
    forall x | 0 <= x < Tasks(s') ensures TaskOk(s', x) { GetTask(s, x); }
    forall g | 0 <= g < |s'.sems| ensures SemOk(s', g) { GetSem(s, g); }
    FirstMinFrame(s.tcbs, s'.tcbs, s.runQueue);
  }

  // ----- runs -----

  lemma BootWF(n: nat, m: nat, stacks: seq<bool>)
    ensures WF(Boot(n, m, stacks))
  {
    var s := Boot(n, m, stacks);
    forall t | 0 <= t < Tasks(s) ensures TaskOk(s, t) { assert s.freeTcbs[t] == t; }
    forall h | 0 <= h < |s.sems| ensures SemOk(s, h) { assert s.freeSems[h] == h; }
  }

  /** Every allowed call keeps the invariant. */
  lemma StepWF(s: State, c: Call)
    requires WF(s) && Allowed(s, c)
    ensures s.running < |s.tcbs| && WF(Result(s, c).0) && Next(s, c) == Result(s, c).0
  {
    match c
    case CSemCreate(count, typ, mode) => SemCreateWF(s, count, typ, mode);
    case CTaskCreate(p, stack) => TaskCreateWF(s, p, stack);
    case CTaskResume(t) => TaskResumeWF(s, t);
    case CActivate => ActivateWF(s);
    case CPend(h, timeout) => SemPendWF(s, h, timeout);
    case CPost(h) => SemPostWF(s, h);
    case CExit => TaskExitWF(s);
  }

  /** A kernel call other than the start keeps the sizes, and whether the scheduler runs. */
  lemma CallKeeps(s: State, c: Call)
    requires WF(s) && Allowed(s, c) && !c.CActivate?
    ensures WF(Next(s, c)) && Alike(s, Next(s, c))
  {
    StepWF(s, c);
    match c
    case CSemCreate(_, _, _) =>
    case CTaskCreate(_, _) =>
    case CTaskResume(t) => ReadyKeeps(s, t);
    case CPend(h, timeout) => if h < |s.sems| { PendKeeps(s, h); }
    case CPost(h) => if h < |s.sems| { PostKeeps(s, h); }
    case CExit => ExitKeeps(s);
  }

  lemma ActivateKeeps(s: State)
    requires WF(s) && !s.active
    ensures Tasks(Activate(s).0) == Tasks(s)
  {
    var (s1, r) := TaskCreate(s, OS_TSK_PRIORITY_LOWEST, Sized(STACK_SIZE));
    if r == Ok { ReadyKeeps(s1, s.freeTcbs[0]); }
  }

  ghost predicate Alike(s: State, s': State) {
    |s'.tcbs| == |s.tcbs| && s'.active == s.active && |s'.sems| == |s.sems|
  }

  lemma ScheduleKeeps(s: State)
    ensures Alike(s, Schedule(s))
  {}

  lemma ReadyKeeps(s: State, t: nat)
    requires t < |s.tcbs|
    ensures Alike(s, TaskResume(s, t).0)
  {
    hide Schedule;
    var s1 := SetTcb(s, t, s.tcbs[t].(status := s.tcbs[t].status - {Suspend}));
    ScheduleKeeps(ReadyAdd(s1, t));
  }

  lemma PendKeeps(s: State, h: nat)
    requires s.running < |s.tcbs| && h < |s.sems|
    ensures Alike(s, PendListPut(s, h)) && Alike(s, Schedule(PendListPut(s, h)))
  {
    hide Schedule;
    InheritFrame(Enlist(ReadyDel(s, s.running), h), h, s.running);
    ScheduleKeeps(PendListPut(s, h));
  }

  lemma PostKeeps(s: State, h: nat)
    requires h < |s.sems|
    ensures Alike(s, SemPost(s, h).0)
  {
    hide Schedule, Restore;
    RestoreFrame(s, h);
    if s.sems[h].list != [] { ScheduleKeeps(HandOff(s, h)); }
  }

  lemma ExitKeeps(s: State)
    requires s.running < |s.tcbs|
    ensures Alike(s, TaskExit(s))
  {
    hide Schedule;
    ScheduleKeeps(ReadyDel(s, s.running));
  }

  /** In every reachable state, from power-on, the queues and the cache are right. */
  lemma {:induction false} ReachableWF(s: State, calls: seq<Call>)
    requires WF(s) && AllAllowed(s, calls)
    ensures WF(After(s, calls))
  {
    if calls != [] {
      var front := calls[..|calls| - 1];
      ReachableWF(s, front);
      StepWF(After(s, front), calls[|calls| - 1]);
    }
  }
}
