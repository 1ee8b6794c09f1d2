/**
  What follows for every run of the kernel, nested locking included: where tasks are,
  when the most urgent task runs, where priorities come from, and what becomes of
  semaphore counts and waiters.
  */
module KernelTheorems {
  import opened Options
  import opened Queues
  import opened KernelSpec
  import opened KernelInv

  // ----- queues -----

  /** A task is in at most one of the free list, the run queue and the wait lists, the one its status
      names, and the cached task is the earliest of the most urgent ready tasks. */
  lemma QueuePartition(s: State, t: nat)
    requires WF(s) && t < Tasks(s)
    ensures t in s.freeTcbs <==> s.tcbs[t].status == {}
    ensures t in s.runQueue <==> Ready in s.tcbs[t].status
    ensures forall h :: 0 <= h < |s.sems| ==>
              (t in s.sems[h].list <==> Pending in s.tcbs[t].status && s.tcbs[t].taskSem == Some(h))
    ensures !(t in s.freeTcbs && t in s.runQueue)
    ensures forall h :: 0 <= h < |s.sems| && t in s.sems[h].list ==> t !in s.freeTcbs && t !in s.runQueue
    ensures forall g, h :: 0 <= g < |s.sems| && 0 <= h < |s.sems| ==>
              t in s.sems[g].list && t in s.sems[h].list ==> g == h
    ensures NoDup(s.freeTcbs) && NoDup(s.runQueue) && forall h :: 0 <= h < |s.sems| ==> NoDup(s.sems[h].list)
    ensures s.runQueue != [] ==> s.highest.Some? && IsFirstMin(s.tcbs, s.runQueue, s.highest.value)
  {
    GetTask(s, t);
    FirstMinIs(s.tcbs, s.runQueue);
    forall h | 0 <= h < |s.sems|
      ensures t in s.sems[h].list ==> s.tcbs[t].taskSem == Some(h)
      ensures NoDup(s.sems[h].list)
    {
      GetSem(s, h);
    }
  }

  // ----- who runs -----

  /** The cached task, the first of the most urgent ready ones, is the one that runs. */
  predicate Runs(s: State) {
    s.highest == Some(s.running)
  }

  /** The call gets as far as the scheduler. */
  predicate Reschedules(s: State, c: Call) {
    match c
    case CSemCreate(_, _, _) => false
    case CTaskCreate(_, _) => false
    case CTaskResume(t) => t < |s.tcbs| && Suspend in s.tcbs[t].status
    case CActivate => true
    case CPend(h, timeout) => h < |s.sems| && s.sems[h].used && s.sems[h].count == 0 && timeout != 0
    case CPost(h) => h < |s.sems| && s.sems[h].used && s.sems[h].list != []
    case CExit => true
  }

  /** The call is a post that finds no waiter and takes a boost back from the semaphore's owner, a ready task. */
  predicate Demotes(s: State, c: Call) {
    && c.CPost? && c.h < |s.sems| && s.sems[c.h].used
    && s.sems[c.h].list == [] && s.sems[c.h].count < OS_SEM_COUNT_MAX
    && !(s.sems[c.h].typ == Binary && s.sems[c.h].count == OS_SEM_FULL)
    && s.sems[c.h].owner.Some?
    && var o := s.sems[c.h].owner.value;
       o < |s.tcbs| && o in s.runQueue && s.tcbs[o].priority != s.tcbs[o].originalPriority
  }

  /** With task `o` queued again at the tail, at its own priority, the running task is the first most urgent one. */
  predicate StaysFirst(s: State, o: nat)
    requires o < |s.tcbs|
  {
    var p := s.tcbs[o].originalPriority;
    if o == s.running then forall x :: x in s.runQueue && x != o ==> p < Prio(s.tcbs, x)
    else FirstMin(s.tcbs, Remove(s.runQueue, o)) == Some(s.running) && Prio(s.tcbs, s.running) <= p
  }

  /** Whether the first most urgent ready task runs after a call, from any state: always when the call
      reschedules; after a post that takes a boost back, if the running task stays first; and otherwise if it did
      before. */
  lemma WhoRuns(s: State, c: Call)
    requires WF(s) && Allowed(s, c)
    ensures Next(s, c).active ==>
              (Runs(Next(s, c)) <==>
               Reschedules(s, c) || if Demotes(s, c) then StaysFirst(s, s.sems[c.h].owner.value) else Runs(s))
  {
    hide Activate, WF, StaysFirst, SemPost, SemPend, TaskResume;
    if c.CActivate? {
      StepWF(s, c);
      ActivateRuns(s);
    } else {
      CallKeeps(s, c);
      if s.active { WhoRunsNow(s, c); }
    }
  }

  lemma ActivateRuns(s: State)
    requires WF(s) && !s.active
    ensures Activate(s).0.active ==> Runs(Activate(s).0)
  {
    hide FirstTimeSwitch, Core;
    ActivateWF(s);
    TaskCreateWF(s, OS_TSK_PRIORITY_LOWEST, Sized(STACK_SIZE));
    if s.freeTcbs != [] { assert s.freeTcbs[0] in s.freeTcbs; }
  }

  lemma WhoRunsNow(s: State, c: Call)
    requires WF(s) && s.active && Allowed(s, c)
    ensures Runs(Next(s, c)) <==>
            Reschedules(s, c) || if Demotes(s, c) then StaysFirst(s, s.sems[c.h].owner.value) else Runs(s)
  {
    StepWF(s, c);
    match c
    case CSemCreate(count, typ, mode) =>
    case CTaskCreate(p, stack) =>
    case CTaskResume(t) => ResumeRuns(s, t);
    case CPend(h, timeout) => PendRuns(s, h, timeout);
    case CPost(h) => PostRuns(s, h);
    case CExit => TaskExitWF(s);
  }

  lemma ResumeRuns(s: State, t: nat)
    requires WF(s) && s.active && t < Tasks(s)
    ensures Runs(TaskResume(s, t).0) <==> Suspend in s.tcbs[t].status || Runs(s)
  {
    GetTask(s, t);
    if Suspend in s.tcbs[t].status {
      UnsuspendCore(s, t);
      var s1 := SetTcb(s, t, s.tcbs[t].(status := s.tcbs[t].status - {Suspend}));
      assert InUse in s1.tcbs[t].status;
      ReadyAddCore(s1, t);
      GetTask(s, s.running);
      ScheduleWF(ReadyAdd(s1, t));
    }
  }

  lemma PendRuns(s: State, h: nat, timeout: nat)
    requires WF(s) && Allowed(s, CPend(h, timeout))
    ensures Runs(SemPend(s, h, timeout).0) <==> Reschedules(s, CPend(h, timeout)) || Runs(s)
  {
    if h < |s.sems| && s.sems[h].used && s.sems[h].count == 0 && timeout != 0 {
      BlockWF(s, h);
    }
  }

  lemma PostRuns(s: State, h: nat)
    requires WF(s) && s.active
    ensures var c := CPost(h);
            Runs(SemPost(s, h).0) <==>
            Reschedules(s, c) || if Demotes(s, c) then StaysFirst(s, s.sems[h].owner.value) else Runs(s)
  {
    if h < |s.sems| && s.sems[h].used {
      GetSem(s, h);
      if s.sems[h].list != [] {
        HandOffSwitchable(s, h);
        ScheduleWF(HandOff(s, h));
      } else {
        RestoreRuns(s, h);
      }
    }
  }

  /** Restoring without waiters requeues the owner, if it is ready and its priority changes. */
  lemma RestoreRuns(s: State, h: nat)
    requires WF(s) && s.active && h < |s.sems| && s.sems[h].used && s.sems[h].list == []
    ensures Restore(s, h).running == s.running
    ensures Restore(s, h).highest == Some(s.running) <==>
            if s.sems[h].owner.Some?
               && var o := s.sems[h].owner.value;
                  o < |s.tcbs| && o in s.runQueue && s.tcbs[o].priority != s.tcbs[o].originalPriority
            then StaysFirst(s, s.sems[h].owner.value) else Runs(s)
  {
    GetSem(s, h);
    if s.sems[h].owner.Some? {
      var o := s.sems[h].owner.value;
      GetTask(s, o);
      SetPriorityFrame(s, o, s.tcbs[o].originalPriority);
      if s.tcbs[o].priority != s.tcbs[o].originalPriority && o in s.runQueue {
        RequeueRuns(s, o, s.tcbs[o].originalPriority);
      }
    }
  }

  lemma RequeueRuns(s: State, o: nat, p: nat)
    requires WF(s) && o < Tasks(s) && o in s.runQueue && p == s.tcbs[o].originalPriority
    ensures SetPriority(s, o, p).highest == Some(s.running) <==> StaysFirst(s, o)
  {
    Requeued(s, o, p);
    SetPriorityFrame(s, o, p);
    var s1, front := SetPriority(s, o, p), Remove(s.runQueue, o);
    RemoveKeeps(s.runQueue, o);
    hide WF, SetPriority;
    if o == s.running {
      DemoteSelf(s.tcbs, s1.tcbs, s.runQueue, o);
    } else {
      forall i | 0 <= i < |front| ensures Prio(s.tcbs, front[i]) == Prio(s1.tcbs, front[i]) {
        assert front[i] in front;
      }
      FirstMinFrame(s.tcbs, s1.tcbs, front);
      FirstMinIs(s.tcbs, front);
      FirstMember(s.tcbs, front);
      assert (front + [o])[..|front|] == front;
    }
  }

  lemma Requeued(s: State, o: nat, p: nat)
    requires Core(s) && o < Tasks(s) && o in s.runQueue
    ensures var s1 := SetPriority(s, o, p);
            s1.runQueue == Remove(s.runQueue, o) + [o] && s1.highest == FirstMin(s1.tcbs, s1.runQueue)
  {
    GetTask(s, o);
  }

  lemma FirstMember(c: seq<Tcb>, q: seq<nat>)
    ensures q != [] ==> FirstMin(c, q).Some? && FirstMin(c, q).value in q
  {
    FirstMinIs(c, q);
  }

  /** The call lowers the caller, with another ready task at least as urgent as the caller's own priority. */
  ghost predicate LowersRunner(s: State, c: Call) {
    && Demotes(s, c) && s.sems[c.h].owner == Some(s.running)
    && exists x :: x in s.runQueue && x != s.running && Prio(s.tcbs, x) <= s.tcbs[s.running].originalPriority
  }

  /** So where the most urgent ready task runs, it does so after the next call, except exactly after a post that
      finds no waiter and lowers the caller below another ready task: that path does not reschedule. */
  lemma MostUrgentRunsUnless(s: State, c: Call)
    requires WF(s) && s.active && Runs(s) && Allowed(s, c)
    ensures Runs(Next(s, c)) <==> !LowersRunner(s, c)
  {
    WhoRunsNow(s, c);
    if Demotes(s, c) {
      var o := s.sems[c.h].owner.value;
      GetTask(s, o);
      if o != s.running { OtherDemoted(s, o); }
    }
  }

  /** Lowering another ready task leaves the running one first. */
  lemma OtherDemoted(s: State, o: nat)
    requires WF(s) && Runs(s) && o < Tasks(s) && o in s.runQueue && o != s.running
    ensures StaysFirst(s, o)
  {
    GetTask(s, o);
    RemoveOther(s.tcbs, s.runQueue, o, s.running);
    FirstMinIs(s.tcbs, s.runQueue);
    var k: nat :| FirstMinAt(s.tcbs, s.runQueue, k) && s.runQueue[k] == s.running;
    var i :| 0 <= i < |s.runQueue| && s.runQueue[i] == o;
  }

  /** Over a run: what the last call says that rescheduled or took a boost back, if there is one. */
  predicate RunsAfter(s: State, calls: seq<Call>)
    decreases |calls|
  {
    if calls == [] then Runs(s)
    else
      var front, c := calls[..|calls| - 1], calls[|calls| - 1];
      var s1 := After(s, front);
      Reschedules(s1, c) || if Demotes(s1, c) then StaysFirst(s1, s1.sems[c.h].owner.value) else RunsAfter(s, front)
  }

  /** Exactly when the most urgent ready task runs at the end of a run, nested use included. */
  lemma {:induction false} WhoRunsOverRuns(s: State, calls: seq<Call>)
    requires WF(s) && AllAllowed(s, calls)
    ensures After(s, calls).active ==> (Runs(After(s, calls)) <==> RunsAfter(s, calls))
  {
    hide Next, Reschedules, Demotes, StaysFirst, WF, Runs;
    if calls != [] {
      var front, c := calls[..|calls| - 1], calls[|calls| - 1];
      WhoRunsOverRuns(s, front);
      ReachableWF(s, front);
      WhoRuns(After(s, front), c);
      if After(s, calls).active { StartedBefore(After(s, front), c); }
    }
  }

  lemma StartedBefore(s: State, c: Call)
    requires WF(s) && Allowed(s, c) && Next(s, c).active
    ensures s.active || Reschedules(s, c)
  {
    if !c.CActivate? { CallKeeps(s, c); }
  }

  lemma RemoveOther(c: seq<Tcb>, q: seq<nat>, o: nat, t: nat)
    requires NoDup(q) && o in q && t != o && FirstMin(c, q) == Some(t)
    ensures FirstMin(c, Remove(q, o)) == Some(t)
  {
    FirstMinIs(c, q);
    var k: nat :| FirstMinAt(c, q, k) && q[k] == t;
    var i :| 0 <= i < |q| && q[i] == o;
    RemoveAt(q, i);
    DropOther(c, q, k, i);
    FirstMinUnique(c, q[..i] + q[i + 1..], t);
  }

  lemma DropOther(c: seq<Tcb>, q: seq<nat>, k: nat, i: nat)
    requires FirstMinAt(c, q, k) && i < |q| && i != k
    ensures var k' := if k < i then k else k - 1;
            FirstMinAt(c, q[..i] + q[i + 1..], k') && (q[..i] + q[i + 1..])[k'] == q[k]
  {
    var r := q[..i] + q[i + 1..];
    assert forall j :: 0 <= j < i ==> r[j] == q[j];
    assert forall j :: i <= j < |r| ==> r[j] == q[j + 1];
  }

  lemma DemoteSelf(c: seq<Tcb>, c': seq<Tcb>, q: seq<nat>, o: nat)
    requires NoDup(q) && o in q
    requires forall x :: x in q && x != o ==> Prio(c', x) == Prio(c, x)
    ensures FirstMin(c', Remove(q, o) + [o]) == Some(o) <==>
            forall x :: x in q && x != o ==> Prio(c', o) < Prio(c, x)
  {
    var front := Remove(q, o);
    RemoveKeeps(q, o);
    assert (front + [o])[..|front|] == front;
    FirstMinIs(c', front);
    if front != [] {
      var m := FirstMin(c', front).value;
      var k: nat :| FirstMinAt(c', front, k) && front[k] == m;
      assert m in front;
      forall x | x in q && x != o ensures Prio(c', m) <= Prio(c, x) {
        var i :| 0 <= i < |front| && front[i] == x;
      }
    }
  }

  /** A timed pend that cannot be satisfied leaves the caller running although it is no longer ready;
      every other pend leaves the most urgent ready task running. */
  lemma TimedPendKeepsRunning(s: State, h: nat, timeout: nat)
    requires WF(s) && s.active && s.running != s.idle && s.highest == Some(s.running)
    ensures s.running < |s.tcbs|
    ensures var s' := SemPend(s, h, timeout).0;
            s'.highest == Some(s'.running) <==>
            !(h < |s.sems| && s.sems[h].used && s.sems[h].count == 0 && timeout != 0 && timeout != OS_WAIT_FOREVER)
  {
    if timeout == 0 || timeout == OS_WAIT_FOREVER {
      PendRuns(s, h, timeout);
    } else if h < |s.sems| && s.sems[h].used && s.sems[h].count == 0 {
      PendListPutSwitchable(s, h);
      var s' := PendListPut(s, h);
      FirstMinIs(s'.tcbs, s'.runQueue);
      assert s'.highest.value in s'.runQueue;
    }
  }

  // ----- where priorities come from -----

  ghost predicate CreatedAs(s: State, u: nat, p: nat) {
    u < Tasks(s) && s.tcbs[u].status != {} && s.tcbs[u].originalPriority == p
  }

  ghost predicate Created(s: State, p: nat) {
    exists u: nat :: CreatedAs(s, u, p)
  }

  ghost predicate PriorityCreated(s: State, t: nat)
    requires t < |s.tcbs|
  {
    s.tcbs[t].status != {} ==> Created(s, s.tcbs[t].priority)
  }

  /** Every effective priority is the creation priority of some created task. */
  ghost predicate PrioritiesAreCreated(s: State) {
    forall t {:trigger PriorityCreated(s, t)} :: 0 <= t < Tasks(s) ==> PriorityCreated(s, t)
  }

  /** Tasks are only added, and keep the priority they were created with. */
  ghost predicate Grown(s: State, s': State) {
    && |s'.tcbs| == |s.tcbs|
    && forall t :: 0 <= t < Tasks(s) && s.tcbs[t].status != {} ==>
         s'.tcbs[t].status != {} && s'.tcbs[t].originalPriority == s.tcbs[t].originalPriority
  }

  lemma GrownCreated(s: State, s': State, p: nat)
    requires Grown(s, s') && Created(s, p)
    ensures Created(s', p)
  {
    var u: nat :| CreatedAs(s, u, p);
    assert CreatedAs(s', u, p);
  }

  /** Enough for the property to carry over: each priority is an old one, or a task's own. */
  lemma CreatedFrame(s: State, s': State)
    requires PrioritiesAreCreated(s) && Grown(s, s')
    requires forall t :: 0 <= t < Tasks(s) && s'.tcbs[t].status != {} ==>
               || s'.tcbs[t].priority == s'.tcbs[t].originalPriority
               || (s.tcbs[t].status != {} && s'.tcbs[t].priority == s.tcbs[t].priority)
    ensures PrioritiesAreCreated(s')
  {
    forall t | 0 <= t < Tasks(s') ensures PriorityCreated(s', t) {
      if s'.tcbs[t].status != {} {
        if s'.tcbs[t].priority == s'.tcbs[t].originalPriority {
          assert CreatedAs(s', t, s'.tcbs[t].priority);
        } else {
          assert PriorityCreated(s, t);
          GrownCreated(s, s', s.tcbs[t].priority);
        }
      }
    }
  }

  lemma SetPriorityCreated(s: State, t: nat, p: nat)
    requires PrioritiesAreCreated(s) && t < Tasks(s) && s.tcbs[t].status != {} && Created(s, p)
    ensures PrioritiesAreCreated(SetPriority(s, t, p)) && Grown(s, SetPriority(s, t, p))
  {
    var s' := SetPriority(s, t, p);
    SetPriorityFrame(s, t, p);
    forall x | 0 <= x < Tasks(s') ensures PriorityCreated(s', x) {
      assert PriorityCreated(s, x);
      if s'.tcbs[x].status != {} { GrownCreated(s, s', s'.tcbs[x].priority); }
    }
  }

  lemma MinPrioCreated(s: State, h: nat)
    requires Core(s) && PrioritiesAreCreated(s) && h < |s.sems|
    ensures MinPrio(s.tcbs, s.sems[h].list) == 255 || Created(s, MinPrio(s.tcbs, s.sems[h].list))
  {
    var list := s.sems[h].list;
    GetSem(s, h);
    MinPrioIs(s.tcbs, list);
    if MinPrio(s.tcbs, list) != 255 {
      var w :| w in list && Prio(s.tcbs, w) == MinPrio(s.tcbs, list);
      GetTask(s, w);
      assert PriorityCreated(s, w);
    }
  }

  lemma InheritCreated(s: State, h: nat, w: nat)
    requires Core(s) && PrioritiesAreCreated(s) && h < |s.sems| && s.sems[h].used
    requires w < Tasks(s) && s.tcbs[w].status != {}
    ensures PrioritiesAreCreated(Inherit(s, h, w)) && Grown(s, Inherit(s, h, w))
  {
    GetSem(s, h);
    MinPrioCreated(s, h);
    if s.sems[h].owner.Some? {
      var o := s.sems[h].owner.value;
      var m := MinPrio(s.tcbs, s.sems[h].list);
      GetTask(s, o);
      var p := if Prio(s.tcbs, w) < m then Prio(s.tcbs, w) else m;
      assert PriorityCreated(s, w);
      if s.tcbs[o].priority > p { SetPriorityCreated(s, o, p); }
    }
  }

  lemma RestoreCreated(s: State, h: nat)
    requires Core(s) && PrioritiesAreCreated(s) && h < |s.sems| && s.sems[h].used
    ensures PrioritiesAreCreated(Restore(s, h)) && Grown(s, Restore(s, h))
  {
    GetSem(s, h);
    MinPrioCreated(s, h);
    if s.sems[h].owner.Some? {
      var o := s.sems[h].owner.value;
      GetTask(s, o);
      var m := MinPrio(s.tcbs, s.sems[h].list);
      if m < s.tcbs[o].priority {
        SetPriorityCreated(s, o, m);
      } else {
        assert CreatedAs(s, o, s.tcbs[o].originalPriority);
        SetPriorityCreated(s, o, s.tcbs[o].originalPriority);
      }
    }
  }

  lemma ScheduleCreated(s: State)
    requires Switchable(s) && PrioritiesAreCreated(s)
    ensures PrioritiesAreCreated(Schedule(s)) && Grown(s, Schedule(s))
  {
    var s' := Schedule(s);
    ScheduleWF(s);
    forall t | 0 <= t < Tasks(s)
      ensures s.tcbs[t].status != {} <==> s'.tcbs[t].status != {}
      ensures s'.tcbs[t].priority == s.tcbs[t].priority && s'.tcbs[t].originalPriority == s.tcbs[t].originalPriority
    {
      GetTask(s, t);
      GetTask(s', t);
    }
    CreatedFrame(s, s');
  }

  lemma BlockCreated(s: State, h: nat)
    requires WF(s) && s.active && s.running != s.idle && h < |s.sems| && s.sems[h].used && s.sems[h].count == 0
    requires PrioritiesAreCreated(s)
    ensures var s' := Schedule(PendListPut(s, h)); PrioritiesAreCreated(s') && Grown(s, s')
  {
    hide Schedule;
    QueuedCreated(s, h);
    InheritCreated(Enlist(ReadyDel(s, s.running), h), h, s.running);
    PendListPutSwitchable(s, h);
    ScheduleCreated(PendListPut(s, h));
  }

  lemma QueuedCreated(s: State, h: nat)
    requires WF(s) && s.active && s.running != s.idle && h < |s.sems| && s.sems[h].used && s.sems[h].count == 0
    requires PrioritiesAreCreated(s)
    ensures s.running < Tasks(s)
    ensures var s' := Enlist(ReadyDel(s, s.running), h); Core(s') && PrioritiesAreCreated(s') && Grown(s, s')
    ensures Pending in Enlist(ReadyDel(s, s.running), h).tcbs[s.running].status
  {
    var r := s.running;
    GetTask(s, r);
    assert InUse in s.tcbs[r].status - {Ready};
    ReadyDelCore(s, r);
    EnlistCore(ReadyDel(s, r), h);
    CreatedFrame(s, Enlist(ReadyDel(s, r), h));
  }

  lemma HandOffCreated(s: State, h: nat)
    requires WF(s) && s.active && h < |s.sems| && s.sems[h].used && s.sems[h].list != []
    requires PrioritiesAreCreated(s)
    ensures var s' := Schedule(HandOff(s, h)); PrioritiesAreCreated(s') && Grown(s, s')
  {
    hide Restore, PendListGet, Schedule, FirstMin;
    RestoreCreated(s, h);
    RestoreCore(s, h);
    RestoreFrame(s, h);
    DequeueCreated(Restore(s, h), h);
    HandOffSwitchable(s, h);
    CreatedFrame(PendListGet(Restore(s, h), h), HandOff(s, h));
    ScheduleCreated(HandOff(s, h));
  }

  lemma DequeueCreated(s: State, h: nat)
    requires Core(s) && h < |s.sems| && s.sems[h].list != [] && PrioritiesAreCreated(s)
    ensures PrioritiesAreCreated(PendListGet(s, h)) && Grown(s, PendListGet(s, h))
    ensures h < |PendListGet(s, h).sems|
  {
    PendListGetCore(s, h);
    var t := s.sems[h].list[0];
    GetSem(s, h);
    assert t in s.sems[h].list;
    GetTask(s, t);
    CreatedFrame(s, PendListGet(s, h));
  }

  lemma ResumeCreated(s: State, t: nat)
    requires WF(s) && t < Tasks(s) && PrioritiesAreCreated(s)
    ensures var s' := TaskResume(s, t).0; PrioritiesAreCreated(s') && Grown(s, s')
  {
    GetTask(s, t);
    if Suspend in s.tcbs[t].status {
      UnsuspendCore(s, t);
      var s1 := SetTcb(s, t, s.tcbs[t].(status := s.tcbs[t].status - {Suspend}));
      assert InUse in s1.tcbs[t].status;
      ReadyAddCore(s1, t);
      var s2 := ReadyAdd(s1, t);
      assert InUse in s2.tcbs[t].status;
      CreatedFrame(s, s2);
      if s.active {
        GetTask(s, s.running);
        ScheduleCreated(s2);
      }
    }
  }

  lemma ExitCreated(s: State)
    requires WF(s) && s.active && s.running != s.idle && PrioritiesAreCreated(s)
    ensures PrioritiesAreCreated(TaskExit(s)) && Grown(s, TaskExit(s))
  {
    var r := s.running;
    GetTask(s, r);
    assert InUse in s.tcbs[r].status - {Ready};
    ReadyDelCore(s, r);
    CreatedFrame(s, ReadyDel(s, r));
    TaskExitWF(s);
    ScheduleCreated(ReadyDel(s, r));
  }

  lemma CreateCreated(s: State, prio: nat, stack: Stack)
    requires WF(s) && PrioritiesAreCreated(s)
    ensures var s' := TaskCreate(s, prio, stack).0; PrioritiesAreCreated(s') && Grown(s, s')
  {
    if TaskCreate(s, prio, stack).1 == Ok {
      assert s.freeTcbs[0] in s.freeTcbs;
      GetTask(s, s.freeTcbs[0]);
    }
    CreatedFrame(s, TaskCreate(s, prio, stack).0);
  }

  lemma ActivateCreated(s: State)
    requires WF(s) && !s.active && PrioritiesAreCreated(s)
    ensures var s' := Activate(s).0; PrioritiesAreCreated(s') && Grown(s, s')
  {
    var (s1, r) := TaskCreate(s, OS_TSK_PRIORITY_LOWEST, Sized(STACK_SIZE));
    CreateCreated(s, OS_TSK_PRIORITY_LOWEST, Sized(STACK_SIZE));
    TaskCreateWF(s, OS_TSK_PRIORITY_LOWEST, Sized(STACK_SIZE));
    if r == Ok {
      var t := s.freeTcbs[0];
      assert t in s.freeTcbs;
      ResumeCreated(s1, t);
      TaskResumeWF(s1, t);
      var (s2, r2) := TaskResume(s1, t);
      if r2 == Ok { FirstSwitchCreated(s2, t); }
    }
  }

  lemma FirstSwitchCreated(s: State, idle: nat)
    requires WF(s) && PrioritiesAreCreated(s)
    ensures var s' := FirstTimeSwitch(s.(idle := idle, active := true)); PrioritiesAreCreated(s') && Grown(s, s')
  {
    FirstMinIs(s.tcbs, s.runQueue);
    if s.runQueue != [] {
      assert s.highest.value in s.runQueue;
      GetTask(s, s.highest.value);
    }
    CreatedFrame(s, FirstTimeSwitch(s.(idle := idle, active := true)));
  }

  lemma PostCreated(s: State, h: nat)
    requires WF(s) && PrioritiesAreCreated(s)
    ensures PrioritiesAreCreated(SemPost(s, h).0) && Grown(s, SemPost(s, h).0)
  {
    if h < |s.sems| && s.sems[h].used {
      GetSem(s, h);
      if s.sems[h].list != [] {
        WaitersNeedScheduler(s, h);
        HandOffCreated(s, h);
      } else {
        RestoreCreated(s, h);
        CreatedFrame(s, s);
        if SemPost(s, h).0 != s { CreatedFrame(Restore(s, h), SemPost(s, h).0); }
      }
    }
  }

  /** In every step, nested use included: original priorities never change, effective priorities are never
      less urgent than them, and each is the creation priority of some task. */
  lemma PriorityOrigin(s: State, c: Call)
    requires WF(s) && PrioritiesAreCreated(s) && Allowed(s, c)
    ensures var s' := Next(s, c);
            && PrioritiesAreCreated(s') && Grown(s, s')
            && forall t :: 0 <= t < Tasks(s') && s'.tcbs[t].status != {} ==>
                 s'.tcbs[t].priority <= s'.tcbs[t].originalPriority
  {
    StepWF(s, c);
    var s' := Next(s, c);
    forall t | 0 <= t < Tasks(s') && s'.tcbs[t].status != {}
      ensures s'.tcbs[t].priority <= s'.tcbs[t].originalPriority
    {
      GetTask(s', t);
    }
    match c
    case CSemCreate(count, typ, mode) => CreatedFrame(s, s');
    case CTaskCreate(p, stack) => CreateCreated(s, p, stack);
    case CTaskResume(t) => ResumeCreated(s, t);
    case CActivate => ActivateCreated(s);
    case CPend(h, timeout) =>
      if h < |s.sems| && s.sems[h].used && s.sems[h].count == 0 && timeout != 0 {
        BlockCreated(s, h);
      } else {
        CreatedFrame(s, s');
      }
    case CPost(h) => PostCreated(s, h);
    case CExit => ExitCreated(s);
  }

  /** Over whole runs. */
  lemma {:induction false} PriorityOriginOverRuns(s: State, calls: seq<Call>)
    requires WF(s) && PrioritiesAreCreated(s) && AllAllowed(s, calls)
    ensures var s' := After(s, calls);
            && PrioritiesAreCreated(s') && Grown(s, s')
            && forall t :: 0 <= t < Tasks(s') && s'.tcbs[t].status != {} ==>
                 s'.tcbs[t].priority <= s'.tcbs[t].originalPriority
  {
    if calls == [] {
      forall t | 0 <= t < Tasks(s) && s.tcbs[t].status != {}
        ensures s.tcbs[t].priority <= s.tcbs[t].originalPriority
      {
        GetTask(s, t);
      }
    } else {
      var front := calls[..|calls| - 1];
      PriorityOriginOverRuns(s, front);
      ReachableWF(s, front);
      PriorityOrigin(After(s, front), calls[|calls| - 1]);
    }
  }

  /** From power-on there is nothing to require. */
  lemma PriorityOriginFromBoot(n: nat, m: nat, stacks: seq<bool>, calls: seq<Call>)
    requires AllAllowed(Boot(n, m, stacks), calls)
    ensures var s := After(Boot(n, m, stacks), calls);
            && PrioritiesAreCreated(s)
            && forall t :: 0 <= t < Tasks(s) && s.tcbs[t].status != {} ==>
                 s.tcbs[t].priority <= s.tcbs[t].originalPriority
  {
    var s := Boot(n, m, stacks);
    BootWF(n, m, stacks);
    forall t | 0 <= t < Tasks(s) ensures PriorityCreated(s, t) {}
    PriorityOriginOverRuns(s, calls);
  }
}
