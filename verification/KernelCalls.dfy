/**
  What each kernel call returns and does, from any consistent state, said of its result and the next
  state alone: codes, the control blocks that change and how, and that all else stays. Who runs is left to
  the cache, which the invariant and KernelTheorems.WhoRuns determine.
  */
module KernelCalls {
  import opened Options
  import opened Queues
  import opened KernelSpec
  import opened KernelInv

  /** A control block but for the mark of who runs. */
  function Plain(c: Tcb): Tcb {
    c.(status := c.status - {Running})
  }

  /** All control blocks of tasks but those of `who` are the same, but for that mark. */
  ghost predicate OthersSame(s: State, s': State, who: set<nat>) {
    && |s'.tcbs| == |s.tcbs|
    && forall t :: 0 <= t < |s.tcbs| && t !in who ==> Plain(s'.tcbs[t]) == Plain(s.tcbs[t])
  }

  /** The calls of a running system leave these alone. */
  predicate SystemSame(s: State, s': State) {
    s'.freeTcbs == s.freeTcbs && s'.freeSems == s.freeSems && s'.stackMemUsed == s.stackMemUsed
    && s'.active == s.active && s'.idle == s.idle
  }

  /** The most urgent ready task, the first of them in the queue, is the one that runs. */
  ghost predicate FirstRuns(s: State) {
    IsFirstMin(s.tcbs, s.runQueue, s.running) && s.highest == Some(s.running)
  }

  // ----- the start -----

  /** Power-on: no task, no semaphore in use, all of them free in the order of the tables, nothing ready, the zombie
      running, and of twenty stack blocks the first two taken. */
  lemma BootIs(n: nat, m: nat)
    ensures var s := Boot(n, m, BootStacks());
            && |s.tcbs| == n + 1 && |s.sems| == m && |s.freeTcbs| == n && |s.freeSems| == m
            && (forall t :: 0 <= t < n ==> s.tcbs[t].status == {} && s.freeTcbs[t] == t)
            && s.tcbs[n].status == {InUse, Running} && s.tcbs[n].priority == 64
            && (forall h :: 0 <= h < m ==> !s.sems[h].used && s.sems[h].list == [] && s.freeSems[h] == h)
            && s.runQueue == [] && s.running == n && s.highest == None && !s.active
            && |s.stackMemUsed| == 20
            && forall b :: 0 <= b < 20 ==> (s.stackMemUsed[b] <==> b < 2)
  {
  }

  // ----- switching -----

  /** Scheduling marks who runs, and nothing else. */
  lemma Switched(s: State)
    requires Switchable(s)
    ensures var s' := Schedule(s);
            && OthersSame(s, s', {}) && SystemSame(s, s') && s'.runQueue == s.runQueue && s'.sems == s.sems
            && FirstRuns(s') && WF(s')
            && forall t :: 0 <= t < |s.tcbs| ==> s'.tcbs[t].priority == s.tcbs[t].priority
  {
    ScheduleWF(s);
    FirstMinIs(Schedule(s).tcbs, Schedule(s).runQueue);
    hide WF, Switchable, FirstMin;
  }

  lemma RunnerStatus(s: State)
    requires WF(s) && s.active
    ensures s.running < Tasks(s) && s.running in s.runQueue
    ensures Plain(s.tcbs[s.running]).status == {InUse, Ready} && s.tcbs[s.running].taskSem == None
  {
    GetTask(s, s.running);
    var c := s.tcbs[s.running].status;
    forall x ensures x in c <==> x in {InUse, Ready, Running} {
      match x { case InUse => case Suspend => case Pending => case Ready => case Running => }
    }
    assert c == {InUse, Ready, Running};
  }

  // ----- exit -----

  /** The running task ends: it is in no queue and not ready, another task runs, and nothing else changes. */
  lemma ExitIs(s: State)
    requires WF(s) && s.active && s.running != s.idle
    ensures s.running < |s.tcbs| && Result(s, CExit).1 == Ok
    ensures var r, s' := s.running, Next(s, CExit);
            && OthersSame(s, s', {r}) && SystemSame(s, s') && s'.sems == s.sems
            && s'.tcbs[r] == s.tcbs[r].(status := {InUse})
            && InNoQueue(s', r) && s'.running != r
            && s'.runQueue == Remove(s.runQueue, r) && FirstRuns(s')
  {
    var r := s.running;
    Unreadied(s);
    StepWF(s, CExit);
    hide ReadyDel, WF, FirstRuns, Switchable;
    Switched(ReadyDel(s, r));
    EndedIsNowhere(Next(s, CExit), r);
  }

  lemma Unreadied(s: State)
    requires WF(s) && s.active && s.running != s.idle
    ensures var r, s1 := s.running, ReadyDel(s, s.running);
            && r < Tasks(s)
            && OthersSame(s, s1, {r}) && SystemSame(s, s1) && s1.sems == s.sems && s1.running == r
            && s1.runQueue == Remove(s.runQueue, r) && Switchable(s1)
            && Plain(s1.tcbs[r]) == s.tcbs[r].(status := {InUse})
  {
    var r := s.running;
    RunnerStatus(s);
    var c := s.tcbs[r].status;
    assert InUse in c - {Ready};
    ReadyDelCore(s, r);
    assert c - {Ready} - {Running} == (c - {Running}) - {Ready} == {InUse};
  }

  /** In use, but neither ready nor waiting nor suspended: a task that has ended. */
  predicate Ended(s: State, t: nat) {
    t < Tasks(s) && Plain(s.tcbs[t]).status == {InUse}
  }

  lemma EndedIsNowhere(s: State, t: nat)
    requires WF(s) && Ended(s, t)
    ensures InNoQueue(s, t) && s.running != t
    ensures s.tcbs[t].status == {InUse}
  {
    GetTask(s, t);
    var c := s.tcbs[t].status;
    assert forall x :: x in c && x != Running ==> x in c - {Running};
    assert Ready !in c && Pending !in c && InUse in c - {Running};
    forall h | 0 <= h < |s.sems| ensures t !in s.sems[h].list { GetSem(s, h); }
    assert s.tcbs[t].status == Plain(s.tcbs[t]).status;
  }

  // ----- creating -----

  /** A semaphore is the head of the free list, with the arguments given; there is one unless none is free. */
  lemma SemCreateIs(s: State, count: nat, typ: SemType, mode: SemMode)
    requires WF(s)
    ensures s.running < |s.tcbs|
    ensures var (s', ret) := Result(s, CSemCreate(count, typ, mode));
            && ret == (if s.freeSems == [] then SemAllBusy else Ok)
            && (ret != Ok ==> s' == s)
            && (ret == Ok ==>
                  var h := s.freeSems[0];
                  && h < |s.sems| && |s'.sems| == |s.sems|
                  && s'.sems[h] == Sem(true, count, [], None, mode, typ)
                  && (forall g :: 0 <= g < |s.sems| && g != h ==> s'.sems[g] == s.sems[g])
                  && s' == s.(sems := s'.sems, freeSems := s.freeSems[1..]))
  {
    RunningExists(s);
    if s.freeSems != [] { assert s.freeSems[0] in s.freeSems; }
  }

  lemma RunningExists(s: State)
    requires WF(s)
    ensures s.running < |s.tcbs|
  {
    if s.active { GetTask(s, s.running); }
  }

  /** A stack comes from the caller, or is one of the blocks of 4096 bytes. */
  predicate StackServed(s: State, stack: Stack) {
    stack.Given? || (stack.size == 4096 && exists b :: 0 <= b < |s.stackMemUsed| && !s.stackMemUsed[b])
  }

  /** The first block that was unused is used now. */
  ghost predicate FirstBlockTaken(used: seq<bool>, used': seq<bool>) {
    exists b: nat :: b < |used| && !used[b] && (forall j :: 0 <= j < b ==> used[j]) && used' == used[b := true]
  }

  lemma {:induction false} FirstFreeIs(used: seq<bool>)
    ensures FirstFree(used) == None <==> forall b :: 0 <= b < |used| ==> used[b]
    ensures FirstFree(used).Some? ==>
              var b := FirstFree(used).value;
              b < |used| && !used[b] && forall j :: 0 <= j < b ==> used[j]
  {
    if used != [] && used[0] {
      FirstFreeIs(used[1..]);
      assert forall b :: 1 <= b < |used| ==> used[b] == used[1..][b - 1];
    }
  }

  /** Creating a task succeeds exactly when a control block is free and the stack can be served. Then the first free
      task is suspended, with the priority asked for as both its priorities; otherwise nothing has changed. */
  lemma TaskCreateIs(s: State, prio: nat, stack: Stack)
    requires WF(s)
    ensures s.running < |s.tcbs|
    ensures var (s', ret) := Result(s, CTaskCreate(prio, stack));
            && (ret == TskTcbUnavailable <==> s.freeTcbs == [])
            && (ret == TskNoMemory <==> s.freeTcbs != [] && !StackServed(s, stack))
            && (ret == Ok <==> s.freeTcbs != [] && StackServed(s, stack))
            && (ret != Ok ==> s' == s)
            && (ret == Ok ==>
                  var t := s.freeTcbs[0];
                  && t < Tasks(s) && |s'.tcbs| == |s.tcbs|
                  && s'.tcbs[t] == Tcb({Suspend, InUse}, prio, prio, None)
                  && (forall x :: 0 <= x < |s.tcbs| && x != t ==> s'.tcbs[x] == s.tcbs[x])
                  && s' == s.(tcbs := s'.tcbs, freeTcbs := s.freeTcbs[1..], stackMemUsed := s'.stackMemUsed)
                  && (if stack.Given? then s'.stackMemUsed == s.stackMemUsed
                      else FirstBlockTaken(s.stackMemUsed, s'.stackMemUsed)))
  {
    RunningExists(s);
    FirstFreeIs(s.stackMemUsed);
    if s.freeTcbs != [] { assert s.freeTcbs[0] in s.freeTcbs; }
  }

  // ----- resuming and starting -----

  /** A suspended task becomes ready, at the tail; a running scheduler then chooses. */
  lemma TaskResumeIs(s: State, t: nat)
    requires WF(s) && t < Tasks(s)
    ensures s.running < |s.tcbs|
    ensures var (s', ret) := Result(s, CTaskResume(t));
            && (ret == TskNotCreated <==> s.tcbs[t].status == {})
            && (ret == TskNotSuspended <==> s.tcbs[t].status != {} && Suspend !in s.tcbs[t].status)
            && (ret == Ok <==> Suspend in s.tcbs[t].status)
            && (ret != Ok ==> s' == s)
            && (ret == Ok ==>
                  && OthersSame(s, s', {t}) && SystemSame(s, s') && s'.sems == s.sems
                  && Plain(s'.tcbs[t]) == s.tcbs[t].(status := {InUse, Ready})
                  && s'.runQueue == s.runQueue + [t]
                  && if s.active then FirstRuns(s') else s'.running == s.running)
  {
    RunningExists(s);
    GetTask(s, t);
    if Suspend in s.tcbs[t].status {
      Readied(s, t);
      hide ReadyAdd, WF, FirstRuns, Switchable;
      var s1 := SetTcb(s, t, s.tcbs[t].(status := s.tcbs[t].status - {Suspend}));
      if s.active { Switched(ReadyAdd(s1, t)); }
    }
  }

  lemma SuspendedStatus(s: State, t: nat)
    requires WF(s) && t < Tasks(s) && Suspend in s.tcbs[t].status
    ensures s.tcbs[t].status == {InUse, Suspend} && s.tcbs[t].taskSem == None && s.running != t
  {
    GetTask(s, t);
    var c := s.tcbs[t].status;
    forall x ensures x in c <==> x in {InUse, Suspend} {
      match x { case InUse => case Suspend => case Pending => case Ready => case Running => }
    }
  }

  lemma Readied(s: State, t: nat)
    requires WF(s) && t < Tasks(s) && Suspend in s.tcbs[t].status
    ensures var s1 := SetTcb(s, t, s.tcbs[t].(status := s.tcbs[t].status - {Suspend}));
            var s2 := ReadyAdd(s1, t);
            && Pending !in s1.tcbs[t].status
            && OthersSame(s, s2, {t}) && SystemSame(s, s2) && s2.sems == s.sems && s2.running == s.running
            && s2.tcbs[t] == s.tcbs[t].(status := {InUse, Ready})
            && s2.runQueue == s.runQueue + [t]
            && (s.active ==> Switchable(s2))
  {
    SuspendedStatus(s, t);
    assert {InUse, Suspend} - {Suspend} == {InUse} && {InUse} + {Ready} == {InUse, Ready};
    if s.active { ReadiedSwitchable(s, t); }
    hide WF, Switchable;
  }

  lemma ReadiedSwitchable(s: State, t: nat)
    requires WF(s) && s.active && t < Tasks(s) && s.tcbs[t].status == {InUse, Suspend}
    ensures Switchable(ReadyAdd(SetTcb(s, t, s.tcbs[t].(status := s.tcbs[t].status - {Suspend})), t))
  {
    UnsuspendCore(s, t);
    var s1 := SetTcb(s, t, s.tcbs[t].(status := s.tcbs[t].status - {Suspend}));
    assert InUse in s1.tcbs[t].status;
    ReadyAddCore(s1, t);
    GetTask(s, s.running);
  }

  /** Starting creates the idle task with the least urgent priority, 63, and makes it ready; the most urgent ready task
      runs. It fails as creating does. */
  lemma ActivateIs(s: State)
    requires WF(s) && !s.active
    ensures s.running < |s.tcbs|
    ensures var (s', ret) := Result(s, CActivate);
            && (ret == TskTcbUnavailable <==> s.freeTcbs == [])
            && (ret == TskNoMemory <==> s.freeTcbs != [] && !StackServed(s, Sized(4096)))
            && (ret == Ok <==> s.freeTcbs != [] && StackServed(s, Sized(4096)))
            && (ret != Ok ==> s' == s)
            && (ret == Ok ==>
                  var t := s.freeTcbs[0];
                  && t < Tasks(s) && OthersSame(s, s', {t}) && s'.sems == s.sems
                  && Plain(s'.tcbs[t]) == Tcb({InUse, Ready}, 63, 63, None)
                  && s'.idle == t && s'.active && s'.freeTcbs == s.freeTcbs[1..] && s'.freeSems == s.freeSems
                  && FirstBlockTaken(s.stackMemUsed, s'.stackMemUsed)
                  && s'.runQueue == s.runQueue + [t] && FirstRuns(s'))
  {
    hide TaskCreate, TaskResume, FirstTimeSwitch, WF, FirstRuns, FirstBlockTaken, StackServed;
    RunningExists(s);
    IdleReadied(s);
    var (s1, r) := TaskCreate(s, 63, Sized(4096));
    if r == Ok { FirstSwitchIs(TaskResume(s1, s.freeTcbs[0]).0, s.freeTcbs[0]); }
  }

  lemma IdleReadied(s: State)
    requires WF(s) && !s.active
    ensures var (s1, r) := TaskCreate(s, 63, Sized(4096));
            && (r == TskTcbUnavailable <==> s.freeTcbs == [])
            && (r == TskNoMemory <==> s.freeTcbs != [] && !StackServed(s, Sized(4096)))
            && (r == Ok <==> s.freeTcbs != [] && StackServed(s, Sized(4096)))
            && (r != Ok ==> s1 == s)
            && (r == Ok ==>
                  var t := s.freeTcbs[0];
                  && t < Tasks(s) && |s1.tcbs| == |s.tcbs|
                  && var (s2, r2) := TaskResume(s1, t);
                     && r2 == Ok && WF(s2) && !s2.active
                     && OthersSame(s, s2, {t}) && s2.sems == s.sems
                     && Plain(s2.tcbs[t]) == Tcb({InUse, Ready}, 63, 63, None)
                     && s2.freeTcbs == s.freeTcbs[1..] && s2.freeSems == s.freeSems
                     && FirstBlockTaken(s.stackMemUsed, s2.stackMemUsed)
                     && s2.runQueue == s.runQueue + [t])
  {
    TaskCreateIs(s, 63, Sized(4096));
    TaskCreateWF(s, 63, Sized(4096));
    var (s1, r) := TaskCreate(s, 63, Sized(4096));
    if r == Ok {
      TaskResumeIs(s1, s.freeTcbs[0]);
      TaskResumeWF(s1, s.freeTcbs[0]);
    }
    hide TaskCreate, TaskResume, WF, FirstRuns, FirstBlockTaken, StackServed;
  }

  lemma FirstSwitchIs(s: State, idle: nat)
    requires WF(s) && !s.active && idle in s.runQueue
    ensures var s' := FirstTimeSwitch(s.(idle := idle, active := true));
            && OthersSame(s, s', {}) && s'.sems == s.sems && s'.runQueue == s.runQueue && FirstRuns(s')
            && s'.freeTcbs == s.freeTcbs && s'.freeSems == s.freeSems && s'.stackMemUsed == s.stackMemUsed
            && s'.idle == idle && s'.active
  {
    var s' := FirstTimeSwitch(s.(idle := idle, active := true));
    FirstSwitchWF(s, idle);
    FirstMinIs(s'.tcbs, s'.runQueue);
    FirstMinIs(s.tcbs, s.runQueue);
    assert s.highest.value in s.runQueue;
  }

  // ----- pending -----

  /** The more urgent of the running task and the waiters of `h`. */
  function Urgency(s: State, h: nat): nat
    requires h < |s.sems|
  {
    var m := MinPrio(s.tcbs, s.sems[h].list);
    if Prio(s.tcbs, s.running) < m then Prio(s.tcbs, s.running) else m
  }

  /** All priorities stay, but the owner of `h` has priority `p`. */
  ghost predicate OwnerGets(s: State, s': State, h: nat, p: nat)
    requires h < |s.sems|
  {
    match s.sems[h].owner
    case None => forall x :: 0 <= x < |s.tcbs| && x < |s'.tcbs| ==> s'.tcbs[x].priority == s.tcbs[x].priority
    case Some(o) =>
      && o < |s.tcbs| == |s'.tcbs| && s'.tcbs[o].priority == p
      && forall x :: 0 <= x < |s.tcbs| && x != o ==> s'.tcbs[x].priority == s.tcbs[x].priority
  }

  /** The run queue `q` when the owner of `h` gets priority `p`: a ready owner whose priority changes is last. */
  function Requeued(s: State, h: nat, p: nat, q: seq<nat>): seq<nat>
    requires h < |s.sems|
  {
    match s.sems[h].owner
    case None => q
    case Some(o) => if p != Prio(s.tcbs, o) && o in q then Remove(q, o) + [o] else q
  }

  /** The owner's priority, or that of the running task or of a waiter when one is more urgent. */
  function Inherited(s: State, h: nat): nat
    requires h < |s.sems|
  {
    if s.sems[h].owner.Some? && Prio(s.tcbs, s.sems[h].owner.value) <= Urgency(s, h)
    then Prio(s.tcbs, s.sems[h].owner.value)
    else Urgency(s, h)
  }

  /** Task `t` is queued in `list'` behind all that are as urgent in priority mode, and at the end in FIFO mode. */
  ghost predicate QueuedIn(s: State, list: seq<nat>, list': seq<nat>, t: nat, mode: SemMode) {
    exists k: nat ::
      && k <= |list| && list' == list[..k] + [t] + list[k..]
      && (mode == Fifo ==> k == |list|)
      && (mode == Prior ==>
            && (forall i :: 0 <= i < k ==> Prio(s.tcbs, list[i]) <= Prio(s.tcbs, t))
            && (k < |list| ==> Prio(s.tcbs, list[k]) > Prio(s.tcbs, t)))
  }

  /** Control blocks are the same but for the mark of who runs and the priority. */
  ghost predicate OthersAlike(s: State, s': State, who: nat) {
    && |s'.tcbs| == |s.tcbs|
    && forall t :: 0 <= t < |s.tcbs| && t != who ==>
         Plain(s'.tcbs[t]) == Plain(s.tcbs[t]).(priority := s'.tcbs[t].priority)
  }

  /** The running task waits for `h`: off the run queue, in its place on the wait list, and the owner inherits. */
  ghost predicate Blocked(s: State, s': State, h: nat)
    requires h < |s.sems|
  {
    var r, m := s.running, s.sems[h];
    && SystemSame(s, s') && OthersAlike(s, s', r) && r < |s.tcbs|
    && s'.tcbs[r].status - {Running} == {InUse, Pending} && s'.tcbs[r].taskSem == Some(h)
    && s'.tcbs[r].originalPriority == s.tcbs[r].originalPriority
    && |s'.sems| == |s.sems| && s'.sems == s.sems[h := m.(list := s'.sems[h].list)]
    && QueuedIn(s, m.list, s'.sems[h].list, r, m.mode)
    && OwnerGets(s, s', h, Inherited(s, h))
    && s'.runQueue == Requeued(s, h, Inherited(s, h), Remove(s.runQueue, r))
  }

  /** The code of a pend, with any timeout. */
  lemma PendCode(s: State, h: nat, timeout: nat)
    requires WF(s)
    ensures s.running < |s.tcbs|
    ensures var ret := Result(s, CPend(h, timeout)).1;
            && (ret == SemInvalid <==> h >= |s.sems| || !s.sems[h].used)
            && (ret != SemInvalid ==>
                  && (ret == SemUnavailable <==> s.sems[h].count == 0 && timeout == 0)
                  && (ret == SemFuncNotSupport <==>
                        s.sems[h].count == 0 && timeout != 0 && timeout != 0xFFFF_FFFF)
                  && (ret == Ok <==> s.sems[h].count > 0 || timeout == 0xFFFF_FFFF))
  {
    RunningExists(s);
    hide WF, PendListPut, Schedule;
  }

  /** What a pend does: nothing when it is refused at once, a token taken when there is one, and otherwise a wait.
      A wait without end passes the processor on, one with a timeout does not. */
  lemma PendIs(s: State, h: nat, timeout: nat)
    requires WF(s) && s.active && s.running != s.idle
    ensures s.running < |s.tcbs|
    ensures var s' := Next(s, CPend(h, timeout));
            if h >= |s.sems| || !s.sems[h].used then s' == s
            else if s.sems[h].count > 0 then
              s' == s.(sems := s.sems[h := s.sems[h].(count := s.sems[h].count - 1, owner := Some(s.running))])
            else if timeout == 0 then s' == s
            else Blocked(s, s', h) && if timeout == 0xFFFF_FFFF then FirstRuns(s') else s'.running == s.running
  {
    PendCases(s, h, timeout);
    hide WF, Blocked, FirstRuns, PendListPut, Schedule, Next;
    if h < |s.sems| && s.sems[h].used && s.sems[h].count == 0 && timeout != 0 { WaitIsBlocked(s, h); }
  }

  lemma PendCases(s: State, h: nat, timeout: nat)
    requires WF(s)
    ensures s.running < |s.tcbs|
    ensures Next(s, CPend(h, timeout)) ==
            if h >= |s.sems| || !s.sems[h].used then s
            else if s.sems[h].count > 0 then
              s.(sems := s.sems[h := s.sems[h].(count := s.sems[h].count - 1, owner := Some(s.running))])
            else if timeout == 0 then s
            else if timeout == 0xFFFF_FFFF then Schedule(PendListPut(s, h)) else PendListPut(s, h)
  {
    RunningExists(s);
    hide WF, PendListPut, Schedule;
  }

  lemma WaitIsBlocked(s: State, h: nat)
    requires WF(s) && s.active && s.running != s.idle && h < |s.sems| && s.sems[h].used && s.sems[h].count == 0
    ensures s.running < |s.tcbs|
    ensures Blocked(s, PendListPut(s, h), h) && PendListPut(s, h).running == s.running
    ensures Blocked(s, Schedule(PendListPut(s, h)), h) && FirstRuns(Schedule(PendListPut(s, h)))
  {
    RunningExists(s);
    PutIsBlocked(s, h);
    PendListPutSwitchable(s, h);
    hide PendListPut, WF, Blocked, FirstRuns, Switchable, Schedule;
    Switched(PendListPut(s, h));
    BlockedThrough(s, PendListPut(s, h), Schedule(PendListPut(s, h)), h);
  }

  lemma BlockedThrough(s: State, s1: State, s': State, h: nat)
    requires h < |s.sems| && Blocked(s, s1, h)
    requires OthersSame(s1, s', {}) && SystemSame(s1, s') && s'.runQueue == s1.runQueue && s'.sems == s1.sems
    requires forall t :: 0 <= t < |s1.tcbs| ==> s'.tcbs[t].priority == s1.tcbs[t].priority
    ensures Blocked(s, s', h)
  {
    assert Plain(s'.tcbs[s.running]) == Plain(s1.tcbs[s.running]);
  }

  /** The running task is queued, and nobody has inherited yet. */
  ghost predicate Waits(s: State, s2: State, h: nat)
    requires h < |s.sems|
  {
    var r, m := s.running, s.sems[h];
    && SystemSame(s, s2) && s2.running == r < |s.tcbs| && |s2.tcbs| == |s.tcbs|
    && s2.runQueue == Remove(s.runQueue, r)
    && (forall t :: 0 <= t < |s.tcbs| && t != r ==> Plain(s2.tcbs[t]) == Plain(s.tcbs[t]))
    && (forall t :: 0 <= t < |s.tcbs| ==> s2.tcbs[t].priority == s.tcbs[t].priority)
    && s2.tcbs[r].status - {Running} == {InUse, Pending} && s2.tcbs[r].taskSem == Some(h)
    && s2.tcbs[r].originalPriority == s.tcbs[r].originalPriority
    && |s2.sems| == |s.sems| && s2.sems == s.sems[h := m.(list := s2.sems[h].list)]
    && QueuedIn(s, m.list, s2.sems[h].list, r, m.mode)
    && Urgency(s2, h) == Urgency(s, h)
  }

  lemma PutIsBlocked(s: State, h: nat)
    requires WF(s) && s.active && s.running != s.idle && h < |s.sems| && s.sems[h].used && s.sems[h].count == 0
    ensures Blocked(s, PendListPut(s, h), h) && PendListPut(s, h).running == s.running
  {
    var r := s.running;
    RunningExists(s);
    var s2 := Enlist(ReadyDel(s, r), h);
    PutWaits(s, h);
    if s2.sems[h].owner.Some? { OwnerWaits(s, s2, h); }
    hide ReadyDel, WF, Enlist, MinPrio, Remove, QueuedIn, Inherit, Urgency;
    InheritIs(s2, h, r);
    InheritFrame(s2, h, r);
    WaitsBlocked(s, s2, Inherit(s2, h, r), h);
  }

  lemma WaitsBlocked(s: State, s2: State, s': State, h: nat)
    requires h < |s.sems| && Waits(s, s2, h) && SameButPriority(s2, s')
    requires OwnerGets(s2, s', h, Inherited(s2, h)) && s'.runQueue == Requeued(s2, h, Inherited(s2, h), s2.runQueue)
    ensures Blocked(s, s', h) && s'.running == s.running
  {
    hide MinPrio, Remove, QueuedIn, Urgency;
  }

  lemma PutWaits(s: State, h: nat)
    requires WF(s) && s.active && s.running != s.idle && h < |s.sems| && s.sems[h].used && s.sems[h].count == 0
    ensures s.running < |s.tcbs| && Waits(s, Enlist(ReadyDel(s, s.running), h), h)
  {
    var r := s.running;
    RunnerStatus(s);
    Unreadied(s);
    SamePriorities(s);
    EnlistIs(ReadyDel(s, r), h);
    hide ReadyDel, WF, Switchable, Enlist, MinPrio, Remove, QueuedIn, Prio;
    EnlistedWaits(s, ReadyDel(s, r), Enlist(ReadyDel(s, r), h), h);
  }

  lemma EnlistedWaits(s: State, s1: State, s2: State, h: nat)
    requires h < |s.sems| && s.running < Tasks(s)
    requires OthersSame(s, s1, {s.running}) && SystemSame(s, s1) && s1.sems == s.sems && s1.running == s.running
    requires s1.runQueue == Remove(s.runQueue, s.running)
    requires Plain(s1.tcbs[s.running]) == s.tcbs[s.running].(status := {InUse})
    requires forall x :: 0 <= x < |s.tcbs| ==> s1.tcbs[x].priority == s.tcbs[x].priority
    requires |s2.tcbs| == |s1.tcbs| && |s2.sems| == |s1.sems|
    requires s2.tcbs == s1.tcbs[s.running :=
               s1.tcbs[s.running].(status := s1.tcbs[s.running].status + {Pending}, taskSem := Some(h))]
    requires s2.sems == s1.sems[h := s1.sems[h].(list := s2.sems[h].list)]
    requires s2 == s1.(tcbs := s2.tcbs, sems := s2.sems)
    requires QueuedIn(s1, s1.sems[h].list, s2.sems[h].list, s.running, s1.sems[h].mode)
    requires MinPrio(s2.tcbs, s2.sems[h].list) ==
             if Prio(s1.tcbs, s.running) < MinPrio(s1.tcbs, s.sems[h].list) then Prio(s1.tcbs, s.running)
             else MinPrio(s1.tcbs, s.sems[h].list)
    ensures Waits(s, s2, h)
  {
    var r := s.running;
    QueuedThrough(s, s1, s.sems[h].list, s2.sems[h].list, r, s.sems[h].mode);
    SameUrgency(s, s1, s2, h);
    hide MinPrio, Remove, QueuedIn, Urgency;
    assert s1.tcbs[r].status + {Pending} - {Running} == (s1.tcbs[r].status - {Running}) + {Pending} == {InUse, Pending};
  }

  lemma SamePriorities(s: State)
    requires s.running < |s.tcbs|
    ensures forall x :: 0 <= x < |s.tcbs| ==> ReadyDel(s, s.running).tcbs[x].priority == s.tcbs[x].priority
  {}

  lemma OwnerWaits(s: State, s2: State, h: nat)
    requires WF(s) && h < |s.sems| && s.sems[h].used && Waits(s, s2, h) && s2.sems[h].owner.Some?
    ensures var o := s2.sems[h].owner.value;
            o < |s2.tcbs| && s2.tcbs[o].status != {} && (Ready in s2.tcbs[o].status <==> o in s2.runQueue)
  {
    OwnerIsTask(s, h);
    RemoveOnly(s, s.running);
    var o := s2.sems[h].owner.value;
    hide WF, Remove, QueuedIn, Urgency;
    if o == s.running {
      assert Pending in s2.tcbs[o].status - {Running} && Ready !in s2.tcbs[o].status - {Running};
    } else {
      assert Ready in s2.tcbs[o].status <==> Ready in s2.tcbs[o].status - {Running};
      assert Ready in s.tcbs[o].status <==> Ready in s.tcbs[o].status - {Running};
      assert InUse in s.tcbs[o].status - {Running} && InUse in s2.tcbs[o].status - {Running};
    }
  }

  lemma OwnerIsTask(s: State, h: nat)
    requires WF(s) && h < |s.sems| && s.sems[h].used && s.sems[h].owner.Some?
    ensures var o := s.sems[h].owner.value;
            o < Tasks(s) && InUse in s.tcbs[o].status && (Ready in s.tcbs[o].status <==> o in s.runQueue)
  {
    GetSem(s, h);
    GetTask(s, s.sems[h].owner.value);
  }

  lemma RemoveOnly(s: State, r: nat)
    requires WF(s)
    ensures forall x :: x in Remove(s.runQueue, r) <==> x in s.runQueue && x != r
  {
    RemoveKeeps(s.runQueue, r);
  }

  /** Queueing the running task, which is not ready any more. */
  lemma EnlistIs(s: State, h: nat)
    requires h < |s.sems| && s.running < |s.tcbs|
    ensures var r, s2 := s.running, Enlist(s, h);
            && |s2.tcbs| == |s.tcbs| && |s2.sems| == |s.sems|
            && s2.tcbs == s.tcbs[r := s.tcbs[r].(status := s.tcbs[r].status + {Pending}, taskSem := Some(h))]
            && s2.sems == s.sems[h := s.sems[h].(list := s2.sems[h].list)]
            && s2 == s.(tcbs := s2.tcbs, sems := s2.sems)
            && QueuedIn(s, s.sems[h].list, s2.sems[h].list, r, s.sems[h].mode)
            && MinPrio(s2.tcbs, s2.sems[h].list) ==
               if Prio(s.tcbs, r) < MinPrio(s.tcbs, s.sems[h].list) then Prio(s.tcbs, r)
               else MinPrio(s.tcbs, s.sems[h].list)
  {
    hide MinPrio, InsertAt;
    var r, list := s.running, s.sems[h].list;
    var s1 := SetTcb(s, r, s.tcbs[r].(status := s.tcbs[r].status + {Pending}, taskSem := Some(h)));
    var k := PendPosition(s1, h);
    assert Enlist(s, h).sems[h].list == list[..k] + [r] + list[k..];
    MinPrioInsert(s1.tcbs, list, k, r);
    MinPrioFrame(s.tcbs, s1.tcbs, list);
  }

  lemma QueuedThrough(s: State, s': State, list: seq<nat>, list': seq<nat>, t: nat, mode: SemMode)
    requires QueuedIn(s', list, list', t, mode) && |s'.tcbs| == |s.tcbs|
    requires forall x :: 0 <= x < |s.tcbs| ==> s'.tcbs[x].priority == s.tcbs[x].priority
    ensures QueuedIn(s, list, list', t, mode)
  {}

  lemma SameUrgency(s: State, s1: State, s2: State, h: nat)
    requires h < |s.sems| && h < |s2.sems| && |s2.tcbs| == |s1.tcbs| == |s.tcbs| && s2.running == s.running
    requires forall x :: 0 <= x < |s.tcbs| ==> s2.tcbs[x].priority == s1.tcbs[x].priority == s.tcbs[x].priority
    requires MinPrio(s2.tcbs, s2.sems[h].list) ==
             if Prio(s1.tcbs, s.running) < MinPrio(s1.tcbs, s.sems[h].list) then Prio(s1.tcbs, s.running)
             else MinPrio(s1.tcbs, s.sems[h].list)
    ensures Urgency(s2, h) == Urgency(s, h)
  {
    hide MinPrio;
    MinPrioFrame(s.tcbs, s1.tcbs, s.sems[h].list);
  }

  lemma InheritIs(s: State, h: nat, w: nat)
    requires h < |s.sems| && w == s.running < |s.tcbs|
    requires s.sems[h].owner.Some? ==>
               var o := s.sems[h].owner.value;
               o < |s.tcbs| && s.tcbs[o].status != {} && (Ready in s.tcbs[o].status <==> o in s.runQueue)
    ensures OwnerGets(s, Inherit(s, h, w), h, Inherited(s, h))
    ensures Inherit(s, h, w).runQueue == Requeued(s, h, Inherited(s, h), s.runQueue)
  {
    hide MinPrio, FirstMin, Remove;
    if s.sems[h].owner.Some? { SetPriorityFrame(s, s.sems[h].owner.value, Urgency(s, h)); }
  }

  // ----- posting -----

  /** The code of a post. */
  lemma PostCode(s: State, h: nat)
    requires WF(s)
    ensures s.running < |s.tcbs|
    ensures var ret := Result(s, CPost(h)).1;
            && (ret == SemInvalid <==> h >= |s.sems| || !s.sems[h].used)
            && (ret != SemInvalid ==> (ret == SemOverflow <==> s.sems[h].count >= 0xFFFF_FFFE))
            && (ret in {SemInvalid, SemOverflow, Ok})
  {
    RunningExists(s);
    hide WF, HandOff, Restore, Schedule;
  }

  /** What a post leaves the owner of `h`: its own priority, or that of the most urgent waiter when the owner was
      raised and a waiter is more urgent than it is. */
  function Restored(s: State, h: nat): nat
    requires h < |s.sems|
  {
    var m := MinPrio(s.tcbs, s.sems[h].list);
    if s.sems[h].owner.Some? && s.sems[h].owner.value < |s.tcbs|
       && (s.tcbs[s.sems[h].owner.value].priority == s.tcbs[s.sems[h].owner.value].originalPriority
           || s.tcbs[s.sems[h].owner.value].priority <= m)
    then s.tcbs[s.sems[h].owner.value].originalPriority
    else m
  }

  /** The semaphore is free: one more token, and no owner. */
  ghost predicate Freed(s: State, s': State, h: nat)
    requires h < |s.sems|
  {
    && SystemSame(s, s') && s'.running == s.running && |s'.tcbs| == |s.tcbs|
    && (forall t :: 0 <= t < |s.tcbs| ==> s'.tcbs[t] == s.tcbs[t].(priority := s'.tcbs[t].priority))
    && s'.sems == s.sems[h := s.sems[h].(count := s.sems[h].count + 1, owner := None)]
    && OwnerGets(s, s', h, Restored(s, h))
    && s'.runQueue == Requeued(s, h, Restored(s, h), s.runQueue)
  }

  /** The first waiter owns the semaphore and is ready, behind all that are. */
  ghost predicate Served(s: State, s': State, h: nat)
    requires h < |s.sems| && s.sems[h].list != []
  {
    var t, m := s.sems[h].list[0], s.sems[h];
    && SystemSame(s, s') && OthersAlike(s, s', t) && t < |s.tcbs|
    && s'.tcbs[t].status - {Running} == {InUse, Ready} && s'.tcbs[t].taskSem == None
    && s'.tcbs[t].originalPriority == s.tcbs[t].originalPriority
    && s'.sems == s.sems[h := m.(list := m.list[1..], owner := Some(t))]
    && OwnerGets(s, s', h, Restored(s, h))
    && s'.runQueue == Requeued(s, h, Restored(s, h), s.runQueue) + [t]
  }

  /** What a post does: nothing when it is refused, or when a binary semaphore is free; a token kept when nobody waits;
      and otherwise the semaphore handed to the first waiter. */
  lemma PostIs(s: State, h: nat)
    requires WF(s)
    ensures var s' := Next(s, CPost(h));
            if h >= |s.sems| || !s.sems[h].used || s.sems[h].count >= 0xFFFF_FFFE
               || (s.sems[h].typ == Binary && s.sems[h].count == 1)
            then s' == s
            else if s.sems[h].list == [] then Freed(s, s', h)
            else Served(s, s', h) && FirstRuns(s')
  {
    PostCases(s, h);
    hide WF, Freed, Served, FirstRuns, HandOff, Restore, Schedule, Next;
    if h < |s.sems| && s.sems[h].used {
      if s.sems[h].list == [] { FreeIs(s, h); } else { HandOffIs(s, h); }
    }
  }

  lemma PostCases(s: State, h: nat)
    requires WF(s)
    ensures Next(s, CPost(h)) ==
            if h >= |s.sems| || !s.sems[h].used || s.sems[h].count >= 0xFFFF_FFFE
               || (s.sems[h].typ == Binary && s.sems[h].count == 1)
            then s
            else if s.sems[h].list == [] then Release(s, h)
            else Schedule(HandOff(s, h))
  {
    RunningExists(s);
    if h < |s.sems| { RestoreFrame(s, h); }
    hide WF, HandOff, Restore, Schedule;
  }

  /** The state after a post that nobody waits for. */
  function Release(s: State, h: nat): State
    requires h < |s.sems|
  {
    Restore(s, h).(sems := s.sems[h := s.sems[h].(count := s.sems[h].count + 1, owner := None)])
  }

  lemma FreeIs(s: State, h: nat)
    requires WF(s) && h < |s.sems| && s.sems[h].used
    ensures Freed(s, Release(s, h), h)
  {
    RestoreFrame(s, h);
    if s.sems[h].owner.Some? { OwnerIsTask(s, h); }
    RestoreIs(s, h);
    hide WF, Restore, MinPrio, Remove, Restored;
  }

  lemma RestoreIs(s: State, h: nat)
    requires h < |s.sems|
    requires s.sems[h].owner.Some? ==>
               var o := s.sems[h].owner.value;
               o < |s.tcbs| && s.tcbs[o].status != {} && (Ready in s.tcbs[o].status <==> o in s.runQueue)
    ensures OwnerGets(s, Restore(s, h), h, Restored(s, h))
    ensures Restore(s, h).runQueue == Requeued(s, h, Restored(s, h), s.runQueue)
  {
    hide MinPrio, FirstMin, Remove;
  }

  lemma HandOffIs(s: State, h: nat)
    requires WF(s) && h < |s.sems| && s.sems[h].used && s.sems[h].list != []
    ensures Served(s, Schedule(HandOff(s, h)), h) && FirstRuns(Schedule(HandOff(s, h)))
  {
    HandOffServes(s, h);
    WaitersNeedScheduler(s, h);
    HandOffSwitchable(s, h);
    hide HandOff, WF, Served, FirstRuns, Switchable, Schedule;
    Switched(HandOff(s, h));
    ServedThrough(s, HandOff(s, h), Schedule(HandOff(s, h)), h);
  }

  lemma ServedThrough(s: State, s1: State, s': State, h: nat)
    requires h < |s.sems| && s.sems[h].list != [] && Served(s, s1, h)
    requires OthersSame(s1, s', {}) && SystemSame(s1, s') && s'.runQueue == s1.runQueue && s'.sems == s1.sems
    requires forall t :: 0 <= t < |s1.tcbs| ==> s'.tcbs[t].priority == s1.tcbs[t].priority
    ensures Served(s, s', h)
  {
    assert Plain(s'.tcbs[s.sems[h].list[0]]) == Plain(s1.tcbs[s.sems[h].list[0]]);
  }

  lemma HandOffServes(s: State, h: nat)
    requires WF(s) && h < |s.sems| && s.sems[h].used && s.sems[h].list != []
    ensures Served(s, HandOff(s, h), h)
  {
    RestoreFrame(s, h);
    if s.sems[h].owner.Some? { OwnerIsTask(s, h); }
    RestoreIs(s, h);
    WaiterStatus(s, h);
    hide WF, Restore, Remove, Restored, FirstMin, PendListGet, MinPrio;
    GetServes(s, Restore(s, h), h);
  }

  lemma GetServes(s: State, s1: State, h: nat)
    requires h < |s.sems| && s.sems[h].list != [] && SameButPriority(s, s1)
    requires OwnerGets(s, s1, h, Restored(s, h)) && s1.runQueue == Requeued(s, h, Restored(s, h), s.runQueue)
    requires var t := s.sems[h].list[0];
             && t < Tasks(s) && Suspend !in s.tcbs[t].status
             && s.tcbs[t].status - {Pending} + {Ready} - {Running} == {InUse, Ready}
    ensures var s2 := PendListGet(s1, h);
            && |s2.sems| == |s.sems|
            && Served(s, SetSem(s2, h, s2.sems[h].(owner := Some(s.sems[h].list[0]))), h)
  {
    FirstOut(s, h);
    hide Remove, Restored, FirstMin, MinPrio, Requeued;
  }

  lemma FirstOut(s: State, h: nat)
    requires h < |s.sems| && s.sems[h].list != []
    ensures Remove(s.sems[h].list, s.sems[h].list[0]) == s.sems[h].list[1..]
  {
  }

  lemma WaiterStatus(s: State, h: nat)
    requires WF(s) && h < |s.sems| && s.sems[h].list != []
    ensures var t := s.sems[h].list[0];
            && t < Tasks(s) && s.tcbs[t].status - {Running} == {InUse, Pending} && Suspend !in s.tcbs[t].status
            && s.tcbs[t].status - {Pending} + {Ready} - {Running} == {InUse, Ready}
  {
    var t := s.sems[h].list[0];
    assert t in s.sems[h].list;
    GetSem(s, h);
    GetTask(s, t);
    var c := s.tcbs[t].status;
    forall x ensures x in c - {Running} <==> x in {InUse, Pending} {
      match x { case InUse => case Suspend => case Pending => case Ready => case Running => }
    }
    assert c - {Running} == {InUse, Pending};
    assert c - {Pending} + {Ready} - {Running} == (c - {Running}) - {Pending} + {Ready};
  }
}
