/**
  Runs of the kernel, from power-on, in which properties one might expect of it fail. They show that
  the conditions of the theorems are needed.
  */
module Witnesses {
  import opened Options
  import opened Queues
  import opened KernelSpec
  import opened KernelInv
  import opened MutexUse

  // ----- small queues -----

  lemma FirstOfTwo(c: seq<Tcb>, a: nat, b: nat)
    ensures FirstMin(c, [a]) == Some(a)
    ensures FirstMin(c, [a, b]) == Some(if Prio(c, b) < Prio(c, a) then b else a)
  {
    assert [a][..0] == [];
    assert [a, b][..1] == [a];
  }

  lemma FirstOfThree(c: seq<Tcb>, a: nat, b: nat, d: nat)
    ensures FirstMin(c, [a, b, d]) ==
            var m := if Prio(c, b) < Prio(c, a) then b else a;
            Some(if Prio(c, d) < Prio(c, m) then d else m)
  {
    FirstOfTwo(c, a, b);
    assert [a, b, d][..2] == [a, b];
  }

  lemma LeastOfTwo(c: seq<Tcb>, a: nat, b: nat)
    requires Prio(c, a) < 255 && Prio(c, b) < 255
    ensures MinPrio(c, []) == 255 && MinPrio(c, [a]) == Prio(c, a)
    ensures MinPrio(c, [a, b]) == if Prio(c, b) < Prio(c, a) then Prio(c, b) else Prio(c, a)
  {
    assert [a][..0] == [];
    assert [a, b][..1] == [a];
  }

  lemma RemoveFromThree(a: nat, b: nat, d: nat)
    requires a != b && a != d && b != d
    ensures Remove([a, b, d], a) == [b, d] && Remove([a, b, d], b) == [a, d] && Remove([a, b, d], d) == [a, b]
    ensures Remove([a, b], a) == [b] && Remove([a, b], b) == [a]
  {
    assert [a, b, d][1..] == [b, d] && [b, d][1..] == [d] && [d][1..] == [] && [a, b][1..] == [b] && [b][1..] == [];
    assert Remove([d], d) == [] && Remove([b, d], d) == [b] && Remove([b, d], b) == [d] && Remove([b], b) == [];
  }

  // ----- runs -----

  /** The calls are allowed and lead from `s` to `s'`. */
  ghost predicate Leads(s: State, calls: seq<Call>, s': State) {
    AllAllowed(s, calls) && After(s, calls) == s'
  }

  lemma Extend(s: State, calls: seq<Call>, s1: State, all: seq<Call>, s2: State)
    requires all != [] && all[..|all| - 1] == calls && Leads(s, calls, s1)
    requires Allowed(s1, all[|calls|]) && Next(s1, all[|calls|]) == s2
    ensures Leads(s, all, s2)
  {
  }

  /** The same for non-nested mutex use. */
  ghost predicate LeadsMutex(s: State, calls: seq<Call>, s': State) {
    AllMutex(s, calls) && Leads(s, calls, s')
  }

  lemma ExtendMutex(s: State, calls: seq<Call>, s1: State, all: seq<Call>, s2: State)
    requires all != [] && all[..|all| - 1] == calls && LeadsMutex(s, calls, s1)
    requires MutexCall(s1, all[|calls|]) && Next(s1, all[|calls|]) == s2
    ensures LeadsMutex(s, all, s2)
  {
    Extend(s, calls, s1, all, s2);
  }

  // ----- status bits -----

  lemma StatusSets()
    ensures {Suspend, InUse} - {Suspend} + {Ready} == {InUse, Ready}
    ensures {InUse, Ready} + {Running} == {InUse, Ready, Running}
    ensures {InUse, Ready, Running} - {Running} == {InUse, Ready} == {InUse, Ready, Running} + {Ready} - {Running}
    ensures {InUse, Ready, Running} - {Ready} + {Pending} - {Running} == {InUse, Pending}
    ensures {InUse, Ready, Running} - {Ready} + {Ready} == {InUse, Ready, Running}
    ensures {InUse, Ready} - {Ready} + {Ready} == {InUse, Ready}
    ensures {InUse, Ready, Running} - {Ready} + {Pending} == {InUse, Pending, Running}
    ensures {InUse, Pending, Running} - {Running} == {InUse, Pending}
    ensures {InUse, Pending} - {Pending} + {Ready} == {InUse, Ready}
  {
  }

  /** Four tasks and two semaphores. */
  const BOOT: State := Boot(4, 2, BootStacks())

  const LOCK: Sem := Sem(true, 1, [], None, Fifo, Counting)

  function Locked(owner: nat, list: seq<nat>): Sem {
    Sem(true, 0, list, Some(owner), Fifo, Counting)
  }

  function Waits(p: nat, own: nat, h: nat): Tcb {
    Tcb({InUse, Pending}, p, own, Some(h))
  }

  /** A task that waits and still has the processor. */
  function Leaves(p: nat, own: nat, h: nat): Tcb {
    Tcb({InUse, Pending, Running}, p, own, Some(h))
  }

  function ReadyTask(p: nat, own: nat, running: bool): Tcb {
    Tcb(if running then {InUse, Ready, Running} else {InUse, Ready}, p, own, None)
  }

  const UNUSED: Tcb := Tcb({}, 0, 0, None)

  /** Task 1 is the idle task, and the first three blocks of the pool are in use. */
  function Mk(t0: Tcb, t2: Tcb, t3: Tcb, m0: Sem, m1: Sem, free: seq<nat>, q: seq<nat>, r: nat): State {
    State([t0, ReadyTask(63, 63, false), t2, t3, Tcb({InUse, Running}, 64, 0, None)], [m0, m1],
          free, [], q, r, Some(r), true, 1, BootStacks()[2 := true])
  }

  const C_LOCK: Call := CSemCreate(1, Counting, Fifo)

  const START: seq<Call> := [C_LOCK, C_LOCK, CTaskCreate(30, Given), CTaskResume(0), CActivate]

  /** Task 0, of priority 30, runs, and nothing else is ready but the idle task. */
  const STARTED: State := Mk(ReadyTask(30, 30, true), UNUSED, UNUSED, LOCK, LOCK, [2, 3], [0, 1], 0)

  /** The first `k` calls of the start. */
  function Start(k: nat): seq<Call> {
    if k <= |START| then START[..k] else START
  }

  /** Two locks created, task 0 created, and task 0 resumed. */
  const LOCKED: State := BOOT.(sems := [LOCK, LOCK], freeSems := [])
  const CREATED: State := LOCKED.(tcbs := BOOT.tcbs[0 := NewTask(30)], freeTcbs := [1, 2, 3])
  const RESUMED: State :=
    CREATED.(tcbs := BOOT.tcbs[0 := ReadyTask(30, 30, false)], runQueue := [0], highest := Some(0))

  lemma ReachStarted()
    ensures LeadsMutex(BOOT, START, STARTED)
  {
    hide LeadsMutex, MutexCall, Next;
    hide STARTED, RESUMED, CREATED;
    ReachLocked();
    TaskCreated();
    TaskResumed();
    Activated();
    ExtendMutex(BOOT, Start(2), LOCKED, Start(3), CREATED);
    ExtendMutex(BOOT, Start(3), CREATED, Start(4), RESUMED);
    ExtendMutex(BOOT, Start(4), RESUMED, START, STARTED);
  }

  lemma ReachLocked()
    ensures LeadsMutex(BOOT, Start(2), LOCKED)
  {
    assert LeadsMutex(BOOT, Start(0), BOOT);
    var s1 := BOOT.(sems := BOOT.sems[0 := LOCK], freeSems := [1]);
    assert BOOT.freeSems == [0, 1] && [0, 1][1..] == [1];
    ExtendMutex(BOOT, Start(0), BOOT, Start(1), s1);
    assert [1][1..] == [] && s1.sems[1 := LOCK] == LOCKED.sems;
    ExtendMutex(BOOT, Start(1), s1, Start(2), LOCKED);
  }

  lemma TaskCreated()
    ensures MutexCall(LOCKED, CTaskCreate(30, Given)) && Next(LOCKED, CTaskCreate(30, Given)) == CREATED
  {
    assert LOCKED.freeTcbs == [0, 1, 2, 3] && [0, 1, 2, 3][1..] == [1, 2, 3];
  }

  lemma TaskResumed()
    ensures MutexCall(CREATED, CTaskResume(0)) && Next(CREATED, CTaskResume(0)) == RESUMED
  {
    hide FirstMin, TaskResume, Schedule;
    assert |BOOT.tcbs| == 5 && BOOT.runQueue == [] && !BOOT.active && BOOT.highest == None;
    hide BOOT;
    FirstOfTwo(RESUMED.tcbs, 0, 0);
    Resumed(CREATED, 0, 30);
    assert [] + [0] == [0];
    assert BOOT.tcbs[0 := NewTask(30)][0 := ReadyTask(30, 30, false)] == BOOT.tcbs[0 := ReadyTask(30, 30, false)];
  }

  /** What resuming a new task does before the scheduler looks at it. */
  lemma Resumed(s: State, t: nat, p: nat)
    requires t < |s.tcbs| && s.tcbs[t] == NewTask(p)
    ensures var s2 := HighestSet(s.(tcbs := s.tcbs[t := ReadyTask(p, p, false)], runQueue := s.runQueue + [t]));
            TaskResume(s, t) == (if s.active then Schedule(s2) else s2, Ok)
  {
    StatusSets();
    hide FirstMin, Schedule;
    var s1 := SetTcb(s, t, s.tcbs[t].(status := s.tcbs[t].status - {Suspend}));
    assert ReadyAdd(s1, t).tcbs == s.tcbs[t := ReadyTask(p, p, false)];
  }

  function NewTask(p: nat): Tcb {
    Tcb({Suspend, InUse}, p, p, None)
  }

  lemma ThirdBlock()
    ensures FirstFree(BootStacks()) == Some(2)
  {
    var p := BootStacks();
    assert p[1..][1..] == p[2..] && !p[2..][0];
    assert FirstFree(p[2..]) == Some(0) && FirstFree(p[1..]) == Some(1);
  }

  lemma Activated()
    ensures MutexCall(RESUMED, CActivate) && Next(RESUMED, CActivate) == STARTED
  {
    var s := RESUMED;
    ThirdBlock();
    StatusSets();
    var s1 := s.(tcbs := s.tcbs[1 := NewTask(63)], freeTcbs := [2, 3], stackMemUsed := BootStacks()[2 := true]);
    assert [1, 2, 3][1..] == [2, 3];
    assert TaskCreate(s, OS_TSK_PRIORITY_LOWEST, Sized(STACK_SIZE)) == (s1, Ok);
    var s2 := s1.(tcbs := s1.tcbs[1 := ReadyTask(63, 63, false)], runQueue := [0, 1]);
    FirstOfTwo(s2.tcbs, 0, 1);
    Resumed(s1, 1, 63);
    assert [0] + [1] == [0, 1];
    assert TaskResume(s1, 1) == (s2, Ok);
    var s3 := FirstTimeSwitch(s2.(idle := 1, active := true));
    assert s3.tcbs == STARTED.tcbs;
  }

  // ----- what a call does, spelled out -----

  function Switched(s: State, t: nat): State
    requires t < |s.tcbs| && s.running < |s.tcbs|
  {
    var c := s.tcbs[s.running];
    var tcbs := s.tcbs[s.running := c.(status := c.status - {Running})];
    s.(tcbs := tcbs[t := tcbs[t].(status := tcbs[t].status + {Running})], running := t, highest := Some(t))
  }

  lemma Switches(s: State, t: nat)
    requires FirstMin(s.tcbs, s.runQueue) == Some(t) && t < |s.tcbs| && s.running < |s.tcbs| && t != s.running
    ensures Schedule(s) == Switched(s, t)
  {
  }

  /** The state in which the running task `r` has joined the wait list of `h` and its owner `o` inherits `p`. */
  function Queued(s: State, h: nat, o: nat, p: nat): State
    requires h < |s.sems| && s.running < |s.tcbs| && o < |s.tcbs|
  {
    var r, q := s.running, Remove(s.runQueue, s.running);
    var tcbs := s.tcbs[r := Tcb({InUse, Pending, Running}, s.tcbs[r].priority, s.tcbs[r].originalPriority, Some(h))];
    s.(tcbs := tcbs[o := tcbs[o].(priority := p)],
       sems := s.sems[h := s.sems[h].(list := s.sems[h].list + [r])],
       runQueue := if Ready in s.tcbs[o].status then Remove(q, o) + [o] else q)
  }

  lemma Blocks(s: State, h: nat, o: nat, p: nat)
    requires s.running < |s.tcbs| && h < |s.sems| && o < |s.tcbs| && o != s.running && s.tcbs[o].status != {}
    requires s.sems[h] == Locked(o, s.sems[h].list)
    requires s.tcbs[s.running].status == {InUse, Ready, Running}
    requires MinPrio(s.tcbs, s.sems[h].list + [s.running]) == p < Prio(s.tcbs, o) && p <= Prio(s.tcbs, s.running)
    ensures HighestSet(PendListPut(s, h)) == HighestSet(Queued(s, h, o, p))
    ensures Ready in s.tcbs[o].status ==> PendListPut(s, h) == HighestSet(Queued(s, h, o, p))
  {
    StatusSets();
    hide FirstMin, Remove, MinPrio;
    var r, list := s.running, s.sems[h].list;
    var s1 := Enlist(ReadyDel(s, r), h);
    assert Insert(list, |list|, r) == list + [r];
    MinPrioFrame(s.tcbs, s1.tcbs, list + [r]);
    var s2 := SetPriority(s1, o, p);
    if Ready in s.tcbs[o].status {
      assert s.tcbs[o].status - {Ready} + {Ready} == s.tcbs[o].status;
    }
    assert Inherit(s1, h, r) == s2;
    assert s2.tcbs == Queued(s, h, o, p).tcbs;
  }

  /** Blocking for good hands the processor to `t`. */
  lemma BlocksAndSwitches(s: State, h: nat, o: nat, p: nat, t: nat)
    requires s.running < |s.tcbs| && h < |s.sems| && o < |s.tcbs| && o != s.running && s.tcbs[o].status != {}
    requires s.sems[h] == Locked(o, s.sems[h].list)
    requires s.tcbs[s.running].status == {InUse, Ready, Running}
    requires MinPrio(s.tcbs, s.sems[h].list + [s.running]) == p < Prio(s.tcbs, o) && p <= Prio(s.tcbs, s.running)
    requires var s1 := Queued(s, h, o, p);
             FirstMin(s1.tcbs, s1.runQueue) == Some(t) && t < |s.tcbs| && t != s.running
    ensures Next(s, CPend(h, OS_WAIT_FOREVER)) == Switched(Queued(s, h, o, p), t)
  {
    hide FirstMin, Remove, MinPrio, PendListPut;
    Blocks(s, h, o, p);
    SameSchedule(PendListPut(s, h), Queued(s, h, o, p));
    Switches(Queued(s, h, o, p), t);
  }

  lemma SameSchedule(s: State, s': State)
    requires HighestSet(s) == HighestSet(s')
    ensures Schedule(s) == Schedule(s')
  {
    hide FirstMin;
    assert HighestSet(HighestSet(s)) == HighestSet(s) && HighestSet(HighestSet(s')) == HighestSet(s');
  }

  // ----- two tasks and a mutex -----

  const FIRST: seq<Call> := START + [CPend(0, OS_WAIT_FOREVER), CTaskCreate(20, Given), CTaskResume(2)]

  /** Task 0 owns mutex 0; task 2, of priority 20, has been created and runs. */
  function Owned(m1: Sem): State {
    Mk(ReadyTask(30, 30, false), ReadyTask(20, 20, true), UNUSED, Locked(0, []), m1, [3], [0, 1, 2], 2)
  }

  const HELD: State :=
    Mk(ReadyTask(30, 30, true), UNUSED, UNUSED, Locked(0, []), LOCK, [2, 3], [0, 1], 0)

  const JOINED: State :=
    Mk(ReadyTask(30, 30, true), NewTask(20), UNUSED, Locked(0, []), LOCK, [3], [0, 1], 0)

  lemma ReachOwned()
    ensures LeadsMutex(BOOT, FIRST, Owned(LOCK))
  {
    hide LeadsMutex, MutexCall, Next;
    hide BOOT, START, STARTED, HELD, JOINED, Owned, FIRST;
    ReachStarted();
    FirstCalls();
    Holds();
    Joins();
    Preempted();
    ExtendMutex(BOOT, START, STARTED, FIRST[..6], HELD);
    ExtendMutex(BOOT, FIRST[..6], HELD, FIRST[..7], JOINED);
    ExtendMutex(BOOT, FIRST[..7], JOINED, FIRST, Owned(LOCK));
  }

  lemma FirstCalls()
    ensures |START| == 5 && |FIRST| == 8 && FIRST[..6][..5] == START && FIRST[..7][..6] == FIRST[..6]
    ensures FIRST[5] == CPend(0, OS_WAIT_FOREVER) && FIRST[6] == CTaskCreate(20, Given) && FIRST[7] == CTaskResume(2)
  {
  }

  lemma Holds()
    ensures MutexCall(STARTED, CPend(0, OS_WAIT_FOREVER)) && Next(STARTED, CPend(0, OS_WAIT_FOREVER)) == HELD
  {
    assert STARTED.sems[0 := Locked(0, [])] == HELD.sems;
  }

  lemma Joins()
    ensures MutexCall(HELD, CTaskCreate(20, Given)) && Next(HELD, CTaskCreate(20, Given)) == JOINED
  {
    assert [2, 3][1..] == [3] && HELD.tcbs[2 := NewTask(20)] == JOINED.tcbs;
  }

  lemma Preempted()
    ensures MutexCall(JOINED, CTaskResume(2)) && Next(JOINED, CTaskResume(2)) == Owned(LOCK)
  {
    assert Owned(LOCK).tcbs == JOINED.tcbs[2 := ReadyTask(20, 20, true)][0 := ReadyTask(30, 30, false)];
    assert [0, 1] + [2] == [0, 1, 2];
    Preempts(JOINED, 2, 20, Owned(LOCK));
  }

  /** Resuming a task more urgent than the two that are ready. */
  lemma Preempts(s: State, t: nat, p: nat, s': State)
    requires t < |s.tcbs| && s.tcbs[t] == NewTask(p) && s.active && s.running < |s.tcbs| && t != s.running
    requires |s.runQueue| == 2 && t !in s.runQueue
    requires p < Prio(s.tcbs, s.runQueue[0]) && p < Prio(s.tcbs, s.runQueue[1])
    requires s.tcbs[s.running].status == {InUse, Ready, Running}
    requires s' == s.(tcbs := s.tcbs[t := ReadyTask(p, p, true)]
                                    [s.running := s.tcbs[s.running].(status := {InUse, Ready})],
                      runQueue := s.runQueue + [t], running := t, highest := Some(t))
    ensures Next(s, CTaskResume(t)) == s'
  {
    StatusSets();
    Resumed(s, t, p);
    var s1 := s.(tcbs := s.tcbs[t := ReadyTask(p, p, false)], runQueue := s.runQueue + [t]);
    var a, b := s.runQueue[0], s.runQueue[1];
    assert s1.runQueue == [a, b, t];
    FirstOfThree(s1.tcbs, a, b, t);
    SameSchedule(HighestSet(s1), s1);
    Switches(s1, t);
    assert Switched(s1, t).tcbs == s'.tcbs;
  }

  const SECOND: seq<Call> := FIRST + [CPend(0, OS_WAIT_FOREVER)]

  /** Task 2 waits for the mutex, and task 0 runs at its priority. */
  function Boosted(m1: Sem): State {
    Mk(ReadyTask(20, 30, true), Waits(20, 20, 0), UNUSED, Locked(0, [2]), m1, [3], [1, 0], 0)
  }

  lemma ReachBoosted()
    ensures LeadsMutex(BOOT, SECOND, Boosted(LOCK))
  {
    hide LeadsMutex, MutexCall, Next;
    hide BOOT, Owned, Boosted, FIRST;
    ReachOwned();
    Boosts(LOCK);
    assert MutexCall(Owned(LOCK), CPend(0, OS_WAIT_FOREVER)) by { OwnsNone(); }
    assert SECOND[..|SECOND| - 1] == FIRST;
    ExtendMutex(BOOT, FIRST, Owned(LOCK), SECOND, Boosted(LOCK));
  }

  /** Task 2 has joined the wait list and still has the processor. */
  function Joining(m1: Sem): State {
    Mk(ReadyTask(20, 30, false), Leaves(20, 20, 0), UNUSED, Locked(0, [2]), m1, [3], [1, 0], 2)
  }

  lemma Boosts(m1: Sem)
    ensures Allowed(Owned(m1), CPend(0, OS_WAIT_FOREVER)) && Next(Owned(m1), CPend(0, OS_WAIT_FOREVER)) == Boosted(m1)
  {
    hide Switched, Queued, Next, FirstMin, Boosted, Joining;
    LeastOfTwo(Owned(m1).tcbs, 2, 2);
    assert [] + [2] == [2];
    BoostQueued(m1);
    BoostSwitched(m1);
    BlocksAndSwitches(Owned(m1), 0, 0, 20, 0);
  }

  lemma BoostQueued(m1: Sem)
    ensures Queued(Owned(m1), 0, 0, 20) == Joining(m1)
  {
    hide Remove;
    RemoveFromThree(0, 1, 2);
    assert [] + [2] == [2];
    assert Queued(Owned(m1), 0, 0, 20).tcbs == Joining(m1).tcbs;
    assert Owned(m1).sems[0 := Locked(0, [2])] == Joining(m1).sems;
  }

  lemma BoostSwitched(m1: Sem)
    ensures FirstMin(Joining(m1).tcbs, Joining(m1).runQueue) == Some(0) && Switched(Joining(m1), 0) == Boosted(m1)
  {
    StatusSets();
    FirstOfTwo(Joining(m1).tcbs, 1, 0);
    assert Switched(Joining(m1), 0).tcbs == Boosted(m1).tcbs;
  }

  lemma OwnsNone()
    ensures MutexCall(Owned(LOCK), CPend(0, OS_WAIT_FOREVER))
  {
  }

  // ----- a post that does not reschedule -----

  const NESTED: seq<Call> :=
    SECOND + [CTaskCreate(25, Given), CTaskResume(3), CPend(1, OS_WAIT_FOREVER), CPost(1)]

  function Between(t0: Tcb, m1: Sem, q: seq<nat>, highest: nat): State {
    Mk(t0, Waits(20, 20, 0), ReadyTask(25, 25, false), Locked(0, [2]), m1, [], q, 0).(highest := Some(highest))
  }

  const STRANDED: State := Between(ReadyTask(30, 30, true), LOCK, [1, 3, 0], 3)

  /** Locking a second mutex and posting it strands the scheduler: task 0 falls back to priority 30
      while mutex 0 still has a waiter of priority 20, and keeps running although task 3 is more urgent. */
  lemma NestedPostStrands()
    ensures Leads(BOOT, NESTED, STRANDED)
    ensures var s := STRANDED;
            && s.running == 0 && s.highest == Some(3) && Prio(s.tcbs, 0) == 30 && Prio(s.tcbs, 3) == 25
            && s.sems[0].owner == Some(0) && s.sems[0].list == [2] && Prio(s.tcbs, 2) == 20
  {
    NestedLeads();
  }

  lemma NestedLeads()
    ensures Leads(BOOT, NESTED, STRANDED)
  {
    hide Next, Allowed, AllMutex;
    hide BOOT, Boosted, STRANDED, SECOND, Between;
    ReachBoosted();
    NestedCalls();
    NewBelow();
    ResumeBelow();
    NestedLock();
    NestedPost();
    var s1 := Mk(ReadyTask(20, 30, true), Waits(20, 20, 0), NewTask(25), Locked(0, [2]), LOCK, [], [1, 0], 0);
    var s2 := Between(ReadyTask(20, 30, true), LOCK, [1, 0, 3], 0);
    var s3 := Between(ReadyTask(20, 30, true), Locked(0, []), [1, 0, 3], 0);
    Extend(BOOT, SECOND, Boosted(LOCK), NESTED[..10], s1);
    Extend(BOOT, NESTED[..10], s1, NESTED[..11], s2);
    Extend(BOOT, NESTED[..11], s2, NESTED[..12], s3);
    Extend(BOOT, NESTED[..12], s3, NESTED, STRANDED);
  }

  lemma NestedCalls()
    ensures |SECOND| == 9 && |NESTED| == 13 && NESTED[..10][..9] == SECOND
    ensures NESTED[..11][..10] == NESTED[..10] && NESTED[..12][..11] == NESTED[..11]
    ensures NESTED[9] == CTaskCreate(25, Given) && NESTED[10] == CTaskResume(3)
    ensures NESTED[11] == CPend(1, OS_WAIT_FOREVER) && NESTED[12] == CPost(1)
  {
  }

  lemma NewBelow()
    ensures Allowed(Boosted(LOCK), CTaskCreate(25, Given))
    ensures Next(Boosted(LOCK), CTaskCreate(25, Given)) ==
            Mk(ReadyTask(20, 30, true), Waits(20, 20, 0), NewTask(25), Locked(0, [2]), LOCK, [], [1, 0], 0)
  {
    var s' := Mk(ReadyTask(20, 30, true), Waits(20, 20, 0), NewTask(25), Locked(0, [2]), LOCK, [], [1, 0], 0);
    assert [3][1..] == [] && Boosted(LOCK).tcbs[3 := NewTask(25)] == s'.tcbs;
  }

  lemma ResumeBelow()
    ensures var s := Mk(ReadyTask(20, 30, true), Waits(20, 20, 0), NewTask(25), Locked(0, [2]), LOCK, [], [1, 0], 0);
            Allowed(s, CTaskResume(3))
            && Next(s, CTaskResume(3)) == Between(ReadyTask(20, 30, true), LOCK, [1, 0, 3], 0)
  {
    var s := Mk(ReadyTask(20, 30, true), Waits(20, 20, 0), NewTask(25), Locked(0, [2]), LOCK, [], [1, 0], 0);
    var s' := Between(ReadyTask(20, 30, true), LOCK, [1, 0, 3], 0);
    Resumed(s, 3, 25);
    assert [1, 0] + [3] == [1, 0, 3] && s.tcbs[3 := ReadyTask(25, 25, false)] == s'.tcbs;
    FirstOfThree(s'.tcbs, 1, 0, 3);
  }

  lemma NestedLock()
    ensures var s := Between(ReadyTask(20, 30, true), LOCK, [1, 0, 3], 0);
            Allowed(s, CPend(1, OS_WAIT_FOREVER))
            && Next(s, CPend(1, OS_WAIT_FOREVER)) == Between(ReadyTask(20, 30, true), Locked(0, []), [1, 0, 3], 0)
  {
    var s := Between(ReadyTask(20, 30, true), LOCK, [1, 0, 3], 0);
    assert s.sems[1 := Locked(0, [])] == [Locked(0, [2]), Locked(0, [])];
  }

  lemma NestedPost()
    ensures var s := Between(ReadyTask(20, 30, true), Locked(0, []), [1, 0, 3], 0);
            Allowed(s, CPost(1)) && Next(s, CPost(1)) == STRANDED
  {
    hide Restore;
    NestedRestore();
    assert [Locked(0, [2]), Locked(0, [])][1 := LOCK] == [Locked(0, [2]), LOCK];
  }

  lemma NestedRestore()
    ensures Restore(Between(ReadyTask(20, 30, true), Locked(0, []), [1, 0, 3], 0), 1)
            == Between(ReadyTask(30, 30, true), Locked(0, []), [1, 3, 0], 3)
  {
    hide SetPriority, FirstMin, Remove;
    var s := Between(ReadyTask(20, 30, true), Locked(0, []), [1, 0, 3], 0);
    LeastOfTwo(s.tcbs, 0, 0);
    Repriced(s, 0, 30);
    NestedRequeue(s);
  }

  lemma NestedRequeue(s: State)
    requires s == Between(ReadyTask(20, 30, true), Locked(0, []), [1, 0, 3], 0)
    ensures HighestSet(s.(tcbs := s.tcbs[0 := s.tcbs[0].(priority := 30)], runQueue := Remove(s.runQueue, 0) + [0]))
            == Between(ReadyTask(30, 30, true), Locked(0, []), [1, 3, 0], 3)
  {
    hide FirstMin, Remove;
    var s' := Between(ReadyTask(30, 30, true), Locked(0, []), [1, 3, 0], 3);
    RemoveFromThree(1, 0, 3);
    FirstOfThree(s'.tcbs, 1, 3, 0);
    assert [1, 3] + [0] == [1, 3, 0] && s.tcbs[0 := ReadyTask(30, 30, true)] == s'.tcbs;
  }

  /** A new priority for a ready task. */
  lemma Repriced(s: State, t: nat, p: nat)
    requires t < |s.tcbs| && Ready in s.tcbs[t].status
    ensures SetPriority(s, t, p) ==
            HighestSet(s.(tcbs := s.tcbs[t := s.tcbs[t].(priority := p)], runQueue := Remove(s.runQueue, t) + [t]))
  {
    hide FirstMin, Remove;
    assert s.tcbs[t].status - {Ready} + {Ready} == s.tcbs[t].status;
    assert SetPriority(s, t, p).tcbs == s.tcbs[t := s.tcbs[t].(priority := p)];
  }

  // ----- a hand-off in FIFO order -----

  const URGENT: seq<Call> := [CTaskCreate(5, Given), CTaskResume(3)]

  /** Task 3, of priority 5, preempts task 0. */
  function Urgent(m1: Sem): State {
    Mk(ReadyTask(20, 30, false), Waits(20, 20, 0), ReadyTask(5, 5, true), Locked(0, [2]), m1, [], [1, 0, 3], 3)
  }

  function Unborn(m1: Sem): State {
    Mk(ReadyTask(20, 30, true), Waits(20, 20, 0), NewTask(5), Locked(0, [2]), m1, [], [1, 0], 0)
  }

  lemma UrgentCreated(m1: Sem)
    ensures MutexCall(Boosted(m1), CTaskCreate(5, Given)) && Next(Boosted(m1), CTaskCreate(5, Given)) == Unborn(m1)
  {
    assert [3][1..] == [] && Boosted(m1).tcbs[3 := NewTask(5)] == Unborn(m1).tcbs;
  }

  lemma UrgentRuns(m1: Sem)
    ensures MutexCall(Unborn(m1), CTaskResume(3)) && Next(Unborn(m1), CTaskResume(3)) == Urgent(m1)
  {
    assert Urgent(m1).tcbs == Unborn(m1).tcbs[3 := ReadyTask(5, 5, true)][0 := ReadyTask(20, 30, false)];
    assert [1, 0] + [3] == [1, 0, 3];
    Preempts(Unborn(m1), 3, 5, Urgent(m1));
  }

  const FIFO: seq<Call> := SECOND + URGENT + [CPend(0, OS_WAIT_FOREVER)]

  /** Task 0 owns the mutex for which task 2, of priority 20, and then task 3, of priority 5, wait. */
  const QUEUED: State :=
    Mk(ReadyTask(5, 30, true), Waits(20, 20, 0), Waits(5, 5, 0), Locked(0, [2, 3]), LOCK, [], [1, 0], 0)

  lemma ReachQueued()
    ensures LeadsMutex(BOOT, FIFO, QUEUED)
  {
    hide LeadsMutex, MutexCall, Next;
    hide BOOT, Boosted, Urgent, Unborn, QUEUED, SECOND;
    ReachBoosted();
    UrgentCreated(LOCK);
    UrgentRuns(LOCK);
    QueuesThird();
    assert |SECOND| == 9 by { NestedCalls(); }
    assert FIFO[..10][..9] == SECOND && FIFO[..11][..10] == FIFO[..10];
    ExtendMutex(BOOT, SECOND, Boosted(LOCK), FIFO[..10], Unborn(LOCK));
    ExtendMutex(BOOT, FIFO[..10], Unborn(LOCK), FIFO[..11], Urgent(LOCK));
    ExtendMutex(BOOT, FIFO[..11], Urgent(LOCK), FIFO, QUEUED);
  }

  const QUEUING: State :=
    Mk(ReadyTask(5, 30, false), Waits(20, 20, 0), Leaves(5, 5, 0), Locked(0, [2, 3]), LOCK, [], [1, 0], 3)

  lemma QueuesThird()
    ensures MutexCall(Urgent(LOCK), CPend(0, OS_WAIT_FOREVER))
    ensures Next(Urgent(LOCK), CPend(0, OS_WAIT_FOREVER)) == QUEUED
  {
    hide Switched, Queued, Next, FirstMin, QUEUED, QUEUING;
    LeastOfTwo(Urgent(LOCK).tcbs, 2, 3);
    assert [2] + [3] == [2, 3];
    ThirdQueued();
    ThirdSwitched();
    BlocksAndSwitches(Urgent(LOCK), 0, 0, 5, 0);
  }

  lemma ThirdQueued()
    ensures Queued(Urgent(LOCK), 0, 0, 5) == QUEUING
  {
    RemoveFromThree(1, 0, 3);
    assert [2] + [3] == [2, 3] && [1] + [0] == [1, 0];
    assert Queued(Urgent(LOCK), 0, 0, 5).tcbs == QUEUING.tcbs;
    assert Urgent(LOCK).sems[0 := Locked(0, [2, 3])] == QUEUING.sems;
  }

  lemma ThirdSwitched()
    ensures FirstMin(QUEUING.tcbs, QUEUING.runQueue) == Some(0) && Switched(QUEUING, 0) == QUEUED
  {
    StatusSets();
    FirstOfTwo(QUEUING.tcbs, 1, 0);
    assert Switched(QUEUING, 0).tcbs == QUEUED.tcbs;
  }

  /** With mutexes used without nesting, a FIFO hand-off makes task 2 the owner and leaves it less urgent
      than the task waiting for it. */
  lemma FifoHandOffInverts()
    ensures LeadsMutex(BOOT, FIFO, QUEUED) && MutexCall(QUEUED, CPost(0))
    ensures var s := Next(QUEUED, CPost(0));
            Owns(s, 2, 0) && s.sems[0].list == [3] && Prio(s.tcbs, 2) == 20 && Prio(s.tcbs, 3) == 5
  {
    hide MutexInv, HandOff, Schedule, Restore, MinPrio, AllMutex, Boot;
    hide FIFO;
    ReachQueued();
    BootMutex(4, 2, BootStacks());
    ReachableMutex(BOOT, FIFO);
    HandOffEffect(QUEUED, 0, 0);
    assert [2, 3][1..] == [3];
  }

  // ----- a boost that stays -----

  const LASTING: seq<Call> :=
    FIRST + [CPend(1, OS_WAIT_FOREVER), CPend(0, OS_WAIT_FOREVER)] + URGENT + [CPend(1, OS_WAIT_FOREVER), CPost(0)]

  /** Task 2 owns mutex 1 and waits for mutex 0; task 3 raises it while it waits. */
  const RAISING: State :=
    Mk(ReadyTask(20, 30, false), Waits(5, 20, 0), Leaves(5, 5, 1), Locked(0, [2]), Locked(2, [3]), [], [1, 0], 3)

  const RAISED: State :=
    Mk(ReadyTask(20, 30, true), Waits(5, 20, 0), Waits(5, 5, 1), Locked(0, [2]), Locked(2, [3]), [], [1, 0], 0)

  const KEPT: State :=
    Mk(ReadyTask(5, 30, true), ReadyTask(5, 20, false), Waits(5, 5, 1), Locked(2, []), Locked(2, [3]), [], [1, 0, 2], 0)

  /** Nested use can raise a task for good: task 0, of priority 30, posts the only mutex it owned, and goes
      on at priority 5. */
  lemma BoostStays()
    ensures Leads(BOOT, LASTING, KEPT)
    ensures KEPT.running == 0 && KEPT.tcbs[0].originalPriority == 30 && KEPT.tcbs[0].priority == 5
    ensures OwnsNothing(KEPT, 0)
  {
    LastingLeads();
    assert forall h: nat :: !Owns(KEPT, 0, h);
  }

  lemma LastingLeads()
    ensures Leads(BOOT, LASTING, KEPT)
  {
    hide Next, Allowed, AllMutex;
    hide BOOT, Owned, Boosted, Urgent, Unborn, RAISED, KEPT, FIRST;
    var m1 := Locked(2, []);
    ReachOwned();
    LastingCalls();
    SecondLock();
    Boosts(m1);
    UrgentCreated(m1);
    UrgentRuns(m1);
    Raises();
    LastPost();
    Extend(BOOT, FIRST, Owned(LOCK), LASTING[..9], Owned(m1));
    Extend(BOOT, LASTING[..9], Owned(m1), LASTING[..10], Boosted(m1));
    Extend(BOOT, LASTING[..10], Boosted(m1), LASTING[..11], Unborn(m1));
    Extend(BOOT, LASTING[..11], Unborn(m1), LASTING[..12], Urgent(m1));
    Extend(BOOT, LASTING[..12], Urgent(m1), LASTING[..13], RAISED);
    Extend(BOOT, LASTING[..13], RAISED, LASTING, KEPT);
  }

  lemma LastingCalls()
    ensures |FIRST| == 8 && |LASTING| == 14 && LASTING[..9][..8] == FIRST
    ensures forall k :: 9 <= k < 13 ==> LASTING[..k + 1][..k] == LASTING[..k]
    ensures LASTING[8] == CPend(1, OS_WAIT_FOREVER) && LASTING[9] == CPend(0, OS_WAIT_FOREVER)
    ensures LASTING[10] == CTaskCreate(5, Given) && LASTING[11] == CTaskResume(3)
    ensures LASTING[12] == CPend(1, OS_WAIT_FOREVER) && LASTING[13] == CPost(0)
  {
  }

  lemma SecondLock()
    ensures Allowed(Owned(LOCK), CPend(1, OS_WAIT_FOREVER))
    ensures Next(Owned(LOCK), CPend(1, OS_WAIT_FOREVER)) == Owned(Locked(2, []))
  {
    assert [Locked(0, []), LOCK][1 := Locked(2, [])] == [Locked(0, []), Locked(2, [])];
  }

  lemma Raises()
    ensures var s := Urgent(Locked(2, []));
            Allowed(s, CPend(1, OS_WAIT_FOREVER)) && Next(s, CPend(1, OS_WAIT_FOREVER)) == RAISED
  {
    hide Switched, Queued, Next, FirstMin, RAISED, RAISING;
    var s := Urgent(Locked(2, []));
    LeastOfTwo(s.tcbs, 3, 3);
    assert [] + [3] == [3];
    RaiseQueued();
    RaiseSwitched();
    BlocksAndSwitches(s, 1, 2, 5, 0);
  }

  lemma RaiseQueued()
    ensures Queued(Urgent(Locked(2, [])), 1, 2, 5) == RAISING
  {
    var s := Urgent(Locked(2, []));
    RemoveFromThree(1, 0, 3);
    assert [] + [3] == [3];
    assert Queued(s, 1, 2, 5).tcbs == RAISING.tcbs && s.sems[1 := Locked(2, [3])] == RAISING.sems;
  }

  lemma RaiseSwitched()
    ensures FirstMin(RAISING.tcbs, RAISING.runQueue) == Some(0) && Switched(RAISING, 0) == RAISED
  {
    StatusSets();
    FirstOfTwo(RAISING.tcbs, 1, 0);
    assert Switched(RAISING, 0).tcbs == RAISED.tcbs;
  }

  /** Restoring takes the priority of task 2, which is raised and still in the list. */
  const RESTORED: State :=
    Mk(ReadyTask(5, 30, true), Waits(5, 20, 0), Waits(5, 5, 1), Locked(0, [2]), Locked(2, [3]), [], [1, 0], 0)

  lemma LastRestore()
    ensures Restore(RAISED, 0) == RESTORED
  {
    hide SetPriority;
    LeastOfTwo(RAISED.tcbs, 2, 2);
    Repriced(RAISED, 0, 5);
    RemoveFromThree(1, 0, 3);
    FirstOfTwo(RESTORED.tcbs, 1, 0);
    assert [1] + [0] == [1, 0] && RAISED.tcbs[0 := ReadyTask(5, 30, true)] == RESTORED.tcbs;
  }

  lemma LastDequeue()
    ensures SetSem(PendListGet(RESTORED, 0), 0, Locked(2, [])) == KEPT
    ensures |PendListGet(RESTORED, 0).sems| == 2 && PendListGet(RESTORED, 0).sems[0] == Locked(0, [])
  {
    StatusSets();
    var s' := PendListGet(RESTORED, 0);
    assert [2][1..] == [] && [1, 0] + [2] == [1, 0, 2];
    assert s'.tcbs == KEPT.tcbs;
    FirstOfThree(KEPT.tcbs, 1, 0, 2);
    assert s'.sems == [Locked(0, []), Locked(2, [3])];
    assert [Locked(0, []), Locked(2, [3])][0 := Locked(2, [])] == KEPT.sems;
  }

  lemma LastPost()
    ensures Allowed(RAISED, CPost(0)) && Next(RAISED, CPost(0)) == KEPT
  {
    hide Restore, PendListGet;
    LastRestore();
    LastDequeue();
    FirstOfThree(KEPT.tcbs, 1, 0, 2);
    assert HandOff(RAISED, 0) == KEPT;
  }

  // ----- a pend with a timeout -----

  /** Task 2 pends on mutex 0 for a while: it is queued, no longer ready, and goes on running. */
  lemma TimedPendRunsOn(timeout: nat)
    requires timeout != 0 && timeout != OS_WAIT_FOREVER
    ensures Leads(BOOT, FIRST, Owned(LOCK))
    ensures var (s, ret) := SemPend(Owned(LOCK), 0, timeout);
            && ret == SemFuncNotSupport && s.running == 2 && s.runQueue == [1, 0]
            && s.sems[0].list == [2] && s.tcbs[2].status == {InUse, Pending, Running} && s.highest == Some(0)
  {
    hide AllMutex, AllAllowed, After;
    ReachOwned();
    TimedPend();
  }

  lemma TimedPend()
    ensures PendListPut(Owned(LOCK), 0) == Joining(LOCK).(highest := Some(0))
  {
    hide PendListPut;
    var s := Owned(LOCK);
    LeastOfTwo(s.tcbs, 2, 2);
    assert [] + [2] == [2];
    BoostQueued(LOCK);
    BoostSwitched(LOCK);
    Blocks(s, 0, 0, 20);
  }
}
