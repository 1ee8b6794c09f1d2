/**
  The task and semaphore modules of src/kernel in their own form: control blocks updated in place, and
  queues that are rings of linked nodes. Each operation is proved to change the state as KernelSpec
  says, and to keep the rings whole and apart.
  */
module Kernel {
  import opened Options
  import opened Queues
  import opened KernelSpec
  import opened KernelInv
  import opened KernelLists

  const OS_TSK_STACK_SIZE_ALLOC_ALIGN: nat := 4
  const OS_SEM_ADDR_ALLOC_ALIGN: nat := 2

  /** TagSemCb without `semList`, which is a ring. */
  datatype SemCb = SemCb(used: bool, count: nat, owner: Option<nat>, mode: SemMode, typ: SemType)

  function CbOf(m: Sem): SemCb {
    SemCb(m.used, m.count, m.owner, m.mode, m.typ)
  }

  function QueueAt(qs: seq<seq<nat>>, i: nat): seq<nat> {
    if i < |qs| then qs[i] else []
  }

  /** A control block together with what its ring holds. */
  function SemOf(cb: SemCb, list: seq<nat>): Sem {
    Sem(cb.used, cb.count, list, cb.owner, cb.mode, cb.typ)
  }

  function SemsOf(cbs: seq<SemCb>, qs: seq<seq<nat>>): (ms: seq<Sem>)
    ensures |ms| == |cbs|
  {
    seq(|cbs|, h requires 0 <= h < |cbs| => SemOf(cbs[h], QueueAt(qs, WaitList(h))))
  }

  class Sys {
    const tcbs: array<Tcb>
    const sems: array<SemCb>
    const stackMemUsed: array<bool>
    const lists: Lists
    var freeSems: seq<nat>
    var running: nat
    var highest: Option<nat>
    var active: bool
    var idle: nat

    ghost function Abs(): State
      reads this, tcbs, sems, stackMemUsed, lists
    {
      State(tcbs[..], SemsOf(sems[..], lists.queues), QueueAt(lists.queues, FREE), freeSems, QueueAt(lists.queues, RUN),
            running, highest, active, idle, stackMemUsed[..])
    }

    /** The queues are rings that are whole and apart: one for each semaphore, the free list and the run queue. */
    ghost predicate Valid()
      reads this, lists, lists.nodes, lists.heads
    {
      && lists.Valid()
      && tcbs.Length == |lists.nodes| + 1 && |lists.queues| == 2 + sems.Length
    }

    /** OsTskAMPInit and OsSemInit, for as many tasks and semaphores as fit a block each: the tables
        take the first two blocks of the pool. */
    constructor (n: nat, m: nat)
      ensures fresh(tcbs) && fresh(sems) && fresh(stackMemUsed) && fresh(lists)
      ensures forall x :: x in lists.nodes + lists.heads ==> fresh(x)
      ensures Valid() && Abs() == Boot(n, m, BootStacks()) && WF(Abs())
    {
      tcbs := new Tcb[n + 1](i => Tcb({}, 0, 0, None));
      sems := new SemCb[m](i => SemCb(false, 0, None, Fifo, Counting));
      stackMemUsed := new bool[STACK_BLOCKS](i => false);
      lists := new Lists(n, m);
      freeSems := [];
      running, highest, active, idle := n, None, false, 0;
      new;
      hide Boot, BootStacks, Lists.Valid, Lists.Holds, WF, QueueAt;
      FillTables(n, m);
    }

    /** What the two functions do once the tables exist. */
    method FillTables(n: nat, m: nat)
      requires tcbs.Length == n + 1 && forall t :: 0 <= t < n ==> tcbs[t] == Tcb({}, 0, 0, None)
      requires sems.Length == m && forall h :: 0 <= h < m ==> sems[h] == SemCb(false, 0, None, Fifo, Counting)
      requires stackMemUsed.Length == STACK_BLOCKS && forall i :: 0 <= i < STACK_BLOCKS ==> !stackMemUsed[i]
      requires freeSems == [] && running == n && highest == None && !active && idle == 0
      requires lists.Holds(Boot(n, m, BootStacks()))
      modifies this`freeSems, tcbs, stackMemUsed
      ensures Valid() && Abs() == Boot(n, m, BootStacks()) && WF(Abs())
    {
      hide WF, Boot, Lists.Valid, Lists.Holds;
      BootParts(n, m);
      BootWF(n, m, BootStacks());
      TakeTables();
      FillFreeSems(m);
      tcbs[n] := Tcb({InUse, Running}, OS_TSK_PRIORITY_LOWEST + 1, 0, None);
      assert tcbs[..] == seq(n, i => Tcb({}, 0, 0, None))
                         + [Tcb({InUse, Running}, OS_TSK_PRIORITY_LOWEST + 1, 0, None)];
      AbsIs(Boot(n, m, BootStacks()));
    }

    /** The blocks that the two tables take. */
    method TakeTables()
      requires stackMemUsed.Length == STACK_BLOCKS && forall i :: 0 <= i < STACK_BLOCKS ==> !stackMemUsed[i]
      modifies stackMemUsed
      ensures stackMemUsed[..] == BootStacks()
    {
      hide FirstFree;
      FirstTwo(stackMemUsed[..]);
      var table := MemAlloc(STACK_SIZE, OS_TSK_STACK_SIZE_ALLOC_ALIGN);
      FirstTwo(stackMemUsed[..]);
      table := MemAlloc(STACK_SIZE, OS_SEM_ADDR_ALLOC_ALIGN);
    }

    /** The list of unused semaphores, in the order of the table. */
    method FillFreeSems(m: nat)
      requires freeSems == []
      modifies this`freeSems
      ensures freeSems == seq(m, j => j)
    {
      for i := 0 to m
        invariant freeSems == seq(i, j => j)
      {
        freeSems := freeSems + [i];
      }
    }

    // ----- the queues of the state -----

    /** The rings hold the queues of the state. */
    lemma Listed()
      requires Valid()
      ensures lists.Holds(Abs()) && |Abs().sems| == sems.Length && |Abs().tcbs| == tcbs.Length
    {
      hide Lists.Valid;
      assert lists.queues == QueuesOf(Abs());
    }

    /** When the rings hold the queues of `s` and the control blocks are those of `s`, the state is `s`. */
    lemma AbsIs(s: State)
      requires lists.Holds(s) && tcbs[..] == s.tcbs && stackMemUsed[..] == s.stackMemUsed && |s.tcbs| > 0
      requires freeSems == s.freeSems && running == s.running && highest == s.highest
      requires active == s.active && idle == s.idle
      requires sems.Length == |s.sems| && forall h :: 0 <= h < sems.Length ==> sems[h] == CbOf(s.sems[h])
      ensures Valid() && Abs() == s
    {
      hide Lists.Valid;
      Unpacked(s, sems[..], lists.queues);
    }

    // ----- ready queue -----

    /** OsTskHighestSet. */
    method SetHighest()
      requires Valid()
      modifies this`highest
      ensures Valid() && Abs() == HighestSet(old(Abs()))
    {
      Listed();
      highest := lists.Highest(tcbs[..], Abs());
    }

    /** OsTskReadyAdd. */
    method MakeReady(t: nat)
      requires Valid() && t < Tasks(Abs()) && InNoQueue(Abs(), t)
      modifies this`highest, tcbs, lists`queues, lists.nodes, lists.heads
      ensures Valid() && Abs() == ReadyAdd(old(Abs()), t)
    {
      hide Lists.Valid, FirstMin;
      ghost var s := Abs();
      Listed();
      tcbs[t] := tcbs[t].(status := tcbs[t].status + {Ready});
      lists.ReadyAdd(t, s);
      ghost var s1 := ReadyAdd(s, t);
      SameQueues(s1, s1.(highest := highest));
      AbsIs(s1.(highest := highest));
      SetHighest();
    }

    /** OsTskReadyDel. */
    method Unready(t: nat)
      requires Valid() && t < Tasks(Abs()) && t in Abs().runQueue
      modifies this`highest, tcbs, lists`queues, lists.nodes, lists.heads
      ensures Valid() && Abs() == ReadyDel(old(Abs()), t)
    {
      hide Lists.Valid, FirstMin, Remove;
      ghost var s := Abs();
      Listed();
      tcbs[t] := tcbs[t].(status := tcbs[t].status - {Ready});
      lists.ReadyDel(t, s);
      ghost var s1 := ReadyDel(s, t);
      SameQueues(s1, s1.(highest := highest));
      AbsIs(s1.(highest := highest));
      SetHighest();
    }

    /** What inheriting and restoring do with a new priority: a ready task is taken out of the run queue
        and put back at its tail. */
    method ChangePriority(t: nat, p: nat)
      requires Valid() && Core(Abs()) && t < Tasks(Abs()) && tcbs[t].status != {} && p <= tcbs[t].originalPriority
      modifies this`highest, tcbs, lists`queues, lists.nodes, lists.heads
      ensures Valid() && Abs() == SetPriority(old(Abs()), t, p)
      ensures Core(Abs())
    {
      hide Lists.Valid, FirstMin, Remove;
      SetPriorityCore(Abs(), t, p);
      ghost var s := Abs();
      tcbs[t] := tcbs[t].(priority := p);
      assert Abs() == SetTcb(s, t, s.tcbs[t].(priority := p));
      if Ready in tcbs[t].status {
        RequeuedAlone(s, t, p);
        Unready(t);
        MakeReady(t);
      }
    }

    /** OsSemFindHighestWaiterPriority: 255 when nobody waits. */
    method FindHighestWaiterPriority(h: nat) returns (p: nat)
      requires Valid() && h < sems.Length
      ensures p == MinPrio(tcbs[..], Abs().sems[h].list)
    {
      Listed();
      p := lists.LeastPriority(h, tcbs[..], Abs());
    }

    /** OsPriorityInherit. */
    method PriorityInherit(h: nat, waiter: nat)
      requires Valid() && Core(Abs()) && h < sems.Length && sems[h].used && waiter < tcbs.Length
      modifies this`highest, tcbs, lists`queues, lists.nodes, lists.heads
      ensures Valid() && Abs() == Inherit(old(Abs()), h, waiter)
    {
      hide Lists.Valid, SetPriority, MinPrio;
      GetSem(Abs(), h);
      if sems[h].owner == None {
        return;
      }
      var o := sems[h].owner.value;
      GetTask(Abs(), o);
      if tcbs[o].status == {} {
        return;
      }
      var p := FindHighestWaiterPriority(h);
      if tcbs[waiter].priority < p {
        p := tcbs[waiter].priority;
      }
      if tcbs[o].priority > p {
        ChangePriority(o, p);
      }
    }

    /** OsPriorityRestore. */
    method PriorityRestore(h: nat)
      requires Valid() && Core(Abs()) && h < sems.Length && sems[h].used
      modifies this`highest, tcbs, lists`queues, lists.nodes, lists.heads
      ensures Valid() && Abs() == Restore(old(Abs()), h)
    {
      hide Lists.Valid, SetPriority, MinPrio;
      GetSem(Abs(), h);
      if sems[h].owner == None {
        return;
      }
      var o := sems[h].owner.value;
      GetTask(Abs(), o);
      if tcbs[o].status == {} || tcbs[o].priority == tcbs[o].originalPriority {
        return;
      }
      var p := FindHighestWaiterPriority(h);
      if p < tcbs[o].priority {
        ChangePriority(o, p);
        return;
      }
      ChangePriority(o, tcbs[o].originalPriority);
    }

    /** OsTskSchedule and OsTskScheduleFastPs, with the switch of OsMainSchedule. */
    method Reschedule()
      requires Valid() && Switchable(Abs())
      modifies this`highest, this`running, tcbs
      ensures Valid() && Abs() == Schedule(old(Abs()))
      ensures WF(Abs()) && highest == Some(running)
    {
      hide Lists.Valid, Switchable, WF, FirstMin;
      ghost var s := Abs();
      ScheduleWF(s);
      NextToRun(s);
      SetHighest();
      if highest.value != running {
        tcbs[running] := tcbs[running].(status := tcbs[running].status - {Running});
        tcbs[highest.value] := tcbs[highest.value].(status := tcbs[highest.value].status + {Running});
        running := highest.value;
      }
    }

    // ----- semaphores -----

    /** OsSemPendListPut: takes the running task off the run queue and queues it on the semaphore. */
    method SemPendListPut(h: nat)
      requires Valid() && WF(Abs()) && active && running != idle
      requires h < sems.Length && sems[h].used && sems[h].count == 0
      modifies this`highest, tcbs, lists`queues, lists.nodes, lists.heads
      ensures Valid() && Abs() == PendListPut(old(Abs()), h)
    {
      hide Lists.Valid, FirstMin, Insert, PendPosition, Inherit, Core, WF, ReadyDel, InNoQueue, Lists.Holds;
      var r := running;
      QueueRunning(Abs(), h);
      Unready(r);
      ghost var s1 := Abs();
      tcbs[r] := tcbs[r].(taskSem := Some(h), status := tcbs[r].status + {Pending});
      ghost var s2 := Abs();
      assert s2 == SetTcb(s1, r, s1.tcbs[r].(status := s1.tcbs[r].status + {Pending}, taskSem := Some(h)));
      MarkedAlone(s1, r, s2);
      Listed();
      lists.Enqueue(h, tcbs[..], r, sems[h].mode, s2);
      AbsIs(Enlist(s1, h));
      PriorityInherit(h, r);
    }

    /** OsSemPendListGet: takes the first waiter off and makes it ready. */
    method SemPendListGet(h: nat) returns (t: nat)
      requires Valid() && Core(Abs()) && h < sems.Length && Abs().sems[h].list != []
      modifies this`highest, tcbs, lists`queues, lists.nodes, lists.heads
      ensures Valid() && Abs() == PendListGet(old(Abs()), h) && t == old(Abs().sems[h].list)[0]
    {
      hide Lists.Valid, FirstMin, Core, Remove, InNoQueue, Lists.Holds;
      ghost var s, list := Abs(), Abs().sems[h].list;
      FirstWaiter(s, h);
      FirstRemoved(list);
      Listed();
      t := lists.Dequeue(h, s);
      AbsIs(SetSem(s, h, s.sems[h].(list := list[1..])));
      DequeuedAlone(s, h);
      ghost var s1 := Abs();
      tcbs[t] := tcbs[t].(status := tcbs[t].status - {Pending}, taskSem := None);
      MarkedAlone(s1, t, Abs());
      if Suspend !in tcbs[t].status {
        MakeReady(t);
      }
    }

    method Pend(h: nat, timeout: nat) returns (ret: Ret)
      requires Valid() && WF(Abs()) && active && running != idle
      modifies this`highest, this`running, tcbs, sems, lists`queues, lists.nodes, lists.heads
      ensures Valid() && (Abs(), ret) == SemPend(old(Abs()), h, timeout)
    {
      hide Lists.Valid, PendListPut, Schedule, Switchable;
      if h >= sems.Length {
        return SemInvalid;
      }
      if !sems[h].used {
        return SemInvalid;
      }
      if sems[h].count > 0 {
        SemChanges(sems[..], lists.queues, h, sems[h].(count := sems[h].count - 1, owner := Some(running)));
        sems[h] := sems[h].(count := sems[h].count - 1, owner := Some(running));
        return Ok;
      }
      if timeout == 0 {
        return SemUnavailable;
      }
      PendListPutSwitchable(Abs(), h);
      SemPendListPut(h);
      if timeout != OS_WAIT_FOREVER {
        return SemFuncNotSupport;
      }
      Reschedule();
      return Ok;
    }

    /** OsSemPostSchePre: restores the owner and makes the first waiter the owner. */
    method PostSchePre(h: nat)
      requires Valid() && WF(Abs()) && h < sems.Length && sems[h].used && Abs().sems[h].list != []
      modifies this`highest, tcbs, sems, lists`queues, lists.nodes, lists.heads
      ensures Valid() && Abs() == HandOff(old(Abs()), h)
    {
      hide Lists.Valid, Restore, PendListGet, SemOk, TaskOk;
      RestoreFacts(Abs(), h);
      PriorityRestore(h);
      PendListGetCore(Abs(), h);
      var t := SemPendListGet(h);
      SemChanges(sems[..], lists.queues, h, sems[h].(owner := Some(t)));
      sems[h] := sems[h].(owner := Some(t));
    }

    /** The branch of PRT_SemPost with nobody waiting. */
    method Free(h: nat)
      requires Valid() && WF(Abs()) && h < sems.Length && sems[h].used
      modifies this`highest, tcbs, sems, lists`queues, lists.nodes, lists.heads
      ensures Valid()
      ensures var s1 := Restore(old(Abs()), h);
              && |s1.sems| == sems.Length
              && Abs() == SetSem(s1, h, s1.sems[h].(count := s1.sems[h].count + 1, owner := None))
    {
      hide Lists.Valid, Restore, Core;
      RestoreFacts(Abs(), h);
      PriorityRestore(h);
      SemChanges(sems[..], lists.queues, h, sems[h].(count := sems[h].count + 1, owner := None));
      sems[h] := sems[h].(count := sems[h].count + 1, owner := None);
    }

    /** Whether `semList` is empty. */
    method AnyWaiting(h: nat) returns (any: bool)
      requires Valid() && h < sems.Length
      ensures any <==> Abs().sems[h].list != []
    {
      Listed();
      any := lists.Any(WaitList(h));
    }

    method Post(h: nat) returns (ret: Ret)
      requires Valid() && WF(Abs())
      modifies this`highest, this`running, tcbs, sems, lists`queues, lists.nodes, lists.heads
      ensures Valid() && (Abs(), ret) == SemPost(old(Abs()), h)
    {
      hide Lists.Valid, Restore, HandOff, Schedule, Switchable, Core;
      if h >= sems.Length {
        return SemInvalid;
      }
      if !sems[h].used {
        return SemInvalid;
      }
      if sems[h].count >= OS_SEM_COUNT_MAX {
        return SemOverflow;
      }
      if sems[h].typ == Binary && sems[h].count == OS_SEM_FULL {
        return Ok;
      }
      var waiting := AnyWaiting(h);
      if waiting {
        WaitersNeedScheduler(Abs(), h);
        HandOffSwitchable(Abs(), h);
        PostSchePre(h);
        Reschedule();
      } else {
        Free(h);
      }
      return Ok;
    }

    /** OsSemCreate; `out` is whether there is a place to put the handle. */
    method CreateSem(count: nat, typ: SemType, mode: SemMode, out: bool) returns (ret: Ret, h: nat)
      requires Valid() && WF(Abs())
      modifies this`freeSems, sems
      ensures Valid()
      ensures !out ==> ret == SemPtrNull && Abs() == old(Abs())
      ensures out ==> (Abs(), ret) == SemCreate(old(Abs()), count, typ, mode)
      ensures ret == Ok ==> old(freeSems) != [] && h == old(freeSems)[0] < sems.Length
    {
      h := 0;
      if !out {
        return SemPtrNull, h;
      }
      if freeSems == [] {
        return SemAllBusy, h;
      }
      h := freeSems[0];
      assert h in freeSems;
      GetSem(Abs(), h);
      freeSems := freeSems[1..];
      SemChanges(sems[..], lists.queues, h, SemCb(true, count, None, mode, typ));
      sems[h] := SemCb(true, count, None, mode, typ);
      return Ok, h;
    }

    /** PRT_SemCreate: a counting semaphore in FIFO mode. */
    method CreateCountingSem(count: nat, out: bool) returns (ret: Ret, h: nat)
      requires Valid() && WF(Abs())
      modifies this`freeSems, sems
      ensures Valid()
      ensures count > OS_SEM_COUNT_MAX ==> ret == SemOverflow && Abs() == old(Abs())
      ensures count <= OS_SEM_COUNT_MAX && !out ==> ret == SemPtrNull && Abs() == old(Abs())
      ensures count <= OS_SEM_COUNT_MAX && out ==>
                (Abs(), ret) == SemCreate(old(Abs()), count, Counting, Fifo) && WF(Abs())
      ensures ret == Ok ==> old(freeSems) != [] && h == old(freeSems)[0] < sems.Length
    {
      if count > OS_SEM_COUNT_MAX {
        return SemOverflow, 0;
      }
      SemCreateWF(Abs(), count, Counting, Fifo);
      ret, h := CreateSem(count, Counting, Fifo, out);
    }

    // ----- tasks -----

    /** OsMemAllocAlign: the first unused 4K block, for an alignment of at most 2^8 bytes. */
    method MemAlloc(size: nat, alignPow: nat) returns (block: Option<nat>)
      modifies stackMemUsed
      ensures size != STACK_SIZE || alignPow > 8 ==> block == None && stackMemUsed[..] == old(stackMemUsed[..])
      ensures size == STACK_SIZE && alignPow <= 8 ==>
                && block == FirstFree(old(stackMemUsed[..]))
                && stackMemUsed[..] == if block == None then old(stackMemUsed[..])
                                       else old(stackMemUsed[..])[block.value := true]
    {
      if alignPow > 8 {
        return None;
      }
      if size != STACK_SIZE {
        return None;
      }
      ghost var used := stackMemUsed[..];
      var i := 0;
      while i < stackMemUsed.Length
        invariant 0 <= i <= |used| && stackMemUsed[..] == used
        invariant FirstFree(used) == match FirstFree(used[i..]) case None => None case Some(j) => Some(i + j)
      {
        assert used[i..][1..] == used[i + 1..];
        if !stackMemUsed[i] {
          stackMemUsed[i] := true;
          return Some(i);
        }
        i := i + 1;
      }
      return None;
    }

    /** OsTaskCreateChkAndGetTcb: the first free control block. */
    method TakeTcb() returns (t: Option<nat>)
      requires Valid() && WF(Abs())
      modifies lists`queues, lists.nodes, lists.heads
      ensures Valid()
      ensures var s := old(Abs());
              match t
              case None => s.freeTcbs == [] && Abs() == s
              case Some(x) =>
                && s.freeTcbs != [] && x == s.freeTcbs[0] < Tasks(s)
                && Abs() == s.(freeTcbs := s.freeTcbs[1..]) && InNoQueue(Abs(), x)
    {
      hide Lists.Valid, WF, InNoQueue;
      ghost var s := Abs();
      Listed();
      lists.Sizes(s);
      var any := lists.Any(FREE);
      if !any {
        return None;
      }
      FreeAlone(s);
      var x := lists.TakeFree(s);
      AbsIs(s.(freeTcbs := s.freeTcbs[1..]));
      return Some(x);
    }

    /** Puts a control block back to the head of the free list. */
    method GiveBack(t: nat)
      requires Valid() && t < Tasks(Abs()) && InNoQueue(Abs(), t)
      modifies lists`queues, lists.nodes, lists.heads
      ensures Valid() && Abs() == old(Abs()).(freeTcbs := [t] + old(Abs()).freeTcbs)
    {
      hide Lists.Valid, InNoQueue;
      ghost var s := Abs();
      Listed();
      lists.PutBack(t, s);
      AbsIs(s.(freeTcbs := [t] + s.freeTcbs));
    }

    /** OsTaskCreateOnly: on failure the control block goes back to the head of the free list. */
    method CreateTask(prio: nat, stack: Stack) returns (ret: Ret, t: nat)
      requires Valid() && WF(Abs())
      modifies tcbs, stackMemUsed, lists`queues, lists.nodes, lists.heads
      ensures Valid() && (Abs(), ret) == TaskCreate(old(Abs()), prio, stack)
      ensures ret == Ok ==> t == old(Abs().freeTcbs)[0]
    {
      hide Lists.Valid, FirstFree, WF, InNoQueue, QueueAt, SemsOf;
      ghost var s := Abs();
      var taken := TakeTcb();
      if taken == None {
        return TskTcbUnavailable, 0;
      }
      t := taken.value;
      if stack.Sized? {
        var block := MemAlloc(stack.size, OS_TSK_STACK_SIZE_ALLOC_ALIGN);
        if block == None {
          GiveBack(t);
          assert [t] + s.freeTcbs[1..] == s.freeTcbs;
          return TskNoMemory, t;
        }
      }
      tcbs[t] := Tcb({Suspend, InUse}, prio, prio, None);
      return Ok, t;
    }

    /** PRT_TaskResume. */
    method ResumeTask(t: nat) returns (ret: Ret)
      requires Valid() && WF(Abs()) && t < Tasks(Abs())
      modifies this`highest, this`running, tcbs, lists`queues, lists.nodes, lists.heads
      ensures Valid() && (Abs(), ret) == TaskResume(old(Abs()), t)
    {
      hide Lists.Valid, FirstMin;
      ghost var s := Abs();
      GetTask(s, t);
      if tcbs[t].status == {} {
        return TskNotCreated;
      }
      if Suspend !in tcbs[t].status {
        return TskNotSuspended;
      }
      SuspendedAlone(s, t);
      tcbs[t] := tcbs[t].(status := tcbs[t].status - {Suspend});
      UnsuspendCore(s, t);
      ghost var s1 := Abs();
      assert s1 == SetTcb(s, t, s.tcbs[t].(status := s.tcbs[t].status - {Suspend}));
      if Pending !in tcbs[t].status {
        assert InUse in s1.tcbs[t].status;
        ReadyAddCore(s1, t);
        MakeReady(t);
        if active {
          GetTask(s, s.running);
          Reschedule();
        }
      }
      return Ok;
    }

    /** OsTaskExit. */
    method ExitTask()
      requires Valid() && WF(Abs()) && active && running != idle
      modifies this`highest, this`running, tcbs, lists`queues, lists.nodes, lists.heads
      ensures Valid() && Abs() == TaskExit(old(Abs()))
    {
      hide Lists.Valid, FirstMin;
      ghost var s := Abs();
      GetTask(s, s.running);
      assert InUse in s.tcbs[s.running].status - {Ready};
      ReadyDelCore(s, s.running);
      Unready(running);
      Reschedule();
    }

    /** OsActivate: creates the idle task and starts the scheduler. */
    method Start() returns (ret: Ret)
      requires Valid() && WF(Abs()) && !active
      modifies this, tcbs, stackMemUsed, lists`queues, lists.nodes, lists.heads
      ensures Valid() && (Abs(), ret) == Activate(old(Abs()))
    {
      hide WF, TaskCreate, TaskResume, FirstTimeSwitch, Lists.Valid;
      ghost var s := Abs();
      IdleResumed(s);
      var t;
      ret, t := CreateTask(OS_TSK_PRIORITY_LOWEST, Sized(STACK_SIZE));
      if ret != Ok {
        return;
      }
      ret := ResumeTask(t);
      if ret != Ok {
        return;
      }
      idle := t;
      active := true;
      SwitchFirst();
    }

    /** OsFirstTimeSwitch. */
    method SwitchFirst()
      requires Valid() && Abs().runQueue != [] && forall t :: t in Abs().runQueue ==> t < tcbs.Length
      modifies this`highest, this`running, tcbs
      ensures Valid() && Abs() == FirstTimeSwitch(old(Abs()))
    {
      hide Lists.Valid;
      FirstMinIs(tcbs[..], Abs().runQueue);
      SetHighest();
      assert highest.value in Abs().runQueue;
      running := highest.value;
      tcbs[running] := tcbs[running].(status := tcbs[running].status + {Running});
    }
  }

  lemma BootParts(n: nat, m: nat)
    ensures var s := Boot(n, m, BootStacks());
            && s.tcbs == seq(n, i => Tcb({}, 0, 0, None)) + [Tcb({InUse, Running}, OS_TSK_PRIORITY_LOWEST + 1, 0, None)]
            && |s.sems| == m && s.freeSems == seq(m, j => j)
            && s.running == n && s.highest == None && !s.active && s.idle == 0 && s.stackMemUsed == BootStacks()
            && forall h :: 0 <= h < m ==> CbOf(s.sems[h]) == SemCb(false, 0, None, Fifo, Counting)
  {}

  /** The queues of a state are read back from their numbers. */
  lemma Unpacked(s: State, cbs: seq<SemCb>, qs: seq<seq<nat>>)
    requires qs == QueuesOf(s) && |cbs| == |s.sems| && forall h :: 0 <= h < |cbs| ==> cbs[h] == CbOf(s.sems[h])
    ensures SemsOf(cbs, qs) == s.sems && QueueAt(qs, FREE) == s.freeTcbs && QueueAt(qs, RUN) == s.runQueue
  {}

  /** A control block changes, the rings do not. */
  lemma SemChanges(cbs: seq<SemCb>, qs: seq<seq<nat>>, h: nat, cb: SemCb)
    requires h < |cbs|
    ensures SemsOf(cbs[h := cb], qs) == SemsOf(cbs, qs)[h := SemOf(cb, QueueAt(qs, WaitList(h)))]
  {}

  lemma SameQueues(s: State, s': State)
    requires s' == s.(highest := s'.highest)
    ensures QueuesOf(s') == QueuesOf(s)
  {}

  /** The first free task is in no other queue. */
  lemma FreeAlone(s: State)
    requires WF(s) && s.freeTcbs != []
    ensures s.freeTcbs[0] < Tasks(s) && InNoQueue(s.(freeTcbs := s.freeTcbs[1..]), s.freeTcbs[0])
  {
    var t := s.freeTcbs[0];
    assert t in s.freeTcbs;
    GetTask(s, t);
    forall h | 0 <= h < |s.sems| ensures t !in s.sems[h].list { GetSem(s, h); }
  }

  /** The steps of OsSemPendListPut keep every task in its queue. */
  lemma QueueRunning(s: State, h: nat)
    requires WF(s) && s.active && s.running != s.idle && h < |s.sems| && s.sems[h].used && s.sems[h].count == 0
    ensures s.running < Tasks(s) && s.running in s.runQueue
    ensures var s1 := ReadyDel(s, s.running);
            s1.running == s.running && |s1.tcbs| == |s.tcbs| && s1.sems == s.sems
    ensures Core(Enlist(ReadyDel(s, s.running), h))
    ensures InNoQueue(ReadyDel(s, s.running), s.running)
  {
    GetTask(s, s.running);
    RemoveKeeps(s.runQueue, s.running);
    forall g | 0 <= g < |s.sems| ensures s.running !in s.sems[g].list { GetSem(s, g); }
    assert InUse in s.tcbs[s.running].status - {Ready};
    ReadyDelCore(s, s.running);
    EnlistCore(ReadyDel(s, s.running), h);
  }

  lemma MarkedAlone(s: State, t: nat, s': State)
    requires InNoQueue(s, t) && s' == s.(tcbs := s'.tcbs)
    ensures InNoQueue(s', t)
  {}

  lemma FirstWaiter(s: State, h: nat)
    requires Core(s) && h < |s.sems| && s.sems[h].list != []
    ensures s.sems[h].list[0] < Tasks(s)
  {
    GetSem(s, h);
    assert s.sems[h].list[0] in s.sems[h].list;
  }

  lemma NextToRun(s: State)
    requires Switchable(s)
    ensures s.running < |s.tcbs| && FirstMin(s.tcbs, s.runQueue).Some? && FirstMin(s.tcbs, s.runQueue).value < |s.tcbs|
  {
    FirstMinIs(s.tcbs, s.runQueue);
    assert s.highest.value in s.runQueue;
  }

  lemma RestoreFacts(s: State, h: nat)
    requires WF(s) && h < |s.sems| && s.sems[h].used
    ensures Core(Restore(s, h)) && SameButPriority(s, Restore(s, h))
  {
    RestoreCore(s, h);
    RestoreFrame(s, h);
  }

  /** The first two allocations from an unused pool take its first two blocks. */
  lemma FirstTwo(used: seq<bool>)
    requires |used| > 1 && !used[1]
    ensures !used[0] ==> FirstFree(used) == Some(0)
    ensures used[0] ==> FirstFree(used) == Some(1)
  {
    assert used[1..][0] == used[1];
  }
}
