/**
  The state of the task and semaphore modules of src/kernel, and what each kernel
  call does to it. A call runs with interrupts locked, so it is one step.
  */
module KernelSpec {
  import opened Options
  import opened Queues

  const OS_SEM_COUNT_MAX: nat := 0xFFFF_FFFE
  const OS_SEM_FULL: nat := 1
  const OS_WAIT_FOREVER: nat := 0xFFFF_FFFF
  const OS_TSK_PRIORITY_LOWEST: nat := 63
  const STACK_SIZE: nat := 4096
  const STACK_BLOCKS: nat := 20

  datatype SemMode = Fifo | Prior
  datatype SemType = Counting | Binary

  /** TagSemCb; `owner` is `None` for OS_INVALID_OWNER_ID. */
  datatype Sem = Sem(used: bool, count: nat, list: seq<nat>, owner: Option<nat>, mode: SemMode, typ: SemType)

  /** The control blocks and lists of the kernel. The last task control block is the zombie that
      stands for "no task" until the scheduler starts. */
  datatype State = State(
    tcbs: seq<Tcb>,
    sems: seq<Sem>,
    freeTcbs: seq<nat>,
    freeSems: seq<nat>,
    runQueue: seq<nat>,
    running: nat,
    highest: Option<nat>,
    active: bool,            // OS_FLG_BGD_ACTIVE
    idle: nat,
    stackMemUsed: seq<bool>
  )

  datatype Ret = Ok | SemPtrNull | SemInvalid | SemUnavailable | SemFuncNotSupport | SemOverflow | SemAllBusy
               | TskTcbUnavailable | TskNoMemory | TskNotCreated | TskNotSuspended

  /** The number of tasks, not counting the zombie. */
  function Tasks(s: State): nat {
    if |s.tcbs| == 0 then 0 else |s.tcbs| - 1
  }

  // ----- ready queue -----

  function SetTcb(s: State, t: nat, c: Tcb): State
    requires t < |s.tcbs|
  {
    s.(tcbs := s.tcbs[t := c])
  }

  function SetSem(s: State, h: nat, m: Sem): State
    requires h < |s.sems|
  {
    s.(sems := s.sems[h := m])
  }

  function HighestSet(s: State): State {
    s.(highest := FirstMin(s.tcbs, s.runQueue))
  }

  function ReadyAdd(s: State, t: nat): State
    requires t < |s.tcbs|
  {
    var c := s.tcbs[t];
    HighestSet(SetTcb(s, t, c.(status := c.status + {Ready})).(runQueue := s.runQueue + [t]))
  }

  function ReadyDel(s: State, t: nat): State
    requires t < |s.tcbs|
  {
    var c := s.tcbs[t];
    HighestSet(SetTcb(s, t, c.(status := c.status - {Ready})).(runQueue := Remove(s.runQueue, t)))
  }

  /** Changes an effective priority; a ready task goes to the tail of the run queue. */
  function SetPriority(s: State, t: nat, p: nat): State
    requires t < |s.tcbs|
  {
    var s1 := SetTcb(s, t, s.tcbs[t].(priority := p));
    if Ready in s1.tcbs[t].status then ReadyAdd(ReadyDel(s1, t), t) else s1
  }

  /** Switches to the most urgent ready task when it is not the running one. */
  function Schedule(s: State): State {
    var s1 := HighestSet(s);
    if s1.highest.Some? && s1.highest.value < |s1.tcbs| && s1.running < |s1.tcbs| && s1.highest.value != s1.running
    then SwitchTo(s1, s1.highest.value)
    else s1
  }

  function SwitchTo(s: State, t: nat): State
    requires t < |s.tcbs| && s.running < |s.tcbs|
  {
    var prev := s.tcbs[s.running];
    var s1 := SetTcb(s, s.running, prev.(status := prev.status - {Running}));
    var next := s1.tcbs[t];
    SetTcb(s1, t, next.(status := next.status + {Running})).(running := t)
  }

  // ----- priority inheritance -----

  /** The priority that the waiters of `h` (including `waiter`) hand to its owner. */
  function Inherit(s: State, h: nat, waiter: nat): State
    requires h < |s.sems|
  {
    match s.sems[h].owner
    case None => s
    case Some(o) =>
      if o >= |s.tcbs| || s.tcbs[o].status == {} then s
      else
        var m := MinPrio(s.tcbs, s.sems[h].list);
        var p := if Prio(s.tcbs, waiter) < m then Prio(s.tcbs, waiter) else m;
        if s.tcbs[o].priority > p then SetPriority(s, o, p) else s
  }

  function Restore(s: State, h: nat): State
    requires h < |s.sems|
  {
    match s.sems[h].owner
    case None => s
    case Some(o) =>
      if o >= |s.tcbs| || s.tcbs[o].status == {} then s
      else if s.tcbs[o].priority == s.tcbs[o].originalPriority then s
      else
        var m := MinPrio(s.tcbs, s.sems[h].list);
        if m < s.tcbs[o].priority then SetPriority(s, o, m)
        else SetPriority(s, o, s.tcbs[o].originalPriority)
  }

  // ----- semaphores -----

  /** Where the running task is put in the wait list. */
  function PendPosition(s: State, h: nat): (k: nat)
    requires h < |s.sems|
    ensures k <= |s.sems[h].list|
  {
    if s.sems[h].mode == Prior then InsertAt(s.tcbs, s.sems[h].list, Prio(s.tcbs, s.running))
    else |s.sems[h].list|
  }

  function Enlist(s: State, h: nat): State
    requires h < |s.sems| && s.running < |s.tcbs|
  {
    var c := s.tcbs[s.running];
    var s1 := SetTcb(s, s.running, c.(status := c.status + {Pending}, taskSem := Some(h)));
    SetSem(s1, h, s1.sems[h].(list := Insert(s1.sems[h].list, PendPosition(s1, h), s1.running)))
  }

  function PendListPut(s: State, h: nat): State
    requires h < |s.sems| && s.running < |s.tcbs|
  {
    Inherit(Enlist(ReadyDel(s, s.running), h), h, s.running)
  }

  function PendListGet(s: State, h: nat): State
    requires h < |s.sems| && s.sems[h].list != []
  {
    var t := s.sems[h].list[0];
    if t >= |s.tcbs| then s
    else
      var s1 := SetSem(s, h, s.sems[h].(list := Remove(s.sems[h].list, t)));
      var c := s1.tcbs[t];
      var s2 := SetTcb(s1, t, c.(status := c.status - {Pending}, taskSem := None));
      if Suspend in c.status then s2 else ReadyAdd(s2, t)
  }

  function SemPend(s: State, h: nat, timeout: nat): (State, Ret)
    requires s.running < |s.tcbs|
  {
    if h >= |s.sems| then (s, SemInvalid)
    else if !s.sems[h].used then (s, SemInvalid)
    else if s.sems[h].count > 0 then
      (SetSem(s, h, s.sems[h].(count := s.sems[h].count - 1, owner := Some(s.running))), Ok)
    else if timeout == 0 then (s, SemUnavailable)
    else if timeout != OS_WAIT_FOREVER then (PendListPut(s, h), SemFuncNotSupport)
    else (Schedule(PendListPut(s, h)), Ok)
  }

  /** Hands the semaphore to its first waiter. */
  function HandOff(s: State, h: nat): State
    requires h < |s.sems| && s.sems[h].list != []
  {
    var t := s.sems[h].list[0];
    var s1 := PendListGet(Restore(s, h), h);
    SetSem(s1, h, s1.sems[h].(owner := Some(t)))
  }

  function SemPost(s: State, h: nat): (State, Ret) {
    if h >= |s.sems| then (s, SemInvalid)
    else if !s.sems[h].used then (s, SemInvalid)
    else if s.sems[h].count >= OS_SEM_COUNT_MAX then (s, SemOverflow)
    else if s.sems[h].typ == Binary && s.sems[h].count == OS_SEM_FULL then (s, Ok)
    else if s.sems[h].list != [] then (Schedule(HandOff(s, h)), Ok)
    else
      var s1 := Restore(s, h);
      (SetSem(s1, h, s1.sems[h].(count := s1.sems[h].count + 1, owner := None)), Ok)
  }

  /** OsSemCreate; the handle of the new semaphore is the head of the free list. */
  function SemCreate(s: State, count: nat, typ: SemType, mode: SemMode): (State, Ret) {
    if s.freeSems == [] then (s, SemAllBusy)
    else
      var h := s.freeSems[0];
      if h >= |s.sems| then (s, SemAllBusy)
      else (SetSem(s, h, Sem(true, count, [], None, mode, typ)).(freeSems := s.freeSems[1..]), Ok)
  }

  // ----- tasks -----

  datatype Stack = Given | Sized(size: nat)

  /** The first free block of the stack pool. */
  function FirstFree(used: seq<bool>): (r: Option<nat>)
    ensures r.Some? ==> r.value < |used|
  {
    if used == [] then None
    else if !used[0] then Some(0)
    else
      match FirstFree(used[1..])
      case None => None
      case Some(i) => Some(i + 1)
  }

  function TaskCreate(s: State, prio: nat, stack: Stack): (State, Ret) {
    if s.freeTcbs == [] then (s, TskTcbUnavailable)
    else if s.freeTcbs[0] >= |s.tcbs| then (s, TskTcbUnavailable)
    else if stack.Sized? && (stack.size != STACK_SIZE || FirstFree(s.stackMemUsed) == None) then (s, TskNoMemory)
    else
      var s1 := if stack.Given? then s
                else s.(stackMemUsed := s.stackMemUsed[FirstFree(s.stackMemUsed).value := true]);
      (SetTcb(s1, s.freeTcbs[0], Tcb({Suspend, InUse}, prio, prio, None)).(freeTcbs := s.freeTcbs[1..]), Ok)
  }

  function TaskResume(s: State, t: nat): (State, Ret)
    requires t < |s.tcbs|
  {
    if s.tcbs[t].status == {} then (s, TskNotCreated)
    else if Suspend !in s.tcbs[t].status then (s, TskNotSuspended)
    else
      var s1 := SetTcb(s, t, s.tcbs[t].(status := s.tcbs[t].status - {Suspend}));
      if Pending in s1.tcbs[t].status then (s1, Ok)
      else
        var s2 := ReadyAdd(s1, t);
        (if s.active then Schedule(s2) else s2, Ok)
  }

  function TaskExit(s: State): State
    requires s.running < |s.tcbs|
  {
    Schedule(ReadyDel(s, s.running))
  }

  /** Creates and resumes the idle task, and switches to the most urgent task. */
  function Activate(s: State): (State, Ret) {
    var (s1, r) := TaskCreate(s, OS_TSK_PRIORITY_LOWEST, Sized(STACK_SIZE));
    if r != Ok || s.freeTcbs == [] || s.freeTcbs[0] >= |s1.tcbs| then (s1, r)
    else
      var (s2, r2) := TaskResume(s1, s.freeTcbs[0]);
      if r2 != Ok then (s2, r2)
      else (FirstTimeSwitch(s2.(idle := s.freeTcbs[0], active := true)), Ok)
  }

  function FirstTimeSwitch(s: State): State {
    var s1 := HighestSet(s);
    if s1.highest == None || s1.highest.value >= |s1.tcbs| then s1
    else
      var t := s1.highest.value;
      SetTcb(s1, t, s1.tcbs[t].(status := s1.tcbs[t].status + {Running})).(running := t)
  }

  /** The state after OsTskInit and OsSemInit, with `n` tasks and `m` semaphores. */
  function Boot(n: nat, m: nat, stacks: seq<bool>): State {
    State(seq(n, i => Tcb({}, 0, 0, None)) + [Tcb({InUse, Running}, OS_TSK_PRIORITY_LOWEST + 1, 0, None)],
          seq(m, i => Sem(false, 0, [], None, Fifo, Counting)),
          seq(n, i => i), seq(m, i => i), [], n, None, false, 0, stacks)
  }

  /** The stack pool after the tables were taken from it. */
  function BootStacks(): seq<bool> {
    seq(STACK_BLOCKS, i => i < 2)
  }

  // ----- runs -----

  datatype Call =
    | CSemCreate(count: nat, typ: SemType, mode: SemMode)
    | CTaskCreate(prio: nat, stack: Stack)
    | CTaskResume(t: nat)
    | CActivate
    | CPend(h: nat, timeout: nat)
    | CPost(h: nat)
    | CExit

  /** What the callers of the kernel respect: priorities in range, handles of tasks that exist, the
      scheduler started once and before tasks pend or exit, and the idle task doing neither. */
  predicate Allowed(s: State, c: Call) {
    match c
    case CSemCreate(count, _, _) => count <= OS_SEM_COUNT_MAX
    case CTaskCreate(p, _) => p <= OS_TSK_PRIORITY_LOWEST
    case CTaskResume(t) => t < Tasks(s)
    case CActivate => !s.active
    case CPend(_, timeout) => s.active && s.running != s.idle && (timeout == 0 || timeout == OS_WAIT_FOREVER)
    case CPost(_) => true
    case CExit => s.active && s.running != s.idle
  }

  function Result(s: State, c: Call): (State, Ret)
    requires s.running < |s.tcbs|
    requires c.CTaskResume? ==> c.t < |s.tcbs|
  {
    match c
    case CSemCreate(count, typ, mode) => SemCreate(s, count, typ, mode)
    case CTaskCreate(p, stack) => TaskCreate(s, p, stack)
    case CTaskResume(t) => TaskResume(s, t)
    case CActivate => Activate(s)
    case CPend(h, timeout) => SemPend(s, h, timeout)
    case CPost(h) => SemPost(s, h)
    case CExit => (TaskExit(s), Ok)
  }

  /** The state after a call. */
  function Next(s: State, c: Call): State {
    if s.running < |s.tcbs| && (c.CTaskResume? ==> c.t < |s.tcbs|) then Result(s, c).0 else s
  }

  /** The state after a sequence of calls. */
  function After(s: State, calls: seq<Call>): State {
    if calls == [] then s
    else Next(After(s, calls[..|calls| - 1]), calls[|calls| - 1])
  }

  /** Each call is allowed when it is made. */
  predicate AllAllowed(s: State, calls: seq<Call>) {
    calls != [] ==>
      var front := calls[..|calls| - 1];
      AllAllowed(s, front) && Allowed(After(s, front), calls[|calls| - 1])
  }
}
