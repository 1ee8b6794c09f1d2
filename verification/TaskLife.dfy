/**
  What becomes of a task over whole runs: it keeps the priority it was created with, and once it has ended it is
  never ready, never waits and never runs again.
  */
module TaskLife {
  import opened Options
  import opened Queues
  import opened KernelSpec
  import opened KernelInv
  import opened KernelCalls

  // ----- one call -----

  /** The call makes `t` out of a free control block. */
  predicate Creates(s: State, c: Call, t: nat) {
    && s.freeTcbs != [] && s.freeTcbs[0] == t
    && match c
       case CTaskCreate(_, stack) => StackServed(s, stack)
       case CActivate => StackServed(s, Sized(4096))
       case _ => false
  }

  /** The priority that a creating call asks for. */
  function Asked(c: Call): nat {
    match c
    case CTaskCreate(p, _) => p
    case _ => 63
  }

  /** What a call may do to task `t`. */
  ghost predicate Lives(s: State, c: Call, s': State, t: nat)
    requires t < |s.tcbs|
  {
    && |s'.tcbs| == |s.tcbs|
    && (s'.tcbs[t].status == {} <==> s.tcbs[t].status == {} && !Creates(s, c, t))
    && s'.tcbs[t].originalPriority == (if Creates(s, c, t) then Asked(c) else s.tcbs[t].originalPriority)
    && (Creates(s, c, t) ==> s.tcbs[t].status == {} && s'.tcbs[t].priority == Asked(c))
    && (Ended(s, t) ==> Ended(s', t))
  }

  lemma CallLives(s: State, c: Call, t: nat)
    requires WF(s) && Allowed(s, c) && t < Tasks(s)
    ensures Lives(s, c, Next(s, c), t)
  {
    RunningExists(s);
    GetTask(s, t);
    match c
    case CSemCreate(count, typ, mode) => SemCreateIs(s, count, typ, mode);
    case CTaskCreate(p, stack) => CreateLives(s, p, stack, t);
    case CTaskResume(u) => ResumeLives(s, u, t);
    case CActivate => ActivateLives(s, t);
    case CPend(h, timeout) => PendLives(s, h, timeout, t);
    case CPost(h) => PostLives(s, h, t);
    case CExit => ExitLives(s, t);
  }

  /** A call that creates nothing here, and leaves a task its original priority and its existence. */
  lemma KeptLives(s: State, c: Call, s': State, t: nat)
    requires WF(s) && WF(s') && t < Tasks(s) && |s'.tcbs| == |s.tcbs| && !Creates(s, c, t)
    requires s'.tcbs[t].originalPriority == s.tcbs[t].originalPriority
    requires InUse in Plain(s'.tcbs[t]).status <==> InUse in Plain(s.tcbs[t]).status
    requires Ended(s, t) ==> Ended(s', t)
    ensures Lives(s, c, s', t)
  {
    InUseIs(s, t);
    InUseIs(s', t);
    hide WF;
  }

  lemma InUseIs(s: State, t: nat)
    requires WF(s) && t < Tasks(s)
    ensures s.tcbs[t].status == {} <==> InUse !in Plain(s.tcbs[t]).status
  {
    GetTask(s, t);
    assert InUse in s.tcbs[t].status <==> InUse in s.tcbs[t].status - {Running};
  }

  lemma CreateLives(s: State, p: nat, stack: Stack, t: nat)
    requires WF(s) && Allowed(s, CTaskCreate(p, stack)) && t < Tasks(s)
    ensures Lives(s, CTaskCreate(p, stack), Next(s, CTaskCreate(p, stack)), t)
  {
    TaskCreateIs(s, p, stack);
    GetTask(s, t);
    hide TaskCreate, StackServed, FirstBlockTaken, WF;
    if s.freeTcbs != [] && t == s.freeTcbs[0] {
      assert t in s.freeTcbs;
      assert !Ended(s, t);
    }
  }

  lemma ResumeLives(s: State, u: nat, t: nat)
    requires WF(s) && u < Tasks(s) && t < Tasks(s)
    ensures Lives(s, CTaskResume(u), Next(s, CTaskResume(u)), t)
  {
    TaskResumeIs(s, u);
    StepWF(s, CTaskResume(u));
    if Suspend in s.tcbs[u].status { SuspendedStatus(s, u); }
    var s' := Next(s, CTaskResume(u));
    assert s' == Result(s, CTaskResume(u)).0;
    hide WF, Result, Next, FirstRuns;
    if Suspend in s.tcbs[u].status {
      if t == u {
        assert Suspend in s.tcbs[t].status - {Running} && InUse in s.tcbs[t].status - {Running};
      } else {
        assert Plain(s'.tcbs[t]) == Plain(s.tcbs[t]);
      }
    }
    KeptLives(s, CTaskResume(u), s', t);
  }

  lemma ActivateLives(s: State, t: nat)
    requires WF(s) && !s.active && t < Tasks(s)
    ensures Lives(s, CActivate, Next(s, CActivate), t)
  {
    ActivateChanges(s, t);
    StepWF(s, CActivate);
    GetTask(s, t);
    var s' := Next(s, CActivate);
    hide WF, Next, StackServed;
    if Creates(s, CActivate, t) {
      assert t in s.freeTcbs && InUse in Plain(s'.tcbs[t]).status;
      assert !Ended(s, t);
    } else {
      KeptLives(s, CActivate, s', t);
    }
  }

  lemma ActivateChanges(s: State, t: nat)
    requires WF(s) && !s.active && t < Tasks(s)
    ensures var s' := Next(s, CActivate);
            && |s'.tcbs| == |s.tcbs|
            && Plain(s'.tcbs[t]) ==
               if Creates(s, CActivate, t) then Tcb({InUse, Ready}, 63, 63, None) else Plain(s.tcbs[t])
  {
    ActivateIs(s);
    assert Next(s, CActivate) == Result(s, CActivate).0;
    hide WF, Result, Next, FirstRuns, StackServed, FirstBlockTaken;
  }

  lemma PendLives(s: State, h: nat, timeout: nat, t: nat)
    requires WF(s) && Allowed(s, CPend(h, timeout)) && t < Tasks(s)
    ensures Lives(s, CPend(h, timeout), Next(s, CPend(h, timeout)), t)
  {
    PendIs(s, h, timeout);
    StepWF(s, CPend(h, timeout));
    RunnerStatus(s);
    var s' := Next(s, CPend(h, timeout));
    hide WF, SemPend, FirstRuns, QueuedIn, Inherited, Requeued, OwnerGets;
    if t == s.running && h < |s.sems| && Blocked(s, s', h) { assert Pending in s'.tcbs[t].status - {Running}; }
    KeptLives(s, CPend(h, timeout), s', t);
  }

  lemma PostLives(s: State, h: nat, t: nat)
    requires WF(s) && t < Tasks(s)
    ensures Lives(s, CPost(h), Next(s, CPost(h)), t)
  {
    PostIs(s, h);
    StepWF(s, CPost(h));
    if h < |s.sems| && s.sems[h].list != [] { WaiterStatus(s, h); }
    var s' := Next(s, CPost(h));
    hide WF, SemPost, FirstRuns, Restored, Requeued, OwnerGets;
    KeptLives(s, CPost(h), s', t);
  }

  lemma ExitLives(s: State, t: nat)
    requires WF(s) && Allowed(s, CExit) && t < Tasks(s)
    ensures Lives(s, CExit, Next(s, CExit), t)
  {
    ExitIs(s);
    StepWF(s, CExit);
    RunnerStatus(s);
    var s' := Next(s, CExit);
    hide WF, TaskExit, FirstRuns;
    if t != s.running { assert Plain(s'.tcbs[t]) == Plain(s.tcbs[t]); }
    KeptLives(s, CExit, s', t);
  }

  // ----- whole runs -----

  /** The priority asked for by the last of the calls that created `t`, when one did. */
  function CreatedWith(s: State, calls: seq<Call>, t: nat): Option<nat> {
    if calls == [] then None
    else
      var front, c := calls[..|calls| - 1], calls[|calls| - 1];
      if Creates(After(s, front), c, t) then Some(Asked(c)) else CreatedWith(s, front, t)
  }

  /** Over any run a task exists when it did or has been created, and its own priority is the argument of the call that
      created it. */
  lemma {:induction false} CreatedOverRuns(s: State, calls: seq<Call>, t: nat)
    requires WF(s) && t < Tasks(s) && AllAllowed(s, calls)
    ensures var s', p := After(s, calls), CreatedWith(s, calls, t);
            && |s'.tcbs| == |s.tcbs|
            && (s'.tcbs[t].status == {} <==> s.tcbs[t].status == {} && p == None)
            && s'.tcbs[t].originalPriority == if p.Some? then p.value else s.tcbs[t].originalPriority
  {
    if calls != [] {
      var front, c := calls[..|calls| - 1], calls[|calls| - 1];
      CreatedOverRuns(s, front, t);
      ReachableWF(s, front);
      CallLives(After(s, front), c, t);
      hide WF, Next, Allowed, Creates;
    }
  }

  /** From power-on. */
  lemma CreatedFromBoot(n: nat, m: nat, calls: seq<Call>, t: nat)
    requires t < n && AllAllowed(Boot(n, m, BootStacks()), calls)
    ensures var s, p := After(Boot(n, m, BootStacks()), calls), CreatedWith(Boot(n, m, BootStacks()), calls, t);
            && |s.tcbs| == n + 1
            && (s.tcbs[t].status != {} <==> p.Some?)
            && (p.Some? ==> s.tcbs[t].originalPriority == p.value)
  {
    BootWF(n, m, BootStacks());
    CreatedOverRuns(Boot(n, m, BootStacks()), calls, t);
    hide WF, After, CreatedWith, AllAllowed;
  }

  /** A task that has ended never is in a queue again, and never runs. */
  lemma {:induction false} EndedStaysEnded(s: State, calls: seq<Call>, t: nat)
    requires WF(s) && Ended(s, t) && AllAllowed(s, calls)
    ensures var s' := After(s, calls);
            |s'.tcbs| == |s.tcbs| && s'.tcbs[t].status == {InUse} && InNoQueue(s', t) && s'.running != t
  {
    ReachableWF(s, calls);
    if calls != [] {
      var front, c := calls[..|calls| - 1], calls[|calls| - 1];
      EndedStaysEnded(s, front, t);
      ReachableWF(s, front);
      CallLives(After(s, front), c, t);
    }
    EndedIsNowhere(After(s, calls), t);
  }

  /** The task that exits is in no queue, and does not run, in any state that allowed calls lead to. */
  lemma ExitIsForGood(s: State, calls: seq<Call>)
    requires WF(s) && Allowed(s, CExit) && AllAllowed(Next(s, CExit), calls)
    ensures var r, s' := s.running, After(Next(s, CExit), calls);
            && r < |s.tcbs| == |s'.tcbs| && s'.tcbs[r].status == {InUse}
            && r !in s'.runQueue && r !in s'.freeTcbs && (forall h :: 0 <= h < |s'.sems| ==> r !in s'.sems[h].list)
            && s'.running != r
  {
    ExitIs(s);
    RunnerStatus(s);
    StepWF(s, CExit);
    hide WF, Next, FirstRuns, AllAllowed;
    EndedStaysEnded(Next(s, CExit), calls, s.running);
  }
}
