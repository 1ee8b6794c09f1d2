/**
  The end of the ring demonstration on the kernel, seen from the scheduler: when the idle task runs, the demonstration
  is over.
  */
module RingEnds {
  import opened Options
  import opened Queues
  import opened SemTheorems
  import opened RingOnKernel
  import K = KernelSpec
  import KInv = KernelInv
  import R = RingSpec
  import RInv = RingInv
  import RThm = RingTheorems

  // ----- where a kernel call leaves the tasks it is not about -----

  /** Ready tasks but `who` stay ready, suspended ones suspended, and free control blocks free. */
  ghost predicate Stays(s: K.State, s': K.State, who: nat) {
    && |s'.tcbs| == |s.tcbs| && s'.freeTcbs == s.freeTcbs
    && (forall x :: x in s.runQueue && x != who ==> x in s'.runQueue)
    && forall x :: 0 <= x < |s.tcbs| && Suspend in s.tcbs[x].status ==> Suspend in s'.tcbs[x].status
  }

  lemma ScheduleStays(s: K.State, who: nat)
    ensures Stays(s, K.Schedule(s), who)
  {}

  lemma PendStays(s: K.State, h: nat, timeout: nat)
    requires KInv.WF(s) && K.Allowed(s, K.CPend(h, timeout))
    ensures Stays(s, K.SemPend(s, h, timeout).0, s.running)
  {
    if h < |s.sems| && s.sems[h].used && s.sems[h].count == 0 && timeout != 0 {
      KInv.PendListPutSwitchable(s, h);
      KInv.InheritFrame(K.Enlist(K.ReadyDel(s, s.running), h), h, s.running);
      hide K.Inherit, K.Schedule, KInv.WF;
      ScheduleStays(K.PendListPut(s, h), s.running);
    }
  }

  lemma PostStays(s: K.State, h: nat)
    requires KInv.WF(s) && s.active
    ensures Stays(s, K.SemPost(s, h).0, |s.tcbs|)
  {
    if h < |s.sems| && s.sems[h].used {
      KInv.RestoreCore(s, h);
      KInv.RestoreFrame(s, h);
      hide K.Restore, K.Schedule, KInv.WF;
      if s.sems[h].list != [] {
        var s1 := K.Restore(s, h);
        GetStays(s1, h);
        ScheduleStays(K.HandOff(s, h), |s.tcbs|);
      }
    }
  }

  lemma GetStays(s: K.State, h: nat)
    requires h < |s.sems| && s.sems[h].list != []
    ensures Stays(s, K.PendListGet(s, h), |s.tcbs|) && |K.PendListGet(s, h).sems| == |s.sems|
  {}

  lemma ExitStays(s: K.State)
    requires KInv.WF(s) && s.active && s.running != s.idle
    ensures Stays(s, K.TaskExit(s), s.running)
  {
    KInv.GetTask(s, s.running);
    assert InUse in s.tcbs[s.running].status - {Ready};
    KInv.ReadyDelCore(s, s.running);
    hide K.Schedule, KInv.WF;
    ScheduleStays(K.ReadyDel(s, s.running), s.running);
  }

  lemma ResumeStays(s: K.State, u: nat)
    requires KInv.WF(s) && s.active && u < K.Tasks(s)
    ensures var s' := K.TaskResume(s, u).0;
            && |s'.tcbs| == |s.tcbs| && s'.freeTcbs == s.freeTcbs
            && (forall x :: x in s.runQueue ==> x in s'.runQueue)
            && forall x :: 0 <= x < |s.tcbs| && Suspend in s.tcbs[x].status ==>
                 Suspend in s'.tcbs[x].status || x in s'.runQueue
  {
    KInv.GetTask(s, u);
    hide K.Schedule, KInv.WF;
    var s1 := K.SetTcb(s, u, s.tcbs[u].(status := s.tcbs[u].status - {Suspend}));
    ScheduleStays(K.ReadyAdd(s1, u), |s.tcbs|);
  }

  lemma CreateStays(s: K.State, prio: nat, stack: K.Stack)
    requires KInv.WF(s)
    ensures var s' := K.TaskCreate(s, prio, stack).0;
            && |s'.tcbs| == |s.tcbs| && s'.runQueue == s.runQueue
            && (forall x :: 0 <= x < |s.tcbs| && Suspend in s.tcbs[x].status ==> Suspend in s'.tcbs[x].status)
            && forall x :: x in s.freeTcbs && x < |s.tcbs| ==> x in s'.freeTcbs || Suspend in s'.tcbs[x].status
  {
    if s.freeTcbs != [] { assert s.freeTcbs == [s.freeTcbs[0]] + s.freeTcbs[1..]; }
  }

  // ----- tasks of the demonstration -----

  /** Not yet created, not yet resumed, ready, or waiting for one of the three semaphores. */
  ghost predicate Placed(s: K.State, hs: Handles, t: nat) {
    t < |s.tcbs| && (t in s.freeTcbs || Suspend in s.tcbs[t].status || t in s.runQueue || WaitsInRing(s, hs, t))
  }

  /** The call ends the running task, or queues it on another semaphore. */
  predicate Quits(hs: Handles, c: K.Call) {
    c.CExit? || (c.CPend? && c.h != hs.empty && c.h != hs.full && c.h != hs.mutex)
  }

  lemma PlacedKept(w: World, hs: Handles, c: K.Call, t: nat)
    requires Coupled(w, hs) && K.Allowed(w.k, c) && t < K.Tasks(w.k) && Placed(w.k, hs, t)
    requires t == w.k.running ==> !Quits(hs, c)
    ensures Placed(K.Next(w.k, c), hs, t)
  {
    hide KInv.WF, Waiters, K.SemPend, K.SemPost, K.TaskExit, K.TaskResume, K.TaskCreate, RInv.Inv;
    KInv.StepWF(w.k, c);
    if WaitsInRing(w.k, hs, t) { WaitsOrServed(w, hs, c, t); }
    match c
    case CSemCreate(_, _, _) =>
    case CTaskCreate(p, stack) => CreateStays(w.k, p, stack);
    case CTaskResume(u) => ResumeStays(w.k, u);
    case CPend(h, timeout) =>
      PendStays(w.k, h, timeout);
      if t == w.k.running { PendsInRing(w, hs, h, timeout); }
    case CPost(h) => PostStays(w.k, h);
    case CExit => ExitStays(w.k);
  }

  /** A task on one of the three lists stays on it, or is served and ready. */
  lemma WaitsOrServed(w: World, hs: Handles, c: K.Call, t: nat)
    requires Coupled(w, hs) && K.Allowed(w.k, c) && WaitsInRing(w.k, hs, t)
    ensures t in K.Next(w.k, c).runQueue || WaitsInRing(K.Next(w.k, c), hs, t)
  {
    hide KInv.WF, Waiters, RInv.Inv, K.Next, AfterPend, AfterPost;
    Effect(w, hs, c);
    if t in w.k.sems[hs.mutex].list { StaysOrServed(w, hs, c, hs.mutex, t); }
    if t in w.k.sems[hs.empty].list { StaysOrServed(w, hs, c, hs.empty, t); }
    if t in w.k.sems[hs.full].list { StaysOrServed(w, hs, c, hs.full, t); }
  }

  lemma StaysOrServed(w: World, hs: Handles, c: K.Call, h: nat, t: nat)
    requires KInv.WF(w.k) && K.Allowed(w.k, c) && IsUsed(w.k, h) && t in w.k.sems[h].list
    ensures h < |K.Next(w.k, c).sems|
    ensures t in K.Next(w.k, c).runQueue || t in K.Next(w.k, c).sems[h].list
  {
    hide KInv.WF, K.Next;
    SemEffect(w.k, c, h);
    var list := w.k.sems[h].list;
    if c.CPost? && c.h == h && t == list[0] {
      FirstIsServed(w.k, h);
    } else if c.CPend? && c.h == h {
      InsertHolds(list, K.PendPosition(w.k, h), w.k.running, t);
    } else {
      assert list == [list[0]] + list[1..];
    }
  }

  lemma InsertHolds(list: seq<nat>, k: nat, r: nat, t: nat)
    requires k <= |list|
    ensures r in Insert(list, k, r) && (t in list ==> t in Insert(list, k, r))
  {
    assert list == list[..k] + list[k..];
  }

  /** A pend of the running task on one of the three leaves it ready or puts it on the list. */
  lemma PendsInRing(w: World, hs: Handles, h: nat, timeout: nat)
    requires Coupled(w, hs) && K.Allowed(w.k, K.CPend(h, timeout))
    requires h == hs.empty || h == hs.full || h == hs.mutex
    ensures var s' := K.SemPend(w.k, h, timeout).0;
            w.k.running in s'.runQueue || WaitsInRing(s', hs, w.k.running)
  {
    hide Waiters, RInv.Inv;
    var s := w.k;
    if s.sems[h].count == 0 && timeout != 0 {
      PendEffect(s, h, timeout);
      InsertHolds(s.sems[h].list, K.PendPosition(s, h), s.running, s.running);
    }
  }

  // ----- whole runs -----

  predicate HasRounds(d: R.State, t: nat) {
    t < |d.tasks| && d.tasks[t].i < d.tasks[t].quota
  }

  /** Every task with rounds left is where the demonstration puts it. */
  ghost predicate AllPlaced(w: World, hs: Handles) {
    forall t: nat :: HasRounds(w.d, t) ==> Placed(w.k, hs, t)
  }

  /** A task with rounds left does what the demonstration has it do: it neither ends nor waits for anything else. */
  predicate Loyal(w: World, hs: Handles, a: Act) {
    a.Other? && HasRounds(w.d, w.k.running) ==> !Quits(hs, a.c)
  }

  ghost predicate AllLoyal(w: World, hs: Handles, acts: seq<Act>) {
    acts != [] ==>
      var front := acts[..|acts| - 1];
      AllLoyal(w, hs, front) && Loyal(AfterActs(w, hs, front), hs, acts[|acts| - 1])
  }

  /** Rounds are only used up. */
  lemma RoundsFall(w: World, hs: Handles, a: Act, t: nat)
    requires Coupled(w, hs)
    ensures HasRounds(NextWorld(w, hs, a).d, t) ==> HasRounds(w.d, t)
  {
    hide KInv.WF, RInv.Inv, K.Next;
    if a == Statement {
      Runner(w, hs);
      LocalRounds(w.d, w.k.running, t);
    }
  }

  lemma LocalRounds(d: R.State, r: nat, t: nat)
    requires r < |d.tasks| && R.SizesOk(d)
    ensures HasRounds(Local(d, r), t) ==> HasRounds(d, t)
  {}

  lemma ActPlaces(w: World, hs: Handles, a: Act)
    requires Coupled(w, hs) && Can(w, hs, a) && Loyal(w, hs, a) && AllPlaced(w, hs)
    ensures AllPlaced(NextWorld(w, hs, a), hs)
  {
    hide Coupled, Placed, K.Next, K.Allowed;
    var w' := NextWorld(w, hs, a);
    forall t: nat | HasRounds(w'.d, t) ensures Placed(w'.k, hs, t) {
      RoundsFall(w, hs, a, t);
      assert Placed(w.k, hs, t);
      SameTasks(w, hs);
      match a
      case Other(c) => PlacedKept(w, hs, c, t);
      case Statement =>
        var call := CallOf(w.d, hs, w.k.running);
        if call.Some? { PlacedKept(w, hs, call.value, t); }
    }
  }

  lemma SameTasks(w: World, hs: Handles)
    requires Coupled(w, hs)
    ensures |w.d.tasks| == K.Tasks(w.k) && w.k.running < |w.d.tasks| && R.SizesOk(w.d)
  {
    Runner(w, hs);
  }

  lemma {:induction false} RunPlaces(w: World, hs: Handles, acts: seq<Act>)
    requires Coupled(w, hs) && AllCan(w, hs, acts) && AllLoyal(w, hs, acts) && AllPlaced(w, hs)
    ensures AllPlaced(AfterActs(w, hs, acts), hs)
  {
    hide Coupled, Can, Loyal, NextWorld, AllPlaced;
    if acts != [] {
      var front := acts[..|acts| - 1];
      RunPlaces(w, hs, front);
      RunRefines(w, hs, front);
      ActPlaces(AfterActs(w, hs, front), hs, acts[|acts| - 1]);
    }
  }

  /** The idle task is what the scheduler chose. */
  predicate IdleRuns(s: K.State) {
    s.running == s.idle && s.highest == Some(s.idle)
  }

  /** Created, resumed, and more urgent than the idle task. */
  predicate Started(s: K.State, t: nat) {
    && t < |s.tcbs| && s.tcbs[t].status != {} && Suspend !in s.tcbs[t].status
    && Prio(s.tcbs, t) < Prio(s.tcbs, s.idle)
  }

  /** Over every run from a fresh start, whatever other tasks do: when the idle task runs, and the tasks with rounds
      left have been started, there are none; all items have been produced and consumed in order. */
  lemma IdleMeansOver(w: World, hs: Handles, n: nat, acts: seq<Act>)
    requires Coupled(w, hs) && R.Init(Project(w, hs), n) && RThm.Balanced(Project(w, hs))
    requires AllPlaced(w, hs) && AllCan(w, hs, acts) && AllLoyal(w, hs, acts)
    ensures var w' := AfterActs(w, hs, acts);
            IdleRuns(w'.k) && (forall t: nat :: HasRounds(w'.d, t) ==> Started(w'.k, t)) ==> Over(w'.d)
  {
    hide Coupled, Placed, Started, Over, RThm.Balanced, Project, R.Init, R.Sum, RThm.Left;
    var w' := AfterActs(w, hs, acts);
    RunPlaces(w, hs, acts);
    RunRefines(w, hs, acts);
    KernelRingCompletes(w, hs, n, acts);
    if IdleRuns(w'.k) && forall t: nat :: HasRounds(w'.d, t) ==> Started(w'.k, t) {
      forall t: nat | HasRounds(w'.d, t) ensures WaitsInRing(w'.k, hs, t) {
        assert Placed(w'.k, hs, t) && Started(w'.k, t);
        StartedWaits(w', hs, t);
      }
    }
  }

  /** While the idle task is the most urgent ready one, a started task is not ready, so it waits. */
  lemma StartedWaits(w: World, hs: Handles, t: nat)
    requires Coupled(w, hs) && IdleRuns(w.k) && t < |w.d.tasks| && Placed(w.k, hs, t) && Started(w.k, t)
    ensures WaitsInRing(w.k, hs, t)
  {
    KInv.GetTask(w.k, t);
    IdleIsFirst(w.k);
  }

  lemma IdleIsFirst(s: K.State)
    requires KInv.WF(s) && IdleRuns(s)
    ensures forall x :: x in s.runQueue ==> Prio(s.tcbs, s.idle) <= Prio(s.tcbs, x)
  {
    FirstMinIs(s.tcbs, s.runQueue);
    forall x | x in s.runQueue ensures Prio(s.tcbs, s.idle) <= Prio(s.tcbs, x) {
      var k: nat :| FirstMinAt(s.tcbs, s.runQueue, k) && s.runQueue[k] == s.idle;
      var i :| 0 <= i < |s.runQueue| && s.runQueue[i] == x;
    }
  }

  /** Before any of the tasks with rounds has been created, all are where they should be. */
  lemma StartPlaces(w: World, hs: Handles)
    requires Coupled(w, hs) && forall t: nat :: HasRounds(w.d, t) ==> w.k.tcbs[t].status == {}
    ensures AllPlaced(w, hs)
  {
    forall t: nat | HasRounds(w.d, t) ensures Placed(w.k, hs, t) { KInv.GetTask(w.k, t); }
  }
}
