/**
  Console input on the kernel itself: the receive interrupt posts one of the kernel's semaphores, and the
  shell task waits in that semaphore's list. Every run of interrupts, steps of the shell and
  other kernel calls is a run of ShellSpec.
  */
module ShellOnKernel {
  import opened Options
  import opened Queues
  import opened SemTheorems
  import opened ShellSpec
  import K = KernelSpec
  import KInv = KernelInv
  import Thm = ShellTheorems

  /** The receive semaphore, and the kernel's number of the shell task. */
  datatype Handles = Handles(sem: nat, shell: nat)

  /** The kernel, and the variables of the driver and the shell. `d.pc` is where the shell goes on when it runs
      again; `d.sem` plays no part. */
  datatype World = World(k: K.State, d: Session)

  ghost predicate SemOk(w: World, hs: Handles) {
    && IsUsed(w.k, hs.sem) && w.k.sems[hs.sem].mode == K.Fifo && w.k.sems[hs.sem].typ == K.Counting
    && (w.k.sems[hs.sem].list == [] || w.k.sems[hs.sem].list == [hs.shell])
  }

  /** What ShellSpec sees: on the wait list, the shell is at its pend. */
  function Project(w: World, hs: Handles): Session
    requires hs.sem < |w.k.sems|
  {
    var m := w.k.sems[hs.sem];
    if m.list == [] then w.d.(sem := Queue(m.count, []))
    else w.d.(sem := Queue(m.count, [SHELL_TASK]), pc := Waiting)
  }

  ghost predicate Coupled(w: World, hs: Handles) {
    && KInv.WF(w.k) && hs.shell < K.Tasks(w.k)
    && SemOk(w, hs)
    && w.d.pc != Waiting && (w.k.sems[hs.sem].list != [] ==> w.d.pc == AtFetch)
    && Thm.Inv(Project(w, hs))
  }

  /** The device brings a byte, the shell makes its next step, or any other kernel call is made. */
  datatype Act = Interrupt(c: char) | Step | Other(call: K.Call)

  function Pending(hs: Handles): K.Call {
    K.CPend(hs.sem, K.OS_WAIT_FOREVER)
  }

  predicate Can(w: World, hs: Handles, a: Act) {
    match a
    case Interrupt(_) => hs.sem < |w.k.sems| && w.k.sems[hs.sem].count < K.OS_SEM_COUNT_MAX
    case Step => w.k.running == hs.shell && (w.d.pc == AtPend ==> K.Allowed(w.k, Pending(hs)))
    case Other(c) => K.Allowed(w.k, c) && !((c.CPend? || c.CPost?) && c.h == hs.sem)
  }

  function NextWorld(w: World, hs: Handles, a: Act): World {
    match a
    case Other(c) => w.(k := K.Next(w.k, c))
    case Interrupt(c) =>
      if !Offsets(w.d) then w
      else World(K.Next(w.k, K.CPost(hs.sem)), Receive(w.d, c).(sem := w.d.sem, pc := w.d.pc))
    case Step =>
      if !Offsets(w.d) then w
      else if w.d.pc == AtPend then World(K.Next(w.k, Pending(hs)), w.d.(pc := AtFetch))
      else w.(d := RunTask(w.d))
  }

  /** The event that an act is, if it is one. */
  function EventOf(a: Act): seq<Event> {
    match a
    case Interrupt(c) => [Byte(c)]
    case Step => [Run]
    case Other(_) => []
  }

  // ----- one act -----

  /** Who runs is on no wait list. */
  lemma RunnerWaitsNowhere(w: World, hs: Handles)
    requires Coupled(w, hs) && w.k.running == hs.shell
    ensures w.k.sems[hs.sem].list == []
  {
    KInv.GetTask(w.k, w.k.running);
    KInv.GetSem(w.k, hs.sem);
  }

  /** What a call leaves of the semaphore. */
  lemma Effect(w: World, hs: Handles, c: K.Call)
    requires Coupled(w, hs) && K.Allowed(w.k, c)
    ensures var k' := K.Next(w.k, c);
            && KInv.WF(k') && K.Tasks(k') == K.Tasks(w.k) && hs.sem < |k'.sems| && hs.sem < |w.k.sems|
            && k'.sems[hs.sem] == if c.CPend? && c.h == hs.sem then AfterPend(w.k, hs.sem, c.timeout)
                                  else if c.CPost? && c.h == hs.sem then AfterPost(w.k, hs.sem)
                                  else w.k.sems[hs.sem]
  {
    if c.CActivate? { KInv.ActivateKeeps(w.k); }
    hide KInv.WF, AfterPend, AfterPost, K.Activate;
    KInv.StepWF(w.k, c);
    hide K.Next;
    if !c.CActivate? { KInv.CallKeeps(w.k, c); }
    SemEffect(w.k, c, hs.sem);
  }

  lemma OtherRefines(w: World, hs: Handles, c: K.Call)
    requires Coupled(w, hs) && Can(w, hs, Other(c))
    ensures var w' := w.(k := K.Next(w.k, c)); Coupled(w', hs) && Project(w', hs) == Project(w, hs)
  {
    hide K.Next, KInv.WF, Thm.Inv;
    Effect(w, hs, c);
  }

  lemma InterruptRefines(w: World, hs: Handles, c: char)
    requires Coupled(w, hs) && Can(w, hs, Interrupt(c))
    ensures var w' := NextWorld(w, hs, Interrupt(c));
            && Offsets(Project(w, hs)) && Coupled(w', hs)
            && Project(w', hs) == NextShell(Project(w, hs), Byte(c))
            && CanHappen(Project(w, hs), Byte(c))
  {
    hide K.Next, KInv.WF;
    Effect(w, hs, K.CPost(hs.sem));
    assert [hs.shell][1..] == [] && [SHELL_TASK][1..] == [];
    hide Thm.Inv;
    assert Offsets(Project(w, hs)) by { OffsetsKept(Project(w, hs)); }
    Thm.StepInv(Project(w, hs), Byte(c));
  }

  lemma OffsetsKept(s: Session)
    requires Thm.Inv(s)
    ensures Offsets(s)
  {}

  lemma StepRefines(w: World, hs: Handles)
    requires Coupled(w, hs) && Can(w, hs, Step)
    ensures var w' := NextWorld(w, hs, Step);
            && Offsets(Project(w, hs)) && Coupled(w', hs)
            && Project(w', hs) == NextShell(Project(w, hs), Run)
            && CanHappen(Project(w, hs), Run)
  {
    hide K.Next, KInv.WF, K.Allowed;
    RunnerWaitsNowhere(w, hs);
    if w.d.pc == AtPend {
      Effect(w, hs, Pending(hs));
      assert Insert([], 0, hs.shell) == [hs.shell];
    }
    hide Thm.Inv;
    OffsetsKept(Project(w, hs));
    Thm.StepInv(Project(w, hs), Run);
  }

  /** Every act keeps the coupling. A byte and a step of the shell are the events of ShellSpec; any other kernel call
      is none. */
  lemma ActRefines(w: World, hs: Handles, a: Act)
    requires Coupled(w, hs) && Can(w, hs, a)
    ensures var w', s := NextWorld(w, hs, a), Project(w, hs);
            && Offsets(s) && Coupled(w', hs)
            && match a
               case Interrupt(c) => CanHappen(s, Byte(c)) && Project(w', hs) == NextShell(s, Byte(c))
               case Step => CanHappen(s, Run) && Project(w', hs) == NextShell(s, Run)
               case Other(_) => Project(w', hs) == s
  {
    hide K.Next, KInv.WF, K.Allowed, Receive, RunTask;
    OffsetsKept(Project(w, hs));
    match a
    case Interrupt(c) => InterruptRefines(w, hs, c);
    case Step => StepRefines(w, hs);
    case Other(c) => OtherRefines(w, hs, c);
  }

  // ----- whole runs -----

  function AfterActs(w: World, hs: Handles, acts: seq<Act>): World {
    if acts == [] then w else NextWorld(AfterActs(w, hs, acts[..|acts| - 1]), hs, acts[|acts| - 1])
  }

  ghost predicate AllCan(w: World, hs: Handles, acts: seq<Act>) {
    acts != [] ==>
      var front := acts[..|acts| - 1];
      AllCan(w, hs, front) && Can(AfterActs(w, hs, front), hs, acts[|acts| - 1])
  }

  function EventsOf(acts: seq<Act>): seq<Event> {
    if acts == [] then [] else EventsOf(acts[..|acts| - 1]) + EventOf(acts[|acts| - 1])
  }

  /** Every run on the kernel, whatever other tasks call, is a run of ShellSpec. */
  lemma {:induction false} RunRefines(w: World, hs: Handles, acts: seq<Act>)
    requires Coupled(w, hs) && AllCan(w, hs, acts)
    ensures Offsets(Project(w, hs)) && Coupled(AfterActs(w, hs, acts), hs)
    ensures AllHappen(Project(w, hs), EventsOf(acts))
    ensures Project(AfterActs(w, hs, acts), hs) == AfterEvents(Project(w, hs), EventsOf(acts))
  {
    hide Can, NextWorld, Project, Thm.Inv, KInv.WF;
    OffsetsKept(Project(w, hs));
    if acts != [] {
      var front, a, s := acts[..|acts| - 1], acts[|acts| - 1], Project(w, hs);
      var es := EventsOf(front);
      RunRefines(w, hs, front);
      ActRefines(AfterActs(w, hs, front), hs, a);
      if a.Other? {
        assert es + [] == es;
      } else {
        var e := if a.Step? then Run else Byte(a.c);
        assert (es + [e])[..|es|] == es;
        Thm.MoreHappens(s, es, e, es + [e]);
      }
    }
  }

  /** So on the kernel no wake-up is lost: the shell is on the wait list only when every byte has been read. And while
      no more than 272 bytes are unread, it dispatches what editing makes of the bytes in arrival order. */
  lemma KernelShellReads(w: World, hs: Handles, acts: seq<Act>)
    requires Coupled(w, hs) && Fresh(Project(w, hs)) && AllCan(w, hs, acts)
    ensures var w' := AfterActs(w, hs, acts);
            && hs.sem < |w'.k.sems|
            && (w'.k.sems[hs.sem].list != [] ==> w'.d.taken == |w'.d.arrived|)
            && (Thm.Bounded(Project(w, hs), EventsOf(acts)) ==> Thm.InOrder(w'.d))
  {
    hide Coupled, Project, Can, EventsOf, Thm.Bounded, Thm.InOrder, AllHappen, NextShell;
    SeenThrough(w, hs);
    var s, es := Project(w, hs), EventsOf(acts);
    RunRefines(w, hs, acts);
    SeenThrough(AfterActs(w, hs, acts), hs);
    Thm.NoLostWakeup(s, es);
    if Thm.Bounded(s, es) { Thm.ShellReadsInOrder(s, es); }
  }

  /** What the projection says of the world itself. */
  lemma SeenThrough(w: World, hs: Handles)
    requires Coupled(w, hs)
    ensures hs.sem < |w.k.sems|
    ensures var s := Project(w, hs);
            && s.taken == w.d.taken && s.arrived == w.d.arrived
            && (w.k.sems[hs.sem].list != [] ==> s.pc == Waiting)
            && (Thm.InOrder(s) ==> Thm.InOrder(w.d))
  {
    hide KInv.WF, Thm.Inv;
  }

  /** Creating the receive semaphore with count 0 leads there, before or after the scheduler starts. */
  lemma StartFromCall(k: K.State, d: Session, shell: nat)
    requires KInv.WF(k) && shell < K.Tasks(k) && k.freeSems != [] && Fresh(d.(sem := Queue(0, [])))
    ensures var c := K.CSemCreate(0, K.Counting, K.Fifo);
            var w, hs := World(K.Next(k, c), d), Handles(k.freeSems[0], shell);
            K.Allowed(k, c) && Coupled(w, hs) && Fresh(Project(w, hs))
  {
    hide KInv.WF;
    var c := K.CSemCreate(0, K.Counting, K.Fifo);
    KInv.StepWF(k, c);
    KInv.GetQueues(k);
    assert k.freeSems[0] in k.freeSems;
  }
}
