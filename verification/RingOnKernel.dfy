/**
  The ring demonstration on the kernel itself: its tasks keep only their own program positions, and wait
  in the kernel's lists. Every run of kernel calls and statements is a run of RingSpec.
  */
module RingOnKernel {
  import opened Options
  import opened Queues
  import opened SemTheorems
  import K = KernelSpec
  import KInv = KernelInv
  import R = RingSpec
  import RInv = RingInv
  import RThm = RingTheorems

  /** The semaphores that the demonstration created. */
  datatype Handles = Handles(empty: nat, full: nat, mutex: nat)

  /** The kernel, and the shared variables and tasks of the demonstration. A task's `pc` is where it goes on
      when it runs again; the semaphore fields of `d` play no part. Task numbers are the kernel's: a
      kernel task outside the demonstration has the role of an observer with no rounds to make. */
  datatype World = World(k: K.State, d: R.State)

  ghost predicate FifoCounting(w: World, h: nat) {
    IsUsed(w.k, h) && w.k.sems[h].mode == K.Fifo && w.k.sems[h].typ == K.Counting
  }

  ghost predicate Sems(w: World, hs: Handles) {
    && FifoCounting(w, hs.empty) && FifoCounting(w, hs.full) && FifoCounting(w, hs.mutex)
    && hs.empty != hs.full && hs.empty != hs.mutex && hs.full != hs.mutex
  }

  // ----- the demonstration as RingSpec sees it -----

  /** A task on a wait list is at its pend, whatever comes next for it. */
  function Seen(w: World, hs: Handles, t: nat): R.Pc
    requires hs.empty < |w.k.sems| && hs.full < |w.k.sems| && hs.mutex < |w.k.sems| && t < |w.d.tasks|
  {
    if t in w.k.sems[hs.mutex].list then R.WaitMutex
    else if t in w.k.sems[hs.empty].list || t in w.k.sems[hs.full].list then R.WaitFirst
    else w.d.tasks[t].pc
  }

  function Project(w: World, hs: Handles): R.State
    requires hs.empty < |w.k.sems| && hs.full < |w.k.sems| && hs.mutex < |w.k.sems|
  {
    w.d.(empty := View(w.k.sems[hs.empty]), full := View(w.k.sems[hs.full]), mutex := View(w.k.sems[hs.mutex]),
         tasks := seq(|w.d.tasks|, t requires 0 <= t < |w.d.tasks| => w.d.tasks[t].(pc := Seen(w, hs, t))))
  }

  // ----- statements -----

  function FirstHandle(hs: Handles, r: R.Role): nat {
    if r == R.Producer then hs.empty else hs.full
  }

  function SecondHandle(hs: Handles, r: R.Role): nat {
    if r == R.Producer then hs.full else hs.empty
  }

  /** The kernel call that the next statement of task `t` makes, if it makes one. */
  function CallOf(d: R.State, hs: Handles, t: nat): Option<K.Call>
    requires t < |d.tasks|
  {
    var x := d.tasks[t];
    if x.pc == R.PendFirst && x.i < x.quota && x.role != R.Observer then
      Some(K.CPend(FirstHandle(hs, x.role), K.OS_WAIT_FOREVER))
    else if x.pc == R.PendMutex then Some(K.CPend(hs.mutex, K.OS_WAIT_FOREVER))
    else if x.pc == R.PostMutex then Some(K.CPost(hs.mutex))
    else if x.pc == R.PostSecond then Some(K.CPost(SecondHandle(hs, x.role)))
    else None
  }

  /** What the statement does to the demonstration's own variables. */
  function Local(d: R.State, t: nat): R.State
    requires t < |d.tasks| && R.SizesOk(d)
  {
    var x := d.tasks[t];
    if x.pc == R.PendFirst then R.SetPc(d, t, if x.i >= x.quota then R.Done else R.PendMutex)
    else if x.pc == R.PendMutex then R.SetPc(d, t, R.S1)
    else if x.pc == R.PostMutex && x.role != R.Observer then R.SetPc(d, t, R.PostSecond)
    else if x.pc == R.PostMutex || x.pc == R.PostSecond then
      d.(tasks := d.tasks[t := x.(pc := R.PendFirst, i := x.i + 1)])
    else if x.pc == R.Done then d
    else if x.role == R.Producer then R.Produce(d, t)
    else if x.role == R.Consumer then R.Consume(d, t)
    else R.Observe(d, t)
  }

  /** The running task executes its next statement, or any other kernel call is made. */
  datatype Act = Statement | Other(c: K.Call)

  predicate OnHandles(hs: Handles, c: K.Call) {
    (c.CPend? || c.CPost?) && (c.h == hs.empty || c.h == hs.full || c.h == hs.mutex)
  }

  predicate Can(w: World, hs: Handles, a: Act) {
    match a
    case Other(c) => K.Allowed(w.k, c) && !OnHandles(hs, c)
    case Statement =>
      && w.k.running < |w.d.tasks|
      && match CallOf(w.d, hs, w.k.running)
         case None => true
         case Some(c) => K.Allowed(w.k, c)
  }

  function NextWorld(w: World, hs: Handles, a: Act): World {
    match a
    case Other(c) => w.(k := K.Next(w.k, c))
    case Statement =>
      if w.k.running >= |w.d.tasks| || !R.SizesOk(w.d) then w
      else
        match CallOf(w.d, hs, w.k.running)
        case None => w.(d := Local(w.d, w.k.running))
        case Some(c) => World(K.Next(w.k, c), Local(w.d, w.k.running))
  }

  // ----- the coupling -----

  ghost predicate Waiters(w: World, hs: Handles)
    requires Sems(w, hs)
  {
    && (forall t :: t in w.k.sems[hs.mutex].list ==> t < |w.d.tasks| && w.d.tasks[t].pc == R.S1)
    && (forall t :: t in w.k.sems[hs.empty].list ==>
          t < |w.d.tasks| && w.d.tasks[t].pc == R.PendMutex && w.d.tasks[t].role == R.Producer)
    && (forall t :: t in w.k.sems[hs.full].list ==>
          t < |w.d.tasks| && w.d.tasks[t].pc == R.PendMutex && w.d.tasks[t].role == R.Consumer)
    && (forall t :: 0 <= t < |w.d.tasks| ==> w.d.tasks[t].pc != R.WaitFirst && w.d.tasks[t].pc != R.WaitMutex)
  }

  ghost predicate Coupled(w: World, hs: Handles) {
    && KInv.WF(w.k) && w.k.active && |w.d.tasks| == K.Tasks(w.k)
    && Sems(w, hs) && Waiters(w, hs)
    && RInv.Inv(Project(w, hs)) && |w.d.buf| <= K.OS_SEM_COUNT_MAX
  }

  /** The running task is on none of the lists, and no list holds a task twice or in two places. */
  lemma Lists(w: World, hs: Handles)
    requires KInv.WF(w.k) && w.k.active && Sems(w, hs)
    ensures w.k.running < K.Tasks(w.k)
    ensures forall h :: 0 <= h < |w.k.sems| ==> NoDup(w.k.sems[h].list) && w.k.running !in w.k.sems[h].list
    ensures forall g, h, t :: 0 <= g < |w.k.sems| && 0 <= h < |w.k.sems| && g != h && t in w.k.sems[g].list ==>
              t !in w.k.sems[h].list
  {
    KInv.GetTask(w.k, w.k.running);
    forall h | 0 <= h < |w.k.sems|
      ensures NoDup(w.k.sems[h].list) && w.k.running !in w.k.sems[h].list
      ensures forall t :: t in w.k.sems[h].list ==> t < K.Tasks(w.k) && w.k.tcbs[t].taskSem == Some(h)
    {
      KInv.GetSem(w.k, h);
    }
  }

  // ----- every act is a step of RingSpec, or none -----

  /** What a call does to the demonstration's semaphores. */
  lemma Effect(w: World, hs: Handles, c: K.Call)
    requires Coupled(w, hs) && K.Allowed(w.k, c)
    ensures Sems(World(K.Next(w.k, c), w.d), hs)
    ensures forall h {:trigger K.Next(w.k, c).sems[h]} :: h == hs.empty || h == hs.full || h == hs.mutex ==>
              && h < |K.Next(w.k, c).sems| && h < |w.k.sems|
              && K.Next(w.k, c).sems[h] == if c.CPend? && c.h == h then AfterPend(w.k, h, c.timeout)
                                           else if c.CPost? && c.h == h then AfterPost(w.k, h)
                                           else w.k.sems[h]
  {
    hide K.Next, KInv.WF, AfterPend, AfterPost;
    SemEffect(w.k, c, hs.empty);
    SemEffect(w.k, c, hs.full);
    SemEffect(w.k, c, hs.mutex);
    SameKind(w.k, c, hs.empty);
    SameKind(w.k, c, hs.full);
    SameKind(w.k, c, hs.mutex);
  }

  lemma SameKind(s: K.State, c: K.Call, h: nat)
    requires KInv.WF(s) && K.Allowed(s, c) && IsUsed(s, h)
    ensures h < |K.Next(s, c).sems| && K.Next(s, c).sems[h].used
    ensures K.Next(s, c).sems[h].mode == s.sems[h].mode && K.Next(s, c).sems[h].typ == s.sems[h].typ
  {
    hide K.Next, KInv.WF;
    SemEffect(s, c, h);
  }

  lemma OtherRefines(w: World, hs: Handles, c: K.Call)
    requires Coupled(w, hs) && K.Allowed(w.k, c) && !OnHandles(hs, c)
    ensures var w' := w.(k := K.Next(w.k, c)); Coupled(w', hs) && Project(w', hs) == Project(w, hs)
  {
    assert !c.CActivate?;
    hide K.Next, KInv.WF, RInv.Inv, K.Allowed;
    Effect(w, hs, c);
    KInv.CallKeeps(w.k, c);
    var w' := w.(k := K.Next(w.k, c));
    SameSems(w, hs, w');
  }

  lemma SameSems(w: World, hs: Handles, w': World)
    requires Sems(w, hs) && Sems(w', hs) && Waiters(w, hs) && w'.d == w.d
    requires forall h :: h == hs.empty || h == hs.full || h == hs.mutex ==> w'.k.sems[h] == w.k.sems[h]
    ensures Waiters(w', hs) && Project(w', hs) == Project(w, hs)
  {
    assert Project(w', hs).tasks == Project(w, hs).tasks;
  }

  /** What is left to show for a statement: the wait lists agree with the program positions, and so do the states. */
  ghost predicate Refines(w: World, hs: Handles, w': World)
    requires Sems(w, hs)
  {
    && Sems(w', hs) && Waiters(w', hs)
    && R.SizesOk(w.d) && w.k.running < |w.d.tasks|
    && Project(w', hs) == R.Next(Project(w, hs), w.k.running)
  }

  /** The running task as RingSpec sees it. */
  lemma Runner(w: World, hs: Handles)
    requires Coupled(w, hs)
    ensures w.k.running < |w.d.tasks| && R.SizesOk(w.d) && R.SizesOk(Project(w, hs))
    ensures Project(w, hs).tasks[w.k.running] == w.d.tasks[w.k.running]
    ensures R.Enabled(Project(w, hs), w.k.running) <==> w.d.tasks[w.k.running].pc != R.Done
  {
    Lists(w, hs);
  }

  /** A statement that leaves the other tasks and the kernel alone keeps who waits where. */
  lemma SeenStays(w: World, hs: Handles, d: R.State)
    requires Sems(w, hs) && Waiters(w, hs) && w.k.running < |w.d.tasks| == |d.tasks|
    requires forall h :: h == hs.empty || h == hs.full || h == hs.mutex ==> w.k.running !in w.k.sems[h].list
    requires d.tasks == w.d.tasks[w.k.running := d.tasks[w.k.running]]
    requires d.tasks[w.k.running].pc != R.WaitFirst && d.tasks[w.k.running].pc != R.WaitMutex
    ensures var t, w' := w.k.running, w.(d := d);
            && Waiters(w', hs)
            && Project(w', hs).tasks == Project(w, hs).tasks[t := d.tasks[t]]
  {
  }

  /** Statements that touch no semaphore do to the projection what they do to the variables. */
  lemma LocalStep(d: R.State, p: R.State, t: nat, hs: Handles)
    requires R.SizesOk(d) && t < |d.tasks| == |p.tasks| && p.tasks[t] == d.tasks[t]
    requires p == d.(empty := p.empty, full := p.full, mutex := p.mutex, tasks := p.tasks)
    requires CallOf(d, hs, t) == None
    ensures var d' := Local(d, t);
            && |d'.tasks| == |d.tasks| && d'.tasks == d.tasks[t := d'.tasks[t]]
            && (d.tasks[t].pc != R.WaitFirst && d.tasks[t].pc != R.WaitMutex ==>
                  && d'.tasks[t].pc != R.WaitFirst && d'.tasks[t].pc != R.WaitMutex
                  && R.Next(p, t) == d'.(empty := p.empty, full := p.full, mutex := p.mutex,
                                         tasks := p.tasks[t := d'.tasks[t]]))
  {
    hide R.Produce, R.Consume, R.Observe;
    var x := d.tasks[t];
    if x.pc == R.Done {
      assert d.tasks[t := x] == d.tasks && p.tasks[t := x] == p.tasks;
    } else if x.pc !in {R.PendFirst, R.PendMutex, R.PostMutex, R.PostSecond} {
      if x.role == R.Producer { ProduceAlike(d, p, t); }
      else if x.role == R.Consumer { ConsumeAlike(d, p, t); }
      else { ObserveAlike(d, p, t); }
    }
  }

  /** `p` has the variables of `d`, its own semaphores, and the same task `t`. */
  ghost predicate Agree(d: R.State, p: R.State, t: nat) {
    && R.SizesOk(d) && t < |d.tasks| == |p.tasks| && p.tasks[t] == d.tasks[t]
    && p == d.(empty := p.empty, full := p.full, mutex := p.mutex, tasks := p.tasks)
  }

  /** After the statement they agree again, and only task `t` has moved. */
  ghost predicate Moved(d: R.State, p: R.State, t: nat, d': R.State, p': R.State)
    requires t < |d.tasks| == |p.tasks|
  {
    && |d'.tasks| == |d.tasks| && d'.tasks == d.tasks[t := d'.tasks[t]]
    && d'.tasks[t].pc != R.WaitFirst && d'.tasks[t].pc != R.WaitMutex
    && p' == d'.(empty := p.empty, full := p.full, mutex := p.mutex, tasks := p.tasks[t := d'.tasks[t]])
  }

  lemma ProduceAlike(d: R.State, p: R.State, t: nat)
    requires Agree(d, p, t)
    ensures Moved(d, p, t, R.Produce(d, t), R.Produce(p, t))
  {}

  lemma ConsumeAlike(d: R.State, p: R.State, t: nat)
    requires Agree(d, p, t)
    ensures Moved(d, p, t, R.Consume(d, t), R.Consume(p, t))
  {}

  lemma ObserveAlike(d: R.State, p: R.State, t: nat)
    requires Agree(d, p, t)
    ensures Moved(d, p, t, R.Observe(d, t), R.Observe(p, t))
  {}

  /** A statement without a kernel call. */
  lemma LocalRefines(w: World, hs: Handles)
    requires Coupled(w, hs) && w.k.running < |w.d.tasks| && CallOf(w.d, hs, w.k.running) == None
    ensures R.SizesOk(w.d) && Refines(w, hs, w.(d := Local(w.d, w.k.running)))
  {
    hide KInv.WF, RInv.Inv, Local, R.Next, Seen, CallOf;
    Runner(w, hs);
    Lists(w, hs);
    var t, p := w.k.running, Project(w, hs);
    LocalStep(w.d, p, t, hs);
    SeenStays(w, hs, Local(w.d, t));
  }

  /** The lists after a call on semaphore `h` by the running task `t`: others are as before. */
  ghost predicate OneChanges(w: World, hs: Handles, h: nat, w': World)
    requires Sems(w, hs) && Sems(w', hs)
  {
    && (h == hs.empty || h == hs.full || h == hs.mutex)
    && (h != hs.empty ==> w'.k.sems[hs.empty] == w.k.sems[hs.empty])
    && (h != hs.full ==> w'.k.sems[hs.full] == w.k.sems[hs.full])
    && (h != hs.mutex ==> w'.k.sems[hs.mutex] == w.k.sems[hs.mutex])
    && w.k.running < |w.d.tasks| == |w'.d.tasks|
    && w'.d.tasks == w.d.tasks[w.k.running := w'.d.tasks[w.k.running]]
    && w'.d.tasks[w.k.running].pc != R.WaitFirst && w'.d.tasks[w.k.running].pc != R.WaitMutex
  }

  /** The running task joins the list of `h`, or none. */
  lemma Joins(w: World, hs: Handles, h: nat, w': World, waits: bool)
    requires Coupled(w, hs) && Sems(w', hs) && OneChanges(w, hs, h, w')
    requires forall x :: x in w'.k.sems[h].list <==> x in w.k.sems[h].list || (x == w.k.running && waits)
    requires var y := w'.d.tasks[w.k.running];
             waits ==> if h == hs.mutex then y.pc == R.S1
                       else y.pc == R.PendMutex && y.role == if h == hs.empty then R.Producer else R.Consumer
    ensures var t, y := w.k.running, w'.d.tasks[w.k.running];
            && Waiters(w', hs)
            && Project(w', hs).tasks ==
               Project(w, hs).tasks[t := if !waits then y
                                         else y.(pc := if h == hs.mutex then R.WaitMutex else R.WaitFirst)]
  {
    hide KInv.WF, RInv.Inv;
    Lists(w, hs);
    var t, y := w.k.running, w'.d.tasks[w.k.running];
    forall x | 0 <= x < |w.d.tasks|
      ensures Seen(w', hs, x) == if x != t then Seen(w, hs, x)
                                 else if !waits then y.pc else if h == hs.mutex then R.WaitMutex else R.WaitFirst
    {
    }
    hide Seen;
  }

  /** The first waiter of `h`, if any, leaves its list. */
  lemma Leaves(w: World, hs: Handles, h: nat, w': World)
    requires Coupled(w, hs) && Sems(w', hs) && OneChanges(w, hs, h, w')
    requires forall x :: x in w'.k.sems[h].list <==> x in w.k.sems[h].list && x != w.k.sems[h].list[0]
    ensures var t, y, p, list := w.k.running, w'.d.tasks[w.k.running], Project(w, hs).tasks, w.k.sems[h].list;
            && Waiters(w', hs) && t < |p|
            && if list == [] then Project(w', hs).tasks == p[t := y]
               else list[0] < |p| && list[0] != t
                    && Project(w', hs).tasks ==
                       p[list[0] := p[list[0]].(pc := if h == hs.mutex then R.S1 else R.PendMutex)][t := y]
  {
    hide KInv.WF, RInv.Inv;
    Lists(w, hs);
    LeavesSeen(w, hs, h, w');
    LeavesWaiters(w, hs, h, w');
    var list := w.k.sems[h].list;
    if list != [] { assert list[0] in list; }
    hide Seen, NoDup;
  }

  lemma LeavesWaiters(w: World, hs: Handles, h: nat, w': World)
    requires Coupled(w, hs) && Sems(w', hs) && OneChanges(w, hs, h, w')
    requires forall x :: x in w'.k.sems[h].list <==> x in w.k.sems[h].list && x != w.k.sems[h].list[0]
    ensures Waiters(w', hs)
  {
    hide KInv.WF, RInv.Inv;
    Lists(w, hs);
  }

  lemma LeavesSeen(w: World, hs: Handles, h: nat, w': World)
    requires Coupled(w, hs) && Sems(w', hs) && OneChanges(w, hs, h, w')
    requires forall x :: x in w'.k.sems[h].list <==> x in w.k.sems[h].list && x != w.k.sems[h].list[0]
    ensures forall x :: 0 <= x < |w.d.tasks| ==>
              Seen(w', hs, x) == if x == w.k.running then w'.d.tasks[x].pc
                                 else if x in w.k.sems[h].list && x == w.k.sems[h].list[0] then w.d.tasks[x].pc
                                 else Seen(w, hs, x)
  {
    hide KInv.WF, RInv.Inv;
    Lists(w, hs);
  }

  lemma FirstPendRefines(w: World, hs: Handles)
    requires Coupled(w, hs) && w.k.running < |w.d.tasks| && w.d.tasks[w.k.running].pc == R.PendFirst
    requires CallOf(w.d, hs, w.k.running).Some? && K.Allowed(w.k, CallOf(w.d, hs, w.k.running).value)
    ensures R.SizesOk(w.d) && Refines(w, hs, NextWorld(w, hs, Statement))
  {
    hide KInv.WF, RInv.Inv, K.Next, K.Allowed, AfterPend, AfterPost, Waiters, Seen;
    var c, w' := CallOf(w.d, hs, w.k.running).value, NextWorld(w, hs, Statement);
    Runner(w, hs);
    Effect(w, hs, c);
    PendAppends(w, c.h);
    Joins(w, hs, c.h, w', w.k.sems[c.h].count == 0);
  }

  lemma MutexPendRefines(w: World, hs: Handles)
    requires Coupled(w, hs) && w.k.running < |w.d.tasks| && w.d.tasks[w.k.running].pc == R.PendMutex
    requires K.Allowed(w.k, CallOf(w.d, hs, w.k.running).value)
    ensures R.SizesOk(w.d) && Refines(w, hs, NextWorld(w, hs, Statement))
  {
    hide KInv.WF, RInv.Inv, K.Next, K.Allowed, AfterPend, AfterPost, Waiters, Seen;
    var c, w' := CallOf(w.d, hs, w.k.running).value, NextWorld(w, hs, Statement);
    Runner(w, hs);
    Effect(w, hs, c);
    PendAppends(w, c.h);
    Joins(w, hs, c.h, w', w.k.sems[c.h].count == 0);
  }

  /** In FIFO mode a pend that waits goes to the end of the list. */
  lemma PendAppends(w: World, h: nat)
    requires FifoCounting(w, h)
    ensures View(AfterPend(w.k, h, K.OS_WAIT_FOREVER)) == Pend(View(w.k.sems[h]), w.k.running)
    ensures forall x :: x in AfterPend(w.k, h, K.OS_WAIT_FOREVER).list <==>
              x in w.k.sems[h].list || (x == w.k.running && w.k.sems[h].count == 0)
  {
    var list := w.k.sems[h].list;
    assert Insert(list, |list|, w.k.running) == list + [w.k.running];
  }

  /** A post takes the first waiter off, or adds a token. */
  lemma PostShifts(w: World, h: nat)
    requires FifoCounting(w, h) && w.k.sems[h].count < K.OS_SEM_COUNT_MAX && NoDup(w.k.sems[h].list)
    ensures View(AfterPost(w.k, h)) == Post(View(w.k.sems[h]))
    ensures forall x :: x in AfterPost(w.k, h).list <==> x in w.k.sems[h].list && x != w.k.sems[h].list[0]
    ensures w.k.sems[h].list != [] ==> w.k.sems[h].list[0] in w.k.sems[h].list
  {
    if w.k.sems[h].list != [] { TailKeeps(w.k.sems[h].list); }
  }

  /** The tokens of the demonstration never exceed the ring, so its posts are effective. */
  lemma RoomForPost(p: R.State, t: nat)
    requires RInv.Inv(p) && t < |p.tasks| && |p.buf| <= K.OS_SEM_COUNT_MAX
    ensures p.tasks[t].pc == R.PostMutex ==> p.mutex.count < K.OS_SEM_COUNT_MAX
    ensures p.tasks[t].pc == R.PostSecond ==>
              && p.tasks[t].role != R.Observer
              && p.empty.count < K.OS_SEM_COUNT_MAX && p.full.count < K.OS_SEM_COUNT_MAX
  {
    RInv.Get(p, t);
    R.SumAtLeast(p.tasks, R.InCrit, t);
    R.SumAtLeast(p.tasks, R.Holds, t);
  }

  lemma MutexPostRefines(w: World, hs: Handles)
    requires Coupled(w, hs) && w.k.running < |w.d.tasks| && w.d.tasks[w.k.running].pc == R.PostMutex
    requires K.Allowed(w.k, K.CPost(hs.mutex))
    ensures R.SizesOk(w.d) && Refines(w, hs, NextWorld(w, hs, Statement))
  {
    hide KInv.WF, RInv.Inv, K.Next, K.Allowed, AfterPend, AfterPost, Waiters, Seen, NoDup;
    var w' := NextWorld(w, hs, Statement);
    Runner(w, hs);
    Lists(w, hs);
    RoomForPost(Project(w, hs), w.k.running);
    Effect(w, hs, K.CPost(hs.mutex));
    PostShifts(w, hs.mutex);
    Leaves(w, hs, hs.mutex, w');
  }

  lemma SecondPostRefines(w: World, hs: Handles)
    requires Coupled(w, hs) && w.k.running < |w.d.tasks| && w.d.tasks[w.k.running].pc == R.PostSecond
    requires K.Allowed(w.k, CallOf(w.d, hs, w.k.running).value)
    ensures R.SizesOk(w.d) && Refines(w, hs, NextWorld(w, hs, Statement))
  {
    hide KInv.WF, RInv.Inv, K.Next, K.Allowed, AfterPend, AfterPost, Waiters, Seen, NoDup, R.PostSecondStep, Project;
    Runner(w, hs);
    SecondPostEffect(w, hs);
    SecondPostIs(Project(w, hs), Project(NextWorld(w, hs, Statement), hs), w.k.running);
  }

  lemma SecondPostEffect(w: World, hs: Handles)
    requires Coupled(w, hs) && w.k.running < |w.d.tasks| && w.d.tasks[w.k.running].pc == R.PostSecond
    requires K.Allowed(w.k, CallOf(w.d, hs, w.k.running).value)
    ensures var w' := NextWorld(w, hs, Statement);
            && Sems(w', hs) && Waiters(w', hs)
            && w.k.running < |Project(w, hs).tasks|
            && SecondPosted(Project(w, hs), Project(w', hs), w.k.running)
  {
    hide KInv.WF, RInv.Inv, K.Next, K.Allowed, Waiters, Seen, NoDup, Post;
    var h, w' := SecondHandle(hs, w.d.tasks[w.k.running].role), NextWorld(w, hs, Statement);
    Runner(w, hs);
    SecondPostLists(w, hs);
    Leaves(w, hs, h, w');
    OnlyTasks(w, hs, w');
    SameView(w, hs);
    hide Project, View, OneChanges, Sems, FifoCounting, Local, Coupled;
  }

  lemma SecondPostLists(w: World, hs: Handles)
    requires Coupled(w, hs) && w.k.running < |w.d.tasks| && w.d.tasks[w.k.running].pc == R.PostSecond
    requires K.Allowed(w.k, CallOf(w.d, hs, w.k.running).value)
    ensures var h, w' := SecondHandle(hs, w.d.tasks[w.k.running].role), NextWorld(w, hs, Statement);
            && w.d.tasks[w.k.running].role != R.Observer
            && Sems(w', hs) && OneChanges(w, hs, h, w')
            && w'.d == w.d.(tasks := w'.d.tasks)
            && w'.d.tasks[w.k.running] == w.d.tasks[w.k.running].(pc := R.PendFirst, i := w.d.tasks[w.k.running].i + 1)
            && View(w'.k.sems[h]) == Post(View(w.k.sems[h]))
            && forall x :: x in w'.k.sems[h].list <==> x in w.k.sems[h].list && x != w.k.sems[h].list[0]
  {
    hide KInv.WF, RInv.Inv, K.Next, K.Allowed, AfterPend, AfterPost, Waiters, Seen, NoDup;
    Runner(w, hs);
    Lists(w, hs);
    RoomForPost(Project(w, hs), w.k.running);
    var h := SecondHandle(hs, w.d.tasks[w.k.running].role);
    Effect(w, hs, K.CPost(h));
    PostShifts(w, h);
    hide View, Post, Project;
  }

  /** The end of a round of task `t`, from `p` to `p'`: a token for the other side, or its first waiter woken. */
  ghost predicate SecondPosted(p: R.State, p': R.State, t: nat)
    requires t < |p.tasks|
  {
    var producer, y := p.tasks[t].role == R.Producer, p.tasks[t].(pc := R.PendFirst, i := p.tasks[t].i + 1);
    var q := if producer then p.full else p.empty;
    && p.tasks[t].role != R.Observer
    && p' == p.(empty := p'.empty, full := p'.full, tasks := p'.tasks)
    && p'.full == (if producer then Post(q) else p.full)
    && p'.empty == (if producer then p.empty else Post(q))
    && if q.waiters == [] then p'.tasks == p.tasks[t := y]
       else q.waiters[0] < |p.tasks| && q.waiters[0] != t
            && p'.tasks == p.tasks[q.waiters[0] := p.tasks[q.waiters[0]].(pc := R.PendMutex)][t := y]
  }

  lemma SecondPostIs(p: R.State, p': R.State, t: nat)
    requires t < |p.tasks| && SecondPosted(p, p', t)
    ensures p' == R.PostSecondStep(p, t)
  {
  }

  lemma SameView(w: World, hs: Handles)
    requires Sems(w, hs)
    ensures var p := Project(w, hs);
            && p.empty == View(w.k.sems[hs.empty]) && p.full == View(w.k.sems[hs.full])
            && p.mutex == View(w.k.sems[hs.mutex]) && |p.tasks| == |w.d.tasks|
    ensures forall h :: 0 <= h < |w.k.sems| ==> View(w.k.sems[h]).waiters == w.k.sems[h].list
  {
  }

  /** When only tasks and semaphores change, only they change in the projection. */
  lemma OnlyTasks(w: World, hs: Handles, w': World)
    requires Sems(w, hs) && Sems(w', hs) && w'.d == w.d.(tasks := w'.d.tasks)
    ensures Project(w', hs) == Project(w, hs).(empty := View(w'.k.sems[hs.empty]), full := View(w'.k.sems[hs.full]),
                                               mutex := View(w'.k.sems[hs.mutex]), tasks := Project(w', hs).tasks)
  {
  }

  /** Every act keeps the coupling. A statement is the step that RingSpec gives the running task; any other
      kernel call is no step at all. */
  lemma ActRefines(w: World, hs: Handles, a: Act)
    requires Coupled(w, hs) && Can(w, hs, a)
    ensures var w' := NextWorld(w, hs, a);
            && Coupled(w', hs)
            && Project(w', hs) == if a == Statement then R.Next(Project(w, hs), w.k.running) else Project(w, hs)
  {
    hide KInv.WF, RInv.Inv, K.Next, K.Allowed, Local, Seen;
    if a.Other? {
      OtherRefines(w, hs, a.c);
    } else {
      var t, w' := w.k.running, NextWorld(w, hs, a);
      Runner(w, hs);
      var x := w.d.tasks[t];
      if CallOf(w.d, hs, t) == None {
        LocalRefines(w, hs);
      } else {
        KInv.CallKeeps(w.k, CallOf(w.d, hs, t).value);
        if x.pc == R.PendFirst { FirstPendRefines(w, hs); }
        else if x.pc == R.PendMutex { MutexPendRefines(w, hs); }
        else if x.pc == R.PostMutex { MutexPostRefines(w, hs); }
        else { SecondPostRefines(w, hs); }
      }
      SameSizes(w.d, t);
      if x.pc != R.Done { RInv.StepInv(Project(w, hs), t); }
    }
  }

  lemma SameSizes(d: R.State, t: nat)
    requires t < |d.tasks| && R.SizesOk(d)
    ensures |Local(d, t).tasks| == |d.tasks| && |Local(d, t).buf| == |d.buf|
  {
  }

  // ----- whole runs -----

  function AfterActs(w: World, hs: Handles, acts: seq<Act>): World {
    if acts == [] then w else NextWorld(AfterActs(w, hs, acts[..|acts| - 1]), hs, acts[|acts| - 1])
  }

  ghost predicate AllCan(w: World, hs: Handles, acts: seq<Act>) {
    acts != [] ==>
      var front := acts[..|acts| - 1];
      AllCan(w, hs, front) && Can(AfterActs(w, hs, front), hs, acts[|acts| - 1])
  }

  /** Who ran at each statement. */
  function ScheduleOf(w: World, hs: Handles, acts: seq<Act>): seq<nat> {
    if acts == [] then []
    else
      var front := acts[..|acts| - 1];
      ScheduleOf(w, hs, front) + if acts[|acts| - 1] == Statement then [AfterActs(w, hs, front).k.running] else []
  }

  /** Every run on the kernel projects to a run of RingSpec, whatever other tasks do. */
  lemma {:induction false} RunRefines(w: World, hs: Handles, acts: seq<Act>)
    requires Coupled(w, hs) && AllCan(w, hs, acts)
    ensures Coupled(AfterActs(w, hs, acts), hs)
    ensures Project(AfterActs(w, hs, acts), hs) == R.After(Project(w, hs), ScheduleOf(w, hs, acts))
  {
    hide Coupled, Can, Project, NextWorld, R.Next;
    if acts != [] {
      var front, a := acts[..|acts| - 1], acts[|acts| - 1];
      RunRefines(w, hs, front);
      ActRefines(AfterActs(w, hs, front), hs, a);
      var sched := ScheduleOf(w, hs, front);
      if a == Statement {
        assert (sched + [AfterActs(w, hs, front).k.running])[..|sched|] == sched;
      } else {
        assert sched + [] == sched;
      }
    }
  }

  lemma CoupledSems(w: World, hs: Handles)
    requires Coupled(w, hs)
    ensures Sems(w, hs)
  {}

  /** A waiting task has moved as much as its program position says. */
  lemma SeenMoved(w: World, hs: Handles, t: nat)
    requires Coupled(w, hs) && t < |w.d.tasks|
    ensures var x, y := Project(w, hs).tasks[t], w.d.tasks[t];
            x.role == y.role && x.base == y.base && R.Moved(x) == R.Moved(y)
  {
    hide KInv.WF, RInv.Inv;
  }

  /** So the guarantees of the ring hold of it: from a fresh start, nothing is lost, duplicated or reordered, and
      each producer's items keep its own order. */
  lemma KernelRunsRing(w: World, hs: Handles, n: nat, acts: seq<Act>)
    requires Coupled(w, hs) && R.Init(Project(w, hs), n) && n > 0 && AllCan(w, hs, acts)
    ensures var d := AfterActs(w, hs, acts).d;
            && d.consumed <= RThm.Items(d.produced) && |d.produced| - |d.consumed| <= n == |d.buf|
            && d.tail == |d.consumed| % n && d.head == |d.produced| % n
            && (forall q :: |d.consumed| <= q < |d.produced| ==> d.buf[q % n] == RThm.Items(d.produced)[q])
            && forall t :: 0 <= t < |d.tasks| && d.tasks[t].role == R.Producer ==>
                 RInv.Made(d.produced, t) ==
                 seq(R.Moved(d.tasks[t]), j requires j >= 0 => d.tasks[t].base + j + 1)
  {
    hide Coupled, RInv.Made, R.Init, Project;
    var w' := AfterActs(w, hs, acts);
    RunRefines(w, hs, acts);
    SameVariables(w, hs);
    SameVariables(w', hs);
    RThm.RingRefinement(Project(w, hs), n, ScheduleOf(w, hs, acts));
    forall t | 0 <= t < |w'.d.tasks| && w'.d.tasks[t].role == R.Producer
      ensures RInv.Made(w'.d.produced, t) ==
              seq(R.Moved(w'.d.tasks[t]), j requires j >= 0 => w'.d.tasks[t].base + j + 1)
    {
      SeenMoved(w', hs, t);
    }
  }

  /** The projection has the variables of the demonstration. */
  lemma SameVariables(w: World, hs: Handles)
    requires Coupled(w, hs)
    ensures Sems(w, hs)
    ensures var p := Project(w, hs);
            && p.buf == w.d.buf && p.head == w.d.head && p.tail == w.d.tail
            && p.produced == w.d.produced && p.consumed == w.d.consumed && |p.tasks| == |w.d.tasks|
            && forall t :: 0 <= t < |w.d.tasks| ==>
                 p.tasks[t].i == w.d.tasks[t].i && p.tasks[t].quota == w.d.tasks[t].quota
                 && p.tasks[t].role == w.d.tasks[t].role
  {
    hide KInv.WF, RInv.Inv;
  }

  // ----- progress -----

  /** How many statements were made by tasks that had not finished. */
  function Steps(w: World, hs: Handles, acts: seq<Act>): nat {
    if acts == [] then 0
    else
      var front := acts[..|acts| - 1];
      var w1 := AfterActs(w, hs, front);
      Steps(w, hs, front) +
      if acts[|acts| - 1] == Statement && w1.k.running < |w1.d.tasks| && w1.d.tasks[w1.k.running].pc != R.Done
      then 1 else 0
  }

  /** However the kernel schedules and whatever else it is asked to do, the demonstration makes only so many steps. */
  lemma {:induction false} KernelRunsAreBounded(w: World, hs: Handles, acts: seq<Act>)
    requires Coupled(w, hs) && AllCan(w, hs, acts)
    ensures Coupled(AfterActs(w, hs, acts), hs) && Sems(w, hs) && Sems(AfterActs(w, hs, acts), hs)
    ensures Steps(w, hs, acts) + R.Sum(Project(AfterActs(w, hs, acts), hs).tasks, RThm.Left)
            <= R.Sum(Project(w, hs).tasks, RThm.Left)
  {
    hide Coupled, Can, Project, NextWorld, R.Next, R.Sum, RThm.Left;
    CoupledSems(w, hs);
    if acts != [] {
      var front, a := acts[..|acts| - 1], acts[|acts| - 1];
      KernelRunsAreBounded(w, hs, front);
      var w1 := AfterActs(w, hs, front);
      ActRefines(w1, hs, a);
      CoupledSems(NextWorld(w1, hs, a), hs);
      if a == Statement { StatementDecreases(w1, hs); }
    }
  }

  lemma StatementDecreases(w: World, hs: Handles)
    requires Coupled(w, hs)
    ensures Sems(w, hs) && w.k.running < |w.d.tasks|
    ensures var p, p' := Project(w, hs), R.Next(Project(w, hs), w.k.running);
            R.Sum(p'.tasks, RThm.Left) + (if w.d.tasks[w.k.running].pc != R.Done then 1 else 0)
            <= R.Sum(p.tasks, RThm.Left)
  {
    hide KInv.WF, RInv.Inv, R.Step, R.Sum, RThm.Left;
    Runner(w, hs);
    if w.d.tasks[w.k.running].pc != R.Done { RThm.StepDecreases(Project(w, hs), w.k.running); }
  }

  /** The demonstration is over: no rounds are left, every item is consumed in order, and the ring is empty. */
  ghost predicate Over(d: R.State) {
    && (forall t :: 0 <= t < |d.tasks| ==> d.tasks[t].i == d.tasks[t].quota)
    && d.consumed == RThm.Items(d.produced) && |d.consumed| == R.Sum(d.tasks, RThm.QuotaOut)
    && d.head == d.tail
  }

  /** Task `t` waits for one of the three semaphores. */
  predicate WaitsInRing(k: K.State, hs: Handles, t: nat) {
    && hs.empty < |k.sems| && hs.full < |k.sems| && hs.mutex < |k.sems|
    && (t in k.sems[hs.mutex].list || t in k.sems[hs.empty].list || t in k.sems[hs.full].list)
  }

  /** It cannot get stuck in the kernel's lists: when every task with rounds left waits for one of the three
      semaphores, there is none, and all is done. Other tasks, and control blocks never used, may be anywhere. */
  lemma KernelNoDeadlock(w: World, hs: Handles)
    requires Coupled(w, hs) && RThm.Balanced(Project(w, hs))
    requires forall t :: 0 <= t < |w.d.tasks| && w.d.tasks[t].i < w.d.tasks[t].quota ==> WaitsInRing(w.k, hs, t)
    ensures Over(w.d)
  {
    hide KInv.WF, RInv.Inv, R.Sum, RThm.QuotaIn, RThm.QuotaOut;
    var p := Project(w, hs);
    SameVariables(w, hs);
    assert RThm.NoneCanGoOn(p) by {
      forall t | 0 <= t < |p.tasks| && p.tasks[t].i < p.tasks[t].quota ensures !R.Enabled(p, t) {
        assert WaitsInRing(w.k, hs, t);
      }
    }
    RThm.NoneLeft(p);
    SameQuotas(w, hs);
    forall t | 0 <= t < |w.d.tasks| ensures w.d.tasks[t].i == w.d.tasks[t].quota {
      assert p.tasks[t].i == p.tasks[t].quota;
    }
  }

  lemma SameQuotas(w: World, hs: Handles)
    requires Coupled(w, hs)
    ensures R.Sum(Project(w, hs).tasks, RThm.QuotaOut) == R.Sum(w.d.tasks, RThm.QuotaOut)
  {
    hide KInv.WF, RInv.Inv;
    R.SumSame(w.d.tasks, Project(w, hs).tasks, RThm.QuotaOut);
  }

  /** Every run from a fresh start, whatever other tasks do: it makes at most so many steps, and whenever every task
      with rounds left waits for one of the three semaphores, all items are produced and consumed in order. */
  lemma KernelRingCompletes(w: World, hs: Handles, n: nat, acts: seq<Act>)
    requires Coupled(w, hs) && R.Init(Project(w, hs), n) && RThm.Balanced(Project(w, hs)) && AllCan(w, hs, acts)
    ensures Sems(w, hs) && Steps(w, hs, acts) <= R.Sum(Project(w, hs).tasks, RThm.Left)
    ensures var w' := AfterActs(w, hs, acts);
            (forall t :: 0 <= t < |w'.d.tasks| && w'.d.tasks[t].i < w'.d.tasks[t].quota ==> WaitsInRing(w'.k, hs, t))
            ==> Over(w'.d)
  {
    hide Coupled, R.Sum, RThm.Left, RThm.Balanced, Project, WaitsInRing, Over, RInv.Inv, R.Init;
    var w' := AfterActs(w, hs, acts);
    KernelRunsAreBounded(w, hs, acts);
    RunRefines(w, hs, acts);
    ProjectInv(w', hs);
    RThm.LeftIsNatural(Project(w', hs));
    RThm.BalancedOverRuns(Project(w, hs), ScheduleOf(w, hs, acts));
    if forall t :: 0 <= t < |w'.d.tasks| && w'.d.tasks[t].i < w'.d.tasks[t].quota ==> WaitsInRing(w'.k, hs, t) {
      KernelNoDeadlock(w', hs);
    }
  }

  lemma ProjectInv(w: World, hs: Handles)
    requires Coupled(w, hs)
    ensures RInv.Inv(Project(w, hs))
  {}

  // ----- the start -----

  /** That is where the demonstration starts, once its three semaphores have been created. */
  lemma StartIsCoupled(w: World, hs: Handles, n: nat)
    requires KInv.WF(w.k) && w.k.active && |w.d.tasks| == K.Tasks(w.k) && Sems(w, hs)
    requires View(w.k.sems[hs.empty]) == Queue(n, []) && View(w.k.sems[hs.full]) == Queue(0, [])
    requires View(w.k.sems[hs.mutex]) == Queue(1, [])
    requires 0 < n <= K.OS_SEM_COUNT_MAX
    requires R.Init(w.d.(empty := Queue(n, []), full := Queue(0, []), mutex := Queue(1, [])), n)
    ensures Coupled(w, hs) && R.Init(Project(w, hs), n)
  {
    hide KInv.WF, RInv.Inv;
    assert Project(w, hs).tasks == w.d.tasks;
    RInv.InitInv(Project(w, hs), n);
  }

  /** The three creations of the start function. */
  function CreateCalls(n: nat): seq<K.Call> {
    [K.CSemCreate(n, K.Counting, K.Fifo), K.CSemCreate(0, K.Counting, K.Fifo), K.CSemCreate(1, K.Counting, K.Fifo)]
  }

  lemma OneCreated(k: K.State, count: nat)
    requires KInv.WF(k) && k.freeSems != [] && count <= K.OS_SEM_COUNT_MAX
    ensures var c, h := K.CSemCreate(count, K.Counting, K.Fifo), k.freeSems[0];
            var k' := K.Next(k, c);
            && h < |k.sems|
            && K.Allowed(k, c) && KInv.WF(k') && k'.active == k.active && K.Tasks(k') == K.Tasks(k)
            && k'.sems == k.sems[h := K.Sem(true, count, [], None, K.Fifo, K.Counting)]
            && k'.freeSems == k.freeSems[1..]
  {
    KInv.StepWF(k, K.CSemCreate(count, K.Counting, K.Fifo));
    assert k.freeSems[0] in k.freeSems;
  }

  /** Where the creations lead. */
  lemma Created(k: K.State, n: nat)
    requires KInv.WF(k) && |k.freeSems| >= 3 && n <= K.OS_SEM_COUNT_MAX
    ensures K.AllAllowed(k, CreateCalls(n))
    ensures var k', e, f, m := K.After(k, CreateCalls(n)), k.freeSems[0], k.freeSems[1], k.freeSems[2];
            && KInv.WF(k') && k'.active == k.active && K.Tasks(k') == K.Tasks(k)
            && e < |k.sems| && f < |k.sems| && m < |k.sems|
            && k'.sems == k.sems[e := K.Sem(true, n, [], None, K.Fifo, K.Counting)]
                                [f := K.Sem(true, 0, [], None, K.Fifo, K.Counting)]
                                [m := K.Sem(true, 1, [], None, K.Fifo, K.Counting)]
  {
    hide KInv.WF, K.Next, K.Allowed;
    var calls := CreateCalls(n);
    assert calls[..2][..1] == calls[..1] && calls[..1][..0] == [] && calls[..3] == calls;
    var k1 := K.Next(k, calls[0]);
    var k2 := K.Next(k1, calls[1]);
    OneCreated(k, n);
    OneCreated(k1, 0);
    OneCreated(k2, 1);
    assert K.After(k, calls[..1]) == k1 && K.After(k, calls[..2]) == k2;
    assert K.AllAllowed(k, calls[..1]) && K.AllAllowed(k, calls[..2]);
  }

  /** From any running kernel with three free semaphores: the creations are allowed, and the demonstration's fresh
      variables and the kernel they lead to are coupled. */
  lemma StartFromCalls(k: K.State, d: R.State, n: nat)
    requires KInv.WF(k) && k.active && |k.freeSems| >= 3 && 0 < n <= K.OS_SEM_COUNT_MAX
    requires R.Init(d, n) && |d.tasks| == K.Tasks(k)
    ensures K.AllAllowed(k, CreateCalls(n))
    ensures var w, hs := World(K.After(k, CreateCalls(n)), d), Handles(k.freeSems[0], k.freeSems[1], k.freeSems[2]);
            Coupled(w, hs) && R.Init(Project(w, hs), n)
  {
    hide KInv.WF, RInv.Inv, K.After, K.AllAllowed, CreateCalls, Coupled, Project;
    Created(k, n);
    KInv.GetQueues(k);
    StartIsCoupled(World(K.After(k, CreateCalls(n)), d), Handles(k.freeSems[0], k.freeSems[1], k.freeSems[2]), n);
  }
}
