/**
  What happens to one semaphore over the runs of the kernel: tokens are conserved, and
  waiters are served in order.
  */
module SemTheorems {
  import opened Options
  import opened Queues
  import opened KernelSpec
  import opened KernelInv

  // ----- the effect of one call on one semaphore -----

  predicate IsUsed(s: State, h: nat) {
    h < |s.sems| && s.sems[h].used
  }

  /** A post that is not refused for overflow and does not hit a binary semaphore that is full. */
  predicate Effective(s: State, h: nat) {
    && IsUsed(s, h)
    && s.sems[h].count < OS_SEM_COUNT_MAX
    && !(s.sems[h].typ == Binary && s.sems[h].count == OS_SEM_FULL)
  }

  function AfterPend(s: State, h: nat, timeout: nat): Sem
    requires h < |s.sems|
  {
    var m := s.sems[h];
    if m.count > 0 then m.(count := m.count - 1, owner := Some(s.running))
    else if timeout == 0 then m
    else m.(list := Insert(m.list, PendPosition(s, h), s.running))
  }

  function AfterPost(s: State, h: nat): Sem
    requires h < |s.sems|
  {
    var m := s.sems[h];
    if !Effective(s, h) then m
    else if m.list != [] then m.(list := m.list[1..], owner := Some(m.list[0]))
    else m.(count := m.count + 1, owner := None)
  }

  /** A call changes a semaphore in use only if it pends on it or posts it. */
  lemma SemEffect(s: State, c: Call, h: nat)
    requires WF(s) && Allowed(s, c) && IsUsed(s, h)
    ensures var s' := Next(s, c);
            && |s'.sems| == |s.sems|
            && s'.sems[h] == if c.CPend? && c.h == h then AfterPend(s, h, c.timeout)
                             else if c.CPost? && c.h == h then AfterPost(s, h)
                             else s.sems[h]
  {
    hide WF, SemCreate, SemPend, SemPost, AfterPend, AfterPost;
    StepWF(s, c);
    match c
    case CSemCreate(count, typ, mode) => CreateEffect(s, count, typ, mode, h);
    case CTaskCreate(_, _) =>
    case CTaskResume(t) =>
    case CActivate =>
    case CPend(g, timeout) => PendEffect(s, g, timeout);
    case CPost(g) => PostEffect(s, g);
    case CExit =>
  }

  lemma CreateEffect(s: State, count: nat, typ: SemType, mode: SemMode, h: nat)
    requires WF(s) && IsUsed(s, h)
    ensures var s' := SemCreate(s, count, typ, mode).0;
            |s'.sems| == |s.sems| && s'.sems[h] == s.sems[h]
  {
    if s.freeSems != [] { assert s.freeSems[0] in s.freeSems; }
    GetSem(s, h);
  }

  lemma PendEffect(s: State, g: nat, timeout: nat)
    requires WF(s) && s.active && s.running < |s.tcbs|
    ensures IsUsed(s, g) ==> SemPend(s, g, timeout).0.sems == s.sems[g := AfterPend(s, g, timeout)]
    ensures !IsUsed(s, g) ==> SemPend(s, g, timeout).0.sems == s.sems
  {
    if IsUsed(s, g) && s.sems[g].count == 0 {
      var r := s.running;
      var s1 := ReadyDel(s, r);
      var s1' := SetTcb(s1, r, s1.tcbs[r].(status := s1.tcbs[r].status + {Pending}, taskSem := Some(g)));
      InsertAtFrame(s.tcbs, s1'.tcbs, s.sems[g].list, Prio(s.tcbs, r));
      InheritFrame(Enlist(s1, g), g, r);
      assert s.sems[g := s.sems[g]] == s.sems;
    }
  }

  lemma PostEffect(s: State, g: nat)
    requires WF(s)
    ensures IsUsed(s, g) ==> SemPost(s, g).0.sems == s.sems[g := AfterPost(s, g)]
    ensures !IsUsed(s, g) ==> SemPost(s, g).0.sems == s.sems
  {
    hide WF, HandOff, Restore, Schedule;
    if IsUsed(s, g) {
      RestoreSems(s, g);
      assert s.sems[g := s.sems[g]] == s.sems;
      if s.sems[g].list != [] { HandOffSems(s, g); }
    }
  }

  lemma RestoreSems(s: State, g: nat)
    requires WF(s) && IsUsed(s, g)
    ensures Restore(s, g).sems == s.sems
  {
    RestoreFrame(s, g);
  }

  lemma HandOffSems(s: State, g: nat)
    requires WF(s) && IsUsed(s, g) && s.sems[g].list != []
    ensures var m := s.sems[g];
            Schedule(HandOff(s, g)).sems == s.sems[g := m.(list := m.list[1..], owner := Some(m.list[0]))]
  {
    hide Restore;
    GetSem(s, g);
    RestoreFrame(s, g);
    var t := s.sems[g].list[0];
    assert t in s.sems[g].list;
    assert Remove(s.sems[g].list, t) == s.sems[g].list[1..];
  }

  // ----- what a post does to its owner's priority -----

  /** Nested use included: an effective post gives the owner its original priority back exactly when it
      was not raised, or when no waiter of this semaphore is more urgent than it is. Otherwise it
      rises to the most urgent waiter, and the boost outlives the ownership. */
  lemma PostPriority(s: State, h: nat, o: nat)
    requires WF(s) && Effective(s, h) && s.sems[h].owner == Some(o)
    ensures o < Tasks(s)
    ensures var s', m := SemPost(s, h).0, MinPrio(s.tcbs, s.sems[h].list);
            var p, own := s.tcbs[o].priority, s.tcbs[o].originalPriority;
            && o < |s'.tcbs|
            && s'.tcbs[o].priority == (if p == own || p <= m then own else m)
            && (s'.tcbs[o].priority == own <==> p == own || p <= m)
  {
    hide WF, Schedule, Restore, FirstMin, HandOff;
    Owner(s, h, o);
    var s1 := Restore(s, h);
    RestoreValue(s, h, o);
    if s.sems[h].list != [] {
      RestoreFrame(s, h);
      HandOffKeeps(s, h, o);
      ScheduleKeeps(HandOff(s, h), o);
    }
  }

  lemma Owner(s: State, h: nat, o: nat)
    requires WF(s) && IsUsed(s, h) && s.sems[h].owner == Some(o)
    ensures o < Tasks(s) && s.tcbs[o].status != {} && s.tcbs[o].priority <= s.tcbs[o].originalPriority
  {
    GetSem(s, h);
    GetTask(s, o);
  }

  lemma RestoreValue(s: State, h: nat, o: nat)
    requires h < |s.sems| && s.sems[h].owner == Some(o) && o < |s.tcbs| && s.tcbs[o].status != {}
    ensures var m := MinPrio(s.tcbs, s.sems[h].list);
            var p, own := s.tcbs[o].priority, s.tcbs[o].originalPriority;
            && |Restore(s, h).tcbs| == |s.tcbs|
            && Restore(s, h).tcbs[o].priority == (if p == own || p <= m then own else m)
  {
    hide FirstMin, Remove, MinPrio;
  }

  lemma HandOffKeeps(s: State, h: nat, o: nat)
    requires h < |s.sems| && s.sems[h].list != [] && SameButPriority(s, Restore(s, h))
    requires o < |Restore(s, h).tcbs|
    ensures |HandOff(s, h).tcbs| == |Restore(s, h).tcbs|
    ensures HandOff(s, h).tcbs[o].priority == Restore(s, h).tcbs[o].priority
  {
    hide FirstMin, Remove, Restore;
  }

  lemma ScheduleKeeps(s: State, o: nat)
    requires o < |s.tcbs|
    ensures o < |Schedule(s).tcbs| && Schedule(s).tcbs[o].priority == s.tcbs[o].priority
  {
    hide FirstMin;
  }

  // ----- conservation of tokens -----

  /** Tokens put into `h` by the call. */
  function Posted(s: State, c: Call, h: nat): nat {
    if c.CPost? && c.h == h && Effective(s, h) then 1 else 0
  }

  /** Pends on `h` that the call completes: the caller's, if it gets through without waiting, or those of
      the waiters that leave the list. */
  function Completed(s: State, c: Call, h: nat): int {
    var s' := Next(s, c);
    if h >= |s.sems| || h >= |s'.sems| then 0
    else if c.CPend? && c.h == h then
      if !(c.timeout == 0 && s.sems[h].count == 0) && s.running !in s'.sems[h].list then 1 else 0
    else |s.sems[h].list| - |s'.sems[h].list|
  }

  /** What goes in comes out or stays, in one call; and tasks wait only where no token is. */
  lemma TokensConserved(s: State, c: Call, h: nat)
    requires WF(s) && Allowed(s, c) && IsUsed(s, h)
    ensures IsUsed(Next(s, c), h)
    ensures Next(s, c).sems[h].count + Completed(s, c, h) == s.sems[h].count + Posted(s, c, h)
    ensures Next(s, c).sems[h].list != [] ==> Next(s, c).sems[h].count == 0
    ensures Next(s, c).sems[h].count <= OS_SEM_COUNT_MAX
  {
    hide Next, WF, Insert, PendPosition;
    SemEffect(s, c, h);
    SemBounds(s, c, h);
    if c.CPend? && c.h == h { PendBalance(s, h, c.timeout); }
  }

  /** The invariant's view of `h` before and after a call. */
  lemma SemBounds(s: State, c: Call, h: nat)
    requires WF(s) && Allowed(s, c) && IsUsed(s, h)
    ensures IsUsed(Next(s, c), h)
    ensures var m := Next(s, c).sems[h]; (m.list != [] ==> m.count == 0) && m.count <= OS_SEM_COUNT_MAX
    ensures s.sems[h].list != [] ==> s.sems[h].count == 0
  {
    hide Next;
    StepWF(s, c);
    SemEffect(s, c, h);
    GetSem(s, h);
    GetSem(Next(s, c), h);
  }

  lemma PendBalance(s: State, h: nat, timeout: nat)
    requires WF(s) && Allowed(s, CPend(h, timeout)) && IsUsed(s, h)
    ensures var m, m' := s.sems[h], AfterPend(s, h, timeout);
            && s.running !in m.list
            && m'.count == (if m.count > 0 then m.count - 1 else 0)
            && (s.running in m'.list <==> m.count == 0 && timeout != 0)
  {
    GetSem(s, h);
    GetTask(s, s.running);
    var m, k := s.sems[h], PendPosition(s, h);
    assert Insert(m.list, k, s.running)[k] == s.running;
  }

  function TotalPosted(s: State, calls: seq<Call>, h: nat): nat {
    if calls == [] then 0
    else
      var front := calls[..|calls| - 1];
      TotalPosted(s, front, h) + Posted(After(s, front), calls[|calls| - 1], h)
  }

  function TotalCompleted(s: State, calls: seq<Call>, h: nat): int {
    if calls == [] then 0
    else
      var front := calls[..|calls| - 1];
      TotalCompleted(s, front, h) + Completed(After(s, front), calls[|calls| - 1], h)
  }

  /** Over a whole run: initial count plus effective posts is the final count plus the completed pends. */
  lemma {:induction false} TokensConservedOverRuns(s: State, calls: seq<Call>, h: nat)
    requires WF(s) && AllAllowed(s, calls) && IsUsed(s, h)
    ensures IsUsed(After(s, calls), h)
    ensures After(s, calls).sems[h].count + TotalCompleted(s, calls, h) == s.sems[h].count + TotalPosted(s, calls, h)
  {
    if calls != [] {
      var front := calls[..|calls| - 1];
      TokensConservedOverRuns(s, front, h);
      ReachableWF(s, front);
      TokensConserved(After(s, front), calls[|calls| - 1], h);
    }
  }

  // ----- waiting in order -----

  /** One call: a waiter in FIFO mode moves up by one with an effective post, and otherwise stays. */
  lemma FifoStep(s: State, c: Call, h: nat, k: nat)
    requires WF(s) && Allowed(s, c) && IsUsed(s, h) && s.sems[h].mode == Fifo && k < |s.sems[h].list|
    requires Posted(s, c, h) <= k
    ensures IsUsed(Next(s, c), h) && Next(s, c).sems[h].mode == Fifo
    ensures var k' := k - Posted(s, c, h);
            k' < |Next(s, c).sems[h].list| && Next(s, c).sems[h].list[k'] == s.sems[h].list[k]
  {
    hide Next, WF;
    SemEffect(s, c, h);
  }

  /** Over a run the position falls by one with each effective post and never rises. */
  lemma {:induction false} FifoPosition(s: State, calls: seq<Call>, h: nat, k: nat)
    requires WF(s) && AllAllowed(s, calls) && IsUsed(s, h) && s.sems[h].mode == Fifo && k < |s.sems[h].list|
    requires TotalPosted(s, calls, h) <= k
    ensures IsUsed(After(s, calls), h) && After(s, calls).sems[h].mode == Fifo
    ensures var k' := k - TotalPosted(s, calls, h);
            k' < |After(s, calls).sems[h].list| && After(s, calls).sems[h].list[k'] == s.sems[h].list[k]
  {
    hide Next, WF, Posted, Allowed;
    if calls != [] {
      var front := calls[..|calls| - 1];
      FifoPosition(s, front, h, k);
      ReachableWF(s, front);
      FifoStep(After(s, front), calls[|calls| - 1], h, k - TotalPosted(s, front, h));
    }
  }

  /** The post that serves the first waiter makes it the owner, ready, and takes it off the list. */
  lemma FirstIsServed(s: State, h: nat)
    requires WF(s) && IsUsed(s, h) && s.sems[h].list != []
    ensures Effective(s, h)
    ensures var t, s' := s.sems[h].list[0], Next(s, CPost(h));
            && IsUsed(s', h) && s'.sems[h].owner == Some(t) && t !in s'.sems[h].list && t in s'.runQueue
  {
    hide WF, Next, AfterPost;
    var t := s.sems[h].list[0];
    FirstFacts(s, h);
    SemEffect(s, CPost(h), h);
    FirstReadied(s, h);
    assert AfterPost(s, h) == s.sems[h].(list := s.sems[h].list[1..], owner := Some(t)) by { HandedOn(s, h); }
    SemBounds(s, CPost(h), h);
    TailKeeps(s.sems[h].list);
  }

  lemma HandedOn(s: State, h: nat)
    requires Effective(s, h) && s.sems[h].list != []
    ensures AfterPost(s, h) == s.sems[h].(list := s.sems[h].list[1..], owner := Some(s.sems[h].list[0]))
  {
  }

  lemma FirstFacts(s: State, h: nat)
    requires WF(s) && IsUsed(s, h) && s.sems[h].list != []
    ensures Effective(s, h) && NoDup(s.sems[h].list) && s.running < |s.tcbs|
  {
    GetSem(s, h);
    if s.active { GetTask(s, s.running); }
  }

  /** The post that finds a waiter puts it on the run queue. */
  lemma FirstReadied(s: State, h: nat)
    requires WF(s) && IsUsed(s, h) && s.sems[h].list != []
    ensures Effective(s, h) && s.sems[h].list[0] in Next(s, CPost(h)).runQueue
  {
    hide Restore, PendListGet;
    GetSem(s, h);
    FirstFacts(s, h);
    RestoreCore(s, h);
    RestoreFrame(s, h);
    DequeueReadies(Restore(s, h), h);
    ScheduleQueue(HandOff(s, h));
  }

  lemma DequeueReadies(s: State, h: nat)
    requires Core(s) && h < |s.sems| && s.sems[h].list != []
    ensures s.sems[h].list[0] in PendListGet(s, h).runQueue
  {
    GetSem(s, h);
    assert s.sems[h].list[0] in s.sems[h].list;
    GetTask(s, s.sems[h].list[0]);
  }

  lemma ScheduleQueue(s: State)
    ensures Schedule(s).runQueue == s.runQueue
  {}

  /** A task with k waiters ahead gets the semaphore at exactly the (k+1)-th effective post: until then it
      waits, and that post makes it the owner. */
  lemma FifoBoundedWait(s: State, calls: seq<Call>, h: nat, k: nat)
    requires WF(s) && IsUsed(s, h) && s.sems[h].mode == Fifo && k < |s.sems[h].list|
    requires AllAllowed(s, calls + [CPost(h)]) && TotalPosted(s, calls, h) == k
    ensures var t, s1, s2 := s.sems[h].list[k], After(s, calls), After(s, calls + [CPost(h)]);
            && IsUsed(s1, h) && IsUsed(s2, h)
            && t in s1.sems[h].list && Effective(s1, h)
            && s2.sems[h].owner == Some(t) && t !in s2.sems[h].list && t in s2.runQueue
  {
    hide Next, WF, Effective;
    var all := calls + [CPost(h)];
    assert all[..|all| - 1] == calls;
    FifoPosition(s, calls, h, k);
    ReachableWF(s, calls);
    FirstIsServed(After(s, calls), h);
  }

  // ----- the semaphore as an object of its own -----

  /** A counting semaphore in FIFO mode, without the rest of the kernel. */
  datatype Queue = Queue(count: nat, waiters: seq<nat>)

  function Pend(q: Queue, t: nat): Queue {
    if q.count > 0 then q.(count := q.count - 1) else q.(waiters := q.waiters + [t])
  }

  function Post(q: Queue): Queue {
    if q.waiters != [] then q.(waiters := q.waiters[1..]) else q.(count := q.count + 1)
  }

  function View(m: Sem): Queue {
    Queue(m.count, m.list)
  }

  /** The kernel's counting semaphores in FIFO mode behave like that object, whatever else happens. */
  lemma KernelRefinesQueue(s: State, c: Call, h: nat)
    requires WF(s) && Allowed(s, c) && IsUsed(s, h) && s.sems[h].mode == Fifo && s.sems[h].typ == Counting
    requires c == CPost(h) ==> s.sems[h].count < OS_SEM_COUNT_MAX
    ensures IsUsed(Next(s, c), h) && Next(s, c).sems[h].mode == Fifo && Next(s, c).sems[h].typ == Counting
    ensures View(Next(s, c).sems[h]) ==
            if c == CPend(h, OS_WAIT_FOREVER) then Pend(View(s.sems[h]), s.running)
            else if c == CPost(h) then Post(View(s.sems[h]))
            else if c == CPend(h, 0) && s.sems[h].count > 0 then Pend(View(s.sems[h]), s.running)
            else View(s.sems[h])
  {
    SemEffect(s, c, h);
    if c.CPend? && c.h == h && s.sems[h].count == 0 {
      assert Insert(s.sems[h].list, |s.sems[h].list|, s.running) == s.sems[h].list + [s.running];
    }
  }
}
