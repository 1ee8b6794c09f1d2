/**
  What the ring demonstration guarantees: nothing is lost, duplicated, reordered or overwritten,
  it cannot get stuck, and it ends with every item consumed.
  */
module RingTheorems {
  import opened RingSpec
  import opened RingInv
  import Sem = SemTheorems

  /** The items of a log. */
  function Items(log: seq<Entry>): seq<nat> {
    seq(|log|, q requires 0 <= q < |log| => log[q].item)
  }

  // ----- safety -----

  /** For every ring size, every number of tasks, every quota and every interleaving: what has been
      consumed is a prefix of what has been produced, the rest lies in the slots from tail to head,
      there are never more than N such items, and each producer's items keep their order. */
  lemma RingRefinement(s: State, n: nat, schedule: seq<nat>)
    requires Init(s, n) && n > 0
    ensures var s' := After(s, schedule);
            && s'.consumed <= Items(s'.produced)
            && |s'.buf| == n && |s'.produced| - |s'.consumed| <= n
            && s'.tail == |s'.consumed| % n && s'.head == |s'.produced| % n
            && (forall q :: |s'.consumed| <= q < |s'.produced| ==> s'.buf[q % n] == Items(s'.produced)[q])
            && (forall t :: 0 <= t < |s'.tasks| && s'.tasks[t].role == Producer ==>
                  Made(s'.produced, t) ==
                  seq(Moved(s'.tasks[t]), j requires j >= 0 => s'.tasks[t].base + j + 1))
  {
    var s' := After(s, schedule);
    InitInv(s, n);
    RunInv(s, schedule);
    SameShapeOverRuns(s, schedule);
    assert s'.consumed == Items(s'.produced)[..|s'.consumed|];
    forall t | 0 <= t < |s'.tasks| && s'.tasks[t].role == Producer
      ensures OrderOk(s', t)
    {
      Get(s', t);
    }
  }

  /** When a producer writes its slot, the slot holds no item that is still to be consumed. */
  lemma NeverOverwritesUnread(s: State, t: nat, q: nat)
    requires Inv(s) && t < |s.tasks| && s.tasks[t].role == Producer && s.tasks[t].pc == S1
    requires |s.consumed| <= q < |s.produced|
    ensures s.head != q % |s.buf|
  {
    RoomAndItems(s, t);
    SlotsDistinct(|s.produced|, q, |s.buf|);
  }

  /** The statistics are a consistent picture of one moment: indices, totals, and slots agree. */
  lemma StatsAreConsistent(s: State, t: nat)
    requires Inv(s) && t < |s.tasks| && s.tasks[t].role == Observer && s.tasks[t].pc == PostMutex
    ensures var k, n := s.tasks[t].snap, |s.buf|;
            && k.write == k.produced % n && k.read == k.consumed % n
            && k.consumed <= k.produced <= k.consumed + n
            && k.produced == |s.produced| && k.consumed == |s.consumed|
            && |k.per| == |s.tasks| && |k.buffer| == n
            && (forall q :: k.consumed <= q < k.produced ==> k.buffer[q % n] == Items(s.produced)[q])
            && (forall x :: 0 <= x < |s.tasks| && s.tasks[x].role == Producer ==> k.per[x] == |Made(s.produced, x)|)
            && (forall x :: 0 <= x < |s.tasks| && s.tasks[x].role == Consumer ==> k.per[x] == MovedOut(s.tasks[x]))
            && k.consumed == Sum(s.tasks, MovedOut)
  {
    Get(s, t);
    Totals(s);
    forall x | 0 <= x < |s.tasks|
      ensures UncountedIn(s.tasks[x]) == 0 && UncountedOut(s.tasks[x]) == 0
      ensures s.tasks[x].role == Producer ==> s.per[x] == |Made(s.produced, x)|
      ensures s.tasks[x].role == Consumer ==> s.per[x] == MovedOut(s.tasks[x])
    {
      CountsAgree(s, t, x);
    }
    hide MovedOut, Made;
    SumOfZero(s.tasks, UncountedIn);
    SumOfZero(s.tasks, UncountedOut);
  }

  /** While a reader has the mutex, every task has counted what it has moved. */
  lemma CountsAgree(s: State, t: nat, x: nat)
    requires Inv(s) && t < |s.tasks| && s.tasks[t].role == Observer && s.tasks[t].pc == PostMutex && x < |s.tasks|
    ensures UncountedIn(s.tasks[x]) == 0 && UncountedOut(s.tasks[x]) == 0
    ensures s.tasks[x].role == Producer ==> s.per[x] == |Made(s.produced, x)|
    ensures s.tasks[x].role == Consumer ==> s.per[x] == MovedOut(s.tasks[x])
  {
    Get(s, x);
    if x != t { MutualExclusion(s, t, x); }
  }

  // ----- progress -----

  function QuotaIn(k: Task): int {
    if k.role == Producer then k.quota else 0
  }

  function QuotaOut(k: Task): int {
    if k.role == Consumer then k.quota else 0
  }

  /** The producers together make as many rounds as the consumers. */
  ghost predicate Balanced(s: State) {
    Sum(s.tasks, QuotaIn) == Sum(s.tasks, QuotaOut)
  }

  ghost predicate SameShape(s: State, s': State) {
    && |s'.tasks| == |s.tasks| && |s'.buf| == |s.buf|
    && forall t :: 0 <= t < |s.tasks| ==>
         && s'.tasks[t].role == s.tasks[t].role
         && s'.tasks[t].quota == s.tasks[t].quota
         && s'.tasks[t].base == s.tasks[t].base
  }

  lemma StepSameShape(s: State, t: nat)
    ensures SameShape(s, Next(s, t))
  {
    hide PendFirstStep, PendMutexStep, PostMutexStep, PostSecondStep, Produce, Consume, Observe;
    if Enabled(s, t) && SizesOk(s) {
      PendShape(s, t);
      PostShape(s, t);
      CritShape(s, t);
    }
  }

  lemma PendShape(s: State, t: nat)
    requires t < |s.tasks|
    ensures SameShape(s, PendFirstStep(s, t)) && SameShape(s, PendMutexStep(s, t))
  {}

  lemma PostShape(s: State, t: nat)
    requires t < |s.tasks|
    ensures SameShape(s, PostMutexStep(s, t)) && SameShape(s, PostSecondStep(s, t))
  {
    hide Wake;
    WakeShape(s.(mutex := Sem.Post(s.mutex)), s.mutex, S1);
    var other := if s.tasks[t].role == Producer then Consumer else Producer;
    WakeShape(SetFirst(s, other, Sem.Post(First(s, other))), First(s, other), PendMutex);
  }

  lemma WakeShape(s: State, q: Sem.Queue, pc: Pc)
    ensures SameShape(s, Wake(s, q, pc)) && Wake(s, q, pc).buf == s.buf
  {}

  lemma CritShape(s: State, t: nat)
    requires t < |s.tasks| && SizesOk(s)
    ensures SameShape(s, Produce(s, t)) && SameShape(s, Consume(s, t)) && SameShape(s, Observe(s, t))
  {}

  lemma {:induction false} SameShapeOverRuns(s: State, schedule: seq<nat>)
    ensures SameShape(s, After(s, schedule))
  {
    if schedule != [] {
      var front := schedule[..|schedule| - 1];
      SameShapeOverRuns(s, front);
      StepSameShape(After(s, front), schedule[|schedule| - 1]);
    }
  }

  lemma BalancedOverRuns(s: State, schedule: seq<nat>)
    requires Balanced(s)
    ensures Balanced(After(s, schedule))
  {
    SameShapeOverRuns(s, schedule);
    SumSame(s.tasks, After(s, schedule).tasks, QuotaIn);
    SumSame(s.tasks, After(s, schedule).tasks, QuotaOut);
  }

  ghost predicate Stuck(s: State) {
    forall t :: 0 <= t < |s.tasks| ==> !Enabled(s, t)
  }

  ghost predicate Finished(s: State) {
    forall t :: 0 <= t < |s.tasks| ==> s.tasks[t].pc == Done
  }

  /** When no task can step, no task is past a pend: the mutex is free and all tokens lie in the semaphores. */
  lemma StuckTokens(s: State)
    requires Inv(s) && Stuck(s)
    ensures s.mutex.count == 1 && s.empty.count + s.full.count == |s.buf|
    ensures |s.produced| - |s.consumed| == s.full.count
    ensures forall t :: 0 <= t < |s.tasks| ==> s.tasks[t].pc == Done || s.tasks[t].pc == WaitFirst
  {
    forall t | 0 <= t < |s.tasks|
      ensures s.tasks[t].pc in {Done, WaitFirst, WaitMutex}
    {
      assert !Enabled(s, t);
    }
    SumOfZero(s.tasks, InCrit);
    forall t | 0 <= t < |s.tasks|
      ensures s.tasks[t].pc == Done || s.tasks[t].pc == WaitFirst
    {
      Get(s, t);
    }
    SumOfZero(s.tasks, Holds);
    SumOfZero(s.tasks, Promised);
    SumOfZero(s.tasks, Unannounced);
  }

  /** How far a task has come that waits for its first semaphore or has finished. */
  lemma RestingTask(s: State, x: nat)
    requires Inv(s) && x < |s.tasks| && s.tasks[x].pc in {Done, WaitFirst}
    ensures MovedIn(s.tasks[x]) <= QuotaIn(s.tasks[x]) && MovedOut(s.tasks[x]) <= QuotaOut(s.tasks[x])
    ensures s.tasks[x].pc == WaitFirst && s.tasks[x].role == Producer ==>
              s.empty.count == 0 && MovedIn(s.tasks[x]) < QuotaIn(s.tasks[x])
    ensures s.tasks[x].pc == WaitFirst && s.tasks[x].role == Consumer ==>
              s.full.count == 0 && MovedOut(s.tasks[x]) < QuotaOut(s.tasks[x])
    ensures s.tasks[x].pc == Done || s.tasks[x].role == Consumer ==> MovedIn(s.tasks[x]) == QuotaIn(s.tasks[x])
    ensures s.tasks[x].pc == Done || s.tasks[x].role == Producer ==> MovedOut(s.tasks[x]) == QuotaOut(s.tasks[x])
  {
    hide SumsOk, BufferOk, OrderOk;
    Get(s, x);
  }

  /** Nothing waits for an empty slot when nothing can step. */
  lemma NoProducerStuck(s: State, t: nat)
    requires Inv(s) && Stuck(s) && Balanced(s) && t < |s.tasks| && s.tasks[t].role == Producer
    ensures s.tasks[t].pc == Done
  {
    StuckTokens(s);
    Totals(s);
    if s.tasks[t].pc == WaitFirst {
      hide Inv, Sum, Stuck, MovedIn, MovedOut, QuotaIn, QuotaOut;
      RestingTask(s, t);
      forall x | 0 <= x < |s.tasks|
        ensures MovedIn(s.tasks[x]) <= QuotaIn(s.tasks[x])
        ensures QuotaOut(s.tasks[x]) <= MovedOut(s.tasks[x])
      {
        RestingTask(s, x);
      }
      SumPointwise(s.tasks, MovedIn, QuotaIn);
      SumPointwise(s.tasks, QuotaOut, MovedOut);
      assert false;
    }
  }

  lemma NoConsumerStuck(s: State, t: nat)
    requires Inv(s) && Stuck(s) && Balanced(s) && t < |s.tasks| && s.tasks[t].role == Consumer
    ensures s.tasks[t].pc == Done
  {
    StuckTokens(s);
    Totals(s);
    if s.tasks[t].pc == WaitFirst {
      hide Inv, Sum, Stuck, MovedIn, MovedOut, QuotaIn, QuotaOut;
      RestingTask(s, t);
      forall x | 0 <= x < |s.tasks|
        ensures QuotaIn(s.tasks[x]) <= MovedIn(s.tasks[x])
        ensures MovedOut(s.tasks[x]) <= QuotaOut(s.tasks[x])
      {
        RestingTask(s, x);
      }
      SumPointwise(s.tasks, QuotaIn, MovedIn);
      SumPointwise(s.tasks, MovedOut, QuotaOut);
      assert false;
    }
  }

  /** What the log lengths are. */
  lemma Totals(s: State)
    requires Inv(s)
    ensures |s.produced| == Sum(s.tasks, MovedIn) && |s.consumed| == Sum(s.tasks, MovedOut) && |s.buf| > 0
  {}

  /** No deadlock: with equal total quotas, a state in which no task can step is one in which all have finished. */
  lemma NoDeadlock(s: State)
    requires Inv(s) && Balanced(s) && Stuck(s)
    ensures Finished(s)
  {
    StuckTokens(s);
    forall t | 0 <= t < |s.tasks| ensures s.tasks[t].pc == Done {
      Get(s, t);
      if s.tasks[t].role == Producer { NoProducerStuck(s, t); }
      else if s.tasks[t].role == Consumer { NoConsumerStuck(s, t); }
    }
  }

  /** At the end every item that was to be produced has been produced and consumed, in order, and the ring is empty. */
  lemma FinishedIsComplete(s: State)
    requires Inv(s) && Balanced(s) && Finished(s)
    ensures s.consumed == Items(s.produced) && |s.consumed| == Sum(s.tasks, QuotaOut)
    ensures s.head == s.tail && s.empty.count == |s.buf| && s.full.count == 0 && s.mutex.count == 1
    ensures s.producedTotal == s.consumedTotal == |s.consumed|
  {
    hide Sum, Inv, MovedIn, MovedOut, QuotaIn, QuotaOut;
    forall t | 0 <= t < |s.tasks| ensures !Enabled(s, t) {}
    StuckTokens(s);
    FinishedTotals(s);
    FinishedCounts(s);
    Prefix(s);
  }

  /** Every finished task has moved its quota. */
  lemma FinishedTotals(s: State)
    requires Inv(s) && Finished(s)
    ensures |s.produced| == Sum(s.tasks, QuotaIn) && |s.consumed| == Sum(s.tasks, QuotaOut)
  {
    hide Sum, Inv, MovedIn, MovedOut, QuotaIn, QuotaOut;
    Totals(s);
    forall x | 0 <= x < |s.tasks|
      ensures MovedIn(s.tasks[x]) == QuotaIn(s.tasks[x]) && MovedOut(s.tasks[x]) == QuotaOut(s.tasks[x])
    {
      RestingTask(s, x);
    }
    SumPointwise(s.tasks, MovedIn, QuotaIn);
    SumPointwise(s.tasks, QuotaIn, MovedIn);
    SumPointwise(s.tasks, MovedOut, QuotaOut);
    SumPointwise(s.tasks, QuotaOut, MovedOut);
  }

  lemma FinishedCounts(s: State)
    requires Inv(s) && Finished(s)
    ensures s.producedTotal == |s.produced| && s.consumedTotal == |s.consumed|
  {
    hide Sum, LocalOk, Waiting, BufferOk, QueueOk;
    SumOfZero(s.tasks, UncountedIn);
    SumOfZero(s.tasks, UncountedOut);
  }

  /** What the buffer part of the invariant says when everything has been consumed. */
  lemma Prefix(s: State)
    requires Inv(s)
    ensures |s.consumed| == |s.produced| ==> s.consumed == Items(s.produced) && s.head == s.tail
  {
    hide SumsOk, QueueOk, TaskOk, OrderOk;
  }

  /** No task that has rounds left can step. Tasks without, like those that never were part of it, may be anywhere. */
  ghost predicate NoneCanGoOn(s: State) {
    forall t :: 0 <= t < |s.tasks| && s.tasks[t].i < s.tasks[t].quota ==> !Enabled(s, t)
  }

  /** All rounds have been made: everything is consumed in order, and the ring is empty. */
  ghost predicate Complete(s: State) {
    && (forall t :: 0 <= t < |s.tasks| ==> s.tasks[t].i == s.tasks[t].quota)
    && s.consumed == Items(s.produced) && |s.consumed| == Sum(s.tasks, QuotaOut)
    && s.head == s.tail
    && s.empty.count == |s.buf| && s.full.count == 0 && s.mutex.count == 1
  }

  // ----- termination -----

  function Rank(pc: Pc): nat {
    match pc
    case PendFirst => 12
    case WaitFirst => 11
    case PendMutex => 10
    case WaitMutex => 9
    case S1 => 8
    case S2 => 7
    case S3 => 6
    case S4 => 5
    case PostMutex => 4
    case PostSecond => 3
    case Done => 0
  }

  /** A bound on the statements a task has still to execute. */
  function Left(k: Task): int {
    12 * (k.quota - k.i) + Rank(k.pc)
  }

  /** A step moves its own task on. */
  lemma StepLeft(s: State, t: nat)
    requires Inv(s) && Enabled(s, t)
    ensures Left(Next(s, t).tasks[t]) < Left(s.tasks[t])
  {
    hide SumsOk, BufferOk, OrderOk, Waiting;
    Get(s, t);
    if s.tasks[t].pc == PostMutex { MutexWaiter(s, t); }
    if s.tasks[t].pc == PostSecond { SecondWaiter(s, t); }
  }

  /** A woken task goes on behind its pend. */
  lemma WokenLeft(k: Task)
    ensures k.pc == WaitMutex ==> Left(k.(pc := S1)) < Left(k)
    ensures k.pc == WaitFirst ==> Left(k.(pc := PendMutex)) < Left(k)
  {}

  /** Every step of an enabled task brings the end nearer. */
  lemma StepDecreases(s: State, t: nat)
    requires Inv(s) && Enabled(s, t)
    ensures Sum(Next(s, t).tasks, Left) < Sum(s.tasks, Left)
  {
    hide SumsOk, BufferOk, OrderOk, Sum, QueueOk, Waiting, Left;
    Get(s, t);
    StepLeft(s, t);
    var k, s' := s.tasks[t], Next(s, t);
    if k.pc == PostMutex {
      MutexWaiter(s, t);
      if s.mutex.waiters != [] { WokenLeft(s.tasks[s.mutex.waiters[0]]); }
      WakeDecreases(s.tasks, s'.tasks, t, s.mutex.waiters);
    } else if k.pc == PostSecond {
      SecondWaiter(s, t);
      if Second(s, k.role).waiters != [] { WokenLeft(s.tasks[Second(s, k.role).waiters[0]]); }
      WakeDecreases(s.tasks, s'.tasks, t, Second(s, k.role).waiters);
    } else {
      assert s'.tasks == s.tasks[t := s'.tasks[t]];
      SumUpdate(s.tasks, t, s'.tasks[t], Left);
    }
  }

  /** A post moves the poster on, and the first waiter if there is one. */
  lemma WakeDecreases(ts: seq<Task>, ts': seq<Task>, t: nat, waiters: seq<nat>)
    requires t < |ts| == |ts'| && Left(ts'[t]) < Left(ts[t])
    requires waiters != [] ==> waiters[0] < |ts| && waiters[0] != t && Left(ts'[waiters[0]]) < Left(ts[waiters[0]])
    requires forall x :: 0 <= x < |ts| && x != t && (waiters == [] || x != waiters[0]) ==> ts'[x] == ts[x]
    ensures Sum(ts', Left) < Sum(ts, Left)
  {
    var ts1 := if waiters == [] then ts else ts[waiters[0] := ts'[waiters[0]]];
    if waiters != [] { SumUpdate(ts, waiters[0], ts'[waiters[0]], Left); }
    SumUpdate(ts1, t, ts'[t], Left);
    assert ts' == ts1[t := ts'[t]];
  }

  /** Where a task that has made its rounds is, and the one statement it may still make. */
  lemma AtRest(s: State, t: nat)
    requires Inv(s) && t < |s.tasks|
    ensures s.tasks[t].pc == Done ==> s.tasks[t].i == s.tasks[t].quota
    ensures Enabled(s, t) && s.tasks[t].i >= s.tasks[t].quota ==>
              s.tasks[t].i == s.tasks[t].quota && Next(s, t) == SetPc(s, t, Done) && Inv(Next(s, t))
  {
    hide SumsOk, BufferOk, OrderOk, QueueOk, Waiting, Sum;
    Get(s, t);
    if Enabled(s, t) { StepInv(s, t); }
  }

  lemma EndsItself(s: State, t: nat)
    requires t < |s.tasks|
    ensures var s' := SetPc(s, t, Done);
            && s' == s.(tasks := s'.tasks) && |s'.tasks| == |s.tasks|
            && (forall x :: 0 <= x < |s.tasks| ==>
                  s'.tasks[x].i == s.tasks[x].i && s'.tasks[x].quota == s.tasks[x].quota
                  && (Enabled(s', x) ==> Enabled(s, x)))
            && Sum(s'.tasks, QuotaIn) == Sum(s.tasks, QuotaIn) && Sum(s'.tasks, QuotaOut) == Sum(s.tasks, QuotaOut)
  {
    var s' := SetPc(s, t, Done);
    SumSame(s.tasks, s'.tasks, QuotaIn);
    SumSame(s.tasks, s'.tasks, QuotaOut);
  }

  /** No deadlock, without a word about tasks that have no rounds to make: where the others cannot go on, there are
      none. */
  lemma {:induction false} NoneLeft(s: State)
    requires Inv(s) && Balanced(s) && NoneCanGoOn(s)
    ensures Complete(s)
    decreases Sum(s.tasks, Left)
  {
    hide Inv, Sum, Left, QuotaIn, QuotaOut, SizesOk, Next;
    LeftIsNatural(s);
    if Stuck(s) {
      NoDeadlock(s);
      FinishedIsComplete(s);
      forall t | 0 <= t < |s.tasks| ensures s.tasks[t].i == s.tasks[t].quota { AtRest(s, t); }
    } else {
      var t: nat :| t < |s.tasks| && Enabled(s, t);
      AtRest(s, t);
      StepDecreases(s, t);
      LeftIsNatural(Next(s, t));
      EndsItself(s, t);
      NoneLeft(SetPc(s, t, Done));
    }
  }

  /** Each scheduled task can step. */
  ghost predicate Effective(s: State, schedule: seq<nat>) {
    schedule != [] ==>
      var front := schedule[..|schedule| - 1];
      Effective(s, front) && Enabled(After(s, front), schedule[|schedule| - 1])
  }

  /** Every run ends: no run makes more steps than the bound says. */
  lemma {:induction false} RunsAreBounded(s: State, schedule: seq<nat>)
    requires Inv(s) && Effective(s, schedule)
    ensures |schedule| + Sum(After(s, schedule).tasks, Left) <= Sum(s.tasks, Left)
    ensures 0 <= Sum(After(s, schedule).tasks, Left)
  {
    RunInv(s, schedule);
    LeftIsNatural(After(s, schedule));
    if schedule != [] {
      var front := schedule[..|schedule| - 1];
      RunsAreBounded(s, front);
      RunInv(s, front);
      StepDecreases(After(s, front), schedule[|schedule| - 1]);
    }
  }

  function Zero(k: Task): int {
    0
  }

  lemma LeftIsNatural(s: State)
    requires Inv(s)
    ensures 0 <= Sum(s.tasks, Left)
  {
    forall x | 0 <= x < |s.tasks| ensures Zero(s.tasks[x]) <= Left(s.tasks[x]) { Get(s, x); }
    SumPointwise(s.tasks, Zero, Left);
    SumOfZero(s.tasks, Zero);
  }

  /** For every ring size, tasks with equal total quotas, and every interleaving that goes on until no task
      can step: it stops, within the bound, with everything produced and consumed in order and the ring empty. */
  lemma RingCompletes(s: State, n: nat, schedule: seq<nat>)
    requires Init(s, n) && n > 0 && Balanced(s)
    requires Effective(s, schedule)
    ensures |schedule| <= Sum(s.tasks, Left)
    ensures Stuck(After(s, schedule)) ==>
              var s' := After(s, schedule);
              && Finished(s')
              && s'.consumed == Items(s'.produced) && |s'.consumed| == Sum(s.tasks, QuotaOut)
              && s'.head == s'.tail && s'.empty.count == n
  {
    var s' := After(s, schedule);
    InitInv(s, n);
    RunInv(s, schedule);
    RunsAreBounded(s, schedule);
    BalancedOverRuns(s, schedule);
    SameShapeOverRuns(s, schedule);
    if Stuck(s') {
      NoDeadlock(s');
      FinishedIsComplete(s');
      SumSame(s.tasks, s'.tasks, QuotaOut);
    }
  }

  // ----- the shipped demonstration -----

  function Worker(role: Role, base: nat): Task {
    Task(role, 5, base, 0, PendFirst, 0, Stats(0, 0, 0, 0, [], []))
  }

  /** Four slots, two producers and two consumers of five items each. */
  const DEMO: State := State(
    [0, 0, 0, 0], 0, 0, 0, 0, [0, 0, 0, 0],
    Sem.Queue(4, []), Sem.Queue(0, []), Sem.Queue(1, []),
    [Worker(Producer, 0), Worker(Producer, 100), Worker(Consumer, 0), Worker(Consumer, 0)],
    [], [])

  /** However its four tasks are scheduled, it stops within 288 statements. Then the items 1 to 5 and 101 to 105 have
      been consumed, each of them once, in the order in which they were produced, and each producer's in its own. */
  lemma DemoCompletes(schedule: seq<nat>)
    requires Effective(DEMO, schedule)
    ensures |schedule| <= 288
    ensures Stuck(After(DEMO, schedule)) ==>
              var s' := After(DEMO, schedule);
              && Finished(s') && s'.head == s'.tail
              && s'.consumed == Items(s'.produced) && |s'.consumed| == 10
              && Made(s'.produced, 0) == [1, 2, 3, 4, 5] && Made(s'.produced, 1) == [101, 102, 103, 104, 105]
              && multiset(s'.consumed) == multiset([1, 2, 3, 4, 5]) + multiset([101, 102, 103, 104, 105])
  {
    SumDemo(QuotaIn);
    SumDemo(QuotaOut);
    SumDemo(Left);
    RingCompletes(DEMO, 4, schedule);
    var s' := After(DEMO, schedule);
    hide Sum, Effective, After, Made, Items, Stuck;
    if Stuck(s') { DemoItems(schedule); }
  }

  lemma DemoItems(schedule: seq<nat>)
    requires var s' := After(DEMO, schedule);
             Finished(s') && |s'.produced| == 10
    ensures var s' := After(DEMO, schedule);
            && Made(s'.produced, 0) == [1, 2, 3, 4, 5] && Made(s'.produced, 1) == [101, 102, 103, 104, 105]
            && multiset(Items(s'.produced)) == multiset([1, 2, 3, 4, 5]) + multiset([101, 102, 103, 104, 105])
  {
    hide Inv, After, Made, Items, Finished, DEMO;
    var s' := After(DEMO, schedule);
    DemoShape(schedule);
    MadeFive(s', 0);
    MadeFive(s', 1);
    TenItems(s'.produced);
  }

  lemma TenItems(log: seq<Entry>)
    requires Made(log, 0) == [1, 2, 3, 4, 5] && Made(log, 1) == [101, 102, 103, 104, 105] && |log| == 10
    ensures multiset(Items(log)) == multiset([1, 2, 3, 4, 5]) + multiset([101, 102, 103, 104, 105])
  {
    FromTwo(log);
    hide Made, Items;
  }

  lemma DemoShape(schedule: seq<nat>)
    ensures var s' := After(DEMO, schedule);
            && Inv(s') && |s'.tasks| == 4
            && s'.tasks[0].role == Producer && s'.tasks[0].quota == 5 && s'.tasks[0].base == 0
            && s'.tasks[1].role == Producer && s'.tasks[1].quota == 5 && s'.tasks[1].base == 100
  {
    InitInv(DEMO, 4);
    RunInv(DEMO, schedule);
    SameShapeOverRuns(DEMO, schedule);
    hide Inv, After;
  }

  /** A producer of five items that has finished has made them all. */
  lemma MadeFive(s: State, t: nat)
    requires Inv(s) && Finished(s) && t < |s.tasks| && s.tasks[t].role == Producer && s.tasks[t].quota == 5
    ensures var b := s.tasks[t].base;
            Made(s.produced, t) == [b + 1, b + 2, b + 3, b + 4, b + 5]
  {
    Get(s, t);
    hide Inv, Made;
    assert Moved(s.tasks[t]) == 5;
  }

  /** A log with no more entries than two of its producers made holds their items only. */
  lemma {:induction false} FromTwo(log: seq<Entry>)
    ensures |Made(log, 0)| + |Made(log, 1)| <= |log|
    ensures |Made(log, 0)| + |Made(log, 1)| == |log| ==>
              multiset(Items(log)) == multiset(Made(log, 0)) + multiset(Made(log, 1))
  {
    if log != [] {
      var front, last := log[..|log| - 1], log[|log| - 1];
      FromTwo(front);
      assert Items(log) == Items(front) + [last.item];
    }
  }

  lemma SumDemo(w: Task -> int)
    ensures Sum(DEMO.tasks, w) == w(DEMO.tasks[0]) + w(DEMO.tasks[1]) + w(DEMO.tasks[2]) + w(DEMO.tasks[3])
  {
    var ts := DEMO.tasks;
    assert ts[..3][..2] == ts[..2] && ts[..2][..1] == ts[..1] && ts[..1][..0] == [];
    assert Sum(ts[..1], w) == w(ts[0]);
    assert Sum(ts[..2], w) == Sum(ts[..1], w) + w(ts[1]);
    assert Sum(ts[..3], w) == Sum(ts[..2], w) + w(ts[2]);
  }
}
