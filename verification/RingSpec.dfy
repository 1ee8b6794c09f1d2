/**
  The bounded-buffer demonstration of src/ipc_ring_demo.c as a state machine: any number of
  producers, consumers and readers of the statistics, any ring size, any interleaving
  of their statements. Semaphores are the kernel's FIFO counting semaphores.
  */
module RingSpec {
  import Sem = SemTheorems

  datatype Role = Producer | Consumer | Observer

  /** The next statement of a task. S1 to S4 are the statements between the mutex's pend and post. */
  datatype Pc = PendFirst | WaitFirst | PendMutex | WaitMutex | S1 | S2 | S3 | S4 | PostMutex | PostSecond | Done

  /** RingBufStats, as IPC_RingDemoGetStats fills it in. */
  datatype Stats = Stats(write: nat, read: nat, produced: nat, consumed: nat, per: seq<nat>, buffer: seq<nat>)

  /** A task: how many rounds it makes, how many it has made, and its local variables. */
  datatype Task = Task(role: Role, quota: nat, base: nat, i: nat, pc: Pc, item: nat, snap: Stats)

  /** An item with the producer that made it. */
  datatype Entry = Entry(who: nat, item: nat)

  datatype State = State(
    buf: seq<nat>, head: nat, tail: nat,
    producedTotal: nat, consumedTotal: nat, per: seq<nat>,
    empty: Sem.Queue, full: Sem.Queue, mutex: Sem.Queue,
    tasks: seq<Task>,
    produced: seq<Entry>, consumed: seq<nat>)  // what has been put in and taken out, in order

  /** The tasks have been created, and the semaphores hold `n` empty slots, no item, and the mutex. */
  predicate Init(s: State, n: nat) {
    && |s.buf| == n && s.head == 0 && s.tail == 0
    && s.producedTotal == 0 && s.consumedTotal == 0
    && |s.per| == |s.tasks| && (forall t :: 0 <= t < |s.per| ==> s.per[t] == 0)
    && s.empty == Sem.Queue(n, []) && s.full == Sem.Queue(0, []) && s.mutex == Sem.Queue(1, [])
    && (forall t :: 0 <= t < |s.tasks| ==> s.tasks[t].i == 0 && s.tasks[t].pc == PendFirst)
    && s.produced == [] && s.consumed == []
  }

  predicate Enabled(s: State, t: nat) {
    t < |s.tasks| && s.tasks[t].pc !in {WaitFirst, WaitMutex, Done}
  }

  function SetPc(s: State, t: nat, pc: Pc): State
    requires t < |s.tasks|
  {
    s.(tasks := s.tasks[t := s.tasks[t].(pc := pc)])
  }

  /** The first semaphore a task pends on: empty slots for a producer, items for a consumer. */
  function First(s: State, r: Role): Sem.Queue {
    if r == Producer then s.empty else s.full
  }

  function SetFirst(s: State, r: Role, q: Sem.Queue): State {
    if r == Producer then s.(empty := q) else s.(full := q)
  }

  function PendFirstStep(s: State, t: nat): State
    requires t < |s.tasks|
  {
    var k := s.tasks[t];
    if k.i >= k.quota then SetPc(s, t, Done)
    else if k.role == Observer then SetPc(s, t, PendMutex)
    else
      var q := First(s, k.role);
      SetPc(SetFirst(s, k.role, Sem.Pend(q, t)), t, if q.count > 0 then PendMutex else WaitFirst)
  }

  function PendMutexStep(s: State, t: nat): State
    requires t < |s.tasks|
  {
    SetPc(s.(mutex := Sem.Pend(s.mutex, t)), t, if s.mutex.count > 0 then S1 else WaitMutex)
  }

  /** A task that a post hands a semaphore to goes on behind its pend. */
  function Wake(s: State, q: Sem.Queue, pc: Pc): State {
    if q.waiters != [] && q.waiters[0] < |s.tasks| then SetPc(s, q.waiters[0], pc) else s
  }

  function PostMutexStep(s: State, t: nat): State
    requires t < |s.tasks|
  {
    var s1 := Wake(s.(mutex := Sem.Post(s.mutex)), s.mutex, S1);
    var k := s1.tasks[t];
    if k.role == Observer then s1.(tasks := s1.tasks[t := k.(pc := PendFirst, i := k.i + 1)])
    else SetPc(s1, t, PostSecond)
  }

  /** A producer announces an item, a consumer a free slot; the round is over. */
  function PostSecondStep(s: State, t: nat): State
    requires t < |s.tasks|
  {
    var other := if s.tasks[t].role == Producer then Consumer else Producer;
    var q := First(s, other);
    var s1 := Wake(SetFirst(s, other, Sem.Post(q)), q, PendMutex);
    var k := s1.tasks[t];
    s1.(tasks := s1.tasks[t := k.(pc := PendFirst, i := k.i + 1)])
  }

  function Produce(s: State, t: nat): State
    requires t < |s.tasks| && |s.buf| > 0 && s.head < |s.buf| && |s.per| == |s.tasks|
  {
    var k := s.tasks[t];
    if k.pc == S1 then
      var item := k.base + k.i + 1;
      s.(buf := s.buf[s.head := item], tasks := s.tasks[t := k.(item := item, pc := S2)])
    else if k.pc == S2 then
      SetPc(s.(head := (s.head + 1) % |s.buf|, produced := s.produced + [Entry(t, k.item)]), t, S3)
    else if k.pc == S3 then SetPc(s.(producedTotal := s.producedTotal + 1), t, S4)
    else SetPc(s.(per := s.per[t := s.per[t] + 1]), t, PostMutex)
  }

  function Consume(s: State, t: nat): State
    requires t < |s.tasks| && |s.buf| > 0 && s.tail < |s.buf| && |s.per| == |s.tasks|
  {
    var k := s.tasks[t];
    if k.pc == S1 then s.(tasks := s.tasks[t := k.(item := s.buf[s.tail], pc := S2)])
    else if k.pc == S2 then SetPc(s.(tail := (s.tail + 1) % |s.buf|, consumed := s.consumed + [k.item]), t, S3)
    else if k.pc == S3 then SetPc(s.(consumedTotal := s.consumedTotal + 1), t, S4)
    else SetPc(s.(per := s.per[t := s.per[t] + 1]), t, PostMutex)
  }

  function Observe(s: State, t: nat): State
    requires t < |s.tasks|
  {
    var k := s.tasks[t];
    if k.pc == S1 then s.(tasks := s.tasks[t := k.(snap := k.snap.(write := s.head, read := s.tail), pc := S2)])
    else if k.pc == S2 then
      s.(tasks := s.tasks[t := k.(snap := k.snap.(produced := s.producedTotal, consumed := s.consumedTotal), pc := S3)])
    else if k.pc == S3 then s.(tasks := s.tasks[t := k.(snap := k.snap.(per := s.per), pc := S4)])
    else s.(tasks := s.tasks[t := k.(snap := k.snap.(buffer := s.buf), pc := PostMutex)])
  }

  /** Task `t` executes its next statement. */
  function Step(s: State, t: nat): State
    requires Enabled(s, t) && |s.buf| > 0 && s.head < |s.buf| && s.tail < |s.buf| && |s.per| == |s.tasks|
  {
    var k := s.tasks[t];
    if k.pc == PendFirst then PendFirstStep(s, t)
    else if k.pc == PendMutex then PendMutexStep(s, t)
    else if k.pc == PostMutex then PostMutexStep(s, t)
    else if k.pc == PostSecond then PostSecondStep(s, t)
    else if k.role == Producer then Produce(s, t)
    else if k.role == Consumer then Consume(s, t)
    else Observe(s, t)
  }

  predicate SizesOk(s: State) {
    |s.buf| > 0 && s.head < |s.buf| && s.tail < |s.buf| && |s.per| == |s.tasks|
  }

  /** Scheduling a task that waits or has finished changes nothing. */
  function Next(s: State, t: nat): State {
    if Enabled(s, t) && SizesOk(s) then Step(s, t) else s
  }

  /** The state after the scheduler has let tasks step in the given order. */
  function After(s: State, schedule: seq<nat>): State {
    if schedule == [] then s
    else Next(After(s, schedule[..|schedule| - 1]), schedule[|schedule| - 1])
  }

  // ----- sums over tasks -----

  function Sum(ts: seq<Task>, w: Task -> int): int {
    if ts == [] then 0 else Sum(ts[..|ts| - 1], w) + w(ts[|ts| - 1])
  }

  lemma {:induction false} SumUpdate(ts: seq<Task>, i: nat, k: Task, w: Task -> int)
    requires i < |ts|
    ensures Sum(ts[i := k], w) == Sum(ts, w) - w(ts[i]) + w(k)
  {
    var n := |ts| - 1;
    if i == n {
      assert ts[i := k][..n] == ts[..n];
    } else {
      SumUpdate(ts[..n], i, k, w);
      assert ts[i := k][..n] == ts[..n][i := k];
    }
  }

  lemma {:induction false} SumAtLeast(ts: seq<Task>, w: Task -> int, i: nat)
    requires i < |ts| && forall k :: w(k) >= 0
    ensures Sum(ts, w) >= w(ts[i])
  {
    var n := |ts| - 1;
    if i == n {
      SumNonNegative(ts[..n], w);
    } else {
      SumAtLeast(ts[..n], w, i);
      assert ts[..n][i] == ts[i];
    }
  }

  lemma {:induction false} SumNonNegative(ts: seq<Task>, w: Task -> int)
    requires forall k :: w(k) >= 0
    ensures Sum(ts, w) >= 0
  {
    if ts != [] { SumNonNegative(ts[..|ts| - 1], w); }
  }

  lemma {:induction false} SumTwo(ts: seq<Task>, w: Task -> int, i: nat, j: nat)
    requires i < j < |ts| && forall k :: w(k) >= 0
    ensures Sum(ts, w) >= w(ts[i]) + w(ts[j])
  {
    var n := |ts| - 1;
    assert forall x :: 0 <= x < n ==> ts[..n][x] == ts[x];
    if j == n { SumAtLeast(ts[..n], w, i); } else { SumTwo(ts[..n], w, i, j); }
  }

  lemma {:induction false} SumPointwise(ts: seq<Task>, v: Task -> int, w: Task -> int)
    requires forall i :: 0 <= i < |ts| ==> v(ts[i]) <= w(ts[i])
    ensures Sum(ts, v) <= Sum(ts, w)
    ensures Sum(ts, v) == Sum(ts, w) ==> forall i :: 0 <= i < |ts| ==> v(ts[i]) == w(ts[i])
  {
    if ts != [] {
      var n := |ts| - 1;
      assert forall x :: 0 <= x < n ==> ts[..n][x] == ts[x];
      SumPointwise(ts[..n], v, w);
    }
  }

  lemma {:induction false} SumSame(ts: seq<Task>, ts': seq<Task>, w: Task -> int)
    requires |ts'| == |ts| && forall i :: 0 <= i < |ts| ==> w(ts'[i]) == w(ts[i])
    ensures Sum(ts', w) == Sum(ts, w)
  {
    if ts != [] {
      var n := |ts| - 1;
      assert forall x :: 0 <= x < n ==> ts[..n][x] == ts[x] && ts'[..n][x] == ts'[x];
      SumSame(ts[..n], ts'[..n], w);
    }
  }

  // ----- what is summed -----

  /** Between getting the mutex and giving it back. */
  function InCrit(k: Task): int {
    if k.pc in {S1, S2, S3, S4, PostMutex} then 1 else 0
  }

  /** Between getting the first semaphore and posting the second. */
  function Holds(k: Task): int {
    if k.role != Observer && k.pc in {PendMutex, WaitMutex, S1, S2, S3, S4, PostMutex, PostSecond} then 1 else 0
  }

  /** A consumer that has been promised an item and has not taken it out. */
  function Promised(k: Task): int {
    if k.role == Consumer && k.pc in {PendMutex, WaitMutex, S1, S2} then 1 else 0
  }

  /** A producer that has put an item in and not announced it. */
  function Unannounced(k: Task): int {
    if k.role == Producer && k.pc in {S3, S4, PostMutex, PostSecond} then 1 else 0
  }

  function Moved(k: Task): int {
    k.i + if k.pc in {S3, S4, PostMutex, PostSecond} then 1 else 0
  }

  /** Items that the producers, and the consumers, have moved. */
  function MovedIn(k: Task): int {
    if k.role == Producer then Moved(k) else 0
  }

  function MovedOut(k: Task): int {
    if k.role == Consumer then Moved(k) else 0
  }

  /** Moved but not yet counted in the totals. */
  function UncountedIn(k: Task): int {
    if k.role == Producer && k.pc == S3 then 1 else 0
  }

  function UncountedOut(k: Task): int {
    if k.role == Consumer && k.pc == S3 then 1 else 0
  }

  lemma SumsUpdate(ts: seq<Task>, i: nat, k: Task)
    requires i < |ts|
    ensures var ts' := ts[i := k];
            && Sum(ts', InCrit) == Sum(ts, InCrit) - InCrit(ts[i]) + InCrit(k)
            && Sum(ts', Holds) == Sum(ts, Holds) - Holds(ts[i]) + Holds(k)
            && Sum(ts', Promised) == Sum(ts, Promised) - Promised(ts[i]) + Promised(k)
            && Sum(ts', Unannounced) == Sum(ts, Unannounced) - Unannounced(ts[i]) + Unannounced(k)
            && Sum(ts', MovedIn) == Sum(ts, MovedIn) - MovedIn(ts[i]) + MovedIn(k)
            && Sum(ts', MovedOut) == Sum(ts, MovedOut) - MovedOut(ts[i]) + MovedOut(k)
            && Sum(ts', UncountedIn) == Sum(ts, UncountedIn) - UncountedIn(ts[i]) + UncountedIn(k)
            && Sum(ts', UncountedOut) == Sum(ts, UncountedOut) - UncountedOut(ts[i]) + UncountedOut(k)
  {
    SumUpdate(ts, i, k, InCrit);
    SumUpdate(ts, i, k, Holds);
    SumUpdate(ts, i, k, Promised);
    SumUpdate(ts, i, k, Unannounced);
    SumUpdate(ts, i, k, MovedIn);
    SumUpdate(ts, i, k, MovedOut);
    SumUpdate(ts, i, k, UncountedIn);
    SumUpdate(ts, i, k, UncountedOut);
  }
}
