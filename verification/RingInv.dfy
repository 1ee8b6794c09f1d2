/**
  What every interleaving of the ring demonstration keeps.
  */
module RingInv {
  import opened Bits
  import opened Queues
  import opened RingSpec
  import Sem = SemTheorems

  // ----- the invariant -----

  /** A queue of tasks exists only where there is no token, and holds each task once. */
  ghost predicate QueueOk(s: State, q: Sem.Queue) {
    && NoDup(q.waiters)
    && (forall t :: t in q.waiters ==> t < |s.tasks|)
    && (q.waiters != [] ==> q.count == 0)
  }

  ghost predicate Waiting(s: State, t: nat)
    requires t < |s.tasks|
  {
    var k := s.tasks[t];
    && (t in s.mutex.waiters <==> k.pc == WaitMutex)
    && (t in s.empty.waiters <==> k.pc == WaitFirst && k.role == Producer)
    && (t in s.full.waiters <==> k.pc == WaitFirst && k.role == Consumer)
  }

  /** A task's own variables, and what it has read of the shared ones. */
  ghost predicate LocalOk(s: State, t: nat)
    requires t < |s.tasks| && SizesOk(s)
  {
    var k := s.tasks[t];
    && k.i <= k.quota
    && (k.pc != PendFirst && k.pc != Done ==> k.i < k.quota)
    && (k.pc == Done ==> k.i == k.quota)
    && s.per[t] == (if k.role == Observer then 0 else k.i + if k.pc in {PostMutex, PostSecond} then 1 else 0)
    && (k.role == Producer && k.pc == S2 ==> k.item == k.base + k.i + 1 == s.buf[s.head])
    && (k.role == Consumer && k.pc == S2 ==> k.item == s.buf[s.tail])
    && (k.role == Observer ==>
          && k.pc != WaitFirst && k.pc != PostSecond
          && (k.pc in {S2, S3, S4, PostMutex} ==> k.snap.write == s.head && k.snap.read == s.tail)
          && (k.pc in {S3, S4, PostMutex} ==> k.snap.produced == s.producedTotal && k.snap.consumed == s.consumedTotal)
          && (k.pc in {S4, PostMutex} ==> k.snap.per == s.per)
          && (k.pc == PostMutex ==> k.snap.buffer == s.buf))
  }

  ghost predicate TaskOk(s: State, t: nat)
    requires t < |s.tasks| && SizesOk(s)
  {
    Waiting(s, t) && LocalOk(s, t)
  }

  /** Tokens circulate: N slots are empty, full, or in the hands of a task; items in the ring are
      announced, still to be announced, or promised to a consumer. */
  ghost predicate SumsOk(s: State) {
    && s.mutex.count + Sum(s.tasks, InCrit) == 1
    && s.empty.count + s.full.count + Sum(s.tasks, Holds) == |s.buf|
    && |s.produced| - |s.consumed| == s.full.count + Sum(s.tasks, Unannounced) + Sum(s.tasks, Promised)
    && |s.produced| == Sum(s.tasks, MovedIn)
    && |s.consumed| == Sum(s.tasks, MovedOut)
    && s.producedTotal == |s.produced| - Sum(s.tasks, UncountedIn)
    && s.consumedTotal == |s.consumed| - Sum(s.tasks, UncountedOut)
  }

  /** The slots from tail to head hold the items put in and not yet taken out, in order. */
  ghost predicate BufferOk(s: State)
    requires |s.buf| > 0
  {
    && |s.consumed| <= |s.produced| <= |s.consumed| + |s.buf|
    && s.head == |s.produced| % |s.buf|
    && s.tail == |s.consumed| % |s.buf|
    && (forall q :: 0 <= q < |s.consumed| ==> s.consumed[q] == s.produced[q].item)
    && (forall q {:trigger s.produced[q]} :: |s.consumed| <= q < |s.produced| ==>
          s.buf[q % |s.buf|] == s.produced[q].item)
  }

  /** The items of one producer in the order in which they were put in. */
  function Made(log: seq<Entry>, t: nat): seq<nat> {
    if log == [] then []
    else
      var last := log[|log| - 1];
      Made(log[..|log| - 1], t) + if last.who == t then [last.item] else []
  }

  /** Each producer's items are in its own order, and none is missing. */
  ghost predicate OrderOk(s: State, t: nat)
    requires t < |s.tasks|
  {
    var k := s.tasks[t];
    Made(s.produced, t) == if k.role == Producer then seq(Moved(k), j requires j >= 0 => k.base + j + 1) else []
  }

  ghost predicate Inv(s: State) {
    && SizesOk(s)
    && QueueOk(s, s.mutex) && QueueOk(s, s.empty) && QueueOk(s, s.full)
    && SumsOk(s)
    && BufferOk(s)
    && (forall t {:trigger TaskOk(s, t)} :: 0 <= t < |s.tasks| ==> TaskOk(s, t))
    && (forall t {:trigger OrderOk(s, t)} :: 0 <= t < |s.tasks| ==> OrderOk(s, t))
  }

  lemma Get(s: State, t: nat)
    requires Inv(s) && t < |s.tasks|
    ensures TaskOk(s, t) && OrderOk(s, t)
  {}

  /** Mutual exclusion: while one task is between the mutex's pend and post, no other is. */
  lemma MutualExclusion(s: State, t: nat, x: nat)
    requires Inv(s) && t < |s.tasks| && x < |s.tasks| && t != x && InCrit(s.tasks[t]) == 1
    ensures InCrit(s.tasks[x]) == 0 && s.mutex.count == 0
  {
    SumTwo(s.tasks, InCrit, if t < x then t else x, if t < x then x else t);
  }

  lemma CritHasMutex(s: State, t: nat)
    requires Inv(s) && t < |s.tasks| && InCrit(s.tasks[t]) == 1
    ensures s.mutex.count == 0
  {
    SumAtLeast(s.tasks, InCrit, t);
  }

  // ----- the buffer -----

  lemma ModStep(p: nat, n: nat)
    requires n > 0
    ensures (p % n + 1) % n == (p + 1) % n
  {
    var q, r := p / n, p % n;
    NextInCycle(p, n, q, r);
    if r + 1 == n {
      ModUnique(n, n, 1, 0);
    } else {
      ModUnique(r + 1, n, 0, r + 1);
    }
  }

  lemma NextInCycle(p: nat, n: nat, q: nat, r: nat)
    requires n > 0 && r < n && p == n * q + r
    ensures (p + 1) % n == if r + 1 == n then 0 else r + 1
  {
    if r + 1 == n {
      assert p + 1 == n * (q + 1) + 0;
      ModUnique(p + 1, n, q + 1, 0);
    } else {
      ModUnique(p + 1, n, q, r + 1);
    }
  }

  lemma ModUnique(a: nat, n: nat, q: nat, r: nat)
    requires r < n && a == n * q + r
    ensures a % n == r
  {
    DivModUnique(a, n, q, r);
  }

  /** Outstanding items sit in distinct slots, and the slot at head is not among them while there is room. */
  lemma SlotsDistinct(p: nat, q: nat, n: nat)
    requires n > 0 && q < p < q + n
    ensures p % n != q % n
  {
    var a, r, d := q / n, q % n, p - q;
    assert q == n * a + r;
    if r + d < n {
      ModUnique(p, n, a, r + d);
    } else {
      assert n * (a + 1) == n * a + n;
      ModUnique(p, n, a + 1, r + d - n);
    }
  }

  /** What the tokens say about the ring: never more than N items, room when a producer is about to
      write, an item when a consumer is about to read. */
  lemma RoomAndItems(s: State, t: nat)
    requires Inv(s) && t < |s.tasks|
    ensures s.tasks[t].role == Producer && s.tasks[t].pc in {PendMutex, WaitMutex, S1, S2} ==>
              |s.produced| < |s.consumed| + |s.buf|
    ensures s.tasks[t].role == Consumer && s.tasks[t].pc in {PendMutex, WaitMutex, S1, S2} ==>
              |s.consumed| < |s.produced|
  {
    SumNonNegative(s.tasks, Unannounced);
    SumAtLeast(s.tasks, Promised, t);
    SumReserved(s.tasks);
    SumAtLeast(s.tasks, Reserved, t);
  }

  /** A task that holds a token without an item to it in the ring. */
  function Reserved(k: Task): int {
    Holds(k) - Unannounced(k) - Promised(k)
  }

  lemma {:induction false} SumReserved(ts: seq<Task>)
    ensures Sum(ts, Reserved) == Sum(ts, Holds) - Sum(ts, Unannounced) - Sum(ts, Promised)
  {
    if ts != [] { SumReserved(ts[..|ts| - 1]); }
  }

  // ----- single-task steps: the buffer, the counters and the statistics -----

  /** Steps between the mutex's pend and post leave the queues as they are. */
  ghost predicate SameQueues(s: State, s': State) {
    && s'.empty == s.empty && s'.full == s.full && s'.mutex == s.mutex
    && |s'.buf| == |s.buf| && |s'.tasks| == |s.tasks| && |s'.per| == |s.per|
  }

  /** Only task `t` changes, and it stays between the mutex's pend and post. */
  ghost predicate CritStep(s: State, s': State, t: nat) {
    && SameQueues(s, s')
    && t < |s.tasks|
    && s'.tasks == s.tasks[t := s'.tasks[t]]
    && InCrit(s.tasks[t]) == 1 && InCrit(s'.tasks[t]) == 1
    && s'.tasks[t].role == s.tasks[t].role && s'.tasks[t].quota == s.tasks[t].quota
    && s'.tasks[t].base == s.tasks[t].base && s'.tasks[t].i == s.tasks[t].i
  }

  /** The other tasks are not looking at the shared variables, so theirs is untouched. */
  lemma CritOthers(s: State, s': State, t: nat, x: nat)
    requires Inv(s) && CritStep(s, s', t) && SizesOk(s') && x < |s.tasks| && x != t
    requires s'.per[x] == s.per[x]
    ensures TaskOk(s', x)
  {
    Get(s, x);
    MutualExclusion(s, t, x);
  }

  lemma CritSums(s: State, s': State, t: nat)
    requires CritStep(s, s', t)
    ensures var k, k' := s.tasks[t], s'.tasks[t];
            && Sum(s'.tasks, InCrit) == Sum(s.tasks, InCrit)
            && Sum(s'.tasks, Holds) == Sum(s.tasks, Holds) - Holds(k) + Holds(k')
            && Sum(s'.tasks, Promised) == Sum(s.tasks, Promised) - Promised(k) + Promised(k')
            && Sum(s'.tasks, Unannounced) == Sum(s.tasks, Unannounced) - Unannounced(k) + Unannounced(k')
            && Sum(s'.tasks, MovedIn) == Sum(s.tasks, MovedIn) - MovedIn(k) + MovedIn(k')
            && Sum(s'.tasks, MovedOut) == Sum(s.tasks, MovedOut) - MovedOut(k) + MovedOut(k')
            && Sum(s'.tasks, UncountedIn) == Sum(s.tasks, UncountedIn) - UncountedIn(k) + UncountedIn(k')
            && Sum(s'.tasks, UncountedOut) == Sum(s.tasks, UncountedOut) - UncountedOut(k) + UncountedOut(k')
  {
    hide Sum;
    SumsUpdate(s.tasks, t, s'.tasks[t]);
  }

  /** The parts of the invariant that a step of one task inside the mutex has to show. */
  lemma CritInv(s: State, s': State, t: nat)
    requires Inv(s) && CritStep(s, s', t) && SizesOk(s')
    requires SumsOk(s') && BufferOk(s')
    requires TaskOk(s', t)
    requires forall x :: 0 <= x < |s.tasks| && x != t ==> s'.per[x] == s.per[x]
    requires forall x :: 0 <= x < |s.tasks| ==> OrderOk(s', x)
    ensures Inv(s')
  {
    hide SumsOk, BufferOk, LocalOk, Waiting;
    forall x | 0 <= x < |s'.tasks| ensures TaskOk(s', x) {
      if x != t { CritOthers(s, s', t, x); }
    }
  }

  lemma OrderSame(s: State, s': State, x: nat)
    requires Inv(s) && x < |s.tasks| == |s'.tasks| && s'.produced == s.produced
    requires s'.tasks[x].role == s.tasks[x].role && s'.tasks[x].base == s.tasks[x].base
    requires s.tasks[x].role == Producer ==> Moved(s'.tasks[x]) == Moved(s.tasks[x])
    ensures OrderOk(s', x)
  {
    Get(s, x);
  }

  lemma ProduceInv(s: State, t: nat)
    requires Inv(s) && t < |s.tasks| && s.tasks[t].role == Producer && s.tasks[t].pc in {S1, S2, S3, S4}
    ensures Inv(Produce(s, t))
  {
    if s.tasks[t].pc == S1 { ProduceS1(s, t); }
    else if s.tasks[t].pc == S2 { ProduceS2(s, t); }
    else { ProduceCount(s, t); }
  }

  lemma ProduceS1(s: State, t: nat)
    requires Inv(s) && t < |s.tasks| && s.tasks[t].role == Producer && s.tasks[t].pc == S1
    ensures Inv(Produce(s, t))
  {
    hide OrderOk, Sum;
    var s' := Produce(s, t);
    Get(s, t);
    CritSums(s, s', t);
    RoomAndItems(s, t);
    WriteBuffer(s, s'.tasks[t].item);
    forall x | 0 <= x < |s.tasks| ensures OrderOk(s', x) { OrderSame(s, s', x); }
    CritInv(s, s', t);
  }

  lemma ProduceS2(s: State, t: nat)
    requires Inv(s) && t < |s.tasks| && s.tasks[t].role == Producer && s.tasks[t].pc == S2
    ensures Inv(Produce(s, t))
  {
    hide OrderOk, Sum;
    var s' := Produce(s, t);
    Get(s, t);
    CritSums(s, s', t);
    RoomAndItems(s, t);
    PutBuffer(s, t);
    forall x | 0 <= x < |s.tasks| ensures OrderOk(s', x) { PutOrder(s, t, x); }
    CritInv(s, s', t);
  }

  lemma PutOrder(s: State, t: nat, x: nat)
    requires Inv(s) && t < |s.tasks| && s.tasks[t].role == Producer && s.tasks[t].pc == S2 && x < |s.tasks|
    ensures OrderOk(Produce(s, t), x)
  {
    hide SumsOk, BufferOk, QueueOk, Waiting, Made, Inv;
    Ordered(s, t);
    Ordered(s, x);
    var k := s.tasks[t];
    MadeAppend(s.produced, Entry(t, k.item), x);
    if x == t {
      var n := Moved(k);
      assert seq(n + 1, j requires j >= 0 => k.base + j + 1) == seq(n, j requires j >= 0 => k.base + j + 1) + [k.item];
    }
  }

  lemma Ordered(s: State, t: nat)
    requires Inv(s) && t < |s.tasks|
    ensures OrderOk(s, t)
    ensures s.tasks[t].role == Producer && s.tasks[t].pc == S2 ==> s.tasks[t].item == s.tasks[t].base + s.tasks[t].i + 1
  {
    Get(s, t);
  }

  lemma ProduceCount(s: State, t: nat)
    requires Inv(s) && t < |s.tasks| && s.tasks[t].role == Producer && s.tasks[t].pc in {S3, S4}
    ensures Inv(Produce(s, t))
  {
    hide OrderOk, Sum;
    var s' := Produce(s, t);
    Get(s, t);
    CritSums(s, s', t);
    forall x | 0 <= x < |s.tasks| ensures OrderOk(s', x) { OrderSame(s, s', x); }
    CritInv(s, s', t);
  }

  /** Writing at head, with room, overwrites no outstanding item. */
  lemma WriteBuffer(s: State, item: nat)
    requires SizesOk(s) && BufferOk(s) && |s.produced| < |s.consumed| + |s.buf|
    ensures BufferOk(s.(buf := s.buf[s.head := item]))
  {
    forall q | |s.consumed| <= q < |s.produced|
      ensures s.buf[s.head := item][q % |s.buf|] == s.produced[q].item
    {
      SlotsDistinct(|s.produced|, q, |s.buf|);
    }
  }

  /** Advancing head puts the item just written at the end of the outstanding ones. */
  lemma PutBuffer(s: State, t: nat)
    requires SizesOk(s) && BufferOk(s) && t < |s.tasks| && |s.produced| < |s.consumed| + |s.buf|
    requires s.buf[s.head] == s.tasks[t].item
    ensures BufferOk(s.(head := (s.head + 1) % |s.buf|, produced := s.produced + [Entry(t, s.tasks[t].item)]))
  {
    ModStep(|s.produced|, |s.buf|);
  }

  lemma MadeAppend(log: seq<Entry>, e: Entry, t: nat)
    ensures Made(log + [e], t) == Made(log, t) + if e.who == t then [e.item] else []
  {
    assert (log + [e])[..|log|] == log;
  }

  lemma ConsumeInv(s: State, t: nat)
    requires Inv(s) && t < |s.tasks| && s.tasks[t].role == Consumer && s.tasks[t].pc in {S1, S2, S3, S4}
    ensures Inv(Consume(s, t))
  {
    if s.tasks[t].pc == S2 { ConsumeS2(s, t); } else { ConsumeOther(s, t); }
  }

  lemma ConsumeS2(s: State, t: nat)
    requires Inv(s) && t < |s.tasks| && s.tasks[t].role == Consumer && s.tasks[t].pc == S2
    ensures Inv(Consume(s, t))
  {
    hide OrderOk, Sum;
    var s' := Consume(s, t);
    Get(s, t);
    CritSums(s, s', t);
    RoomAndItems(s, t);
    TakeBuffer(s, s.tasks[t].item);
    forall x | 0 <= x < |s.tasks| ensures OrderOk(s', x) { OrderSame(s, s', x); }
    CritInv(s, s', t);
  }

  /** Advancing tail takes the oldest outstanding item out. */
  lemma TakeBuffer(s: State, item: nat)
    requires SizesOk(s) && BufferOk(s) && |s.consumed| < |s.produced| && item == s.buf[s.tail]
    ensures BufferOk(s.(tail := (s.tail + 1) % |s.buf|, consumed := s.consumed + [item]))
  {
    ModStep(|s.consumed|, |s.buf|);
    assert s.produced[|s.consumed|].item == item;
  }

  lemma ConsumeOther(s: State, t: nat)
    requires Inv(s) && t < |s.tasks| && s.tasks[t].role == Consumer && s.tasks[t].pc in {S1, S3, S4}
    ensures Inv(Consume(s, t))
  {
    hide OrderOk, Sum;
    var s' := Consume(s, t);
    Get(s, t);
    CritSums(s, s', t);
    forall x | 0 <= x < |s.tasks| ensures OrderOk(s', x) { OrderSame(s, s', x); }
    CritInv(s, s', t);
  }

  lemma ObserveInv(s: State, t: nat)
    requires Inv(s) && t < |s.tasks| && s.tasks[t].role == Observer && s.tasks[t].pc in {S1, S2, S3, S4}
    ensures Inv(Observe(s, t))
  {
    hide OrderOk, Sum;
    var s' := Observe(s, t);
    Get(s, t);
    CritSums(s, s', t);
    forall x | 0 <= x < |s.tasks| ensures OrderOk(s', x) { OrderSame(s, s', x); }
    CritInv(s, s', t);
  }

  // ----- steps on the semaphores -----

  /** Task `t` takes a token or joins the queue of semaphore `q`. */
  lemma PendQueue(s: State, q: Sem.Queue, t: nat)
    requires QueueOk(s, q) && t < |s.tasks| && t !in q.waiters
    ensures QueueOk(s, Sem.Pend(q, t))
    ensures forall x :: x in Sem.Pend(q, t).waiters <==> x in q.waiters || (x == t && q.count == 0)
  {
    AppendKeeps(q.waiters, t);
  }

  lemma PostQueue(s: State, q: Sem.Queue)
    requires QueueOk(s, q)
    ensures QueueOk(s, Sem.Post(q))
    ensures forall x :: x in Sem.Post(q).waiters <==> x in q.waiters && x != q.waiters[0]
    ensures q.waiters != [] ==> q.waiters[0] in q.waiters
  {
    if q.waiters != [] { TailKeeps(q.waiters); }
  }

  lemma PendFirstInv(s: State, t: nat)
    requires Inv(s) && t < |s.tasks| && s.tasks[t].pc == PendFirst
    ensures Inv(PendFirstStep(s, t))
  {
    hide OrderOk, SumsOk, TaskOk;
    var s', k := PendFirstStep(s, t), s.tasks[t];
    Get(s, t);
    PendFirstSums(s, t);
    assert t !in First(s, k.role).waiters by { assert Waiting(s, t); }
    if k.i < k.quota && k.role != Observer { PendQueue(s, First(s, k.role), t); }
    forall x | 0 <= x < |s.tasks| ensures OrderOk(s', x) { OrderSame(s, s', x); }
    forall x | 0 <= x < |s.tasks| ensures TaskOk(s', x) { PendFirstTask(s, t, x); }
  }

  lemma PendFirstSums(s: State, t: nat)
    requires Inv(s) && t < |s.tasks| && s.tasks[t].pc == PendFirst
    ensures SumsOk(PendFirstStep(s, t))
  {
    hide OrderOk, TaskOk, QueueOk, BufferOk, Sum;
    SumsUpdate(s.tasks, t, PendFirstStep(s, t).tasks[t]);
  }

  lemma PendFirstTask(s: State, t: nat, x: nat)
    requires Inv(s) && t < |s.tasks| && s.tasks[t].pc == PendFirst && x < |s.tasks|
    ensures TaskOk(PendFirstStep(s, t), x)
  {
    hide OrderOk, SumsOk, BufferOk, QueueOk;
    Get(s, t);
    Get(s, x);
    PendMembers(First(s, s.tasks[t].role), t);
  }

  lemma PendMembers(q: Sem.Queue, t: nat)
    ensures forall x :: x in Sem.Pend(q, t).waiters <==> x in q.waiters || (x == t && q.count == 0)
  {}

  lemma PendMutexInv(s: State, t: nat)
    requires Inv(s) && t < |s.tasks| && s.tasks[t].pc == PendMutex
    ensures Inv(PendMutexStep(s, t))
  {
    hide OrderOk, Sum;
    hide SumsOk, TaskOk;
    var s' := PendMutexStep(s, t);
    Get(s, t);
    PendMutexSums(s, t);
    assert t !in s.mutex.waiters by { assert TaskOk(s, t) && Waiting(s, t); }
    PendQueue(s, s.mutex, t);
    forall x | 0 <= x < |s.tasks| ensures OrderOk(s', x) { OrderSame(s, s', x); }
    forall x | 0 <= x < |s.tasks| ensures TaskOk(s', x) { PendMutexTask(s, t, x); }
  }

  lemma PendMutexSums(s: State, t: nat)
    requires Inv(s) && t < |s.tasks| && s.tasks[t].pc == PendMutex
    ensures SumsOk(PendMutexStep(s, t))
  {
    hide OrderOk, TaskOk, QueueOk, BufferOk, Sum;
    SumsUpdate(s.tasks, t, PendMutexStep(s, t).tasks[t]);
  }

  lemma PendMutexTask(s: State, t: nat, x: nat)
    requires Inv(s) && t < |s.tasks| && s.tasks[t].pc == PendMutex && x < |s.tasks|
    ensures TaskOk(PendMutexStep(s, t), x)
  {
    hide OrderOk, SumsOk, BufferOk;
    Get(s, t);
    Get(s, x);
    PendQueue(s, s.mutex, t);
  }

  lemma PostMutexInv(s: State, t: nat)
    requires Inv(s) && t < |s.tasks| && s.tasks[t].pc == PostMutex
    ensures Inv(PostMutexStep(s, t))
  {
    hide OrderOk, SumsOk, TaskOk;
    var s' := PostMutexStep(s, t);
    PostMutexSums(s, t);
    PostQueue(s, s.mutex);
    forall x | 0 <= x < |s.tasks| ensures TaskOk(s', x) && OrderOk(s', x) { PostMutexTask(s, t, x); }
  }

  /** The poster is not queued, and the first waiter waits for the mutex. */
  lemma MutexWaiter(s: State, t: nat)
    requires Inv(s) && t < |s.tasks| && s.tasks[t].pc == PostMutex
    ensures s.mutex.count == 0 && t !in s.mutex.waiters
    ensures s.mutex.waiters != [] ==>
              var w := s.mutex.waiters[0];
              w in s.mutex.waiters && w != t && w < |s.tasks| && s.tasks[w].pc == WaitMutex
  {
    Get(s, t);
    CritHasMutex(s, t);
    if s.mutex.waiters != [] {
      assert s.mutex.waiters[0] in s.mutex.waiters;
      Get(s, s.mutex.waiters[0]);
    }
  }

  lemma PostMutexSums(s: State, t: nat)
    requires Inv(s) && t < |s.tasks| && s.tasks[t].pc == PostMutex
    ensures SumsOk(PostMutexStep(s, t))
  {
    hide OrderOk, TaskOk, BufferOk, QueueOk, Sum;
    var s' := PostMutexStep(s, t);
    MutexWaiter(s, t);
    var s1 := Wake(s.(mutex := Sem.Post(s.mutex)), s.mutex, S1);
    if s.mutex.waiters != [] {
      var w := s.mutex.waiters[0];
      SumsUpdate(s.tasks, w, s1.tasks[w]);
    }
    SumsUpdate(s1.tasks, t, s'.tasks[t]);
    assert s'.tasks == s1.tasks[t := s'.tasks[t]];
  }

  lemma PostMutexTask(s: State, t: nat, x: nat)
    requires Inv(s) && t < |s.tasks| && s.tasks[t].pc == PostMutex && x < |s.tasks|
    ensures TaskOk(PostMutexStep(s, t), x) && OrderOk(PostMutexStep(s, t), x)
  {
    hide SumsOk, BufferOk, OrderOk;
    MutexWaiter(s, t);
    Get(s, t);
    Get(s, x);
    PostQueue(s, s.mutex);
    OrderSame(s, PostMutexStep(s, t), x);
  }

  /** The semaphore a task posts at the end of its round. */
  function Second(s: State, r: Role): Sem.Queue {
    if r == Producer then s.full else s.empty
  }

  function OtherSide(r: Role): Role {
    if r == Producer then Consumer else Producer
  }

  lemma SecondWaiter(s: State, t: nat)
    requires Inv(s) && t < |s.tasks| && s.tasks[t].pc == PostSecond
    ensures s.tasks[t].role != Observer
    ensures var q := Second(s, s.tasks[t].role);
            && t !in q.waiters && QueueOk(s, q)
            && (q.waiters != [] ==>
                  var w := q.waiters[0];
                  && w in q.waiters && w != t && w < |s.tasks|
                  && s.tasks[w].pc == WaitFirst && s.tasks[w].role == OtherSide(s.tasks[t].role))
  {
    Get(s, t);
    var q := Second(s, s.tasks[t].role);
    if q.waiters != [] {
      assert q.waiters[0] in q.waiters;
      Get(s, q.waiters[0]);
    }
  }

  lemma PostSecondInv(s: State, t: nat)
    requires Inv(s) && t < |s.tasks| && s.tasks[t].pc == PostSecond
    ensures Inv(PostSecondStep(s, t))
  {
    hide OrderOk, SumsOk, TaskOk;
    var s' := PostSecondStep(s, t);
    SecondWaiter(s, t);
    PostSecondSums(s, t);
    PostQueue(s, Second(s, s.tasks[t].role));
    forall x | 0 <= x < |s.tasks| ensures TaskOk(s', x) && OrderOk(s', x) { PostSecondTask(s, t, x); }
  }

  lemma PostSecondSums(s: State, t: nat)
    requires Inv(s) && t < |s.tasks| && s.tasks[t].pc == PostSecond
    ensures SumsOk(PostSecondStep(s, t))
  {
    hide Inv;
    Sums(s);
    SecondWaiter(s, t);
    if s.tasks[t].role == Producer { PostFullSums(s, t); } else { PostEmptySums(s, t); }
  }

  lemma Sums(s: State)
    requires Inv(s)
    ensures SumsOk(s)
  {}

  lemma PostFullSums(s: State, t: nat)
    requires SumsOk(s) && t < |s.tasks| && s.tasks[t].pc == PostSecond && s.tasks[t].role == Producer
    requires s.full.waiters != [] ==>
               var w := s.full.waiters[0];
               w != t && w < |s.tasks| && s.tasks[w].pc == WaitFirst && s.tasks[w].role == Consumer
    ensures SumsOk(PostSecondStep(s, t))
  {
    hide Sum;
    var s' := PostSecondStep(s, t);
    var s1 := Wake(SetFirst(s, Consumer, Sem.Post(s.full)), s.full, PendMutex);
    if s.full.waiters != [] { SumsUpdate(s.tasks, s.full.waiters[0], s1.tasks[s.full.waiters[0]]); }
    SumsUpdate(s1.tasks, t, s'.tasks[t]);
    assert s'.tasks == s1.tasks[t := s'.tasks[t]];
  }

  lemma PostEmptySums(s: State, t: nat)
    requires SumsOk(s) && t < |s.tasks| && s.tasks[t].pc == PostSecond && s.tasks[t].role == Consumer
    requires s.empty.waiters != [] ==>
               var w := s.empty.waiters[0];
               w != t && w < |s.tasks| && s.tasks[w].pc == WaitFirst && s.tasks[w].role == Producer
    ensures SumsOk(PostSecondStep(s, t))
  {
    hide Sum;
    var s' := PostSecondStep(s, t);
    var s1 := Wake(SetFirst(s, Producer, Sem.Post(s.empty)), s.empty, PendMutex);
    if s.empty.waiters != [] { SumsUpdate(s.tasks, s.empty.waiters[0], s1.tasks[s.empty.waiters[0]]); }
    SumsUpdate(s1.tasks, t, s'.tasks[t]);
    assert s'.tasks == s1.tasks[t := s'.tasks[t]];
  }

  lemma PostSecondTask(s: State, t: nat, x: nat)
    requires Inv(s) && t < |s.tasks| && s.tasks[t].pc == PostSecond && x < |s.tasks|
    ensures TaskOk(PostSecondStep(s, t), x) && OrderOk(PostSecondStep(s, t), x)
  {
    hide SumsOk, BufferOk, OrderOk;
    SecondWaiter(s, t);
    Get(s, t);
    Get(s, x);
    PostQueue(s, Second(s, s.tasks[t].role));
    OrderSame(s, PostSecondStep(s, t), x);
  }

  // ----- every step, every run -----

  /** Every step of every task keeps the invariant. */
  lemma StepInv(s: State, t: nat)
    requires Inv(s) && Enabled(s, t)
    ensures Inv(Step(s, t))
  {
    hide SumsOk, BufferOk, OrderOk, QueueOk;
    Get(s, t);
    var k := s.tasks[t];
    if k.pc == PendFirst { PendFirstInv(s, t); }
    else if k.pc == PendMutex { PendMutexInv(s, t); }
    else if k.pc == PostMutex { PostMutexInv(s, t); }
    else if k.pc == PostSecond { PostSecondInv(s, t); }
    else if k.role == Producer { ProduceInv(s, t); }
    else if k.role == Consumer { ConsumeInv(s, t); }
    else { ObserveInv(s, t); }
  }

  /** Whatever the order in which tasks are scheduled, the invariant holds. */
  lemma {:induction false} RunInv(s: State, schedule: seq<nat>)
    requires Inv(s)
    ensures Inv(After(s, schedule))
  {
    if schedule != [] {
      var front, t := schedule[..|schedule| - 1], schedule[|schedule| - 1];
      RunInv(s, front);
      if Enabled(After(s, front), t) { StepInv(After(s, front), t); }
    }
  }

  lemma {:induction false} SumOfZero(ts: seq<Task>, w: Task -> int)
    requires forall i :: 0 <= i < |ts| ==> w(ts[i]) == 0
    ensures Sum(ts, w) == 0
  {
    if ts != [] {
      assert forall x :: 0 <= x < |ts| - 1 ==> ts[..|ts| - 1][x] == ts[x];
      SumOfZero(ts[..|ts| - 1], w);
    }
  }

  lemma InitInv(s: State, n: nat)
    requires Init(s, n) && n > 0
    ensures Inv(s)
  {
    SumOfZero(s.tasks, InCrit);
    SumOfZero(s.tasks, Holds);
    SumOfZero(s.tasks, Promised);
    SumOfZero(s.tasks, Unannounced);
    SumOfZero(s.tasks, MovedIn);
    SumOfZero(s.tasks, MovedOut);
    SumOfZero(s.tasks, UncountedIn);
    SumOfZero(s.tasks, UncountedOut);
    hide Sum;
    forall x | 0 <= x < |s.tasks| ensures TaskOk(s, x) && OrderOk(s, x) {}
  }
}
