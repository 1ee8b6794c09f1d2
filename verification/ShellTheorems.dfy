/** What the shell reads, over all interleavings of receive interrupts with the shell task. */
module ShellTheorems {
  import KernelSpec
  import opened SemTheorems
  import opened ShellSpec

  /** Bytes that arrived and were not read yet. */
  function Backlog(s: Session): int {
    |s.arrived| - s.taken
  }

  /** Bytes the console has accepted: all that were read, but the one that the shell holds. */
  function Processed(s: Session): int {
    if s.pc.Fetched? then s.taken - 1 else s.taken
  }

  /** The newest byte that went to the slot of byte `i`, when `n` bytes have arrived. */
  function Newest(i: nat, n: nat): (j: nat)
    requires i < n
    ensures j < n && n - 272 <= j && j % 272 == i % 272
    ensures j == i <==> n - i <= 272
  {
    i + 272 * ((n - 1 - i) / 272)
  }

  /** Every slot of the ring holds the newest byte that belongs there. */
  ghost predicate Slots(buf: seq<char>, arrived: seq<char>) {
    && |buf| == SHELL_SHOW_MAX_LEN
    && forall i :: 0 <= i < |arrived| && |arrived| - SHELL_SHOW_MAX_LEN <= i ==>
         buf[i % SHELL_SHOW_MAX_LEN] == arrived[i]
  }

  ghost predicate Inv(s: Session) {
    && Offsets(s)
    && s.offset == |s.arrived| % SHELL_SHOW_MAX_LEN
    && s.taken <= |s.arrived| && 0 <= Processed(s) && s.readOffset == Processed(s) % SHELL_SHOW_MAX_LEN
    && Slots(s.buf, s.arrived)
    && s.sem.count + (if s.pc == AtFetch then 1 else 0) == Backlog(s)
    && s.sem.waiters == (if s.pc == Waiting then [SHELL_TASK] else [])
    && (s.pc == Waiting ==> s.sem.count == 0)
  }

  lemma SlotsKeep(buf: seq<char>, arrived: seq<char>, c: char)
    requires Slots(buf, arrived)
    ensures Slots(buf[|arrived| % SHELL_SHOW_MAX_LEN := c], arrived + [c])
  {
    var n := |arrived|;
    forall i | 0 <= i <= n && n + 1 - SHELL_SHOW_MAX_LEN <= i
      ensures buf[n % SHELL_SHOW_MAX_LEN := c][i % SHELL_SHOW_MAX_LEN] == (arrived + [c])[i]
    {
      if i < n { OtherSlot(i, n); }
    }
  }

  lemma OtherSlot(i: nat, n: nat)
    requires i < n < i + SHELL_SHOW_MAX_LEN
    ensures i % SHELL_SHOW_MAX_LEN != n % SHELL_SHOW_MAX_LEN
  {
  }

  lemma WrapMod(n: nat)
    ensures Wrap(n % SHELL_SHOW_MAX_LEN) == (n + 1) % SHELL_SHOW_MAX_LEN
  {
  }

  lemma StepInv(s: Session, e: Event)
    requires Inv(s) && CanHappen(s, e)
    ensures Inv(NextShell(s, e))
  {
    hide Slots, Wrap;
    if e.Byte? {
      SlotsKeep(s.buf, s.arrived, e.c);
      WrapMod(|s.arrived|);
    } else if s.pc.Fetched? {
      WrapMod(s.taken - 1);
    } else if s.pc == AtFetch {
      assert Processed(NextShell(s, e)) == Processed(s);
    }
  }

  lemma {:induction false} RunInv(s: Session, es: seq<Event>)
    requires Inv(s) && AllHappen(s, es)
    ensures Inv(AfterEvents(s, es))
  {
    if es != [] {
      FrontHappens(s, es);
      RunInv(s, es[..|es| - 1]);
      StepInv(AfterEvents(s, es[..|es| - 1]), es[|es| - 1]);
    }
  }

  lemma FrontHappens(s: Session, es: seq<Event>)
    requires Offsets(s) && es != [] && AllHappen(s, es)
    ensures AllHappen(s, es[..|es| - 1])
    ensures CanHappen(AfterEvents(s, es[..|es| - 1]), es[|es| - 1])
  {
    hide NextShell, CanHappen, AfterEvents;
    var n := |es| - 1;
    var front := es[..n];
    assert CanHappen(AfterEvents(s, es[..n]), es[n]);
    forall i | 0 <= i < |front|
      ensures CanHappen(AfterEvents(s, front[..i]), front[i])
    {
      assert front[..i] == es[..i];
    }
  }

  /** The shell sleeps only when every byte has been read: no wake-up is lost. */
  lemma NoLostWakeup(s: Session, es: seq<Event>)
    requires Fresh(s) && AllHappen(s, es)
    ensures var s' := AfterEvents(s, es);
            s'.pc == Waiting ==> s'.taken == |s'.arrived|
  {
    RunInv(s, es);
  }

  /** The byte read next is the newest on its slot; that is the next in arrival order exactly when the
      backlog is at most the size of the ring. */
  lemma FetchExact(s: Session, es: seq<Event>)
    requires Fresh(s) && AllHappen(s, es) && AfterEvents(s, es).pc == AtFetch
    ensures var s' := AfterEvents(s, es);
            && s'.taken < |s'.arrived|
            && NextShell(s', Run).pc == Fetched(s'.arrived[Newest(s'.taken, |s'.arrived|)])
            && (Newest(s'.taken, |s'.arrived|) == s'.taken <==> Backlog(s') <= 272)
  {
    RunInv(s, es);
  }

  /** The backlog stays within the ring over the whole run. */
  ghost predicate Bounded(s: Session, es: seq<Event>)
    requires Offsets(s)
  {
    forall i :: 0 <= i <= |es| ==> Backlog(AfterEvents(s, es[..i])) <= 272
  }

  ghost predicate InOrder(s: Session) {
    && 0 <= Processed(s) && s.taken <= |s.arrived|
    && s.console == Feed(s.arrived[..Processed(s)])
    && (s.pc.Fetched? ==> s.pc.ch == s.arrived[s.taken - 1])
  }

  lemma StepInOrder(s: Session, e: Event)
    requires Inv(s) && InOrder(s) && CanHappen(s, e)
    requires Backlog(s) <= 272
    ensures InOrder(NextShell(s, e))
  {
    var s', k := NextShell(s, e), Processed(s);
    if e.Byte? {
      assert s'.arrived[..k] == s.arrived[..k];
    } else if s.pc.Fetched? {
      assert s.arrived[..k + 1][..k] == s.arrived[..k];
    }
  }

  /** With a bounded backlog, for every interleaving: the lines handed to the dispatcher, and the line being
      typed, are those that editing makes of the bytes in arrival order. */
  lemma {:induction false} ShellReadsInOrder(s: Session, es: seq<Event>)
    requires Fresh(s) && AllHappen(s, es) && Bounded(s, es)
    ensures InOrder(AfterEvents(s, es))
  {
    if es != [] {
      var front := es[..|es| - 1];
      FrontHappens(s, es);
      assert Bounded(s, front) by {
        forall i | 0 <= i <= |front| ensures Backlog(AfterEvents(s, front[..i])) <= 272 {
          assert front[..i] == es[..i];
        }
      }
      ShellReadsInOrder(s, front);
      RunInv(s, front);
      assert front[..|front|] == front;
      StepInOrder(AfterEvents(s, front), es[|es| - 1]);
    }
  }

  // ----- what editing means, by character code -----

  predicate IsEnterKey(c: char) {
    c as int == 0x0D || c as int == 0x0A
  }

  predicate IsEraseKey(c: char) {
    c as int == 0x7F || c as int == 0x08
  }

  predicate IsText(c: char) {
    0x20 <= c as int <= 0x7E
  }

  /** Every byte: carriage return and line feed hand the line on and empty it; delete and backspace drop its last
      character; printable ASCII is appended to fewer than 271 characters; nothing else does anything. */
  lemma AcceptByCode(k: Console, c: char)
    ensures IsEnterKey(c) ==> Accept(k, c) == Console("", k.lines + [k.line])
    ensures IsEraseKey(c) ==>
              Accept(k, c) == Console(if k.line == "" then "" else k.line[..|k.line| - 1], k.lines)
    ensures IsText(c) ==> Accept(k, c) == Console(if |k.line| < 271 then k.line + [c] else k.line, k.lines)
    ensures !IsEnterKey(c) && !IsEraseKey(c) && !IsText(c) ==> Accept(k, c) == k
  {
  }

  /** The line never outgrows the command buffer and holds printable characters only. */
  lemma {:induction false} LineFits(cs: seq<char>)
    ensures |Feed(cs).line| <= 271
    ensures forall i :: 0 <= i < |Feed(cs).line| ==> IsText(Feed(cs).line[i])
  {
    if cs != [] { LineFits(cs[..|cs| - 1]); }
  }

  lemma FeedSnoc(cs: seq<char>, c: char)
    ensures Feed(cs + [c]) == Accept(Feed(cs), c)
  {
    assert (cs + [c])[..|cs|] == cs;
  }

  /** Printable characters typed on an empty line, and then the Enter key, dispatch exactly them. */
  lemma {:induction false} TypedLine(cs: seq<char>, text: string, end: char)
    requires Feed(cs).line == "" && IsEnterKey(end)
    requires |text| <= 271 && forall i :: 0 <= i < |text| ==> IsText(text[i])
    ensures Feed(cs + text) == Feed(cs).(line := text)
    ensures Feed(cs + text + [end]) == Console("", Feed(cs).lines + [text])
  {
    hide Feed, IsText, IsEnterKey, Accept;
    if text == "" {
      assert cs + text == cs;
    } else {
      var n := |text| - 1;
      TypedLine(cs, text[..n], end);
      assert text[..n] + [text[n]] == text;
      assert cs + text[..n] + [text[n]] == cs + text;
      FeedSnoc(cs + text[..n], text[n]);
      AcceptByCode(Feed(cs + text[..n]), text[n]);
    }
    FeedSnoc(cs + text, end);
    AcceptByCode(Feed(cs + text), end);
  }

  /** Erasing undoes a printable character, exactly when the line had room for it. */
  lemma EraseUndoes(cs: seq<char>, c: char, erase: char)
    requires IsText(c) && IsEraseKey(erase)
    ensures Feed(cs + [c] + [erase]) == Feed(cs) <==> |Feed(cs).line| < 271
  {
    FeedSnoc(cs, c);
    FeedSnoc(cs + [c], erase);
    LineFits(cs);
    var k := Feed(cs);
    AcceptByCode(k, c);
    AcceptByCode(Feed(cs + [c]), erase);
    assert (k.line + [c])[..|k.line|] == k.line;
  }

  // ----- where the conditions fail -----

  /** `n` bytes in a row. */
  function Burst(first: char, rest: char, n: nat): (es: seq<Event>)
    ensures |es| == n
  {
    seq(n, i requires 0 <= i < n => Byte(if i == 0 then first else rest))
  }

  lemma {:induction false} BurstArrives(s: Session, first: char, rest: char, n: nat)
    requires Fresh(s) && n < KernelSpec.OS_SEM_COUNT_MAX
    ensures AllHappen(s, Burst(first, rest, n))
    ensures var s' := AfterEvents(s, Burst(first, rest, n));
            && s'.pc == AtPend && s'.sem == Queue(n, []) && s'.taken == 0
            && |s'.arrived| == n && forall i :: 0 <= i < n ==> s'.arrived[i] == if i == 0 then first else rest
  {
    if n > 0 {
      var es, front := Burst(first, rest, n), Burst(first, rest, n - 1);
      assert es[..n - 1] == front;
      BurstArrives(s, first, rest, n - 1);
      assert es == front + [es[n - 1]];
      MoreHappens(s, front, es[n - 1], es);
    }
  }

  lemma MoreHappens(s: Session, front: seq<Event>, e: Event, es: seq<Event>)
    requires Offsets(s) && es == front + [e] && AllHappen(s, front) && CanHappen(AfterEvents(s, front), e)
    ensures AllHappen(s, es)
  {
    hide AfterEvents, CanHappen;
    forall i | 0 <= i < |es| ensures CanHappen(AfterEvents(s, es[..i]), es[i]) {
      PrefixOf(front, e, i);
      if i < |front| { assert CanHappen(AfterEvents(s, front[..i]), front[i]); }
    }
  }

  lemma PrefixOf(front: seq<Event>, e: Event, i: nat)
    requires i <= |front|
    ensures (front + [e])[..i] == if i < |front| then front[..i] else front
  {
  }

  /** An `a` and then 272 times `b`, before the shell gets to run: it reads `b` first. */
  lemma OverrunReadsLater(s: Session)
    requires Fresh(s)
    ensures var es := Burst('a', 'b', 273) + [Run];
            && AllHappen(s, es) && AfterEvents(s, es).pc == AtFetch
            && AfterEvents(s, es).arrived[0] == 'a' && NextShell(AfterEvents(s, es), Run).pc == Fetched('b')
  {
    var burst := Burst('a', 'b', 273);
    var es := burst + [Run];
    BurstArrives(s, 'a', 'b', 273);
    assert es[..273] == burst;
    MoreHappens(s, burst, Run, es);
    FetchExact(s, es);
  }

  /** On a full line, a character and an erasure lose the line's last character. */
  lemma EraseLosesOnFullLine(cs: seq<char>)
    requires Feed(cs).line == ""
    ensures var full := seq(271, i => 'x');
            && Feed(cs + full).line == full
            && Feed(cs + full + ['y'] + [0x08 as char]).line == full[..270]
  {
    var full := seq(271, i => 'x');
    TypedLine(cs, full, '\r');
    FeedSnoc(cs + full, 'y');
    FeedSnoc(cs + full + ['y'], 0x08 as char);
  }
}
