/**
  The loop of ShellTask: pend, read a byte, edit, and dispatch, with receive interrupts between the
  steps. It is a run of ShellSpec, and what it dispatches are that run's lines.
  */
module ShellLoop {
  import opened CStrings
  import opened SemTheorems
  import opened ShellSpec
  import opened ShellTheorems
  import opened Code = Shell

  /** The bytes that interrupts bring at three points of one round of the loop. */
  datatype Round = Round(beforePend: string, beforeFetch: string, beforeAdvance: string)

  lemma {:induction false} AfterConcat(s: Session, es: seq<Event>, fs: seq<Event>)
    requires Offsets(s)
    ensures AfterEvents(s, es + fs) == AfterEvents(AfterEvents(s, es), fs)
  {
    if fs == [] {
      assert es + fs == es;
    } else {
      var front := fs[..|fs| - 1];
      AfterConcat(s, es, front);
      assert (es + fs)[..|es + fs| - 1] == es + front;
    }
  }

  lemma OneMore(s: Session, es: seq<Event>, e: Event)
    requires Offsets(s)
    ensures AfterEvents(s, es + [e]) == NextShell(AfterEvents(s, es), e)
  {
    assert (es + [e])[..|es|] == es;
  }

  /** Every byte that has not been read is a token, but for one that the shell is about to read; a task that is not
      on the wait list is not waiting, and nobody else is on it. */
  ghost predicate InBalance(s: Session) {
    && s.sem.count + s.taken + (if s.pc == AtFetch then 1 else 0) == |s.arrived|
    && s.sem.waiters == (if s.pc == Waiting then [SHELL_TASK] else [])
    && (s.pc == Waiting ==> s.sem.count == 0)
  }

  /** Interrupts leave the task's side alone, and wake it if it waits. */
  lemma {:induction false} BytesEffect(s: Session, cs: string)
    requires Offsets(s) && InBalance(s)
    ensures var s' := AfterEvents(s, Bytes(cs));
            && InBalance(s') && s'.console == s.console
            && s'.arrived == s.arrived + cs && s'.taken == s.taken
            && s'.pc == if s.pc == Waiting && cs != "" then AtFetch else s.pc
  {
    if cs == "" {
      assert s.arrived + cs == s.arrived;
    } else {
      var n := |cs| - 1;
      BytesEffect(s, cs[..n]);
      assert Bytes(cs)[..n] == Bytes(cs[..n]);
      assert s.arrived + cs == s.arrived + cs[..n] + [cs[n]];
    }
  }

  /** The object, the editor and the results so far are those of `s`. */
  ghost predicate InStep(cb: ShellCB, ed: LineEditor, out: seq<Dispatch>, names: seq<string>, s: Session)
    reads cb, cb.shellBuf, ed, ed.cmdBuf
  {
    && cb.Matches(s) && InBalance(s)
    && ed.Valid() && ed.Line() == s.console.line
    && |out| == |s.console.lines|
    && forall i :: 0 <= i < |out| ==> Dispatches(s.console.lines[i], names, out[i])
  }

  /** One byte that the task got, through the editor and, at the end of a line, the dispatcher. */
  method Handle(ed: LineEditor, ch: char, names: seq<string>, out: seq<Dispatch>, ghost k: Console)
    returns (results: seq<Dispatch>)
    requires ed.Valid() && ed.Line() == k.line
    requires |out| == |k.lines| && forall i :: 0 <= i < |out| ==> Dispatches(k.lines[i], names, out[i])
    modifies ed`idx, ed.cmdBuf
    ensures ed.Valid()
    ensures var k' := Accept(k, ch);
            && ed.Line() == k'.line && |results| == |k'.lines|
            && forall i :: 0 <= i < |results| ==> Dispatches(k'.lines[i], names, results[i])
  {
    hide Dispatches;
    results := out;
    var done := ed.AcceptByte(ch);
    if done {
      assert Accept(Console(k.line, []), ch) == Console("", [k.line]);
      assert Text(ed.cmdBuf[..]) == k.line;
      var r := DispatchCmd(ed.cmdBuf[..], names);
      assert Accept(k, ch) == Console("", k.lines + [k.line]);
      results := results + [r];
      ed.Clear();
    }
  }

  // ----- what the rounds deliver -----

  /** The bytes that have arrived and the number of them that have been read. */
  datatype Traffic = Traffic(arrived: string, taken: nat)

  /** A round in which the shell only waits: nothing is unread and nothing arrives before the read. */
  predicate Idles(t: Traffic, round: Round) {
    |t.arrived| == t.taken && round.beforePend == "" && round.beforeFetch == ""
  }

  function Delivered(t: Traffic, round: Round): Traffic {
    if Idles(t, round) then t
    else Traffic(t.arrived + round.beforePend + round.beforeFetch + round.beforeAdvance, t.taken + 1)
  }

  /** All bytes of every round in which the shell does more than wait, and one read in each. */
  function Played(rounds: seq<Round>): Traffic {
    if rounds == [] then Traffic("", 0) else Delivered(Played(rounds[..|rounds| - 1]), rounds[|rounds| - 1])
  }

  /** Never more bytes unread than the ring holds. */
  predicate FitsRing(t: Traffic, round: Round) {
    && |t.arrived + round.beforePend + round.beforeFetch| - t.taken <= SHELL_SHOW_MAX_LEN
    && |Delivered(t, round).arrived| - Delivered(t, round).taken <= SHELL_SHOW_MAX_LEN
  }

  predicate AllFitRing(rounds: seq<Round>) {
    rounds != [] ==>
      var front := rounds[..|rounds| - 1];
      AllFitRing(front) && FitsRing(Played(front), rounds[|rounds| - 1])
  }

  /** The run so far is possible, and never had more bytes unread than the ring holds. */
  ghost predicate Held(s0: Session, es: seq<Event>)
    requires Offsets(s0)
  {
    AllHappen(s0, es) && Bounded(s0, es)
  }

  /** One more event, when it is possible and the ring holds what is unread afterwards. */
  lemma HeldNext(s0: Session, es: seq<Event>, e: Event)
    requires Offsets(s0) && Held(s0, es) && CanHappen(AfterEvents(s0, es), e)
    requires Backlog(NextShell(AfterEvents(s0, es), e)) <= SHELL_SHOW_MAX_LEN
    ensures Held(s0, es + [e])
  {
    hide CanHappen, NextShell, AfterEvents, Backlog, AllHappen, Offsets;
    var all := es + [e];
    MoreHappens(s0, es, e, all);
    OneMore(s0, es, e);
    forall i | 0 <= i <= |all| ensures Backlog(AfterEvents(s0, all[..i])) <= SHELL_SHOW_MAX_LEN {
      if i <= |es| { assert all[..i] == es[..i]; } else { assert all[..i] == all; }
    }
  }

  /** A byte is possible while the ring has room, and one more byte is unread then. */
  lemma ByteFits(s: Session, c: char)
    requires Offsets(s) && InBalance(s) && Backlog(s) < SHELL_SHOW_MAX_LEN
    ensures CanHappen(s, Byte(c)) && Backlog(NextShell(s, Byte(c))) == Backlog(s) + 1
  {
  }

  lemma {:induction false} HeldBytes(s0: Session, es: seq<Event>, cs: string)
    requires Offsets(s0) && InBalance(AfterEvents(s0, es)) && Held(s0, es)
    requires Backlog(AfterEvents(s0, es)) + |cs| <= SHELL_SHOW_MAX_LEN
    ensures Held(s0, es + Bytes(cs))
  {
    hide Held, AfterEvents, InBalance, CanHappen, NextShell;
    if cs == "" {
      assert es + Bytes(cs) == es;
    } else {
      var n := |cs| - 1;
      HeldBytes(s0, es, cs[..n]);
      BytesEffect(AfterEvents(s0, es), cs[..n]);
      AfterConcat(s0, es, Bytes(cs[..n]));
      assert es + Bytes(cs) == es + Bytes(cs[..n]) + [Byte(cs[n])];
      ByteFits(AfterEvents(s0, es + Bytes(cs[..n])), cs[n]);
      HeldNext(s0, es + Bytes(cs[..n]), Byte(cs[n]));
    }
  }

  /** Between two rounds. */
  ghost predicate Between(s: Session, t: Traffic, waiting: bool) {
    s.arrived == t.arrived && s.taken == t.taken && s.pc == if waiting then Waiting else AtPend
  }

  /** The loop, for as many rounds as there are points at which bytes may come: it reads one byte in every round in
      which there is one, and when the ring holds what is unread, it dispatches the lines that editing makes of the
      bytes in arrival order. */
  method ShellTask(cb: ShellCB, ed: LineEditor, names: seq<string>, rounds: seq<Round>, ghost s0: Session)
    returns (out: seq<Dispatch>, ghost es: seq<Event>)
    requires Fresh(s0) && cb.Matches(s0) && ed.Valid() && cb.shellBuf != ed.cmdBuf
    modifies cb, cb.shellBuf, ed`idx, ed.cmdBuf
    ensures InStep(cb, ed, out, names, AfterEvents(s0, es))
    ensures AfterEvents(s0, es).arrived == Played(rounds).arrived && AfterEvents(s0, es).taken == Played(rounds).taken
    ensures Held(s0, es) ==> InOrder(AfterEvents(s0, es))
    ensures AllFitRing(rounds) ==>
              var t := Played(rounds);
              && Held(s0, es) && t.taken <= |t.arrived|
              && var k := Feed(t.arrived[..t.taken]);
                 && ed.Valid() && ed.Line() == k.line && |out| == |k.lines|
                 && forall i :: 0 <= i < |out| ==> Dispatches(k.lines[i], names, out[i])
  {
    out, es := [], [];
    var waiting := false;
    ed.Clear();
    for n := 0 to |rounds|
      invariant InStep(cb, ed, out, names, AfterEvents(s0, es))
      invariant Between(AfterEvents(s0, es), Played(rounds[..n]), waiting)
      invariant AllFitRing(rounds[..n]) ==> Held(s0, es)
    {
      hide Played, AllFitRing, InStep, Held, AfterEvents;
      NextRound(rounds, n);
      out, waiting, es := OneRound(cb, ed, names, rounds[n], waiting, out, s0, es, Played(rounds[..n]));
    }
    assert rounds[..|rounds|] == rounds;
    if Held(s0, es) { ShellReadsInOrder(s0, es); }
  }

  lemma NextRound(rounds: seq<Round>, n: nat)
    requires n < |rounds|
    ensures Played(rounds[..n + 1]) == Delivered(Played(rounds[..n]), rounds[n])
    ensures AllFitRing(rounds[..n + 1]) ==> AllFitRing(rounds[..n]) && FitsRing(Played(rounds[..n]), rounds[n])
  {
    assert rounds[..n + 1][..n] == rounds[..n];
  }

  method OneRound(cb: ShellCB, ed: LineEditor, names: seq<string>, round: Round, waiting: bool, out: seq<Dispatch>,
                  ghost s0: Session, ghost es: seq<Event>, ghost t: Traffic)
    returns (results: seq<Dispatch>, waits: bool, ghost all: seq<Event>)
    requires Offsets(s0) && cb.shellBuf != ed.cmdBuf
    requires InStep(cb, ed, out, names, AfterEvents(s0, es)) && Between(AfterEvents(s0, es), t, waiting)
    modifies cb, cb.shellBuf, ed`idx, ed.cmdBuf
    ensures InStep(cb, ed, results, names, AfterEvents(s0, all))
    ensures Between(AfterEvents(s0, all), Delivered(t, round), waits) && (waits <==> Idles(t, round))
    ensures Held(s0, es) && FitsRing(t, round) ==> Held(s0, all)
  {
    hide AfterEvents, Dispatches, Bytes, Accept, Held;
    results, waits, all := out, waiting, es;
    ghost var fits := Held(s0, es) && FitsRing(t, round);
    all := Interrupt(cb, ed, names, results, round.beforePend, s0, all, fits);
    var granted := false;
    if waits {
      granted := round.beforePend != "";
    } else {
      granted := cb.PendRx(AfterEvents(s0, all));
      if fits { HeldNext(s0, all, Run); }
      OneMore(s0, all, Run);
      all := all + [Run];
    }
    all := Interrupt(cb, ed, names, results, round.beforeFetch, s0, all, fits);
    waits := !granted && round.beforeFetch == "";
    if !waits {
      results, all := TakeOne(cb, ed, names, round.beforeAdvance, results, s0, all, fits);
    }
  }

  /** The rest of a round in which there is a byte: it is read, the offset moves on, and the editor gets it. */
  method TakeOne(cb: ShellCB, ed: LineEditor, names: seq<string>, beforeAdvance: string, out: seq<Dispatch>,
                 ghost s0: Session, ghost es: seq<Event>, ghost fits: bool)
    returns (results: seq<Dispatch>, ghost all: seq<Event>)
    requires Offsets(s0) && cb.shellBuf != ed.cmdBuf
    requires InStep(cb, ed, out, names, AfterEvents(s0, es)) && AfterEvents(s0, es).pc == AtFetch
    requires fits ==> var s := AfterEvents(s0, es);
                      Held(s0, es) && Backlog(s) <= SHELL_SHOW_MAX_LEN
                      && Backlog(s) - 1 + |beforeAdvance| <= SHELL_SHOW_MAX_LEN
    modifies cb, cb.shellBuf, ed`idx, ed.cmdBuf
    ensures InStep(cb, ed, results, names, AfterEvents(s0, all))
    ensures var s, s' := AfterEvents(s0, es), AfterEvents(s0, all);
            s'.pc == AtPend && s'.arrived == s.arrived + beforeAdvance && s'.taken == s.taken + 1
    ensures fits ==> Held(s0, all)
  {
    hide AfterEvents, Dispatches, Bytes, Accept, Held;
    var ch := cb.Fetch(AfterEvents(s0, es));
    if fits { HeldNext(s0, es, Run); }
    OneMore(s0, es, Run);
    all := es + [Run];
    all := Interrupt(cb, ed, names, out, beforeAdvance, s0, all, fits);
    ghost var s := AfterEvents(s0, all);
    cb.Advance(s);
    if fits { HeldNext(s0, all, Run); }
    OneMore(s0, all, Run);
    all := all + [Run];
    results := Handle(ed, ch, names, out, s.console);
  }

  /** Bytes arrive; only the ring, the semaphore and a waiting task notice. */
  method Interrupt(cb: ShellCB, ed: LineEditor, ghost names: seq<string>, ghost out: seq<Dispatch>, cs: string,
                   ghost s0: Session, ghost es: seq<Event>, ghost fits: bool)
    returns (ghost all: seq<Event>)
    requires Offsets(s0) && cb.shellBuf != ed.cmdBuf
    requires InStep(cb, ed, out, names, AfterEvents(s0, es))
    requires fits ==> Held(s0, es) && Backlog(AfterEvents(s0, es)) + |cs| <= SHELL_SHOW_MAX_LEN
    modifies cb, cb.shellBuf
    ensures InStep(cb, ed, out, names, AfterEvents(s0, all))
    ensures var s, s' := AfterEvents(s0, es), AfterEvents(s0, all);
            && s'.console == s.console && s'.arrived == s.arrived + cs && s'.taken == s.taken
            && s'.pc == if s.pc == Waiting && cs != "" then AtFetch else s.pc
    ensures fits ==> Held(s0, all)
  {
    hide Dispatches, Held;
    if fits { HeldBytes(s0, es, cs); }
    cb.UartRxHandle(cs, AfterEvents(s0, es));
    BytesEffect(AfterEvents(s0, es), cs);
    AfterConcat(s0, es, Bytes(cs));
    all := es + Bytes(cs);
  }
}
