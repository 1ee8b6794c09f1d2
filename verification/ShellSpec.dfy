/**
  The console input of src/bsp/print.c and src/kernel/shell/shmsg.c: the receive interrupt fills a ring
  and posts a semaphore; the shell task pends on it, takes bytes out of the ring and edits a line.
  Interrupts may come between any two steps of the task.
  */
module ShellSpec {
  import opened KernelSpec
  import opened SemTheorems

  const SHELL_SHOW_MAX_LEN: nat := 272

  // ----- line editing -----

  predicate IsErase(c: char) {
    c == 0x7F as char || c == 0x08 as char
  }

  predicate IsEnd(c: char) {
    c == '\r' || c == '\n'
  }

  predicate IsPrintable(c: char) {
    0x20 <= c as int < 0x7F
  }

  /** The line being typed, and the lines handed to the command dispatcher. */
  datatype Console = Console(line: string, lines: seq<string>)

  function Accept(k: Console, c: char): Console {
    if IsErase(c) then (if k.line == "" then k else k.(line := k.line[..|k.line| - 1]))
    else if IsEnd(c) then Console("", k.lines + [k.line])
    else if IsPrintable(c) && |k.line| < SHELL_SHOW_MAX_LEN - 1 then k.(line := k.line + [c])
    else k
  }

  /** The console after the bytes `cs`. */
  function Feed(cs: seq<char>): Console {
    if cs == [] then Console("", []) else Accept(Feed(cs[..|cs| - 1]), cs[|cs| - 1])
  }

  // ----- interrupts and the shell task -----

  function Wrap(offset: nat): nat {
    if offset + 1 == SHELL_SHOW_MAX_LEN then 0 else offset + 1
  }

  /** Where the shell task is: about to pend, waiting, about to read the ring, or with a byte read. */
  datatype Pc = AtPend | Waiting | AtFetch | Fetched(ch: char)

  /** The ring and its two offsets, the semaphore, the task, the console; and for reference all bytes that
      arrived, and how many were read. */
  datatype Session = Session(buf: seq<char>, offset: nat, readOffset: nat, sem: Queue, pc: Pc, console: Console,
                             arrived: seq<char>, taken: nat)

  const SHELL_TASK: nat := 1

  /** The next byte from the device, or the next step of the task. */
  datatype Event = Byte(c: char) | Run

  predicate CanHappen(s: Session, e: Event) {
    match e
    case Byte(_) => s.sem.count < OS_SEM_COUNT_MAX
    case Run => s.pc != Waiting
  }

  predicate Offsets(s: Session) {
    s.offset < SHELL_SHOW_MAX_LEN && s.readOffset < SHELL_SHOW_MAX_LEN && |s.buf| == SHELL_SHOW_MAX_LEN
  }

  function Receive(s: Session, c: char): Session
    requires Offsets(s)
  {
    s.(buf := s.buf[s.offset := c], offset := Wrap(s.offset), arrived := s.arrived + [c],
       sem := Post(s.sem), pc := if s.sem.waiters != [] then AtFetch else s.pc)
  }

  function RunTask(s: Session): Session
    requires Offsets(s)
  {
    match s.pc
    case AtPend => s.(sem := Pend(s.sem, SHELL_TASK), pc := if s.sem.count > 0 then AtFetch else Waiting)
    case Waiting => s
    case AtFetch => s.(pc := Fetched(s.buf[s.readOffset]), taken := s.taken + 1)
    case Fetched(c) => s.(readOffset := Wrap(s.readOffset), console := Accept(s.console, c), pc := AtPend)
  }

  function NextShell(s: Session, e: Event): (s': Session)
    requires Offsets(s)
    ensures Offsets(s')
  {
    if e.Run? then RunTask(s) else Receive(s, e.c)
  }

  function AfterEvents(s: Session, es: seq<Event>): (s': Session)
    requires Offsets(s)
    ensures Offsets(s')
  {
    if es == [] then s else NextShell(AfterEvents(s, es[..|es| - 1]), es[|es| - 1])
  }

  ghost predicate AllHappen(s: Session, es: seq<Event>)
    requires Offsets(s)
  {
    forall i :: 0 <= i < |es| ==> CanHappen(AfterEvents(s, es[..i]), es[i])
  }

  predicate Fresh(s: Session) {
    && Offsets(s) && s.offset == 0 && s.readOffset == 0
    && s.sem == Queue(0, []) && s.pc == AtPend && s.console == Console("", [])
    && s.arrived == [] && s.taken == 0
  }
}
