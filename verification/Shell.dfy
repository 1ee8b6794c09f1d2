/** src/bsp/print.c and src/kernel/shell/shmsg.c: the receive ring, the line editor and the dispatcher. */
module Shell {
  import opened CStrings
  import opened SemTheorems
  import opened ShellSpec

  function Bytes(cs: seq<char>): (es: seq<Event>)
    ensures |es| == |cs|
  {
    seq(|cs|, i requires 0 <= i < |cs| => Byte(cs[i]))
  }

  class ShellCB {
    const shellBuf: array<char>
    var shellBufOffset: nat
    var shellBufReadOffset: nat
    var semUartRx: Queue

    /** The ring, its offsets and the semaphore are those of `s`. */
    ghost predicate Matches(s: Session)
      reads this, shellBuf
    {
      && Offsets(s)
      && shellBuf[..] == s.buf
      && shellBufOffset == s.offset && shellBufReadOffset == s.readOffset
      && semUartRx == s.sem
    }

    constructor ()
      ensures fresh(shellBuf)
      ensures exists s :: Fresh(s) && Matches(s)
    {
      shellBuf := new char[SHELL_SHOW_MAX_LEN];
      shellBufOffset, shellBufReadOffset, semUartRx := 0, 0, Queue(0, []);
      new;
      ghost var s := Session(shellBuf[..], 0, 0, Queue(0, []), AtPend, Console("", []), [], 0);
      assert Fresh(s) && Matches(s);
    }

    /** OsUartRxHandle: take bytes until the device has none; `fifo` is what the device has. */
    method UartRxHandle(fifo: seq<char>, ghost s: Session)
      requires Matches(s)
      modifies this, shellBuf
      ensures Matches(AfterEvents(s, Bytes(fifo)))
    {
      var i := 0;
      while i < |fifo|
        invariant 0 <= i <= |fifo|
        invariant Matches(AfterEvents(s, Bytes(fifo)[..i]))
      {
        shellBuf[shellBufOffset] := fifo[i];
        shellBufOffset := shellBufOffset + 1;
        if shellBufOffset == SHELL_SHOW_MAX_LEN {
          shellBufOffset := 0;
        }
        semUartRx := Post(semUartRx);
        i := i + 1;
        assert Bytes(fifo)[..i][..i - 1] == Bytes(fifo)[..i - 1];
      }
      assert Bytes(fifo)[..i] == Bytes(fifo);
    }

    /** PRT_SemPend on the receive semaphore: whether the task goes on at once. */
    method PendRx(ghost s: Session) returns (granted: bool)
      requires Matches(s) && s.pc == AtPend
      modifies this`semUartRx
      ensures granted <==> s.sem.count > 0
      ensures NextShell(s, Run).pc == (if granted then AtFetch else Waiting) && Matches(NextShell(s, Run))
    {
      granted := semUartRx.count > 0;
      semUartRx := Pend(semUartRx, SHELL_TASK);
    }

    /** The first half of a read by the shell: the byte. */
    method Fetch(ghost s: Session) returns (ch: char)
      requires Matches(s) && s.pc == AtFetch
      ensures NextShell(s, Run).pc == Fetched(ch) && Matches(NextShell(s, Run))
    {
      ch := shellBuf[shellBufReadOffset];
    }

    /** The second half: the offset. */
    method Advance(ghost s: Session)
      requires Matches(s) && s.pc.Fetched?
      modifies this`shellBufReadOffset
      ensures Matches(NextShell(s, Run))
    {
      shellBufReadOffset := shellBufReadOffset + 1;
      if shellBufReadOffset == SHELL_SHOW_MAX_LEN {
        shellBufReadOffset := 0;
      }
    }
  }

  /** The command buffer of ShellTask. */
  class LineEditor {
    const cmdBuf: array<char>
    var idx: nat

    ghost predicate Valid()
      reads this, cmdBuf
    {
      && cmdBuf.Length == SHELL_SHOW_MAX_LEN && idx < SHELL_SHOW_MAX_LEN
      && forall i :: 0 <= i < idx ==> IsPrintable(cmdBuf[i])
    }

    ghost function Line(): string
      requires Valid()
      reads this, cmdBuf
    {
      cmdBuf[..idx]
    }

    constructor ()
      ensures Valid() && fresh(cmdBuf) && Line() == ""
    {
      cmdBuf := new char[SHELL_SHOW_MAX_LEN];
      idx := 0;
    }

    /** The start of a prompt: an empty line in a zeroed buffer. */
    method Clear()
      requires Valid()
      modifies this`idx, cmdBuf
      ensures Valid() && Line() == ""
      ensures forall i :: 0 <= i < cmdBuf.Length ==> cmdBuf[i] == NUL
    {
      idx := 0;
      for i := 0 to SHELL_SHOW_MAX_LEN
        invariant idx == 0 && forall j :: 0 <= j < i ==> cmdBuf[j] == NUL
      {
        cmdBuf[i] := NUL;
      }
    }

    /** One byte: edit the line, or end it, terminated as a C string, for the dispatcher. */
    method AcceptByte(ch: char) returns (done: bool)
      requires Valid()
      modifies this`idx, cmdBuf
      ensures Valid()
      ensures done <==> ch == '\r' || ch == '\n'
      ensures var k := Accept(Console(old(Line()), []), ch);
              if done then k == Console("", [Line()]) && Text(cmdBuf[..]) == Line() else k == Console(Line(), [])
    {
      done := false;
      if IsErase(ch) {
        if idx > 0 {
          idx := idx - 1;
          cmdBuf[idx] := NUL;
          assert cmdBuf[..idx] == old(Line())[..|old(Line())| - 1];
        }
      } else if IsEnd(ch) {
        cmdBuf[idx] := NUL;
        assert cmdBuf[..idx] == old(Line());
        TextIs(cmdBuf[..], idx);
        done := true;
      } else if IsPrintable(ch) {
        if idx < SHELL_SHOW_MAX_LEN - 1 {
          cmdBuf[idx] := ch;
          idx := idx + 1;
          assert cmdBuf[..idx] == old(Line()) + [ch];
        }
      }
    }
  }

  lemma {:induction false} TextIs(s: string, n: nat)
    requires n < |s| && s[n] == NUL
    requires forall i :: 0 <= i < n ==> s[i] != NUL
    ensures Text(s) == s[..n]
  {
    assert Length(s) == n;
  }

  // ----- command dispatch -----

  /** The characters before the first space. */
  function FirstWord(line: string): (w: string)
    ensures |w| <= |line| && w == line[..|w|]
    ensures forall i :: 0 <= i < |w| ==> w[i] != ' ' && w[i] != NUL
    ensures At(line, |w|) == ' ' || At(line, |w|) == NUL
  {
    if line == "" || line[0] == ' ' || line[0] == NUL then "" else [line[0]] + FirstWord(line[1..])
  }

  const MAX_TOKEN: nat := 15

  /** What fits the dispatcher's token buffer. */
  function Token(line: string): string {
    var w := FirstWord(line);
    if |w| <= MAX_TOKEN then w else w[..MAX_TOKEN]
  }

  datatype Dispatch = Nothing | Handler(index: nat, args: nat) | Unknown(cmd: string)

  method StrEqual(a: string, b: string) returns (equal: bool)
    ensures equal <==> Text(a) == Text(b)
  {
    var i := 0;
    while At(a, i) != NUL && At(b, i) != NUL
      invariant i <= Length(a) && i <= Length(b)
      invariant forall j :: 0 <= j < i ==> a[j] == b[j]
      decreases |a| - i
    {
      if a[i] != b[i] {
        assert Text(a)[i] != Text(b)[i];
        return false;
      }
      i := i + 1;
    }
    equal := At(a, i) == NUL && At(b, i) == NUL;
    if equal {
      assert Text(a) == Text(b);
    } else {
      assert Length(a) != Length(b);
    }
  }

  /** What dispatching `text` comes to, for a table of command names: the first command whose name is the
      token, with the text behind the spaces; nothing for an empty line; unknown if no name is the token. */
  ghost predicate Dispatches(text: string, names: seq<string>, r: Dispatch) {
    && (r == Nothing <==> text == "")
    && (r.Handler? ==>
          && r.index < |names| && Text(names[r.index]) == Token(text)
          && (forall j :: 0 <= j < r.index ==> Text(names[j]) != Token(text))
          && |Token(text)| <= r.args <= |text| && At(text, r.args) != ' '
          && (forall j :: |Token(text)| <= j < r.args ==> text[j] == ' '))
    && (r.Unknown? ==> r.cmd == Token(text) && forall j :: 0 <= j < |names| ==> Text(names[j]) != Token(text))
  }

  /** ShellDispatchCmd: which handler runs, with its arguments. */
  method DispatchCmd(line: string, names: seq<string>) returns (r: Dispatch)
    ensures Dispatches(Text(line), names, r)
  {
    if At(line, 0) == NUL {
      return Nothing;
    }
    ghost var text, token := Text(line), Token(Text(line));
    var cmd := TakeToken(line);
    var args := SkipSpaces(line, Length(cmd));
    for idx := 0 to |names|
      invariant forall j :: 0 <= j < idx ==> Text(names[j]) != token
    {
      var equal := StrEqual(cmd, names[idx]);
      if equal {
        return Handler(idx, args);
      }
    }
    r := Unknown(Text(cmd));
  }

  /** The characters up to the first space, cut to what the buffer of 16 characters holds with its NUL. */
  method TakeToken(line: string) returns (token: string)
    ensures Text(token) == Token(Text(line)) && Length(token) == |Token(Text(line))|
  {
    var cmd := new char[MAX_TOKEN + 1];
    ghost var text, w := Text(line), FirstWord(Text(line));
    var i := 0;
    while At(line, i) != NUL && At(line, i) != ' ' && i < MAX_TOKEN
      invariant i <= |w| && i <= MAX_TOKEN
      invariant cmd[..i] == text[..i]
      decreases |line| - i
    {
      cmd[i] := line[i];
      i := i + 1;
    }
    assert text[..i] == Token(text);
    cmd[i] := NUL;
    token := cmd[..];
    assert token[..i] == Token(text);
    TextIs(token, i);
  }

  method SkipSpaces(line: string, start: nat) returns (args: nat)
    requires start <= Length(line)
    ensures start <= args <= Length(line) && At(Text(line), args) != ' '
    ensures forall j :: start <= j < args ==> line[j] == ' '
  {
    args := start;
    while At(line, args) == ' '
      invariant start <= args <= Length(line)
      invariant forall j :: start <= j < args ==> line[j] == ' '
      decreases |line| - args
    {
      args := args + 1;
    }
  }

  /** Cutting the token never confuses commands: with names below the cut, the token is a name exactly when
      the whole first word is. */
  lemma TokenIsWord(line: string, name: string)
    requires |name| < MAX_TOKEN
    ensures Token(line) == name <==> FirstWord(line) == name
  {
  }

  const COMMANDS: seq<string> := ["help", "ps", "top", "tick", "memstat", "semstat", "ipc", "ipcs", "demo", "quit"]

  /** The shipped table: every name is below the cut, a word of its own, and listed once. */
  lemma CommandTable(i: nat, j: nat)
    requires i < |COMMANDS| && j < |COMMANDS|
    ensures |COMMANDS[i]| < MAX_TOKEN && FirstWord(COMMANDS[i]) == COMMANDS[i] != ""
    ensures COMMANDS[i] == COMMANDS[j] ==> i == j
  {
    WordIsItself(COMMANDS[i]);
  }

  lemma {:induction false} WordIsItself(w: string)
    requires forall i :: 0 <= i < |w| ==> w[i] != ' ' && w[i] != NUL
    ensures FirstWord(w) == w
  {
  }

  /** The text begins with the word `w`, and then ends or goes on behind a space. */
  predicate BeginsWith(text: string, w: string) {
    |w| <= |text| && text[..|w|] == w && (|text| == |w| || text[|w|] == ' ')
  }

  /** With the shipped table a command runs exactly when the line begins with its name, however long the rest. */
  lemma CommandRuns(text: string, r: Dispatch, i: nat)
    requires Length(text) == |text| && Dispatches(text, COMMANDS, r) && i < |COMMANDS|
    ensures r.Handler? && r.index == i <==> BeginsWith(text, COMMANDS[i])
  {
    NameIs(i);
    TokenIsWord(text, COMMANDS[i]);
    BeginsWithWord(text, COMMANDS[i]);
    if r.Handler? {
      NameIs(r.index);
      CommandTable(r.index, i);
    }
    hide Token, FirstWord, BeginsWith, COMMANDS;
  }

  /** A line is unknown exactly when it is not empty and begins with no name of the table. */
  lemma UnknownCommand(text: string, r: Dispatch)
    requires Length(text) == |text| && Dispatches(text, COMMANDS, r)
    ensures r.Unknown? <==> text != "" && forall i :: 0 <= i < |COMMANDS| ==> !BeginsWith(text, COMMANDS[i])
  {
    forall i | 0 <= i < |COMMANDS| ensures r.Handler? && r.index == i <==> BeginsWith(text, COMMANDS[i]) {
      CommandRuns(text, r, i);
    }
    hide BeginsWith, COMMANDS, Token;
  }

  lemma NameIs(i: nat)
    requires i < |COMMANDS|
    ensures |COMMANDS[i]| < MAX_TOKEN && FirstWord(COMMANDS[i]) == COMMANDS[i] == Text(COMMANDS[i]) != ""
  {
    CommandTable(i, i);
    hide COMMANDS;
    assert Length(COMMANDS[i]) == |COMMANDS[i]|;
  }

  lemma BeginsWithWord(text: string, w: string)
    requires Length(text) == |text| && FirstWord(w) == w
    ensures BeginsWith(text, w) <==> FirstWord(text) == w
  {
  }
}
