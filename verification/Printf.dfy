/**
  src/bsp/vsnprintf_s.c: the formatter, writing into a bounded buffer. Every method carries a
  position `str` that runs on past the end of the buffer, and stores a character only below `end`.
  */
module Printf {
  import opened CStrings
  import opened FormatSpec
  import opened FormatTheorems

  /** What a buffer holds after `text` was put at position `str`: the part below `end` is stored. */
  ghost function Written(was: seq<char>, str: nat, end: nat, text: string): (now: seq<char>)
    requires end <= |was|
    ensures |now| == |was|
  {
    seq(|was|, i requires 0 <= i < |was| => if str <= i < str + |text| && i < end then text[i - str] else was[i])
  }

  lemma WrittenNothing(was: seq<char>, str: nat, end: nat)
    requires end <= |was|
    ensures Written(was, str, end, "") == was
  {
  }

  /** Putting two texts one after the other is putting their concatenation. */
  lemma WrittenTwice(was: seq<char>, str: nat, end: nat, t: string, u: string)
    requires end <= |was|
    ensures Written(Written(was, str, end, t), str + |t|, end, u) == Written(was, str, end, t + u)
  {
  }

  method Put(buf: array<char>, end: nat, str: nat, c: char) returns (next: nat)
    requires end <= buf.Length
    modifies buf
    ensures next == str + 1
    ensures buf[..] == Written(old(buf[..]), str, end, [c])
  {
    if str < end {
      buf[str] := c;
    }
    next := str + 1;
    assert buf[..] == Written(old(buf[..]), str, end, [c]);
  }

  /** The loop `while (size-- > 0)` that pads with `c`; `left` is what it leaves in `size`. */
  method Fill(buf: array<char>, end: nat, str: nat, c: char, size: int32) returns (next: nat, left: int32)
    requires end <= buf.Length && size > INT_MIN
    modifies buf
    ensures next == str + |Rep(c, size)|
    ensures buf[..] == Written(old(buf[..]), str, end, Rep(c, size))
    ensures left == if size > 0 then -1 else size - 1
  {
    ghost var was := buf[..];
    ghost var k := 0;
    next, left := str, size;
    WrittenNothing(was, str, end);
    while left > 0
      invariant k >= 0 && left == size - k && (k > 0 ==> left >= 0)
      invariant next == str + k
      invariant buf[..] == Written(was, str, end, Rep(c, k))
    {
      left := left - 1;
      next := Put(buf, end, next, c);
      WrittenTwice(was, str, end, Rep(c, k), [c]);
      k := k + 1;
    }
    left := left - 1;
  }

  /** The loop `while (len < field_width--)` that pads to a width; `left` is what it leaves in `field_width`. */
  method FillTo(buf: array<char>, end: nat, str: nat, len: int32, width: int32) returns (next: nat, left: int32)
    requires end <= buf.Length && len >= 0 && width > INT_MIN
    modifies buf
    ensures next == str + |Rep(' ', width - len)|
    ensures buf[..] == Written(old(buf[..]), str, end, Rep(' ', width - len))
    ensures left == if width > len then len - 1 else width - 1
  {
    ghost var was := buf[..];
    ghost var k := 0;
    next, left := str, width;
    WrittenNothing(was, str, end);
    while len < left
      invariant k >= 0 && left == width - k && (k > 0 ==> left >= len)
      invariant next == str + k
      invariant buf[..] == Written(was, str, end, Rep(' ', k))
    {
      left := left - 1;
      next := Put(buf, end, next, ' ');
      WrittenTwice(was, str, end, Rep(' ', k), [' ']);
      k := k + 1;
    }
    left := left - 1;
  }

  method Divide(n: nat, base: nat) returns (res: nat, rest: nat)
    requires IsBase(base)
    ensures res == Rem(n, base) && rest == Quot(n, base)
  {
    res := n % base;
    rest := n / base;
  }

  lemma LastDigit(ds: string, i: nat, rest: string, c: char)
    requires i <= |ds| && ds[..|ds| - i] == rest + [c]
    ensures i < |ds| && ds[|ds| - 1 - i] == c && ds[..|ds| - i - 1] == rest
  {
    assert rest == ds[..|ds| - i][..|rest|];
    assert c == ds[..|ds| - i][|rest|];
  }

  /** The digits of a number, least significant first, in a scratch buffer of 32 characters. */
  method Extract(m: nat, base: nat, large: bool) returns (tmp: array<char>, i: nat)
    requires IsBase(base)
    requires |Digits(m, base, large)| <= 32
    ensures fresh(tmp) && i == |Digits(m, base, large)| <= tmp.Length
    ensures forall j :: 0 <= j < i ==> tmp[j] == Digits(m, base, large)[i - 1 - j]
  {
    hide DigitChar, Quot, Rem;
    tmp := new char[32];
    i := 0;
    ghost var ds := Digits(m, base, large);
    if m == 0 {
      tmp[i] := '0';
      i := i + 1;
    } else {
      var num := m;
      while num != 0
        invariant i <= |ds| && DigitsOf(num, base, large) == ds[..|ds| - i]
        invariant forall j :: 0 <= j < i ==> tmp[j] == ds[|ds| - 1 - j]
        decreases num
      {
        var d, rest := Divide(num, base);
        LastDigit(ds, i, DigitsOf(rest, base, large), DigitChar(d, large));
        tmp[i] := DigitChar(d, large);
        num, i := rest, i + 1;
      }
    }
  }

  /** The characters of the scratch buffer, backwards. */
  method Unload(buf: array<char>, end: nat, str: nat, tmp: array<char>, n: nat, ghost ds: string) returns (next: nat)
    requires end <= buf.Length && tmp != buf
    requires n == |ds| <= tmp.Length
    requires forall j :: 0 <= j < n ==> tmp[j] == ds[n - 1 - j]
    modifies buf
    ensures next == str + n
    ensures buf[..] == Written(old(buf[..]), str, end, ds)
  {
    ghost var was := buf[..];
    var i := n;
    next := str;
    WrittenNothing(was, str, end);
    while i > 0
      invariant 0 <= i <= n && next == str + n - i
      invariant forall j :: 0 <= j < n ==> tmp[j] == ds[n - 1 - j]
      invariant buf[..] == Written(was, str, end, ds[..n - i])
    {
      i := i - 1;
      next := Put(buf, end, next, tmp[i]);
      assert ds[..n - i] == ds[..n - i - 1] + [tmp[i]];
      WrittenTwice(was, str, end, ds[..n - i - 1], [tmp[i]]);
    }
    assert ds[..n] == ds;
  }

  /** Two counts that pad alike. */
  ghost predicate Same(x: int, y: int) {
    x == y || (x <= 0 && y <= 0)
  }

  lemma SameRep(c: char, x: int, y: int)
    ensures Same(x, y) ==> Rep(c, x) == Rep(c, y)
    ensures y <= 0 ==> Rep(c, y) == ""
  {
  }

  /** One more stage: what was put so far, and the new text behind it. */
  lemma Stage(was: seq<char>, str: nat, end: nat, mid: seq<char>, done: string, t: string, now: seq<char>)
    requires end <= |was|
    requires mid == Written(was, str, end, done)
    requires now == Written(mid, str + |done|, end, t)
    ensures now == Written(was, str, end, done + t)
  {
    WrittenTwice(was, str, end, done, t);
  }

  /** What the three parts of PrintNumber put, together. */
  lemma NumberJoins(n: nat, base: nat, q: char, s: int, p: int, f: Flags,
                    lead: int, c: char, fill: int, zeros: int, trail: int)
    requires IsBase(base)
    requires var pad := s - Columns(Magnitude(n, q, f), base, p) - |SignOf(n, q, f)|;
             if f.left then lead <= 0 && fill <= 0 && Same(trail, pad)
             else if f.zeroPad then lead <= 0 && Same(fill, pad) && trail <= 0
             else Same(lead, pad) && fill <= 0 && trail <= 0
    requires f.left || c == if f.zeroPad then '0' else ' '
    requires Same(zeros, p - |Digits(Magnitude(n, q, f), base, f.large)|)
    ensures var ds := if p == 0 then "" else Digits(Magnitude(n, q, f), base, f.large);
            Number(n, base, q, s, p, f)
            == (Rep(' ', lead) + SignOf(n, q, f)) + (Rep(c, fill) + Rep('0', zeros)) + (ds + Rep(' ', trail))
  {
    hide Digits, Magnitude, SignOf, Rep, Columns, Number;
    var sign, ds := SignOf(n, q, f), Digits(Magnitude(n, q, f), base, f.large);
    var pad := s - Columns(Magnitude(n, q, f), base, p) - |sign|;
    NumberIs(n, base, q, s, p, f);
    SameRep(' ', lead, if f.left || f.zeroPad then 0 else pad);
    SameRep(c, fill, if f.zeroPad && !f.left then pad else 0);
    SameRep('0', zeros, p - |ds|);
    SameRep(' ', trail, if f.left then pad else 0);
    Regrouped(Rep(' ', lead), sign, Rep(c, fill), Rep('0', zeros), if p == 0 then "" else ds, Rep(' ', trail));
  }

  lemma NumberIs(n: nat, base: nat, q: char, s: int, p: int, f: Flags)
    requires IsBase(base)
    ensures var sign, ds := SignOf(n, q, f), Digits(Magnitude(n, q, f), base, f.large);
            var pad := s - Columns(Magnitude(n, q, f), base, p) - |sign|;
            var body := Rep('0', p - |ds|) + if p == 0 then "" else ds;
            Number(n, base, q, s, p, f) == if f.left then sign + body + Rep(' ', pad)
                                           else if f.zeroPad then sign + Rep('0', pad) + body
                                           else Rep(' ', pad) + sign + body
  {
  }

  /** Empty parts fall out. */
  lemma Regrouped(lead: string, sign: string, fill: string, zeros: string, ds: string, trail: string)
    ensures var all := (lead + sign) + (fill + zeros) + (ds + trail);
            && (lead == "" && fill == "" ==> all == sign + (zeros + ds) + trail)
            && (lead == "" && trail == "" ==> all == sign + fill + (zeros + ds))
            && (fill == "" && trail == "" ==> all == lead + sign + (zeros + ds))
  {
    var all := (lead + sign) + (fill + zeros) + (ds + trail);
    if lead == "" && fill == "" { assert all == sign + (zeros + ds) + trail; }
    if lead == "" && trail == "" { assert all == sign + fill + (zeros + ds); }
    if fill == "" && trail == "" { assert all == lead + sign + (zeros + ds); }
  }

  function Opt(sign: char): string {
    if sign == NUL then "" else [sign]
  }

  /** The sign to print, NUL for none, and the number left to print. */
  method FindSign(n: nat, qualifier: char, f: Flags) returns (sign: char, num: nat)
    ensures Opt(sign) == SignOf(n, qualifier, f) && num == Magnitude(n, qualifier, f)
  {
    hide Signed, Unsigned, Width;
    sign, num := NUL, n;
    if f.sign {
      if Signed(Width(qualifier), num) < 0 {
        sign := '-';
        num := Unsigned(Width(qualifier), (0 as int) - num);
      }
      if sign != '-' {
        if f.plus {
          sign := '+';
        } else if f.space {
          sign := ' ';
        }
      }
    }
  }

  /** Spaces before the sign, unless zeros or nothing should stand there, then the sign. */
  method PutSign(buf: array<char>, end: nat, str: nat, sign: char, spaces: bool, size: int32)
    returns (next: nat, left: int32, ghost lead: int)
    requires end <= buf.Length
    requires size - (if spaces then 1 else 0) - |Opt(sign)| >= INT_MIN
    modifies buf
    ensures next == str + |Rep(' ', lead) + Opt(sign)|
    ensures buf[..] == Written(old(buf[..]), str, end, Rep(' ', lead) + Opt(sign))
    ensures if spaces then Same(lead, size - |Opt(sign)|) && left < 0 else lead == 0 && left == size - |Opt(sign)|
    ensures spaces ==> if size > 0 then left >= -2 else left == size - 1 - |Opt(sign)|
  {
    hide Written;
    ghost var was := buf[..];
    next, left, lead := str, size, 0;
    WrittenNothing(was, str, end);
    if spaces {
      if sign != NUL && left > 0 {
        left := left - 1;
      }
      lead := left;
      next, left := Fill(buf, end, next, ' ', left);
    }
    ghost var mid := buf[..];
    if sign != NUL {
      next := Put(buf, end, next, sign);
      left := left - 1;
      Stage(was, str, end, mid, Rep(' ', lead), [sign], buf[..]);
    } else {
      assert Rep(' ', lead) + "" == Rep(' ', lead);
    }
  }

  /** Padding before the digits unless they are flush left, then the zeros the precision demands. */
  method PutZeros(buf: array<char>, end: nat, str: nat, c: char, left: bool, size: int32, zeros: int32)
    returns (next: nat, rest: int32, ghost fill: int)
    requires end <= buf.Length && zeros >= 0 && (!left ==> size > INT_MIN)
    modifies buf
    ensures next == str + |Rep(c, fill) + Rep('0', zeros)|
    ensures buf[..] == Written(old(buf[..]), str, end, Rep(c, fill) + Rep('0', zeros))
    ensures if left then fill == 0 && rest == size else fill == size && rest == if size > 0 then -1 else size - 1
  {
    hide Written;
    ghost var was := buf[..];
    next, rest, fill := str, size, 0;
    WrittenNothing(was, str, end);
    if !left {
      fill := rest;
      next, rest := Fill(buf, end, next, c, rest);
    }
    ghost var mid := buf[..];
    var over;
    next, over := Fill(buf, end, next, '0', zeros);
    Stage(was, str, end, mid, Rep(c, fill), Rep('0', zeros), buf[..]);
  }

  /** The digits unless the precision is 0, then the padding that is still due. */
  method PutDigits(buf: array<char>, end: nat, str: nat, tmp: array<char>, i: nat, p: int32, size: int32,
                   ghost ds: string)
    returns (next: nat, last: int32)
    requires end <= buf.Length && tmp != buf && size > INT_MIN
    requires i == |ds| <= tmp.Length
    requires forall j :: 0 <= j < i ==> tmp[j] == ds[i - 1 - j]
    modifies buf
    ensures next == str + |(if p == 0 then "" else ds) + Rep(' ', size)|
    ensures buf[..] == Written(old(buf[..]), str, end, (if p == 0 then "" else ds) + Rep(' ', size))
    ensures last == if size > 0 then -1 else size - 1
  {
    hide Written;
    ghost var was := buf[..];
    next := str;
    WrittenNothing(was, str, end);
    if p != 0 {
      next := Unload(buf, end, next, tmp, i, ds);
    }
    ghost var mid := buf[..];
    next, last := Fill(buf, end, next, ' ', size);
    Stage(was, str, end, mid, if p == 0 then "" else ds, Rep(' ', size), buf[..]);
  }

  /** What `size` has been reduced by at the end, when the number fills its field: once for each of up to three
      padding loops, and once for the sign. */
  function Decrements(sign: string, f: Flags): nat {
    (if f.left then 1 else if f.zeroPad then 2 else 3) + |sign|
  }

  /** In printing this number `size` stays an `int`. */
  predicate StaysInt(n: nat, base: nat, q: char, s: int, p: int, f: Flags)
    requires IsBase(base)
  {
    s - Columns(Magnitude(n, q, f), base, p) - Decrements(SignOf(n, q, f), f) >= INT_MIN
  }

  /** `last` is what is left in `size`: the least value it takes, unless there was something to pad. */
  method PrintNumber(buf: array<char>, end: nat, str: nat, n: nat, base: nat, qualifier: char, s: int32, p: int32,
                     f: Flags)
    returns (next: nat, last: int32)
    requires end <= buf.Length
    requires IsBase(base)
    requires |Digits(Magnitude(n, qualifier, f), base, f.large)| <= 32
    requires StaysInt(n, base, qualifier, s, p, f)
    modifies buf
    ensures next == str + |Number(n, base, qualifier, s, p, f)|
    ensures buf[..] == Written(old(buf[..]), str, end, Number(n, base, qualifier, s, p, f))
    ensures var room := s - Columns(Magnitude(n, qualifier, f), base, p);
            room <= 0 ==> last == room - Decrements(SignOf(n, qualifier, f), f)
  {
    hide Written, Rep, Digits, SignOf, Magnitude, Number, Opt;
    ghost var was := buf[..];
    var zeroPad := f.zeroPad && !f.left;
    var c := if zeroPad then '0' else ' ';
    var sign, num := FindSign(n, qualifier, f);
    var tmp, i := Extract(num, base, f.large);
    ghost var ds := Digits(num, base, f.large);
    SameColumns(num, base, f.large);
    OneSign(sign);
    var precision: int32 := if i > p then i else p;
    var size: int32 := s - precision;
    ghost var lead, fill;
    next, size, lead := PutSign(buf, end, str, sign, !(zeroPad || f.left), size);
    ghost var t1, mid := Rep(' ', lead) + Opt(sign), buf[..];
    next, size, fill := PutZeros(buf, end, next, c, f.left, size, precision - i);
    ghost var t2 := Rep(c, fill) + Rep('0', precision - i);
    Stage(was, str, end, mid, t1, t2, buf[..]);
    mid := buf[..];
    ghost var trail := size;
    next, last := PutDigits(buf, end, next, tmp, i, p, size, ds);
    ghost var t3 := (if p == 0 then "" else ds) + Rep(' ', trail);
    Stage(was, str, end, mid, t1 + t2, t3, buf[..]);
    NumberJoins(n, base, qualifier, s, p, f, lead, c, fill, precision - i, trail);
  }

  lemma OneSign(sign: char)
    ensures |Opt(sign)| <= 1
  {}

  // ----- one directive -----

  /** `i * 10 + *s++ - '0'` is computed from the left, so the character itself is added before '0' is taken off. */
  method SkipAtoi(fmt: string, p: nat) returns (i: int32, next: nat)
    requires p <= |fmt| && AtoiStaysInt(fmt, p, 0)
    ensures i >= 0 && (i as nat, next) == ReadNumber(fmt, p, 0) && p <= next <= |fmt|
  {
    i, next := 0, p;
    while IsDigit(At(fmt, next))
      invariant p <= next <= |fmt| && i >= 0 && ReadNumber(fmt, next, i) == ReadNumber(fmt, p, 0)
      invariant AtoiStaysInt(fmt, next, i)
      decreases |fmt| - next
    {
      var tens: int32 := i * 10;
      var sum: int32 := tens + fmt[next] as int;
      i := sum - '0' as int;
      next := next + 1;
    }
  }

  /** No value that is computed in reading a number leaves `int`. */
  predicate AtoiStaysInt(fmt: string, p: nat, i: nat)
    decreases |fmt| - p
  {
    p < |fmt| && IsDigit(fmt[p]) ==>
      && i * 10 + fmt[p] as int <= INT_MAX
      && AtoiStaysInt(fmt, p + 1, i * 10 + (fmt[p] as int - '0' as int))
  }

  lemma {:induction false} NumberGrows(fmt: string, p: nat, i: nat)
    ensures ReadNumber(fmt, p, i).0 >= i
    decreases |fmt| - p
  {
    if p < |fmt| && IsDigit(fmt[p]) { NumberGrows(fmt, p + 1, 10 * i + (fmt[p] as int - '0' as int)); }
  }

  /** That is so exactly when the number itself is at most the largest `int` less the code of '0'. */
  lemma {:induction false} AtoiIsExact(fmt: string, p: nat, i: nat)
    requires p < |fmt| && IsDigit(fmt[p])
    ensures AtoiStaysInt(fmt, p, i) <==> ReadNumber(fmt, p, i).0 <= INT_MAX - '0' as int
    decreases |fmt| - p
  {
    var i' := 10 * i + (fmt[p] as int - '0' as int);
    NumberGrows(fmt, p + 1, i');
    if p + 1 < |fmt| && IsDigit(fmt[p + 1]) { AtoiIsExact(fmt, p + 1, i'); }
  }

  /** Width and precision are read without leaving `int`: numbers in the format as above, and a star's argument
      unless it is a width that cannot be negated. */
  predicate ReadsStayInt(fmt: string, p: nat, args: seq<Arg>, a: nat) {
    var (f, q) := ReadFlags(fmt, p, NO_FLAGS);
    var w := ReadWidth(fmt, q, args, a, f);
    && AtoiStaysInt(fmt, q, 0)
    && (At(fmt, q) == '*' ==> Signed(32, NextNum(args, a)) != INT_MIN)
    && (At(fmt, w.p) == '.' ==> AtoiStaysInt(fmt, w.p + 1, 0))
  }

  /** A width of 2^32 + 3 leaves `int`. */
  lemma WideFieldLeavesInt(args: seq<Arg>)
    ensures ReadNumber("%4294967299d", 1, 0).0 == 0x1_0000_0003
    ensures !ReadsStayInt("%4294967299d", 1, args, 0)
  {
    hide ReadNumber, AtoiStaysInt, ReadFlags, ReadWidth;
    WideField();
    AtoiIsExact("%4294967299d", 1, 0);
  }

  lemma WideField()
    ensures ReadFlags("%4294967299d", 1, NO_FLAGS) == (NO_FLAGS, 1)
    ensures ReadNumber("%4294967299d", 1, 0).0 == 0x1_0000_0003
  {
    var fmt := "%4294967299d";
    assert ReadNumber(fmt, 9, 42949672).0 == 0x1_0000_0003;
    assert ReadNumber(fmt, 7, 429496) == ReadNumber(fmt, 9, 42949672);
    assert ReadNumber(fmt, 5, 4294) == ReadNumber(fmt, 7, 429496);
    assert ReadNumber(fmt, 3, 42) == ReadNumber(fmt, 5, 4294);
  }

  method SkipFlags(fmt: string, p: nat) returns (f: Flags, next: nat)
    requires p <= |fmt|
    ensures (f, next) == ReadFlags(fmt, p, NO_FLAGS) && p <= next <= |fmt|
  {
    f, next := NO_FLAGS, p;
    while true
      invariant p <= next <= |fmt| && ReadFlags(fmt, next, f) == ReadFlags(fmt, p, NO_FLAGS)
      decreases |fmt| - next
    {
      var c := At(fmt, next);
      if c == '-' { f := f.(left := true); }
      else if c == '+' { f := f.(plus := true); }
      else if c == ' ' { f := f.(space := true); }
      else if c == '#' { }
      else if c == '0' { f := f.(zeroPad := true); }
      else { break; }
      next := next + 1;
    }
  }

  /** The field width: digits, or a star. */
  method TakeWidth(fmt: string, p: nat, args: seq<Arg>, a: nat, flags: Flags)
    returns (width: int32, f: Flags, q: nat, b: nat)
    requires p <= |fmt| && AtoiStaysInt(fmt, p, 0)
    requires At(fmt, p) == '*' ==> Signed(32, NextNum(args, a)) != INT_MIN
    ensures Read(width, f, q, b) == ReadWidth(fmt, p, args, a, flags) && p <= q <= |fmt| && width >= -1
  {
    width, f, q, b := -1, flags, p, a;
    if IsDigit(At(fmt, q)) {
      width, q := SkipAtoi(fmt, q);
    } else if At(fmt, q) == '*' {
      q := q + 1;
      SignedIsInt(NextNum(args, b));
      width, b := Signed(32, NextNum(args, b)), b + 1;
      if width < 0 {
        width, f := -width, f.(left := true);
      }
    }
  }

  /** The precision, behind a point. */
  method TakePrecision(fmt: string, p: nat, args: seq<Arg>, a: nat, ghost f: Flags)
    returns (precision: int32, q: nat, b: nat)
    requires p <= |fmt| && (At(fmt, p) == '.' ==> AtoiStaysInt(fmt, p + 1, 0))
    ensures Read(precision, f, q, b) == ReadPrecision(fmt, p, args, a, f) && p <= q <= |fmt| && precision >= -1
  {
    precision, q, b := -1, p, a;
    if At(fmt, q) == '.' {
      q := q + 1;
      if IsDigit(At(fmt, q)) {
        precision, q := SkipAtoi(fmt, q);
      } else if At(fmt, q) == '*' {
        q := q + 1;
        SignedIsInt(NextNum(args, b));
        precision, b := Signed(32, NextNum(args, b)), b + 1;
      }
      if precision < 0 {
        precision := 0;
      }
    }
  }

  method ParseDirective(fmt: string, p: nat, args: seq<Arg>, a: nat) returns (d: Directive)
    requires p <= |fmt| && ReadsStayInt(fmt, p, args, a)
    ensures d == ReadDirective(fmt, p, args, a) && p <= d.p <= |fmt|
    ensures -1 <= d.width <= INT_MAX && -1 <= d.precision <= INT_MAX
  {
    hide Signed, IsDigit, ReadFlags, ReadWidth, ReadPrecision, AtoiStaysInt;
    var f, q := SkipFlags(fmt, p);
    var width, precision, b;
    width, f, q, b := TakeWidth(fmt, q, args, a, f);
    precision, q, b := TakePrecision(fmt, q, args, b, f);
    var qualifier := NUL;
    if At(fmt, q) == 'h' || At(fmt, q) == 'l' {
      qualifier := At(fmt, q);
      q := q + 1;
    }
    d := Directive(f, width, precision, qualifier, At(fmt, q), q, b);
  }

  method PutChar(buf: array<char>, end: nat, str: nat, n: nat, width: int32, f: Flags) returns (next: nat)
    requires end <= buf.Length && width >= -1
    modifies buf
    ensures next == str + |CharOut(n, width, f)|
    ensures buf[..] == Written(old(buf[..]), str, end, CharOut(n, width, f))
  {
    hide Written;
    ghost var was := buf[..];
    next := str;
    var left: int32 := width - 1;
    WrittenNothing(was, str, end);
    ghost var done := "";
    if !f.left {
      next, left := Fill(buf, end, next, ' ', left);
      done := Rep(' ', width - 1);
    }
    ghost var mid := buf[..];
    next := Put(buf, end, next, (n % 256) as char);
    Stage(was, str, end, mid, done, [(n % 256) as char], buf[..]);
    done := done + [(n % 256) as char];
    mid := buf[..];
    ghost var trail := left;
    next, left := Fill(buf, end, next, ' ', left);
    Stage(was, str, end, mid, done, Rep(' ', trail), buf[..]);
    assert done + Rep(' ', trail) == CharOut(n, width, f);
  }

  /** The leading part of `s` that a width and a positive precision let through. */
  method Clip(s: string, width: int32, precision: int32) returns (len: int32)
    requires width < 0 ==> Length(s) <= INT_MAX
    ensures len == Shown(s, width, precision)
  {
    len := 0;
    while len != width && At(s, len) != NUL
      invariant 0 <= len <= Length(s) && (width >= 0 ==> len <= width)
      decreases |s| - len
    {
      len := len + 1;
    }
    if precision > 0 && len > precision {
      len := precision;
    }
  }

  /** The first characters of a string. */
  method Copy(buf: array<char>, end: nat, str: nat, s: string, len: nat) returns (next: nat)
    requires end <= buf.Length && len <= |s|
    modifies buf
    ensures next == str + len
    ensures buf[..] == Written(old(buf[..]), str, end, s[..len])
  {
    hide Written;
    ghost var was := buf[..];
    next := str;
    WrittenNothing(was, str, end);
    for i := 0 to len
      invariant next == str + i
      invariant buf[..] == Written(was, str, end, s[..i])
    {
      ghost var mid := buf[..];
      next := Put(buf, end, next, s[i]);
      Stage(was, str, end, mid, s[..i], [s[i]], buf[..]);
      assert s[..i + 1] == s[..i] + [s[i]];
    }
  }

  method PutString(buf: array<char>, end: nat, str: nat, s: string, width: int32, precision: int32, f: Flags)
    returns (next: nat)
    requires end <= buf.Length && width >= -1
    requires width < 0 ==> Length(s) <= INT_MAX
    modifies buf
    ensures next == str + |StringOut(s, width, precision, f)|
    ensures buf[..] == Written(old(buf[..]), str, end, StringOut(s, width, precision, f))
  {
    hide Written, Shown;
    ghost var was := buf[..];
    var len := Clip(s, width, precision);
    var left: int32 := width;
    next := str;
    WrittenNothing(was, str, end);
    ghost var done := "";
    if !f.left {
      next, left := FillTo(buf, end, next, len, left);
      done := Rep(' ', width - len);
    }
    ghost var mid := buf[..];
    next := Copy(buf, end, next, s, len);
    Stage(was, str, end, mid, done, s[..len], buf[..]);
    done := done + s[..len];
    mid := buf[..];
    ghost var trail := left - len;
    next, left := FillTo(buf, end, next, len, left);
    Stage(was, str, end, mid, done, Rep(' ', trail), buf[..]);
    assert done + Rep(' ', trail) == StringOut(s, width, precision, f);
  }

  /** The digits of a directive's number fit the scratch buffer. */
  predicate Fits(d: Directive, args: seq<Arg>) {
    d.conv == 'b' && d.qualifier == 'l' ==> NextNum(args, d.a) % 0x1_0000_0000_0000_0000 < 0x1_0000_0000
  }

  /** In converting the directive no value leaves `int`. */
  predicate ConvertsInInt(d: Directive, args: seq<Arg>) {
    if d.conv == 's' then d.width < 0 ==> Length(NextStr(args, d.a)) <= INT_MAX
    else if d.conv == 'p' then
      var (w, f) := if d.width == -1 then (16, d.f.(zeroPad := true)) else (d.width, d.f);
      StaysInt(Unsigned(64, NextNum(args, d.a)), 16, d.qualifier, w, d.precision, f)
    else if IsInteger(d.conv) then
      var f := IntegerFlags(d.conv, d.f);
      StaysInt(Load(NextNum(args, d.a), d.qualifier, f.sign), Base(d.conv), d.qualifier, d.width, d.precision, f)
    else true
  }

  /** Only a precision that is within four of the largest `int` can leave it. */
  lemma SmallPrecisionStaysInt(n: nat, base: nat, q: char, s: int, p: int, f: Flags)
    requires IsBase(base) && s >= -1 && |Digits(Magnitude(n, q, f), base, f.large)| <= 32
    ensures p <= INT_MAX - 4 ==> StaysInt(n, base, q, s, p, f)
  {
    SameColumns(Magnitude(n, q, f), base, f.large);
  }

  method Convert(buf: array<char>, end: nat, str: nat, d: Directive, args: seq<Arg>) returns (next: nat)
    requires end <= buf.Length
    requires Fits(d, args) && ConvertsInInt(d, args)
    requires -1 <= d.width <= INT_MAX && -1 <= d.precision <= INT_MAX
    modifies buf
    ensures next == str + |Converted(d, args)|
    ensures buf[..] == Written(old(buf[..]), str, end, Converted(d, args))
  {
    hide Written, Number, Magnitude, Load, StaysInt;
    ghost var was := buf[..];
    var f := d.f;
    var last;
    if d.conv == 'c' {
      next := PutChar(buf, end, str, NextNum(args, d.a), d.width, f);
    } else if d.conv == 's' {
      next := PutString(buf, end, str, NextStr(args, d.a), d.width, d.precision, f);
    } else if d.conv == 'p' {
      var width := d.width;
      if width == -1 {
        width := 16;
        f := f.(zeroPad := true);
      }
      var n := Unsigned(64, NextNum(args, d.a));
      ScratchFits(n, 16, d.qualifier, f);
      next, last := PrintNumber(buf, end, str, n, 16, d.qualifier, width, d.precision, f);
    } else if d.conv == '%' {
      next := Put(buf, end, str, '%');
    } else if IsInteger(d.conv) {
      f := IntegerFlags(d.conv, f);
      var n := Load(NextNum(args, d.a), d.qualifier, f.sign);
      LoadFits(d, args);
      ScratchFits(n, Base(d.conv), d.qualifier, f);
      next, last := PrintNumber(buf, end, str, n, Base(d.conv), d.qualifier, d.width, d.precision, f);
    } else {
      next := Put(buf, end, str, '%');
      if d.conv != NUL {
        ghost var mid := buf[..];
        next := Put(buf, end, next, d.conv);
        Stage(was, str, end, mid, "%", [d.conv], buf[..]);
      }
    }
  }

  lemma LoadFits(d: Directive, args: seq<Arg>)
    requires Fits(d, args)
    ensures var n := Load(NextNum(args, d.a), d.qualifier, IntegerFlags(d.conv, d.f).sign);
            n < 0x1_0000_0000_0000_0000 && (d.conv == 'b' ==> n < 0x1_0000_0000)
  {
  }

  /** The number that an integer directive prints, as it reaches the digit loop. */
  function Printed(d: Directive, args: seq<Arg>): nat {
    var f := IntegerFlags(d.conv, d.f);
    Magnitude(Load(NextNum(args, d.a), d.qualifier, f.sign), d.qualifier, f)
  }

  /** For integer directives `Fits` is exact: the scratch buffer suffices if and only if it holds. */
  lemma FitsIsExact(d: Directive, args: seq<Arg>)
    requires IsInteger(d.conv) && d.qualifier in [NUL, 'h', 'l']
    ensures Fits(d, args) <==> |Digits(Printed(d, args), Base(d.conv), IntegerFlags(d.conv, d.f).large)| <= 32
  {
    SameColumns(Printed(d, args), Base(d.conv), IntegerFlags(d.conv, d.f).large);
    DigitsFit(Printed(d, args), Base(d.conv));
  }

  /** `%lb` of 2^32 has 33 digits. */
  lemma LongBinaryOverruns()
    ensures var d, args := ReadDirective("%lb", 1, [Num(0x1_0000_0000)], 0), [Num(0x1_0000_0000)];
            && d.conv == 'b' && d.qualifier == 'l' && !Fits(d, args)
            && |Digits(Printed(d, args), 2, false)| == 33
  {
    hide Digits;
    var args := [Num(0x1_0000_0000)];
    assert ReadDirective("%lb", 1, args, 0) == Directive(NO_FLAGS, -1, -1, 'l', 'b', 2, 0);
    ThirtyThree();
  }

  /** The digits that PrintNumber extracts fit its scratch buffer. */
  lemma ScratchFits(n: nat, base: nat, qualifier: char, f: Flags)
    requires IsBase(base) && n < 0x1_0000_0000_0000_0000
    requires base == 2 ==> n < 0x1_0000_0000 && !f.sign
    ensures |Digits(Magnitude(n, qualifier, f), base, f.large)| <= 32
  {
    var m := Magnitude(n, qualifier, f);
    SameColumns(m, base, f.large);
    DigitsFit(m, base);
  }

  // ----- the formatter -----

  /** Every directive from position `p` on fits the scratch buffer, and `int`. */
  predicate AllFit(fmt: string, p: nat, args: seq<Arg>, a: nat)
    decreases |fmt| - p
  {
    if p >= |fmt| || At(fmt, p) == NUL then true
    else if At(fmt, p) != '%' then AllFit(fmt, p + 1, args, a)
    else
      DirectiveForward(fmt, p + 1, args, a);
      var d := ReadDirective(fmt, p + 1, args, a);
      && ReadsStayInt(fmt, p + 1, args, a) && Fits(d, args) && ConvertsInInt(d, args)
      && (d.conv == NUL || AllFit(fmt, d.p + 1, args, d.a + Taken(d.conv)))
  }

  lemma Regroup(a: string, b: string, c: string)
    ensures a + (b + c) == (a + b) + c
  {
  }

  const ADDRESSES: nat := 0x1_0000_0000_0000_0000
  const MEMORY_END: nat := 0x1_0000_0000_0000

  /** An `end` that lies below the buffer becomes the last address, and the distance to it is cut to an `int`. */
  method Limits(base: nat, size: int32) returns (end: nat, room: int32)
    requires base + size < ADDRESSES
    ensures size >= 0 ==> end == base + size && room == size
    ensures size < 0 && 0 < base < MEMORY_END ==> end > MEMORY_END && (room > 0 <==> EndsText(base))
  {
    hide Unsigned, Signed;
    EndAddress(base, size);
    end, room := Unsigned(64, base + size), size;
    if end < base {
      end := ADDRESSES - 1;
      SignedIsInt(end - base);
      room := Signed(32, end - base);
    }
  }

  /** Where the buffer must lie for a text to be terminated when the size is negative: in the upper half of a
      4 GiB block of addresses, but for its last byte. */
  predicate EndsText(base: nat) {
    0x8000_0000 <= base % 0x1_0000_0000 < 0xFFFF_FFFF
  }

  /** In the memory that the shipped map gives the kernel it never is; right above it is. */
  lemma KernelMemoryNeverEnds(base: nat)
    ensures 0x4000_0000 <= base < 0x8000_0000 ==> !EndsText(base)
    ensures base == 0x8000_0000 ==> EndsText(base)
  {
  }

  lemma EndAddress(base: nat, size: int32)
    requires base + size < ADDRESSES
    ensures base + size >= 0 ==> Unsigned(64, base + size) == base + size
    ensures base + size < 0 ==> Unsigned(64, base + size) == ADDRESSES + base + size && !EndsText(base)
    ensures base < ADDRESSES ==> (Signed(32, ADDRESSES - 1 - base) > 0 <==> EndsText(base))
  {
    hide Unsigned;
    if base + size >= 0 {
      assert Unsigned(64, base + size) == base + size by { UnsignedIs(64, base + size, 0, base + size); }
    } else {
      assert Unsigned(64, base + size) == ADDRESSES + base + size by {
        UnsignedIs(64, base + size, -1, ADDRESSES + base + size);
      }
    }
    if base < ADDRESSES { LowWord(base); }
  }

  lemma UnsignedIs(bits: nat, n: int, q: int, r: nat)
    requires bits in {16, 32, 64} && r < Modulus(bits) && n == q * Modulus(bits) + r
    ensures Unsigned(bits, n) == r
  {
    EuclidUnique(n, Modulus(bits), q, r);
  }

  /** The distance to the last address has the complement of the address as its low word. */
  lemma LowWord(base: nat)
    requires base < ADDRESSES
    ensures Signed(32, ADDRESSES - 1 - base) > 0 <==> EndsText(base)
  {
    hide Unsigned;
    var q, r := base / 0x1_0000_0000, base % 0x1_0000_0000;
    UnsignedIs(32, ADDRESSES - 1 - base, 0xFFFF_FFFF - q, 0xFFFF_FFFF - r);
  }

  /** `vsnprintf_s`. The array is the memory from the buffer's address `base` on; with a negative size the
      code bounds nothing, so the memory has to hold the text. */
  method VsnprintfS(buf: array<char>, base: nat, size: int32, fmt: string, args: seq<Arg>) returns (ret: int32)
    requires size <= buf.Length
    requires 0 < base && base + buf.Length < MEMORY_END
    requires size < 0 ==> |Render(fmt, 0, args, 0)| < buf.Length
    requires AllFit(fmt, 0, args, 0)
    modifies buf
    ensures ret == Signed(32, |Render(fmt, 0, args, 0)|)
    ensures size == 0 ==> buf[..] == old(buf[..])
    ensures size > 0 ==>
              var text := Render(fmt, 0, args, 0);
              var n := if |text| < size then |text| else size - 1;
              && buf[..n] == text[..n]
              && buf[n] == NUL
              && buf[n + 1..] == old(buf[n + 1..])
    ensures size < 0 ==>
              var text := Render(fmt, 0, args, 0);
              var len := |text|;
              && buf[..len] == text
              && buf[len] == (if EndsText(base) then NUL else old(buf[len]))
              && buf[len + 1..] == old(buf[len + 1..])
  {
    hide Render, AllFit, Unsigned, Signed, EndsText;
    var last, room := Limits(base, size);
    var end := if last - base < buf.Length then last - base else buf.Length;
    ghost var was := buf[..];
    var len := PutText(buf, end, fmt, args);
    ghost var text, now := Render(fmt, 0, args, 0), buf[..];
    Stored(was, end, text, now);
    if room > 0 {
      if len < end {
        buf[len] := NUL;
      } else {
        buf[end - 1] := NUL;
      }
    }
    SignedIsInt(len);
    ret := Signed(32, len);
  }

  /** The cast that a returned length goes through: the length itself exactly when that is an `int`. */
  lemma SignedIsInt(n: int)
    ensures INT_MIN <= Signed(32, n) <= INT_MAX
    ensures n >= 0 ==> (Signed(32, n) == n <==> n <= INT_MAX)
  {
    if 0 <= n <= INT_MAX { UnsignedIs(32, n, 0, n); }
  }

  /** What is in the buffer when the text has been put. */
  lemma Stored(was: seq<char>, end: nat, text: string, now: seq<char>)
    requires end <= |was| && now == Written(was, 0, end, text)
    ensures |now| == |was|
    ensures var n := if |text| < end then |text| else end; now[..n] == text[..n] && now[n..] == was[n..]
  {
  }

  /** The loop of the formatter. */
  method PutText(buf: array<char>, size: nat, fmt: string, args: seq<Arg>) returns (len: nat)
    requires size <= buf.Length && AllFit(fmt, 0, args, 0)
    modifies buf
    ensures len == |Render(fmt, 0, args, 0)|
    ensures buf[..] == Written(old(buf[..]), 0, size, Render(fmt, 0, args, 0))
  {
    hide Written, Converted, ReadDirective, Fits, Render, AllFit;
    ghost var was, text := buf[..], Render(fmt, 0, args, 0);
    ghost var done := "";
    var str, p: nat, a: nat := 0, 0, 0;
    WrittenNothing(was, 0, size);
    while At(fmt, p) != NUL
      invariant p <= |fmt| && str == |done|
      invariant AllFit(fmt, p, args, a)
      invariant text == done + Render(fmt, p, args, a)
      invariant buf[..] == Written(was, 0, size, done)
      decreases |fmt| - p
    {
      ghost var mid := buf[..];
      ghost var before := done;
      RenderStep(fmt, p, args, a);
      if fmt[p] != '%' {
        str := Put(buf, size, str, fmt[p]);
        Stage(was, 0, size, mid, done, [fmt[p]], buf[..]);
        done := done + [fmt[p]];
        p := p + 1;
      } else {
        var d := ParseDirective(fmt, p + 1, args, a);
        str := Convert(buf, size, str, d, args);
        Stage(was, 0, size, mid, done, Converted(d, args), buf[..]);
        done := done + Converted(d, args);
        p, a := if d.conv == NUL then d.p else d.p + 1, d.a + Taken(d.conv);
      }
      Regroup(before, done[|before|..], Render(fmt, p, args, a));
    }
    RenderStep(fmt, p, args, a);
    assert done == text;
    len := str;
  }

  /** The loop of the formatter takes one character, or one directive, at a time. */
  lemma RenderStep(fmt: string, p: nat, args: seq<Arg>, a: nat)
    requires p <= |fmt| && AllFit(fmt, p, args, a)
    ensures At(fmt, p) == NUL ==> Render(fmt, p, args, a) == ""
    ensures At(fmt, p) != NUL && fmt[p] != '%' ==>
              && Render(fmt, p, args, a) == [fmt[p]] + Render(fmt, p + 1, args, a)
              && AllFit(fmt, p + 1, args, a)
    ensures At(fmt, p) != NUL && fmt[p] == '%' ==>
              var d := ReadDirective(fmt, p + 1, args, a);
              var (p', a') := (if d.conv == NUL then d.p else d.p + 1, d.a + Taken(d.conv));
              && ReadsStayInt(fmt, p + 1, args, a) && Fits(d, args) && ConvertsInInt(d, args)
              && d.p <= |fmt| && At(fmt, d.p) == d.conv
              && Render(fmt, p, args, a) == Converted(d, args) + Render(fmt, p', args, a')
              && AllFit(fmt, p', args, a')
  {
    if At(fmt, p) != NUL && fmt[p] == '%' {
      DirectiveForward(fmt, p + 1, args, a);
    }
  }
}
