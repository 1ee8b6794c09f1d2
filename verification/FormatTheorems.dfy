/**
  What the printed text means: how long it is, that numbers can be read back from it, and how many
  digits there are.
  */
module FormatTheorems {
  import opened Bits
  import opened CStrings
  import opened FormatSpec

  // ----- digit strings as numbers -----

  function Times(n: nat, base: nat): nat
    requires IsBase(base)
  {
    if base == 2 then 2 * n else if base == 8 then 8 * n else if base == 10 then 10 * n else 16 * n
  }

  function DigitValue(c: char): nat {
    if '0' <= c <= '9' then c as nat - '0' as nat
    else if 'a' <= c <= 'f' then c as nat - 'a' as nat + 10
    else if 'A' <= c <= 'F' then c as nat - 'A' as nat + 10
    else 0
  }

  /** The number a digit string denotes in a base. */
  function Value(s: string, base: nat): nat
    requires IsBase(base)
  {
    if s == "" then 0 else Times(Value(s[..|s| - 1], base), base) + DigitValue(s[|s| - 1])
  }

  predicate IsDigitChar(c: char) {
    '0' <= c <= '9' || 'a' <= c <= 'f' || 'A' <= c <= 'F'
  }

  predicate IsDigitString(s: string) {
    forall i :: 0 <= i < |s| ==> IsDigitChar(s[i])
  }

  lemma DigitCharValue(d: nat, large: bool)
    requires d < 16
    ensures DigitValue(DigitChar(d, large)) == d
    ensures IsDigitChar(DigitChar(d, large))
  {
  }

  lemma ValueSnoc(s: string, c: char, base: nat)
    requires IsBase(base)
    ensures Value(s + [c], base) == Times(Value(s, base), base) + DigitValue(c)
  {
    assert (s + [c])[..|s|] == s;
  }

  lemma {:induction false} DigitsOfValue(n: nat, base: nat, large: bool)
    requires IsBase(base)
    ensures Value(DigitsOf(n, base, large), base) == n && IsDigitString(DigitsOf(n, base, large))
  {
    if n > 0 {
      DigitsOfValue(Quot(n, base), base, large);
      DigitCharValue(Rem(n, base), large);
      ValueSnoc(DigitsOf(Quot(n, base), base, large), DigitChar(Rem(n, base), large), base);
    }
  }

  /** The digits of a number denote it; leading zeros do not change that. */
  lemma {:induction false} DigitsValue(n: nat, base: nat, large: bool, zeros: int)
    requires IsBase(base)
    ensures Value(Rep('0', zeros) + Digits(n, base, large), base) == n
    ensures IsDigitString(Rep('0', zeros) + Digits(n, base, large))
  {
    hide DigitsOf, Value, Times, DigitValue, IsDigitChar;
    DigitsOfValue(n, base, large);
    if n == 0 { ZeroText(base); }
    LeadingZeros(zeros, Digits(n, base, large), base);
    ZerosAreDigits(zeros, Digits(n, base, large));
  }

  lemma ZeroText(base: nat)
    requires IsBase(base)
    ensures Value("0", base) == 0 && IsDigitString("0")
  {
    ValueSnoc("", '0', base);
    assert "" + ['0'] == "0";
    ZeroDigit(base);
  }

  lemma ZerosAreDigits(zeros: int, s: string)
    requires IsDigitString(s)
    ensures IsDigitString(Rep('0', zeros) + s)
  {
    assert forall i :: 0 <= i < |Rep('0', zeros)| ==> Rep('0', zeros)[i] == '0';
  }

  lemma {:induction false} LeadingZeros(zeros: int, s: string, base: nat)
    requires IsBase(base)
    ensures Value(Rep('0', zeros) + s, base) == Value(s, base)
    decreases |s|, if zeros > 0 then zeros else 0
  {
    hide Times, DigitValue;
    var z := Rep('0', zeros);
    if s == "" {
      assert z + s == z;
      if zeros > 0 {
        LeadingZeros(zeros - 1, "", base);
        assert Rep('0', zeros - 1) + "" == Rep('0', zeros - 1);
        ValueSnoc(Rep('0', zeros - 1), '0', base);
        ZeroDigit(base);
      }
    } else {
      var n := |s| - 1;
      LeadingZeros(zeros, s[..n], base);
      assert s[..n] + [s[n]] == s && z + s[..n] + [s[n]] == z + s;
      ValueSnoc(z + s[..n], s[n], base);
      ValueSnoc(s[..n], s[n], base);
    }
  }

  lemma ZeroDigit(base: nat)
    requires IsBase(base)
    ensures Times(0, base) + DigitValue('0') == 0 && Value("", base) == 0
  {
  }

  // ----- how many digits -----

  lemma {:induction false} DigitCount(n: nat, k: nat)
    ensures |DigitsOf(n, 2, false)| <= k <==> n < Pow2(k)
  {
    if n > 0 && k > 0 {
      DigitCount(n / 2, k - 1);
    }
  }

  lemma {:induction false} FewDigits(n: nat, base: nat, k: nat)
    requires IsBase(base) && base != 2
    requires n < Pow2(3 * k)
    ensures |DigitsOf(n, base, false)| <= k
  {
    if n > 0 {
      assert k > 0;
      assert Pow2(3 * k) == 8 * Pow2(3 * (k - 1)) by {
        assert Pow2(3 * k - 1) == 2 * Pow2(3 * k - 2);
      }
      FewDigits(Quot(n, base), base, k - 1);
    }
  }

  /** Which 64-bit numbers fit the 32-character scratch buffer: all of them, except in base 2. */
  lemma DigitsFit(m: nat, base: nat)
    requires IsBase(base)
    requires m < 0x1_0000_0000_0000_0000
    ensures |Digits(m, base, false)| <= 32 <==> base != 2 || m < 0x1_0000_0000
  {
    Pow2Values();
    if base == 2 {
      DigitCount(m, 32);
    } else {
      assert Pow2(66) >= Pow2(64) by { assert Pow2(66) == 2 * Pow2(65); }
      FewDigits(m, base, 22);
    }
  }

  /** The least number with 33 binary digits. */
  lemma ThirtyThree()
    ensures |Digits(0x1_0000_0000, 2, false)| == 33
  {
    Pow2Values();
    assert Pow2(33) == 2 * Pow2(32);
    DigitCount(0x1_0000_0000, 32);
    DigitCount(0x1_0000_0000, 33);
  }

  // ----- the printed number -----

  /** A number is printed in exactly as many characters as the field, or its sign, zeros and digits, need. */
  lemma NumberLength(num: nat, base: nat, q: char, width: int, precision: int, f: Flags)
    requires IsBase(base) && precision != 0
    ensures var digits := |Digits(Magnitude(num, q, f), base, f.large)|;
            var columns := |SignOf(num, q, f)| + if precision > digits then precision else digits;
            |Number(num, base, q, width, precision, f)| == if width > columns then width else columns
  {
    SameColumns(Magnitude(num, q, f), base, f.large);
  }

  /** With precision 0 the digits are left out, but their columns are still taken off the field. */
  lemma NumberLengthZeroPrecision(num: nat, base: nat, q: char, width: int, f: Flags)
    requires IsBase(base)
    ensures var digits := |Digits(Magnitude(num, q, f), base, f.large)|;
            var pad := width - digits - |SignOf(num, q, f)|;
            |Number(num, base, q, width, 0, f)| == |SignOf(num, q, f)| + if pad > 0 then pad else 0
  {
    SameColumns(Magnitude(num, q, f), base, f.large);
  }

  function DropSpaces(s: string): string {
    if s != "" && s[0] == ' ' then DropSpaces(s[1..]) else s
  }

  function UntilSpace(s: string): string {
    if s == "" || s[0] == ' ' then "" else [s[0]] + UntilSpace(s[1..])
  }

  /** Read an integer: spaces, an optional sign, digits up to the next space. */
  function ReadBack(s: string, base: nat): int
    requires IsBase(base)
  {
    var t := DropSpaces(s);
    if t != "" && t[0] == '-' then 0 - Value(UntilSpace(t[1..]), base)
    else if t != "" && t[0] == '+' then Value(UntilSpace(t[1..]), base)
    else Value(UntilSpace(t), base)
  }

  lemma {:induction false} DropPadding(n: int, s: string)
    ensures DropSpaces(Rep(' ', n) + s) == DropSpaces(s)
    decreases if n > 0 then n else 0
  {
    if n > 0 {
      assert Rep(' ', n) + s == Rep(' ', n - 1) + ([' '] + s);
      DropPadding(n - 1, [' '] + s);
      assert ([' '] + s)[1..] == s;
    } else {
      assert Rep(' ', n) + s == s;
    }
  }

  lemma {:induction false} UntilPadding(ds: string, n: int)
    requires IsDigitString(ds)
    ensures UntilSpace(ds + Rep(' ', n)) == ds
  {
    if ds == "" {
      assert ds + Rep(' ', n) == Rep(' ', n);
    } else {
      UntilPadding(ds[1..], n);
      assert (ds + Rep(' ', n))[1..] == ds[1..] + Rep(' ', n);
      assert IsDigitChar(ds[0]);
    }
  }

  predicate AllSpaces(s: string) {
    forall i :: 0 <= i < |s| ==> s[i] == ' '
  }

  lemma {:induction false} NothingButSpaces(s: string)
    requires AllSpaces(s)
    ensures DropSpaces(s) == "" && UntilSpace(s) == ""
  {
    if s != "" { NothingButSpaces(s[1..]); }
  }

  lemma SameRest(s: string, t: string, base: nat)
    requires IsBase(base) && DropSpaces(s) == DropSpaces(t)
    ensures ReadBack(s, base) == ReadBack(t, base)
  {
  }

  lemma ReadSigned(sign: string, tail: string, base: nat)
    requires IsBase(base)
    requires if tail != "" && IsDigitChar(tail[0]) then true else AllSpaces(tail)
    requires sign in ["", "-", "+", " "]
    ensures ReadBack(sign + tail, base)
            == if sign == "-" then 0 - Value(UntilSpace(tail), base) else Value(UntilSpace(tail), base)
  {
    hide Value, UntilSpace;
    if AllSpaces(tail) {
      NothingButSpaces(tail);
      NothingButSpaces("");
    } else {
      assert DropSpaces(tail) == tail;
    }
    if sign == "" {
      assert sign + tail == tail;
    } else {
      assert (sign + tail)[1..] == tail;
      assert sign != " " ==> DropSpaces(sign + tail) == sign + tail;
    }
  }

  /** Reading spaces, a sign, digits and spaces. */
  lemma ReadPadded(lead: int, sign: string, ds: string, trail: int, base: nat)
    requires IsBase(base)
    requires IsDigitString(ds)
    requires sign in ["", "-", "+", " "]
    ensures ReadBack(Rep(' ', lead) + sign + ds + Rep(' ', trail), base)
            == if sign == "-" then 0 - Value(ds, base) else Value(ds, base)
  {
    hide Value, Rep, UntilSpace, ReadBack;
    var tail := ds + Rep(' ', trail);
    var s := Rep(' ', lead) + sign + ds + Rep(' ', trail);
    assert s == Rep(' ', lead) + (sign + tail);
    DropPadding(lead, sign + tail);
    UntilPadding(ds, trail);
    if ds != "" {
      assert IsDigitChar(ds[0]) && tail[0] == ds[0];
    } else {
      assert tail == Rep(' ', trail);
    }
    ReadSigned(sign, tail, base);
    SameRest(s, sign + tail, base);
  }

  /** The value of a number and its sign. */
  function SignedMagnitude(num: nat, q: char, f: Flags): int {
    if IsNegative(num, q, f) then 0 - Magnitude(num, q, f) else Magnitude(num, q, f)
  }

  /** What PrintNumber prints reads back as the number, unless precision 0 left the digits out. */
  lemma NumberReadsBack(num: nat, base: nat, q: char, width: int, precision: int, f: Flags)
    requires IsBase(base)
    ensures ReadBack(Number(num, base, q, width, precision, f), base)
            == if precision == 0 then 0 else SignedMagnitude(num, q, f)
  {
    hide Digits, ReadBack, Value, Rep;
    var sign, ds := SignOf(num, q, f), Digits(Magnitude(num, q, f), base, f.large);
    var lead, zeros, trail := NumberShape(num, base, q, width, precision, f);
    if precision == 0 {
      OnlyZeros(zeros, base);
      ReadPadded(lead, sign, Rep('0', zeros) + "", trail, base);
    } else {
      DigitsValue(Magnitude(num, q, f), base, f.large, zeros);
      ReadPadded(lead, sign, Rep('0', zeros) + ds, trail, base);
    }
  }

  lemma OnlyZeros(zeros: int, base: nat)
    requires IsBase(base)
    ensures Value(Rep('0', zeros) + "", base) == 0 && IsDigitString(Rep('0', zeros) + "")
  {
    LeadingZeros(zeros, "", base);
  }

  /** Spaces, a sign, zeros, digits, and spaces. */
  ghost function Shape(lead: int, sign: string, zeros: int, ds: string, trail: int): string {
    Rep(' ', lead) + sign + (Rep('0', zeros) + ds) + Rep(' ', trail)
  }

  /** Every printed number has that shape. */
  lemma NumberShape(num: nat, base: nat, q: char, width: int, precision: int, f: Flags)
    returns (lead: int, zeros: int, trail: int)
    requires IsBase(base)
    ensures Number(num, base, q, width, precision, f)
            == Shape(lead, SignOf(num, q, f), zeros,
                     if precision == 0 then "" else Digits(Magnitude(num, q, f), base, f.large), trail)
  {
    hide Digits, Magnitude, SignOf, Rep, Shape;
    var m := Magnitude(num, q, f);
    var sign, ds := SignOf(num, q, f), Digits(m, base, f.large);
    var pad, k := width - Columns(m, base, precision) - |sign|, precision - |ds|;
    var text := Number(num, base, q, width, precision, f);
    Shapes(sign, k, pad, if precision == 0 then "" else ds);
    if f.left {
      lead, zeros, trail := 0, k, pad;
    } else if f.zeroPad {
      lead, zeros, trail := 0, Plus(pad, k), 0;
    } else {
      lead, zeros, trail := pad, k, 0;
    }
  }

  function Plus(x: int, y: int): nat {
    (if x > 0 then x else 0) + if y > 0 then y else 0
  }

  lemma Shapes(sign: string, k: int, pad: int, ds: string)
    ensures sign + (Rep('0', k) + ds) + Rep(' ', pad) == Shape(0, sign, k, ds, pad)
    ensures sign + Rep('0', pad) + (Rep('0', k) + ds) == Shape(0, sign, Plus(pad, k), ds, 0)
    ensures Rep(' ', pad) + sign + (Rep('0', k) + ds) == Shape(pad, sign, k, ds, 0)
  {
    hide Rep;
    RepNone(' ');
    MoreZeros(pad, k, ds);
    var body := Rep('0', k) + ds;
    Around("", sign, body, Rep(' ', pad));
    Around(sign, Rep('0', pad), body, "");
    Around("", sign, Rep('0', pad) + body, "");
    Around(Rep(' ', pad), sign, body, "");
  }

  lemma Around(x: string, y: string, z: string, w: string)
    ensures x == "" ==> x + y + z + w == y + z + w
    ensures w == "" ==> x + y + z + w == x + y + z == x + (y + z)
  {
    if x == "" { assert x + y == y; }
    if w == "" { assert x + y + z + w == x + y + z; assert x + y + z == x + (y + z); }
  }

  lemma RepNone(c: char)
    ensures Rep(c, 0) == ""
  {
  }

  lemma MoreZeros(x: int, y: int, s: string)
    ensures Rep('0', x) + (Rep('0', y) + s) == Rep('0', Plus(x, y)) + s
  {
  }

  /** `%d`, `%u`, `%x` and the other integer directives: the text reads back as the argument, signed or
      unsigned, at the width of the length modifier, exactly when the precision is not 0 or there is
      nothing to lose. */
  lemma IntegerReadsBack(n: nat, base: nat, q: char, width: int, precision: int, f: Flags)
    requires IsBase(base)
    requires q in [NUL, 'h', 'l']
    ensures var v := if f.sign then Signed(Width(q), n) else Unsigned(Width(q), n);
            ReadBack(Number(Load(n, q, f.sign), base, q, width, precision, f), base) == v <==> precision != 0 || v == 0
  {
    hide ReadBack, Number, Load, Signed, Unsigned, Width, Magnitude, IsNegative;
    NumberReadsBack(Load(n, q, f.sign), base, q, width, precision, f);
    LoadMeans(n, q, f);
  }

  lemma LoadMeans(n: nat, q: char, f: Flags)
    requires q in [NUL, 'h', 'l']
    ensures SignedMagnitude(Load(n, q, f.sign), q, f) == if f.sign then Signed(Width(q), n) else Unsigned(Width(q), n)
  {
    if q == 'h' {
      if f.sign { LoadShort(n); }
    } else if q == 'l' {
      LoadLong(n);
    } else {
      LoadInt(n);
    }
  }

  lemma LoadShort(n: nat)
    ensures var num := Unsigned(64, Signed(16, n));
            && Signed(16, num) == Signed(16, n)
            && (if Signed(16, n) < 0 then 0 - Unsigned(16, 0 - num) else num as int) == Signed(16, n)
  {
    var v := Signed(16, n);
    if v < 0 {
      NegativeShort(-v);
    } else {
      DivModUnique(v, 0x1_0000_0000_0000_0000, 0, v);
      DivModUnique(v, 0x1_0000, 0, v);
    }
  }

  /** Sign extension of a negative 16-bit number, and back. */
  lemma NegativeShort(k: nat)
    requires 0 < k <= 0x8000
    ensures Unsigned(64, 0 - k) == 0x1_0000_0000_0000_0000 - k
    ensures Unsigned(16, 0x1_0000_0000_0000_0000 - k) == 0x1_0000 - k
    ensures Unsigned(16, k - 0x1_0000_0000_0000_0000) == k
  {
    EuclidUnique(0 - k, 0x1_0000_0000_0000_0000, -1, 0x1_0000_0000_0000_0000 - k);
    DivModUnique(0x1_0000_0000_0000_0000 - k, 0x1_0000, 0xFFFF_FFFF_FFFF, 0x1_0000 - k);
    EuclidUnique(k - 0x1_0000_0000_0000_0000, 0x1_0000, -0x1_0000_0000_0000, k);
  }

  /** The remainder of any integer. */
  lemma EuclidUnique(a: int, s: nat, q: int, r: nat)
    requires r < s && a == q * s + r
    ensures a % s == r
  {
    var q', r' := a / s, a % s;
    assert a == q' * s + r';
    if q < q' { MulStrict(q, q', s); }
    if q' < q { MulStrict(q', q, s); }
  }

  lemma MulStrict(x: int, y: int, s: nat)
    requires x < y
    ensures x * s + s <= y * s
  {
    assert (y - x - 1) * s >= 0;
  }

  lemma LoadInt(n: nat)
    ensures var num := Unsigned(32, n);
            && Signed(32, num) == Signed(32, n)
            && (if Signed(32, n) < 0 then 0 - Unsigned(32, 0 - num) else num as int) == Signed(32, n)
  {
    var num: int := Unsigned(32, n);
    DivModUnique(num, 0x1_0000_0000, 0, num);
    if num > 0 { EuclidUnique(0 - num, 0x1_0000_0000, -1, 0x1_0000_0000 - num); }
  }

  lemma LoadLong(n: nat)
    ensures var num := Unsigned(64, n);
            && Signed(64, num) == Signed(64, n)
            && (if Signed(64, n) < 0 then 0 - Unsigned(64, 0 - num) else num as int) == Signed(64, n)
  {
    var num: int := Unsigned(64, n);
    DivModUnique(num, 0x1_0000_0000_0000_0000, 0, num);
    if num > 0 { EuclidUnique(0 - num, 0x1_0000_0000_0000_0000, -1, 0x1_0000_0000_0000_0000 - num); }
  }

  /** `%.0d` of 5 prints nothing. */
  lemma PrecisionZeroDrops()
    ensures Render("%.0d", 0, [Num(5)], 0) == ""
  {
    var args := [Num(5)];
    ReadsPrecisionZero(args);
    hide Number, Load, ReadDirective;
    FiveIsDropped();
    assert Render("%.0d", 4, args, 1) == "";
    assert Render("%.0d", 0, args, 0) == "" + "";
  }

  lemma ReadsPrecisionZero(args: seq<Arg>)
    ensures ReadDirective("%.0d", 1, args, 0) == Directive(NO_FLAGS, -1, 0, NUL, 'd', 3, 0)
  {
    assert ReadFlags("%.0d", 1, NO_FLAGS) == (NO_FLAGS, 1);
    assert ReadNumber("%.0d", 2, 0) == (0, 3);
  }

  lemma FiveIsDropped()
    ensures Number(Load(5, NUL, true), 10, NUL, -1, 0, IntegerFlags('d', NO_FLAGS)) == ""
  {
    hide Digits;
    assert Load(5, NUL, true) == 5;
    assert Body(5, 10, 0, false) == "";
  }

  // ----- strings -----

  /** The caller lets the whole string through: no width below its length, no positive precision below it. */
  predicate Spared(s: string, width: int, precision: int) {
    (width < 0 || Length(s) <= width) && (precision <= 0 || Length(s) <= precision)
  }

  /** A string directive prints a leading part of its string in the field, the whole of it exactly when neither
      width nor precision is less than its length: the width cuts as well as pads, so with one the text
      has exactly that many characters. */
  lemma StringLength(s: string, width: int, precision: int, f: Flags)
    ensures Shown(s, width, precision) == Length(s) <==> Spared(s, width, precision)
    ensures Spared(s, width, precision) ==> StringOut(s, width, precision, f) == InField(s[..Length(s)], width, f)
    ensures width >= 0 ==> |StringOut(s, width, precision, f)| == width
    ensures precision <= 0 && 0 <= width <= Length(s) ==> StringOut(s, width, precision, f) == s[..width]
  {
  }

  /** `%3s` of four characters prints three of them. */
  lemma WidthCuts()
    ensures Render("%3s", 0, [Str("abcd")], 0) == "abc"
  {
    var args := [Str("abcd")];
    assert ReadDirective("%3s", 1, args, 0) == Directive(NO_FLAGS, 3, -1, NUL, 's', 2, 0);
    assert Length("abcd") == 4;
    StringLength("abcd", 3, -1, NO_FLAGS);
    assert Render("%3s", 3, args, 1) == "";
    assert Render("%3s", 0, args, 0) == "abc" + "";
  }

  // ----- literal text -----

  /** Text without directives is copied up to its terminator. */
  lemma {:induction false} LiteralText(fmt: string, p: nat, args: seq<Arg>, a: nat)
    requires p <= |fmt|
    requires forall i :: p <= i < |fmt| ==> fmt[i] != '%'
    ensures Render(fmt, p, args, a) == fmt[p..p + Length(fmt[p..])]
    decreases |fmt| - p
  {
    if p < |fmt| && fmt[p] != NUL {
      LiteralText(fmt, p + 1, args, a);
      assert fmt[p..][1..] == fmt[p + 1..];
    }
  }

  /** A whole call: `%d` prints the decimal of a 32-bit signed argument. */
  lemma PrintDecimal(n: nat)
    ensures ReadBack(Render("%d", 0, [Num(n)], 0), 10) == Signed(32, n)
  {
    var f := IntegerFlags('d', NO_FLAGS);
    var text := Number(Load(n, NUL, true), 10, NUL, -1, -1, f);
    assert ReadDirective("%d", 1, [Num(n)], 0) == Directive(NO_FLAGS, -1, -1, NUL, 'd', 1, 0);
    assert Render("%d", 2, [Num(n)], 1) == "";
    assert Render("%d", 0, [Num(n)], 0) == text + "" == text;
    IntegerReadsBack(n, 10, NUL, -1, -1, f);
  }
}
