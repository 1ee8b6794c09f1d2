/**
  What a directive prints, in terms of its characters and its argument alone: which numeral, in which base and with
  which letters, behind which sign, and where the padding goes; and how the directive's own characters are read.
  */
module FormatMeaning {
  import opened CStrings
  import opened FormatSpec
  import opened FormatTheorems

  // ----- numerals -----

  /** The number a string of digits denotes in positional notation. */
  function Denotes(s: string, base: nat): nat {
    if s == "" then 0 else base * Denotes(s[..|s| - 1], base) + DigitValue(s[|s| - 1])
  }

  /** A digit below `base`: 0 to 9 and then, as asked for, A to F or a to f. */
  predicate IsDigitOf(c: char, base: nat, large: bool) {
    ('0' <= c <= '9' && c as int - '0' as int < base)
    || (base == 16 && if large then 'A' <= c <= 'F' else 'a' <= c <= 'f')
  }

  /** The numeral of `n`: its digits, with no zero in front unless it is all there is. */
  ghost predicate IsNumeral(s: string, base: nat, large: bool, n: nat) {
    && s != "" && (s[0] == '0' ==> s == "0")
    && (forall i :: 0 <= i < |s| ==> IsDigitOf(s[i], base, large))
    && Denotes(s, base) == n
  }

  lemma {:induction false} SameValue(s: string, base: nat)
    requires IsBase(base)
    ensures Value(s, base) == Denotes(s, base)
  {
    if s != "" { SameValue(s[..|s| - 1], base); }
  }

  lemma DigitIs(d: nat, base: nat, large: bool)
    requires IsBase(base) && d < base
    ensures IsDigitOf(DigitChar(d, large), base, large) && (DigitChar(d, large) == '0' <==> d == 0)
  {
  }

  lemma {:induction false} DigitsOfNumeral(n: nat, base: nat, large: bool)
    requires IsBase(base) && n > 0
    ensures IsNumeral(DigitsOf(n, base, large), base, large, n)
    ensures DigitsOf(n, base, large)[0] != '0'
  {
    var q, c := Quot(n, base), DigitChar(Rem(n, base), large);
    DigitIs(Rem(n, base), base, large);
    DigitsOfValue(n, base, large);
    SameValue(DigitsOf(n, base, large), base);
    if q > 0 { DigitsOfNumeral(q, base, large); }
    hide Denotes, IsDigitOf;
    assert DigitsOf(n, base, large) == DigitsOf(q, base, large) + [c];
  }

  lemma DigitsNumeral(n: nat, base: nat, large: bool)
    requires IsBase(base)
    ensures IsNumeral(Digits(n, base, large), base, large, n)
  {
    if n > 0 { DigitsOfNumeral(n, base, large); }
    else { assert Denotes("0", base) == base * Denotes("", base) + 0; }
  }

  /** There is but one numeral of a number in a base. */
  lemma NumeralUnique(s: string, t: string, base: nat, large: bool, n: nat)
    requires IsBase(base) && IsNumeral(s, base, large, n) && IsNumeral(t, base, large, n)
    ensures s == t
  {
    hide Denotes, IsDigitOf;
    if s[0] == '0' || t[0] == '0' {
      ZeroDenotes(base);
      if s[0] != '0' { Positive(s, base, large); }
      if t[0] != '0' { Positive(t, base, large); }
    } else {
      SameDigits(s, t, base, large);
    }
  }

  lemma ZeroDenotes(base: nat)
    ensures Denotes("0", base) == 0
  {
    assert Denotes("0", base) == base * Denotes("", base) + 0;
  }

  lemma DigitBelow(c: char, base: nat, large: bool)
    requires IsBase(base) && IsDigitOf(c, base, large)
    ensures DigitValue(c) < base && (DigitValue(c) == 0 <==> c == '0')
  {
  }

  lemma {:induction false} Positive(s: string, base: nat, large: bool)
    requires IsBase(base) && s != "" && s[0] != '0' && forall i :: 0 <= i < |s| ==> IsDigitOf(s[i], base, large)
    ensures Denotes(s, base) > 0
  {
    DigitBelow(s[0], base, large);
    if |s| > 1 { Positive(s[..|s| - 1], base, large); }
    hide IsDigitOf, DigitValue;
    assert base * Denotes(s[..|s| - 1], base) >= Denotes(s[..|s| - 1], base);
  }

  /** Digits behind a digit that is not 0 are determined by what they denote. */
  lemma {:induction false} SameDigits(s: string, t: string, base: nat, large: bool)
    requires IsBase(base) && Denotes(s, base) == Denotes(t, base)
    requires (s != "" ==> s[0] != '0') && (t != "" ==> t[0] != '0')
    requires forall i :: 0 <= i < |s| ==> IsDigitOf(s[i], base, large)
    requires forall i :: 0 <= i < |t| ==> IsDigitOf(t[i], base, large)
    ensures s == t
  {
    if s == "" || t == "" {
      if s != "" { Positive(s, base, large); }
      if t != "" { Positive(t, base, large); }
    } else {
      var x, c, y, e := s[..|s| - 1], s[|s| - 1], t[..|t| - 1], t[|t| - 1];
      LastDigit(Denotes(x, base), c, Denotes(y, base), e, base, large);
      SameDigits(x, y, base, large);
      hide Denotes, IsDigitOf;
      assert s == x + [c] && t == y + [e];
    }
  }

  lemma LastDigit(x: nat, c: char, y: nat, e: char, base: nat, large: bool)
    requires IsBase(base) && IsDigitOf(c, base, large) && IsDigitOf(e, base, large)
    requires base * x + DigitValue(c) == base * y + DigitValue(e)
    ensures x == y && c == e
  {
    DigitBelow(c, base, large);
    DigitBelow(e, base, large);
    if x < y { MulStrict(x, y, base); }
    if y < x { MulStrict(y, x, base); }
  }

  // ----- the argument -----

  /** An argument without a sign, at the width of its length modifier. */
  function UnsignedArg(n: nat, q: char): nat {
    if q == 'h' then n % 0x1_0000 else if q == 'l' then n % 0x1_0000_0000_0000_0000 else n % 0x1_0000_0000
  }

  /** The same in two's complement. */
  function SignedArg(n: nat, q: char): int {
    var m := UnsignedArg(n, q);
    var half := if q == 'h' then 0x8000 else if q == 'l' then 0x8000_0000_0000_0000 else 0x8000_0000;
    if m < half then m else m - 2 * half
  }

  lemma ArgIs(n: nat, q: char)
    requires q in [NUL, 'h', 'l']
    ensures Unsigned(Width(q), n) == UnsignedArg(n, q)
    ensures Signed(Width(q), n) == SignedArg(n, q)
  {
  }

  function Abs(v: int): nat {
    if v < 0 then -v else v
  }

  /** The sign of a signed conversion: a minus, or what the flags put before other numbers. */
  function SignText(v: int, f: Flags): string {
    if v < 0 then "-" else if f.plus then "+" else if f.space then " " else ""
  }

  /** A directive with an integer argument and a conversion for it. */
  predicate TakesInteger(d: Directive, args: seq<Arg>) {
    d.a < |args| && args[d.a].Num? && d.qualifier in [NUL, 'h', 'l']
    && d.conv in ['x', 'X', 'o', 'b', 'u', 'd', 'i']
  }

  // ----- without width and precision: sign and numeral -----

  /** `text` is a sign and the numeral of `v`'s amount. */
  ghost predicate IsSigned(text: string, sign: string, base: nat, large: bool, v: int) {
    |text| >= |sign| && text[..|sign|] == sign && IsNumeral(text[|sign|..], base, large, Abs(v))
  }

  /** x and X print the unsigned argument in base 16, o in base 8, b in base 2 and u in base 10; d and i print the
      signed argument in base 10. Only x and X have letters, small and capital. */
  lemma BareText(d: Directive, args: seq<Arg>)
    requires TakesInteger(d, args) && d.width == -1 && d.precision == -1
    ensures var text, n := Converted(d, args), args[d.a].n;
            && (d.conv == 'x' ==> IsSigned(text, "", 16, false, UnsignedArg(n, d.qualifier)))
            && (d.conv == 'X' ==> IsSigned(text, "", 16, true, UnsignedArg(n, d.qualifier)))
            && (d.conv == 'o' ==> IsSigned(text, "", 8, false, UnsignedArg(n, d.qualifier)))
            && (d.conv == 'b' ==> IsSigned(text, "", 2, false, UnsignedArg(n, d.qualifier)))
            && (d.conv == 'u' ==> IsSigned(text, "", 10, false, UnsignedArg(n, d.qualifier)))
            && (d.conv in ['d', 'i'] ==>
                  IsSigned(text, SignText(SignedArg(n, d.qualifier), d.f), 10, false, SignedArg(n, d.qualifier)))
  {
    BarePrinted(d, args);
    hide IsSigned, Converted, UnsignedArg, SignedArg, SignText;
  }

  lemma BarePrinted(d: Directive, args: seq<Arg>)
    requires TakesInteger(d, args) && d.width == -1 && d.precision == -1
    ensures var n, signed := args[d.a].n, d.conv in ['d', 'i'];
            var v := if signed then SignedArg(n, d.qualifier) else UnsignedArg(n, d.qualifier);
            IsSigned(Converted(d, args), if signed then SignText(v, d.f) else "", Base(d.conv), d.conv == 'X', v)
  {
    var n, f := args[d.a].n, IntegerFlags(d.conv, d.f);
    ConvertedInteger(d, args);
    BareNumber(Load(n, d.qualifier, f.sign), Base(d.conv), d.qualifier, f);
    Loaded(n, d.qualifier, f);
    hide IsSigned, Load, Number, UnsignedArg, SignedArg, SignedMagnitude, SignOf, Converted, Base;
  }

  lemma ConvertedInteger(d: Directive, args: seq<Arg>)
    requires TakesInteger(d, args)
    ensures var f := IntegerFlags(d.conv, d.f);
            Converted(d, args) ==
            Number(Load(args[d.a].n, d.qualifier, f.sign), Base(d.conv), d.qualifier, d.width, d.precision, f)
  {
    hide Load, Number;
  }

  lemma Loaded(n: nat, q: char, f: Flags)
    requires q in [NUL, 'h', 'l']
    ensures var num, v := Load(n, q, f.sign), if f.sign then SignedArg(n, q) else UnsignedArg(n, q);
            && SignedMagnitude(num, q, f) == v && SignOf(num, q, f) == if f.sign then SignText(v, f) else ""
  {
    LoadMeans(n, q, f);
    ArgIs(n, q);
    hide Load, UnsignedArg, SignedArg;
    MagnitudeIs(Load(n, q, f.sign), q, f);
  }

  /** Negative is what the sign says, and nothing is lost. */
  lemma MagnitudeIs(num: nat, q: char, f: Flags)
    requires q in [NUL, 'h', 'l']
    ensures IsNegative(num, q, f) <==> SignedMagnitude(num, q, f) < 0
    ensures Magnitude(num, q, f) == Abs(SignedMagnitude(num, q, f))
  {
    if IsNegative(num, q, f) { NonZero(num, q); }
  }

  lemma NonZero(num: nat, q: char)
    requires q in [NUL, 'h', 'l'] && Signed(Width(q), num) < 0
    ensures Unsigned(Width(q), 0 - num) > 0
  {
    if Unsigned(Width(q), 0 - num) == 0 { NoRemainder(num, Modulus(Width(q))); }
  }

  lemma NoRemainder(a: nat, m: nat)
    requires m > 0 && (0 - a) % m == 0
    ensures a % m == 0
  {
    EuclidUnique(a, m, -((0 - a) / m), 0);
  }

  lemma BareNumber(num: nat, base: nat, q: char, f: Flags)
    requires IsBase(base) && q in [NUL, 'h', 'l']
    ensures IsSigned(Number(num, base, q, -1, -1, f), SignOf(num, q, f), base, f.large, SignedMagnitude(num, q, f))
  {
    MagnitudeIs(num, q, f);
    DigitsNumeral(Magnitude(num, q, f), base, f.large);
    NumberBare(num, base, q, f);
    hide Digits, SignOf, Magnitude, IsNumeral, SignedMagnitude, Number, Abs;
    var sign, ds := SignOf(num, q, f), Digits(Magnitude(num, q, f), base, f.large);
    assert (sign + ds)[|sign|..] == ds;
  }

  lemma NumberBare(num: nat, base: nat, q: char, f: Flags)
    requires IsBase(base)
    ensures Number(num, base, q, -1, -1, f) == SignOf(num, q, f) + Digits(Magnitude(num, q, f), base, f.large)
  {
    hide Digits, SignOf, Magnitude;
  }

  // ----- precision and width -----

  /** `bare` with zeros behind its first `k` characters, up to `precision` digits; precision 0 drops the digits. */
  function Precise(bare: string, k: nat, precision: int): string
    requires k <= |bare|
  {
    bare[..k] + if precision == 0 then "" else Rep('0', precision - (|bare| - k)) + bare[k..]
  }

  /** A precision puts zeros behind the sign, and precision 0 drops the digits. */
  lemma PrecisionText(d: Directive, args: seq<Arg>)
    requires TakesInteger(d, args) && d.width == -1
    ensures var bare, k := Converted(d.(precision := -1), args), SignLength(d, args);
            k <= |bare| && Converted(d, args) == Precise(bare, k, d.precision)
  {
    var n, f := args[d.a].n, IntegerFlags(d.conv, d.f);
    ConvertedInteger(d, args);
    ConvertedInteger(d.(precision := -1), args);
    SignTakes(d, args);
    NumberPrecise(Load(n, d.qualifier, f.sign), Base(d.conv), d.qualifier, d.precision, f);
    hide Load, Number, SignOf, SignLength, Converted, Base, Precise, IntegerFlags;
  }

  lemma SignTakes(d: Directive, args: seq<Arg>)
    requires TakesInteger(d, args)
    ensures var f := IntegerFlags(d.conv, d.f);
            |SignOf(Load(args[d.a].n, d.qualifier, f.sign), d.qualifier, f)| == SignLength(d, args)
  {
    Loaded(args[d.a].n, d.qualifier, IntegerFlags(d.conv, d.f));
    hide Load, SignOf, SignedArg, UnsignedArg, SignedMagnitude;
  }

  /** How many characters the sign takes. */
  function SignLength(d: Directive, args: seq<Arg>): nat
    requires TakesInteger(d, args)
  {
    if d.conv in ['d', 'i'] && (SignedArg(args[d.a].n, d.qualifier) < 0 || d.f.plus || d.f.space) then 1 else 0
  }

  lemma NumberPrecise(num: nat, base: nat, q: char, precision: int, f: Flags)
    requires IsBase(base)
    ensures var bare, k := Number(num, base, q, -1, -1, f), |SignOf(num, q, f)|;
            k <= |bare| && Number(num, base, q, -1, precision, f) == Precise(bare, k, precision)
  {
    var sign, ds := SignOf(num, q, f), Digits(Magnitude(num, q, f), base, f.large);
    NumberParts(num, base, q, -1, precision, f);
    NumberBare(num, base, q, f);
    hide Digits, SignOf, Magnitude, Number, Rep;
    assert (sign + ds)[|sign|..] == ds && (sign + ds)[..|sign|] == sign;
  }

  /** `text` in a field: spaces behind it for '-', zeros behind its first `k` characters for '0', and spaces in front
      otherwise. */
  function Padded(text: string, k: nat, pad: int, f: Flags): string
    requires k <= |text|
  {
    if f.left then text + Rep(' ', pad)
    else if f.zeroPad then text[..k] + Rep('0', pad) + text[k..]
    else Rep(' ', pad) + text
  }

  /** A width pads the text there would be without it. Digits that precision 0 drops still take their columns. */
  lemma WidthText(d: Directive, args: seq<Arg>)
    requires TakesInteger(d, args)
    ensures var bare, narrow := Converted(d.(width := -1, precision := -1), args), Converted(d.(width := -1), args);
            var pad := d.width - if d.precision == 0 then |bare| else |narrow|;
            var k := SignLength(d, args);
            k <= |narrow| && Converted(d, args) == Padded(narrow, k, pad, d.f)
  {
    var n, f := args[d.a].n, IntegerFlags(d.conv, d.f);
    ConvertedInteger(d, args);
    ConvertedInteger(d.(width := -1), args);
    ConvertedInteger(d.(width := -1, precision := -1), args);
    SignTakes(d, args);
    NumberWide(Load(n, d.qualifier, f.sign), Base(d.conv), d.qualifier, d.width, d.precision, f);
    PaddedAlike(d, args);
    hide Load, Number, SignOf, SignLength, Converted, Base, Padded, IntegerFlags;
  }

  lemma PaddedAlike(d: Directive, args: seq<Arg>)
    ensures forall text: string, k: nat, pad: int {:trigger Padded(text, k, pad, d.f)} ::
              k <= |text| ==> Padded(text, k, pad, IntegerFlags(d.conv, d.f)) == Padded(text, k, pad, d.f)
  {
  }

  lemma NumberWide(num: nat, base: nat, q: char, width: int, precision: int, f: Flags)
    requires IsBase(base)
    ensures var bare, narrow := Number(num, base, q, -1, -1, f), Number(num, base, q, -1, precision, f);
            var pad := width - if precision == 0 then |bare| else |narrow|;
            var k := |SignOf(num, q, f)|;
            k <= |narrow| && Number(num, base, q, width, precision, f) == Padded(narrow, k, pad, f)
  {
    var m, sign := Magnitude(num, q, f), SignOf(num, q, f);
    var body := Body(m, base, precision, f.large);
    NumberParts(num, base, q, width, precision, f);
    PadIs(num, base, q, width, precision, f);
    hide Digits, SignOf, Magnitude, Number, Rep, Body, Columns;
    assert (sign + body)[|sign|..] == body && (sign + body)[..|sign|] == sign;
  }

  /** What is left of a width is what the columns of the number and its sign leave. */
  lemma PadIs(num: nat, base: nat, q: char, width: int, precision: int, f: Flags)
    requires IsBase(base)
    ensures var m, sign := Magnitude(num, q, f), SignOf(num, q, f);
            var bare, narrow := Number(num, base, q, -1, -1, f), Number(num, base, q, -1, precision, f);
            && narrow == sign + Body(m, base, precision, f.large)
            && width - Columns(m, base, precision) - |sign| == width - if precision == 0 then |bare| else |narrow|
  {
    NumberParts(num, base, q, -1, precision, f);
    NumberBare(num, base, q, f);
    SameColumns(Magnitude(num, q, f), base, f.large);
    hide Digits, SignOf, Magnitude, Number, Rep, Body;
  }

  lemma NumberParts(num: nat, base: nat, q: char, width: int, precision: int, f: Flags)
    requires IsBase(base)
    ensures var m, sign := Magnitude(num, q, f), SignOf(num, q, f);
            var body := Body(m, base, precision, f.large);
            var pad := width - Columns(m, base, precision) - |sign|;
            && |body| == (if precision == 0 then 0 else Columns(m, base, precision))
            && Number(num, base, q, width, precision, f) ==
               (if f.left then sign + body + Rep(' ', pad)
                else if f.zeroPad then sign + Rep('0', pad) + body
                else Rep(' ', pad) + (sign + body))
            && (width < 0 ==> Number(num, base, q, width, precision, f) == sign + body)
  {
    hide Digits, SignOf, Magnitude;
    var m, sign := Magnitude(num, q, f), SignOf(num, q, f);
    SameColumns(m, base, f.large);
    var body, pad := Body(m, base, precision, f.large), width - Columns(m, base, precision) - |sign|;
    assert Rep(' ', pad) + sign + body == Rep(' ', pad) + (sign + body);
  }

  // ----- reading back -----

  /** Read as a numeral in the conversion's base, the text is the argument again exactly when the precision is not 0 or
      the argument is 0: unsigned for x, X, o, b and u, signed for d and i. */
  lemma ReadsBack(d: Directive, args: seq<Arg>)
    requires TakesInteger(d, args)
    ensures var text, n := Converted(d, args), args[d.a].n;
            var u, v := UnsignedArg(n, d.qualifier), SignedArg(n, d.qualifier);
            && (d.conv in ['x', 'X'] ==> (ReadBack(text, 16) == u <==> d.precision != 0 || u == 0))
            && (d.conv == 'o' ==> (ReadBack(text, 8) == u <==> d.precision != 0 || u == 0))
            && (d.conv == 'b' ==> (ReadBack(text, 2) == u <==> d.precision != 0 || u == 0))
            && (d.conv == 'u' ==> (ReadBack(text, 10) == u <==> d.precision != 0 || u == 0))
            && (d.conv in ['d', 'i'] ==> (ReadBack(text, 10) == v <==> d.precision != 0 || v == 0))
  {
    var n, f := args[d.a].n, IntegerFlags(d.conv, d.f);
    ConvertedInteger(d, args);
    IntegerReadsBack(n, Base(d.conv), d.qualifier, d.width, d.precision, f);
    ArgIs(n, d.qualifier);
    hide Load, Number, Converted, SignedArg, UnsignedArg, Signed, Unsigned, ReadBack;
  }

  // ----- pointers, characters, strings and the rest -----

  /** A pointer is the 64-bit hexadecimal number, and without a width it has 16 digits, zeros in front. */
  lemma PointerText(d: Directive, args: seq<Arg>)
    requires d.conv == 'p' && !d.f.sign && !d.f.large
    ensures Converted(d, args) ==
            if d.width == -1
            then Converted(d.(conv := 'x', qualifier := 'l', width := 16, f := d.f.(zeroPad := true)), args)
            else Converted(d.(conv := 'x', qualifier := 'l'), args)
  {
    hide Digits, Body;
  }

  /** A character in its field, the low byte of the argument; padding is spaces, behind for '-' and before without. */
  lemma CharText(d: Directive, args: seq<Arg>)
    requires d.conv == 'c' && d.a < |args| && args[d.a].Num?
    ensures var text, w := Converted(d, args), if d.width > 1 then d.width else 1;
            var at := if d.f.left then 0 else w - 1;
            && |text| == w && text[at] as int == args[d.a].n % 256
            && forall i :: 0 <= i < w && i != at ==> text[i] == ' '
  {
  }

  /** How much of a string of `len` characters a width and a positive precision let through. */
  function Kept(len: nat, width: int, precision: int): (n: nat)
    ensures n <= len
  {
    var k := if 0 <= width < len then width else len;
    if 0 < precision < k then precision else k
  }

  /** The string, or "(NULL)" for a null pointer, cut by the width and by a positive precision, in its field. */
  lemma StringText(d: Directive, args: seq<Arg>)
    requires d.conv == 's' && d.a < |args| && !args[d.a].Num?
    ensures var s := if args[d.a].Null? then "(NULL)" else args[d.a].s;
            var n := Kept(Length(s), d.width, d.precision);
            Converted(d, args) ==
            if d.f.left then s[..n] + Rep(' ', d.width - n) else Rep(' ', d.width - n) + s[..n]
  {
    ConvertedString(d, args);
    KeptIsShown(NextStr(args, d.a), d.width, d.precision);
    hide Rep, Converted, Kept, Shown;
  }

  lemma ConvertedString(d: Directive, args: seq<Arg>)
    requires d.conv == 's'
    ensures Converted(d, args) == StringOut(NextStr(args, d.a), d.width, d.precision, d.f)
  {
    hide StringOut, NextStr;
  }

  lemma KeptIsShown(s: string, width: int, precision: int)
    ensures Shown(s, width, precision) == Kept(Length(s), width, precision)
  {
  }

  /** Any other character prints a percent sign and itself; at the end of the format, and after another percent sign,
      the sign alone. */
  lemma OtherText(d: Directive, args: seq<Arg>)
    requires d.conv !in ['c', 's', 'p', 'b', 'o', 'x', 'X', 'd', 'i', 'u']
    ensures Converted(d, args) == if d.conv == '%' || d.conv == '\0' then "%" else ['%', d.conv]
  {
  }

  /** The text of a format at a directive, and behind it: the directives c, s, p and those of integers take an
      argument. */
  lemma RenderAt(fmt: string, p: nat, args: seq<Arg>, a: nat)
    requires p < |fmt| && fmt[p] == '%'
    ensures var d := ReadDirective(fmt, p + 1, args, a);
            var taken := if d.conv in ['c', 's', 'p', 'b', 'o', 'x', 'X', 'd', 'i', 'u'] then 1 else 0;
            Render(fmt, p, args, a) ==
            Converted(d, args) + if d.conv == '\0' then "" else Render(fmt, d.p + 1, args, d.a + taken)
  {
    hide Converted, ReadDirective;
  }
}
