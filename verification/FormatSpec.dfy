/**
  What src/bsp/vsnprintf_s.c prints, as strings without any buffer: numbers, directives,
  and whole formats.
  */
module FormatSpec {
  import opened CStrings

  datatype Flags = Flags(zeroPad: bool, sign: bool, plus: bool, space: bool, left: bool, large: bool)

  /** Arguments as they lie in the variable argument list: a 64-bit word, a string, or a null pointer. */
  datatype Arg = Num(n: nat) | Str(s: string) | Null

  // ----- machine integers -----

  function Modulus(bits: nat): (m: nat)
    ensures m > 0
  {
    if bits == 16 then 0x1_0000 else if bits == 32 then 0x1_0000_0000 else 0x1_0000_0000_0000_0000
  }

  /** The value of the low bits, unsigned. */
  function Unsigned(bits: nat, n: int): (r: nat) {
    if bits == 16 then n % 0x1_0000 else if bits == 32 then n % 0x1_0000_0000 else n % 0x1_0000_0000_0000_0000
  }

  /** The value of the low bits in two's complement. */
  function Signed(bits: nat, n: int): int {
    var m := Unsigned(bits, n);
    if 2 * m < Modulus(bits) then m else m - Modulus(bits)
  }

  const INT_MIN: int := -0x8000_0000
  const INT_MAX: int := 0x7FFF_FFFF

  /** C's `int`: arithmetic must not leave it. */
  type int32 = x: int | INT_MIN <= x <= INT_MAX

  /** The width a length modifier stands for. */
  function Width(qualifier: char): nat {
    if qualifier == 'h' then 16 else if qualifier == 'l' then 64 else 32
  }

  // ----- digits -----

  predicate IsBase(base: nat) {
    base == 2 || base == 8 || base == 10 || base == 16
  }

  function Quot(n: nat, base: nat): (q: nat)
    requires IsBase(base)
    ensures n > 0 ==> q < n
  {
    if base == 2 then n / 2 else if base == 8 then n / 8 else if base == 10 then n / 10 else n / 16
  }

  function Rem(n: nat, base: nat): (r: nat)
    requires IsBase(base)
    ensures r < base
  {
    if base == 2 then n % 2 else if base == 8 then n % 8 else if base == 10 then n % 10 else n % 16
  }

  function DigitChar(d: nat, large: bool): char
    requires d < 16
  {
    (if large then "0123456789ABCDEF" else "0123456789abcdef")[d]
  }

  /** The digits of a positive number, most significant first; none for zero. */
  function DigitsOf(n: nat, base: nat, large: bool): string
    requires IsBase(base)
  {
    if n == 0 then "" else DigitsOf(Quot(n, base), base, large) + [DigitChar(Rem(n, base), large)]
  }

  function Digits(n: nat, base: nat, large: bool): string
    requires IsBase(base)
  {
    if n == 0 then "0" else DigitsOf(n, base, large)
  }

  // ----- numbers -----

  function Rep(c: char, n: int): (r: string)
    ensures |r| == if n > 0 then n else 0
    ensures forall i :: 0 <= i < |r| ==> r[i] == c
  {
    if n <= 0 then "" else Rep(c, n - 1) + [c]
  }

  predicate IsNegative(num: nat, qualifier: char, f: Flags) {
    f.sign && Signed(Width(qualifier), num) < 0
  }

  /** The sign to print, and the number that is left to print. */
  function SignOf(num: nat, qualifier: char, f: Flags): string {
    if !f.sign then ""
    else if IsNegative(num, qualifier, f) then "-"
    else if f.plus then "+"
    else if f.space then " "
    else ""
  }

  function Magnitude(num: nat, qualifier: char, f: Flags): nat {
    if IsNegative(num, qualifier, f) then Unsigned(Width(qualifier), 0 - num) else num
  }

  /** The digits with the zeros that a precision demands; precision 0 prints no digit at all. */
  function Body(m: nat, base: nat, precision: int, large: bool): string
    requires IsBase(base)
  {
    var ds := Digits(m, base, large);
    Rep('0', precision - |ds|) + if precision == 0 then "" else ds
  }

  /** The larger of precision and number of digits. */
  function Columns(m: nat, base: nat, precision: int): nat
    requires IsBase(base)
  {
    var i := |Digits(m, base, false)|;
    if precision > i then precision else i
  }

  lemma SameColumns(m: nat, base: nat, large: bool)
    requires IsBase(base)
    ensures |Digits(m, base, large)| == |Digits(m, base, false)|
  {
    SameLength(m, base, large);
  }

  lemma {:induction false} SameLength(m: nat, base: nat, large: bool)
    requires IsBase(base)
    ensures |DigitsOf(m, base, large)| == |DigitsOf(m, base, false)|
  {
    if m > 0 { SameLength(Quot(m, base), base, large); }
  }

  /** A number with sign and padding to a field width. */
  function Number(num: nat, base: nat, qualifier: char, width: int, precision: int, f: Flags): string
    requires IsBase(base)
  {
    var sign := SignOf(num, qualifier, f);
    var m := Magnitude(num, qualifier, f);
    var body := Body(m, base, precision, f.large);
    var pad := width - Columns(m, base, precision) - |sign|;
    if f.left then sign + body + Rep(' ', pad)
    else if f.zeroPad then sign + Rep('0', pad) + body
    else Rep(' ', pad) + sign + body
  }

  // ----- directives -----

  predicate IsDigit(c: char) {
    '0' <= c <= '9'
  }

  function NextNum(args: seq<Arg>, a: nat): nat {
    if a < |args| && args[a].Num? then args[a].n else 0
  }

  function NextStr(args: seq<Arg>, a: nat): string {
    if a < |args| && args[a].Str? then args[a].s else "(NULL)"
  }

  function ReadFlags(fmt: string, p: nat, f: Flags): (Flags, nat)
    decreases |fmt| - p
  {
    var c := At(fmt, p);
    if p >= |fmt| then (f, p)
    else if c == '-' then ReadFlags(fmt, p + 1, f.(left := true))
    else if c == '+' then ReadFlags(fmt, p + 1, f.(plus := true))
    else if c == ' ' then ReadFlags(fmt, p + 1, f.(space := true))
    else if c == '#' then ReadFlags(fmt, p + 1, f)
    else if c == '0' then ReadFlags(fmt, p + 1, f.(zeroPad := true))
    else (f, p)
  }

  /** A decimal number, added to what has been read so far. */
  function ReadNumber(fmt: string, p: nat, i: nat): (nat, nat)
    decreases |fmt| - p
  {
    if p < |fmt| && IsDigit(fmt[p]) then ReadNumber(fmt, p + 1, 10 * i + (fmt[p] as int - '0' as int)) else (i, p)
  }

  /** Where parsing stands after a part of a directive: the value read, the flags, the position in the
      format and the next argument. */
  datatype Read = Read(value: int, f: Flags, p: nat, a: nat)

  function ReadWidth(fmt: string, p: nat, args: seq<Arg>, a: nat, f: Flags): Read {
    var c := At(fmt, p);
    if IsDigit(c) then
      var (n, p') := ReadNumber(fmt, p, 0);
      Read(n, f, p', a)
    else if c == '*' then
      var w := Signed(32, NextNum(args, a));
      if w < 0 then Read(-w, f.(left := true), p + 1, a + 1) else Read(w, f, p + 1, a + 1)
    else Read(-1, f, p, a)
  }

  function ReadPrecision(fmt: string, p: nat, args: seq<Arg>, a: nat, f: Flags): Read {
    if At(fmt, p) != '.' then Read(-1, f, p, a)
    else if IsDigit(At(fmt, p + 1)) then
      var (n, p') := ReadNumber(fmt, p + 1, 0);
      Read(n, f, p', a)
    else if At(fmt, p + 1) == '*' then
      var n := Signed(32, NextNum(args, a));
      Read(if n < 0 then 0 else n, f, p + 2, a + 1)
    else Read(0, f, p + 1, a)
  }

  function Qualifier(fmt: string, p: nat): char {
    if At(fmt, p) == 'h' || At(fmt, p) == 'l' then At(fmt, p) else NUL
  }

  /** A directive after its '%' has been read: flags, width, precision, length modifier, conversion,
      the position of the conversion character and the next argument. */
  datatype Directive = Directive(f: Flags, width: int, precision: int, qualifier: char, conv: char, p: nat, a: nat)

  const NO_FLAGS: Flags := Flags(false, false, false, false, false, false)

  function ReadDirective(fmt: string, p: nat, args: seq<Arg>, a: nat): Directive {
    var (f, p1) := ReadFlags(fmt, p, NO_FLAGS);
    var w := ReadWidth(fmt, p1, args, a, f);
    var d := ReadPrecision(fmt, w.p, args, w.a, w.f);
    var q := Qualifier(fmt, d.p);
    var p2 := if q == NUL then d.p else d.p + 1;
    Directive(d.f, w.value, d.value, q, At(fmt, p2), p2, d.a)
  }

  // ----- conversions -----

  /** How much of a string is printed: a width and a positive precision both cut it. */
  function Shown(s: string, width: int, precision: int): (n: nat)
    ensures n <= Length(s)
  {
    var n := if 0 <= width < Length(s) then width else Length(s);
    if 0 < precision < n then precision else n
  }

  /** Padded to a width, on the side that the flag says. */
  function InField(text: string, width: int, f: Flags): string {
    if f.left then text + Rep(' ', width - |text|) else Rep(' ', width - |text|) + text
  }

  function StringOut(s: string, width: int, precision: int, f: Flags): string {
    InField(s[..Shown(s, width, precision)], width, f)
  }

  function CharOut(n: nat, width: int, f: Flags): string {
    InField([(n % 256) as char], width, f)
  }

  predicate IsInteger(conv: char) {
    conv == 'b' || conv == 'o' || conv == 'X' || conv == 'x' || conv == 'd' || conv == 'i' || conv == 'u'
  }

  function Base(conv: char): (b: nat)
    ensures IsBase(b)
  {
    if conv == 'b' then 2 else if conv == 'o' then 8 else if conv == 'x' || conv == 'X' then 16 else 10
  }

  function IntegerFlags(conv: char, f: Flags): Flags {
    f.(large := conv == 'X', sign := conv == 'd' || conv == 'i')
  }

  /** An integer argument as the length modifier says, in a 64-bit word. */
  function Load(n: nat, qualifier: char, sign: bool): nat {
    if qualifier == 'l' then Unsigned(64, n)
    else if qualifier == 'h' then (if sign then Unsigned(64, Signed(16, n)) else Unsigned(16, n))
    else Unsigned(32, n)
  }

  /** The text of a directive. */
  function Converted(d: Directive, args: seq<Arg>): string {
    if d.conv == 'c' then CharOut(NextNum(args, d.a), d.width, d.f)
    else if d.conv == 's' then StringOut(NextStr(args, d.a), d.width, d.precision, d.f)
    else if d.conv == 'p' then
      var (w, f) := if d.width == -1 then (16, d.f.(zeroPad := true)) else (d.width, d.f);
      Number(Unsigned(64, NextNum(args, d.a)), 16, d.qualifier, w, d.precision, f)
    else if d.conv == '%' then "%"
    else if IsInteger(d.conv) then
      var f := IntegerFlags(d.conv, d.f);
      Number(Load(NextNum(args, d.a), d.qualifier, f.sign), Base(d.conv), d.qualifier, d.width, d.precision, f)
    else if d.conv == NUL then "%"
    else "%" + [d.conv]
  }

  /** The number of arguments the conversion itself takes. */
  function Taken(conv: char): nat {
    if conv == 'c' || conv == 's' || conv == 'p' || IsInteger(conv) then 1 else 0
  }

  // ----- positions only move forward -----

  lemma {:induction false} ReadFlagsForward(fmt: string, p: nat, f: Flags)
    ensures ReadFlags(fmt, p, f).1 >= p
    ensures p <= |fmt| ==> ReadFlags(fmt, p, f).1 <= |fmt|
    decreases |fmt| - p
  {
    if p < |fmt| {
      var c := fmt[p];
      if c == '-' { ReadFlagsForward(fmt, p + 1, f.(left := true)); }
      else if c == '+' { ReadFlagsForward(fmt, p + 1, f.(plus := true)); }
      else if c == ' ' { ReadFlagsForward(fmt, p + 1, f.(space := true)); }
      else if c == '#' { ReadFlagsForward(fmt, p + 1, f); }
      else if c == '0' { ReadFlagsForward(fmt, p + 1, f.(zeroPad := true)); }
    }
  }

  lemma {:induction false} ReadNumberForward(fmt: string, p: nat, i: nat)
    ensures ReadNumber(fmt, p, i).1 >= p
    ensures p <= |fmt| ==> ReadNumber(fmt, p, i).1 <= |fmt|
    decreases |fmt| - p
  {
    if p < |fmt| && IsDigit(fmt[p]) { ReadNumberForward(fmt, p + 1, 10 * i + (fmt[p] as int - '0' as int)); }
  }

  lemma DirectiveForward(fmt: string, p: nat, args: seq<Arg>, a: nat)
    requires p <= |fmt|
    ensures p <= ReadDirective(fmt, p, args, a).p <= |fmt|
  {
    var (f, p1) := ReadFlags(fmt, p, NO_FLAGS);
    ReadFlagsForward(fmt, p, NO_FLAGS);
    ReadNumberForward(fmt, p1, 0);
    var w := ReadWidth(fmt, p1, args, a, f);
    ReadNumberForward(fmt, w.p + 1, 0);
  }

  // ----- whole formats -----

  /** The text of a format from position `p` on. */
  function Render(fmt: string, p: nat, args: seq<Arg>, a: nat): string
    decreases |fmt| - p
  {
    var c := At(fmt, p);
    if p >= |fmt| || c == NUL then ""
    else if c != '%' then [c] + Render(fmt, p + 1, args, a)
    else
      DirectiveForward(fmt, p + 1, args, a);
      var d := ReadDirective(fmt, p + 1, args, a);
      Converted(d, args) + (if d.conv == NUL then "" else Render(fmt, d.p + 1, args, d.a + Taken(d.conv)))
  }
}
