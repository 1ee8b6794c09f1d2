/**
  How a directive is read: from the text of its flags, width, precision, length modifier and conversion, to what each of
  them means.
  */
module FormatReading {
  import opened CStrings
  import opened FormatSpec
  import opened FormatMeaning

  // ----- flags -----

  predicate IsFlag(c: char) {
    c in ['-', '+', ' ', '#', '0']
  }

  /** All flags in front are taken, in any order and number; `#` is taken and means nothing. */
  lemma {:induction false} FlagsRead(fmt: string, p: nat, q: nat, f: Flags)
    requires p <= q <= |fmt| && (forall i :: p <= i < q ==> IsFlag(fmt[i])) && (q < |fmt| ==> !IsFlag(fmt[q]))
    ensures var text := fmt[p..q];
            ReadFlags(fmt, p, f) ==
            (Flags(f.zeroPad || '0' in text, f.sign, f.plus || '+' in text, f.space || ' ' in text,
                   f.left || '-' in text, f.large), q)
    decreases q - p
  {
    if p < q {
      var c := fmt[p];
      assert fmt[p..q] == [c] + fmt[p + 1..q];
      var f' := Flags(f.zeroPad || c == '0', f.sign, f.plus || c == '+', f.space || c == ' ',
                      f.left || c == '-', f.large);
      FlagsRead(fmt, p + 1, q, f');
    }
  }

  // ----- numbers -----

  predicate AllDigits(s: string) {
    forall i :: 0 <= i < |s| ==> '0' <= s[i] <= '9'
  }

  lemma DenotesMore(s: string, c: char)
    ensures Denotes(s + [c], 10) == 10 * Denotes(s, 10) + FormatTheorems.DigitValue(c)
  {
    assert (s + [c])[..|s|] == s;
  }

  /** A run of digits is read as the decimal number it denotes; `done` is what was read before. */
  lemma {:induction false} NumberRead(fmt: string, p: nat, q: nat, done: string)
    requires p <= q <= |fmt| && AllDigits(fmt[p..q]) && (q < |fmt| ==> !IsDigit(fmt[q]))
    ensures ReadNumber(fmt, p, Denotes(done, 10)) == (Denotes(done + fmt[p..q], 10), q)
    decreases q - p
  {
    if p < q {
      assert fmt[p..q][0] == fmt[p] && fmt[p + 1..q] == fmt[p..q][1..];
      DenotesMore(done, fmt[p]);
      NumberRead(fmt, p + 1, q, done + [fmt[p]]);
      assert done + [fmt[p]] + fmt[p + 1..q] == done + fmt[p..q];
    } else {
      assert done + fmt[p..q] == done;
    }
  }

  // ----- the parts of a directive -----

  /** A width is a number, a star, or missing. */
  predicate WidthAt(fmt: string, p: nat, q: nat) {
    p <= q <= |fmt|
    && if q == p then !IsDigit(At(fmt, p)) && At(fmt, p) != '*'
       else fmt[p..q] == "*" || (AllDigits(fmt[p..q]) && !IsDigit(At(fmt, q)))
  }

  /** A precision is a point, and then a number, a star or nothing; or it is missing. */
  predicate PrecisionAt(fmt: string, p: nat, q: nat) {
    p <= q <= |fmt|
    && if q == p then At(fmt, p) != '.' else fmt[p] == '.' && WidthAt(fmt, p + 1, q)
  }

  /** The length modifier is an h or an l, or missing. */
  predicate QualifierAt(fmt: string, p: nat, q: nat) {
    p <= q <= |fmt|
    && if q == p then At(fmt, p) !in ['h', 'l'] else fmt[p..q] == "h" || fmt[p..q] == "l"
  }

  /** The parts of the directive that begins behind a percent sign at `p`: flags up to `w`, a width up to `r`, a
      precision up to `q`, a length modifier up to `c`, and there the conversion. */
  predicate IsDirective(fmt: string, p: nat, w: nat, r: nat, q: nat, c: nat) {
    && p <= w <= |fmt| && (forall i :: p <= i < w ==> IsFlag(fmt[i])) && !IsFlag(At(fmt, w))
    && WidthAt(fmt, w, r) && PrecisionAt(fmt, r, q) && QualifierAt(fmt, q, c)
  }

  /** The argument that a star takes: an int. */
  function Star(args: seq<Arg>, a: nat): int {
    if a < |args| && args[a].Num? then SignedArg(args[a].n, NUL) else 0
  }

  /** What the text of a width means, -1 for none. A negative argument of a star means its amount. */
  function WidthOf(text: string, args: seq<Arg>, a: nat): int {
    if text == "" then -1 else if text == "*" then Abs(Star(args, a)) else Denotes(text, 10)
  }

  /** What the text of a precision means, -1 for none. A negative argument of a star means 0. */
  function PrecisionOf(text: string, args: seq<Arg>, a: nat): int {
    if text == "" then -1
    else if text == "." then 0
    else if text == ".*" then (if Star(args, a) < 0 then 0 else Star(args, a))
    else Denotes(text[1..], 10)
  }

  /** Reading a directive yields what its parts mean: which flags there are, with `-` also from a negative width, the
      width, the precision, the modifier, the conversion, where that is, and how many arguments the stars have taken. */
  lemma DirectiveRead(fmt: string, p: nat, w: nat, r: nat, q: nat, c: nat, args: seq<Arg>, a: nat)
    requires IsDirective(fmt, p, w, r, q, c)
    ensures var flags, width, precision := fmt[p..w], fmt[w..r], fmt[r..q];
            var b := if width == "*" then a + 1 else a;
            ReadDirective(fmt, p, args, a) ==
            Directive(Flags('0' in flags, false, '+' in flags, ' ' in flags,
                            '-' in flags || (width == "*" && Star(args, a) < 0), false),
                      WidthOf(width, args, a), PrecisionOf(precision, args, b),
                      if c == q then '\0' else fmt[q], At(fmt, c), c, if precision == ".*" then b + 1 else b)
  {
    hide Denotes, SignedArg;
    FlagsRead(fmt, p, w, NO_FLAGS);
    var f := ReadFlags(fmt, p, NO_FLAGS).0;
    WidthRead(fmt, w, r, args, a, f);
    var d := ReadWidth(fmt, w, args, a, f);
    PrecisionRead(fmt, r, q, args, d.a, d.f);
    QualifierRead(fmt, q, c);
    hide ReadFlags, ReadWidth, ReadPrecision, Qualifier, IsDirective, WidthOf, PrecisionOf, Star;
  }

  lemma StarIs(args: seq<Arg>, a: nat)
    ensures Signed(32, NextNum(args, a)) == Star(args, a)
  {
    ArgIs(NextNum(args, a), NUL);
  }

  lemma WidthRead(fmt: string, p: nat, q: nat, args: seq<Arg>, a: nat, f: Flags)
    requires WidthAt(fmt, p, q)
    ensures var text := fmt[p..q];
            ReadWidth(fmt, p, args, a, f) ==
            Read(WidthOf(text, args, a), f.(left := f.left || (text == "*" && Star(args, a) < 0)), q,
                 if text == "*" then a + 1 else a)
  {
    hide Denotes, Signed, SignedArg, Star;
    StarIs(args, a);
    if q > p {
      assert fmt[p..q][0] == fmt[p];
      if fmt[p..q] != "*" { WholeNumber(fmt, p, q); }
    }
  }

  lemma WholeNumber(fmt: string, p: nat, q: nat)
    requires p <= q <= |fmt| && AllDigits(fmt[p..q]) && !IsDigit(At(fmt, q))
    ensures ReadNumber(fmt, p, 0) == (Denotes(fmt[p..q], 10), q)
  {
    NumberRead(fmt, p, q, "");
    assert "" + fmt[p..q] == fmt[p..q];
    assert Denotes("", 10) == 0;
  }

  lemma PrecisionRead(fmt: string, p: nat, q: nat, args: seq<Arg>, a: nat, f: Flags)
    requires PrecisionAt(fmt, p, q)
    ensures var text := fmt[p..q];
            ReadPrecision(fmt, p, args, a, f) ==
            Read(PrecisionOf(text, args, a), f, q, if text == ".*" then a + 1 else a)
  {
    hide Denotes, Signed, SignedArg, Star;
    StarIs(args, a);
    if q > p {
      var text, rest := fmt[p..q], fmt[p + 1..q];
      assert text == ['.'] + rest && text[1..] == rest;
      if q > p + 1 {
        assert rest[0] == fmt[p + 1];
        if rest != "*" { WholeNumber(fmt, p + 1, q); }
      }
    }
  }

  lemma QualifierRead(fmt: string, p: nat, q: nat)
    requires QualifierAt(fmt, p, q)
    ensures Qualifier(fmt, p) == if q == p then '\0' else fmt[p]
    ensures q == p || (q == p + 1 && fmt[p] in ['h', 'l'])
  {
    if q > p { assert fmt[p..q][0] == fmt[p] && |fmt[p..q]| == 1; }
  }

  // ----- every directive has these parts -----

  lemma {:induction false} FlagsEnd(fmt: string, p: nat) returns (w: nat)
    requires p <= |fmt|
    ensures p <= w <= |fmt| && (forall i :: p <= i < w ==> IsFlag(fmt[i])) && !IsFlag(At(fmt, w))
    decreases |fmt| - p
  {
    w := p;
    if IsFlag(At(fmt, p)) { w := FlagsEnd(fmt, p + 1); }
  }

  lemma {:induction false} DigitsEnd(fmt: string, p: nat) returns (q: nat)
    requires p <= |fmt|
    ensures p <= q <= |fmt| && AllDigits(fmt[p..q]) && !IsDigit(At(fmt, q)) && (q == p <==> !IsDigit(At(fmt, p)))
    decreases |fmt| - p
  {
    q := p;
    if IsDigit(At(fmt, p)) {
      q := DigitsEnd(fmt, p + 1);
      assert fmt[p..q] == [fmt[p]] + fmt[p + 1..q];
    }
  }

  lemma WidthEnd(fmt: string, p: nat) returns (q: nat)
    requires p <= |fmt|
    ensures WidthAt(fmt, p, q)
  {
    if At(fmt, p) == '*' { q := p + 1; } else { q := DigitsEnd(fmt, p); }
  }

  lemma QualifierEnd(fmt: string, p: nat) returns (q: nat)
    requires p <= |fmt|
    ensures QualifierAt(fmt, p, q)
  {
    q := p;
    if At(fmt, p) == 'h' || At(fmt, p) == 'l' {
      q := p + 1;
      var part := fmt[p..q];
      assert |part| == 1 && part[0] == fmt[p];
      assert part == "h" || part == "l";
    }
  }

  /** Whatever stands behind a percent sign splits into these parts. */
  lemma PartsExist(fmt: string, p: nat) returns (w: nat, r: nat, q: nat, c: nat)
    requires p <= |fmt|
    ensures IsDirective(fmt, p, w, r, q, c)
  {
    w := FlagsEnd(fmt, p);
    r := WidthEnd(fmt, w);
    q := r;
    if At(fmt, r) == '.' { q := WidthEnd(fmt, r + 1); }
    c := QualifierEnd(fmt, q);
  }

  /** A whole call: `%x` prints the 32-bit argument in base 16 with small letters. */
  lemma PrintHex(n: nat)
    ensures IsNumeral(Render("%x", 0, [Num(n)], 0), 16, false, n % 0x1_0000_0000)
  {
    var args, d := [Num(n)], Directive(NO_FLAGS, -1, -1, NUL, 'x', 1, 0);
    assert ReadDirective("%x", 1, args, 0) == d;
    BareText(d, args);
    hide Converted, IsNumeral, ReadDirective;
    RenderAt("%x", 0, args, 0);
    assert Render("%x", 2, args, 1) == "";
    var text := Converted(d, args);
    assert text + "" == text == text[0..];
  }
}
