/**
  Bitwise operators on natural numbers, defined bit by bit, and the laws that
  let masks and disjoint fields of a machine word be read as arithmetic.
  */
module Bits {

  function Pow2(k: nat): (p: nat)
    ensures p > 0
  {
    if k == 0 then 1 else 2 * Pow2(k - 1)
  }

  /** `a << k`. */
  function Shl(a: nat, k: nat): nat {
    if k == 0 then a else 2 * Shl(a, k - 1)
  }

  /** `a >> k`. */
  function Shr(a: nat, k: nat): nat {
    if k == 0 then a else Shr(a / 2, k - 1)
  }

  /** `a & b`. */
  function And(a: nat, b: nat): nat {
    if a == 0 || b == 0 then 0 else (if a % 2 == 1 && b % 2 == 1 then 1 else 0) + 2 * And(a / 2, b / 2)
  }

  /** `a | b`. */
  function Or(a: nat, b: nat): nat {
    if a == 0 then b
    else if b == 0 then a
    else (if a % 2 == 1 || b % 2 == 1 then 1 else 0) + 2 * Or(a / 2, b / 2)
  }

  // ----- shifts -----

  /** Shifting left multiplies by a power of two. */
  lemma {:induction false} ShlIsMul(a: nat, k: nat)
    ensures Shl(a, k) == a * Pow2(k)
  {
    if k != 0 {
      ShlIsMul(a, k - 1);
      MulTwice(a, Pow2(k - 1));
    }
  }

  lemma MulTwice(a: nat, p: nat)
    ensures 2 * (a * p) == a * (2 * p)
  {}

  /** Shifting right drops the low k bits, and nothing else. */
  lemma {:induction false} ShrDivides(a: nat, k: nat)
    ensures Shl(Shr(a, k), k) <= a < Shl(Shr(a, k) + 1, k)
  {
    if k != 0 {
      ShrDivides(a / 2, k - 1);
    }
  }

  lemma {:induction false} Pow2Add(j: nat, k: nat)
    ensures Pow2(j + k) == Pow2(j) * Pow2(k)
  {
    if j != 0 {
      Pow2Add(j - 1, k);
      assert Pow2(j + k) == 2 * Pow2(j - 1 + k);
      MulTwice(Pow2(k), Pow2(j - 1));
    }
  }

  // The powers of two that occur in the descriptor format.
  lemma Pow2Values()
    ensures Pow2(0) == 1 && Pow2(2) == 4
    ensures Pow2(9) == 0x200 && Pow2(12) == 0x1000 && Pow2(13) == 0x2000 && Pow2(16) == 0x1_0000
    ensures Pow2(21) == 0x20_0000 && Pow2(29) == 0x2000_0000 && Pow2(30) == 0x4000_0000
    ensures Pow2(32) == 0x1_0000_0000 && Pow2(36) == 0x10_0000_0000 && Pow2(39) == 0x80_0000_0000
    ensures Pow2(40) == 0x100_0000_0000 && Pow2(42) == 0x400_0000_0000 && Pow2(44) == 0x1000_0000_0000
    ensures Pow2(48) == 0x1_0000_0000_0000 && Pow2(55) == 0x80_0000_0000_0000
  {
    assert Pow2(4) == 16;
    assert Pow2(8) == 256 by { Pow2Add(4, 4); }
    assert Pow2(9) == 0x200 by { Pow2Add(1, 8); }
    assert Pow2(12) == 0x1000 by { Pow2Add(4, 8); }
    assert Pow2(13) == 0x2000 by { Pow2Add(1, 12); }
    assert Pow2(16) == 0x1_0000 by { Pow2Add(8, 8); }
    assert Pow2(21) == 0x20_0000 by { Pow2Add(9, 12); }
    assert Pow2(29) == 0x2000_0000 by { Pow2Add(13, 16); }
    assert Pow2(30) == 0x4000_0000 by { Pow2Add(9, 21); }
    assert Pow2(32) == 0x1_0000_0000 by { Pow2Add(16, 16); }
    assert Pow2(36) == 0x10_0000_0000 by { Pow2Add(4, 32); }
    assert Pow2(39) == 0x80_0000_0000 by { Pow2Add(9, 30); }
    assert Pow2(40) == 0x100_0000_0000 by { Pow2Add(4, 36); }
    assert Pow2(42) == 0x400_0000_0000 by { Pow2Add(13, 29); }
    assert Pow2(44) == 0x1000_0000_0000 by { Pow2Add(4, 40); }
    assert Pow2(48) == 0x1_0000_0000_0000 by { Pow2Add(16, 32); }
    assert Pow2(55) == 0x80_0000_0000_0000 by { Pow2Add(13, 42); }
  }

  // ----- conjunction and disjunction -----

  lemma AndZero(a: nat)
    ensures And(a, 0) == 0 && And(0, a) == 0
  {}

  lemma AndStep(a: nat, b: nat)
    ensures And(a, b) == (if a % 2 == 1 && b % 2 == 1 then 1 else 0) + 2 * And(a / 2, b / 2)
  {}

  lemma HalfOfSum(l: nat, h: nat)
    ensures (l + 2 * h) / 2 == l / 2 + h && (l + 2 * h) % 2 == l % 2
  {}

  lemma AndSplitStep(al: nat, bl: nat, x: nat, y: nat, z: nat)
    requires And(al / 2 + x, bl / 2 + y) == And(al / 2, bl / 2) + z
    ensures And(al + 2 * x, bl + 2 * y) == And(al, bl) + 2 * z
  {
    hide And;
    AndStep(al + 2 * x, bl + 2 * y);
    AndStep(al, bl);
    HalfOfSum(al, x);
    HalfOfSum(bl, y);
  }

  /** A conjunction works on the low k bits and on the rest separately. */
  lemma {:induction false} AndSplit(k: nat, al: nat, ah: nat, bl: nat, bh: nat)
    requires al < Pow2(k) && bl < Pow2(k)
    ensures And(al + Shl(ah, k), bl + Shl(bh, k)) == And(al, bl) + Shl(And(ah, bh), k)
  {
    if k == 0 {
      AndZero(0);
    } else {
      hide And;
      var x, y, z := Shl(ah, k - 1), Shl(bh, k - 1), Shl(And(ah, bh), k - 1);
      assert Shl(ah, k) == 2 * x && Shl(bh, k) == 2 * y && Shl(And(ah, bh), k) == 2 * z;
      AndSplit(k - 1, al / 2, ah, bl / 2, bh);
      AndSplitStep(al, bl, x, y, z);
    }
  }

  /** The mask of the k low bits selects them. */
  lemma {:induction false} AndLowMask(w: nat, k: nat)
    requires w < Pow2(k)
    ensures And(w, Pow2(k) - 1) == w
  {
    if k != 0 {
      AndLowMask(w / 2, k - 1);
      HalfOfSum(1, Pow2(k - 1) - 1);
      AndStep(w, Pow2(k) - 1);
    }
  }

  /** Words that share no bit are joined by addition. */
  lemma {:induction false} OrDisjoint(a: nat, b: nat)
    requires And(a, b) == 0
    ensures Or(a, b) == a + b
  {
    if a != 0 && b != 0 {
      OrDisjoint(a / 2, b / 2);
    }
  }

  lemma {:induction false} ShlZero(k: nat)
    ensures Shl(0, k) == 0
  {
    if k != 0 { ShlZero(k - 1); }
  }

  /** A number shifted left by k shares no bit with a number below 2^k. */
  lemma AndDisjoint(k: nat, h: nat, l: nat)
    requires l < Pow2(k)
    ensures And(Shl(h, k), l) == 0 == And(l, Shl(h, k))
  {
    ShlZero(k);
    AndSplit(k, 0, h, l, 0);
    AndSplit(k, l, 0, 0, h);
    AndZero(l);
    AndZero(h);
  }

  /** The mask `(2^width - 1) << lo` selects the field of `width` bits at `lo`, in place. */
  lemma AndField(lo: nat, width: nat, l: nat, m: nat, h: nat)
    requires l < Pow2(lo) && m < Pow2(width)
    ensures And(l + Shl(m + Shl(h, width), lo), Shl(Pow2(width) - 1, lo)) == Shl(m, lo)
  {
    AndSplit(lo, l, m + Shl(h, width), 0, Pow2(width) - 1);
    ShlZero(width);
    AndSplit(width, m, h, Pow2(width) - 1, 0);
    AndLowMask(m, width);
    AndZero(l);
    AndZero(h);
  }

  // ----- division -----

  /** Quotient and remainder are determined by the division equation. */
  lemma DivModUnique(a: nat, s: nat, q: nat, r: nat)
    requires r < s && a == q * s + r
    ensures a / s == q && a % s == r
  {
    var q', r' := a / s, a % s;
    assert a == q' * s + r';
    if q < q' {
      MulLe(q + 1, q', s);
    } else if q' < q {
      MulLe(q' + 1, q, s);
    }
  }

  lemma MulLe(x: nat, y: nat, s: nat)
    requires x <= y
    ensures x * s <= y * s
  {}
}
