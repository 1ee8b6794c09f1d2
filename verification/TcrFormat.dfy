/** The translation control register that src/bsp/mmu.c computes, and its fields as the hardware reads them. */
module TcrFormat {
  import opened Bits
  import opened MmuFormat

  const TCR_EL1_RSVD: nat := 0x8_0000_0000
  const TCR_TG0_4K: nat := 0
  const TCR_TG0_64K: nat := 0x4000
  const TCR_SHARED_INNER: nat := 0x3000
  const TCR_ORGN_WBWA: nat := 0x400
  const TCR_IRGN_WBWA: nat := 0x100

  function Tg0(g: Granule): nat {
    if g == G4K then TCR_TG0_4K else TCR_TG0_64K
  }

  function Tcr(g: Granule, ips: nat, bits: nat): nat
    requires bits <= 64
  {
    var walks := Or(Or(Or(Tg0(g), TCR_SHARED_INNER), TCR_ORGN_WBWA), TCR_IRGN_WBWA);
    Or(Or(Or(TCR_EL1_RSVD, Shl(ips, 32)), walks), 64 - bits)
  }

  /** T0SZ, the two cacheabilities and the shareability of walks, the granule, the output size, and bit 35. */
  datatype Fields = Fields(t0sz: nat, irgn: nat, orgn: nat, sh: nat, tg: nat, ips: nat, bit35: nat)

  function FieldsOf(tcr: nat): Fields {
    Fields(tcr % 0x40, tcr / 0x100 % 4, tcr / 0x400 % 4, tcr / 0x1000 % 4, tcr / 0x4000 % 4,
           tcr / 0x1_0000_0000 % 8, tcr / 0x8_0000_0000 % 2)
  }

  /** Nothing that is joined overlaps: each field reads back as it was put in. */
  lemma TcrFields(g: Granule, ips: nat, bits: nat)
    requires ips < 8 && 0 < bits <= 64
    ensures FieldsOf(Tcr(g, ips, bits)) == Fields(64 - bits, 1, 1, 3, if g == G4K then 0 else 1, ips, 1)
  {
    hide Tcr, FieldsOf;
    TcrIsSum(g, ips, bits);
    SumFields(if g == G4K then 0 else 1, ips, 64 - bits);
  }

  lemma TcrIsSum(g: Granule, ips: nat, bits: nat)
    requires ips < 8 && 0 < bits <= 64
    ensures Tcr(g, ips, bits) == 0x8_0000_0000 + 0x1_0000_0000 * ips + Tg0(g) + 0x3500 + (64 - bits)
  {
    hide Or, And, Pow2;
    Powers();
    assert Shl(ips, 32) == 0x1_0000_0000 * ips by {
      ShlIsMul(ips, 32);
    }
    var tg := if g == G4K then 0 else 1;
    OrSum(35, 1, 0x1_0000_0000 * ips);
    OrSum(14, tg, 0x3000);
    OrSum(12, 4 * tg + 3, 0x400);
    OrSum(10, 16 * tg + 13, 0x100);
    OrSum(32, 8 + ips, 0x4000 * tg + 0x3500);
    OrSum(8, 0x100_0000 * (8 + ips) + 0x40 * tg + 0x35, 64 - bits);
  }

  lemma OrSum(k: nat, h: nat, l: nat)
    requires l < Pow2(k)
    ensures Or(h * Pow2(k), l) == h * Pow2(k) + l
  {
    ShlIsMul(h, k);
    AndDisjoint(k, h, l);
    OrDisjoint(Shl(h, k), l);
  }

  lemma Powers()
    ensures Pow2(8) == 0x100 && Pow2(10) == 0x400 && Pow2(12) == 0x1000 && Pow2(14) == 0x4000
    ensures Pow2(32) == 0x1_0000_0000 && Pow2(35) == 0x8_0000_0000
  {
    Pow2Values();
    assert Pow2(9) == 2 * Pow2(8) && Pow2(10) == 2 * Pow2(9) && Pow2(36) == 2 * Pow2(35);
    assert Pow2(14) == 2 * Pow2(13);
  }

  lemma SumFields(tg: nat, ips: nat, t: nat)
    requires tg < 2 && ips < 8 && t < 0x40
    ensures FieldsOf(0x8_0000_0000 + 0x1_0000_0000 * ips + 0x4000 * tg + 0x3500 + t) == Fields(t, 1, 1, 3, tg, ips, 1)
  {
    var low := 0x4000 * tg + 0x3500 + t;
    var tcr := 0x1_0000_0000 * (8 + ips) + low;
    DivModUnique(tcr, 0x40, 0x400_0000 * (8 + ips) + 0x100 * tg + 0xD4, t);
    DivModUnique(tcr, 0x100, 0x100_0000 * (8 + ips) + 0x40 * tg + 0x35, t);
    DivModUnique(tcr, 0x400, 0x40_0000 * (8 + ips) + 0x10 * tg + 0xD, 0x100 + t);
    DivModUnique(tcr, 0x1000, 0x10_0000 * (8 + ips) + 4 * tg + 3, 0x500 + t);
    DivModUnique(tcr, 0x4000, 0x4_0000 * (8 + ips) + tg, 0x3500 + t);
    DivModUnique(tcr, 0x1_0000_0000, 8 + ips, low);
    DivModUnique(tcr, 0x8_0000_0000, 1, 0x1_0000_0000 * ips + low);
  }
}
