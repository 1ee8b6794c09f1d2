/**
  The translation-table descriptor words that src/bsp/mmu.c writes, and the way
  the hardware reads them (VMSAv8-64, section D5.3 of Arm DDI 0487).
  The two sides share no definition: the software side is bitwise, as the C code
  is, and the hardware side extracts fields by position.
  */
module MmuFormat {
  import opened Bits

  datatype Granule = G4K | G64K

  const PTE_TYPE_FAULT: nat := 0
  const PTE_TYPE_BLOCK: nat := 1
  const PTE_TYPE_MASK: nat := 3
  const PTE_TYPE_PAGE: nat := 3
  const PTE_TYPE_TABLE: nat := 3
  const PTE_TABLE_ADDR_MARK_4K: nat := 0x0000_FFFF_FFFF_F000
  const PTE_TABLE_ADDR_MARK_64K: nat := 0x0000_FFFF_FFFF_0000
  const MMU_LEVEL_3: nat := 3
  const WORD_LIMIT: nat := 0x1_0000_0000_0000_0000
  const PHYS_LIMIT: nat := 0x1_0000_0000_0000

  /** The bits a region's attributes must leave alone: the output address and the type. */
  const ADDR_AND_TYPE_BITS: nat := 0x0000_FFFF_FFFF_F003

  // ----- sizes -----

  function Level2Shift(g: Granule, level: nat): nat
    requires level <= 3
  {
    if g == G4K then 12 + 9 * (3 - level) else 16 + 13 * (3 - level)
  }

  function Entries(g: Granule): nat {
    if g == G4K then 512 else 8192
  }

  function TableBytes(g: Granule): nat {
    if g == G4K then 4096 else 65536
  }

  /** The number of bytes one entry of a table at `level` translates. */
  function BlockSize(g: Granule, level: nat): (s: nat)
    requires level <= 3
    ensures s > 0
  {
    if g == G4K then
      if level == 3 then 0x1000 else if level == 2 then 0x20_0000
      else if level == 1 then 0x4000_0000 else 0x80_0000_0000
    else
      if level == 3 then 0x1_0000 else if level == 2 then 0x2000_0000
      else if level == 1 then 0x400_0000_0000 else 0x80_0000_0000_0000
  }

  /** The number of the `level` slot, counted from address 0, that holds `a`. */
  function SlotOf(g: Granule, level: nat, a: nat): nat
    requires level <= 3
  {
    if g == G4K then
      if level == 3 then a / 0x1000 else if level == 2 then a / 0x20_0000
      else if level == 1 then a / 0x4000_0000 else a / 0x80_0000_0000
    else
      if level == 3 then a / 0x1_0000 else if level == 2 then a / 0x2000_0000
      else if level == 1 then a / 0x400_0000_0000 else a / 0x80_0000_0000_0000
  }

  /** The offset of `a` in its `level` slot. */
  function OffsetIn(g: Granule, level: nat, a: nat): nat
    requires level <= 3
  {
    if g == G4K then
      if level == 3 then a % 0x1000 else if level == 2 then a % 0x20_0000
      else if level == 1 then a % 0x4000_0000 else a % 0x80_0000_0000
    else
      if level == 3 then a % 0x1_0000 else if level == 2 then a % 0x2000_0000
      else if level == 1 then a % 0x400_0000_0000 else a % 0x80_0000_0000_0000
  }

  /** The size literals are the powers of two that `1ULL << mmu_level2shift(level)` computes. */
  lemma BlockSizeIsShift(g: Granule, level: nat)
    requires level <= 3
    ensures BlockSize(g, level) == Pow2(Level2Shift(g, level))
    ensures TableBytes(g) == BlockSize(g, 3) == 8 * Entries(g)
  {
    Pow2Values();
  }

  /** Slot number and offset are quotient and remainder by the block size. */
  lemma SlotAndOffset(g: Granule, level: nat, a: nat)
    requires level <= 3
    ensures a == SlotOf(g, level, a) * BlockSize(g, level) + OffsetIn(g, level, a)
    ensures OffsetIn(g, level, a) < BlockSize(g, level)
    ensures a < PHYS_LIMIT && level == 3 ==> OffsetIn(g, level, a) < 0x1_0000
  {}

  /** A slot of one level is exactly `Entries` consecutive slots of the next. */
  lemma SlotNesting(g: Granule, level: nat, a: nat)
    requires level < 3
    ensures SlotOf(g, level, a) == SlotOf(g, level + 1, a) / Entries(g)
    ensures BlockSize(g, level) == BlockSize(g, level + 1) * Entries(g)
  {}

  // ----- what the code writes -----

  function TableMask(g: Granule): nat {
    if g == G4K then PTE_TABLE_ADDR_MARK_4K else PTE_TABLE_ADDR_MARK_64K
  }

  function PteType(w: nat): nat {
    And(w, PTE_TYPE_MASK)
  }

  function PteTable(table: nat): nat {
    Or(PTE_TYPE_TABLE, table)
  }

  function PteLeaf(phys: nat, attrs: nat, level: nat): nat {
    Or(Or(phys, attrs), if level == MMU_LEVEL_3 then PTE_TYPE_PAGE else PTE_TYPE_BLOCK)
  }

  // ----- what the hardware reads -----

  /** One descriptor, as the table walk unit decodes it. */
  datatype Entry = Invalid | Leaf(out: nat, attrs: nat) | Next(table: nat)

  /** Bits 47 down to the block size of `level`, in place. */
  function OutputField(g: Granule, level: nat, w: nat): nat
    requires level <= 3
  {
    var low := w % PHYS_LIMIT;
    SlotAndOffset(g, level, low);
    low - OffsetIn(g, level, low)
  }

  /** Upper attributes, bits 63 to 48, and lower attributes, bits 11 to 2. */
  function AttrField(w: nat): nat {
    w / PHYS_LIMIT * PHYS_LIMIT + w % 0x1000 / 4 * 4
  }

  /** The lower and upper attributes of a block or page, by bit position: memory type index, non-secure, access
      permissions, shareability, access flag, not global, and the two execute-never bits. */
  datatype Attributes = Attributes(index: nat, ns: nat, ap: nat, sh: nat, af: nat, ng: nat, pxn: nat, uxn: nat)

  function AttributesOf(attrs: nat): Attributes {
    Attributes(attrs / 4 % 8, attrs / 0x20 % 2, attrs / 0x40 % 4, attrs / 0x100 % 4, attrs / 0x400 % 2,
               attrs / 0x800 % 2, attrs / 0x20_0000_0000_0000 % 2, attrs / 0x40_0000_0000_0000 % 2)
  }

  /** The memory type that an index selects: a byte of MAIR. */
  function MemoryType(mair: nat, index: nat): nat
    requires index < 8
  {
    if index == 0 then mair % 0x100
    else if index == 1 then mair / 0x100 % 0x100
    else if index == 2 then mair / 0x1_0000 % 0x100
    else if index == 3 then mair / 0x100_0000 % 0x100
    else if index == 4 then mair / 0x1_0000_0000 % 0x100
    else if index == 5 then mair / 0x100_0000_0000 % 0x100
    else if index == 6 then mair / 0x1_0000_0000_0000 % 0x100
    else mair / 0x100_0000_0000_0000 % 0x100
  }

  /** The levels at which a block descriptor is architecturally valid. */
  predicate BlockLevel(g: Granule, level: nat) {
    if g == G4K then level == 1 || level == 2 else level == 2
  }

  function Decode(g: Granule, level: nat, w: nat): Entry
    requires level <= 3
  {
    if w % 2 == 0 then Invalid
    else if level == 3 then
      if w / 2 % 2 == 1 then Leaf(OutputField(g, 3, w), AttrField(w)) else Invalid
    else if w / 2 % 2 == 1 then Next(OutputField(g, 3, w))
    else if BlockLevel(g, level) then Leaf(OutputField(g, level, w), AttrField(w))
    else Invalid
  }

  // ----- encoding and decoding agree -----

  lemma TypeIsLowBits(w: nat)
    ensures PteType(w) == w % 4
  {
    Pow2Values();
    ShlIsMul(w / 4, 2);
    AndField(0, 2, 0, w % 4, w / 4);
  }

  /** `*pte & PTE_TABLE_ADDR_MARK` is the address field the hardware follows. */
  lemma MaskIsOutputField(g: Granule, w: nat)
    ensures And(w, TableMask(g)) == OutputField(g, 3, w)
  {
    if g == G4K { Mask4K(w); } else { Mask64K(w); }
  }

  lemma Mask4K(w: nat)
    ensures And(w, PTE_TABLE_ADDR_MARK_4K) == w % PHYS_LIMIT - w % PHYS_LIMIT % 0x1000
  {
    var l, m, h := Split4K(w);
    Field4K(l, m, h);
  }

  lemma Field4K(l: nat, m: nat, h: nat)
    requires l < 0x1000 && m < 0x10_0000_0000
    ensures And(l + 0x1000 * (m + 0x10_0000_0000 * h), PTE_TABLE_ADDR_MARK_4K) == 0x1000 * m
  {
    hide And;
    Pow2Values();
    ShlIsMul(h, 36);
    ShlIsMul(m + 0x10_0000_0000 * h, 12);
    ShlIsMul(m, 12);
    ShlIsMul(0xF_FFFF_FFFF, 12);
    AndField(12, 36, l, m, h);
  }

  /** A word as its page offset, the 36 bits above it, and the rest. */
  lemma Split4K(w: nat) returns (l: nat, m: nat, h: nat)
    ensures l < 0x1000 && m < 0x10_0000_0000 && w == l + 0x1000 * (m + 0x10_0000_0000 * h)
    ensures w % PHYS_LIMIT - w % PHYS_LIMIT % 0x1000 == 0x1000 * m
  {
    l, m, h := w % 0x1000, w / 0x1000 % 0x10_0000_0000, w / 0x1000 / 0x10_0000_0000;
    DivModUnique(w, PHYS_LIMIT, h, l + 0x1000 * m);
    DivModUnique(l + 0x1000 * m, 0x1000, m, l);
  }

  lemma Mask64K(w: nat)
    ensures And(w, PTE_TABLE_ADDR_MARK_64K) == w % PHYS_LIMIT - w % PHYS_LIMIT % 0x1_0000
  {
    var l, m, h := Split64K(w);
    Field64K(l, m, h);
  }

  lemma Field64K(l: nat, m: nat, h: nat)
    requires l < 0x1_0000 && m < 0x1_0000_0000
    ensures And(l + 0x1_0000 * (m + 0x1_0000_0000 * h), PTE_TABLE_ADDR_MARK_64K) == 0x1_0000 * m
  {
    hide And;
    Pow2Values();
    ShlIsMul(h, 32);
    ShlIsMul(m + 0x1_0000_0000 * h, 16);
    ShlIsMul(m, 16);
    ShlIsMul(0xFFFF_FFFF, 16);
    AndField(16, 32, l, m, h);
  }

  lemma Split64K(w: nat) returns (l: nat, m: nat, h: nat)
    ensures l < 0x1_0000 && m < 0x1_0000_0000 && w == l + 0x1_0000 * (m + 0x1_0000_0000 * h)
    ensures w % PHYS_LIMIT - w % PHYS_LIMIT % 0x1_0000 == 0x1_0000 * m
  {
    l, m, h := w % 0x1_0000, w / 0x1_0000 % 0x1_0000_0000, w / 0x1_0000 / 0x1_0000_0000;
    DivModUnique(w, PHYS_LIMIT, h, l + 0x1_0000 * m);
    DivModUnique(l + 0x1_0000 * m, 0x1_0000, m, l);
  }

  /** A table pointer survives being written and masked out again, for an aligned table below 2^48. */
  lemma TablePointerRoundTrip(g: Granule, table: nat)
    requires OffsetIn(g, 3, table) == 0 && table < PHYS_LIMIT
    ensures And(PteTable(table), TableMask(g)) == table
    ensures PteType(PteTable(table)) == PTE_TYPE_TABLE
    ensures forall level :: 0 <= level < 3 ==> Decode(g, level, PteTable(table)) == Next(table)
    ensures PteTable(table) < WORD_LIMIT
  {
    hide And, Or, SlotOf, OffsetIn, OutputField;
    var w := PteTable(table);
    TableIsSum(g, table);
    MaskIsOutputField(g, w);
    TypeIsLowBits(w);
    AlignedIsPages(g, table);
    TableBitsFit(table);
    TypeBits(w);
    TableOutput(g, table);
  }

  lemma AlignedIsPages(g: Granule, table: nat)
    requires OffsetIn(g, 3, table) == 0
    ensures table % 0x1000 == 0
  {
    if g == G64K { DivModUnique(table, 0x1000, table / 0x1_0000 * 16, 0); }
  }

  lemma TableOutput(g: Granule, table: nat)
    requires OffsetIn(g, 3, table) == 0 && table < PHYS_LIMIT && (table + 3) % PHYS_LIMIT == table + 3
    ensures OutputField(g, 3, table + 3) == table
  {
    hide OffsetIn, SlotOf;
    OffsetAdd(g, 3, table, 3);
  }

  lemma TableBitsFit(table: nat)
    requires table % 0x1000 == 0 && table < PHYS_LIMIT
    ensures (table + 3) % PHYS_LIMIT == table + 3 && (table + 3) % 4 == 3
  {
    DivModUnique(table + 3, PHYS_LIMIT, 0, table + 3);
    DivModUnique(table + 3, 4, table / 0x1000 * 0x400, 3);
  }

  lemma TableIsSum(g: Granule, table: nat)
    requires OffsetIn(g, 3, table) == 0 && table < PHYS_LIMIT
    ensures PteTable(table) == table + 3
  {
    Pow2Values();
    assert table % 0x1000 == 0;
    ShlIsMul(table / 0x1000, 12);
    AndDisjoint(12, table / 0x1000, 3);
    OrDisjoint(3, table);
  }

  /** Attributes that avoid the reserved bits, read as arithmetic. */
  lemma AttrsAvoidFields(attrs: nat)
    requires And(attrs, ADDR_AND_TYPE_BITS) == 0
    ensures attrs % 0x1000 % 4 == 0 && attrs / 0x1000 % 0x10_0000_0000 == 0
    ensures attrs % 4 == 0 && AttrField(attrs) == attrs
  {
    Pow2Values();
    var l, h := attrs % 0x1000, attrs / 0x1000;
    ShlIsMul(h, 12);
    ShlIsMul(0xF_FFFF_FFFF, 12);
    ShlIsMul(And(h, 0xF_FFFF_FFFF), 12);
    AndSplit(12, l, h, 3, 0xF_FFFF_FFFF);
    assert And(l, 3) == 0 && And(h, 0xF_FFFF_FFFF) == 0;
    TypeIsLowBits(l);
    LowMaskOf36(h);
    ZeroFields(attrs);
  }

  lemma LowMaskOf36(h: nat)
    ensures And(h, 0xF_FFFF_FFFF) == h % 0x10_0000_0000
  {
    Pow2Values();
    ShlIsMul(h / 0x10_0000_0000, 36);
    AndField(0, 36, 0, h % 0x10_0000_0000, h / 0x10_0000_0000);
  }

  lemma ZeroFields(attrs: nat)
    requires attrs % 0x1000 % 4 == 0 && attrs / 0x1000 % 0x10_0000_0000 == 0
    ensures attrs % 4 == 0 && AttrField(attrs) == attrs
  {
    AttrsSplit(attrs);
  }

  lemma AttrsSplit(attrs: nat)
    requires attrs % 0x1000 % 4 == 0 && attrs / 0x1000 % 0x10_0000_0000 == 0
    ensures attrs == attrs % 0x1000 + PHYS_LIMIT * (attrs / PHYS_LIMIT)
    ensures attrs % 4 == 0
  {
    var k := attrs / 0x1000;
    assert attrs == k * 0x1000 + attrs % 0x1000;
    assert k == k / 0x10_0000_0000 * 0x10_0000_0000;
    DivModUnique(attrs, PHYS_LIMIT, k / 0x10_0000_0000, attrs % 0x1000);
    DivModUnique(attrs, 4, k * 0x400 + attrs % 0x1000 / 4, 0);
  }

  lemma LeafIsSum(phys: nat, attrs: nat, level: nat)
    requires phys % 0x1000 == 0 && phys < PHYS_LIMIT
    requires And(attrs, ADDR_AND_TYPE_BITS) == 0
    ensures PteLeaf(phys, attrs, level) == phys + attrs + (if level == 3 then 3 else 1)
  {
    hide And, Or;
    AttrsAvoidFields(attrs);
    PhysAvoidsAttrs(phys, attrs);
    OrDisjoint(phys, attrs);
    SumIsAligned(phys, attrs);
    LowBitsFree(phys + attrs, if level == 3 then 3 else 1);
  }

  lemma SumIsAligned(phys: nat, attrs: nat)
    requires phys % 0x1000 == 0 && attrs % 4 == 0
    ensures (phys + attrs) % 4 == 0
  {
    DivModUnique(phys + attrs, 4, phys / 0x1000 * 0x400 + attrs / 4, 0);
  }

  lemma PhysAvoidsAttrs(phys: nat, attrs: nat)
    requires phys % 0x1000 == 0 && phys < PHYS_LIMIT
    requires attrs % 0x1000 % 4 == 0 && attrs / 0x1000 % 0x10_0000_0000 == 0
    ensures And(phys, attrs) == 0
  {
    Pow2Values();
    var l, h := attrs % 0x1000, attrs / PHYS_LIMIT;
    AttrsSplit(attrs);
    ShlIsMul(h, 48);
    ShlZero(48);
    AndSplit(48, phys, 0, l, h);
    AndZero(h);
    ShlIsMul(phys / 0x1000, 12);
    AndDisjoint(12, phys / 0x1000, l);
  }

  lemma LowBitsFree(a: nat, t: nat)
    requires a % 4 == 0 && t < 4
    ensures Or(a, t) == a + t
  {
    Pow2Values();
    ShlIsMul(a / 4, 2);
    AndDisjoint(2, a / 4, t);
    OrDisjoint(a, t);
  }

  /** A block or page descriptor, read by the hardware, is the output address and attributes it was made from. */
  lemma LeafRoundTrip(g: Granule, phys: nat, attrs: nat, level: nat)
    requires level == 3 || BlockLevel(g, level)
    requires OffsetIn(g, level, phys) == 0 && phys < PHYS_LIMIT
    requires And(attrs, ADDR_AND_TYPE_BITS) == 0
    ensures Decode(g, level, PteLeaf(phys, attrs, level)) == Leaf(phys, attrs)
    ensures PteType(PteLeaf(phys, attrs, level)) == (if level == 3 then PTE_TYPE_PAGE else PTE_TYPE_BLOCK)
    ensures attrs < WORD_LIMIT ==> PteLeaf(phys, attrs, level) < WORD_LIMIT
  {
    var t := if level == 3 then 3 else 1;
    SizeIsPages(g, level, phys);
    LeafIsSum(phys, attrs, level);
    AttrsAvoidFields(attrs);
    TypeIsLowBits(PteLeaf(phys, attrs, level));
    LeafFields(phys, attrs, t);
    LeafOutput(g, level, PteLeaf(phys, attrs, level), phys, attrs % 0x1000 + t);
    TypeBits(PteLeaf(phys, attrs, level));
  }

  lemma LeafOutput(g: Granule, level: nat, w: nat, phys: nat, low: nat)
    requires level <= 3 && OffsetIn(g, level, phys) == 0
    requires w % PHYS_LIMIT == phys + low && low < 0x1000
    ensures OutputField(g, level, w) == phys
  {
    OffsetAdd(g, level, phys, low);
  }

  lemma TypeBits(w: nat)
    ensures w % 2 == w % 4 % 2 && w / 2 % 2 == w % 4 / 2
  {}

  lemma SizeIsPages(g: Granule, level: nat, a: nat)
    requires level <= 3 && OffsetIn(g, level, a) == 0
    ensures a % 0x1000 == 0 && BlockSize(g, level) % 0x1000 == 0
  {
    SlotAndOffset(g, level, a);
    var k := BlockSize(g, level) / 0x1000;
    var q := SlotOf(g, level, a);
    assert a == q * (k * 0x1000);
    MulAssoc(q, k, 0x1000);
    DivModUnique(a, 0x1000, q * k, 0);
  }

  lemma MulAssoc(x: nat, y: nat, z: nat)
    ensures x * (y * z) == (x * y) * z
  {}

  lemma LeafFields(phys: nat, attrs: nat, t: nat)
    requires phys % 0x1000 == 0 && phys < PHYS_LIMIT && t < 4
    requires attrs % 0x1000 % 4 == 0 && attrs / 0x1000 % 0x10_0000_0000 == 0
    ensures var w := phys + attrs + t;
            w % PHYS_LIMIT == phys + (attrs % 0x1000 + t) && w / PHYS_LIMIT == attrs / PHYS_LIMIT
            && w % 4 == t && w % 0x1000 == attrs % 0x1000 + t
            && AttrField(w) == AttrField(attrs)
            && attrs % 0x1000 + t < 0x1000
            && (attrs < WORD_LIMIT ==> w < WORD_LIMIT)
  {
    AttrsSplit(attrs);
    FieldSums(phys / 0x1000, attrs % 0x1000, attrs / PHYS_LIMIT, t);
  }

  lemma FieldSums(p: nat, l: nat, h: nat, t: nat)
    requires p < 0x10_0000_0000 && l < 0x1000 && l % 4 == 0 && t < 4
    ensures var w := p * 0x1000 + (l + PHYS_LIMIT * h) + t;
            && w % PHYS_LIMIT == p * 0x1000 + (l + t) && w / PHYS_LIMIT == h
            && w % 4 == t && w % 0x1000 == l + t && (l + t) / 4 * 4 == l
            && l + t < 0x1000
            && (l + PHYS_LIMIT * h < WORD_LIMIT ==> w < WORD_LIMIT)
  {
    var w := p * 0x1000 + (l + PHYS_LIMIT * h) + t;
    assert l == l / 4 * 4;
    assert p * 0x1000 + l + t < PHYS_LIMIT;
    DivModUnique(w, PHYS_LIMIT, h, p * 0x1000 + l + t);
    DivModUnique(w, 0x1000, p + h * 0x10_0000_0000, l + t);
    DivModUnique(w, 4, p * 0x400 + h * 0x4000_0000_0000 + l / 4, t);
    DivModUnique(l + t, 4, l / 4, t);
  }

  lemma OffsetAdd(g: Granule, level: nat, a: nat, d: nat)
    requires level <= 3 && OffsetIn(g, level, a) == 0 && d < BlockSize(g, level)
    ensures OffsetIn(g, level, a + d) == d && SlotOf(g, level, a + d) == SlotOf(g, level, a)
  {
    SlotAndOffset(g, level, a);
    SlotAndOffset(g, level, a + d);
    QuotientUnique(BlockSize(g, level), SlotOf(g, level, a), d, SlotOf(g, level, a + d), OffsetIn(g, level, a + d));
  }

  lemma QuotientUnique(s: nat, q: nat, r: nat, q': nat, r': nat)
    requires r < s && r' < s && q * s + r == q' * s + r'
    ensures q == q' && r == r'
  {
    DivModUnique(q * s + r, s, q, r);
    DivModUnique(q * s + r, s, q', r');
  }
}
