/**
  The regions that src/bsp/mmu.c maps: what a list of them means, and how many
  tables mapping one of them can take.
  */
module Regions {
  import opened Bits
  import opened MmuFormat
  import opened PageTables

  datatype Region = Region(virt: nat, phys: nat, size: nat, maxLevel: nat, attrs: nat)

  /** `size` rounded up to whole blocks of `level`. */
  function RoundUp(g: Granule, level: nat, size: nat): nat
    requires level <= 3
  {
    var o := OffsetIn(g, level, size);
    if o == 0 then size
    else
      SlotAndOffset(g, level, size);
      size - o + BlockSize(g, level)
  }

  /** One past the last address the root table covers. */
  function Reach(g: Granule, start: nat): (r: nat)
    requires start <= 3
    ensures r > 0
  {
    if start > 0 then BlockSize(g, start - 1)
    else if g == G4K then 0x1_0000_0000_0000 else 0x100_0000_0000_0000_0000
  }

  /** What the builder demands of a region that is not refused with -2. */
  predicate RegionOk(c: Cfg, r: Region)
    requires c.start <= 3
  {
    && r.maxLevel <= 3
    && (c.start < r.maxLevel ==>
          && OffsetIn(c.g, r.maxLevel, r.virt) == 0
          && OffsetIn(c.g, r.maxLevel, r.phys) == 0
          && r.virt + r.size <= Reach(c.g, c.start)
          && r.phys + RoundUp(c.g, r.maxLevel, r.size) <= PHYS_LIMIT
          && And(r.attrs, ADDR_AND_TYPE_BITS) == 0
          && r.attrs < WORD_LIMIT)
  }

  /** The same demands before the start level is known. */
  predicate RegionShape(g: Granule, r: Region) {
    && r.maxLevel <= 3
    && OffsetIn(g, r.maxLevel, r.virt) == 0
    && OffsetIn(g, r.maxLevel, r.phys) == 0
    && r.virt + r.size <= PHYS_LIMIT
    && r.phys + RoundUp(g, r.maxLevel, r.size) <= PHYS_LIMIT
    && And(r.attrs, ADDR_AND_TYPE_BITS) == 0
    && r.attrs < WORD_LIMIT
  }

  /** `va` lies in the region after its size has been rounded up to whole blocks. */
  predicate Covers(c: Cfg, r: Region, va: nat) {
    r.maxLevel <= 3 && r.virt <= va < r.virt + RoundUp(c.g, r.maxLevel, r.size)
  }

  function RegionXlat(r: Region, va: nat): Xlat
    requires r.virt <= va
  {
    Mapped(r.phys + (va - r.virt), r.attrs, r.maxLevel)
  }

  /** The meaning of a list of regions: the last one that covers an address decides. */
  function MapOf(c: Cfg, regions: seq<Region>, va: nat): Xlat {
    if regions == [] then Fault
    else
      var r := regions[|regions| - 1];
      if Covers(c, r, va) then RegionXlat(r, va) else MapOf(c, regions[..|regions| - 1], va)
  }

  /** No two regions share an address after rounding to blocks. */
  ghost predicate Disjoint(c: Cfg, regions: seq<Region>) {
    forall i, j, va {:trigger Covers(c, regions[i], va), Covers(c, regions[j], va)} ::
      0 <= i < j < |regions| ==> !(Covers(c, regions[i], va) && Covers(c, regions[j], va))
  }

  /** For disjoint regions the order does not matter: the map is their union. */
  lemma {:induction false} DisjointUnion(c: Cfg, regions: seq<Region>, va: nat)
    requires Disjoint(c, regions)
    ensures forall r :: r in regions && Covers(c, r, va) ==> MapOf(c, regions, va) == RegionXlat(r, va)
    ensures (forall r :: r in regions ==> !Covers(c, r, va)) ==> MapOf(c, regions, va) == Fault
  {
    if regions != [] {
      var n := |regions| - 1;
      DisjointUnion(c, regions[..n], va);
      forall r | r in regions && Covers(c, r, va)
        ensures MapOf(c, regions, va) == RegionXlat(r, va)
      {
        var i :| 0 <= i <= n && regions[i] == r;
        if i < n {
          assert !Covers(c, regions[n], va);
          assert regions[..n][i] == r;
        }
      }
    }
  }

  // ----- arithmetic of blocks -----

  lemma RoundUpBounds(g: Granule, level: nat, size: nat)
    requires level <= 3
    ensures size <= RoundUp(g, level, size) < size + BlockSize(g, level)
    ensures OffsetIn(g, level, RoundUp(g, level, size)) == 0
  {
    SlotAndOffset(g, level, size);
    if OffsetIn(g, level, size) != 0 {
      var a := size - OffsetIn(g, level, size);
      AlignedMultiple(g, level, SlotOf(g, level, size));
      NextBlock(g, level, a);
    }
  }

  lemma AlignedMultiple(g: Granule, level: nat, q: nat)
    requires level <= 3
    ensures OffsetIn(g, level, q * BlockSize(g, level)) == 0
    ensures SlotOf(g, level, q * BlockSize(g, level)) == q
  {
    hide OffsetIn, SlotOf, BlockSize;
    var a := q * BlockSize(g, level);
    SlotAndOffset(g, level, a);
    QuotientUnique(BlockSize(g, level), q, 0, SlotOf(g, level, a), OffsetIn(g, level, a));
  }

  lemma NextBlock(g: Granule, level: nat, a: nat)
    requires level <= 3 && OffsetIn(g, level, a) == 0
    ensures OffsetIn(g, level, a + BlockSize(g, level)) == 0
    ensures SlotOf(g, level, a + BlockSize(g, level)) == SlotOf(g, level, a) + 1
  {
    hide OffsetIn, SlotOf, BlockSize;
    SlotAndOffset(g, level, a);
    var s := BlockSize(g, level);
    var q := SlotOf(g, level, a);
    assert a + s == (q + 1) * s;
    AlignedMultiple(g, level, q + 1);
  }

  /** Two aligned addresses are equal or at least a block apart. */
  lemma AlignedGap(g: Granule, level: nat, a: nat, b: nat)
    requires level <= 3 && OffsetIn(g, level, a) == 0 && OffsetIn(g, level, b) == 0 && a < b
    ensures a + BlockSize(g, level) <= b
  {
    hide OffsetIn, SlotOf, BlockSize;
    var s := BlockSize(g, level);
    SlotAndOffset(g, level, a);
    SlotAndOffset(g, level, b);
    var p, q := SlotOf(g, level, a), SlotOf(g, level, b);
    if q <= p { MulLe(q, p, s); }
    MulLe(p + 1, q, s);
  }

  /** The addresses of a slot are the block that starts at its aligned address. */
  lemma SlotIsBlock(g: Granule, level: nat, start: nat, va: nat)
    requires level <= 3 && OffsetIn(g, level, start) == 0
    ensures SlotOf(g, level, va) == SlotOf(g, level, start) <==> start <= va < start + BlockSize(g, level)
    ensures start <= va < start + BlockSize(g, level) ==> OffsetIn(g, level, va) == va - start
  {
    hide OffsetIn, SlotOf, BlockSize;
    SlotAndOffset(g, level, start);
    SlotAndOffset(g, level, va);
    if start <= va < start + BlockSize(g, level) {
      OffsetAdd(g, level, start, va - start);
    }
  }

  lemma ReachIsRoot(c: Cfg, va: nat)
    requires CfgOk(c)
    ensures InReach(c, va) <==> va < Reach(c.g, c.start)
  {}

  lemma ReachAligned(c: Cfg, level: nat)
    requires CfgOk(c) && c.start < level <= 3
    ensures OffsetIn(c.g, level, Reach(c.g, c.start)) == 0
  {
    var q := if c.start > 0 then SlotOf(c.g, level, BlockSize(c.g, c.start - 1))
             else SlotOf(c.g, level, 0x1_0000_0000_0000);
    assert Reach(c.g, c.start) == q * BlockSize(c.g, level);
    AlignedMultiple(c.g, level, q);
  }

  /** A region that ends within reach is within reach after rounding. */
  lemma RegionInReach(c: Cfg, r: Region)
    requires CfgOk(c) && RegionOk(c, r) && c.start < r.maxLevel
    ensures r.virt + RoundUp(c.g, r.maxLevel, r.size) <= Reach(c.g, c.start)
  {
    var L := r.maxLevel;
    var e, top := r.virt + RoundUp(c.g, L, r.size), Reach(c.g, c.start);
    RoundUpBounds(c.g, L, r.size);
    ReachAligned(c, L);
    AlignedSum(c.g, L, r.virt, RoundUp(c.g, L, r.size));
    if top < e { AlignedGap(c.g, L, top, e); }
  }

  lemma AlignedSum(g: Granule, level: nat, a: nat, b: nat)
    requires level <= 3 && OffsetIn(g, level, a) == 0 && OffsetIn(g, level, b) == 0
    ensures OffsetIn(g, level, a + b) == 0
  {
    hide OffsetIn, SlotOf, BlockSize;
    var s := BlockSize(g, level);
    var p, q := SlotOf(g, level, a), SlotOf(g, level, b);
    SlotAndOffset(g, level, a);
    SlotAndOffset(g, level, b);
    assert a + b == (p + q) * s;
    AlignedMultiple(g, level, p + q);
  }

  lemma SlotMonotone(g: Granule, level: nat, a: nat, b: nat)
    requires level <= 3 && a <= b
    ensures SlotOf(g, level, a) <= SlotOf(g, level, b)
  {}

  // ----- table budget -----

  /** How many slots of `level` the addresses from `first` to `last` touch. */
  function Touched(g: Granule, level: nat, first: nat, last: nat): nat
    requires level <= 3 && first <= last
  {
    SlotMonotone(g, level, first, last);
    SlotOf(g, level, last) - SlotOf(g, level, first) + 1
  }

  /** The slots touched at the levels from `level` up to, not including, `maxLevel`. */
  function TouchedAbove(g: Granule, level: nat, maxLevel: nat, first: nat, last: nat): nat
    requires level <= maxLevel <= 3 && first <= last
    decreases maxLevel - level
  {
    if level == maxLevel then 0
    else Touched(g, level, first, last) + TouchedAbove(g, level + 1, maxLevel, first, last)
  }

  /** The most tables that mapping `r` can create. */
  function Budget(c: Cfg, r: Region): nat {
    if r.size == 0 || !(c.start <= r.maxLevel <= 3) then 0
    else
      RoundUpBounds(c.g, r.maxLevel, r.size);
      TouchedAbove(c.g, c.start, r.maxLevel, r.virt, r.virt + RoundUp(c.g, r.maxLevel, r.size) - 1)
  }

  /** Tables accounted for when levels below `done` have been visited for the block at `v`
      and the others only for the block before it. */
  function Spent(g: Granule, level: nat, done: nat, maxLevel: nat, first: nat, v: nat): nat
    requires level <= maxLevel <= 3 && first <= v
    requires v > first ==> first + BlockSize(g, maxLevel) <= v
    decreases maxLevel - level
  {
    if level == maxLevel then 0
    else
      (if level < done then Touched(g, level, first, v)
       else if v == first then 0
       else Touched(g, level, first, v - BlockSize(g, maxLevel)))
      + Spent(g, level + 1, done, maxLevel, first, v)
  }

  /** Visiting one more level never lowers the account, and raises it when the slot is new. */
  lemma {:induction false} SpentVisit(g: Granule, level: nat, done: nat, maxLevel: nat, first: nat, v: nat)
    requires level <= done < maxLevel <= 3 && first <= v
    requires v > first ==> first + BlockSize(g, maxLevel) <= v
    ensures Spent(g, level, done + 1, maxLevel, first, v) >= Spent(g, level, done, maxLevel, first, v)
    ensures v == first || SlotOf(g, done, v) != SlotOf(g, done, v - BlockSize(g, maxLevel)) ==>
              Spent(g, level, done + 1, maxLevel, first, v) >= Spent(g, level, done, maxLevel, first, v) + 1
    decreases maxLevel - level
  {
    hide SlotOf, BlockSize;
    if v > first { SlotMonotone(g, done, v - BlockSize(g, maxLevel), v); }
    if level < done {
      SpentVisit(g, level + 1, done, maxLevel, first, v);
    } else {
      SpentSame(g, level + 1, done, done + 1, maxLevel, first, v);
    }
  }

  lemma {:induction false} SpentSame(g: Granule, level: nat, d: nat, d': nat, maxLevel: nat, first: nat, v: nat)
    requires level <= maxLevel <= 3 && first <= v
    requires v > first ==> first + BlockSize(g, maxLevel) <= v
    requires d <= level && d' <= level
    ensures Spent(g, level, d, maxLevel, first, v) == Spent(g, level, d', maxLevel, first, v)
    decreases maxLevel - level
  {
    hide SlotOf, BlockSize;
    if level < maxLevel { SpentSame(g, level + 1, d, d', maxLevel, first, v); }
  }

  /** A block with every level visited is the start of the next block. */
  lemma {:induction false} SpentNext(g: Granule, level: nat, start: nat, maxLevel: nat, first: nat, v: nat)
    requires start <= level <= maxLevel <= 3 && first <= v
    requires v > first ==> first + BlockSize(g, maxLevel) <= v
    ensures Spent(g, level, maxLevel, maxLevel, first, v)
            == Spent(g, level, start, maxLevel, first, v + BlockSize(g, maxLevel))
    decreases maxLevel - level
  {
    hide SlotOf, BlockSize;
    if level < maxLevel { SpentNext(g, level + 1, start, maxLevel, first, v); }
  }

  /** The account never exceeds the slots touched up to the last address of the block. */
  lemma {:induction false} SpentWithin(g: Granule, level: nat, done: nat, maxLevel: nat, first: nat, v: nat, last: nat)
    requires level <= maxLevel <= 3 && first <= v <= last
    requires v > first ==> first + BlockSize(g, maxLevel) <= v
    ensures Spent(g, level, done, maxLevel, first, v) <= TouchedAbove(g, level, maxLevel, first, last)
    decreases maxLevel - level
  {
    hide SlotOf, BlockSize;
    if level < maxLevel {
      SlotMonotone(g, level, v, last);
      if v > first { SlotMonotone(g, level, v - BlockSize(g, maxLevel), last); }
      SpentWithin(g, level + 1, done, maxLevel, first, v, last);
    }
  }

  lemma {:induction false} SpentNothing(g: Granule, level: nat, start: nat, maxLevel: nat, first: nat)
    requires start <= level <= maxLevel <= 3
    ensures Spent(g, level, start, maxLevel, first, first) == 0
    decreases maxLevel - level
  {
    hide SlotOf, BlockSize;
    if level < maxLevel { SpentNothing(g, level + 1, start, maxLevel, first); }
  }

  /** The tables that a list of regions can take, on top of the root. */
  function TotalBudget(c: Cfg, regions: seq<Region>): nat {
    if regions == [] then 0
    else TotalBudget(c, regions[..|regions| - 1]) + Budget(c, regions[|regions| - 1])
  }

  lemma {:induction false} TotalBudgetPrefix(c: Cfg, regions: seq<Region>, i: nat)
    requires i <= |regions|
    ensures TotalBudget(c, regions[..i]) <= TotalBudget(c, regions)
    decreases |regions| - i
  {
    if i < |regions| {
      TotalBudgetPrefix(c, regions, i + 1);
      assert regions[..i + 1][..i] == regions[..i];
    } else {
      assert regions[..i] == regions;
    }
  }

  // ----- the width of virtual addresses -----

  const VA_WIDTHS: set<nat> := {32, 36, 40, 42, 44, 48}

  /** The end of the highest region. */
  function MaxAddr(regions: seq<Region>): nat {
    if regions == [] then 0
    else
      var r := regions[|regions| - 1];
      var m := MaxAddr(regions[..|regions| - 1]);
      if m > r.virt + r.size then m else r.virt + r.size
  }

  lemma {:induction false} MaxAddrBounds(regions: seq<Region>)
    ensures forall r :: r in regions ==> r.virt + r.size <= MaxAddr(regions)
    ensures regions != [] ==> exists r :: r in regions && r.virt + r.size == MaxAddr(regions)
  {
    if regions != [] {
      var n := |regions| - 1;
      MaxAddrBounds(regions[..n]);
      assert forall r :: r in regions ==> r in regions[..n] || r == regions[n];
      assert regions[n] in regions;
      assert forall r :: r in regions[..n] ==> r in regions;
    }
  }

  function VaBits(maxAddr: nat): nat {
    if maxAddr > 0x1000_0000_0000 then 48
    else if maxAddr > 0x400_0000_0000 then 44
    else if maxAddr > 0x100_0000_0000 then 42
    else if maxAddr > 0x10_0000_0000 then 40
    else if maxAddr > 0x1_0000_0000 then 36
    else 32
  }

  /** The chosen width is the least of the possible ones that holds every region. */
  lemma VaBitsIsLeast(maxAddr: nat)
    ensures VaBits(maxAddr) in VA_WIDTHS
    ensures maxAddr <= PHYS_LIMIT ==> maxAddr <= Pow2(VaBits(maxAddr))
    ensures forall b :: b in VA_WIDTHS && b < VaBits(maxAddr) ==> Pow2(b) < maxAddr
  {
    hide Pow2;
    Pow2Values();
    forall b | b in VA_WIDTHS && b < VaBits(maxAddr) ensures Pow2(b) < maxAddr {
      assert b in {32, 36, 40, 42, 44, 48};
    }
  }

  function StartLevel(g: Granule, vaBits: nat): nat {
    if g == G4K then
      if vaBits < 39 then 1 else 0
    else
      if vaBits <= 36 then 2 else 1
  }

  /** The chosen start level covers all addresses of that width. It is the level at which the
      hardware starts, where a table one level down would not do, except for a 64K granule and
      40 or 42 bits; there the code chooses level 1, and then refuses the granule. */
  lemma StartLevelIsExact(g: Granule, vaBits: nat)
    requires vaBits in VA_WIDTHS
    ensures Pow2(vaBits) <= Reach(g, StartLevel(g, vaBits))
    ensures Reach(g, StartLevel(g, vaBits) + 1) < Pow2(vaBits) <==> !(g == G64K && 36 < vaBits <= 42)
  {
    Pow2Values();
  }

  /** A well-shaped region is acceptable to the builder with the computed start level. */
  lemma ShapeIsOk(g: Granule, base: nat, regions: seq<Region>, r: Region)
    requires r in regions && RegionShape(g, r) && MaxAddr(regions) <= PHYS_LIMIT
    ensures StartLevel(g, VaBits(MaxAddr(regions))) < 3
    ensures RegionOk(Cfg(g, base, StartLevel(g, VaBits(MaxAddr(regions)))), r)
  {
    hide OffsetIn, And, RoundUp, VaBits;
    MaxAddrBounds(regions);
    VaBitsIsLeast(MaxAddr(regions));
    StartLevelIsExact(g, VaBits(MaxAddr(regions)));
  }
}
