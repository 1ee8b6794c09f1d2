/**
  The memory map that src/bsp/mmu.c ships, and what the tables built for it mean.
  */
module MmuSetup {
  import opened Bits
  import opened MmuFormat
  import opened PageTables
  import opened Regions
  import opened Mmu
  import opened Wrap

  const GIB: nat := 0x4000_0000

  const MEMORY_ATTRIBUTES: nat := 0xFF_440C_0400

  // Device-nGnRnE, and normal cacheable inner-shareable memory; both with the access flag set.
  const DEVICE_RWX: nat := 0x400
  const CACHED_RWX: nat := 0x710

  const MEM_MAP: seq<Region> := [
    Region(0, 0, GIB, 2, DEVICE_RWX),
    Region(GIB, GIB, GIB, 2, CACHED_RWX)
  ]

  lemma AttrsAreLow(attrs: nat)
    requires attrs < 0x1000 && attrs % 4 == 0
    ensures And(attrs, ADDR_AND_TYPE_BITS) == 0
  {
    Pow2Values();
    ShlZero(12);
    ShlIsMul(0xF_FFFF_FFFF, 12);
    AndSplit(12, attrs, 0, 3, 0xF_FFFF_FFFF);
    AndZero(0xF_FFFF_FFFF);
    TypeIsLowBits(attrs);
  }

  lemma MapShape()
    ensures forall r :: r in MEM_MAP ==> RegionShape(G4K, r)
    ensures MaxAddr(MEM_MAP) == 2 * GIB && VaBits(MaxAddr(MEM_MAP)) == 32
  {
    AttrsAreLow(DEVICE_RWX);
    AttrsAreLow(CACHED_RWX);
    assert MEM_MAP[..1] == [MEM_MAP[0]];
    assert MEM_MAP[..1][..0] == [];
    assert MaxAddr(MEM_MAP[..1]) == GIB;
  }

  /** The map measures itself: start level 1, where both regions lie within reach. */
  lemma MapFits(base: nat)
    ensures StartLevel(G4K, VaBits(MaxAddr(MEM_MAP))) == 1
    ensures FoldedAll(Cfg(G4K, base, 1), MEM_MAP) == MEM_MAP
    ensures forall r :: r in MEM_MAP ==> RegionOk(Cfg(G4K, base, 1), Folded(Cfg(G4K, base, 1), r))
  {
    var c := Cfg(G4K, base, 1);
    MapShape();
    FoldedInReach(c, MEM_MAP);
    forall r | r in MEM_MAP ensures RegionOk(c, Folded(c, r)) {
      ShapeIsOk(G4K, base, MEM_MAP, r);
      assert Folded(c, r) == FoldedAll(c, MEM_MAP)[if r == MEM_MAP[0] then 0 else 1];
    }
  }

  /** The two regions need one level-2 table each, below the root. */
  lemma MapIsBuildable(base: nat, len: nat)
    requires 3 * 4096 <= len
    ensures Buildable(Cfg(G4K, base, 1), MEM_MAP, len)
  {
    var c := Cfg(G4K, base, 1);
    RegionBudget(c, MEM_MAP[0]);
    RegionBudget(c, MEM_MAP[1]);
    assert MEM_MAP[..1] == [MEM_MAP[0]];
    assert MEM_MAP[..1][..0] == [];
    assert TotalBudget(c, MEM_MAP[..1]) == 1;
  }

  lemma RegionBudget(c: Cfg, r: Region)
    requires c.g == G4K && c.start == 1 && r in MEM_MAP
    ensures Budget(c, r) == 1 && RoundUp(c.g, r.maxLevel, r.size) == GIB
  {
    assert TouchedAbove(G4K, 2, 2, r.virt, r.virt + GIB - 1) == 0;
  }

  /** The shipped map is the identity on its two gigabytes and nothing above. */
  lemma MapIsIdentity(base: nat, va: nat)
    ensures MapOf(Cfg(G4K, base, 1), MEM_MAP, va) ==
            if va < GIB then Mapped(va, DEVICE_RWX, 2)
            else if va < 2 * GIB then Mapped(va, CACHED_RWX, 2)
            else Fault
    ensures ShippedMeaning(va, MapOf(Cfg(G4K, base, 1), MEM_MAP, va))
  {
    IdentityIsShipped(va);
    hide ShippedMeaning;
    var c := Cfg(G4K, base, 1);
    RegionBudget(c, MEM_MAP[0]);
    RegionBudget(c, MEM_MAP[1]);
    assert MEM_MAP[..1] == [MEM_MAP[0]];
    assert MEM_MAP[..1][..0] == [];
    assert MapOf(c, MEM_MAP[..1], va) == if va < GIB then Mapped(va, DEVICE_RWX, 2) else Fault;
  }

  /** The first gigabyte is device memory without gathering, reordering or early acknowledgement; the second is
      normal memory, write-back cacheable and inner shareable. Both have the access flag, are readable and writable
      at the kernel's level, and nothing is execute-never. */
  ghost predicate ShippedMeaning(va: nat, x: Xlat) {
    if va >= 0x8000_0000 then x == Fault
    else
      && x.Mapped? && x.pa == va && x.level == 2
      && var a := AttributesOf(x.attrs);
         && a == Attributes(if va < 0x4000_0000 then 0 else 4, 0, 0, if va < 0x4000_0000 then 0 else 3, 1, 0, 0, 0)
         && MemoryType(MEMORY_ATTRIBUTES, a.index) == if va < 0x4000_0000 then 0x00 else 0xFF
  }

  lemma IdentityIsShipped(va: nat)
    ensures ShippedMeaning(va, if va < GIB then Mapped(va, DEVICE_RWX, 2)
                               else if va < 2 * GIB then Mapped(va, CACHED_RWX, 2) else Fault)
  {
    assert AttributesOf(DEVICE_RWX) == Attributes(0, 0, 0, 0, 1, 0, 0, 0);
    assert AttributesOf(CACHED_RWX) == Attributes(4, 0, 0, 3, 1, 0, 0, 0);
  }

  /** Sets up the shipped map in the page-table pool, which the linker script makes 0x8000 bytes long. */
  method MmuSetup(ctrl: Ctrl, pageAddr: nat) returns (ret: int)
    requires pageAddr > 0 && OffsetIn(G4K, 3, pageAddr) == 0
    requires ctrl.mem.Length == 0x1000 && pageAddr + 0x8000 <= PHYS_LIMIT
    modifies ctrl, ctrl.mem
    ensures ret == 0
    ensures ctrl.Valid() && ctrl.Config() == Cfg(G4K, pageAddr, 1)
    ensures forall va: nat :: va < 0x1_0000_0000 ==>
              Translate(ctrl.Config(), ctrl.mem[..], va) ==
              if va < GIB then Mapped(va, DEVICE_RWX, 2)
              else if va < 2 * GIB then Mapped(va, CACHED_RWX, 2)
              else Fault
    ensures forall va: nat :: va < 0x1_0000_0000 ==>
              ShippedMeaning(va, Translate(ctrl.Config(), ctrl.mem[..], va))
  {
    ghost var c := Cfg(G4K, pageAddr, 1);
    MapFits(pageAddr);
    hide MEM_MAP, MaxAddr, OffsetIn, VaBits, RegionOk, Folded, Buildable, Inv, MapOf, Walk, ShippedMeaning;
    MapIsBuildable(pageAddr, 0x8000);
    ghost var n, done;
    ret, n, done := ctrl.SetupPgtables(MEM_MAP, MEM_MAP, pageAddr, 0x8000, G4K);
    forall va: nat | va < 0x1_0000_0000
      ensures Translate(ctrl.Config(), ctrl.mem[..], va) ==
              if va < GIB then Mapped(va, DEVICE_RWX, 2)
              else if va < 2 * GIB then Mapped(va, CACHED_RWX, 2)
              else Fault
      ensures ShippedMeaning(va, Translate(ctrl.Config(), ctrl.mem[..], va))
    {
      ReachIsRoot(ctrl.Config(), va);
      MapIsIdentity(pageAddr, va);
      IdentityIsShipped(va);
    }
  }

  /** The first half of `mmu_init`: from the reserved words to tables that the hardware can be given. */
  method MmuInit(pageAddr: nat) returns (ctrl: Ctrl, ret: int)
    requires pageAddr > 0 && OffsetIn(G4K, 3, pageAddr) == 0 && pageAddr + 0x8000 <= PHYS_LIMIT
    ensures fresh(ctrl) && fresh(ctrl.mem)
    ensures ret == 0 && ctrl.Valid() && ctrl.Config() == Cfg(G4K, pageAddr, 1)
    ensures forall va: nat :: va < 0x1_0000_0000 ==>
              ShippedMeaning(va, Translate(ctrl.Config(), ctrl.mem[..], va))
  {
    hide OffsetIn, Inv, Walk, MEM_MAP, ShippedMeaning;
    var pool := new nat[0x1000];
    ctrl := new Ctrl(pool);
    ret := MmuSetup(ctrl, pageAddr);
  }
}
