/**
  The page-table builder of src/bsp/mmu.c, in its own form: table words written
  in place in a pool that is handed out from a fill pointer.
  */
module Mmu {
  import opened Options
  import opened Bits
  import opened MmuFormat
  import opened TcrFormat
  import opened PageTables
  import opened Regions
  import opened MapSteps
  import opened Wrap

  /** `g_mmu_ctrl` together with the pool memory it manages. */
  class Ctrl {
    const mem: array<nat>  // the pool, as 64-bit words
    var tlbAddr: nat
    var tlbSize: nat
    var tlbFillptr: nat
    var granule: Granule
    var startLevel: nat
    var vaBits: nat
    ghost var tree: Tree

    /** The zeroed control block, for the pool that the linker script reserves. */
    constructor (pool: array<nat>)
      ensures mem == pool && granule == G4K
      ensures tlbAddr == tlbSize == tlbFillptr == startLevel == vaBits == 0
    {
      mem := pool;
      tlbAddr, tlbSize, tlbFillptr, startLevel, vaBits := 0, 0, 0, 0, 0;
      granule := G4K;
      tree := Tree([], [], []);
    }

    ghost function Config(): Cfg
      reads this
    {
      Cfg(granule, tlbAddr, startLevel)
    }

    /** The pool lies below 2^48, at a granule-aligned address. */
    ghost predicate PoolOk()
      reads this
    {
      && CfgOk(Config())
      && 8 * mem.Length <= tlbSize < 8 * mem.Length + 8
      && tlbAddr + 8 * mem.Length <= PHYS_LIMIT
    }

    ghost predicate Exhausted()
      reads this
    {
      tlbFillptr - tlbAddr > tlbSize
    }

    ghost predicate Valid()
      reads this, mem
    {
      && PoolOk()
      && Inv(Config(), mem[..], tree)
      && tlbAddr <= tlbFillptr && (tlbFillptr - tlbAddr) % 8 == 0
      && (tlbFillptr == TableAddr(Config(), |tree.lev|) || Exhausted())
    }

    /** Follows the tables for `addr` down to its entry of `level`; `None` is NULL. An address past what the root
        table covers is followed as its remainder. */
    method FindPte(addr: nat, level: nat) returns (pte: Option<nat>)
      requires Valid()
      ensures level < startLevel || level > 3 ==> pte == None
      ensures startLevel <= level <= 3 ==>
                && PathTo(Config(), mem[..], level, addr) == PathTo(Config(), mem[..], level, Wrapped(Config(), addr))
                && match PathTo(Config(), mem[..], level, addr)
                   case None => pte == None
                   case Some(j) => pte == Some(TableAddr(Config(), j) + 8 * IndexAt(granule, level, addr))
    {
      hide IndexAt, And, Shr, TableAddr, PathTo, InReach, TableMask, Inv, Level2Shift, PteType, Wrapped;
      if level < startLevel {
        return None;
      }
      ghost var c, words := Config(), mem[..];
      if startLevel <= level <= 3 { PathWraps(c, words, level, addr); }
      var p := tlbAddr;
      var i := startLevel;
      RootPath(c, words, addr);
      while i < 4
        invariant startLevel <= i <= level && c.start <= 3
        invariant i <= 3 ==>
                    PathTo(c, words, i, addr).Some? && p == TableAddr(c, PathTo(c, words, i, addr).value)
        decreases 4 - i
      {
        var idx := And(Shr(addr, Level2Shift(granule, i)), if granule == G4K then 0x1FF else 0x1FFF);
        IndexIsMask(granule, i, addr);
        FindStep(c, words, tree, i, addr);
        p := p + 8 * idx;
        if i == level {
          return Some(p);
        }
        var w := mem[(p - tlbAddr) / 8];
        if PteType(w) != PTE_TYPE_TABLE {
          if level <= 3 { PathStops(c, words, i + 1, level, addr); }
          return None;
        }
        p := And(w, TableMask(granule));
        i := i + 1;
      }
      return None;
    }

    /** Takes the next table from the pool and zeroes it; the fill pointer moves even when there is no room. */
    method CreateTable() returns (table: Option<nat>)
      requires PoolOk()
      requires tlbAddr <= tlbFillptr && (tlbFillptr - tlbAddr) % 8 == 0
      modifies this`tlbFillptr, mem
      ensures tlbFillptr == old(tlbFillptr) + TableBytes(granule)
      ensures Exhausted() ==> table == None && mem[..] == old(mem[..])
      ensures !Exhausted() ==>
                var first := (old(tlbFillptr) - tlbAddr) / 8;
                && table == Some(old(tlbFillptr))
                && first + Entries(granule) <= mem.Length
                && forall x :: 0 <= x < mem.Length ==>
                     mem[x] == if first <= x < first + Entries(granule) then 0 else old(mem[x])
    {
      var newTable := tlbFillptr;
      var ptLen := if granule == G4K then 512 * 8 else 8192 * 8;
      tlbFillptr := tlbFillptr + ptLen;
      if tlbFillptr - tlbAddr > tlbSize {
        return None;
      }
      ghost var first := (newTable - tlbAddr) / 8;
      var i := 0;
      var tmp := newTable;
      while i < ptLen
        modifies mem
        invariant 0 <= i <= ptLen && i % 8 == 0 && tmp == newTable + i
        invariant forall x :: 0 <= x < mem.Length ==>
                    mem[x] == if first <= x < first + i / 8 then 0 else old(mem[x])
      {
        mem[(tmp - tlbAddr) / 8] := 0;
        tmp := tmp + 8;
        i := i + 8;
      }
      return Some(newTable);
    }

    /** Points an invalid entry, word `x`, at a new table. */
    method HangTable(x: nat, ghost i: nat, ghost k: nat, ghost virt: nat) returns (ret: int)
      requires Valid() && OnPath(Config(), mem[..], tree, i, k, virt)
      requires tree.lev[i] < 3 && x == WordIndex(granule, i, k) < mem.Length
      requires Decode(granule, tree.lev[i], mem[x]).Invalid?
      modifies this`tlbFillptr, this`tree, mem
      ensures ret == 0 || ret == -1
      ensures PoolOk() && tlbAddr <= tlbFillptr && (tlbFillptr - tlbAddr) % 8 == 0
      ensures tlbFillptr == old(tlbFillptr) + TableBytes(granule)
      ensures ret == 0 ==>
                && Visited(Config(), old(mem[..]), mem[..], old(tree), tree, i, k)
                && (tlbFillptr == TableAddr(Config(), |tree.lev|) || Exhausted())
                && |tree.lev| == |old(tree.lev)| + 1
      ensures ret == -1 ==> Valid() && Exhausted() && mem[..] == old(mem[..]) && tree == old(tree)
    {
      hide Inv, SlotOf, OffsetIn, And, Or, OnPath, Walk, Decode, Linked, PteTable, PteLeaf, Grow;
      ghost var c, words0, n := Config(), mem[..], |tree.lev|;
      EntryFacts(c, words0, tree, i, k, virt);
      PoolOffsets(c, n);
      var newTable := CreateTable();
      if newTable == None {
        return -1;
      }
      mem[x] := PteTable(newTable.value);
      TableIsLinked(c, words0, mem[..], tree, i, k);
      LinkKeepsInv(c, words0, mem[..], tree, i, k);
      tree := Grow(granule, tree, i, k);
      GrowLength(granule, old(tree), i, k);
      return 0;
    }

    /** Handles the entry of `level` on the path of one block: hangs a table below an invalid
        entry above the leaf level, or writes the leaf. */
    method AddMapPteProcess(region: Region, pte: nat, phys: nat, level: nat,
                            ghost i: nat, ghost k: nat, ghost virt: nat)
      returns (ret: int)
      requires Valid() && OnPath(Config(), mem[..], tree, i, k, virt)
      requires pte == TableAddr(Config(), i) + 8 * k
      requires tree.lev[i] == level <= region.maxLevel <= 3
      modifies this`tlbFillptr, this`tree, mem
      ensures WordIndex(granule, i, k) < mem.Length
      ensures ret == 0 || ret == -1
      ensures PoolOk() && tlbAddr <= tlbFillptr && (tlbFillptr - tlbAddr) % 8 == 0
      ensures level == region.maxLevel ==>
                && ret == 0 && tree == old(tree) && tlbFillptr == old(tlbFillptr)
                && mem[..] == old(mem[..])[WordIndex(granule, i, k) := PteLeaf(phys, region.attrs, level)]
      ensures level < region.maxLevel && ret == 0 ==>
                && Visited(Config(), old(mem[..]), mem[..], old(tree), tree, i, k)
                && (tlbFillptr == TableAddr(Config(), |tree.lev|) || Exhausted())
                && (tlbFillptr == old(tlbFillptr) + if |tree.lev| == |old(tree.lev)| then 0 else TableBytes(granule))
      ensures ret == -1 ==>
                && Valid() && Exhausted()
                && mem[..] == old(mem[..]) && tree == old(tree)
                && tlbFillptr == old(tlbFillptr) + TableBytes(granule)
                && Decode(granule, level, mem[WordIndex(granule, i, k)]).Invalid?
    {
      hide Inv, SlotOf, OffsetIn, And, Or, OnPath, Walk, Decode, Linked, PteTable, PteLeaf, Grow;
      ghost var c, words0 := Config(), mem[..];
      EntryFacts(c, words0, tree, i, k, virt);
      var x := (pte - tlbAddr) / 8;
      if level < region.maxLevel {
        if PteType(mem[x]) == PTE_TYPE_FAULT {
          ret := HangTable(x, i, k, virt);
          return ret;
        }
      } else if level == MMU_LEVEL_3 {
        mem[x] := PteLeaf(phys, region.attrs, level);
      } else {
        mem[x] := PteLeaf(phys, region.attrs, level);
      }
      return 0;
    }

    /** Every table made since there were `n0` is accounted for, and the fill pointer follows them. */
    ghost predicate Accounted(region: Region, n0: nat, done: nat, level: nat)
      requires startLevel < region.maxLevel <= 3
      requires done > 0 ==> BlockSize(granule, region.maxLevel) <= done
      reads this
    {
      && tlbFillptr == TableAddr(Config(), |tree.lev|)
      && WithinSpent(Config(), region, n0, |tree.lev|, done, level)
    }

    ghost predicate WithinBudget(region: Region, n0: nat)
      reads this
    {
      && tlbFillptr == TableAddr(Config(), |tree.lev|)
      && n0 <= |tree.lev| <= n0 + Budget(Config(), region)
    }

    /** The pool holds fewer than `n0` tables plus the budget of `region`. */
    ghost predicate NoRoom(region: Region, n0: nat)
      reads this
    {
      TableAddr(Config(), n0 + Budget(Config(), region)) - tlbAddr > tlbSize
    }

    /** Visits the entries of one block, from the start level down to its leaf. */
    method MapBlock(region: Region, virt: nat, phys: nat, blockSize0: nat,
                    ghost r: Region, ghost words0: seq<nat>, ghost n0: nat, ghost done: nat)
      returns (ret: int, blockSize: nat)
      requires Valid() && Progress(Config(), r, words0, mem[..], tree, done)
      requires r == region.(virt := r.virt) && done < RoundUp(granule, r.maxLevel, r.size)
      requires Wrapped(Config(), virt) == r.virt + done && phys == r.phys + done
      modifies this`tlbFillptr, this`tree, mem
      ensures Valid()
      ensures ret in {0, -1, -3}
      ensures ret == 0 ==>
                && blockSize == BlockSize(granule, region.maxLevel)
                && Progress(Config(), r, words0, mem[..], tree, done + blockSize)
      ensures ret != 0 ==> Progress(Config(), r, words0, mem[..], tree, done)
      ensures ret == -3 ==> Blocked(Config(), words0, region.maxLevel, r.virt + done)
      ensures ret == -1 ==> Exhausted()
      ensures old(Accounted(r, n0, done, startLevel)) ==>
                && (ret == 0 ==> Accounted(r, n0, done + blockSize, startLevel))
                && (ret == -1 ==> NoRoom(r, n0))
                && (ret == -3 ==> WithinBudget(r, n0))
    {
      hide Wrapped, SlotOf, OffsetIn, BlockSize, InReach, RoundUp, PathTo, IndexAt, WordIndex, TableAddr, Decode, Inv,
        PteLeaf, Pow2, Level2Shift, InBlock, Progress, OnPath, Visited, Spent, Budget;
      ghost var c, at := Config(), r.virt + done;
      ProgressMeaning(c, r, words0, mem[..], tree, done, n0);
      blockSize := blockSize0;
      ghost var L, B := region.maxLevel, BlockSize(granule, region.maxLevel);
      ghost var acc := Accounted(r, n0, done, startLevel);
      EnterBlock(c, r, words0, mem[..], tree, done);
      var level := startLevel;
      while level <= region.maxLevel
        invariant startLevel <= level <= L + 1
        invariant Valid() && c == Config()
        invariant level <= L ==> InBlock(c, r, words0, mem[..], tree, done, level)
        invariant level == L + 1 ==> Progress(c, r, words0, mem[..], tree, done + B)
        invariant level > startLevel + 1 ==> blockSize == BlockSize(granule, level - 1)
        invariant acc ==> if level <= L then Accounted(r, n0, done, level)
                          else Accounted(r, n0, done + B, startLevel)
      {
        InBlockFacts(c, r, words0, mem[..], tree, done, level, n0);
        var pte := FindPte(virt, level);
        SlotWraps(c, level, virt);
        if pte == None {
          StopIsBlocked(c, r, words0, mem[..], tree, done, level);
          return -3, blockSize;
        }
        FoundIsOnPath(c, r, words0, mem[..], tree, done, level);
        ghost var i, k := PathTo(c, mem[..], level, at).value, IndexAt(granule, level, at);
        ghost var words, t := mem[..], tree;
        ret := AddMapPteProcess(region, pte.value, phys, level, i, k, at);
        PoolOffsets(c, |t.lev|);
        if ret != 0 {
          if acc {
            NewTableSpent(c, r, words0, words, t, done, level, i, k, n0);
            TableAddrMonotone(c, |t.lev| + 1, n0 + Budget(c, r));
          }
          return ret, blockSize;
        }
        if level < L {
          UpperStep(c, r, words0, words, mem[..], t, tree, done, level, i, k, n0);
          VisitedTables(c, words, mem[..], t, tree, i, k, at);
          InBlockFacts(c, r, words0, mem[..], tree, done, level + 1, n0);
        } else {
          LeafStep(c, r, words0, words, t, done, i, k, n0);
          ProgressMeaning(c, r, words0, mem[..], tree, done + B, n0);
        }
        if level != startLevel {
          BlockSizeIsShift(granule, level);
          blockSize := Pow2(Level2Shift(granule, level));
        }
        level := level + 1;
      }
      return 0, blockSize;
    }

    /** Maps one region. `done` is how much of it was mapped before the call returned. */
    method AddMap(region: Region) returns (ret: int, ghost done: nat)
      requires Valid() && RegionOk(Config(), Folded(Config(), region))
      modifies this`tlbFillptr, this`tree, mem
      ensures Valid()
      ensures ret in {0, -1, -2, -3}
      ensures ret == -2 <==> region.maxLevel <= startLevel
      ensures ret == -2 ==> done == 0 && mem[..] == old(mem[..]) && tree == old(tree) && tlbFillptr == old(tlbFillptr)
      ensures ret == 0 ==> done == RoundUp(granule, region.maxLevel, region.size)
      ensures ret != 0 ==> done < RoundUp(granule, region.maxLevel, region.size) || ret == -2
      ensures var r := Folded(Config(), region);
              && (ret != -2 ==> MappedUpTo(Config(), r, old(mem[..]), mem[..], r.virt + done))
              && (ret == 0 ==> forall va: nat :: Covers(Config(), r, va) ==>
                                 !Blocked(Config(), old(mem[..]), r.maxLevel, va))
              && (ret == -3 ==> Covers(Config(), r, r.virt + done)
                                && Blocked(Config(), old(mem[..]), r.maxLevel, r.virt + done))
      ensures ret == -1 ==> Exhausted()
      ensures ret != -2 && old(tlbFillptr == TableAddr(Config(), |tree.lev|)) ==>
                var r := Folded(Config(), region);
                if ret == -1 then NoRoom(r, |old(tree).lev|) else WithinBudget(r, |old(tree).lev|)
    {
      hide SlotOf, OffsetIn, BlockSize, InReach, RoundUp, PathTo, IndexAt, WordIndex, TableAddr, Decode, Inv, PteLeaf,
        Pow2, Level2Shift, InBlock, Progress, Spent, Budget;
      ghost var c, words0, n0, r := Config(), mem[..], |tree.lev|, Folded(Config(), region);
      var virt := region.virt;
      var phys := region.phys;
      var blockSize := 0;
      var mapSize := 0;
      done := 0;
      if region.maxLevel <= startLevel {
        return -2, 0;
      }
      ghost var acc := tlbFillptr == TableAddr(c, n0);
      ProgressStart(c, r, words0, tree, n0);
      while mapSize < region.size
        invariant Valid() && c == Config()
        invariant mapSize == done && virt == region.virt + done && phys == region.phys + done
        invariant Progress(c, r, words0, mem[..], tree, done)
        invariant done > 0 ==> BlockSize(granule, region.maxLevel) <= done
        invariant acc ==> Accounted(r, n0, done, startLevel)
        decreases region.size - mapSize
      {
        ProgressBounds(c, r, words0, mem[..], tree, done);
        BlockWraps(c, region, words0, mem[..], tree, done);
        ret, blockSize := MapBlock(region, virt, phys, blockSize, r, words0, n0, done);
        if ret != 0 {
          ProgressMeaning(c, r, words0, mem[..], tree, done, n0);
          return ret, done;
        }
        virt := virt + blockSize;
        phys := phys + blockSize;
        mapSize := mapSize + blockSize;
        done := done + blockSize;
      }
      ProgressMeaning(c, r, words0, mem[..], tree, done, n0);
      return 0, done;
    }

    /** The first part of `GetTcr`: the highest end of a region. */
    method HighestEnd(regions: seq<Region>) returns (maxAddr: nat)
      ensures maxAddr == MaxAddr(regions)
    {
      maxAddr := 0;
      for i := 0 to |regions|
        invariant maxAddr == MaxAddr(regions[..i])
      {
        var end := regions[i].virt + regions[i].size;
        maxAddr := if maxAddr > end then maxAddr else end;
        assert regions[..i + 1][..i] == regions[..i];
      }
      assert regions[..|regions|] == regions;
    }

    /** The register value for the width of virtual addresses that the highest region needs, and that width. */
    method GetTcr(regions: seq<Region>) returns (tcr: nat, ips: nat, bits: nat)
      ensures bits == VaBits(MaxAddr(regions))
      ensures (ips, bits) in {(5, 48), (4, 44), (3, 42), (2, 40), (1, 36), (0, 32)}
      ensures FieldsOf(tcr) == Fields(64 - bits, 1, 1, 3, if granule == G4K then 0 else 1, ips, 1)
    {
      hide FieldsOf, MaxAddr;
      var maxAddr := HighestEnd(regions);
      if maxAddr > 0x1000_0000_0000 {
        ips, bits := 5, 48;
      } else if maxAddr > 0x400_0000_0000 {
        ips, bits := 4, 44;
      } else if maxAddr > 0x100_0000_0000 {
        ips, bits := 3, 42;
      } else if maxAddr > 0x10_0000_0000 {
        ips, bits := 2, 40;
      } else if maxAddr > 0x1_0000_0000 {
        ips, bits := 1, 36;
      } else {
        ips, bits := 0, 32;
      }
      tcr := JoinTcr(ips, bits);
    }

    /** The last part of `GetTcr`: the register value. */
    method JoinTcr(ips: nat, bits: nat) returns (tcr: nat)
      requires ips < 8 && 0 < bits <= 64
      ensures FieldsOf(tcr) == Fields(64 - bits, 1, 1, 3, if granule == G4K then 0 else 1, ips, 1)
    {
      hide Or, Shl, FieldsOf;
      TcrFields(granule, ips, bits);
      tcr := Or(TCR_EL1_RSVD, Shl(ips, 32));
      if granule == G4K {
        tcr := Or(tcr, Or(Or(Or(TCR_TG0_4K, TCR_SHARED_INNER), TCR_ORGN_WBWA), TCR_IRGN_WBWA));
      } else {
        tcr := Or(tcr, Or(Or(Or(TCR_TG0_64K, TCR_SHARED_INNER), TCR_ORGN_WBWA), TCR_IRGN_WBWA));
      }
      tcr := Or(tcr, 64 - bits);
    }

    /** What has been mapped of the regions `fs`, as they come to lie: the first `n` and then `done` bytes of the next,
        and why that one was not finished. */
    ghost predicate Outcome(fs: seq<Region>, ret: int, n: nat, done: nat)
      reads this, mem
    {
      && Valid()
      && ret in {0, -1, -2, -3}
      && n <= |fs| && MeansPart(Config(), mem[..], fs, n, done)
      && (ret == 0 <==> n == |fs|)
      && (ret == 0 ==> Means(Config(), mem[..], fs))
      && (ret != 0 && fs[n].maxLevel <= 3 ==> ret == -2 || done < RoundUp(granule, fs[n].maxLevel, fs[n].size))
      && (ret == -1 ==> Exhausted() && TableAddr(Config(), 1 + TotalBudget(Config(), fs)) - tlbAddr > tlbSize)
      && (ret == -2 <==> n < |fs| && fs[n].maxLevel <= startLevel)
      && (ret == -3 ==> Taken(Config(), fs, n, fs[n].virt + done))
    }

    /** Maps the regions of a list one after the other, up to the first that fails. */
    method MapRegions(regions: seq<Region>) returns (ret: int, ghost n: nat, ghost done: nat)
      requires Valid() && Means(Config(), mem[..], [])
      requires tlbFillptr == TableAddr(Config(), |tree.lev|) && |tree.lev| == 1
      requires forall r :: r in regions ==> RegionOk(Config(), Folded(Config(), r))
      modifies this`tlbFillptr, this`tree, mem
      ensures ret in {0, -1, -2, -3}
      ensures Outcome(FoldedAll(Config(), regions), ret, n, done)
      ensures Buildable(Config(), FoldedAll(Config(), regions), tlbSize) ==> ret == 0
    {
      hide SlotOf, OffsetIn, InReach, Inv, And, RoundUp, Means, MeansPart, TotalBudget, Budget, TableAddr, MapOf, Walk,
        Folded, RegionOk, Blocked, MappedUpTo, Covers;
      ghost var c, fs := Config(), FoldedAll(Config(), regions);
      NoBudget(c);
      var i := 0;
      while i < |regions|
        modifies this`tlbFillptr, this`tree, mem
        invariant 0 <= i <= |regions|
        invariant Valid() && c == Config()
        invariant Means(c, mem[..], fs[..i])
        invariant tlbFillptr == TableAddr(c, |tree.lev|) && |tree.lev| <= 1 + TotalBudget(c, fs[..i])
      {
        ghost var words0, n0 := mem[..], |tree.lev|;
        SameLevel(c, regions[i]);
        ret, done := AddMap(regions[i]);
        BudgetStep(c, fs, i, n0);
        if Buildable(c, fs, tlbSize) {
          BuildableStep(c, fs, tlbSize, i, words0, n0);
        }
        if ret != 0 {
          PartMeans(c, fs, i, words0, mem[..], done, ret);
          return ret, i, done;
        }
        MeansNext(c, fs, i, words0, mem[..]);
        i := i + 1;
      }
      assert fs[..i] == fs;
      AllMeans(c, fs, mem[..]);
      return 0, |regions|, 0;
    }

    /** Takes the root table and maps the regions below it. */
    method BuildTables(regions: seq<Region>) returns (ret: int, ghost n: nat, ghost done: nat)
      requires PoolOk() && tlbFillptr == tlbAddr
      requires forall r :: r in regions ==> RegionOk(Config(), Folded(Config(), r))
      modifies this`tlbFillptr, this`tree, mem
      ensures ret == 1 <==> TableBytes(granule) > tlbSize
      ensures ret != 1 ==> Outcome(FoldedAll(Config(), regions), ret, n, done)
      ensures Buildable(Config(), FoldedAll(Config(), regions), tlbSize) ==> ret == 0
    {
      hide SlotOf, OffsetIn, InReach, Inv, And, RoundUp, Means, TotalBudget, Budget, TableAddr, MapOf, RegionOk,
        Disjoint, Folded, Outcome;
      ghost var c, fs := Config(), FoldedAll(Config(), regions);
      PoolOffsets(c, 0);
      RootAddress(c);
      TableAddrMonotone(c, 1, 1 + TotalBudget(c, fs));
      var newTable := CreateTable();
      if newTable == None {
        return 1, 0, 0;
      }
      tree := Tree([startLevel], [0], [(0, 0)]);
      RootIsEmpty(c, mem[..]);
      ret, n, done := MapRegions(regions);
    }

    /** Builds the tables of a list of regions in the pool at `addr`. The width of addresses is that of another list,
        `measured`, which is `g_mem_map_info` whatever list is to be mapped. */
    method SetupPgtables(measured: seq<Region>, regions: seq<Region>, addr: nat, len: nat, g: Granule)
      returns (ret: int, ghost n: nat, ghost done: nat)
      requires addr > 0 && OffsetIn(g, 3, addr) == 0
      requires 8 * mem.Length <= len < 8 * mem.Length + 8 && addr + 8 * mem.Length <= PHYS_LIMIT
      requires var c := Cfg(g, addr, StartLevel(g, VaBits(MaxAddr(measured))));
               forall r :: r in regions ==> RegionOk(c, Folded(c, r))
      modifies this, mem
      ensures var c := Cfg(g, addr, StartLevel(g, VaBits(MaxAddr(measured))));
              && (ret == 3 <==> g == G64K && VaBits(MaxAddr(measured)) > 36)
              && (ret == 1 <==> ret != 3 && TableBytes(g) > len)
              && (ret != 3 && ret != 1 ==> Config() == c && Outcome(FoldedAll(c, regions), ret, n, done))
              && (ret != 3 && Buildable(c, FoldedAll(c, regions), len) ==> ret == 0)
    {
      tlbAddr := addr;
      tlbSize := len;
      tlbFillptr := addr;
      granule := g;
      startLevel := 0;
      hide OffsetIn, VaBits, RegionOk, MaxAddr, Buildable, Inv, Folded, Outcome;
      var tcr, ips;
      tcr, ips, vaBits := GetTcr(measured);
      if granule == G4K {
        startLevel := if vaBits < 39 then 1 else 0;
      } else {
        if vaBits <= 36 {
          startLevel := 2;
        } else {
          startLevel := 1;
          return 3, 0, 0;
        }
      }
      ret, n, done := BuildTables(regions);
    }
  }

  // ----- lemmas the methods use -----

  /** `(addr >> shift) & mask` is the table index. */
  lemma IndexIsMask(g: Granule, level: nat, addr: nat)
    requires level <= 3
    ensures And(Shr(addr, Level2Shift(g, level)), if g == G4K then 0x1FF else 0x1FFF) == IndexAt(g, level, addr)
  {
    ShiftIsSlot(g, level, addr);
    MaskIsRemainder(g, SlotOf(g, level, addr));
  }

  lemma ShiftIsSlot(g: Granule, level: nat, addr: nat)
    requires level <= 3
    ensures Shr(addr, Level2Shift(g, level)) == SlotOf(g, level, addr)
  {
    hide SlotOf, OffsetIn, BlockSize, Shr, Shl, Pow2, Level2Shift;
    var h, s := Shr(addr, Level2Shift(g, level)), BlockSize(g, level);
    BlockSizeIsShift(g, level);
    ShrDivides(addr, Level2Shift(g, level));
    SlotAndOffset(g, level, addr);
    ShlIsMul(h, Level2Shift(g, level));
    ShlIsMul(h + 1, Level2Shift(g, level));
    DistributeOne(h, s);
    QuotientUnique(s, h, addr - h * s, SlotOf(g, level, addr), OffsetIn(g, level, addr));
  }

  lemma DistributeOne(h: nat, s: nat)
    ensures (h + 1) * s == h * s + s
  {}

  lemma MaskIsRemainder(g: Granule, q: nat)
    ensures And(q, if g == G4K then 0x1FF else 0x1FFF) == q % Entries(g)
  {
    Pow2Values();
    if g == G4K {
      ShlIsMul(q / 512, 9);
      AndField(0, 9, 0, q % 512, q / 512);
    } else {
      ShlIsMul(q / 8192, 13);
      AndField(0, 13, 0, q % 8192, q / 8192);
    }
  }

  lemma RootPath(c: Cfg, words: seq<nat>, va: nat)
    requires c.start <= 3
    ensures PathTo(c, words, c.start, va) == Some(0) && TableAddr(c, 0) == c.base
  {}

  lemma SlotWord(c: Cfg, j: nat, k: nat)
    requires k < Entries(c.g)
    ensures (TableAddr(c, j) + 8 * k - c.base) / 8 == WordIndex(c.g, j, k)
  {}

  /** What the code reads at one level: the entry's word lies in the pool, and its type and
      masked address say whether and where the path goes on. */
  lemma FindStep(c: Cfg, words: seq<nat>, t: Tree, level: nat, va: nat)
    requires Inv(c, words, t) && c.start <= level <= 3
    requires PathTo(c, words, level, va).Some?
    ensures var j, k := PathTo(c, words, level, va).value, IndexAt(c.g, level, va);
            var x := (TableAddr(c, j) + 8 * k - c.base) / 8;
            && c.base <= TableAddr(c, j)
            && x == WordIndex(c.g, j, k) < |words|
            && (level < 3 ==>
                  && (PteType(words[x]) == PTE_TYPE_TABLE <==> PathTo(c, words, level + 1, va).Some?)
                  && (PathTo(c, words, level + 1, va).Some? ==>
                        And(words[x], TableMask(c.g)) == TableAddr(c, PathTo(c, words, level + 1, va).value)))
  {
    hide SlotOf, OffsetIn, IndexAt, And, RegionOf, Decode, Wrapped, InReach;
    var j, k := PathTo(c, words, level, va).value, IndexAt(c.g, level, va);
    PathWraps(c, words, level, va);
    WrappedInReach(c, va);
    PathInv(c, words, t, level, Wrapped(c, va));
    SlotWord(c, j, k);
    assert SlotOk(c, words, t, j, k);
    var w := words[WordIndex(c.g, j, k)];
    if level < 3 {
      TypeIsLowBits(w);
      TypeTableIsNext(c.g, level, w);
      MaskIsOutputField(c.g, w);
      PathStep(c, words, level, va);
    }
  }

  lemma TypeTableIsNext(g: Granule, level: nat, w: nat)
    requires level < 3
    ensures Decode(g, level, w).Next? <==> w % 4 == 3
    ensures Decode(g, level, w).Next? ==> Decode(g, level, w).table == OutputField(g, 3, w)
  {
    TypeBits(w);
  }

  /** One step of a path, at the entry it reads. */
  lemma PathStep(c: Cfg, words: seq<nat>, level: nat, va: nat)
    requires c.start <= level < 3 && PathTo(c, words, level, va).Some?
    requires WordIndex(c.g, PathTo(c, words, level, va).value, IndexAt(c.g, level, va)) < |words|
    ensures PathTo(c, words, level + 1, va) ==
            match Decode(c.g, level, words[WordIndex(c.g, PathTo(c, words, level, va).value, IndexAt(c.g, level, va))])
            case Next(a) => if c.base <= a then Some(PageOf(c, a)) else None
            case _ => None
  {}

  lemma PoolOffsets(c: Cfg, n: nat)
    ensures (TableAddr(c, n) - c.base) / 8 == WordIndex(c.g, n, 0) && (TableAddr(c, n) - c.base) % 8 == 0
    ensures TableAddr(c, n + 1) == TableAddr(c, n) + TableBytes(c.g)
    ensures WordIndex(c.g, n, 0) + Entries(c.g) == WordIndex(c.g, n + 1, 0)
  {}

  /** Where the entry lies, and what its type bits say about it. */
  lemma EntryFacts(c: Cfg, words: seq<nat>, t: Tree, i: nat, k: nat, virt: nat)
    requires OnPath(c, words, t, i, k, virt)
    ensures Inv(c, words, t) && i < |t.lev| == |t.pre| && k < Entries(c.g) && t.lev[i] <= 3
    ensures (TableAddr(c, i) + 8 * k - c.base) / 8 == WordIndex(c.g, i, k) < |words|
    ensures WordIndex(c.g, i, k) < WordIndex(c.g, |t.lev|, 0)
    ensures Decode(c.g, t.lev[i], words[WordIndex(c.g, i, k)]).Invalid?
            <==> PteType(words[WordIndex(c.g, i, k)]) == PTE_TYPE_FAULT
  {
    hide SlotOf, OffsetIn, IndexAt, And, PathTo;
    assert SlotOk(c, words, t, i, k);
    SlotWord(c, i, k);
    TypeBits(words[WordIndex(c.g, i, k)]);
    TypeIsLowBits(words[WordIndex(c.g, i, k)]);
  }

  lemma GrowLength(g: Granule, t: Tree, i: nat, k: nat)
    requires i < |t.lev| == |t.pre|
    ensures |Grow(g, t, i, k).lev| == |t.lev| + 1
  {}

  lemma TableIsLinked(c: Cfg, words: seq<nat>, words': seq<nat>, t: Tree, i: nat, k: nat)
    requires Inv(c, words, t) && i < |t.lev| && k < Entries(c.g) && t.lev[i] < 3
    requires |words'| == |words| && WordIndex(c.g, |t.lev| + 1, 0) <= |words|
    requires WordIndex(c.g, i, k) < |words| && Decode(c.g, t.lev[i], words[WordIndex(c.g, i, k)]).Invalid?
    requires forall x :: 0 <= x < |words| ==>
               words'[x] == if x == WordIndex(c.g, i, k) then PteTable(TableAddr(c, |t.lev|))
                            else if WordIndex(c.g, |t.lev|, 0) <= x < WordIndex(c.g, |t.lev| + 1, 0) then 0
                            else words[x]
    ensures Linked(c, words, words', t, i, k)
  {
    hide Decode, Inv, PteTable, TableAddr;
  }

  lemma InBlockFacts(c: Cfg, r: Region, words0: seq<nat>, words: seq<nat>, t: Tree, done: nat, level: nat, n0: nat)
    requires InBlock(c, r, words0, words, t, done, level)
    ensures Inv(c, words, t) && Progress(c, r, words0, words, t, done) && done < RoundUp(c.g, r.maxLevel, r.size)
    ensures c.start <= level <= r.maxLevel <= 3 && c.start < r.maxLevel && InReach(c, r.virt + done)
    ensures done > 0 ==> BlockSize(c.g, r.maxLevel) <= done
    ensures WithinSpent(c, r, n0, |t.lev|, done, level) ==> n0 <= |t.lev| <= n0 + Budget(c, r)
    ensures level < r.maxLevel && WithinSpent(c, r, n0, |t.lev| + 1, done, level + 1) ==>
              |t.lev| + 1 <= n0 + Budget(c, r)
  {
    hide SlotOf, OffsetIn, BlockSize, InReach, RoundUp, PathTo, SlotOk;
    BlockInReach(c, r, words0, words, t, done);
    BlockPositive(c.g, r.maxLevel);
    var last := r.virt + RoundUp(c.g, r.maxLevel, r.size) - 1;
    SpentWithin(c.g, c.start, level, r.maxLevel, r.virt, r.virt + done, last);
    SpentWithin(c.g, c.start, level + 1, r.maxLevel, r.virt, r.virt + done, last);
    EmptyRoundsToZero(c.g, r.maxLevel, r.size);
  }

  /** The address that the code looks up is, within the reach, the next one of the region as it comes to lie. */
  lemma BlockWraps(c: Cfg, region: Region, words0: seq<nat>, words: seq<nat>, t: Tree, done: nat)
    requires c.start <= 3 && Progress(c, Folded(c, region), words0, words, t, done)
    requires done < RoundUp(c.g, region.maxLevel, region.size)
    ensures Wrapped(c, region.virt + done) == Folded(c, region).virt + done
  {
    hide SlotOf, OffsetIn, BlockSize, RoundUp, PathTo, SlotOk, Reach, InReach;
    var r := Folded(c, region);
    BlockInReach(c, r, words0, words, t, done);
    BlockPositive(c.g, r.maxLevel);
    assert InReach(c, r.virt + done);
    ReachIsRoot(c, r.virt + done);
    WrappedAdd(c, region.virt, done);
  }

  lemma EmptyRoundsToZero(g: Granule, level: nat, size: nat)
    requires level <= 3
    ensures size == 0 <==> RoundUp(g, level, size) == 0
  {
    RoundUpBounds(g, level, size);
  }

  lemma ProgressStart(c: Cfg, r: Region, words: seq<nat>, t: Tree, n0: nat)
    requires Inv(c, words, t) && RegionOk(c, r) && c.start < r.maxLevel
    ensures Progress(c, r, words, words, t, 0) && WithinSpent(c, r, n0, n0, 0, c.start)
  {
    hide SlotOf, InReach, RoundUp, PathTo, SlotOk, Walk;
    SpentNothing(c.g, c.start, c.start, r.maxLevel, r.virt);
  }

  lemma ProgressBounds(c: Cfg, r: Region, words0: seq<nat>, words: seq<nat>, t: Tree, done: nat)
    requires Progress(c, r, words0, words, t, done) && done < r.size
    ensures done < RoundUp(c.g, r.maxLevel, r.size)
  {
    hide SlotOf, OffsetIn, InReach, RoundUp, PathTo, SlotOk, Walk;
    RoundUpBounds(c.g, r.maxLevel, r.size);
  }

  lemma ProgressMeaning(c: Cfg, r: Region, words0: seq<nat>, words: seq<nat>, t: Tree, done: nat, n0: nat)
    requires Progress(c, r, words0, words, t, done)
    ensures Inv(c, words, t) && c.start < r.maxLevel <= 3 && done <= RoundUp(c.g, r.maxLevel, r.size)
    ensures done >= r.size ==> done == RoundUp(c.g, r.maxLevel, r.size)
    ensures MappedUpTo(c, r, words0, words, r.virt + done)
    ensures forall va: nat :: r.virt <= va < r.virt + done ==> !Blocked(c, words0, r.maxLevel, va)
    ensures done > 0 ==> BlockSize(c.g, r.maxLevel) <= done
    ensures WithinSpent(c, r, n0, |t.lev|, done, c.start) ==> n0 <= |t.lev| <= n0 + Budget(c, r)
  {
    hide SlotOf, OffsetIn, InReach, RoundUp, PathTo, SlotOk, Walk, BlockSize, Inv, MappedUpTo, Budget;
    var L, end := r.maxLevel, RoundUp(c.g, r.maxLevel, r.size);
    RoundUpBounds(c.g, L, r.size);
    if r.size <= done < end { AlignedGap(c.g, L, done, end); }
    if WithinSpent(c, r, n0, |t.lev|, done, c.start) { BudgetMeaning(c, r, words0, words, t, done, n0); }
  }

  lemma BudgetMeaning(c: Cfg, r: Region, words0: seq<nat>, words: seq<nat>, t: Tree, done: nat, n0: nat)
    requires Progress(c, r, words0, words, t, done)
    requires WithinSpent(c, r, n0, |t.lev|, done, c.start)
    ensures n0 <= |t.lev| <= n0 + Budget(c, r)
  {
    hide SlotOf, OffsetIn, InReach, RoundUp, PathTo, SlotOk, Walk, BlockSize, Inv, MappedUpTo, Blocked;
    var L, B, end := r.maxLevel, BlockSize(c.g, r.maxLevel), RoundUp(c.g, r.maxLevel, r.size);
    RoundUpBounds(c.g, L, r.size);
    EmptyRoundsToZero(c.g, L, r.size);
    if done == 0 {
      SpentNothing(c.g, c.start, c.start, L, r.virt);
    } else {
      BlockPositive(c.g, L);
      var prev := done - B;
      PreviousBlock(c.g, L, done);
      SpentNext(c.g, c.start, c.start, L, r.virt, r.virt + prev);
      SpentWithin(c.g, c.start, L, L, r.virt, r.virt + prev, r.virt + end - 1);
    }
  }

  lemma PreviousBlock(g: Granule, level: nat, a: nat)
    requires level <= 3 && OffsetIn(g, level, a) == 0 && BlockSize(g, level) <= a
    ensures OffsetIn(g, level, a - BlockSize(g, level)) == 0
    ensures a > BlockSize(g, level) ==> BlockSize(g, level) <= a - BlockSize(g, level)
  {
    hide OffsetIn, SlotOf, BlockSize;
    var s, q := BlockSize(g, level), SlotOf(g, level, a);
    SlotAndOffset(g, level, a);
    BlockPositive(g, level);
    assert q > 0;
    assert a - s == (q - 1) * s;
    AlignedMultiple(g, level, q - 1);
    if a > s {
      AlignedMultiple(g, level, 1);
      assert 1 * s == s;
      AlignedGap(g, level, s, a);
    }
  }

  lemma TableAddrMonotone(c: Cfg, m: nat, n: nat)
    requires m <= n
    ensures TableAddr(c, m) <= TableAddr(c, n)
  {}

  lemma VisitedTables(c: Cfg, words: seq<nat>, words': seq<nat>, t: Tree, t': Tree, i: nat, k: nat, virt: nat)
    requires OnPath(c, words, t, i, k, virt) && WordIndex(c.g, i, k) < |words|
    requires Visited(c, words, words', t, t', i, k)
    ensures |t'.lev| == |t.lev| || |t'.lev| == |t.lev| + 1
  {
    hide Decode, Linked;
  }

  /** Disjoint regions below the start level, and room for the root and every table they can take. */
  ghost predicate Buildable(c: Cfg, regions: seq<Region>, len: nat) {
    && (forall r :: r in regions ==> c.start < r.maxLevel <= 3)
    && Disjoint(c, regions)
    && TableAddr(c, 1 + TotalBudget(c, regions)) - c.base <= len
  }

  /** A zeroed root table faults everywhere. */
  lemma RootIsEmpty(c: Cfg, words: seq<nat>)
    requires CfgOk(c) && c.base + 8 * |words| <= PHYS_LIMIT
    requires Entries(c.g) <= |words| && forall x :: 0 <= x < Entries(c.g) ==> words[x] == 0
    ensures Inv(c, words, Tree([c.start], [0], [(0, 0)]))
    ensures Means(c, words, [])
  {
    hide SlotOf, OffsetIn, InReach;
    var t := Tree([c.start], [0], [(0, 0)]);
    forall j, k | 0 <= j < 1 && 0 <= k < Entries(c.g)
      ensures SlotOk(c, words, t, j, k)
    {}
    forall va: nat | InReach(c, va)
      ensures Translate(c, words, va) == Fault
    {
      RootAddress(c);
      NewTableFaults(c, words, 0, c.start, va);
    }
  }

  /** The tables translate every address as the list of regions says. */
  ghost predicate Means(c: Cfg, words: seq<nat>, regions: seq<Region>)
    requires c.start <= 3
  {
    forall va: nat {:trigger Translate(c, words, va)} :: InReach(c, va) ==>
      Translate(c, words, va) == MapOf(c, regions, va)
  }

  /** The tables translate as the first `n` regions say, and over them as the first `done` bytes of the next. */
  ghost predicate MeansPart(c: Cfg, words: seq<nat>, regions: seq<Region>, n: nat, done: nat)
    requires c.start <= 3 && n <= |regions|
  {
    forall va: nat {:trigger Translate(c, words, va)} :: InReach(c, va) ==>
      Translate(c, words, va) ==
      if n < |regions| && regions[n].virt <= va < regions[n].virt + done then RegionXlat(regions[n], va)
      else MapOf(c, regions[..n], va)
  }

  /** An address of region `n` is mapped already, by a leaf of an earlier region that is too coarse to be split. */
  ghost predicate Taken(c: Cfg, regions: seq<Region>, n: nat, va: nat) {
    && n < |regions| && Covers(c, regions[n], va)
    && var e := MapOf(c, regions[..n], va); e.Mapped? && e.level < regions[n].maxLevel
  }

  /** Where a region could not be finished. */
  lemma PartMeans(c: Cfg, regions: seq<Region>, i: nat, words0: seq<nat>, words: seq<nat>, done: nat, ret: int)
    requires CfgOk(c) && i < |regions| && RegionOk(c, regions[i]) && Means(c, words0, regions[..i])
    requires ret == -2 <==> regions[i].maxLevel <= c.start
    requires if ret == -2 then words == words0 && done == 0
             else MappedUpTo(c, regions[i], words0, words, regions[i].virt + done)
    requires ret == -3 ==> Covers(c, regions[i], regions[i].virt + done)
                           && Blocked(c, words0, regions[i].maxLevel, regions[i].virt + done)
    ensures MeansPart(c, words, regions, i, done)
    ensures ret == -3 ==> Taken(c, regions, i, regions[i].virt + done)
  {
    hide InReach, RoundUp, Walk, Reach;
    if ret == -3 {
      RegionInReach(c, regions[i]);
      ReachIsRoot(c, regions[i].virt + done);
    }
  }

  lemma AllMeans(c: Cfg, regions: seq<Region>, words: seq<nat>)
    requires c.start <= 3 && Means(c, words, regions)
    ensures MeansPart(c, words, regions, |regions|, 0)
  {
    hide InReach, Walk;
    assert regions[..|regions|] == regions;
  }

  lemma SameLevel(c: Cfg, r: Region)
    requires c.start <= 3 && RegionOk(c, Folded(c, r))
    ensures Folded(c, r) == r.(virt := Folded(c, r).virt) && r.maxLevel <= 3
  {}

  lemma MeansNext(c: Cfg, regions: seq<Region>, i: nat, words0: seq<nat>, words: seq<nat>)
    requires c.start <= 3 && i < |regions| && regions[i].maxLevel <= 3
    requires Means(c, words0, regions[..i])
    requires MappedUpTo(c, regions[i], words0, words,
                        regions[i].virt + RoundUp(c.g, regions[i].maxLevel, regions[i].size))
    ensures Means(c, words, regions[..i + 1])
  {
    hide InReach, RoundUp, Walk;
    assert regions[..i + 1][..i] == regions[..i];
  }

  /** A buildable list fails neither for an overlap nor for want of tables. */
  lemma BuildableStep(c: Cfg, regions: seq<Region>, len: nat, i: nat, words0: seq<nat>, n0: nat)
    requires Buildable(c, regions, len) && i < |regions|
    requires CfgOk(c) && RegionOk(c, regions[i])
    requires Means(c, words0, regions[..i]) && n0 <= 1 + TotalBudget(c, regions[..i])
    ensures regions[i].maxLevel > c.start
    ensures TableAddr(c, n0 + Budget(c, regions[i])) - c.base <= len
    ensures forall va: nat :: Covers(c, regions[i], va) ==> !Blocked(c, words0, regions[i].maxLevel, va)
  {
    hide InReach, RoundUp, Walk, Budget, Reach;
    RegionInReach(c, regions[i]);
    assert regions[i] in regions;
    BudgetStep(c, regions, i, n0);
    forall va: nat | Covers(c, regions[i], va)
      ensures !Blocked(c, words0, regions[i].maxLevel, va)
    {
      ReachIsRoot(c, va);
      EarlierDoNotCover(c, regions, i, i, va);
    }
  }

  /** What one more region adds to the budget, which the whole list's includes. */
  lemma BudgetStep(c: Cfg, regions: seq<Region>, i: nat, n0: nat)
    requires i < |regions| && n0 <= 1 + TotalBudget(c, regions[..i])
    ensures TotalBudget(c, regions[..i + 1]) == TotalBudget(c, regions[..i]) + Budget(c, regions[i])
    ensures TableAddr(c, n0 + Budget(c, regions[i])) <= TableAddr(c, 1 + TotalBudget(c, regions))
  {
    hide Budget;
    assert regions[..i + 1][..i] == regions[..i];
    TotalBudgetPrefix(c, regions, i + 1);
    TableAddrMonotone(c, n0 + Budget(c, regions[i]), 1 + TotalBudget(c, regions));
  }

  lemma {:induction false} EarlierDoNotCover(c: Cfg, regions: seq<Region>, i: nat, n: nat, va: nat)
    requires Disjoint(c, regions) && n <= i < |regions| && Covers(c, regions[i], va)
    ensures MapOf(c, regions[..n], va) == Fault
  {
    if n > 0 {
      EarlierDoNotCover(c, regions, i, n - 1, va);
      assert regions[..n][..n - 1] == regions[..n - 1];
      assert !Covers(c, regions[n - 1], va);
    }
  }

  lemma NoBudget(c: Cfg)
    ensures TotalBudget(c, []) == 0
  {}
}
