/**
  When the measured list of regions is not the one that is mapped: the start level may be too low for
  the regions, and what lies past the root's reach is found at its remainder.
  */
module MmuReach {
  import opened MmuFormat
  import opened PageTables
  import opened Regions
  import opened Wrap
  import opened Mmu
  import opened MmuSetup

  /** The walk of an address past the reach is that of its remainder. */
  lemma TranslateWraps(c: Cfg, words: seq<nat>, va: nat)
    requires CfgOk(c)
    ensures Translate(c, words, va) == Translate(c, words, Wrapped(c, va))
    ensures InReach(c, Wrapped(c, va))
  {
    WalkWraps(c, words, c.start, c.base, va);
    WrappedInReach(c, va);
  }

  /** What SetupPgtables demands of a region that it is to map. */
  predicate Mappable(c: Cfg, r: Region)
    requires c.start <= 3
  {
    c.start < r.maxLevel <= 3 && r.size > 0 && RegionOk(c, Folded(c, r))
  }

  /** The tables that are built mean the list itself exactly when every region starts within the reach of the root. */
  lemma ReachIsExact(c: Cfg, words: seq<nat>, regions: seq<Region>)
    requires CfgOk(c) && Means(c, words, FoldedAll(c, regions)) && Disjoint(c, FoldedAll(c, regions))
    requires forall r :: r in regions ==> Mappable(c, r)
    ensures Means(c, words, regions) <==> forall r :: r in regions ==> r.virt < Reach(c.g, c.start)
  {
    hide Means, RegionOk, Disjoint;
    if forall r :: r in regions ==> r.virt < Reach(c.g, c.start) {
      FoldedInReach(c, regions);
    } else {
      var i :| 0 <= i < |regions| && regions[i].virt >= Reach(c.g, c.start);
      assert regions[i] in regions;
      FarRegionIsElsewhere(c, words, regions, i);
    }
  }

  /** A region past the reach is mapped where the list has nothing. */
  lemma FarRegionIsElsewhere(c: Cfg, words: seq<nat>, regions: seq<Region>, i: nat)
    requires CfgOk(c) && Means(c, words, FoldedAll(c, regions)) && Disjoint(c, FoldedAll(c, regions))
    requires forall r :: r in regions ==> Mappable(c, r)
    requires i < |regions| && regions[i].virt >= Reach(c.g, c.start)
    ensures var va := Wrapped(c, regions[i].virt);
            && InReach(c, va)
            && Translate(c, words, va) == Mapped(regions[i].phys, regions[i].attrs, regions[i].maxLevel)
            && MapOf(c, regions, va) == Fault
    ensures !Means(c, words, regions)
  {
    hide RegionOk, RoundUp, Reach, Walk, InReach, MapOf;
    var fs, va := FoldedAll(c, regions), Wrapped(c, regions[i].virt);
    assert regions[i] in regions && fs[i] in fs;
    WrappedInReach(c, regions[i].virt);
    RoundUpBounds(c.g, regions[i].maxLevel, regions[i].size);
    assert Covers(c, fs[i], va);
    DisjointUnion(c, fs, va);
    forall j | 0 <= j < |regions| ensures !Covers(c, regions[j], va) {
      NearRegionStays(c, regions[j], va);
      if j != i { OtherDoesNotCover(c, fs, i, j, va); }
    }
    NothingCovers(c, regions, va);
  }

  lemma OtherDoesNotCover(c: Cfg, fs: seq<Region>, i: nat, j: nat, va: nat)
    requires Disjoint(c, fs) && i < |fs| && j < |fs| && i != j && Covers(c, fs[i], va)
    ensures !Covers(c, fs[j], va)
  {
  }

  lemma NearRegionStays(c: Cfg, r: Region, va: nat)
    requires CfgOk(c) && va < Reach(c.g, c.start)
    ensures Covers(c, r, va) ==> Folded(c, r) == r
  {
    if r.virt < Reach(c.g, c.start) {
      FoldedInReach(c, [r]);
      assert FoldedAll(c, [r])[0] == r;
    }
  }

  lemma {:induction false} NothingCovers(c: Cfg, regions: seq<Region>, va: nat)
    requires forall j :: 0 <= j < |regions| ==> !Covers(c, regions[j], va)
    ensures MapOf(c, regions, va) == Fault
  {
    if regions != [] { NothingCovers(c, regions[..|regions| - 1], va); }
  }

  /** A gigabyte at 2^39, where the measured list ends at two. */
  const FAR: seq<Region> := [Region(0x80_0000_0000, 0x80_0000_0000, GIB, 2, DEVICE_RWX)]

  /** The shipped list measured and that one mapped: address 0 leads to it. */
  lemma FarGigabyteIsAtZero(base: nat, words: seq<nat>)
    requires var c := Cfg(G4K, base, 1); CfgOk(c) && Means(c, words, FoldedAll(c, FAR))
    ensures var c := Cfg(G4K, base, StartLevel(G4K, VaBits(MaxAddr(MEM_MAP))));
            && Mappable(c, FAR[0]) && MapOf(c, FAR, 0) == Fault
            && Translate(c, words, 0) == Mapped(0x80_0000_0000, DEVICE_RWX, 2)
            && !Means(c, words, FAR)
  {
    hide Walk, Means;
    var c := Cfg(G4K, base, 1);
    MapShape();
    AttrsAreLow(DEVICE_RWX);
    assert Wrapped(c, FAR[0].virt) == 0;
    assert Mappable(c, FAR[0]);
    FarRegionIsElsewhere(c, words, FAR, 0);
  }
}
