/**
  What one visited entry of `mmu_add_map` contributes: the lemmas between the
  writes of PageTables and the loops of the builder.
  */
module MapSteps {
  import opened Options
  import opened MmuFormat
  import opened PageTables
  import opened Regions

  /** A leaf coarser than `maxLevel` translates `va`, so no table of `maxLevel` can be reached. */
  predicate Blocked(c: Cfg, words: seq<nat>, maxLevel: nat, va: nat)
    requires c.start <= 3
  {
    Translate(c, words, va).Mapped? && Translate(c, words, va).level < maxLevel
  }

  /** `words` maps `r` up to `upto` and otherwise means what `words0` means. */
  ghost predicate MappedUpTo(c: Cfg, r: Region, words0: seq<nat>, words: seq<nat>, upto: nat)
    requires c.start <= 3
  {
    forall va: nat {:trigger Translate(c, words, va)} :: InReach(c, va) ==>
      Translate(c, words, va) == if r.virt <= va < upto then RegionXlat(r, va) else Translate(c, words0, va)
  }

  /** The words after one entry above the leaf level has been visited. */
  ghost predicate Visited(c: Cfg, words: seq<nat>, words': seq<nat>, t: Tree, t': Tree, i: nat, k: nat)
    requires i < |t.lev| == |t.pre| && t.lev[i] <= 3 && WordIndex(c.g, i, k) < |words|
  {
    if Decode(c.g, t.lev[i], words[WordIndex(c.g, i, k)]).Invalid?
    then Linked(c, words, words', t, i, k) && t' == Grow(c.g, t, i, k)
    else words' == words && t' == t
  }

  /** After the visit the path goes one level further, unless a coarser leaf is in the way. */
  lemma VisitExtendsPath(c: Cfg, words: seq<nat>, words': seq<nat>, t: Tree, t': Tree, i: nat, k: nat,
                         maxLevel: nat, virt: nat)
    requires OnPath(c, words, t, i, k, virt) && WordIndex(c.g, i, k) < |words|
    requires t.lev[i] < maxLevel <= 3
    requires Visited(c, words, words', t, t', i, k)
    ensures Inv(c, words', t')
    ensures PathTo(c, words', t.lev[i] + 1, virt).Some? || Blocked(c, words', maxLevel, virt)
    ensures forall va {:trigger Translate(c, words', va)} :: InReach(c, va) ==>
              Translate(c, words', va) == Translate(c, words, va)
    ensures forall level, va {:trigger PathTo(c, words', level, va)} ::
              c.start <= level <= 3 && InReach(c, va) && PathTo(c, words, level, va).Some? ==>
                PathTo(c, words', level, va).Some?
  {
    hide SlotOf, OffsetIn, Decode, Load, TableAddr, IndexAt, RegionOf, InReach;
    var level := t.lev[i];
    if Decode(c.g, level, words[WordIndex(c.g, i, k)]).Invalid? {
      LinkTable(c, words, words', t, i, k, virt);
    } else {
      assert SlotOk(c, words, t, i, k);
      WalkFollowsPath(c, words, t, level, virt);
      WalkStep(c, words, i, level, virt);
    }
  }

  /** A table is only created for a slot that the block before did not touch. */
  lemma VisitIsNewSlot(c: Cfg, words: seq<nat>, t: Tree, i: nat, k: nat, maxLevel: nat, prev: nat, virt: nat)
    requires OnPath(c, words, t, i, k, virt) && WordIndex(c.g, i, k) < |words|
    requires t.lev[i] < maxLevel <= 3 && InReach(c, prev)
    requires PathTo(c, words, maxLevel, prev).Some?
    requires Decode(c.g, t.lev[i], words[WordIndex(c.g, i, k)]).Invalid?
    ensures SlotOf(c.g, t.lev[i], virt) != SlotOf(c.g, t.lev[i], prev)
  {
    hide OffsetIn, Decode, RegionOf, InReach;
    var level := t.lev[i];
    if SlotOf(c.g, level, virt) == SlotOf(c.g, level, prev) {
      PathSameSlot(c, words, level, virt, prev);
      SameIndex(c.g, level, virt, prev);
      assert PathTo(c, words, level + 1, prev) == None;
      PathStops(c, words, level + 1, maxLevel, prev);
      assert false;
    }
  }

  /** The leaf written at `maxLevel` maps one more block of the region. */
  lemma LeafMapsBlock(c: Cfg, r: Region, words0: seq<nat>, words: seq<nat>, t: Tree, i: nat, k: nat, virt: nat)
    requires OnPath(c, words, t, i, k, virt) && c.start < r.maxLevel == t.lev[i]
    requires RegionOk(c, r) && Covers(c, r, virt) && OffsetIn(c.g, r.maxLevel, virt - r.virt) == 0
    requires MappedUpTo(c, r, words0, words, virt)
    ensures WordIndex(c.g, i, k) < |words|
    ensures OffsetIn(c.g, r.maxLevel, r.phys + (virt - r.virt)) == 0 && r.phys + (virt - r.virt) < PHYS_LIMIT
    ensures var words' := words[WordIndex(c.g, i, k) := PteLeaf(r.phys + (virt - r.virt), r.attrs, r.maxLevel)];
            && Inv(c, words', t)
            && MappedUpTo(c, r, words0, words', virt + BlockSize(c.g, r.maxLevel))
            && PathTo(c, words', r.maxLevel, virt).Some?
  {
    hide SlotOf, OffsetIn, Decode, RegionOf, InReach, PteLeaf, BlockSize, WordIndex, IndexAt, PathTo, Walk, RoundUp;
    var L, phys := r.maxLevel, r.phys + (virt - r.virt);
    AlignedSum(c.g, L, r.phys, virt - r.virt);
    AlignedSum(c.g, L, r.virt, virt - r.virt);
    var v := PteLeaf(phys, r.attrs, L);
    LeafLevelIsBlock(c, L);
    LeafRoundTrip(c.g, phys, r.attrs, L);
    SetLeaf(c, words, t, i, k, virt, v);
    var words' := words[WordIndex(c.g, i, k) := v];
    forall va: nat | InReach(c, va)
      ensures Translate(c, words', va) ==
              if r.virt <= va < virt + BlockSize(c.g, L) then RegionXlat(r, va) else Translate(c, words0, va)
    {
      SlotIsBlock(c.g, L, virt, va);
    }
  }

  lemma LeafLevelIsBlock(c: Cfg, level: nat)
    requires CfgOk(c) && c.start < level <= 3
    ensures level == 3 || BlockLevel(c.g, level)
  {}

  /** Where the path reaches `maxLevel`, no coarser leaf translates the block. */
  lemma PathIsUnblocked(c: Cfg, words: seq<nat>, t: Tree, maxLevel: nat, virt: nat, va: nat)
    requires Inv(c, words, t) && c.start <= maxLevel <= 3 && InReach(c, va)
    requires PathTo(c, words, maxLevel, virt).Some?
    requires SlotOf(c.g, maxLevel, va) == SlotOf(c.g, maxLevel, virt)
    ensures !Blocked(c, words, maxLevel, va)
  {
    hide SlotOf, OffsetIn, Decode, Load, TableAddr, IndexAt, RegionOf, InReach;
    PathSameSlot(c, words, maxLevel, va, virt);
    WalkFollowsPath(c, words, t, maxLevel, va);
    WalkLevel(c, words, maxLevel, TableAddr(c, PathTo(c, words, maxLevel, va).value), va);
  }

  // ----- the loops of the builder, on values -----

  /** The first `done` bytes of `r` have been mapped over `words0`. */
  ghost predicate Progress(c: Cfg, r: Region, words0: seq<nat>, words: seq<nat>, t: Tree, done: nat) {
    && Inv(c, words, t)
    && RegionOk(c, r) && c.start < r.maxLevel
    && OffsetIn(c.g, r.maxLevel, done) == 0 && done <= RoundUp(c.g, r.maxLevel, r.size)
    && MappedUpTo(c, r, words0, words, r.virt + done)
    && (done > 0 ==>
          && BlockSize(c.g, r.maxLevel) <= done
          && PathTo(c, words, r.maxLevel, r.virt + done - BlockSize(c.g, r.maxLevel)).Some?)
    && (forall va: nat :: r.virt <= va < r.virt + done ==> !Blocked(c, words0, r.maxLevel, va))
  }

  /** Between blocks plus: the entries above `level` on the path of the next block have been visited. */
  ghost predicate InBlock(c: Cfg, r: Region, words0: seq<nat>, words: seq<nat>, t: Tree, done: nat, level: nat) {
    && Progress(c, r, words0, words, t, done)
    && done < RoundUp(c.g, r.maxLevel, r.size)
    && c.start <= level <= r.maxLevel
    && (PathTo(c, words, level, r.virt + done).Some? || Blocked(c, words, r.maxLevel, r.virt + done))
  }

  /** The tables created so far are accounted for. */
  ghost predicate WithinSpent(c: Cfg, r: Region, n0: nat, n: nat, done: nat, level: nat)
    requires c.start < r.maxLevel <= 3
    requires done > 0 ==> BlockSize(c.g, r.maxLevel) <= done
  {
    n0 <= n <= n0 + Spent(c.g, c.start, level, r.maxLevel, r.virt, r.virt + done)
  }

  lemma BlockInReach(c: Cfg, r: Region, words0: seq<nat>, words: seq<nat>, t: Tree, done: nat)
    requires Progress(c, r, words0, words, t, done) && done < RoundUp(c.g, r.maxLevel, r.size)
    ensures Covers(c, r, r.virt + done) && OffsetIn(c.g, r.maxLevel, r.virt + done) == 0
    ensures done + BlockSize(c.g, r.maxLevel) <= RoundUp(c.g, r.maxLevel, r.size)
    ensures OffsetIn(c.g, r.maxLevel, done + BlockSize(c.g, r.maxLevel)) == 0
    ensures forall va: nat :: va < r.virt + done + BlockSize(c.g, r.maxLevel) ==> InReach(c, va)
  {
    hide SlotOf, OffsetIn, InReach, RoundUp, Reach, MappedUpTo, PathTo, Blocked, SlotOk;
    var L := r.maxLevel;
    RoundUpBounds(c.g, L, r.size);
    AlignedGap(c.g, L, done, RoundUp(c.g, L, r.size));
    NextBlock(c.g, L, done);
    AlignedSum(c.g, L, r.virt, done);
    RegionInReach(c, r);
    forall va: nat | va < r.virt + done + BlockSize(c.g, L)
      ensures InReach(c, va)
    {
      ReachIsRoot(c, va);
    }
  }

  lemma EnterBlock(c: Cfg, r: Region, words0: seq<nat>, words: seq<nat>, t: Tree, done: nat)
    requires Progress(c, r, words0, words, t, done) && done < RoundUp(c.g, r.maxLevel, r.size)
    ensures InBlock(c, r, words0, words, t, done, c.start)
  {}

  /** The path stops short only where a coarser leaf was in the way from the beginning. */
  lemma StopIsBlocked(c: Cfg, r: Region, words0: seq<nat>, words: seq<nat>, t: Tree, done: nat, level: nat)
    requires InBlock(c, r, words0, words, t, done, level)
    requires PathTo(c, words, level, r.virt + done) == None
    ensures Blocked(c, words0, r.maxLevel, r.virt + done)
  {
    hide SlotOf, OffsetIn, InReach, RoundUp, BlockSize, PathTo, Walk;
    BlockInReach(c, r, words0, words, t, done);
    assert InReach(c, r.virt + done) by { BlockPositive(c.g, r.maxLevel); }
  }

  lemma BlockPositive(g: Granule, level: nat)
    requires level <= 3
    ensures BlockSize(g, level) > 0
  {}

  /** The entry that the code finds at `level` is on the path of the block. */
  lemma FoundIsOnPath(c: Cfg, r: Region, words0: seq<nat>, words: seq<nat>, t: Tree, done: nat, level: nat)
    requires InBlock(c, r, words0, words, t, done, level)
    requires PathTo(c, words, level, r.virt + done).Some?
    ensures var i := PathTo(c, words, level, r.virt + done).value;
            OnPath(c, words, t, i, IndexAt(c.g, level, r.virt + done), r.virt + done) && t.lev[i] == level
            && WordIndex(c.g, i, IndexAt(c.g, level, r.virt + done)) < |words|
  {
    hide SlotOf, OffsetIn, InReach, RoundUp, BlockSize, PathTo, Walk, IndexAt, RegionOf;
    BlockInReach(c, r, words0, words, t, done);
    assert InReach(c, r.virt + done) by { BlockPositive(c.g, r.maxLevel); }
    PathInv(c, words, t, level, r.virt + done);
  }

  /** Visiting an entry above the leaf level. */
  lemma UpperStep(c: Cfg, r: Region, words0: seq<nat>, words: seq<nat>, words': seq<nat>, t: Tree, t': Tree,
                  done: nat, level: nat, i: nat, k: nat, n0: nat)
    requires InBlock(c, r, words0, words, t, done, level) && level < r.maxLevel
    requires OnPath(c, words, t, i, k, r.virt + done) && t.lev[i] == level && WordIndex(c.g, i, k) < |words|
    requires Visited(c, words, words', t, t', i, k)
    ensures InBlock(c, r, words0, words', t', done, level + 1)
    ensures WithinSpent(c, r, n0, |t.lev|, done, level) ==> WithinSpent(c, r, n0, |t'.lev|, done, level + 1)
  {
    hide SlotOf, OffsetIn, InReach, RoundUp, BlockSize, PathTo, Walk, IndexAt, RegionOf, Decode, Inv, WordIndex, Linked;
    var virt, L := r.virt + done, r.maxLevel;
    BlockInReach(c, r, words0, words, t, done);
    BlockPositive(c.g, L);
    VisitExtendsPath(c, words, words', t, t', i, k, L, virt);
    SpentVisit(c.g, c.start, level, L, r.virt, virt);
    if Decode(c.g, level, words[WordIndex(c.g, i, k)]).Invalid? {
      NewTableSpent(c, r, words0, words, t, done, level, i, k, n0);
    }
  }

  /** Where an entry is invalid, the account has room for the table it needs. */
  lemma NewTableSpent(c: Cfg, r: Region, words0: seq<nat>, words: seq<nat>, t: Tree,
                      done: nat, level: nat, i: nat, k: nat, n0: nat)
    requires InBlock(c, r, words0, words, t, done, level) && level < r.maxLevel
    requires OnPath(c, words, t, i, k, r.virt + done) && t.lev[i] == level && WordIndex(c.g, i, k) < |words|
    requires Decode(c.g, level, words[WordIndex(c.g, i, k)]).Invalid?
    ensures WithinSpent(c, r, n0, |t.lev|, done, level) ==> WithinSpent(c, r, n0, |t.lev| + 1, done, level + 1)
  {
    hide SlotOf, OffsetIn, InReach, RoundUp, BlockSize, PathTo, Walk, IndexAt, RegionOf, Decode, Inv, WordIndex;
    var virt, L := r.virt + done, r.maxLevel;
    BlockInReach(c, r, words0, words, t, done);
    BlockPositive(c.g, L);
    SpentVisit(c.g, c.start, level, L, r.virt, virt);
    if done > 0 {
      VisitIsNewSlot(c, words, t, i, k, L, virt - BlockSize(c.g, L), virt);
    }
  }

  /** Writing the leaf completes the block. */
  lemma LeafStep(c: Cfg, r: Region, words0: seq<nat>, words: seq<nat>, t: Tree, done: nat, i: nat, k: nat, n0: nat)
    requires InBlock(c, r, words0, words, t, done, r.maxLevel)
    requires OnPath(c, words, t, i, k, r.virt + done) && t.lev[i] == r.maxLevel && WordIndex(c.g, i, k) < |words|
    ensures var words' := words[WordIndex(c.g, i, k) := PteLeaf(r.phys + done, r.attrs, r.maxLevel)];
            Progress(c, r, words0, words', t, done + BlockSize(c.g, r.maxLevel))
    ensures WithinSpent(c, r, n0, |t.lev|, done, r.maxLevel) ==>
              WithinSpent(c, r, n0, |t.lev|, done + BlockSize(c.g, r.maxLevel), c.start)
  {
    hide SlotOf, OffsetIn, InReach, RoundUp, BlockSize, PathTo, Walk, IndexAt, RegionOf, Decode, Inv, WordIndex,
      PteLeaf;
    var virt, L, B := r.virt + done, r.maxLevel, BlockSize(c.g, r.maxLevel);
    BlockInReach(c, r, words0, words, t, done);
    BlockPositive(c.g, L);
    LeafMapsBlock(c, r, words0, words, t, i, k, virt);
    SpentNext(c.g, c.start, c.start, L, r.virt, virt);
    forall va: nat | r.virt <= va < virt + B
      ensures !Blocked(c, words0, L, va)
    {
      if virt <= va {
        SlotIsBlock(c.g, L, virt, va);
        PathIsUnblocked(c, words, t, L, virt, va);
      }
    }
  }
}
