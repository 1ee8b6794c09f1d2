/**
  The meaning of a pool of translation tables: the hardware walk, the invariant
  that the builder keeps, and what each kind of write does to every translation.
  */
module PageTables {
  import opened Options
  import opened Bits
  import opened MmuFormat

  /** Where the pool starts, its granule, and the level of the root table at its start. */
  datatype Cfg = Cfg(g: Granule, base: nat, start: nat)

  /** For every table of the pool: its level, the number of the slot one level up that it
      refines (counted from address 0), and the entry that was made to point at it. */
  datatype Tree = Tree(lev: seq<nat>, pre: seq<nat>, par: seq<(nat, nat)>)

  /** What a virtual address translates to; `level` is where the walk found the leaf. */
  datatype Xlat = Fault | Mapped(pa: nat, attrs: nat, level: nat)

  // ----- addressing -----

  /** The pool word of slot `k` of table `j`. */
  function WordIndex(g: Granule, j: nat, k: nat): nat {
    if g == G4K then 512 * j + k else 8192 * j + k
  }

  function TableAddr(c: Cfg, j: nat): nat {
    c.base + if c.g == G4K then 4096 * j else 65536 * j
  }

  function PageOf(c: Cfg, a: nat): nat
    requires c.base <= a
  {
    SlotOf(c.g, 3, a - c.base)
  }

  function IndexAt(g: Granule, level: nat, va: nat): (k: nat)
    requires level <= 3
    ensures k < Entries(g)
  {
    SlotOf(g, level, va) % Entries(g)
  }

  /** The slot one level up in which `va` lies: the region one table of `level` covers. */
  function RegionOf(g: Granule, level: nat, va: nat): nat
    requires level <= 3
  {
    SlotOf(g, level, va) / Entries(g)
  }

  /** The virtual addresses the root table covers. */
  predicate InReach(c: Cfg, va: nat)
    requires c.start <= 3
  {
    SlotOf(c.g, c.start, va) < Entries(c.g)
  }

  predicate CfgOk(c: Cfg) {
    && c.start < 3
    && (c.g == G64K ==> c.start >= 1)
    && c.base > 0
    && OffsetIn(c.g, 3, c.base) == 0
  }

  // ----- the hardware walk -----

  /** The word at address `a`; addresses outside the pool read as an invalid descriptor. */
  function Load(c: Cfg, words: seq<nat>, a: nat): nat {
    if c.base <= a && (a - c.base) / 8 < |words| then words[(a - c.base) / 8] else 0
  }

  function Walk(c: Cfg, words: seq<nat>, level: nat, table: nat, va: nat): Xlat
    requires level <= 3
    decreases 3 - level
  {
    match Decode(c.g, level, Load(c, words, table + 8 * IndexAt(c.g, level, va)))
    case Invalid => Fault
    case Leaf(out, attrs) => Mapped(out + OffsetIn(c.g, level, va), attrs, level)
    case Next(t) => if level < 3 then Walk(c, words, level + 1, t, va) else Fault
  }

  function Translate(c: Cfg, words: seq<nat>, va: nat): Xlat
    requires c.start <= 3
  {
    Walk(c, words, c.start, c.base, va)
  }

  // ----- the invariant -----

  ghost predicate SlotOk(c: Cfg, words: seq<nat>, t: Tree, j: nat, k: nat)
    requires j < |t.lev| == |t.pre| == |t.par| && t.lev[j] <= 3
    requires WordIndex(c.g, j, k) < |words|
  {
    var w := words[WordIndex(c.g, j, k)];
    var e := Decode(c.g, t.lev[j], w);
    && (e.Invalid? ==> w % 4 == 0)
    && (e.Next? ==>
          && c.base <= e.table
          && var child := PageOf(c, e.table);
          && 0 < child < |t.lev|
          && e.table == TableAddr(c, child)
          && t.lev[child] == t.lev[j] + 1
          && t.pre[child] == WordIndex(c.g, t.pre[j], k)
          && t.par[child] == (j, k))
  }

  ghost predicate Inv(c: Cfg, words: seq<nat>, t: Tree) {
    && CfgOk(c)
    && 1 <= |t.lev| == |t.pre| == |t.par|
    && WordIndex(c.g, |t.lev|, 0) <= |words|
    && c.base + 8 * |words| <= PHYS_LIMIT
    && t.lev[0] == c.start && t.pre[0] == 0
    && (forall j :: 0 <= j < |t.lev| ==> c.start <= t.lev[j] <= 3)
    && (forall j, k {:trigger SlotOk(c, words, t, j, k)} ::
          0 <= j < |t.lev| && 0 <= k < Entries(c.g) ==> SlotOk(c, words, t, j, k))
  }

  /** The table that a walk of `va` reaches at `level`, if it gets there. */
  function PathTo(c: Cfg, words: seq<nat>, level: nat, va: nat): Option<nat>
    requires c.start <= level <= 3
    decreases level
  {
    if level == c.start then Some(0)
    else
      match PathTo(c, words, level - 1, va)
      case None => None
      case Some(j) =>
        var i := WordIndex(c.g, j, IndexAt(c.g, level - 1, va));
        if i >= |words| then None
        else
          match Decode(c.g, level - 1, words[i])
          case Next(a) => if c.base <= a then Some(PageOf(c, a)) else None
          case _ => None
  }

  // ----- arithmetic of slots -----

  lemma SplitSlot(g: Granule, level: nat, va: nat)
    requires level <= 3
    ensures WordIndex(g, RegionOf(g, level, va), IndexAt(g, level, va)) == SlotOf(g, level, va)
    ensures level < 3 ==> RegionOf(g, level + 1, va) == SlotOf(g, level, va)
  {
    if level < 3 { SlotNesting(g, level, va); }
  }

  lemma RootRegion(c: Cfg, va: nat)
    requires c.start <= 3 && InReach(c, va)
    ensures RegionOf(c.g, c.start, va) == 0
  {}

  lemma WordIndexInjective(g: Granule, j: nat, k: nat, j': nat, k': nat)
    requires k < Entries(g) && k' < Entries(g)
    ensures WordIndex(g, j, k) == WordIndex(g, j', k') ==> j == j' && k == k'
  {}

  lemma LoadSlot(c: Cfg, words: seq<nat>, j: nat, k: nat)
    requires k < Entries(c.g) && WordIndex(c.g, j, k) < |words|
    ensures Load(c, words, TableAddr(c, j) + 8 * k) == words[WordIndex(c.g, j, k)]
  {}

  lemma RootAddress(c: Cfg)
    ensures TableAddr(c, 0) == c.base
  {}

  lemma PageOfTable(c: Cfg, j: nat)
    ensures c.base <= TableAddr(c, j) && PageOf(c, TableAddr(c, j)) == j
  {}

  lemma SameSlotAbove(g: Granule, level: nat, above: nat, a: nat, b: nat)
    requires above <= level <= 3 && SlotOf(g, level, a) == SlotOf(g, level, b)
    ensures SlotOf(g, above, a) == SlotOf(g, above, b)
    decreases level - above
  {
    if above < level {
      SlotNesting(g, level - 1, a);
      SlotNesting(g, level - 1, b);
      SameSlotAbove(g, level - 1, above, a, b);
    }
  }

  // ----- paths -----

  /** A table on the path of `va` is the one for `va`'s slot. */
  lemma {:induction false} PathInv(c: Cfg, words: seq<nat>, t: Tree, level: nat, va: nat)
    requires Inv(c, words, t) && c.start <= level <= 3 && InReach(c, va)
    ensures PathTo(c, words, level, va).Some? ==>
              var j := PathTo(c, words, level, va).value;
              j < |t.lev| && t.lev[j] == level && t.pre[j] == RegionOf(c.g, level, va)
    decreases level
  {
    if level > c.start && PathTo(c, words, level, va).Some? {
      PathInv(c, words, t, level - 1, va);
      var j := PathTo(c, words, level - 1, va).value;
      var k := IndexAt(c.g, level - 1, va);
      assert SlotOk(c, words, t, j, k);
      SplitSlot(c.g, level - 1, va);
    } else {
      RootRegion(c, va);
    }
  }

  /** Two addresses in one slot of `level` reach the same table there. */
  lemma {:induction false} PathSameSlot(c: Cfg, words: seq<nat>, level: nat, a: nat, b: nat)
    requires c.start <= level <= 3 && SlotOf(c.g, level, a) == SlotOf(c.g, level, b)
    ensures PathTo(c, words, level, a) == PathTo(c, words, level, b)
    decreases level
  {
    if level > c.start {
      SameSlotAbove(c.g, level, level - 1, a, b);
      PathSameSlot(c, words, level - 1, a, b);
    }
  }

  /** The hardware walk follows the path. */
  lemma {:induction false} WalkFollowsPath(c: Cfg, words: seq<nat>, t: Tree, level: nat, va: nat)
    requires Inv(c, words, t) && c.start <= level <= 3 && InReach(c, va)
    ensures PathTo(c, words, level, va).Some? ==>
              Translate(c, words, va) == Walk(c, words, level, TableAddr(c, PathTo(c, words, level, va).value), va)
    decreases level
  {
    hide SlotOf, OffsetIn, Decode, Load, TableAddr, IndexAt, RegionOf;
    assert TableAddr(c, 0) == c.base by { RootAddress(c); }
    if level > c.start && PathTo(c, words, level, va).Some? {
      WalkFollowsPath(c, words, t, level - 1, va);
      PathInv(c, words, t, level - 1, va);
      var j := PathTo(c, words, level - 1, va).value;
      var k := IndexAt(c.g, level - 1, va);
      assert SlotOk(c, words, t, j, k);
      LoadSlot(c, words, j, k);
    }
  }

  /** One step of the walk, by table and slot number. */
  lemma WalkStep(c: Cfg, words: seq<nat>, j: nat, level: nat, va: nat)
    requires level <= 3 && WordIndex(c.g, j, IndexAt(c.g, level, va)) < |words|
    ensures Walk(c, words, level, TableAddr(c, j), va) ==
            match Decode(c.g, level, words[WordIndex(c.g, j, IndexAt(c.g, level, va))])
            case Invalid => Fault
            case Leaf(out, attrs) => Mapped(out + OffsetIn(c.g, level, va), attrs, level)
            case Next(t) => if level < 3 then Walk(c, words, level + 1, t, va) else Fault
  {
    hide SlotOf, OffsetIn, Decode, Load, TableAddr, IndexAt, RegionOf;
    LoadSlot(c, words, j, IndexAt(c.g, level, va));
  }

  /** A leaf found by a walk that starts at `level` is at `level` or deeper. */
  lemma {:induction false} WalkLevel(c: Cfg, words: seq<nat>, level: nat, table: nat, va: nat)
    requires level <= 3
    ensures Walk(c, words, level, table, va).Mapped? ==> level <= Walk(c, words, level, table, va).level <= 3
    decreases 3 - level
  {
    match Decode(c.g, level, Load(c, words, table + 8 * IndexAt(c.g, level, va)))
    case Next(t) => if level < 3 { WalkLevel(c, words, level + 1, t, va); }
    case _ =>
  }

  // ----- frames -----

  /** All slots of the first `n` tables but (i, k) hold the same words. */
  ghost predicate SameBut(g: Granule, words: seq<nat>, words': seq<nat>, n: nat, i: nat, k: nat) {
    && |words'| == |words|
    && WordIndex(g, n, 0) <= |words|
    && forall j, k' {:trigger WordIndex(g, j, k')} ::
         0 <= j < n && 0 <= k' < Entries(g) && (j, k') != (i, k) ==>
           words'[WordIndex(g, j, k')] == words[WordIndex(g, j, k')]
  }

  /** A write to slot (i, k) is invisible to walks that do not enter the region of that slot. */
  lemma {:induction false} WalkFrame(c: Cfg, words: seq<nat>, words': seq<nat>, t: Tree, i: nat, k: nat,
                                     j: nat, level: nat, va: nat)
    requires Inv(c, words, t) && SameBut(c.g, words, words', |t.lev|, i, k)
    requires i < |t.lev| && k < Entries(c.g)
    requires j < |t.lev| && t.lev[j] == level <= 3
    requires t.pre[j] == RegionOf(c.g, level, va)
    requires SlotOf(c.g, t.lev[i], va) != WordIndex(c.g, t.pre[i], k)
    ensures Walk(c, words', level, TableAddr(c, j), va) == Walk(c, words, level, TableAddr(c, j), va)
    decreases 3 - level
  {
    hide SlotOf, OffsetIn, Decode, Load, TableAddr, IndexAt, RegionOf;
    var x := IndexAt(c.g, level, va);
    SplitSlot(c.g, level, va);
    assert (j, x) != (i, k);
    assert words'[WordIndex(c.g, j, x)] == words[WordIndex(c.g, j, x)];
    WalkStep(c, words, j, level, va);
    WalkStep(c, words', j, level, va);
    assert SlotOk(c, words, t, j, x);
    var e := Decode(c.g, level, words[WordIndex(c.g, j, x)]);
    if e.Next? && level < 3 {
      WalkFrame(c, words, words', t, i, k, PageOf(c, e.table), level + 1, va);
    }
  }

  /** A write to a table of level `lev[i]` does not change paths down to that level. */
  lemma {:induction false} PathFrame(c: Cfg, words: seq<nat>, words': seq<nat>, t: Tree, i: nat, k: nat,
                                     level: nat, va: nat)
    requires Inv(c, words, t) && SameBut(c.g, words, words', |t.lev|, i, k)
    requires i < |t.lev| && k < Entries(c.g) && InReach(c, va)
    requires c.start <= level <= t.lev[i]
    ensures PathTo(c, words', level, va) == PathTo(c, words, level, va)
    decreases level
  {
    hide SlotOf, Decode, IndexAt, RegionOf;
    if level > c.start {
      PathFrame(c, words, words', t, i, k, level - 1, va);
      PathInv(c, words, t, level - 1, va);
      if PathTo(c, words, level - 1, va).Some? {
        var j := PathTo(c, words, level - 1, va).value;
        assert j != i;
        var x := IndexAt(c.g, level - 1, va);
        assert words'[WordIndex(c.g, j, x)] == words[WordIndex(c.g, j, x)];
      }
    }
  }

  /** A write to slot (i, k) does not change paths that do not enter the region of that slot. */
  lemma {:induction false} PathFrameOutside(c: Cfg, words: seq<nat>, words': seq<nat>, t: Tree, i: nat, k: nat,
                                            level: nat, va: nat)
    requires Inv(c, words, t) && SameBut(c.g, words, words', |t.lev|, i, k)
    requires i < |t.lev| && k < Entries(c.g) && InReach(c, va)
    requires SlotOf(c.g, t.lev[i], va) != WordIndex(c.g, t.pre[i], k)
    requires c.start <= level <= 3
    ensures PathTo(c, words', level, va) == PathTo(c, words, level, va)
    decreases level
  {
    hide SlotOf, Decode, IndexAt, RegionOf;
    if level > c.start {
      PathFrameOutside(c, words, words', t, i, k, level - 1, va);
      PathInv(c, words, t, level - 1, va);
      if PathTo(c, words, level - 1, va).Some? {
        var j := PathTo(c, words, level - 1, va).value;
        SplitSlot(c.g, level - 1, va);
        var x := IndexAt(c.g, level - 1, va);
        assert (j, x) != (i, k);
        assert words'[WordIndex(c.g, j, x)] == words[WordIndex(c.g, j, x)];
      }
    }
  }

  // ----- the two writes -----

  /** Slot (i, k) is the one that the walk of `va` reads at level `lev[i]`. */
  ghost predicate OnPath(c: Cfg, words: seq<nat>, t: Tree, i: nat, k: nat, va: nat) {
    && Inv(c, words, t) && InReach(c, va)
    && i < |t.lev|
    && PathTo(c, words, t.lev[i], va) == Some(i)
    && k == IndexAt(c.g, t.lev[i], va)
  }

  lemma SlotOnPath(c: Cfg, words: seq<nat>, t: Tree, i: nat, k: nat, virt: nat, va: nat)
    requires OnPath(c, words, t, i, k, virt)
    ensures WordIndex(c.g, t.pre[i], k) == SlotOf(c.g, t.lev[i], virt)
  {
    PathInv(c, words, t, t.lev[i], virt);
    SplitSlot(c.g, t.lev[i], virt);
  }

  lemma UpdateIsSameBut(g: Granule, words: seq<nat>, n: nat, i: nat, k: nat, v: nat)
    requires i < n && k < Entries(g) && WordIndex(g, n, 0) <= |words|
    ensures WordIndex(g, i, k) < |words|
    ensures SameBut(g, words, words[WordIndex(g, i, k) := v], n, i, k)
  {
    forall j, k' | 0 <= j < n && 0 <= k' < Entries(g) && (j, k') != (i, k)
      ensures WordIndex(g, j, k') < |words| && WordIndex(g, j, k') != WordIndex(g, i, k)
    {
      WordIndexInjective(g, i, k, j, k');
    }
  }

  /** Writing a leaf changes exactly the translations of its slot, to the leaf's. */
  lemma SetLeaf(c: Cfg, words: seq<nat>, t: Tree, i: nat, k: nat, virt: nat, v: nat)
    requires OnPath(c, words, t, i, k, virt)
    requires Decode(c.g, t.lev[i], v).Leaf?
    ensures WordIndex(c.g, i, k) < |words|
    ensures var words' := words[WordIndex(c.g, i, k) := v];
            && Inv(c, words', t)
            && (forall va {:trigger Translate(c, words', va)} :: InReach(c, va) ==>
                  Translate(c, words', va) ==
                  if SlotOf(c.g, t.lev[i], va) == SlotOf(c.g, t.lev[i], virt)
                  then var e := Decode(c.g, t.lev[i], v);
                       Mapped(e.out + OffsetIn(c.g, t.lev[i], va), e.attrs, t.lev[i])
                  else Translate(c, words, va))
            && (forall va {:trigger PathTo(c, words', t.lev[i], va)} :: InReach(c, va) ==>
                  PathTo(c, words', t.lev[i], va) == PathTo(c, words, t.lev[i], va))
  {
    hide SlotOf, OffsetIn, Decode, Load, TableAddr, IndexAt, RegionOf, PathTo, Walk, Inv, InReach;
    var L := t.lev[i];
    PathFacts(c, words, t, i, k, virt);
    SetLeafKeepsInv(c, words, t, i, k, v);
    forall va | InReach(c, va)
      ensures PathTo(c, words[WordIndex(c.g, i, k) := v], L, va) == PathTo(c, words, L, va)
      ensures Translate(c, words[WordIndex(c.g, i, k) := v], va) ==
              if SlotOf(c.g, L, va) == SlotOf(c.g, L, virt)
              then var e := Decode(c.g, L, v); Mapped(e.out + OffsetIn(c.g, L, va), e.attrs, L)
              else Translate(c, words, va)
    {
      SetLeafAt(c, words, t, i, k, virt, v, va);
    }
  }

  lemma PathFacts(c: Cfg, words: seq<nat>, t: Tree, i: nat, k: nat, va: nat)
    requires OnPath(c, words, t, i, k, va)
    ensures Inv(c, words, t) && i < |t.lev| && k < Entries(c.g) && c.start <= t.lev[i] <= 3
    ensures WordIndex(c.g, i, k) < |words|
  {
    hide SlotOf, OffsetIn, Decode;
    assert SlotOk(c, words, t, i, k);
  }

  /** The effect of a leaf on one address. */
  lemma SetLeafAt(c: Cfg, words: seq<nat>, t: Tree, i: nat, k: nat, virt: nat, v: nat, va: nat)
    requires OnPath(c, words, t, i, k, virt) && InReach(c, va) && WordIndex(c.g, i, k) < |words|
    requires Decode(c.g, t.lev[i], v).Leaf?
    ensures var words', L := words[WordIndex(c.g, i, k) := v], t.lev[i];
            && PathTo(c, words', L, va) == PathTo(c, words, L, va)
            && Translate(c, words', va) ==
               if SlotOf(c.g, L, va) == SlotOf(c.g, L, virt)
               then var e := Decode(c.g, L, v); Mapped(e.out + OffsetIn(c.g, L, va), e.attrs, L)
               else Translate(c, words, va)
  {
    hide SlotOf, OffsetIn, Decode;
    var words', L := words[WordIndex(c.g, i, k) := v], t.lev[i];
    UpdateIsSameBut(c.g, words, |t.lev|, i, k, v);
    SetLeafKeepsInv(c, words, t, i, k, v);
    SlotOnPath(c, words, t, i, k, virt, virt);
    PathFrame(c, words, words', t, i, k, L, va);
    if SlotOf(c.g, L, va) == SlotOf(c.g, L, virt) {
      PathSameSlot(c, words, L, va, virt);
      WalkFollowsPath(c, words', t, L, va);
      WalkStep(c, words', i, L, va);
    } else {
      RootFrame(c, words, words', t, i, k, va);
    }
  }

  lemma RootFrame(c: Cfg, words: seq<nat>, words': seq<nat>, t: Tree, i: nat, k: nat, va: nat)
    requires Inv(c, words, t) && SameBut(c.g, words, words', |t.lev|, i, k)
    requires i < |t.lev| && k < Entries(c.g) && InReach(c, va)
    requires SlotOf(c.g, t.lev[i], va) != WordIndex(c.g, t.pre[i], k)
    ensures Translate(c, words', va) == Translate(c, words, va)
  {
    assert TableAddr(c, 0) == c.base;
    RootRegion(c, va);
    WalkFrame(c, words, words', t, i, k, 0, c.start, va);
  }

  lemma SetLeafKeepsInv(c: Cfg, words: seq<nat>, t: Tree, i: nat, k: nat, v: nat)
    requires Inv(c, words, t) && i < |t.lev| && k < Entries(c.g)
    requires WordIndex(c.g, i, k) < |words|
    requires Decode(c.g, t.lev[i], v).Leaf?
    ensures Inv(c, words[WordIndex(c.g, i, k) := v], t)
  {
    var words' := words[WordIndex(c.g, i, k) := v];
    UpdateIsSameBut(c.g, words, |t.lev|, i, k, v);
    forall j, k' | 0 <= j < |t.lev| && 0 <= k' < Entries(c.g)
      ensures SlotOk(c, words', t, j, k')
    {
      assert SlotOk(c, words, t, j, k');
      WordIndexInjective(c.g, i, k, j, k');
    }
  }

  /** The tree after table `|lev|` has been hung below slot (i, k). */
  function Grow(g: Granule, t: Tree, i: nat, k: nat): Tree
    requires i < |t.lev| == |t.pre|
  {
    Tree(t.lev + [t.lev[i] + 1], t.pre + [WordIndex(g, t.pre[i], k)], t.par + [(i, k)])
  }

  /** `words'` is `words` with a zeroed table `|lev|` hung below the invalid entry (i, k). */
  ghost predicate Linked(c: Cfg, words: seq<nat>, words': seq<nat>, t: Tree, i: nat, k: nat) {
    var n := |t.lev|;
    && Inv(c, words, t)
    && i < n && k < Entries(c.g) && t.lev[i] < 3
    && WordIndex(c.g, n + 1, 0) <= |words|
    && SameBut(c.g, words, words', n, i, k)
    && Decode(c.g, t.lev[i], words[WordIndex(c.g, i, k)]).Invalid?
    && words'[WordIndex(c.g, i, k)] == PteTable(TableAddr(c, n))
    && forall k' {:trigger WordIndex(c.g, n, k')} ::
         0 <= k' < Entries(c.g) ==> words'[WordIndex(c.g, n, k')] == 0
  }

  lemma NewTableAddress(c: Cfg, n: nat, len: nat)
    requires CfgOk(c) && WordIndex(c.g, n + 1, 0) <= len && c.base + 8 * len <= PHYS_LIMIT
    ensures OffsetIn(c.g, 3, TableAddr(c, n)) == 0 && TableAddr(c, n) < PHYS_LIMIT
  {
    var s := BlockSize(c.g, 3);
    var q := SlotOf(c.g, 3, c.base);
    SlotAndOffset(c.g, 3, c.base);
    assert TableAddr(c, n) == (q + n) * s by {
      assert TableAddr(c, n) == q * s + n * s;
    }
    DivModUnique(TableAddr(c, n), s, q + n, 0);
  }

  lemma LinkKeepsInv(c: Cfg, words: seq<nat>, words': seq<nat>, t: Tree, i: nat, k: nat)
    requires Linked(c, words, words', t, i, k)
    ensures Inv(c, words', Grow(c.g, t, i, k))
  {
    var n := |t.lev|;
    var t' := Grow(c.g, t, i, k);
    NewTableAddress(c, n, |words|);
    TablePointerRoundTrip(c.g, TableAddr(c, n));
    PageOfTable(c, n);
    forall j, k' | 0 <= j < |t'.lev| && 0 <= k' < Entries(c.g)
      ensures SlotOk(c, words', t', j, k')
    {
      if j == n {
        assert words'[WordIndex(c.g, n, k')] == 0;
      } else if (j, k') == (i, k) {
      } else {
        assert SlotOk(c, words, t, j, k');
      }
    }
  }

  /** Addresses below the new table faulted before and fault now, one level further down. */
  lemma LinkInside(c: Cfg, words: seq<nat>, words': seq<nat>, t: Tree, i: nat, k: nat, va: nat)
    requires Linked(c, words, words', t, i, k) && OnPath(c, words, t, i, k, va)
    ensures Translate(c, words, va) == Fault == Translate(c, words', va)
    ensures PathTo(c, words, t.lev[i] + 1, va) == None
    ensures PathTo(c, words', t.lev[i] + 1, va) == Some(|t.lev|)
  {
    hide SlotOf, OffsetIn, Decode, Load, TableAddr, IndexAt, RegionOf;
    var n, L := |t.lev|, t.lev[i];
    PathFrame(c, words, words', t, i, k, L, va);
    NewTableAddress(c, n, |words|);
    TablePointerRoundTrip(c.g, TableAddr(c, n));
    PageOfTable(c, n);
    LinkKeepsInv(c, words, words', t, i, k);
    WalkFollowsPath(c, words, t, L, va);
    WalkStep(c, words, i, L, va);
    NewTableFaults(c, words', n, L + 1, va);
    WalkFollowsPath(c, words', Grow(c.g, t, i, k), L + 1, va);
  }

  lemma NewTableFaults(c: Cfg, words: seq<nat>, n: nat, level: nat, va: nat)
    requires level <= 3 && WordIndex(c.g, n + 1, 0) <= |words|
    requires forall k' {:trigger WordIndex(c.g, n, k')} ::
               0 <= k' < Entries(c.g) ==> words[WordIndex(c.g, n, k')] == 0
    ensures Walk(c, words, level, TableAddr(c, n), va) == Fault
  {
    hide SlotOf, OffsetIn, Load, TableAddr, IndexAt;
    WalkStep(c, words, n, level, va);
    assert words[WordIndex(c.g, n, IndexAt(c.g, level, va))] == 0;
  }

  /** A path that stops above `level` does not reach it. */
  lemma {:induction false} PathStops(c: Cfg, words: seq<nat>, above: nat, level: nat, va: nat)
    requires c.start <= above <= level <= 3 && PathTo(c, words, above, va) == None
    ensures PathTo(c, words, level, va) == None
    decreases level
  {
    if above < level { PathStops(c, words, above, level - 1, va); }
  }

  lemma LinkAt(c: Cfg, words: seq<nat>, words': seq<nat>, t: Tree, i: nat, k: nat, virt: nat, level: nat, va: nat)
    requires Linked(c, words, words', t, i, k) && OnPath(c, words, t, i, k, virt)
    requires InReach(c, va) && c.start <= level <= 3
    ensures Translate(c, words', va) == Translate(c, words, va)
    ensures PathTo(c, words, level, va).Some? ==> PathTo(c, words', level, va) == PathTo(c, words, level, va)
  {
    hide SlotOf, Decode, IndexAt, RegionOf, Walk;
    var L := t.lev[i];
    if SlotOf(c.g, L, va) == SlotOf(c.g, L, virt) {
      PathSameSlot(c, words, L, va, virt);
      SameIndex(c.g, L, va, virt);
      LinkInside(c, words, words', t, i, k, va);
      if level <= L {
        PathFrame(c, words, words', t, i, k, level, va);
      } else {
        PathStops(c, words, L + 1, level, va);
      }
    } else {
      SlotOnPath(c, words, t, i, k, virt, virt);
      RootFrame(c, words, words', t, i, k, va);
      PathFrameOutside(c, words, words', t, i, k, level, va);
    }
  }

  lemma SameIndex(g: Granule, level: nat, a: nat, b: nat)
    requires level <= 3 && SlotOf(g, level, a) == SlotOf(g, level, b)
    ensures IndexAt(g, level, a) == IndexAt(g, level, b)
  {}

  /** Hanging a zeroed table below an invalid entry keeps the invariant and every translation,
      extends the path of the address being mapped, and breaks no other path. */
  lemma LinkTable(c: Cfg, words: seq<nat>, words': seq<nat>, t: Tree, i: nat, k: nat, virt: nat)
    requires Linked(c, words, words', t, i, k) && OnPath(c, words, t, i, k, virt)
    ensures Inv(c, words', Grow(c.g, t, i, k))
    ensures PathTo(c, words', t.lev[i] + 1, virt) == Some(|t.lev|)
    ensures forall va {:trigger Translate(c, words', va)} :: InReach(c, va) ==>
              Translate(c, words', va) == Translate(c, words, va)
    ensures forall level, va {:trigger PathTo(c, words', level, va)} ::
              c.start <= level <= 3 && InReach(c, va) && PathTo(c, words, level, va).Some? ==>
                PathTo(c, words', level, va) == PathTo(c, words, level, va)
  {
    LinkKeepsInv(c, words, words', t, i, k);
    LinkInside(c, words, words', t, i, k, virt);
    forall va | InReach(c, va)
      ensures Translate(c, words', va) == Translate(c, words, va)
    {
      LinkAt(c, words, words', t, i, k, virt, c.start, va);
    }
    forall level, va | c.start <= level <= 3 && InReach(c, va) && PathTo(c, words, level, va).Some?
      ensures PathTo(c, words', level, va) == PathTo(c, words, level, va)
    {
      LinkAt(c, words, words', t, i, k, virt, level, va);
    }
  }

  // ----- the tables form a tree -----

  /** At most one entry points at a table; children are one level down, so no walk revisits a table. */
  lemma TablesFormATree(c: Cfg, words: seq<nat>, t: Tree, i: nat, k: nat, i': nat, k': nat)
    requires Inv(c, words, t) && i < |t.lev| && k < Entries(c.g) && i' < |t.lev| && k' < Entries(c.g)
    requires WordIndex(c.g, i, k) < |words| && WordIndex(c.g, i', k') < |words|
    requires var e := Decode(c.g, t.lev[i], words[WordIndex(c.g, i, k)]);
             e.Next? && e == Decode(c.g, t.lev[i'], words[WordIndex(c.g, i', k')])
    ensures (i, k) == (i', k')
    ensures var a := Decode(c.g, t.lev[i], words[WordIndex(c.g, i, k)]).table;
            exists child: nat :: 0 < child < |t.lev| && a == TableAddr(c, child) && t.lev[child] == t.lev[i] + 1
                                 && OffsetIn(c.g, 3, a) == 0 && a + TableBytes(c.g) <= c.base + 8 * |words|
  {
    hide SlotOf, Decode;
    assert SlotOk(c, words, t, i, k);
    assert SlotOk(c, words, t, i', k');
    var child := PageOf(c, Decode(c.g, t.lev[i], words[WordIndex(c.g, i, k)]).table);
    NewTableAddress(c, child, |words|);
  }

  /** Distinct tables occupy disjoint words. */
  lemma TablesAreDisjoint(c: Cfg, words: seq<nat>, t: Tree, j: nat, k: nat, j': nat, k': nat)
    requires Inv(c, words, t) && j < |t.lev| && j' < |t.lev| && j != j'
    requires k < Entries(c.g) && k' < Entries(c.g)
    ensures WordIndex(c.g, j, k) != WordIndex(c.g, j', k')
    ensures WordIndex(c.g, j, k) < |words|
  {
    WordIndexInjective(c.g, j, k, j', k');
  }
}
