/**
  Addresses past what the root table covers: the table indices drop their upper bits, so such an
  address is looked up, and translated, as its remainder within the root's reach.
  */
module Wrap {
  import opened Bits
  import opened MmuFormat
  import opened PageTables
  import opened Regions

  function Wrapped(c: Cfg, va: nat): (r: nat)
    requires c.start <= 3
    ensures r < Reach(c.g, c.start)
  {
    va % Reach(c.g, c.start)
  }

  /** How many slots of `level` the root covers. */
  function SlotsInReach(g: Granule, start: nat, level: nat): nat
    requires start <= level <= 3
  {
    if level == start then Entries(g) else SlotsInReach(g, start, level - 1) * Entries(g)
  }

  lemma {:induction false} ReachInSlots(c: Cfg, level: nat)
    requires CfgOk(c) && c.start <= level <= 3
    ensures SlotsInReach(c.g, c.start, level) * BlockSize(c.g, level) == Reach(c.g, c.start)
    ensures SlotsInReach(c.g, c.start, level) % Entries(c.g) == 0
    decreases level
  {
    if level > c.start {
      ReachInSlots(c, level - 1);
      SlotNesting(c.g, level - 1, 0);
      hide BlockSize, Reach;
      var n, e := SlotsInReach(c.g, c.start, level - 1), Entries(c.g);
      Associates(n, e, BlockSize(c.g, level));
      DivModUnique(n * e, e, n, 0);
    }
  }

  lemma Associates(n: nat, e: nat, b: nat)
    ensures n * (b * e) == (n * e) * b
  {}

  /** The table index and the offset of an address are those of its remainder. */
  lemma SlotWraps(c: Cfg, level: nat, va: nat)
    requires CfgOk(c) && c.start <= level <= 3
    ensures IndexAt(c.g, level, va) == IndexAt(c.g, level, Wrapped(c, va))
    ensures OffsetIn(c.g, level, va) == OffsetIn(c.g, level, Wrapped(c, va))
  {
    hide SlotOf, OffsetIn, BlockSize, Reach, SlotsInReach;
    var n, b := SlotsInReach(c.g, c.start, level), BlockSize(c.g, level);
    var q, r := va / Reach(c.g, c.start), Wrapped(c, va);
    ReachInSlots(c, level);
    SlotAndOffset(c.g, level, va);
    SlotAndOffset(c.g, level, r);
    Split(va, n, b, q, r, SlotOf(c.g, level, r), OffsetIn(c.g, level, r));
    QuotientUnique(b, q * n + SlotOf(c.g, level, r), OffsetIn(c.g, level, r),
                   SlotOf(c.g, level, va), OffsetIn(c.g, level, va));
    MultipleOf(q, n, Entries(c.g), SlotOf(c.g, level, r));
  }

  lemma Split(va: nat, n: nat, b: nat, q: nat, r: nat, k: nat, o: nat)
    requires n * b > 0 && q == va / (n * b) && r == va % (n * b) && r == k * b + o
    ensures va == (q * n + k) * b + o
  {
    assert va == q * (n * b) + r;
    assert q * (n * b) == (q * n) * b;
    assert (q * n + k) * b == (q * n) * b + k * b;
  }

  lemma MultipleOf(q: nat, n: nat, e: nat, k: nat)
    requires e > 0 && n % e == 0
    ensures (q * n + k) % e == k % e
  {
    var m := n / e;
    assert q * n == (q * m) * e by { assert n == m * e; }
    assert (q * m + k / e) * e == (q * m) * e + k / e * e;
    DivModUnique(q * n + k, e, q * m + k / e, k % e);
  }

  /** The hardware's walk. */
  lemma {:induction false} WalkWraps(c: Cfg, words: seq<nat>, level: nat, table: nat, va: nat)
    requires CfgOk(c) && c.start <= level <= 3
    ensures Walk(c, words, level, table, va) == Walk(c, words, level, table, Wrapped(c, va))
    decreases 3 - level
  {
    hide IndexAt, OffsetIn, Wrapped, Decode, Load;
    SlotWraps(c, level, va);
    match Decode(c.g, level, Load(c, words, table + 8 * IndexAt(c.g, level, va)))
    case Next(t) => if level < 3 { WalkWraps(c, words, level + 1, t, va); }
    case _ =>
  }

  /** The code's descent. */
  lemma {:induction false} PathWraps(c: Cfg, words: seq<nat>, level: nat, va: nat)
    requires CfgOk(c) && c.start <= level <= 3
    ensures PathTo(c, words, level, va) == PathTo(c, words, level, Wrapped(c, va))
    decreases level
  {
    hide IndexAt, OffsetIn, Wrapped, Decode;
    if level > c.start {
      PathWraps(c, words, level - 1, va);
      SlotWraps(c, level - 1, va);
    }
  }

  lemma WrappedInReach(c: Cfg, va: nat)
    requires CfgOk(c)
    ensures InReach(c, Wrapped(c, va)) && (InReach(c, va) <==> Wrapped(c, va) == va)
  {
    hide InReach;
    ReachIsRoot(c, va);
    ReachIsRoot(c, Wrapped(c, va));
    if va < Reach(c.g, c.start) { DivModUnique(va, Reach(c.g, c.start), 0, va); }
  }

  /** Going on within the reach. */
  lemma WrappedAdd(c: Cfg, a: nat, d: nat)
    requires c.start <= 3 && Wrapped(c, a) + d < Reach(c.g, c.start)
    ensures Wrapped(c, a + d) == Wrapped(c, a) + d
  {
    var top := Reach(c.g, c.start);
    DivModUnique(a + d, top, a / top, Wrapped(c, a) + d);
  }

  // ----- regions -----

  /** Where a region comes to lie: the code looks its addresses up within the root's reach. */
  function Folded(c: Cfg, r: Region): Region
    requires c.start <= 3
  {
    r.(virt := Wrapped(c, r.virt))
  }

  function FoldedAll(c: Cfg, regions: seq<Region>): (fs: seq<Region>)
    requires c.start <= 3
    ensures |fs| == |regions|
    ensures forall i :: 0 <= i < |fs| ==> fs[i] == Folded(c, regions[i])
  {
    seq(|regions|, i requires 0 <= i < |regions| => Folded(c, regions[i]))
  }

  /** A list that starts within reach lies where it says. */
  lemma FoldedInReach(c: Cfg, regions: seq<Region>)
    requires c.start <= 3 && forall r :: r in regions ==> r.virt < Reach(c.g, c.start)
    ensures FoldedAll(c, regions) == regions
  {
    forall i | 0 <= i < |regions| ensures Folded(c, regions[i]) == regions[i] {
      DivModUnique(regions[i].virt, Reach(c.g, c.start), 0, regions[i].virt);
    }
  }
}
