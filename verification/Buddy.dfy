/** The buddy allocator of the dynamic linker, ba.c. */
module Buddy {
  import opened TreeIndex

  // ------------------------------ alignment ------------------------------

  /** x is a multiple of 2^k. */
  predicate Aligned(x: int, k: nat)
    decreases k
  { if k == 0 then true else x % 2 == 0 && Aligned(x / 2, k - 1) }

  /** Bit k of x. */
  predicate Bit(x: nat, k: nat)
  { if k == 0 then x % 2 == 1 else Bit(x / 2, k - 1) }

  /** BA_BUDDY_INDEX: x with bit k flipped. */
  function BuddyOf(x: nat, k: nat): int
  { if Bit(x, k) then x - Pow2(k) else x + Pow2(k) }

  lemma {:induction false} AlignedApart(x: int, y: int, k: nat)
    requires Aligned(x, k) && Aligned(y, k) && x < y
    ensures x + Pow2(k) <= y
    decreases k
  {
    if k > 0 { AlignedApart(x / 2, y / 2, k - 1); }
  }

  lemma {:induction false} AlignedLess(x: int, k: nat, j: nat)
    requires Aligned(x, k) && j <= k
    ensures Aligned(x, j)
    decreases k
  {
    if j > 0 { AlignedLess(x / 2, k - 1, j - 1); }
  }

  lemma {:induction false} AlignedSum(x: int, k: nat)
    requires Aligned(x, k)
    ensures Aligned(x + Pow2(k), k) && Aligned(x - Pow2(k), k)
    decreases k
  {
    if k > 0 {
      AlignedSum(x / 2, k - 1);
      assert (x + Pow2(k)) / 2 == x / 2 + Pow2(k - 1) && (x - Pow2(k)) / 2 == x / 2 - Pow2(k - 1);
    }
  }

  /** The buddy of an aligned x is the other half of an aligned region of twice the size. */
  lemma {:induction false} BuddyHalves(x: nat, k: nat)
    requires Aligned(x, k)
    ensures Bit(x, k) ==> Aligned(x - Pow2(k), k + 1) && x >= Pow2(k)
    ensures !Bit(x, k) ==> Aligned(x, k + 1)
    decreases k
  {
    if k > 0 {
      BuddyHalves(x / 2, k - 1);
      assert (x - Pow2(k)) / 2 == x / 2 - Pow2(k - 1);
      if Bit(x, k) { assert (x - Pow2(k)) % 2 == 0; }
    } else {
      assert Pow2(0) == 1;
      if x % 2 == 1 { assert Aligned((x - 1) / 2, 0); }
    }
  }

  lemma {:induction false} HalvesBuddy(x: nat, k: nat)
    requires Aligned(x, k + 1)
    ensures Aligned(x, k) && !Bit(x, k) && Bit(x + Pow2(k), k)
    decreases k
  {
    if k > 0 {
      HalvesBuddy(x / 2, k - 1);
      assert (x + Pow2(k)) / 2 == x / 2 + Pow2(k - 1);
    }
  }

  /** Two aligned regions are nested or disjoint. */
  lemma Nested(x: int, k: nat, y: int, j: nat)
    requires Aligned(x, k) && Aligned(y, j) && j <= k && x < y + Pow2(j) && y < x + Pow2(k)
    ensures x <= y && y + Pow2(j) <= x + Pow2(k)
  {
    AlignedLess(x, k, j);
    if y < x { AlignedApart(y, x, j); }
    AlignedSum(x, k);
    AlignedLess(x + Pow2(k), k, j);
    AlignedApart(y, x + Pow2(k), j);
  }

  // ------------------------------ layouts ------------------------------

  /** An entry of the bitmap. */
  datatype Bits = Bits(taken: bool, order: nat)

  /** The bitmap, and the entries that begin a block; the orders of other entries are stale. */
  datatype Layout = Layout(bits: seq<Bits>, heads: set<int>)

  predicate InRange(v: Layout, h: int) { 0 <= h < |v.bits| }

  ghost function Order(v: Layout, h: int): nat
    requires InRange(v, h)
  { v.bits[h].order }

  ghost function End(v: Layout, h: int): int
    requires InRange(v, h)
  { h + Pow2(Order(v, h)) }

  /** A naturally aligned block inside the bitmap, with another block or the end behind it. */
  ghost predicate BlockOk(v: Layout, h: int)
  {
    && InRange(v, h) && Aligned(h, Order(v, h)) && End(v, h) <= |v.bits|
    && (End(v, h) in v.heads || End(v, h) == |v.bits|)
  }

  ghost predicate Before(v: Layout, h: int, g: int)
    requires InRange(v, h)
  { h < g ==> End(v, h) <= g }

  /** The blocks tile the bitmap. Entries that begin no block are not marked allocated. */
  ghost predicate Tiled(v: Layout)
  {
    && (0 in v.heads || |v.bits| == 0)
    && (forall h {:trigger BlockOk(v, h)} :: h in v.heads ==> BlockOk(v, h))
    && (forall h, g {:trigger Before(v, h, g)} :: h in v.heads && g in v.heads && InRange(v, h) ==> Before(v, h, g))
    && (forall i :: InRange(v, i) && v.bits[i].taken ==> i in v.heads)
  }

  ghost predicate FreeHead(v: Layout, h: int) { h in v.heads && InRange(v, h) && !v.bits[h].taken }

  /** h and g are free buddies of equal order, which ba_free would have merged. */
  ghost predicate Mergeable(v: Layout, h: int, g: int)
  { FreeHead(v, h) && FreeHead(v, g) && Order(v, h) == Order(v, g) && g == BuddyOf(h, Order(v, h)) }

  /** No two free buddies have equal order, except that c may be one of them. */
  ghost predicate MergedBut(v: Layout, c: int)
  { forall h, g :: h != c && g != c ==> !Mergeable(v, h, g) }

  ghost predicate Canonical(v: Layout) { Tiled(v) && forall h, g :: !Mergeable(v, h, g) }

  lemma At(v: Layout, h: int, g: int)
    requires Tiled(v) && h in v.heads && g in v.heads
    ensures BlockOk(v, h) && BlockOk(v, g) && Before(v, h, g) && Before(v, g, h)
  {
    assert BlockOk(v, h) && BlockOk(v, g);
    assert Before(v, h, g) && Before(v, g, h);
  }

  /** Every entry is in a block. */
  lemma {:induction false} Covered(v: Layout, x: int, h: int) returns (g: int)
    requires Tiled(v) && h in v.heads && h <= x < |v.bits|
    ensures g in v.heads && BlockOk(v, g) && g <= x < End(v, g)
    decreases |v.bits| - h
  {
    hide Tiled;
    At(v, h, h);
    if x < End(v, h) { g := h; } else { g := Covered(v, x, End(v, h)); }
  }

  lemma CoveredAny(v: Layout, x: int) returns (g: int)
    requires Tiled(v) && InRange(v, x)
    ensures g in v.heads && BlockOk(v, g) && g <= x < End(v, g)
  {
    g := Covered(v, x, 0);
  }

  /** The block at c and an aligned region that starts in it or in which it starts are nested. */
  lemma BlocksNest(v: Layout, c: int, x: int, j: nat)
    requires Tiled(v) && c in v.heads && InRange(v, c) && Aligned(x, j) && c < x + Pow2(j) && x < End(v, c)
    ensures j <= Order(v, c) ==> c <= x && x + Pow2(j) <= End(v, c)
    ensures Order(v, c) <= j ==> x <= c && End(v, c) <= x + Pow2(j)
  {
    hide Tiled, Aligned;
    At(v, c, c);
    if j <= Order(v, c) { Nested(c, Order(v, c), x, j); }
    if Order(v, c) <= j { Nested(x, j, c, Order(v, c)); }
  }

  /** If the buddy index of a block is inside the bitmap, a block of at most the same order begins there. */
  lemma BuddyIsHead(v: Layout, c: int)
    requires Tiled(v) && c in v.heads && InRange(v, c) && InRange(v, BuddyOf(c, Order(v, c)))
    ensures var b := BuddyOf(c, Order(v, c)); b in v.heads && b != c && Order(v, b) <= Order(v, c)
  {
    hide Tiled, Aligned, Bit;
    At(v, c, c);
    var k := Order(v, c);
    var b := BuddyOf(c, k);
    BuddyHalves(c, k);
    var x := CoveredAny(v, b);
    BuddyAligned(c, k);
    if Order(v, x) <= k {
      BlocksNest(v, x, b, k);
    } else {
      var a := if Bit(c, k) then b else c;
      BlocksNest(v, x, a, k + 1);
      At(v, x, c);
      assert false;
    }
  }

  lemma BuddyAligned(c: nat, k: nat)
    requires Aligned(c, k)
    ensures Aligned(BuddyOf(c, k), k)
  {
    hide Aligned, Bit;
    AlignedSum(c, k);
  }

  // ------------------------------ splitting and merging ------------------------------

  ghost predicate TakenHead(v: Layout, h: int) { h in v.heads && InRange(v, h) && v.bits[h].taken }

  ghost function TakenOrder(v: Layout, h: int): nat { if TakenHead(v, h) then Order(v, h) else 0 }

  /** The allocated blocks with their orders. */
  ghost function Taken(v: Layout): map<int, nat> { map h | h in v.heads && TakenHead(v, h) :: TakenOrder(v, h) }

  function SetOrder(bits: seq<Bits>, i: nat, k: nat): (r: seq<Bits>)
    requires i < |bits|
    ensures |r| == |bits|
  { bits[i := bits[i].(order := k)] }

  function Upper(h: int, k: nat): int { h + Pow2(k) }

  /** A block becomes two buddies of the next lower order. */
  ghost function Split(v: Layout, h: int): Layout
    requires InRange(v, h) && Order(v, h) > 0 && InRange(v, Upper(h, Order(v, h) - 1))
  {
    var k := Order(v, h) - 1;
    Layout(SetOrder(SetOrder(v.bits, h, k), Upper(h, k), k), v.heads + {Upper(h, k)})
  }

  lemma SplitInside(v: Layout, h: int)
    requires Tiled(v) && FreeHead(v, h) && Order(v, h) > 0
    ensures var b := Upper(h, Order(v, h) - 1);
            && InRange(v, b) && h < b < End(v, h) && b !in v.heads && !v.bits[b].taken
            && Aligned(h, Order(v, h) - 1) && Aligned(b, Order(v, h) - 1) && b == BuddyOf(h, Order(v, h) - 1)
            && End(v, h) == b + Pow2(Order(v, h) - 1)
  {
    hide Aligned, Bit;
    var k := Order(v, h) - 1;
    At(v, h, h);
    HalvesBuddy(h, k);
    AlignedSum(h, k);
    var b := Upper(h, k);
    if b in v.heads { At(v, h, b); }
  }

  lemma SplitBlock(v: Layout, h: int, g: int)
    requires Tiled(v) && FreeHead(v, h) && Order(v, h) > 0 && g in v.heads && InRange(v, Upper(h, Order(v, h) - 1))
    ensures BlockOk(Split(v, h), g)
  {
    hide Tiled, Aligned;
    SplitInside(v, h);
    At(v, h, g);
  }

  lemma SplitTiled(v: Layout, h: int)
    requires Tiled(v) && FreeHead(v, h) && Order(v, h) > 0
    ensures InRange(v, Upper(h, Order(v, h) - 1)) && Tiled(Split(v, h))
  {
    hide Aligned, BlockOk;
    SplitInside(v, h);
    var v', b := Split(v, h), Upper(h, Order(v, h) - 1);
    forall g | g in v'.heads ensures BlockOk(v', g) {
      if g == b { SplitUpper(v, h); } else { SplitBlock(v, h, g); }
    }
    forall g, f | g in v'.heads && f in v'.heads && InRange(v', g) ensures Before(v', g, f) {
      if g != b && f != b { At(v, g, f); }
      if f != b { At(v, h, f); }
      if g != b { At(v, h, g); }
    }
  }

  lemma SplitUpper(v: Layout, h: int)
    requires Tiled(v) && FreeHead(v, h) && Order(v, h) > 0 && InRange(v, Upper(h, Order(v, h) - 1))
    ensures BlockOk(Split(v, h), Upper(h, Order(v, h) - 1))
  {
    hide Tiled, Aligned;
    SplitInside(v, h);
    At(v, h, h);
  }

  lemma SplitMerged(v: Layout, h: int)
    requires Tiled(v) && FreeHead(v, h) && Order(v, h) > 0 && InRange(v, Upper(h, Order(v, h) - 1)) && MergedBut(v, h)
    ensures MergedBut(Split(v, h), h) && Taken(Split(v, h)) == Taken(v)
    ensures FreeHead(Split(v, h), h) && Order(Split(v, h), h) == Order(v, h) - 1
  {
    hide Tiled, Aligned, Bit;
    SplitInside(v, h);
    var v', k, b := Split(v, h), Order(v, h) - 1, Upper(h, Order(v, h) - 1);
    forall g, f | g != h && f != h ensures !Mergeable(v', g, f) {
      if g != b && f != b { assert !Mergeable(v, g, f); }
      BuddyBack(h, k);
      if Mergeable(v', g, f) && f == b { At(v, g, g); BuddyBack(g, k); }
    }
  }

  /** Being buddies is mutual. */
  lemma BuddyBack(x: nat, k: nat)
    ensures Aligned(x, k) ==> BuddyOf(x, k) >= 0 && BuddyOf(BuddyOf(x, k), k) == x
  {
    if Aligned(x, k) {
      BuddyHalves(x, k);
      if Bit(x, k) { HalvesBuddy(x - Pow2(k), k); } else { HalvesBuddy(x, k); }
    }
  }

  /** Two free buddies of equal order become one block; the order of the upper entry goes stale. */
  ghost function Merge(v: Layout, c: int): Layout
    requires InRange(v, c) && InRange(v, BuddyOf(c, Order(v, c)))
  {
    var k, b := Order(v, c), BuddyOf(c, Order(v, c));
    Layout(SetOrder(SetOrder(v.bits, b, k + 1), c, k + 1), v.heads - {if b < c then c else b})
  }

  ghost predicate CanMerge(v: Layout, c: int)
  { FreeHead(v, c) && InRange(v, BuddyOf(c, Order(v, c))) && Mergeable(v, c, BuddyOf(c, Order(v, c))) }

  ghost function Lower(v: Layout, c: int): int
    requires InRange(v, c)
  { if BuddyOf(c, Order(v, c)) < c then BuddyOf(c, Order(v, c)) else c }

  lemma MergeInside(v: Layout, c: int)
    requires Tiled(v) && CanMerge(v, c)
    ensures var k, lo := Order(v, c), Lower(v, c);
            && FreeHead(v, lo) && Aligned(lo, k + 1) && Order(v, lo) == k && FreeHead(v, lo + Pow2(k))
            && Order(v, lo + Pow2(k)) == k
            && {c, BuddyOf(c, k)} == {lo, lo + Pow2(k)} && lo + Pow2(k + 1) == End(v, lo + Pow2(k))
  {
    hide Aligned, Bit;
    At(v, c, BuddyOf(c, Order(v, c)));
    BuddyHalves(c, Order(v, c));
  }

  lemma MergeBlock(v: Layout, c: int, g: int)
    requires Tiled(v) && CanMerge(v, c) && g in v.heads && g in Merge(v, c).heads
    ensures BlockOk(Merge(v, c), g)
  {
    hide Tiled, Aligned, Bit;
    MergeInside(v, c);
    var lo, k := Lower(v, c), Order(v, c);
    At(v, lo, g);
    At(v, lo + Pow2(k), g);
  }

  lemma MergeTiled(v: Layout, c: int)
    requires Tiled(v) && CanMerge(v, c)
    ensures Tiled(Merge(v, c))
  {
    hide Aligned, BlockOk, Bit, BuddyOf;
    MergeInside(v, c);
    var v', lo, k := Merge(v, c), Lower(v, c), Order(v, c);
    forall g | g in v'.heads ensures BlockOk(v', g) { MergeBlock(v, c, g); }
    forall g, f | g in v'.heads && f in v'.heads && InRange(v', g) ensures Before(v', g, f) {
      At(v, g, f);
      At(v, lo + Pow2(k), f);
    }
  }

  lemma MergeTaken(v: Layout, c: int)
    requires Tiled(v) && CanMerge(v, c)
    ensures Taken(Merge(v, c)) == Taken(v)
    ensures FreeHead(Merge(v, c), Lower(v, c)) && Order(Merge(v, c), Lower(v, c)) == Order(v, c) + 1
  {
    hide Tiled, Aligned, BlockOk, Bit, BuddyOf;
    MergeInside(v, c);
  }

  lemma MergeMerged(v: Layout, c: int)
    requires Tiled(v) && CanMerge(v, c) && MergedBut(v, c)
    ensures MergedBut(Merge(v, c), Lower(v, c))
  {
    hide Tiled, Aligned, Bit;
    MergeInside(v, c);
    var v', lo := Merge(v, c), Lower(v, c);
    forall g, f | g != lo && f != lo ensures !Mergeable(v', g, f) {
      assert g != c && f != c ==> !Mergeable(v, g, f);
    }
  }

  // ------------------------------ allocating and freeing ------------------------------

  ghost function SetTaken(v: Layout, h: int, taken: bool): Layout
    requires InRange(v, h)
  { v.(bits := v.bits[h := v.bits[h].(taken := taken)]) }

  lemma SetTakenTiled(v: Layout, h: int, taken: bool)
    requires Tiled(v) && h in v.heads && InRange(v, h)
    ensures Tiled(SetTaken(v, h, taken))
  {
    hide Aligned, Bit;
    var v' := SetTaken(v, h, taken);
    forall g | g in v'.heads ensures BlockOk(v', g) { assert BlockOk(v, g); }
    forall g, f | g in v'.heads && f in v'.heads && InRange(v', g) ensures Before(v', g, f) { assert Before(v, g, f); }
  }

  lemma SetTakenEffect(v: Layout, h: int, taken: bool)
    requires h in v.heads && InRange(v, h)
    ensures Taken(SetTaken(v, h, taken)) == if taken then Taken(v)[h := Order(v, h)] else Taken(v) - {h}
    ensures MergedBut(v, h) ==> MergedBut(SetTaken(v, h, taken), h)
  {
    hide Aligned, Bit, BuddyOf;
    var v' := SetTaken(v, h, taken);
    forall g, f | MergedBut(v, h) && g != h && f != h ensures !Mergeable(v', g, f) { assert !Mergeable(v, g, f); }
  }

  /** A taken block merges with nothing. */
  lemma TakenMerged(v: Layout, h: int)
    requires Tiled(v) && TakenHead(v, h) && MergedBut(v, h)
    ensures Canonical(v)
  {
    hide Tiled, Aligned, Bit;
    forall g, f ensures !Mergeable(v, g, f) { if g != h && f != h { assert !Mergeable(v, g, f); } }
  }

  /** Freeing stops where the buddy is not free, or of another order, or outside. */
  lemma StopMerged(v: Layout, c: int)
    requires Tiled(v) && FreeHead(v, c) && MergedBut(v, c) && !CanMerge(v, c)
    ensures Canonical(v)
  {
    hide Tiled, Aligned, Bit;
    forall g, f ensures !Mergeable(v, g, f) {
      if g != c && f != c { assert !Mergeable(v, g, f); }
      if Mergeable(v, g, f) && f == c { At(v, g, g); BuddyBack(g, Order(v, g)); }
    }
  }

  // ------------------------------ the layout is determined by the allocated blocks ------------------------------

  /** An aligned region of n entries that meets no allocated block. */
  ghost predicate FreeRegion(n: nat, taken: map<int, nat>, x: int, k: nat)
  {
    && Aligned(x, k) && 0 <= x && x + Pow2(k) <= n
    && forall h :: h in taken ==> h + Pow2(taken[h]) <= x || x + Pow2(k) <= h
  }

  lemma NotBoth(v: Layout, g: int, f: int)
    requires Canonical(v) && FreeHead(v, g) && FreeHead(v, f)
    ensures Order(v, g) != Order(v, f) || f != BuddyOf(g, Order(v, g))
  {
    assert !Mergeable(v, g, f);
  }

  lemma {:induction false} InOneBlock(v: Layout, x: int, k: nat) returns (g: int)
    requires Canonical(v) && FreeRegion(|v.bits|, Taken(v), x, k)
    ensures FreeHead(v, g) && BlockOk(v, g) && Order(v, g) >= k && g <= x && x + Pow2(k) <= End(v, g)
    decreases k
  {
    hide Tiled, Aligned, Bit;
    if k == 0 {
      g := CoveredAny(v, x);
      assert g !in Taken(v);
    } else {
      HalvesBuddy(x, k - 1);
      AlignedSum(x, k - 1);
      var y := x + Pow2(k - 1);
      g := InOneBlock(v, x, k - 1);
      var f := InOneBlock(v, y, k - 1);
      if Order(v, g) >= k {
        BlocksNest(v, g, x, k);
      } else if Order(v, f) >= k {
        BlocksNest(v, f, x, k);
        g := f;
      } else {
        BlocksNest(v, g, x, k - 1);
        BlocksNest(v, f, y, k - 1);
        NotBoth(v, g, f);
        assert false;
      }
    }
  }

  /** The region twice as large around an aligned region. */
  ghost function Around(x: nat, k: nat): int { if Bit(x, k) then x - Pow2(k) else x }

  lemma AroundContains(x: nat, k: nat)
    requires Aligned(x, k)
    ensures Aligned(Around(x, k), k + 1) && Around(x, k) <= x && x + Pow2(k) <= Around(x, k) + Pow2(k + 1)
  {
    BuddyHalves(x, k);
  }

  /** The free blocks are exactly the largest aligned free regions. */
  lemma FreeBlocksMaximal(v: Layout, x: nat, k: nat)
    requires Canonical(v)
    ensures FreeHead(v, x) && Order(v, x) == k <==>
            FreeRegion(|v.bits|, Taken(v), x, k) && !FreeRegion(|v.bits|, Taken(v), Around(x, k), k + 1)
  {
    if FreeHead(v, x) && Order(v, x) == k { BlockIsMaximal(v, x, k); }
    if FreeRegion(|v.bits|, Taken(v), x, k) && !FreeRegion(|v.bits|, Taken(v), Around(x, k), k + 1) {
      MaximalIsBlock(v, x, k);
    }
  }

  lemma BlockIsFree(v: Layout, g: int, x: int, j: nat)
    requires Tiled(v) && FreeHead(v, g) && Aligned(x, j) && g <= x && x + Pow2(j) <= End(v, g)
    ensures FreeRegion(|v.bits|, Taken(v), x, j)
  {
    hide Tiled, Aligned;
    At(v, g, g);
    forall h | h in Taken(v) ensures h + Pow2(Taken(v)[h]) <= x || x + Pow2(j) <= h { At(v, g, h); }
  }

  lemma BlockIsMaximal(v: Layout, x: nat, k: nat)
    requires Canonical(v) && FreeHead(v, x) && Order(v, x) == k
    ensures FreeRegion(|v.bits|, Taken(v), x, k) && !FreeRegion(|v.bits|, Taken(v), Around(x, k), k + 1)
  {
    hide Tiled, Aligned, Bit;
    At(v, x, x);
    BlockIsFree(v, x, x, k);
    AroundContains(x, k);
    if FreeRegion(|v.bits|, Taken(v), Around(x, k), k + 1) {
      var g := InOneBlock(v, Around(x, k), k + 1);
      At(v, g, x);
      assert false;
    }
  }

  lemma MaximalIsBlock(v: Layout, x: nat, k: nat)
    requires Canonical(v) && FreeRegion(|v.bits|, Taken(v), x, k)
    requires !FreeRegion(|v.bits|, Taken(v), Around(x, k), k + 1)
    ensures FreeHead(v, x) && Order(v, x) == k
  {
    hide Tiled, Aligned, Bit;
    var g := InOneBlock(v, x, k);
    AroundContains(x, k);
    if Order(v, g) > k {
      BlocksNest(v, g, Around(x, k), k + 1);
      BlockIsFree(v, g, Around(x, k), k + 1);
      assert false;
    }
    BlocksNest(v, g, x, k);
  }

  /** Same size, same allocated blocks: same blocks, with the same orders. */
  lemma UniqueLayout(v: Layout, w: Layout)
    requires Canonical(v) && Canonical(w) && |v.bits| == |w.bits| && Taken(v) == Taken(w)
    ensures v.heads == w.heads && forall h :: h in v.heads ==> InRange(v, h) && v.bits[h] == w.bits[h]
  {
    hide Tiled, Aligned, Bit, FreeRegion, Around;
    forall h ensures h in v.heads ==> h in w.heads && InRange(v, h) && v.bits[h] == w.bits[h] { SameHead(v, w, h); }
    forall h ensures h in w.heads ==> h in v.heads { SameHead(w, v, h); }
    assert forall h :: h in v.heads <==> h in w.heads;
  }

  lemma SameHead(v: Layout, w: Layout, h: int)
    requires Canonical(v) && Canonical(w) && |v.bits| == |w.bits| && Taken(v) == Taken(w)
    ensures h in v.heads ==> h in w.heads && InRange(v, h) && v.bits[h] == w.bits[h]
  {
    hide Tiled, Aligned, Bit, FreeRegion, Around;
    if h in v.heads {
      At(v, h, h);
      if v.bits[h].taken {
        assert h in Taken(v) && h in Taken(w);
      } else {
        FreeBlocksMaximal(v, h, Order(v, h));
        FreeBlocksMaximal(w, h, Order(v, h));
      }
    }
  }

  // ------------------------------ the end of the bitmap ------------------------------

  /** 2^j is the lowest set bit of n. */
  predicate LowestBit(n: nat, j: nat) { Aligned(n, j) && Bit(n, j) }

  lemma LowestUnique(n: nat, j: nat, k: nat)
    requires LowestBit(n, j) && Aligned(n, k)
    ensures k <= j
  {
    hide Aligned, Bit;
    if j < k {
      AlignedLess(n, k, j + 1);
      HalvesBuddy(n, j);
    }
  }

  /**
   * Only the block of the last 2^j entries has its buddy outside the bitmap, and that buddy is the entry behind the
   * end.
   */
  lemma BuddyOutside(v: Layout, c: int, j: nat)
    requires Tiled(v) && c in v.heads && InRange(v, c) && LowestBit(|v.bits|, j)
    ensures BuddyOf(c, Order(v, c)) >= |v.bits| <==> c == |v.bits| - Pow2(j) && Order(v, c) == j
    ensures BuddyOf(c, Order(v, c)) <= |v.bits|
  {
    hide Tiled, Aligned, Bit;
    At(v, c, c);
    var n, k := |v.bits|, Order(v, c);
    BuddyHalves(c, k);
    BuddyHalves(n, j);
    if BuddyOf(c, k) >= n {
      HalvesBuddy(c, k);
      AlignedSum(c, k);
      LowestUnique(n, j, k);
      LowestUnique(n, k, j);
    }
    if c == n - Pow2(j) && k == j { HalvesBuddy(c, j); }
  }

  /** Allocated blocks that begin before the last 2^j entries end before them. */
  lemma EndsBeforeLast(v: Layout, h: int, j: nat)
    requires Tiled(v) && h in v.heads && InRange(v, h) && LowestBit(|v.bits|, j) && h < |v.bits| - Pow2(j)
    ensures End(v, h) <= |v.bits| - Pow2(j)
  {
    hide Tiled, Aligned, Bit;
    At(v, h, h);
    var n, k := |v.bits|, Order(v, h);
    BuddyHalves(n, j);
    AlignedLess(n - Pow2(j), j + 1, j);
    if End(v, h) > n - Pow2(j) {
      BlocksNest(v, h, n - Pow2(j), j);
      AlignedSum(h, k);
      LowestUnique(n, j, k);
      assert false;
    }
  }

  /** No allocated block other than x is in the last 2^j entries. */
  ghost predicate NoOtherInLast(v: Layout, x: int, j: nat)
  { forall h :: h in Taken(v) && h != x ==> h < |v.bits| - Pow2(j) }

  /** A block that has been freed and merged is the last 2^j entries exactly if they hold it and no allocated block. */
  lemma LastBlock(v: Layout, c: int, x: int, j: nat)
    requires Canonical(v) && FreeHead(v, c) && c <= x < End(v, c) && LowestBit(|v.bits|, j) && x !in Taken(v)
    ensures c == |v.bits| - Pow2(j) && Order(v, c) == j <==> x >= |v.bits| - Pow2(j) && NoOtherInLast(v, x, j)
  {
    hide Tiled, Aligned, Bit;
    var n, r := |v.bits|, |v.bits| - Pow2(j);
    At(v, c, c);
    BuddyHalves(n, j);
    if c == r && Order(v, c) == j {
      forall h | h in Taken(v) ensures h < r { At(v, c, h); }
    }
    if x >= r && NoOtherInLast(v, x, j) {
      forall h | h in Taken(v) ensures h + Pow2(Taken(v)[h]) <= r { At(v, h, h); EndsBeforeLast(v, h, j); }
      AlignedLess(r, j + 1, j);
      HalvesBuddy(r, j);
      MaximalIsBlock(v, r, j);
      At(v, c, r);
    }
  }

  lemma HeadInside(v: Layout, h: int)
    requires InRange(v, h)
    ensures h < End(v, h)
  {}

  lemma LastRead(was: Layout, v: Layout, c: int, x: int)
    requires Canonical(v) && FreeHead(v, c) && c <= x < End(v, c) && |was.bits| == |v.bits|
    requires Taken(v) == Taken(was) - {x}
    ensures |v.bits| > 0 && BuddyOf(c, Order(v, c)) <= |v.bits|
    ensures forall j: nat :: LowestBit(|v.bits|, j) ==>
              (BuddyOf(c, Order(v, c)) == |v.bits| <==> x >= |v.bits| - Pow2(j) && NoOtherInLast(was, x, j))
  {
    hide Tiled, Aligned, Bit, BuddyOf, LowestBit, Taken;
    var k := SomeLowest(|v.bits|);
    BuddyOutside(v, c, k);
    forall j: nat | LowestBit(|v.bits|, j)
      ensures BuddyOf(c, Order(v, c)) == |v.bits| <==> x >= |v.bits| - Pow2(j) && NoOtherInLast(was, x, j)
    {
      BuddyOutside(v, c, j);
      LastBlock(v, c, x, j);
      assert forall h :: h in Taken(v) <==> h in Taken(was) && h != x;
    }
  }

  lemma {:induction false} SomeLowest(n: nat) returns (j: nat)
    requires n > 0
    ensures LowestBit(n, j)
    decreases n
  {
    if n % 2 == 1 { j := 0; } else { j := SomeLowest(n / 2); j := j + 1; }
  }

  lemma MergeContains(v: Layout, c: int, x: int)
    requires Tiled(v) && CanMerge(v, c) && c <= x < End(v, c)
    ensures InRange(Merge(v, c), Lower(v, c)) && Lower(v, c) <= x < End(Merge(v, c), Lower(v, c))
  {
    hide Tiled, Aligned, BlockOk, Bit, BuddyOf;
    MergeInside(v, c);
    MergeTaken(v, c);
  }

  // ------------------------------ ba_order ------------------------------

  function ShiftRight(x: nat, i: nat): nat { if i == 0 then x else ShiftRight(x / 2, i - 1) }

  lemma {:induction false} ShiftedOut(x: nat, i: nat)
    ensures ShiftRight(x, i) == 0 <==> x < Pow2(i)
    decreases i
  {
    if i > 0 { ShiftedOut(x / 2, i - 1); }
  }

  /** A length that ba_order can round up in 32 bits. */
  predicate Roundable(len: nat, minAlloc: nat) { 0 < len && len + minAlloc - 1 < WORD }

  function Entries(len: nat, minAlloc: nat): nat
    requires minAlloc > 0
  { (len + minAlloc - 1) / minAlloc }

  /** k is the least order whose blocks hold len bytes; 32, which no block has, for zero and wrapping lengths. */
  ghost predicate LeastOrder(k: nat, len: nat, minAlloc: nat)
    requires minAlloc > 0
  {
    if Roundable(len, minAlloc) then
      Entries(len, minAlloc) <= Pow2(k) && (k > 0 ==> Pow2(k - 1) < Entries(len, minAlloc))
    else k == 32
  }

  lemma Word32()
    ensures Pow2(32) == WORD
  {
    Pow2Sum(16, 16);
    Pow2Sum(8, 8);
    Pow2Small();
  }

  lemma PowSteps()
    ensures Pow2(0) == 1 && Pow2(32) == 2 * Pow2(31)
  {}

  lemma RoundedUp(len: nat, minAlloc: nat)
    requires 0 < minAlloc < WORD && len < WORD
    ensures Roundable(len, minAlloc) ==>
        1 <= Entries(len, minAlloc) < WORD && (len + minAlloc - 1) % WORD / minAlloc == Entries(len, minAlloc)
    ensures !Roundable(len, minAlloc) ==> (len + minAlloc - 1) % WORD / minAlloc == 0
  {
    hide Entries;
    EntriesIs(len, minAlloc);
    if Roundable(len, minAlloc) || len == 0 { ModSmall(len + minAlloc - 1); } else { ModOnce(len + minAlloc - 1); }
    if Roundable(len, minAlloc) { DivBounds(len + minAlloc - 1, minAlloc); }
    else { DivSmall((len + minAlloc - 1) % WORD, minAlloc); }
  }

  lemma EntriesIs(len: nat, minAlloc: nat)
    requires minAlloc > 0
    ensures Entries(len, minAlloc) == (len + minAlloc - 1) / minAlloc
  {}

  lemma ModSmall(x: nat)
    requires x < WORD
    ensures x % WORD == x
  {}

  lemma ModOnce(x: nat)
    requires WORD <= x < 2 * WORD
    ensures x % WORD == x - WORD
  {}

  lemma DivSmall(x: nat, d: nat)
    requires x < d
    ensures x / d == 0
  {}

  lemma DivBounds(x: nat, d: nat)
    requires 0 < d <= x
    ensures 1 <= x / d <= x
  {
    var q, r := x / d, x % d;
    assert x == q * d + r;
    assert q == 0 ==> q * d == 0;
    AtLeastOnce(q, d);
  }

  lemma AtLeastOnce(q: int, d: nat)
    requires d > 0
    ensures q >= 0 ==> q * d >= q
    ensures q < 0 ==> q * d <= q
  {
    if q >= 0 { assert q * (d - 1) >= 0; } else { assert -q * (d - 1) >= 0; }
  }

  lemma {:induction false} PowMono(i: nat, j: nat)
    requires i <= j
    ensures Pow2(i) <= Pow2(j)
    decreases j
  {
    if i < j { PowMono(i, j - 1); }
  }

  /** There is one such order. */
  lemma OrderUnique(k: nat, j: nat, len: nat, minAlloc: nat)
    requires minAlloc > 0 && LeastOrder(k, len, minAlloc) && LeastOrder(j, len, minAlloc)
    ensures k == j
  {
    hide Pow2, Entries;
    if k < j { PowMono(k, j - 1); }
    if j < k { PowMono(j, k - 1); }
  }

  /** ba_order */
  method OrderFor(len: nat, minAlloc: nat) returns (i: nat)
    requires 0 < minAlloc < WORD && len < WORD
    ensures i <= 32 && LeastOrder(i, len, minAlloc)
  {
    hide ShiftRight, Pow2, Entries;
    RoundedUp(len, minAlloc);
    Word32();
    PowSteps();
    var n := (len + minAlloc - 1) % WORD / minAlloc;
    n := (n - 1) % WORD;
    i := 0;
    ShiftedOut(n, 0);
    while i < 32 && ShiftRight(n, i) != 0
      invariant i <= 32 && (i > 0 ==> Pow2(i - 1) <= n)
    {
      ShiftedOut(n, i);
      i := i + 1;
    }
    if i < 32 { ShiftedOut(n, i); PowMono(i, 31); }
  }

  // ------------------------------ the allocator ------------------------------

  /** r is a free block of the least sufficient order, and the first of that order. */
  ghost predicate Chosen(v: Layout, k: nat, r: int)
  {
    && FreeHead(v, r) && Order(v, r) >= k
    && forall h :: FreeHead(v, h) && Order(v, h) >= k ==>
        Order(v, r) < Order(v, h) || (Order(v, r) == Order(v, h) && r <= h)
  }

  ghost predicate NoneFits(v: Layout, k: nat) { forall h :: FreeHead(v, h) ==> Order(v, h) < k }

  /** What the scan of ba_allocate has found among the blocks before curr. */
  ghost predicate BestSoFar(v: Layout, k: nat, curr: int, best: int)
  {
    && (best >= 0 ==> best < curr && FreeHead(v, best) && Order(v, best) > k)
    && forall h :: FreeHead(v, h) && h < curr ==>
         || Order(v, h) < k
         || (best >= 0 && Order(v, h) > k
             && (Order(v, best) < Order(v, h) || (Order(v, best) == Order(v, h) && best <= h)))
  }

  class BuddyAllocator {
    const size: nat
    const minAlloc: nat
    const bitmap: array<Bits>
    var maxOrder: nat
    ghost var heads: set<int>

    ghost function View(): Layout
      reads this, bitmap
    { Layout(bitmap[..], heads) }

    ghost predicate Valid()
      reads this, bitmap
    { 0 < minAlloc < WORD && size < WORD && bitmap.Length < Pow2(31) && Canonical(View()) }

    /**
     * ba_free: free the block and merge it with its buddies as far as they are free and of equal order. The code reads
     * the entry of every buddy, the last one included; the test of the buddy against the end is not in the code.
     */
    method Free(index: nat) returns (ghost last: int)
      requires Valid() && TakenHead(View(), index)
      modifies this`heads, bitmap
      ensures Valid() && Taken(View()) == old(Taken(View())) - {index}
      ensures last <= bitmap.Length
      ensures forall j: nat :: LowestBit(bitmap.Length, j) ==>
                (last == bitmap.Length <==> index >= bitmap.Length - Pow2(j) && NoOtherInLast(old(View()), index, j))
    {
      hide Tiled, Aligned, Bit, BuddyOf, Taken, BlockOk, LowestBit, NoOtherInLast;
      var curr: nat := index;
      CanonicalBut(View(), curr);
      SetTakenTiled(View(), curr, false);
      SetTakenEffect(View(), curr, false);
      SetTakenIs(View(), curr, false);
      bitmap[curr] := bitmap[curr].(taken := false);
      assert View() == old(SetTaken(View(), index, false));
      HeadInside(View(), curr);
      while curr < bitmap.Length
        invariant Tiled(View()) && FreeHead(View(), curr) && MergedBut(View(), curr)
        invariant Taken(View()) == old(Taken(View())) - {index}
        invariant curr <= index < End(View(), curr)
        decreases heads
      {
        var buddy := BuddyOf(curr, bitmap[curr].order);
        BuddyLow(View(), curr);
        last := buddy;
        if buddy < bitmap.Length && !bitmap[buddy].taken && bitmap[buddy].order == bitmap[curr].order {
          ghost var v := View();
          BuddyIsHead(v, curr);
          MergeTiled(v, curr);
          MergeTaken(v, curr);
          MergeMerged(v, curr);
          MergeContains(v, curr, index);
          bitmap[buddy] := bitmap[buddy].(order := bitmap[buddy].order + 1);
          bitmap[curr] := bitmap[curr].(order := bitmap[curr].order + 1);
          heads := heads - {if buddy < curr then curr else buddy};
          assert View() == Merge(v, curr);
          curr := if buddy < curr then buddy else curr;
        } else {
          StopMerged(View(), curr);
          break;
        }
      }
      LastRead(old(View()), View(), curr, index);
    }

    /** The scan of ba_allocate: the first block of exactly the order, or else the first of the least larger order. */
    method FindBlock(order: nat) returns (best: int)
      requires Valid()
      ensures if best < 0 then NoneFits(View(), order) else Chosen(View(), order, best)
    {
      hide Tiled, Aligned, Bit, BlockOk;
      var curr: nat := 0;
      best := -1;
      StartScan(View(), order);
      while curr < bitmap.Length
        invariant curr == bitmap.Length || curr in heads
        invariant BestSoFar(View(), order, curr, best)
        decreases bitmap.Length - curr
      {
        NextBlock(View(), order, curr, best);
        if !bitmap[curr].taken {
          if bitmap[curr].order == order {
            best := curr;
            return;
          }
          if bitmap[curr].order > order && (best < 0 || bitmap[curr].order < bitmap[best].order) {
            best := curr;
          }
        }
        curr := curr + Pow2(bitmap[curr].order);
      }
      EndScan(View(), order, curr, best);
    }

    /** The second loop of ba_allocate: split the block until it has the order asked for. */
    method SplitTo(r: nat, k: nat)
      requires Tiled(View()) && FreeHead(View(), r) && MergedBut(View(), r) && bitmap[r].order >= k
      modifies this`heads, bitmap
      ensures Tiled(View()) && FreeHead(View(), r) && MergedBut(View(), r) && bitmap[r].order == k
      ensures Taken(View()) == old(Taken(View()))
    {
      hide Tiled, Aligned, Bit, BuddyOf, Taken, BlockOk;
      while bitmap[r].order > k
        invariant Tiled(View()) && FreeHead(View(), r) && MergedBut(View(), r) && Taken(View()) == old(Taken(View()))
        invariant bitmap[r].order >= k
        decreases bitmap[r].order
      {
        ghost var v := View();
        SplitInside(v, r);
        SplitTiled(v, r);
        SplitMerged(v, r);
        bitmap[r] := bitmap[r].(order := bitmap[r].order - 1);
        var buddy := BuddyOf(r, bitmap[r].order);
        bitmap[buddy] := bitmap[buddy].(order := bitmap[r].order);
        heads := heads + {buddy};
        assert View() == Split(v, r);
      }
    }

    /** ba_allocate */
    method Allocate(len: nat) returns (r: int, ghost order: nat)
      requires Valid() && len < WORD
      modifies this`heads, bitmap
      ensures Valid() && LeastOrder(order, len, minAlloc) && order <= 32
      ensures r < 0 <==> order > maxOrder || old(NoneFits(View(), order))
      ensures r < 0 ==> View() == old(View())
      ensures !Roundable(len, minAlloc) ==> r < 0
      ensures r >= 0 ==> old(Chosen(View(), order, r)) && Taken(View()) == old(Taken(View()))[r := order]
    {
      hide Tiled, Aligned, Bit, BuddyOf, Taken, BlockOk, LeastOrder, NoneFits, Chosen;
      var k := OrderFor(len, minAlloc);
      order := k;
      if k > maxOrder { return -1, k; }
      r := FindBlock(k);
      if r < 0 { return; }
      ChosenFits(View(), k, r);
      CanonicalBut(View(), r);
      OrderBound(View(), k, r, len, minAlloc);
      SplitTo(r, k);
      ghost var v := View();
      SetTakenTiled(v, r, true);
      SetTakenEffect(v, r, true);
      bitmap[r] := bitmap[r].(taken := true);
      assert View() == SetTaken(v, r, true);
      TakenMerged(View(), r);
    }

    /** ba_init on a zeroed bitmap: one block per bit of the number of entries, largest first. */
    constructor (bits: array<Bits>, size: nat, minAlloc: nat, wantedOrder: nat)
      requires size < WORD && 0 < minAlloc < WORD && bits.Length < Pow2(31)
      requires forall i :: 0 <= i < bits.Length ==> bits[i] == Bits(false, 0)
      modifies bits
      ensures Valid() && bitmap == bits && Taken(View()) == map[]
      ensures this.size == size && this.minAlloc == minAlloc
      ensures exists k: nat ::
        LeastOrder(k, size, minAlloc) && maxOrder == if wantedOrder == 0 || wantedOrder > k then k else wantedOrder
    {
      this.size, this.minAlloc, this.bitmap := size, minAlloc, bits;
      this.maxOrder := wantedOrder;
      this.heads := {};
      new;
      var most := OrderFor(size, minAlloc);
      if maxOrder == 0 || maxOrder > most {
        maxOrder := most;
      }
      LayOut();
    }

    method LayOut()
      requires size < WORD && 0 < minAlloc < WORD && bitmap.Length < Pow2(31) && heads == {}
      requires forall i :: 0 <= i < bitmap.Length ==> bitmap[i] == Bits(false, 0)
      modifies this`heads, bitmap
      ensures Valid() && Taken(View()) == map[]
    {
      hide Aligned, Bit, BuddyOf, Taken, BlockOk, Pow2;
      var i, index: nat := 31, 0;
      LaidOutStart(View());
      while i >= 0
        invariant -1 <= i <= 31 && LaidOut(View(), i + 1, index)
        decreases i
      {
        LaidOutBit(View(), i, index);
        if Bit(bitmap.Length, i) {
          ghost var v := View();
          bitmap[index] := bitmap[index].(order := i);
          heads := heads + {index};
          assert View() == Layout(SetOrder(v.bits, index, i), v.heads + {index});
          LaidOutStep(v, i, index);
          index := index + Pow2(bitmap[index].order);
        }
        i := i - 1;
      }
      LaidOutDone(View(), index);
    }
  }

  lemma CanonicalBut(v: Layout, c: int)
    requires Canonical(v)
    ensures MergedBut(v, c) && Tiled(v)
  {}

  lemma SetTakenIs(v: Layout, h: int, taken: bool)
    requires h in v.heads && InRange(v, h)
    ensures FreeHead(SetTaken(v, h, false), h)
  {}

  lemma BuddyLow(v: Layout, c: int)
    requires Tiled(v) && c in v.heads && InRange(v, c)
    ensures BuddyOf(c, Order(v, c)) >= 0
  {
    At(v, c, c);
    BuddyHalves(c, Order(v, c));
  }

  lemma StartScan(v: Layout, k: nat)
    requires Tiled(v)
    ensures (0 in v.heads || |v.bits| == 0) && BestSoFar(v, k, 0, -1)
  {}

  /** The block at curr is no better than best. */
  ghost predicate Worse(v: Layout, k: nat, curr: int, best: int)
    requires InRange(v, curr) && (best >= 0 ==> InRange(v, best))
  { !FreeHead(v, curr) || Order(v, curr) < k || (Order(v, curr) > k && best >= 0 && Order(v, curr) >= Order(v, best)) }

  /** One block further. */
  lemma NextBlock(v: Layout, k: nat, curr: int, best: int)
    requires Tiled(v) && curr in v.heads && BestSoFar(v, k, curr, best)
    ensures BlockOk(v, curr) && InRange(v, curr) && (End(v, curr) in v.heads || End(v, curr) == |v.bits|)
    ensures curr < End(v, curr) <= |v.bits|
    ensures FreeHead(v, curr) && Order(v, curr) == k ==> Chosen(v, k, curr)
    ensures FreeHead(v, curr) && Order(v, curr) > k && (best < 0 || Order(v, curr) < Order(v, best)) ==>
        BestSoFar(v, k, End(v, curr), curr)
    ensures Worse(v, k, curr, best) ==> BestSoFar(v, k, End(v, curr), best)
  {
    hide Aligned;
    At(v, curr, curr);
    forall h | FreeHead(v, h) ensures h == curr || h < curr || End(v, curr) <= h { At(v, curr, h); }
  }

  lemma EndScan(v: Layout, k: nat, curr: int, best: int)
    requires BestSoFar(v, k, curr, best) && curr >= |v.bits|
    ensures if best < 0 then NoneFits(v, k) else Chosen(v, k, best)
  {}

  /** No block has order 32, so zero and wrapping lengths find none. */
  lemma OrderBound(v: Layout, k: nat, r: int, len: nat, minAlloc: nat)
    requires Tiled(v) && |v.bits| < Pow2(31) && FreeHead(v, r) && Order(v, r) >= k && minAlloc > 0
    requires LeastOrder(k, len, minAlloc)
    ensures k < 31 && Roundable(len, minAlloc)
  {
    hide Aligned, Pow2, Entries;
    At(v, r, r);
    if k >= 31 { PowMono(31, Order(v, r)); }
  }

  lemma ChosenFits(v: Layout, k: nat, r: int)
    requires Chosen(v, k, r)
    ensures FreeHead(v, r) && Order(v, r) >= k && !NoneFits(v, k)
  {}

  /** ba_init has laid out the blocks for all bits from i on, up to index. */
  ghost predicate LaidOut(v: Layout, i: nat, index: nat)
  {
    && index <= |v.bits| && |v.bits| - index < Pow2(i) && Aligned(index, i)
    && (forall j :: 0 <= j < |v.bits| ==> !v.bits[j].taken)
    && (index > 0 ==> 0 in v.heads)
    && (forall h {:trigger LaidHead(v, i, index, h)} :: h in v.heads ==> LaidHead(v, i, index, h))
    && (forall h, g {:trigger LaidPair(v, h, g)} :: h in v.heads && g in v.heads ==> LaidPair(v, h, g))
  }

  ghost predicate LaidHead(v: Layout, i: nat, index: nat, h: int)
  {
    && InRange(v, h) && Aligned(h, Order(v, h)) && End(v, h) <= index && Order(v, h) >= i
    && (End(v, h) in v.heads || End(v, h) == index)
  }

  ghost predicate LaidPair(v: Layout, h: int, g: int)
  { InRange(v, h) && InRange(v, g) && Before(v, h, g) && (h != g ==> Order(v, h) != Order(v, g)) }

  lemma LaidOutStart(v: Layout)
    requires v.heads == {} && |v.bits| < Pow2(31) && forall j :: 0 <= j < |v.bits| ==> v.bits[j] == Bits(false, 0)
    ensures LaidOut(v, 32, 0)
  {
    ZeroAligned(32);
    PowSteps();
  }

  lemma {:induction false} ZeroAligned(k: nat)
    ensures Aligned(0, k)
    decreases k
  {
    if k > 0 { ZeroAligned(k - 1); }
  }

  lemma {:induction false} BitOfRest(n: nat, index: nat, i: nat)
    requires index <= n && n - index < Pow2(i + 1) && Aligned(index, i + 1)
    ensures Bit(n, i) <==> n - index >= Pow2(i)
    decreases i
  {
    if i > 0 {
      BitOfRest(n / 2, index / 2, i - 1);
    }
  }

  /** Bit i decides whether a block of order i still fits; if not, nothing changes. */
  lemma LaidOutBit(v: Layout, i: nat, index: nat)
    requires LaidOut(v, i + 1, index)
    ensures Bit(|v.bits|, i) ==> index + Pow2(i) <= |v.bits| && index < |v.bits|
    ensures !Bit(|v.bits|, i) ==> LaidOut(v, i, index)
  {
    hide Bit;
    BitOfRest(|v.bits|, index, i);
    AlignedLess(index, i + 1, i);
    if !Bit(|v.bits|, i) {
      forall h | h in v.heads ensures LaidHead(v, i, index, h) { assert LaidHead(v, i + 1, index, h); }
    }
  }

  lemma LaidBefore(v: Layout, i: nat, index: nat, h: int)
    requires LaidOut(v, i, index) && h in v.heads
    ensures h < index && InRange(v, h) && Order(v, h) >= i && End(v, h) <= index && LaidHead(v, i, index, h)
  {
    assert LaidHead(v, i, index, h);
  }

  lemma LaidHeadStep(v: Layout, i: nat, index: nat, h: int)
    requires LaidOut(v, i + 1, index) && index + Pow2(i) <= |v.bits| && index < |v.bits| && Aligned(index, i)
    requires (h in v.heads || h == index)
    ensures LaidHead(Layout(SetOrder(v.bits, index, i), v.heads + {index}), i, index + Pow2(i), h)
  {
    hide LaidOut, Aligned;
    if h != index { LaidBefore(v, i + 1, index, h); }
  }

  lemma LaidPairStep(v: Layout, i: nat, index: nat, h: int, g: int)
    requires LaidOut(v, i + 1, index) && index < |v.bits| && (h in v.heads || h == index)
    requires (g in v.heads || g == index)
    ensures LaidPair(Layout(SetOrder(v.bits, index, i), v.heads + {index}), h, g)
  {
    if h != index { LaidBefore(v, i + 1, index, h); }
    if g != index { LaidBefore(v, i + 1, index, g); }
    if h != index && g != index { assert LaidPair(v, h, g); }
  }

  lemma PowDouble(i: nat)
    ensures Pow2(i + 1) == 2 * Pow2(i)
  {}

  lemma SetOrderTaken(bits: seq<Bits>, i: nat, k: nat)
    requires i < |bits|
    ensures |SetOrder(bits, i, k)| == |bits|
    ensures forall j :: 0 <= j < |bits| ==> SetOrder(bits, i, k)[j].taken == bits[j].taken
  {}

  lemma LaidOutStep(v: Layout, i: nat, index: nat)
    requires LaidOut(v, i + 1, index) && Bit(|v.bits|, i) && index < |v.bits|
    ensures LaidOut(Layout(SetOrder(v.bits, index, i), v.heads + {index}), i, index + Pow2(i))
  {
    hide Bit, Aligned, LaidHead, LaidPair, SetOrder, Pow2;
    PowDouble(i);
    BitOfRest(|v.bits|, index, i);
    SetOrderTaken(v.bits, index, i);
    AlignedLess(index, i + 1, i);
    AlignedSum(index, i);
    var w := Layout(SetOrder(v.bits, index, i), v.heads + {index});
    forall h | h in w.heads ensures LaidHead(w, i, index + Pow2(i), h) { LaidHeadStep(v, i, index, h); }
    forall h, g | h in w.heads && g in w.heads ensures LaidPair(w, h, g) { LaidPairStep(v, i, index, h, g); }
  }

  lemma LaidOutDone(v: Layout, index: nat)
    requires LaidOut(v, 0, index)
    ensures Canonical(v) && Taken(v) == map[]
  {
    hide Aligned, Bit;
    assert index == |v.bits|;
    forall h | h in v.heads ensures BlockOk(v, h) { assert LaidHead(v, 0, index, h); }
    forall h, g | h in v.heads && g in v.heads && InRange(v, h) ensures Before(v, h, g) { assert LaidPair(v, h, g); }
    forall h, g ensures !Mergeable(v, h, g) {
      if Mergeable(v, h, g) { assert LaidPair(v, h, g); NoSelfBuddy(h, Order(v, h)); assert false; }
    }
  }

  lemma NoSelfBuddy(x: nat, k: nat)
    ensures BuddyOf(x, k) != x
  {}

  // ------------------------------ whole runs ------------------------------

  datatype Call = Get(len: nat) | Put(index: nat)

  ghost predicate SameBlocks(v: Layout, w: Layout)
  { |v.bits| == |w.bits| && v.heads == w.heads && forall h :: h in v.heads && InRange(v, h) ==> v.bits[h] == w.bits[h] }

  /**
   * Any sequence of calls; when everything has been freed the layout is again what it was when nothing was allocated.
   */
  method Run(ba: BuddyAllocator, calls: seq<Call>) returns (live: map<int, nat>)
    requires ba.Valid() && Taken(ba.View()) == map[]
    modifies ba`heads, ba.bitmap
    ensures ba.Valid() && Taken(ba.View()) == live
    ensures live == map[] ==> SameBlocks(old(ba.View()), ba.View())
  {
    hide Canonical, Chosen, NoneFits, Taken, LeastOrder;
    live := map[];
    for n := 0 to |calls|
      invariant ba.Valid() && Taken(ba.View()) == live
    {
      match calls[n] {
        case Get(len) =>
          if len < WORD {
            var r, order := ba.Allocate(len);
            if r >= 0 { ghost var k := order; TakenKnown(ba.View(), r, k); live := live[r := ba.bitmap[r].order]; }
          }
        case Put(index) =>
          if index in live {
            TakenIn(ba.View(), index);
            ghost var _ := ba.Free(index);
            live := live - {index};
          }
      }
    }
    if live == map[] { UniqueLayout(old(ba.View()), ba.View()); }
  }

  lemma TakenKnown(v: Layout, r: int, k: nat)
    requires r in Taken(v) && Taken(v)[r] == k
    ensures InRange(v, r) && v.bits[r].order == k
  {}

  lemma TakenIn(v: Layout, h: int)
    requires h in Taken(v)
    ensures TakenHead(v, h)
  {}

  /** Allocating and freeing again restores the layout. */
  method RoundTrip(ba: BuddyAllocator, len: nat) returns (r: int)
    requires ba.Valid() && len < WORD
    modifies ba`heads, ba.bitmap
    ensures ba.Valid() && SameBlocks(old(ba.View()), ba.View())
  {
    hide Canonical, Chosen, NoneFits, Taken, LeastOrder;
    ghost var k;
    r, k := ba.Allocate(len);
    if r >= 0 {
      WasFree(old(ba.View()), k, r);
      TakenIn(ba.View(), r);
      ghost var _ := ba.Free(r);
      assert Taken(ba.View()) == old(Taken(ba.View()));
    }
    UniqueLayout(old(ba.View()), ba.View());
  }

  lemma WasFree(v: Layout, k: nat, r: int)
    requires Chosen(v, k, r)
    ensures r !in Taken(v)
  {}

  // ------------------------------ a read behind the bitmap ------------------------------

  /** A bitmap of one entry with nothing allocated is one free block of order 0. */
  lemma OneFree(v: Layout)
    requires Canonical(v) && |v.bits| == 1 && Taken(v) == map[]
    ensures FreeHead(v, 0) && Order(v, 0) == 0
  {
    hide Tiled, Aligned, Bit;
    var g := CoveredAny(v, 0);
    assert g !in Taken(v);
  }

  lemma OneEntry(k: nat)
    requires LeastOrder(k, 1, 1)
    ensures k == 0
  {}

  /** With one entry, allocating it and freeing it again reads the entry behind the bitmap. */
  method StrayRead() returns (ba: BuddyAllocator, ghost last: int)
    ensures fresh(ba) && ba.Valid() && last == ba.bitmap.Length == 1
  {
    hide Canonical, Tiled, Aligned, Bit, Taken, LeastOrder, Chosen, NoneFits;
    PowMono(1, 31);
    var bits := new Bits[1](_ => Bits(false, 0));
    ba := new BuddyAllocator(bits, 1, 1, 0);
    OneFree(ba.View());
    OneEntry(ba.maxOrder);
    var r: int;
    ghost var k;
    ghost var start := ba.View();
    r, k := ba.Allocate(1);
    OneEntry(k);
    SomeFits(start, k);
    ChosenOnly(start, k, r);
    TakenIn(ba.View(), r);
    ghost var v := ba.View();
    last := ba.Free(r);
    OneIsLowest();
    OnlyThisTaken(v, r);
  }

  lemma SomeFits(v: Layout, k: nat)
    requires FreeHead(v, 0) && Order(v, 0) == 0 == k
    ensures !NoneFits(v, k)
  {}

  lemma ChosenOnly(v: Layout, k: nat, r: int)
    requires Chosen(v, k, r) && |v.bits| == 1
    ensures r == 0
  {}

  lemma OneIsLowest()
    ensures LowestBit(1, 0) && Pow2(0) == 1
  {}

  lemma OnlyThisTaken(v: Layout, r: int)
    requires |v.bits| == 1 && r == 0
    ensures NoOtherInLast(v, r, 0)
  {}
}
