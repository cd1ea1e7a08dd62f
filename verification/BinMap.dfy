/** The 32-bit bin maps of malloc_state (smallmap, treemap) and the bit tricks that search them. */
module BinMap {

  predicate Has(m: bv32, b: bv32) { m & b != 0 }

  predicate SingleBit(b: bv32) { b != 0 && b & (b - 1) == 0 }

  /** idx2bit */
  function Idx2Bit(i: nat): (r: bv32)
    requires i < 32
  { (1 as bv32) << i }

  /** smallmap_is_marked, treemap_is_marked */
  predicate Marked(m: bv32, i: nat)
    requires i < 32
  { Has(m, Idx2Bit(i)) }

  /** mark_smallmap, mark_treemap */
  function Mark(m: bv32, i: nat): (r: bv32)
    requires i < 32
  { Or(m, Idx2Bit(i)) }

  /** clear_smallmap, clear_treemap */
  function Clear(m: bv32, i: nat): (r: bv32)
    requires i < 32
  { AndNot(m, Idx2Bit(i)) }

  function Or(m: bv32, b: bv32): (r: bv32) { m | b }

  function And(m: bv32, b: bv32): (r: bv32) { m & b }

  function AndNot(m: bv32, b: bv32): (r: bv32) { m & !b }

  function LeastBit(x: bv32): (r: bv32) { x & (0 - x) }

  function LeftBits(x: bv32): (r: bv32) { (x << 1) | (0 - (x << 1)) }

  function Half(b: bv32): (r: bv32) { b >> 1 }

  function Twice(b: bv32): (r: bv32) { b << 1 }

  /** Shifts by a variable amount, as that many shifts by one. */
  function Shr(m: bv32, i: nat): (r: bv32) { if i == 0 then m else Shr(Half(m), i - 1) }

  function Shl(m: bv32, i: nat): (r: bv32) { if i == 0 then m else Twice(Shl(m, i - 1)) }

  lemma SameBit(b: bv32, c: bv32)
    requires SingleBit(b) && SingleBit(c)
    ensures Has(b, c) <==> b == c
  {}

  lemma BitOrNothing(m: bv32, c: bv32)
    requires SingleBit(c)
    ensures And(m, c) == 0 || And(m, c) == c
  {}

  lemma OrSpreads(m: bv32, b: bv32, c: bv32)
    ensures And(Or(m, b), c) == Or(And(m, c), And(b, c))
  {}

  lemma AndSpreads(m: bv32, b: bv32, c: bv32)
    ensures And(And(m, b), c) == And(And(m, c), And(b, c))
  {}

  lemma NotSpreads(m: bv32, b: bv32, c: bv32)
    ensures And(AndNot(m, b), c) == AndNot(And(m, c), And(b, c))
  {}

  lemma Operations(x: bv32)
    ensures Or(0, x) == x && Or(x, 0) == x && And(0, x) == 0 && And(x, x) == x && And(x, 0) == 0
    ensures AndNot(x, 0) == x && AndNot(0, x) == 0 && AndNot(x, x) == 0 && Or(x, x) == x
  {}

  lemma OrBit(m: bv32, b: bv32, c: bv32)
    requires SingleBit(b) && SingleBit(c)
    ensures Has(Or(m, b), c) <==> b == c || Has(m, c)
  {
    SameBit(b, c);
    BitOrNothing(m, c);
    BitOrNothing(b, c);
    OrSpreads(m, b, c);
    Operations(c);
    hide Or, AndNot;
  }

  lemma AndNotBit(m: bv32, b: bv32, c: bv32)
    requires SingleBit(b) && SingleBit(c)
    ensures Has(AndNot(m, b), c) <==> b != c && Has(m, c)
  {
    SameBit(b, c);
    BitOrNothing(m, c);
    BitOrNothing(b, c);
    NotSpreads(m, b, c);
    Operations(c);
    Operations(0);
    hide Or, AndNot;
  }

  lemma LeftBit(b: bv32, c: bv32)
    requires SingleBit(b) && SingleBit(c)
    ensures Has(LeftBits(b), c) <==> b < c
  {}

  lemma AndBit(a: bv32, m: bv32, c: bv32)
    requires SingleBit(c)
    ensures Has(And(a, m), c) <==> Has(a, c) && Has(m, c)
  {
    BitOrNothing(m, c);
    BitOrNothing(a, c);
    AndSpreads(a, m, c);
    Operations(c);
    hide Or, AndNot;
  }

  lemma LeastBitSingle(x: bv32)
    requires x != 0
    ensures SingleBit(LeastBit(x)) && Has(x, LeastBit(x))
  {}

  lemma LeastBitLeast(x: bv32, c: bv32)
    requires SingleBit(c) && Has(x, c)
    ensures LeastBit(x) <= c
  {}

  lemma Idx2BitSingle(i: nat)
    requires i < 32
    ensures SingleBit(Idx2Bit(i))
  {}

  lemma Idx2BitOrder(i: nat, j: nat)
    requires i < j < 32
    ensures Idx2Bit(i) < Idx2Bit(j)
  {}

  lemma Idx2BitPair(i: nat, j: nat)
    requires i < 32 && j < 32
    ensures SingleBit(Idx2Bit(i)) && SingleBit(Idx2Bit(j))
    ensures Idx2Bit(i) < Idx2Bit(j) <==> i < j
    ensures Idx2Bit(i) == Idx2Bit(j) <==> i == j
  {
    Idx2BitSingle(i);
    Idx2BitSingle(j);
    if i < j { Idx2BitOrder(i, j); }
    if j < i { Idx2BitOrder(j, i); }
  }

  /** Marking bin i sets exactly the bit of bin i. */
  lemma MarkLaw(m: bv32, i: nat, j: nat)
    requires i < 32 && j < 32
    ensures Marked(Mark(m, i), j) <==> i == j || Marked(m, j)
  {
    hide Idx2Bit, Has, SingleBit, And, Or, AndNot, LeftBits;
    Idx2BitPair(i, j);
    OrBit(m, Idx2Bit(i), Idx2Bit(j));
  }

  /** Clearing bin i clears exactly the bit of bin i. */
  lemma ClearLaw(m: bv32, i: nat, j: nat)
    requires i < 32 && j < 32
    ensures Marked(Clear(m, i), j) <==> i != j && Marked(m, j)
  {
    hide Idx2Bit, Has, SingleBit, And, Or, AndNot, LeftBits;
    Idx2BitPair(i, j);
    AndNotBit(m, Idx2Bit(i), Idx2Bit(j));
  }

  /** The left_bits mask of bin i keeps exactly the bins above i. */
  lemma LeftLaw(m: bv32, i: nat, j: nat)
    requires i < 32 && j < 32
    ensures Marked(And(LeftBits(Idx2Bit(i)), m), j) <==> i < j && Marked(m, j)
  {
    hide Idx2Bit, Has, SingleBit, And, Or, AndNot, LeftBits;
    Idx2BitPair(i, j);
    LeftBit(Idx2Bit(i), Idx2Bit(j));
    AndBit(LeftBits(Idx2Bit(i)), m, Idx2Bit(j));
  }

  lemma EmptyMap(i: nat)
    requires i < 32
    ensures !Marked(0, i)
  {}

  lemma Idx2BitStep(i: nat)
    requires i < 31
    ensures Idx2Bit(i + 1) == Twice(Idx2Bit(i))
  {}

  lemma HalfHas(m: bv32, b: bv32)
    ensures Has(Half(m), b) <==> Has(m, Twice(b))
  {}

  lemma TwiceHas(m: bv32, b: bv32)
    requires SingleBit(b) && Twice(b) != 0
    ensures Has(Twice(m), Twice(b)) <==> Has(m, b)
  {}

  /** The map shifted down by i has bin j where the map has bin i + j. */
  lemma {:induction false} ShiftedBit(m: bv32, i: nat, j: nat)
    requires i + j < 32
    ensures Marked(Shr(m, i), j) <==> Marked(m, i + j)
    decreases i
  {
    hide Idx2Bit, Has, Half, Twice;
    if i > 0 {
      ShiftedBit(Half(m), i - 1, j);
      HalfHas(m, Idx2Bit(i - 1 + j));
      Idx2BitStep(i - 1 + j);
    }
  }

  lemma TopShiftedOut(m: bv32)
    ensures !Has(m, Twice(Idx2Bit(31)))
  {}

  lemma {:induction false} ShiftedOut(m: bv32, i: nat, j: nat)
    requires j < 32 <= i + j
    ensures !Marked(Shr(m, i), j)
    decreases i
  {
    hide Idx2Bit, Has, Half, Twice;
    if i + j == 32 {
      ShiftedBit(Half(m), i - 1, j);
      HalfHas(m, Idx2Bit(31));
      TopShiftedOut(m);
    } else {
      ShiftedOut(Half(m), i - 1, j);
    }
  }

  lemma LowBits(x: bv32)
    ensures Has(x, 3) <==> Has(x, 1) || Has(x, 2)
  {}

  lemma LowIdx()
    ensures Idx2Bit(0) == 1 && Idx2Bit(1) == 2
  {}

  /** What dlmalloc reads off smallmap shifted down by i: bins i and i + 1, and whether any bin from i on is marked. */
  lemma SmallBits(m: bv32, i: nat)
    requires i < 32
    ensures Has(Shr(m, i), 1) <==> Marked(m, i)
    ensures Has(Shr(m, i), 3) <==> Marked(m, i) || (i < 31 && Marked(m, i + 1))
    ensures Shr(m, i) == 0 <==> forall j :: i <= j < 32 ==> !Marked(m, j)
  {
    hide Has, Idx2Bit, Shr;
    LowIdx();
    LowBits(Shr(m, i));
    ShiftedBit(m, i, 0);
    if i < 31 { ShiftedBit(m, i, 1); } else { ShiftedOut(m, i, 1); }
    if Shr(m, i) == 0 {
      forall j | i <= j < 32 ensures !Marked(m, j) { EmptyMap(j - i); ShiftedBit(m, i, j - i); }
    } else {
      NonEmptyMap(Shr(m, i));
      var k: nat :| k < 32 && Marked(Shr(m, i), k);
      if i + k < 32 { ShiftedBit(m, i, k); assert Marked(m, i + k); } else { ShiftedOut(m, i, k); }
    }
  }

  /** Shifting down and up again keeps every bin from i on. */
  lemma {:induction false} ShiftedBack(m: bv32, i: nat, j: nat)
    requires i <= j < 32
    ensures Marked(Shl(Shr(m, i), i), j) <==> Marked(m, j)
    decreases i
  {
    hide Idx2Bit, Has, Half, Twice, SingleBit;
    if i > 0 {
      ShiftedBack(Half(m), i - 1, j - 1);
      var b := Idx2Bit(j - 1);
      Idx2BitStep(j - 1);
      Idx2BitSingle(j - 1);
      Idx2BitNonZero(j);
      HalfHas(m, b);
      TwiceHas(Shl(Shr(Half(m), i - 1), i - 1), b);
    }
  }

  lemma Idx2BitNonZero(j: nat)
    requires j < 32
    ensures Idx2Bit(j) != 0
  {
    Idx2BitSingle(j);
  }

  /** The mask of the small path: exactly the bins above i. */
  lemma ShiftedLeft(m: bv32, i: nat, j: nat)
    requires i < 32 && j < 32
    ensures Marked(And(Shl(Shr(m, i), i), LeftBits(Idx2Bit(i))), j) <==> i < j && Marked(m, j)
  {
    hide Idx2Bit, Has, Half, Twice, SingleBit, And, LeftBits;
    Idx2BitPair(i, j);
    LeftBit(Idx2Bit(i), Idx2Bit(j));
    AndBit(Shl(Shr(m, i), i), LeftBits(Idx2Bit(i)), Idx2Bit(j));
    if i < j { ShiftedBack(m, i, j); }
  }

  /** compute_bit2idx without ffs or bsf: narrows by 16, 8, 4, 2 and 1. */
  function Bit2Idx(x: bv32): (r: bv32) {
    var y := x - 1;
    var k := (y >> 12) & 16;
    var n := k;
    var y := y >> k;
    var k := (y >> 5) & 8;
    var n := n + k;
    var y := y >> k;
    var k := (y >> 2) & 4;
    var n := n + k;
    var y := y >> k;
    var k := (y >> 1) & 2;
    var n := n + k;
    var y := y >> k;
    var k := y & 1;
    var n := n + k;
    var y := y >> k;
    n + y
  }

  lemma Bit2IdxInt(x: bv32)
    requires SingleBit(x)
    ensures 0 <= Bit2Idx(x) as int < 32 && Idx2Bit(Bit2Idx(x) as int) == x
  {}

  /** Index of the least marked bin, as least_bit and compute_bit2idx find it. */
  function FirstMarked(m: bv32): (r: nat)
    requires m != 0
    ensures r < 32 && Marked(m, r)
  {
    LeastBitSingle(m);
    Bit2IdxInt(LeastBit(m));
    Bit2Idx(LeastBit(m)) as int
  }

  lemma FirstMarkedIsLeast(m: bv32, j: nat)
    requires j < 32 && Marked(m, j)
    ensures m != 0 && FirstMarked(m) <= j
  {
    hide Idx2Bit, Has, SingleBit, LeastBit, Bit2Idx;
    if m == 0 { EmptyMap(j); }
    LeastBitSingle(m);
    Bit2IdxInt(LeastBit(m));
    Idx2BitSingle(j);
    LeastBitLeast(m, Idx2Bit(j));
    Idx2BitPair(FirstMarked(m), j);
  }

  lemma NonEmptyMap(m: bv32)
    requires m != 0
    ensures exists j: nat :: j < 32 && Marked(m, j)
  {
    assert Marked(m, FirstMarked(m));
  }
}
