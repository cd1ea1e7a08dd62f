/** The index macros of the tree bins: which bin a large chunk size selects, and which sizes a bin resolves. */
module TreeIndex {

  function Pow2(k: nat): (r: nat)
    ensures r >= 1
  { if k == 0 then 1 else 2 * Pow2(k - 1) }

  const WORD: nat := 0x1_0000_0000   // size_t arithmetic is modulo 2^32
  const MIN_LARGE_SIZE: nat := 256
  const NTREEBINS: nat := 32

  /** ((y - bound) >> 16) & b in 32-bit arithmetic: the step of the branch-free search. */
  function Step(y: nat, bound: nat, b: nat): (r: nat)
    requires b > 0 && bound <= WORD
  { (y + WORD - bound) % WORD / 0x10000 / b % 2 * b }

  lemma StepIs(y: nat, bound: nat, b: nat)
    requires y < 0x10000 && 0 < bound <= 0x10000 && b in {2, 4, 8}
    ensures Step(y, bound, b) == if y < bound then b else 0
  {
    if y < bound {
      assert (y + WORD - bound) % WORD == y + WORD - bound;
      assert (y + WORD - bound) / 0x10000 == 0xFFFF;
    } else {
      assert (y + WORD - bound) % WORD == y - bound;
    }
  }

  lemma Pow2Small()
    ensures Pow2(0) == 1 && Pow2(1) == 2 && Pow2(2) == 4 && Pow2(4) == 16 && Pow2(8) == 256 && Pow2(14) == 0x4000
  {}

  /** One narrowing: the shift count it adds, and the shifted value. */
  function Narrow(y: nat, bound: nat, b: nat): (r: (nat, nat))
    requires b > 0 && bound <= WORD
  { var k := Step(y, bound, b); (k, y * Pow2(k)) }

  lemma NarrowIs(y: nat, bound: nat, b: nat)
    requires y < 0x10000 && 0 < bound <= 0x10000 && b in {2, 4, 8}
    ensures Narrow(y, bound, b) == if y < bound then (b, y * Pow2(b)) else (0, y)
  {
    StepIs(y, bound, b);
    Pow2Small();
  }

  /** The shift count that compute_tree_index leaves in N, and the value it leaves in Y. */
  function Normalize(x: nat): (r: (nat, nat))
  {
    var (n, y) := Narrow(x, 0x100, 8);
    var (k, z) := Narrow(y, 0x1000, 4);
    var (j, w) := Narrow(z, 0x4000, 2);
    (n + k + j, w)
  }

  lemma NormalizeShifts(x: nat)
    requires 1 <= x <= 0xFFFF
    ensures var (n, y) := Normalize(x); n <= 14 && y == x * Pow2(n) && 0x4000 <= y < 0x10000
  {
    Pow2Small();
    NarrowIs(x, 0x100, 8);
    var (n, y) := Narrow(x, 0x100, 8);
    assert y == x * Pow2(n) && 0x100 <= y < 0x10000 && n <= 8;
    NarrowIs(y, 0x1000, 4);
    var (k, z) := Narrow(y, 0x1000, 4);
    assert 0x1000 <= z < 0x10000 && k <= 4;
    ShiftTwice(x, n, k);
    NarrowIs(z, 0x4000, 2);
    var (j, w) := Narrow(z, 0x4000, 2);
    assert 0x4000 <= w < 0x10000 && j <= 2;
    ShiftTwice(x, n + k, j);
  }

  lemma ShiftTwice(x: nat, a: nat, b: nat)
    ensures x * Pow2(a) * Pow2(b) == x * Pow2(a + b)
  {
    Pow2Sum(a, b);
    assert x * Pow2(a) * Pow2(b) == x * (Pow2(a) * Pow2(b));
  }

  /** The K that compute_tree_index derives: the position of the highest set bit of x. */
  function HighestBit(x: nat): (k: nat)
    requires 1 <= x <= 0xFFFF
    ensures k <= 15 && Pow2(k) <= x < 2 * Pow2(k)
  {
    NormalizeShifts(x);
    var (n, y) := Normalize(x);
    HighBit(x, n, y, 14 - n + y / 0x8000);
    14 - n + y / 0x8000
  }

  /** (S >> (K + (TREEBIN_SHIFT-1))) & 1 */
  function ExtraBit(s: nat, k: nat): (b: nat)
    ensures b <= 1
  { s / Pow2(k + 7) % 2 }

  /** compute_tree_index: a branch-free search for the highest bit of s >> 8, then one more bit of s. */
  function ComputeTreeIndex(s: nat): (i: nat)
    requires s < WORD
  {
    var x := s / 256;
    if x == 0 then 0
    else if x > 0xFFFF then NTREEBINS - 1
    else var k := HighestBit(x); 2 * k + ExtraBit(s, k)
  }

  /** minsize_for_tree_index */
  function MinSize(i: nat): (r: nat)
    requires i < NTREEBINS
  { Pow2(i / 2 + 8) + (if i % 2 == 1 then Pow2(i / 2 + 7) else 0) }

  /** bit_for_tree_index plus one: how many low bits of a size the trie in bin i resolves. */
  function ResolvedBits(i: nat): (r: nat)
    requires i < NTREEBINS
  { if i == NTREEBINS - 1 then 32 else i / 2 + 7 }

  /** The least size of the power-of-two range that the trie of bin i divides. */
  function RangeLow(i: nat): (r: nat)
    requires i < NTREEBINS
  { if i == NTREEBINS - 1 then 0 else MinSize(i) }

  lemma {:induction false} Pow2Sum(a: nat, b: nat)
    ensures Pow2(a + b) == Pow2(a) * Pow2(b)
  {
    if a > 0 {
      Pow2Sum(a - 1, b);
      MulAssoc(2, Pow2(a - 1), Pow2(b));
    }
  }

  lemma MulAssoc(x: nat, y: nat, z: nat)
    ensures x * (y * z) == (x * y) * z
  {}

  lemma MulLeq(a: nat, b: nat, p: nat)
    requires a <= b
    ensures a * p <= b * p
  {}

  /** If a * p and x * p order, so do a and x. */
  lemma CancelMul(a: nat, x: nat, p: nat)
    requires p > 0
    ensures a * p <= x * p ==> a <= x
    ensures x * p < a * p ==> x < a
  {
    if x < a { MulLeq(x + 1, a, p); } else { MulLeq(a, x, p); }
  }

  /** k is the position of the highest set bit of x */
  lemma HighBit(x: nat, n: nat, y: nat, k: nat)
    requires n <= 14 && y == x * Pow2(n) && 0x4000 <= y < 0x10000 && k == 14 - n + y / 0x8000
    ensures k <= 15 && Pow2(k) <= x < 2 * Pow2(k)
  {
    var m := 14 - n;
    var p := Pow2(n);
    assert Pow2(m) * p == 0x4000 by { Pow2Sum(m, n); Pow2Small(); }
    MulAssoc(2, Pow2(m), p);
    MulAssoc(4, Pow2(m), p);
    CancelMul(Pow2(m), x, p);
    CancelMul(2 * Pow2(m), x, p);
    CancelMul(4 * Pow2(m), x, p);
    assert k == if y < 0x8000 then m else m + 1;
  }

  /** The sizes that belong in bin i. */
  predicate InBin(s: nat, i: nat)
    requires i < NTREEBINS
  { MinSize(i) <= s && (i < NTREEBINS - 1 ==> s < MinSize(i + 1)) }

  /** Every large size selects the bin whose size range holds it. */
  lemma TreeIndexRange(s: nat)
    requires MIN_LARGE_SIZE <= s < WORD
    ensures ComputeTreeIndex(s) < NTREEBINS && InBin(s, ComputeTreeIndex(s))
  {
    if s / 256 <= 0xFFFF {
      var k := HighestBit(s / 256);
      ExtraBitIs(s, k);
      assert ComputeTreeIndex(s) == 2 * k + ExtraBit(s, k);
      MidIndex(s, k, ExtraBit(s, k));
    } else {
      TopBin();
    }
  }

  lemma ExtraBitIs(s: nat, k: nat)
    requires k <= 15 && Pow2(k) <= s / 256 < 2 * Pow2(k)
    ensures var q := Pow2(k + 7); 2 * q <= s < 4 * q && ExtraBit(s, k) == if s < 3 * q then 0 else 1
  {
    var q := Pow2(k + 7);
    assert 256 * Pow2(k) == 2 * q by { Pow2Sum(8, k); Pow2Small(); }
    DivTwoThree(s, q);
  }

  lemma MidIndex(s: nat, k: nat, b: nat)
    requires k <= 15
    requires var q := Pow2(k + 7); 2 * q <= s < 4 * q && b == if s < 3 * q then 0 else 1
    ensures InBin(s, 2 * k + b)
  {
    MinSizes(k);
    if b == 0 {
      assert InBin(s, 2 * k);
    } else {
      assert InBin(s, 2 * k + 1);
    }
  }

  lemma MinSizes(k: nat)
    requires k <= 15
    ensures MinSize(2 * k) == 2 * Pow2(k + 7) && MinSize(2 * k + 1) == 3 * Pow2(k + 7)
    ensures k < 15 ==> MinSize(2 * k + 2) == 4 * Pow2(k + 7)
  {
    assert (2 * k + 1) / 2 == k;
    assert k < 15 ==> (2 * k + 2) / 2 == k + 1;
  }

  lemma TopBin()
    ensures MinSize(31) == 0xC00000
  {
    MinSizes(15);
    Pow2Sum(14, 8);
    Pow2Small();
  }

  lemma DivTwoThree(s: nat, q: nat)
    requires q > 0 && 2 * q <= s < 4 * q
    ensures s / q % 2 == if s < 3 * q then 0 else 1
  {
    if s < 3 * q { DivIs(s, q, 2); } else { DivIs(s, q, 3); }
  }

  lemma DivIs(s: nat, q: nat, d: nat)
    requires q > 0 && d * q <= s < (d + 1) * q
    ensures s / q == d
  {
    var e := s / q;
    assert s == e * q + s % q;
    if e < d { MulLeq(e + 1, d, q); }
    if e > d { MulLeq(d + 1, e, q); }
  }

  lemma MinSizeNext(i: nat)
    requires i + 1 < NTREEBINS
    ensures MinSize(i) < MinSize(i + 1)
  {
    var k := i / 2;
    MinSizes(k);
    if i % 2 == 0 { assert i == 2 * k; } else { assert i == 2 * k + 1; }
  }

  lemma {:induction false} MinSizeMono(i: nat, j: nat)
    requires i < j < NTREEBINS
    ensures MinSize(i) < MinSize(j)
  {
    if i < j - 1 { MinSizeMono(i, j - 1); }
    MinSizeNext(j - 1);
  }

  /** A larger size never selects a lower bin, and a bin's size range determines the index. */
  lemma TreeIndexMono(s: nat, u: nat)
    requires MIN_LARGE_SIZE <= s && u < WORD
    requires s <= u
    ensures ComputeTreeIndex(s) <= ComputeTreeIndex(u)
  {
    TreeIndexRange(s);
    TreeIndexRange(u);
    var i, j := ComputeTreeIndex(s), ComputeTreeIndex(u);
    if j < i {
      if j + 1 < i { MinSizeMono(j + 1, i); }
    }
  }

  lemma Pow2Word()
    ensures Pow2(32) == WORD && Pow2(31) == 0x8000_0000
  {
    Pow2Small();
    Pow2Sum(14, 14);
    Pow2Sum(28, 4);
  }

  /** leftshift_for_tree_index */
  function LeftShift(i: nat): (r: nat)
    requires i < NTREEBINS
  { if i == NTREEBINS - 1 then 0 else 31 - (i / 2 + 6) }

  /** x << n without a word size */
  function Shifted(x: nat, n: nat): (r: nat)
  { if n == 0 then x else 2 * Shifted(x, n - 1) }

  lemma {:induction false} ShiftedSum(x: nat, y: nat, n: nat)
    ensures Shifted(x + y, n) == Shifted(x, n) + Shifted(y, n)
  { if n > 0 { ShiftedSum(x, y, n - 1); } }

  lemma {:induction false} ShiftedPow2(b: nat, n: nat)
    ensures Shifted(Pow2(b), n) == Pow2(b + n)
  { if n > 0 { ShiftedPow2(b, n - 1); } }

  lemma {:induction false} ShiftedMono(x: nat, y: nat, n: nat)
    requires x < y
    ensures Shifted(x, n) < Shifted(y, n)
  { if n > 0 { ShiftedMono(x, y, n - 1); } }

  /** S << leftshift_for_tree_index(I), in 32 bits. */
  function SizeBits(s: nat, i: nat): (k: nat)
    requires i < NTREEBINS
  { Shifted(s, LeftShift(i)) % WORD }

  /** SizeBits leaves the position of s within the range of the bin, scaled to fill the word. */
  lemma SizeBitsInit(s: nat, i: nat)
    requires i < NTREEBINS && RangeLow(i) <= s < RangeLow(i) + Pow2(ResolvedBits(i))
    ensures SizeBits(s, i) == Shifted(s - RangeLow(i), 32 - ResolvedBits(i))
  {
    RangeLowIs(i);
    DropRangeLow(RangeLow(i), s - RangeLow(i), ResolvedBits(i));
    assert LeftShift(i) == 32 - ResolvedBits(i);
  }

  lemma DropRangeLow(lo: nat, r: nat, b: nat)
    requires b <= 32 && r < Pow2(b) && (lo == 0 || lo == 2 * Pow2(b) || lo == 3 * Pow2(b))
    ensures Shifted(lo + r, 32 - b) % WORD == Shifted(r, 32 - b)
  {
    var n := 32 - b;
    var p := Pow2(b);
    ShiftedSum(lo, r, n);
    ShiftedSum(0, 0, n);
    ShiftedSum(p, p, n);
    ShiftedSum(2 * p, p, n);
    assert Shifted(p, n) == WORD by { ShiftedPow2(b, n); Pow2Word(); }
    ShiftedMono(r, p, n);
    var base := Shifted(lo, n);
    assert base == 0 || base == 2 * WORD || base == 3 * WORD;
  }

  lemma RangeLowIs(i: nat)
    requires i < NTREEBINS
    ensures var lo, p := RangeLow(i), Pow2(ResolvedBits(i)); lo == 0 || lo == 2 * p || lo == 3 * p
  {
    var k := i / 2;
    if i < 31 {
      MinSizes(k);
      if i % 2 == 0 { assert i == 2 * k; } else { assert i == 2 * k + 1; }
    }
  }

  /**
   * The sign bit of the scaled position tells which half of the range s lies in; shifting it out rescales to that half.
   */
  lemma SizeBitsStep(r: nat, b: nat, k: nat)
    requires 1 <= b <= 32 && r < Pow2(b) && k == Shifted(r, 32 - b)
    ensures k / 0x8000_0000 == if r < Pow2(b - 1) then 0 else 1
    ensures k * 2 % WORD == Shifted(if r < Pow2(b - 1) then r else r - Pow2(b - 1), 33 - b)
  {
    var n, h := 32 - b, Pow2(b - 1);
    ShiftedPow2(b - 1, n);
    ShiftedPow2(b, n);
    ShiftedMono(r, Pow2(b), n);
    Pow2Word();
    if r < h {
      ShiftedMono(r, h, n);
    } else {
      ShiftedSum(r - h, h, n);
    }
  }

  lemma BinsAscend(s: nat, i: nat, j: nat)
    requires i < j < NTREEBINS && InBin(s, i)
    ensures s < MinSize(j)
  {
    if i + 1 < j { MinSizeMono(i + 1, j); }
  }

  /** No size belongs in two bins, so InBin says exactly which index compute_tree_index yields. */
  lemma InBinUnique(s: nat, i: nat, j: nat)
    requires i < NTREEBINS && j < NTREEBINS && InBin(s, i) && InBin(s, j)
    ensures i == j
  {
    if i < j { BinsAscend(s, i, j); }
    if j < i { BinsAscend(s, j, i); }
  }

  lemma InBinRange(s: nat, i: nat)
    requires i < NTREEBINS && MIN_LARGE_SIZE <= s < WORD && InBin(s, i)
    ensures RangeLow(i) <= s < RangeLow(i) + Pow2(ResolvedBits(i))
  {
    hide Pow2, MinSize;
    if i < 31 {
      MinSizes(i / 2);
      assert i == 2 * (i / 2) || i == 2 * (i / 2) + 1;
    } else {
      Pow2Word();
    }
  }
}
