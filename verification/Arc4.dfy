/** The RC4 state of arc4random.c and the rejection sampling of arc4random_uniform. */
module Arc4 {

  const RANGE: nat := 0x1_0000_0000

  // ------------------------------ arc4random_uniform ------------------------------

  /** min, computed in 32 bits: 1 + ~x, or ((0xffffffff - 2x) + 1) % x. */
  function Threshold(x: nat): nat
    requires 2 <= x < RANGE
  {
    if x > 0x8000_0000 then (1 + (0xffff_ffff - x)) % RANGE
    else ((0xffff_ffff - x * 2 % RANGE) + 1) % RANGE % x
  }

  lemma Factor(x: nat, q: int, r: int)
    requires x > 0 && 0 <= r < x
    ensures (q * x + r) % x == r && (q * x + r) / x == q
  {
    var n := q * x + r;
    var d := n / x - q;
    assert n == n / x * x + n % x;
    assert d * x == r - n % x by { assert (n / x - q) * x == n / x * x - q * x; }
    NoGap(d, x);
  }

  lemma AtLeast(d: int, x: nat)
    requires d >= 1
    ensures d * x >= x
  {
    assert d * x == (d - 1) * x + x;
  }

  lemma NoGap(d: int, x: nat)
    requires x > 0 && -(x as int) < d * x < x
    ensures d == 0
  {
    assert -d * x == -(d * x);
    if d >= 1 { AtLeast(d, x); }
    if d <= -1 { AtLeast(-d, x); }
  }

  /** The 32-bit computation gives 2^32 mod upper_bound for every bound. */
  lemma ThresholdIsRemainder(x: nat)
    requires 2 <= x < RANGE
    ensures Threshold(x) == RANGE % x
  {
    hide Threshold;
    if x > 0x8000_0000 { LargeBound(x); } else { Doubled(x); TwoLess(x); }
  }

  lemma LargeBound(x: nat)
    requires 0x8000_0000 < x < RANGE
    ensures Threshold(x) == RANGE % x
  {
    Factor(x, 1, RANGE - x);
    assert 1 * x + (RANGE - x) == RANGE;
  }

  lemma TwoLess(x: nat)
    requires 2 <= x <= 0x8000_0000
    ensures (RANGE - 2 * x) % x == RANGE % x
  {
    var n := RANGE - 2 * x;
    var q, r := n / x, n % x;
    Parts(n, x);
    Distribute(q, x);
    Factor(x, q + 2, r);
  }

  lemma Parts(n: nat, x: nat)
    requires x > 0
    ensures n == n / x * x + n % x
  {}

  lemma Distribute(q: int, x: nat)
    ensures (q + 2) * x == q * x + 2 * x
  {}

  lemma Doubled(x: nat)
    requires 2 <= x <= 0x8000_0000
    ensures Threshold(x) == (RANGE - 2 * x) % x
  {
    if x < 0x8000_0000 {
      assert x * 2 % RANGE == 2 * x;
      assert (RANGE - 2 * x) % RANGE == RANGE - 2 * x;
    } else {
      assert x * 2 % RANGE == 0;
    }
  }

  /** The values from lo to hi that map to residue y. */
  ghost function Hits(lo: nat, hi: nat, x: nat, y: nat): set<nat>
    requires x > 0
  { set r: nat | lo <= r < hi && r % x == y }

  /** Every x consecutive values hit each residue once. */
  lemma OneHit(lo: nat, x: nat, y: nat) returns (r: nat)
    requires y < x
    ensures Hits(lo, lo + x, x, y) == {r}
  {
    r := HitIn(lo, x, y);
    forall s: nat | lo <= s < lo + x && s % x == y ensures s == r { SameResidue(s, r, x); }
  }

  lemma HitIn(lo: nat, x: nat, y: nat) returns (r: nat)
    requires y < x
    ensures lo <= r < lo + x && r % x == y
  {
    var q, z := lo / x, lo % x;
    Parts(lo, x);
    var q' := if z <= y then q else q + 1;
    NextMultiple(q, x);
    Factor(x, q', y);
    r := q' * x + y;
  }

  lemma NextMultiple(q: int, x: nat)
    ensures (q + 1) * x == q * x + x
  {}

  lemma SameResidue(s: nat, r: nat, x: nat)
    requires x > 0 && s % x == r % x && -(x as int) < s - r < x
    ensures s == r
  {
    Parts(s, x);
    Parts(r, x);
    assert s - r == (s / x - r / x) * x by { assert (s / x - r / x) * x == s / x * x - r / x * x; }
    NoGap(s / x - r / x, x);
  }

  lemma {:induction false} EqualShares(lo: nat, k: nat, x: nat, y: nat)
    requires y < x
    ensures |Hits(lo, lo + k * x, x, y)| == k
    decreases k
  {
    if k > 0 {
      EqualShares(lo, k - 1, x, y);
      var mid := lo + (k - 1) * x;
      assert lo + k * x == mid + x by { assert k * x == (k - 1) * x + x; }
      var r := OneHit(mid, x, y);
      assert r in Hits(mid, mid + x, x, y);
      assert Hits(lo, lo + k * x, x, y) == Hits(lo, mid, x, y) + {r};
    } else {
      assert Hits(lo, lo, x, y) == {};
    }
  }

  /** Exactly as many accepted 32-bit values map to each result below the bound. */
  lemma Uniform(x: nat, y: nat)
    requires 2 <= x < RANGE && y < x
    ensures |Hits(Threshold(x), RANGE, x, y)| == RANGE / x
  {
    ThresholdIsRemainder(x);
    assert RANGE == RANGE / x * x + RANGE % x;
    EqualShares(Threshold(x), RANGE / x, x, y);
  }

  /** More than half of all values are accepted. */
  lemma MostlyAccepted(x: nat)
    requires 2 <= x < RANGE
    ensures 2 * Threshold(x) < RANGE
  {
    hide Threshold;
    ThresholdIsRemainder(x);
    var q, r := RANGE / x, RANGE % x;
    Parts(RANGE, x);
    AtLeastOne(RANGE, x);
    AtLeast(q, x);
  }

  lemma AtLeastOne(n: nat, x: nat)
    requires 0 < x <= n
    ensures n / x >= 1
  {}

  datatype Roll = Retry | Chosen(value: nat)

  /** arc4random_uniform on the words that arc4random will deliver. */
  method UniformFrom(x: nat, words: seq<nat>) returns (r: Roll)
    requires x < RANGE && forall w :: w in words ==> w < RANGE
    ensures x < 2 ==> r == Chosen(0)
    ensures x >= 2 && r.Chosen? ==>
              exists n: nat :: n < |words| && words[n] >= RANGE % x && r.value == words[n] % x &&
                forall k :: 0 <= k < n ==> words[k] < RANGE % x
    ensures x >= 2 && r.Retry? ==> forall k :: 0 <= k < |words| ==> words[k] < RANGE % x
  {
    if x < 2 { return Chosen(0); }
    var min :=
      if x > 0x8000_0000 then (1 + (0xffff_ffff - x)) % RANGE else ((0xffff_ffff - x * 2 % RANGE) + 1) % RANGE % x;
    ThresholdIsRemainder(x);
    for n := 0 to |words|
      invariant forall k :: 0 <= k < n ==> words[k] < min
    {
      if words[n] >= min { return Chosen(words[n] % x); }
    }
    return Retry;
  }

  // ------------------------------ the RC4 state ------------------------------

  /** A permutation of 0..255: 256 different bytes. */
  ghost predicate Permutation(s: seq<nat>)
  { |s| == 256 && (forall i :: 0 <= i < 256 ==> s[i] < 256) && forall i, j :: 0 <= i < j < 256 ==> s[i] != s[j] }

  lemma {:induction false} Distinct(s: seq<nat>, n: nat)
    requires n <= |s| && forall i, j :: 0 <= i < j < |s| ==> s[i] != s[j]
    ensures |set i | 0 <= i < n :: s[i]| == n
    decreases n
  {
    if n > 0 {
      Distinct(s, n - 1);
      assert (set i | 0 <= i < n :: s[i]) == (set i | 0 <= i < n - 1 :: s[i]) + {s[n - 1]};
    }
  }

  predicate Below(v: nat, n: nat) { v < n }

  ghost function Bytes(n: nat): set<nat> { set v: nat | v < n && Below(v, n) }

  lemma {:induction false} Range(n: nat)
    ensures |Bytes(n)| == n
  {
    if n > 0 {
      Range(n - 1);
      assert Bytes(n) == Bytes(n - 1) + {n - 1};
    }
  }

  lemma SubsetEqual(a: set<nat>, b: set<nat>)
    requires a <= b && |a| == |b|
    ensures a == b
  {
    assert b == a + (b - a);
  }

  /** Every byte occurs. */
  lemma EveryByte(s: seq<nat>, v: nat)
    requires Permutation(s) && v < 256
    ensures v in s
  {
    var a, b := set i | 0 <= i < 256 :: s[i], Bytes(256);
    Distinct(s, 256);
    Range(256);
    SubsetEqual(a, b);
    assert v in a;
  }

  /** Addition of u_int8_t values. */
  function Turn(x: nat, y: nat): (z: nat)
    ensures z < 256
  { (x + y) % 256 }

  lemma TurnStep(x: nat, n: nat)
    ensures Turn(Turn(x, n), 1) == Turn(x, n + 1)
  {}

  lemma TurnNone(x: nat)
    requires x < 256
    ensures Turn(x, 0) == x
  {}

  lemma TurnAll(x: nat)
    requires x < 256
    ensures Turn(x, 256) == x
  {}

  /** The state of the RC4 generator as a value. */
  datatype Rc4 = Rc4(s: seq<nat>, i: nat, j: nat)

  ghost predicate Rc4Ok(g: Rc4) { Permutation(g.s) && g.i < 256 && g.j < 256 }

  function Swapped(s: seq<nat>, x: nat, y: nat): seq<nat>
    requires x < |s| && y < |s|
  { s[x := s[y]][y := s[x]] }

  /** One step of RC4: advance i, advance j by the entry at i and by d, exchange the two entries. */
  ghost function Advance(g: Rc4, d: nat): (r: Rc4)
    requires Rc4Ok(g)
    ensures Rc4Ok(r)
  {
    var i := Turn(g.i, 1);
    var j := Turn(g.j, g.s[i] + d);
    Rc4(Swapped(g.s, i, j), i, j)
  }

  /** Byte n of the key written again and again. */
  ghost function Repeated(key: seq<nat>, n: nat): nat
    requires |key| > 0
  { if n < |key| then key[n] else Repeated(key, n - |key|) }

  lemma {:induction false} RepeatedAt(key: seq<nat>, n: nat)
    requires |key| > 0
    ensures Repeated(key, n) == key[n % |key|]
  {
    if n >= |key| {
      RepeatedAt(key, n - |key|);
      SameRest(n, |key|);
    } else {
      SmallRest(n, |key|);
    }
  }

  lemma SameRest(n: nat, len: nat)
    requires 0 < len <= n
    ensures (n - len) % len == n % len
  {
    var q, r := (n - len) / len, (n - len) % len;
    assert n == (q + 1) * len + r;
    RestIs(n, len, q + 1, r);
  }

  lemma SmallRest(n: nat, len: nat)
    requires n < len
    ensures n % len == n
  {
    RestIs(n, len, 0, n);
  }

  lemma RestIs(n: nat, len: nat, q: nat, r: nat)
    requires r < len && n == q * len + r
    ensures n % len == r
  {
    var p, m := n / len, n % len;
    assert n == p * len + m;
    OneQuotient(p, m, q, r, len);
  }

  lemma OneQuotient(p: nat, m: nat, q: nat, r: nat, len: nat)
    requires m < len && r < len && p * len + m == q * len + r
    ensures m == r
  {
    assert (q - p) * len == q * len - p * len && (p - q) * len == p * len - q * len;
    if q != p { OnceAtLeast(if q > p then q - p else p - q, len); }
  }

  lemma OnceAtLeast(k: nat, len: nat)
    requires k > 0
    ensures k * len >= len
  {}

  /** RC4's key schedule: n steps with the key bytes in turn. */
  ghost function Keyed(g: Rc4, key: seq<nat>, n: nat): (r: Rc4)
    requires Rc4Ok(g) && |key| > 0
    ensures Rc4Ok(r)
  { if n == 0 then g else Advance(Keyed(g, key, n - 1), Repeated(key, n - 1)) }

  class Stream {
    var i: nat
    var j: nat
    const s: array<nat>

    ghost function View(): Rc4
      reads this, s
    { Rc4(s[..], i, j) }

    ghost predicate Valid()
      reads this, s
    { s.Length == 256 && Rc4Ok(View()) }

    /** arc4_init */
    constructor ()
      ensures Valid() && fresh(s) && i == 0 && j == 0 && forall k :: 0 <= k < 256 ==> s[k] == k
    {
      var a := new nat[256];
      for n := 0 to 256
        invariant forall k :: 0 <= k < n ==> a[k] == k
      {
        a[n] := n;
      }
      s := a;
      i, j := 0, 0;
    }

    /** The exchange of two entries. */
    method Exchange(x: nat, y: nat)
      requires x < 256 && y < 256 && s.Length == 256
      modifies s
      ensures s[..] == Swapped(old(s[..]), x, y)
    {
      ghost var was := s[..];
      var sx := s[x];
      s[x] := s[y];
      s[y] := sx;
      assert s[..] == Swapped(was, x, y);
    }

    /** arc4_addrandom: 256 steps of the key schedule with dat as the key. */
    method AddRandom(dat: seq<nat>)
      requires Valid() && |dat| > 0 && forall k :: 0 <= k < |dat| ==> dat[k] < 256
      modifies this, s
      ensures Valid() && i == j == old(Turn(i, 255))
      ensures s[..] == Keyed(old(View()).(i := old(Turn(i, 255))), dat, 256).s
    {
      hide Permutation, Turn, Repeated;
      i := Turn(i, 255);
      ghost var g := View();
      TurnNone(i);
      for n := 0 to 256
        invariant Valid() && View() == Keyed(g, dat, n) && i == Turn(g.i, n)
      {
        TurnStep(g.i, n);
        ghost var was := View();
        i := Turn(i, 1);
        ByteOf(s[..], i);
        RepeatedAt(dat, n);
        j := Turn(j, s[i] + dat[n % |dat|]);
        Exchange(i, j);
        assert View() == Advance(was, Repeated(dat, n));
      }
      TurnAll(g.i);
      j := i;
    }

    /** arc4_getbyte: one step of RC4 and its output byte. */
    method GetByte() returns (r: nat)
      requires Valid()
      modifies this, s
      ensures Valid() && View() == Advance(old(View()), 0) && r == s[Turn(s[i], s[j])] && r < 256
    {
      hide Permutation, Turn;
      ghost var was := View();
      i := Turn(i, 1);
      ByteOf(s[..], i);
      var si := s[i];
      j := Turn(j, si);
      var sj := s[j];
      Exchange(i, j);
      assert View() == Advance(was, 0);
      ByteOf(s[..], Turn(si, sj));
      TurnComm(si, sj);
      r := s[Turn(si, sj)];
    }
  }

  lemma TurnComm(x: nat, y: nat)
    ensures Turn(x, y) == Turn(y, x)
  {}

  lemma ByteOf(s: seq<nat>, k: nat)
    requires Permutation(s) && k < 256
    ensures s[k] < 256
  {}
}
