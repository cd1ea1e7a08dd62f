/** SHA-1 of sha1.c, against the algorithm of FIPS PUB 180-1. */
module Sha1 {

  type Word = bv32
  type Byte = bv8

  // ------------------------------ FIPS PUB 180-1 ------------------------------

  /** The functions of section 5. */
  function F(t: nat, b: Word, c: Word, d: Word): Word
  {
    if t < 20 then (b & c) | (!b & d)
    else if t < 40 then b ^ c ^ d
    else if t < 60 then (b & c) | (b & d) | (c & d)
    else b ^ c ^ d
  }

  /** The circular left shift of section 3, by the numbers of places that the algorithm uses. */
  function S1(x: Word): Word { x.RotateLeft(1) }

  function S5(x: Word): Word { x.RotateLeft(5) }

  function S30(x: Word): Word { x.RotateLeft(30) }

  /** The constants of section 6. */
  function K(t: nat): Word
  { if t < 20 then 0x5A827999 else if t < 40 then 0x6ED9EBA1 else if t < 60 then 0x8F1BBCDC else 0xCA62C1D6 }

  datatype Five = Five(a: Word, b: Word, c: Word, d: Word, e: Word)

  const INIT: Five := Five(0x67452301, 0xEFCDAB89, 0x98BADCFE, 0x10325476, 0xC3D2E1F0)

  /** The 80-word schedule of section 7. */
  function W(block: seq<Word>, t: nat): Word
    requires |block| == 16
  { if t < 16 then block[t] else S1(W(block, t - 3) ^ W(block, t - 8) ^ W(block, t - 14) ^ W(block, t - 16)) }

  function Temp(a: Word, f: Word, e: Word, w: Word, k: Word): Word { a + f + e + w + k }

  /** One step of section 7. */
  function Step(s: Five, t: nat, w: Word): Five
  { Five(Temp(S5(s.a), F(t, s.b, s.c, s.d), s.e, w, K(t)), s.a, S30(s.b), s.c, s.d) }

  function Steps(s: Five, block: seq<Word>, t: nat): Five
    requires |block| == 16
  { if t == 0 then s else Step(Steps(s, block, t - 1), t - 1, W(block, t - 1)) }

  function Plus(x: Word, y: Word): Word { x + y }

  function Add(s: Five, r: Five): Five
  { Five(Plus(s.a, r.a), Plus(s.b, r.b), Plus(s.c, r.c), Plus(s.d, r.d), Plus(s.e, r.e)) }

  function Compress(s: Five, block: seq<Word>): Five
    requires |block| == 16
  { Add(s, Steps(s, block, 80)) }

  /** Four bytes, most significant first. */
  function BigEndian(b: seq<Byte>, i: nat): Word
    requires 4 * i + 4 <= |b|
  { Join(b[4 * i], b[4 * i + 1], b[4 * i + 2], b[4 * i + 3]) }

  function Join(w: Byte, x: Byte, y: Byte, z: Byte): Word
  { (w as bv32 << 24) | (x as bv32 << 16) | (y as bv32 << 8) | z as bv32 }

  function Words(b: seq<Byte>): (r: seq<Word>)
    requires |b| == 64
    ensures |r| == 16
  { seq(16, i requires 0 <= i < 16 => BigEndian(b, i)) }

  /** The chaining value after the blocks of a message whose length is a multiple of 64 bytes. */
  function Chain(s: Five, m: seq<Byte>): Five
    decreases |m|
  { if |m| < 64 then s else Chain(Compress(s, Words(m[..64])), m[64..]) }

  /** The constants are the integer square roots of 2, 3, 5 and 10 times 2^60. */
  lemma ConstantsAreRoots()
    ensures IsRoot(K(0) as int, 2) && IsRoot(K(20) as int, 3) && IsRoot(K(40) as int, 5) && IsRoot(K(60) as int, 10)
  {}

  predicate IsRoot(k: int, n: int) { k * k <= n * 0x1000_0000_0000_0000 < (k + 1) * (k + 1) }

  /** The initial words, least significant byte first, count up through the sixteen digits and down again. */
  lemma InitialDigits(j: nat)
    requires j < 5
    ensures var w := [INIT.a, INIT.b, INIT.c, INIT.d, INIT.e][j];
      w as int ==
        Digits(4 * j) + 0x100 * Digits(4 * j + 1) + 0x1_0000 * Digits(4 * j + 2) + 0x100_0000 * Digits(4 * j + 3)
  {}

  /** Byte k of the twenty: 01 23 .. EF, FE DC .. 10, F0 E1 D2 C3. */
  function Digits(k: nat): int
  { if k < 8 then 34 * k + 1 else if k < 16 then 254 - 34 * (k - 8) else 240 - 15 * (k - 16) }

  // ------------------------------ SHA1Transform ------------------------------

  // rol(value, bits)

  function Rol1(x: Word): Word { (x << 1) | (x >> 31) }

  function Rol5(x: Word): Word { (x << 5) | (x >> 27) }

  function Rol8(x: Word): Word { (x << 8) | (x >> 24) }

  function Rol24(x: Word): Word { (x << 24) | (x >> 8) }

  function Rol30(x: Word): Word { (x << 30) | (x >> 2) }

  /** The shifts are circular. */
  lemma RolIsShift(x: Word)
    ensures Rol1(x) == S1(x) && Rol5(x) == S5(x) && Rol30(x) == S30(x)
    ensures Rol8(x) == x.RotateLeft(8) && Rol24(x) == x.RotateLeft(24)
  {}

  /** The constants of R0 to R4. */
  function Added(i: nat): Word
  {
    if i / 20 == 0 then 0x5A827999 else if i / 20 == 1 then 0x6ED9EBA1 else if i / 20 == 2 then 0x8F1BBCDC
    else 0xCA62C1D6
  }

  /** ((w&(x^y))^y), (w^x^y), (((w|x)&y)|(w&x)) */
  function Mix(t: nat, w: Word, x: Word, y: Word): Word
  {
    if t < 20 then (w & (x ^ y)) ^ y else if t < 40 then w ^ x ^ y
    else if t < 60 then ((w | x) & y) | (w & x) else w ^ x ^ y
  }

  lemma Choose(w: Word, x: Word, y: Word)
    ensures (w & (x ^ y)) ^ y == (w & x) | (!w & y)
  {}

  lemma Majority(w: Word, x: Word, y: Word)
    ensures ((w | x) & y) | (w & x) == (w & x) | (w & y) | (x & y)
  {}

  lemma MixIsF(t: nat, w: Word, x: Word, y: Word)
    ensures Mix(t, w, x, y) == F(t, w, x, y)
  {
    Choose(w, x, y);
    Majority(w, x, y);
  }

  /** blk0 on a little-endian machine */
  function Swap(x: Word): Word { (Rol24(x) & 0xFF00FF00) | (Rol8(x) & 0x00FF00FF) }

  /** What a little-endian machine loads from four bytes. */
  function Load(b: seq<Byte>, i: nat): Word
    requires 4 * i + 4 <= |b|
  { Join(b[4 * i + 3], b[4 * i + 2], b[4 * i + 1], b[4 * i]) }

  lemma SwapBytes(w: Word, x: Word, y: Word, z: Word)
    requires w < 256 && x < 256 && y < 256 && z < 256
    ensures var l := (z << 24) | (y << 16) | (x << 8) | w;
            (((l << 24) | (l >> 8)) & 0xFF00FF00) | (((l << 8) | (l >> 24)) & 0x00FF00FF) ==
              (w << 24) | (x << 16) | (y << 8) | z
  {}

  lemma Small(x: Byte)
    ensures x as bv32 < 256
  {}

  lemma SwapJoin(w: Byte, x: Byte, y: Byte, z: Byte)
    ensures Swap(Join(z, y, x, w)) == Join(w, x, y, z)
  {
    Small(w);
    Small(x);
    Small(y);
    Small(z);
    SwapBytes(w as bv32, x as bv32, y as bv32, z as bv32);
  }

  lemma Reorder(z: Word, f: Word, b: Word, k: Word, r: Word)
    ensures z + (f + b + k + r) == r + f + z + b + k
  {}

  /** The sum of one round, in the order of the code. */
  function RoundSum(z: Word, f: Word, b: Word, k: Word, r: Word): Word { z + (f + b + k + r) }

  lemma RoundSumIs(z: Word, f: Word, b: Word, k: Word, r: Word)
    ensures RoundSum(z, f, b, k, r) == Temp(r, f, z, b, k)
  {
    Reorder(z, f, b, k, r);
  }

  /** blk for rounds from 16 on: the new word in its place of the circular schedule. */
  function Blk(l: seq<Word>, i: nat): Word
    requires |l| == 16
  { Rol1(l[(i + 13) % 16] ^ l[(i + 8) % 16] ^ l[(i + 2) % 16] ^ l[i % 16]) }

  /** l holds the last 16 words of the schedule before round i. */
  ghost predicate Window(l: seq<Word>, block: seq<Word>, i: nat)
    requires |block| == 16
  { |l| == 16 && forall t: nat :: t < i <= t + 16 ==> l[t % 16] == W(block, t) }

  lemma BlkIsW(l: seq<Word>, block: seq<Word>, i: nat)
    requires |block| == 16 && i >= 16 && Window(l, block, i)
    ensures Blk(l, i) == W(block, i)
  {
    assert (i + 13) % 16 == (i - 3) % 16 && (i + 8) % 16 == (i - 8) % 16;
    assert (i + 2) % 16 == (i - 14) % 16 && i % 16 == (i - 16) % 16;
    assert l[(i - 3) % 16] == W(block, i - 3);
    assert l[(i - 8) % 16] == W(block, i - 8);
    assert l[(i - 14) % 16] == W(block, i - 14);
    assert l[(i - 16) % 16] == W(block, i - 16);
    RolIsShift(W(block, i - 3) ^ W(block, i - 8) ^ W(block, i - 14) ^ W(block, i - 16));
  }

  lemma WindowMoves(l: seq<Word>, block: seq<Word>, i: nat)
    requires |block| == 16 && Window(l, block, i)
    ensures Window(l[i % 16 := W(block, i)], block, i + 1)
  {
    hide W;
    var l' := l[i % 16 := W(block, i)];
    forall t: nat | t < i + 1 <= t + 16 ensures l'[t % 16] == W(block, t) {
      if t < i { assert t % 16 != i % 16; assert l[t % 16] == W(block, t); }
    }
  }

  /** The register that plays role r (a is 0, e is 4) in round i: the roles move round instead of the values. */
  function Reg(i: nat, r: nat): (k: nat)
    requires r < 5
    ensures k < 5
  { (r + 4 * i) % 5 }

  lemma RegMoves(i: nat, r: nat)
    requires r < 5
    ensures Reg(i + 1, (r + 1) % 5) == Reg(i, r)
  {}

  lemma RegsDiffer(i: nat, r: nat, q: nat)
    requires r < q < 5
    ensures Reg(i, r) != Reg(i, q)
  {}

  /** The registers as the specification's five words before round i. */
  function Roles(regs: seq<Word>, i: nat): Five
    requires |regs| == 5
  { Five(regs[Reg(i, 0)], regs[Reg(i, 1)], regs[Reg(i, 2)], regs[Reg(i, 3)], regs[Reg(i, 4)]) }

  /** R0 to R4: z += f + word + constant + rol(v, 5); w = rol(w, 30) */
  function Round(regs: seq<Word>, i: nat, word: Word): (r: seq<Word>)
    requires |regs| == 5
    ensures |r| == 5
  {
    var s := Roles(regs, i);
    regs[Reg(i, 4) := RoundSum(s.e, Mix(i, s.b, s.c, s.d), word, Added(i), Rol5(s.a))][Reg(i, 1) := Rol30(s.b)]
  }

  lemma RoundIsStep(regs: seq<Word>, i: nat, word: Word)
    requires |regs| == 5
    ensures Roles(Round(regs, i, word), i + 1) == Step(Roles(regs, i), i, word)
  {
    hide Reg, Mix, F, RoundSum, Temp, Rol5, Rol30, S5, S30;
    var s := Roles(regs, i);
    assert Added(i) == K(i);
    RolIsShift(s.a);
    RolIsShift(s.b);
    MixIsF(i, s.b, s.c, s.d);
    RoundSumIs(s.e, F(i, s.b, s.c, s.d), word, K(i), S5(s.a));
    RegsDiffer(i, 0, 1); RegsDiffer(i, 0, 4); RegsDiffer(i, 1, 2); RegsDiffer(i, 1, 3); RegsDiffer(i, 1, 4);
    RegsDiffer(i, 2, 4); RegsDiffer(i, 3, 4);
    RegMoves(i, 0); RegMoves(i, 1); RegMoves(i, 2); RegMoves(i, 3); RegMoves(i, 4);
  }

  /** The 80 rounds of SHA1Transform, on a copy of the block. */
  method Rounds(start: seq<Word>, buffer: seq<Byte>) returns (regs: seq<Word>)
    requires |start| == 5 && |buffer| == 64
    ensures |regs| == 5 && FromSeq(regs) == Steps(FromSeq(start), Words(buffer), 80)
  {
    hide Round, W, Step, Blk, Words, Load, Swap, Roles, FromSeq, Window;
    ghost var block := Words(buffer);
    ghost var s := FromSeq(start);
    var l := seq(16, i requires 0 <= i < 16 => Load(buffer, i));
    regs := start;
    RolesStart(regs);
    WindowStart(l, block);
    for i := 0 to 80
      invariant |l| == 16 && |regs| == 5 && Roles(regs, i) == Steps(s, block, i) && Window(l, block, i)
      invariant forall j :: i <= j < 16 ==> l[j] == Load(buffer, j)
    {
      var word;
      if i < 16 {
        word := Swap(l[i]);
        SwapLoad(buffer, i);
      } else {
        word := Blk(l, i);
        BlkIsW(l, block, i);
      }
      WindowMoves(l, block, i);
      l := l[i % 16 := word];
      RoundIsStep(regs, i, word);
      regs := Round(regs, i, word);
    }
    RolesEnd(regs);
  }

  lemma WindowStart(l: seq<Word>, block: seq<Word>)
    requires |block| == 16 && |l| == 16
    ensures Window(l, block, 0)
  {}

  /** SHA1Transform */
  method Transform(state: array<Word>, buffer: seq<Byte>)
    requires state.Length == 5 && |buffer| == 64
    modifies state
    ensures FromSeq(state[..]) == Compress(old(FromSeq(state[..])), Words(buffer))
  {
    hide Steps, Words, Plus;
    var regs := Rounds(state[..], buffer);
    ghost var was := state[..];
    state[0] := Plus(state[0], regs[0]);
    state[1] := Plus(state[1], regs[1]);
    state[2] := Plus(state[2], regs[2]);
    state[3] := Plus(state[3], regs[3]);
    state[4] := Plus(state[4], regs[4]);
    assert FromSeq(state[..]) == Add(FromSeq(was), FromSeq(regs));
  }

  function FromSeq(s: seq<Word>): Five
    requires |s| == 5
  { Five(s[0], s[1], s[2], s[3], s[4]) }

  lemma RolesStart(regs: seq<Word>)
    requires |regs| == 5
    ensures Roles(regs, 0) == FromSeq(regs)
  {}

  lemma RolesEnd(regs: seq<Word>)
    requires |regs| == 5
    ensures Roles(regs, 80) == FromSeq(regs)
  {}

  lemma SwapLoad(b: seq<Byte>, i: nat)
    requires |b| == 64 && i < 16
    ensures Swap(Load(b, i)) == W(Words(b), i)
  {
    hide Swap, Join;
    SwapJoin(b[4 * i], b[4 * i + 1], b[4 * i + 2], b[4 * i + 3]);
  }

  // ------------------------------ streaming ------------------------------

  const WORD_RANGE: nat := 0x1_0000_0000
  const COUNT_RANGE: nat := 0x1_0000_0000_0000_0000

  lemma {:induction false} ChainAppend(s: Five, a: seq<Byte>, b: seq<Byte>)
    requires |a| % 64 == 0
    ensures Chain(s, a + b) == Chain(Chain(s, a), b)
    decreases |a|
  {
    hide Compress, Words;
    if |a| == 0 {
      assert a + b == b;
    } else {
      assert (a + b)[..64] == a[..64] && (a + b)[64..] == a[64..] + b;
      ChainAppend(Compress(s, Words(a[..64])), a[64..], b);
    }
  }

  lemma ChainOne(s: Five, a: seq<Byte>, block: seq<Byte>)
    requires |a| % 64 == 0 && |block| == 64
    ensures Chain(s, a + block) == Compress(Chain(s, a), Words(block))
  {
    hide Compress, Words;
    ChainAppend(s, a, block);
    assert block[..64] == block && block[64..] == [];
  }

  /** The bytes that make up whole blocks, and the rest. */
  function Whole(m: seq<Byte>): seq<Byte> { m[..|m| - |m| % 64] }

  function Rest(m: seq<Byte>): seq<Byte> { m[|m| - |m| % 64..] }

  /** count[1] and count[0] hold the length in bits modulo 2^64. */
  ghost predicate Counts(lo: nat, hi: nat, n: nat)
  { lo < WORD_RANGE && hi < WORD_RANGE && hi * WORD_RANGE + lo == 8 * n % COUNT_RANGE }

  lemma Mod64(x: nat, q: nat, r: nat)
    requires x == 64 * q + r && r < 64
    ensures x % 64 == r
  {}

  /** (count[0] >> 3) & 63 */
  function Index(lo: nat): (j: nat)
    ensures j < 64
  { lo / 8 % 64 }

  /** count[0] holds the length in bits modulo 2^32. */
  ghost predicate LowRight(lo: nat, n: nat) { lo == 8 * n % WORD_RANGE }

  lemma CountIndex(lo: nat, n: nat)
    requires LowRight(lo, n)
    ensures Index(lo) == n % 64
  {
    var q := 8 * n / WORD_RANGE;
    assert 8 * n == q * WORD_RANGE + lo;
    assert n == q * 0x2000_0000 + lo / 8;
    var r := lo / 8;
    Mod64(n, q * 0x80_0000 + r / 64, r % 64);
  }

  lemma LowAdds(lo: nat, n: nat, len: nat)
    requires LowRight(lo, n)
    ensures LowRight(NewLo(lo, len), n + len)
  {}

  lemma CountMod(x: nat, q: nat, r: nat)
    requires x == COUNT_RANGE * q + r && r < COUNT_RANGE
    ensures x % COUNT_RANGE == r
  {}

  /** count[0] += len << 3, and count[1] += (len >> 29) + 1 if that carries. */
  function NewLo(lo: nat, len: nat): nat { (lo + 8 * len % WORD_RANGE) % WORD_RANGE }

  function NewHi(lo: nat, hi: nat, len: nat): nat
  { if NewLo(lo, len) < lo then (hi + len / 0x2000_0000 + 1) % WORD_RANGE else hi }

  lemma HighFits(lo: nat, hi: nat, len: nat)
    requires hi < WORD_RANGE
    ensures NewHi(lo, hi, len) < WORD_RANGE
  {}

  /** The count is right for every call of less than 2^29 bytes. */
  lemma CountAdds(lo: nat, hi: nat, n: nat, len: nat)
    requires Counts(lo, hi, n) && len < 0x2000_0000
    ensures Counts(NewLo(lo, len), NewHi(lo, hi, len), n + len)
  {
    var q := 8 * n / COUNT_RANGE;
    assert 8 * n == COUNT_RANGE * q + hi * WORD_RANGE + lo;
    assert 8 * len % WORD_RANGE == 8 * len;
    var t := lo + 8 * len;
    if t < WORD_RANGE {
      assert NewLo(lo, len) == t;
      CountMod(8 * (n + len), q, hi * WORD_RANGE + t);
    } else {
      assert NewLo(lo, len) == t - WORD_RANGE;
      assert len / 0x2000_0000 == 0;
      if hi + 1 < WORD_RANGE {
        assert (hi + 1) % WORD_RANGE == hi + 1;
        CountMod(8 * (n + len), q, (hi + 1) * WORD_RANGE + t - WORD_RANGE);
      } else {
        assert (hi + 1) % WORD_RANGE == 0;
        CountMod(8 * (n + len), q + 1, t - WORD_RANGE);
      }
    }
  }

  /** The carry of the low word when a call of len bytes is counted. */
  predicate Carries(lo: nat, len: nat) { lo + 8 * len % WORD_RANGE >= WORD_RANGE }

  /** A longer call is counted right exactly when the low word carries. */
  lemma LongCall(lo: nat, hi: nat, n: nat, len: nat)
    requires Counts(lo, hi, n) && 0x2000_0000 <= len < WORD_RANGE
    ensures Counts(NewLo(lo, len), NewHi(lo, hi, len), n + len) <==> Carries(lo, len)
  {
    var k, r := len / 0x2000_0000, 8 * len % WORD_RANGE;
    assert 8 * len == k * WORD_RANGE + r && 1 <= k < 8;
    var q := 8 * n / COUNT_RANGE;
    assert 8 * (n + len) == COUNT_RANGE * q + (hi + k) * WORD_RANGE + lo + r;
    if Carries(lo, len) {
      assert NewLo(lo, len) == lo + r - WORD_RANGE;
      TopWord(8 * (n + len), q, hi + k + 1, lo + r - WORD_RANGE);
    } else {
      assert NewLo(lo, len) == lo + r && NewHi(lo, hi, len) == hi;
      TopWord(8 * (n + len), q, hi + k, lo + r);
    }
  }

  lemma TopWord(x: nat, q: nat, h: nat, l: nat)
    requires x == COUNT_RANGE * q + h * WORD_RANGE + l && h < 2 * WORD_RANGE && l < WORD_RANGE
    ensures x % COUNT_RANGE == h % WORD_RANGE * WORD_RANGE + l
  {
    if h < WORD_RANGE {
      CountMod(x, q, h * WORD_RANGE + l);
    } else {
      assert h % WORD_RANGE == h - WORD_RANGE;
      CountMod(x, q + 1, (h - WORD_RANGE) * WORD_RANGE + l);
    }
  }

  /** The calls after which the count is still right. */
  predicate Counted(lo: nat, len: nat) { len < 0x2000_0000 || Carries(lo, len) }

  lemma CountedExactly(lo: nat, hi: nat, n: nat, len: nat)
    requires Counts(lo, hi, n) && len < WORD_RANGE
    ensures Counts(NewLo(lo, len), NewHi(lo, hi, len), n + len) <==> Counted(lo, len)
  {
    hide Counts, NewLo, NewHi, Carries;
    if len < 0x2000_0000 { CountAdds(lo, hi, n, len); } else { LongCall(lo, hi, n, len); }
  }

  /** A first call of 2^29 bytes is counted as nothing. */
  lemma LongCallMiscounts()
    ensures NewLo(0, 0x2000_0000) == 0 && NewHi(0, 0, 0x2000_0000) == 0 && Counts(0, 0, 0) && !Counts(0, 0, 0x2000_0000)
  {}

  // ------------------------------ padding and digest ------------------------------

  function ZeroCount(n: nat): (k: nat)
    ensures k < 64 && (n + 1 + k + 8) % 64 == 0
  { var k := (119 - n % 64) % 64; Mod64(n + 9 + k, n / 64 + (n % 64 + 9 + k) / 64, 0); k }

  /** Eight bytes, most significant first. */
  function LengthBytes(bits: nat): (r: seq<Byte>)
    ensures |r| == 8
  { HalfBytes(bits / WORD_RANGE % WORD_RANGE) + HalfBytes(bits % WORD_RANGE) }

  function HalfBytes(x: nat): (r: seq<Byte>)
    ensures |r| == 4
  { [Low(x / 0x100_0000), Low(x / 0x1_0000), Low(x / 0x100), Low(x)] }

  function Low(x: nat): Byte { (x % 256) as bv8 }

  /** A message padded with a one bit, zeros and a length field. */
  function PadWith(m: seq<Byte>, field: seq<Byte>): (r: seq<Byte>)
    requires |field| == 8
    ensures |r| % 64 == 0
  { m + [0x80] + seq(ZeroCount(|m|), _ => 0) + field }

  /** Section 4 of FIPS PUB 180-1: the field is the length in bits. */
  function Pad(m: seq<Byte>): (r: seq<Byte>)
    ensures |r| % 64 == 0
  { PadWith(m, LengthBytes(8 * |m|)) }

  function WordBytes(x: Word): (r: seq<Byte>)
    ensures |r| == 4
  { [((x >> 24) & 255) as bv8, ((x >> 16) & 255) as bv8, ((x >> 8) & 255) as bv8, (x & 255) as bv8] }

  /** A word is written most significant byte first. */
  lemma WordBytesRead(x: Word)
    ensures BigEndian(WordBytes(x), 0) == x
  {}

  /** What four bytes say, most significant first. */
  function Value(b: seq<Byte>): nat
    requires |b| == 4
  { b[0] as int * 0x100_0000 + b[1] as int * 0x1_0000 + b[2] as int * 0x100 + b[3] as int }

  /** So are the words of the count, and the length of a message is its two of them. */
  lemma LengthRead(x: nat)
    ensures x < WORD_RANGE ==> Value(HalfBytes(x)) == x
    ensures Value(LengthBytes(x)[..4]) * WORD_RANGE + Value(LengthBytes(x)[4..]) == x % COUNT_RANGE
  {
    hide Value, HalfBytes;
    if x < WORD_RANGE { HalfRead(x); }
    var h, l := x / WORD_RANGE % WORD_RANGE, x % WORD_RANGE;
    HalfRead(h);
    HalfRead(l);
    assert LengthBytes(x)[..4] == HalfBytes(h) && LengthBytes(x)[4..] == HalfBytes(l);
    var q := x / WORD_RANGE / WORD_RANGE;
    assert x == COUNT_RANGE * q + (h * WORD_RANGE + l);
    CountMod(x, q, h * WORD_RANGE + l);
  }

  lemma HalfRead(x: nat)
    requires x < WORD_RANGE
    ensures Value(HalfBytes(x)) == x
  {
    hide Low;
    var b := HalfBytes(x);
    assert b[0] as int == x / 0x100_0000 % 256 by { LowRead(x / 0x100_0000); }
    assert b[1] as int == x / 0x1_0000 % 256 by { LowRead(x / 0x1_0000); }
    assert b[2] as int == x / 0x100 % 256 by { LowRead(x / 0x100); }
    assert b[3] as int == x % 256 by { LowRead(x); }
    FourDigits(x);
  }

  lemma FourDigits(x: nat)
    requires x < WORD_RANGE
    ensures x == x / 0x100_0000 % 256 * 0x100_0000 + x / 0x1_0000 % 256 * 0x1_0000 + x / 0x100 % 256 * 0x100 + x % 256
  {
    var y := x / 0x100;
    var z := y / 0x100;
    assert x / 0x1_0000 == z && x / 0x100_0000 == z / 0x100;
    assert x == y * 0x100 + x % 256 && y == z * 0x100 + y % 256 && z == z / 0x100 * 0x100 + z % 256;
  }

  lemma LowRead(x: nat)
    ensures Low(x) as int == x % 256
  {
    ByteRead(x % 256);
  }

  lemma ByteRead(y: nat)
    requires y < 256
    ensures (y as bv8) as int == y
  {
    Halves(y);
  }

  lemma Halves(y: nat)
    requires y < 256
    ensures y == 2 * (y / 2) + y % 2 && y / 2 == 2 * (y / 4) + y / 2 % 2 && y / 4 == 2 * (y / 8) + y / 4 % 2
    ensures y / 8 == 2 * (y / 16) + y / 8 % 2 && y / 16 == 2 * (y / 32) + y / 16 % 2
    ensures y / 32 == 2 * (y / 64) + y / 32 % 2 && y / 64 == 2 * (y / 128) + y / 64 % 2 && y / 128 == y / 128 % 2
  {
    HalfAgain(y, 2, y / 2, y / 4);
    HalfAgain(y, 4, y / 4, y / 8);
    HalfAgain(y, 8, y / 8, y / 16);
    HalfAgain(y, 16, y / 16, y / 32);
    HalfAgain(y, 32, y / 32, y / 64);
    HalfAgain(y, 64, y / 64, y / 128);
  }

  lemma HalfAgain(y: nat, k: nat, q: nat, h: nat)
    requires q * k <= y < q * k + k && h * (2 * k) <= y < h * (2 * k) + 2 * k
    ensures q == 2 * h + q % 2
  {
    Below(h * 2, q + 1, k);
    Below(q, h * 2 + 2, k);
  }

  lemma Below(a: nat, b: nat, k: nat)
    requires a * k < b * k
    ensures a < b
  {}

  /** The hash of a padded message. */
  function Hash(padded: seq<Byte>): seq<Byte>
    requires |padded| % 64 == 0
  { var h := Chain(INIT, padded); WordBytes(h.a) + WordBytes(h.b) + WordBytes(h.c) + WordBytes(h.d) + WordBytes(h.e) }

  /** The message digest. */
  function Digest(m: seq<Byte>): seq<Byte> { Hash(Pad(m)) }

  /** The longest call whose u_int sums do not wrap. */
  const MAX_CALL: nat := 0xFFFF_FFC0

  class Context {
    const state: array<Word>
    const buffer: array<Byte>
    var lo: nat
    var hi: nat
    /** What has been hashed so far. */
    ghost var msg: seq<Byte>

    ghost predicate Valid()
      reads this, state, buffer
    {
      && state.Length == 5 && buffer.Length == 64 && LowRight(lo, |msg|) && hi < WORD_RANGE
      && FromSeq(state[..]) == Chain(INIT, Whole(msg)) && buffer[..|msg| % 64] == Rest(msg)
    }

    /** The count is the length of what has been hashed. */
    ghost predicate Exact()
      reads this
    { Counts(lo, hi, |msg|) }

    /** SHA1Init */
    constructor ()
      ensures Valid() && Exact() && lo == hi == 0 && msg == [] && fresh(state) && fresh(buffer)
    {
      state := new Word[5] [0x67452301, 0xEFCDAB89, 0x98BADCFE, 0x10325476, 0xC3D2E1F0];
      buffer := new Byte[64](_ => 0);
      lo, hi := 0, 0;
      msg := [];
    }

    /** memcpy into the buffer */
    method Copy(j: nat, src: seq<Byte>)
      requires j + |src| <= buffer.Length
      modifies buffer
      ensures buffer[..j] == old(buffer[..j]) && buffer[j..j + |src|] == src
    {
      for k := 0 to |src|
        invariant buffer[..j] == old(buffer[..j]) && buffer[j..j + k] == src[..k]
      {
        buffer[j + k] := src[k];
        assert buffer[j..j + k + 1] == buffer[j..j + k] + [src[k]];
      }
      assert src[..|src|] == src;
    }

    /** What is left goes behind what the buffer holds. */
    method Keep(j: nat, src: seq<Byte>, ghost tail: seq<Byte>)
      requires j + |src| <= buffer.Length && buffer[..j] == tail
      modifies buffer
      ensures buffer[..j + |src|] == tail + src
    {
      Copy(j, src);
      Joined(buffer[..], j, tail, src);
    }

    /** SHA1Update */
    method Update(data: seq<Byte>)
      requires Valid() && |data| <= MAX_CALL
      modifies this, state, buffer
      ensures Valid() && msg == old(msg) + data && lo == NewLo(old(lo), |data|) && hi == NewHi(old(lo), old(hi), |data|)
      ensures old(Exact()) ==> (Exact() <==> Counted(old(lo), |data|))
    {
      hide Chain, Counts, Counted, LowRight, FromSeq, Whole, Rest, NewLo, NewHi, Index;
      CountIndex(lo, |msg|);
      LowAdds(lo, |msg|, |data|);
      HighFits(lo, hi, |data|);
      if Counts(lo, hi, |msg|) { CountedExactly(lo, hi, |msg|, |data|); }
      var j: nat, i: nat, len := Index(lo), 0, |data|;
      lo, hi := NewLo(lo, len), NewHi(lo, hi, len);
      ghost var tail := Rest(msg);
      assert j + len < WORD_RANGE;
      if j + len > 63 {
        i := Absorb(j, data);
        j, tail := 0, [];
      }
      Split(msg, data, i);
      Keep(j, data[i..], tail);
      msg := msg + data;
    }

    /** The blocks that data completes: the buffer, then those within data. */
    method Absorb(j: nat, data: seq<Byte>) returns (i: nat)
      requires state.Length == 5 && buffer.Length == 64 && j == |msg| % 64 && 63 < j + |data| <= j + MAX_CALL
      requires FromSeq(state[..]) == Chain(INIT, Whole(msg)) && buffer[..j] == Rest(msg)
      modifies state, buffer
      ensures i <= |data| && |data| - i < 64 && (|msg| + i) % 64 == 0
      ensures FromSeq(state[..]) == Chain(INIT, msg + data[..i])
    {
      hide Chain, FromSeq, Compress, Words;
      i := 64 - j;
      Copy(j, data[..i]);
      var block := buffer[..];
      Filled(msg, data, block);
      ChainOne(INIT, Whole(msg), block);
      Transform(state, block);
      while i + 63 < |data|
        invariant 64 - j <= i <= |data| && (|msg| + i) % 64 == 0 && FromSeq(state[..]) == Chain(INIT, msg + data[..i])
      {
        assert i + 64 + 63 < WORD_RANGE;
        NextBlock(msg, data, i);
        ChainOne(INIT, msg + data[..i], data[i..i + 64]);
        Transform(state, data[i..i + 64]);
        i := i + 64;
      }
    }

    /** The padding of SHA1Final up to the length: a one bit, then zeros until 8 bytes short of a block. */
    method PadZeros()
      requires Valid()
      modifies this, state, buffer
      ensures Valid() && msg == old(msg + [0x80] + seq(ZeroCount(|msg|), _ => 0))
    {
      hide Chain, Counts, Counted, LowRight, FromSeq, Whole, Rest, Index, ZeroCount, NewLo, NewHi;
      ghost var m, k := msg, 0;
      Update([0x80]);
      assert msg == m + [0x80] + seq(k, _ => 0);
      CountIndex(lo, |msg|);
      while Index(lo) * 8 != 448
        invariant Valid() && k <= ZeroCount(|m|) && msg == m + [0x80] + seq(k, _ => 0) && Index(lo) == |msg| % 64
        decreases ZeroCount(|m|) - k
      {
        ZerosLeft(|m|, k);
        Update([0]);
        assert m + [0x80] + seq(k, _ => 0) + [0] == m + [0x80] + seq(k + 1, _ => 0);
        k := k + 1;
        CountIndex(lo, |msg|);
      }
      ZerosDone(|m|, k);
    }

    /** SHA1Final */
    method Final() returns (digest: seq<Byte>)
      requires Valid()
      modifies this, state, buffer
      ensures digest == Hash(PadWith(old(msg), old(HalfBytes(hi) + HalfBytes(lo))))
      ensures old(Exact()) && |old(msg)| < 0x2000_0000_0000_0000 ==> digest == Digest(old(msg))
    {
      hide Chain, Counts, Counted, LowRight, FromSeq, LengthBytes, HalfBytes, WordBytes, ZeroCount, NewLo, NewHi;
      ghost var m := msg;
      var finalcount := HalfBytes(hi) + HalfBytes(lo);
      if Counts(lo, hi, |m|) && |m| < 0x2000_0000_0000_0000 { FinalCount(lo, hi, |m|); }
      PadZeros();
      Update(finalcount);
      assert msg == PadWith(m, finalcount);
      assert Whole(msg) == msg;
      digest :=
        WordBytes(state[0]) + WordBytes(state[1]) + WordBytes(state[2]) + WordBytes(state[3]) + WordBytes(state[4]);
      StateIs(state[..]);
    }
  }

  lemma Joined(b: seq<Byte>, j: nat, x: seq<Byte>, y: seq<Byte>)
    requires j + |y| <= |b| && b[..j] == x && b[j..j + |y|] == y
    ensures b[..j + |y|] == x + y
  {
    assert b[..j + |y|] == b[..j] + b[j..j + |y|];
  }

  lemma StateIs(s: seq<Word>)
    requires |s| == 5
    ensures FromSeq(s) == Five(s[0], s[1], s[2], s[3], s[4])
  {}

  /** The bytes of the message after data has been taken in up to i. */
  lemma Split(m: seq<Byte>, data: seq<Byte>, i: nat)
    requires i <= |data|
    ensures (|m| + i) % 64 == 0 && |data| - i < 64 ==>
              Whole(m + data) == m + data[..i] && Rest(m + data) == data[i..] && |m + data| % 64 == |data| - i
    ensures |m| % 64 + |data| < 64 ==>
              Whole(m + data) == Whole(m) && Rest(m + data) == Rest(m) + data && |m + data| % 64 == |m| % 64 + |data|
  {
    var t := m + data;
    if (|m| + i) % 64 == 0 && |data| - i < 64 {
      Mod64(|t|, (|m| + i) / 64, |data| - i);
      assert t[..|m| + i] == m + data[..i] && t[|m| + i..] == data[i..];
    }
    if |m| % 64 + |data| < 64 {
      Mod64(|t|, |m| / 64, |m| % 64 + |data|);
      var w := |m| - |m| % 64;
      assert t[..w] == m[..w] && t[w..] == m[w..] + data;
    }
  }

  lemma Filled(m: seq<Byte>, data: seq<Byte>, block: seq<Byte>)
    requires var j := |m| % 64;
        |block| == 64 && 64 - j <= |data| && block[..j] == Rest(m) && block[j..] == data[..64 - j]
    ensures Whole(m) + block == m + data[..64 - |m| % 64] && |Whole(m)| % 64 == 0 && (|m| + 64 - |m| % 64) % 64 == 0
  {
    var j := |m| % 64;
    assert block == block[..j] + block[j..];
    assert m == Whole(m) + Rest(m);
    Mod64(|Whole(m)|, |m| / 64, 0);
    Mod64(|m| + 64 - j, |m| / 64 + 1, 0);
  }

  lemma NextBlock(m: seq<Byte>, data: seq<Byte>, i: nat)
    requires i + 64 <= |data| && (|m| + i) % 64 == 0
    ensures m + data[..i + 64] == m + data[..i] + data[i..i + 64] && |m + data[..i]| % 64 == 0
    ensures (|m| + i + 64) % 64 == 0
  {
    assert data[..i + 64] == data[..i] + data[i..i + 64];
    Mod64(|m| + i + 64, (|m| + i) / 64 + 1, 0);
  }

  lemma FinalCount(lo: nat, hi: nat, n: nat)
    requires Counts(lo, hi, n) && n < 0x2000_0000_0000_0000
    ensures HalfBytes(hi) + HalfBytes(lo) == LengthBytes(8 * n)
  {
    hide HalfBytes;
    var bits := 8 * n;
    assert bits % COUNT_RANGE == bits;
    assert bits / WORD_RANGE == hi && bits % WORD_RANGE == lo && hi % WORD_RANGE == hi;
  }

  /** The padding loop stops exactly after the zeros that the padding needs. */
  lemma ZerosLeft(n: nat, k: nat)
    requires k <= ZeroCount(n) && (n + 1 + k) % 64 * 8 != 448
    ensures k < ZeroCount(n)
  {
    if k == ZeroCount(n) { BeforeLength(n, k); }
  }

  lemma BeforeLength(n: nat, k: nat)
    requires (n + 1 + k + 8) % 64 == 0
    ensures (n + 1 + k) % 64 == 56
  {
    var q := (n + 1 + k + 8) / 64;
    Mod64(n + 1 + k, q - 1, 56);
  }

  lemma ZerosDone(n: nat, k: nat)
    requires k <= ZeroCount(n) && (n + 1 + k) % 64 * 8 == 448
    ensures k == ZeroCount(n)
  {
    var z := ZeroCount(n);
    BeforeLength(n, z);
    var q := (n + 1 + z) / 64;
    if k < z {
      Mod64(n + 1 + k, if z - k <= 56 then q else q - 1, if z - k <= 56 then 56 - (z - k) else 120 - (z - k));
    }
  }

  // ------------------------------ any split of the message ------------------------------

  function Concat(chunks: seq<seq<Byte>>): seq<Byte>
  { if chunks == [] then [] else Concat(chunks[..|chunks| - 1]) + chunks[|chunks| - 1] }

  /** The two words of the count after the calls. */
  function LoAfter(chunks: seq<seq<Byte>>): nat
  { if chunks == [] then 0 else NewLo(LoAfter(chunks[..|chunks| - 1]), |chunks[|chunks| - 1]|) }

  function HiAfter(chunks: seq<seq<Byte>>): nat
  {
    if chunks == [] then 0
    else var before := chunks[..|chunks| - 1]; NewHi(LoAfter(before), HiAfter(before), |chunks[|chunks| - 1]|)
  }

  /** Every call is counted right. */
  ghost predicate AllCounted(chunks: seq<seq<Byte>>)
  { forall n :: 0 <= n < |chunks| ==> Counted(LoAfter(chunks[..n]), |chunks[n]|) }

  /**
   * However a message is split into calls, what is hashed is the whole, padded with the count as the length field; the
   * digest is that of the whole if every call is counted right, so in particular if all are below 2^29 bytes.
   */
  method HashChunks(chunks: seq<seq<Byte>>) returns (digest: seq<Byte>)
    requires forall c :: c in chunks ==> |c| <= MAX_CALL
    ensures digest == Hash(PadWith(Concat(chunks), HalfBytes(HiAfter(chunks)) + HalfBytes(LoAfter(chunks))))
    ensures AllCounted(chunks) && |Concat(chunks)| < 0x2000_0000_0000_0000 ==> digest == Digest(Concat(chunks))
  {
    hide Digest, Hash, PadWith, HalfBytes, Counts, Counted, LowRight, NewLo, NewHi;
    var ctx := new Context();
    for n := 0 to |chunks|
      invariant ctx.Valid() && ctx.msg == Concat(chunks[..n]) && fresh(ctx) && fresh(ctx.state) && fresh(ctx.buffer)
      invariant ctx.lo == LoAfter(chunks[..n]) && ctx.hi == HiAfter(chunks[..n]) && (AllCounted(chunks) ==> ctx.Exact())
    {
      assert chunks[..n + 1][..n] == chunks[..n];
      assert chunks[n] in chunks;
      ctx.Update(chunks[n]);
    }
    assert chunks[..|chunks|] == chunks;
    digest := ctx.Final();
  }

  /** Calls below 2^29 bytes are all counted right. */
  lemma SmallCounted(chunks: seq<seq<Byte>>)
    requires forall c :: c in chunks ==> |c| < 0x2000_0000
    ensures AllCounted(chunks)
  {
    forall n | 0 <= n < |chunks| ensures Counted(LoAfter(chunks[..n]), |chunks[n]|) { assert chunks[n] in chunks; }
  }
}
