/** dlmalloc and dlfree over one contiguous segment. */
module Malloc {
  import opened BinMap
  import opened TreeIndex
  import opened TreeBin
  import opened Bins
  import opened Heap

  const MAX_SMALL_REQUEST: nat := 244
  const MIN_REQUEST: nat := 11
  const MAX_REQUEST: nat := WORD - 64

  /** What the system answers to a request for more memory. */
  datatype Morecore = Fail | Got(tbase: int, tsize: nat)

  /** pad_request with the smallest chunk size: the chunk size needed for a request. */
  function Padded(bytes: nat): nat
  { if bytes < MIN_REQUEST then MIN_CHUNK else (bytes + 11) / 8 * 8 }

  /** dlmalloc's nb: requests beyond MAX_REQUEST become the largest word, which nothing can satisfy. */
  function RequestSize(bytes: nat): nat
  { if bytes >= MAX_REQUEST then WORD - 1 else Padded(bytes) }

  /** The padded size is the least chunk size that leaves room for the request beside the head word. */
  lemma PaddedIsLeast(bytes: nat, s: nat)
    ensures SizeOk(Padded(bytes)) && bytes + 4 <= Padded(bytes)
    ensures SizeOk(s) && bytes + 4 <= s ==> Padded(bytes) <= s
    ensures bytes <= MAX_SMALL_REQUEST ==> Padded(bytes) <= 248
    ensures MAX_SMALL_REQUEST < bytes ==> Padded(bytes) >= 256
    ensures bytes < MAX_REQUEST ==> Padded(bytes) < WORD
  {}

  /** The free chunks are the binned ones and the designated victim. */
  ghost function Indexed(binned: map<int, nat>, dv: int, dvsize: nat): map<int, nat>
  { if dvsize == 0 then binned else binned[dv := dvsize] }

  /** p has become used, with a size that fits nb closely; nothing else has changed. */
  ghost predicate Grew(live: map<int, nat>, live': map<int, nat>, p: int, nb: nat)
  { p !in live && p in live' && live' == live[p := live'[p]] && nb <= live'[p] < nb + MIN_CHUNK }

  ghost predicate NoFit(nb: nat, free: map<int, nat>)
  { forall q :: q in free ==> free[q] < nb }

  /** p is a smallest free chunk that holds nb. */
  ghost predicate FitsBest(p: int, nb: nat, free: map<int, nat>)
  { p in free && free[p] >= nb && forall q :: q in free && free[q] >= nb ==> free[p] <= free[q] }

  /** The best large binned chunk, compared with the designated victim. */
  lemma BestOverall(v: int, nb: nat, binned: map<int, nat>, dv: int, dvsize: nat)
    requires BestLarge(v, nb, binned) && nb >= MIN_LARGE_SIZE && dv !in binned && dvsize < WORD
    requires forall q :: q in binned ==> binned[q] < WORD
    ensures var free := Indexed(binned, dv, dvsize);
            var better := v != 0 && binned[v] - nb < (dvsize - nb) % WORD;
            && (better ==> FitsBest(v, nb, free) && v in binned && (nb <= dvsize ==> binned[v] < dvsize))
            && (!better && nb <= dvsize ==> FitsBest(dv, nb, free))
            && (!better && dvsize < nb < WORD ==> NoFit(nb, free))
  {
    if nb <= dvsize { assert (dvsize - nb) % WORD == dvsize - nb; }
    else if nb < WORD { assert (dvsize - nb) % WORD == dvsize - nb + WORD; }
    forall q | q in binned && binned[q] >= nb ensures !IsSmall(binned[q]) {}
  }

  // ------------------------------ the allocator without its data structures ------------------------------

  /** The used chunks, the binned ones, the designated victim and top, with their sizes. */
  datatype Plain = Plain(live: map<int, nat>, binned: map<int, nat>, dv: int, dvsize: nat, top: int, topsize: nat)

  ghost function FreeOf(a: Plain): map<int, nat> { Indexed(a.binned, a.dv, a.dvsize) }

  /** p is a smallest binned chunk that holds nb. */
  ghost predicate BestBinned(p: int, nb: nat, binned: map<int, nat>) { FitsBest(p, nb, binned) }

  /** r becomes the designated victim; the one before it is binned. */
  ghost function NewVictim(a: Plain, r: int, s: nat): Plain
  { a.(binned := if a.dvsize == 0 then a.binned else a.binned[a.dv := a.dvsize], dv := r, dvsize := s) }

  /**
   * nb bytes are used of a free chunk p of size s that is in no bin. What is left, if it can be a chunk, is kept as the
   * designated victim or binned.
   */
  ghost function UsedOf(a: Plain, p: int, s: nat, nb: nat, keep: bool): Plain
  {
    if s < nb + MIN_CHUNK then a.(live := a.live[p := s])
    else
      var b := a.(live := a.live[p := nb]);
      if keep then NewVictim(b, p + nb, s - nb) else b.(binned := b.binned[p + nb := s - nb])
  }

  ghost function FromBin(a: Plain, p: int, nb: nat, keep: bool): Plain
    requires p in a.binned
  { UsedOf(a.(binned := a.binned - {p}), p, a.binned[p], nb, keep) }

  ghost function FromVictim(a: Plain, nb: nat): Plain
  { UsedOf(a.(dv := 0, dvsize := 0), a.dv, a.dvsize, nb, true) }

  ghost function FromTop(a: Plain, nb: nat): Plain
    requires nb <= a.topsize
  { a.(live := a.live[a.top := nb], top := a.top + nb, topsize := a.topsize - nb) }

  /** align_offset of the memory of a chunk at p */
  function AlignOffset(p: int): nat { if p % 8 == 0 then 0 else 8 - p % 8 }

  /** What MORECORE may return here: nothing, a first segment, or space right behind the segment. */
  predicate MoreOk(top: int, topsize: nat, more: Morecore)
  {
    more.Got? ==>
      && more.tbase > 0 && Aligned(more.tbase + more.tsize) && more.tbase + more.tsize <= WORD
      && (top == 0 ==> more.tsize > TOP_FOOT + 8)
      && (top != 0 ==> more.tbase == top + topsize + TOP_FOOT && Aligned(more.tsize))
  }

  /** The memory that the system gives is the first top, or goes to top. */
  ghost function MoreTop(a: Plain, more: Morecore): Plain
    requires MoreOk(a.top, a.topsize, more)
  {
    if more.Fail? then a
    else if a.top == 0 then
      var offset := AlignOffset(more.tbase);
      a.(top := more.tbase + offset, topsize := more.tsize - TOP_FOOT - offset)
    else a.(topsize := a.topsize + more.tsize)
  }

  /** A small request takes a binned chunk that it nearly fills, or any if the designated victim is too small. */
  predicate SmallFromBin(nb: nat, s: nat, dvsize: nat) { (s < nb + MIN_CHUNK && IsSmall(s)) || dvsize < nb }

  /** A large request takes a binned chunk that fits better than the designated victim. */
  predicate LargeFromBin(s: nat, nb: nat, dvsize: nat) { dvsize < nb || s < dvsize }

  /** Whether a request is served from the bins, where s is the size of the smallest fit there. */
  predicate UsesBin(bytes: nat, s: nat, dvsize: nat)
  {
    if bytes <= MAX_SMALL_REQUEST then SmallFromBin(RequestSize(bytes), s, dvsize)
    else LargeFromBin(s, RequestSize(bytes), dvsize)
  }

  /** The request is served from the bins by chunk p. */
  ghost predicate BinServes(a: Plain, bytes: nat, p: int)
  { BestBinned(p, RequestSize(bytes), a.binned) && UsesBin(bytes, a.binned[p], a.dvsize) }

  /**
   * What dlmalloc does: best fit from the bins, then the designated victim, then top, then the system. Only the choice
   * among binned chunks of equal size is left open.
   */
  ghost predicate Allocates(a: Plain, bytes: nat, more: Morecore, a': Plain, mem: int)
    requires MoreOk(a.top, a.topsize, more)
  {
    var nb, b := RequestSize(bytes), MoreTop(a, more);
    if exists p :: BinServes(a, bytes, p) then
      BinServes(a, bytes, mem - 8) && a' == FromBin(a, mem - 8, nb, bytes <= MAX_SMALL_REQUEST)
    else if nb <= a.dvsize then mem == a.dv + 8 && a' == FromVictim(a, nb)
    else if nb < a.topsize then mem == a.top + 8 && a' == FromTop(a, nb)
    else if nb < b.topsize then mem == b.top + 8 && a' == FromTop(b, nb)
    else mem == 0 && a' == b
  }

  /** The chunk p that is returned and its free neighbours make up the bytes from lo to hi. */
  ghost predicate Bounds(a: Plain, p: int, lo: int, hi: int)
    requires p in a.live
  {
    var free, next := FreeOf(a), p + a.live[p];
    && (if lo == p then forall q :: q in free ==> q + free[q] != p else lo in free && lo + free[lo] == p)
    && hi == if next in free then next + free[next] else next
  }

  /** What dlfree does: p and its free neighbours become part of top, the designated victim, or one binned chunk. */
  ghost function Freed(a: Plain, p: int, lo: int, hi: int): Plain
    requires p in a.live && lo <= hi
  {
    var b := a.(live := a.live - {p}, binned := a.binned - {lo, p + a.live[p]});
    if hi == a.top && lo == a.dv then b.(dv := 0, dvsize := 0, top := lo, topsize := a.topsize + hi - lo)
    else if hi == a.top then b.(top := lo, topsize := a.topsize + hi - lo)
    else if a.dvsize != 0 && (a.dv == lo || a.dv == p + a.live[p]) then b.(dv := lo, dvsize := hi - lo)
    else b.(binned := b.binned[lo := hi - lo])
  }

  ghost predicate Frees(a: Plain, p: int, a': Plain)
    requires p in a.live
  { exists lo, hi :: lo <= hi && Bounds(a, p, lo, hi) && a' == Freed(a, p, lo, hi) }

  /** The second half of dlfree on a, in which p, of size s, is in no map and may be the victim already. */
  ghost function Settled(a: Plain, p: int, s: nat): Plain
  {
    var next := p + s;
    if next == a.top && p == a.dv then a.(dv := 0, dvsize := 0, top := p, topsize := a.topsize + s)
    else if next == a.top then a.(top := p, topsize := a.topsize + s)
    else if a.dvsize != 0 && next == a.dv then a.(dv := p, dvsize := a.dvsize + s)
    else if next in a.binned && p == a.dv then a.(binned := a.binned - {next}, dvsize := s + a.binned[next])
    else if next in a.binned then a.(binned := (a.binned - {next})[p := s + a.binned[next]])
    else a.(binned := a.binned[p := s])
  }

  /** The part of a state that does not hold p or the chunk before it. */
  ghost function Apart(a: Plain, p: int, lo: int): Plain { a.(live := a.live - {p}, binned := a.binned - {lo}) }

  /** Where the free space behind p ends. */
  ghost function UpTo(a: Plain, p: int): int
    requires p in a.live
  { var next := p + a.live[p]; if next in FreeOf(a) then next + FreeOf(a)[next] else next }

  /** The designated victim before p takes it in, with a used chunk behind. */
  lemma VictimFrees(a: Plain, p: int, lo: int)
    requires p in a.live && lo == a.dv < p && a.dvsize != 0 && lo + a.dvsize == p && lo !in a.binned
    requires p + a.live[p] !in FreeOf(a) && p + a.live[p] != a.top
    ensures Frees(a, p, a.(live := a.live - {p}, dvsize := p + a.live[p] - lo))
  {
    var next := p + a.live[p];
    assert a.binned - {lo, next} == a.binned by { assert next !in a.binned; }
    assert Bounds(a, p, lo, next);
    assert Freed(a, p, lo, next) == a.(live := a.live - {p}, dvsize := next - lo);
  }

  lemma SettledFrees(a: Plain, p: int, lo: int, hi: int)
    requires p in a.live && Bounds(a, p, lo, hi) && lo <= p && a.live[p] > 0 && p !in a.binned && a.dv !in a.binned
    requires (a.dvsize == 0 <==> a.dv == 0) && p != a.dv && lo > 0 && lo !in a.live - {p}
    requires p + a.live[p] == a.top ==> a.top !in FreeOf(a)
    requires forall q :: q in FreeOf(a) ==> q + FreeOf(a)[q] != a.top
    requires lo == a.dv ==> p + a.live[p] in FreeOf(a) || p + a.live[p] == a.top
    ensures Frees(a, p, Settled(Apart(a, p, lo), lo, p + a.live[p] - lo))
  {
    var next := p + a.live[p];
    assert a.binned - {lo, next} == a.binned - {lo} - {next};
    assert Settled(Apart(a, p, lo), lo, next - lo) == Freed(a, p, lo, hi);
  }

  /** A chunk of the first marked small bin from nb's own on is a smallest fit. */
  lemma BestSmall(smallmap: bv32, sz: map<int, nat>, nb: nat, i: nat, p: int)
    requires AllMarked(smallmap, sz) && nb == 8 * (nb / 8) <= 8 * i < 256 && p in sz && sz[p] == 8 * i
    requires forall j: nat :: nb / 8 <= j < i ==> !Marked(smallmap, j)
    ensures BestBinned(p, nb, sz)
  {
    hide Marked;
    forall q | q in sz && sz[q] >= nb ensures sz[p] <= sz[q] {
      assert IsSmall(sz[q]) ==> Marked(smallmap, sz[q] / 8);
    }
  }

  /** Without a marked small bin from nb's own on, a smallest large chunk is a smallest fit. */
  lemma BestTree(smallmap: bv32, sz: map<int, nat>, nb: nat, p: int)
    requires AllMarked(smallmap, sz) && nb == 8 * (nb / 8) < 256 && BestLarge(p, nb, sz) && p != 0
    requires forall j: nat :: nb / 8 <= j < 32 ==> !Marked(smallmap, j)
    ensures BestBinned(p, nb, sz)
  {
    hide Marked;
    forall q | q in sz && sz[q] >= nb ensures !IsSmall(sz[q]) {}
  }

  /** With nb's own bin and the next one empty, no small chunk is nearly filled by nb. */
  lemma NoneNearlyFilled(smallmap: bv32, sz: map<int, nat>, nb: nat, dvsize: nat)
    requires AllMarked(smallmap, sz) && nb == 8 * (nb / 8) && nb <= dvsize
    requires forall j: nat :: j < 32 && nb / 8 <= j <= nb / 8 + 1 ==> !Marked(smallmap, j)
    ensures forall q :: BestBinned(q, nb, sz) ==> !SmallFromBin(nb, sz[q], dvsize)
  {
    hide Marked;
    forall q | BestBinned(q, nb, sz) ensures !SmallFromBin(nb, sz[q], dvsize) {
      assert IsSmall(sz[q]) ==> Marked(smallmap, sz[q] / 8);
    }
  }

  /** The comparison with wrapping remainders picks the binned chunk exactly if it fits better than the victim. */
  lemma BinChoice(v: int, nb: nat, binned: map<int, nat>, dvsize: nat)
    requires BestLarge(v, nb, binned) && MIN_LARGE_SIZE <= nb < WORD && dvsize < WORD
    requires forall q :: q in binned ==> binned[q] < WORD
    ensures v != 0 ==>
        && BestBinned(v, nb, binned)
        && (binned[v] - nb < (dvsize - nb) % WORD <==> LargeFromBin(binned[v], nb, dvsize))
    ensures forall q :: BestBinned(q, nb, binned) ==> v != 0 && binned[q] == binned[v]
  {
    if nb <= dvsize { assert (dvsize - nb) % WORD == dvsize - nb; }
    else { assert (dvsize - nb) % WORD == dvsize - nb + WORD; }
    forall q | q in binned && binned[q] >= nb ensures !IsSmall(binned[q]) {}
  }

  /** Index and heap agree; p, if not 0, is a free chunk that is in no bin for the moment. */
  ghost predicate Matches(h: Heap, binned: map<int, nat>, dv: int, dvsize: nat, p: int)
  {
    && HeapOk(h) && dv !in binned && (dvsize == 0 <==> dv == 0) && 0 !in binned
    && (p != 0 ==> p !in Indexed(binned, dv, dvsize) && Free(h, p))
    && FreeChunks(h) == if p == 0 then Indexed(binned, dv, dvsize) else Indexed(binned, dv, dvsize)[p := FreeSize(h, p)]
  }

  lemma MatchedFree(h: Heap, binned: map<int, nat>, dv: int, dvsize: nat, p: int, q: int)
    requires Matches(h, binned, dv, dvsize, p) && (q in binned || (q == dv && dvsize != 0) || (p == q && p != 0))
    ensures Free(h, q) && q > 0 && ChunkSize(h.head[q].size) && h.head[q].size + TOP_FOOT < WORD
    ensures q in binned ==> h.head[q].size == binned[q]
    ensures q == dv && dvsize != 0 ==> h.head[q].size == dvsize
  {
    hide HeapOk, ChunkSize, Aligned;
    assert q in FreeChunks(h);
    SizeBound(h, q);
  }

  /** Binned chunks have the sizes they were binned with. */
  lemma MatchedSizes(h: Heap, binned: map<int, nat>, dv: int, dvsize: nat, p: int)
    requires Matches(h, binned, dv, dvsize, p)
    ensures forall q :: q in binned ==> q in h.head && h.head[q].size == binned[q]
  {
    hide Matches;
    forall q | q in binned ensures q in h.head && h.head[q].size == binned[q] {
      MatchedFree(h, binned, dv, dvsize, p, q);
    }
  }

  lemma UsedWhole(h: Heap, binned: map<int, nat>, dv: int, dvsize: nat, p: int, nb: nat)
    requires Matches(h, binned, dv, dvsize, p) && p != 0 && nb <= h.head[p].size < nb + MIN_CHUNK
    ensures Next(h, p) in h.head && Matches(Take(h, p), binned, dv, dvsize, 0) && Grew(Live(h), Live(Take(h, p)), p, nb)
    ensures Live(Take(h, p)) == Live(h)[p := h.head[p].size]
  {
    hide HeapOk, Aligned, Take;
    TakeOk(h, p);
    assert p !in Live(h);
  }

  lemma UsedCut(h: Heap, binned: map<int, nat>, dv: int, dvsize: nat, p: int, nb: nat)
    requires Matches(h, binned, dv, dvsize, p) && p != 0 && SizeOk(nb) && nb + MIN_CHUNK <= h.head[p].size
    ensures Matches(Cut(h, p, nb), binned, dv, dvsize, p + nb) && Grew(Live(h), Live(Cut(h, p, nb)), p, nb)
    ensures Live(Cut(h, p, nb)) == Live(h)[p := nb]
    ensures p + nb in Cut(h, p, nb).head && Cut(h, p, nb).head[p + nb].size == h.head[p].size - nb && p + nb > 0
  {
    hide HeapOk, Aligned, Cut;
    CutOk(h, p, nb);
    var h', r := Cut(h, p, nb), p + nb;
    assert p !in Live(h);
    SizeBound(h, p);
    assert r in FreeChunks(h');
    forall q | q in Indexed(binned, dv, dvsize) ensures q != r { assert q in FreeChunks(h); }
  }

  lemma NowBinned(h: Heap, binned: map<int, nat>, dv: int, dvsize: nat, r: int)
    requires Matches(h, binned, dv, dvsize, r) && r != 0
    ensures r !in binned && Matches(h, binned[r := h.head[r].size], dv, dvsize, 0)
  {
    hide HeapOk, Aligned;
  }

  lemma NowVictim(h: Heap, binned: map<int, nat>, r: int)
    requires Matches(h, binned, 0, 0, r) && r != 0
    ensures Matches(h, binned, r, h.head[r].size, 0)
  {
    hide HeapOk, Aligned;
    SizeBound(h, r);
  }

  lemma VictimBinned(h: Heap, binned: map<int, nat>, dv: int, dvsize: nat, r: int)
    requires Matches(h, binned, dv, dvsize, r) && dvsize != 0
    ensures Matches(h, binned[dv := dvsize], 0, 0, r)
  {
    hide HeapOk, Aligned;
  }

  lemma NowUnbinned(h: Heap, binned: map<int, nat>, dv: int, dvsize: nat, v: int)
    requires Matches(h, binned, dv, dvsize, 0) && v in binned
    ensures v != 0 && Matches(h, binned - {v}, dv, dvsize, v)
  {
    hide HeapOk, Aligned;
    assert v in FreeChunks(h);
  }

  lemma NoVictim(h: Heap, binned: map<int, nat>, dv: int, dvsize: nat)
    requires Matches(h, binned, dv, dvsize, 0) && dvsize != 0
    ensures dv != 0 && Matches(h, binned, 0, 0, dv)
  {
    hide HeapOk, Aligned;
    assert dv in FreeChunks(h);
  }

  lemma TopTaken(h: Heap, binned: map<int, nat>, dv: int, dvsize: nat, nb: nat)
    requires Matches(h, binned, dv, dvsize, 0) && SizeOk(nb) && nb < h.topsize
    ensures Matches(TakeTop(h, nb), binned, dv, dvsize, 0) && Grew(Live(h), Live(TakeTop(h, nb)), h.top, nb)
    ensures h.top > 0 && Live(TakeTop(h, nb)) == Live(h)[h.top := nb]
  {
    hide ChunkOk, Aligned, TakeTop;
    TakeTopOk(h, nb);
  }

  lemma TopGrown(h: Heap, binned: map<int, nat>, dv: int, dvsize: nat, size: nat)
    requires Matches(h, binned, dv, dvsize, 0) && Aligned(size) && h.top + h.topsize + size + TOP_FOOT <= WORD
    ensures Matches(GrowTop(h, size), binned, dv, dvsize, 0) && Live(GrowTop(h, size)) == Live(h)
  {
    hide HeapOk, Aligned, GrowTop;
    GrowTopOk(h, size);
  }

  /** The heap after first-time initialization: one segment, all of it top. */
  lemma FirstTop(head: map<int, Head>, foot: map<int, nat>, p: int, size: nat)
    requires 0 < p && Aligned(p) && 0 < size && Aligned(size) && p + size + TOP_FOOT <= WORD
    ensures var h := Heap({}, head[p := Head(size, true, false)], foot, p, p, size);
            Matches(h, map[], 0, 0, 0) && Live(h) == map[]
  {
    hide Aligned;
  }

  /** The sizes of the free chunks are those of the index. */
  lemma MatchedIndex(h: Heap, binned: map<int, nat>, dv: int, dvsize: nat)
    requires Matches(h, binned, dv, dvsize, 0)
    ensures FreeChunks(h) == Indexed(binned, dv, dvsize) && dv !in binned && h.topsize + TOP_FOOT < WORD
    ensures dvsize + TOP_FOOT < WORD
    ensures h.top > 0 && forall q :: q in binned ==> binned[q] < WORD
  {
    hide ChunkOk, Aligned, FreeChunks;
    if dvsize != 0 { MatchedFree(h, binned, dv, dvsize, 0, dv); }
    forall q | q in binned ensures binned[q] < WORD { MatchedFree(h, binned, dv, dvsize, 0, q); }
  }

  /** While p is being freed it counts as used in h: the index holds every free chunk, but not dv if p is dv. */
  ghost predicate Freeing(h: Heap, binned: map<int, nat>, dv: int, dvsize: nat, p: int)
  {
    && HeapOk(h) && Used(h, p) && h.head[p].pinuse && dv !in binned && 0 !in binned && (dvsize == 0 <==> dv == 0)
    && FreeChunks(h) == Indexed(binned, dv, if p == dv then 0 else dvsize)
  }

  lemma FreeingNext(h: Heap, binned: map<int, nat>, dv: int, dvsize: nat, p: int)
    requires Freeing(h, binned, dv, dvsize, p)
    ensures p in h.head && p > 0 && p !in binned && Next(h, p) in h.head && h.head[Next(h, p)].pinuse && Next(h, p) > p
    ensures h.head[Next(h, p)].cinuse ==> Used(h, Next(h, p))
    ensures !h.head[Next(h, p)].cinuse && Next(h, p) != h.top ==> Free(h, Next(h, p))
    ensures Free(h, Next(h, p)) ==> Next(h, p) in binned || (Next(h, p) == dv && p != dv)
    ensures ChunkSize(h.head[p].size) && HeapOk(h) && Used(h, p) && h.head[p].pinuse
    ensures h.head[Next(h, p)].cinuse ==>
        Next(h, p) !in binned && (dvsize == 0 || Next(h, p) != dv) && Next(h, p) != h.top
    ensures (dvsize == 0 <==> dv == 0) && dv !in binned && h.top !in binned
  {
    hide Aligned;
    At(h, p, p);
    assert h.top !in FreeChunks(h);
    assert h.head[Next(h, p)].cinuse ==> Next(h, p) !in FreeChunks(h);
    SizeBound(h, p);
    if Free(h, Next(h, p)) { assert Next(h, p) in FreeChunks(h); }
    assert p !in FreeChunks(h);
  }

  /** Merged into top. */
  lemma FreedToTop(h: Heap, binned: map<int, nat>, dv: int, dvsize: nat, p: int)
    requires Freeing(h, binned, dv, dvsize, p) && Next(h, p) == h.top
    ensures Matches(GiveTop(h, p), binned, if p == dv then 0 else dv, if p == dv then 0 else dvsize, 0)
    ensures Live(GiveTop(h, p)) == Live(h) - {p} && p != 0
  {
    hide HeapOk, Aligned, GiveTop;
    GiveTopOk(h, p);
    SizeBound(h, p);
  }

  /** A used chunk behind it: p becomes a free chunk of its own. */
  lemma FreedAlone(h: Heap, binned: map<int, nat>, dv: int, dvsize: nat, p: int)
    requires Freeing(h, binned, dv, dvsize, p) && p != dv && Used(h, Next(h, p))
    ensures Matches(Release(h, p), binned, dv, dvsize, p) && Live(Release(h, p)) == Live(h) - {p}
    ensures Release(h, p).head[p].size == h.head[p].size
  {
    hide HeapOk, Aligned, Release;
    ReleaseOk(h, p);
    SizeBound(h, p);
    assert p !in FreeChunks(h) && p in FreeChunks(Release(h, p));
    ReleaseSize(h, p);
  }

  lemma FreedVictim(h: Heap, binned: map<int, nat>, dv: int, dvsize: nat, p: int)
    requires Freeing(h, binned, dv, dvsize, p) && p == dv && Used(h, Next(h, p))
    ensures Matches(Release(h, p), binned, p, h.head[p].size, 0) && Live(Release(h, p)) == Live(h) - {p}
  {
    hide HeapOk, Aligned, Release;
    ReleaseOk(h, p);
    SizeBound(h, p);
  }

  lemma ReleaseSize(h: Heap, p: int)
    requires HeapOk(h) && Used(h, p) && Used(h, Next(h, p))
    ensures p in Release(h, p).head && Release(h, p).head[p].size == h.head[p].size
  {
    At(h, p, p);
  }

  /** The free chunk behind it, taken out of its bin, becomes part of p. */
  lemma ExtendBinned(h: Heap, binned: map<int, nat>, dv: int, dvsize: nat, p: int)
    requires Freeing(h, binned, dv, dvsize, p) && Next(h, p) in binned && Free(h, Next(h, p))
    ensures Next(h, Next(h, p)) in h.head
    ensures Freeing(Extend(h, p), binned - {Next(h, p)}, dv, dvsize, p) && Used(Extend(h, p), Next(Extend(h, p), p))
    ensures Extend(h, p).head[p].size == h.head[p].size + h.head[Next(h, p)].size
    ensures Live(Extend(h, p)) == Live(h)[p := h.head[p].size + h.head[Next(h, p)].size]
    ensures binned[Next(h, p)] == h.head[Next(h, p)].size
  {
    hide HeapOk, Aligned, Extend;
    ExtendOk(h, p);
    ExtendHead(h, p);
    assert Next(h, p) in FreeChunks(h);
  }

  lemma ExtendVictim(h: Heap, binned: map<int, nat>, dv: int, dvsize: nat, p: int)
    requires Freeing(h, binned, dv, dvsize, p) && Next(h, p) == dv && Free(h, dv)
    ensures Next(h, dv) in h.head
    ensures Freeing(Extend(h, p), binned, p, dvsize, p) && Used(Extend(h, p), Next(Extend(h, p), p))
    ensures Extend(h, p).head[p].size == h.head[p].size + h.head[Next(h, p)].size
    ensures Live(Extend(h, p)) == Live(h)[p := h.head[p].size + dvsize] && dvsize == h.head[dv].size && p != dv
  {
    hide HeapOk, Aligned, Extend;
    ExtendOk(h, p);
    ExtendHead(h, p);
    SizeBound(h, p);
    assert dv in FreeChunks(h) && p !in FreeChunks(h);
  }

  lemma ExtendHead(h: Heap, p: int)
    requires HeapOk(h) && Used(h, p) && Free(h, Next(h, p)) && Next(h, Next(h, p)) in h.head
    ensures Used(Extend(h, p), p)
    ensures Extend(h, p).head[p] == h.head[p].(size := h.head[p].size + h.head[Next(h, p)].size)
  {
    At(h, p, Next(h, p));
  }

  /**
   * The stores that free p behind which n has been merged: only p's own head and the foot of the chunk after it change.
   */
  lemma ExtendReleaseStores(h: Heap, p: int, head: map<int, Head>)
    requires HeapOk(h) && Used(h, p) && h.head[p].pinuse && Free(h, Next(h, p)) && h.head == head[p := h.head[p]]
    ensures Next(h, Next(h, p)) in h.head && Next(Extend(h, p), p) in Extend(h, p).head
    ensures var s := h.head[p].size + h.head[Next(h, p)].size;
            Release(Extend(h, p), p) ==
            h.(chunks := h.chunks - {Next(h, p)}, head := head[p := Head(s, true, false)], foot := h.foot[p + s := s])
  {
    hide Aligned;
    FreeTags(h, Next(h, p));
    At(h, p, Next(h, p));
    At(h, Next(h, p), Next(h, Next(h, p)));
  }

  /** Freeing starts: p itself, or, with a free chunk before it, the two together. */
  lemma FreeStart(h: Heap, binned: map<int, nat>, dv: int, dvsize: nat, p: int)
    requires Matches(h, binned, dv, dvsize, 0) && p in Live(h)
    ensures Used(h, p) && p != dv && p != 0 && h.top != 0
    ensures h.head[p].pinuse ==> Freeing(h, binned, dv, dvsize, p)
    ensures !h.head[p].pinuse ==>
              && PrevFree(h, p)
              && var q, h' := p - h.foot[p], Absorb(h, p);
              && (q == dv ==> Freeing(h', binned, dv, dvsize, q))
              && (q != dv ==> q in binned && binned[q] == h.foot[p] && Freeing(h', binned - {q}, dv, dvsize, q))
              && Live(h') - {q} == Live(h) - {p}
  {
    hide HeapOk, Aligned, Absorb;
    MatchedIndex(h, binned, dv, dvsize);
    SizeBound(h, p);
    assert p !in FreeChunks(h);
    if !h.head[p].pinuse {
      AbsorbOk(h, p);
      AbsorbedHead(h, p);
      assert p - h.foot[p] in FreeChunks(h) && p - h.foot[p] !in Live(h);
      SizeBound(h, p - h.foot[p]);
    }
  }

  /** What the boundary tags around p say about the free chunks. */
  lemma FreeBounds(h: Heap, binned: map<int, nat>, dv: int, dvsize: nat, p: int)
    requires Matches(h, binned, dv, dvsize, 0) && p in Live(h)
    ensures var free := Indexed(binned, dv, dvsize); var next := p + Live(h)[p];
      && p in h.head && Live(h)[p] == h.head[p].size > 0 && p > 0 && p !in free && next in h.head
      && (h.head[p].pinuse ==> forall q :: q in free ==> q + free[q] != p)
      && (!h.head[p].pinuse ==>
           && p in h.foot && 0 < h.foot[p] < p && p - h.foot[p] in free && free[p - h.foot[p]] == h.foot[p]
           && p - h.foot[p] !in Live(h))
      && (forall q :: q in free ==> q + free[q] != h.top) && h.top !in free
      && (dvsize == 0 <==> dv == 0) && dv !in binned && p != dv
      && (next in free || next == h.top <==> !h.head[next].cinuse)
  {
    hide Aligned;
    MatchedIndex(h, binned, dv, dvsize);
    At(h, p, p);
    SizeBound(h, p);
    forall q | q in FreeChunks(h)
      ensures q + FreeChunks(h)[q] != h.top && (h.head[p].pinuse ==> q + FreeChunks(h)[q] != p)
    {
      At(h, q, p);
    }
    if !h.head[p].pinuse { SizeBound(h, p - h.foot[p]); assert p - h.foot[p] in FreeChunks(h); }
    if p + h.head[p].size != h.top { At(h, p + h.head[p].size, p); }
  }

  /** What freeing p comes to when the chunk before it is in use. */
  lemma FreesForward(h: Heap, binned: map<int, nat>, dv: int, dvsize: nat, p: int, topsize: nat)
    requires Matches(h, binned, dv, dvsize, 0) && p in Live(h) && p in h.head && h.head[p].pinuse
    ensures var a := Plain(Live(h), binned, dv, dvsize, h.top, topsize);
      Frees(a, p, Settled(a.(live := a.live - {p}), p, h.head[p].size))
  {
    hide HeapOk, Aligned, ChunkSize, Matches, FreeChunks, Live, Settled, Frees;
    var a := Plain(Live(h), binned, dv, dvsize, h.top, topsize);
    FreeBounds(h, binned, dv, dvsize, p);
    assert Apart(a, p, p) == a.(live := a.live - {p}) by { assert p !in binned && binned - {p} == binned; }
    SettledFrees(a, p, p, UpTo(a, p));
  }

  /** What freeing p comes to when the chunk before it is free. */
  lemma FreesBoth(h: Heap, binned: map<int, nat>, dv: int, dvsize: nat, p: int, topsize: nat)
    requires Matches(h, binned, dv, dvsize, 0) && p in Live(h) && p in h.head && !h.head[p].pinuse && p in h.foot
    ensures var a := Plain(Live(h), binned, dv, dvsize, h.top, topsize);
      var q, s := p - h.foot[p], h.foot[p] + h.head[p].size;
      && Next(h, p) in h.head
      && (q == dv && h.head[Next(h, p)].cinuse ==> Frees(a, p, a.(live := a.live - {p}, dvsize := s)))
      && (q == dv && !h.head[Next(h, p)].cinuse ==> Frees(a, p, Settled(a.(live := a.live - {p}), q, s)))
      && (q != dv ==> Frees(a, p, Settled(a.(live := a.live - {p}, binned := binned - {q}), q, s)))
  {
    hide HeapOk, Aligned, ChunkSize, Matches, FreeChunks, Live, Settled, Frees;
    var a, q := Plain(Live(h), binned, dv, dvsize, h.top, topsize), p - h.foot[p];
    FreeBounds(h, binned, dv, dvsize, p);
    if q == dv && h.head[Next(h, p)].cinuse {
      VictimFrees(a, p, q);
    } else {
      if q == dv { assert binned - {q} == binned; }
      SettledFrees(a, p, q, UpTo(a, p));
    }
  }

  lemma AbsorbedHead(h: Heap, p: int)
    requires p in h.chunks && p in h.head && PrevFree(h, p) && h.foot[p] > 0
    ensures var q := p - h.foot[p]; Used(Absorb(h, p), q) && Absorb(h, p).head[q].pinuse == h.head[q].pinuse
  {}

  class MallocState {
    const bins: BinIndex
    var head: map<int, Head>
    var foot: map<int, nat>
    var top: int
    var topsize: nat
    var dv: int
    var dvsize: nat
    ghost var chunks: set<int>
    ghost var base: int

    ghost function View(): Heap
      reads this
    { Heap(chunks, head, foot, base, top, topsize) }

    ghost function Abs(): Plain
      reads this, bins
    { Plain(Live(View()), bins.binned, dv, dvsize, top, topsize) }

    ghost predicate Agree(p: int)
      reads this, bins
    { bins.Valid() && Matches(View(), bins.binned, dv, dvsize, p) }

    ghost predicate Valid()
      reads this, bins
    {
      if top == 0 then
        && bins.Valid() && bins.binned == map[] && bins.smallmap == 0 && bins.treemap == 0
        && chunks == {} && topsize == 0 && dv == 0 && dvsize == 0
      else Agree(0)
    }

    constructor ()
      ensures Valid() && fresh(bins) && Abs() == Plain(map[], map[], 0, 0, 0, 0)
    {
      bins := new BinIndex();
      head, foot, top, topsize, dv, dvsize := map[], map[], 0, 0, 0, 0;
      chunks, base := {}, 0;
    }

    /** set_inuse_and_pinuse */
    method SetInuse(p: int)
      requires HeapOk(View()) && Free(View(), p) && Next(View(), p) in head
      modifies this`head
      ensures View() == old(Take(View(), p))
    {
      FreeTags(View(), p);
      var s := head[p].size;
      var n := p + s;
      head := head[p := Head(s, true, true)];
      head := head[n := head[n].(pinuse := true)];
    }

    /**
     * set_size_and_pinuse_of_inuse_chunk and set_size_and_pinuse_of_free_chunk: cut a free chunk, the rest stays free.
     */
    method CutChunk(p: int, nb: nat) returns (r: int, rsize: nat)
      requires HeapOk(View()) && Free(View(), p) && SizeOk(nb) && nb + MIN_CHUNK <= head[p].size
      modifies this`head, this`foot, this`chunks
      ensures View() == old(Cut(View(), p, nb)) && r == p + nb && rsize == old(head[p].size) - nb
    {
      CutStores(View(), p, nb);
      r, rsize := p + nb, head[p].size - nb;
      head := head[p := Head(nb, true, true)];
      head := head[r := Head(rsize, true, false)];
      foot := foot[r + rsize := rsize];
      chunks := chunks + {r};
    }

    /** Use free chunk p, which is in no bin, and bin the remainder, if any: the end of tmalloc_large. */
    method UseAndBin(p: int, nb: nat)
      requires p != 0 && Agree(p) && SizeOk(nb) && nb <= head[p].size
      modifies this, bins
      ensures Agree(0) && Grew(old(Live(View())), Live(View()), p, nb)
      ensures Abs() == old(UsedOf(Abs(), p, head[p].size, nb, false))
    {
      hide HeapOk, Aligned, FreeChunks, Live, Grew, Take, Cut, ChunkSize;
      var rsize := head[p].size - nb;
      if rsize < MIN_CHUNK {
        UsedWhole(View(), bins.binned, dv, dvsize, p, nb);
        SetInuse(p);
      } else {
        UsedCut(View(), bins.binned, dv, dvsize, p, nb);
        var r;
        r, rsize := CutChunk(p, nb);
        MatchedFree(View(), bins.binned, dv, dvsize, r, r);
        MatchedSizes(View(), bins.binned, dv, dvsize, r);
        NowBinned(View(), bins.binned, dv, dvsize, r);
        bins.Insert(r, rsize, head);
      }
    }

    /** replace_dv */
    method ReplaceDv(r: int, s: nat)
      requires r != 0 && Agree(r) && s == head[r].size && IsSmall(dvsize)
      modifies this`dv, this`dvsize, bins
      ensures Agree(0) && Abs() == old(NewVictim(Abs(), r, s))
    {
      hide HeapOk, Aligned, FreeChunks, ChunkSize, Matches;
      if dvsize != 0 {
        MatchedFree(View(), bins.binned, dv, dvsize, r, dv);
        VictimBinned(View(), bins.binned, dv, dvsize, r);
        VictimApart(View(), bins.binned, dv, dvsize, r);
        bins.InsertSmall(dv, dvsize);
      } else {
        VictimApart(View(), bins.binned, dv, dvsize, r);
      }
      NowVictim(View(), bins.binned, r);
      dvsize, dv := s, r;
    }

    /** Use free chunk p, which is in no bin, and make the remainder, if any, the designated victim. */
    method UseAndKeep(p: int, nb: nat)
      requires p != 0 && Agree(p) && SizeOk(nb) && nb <= head[p].size && IsSmall(dvsize)
      modifies this, bins
      ensures Agree(0) && Grew(old(Live(View())), Live(View()), p, nb)
      ensures Abs() == old(UsedOf(Abs(), p, head[p].size, nb, true))
    {
      hide HeapOk, Aligned, FreeChunks, Live, Grew, Take, Cut;
      var rsize := head[p].size - nb;
      if rsize < MIN_CHUNK {
        UsedWhole(View(), bins.binned, dv, dvsize, p, nb);
        SetInuse(p);
      } else {
        UsedCut(View(), bins.binned, dv, dvsize, p, nb);
        var r;
        r, rsize := CutChunk(p, nb);
        ReplaceDv(r, rsize);
      }
    }

    /** Use the designated victim, splitting it or using it up. */
    method UseDv(nb: nat) returns (p: int)
      requires Agree(0) && SizeOk(nb) && nb <= dvsize
      modifies this
      ensures Agree(0) && p == old(dv) && p > 0 && Grew(old(Live(View())), Live(View()), p, nb)
      ensures Abs() == old(FromVictim(Abs(), nb))
    {
      hide HeapOk, Aligned, FreeChunks, Live, Grew, Take, Cut, ChunkSize, Matches;
      MatchedFree(View(), bins.binned, dv, dvsize, 0, dv);
      NoVictim(View(), bins.binned, dv, dvsize);
      MatchedHeap(View(), bins.binned, 0, 0, dv);
      var rsize := dvsize - nb;
      p := dv;
      if rsize >= MIN_CHUNK {
        UsedCut(View(), bins.binned, 0, 0, p, nb);
        dv, rsize := CutChunk(p, nb);
        dvsize := rsize;
        NowVictim(View(), bins.binned, dv);
      } else {
        UsedWhole(View(), bins.binned, 0, 0, p, nb);
        dvsize, dv := 0, 0;
        SetInuse(p);
      }
    }

    /** Use the lower part of top. */
    method UseTop(nb: nat) returns (p: int)
      requires Agree(0) && SizeOk(nb) && nb < topsize
      modifies this
      ensures Agree(0) && top != 0 && p == old(top) && p > 0 && Grew(old(Live(View())), Live(View()), p, nb)
      ensures Abs() == old(FromTop(Abs(), nb))
    {
      hide HeapOk, Aligned, FreeChunks, Live, Grew, ChunkSize, Matches;
      TopTaken(View(), bins.binned, dv, dvsize, nb);
      topsize := topsize - nb;
      p := top;
      top := p + nb;
      head := head[top := Head(topsize, true, false)];
      head := head[p := Head(nb, true, true)];
      chunks := chunks + {p};
    }

    /** tmalloc_large */
    method TmallocLarge(nb: nat) returns (p: int)
      requires Agree(0) && SizeOk(nb) && MIN_LARGE_SIZE <= nb < WORD
      modifies this, bins
      ensures Agree(0) && top == old(top)
      ensures p != 0 ==>
          p > 0 && Grew(old(Live(View())), Live(View()), p, nb) && FitsBest(p, nb, old(FreeChunks(View())))
      ensures p != 0 ==>
          && BestBinned(p, nb, old(bins.binned)) && LargeFromBin(old(bins.binned)[p], nb, old(dvsize))
          && Abs() == old(FromBin(Abs(), p, nb, false))
      ensures p == 0 ==> View() == old(View()) && Abs() == old(Abs())
      ensures p == 0 ==> forall q :: BestBinned(q, nb, bins.binned) ==> !LargeFromBin(bins.binned[q], nb, dvsize)
      ensures p == 0 ==> if nb <= dvsize then FitsBest(dv, nb, FreeChunks(View())) else NoFit(nb, FreeChunks(View()))
    {
      hide HeapOk, Aligned, FreeChunks, Live, Grew, ChunkSize, Matches, FitsBest, NoFit;
      MatchedSizes(View(), bins.binned, dv, dvsize, 0);
      MatchedIndex(View(), bins.binned, dv, dvsize);
      var v, rsize := bins.FindLarge(nb, head);
      BestOverall(v, nb, bins.binned, dv, dvsize);
      BinChoice(v, nb, bins.binned, dvsize);
      if v != 0 && rsize < (dvsize - nb) % WORD {
        NowUnbinned(View(), bins.binned, dv, dvsize, v);
        MatchedFree(View(), bins.binned, dv, dvsize, 0, v);
        bins.UnlinkLarge(v);
        UseAndBin(v, nb);
        return v;
      }
      return 0;
    }

    /** tmalloc_small */
    method TmallocSmall(nb: nat) returns (p: int)
      requires Agree(0) && SizeOk(nb) && nb < MIN_LARGE_SIZE && bins.treemap != 0 && IsSmall(dvsize)
      modifies this, bins
      ensures Agree(0) && p > 0 && Grew(old(Live(View())), Live(View()), p, nb)
      ensures BestLarge(p, nb, old(bins.binned)) && Abs() == old(FromBin(Abs(), p, nb, true))
    {
      hide HeapOk, Aligned, FreeChunks, Live, Grew, ChunkSize, Matches;
      MatchedSizes(View(), bins.binned, dv, dvsize, 0);
      var v, rsize := bins.FindSmallestLarge(nb, head);
      NowUnbinned(View(), bins.binned, dv, dvsize, v);
      MatchedFree(View(), bins.binned, dv, dvsize, 0, v);
      bins.UnlinkLarge(v);
      UseAndKeep(v, nb);
      return v;
    }

    /** The part of dlmalloc for small requests: small bins, unless the designated victim will do, then tree bins. */
    method MallocSmall(nb: nat) returns (p: int)
      requires Valid() && SizeOk(nb) && nb <= 248
      modifies this, bins
      ensures Valid()
      ensures p != 0 ==> p > 0 && top != 0 && Grew(old(Live(View())), Live(View()), p, nb)
      ensures p != 0 ==>
          && BestBinned(p, nb, old(bins.binned)) && SmallFromBin(nb, old(bins.binned)[p], old(dvsize))
          && Abs() == old(FromBin(Abs(), p, nb, true))
      ensures p == 0 ==> View() == old(View()) && Abs() == old(Abs())
      ensures p == 0 ==> forall q :: BestBinned(q, nb, bins.binned) ==> !SmallFromBin(nb, bins.binned[q], dvsize)
      ensures p == 0 ==> nb <= dvsize || NoFit(nb, FreeChunks(View()))
    {
      hide HeapOk, Live, Grew, ChunkSize, Matches, SmallsOk, TreesOk, Covered, Marked, Has, Shr, Shl, And, LeftBits;
      hide Idx2Bit, FreeChunks, BestBinned, BestLarge, AllMarked;
      SmallIndex(nb);
      var idx := nb / 8;
      var smallbits := Shr(bins.smallmap, idx);
      SmallBits(bins.smallmap, idx);
      if top == 0 { forall j: nat | j < 32 ensures !Marked(0, j) { EmptyMap(j); } }
      SmallMarked(bins.smalls, bins.smallmap, bins.tries, bins.treebins, bins.treemap, bins.links, bins.binned);
      ghost var map0, sz := bins.smallmap, bins.binned;
      p := 0;
      if Has(smallbits, 3) {
        idx := if Has(smallbits, 1) then idx else idx + 1;
        p := UseFirstSmall(idx, nb);
        BestSmall(map0, sz, nb, idx, p);
      } else if nb > dvsize {
        if smallbits != 0 {
          var i := FirstBeyond(bins.smallmap, idx);
          p := UseFirstSmall(i, nb);
          BestSmall(map0, sz, nb, i, p);
        } else if bins.treemap != 0 {
          p := TmallocSmall(nb);
          BestTree(map0, sz, nb, p);
        } else {
          NothingFits(
            bins.smalls, bins.smallmap, bins.tries, bins.treebins, bins.treemap, bins.links, bins.binned, idx);
          NoBest(nb, sz);
          if top != 0 { MatchedIndex(View(), bins.binned, dv, dvsize); } else { NoFreeYet(View()); }
        }
      } else {
        NoneNearlyFilled(map0, sz, nb, dvsize);
      }
    }

    /** The first marked small bin from idx on, when the bins at idx and idx + 1 are empty. */
    static method FirstBeyond(smallmap: bv32, idx: nat) returns (i: nat)
      requires idx < 32 && !Has(Shr(smallmap, idx), 3) && Shr(smallmap, idx) != 0
      ensures idx + 1 < i < 32 && Marked(smallmap, i)
      ensures forall j: nat :: idx <= j < i ==> !Marked(smallmap, j)
    {
      hide Marked, Has, Shr, Shl, And, LeftBits, Idx2Bit;
      SmallBits(smallmap, idx);
      var leftbits := And(Shl(Shr(smallmap, idx), idx), LeftBits(Idx2Bit(idx)));
      forall j: nat | j < 32 ensures Marked(leftbits, j) <==> idx < j && Marked(smallmap, j) {
        ShiftedLeft(smallmap, idx, j);
      }
      if leftbits == 0 { forall j: nat | j < 32 ensures !Marked(leftbits, j) { EmptyMap(j); } }
      i := FirstMarked(leftbits);
      forall j: nat | j < i ensures !Marked(leftbits, j) { if Marked(leftbits, j) { FirstMarkedIsLeast(leftbits, j); } }
    }

    /** Use the first chunk of small bin i: exactly, or splitting it with the remainder as the designated victim. */
    method UseFirstSmall(i: nat, nb: nat) returns (p: int)
      requires Agree(0) && SizeOk(nb) && nb <= 8 * i && i < NBINS && Marked(bins.smallmap, i)
      requires 8 * i < nb + MIN_CHUNK || IsSmall(dvsize)
      modifies this, bins
      ensures Agree(0) && p > 0 && Grew(old(Live(View())), Live(View()), p, nb)
      ensures p in old(bins.binned) && old(bins.binned)[p] == 8 * i && Abs() == old(FromBin(Abs(), p, nb, true))
    {
      hide HeapOk, Aligned, Live, Grew, ChunkSize, Matches, Marked, FreeChunks, Take, Cut;
      ghost var was := bins.binned;
      p := bins.UnlinkFirstSmall(i);
      NowUnbinned(View(), was, dv, dvsize, p);
      MatchedFree(View(), was, dv, dvsize, 0, p);
      MatchedHeap(View(), was, dv, dvsize, 0);
      if 8 * i < nb + MIN_CHUNK {
        UsedWhole(View(), bins.binned, dv, dvsize, p, nb);
        SetInuse(p);
      } else {
        UseAndKeep(p, nb);
      }
    }

    /** sys_alloc on the first segment, or on one that grows contiguously. */
    method SysAlloc(nb: nat, more: Morecore) returns (p: int)
      requires Valid() && MoreOk(top, topsize, more) && (SizeOk(nb) || nb >= WORD - 1)
      modifies this
      ensures Valid()
      ensures var b := old(MoreTop(Abs(), more));
          if more.Got? && nb < b.topsize then p == b.top != 0 && Abs() == FromTop(b, nb) else p == 0 && Abs() == b
      ensures p != 0 ==> p > 0 && top != 0 && Grew(old(Live(View())), Live(View()), p, nb)
      ensures p == 0 ==> Live(View()) == old(Live(View())) && (more.Fail? ==> View() == old(View()))
      ensures nb >= WORD - 1 ==> p == 0
      ensures more.Got? && old(top) != 0 ==> (p != 0 <==> nb < old(topsize) + more.tsize)
      ensures more.Got? && old(top) == 0 && nb + TOP_FOOT + 8 <= more.tsize ==> p != 0
    {
      hide HeapOk, Grew, Matches, ChunkSize;
      if more.Fail? { return 0; }
      if top == 0 {
        InitTop(more.tbase, more.tsize - TOP_FOOT);
      } else {
        TopGrown(View(), bins.binned, dv, dvsize, more.tsize);
        topsize := topsize + more.tsize;
        head := head[top := Head(topsize, true, false)];
      }
      MatchedIndex(View(), bins.binned, dv, dvsize);
      p := 0;
      if nb < topsize {
        p := UseTop(nb);
      }
    }

    /** init_top for the first segment: align the first chunk, everything up to the trailing overhead is top. */
    method InitTop(tbase: int, psize: nat)
      requires Valid() && top == 0 && tbase > 0 && Aligned(tbase + psize) && psize > 8
      requires tbase + psize + TOP_FOOT <= WORD
      modifies this
      ensures Agree(0) && Live(View()) == map[] && old(Live(View())) == map[]
      ensures var offset := AlignOffset(tbase);
          Abs() == old(Abs()).(top := tbase + offset, topsize := psize - offset) && topsize >= psize - 7
    {
      hide HeapOk, Matches;
      var offset := AlignOffset(tbase + 8);
      assert (tbase + 8) % 8 == tbase % 8;
      var p := tbase + offset;
      FirstTop(head, foot, p, psize - offset);
      top, topsize := p, psize - offset;
      head := head[p := Head(topsize, true, false)];
      base := p;
    }

    lemma TooLarge(nb: nat)
      requires Valid() && nb == WORD - 1
      ensures dvsize < nb && topsize <= nb && NoFit(nb, FreeChunks(View()))
      ensures forall q :: q in bins.binned ==> bins.binned[q] < nb
    {
      hide HeapOk, ChunkSize, Matches;
      if top != 0 {
        MatchedIndex(View(), bins.binned, dv, dvsize);
        forall q | q in bins.binned ensures bins.binned[q] < nb { MatchedFree(View(), bins.binned, dv, dvsize, 0, q); }
      }
    }

    lemma NoTrees(nb: nat)
      requires Valid() && bins.treemap == 0 && MIN_LARGE_SIZE <= nb < WORD
      ensures if nb <= dvsize then top != 0 && FitsBest(dv, nb, FreeChunks(View())) else NoFit(nb, FreeChunks(View()))
      ensures forall q :: q in bins.binned ==> bins.binned[q] < nb
    {
      hide HeapOk, ChunkSize, Matches, SmallsOk, TreesOk, Covered;
      if top != 0 {
        MatchedIndex(View(), bins.binned, dv, dvsize);
        SmallsShape(bins.smalls, bins.smallmap, bins.links, bins.binned);
        NoTreeBins(bins.smalls, bins.tries, bins.treebins, bins.links, bins.binned, nb);
        BestOverall(0, nb, bins.binned, dv, dvsize);
      }
    }

    /** The first part of dlmalloc: the bins. */
    method TryBins(bytes: nat) returns (p: int, nb: nat)
      requires Valid() && bytes < WORD
      modifies this, bins
      ensures Valid() && nb == RequestSize(bytes) && ((SizeOk(nb) && nb < WORD) || nb == WORD - 1)
      ensures bytes >= MAX_REQUEST ==> p == 0 && nb == WORD - 1
      ensures p != 0 ==> p > 0 && Grew(old(Live(View())), Live(View()), p, nb) && BinServes(old(Abs()), bytes, p)
      ensures p != 0 ==> Abs() == FromBin(old(Abs()), p, nb, bytes <= MAX_SMALL_REQUEST)
      ensures p != 0 && bytes > MAX_SMALL_REQUEST ==> old(FitsBest(p, nb, FreeChunks(View())))
      ensures p == 0 ==> View() == old(View()) && Abs() == old(Abs()) && (nb <= dvsize || NoFit(nb, FreeChunks(View())))
      ensures p == 0 ==>
          forall q :: BestBinned(q, nb, bins.binned) ==> !UsesBin(bytes, bins.binned[q], dvsize)
      ensures p == 0 && bytes > MAX_SMALL_REQUEST && nb <= dvsize ==> FitsBest(dv, nb, FreeChunks(View()))
    {
      hide HeapOk, Live, Grew, FreeChunks, ChunkSize, Matches, FitsBest, NoFit, UsedOf, SmallFromBin, LargeFromBin;
      PaddedIsLeast(bytes, 0);
      p := 0;
      if bytes <= MAX_SMALL_REQUEST {
        nb := Padded(bytes);
        p := MallocSmall(nb);
      } else if bytes >= MAX_REQUEST {
        nb := WORD - 1;
        TooLarge(nb);
        NoBest(nb, bins.binned);
      } else {
        nb := Padded(bytes);
        if bins.treemap != 0 {
          if top == 0 { assert false; }
          p := TmallocLarge(nb);
        } else {
          NoTrees(nb);
          NoBest(nb, bins.binned);
        }
      }
    }

    /** The rest of dlmalloc: the designated victim, top, the system. */
    method TryRest(nb: nat, more: Morecore) returns (p: int)
      requires Valid() && MoreOk(top, topsize, more) && ((SizeOk(nb) && nb < WORD) || nb == WORD - 1)
      modifies this, bins
      ensures Valid() && (p != 0 ==> p > 0 && nb < WORD - 1 && Grew(old(Live(View())), Live(View()), p, nb))
      ensures var a := old(Abs()); var b := MoreTop(a, more);
          if nb <= a.dvsize then p == a.dv != 0 && Abs() == FromVictim(a, nb)
          else if nb < a.topsize then p == a.top != 0 && Abs() == FromTop(a, nb)
          else if nb < b.topsize then p == b.top != 0 && Abs() == FromTop(b, nb)
          else p == 0 && Abs() == b
    {
      hide HeapOk, Live, Grew, FreeChunks, ChunkSize, Matches, UsedOf, MoreTop;
      if nb == WORD - 1 { TooLarge(nb); }
      FailSame(Abs(), more);
      StartsEmpty();
      if nb <= dvsize {
        VictimTop(Abs(), nb);
        p := UseDv(nb);
      } else if nb < topsize {
        p := UseTop(nb);
      } else {
        p := SysAlloc(nb, more);
      }
    }

    lemma StartsEmpty()
      requires Valid()
      ensures top == 0 ==> dvsize == 0 && topsize == 0 && Live(View()) == map[]
    {}

    /** dlmalloc */
    method Malloc(bytes: nat, more: Morecore) returns (mem: int)
      requires Valid() && bytes < WORD && MoreOk(top, topsize, more)
      modifies this, bins
      ensures Valid() && Allocates(old(Abs()), bytes, more, Abs(), mem)
      ensures mem == 0 <==>
          old(NoFit(RequestSize(bytes), FreeChunks(View())) && topsize <= RequestSize(bytes)
              && MoreTop(Abs(), more).topsize <= RequestSize(bytes))
      ensures mem != 0 ==> Grew(old(Live(View())), Live(View()), mem - 8, RequestSize(bytes))
      ensures mem == 0 ==> Live(View()) == old(Live(View()))
      ensures bytes >= MAX_REQUEST ==> mem == 0
      ensures mem != 0 && bytes > MAX_SMALL_REQUEST && old(!NoFit(RequestSize(bytes), FreeChunks(View()))) ==>
                old(FitsBest(mem - 8, RequestSize(bytes), FreeChunks(View())))
    {
      hide HeapOk, Live, Grew, FreeChunks, ChunkSize, Matches, FitsBest, NoFit, Allocates, MoreTop, FromBin, FromVictim;
      hide FromTop, BinServes, BestBinned, UsesBin, RequestSize, FreeOf;
      ghost var a := Abs();
      FreeSizes();
      var p, nb := TryBins(bytes);
      if p != 0 {
        BinDone(a, bytes, more, p);
      } else {
        BinNot(a, bytes);
        OtherDone(a, bytes, more);
        MoreLive(a, more);
        p := TryRest(nb, more);
      }
      mem := if p == 0 then 0 else p + 8;
    }

    /** The free chunks are those of the index. */
    lemma FreeSizes()
      requires Valid()
      ensures FreeChunks(View()) == FreeOf(Abs()) && dv !in bins.binned
    {
      hide HeapOk, ChunkSize;
    }

    /** set_free_with_pinuse */
    method SetFree(p: int, psize: nat, next: int, ghost h: Heap)
      requires h == View().(chunks := h.chunks, head := head[p := Head(psize, true, true)])
      requires psize > 0 && next == p + psize && next in h.head
      modifies this`head, this`foot, this`chunks
      ensures View() == Release(h, p)
    {
      head := head[p := Head(psize, true, false)];
      foot := foot[next := psize];
      head := head[next := head[next].(pinuse := false)];
      chunks := h.chunks;
    }

    /** The state while p, of size psize, is being freed. */
    ghost predicate Pending(h: Heap, p: int, psize: nat)
      reads this, bins
    {
      && bins.Valid() && Freeing(h, bins.binned, dv, dvsize, p)
      && h == View().(chunks := h.chunks, head := head[p := Head(psize, true, true)])
    }

    /** The second half of dlfree: consolidate forward, or set p free, and bin it. */
    method FreeForward(p: int, psize0: nat, ghost h: Heap)
      requires Pending(h, p, psize0) && top != 0 && (p == dv ==> Next(h, p) in h.head && !h.head[Next(h, p)].cinuse)
      modifies this, bins
      ensures Agree(0) && top != 0 && Live(View()) == Live(h) - {p}
      ensures Abs() == Settled(old(Abs()).(live := Live(h) - {p}), p, psize0)
    {
      hide HeapOk, Aligned, ChunkSize, Freeing, Matches, Live, FreeChunks, GiveTop, Release, Extend;
      FreeingNext(h, bins.binned, dv, dvsize, p);
      var psize := psize0;
      var next := p + psize;
      if !head[next].cinuse {
        if next == top {
          FreedToTop(h, bins.binned, dv, dvsize, p);
          MergeTop(p, psize, h);
          return;
        } else if next == dv {
          JoinVictim(p, psize, h);
          return;
        } else {
          JoinBinned(p, psize, h);
          return;
        }
      }
      FreedAlone(h, bins.binned, dv, dvsize, p);
      SetFree(p, psize, next, h);
      BinFreed(p, psize);
    }

    /** p, free and in no bin, is binned. */
    method BinFreed(p: int, psize: nat)
      requires p != 0 && Agree(p) && psize == head[p].size
      modifies bins
      ensures Agree(0) && bins.binned == old(bins.binned)[p := psize]
    {
      hide HeapOk, Aligned, ChunkSize, Matches, Live, FreeChunks;
      MatchedFree(View(), bins.binned, dv, dvsize, p, p);
      MatchedSizes(View(), bins.binned, dv, dvsize, p);
      NowBinned(View(), bins.binned, dv, dvsize, p);
      bins.Insert(p, psize, head);
    }

    /** p and the designated victim behind it become the designated victim. */
    method JoinVictim(p: int, psize: nat, ghost h: Heap)
      requires Pending(h, p, psize) && p in h.head && Next(h, p) == dv && Free(h, dv)
      modifies this
      ensures Agree(0) && Live(View()) == Live(h) - {p} && bins.binned == old(bins.binned)
      ensures dv == p && dvsize == old(dvsize) + psize && top == old(top) && topsize == old(topsize)
    {
      hide HeapOk, Aligned, ChunkSize, Freeing, Matches, Live, FreeChunks, Release, Extend;
      FreeingNext(h, bins.binned, dv, dvsize, p);
      ExtendVictim(h, bins.binned, dv, dvsize, p);
      FreedVictim(Extend(h, p), bins.binned, p, dvsize, p);
      dvsize := dvsize + psize;
      dv := p;
      SetSizeFree(p, dvsize, h);
    }

    /** p and the binned chunk behind it become one chunk: the designated victim if p was, else a binned one. */
    method JoinBinned(p: int, psize0: nat, ghost h: Heap)
      requires Pending(h, p, psize0) && p in h.head && Next(h, p) in bins.binned && Free(h, Next(h, p))
      modifies this, bins
      ensures Agree(0) && Live(View()) == Live(h) - {p} && top == old(top) && topsize == old(topsize) && dv == old(dv)
      ensures p + psize0 in old(bins.binned)
      ensures p == dv ==>
          dvsize == psize0 + old(bins.binned)[p + psize0] && bins.binned == old(bins.binned) - {p + psize0}
      ensures p != dv ==>
          && dvsize == old(dvsize)
          && bins.binned == (old(bins.binned) - {p + psize0})[p := psize0 + old(bins.binned)[p + psize0]]
    {
      hide HeapOk, Aligned, ChunkSize, Freeing, Matches, Live, FreeChunks, Release, Extend;
      FreeingNext(h, bins.binned, dv, dvsize, p);
      var psize := psize0;
      var next := p + psize;
      var nsize := head[next].size;
      ExtendBinned(h, bins.binned, dv, dvsize, p);
      psize := psize + nsize;
      bins.Unlink(next, nsize);
      if p == dv {
        FreedVictim(Extend(h, p), bins.binned, dv, dvsize, p);
      } else {
        FreedAlone(Extend(h, p), bins.binned, dv, dvsize, p);
      }
      SetSizeFree(p, psize, h);
      if p == dv {
        dvsize := psize;
      } else {
        BinFreed(p, psize);
      }
    }

    /** p becomes part of top. */
    method MergeTop(p: int, psize: nat, ghost h: Heap)
      requires h == View().(chunks := h.chunks, head := head[p := Head(psize, true, true)])
      modifies this
      ensures View() == GiveTop(h, p) && top == p && dv == (if p == old(dv) then 0 else old(dv))
      ensures dvsize == (if p == old(dv) then 0 else old(dvsize)) && topsize == old(topsize) + psize
    {
      topsize := topsize + psize;
      top := p;
      head := head[p := Head(topsize, true, false)];
      chunks := h.chunks - {p};
      if p == dv {
        dv := 0;
        dvsize := 0;
      }
    }

    /** set_size_and_pinuse_of_free_chunk for p and the free chunk behind it together. */
    method SetSizeFree(p: int, s: nat, ghost h: Heap)
      requires HeapOk(h) && Used(h, p) && h.head[p].pinuse && Free(h, Next(h, p))
      requires s == h.head[p].size + h.head[Next(h, p)].size
      requires h == View().(chunks := h.chunks, head := head[p := h.head[p]])
      modifies this`head, this`foot, this`chunks
      ensures Next(h, Next(h, p)) in h.head && Next(Extend(h, p), p) in Extend(h, p).head
      ensures View() == Release(Extend(h, p), p)
    {
      ExtendReleaseStores(h, p, head);
      head := head[p := Head(s, true, false)];
      foot := foot[p + s := s];
      chunks := h.chunks - {Next(h, p)};
    }

    /** dlfree */
    method Dlfree(mem: int)
      requires Valid() && (mem == 0 || mem - 8 in Live(View()))
      modifies this, bins
      ensures Valid()
      ensures Live(View()) == if mem == 0 then old(Live(View())) else old(Live(View())) - {mem - 8}
      ensures if mem == 0 then Abs() == old(Abs()) else Frees(old(Abs()), mem - 8, Abs())
    {
      hide HeapOk, Aligned, ChunkSize, Freeing, Matches, FreeChunks, Release, Settled, Frees, Live;
      if mem == 0 { return; }
      var p := mem - 8;
      StartsEmpty();
      FreeStart(View(), bins.binned, dv, dvsize, p);
      LiveHead(View(), p);
      var psize := head[p].size;
      if head[p].pinuse {
        FreesForward(View(), bins.binned, dv, dvsize, p, topsize);
        FreeForward(p, psize, View());
        return;
      }
      FreesBoth(View(), bins.binned, dv, dvsize, p, topsize);
      ghost var h := Absorb(View(), p);
      var next := p + psize;
      var prevsize := foot[p];
      p := p - prevsize;
      psize := psize + prevsize;
      AbsorbedHead(View(), mem - 8);
      FreeingNext(h, if p == dv then bins.binned else bins.binned - {p}, dv, dvsize, p);
      if p != dv {
        bins.Unlink(p, prevsize);
      } else if head[next].pinuse && head[next].cinuse {
        FreedVictim(h, bins.binned, dv, dvsize, p);
        dvsize := psize;
        SetFree(p, psize, next, h);
        return;
      }
      FreeForward(p, psize, h);
    }

    /**
     * A client writes anything at any address of its block: where the links of its chunk would be, where the head word,
     * prev_foot field and links of a chunk inside it would be, and in the prev_foot field behind it.
     */
    method ClientWrite(mem: int, x: int, hd: Head, ft: nat, k: Links)
      requires Valid() && mem - 8 in Live(View()) && mem - 8 <= x <= mem - 8 + Live(View())[mem - 8]
      modifies this`head, this`foot, bins
      ensures Valid() && Live(View()) == old(Live(View())) && bins.binned == old(bins.binned) && Abs() == old(Abs())
    {
      hide HeapOk, Aligned, Matches, FreeChunks, WriteFoot, WriteInside;
      var p := mem - 8;
      Written(View(), bins.binned, dv, dvsize, p, ft);
      WriteFootIs(View(), p, ft);
      if x == p + head[p].size {
        foot := foot[x := ft];
      } else {
        if p < x { WrittenInside(View(), bins.binned, dv, dvsize, p, x, hd, ft); }
        bins.Overwrite(x, k);
        if p < x {
          WriteInsideIs(View(), x, hd, ft);
          head, foot := head[x := hd], foot[x := ft];
        }
      }
    }
  }

  /** Served from the bins. */
  lemma BinDone(a: Plain, bytes: nat, more: Morecore, p: int)
    requires MoreOk(a.top, a.topsize, more) && BinServes(a, bytes, p) && a.dv !in a.binned
    ensures Allocates(a, bytes, more, FromBin(a, p, RequestSize(bytes), bytes <= MAX_SMALL_REQUEST), p + 8)
    ensures !NoFit(RequestSize(bytes), FreeOf(a))
  {
    assert p in FreeOf(a);
  }

  lemma FailSame(a: Plain, more: Morecore)
    requires MoreOk(a.top, a.topsize, more)
    ensures more.Fail? ==> MoreTop(a, more) == a
  {}

  lemma VictimTop(a: Plain, nb: nat)
    ensures FromVictim(a, nb).top == a.top
  {}

  lemma MoreLive(a: Plain, more: Morecore)
    requires MoreOk(a.top, a.topsize, more)
    ensures MoreTop(a, more).live == a.live
  {}

  lemma BinNot(a: Plain, bytes: nat)
    requires forall q :: BestBinned(q, RequestSize(bytes), a.binned) ==> !UsesBin(bytes, a.binned[q], a.dvsize)
    ensures !exists p :: BinServes(a, bytes, p)
  {}

  /** Not served from the bins. */
  lemma OtherDone(a: Plain, bytes: nat, more: Morecore)
    requires MoreOk(a.top, a.topsize, more) && !exists p :: BinServes(a, bytes, p)
    ensures var nb, b := RequestSize(bytes), MoreTop(a, more);
        && (nb <= a.dvsize ==> Allocates(a, bytes, more, FromVictim(a, nb), a.dv + 8))
        && (a.dvsize < nb < a.topsize ==> Allocates(a, bytes, more, FromTop(a, nb), a.top + 8))
        && (a.dvsize < nb && a.topsize <= nb < b.topsize ==> Allocates(a, bytes, more, FromTop(b, nb), b.top + 8))
        && (a.dvsize < nb && a.topsize <= nb && b.topsize <= nb ==> Allocates(a, bytes, more, b, 0))
        && (nb <= a.dvsize && a.dv !in a.binned ==> !NoFit(nb, FreeOf(a)))
  {
    if RequestSize(bytes) <= a.dvsize { assert a.dvsize > 0 ==> a.dv in FreeOf(a); }
  }

  lemma NoBest(nb: nat, sz: map<int, nat>)
    requires forall q :: q in sz ==> sz[q] < nb
    ensures forall q :: !BestBinned(q, nb, sz)
  {}

  lemma NoFreeYet(h: Heap)
    requires h.chunks == {}
    ensures FreeChunks(h) == map[]
  {}

  lemma SmallIndex(nb: nat)
    requires SizeOk(nb) && nb <= 248
    ensures nb == 8 * (nb / 8) && 2 <= nb / 8 < 32
  {}

  lemma MatchedHeap(h: Heap, binned: map<int, nat>, dv: int, dvsize: nat, p: int)
    requires Matches(h, binned, dv, dvsize, p)
    ensures HeapOk(h)
  {}

  lemma VictimApart(h: Heap, binned: map<int, nat>, dv: int, dvsize: nat, p: int)
    requires Matches(h, binned, dv, dvsize, p)
    ensures dv !in binned && (dvsize == 0 <==> dv == 0)
  {}

  lemma Written(h: Heap, binned: map<int, nat>, dv: int, dvsize: nat, p: int, v: nat)
    requires Matches(h, binned, dv, dvsize, 0) && p in Live(h)
    ensures p in h.head && Matches(WriteFoot(h, p, v), binned, dv, dvsize, 0) && Live(WriteFoot(h, p, v)) == Live(h)
    ensures p > 0 && p !in binned
  {
    hide HeapOk, Aligned, WriteFoot;
    WriteFootOk(h, p, v);
    SizeBound(h, p);
    assert p !in FreeChunks(h);
  }

  lemma WrittenInside(h: Heap, binned: map<int, nat>, dv: int, dvsize: nat, p: int, x: int, hd: Head, ft: nat)
    requires Matches(h, binned, dv, dvsize, 0) && p in Live(h) && p in h.head && p < x < p + h.head[p].size
    ensures Matches(WriteInside(h, x, hd, ft), binned, dv, dvsize, 0) && Live(WriteInside(h, x, hd, ft)) == Live(h)
    ensures x > 0 && x !in binned
  {
    hide HeapOk, Aligned, WriteInside;
    WriteInsideOk(h, p, x, hd, ft);
    SizeBound(h, p);
    assert x !in FreeChunks(h);
  }

  lemma WriteInsideIs(h: Heap, x: int, hd: Head, ft: nat)
    ensures WriteInside(h, x, hd, ft) == h.(head := h.head[x := hd], foot := h.foot[x := ft])
  {}

  lemma WriteFootIs(h: Heap, p: int, v: nat)
    requires p in h.head
    ensures WriteFoot(h, p, v) == h.(foot := h.foot[p + h.head[p].size := v])
  {}

  // ------------------------------ whole runs ------------------------------

  /** A client's call: a request, the return of a block, or a write into one. */
  datatype Call =
    | Request(bytes: nat, more: Morecore)
    | Return(mem: int)
    | Write(mem: int, at: int, head: Head, foot: nat, links: Links)

  /**
   * The chunks handed out and not returned, with the bytes asked for, are exactly the used chunks, and have the room.
   */
  ghost predicate Outstanding(asked: map<int, nat>, live: map<int, nat>)
  { (forall p :: p in asked <==> p in live) && forall p :: p in asked ==> asked[p] + 4 <= live[p] }

  /** The bytes asked for in two blocks do not meet. */
  ghost predicate Disjoint(p: int, pbytes: nat, q: int, qbytes: nat)
  { p + 8 + pbytes <= q + 8 || q + 8 + qbytes <= p + 8 }

  /** What the system gives: a client's morecore that breaks the promise of the system call is a failed one. */
  function Given(top: int, topsize: nat, more: Morecore): Morecore
  { if MoreOk(top, topsize, more) then more else Fail }

  /** One call, answered with mem, takes the allocator without its data structures from a to a'. */
  ghost predicate Follows(c: Call, a: Plain, mem: int, a': Plain)
  {
    match c
    case Request(bytes, more) => bytes < WORD ==> Allocates(a, bytes, Given(a.top, a.topsize, more), a', mem)
    case Return(m) => if m != 0 && m - 8 in a.live then Frees(a, m - 8, a') else a' == a
    case Write(_, _, _, _, _) => a' == a
  }

  /**
   * Any sequence of calls of a client that returns and writes only what it holds leaves its blocks disjoint, and
   * every answer and every state is the one the allocator without its data structures gives.
   */
  method Run(m: MallocState, calls: seq<Call>)
    returns (asked: map<int, nat>, answers: seq<int>, ghost states: seq<Plain>)
    requires m.Valid() && Live(m.View()) == map[]
    modifies m, m.bins
    ensures m.Valid() && Outstanding(asked, Live(m.View()))
    ensures forall p, q :: p in asked && q in asked && p != q ==> Disjoint(p, asked[p], q, asked[q])
    ensures |answers| == |calls| && |states| == |calls| + 1 && states[0] == old(m.Abs()) && states[|calls|] == m.Abs()
    ensures forall n :: 0 <= n < |calls| ==> Follows(calls[n], states[n], answers[n], states[n + 1])
  {
    hide HeapOk, Live, FreeChunks, Matches, Follows;
    asked, answers, states := map[], [], [m.Abs()];
    for n := 0 to |calls|
      invariant m.Valid() && Outstanding(asked, Live(m.View()))
      invariant |answers| == n && |states| == n + 1 && states[0] == old(m.Abs()) && states[n] == m.Abs()
      invariant forall i :: 0 <= i < n ==> Follows(calls[i], states[i], answers[i], states[i + 1])
    {
      var mem;
      asked, mem := Serve(m, calls[n], asked);
      answers, states := answers + [mem], states + [m.Abs()];
    }
    forall p, q | p in asked && q in asked && p != q ensures Disjoint(p, asked[p], q, asked[q]) { UsedApart(m, p, q); }
  }

  /** One call of a run. */
  method Serve(m: MallocState, c: Call, asked0: map<int, nat>) returns (asked: map<int, nat>, mem: int)
    requires m.Valid() && Outstanding(asked0, Live(m.View()))
    modifies m, m.bins
    ensures m.Valid() && Outstanding(asked, Live(m.View())) && Follows(c, old(m.Abs()), mem, m.Abs())
  {
    hide HeapOk, Live, FreeChunks, Matches, FitsBest, NoFit, RequestSize, Allocates, Frees;
    asked, mem := asked0, 0;
    match c {
      case Request(bytes, more) =>
        if bytes < WORD {
          EnoughRoom(bytes);
          mem := m.Malloc(bytes, Given(m.top, m.topsize, more));
          if mem != 0 {
            asked := asked[mem - 8 := bytes];
          }
        }
      case Return(r) =>
        if r != 0 && r - 8 in asked {
          m.Dlfree(r);
          asked := asked - {r - 8};
        }
      case Write(r, at, head, foot, links) =>
        if r - 8 in asked {
          LiveHead(m.View(), r - 8);
          if r - 8 <= at <= r - 8 + m.head[r - 8].size {
            m.ClientWrite(r, at, head, foot, links);
          }
        }
    }
  }

  lemma LiveHead(h: Heap, p: int)
    requires p in Live(h)
    ensures p in h.head && Live(h)[p] == h.head[p].size
  {}

  lemma EnoughRoom(bytes: nat)
    ensures bytes < MAX_REQUEST ==> bytes + 4 <= RequestSize(bytes)
  {
    PaddedIsLeast(bytes, 0);
  }

  lemma UsedApart(m: MallocState, p: int, q: int)
    requires m.Valid() && p in Live(m.View()) && q in Live(m.View()) && p != q
    ensures var live := Live(m.View()); p + live[p] <= q || q + live[q] <= p
  {
    At(m.View(), p, q);
  }
}
