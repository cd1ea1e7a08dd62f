/** The chunks between the base and the top of the heap, their head words and boundary tags. */
module Heap {
  import opened TreeIndex
  import opened Bins

  const MIN_CHUNK: nat := 16
  const TOP_FOOT: nat := 40

  /** chunks are the starts of the chunks below top; head and foot hold head words and prev_foot fields. */
  datatype Heap = Heap(chunks: set<int>, head: map<int, Head>, foot: map<int, nat>, base: int, top: int, topsize: nat)

  /** next_chunk */
  function Next(h: Heap, p: int): int
    requires p in h.head
  { p + h.head[p].size }

  predicate Aligned(x: int) { x % 8 == 0 }

  predicate SizeOk(s: nat) { MIN_CHUNK <= s && Aligned(s) }

  /** The boundary tags around chunk p agree, as check_inuse_chunk and check_free_chunk demand. */
  ghost predicate ChunkOk(h: Heap, p: int)
  {
    && p in h.head && h.base <= p && Aligned(p) && SizeOk(h.head[p].size)
    && var n := Next(h, p);
    && (n in h.chunks || n == h.top) && n <= h.top && n in h.head
    && h.head[n].pinuse == h.head[p].cinuse
    && (!h.head[p].cinuse ==> n in h.chunks && h.head[n].cinuse && n in h.foot && h.foot[n] == h.head[p].size)
    && (p == h.base ==> h.head[p].pinuse)
    && (!h.head[p].pinuse ==> PrevFree(h, p))
  }

  /** prev_chunk of p is a free chunk. */
  ghost predicate PrevFree(h: Heap, p: int)
  {
    && p in h.foot
    && var q := p - h.foot[p];
    && q in h.chunks && q in h.head && !h.head[q].cinuse && h.head[q].size == h.foot[p]
  }

  ghost predicate TopOk(h: Heap)
  {
    && h.top in h.head && h.head[h.top] == Head(h.topsize, true, false) && 0 < h.topsize && Aligned(h.topsize)
    && 0 < h.base <= h.top && Aligned(h.top) && h.top !in h.chunks && (h.base in h.chunks || h.base == h.top)
    && h.top + h.topsize + TOP_FOOT <= WORD
  }

  ghost predicate Before(h: Heap, p: int, q: int)
    requires p in h.head
  { p < q ==> Next(h, p) <= q }

  /** The chunks are disjoint, fill the space from base to top, and their tags agree. */
  ghost predicate HeapOk(h: Heap)
  {
    && TopOk(h)
    && (forall p {:trigger ChunkOk(h, p)} :: p in h.chunks ==> ChunkOk(h, p))
    && (forall p, q {:trigger Before(h, p, q)} :: p in h.chunks && q in h.chunks && p in h.head ==> Before(h, p, q))
  }

  ghost predicate Used(h: Heap, p: int) { p in h.chunks && p in h.head && h.head[p].cinuse }

  ghost predicate Free(h: Heap, p: int) { p in h.chunks && p in h.head && !h.head[p].cinuse }

  ghost function LiveSize(h: Heap, p: int): nat { if Used(h, p) then h.head[p].size else 0 }

  ghost function FreeSize(h: Heap, p: int): nat { if Free(h, p) then h.head[p].size else 0 }

  /** The used and the free chunks, with their sizes. */
  ghost function Live(h: Heap): map<int, nat> { map p | p in h.chunks && Used(h, p) :: LiveSize(h, p) }

  ghost function FreeChunks(h: Heap): map<int, nat> { map p | p in h.chunks && Free(h, p) :: FreeSize(h, p) }

  /** What the tags say around chunk p, and that q is disjoint from it. */
  lemma At(h: Heap, p: int, q: int)
    requires HeapOk(h) && p in h.chunks && q in h.chunks
    ensures TopOk(h) && ChunkOk(h, p) && ChunkOk(h, q) && Before(h, p, q) && Before(h, q, p)
  {
    assert ChunkOk(h, p) && ChunkOk(h, q);
    assert Before(h, p, q) && Before(h, q, p);
  }

  /** A free chunk becomes used: set_inuse_and_pinuse. */
  ghost function Take(h: Heap, p: int): Heap
    requires p in h.head && Next(h, p) in h.head
  {
    var n := Next(h, p);
    h.(head := h.head[p := h.head[p].(cinuse := true)][n := h.head[n].(pinuse := true)])
  }

  lemma TakeChunk(h: Heap, p: int, q: int)
    requires HeapOk(h) && Free(h, p) && q in h.chunks && Next(h, p) in h.head
    ensures ChunkOk(Take(h, p), q) && q in h.head
  {
    hide HeapOk, Aligned;
    At(h, p, q);
    At(h, Next(h, p), q);
  }

  lemma TakeOk(h: Heap, p: int)
    requires HeapOk(h) && Free(h, p)
    ensures p in h.head && Next(h, p) in h.head && HeapOk(Take(h, p))
    ensures Live(Take(h, p)) == Live(h)[p := h.head[p].size] && FreeChunks(Take(h, p)) == FreeChunks(h) - {p}
  {
    hide ChunkOk, Aligned;
    Neighbour(h, p);
    var h' := Take(h, p);
    forall q | q in h'.chunks ensures ChunkOk(h', q) && q in h.head { TakeChunk(h, p, q); }
    forall q, r | q in h'.chunks && r in h'.chunks && q in h'.head ensures Before(h', q, r) { assert Before(h, q, r); }
  }

  lemma Neighbour(h: Heap, p: int)
    requires HeapOk(h) && p in h.chunks
    ensures p in h.head && Next(h, p) in h.head && p < Next(h, p) <= h.top
    ensures !h.head[p].cinuse ==> Next(h, p) in h.chunks && h.head[Next(h, p)].cinuse
  {
    At(h, p, p);
  }

  lemma AlignedSums(x: int, y: int)
    requires Aligned(x) && Aligned(y)
    ensures Aligned(x + y) && Aligned(x - y)
  {}

  /** A used chunk between used neighbours becomes free: set_free_with_pinuse. */
  ghost function Release(h: Heap, p: int): Heap
    requires p in h.head && Next(h, p) in h.head
  {
    var n := Next(h, p);
    h.(head := h.head[p := h.head[p].(cinuse := false)][n := h.head[n].(pinuse := false)],
       foot := h.foot[n := h.head[p].size])
  }

  lemma ReleaseChunk(h: Heap, p: int, q: int)
    requires HeapOk(h) && Used(h, p) && h.head[p].pinuse && Used(h, Next(h, p)) && q in h.chunks
    ensures ChunkOk(Release(h, p), q) && q in h.head
  {
    hide HeapOk, Aligned;
    At(h, p, q);
    At(h, Next(h, p), q);
    if !h.head[q].pinuse { At(h, q - h.foot[q], p); }
  }

  lemma ReleaseOk(h: Heap, p: int)
    requires HeapOk(h) && Used(h, p) && h.head[p].pinuse && Used(h, Next(h, p))
    ensures HeapOk(Release(h, p))
    ensures Live(Release(h, p)) == Live(h) - {p} && FreeChunks(Release(h, p)) == FreeChunks(h)[p := h.head[p].size]
  {
    hide ChunkOk, Aligned;
    Neighbour(h, p);
    var h' := Release(h, p);
    forall q | q in h'.chunks ensures ChunkOk(h', q) && q in h.head { ReleaseChunk(h, p, q); }
    forall q, r | q in h'.chunks && r in h'.chunks && q in h'.head ensures Before(h', q, r) { assert Before(h, q, r); }
  }

  /** A used chunk takes over the free chunk before it. */
  ghost function Absorb(h: Heap, p: int): Heap
    requires p in h.head && p in h.foot && p - h.foot[p] in h.head
  {
    var q := p - h.foot[p];
    h.(chunks := h.chunks - {p}, head := h.head[q := Head(h.head[q].size + h.head[p].size, h.head[q].pinuse, true)])
  }

  lemma AbsorbChunk(h: Heap, p: int, r: int)
    requires HeapOk(h) && Used(h, p) && !h.head[p].pinuse && PrevFree(h, p) && r in h.chunks
    ensures r in h.head && (r != p ==> ChunkOk(Absorb(h, p), r))
  {
    hide HeapOk, Aligned;
    var q := p - h.foot[p];
    At(h, p, r);
    At(h, p, q);
    At(h, q, r);
    AlignedSums(h.head[q].size, h.head[p].size);
    if !h.head[r].pinuse { At(h, r - h.foot[r], p); }
  }

  lemma AbsorbOk(h: Heap, p: int)
    requires HeapOk(h) && Used(h, p) && !h.head[p].pinuse
    ensures PrevFree(h, p) && Free(h, p - h.foot[p]) && h.head[p - h.foot[p]].pinuse
    ensures HeapOk(Absorb(h, p)) && Next(Absorb(h, p), p - h.foot[p]) == Next(h, p)
    ensures var q := p - h.foot[p];
            && Live(Absorb(h, p)) == (Live(h) - {p})[q := h.head[q].size + h.head[p].size]
            && FreeChunks(Absorb(h, p)) == FreeChunks(h) - {q}
  {
    hide ChunkOk, Aligned;
    PrevOf(h, p);
    var q, h' := p - h.foot[p], Absorb(h, p);
    forall r | r in h.chunks ensures r in h.head && (r != p ==> ChunkOk(h', r)) { AbsorbChunk(h, p, r); }
    forall r, x | r in h'.chunks && x in h'.chunks && r in h'.head ensures Before(h', r, x) {
      assert Before(h, r, x) && Before(h, p, x);
    }
    AbsorbTop(h, p);
  }

  lemma PrevOf(h: Heap, p: int)
    requires HeapOk(h) && p in h.chunks && p in h.head && !h.head[p].pinuse
    ensures PrevFree(h, p) && h.head[p - h.foot[p]].pinuse
  {
    At(h, p, p);
    var q := p - h.foot[p];
    At(h, q, p);
    if !h.head[q].pinuse { At(h, q - h.foot[q], q); }
  }

  lemma AbsorbTop(h: Heap, p: int)
    requires HeapOk(h) && Used(h, p) && !h.head[p].pinuse && PrevFree(h, p)
    ensures TopOk(Absorb(h, p))
  {
    At(h, p, p - h.foot[p]);
  }

  /** A used chunk takes over the free chunk after it. */
  ghost function Extend(h: Heap, p: int): Heap
    requires p in h.head && Next(h, p) in h.head && Next(h, Next(h, p)) in h.head
  {
    var n := Next(h, p);
    var m := Next(h, n);
    h.(chunks := h.chunks - {n},
       head := h.head[p := h.head[p].(size := h.head[p].size + h.head[n].size)][m := h.head[m].(pinuse := true)])
  }

  lemma ExtendChunk(h: Heap, p: int, r: int)
    requires HeapOk(h) && Used(h, p) && Free(h, Next(h, p)) && Next(h, Next(h, p)) in h.head && r in h.chunks
    ensures r in h.head && (r != Next(h, p) ==> ChunkOk(Extend(h, p), r))
  {
    hide HeapOk, Aligned;
    var n := Next(h, p);
    At(h, p, r);
    At(h, n, p);
    At(h, Next(h, n), r);
    At(h, n, r);
    AlignedSums(h.head[n].size, h.head[p].size);
    if !h.head[r].pinuse { At(h, r - h.foot[r], n); }
  }

  lemma ExtendOk(h: Heap, p: int)
    requires HeapOk(h) && Used(h, p) && Free(h, Next(h, p))
    ensures Next(h, Next(h, p)) in h.head && HeapOk(Extend(h, p)) && Used(Extend(h, p), Next(h, Next(h, p)))
    ensures Next(Extend(h, p), p) == Next(h, Next(h, p))
    ensures var n := Next(h, p);
            && Live(Extend(h, p)) == Live(h)[p := h.head[p].size + h.head[n].size]
            && FreeChunks(Extend(h, p)) == FreeChunks(h) - {n}
  {
    hide ChunkOk, Aligned;
    var n := Next(h, p);
    Neighbour(h, p);
    Neighbour(h, n);
    var h' := Extend(h, p);
    forall r | r in h.chunks ensures r in h.head && (r != n ==> ChunkOk(h', r)) { ExtendChunk(h, p, r); }
    forall r, x | r in h'.chunks && x in h'.chunks && r in h'.head ensures Before(h', r, x) {
      assert Before(h, r, x) && Before(h, n, x);
    }
    ExtendTop(h, p);
  }

  lemma ExtendTop(h: Heap, p: int)
    requires HeapOk(h) && Used(h, p) && Free(h, Next(h, p)) && Next(h, Next(h, p)) in h.head
    ensures TopOk(Extend(h, p))
  {
    hide Aligned;
    At(h, p, Next(h, p));
  }

  /** A used chunk is cut into two used chunks. */
  ghost function Split(h: Heap, p: int, nb: nat): Heap
    requires p in h.head && nb <= h.head[p].size
  {
    h.(chunks := h.chunks + {p + nb},
       head := h.head[p := h.head[p].(size := nb)][p + nb := Head(h.head[p].size - nb, true, true)])
  }

  lemma SplitChunk(h: Heap, p: int, nb: nat, r: int)
    requires HeapOk(h) && Used(h, p) && SizeOk(nb) && nb + MIN_CHUNK <= h.head[p].size && r in h.chunks
    ensures r in h.head && ChunkOk(Split(h, p, nb), r) && p + nb !in h.chunks && p + nb != h.top
  {
    hide HeapOk, Aligned;
    At(h, p, r);
    if p + nb in h.chunks { At(h, p, p + nb); }
    if !h.head[r].pinuse { At(h, r - h.foot[r], p); }
  }

  lemma SplitPiece(h: Heap, p: int, nb: nat)
    requires HeapOk(h) && Used(h, p) && SizeOk(nb) && nb + MIN_CHUNK <= h.head[p].size
    ensures ChunkOk(Split(h, p, nb), p + nb)
  {
    hide HeapOk, Aligned;
    At(h, p, p);
    AlignedSums(p, nb);
    AlignedSums(h.head[p].size, nb);
  }

  lemma SplitOk(h: Heap, p: int, nb: nat)
    requires HeapOk(h) && Used(h, p) && SizeOk(nb) && nb + MIN_CHUNK <= h.head[p].size
    ensures HeapOk(Split(h, p, nb)) && p + nb !in h.chunks
    ensures Live(Split(h, p, nb)) == Live(h)[p := nb][p + nb := h.head[p].size - nb]
    ensures FreeChunks(Split(h, p, nb)) == FreeChunks(h)
  {
    hide ChunkOk, Aligned;
    var h' := Split(h, p, nb);
    forall r | r in h.chunks ensures r in h.head && ChunkOk(h', r) { SplitChunk(h, p, nb, r); }
    SplitChunk(h, p, nb, p);
    SplitPiece(h, p, nb);
    forall r, x | r in h'.chunks && x in h'.chunks && r in h'.head ensures Before(h', r, x) {
      assert r in h.chunks && x in h.chunks ==> Before(h, r, x);
      assert r in h.chunks ==> Before(h, r, p) && Before(h, p, r);
      assert x in h.chunks ==> Before(h, p, x);
    }
  }

  /** The lower part of top becomes a used chunk. */
  ghost function TakeTop(h: Heap, nb: nat): Heap
    requires nb <= h.topsize
  {
    h.(chunks := h.chunks + {h.top}, top := h.top + nb, topsize := h.topsize - nb,
       head := h.head[h.top + nb := Head(h.topsize - nb, true, false)][h.top := Head(nb, true, true)])
  }

  lemma TakeTopChunk(h: Heap, nb: nat, r: int)
    requires HeapOk(h) && SizeOk(nb) && nb < h.topsize && r in h.chunks
    ensures r in h.head && ChunkOk(TakeTop(h, nb), r) && r < Next(h, r) <= h.top
  {
    hide HeapOk, Aligned;
    At(h, r, r);
    if !h.head[r].pinuse { At(h, r - h.foot[r], r); }
  }

  lemma TakeTopOk(h: Heap, nb: nat)
    requires HeapOk(h) && SizeOk(nb) && nb < h.topsize
    ensures HeapOk(TakeTop(h, nb)) && h.top !in h.chunks
    ensures Live(TakeTop(h, nb)) == Live(h)[h.top := nb] && FreeChunks(TakeTop(h, nb)) == FreeChunks(h)
  {
    hide ChunkOk, Aligned;
    var h' := TakeTop(h, nb);
    forall r | r in h.chunks ensures r in h.head && ChunkOk(h', r) && Next(h, r) <= h.top && r < h.top {
      TakeTopChunk(h, nb, r);
    }
    TakeTopPiece(h, nb);
    forall r, x | r in h'.chunks && x in h'.chunks && r in h'.head ensures Before(h', r, x) {
      assert r in h.chunks && x in h.chunks ==> Before(h, r, x);
    }
  }

  lemma TakeTopPiece(h: Heap, nb: nat)
    requires HeapOk(h) && SizeOk(nb) && nb < h.topsize
    ensures ChunkOk(TakeTop(h, nb), h.top) && TopOk(TakeTop(h, nb))
  {
    hide Aligned;
    AlignedSums(h.top, nb);
    AlignedSums(h.topsize, nb);
    if h.top + nb in h.chunks { At(h, h.top + nb, h.top + nb); }
  }

  /** The last chunk is merged into top. */
  ghost function GiveTop(h: Heap, p: int): Heap
    requires p in h.head
  {
    var size := h.topsize + h.head[p].size;
    h.(chunks := h.chunks - {p}, top := p, topsize := size, head := h.head[p := Head(size, true, false)])
  }

  lemma GiveTopChunk(h: Heap, p: int, r: int)
    requires HeapOk(h) && Used(h, p) && h.head[p].pinuse && Next(h, p) == h.top && r in h.chunks
    ensures r in h.head && (r != p ==> ChunkOk(GiveTop(h, p), r))
  {
    hide HeapOk, Aligned;
    At(h, p, r);
    if !h.head[r].pinuse { At(h, r - h.foot[r], p); }
  }

  lemma GiveTopOk(h: Heap, p: int)
    requires HeapOk(h) && Used(h, p) && h.head[p].pinuse && Next(h, p) == h.top
    ensures HeapOk(GiveTop(h, p))
    ensures Live(GiveTop(h, p)) == Live(h) - {p} && FreeChunks(GiveTop(h, p)) == FreeChunks(h)
  {
    hide ChunkOk, Aligned;
    var h' := GiveTop(h, p);
    forall r | r in h.chunks ensures r in h.head && (r != p ==> ChunkOk(h', r)) { GiveTopChunk(h, p, r); }
    GiveTopTop(h, p);
    forall r, x | r in h'.chunks && x in h'.chunks && r in h'.head ensures Before(h', r, x) { assert Before(h, r, x); }
  }

  lemma GiveTopTop(h: Heap, p: int)
    requires HeapOk(h) && Used(h, p) && Next(h, p) == h.top
    ensures TopOk(GiveTop(h, p))
  {
    hide Aligned;
    At(h, p, p);
    AlignedSums(h.topsize, h.head[p].size);
    if h.base in h.chunks { At(h, p, h.base); }
  }

  /** More memory behind top: init_top on an extended segment. */
  ghost function GrowTop(h: Heap, size: nat): Heap
  { h.(topsize := h.topsize + size, head := h.head[h.top := Head(h.topsize + size, true, false)]) }

  lemma GrowTopOk(h: Heap, size: nat)
    requires HeapOk(h) && Aligned(size) && h.top + h.topsize + size + TOP_FOOT <= WORD
    ensures HeapOk(GrowTop(h, size)) && Live(GrowTop(h, size)) == Live(h)
    ensures FreeChunks(GrowTop(h, size)) == FreeChunks(h)
  {
    hide ChunkOk, Aligned;
    AlignedSums(h.topsize, size);
    var h' := GrowTop(h, size);
    forall r | r in h.chunks ensures r in h.head && r != h.top && ChunkOk(h', r) { GrowTopChunk(h, size, r); }
    forall r, x | r in h'.chunks && x in h'.chunks && r in h'.head ensures Before(h', r, x) { assert Before(h, r, x); }
  }

  lemma GrowTopChunk(h: Heap, size: nat, r: int)
    requires HeapOk(h) && r in h.chunks
    ensures r in h.head && r != h.top && ChunkOk(GrowTop(h, size), r)
  {
    hide HeapOk, Aligned;
    At(h, r, r);
    if !h.head[r].pinuse { At(h, r - h.foot[r], r); }
  }

  /** Client data in the prev_foot field behind a used chunk. */
  ghost function WriteFoot(h: Heap, p: int, v: nat): Heap
    requires p in h.head
  { h.(foot := h.foot[Next(h, p) := v]) }

  lemma WriteFootOk(h: Heap, p: int, v: nat)
    requires HeapOk(h) && Used(h, p)
    ensures HeapOk(WriteFoot(h, p, v)) && Live(WriteFoot(h, p, v)) == Live(h)
    ensures FreeChunks(WriteFoot(h, p, v)) == FreeChunks(h)
  {
    hide ChunkOk, Aligned;
    var h' := WriteFoot(h, p, v);
    forall r | r in h.chunks ensures r in h.head && ChunkOk(h', r) { WriteFootChunk(h, p, v, r); }
    forall r, x | r in h'.chunks && x in h'.chunks && r in h'.head ensures Before(h', r, x) { assert Before(h, r, x); }
  }

  lemma WriteFootChunk(h: Heap, p: int, v: nat, r: int)
    requires HeapOk(h) && Used(h, p) && r in h.chunks
    ensures r in h.head && ChunkOk(WriteFoot(h, p, v), r)
  {
    hide HeapOk, Aligned;
    At(h, r, p);
    if !h.head[r].pinuse { At(h, r - h.foot[r], p); }
  }

  /** Client data inside a used chunk, where a head word and a prev_foot field would be if a chunk began at x. */
  ghost function WriteInside(h: Heap, x: int, hd: Head, ft: nat): Heap
  { h.(head := h.head[x := hd], foot := h.foot[x := ft]) }

  lemma WriteInsideOk(h: Heap, p: int, x: int, hd: Head, ft: nat)
    requires HeapOk(h) && Used(h, p) && p < x < Next(h, p)
    ensures x !in h.chunks && HeapOk(WriteInside(h, x, hd, ft))
    ensures Live(WriteInside(h, x, hd, ft)) == Live(h) && FreeChunks(WriteInside(h, x, hd, ft)) == FreeChunks(h)
  {
    hide ChunkOk, Aligned;
    InsideNoChunk(h, p, x);
    var h' := WriteInside(h, x, hd, ft);
    forall r | r in h.chunks ensures r in h.head && ChunkOk(h', r) { WriteInsideChunk(h, p, x, hd, ft, r); }
    forall r, y | r in h'.chunks && y in h'.chunks && r in h'.head ensures Before(h', r, y) { assert Before(h, r, y); }
  }

  lemma InsideNoChunk(h: Heap, p: int, x: int)
    requires HeapOk(h) && Used(h, p) && p < x < Next(h, p)
    ensures x !in h.chunks && x != h.top
  {
    hide HeapOk, Aligned;
    At(h, p, p);
    if x in h.chunks { At(h, p, x); }
  }

  lemma WriteInsideChunk(h: Heap, p: int, x: int, hd: Head, ft: nat, r: int)
    requires HeapOk(h) && Used(h, p) && p < x < Next(h, p) && r in h.chunks
    ensures r in h.head && ChunkOk(WriteInside(h, x, hd, ft), r)
  {
    hide HeapOk, Aligned;
    InsideNoChunk(h, p, x);
    At(h, r, p);
    if !h.head[r].pinuse { At(h, r - h.foot[r], p); }
  }

  /** A free chunk is cut: the first nb bytes become used, the rest stays free. */
  ghost function Cut(h: Heap, p: int, nb: nat): Heap
    requires HeapOk(h) && Free(h, p) && SizeOk(nb) && nb + MIN_CHUNK <= h.head[p].size
  {
    CutSteps(h, p, nb);
    Release(Split(Take(h, p), p, nb), p + nb)
  }

  lemma CutSteps(h: Heap, p: int, nb: nat)
    requires HeapOk(h) && Free(h, p) && SizeOk(nb) && nb + MIN_CHUNK <= h.head[p].size
    ensures Next(h, p) in h.head && HeapOk(Take(h, p)) && Used(Take(h, p), p)
    ensures Take(h, p).head[p].size == h.head[p].size
    ensures var h2 := Split(Take(h, p), p, nb);
        HeapOk(h2) && Used(h2, p + nb) && h2.head[p + nb].pinuse && Used(h2, Next(h2, p + nb))
    ensures p + nb !in h.chunks && Next(h, p) == p + h.head[p].size
  {
    hide HeapOk, ChunkOk, Aligned;
    Neighbour(h, p);
    TakeOk(h, p);
    SplitOk(Take(h, p), p, nb);
  }

  lemma CutOk(h: Heap, p: int, nb: nat)
    requires HeapOk(h) && Free(h, p) && SizeOk(nb) && nb + MIN_CHUNK <= h.head[p].size
    ensures HeapOk(Cut(h, p, nb)) && p + nb !in h.chunks
    ensures Live(Cut(h, p, nb)) == Live(h)[p := nb]
    ensures FreeChunks(Cut(h, p, nb)) == (FreeChunks(h) - {p})[p + nb := h.head[p].size - nb]
  {
    hide HeapOk, ChunkOk, Aligned;
    CutSteps(h, p, nb);
    TakeOk(h, p);
    SplitOk(Take(h, p), p, nb);
    ReleaseOk(Split(Take(h, p), p, nb), p + nb);
    assert p + nb !in Live(h);
  }

  /** The stores that cut a chunk: set_size_and_pinuse_of_inuse_chunk and set_size_and_pinuse_of_free_chunk. */
  lemma CutStores(h: Heap, p: int, nb: nat)
    requires HeapOk(h) && Free(h, p) && SizeOk(nb) && nb + MIN_CHUNK <= h.head[p].size
    ensures var rsize := h.head[p].size - nb;
            Cut(h, p, nb) == h.(chunks := h.chunks + {p + nb},
                                head := h.head[p := Head(nb, true, true)][p + nb := Head(rsize, true, false)],
                                foot := h.foot[p + nb + rsize := rsize])
  {
    hide HeapOk, Aligned;
    CutSteps(h, p, nb);
    FreeTags(h, p);
  }

  /** Around a free chunk both neighbours are used. */
  lemma FreeTags(h: Heap, p: int)
    requires HeapOk(h) && Free(h, p)
    ensures h.head[p].pinuse && Next(h, p) in h.chunks && Next(h, p) in h.head && !h.head[Next(h, p)].pinuse
    ensures h.head[Next(h, p)].cinuse
  {
    At(h, p, p);
    if !h.head[p].pinuse { PrevOf(h, p); At(h, p - h.foot[p], p); }
  }

  /** Every chunk is a proper part of the 32-bit address space. */
  lemma SizeBound(h: Heap, p: int)
    requires HeapOk(h) && p in h.chunks
    ensures p in h.head && p > 0 && ChunkSize(h.head[p].size) && h.head[p].size + TOP_FOOT < WORD
  {
    At(h, p, p);
  }

  /** Used chunks share no client byte: the bytes of p run from p + 8 up to the head word of the next chunk. */
  lemma NoOverlap(h: Heap, p: int, q: int, a: int)
    requires HeapOk(h) && p in Live(h) && q in Live(h) && p != q
    requires p + 8 <= a < p + Live(h)[p] + 4
    ensures !(q + 8 <= a < q + Live(h)[q] + 4) && h.base + 8 <= a < h.top + 4
  {
    hide Aligned;
    At(h, p, q);
  }

  /** The chunks fill the segment: every address below top is in a chunk. */
  lemma {:induction false} NoGap(h: Heap, a: int, p: int) returns (q: int)
    requires HeapOk(h) && p in h.chunks && p <= a < h.top
    ensures q in h.chunks && q in h.head && q <= a < Next(h, q)
    decreases h.top - p
  {
    Neighbour(h, p);
    if a < Next(h, p) {
      q := p;
    } else {
      ChunkBehind(h, p);
      q := NoGap(h, a, Next(h, p));
    }
  }

  lemma ChunkBehind(h: Heap, p: int)
    requires HeapOk(h) && p in h.chunks && p in h.head && Next(h, p) < h.top
    ensures Next(h, p) in h.chunks
  {
    At(h, p, p);
  }

  /** The chunks from p on, in address order. */
  ghost function Run(h: Heap, p: int): (r: seq<int>)
    decreases h.top - p
  { if p in h.chunks && p in h.head && p < Next(h, p) <= h.top then [p] + Run(h, Next(h, p)) else [] }

  ghost function Total(h: Heap, ps: seq<int>): int
  { if ps == [] then 0 else (if ps[0] in h.head then h.head[ps[0]].size else 0) + Total(h, ps[1..]) }

  /** No byte is lost: the chunks from p on add up to the distance to top. */
  lemma {:induction false} SizesAddUp(h: Heap, p: int)
    requires HeapOk(h) && (p in h.chunks || p == h.top)
    ensures Total(h, Run(h, p)) == h.top - p
    decreases h.top - p
  {
    if p in h.chunks {
      Neighbour(h, p);
      At(h, p, p);
      SizesAddUp(h, Next(h, p));
      assert Run(h, p)[1..] == Run(h, Next(h, p));
    }
  }

  /** Free chunks are fully coalesced: no two are neighbours, and none borders top. */
  lemma Coalesced(h: Heap, p: int)
    requires HeapOk(h) && p in FreeChunks(h)
    ensures Next(h, p) in Live(h) && Next(h, p) != h.top && h.head[p].pinuse
    ensures forall q :: q in FreeChunks(h) ==> Next(h, q) != p
  {
    FreeTags(h, p);
    forall q | q in FreeChunks(h) ensures Next(h, q) != p { FreeTags(h, q); }
  }
}
