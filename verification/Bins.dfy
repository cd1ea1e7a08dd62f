/** The bins of malloc_state: 32 lists of small free chunks and 32 tries of large ones, with their bit maps. */
module Bins {
  import opened TreeIndex
  import opened Trie
  import opened TreeBin
  import opened BinMap
  import opened BestFit

  const NBINS: nat := 32

  /** The head word of a chunk: its size and the two in-use bits. */
  datatype Head = Head(size: nat, pinuse: bool, cinuse: bool)

  predicate IsSmall(s: nat) { s / 8 < NBINS }

  /** smallbin_at(M,i), whose fd and bk fields make it the header of a circular list */
  function SmallBinAt(i: nat): int { -1 - i }

  /** treebin_at(M,i), the parent of the root of a tree bin */
  function TreeBinAt(i: nat): int { -100 - i }

  /** The sizes a free chunk can have. */
  predicate ChunkSize(s: nat) { 16 <= s < WORD && s % 8 == 0 }

  ghost predicate SmallBinOk(i: nat, list: seq<int>, marked: bool, m: Mem, sz: map<int, nat>)
  {
    && (marked <==> list != [])
    && NoDup(list) && SmallBinAt(i) in m
    && (forall k :: 0 <= k < |list| ==> list[k] > 0 && list[k] in sz && sz[list[k]] == 8 * i)
    && (marked ==> Ring([SmallBinAt(i)] + list, m))
  }

  ghost predicate TreeBinOk(i: nat, t: Trie, slot: int, marked: bool, m: Mem, sz: map<int, nat>)
    requires i < NBINS
  {
    && Ordered(t, RangeLow(i), ResolvedBits(i), sz) && Rep(t, TreeBinAt(i), i, m)
    && slot == Root(t) && (marked <==> t.Node?)
    && SizesInBin(Addrs(t), i, sz)
  }

  lemma SmallBinFrame(i: nat, list: seq<int>, marked: bool, m: Mem, sz: map<int, nat>, a: set<int>, m': Mem,
                      sz': map<int, nat>)
    requires SmallBinOk(i, list, marked, m, sz) && OnlyAt(a, m, m') && SmallBinAt(i) !in a
    requires forall p :: p in list ==> p !in a && p in sz' && sz'[p] == sz[p]
    ensures SmallBinOk(i, list, marked, m', sz')
  {
    forall k | 0 <= k < |list| ensures list[k] in sz' && sz'[list[k]] == 8 * i {
      var p := list[k];
      assert p in list;
    }
    if marked {
      var c := [SmallBinAt(i)] + list;
      forall x, y | Follows(x, y, |c|) ensures Linked(m', c[x], c[y]) {
        assert Linked(m, c[x], c[y]);
        var p, q := c[x], c[y];
        assert p in c && q in c;
        assert p == SmallBinAt(i) || p in list;
        assert q == SmallBinAt(i) || q in list;
      }
    }
  }

  lemma TreeBinFrame(i: nat, t: Trie, slot: int, marked: bool, m: Mem, sz: map<int, nat>, a: set<int>, m': Mem,
                     sz': map<int, nat>)
    requires i < NBINS && TreeBinOk(i, t, slot, marked, m, sz) && OnlyAt(a, m, m')
    requires forall p :: p in Addrs(t) ==> p !in a && p in sz' && sz'[p] == sz[p]
    ensures TreeBinOk(i, t, slot, marked, m', sz')
  {
    OrderedFrame(t, RangeLow(i), ResolvedBits(i), sz, sz');
    RepFrame(t, TreeBinAt(i), i, m, m');
  }

  ghost predicate SmallsOk(smalls: seq<seq<int>>, map_: bv32, m: Mem, sz: map<int, nat>)
  { |smalls| == NBINS && forall i :: 0 <= i < NBINS ==> SmallBinOk(i, smalls[i], Marked(map_, i), m, sz) }

  ghost predicate TreesOk(tries: seq<Trie>, slots: seq<int>, map_: bv32, m: Mem, sz: map<int, nat>)
  {
    && |tries| == NBINS && |slots| == NBINS
    && forall i :: 0 <= i < NBINS ==> TreeBinOk(i, tries[i], slots[i], Marked(map_, i), m, sz)
  }

  /** A binned chunk is in exactly the bin its size selects. */
  ghost predicate InItsBin(p: int, s: nat, smalls: seq<seq<int>>, tries: seq<Trie>)
    requires |smalls| == NBINS && |tries| == NBINS && s < WORD
  {
    if IsSmall(s) then p in smalls[s / 8]
    else forall i :: 0 <= i < NBINS && InBin(s, i) ==> p in Addrs(tries[i])
  }

  ghost predicate Covered(smalls: seq<seq<int>>, tries: seq<Trie>, sz: map<int, nat>)
    requires |smalls| == NBINS && |tries| == NBINS
  { forall p :: p in sz ==> p > 0 && ChunkSize(sz[p]) && InItsBin(p, sz[p], smalls, tries) }

  /** A change confined to chunks of tree bin i leaves the other tree bins and all small bins as they were. */
  lemma TreeChangeFrame(smalls: seq<seq<int>>, smallmap: bv32, tries: seq<Trie>, slots: seq<int>, treemap: bv32, m: Mem,
                        sz: map<int, nat>, i: nat, a: set<int>, m': Mem, sz': map<int, nat>)
    requires i < NBINS && SmallsOk(smalls, smallmap, m, sz) && TreesOk(tries, slots, treemap, m, sz) && OnlyAt(a, m, m')
    requires forall p :: p in a ==> p > 0 || p == TreeBinAt(i)
    requires forall p :: p in a && p in sz ==> LargeIn(sz[p], i)
    requires forall p :: p in sz && p !in a ==> p in sz' && sz'[p] == sz[p]
    ensures SmallsOk(smalls, smallmap, m', sz')
    ensures forall j :: 0 <= j < NBINS && j != i ==> TreeBinOk(j, tries[j], slots[j], Marked(treemap, j), m', sz')
  {
    forall j | 0 <= j < NBINS ensures SmallBinOk(j, smalls[j], Marked(smallmap, j), m', sz') {
      var list := smalls[j];
      forall p | p in list ensures p !in a && p in sz' && sz'[p] == sz[p] {
        assert sz[p] == 8 * j;
      }
      SmallBinFrame(j, list, Marked(smallmap, j), m, sz, a, m', sz');
    }
    forall j | 0 <= j < NBINS && j != i ensures TreeBinOk(j, tries[j], slots[j], Marked(treemap, j), m', sz') {
      forall p | p in Addrs(tries[j]) ensures p !in a {
        if p in a { InBinUnique(sz[p], i, j); }
      }
      TreeBinFrame(j, tries[j], slots[j], Marked(treemap, j), m, sz, a, m', sz');
    }
  }

  /** A change confined to chunks of small bin i leaves the other small bins and all tree bins as they were. */
  lemma SmallChangeFrame(smalls: seq<seq<int>>, smallmap: bv32, tries: seq<Trie>, slots: seq<int>, treemap: bv32,
                         m: Mem, sz: map<int, nat>, i: nat, a: set<int>, m': Mem, sz': map<int, nat>)
    requires i < NBINS && SmallsOk(smalls, smallmap, m, sz) && TreesOk(tries, slots, treemap, m, sz) && OnlyAt(a, m, m')
    requires forall p :: p in a ==> p > 0 || p == SmallBinAt(i)
    requires forall p :: p in a && p in sz ==> sz[p] == 8 * i
    requires forall p :: p in sz && p !in a ==> p in sz' && sz'[p] == sz[p]
    ensures TreesOk(tries, slots, treemap, m', sz')
    ensures forall j :: 0 <= j < NBINS && j != i ==> SmallBinOk(j, smalls[j], Marked(smallmap, j), m', sz')
  {
    forall j | 0 <= j < NBINS && j != i ensures SmallBinOk(j, smalls[j], Marked(smallmap, j), m', sz') {
      var list := smalls[j];
      forall p | p in list ensures p !in a && p in sz' && sz'[p] == sz[p] {
        assert sz[p] == 8 * j;
      }
      SmallBinFrame(j, list, Marked(smallmap, j), m, sz, a, m', sz');
    }
    forall j | 0 <= j < NBINS ensures TreeBinOk(j, tries[j], slots[j], Marked(treemap, j), m', sz') {
      OrderedFacts(tries[j], RangeLow(j), ResolvedBits(j), sz);
      TreeBinFrame(j, tries[j], slots[j], Marked(treemap, j), m, sz, a, m', sz');
    }
  }

  /** All chunks of a tree bin have sizes of that bin. */
  ghost predicate SizesInBin(a: set<int>, i: nat, sz: map<int, nat>)
    requires i < NBINS
  { forall p :: p in a ==> p in sz && LargeIn(sz[p], i) }

  predicate LargeIn(s: nat, i: nat)
    requires i < NBINS
  { MIN_LARGE_SIZE <= s < WORD && InBin(s, i) }

  lemma InsertTreeBinOrdered(i: nat, t: Trie, sz: map<int, nat>, x: int, s: nat, lo: nat, bits: nat) returns (t': Trie)
    requires i < NBINS && Ordered(t, lo, bits, sz) && SizesInBin(Addrs(t), i, sz) && x > 0 && x !in sz
    requires lo <= s < lo + Pow2(bits) && LargeIn(s, i)
    ensures Ordered(t', lo, bits, sz[x := s]) && SizesInBin(Addrs(t'), i, sz[x := s]) && Addrs(t') == Addrs(t) + {x}
    ensures t' == Insert(t, x, s, lo, bits)
  {
    t' := Insert(t, x, s, lo, bits);
    NewChunk(t, lo, bits, sz, x, s);
    InsertOrdered(t, lo, bits, sz[x := s], x, s);
    InsertAddrs(t, lo, bits, sz[x := s], x, s);
  }

  lemma InsertTreeBinRep(t: Trie, par: int, idx: nat, m: Mem, x: int, s: nat, lo: nat, bits: nat, sz: map<int, nat>)
    requires t.Node? && Ordered(t, lo, bits, sz) && Rep(t, par, idx, m)
    requires lo <= s < lo + Pow2(bits) && x !in Addrs(t)
    requires var sp := FindSpot(t, s, lo, bits); sp.node in m && m[sp.node].fd in m
    ensures OnlyAt(Addrs(t) + {x}, m, LinkAt(m, FindSpot(t, s, lo, bits), x, idx))
  {
    SpotInTree(t, s, lo, bits, par, idx, m);
  }

  /** A new chunk linked into its tree bin. */
  lemma InsertTreeBin(i: nat, t: Trie, slot: int, m: Mem, sz: map<int, nat>, x: int, s: nat, lo: nat, bits: nat)
    returns (t': Trie, m': Mem)
    requires i < NBINS && TreeBinOk(i, t, slot, true, m, sz) && x > 0 && x !in sz
    requires LargeIn(s, i) && lo == RangeLow(i) && bits == ResolvedBits(i)
    requires var sp := FindSpot(t, s, lo, bits); sp.node in m && m[sp.node].fd in m
    ensures TreeBinOk(i, t', slot, true, m', sz[x := s])
    ensures OnlyAt(Addrs(t) + {x}, m, m') && Addrs(t') == Addrs(t) + {x}
    ensures m' == LinkAt(m, FindSpot(t, s, lo, bits), x, i)
  {
    assert lo <= s < lo + Pow2(bits) by { InBinRange(s, i); }
    assert x !in Addrs(t) by { NewChunk(t, lo, bits, sz, x, s); }
    m' := LinkAt(m, FindSpot(t, s, lo, bits), x, i);
    t' := InsertTreeBinOrdered(i, t, sz, x, s, lo, bits);
    InsertTreeBinRep(t, TreeBinAt(i), i, m, x, s, lo, bits, sz);
    assert Rep(t', TreeBinAt(i), i, m') && Root(t') == slot by {
      InsertRep(t, TreeBinAt(i), i, m, x, s, lo, bits, sz);
    }
  }

  /** The first chunk of a tree bin. */
  lemma FirstTreeBin(i: nat, m: Mem, sz: map<int, nat>, x: int, s: nat)
    requires i < NBINS && x > 0 && LargeIn(s, i) && x !in sz
    ensures TreeBinOk(i, Node(s, [x], Nil, Nil), x, true, m[x := Links(x, x, 0, 0, TreeBinAt(i), i)], sz[x := s])
  {
    var m' := m[x := Links(x, x, 0, 0, TreeBinAt(i), i)];
    assert Ordered(Node(s, [x], Nil, Nil), RangeLow(i), ResolvedBits(i), sz[x := s]) by {
      InBinRange(s, i);
      OneChunk(x, s, RangeLow(i), ResolvedBits(i), sz[x := s]);
    }
    assert Rep(Node(s, [x], Nil, Nil), TreeBinAt(i), i, m') by {
      forall k, j | Follows(k, j, 1) ensures Linked(m', [x][k], [x][j]) {}
    }
    assert Addrs(Node(s, [x], Nil, Nil)) == {x};
  }

  /** A walk down a trie for size s stands at the root t of cur, with k the size bits still to be inspected. */
  ghost predicate AtNode(cur: Trie, t: int, k: nat, par: int, lo: nat, bits: nat, s: nat, i: nat, m: Mem,
                         sz: map<int, nat>)
  {
    && cur.Node? && t == Root(cur) && bits <= 32 && Ordered(cur, lo, bits, sz) && Rep(cur, par, i, m)
    && lo <= s < lo + Pow2(bits) && k == Shifted(s - lo, 32 - bits)
  }

  lemma AtNodeFacts(cur: Trie, t: int, k: nat, par: int, lo: nat, bits: nat, s: nat, i: nat, m: Mem, sz: map<int, nat>)
    requires AtNode(cur, t, k, par, lo, bits, s, i, m, sz)
    ensures cur.Node? && t == Root(cur) && t in m && t > 0 && t in sz && sz[t] == cur.size
    ensures m[t].child0 == Root(cur.left) && m[t].child1 == Root(cur.right)
    ensures Root(cur.left) == 0 <==> cur.left.Nil?
    ensures Root(cur.right) == 0 <==> cur.right.Nil?
  {
    if bits > 0 {
      RootPositive(cur.left, lo, bits - 1, sz);
      RootPositive(cur.right, lo + Pow2(bits - 1), bits - 1, sz);
    }
  }

  lemma AtNodeRange(cur: Trie, t: int, k: nat, par: int, lo: nat, bits: nat, s: nat, i: nat, m: Mem, sz: map<int, nat>)
    requires AtNode(cur, t, k, par, lo, bits, s, i, m, sz)
    ensures cur.Node? && s < lo + Pow2(bits)
  {}

  lemma RootPositive(t: Trie, lo: nat, bits: nat, sz: map<int, nat>)
    requires Ordered(t, lo, bits, sz)
    ensures Root(t) == 0 <==> t.Nil?
  {}

  lemma RootChunk(cur: Trie, par: int, i: nat, m: Mem, lo: nat, bits: nat, sz: map<int, nat>)
    requires Ordered(cur, lo, bits, sz) && Rep(cur, par, i, m) && Root(cur) != 0
    ensures var t := Root(cur);
            && cur.Node? && t in m && t > 0 && t in Addrs(cur) && t in sz && sz[t] == cur.size
            && m[t].child0 == Root(cur.left) && m[t].child1 == Root(cur.right)
            && (Root(cur.left) == 0 <==> cur.left.Nil?) && (Root(cur.right) == 0 <==> cur.right.Nil?)
  {
    assert cur.chain[0] in cur.chain;
    if bits > 0 {
      RootPositive(cur.left, lo, bits - 1, sz);
      RootPositive(cur.right, lo + Pow2(bits - 1), bits - 1, sz);
    }
  }

  /** The walk for s starts at the root of tree bin i. */
  lemma TreeBinFacts(tries: seq<Trie>, slots: seq<int>, map_: bv32, m: Mem, sz: map<int, nat>, i: nat, s: nat)
    requires TreesOk(tries, slots, map_, m, sz) && i < NBINS && LargeIn(s, i)
    ensures |tries| == NBINS && |slots| == NBINS
    ensures Marked(map_, i) ==>
              && tries[i].Node? && Rep(tries[i], TreeBinAt(i), i, m)
              && AtNode(tries[i], slots[i], SizeBits(s, i), TreeBinAt(i), RangeLow(i), ResolvedBits(i), s, i, m, sz)
  {
    assert TreeBinOk(i, tries[i], slots[i], Marked(map_, i), m, sz);
    InBinRange(s, i);
    SizeBitsInit(s, i);
  }

  /** The sign bit of k selects the half of the range that holds s. */
  lemma WalkBit(cur: Trie, t: int, k: nat, par: int, lo: nat, bits: nat, s: nat, i: nat, m: Mem, sz: map<int, nat>)
    requires AtNode(cur, t, k, par, lo, bits, s, i, m, sz) && cur.size != s
    ensures bits > 0
    ensures k / 0x8000_0000 == if s < lo + Pow2(bits - 1) then 0 else 1
    ensures k * 2 % WORD == Shifted(s - (if s < lo + Pow2(bits - 1) then lo else lo + Pow2(bits - 1)), 33 - bits)
  {
    SizeBitsStep(s - lo, bits, k);
  }

  /** The walk goes on in that half. */
  lemma WalkDown(cur: Trie, t: int, k: nat, par: int, lo: nat, bits: nat, s: nat, i: nat, m: Mem, sz: map<int, nat>,
                 right: bool, k': nat)
    requires AtNode(cur, t, k, par, lo, bits, s, i, m, sz) && bits > 0 && (right <==> s >= lo + Pow2(bits - 1))
    requires var lo' := if right then lo + Pow2(bits - 1) else lo; k' == Shifted(s - lo', 33 - bits)
    requires if right then cur.right.Node? else cur.left.Node?
    ensures var sub, lo' := if right then cur.right else cur.left, if right then lo + Pow2(bits - 1) else lo;
            AtNode(sub, Root(sub), k', t, lo', bits - 1, s, i, m, sz)
  {}

  /** A chunk unlinked from its tree bin: the trie. */
  lemma UnlinkTreeBinOrdered(i: nat, t: Trie, sz: map<int, nat>, x: int, lo: nat, bits: nat) returns (t': Trie)
    requires i < NBINS && Ordered(t, lo, bits, sz) && SizesInBin(Addrs(t), i, sz) && x in Addrs(t)
    ensures t' == Unlink(t, x) && Addrs(t') == Addrs(t) - {x}
    ensures Ordered(t', lo, bits, sz - {x}) && SizesInBin(Addrs(t'), i, sz - {x})
  {
    t' := Unlink(t, x);
    UnlinkOrdered(t, lo, bits, sz, x);
    UnlinkAddrs(t, lo, bits, sz, x);
    GoneChunk(t', lo, bits, sz, x);
  }

  /** A chunk unlinked from its tree bin. */
  lemma UnlinkTreeBin(i: nat, t: Trie, slot: int, m: Mem, sz: map<int, nat>, x: int, atBin: bool)
    returns (t': Trie, m': Mem)
    requires i < NBINS && TreeBinOk(i, t, slot, true, m, sz) && x in Addrs(t) && x in m && (atBin <==> x == slot)
    ensures TreeBinOk(i, t', Root(t'), t'.Node?, m', sz - {x})
    ensures OnlyAt(Addrs(t) + {TreeBinAt(i)}, m, m') && Addrs(t') == Addrs(t) - {x}
    ensures m' == UnlinkStores(m, x, NodeOf(t, x), atBin) && t' == Unlink(t, x) && (x != slot ==> Root(t') == slot)
  {
    var lo, bits := RangeLow(i), ResolvedBits(i);
    m' := UnlinkStores(m, x, NodeOf(t, x), atBin);
    assert TreeBinAt(i) !in Addrs(t) by { OrderedFacts(t, lo, bits, sz); }
    t' := UnlinkTreeBinOrdered(i, t, sz, x, lo, bits);
    assert Unlinked(t, t', TreeBinAt(i), i, x, atBin, m, m') by {
      UnlinkRep(t, TreeBinAt(i), i, m, x, atBin, lo, bits, sz);
    }
  }

  lemma TreeSizes(i: nat, t: Trie, slot: int, marked: bool, m: Mem, sz: map<int, nat>)
    requires i < NBINS && TreeBinOk(i, t, slot, marked, m, sz)
    ensures SizesInBin(Addrs(t), i, sz) && forall p :: p in Addrs(t) ==> p > 0
  {
    AddrsPositive(t, i, sz);
  }

  /** After a change in tree bin i that turned its trie into t', all bins hold exactly the chunks of sz'. */
  lemma TreeChanged(smalls: seq<seq<int>>, smallmap: bv32, tries: seq<Trie>, slots: seq<int>, treemap: bv32, m: Mem,
                    sz: map<int, nat>, i: nat, a: set<int>, t': Trie, slot': int, treemap': bv32, m': Mem,
                    sz': map<int, nat>)
    requires SmallsOk(smalls, smallmap, m, sz) && TreesOk(tries, slots, treemap, m, sz) && Covered(smalls, tries, sz)
    requires i < NBINS && OnlyAt(a, m, m')
    requires forall p :: p in a ==> p > 0 || p == TreeBinAt(i)
    requires forall p :: p in a && p in sz ==> LargeIn(sz[p], i)
    requires forall p :: p in sz && p !in a ==> p in sz' && sz'[p] == sz[p]
    requires forall p :: p in sz' ==> p in Addrs(t') || (p in sz && sz'[p] == sz[p] && p !in Addrs(tries[i]))
    requires forall p :: p in Addrs(t') ==> p in sz' && ChunkSize(sz'[p])
    requires TreeBinOk(i, t', slot', Marked(treemap', i), m', sz')
    requires forall j :: 0 <= j < NBINS && j != i ==> Marked(treemap', j) == Marked(treemap, j)
    ensures SmallsOk(smalls, smallmap, m', sz')
    ensures TreesOk(tries[i := t'], slots[i := slot'], treemap', m', sz')
    ensures Covered(smalls, tries[i := t'], sz')
  {
    hide TreeBinOk, SmallsOk, Addrs;
    TreeSizes(i, t', slot', Marked(treemap', i), m', sz');
    TreeChangeFrame(smalls, smallmap, tries, slots, treemap, m, sz, i, a, m', sz');
    var tries' := tries[i := t'];
    forall p | p in sz' ensures p > 0 && ChunkSize(sz'[p]) && InItsBin(p, sz'[p], smalls, tries') {
      if p in Addrs(t') {
        forall j | 0 <= j < NBINS && InBin(sz'[p], j) ensures p in Addrs(tries'[j]) {
          InBinUnique(sz'[p], i, j);
        }
      } else {
        assert InItsBin(p, sz[p], smalls, tries);
      }
    }
  }

  /** insert_large_chunk into an empty bin keeps the bins consistent. */
  lemma FirstChanged(smalls: seq<seq<int>>, smallmap: bv32, tries: seq<Trie>, slots: seq<int>, treemap: bv32, m: Mem,
                     sz: map<int, nat>, i: nat, x: int, s: nat) returns (t': Trie)
    requires SmallsOk(smalls, smallmap, m, sz) && TreesOk(tries, slots, treemap, m, sz) && Covered(smalls, tries, sz)
    requires i < NBINS && LargeIn(s, i) && ChunkSize(s) && x > 0 && x !in sz && !Marked(treemap, i)
    ensures SmallsOk(smalls, smallmap, m[x := Links(x, x, 0, 0, TreeBinAt(i), i)], sz[x := s])
    ensures TreesOk(
        tries[i := t'], slots[i := x], Mark(treemap, i), m[x := Links(x, x, 0, 0, TreeBinAt(i), i)], sz[x := s])
    ensures Covered(smalls, tries[i := t'], sz[x := s])
  {
    assert TreeBinOk(i, tries[i], slots[i], Marked(treemap, i), m, sz);
    t' := Node(s, [x], Nil, Nil);
    var m' := m[x := Links(x, x, 0, 0, TreeBinAt(i), i)];
    forall j | 0 <= j < NBINS ensures Marked(Mark(treemap, i), j) == (j == i || Marked(treemap, j)) {
      MarkLaw(treemap, i, j);
    }
    FirstTreeBin(i, m, sz, x, s);
    assert Addrs(t') == {x};
    TreeChanged(smalls, smallmap, tries, slots, treemap, m, sz, i, {x}, t', x, Mark(treemap, i), m', sz[x := s]);
  }

  /** insert_large_chunk into a non-empty bin keeps the bins consistent. */
  lemma InsertChanged(smalls: seq<seq<int>>, smallmap: bv32, tries: seq<Trie>, slots: seq<int>, treemap: bv32, m: Mem,
                      sz: map<int, nat>, i: nat, x: int, s: nat, m': Mem) returns (t': Trie)
    requires SmallsOk(smalls, smallmap, m, sz) && TreesOk(tries, slots, treemap, m, sz) && Covered(smalls, tries, sz)
    requires i < NBINS && LargeIn(s, i) && ChunkSize(s) && x > 0 && x !in sz && Marked(treemap, i) && tries[i].Node?
    requires var sp := FindSpot(tries[i], s, RangeLow(i), ResolvedBits(i));
             sp.node in m && m[sp.node].fd in m && m' == LinkAt(m, sp, x, i)
    ensures SmallsOk(smalls, smallmap, m', sz[x := s])
    ensures TreesOk(tries[i := t'], slots, treemap, m', sz[x := s])
    ensures Covered(smalls, tries[i := t'], sz[x := s])
  {
    hide Ordered, Rep, Addrs;
    var t := tries[i];
    assert TreeBinOk(i, t, slots[i], Marked(treemap, i), m, sz);
    var m'';
    t', m'' := InsertTreeBin(i, t, slots[i], m, sz, x, s, RangeLow(i), ResolvedBits(i));
    AddrsChunkSize(i, t, sz, smalls, tries);
    AddrsPositive(t, i, sz);
    TreeChanged(
      smalls, smallmap, tries, slots, treemap, m, sz, i, Addrs(t) + {x}, t', slots[i], treemap, m', sz[x := s]);
    assert slots[i := slots[i]] == slots;
  }

  lemma AddrsPositive(t: Trie, i: nat, sz: map<int, nat>)
    requires i < NBINS && Ordered(t, RangeLow(i), ResolvedBits(i), sz)
    ensures forall p :: p in Addrs(t) ==> p > 0
  {
    OrderedFacts(t, RangeLow(i), ResolvedBits(i), sz);
  }

  lemma AddrsChunkSize(i: nat, t: Trie, sz: map<int, nat>, smalls: seq<seq<int>>, tries: seq<Trie>)
    requires i < NBINS && SizesInBin(Addrs(t), i, sz)
    requires |smalls| == NBINS && |tries| == NBINS && Covered(smalls, tries, sz)
    ensures forall p :: p in Addrs(t) ==> p in sz && ChunkSize(sz[p])
  {}

  /** unlink_large_chunk keeps the bins consistent. */
  lemma UnlinkChanged(smalls: seq<seq<int>>, smallmap: bv32, tries: seq<Trie>, slots: seq<int>, treemap: bv32, m: Mem,
                      sz: map<int, nat>, i: nat, x: int, atBin: bool, m': Mem) returns (t': Trie)
    requires SmallsOk(smalls, smallmap, m, sz) && TreesOk(tries, slots, treemap, m, sz) && Covered(smalls, tries, sz)
    requires i < NBINS && x in Addrs(tries[i]) && x in m && (atBin <==> x == slots[i])
    requires m' == UnlinkStores(m, x, NodeOf(tries[i], x), atBin)
    ensures SmallsOk(smalls, smallmap, m', sz - {x})
    ensures TreesOk(tries[i := t'], slots[i := Root(t')], if t'.Nil? then Clear(treemap, i) else treemap, m', sz - {x})
    ensures Covered(smalls, tries[i := t'], sz - {x})
    ensures Root(t') == if atBin then Replacement(m, x, NodeOf(tries[i], x)) else slots[i]
    ensures t'.Nil? <==> Root(t') == 0
  {
    hide Ordered, Rep;
    var t := tries[i];
    assert TreeBinOk(i, t, slots[i], Marked(treemap, i), m, sz);
    assert Marked(treemap, i);
    if atBin { RootAfterUnlink(t, TreeBinAt(i), i, m, RangeLow(i), ResolvedBits(i), sz); }
    var m'';
    t', m'' := UnlinkTreeBin(i, t, slots[i], m, sz, x, atBin);
    AddrsChunkSize(i, t, sz, smalls, tries);
    AddrsPositive(t, i, sz);
    RootPositive(t', RangeLow(i), ResolvedBits(i), sz - {x});
    var treemap' := if t'.Nil? then Clear(treemap, i) else treemap;
    forall j | 0 <= j < NBINS ensures Marked(treemap', j) == if j == i then t'.Node? else Marked(treemap, j) {
      ClearLaw(treemap, i, j);
    }
    TreeChanged(smalls, smallmap, tries, slots, treemap, m, sz, i,
        Addrs(t) + {TreeBinAt(i)}, t', Root(t'), treemap', m', sz - {x});
  }

  /** The tree bin that holds a large binned chunk is the one its index field names. */
  lemma BinOfChunk(smalls: seq<seq<int>>, smallmap: bv32, tries: seq<Trie>, slots: seq<int>, treemap: bv32, m: Mem,
                   sz: map<int, nat>, x: int)
    requires SmallsOk(smalls, smallmap, m, sz) && TreesOk(tries, slots, treemap, m, sz) && Covered(smalls, tries, sz)
    requires x in sz && !IsSmall(sz[x])
    ensures x in m && m[x].index < NBINS && x in Addrs(tries[m[x].index])
  {
    TreeIndexRange(sz[x]);
    var i := ComputeTreeIndex(sz[x]);
    assert InItsBin(x, sz[x], smalls, tries);
    assert TreeBinOk(i, tries[i], slots[i], Marked(treemap, i), m, sz);
    IndexField(tries[i], TreeBinAt(i), i, m, x);
  }

  lemma {:induction false} IndexField(t: Trie, par: int, idx: nat, m: Mem, x: int)
    requires Rep(t, par, idx, m) && x in Addrs(t)
    ensures x in m && m[x].index == idx
  {
    if x in t.chain {
    } else if x in Addrs(t.left) {
      IndexField(t.left, t.chain[0], idx, m, x);
    } else {
      IndexField(t.right, t.chain[0], idx, m, x);
    }
  }

  /** x is on the chain of a trie node that lies in memory. */
  ghost predicate OnNode(x: int, node: Trie, par: int, i: nat, lo: nat, bits: nat, m: Mem, sz: map<int, nat>)
  { node.Node? && x in node.chain && Ordered(node, lo, bits, sz) && Rep(node, par, i, m) && par != 0 && x in m }

  /**
   * What unlink_large_chunk will do to x: the replacement r, the memory m1 after detaching it and m2 after relinking.
   */
  lemma UnlinkPlan(smalls: seq<seq<int>>, smallmap: bv32, tries: seq<Trie>, slots: seq<int>, treemap: bv32, m: Mem,
                   sz: map<int, nat>, x: int)
    returns (i: nat, node: Trie, par: int, lo: nat, bits: nat, m1: Mem, r: int, m2: Mem, t': Trie)
    requires SmallsOk(smalls, smallmap, m, sz) && TreesOk(tries, slots, treemap, m, sz) && Covered(smalls, tries, sz)
    requires x in sz && !IsSmall(sz[x])
    ensures x in m && i == m[x].index && i < NBINS && OnNode(x, node, par, i, lo, bits, m, sz)
    ensures r == Replacement(m, x, node) && m1 == DetachStores(m, x, node)
    ensures m2 == if m[x].parent == 0 then m1 else Relink(m1, x, m[x].parent, r, x == slots[i])
    ensures m[x].parent == 0 ==> x != slots[i]
    ensures SmallsOk(smalls, smallmap, m2, sz - {x})
    ensures TreesOk(tries[i := t'], if x == slots[i] then slots[i := r] else slots,
                    if x == slots[i] && r == 0 then Clear(treemap, i) else treemap, m2, sz - {x})
    ensures Covered(smalls, tries[i := t'], sz - {x})
  {
    BinOfChunk(smalls, smallmap, tries, slots, treemap, m, sz, x);
    i := m[x].index;
    var atBin := x == slots[i];
    node := NodeOf(tries[i], x);
    m1, r, m2 := DetachStores(m, x, node), Replacement(m, x, node), UnlinkStores(m, x, node, atBin);
    par, lo, bits := PlanNode(i, tries[i], slots[i], Marked(treemap, i), m, sz, x);
    t' := UnlinkChanged(smalls, smallmap, tries, slots, treemap, m, sz, i, x, atBin, m2);
    assert slots[i := Root(t')] == if atBin then slots[i := r] else slots;
  }

  lemma PlanNode(i: nat, t: Trie, slot: int, marked: bool, m: Mem, sz: map<int, nat>, x: int)
    returns (par: int, lo: nat, bits: nat)
    requires i < NBINS && TreeBinOk(i, t, slot, marked, m, sz) && x in Addrs(t)
    ensures OnNode(x, NodeOf(t, x), par, i, lo, bits, m, sz)
    ensures m[x].parent == 0 ==> x != slot
    ensures x != slot ==> slot != 0
  {
    par, lo, bits := NodeFacts(t, TreeBinAt(i), i, m, RangeLow(i), ResolvedBits(i), sz, x);
    LinkFacts(NodeOf(t, x), par, i, m, lo, bits, sz, x);
    RootPositive(t, RangeLow(i), ResolvedBits(i), sz);
  }

  // ------------------------------ small bins ------------------------------

  /** The list without p. */
  function Without(list: seq<int>, p: int): seq<int>
    requires p in list
  { var k := IndexOf(list, p); list[..k] + list[k + 1..] }

  /** The stores of insert_small_chunk, where f is the first chunk of the list or the header b. */
  function SmallLink(m: Mem, b: int, f: int, p: int): Mem
  {
    var m2 := SetBk(SetFd(m, b, p), f, p);
    var k := if p in m2 then m2[p] else Links(0, 0, 0, 0, 0, 0);
    m2[p := k.(fd := f, bk := b)]
  }

  lemma InsertSmallRing(b: int, list: seq<int>, f: int, m: Mem, p: int)
    requires b in m && NoDup([b] + list) && p != b && p !in list
    requires list != [] ==> Ring([b] + list, m)
    requires f == if list != [] then m[b].fd else b
    ensures Ring([b, p] + list, SmallLink(m, b, f, p)) && (f == b || f in list)
  {
    var c, c', m' := [b] + list, [b, p] + list, SmallLink(m, b, f, p);
    if list != [] {
      assert Follows(0, 1, |c|);
      assert Linked(m, c[0], c[1]);
      assert f == list[0];
    }
    assert forall i :: 2 <= i < |c'| ==> c'[i] == c[i - 1] && c[i - 1] in list;
    forall i, j | Follows(i, j, |c'|)
      ensures Linked(m', c'[i], c'[j])
    {
      if i >= 2 {
        assert Follows(i - 1, if j == 0 then 0 else j - 1, |c|);
        assert Linked(m, c[i - 1], c[if j == 0 then 0 else j - 1]);
        assert c[i - 1] != b;
      }
    }
  }

  lemma InsertSmallBin(i: nat, list: seq<int>, f: int, m: Mem, sz: map<int, nat>, p: int)
    requires SmallBinOk(i, list, list != [], m, sz) && p > 0 && p !in sz
    requires f == if list != [] then m[SmallBinAt(i)].fd else SmallBinAt(i)
    ensures var m' := SmallLink(m, SmallBinAt(i), f, p);
            && SmallBinOk(i, [p] + list, true, m', sz[p := 8 * i])
            && OnlyAt({SmallBinAt(i), p} + Elems(list), m, m')
  {
    var b := SmallBinAt(i);
    assert p !in list;
    HeaderApart(i, list, m, sz);
    InsertSmallRing(b, list, f, m, p);
    assert [b] + ([p] + list) == [b, p] + list;
  }

  lemma HeaderApart(i: nat, list: seq<int>, m: Mem, sz: map<int, nat>)
    requires SmallBinOk(i, list, list != [], m, sz)
    ensures NoDup([SmallBinAt(i)] + list) && SmallBinAt(i) !in list
  {}

  lemma WithoutOk(list: seq<int>, p: int)
    requires NoDup(list) && p in list
    ensures var l' := Without(list, p);
            NoDup(l') && |l'| == |list| - 1 && (forall q :: q in l' <==> q in list && q != p)
  {
    hide IndexOf;
    RemoveAt(list, IndexOf(list, p), p);
    forall q ensures q in Without(list, p) <==> q in list && q != p { RemoveAt(list, IndexOf(list, p), q); }
  }

  lemma IndexOfCons(b: int, list: seq<int>, p: int)
    requires p in list && p != b
    ensures p in [b] + list && IndexOf([b] + list, p) == 1 + IndexOf(list, p)
  {
    assert ([b] + list)[1..] == list;
  }

  lemma RemoveFromRing(b: int, list: seq<int>, p: int)
    requires p in list && p != b
    ensures ChainRemove([b] + list, p) == [b] + Without(list, p)
  {
    hide IndexOf;
    var c, k := [b] + list, IndexOf(list, p);
    IndexOfCons(b, list, p);
    assert c[..k + 1] == [b] + list[..k];
    assert c[k + 2..] == list[k + 1..];
  }

  /** The runtime checks of unlink_small_chunk pass, and F == B exactly when p is the only chunk of its bin. */
  lemma UnlinkSmallChecks(i: nat, list: seq<int>, m: Mem, sz: map<int, nat>, p: int)
    requires SmallBinOk(i, list, list != [], m, sz) && p in list
    ensures p in m && m[p].fd in m && m[m[p].fd].bk == p && m[p].bk in m && m[m[p].bk].fd == p
    ensures m[p].fd == m[p].bk <==> |list| == 1
    ensures m[p].fd in {SmallBinAt(i)} + Elems(list) && m[p].bk in {SmallBinAt(i)} + Elems(list)
  {
    var c := [SmallBinAt(i)] + list;
    HeaderApart(i, list, m, sz);
    var k := 1 + IndexOf(list, p);
    assert c[k] == p;
    SmallNeighbours(c, p, k, m);
  }

  lemma UnlinkSmallRing(i: nat, list: seq<int>, m: Mem, sz: map<int, nat>, p: int)
    requires SmallBinOk(i, list, list != [], m, sz) && p in list && p in m
    ensures Ring([SmallBinAt(i)] + Without(list, p), Splice(m, p))
  {
    HeaderApart(i, list, m, sz);
    RemoveFromRing(SmallBinAt(i), list, p);
    SpliceRing([SmallBinAt(i)] + list, p, m);
  }

  /** A chunk unlinked from a small bin. The header of a bin that becomes empty keeps its stale links. */
  lemma UnlinkSmallBin(i: nat, list: seq<int>, m: Mem, sz: map<int, nat>, p: int, m': Mem)
    requires SmallBinOk(i, list, list != [], m, sz) && p in list && p in m
    requires m' == if m[p].fd == m[p].bk then m else Splice(m, p)
    ensures SmallBinOk(i, Without(list, p), m[p].fd != m[p].bk, m', sz - {p})
    ensures OnlyAt({SmallBinAt(i)} + Elems(list), m, m')
  {
    var list' := Without(list, p);
    UnlinkSmallChecks(i, list, m, sz, p);
    WithoutOk(list, p);
    SpliceFields(m, p, SmallBinAt(i));
    if |list| > 1 { UnlinkSmallRing(i, list, m, sz, p); }
    forall k | 0 <= k < |list'| ensures list'[k] > 0 && list'[k] in sz - {p} && (sz - {p})[list'[k]] == 8 * i {
      var q := list'[k];
      assert q in list' && q in list;
    }
  }

  lemma SmallNeighbours(c: seq<int>, p: int, k: nat, m: Mem)
    requires Ring(c, m) && NoDup(c) && 1 <= k < |c| && c[k] == p
    ensures p in m && m[p].fd in m && m[m[p].fd].bk == p && m[p].bk in m && m[m[p].bk].fd == p
    ensures m[p].fd == m[p].bk <==> |c| == 2
    ensures m[p].fd in c && m[p].bk in c
  {
    var kf, kr := if k + 1 < |c| then k + 1 else 0, k - 1;
    assert Follows(k, kf, |c|) && Follows(kr, k, |c|);
  }

  lemma SmallSizes(i: nat, list: seq<int>, marked: bool, m: Mem, sz: map<int, nat>)
    requires SmallBinOk(i, list, marked, m, sz)
    ensures forall p :: p in list ==> p > 0 && p in sz && sz[p] == 8 * i
  {}

  /** After a change in small bin i, all bins hold exactly the chunks of sz'. */
  lemma SmallChanged(smalls: seq<seq<int>>, smallmap: bv32, tries: seq<Trie>, slots: seq<int>, treemap: bv32, m: Mem,
                     sz: map<int, nat>, i: nat, a: set<int>, list': seq<int>, smallmap': bv32, m': Mem,
                     sz': map<int, nat>)
    requires SmallsOk(smalls, smallmap, m, sz) && TreesOk(tries, slots, treemap, m, sz) && Covered(smalls, tries, sz)
    requires 2 <= i < NBINS && OnlyAt(a, m, m')
    requires forall p :: p in a ==> p > 0 || p == SmallBinAt(i)
    requires forall p :: p in a && p in sz ==> sz[p] == 8 * i
    requires forall p :: p in sz && p !in a ==> p in sz' && sz'[p] == sz[p]
    requires forall p :: p in sz' ==> p in list' || (p in sz && sz'[p] == sz[p] && p !in smalls[i])
    requires SmallBinOk(i, list', Marked(smallmap', i), m', sz')
    requires forall j :: 0 <= j < NBINS && j != i ==> Marked(smallmap', j) == Marked(smallmap, j)
    ensures SmallsOk(smalls[i := list'], smallmap', m', sz')
    ensures TreesOk(tries, slots, treemap, m', sz')
    ensures Covered(smalls[i := list'], tries, sz')
  {
    hide SmallBinOk, TreesOk;
    SmallSizes(i, list', Marked(smallmap', i), m', sz');
    SmallChangeFrame(smalls, smallmap, tries, slots, treemap, m, sz, i, a, m', sz');
    var smalls' := smalls[i := list'];
    forall p | p in sz' ensures p > 0 && ChunkSize(sz'[p]) && InItsBin(p, sz'[p], smalls', tries) {
      if p in list' {
        assert sz'[p] == 8 * i;
      } else {
        assert InItsBin(p, sz[p], smalls, tries);
      }
    }
  }

  /** insert_small_chunk keeps the bins consistent. */
  lemma InsertSmallChanged(smalls: seq<seq<int>>, smallmap: bv32, tries: seq<Trie>, slots: seq<int>, treemap: bv32,
                           m: Mem, sz: map<int, nat>, i: nat, p: int, f: int, m': Mem)
    requires SmallsOk(smalls, smallmap, m, sz) && TreesOk(tries, slots, treemap, m, sz) && Covered(smalls, tries, sz)
    requires 2 <= i < NBINS && p > 0 && p !in sz && SmallBinAt(i) in m
    requires f == (if Marked(smallmap, i) then m[SmallBinAt(i)].fd else SmallBinAt(i))
    requires m' == SmallLink(m, SmallBinAt(i), f, p)
    ensures SmallsOk(smalls[i := [p] + smalls[i]], Mark(smallmap, i), m', sz[p := 8 * i])
    ensures Marked(smallmap, i) ==> SmallsOk(smalls[i := [p] + smalls[i]], smallmap, m', sz[p := 8 * i])
    ensures TreesOk(tries, slots, treemap, m', sz[p := 8 * i])
    ensures Covered(smalls[i := [p] + smalls[i]], tries, sz[p := 8 * i])
  {
    var list, a := smalls[i], {SmallBinAt(i), p} + Elems(smalls[i]);
    assert SmallBinOk(i, list, Marked(smallmap, i), m, sz);
    InsertSmallBin(i, list, f, m, sz, p);
    forall j | 0 <= j < NBINS ensures Marked(Mark(smallmap, i), j) == (j == i || Marked(smallmap, j)) {
      MarkLaw(smallmap, i, j);
    }
    SmallChanged(
      smalls, smallmap, tries, slots, treemap, m, sz, i, a, [p] + list, Mark(smallmap, i), m', sz[p := 8 * i]);
    if Marked(smallmap, i) {
      SmallChanged(smalls, smallmap, tries, slots, treemap, m, sz, i, a, [p] + list, smallmap, m', sz[p := 8 * i]);
    }
  }

  /** unlink_small_chunk keeps the bins consistent. */
  lemma UnlinkSmallChanged(smalls: seq<seq<int>>, smallmap: bv32, tries: seq<Trie>, slots: seq<int>, treemap: bv32,
                           m: Mem, sz: map<int, nat>, i: nat, p: int, m': Mem)
    requires SmallsOk(smalls, smallmap, m, sz) && TreesOk(tries, slots, treemap, m, sz) && Covered(smalls, tries, sz)
    requires 2 <= i < NBINS && p in smalls[i] && p in m
    requires m' == if m[p].fd == m[p].bk then m else Splice(m, p)
    ensures var smallmap' := if m[p].fd == m[p].bk then Clear(smallmap, i) else smallmap;
            SmallsOk(smalls[i := Without(smalls[i], p)], smallmap', m', sz - {p})
    ensures TreesOk(tries, slots, treemap, m', sz - {p})
    ensures Covered(smalls[i := Without(smalls[i], p)], tries, sz - {p})
  {
    var list, a := smalls[i], {SmallBinAt(i)} + Elems(smalls[i]);
    assert SmallBinOk(i, list, Marked(smallmap, i), m, sz);
    UnlinkSmallBin(i, list, m, sz, p, m');
    WithoutOk(list, p);
    var smallmap' := if m[p].fd == m[p].bk then Clear(smallmap, i) else smallmap;
    forall j | 0 <= j < NBINS
      ensures Marked(smallmap', j) == if j == i then m[p].fd != m[p].bk else Marked(smallmap, j)
    { ClearLaw(smallmap, i, j); }
    SmallChanged(smalls, smallmap, tries, slots, treemap, m, sz, i, a, Without(list, p), smallmap', m', sz - {p});
  }

  // ------------------------------ best fit ------------------------------

  /** The leftmost scan of a trie stands at the root t of cur, with best fit v so far. */
  ghost predicate Scan(cur: Trie, t: int, v: int, rsize: nat, par: int, idx: nat, lo: nat, bits: nat, nb: nat, m: Mem,
                       sz: map<int, nat>, all: set<int>)
  {
    && Ordered(cur, lo, bits, sz) && Rep(cur, par, idx, m) && t == Root(cur) && Addrs(cur) <= all
    && Best(v, rsize, nb, sz) && Remaining(cur, v, nb, sz, all) && (AtLeast(cur, nb, sz) || BestCovers(v, nb, sz))
  }

  lemma ScanRoot(cur: Trie, t: int, v: int, rsize: nat, par: int, idx: nat, lo: nat, bits: nat, nb: nat, m: Mem,
                 sz: map<int, nat>, all: set<int>)
    requires Scan(cur, t, v, rsize, par, idx, lo, bits, nb, m, sz, all) && t != 0
    ensures cur.Node? && t in all && t in sz && sz[t] == cur.size && t in m && t > 0
    ensures m[t].child0 == Root(cur.left) && m[t].child1 == Root(cur.right)
    ensures Root(Leftmost(cur)) == if m[t].child0 != 0 then m[t].child0 else m[t].child1
  {
    RootChunk(cur, par, idx, m, lo, bits, sz);
  }

  /** Comparing the root and going to leftmost_child keeps the scan going. */
  lemma ScanStep(cur: Trie, t: int, v: int, rsize: nat, par: int, idx: nat, lo: nat, bits: nat, nb: nat, m: Mem,
                 sz: map<int, nat>, all: set<int>, v': int, rsize': nat) returns (lo': nat, bits': nat)
    requires Scan(cur, t, v, rsize, par, idx, lo, bits, nb, m, sz, all) && t != 0 && cur.Node? && t in sz && t > 0
    requires 0 < nb < WORD && sz[t] == cur.size < WORD
    requires
        if (sz[t] - nb) % WORD < rsize then v' == t && rsize' == (sz[t] - nb) % WORD else v' == v && rsize' == rsize
    ensures Scan(Leftmost(cur), Root(Leftmost(cur)), v', rsize', t, idx, lo', bits', nb, m, sz, all)
  {
    hide Remaining;
    CompareFit(sz[t], v, rsize, nb, sz);
    lo', bits' := if cur.left.Node? || bits == 0 then lo else lo + Pow2(bits - 1), if bits == 0 then 0 else bits - 1;
    BestImproves(cur, v, nb, sz, all, v');
    LeftmostStep(cur, v', nb, sz, all, lo, bits);
    assert Addrs(Leftmost(cur)) <= Addrs(cur);
  }

  lemma BestImproves(t: Trie, v: int, nb: nat, sz: map<int, nat>, all: set<int>, v': int)
    requires Remaining(t, v, nb, sz, all)
    requires v' == v || (v' != 0 && v' in sz && !(v != 0 && v in sz && sz[v] <= sz[v']))
    ensures Remaining(t, v', nb, sz, all)
    ensures BestCovers(v, nb, sz) ==> BestCovers(v', nb, sz)
  {
    forall p | p in all && p in sz && sz[p] >= nb ensures Accounted(p, t, v', sz) {
      assert Accounted(p, t, v, sz);
    }
  }

  /** The scan ends at a leaf: nothing that fits is smaller than the best fit. */
  lemma ScanEnd(cur: Trie, v: int, rsize: nat, par: int, idx: nat, lo: nat, bits: nat, nb: nat, m: Mem,
                sz: map<int, nat>, all: set<int>)
    requires Scan(cur, 0, v, rsize, par, idx, lo, bits, nb, m, sz, all)
    ensures forall p :: p in all && p in sz && sz[p] >= nb ==> BestCovers(v, sz[p], sz)
  {
    RootPositive(cur, lo, bits, sz);
    forall p | p in all && p in sz && sz[p] >= nb ensures BestCovers(v, sz[p], sz) {
      assert Accounted(p, cur, v, sz);
    }
  }

  /** The walk for an exact fit of nb stands at the root t of cur; rst is the deepest right subtree not taken. */
  ghost predicate Path(cur: Trie, t: int, k: nat, par: int, lo: nat, bits: nat, rst: Trie, rt: int, rpar: int, rlo: nat,
                       rbits: nat, v: int, rsize: nat, i: nat, nb: nat, m: Mem, sz: map<int, nat>, all: set<int>)
  {
    && AtNode(cur, t, k, par, lo, bits, nb, i, m, sz) && Addrs(cur) <= all
    && Rest(rst, rt, rpar, rlo, rbits, lo + Pow2(bits), i, m, sz, all)
    && Best(v, rsize, nb, sz) && RemainingPath(cur, rst, v, nb, sz, all)
  }

  /** The untaken right subtree, all of whose chunks have at least size z. */
  ghost predicate Rest(rst: Trie, rt: int, rpar: int, rlo: nat, rbits: nat, z: nat, i: nat, m: Mem, sz: map<int, nat>,
                       all: set<int>)
  {
    Ordered(rst, rlo, rbits, sz) && Rep(rst, rpar, i, m) && rt == Root(rst) && AtLeast(rst, z, sz) && Addrs(rst) <= all
  }

  /** An exact fit: the best fit covers everything, so any scan may follow. */
  lemma PathExact(cur: Trie, t: int, k: nat, par: int, lo: nat, bits: nat, v: int, i: nat, nb: nat, m: Mem,
                  sz: map<int, nat>, all: set<int>)
    requires AtNode(cur, t, k, par, lo, bits, nb, i, m, sz) && Addrs(cur) <= all && Best(v, 0, nb, sz) && v != 0
    ensures Scan(cur, t, v, 0, par, i, lo, bits, nb, m, sz, all)
  {
    forall p | p in all && p in sz && sz[p] >= nb ensures Accounted(p, cur, v, sz) {
      assert BestCovers(v, sz[p], sz);
    }
  }

  /** The walk fell off the trie: the scan goes on in the untaken right subtree. */
  lemma PathEnd(rst: Trie, rt: int, rpar: int, rlo: nat, rbits: nat, z: nat, v: int, rsize: nat, i: nat, nb: nat,
                m: Mem, sz: map<int, nat>, all: set<int>)
    requires Rest(rst, rt, rpar, rlo, rbits, z, i, m, sz, all) && z >= nb && Best(v, rsize, nb, sz)
    requires RemainingPath(Nil, rst, v, nb, sz, all)
    ensures Scan(rst, rt, v, rsize, rpar, i, rlo, rbits, nb, m, sz, all)
  {
    forall p | p in all && p in sz && sz[p] >= nb ensures Accounted(p, rst, v, sz) {
      assert Pending(p, Nil, rst, v, sz);
    }
  }

  lemma PathImproves(cur: Trie, rst: Trie, v: int, nb: nat, sz: map<int, nat>, all: set<int>, v': int)
    requires RemainingPath(cur, rst, v, nb, sz, all)
    requires v' == v || (v' != 0 && v' in sz && !(v != 0 && v in sz && sz[v] <= sz[v']))
    ensures RemainingPath(cur, rst, v', nb, sz, all)
  {
    forall p | p in all && p in sz && sz[p] >= nb ensures Pending(p, cur, rst, v', sz) {
      assert Pending(p, cur, rst, v, sz);
    }
  }

  /** The root has been compared; one bit of nb decides which subtree is taken. */
  lemma PathDown(cur: Trie, t: int, k: nat, par: int, lo: nat, bits: nat, rst: Trie, rt: int, rpar: int, rlo: nat,
                 rbits: nat, v: int, rsize: nat, i: nat, nb: nat, m: Mem, sz: map<int, nat>, all: set<int>, right: bool)
    returns (rpar': int, rlo': nat, rbits': nat)
    requires Path(cur, t, k, par, lo, bits, rst, rt, rpar, rlo, rbits, v, rsize, i, nb, m, sz, all)
    requires bits > 0 && (right <==> nb >= lo + Pow2(bits - 1)) && (cur.size >= nb ==> BestCovers(v, cur.size, sz))
    ensures var rst' := Untaken(cur, rst, right);
            && RemainingPath(Taken(cur, right), rst', v, nb, sz, all)
            && Rest(rst', Root(rst'), rpar', rlo', rbits',
                (if right then lo + Pow2(bits - 1) else lo) + Pow2(bits - 1), i, m, sz, all)
  {
    hide Ordered, Rep, RemainingPath, AtLeast, Addrs, BestCovers, Rest;
    assert AtNode(cur, t, k, par, lo, bits, nb, i, m, sz);
    RestAtLeast(rst, rt, rpar, rlo, rbits, lo + Pow2(bits), i, m, sz, all);
    PathStep(cur, rst, v, nb, sz, all, lo, bits, right);
    rpar', rlo', rbits' := RestDown(cur, par, lo, bits, rst, rt, rpar, rlo, rbits, i, m, sz, all, right);
  }

  lemma RestAtLeast(rst: Trie, rt: int, rpar: int, rlo: nat, rbits: nat, z: nat, i: nat, m: Mem, sz: map<int, nat>,
                    all: set<int>)
    requires Rest(rst, rt, rpar, rlo, rbits, z, i, m, sz, all)
    ensures AtLeast(rst, z, sz)
  {}

  lemma RestDown(cur: Trie, par: int, lo: nat, bits: nat, rst: Trie, rt: int, rpar: int, rlo: nat, rbits: nat, i: nat,
                 m: Mem, sz: map<int, nat>, all: set<int>, right: bool) returns (rpar': int, rlo': nat, rbits': nat)
    requires cur.Node? && Ordered(cur, lo, bits, sz) && Rep(cur, par, i, m) && Addrs(cur) <= all && bits > 0
    requires Rest(rst, rt, rpar, rlo, rbits, lo + Pow2(bits), i, m, sz, all)
    ensures var rst' := Untaken(cur, rst, right);
            Rest(rst', Root(rst'), rpar', rlo', rbits',
                (if right then lo + Pow2(bits - 1) else lo) + Pow2(bits - 1), i, m, sz, all)
  {
    UntakenAtLeast(cur, rst, sz, lo, bits, right);
    if !right && cur.right.Node? {
      rpar', rlo', rbits' := Root(cur), lo + Pow2(bits - 1), bits - 1;
    } else {
      rpar', rlo', rbits' := rpar, rlo, rbits;
    }
  }

  /** What the walk reads at its current node. */
  lemma PathRoot(cur: Trie, t: int, k: nat, par: int, lo: nat, bits: nat, rst: Trie, rt: int, rpar: int, rlo: nat,
                 rbits: nat, v: int, rsize: nat, i: nat, nb: nat, m: Mem, sz: map<int, nat>, all: set<int>)
    requires Path(cur, t, k, par, lo, bits, rst, rt, rpar, rlo, rbits, v, rsize, i, nb, m, sz, all)
    ensures cur.Node? && t in m && t > 0 && t in sz && t in all && sz[t] == cur.size
    ensures m[t].child0 == Root(cur.left) && m[t].child1 == Root(cur.right)
    ensures AtNode(cur, t, k, par, lo, bits, nb, i, m, sz) && Addrs(cur) <= all
  {
    AtNodeFacts(cur, t, k, par, lo, bits, nb, i, m, sz);
    assert cur.chain[0] in cur.chain;
  }

  /** Comparing the current node keeps the walk's invariant for the better of the two fits. */
  lemma PathCompare(cur: Trie, t: int, k: nat, par: int, lo: nat, bits: nat, rst: Trie, rt: int, rpar: int, rlo: nat,
                    rbits: nat, v: int, rsize: nat, i: nat, nb: nat, m: Mem, sz: map<int, nat>, all: set<int>, v': int,
                    rsize': nat)
    requires Path(cur, t, k, par, lo, bits, rst, rt, rpar, rlo, rbits, v, rsize, i, nb, m, sz, all)
    requires t > 0 && t in sz && sz[t] == cur.size < WORD && 0 < nb < WORD && rsize > 0
    requires
        if (sz[t] - nb) % WORD < rsize then v' == t && rsize' == (sz[t] - nb) % WORD else v' == v && rsize' == rsize
    ensures Path(cur, t, k, par, lo, bits, rst, rt, rpar, rlo, rbits, v', rsize', i, nb, m, sz, all)
    ensures (cur.size >= nb ==> BestCovers(v', cur.size, sz)) && (cur.size == nb <==> rsize' == 0)
  {
    hide AtNode, Rest, Ordered, Rep, RemainingPath;
    CompareFit(sz[t], v, rsize, nb, sz);
    PathImproves(cur, rst, v, nb, sz, all, v');
  }

  /** One bit of nb takes the walk on to the left or the right subtree. */
  lemma PathNext(cur: Trie, t: int, k: nat, par: int, lo: nat, bits: nat, rst: Trie, rt: int, rpar: int, rlo: nat,
                 rbits: nat, v: int, rsize: nat, i: nat, nb: nat, m: Mem, sz: map<int, nat>, all: set<int>)
    returns (lo': nat, rpar': int, rlo': nat, rbits': nat)
    requires Path(cur, t, k, par, lo, bits, rst, rt, rpar, rlo, rbits, v, rsize, i, nb, m, sz, all)
    requires cur.size != nb && (cur.size >= nb ==> BestCovers(v, cur.size, sz)) && t in m
    ensures var right := k / 0x8000_0000 == 1;
            && RemainingPath(Taken(cur, right), Untaken(cur, rst, right), v, nb, sz, all) && bits > 0
            && Rest(Untaken(cur, rst, right), Root(Untaken(cur, rst, right)), rpar', rlo', rbits',
                lo' + Pow2(bits - 1), i, m, sz, all)
            && (Taken(cur, right).Node? ==>
                AtNode(Taken(cur, right), Root(Taken(cur, right)), k * 2 % WORD, t, lo', bits - 1, nb, i, m, sz))
            && nb < lo' + Pow2(bits - 1)
  {
    hide AtNode, Rest, Ordered, Rep, RemainingPath, Best, BestCovers;
    AtNodeRange(cur, t, k, par, lo, bits, nb, i, m, sz);
    WalkBit(cur, t, k, par, lo, bits, nb, i, m, sz);
    var right := nb >= lo + Pow2(bits - 1);
    lo' := if right then lo + Pow2(bits - 1) else lo;
    rpar', rlo', rbits' :=
      PathDown(cur, t, k, par, lo, bits, rst, rt, rpar, rlo, rbits, v, rsize, i, nb, m, sz, all, right);
    if Taken(cur, right).Node? {
      WalkDown(cur, t, k, par, lo, bits, nb, i, m, sz, right, k * 2 % WORD);
    }
  }

  /** The pointers the walk reads for its next step. */
  lemma PathPointers(cur: Trie, t: int, k: nat, par: int, lo: nat, bits: nat, rst: Trie, i: nat, nb: nat, m: Mem,
                     sz: map<int, nat>, all: set<int>, right: bool)
    requires AtNode(cur, t, k, par, lo, bits, nb, i, m, sz) && Addrs(cur) <= all && t in m
    ensures var c := if right then m[t].child1 else m[t].child0;
            && c == Root(Taken(cur, right)) && (c == 0 <==> Taken(cur, right).Nil?) && Addrs(Taken(cur, right)) <= all
            && Root(Untaken(cur, rst, right)) == if m[t].child1 != 0 && m[t].child1 != c then m[t].child1 else Root(rst)
  {
    AtNodeFacts(cur, t, k, par, lo, bits, nb, i, m, sz);
    ChildrenDiffer(cur, lo, bits, sz);
  }

  lemma ChildrenDiffer(t: Trie, lo: nat, bits: nat, sz: map<int, nat>)
    requires t.Node? && Ordered(t, lo, bits, sz)
    ensures t.right.Node? ==> Root(t.left) != Root(t.right)
  {
    PartsDisjoint(t, lo, bits, sz);
    if t.right.Node? && t.left.Node? {
      assert t.left.chain[0] in t.left.chain && t.right.chain[0] in t.right.chain;
    }
    if bits > 0 { RootPositive(t.right, lo + Pow2(bits - 1), bits - 1, sz); }
  }

  /** The walk starts at the root of the bin of nb. */
  lemma PathStart(i: nat, t: Trie, slot: int, marked: bool, nb: nat, m: Mem, sz: map<int, nat>)
    requires i < NBINS && TreeBinOk(i, t, slot, marked, m, sz) && slot != 0 && LargeIn(nb, i)
    ensures Path(t, slot, SizeBits(nb, i), TreeBinAt(i), RangeLow(i), ResolvedBits(i),
        Nil, 0, 0, 0, 0, 0, WORD - nb, i, nb, m, sz, Addrs(t))
  {
    InBinRange(nb, i);
    SizeBitsInit(nb, i);
    assert AtNode(t, slot, SizeBits(nb, i), TreeBinAt(i), RangeLow(i), ResolvedBits(i), nb, i, m, sz);
    forall p | p in Addrs(t) && p in sz && sz[p] >= nb ensures Pending(p, t, Nil, 0, sz) {}
  }

  // ------------------------------ the best fit over all tree bins ------------------------------

  /** v is the smallest large binned chunk that holds nb bytes, and v is 0 exactly when there is none. */
  ghost predicate BestLarge(v: int, nb: nat, sz: map<int, nat>)
  {
    if v == 0 then forall p :: p in sz && !IsSmall(sz[p]) ==> sz[p] < nb
    else
      && v in sz && !IsSmall(sz[v]) && sz[v] >= nb
      && forall p :: p in sz && !IsSmall(sz[p]) && sz[p] >= nb ==> sz[v] <= sz[p]
  }

  /** All fitting chunks of tree bin i are at least as large as v. */
  ghost predicate CoversBin(v: int, nb: nat, t: Trie, sz: map<int, nat>)
  { forall p :: p in Addrs(t) && p in sz && sz[p] >= nb ==> BestCovers(v, sz[p], sz) }

  lemma BinOfLarge(smalls: seq<seq<int>>, tries: seq<Trie>, slots: seq<int>, map_: bv32, m: Mem, sz: map<int, nat>,
                   p: int) returns (i: nat)
    requires |smalls| == NBINS && TreesOk(tries, slots, map_, m, sz) && Covered(smalls, tries, sz) && p in sz
    requires !IsSmall(sz[p])
    ensures i < NBINS && p in Addrs(tries[i]) && LargeIn(sz[p], i) && Marked(map_, i)
  {
    hide InBin, ComputeTreeIndex, Marked, Ordered, Rep;
    TreeIndexRange(sz[p]);
    i := ComputeTreeIndex(sz[p]);
    assert InItsBin(p, sz[p], smalls, tries);
    assert TreeBinOk(i, tries[i], slots[i], Marked(map_, i), m, sz);
  }

  lemma BinMember(tries: seq<Trie>, slots: seq<int>, map_: bv32, m: Mem, sz: map<int, nat>, i: nat, v: int)
    requires TreesOk(tries, slots, map_, m, sz) && i < NBINS && v in Addrs(tries[i])
    ensures v > 0 && v in sz && LargeIn(sz[v], i) && !IsSmall(sz[v])
  {
    assert TreeBinOk(i, tries[i], slots[i], Marked(map_, i), m, sz);
    TreeSizes(i, tries[i], slots[i], Marked(map_, i), m, sz);
  }

  lemma LargeOrder(s: nat, i: nat, z: nat, j: nat)
    requires i < j < NBINS && LargeIn(s, i) && LargeIn(z, j)
    ensures s < z
  {
    BinsAscend(s, i, j);
  }

  /** A best fit in the bin of nb is a best fit over all bins. */
  lemma FitInBin(smalls: seq<seq<int>>, tries: seq<Trie>, slots: seq<int>, map_: bv32, m: Mem, sz: map<int, nat>,
                 i: nat, nb: nat, v: int)
    requires |smalls| == NBINS && TreesOk(tries, slots, map_, m, sz) && Covered(smalls, tries, sz) && i < NBINS
    requires LargeIn(nb, i)
    requires v in Addrs(tries[i]) && v in sz && sz[v] >= nb && CoversBin(v, nb, tries[i], sz)
    ensures BestLarge(v, nb, sz)
  {
    hide TreesOk, Covered, LargeIn, Addrs;
    BinMember(tries, slots, map_, m, sz, i, v);
    forall p | p in sz && !IsSmall(sz[p]) && sz[p] >= nb ensures sz[v] <= sz[p] {
      var j := BinOfLarge(smalls, tries, slots, map_, m, sz, p);
      if j < i { LargeOrder(sz[p], j, nb, i); }
      if j > i { LargeOrder(sz[v], i, sz[p], j); }
    }
  }

  /** With nothing in the bin of nb and none above but from j on, the smallest chunk of bin j is a best fit. */
  lemma FitNextBin(smalls: seq<seq<int>>, tries: seq<Trie>, slots: seq<int>, map_: bv32, m: Mem, sz: map<int, nat>,
                   i: nat, nb: nat, j: nat, v: int)
    requires |smalls| == NBINS && TreesOk(tries, slots, map_, m, sz) && Covered(smalls, tries, sz) && i < j < NBINS
    requires LargeIn(nb, i)
    requires CoversBin(0, nb, tries[i], sz) && (forall k :: i < k < j ==> !Marked(map_, k))
    requires v in Addrs(tries[j]) && CoversBin(v, nb, tries[j], sz)
    ensures BestLarge(v, nb, sz)
  {
    hide TreesOk, Covered, LargeIn, Addrs, Marked;
    BinMember(tries, slots, map_, m, sz, j, v);
    LargeOrder(nb, i, sz[v], j);
    forall p | p in sz && !IsSmall(sz[p]) && sz[p] >= nb ensures sz[v] <= sz[p] {
      var k := BinOfLarge(smalls, tries, slots, map_, m, sz, p);
      if k < i { LargeOrder(sz[p], k, nb, i); }
      if k > j { LargeOrder(sz[v], j, sz[p], k); }
    }
  }

  lemma FitNowhere(smalls: seq<seq<int>>, tries: seq<Trie>, slots: seq<int>, map_: bv32, m: Mem, sz: map<int, nat>,
                   i: nat, nb: nat)
    requires |smalls| == NBINS && TreesOk(tries, slots, map_, m, sz) && Covered(smalls, tries, sz) && i < NBINS
    requires LargeIn(nb, i)
    requires CoversBin(0, nb, tries[i], sz) && (forall k :: i < k < NBINS ==> !Marked(map_, k))
    ensures BestLarge(0, nb, sz)
  {
    hide TreesOk, Covered, LargeIn, Addrs, Marked;
    forall p | p in sz && !IsSmall(sz[p]) ensures sz[p] < nb {
      var k := BinOfLarge(smalls, tries, slots, map_, m, sz, p);
      if k < i { LargeOrder(sz[p], k, nb, i); }
    }
  }

  /** The smallest chunk of the lowest marked bin is the smallest large chunk. */
  lemma FitLowest(smalls: seq<seq<int>>, tries: seq<Trie>, slots: seq<int>, map_: bv32, m: Mem, sz: map<int, nat>,
                  nb: nat, j: nat, v: int)
    requires |smalls| == NBINS && TreesOk(tries, slots, map_, m, sz) && Covered(smalls, tries, sz) && j < NBINS
    requires nb < MIN_LARGE_SIZE
    requires (forall k :: 0 <= k < j ==> !Marked(map_, k)) && v in Addrs(tries[j]) && CoversBin(v, nb, tries[j], sz)
    ensures BestLarge(v, nb, sz)
  {
    hide TreesOk, Covered, LargeIn, Addrs, Marked;
    BinMember(tries, slots, map_, m, sz, j, v);
    forall p | p in sz && !IsSmall(sz[p]) && sz[p] >= nb ensures sz[v] <= sz[p] {
      var k := BinOfLarge(smalls, tries, slots, map_, m, sz, p);
      if k > j { LargeOrder(sz[v], j, sz[p], k); }
    }
  }

  /** A scan of all of tree bin j whose chunks are all at least nb. */
  lemma ScanWhole(tries: seq<Trie>, slots: seq<int>, map_: bv32, m: Mem, sz: map<int, nat>, j: nat, nb: nat)
    requires TreesOk(tries, slots, map_, m, sz) && j < NBINS && Marked(map_, j) && nb < WORD
    requires forall p :: p in Addrs(tries[j]) && p in sz ==> sz[p] >= nb
    ensures slots[j] != 0
    ensures Scan(tries[j], slots[j], 0, WORD - nb, TreeBinAt(j), j,
        RangeLow(j), ResolvedBits(j), nb, m, sz, Addrs(tries[j]))
  {
    assert TreeBinOk(j, tries[j], slots[j], Marked(map_, j), m, sz);
    TreeSizes(j, tries[j], slots[j], Marked(map_, j), m, sz);
    RootPositive(tries[j], RangeLow(j), ResolvedBits(j), sz);
    var t := tries[j];
    forall p | p in Addrs(t) && p in sz && sz[p] >= nb ensures Accounted(p, t, 0, sz) {}
  }

  /** While the scan is not over, some fitting chunk remains. */
  lemma ScanFinds(cur: Trie, t: int, v: int, rsize: nat, par: int, idx: nat, lo: nat, bits: nat, nb: nat, m: Mem,
                  sz: map<int, nat>, all: set<int>)
    requires Scan(cur, t, v, rsize, par, idx, lo, bits, nb, m, sz, all) && t != 0 && v == 0
    ensures t in all && t in sz && sz[t] >= nb
  {
    RootChunk(cur, par, idx, m, lo, bits, sz);
  }

  lemma TreesShape(tries: seq<Trie>, slots: seq<int>, map_: bv32, m: Mem, sz: map<int, nat>)
    requires TreesOk(tries, slots, map_, m, sz)
    ensures |tries| == NBINS && |slots| == NBINS
  {}

  lemma SmallsShape(smalls: seq<seq<int>>, map_: bv32, m: Mem, sz: map<int, nat>)
    requires SmallsOk(smalls, map_, m, sz)
    ensures |smalls| == NBINS && forall i :: 0 <= i < NBINS ==> SmallBinAt(i) in m
  {
    forall i | 0 <= i < NBINS ensures SmallBinAt(i) in m { assert SmallBinOk(i, smalls[i], Marked(map_, i), m, sz); }
  }

  lemma BinSizes(tries: seq<Trie>, slots: seq<int>, map_: bv32, m: Mem, sz: map<int, nat>, i: nat)
    requires TreesOk(tries, slots, map_, m, sz) && i < NBINS
    ensures forall p :: p in Addrs(tries[i]) ==> p > 0 && p in sz && MIN_LARGE_SIZE <= sz[p] < WORD
  {
    assert TreeBinOk(i, tries[i], slots[i], Marked(map_, i), m, sz);
    TreeSizes(i, tries[i], slots[i], Marked(map_, i), m, sz);
  }

  lemma PathStartsAt(tries: seq<Trie>, slots: seq<int>, map_: bv32, m: Mem, sz: map<int, nat>, i: nat, nb: nat)
    requires TreesOk(tries, slots, map_, m, sz) && i < NBINS && LargeIn(nb, i) && slots[i] != 0
    ensures Path(tries[i], slots[i], SizeBits(nb, i), TreeBinAt(i), RangeLow(i), ResolvedBits(i),
        Nil, 0, 0, 0, 0, 0, WORD - nb, i, nb, m, sz, Addrs(tries[i]))
  {
    assert TreeBinOk(i, tries[i], slots[i], Marked(map_, i), m, sz);
    PathStart(i, tries[i], slots[i], Marked(map_, i), nb, m, sz);
  }

  lemma ScanNothing(tries: seq<Trie>, slots: seq<int>, map_: bv32, m: Mem, sz: map<int, nat>, i: nat, nb: nat)
    requires TreesOk(tries, slots, map_, m, sz) && i < NBINS && slots[i] == 0 && nb < WORD
    ensures Scan(Nil, 0, 0, WORD - nb, 0, i, 0, 0, nb, m, sz, Addrs(tries[i]))
  {
    assert TreeBinOk(i, tries[i], slots[i], Marked(map_, i), m, sz);
    RootPositive(tries[i], RangeLow(i), ResolvedBits(i), sz);
  }

  /** The least bit left of bin i is the next marked bin. */
  lemma NextBin(left: bv32, map_: bv32, i: nat, j: nat)
    requires left != 0 && j == FirstMarked(left)
    requires forall k :: 0 <= k < 32 ==> (Marked(left, k) <==> i < k && Marked(map_, k))
    ensures i < j < 32 && Marked(map_, j) && forall k :: i < k < j ==> !Marked(map_, k)
  {
    hide Marked;
    forall k | i < k < j ensures !Marked(map_, k) { if Marked(map_, k) { FirstMarkedIsLeast(left, k); } }
  }

  lemma BinAboveFits(tries: seq<Trie>, slots: seq<int>, map_: bv32, m: Mem, sz: map<int, nat>, i: nat, nb: nat, j: nat)
    requires TreesOk(tries, slots, map_, m, sz) && i < j < NBINS && LargeIn(nb, i)
    ensures forall p :: p in Addrs(tries[j]) && p in sz ==> sz[p] >= nb
  {
    forall p | p in Addrs(tries[j]) && p in sz ensures sz[p] >= nb {
      BinMember(tries, slots, map_, m, sz, j, p);
      LargeOrder(nb, i, sz[p], j);
    }
  }

  lemma LargeBounds(s: nat, i: nat)
    requires i < NBINS && LargeIn(s, i)
    ensures MIN_LARGE_SIZE <= s < WORD
  {}

  lemma CoversAll(v: int, nb: nat, t: Trie, sz: map<int, nat>)
    requires forall p :: p in Addrs(t) ==> p in sz
    requires forall p :: p in Addrs(t) && sz[p] >= nb ==> BestCovers(v, sz[p], sz)
    ensures CoversBin(v, nb, t, sz)
  {}

  /** The fit so far; while the scan is not over without one, some fitting chunk remains. */
  lemma ScanBest(cur: Trie, t: int, v: int, rsize: nat, par: int, idx: nat, lo: nat, bits: nat, nb: nat, m: Mem,
                 sz: map<int, nat>, all: set<int>)
    requires Scan(cur, t, v, rsize, par, idx, lo, bits, nb, m, sz, all)
    ensures Best(v, rsize, nb, sz) && (t != 0 && v == 0 ==> t in all && t in sz && sz[t] >= nb)
  {
    if t != 0 && v == 0 { ScanFinds(cur, t, v, rsize, par, idx, lo, bits, nb, m, sz, all); }
  }

  lemma EmptyBins(smalls: seq<seq<int>>, tries: seq<Trie>, slots: seq<int>, m: Mem)
    requires |smalls| == NBINS && |tries| == NBINS && |slots| == NBINS
    requires forall i :: 0 <= i < NBINS ==> smalls[i] == [] && tries[i] == Nil && slots[i] == 0 && SmallBinAt(i) in m
    ensures SmallsOk(smalls, 0, m, map[]) && TreesOk(tries, slots, 0, m, map[]) && Covered(smalls, tries, map[])
  {
    hide Marked;
    forall i | 0 <= i < NBINS
      ensures SmallBinOk(i, smalls[i], Marked(0, i), m, map[])
      ensures TreeBinOk(i, tries[i], slots[i], Marked(0, i), m, map[])
    {
      EmptyMap(i);
    }
  }

  /** What unlinking a small chunk relies on. */
  lemma SmallMember(smalls: seq<seq<int>>, smallmap: bv32, tries: seq<Trie>, m: Mem, sz: map<int, nat>, p: int)
    requires SmallsOk(smalls, smallmap, m, sz) && |tries| == NBINS && Covered(smalls, tries, sz) && p in sz
    requires IsSmall(sz[p])
    ensures 2 <= sz[p] / 8 && p in smalls[sz[p] / 8] && p in m
    ensures m[p].fd in m && m[m[p].fd].bk == p && m[p].bk in m && m[m[p].bk].fd == p
    ensures p == m[SmallBinAt(sz[p] / 8)].fd ==> m[p].bk == SmallBinAt(sz[p] / 8)
  {
    var i := sz[p] / 8;
    assert InItsBin(p, sz[p], smalls, tries);
    assert SmallBinOk(i, smalls[i], Marked(smallmap, i), m, sz);
    UnlinkSmallChecks(i, smalls[i], m, sz, p);
    if p == m[SmallBinAt(i)].fd { FirstInRing(i, smalls[i], m, sz); }
  }

  /** The header links to the first chunk of a non-empty bin and back. */
  lemma FirstInRing(i: nat, list: seq<int>, m: Mem, sz: map<int, nat>)
    requires SmallBinOk(i, list, list != [], m, sz) && list != []
    ensures m[SmallBinAt(i)].fd == list[0] && list[0] in m && m[list[0]].bk == SmallBinAt(i)
  {
    var c := [SmallBinAt(i)] + list;
    assert Follows(0, 1, |c|);
    assert Linked(m, c[0], c[1]);
  }

  lemma FirstSmall(smalls: seq<seq<int>>, smallmap: bv32, m: Mem, sz: map<int, nat>, i: nat)
    requires SmallsOk(smalls, smallmap, m, sz) && i < NBINS && Marked(smallmap, i)
    ensures SmallBinAt(i) in m && m[SmallBinAt(i)].fd in sz && sz[m[SmallBinAt(i)].fd] == 8 * i
    ensures smalls[i] != [] && m[SmallBinAt(i)].fd == smalls[i][0] && Without(smalls[i], smalls[i][0]) == smalls[i][1..]
  {
    assert SmallBinOk(i, smalls[i], Marked(smallmap, i), m, sz);
    FirstInRing(i, smalls[i], m, sz);
  }

  /** The small bins of binned chunks are marked. */
  ghost predicate AllMarked(smallmap: bv32, sz: map<int, nat>)
  { forall q :: q in sz && IsSmall(sz[q]) ==> Marked(smallmap, sz[q] / 8) && sz[q] == 8 * (sz[q] / 8) }

  lemma SmallMarked(smalls: seq<seq<int>>, smallmap: bv32, tries: seq<Trie>, slots: seq<int>, treemap: bv32, m: Mem,
                    sz: map<int, nat>)
    requires SmallsOk(smalls, smallmap, m, sz) && TreesOk(tries, slots, treemap, m, sz) && Covered(smalls, tries, sz)
    ensures AllMarked(smallmap, sz)
  {
    hide Marked;
    forall q | q in sz && IsSmall(sz[q]) ensures Marked(smallmap, sz[q] / 8) && sz[q] == 8 * (sz[q] / 8) {
      assert InItsBin(q, sz[q], smalls, tries);
      assert SmallBinOk(sz[q] / 8, smalls[sz[q] / 8], Marked(smallmap, sz[q] / 8), m, sz);
    }
  }

  /** With no small bin from that of nb on and no tree bin marked, every binned chunk is too small. */
  lemma NothingFits(smalls: seq<seq<int>>, smallmap: bv32, tries: seq<Trie>, slots: seq<int>, treemap: bv32, m: Mem,
                    sz: map<int, nat>, idx: nat)
    requires SmallsOk(smalls, smallmap, m, sz) && TreesOk(tries, slots, treemap, m, sz) && Covered(smalls, tries, sz)
    requires treemap == 0 && forall j :: idx <= j < NBINS ==> !Marked(smallmap, j)
    ensures forall q :: q in sz ==> sz[q] < 8 * idx
  {
    hide TreesOk, Marked;
    TreesShape(tries, slots, treemap, m, sz);
    forall q | q in sz ensures sz[q] < 8 * idx {
      if IsSmall(sz[q]) {
        assert InItsBin(q, sz[q], smalls, tries);
        assert SmallBinOk(sz[q] / 8, smalls[sz[q] / 8], Marked(smallmap, sz[q] / 8), m, sz);
      } else {
        var i := BinOfLarge(smalls, tries, slots, treemap, m, sz, q);
        EmptyMap(i);
        assert false;
      }
    }
  }

  lemma NoTreeBins(smalls: seq<seq<int>>, tries: seq<Trie>, slots: seq<int>, m: Mem, sz: map<int, nat>, nb: nat)
    requires |smalls| == NBINS && TreesOk(tries, slots, 0, m, sz) && Covered(smalls, tries, sz)
    ensures BestLarge(0, nb, sz)
  {
    hide TreesOk, Marked, Covered;
    forall q | q in sz ensures IsSmall(sz[q]) {
      if !IsSmall(sz[q]) {
        var i := BinOfLarge(smalls, tries, slots, 0, m, sz, q);
        EmptyMap(i);
        assert false;
      }
    }
  }

  /** Link fields of a chunk that is in no bin matter to no bin. */
  lemma ForeignLinks(smalls: seq<seq<int>>, smallmap: bv32, tries: seq<Trie>, slots: seq<int>, treemap: bv32, m: Mem,
                     sz: map<int, nat>, p: int, k: Links)
    requires SmallsOk(smalls, smallmap, m, sz) && TreesOk(tries, slots, treemap, m, sz) && p > 0 && p !in sz
    ensures SmallsOk(smalls, smallmap, m[p := k], sz) && TreesOk(tries, slots, treemap, m[p := k], sz)
  {
    hide TreeBinOk, Marked;
    var m' := m[p := k];
    forall i | 0 <= i < NBINS ensures SmallBinOk(i, smalls[i], Marked(smallmap, i), m', sz) {
      SmallBinFrame(i, smalls[i], Marked(smallmap, i), m, sz, {p}, m', sz);
    }
    forall i | 0 <= i < NBINS ensures TreeBinOk(i, tries[i], slots[i], Marked(treemap, i), m', sz) {
      TreeSizes(i, tries[i], slots[i], Marked(treemap, i), m, sz);
      TreeBinFrame(i, tries[i], slots[i], Marked(treemap, i), m, sz, {p}, m', sz);
    }
  }

  /** compute_tree_index, with what its callers rely on. */
  method TreeIndexFor(s: nat) returns (i: nat)
    requires MIN_LARGE_SIZE <= s < WORD
    ensures i < NBINS && LargeIn(s, i)
  {
    i := ComputeTreeIndex(s);
    TreeIndexRange(s);
  }

  class BinIndex {
    var links: Mem
    var smallmap: bv32
    var treemap: bv32
    var treebins: seq<int>
    ghost var smalls: seq<seq<int>>
    ghost var tries: seq<Trie>
    ghost var binned: map<int, nat>

    ghost predicate Valid()
      reads this
    {
      && SmallsOk(smalls, smallmap, links, binned) && TreesOk(tries, treebins, treemap, links, binned)
      && Covered(smalls, tries, binned)
    }

    /** The head words of binned chunks record the sizes they were binned with. */
    ghost predicate Sized(head: map<int, Head>)
      reads this
    { forall p :: p in binned ==> p in head && head[p].size == binned[p] }

    /** The loop of insert_large_chunk: walk down the trie by the bits of s. */
    method FindInsertSpot(i: nat, s: nat, head: map<int, Head>) returns (spot: Spot)
      requires Valid() && Sized(head) && i < NBINS && LargeIn(s, i) && Marked(treemap, i)
      ensures tries[i].Node? && spot == FindSpot(tries[i], s, RangeLow(i), ResolvedBits(i))
      ensures spot.node in links && links[spot.node].fd in links
    {
      hide Ordered, Rep, AtNode, Marked, FindSpot, SizeBits, Shifted, InBin, SmallsOk, TreesOk, Covered, TreeBinOk;
      hide LargeIn, Pow2;
      TreeBinFacts(tries, treebins, treemap, links, binned, i, s);
      var t := treebins[i];
      var k: nat := SizeBits(s, i);
      ghost var cur, par := tries[i], TreeBinAt(i);
      ghost var lo: nat, bits: nat := RangeLow(i), ResolvedBits(i);
      SpotInTree(cur, s, lo, bits, par, i, links);
      while true
        invariant cur.Node? && AtNode(cur, t, k, par, lo, bits, s, i, links, binned)
        invariant FindSpot(tries[i], s, RangeLow(i), ResolvedBits(i)) == FindSpot(cur, s, lo, bits)
        decreases cur
      {
        AtNodeFacts(cur, t, k, par, lo, bits, s, i, links, binned);
        FindSpotStep(cur, s, lo, bits);
        if head[t].size == s {
          spot := Same(t);
          break;
        }
        WalkBit(cur, t, k, par, lo, bits, s, i, links, binned);
        var right := k / 0x8000_0000 == 1;
        var k' := k * 2 % WORD;
        var c := if right then links[t].child1 else links[t].child0;
        if c == 0 {
          spot := Child(t, right);
          break;
        }
        WalkDown(cur, t, k, par, lo, bits, s, i, links, binned, right, k');
        k, par := k', t;
        lo := if right then lo + Pow2(bits - 1) else lo;
        bits := bits - 1;
        cur := if right then cur.right else cur.left;
        t := c;
      }
    }

    /** insert_large_chunk */
    method InsertLarge(x: int, s: nat, head: map<int, Head>)
      requires Valid() && Sized(head) && x > 0 && x !in binned && !IsSmall(s) && ChunkSize(s)
      modifies this
      ensures Valid() && binned == old(binned)[x := s]
    {
      hide SmallBinOk, TreeBinOk, InItsBin, LinkAt, LargeIn;
      var i := TreeIndexFor(s);
      ghost var t';
      if !Marked(treemap, i) {
        t' := FirstChanged(smalls, smallmap, tries, treebins, treemap, links, binned, i, x, s);
        treemap := Mark(treemap, i);
        treebins := treebins[i := x];
        links := links[x := Links(x, x, 0, 0, TreeBinAt(i), i)];
      } else {
        var spot := FindInsertSpot(i, s, head);
        t' := InsertChanged(
          smalls, smallmap, tries, treebins, treemap, links, binned, i, x, s, LinkAt(links, spot, x, i));
        LinkChunk(spot, x, i);
      }
      tries := tries[i := t'];
      binned := binned[x := s];
    }

    /** The stores of insert_large_chunk at the spot found. */
    method LinkChunk(spot: Spot, x: int, i: nat)
      requires spot.node in links && links[spot.node].fd in links
      modifies this`links
      ensures links == LinkAt(old(links), spot, x, i)
    {
      match spot {
        case Child(p, right) =>
          links := links[p := SetChild(links[p], right, x)];
          links := links[x := Links(x, x, 0, 0, p, i)];
        case Same(p) =>
          var f := links[p].fd;
          links := links[p := links[p].(fd := x)];
          links := links[f := links[f].(bk := x)];
          links := links[x := Links(f, p, 0, 0, 0, i)];
      }
    }

    /** The search of unlink_large_chunk for the rightmost leaf below x, and the child slot that holds it. */
    method RightmostBelow(x: int, ghost node: Trie, ghost par: int, ghost idx: nat, ghost lo: nat, ghost bits: nat)
      returns (r: int, q: int, right: bool)
      requires node.Node? && Root(node) == x && Ordered(node, lo, bits, binned) && Rep(node, par, idx, links)
      requires x in links
      ensures r == 0 <==> IsLeaf(node)
      ensures r != 0 ==> r == Root(RightmostLeaf(node)) && (q, right) == SlotBelow(node)
    {
      ghost var cur, p := node, par;
      ghost var l: nat, b: nat := lo, bits;
      r, q, right := x, 0, false;
      while links[r].child1 != 0 || links[r].child0 != 0
        invariant cur.Node? && r == Root(cur) && r in links && Ordered(cur, l, b, binned) && Rep(cur, p, idx, links)
        invariant RightmostLeaf(cur) == RightmostLeaf(node)
        invariant cur == node ||
            (!IsLeaf(node) && SlotBelow(node) == if IsLeaf(cur) then (q, right) else SlotBelow(cur))
        decreases cur
      {
        q, right := r, links[r].child1 != 0;
        p := r;
        r := if right then links[r].child1 else links[r].child0;
        l, b, cur := if right then l + Pow2(b - 1) else l, b - 1, if right then cur.right else cur.left;
      }
      if r == x { r := 0; }
    }

    /** Step 3 of unlink_large_chunk: R, or nothing, takes the place of X in the tree. */
    method RelinkChunk(x: int, xp: int, r: int, i: nat)
      requires i < |treebins| && i < NBINS
      modifies this`links, this`treebins, this`treemap
      ensures links == Relink(old(links), x, xp, r, x == old(treebins)[i])
      ensures treebins == if x == old(treebins)[i] then old(treebins)[i := r] else old(treebins)
      ensures treemap == if x == old(treebins)[i] && r == 0 then Clear(old(treemap), i) else old(treemap)
    {
      if x == treebins[i] {
        treebins := treebins[i := r];
        if r == 0 {
          treemap := Clear(treemap, i);
        }
      } else {
        links := StoreChild(links, xp, ChildOf(links, xp, false) != x, r);
      }
      if r != 0 {
        links := SetParent(links, r, xp);
        links := AdoptChild(links, x, r, false);
        links := AdoptChild(links, x, r, true);
      }
    }

    /** Steps 1 and 2 of unlink_large_chunk: take x out of its ring, or detach the rightmost leaf below it. */
    method DetachChunk(x: int, ghost node: Trie, ghost par: int, ghost idx: nat, ghost lo: nat, ghost bits: nat)
      returns (r: int)
      requires OnNode(x, node, par, idx, lo, bits, links, binned)
      modifies this`links
      ensures r == Replacement(old(links), x, node) && links == DetachStores(old(links), x, node)
    {
      LinkFacts(node, par, idx, links, lo, bits, binned, x);
      if links[x].bk != x {
        var f := links[x].fd;
        r := links[x].bk;
        assert links[f].bk == x && links[r].fd == x;  // the corruption check cannot fire
        links := SetBk(links, f, r);
        links := SetFd(links, r, f);
      } else {
        var q, right;
        r, q, right := RightmostBelow(x, node, par, idx, lo, bits);
        if r != 0 {
          links := StoreChild(links, q, right, 0);
        }
      }
    }

    /** unlink_large_chunk */
    method UnlinkLarge(x: int)
      requires Valid() && x in binned && !IsSmall(binned[x])
      modifies this
      ensures Valid() && binned == old(binned) - {x}
    {
      hide SmallBinOk, TreeBinOk, InItsBin, OnNode, Replacement, DetachStores, Relink;
      ghost var j, node, par, lo, bits, m1, r1, m2, t' :=
        UnlinkPlan(smalls, smallmap, tries, treebins, treemap, links, binned, x);
      var i, xp := links[x].index, links[x].parent;
      var r := DetachChunk(x, node, par, i, lo, bits);
      if xp != 0 {
        RelinkChunk(x, xp, r, i);
      }
      tries := tries[i := t'];
      binned := binned - {x};
    }

    /** The last loop of tmalloc_large, and the loop of tmalloc_small: follow leftmost_child, keeping the best fit. */
    method ScanLeftmost(t0: int, v0: int, rsize0: nat, nb: nat, head: map<int, Head>, ghost tt: Trie, ghost par: int,
                        ghost idx: nat, ghost lo0: nat, ghost bits0: nat, ghost all: set<int>)
      returns (v: int, rsize: nat)
      requires Sized(head) && 0 < nb < WORD && Scan(tt, t0, v0, rsize0, par, idx, lo0, bits0, nb, links, binned, all)
      requires forall q :: q in all ==> q in binned && binned[q] < WORD
      ensures Best(v, rsize, nb, binned) && (v == v0 || v in all)
      ensures forall p :: p in all && binned[p] >= nb ==> BestCovers(v, binned[p], binned)
    {
      var t := t0;
      v, rsize := v0, rsize0;
      ghost var cur, p := tt, par;
      ghost var lo: nat, bits: nat := lo0, bits0;
      while t != 0
        invariant Scan(cur, t, v, rsize, p, idx, lo, bits, nb, links, binned, all) && (v == v0 || v in all)
        decreases cur
      {
        ScanRoot(cur, t, v, rsize, p, idx, lo, bits, nb, links, binned, all);
        var trem := (head[t].size - nb) % WORD;
        ghost var v1: int, r1: nat := v, rsize;
        if trem < rsize {
          rsize := trem;
          v := t;
        }
        lo, bits := ScanStep(cur, t, v1, r1, p, idx, lo, bits, nb, links, binned, all, v, rsize);
        p, cur := t, Leftmost(cur);
        t := if links[t].child0 != 0 then links[t].child0 else links[t].child1;
      }
      ScanEnd(cur, v, rsize, p, idx, lo, bits, nb, links, binned, all);
    }

    /** The first loop of tmalloc_large: look for a chunk of size nb in its bin. */
    method WalkForFit(t0: int, k0: nat, nb: nat, head: map<int, Head>, ghost i: nat, ghost tt0: Trie, ghost par0: int,
                      ghost lo0: nat, ghost bits0: nat, ghost all: set<int>)
      returns (t: int, v: int, rsize: nat, ghost tt: Trie, ghost par: int, ghost lo: nat, ghost bits: nat)
      requires Sized(head) && 0 < nb < WORD && (forall q :: q in all ==> q in binned && binned[q] < WORD)
      requires Path(tt0, t0, k0, par0, lo0, bits0, Nil, 0, 0, 0, 0, 0, WORD - nb, i, nb, links, binned, all)
      ensures Scan(tt, t, v, rsize, par, i, lo, bits, nb, links, binned, all) && (v == 0 || v in all)
    {
      hide AtNode, AtLeast, Ordered, Rep, RemainingPath, Best, BestCovers, Scan, Addrs;
      t, v, rsize := t0, 0, WORD - nb;
      var k: nat, rt := k0, 0;
      tt, par, lo, bits := tt0, par0, lo0, bits0;
      ghost var rst: Trie, rpar: int, rlo: nat, rbits: nat := Nil, 0, 0, 0;
      while true
        invariant Path(tt, t, k, par, lo, bits, rst, rt, rpar, rlo, rbits, v, rsize, i, nb, links, binned, all)
        invariant (v == 0 || v in all) && rsize > 0
        decreases tt
      {
        PathRoot(tt, t, k, par, lo, bits, rst, rt, rpar, rlo, rbits, v, rsize, i, nb, links, binned, all);
        var trem := (head[t].size - nb) % WORD;
        PathCompare(tt, t, k, par, lo, bits, rst, rt, rpar, rlo, rbits, v, rsize, i, nb, links, binned, all,
                    if trem < rsize then t else v, if trem < rsize then trem else rsize);
        if trem < rsize {
          v, rsize := t, trem;
          if rsize == 0 {
            PathExact(tt, t, k, par, lo, bits, v, i, nb, links, binned, all);
            break;
          }
        }
        var right := k / 0x8000_0000 == 1;
        PathPointers(tt, t, k, par, lo, bits, rst, i, nb, links, binned, all, right);
        ghost var lo';
        lo', rpar, rlo, rbits :=
          PathNext(tt, t, k, par, lo, bits, rst, rt, rpar, rlo, rbits, v, rsize, i, nb, links, binned, all);
        var r1 := links[t].child1;
        par := t;
        t := if right then links[t].child1 else links[t].child0;
        if r1 != 0 && r1 != t {
          rt := r1;
        }
        rst := Untaken(tt, rst, right);
        tt, lo, bits := Taken(tt, right), lo', bits - 1;
        if t == 0 {
          PathEnd(rst, rt, rpar, rlo, rbits, lo + Pow2(bits), v, rsize, i, nb, links, binned, all);
          t, tt, par, lo, bits := rt, rst, rpar, rlo, rbits;
          break;
        }
        k := k * 2 % WORD;
      }
    }

    /** The search of tmalloc_large: first the bin of nb, then the next marked bin above it. */
    method FindLarge(nb: nat, head: map<int, Head>) returns (v: int, rsize: nat)
      requires Valid() && Sized(head) && MIN_LARGE_SIZE <= nb < WORD
      ensures BestLarge(v, nb, binned) && rsize == if v == 0 then WORD - nb else binned[v] - nb
    {
      hide SmallsOk, TreesOk, Covered, Path, Scan, LargeIn, SizeBits, RangeLow, ResolvedBits, Addrs, Marked, Has, And;
      hide LeftBits, Idx2Bit, InBin;
      var i := TreeIndexFor(nb);
      TreesShape(tries, treebins, treemap, links, binned);
      SmallsShape(smalls, smallmap, links, binned);
      BinSizes(tries, treebins, treemap, links, binned, i);
      var t := treebins[i];
      v, rsize := 0, WORD - nb;
      ghost var tt: Trie, par: int, lo: nat, bits: nat, all := Nil, 0, 0, 0, Addrs(tries[i]);
      if t != 0 {
        PathStartsAt(tries, treebins, treemap, links, binned, i, nb);
        t, v, rsize, tt, par, lo, bits := WalkForFit(
          t, SizeBits(nb, i), nb, head, i, tries[i], TreeBinAt(i), RangeLow(i), ResolvedBits(i), all);
      } else {
        ScanNothing(tries, treebins, treemap, links, binned, i, nb);
      }
      ScanBest(tt, t, v, rsize, par, i, lo, bits, nb, links, binned, all);
      if t == 0 && v == 0 {
        ScanEnd(tt, v, rsize, par, i, lo, bits, nb, links, binned, all);
        v, rsize := FindInNextBin(i, nb, head);
      } else {
        v, rsize := ScanLeftmost(t, v, rsize, nb, head, tt, par, i, lo, bits, all);
        FitInBin(smalls, tries, treebins, treemap, links, binned, i, nb, v);
      }
    }

    /** The second part of the search of tmalloc_large, when the bin i of nb holds no fit. */
    method FindInNextBin(i: nat, nb: nat, head: map<int, Head>) returns (v: int, rsize: nat)
      requires Valid() && Sized(head) && i < NBINS && LargeIn(nb, i) && CoversBin(0, nb, tries[i], binned)
      ensures BestLarge(v, nb, binned) && rsize == if v == 0 then WORD - nb else binned[v] - nb
    {
      hide SmallBinOk, TreeBinOk, InItsBin, Scan, LargeIn, RangeLow, ResolvedBits, Addrs, Marked, Has, And, LeftBits;
      hide Idx2Bit, CoversBin;
      LargeBounds(nb, i);
      var leftbits := And(LeftBits(Idx2Bit(i)), treemap);
      forall k | 0 <= k < 32 ensures Marked(leftbits, k) <==> i < k && Marked(treemap, k) { LeftLaw(treemap, i, k); }
      v, rsize := 0, WORD - nb;
      if leftbits != 0 {
        var j := FirstMarked(leftbits);
        NextBin(leftbits, treemap, i, j);
        BinSizes(tries, treebins, treemap, links, binned, j);
        BinAboveFits(tries, treebins, treemap, links, binned, i, nb, j);
        ScanWhole(tries, treebins, treemap, links, binned, j, nb);
        var t := treebins[j];
        ghost var tt, all := tries[j], Addrs(tries[j]);
        ScanFinds(tt, t, v, rsize, TreeBinAt(j), j, RangeLow(j), ResolvedBits(j), nb, links, binned, all);
        v, rsize := ScanLeftmost(t, v, rsize, nb, head, tt, TreeBinAt(j), j, RangeLow(j), ResolvedBits(j), all);
        CoversAll(v, nb, tt, binned);
        FitNextBin(smalls, tries, treebins, treemap, links, binned, i, nb, j, v);
      } else {
        forall k: nat | k < 32 ensures !Marked(leftbits, k) { EmptyMap(k); }
        FitNowhere(smalls, tries, treebins, treemap, links, binned, i, nb);
      }
    }

    /** The search of tmalloc_small: the smallest chunk of the lowest marked tree bin. */
    method FindSmallestLarge(nb: nat, head: map<int, Head>) returns (v: int, rsize: nat)
      requires Valid() && Sized(head) && 0 < nb < MIN_LARGE_SIZE && treemap != 0
      ensures v != 0 && BestLarge(v, nb, binned) && rsize == binned[v] - nb
    {
      hide SmallsOk, TreesOk, Covered, Scan, LargeIn, RangeLow, ResolvedBits, Addrs, Marked, Has, InBin;
      var j := FirstMarked(treemap);
      forall k: nat | k < j ensures !Marked(treemap, k) { if Marked(treemap, k) { FirstMarkedIsLeast(treemap, k); } }
      TreesShape(tries, treebins, treemap, links, binned);
      SmallsShape(smalls, smallmap, links, binned);
      BinSizes(tries, treebins, treemap, links, binned, j);
      ScanWhole(tries, treebins, treemap, links, binned, j, nb);
      var t := treebins[j];
      ghost var tt, all := tries[j], Addrs(tries[j]);
      ghost var lo: nat, bits: nat := RangeLow(j), ResolvedBits(j);
      ScanRoot(tt, t, 0, WORD - nb, TreeBinAt(j), j, lo, bits, nb, links, binned, all);
      v, rsize := t, head[t].size - nb;
      lo, bits := ScanStep(tt, t, 0, WORD - nb, TreeBinAt(j), j, lo, bits, nb, links, binned, all, v, rsize);
      ghost var root := t;
      t := if links[t].child0 != 0 then links[t].child0 else links[t].child1;
      v, rsize := ScanLeftmost(t, v, rsize, nb, head, Leftmost(tt), root, j, lo, bits, all);
      FitLowest(smalls, tries, treebins, treemap, links, binned, nb, j, v);
    }

    /** init_bins: every small bin header links to itself, and no bin is marked. */
    constructor ()
      ensures Valid() && binned == map[] && smallmap == 0 && treemap == 0
    {
      links := map b | -32 <= b < 0 :: Links(b, b, 0, 0, 0, 0);
      smallmap, treemap := 0, 0;
      treebins := seq(NBINS, _ => 0);
      smalls := seq(NBINS, _ => []);
      tries := seq(NBINS, _ => Nil);
      binned := map[];
      new;
      EmptyBins(smalls, tries, treebins, links);
    }

    /** insert_small_chunk */
    method InsertSmall(p: int, s: nat)
      requires Valid() && p > 0 && p !in binned && IsSmall(s) && ChunkSize(s)
      modifies this
      ensures Valid() && binned == old(binned)[p := s] && |old(smalls)| == NBINS
      ensures smalls == old(smalls)[s / 8 := [p] + old(smalls)[s / 8]]
    {
      hide SmallBinOk, TreeBinOk, InItsBin, SmallLink, Marked, Mark;
      SmallsShape(smalls, smallmap, links, binned);
      var i := s / 8;
      var b := SmallBinAt(i);
      var f := b;
      ghost var f0 := if Marked(smallmap, i) then links[b].fd else b;
      InsertSmallChanged(
        smalls, smallmap, tries, treebins, treemap, links, binned, i, p, f0, SmallLink(links, b, f0, p));
      if !Marked(smallmap, i) {
        smallmap := Mark(smallmap, i);
      } else {
        f := links[b].fd;
      }
      LinkFirst(b, f, p);
      smalls := smalls[i := [p] + smalls[i]];
      binned := binned[p := s];
    }

    /** The stores of insert_small_chunk. */
    method LinkFirst(b: int, f: int, p: int)
      modifies this`links
      ensures links == SmallLink(old(links), b, f, p)
    {
      links := SetFd(links, b, p);
      links := SetBk(links, f, p);
      var k := if p in links then links[p] else Links(0, 0, 0, 0, 0, 0);
      links := links[p := k.(fd := f, bk := b)];
    }

    /** unlink_small_chunk */
    method UnlinkSmall(p: int, s: nat)
      requires Valid() && p in binned && binned[p] == s && IsSmall(s)
      modifies this
      ensures Valid() && binned == old(binned) - {p}
    {
      hide SmallBinOk, TreeBinOk, Marked, Clear, Without, Splice;
      var i := s / 8;
      SmallMember(smalls, smallmap, tries, links, binned, p);
      var f, b := links[p].fd, links[p].bk;
      assert links[f].bk == p && links[b].fd == p;  // the corruption check cannot fire
      ghost var m' := if f == b then links else Splice(links, p);
      UnlinkSmallChanged(smalls, smallmap, tries, treebins, treemap, links, binned, i, p, m');
      if f == b {
        smallmap := Clear(smallmap, i);
      } else {
        SpliceChunk(p);
      }
      smalls := smalls[i := Without(smalls[i], p)];
      binned := binned - {p};
    }

    /** The stores of unlink_small_chunk. */
    method SpliceChunk(p: int)
      requires p in links
      modifies this`links
      ensures links == Splice(old(links), p)
    {
      var f, b := links[p].fd, links[p].bk;
      links := SetBk(links, f, b);
      links := SetFd(links, b, f);
    }

    /** The first chunk of small bin i, unlinked: unlink_first_small_chunk. */
    method UnlinkFirstSmall(i: nat) returns (p: int)
      requires Valid() && i < NBINS && Marked(smallmap, i)
      modifies this
      ensures Valid() && p in old(binned) && old(binned)[p] == 8 * i && binned == old(binned) - {p}
      ensures |old(smalls)| == NBINS && [p] <= old(smalls)[i] && smalls == old(smalls)[i := old(smalls)[i][1..]]
    {
      hide SmallBinOk, TreeBinOk, Marked, Clear, Without;
      var b := SmallBinAt(i);
      FirstSmall(smalls, smallmap, links, binned, i);
      p := links[b].fd;
      SmallMember(smalls, smallmap, tries, links, binned, p);
      var f := links[p].fd;
      assert links[f].bk == p && links[b].fd == p;  // the corruption check cannot fire
      ghost var m' := if f == b then links else Splice(links, p);
      UnlinkSmallChanged(smalls, smallmap, tries, treebins, treemap, links, binned, i, p, m');
      if f == b {
        smallmap := Clear(smallmap, i);
      } else {
        links := SetFd(links, b, f);
        links := SetBk(links, f, b);
      }
      assert links == m';
      smalls := smalls[i := Without(smalls[i], p)];
      binned := binned - {p};
    }

    /** insert_chunk */
    method Insert(p: int, s: nat, head: map<int, Head>)
      requires Valid() && Sized(head) && p > 0 && p !in binned && ChunkSize(s)
      modifies this
      ensures Valid() && binned == old(binned)[p := s]
    {
      if IsSmall(s) { InsertSmall(p, s); } else { InsertLarge(p, s, head); }
    }

    /** unlink_chunk */
    method Unlink(p: int, s: nat)
      requires Valid() && p in binned && binned[p] == s
      modifies this
      ensures Valid() && binned == old(binned) - {p}
    {
      if IsSmall(s) { UnlinkSmall(p, s); } else { UnlinkLarge(p); }
    }

    /** Client data where the link fields of a used chunk would be. */
    method Overwrite(p: int, k: Links)
      requires Valid() && p > 0 && p !in binned
      modifies this`links
      ensures Valid()
    {
      hide SmallsOk, TreesOk, Covered;
      ForeignLinks(smalls, smallmap, tries, treebins, treemap, links, binned, p, k);
      links := links[p := k];
    }
  }
}
