/** The search of tmalloc_large and tmalloc_small, as steps on the trie it walks. */
module BestFit {
  import opened TreeIndex
  import opened Trie

  /** The best chunk so far: v with remainder rsize, or none with the remainder -nb. */
  ghost predicate Best(v: int, rsize: int, nb: nat, sz: map<int, nat>)
  {
    if v == 0 then rsize == WORD - nb
    else v in sz && nb <= sz[v] < WORD && rsize == sz[v] - nb
  }

  /** No chunk of the non-empty trie t is larger than z. */
  ghost predicate Above(t: Trie, z: nat, sz: map<int, nat>)
  { t.Node? && |t.chain| > 0 && forall q :: q in Addrs(t) ==> q in sz && sz[q] <= z }

  ghost predicate BestCovers(v: int, z: nat, sz: map<int, nat>)
  { v != 0 && v in sz && sz[v] <= z }

  /** A fitting chunk is below t, or no better than v, or no better than all of t. */
  ghost predicate Accounted(p: int, t: Trie, v: int, sz: map<int, nat>)
    requires p in sz
  { p in Addrs(t) || BestCovers(v, sz[p], sz) || Above(t, sz[p], sz) }

  ghost predicate Remaining(t: Trie, v: int, nb: nat, sz: map<int, nat>, all: set<int>)
  { forall p :: p in all && p in sz && sz[p] >= nb ==> Accounted(p, t, v, sz) }

  /** trem < rsize, with trem = chunksize(t) - nb in 32 bits, picks the better fit. */
  lemma CompareFit(s: nat, v: int, rsize: int, nb: nat, sz: map<int, nat>)
    requires Best(v, rsize, nb, sz) && s < WORD && 0 < nb < WORD
    ensures (s - nb) % WORD < rsize <==> s >= nb && !(v != 0 && sz[v] <= s)
  {
    if s < nb { assert (s - nb) % WORD == s - nb + WORD; } else { assert (s - nb) % WORD == s - nb; }
  }

  function Leftmost(t: Trie): Trie
    requires t.Node?
  { if t.left.Node? then t.left else t.right }

  /** Every chunk of t has at least size z. */
  ghost predicate AtLeast(t: Trie, z: nat, sz: map<int, nat>)
  { forall q :: q in Addrs(t) ==> q in sz && sz[q] >= z }

  /** One step towards the leftmost leaf: the root of t has been compared, the search goes on in leftmost_child. */
  lemma LeftmostStep(t: Trie, v: int, nb: nat, sz: map<int, nat>, all: set<int>, lo: nat, bits: nat)
    requires t.Node? && Ordered(t, lo, bits, sz) && Remaining(t, v, nb, sz, all)
    requires t.size >= nb ==> BestCovers(v, t.size, sz)
    requires AtLeast(t, nb, sz) || BestCovers(v, nb, sz)
    ensures Remaining(Leftmost(t), v, nb, sz, all)
  {
    var c := Leftmost(t);
    if bits > 0 {
      OrderedFacts(t.left, lo, bits - 1, sz);
      OrderedFacts(t.right, lo + Pow2(bits - 1), bits - 1, sz);
    }
    var q := t.chain[0];
    assert q in t.chain && q in Addrs(t);
    forall p | p in all && p in sz && sz[p] >= nb ensures Accounted(p, c, v, sz) {
      assert Accounted(p, t, v, sz);
      if p in Addrs(t) {
        if p in t.chain { assert sz[p] == t.size; }
      }
    }
  }

  /** The same while the exact-fit path is being walked: rst is the deepest right subtree not taken. */
  ghost predicate Pending(p: int, t: Trie, rst: Trie, v: int, sz: map<int, nat>)
    requires p in sz
  { p in Addrs(t) || p in Addrs(rst) || BestCovers(v, sz[p], sz) || Above(rst, sz[p], sz) }

  ghost predicate RemainingPath(t: Trie, rst: Trie, v: int, nb: nat, sz: map<int, nat>, all: set<int>)
  { forall p :: p in all && p in sz && sz[p] >= nb ==> Pending(p, t, rst, v, sz) }

  /** The subtree taken for nb, and the deepest untaken right subtree afterwards. */
  function Taken(t: Trie, right: bool): Trie
    requires t.Node?
  { if right then t.right else t.left }

  function Untaken(t: Trie, rst: Trie, right: bool): Trie
    requires t.Node?
  { if !right && t.right.Node? then t.right else rst }

  /** One step of the walk for an exact fit of nb; the root of t has been compared. */
  lemma PathStep(t: Trie, rst: Trie, v: int, nb: nat, sz: map<int, nat>, all: set<int>, lo: nat, bits: nat, right: bool)
    requires t.Node? && Ordered(t, lo, bits, sz) && bits > 0 && RemainingPath(t, rst, v, nb, sz, all)
    requires lo <= nb < lo + Pow2(bits) && (right <==> nb >= lo + Pow2(bits - 1))
    requires AtLeast(rst, lo + Pow2(bits), sz)
    requires t.size >= nb ==> BestCovers(v, t.size, sz)
    ensures RemainingPath(Taken(t, right), Untaken(t, rst, right), v, nb, sz, all)
  {
    var t', rst' := Taken(t, right), Untaken(t, rst, right);
    forall p | p in all && p in sz && sz[p] >= nb ensures Pending(p, t', rst', v, sz) {
      assert Pending(p, t, rst, v, sz);
      if p in Addrs(t) {
        PathStepIn(t, p, rst, v, nb, sz, lo, bits, right);
      } else if rst' != rst && !BestCovers(v, sz[p], sz) {
        if p !in Addrs(rst) {
          var q := rst.chain[0];
          assert q in rst.chain && q in Addrs(rst);
        }
        RightBelow(t, sz, lo, bits, sz[p]);
      }
    }
  }

  lemma RightBelow(t: Trie, sz: map<int, nat>, lo: nat, bits: nat, z: nat)
    requires t.Node? && Ordered(t, lo, bits, sz) && bits > 0 && t.right.Node? && z >= lo + Pow2(bits)
    ensures Above(t.right, z, sz)
  {
    OrderedFacts(t.right, lo + Pow2(bits - 1), bits - 1, sz);
  }

  lemma PathStepIn(t: Trie, p: int, rst: Trie, v: int, nb: nat, sz: map<int, nat>, lo: nat, bits: nat, right: bool)
    requires t.Node? && Ordered(t, lo, bits, sz) && bits > 0 && p in Addrs(t) && p in sz && sz[p] >= nb
    requires lo <= nb < lo + Pow2(bits) && (right <==> nb >= lo + Pow2(bits - 1))
    requires t.size >= nb ==> BestCovers(v, t.size, sz)
    ensures Pending(p, Taken(t, right), Untaken(t, rst, right), v, sz)
  {
    OrderedFacts(t.left, lo, bits - 1, sz);
    if p in t.chain { assert sz[p] == t.size; }
  }

  lemma UntakenAtLeast(t: Trie, rst: Trie, sz: map<int, nat>, lo: nat, bits: nat, right: bool)
    requires t.Node? && Ordered(t, lo, bits, sz) && bits > 0 && AtLeast(rst, lo + Pow2(bits), sz)
    ensures AtLeast(Untaken(t, rst, right), (if right then lo + Pow2(bits - 1) else lo) + Pow2(bits - 1), sz)
  {
    OrderedFacts(t.right, lo + Pow2(bits - 1), bits - 1, sz);
  }
}
