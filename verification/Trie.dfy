/** The abstract value of one tree bin: a bitwise trie over chunk sizes.
    Each node stands for one size; its chain lists the chunks of that size in fd order,
    the first being the one that is linked into the tree. */
module Trie {
  import opened TreeIndex

  datatype Trie = Nil | Node(size: nat, chain: seq<int>, left: Trie, right: Trie)

  function Root(t: Trie): int
  { if t.Node? && |t.chain| > 0 then t.chain[0] else 0 }

  function Elems(c: seq<int>): set<int> { set p | p in c }

  function Addrs(t: Trie): set<int>
  {
    match t
    case Nil => {}
    case Node(_, chain, l, r) => Elems(chain) + Addrs(l) + Addrs(r)
  }

  function Sizes(t: Trie): set<nat>
  {
    match t
    case Nil => {}
    case Node(s, _, l, r) => {s} + Sizes(l) + Sizes(r)
  }

  function Height(t: Trie): nat
  {
    match t
    case Nil => 0
    case Node(_, _, l, r) => 1 + if Height(l) > Height(r) then Height(l) else Height(r)
  }

  ghost predicate NoDup(c: seq<int>)
  { forall i, j :: 0 <= i < j < |c| ==> c[i] != c[j] }

  /** A chain holds distinct chunks, all of the node's size. */
  ghost predicate ChainOk(c: seq<int>, s: nat, sz: map<int, nat>)
  { |c| > 0 && NoDup(c) && forall i :: 0 <= i < |c| ==> c[i] in sz && sz[c[i]] == s && c[i] > 0 }

  /** The trie invariant for the size range [lo, lo + 2^bits): one node per size, the left subtree holding the
      sizes of the lower half of the range and the right subtree those of the upper half. */
  ghost predicate Ordered(t: Trie, lo: nat, bits: nat, sz: map<int, nat>)
    decreases t
  {
    match t
    case Nil => true
    case Node(s, chain, l, r) =>
      && ChainOk(chain, s, sz)
      && lo <= s < lo + Pow2(bits)
      && s !in Sizes(l) && s !in Sizes(r)
      && (if bits == 0 then l == Nil && r == Nil else
           Ordered(l, lo, bits - 1, sz) && Ordered(r, lo + Pow2(bits - 1), bits - 1, sz))
  }

  /**
   * Sizes of a subtree lie in its range, chunks carry the size of their node, and the height is bounded by the bits
   * left.
   */
  lemma {:induction false} OrderedFacts(t: Trie, lo: nat, bits: nat, sz: map<int, nat>)
    requires Ordered(t, lo, bits, sz)
    ensures forall s :: s in Sizes(t) ==> lo <= s < lo + Pow2(bits)
    ensures forall p :: p in Addrs(t) ==> p in sz && sz[p] in Sizes(t) && p > 0
    ensures Height(t) <= bits + 1
  {
    if t.Node? && bits > 0 {
      OrderedFacts(t.left, lo, bits - 1, sz);
      OrderedFacts(t.right, lo + Pow2(bits - 1), bits - 1, sz);
    }
  }

  /** The three parts of a node share no chunk. */
  lemma PartsDisjoint(t: Trie, lo: nat, bits: nat, sz: map<int, nat>)
    requires t.Node? && Ordered(t, lo, bits, sz)
    ensures forall p :: p in t.chain ==> p !in Addrs(t.left) && p !in Addrs(t.right)
    ensures forall p :: p in Addrs(t.left) ==> p !in Addrs(t.right)
  {
    if bits > 0 {
      OrderedFacts(t.left, lo, bits - 1, sz);
      OrderedFacts(t.right, lo + Pow2(bits - 1), bits - 1, sz);
    }
  }

  lemma {:induction false} OrderedFrame(t: Trie, lo: nat, bits: nat, sz: map<int, nat>, sz': map<int, nat>)
    requires Ordered(t, lo, bits, sz)
    requires forall p :: p in Addrs(t) ==> p in sz && p in sz' && sz'[p] == sz[p]
    ensures Ordered(t, lo, bits, sz')
  {
    if t.Node? {
      assert forall i :: 0 <= i < |t.chain| ==> t.chain[i] in Addrs(t);
      if bits > 0 {
        OrderedFrame(t.left, lo, bits - 1, sz, sz');
        OrderedFrame(t.right, lo + Pow2(bits - 1), bits - 1, sz, sz');
      }
    }
  }

  // ------------------------------ insertion ------------------------------

  /** insert_large_chunk on the abstract trie. */
  function Insert(t: Trie, x: int, s: nat, lo: nat, bits: nat): Trie
    decreases t
  {
    match t
    case Nil => Node(s, [x], Nil, Nil)
    case Node(size, chain, l, r) =>
      if size == s then
        (if |chain| == 0 then Node(s, [x], l, r) else Node(s, [chain[0], x] + chain[1..], l, r))
      else if bits == 0 then t
      else if s < lo + Pow2(bits - 1) then Node(size, chain, Insert(l, x, s, lo, bits - 1), r)
      else Node(size, chain, l, Insert(r, x, s, lo + Pow2(bits - 1), bits - 1))
  }

  lemma ChainInsert(c: seq<int>, x: int, s: nat, sz: map<int, nat>)
    requires ChainOk(c, s, sz) && x > 0 && x in sz && sz[x] == s && x !in c
    ensures var c' := [c[0], x] + c[1..];
            ChainOk(c', s, sz) && Elems(c') == Elems(c) + {x}
  {
    var c' := [c[0], x] + c[1..];
    assert forall i :: 2 <= i < |c'| ==> c'[i] == c[i - 1];
    assert forall i :: 1 <= i < |c| ==> c[i] == c'[i + 1];
  }

  /** Insertion keeps the trie invariant and adds exactly the new chunk. */
  lemma {:induction false} InsertOk(t: Trie, x: int, s: nat, lo: nat, bits: nat, sz: map<int, nat>)
    requires Ordered(t, lo, bits, sz)
    requires lo <= s < lo + Pow2(bits) && x > 0 && x in sz && sz[x] == s && x !in Addrs(t)
    ensures var t' := Insert(t, x, s, lo, bits);
            && Ordered(t', lo, bits, sz)
            && (forall p :: p in Addrs(t') <==> p in Addrs(t) || p == x)
            && (forall z :: z in Sizes(t') <==> z in Sizes(t) || z == s)
  {
    if t.Node? {
      if t.size == s {
        ChainInsert(t.chain, x, s, sz);
      } else {
        assert bits > 0;
        if s < lo + Pow2(bits - 1) {
          InsertOk(t.left, x, s, lo, bits - 1, sz);
        } else {
          InsertOk(t.right, x, s, lo + Pow2(bits - 1), bits - 1, sz);
        }
      }
    }
  }

  lemma InsertOrdered(t: Trie, lo: nat, bits: nat, sz: map<int, nat>, x: int, s: nat)
    requires Ordered(t, lo, bits, sz) && x > 0 && x in sz && sz[x] == s && lo <= s < lo + Pow2(bits) && x !in Addrs(t)
    ensures Ordered(Insert(t, x, s, lo, bits), lo, bits, sz)
  {
    InsertOk(t, x, s, lo, bits, sz);
  }

  lemma InsertAddrs(t: Trie, lo: nat, bits: nat, sz: map<int, nat>, x: int, s: nat)
    requires Ordered(t, lo, bits, sz) && x > 0 && x in sz && sz[x] == s && lo <= s < lo + Pow2(bits) && x !in Addrs(t)
    ensures Addrs(Insert(t, x, s, lo, bits)) == Addrs(t) + {x}
  {
    InsertOk(t, x, s, lo, bits, sz);
  }

  lemma OneChunk(x: int, s: nat, lo: nat, bits: nat, sz: map<int, nat>)
    requires lo <= s < lo + Pow2(bits) && x > 0 && x in sz && sz[x] == s
    ensures Ordered(Node(s, [x], Nil, Nil), lo, bits, sz)
  {
    assert Ordered(Nil, lo, bits, sz);
    if bits > 0 { assert Ordered(Nil, lo, bits - 1, sz) && Ordered(Nil, lo + Pow2(bits - 1), bits - 1, sz); }
  }

  lemma NewChunk(t: Trie, lo: nat, bits: nat, sz: map<int, nat>, x: int, s: nat)
    requires Ordered(t, lo, bits, sz) && x !in sz
    ensures Ordered(t, lo, bits, sz[x := s]) && x !in Addrs(t)
  {
    OrderedFacts(t, lo, bits, sz);
    OrderedFrame(t, lo, bits, sz, sz[x := s]);
  }

  // ------------------------------ removal ------------------------------

  /** The rightmost leaf: follow the right child, or the left one where there is no right. */
  function RightmostLeaf(t: Trie): Trie
    requires t.Node?
    ensures RightmostLeaf(t).Node?
  {
    if t.right.Node? then RightmostLeaf(t.right)
    else if t.left.Node? then RightmostLeaf(t.left)
    else t
  }

  function DropRightmost(t: Trie): Trie
    requires t.Node?
  {
    if t.right.Node? then t.(right := DropRightmost(t.right))
    else if t.left.Node? then t.(left := DropRightmost(t.left))
    else Nil
  }

  /** Detaching the rightmost leaf loses exactly the chunks and the size of that leaf. */
  lemma {:induction false} DropShape(t: Trie)
    requires t.Node?
    ensures var leaf, rest := RightmostLeaf(t), DropRightmost(t);
            && (forall p :: p in Addrs(t) <==> p in Addrs(rest) || p in leaf.chain)
            && (forall z :: z in Sizes(t) <==> z in Sizes(rest) || z == leaf.size)
  {
    if t.right.Node? { DropShape(t.right); } else if t.left.Node? { DropShape(t.left); }
  }

  /** Detaching the rightmost leaf keeps the invariant. */
  lemma {:induction false} DropOrdered(t: Trie, lo: nat, bits: nat, sz: map<int, nat>)
    requires t.Node? && Ordered(t, lo, bits, sz)
    ensures var leaf, rest := RightmostLeaf(t), DropRightmost(t);
            && Ordered(rest, lo, bits, sz) && ChainOk(leaf.chain, leaf.size, sz) && leaf.size !in Sizes(rest)
  {
    if t.right.Node? {
      DropShape(t.right);
      DropOrdered(t.right, lo + Pow2(bits - 1), bits - 1, sz);
      HalvesApart(t, lo, bits, sz);
    } else if t.left.Node? {
      DropShape(t.left);
      DropOrdered(t.left, lo, bits - 1, sz);
    }
  }

  lemma HalvesApart(t: Trie, lo: nat, bits: nat, sz: map<int, nat>)
    requires t.Node? && Ordered(t, lo, bits, sz)
    ensures forall z :: z in Sizes(t.left) ==> z !in Sizes(t.right)
  {
    if bits > 0 {
      OrderedFacts(t.left, lo, bits - 1, sz);
      OrderedFacts(t.right, lo + Pow2(bits - 1), bits - 1, sz);
    }
  }

  /** x taken out of its ring. If x was the node linked into the tree, its bk neighbour takes its place at the front. */
  function ChainRemove(c: seq<int>, x: int): seq<int>
    requires |c| > 1 && x in c
  {
    if c[0] == x then [c[|c| - 1]] + c[1..|c| - 1]
    else var k := IndexOf(c, x); c[..k] + c[k + 1..]
  }

  function IndexOf(c: seq<int>, x: int): (k: nat)
    requires x in c
    ensures k < |c| && c[k] == x
  { if c[0] == x then 0 else 1 + IndexOf(c[1..], x) }

  /** Where the element at index i of c without index k came from. */
  function Skip(i: nat, k: nat): nat { if i < k then i else i + 1 }

  lemma RemoveAt(c: seq<int>, k: nat, q: int)
    requires NoDup(c) && k < |c|
    ensures var c' := c[..k] + c[k + 1..];
            && (q in c' <==> q in c && q != c[k])
            && forall i :: 0 <= i < |c'| ==> c'[i] == c[Skip(i, k)]
  {
    var c' := c[..k] + c[k + 1..];
    if q in c && q != c[k] {
      var i :| 0 <= i < |c| && c[i] == q;
      assert c'[if i < k then i else i - 1] == q;
    }
  }

  lemma LastFirst(c: seq<int>, q: int)
    requires NoDup(c) && |c| > 1
    ensures var c' := [c[|c| - 1]] + c[1..|c| - 1];
            && (q in c' <==> q in c && q != c[0])
            && forall i :: 0 <= i < |c'| ==> c'[i] == c[if i == 0 then |c| - 1 else i]
  {
    var c' := [c[|c| - 1]] + c[1..|c| - 1];
    if q in c && q != c[0] {
      var i :| 0 <= i < |c| && c[i] == q;
      assert c'[if i == |c| - 1 then 0 else i] == q;
    }
  }

  lemma ChainRemoveElems(c: seq<int>, x: int)
    requires NoDup(c) && |c| > 1 && x in c
    ensures NoDup(ChainRemove(c, x)) && forall q :: q in ChainRemove(c, x) <==> q in c && q != x
  {
    hide IndexOf;
    forall q ensures q in ChainRemove(c, x) <==> q in c && q != x {
      if c[0] == x { LastFirst(c, q); } else { RemoveAt(c, IndexOf(c, x), q); }
    }
    if c[0] == x { LastFirst(c, x); } else { RemoveAt(c, IndexOf(c, x), x); }
  }

  lemma ChainRemoveOk(c: seq<int>, x: int, s: nat, sz: map<int, nat>)
    requires ChainOk(c, s, sz) && |c| > 1 && x in c
    ensures var c' := ChainRemove(c, x);
            ChainOk(c', s, sz) && Elems(c') == Elems(c) - {x}
  {
    hide ChainRemove, IndexOf;
    ChainRemoveElems(c, x);
    var c' := ChainRemove(c, x);
    ChainRemoveLength(c, x);
    forall i | 0 <= i < |c'| ensures c'[i] in sz && sz[c'[i]] == s && c'[i] > 0 {
      var q := c'[i];
      assert q in c' && q in c;
    }
  }

  lemma ChainRemoveLength(c: seq<int>, x: int)
    requires |c| > 1 && x in c
    ensures |ChainRemove(c, x)| == |c| - 1
  {}

  predicate IsLeaf(t: Trie) { t.Node? && t.left.Nil? && t.right.Nil? }

  /** A node that lost its last chunk: the rightmost leaf below it takes its place. */
  function ReplaceByLeaf(t: Trie): Trie
    requires t.Node?
  {
    if IsLeaf(t) then Nil
    else
      var leaf, rest := RightmostLeaf(t), DropRightmost(t);
      Node(leaf.size, leaf.chain, rest.left, rest.right)
  }

  lemma ReplaceByLeafOk(t: Trie, lo: nat, bits: nat, sz: map<int, nat>)
    requires t.Node? && Ordered(t, lo, bits, sz)
    ensures var t' := ReplaceByLeaf(t);
            && Ordered(t', lo, bits, sz)
            && (forall z :: z in Sizes(t') ==> z in Sizes(t))
            && (forall p :: p in Addrs(t') <==> p in Addrs(t) && p !in t.chain)
  {
    if !IsLeaf(t) {
      PartsDisjoint(t, lo, bits, sz);
      DropOrdered(t, lo, bits, sz);
      DropShape(t);
      LeafBelow(t, lo, bits, sz);
    }
  }

  lemma LeafBelow(t: Trie, lo: nat, bits: nat, sz: map<int, nat>)
    requires t.Node? && Ordered(t, lo, bits, sz) && !IsLeaf(t)
    ensures var leaf, rest := RightmostLeaf(t), DropRightmost(t);
            && rest.Node? && rest.size == t.size && rest.chain == t.chain
            && lo <= leaf.size < lo + Pow2(bits)
            && (forall p :: p in leaf.chain ==> p in Addrs(t.left) || p in Addrs(t.right))
            && (forall p :: p in Addrs(rest.left) ==> p in Addrs(t.left))
            && (forall p :: p in Addrs(rest.right) ==> p in Addrs(t.right))
  {
    OrderedFacts(t, lo, bits, sz);
    DropShape(if t.right.Node? then t.right else t.left);
    DropShape(t);
  }

  /** unlink_large_chunk on the abstract trie. */
  function Unlink(t: Trie, x: int): Trie
    requires x in Addrs(t)
  {
    if x in t.chain then
      if |t.chain| > 1 then t.(chain := ChainRemove(t.chain, x)) else ReplaceByLeaf(t)
    else if x in Addrs(t.left) then t.(left := Unlink(t.left, x))
    else t.(right := Unlink(t.right, x))
  }

  /** Unlinking keeps the trie invariant and removes exactly x. */
  lemma {:induction false} UnlinkOk(t: Trie, x: int, lo: nat, bits: nat, sz: map<int, nat>)
    requires Ordered(t, lo, bits, sz) && x in Addrs(t)
    ensures var t' := Unlink(t, x);
            && Ordered(t', lo, bits, sz)
            && (forall p :: p in Addrs(t') <==> p in Addrs(t) && p != x)
            && (forall z :: z in Sizes(t') ==> z in Sizes(t))
  {
    PartsDisjoint(t, lo, bits, sz);
    if x in t.chain {
      if |t.chain| > 1 {
        ChainRemoveOk(t.chain, x, t.size, sz);
      } else {
        assert t.chain == [x];
        ReplaceByLeafOk(t, lo, bits, sz);
      }
    } else {
      assert bits > 0;
      if x in Addrs(t.left) {
        UnlinkOk(t.left, x, lo, bits - 1, sz);
      } else {
        UnlinkOk(t.right, x, lo + Pow2(bits - 1), bits - 1, sz);
      }
    }
  }

  lemma UnlinkOrdered(t: Trie, lo: nat, bits: nat, sz: map<int, nat>, x: int)
    requires Ordered(t, lo, bits, sz) && x in Addrs(t)
    ensures Ordered(Unlink(t, x), lo, bits, sz)
  {
    UnlinkOk(t, x, lo, bits, sz);
  }

  lemma UnlinkAddrs(t: Trie, lo: nat, bits: nat, sz: map<int, nat>, x: int)
    requires Ordered(t, lo, bits, sz) && x in Addrs(t)
    ensures Addrs(Unlink(t, x)) == Addrs(t) - {x}
  {
    UnlinkOk(t, x, lo, bits, sz);
  }

  lemma GoneChunk(t: Trie, lo: nat, bits: nat, sz: map<int, nat>, x: int)
    requires Ordered(t, lo, bits, sz) && x !in Addrs(t)
    ensures Ordered(t, lo, bits, sz - {x})
  {
    OrderedFacts(t, lo, bits, sz);
    OrderedFrame(t, lo, bits, sz, sz - {x});
  }
}
