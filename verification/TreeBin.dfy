/** How a trie lies in memory: chunks linked by fd, bk, child and parent pointers. */
module TreeBin {
  import opened TreeIndex
  import opened Trie

  /** The link fields of a free chunk. The fd and bk fields are shared by list and tree chunks. */
  datatype Links = Links(fd: int, bk: int, child0: int, child1: int, parent: int, index: nat)

  type Mem = map<int, Links>

  /** q follows p in a list or ring. */
  predicate Linked(m: Mem, p: int, q: int)
  { p in m && q in m && m[p].fd == q && m[q].bk == p }

  /** Position j follows position i on a ring of n. */
  predicate Follows(i: int, j: int, n: int)
  { 0 <= i < n && 0 <= j < n && (j == i + 1 || (j == 0 && i == n - 1)) }

  /** The chunks of c form a doubly linked ring. */
  ghost predicate Ring(c: seq<int>, m: Mem)
  { forall i, j {:trigger Follows(i, j, |c|)} :: Follows(i, j, |c|) ==> Linked(m, c[i], c[j]) }

  /** Only the first chunk of a chain is linked into the tree. */
  ghost predicate ChainLinks(c: seq<int>, par: int, child0: int, child1: int, idx: nat, m: Mem)
  {
    && |c| > 0 && Ring(c, m) && (forall i :: 0 <= i < |c| ==> c[i] in m)
    && m[c[0]].parent == par && m[c[0]].child0 == child0 && m[c[0]].child1 == child1
    && (forall i :: 0 <= i < |c| ==> m[c[i]].index == idx)
    && (forall i :: 1 <= i < |c| ==> m[c[i]].parent == 0 && m[c[i]].child0 == 0 && m[c[i]].child1 == 0)
  }

  /** Memory m holds trie t, hanging from parent par in bin idx. */
  ghost predicate Rep(t: Trie, par: int, idx: nat, m: Mem)
  {
    match t
    case Nil => true
    case Node(_, c, l, r) =>
      ChainLinks(c, par, Root(l), Root(r), idx, m) && Rep(l, c[0], idx, m) && Rep(r, c[0], idx, m)
  }

  lemma ChainFrame(c: seq<int>, par: int, c0: int, c1: int, idx: nat, m: Mem, m': Mem)
    requires ChainLinks(c, par, c0, c1, idx, m)
    requires forall i :: 0 <= i < |c| ==> c[i] in m' && m'[c[i]] == m[c[i]]
    ensures ChainLinks(c, par, c0, c1, idx, m')
  {
    forall i, j | Follows(i, j, |c|) ensures Linked(m', c[i], c[j]) {
      assert Linked(m, c[i], c[j]);
    }
  }

  /** Two memories agree on a set of chunks. */
  ghost predicate SameOn(a: set<int>, m: Mem, m': Mem)
  { forall p :: p in a && p in m ==> p in m' && m'[p] == m[p] }

  lemma {:induction false} RepFrame(t: Trie, par: int, idx: nat, m: Mem, m': Mem)
    requires Rep(t, par, idx, m) && SameOn(Addrs(t), m, m')
    ensures Rep(t, par, idx, m')
  {
    if t.Node? {
      var c := t.chain;
      forall i | 0 <= i < |c| ensures c[i] in m' && m'[c[i]] == m[c[i]] {
        var p := c[i];
        assert p in m && p in Addrs(t);
      }
      ChainFrame(c, par, Root(t.left), Root(t.right), idx, m, m');
      RepFrame(t.left, c[0], idx, m, m');
      RepFrame(t.right, c[0], idx, m, m');
    }
  }

  lemma {:induction false} RepInMem(t: Trie, par: int, idx: nat, m: Mem)
    requires Rep(t, par, idx, m)
    ensures Addrs(t) <= m.Keys
  {
    if t.Node? {
      RepInMem(t.left, t.chain[0], idx, m);
      RepInMem(t.right, t.chain[0], idx, m);
    }
  }

  // ------------------------------ insertion ------------------------------

  /** Where insert_large_chunk stops: at a free child slot, or at the node of the same size. */
  datatype Spot = Child(node: int, right: bool) | Same(node: int)

  function FindSpot(t: Trie, s: nat, lo: nat, bits: nat): Spot
    requires t.Node?
    decreases t
  {
    if t.size == s || bits == 0 then Same(Root(t))
    else if s < lo + Pow2(bits - 1) then
      if t.left.Nil? then Child(Root(t), false) else FindSpot(t.left, s, lo, bits - 1)
    else
      if t.right.Nil? then Child(Root(t), true) else FindSpot(t.right, s, lo + Pow2(bits - 1), bits - 1)
  }

  /** The child of t on the side that holds size s. */
  function Side(t: Trie, s: nat, lo: nat, bits: nat): Trie
    requires t.Node? && bits > 0
  { if s < lo + Pow2(bits - 1) then t.left else t.right }

  lemma FindSpotStep(t: Trie, s: nat, lo: nat, bits: nat)
    requires t.Node?
    ensures t.size == s ==> FindSpot(t, s, lo, bits) == Same(Root(t))
    ensures t.size != s && bits > 0 && Side(t, s, lo, bits).Nil? ==>
        FindSpot(t, s, lo, bits) == Child(Root(t), s >= lo + Pow2(bits - 1))
    ensures t.size != s && bits > 0 && Side(t, s, lo, bits).Node? ==>
              FindSpot(t, s, lo, bits) == FindSpot(
                  Side(t, s, lo, bits), s, if s < lo + Pow2(bits - 1) then lo else lo + Pow2(bits - 1), bits - 1)
  {}

  function SetChild(k: Links, right: bool, c: int): Links
  { if right then k.(child1 := c) else k.(child0 := c) }

  /** The stores of insert_large_chunk at the spot it found. */
  function LinkAt(m: Mem, spot: Spot, x: int, idx: nat): Mem
    requires spot.node in m && m[spot.node].fd in m
  {
    match spot
    case Child(p, right) => m[p := SetChild(m[p], right, x)][x := Links(x, x, 0, 0, p, idx)]
    case Same(t) =>
      var f := m[t].fd;
      var m1 := m[t := m[t].(fd := x)];
      var m2 := m1[f := m1[f].(bk := x)];
      m2[x := Links(f, t, 0, 0, 0, idx)]
  }

  lemma NextInChain(c: seq<int>, m: Mem)
    requires |c| > 0 && Ring(c, m)
    ensures c[0] in m && m[c[0]].fd == if |c| > 1 then c[1] else c[0]
  {
    assert Follows(0, if |c| > 1 then 1 else 0, |c|);
  }

  lemma {:induction false} SpotInTree(t: Trie, s: nat, lo: nat, bits: nat, par: int, idx: nat, m: Mem)
    requires t.Node? && Rep(t, par, idx, m)
    ensures var sp := FindSpot(t, s, lo, bits);
            sp.node in Addrs(t) && sp.node in m && m[sp.node].fd in Addrs(t) && m[sp.node].fd in m
    decreases t
  {
    NextInChain(t.chain, m);
    RepInMem(t, par, idx, m);
    if t.size == s || bits == 0 {
    } else if s < lo + Pow2(bits - 1) {
      if t.left.Node? { SpotInTree(t.left, s, lo, bits - 1, t.chain[0], idx, m); }
    } else {
      if t.right.Node? { SpotInTree(t.right, s, lo + Pow2(bits - 1), bits - 1, t.chain[0], idx, m); }
    }
  }

  lemma RingInsert(c: seq<int>, par: int, c0: int, c1: int, idx: nat, m: Mem, x: int)
    requires ChainLinks(c, par, c0, c1, idx, m) && NoDup(c) && x !in c
    requires c[0] in m && m[c[0]].fd in m
    ensures ChainLinks([c[0], x] + c[1..], par, c0, c1, idx, LinkAt(m, Same(c[0]), x, idx))
  {
    var c' := [c[0], x] + c[1..];
    var m' := LinkAt(m, Same(c[0]), x, idx);
    NextInChain(c, m);
    assert forall i :: 2 <= i < |c'| ==> c'[i] == c[i - 1] && c'[i] != c[0] && c'[i] != x;
    forall i, j | Follows(i, j, |c'|)
      ensures Linked(m', c'[i], c'[j])
    {
      if i >= 2 {
        assert Follows(i - 1, if j == 0 then 0 else j - 1, |c|);
      }
    }
  }

  /** Linking x under the empty child slot of a node. */
  lemma InsertChild(t: Trie, par: int, idx: nat, m: Mem, x: int, right: bool)
    requires t.Node? && Rep(t, par, idx, m) && NoDup(t.chain) && x !in Addrs(t)
    requires (if right then t.right else t.left) == Nil
    requires t.chain[0] !in Addrs(t.left) && t.chain[0] !in Addrs(t.right)
    requires t.chain[0] in m && m[t.chain[0]].fd in m
    ensures var m' := LinkAt(m, Child(t.chain[0], right), x, idx);
            forall s ::
              var n := Node(s, [x], Nil, Nil); Rep(if right then t.(right := n) else t.(left := n), par, idx, m')
  {
    var c := t.chain;
    var m' := LinkAt(m, Child(c[0], right), x, idx);
    forall i | 0 <= i < |c| ensures c[i] in Addrs(t) {}
    forall i, j | Follows(i, j, |c|) ensures Linked(m', c[i], c[j]) {
      assert Linked(m, c[i], c[j]);
    }
    assert ChainLinks(c, par, if right then Root(t.left) else x, if right then x else Root(t.right), idx, m');
    RepFrame(if right then t.left else t.right, c[0], idx, m, m');
    assert Follows(0, 0, 1);
    forall s ensures Rep(Node(s, [x], Nil, Nil), c[0], idx, m') {
      forall i, j | Follows(i, j, 1) ensures Linked(m', [x][i], [x][j]) {}
    }
  }

  /** Insertion in a subtree leaves the chain of the node above it alone. */
  lemma InsertDeep(t: Trie, sub: Trie, other: Trie, par: int, idx: nat, m: Mem, sp: Spot, x: int)
    requires t.Node? && Rep(t, par, idx, m) && x !in Addrs(t)
    requires (sub == t.left && other == t.right) || (sub == t.right && other == t.left)
    requires sp.node in Addrs(sub) && sp.node in m && m[sp.node].fd in Addrs(sub) && m[sp.node].fd in m
    requires forall p :: p in Addrs(sub) ==> p !in t.chain && p !in Addrs(other)
    ensures var m' := LinkAt(m, sp, x, idx);
            ChainLinks(t.chain, par, Root(t.left), Root(t.right), idx, m') && Rep(other, t.chain[0], idx, m')
  {
    var m' := LinkAt(m, sp, x, idx);
    assert forall p :: p in m && p !in Addrs(sub) && p != x ==> p in m' && m'[p] == m[p];
    var c := t.chain;
    forall i | 0 <= i < |c| ensures c[i] in m' && m'[c[i]] == m[c[i]] {
      assert c[i] in c && c[i] in Addrs(t) && c[i] in m;
    }
    ChainFrame(t.chain, par, Root(t.left), Root(t.right), idx, m, m');
    RepFrame(other, t.chain[0], idx, m, m');
  }

  /** The stores of insert_large_chunk leave the trie with the new chunk inserted. */
  lemma {:induction false} InsertRep(t: Trie, par: int, idx: nat, m: Mem, x: int, s: nat, lo: nat, bits: nat,
                                     sz: map<int, nat>)
    requires t.Node? && Ordered(t, lo, bits, sz) && Rep(t, par, idx, m)
    requires lo <= s < lo + Pow2(bits) && x !in Addrs(t)
    requires var sp := FindSpot(t, s, lo, bits); sp.node in m && m[sp.node].fd in m
    ensures Rep(Insert(t, x, s, lo, bits), par, idx, LinkAt(m, FindSpot(t, s, lo, bits), x, idx))
    ensures Root(Insert(t, x, s, lo, bits)) == Root(t)
    decreases t
  {
    PartsDisjoint(t, lo, bits, sz);
    var sp := FindSpot(t, s, lo, bits);
    var m' := LinkAt(m, sp, x, idx);
    var c := t.chain;
    if t.size == s {
      assert sp == Same(c[0]);
      assert x !in c && forall i :: 0 <= i < |c| ==> c[i] in Addrs(t);
      NextInChain(c, m);
      RingInsert(c, par, Root(t.left), Root(t.right), idx, m, x);
      RepFrame(t.left, c[0], idx, m, m');
      RepFrame(t.right, c[0], idx, m, m');
    } else {
      assert bits > 0;
      var right := s >= lo + Pow2(bits - 1);
      var sub, other := if right then t.right else t.left, if right then t.left else t.right;
      if sub.Nil? {
        InsertChild(t, par, idx, m, x, right);
      } else {
        var lo' := if right then lo + Pow2(bits - 1) else lo;
        SpotInTree(sub, s, lo', bits - 1, c[0], idx, m);
        InsertDeep(t, sub, other, par, idx, m, sp, x);
        InsertRep(sub, c[0], idx, m, x, s, lo', bits - 1, sz);
      }
    }
  }

  // ------------------------------ removal ------------------------------

  // Single stores. A store to a chunk outside the memory would be a fault; callers show that it cannot occur.

  function SetFd(m: Mem, p: int, v: int): Mem { if p in m then m[p := m[p].(fd := v)] else m }

  function SetBk(m: Mem, p: int, v: int): Mem { if p in m then m[p := m[p].(bk := v)] else m }

  function SetParent(m: Mem, p: int, v: int): Mem { if p in m then m[p := m[p].(parent := v)] else m }

  function StoreChild(m: Mem, p: int, right: bool, v: int): Mem
  { if p in m then m[p := SetChild(m[p], right, v)] else m }

  function ChildOf(m: Mem, p: int, right: bool): int
  { if p !in m then 0 else if right then m[p].child1 else m[p].child0 }

  /** R adopts the child of X on one side. */
  function AdoptChild(m: Mem, x: int, r: int, right: bool): Mem
  {
    var c := ChildOf(m, x, right);
    if c == 0 then m else SetParent(StoreChild(m, r, right, c), c, r)
  }

  /** The last step of unlink_large_chunk: R (or nothing) takes the place of X in the tree. */
  function Relink(m: Mem, x: int, xp: int, r: int, atBin: bool): Mem
  {
    var m1 := if atBin then m else StoreChild(m, xp, ChildOf(m, xp, false) != x, r);
    if r == 0 then m1
    else AdoptChild(AdoptChild(SetParent(m1, r, xp), x, r, false), x, r, true)
  }

  /** The child slot that holds the rightmost leaf below t. */
  function SlotBelow(t: Trie): (int, bool)
    requires t.Node? && !IsLeaf(t)
  {
    var right := t.right.Node?;
    var sub := if right then t.right else t.left;
    if IsLeaf(sub) then (Root(t), right) else SlotBelow(sub)
  }

  /** Taking x out of its ring: F->bk = R, R->fd = F. */
  function Splice(m: Mem, x: int): Mem
    requires x in m
  { SetFd(SetBk(m, m[x].fd, m[x].bk), m[x].bk, m[x].fd) }

  /** Steps 1 and 2 of unlink_large_chunk: the chunk that will replace x, and the stores that free it for that. */
  function Replacement(m: Mem, x: int, node: Trie): int
    requires x in m && node.Node?
  { if m[x].bk != x then m[x].bk else if IsLeaf(node) then 0 else Root(RightmostLeaf(node)) }

  function DetachStores(m: Mem, x: int, node: Trie): Mem
    requires x in m && node.Node?
  {
    if m[x].bk != x then Splice(m, x)
    else if IsLeaf(node) then m
    else var (q, right) := SlotBelow(node); StoreChild(m, q, right, 0)
  }

  /** All stores of unlink_large_chunk for a chunk x whose size has the trie node `node`. */
  function UnlinkStores(m: Mem, x: int, node: Trie, atBin: bool): Mem
    requires x in m && node.Node?
  {
    if m[x].parent == 0 then DetachStores(m, x, node)
    else Relink(DetachStores(m, x, node), x, m[x].parent, Replacement(m, x, node), atBin)
  }

  /** The node of the trie whose chain holds x. */
  function NodeOf(t: Trie, x: int): (n: Trie)
    requires x in Addrs(t)
    ensures n.Node? && x in n.chain
  { if x in t.chain then t else if x in Addrs(t.left) then NodeOf(t.left, x) else NodeOf(t.right, x) }

  lemma {:induction false} SlotInTree(t: Trie, par: int, idx: nat, m: Mem)
    requires t.Node? && !IsLeaf(t) && Rep(t, par, idx, m)
    ensures SlotBelow(t).0 in Addrs(t)
    decreases t
  {
    assert t.chain[0] in t.chain;
    var sub := if t.right.Node? then t.right else t.left;
    if !IsLeaf(sub) { SlotInTree(sub, t.chain[0], idx, m); }
  }

  /** Clearing the slot of the rightmost leaf detaches that leaf, whose own chain stays linked. */
  lemma {:induction false} DropRep(t: Trie, par: int, idx: nat, m: Mem, lo: nat, bits: nat, sz: map<int, nat>)
    requires t.Node? && !IsLeaf(t) && Ordered(t, lo, bits, sz) && Rep(t, par, idx, m)
    ensures var (q, right) := SlotBelow(t);
            var m' := StoreChild(m, q, right, 0);
            && Rep(DropRightmost(t), par, idx, m') && Root(DropRightmost(t)) == Root(t)
            && ChainLinks(RightmostLeaf(t).chain, q, 0, 0, idx, m')
    decreases t
  {
    PartsDisjoint(t, lo, bits, sz);
    SlotInTree(t, par, idx, m);
    var (q, right) := SlotBelow(t);
    var m' := StoreChild(m, q, right, 0);
    var c := t.chain;
    var onRight := t.right.Node?;
    var sub, other := if onRight then t.right else t.left, if onRight then t.left else t.right;
    forall i | 0 <= i < |c| ensures c[i] in Addrs(t) && c[i] !in Addrs(sub) {
      var p := c[i];
      assert p in c;
    }
    if IsLeaf(sub) {
      assert q == c[0];
      DropOneChild(t, par, idx, m, onRight);
    } else {
      SlotInTree(sub, c[0], idx, m);
      DropRep(sub, c[0], idx, m, if onRight then lo + Pow2(bits - 1) else lo, bits - 1, sz);
      ChainFrame(c, par, Root(t.left), Root(t.right), idx, m, m');
      RepFrame(other, c[0], idx, m, m');
    }
  }

  lemma DropOneChild(t: Trie, par: int, idx: nat, m: Mem, right: bool)
    requires t.Node? && Rep(t, par, idx, m) && NoDup(t.chain)
    requires var sub := if right then t.right else t.left;
             IsLeaf(sub) && forall p :: p in t.chain ==> p !in Addrs(t.left) && p !in Addrs(t.right)
    ensures var m' := StoreChild(m, t.chain[0], right, 0);
            var sub := if right then t.right else t.left;
            && Rep(if right then t.(right := Nil) else t.(left := Nil), par, idx, m')
            && ChainLinks(sub.chain, t.chain[0], 0, 0, idx, m')
  {
    var c := t.chain;
    var m' := StoreChild(m, c[0], right, 0);
    var sub, other := if right then t.right else t.left, if right then t.left else t.right;
    assert c[0] in c;
    forall i, j | Follows(i, j, |c|) ensures Linked(m', c[i], c[j]) {
      assert Linked(m, c[i], c[j]);
    }
    RepFrame(sub, c[0], idx, m, m');
    RepFrame(other, c[0], idx, m, m');
  }

  /** Memory changed at most at the chunks of a. */
  ghost predicate OnlyAt(a: set<int>, m: Mem, m': Mem)
  { forall p :: p in m && p !in a ==> p in m' && m'[p] == m[p] }

  lemma Reparent(t: Trie, par: int, par': int, idx: nat, m: Mem, m': Mem, lo: nat, bits: nat, sz: map<int, nat>)
    requires t.Node? && Ordered(t, lo, bits, sz) && Rep(t, par, idx, m)
    requires OnlyAt({Root(t)}, m, m') && Root(t) in m && Root(t) in m' && m'[Root(t)] == m[Root(t)].(parent := par')
    ensures Rep(t, par', idx, m')
  {
    PartsDisjoint(t, lo, bits, sz);
    var c := t.chain;
    assert c[0] in c;
    forall i | 1 <= i < |c| ensures c[i] in m' && m'[c[i]] == m[c[i]] {
      var p := c[i];
      assert p in m && p != c[0];
    }
    forall i, j | Follows(i, j, |c|) ensures Linked(m', c[i], c[j]) {
      assert Linked(m, c[i], c[j]);
    }
    RepFrame(t.left, c[0], idx, m, m');
    RepFrame(t.right, c[0], idx, m, m');
  }

  /** R adopting the subtree of X on one side. */
  lemma AdoptSide(sub: Trie, m: Mem, x: int, r: int, right: bool, idx: nat, lo: nat, bits: nat, sz: map<int, nat>)
    requires Ordered(sub, lo, bits, sz) && Rep(sub, x, idx, m)
    requires x in m && r in m && x != r && ChildOf(m, x, right) == Root(sub) && r !in Addrs(sub) && x !in Addrs(sub)
    ensures var m' := AdoptChild(m, x, r, right);
            && Rep(sub, r, idx, m')
            && OnlyAt({r} + Addrs(sub), m, m') && r in m' && x in m'
            && m'[r] == if sub.Nil? then m[r] else SetChild(m[r], right, Root(sub))
  {
    if sub.Node? {
      var c := Root(sub);
      assert c in sub.chain && c in Addrs(sub) && c > 0;
      var m1 := StoreChild(m, r, right, c);
      RepFrame(sub, x, idx, m, m1);
      Reparent(sub, x, r, idx, m1, SetParent(m1, c, r), lo, bits, sz);
    }
  }

  /** R adopting both subtrees of X, whose own child slots were empty. */
  lemma AdoptBoth(l: Trie, rt: Trie, m: Mem, x: int, r: int, idx: nat, lo: nat, hi: nat, bits: nat, sz: map<int, nat>)
    requires Ordered(l, lo, bits, sz) && Ordered(rt, hi, bits, sz) && Rep(l, x, idx, m) && Rep(rt, x, idx, m)
    requires x in m && r in m && x != r && m[x].child0 == Root(l) && m[x].child1 == Root(rt)
    requires r !in Addrs(l) && x !in Addrs(l) && r !in Addrs(rt) && x !in Addrs(rt)
    requires forall p :: p in Addrs(l) ==> p !in Addrs(rt)
    requires m[r].child0 == 0 && m[r].child1 == 0
    ensures var m' := AdoptChild(AdoptChild(m, x, r, false), x, r, true);
            && Rep(l, r, idx, m') && Rep(rt, r, idx, m')
            && OnlyAt({r} + Addrs(l) + Addrs(rt), m, m') && r in m'
            && m'[r] == m[r].(child0 := Root(l), child1 := Root(rt))
  {
    AdoptSide(l, m, x, r, false, idx, lo, bits, sz);
    var m1 := AdoptChild(m, x, r, false);
    RepFrame(rt, x, idx, m, m1);
    AdoptSide(rt, m1, x, r, true, idx, hi, bits, sz);
    RepFrame(l, r, idx, m1, AdoptChild(m1, x, r, true));
  }

  /** A chain whose first chunk got new tree links. */
  lemma ChainMove(c: seq<int>, par: int, par': int, c0: int, c1: int, idx: nat, m: Mem, m': Mem)
    requires ChainLinks(c, par, 0, 0, idx, m) && NoDup(c)
    requires c[0] in m' && m'[c[0]] == m[c[0]].(parent := par', child0 := c0, child1 := c1)
    requires forall i :: 1 <= i < |c| ==> c[i] in m' && m'[c[i]] == m[c[i]]
    ensures ChainLinks(c, par', c0, c1, idx, m')
  {
    forall i, j | Follows(i, j, |c|) ensures Linked(m', c[i], c[j]) {
      assert Linked(m, c[i], c[j]);
    }
  }

  /** What x, its chain replacement fc and its subtrees must satisfy before fc takes the place of x. */
  ghost predicate CanRelink(fc: seq<int>, l: Trie, rt: Trie, x: int, xp: int, idx: nat, m: Mem)
  {
    && x in m && m[x].child0 == Root(l) && m[x].child1 == Root(rt) && Rep(l, x, idx, m) && Rep(rt, x, idx, m)
    && NoDup(fc) && |fc| > 0 && fc[0] != 0
    && x !in fc && x !in Addrs(l) && x !in Addrs(rt) && xp != x
    && xp !in fc && xp !in Addrs(l) && xp !in Addrs(rt)
    && (forall p :: p in fc ==> p !in Addrs(l) && p !in Addrs(rt))
    && (forall p :: p in Addrs(l) ==> p !in Addrs(rt))
  }

  /** The stores of Relink before R adopts the children of X. */
  function RelinkTop(m: Mem, x: int, xp: int, r: int, atBin: bool): Mem
  { SetParent(if atBin then m else StoreChild(m, xp, ChildOf(m, xp, false) != x, r), r, xp) }

  lemma RelinkTopIs(m: Mem, x: int, xp: int, r: int, atBin: bool)
    requires x in m && r in m && x != r && xp != r && xp != x
    ensures var m' := RelinkTop(m, x, xp, r, atBin);
            && OnlyAt({xp, r}, m, m') && x in m' && m'[x] == m[x] && r in m' && m'[r] == m[r].(parent := xp)
            && (xp in m ==> xp in m' && m'[xp] == if atBin then m[xp] else SetChild(m[xp], m[xp].child0 != x, r))
            && (r != 0 ==> Relink(m, x, xp, r, atBin) == AdoptChild(AdoptChild(m', x, r, false), x, r, true))
  {}

  /** Relink puts the chain fc, whose first chunk is r, in the place of x, above the subtrees of x. */
  lemma RelinkRep(fc: seq<int>, l: Trie, rt: Trie, x: int, xp: int, anyPar: int, atBin: bool, idx: nat, m: Mem, lo: nat,
                  hi: nat, bits: nat, sz: map<int, nat>)
    requires Ordered(l, lo, bits, sz) && Ordered(rt, hi, bits, sz)
    requires ChainLinks(fc, anyPar, 0, 0, idx, m) && CanRelink(fc, l, rt, x, xp, idx, m)
    ensures var m' := Relink(m, x, xp, fc[0], atBin);
            && ChainLinks(fc, xp, Root(l), Root(rt), idx, m') && Rep(l, fc[0], idx, m') && Rep(rt, fc[0], idx, m')
            && OnlyAt({xp, fc[0]} + Addrs(l) + Addrs(rt), m, m')
            && (xp in m ==> xp in m' && m'[xp] == if atBin then m[xp] else SetChild(m[xp], m[xp].child0 != x, fc[0]))
  {
    var r := fc[0];
    assert r in fc;
    RelinkTopIs(m, x, xp, r, atBin);
    var m2 := RelinkTop(m, x, xp, r, atBin);
    RepFrame(l, x, idx, m, m2);
    RepFrame(rt, x, idx, m, m2);
    AdoptBoth(l, rt, m2, x, r, idx, lo, hi, bits, sz);
    var m' := Relink(m, x, xp, r, atBin);
    forall i | 1 <= i < |fc| ensures fc[i] in m' && m'[fc[i]] == m[fc[i]] {
      var p := fc[i];
      assert p in fc && p in m && p != r;
    }
    ChainMove(fc, anyPar, xp, Root(l), Root(rt), idx, m, m');
  }

  /** Splicing changes nothing but the fd and bk fields of the two neighbours. */
  lemma SpliceFields(m: Mem, x: int, p: int)
    requires x in m && p in m
    ensures var m' := Splice(m, x);
            && p in m' && m'[p].parent == m[p].parent && m'[p].child0 == m[p].child0
            && m'[p].child1 == m[p].child1 && m'[p].index == m[p].index
            && (p != m[x].fd && p != m[x].bk ==> m'[p] == m[p])
  {}

  lemma Neighbours(c: seq<int>, x: int, k: nat, m: Mem)
    requires Ring(c, m) && |c| > 1 && k < |c| && c[k] == x && NoDup(c)
    ensures x in m && m[x].fd == c[if k + 1 < |c| then k + 1 else 0] && m[x].bk == c[if k > 0 then k - 1 else |c| - 1]
    ensures m[x].bk != x && m[x].fd != x && m[x].fd in m && m[x].bk in m
  {
    var kf, kr := if k + 1 < |c| then k + 1 else 0, if k > 0 then k - 1 else |c| - 1;
    assert Follows(k, kf, |c|) && Follows(kr, k, |c|);
  }

  /** A ring that lost the chunk x closes over the gap. */
  lemma SpliceRing(c: seq<int>, x: int, m: Mem)
    requires Ring(c, m) && NoDup(c) && |c| > 1 && x in c && x in m
    ensures Ring(ChainRemove(c, x), Splice(m, x))
  {
    var m' := Splice(m, x);
    var c' := ChainRemove(c, x);
    var n := |c|;
    var k := IndexOf(c, x);
    Neighbours(c, x, k, m);
    forall i, j | Follows(i, j, |c'|) ensures Linked(m', c'[i], c'[j]) {
      var oi, oj := OldIndex(i, k, n), OldIndex(j, k, n);
      assert c'[i] == c[oi] && c'[j] == c[oj];
      if oi == (if k > 0 then k - 1 else n - 1) {
        assert oj == if k + 1 < n then k + 1 else 0;
      } else {
        assert Follows(oi, oj, n);
      }
    }
  }

  /**
   * A chain that lost the chunk x. If x was its tree node, the bk neighbour of x comes first and has no tree links yet.
   */
  lemma SpliceChain(c: seq<int>, x: int, par: int, c0: int, c1: int, idx: nat, m: Mem)
    requires ChainLinks(c, par, c0, c1, idx, m) && NoDup(c) && |c| > 1 && x in c && x in m
    ensures var m' := Splice(m, x);
            var c' := ChainRemove(c, x);
            && OnlyAt(Elems(c), m, m') && m[x].bk != x
            && (x == c[0] ==> m[x].bk == c'[0] && ChainLinks(c', 0, 0, 0, idx, m'))
            && (x != c[0] ==> ChainLinks(c', par, c0, c1, idx, m') && c'[0] == c[0] && m[x].parent == 0)
  {
    var m' := Splice(m, x);
    var c' := ChainRemove(c, x);
    var k := IndexOf(c, x);
    Neighbours(c, x, k, m);
    SpliceRing(c, x, m);
    forall i | 0 <= i < |c'|
      ensures c'[i] in m' && m'[c'[i]].index == idx
      ensures x == c[0] || i > 0 ==> m'[c'[i]].parent == 0 && m'[c'[i]].child0 == 0 && m'[c'[i]].child1 == 0
      ensures x != c[0] && i == 0 ==> m'[c'[i]].parent == par && m'[c'[i]].child0 == c0 && m'[c'[i]].child1 == c1
    {
      var oi := OldIndex(i, k, |c|);
      assert c'[i] == c[oi];
      SpliceFields(m, x, c[oi]);
    }
  }

  /** The position in a ring of n that position i had before the element at k was removed. */
  function OldIndex(i: int, k: int, n: int): int
  { if k == 0 then (if i == 0 then n - 1 else i) else if i < k then i else i + 1 }

  /** What unlink_large_chunk does to the cell of the parent that t hangs from. */
  ghost predicate ParentUpdated(t: Trie, t': Trie, par: int, x: int, atBin: bool, m: Mem, m': Mem)
  {
    par in m ==>
      par in m' && m'[par] == if x == Root(t) && !atBin then SetChild(m[par], m[par].child0 != x, Root(t')) else m[par]
  }

  /**
   * unlink_large_chunk turned t into t', stayed within t and the cell of its parent, and updated that cell as needed.
   */
  ghost predicate Unlinked(t: Trie, t': Trie, par: int, idx: nat, x: int, atBin: bool, m: Mem, m': Mem)
  {
    && Rep(t', par, idx, m') && OnlyAt(Addrs(t) + {par}, m, m') && ParentUpdated(t, t', par, x, atBin, m, m')
    && (x != Root(t) ==> Root(t') == Root(t))
  }

  /** Splicing x out of its ring leaves the subtrees and the parent of the node alone. */
  lemma SpliceNode(t: Trie, par: int, idx: nat, m: Mem, x: int, lo: nat, bits: nat, sz: map<int, nat>)
    requires t.Node? && Ordered(t, lo, bits, sz) && Rep(t, par, idx, m) && x in t.chain && |t.chain| > 1 && x in m
    requires par !in Addrs(t)
    ensures var m1 := Splice(m, x);
            && Rep(t.left, t.chain[0], idx, m1) && Rep(t.right, t.chain[0], idx, m1) && OnlyAt(Elems(t.chain), m, m1)
            && (par in m ==> par in m1 && m1[par] == m[par])
            && x in m1 && m1[x].child0 == m[x].child0 && m1[x].child1 == m[x].child1
  {
    PartsDisjoint(t, lo, bits, sz);
    var c := t.chain;
    SpliceChain(c, x, par, Root(t.left), Root(t.right), idx, m);
    SpliceFields(m, x, x);
    RepFrame(t.left, c[0], idx, m, Splice(m, x));
    RepFrame(t.right, c[0], idx, m, Splice(m, x));
  }

  /** Case 1a: x hangs off another chunk of its size. */
  lemma UnlinkInner(t: Trie, par: int, idx: nat, m: Mem, x: int, atBin: bool, lo: nat, bits: nat, sz: map<int, nat>)
    requires t.Node? && Ordered(t, lo, bits, sz) && Rep(t, par, idx, m) && x in t.chain && |t.chain| > 1 && x in m
    requires par !in Addrs(t) && x != t.chain[0]
    ensures Unlinked(t, t.(chain := ChainRemove(t.chain, x)), par, idx, x, atBin, m, UnlinkStores(m, x, t, atBin))
  {
    SpliceNode(t, par, idx, m, x, lo, bits, sz);
    SpliceChain(t.chain, x, par, Root(t.left), Root(t.right), idx, m);
  }

  /** Relink leaves a node with chain fc over the subtrees that x had. */
  lemma RelinkNode(t: Trie, fc: seq<int>, x: int, xp: int, anyPar: int, atBin: bool, idx: nat, m: Mem, lo: nat,
                   bits: nat, sz: map<int, nat>)
    requires t.Node? && Ordered(t, lo, bits, sz) && t.chain == fc
    requires ChainLinks(fc, anyPar, 0, 0, idx, m) && CanRelink(fc, t.left, t.right, x, xp, idx, m)
    ensures var m' := Relink(m, x, xp, fc[0], atBin);
            && Rep(t, xp, idx, m') && OnlyAt(Addrs(t) + {xp}, m, m')
            && (xp in m ==> xp in m' && m'[xp] == if atBin then m[xp] else SetChild(m[xp], m[xp].child0 != x, fc[0]))
  {
    if bits == 0 {
      RelinkRep(fc, t.left, t.right, x, xp, anyPar, atBin, idx, m, lo, lo, 0, sz);
    } else {
      RelinkRep(fc, t.left, t.right, x, xp, anyPar, atBin, idx, m, lo, lo + Pow2(bits - 1), bits - 1, sz);
    }
    assert fc[0] in fc;
  }

  /** Case 1b: x is the tree node of its size, and other chunks of that size remain. */
  lemma UnlinkHead(t: Trie, par: int, idx: nat, m: Mem, atBin: bool, lo: nat, bits: nat, sz: map<int, nat>)
    requires t.Node? && Ordered(t, lo, bits, sz) && Rep(t, par, idx, m) && |t.chain| > 1
    requires par !in Addrs(t) && par != 0
    ensures t.chain[0] in m
    ensures var x := t.chain[0];
            Unlinked(t, t.(chain := ChainRemove(t.chain, x)), par, idx, x, atBin, m, UnlinkStores(m, x, t, atBin))
  {
    var c, x := t.chain, t.chain[0];
    var c', m1 := ChainRemove(c, x), Splice(m, x);
    var t' := t.(chain := c');
    SpliceNode(t, par, idx, m, x, lo, bits, sz);
    SpliceChain(c, x, par, Root(t.left), Root(t.right), idx, m);
    HeadCanRelink(t, par, idx, m1, lo, bits, sz);
    ChainRemoveOk(c, x, t.size, sz);
    RelinkNode(t', c', x, par, 0, atBin, idx, m1, lo, bits, sz);
    assert UnlinkStores(m, x, t, atBin) == Relink(m1, x, par, c'[0], atBin);
  }

  lemma HeadCanRelink(t: Trie, par: int, idx: nat, m: Mem, lo: nat, bits: nat, sz: map<int, nat>)
    requires t.Node? && Ordered(t, lo, bits, sz) && |t.chain| > 1 && par !in Addrs(t)
    requires t.chain[0] in m && m[t.chain[0]].child0 == Root(t.left) && m[t.chain[0]].child1 == Root(t.right)
    requires Rep(t.left, t.chain[0], idx, m) && Rep(t.right, t.chain[0], idx, m)
    ensures CanRelink(ChainRemove(t.chain, t.chain[0]), t.left, t.right, t.chain[0], par, idx, m)
  {
    PartsDisjoint(t, lo, bits, sz);
    var c, x := t.chain, t.chain[0];
    var c' := ChainRemove(c, x);
    ChainRemoveOk(c, x, t.size, sz);
    assert x in c && forall p :: p in c' ==> p in Elems(c') && p in c;
  }

  lemma SingleLinks(t: Trie, par: int, idx: nat, m: Mem)
    requires t.Node? && Rep(t, par, idx, m) && |t.chain| == 1
    ensures var x := t.chain[0]; x in m && m[x].bk == x && m[x].parent == par
  {
    assert Follows(0, 0, 1);
  }

  /** Case 2a: x is a leaf and the only chunk of its size. */
  lemma UnlinkLeaf(t: Trie, par: int, idx: nat, m: Mem, atBin: bool)
    requires IsLeaf(t) && Rep(t, par, idx, m) && |t.chain| == 1 && t.chain[0] in m && par != 0
    ensures var x := t.chain[0]; Unlinked(t, Nil, par, idx, x, atBin, m, UnlinkStores(m, x, t, atBin))
  {
    SingleLinks(t, par, idx, m);
  }

  /** An unlink in two phases: stores within t, then Relink. */
  lemma TwoPhases(t: Trie, t': Trie, par: int, idx: nat, atBin: bool, m: Mem, m1: Mem, m': Mem)
    requires t.Node? && par !in Addrs(t) && OnlyAt(Addrs(t), m, m1)
    requires forall p :: p in Addrs(t') ==> p in Addrs(t)
    requires Rep(t', par, idx, m') && OnlyAt(Addrs(t') + {par}, m1, m')
    requires par in m1 ==>
        par in m' && m'[par] == if atBin then m1[par] else SetChild(m1[par], m1[par].child0 != Root(t), Root(t'))
    ensures Unlinked(t, t', par, idx, Root(t), atBin, m, m')
  {}

  /** Case 2b: x is the only chunk of its size and has children: the rightmost leaf below takes its place. */
  lemma UnlinkInterior(t: Trie, par: int, idx: nat, m: Mem, atBin: bool, lo: nat, bits: nat, sz: map<int, nat>)
    requires t.Node? && !IsLeaf(t) && Ordered(t, lo, bits, sz) && Rep(t, par, idx, m) && |t.chain| == 1
    requires par !in Addrs(t) && par != 0 && t.chain[0] in m
    ensures var x := t.chain[0]; Unlinked(t, ReplaceByLeaf(t), par, idx, x, atBin, m, UnlinkStores(m, x, t, atBin))
  {
    var x := t.chain[0];
    var (q, right) := SlotBelow(t);
    var leaf := RightmostLeaf(t);
    var m1 := StoreChild(m, q, right, 0);
    var t' := ReplaceByLeaf(t);
    SlotInTree(t, par, idx, m);
    assert OnlyAt(Addrs(t), m, m1);
    DropRep(t, par, idx, m, lo, bits, sz);
    InteriorCanRelink(t, par, idx, m1, lo, bits, sz);
    ReplaceByLeafOk(t, lo, bits, sz);
    RelinkNode(t', leaf.chain, x, par, q, atBin, idx, m1, lo, bits, sz);
    TwoPhases(t, t', par, idx, atBin, m, m1, Relink(m1, x, par, leaf.chain[0], atBin));
    SingleLinks(t, par, idx, m);
  }

  lemma InteriorCanRelink(t: Trie, par: int, idx: nat, m: Mem, lo: nat, bits: nat, sz: map<int, nat>)
    requires t.Node? && !IsLeaf(t) && Ordered(t, lo, bits, sz) && |t.chain| == 1 && par !in Addrs(t)
    requires Rep(DropRightmost(t), par, idx, m)
    ensures var leaf, rest := RightmostLeaf(t), DropRightmost(t);
            rest.Node? && CanRelink(leaf.chain, rest.left, rest.right, t.chain[0], par, idx, m)
  {
    var leaf, rest := RightmostLeaf(t), DropRightmost(t);
    LeafBelow(t, lo, bits, sz);
    DropOrdered(t, lo, bits, sz);
    DropShape(t);
    PartsDisjoint(t, lo, bits, sz);
    PartsDisjoint(rest, lo, bits, sz);
    ReplaceByLeafOk(t, lo, bits, sz);
    PartsDisjoint(ReplaceByLeaf(t), lo, bits, sz);
    assert t.chain[0] in t.chain && leaf.chain[0] in leaf.chain;
  }

  /** The chain of a node one of whose child slots was rewritten. */
  lemma ChainAbove(c: seq<int>, par: int, c0: int, c1: int, right: bool, v: int, idx: nat, m: Mem, m': Mem)
    requires ChainLinks(c, par, c0, c1, idx, m) && NoDup(c)
    requires c[0] in m' && m'[c[0]] == SetChild(m[c[0]], right, v)
    requires forall i :: 1 <= i < |c| ==> c[i] in m' && m'[c[i]] == m[c[i]]
    ensures ChainLinks(c, par, if right then c0 else v, if right then v else c1, idx, m')
  {
    forall i, j | Follows(i, j, |c|) ensures Linked(m', c[i], c[j]) {
      assert Linked(m, c[i], c[j]);
    }
  }

  /** Seen from the node above, unlinking in a subtree rewrites at most the child slot of that subtree. */
  lemma SlotAbove(t: Trie, right: bool, sub': Trie, par: int, idx: nat, m: Mem, m': Mem, x: int, lo: nat, bits: nat,
                  sz: map<int, nat>)
    requires t.Node? && Ordered(t, lo, bits, sz) && Rep(t, par, idx, m)
    requires var sub := if right then t.right else t.left;
             && x in Addrs(sub) && ParentUpdated(sub, sub', t.chain[0], x, false, m, m')
             && (x != Root(sub) ==> Root(sub') == Root(sub))
    ensures t.chain[0] in m && t.chain[0] in m' && m'[t.chain[0]] == SetChild(m[t.chain[0]], right, Root(sub'))
  {
    PartsDisjoint(t, lo, bits, sz);
    OrderedFacts(t, lo, bits, sz);
    RootIn(t.left);
    RootIn(t.right);
  }

  lemma RootIn(t: Trie)
    ensures Root(t) == 0 || Root(t) in Addrs(t)
  {}

  /** A change made in one subtree of a node, seen from the node. */
  lemma UnlinkAbove(t: Trie, right: bool, sub': Trie, par: int, idx: nat, m: Mem, m': Mem, x: int, atBin: bool, lo: nat,
                    bits: nat, sz: map<int, nat>)
    requires t.Node? && Ordered(t, lo, bits, sz) && Rep(t, par, idx, m) && par !in Addrs(t)
    requires var sub := if right then t.right else t.left;
             x in Addrs(sub) && Unlinked(sub, sub', t.chain[0], idx, x, false, m, m')
    ensures Unlinked(t, if right then t.(right := sub') else t.(left := sub'), par, idx, x, atBin, m, m')
  {
    PartsDisjoint(t, lo, bits, sz);
    var c := t.chain;
    var other := if right then t.left else t.right;
    assert c[0] in c;
    forall i | 1 <= i < |c| ensures c[i] in m' && m'[c[i]] == m[c[i]] {
      var p := c[i];
      assert p in c && p in m && p != c[0];
    }
    SlotAbove(t, right, sub', par, idx, m, m', x, lo, bits, sz);
    ChainAbove(c, par, Root(t.left), Root(t.right), right, Root(sub'), idx, m, m');
    RepFrame(other, c[0], idx, m, m');
  }

  /** unlink_large_chunk: its stores leave the trie without x. */
  lemma {:induction false} UnlinkRep(t: Trie, par: int, idx: nat, m: Mem, x: int, atBin: bool, lo: nat, bits: nat,
                                     sz: map<int, nat>)
    requires Ordered(t, lo, bits, sz) && Rep(t, par, idx, m) && x in Addrs(t) && x in m
    requires par !in Addrs(t) && par != 0 && (atBin ==> x == Root(t))
    ensures Unlinked(t, Unlink(t, x), par, idx, x, atBin, m, UnlinkStores(m, x, NodeOf(t, x), atBin))
  {
    if x in t.chain {
      if |t.chain| > 1 {
        if x == t.chain[0] { UnlinkHead(t, par, idx, m, atBin, lo, bits, sz); }
        else { UnlinkInner(t, par, idx, m, x, atBin, lo, bits, sz); }
      } else {
        assert t.chain == [x];
        if IsLeaf(t) {
          UnlinkLeaf(t, par, idx, m, atBin);
        } else {
          UnlinkInterior(t, par, idx, m, atBin, lo, bits, sz);
        }
      }
    } else {
      PartsDisjoint(t, lo, bits, sz);
      OrderedFacts(t, lo, bits, sz);
      var right := x !in Addrs(t.left);
      var sub := if right then t.right else t.left;
      assert t.chain[0] in t.chain;
      UnlinkRep(sub, t.chain[0], idx, m, x, false, if right then lo + Pow2(bits - 1) else lo, bits - 1, sz);
      UnlinkAbove(
        t, right, Unlink(sub, x), par, idx, m, UnlinkStores(m, x, NodeOf(sub, x), false), x, atBin, lo, bits, sz);
    }
  }

  /**
   * What unlink_large_chunk can rely on at x: its runtime checks pass, and only the first chunk of a chain has a
   * parent.
   */
  lemma {:induction false} NodeFacts(t: Trie, par: int, idx: nat, m: Mem, lo: nat, bits: nat, sz: map<int, nat>, x: int)
    returns (npar: int, nlo: nat, nbits: nat)
    requires Ordered(t, lo, bits, sz) && Rep(t, par, idx, m) && x in Addrs(t) && par != 0
    ensures Ordered(NodeOf(t, x), nlo, nbits, sz) && Rep(NodeOf(t, x), npar, idx, m) && npar != 0
  {
    if x in t.chain {
      npar, nlo, nbits := par, lo, bits;
    } else if x in Addrs(t.left) {
      npar, nlo, nbits := NodeFacts(t.left, t.chain[0], idx, m, lo, bits - 1, sz, x);
    } else {
      npar, nlo, nbits := NodeFacts(t.right, t.chain[0], idx, m, lo + Pow2(bits - 1), bits - 1, sz, x);
    }
  }

  lemma LinkFacts(node: Trie, npar: int, idx: nat, m: Mem, lo: nat, bits: nat, sz: map<int, nat>, x: int)
    requires node.Node? && Ordered(node, lo, bits, sz) && Rep(node, npar, idx, m) && npar != 0 && x in node.chain
    ensures x in m && m[x].fd in m && m[m[x].fd].bk == x && m[x].bk in m && m[m[x].bk].fd == x
    ensures m[x].parent == (if x == Root(node) then npar else 0)
    ensures m[x].bk == x ==> node.chain == [x]
  {
    var c := node.chain;
    var k := IndexOf(c, x);
    if |c| > 1 { Neighbours(c, x, k, m); }
    var kf, kr := if k + 1 < |c| then k + 1 else 0, if k > 0 then k - 1 else |c| - 1;
    assert Follows(k, kf, |c|) && Follows(kr, k, |c|);
  }

  /** The chunk that unlink_large_chunk stores in the bin when x was the root of its tree. */
  lemma RootAfterUnlink(t: Trie, par: int, idx: nat, m: Mem, lo: nat, bits: nat, sz: map<int, nat>)
    requires t.Node? && Ordered(t, lo, bits, sz) && Rep(t, par, idx, m)
    ensures var x := Root(t); x in Addrs(t) && x in m && NodeOf(t, x) == t && Root(Unlink(t, x)) == Replacement(m, x, t)
  {
    var c, x := t.chain, Root(t);
    assert x in c;
    if |c| > 1 { Neighbours(c, x, 0, m); } else { assert Follows(0, 0, 1) && c == [x]; }
  }
}
