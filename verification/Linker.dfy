/** Library lifetime in the dynamic linker: loading with cycle refusal and reference-counted unloading. */
module Linker {

  const SO_MAX: nat := 96
  const NAME_LEN: nat := 128
  /** The static libdl_info, always first on solist. */
  const LIBDL: int := 0

  /** The payload of a DT_NEEDED entry: a name offset until linked, then the library, then zero. */
  datatype Entry = Unresolved | Lib(si: int) | Gone

  /** A soinfo; wants are the names behind its DT_NEEDED entries. */
  datatype So = So(name: string, wants: seq<string>, needed: seq<Entry>, refcount: nat, linked: bool, error: bool)

  /** strrchr(name, '/') + 1, or name */
  function Base(name: string): string
  {
    if |name| == 0 then name
    else if '/' in name[1..] then Base(name[1..])
    else if name[0] == '/' then name[1..] else name
  }

  /** b is what stands behind the last slash of a path, or the whole of a name without one. */
  ghost predicate LastComponent(name: string, b: string)
  { exists i :: 0 <= i <= |name| && b == name[i..] && '/' !in b && (i == 0 || name[i - 1] == '/') }

  /** The base name is the last component of a path, which is the only one. */
  lemma {:induction false} BaseIsLast(name: string, b: string)
    ensures LastComponent(name, b) <==> b == Base(name)
  {
    var j := BaseAt(name);
    forall k | j <= k < |name| ensures name[k] != '/' { assert name[k] == name[j..][k - j]; }
    if LastComponent(name, b) {
      var i :| 0 <= i <= |name| && b == name[i..] && '/' !in b && (i == 0 || name[i - 1] == '/');
      forall k | i <= k < |name| ensures name[k] != '/' { assert name[k] == name[i..][k - i]; }
    }
  }

  /** Where the base name starts. */
  lemma {:induction false} BaseAt(name: string) returns (i: nat)
    ensures i <= |name| && Base(name) == name[i..] && '/' !in Base(name) && (i == 0 || name[i - 1] == '/')
  {
    if |name| == 0 { return 0; }
    if '/' in name[1..] {
      var k := BaseAt(name[1..]);
      return k + 1;
    }
    return if name[0] == '/' then 1 else 0;
  }

  /** A path of directories and a file name has the file name as its base name. */
  lemma BaseOfPath(dir: string, b: string)
    requires '/' !in b
    ensures Base(b) == b && Base(dir + "/" + b) == b
  {
    BaseIsLast(b, b);
    assert b == b[0..];
    var path := dir + "/" + b;
    assert path[|dir| + 1..] == b && path[|dir|] == '/';
    BaseIsLast(path, b);
  }

  // ------------------------------ counting references ------------------------------

  /** How often a list of entries refers to x. */
  function Occurs(needed: seq<Entry>, x: int): nat
  { if needed == [] then 0 else (if needed[0] == Lib(x) then 1 else 0) + Occurs(needed[1..], x) }

  function NeededBy(info: map<int, So>, y: int): seq<Entry> { if y in info then info[y].needed else [] }

  /** The DT_NEEDED entries of loaded libraries that refer to x. */
  function Edges(list: seq<int>, info: map<int, So>, x: int): nat
  { if list == [] then 0 else Occurs(NeededBy(info, list[0]), x) + Edges(list[1..], info, x) }

  lemma {:induction false} OccursUpdate(needed: seq<Entry>, i: nat, e: Entry, x: int)
    requires i < |needed|
    ensures Occurs(needed[i := e], x) ==
        Occurs(needed, x) - (if needed[i] == Lib(x) then 1 else 0) + (if e == Lib(x) then 1 else 0)
    decreases i
  {
    if i > 0 {
      OccursUpdate(needed[1..], i - 1, e, x);
      assert needed[i := e][1..] == needed[1..][i - 1 := e];
    }
  }

  lemma {:induction false} OccursPositive(needed: seq<Entry>, i: nat, x: int)
    requires i < |needed| && needed[i] == Lib(x)
    ensures Occurs(needed, x) > 0
    decreases i
  {
    if i > 0 { OccursPositive(needed[1..], i - 1, x); }
  }

  lemma {:induction false} OccursFind(needed: seq<Entry>, x: int) returns (i: nat)
    requires Occurs(needed, x) > 0
    ensures i < |needed| && needed[i] == Lib(x)
    decreases needed
  {
    if needed[0] == Lib(x) { i := 0; } else { i := OccursFind(needed[1..], x); i := i + 1; }
  }

  /** Only the entries of loaded libraries matter. */
  lemma {:induction false} EdgesSame(list: seq<int>, info: map<int, So>, info': map<int, So>, x: int)
    requires forall y :: y in list ==> NeededBy(info', y) == NeededBy(info, y)
    ensures Edges(list, info', x) == Edges(list, info, x)
    decreases list
  {
    if list != [] { EdgesSame(list[1..], info, info', x); }
  }

  ghost predicate NoDup(list: seq<int>) { forall i, j :: 0 <= i < j < |list| ==> list[i] != list[j] }

  /** A change in the entries of one loaded library. */
  lemma {:induction false} EdgesUpdate(list: seq<int>, info: map<int, So>, info': map<int, So>, y: int, x: int)
    requires NoDup(list) && y in list && forall z :: z in list && z != y ==> NeededBy(info', z) == NeededBy(info, z)
    ensures Edges(list, info', x) == Edges(list, info, x) - Occurs(NeededBy(info, y), x) + Occurs(NeededBy(info', y), x)
    decreases list
  {
    if list[0] == y {
      assert y !in list[1..];
      EdgesSame(list[1..], info, info', x);
    } else {
      EdgesUpdate(list[1..], info, info', y, x);
    }
  }

  lemma {:induction false} EdgesAppend(list: seq<int>, info: map<int, So>, y: int, x: int)
    ensures Edges(list + [y], info, x) == Edges(list, info, x) + Occurs(NeededBy(info, y), x)
    decreases list
  {
    if list == [] {
      assert (list + [y])[1..] == [];
    } else {
      EdgesAppend(list[1..], info, y, x);
      assert (list + [y])[1..] == list[1..] + [y];
    }
  }

  lemma {:induction false} EdgesRemove(list: seq<int>, info: map<int, So>, i: nat, x: int)
    requires i < |list|
    ensures Edges(list[..i] + list[i + 1..], info, x) == Edges(list, info, x) - Occurs(NeededBy(info, list[i]), x)
    decreases i
  {
    var r := list[..i] + list[i + 1..];
    if i == 0 {
      assert r == list[1..];
    } else {
      EdgesRemove(list[1..], info, i - 1, x);
      assert r[0] == list[0] && r[1..] == list[1..][..i - 1] + list[1..][i..];
    }
  }

  lemma {:induction false} EdgesPositive(list: seq<int>, info: map<int, So>, y: int, x: int)
    requires y in list && Occurs(NeededBy(info, y), x) > 0
    ensures Edges(list, info, x) > 0
    decreases list
  {
    if list[0] != y { EdgesPositive(list[1..], info, y, x); }
  }

  lemma {:induction false} EdgesFind(list: seq<int>, info: map<int, So>, x: int) returns (y: int)
    requires Edges(list, info, x) > 0
    ensures y in list && Occurs(NeededBy(info, y), x) > 0
    decreases list
  {
    if Occurs(NeededBy(info, list[0]), x) > 0 { y := list[0]; } else { y := EdgesFind(list[1..], info, x); }
  }

  // ------------------------------ the invariant ------------------------------

  /** solist and the records on it; rank is the order in which libraries finished linking. */
  datatype Table = Table(list: seq<int>, info: map<int, So>, rank: map<int, nat>, clock: nat)

  /** A resolved entry refers to a linked library of the right name that was linked earlier. */
  ghost predicate EntryOk(tb: Table, x: int, i: nat)
    requires x in tb.info && i < |tb.info[x].needed|
  {
    && (tb.info[x].linked ==> !tb.info[x].needed[i].Unresolved?)
    && (tb.info[x].needed[i].Lib? ==>
      var l := tb.info[x].needed[i].si;
      && l in tb.list && l in tb.info && tb.info[l].linked && l in tb.rank
      && i < |tb.info[x].wants| && tb.info[l].name == Base(tb.info[x].wants[i])
      && (tb.info[x].linked ==> x in tb.rank && tb.rank[l] < tb.rank[x]))
  }

  ghost predicate LibOk(tb: Table, x: int)
  {
    && x in tb.info && |tb.info[x].needed| == |tb.info[x].wants|
    && (tb.info[x].linked ==> x in tb.rank && tb.rank[x] < tb.clock)
    && forall i: nat {:trigger EntryOk(tb, x, i)} :: i < |tb.info[x].needed| ==> EntryOk(tb, x, i)
  }

  /** The count of x is its incoming edges plus the references held from outside. */
  ghost predicate Counted(tb: Table, held: multiset<int>, x: int)
  {
    && x in tb.info && tb.info[x].refcount == Edges(tb.list, tb.info, x) + held[x]
    && (!tb.info[x].linked ==> held[x] == 0)
  }

  ghost predicate Inv(tb: Table, held: multiset<int>)
  {
    && NoDup(tb.list) && |tb.list| > 0 && tb.list[0] == LIBDL && (forall x :: x in held ==> x in tb.list)
    && (forall x {:trigger LibOk(tb, x)} :: x in tb.list ==> LibOk(tb, x))
    && (forall x {:trigger Counted(tb, held, x)} :: x in tb.list ==> Counted(tb, held, x))
  }

  lemma Facts(tb: Table, held: multiset<int>, x: int)
    requires Inv(tb, held) && x in tb.list
    ensures LibOk(tb, x) && Counted(tb, held, x)
  {
    assert LibOk(tb, x) && Counted(tb, held, x);
  }

  function Recount(tb: Table, x: int, n: nat): Table
    requires x in tb.info
  { tb.(info := tb.info[x := tb.info[x].(refcount := n)]) }

  lemma RecountEdges(tb: Table, x: int, n: nat, y: int)
    requires x in tb.info
    ensures Edges(tb.list, Recount(tb, x, n).info, y) == Edges(tb.list, tb.info, y)
  {
    EdgesSame(tb.list, tb.info, Recount(tb, x, n).info, y);
  }

  lemma RecountLib(tb: Table, x: int, n: nat, y: int)
    requires x in tb.info && LibOk(tb, y)
    ensures LibOk(Recount(tb, x, n), y)
  {
    var tb' := Recount(tb, x, n);
    forall i: nat | i < |tb'.info[y].needed| ensures EntryOk(tb', y, i) { assert EntryOk(tb, y, i); }
  }

  /** An outside reference to a linked library is taken or given back. */
  lemma HeldChanges(tb: Table, held: multiset<int>, x: int, held': multiset<int>, n: nat)
    requires Inv(tb, held) && x in tb.list && x in tb.info && tb.info[x].linked
    requires n == tb.info[x].refcount + held'[x] - held[x]
    requires forall y :: y != x ==> held'[y] == held[y]
    ensures Inv(Recount(tb, x, n), held')
  {
    hide LibOk;
    var tb' := Recount(tb, x, n);
    forall y | y in tb'.list ensures LibOk(tb', y) { Facts(tb, held, y); RecountLib(tb, x, n, y); }
    forall y | y in tb'.list ensures Counted(tb', held', y) { Facts(tb, held, y); RecountEdges(tb, x, n, y); }
    forall y | y in held' ensures y in tb'.list { if y != x { assert y in held; } }
  }

  function SetEntry(tb: Table, y: int, i: nat, e: Entry): Table
    requires y in tb.info && i < |tb.info[y].needed|
  { tb.(info := tb.info[y := tb.info[y].(needed := tb.info[y].needed[i := e])]) }

  lemma SetEntryEdges(tb: Table, y: int, i: nat, e: Entry, x: int)
    requires y in tb.info && i < |tb.info[y].needed| && NoDup(tb.list) && y in tb.list
    ensures Edges(tb.list, SetEntry(tb, y, i, e).info, x) ==
            Edges(tb.list, tb.info, x) - (if tb.info[y].needed[i] == Lib(x) then 1 else 0)
            + (if e == Lib(x) then 1 else 0)
  {
    EdgesUpdate(tb.list, tb.info, SetEntry(tb, y, i, e).info, y, x);
    OccursUpdate(tb.info[y].needed, i, e, x);
  }

  lemma SetEntryLib(tb: Table, y: int, i: nat, e: Entry, x: int)
    requires y in tb.info && i < |tb.info[y].needed| && LibOk(tb, x) && !e.Unresolved?
    requires e.Lib? ==>
        && i < |tb.info[y].wants| && e.si in tb.list && e.si in tb.info && tb.info[e.si].linked && e.si in tb.rank
        && !tb.info[y].linked && tb.info[e.si].name == Base(tb.info[y].wants[i])
    ensures LibOk(SetEntry(tb, y, i, e), x)
  {
    var tb' := SetEntry(tb, y, i, e);
    forall j: nat | j < |tb'.info[x].needed| ensures EntryOk(tb', x, j) { assert EntryOk(tb, x, j); }
  }

  /** An entry of y is cleared; its reference to l is now held from outside. */
  lemma EdgeDropped(tb: Table, held: multiset<int>, y: int, i: nat)
    requires Inv(tb, held) && y in tb.list && y in tb.info && i < |tb.info[y].needed| && tb.info[y].needed[i].Lib?
    ensures Inv(SetEntry(tb, y, i, Gone), held + multiset{tb.info[y].needed[i].si})
  {
    hide LibOk;
    var tb', l := SetEntry(tb, y, i, Gone), tb.info[y].needed[i].si;
    Target(tb, held, y, i);
    forall x | x in tb'.list ensures LibOk(tb', x) { Facts(tb, held, x); SetEntryLib(tb, y, i, Gone, x); }
    forall x | x in tb'.list ensures Counted(tb', held + multiset{l}, x) {
      Facts(tb, held, x);
      SetEntryEdges(tb, y, i, Gone, x);
    }
  }

  /** What a resolved entry points to. */
  lemma Target(tb: Table, held: multiset<int>, y: int, i: nat)
    requires Inv(tb, held) && y in tb.list && y in tb.info && i < |tb.info[y].needed| && tb.info[y].needed[i].Lib?
    ensures var l := tb.info[y].needed[i].si;
            l in tb.list && l in tb.info && tb.info[l].linked && l in tb.rank
            && (tb.info[y].linked ==> y in tb.rank && tb.rank[l] < tb.rank[y])
  {
    Facts(tb, held, y);
    assert EntryOk(tb, y, i);
  }

  /** An entry of y, being linked, is resolved to l, which counts it. */
  lemma EdgeMade(tb: Table, held: multiset<int>, y: int, i: nat, l: int)
    requires Inv(tb, held) && y in tb.list && y in tb.info && !tb.info[y].linked && i < |tb.info[y].needed|
    requires tb.info[y].needed[i].Unresolved?
    requires l in tb.list && l in tb.info && tb.info[l].linked && i < |tb.info[y].wants|
    requires tb.info[l].name == Base(tb.info[y].wants[i])
    ensures Inv(Recount(SetEntry(tb, y, i, Lib(l)), l, tb.info[l].refcount + 1), held)
  {
    hide LibOk;
    Facts(tb, held, l);
    LinkedRank(tb, l);
    var tb' := SetEntry(tb, y, i, Lib(l));
    var tb'' := Recount(tb', l, tb.info[l].refcount + 1);
    forall x | x in tb''.list ensures LibOk(tb'', x) {
      Facts(tb, held, x);
      SetEntryLib(tb, y, i, Lib(l), x);
      RecountLib(tb', l, tb.info[l].refcount + 1, x);
    }
    forall x | x in tb''.list ensures Counted(tb'', held, x) {
      Facts(tb, held, x);
      SetEntryEdges(tb, y, i, Lib(l), x);
      RecountEdges(tb', l, tb.info[l].refcount + 1, x);
    }
  }

  lemma LinkedRank(tb: Table, l: int)
    requires LibOk(tb, l) && tb.info[l].linked
    ensures l in tb.rank
  {}

  function Blank(name: string, wants: seq<string>): So
  { So(name, wants, seq(|wants|, _ => Unresolved), 0, false, false) }

  lemma {:induction false} NoneOccur(needed: seq<Entry>, x: int)
    requires forall i :: 0 <= i < |needed| ==> !needed[i].Lib?
    ensures Occurs(needed, x) == 0
    decreases needed
  {
    if needed != [] { NoneOccur(needed[1..], x); }
  }

  lemma NoEdges(tb: Table, held: multiset<int>, x: int)
    requires Inv(tb, held) && x !in tb.list
    ensures Edges(tb.list, tb.info, x) == 0
  {
    if Edges(tb.list, tb.info, x) > 0 {
      var y := EdgesFind(tb.list, tb.info, x);
      Facts(tb, held, y);
      var i := OccursFind(NeededBy(tb.info, y), x);
      Target(tb, held, y, i);
      assert false;
    }
  }

  /** A new soinfo on solist. */
  ghost function Added(tb: Table, y: int, so: So): Table { tb.(list := tb.list + [y], info := tb.info[y := so]) }

  lemma LibAdded(tb: Table, held: multiset<int>, y: int, name: string, wants: seq<string>)
    requires Inv(tb, held) && y !in tb.list
    ensures Inv(Added(tb, y, Blank(name, wants)), held)
  {
    hide LibOk;
    var so := Blank(name, wants);
    var tb' := Added(tb, y, so);
    forall x | x in tb'.list ensures LibOk(tb', x) {
      if x != y { Facts(tb, held, x); }
      AddedLib(tb, y, name, wants, x);
    }
    forall x | x in tb'.list ensures Counted(tb', held, x) {
      EdgesAppend(tb.list, tb'.info, y, x);
      NoneOccur(so.needed, x);
      EdgesSame(tb.list, tb.info, tb'.info, x);
      if x != y { Facts(tb, held, x); } else { NoEdges(tb, held, y); }
    }
  }

  lemma AddedLib(tb: Table, y: int, name: string, wants: seq<string>, x: int)
    requires y !in tb.list && (x == y || LibOk(tb, x))
    ensures LibOk(Added(tb, y, Blank(name, wants)), x)
  {
    var tb' := Added(tb, y, Blank(name, wants));
    forall j: nat | j < |tb'.info[x].needed| ensures EntryOk(tb', x, j) { if x != y { assert EntryOk(tb, x, j); } }
  }

  /** A library whose entries are all resolved becomes linked. */
  ghost function Finished(tb: Table, y: int): Table
    requires y in tb.info
  { tb.(info := tb.info[y := tb.info[y].(linked := true)], rank := tb.rank[y := tb.clock], clock := tb.clock + 1) }

  lemma LibFinished(tb: Table, held: multiset<int>, y: int)
    requires Inv(tb, held) && y in tb.list && y in tb.info && !tb.info[y].linked
    requires forall i :: 0 <= i < |tb.info[y].needed| ==> tb.info[y].needed[i].Lib?
    ensures Inv(Finished(tb, y), held)
  {
    hide LibOk;
    var tb' := Finished(tb, y);
    forall x | x in tb'.list ensures LibOk(tb', x) { FinishedLib(tb, held, y, x); }
    forall x | x in tb'.list ensures Counted(tb', held, x) {
      Facts(tb, held, x);
      EdgesSame(tb.list, tb.info, tb'.info, x);
    }
  }

  lemma FinishedLib(tb: Table, held: multiset<int>, y: int, x: int)
    requires Inv(tb, held) && y in tb.list && y in tb.info && !tb.info[y].linked && x in tb.list
    requires forall i :: 0 <= i < |tb.info[y].needed| ==> tb.info[y].needed[i].Lib?
    ensures LibOk(Finished(tb, y), x)
  {
    var tb' := Finished(tb, y);
    Facts(tb, held, x);
    forall j: nat | j < |tb'.info[x].needed| ensures EntryOk(tb', x, j) {
      assert EntryOk(tb, x, j);
      if tb.info[x].needed[j].Lib? { Facts(tb, held, tb.info[x].needed[j].si); }
    }
  }

  ghost function Removed(tb: Table, i: nat): Table
    requires i < |tb.list|
  { tb.(list := tb.list[..i] + tb.list[i + 1..]) }

  lemma RemovedMembers(list: seq<int>, i: nat, x: int)
    requires NoDup(list) && i < |list|
    ensures x in list[..i] + list[i + 1..] <==> x in list && x != list[i]
    ensures NoDup(list[..i] + list[i + 1..])
  {
    var r := list[..i] + list[i + 1..];
    assert forall j :: 0 <= j < |r| ==> r[j] == list[if j < i then j else j + 1];
    if x in list && x != list[i] {
      var j :| 0 <= j < |list| && list[j] == x;
      assert r[if j < i then j else j - 1] == x;
    }
  }

  /** The last reference to a library without entries is given back: it leaves solist. */
  lemma LibRemoved(tb: Table, held: multiset<int>, i: nat)
    requires Inv(tb, held) && 0 < i < |tb.list| && tb.list[i] in tb.info
    requires var y := tb.list[i];
        && tb.info[y].refcount == 1 && held[y] == 1
        && forall j :: 0 <= j < |tb.info[y].needed| ==> !tb.info[y].needed[j].Lib?
    ensures Inv(Removed(tb, i), held - multiset{tb.list[i]})
  {
    hide LibOk;
    var tb', y := Removed(tb, i), tb.list[i];
    RemovedMembers(tb.list, i, y);
    Facts(tb, held, y);
    forall x | x in tb'.list ensures LibOk(tb', x) { RemovedMembers(tb.list, i, x); RemovedLib(tb, held, i, x); }
    forall x | x in tb'.list ensures Counted(tb', held - multiset{y}, x) {
      RemovedMembers(tb.list, i, x);
      Facts(tb, held, x);
      EdgesRemove(tb.list, tb.info, i, x);
      NoneOccur(tb.info[y].needed, x);
    }
    forall x | x in held - multiset{y} ensures x in tb'.list { RemovedMembers(tb.list, i, x); }
  }

  lemma RemovedLib(tb: Table, held: multiset<int>, i: nat, x: int)
    requires Inv(tb, held) && i < |tb.list| && x in tb.list && x != tb.list[i]
    requires Edges(tb.list, tb.info, tb.list[i]) == 0
    ensures LibOk(Removed(tb, i), x)
  {
    var tb' := Removed(tb, i);
    Facts(tb, held, x);
    forall j: nat | j < |tb'.info[x].needed| ensures EntryOk(tb', x, j) {
      assert EntryOk(tb, x, j);
      if tb.info[x].needed[j].Lib? {
        var l := tb.info[x].needed[j].si;
        RemovedMembers(tb.list, i, l);
        if l == tb.list[i] {
          OccursPositive(NeededBy(tb.info, x), j, l);
          EdgesPositive(tb.list, tb.info, x, l);
          assert false;
        }
      }
    }
  }

  // ------------------------------ the linker ------------------------------

  /** Everything about a library but its count. */
  ghost predicate SameBut(x: So, y: So) { y == x.(refcount := y.refcount) }

  /** Linking came to an end: the library is linked, or it failed and keeps FLAG_ERROR for good. */
  ghost predicate Settled(so: So) { so.linked != so.error }

  /**
   * Loading only appends to solist and changes no library already there but for its count; all new ones not in but are
   * settled.
   */
  ghost predicate Grown(tb: Table, tb': Table, but: set<int>)
  {
    && tb.list <= tb'.list
    && (forall x :: x in tb.list ==> x in tb.info && x in tb'.info && SameBut(tb.info[x], tb'.info[x]))
    && (forall x :: x in tb.list && x in tb.rank ==> x in tb'.rank && tb'.rank[x] == tb.rank[x])
    && (forall x :: x in tb'.list && x !in tb.list && x !in but ==> x in tb'.info && Settled(tb'.info[x]))
  }

  lemma GrownNone(tb: Table, h: multiset<int>)
    requires Inv(tb, h)
    ensures Grown(tb, tb, {})
  {
    InfoThere(tb, h);
  }

  lemma GrownOn(tb0: Table, tb1: Table, tb2: Table, si: int)
    requires Grown(tb0, tb1, {si}) && Grown(tb1, tb2, {})
    ensures Grown(tb0, tb2, {si})
  {
    assert forall x :: x in tb0.list ==> x in tb1.list;
  }

  lemma GrownEdge(tb0: Table, tb1: Table, si: int, i: nat, l: int, n: nat)
    requires Grown(tb0, tb1, {si}) && si !in tb0.list && si in tb1.info && i < |tb1.info[si].needed| && l in tb1.info
    requires l != si
    ensures Grown(tb0, Recount(SetEntry(tb1, si, i, Lib(l)), l, n), {si})
  {}

  lemma GrownFinish(tb0: Table, tb1: Table, si: int)
    requires Grown(tb0, tb1, {si}) && si !in tb0.list && si in tb1.info && !tb1.info[si].error
    ensures Grown(tb0, Finished(tb1, si), {})
  {}

  /** A link fails: the record stays on solist, and with it the references it has taken. */
  ghost function Failed(tb: Table, y: int): Table
    requires y in tb.info
  { tb.(info := tb.info[y := tb.info[y].(error := true)]) }

  lemma LibFailed(tb: Table, held: multiset<int>, y: int)
    requires Inv(tb, held) && y in tb.list && y in tb.info
    ensures Inv(Failed(tb, y), held)
  {
    var tb' := Failed(tb, y);
    forall x | x in tb'.list ensures LibOk(tb', x) {
      Facts(tb, held, x);
      forall i: nat | i < |tb'.info[x].needed| ensures EntryOk(tb', x, i) { assert EntryOk(tb, x, i); }
    }
    forall x | x in tb'.list ensures Counted(tb', held, x) {
      Facts(tb, held, x);
      EdgesSame(tb.list, tb.info, tb'.info, x);
    }
  }

  lemma GrownFail(tb0: Table, tb1: Table, si: int)
    requires Grown(tb0, tb1, {si}) && si !in tb0.list && si in tb1.info && !tb1.info[si].linked
    ensures Grown(tb0, Failed(tb1, si), {})
  {}

  /** No two libraries on solist have the same name. */
  ghost predicate Named(list: seq<int>, info: map<int, So>)
  { forall x, y :: x in list && y in list && x in info && y in info && x != y ==> info[x].name != info[y].name }

  /** The library files with what they need, and the libraries whose relocations fail. */
  datatype Files = Files(disk: map<string, seq<string>>, broken: set<string>)

  /** Every library but libdl_info is what a file of its name says. */
  ghost predicate Sourced(list: seq<int>, info: map<int, So>, fs: Files)
  { forall x :: x in list && x in info ==> SourceOk(x, info[x], fs) }

  ghost predicate SourceOk(x: int, so: So, fs: Files)
  {
    && (so.linked ==> !so.error)
    && if x == LIBDL then so.name == "libdl.so" && so.wants == []
       else |so.name| < NAME_LEN && (so.linked ==> so.name !in fs.broken) && HasFile(so, fs)
  }

  ghost predicate HasFile(so: So, fs: Files)
  { exists n :: n in fs.disk && so.name == Base(n) && so.wants == fs.disk[n] }

  /** The record is still of the same file, and linked only if it was. */
  predicate SameFile(so: So, so': So)
  { so'.name == so.name && so'.wants == so.wants && (so'.linked ==> so.linked && so'.error == so.error) }

  lemma SourcedKept(list: seq<int>, info: map<int, So>, list': seq<int>, info': map<int, So>, fs: Files)
    requires Sourced(list, info, fs)
    requires forall x :: x in list' && x in info' ==> x in list && x in info && SameFile(info[x], info'[x])
    ensures Sourced(list', info', fs)
  {}

  lemma SourcedAdded(tb: Table, y: int, name: string, fs: Files)
    requires Sourced(tb.list, tb.info, fs) && name in fs.disk && y != LIBDL && |Base(name)| < NAME_LEN
    ensures var tb' := Added(tb, y, Blank(Base(name), fs.disk[name])); Sourced(tb'.list, tb'.info, fs)
  {
    hide Base;
    assert HasFile(Blank(Base(name), fs.disk[name]), fs);
  }

  lemma SourcedFinished(tb: Table, y: int, fs: Files)
    requires Sourced(tb.list, tb.info, fs) && y in tb.info && !tb.info[y].error && tb.info[y].name !in fs.broken
    ensures Sourced(Finished(tb, y).list, Finished(tb, y).info, fs)
  {
    forall x | x in tb.list && x in Finished(tb, y).info ensures SourceOk(x, Finished(tb, y).info[x], fs) {
      assert SourceOk(x, tb.info[x], fs);
    }
  }

  lemma NamesKept(list: seq<int>, info: map<int, So>, list': seq<int>, info': map<int, So>, fs: Files)
    requires Named(list, info) && Sourced(list, info, fs)
    requires forall x :: x in list' && x in info' ==> x in list && x in info && SameFile(info[x], info'[x])
    ensures Named(list', info') && Sourced(list', info', fs)
  {
    SourcedKept(list, info, list', info', fs);
  }

  lemma NamedFinished(tb: Table, y: int)
    requires Named(tb.list, tb.info) && y in tb.info
    ensures Named(Finished(tb, y).list, Finished(tb, y).info)
  {}

  lemma NamedAdded(tb: Table, y: int, so: So)
    requires Named(tb.list, tb.info) && forall x :: x in tb.list && x in tb.info ==> tb.info[x].name != so.name
    ensures Named(Added(tb, y, so).list, Added(tb, y, so).info)
  {}

  lemma GrownStart(tb: Table, si: int, so: So, h: multiset<int>)
    requires si !in tb.list && Inv(tb, h)
    ensures Grown(tb, Added(tb, si, so), {si})
  {
    InfoThere(tb, h);
  }

  ghost predicate PoolsOk(list: seq<int>, free: seq<int>, count: nat)
  {
    && count <= SO_MAX && |list| + |free| == count + 1 && NoDup(free)
    && (forall x :: x in list ==> 0 <= x <= count && x !in free)
    && (forall x :: x in free ==> 1 <= x <= count)
  }

  lemma PoolsFreed(list: seq<int>, free: seq<int>, count: nat, i: nat)
    requires PoolsOk(list, free, count) && NoDup(list) && i < |list| && list[i] != 0
    ensures PoolsOk(list[..i] + list[i + 1..], [list[i]] + free, count)
    ensures forall x :: x in list[..i] + list[i + 1..] <==> x in list && x != list[i]
  {
    forall x ensures x in list[..i] + list[i + 1..] <==> x in list && x != list[i] { RemovedMembers(list, i, x); }
    var y := list[i];
    assert y in list;
    var f := [y] + free;
    assert forall x :: x in f <==> x == y || x in free;
    assert NoDup(f) by {
      forall j, k | 0 <= j < k < |f| ensures f[j] != f[k] {
        assert f[k] == free[k - 1] && free[k - 1] in free;
        if j > 0 { assert f[j] == free[j - 1]; }
      }
    }
    var l := list[..i] + list[i + 1..];
    forall x | x in l ensures 0 <= x <= count && x !in f { RemovedMembers(list, i, x); }
  }

  lemma SolistStart(tb: Table, h: multiset<int>)
    requires Inv(tb, h)
    ensures NoDup(tb.list) && |tb.list| > 0 && tb.list[0] == LIBDL
  {}

  /** What find_library makes of a library on solist that has the name. */
  function Usable(x: int, so: So): int { if so.linked && !so.error then x else -1 }

  lemma OnlyOne(list: seq<int>, info: map<int, So>, si: int)
    requires Named(list, info) && si in list && si in info
    ensures forall x :: x in list && x in info && info[x].name == info[si].name ==> x == si
  {}

  lemma SlotOk(list: seq<int>, free: seq<int>, count: nat, x: int)
    requires PoolsOk(list, free, count) && x in list
    ensures x >= 0
  {}

  /** Every linked library not in but has a reference. */
  ghost predicate Referenced(tb: Table, but: set<int>)
  { forall x :: x in tb.list && x in tb.info && tb.info[x].linked && x !in but ==> tb.info[x].refcount > 0 }

  /** Entry i of x refers to a linked library on solist that has the name it asks for. */
  ghost predicate Resolves(tb: Table, x: int, i: int)
  {
    && x in tb.info && 0 <= i < |tb.info[x].needed| && i < |tb.info[x].wants| && tb.info[x].needed[i].Lib?
    && var l := tb.info[x].needed[i].si;
       l in tb.list && l in tb.info && tb.info[l].linked && tb.info[l].name == Base(tb.info[x].wants[i])
  }

  lemma AllResolve(tb: Table, held: multiset<int>, x: int)
    requires Inv(tb, held) && Complete(tb, {}) && x in tb.list && x in tb.info && tb.info[x].linked
    ensures |tb.info[x].needed| == |tb.info[x].wants| && forall i :: 0 <= i < |tb.info[x].wants| ==> Resolves(tb, x, i)
  {
    hide Inv;
    Facts(tb, held, x);
    forall i: int | 0 <= i < |tb.info[x].wants| ensures Resolves(tb, x, i) { assert EntryOk(tb, x, i); }
  }

  /** Every DT_NEEDED entry of every linked library is resolved, but for the libraries that are being unloaded. */
  ghost predicate Complete(tb: Table, going: set<int>)
  {
    forall x, i :: x in tb.list && x in tb.info && tb.info[x].linked && x !in going && 0 <= i < |tb.info[x].needed| ==>
      tb.info[x].needed[i].Lib?
  }

  lemma CompleteKept(tb: Table, tb': Table, going: set<int>)
    requires Complete(tb, going)
    requires forall x :: x in tb'.list && x in tb'.info && tb'.info[x].linked && x !in going ==>
               x in tb.list && x in tb.info && tb.info[x].linked && tb'.info[x].needed == tb.info[x].needed
    ensures Complete(tb', going)
  {}

  lemma CompleteFinished(tb: Table, y: int)
    requires Complete(tb, {}) && y in tb.info && forall i :: 0 <= i < |tb.info[y].needed| ==> tb.info[y].needed[i].Lib?
    ensures Complete(Finished(tb, y), {})
  {}

  lemma CompleteWider(tb: Table, going: set<int>, y: int)
    requires Complete(tb, going)
    ensures Complete(tb, going + {y})
  {}

  lemma CompleteOff(tb: Table, going: set<int>, y: int)
    requires Complete(tb, going + {y}) && y !in tb.list
    ensures Complete(tb, going)
  {}

  // ------------------------------ when loading succeeds ------------------------------

  /** Names to load, and for each base name a depth above those of the libraries it needs. */
  datatype Plan = Plan(names: set<string>, depth: map<string, nat>)

  ghost predicate LinkedAs(tb: Table, b: string)
  { exists x :: x in tb.list && x in tb.info && tb.info[x].name == b && tb.info[x].linked && !tb.info[x].error }

  ghost predicate NotThere(tb: Table, b: string) { forall x :: x in tb.list && x in tb.info ==> tb.info[x].name != b }

  /** The base names of the plan that are not on solist. */
  ghost function Missing(tb: Table, names: set<string>): set<string>
  { set n | n in names && NotThere(tb, Base(n)) :: Base(n) }

  /**
   * A library is linked already, or its file is there, fits and relocates, and what it needs is in the plan and less
   * deep.
   */
  ghost predicate Loads(tb: Table, fs: Files, p: Plan, n: string)
  {
    && Base(n) in p.depth
    && (LinkedAs(tb, Base(n)) ||
        (NotThere(tb, Base(n)) && n in fs.disk && |Base(n)| < NAME_LEN && Base(n) !in fs.broken
         && forall w :: w in fs.disk[n] ==> w in p.names && Base(w) in p.depth && p.depth[Base(w)] < p.depth[Base(n)]))
  }

  /** Everything in the plan loads, and the pool is large enough. */
  ghost predicate Planned(tb: Table, fs: Files, p: Plan)
  { (forall n :: n in p.names ==> Loads(tb, fs, p, n)) && |tb.list| + |Missing(tb, p.names)| <= SO_MAX + 1 }

  /** The libraries that are new are linked and in the plan. */
  ghost predicate Brought(tb: Table, tb': Table, names: set<string>)
  {
    forall x :: x in tb'.list && x !in tb.list ==>
      x in tb'.info && tb'.info[x].linked && !tb'.info[x].error && exists n :: n in names && Base(n) == tb'.info[x].name
  }

  lemma PlanFound(tb: Table, fs: Files, p: Plan, name: string, x: int)
    requires Planned(tb, fs, p) && name in p.names && Named(tb.list, tb.info) && x in tb.list && x in tb.info
    requires tb.info[x].name == Base(name)
    ensures tb.info[x].linked && !tb.info[x].error
  {
    hide Base;
    assert Loads(tb, fs, p, name);
  }

  lemma PlanRoom(tb: Table, fs: Files, p: Plan, name: string)
    requires Planned(tb, fs, p) && name in p.names && NotThere(tb, Base(name))
    ensures name in fs.disk && |Base(name)| < NAME_LEN && Base(name) !in fs.broken && |tb.list| <= SO_MAX
  {
    hide Base;
    assert Loads(tb, fs, p, name);
    assert Base(name) in Missing(tb, p.names);
    assert |Missing(tb, p.names)| > 0;
  }

  /** The part of the plan that name needs. */
  ghost function Below(p: Plan, name: string): Plan
  {
    var deep := set n | n in p.names && Base(n) in p.depth && Base(name) in p.depth
        && p.depth[Base(n)] < p.depth[Base(name)];
    Plan(deep, p.depth)
  }

  /** With a record for name added, what it needs is still planned. */
  lemma PlanBelow(tb: Table, fs: Files, p: Plan, name: string, y: int)
    requires Planned(tb, fs, p) && name in p.names && NotThere(tb, Base(name)) && y !in tb.list && name in fs.disk
    ensures Planned(Added(tb, y, Blank(Base(name), fs.disk[name])), fs, Below(p, name))
    ensures forall w :: w in fs.disk[name] ==> w in Below(p, name).names
  {
    hide Base;
    var so := Blank(Base(name), fs.disk[name]);
    var tb', q := Added(tb, y, so), Below(p, name);
    assert Loads(tb, fs, p, name);
    forall n | n in q.names ensures Loads(tb', fs, q, n) {
      assert Loads(tb, fs, p, n);
      AddedLoads(tb, fs, p, q, n, y, so);
    }
    forall n | n in q.names && NotThere(tb', Base(n)) ensures NotThere(tb, Base(n)) {
      StillMissing(tb, y, so, Base(n));
    }
    MissingFewer(tb, tb', p.names, q.names, Base(name));
  }

  lemma StillMissing(tb: Table, y: int, so: So, b: string)
    requires NotThere(Added(tb, y, so), b) && y !in tb.list
    ensures NotThere(tb, b)
  {
    forall x | x in tb.list && x in tb.info ensures tb.info[x].name != b { assert x in Added(tb, y, so).list; }
  }

  lemma AddedLoads(tb: Table, fs: Files, p: Plan, q: Plan, n: string, y: int, so: So)
    requires Loads(tb, fs, p, n) && y !in tb.list && so.name != Base(n) && q.depth == p.depth
    requires forall w ::
        w in p.names && Base(w) in p.depth && Base(n) in p.depth && p.depth[Base(w)] < p.depth[Base(n)] ==> w in q.names
    ensures Loads(Added(tb, y, so), fs, q, n)
  {
    hide Base;
    var tb' := Added(tb, y, so);
    if LinkedAs(tb, Base(n)) {
      var x :| x in tb.list && x in tb.info && tb.info[x].name == Base(n) && tb.info[x].linked && !tb.info[x].error;
      assert x in tb'.list && tb'.info[x] == tb.info[x];
    }
  }

  lemma MissingFewer(tb: Table, tb': Table, names: set<string>, names': set<string>, b: string)
    requires names' <= names && b in Missing(tb, names) && b !in Missing(tb', names')
    requires forall n :: n in names' && NotThere(tb', Base(n)) ==> NotThere(tb, Base(n))
    ensures |Missing(tb', names')| < |Missing(tb, names)|
  {
    hide Base, NotThere;
    var a, c := Missing(tb', names'), Missing(tb, names) - {b};
    forall x | x in a ensures x in c {
      var n :| n in names' && NotThere(tb', Base(n)) && Base(n) == x;
      assert n in names && NotThere(tb, Base(n));
    }
    SmallerSet(a, c);
  }

  lemma {:induction false} SmallerSet(a: set<string>, b: set<string>)
    requires forall x :: x in a ==> x in b
    ensures |a| <= |b|
    decreases |a|
  {
    if a != {} {
      var x :| x in a;
      SmallerSet(a - {x}, b - {x});
    }
  }

  /** A plan survives a change that loads part of it. */
  lemma PlanKept(tb: Table, tb': Table, h: multiset<int>, fs: Files, p: Plan)
    requires Planned(tb, fs, p) && Grown(tb, tb', {}) && Brought(tb, tb', p.names) && Inv(tb', h)
    requires Named(tb'.list, tb'.info)
    ensures Planned(tb', fs, p)
  {
    hide Base, Inv, Planned;
    SolistStart(tb', h);
    InfoThere(tb', h);
    forall n | n in p.names ensures Loads(tb', fs, p, n) { PlanOf(tb, fs, p, n); LoadsKept(tb, tb', fs, p, n); }
    RoomKept(tb, tb', p.names, |tb'.list|);
    PlanIs(tb, fs, p);
    PlanIs(tb', fs, p);
  }

  lemma PlanOf(tb: Table, fs: Files, p: Plan, n: string)
    requires Planned(tb, fs, p) && n in p.names
    ensures Loads(tb, fs, p, n)
  {}

  lemma PlanIs(tb: Table, fs: Files, p: Plan)
    ensures Planned(tb, fs, p) <==>
        (forall n :: n in p.names ==> Loads(tb, fs, p, n)) && |tb.list| + |Missing(tb, p.names)| <= SO_MAX + 1
  {}

  lemma LoadsKept(tb: Table, tb': Table, fs: Files, p: Plan, n: string)
    requires Loads(tb, fs, p, n) && Grown(tb, tb', {}) && Brought(tb, tb', p.names)
    requires forall x :: x in tb'.list ==> x in tb'.info
    ensures Loads(tb', fs, p, n)
  {
    hide Base;
    assert forall x :: x in tb.list ==> x in tb'.list;
    if LinkedAs(tb, Base(n)) {
      var x :| x in tb.list && x in tb.info && tb.info[x].name == Base(n) && tb.info[x].linked && !tb.info[x].error;
      assert SameBut(tb.info[x], tb'.info[x]);
      assert LinkedAs(tb', Base(n));
    } else if !NotThere(tb', Base(n)) {
      var x :| x in tb'.list && x in tb'.info && tb'.info[x].name == Base(n);
      assert x in tb.list ==> SameBut(tb.info[x], tb'.info[x]);
      assert x !in tb.list;
      assert LinkedAs(tb', Base(n));
    }
  }

  function NameAt(tb: Table, i: nat): string
    requires i < |tb.list|
  { if tb.list[i] in tb.info then tb.info[tb.list[i]].name else "" }

  /** The names of the libraries from place m to place n. */
  function Arrived(tb: Table, m: nat, n: nat): set<string>
    requires m <= n <= |tb.list|
  { if m == n then {} else Arrived(tb, m, n - 1) + {NameAt(tb, n - 1)} }

  lemma {:induction false} ArrivedFind(tb: Table, m: nat, n: nat, b: string) returns (i: nat)
    requires m <= n <= |tb.list| && b in Arrived(tb, m, n)
    ensures m <= i < n && NameAt(tb, i) == b
    decreases n
  {
    if NameAt(tb, n - 1) == b { i := n - 1; } else { i := ArrivedFind(tb, m, n - 1, b); }
  }

  lemma {:induction false} ArrivedSize(tb: Table, m: nat, n: nat)
    requires m <= n <= |tb.list| && (forall x :: x in tb.list ==> x in tb.info) && NoDup(tb.list)
    requires Named(tb.list, tb.info)
    ensures |Arrived(tb, m, n)| == n - m
    decreases n
  {
    if m < n {
      ArrivedSize(tb, m, n - 1);
      var b := NameAt(tb, n - 1);
      if b in Arrived(tb, m, n - 1) {
        var i := ArrivedFind(tb, m, n - 1, b);
        OneName(tb, i, n - 1);
        assert false;
      }
    }
  }

  lemma OneName(tb: Table, i: nat, j: nat)
    requires i < j < |tb.list| && (forall x :: x in tb.list ==> x in tb.info) && NoDup(tb.list)
    requires Named(tb.list, tb.info)
    ensures NameAt(tb, i) != NameAt(tb, j)
  {
    assert tb.list[i] in tb.list && tb.list[j] in tb.list && tb.list[i] != tb.list[j];
  }

  lemma NewAt(list: seq<int>, list': seq<int>, i: nat)
    requires list <= list' && NoDup(list') && |list| <= i < |list'|
    ensures list'[i] !in list
  {
    assert forall k :: 0 <= k < |list| ==> list[k] == list'[k];
  }

  lemma RoomKept(tb: Table, tb': Table, names: set<string>, n: nat)
    requires Grown(tb, tb', {}) && Brought(tb, tb', names) && NoDup(tb'.list) && Named(tb'.list, tb'.info)
    requires n == |tb'.list|
    requires forall x :: x in tb'.list ==> x in tb'.info
    ensures |tb'.list| + |Missing(tb', names)| <= |tb.list| + |Missing(tb, names)|
  {
    hide Base, Named, NotThere;
    ArrivedSize(tb', |tb.list|, n);
    var a, m, m' := Arrived(tb', |tb.list|, n), Missing(tb, names), Missing(tb', names);
    forall b | b in a ensures b in m && b !in m' { ArrivedMissing(tb, tb', names, b); }
    forall b | b in m' ensures b in m { MissingBefore(tb, tb', names, b); }
    SmallerSet(a + m', m);
    assert a !! m';
  }

  lemma ArrivedMissing(tb: Table, tb': Table, names: set<string>, b: string)
    requires Grown(tb, tb', {}) && Brought(tb, tb', names) && NoDup(tb'.list) && Named(tb'.list, tb'.info)
    requires (forall x :: x in tb'.list ==> x in tb'.info) && b in Arrived(tb', |tb.list|, |tb'.list|)
    ensures b in Missing(tb, names) && b !in Missing(tb', names)
  {
    hide Base;
    var i := ArrivedFind(tb', |tb.list|, |tb'.list|, b);
    var x := tb'.list[i];
    NewAt(tb.list, tb'.list, i);
    var n :| n in names && Base(n) == b;
    forall y | y in tb.list && y in tb.info ensures tb.info[y].name != b {
      assert y in tb'.list && y != x && SameBut(tb.info[y], tb'.info[y]);
    }
    assert NotThere(tb, Base(n)) && !NotThere(tb', b);
  }

  lemma MissingBefore(tb: Table, tb': Table, names: set<string>, b: string)
    requires Grown(tb, tb', {}) && b in Missing(tb', names)
    ensures b in Missing(tb, names)
  {
    hide Base;
    var n :| n in names && NotThere(tb', Base(n)) && Base(n) == b;
    forall y | y in tb.list && y in tb.info ensures tb.info[y].name != b {
      assert y in tb'.list && SameBut(tb.info[y], tb'.info[y]);
    }
    assert NotThere(tb, Base(n));
  }

  lemma BroughtTwice(tb0: Table, tb1: Table, tb2: Table, names: set<string>)
    requires Brought(tb0, tb1, names) && Grown(tb1, tb2, {}) && Brought(tb1, tb2, names)
    ensures Brought(tb0, tb2, names)
  {
    hide Base;
    forall x | x in tb2.list && x !in tb0.list && x in tb1.list
      ensures x in tb2.info && tb2.info[x].linked && !tb2.info[x].error
      ensures exists n :: n in names && Base(n) == tb2.info[x].name
    {
      assert SameBut(tb1.info[x], tb2.info[x]);
    }
  }

  lemma StuckAnyway(so: So, broken: set<string>, names: set<string>, sure: bool, names': set<string>)
    requires Stuck(so, broken, names, sure)
    ensures Stuck(so, broken, names', false)
  {
    var j: nat :| StoppedAt(so, broken, j);
  }

  lemma PoolBound(list: seq<int>, free: seq<int>, count: nat)
    requires PoolsOk(list, free, count)
    ensures |list| <= SO_MAX + 1
  {}

  lemma BroughtNone(tb: Table, names: set<string>)
    ensures Brought(tb, tb, names)
  {}

  predicate SameStanding(x: So, y: So) { y.name == x.name && y.linked == x.linked && y.error == x.error }

  /** Resolving an entry of si to l changes nothing that a plan depends on. */
  lemma PlanResolved(tb0: Table, tb: Table, fs: Files, p: Plan, si: int, i: nat, l: int, n: nat)
    requires Planned(tb, fs, p) && Brought(tb0, tb, p.names) && si in tb.info && i < |tb.info[si].needed|
    requires l in tb.info
    ensures var tb' := Recount(SetEntry(tb, si, i, Lib(l)), l, n); Planned(tb', fs, p) && Brought(tb0, tb', p.names)
  {
    hide Base;
    var tb' := Recount(SetEntry(tb, si, i, Lib(l)), l, n);
    assert forall x :: x in tb.info ==> x in tb'.info && SameStanding(tb.info[x], tb'.info[x]);
    forall b ensures NotThere(tb', b) <==> NotThere(tb, b) { SameNames(tb, tb', b); }
    assert Missing(tb', p.names) == Missing(tb, p.names);
    forall m | m in p.names ensures Loads(tb', fs, p, m) {
      assert Loads(tb, fs, p, m);
      SameNames(tb, tb', Base(m));
    }
  }

  lemma SameNames(tb: Table, tb': Table, b: string)
    requires tb'.list == tb.list && tb'.info.Keys == tb.info.Keys
    requires forall x :: x in tb.info ==> x in tb'.info && SameStanding(tb.info[x], tb'.info[x])
    ensures (NotThere(tb', b) <==> NotThere(tb, b)) && (LinkedAs(tb, b) ==> LinkedAs(tb', b))
  {
    if LinkedAs(tb, b) {
      var x :| x in tb.list && x in tb.info && tb.info[x].name == b && tb.info[x].linked && !tb.info[x].error;
      assert tb'.info[x].name == b;
    }
  }

  lemma BroughtFinished(tb0: Table, tb: Table, names: set<string>, si: int)
    requires Brought(tb0, tb, names) && si in tb0.list && si in tb.info
    ensures Brought(tb0, Finished(tb, si), names)
  {}

  lemma BroughtAll(tb: Table, y: int, so: So, tb': Table, name: string, p: Plan)
    requires Brought(Added(tb, y, so), tb', Below(p, name).names) && name in p.names
    requires y in tb'.info && tb'.info[y].linked && !tb'.info[y].error && tb'.info[y].name == Base(name)
    ensures Brought(tb, tb', p.names)
  {
    hide Base;
    forall x | x in tb'.list && x !in tb.list
      ensures x in tb'.info && tb'.info[x].linked && !tb'.info[x].error
      ensures exists n :: n in p.names && Base(n) == tb'.info[x].name
    {
      if x != y {
        assert x !in Added(tb, y, so).list;
        var n :| n in Below(p, name).names && Base(n) == tb'.info[x].name;
      }
    }
  }

  ghost predicate InPlan(wants: seq<string>, p: Plan) { forall w :: w in wants ==> w in p.names }

  /** A failed link stopped at entry j, or all entries are resolved and relocation failed. */
  ghost predicate StoppedAt(so: So, broken: set<string>, j: nat)
  {
    && !so.linked && so.error && j <= |so.needed| == |so.wants| && (j < |so.needed| || so.name in broken)
    && (forall i :: 0 <= i < j ==> so.needed[i].Lib?) && (forall i :: j <= i < |so.needed| ==> so.needed[i].Unresolved?)
  }

  /** A failed link; if what is in the plan was sure to load, it stopped at the first want outside the plan or later. */
  ghost predicate Stuck(so: So, broken: set<string>, names: set<string>, sure: bool)
  {
    exists j: nat :: StoppedAt(so, broken, j) &&
        (sure && j < |so.wants| ==> exists i :: 0 <= i <= j && so.wants[i] !in names)
  }

  // ------------------------------ what a success shows ------------------------------

  ghost predicate Plannable(tb: Table, fs: Files, name: string) { exists p :: Planned(tb, fs, p) && name in p.names }

  /** The names by which files are asked for. */
  ghost predicate Asked(fs: Files, name: string, n: string)
  { n == name || n in fs.disk || exists f :: f in fs.disk && n in fs.disk[f] }

  /** Different names have different base names. */
  ghost predicate OneFilePerName(fs: Files, name: string)
  { forall n, m :: Asked(fs, name, n) && Asked(fs, name, m) && Base(n) == Base(m) ==> n == m }

  /** The state that a load of name has made from was, with r as its result. */
  ghost predicate Loaded(was: Table, tb: Table, h: multiset<int>, fs: Files, name: string, r: int)
  {
    && Inv(was, h) && Inv(tb, h) && Grown(was, tb, {}) && Complete(tb, {})
    && Named(tb.list, tb.info) && Sourced(tb.list, tb.info, fs)
    && r in tb.list && r in tb.info && tb.info[r].linked && tb.info[r].name == Base(name)
  }

  ghost predicate NewLinked(was: Table, tb: Table, x: int)
  { x in tb.list && x !in was.list && x in tb.info && tb.info[x].linked }

  /** The name, and what the newly linked libraries need. */
  ghost function NamesUsed(was: Table, tb: Table, name: string): set<string>
  { {name} + set x, w | x in tb.list && NewLinked(was, tb, x) && w in tb.info[x].wants :: w }

  /** x is linked and called b. */
  ghost predicate IsLinked(tb: Table, x: int, b: string)
  { x in tb.list && x in tb.info && tb.info[x].linked && tb.info[x].name == b && x in tb.rank }

  /** When the library called b was linked. */
  ghost function RankOf(tb: Table, b: string): nat
  { if exists x :: IsLinked(tb, x, b) then (var x :| IsLinked(tb, x, b); tb.rank[x]) else 0 }

  lemma RankIs(tb: Table, x: int, b: string)
    requires Named(tb.list, tb.info) && IsLinked(tb, x, b)
    ensures RankOf(tb, b) == tb.rank[x]
  {}

  /** What was loaded, with the order of linking as the depth. */
  ghost function PlanUsed(was: Table, tb: Table, name: string): Plan
  {
    var bases := set n | n in NamesUsed(was, tb, name) :: Base(n);
    Plan(NamesUsed(was, tb, name), map b | b in bases :: RankOf(tb, b))
  }

  /** Entry i of a linked library refers to one that was linked earlier. */
  lemma WantLinked(tb: Table, h: multiset<int>, x: int, w: string) returns (l: int)
    requires Inv(tb, h) && Complete(tb, {}) && x in tb.list && x in tb.info && tb.info[x].linked
    requires w in tb.info[x].wants
    ensures IsLinked(tb, l, Base(w)) && x in tb.rank && tb.rank[l] < tb.rank[x]
  {
    hide Inv, Base;
    AllResolve(tb, h, x);
    var i :| 0 <= i < |tb.info[x].wants| && tb.info[x].wants[i] == w;
    assert Resolves(tb, x, i);
    Target(tb, h, x, i);
    l := tb.info[x].needed[i].si;
  }

  /** Every name that was used is the name of a linked library. */
  lemma UsedLinked(was: Table, tb: Table, h: multiset<int>, fs: Files, name: string, r: int, n: string) returns (l: int)
    requires Loaded(was, tb, h, fs, name, r) && n in NamesUsed(was, tb, name)
    ensures IsLinked(tb, l, Base(n)) && Asked(fs, name, n)
  {
    hide Inv, Base, Grown, Complete;
    if n == name {
      Facts(tb, h, r);
      LinkedRank(tb, r);
      l := r;
    } else {
      var x :| x in tb.list && NewLinked(was, tb, x) && n in tb.info[x].wants;
      l := WantLinked(tb, h, x, n);
      NotLibdl(was, tb, h, x);
      var f := FileOf(tb, fs, x);
    }
  }

  lemma NotLibdl(was: Table, tb: Table, h: multiset<int>, x: int)
    requires Inv(was, h) && x !in was.list
    ensures x != LIBDL
  {
    SolistStart(was, h);
  }

  lemma FileOf(tb: Table, fs: Files, x: int) returns (f: string)
    requires Sourced(tb.list, tb.info, fs) && x in tb.list && x in tb.info && x != LIBDL && tb.info[x].linked
    ensures f in fs.disk && tb.info[x].name == Base(f) && tb.info[x].wants == fs.disk[f]
    ensures |tb.info[x].name| < NAME_LEN && tb.info[x].name !in fs.broken
  {
    assert SourceOk(x, tb.info[x], fs);
    f :| f in fs.disk && tb.info[x].name == Base(f) && tb.info[x].wants == fs.disk[f];
  }

  lemma UsedLoads(was: Table, tb: Table, h: multiset<int>, fs: Files, name: string, r: int, n: string)
    requires Loaded(was, tb, h, fs, name, r) && OneFilePerName(fs, name) && n in NamesUsed(was, tb, name)
    ensures Loads(was, fs, PlanUsed(was, tb, name), n)
  {
    hide Inv, Base, Complete, Sourced, Asked;
    var p := PlanUsed(was, tb, name);
    var l := UsedLinked(was, tb, h, fs, name, r, n);
    InfoThere(was, h);
    if l in was.list {
      WasLinked(was, tb, fs, l, Base(n));
    } else {
      NotLibdl(was, tb, h, l);
      var f := FileOf(tb, fs, l);
      FileAsked(fs, name, f);
      assert f == n;
      NewName(was, tb, l, Base(n));
      RankIs(tb, l, Base(n));
      forall w | w in fs.disk[n] ensures w in p.names && Base(w) in p.depth && p.depth[Base(w)] < p.depth[Base(n)] {
        var y := WantLinked(tb, h, l, w);
        RankIs(tb, y, Base(w));
        assert w in NamesUsed(was, tb, name);
      }
    }
  }

  lemma FileAsked(fs: Files, name: string, f: string)
    requires f in fs.disk
    ensures Asked(fs, name, f)
  {}

  /** Loading links no library that was there. */
  lemma WasLinked(was: Table, tb: Table, fs: Files, l: int, b: string)
    requires Grown(was, tb, {}) && Sourced(tb.list, tb.info, fs) && IsLinked(tb, l, b) && l in was.list
    ensures LinkedAs(was, b)
  {
    assert SourceOk(l, tb.info[l], fs) && SameBut(was.info[l], tb.info[l]);
  }

  lemma NewName(was: Table, tb: Table, l: int, b: string)
    requires Grown(was, tb, {}) && Named(tb.list, tb.info) && IsLinked(tb, l, b) && l !in was.list
    ensures NotThere(was, b)
  {
    forall y | y in was.list && y in was.info ensures was.info[y].name != b {
      assert y in tb.list && SameBut(was.info[y], tb.info[y]);
    }
  }

  lemma {:induction false} ArrivedHas(tb: Table, m: nat, n: nat, i: nat)
    requires m <= i < n <= |tb.list|
    ensures NameAt(tb, i) in Arrived(tb, m, n)
    decreases n
  {
    if i < n - 1 { ArrivedHas(tb, m, n - 1, i); }
  }

  lemma UsedRoom(was: Table, tb: Table, h: multiset<int>, fs: Files, name: string, r: int)
    requires Loaded(was, tb, h, fs, name, r)
    ensures |was.list| + |Missing(was, NamesUsed(was, tb, name))| <= |tb.list|
  {
    hide Inv, Base, Complete, Sourced, Asked, NamesUsed;
    SolistStart(tb, h);
    InfoThere(tb, h);
    var m, a := Missing(was, NamesUsed(was, tb, name)), Arrived(tb, |was.list|, |tb.list|);
    ArrivedSize(tb, |was.list|, |tb.list|);
    forall b | b in m ensures b in a {
      var n :| n in NamesUsed(was, tb, name) && NotThere(was, Base(n)) && Base(n) == b;
      var l := UsedLinked(was, tb, h, fs, name, r, n);
      MissingArrived(was, tb, l, b);
    }
    SmallerSet(m, a);
  }

  lemma MissingArrived(was: Table, tb: Table, l: int, b: string)
    requires Grown(was, tb, {}) && IsLinked(tb, l, b) && NotThere(was, b)
    ensures b in Arrived(tb, |was.list|, |tb.list|)
  {
    assert l in was.list ==> SameBut(was.info[l], tb.info[l]);
    var i :| 0 <= i < |tb.list| && tb.list[i] == l;
    assert forall k :: 0 <= k < |was.list| ==> was.list[k] == tb.list[k];
    ArrivedHas(tb, |was.list|, |tb.list|, i);
  }

  /** A load that succeeds could have been planned, if different names have different base names. */
  lemma SuccessPlanned(was: Table, tb: Table, h: multiset<int>, fs: Files, name: string, r: int)
    requires Loaded(was, tb, h, fs, name, r) && OneFilePerName(fs, name) && |tb.list| <= SO_MAX + 1
    ensures Plannable(was, fs, name)
  {
    hide Inv, Base, Complete, Sourced, Asked, Grown, Loads, OneFilePerName;
    var p := PlanUsed(was, tb, name);
    UsedRoom(was, tb, h, fs, name, r);
    forall n | n in p.names ensures Loads(was, fs, p, n) { UsedLoads(was, tb, h, fs, name, r, n); }
    assert name in p.names;
    assert Planned(was, fs, p);
  }

  class Loader {
    /** What the library files need. */
    const disk: map<string, seq<string>>
    /** The libraries whose relocations fail. */
    const broken: set<string>
    var solist: seq<int>
    var freelist: seq<int>
    var socount: nat
    var info: map<int, So>
    ghost var rank: map<int, nat>
    ghost var clock: nat
    /** The open handles and the pinned root. */
    ghost var held: multiset<int>

    ghost function Fs(): Files { Files(disk, broken) }

    ghost function Tb(): Table
      reads this
    { Table(solist, info, rank, clock) }

    /** Every slot of the pool that has been used is on solist or on freelist. */
    ghost predicate Pools()
      reads this
    { PoolsOk(solist, freelist, socount) }

    ghost predicate Ready(h: multiset<int>, but: set<int>, going: set<int>)
      reads this
    {
      && Pools() && Inv(Tb(), h) && Referenced(Tb(), but)
      && Named(solist, info) && Sourced(solist, info, Fs()) && Complete(Tb(), going)
    }

    ghost predicate Valid()
      reads this
    { Ready(held, {}, {}) && LIBDL in held && forall x :: x in solist ==> x in info && Settled(info[x]) }

    constructor (disk: map<string, seq<string>>, broken: set<string>)
      ensures Valid() && solist == [LIBDL] && held == multiset{LIBDL} && this.disk == disk && this.broken == broken
      ensures info == map[LIBDL := So("libdl.so", [], [], 1, true, false)]
    {
      this.disk, this.broken := disk, broken;
      solist, freelist, socount := [LIBDL], [], 0;
      info := map[LIBDL := So("libdl.so", [], [], 1, true, false)];
      rank, clock := map[LIBDL := 0], 1;
      held := multiset{LIBDL};
      new;
      assert LibOk(Tb(), LIBDL) && Counted(Tb(), held, LIBDL);
    }

    /** alloc_info: a soinfo from the free list or the pool, at the end of solist. */
    method AllocInfo(file: string, name: string, wants: seq<string>, ghost h: multiset<int>) returns (si: int)
      requires Ready(h, {}, {}) && forall x :: x in solist && x in info ==> info[x].name != name
      requires file in disk && name == Base(file) && wants == disk[file]
      modifies this`solist, this`freelist, this`socount, this`info
      ensures Ready(h, {}, {})
      ensures si < 0 <==> |name| >= NAME_LEN || (old(freelist) == [] && old(socount) == SO_MAX)
      ensures si < 0 ==> Tb() == old(Tb())
      ensures si >= 0 ==> si !in old(solist) && Tb() == old(Added(Tb(), si, Blank(name, wants)))
    {
      hide Inv, Named, Sourced, Complete, Base;
      if |name| >= NAME_LEN { return -1; }
      if freelist == [] {
        if socount == SO_MAX { return -1; }
        socount := socount + 1;
        freelist := [socount];
      }
      assert freelist[0] in freelist;
      si := freelist[0];
      LibAdded(Tb(), h, si, name, wants);
      NamedAdded(Tb(), si, Blank(name, wants));
      SourcedAdded(Tb(), si, file, Fs());
      CompleteKept(Tb(), Added(Tb(), si, Blank(name, wants)), {});
      assert forall x :: x in freelist[1..] ==> x in freelist && x != si;
      freelist := freelist[1..];
      info := info[si := Blank(name, wants)];
      solist := solist + [si];
    }

    /** free_info: take si off solist and put it on the free list. */
    method FreeInfo(si: int, ghost h: multiset<int>, ghost going: set<int>)
      requires Ready(h, {}, going + {si}) && si in solist && si != LIBDL && si in info && info[si].refcount == 1
      requires h[si] == 1
      requires forall j :: 0 <= j < |info[si].needed| ==> !info[si].needed[j].Lib?
      modifies this`solist, this`freelist
      ensures Ready(h - multiset{si}, {}, going) && forall x :: x in solist <==> x in old(solist) && x != si
    {
      hide Inv, PoolsOk, NoDup, Named, Sourced, Complete;
      SolistStart(Tb(), h);
      var i := 0;
      while solist[i] != si
        invariant 0 <= i < |solist| && si in solist[i..]
        decreases |solist| - i
      {
        assert solist[i..] == [solist[i]] + solist[i + 1..];
        i := i + 1;
      }
      LibRemoved(Tb(), h, i);
      PoolsFreed(solist, freelist, socount, i);
      NamesKept(solist, info, solist[..i] + solist[i + 1..], info, Fs());
      CompleteKept(Tb(), Removed(Tb(), i), going + {si});
      CompleteOff(Removed(Tb(), i), going, si);
      solist := solist[..i] + solist[i + 1..];
      freelist := [si] + freelist;
    }

    /**
     * find_library: a linked library of that name, loading it and what it needs if it is not there. The plan p is any
     * plan of loading; if it can be carried out and has the name, loading succeeds.
     */
    method FindLibrary(name: string, ghost h: multiset<int>, ghost p: Plan) returns (r: int)
      requires Ready(h, {}, {})
      modifies this`solist, this`freelist, this`socount, this`info, this`rank, this`clock
      ensures Ready(h, if r >= 0 then {r} else {}, {}) && Grown(old(Tb()), Tb(), {})
      ensures r >= 0 ==> r in solist && r in info && info[r].linked && info[r].name == Base(name)
      ensures forall x :: x in old(solist) && x in old(info) && old(info)[x].name == Base(name) ==>
                Tb() == old(Tb()) && r == Usable(x, old(info)[x])
      ensures r >= 0 ==> LastComponent(name, info[r].name)
      ensures Planned(old(Tb()), Fs(), p) && name in p.names ==> r >= 0 && Brought(old(Tb()), Tb(), p.names)
      ensures r >= 0 && OneFilePerName(Fs(), name) ==> Plannable(old(Tb()), Fs(), name)
      ensures r < 0 && NotThere(old(Tb()), Base(name)) ==>
                name !in disk || |Base(name)| >= NAME_LEN || |old(solist)| == SO_MAX + 1
                || LeftBehind(old(Tb()), Tb(), name, p)
      decreases SO_MAX + 1 - |solist|, 2
    {
      hide Inv, Base, Counted, LibOk, Named, Sourced, Complete, Planned, Brought, Stuck, Grown, OneFilePerName;
      hide Plannable, LastComponent;
      var bname := Base(name);
      BaseIsLast(name, bname);
      InfoThere(Tb(), h);
      GrownNone(Tb(), h);
      BroughtNone(Tb(), p.names);
      for j := 0 to |solist|
        invariant forall x :: x in solist[..j] ==> info[x].name != bname
      {
        var si := solist[j];
        assert solist[..j + 1] == solist[..j] + [si];
        if info[si].name == bname {
          OnlyOne(solist, info, si);
          SlotOk(solist, freelist, socount, si);
          if Planned(Tb(), Fs(), p) && name in p.names { PlanFound(Tb(), Fs(), p, name, si); }
          if info[si].error { return -1; }
          if info[si].linked {
            PoolBound(solist, freelist, socount);
            if OneFilePerName(Fs(), name) { SuccessPlanned(Tb(), Tb(), h, Fs(), name, si); }
            return si;
          }
          return -1;  // a library that needs itself
        }
      }
      assert solist[..|solist|] == solist;
      assert NotThere(Tb(), bname);
      ghost var was := Tb();
      if Planned(was, Fs(), p) && name in p.names { PlanRoom(was, Fs(), p, name); }
      if name !in disk { return -1; }
      r := AllocInfo(name, bname, disk[name], h);
      if r < 0 { return -1; }
      r := LinkNew(r, name, was, h, p);
      PoolBound(solist, freelist, socount);
      if r >= 0 && OneFilePerName(Fs(), name) { SuccessPlanned(was, Tb(), h, Fs(), name, r); }
    }

    /** init_library on the record that load_library has made. */
    method LinkNew(si: int, name: string, ghost was: Table, ghost h: multiset<int>, ghost p: Plan) returns (r: int)
      requires Ready(h, {}, {}) && name in disk && si >= 0 && si !in was.list
      requires Tb() == Added(was, si, Blank(Base(name), disk[name]))
      requires Inv(was, h) && NotThere(was, Base(name))
      modifies this`solist, this`freelist, this`socount, this`info, this`rank, this`clock
      ensures Ready(h, if r >= 0 then {r} else {}, {}) && Grown(was, Tb(), {})
      ensures r == si || r == -1
      ensures r >= 0 ==> r in solist && r in info && info[r].linked && info[r].name == Base(name)
      ensures Planned(was, Fs(), p) && name in p.names ==> r >= 0 && Brought(was, Tb(), p.names)
      ensures r < 0 ==> LeftBehind(was, Tb(), name, p)
      decreases SO_MAX + 1 - |solist|, 4
    {
      hide Inv, Base, Counted, LibOk, Named, Sourced, Complete, Planned, Brought, Stuck, Grown;
      ghost var so := Blank(Base(name), disk[name]);
      ghost var q := if name in p.names then Below(p, name) else p;
      GrownStart(was, si, so, h);
      if Planned(was, Fs(), p) && name in p.names { PlanBelow(was, Fs(), p, name, si); PlanRoom(was, Fs(), p, name); }
      var ok := LinkImage(si, was, h, q);
      if !ok {
        StuckAnyway(info[si], broken, q.names, Planned(Added(was, si, so), Fs(), q), p.names);
        assert IsLeft(was, si, info[si], name, p);
        return -1;
      }
      if Planned(was, Fs(), p) && name in p.names { BroughtAll(was, si, so, Tb(), name, p); }
      return si;
    }

    /** What a failed load of name leaves on solist. */
    ghost predicate LeftBehind(was: Table, tb: Table, name: string, p: Plan)
    {
      name in disk && exists x :: x in tb.list && x !in was.list && x in tb.info && IsLeft(was, x, tb.info[x], name, p)
    }

    ghost predicate IsLeft(was: Table, x: int, so: So, name: string, p: Plan)
      requires name in disk
    {
      && so.name == Base(name) && so.wants == disk[name]
      && Stuck(so, broken, p.names, name !in p.names && Planned(Added(was, x, Blank(Base(name), disk[name])), Fs(), p))
    }

    /** link_image: the DT_NEEDED loop, then the relocations. */
    method LinkImage(si: int, ghost before: Table, ghost h: multiset<int>, ghost q: Plan) returns (ok: bool)
      requires Ready(h, {}, {}) && si in solist && si !in before.list && Grown(before, Tb(), {si}) && si in info
      requires !info[si].linked && !info[si].error
      requires forall j :: 0 <= j < |info[si].needed| ==> info[si].needed[j].Unresolved?
      requires |info[si].needed| == |info[si].wants|
      modifies this`solist, this`freelist, this`socount, this`info, this`rank, this`clock
      ensures Ready(h, if ok then {si} else {}, {}) && Grown(before, Tb(), {})
      ensures si in solist && si in info && info[si].linked == ok && info[si].error == !ok
      ensures info[si].name == old(info[si].name) && info[si].wants == old(info[si].wants)
      ensures ok ==> info[si].name !in broken && forall i :: 0 <= i < |info[si].needed| ==> Resolves(Tb(), si, i)
      ensures Planned(old(Tb()), Fs(), q) && InPlan(info[si].wants, q) && info[si].name !in broken ==>
                ok && Brought(old(Tb()), Tb(), q.names)
      ensures !ok ==> Stuck(info[si], broken, q.names, Planned(old(Tb()), Fs(), q))
      decreases SO_MAX + 1 - |solist|, 3
    {
      hide Inv, Base, Counted, LibOk, Edges, Grown, Named, Sourced, Complete, Planned, Brought, Resolves, PoolsOk;
      hide OneFilePerName, Plannable, LeftBehind, NotThere;
      var wants := info[si].wants;
      ghost var start := Tb();
      BroughtNone(start, q.names);
      PoolBound(solist, freelist, socount);
      for i := 0 to |wants|
        invariant Ready(h, {}, {}) && Grown(before, Tb(), {si}) && |solist| >= |old(solist)|
        invariant si in solist && si in info && !info[si].linked && !info[si].error && info[si].wants == wants
        invariant info[si].name == old(info[si].name)
        invariant |info[si].needed| == |wants|
        invariant forall j :: 0 <= j < |wants| ==>
            if j < i then info[si].needed[j].Lib? else info[si].needed[j].Unresolved?
        invariant Planned(start, Fs(), q) && (forall j :: 0 <= j < i ==> wants[j] in q.names) ==>
                    Planned(Tb(), Fs(), q) && Brought(start, Tb(), q.names)
      {
        ghost var mid := Tb();
        PoolBound(solist, freelist, socount);
        var l := FindLibrary(wants[i], h, q);
        StillThere(mid, Tb(), si);
        GrownOn(before, mid, Tb(), si);
        ghost var sure := Planned(mid, Fs(), q) && Brought(start, mid, q.names) && wants[i] in q.names;
        if sure { PlanKept(mid, Tb(), h, Fs(), q); BroughtTwice(start, mid, Tb(), q.names); }
        if l < 0 {
          Fail(si, before, h);
          assert StoppedAt(info[si], broken, i);
          return false;
        }
        if sure { PlanResolved(start, Tb(), Fs(), q, si, i, l, info[l].refcount + 1); }
        Resolve(si, i, l, before, h);
      }
      if info[si].name in broken {
        Fail(si, before, h);
        assert StoppedAt(info[si], broken, |wants|);
        return false;
      }
      if Brought(start, Tb(), q.names) { BroughtFinished(start, Tb(), q.names, si); }
      Finish(si, before, h);
      return true;
    }

    /** Linking is done. */
    method Finish(si: int, ghost before: Table, ghost h: multiset<int>)
      requires Ready(h, {}, {}) && si in solist && si !in before.list && Grown(before, Tb(), {si}) && si in info
      requires !info[si].linked && !info[si].error
      requires info[si].name !in broken && forall i :: 0 <= i < |info[si].needed| ==> info[si].needed[i].Lib?
      modifies this`info, this`rank, this`clock
      ensures Ready(h, {si}, {}) && Grown(before, Tb(), {}) && Tb() == old(Finished(Tb(), si))
      ensures forall i :: 0 <= i < |info[si].needed| ==> Resolves(Tb(), si, i)
    {
      hide Inv, Counted, LibOk, Edges, Grown, Named, Sourced, Complete, PoolsOk, Base;
      LibFinished(Tb(), h, si);
      GrownFinish(before, Tb(), si);
      CompleteFinished(Tb(), si);
      NamedFinished(Tb(), si);
      SourcedFinished(Tb(), si, Fs());
      info := info[si := info[si].(linked := true)];
      rank, clock := rank[si := clock], clock + 1;
      AllResolve(Tb(), h, si);
    }

    /** The DT_NEEDED entry i of si now holds l, which counts it. */
    method Resolve(si: int, i: nat, l: int, ghost before: Table, ghost h: multiset<int>)
      requires Ready(h, {l}, {}) && si in solist && si !in before.list && Grown(before, Tb(), {si}) && si in info
      requires !info[si].linked
      requires i < |info[si].needed| && info[si].needed[i].Unresolved? && i < |info[si].wants|
      requires l in solist && l in info && info[l].linked && info[l].name == Base(info[si].wants[i])
      modifies this`info
      ensures Ready(h, {}, {}) && Grown(before, Tb(), {si})
      ensures Tb() == old(Recount(SetEntry(Tb(), si, i, Lib(l)), l, info[l].refcount + 1))
    {
      hide Inv, Counted, LibOk, Edges, Grown, Named, Sourced, PoolsOk, Base, Complete;
      EdgeMade(Tb(), h, si, i, l);
      GrownEdge(before, Tb(), si, i, l, info[l].refcount + 1);
      CompleteKept(Tb(), Recount(SetEntry(Tb(), si, i, Lib(l)), l, info[l].refcount + 1), {});
      ghost var was := info;
      info := info[si := info[si].(needed := info[si].needed[i := Lib(l)])];
      info := info[l := info[l].(refcount := info[l].refcount + 1)];
      NamesKept(solist, was, solist, info, Fs());
    }

    /** The failure exit of link_image. */
    method Fail(si: int, ghost before: Table, ghost h: multiset<int>)
      requires Ready(h, {}, {}) && si in solist && si !in before.list && Grown(before, Tb(), {si}) && si in info
      requires !info[si].linked
      modifies this`info
      ensures Ready(h, {}, {}) && Grown(before, Tb(), {}) && Tb() == old(Failed(Tb(), si))
    {
      hide Inv, Counted, LibOk, Edges, Grown, Named, Sourced, PoolsOk, Complete;
      LibFailed(Tb(), h, si);
      GrownFail(before, Tb(), si);
      CompleteKept(Tb(), Failed(Tb(), si), {});
      NamesKept(solist, info, solist, info[si := info[si].(error := true)], Fs());
      info := info[si := info[si].(error := true)];
    }

    /** One DT_NEEDED entry in unload_library: it is cleared and its reference given back. */
    method UnloadEntry(si: int, d: nat, ghost h: multiset<int>, ghost going: set<int>)
      requires Ready(h, {}, going) && si in going && si in h && LIBDL in h && si in solist && si in info
      requires info[si].linked && si in rank
      requires d < |info[si].needed| && info[si].needed[d].Lib?
      modifies this`solist, this`freelist, this`info
      ensures Ready(h, {}, going) && si in solist && si in info
      ensures info[si] == old(info[si]).(needed := old(info[si].needed)[d := Gone])
      ensures Shrunk(old(Tb()), Tb().(info := info[si := old(info[si])]))
      ensures Later(old(Tb()), Tb(), rank[si])
      decreases rank[si], 0
    {
      hide Inv, Edges, PoolsOk, Shrunk, Referenced, SameBut, Named, Sourced, Complete;
      ghost var was := Tb();
      ShrunkStart(was, h, si);
      var lsi := info[si].needed[d].si;
      Target(Tb(), h, si, d);
      EdgeDropped(Tb(), h, si, d);
      ReferencedEdge(Tb(), si, d);
      info := info[si := info[si].(needed := info[si].needed[d := Gone])];
      NamesKept(solist, was.info, solist, info, Fs());
      CompleteKept(was, Tb(), going);
      ghost var mid := Tb();
      assert mid.info[si := was.info[si]] == was.info[si := was.info[si]];
      Unload(lsi, h + multiset{lsi}, going);
      ShrunkOn(was, mid, Tb(), si);
      assert h + multiset{lsi} - multiset{lsi} == h;
    }

    /** The loop of unload_library over the DT_NEEDED entries. */
    method UnloadNeeded(si: int, ghost h: multiset<int>, ghost going: set<int>)
      requires Ready(h, {}, going) && si in going && si in h && LIBDL in h && si in solist && si in info
      requires info[si].linked && si in rank
      modifies this`solist, this`freelist, this`info
      ensures Ready(h, {}, going) && si in solist && si in info
      ensures Shrunk(old(Tb()), Tb().(info := info[si := old(info[si])]))
      ensures info[si] == old(info[si]).(needed := info[si].needed)
      ensures forall j :: 0 <= j < |info[si].needed| ==> !info[si].needed[j].Lib?
      ensures Later(old(Tb()), Tb(), rank[si])
      decreases rank[si], 1
    {
      hide Inv, Edges, PoolsOk, Shrunk, Referenced, SameBut, Named, Sourced, Later, Complete;
      ghost var was := Tb();
      ShrunkStart(was, h, si);
      LaterStart(was, rank[si]);
      for d := 0 to |info[si].needed|
        invariant Ready(h, {}, going) && si in solist && si in info
        invariant Shrunk(was, Tb().(info := info[si := was.info[si]]))
        invariant info[si] == was.info[si].(needed := info[si].needed) && |info[si].needed| == |was.info[si].needed|
        invariant forall j :: 0 <= j < d ==> !info[si].needed[j].Lib?
        invariant Later(was, Tb(), rank[si])
      {
        if info[si].needed[d].Lib? {
          ghost var mid := Tb();
          UnloadEntry(si, d, h, going);
          ShrunkTwice(was, mid, Tb(), si);
          LaterTwice(was, mid, Tb(), rank[si]);
        }
      }
    }

    /** unload_library: give back one reference to si; with the last one, unload what it needs and then si itself. */
    method Unload(si: int, ghost h: multiset<int>, ghost going: set<int>)
      requires Ready(h, {}, going) && si in h && LIBDL in h - multiset{si} && si in solist && si in info
      requires info[si].linked && si in rank
      modifies this`solist, this`freelist, this`info
      ensures Ready(h - multiset{si}, {}, going) && Shrunk(old(Tb()), Tb())
      ensures Later(old(Tb()), Tb(), rank[si])
      decreases rank[si], 2
    {
      hide Inv, Edges, PoolsOk, Named, Sourced, Complete;
      ghost var was := Tb();
      InfoThere(was, h);
      if info[si].refcount != 1 {
        RefAtLeast(Tb(), h, si);
        HeldChanges(Tb(), h, si, h - multiset{si}, info[si].refcount - 1);
        info := info[si := info[si].(refcount := info[si].refcount - 1)];
        NamesKept(solist, was.info, solist, info, Fs());
        CompleteKept(was, Tb(), going);
        return;
      }
      LastReference(Tb(), h, si);
      CompleteWider(Tb(), going, si);
      UnloadNeeded(si, h, going + {si});
      FreeInfo(si, h, going);
      OffList(Tb(), h - multiset{si}, si, info[si].(refcount := 0));
      NamesKept(solist, info, solist, info[si := info[si].(refcount := 0)], Fs());
      CompleteKept(Tb(), Tb().(info := info[si := info[si].(refcount := 0)]), going);
      info := info[si := info[si].(refcount := 0)];
    }

    /** dlopen: a handle on the one library of that name; a failure keeps every handle, and every count stays exact. */
    method Dlopen(name: string, ghost p: Plan) returns (r: int)
      requires Valid()
      modifies this
      ensures Valid() && held == (if r >= 0 then old(held) + multiset{r} else old(held)) && Grown(old(Tb()), Tb(), {})
      ensures r >= 0 ==> r in solist && info[r].linked && info[r].name == Base(name)
      ensures r >= 0 ==> forall i :: 0 <= i < |info[r].needed| ==> Resolves(Tb(), r, i)
      ensures forall x :: x in old(solist) && old(info)[x].name == Base(name) ==>
          solist == old(solist) && r == Usable(x, old(info)[x])
      ensures r >= 0 ==> LastComponent(name, info[r].name)
      ensures forall x :: x in old(solist) && LastComponent(name, old(info)[x].name) ==>
          old(info)[x].linked && !old(info)[x].error ==> solist == old(solist) && r == x
      ensures Plannable(old(Tb()), Fs(), name) ==> r >= 0
      ensures OneFilePerName(Fs(), name) ==> (r >= 0 <==> Plannable(old(Tb()), Fs(), name))
      ensures r < 0 && NotThere(old(Tb()), Base(name)) ==>
                name !in disk || |Base(name)| >= NAME_LEN || |old(solist)| == SO_MAX + 1
                || LeftBehind(old(Tb()), Tb(), name, p)
    {
      hide Inv, Edges, PoolsOk, Base, Named, Sourced, Grown, Referenced, Complete, Planned, Brought, LeftBehind;
      hide NotThere, LastComponent;
      ghost var was := Tb();
      forall x | x in solist && LastComponent(name, info[x].name) ensures info[x].name == Base(name) {
        BaseIsLast(name, info[x].name);
      }
      BaseIsLast(name, Base(name));
      InfoThere(was, held);
      ghost var q := p;
      if Plannable(was, Fs(), name) { q :| Planned(was, Fs(), q) && name in q.names; }
      r := FindLibrary(name, held, q);
      AllSettled(was, Tb());
      if r >= 0 {
        CountTaken(was, Tb(), r, info[r].refcount + 1);
        HeldChanges(Tb(), held, r, held + multiset{r}, info[r].refcount + 1);
        CompleteKept(Tb(), Recount(Tb(), r, info[r].refcount + 1), {});
        NamesKept(solist, info, solist, info[r := info[r].(refcount := info[r].refcount + 1)], Fs());
        info := info[r := info[r].(refcount := info[r].refcount + 1)];
        held := held + multiset{r};
        AllResolve(Tb(), held, r);
      }
    }

    /**
     * dlclose on an open handle: exactly the libraries that no handle, root or failed library reaches any more are
     * unloaded.
     */
    method Dlclose(handle: int)
      requires Valid() && handle in held && LIBDL in held - multiset{handle}
      modifies this
      ensures Valid() && held == old(held) - multiset{handle} && Shrunk(old(Tb()), Tb())
      ensures forall x :: x in solist <==> x in old(solist) && Reachable(old(info), Roots(old(Tb()), held), x)
    {
      hide Inv, Edges, PoolsOk, Named, Sourced, Complete;
      ghost var was := Tb();
      HeldLinked(was, held, handle);
      Unload(handle, held, {});
      held := held - multiset{handle};
      forall x ensures x in solist <==> x in was.list && Reachable(was.info, Roots(was, held), x) {
        ExactlyReachable(was, Tb(), held, x);
      }
    }
  }

  /** Unloading takes linked libraries off solist and changes no other one but for its count. */
  ghost predicate Shrunk(tb: Table, tb': Table)
  {
    && tb'.rank == tb.rank && tb'.clock == tb.clock
    && (forall x :: x in tb'.list ==> x in tb.list && x in tb.info && x in tb'.info && SameBut(tb.info[x], tb'.info[x]))
    && (forall x :: x in tb.list && x in tb.info && !tb.info[x].linked ==> x in tb'.list)
  }

  lemma ShrunkStart(tb: Table, h: multiset<int>, si: int)
    requires Inv(tb, h) && si in tb.list
    ensures si in tb.info && Shrunk(tb, tb.(info := tb.info[si := tb.info[si]]))
    ensures forall x :: x in tb.list ==> x in tb.info
  {
    InfoThere(tb, h);
  }

  lemma ReferencedEdge(tb: Table, si: int, d: nat)
    requires Referenced(tb, {}) && si in tb.info && d < |tb.info[si].needed|
    ensures Referenced(SetEntry(tb, si, d, Gone), {})
  {}

  /** Libraries linked after rank r are untouched. */
  ghost predicate Later(tb: Table, tb': Table, r: nat)
  {
    forall x :: x in tb.list && x in tb.rank && tb.rank[x] > r ==>
      x in tb'.list && x in tb.info && x in tb'.info && tb'.info[x] == tb.info[x]
  }

  lemma LaterStart(tb: Table, r: nat)
    requires forall x :: x in tb.list ==> x in tb.info
    ensures Later(tb, tb, r)
  {}

  lemma LaterTwice(tb0: Table, tb1: Table, tb2: Table, r: nat)
    requires Later(tb0, tb1, r) && Later(tb1, tb2, r) && tb1.rank == tb0.rank
    ensures Later(tb0, tb2, r)
  {}

  lemma ShrunkTwice(tb0: Table, tb1: Table, tb2: Table, si: int)
    requires si in tb0.info && si in tb1.info && si in tb2.info && tb0.info[si].linked && tb1.info[si].linked
    requires Shrunk(tb0, tb1.(info := tb1.info[si := tb0.info[si]]))
    requires Shrunk(tb1, tb2.(info := tb2.info[si := tb1.info[si]]))
    ensures Shrunk(tb0, tb2.(info := tb2.info[si := tb0.info[si]]))
  {}

  lemma ShrunkOn(tb0: Table, tb1: Table, tb2: Table, si: int)
    requires si in tb0.info && si in tb1.info && si in tb2.info && tb2.info[si] == tb1.info[si] && tb0.info[si].linked
    requires tb1.info[si].linked
    requires Shrunk(tb0, tb1.(info := tb1.info[si := tb0.info[si]])) && Shrunk(tb1, tb2)
    ensures Shrunk(tb0, tb2.(info := tb2.info[si := tb0.info[si]]))
  {}

  /** The record of a library that is not on solist does not matter. */
  lemma OffList(tb: Table, h: multiset<int>, y: int, so: So)
    requires Inv(tb, h) && y !in tb.list
    ensures Inv(tb.(info := tb.info[y := so]), h)
  {
    var tb' := tb.(info := tb.info[y := so]);
    forall x | x in tb'.list ensures LibOk(tb', x) {
      Facts(tb, h, x);
      forall i: nat | i < |tb'.info[x].needed| ensures EntryOk(tb', x, i) { assert EntryOk(tb, x, i); }
    }
    forall x | x in tb'.list ensures Counted(tb', h, x) { Facts(tb, h, x); EdgesSame(tb.list, tb.info, tb'.info, x); }
  }

  lemma RefAtLeast(tb: Table, h: multiset<int>, si: int)
    requires Inv(tb, h) && si in h && si in tb.list && si in tb.info
    ensures tb.info[si].refcount >= 1
  {
    Facts(tb, h, si);
  }

  lemma LastReference(tb: Table, h: multiset<int>, si: int)
    requires Inv(tb, h) && si in h && si in tb.list && si in tb.info && tb.info[si].refcount == 1
    requires LIBDL in h - multiset{si}
    ensures h[si] == 1 && Edges(tb.list, tb.info, si) == 0 && si != LIBDL
  {
    Facts(tb, h, si);
  }

  lemma StillThere(tb: Table, tb': Table, si: int)
    requires Grown(tb, tb', {}) && si in tb.list
    ensures si in tb'.list && si in tb.info && si in tb'.info && SameBut(tb.info[si], tb'.info[si])
    ensures |tb'.list| >= |tb.list|
  {}

  lemma InfoThere(tb: Table, h: multiset<int>)
    requires Inv(tb, h)
    ensures forall x :: x in tb.list ==> x in tb.info
  {
    forall x | x in tb.list ensures x in tb.info { Facts(tb, h, x); }
  }

  lemma CountTaken(tb0: Table, tb1: Table, x: int, n: nat)
    requires Grown(tb0, tb1, {}) && Referenced(tb1, {x}) && x in tb1.info && n > 0
    ensures Grown(tb0, Recount(tb1, x, n), {}) && Referenced(Recount(tb1, x, n), {})
  {}

  lemma AllSettled(tb: Table, tb': Table)
    requires Grown(tb, tb', {}) && forall x :: x in tb.list ==> x in tb.info && Settled(tb.info[x])
    ensures forall x :: x in tb'.list ==> x in tb'.info && Settled(tb'.info[x])
  {}

  lemma HeldLinked(tb: Table, h: multiset<int>, x: int)
    requires Inv(tb, h) && x in h
    ensures x in tb.list && x in tb.info && tb.info[x].linked && x in tb.rank
  {
    Facts(tb, h, x);
  }

  // ------------------------------ reachability ------------------------------

  ghost predicate Edge(info: map<int, So>, y: int, x: int) { y in info && Lib(x) in info[y].needed }

  /** What keeps libraries loaded: the handles and pinned roots, and the libraries whose link failed. */
  ghost function Roots(tb: Table, held: multiset<int>): set<int>
  { set x | x in tb.list && (x in held || (x in tb.info && !tb.info[x].linked)) }

  /** A path of DT_NEEDED edges from a root. */
  ghost predicate Path(info: map<int, So>, roots: set<int>, p: seq<int>)
  { |p| > 0 && p[0] in roots && forall i :: 0 <= i < |p| - 1 ==> Edge(info, p[i], p[i + 1]) }

  ghost predicate Reachable(info: map<int, So>, roots: set<int>, x: int)
  { exists p :: Path(info, roots, p) && p[|p| - 1] == x }

  /** Every library on solist is reachable: it is a root, or needed by a failed one or by one that was linked later. */
  lemma {:induction false} AllReachable(tb: Table, held: multiset<int>, x: int) returns (p: seq<int>)
    requires Inv(tb, held) && Referenced(tb, {}) && x in tb.list
    ensures Path(tb.info, Roots(tb, held), p) && p[|p| - 1] == x
    decreases tb.clock - (if x in tb.rank then tb.rank[x] else tb.clock)
  {
    hide Inv;
    Facts(tb, held, x);
    if x in held || !tb.info[x].linked {
      p := [x];
    } else {
      var y := EdgesFind(tb.list, tb.info, x);
      var i := OccursFind(NeededBy(tb.info, y), x);
      Target(tb, held, y, i);
      Facts(tb, held, y);
      assert Edge(tb.info, y, x);
      if tb.info[y].linked {
        p := AllReachable(tb, held, y);
        p := p + [x];
      } else {
        p := [y, x];
      }
    }
  }

  /** What is reachable from the roots is on solist. */
  lemma {:induction false} ReachableLoaded(tb: Table, held: multiset<int>, p: seq<int>, n: nat)
    requires Inv(tb, held) && Path(tb.info, Roots(tb, held), p) && n < |p|
    ensures p[n] in tb.list
  {
    hide Inv;
    if n > 0 {
      ReachableLoaded(tb, held, p, n - 1);
      assert Edge(tb.info, p[n - 1], p[n]);
      var i :| 0 <= i < |tb.info[p[n - 1]].needed| && tb.info[p[n - 1]].needed[i] == Lib(p[n]);
      Target(tb, held, p[n - 1], i);
    }
  }

  /** Unloading does not change the roots that are left. */
  lemma RootsKept(tb: Table, tb': Table, held: multiset<int>)
    requires Inv(tb', held) && Shrunk(tb, tb')
    ensures Roots(tb', held) == Roots(tb, held)
  {}

  lemma {:induction false} PathKept(tb: Table, tb': Table, held: multiset<int>, p: seq<int>, n: nat)
    requires Inv(tb', held) && Shrunk(tb, tb') && Path(tb.info, Roots(tb', held), p) && n < |p|
    ensures p[n] in tb'.list && Path(tb'.info, Roots(tb', held), p[..n + 1])
  {
    hide Inv;
    if n == 0 {
      assert p[..1] == [p[0]];
    } else {
      PathKept(tb, tb', held, p, n - 1);
      assert Edge(tb.info, p[n - 1], p[n]);
      assert Edge(tb'.info, p[n - 1], p[n]);
      var q := p[..n + 1];
      assert Path(tb'.info, Roots(tb', held), q) by {
        forall i | 0 <= i < |q| - 1 ensures Edge(tb'.info, q[i], q[i + 1]) {
          if i < n - 1 { assert Edge(tb'.info, p[..n][i], p[..n][i + 1]); }
        }
      }
      ReachableLoaded(tb', held, q, n);
    }
  }

  /** After unloading, solist is what the remaining roots reach in the graph as it was. */
  lemma ExactlyReachable(tb: Table, tb': Table, held: multiset<int>, x: int)
    requires Inv(tb', held) && Referenced(tb', {}) && Shrunk(tb, tb')
    ensures x in tb'.list <==> x in tb.list && Reachable(tb.info, Roots(tb, held), x)
  {
    hide Inv, Roots;
    RootsKept(tb, tb', held);
    if x in tb'.list {
      var p := AllReachable(tb', held, x);
      forall i | 0 <= i < |p| - 1 ensures Edge(tb.info, p[i], p[i + 1]) {
        ReachableLoaded(tb', held, p, i);
        assert Edge(tb'.info, p[i], p[i + 1]);
      }
      assert Path(tb.info, Roots(tb, held), p);
    }
    if Reachable(tb.info, Roots(tb, held), x) {
      var p :| Path(tb.info, Roots(tb, held), p) && p[|p| - 1] == x;
      PathKept(tb, tb', held, p, |p| - 1);
    }
  }

  ghost function Handles(held: multiset<int>): set<int> { set y | y in held }

  /** Every library that a failed one took a reference to is reachable from handles and pinned roots. */
  ghost predicate FailuresCovered(tb: Table, held: multiset<int>)
  {
    forall y, l :: y in tb.list && y in tb.info && !tb.info[y].linked && Edge(tb.info, y, l) ==>
      Reachable(tb.info, Handles(held), l)
  }

  ghost predicate LinkedReached(tb: Table, held: multiset<int>)
  { forall x :: x in tb.list && x in tb.info && tb.info[x].linked ==> Reachable(tb.info, Handles(held), x) }

  /** Handles and pinned roots reach every linked library exactly when they reach what failed libraries refer to. */
  lemma HandlesReachAll(tb: Table, held: multiset<int>)
    requires Inv(tb, held) && Referenced(tb, {})
    ensures LinkedReached(tb, held) <==> FailuresCovered(tb, held)
  {
    hide Inv, Reachable;
    if LinkedReached(tb, held) {
      forall y, l | y in tb.list && y in tb.info && !tb.info[y].linked && Edge(tb.info, y, l)
        ensures Reachable(tb.info, Handles(held), l)
      {
        EdgeTarget(tb, held, y, l);
      }
    }
    if FailuresCovered(tb, held) {
      forall x | x in tb.list && x in tb.info && tb.info[x].linked ensures Reachable(tb.info, Handles(held), x) {
        var p := AllReachable(tb, held, x);
        CoveredPath(tb, held, p);
      }
    }
  }

  lemma EdgeTarget(tb: Table, held: multiset<int>, y: int, l: int)
    requires Inv(tb, held) && y in tb.list && Edge(tb.info, y, l)
    ensures l in tb.list && l in tb.info && tb.info[l].linked
  {
    var i :| 0 <= i < |tb.info[y].needed| && tb.info[y].needed[i] == Lib(l);
    Target(tb, held, y, i);
  }

  /** A path that starts at a failed library is replaced by one to its second library and the rest. */
  lemma CoveredPath(tb: Table, held: multiset<int>, p: seq<int>)
    requires Inv(tb, held) && FailuresCovered(tb, held) && Path(tb.info, Roots(tb, held), p)
    requires p[|p| - 1] in tb.info && tb.info[p[|p| - 1]].linked
    ensures Reachable(tb.info, Handles(held), p[|p| - 1])
  {
    hide Inv;
    RootOf(tb, held, p[0]);
    if p[0] in Handles(held) {
      assert Path(tb.info, Handles(held), p);
    } else {
      FirstEdge(tb.info, Roots(tb, held), p);
      var q :| Path(tb.info, Handles(held), q) && q[|q| - 1] == p[1];
      Joined(tb.info, Handles(held), Roots(tb, held), q, p);
    }
  }

  lemma Joined(info: map<int, So>, handles: set<int>, roots: set<int>, q: seq<int>, p: seq<int>)
    requires Path(info, handles, q) && Path(info, roots, p) && |p| > 1 && q[|q| - 1] == p[1]
    ensures Reachable(info, handles, p[|p| - 1])
  {
    var r := q + p[2..];
    forall i | 0 <= i < |r| - 1 ensures Edge(info, r[i], r[i + 1]) {
      if i < |q| - 1 { assert Edge(info, q[i], q[i + 1]); } else { assert Edge(info, p[i - |q| + 2], p[i - |q| + 3]); }
    }
    assert Path(info, handles, r) && r[|r| - 1] == p[|p| - 1];
  }

  lemma RootOf(tb: Table, held: multiset<int>, r: int)
    requires r in Roots(tb, held)
    ensures r in tb.list && (r in Handles(held) || (r in tb.info && !tb.info[r].linked))
  {}

  lemma FirstEdge(info: map<int, So>, roots: set<int>, p: seq<int>)
    requires Path(info, roots, p)
    ensures |p| > 1 ==> Edge(info, p[0], p[1])
  {}

  /** Along DT_NEEDED edges of linked libraries the link order falls. */
  lemma {:induction false} RankFalls(tb: Table, held: multiset<int>, p: seq<int>, n: nat)
    requires Inv(tb, held) && n < |p| && p[0] in tb.list && p[0] in tb.info && tb.info[p[0]].linked
    requires forall i :: 0 <= i < |p| - 1 ==> Edge(tb.info, p[i], p[i + 1])
    ensures p[0] in tb.rank && p[n] in tb.list && p[n] in tb.info && tb.info[p[n]].linked && p[n] in tb.rank
    ensures tb.rank[p[n]] + n <= tb.rank[p[0]]
  {
    if n == 0 {
      Facts(tb, held, p[0]);
    } else {
      RankFalls(tb, held, p, n - 1);
      assert Edge(tb.info, p[n - 1], p[n]);
      var i :| 0 <= i < |tb.info[p[n - 1]].needed| && tb.info[p[n - 1]].needed[i] == Lib(p[n]);
      Target(tb, held, p[n - 1], i);
    }
  }

  /** The graph of loaded libraries, the failed ones included, has no cycle. */
  lemma Acyclic(tb: Table, held: multiset<int>, p: seq<int>)
    requires Inv(tb, held) && |p| > 1 && p[0] in tb.list
    requires forall i :: 0 <= i < |p| - 1 ==> Edge(tb.info, p[i], p[i + 1])
    ensures p[|p| - 1] != p[0]
  {
    hide Inv;
    Facts(tb, held, p[0]);
    if tb.info[p[0]].linked {
      RankFalls(tb, held, p, |p| - 1);
    } else {
      assert Edge(tb.info, p[0], p[1]);
      var i :| 0 <= i < |tb.info[p[0]].needed| && tb.info[p[0]].needed[i] == Lib(p[1]);
      Target(tb, held, p[0], i);
      var q := p[1..];
      forall j | 0 <= j < |q| - 1 ensures Edge(tb.info, q[j], q[j + 1]) { assert Edge(tb.info, p[j + 1], p[j + 2]); }
      RankFalls(tb, held, q, |q| - 1);
    }
  }

  // ------------------------------ whole runs ------------------------------

  datatype Call = Open(name: string) | Close(handle: int)

  /** Any sequence of dlopen calls, failed ones included, and of dlclose calls on open handles. */
  method Run(ld: Loader, calls: seq<Call>) returns (open: multiset<int>)
    requires ld.Valid() && ld.held == multiset{LIBDL}
    modifies ld
    ensures ld.Valid() && ld.held == multiset{LIBDL} + open
    ensures forall x :: x in ld.solist ==>
        x in ld.info && ld.info[x].refcount == Edges(ld.solist, ld.info, x) + (multiset{LIBDL} + open)[x]
    ensures forall x :: x in ld.solist ==> Reachable(ld.info, Roots(ld.Tb(), multiset{LIBDL} + open), x)
    ensures forall x :: x in ld.solist && ld.info[x].linked ==> NeedsLoaded(ld.Tb(), ld.Fs(), x)
  {
    hide Inv, PoolsOk, Grown, Shrunk, Base, Edges, Reachable, Roots, Named, Referenced, Sourced, Complete, NeedsLoaded;
    open := multiset{};
    for n := 0 to |calls|
      invariant ld.Valid() && ld.held == multiset{LIBDL} + open
    {
      match calls[n] {
        case Open(name) =>
          var r := ld.Dlopen(name, Plan({}, map[]));
          if r >= 0 { open := open + multiset{r}; }
        case Close(handle) =>
          if handle in open {
            ld.Dlclose(handle);
            open := open - multiset{handle};
          }
      }
    }
    forall x | x in ld.solist
      ensures x in ld.info && ld.info[x].refcount == Edges(ld.solist, ld.info, x) + ld.held[x]
      ensures Reachable(ld.info, Roots(ld.Tb(), ld.held), x)
    {
      LoadedFacts(ld.Tb(), ld.held, x);
    }
    forall x | x in ld.solist && ld.info[x].linked ensures NeedsLoaded(ld.Tb(), ld.Fs(), x) {
      NeedsFact(ld.Tb(), ld.held, ld.Fs(), x);
    }
  }

  /** What the file of x needs is on solist and linked. */
  ghost predicate NeedsLoaded(tb: Table, fs: Files, x: int)
  {
    && x in tb.info && SourceOk(x, tb.info[x], fs) && |tb.info[x].needed| == |tb.info[x].wants|
    && forall i :: 0 <= i < |tb.info[x].wants| ==> Resolves(tb, x, i)
  }

  lemma NeedsFact(tb: Table, held: multiset<int>, fs: Files, x: int)
    requires Inv(tb, held) && Complete(tb, {}) && Sourced(tb.list, tb.info, fs) && x in tb.list && x in tb.info
    requires tb.info[x].linked
    ensures NeedsLoaded(tb, fs, x)
  {
    AllResolve(tb, held, x);
  }

  lemma LoadedFacts(tb: Table, held: multiset<int>, x: int)
    requires Inv(tb, held) && Referenced(tb, {}) && x in tb.list
    ensures x in tb.info && tb.info[x].refcount == Edges(tb.list, tb.info, x) + held[x]
    ensures Reachable(tb.info, Roots(tb, held), x)
  {
    hide Inv;
    Facts(tb, held, x);
    var p := AllReachable(tb, held, x);
    assert Path(tb.info, Roots(tb, held), p);
  }

  // ------------------------------ a failed load ------------------------------

  /** Library a needs b and c; there is no c. */
  const DISK: map<string, seq<string>> := map["a" := ["b", "c"], "b" := []]

  lemma BaseNames()
    ensures Base("a") == "a" && Base("b") == "b" && Base("c") == "c"
  {}

  /** b alone can be loaded beside a. */
  lemma PlanForB(tb: Table, x: int)
    requires tb.list == [LIBDL] && tb.info == map[LIBDL := So("libdl.so", [], [], 1, true, false)] && x != LIBDL
    ensures Planned(Added(tb, x, Blank("a", ["b", "c"])), Files(DISK, {}), Plan({"b"}, map["b" := 0]))
  {
    BaseNames();
    var tb' := Added(tb, x, Blank("a", ["b", "c"]));
    assert NotThere(tb', "b");
    SmallerSet(Missing(tb', {"b"}), {"b"});
  }

  /** Nothing but libdl_info is reachable from it. */
  lemma OnlyItself(info: map<int, So>, x: int)
    requires LIBDL in info && info[LIBDL].needed == [] && x != LIBDL
    ensures !Reachable(info, {LIBDL}, x)
  {
    if Reachable(info, {LIBDL}, x) {
      var p :| Path(info, {LIBDL}, p) && p[|p| - 1] == x;
      FirstEdge(info, {LIBDL}, p);
      assert false;
    }
  }

  /** No library is called c. */
  lemma NoC(list: seq<int>, info: map<int, So>, l: int)
    requires Sourced(list, info, Files(DISK, {})) && l in list && l in info
    ensures info[l].name != "c" && (info[l].name == "a" ==> info[l].wants == ["b", "c"])
  {
    BaseNames();
    assert SourceOk(l, info[l], Files(DISK, {}));
  }

  /** b is loaded and counted, though libdl_info does not reach it. */
  ghost predicate KeptAlone(tb: Table, b: int)
  {
    && b in tb.list && b in tb.info && tb.info[b].name == "b" && tb.info[b].linked && tb.info[b].refcount > 0
    && !Reachable(tb.info, {LIBDL}, b)
  }

  /** From the start, dlopen("a") fails, and b stays loaded with a reference though no handle and no root reaches it. */
  method FailureKeepsDependency() returns (ld: Loader, r: int)
    ensures fresh(ld) && ld.Valid() && r < 0 && ld.held == multiset{LIBDL} && exists b :: KeptAlone(ld.Tb(), b)
  {
    hide Inv, Base, Named, Sourced, Complete, Planned, Grown, Reachable, PoolsOk, KeptAlone;
    ld := new Loader(DISK, {});
    ghost var was, p := ld.Tb(), Plan({"b"}, map["b" := 0]);
    BaseNames();
    r := ld.Dlopen("a", p);
    if r >= 0 {
      NotOpened(ld.Tb(), ld.held, r);
      assert false;
    }
    ghost var x := Left(ld, was, p);
    PlanForB(was, x);
    ghost var b := DependencyKept(ld.Tb(), ld.held, x);
  }

  lemma NotOpened(tb: Table, held: multiset<int>, r: int)
    requires Inv(tb, held) && Complete(tb, {}) && Sourced(tb.list, tb.info, Files(DISK, {})) && r in tb.list
    requires r in tb.info
    requires tb.info[r].linked
    ensures tb.info[r].name != "a"
  {
    hide Inv, Base, Complete, Sourced;
    BaseNames();
    if tb.info[r].name == "a" {
      NoC(tb.list, tb.info, r);
      AllResolve(tb, held, r);
      assert Resolves(tb, r, 1);
      NoC(tb.list, tb.info, tb.info[r].needed[1].si);
      assert false;
    }
  }

  /** The record that dlopen("a") has left. */
  lemma Left(ld: Loader, was: Table, p: Plan) returns (x: int)
    requires ld.LeftBehind(was, ld.Tb(), "a", p)
    ensures "a" in ld.disk && x in ld.solist && x !in was.list && x in ld.info && ld.IsLeft(was, x, ld.info[x], "a", p)
  {
    x :| x in ld.solist && x !in was.list && x in ld.info && ld.IsLeft(was, x, ld.info[x], "a", p);
  }

  lemma DependencyKept(tb: Table, held: multiset<int>, x: int) returns (b: int)
    requires Inv(tb, held) && Referenced(tb, {}) && Sourced(tb.list, tb.info, Files(DISK, {})) && x in tb.list
    requires x in tb.info
    requires tb.info[x].wants == ["b", "c"] && Stuck(tb.info[x], {}, {"b"}, true)
    ensures KeptAlone(tb, b)
  {
    hide Inv, Base, Reachable;
    BaseNames();
    var j: nat :| StoppedAt(tb.info[x], {}, j) && (j < 2 ==> exists i :: 0 <= i <= j && tb.info[x].wants[i] !in {"b"});
    b := tb.info[x].needed[0].si;
    Facts(tb, held, x);
    assert EntryOk(tb, x, 0);
    SolistStart(tb, held);
    Facts(tb, held, LIBDL);
    assert SourceOk(LIBDL, tb.info[LIBDL], Files(DISK, {}));
    OnlyItself(tb.info, b);
  }
}
