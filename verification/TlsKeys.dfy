/**
 * The TLS keys of pthread.c as atomic steps of any number of threads: key creation and deletion, the per-thread
 * slots, and the start, exit and join of the threads whose slots pthread_key_delete clears.
 */
module TlsKeys {
  import opened BinMap

  const START: nat := 3
  const SIZE: nat := 64
  const DEFAULT_MAP: bv32 := 0x1F
  const ROUNDS: nat := 4

  predicate ValidKey(key: int) { START <= key < SIZE }

  // ------------------------------ the map of allocated keys ------------------------------

  /** tlsmap_test on the words of the map */
  predicate Test(words: seq<bv32>, key: nat)
    requires |words| == 2 && key < SIZE
  { Marked(words[key / 32], key % 32) }

  function SetBit(words: seq<bv32>, key: nat): (r: seq<bv32>)
    requires |words| == 2 && key < SIZE
    ensures |r| == 2
  { words[key / 32 := Mark(words[key / 32], key % 32)] }

  function ClearBit(words: seq<bv32>, key: nat): (r: seq<bv32>)
    requires |words| == 2 && key < SIZE
    ensures |r| == 2
  { words[key / 32 := Clear(words[key / 32], key % 32)] }

  lemma SetBitLaw(words: seq<bv32>, key: nat, k: nat)
    requires |words| == 2 && key < SIZE && k < SIZE
    ensures Test(SetBit(words, key), k) <==> k == key || Test(words, k)
  {
    hide Marked, Mark;
    if k / 32 == key / 32 { MarkLaw(words[key / 32], key % 32, k % 32); }
  }

  lemma ClearBitLaw(words: seq<bv32>, key: nat, k: nat)
    requires |words| == 2 && key < SIZE && k < SIZE
    ensures Test(ClearBit(words, key), k) <==> k != key && Test(words, k)
  {
    hide Marked, Clear;
    if k / 32 == key / 32 { ClearLaw(words[key / 32], key % 32, k % 32); }
  }

  /** The first key from k on that is not allocated, or SIZE. */
  function FirstFree(words: seq<bv32>, k: nat): (r: nat)
    requires |words| == 2 && k <= SIZE
    ensures k <= r <= SIZE && (forall j :: k <= j < r ==> Test(words, j)) && (r < SIZE ==> !Test(words, r))
    decreases SIZE - k
  { if k == SIZE || !Test(words, k) then k else FirstFree(words, k + 1) }

  /** tlsmap_alloc: the key it sets, or -1. */
  method TlsmapAlloc(words: seq<bv32>) returns (key: int, words': seq<bv32>)
    requires |words| == 2
    ensures key == (if FirstFree(words, START) < SIZE then FirstFree(words, START) else -1)
    ensures key == -1 <==> forall k: nat :: START <= k < SIZE ==> Test(words, k)
    ensures |words'| == 2 && forall k: nat :: k < SIZE ==> (Test(words', k) <==> k == key || Test(words, k))
  {
    hide Test, SetBit;
    key := START;
    while key < SIZE
      invariant START <= key <= SIZE && FirstFree(words, START) == FirstFree(words, key)
    {
      if !Test(words, key) {
        forall k: nat | k < SIZE ensures Test(SetBit(words, key), k) <==> k == key || Test(words, k) {
          SetBitLaw(words, key, k);
        }
        return key, SetBit(words, key);
      }
      key := key + 1;
    }
    return -1, words;
  }

  // ------------------------------ threads and their steps ------------------------------

  type Tid = int

  datatype Result = Ok | Key(key: nat) | EINVAL | ENOMEM

  datatype Owner = Free | By(t: Tid)

  /**
   * Where a thread is. From Allocating to Unlocking it has the lock of the map, in Clearing the lock of the list too.
   */
  datatype PC =
    | Created                          // on the list, its tls field still null
    | Zeroing(nn: nat)                 // in __init_tls, tls published, slots below nn written
    | Running                          // outside these calls, or in a destructor
    | Allocating(dtor: int)            // pthread_key_create
    | Testing(key: nat)                // pthread_key_delete, before tlsmap_test
    | Wanting(key: nat)                // about to lock the thread list
    | Clearing(key: nat, rest: seq<Tid>)  // its loop, with these threads still to come
    | Storing(key: nat, v: int)        // pthread_setspecific
    | Scanning                         // pthread_key_clean_all
    | Unlocking(r: Result, done: bool) // about to unlock the map; done after pthread_key_clean_all
    | Joining(u: Tid)                  // waiting in pthread_join
    | Cleaned                          // in pthread_exit, after the destructors
    | Exited                           // its stack and TLS area are about to be torn down
    | Gone

  /** How far pthread_key_clean_all is: the rounds left, the next key, the destructors called in this round. */
  datatype Clean = NotYet | At(rounds: nat, kk: nat, count: nat)

  /** The value a thread last stored under a key, and the incarnation of the key then. */
  datatype Own = Own(v: int, gen: nat)

  /** A pthread_internal_t with its TLS area; own is a history of what the thread itself stored. */
  datatype Thread = Thread(
    area: seq<int>, published: bool, joinCount: int, detached: bool, clean: Clean, pc: PC, own: seq<Own>)

  /** gen counts the creations of each key. */
  datatype State = State(
    init: bool, words: seq<bv32>, dtors: seq<int>, gen: seq<nat>,
    mapLock: Owner, listLock: Owner, list: seq<Tid>, threads: map<Tid, Thread>)

  datatype Action =
    | Create(u: Tid, mem: seq<int>, detached: bool)  // pthread_create puts u on the list; its area holds anything
    | Publish                                        // __init_tls sets the tls field
    | Zero                                           // and writes one slot
    | SetTls
    | LockMap(call: PC)                              // a call starts: tlsmap_lock
    | Alloc
    | TestKey
    | LockList
    | ClearSlot                                      // the slot of the next thread on the list
    | ClearKey                                       // the bit and the destructor; the list is unlocked
    | Store
    | Scan                                           // to the next destructor that is due
    | UnlockMap
    | JoinStart(u: Tid)
    | JoinReturn                                     // pthread_cond_wait has returned, for whatever reason
    | Exit
    | TearDown
    | Get(key: int)                                  // pthread_getspecific, which takes no lock

  ghost predicate Wf(s: State)
  {
    && |s.words| == 2 && |s.dtors| == SIZE && |s.gen| == SIZE
    && forall t :: t in s.threads ==> |s.threads[t].area| == SIZE && |s.threads[t].own| == SIZE
  }

  /** The words as tlsmap_lock leaves them. */
  function Words(s: State): (r: seq<bv32>)
    requires |s.words| == 2
    ensures |r| == 2
  { if s.init then s.words else s.words[0 := DEFAULT_MAP] }

  predicate Allocated(s: State, k: nat)
    requires |s.words| == 2 && k < SIZE
  { Test(Words(s), k) }

  /** The destructor that pthread_key_clean_all calls next, from key k on, or SIZE. */
  function NextDue(s: State, area: seq<int>, k: nat): (r: nat)
    requires |s.words| == 2 && |s.dtors| == SIZE && |area| == SIZE && k <= SIZE
    ensures k <= r <= SIZE && forall j :: k <= j < r ==> !Test(s.words, j) || area[j] == 0 || s.dtors[j] == 0
    ensures r < SIZE ==> Test(s.words, r) && area[r] != 0 && s.dtors[r] != 0
    decreases SIZE - k
  { if k == SIZE || (Test(s.words, k) && area[k] != 0 && s.dtors[k] != 0) then k else NextDue(s, area, k + 1) }

  /** _pthread_internal_remove_locked */
  function Remove(list: seq<Tid>, t: Tid): (r: seq<Tid>)
    ensures forall u :: u in r <==> u in list && u != t
  { if list == [] then [] else if list[0] == t then Remove(list[1..], t) else [list[0]] + Remove(list[1..], t) }

  predicate CallOk(th: Thread, call: PC)
  {
    match call
    case Allocating(_) => true
    case Testing(key) => ValidKey(key)
    case Storing(key, _) => ValidKey(key)
    case Scanning => th.clean.NotYet? || th.clean.kk <= SIZE
    case _ => false
  }

  ghost predicate Enabled(s: State, t: Tid, a: Action)
    requires Wf(s) && t in s.threads
  {
    var th := s.threads[t];
    match a
    case Create(u, mem, _) => th.pc.Running? && s.listLock.Free? && u !in s.threads && |mem| == SIZE
    case Publish => th.pc.Created?
    case Zero => th.pc.Zeroing? && th.pc.nn < SIZE
    case SetTls => th.pc == Zeroing(SIZE)
    case LockMap(call) => th.pc.Running? && s.mapLock.Free? && CallOk(th, call)
    case Alloc => th.pc.Allocating?
    case TestKey => th.pc.Testing? && th.pc.key < SIZE
    case LockList => th.pc.Wanting? && s.listLock.Free?
    case ClearSlot => th.pc.Clearing? && th.pc.key < SIZE && th.pc.rest != [] && th.pc.rest[0] in s.threads
    case ClearKey => th.pc.Clearing? && th.pc.key < SIZE && th.pc.rest == []
    case Store => th.pc.Storing? && th.pc.key < SIZE
    case Scan => th.pc.Scanning? && th.clean.At? && th.clean.kk <= SIZE
    case UnlockMap => th.pc.Unlocking?
    case JoinStart(u) => th.pc.Running? && s.listLock.Free? && u in s.list && u in s.threads && !s.threads[u].detached
    case JoinReturn => th.pc.Joining? && s.listLock.Free? && th.pc.u in s.threads
    case Exit => th.pc.Cleaned? && s.listLock.Free?
    case TearDown => th.pc.Exited?
    case Get(_) => th.pc.Running?
  }

  function Fresh(mem: seq<int>, detached: bool): Thread
  { Thread(mem, false, 0, detached, NotYet, Created, seq(SIZE, _ => Own(0, 0))) }

  /** The loop of pthread_key_delete skips a zombie and a thread whose tls field is null. */
  predicate Skipped(th: Thread) { th.joinCount < 0 || !th.published }

  function SlotCleared(th: Thread, key: nat): (r: Thread)
    requires |th.area| == SIZE && key < SIZE
    ensures r == th.(area := r.area) && |r.area| == SIZE
  { if Skipped(th) then th else th.(area := th.area[key := 0]) }

  /** The thread besides t that a step changes, or t. */
  ghost function Other(s: State, t: Tid, a: Action): Tid
    requires Wf(s) && t in s.threads && Enabled(s, t, a)
  {
    match a
    case Create(u, _, _) => u
    case ClearSlot => s.threads[t].pc.rest[0]
    case JoinStart(u) => u
    case JoinReturn => s.threads[t].pc.u
    case _ => t
  }

  ghost function NewOther(s: State, t: Tid, a: Action): Thread
    requires Wf(s) && t in s.threads && Enabled(s, t, a)
  {
    match a
    case Create(_, mem, detached) => Fresh(mem, detached)
    case ClearSlot =>
      var u := s.threads[t].pc.rest[0];
      assert u in s.threads;
      SlotCleared(s.threads[u], s.threads[t].pc.key)
    case JoinStart(u) => var th := s.threads[u]; if th.joinCount >= 0 then th.(joinCount := th.joinCount + 1) else th
    case JoinReturn => var th := s.threads[s.threads[t].pc.u]; th.(joinCount := th.joinCount - 1)
    case _ => s.threads[t]
  }

  /** Where t goes. */
  ghost function NewPC(s: State, t: Tid, a: Action): PC
    requires Wf(s) && t in s.threads && Enabled(s, t, a)
  {
    var th := s.threads[t];
    var pc := th.pc;
    match a
    case Create(_, _, _) => pc
    case Publish => Zeroing(0)
    case Zero => Zeroing(pc.nn + 1)
    case SetTls => Running
    case LockMap(call) => call
    case Alloc => Unlocking(if FirstFree(s.words, START) < SIZE then Key(FirstFree(s.words, START)) else ENOMEM, false)
    case TestKey => if Test(s.words, pc.key) then Wanting(pc.key) else Unlocking(EINVAL, false)
    case LockList => Clearing(pc.key, s.list)
    case ClearSlot => Clearing(pc.key, pc.rest[1..])
    case ClearKey => Unlocking(Ok, false)
    case Store => Unlocking(if Test(s.words, pc.key) then Ok else EINVAL, false)
    case Scan => if Due(s, t) < SIZE then Unlocking(Ok, false) else if LastRound(th) then Unlocking(Ok, true) else pc
    case UnlockMap => if pc.done then Cleaned else Running
    case JoinStart(u) => if s.threads[u].joinCount >= 0 then Joining(u) else pc
    case JoinReturn => Running
    case Exit => Exited
    case TearDown => Gone
    case Get(_) => pc
  }

  ghost function Due(s: State, t: Tid): nat
    requires Wf(s) && t in s.threads && s.threads[t].clean.At? && s.threads[t].clean.kk <= SIZE
  { NextDue(s, s.threads[t].area, s.threads[t].clean.kk) }

  /** pthread_key_clean_all ends after a round without destructors, and after the last one. */
  predicate LastRound(th: Thread)
    requires th.clean.At?
  { th.clean.count == 0 || th.clean.rounds <= 1 }

  /** The slot of its own area that t writes, what it writes, and the incarnation of the key. */
  datatype Write = NoWrite | Write(k: nat, v: int, own: Own)

  ghost function OwnWrite(s: State, t: Tid, a: Action): (w: Write)
    requires Wf(s) && t in s.threads && Enabled(s, t, a)
    ensures w.Write? ==> w.k < SIZE
  {
    var th := s.threads[t];
    match a
    case Zero => Write(th.pc.nn, if th.pc.nn < 2 then t else 0, Own(0, 0))
    case Store =>
      if Test(s.words, th.pc.key) then Write(th.pc.key, th.pc.v, Own(th.pc.v, s.gen[th.pc.key])) else NoWrite
    case Scan => if Due(s, t) < SIZE then Write(Due(s, t), 0, Own(0, 0)) else NoWrite
    case _ => NoWrite
  }

  function Written(th: Thread, w: Write): Thread
    requires |th.area| == SIZE && |th.own| == SIZE && (w.Write? ==> w.k < SIZE)
  { if w.NoWrite? then th else th.(area := th.area[w.k := w.v], own := th.own[w.k := w.own]) }

  ghost function NewClean(s: State, t: Tid, a: Action): Clean
    requires Wf(s) && t in s.threads && Enabled(s, t, a)
  {
    var th := s.threads[t];
    if a == LockMap(Scanning) && th.clean.NotYet? then At(ROUNDS, START, 0)
    else if !a.Scan? then th.clean
    else if Due(s, t) < SIZE then At(th.clean.rounds, Due(s, t) + 1, th.clean.count + 1)
    else if LastRound(th) then th.clean
    else At(th.clean.rounds - 1, START, 0)
  }

  /** pthread_exit leaves a zombie unless the thread is detached or somebody waits for it. */
  predicate Zombie(th: Thread, a: Action) { a.Exit? && !th.detached && th.joinCount <= 0 }

  ghost function NewSelf(s: State, t: Tid, a: Action, th: Thread): Thread
    requires Wf(s) && t in s.threads && Enabled(s, t, a) && |th.area| == SIZE && |th.own| == SIZE
  {
    Written(th, OwnWrite(s, t, a)).(
      pc := NewPC(s, t, a), clean := NewClean(s, t, a), published := th.published || a.Publish?,
      joinCount := if Zombie(th, a) then -1 else th.joinCount)
  }

  /** The list changes only while nobody has it locked. */
  ghost function NewList(s: State, t: Tid, a: Action): seq<Tid>
    requires Wf(s) && t in s.threads && Enabled(s, t, a)
  {
    match a
    case Create(u, _, _) => [u] + s.list
    case JoinStart(u) => if s.threads[u].joinCount >= 0 then s.list else Remove(s.list, u)
    case JoinReturn => if s.threads[s.threads[t].pc.u].joinCount <= 1 then Remove(s.list, s.threads[t].pc.u) else s.list
    case Exit => if s.threads[t].detached then Remove(s.list, t) else s.list
    case _ => s.list
  }

  /** The key that a step allocates, and the one it frees. */
  ghost predicate Allocates(s: State, t: Tid, a: Action, k: nat)
    requires Wf(s) && t in s.threads && Enabled(s, t, a)
  { a.Alloc? && k == FirstFree(s.words, START) && k < SIZE }

  ghost predicate Frees(s: State, t: Tid, a: Action, k: nat)
    requires Wf(s) && t in s.threads && Enabled(s, t, a)
  { a.ClearKey? && k == s.threads[t].pc.key }

  ghost function NewWords(s: State, t: Tid, a: Action): (r: seq<bv32>)
    requires Wf(s) && t in s.threads && Enabled(s, t, a)
    ensures |r| == 2
  {
    if a.LockMap? then Words(s)
    else if a.Alloc? && FirstFree(s.words, START) < SIZE then SetBit(s.words, FirstFree(s.words, START))
    else if a.ClearKey? then ClearBit(s.words, s.threads[t].pc.key)
    else s.words
  }

  ghost function NewDtors(s: State, t: Tid, a: Action): (r: seq<int>)
    requires Wf(s) && t in s.threads && Enabled(s, t, a)
    ensures |r| == SIZE
  {
    if a.Alloc? && FirstFree(s.words, START) < SIZE then s.dtors[FirstFree(s.words, START) := s.threads[t].pc.dtor]
    else if a.ClearKey? then s.dtors[s.threads[t].pc.key := 0]
    else s.dtors
  }

  ghost function NewGen(s: State, t: Tid, a: Action): (r: seq<nat>)
    requires Wf(s) && t in s.threads && Enabled(s, t, a)
    ensures |r| == SIZE
  {
    if a.Alloc? && FirstFree(s.words, START) < SIZE
    then s.gen[FirstFree(s.words, START) := s.gen[FirstFree(s.words, START)] + 1] else s.gen
  }

  function NewMapLock(s: State, t: Tid, a: Action): Owner
  { if a.LockMap? then By(t) else if a.UnlockMap? then Free else s.mapLock }

  function NewListLock(s: State, t: Tid, a: Action): Owner
  { if a.LockList? then By(t) else if a.ClearKey? then Free else s.listLock }

  ghost function NewThreads(s: State, t: Tid, a: Action): map<Tid, Thread>
    requires Wf(s) && t in s.threads && Enabled(s, t, a)
  {
    var mid := s.threads[Other(s, t, a) := NewOther(s, t, a)];
    mid[t := NewSelf(s, t, a, mid[t])]
  }

  ghost function After(s: State, t: Tid, a: Action): State
    requires Wf(s) && t in s.threads && Enabled(s, t, a)
  {
    State(s.init || a.LockMap?, NewWords(s, t, a), NewDtors(s, t, a), NewGen(s, t, a),
          NewMapLock(s, t, a), NewListLock(s, t, a), NewList(s, t, a), NewThreads(s, t, a))
  }

  /** One atomic step of thread t. */
  ghost predicate Step(s: State, t: Tid, a: Action, s': State)
  { Wf(s) && t in s.threads && Enabled(s, t, a) && s' == After(s, t, a) }

  /** The main thread is on the list before its TLS area is set up. */
  ghost predicate Init(s: State)
  {
    && !s.init && s.words == [0, 0] && s.dtors == seq(SIZE, _ => 0) && s.gen == seq(SIZE, _ => 0)
    && s.mapLock.Free? && s.listLock.Free?
    && exists main, mem :: |mem| == SIZE && s.list == [main] && s.threads == map[main := Fresh(mem, false)]
  }

  datatype Move = Move(t: Tid, a: Action)

  ghost predicate StepAt(trace: seq<State>, moves: seq<Move>, i: nat)
    requires i < |moves| && |trace| == |moves| + 1
  { Step(trace[i], moves[i].t, moves[i].a, trace[i + 1]) }

  /** A run: any number of threads, any interleaving. */
  ghost predicate Run(trace: seq<State>, moves: seq<Move>)
  {
    && |trace| == |moves| + 1 && Init(trace[0])
    && forall i: nat {:trigger StepAt(trace, moves, i)} :: i < |moves| ==> StepAt(trace, moves, i)
  }

  // ------------------------------ the invariant ------------------------------

  predicate HoldsMap(pc: PC)
  {
    || pc.Allocating? || pc.Testing? || pc.Wanting? || pc.Clearing? || pc.Storing? || pc.Scanning? || pc.Unlocking?
  }

  /** Not yet at the end of pthread_exit. */
  predicate Alive(th: Thread) { !th.pc.Exited? && !th.pc.Gone? }

  /** Past __init_tls and not yet at the end of pthread_exit. */
  predicate Started(th: Thread) { Alive(th) && !th.pc.Created? && !th.pc.Zeroing? }

  /** Slot k of the thread has been set up by __init_tls. */
  predicate Zeroed(th: Thread, k: nat)
  { if th.pc.Created? then false else if th.pc.Zeroing? then k < th.pc.nn else true }

  /** A deletion of key k under way has been at thread u. */
  predicate Passed(s: State, u: Tid, k: nat)
  {
    s.listLock.By? && s.listLock.t in s.threads && s.threads[s.listLock.t].pc.Clearing?
    && s.threads[s.listLock.t].pc.key == k && u !in s.threads[s.listLock.t].pc.rest
  }

  /** What pthread_getspecific promises: what this thread stored under this incarnation of the key, and else NULL. */
  function Expected(s: State, u: Tid, k: nat): int
    requires Wf(s) && u in s.threads && k < SIZE
  { if Current(s, u, k) then s.threads[u].own[k].v else 0 }

  /** What u last stored under k, it stored under this incarnation of the key, which no deletion has taken from it. */
  predicate Current(s: State, u: Tid, k: nat)
    requires Wf(s) && u in s.threads && k < SIZE
  { Allocated(s, k) && s.threads[u].own[k].gen == s.gen[k] && !Passed(s, u, k) }

  ghost predicate SlotOk(s: State, u: Tid, k: nat)
    requires Wf(s) && ValidKey(k)
  {
    u in s.list && u in s.threads && Alive(s.threads[u]) && Zeroed(s.threads[u], k)
    ==> s.threads[u].area[k] == Expected(s, u, k)
  }

  ghost predicate NoDup(list: seq<Tid>) { forall i, j :: 0 <= i < j < |list| ==> list[i] != list[j] }

  ghost predicate PcOk(s: State, t: Tid)
    requires Wf(s) && t in s.threads
  {
    var pc := s.threads[t].pc;
    && (s.mapLock == By(t) <==> HoldsMap(pc))
    && (s.listLock == By(t) <==> pc.Clearing?)
    && (HoldsMap(pc) ==> s.init)
    && (pc.Testing? || pc.Storing? || pc.Wanting? || pc.Clearing? ==> ValidKey(pc.key))
    && (pc.Wanting? || pc.Clearing? ==> Test(s.words, pc.key))
    && (pc.Clearing? ==> NoDup(pc.rest) && forall u :: u in pc.rest ==> u in s.list)
    && (pc.Scanning? ==> s.threads[t].clean.At?)
  }

  ghost predicate ThreadOk(s: State, t: Tid)
    requires Wf(s) && t in s.threads
  {
    var th := s.threads[t];
    && (th.published <==> !th.pc.Created?)
    && (th.joinCount < 0 ==> !Alive(th)) && (th.detached ==> th.joinCount == 0)
    && (!Alive(th) && t in s.list ==> th.joinCount != 0)
  }

  ghost predicate OwnOk(s: State, t: Tid)
    requires Wf(s) && t in s.threads
  {
    && (forall k :: 0 <= k < SIZE ==> s.threads[t].own[k].gen <= s.gen[k])
    && (s.threads[t].pc.Zeroing? ==> s.threads[t].pc.nn <= SIZE)
    && var c := s.threads[t].clean; c.At? ==> START <= c.kk <= SIZE && (c.count == 0 <==> c.kk == START)
  }

  ghost function Joiners(s: State, u: Tid): set<Tid> { set t | t in s.threads && s.threads[t].pc == Joining(u) }

  /** A positive join count is the number of waiting joiners, and whoever is waited for is on the list. */
  ghost predicate JoinsOk(s: State, u: Tid)
  {
    if u in s.threads && u in s.list && s.threads[u].joinCount >= 0 then s.threads[u].joinCount == |Joiners(s, u)|
    else Joiners(s, u) == {}
  }

  ghost predicate ListOk(s: State) { NoDup(s.list) && forall u :: u in s.list ==> u in s.threads }

  ghost predicate OwnersOk(s: State)
  { (s.mapLock.By? ==> s.mapLock.t in s.threads) && (s.listLock.By? ==> s.listLock.t in s.threads) }

  ghost predicate Inv(s: State)
  {
    && Wf(s) && ListOk(s) && OwnersOk(s)
    && (forall t {:trigger PcOk(s, t)} :: t in s.threads ==> PcOk(s, t))
    && (forall t {:trigger ThreadOk(s, t)} :: t in s.threads ==> ThreadOk(s, t))
    && (forall t {:trigger OwnOk(s, t)} :: t in s.threads ==> OwnOk(s, t))
    && (forall u {:trigger JoinsOk(s, u)} :: JoinsOk(s, u))
    && (forall u, k: nat {:trigger SlotOk(s, u, k)} :: ValidKey(k) ==> SlotOk(s, u, k))
  }

  lemma Facts(s: State, t: Tid)
    requires Inv(s) && t in s.threads
    ensures PcOk(s, t) && ThreadOk(s, t) && OwnOk(s, t)
  {
    assert PcOk(s, t) && ThreadOk(s, t) && OwnOk(s, t);
  }

  lemma Parts(s: State)
    requires Inv(s)
    ensures ListOk(s) && OwnersOk(s) && Wf(s)
  {}

  lemma SlotFact(s: State, u: Tid, k: nat)
    requires Inv(s) && ValidKey(k)
    ensures SlotOk(s, u, k)
  {}

  /** What a step does to a thread that was there, apart from its slots. */
  lemma RecordStep(s: State, t: Tid, a: Action, s': State, u: Tid)
    requires Step(s, t, a, s') && u in s.threads
    ensures u in s'.threads
    ensures var th, th' := s.threads[u], s'.threads[u];
            && th'.pc == (if u == t then NewPC(s, t, a) else th.pc)
            && th'.clean == (if u == t then NewClean(s, t, a) else th.clean)
            && th'.detached == th.detached && th'.published == (th.published || (u == t && a.Publish?))
            && th'.joinCount == NewCount(s, t, a, u)
            && |th'.area| == |th'.own| == SIZE
  {
    hide Test, FirstFree, NewList, NewWords, NewDtors, NewGen, NewMapLock, NewListLock, NewPC, NewClean, OwnWrite;
    hide Remove;
    assert |s.threads[u].area| == SIZE;
  }

  ghost function NewCount(s: State, t: Tid, a: Action, u: Tid): int
    requires Wf(s) && t in s.threads && Enabled(s, t, a) && u in s.threads
  {
    var th := s.threads[u];
    if a == JoinStart(u) && th.joinCount >= 0 then th.joinCount + 1
    else if a.JoinReturn? && s.threads[t].pc.u == u then th.joinCount - 1
    else if u == t && Zombie(th, a) then -1
    else th.joinCount
  }

  /** What a step does to the slots of a thread. */
  lemma SlotStep(s: State, t: Tid, a: Action, s': State, u: Tid, k: nat)
    requires Step(s, t, a, s') && u in s.threads && u in s'.threads
    requires |s'.threads[u].area| == |s'.threads[u].own| == SIZE && k < SIZE
    ensures var w := OwnWrite(s, t, a); var th, th' := s.threads[u], s'.threads[u];
            && th'.own[k] == (if u == t && w.Write? && w.k == k then w.own else th.own[k])
            && th'.area[k] ==
                if u == t && w.Write? && w.k == k then w.v else if Clears(s, t, a, u, k) then 0 else th.area[k]
  {
    hide Test, FirstFree, NewList, NewWords, NewDtors, NewGen, NewMapLock, NewListLock, NewPC, NewClean, Remove;
    assert |s.threads[u].area| == SIZE;
  }

  ghost predicate Clears(s: State, t: Tid, a: Action, u: Tid, k: nat)
    requires Wf(s) && t in s.threads && Enabled(s, t, a) && u in s.threads
  { a.ClearSlot? && u == s.threads[t].pc.rest[0] && k == s.threads[t].pc.key && !Skipped(s.threads[u]) }

  /** Only pthread_create adds a thread. */
  lemma NewThread(s: State, t: Tid, a: Action, s': State, u: Tid)
    requires Step(s, t, a, s') && u in s'.threads && u !in s.threads
    ensures a.Create? && u == a.u && s'.threads[u] == Fresh(a.mem, a.detached) && |a.mem| == SIZE
  {
    hide Test, FirstFree, NewList, NewWords, NewDtors, NewGen, NewMapLock, NewListLock, NewSelf, Remove;
  }

  lemma WfKept(s: State, t: Tid, a: Action, s': State)
    requires Step(s, t, a, s')
    ensures Wf(s')
  {
    hide After, Enabled;
    forall u | u in s'.threads ensures |s'.threads[u].area| == |s'.threads[u].own| == SIZE {
      if u in s.threads { RecordStep(s, t, a, s', u); } else { NewThread(s, t, a, s', u); }
    }
    AfterSizes(s, t, a);
  }

  lemma AfterSizes(s: State, t: Tid, a: Action)
    requires Wf(s) && t in s.threads && Enabled(s, t, a)
    ensures |After(s, t, a).words| == 2 && |After(s, t, a).dtors| == SIZE && |After(s, t, a).gen| == SIZE
  {}

  lemma {:induction false} RemoveNoDup(list: seq<Tid>, t: Tid)
    requires NoDup(list)
    ensures NoDup(Remove(list, t))
  {
    if list != [] {
      var rest := list[1..];
      RemoveNoDup(rest, t);
      assert list[0] !in rest;
    }
  }

  lemma ListKept(s: State, t: Tid, a: Action, s': State)
    requires Inv(s) && Step(s, t, a, s')
    ensures ListOk(s') && OwnersOk(s')
  {
    hide NewThreads, NewWords, NewDtors, NewGen, SlotOk, JoinsOk, ThreadOk, PcOk;
    forall u | u in s.threads ensures u in s'.threads { RecordStep(s, t, a, s', u); }
    forall u ensures NoDup(Remove(s.list, u)) { RemoveNoDup(s.list, u); }
    if a.Create? { CreatedThere(s, t, a, s'); }
  }

  lemma CreatedThere(s: State, t: Tid, a: Action, s': State)
    requires Step(s, t, a, s') && a.Create?
    ensures a.u in s'.threads
  {}

  /** Which keys a step allocates and frees. */
  lemma BitsStep(s: State, t: Tid, a: Action, s': State, k: nat)
    requires Inv(s) && Step(s, t, a, s') && k < SIZE && |s'.words| == 2
    ensures Allocated(s', k) <==> Allocates(s, t, a, k) || (!Frees(s, t, a, k) && Allocated(s, k))
  {
    hide Test, SetBit, ClearBit, FirstFree, NewThreads, NewList, NewDtors, NewGen, NewListLock, SlotOk, JoinsOk;
    hide ThreadOk;
    Facts(s, t);
    if a.Alloc? && FirstFree(s.words, START) < SIZE { SetBitLaw(s.words, FirstFree(s.words, START), k); }
    if a.ClearKey? { ClearBitLaw(s.words, s.threads[t].pc.key, k); }
  }

  lemma JoinsFact(s: State, u: Tid)
    requires Inv(s)
    ensures JoinsOk(s, u)
  {}

  lemma GenStep(s: State, t: Tid, a: Action, s': State, k: nat)
    requires Step(s, t, a, s') && Wf(s') && k < SIZE
    ensures s'.gen[k] == s.gen[k] + if Allocates(s, t, a, k) then 1 else 0
  {
    hide NewThreads, NewWords, NewDtors, NewList, Test, FirstFree;
  }

  lemma DtorStep(s: State, t: Tid, a: Action, s': State, k: nat)
    requires Step(s, t, a, s') && Wf(s') && k < SIZE
    ensures s'.dtors[k] ==
        if Allocates(s, t, a, k) then s.threads[t].pc.dtor else if Frees(s, t, a, k) then 0 else s.dtors[k]
  {
    hide NewThreads, NewWords, NewGen, NewList, Test, FirstFree;
  }

  lemma OwnKept(s: State, t: Tid, a: Action, s': State, u: Tid)
    requires Inv(s) && Step(s, t, a, s') && Wf(s') && u in s'.threads
    ensures OwnOk(s', u)
  {
    hide NewThreads, NewWords, NewDtors, NewGen, Test, FirstFree, NextDue, SlotOk, JoinsOk, Remove, PcOk, ThreadOk;
    if u in s.threads {
      assert OwnOk(s, u);
      RecordStep(s, t, a, s', u);
    } else {
      NewThread(s, t, a, s', u);
    }
    forall k: nat | k < SIZE ensures s'.threads[u].own[k].gen <= s'.gen[k] {
      GenStep(s, t, a, s', k);
      if u in s.threads {
        SlotStep(s, t, a, s', u, k);
      } else {
        NewThread(s, t, a, s', u);
      }
    }
  }

  /** Whoever is waited for is on the list and counts the waiting thread. */
  lemma JoinedCounts(s: State, t: Tid)
    requires Inv(s) && t in s.threads && s.threads[t].pc.Joining?
    ensures var u := s.threads[t].pc.u; u in s.list && u in s.threads && s.threads[u].joinCount >= 1
  {
    hide SlotOk, PcOk, ThreadOk, OwnOk;
    assert JoinsOk(s, s.threads[t].pc.u);
    assert t in Joiners(s, s.threads[t].pc.u);
  }

  lemma ThreadKept(s: State, t: Tid, a: Action, s': State, u: Tid)
    requires Inv(s) && Step(s, t, a, s') && Wf(s') && u in s'.threads
    ensures ThreadOk(s', u)
  {
    hide NewThreads, NewWords, NewDtors, NewGen, NewMapLock, NewListLock, NewClean;
    hide Test, FirstFree, NextDue, SlotOk, JoinsOk, Inv, Wf, OwnOk, PcOk;
    if u in s.threads {
      Facts(s, u);
      Facts(s, t);
      RecordStep(s, t, a, s', u);
      if a.JoinReturn? { JoinedCounts(s, t); }
    } else {
      NewThread(s, t, a, s', u);
    }
  }

  lemma PcKept(s: State, t: Tid, a: Action, s': State, u: Tid)
    requires Inv(s) && Step(s, t, a, s') && Wf(s') && u in s'.threads
    ensures PcOk(s', u)
  {
    hide NewThreads, NewWords, NewDtors, NewGen, Test, FirstFree, NextDue, SlotOk, JoinsOk, Inv, Wf, OwnOk, ThreadOk;
    Facts(s, t);
    Parts(s);
    if u in s.threads {
      Facts(s, u);
      RecordStep(s, t, a, s', u);
    } else {
      NewThread(s, t, a, s', u);
    }
    var pc := s'.threads[u].pc;
    if pc.Wanting? || pc.Clearing? { BitsStep(s, t, a, s', pc.key); }
  }

  lemma JoinersStep(s: State, t: Tid, a: Action, s': State, u: Tid)
    requires Step(s, t, a, s')
    ensures Joiners(s', u) ==
      if a.JoinReturn? && s.threads[t].pc == Joining(u) then Joiners(s, u) - {t}
      else if a == JoinStart(u) && s.threads[u].joinCount >= 0 then Joiners(s, u) + {t} else Joiners(s, u)
  {
    hide NewThreads, NewWords, NewDtors, NewGen, NewMapLock, NewListLock, NewList, Test, FirstFree, NextDue, Wf;
    forall x | x in s.threads
      ensures x in s'.threads && s'.threads[x].pc == if x == t then NewPC(s, t, a) else s.threads[x].pc
    {
      RecordStep(s, t, a, s', x);
    }
    forall x | x in s'.threads && x !in s.threads ensures !s'.threads[x].pc.Joining? { NewThread(s, t, a, s', x); }
  }

  lemma JoinsKept(s: State, t: Tid, a: Action, s': State, u: Tid)
    requires Inv(s) && Step(s, t, a, s')
    ensures JoinsOk(s', u)
  {
    hide NewThreads, NewWords, NewDtors, NewGen, NewMapLock, NewListLock, Test, FirstFree, NextDue, Inv, Wf, Joiners;
    hide NewPC;
    JoinsFact(s, u);
    JoinersStep(s, t, a, s', u);
    Parts(s);
    JoinerIs(s, t, u);
    var was := Joiners(s, u);
    if u !in s.threads {
      if u in s'.threads { NewThread(s, t, a, s', u); }
    } else {
      RecordStep(s, t, a, s', u);
      Facts(s, u);
      if a.JoinReturn? {
        JoinedCounts(s, t);
        assert t in was ==> |was - {t}| == |was| - 1;
        assert |was - {t}| == 0 ==> was - {t} == {};
      } else if a.JoinStart? {
        assert |was + {t}| == |was| + 1;
      } else {
        assert |was| == 0 ==> was == {};
      }
    }
  }

  lemma JoinerIs(s: State, t: Tid, u: Tid)
    requires t in s.threads
    ensures t in Joiners(s, u) <==> s.threads[t].pc == Joining(u)
  {}

  lemma PassedStep(s: State, t: Tid, a: Action, s': State, u: Tid, k: nat)
    requires Inv(s) && Step(s, t, a, s') && u in s.list && ValidKey(k)
    ensures Passed(s', u, k) <==>
        !Frees(s, t, a, k) &&
        (Passed(s, u, k) || (a.ClearSlot? && k == s.threads[t].pc.key && u == s.threads[t].pc.rest[0]))
  {
    hide NewThreads, NewWords, NewDtors, NewGen, NewList, Test, FirstFree, NextDue, JoinsOk, SlotOk, Inv, Wf, ThreadOk;
    hide OwnOk;
    Facts(s, t);
    Parts(s);
    RecordStep(s, t, a, s', t);
    if s.listLock.By? { Facts(s, s.listLock.t); RecordStep(s, t, a, s', s.listLock.t); }
    if a.ClearSlot? {
      var rest := s.threads[t].pc.rest;
      assert rest == [rest[0]] + rest[1..];
      assert rest[0] !in rest[1..];
    }
  }

  lemma AllocatesFree(s: State, t: Tid, a: Action, k: nat)
    requires Inv(s) && t in s.threads && Enabled(s, t, a) && Allocates(s, t, a, k)
    ensures ValidKey(k) && !Allocated(s, k)
  {
    hide Test;
    Facts(s, t);
  }

  /** While t has the map locked, nobody else is deleting a key. */
  lemma NotPassed(s: State, t: Tid, u: Tid, k: nat)
    requires Inv(s) && t in s.threads && HoldsMap(s.threads[t].pc) && !s.threads[t].pc.Clearing?
    ensures !Passed(s, u, k)
  {
    Facts(s, t);
    if s.listLock.By? { Facts(s, s.listLock.t); }
  }

  lemma SlotKept(s: State, t: Tid, a: Action, s': State, u: Tid, k: nat)
    requires Inv(s) && Step(s, t, a, s') && Wf(s') && ValidKey(k)
    ensures SlotOk(s', u, k)
  {
    hide NewThreads, NewWords, NewDtors, NewGen, NewClean, Test, FirstFree, NextDue, JoinsOk, Inv, Wf, Allocated;
    hide Passed;
    if u in s.threads && u in s.list {
      Facts(s, t);
      Facts(s, u);
      RecordStep(s, t, a, s', u);
      SlotFact(s, u, k);
      SlotStep(s, t, a, s', u, k);
      BitsStep(s, t, a, s', k);
      GenStep(s, t, a, s', k);
      PassedStep(s, t, a, s', u, k);
      if Allocates(s, t, a, k) { AllocatesFree(s, t, a, k); }
      if a.Store? { NotPassed(s, t, u, k); StoreAllocated(s, t); }
      if a.ClearKey? { AllPassed(s, t, u); }
    } else if u in s'.threads && u !in s.threads {
      NewThread(s, t, a, s', u);
    }
  }

  lemma StoreAllocated(s: State, t: Tid)
    requires Inv(s) && t in s.threads && s.threads[t].pc.Storing?
    ensures ValidKey(s.threads[t].pc.key) && (Test(s.words, s.threads[t].pc.key) <==> Allocated(s, s.threads[t].pc.key))
  {
    Facts(s, t);
  }

  lemma AllPassed(s: State, t: Tid, u: Tid)
    requires Inv(s) && t in s.threads && s.threads[t].pc.Clearing? && s.threads[t].pc.rest == []
    ensures Passed(s, u, s.threads[t].pc.key)
  {
    Facts(s, t);
  }

  lemma InvKept(s: State, t: Tid, a: Action, s': State)
    requires Inv(s) && Step(s, t, a, s')
    ensures Inv(s')
  {
    hide Step, Wf, ListOk, OwnersOk, PcOk, ThreadOk, OwnOk, JoinsOk, SlotOk;
    WfKept(s, t, a, s');
    ListKept(s, t, a, s');
    forall u | u in s'.threads ensures PcOk(s', u) && ThreadOk(s', u) && OwnOk(s', u) {
      PcKept(s, t, a, s', u);
      ThreadKept(s, t, a, s', u);
      OwnKept(s, t, a, s', u);
    }
    forall u ensures JoinsOk(s', u) { JoinsKept(s, t, a, s', u); }
    forall u, k: nat | ValidKey(k) ensures SlotOk(s', u, k) { SlotKept(s, t, a, s', u, k); }
  }

  lemma InitInv(s: State)
    requires Init(s)
    ensures Inv(s)
  {
    var main, mem :| |mem| == SIZE && s.list == [main] && s.threads == map[main := Fresh(mem, false)];
    forall u ensures JoinsOk(s, u) { assert Joiners(s, u) == {}; }
  }

  /** The invariant holds in every state of every run. */
  lemma {:induction false} Safety(trace: seq<State>, moves: seq<Move>, n: nat)
    requires Run(trace, moves) && n <= |moves|
    ensures Inv(trace[n])
  {
    if n == 0 {
      InitInv(trace[0]);
    } else {
      Safety(trace, moves, n - 1);
      assert StepAt(trace, moves, n - 1);
      InvKept(trace[n - 1], moves[n - 1].t, moves[n - 1].a, trace[n]);
    }
  }

  // ------------------------------ reading and creating keys ------------------------------

  /** pthread_getspecific */
  function GetSpecific(th: Thread, key: int): int
    requires |th.area| == SIZE
  { if !ValidKey(key) then 0 else th.area[key] }

  /**
   * In every state of every run, whatever calls are under way, a started thread on the list reads what it stored itself
   * under this incarnation of the key, and NULL under a key that is not allocated.
   */
  lemma GetExact(trace: seq<State>, moves: seq<Move>, n: nat, t: Tid, key: int)
    requires Run(trace, moves) && n <= |moves|
    requires t in trace[n].list && t in trace[n].threads && Started(trace[n].threads[t])
    ensures Wf(trace[n])
    ensures ValidKey(key) ==> GetSpecific(trace[n].threads[t], key) == Expected(trace[n], t, key)
    ensures !ValidKey(key) || !Allocated(trace[n], key) ==> GetSpecific(trace[n].threads[t], key) == 0
  {
    Safety(trace, moves, n);
    if ValidKey(key) { SlotFact(trace[n], t, key); }
  }

  /** Before any call, exactly the five keys with a well-known use are allocated. */
  lemma ReservedKeys(s: State, k: nat)
    requires Init(s) && k < SIZE
    ensures |s.words| == 2 && (Allocated(s, k) <==> k < 5)
  {
    hide Marked, Mark;
    if k < 32 { DefaultMap(k); } else { EmptyMap(k - 32); }
  }

  lemma DefaultMap(k: nat)
    requires k < 32
    ensures Marked(DEFAULT_MAP, k) <==> k < 5
  {
    hide Marked, Mark;
    var m1 := Mark(0, 0);
    var m2 := Mark(m1, 1);
    var m3 := Mark(m2, 2);
    var m4 := Mark(m3, 3);
    assert DEFAULT_MAP == Mark(m4, 4) by { FiveBits(); }
    EmptyMap(k);
    MarkLaw(0, 0, k);
    MarkLaw(m1, 1, k);
    MarkLaw(m2, 2, k);
    MarkLaw(m3, 3, k);
    MarkLaw(m4, 4, k);
  }

  lemma FiveBits()
    ensures DEFAULT_MAP == Mark(Mark(Mark(Mark(Mark(0, 0), 1), 2), 3), 4)
  {}

  /** Slot k is NULL in every started thread on the list. */
  ghost predicate NullEverywhere(s: State, k: nat)
    requires Wf(s) && k < SIZE
  {
    forall u :: u in s.list && u in s.threads && Alive(s.threads[u]) && Zeroed(s.threads[u], k) ==>
      s.threads[u].area[k] == 0
  }

  /**
   * pthread_key_create gives the first free key, which then reads NULL in every started thread on the list; ENOMEM
   * exactly when none is free.
   */
  lemma CreateReadsNull(trace: seq<State>, moves: seq<Move>, n: nat)
    requires Run(trace, moves) && n < |moves| && moves[n].a.Alloc?
    ensures Wf(trace[n]) && Wf(trace[n + 1]) && moves[n].t in trace[n].threads && moves[n].t in trace[n + 1].threads
    ensures var s, s', pc := trace[n], trace[n + 1], trace[n + 1].threads[moves[n].t].pc;
      && pc.Unlocking? && (pc.r == ENOMEM || (pc.r.Key? && ValidKey(pc.r.key)))
      && (pc.r == ENOMEM <==> forall k: nat :: ValidKey(k) ==> Allocated(s, k))
      && (pc.r.Key? ==>
           && !Allocated(s, pc.r.key) && (forall k: nat :: START <= k < pc.r.key ==> Allocated(s, k))
           && (forall k: nat :: ValidKey(k) ==> (Allocated(s', k) <==> k == pc.r.key || Allocated(s, k)))
           && NullEverywhere(s', pc.r.key)
           && s.threads[moves[n].t].pc == Allocating(s'.dtors[pc.r.key]))
  {
    var s, s', t := trace[n], trace[n + 1], moves[n].t;
    Safety(trace, moves, n);
    Safety(trace, moves, n + 1);
    assert StepAt(trace, moves, n);
    AllocNull(s, t, s');
  }

  lemma AllocNull(s: State, t: Tid, s': State)
    requires Inv(s) && Inv(s') && Step(s, t, Alloc, s')
    ensures t in s'.threads
    ensures var pc := s'.threads[t].pc;
      && pc.Unlocking? && (pc.r == ENOMEM || (pc.r.Key? && ValidKey(pc.r.key)))
      && (pc.r == ENOMEM <==> forall k: nat :: ValidKey(k) ==> Allocated(s, k))
      && (pc.r.Key? ==>
           && !Allocated(s, pc.r.key) && (forall k: nat :: START <= k < pc.r.key ==> Allocated(s, k))
           && (forall k: nat :: ValidKey(k) ==> (Allocated(s', k) <==> k == pc.r.key || Allocated(s, k)))
           && NullEverywhere(s', pc.r.key)
           && s.threads[t].pc == Allocating(s'.dtors[pc.r.key]))
  {
    hide Test, Inv, Wf, NewThreads, NewDtors, NewGen, NewWords, SlotOk, NullEverywhere, ThreadOk, OwnOk;
    Parts(s);
    Parts(s');
    Facts(s, t);
    RecordStep(s, t, Alloc, s', t);
    var k := FirstFree(s.words, START);
    assert forall j: nat {:trigger Allocated(s, j)} :: j < SIZE ==> (Allocated(s, j) <==> Test(s.words, j));
    if k < SIZE {
      assert !Allocated(s, k);
      forall j: nat | ValidKey(j) ensures Allocated(s', j) <==> j == k || Allocated(s, j) {
        BitsStep(s, t, Alloc, s', j);
      }
      NewKeyUnused(s, t, s', k);
      DtorStep(s, t, Alloc, s', k);
    }
  }

  lemma NewKeyUnused(s: State, t: Tid, s': State, k: nat)
    requires Inv(s) && Inv(s') && Step(s, t, Alloc, s') && Allocates(s, t, Alloc, k)
    ensures NullEverywhere(s', k)
  {
    hide Test, NewThreads, NewDtors, NewWords, Inv, FirstFree, Passed, Allocated;
    Parts(s);
    Parts(s');
    AllocatesFree(s, t, Alloc, k);
    forall u | u in s'.list && u in s'.threads && Alive(s'.threads[u]) && Zeroed(s'.threads[u], k)
      ensures s'.threads[u].area[k] == 0
    {
      Facts(s, u);
      SlotFact(s', u, k);
      GenStep(s, t, Alloc, s', k);
      SlotStep(s, t, Alloc, s', u, k);
    }
  }

  /** pthread_setspecific and pthread_key_delete refuse exactly the keys that are not allocated. */
  lemma RefusesUnallocated(trace: seq<State>, moves: seq<Move>, n: nat)
    requires Run(trace, moves) && n < |moves| && (moves[n].a.Store? || moves[n].a.TestKey?)
    ensures Wf(trace[n]) && moves[n].t in trace[n].threads && moves[n].t in trace[n + 1].threads
    ensures var pc, pc' := trace[n].threads[moves[n].t].pc, trace[n + 1].threads[moves[n].t].pc;
      && (pc.Storing? || pc.Testing?) && ValidKey(pc.key)
      && (pc' == Unlocking(EINVAL, false) <==> !Allocated(trace[n], pc.key))
  {
    hide NewThreads, NewWords, NewDtors, NewGen, Test, FirstFree, Inv;
    Safety(trace, moves, n);
    Parts(trace[n]);
    assert StepAt(trace, moves, n);
    Facts(trace[n], moves[n].t);
    RecordStep(trace[n], moves[n].t, moves[n].a, trace[n + 1], moves[n].t);
  }

  // ------------------------------ what the calls were given ------------------------------

  /** Step i ends the successful creation of key k. */
  ghost predicate GivesKey(trace: seq<State>, moves: seq<Move>, i: nat, k: nat)
    requires |trace| == |moves| + 1
  {
    && i < |moves| && moves[i].a.Alloc? && moves[i].t in trace[i].threads && moves[i].t in trace[i + 1].threads
    && trace[i].threads[moves[i].t].pc.Allocating? && trace[i + 1].threads[moves[i].t].pc == Unlocking(Key(k), false)
  }

  /** Step i deletes key k. */
  ghost predicate DeletesKey(trace: seq<State>, moves: seq<Move>, i: nat, k: nat)
    requires |trace| == |moves| + 1
  {
    && i < |moves| && moves[i].a.ClearKey? && moves[i].t in trace[i].threads
    && trace[i].threads[moves[i].t].pc.Clearing? && trace[i].threads[moves[i].t].pc.key == k
  }

  /** Key k was created at step i and not deleted since. */
  ghost predicate Since(trace: seq<State>, moves: seq<Move>, i: nat, n: nat, k: nat)
    requires |trace| == |moves| + 1 && n <= |moves|
  { i < n && GivesKey(trace, moves, i, k) && forall m: nat :: i < m < n ==> !DeletesKey(trace, moves, m, k) }

  /** What the steps of a run are, in terms of the state before. */
  lemma KeySteps(trace: seq<State>, moves: seq<Move>, i: nat, k: nat)
    requires Run(trace, moves) && i < |moves| && k < SIZE
    ensures Inv(trace[i]) && Wf(trace[i + 1]) && Step(trace[i], moves[i].t, moves[i].a, trace[i + 1])
    ensures GivesKey(trace, moves, i, k) <==> Allocates(trace[i], moves[i].t, moves[i].a, k)
    ensures DeletesKey(trace, moves, i, k) <==> Frees(trace[i], moves[i].t, moves[i].a, k)
    ensures GivesKey(trace, moves, i, k) ==>
        !DeletesKey(trace, moves, i, k) && moves[i].t in trace[i].threads && trace[i].threads[moves[i].t].pc.Allocating?
  {
    hide Run, Inv, NewThreads, NewWords, NewDtors, NewGen, NewList, NewClean, Test, FirstFree, OwnWrite;
    RunLength(trace, moves);
    Safety(trace, moves, i);
    Safety(trace, moves, i + 1);
    RunStep(trace, moves, i);
    Parts(trace[i]);
    Parts(trace[i + 1]);
    RecordStep(trace[i], moves[i].t, moves[i].a, trace[i + 1], moves[i].t);
  }

  lemma RunStep(trace: seq<State>, moves: seq<Move>, i: nat)
    requires Run(trace, moves) && i < |moves|
    ensures Step(trace[i], moves[i].t, moves[i].a, trace[i + 1])
  {
    assert StepAt(trace, moves, i);
  }

  /**
   * In every state of every run, the destructor of a key is the one its creation was given for as long as the key is
   * not deleted, and NULL when it was never created or has been deleted.
   */
  lemma {:induction false} DtorIsGiven(trace: seq<State>, moves: seq<Move>, n: nat, k: nat)
    requires Run(trace, moves) && n <= |moves| && ValidKey(k)
    ensures Wf(trace[n])
    ensures forall i: nat :: Since(trace, moves, i, n, k) ==>
        Allocated(trace[n], k) && trace[i].threads[moves[i].t].pc == Allocating(trace[n].dtors[k])
    ensures (forall i: nat :: !Since(trace, moves, i, n, k)) ==> trace[n].dtors[k] == 0
  {
    hide Run, Inv, After, Enabled, Allocates, Frees, GivesKey, DeletesKey, Allocated;
    RunLength(trace, moves);
    if n == 0 {
      StartsNull(trace, moves);
      return;
    }
    var l: nat := n - 1;
    var s, t, a, s' := trace[l], moves[l].t, moves[l].a, trace[n];
    KeySteps(trace, moves, l, k);
    DtorIsGiven(trace, moves, l, k);
    DtorStep(s, t, a, s', k);
    BitsStep(s, t, a, s', k);
    if Allocates(s, t, a, k) { AllocatesFree(s, t, a, k); }
    forall i: nat | i != l
      ensures Since(trace, moves, i, n, k) <==> Since(trace, moves, i, l, k) && !DeletesKey(trace, moves, l, k) {}
    if GivesKey(trace, moves, l, k) { assert Since(trace, moves, l, n, k); }
  }

  lemma StartsNull(trace: seq<State>, moves: seq<Move>)
    requires Run(trace, moves)
    ensures Wf(trace[0]) && forall k: nat :: k < SIZE ==> trace[0].dtors[k] == 0
  {}

  predicate Call(pc: PC) { pc.Allocating? || pc.Testing? || pc.Storing? }

  /** A thread in a call is in the one it started last, with the arguments it gave then. */
  lemma {:induction false} CallGiven(trace: seq<State>, moves: seq<Move>, n: nat, t: Tid) returns (j: nat)
    requires Run(trace, moves) && n <= |moves| && t in trace[n].threads && Call(trace[n].threads[t].pc)
    ensures j < n && moves[j] == Move(t, LockMap(trace[n].threads[t].pc))
    ensures forall m: nat :: j < m < n ==> moves[m].t != t
  {
    hide Run, NewThreads, NewWords, NewDtors, NewGen, NewList, NewClean, Test, FirstFree, OwnWrite;
    RunLength(trace, moves);
    NoCallAtStart(trace, moves, t);
    var s, u, a, s' := trace[n - 1], moves[n - 1].t, moves[n - 1].a, trace[n];
    RunStep(trace, moves, n - 1);
    if t !in s.threads { NewThread(s, u, a, s', t); }
    RecordStep(s, u, a, s', t);
    if u == t { return n - 1; }
    j := CallGiven(trace, moves, n - 1, t);
  }

  lemma NoCallAtStart(trace: seq<State>, moves: seq<Move>, t: Tid)
    requires Run(trace, moves)
    ensures t in trace[0].threads ==> !Call(trace[0].threads[t].pc)
  {}

  /** Step i is a write of u into its slot k, or a deletion of k that clears it. */
  ghost predicate Overwrites(trace: seq<State>, moves: seq<Move>, i: nat, u: Tid, k: nat)
    requires |trace| == |moves| + 1 && i < |moves|
  {
    var s, t, a := trace[i], moves[i].t, moves[i].a;
    && Wf(s) && t in s.threads && Enabled(s, t, a)
    && (Writes(s, moves[i], u, k) || (u in s.threads && Clears(s, t, a, u, k)))
  }

  /** A successful pthread_setspecific takes effect: until the slot is written or cleared, a read gives what was set. */
  lemma {:induction false} SetThenGet(trace: seq<State>, moves: seq<Move>, i: nat, n: nat, u: Tid)
    requires Run(trace, moves) && i < n <= |moves| && moves[i] == Move(u, Store)
    requires u in trace[i].threads && trace[i].threads[u].pc.Storing? && ValidKey(trace[i].threads[u].pc.key)
    requires u in trace[i + 1].threads && trace[i + 1].threads[u].pc == Unlocking(Ok, false)
    requires forall m: nat :: i < m < n ==> !Overwrites(trace, moves, m, u, trace[i].threads[u].pc.key)
    ensures u in trace[n].threads && |trace[n].threads[u].area| == SIZE
    ensures GetSpecific(trace[n].threads[u], trace[i].threads[u].pc.key) == trace[i].threads[u].pc.v
  {
    hide Run, NewThreads, NewWords, NewDtors, NewGen, NewList, NewClean, Test, FirstFree, Enabled, Clears;
    RunLength(trace, moves);
    var k := trace[i].threads[u].pc.key;
    var s, t, a, s' := trace[n - 1], moves[n - 1].t, moves[n - 1].a, trace[n];
    RunStep(trace, moves, n - 1);
    if i < n - 1 { SetThenGet(trace, moves, i, n - 1, u); }
    RecordStep(s, t, a, s', u);
    SlotStep(s, t, a, s', u, k);
    if i < n - 1 { assert !Overwrites(trace, moves, n - 1, u, k); }
  }

  // ------------------------------ destructors ------------------------------

  /** A destructor is called on what the thread stored, for an allocated key whose slot is cleared first. */
  lemma DestructorArgument(trace: seq<State>, moves: seq<Move>, n: nat)
    requires Run(trace, moves) && n < |moves| && moves[n].a.Scan? && moves[n].t in trace[n].list
    ensures Wf(trace[n]) && moves[n].t in trace[n].threads && Enabled(trace[n], moves[n].t, Scan)
    ensures moves[n].t in trace[n + 1].threads && Wf(trace[n + 1])
    ensures var s, t, s' := trace[n], moves[n].t, trace[n + 1]; var k := Due(s, t);
      k < SIZE ==>
        && ValidKey(k) && Allocated(s, k) && s.dtors[k] != 0
        && s.threads[t].area[k] == Expected(s, t, k) != 0
        && s'.threads[t].area[k] == 0
        && exists i: nat :: Since(trace, moves, i, n, k) && trace[i].threads[moves[i].t].pc == Allocating(s.dtors[k])
  {
    hide NewThreads, NewWords, NewDtors, NewGen, Test, FirstFree, Inv, Passed;
    Safety(trace, moves, n);
    Safety(trace, moves, n + 1);
    var s, t, s' := trace[n], moves[n].t, trace[n + 1];
    Parts(s);
    Parts(s');
    assert StepAt(trace, moves, n);
    Facts(s, t);
    RecordStep(s, t, Scan, s', t);
    var k := Due(s, t);
    if k < SIZE {
      SlotFact(s, t, k);
      SlotStep(s, t, Scan, s', t, k);
      DtorIsGiven(trace, moves, n, k);
    }
  }

  /** At step i pthread_key_clean_all of t starts another round. */
  ghost predicate Restarts(trace: seq<State>, moves: seq<Move>, i: nat, t: Tid)
    requires |trace| == |moves| + 1 && i < |moves|
  { moves[i] == Move(t, Scan) && t in trace[i + 1].threads && trace[i + 1].threads[t].pc.Scanning? }

  /** How many rounds of destructors t has begun after its first. */
  ghost function MoreRounds(trace: seq<State>, moves: seq<Move>, n: nat, t: Tid): nat
    requires |trace| == |moves| + 1 && n <= |moves|
  { if n == 0 then 0 else MoreRounds(trace, moves, n - 1, t) + if Restarts(trace, moves, n - 1, t) then 1 else 0 }

  /** There are never more than four rounds. */
  lemma {:induction false} RoundsCounted(trace: seq<State>, moves: seq<Move>, n: nat, t: Tid)
    requires Run(trace, moves) && n <= |moves|
    ensures t in trace[n].threads && trace[n].threads[t].clean.At? ==>
        1 <= trace[n].threads[t].clean.rounds == 4 - MoreRounds(trace, moves, n, t)
    ensures !(t in trace[n].threads && trace[n].threads[t].clean.At?) ==> MoreRounds(trace, moves, n, t) == 0
    ensures MoreRounds(trace, moves, n, t) <= 3
  {
    hide Run, Inv, NewThreads, NewWords, NewDtors, NewGen, NewList, Test, FirstFree, OwnWrite, NextDue;
    RunLength(trace, moves);
    NoCleanAtStart(trace, moves, t);
    if n > 0 {
      var s, u, a, s' := trace[n - 1], moves[n - 1].t, moves[n - 1].a, trace[n];
      RoundsCounted(trace, moves, n - 1, t);
      RunStep(trace, moves, n - 1);
      Safety(trace, moves, n - 1);
      Facts(s, u);
      if t in s.threads {
        RecordStep(s, u, a, s', t);
      } else if t in s'.threads {
        NewThread(s, u, a, s', t);
      }
    }
  }

  lemma NoCleanAtStart(trace: seq<State>, moves: seq<Move>, t: Tid)
    requires Run(trace, moves)
    ensures t in trace[0].threads ==> trace[0].threads[t].clean.NotYet?
  {}

  /**
   * pthread_key_clean_all ends after a round without destructors, and then the thread has no value left under a key
   * with a destructor, and after the fourth round.
   */
  lemma CleanedOut(trace: seq<State>, moves: seq<Move>, n: nat)
    requires Run(trace, moves) && n < |moves| && moves[n].a.Scan?
    ensures Wf(trace[n]) && moves[n].t in trace[n].threads && moves[n].t in trace[n + 1].threads
    ensures var s, th := trace[n], trace[n].threads[moves[n].t];
      && th.clean.At?
      && (trace[n + 1].threads[moves[n].t].pc == Unlocking(Ok, true) && MoreRounds(trace, moves, n, moves[n].t) < 3 ==>
           forall k: nat :: ValidKey(k) && Allocated(s, k) && s.dtors[k] != 0 ==> th.area[k] == 0)
      && (th.clean.kk == START ==>
           (forall k: nat :: ValidKey(k) && Allocated(s, k) && s.dtors[k] != 0 ==> th.area[k] == 0) ==>
           trace[n + 1].threads[moves[n].t].pc == Unlocking(Ok, true))
  {
    hide NewThreads, NewWords, NewDtors, NewGen, Test, FirstFree, Inv, Passed;
    Safety(trace, moves, n);
    var s, t, s' := trace[n], moves[n].t, trace[n + 1];
    Parts(s);
    assert StepAt(trace, moves, n);
    Facts(s, t);
    RecordStep(s, t, Scan, s', t);
    RoundsCounted(trace, moves, n, t);
  }

  // ------------------------------ progress ------------------------------

  /** A running thread may begin any call as soon as the map is unlocked. */
  lemma CanCall(s: State, t: Tid, call: PC)
    requires Wf(s) && t in s.threads && s.threads[t].pc.Running? && s.mapLock.Free?
    requires call.Allocating? || ((call.Testing? || call.Storing?) && ValidKey(call.key))
    ensures Step(s, t, LockMap(call), After(s, t, LockMap(call)))
  {}

  /** Every thread that is not gone has a step, or it waits for the list lock and the thread that has it has a step. */
  lemma NeverStuck(s: State, t: Tid) returns (u: Tid, a: Action)
    requires Inv(s) && t in s.threads && !s.threads[t].pc.Gone?
    ensures u in s.threads && Enabled(s, u, a) && (u == t || s.listLock == By(u))
  {
    hide Inv, Test, ThreadOk;
    Parts(s);
    u := if (s.threads[t].pc.Joining? || s.threads[t].pc.Cleaned?) && s.listLock.By? then s.listLock.t else t;
    Facts(s, u);
    Facts(s, t);
    if s.listLock.By? { Facts(s, s.listLock.t); }
    if s.threads[t].pc.Joining? { JoinersKnown(s, t); }
    match s.threads[u].pc {
      case Created => a := Publish;
      case Zeroing(nn) => a := if nn == SIZE then SetTls else Zero;
      case Running => a := Get(0);
      case Allocating(_) => a := Alloc;
      case Testing(_) => a := TestKey;
      case Wanting(_) => a := LockList;
      case Clearing(_, rest) =>
        a := if rest == [] then ClearKey else ClearSlot;
        assert forall w :: w in rest ==> w in s.threads;
        assert rest != [] ==> rest[0] in rest;
      case Storing(_, _) => a := Store;
      case Scanning => a := Scan;
      case Unlocking(_, _) => a := UnlockMap;
      case Joining(_) => a := JoinReturn;
      case Cleaned => a := Exit;
      case Exited => a := TearDown;
    }
  }

  lemma JoinersKnown(s: State, t: Tid)
    requires Inv(s) && t in s.threads && s.threads[t].pc.Joining?
    ensures s.threads[t].pc.u in s.threads
  {
    JoinsFact(s, s.threads[t].pc.u);
    JoinerIs(s, t, s.threads[t].pc.u);
  }

  /** The three slots that are no keys: a thread's identity in the first two, and a null one. */
  lemma {:induction false} WellKnown(trace: seq<State>, moves: seq<Move>, n: nat, u: Tid, k: nat)
    requires Run(trace, moves) && n <= |moves| && k < START && u in trace[n].threads && Zeroed(trace[n].threads[u], k)
    ensures Wf(trace[n]) && trace[n].threads[u].area[k] == if k < 2 then u else 0
  {
    hide Run, Inv, NewThreads, NewWords, NewDtors, NewGen, NewList, Test, FirstFree;
    RunLength(trace, moves);
    Safety(trace, moves, n);
    Parts(trace[n]);
    NotZeroedAtStart(trace, moves, u, k);
    var s, t, a, s' := trace[n - 1], moves[n - 1].t, moves[n - 1].a, trace[n];
    RunStep(trace, moves, n - 1);
    Safety(trace, moves, n - 1);
    Facts(s, t);
    if u !in s.threads { NewThread(s, t, a, s', u); }
    RecordStep(s, t, a, s', u);
    SlotStep(s, t, a, s', u, k);
    if Zeroed(s.threads[u], k) { WellKnown(trace, moves, n - 1, u, k); }
  }

  lemma NotZeroedAtStart(trace: seq<State>, moves: seq<Move>, u: Tid, k: nat)
    requires Run(trace, moves)
    ensures u in trace[0].threads ==> !Zeroed(trace[0].threads[u], k)
  {}

  // ------------------------------ threads and the list ------------------------------

  ghost predicate AllListed(s: State) { forall u :: u in s.threads && Alive(s.threads[u]) ==> u in s.list }

  /** The last joiner of a thread leaves pthread_cond_wait although the thread has not exited. */
  ghost predicate EarlyReturn(s: State, t: Tid, a: Action)
  {
    && a.JoinReturn? && t in s.threads && s.threads[t].pc.Joining?
    && s.threads[t].pc.u in s.threads && Alive(s.threads[s.threads[t].pc.u])
    && s.threads[s.threads[t].pc.u].joinCount == 1
  }

  lemma ListedStep(s: State, t: Tid, a: Action, s': State)
    requires Inv(s) && Inv(s') && Step(s, t, a, s') && AllListed(s)
    ensures AllListed(s') <==> !EarlyReturn(s, t, a)
  {
    hide NewThreads, NewWords, NewDtors, NewGen, NewClean, Test, FirstFree, NextDue, SlotOk, JoinsOk, OwnOk, PcOk, Wf;
    hide Inv;
    Facts(s, t);
    Parts(s);
    RecordStep(s, t, a, s', t);
    if a.JoinReturn? { JoinedCounts(s, t); RecordStep(s, t, a, s', s.threads[t].pc.u); }
    forall u | u in s.threads ensures
      && u in s'.threads && (Alive(s'.threads[u]) ==> Alive(s.threads[u]))
      && (Alive(s.threads[u]) && !Alive(s'.threads[u]) ==> u == t && a.Exit?)
    {
      RecordStep(s, t, a, s', u);
      Facts(s, u);
    }
    forall u | u in s'.threads && Alive(s'.threads[u]) && !EarlyReturn(s, t, a) ensures u in s'.list {
      if u !in s.threads { NewThread(s, t, a, s', u); } else { Facts(s, u); }
    }
  }

  lemma StartListed(s: State)
    requires Init(s)
    ensures AllListed(s)
  {}

  /**
   * Every thread that has not exited is on the list in every state of a run, exactly if no join in it returned early.
   */
  lemma {:induction false} ListedExactly(trace: seq<State>, moves: seq<Move>, n: nat)
    requires Run(trace, moves) && n <= |moves|
    ensures (forall i :: 0 <= i <= n ==> AllListed(trace[i])) <==>
        forall i :: 0 <= i < n ==> !EarlyReturn(trace[i], moves[i].t, moves[i].a)
  {
    hide Step, Inv, Init, EarlyReturn;
    if n == 0 {
      StartListed(trace[0]);
    } else {
      ListedExactly(trace, moves, n - 1);
      Safety(trace, moves, n - 1);
      Safety(trace, moves, n);
      assert StepAt(trace, moves, n - 1);
      if AllListed(trace[n - 1]) { ListedStep(trace[n - 1], moves[n - 1].t, moves[n - 1].a, trace[n]); }
    }
  }

  // ------------------------------ stale reads ------------------------------

  /** Slot k of u is set up, and u has not exited. */
  ghost predicate Ready(s: State, u: Tid, k: nat)
  { u in s.threads && Alive(s.threads[u]) && Zeroed(s.threads[u], k) }

  /** An unlocked read by u would not give what it promises. */
  ghost predicate Stale(s: State, u: Tid, k: nat)
    requires Wf(s) && u in s.threads && k < SIZE
  { s.threads[u].area[k] != Expected(s, u, k) }

  ghost predicate KeepsOwn(s: State, u: Tid, k: nat)
    requires Wf(s) && k < SIZE
  { Ready(s, u, k) && Current(s, u, k) ==> s.threads[u].area[k] == s.threads[u].own[k].v }

  /** A deletion of k locks the list, u is not on it, and its slot holds something. */
  ghost predicate Misses(s: State, mv: Move, u: Tid, k: nat)
    requires Wf(s) && k < SIZE
  {
    && mv.a.LockList? && mv.t in s.threads && s.threads[mv.t].pc == Wanting(k)
    && u in s.threads && u !in s.list && s.threads[u].area[k] != 0
  }

  /** u itself writes its slot k. */
  ghost predicate Writes(s: State, mv: Move, u: Tid, k: nat)
    requires Wf(s)
  {
    && mv.t == u && u in s.threads && Enabled(s, u, mv.a)
    && OwnWrite(s, u, mv.a).Write? && OwnWrite(s, u, mv.a).k == k
  }

  lemma UnlistedPassed(s: State, t: Tid, a: Action, s': State, u: Tid, k: nat)
    requires Inv(s) && Step(s, t, a, s') && u !in s.list && ValidKey(k)
    ensures Passed(s', u, k) <==>
        !Frees(s, t, a, k) && (Passed(s, u, k) || (a.LockList? && s.threads[t].pc == Wanting(k)))
  {
    hide NewThreads, NewWords, NewDtors, NewGen, NewList, Test, FirstFree, NextDue, JoinsOk, SlotOk, Inv, Wf, ThreadOk;
    hide OwnOk;
    Facts(s, t);
    Parts(s);
    RecordStep(s, t, a, s', t);
    if s.listLock.By? { Facts(s, s.listLock.t); RecordStep(s, t, a, s', s.listLock.t); }
    if a.ClearSlot? {
      var rest := s.threads[t].pc.rest;
      assert rest == [rest[0]] + rest[1..];
      assert rest[0] in rest;
    }
  }

  /** A thread that is not on the list: only its own writes and the deletions that miss it matter. */
  lemma UnlistedStep(s: State, t: Tid, a: Action, s': State, u: Tid, k: nat)
    requires Inv(s) && Inv(s') && Step(s, t, a, s') && Wf(s) && Wf(s') && ValidKey(k) && u !in s.list
    requires Ready(s, u, k) && Ready(s', u, k) && KeepsOwn(s, u, k)
    ensures KeepsOwn(s', u, k)
    ensures Stale(s', u, k) <==>
        Misses(s, Move(t, a), u, k) || (Stale(s, u, k) && !Writes(s, Move(t, a), u, k))
  {
    hide NewThreads, NewWords, NewDtors, NewGen, NewClean, NewPC, NewList, Test, FirstFree, NextDue, Inv, Wf, Allocated;
    hide Passed, SlotOk, JoinsOk;
    Facts(s, t);
    Facts(s, u);
    RecordStep(s, t, a, s', u);
    SlotStep(s, t, a, s', u, k);
    BitsStep(s, t, a, s', k);
    GenStep(s, t, a, s', k);
    UnlistedPassed(s, t, a, s', u, k);
    NotCleared(s, t, a, u, k);
    if Allocates(s, t, a, k) { AllocatesFree(s, t, a, k); }
    if a.Store? { NotPassed(s, t, u, k); StoreAllocated(s, t); }
    if a.ClearKey? { AllPassed(s, t, u); }
  }

  /** Key deletion clears slots of threads on the list only. */
  lemma NotCleared(s: State, t: Tid, a: Action, u: Tid, k: nat)
    requires Inv(s) && Wf(s) && t in s.threads && Enabled(s, t, a) && u in s.threads && u !in s.list
    ensures !Clears(s, t, a, u, k)
  {
    hide NewThreads, NextDue, FirstFree, Test, SlotOk, JoinsOk;
    Facts(s, t);
  }

  /** A thread that is on the list reads right, and so does one that has just been taken off. */
  lemma ListedStays(s: State, t: Tid, a: Action, s': State, u: Tid, k: nat)
    requires Inv(s) && Inv(s') && Step(s, t, a, s') && Wf(s) && Wf(s') && ValidKey(k) && u in s.list
    requires Ready(s, u, k) && Ready(s', u, k)
    ensures !Stale(s, u, k) && !Stale(s', u, k) && KeepsOwn(s', u, k)
  {
    hide NewThreads, NewWords, NewDtors, NewGen, NewClean, Test, FirstFree, NextDue, Inv, Wf, Allocated, Passed;
    hide JoinsOk;
    SlotFact(s, u, k);
    if u in s'.list {
      SlotFact(s', u, k);
    } else {
      Facts(s, t);
      Facts(s, u);
      RecordStep(s, t, a, s', u);
      SlotStep(s, t, a, s', u, k);
      BitsStep(s, t, a, s', k);
      GenStep(s, t, a, s', k);
      PassedStep(s, t, a, s', u, k);
    }
  }

  lemma StaleStep(s: State, t: Tid, a: Action, s': State, u: Tid, k: nat)
    requires Inv(s) && Inv(s') && Step(s, t, a, s') && Wf(s) && Wf(s') && ValidKey(k)
    requires Ready(s, u, k) && Ready(s', u, k) && KeepsOwn(s, u, k)
    ensures KeepsOwn(s', u, k)
    ensures Stale(s', u, k) <==>
        Misses(s, Move(t, a), u, k) || (Stale(s, u, k) && !Writes(s, Move(t, a), u, k))
  {
    hide Step, Inv, Wf, Ready, KeepsOwn, Stale, Writes;
    if u in s.list { ListedStays(s, t, a, s', u, k); } else { UnlistedStep(s, t, a, s', u, k); }
  }

  ghost predicate MissesAt(trace: seq<State>, moves: seq<Move>, i: nat, u: Tid, k: nat)
    requires i < |moves| && |trace| == |moves| + 1 && k < SIZE
  { Wf(trace[i]) && Misses(trace[i], moves[i], u, k) }

  ghost predicate WritesAt(trace: seq<State>, moves: seq<Move>, i: nat, u: Tid, k: nat)
    requires i < |moves| && |trace| == |moves| + 1
  { Wf(trace[i]) && Writes(trace[i], moves[i], u, k) }

  /** Step i misses slot k of u, and until step n the thread does not write it. */
  ghost predicate MissedSince(trace: seq<State>, moves: seq<Move>, i: nat, n: nat, u: Tid, k: nat)
    requires i < n <= |moves| && |trace| == |moves| + 1 && k < SIZE
  { MissesAt(trace, moves, i, u, k) && forall j: nat :: i < j < n ==> !WritesAt(trace, moves, j, u, k) }

  ghost predicate Missed(trace: seq<State>, moves: seq<Move>, n: nat, u: Tid, k: nat)
    requires n <= |moves| && |trace| == |moves| + 1 && k < SIZE
  { exists i: nat :: i < n && MissedSince(trace, moves, i, n, u, k) }

  lemma MissedStep(trace: seq<State>, moves: seq<Move>, n: nat, u: Tid, k: nat)
    requires n < |moves| && |trace| == |moves| + 1 && k < SIZE
    ensures Missed(trace, moves, n + 1, u, k) <==>
        MissesAt(trace, moves, n, u, k) || (Missed(trace, moves, n, u, k) && !WritesAt(trace, moves, n, u, k))
  {
    hide MissesAt, WritesAt;
    if Missed(trace, moves, n + 1, u, k) {
      var i: nat :| i < n + 1 && MissedSince(trace, moves, i, n + 1, u, k);
      if i < n { assert MissedSince(trace, moves, i, n, u, k); }
    }
    if MissesAt(trace, moves, n, u, k) {
      assert MissedSince(trace, moves, n, n + 1, u, k);
    } else if Missed(trace, moves, n, u, k) && !WritesAt(trace, moves, n, u, k) {
      var i: nat :| i < n && MissedSince(trace, moves, i, n, u, k);
      assert MissedSince(trace, moves, i, n + 1, u, k);
    }
  }

  /** Only __init_tls makes a slot ready, by writing it. */
  lemma BecomesReady(s: State, t: Tid, a: Action, s': State, u: Tid, k: nat)
    requires Inv(s) && Inv(s') && Step(s, t, a, s') && Wf(s) && Wf(s') && ValidKey(k)
    requires !Ready(s, u, k) && Ready(s', u, k)
    ensures Writes(s, Move(t, a), u, k) && !Misses(s, Move(t, a), u, k) && !Stale(s', u, k) && KeepsOwn(s', u, k)
  {
    hide NewThreads, NewWords, NewDtors, NewGen, NewClean, NewList, Test, FirstFree, NextDue, Inv, Wf, Allocated;
    hide Passed;
    if u in s.threads {
      Facts(s, u);
      RecordStep(s, t, a, s', u);
      SlotStep(s, t, a, s', u, k);
    } else {
      NewThread(s, t, a, s', u);
    }
  }

  lemma NotReadyAtStart(s: State, u: Tid, k: nat)
    requires Init(s)
    ensures !Ready(s, u, k)
  {}

  /**
   * The exact condition: a started thread reads a stale value exactly if a deletion of the key has missed it, since it
   * was off the list with something in its slot, and it has not written the slot since.
   */
  lemma {:induction false} StaleExactly(trace: seq<State>, moves: seq<Move>, n: nat, u: Tid, k: nat)
    requires Run(trace, moves) && n <= |moves| && ValidKey(k) && Ready(trace[n], u, k)
    ensures Wf(trace[n]) && KeepsOwn(trace[n], u, k)
    ensures GetSpecific(trace[n].threads[u], k) != Expected(trace[n], u, k) <==> Missed(trace, moves, n, u, k)
  {
    hide Step, Inv, Wf, Init, Ready, KeepsOwn, Misses, Writes, Missed, Expected;
    if n == 0 {
      NotReadyAtStart(trace[0], u, k);
    } else {
      var s, mv, s' := trace[n - 1], moves[n - 1], trace[n];
      Safety(trace, moves, n - 1);
      Safety(trace, moves, n);
      Parts(s);
      Parts(s');
      assert StepAt(trace, moves, n - 1);
      MissedStep(trace, moves, n - 1, u, k);
      if Ready(s, u, k) {
        StaleExactly(trace, moves, n - 1, u, k);
        StaleStep(s, mv.t, mv.a, s', u, k);
        ReadyThere(s, u, k);
      } else {
        BecomesReady(s, mv.t, mv.a, s', u, k);
      }
      ReadyThere(s', u, k);
    }
  }

  lemma ReadyThere(s: State, u: Tid, k: nat)
    requires Ready(s, u, k)
    ensures u in s.threads && Alive(s.threads[u])
  {}

  /** The last joiner of u leaves pthread_cond_wait although u has not exited. */
  ghost predicate LeftEarly(s: State, mv: Move, u: Tid)
  { EarlyReturn(s, mv.t, mv.a) && s.threads[mv.t].pc.u == u }

  lemma StaysListed(s: State, t: Tid, a: Action, s': State, u: Tid)
    requires Inv(s) && Step(s, t, a, s') && !LeftEarly(s, Move(t, a), u)
    requires u in s.threads && Alive(s.threads[u]) ==> u in s.list
    ensures u in s'.threads && Alive(s'.threads[u]) ==> u in s'.list
    ensures u in s.threads && u in s'.threads && Alive(s'.threads[u]) ==> Alive(s.threads[u])
  {
    hide NewThreads, NewWords, NewDtors, NewGen, NewClean, Test, FirstFree, NextDue, SlotOk, JoinsOk, OwnOk, PcOk, Wf;
    hide Inv;
    Facts(s, t);
    if a.JoinReturn? { JoinedCounts(s, t); }
    if u in s.threads {
      RecordStep(s, t, a, s', u);
      Facts(s, u);
    } else if u in s'.threads {
      NewThread(s, t, a, s', u);
    }
  }

  /** A thread is on the list until it exits unless its last joiner leaves early. */
  lemma {:induction false} ListedUnless(trace: seq<State>, moves: seq<Move>, n: nat, u: Tid)
    requires Run(trace, moves) && n <= |moves| && u in trace[n].threads && Alive(trace[n].threads[u])
    requires forall i :: 0 <= i < n ==> !LeftEarly(trace[i], moves[i], u)
    ensures forall i :: 0 <= i <= n && u in trace[i].threads ==> u in trace[i].list
  {
    hide Step, Inv, Init, LeftEarly;
    ListedSoFar(trace, moves, n, u);
    AliveBefore(trace, moves, n, u);
  }

  lemma {:induction false} ListedSoFar(trace: seq<State>, moves: seq<Move>, n: nat, u: Tid)
    requires Run(trace, moves) && n <= |moves| && forall i :: 0 <= i < n ==> !LeftEarly(trace[i], moves[i], u)
    ensures forall i :: 0 <= i <= n && u in trace[i].threads && Alive(trace[i].threads[u]) ==> u in trace[i].list
  {
    hide Step, Inv, Init, LeftEarly;
    if n == 0 {
      StartListed(trace[0]);
    } else {
      ListedSoFar(trace, moves, n - 1, u);
      Safety(trace, moves, n - 1);
      assert StepAt(trace, moves, n - 1);
      StaysListed(trace[n - 1], moves[n - 1].t, moves[n - 1].a, trace[n], u);
    }
  }

  /** Whoever has not exited had not exited before. */
  lemma {:induction false} AliveBefore(trace: seq<State>, moves: seq<Move>, n: nat, u: Tid)
    requires Run(trace, moves) && n <= |moves| && u in trace[n].threads && Alive(trace[n].threads[u])
    ensures forall i :: 0 <= i <= n && u in trace[i].threads ==> Alive(trace[i].threads[u])
  {
    hide Step, Inv, Init;
    if n > 0 && u in trace[n - 1].threads {
      Safety(trace, moves, n - 1);
      assert StepAt(trace, moves, n - 1);
      AliveStep(trace[n - 1], moves[n - 1].t, moves[n - 1].a, trace[n], u);
      AliveBefore(trace, moves, n - 1, u);
    } else if n > 0 {
      NotThereBefore(trace, moves, n - 1, u);
    }
  }

  lemma AliveStep(s: State, t: Tid, a: Action, s': State, u: Tid)
    requires Step(s, t, a, s') && u in s.threads && u in s'.threads && Alive(s'.threads[u])
    ensures Alive(s.threads[u])
  {
    hide NewThreads, NewWords, NewDtors, NewGen, NewClean, NewList, Test, FirstFree, NextDue, Wf;
    RecordStep(s, t, a, s', u);
  }

  lemma {:induction false} NotThereBefore(trace: seq<State>, moves: seq<Move>, n: nat, u: Tid)
    requires Run(trace, moves) && n <= |moves| && u !in trace[n].threads
    ensures forall i :: 0 <= i <= n ==> u !in trace[i].threads
  {
    hide Step, Init;
    if n > 0 {
      assert StepAt(trace, moves, n - 1);
      if u in trace[n - 1].threads { RecordStep(trace[n - 1], moves[n - 1].t, moves[n - 1].a, trace[n], u); }
      NotThereBefore(trace, moves, n - 1, u);
    }
  }

  /** So a thread whose last joiner never left early reads nothing stale, whatever the others do. */
  lemma NeverStale(trace: seq<State>, moves: seq<Move>, n: nat, t: Tid, key: int)
    requires Run(trace, moves) && n <= |moves| && ValidKey(key) && Ready(trace[n], t, key)
    ensures Wf(trace[n]) && (Stale(trace[n], t, key) ==> exists i :: 0 <= i < n && LeftEarly(trace[i], moves[i], t))
    ensures !Stale(trace[n], t, key) && !Allocated(trace[n], key) ==> GetSpecific(trace[n].threads[t], key) == 0
  {
    hide Run, Inv, Wf, LeftEarly, Writes;
    RunLength(trace, moves);
    StaleExactly(trace, moves, n, t, key);
    if !(exists i :: 0 <= i < n && LeftEarly(trace[i], moves[i], t)) {
      ListedUnless(trace, moves, n, t);
      assert !Missed(trace, moves, n, t, key);
    }
  }

  lemma RunLength(trace: seq<State>, moves: seq<Move>)
    requires Run(trace, moves)
    ensures |trace| == |moves| + 1
  {}

  /**
   * pthread_key_delete writes into the TLS area of a thread on the list that has exited exactly if some thread is still
   * waiting for it in pthread_join.
   */
  lemma ExitedAreaTouched(trace: seq<State>, moves: seq<Move>, n: nat, u: Tid)
    requires Run(trace, moves) && n <= |moves| && u in trace[n].list && u in trace[n].threads
    requires !Alive(trace[n].threads[u])
    ensures !Skipped(trace[n].threads[u]) <==> exists t :: t in trace[n].threads && trace[n].threads[t].pc == Joining(u)
  {
    hide SlotOk, PcOk, OwnOk;
    var s := trace[n];
    Safety(trace, moves, n);
    Facts(s, u);
    JoinsFact(s, u);
    if forall t :: t in s.threads ==> s.threads[t].pc != Joining(u) {
      NoJoiners(s, u);
    } else {
      var t :| t in s.threads && s.threads[t].pc == Joining(u);
      JoinerIs(s, t, u);
    }
  }

  lemma NoJoiners(s: State, u: Tid)
    requires forall t :: t in s.threads ==> s.threads[t].pc != Joining(u)
    ensures |Joiners(s, u)| == 0
  {
    forall t ensures t !in Joiners(s, u) {}
    assert Joiners(s, u) == {};
  }

  /** Whoever waits in pthread_join waits for a thread that is still on the list. */
  lemma JoinersSafe(trace: seq<State>, moves: seq<Move>, n: nat, t: Tid)
    requires Run(trace, moves) && n <= |moves| && t in trace[n].threads && trace[n].threads[t].pc.Joining?
    ensures var s, u := trace[n], trace[n].threads[t].pc.u;
        u in s.list && u in s.threads && s.threads[u].joinCount == |Joiners(s, u)|
  {
    Safety(trace, moves, n);
    JoinedCounts(trace[n], t);
    JoinsFact(trace[n], trace[n].threads[t].pc.u);
  }

  // ------------------------------ reached states ------------------------------

  ghost predicate Reached(s: State) { exists trace, moves :: Run(trace, moves) && trace[|moves|] == s }

  lemma ReachedInv(s: State)
    requires Reached(s)
    ensures Inv(s) && Wf(s)
  {
    var trace, moves :| Run(trace, moves) && trace[|moves|] == s;
    Safety(trace, moves, |moves|);
    Parts(s);
  }

  lemma Extend(trace: seq<State>, moves: seq<Move>, t: Tid, a: Action, s': State)
    requires Run(trace, moves) && Step(trace[|moves|], t, a, s')
    ensures Run(trace + [s'], moves + [Move(t, a)])
  {
    var trace', moves' := trace + [s'], moves + [Move(t, a)];
    forall i: nat | i < |moves'| ensures StepAt(trace', moves', i) {
      if i < |moves| { assert StepAt(trace, moves, i); }
    }
  }

  lemma ReachStep(s: State, t: Tid, a: Action, s': State)
    requires Reached(s) && Step(s, t, a, s')
    ensures Reached(s')
  {
    var trace, moves :| Run(trace, moves) && trace[|moves|] == s;
    Extend(trace, moves, t, a, s');
    assert (trace + [s'])[|moves + [Move(t, a)]|] == s';
  }

  /** One more step, and all that the step lemmas say about it. */
  lemma Do(s: State, t: Tid, a: Action) returns (s': State)
    requires Reached(s) && Wf(s) && t in s.threads && Enabled(s, t, a)
    ensures Step(s, t, a, s') && Reached(s') && Inv(s') && Wf(s')
    ensures s'.list == NewList(s, t, a) && s'.mapLock == NewMapLock(s, t, a) && s'.listLock == NewListLock(s, t, a)
    ensures s'.threads.Keys == s.threads.Keys + if a.Create? then {a.u} else {}
    ensures forall u :: u in s.threads ==> u in s'.threads && Describes(s, t, a, u, s'.threads[u])
    ensures forall k: nat {:trigger Allocated(s', k)} :: k < SIZE ==>
        (Allocated(s', k) <==> Allocates(s, t, a, k) || (!Frees(s, t, a, k) && Allocated(s, k)))
  {
    hide Reached, Inv, Enabled, NewThreads, NewWords, NewDtors, NewGen, Describes;
    s' := After(s, t, a);
    ReachedInv(s);
    InvKept(s, t, a, s');
    Parts(s');
    ReachStep(s, t, a, s');
    forall u | u in s.threads ensures u in s'.threads && Describes(s, t, a, u, s'.threads[u]) {
      Described(s, t, a, s', u);
    }
    forall u ensures u in s'.threads <==> u in s.threads || (a.Create? && u == a.u) {
      if a.Create? { CreatedThere(s, t, a, s'); }
      if u in s'.threads && u !in s.threads { NewThread(s, t, a, s', u); }
    }
    forall k: nat | k < SIZE { BitsStep(s, t, a, s', k); }
  }

  ghost predicate Describes(s: State, t: Tid, a: Action, u: Tid, th': Thread)
    requires Wf(s) && t in s.threads && Enabled(s, t, a) && u in s.threads
  {
    var th, w := s.threads[u], OwnWrite(s, t, a);
    && th'.pc == (if u == t then NewPC(s, t, a) else th.pc)
    && th'.clean == (if u == t then NewClean(s, t, a) else th.clean)
    && th'.detached == th.detached && th'.published == (th.published || (u == t && a.Publish?))
    && th'.joinCount == NewCount(s, t, a, u)
    && |th'.area| == SIZE
    && forall k: nat :: k < SIZE ==>
         th'.area[k] == if u == t && w.Write? && w.k == k then w.v else if Clears(s, t, a, u, k) then 0 else th.area[k]
  }

  lemma Described(s: State, t: Tid, a: Action, s': State, u: Tid)
    requires Step(s, t, a, s') && u in s.threads
    ensures u in s'.threads && Describes(s, t, a, u, s'.threads[u])
  {
    hide After, Enabled, NewPC, NewClean, NewCount, OwnWrite, Clears;
    RecordStep(s, t, a, s', u);
    forall k: nat | k < SIZE { SlotStep(s, t, a, s', u, k); }
  }

  /** A thread that runs with nothing stored, nobody waiting for it. */
  ghost predicate Calm(th: Thread)
  {
    && th.pc.Running? && th.published && th.joinCount == 0 && !th.detached && th.clean.NotYet?
    && |th.area| == SIZE && forall k :: START <= k < SIZE ==> th.area[k] == 0
  }

  ghost predicate Unlocked(s: State) { s.mapLock.Free? && s.listLock.Free? }

  ghost predicate SameKeys(s: State, s': State)
    requires Wf(s) && Wf(s')
  { forall k: nat :: k < SIZE ==> (Allocated(s', k) <==> Allocated(s, k)) }

  lemma SameTwice(s: State, s1: State, s2: State)
    requires Wf(s) && Wf(s1) && Wf(s2) && SameKeys(s, s1) && SameKeys(s1, s2)
    ensures SameKeys(s, s2)
  {}

  /** Nothing but the record of t, and the locks. */
  ghost predicate Only(s: State, t: Tid, s': State)
  { t in s.threads && t in s'.threads && s'.list == s.list && s'.threads == s.threads[t := s'.threads[t]] }

  lemma OnlyTwice(s: State, t: Tid, s1: State, s2: State)
    requires Only(s, t, s1) && Only(s1, t, s2)
    ensures Only(s, t, s2)
  {}

  /** A step that changes no other thread and not the list. */
  predicate Solo(a: Action) { !a.Create? && !a.ClearSlot? && !a.JoinStart? && !a.JoinReturn? }

  lemma SoloOnly(s: State, t: Tid, a: Action, s': State)
    requires Step(s, t, a, s') && Solo(a) && s'.list == s.list
    ensures Only(s, t, s')
  {
    hide NewWords, NewDtors, NewGen, NewList, NewSelf, Enabled, Wf, Test;
  }

  /** A step of t on its own, as part of a call that s began. */
  lemma Next(s: State, s1: State, t: Tid, a: Action) returns (s2: State)
    requires Wf(s) && Reached(s1) && Wf(s1) && t in s1.threads && Enabled(s1, t, a) && Solo(a)
    requires Only(s, t, s1) && SameKeys(s, s1) && !a.Alloc? && !a.ClearKey? && (a.Exit? ==> !s1.threads[t].detached)
    ensures Step(s1, t, a, s2) && Reached(s2) && Wf(s2) && Inv(s2)
    ensures Only(s, t, s2) && SameKeys(s, s2) && Describes(s1, t, a, t, s2.threads[t])
    ensures s2.mapLock == NewMapLock(s1, t, a) && s2.listLock == NewListLock(s1, t, a)
  {
    hide Reached, Inv, FirstFree, NextDue, Only, Allocated, Describes, NewThreads, NewWords, NewGen, NewDtors, Enabled;
    hide Step;
    s2 := Do(s1, t, a);
    SoloOnly(s1, t, a, s2);
    OnlyTwice(s, t, s1, s2);
    SameTwice(s, s1, s2);
  }

  /** __init_tls runs to its end. */
  lemma {:induction false} Starts(s: State, s1: State, u: Tid) returns (s': State)
    requires Wf(s) && Reached(s1) && Wf(s1) && Only(s, u, s1) && SameKeys(s, s1) && s1.threads[u].pc.Zeroing?
    requires s1.threads[u].pc.nn <= SIZE
    requires s1.threads[u].published && s1.threads[u].joinCount == 0 && !s1.threads[u].detached
    requires s1.threads[u].clean.NotYet?
    requires forall k :: START <= k < s1.threads[u].pc.nn ==> s1.threads[u].area[k] == 0
    ensures Reached(s') && Wf(s') && Only(s, u, s') && SameKeys(s, s') && s'.mapLock == s1.mapLock
    ensures s'.listLock == s1.listLock
    ensures Calm(s'.threads[u])
    decreases SIZE - s1.threads[u].pc.nn
  {
    hide Wf, Reached, Inv, FirstFree, NextDue, Allocated, Only, SameKeys, Step;
    OnlyThere(s, u, s1);
    if s1.threads[u].pc.nn == SIZE {
      s' := Next(s, s1, u, SetTls);
    } else {
      var s2 := Next(s, s1, u, Zero);
      OnlyThere(s, u, s2);
      s' := Starts(s, s2, u);
    }
  }

  lemma OnlyThere(s: State, t: Tid, s': State)
    requires Only(s, t, s')
    ensures t in s.threads && t in s'.threads && s'.list == s.list && s'.threads.Keys == s.threads.Keys
    ensures forall x :: x in s.threads && x != t ==> s'.threads[x] == s.threads[x]
  {}

  lemma Itself(s: State, t: Tid)
    requires Wf(s) && t in s.threads
    ensures Only(s, t, s) && SameKeys(s, s)
  {}

  const INIT: State :=
    State(false, [0, 0], seq(SIZE, _ => 0), seq(SIZE, _ => 0), Free, Free, [0],
          map[0 := Fresh(seq(SIZE, _ => 0), false)])

  lemma InitReached()
    ensures Reached(INIT) && Wf(INIT) && Allocated(INIT, 3)
  {
    hide Step;
    assert |seq(SIZE, _ => 0)| == SIZE;
    var moves: seq<Move> := [];
    assert Run([INIT], moves) && [INIT][|moves|] == INIT;
    assert Words(INIT) == [DEFAULT_MAP, 0];
  }

  /** The main thread has started; keys 3 and 4 are preallocated. */
  lemma MainRuns() returns (s: State)
    ensures Reached(s) && Wf(s) && Unlocked(s) && s.list == [0] && s.threads.Keys == {0} && Calm(s.threads[0])
    ensures Allocated(s, 3)
  {
    hide Reached, Inv, FirstFree, NextDue, Only, Allocated, Step;
    InitReached();
    Itself(INIT, 0);
    var s1 := Next(INIT, INIT, 0, Publish);
    OnlyThere(INIT, 0, s1);
    s := Starts(INIT, s1, 0);
    OnlyThere(INIT, 0, s);
  }

  /** The main thread starts thread u. */
  lemma Spawn(s: State, u: Tid) returns (s': State)
    requires Reached(s) && Wf(s) && Unlocked(s) && 0 in s.threads && Calm(s.threads[0]) && u !in s.threads
    ensures Reached(s') && Wf(s') && Unlocked(s') && s'.list == [u] + s.list && s'.threads.Keys == s.threads.Keys + {u}
    ensures Calm(s'.threads[u])
    ensures forall x :: x in s.threads && Calm(s.threads[x]) ==> Calm(s'.threads[x])
    ensures SameKeys(s, s')
  {
    hide Reached, Inv, FirstFree, NextDue, Only, Allocated, Step, Test, Wf;
    var s1 := Creates(s, u);
    Itself(s1, u);
    var s2 := Next(s1, s1, u, Publish);
    OnlyThere(s1, u, s2);
    s' := Starts(s1, s2, u);
    OnlyThere(s1, u, s');
    SameTwice(s, s1, s');
  }

  lemma Creates(s: State, u: Tid) returns (s': State)
    requires Reached(s) && Wf(s) && Unlocked(s) && 0 in s.threads && Calm(s.threads[0]) && u !in s.threads
    ensures Reached(s') && Wf(s') && Unlocked(s') && s'.list == [u] + s.list && s'.threads.Keys == s.threads.Keys + {u}
    ensures SameKeys(s, s')
    ensures s'.threads[u] == Fresh(seq(SIZE, _ => 0), false)
    ensures forall x :: x in s.threads && Calm(s.threads[x]) ==> Calm(s'.threads[x])
  {
    hide Reached, Inv, FirstFree, NextDue, Only, Allocated, Step, Test, NewThreads;
    var a := Create(u, seq(SIZE, _ => 0), false);
    s' := Do(s, 0, a);
    NewThread(s, 0, a, s', u);
    forall x | x in s.threads && Calm(s.threads[x]) ensures Calm(s'.threads[x]) {
      assert Describes(s, 0, a, x, s'.threads[x]);
    }
  }

  lemma MapHeld(s: State, t: Tid, k: nat)
    requires Inv(s) && t in s.threads && HoldsMap(s.threads[t].pc) && k < SIZE
    ensures Test(s.words, k) <==> Allocated(s, k)
  {
    Facts(s, t);
  }

  lemma StillAllocated(s: State, s': State, k: nat)
    requires Wf(s) && Wf(s') && SameKeys(s, s') && k < SIZE
    ensures Allocated(s', k) <==> Allocated(s, k)
  {}

  /** A state that s leads to by steps of t alone. */
  ghost predicate From(s: State, t: Tid, s': State)
  { Wf(s) && Wf(s') && Reached(s') && Inv(s') && Only(s, t, s') && SameKeys(s, s') }

  ghost predicate Standing(th: Thread, th': Thread)
  { th'.joinCount == th.joinCount && th'.detached == th.detached && th'.published == th.published }

  lemma FromThere(s: State, t: Tid, s': State)
    requires From(s, t, s')
    ensures t in s.threads && t in s'.threads && s'.list == s.list && s'.threads.Keys == s.threads.Keys && Wf(s)
    ensures Wf(s') && Reached(s') && Inv(s')
    ensures forall x :: x in s.threads && x != t ==> s'.threads[x] == s.threads[x]
    ensures forall k: nat :: k < SIZE ==> (Allocated(s', k) <==> Allocated(s, k))
  {}

  /** tlsmap_lock at the start of a call */
  lemma Begins(s: State, t: Tid, call: PC) returns (s': State)
    requires Reached(s) && Wf(s) && Unlocked(s) && t in s.threads && s.threads[t].pc.Running?
    requires CallOk(s.threads[t], call)
    ensures From(s, t, s') && s'.mapLock == By(t) && s'.listLock.Free? && s'.threads[t].pc == call
    ensures Standing(s.threads[t], s'.threads[t])
    ensures s'.threads[t].area == s.threads[t].area
    ensures (call.Scanning? && s.threads[t].clean.NotYet? ==> s'.threads[t].clean == At(ROUNDS, START, 0))
  {
    hide Reached, Inv, FirstFree, NextDue, Allocated, Test, Only, SameKeys, Step;
    Itself(s, t);
    s' := Next(s, s, t, LockMap(call));
    OnlyThere(s, t, s');
  }

  /** tlsmap_unlock at its end */
  lemma Ends(s: State, s1: State, t: Tid) returns (s': State)
    requires From(s, t, s1) && s1.listLock.Free? && s1.threads[t].pc.Unlocking?
    ensures From(s, t, s') && Unlocked(s') && s'.threads[t].pc == (if s1.threads[t].pc.done then Cleaned else Running)
    ensures Standing(s1.threads[t], s'.threads[t]) && s'.threads[t].area == s1.threads[t].area
  {
    hide Reached, Inv, FirstFree, NextDue, Allocated, Test, Only, SameKeys, Step;
    OnlyThere(s, t, s1);
    s' := Next(s, s1, t, UnlockMap);
    OnlyThere(s, t, s');
  }

  /** pthread_setspecific runs to its end. */
  lemma Stores(s: State, t: Tid, key: nat, v: int) returns (s': State)
    requires Reached(s) && Wf(s) && Unlocked(s) && t in s.threads && s.threads[t].pc.Running? && ValidKey(key)
    requires Allocated(s, key)
    ensures From(s, t, s') && Unlocked(s') && s'.threads[t].pc.Running? && Standing(s.threads[t], s'.threads[t])
    ensures |s'.threads[t].area| == SIZE && s'.threads[t].area[key] == v
  {
    hide From, Wf, Reached, Allocated;
    var s1 := Begins(s, t, Storing(key, v));
    FromThere(s, t, s1);
    var s2 := StoresOne(s, s1, t, key, v);
    FromThere(s, t, s2);
    s' := Ends(s, s2, t);
    FromThere(s, t, s');
  }

  lemma StoresOne(s: State, s1: State, t: Tid, key: nat, v: int) returns (s': State)
    requires From(s, t, s1) && s1.listLock.Free? && s1.threads[t].pc == Storing(key, v) && ValidKey(key)
    requires Allocated(s1, key)
    ensures From(s, t, s') && s'.listLock.Free? && s'.threads[t].pc == Unlocking(Ok, false)
    ensures Standing(s1.threads[t], s'.threads[t])
    ensures |s'.threads[t].area| == SIZE && s'.threads[t].area[key] == v
  {
    hide Wf, Reached, Inv, FirstFree, NextDue, Allocated, Test, Only, SameKeys, Step;
    OnlyThere(s, t, s1);
    MapHeld(s1, t, key);
    s' := Next(s, s1, t, Store);
    OnlyThere(s, t, s');
  }

  /** pthread_key_delete runs up to its loop. */
  lemma Deletes(s: State, t: Tid, key: nat) returns (s': State)
    requires Reached(s) && Wf(s) && Unlocked(s) && t in s.threads && s.threads[t].pc.Running? && ValidKey(key)
    requires Allocated(s, key)
    ensures From(s, t, s') && s'.threads[t].pc == Clearing(key, s.list) && Standing(s.threads[t], s'.threads[t])
  {
    hide From, Wf, Reached, Allocated;
    var s1 := Begins(s, t, Testing(key));
    FromThere(s, t, s1);
    s' := DeletesOne(s, s1, t, key);
  }

  lemma DeletesOne(s: State, s1: State, t: Tid, key: nat) returns (s': State)
    requires From(s, t, s1) && s1.listLock.Free? && s1.threads[t].pc == Testing(key) && ValidKey(key)
    requires Allocated(s1, key)
    ensures From(s, t, s') && s'.threads[t].pc == Clearing(key, s.list) && Standing(s1.threads[t], s'.threads[t])
  {
    hide Wf, Reached, Inv, FirstFree, NextDue, Allocated, Test, Only, SameKeys, Step, OwnWrite;
    OnlyThere(s, t, s1);
    MapHeld(s1, t, key);
    var s2 := Next(s, s1, t, TestKey);
    OnlyThere(s, t, s2);
    s' := Next(s, s2, t, LockList);
    OnlyThere(s, t, s');
  }

  /** pthread_exit of a thread that has stored nothing runs to its end while somebody waits for it. */
  lemma Leaves(s: State, t: Tid) returns (s': State)
    requires Reached(s) && Wf(s) && Unlocked(s) && t in s.threads && s.threads[t].joinCount > 0
    requires Calm(s.threads[t].(joinCount := 0))
    ensures From(s, t, s') && Unlocked(s') && s'.threads[t].pc.Gone? && Standing(s.threads[t], s'.threads[t])
  {
    hide From, Wf, Reached, Allocated;
    var s1 := Begins(s, t, Scanning);
    FromThere(s, t, s1);
    var s2 := NothingDue(s, s1, t);
    FromThere(s, t, s2);
    var s3 := Ends(s, s2, t);
    FromThere(s, t, s3);
    s' := ExitsOne(s, s3, t);
  }

  lemma NothingDue(s: State, s1: State, t: Tid) returns (s': State)
    requires From(s, t, s1) && s1.listLock.Free? && s1.threads[t].pc.Scanning?
    requires s1.threads[t].clean == At(ROUNDS, START, 0)
    requires |s1.threads[t].area| == SIZE && forall k :: START <= k < SIZE ==> s1.threads[t].area[k] == 0
    ensures From(s, t, s') && s'.listLock.Free? && s'.threads[t].pc == Unlocking(Ok, true)
    ensures Standing(s1.threads[t], s'.threads[t])
  {
    hide Reached, Inv, FirstFree, Allocated, Test, Only, SameKeys, Step;
    OnlyThere(s, t, s1);
    assert Due(s1, t) == SIZE;
    s' := Next(s, s1, t, Scan);
    OnlyThere(s, t, s');
  }

  lemma ExitsOne(s: State, s1: State, t: Tid) returns (s': State)
    requires From(s, t, s1) && Unlocked(s1) && s1.threads[t].pc.Cleaned? && s1.threads[t].joinCount > 0
    requires !s1.threads[t].detached
    ensures From(s, t, s') && Unlocked(s') && s'.threads[t].pc.Gone? && Standing(s1.threads[t], s'.threads[t])
  {
    hide Wf, Reached, Inv, FirstFree, NextDue, Allocated, Test, Only, SameKeys, Step, OwnWrite;
    OnlyThere(s, t, s1);
    var s2 := Next(s, s1, t, Exit);
    OnlyThere(s, t, s2);
    s' := Next(s, s2, t, TearDown);
    OnlyThere(s, t, s');
  }

  /** Thread 0, alone on the list, deletes the key. */
  lemma DeletesAlone(s: State, key: nat) returns (s': State)
    requires Reached(s) && Wf(s) && Unlocked(s) && s.list == [0] && 0 in s.threads && s.threads[0].pc.Running?
    requires ValidKey(key) && Allocated(s, key)
    ensures Reached(s') && Wf(s') && s'.threads.Keys == s.threads.Keys && !Allocated(s', key)
    ensures forall x :: x in s.threads && x != 0 ==>
        s'.threads[x].area == s.threads[x].area && s'.threads[x].pc == s.threads[x].pc
  {
    hide From, Wf, Reached, Allocated, Describes;
    var s1 := Deletes(s, 0, key);
    FromThere(s, 0, s1);
    s' := ClearsAlone(s1, key);
  }

  lemma ClearsAlone(s: State, key: nat) returns (s': State)
    requires Reached(s) && Wf(s) && 0 in s.threads && s.threads[0].pc == Clearing(key, [0]) && ValidKey(key)
    ensures Reached(s') && Wf(s') && s'.threads.Keys == s.threads.Keys && !Allocated(s', key)
    ensures forall x :: x in s.threads && x != 0 ==>
        s'.threads[x].area == s.threads[x].area && s'.threads[x].pc == s.threads[x].pc
  {
    hide Wf, Reached, Allocated, Step, Describes;
    var s1 := ClearsSelf(s, key);
    s' := FreesKey(s1, key);
  }

  lemma ClearsSelf(s: State, key: nat) returns (s': State)
    requires Reached(s) && Wf(s) && 0 in s.threads && s.threads[0].pc == Clearing(key, [0]) && ValidKey(key)
    ensures Reached(s') && Wf(s') && s'.threads.Keys == s.threads.Keys && s'.threads[0].pc == Clearing(key, [])
    ensures forall x :: x in s.threads && x != 0 ==>
        s'.threads[x].area == s.threads[x].area && s'.threads[x].pc == s.threads[x].pc
  {
    hide Reached, Inv, FirstFree, NextDue, Allocated, Test, Step;
    s' := Do(s, 0, ClearSlot);
    assert Describes(s, 0, ClearSlot, 0, s'.threads[0]);
    forall x | x in s.threads && x != 0
      ensures s'.threads[x].area == s.threads[x].area && s'.threads[x].pc == s.threads[x].pc
    {
      assert Describes(s, 0, ClearSlot, x, s'.threads[x]);
    }
  }

  lemma FreesKey(s: State, key: nat) returns (s': State)
    requires Reached(s) && Wf(s) && 0 in s.threads && s.threads[0].pc == Clearing(key, []) && ValidKey(key)
    ensures Reached(s') && Wf(s') && s'.threads.Keys == s.threads.Keys && !Allocated(s', key)
    ensures forall x :: x in s.threads && x != 0 ==>
        s'.threads[x].area == s.threads[x].area && s'.threads[x].pc == s.threads[x].pc
  {
    hide Reached, Inv, FirstFree, NextDue, Allocated, Test, Step;
    s' := Do(s, 0, ClearKey);
    forall x | x in s.threads && x != 0
      ensures s'.threads[x].area == s.threads[x].area && s'.threads[x].pc == s.threads[x].pc
    {
      assert Describes(s, 0, ClearKey, x, s'.threads[x]);
    }
  }

  /** Thread 0 starts to wait for thread 1. */
  lemma Waits(s: State) returns (s': State)
    requires Reached(s) && Wf(s) && Unlocked(s) && 0 in s.threads && 1 in s.threads && 1 in s.list
    requires s.threads[0].pc.Running? && s.threads[1].pc.Running? && s.threads[1].joinCount == 0
    requires !s.threads[1].detached
    ensures Reached(s') && Wf(s') && Unlocked(s') && SameKeys(s, s') && s'.list == s.list
    ensures s'.threads.Keys == s.threads.Keys
    ensures s'.threads[0].pc == Joining(1) && s'.threads[1] == s.threads[1].(joinCount := 1, own := s'.threads[1].own)
    ensures forall x :: x in s.threads && x > 1 ==> s'.threads[x] == s.threads[x].(own := s'.threads[x].own)
  {
    hide Reached, Inv, FirstFree, NextDue, Allocated, Test, Step;
    s' := Do(s, 0, JoinStart(1));
    forall x | x in s.threads ensures Describes(s, 0, JoinStart(1), x, s'.threads[x]) {}
    assert Describes(s, 0, JoinStart(1), 0, s'.threads[0]) && Describes(s, 0, JoinStart(1), 1, s'.threads[1]);
  }

  /** Thread 0 leaves pthread_cond_wait early. */
  lemma Returns(s: State) returns (s': State)
    requires Reached(s) && Wf(s) && Unlocked(s) && 0 in s.threads && 1 in s.threads && s.list == [1, 0]
    requires s.threads[0].pc == Joining(1) && s.threads[1].pc.Running? && s.threads[1].joinCount == 1
    ensures Reached(s') && Wf(s') && Unlocked(s') && SameKeys(s, s') && s'.list == [0]
    ensures s'.threads.Keys == s.threads.Keys
    ensures s'.threads[0].pc.Running? && s'.threads[1].pc.Running? && s'.threads[1].area == s.threads[1].area
  {
    hide Reached, Inv, FirstFree, NextDue, Allocated, Test, Step;
    s' := Do(s, 0, JoinReturn);
    assert Describes(s, 0, JoinReturn, 0, s'.threads[0]) && Describes(s, 0, JoinReturn, 1, s'.threads[1]);
    assert [1, 0][1..] == [0] && [0][1..] == [];
  }

  /**
   * An early return does leave a stale value: thread 1 has stored 7 under key 3, thread 0 joins it, leaves
   * pthread_cond_wait early and deletes the key, and thread 1 still reads 7.
   */
  lemma StaleAfterEarlyReturn() returns (s: State)
    ensures Reached(s) && Wf(s) && 1 in s.threads && s.threads[1].pc.Running?
    ensures !Allocated(s, 3) && GetSpecific(s.threads[1], 3) == 7
  {
    hide From, Wf, Reached, Allocated, SameKeys;
    var s0 := MainRuns();
    var s1 := Spawn(s0, 1);
    StillAllocated(s0, s1, 3);
    var s2 := Stores(s1, 1, 3, 7);
    FromThere(s1, 1, s2);
    var s3 := Waits(s2);
    StillAllocated(s2, s3, 3);
    var s4 := Returns(s3);
    StillAllocated(s3, s4, 3);
    s := DeletesAlone(s4, 3);
  }

  /**
   * pthread_key_delete does come to write into an area that is gone: thread 1 has exited, and thread 0 has not yet left
   * its join.
   */
  lemma GoneAreaTouched() returns (s: State)
    ensures Reached(s) && Wf(s) && 2 in s.threads && Enabled(s, 2, ClearSlot)
    ensures s.threads[2].pc.rest[0] == 1 && s.threads[1].pc.Gone? && !Skipped(s.threads[1])
  {
    hide From, Wf, Reached, Allocated, SameKeys, Describes, Calm;
    var s1 := ExitedButJoined();
    var s2 := Deletes(s1, 2, 3);
    FromThere(s1, 2, s2);
    s := PassesTwo(s2);
  }

  /** Thread 1 is gone and thread 0 is still in its join. */
  lemma ExitedButJoined() returns (s: State)
    ensures Reached(s) && Wf(s) && Unlocked(s) && s.list == [2, 1, 0] && s.threads.Keys == {0, 1, 2} && Allocated(s, 3)
    ensures s.threads[2].pc.Running? && s.threads[1].pc.Gone? && s.threads[1].joinCount == 1 && s.threads[1].published
  {
    hide From, Wf, Reached, Allocated, SameKeys;
    var s0 := MainRuns();
    var s1 := Spawn(s0, 1);
    StillAllocated(s0, s1, 3);
    var s2 := Spawn(s1, 2);
    StillAllocated(s1, s2, 3);
    var s3 := Waits(s2);
    StillAllocated(s2, s3, 3);
    s := Leaves(s3, 1);
    FromThere(s3, 1, s);
    assert [2] + ([1] + [0]) == [2, 1, 0];
  }

  lemma PassesTwo(s: State) returns (s': State)
    requires Reached(s) && Wf(s) && 1 in s.threads && 2 in s.threads && s.threads[2].pc == Clearing(3, [2, 1, 0])
    ensures Reached(s') && Wf(s') && 1 in s'.threads && 2 in s'.threads && s'.threads[2].pc == Clearing(3, [1, 0])
    ensures Standing(s.threads[1], s'.threads[1]) && s'.threads[1].pc == s.threads[1].pc
  {
    hide Wf, Reached, Inv, FirstFree, NextDue, Allocated, Test, Step;
    s' := Do(s, 2, ClearSlot);
    assert Describes(s, 2, ClearSlot, 2, s'.threads[2]) && Describes(s, 2, ClearSlot, 1, s'.threads[1]);
    assert [2, 1, 0][1..] == [1, 0];
  }
}
