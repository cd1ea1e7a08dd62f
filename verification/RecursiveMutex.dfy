/**
 * Recursive and errorcheck mutexes: pthread_mutex_lock, unlock, trylock and lock_timeout_np as atomic steps of any
 * number of threads. Each section under the global __recursive_lock is one step.
 */
module RecursiveMutex {

  /** Kernel thread ids that fit the owner field. */
  type Tid = t: Id | 0 < t.bits <= 0xffff witness Id(1)

  datatype Id = Id(bits: bv32)

  function Bits(t: Tid): (r: bv32) { t.bits }

  lemma BitsRange(t: Tid)
    ensures 0 < Bits(t) <= 0xffff
  {}

  lemma BitsInjective(t: Tid, u: Tid)
    requires Bits(t) == Bits(u)
    ensures t == u
  {}

  // ------------------------------ the fields of the mutex word ------------------------------

  function Owner(v: bv32): (r: bv32) { (v >> 16) & 0xffff }

  function LockState(v: bv32): (r: bv32) { v & 3 }

  function Count(v: bv32): (r: bv32) { (v & 0x1ffc) >> 2 }

  /** The type and the shared flag. */
  function Kind(v: bv32): (r: bv32) { v & 0xe000 }

  function Pack(owner: bv32, kind: bv32, count: bv32, st: bv32): (r: bv32) { (owner << 16) | kind | (count << 2) | st }

  /** The word is its four fields. */
  lemma PackFields(v: bv32)
    ensures v == Pack(Owner(v), Kind(v), Count(v), LockState(v))
  {}

  lemma FieldBounds(v: bv32)
    ensures Owner(v) <= 0xffff && Count(v) <= 0x7ff && LockState(v) <= 3 && Kind(v) & 0xe000 == Kind(v)
  {}

  // The expressions of the code.

  /** counter = (oldv + (1 << 2)) & MASK; (oldv & ~MASK) | counter */
  function Nested(v: bv32): (r: bv32) { (v & 0xffffe003) | ((v + 4) & 0x1ffc) }

  /** oldv ^ 3 */
  function Contended(v: bv32): (r: bv32) { v ^ 3 }

  /** oldv - (1 << 2) */
  function Unnested(v: bv32): (r: bv32) { v - 4 }

  /** (tid << 16) | mtype | new_lock_type */
  function Taken(t: bv32, kind: bv32, st: bv32): (r: bv32) { (t << 16) | kind | st }

  predicate IsKind(k: bv32) { k & 0xe000 == k && (k & 0xc000 == 0x4000 || k & 0xc000 == 0x8000) }

  predicate Errorcheck(k: bv32) { k & 0xc000 == 0x8000 }

  /** A recursive or an errorcheck mutex, each private or shared. */
  lemma Kinds(k: bv32)
    ensures IsKind(k) <==> k == 0x4000 || k == 0x6000 || k == 0x8000 || k == 0xa000
    ensures IsKind(k) ==> (Errorcheck(k) <==> k == 0x8000 || k == 0xa000)
  {}

  lemma NestedFields(v: bv32)
    ensures Owner(Nested(v)) == Owner(v) && LockState(Nested(v)) == LockState(v) && Kind(Nested(v)) == Kind(v)
    ensures Count(v) < 0x7ff ==> Count(Nested(v)) == Count(v) + 1
    ensures Count(v) == 0x7ff ==> Count(Nested(v)) == 0
  {}

  lemma ContendedFields(v: bv32)
    requires LockState(v) == 1
    ensures Owner(Contended(v)) == Owner(v) && LockState(Contended(v)) == 2 && Kind(Contended(v)) == Kind(v)
    ensures Count(Contended(v)) == Count(v)
  {}

  lemma UnnestedFields(v: bv32)
    requires IsNested(v)
    ensures Owner(Unnested(v)) == Owner(v) && LockState(Unnested(v)) == LockState(v) && Kind(Unnested(v)) == Kind(v)
    ensures Count(v) > 0 && Count(Unnested(v)) == Count(v) - 1
  {}

  lemma TakenFields(t: bv32, kind: bv32, st: bv32)
    requires 0 < t <= 0xffff && IsKind(kind) && (st == 1 || st == 2)
    ensures Owner(Taken(t, kind, st)) == t && LockState(Taken(t, kind, st)) == st && Kind(Taken(t, kind, st)) == kind
    ensures Count(Taken(t, kind, st)) == 0
  {}

  lemma FreeFields(kind: bv32)
    requires IsKind(kind)
    ensures Owner(kind) == 0 && LockState(kind) == 0 && Kind(kind) == kind && Count(kind) == 0
  {}

  predicate IsNested(v: bv32) { v & 0x1ffc != 0 }

  lemma NoCount(v: bv32)
    ensures IsNested(v) <==> Count(v) != 0
  {}

  lemma DepthStep(c: bv32)
    requires c < 0x7ff
    ensures (c + 1) as int == c as int + 1
  {}

  lemma DepthBack(c: bv32)
    requires 0 < c <= 0x7ff
    ensures (c - 1) as int == c as int - 1 && c as int > 0
  {}

  /** How the counter changes, as a number. */
  lemma UnnestedCount(v: bv32)
    requires IsNested(v)
    ensures Count(v) as int > 0 && Count(Unnested(v)) as int == Count(v) as int - 1
  {
    hide Unnested, Count, IsNested;
    UnnestedFields(v);
    FieldBounds(v);
    DepthBack(Count(v));
  }

  lemma NestedCount(v: bv32)
    ensures 0 <= Count(v) as int <= 2047
    ensures Count(Nested(v)) as int == if Count(v) as int == 2047 then 0 else Count(v) as int + 1
  {
    hide Nested, Count;
    NestedFields(v);
    FieldBounds(v);
    WrapDepth(Count(v), Count(Nested(v)));
  }

  lemma WrapDepth(c: bv32, c': bv32)
    requires c <= 0x7ff && c' == if c < 0x7ff then c + 1 else 0
    ensures 0 <= c as int <= 2047 && c' as int == if c as int == 2047 then 0 else c as int + 1
  {
    if c < 0x7ff { DepthStep(c); }
  }

  // ------------------------------ the protocol ------------------------------

  datatype Result = Ok | EDEADLK | EPERM | EBUSY

  datatype PC =
    | Idle(ret: Result)                    // outside; what the last call returned
    | Relocking                            // has seen itself as the owner; about to count up
    | Locking(timed: bool, st: bv32)       // about to take the mutex with state st, or to contend for it
    | Trying                               // trylock, about to take the mutex if it is free
    | Deciding(timed: bool, oldv: bv32)    // found it held; about to give up or to wait for a change of oldv
    | Sleeping(timed: bool)
    | Unlocking                            // has seen itself as the owner; about to count down or to release
    | Waking                               // has released; about to wake one sleeper

  datatype State = State(kind: bv32, value: bv32, pc: map<Tid, PC>)

  datatype Action =
    | CallLock(timed: bool) | CallTryLock | CallUnlock
    | Relock | Attempt | Try | GiveUp | Wait | Return | Unlock
    | Wake(sleeper: Tid)

  predicate Asleep(s: State, t: Tid) { t in s.pc && s.pc[t].Sleeping? }

  ghost predicate NoSleeper(s: State) { forall u :: u in s.pc ==> !s.pc[u].Sleeping? }

  /** The call or step a thread may make next. */
  predicate Enabled(s: State, t: Tid, a: Action)
    requires t in s.pc
  {
    match s.pc[t]
    case Idle(_) => a.CallLock? || a.CallTryLock? || a.CallUnlock?
    case Relocking => a.Relock?
    case Locking(_, _) => a.Attempt?
    case Trying => a.Try?
    case Deciding(timed, _) => a.Wait? || (a.GiveUp? && timed)
    case Sleeping(_) => a.Return?
    case Unlocking => a.Unlock?
    case Waking => a.Wake?
  }

  /** The mutex word after the step. */
  function NewValue(s: State, t: Tid, a: Action): bv32
    requires t in s.pc && Enabled(s, t, a)
  {
    match s.pc[t]
    case Relocking => Nested(s.value)
    case Locking(_, st) =>
      if s.value == s.kind then Taken(Bits(t), s.kind, st)
      else if LockState(s.value) == 1 then Contended(s.value) else s.value
    case Trying => if s.value == s.kind then Taken(Bits(t), s.kind, 1) else s.value
    case Unlocking => if IsNested(s.value) then Unnested(s.value) else s.kind
    case _ => s.value
  }

  /** Where the thread goes. */
  function NewPC(s: State, t: Tid, a: Action): PC
    requires t in s.pc && Enabled(s, t, a)
  {
    match s.pc[t]
    case Idle(_) =>
      if a.CallUnlock? then if Owner(s.value) == Bits(t) then Unlocking else Idle(EPERM)
      else if Owner(s.value) == Bits(t) then if Errorcheck(s.kind) then Idle(EDEADLK) else Relocking
      else if a.CallLock? then Locking(a.timed, 1) else Trying
    case Relocking => Idle(Ok)
    case Locking(timed, _) => if s.value == s.kind then Idle(Ok) else Deciding(timed, NewValue(s, t, a))
    case Trying => if s.value == s.kind then Idle(Ok) else Idle(EBUSY)
    case Deciding(timed, oldv) =>
      if a.GiveUp? then Idle(EBUSY) else if s.value == oldv then Sleeping(timed) else Locking(timed, 2)
    case Sleeping(timed) => Locking(timed, 2)
    case Unlocking => if !IsNested(s.value) && LockState(s.value) == 2 then Waking else Idle(Ok)
    case Waking => Idle(Ok)
  }

  /** One atomic step of thread t; a futex wake takes one sleeper out of the queue if there is one. */
  ghost predicate Step(s: State, t: Tid, a: Action, s': State)
  {
    && t in s.pc && Enabled(s, t, a)
    && (a.Wake? ==> Asleep(s, a.sleeper) || NoSleeper(s))
    && var pc := s.pc[t := NewPC(s, t, a)];
       s' == s.(value := NewValue(s, t, a),
                pc := if a.Wake? && Asleep(s, a.sleeper) then pc[a.sleeper := Locking(s.pc[a.sleeper].timed, 2)]
                      else pc)
  }

  /** The nesting depth the counter can hold is not exceeded. */
  predicate WithinDepth(s: State, a: Action) { a.Relock? ==> Count(s.value) < 0x7ff }

  /** t will wake a sleeper, or will take the mutex as contended or find it so. */
  predicate Helps(s: State, t: Tid) { t in s.pc && (s.pc[t].Waking? || (s.pc[t].Locking? && s.pc[t].st == 2)) }

  ghost predicate NoLostWakeup(s: State)
  { NoSleeper(s) || LockState(s.value) == 2 || exists u :: Helps(s, u) }

  /** The word is free, or it is locked with an owner. */
  predicate WordOk(kind: bv32, v: bv32)
  {
    && IsKind(kind) && Kind(v) == kind && (LockState(v) == 0 || LockState(v) == 1 || LockState(v) == 2)
    && (LockState(v) == 0 ==> v == kind) && (LockState(v) != 0 ==> Owner(v) != 0)
  }

  predicate ThreadOk(s: State, t: Tid)
    requires t in s.pc
  {
    match s.pc[t]
    case Relocking => Owner(s.value) == Bits(t) && LockState(s.value) != 0 && !Errorcheck(s.kind)
    case Unlocking => Owner(s.value) == Bits(t) && LockState(s.value) != 0
    case Locking(_, st) => Owner(s.value) != Bits(t) && (st == 1 || st == 2)
    case Trying => Owner(s.value) != Bits(t)
    case Deciding(_, oldv) => Owner(s.value) != Bits(t) && LockState(oldv) == 2
    case Sleeping(_) => Owner(s.value) != Bits(t)
    case Waking => Owner(s.value) != Bits(t)
    case Idle(_) => true
  }

  ghost predicate Inv(s: State)
  { WordOk(s.kind, s.value) && NoLostWakeup(s) && forall t :: t in s.pc ==> ThreadOk(s, t) }

  // ------------------------------ the abstract lock ------------------------------

  /** An owner and a nesting depth; owner 0 means free. */
  datatype Lock = Lock(owner: bv32, depth: nat)

  function AbsOf(v: bv32): Lock
  { if LockState(v) == 0 then Lock(0, 0) else Lock(Owner(v), Count(v) as int + 1) }

  function Abs(s: State): Lock { AbsOf(s.value) }

  /** The steps that lock: they end a call with Ok after Relock, Attempt or Try. */
  ghost predicate Locks(t: Tid, a: Action, s': State)
  { (a.Relock? || a.Attempt? || a.Try?) && t in s'.pc && s'.pc[t] == Idle(Ok) }

  /** What a step may do to the abstract lock. */
  ghost predicate AbsStep(l: Lock, t: Tid, a: Action, l': Lock, s': State)
  {
    if Locks(t, a, s') then
      if a.Relock? then l.owner == Bits(t) && l' == Lock(Bits(t), l.depth + 1)
      else l == Lock(0, 0) && l' == Lock(Bits(t), 1)
    else if a.Unlock? then
      l.owner == Bits(t) && l' == if l.depth > 1 then Lock(Bits(t), l.depth - 1) else Lock(0, 0)
    else l' == l
  }

  lemma NestedAbs(kind: bv32, v: bv32)
    requires WordOk(kind, v) && LockState(v) != 0 && Count(v) < 0x7ff
    ensures WordOk(kind, Nested(v)) && LockState(Nested(v)) != 0 && Owner(Nested(v)) == Owner(v)
    ensures AbsOf(Nested(v)) == Lock(Owner(v), AbsOf(v).depth + 1) && AbsOf(v).owner == Owner(v)
  {
    hide Nested, Owner, Count, LockState, Kind, IsKind;
    NestedFields(v);
    DepthStep(Count(v));
  }

  lemma ContendedAbs(kind: bv32, v: bv32)
    requires WordOk(kind, v) && LockState(v) == 1
    ensures WordOk(kind, Contended(v)) && AbsOf(Contended(v)) == AbsOf(v)
    ensures LockState(Contended(v)) == 2 && Owner(Contended(v)) == Owner(v)
  {
    hide Contended, Owner, Count, LockState, Kind, IsKind;
    ContendedFields(v);
  }

  lemma TakenAbs(t: Tid, kind: bv32, st: bv32)
    requires WordOk(kind, kind) && (st == 1 || st == 2)
    ensures var v := Taken(Bits(t), kind, st);
            && WordOk(kind, v) && AbsOf(v) == Lock(Bits(t), 1) && LockState(v) == st && Owner(v) == Bits(t)
    ensures AbsOf(kind) == Lock(0, 0) && Owner(kind) == 0
  {
    hide Taken, Owner, Count, LockState, Kind, IsKind, Bits;
    BitsRange(t);
    TakenFields(Bits(t), kind, st);
    FreeFields(kind);
  }

  lemma UnnestedAbs(kind: bv32, v: bv32)
    requires WordOk(kind, v) && LockState(v) != 0 && IsNested(v)
    ensures WordOk(kind, Unnested(v)) && LockState(Unnested(v)) == LockState(v) && Owner(Unnested(v)) == Owner(v)
    ensures AbsOf(v).depth > 1 && AbsOf(Unnested(v)) == Lock(Owner(v), AbsOf(v).depth - 1) && AbsOf(v).owner == Owner(v)
  {
    hide Unnested, Owner, Count, LockState, Kind, IsKind, IsNested, AbsOf;
    UnnestedFields(v);
    UnnestedDepth(v);
  }

  lemma UnnestedDepth(v: bv32)
    requires LockState(v) != 0 && IsNested(v)
    ensures AbsOf(v).depth > 1 && AbsOf(Unnested(v)) == Lock(Owner(v), AbsOf(v).depth - 1) && AbsOf(v).owner == Owner(v)
  {
    hide Unnested, Owner, Count, LockState, Kind, IsNested;
    UnnestedCount(v);
    assert Owner(Unnested(v)) == Owner(v) && LockState(Unnested(v)) == LockState(v) by { UnnestedFields(v); }
  }

  lemma ReleasedAbs(kind: bv32, v: bv32)
    requires WordOk(kind, v) && LockState(v) != 0 && !IsNested(v)
    ensures WordOk(kind, kind) && LockState(kind) == 0 && Owner(kind) == 0 && AbsOf(kind) == Lock(0, 0)
    ensures AbsOf(v) == Lock(Owner(v), 1)
  {
    hide Owner, Count, LockState, Kind, IsKind;
    NoCount(v);
    FreeFields(kind);
  }

  lemma RefinesTaking(s: State, t: Tid, a: Action, s': State)
    requires Inv(s) && Step(s, t, a, s') && (a.Attempt? || a.Try?)
    ensures AbsStep(Abs(s), t, a, Abs(s'), s')
    ensures WordOk(s'.kind, s'.value) && s'.kind == s.kind
  {
    hide NoLostWakeup, Nested, Contended, Unnested, Taken, Owner, Count, LockState, WordOk, AbsOf, Bits, IsNested;
    hide Errorcheck;
    assert ThreadOk(s, t);
    if s.value == s.kind { TakenAbs(t, s.kind, if a.Try? then 1 else s.pc[t].st); }
    else if a.Attempt? && LockState(s.value) == 1 { ContendedAbs(s.kind, s.value); }
  }

  lemma RefinesCounting(s: State, t: Tid, a: Action, s': State)
    requires Inv(s) && Step(s, t, a, s') && WithinDepth(s, a) && (a.Relock? || a.Unlock?)
    ensures AbsStep(Abs(s), t, a, Abs(s'), s')
    ensures WordOk(s'.kind, s'.value) && s'.kind == s.kind
  {
    hide NoLostWakeup, Nested, Contended, Unnested, Taken, Owner, Count, LockState, WordOk, AbsOf, Bits, IsNested;
    hide Errorcheck;
    assert ThreadOk(s, t);
    if a.Relock? { NestedAbs(s.kind, s.value); }
    else if IsNested(s.value) { UnnestedAbs(s.kind, s.value); }
    else { ReleasedAbs(s.kind, s.value); }
  }

  /** Every step is a step of the abstract lock by the thread that makes it. */
  lemma Refines(s: State, t: Tid, a: Action, s': State)
    requires Inv(s) && Step(s, t, a, s') && WithinDepth(s, a)
    ensures AbsStep(Abs(s), t, a, Abs(s'), s')
    ensures WordOk(s'.kind, s'.value) && s'.kind == s.kind
  {
    hide NoLostWakeup, Nested, Contended, Unnested, Taken, Owner, Count, LockState, WordOk, AbsOf, Bits, IsNested;
    hide Errorcheck, ThreadOk;
    if a.Attempt? || a.Try? { RefinesTaking(s, t, a, s'); }
    else if a.Relock? || a.Unlock? { RefinesCounting(s, t, a, s'); }
  }

  // ------------------------------ the invariant ------------------------------

  lemma OthersKeep(s: State, t: Tid, a: Action, s': State, u: Tid)
    requires Step(s, t, a, s') && u != t && (a.Wake? ==> u != a.sleeper)
    ensures u in s'.pc <==> u in s.pc
    ensures u in s.pc ==> s'.pc[u] == s.pc[u]
  {
    hide NewValue, NewPC;
  }

  /** Only its own thread makes or unmakes an owner; contenders never disturb it. */
  lemma OwnerKept(s: State, t: Tid, a: Action, s': State, u: Tid)
    requires Inv(s) && Step(s, t, a, s') && WithinDepth(s, a) && u != t
    ensures Owner(s'.value) == Bits(u) <==> Owner(s.value) == Bits(u)
    ensures Owner(s.value) == Bits(u) && LockState(s.value) != 0 ==> LockState(s'.value) != 0
  {
    hide NoLostWakeup, Nested, Contended, Unnested, Taken, Owner, Count, LockState, WordOk, AbsOf, Bits, IsNested;
    hide Errorcheck;
    assert ThreadOk(s, t);
    BitsRange(u);
    if Bits(t) == Bits(u) { BitsInjective(t, u); }
    match a
    case Relock => NestedAbs(s.kind, s.value);
    case Attempt => AttemptWord(s, t);
    case Try => AttemptWord(s, t);
    case Unlock => if IsNested(s.value) { UnnestedAbs(s.kind, s.value); } else { ReleasedAbs(s.kind, s.value); }
    case _ =>
  }

  lemma AttemptWord(s: State, t: Tid)
    requires WordOk(s.kind, s.value)
    ensures s.value == s.kind ==>
        forall st :: st == 1 || st == 2 ==>
          Owner(Taken(Bits(t), s.kind, st)) == Bits(t) && LockState(Taken(Bits(t), s.kind, st)) == st
    ensures s.value == s.kind ==> Owner(s.value) == 0 && LockState(s.value) == 0
    ensures LockState(s.value) == 1 ==>
        Owner(Contended(s.value)) == Owner(s.value) && LockState(Contended(s.value)) == 2
    ensures s.value != s.kind ==> LockState(s.value) == 1 || LockState(s.value) == 2
  {
    if s.value == s.kind {
      FreeFields(s.kind);
      forall st | st == 1 || st == 2
        ensures Owner(Taken(Bits(t), s.kind, st)) == Bits(t) && LockState(Taken(Bits(t), s.kind, st)) == st
      {
        TakenFields(Bits(t), s.kind, st);
      }
    }
    if LockState(s.value) == 1 { ContendedFields(s.value); }
  }

  lemma ThreadsKept(s: State, t: Tid, a: Action, s': State, u: Tid)
    requires Inv(s) && Step(s, t, a, s') && WithinDepth(s, a) && u in s'.pc
    ensures ThreadOk(s', u)
  {
    hide Inv, Step, ThreadOk, WithinDepth;
    if u != t { OtherKept(s, t, a, s', u); } else { SelfKept(s, t, a, s'); }
  }

  lemma OtherKept(s: State, t: Tid, a: Action, s': State, u: Tid)
    requires Inv(s) && Step(s, t, a, s') && WithinDepth(s, a) && u in s'.pc && u != t
    ensures ThreadOk(s', u)
  {
    hide NoLostWakeup, NewValue, NewPC, Owner, Count, LockState, WordOk, AbsOf, Bits, Errorcheck;
    OwnerKept(s, t, a, s', u);
    assert ThreadOk(s, u);
    if !(a.Wake? && u == a.sleeper) { OthersKeep(s, t, a, s', u); }
  }

  lemma SelfKept(s: State, t: Tid, a: Action, s': State)
    requires Inv(s) && Step(s, t, a, s')
    ensures ThreadOk(s', t)
  {
    hide Inv, Step, ThreadOk, NewValue, NewPC;
    if a.CallLock? || a.CallTryLock? || a.CallUnlock? { SelfCalls(s, t, a, s'); }
    else if a.Attempt? { SelfAttempts(s, t, a, s'); }
    else if a.Unlock? { SelfUnlocks(s, t, a, s'); }
    else { SelfGoesOn(s, t, a, s'); }
  }

  lemma SelfCalls(s: State, t: Tid, a: Action, s': State)
    requires Inv(s) && Step(s, t, a, s') && (a.CallLock? || a.CallTryLock? || a.CallUnlock?)
    ensures ThreadOk(s', t)
  {
    hide NoLostWakeup, Nested, Contended, Unnested, Taken, Owner, Count, LockState, WordOk, Bits, IsNested, Errorcheck;
    hide ThreadOk;
    BitsRange(t);
    FreeWord(s);
    CallOk(s, s', t);
  }

  lemma CallOk(s: State, s': State, t: Tid)
    requires t in s'.pc && s'.value == s.value && s'.kind == s.kind
    requires (LockState(s.value) == 0 ==> Owner(s.value) != Bits(t))
    requires s'.pc[t].Relocking? ==> Owner(s.value) == Bits(t) && !Errorcheck(s.kind)
    requires s'.pc[t].Unlocking? ==> Owner(s.value) == Bits(t)
    requires s'.pc[t].Locking? ==> Owner(s.value) != Bits(t) && s'.pc[t].st == 1
    requires s'.pc[t].Trying? ==> Owner(s.value) != Bits(t)
    requires !s'.pc[t].Deciding? && !s'.pc[t].Sleeping? && !s'.pc[t].Waking?
    ensures ThreadOk(s', t)
  {
    hide Owner, LockState, Bits, Errorcheck;
  }

  lemma SelfAttempts(s: State, t: Tid, a: Action, s': State)
    requires Inv(s) && Step(s, t, a, s') && a.Attempt?
    ensures ThreadOk(s', t)
  {
    hide NoLostWakeup, Nested, Contended, Unnested, Taken, Owner, Count, LockState, WordOk, Bits, IsNested, Errorcheck;
    assert ThreadOk(s, t);
    AttemptWord(s, t);
  }

  lemma SelfUnlocks(s: State, t: Tid, a: Action, s': State)
    requires Inv(s) && Step(s, t, a, s') && a.Unlock?
    ensures ThreadOk(s', t)
  {
    hide NoLostWakeup, Nested, Contended, Unnested, Taken, Owner, Count, LockState, WordOk, Bits, IsNested, Errorcheck;
    BitsRange(t);
    ReleaseWord(s);
  }

  lemma SelfGoesOn(s: State, t: Tid, a: Action, s': State)
    requires Inv(s) && Step(s, t, a, s') && (a.Relock? || a.Try? || a.GiveUp? || a.Wait? || a.Return? || a.Wake?)
    ensures ThreadOk(s', t)
  {
    hide NoLostWakeup, Nested, Contended, Unnested, Taken, Owner, Count, LockState, WordOk, Bits, IsNested, Errorcheck;
    assert ThreadOk(s, t);
  }

  lemma FreeWord(s: State)
    requires WordOk(s.kind, s.value)
    ensures LockState(s.value) == 0 ==> Owner(s.value) == 0
  {
    FreeFields(s.kind);
  }

  lemma ReleaseWord(s: State)
    requires WordOk(s.kind, s.value)
    ensures Owner(s.kind) == 0 && LockState(s.kind) == 0
  {
    FreeFields(s.kind);
  }

  /** Only an unlock that will wake takes the state away from 2. */
  lemma ContentionKept(s: State, t: Tid, a: Action, s': State)
    requires Inv(s) && Step(s, t, a, s') && WithinDepth(s, a) && LockState(s.value) == 2
    ensures LockState(s'.value) == 2 || Helps(s', t)
  {
    hide NoLostWakeup, Nested, Contended, Unnested, Taken, Owner, Count, LockState, AbsOf, Bits, IsNested, Errorcheck;
    hide Kind, IsKind;
    assert ThreadOk(s, t);
    match a
    case Relock => NestedFields(s.value);
    case Attempt => AttemptWord(s, t);
    case Try => AttemptWord(s, t);
    case Unlock => if IsNested(s.value) { UnnestedFields(s.value); }
    case _ =>
  }

  lemma WakeupKept(s: State, t: Tid, a: Action, s': State)
    requires Inv(s) && Step(s, t, a, s') && WithinDepth(s, a)
    ensures NoLostWakeup(s')
  {
    hide Nested, Contended, Unnested, Taken, Owner, Count, LockState, WordOk, AbsOf, Bits, IsNested, Errorcheck;
    if a.Wake? && Asleep(s, a.sleeper) {
      assert Helps(s', a.sleeper);
    } else if LockState(s.value) == 2 {
      ContentionKept(s, t, a, s');
    } else if NoSleeper(s) {
      SleepsContended(s, t, a, s');
    } else {
      var u :| Helps(s, u);
      if u != t {
        OthersKeep(s, t, a, s', u);
        assert Helps(s', u);
      } else {
        HelperHelps(s, t, a, s');
      }
    }
  }

  /** A thread falls asleep only on a contended mutex. */
  lemma SleepsContended(s: State, t: Tid, a: Action, s': State)
    requires Inv(s) && Step(s, t, a, s') && NoSleeper(s)
    ensures NoSleeper(s') || LockState(s'.value) == 2
  {
    hide NoLostWakeup, Nested, Contended, Unnested, Taken, Owner, Count, LockState, WordOk, AbsOf, Bits, IsNested;
    hide Errorcheck;
    assert ThreadOk(s, t);
    if !(a.Wait? && s'.pc[t].Sleeping?) {
      forall u | u in s'.pc ensures !s'.pc[u].Sleeping? {
        if u != t && !(a.Wake? && u == a.sleeper) { OthersKeep(s, t, a, s', u); }
      }
    }
  }

  /** An awake contender takes the mutex as contended or makes it contended; a waker wakes. */
  lemma HelperHelps(s: State, t: Tid, a: Action, s': State)
    requires Inv(s) && Step(s, t, a, s') && Helps(s, t) && !(a.Wake? && Asleep(s, a.sleeper))
    ensures NoSleeper(s') || LockState(s'.value) == 2
  {
    hide NoLostWakeup, Nested, Contended, Unnested, Taken, Owner, Count, LockState, WordOk, AbsOf, Bits, IsNested;
    hide Errorcheck;
    assert ThreadOk(s, t);
    if a.Attempt? {
      AttemptWord(s, t);
    } else {
      assert a.Wake? && NoSleeper(s);
      forall u | u in s'.pc ensures !s'.pc[u].Sleeping? { if u != t && u != a.sleeper { OthersKeep(s, t, a, s', u); } }
    }
  }

  lemma InvKept(s: State, t: Tid, a: Action, s': State)
    requires Inv(s) && Step(s, t, a, s') && WithinDepth(s, a)
    ensures Inv(s')
  {
    hide NoLostWakeup, Step, ThreadOk, WordOk;
    Refines(s, t, a, s');
    WakeupKept(s, t, a, s');
    forall u | u in s'.pc ensures ThreadOk(s', u) { ThreadsKept(s, t, a, s', u); }
  }

  // ------------------------------ whole runs ------------------------------

  datatype Event = Event(t: Tid, a: Action)

  ghost predicate Init(s: State)
  { IsKind(s.kind) && s.value == s.kind && forall t :: t in s.pc ==> s.pc[t] == Idle(Ok) }

  ghost predicate StepAt(trace: seq<State>, ev: seq<Event>, i: nat)
    requires |trace| == |ev| + 1 && i < |ev|
  { Step(trace[i], ev[i].t, ev[i].a, trace[i + 1]) && WithinDepth(trace[i], ev[i].a) }

  /** A run of any number of threads in any interleaving that stays within the depth of the counter. */
  ghost predicate Run(trace: seq<State>, ev: seq<Event>)
  { |trace| == |ev| + 1 && Init(trace[0]) && forall i :: 0 <= i < |ev| ==> StepAt(trace, ev, i) }

  /** The successful locks of t minus its unlocks in the first n steps. */
  ghost function Balance(trace: seq<State>, ev: seq<Event>, n: nat, t: Tid): int
    requires |trace| == |ev| + 1 && n <= |ev|
  {
    if n == 0 then 0
    else Balance(trace, ev, n - 1, t) +
         if ev[n - 1].t != t then 0 else if Locks(t, ev[n - 1].a, trace[n]) then 1
         else if ev[n - 1].a.Unlock? then -1 else 0
  }

  /** What t holds: the depth if it is the owner. */
  ghost function Held(l: Lock, t: Tid): int { if l.owner == Bits(t) then l.depth else 0 }

  lemma HeldStep(s: State, u: Tid, a: Action, s': State, t: Tid)
    requires Inv(s) && Step(s, u, a, s') && WithinDepth(s, a)
    ensures Held(Abs(s'), t) == Held(Abs(s), t) +
        if u != t then 0 else if Locks(t, a, s') then 1 else if a.Unlock? then -1 else 0
  {
    hide Inv, Step, WithinDepth, AbsOf, Bits, Locks;
    Refines(s, u, a, s');
    BitsRange(t);
    BitsRange(u);
    if u != t && Bits(u) == Bits(t) { BitsInjective(u, t); }
    AbsHeld(s);
  }

  lemma AbsHeld(s: State)
    requires Inv(s)
    ensures Abs(s).depth > 0 <==> Abs(s).owner != 0
  {}

  /** In every run, every thread holds the mutex exactly as often as it has locked and not yet unlocked it. */
  lemma {:induction false} LocksNeedUnlocks(trace: seq<State>, ev: seq<Event>, n: nat, t: Tid)
    requires Run(trace, ev) && n <= |ev|
    ensures Inv(trace[n]) && Balance(trace, ev, n, t) == Held(Abs(trace[n]), t)
  {
    if n == 0 {
      InitInv(trace[0], t);
    } else {
      LocksNeedUnlocks(trace, ev, n - 1, t);
      assert StepAt(trace, ev, n - 1);
      InvKept(trace[n - 1], ev[n - 1].t, ev[n - 1].a, trace[n]);
      HeldStep(trace[n - 1], ev[n - 1].t, ev[n - 1].a, trace[n], t);
    }
  }

  lemma InitInv(s: State, t: Tid)
    requires Init(s)
    ensures Inv(s) && Held(Abs(s), t) == 0
  {
    FreeFields(s.kind);
    BitsRange(t);
    assert NoSleeper(s);
  }

  /** At most one thread has more locks than unlocks. */
  lemma MutualExclusion(trace: seq<State>, ev: seq<Event>, n: nat, t: Tid, u: Tid)
    requires Run(trace, ev) && n <= |ev| && Balance(trace, ev, n, t) > 0 && Balance(trace, ev, n, u) > 0
    ensures t == u
  {
    LocksNeedUnlocks(trace, ev, n, t);
    LocksNeedUnlocks(trace, ev, n, u);
    BitsInjective(t, u);
  }

  /** Once every call has returned and nobody holds the mutex, nobody sleeps on it. */
  lemma NobodyOrphaned(trace: seq<State>, ev: seq<Event>, t: Tid)
    requires Run(trace, ev)
    requires var s := trace[|ev|]; (forall u :: u in s.pc ==> s.pc[u].Idle? || s.pc[u].Sleeping?) && Abs(s).owner == 0
    ensures NoSleeper(trace[|ev|])
  {
    LocksNeedUnlocks(trace, ev, |ev|, t);
    AbsHeld(trace[|ev|]);
  }

  /**
   * Calls that fail: a relock of an errorcheck mutex exactly by its owner, an unlock exactly by a thread that is not, a
   * trylock exactly when somebody holds the mutex.
   * The step that returns the error does not change the word.
   */
  lemma ErrorCodes(trace: seq<State>, ev: seq<Event>, n: nat)
    requires Run(trace, ev) && n < |ev|
    ensures var s, t, a, s' := trace[n], ev[n].t, ev[n].a, trace[n + 1];
            && t in s'.pc
            && ((a.CallLock? || a.CallTryLock?) ==>
                  (s'.pc[t] == Idle(EDEADLK) <==> Errorcheck(s.kind) && Balance(trace, ev, n, t) > 0))
            && (a.CallUnlock? ==> (s'.pc[t] == Idle(EPERM) <==> Balance(trace, ev, n, t) == 0))
            && ((s'.pc[t].Idle? && s'.pc[t].ret != Ok) ==> s'.value == s.value)
            && (a.Try? ==> s'.pc[t] == Idle(if Vacant(trace, ev, n) then Ok else EBUSY))
  {
    var s, t := trace[n], ev[n].t;
    LocksNeedUnlocks(trace, ev, n, t);
    assert StepAt(trace, ev, n);
    OwnerIs(s, t);
    VacantIsFree(trace, ev, n);
    if ev[n].a.Try? { TakesWhenFree(s, t, ev[n].a, trace[n + 1]); }
    hide Inv, WithinDepth, Owner, Bits, LockState, IsNested, Nested, Unnested, Contended, Taken, AbsOf;
  }

  /** A call of t from step m to step n: it begins at m, returns at n, and t is inside in between. */
  ghost predicate Call(trace: seq<State>, ev: seq<Event>, m: nat, n: nat, t: Tid)
    requires |trace| == |ev| + 1
  {
    && m <= n < |ev| && ev[m].t == t && (ev[m].a.CallLock? || ev[m].a.CallTryLock? || ev[m].a.CallUnlock?)
    && t in trace[n + 1].pc && trace[n + 1].pc[t].Idle?
    && forall i :: m < i <= n ==> t in trace[i].pc && !trace[i].pc[t].Idle?
  }

  /** Where the thread of a call c can be, if it held the mutex when it called, and if it did not. */
  predicate During(c: Action, mine: bool, pc: PC)
  {
    match c
    case CallLock(timed) =>
      if mine then pc.Relocking? else (pc.Locking? || pc.Deciding? || pc.Sleeping?) && pc.timed == timed
    case CallTryLock => if mine then pc.Relocking? else pc.Trying?
    case CallUnlock => mine && (pc.Unlocking? || pc.Waking?)
    case _ => false
  }

  lemma SideStep(s: State, u: Tid, a: Action, s': State, t: Tid, c: Action, mine: bool)
    requires Step(s, u, a, s') && t in s.pc && During(c, mine, s.pc[t])
    ensures t in s'.pc && (During(c, mine, s'.pc[t]) || s'.pc[t].Idle?)
    ensures s'.pc[t].Idle? ==> u == t
    ensures u != t ==> (s'.pc[t].Waking? <==> s.pc[t].Waking?)
    ensures !c.CallUnlock? ==> !s.pc[t].Waking? && !s'.pc[t].Waking?
    ensures u == t ==> !a.CallLock? && !a.CallTryLock? && !a.CallUnlock? && (c.CallUnlock? <==> a.Unlock? || a.Wake?)
    ensures u == t && c.CallUnlock? ==> s'.pc[t] == Idle(Ok) || (s'.pc[t].Waking? && a.Unlock?)
    ensures u == t && c.CallUnlock? ==> (a.Unlock? <==> !s.pc[t].Waking?)
    ensures u == t && mine && !c.CallUnlock? ==> a.Relock? && s'.pc[t] == Idle(Ok)
    ensures u == t && !mine && c.CallTryLock? ==> a.Try?
    ensures u == t && c.CallLock? && s'.pc[t].Idle? ==> s'.pc[t] == Idle(if a.GiveUp? then EBUSY else Ok)
    ensures u == t && c.CallLock? && a.GiveUp? ==> c.timed && !mine
    ensures u == t && c.CallLock? && s'.pc[t] == Idle(Ok) ==> a.Relock? || a.Attempt?
  {
    hide NewValue, Owner, LockState, IsNested, Errorcheck, Bits;
  }

  /** The step that begins a call. */
  lemma CallStep(s: State, t: Tid, c: Action, s': State)
    requires Inv(s) && Step(s, t, c, s') && (c.CallLock? || c.CallTryLock? || c.CallUnlock?)
    ensures var mine := Held(Abs(s), t) > 0;
      && t in s'.pc && (During(c, mine, s'.pc[t]) || s'.pc[t].Idle?) && !s'.pc[t].Waking?
      && (s'.pc[t].Idle? ==> s'.pc[t] == Idle(if c.CallUnlock? then EPERM else EDEADLK))
      && (s'.pc[t].Idle? <==> if c.CallUnlock? then !mine else mine && Errorcheck(s.kind))
  {
    hide NoLostWakeup, Nested, Contended, Unnested, Taken, Owner, Count, LockState, WordOk, AbsOf, Bits, IsNested;
    hide Errorcheck, ThreadOk;
    OwnerIs(s, t);
  }

  /** Where t is at step i of its call, and what it has locked and unlocked in it. */
  lemma {:induction false} CallSide(trace: seq<State>, ev: seq<Event>, m: nat, n: nat, t: Tid, i: nat)
    requires Run(trace, ev) && Call(trace, ev, m, n, t) && m < i <= n
    ensures t in trace[i].pc && During(ev[m].a, Balance(trace, ev, m, t) > 0, trace[i].pc[t])
    ensures Balance(trace, ev, i, t) == Balance(trace, ev, m, t) - if trace[i].pc[t].Waking? then 1 else 0
    decreases i
  {
    hide Step, Init, During, Inv, AbsOf, WithinDepth;
    assert StepAt(trace, ev, i - 1);
    if i > m + 1 {
      CallSide(trace, ev, m, n, t, i - 1);
      SideStep(trace[i - 1], ev[i - 1].t, ev[i - 1].a, trace[i], t, ev[m].a, Balance(trace, ev, m, t) > 0);
    } else {
      LocksNeedUnlocks(trace, ev, m, t);
      CallStep(trace[m], t, ev[m].a, trace[m + 1]);
    }
  }

  /** Nobody has locked the mutex more often than unlocked it. */
  ghost predicate Vacant(trace: seq<State>, ev: seq<Event>, n: nat)
    requires |trace| == |ev| + 1 && n <= |ev|
  { forall u :: Balance(trace, ev, n, u) == 0 }

  lemma VacantIsFree(trace: seq<State>, ev: seq<Event>, n: nat)
    requires Run(trace, ev) && n <= |ev|
    ensures Inv(trace[n]) && (Vacant(trace, ev, n) <==> Abs(trace[n]).owner == 0)
  {
    hide Run, Inv, AbsOf, Balance;
    RunLength(trace, ev);
    forall u ensures Balance(trace, ev, n, u) == Held(Abs(trace[n]), u) {
      LocksNeedUnlocks(trace, ev, n, u);
    }
    LocksNeedUnlocks(trace, ev, n, Id(1));
    OwnerIsThread(trace[n]);
    AbsHeld(trace[n]);
    if Abs(trace[n]).owner != 0 {
      var u: Tid := Id(Abs(trace[n]).owner);
      assert Balance(trace, ev, n, u) > 0;
    } else {
      forall u ensures Balance(trace, ev, n, u) == 0 { BitsRange(u); }
    }
  }

  lemma OwnerIsThread(s: State)
    ensures 0 <= Abs(s).owner <= 0xffff
  {
    hide LockState, Count;
    FieldBounds(s.value);
  }

  /** An attempt to take the mutex succeeds exactly when it is free; trylock returns EBUSY otherwise. */
  lemma TakesWhenFree(s: State, t: Tid, a: Action, s': State)
    requires Inv(s) && Step(s, t, a, s') && (a.Try? || a.Attempt?)
    ensures t in s'.pc && (s'.pc[t].Idle? <==> a.Try? || Abs(s).owner == 0)
    ensures s'.pc[t].Idle? ==> s'.pc[t] == Idle(if Abs(s).owner == 0 then Ok else EBUSY)
  {
    hide NoLostWakeup, Nested, Contended, Unnested, Taken, Owner, Count, WordOk, Bits, IsNested, Errorcheck, ThreadOk;
    hide LockState;
    FreeExactly(s.kind, s.value);
  }

  lemma FreeExactly(kind: bv32, v: bv32)
    requires WordOk(kind, v)
    ensures v == kind <==> AbsOf(v).owner == 0
  {
    hide Owner, Count, LockState, Kind, IsKind;
    FreeFields(kind);
  }

  /**
   * What every call of every run returns, and what it does to the balance of its thread: an unlock succeeds exactly for
   * the holder, a nested lock always unless the mutex is of errorcheck type, a trylock by another thread exactly if
   * nobody holds the mutex in its last step, and an untimed lock never gives up.
   */
  lemma Outcomes(trace: seq<State>, ev: seq<Event>, m: nat, n: nat, t: Tid)
    requires Run(trace, ev) && Call(trace, ev, m, n, t)
    ensures var ret, mine := trace[n + 1].pc[t].ret, Balance(trace, ev, m, t) > 0;
      match ev[m].a
      case CallLock(timed) =>
        && (ret == EDEADLK <==> mine && Errorcheck(trace[m].kind)) && ret != EPERM && (ret == EBUSY ==> timed && !mine)
      case CallTryLock =>
        ret == if mine then if Errorcheck(trace[m].kind) then EDEADLK else Ok
               else if Vacant(trace, ev, n) then Ok else EBUSY
      case _ => ret == if mine then Ok else EPERM
    ensures Balance(trace, ev, n + 1, t) == Balance(trace, ev, m, t) +
        if trace[n + 1].pc[t].ret != Ok then 0 else if ev[m].a.CallUnlock? then -1 else 1
  {
    hide Step, Init, During, Inv, AbsOf, WithinDepth, Errorcheck, Held, Vacant;
    var mine := Balance(trace, ev, m, t) > 0;
    LocksNeedUnlocks(trace, ev, m, t);
    assert StepAt(trace, ev, m);
    CallStep(trace[m], t, ev[m].a, trace[m + 1]);
    if m < n {
      CallSide(trace, ev, m, n, t, n);
      assert StepAt(trace, ev, n);
      var s, u, a, s' := trace[n], ev[n].t, ev[n].a, trace[n + 1];
      SideStep(s, u, a, s', t, ev[m].a, mine);
      VacantIsFree(trace, ev, n);
      if a.Try? || a.Attempt? { TakesWhenFree(s, t, a, s'); }
    }
  }

  lemma CallerIdle(s: State, t: Tid, a: Action, s': State)
    requires Step(s, t, a, s') && (a.CallLock? || a.CallTryLock? || a.CallUnlock?)
    ensures t in s.pc && s.pc[t].Idle?
  {
    hide NewValue, NewPC;
  }

  /**
   * No step of a call that fails changes the owner or the depth, though a timed lock may have marked the mutex
   * contended.
   */
  lemma FailedCallKeeps(trace: seq<State>, ev: seq<Event>, m: nat, n: nat, t: Tid, i: nat)
    requires Run(trace, ev) && Call(trace, ev, m, n, t) && trace[n + 1].pc[t].ret != Ok && m <= i <= n && ev[i].t == t
    ensures Abs(trace[i + 1]) == Abs(trace[i])
  {
    hide Step, Init, Inv, AbsOf, WithinDepth;
    LocksNeedUnlocks(trace, ev, i, t);
    assert StepAt(trace, ev, i);
    Refines(trace[i], t, ev[i].a, trace[i + 1]);
    Outcomes(trace, ev, m, n, t);
    if m < i {
      CallSide(trace, ev, m, n, t, i);
      SideStep(trace[i], t, ev[i].a, trace[i + 1], t, ev[m].a, Balance(trace, ev, m, t) > 0);
    }
    NoUnlock(trace[i], t, ev[i].a, trace[i + 1]);
  }

  lemma NoUnlock(s: State, t: Tid, a: Action, s': State)
    requires Step(s, t, a, s')
    ensures t in s.pc && (a.Unlock? ==> s.pc[t].Unlocking?)
  {
    hide NewValue, NewPC;
  }

  lemma OwnerIs(s: State, t: Tid)
    requires Inv(s)
    ensures Owner(s.value) == Bits(t) <==> Held(Abs(s), t) > 0
  {
    FreeFields(s.kind);
    BitsRange(t);
  }

  /** No thread is ever without a step, and a timed lock may give up whenever it finds the mutex held. */
  lemma CanStep(s: State, t: Tid) returns (a: Action, s': State)
    requires t in s.pc
    ensures Step(s, t, a, s')
    ensures s.pc[t].Deciding? ==> (Enabled(s, t, GiveUp) <==> s.pc[t].timed)
  {
    hide NewValue, NewPC;
    var u := t;
    if !NoSleeper(s) { u :| u in s.pc && s.pc[u].Sleeping?; }
    match s.pc[t] {
      case Idle(_) => a := CallUnlock;
      case Relocking => a := Relock;
      case Locking(_, _) => a := Attempt;
      case Trying => a := Try;
      case Deciding(_, _) => a := Wait;
      case Sleeping(_) => a := Return;
      case Unlocking => a := Unlock;
      case Waking => a := Wake(u);
    }
    var pc := s.pc[t := NewPC(s, t, a)];
    s' := s.(value := NewValue(s, t, a),
             pc := if a.Wake? && Asleep(s, a.sleeper) then pc[a.sleeper := Locking(s.pc[a.sleeper].timed, 2)] else pc);
  }

  /** A contender that waits at once, with the word as it left it, sleeps. */
  lemma ContenderSleeps(s: State, t: Tid, s1: State, s2: State)
    requires Inv(s) && Step(s, t, Attempt, s1) && s1.pc[t].Deciding? && Step(s1, t, Wait, s2)
    ensures s2.pc[t].Sleeping? && LockState(s2.value) == 2
  {
    hide NoLostWakeup, Nested, Contended, Unnested, Taken, Owner, Count, LockState, WordOk, Bits, IsNested, Errorcheck;
    assert ThreadOk(s, t);
    AttemptWord(s, t);
  }

  /** A mutex taken on the first attempt and unlocked at once is released without a wake. */
  lemma Uncontended(s: State, t: Tid, a: Action, s1: State, s2: State, s3: State)
    requires Inv(s) && t in s.pc && (s.pc[t].Trying? || (s.pc[t].Locking? && s.pc[t].st == 1))
    requires Step(s, t, a, s1) && s1.pc[t] == Idle(Ok) && Step(s1, t, CallUnlock, s2) && Step(s2, t, Unlock, s3)
    ensures s3.pc[t] == Idle(Ok) && Abs(s3) == Lock(0, 0)
  {
    hide NoLostWakeup, Nested, Contended, Unnested, Taken, Owner, Count, LockState, WordOk, Bits, IsNested, Errorcheck;
    hide AbsOf;
    assert ThreadOk(s, t);
    FreeExactly(s.kind, s.value);
    TakenAbs(t, s.kind, 1);
    NotNested(s1.value);
  }

  lemma NotNested(v: bv32)
    requires AbsOf(v).depth == 1
    ensures !IsNested(v)
  {
    hide Count, LockState, Owner;
    NoCount(v);
  }

  /** A nested lock counts exactly when the depth is below 2048; at 2048 the counter wraps. */
  lemma RelockExact(s: State, t: Tid, s': State)
    requires Inv(s) && Step(s, t, Relock, s')
    ensures Abs(s').depth == Abs(s).depth + 1 <==> Abs(s).depth < 2048
    ensures Abs(s).depth == 2048 ==> Abs(s').depth == 1
  {
    hide NoLostWakeup, Owner, Count, LockState, Nested, Bits, Kind, WordOk, AbsOf;
    assert ThreadOk(s, t);
    NestedExact(s.value);
  }

  lemma NestedExact(v: bv32)
    requires LockState(v) != 0
    ensures AbsOf(Nested(v)).depth == AbsOf(v).depth + 1 <==> AbsOf(v).depth < 2048
    ensures AbsOf(v).depth == 2048 ==> AbsOf(Nested(v)).depth == 1
  {
    hide Owner, Count, LockState, Nested;
    assert LockState(Nested(v)) == LockState(v) by { NestedFields(v); }
    NestedCount(v);
  }

  // ------------------------------ a run that reaches the limit ------------------------------

  /** The state in which t, the only thread, holds the mutex n times. */
  ghost predicate HoldsAlone(s: State, t: Tid, kind: bv32, n: nat)
  { s.kind == kind && s.pc == map[t := Idle(Ok)] && Abs(s) == Lock(Bits(t), n) }

  lemma Extend(trace: seq<State>, ev: seq<Event>, t: Tid, a: Action, s': State)
    requires Run(trace, ev) && Step(trace[|ev|], t, a, s') && WithinDepth(trace[|ev|], a)
    ensures Run(trace + [s'], ev + [Event(t, a)])
  {
    hide Step, WithinDepth, Init;
    var trace', ev' := trace + [s'], ev + [Event(t, a)];
    forall i | 0 <= i < |ev'| ensures StepAt(trace', ev', i) {
      if i < |ev| { assert StepAt(trace, ev, i); }
    }
  }

  /** A call to lock by the thread that holds a recursive mutex. */
  lemma CallsAgain(s: State, t: Tid, n: nat) returns (s': State)
    requires Inv(s) && HoldsAlone(s, t, s.kind, n) && n > 0 && !Errorcheck(s.kind)
    ensures Step(s, t, CallLock(false), s') && s' == s.(pc := map[t := Relocking])
  {
    hide NoLostWakeup, WordOk, Errorcheck, Nested, Unnested, Contended, Taken, LockState, Count, Owner, IsNested, Bits;
    assert s.pc[t := Relocking] == map[t := Relocking];
    s' := s.(pc := map[t := Relocking]);
  }

  lemma CountsUp(s: State, t: Tid) returns (s': State)
    requires s.pc == map[t := Relocking]
    ensures Step(s, t, Relock, s') && s' == s.(value := Nested(s.value), pc := map[t := Idle(Ok)])
  {
    hide Nested;
    assert s.pc[t := Idle(Ok)] == map[t := Idle(Ok)];
    s' := s.(value := Nested(s.value), pc := map[t := Idle(Ok)]);
  }

  /** The first lock. */
  lemma LocksOnce(t: Tid, kind: bv32) returns (trace: seq<State>, ev: seq<Event>)
    requires IsKind(kind)
    ensures Run(trace, ev) && HoldsAlone(trace[|ev|], t, kind, 1)
  {
    hide Nested, Unnested, Contended, Taken, LockState, Count, Owner, IsNested, Bits, AbsOf, IsKind;
    var s0 := State(kind, kind, map[t := Idle(Ok)]);
    var s1 := s0.(pc := map[t := Locking(false, 1)]);
    var s2 := State(kind, Taken(Bits(t), kind, 1), map[t := Idle(Ok)]);
    FreeFields(kind);
    BitsRange(t);
    FirstLock(t, kind);
    assert s0.pc[t := Locking(false, 1)] == s1.pc && s1.pc[t := Idle(Ok)] == s2.pc;
    trace, ev := [s0], [];
    assert Step(s0, t, CallLock(false), s1);
    Extend(trace, ev, t, CallLock(false), s1);
    trace, ev := trace + [s1], ev + [Event(t, CallLock(false))];
    assert Step(s1, t, Attempt, s2);
    Extend(trace, ev, t, Attempt, s2);
    trace, ev := trace + [s2], ev + [Event(t, Attempt)];
  }

  lemma FirstLock(t: Tid, kind: bv32)
    requires IsKind(kind)
    ensures AbsOf(Taken(Bits(t), kind, 1)) == Lock(Bits(t), 1)
  {
    hide Taken, Owner, Count, LockState, IsKind, Bits;
    BitsRange(t);
    TakenFields(Bits(t), kind, 1);
  }

  /** For every n up to 2048 some run reaches depth n. */
  lemma {:induction false} ReachesDepth(t: Tid, kind: bv32, n: nat) returns (trace: seq<State>, ev: seq<Event>)
    requires IsKind(kind) && !Errorcheck(kind) && 1 <= n <= 2048
    ensures Run(trace, ev) && HoldsAlone(trace[|ev|], t, kind, n)
  {
    hide Step, Inv, AbsOf, Nested, Run, IsKind, Errorcheck, WithinDepth, Count, LockState;
    if n == 1 {
      trace, ev := LocksOnce(t, kind);
    } else {
      trace, ev := ReachesDepth(t, kind, n - 1);
      RunLength(trace, ev);
      LocksNeedUnlocks(trace, ev, |ev|, t);
      var s := trace[|ev|];
      var s1 := CallsAgain(s, t, n - 1);
      NotDeep(s, s1, n - 1);
      Extend(trace, ev, t, CallLock(false), s1);
      trace, ev := trace + [s1], ev + [Event(t, CallLock(false))];
      var s2 := CountsUp(s1, t);
      OneDeeper(s, n - 1);
      Extend(trace, ev, t, Relock, s2);
      trace, ev := trace + [s2], ev + [Event(t, Relock)];
    }
  }

  lemma RunLength(trace: seq<State>, ev: seq<Event>)
    requires Run(trace, ev)
    ensures |trace| == |ev| + 1
  {}

  lemma NotDeep(s: State, s1: State, n: nat)
    requires Abs(s).depth == n && 0 < n < 2048 && s1.value == s.value
    ensures WithinDepth(s, CallLock(false)) && WithinDepth(s1, Relock)
  {
    hide AbsOf, Count;
    CountLow(s.value, n);
  }

  lemma CountLow(v: bv32, n: nat)
    requires AbsOf(v).depth == n && 0 < n < 2048
    ensures Count(v) < 0x7ff && LockState(v) != 0
  {
    hide Count, LockState, Owner;
    SmallCount(Count(v), n - 1);
  }

  lemma SmallCount(c: bv32, n: int)
    requires c as int == n < 2047
    ensures c < 0x7ff
  {}

  lemma OneDeeper(s: State, n: nat)
    requires Inv(s) && Abs(s).depth == n && 0 < n < 2048
    ensures AbsOf(Nested(s.value)) == Lock(Abs(s).owner, n + 1)
  {
    hide Count, Nested, AbsOf, WordOk, LockState, NoLostWakeup, ThreadOk;
    CountLow(s.value, n);
    NestedAbs(s.kind, s.value);
  }

  /**
   * So the limit is met: some run holds the mutex 2048 times, and its next nested lock leaves depth 1 after 2049 locks.
   */
  lemma WrapReached(t: Tid, kind: bv32) returns (trace: seq<State>, ev: seq<Event>, s': State)
    requires IsKind(kind) && !Errorcheck(kind)
    ensures Run(trace, ev) && Step(trace[|ev|], t, Relock, s')
    ensures Balance(trace, ev, |ev|, t) == 2048 && Locks(t, Relock, s') && Abs(s') == Lock(Bits(t), 1)
  {
    hide Step, Inv, AbsOf, Nested, Run, IsKind, Errorcheck, WithinDepth, Count, LockState, Owner;
    trace, ev := ReachesDepth(t, kind, 2048);
    RunLength(trace, ev);
    LocksNeedUnlocks(trace, ev, |ev|, t);
    var s := trace[|ev|];
    var s1 := CallsAgain(s, t, 2048);
    CallWithin(s);
    Extend(trace, ev, t, CallLock(false), s1);
    trace, ev := trace + [s1], ev + [Event(t, CallLock(false))];
    LocksNeedUnlocks(trace, ev, |ev|, t);
    s' := CountsUp(s1, t);
    RelockExact(s1, t, s');
    NestedOwner(s.value);
  }

  lemma CallWithin(s: State)
    ensures WithinDepth(s, CallLock(false))
  {}

  lemma NestedOwner(v: bv32)
    requires AbsOf(v).depth > 0
    ensures AbsOf(Nested(v)).owner == AbsOf(v).owner
  {
    hide LockState, Count, Owner, Nested;
    NestedFields(v);
  }
}
