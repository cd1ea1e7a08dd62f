/**
 * _normal_lock, _normal_unlock and the normal cases of pthread_mutex_trylock and
 * pthread_mutex_lock_timeout_np, as atomic steps of any number of threads.
 */
module NormalMutex {

  type Thread = int

  /** Where a thread is in its call; timed calls may give up. */
  datatype PC =
    | Idle                     // outside, not holding the mutex
    | Holding                  // outside, holding the mutex
    | Swapping(timed: bool)    // about to swap in 2
    | Deciding(timed: bool)    // the swap found the mutex held; about to give up or to wait
    | Sleeping(timed: bool)    // asleep in the futex
    | Releasing                // has decremented 2 to 1; about to store 0
    | Waking                   // has stored 0; about to wake one sleeper

  /** The mutex word is the shared flag plus the lock state 0, 1 or 2. */
  datatype State = State(shared: nat, value: int, pc: map<Thread, PC>)

  datatype Action =
    | Lock(timed: bool)        // the compare-and-swap of 0 to 1 that starts a lock
    | TryLock
    | Swap
    | GiveUp                   // a timed call returns EBUSY
    | Wait                     // the futex compares the value with 2 and sleeps
    | Return                   // timeout, signal or spurious return of the futex
    | Decrement                // the atomic decrement that starts an unlock
    | Store
    | Wake(sleeper: Thread)    // the futex wakes a sleeper, if there is one

  predicate Asleep(s: State, t: Thread) { t in s.pc && s.pc[t].Sleeping? }

  ghost predicate NoSleeper(s: State) { forall u :: u in s.pc ==> !s.pc[u].Sleeping? }

  function To(s: State, value: int, t: Thread, pc: PC): State { s.(value := value, pc := s.pc[t := pc]) }

  /** One atomic step of thread t. */
  ghost predicate Step(s: State, t: Thread, a: Action, s': State)
  {
    t in s.pc &&
    match a
    case Lock(timed) =>
      && s.pc[t].Idle?
      && s' == if s.value == s.shared then To(s, s.shared + 1, t, Holding) else To(s, s.value, t, Swapping(timed))
    case TryLock =>
      && s.pc[t].Idle?
      && s' == if s.value == s.shared then To(s, s.shared + 1, t, Holding) else s
    case Swap =>
      && s.pc[t].Swapping?
      && s' == To(s, s.shared + 2, t, if s.value == s.shared then Holding else Deciding(s.pc[t].timed))
    case GiveUp =>
      && s.pc[t] == Deciding(true)
      && s' == To(s, s.value, t, Idle)
    case Wait =>
      && s.pc[t].Deciding?
      && s' == To(s, s.value, t, if s.value == s.shared + 2 then Sleeping(s.pc[t].timed) else Swapping(s.pc[t].timed))
    case Return =>
      && s.pc[t].Sleeping?
      && s' == To(s, s.value, t, Swapping(s.pc[t].timed))
    case Decrement =>
      && s.pc[t].Holding?
      && s' == To(s, s.value - 1, t, if s.value == s.shared + 1 then Idle else Releasing)
    case Store =>
      && s.pc[t].Releasing?
      && s' == To(s, s.shared, t, Waking)
    case Wake(u) =>
      && s.pc[t].Waking?
      && if Asleep(s, u) then s' == To(To(s, s.value, t, Idle), s.value, u, Swapping(s.pc[u].timed))
         else NoSleeper(s) && s' == To(s, s.value, t, Idle)
  }

  predicate Owns(s: State, t: Thread) { t in s.pc && (s.pc[t].Holding? || s.pc[t].Releasing?) }

  /** t will swap in 2, or will wake a sleeper before it returns. */
  predicate Helps(s: State, t: Thread) { t in s.pc && (s.pc[t].Swapping? || s.pc[t].Releasing? || s.pc[t].Waking?) }

  /** Whenever a thread sleeps, the state is 2 or some thread will see to it. */
  ghost predicate NoLostWakeup(s: State)
  { NoSleeper(s) || s.value == s.shared + 2 || exists u :: Helps(s, u) }

  ghost predicate Exclusive(s: State) { forall t, u :: Owns(s, t) && Owns(s, u) ==> t == u }

  ghost predicate Inv(s: State)
  {
    && s.shared <= s.value <= s.shared + 2
    && Exclusive(s)
    && (s.value == s.shared <==> forall t :: !Owns(s, t))
    && NoLostWakeup(s)
  }

  ghost predicate Init(s: State)
  { s.value == s.shared && forall t :: t in s.pc ==> s.pc[t].Idle? }

  datatype Event = Event(t: Thread, a: Action)

  /** A run: any number of threads, any interleaving. */
  ghost predicate Run(trace: seq<State>, ev: seq<Event>)
  {
    && |trace| == |ev| + 1 && Init(trace[0])
    && forall i :: 0 <= i < |ev| ==> Step(trace[i], ev[i].t, ev[i].a, trace[i + 1])
  }

  /** Which threads change their standing in a step. */
  lemma OthersKeep(s: State, t: Thread, a: Action, s': State, u: Thread)
    requires Step(s, t, a, s') && u != t && (a.Wake? ==> u != a.sleeper)
    ensures u in s'.pc <==> u in s.pc
    ensures u in s.pc ==> s'.pc[u] == s.pc[u]
  {}

  lemma ExclusiveKept(s: State, t: Thread, a: Action, s': State)
    requires Inv(s) && Step(s, t, a, s')
    ensures Exclusive(s') && s.shared == s'.shared <= s'.value <= s'.shared + 2
    ensures s'.value == s'.shared <==> forall u :: !Owns(s', u)
  {
    hide NoLostWakeup;
    forall u | u != t ensures Owns(s', u) <==> Owns(s, u) {
      if !(a.Wake? && u == a.sleeper) { OthersKeep(s, t, a, s', u); }
    }
    assert Owns(s, t) ==> s.value != s.shared;
    if Owns(s', t) {
      assert Owns(s, t) || s.value == s.shared;
      assert forall u :: u != t ==> !Owns(s', u);
    } else if Owns(s, t) {
      assert forall u :: u != t ==> !Owns(s', u);
      assert s'.value == s'.shared;
    } else {
      assert s'.value == s.value || (s.value != s.shared && s'.value != s'.shared);
      assert forall u :: Owns(s', u) <==> Owns(s, u);
    }
  }

  lemma WakeupKept(s: State, t: Thread, a: Action, s': State)
    requires Inv(s) && Step(s, t, a, s')
    ensures NoLostWakeup(s')
  {
    if !NoSleeper(s') && s'.value != s'.shared + 2 {
      if a.Wake? && Asleep(s, a.sleeper) {
        assert Helps(s', a.sleeper);
      } else if Helps(s', t) {
      } else if NoSleeper(s) {
        assert false;
      } else if s.value == s.shared + 2 {
        assert a.Decrement?;
        assert Helps(s', t);
      } else {
        var u :| Helps(s, u);
        assert u != t;
        OthersKeep(s, t, a, s', u);
        assert Helps(s', u);
      }
    }
  }

  /** In every state of every run at most one thread owns the mutex, and no wakeup is lost. */
  lemma {:induction false} Safety(trace: seq<State>, ev: seq<Event>, n: nat)
    requires Run(trace, ev) && n <= |ev|
    ensures Inv(trace[n])
  {
    if n == 0 {
      assert NoSleeper(trace[0]);
    } else {
      Safety(trace, ev, n - 1);
      assert Step(trace[n - 1], ev[n - 1].t, ev[n - 1].a, trace[n]);
      ExclusiveKept(trace[n - 1], ev[n - 1].t, ev[n - 1].a, trace[n]);
      WakeupKept(trace[n - 1], ev[n - 1].t, ev[n - 1].a, trace[n]);
    }
  }

  /** No orphan: once every call has returned and nobody holds the mutex, nobody sleeps on it. */
  lemma NobodyOrphaned(trace: seq<State>, ev: seq<Event>)
    requires Run(trace, ev)
    requires var s := trace[|ev|]; forall t :: t in s.pc ==> s.pc[t].Idle? || s.pc[t].Sleeping?
    ensures NoSleeper(trace[|ev|])
  {
    Safety(trace, ev, |ev|);
  }

  /** While a holder is the only thread not asleep or idle, its unlock will go through the wake. */
  lemma HolderWakes(trace: seq<State>, ev: seq<Event>, h: Thread, s': State)
    requires Run(trace, ev)
    requires var s := trace[|ev|];
             && h in s.pc && s.pc[h].Holding? && !NoSleeper(s)
             && (forall t :: t in s.pc && t != h ==> s.pc[t].Idle? || s.pc[t].Sleeping?)
             && Step(s, h, Decrement, s')
    ensures s'.pc[h].Releasing?
  {
    Safety(trace, ev, |ev|);
  }

  /** No thread is ever without a step, and a timed lock may give up whenever it finds the mutex held. */
  lemma CanStep(s: State, t: Thread) returns (a: Action, s': State)
    requires t in s.pc
    ensures Step(s, t, a, s')
    ensures s.pc[t] == Deciding(true) ==> Step(s, t, GiveUp, To(s, s.value, t, Idle))
  {
    match s.pc[t] {
      case Idle =>
        a, s' := TryLock, if s.value == s.shared then To(s, s.shared + 1, t, Holding) else s;
      case Holding =>
        a, s' := Decrement, To(s, s.value - 1, t, if s.value == s.shared + 1 then Idle else Releasing);
      case Swapping(timed) =>
        a, s' := Swap, To(s, s.shared + 2, t, if s.value == s.shared then Holding else Deciding(timed));
      case Deciding(timed) =>
        a, s' := Wait, To(s, s.value, t, if s.value == s.shared + 2 then Sleeping(timed) else Swapping(timed));
      case Sleeping(timed) => a, s' := Return, To(s, s.value, t, Swapping(timed));
      case Releasing => a, s' := Store, To(s, s.shared, t, Waking);
      case Waking =>
        if NoSleeper(s) {
          a, s' := Wake(t), To(s, s.value, t, Idle);
        } else {
          var u :| u in s.pc && s.pc[u].Sleeping?;
          a, s' := Wake(u), To(To(s, s.value, t, Idle), s.value, u, Swapping(s.pc[u].timed));
        }
    }
  }

  /** A mutex taken on the first attempt and unlocked at once is released without a wake. */
  lemma Uncontended(s: State, t: Thread, a: Action, s1: State, s2: State)
    requires Step(s, t, a, s1) && (a.Lock? || a.TryLock?) && s1.pc[t].Holding? && Step(s1, t, Decrement, s2)
    ensures s2.pc[t].Idle? && s2.value == s2.shared
  {}

  /** A contender that waits at once sleeps. */
  lemma ContenderSleeps(s: State, t: Thread, s1: State, s2: State)
    requires Step(s, t, Swap, s1) && s1.pc[t].Deciding? && Step(s1, t, Wait, s2)
    ensures s2.pc[t].Sleeping?
  {}

  // ------------------------------ what the calls return ------------------------------

  /** Outside a call. */
  predicate Outside(pc: PC) { pc.Idle? || pc.Holding? }

  /** A call of t from step m to step n: it begins at m, returns at n, and t is inside in between. */
  ghost predicate Call(trace: seq<State>, ev: seq<Event>, m: nat, n: nat, t: Thread)
    requires |trace| == |ev| + 1
  {
    && m <= n < |ev| && ev[m].t == t && (ev[m].a.Lock? || ev[m].a.TryLock? || ev[m].a.Decrement?)
    && t in trace[n + 1].pc && Outside(trace[n + 1].pc[t])
    && forall i :: m < i <= n ==> t in trace[i].pc && !Outside(trace[i].pc[t])
  }

  /** Where the thread of a call c can be. */
  predicate During(c: Action, pc: PC)
  {
    match c
    case Lock(timed) => (pc.Swapping? || pc.Deciding? || pc.Sleeping?) && pc.timed == timed
    case Decrement => pc.Releasing? || pc.Waking?
    case _ => false
  }

  lemma {:induction false} CallSide(trace: seq<State>, ev: seq<Event>, m: nat, n: nat, t: Thread, i: nat)
    requires Run(trace, ev) && Call(trace, ev, m, n, t) && m < i <= n
    ensures t in trace[i].pc && During(ev[m].a, trace[i].pc[t])
    decreases i
  {
    assert Step(trace[i - 1], ev[i - 1].t, ev[i - 1].a, trace[i]);
    if i > m + 1 { CallSide(trace, ev, m, n, t, i - 1); }
  }

  /** The steps that may take the mutex take it exactly if nobody owns it. */
  lemma TakesWhenFree(trace: seq<State>, ev: seq<Event>, n: nat)
    requires Run(trace, ev) && n < |ev| && (ev[n].a.Lock? || ev[n].a.TryLock? || ev[n].a.Swap?)
    ensures var t := ev[n].t;
      t in trace[n + 1].pc && (trace[n + 1].pc[t].Holding? <==> forall u :: !Owns(trace[n], u))
  {
    Safety(trace, ev, n);
    assert Step(trace[n], ev[n].t, ev[n].a, trace[n + 1]);
  }

  /**
   * What every call of every run comes to: trylock returns at once, with the mutex exactly if nobody owned it; a lock
   * without a time limit returns with the mutex; one that returns with it took it in its last step, when nobody owned
   * it; and an unlock gives it up.
   */
  lemma Outcomes(trace: seq<State>, ev: seq<Event>, m: nat, n: nat, t: Thread)
    requires Run(trace, ev) && Call(trace, ev, m, n, t)
    ensures var free, got := forall u :: !Owns(trace[n], u), trace[n + 1].pc[t].Holding?;
      match ev[m].a
      case TryLock => m == n && (got <==> free)
      case Lock(timed) => (got ==> free && Owns(trace[n + 1], t)) && (!timed ==> got)
      case _ => !got && (forall u :: u != t ==> !Owns(trace[m], u)) && !Owns(trace[n + 1], t)
  {
    Safety(trace, ev, m);
    Safety(trace, ev, n);
    assert Step(trace[m], ev[m].t, ev[m].a, trace[m + 1]);
    assert Step(trace[n], ev[n].t, ev[n].a, trace[n + 1]);
    if m < n { CallSide(trace, ev, m, n, t, n); }
    if ev[n].a.Lock? || ev[n].a.TryLock? || ev[n].a.Swap? { TakesWhenFree(trace, ev, n); }
    if ev[m].a.Decrement? { assert Owns(trace[m], t); }
  }
}
