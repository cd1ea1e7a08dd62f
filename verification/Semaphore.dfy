/** sem_wait, sem_timedwait, sem_trywait and sem_post as atomic steps of any number of threads. */
module Semaphore {

  const INT_MAX: nat := 0x7fff_ffff

  type Thread = int

  datatype Call = Wait | TimedWait | TryWait

  datatype PC =
    | Idle
    | Loading(call: Call)               // __atomic_dec_if_positive, about to read the count
    | Swapping(call: Call, seen: nat)   // about to swap seen for seen - 1
    | Deciding(call: Call)              // the count was 0; about to give up or to wait
    | Sleeping(call: Call)
    | Waking                            // has posted; about to wake one sleeper

  datatype State = State(count: nat, pc: map<Thread, PC>)

  datatype Action =
    | Begin(call: Call) | Load | Swap | GiveUp | Block | Return(interrupted: bool) | Post | Wake(sleeper: Thread)

  predicate Asleep(s: State, t: Thread) { t in s.pc && s.pc[t].Sleeping? }

  ghost predicate NoSleeper(s: State) { forall t :: t in s.pc ==> !s.pc[t].Sleeping? }

  predicate Enabled(s: State, t: Thread, a: Action)
    requires t in s.pc
  {
    match s.pc[t]
    case Idle => a.Begin? || a.Post?
    case Loading(_) => a.Load?
    case Swapping(_, _) => a.Swap?
    case Deciding(call) => a.Block? || (a.GiveUp? && call.TimedWait?)
    case Sleeping(_) => a.Return?
    case Waking => a.Wake?
  }

  function NewPC(s: State, t: Thread, a: Action): PC
    requires t in s.pc && Enabled(s, t, a)
  {
    match s.pc[t]
    case Idle => if a.Begin? then Loading(a.call) else if s.count <= INT_MAX then Waking else Idle
    case Loading(call) =>
      if s.count != 0 then Swapping(call, s.count) else if call.TryWait? then Idle else Deciding(call)
    case Swapping(call, seen) => if s.count == seen then Idle else Loading(call)
    case Deciding(call) => if a.GiveUp? then Idle else if s.count == 0 then Sleeping(call) else Loading(call)
    case Sleeping(call) => if call.TimedWait? && a.interrupted then Idle else Loading(call)
    case Waking => Idle
  }

  /** The step takes one from the count. */
  predicate Takes(s: State, t: Thread, a: Action)
  { a.Swap? && t in s.pc && s.pc[t].Swapping? && s.count == s.pc[t].seen && s.count > 0 }

  /** One atomic step of thread t; a futex wake takes one sleeper out of the queue if there is one. */
  ghost predicate Step(s: State, t: Thread, a: Action, s': State)
  {
    && t in s.pc && Enabled(s, t, a) && (a.Post? ==> s.count < INT_MAX)
    && (a.Wake? ==> Asleep(s, a.sleeper) || NoSleeper(s))
    && s'.count == (if a.Post? then s.count + 1 else if Takes(s, t, a) then s.count - 1 else s.count)
    && var pc := s.pc[t := NewPC(s, t, a)];
       s'.pc == if a.Wake? && Asleep(s, a.sleeper) then pc[a.sleeper := Loading(s.pc[a.sleeper].call)] else pc
  }

  /** t will wake a sleeper, or is awake and will look at the count again. */
  predicate Active(s: State, t: Thread) { t in s.pc && (s.pc[t].Waking? || s.pc[t].Loading? || s.pc[t].Swapping?) }

  ghost function Actives(s: State): set<Thread> { set t | t in s.pc && Active(s, t) }

  ghost predicate ThreadOk(s: State, t: Thread)
    requires t in s.pc
  { s.pc[t].Swapping? ==> s.pc[t].seen > 0 }

  ghost predicate Inv(s: State)
  {
    && s.count <= INT_MAX
    && (NoSleeper(s) || s.count <= |Actives(s)|)
    && forall t :: t in s.pc ==> ThreadOk(s, t)
  }

  lemma OthersKeep(s: State, t: Thread, a: Action, s': State, u: Thread)
    requires Step(s, t, a, s') && u != t && (a.Wake? ==> u != a.sleeper)
    ensures u in s'.pc <==> u in s.pc
    ensures u in s.pc ==> s'.pc[u] == s.pc[u]
  {
    hide NewPC;
  }

  /** A step by t that wakes nobody changes at most t's own standing. */
  lemma ActivesChange(s: State, t: Thread, a: Action, s': State)
    requires Step(s, t, a, s') && !(a.Wake? && Asleep(s, a.sleeper))
    ensures Actives(s') == if Active(s', t) then Actives(s) + {t} else Actives(s) - {t}
  {
    hide Step;
    forall u | u != t ensures Active(s', u) <==> Active(s, u) { StepKeeps(s, t, a, s', u); }
  }

  lemma StepKeeps(s: State, t: Thread, a: Action, s': State, u: Thread)
    requires Step(s, t, a, s') && !(a.Wake? && Asleep(s, a.sleeper)) && u != t
    ensures u in s'.pc <==> u in s.pc
    ensures u in s.pc ==> s'.pc[u] == s.pc[u]
  {
    hide NewPC;
  }

  /** The waker goes, the woken sleeper comes. */
  lemma ActivesWake(s: State, t: Thread, a: Action, s': State)
    requires Step(s, t, a, s') && a.Wake? && Asleep(s, a.sleeper)
    ensures |Actives(s')| == |Actives(s)|
  {
    var u := a.sleeper;
    forall w | w != t && w != u ensures Active(s', w) <==> Active(s, w) { OthersKeep(s, t, a, s', w); }
    assert Active(s, t) && !Active(s, u) && !Active(s', t) && Active(s', u);
    assert Actives(s') == Actives(s) - {t} + {u};
  }

  lemma PostCounted(s: State, t: Thread, a: Action, s': State)
    requires Inv(s) && Step(s, t, a, s') && !(a.Wake? && Asleep(s, a.sleeper))
    ensures NoSleeper(s') || s'.count <= |Actives(s')|
  {
    ActivesChange(s, t, a, s');
    if s'.count > 0 && !NoSleeper(s') {
      if NoSleeper(s) {
        forall u | u in s'.pc ensures !s'.pc[u].Sleeping? { if u != t { StepKeeps(s, t, a, s', u); } }
      }
      assert t in Actives(s) <==> Active(s, t);
    }
  }

  lemma InvKept(s: State, t: Thread, a: Action, s': State)
    requires Inv(s) && Step(s, t, a, s')
    ensures Inv(s')
  {
    if a.Wake? && Asleep(s, a.sleeper) { ActivesWake(s, t, a, s'); } else { PostCounted(s, t, a, s'); }
    forall u | u in s'.pc ensures ThreadOk(s', u) {
      if u != t && !(a.Wake? && u == a.sleeper) { OthersKeep(s, t, a, s', u); assert ThreadOk(s, u); }
    }
  }

  ghost predicate Init(s: State)
  { s.count <= INT_MAX && forall t :: t in s.pc ==> s.pc[t].Idle? }

  datatype Event = Event(t: Thread, a: Action)

  ghost predicate Run(trace: seq<State>, ev: seq<Event>)
  {
    && |trace| == |ev| + 1 && Init(trace[0])
    && forall i :: 0 <= i < |ev| ==> Step(trace[i], ev[i].t, ev[i].a, trace[i + 1])
  }

  /** In every state of every run the posts not yet taken are covered by threads that will look again. */
  lemma {:induction false} NoPostMissed(trace: seq<State>, ev: seq<Event>, n: nat)
    requires Run(trace, ev) && n <= |ev|
    ensures Inv(trace[n])
  {
    if n == 0 {
      assert NoSleeper(trace[0]);
    } else {
      NoPostMissed(trace, ev, n - 1);
      assert Step(trace[n - 1], ev[n - 1].t, ev[n - 1].a, trace[n]);
      InvKept(trace[n - 1], ev[n - 1].t, ev[n - 1].a, trace[n]);
    }
  }

  /** If every thread is idle or asleep and one sleeps, there is nothing to take. */
  lemma NothingStranded(trace: seq<State>, ev: seq<Event>)
    requires Run(trace, ev)
    requires var s := trace[|ev|]; forall t :: t in s.pc ==> s.pc[t].Idle? || s.pc[t].Sleeping?
    ensures NoSleeper(trace[|ev|]) || trace[|ev|].count == 0
  {
    NoPostMissed(trace, ev, |ev|);
    assert Actives(trace[|ev|]) == {};
  }

  /** The successful waits in the first n steps. */
  ghost function Taken(trace: seq<State>, ev: seq<Event>, n: nat): nat
    requires |trace| == |ev| + 1 && n <= |ev|
  { if n == 0 then 0 else Taken(trace, ev, n - 1) + if Takes(trace[n - 1], ev[n - 1].t, ev[n - 1].a) then 1 else 0 }

  ghost function Posted(ev: seq<Event>, n: nat): nat
    requires n <= |ev|
  { if n == 0 then 0 else Posted(ev, n - 1) + if ev[n - 1].a.Post? then 1 else 0 }

  /** What was there and was posted is what is there and was taken. */
  lemma {:induction false} Conservation(trace: seq<State>, ev: seq<Event>, n: nat)
    requires Run(trace, ev) && n <= |ev|
    ensures trace[0].count + Posted(ev, n) == trace[n].count + Taken(trace, ev, n)
  {
    if n > 0 {
      Conservation(trace, ev, n - 1);
      assert Step(trace[n - 1], ev[n - 1].t, ev[n - 1].a, trace[n]);
    }
  }

  /** A wait returns with success exactly when it has taken one from the count. */
  lemma SuccessTakes(trace: seq<State>, ev: seq<Event>, n: nat)
    requires Run(trace, ev) && n < |ev|
    ensures var t := ev[n].t;
            Takes(trace[n], t, ev[n].a) <==>
                t in trace[n].pc && trace[n].pc[t].Swapping? && t in trace[n + 1].pc && trace[n + 1].pc[t].Idle?
  {
    NoPostMissed(trace, ev, n);
    assert Step(trace[n], ev[n].t, ev[n].a, trace[n + 1]);
    assert ev[n].t in trace[n].pc ==> ThreadOk(trace[n], ev[n].t);
  }

  /** A wait that is not disturbed between its read and its swap takes one as soon as there is one. */
  lemma UndisturbedTakes(s: State, t: Thread, s1: State, s2: State)
    requires Step(s, t, Load, s1) && s.count > 0 && Step(s1, t, Swap, s2)
    ensures s2.pc[t].Idle? && s2.count == s.count - 1
  {}

  /** One that finds nothing and is not disturbed before it blocks sleeps. */
  lemma UndisturbedSleeps(s: State, t: Thread, s1: State, s2: State)
    requires Step(s, t, Load, s1) && s.count == 0 && Step(s1, t, Block, s2)
    ensures s2.pc[t].Sleeping? && s2.count == 0
  {}

  /** No thread is ever without a step, and a wait with a time limit may give up whenever it finds the count 0. */
  lemma CanStep(s: State, t: Thread) returns (a: Action, s': State)
    requires t in s.pc
    ensures Step(s, t, a, s')
    ensures s.pc[t].Deciding? ==> (Enabled(s, t, GiveUp) <==> s.pc[t].call.TimedWait?)
  {
    var u := t;
    if !NoSleeper(s) { u :| u in s.pc && s.pc[u].Sleeping?; }
    match s.pc[t] {
      case Idle => a := Begin(Wait);
      case Loading(_) => a := Load;
      case Swapping(_, _) => a := Swap;
      case Deciding(_) => a := Block;
      case Sleeping(_) => a := Return(false);
      case Waking => a := Wake(u);
    }
    var pc := s.pc[t := NewPC(s, t, a)];
    s' := State(if Takes(s, t, a) then s.count - 1 else s.count,
                if a.Wake? && Asleep(s, a.sleeper) then pc[a.sleeper := Loading(s.pc[a.sleeper].call)] else pc);
  }

  // ------------------------------ what the calls return ------------------------------

  /** A wait of t from step m to step n: it begins at m, returns at n, and t is inside in between. */
  ghost predicate Waits(trace: seq<State>, ev: seq<Event>, m: nat, n: nat, t: Thread)
    requires |trace| == |ev| + 1
  {
    && m < n < |ev| && ev[m].t == t && ev[m].a.Begin? && t in trace[n + 1].pc && trace[n + 1].pc[t].Idle?
    && forall i :: m < i <= n ==> t in trace[i].pc && !trace[i].pc[t].Idle?
  }

  /** Where the thread of a call can be. */
  predicate During(call: Call, pc: PC)
  {
    || ((pc.Loading? || pc.Swapping?) && pc.call == call)
    || (!call.TryWait? && (pc.Deciding? || pc.Sleeping?) && pc.call == call)
  }

  lemma {:induction false} CallSide(trace: seq<State>, ev: seq<Event>, m: nat, n: nat, t: Thread, i: nat)
    requires Run(trace, ev) && Waits(trace, ev, m, n, t) && m < i <= n
    ensures t in trace[i].pc && During(ev[m].a.call, trace[i].pc[t])
    decreases i
  {
    assert Step(trace[i - 1], ev[i - 1].t, ev[i - 1].a, trace[i]);
    if i > m + 1 { CallSide(trace, ev, m, n, t, i - 1); }
  }

  /**
   * What every wait of every run comes to: it takes nothing before its last step; sem_wait always takes one there,
   * sem_trywait fails only if it finds the count 0, and sem_timedwait only if its time is up or it is interrupted.
   */
  lemma Outcomes(trace: seq<State>, ev: seq<Event>, m: nat, n: nat, t: Thread)
    requires Run(trace, ev) && Waits(trace, ev, m, n, t)
    ensures forall i :: m <= i < n && ev[i].t == t ==> !Takes(trace[i], t, ev[i].a)
    ensures ev[n].t == t
    ensures !Takes(trace[n], t, ev[n].a) ==>
        match ev[m].a.call
        case Wait => false
        case TryWait => trace[n].count == 0
        case TimedWait => ev[n].a == GiveUp || ev[n].a == Return(true)
  {
    forall i | m <= i < n && ev[i].t == t ensures !Takes(trace[i], t, ev[i].a) {
      assert Step(trace[i], ev[i].t, ev[i].a, trace[i + 1]);
    }
    CallSide(trace, ev, m, n, t, n);
    SuccessTakes(trace, ev, n);
    assert Step(trace[n], ev[n].t, ev[n].a, trace[n + 1]);
  }
}
