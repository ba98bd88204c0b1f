/** LightweightSemaphore (src/90s/lib/lightweightsemaphore.h, lines 268-424): a counter that may go
    negative, in front of a kernel semaphore. One atomic operation a step, any number of threads. */
module Semaphore {

  /** timeout_usecs: negative, zero or positive. */
  datatype Timeout = Forever | Never | Finite

  /** What follows a tryWaitMany: nothing more to do (tryWait, tryWaitMany, or the greedy end of
      waitMany), or waiting for the first of `max` permits. */
  datatype After = Return | ThenWait(timeout: Timeout)

  /** wait is waitMany(1), and tryWait is tryWaitMany(1): for max == 1 their swaps are the same. */
  datatype Pc =
    | Idle
    | TryLoad(max: nat, after: After)
    | TrySwap(max: nat, seen: int, after: After)
    | SpinLoad(max: nat, timeout: Timeout, spins: nat)
    | SpinSwap(max: nat, timeout: Timeout, spins: nat, seen: int)
    | Register(max: nat, timeout: Timeout)
    | Block(max: nat, timeout: Timeout)
    | RetractLoad(max: nat)
    | RetractTake(max: nat)
    | RetractSwap(max: nat, seen: int)
    | Post(left: nat)

  /** m_count and m_sema's value; `signalled` and `acquired` count permits over the whole run. */
  datatype Shared = Shared(count: int, tokens: nat, signalled: nat, acquired: nat)

  datatype State = State(shared: Shared, pcs: seq<Pc>, initial: nat)

  /** What the kernel, the timer and a spuriously failing weak swap decide. */
  datatype Chance = Lucky | Unlucky

  function Min(a: int, b: int): int {
    if a < b then a else b
  }

  function TakenFrom(seen: int, max: nat): nat {
    if seen <= 0 then 0 else if seen > max then max else seen
  }

  /** After the first permit, waitMany greedily tries for the rest. */
  function GotFirst(max: nat): Pc {
    if max > 1 then TryLoad(max - 1, Return) else Idle
  }

  function GotNone(max: nat, after: After, spins: nat): Pc {
    match after
    case Return => Idle
    case ThenWait(timeout) => if max == 0 then Idle else Spin(max, timeout, spins)
  }

  /** `while (--spin >= 0)` */
  function Spin(max: nat, timeout: Timeout, spins: nat): Pc {
    if spins > 0 then SpinLoad(max, timeout, spins - 1) else Register(max, timeout)
  }

  /** The next atomic operation of a thread inside the semaphore; `maxSpins` is m_maxSpins. */
  function Effect(pc: Pc, m: Shared, chance: Chance, maxSpins: nat): (Pc, Shared) {
    match pc
    case TryLoad(max, after) =>
      (if m.count > 0 then TrySwap(max, m.count, after) else GotNone(max, after, maxSpins), m)
    case TrySwap(max, seen, after) =>
      if m.count == seen && chance.Lucky? then
        var n := TakenFrom(seen, max);
        (if n > 0 then Idle else GotNone(max, after, maxSpins), m.(count := seen - n, acquired := m.acquired + n))
      else if m.count > 0 then (TrySwap(max, m.count, after), m)
      else (GotNone(max, after, maxSpins), m)
    case SpinLoad(max, timeout, spins) =>
      (if m.count > 0 then SpinSwap(max, timeout, spins, m.count) else Spin(max, timeout, spins), m)
    case SpinSwap(max, timeout, spins, seen) =>
      if m.count == seen then
        var n := TakenFrom(seen, max);
        (Idle, m.(count := seen - n, acquired := m.acquired + n))
      else (Spin(max, timeout, spins), m)
    case Register(max, timeout) =>
      if m.count > 0 then (GotFirst(max), m.(count := m.count - 1, acquired := m.acquired + 1))
      else (if timeout.Never? then RetractLoad(max) else Block(max, timeout), m.(count := m.count - 1))
    case Block(max, timeout) =>
      if m.tokens > 0 && chance.Lucky? then (GotFirst(max), m.(tokens := m.tokens - 1, acquired := m.acquired + 1))
      else if chance.Unlucky? then (RetractLoad(max), m)
      else (pc, m)
    case RetractLoad(max) => (if m.count >= 0 then RetractTake(max) else RetractSwap(max, m.count), m)
    case RetractTake(max) =>
      if m.tokens > 0 then (GotFirst(max), m.(tokens := m.tokens - 1, acquired := m.acquired + 1))
      else (RetractLoad(max), m)
    case RetractSwap(max, seen) =>
      if m.count == seen then (Idle, m.(count := seen + 1)) else (RetractLoad(max), m)
    case Post(left) =>
      if left == 0 then (Idle, m) else (if left == 1 then Idle else Post(left - 1), m.(tokens := m.tokens + 1))
    case Idle => (Idle, m)
  }

  function Do(s: State, t: nat, chance: Chance, maxSpins: nat): State
    requires t < |s.pcs|
  {
    var (pc, m) := Effect(s.pcs[t], s.shared, chance, maxSpins);
    s.(pcs := s.pcs[t := pc], shared := m)
  }

  /** signal starts with its only operation on the counter, and then owes the kernel what it released. */
  function Signal(s: State, t: nat, n: nat): State
    requires t < |s.pcs|
  {
    var release := Min(-s.shared.count, n);
    s.(shared := s.shared.(count := s.shared.count + n, signalled := s.shared.signalled + n),
       pcs := s.pcs[t := if release > 0 then Post(release) else Idle])
  }

  /** A thread calls tryWait, tryWaitMany, wait, waitMany, or signal. */
  ghost predicate Call(s: State, s': State, t: nat) {
    t < |s.pcs| && s.pcs[t] == Idle
    && ((exists max: nat, after :: s' == s.(pcs := s.pcs[t := TryLoad(max, after)]))
        || exists n: nat :: s' == Signal(s, t, n))
  }

  ghost predicate Init(s: State) {
    s.shared == Shared(s.initial, 0, 0, 0) && forall t :: 0 <= t < |s.pcs| ==> s.pcs[t] == Idle
  }

  /** A thread inside takes its next operation, whatever chance does and the number of spins is. */
  ghost predicate Moves(s: State, s': State, t: nat) {
    t < |s.pcs| && exists chance, spins: nat :: s' == Do(s, t, chance, spins)
  }

  ghost predicate Next(s: State, s': State) {
    exists t: nat :: Call(s, s', t) || Moves(s, s', t)
  }

  ghost predicate IsRun(run: seq<State>) {
    run != [] && Init(run[0]) && forall i :: 0 <= i < |run| - 1 ==> Next(run[i], run[i + 1])
  }

  // ---------- conservation ----------

  /** A thread that has decremented the counter below one and not yet got a permit for it. */
  predicate Waits(pc: Pc) {
    pc.Block? || pc.RetractLoad? || pc.RetractTake? || pc.RetractSwap?
  }

  function Owes(pc: Pc): nat {
    if pc.Post? then pc.left else 0
  }

  function Registered(pcs: seq<Pc>): nat {
    if pcs == [] then 0
    else Registered(pcs[..|pcs| - 1]) + if Waits(pcs[|pcs| - 1]) then 1 else 0
  }

  function Pending(pcs: seq<Pc>): nat {
    if pcs == [] then 0 else Pending(pcs[..|pcs| - 1]) + Owes(pcs[|pcs| - 1])
  }

  lemma {:induction false} SumsUpdate(pcs: seq<Pc>, t: nat, pc: Pc)
    requires t < |pcs|
    ensures Registered(pcs[t := pc])
         == Registered(pcs) - (if Waits(pcs[t]) then 1 else 0) + (if Waits(pc) then 1 else 0)
    ensures Pending(pcs[t := pc]) == Pending(pcs) - Owes(pcs[t]) + Owes(pc)
    ensures Waits(pcs[t]) ==> Registered(pcs) > 0
  {
    var last := |pcs| - 1;
    if t < last {
      SumsUpdate(pcs[..last], t, pc);
      assert pcs[t := pc][..last] == pcs[..last][t := pc];
    } else {
      assert pcs[t := pc][..last] == pcs[..last];
    }
  }

  lemma {:induction false} AllIdle(pcs: seq<Pc>)
    requires forall t :: 0 <= t < |pcs| ==> pcs[t] == Idle
    ensures Registered(pcs) == 0 && Pending(pcs) == 0
  {
    if pcs != [] { AllIdle(pcs[..|pcs| - 1]); }
  }

  function Positive(n: int): nat {
    if n > 0 then n else 0
  }

  /** Waiters are matched by the counter's debt, tokens and releases on their way; permits are never
      made or lost. */
  predicate Conserved(s: State) {
    var m := s.shared;
    Positive(-m.count) + m.tokens + Pending(s.pcs) == Registered(s.pcs)
    && s.initial + m.signalled == Positive(m.count) + m.tokens + Pending(s.pcs) + m.acquired
  }

  /** What a thread read and may still act on. */
  predicate ThreadOk(pc: Pc) {
    match pc
    case TrySwap(_, seen, _) => seen > 0
    case SpinSwap(max, _, _, seen) => seen > 0 && max > 0
    case SpinLoad(max, _, _) => max > 0
    case Register(max, _) => max > 0
    case Block(max, _) => max > 0
    case RetractSwap(_, seen) => seen < 0
    case _ => true
  }

  predicate Inv(s: State) {
    Conserved(s) && forall t :: 0 <= t < |s.pcs| ==> ThreadOk(s.pcs[t])
  }

  lemma EffectConserves(pc: Pc, m: Shared, chance: Chance, maxSpins: nat)
    requires ThreadOk(pc)
    ensures var (pc', m') := Effect(pc, m, chance, maxSpins);
            ThreadOk(pc') && m'.signalled == m.signalled && m'.acquired >= m.acquired
            && Positive(-m'.count) + m'.tokens + Owes(pc') - (if Waits(pc') then 1 else 0)
               == Positive(-m.count) + m.tokens + Owes(pc) - (if Waits(pc) then 1 else 0)
            && Positive(m'.count) + m'.tokens + Owes(pc') + m'.acquired
               == Positive(m.count) + m.tokens + Owes(pc) + m.acquired
  {
  }

  /** A step that leaves its thread's share of both balances alone leaves the balances alone. */
  lemma LocalStep(s: State, s': State, t: nat, given: nat)
    requires Inv(s) && t < |s.pcs| == |s'.pcs| && s'.initial == s.initial
    requires s'.pcs == s.pcs[t := s'.pcs[t]] && ThreadOk(s'.pcs[t])
    requires s'.shared.signalled == s.shared.signalled + given
    requires var (pc, m, pc', m') := (s.pcs[t], s.shared, s'.pcs[t], s'.shared);
             Positive(-m'.count) + m'.tokens + Owes(pc') - (if Waits(pc') then 1 else 0)
               == Positive(-m.count) + m.tokens + Owes(pc) - (if Waits(pc) then 1 else 0)
             && Positive(m'.count) + m'.tokens + Owes(pc') + m'.acquired
               == Positive(m.count) + m.tokens + Owes(pc) + m.acquired + given
    ensures Inv(s')
  {
    SumsUpdate(s.pcs, t, s'.pcs[t]);
    hide ThreadOk, Waits, Owes, Positive, Registered, Pending;
  }

  lemma CallInv(s: State, s': State, t: nat)
    requires Inv(s) && Call(s, s', t)
    ensures Inv(s')
  {
    hide Conserved, Registered, Pending;
    if n: nat :| s' == Signal(s, t, n) {
      LocalStep(s, s', t, n);
    } else {
      LocalStep(s, s', t, 0);
    }
  }

  lemma DoInv(s: State, t: nat, chance: Chance, maxSpins: nat)
    requires Inv(s) && t < |s.pcs|
    ensures Inv(Do(s, t, chance, maxSpins)) && Do(s, t, chance, maxSpins).initial == s.initial
  {
    EffectConserves(s.pcs[t], s.shared, chance, maxSpins);
    hide Effect, ThreadOk, Waits, Owes, Positive, Conserved;
    LocalStep(s, Do(s, t, chance, maxSpins), t, 0);
  }

  lemma MovesInv(s: State, s': State, t: nat)
    requires Inv(s) && Moves(s, s', t)
    ensures Inv(s') && s'.initial == s.initial
  {
    hide Inv, Do;
    var chance, spins: nat :| s' == Do(s, t, chance, spins);
    DoInv(s, t, chance, spins);
  }

  lemma NextInv(s: State, s': State)
    requires Inv(s) && Next(s, s')
    ensures Inv(s') && s'.initial == s.initial
  {
    hide Inv, Moves;
    var t: nat :| Call(s, s', t) || Moves(s, s', t);
    if Call(s, s', t) { CallInv(s, s', t); } else { MovesInv(s, s', t); }
  }

  lemma {:induction false} RunConserves(run: seq<State>, i: nat)
    requires IsRun(run) && i < |run|
    ensures Inv(run[i]) && run[i].initial == run[0].initial
  {
    if i == 0 {
      AllIdle(run[0].pcs);
    } else {
      RunConserves(run, i - 1);
      NextInv(run[i - 1], run[i]);
    }
  }

  /** No lost wakeup: in every reachable state a waiter that nothing is on its way to wake waits for a
      permit that does not exist; and no more permits are taken than were given. */
  lemma NoLostWakeup(run: seq<State>, i: nat)
    requires IsRun(run) && i < |run|
    ensures var s := run[i];
            (s.shared.tokens == 0 && Pending(s.pcs) == 0 && Registered(s.pcs) > 0 ==>
               s.shared.count + Registered(s.pcs) == 0 && s.shared.acquired == s.initial + s.shared.signalled)
            && (s.shared.count > 0 ==> s.shared.tokens + Pending(s.pcs) == Registered(s.pcs))
            && s.shared.acquired <= s.initial + s.shared.signalled
  {
    RunConserves(run, i);
  }

  /** The retry loop of lines 304-311 never waits for nothing: when a timed-out waiter reads a count of
      0 or more, a token for it is there or owed by a thread inside signal. */
  lemma RetractIsServed(s: State, t: nat)
    requires Inv(s) && t < |s.pcs| && Waits(s.pcs[t]) && s.shared.count >= 0
    ensures s.shared.tokens + Pending(s.pcs) > 0
  {
    SumsUpdate(s.pcs, t, Idle);
  }

  lemma {:induction false} SomeoneOwes(pcs: seq<Pc>) returns (t: nat)
    requires Pending(pcs) > 0
    ensures t < |pcs| && Owes(pcs[t]) > 0
  {
    t := |pcs| - 1;
    if Owes(pcs[t]) == 0 { t := SomeoneOwes(pcs[..t]); }
  }

  /** Whoever waits while a permit is free, or while more was signalled than acquired, can be served by
      a step: a token can be taken, or some thread can post one. */
  lemma WaiterCanProgress(s: State, t: nat) returns (u: nat)
    requires Inv(s) && t < |s.pcs| && Waits(s.pcs[t]) && s.initial + s.shared.signalled > s.shared.acquired
    ensures s.shared.tokens > 0 || (u < |s.pcs| && s.pcs[u].Post? && s.pcs[u].left > 0
                                    && forall spins: nat :: Do(s, u, Lucky, spins).shared.tokens == s.shared.tokens + 1)
  {
    SumsUpdate(s.pcs, t, Idle);
    u := 0;
    if s.shared.tokens == 0 {
      u := SomeoneOwes(s.pcs);
    }
  }
}
