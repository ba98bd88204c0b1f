/** The coroutine lock (src/90s/util/aiolock.hpp, lines 24-52): a flag and a queue of waiting promises.
    Every waiter is alive, that is, its coroutine still holds the promise. */
module AioLock {

  /** The fields of aiolock, with a number for each promise. */
  datatype State = State(sem: int, waiters: seq<nat>)

  /** What happened so far: calls of lock, and promises resolved true, in order; calls of unlock. */
  datatype History = History(requested: seq<nat>, granted: seq<nat>, released: nat)

  /** Promises are granted in the order they were asked for; the flag says whether the one granted last
      still holds the lock; nobody waits for a free lock. */
  predicate Fair(l: State, h: History) {
    h.granted + l.waiters == h.requested && l.sem in {0, 1} && (l.sem == 1 ==> l.waiters == [])
    && |h.granted| == h.released + (if l.sem == 0 then 1 else 0)
  }

  const FRESH := State(1, [])

  /** The promise `lock` returns, and the one it resolves, if any. */
  function Locking(l: State, who: nat): (State, seq<nat>) {
    if l.sem == 1 && l.waiters == [] then (l.(sem := 0), [who])
    else if l.sem == 1 then (State(0, l.waiters[1..] + [who]), l.waiters[..1])
    else (l.(waiters := l.waiters + [who]), [])
  }

  function Unlocking(l: State): (State, seq<nat>) {
    if l.waiters != [] then (State(0, l.waiters[1..]), l.waiters[..1]) else (l.(sem := 1), [])
  }

  lemma LockingFair(l: State, h: History, who: nat)
    requires Fair(l, h)
    ensures var (l', woken) := Locking(l, who);
            Fair(l', History(h.requested + [who], h.granted + woken, h.released))
            && woken == if l.sem == 1 then [who] else []
  {
  }

  lemma UnlockingFair(l: State, h: History)
    requires Fair(l, h) && l.sem == 0
    ensures var (l', woken) := Unlocking(l);
            Fair(l', History(h.requested, h.granted + woken, h.released + 1))
            && woken == if l.waiters == [] then [] else [l.waiters[0]]
  {
    if l.waiters != [] { assert l.waiters == [l.waiters[0]] + l.waiters[1..]; }
  }

  // ---------- all sequences of calls ----------

  /** unlock asks nobody who calls it. */
  datatype Call = Asks(who: nat) | Unlocks(who: nat)

  /** The lock after some calls. `asked`, `granted` and `inside` are history: promises asked for and granted,
      in order, and those granted and not yet given back by the same caller. */
  datatype World = World(lock: State, asked: seq<nat>, granted: seq<nat>, inside: multiset<nat>)

  function Called(w: World, call: Call): World {
    match call
    case Asks(who) =>
      var (lock, woken) := Locking(w.lock, who);
      World(lock, w.asked + [who], w.granted + woken, w.inside + multiset(woken))
    case Unlocks(who) =>
      var (lock, woken) := Unlocking(w.lock);
      World(lock, w.asked, w.granted + woken, w.inside - multiset{who} + multiset(woken))
  }

  function After(calls: seq<Call>): World {
    if calls == [] then World(FRESH, [], [], multiset{})
    else Called(After(calls[..|calls| - 1]), calls[|calls| - 1])
  }

  lemma AfterOne(calls: seq<Call>, call: Call)
    ensures After(calls + [call]) == Called(After(calls), call)
  {
    assert (calls + [call])[..|calls|] == calls;
  }

  /** Promises are granted in the order they were asked for, and nobody waits for a free lock. */
  predicate Queued(w: World) {
    w.granted + w.lock.waiters == w.asked && w.lock.sem in {0, 1} && (w.lock.sem == 1 ==> w.lock.waiters == [])
  }

  lemma CalledQueued(w: World, call: Call)
    requires Queued(w)
    ensures Queued(Called(w, call))
  {
    if w.lock.waiters != [] { assert w.lock.waiters == [w.lock.waiters[0]] + w.lock.waiters[1..]; }
  }

  lemma {:induction false} ArrivalOrder(calls: seq<Call>)
    ensures Queued(After(calls))
  {
    if calls != [] {
      ArrivalOrder(calls[..|calls| - 1]);
      CalledQueued(After(calls[..|calls| - 1]), calls[|calls| - 1]);
    }
  }

  /** The second branch of lock is never taken, whoever unlocks: nobody ever waits while the flag is up. */
  lemma SecondBranchIsDead(calls: seq<Call>, who: nat)
    ensures var l := After(calls).lock;
            !(l.sem == 1 && l.waiters != [])
            && Locking(l, who) == if l.sem == 1 then (State(0, []), [who]) else (State(0, l.waiters + [who]), [])
  {
    ArrivalOrder(calls);
  }

  /** Somebody unlocks a lock that is held, and not by the caller. */
  predicate IsStranger(w: World, call: Call) {
    call.Unlocks? && w.lock.sem == 0 && call.who !in w.inside
  }

  predicate HoldersUnlock(calls: seq<Call>) {
    forall i :: 0 <= i < |calls| ==> !IsStranger(After(calls[..i]), calls[i])
  }

  /** The one inside is the one granted last, while the flag is down. */
  predicate OneInside(w: World) {
    if w.lock.sem == 0 then w.granted != [] && w.inside == multiset{w.granted[|w.granted| - 1]}
    else w.inside == multiset{}
  }

  lemma CalledOneInside(w: World, call: Call)
    requires Queued(w) && OneInside(w) && !IsStranger(w, call)
    ensures OneInside(Called(w, call))
  {
  }

  lemma {:induction false} HolderIsInside(calls: seq<Call>)
    requires HoldersUnlock(calls)
    ensures OneInside(After(calls))
  {
    if calls != [] {
      var n := |calls| - 1;
      forall i | 0 <= i < n ensures !IsStranger(After(calls[..n][..i]), calls[..n][i]) {
        assert calls[..n][..i] == calls[..i];
      }
      HolderIsInside(calls[..n]);
      ArrivalOrder(calls[..n]);
      CalledOneInside(After(calls[..n]), calls[n]);
    }
  }

  /** A stranger's unlock lets a second one in: the first in the queue, or whoever asks next. */
  lemma StrangerLetsIn(w: World, call: Call, who: nat)
    requires Queued(w) && OneInside(w) && IsStranger(w, call)
    ensures |Called(Called(w, call), Asks(who)).inside| == 2
  {
  }

  lemma HoldersSoFar(calls: seq<Call>, i: nat)
    requires HoldersUnlock(calls) && i <= |calls|
    ensures HoldersUnlock(calls[..i])
  {
    hide After, IsStranger;
    forall j | 0 <= j < i ensures !IsStranger(After(calls[..i][..j]), calls[..i][j]) {
      assert calls[..i][..j] == calls[..j];
    }
  }

  lemma NextInside(w: World, who: nat)
    requires Queued(w) && OneInside(w)
    ensures |Called(w, Asks(who)).inside| <= 1
  {
    CalledOneInside(w, Asks(who));
    hide Called;
  }

  /** At most one caller is inside, at every moment and whoever asks next, exactly if nobody unlocks the
      lock while somebody else holds it. */
  lemma ExclusiveIff(calls: seq<Call>)
    ensures HoldersUnlock(calls)
       <==> forall i, who :: 0 <= i <= |calls| ==> |After(calls[..i] + [Asks(who)]).inside| <= 1
  {
    hide *;
    if HoldersUnlock(calls) {
      forall i, who | 0 <= i <= |calls| ensures |After(calls[..i] + [Asks(who)]).inside| <= 1 {
        HoldersSoFar(calls, i);
        HolderIsInside(calls[..i]);
        ArrivalOrder(calls[..i]);
        NextInside(After(calls[..i]), who);
        AfterOne(calls[..i], Asks(who));
      }
    } else {
      var i := FirstStranger(calls);
      HolderIsInside(calls[..i]);
      ArrivalOrder(calls[..i]);
      StrangerLetsIn(After(calls[..i]), calls[i], 0);
      assert calls[..i + 1] == calls[..i] + [calls[i]];
      AfterOne(calls[..i], calls[i]);
      AfterOne(calls[..i + 1], Asks(0));
    }
  }

  lemma FirstStranger(calls: seq<Call>) returns (i: nat)
    requires !HoldersUnlock(calls)
    ensures i < |calls| && IsStranger(After(calls[..i]), calls[i]) && HoldersUnlock(calls[..i])
  {
    hide After, IsStranger;
    i := 0;
    while !IsStranger(After(calls[..i]), calls[i])
      invariant i < |calls| && exists k :: i <= k < |calls| && IsStranger(After(calls[..k]), calls[k])
      invariant forall k :: 0 <= k < i ==> !IsStranger(After(calls[..k]), calls[k])
      decreases |calls| - i
    {
      i := i + 1;
    }
    forall j | 0 <= j < i ensures !IsStranger(After(calls[..i][..j]), calls[..i][j]) {
      assert calls[..i][..j] == calls[..j];
    }
  }

  lemma AsksFree(w: World, who: nat)
    requires w.lock == FRESH
    ensures Called(w, Asks(who)) == World(State(0, []), w.asked + [who], w.granted + [who], w.inside + multiset{who})
  {
    assert multiset([who]) == multiset{who};
  }

  lemma UnlocksAlone(w: World, who: nat)
    requires w.lock.waiters == []
    ensures Called(w, Unlocks(who)) == World(FRESH, w.asked, w.granted, w.inside - multiset{who})
  {
    assert w.granted + [] == w.granted;
    assert w.inside - multiset{who} + multiset([]) == w.inside - multiset{who};
  }

  /** The input: 1 has the lock, 3 unlocks it, 2 asks, and 1 and 2 are both inside. */
  lemma StrangerUnlocks()
    ensures var calls := [Asks(1), Unlocks(3), Asks(2)];
            After(calls).inside == multiset{1, 2} && IsStranger(After(calls[..1]), calls[1])
  {
    var calls := [Asks(1), Unlocks(3), Asks(2)];
    assert After([]) == World(FRESH, [], [], multiset{});
    hide After, Called;
    assert calls[..1] == [] + [Asks(1)] && calls[..2] == calls[..1] + [Unlocks(3)] && calls == calls[..2] + [Asks(2)];
    AfterOne([], Asks(1));
    AfterOne(calls[..1], Unlocks(3));
    AfterOne(calls[..2], Asks(2));
    AsksFree(After([]), 1);
    UnlocksAlone(After(calls[..1]), 3);
    AsksFree(After(calls[..2]), 2);
  }

  /** Unlocking a lock that nobody holds changes nothing, and is no stranger's call. */
  lemma IdleUnlock(calls: seq<Call>, who: nat)
    requires After(calls).lock.sem == 1
    ensures After(calls + [Unlocks(who)]) == After(calls).(inside := After(calls).inside - multiset{who})
    ensures HoldersUnlock(calls) ==> After(calls + [Unlocks(who)]) == After(calls) && HoldersUnlock(calls + [Unlocks(who)])
  {
    var more := calls + [Unlocks(who)];
    ArrivalOrder(calls);
    AfterOne(calls, Unlocks(who));
    assert After(calls).granted + [] == After(calls).granted;
    assert forall i :: 0 <= i <= |calls| ==> more[..i] == calls[..i];
    assert calls[..|calls|] == calls;
    if HoldersUnlock(calls) {
      HolderIsInside(calls);
      hide After, IsStranger;
    }
  }

  class AioLock {
    var sem: int
    var waiters: seq<nat>
    ghost var history: History

    function Now(): State
      reads this
    {
      State(sem, waiters)
    }

    constructor ()
      ensures Now() == FRESH && history == History([], [], 0) && Fair(Now(), history)
    {
      sem, waiters, history := 1, [], History([], [], 0);
    }

    /** Returns the promise that was resolved, if any; its coroutine goes on when lock returns. */
    method Lock(who: nat) returns (woken: seq<nat>)
      modifies this
      ensures (Now(), woken) == Locking(old(Now()), who)
      ensures history == History(old(history).requested + [who], old(history).granted + woken, old(history).released)
      ensures old(Fair(Now(), history)) ==> Fair(Now(), history)
    {
      if old(Fair(Now(), history)) { LockingFair(Now(), history, who); }
      woken := [];
      if sem == 1 && |waiters| == 0 {
        sem := 0;
        woken := [who];
      } else if sem == 1 {
        sem := 0;
        woken := waiters[..1];
        waiters := waiters[1..];
        waiters := waiters + [who];
      } else {
        waiters := waiters + [who];
      }
      history := History(history.requested + [who], history.granted + woken, history.released);
    }

    method Unlock() returns (woken: seq<nat>)
      modifies this
      ensures (Now(), woken) == Unlocking(old(Now()))
      ensures history == History(old(history).requested, old(history).granted + woken, old(history).released + 1)
      ensures old(Fair(Now(), history) && sem == 0) ==> Fair(Now(), history)
    {
      if old(Fair(Now(), history) && sem == 0) { UnlockingFair(Now(), history); }
      woken := [];
      if |waiters| > 0 {
        sem := 0;
        woken := waiters[..1];
        waiters := waiters[1..];
      } else {
        sem := 1;
      }
      history := History(history.requested, history.granted + woken, history.released + 1);
    }
  }
}
