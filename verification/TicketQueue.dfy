/** The ticket counters of one sub-queue of the lock-free queue (src/90s/lib/concurrentqueue.h,
    ImplicitProducer::enqueue and dequeue): one enqueuer, any number of dequeuers, one atomic
    operation a step, in any interleaving. */
module TicketQueue {

  /** Where a dequeuer stands, with the values its local variables hold. */
  datatype Pc =
    | Idle
    | SawTail(tail: nat)
    | SawOvercommit(tail: nat, overcommit: nat)
    | Entering(overcommit: nat)
    | Ticketed(overcommit: nat, ticket: nat)
    | SawTailAgain(overcommit: nat, ticket: nat, tail: nat)
    | Claimed(index: nat)

  /** What became of a ticket, a value fetched from dequeueOptimisticCount. */
  datatype Fate = Undecided(owner: nat) | Won | Lost

  /** Who has the element of a claimed index. */
  datatype Holder<T> = InHand(thread: nat) | Returned(element: T)

  /** `fates` and `holders` are history variables; the code has only the counters and the slots. */
  datatype State<T> = State(
    slots: seq<T>, tail: nat,
    optimistic: nat, overcommit: nat, head: nat,
    pcs: seq<Pc>,
    fates: seq<Fate>, holders: seq<Holder<T>>)

  // ---------- the steps ----------

  /** The enqueuer constructs the element in its slot, ... */
  ghost predicate Write<T(!new)>(s: State<T>, s': State<T>) {
    |s.slots| == s.tail && exists x :: s' == s.(slots := s.slots + [x])
  }

  /** ... and publishes it by storing tailIndex. */
  ghost predicate Publish<T>(s: State<T>, s': State<T>) {
    |s.slots| == s.tail + 1 && s' == s.(tail := s.tail + 1)
  }

  /** The next atomic operation of dequeuer `t`. */
  function Dequeue<T>(s: State<T>, t: nat): State<T>
    requires t < |s.pcs|
  {
    match s.pcs[t]
    case Idle => s.(pcs := s.pcs[t := SawTail(s.tail)])
    case SawTail(tail) => s.(pcs := s.pcs[t := SawOvercommit(tail, s.overcommit)])
    case SawOvercommit(tail, overcommit) =>
      s.(pcs := s.pcs[t := if s.optimistic - overcommit < tail then Entering(overcommit) else Idle])
    case Entering(overcommit) =>
      s.(optimistic := s.optimistic + 1, fates := s.fates + [Undecided(t)],
         pcs := s.pcs[t := Ticketed(overcommit, s.optimistic)])
    case Ticketed(overcommit, ticket) => s.(pcs := s.pcs[t := SawTailAgain(overcommit, ticket, s.tail)])
    case SawTailAgain(overcommit, ticket, tail) =>
      if ticket - overcommit < tail then
        s.(head := s.head + 1, fates := Decide(s.fates, ticket, Won), holders := s.holders + [InHand(t)],
           pcs := s.pcs[t := Claimed(s.head)])
      else
        s.(overcommit := s.overcommit + 1, fates := Decide(s.fates, ticket, Lost), pcs := s.pcs[t := Idle])
    case Claimed(index) =>
      s.(holders := if index < |s.holders| && index < |s.slots| then s.holders[index := Returned(s.slots[index])] else s.holders,
         pcs := s.pcs[t := Idle])
  }

  function Decide(fates: seq<Fate>, ticket: nat, f: Fate): seq<Fate> {
    if ticket < |fates| then fates[ticket := f] else fates
  }

  ghost predicate Init<T>(s: State<T>) {
    s.slots == [] && s.tail == 0 && s.optimistic == 0 && s.overcommit == 0 && s.head == 0
    && s.fates == [] && s.holders == [] && forall t :: 0 <= t < |s.pcs| ==> s.pcs[t] == Idle
  }

  ghost predicate Next<T(!new)>(s: State<T>, s': State<T>) {
    Write(s, s') || Publish(s, s') || exists t: nat :: t < |s.pcs| && s' == Dequeue(s, t)
  }

  ghost predicate IsRun<T(!new)>(run: seq<State<T>>) {
    run != [] && Init(run[0]) && forall i :: 0 <= i < |run| - 1 ==> Next(run[i], run[i + 1])
  }

  // ---------- counting tickets ----------

  function Count(fates: seq<Fate>, f: Fate): (n: nat)
    ensures n <= |fates|
  {
    if fates == [] then 0
    else Count(fates[..|fates| - 1], f) + if fates[|fates| - 1] == f then 1 else 0
  }

  function LostBelow(fates: seq<Fate>, ticket: nat): nat
    requires ticket <= |fates|
  {
    Count(fates[..ticket], Lost)
  }

  lemma CountAppend(fates: seq<Fate>, g: Fate, f: Fate)
    ensures Count(fates + [g], f) == Count(fates, f) + if g == f then 1 else 0
  {
    assert (fates + [g])[..|fates|] == fates;
  }

  lemma {:induction false} CountUpdate(fates: seq<Fate>, i: nat, g: Fate, f: Fate)
    requires i < |fates|
    ensures Count(fates[i := g], f)
         == Count(fates, f) - (if fates[i] == f then 1 else 0) + if g == f then 1 else 0
  {
    var last := |fates| - 1;
    if i < last {
      CountUpdate(fates[..last], i, g, f);
      assert fates[i := g][..last] == fates[..last][i := g];
    } else {
      assert fates[i := g][..last] == fates[..last];
    }
  }

  lemma {:induction false} WonAndLost(fates: seq<Fate>)
    ensures Count(fates, Won) + Count(fates, Lost) <= |fates|
    ensures (forall i :: 0 <= i < |fates| ==> !fates[i].Undecided?) ==> Count(fates, Won) + Count(fates, Lost) == |fates|
  {
    if fates != [] { WonAndLost(fates[..|fates| - 1]); }
  }

  /** Losing tickets below a ticket only grow in number while others are decided. */
  lemma LostBelowDecided(fates: seq<Fate>, i: nat, g: Fate, j: nat)
    requires i < |fates| && fates[i] != Lost && j <= |fates|
    ensures LostBelow(fates[i := g], j) == LostBelow(fates, j) + if i < j && g == Lost then 1 else 0
  {
    if i < j {
      assert fates[i := g][..j] == fates[..j][i := g];
      CountUpdate(fates[..j], i, g, Lost);
    } else {
      assert fates[i := g][..j] == fates[..j];
    }
  }

  /** The argument of lines 1954-2052: a winner has fewer than `tail` tickets before it that did not
      lose, so there are at most `tail` winners. */
  ghost predicate WinnersFit(fates: seq<Fate>, tail: int) {
    forall i :: 0 <= i < |fates| && fates[i] == Won ==> i - LostBelow(fates, i) < tail
  }

  lemma {:induction false} WinnersBounded(fates: seq<Fate>, tail: nat)
    requires WinnersFit(fates, tail)
    ensures Count(fates, Won) <= tail
  {
    if fates != [] {
      var last := |fates| - 1;
      var before := fates[..last];
      if fates[last] == Won {
        WonAndLost(before);
        assert LostBelow(fates, last) == Count(before, Lost);
      } else {
        forall i | 0 <= i < last && before[i] == Won ensures i - LostBelow(before, i) < tail {
          assert before[..i] == fates[..i];
          assert fates[i] == Won;
        }
        WinnersBounded(before, tail);
      }
    }
  }

  // ---------- the invariant ----------

  ghost predicate Counters<T>(s: State<T>) {
    s.tail <= |s.slots| <= s.tail + 1
    && |s.fates| == s.optimistic && s.overcommit == Count(s.fates, Lost) && s.head == Count(s.fates, Won)
    && |s.holders| == s.head && WinnersFit(s.fates, s.tail)
  }

  /** A dequeuer's overcommit is one that was true when no more tickets were out than it has below its own. */
  ghost predicate ThreadOk<T>(s: State<T>, t: int)
    requires 0 <= t < |s.pcs| && |s.fates| == s.optimistic
  {
    match s.pcs[t]
    case Idle => true
    case SawTail(tail) => tail <= s.tail
    case SawOvercommit(tail, overcommit) => tail <= s.tail && overcommit <= s.overcommit
    case Entering(overcommit) => overcommit <= s.overcommit
    case Ticketed(overcommit, ticket) =>
      ticket < s.optimistic && s.fates[ticket] == Undecided(t) && overcommit <= LostBelow(s.fates, ticket)
    case SawTailAgain(overcommit, ticket, tail) =>
      ticket < s.optimistic && s.fates[ticket] == Undecided(t) && overcommit <= LostBelow(s.fates, ticket)
      && tail <= s.tail
    case Claimed(index) => index < |s.holders| && s.holders[index] == InHand(t)
  }

  predicate HoldsTicket(pc: Pc, ticket: int) {
    (pc.Ticketed? || pc.SawTailAgain?) && pc.ticket == ticket
  }

  ghost predicate TicketsOwned<T>(s: State<T>) {
    forall i :: 0 <= i < |s.fates| && s.fates[i].Undecided? ==>
      s.fates[i].owner < |s.pcs| && HoldsTicket(s.pcs[s.fates[i].owner], i)
  }

  ghost predicate HolderOk<T>(s: State<T>, i: int)
    requires 0 <= i < |s.holders|
  {
    match s.holders[i]
    case InHand(t) => t < |s.pcs| && s.pcs[t] == Claimed(i)
    case Returned(x) => i < s.tail <= |s.slots| && x == s.slots[i]
  }

  ghost predicate Inv<T>(s: State<T>) {
    Counters(s) && TicketsOwned(s)
    && (forall t :: 0 <= t < |s.pcs| ==> ThreadOk(s, t))
    && (forall i :: 0 <= i < |s.holders| ==> HolderOk(s, i))
  }

  lemma InitInv<T>(s: State<T>)
    requires Init(s)
    ensures Inv(s)
  {
  }

  lemma WriteInv<T(!new)>(s: State<T>, s': State<T>)
    requires Inv(s) && Write(s, s')
    ensures Inv(s')
  {
    forall t | 0 <= t < |s'.pcs| ensures ThreadOk(s', t) { assert ThreadOk(s, t); }
    forall i | 0 <= i < |s'.holders| ensures HolderOk(s', i) { assert HolderOk(s, i); }
  }

  lemma PublishInv<T>(s: State<T>, s': State<T>)
    requires Inv(s) && Publish(s, s')
    ensures Inv(s')
  {
    forall t | 0 <= t < |s'.pcs| ensures ThreadOk(s', t) { assert ThreadOk(s, t); }
    forall i | 0 <= i < |s'.holders| ensures HolderOk(s', i) { assert HolderOk(s, i); }
  }

  /** Steps that only load. */
  lemma LoadInv<T>(s: State<T>, t: nat)
    requires Inv(s) && t < |s.pcs|
    requires s.pcs[t].Idle? || s.pcs[t].SawTail? || s.pcs[t].SawOvercommit? || s.pcs[t].Ticketed?
    ensures Inv(Dequeue(s, t))
  {
    var s' := Dequeue(s, t);
    assert ThreadOk(s, t);
    forall u | 0 <= u < |s'.pcs| ensures ThreadOk(s', u) { assert ThreadOk(s, u); }
    forall i | 0 <= i < |s'.holders| ensures HolderOk(s', i) { assert HolderOk(s, i); }
  }

  lemma EnterInv<T>(s: State<T>, t: nat)
    requires Inv(s) && t < |s.pcs| && s.pcs[t].Entering?
    ensures Inv(Dequeue(s, t))
  {
    var s' := Dequeue(s, t);
    assert ThreadOk(s, t);
    CountAppend(s.fates, Undecided(t), Won);
    CountAppend(s.fates, Undecided(t), Lost);
    assert forall j :: 0 <= j <= |s.fates| ==> s'.fates[..j] == s.fates[..j];
    assert s.fates[..|s.fates|] == s.fates;
    forall u | 0 <= u < |s'.pcs| ensures ThreadOk(s', u) { assert ThreadOk(s, u); }
    forall i | 0 <= i < |s'.holders| ensures HolderOk(s', i) { assert HolderOk(s, i); }
  }

  function Verdict<T>(s: State<T>, t: nat): Fate
    requires t < |s.pcs| && s.pcs[t].SawTailAgain?
  {
    if s.pcs[t].ticket - s.pcs[t].overcommit < s.pcs[t].tail then Won else Lost
  }

  lemma DecideCounters<T>(s: State<T>, t: nat)
    requires Counters(s) && t < |s.pcs| && s.pcs[t].SawTailAgain? && ThreadOk(s, t)
    ensures Counters(Dequeue(s, t))
    ensures forall j :: 0 <= j <= |s.fates| ==> LostBelow(Dequeue(s, t).fates, j) >= LostBelow(s.fates, j)
  {
    var s', ticket, f := Dequeue(s, t), s.pcs[t].ticket, Verdict(s, t);
    CountUpdate(s.fates, ticket, f, Won);
    CountUpdate(s.fates, ticket, f, Lost);
    forall j | 0 <= j <= |s.fates| ensures LostBelow(s'.fates, j) >= LostBelow(s.fates, j) {
      LostBelowDecided(s.fates, ticket, f, j);
    }
  }

  lemma DecideInv<T>(s: State<T>, t: nat)
    requires Inv(s) && t < |s.pcs| && s.pcs[t].SawTailAgain?
    ensures Inv(Dequeue(s, t))
  {
    var s' := Dequeue(s, t);
    assert ThreadOk(s, t);
    DecideCounters(s, t);
    hide Count, LostBelow, WinnersFit;
    forall u | 0 <= u < |s'.pcs| ensures ThreadOk(s', u) { assert ThreadOk(s, u); }
    forall i | 0 <= i < |s'.holders| ensures HolderOk(s', i) { if i < |s.holders| { assert HolderOk(s, i); } }
  }

  lemma ReturnInv<T>(s: State<T>, t: nat)
    requires Inv(s) && t < |s.pcs| && s.pcs[t].Claimed?
    ensures Inv(Dequeue(s, t))
  {
    var s', index := Dequeue(s, t), s.pcs[t].index;
    assert ThreadOk(s, t);
    WinnersBounded(s.fates, s.tail);
    forall u | 0 <= u < |s'.pcs| ensures ThreadOk(s', u) { assert ThreadOk(s, u); }
    forall i | 0 <= i < |s'.holders| ensures HolderOk(s', i) { assert HolderOk(s, i); }
  }

  lemma NextInv<T(!new)>(s: State<T>, s': State<T>)
    requires Inv(s) && Next(s, s')
    ensures Inv(s')
  {
    if Write(s, s') {
      WriteInv(s, s');
    } else if Publish(s, s') {
      PublishInv(s, s');
    } else {
      var t: nat :| t < |s.pcs| && s' == Dequeue(s, t);
      match s.pcs[t]
      case Entering(_) => EnterInv(s, t);
      case SawTailAgain(_, _, _) => DecideInv(s, t);
      case Claimed(_) => ReturnInv(s, t);
      case _ => LoadInv(s, t);
    }
  }

  lemma {:induction false} RunInv<T(!new)>(run: seq<State<T>>, i: nat)
    requires IsRun(run) && i < |run|
    ensures Inv(run[i])
  {
    if i == 0 {
      InitInv(run[0]);
    } else {
      RunInv(run, i - 1);
      NextInv(run[i - 1], run[i]);
    }
  }

  // ---------- what follows ----------

  /** headIndex never passes tailIndex, every claimed index is below it, belongs to one dequeuer alone,
      and yields the element enqueued there. */
  ghost predicate Safe<T>(s: State<T>) {
    s.head <= s.tail <= |s.slots|
    && (forall t :: 0 <= t < |s.pcs| && s.pcs[t].Claimed? ==> s.pcs[t].index < s.tail)
    && (forall t, u :: 0 <= t < |s.pcs| && 0 <= u < |s.pcs| && s.pcs[t].Claimed? && s.pcs[t] == s.pcs[u] ==> t == u)
    && |s.holders| == s.head
    && (forall i :: 0 <= i < s.head && s.holders[i].Returned? ==>
          s.holders[i].element == s.slots[i]
          && forall t :: 0 <= t < |s.pcs| ==> s.pcs[t] != Claimed(i))
  }

  lemma InvSafe<T>(s: State<T>)
    requires Inv(s)
    ensures Safe(s)
  {
    WinnersBounded(s.fates, s.tail);
    forall t | 0 <= t < |s.pcs| && s.pcs[t].Claimed?
      ensures s.pcs[t].index < s.head && s.holders[s.pcs[t].index] == InHand(t)
    {
      assert ThreadOk(s, t);
    }
    forall i | 0 <= i < s.head && s.holders[i].Returned? ensures s.holders[i].element == s.slots[i] {
      assert HolderOk(s, i);
    }
  }

  lemma RunSafe<T(!new)>(run: seq<State<T>>, i: nat)
    requires IsRun(run) && i < |run|
    ensures Safe(run[i]) && run[i].head <= run[i].tail <= |run[i].slots|
  {
    RunInv(run, i);
    InvSafe(run[i]);
    hide Inv;
  }

  lemma StepKeepsReturned<T(!new)>(s: State<T>, s': State<T>, index: nat)
    requires Inv(s) && Next(s, s') && index < |s.holders| && s.holders[index].Returned?
    ensures index < |s'.holders| && s'.holders[index] == s.holders[index] && s.slots <= s'.slots
  {
    if !Write(s, s') && !Publish(s, s') {
      var t: nat :| t < |s.pcs| && s' == Dequeue(s, t);
      assert ThreadOk(s, t);
    }
  }

  lemma RunStep<T(!new)>(run: seq<State<T>>, j: nat)
    requires IsRun(run) && j + 1 < |run|
    ensures Next(run[j], run[j + 1])
  {
    hide Next, Init;
  }

  lemma SlotsGrow<T>(a: seq<T>, b: seq<T>, c: seq<T>)
    requires a <= b <= c
    ensures a <= c
  {
  }

  /** Once handed out, an element is never handed out again, and slots keep their elements. */
  lemma {:induction false} ReturnedForGood<T(!new)>(run: seq<State<T>>, i: nat, j: nat, index: nat)
    requires IsRun(run) && i <= j < |run|
    requires index < |run[i].holders| && run[i].holders[index].Returned?
    ensures index < |run[j].holders| && run[j].holders[index] == run[i].holders[index]
    ensures run[i].slots <= run[j].slots
  {
    hide *;
    if i < j {
      ReturnedForGood(run, i, j - 1, index);
      RunInv(run, j - 1);
      RunStep(run, j - 1);
      StepKeepsReturned(run[j - 1], run[j], index);
      SlotsGrow(run[i].slots, run[j - 1].slots, run[j].slots);
    }
  }

  function Steps<T>(s: State<T>, t: nat, n: nat): (s': State<T>)
    requires t < |s.pcs|
    ensures |s'.pcs| == |s.pcs|
  {
    if n == 0 then s else Dequeue(Steps(s, t, n - 1), t)
  }

  /** With every ticket decided, the tickets that count are the claims. */
  lemma QuiescentCounts<T>(s: State<T>)
    requires Inv(s) && forall u :: 0 <= u < |s.pcs| ==> s.pcs[u] == Idle
    ensures s.optimistic == s.head + s.overcommit && |s.fates| == s.optimistic && |s.holders| == s.head
    ensures s.tail <= |s.slots|
  {
    forall i | 0 <= i < |s.fates| ensures !s.fates[i].Undecided? {
    }
    WonAndLost(s.fates);
  }

  /** With nobody else inside, a dequeue succeeds exactly on a non-empty queue, and takes its oldest
      element: losing tickets cost nothing in the end. */
  lemma SoloDequeue<T>(s: State<T>, t: nat)
    requires Inv(s) && t < |s.pcs| && forall u :: 0 <= u < |s.pcs| ==> s.pcs[u] == Idle
    ensures s.head < s.tail ==>
      var s' := Steps(s, t, 7);
      s'.pcs == s.pcs && s'.head == s.head + 1 && s'.holders == s.holders + [Returned(s.slots[s.head])]
    ensures s.head >= s.tail ==> Steps(s, t, 3) == s
  {
    QuiescentCounts(s);
    hide Inv, Counters, TicketsOwned, ThreadOk, HolderOk;
    var p := s.pcs;
    assert p[t := Idle] == p;
    var s1 := Dequeue(s, t);
    assert s1 == Steps(s, t, 1) && s1.pcs == p[t := SawTail(s.tail)];
    var s2 := Dequeue(s1, t);
    assert s2 == Steps(s, t, 2) && s2.pcs == p[t := SawOvercommit(s.tail, s.overcommit)];
    var s3 := Dequeue(s2, t);
    assert s3 == Steps(s, t, 3) && s3 == s.(pcs := p[t := if s.head < s.tail then Entering(s.overcommit) else Idle]);
    if s.head < s.tail { SoloClaim(s, t, s3); }
  }

  lemma SoloClaim<T>(s: State<T>, t: nat, s3: State<T>)
    requires t < |s.pcs| && s.pcs[t] == Idle && s.head < s.tail <= |s.slots| && |s.holders| == s.head
    requires s.optimistic == s.head + s.overcommit && |s.fates| == s.optimistic
    requires s3 == s.(pcs := s.pcs[t := Entering(s.overcommit)]) && s3 == Steps(s, t, 3)
    ensures var s' := Steps(s, t, 7);
            s'.pcs == s.pcs && s'.head == s.head + 1 && s'.holders == s.holders + [Returned(s.slots[s.head])]
  {
    var p := s.pcs;
    var s4 := Dequeue(s3, t);
    assert s4 == Steps(s, t, 4) && s4.pcs == p[t := Ticketed(s.overcommit, s.optimistic)];
    var s5 := Dequeue(s4, t);
    assert s5 == Steps(s, t, 5) && s5.pcs == p[t := SawTailAgain(s.overcommit, s.optimistic, s.tail)];
    var s6 := Dequeue(s5, t);
    assert s6 == Steps(s, t, 6) && s6.pcs == p[t := Claimed(s.head)];
    var s7 := Dequeue(s6, t);
    assert s7 == Steps(s, t, 7) && s7.pcs == p[t := Idle];
    assert p[t := Idle] == p;
  }

  // ---------- dequeues that fail ----------

  /** What a failing dequeuer knows, and no more: the tickets before its own that have not lost, together with
      the lost ones it has not heard of, are as many as the elements it saw. */
  lemma LosesIff<T>(s: State<T>, t: nat)
    requires Inv(s) && t < |s.pcs| && s.pcs[t].SawTailAgain?
    ensures s.pcs[t].ticket <= |s.fates| && s.pcs[t].overcommit <= LostBelow(s.fates, s.pcs[t].ticket)
    ensures var pc := s.pcs[t];
            var undefeated, unheard := pc.ticket - LostBelow(s.fates, pc.ticket), LostBelow(s.fates, pc.ticket) - pc.overcommit;
            Verdict(s, t) == Lost <==> undefeated + unheard >= pc.tail
  {
    assert ThreadOk(s, t);
  }

  ghost predicate Reachable<T(!new)>(s: State<T>) {
    exists run :: IsRun(run) && run[|run| - 1] == s
  }

  lemma ReachNext<T(!new)>(s: State<T>, s': State<T>)
    requires Reachable(s) && Next(s, s')
    ensures Reachable(s')
  {
    hide Init, Next;
    var run :| IsRun(run) && run[|run| - 1] == s;
    var longer := run + [s'];
    assert IsRun(longer) && longer[|longer| - 1] == s';
  }

  lemma ReachDequeue<T(!new)>(s: State<T>, t: nat)
    requires Reachable(s) && t < |s.pcs|
    ensures Reachable(Dequeue(s, t))
  {
    assert Next(s, Dequeue(s, t));
    hide Reachable, Dequeue;
    ReachNext(s, Dequeue(s, t));
  }

  /** An element is enqueued, ... */
  lemma ReachPut(s: State<nat>, x: nat)
    requires Reachable(s) && |s.slots| == s.tail
    ensures Reachable(s.(slots := s.slots + [x], tail := s.tail + 1))
  {
    var written := s.(slots := s.slots + [x]);
    assert Write(s, written) && Publish(written, written.(tail := s.tail + 1));
    hide Reachable;
    ReachNext(s, written);
    ReachNext(written, written.(tail := s.tail + 1));
  }

  /** ... and a dequeuer passes the first test. */
  lemma ReachEnter(s: State<nat>, t: nat)
    requires Reachable(s) && t < |s.pcs| && s.pcs[t] == Idle && s.optimistic - s.overcommit < s.tail
    ensures Reachable(s.(pcs := s.pcs[t := Entering(s.overcommit)]))
  {
    hide Reachable;
    var a := Dequeue(s, t);
    assert a.pcs[t] == SawTail(s.tail);
    var b := Dequeue(a, t);
    assert b.pcs[t] == SawOvercommit(s.tail, s.overcommit);
    var c := Dequeue(b, t);
    assert c.pcs == s.pcs[t := Entering(s.overcommit)];
    ReachDequeue(s, t);
    ReachDequeue(a, t);
    ReachDequeue(b, t);
  }

  /** A dequeuer that has entered takes a ticket and reads the tail again. */
  lemma ReachTicket(s: State<nat>, t: nat)
    requires Reachable(s) && t < |s.pcs| && s.pcs[t].Entering?
    ensures Reachable(s.(pcs := s.pcs[t := SawTailAgain(s.pcs[t].overcommit, s.optimistic, s.tail)],
                         optimistic := s.optimistic + 1, fates := s.fates + [Undecided(t)]))
  {
    hide Reachable;
    var a := Dequeue(s, t);
    assert a.pcs[t] == Ticketed(s.pcs[t].overcommit, s.optimistic);
    assert Dequeue(a, t).pcs == s.pcs[t := SawTailAgain(s.pcs[t].overcommit, s.optimistic, s.tail)];
    ReachDequeue(s, t);
    ReachDequeue(a, t);
  }

  /** The first dequeuer has taken the first of three elements and is inside again; the second has lost, but
      not said so. */
  function SlowLoser(): State<nat> {
    State([7, 8, 9], 3, 2, 0, 1, [Entering(0), SawTailAgain(0, 1, 1), Idle], [Won, Undecided(1)], [Returned(7)])
  }

  /** On the way there: the first two have passed the test for one element, ... */
  function BothIn(): State<nat> {
    State([7], 1, 0, 0, 0, [Entering(0), Entering(0), Idle], [], [])
  }

  /** ... the first one has taken it, ... */
  function FirstOut(): State<nat> {
    State([7], 1, 1, 0, 1, [Idle, Entering(0), Idle], [Won], [Returned(7)])
  }

  /** ... and the second has read the tail again. */
  function SecondLate(): State<nat> {
    State([7], 1, 2, 0, 1, [Idle, SawTailAgain(0, 1, 1), Idle], [Won, Undecided(1)], [Returned(7)])
  }

  lemma ReachInit<T(!new)>(s: State<T>)
    requires Init(s)
    ensures Reachable(s)
  {
    hide Init, Next;
    var run := [s];
    assert IsRun(run) && run[|run| - 1] == s;
  }

  function OneElement(): State<nat> {
    State([7], 1, 0, 0, 0, [Idle, Idle, Idle], [], [])
  }

  lemma OneElementReached()
    ensures Reachable(OneElement())
  {
    hide Reachable;
    var s: State<nat> := State([], 0, 0, 0, 0, [Idle, Idle, Idle], [], []);
    ReachInit(s);
    ReachPut(s, 7);
    assert s.slots + [7] == [7];
  }

  lemma BothInReached()
    ensures Reachable(BothIn())
  {
    hide Reachable;
    OneElementReached();
    var s := OneElement();
    ReachEnter(s, 0);
    var s' := s.(pcs := s.pcs[0 := Entering(0)]);
    ReachEnter(s', 1);
    assert s'.pcs[1 := Entering(0)] == BothIn().pcs;
  }

  lemma FirstOutReached()
    ensures Reachable(FirstOut())
  {
    hide Reachable;
    BothInReached();
    ReachTicket(BothIn(), 0);
    var a: State<nat> := State([7], 1, 1, 0, 0, [SawTailAgain(0, 0, 1), Entering(0), Idle], [Undecided(0)], []);
    assert a.pcs == BothIn().pcs[0 := SawTailAgain(0, 0, 1)] && a.fates == [] + [Undecided(0)];
    FirstClaims();
    ReachDequeue(a, 0);
    ReachDequeue(Dequeue(a, 0), 0);
  }

  lemma FirstClaims()
    ensures var a: State<nat> := State([7], 1, 1, 0, 0, [SawTailAgain(0, 0, 1), Entering(0), Idle], [Undecided(0)], []);
            Dequeue(a, 0).pcs == [Claimed(0), Entering(0), Idle] && Dequeue(Dequeue(a, 0), 0) == FirstOut()
  {
    var a: State<nat> := State([7], 1, 1, 0, 0, [SawTailAgain(0, 0, 1), Entering(0), Idle], [Undecided(0)], []);
    var b: State<nat> := State([7], 1, 1, 0, 1, [Claimed(0), Entering(0), Idle], [Won], [InHand(0)]);
    assert a.fates[0 := Won] == [Won] && a.pcs[0 := Claimed(0)] == b.pcs && a.holders + [InHand(0)] == b.holders;
    assert Dequeue(a, 0) == b;
    assert b.holders[0 := Returned(7)] == [Returned(7)] && b.pcs[0 := Idle] == FirstOut().pcs;
  }

  lemma SecondLateReached()
    ensures Reachable(SecondLate())
  {
    hide Reachable;
    FirstOutReached();
    ReachTicket(FirstOut(), 1);
    assert FirstOut().pcs[1 := SawTailAgain(0, 1, 1)] == SecondLate().pcs;
    assert FirstOut().fates + [Undecided(1)] == SecondLate().fates;
  }

  lemma SlowLoserReached()
    ensures Reachable(SlowLoser())
  {
    hide Reachable;
    SecondLateReached();
    ReachPut(SecondLate(), 8);
    var s := SecondLate().(slots := [7, 8], tail := 2);
    assert [7] + [8] == [7, 8] && [7, 8] + [9] == [7, 8, 9];
    ReachPut(s, 9);
    var s' := s.(slots := [7, 8, 9], tail := 3);
    ReachEnter(s', 0);
    assert s'.pcs[0 := Entering(0)] == SlowLoser().pcs;
  }

  /** From there on: the third dequeuer enters, the second reports its loss, the first claims an element,
      and the third fails on a ticket one too high for the overcommit it read. */
  function Failing(): seq<State<nat>> {
    var s0 := SlowLoser();
    var p1 := SawTailAgain(0, 1, 1);
    var s1 := s0.(pcs := [Entering(0), p1, SawTail(3)]);
    var s2 := s0.(pcs := [Entering(0), p1, SawOvercommit(3, 0)]);
    var s3 := s0.(pcs := [Entering(0), p1, Entering(0)]);
    var s4 := s0.(pcs := [Entering(0), Idle, Entering(0)], overcommit := 1, fates := [Won, Lost]);
    var s5 := s4.(pcs := [Ticketed(0, 2), Idle, Entering(0)], optimistic := 3, fates := [Won, Lost, Undecided(0)]);
    var s6 := s5.(pcs := [SawTailAgain(0, 2, 3), Idle, Entering(0)]);
    var s7 := s6.(pcs := [Claimed(1), Idle, Entering(0)], head := 2, fates := [Won, Lost, Won],
                  holders := [Returned(7), InHand(0)]);
    var s8 := s7.(pcs := [Claimed(1), Idle, Ticketed(0, 3)], optimistic := 4, fates := [Won, Lost, Won, Undecided(2)]);
    var s9 := s8.(pcs := [Claimed(1), Idle, SawTailAgain(0, 3, 3)]);
    var s10 := s9.(pcs := [Claimed(1), Idle, Idle], overcommit := 2, fates := [Won, Lost, Won, Lost]);
    [s0, s1, s2, s3, s4, s5, s6, s7, s8, s9, s10]
  }

  function Mover(i: nat): nat {
    if i < 3 || i >= 7 then 2 else if i == 3 then 1 else 0
  }

  lemma FailingSteps(i: nat)
    requires i < 10
    ensures Failing()[i + 1] == Dequeue(Failing()[i], Mover(i))
  {
    var s, s' := Failing()[i], Failing()[i + 1];
    assert |s.pcs| == 3 && s'.pcs == Dequeue(s, Mover(i)).pcs;
    assert s'.fates == Dequeue(s, Mover(i)).fates && s'.holders == Dequeue(s, Mover(i)).holders;
  }

  lemma FailingShape(i: nat)
    requires i <= 10
    ensures var s := Failing()[i];
            s.head < s.tail && |s.pcs| == 3 && (s.pcs[2] == Idle <==> i == 0 || i == 10)
  {
  }

  lemma FailingEnds()
    ensures var part := Failing();
            part[0] == SlowLoser() && part[9].pcs == [Claimed(1), Idle, SawTailAgain(0, 3, 3)]
            && part[10].head == part[9].head && part[10].holders == part[9].holders
  {
  }

  /** A dequeue can fail although the queue is never empty while it is inside: it found three published
      elements with one claimed, leaves three with two claimed, and there was one for it at every moment. */
  lemma FailsOnNonEmpty()
    ensures var part := Failing();
            |part| == 11 && Reachable(part[0])
            && (forall i :: 0 <= i < 10 ==> Next(part[i], part[i + 1]))
            && (forall i :: 0 <= i <= 10 ==>
                  part[i].head < part[i].tail && |part[i].pcs| == 3 && (part[i].pcs[2] == Idle <==> i == 0 || i == 10))
            && part[9].pcs[2] == SawTailAgain(0, 3, 3) && part[10] == Dequeue(part[9], 2)
            && part[10].head == part[9].head && part[10].holders == part[9].holders
  {
    assert |Failing()| == 11;
    hide Failing, Dequeue, Reachable;
    SlowLoserReached();
    FailingEnds();
    forall i | 0 <= i <= 10
      ensures var s := Failing()[i]; s.head < s.tail && |s.pcs| == 3 && (s.pcs[2] == Idle <==> i == 0 || i == 10)
    {
      FailingShape(i);
    }
    forall i | 0 <= i < 10 ensures Next(Failing()[i], Failing()[i + 1]) {
      FailingSteps(i);
      MoverIs(i);
      assert |Failing()[i].pcs| == 3;
      DequeueIsNext(Failing()[i], Mover(i));
    }
    FailingSteps(9);
  }

  lemma MoverIs(i: nat)
    ensures Mover(i) < 3
  {
  }

  lemma DequeueIsNext(s: State<nat>, t: nat)
    requires t < |s.pcs|
    ensures Next(s, Dequeue(s, t))
  {
    hide Dequeue;
  }
}
