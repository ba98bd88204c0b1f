/** The blocking queue's semaphore in the thread pool (src/90s/lib/blockingqueue.h, lines 123-144 and 358-367):
    pool threads inside LightweightSemaphore::wait and the event loop inside signal, one atomic operation a
    step, do to the pool what its model says of permits. */
module PoolSemaphore {
  import Semaphore
  import ThreadPool

  /** The pool, whose own count of permits is not used, and the semaphore. Thread `p` of the semaphore is
      pool thread `p`; the last one is the event loop. */
  datatype State = State(pool: ThreadPool.State, sema: Semaphore.State)

  /** Permits signalled and not yet acquired, wherever they are. */
  function Free(m: Semaphore.State): nat {
    Semaphore.Positive(m.shared.count) + m.shared.tokens + Semaphore.Pending(m.pcs)
  }

  function Abstract(s: State): ThreadPool.State {
    s.pool.(permits := Free(s.sema))
  }

  // ---------- the steps ----------

  /** A pool thread calls wait, again if it returned without a permit. */
  predicate Wait(s: State, s': State, p: nat) {
    p < |s.pool.pcs| && p < |s.sema.pcs| && s.pool.pcs[p].Waiting? && s.sema.pcs[p].Idle?
    && s' == s.(sema := s.sema.(pcs := s.sema.pcs[p := Semaphore.TryLoad(1, Semaphore.ThenWait(Semaphore.Forever))]))
  }

  function Acquired(pool: ThreadPool.State, p: nat): ThreadPool.State {
    if p < |pool.pcs| then pool.(pcs := pool.pcs[p := ThreadPool.Spinning]) else pool
  }

  /** The next operation inside the semaphore; a thread that gets its permit goes on to the queue. */
  predicate Operate(s: State, s': State, t: nat, chance: Semaphore.Chance, spins: nat) {
    t < |s.sema.pcs| && !s.sema.pcs[t].Idle? && s'.sema == Semaphore.Do(s.sema, t, chance, spins)
    && s'.pool == if s'.sema.shared.acquired > s.sema.shared.acquired then Acquired(s.pool, t) else s.pool
  }

  /** The event loop signals the element it has enqueued. */
  predicate Signal(s: State, s': State) {
    var t := |s.pool.pcs|;
    t < |s.sema.pcs| && s.pool.loop.Signalling? && s.sema.pcs[t].Idle?
    && s' == State(s.pool.(loop := ThreadPool.AtRest), Semaphore.Signal(s.sema, t, 1))
  }

  /** The steps of the pool that do not touch the semaphore. */
  ghost predicate Elsewhere(p: ThreadPool.State, p': ThreadPool.State) {
    ThreadPool.ExecAsync(p, p') || ThreadPool.CreateTask(p, p') || ThreadPool.Erase(p, p')
    || (p.loop.Enqueuing? && ThreadPool.Enqueue(p, p'))
    || (exists alive :: ThreadPool.Receive(p, p', alive))
    || (exists t: nat, i: nat, value: ThreadPool.Value ::
          t < |p.pcs| && !p.pcs[t].Waiting? && ThreadPool.Pool(p, p', t, i, value))
    || (exists id: nat, value: ThreadPool.Value :: ThreadPool.CompleteTask(p, p', id, value))
  }

  ghost predicate Init(s: State) {
    ThreadPool.Init(s.pool) && Semaphore.Init(s.sema) && s.sema.initial == 0 && |s.sema.pcs| == |s.pool.pcs| + 1
  }

  ghost predicate Next(s: State, s': State) {
    (exists p: nat :: Wait(s, s', p))
    || (exists t: nat, chance, spins: nat :: Operate(s, s', t, chance, spins))
    || Signal(s, s')
    || (s'.sema == s.sema && Elsewhere(s.pool, s'.pool))
  }

  ghost predicate IsRun(run: seq<State>) {
    run != [] && Init(run[0]) && forall i :: 0 <= i < |run| - 1 ==> Next(run[i], run[i + 1])
  }

  // ---------- the invariant ----------

  /** Inside wait, for the one permit of waitMany(1). */
  predicate WaitsForOne(pc: Semaphore.Pc) {
    match pc
    case Idle => true
    case Post(_) => false
    case _ => pc.max == 1
  }

  predicate ThreadOk(s: State, p: nat)
    requires p < |s.pool.pcs| && p < |s.sema.pcs|
  {
    WaitsForOne(s.sema.pcs[p]) && (!s.sema.pcs[p].Idle? ==> s.pool.pcs[p].Waiting?)
  }

  ghost predicate Inv(s: State) {
    Semaphore.Inv(s.sema) && |s.sema.pcs| == |s.pool.pcs| + 1
    && (s.sema.pcs[|s.pool.pcs|].Idle? || s.sema.pcs[|s.pool.pcs|].Post?)
    && forall p: nat :: p < |s.pool.pcs| ==> ThreadOk(s, p)
  }

  lemma InitInv(s: State)
    requires Init(s)
    ensures Inv(s) && ThreadPool.Init(Abstract(s))
  {
    Semaphore.AllIdle(s.sema.pcs);
  }

  /** One operation inside wait acquires at most the one permit, and is outside again when it has. */
  lemma EffectOnOne(pc: Semaphore.Pc, m: Semaphore.Shared, chance: Semaphore.Chance, spins: nat)
    requires !pc.Idle? && Semaphore.ThreadOk(pc) && (WaitsForOne(pc) || pc.Post?)
    ensures var (pc', m') := Semaphore.Effect(pc, m, chance, spins);
            (if pc.Post? then (pc'.Post? || pc'.Idle?) && m'.acquired == m.acquired
             else WaitsForOne(pc') && (m'.acquired == m.acquired || (m'.acquired == m.acquired + 1 && pc'.Idle?)))
  {
  }

  lemma FreeIs(m: Semaphore.State)
    requires Semaphore.Conserved(m)
    ensures Free(m) == m.initial + m.shared.signalled - m.shared.acquired
  {
  }

  lemma WaitRefines(s: State, s': State, p: nat)
    requires Inv(s) && Wait(s, s', p)
    ensures Inv(s') && Abstract(s') == Abstract(s)
  {
    assert ThreadOk(s, p);
    var call := Semaphore.TryLoad(1, Semaphore.ThenWait(Semaphore.Forever));
    Semaphore.SumsUpdate(s.sema.pcs, p, call);
    assert Semaphore.Inv(s'.sema);
    forall q: nat | q < |s'.pool.pcs| ensures ThreadOk(s', q) { assert ThreadOk(s, q); }
  }

  lemma SignalRefines(s: State, s': State)
    requires Inv(s) && Signal(s, s')
    ensures Inv(s') && ThreadPool.Enqueue(Abstract(s), Abstract(s'))
  {
    var t := |s.pool.pcs|;
    assert Semaphore.Call(s.sema, s'.sema, t);
    Semaphore.CallInv(s.sema, s'.sema, t);
    FreeIs(s.sema);
    FreeIs(s'.sema);
    forall q: nat | q < |s'.pool.pcs| ensures ThreadOk(s', q) { assert ThreadOk(s, q); }
    hide Semaphore.Inv, Semaphore.Conserved, Free;
  }

  lemma OperateRefines(s: State, s': State, t: nat, chance: Semaphore.Chance, spins: nat)
    requires Inv(s) && Operate(s, s', t, chance, spins)
    ensures Inv(s')
    ensures Abstract(s') == Abstract(s) || exists p: nat, i: nat, value :: ThreadPool.Pool(Abstract(s), Abstract(s'), p, i, value)
  {
    if t < |s.pool.pcs| { assert ThreadOk(s, t); }
    Semaphore.DoInv(s.sema, t, chance, spins);
    EffectOnOne(s.sema.pcs[t], s.sema.shared, chance, spins);
    FreeIs(s.sema);
    FreeIs(s'.sema);
    hide Semaphore.Effect, Semaphore.Conserved, Free;
    forall q: nat | q < |s'.pool.pcs| ensures ThreadOk(s', q) { assert ThreadOk(s, q); }
    if s'.sema.shared.acquired > s.sema.shared.acquired {
      assert ThreadPool.Pool(Abstract(s), Abstract(s'), t, 0, 0);
    }
  }

  /** The other steps do not care about permits. */
  lemma ElsewhereRefines(p: ThreadPool.State, p': ThreadPool.State, permits: nat)
    requires Elsewhere(p, p')
    ensures ThreadPool.Next(p.(permits := permits), p'.(permits := permits))
    ensures |p'.pcs| == |p.pcs| && forall t: nat :: t < |p.pcs| && p.pcs[t].Waiting? ==> p'.pcs[t].Waiting?
  {
    var q, q' := p.(permits := permits), p'.(permits := permits);
    if ThreadPool.ExecAsync(p, p') {
      assert ThreadPool.ExecAsync(q, q');
    } else if ThreadPool.CreateTask(p, p') || ThreadPool.Erase(p, p') {
      assert ThreadPool.CreateTask(q, q') || ThreadPool.Erase(q, q');
    } else if p.loop.Enqueuing? && ThreadPool.Enqueue(p, p') {
      assert ThreadPool.Enqueue(q, q');
    } else if alive :| ThreadPool.Receive(p, p', alive) {
      assert ThreadPool.Receive(q, q', alive);
    } else if t: nat, i: nat, value: ThreadPool.Value :|
      t < |p.pcs| && !p.pcs[t].Waiting? && ThreadPool.Pool(p, p', t, i, value)
    {
      assert ThreadPool.Pool(q, q', t, i, value);
    } else {
      var id: nat, value: ThreadPool.Value :| ThreadPool.CompleteTask(p, p', id, value);
      assert ThreadPool.CompleteTask(q, q', id, value);
    }
  }

  /** Every step is one of the pool, or none. */
  lemma StepRefines(s: State, s': State)
    requires Inv(s) && Next(s, s')
    ensures Inv(s') && (Abstract(s') == Abstract(s) || ThreadPool.Next(Abstract(s), Abstract(s')))
  {
    hide Inv, Wait, Operate, Signal, Elsewhere, Abstract, ThreadPool.Pool, ThreadPool.Enqueue;
    if p: nat :| Wait(s, s', p) {
      WaitRefines(s, s', p);
    } else if t: nat, chance, spins: nat :| Operate(s, s', t, chance, spins) {
      OperateRefines(s, s', t, chance, spins);
    } else if Signal(s, s') {
      SignalRefines(s, s');
    } else {
      ElsewhereInv(s, s');
    }
  }

  lemma ElsewhereInv(s: State, s': State)
    requires Inv(s) && s'.sema == s.sema && Elsewhere(s.pool, s'.pool)
    ensures Inv(s') && ThreadPool.Next(Abstract(s), Abstract(s'))
  {
    ElsewhereRefines(s.pool, s'.pool, Free(s.sema));
    hide Elsewhere, ThreadPool.Next, Semaphore.Inv, Free;
    forall q: nat | q < |s'.pool.pcs| ensures ThreadOk(s', q) { assert ThreadOk(s, q); }
  }

  /** Every run of the pool over its semaphore is a run of the pool: all that is proved of those holds, with
      the permits that were signalled and not acquired. */
  lemma {:induction false} RunRefines(run: seq<State>, i: nat) returns (pools: seq<ThreadPool.State>)
    requires IsRun(run) && i < |run|
    ensures Inv(run[i]) && ThreadPool.IsRun(pools) && pools[|pools| - 1] == Abstract(run[i])
    ensures Abstract(run[i]).permits == run[i].sema.initial + run[i].sema.shared.signalled - run[i].sema.shared.acquired
  {
    if i == 0 {
      InitInv(run[0]);
      pools := [Abstract(run[0])];
    } else {
      pools := RunRefines(run, i - 1);
      StepRefines(run[i - 1], run[i]);
      if Abstract(run[i]) != Abstract(run[i - 1]) { pools := LongerRun(pools, Abstract(run[i])); }
    }
    FreeIs(run[i].sema);
  }

  lemma LongerRun(pools: seq<ThreadPool.State>, next: ThreadPool.State) returns (longer: seq<ThreadPool.State>)
    requires ThreadPool.IsRun(pools) && ThreadPool.Next(pools[|pools| - 1], next)
    ensures ThreadPool.IsRun(longer) && longer[|longer| - 1] == next
  {
    hide ThreadPool.Init, ThreadPool.Next;
    longer := pools + [next];
  }

  /** So a pool thread that got its permit from the semaphore always has an element to dequeue. */
  lemma {:induction false} WakesForElement(run: seq<State>, i: nat, p: nat)
    requires IsRun(run) && i < |run| && p < |run[i].pool.pcs| && run[i].pool.pcs[p].Spinning?
    ensures run[i].pool.queue != []
  {
    var pools := RunRefines(run, i);
    hide IsRun, Inv, ThreadPool.IsRun, Free;
    ThreadPool.NeverSpinsOnEmpty(pools, |pools| - 1, p);
  }
}
