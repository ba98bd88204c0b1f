/** The worker's thread pool: BlockingConcurrentQueue (src/90s/lib/blockingqueue.h, lines 123-144 and
    358-367) and the round trip of a task through it (src/90s/context.cpp, lines 67-100, 249-267, 530-550).
    The event loop, any number of pool threads, and whoever completes a created task take steps in any
    order. The semaphore appears as a count of permits, which PoolSemaphore refines; the inner queue and the
    mailbox as what TicketQueue and Mailbox prove of them: elements leave once, mail arrives once and in order. */
module ThreadPool {
  import opened Common

  /** A function with its argument, and what a call of it may return. */
  type Work = nat
  type Value = nat

  datatype Task = Task(id: nat, work: Work)

  /** The result of running some work, or one given to complete_task. */
  datatype Result = Of(work: Work, value: Value) | Given(value: Value)

  datatype Completion = Completion(task: nat, result: Result)

  /** A thread of the pool. Spinning is the retry loop of wait_dequeue. */
  datatype Pc = Waiting | Spinning | Running(task: Task) | Finished(task: Task, result: Result)

  /** The event loop inside exec_async: before the enqueue, or between the enqueue and the signal. */
  datatype Loop = AtRest | Enqueuing(task: Task) | Signalling

  /** `works[id]` is the work of task `id`, none for one made by create_task. `erasing` is a task whose
      promise is being resolved: the entry goes after the resumed coroutine returns. `done`, `resolved` and
      `expired` are history: tasks whose completion arrived, resolutions, promises found gone. */
  datatype State = State(
    works: seq<Option<Work>>, promises: set<nat>, queue: seq<Task>, permits: nat,
    loop: Loop, erasing: Option<nat>, pcs: seq<Pc>, mail: seq<Completion>,
    done: seq<nat>, resolved: seq<Completion>, expired: set<nat>)

  // ---------- the steps ----------

  ghost predicate ExecAsync(s: State, s': State) {
    s.loop.AtRest?
    && exists work: Work :: s' == s.(works := s.works + [Some(work)], promises := s.promises + {|s.works|},
                                     loop := Enqueuing(Task(|s.works|, work)))
  }

  predicate CreateTask(s: State, s': State) {
    s.loop.AtRest? && s' == s.(works := s.works + [None], promises := s.promises + {|s.works|})
  }

  /** The two halves of enqueue. */
  predicate Enqueue(s: State, s': State) {
    match s.loop
    case Enqueuing(task) => s' == s.(queue := s.queue + [task], loop := Signalling)
    case Signalling => s' == s.(permits := s.permits + 1, loop := AtRest)
    case AtRest => false
  }

  /** on_message for the oldest completion; `alive` if the weak promise can still be locked. */
  function OnMessage(s: State, alive: bool): State
    requires s.mail != []
  {
    var c := s.mail[0];
    var s' := s.(mail := s.mail[1..], done := s.done + [c.task]);
    if c.task !in s.promises then s'
    else if alive then s'.(resolved := s.resolved + [c], erasing := Some(c.task))
    else s'.(promises := s.promises - {c.task}, expired := s.expired + {c.task})
  }

  predicate Receive(s: State, s': State, alive: bool) {
    s.loop.AtRest? && s.erasing.None? && s.mail != [] && s' == OnMessage(s, alive)
  }

  predicate Erase(s: State, s': State) {
    s.loop.AtRest? && s.erasing.Some? && s' == s.(promises := s.promises - {s.erasing.value}, erasing := None)
  }

  /** A pool thread. A dequeue may fail although there is something; else it takes element `i`. */
  predicate Pool(s: State, s': State, p: nat, i: nat, value: Value) {
    p < |s.pcs|
    && match s.pcs[p] {
         case Waiting => s.permits > 0 && s' == s.(permits := s.permits - 1, pcs := s.pcs[p := Spinning])
         case Spinning =>
           s' == s || (i < |s.queue|
                       && s' == s.(queue := s.queue[..i] + s.queue[i + 1..], pcs := s.pcs[p := Running(s.queue[i])]))
         case Running(task) => s' == s.(pcs := s.pcs[p := Finished(task, Of(task.work, value))])
         case Finished(task, result) =>
           s' == s.(mail := s.mail + [Completion(task.id, result)], pcs := s.pcs[p := Waiting])
       }
  }

  /** complete_task, from any thread, as often as its caller likes. */
  predicate CompleteTask(s: State, s': State, id: nat, value: Value) {
    id < |s.works| && s.works[id].None? && s' == s.(mail := s.mail + [Completion(id, Given(value))])
  }

  ghost predicate Init(s: State) {
    s == State([], {}, [], 0, AtRest, None, s.pcs, [], [], [], {})
    && forall p :: 0 <= p < |s.pcs| ==> s.pcs[p] == Waiting
  }

  ghost predicate Next(s: State, s': State) {
    ExecAsync(s, s') || CreateTask(s, s') || Enqueue(s, s') || Erase(s, s')
    || (exists alive :: Receive(s, s', alive))
    || (exists p: nat, i: nat, value: Value :: Pool(s, s', p, i, value))
    || (exists id: nat, value: Value :: CompleteTask(s, s', id, value))
  }

  ghost predicate IsRun(run: seq<State>) {
    run != [] && Init(run[0]) && forall i :: 0 <= i < |run| - 1 ==> Next(run[i], run[i + 1])
  }

  // ---------- the invariant ----------

  /** What a pool thread has: a permit it has not used, or a task. */
  datatype Load = Nothing | Permit | Has(id: nat)

  function LoadOf(pc: Pc): Load {
    match pc
    case Waiting => Nothing
    case Spinning => Permit
    case Running(task) => Has(task.id)
    case Finished(task, _) => Has(task.id)
  }

  function Loads(pcs: seq<Pc>): seq<Load> {
    seq(|pcs|, p requires 0 <= p < |pcs| => LoadOf(pcs[p]))
  }

  function Spinners(pcs: seq<Pc>): nat {
    multiset(Loads(pcs))[Permit]
  }

  function QueuedIds(queue: seq<Task>): seq<nat> {
    seq(|queue|, i requires 0 <= i < |queue| => queue[i].id)
  }

  function MailedIds(mail: seq<Completion>): seq<nat> {
    seq(|mail|, i requires 0 <= i < |mail| => mail[i].task)
  }

  function InLoop(loop: Loop): multiset<nat> {
    if loop.Enqueuing? then multiset{loop.task.id} else multiset{}
  }

  /** In how many places task `id` is. */
  function Places(s: State, id: nat): nat {
    InLoop(s.loop)[id] + multiset(QueuedIds(s.queue))[id] + multiset(Loads(s.pcs))[Has(id)]
    + multiset(MailedIds(s.mail))[id] + multiset(s.done)[id]
  }

  predicate IsPooled(works: seq<Option<Work>>, id: nat) {
    id < |works| && works[id].Some?
  }

  /** Every unit of the queue is matched by a permit, by a thread that took one, or by the signal to come. */
  predicate Balanced(s: State) {
    |s.queue| == s.permits + Spinners(s.pcs) + if s.loop.Signalling? then 1 else 0
  }

  predicate TaskOk(works: seq<Option<Work>>, task: Task) {
    task.id < |works| && works[task.id] == Some(task.work)
  }

  /** A completion carries the result of the task's own work, or was given for a created task. */
  predicate CompletionOk(works: seq<Option<Work>>, c: Completion) {
    c.task < |works|
    && match works[c.task] {
         case Some(work) => c.result.Of? && c.result.work == work
         case None => c.result.Given?
       }
  }

  predicate PcOk(works: seq<Option<Work>>, pc: Pc) {
    match pc
    case Running(task) => TaskOk(works, task)
    case Finished(task, result) => TaskOk(works, task) && CompletionOk(works, Completion(task.id, result))
    case _ => true
  }

  predicate OwnResults(s: State) {
    (s.loop.Enqueuing? ==> TaskOk(s.works, s.loop.task))
    && (forall i :: 0 <= i < |s.queue| ==> TaskOk(s.works, s.queue[i]))
    && (forall p :: 0 <= p < |s.pcs| ==> PcOk(s.works, s.pcs[p]))
    && (forall i :: 0 <= i < |s.mail| ==> CompletionOk(s.works, s.mail[i]))
    && (forall i :: 0 <= i < |s.resolved| ==> CompletionOk(s.works, s.resolved[i]))
  }

  /** A pooled task is in exactly one place. */
  ghost predicate OnePlace(s: State) {
    forall id: nat :: IsPooled(s.works, id) ==> Places(s, id) == 1
  }

  predicate IsResolved(s: State, id: nat) {
    exists i :: 0 <= i < |s.resolved| && s.resolved[i].task == id
  }

  ghost predicate PromisesOk(s: State) {
    (forall id :: id in s.promises ==> id < |s.works|)
    && (forall i :: 0 <= i < |s.done| ==> s.done[i] < |s.works|)
    && (s.erasing.Some? ==> s.erasing.value in s.promises)
    && (forall i :: 0 <= i < |s.resolved| && s.resolved[i].task in s.promises ==> s.erasing == Some(s.resolved[i].task))
    && (forall i, j :: 0 <= i < j < |s.resolved| ==> s.resolved[i].task != s.resolved[j].task)
    && (forall id: nat :: IsPooled(s.works, id) ==>
          if id in s.done then IsResolved(s, id) || id in s.expired else id in s.promises && s.erasing != Some(id))
  }

  ghost predicate Inv(s: State) {
    Balanced(s) && OwnResults(s) && OnePlace(s) && PromisesOk(s)
  }

  // ---------- preservation ----------

  lemma LoadsUpdate(pcs: seq<Pc>, p: nat, pc: Pc)
    requires p < |pcs|
    ensures multiset(Loads(pcs[p := pc])) == multiset(Loads(pcs)) - multiset{LoadOf(pcs[p])} + multiset{LoadOf(pc)}
    ensures LoadOf(pcs[p]) in multiset(Loads(pcs))
  {
    assert Loads(pcs[p := pc]) == Loads(pcs)[p := LoadOf(pc)];
    assert Loads(pcs)[p] == LoadOf(pcs[p]);
  }

  lemma LoadCount(pcs: seq<Pc>, p: nat, pc: Pc, x: Load)
    requires p < |pcs|
    ensures multiset(Loads(pcs[p := pc]))[x] + (if LoadOf(pcs[p]) == x then 1 else 0)
         == multiset(Loads(pcs))[x] + (if LoadOf(pc) == x then 1 else 0)
  {
    LoadsUpdate(pcs, p, pc);
    hide Loads, LoadOf;
  }

  lemma QueueTake(queue: seq<Task>, i: nat)
    requires i < |queue|
    ensures multiset(QueuedIds(queue)) == multiset(QueuedIds(queue[..i] + queue[i + 1..])) + multiset{queue[i].id}
  {
    var rest := queue[..i] + queue[i + 1..];
    assert QueuedIds(queue) == QueuedIds(queue)[..i] + [queue[i].id] + QueuedIds(queue)[i + 1..];
    assert QueuedIds(rest) == QueuedIds(queue)[..i] + QueuedIds(queue)[i + 1..];
  }

  lemma QueuePut(queue: seq<Task>, task: Task)
    ensures QueuedIds(queue + [task]) == QueuedIds(queue) + [task.id]
  {
  }

  lemma MailPut(mail: seq<Completion>, c: Completion)
    ensures MailedIds(mail + [c]) == MailedIds(mail) + [c.task]
  {
  }

  lemma MailTake(mail: seq<Completion>)
    requires mail != []
    ensures multiset(MailedIds(mail)) == multiset{mail[0].task} + multiset(MailedIds(mail[1..]))
  {
    assert MailedIds(mail) == [mail[0].task] + MailedIds(mail[1..]);
  }

  /** Tasks numbered `|works|` or more do not exist yet. */
  lemma NewTask(s: State)
    requires OwnResults(s) && PromisesOk(s)
    ensures Places(s, |s.works|) == 0 && |s.works| !in s.promises && !IsResolved(s, |s.works|)
  {
    var id := |s.works|;
    assert id !in QueuedIds(s.queue) && id !in MailedIds(s.mail) && Has(id) !in Loads(s.pcs) && id !in s.done;
  }

  lemma ExecInv(s: State, s': State)
    requires Inv(s) && ExecAsync(s, s')
    ensures Inv(s')
  {
    NewTask(s);
    hide Spinners;
    forall id: nat | IsPooled(s'.works, id) ensures Places(s', id) == 1 {
      if id < |s.works| { assert IsPooled(s.works, id); }
    }
    assert PromisesOk(s') by { NewPromise(s, s'); }
  }

  lemma NewPromise(s: State, s': State)
    requires OwnResults(s) && PromisesOk(s) && |s'.works| == |s.works| + 1 && s.works <= s'.works
    requires s'.promises == s.promises + {|s.works|} && s'.erasing == s.erasing && s'.resolved == s.resolved
    requires s'.done == s.done && s'.expired == s.expired
    ensures PromisesOk(s')
  {
    NewTask(s);
    hide Places, OwnResults;
    forall id: nat | IsPooled(s'.works, id)
      ensures if id in s'.done then IsResolved(s', id) || id in s'.expired else id in s'.promises && s'.erasing != Some(id)
    {
      if id < |s.works| {
        assert IsPooled(s.works, id);
      }
    }
  }

  lemma CreateInv(s: State, s': State)
    requires Inv(s) && CreateTask(s, s')
    ensures Inv(s')
  {
    NewTask(s);
    hide Spinners;
    forall id: nat | IsPooled(s'.works, id) ensures Places(s', id) == 1 { assert IsPooled(s.works, id); }
    assert PromisesOk(s') by { NewPromise(s, s'); }
  }

  lemma EnqueueInv(s: State, s': State)
    requires Inv(s) && Enqueue(s, s')
    ensures Inv(s')
  {
    hide Spinners, PcOk, CompletionOk;
    if s.loop.Enqueuing? { QueuePut(s.queue, s.loop.task); }
    forall id: nat | IsPooled(s'.works, id) ensures Places(s', id) == 1 { assert Places(s, id) == 1; }
    assert PromisesOk(s') by { hide OwnResults, OnePlace; PromisesKept(s, s'); }
  }

  lemma PromisesKept(s: State, s': State)
    requires PromisesOk(s) && s'.works == s.works && s'.promises == s.promises && s'.erasing == s.erasing
    requires s'.resolved == s.resolved && s'.done == s.done && s'.expired == s.expired
    ensures PromisesOk(s')
  {
    forall id: nat | IsPooled(s'.works, id)
      ensures if id in s'.done then IsResolved(s', id) || id in s'.expired else id in s'.promises && s'.erasing != Some(id)
    {
      assert IsPooled(s.works, id);
    }
  }

  lemma EraseInv(s: State, s': State)
    requires Inv(s) && Erase(s, s')
    ensures Inv(s')
  {
    hide Spinners, PcOk, CompletionOk;
    forall id: nat | IsPooled(s'.works, id) ensures Places(s', id) == 1 { assert Places(s, id) == 1; }
    hide OwnResults, OnePlace, Places;
    forall id: nat | IsPooled(s'.works, id)
      ensures if id in s'.done then IsResolved(s', id) || id in s'.expired else id in s'.promises && s'.erasing != Some(id)
    {
      assert IsPooled(s.works, id);
    }
  }

  lemma ReceivePlaces(s: State, s': State, alive: bool, id: nat)
    requires Receive(s, s', alive)
    ensures Places(s', id) == Places(s, id)
  {
    MailTake(s.mail);
  }

  /** A completion arrives: the first for a pooled task, and the task's promise is still there. */
  lemma ReceivePromises(s: State, s': State, alive: bool)
    requires Inv(s) && Receive(s, s', alive)
    ensures PromisesOk(s')
  {
    var c := s.mail[0];
    MailTake(s.mail);
    assert CompletionOk(s.works, c);
    assert IsPooled(s.works, c.task) ==> c.task !in s.done by { assert IsPooled(s.works, c.task) ==> Places(s, c.task) == 1; }
    hide OwnResults, OnePlace, Places, Balanced;
    assert c.task in s.promises ==> !IsResolved(s, c.task);
    forall id: nat | IsPooled(s'.works, id)
      ensures if id in s'.done then IsResolved(s', id) || id in s'.expired else id in s'.promises && s'.erasing != Some(id)
    {
      assert IsPooled(s.works, id);
      ResolvedKept(s, s', alive, id);
    }
  }

  lemma ResolvedKept(s: State, s': State, alive: bool, id: nat)
    requires Receive(s, s', alive)
    ensures IsResolved(s, id) ==> IsResolved(s', id)
    ensures s.mail[0].task in s.promises && alive ==> IsResolved(s', s.mail[0].task)
  {
    if i :| 0 <= i < |s.resolved| && s.resolved[i].task == id { assert s'.resolved[i].task == id; }
    if s.mail[0].task in s.promises && alive { assert s'.resolved[|s.resolved|] == s.mail[0]; }
  }

  lemma ReceiveInv(s: State, s': State, alive: bool)
    requires Inv(s) && Receive(s, s', alive)
    ensures Inv(s')
  {
    ReceivePromises(s, s', alive);
    forall id: nat | IsPooled(s'.works, id) ensures Places(s', id) == 1 {
      assert Places(s, id) == 1;
      ReceivePlaces(s, s', alive, id);
    }
    hide Spinners, PcOk, Places, PromisesOk;
    assert CompletionOk(s.works, s.mail[0]);
  }

  lemma PoolPlaces(s: State, s': State, p: nat, i: nat, value: Value, id: nat)
    requires Pool(s, s', p, i, value)
    ensures Places(s', id) == Places(s, id)
  {
    hide Loads, QueuedIds, MailedIds;
    if s' != s {
      LoadCount(s.pcs, p, s'.pcs[p], Has(id));
      match s.pcs[p]
      case Spinning => QueueTake(s.queue, i);
      case Finished(task, result) => MailPut(s.mail, Completion(task.id, result));
      case _ =>
    }
  }

  lemma PoolBalance(s: State, s': State, p: nat, i: nat, value: Value)
    requires Balanced(s) && Pool(s, s', p, i, value)
    ensures Balanced(s')
  {
    hide Loads;
    if s' != s { LoadCount(s.pcs, p, s'.pcs[p], Permit); }
  }

  lemma PoolResults(s: State, s': State, p: nat, i: nat, value: Value)
    requires OwnResults(s) && Pool(s, s', p, i, value)
    ensures OwnResults(s')
  {
    assert PcOk(s.works, s.pcs[p]);
    if i < |s.queue| { assert TaskOk(s.works, s.queue[i]); }
  }

  lemma PoolInv(s: State, s': State, p: nat, i: nat, value: Value)
    requires Inv(s) && Pool(s, s', p, i, value)
    ensures Inv(s')
  {
    PoolBalance(s, s', p, i, value);
    PoolResults(s, s', p, i, value);
    assert PromisesOk(s') by { PromisesKept(s, s'); }
    hide Balanced, OwnResults, PromisesOk, Places;
    forall id: nat | IsPooled(s'.works, id) ensures Places(s', id) == 1 {
      assert Places(s, id) == 1;
      PoolPlaces(s, s', p, i, value, id);
    }
  }

  lemma CompleteInv(s: State, s': State, id: nat, value: Value)
    requires Inv(s) && CompleteTask(s, s', id, value)
    ensures Inv(s')
  {
    MailPut(s.mail, Completion(id, Given(value)));
    assert PromisesOk(s') by { hide OwnResults, OnePlace; PromisesKept(s, s'); }
    hide Spinners, PcOk, PromisesOk, MailedIds;
    forall t: nat | IsPooled(s'.works, t) ensures Places(s', t) == 1 { assert Places(s, t) == 1; }
  }

  lemma InitInv(s: State)
    requires Init(s)
    ensures Inv(s)
  {
    assert Permit !in Loads(s.pcs);
  }

  lemma NextInv(s: State, s': State)
    requires Inv(s) && Next(s, s')
    ensures Inv(s')
  {
    hide Inv, ExecAsync, CreateTask, Enqueue, Erase, Receive, Pool, CompleteTask;
    if ExecAsync(s, s') {
      ExecInv(s, s');
    } else if CreateTask(s, s') {
      CreateInv(s, s');
    } else if Enqueue(s, s') {
      EnqueueInv(s, s');
    } else if Erase(s, s') {
      EraseInv(s, s');
    } else if alive :| Receive(s, s', alive) {
      ReceiveInv(s, s', alive);
    } else if p: nat, i: nat, value: Value :| Pool(s, s', p, i, value) {
      PoolInv(s, s', p, i, value);
    } else {
      var id: nat, value: Value :| CompleteTask(s, s', id, value);
      CompleteInv(s, s', id, value);
    }
  }

  lemma {:induction false} RunInv(run: seq<State>, i: nat)
    requires IsRun(run) && i < |run|
    ensures Inv(run[i])
  {
    if i == 0 {
      InitInv(run[0]);
    } else {
      RunInv(run, i - 1);
      NextInv(run[i - 1], run[i]);
    }
  }

  // ---------- what follows ----------

  /** A thread in the retry loop of wait_dequeue always has something to dequeue: the queue holds at least
      one element for each such thread and each free permit. */
  lemma NeverSpinsOnEmpty(run: seq<State>, i: nat, p: nat)
    requires IsRun(run) && i < |run| && p < |run[i].pcs| && run[i].pcs[p].Spinning?
    ensures run[i].queue != [] && |run[i].queue| >= run[i].permits + Spinners(run[i].pcs)
  {
    RunInv(run, i);
    LoadsUpdate(run[i].pcs, p, Waiting);
  }

  /** A promise is resolved at most once, a pooled one with a result of its own work; each pooled task is
      queued, run, mailed or delivered in exactly one place, and a delivered one reached its promise unless
      nobody held it any more. */
  ghost predicate Safe(s: State) {
    (forall i, j :: 0 <= i < j < |s.resolved| ==> s.resolved[i].task != s.resolved[j].task)
    && (forall i :: 0 <= i < |s.resolved| ==> CompletionOk(s.works, s.resolved[i]))
    && (forall id: nat :: IsPooled(s.works, id) ==> Places(s, id) == 1)
    && (forall id: nat :: IsPooled(s.works, id) && id in s.done ==> IsResolved(s, id) || id in s.expired)
  }

  lemma RunSafe(run: seq<State>, i: nat)
    requires IsRun(run) && i < |run|
    ensures Safe(run[i])
  {
    RunInv(run, i);
    hide Places, CompletionOk;
  }

  /** When all is quiet, every exec_async promise that anyone still held has been resolved. */
  lemma QuietIsDone(run: seq<State>, i: nat, id: nat)
    requires IsRun(run) && i < |run| && IsPooled(run[i].works, id)
    requires run[i].loop.AtRest? && run[i].queue == [] && run[i].mail == []
    requires forall p :: 0 <= p < |run[i].pcs| ==> run[i].pcs[p] == Waiting
    ensures IsResolved(run[i], id) || id in run[i].expired
  {
    var s := run[i];
    RunInv(run, i);
    assert Places(s, id) == 1;
    assert Has(id) !in Loads(s.pcs);
  }
}
