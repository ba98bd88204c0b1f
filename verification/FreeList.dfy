/** The reference-counted free list of src/90s/lib/concurrentqueue.h (lines 1449-1550): a stack linked
    through the nodes, changed by compare-and-swap, where a node's reference count decides when its
    next pointer may be rewritten. One atomic operation a step, any number of threads and nodes. */
module FreeList {
  import opened Common

  /** freeListRefs: the SHOULD_BE_ON_FREELIST bit and the count below it. */
  datatype Refs = Refs(flag: bool, count: nat)

  /** What a thread does once add_knowing_refcount_is_zero returns: it leaves add, or goes on with the
      loop of try_get and the head its failed swap saw. */
  datatype After = Finished | Retry(head: Option<nat>)

  datatype Pc =
    | Idle
    | AddStart(node: nat)
    | AddLoad(node: nat, after: After)
    | AddNext(node: nat, seen: Option<nat>, after: After)
    | AddRefs(node: nat, seen: Option<nat>, after: After)
    | AddSwap(node: nat, seen: Option<nat>, after: After)
    | AddUndo(node: nat, seen: Option<nat>, after: After)
    | GetLoad
    | GetRefs(node: nat)
    | GetRaise(node: nat, refs: Refs)
    | GetNext(node: nat)
    | GetSwap(node: nat, next: Option<nat>)
    | GetDrop(node: nat)
    | GetUndo(node: nat, seen: Option<nat>)

  /** Who is in charge of a node, or that its memory was given back: a history variable. */
  datatype Charge =
    | Owned
    | Leaving(thread: nat)
    | Adding(thread: nat)
    | Listed
    | Pending
    | Taken(thread: nat)
    | Destroyed

  /** `list` is the chain that starts at `head`; it and `charge` are history variables. `dynamic` are the
      nodes that are not part of the initial pool. */
  datatype State = State(
    head: Option<nat>, refs: seq<Refs>, next: seq<Option<nat>>, dynamic: seq<bool>,
    pcs: seq<Pc>,
    list: seq<nat>, charge: seq<Charge>)

  // ---------- the steps ----------

  /** The loop guard of try_get: on a null head it returns null. */
  function Loop(head: Option<nat>): Pc {
    if head.None? then Idle else GetRefs(head.value)
  }

  function Return(after: After): Pc {
    match after
    case Finished => Idle
    case Retry(head) => Loop(head)
  }

  /** The node a thread's next operation is about. */
  function Subject(pc: Pc): Option<nat> {
    if pc.Idle? || pc.GetLoad? then None else Some(pc.node)
  }

  /** What one operation can read and write besides the head: its thread, and its node's fields. */
  datatype Local = Local(pc: Pc, refs: Refs, next: Option<nat>, charge: Charge)

  /** What it does to the list. */
  datatype Move = Stay | Push | Pop

  function Lower(n: nat, amount: nat): nat {
    if n >= amount then n - amount else 0
  }

  /** One atomic operation of thread `t` on node `n`, with the current head. */
  function Effect(l: Local, head: Option<nat>, t: nat, n: nat): Local {
    match l.pc
    case AddStart(_) =>
      if l.refs == Refs(false, 0) then l.(refs := Refs(true, 0), charge := Adding(t), pc := AddLoad(n, Finished))
      else l.(refs := Refs(true, l.refs.count), charge := Pending, pc := Idle)
    case AddLoad(_, after) => l.(pc := AddNext(n, head, after))
    case AddNext(_, seen, after) => l.(next := seen, pc := AddRefs(n, seen, after))
    case AddRefs(_, seen, after) => l.(refs := Refs(false, 1), pc := AddSwap(n, seen, after))
    case AddSwap(_, seen, after) =>
      if head == seen then l.(charge := Listed, pc := Return(after)) else l.(pc := AddUndo(n, head, after))
    case AddUndo(_, seen, after) =>
      var lowered := l.(refs := Refs(true, Lower(l.refs.count, 1)));
      if l.refs == Refs(false, 1) then lowered.(pc := AddNext(n, seen, after))
      else lowered.(charge := Pending, pc := Return(after))
    case GetRefs(_) => l.(pc := if l.refs.count == 0 then GetLoad else GetRaise(n, l.refs))
    case GetRaise(_, refs) =>
      if l.refs == refs then l.(refs := Refs(refs.flag, refs.count + 1), pc := GetNext(n)) else l.(pc := GetLoad)
    case GetNext(_) => l.(pc := GetSwap(n, l.next))
    case GetSwap(_, next) =>
      if head == Some(n) then l.(charge := Taken(t), pc := GetDrop(n)) else l.(pc := GetUndo(n, head))
    case GetDrop(_) => l.(refs := Refs(l.refs.flag, Lower(l.refs.count, 2)), charge := Owned, pc := Idle)
    case GetUndo(_, seen) =>
      var lowered := l.(refs := Refs(l.refs.flag, Lower(l.refs.count, 1)));
      if l.refs == Refs(true, 1) then lowered.(charge := Adding(t), pc := AddLoad(n, Retry(seen)))
      else lowered.(pc := Loop(seen))
    case _ => l
  }

  /** A compare-and-swap on the head that succeeds moves the node. */
  function Moves(pc: Pc, head: Option<nat>, n: nat): Move {
    if pc.AddSwap? && head == pc.seen then Push
    else if pc.GetSwap? && head == Some(n) then Pop
    else Stay
  }

  predicate InRange(s: State, t: nat) {
    t < |s.pcs| && s.pcs[t] != Idle && |s.refs| == |s.next| == |s.charge|
    && (Subject(s.pcs[t]).Some? ==> Subject(s.pcs[t]).value < |s.refs|)
  }

  function At(s: State, t: nat, n: nat): Local
    requires t < |s.pcs| && n < |s.refs| == |s.next| == |s.charge|
  {
    Local(s.pcs[t], s.refs[n], s.next[n], s.charge[n])
  }

  function Put(s: State, t: nat, n: nat, l: Local): State
    requires t < |s.pcs| && n < |s.refs| == |s.next| == |s.charge|
  {
    s.(pcs := s.pcs[t := l.pc], refs := s.refs[n := l.refs], next := s.next[n := l.next], charge := s.charge[n := l.charge])
  }

  function Apply(s: State, pc: Pc, m: Move): State {
    match m
    case Stay => s
    case Push => if pc.AddSwap? then s.(head := Some(pc.node), list := [pc.node] + s.list) else s
    case Pop => if pc.GetSwap? && s.list != [] then s.(head := pc.next, list := s.list[1..]) else s
  }

  /** The next atomic operation of thread `t`, inside add or try_get. */
  function Do(s: State, t: nat): State
    requires InRange(s, t)
  {
    var pc := s.pcs[t];
    match Subject(pc)
    case None => s.(pcs := s.pcs[t := Loop(s.head)])
    case Some(n) => Apply(Put(s, t, n, Effect(At(s, t, n), s.head, t, n)), pc, Moves(pc, s.head, n))
  }

  /** add_block_to_free_list: a node of the initial pool goes to the list, any other is destroyed. */
  function GiveUp(s: State, t: nat, n: nat): State
    requires t < |s.pcs| && n < |s.charge| && n < |s.dynamic|
  {
    if s.dynamic[n] then s.(charge := s.charge[n := Destroyed])
    else s.(pcs := s.pcs[t := AddStart(n)], charge := s.charge[n := Leaving(t)])
  }

  /** A thread that is not inside the list calls try_get, or gives up a node it owns. */
  ghost predicate Start(s: State, s': State, t: nat) {
    t < |s.pcs| && s.pcs[t] == Idle
    && (s' == s.(pcs := s.pcs[t := GetLoad])
        || exists n: nat :: n < |s.charge| && n < |s.dynamic| && s.charge[n] == Owned && s' == GiveUp(s, t, n))
  }

  ghost predicate Init(s: State) {
    s.head == None && s.list == [] && |s.refs| == |s.next| == |s.charge| == |s.dynamic|
    && (forall t :: 0 <= t < |s.pcs| ==> s.pcs[t] == Idle)
    && forall n :: 0 <= n < |s.refs| ==> s.refs[n] == Refs(false, 0) && s.next[n] == None && s.charge[n] == Owned
  }

  ghost predicate Next(s: State, s': State) {
    exists t: nat :: Start(s, s', t) || (InRange(s, t) && s' == Do(s, t))
  }

  ghost predicate IsRun(run: seq<State>) {
    run != [] && Init(run[0]) && forall i :: 0 <= i < |run| - 1 ==> Next(run[i], run[i + 1])
  }

  // ---------- counting references ----------

  /** Between raising and dropping the count, a thread holds a reference to the node. */
  predicate Holds(pc: Pc, n: nat) {
    (pc.GetNext? || pc.GetSwap? || pc.GetDrop? || pc.GetUndo?) && pc.node == n
  }

  function One(b: bool): nat {
    if b then 1 else 0
  }

  function Holders(pcs: seq<Pc>, n: nat): nat {
    if pcs == [] then 0
    else Holders(pcs[..|pcs| - 1], n) + One(Holds(pcs[|pcs| - 1], n))
  }

  lemma {:induction false} HoldersUpdate(pcs: seq<Pc>, t: nat, pc: Pc, n: nat)
    requires t < |pcs|
    ensures Holders(pcs[t := pc], n) == Holders(pcs, n) - One(Holds(pcs[t], n)) + One(Holds(pc, n))
    ensures Holders(pcs, n) >= One(Holds(pcs[t], n))
  {
    var last := |pcs| - 1;
    if t < last {
      HoldersUpdate(pcs[..last], t, pc, n);
      assert pcs[t := pc][..last] == pcs[..last][t := pc];
    } else {
      assert pcs[t := pc][..last] == pcs[..last];
    }
  }

  lemma {:induction false} NoHolders(pcs: seq<Pc>, n: nat)
    requires forall t :: 0 <= t < |pcs| ==> !Holds(pcs[t], n)
    ensures Holders(pcs, n) == 0
  {
    if pcs != [] { NoHolders(pcs[..|pcs| - 1], n); }
  }

  lemma {:induction false} SomeHolder(pcs: seq<Pc>, n: nat) returns (t: nat)
    requires Holders(pcs, n) > 0
    ensures t < |pcs| && Holds(pcs[t], n)
  {
    t := |pcs| - 1;
    if !Holds(pcs[t], n) { t := SomeHolder(pcs[..t], n); }
  }

  // ---------- the invariant, thread by thread and node by node ----------

  predicate AddsBeforeStore(pc: Pc, n: nat) {
    (pc.AddLoad? || pc.AddNext? || pc.AddRefs?) && pc.node == n
  }

  predicate AddsAfterStore(pc: Pc, n: nat) {
    (pc.AddSwap? || pc.AddUndo?) && pc.node == n
  }

  predicate InNodes(head: Option<nat>, size: nat) {
    head.Some? ==> head.value < size
  }

  predicate AfterOk(after: After, size: nat) {
    after.Retry? ==> InNodes(after.head, size)
  }

  /** What a thread knows about itself and its node. */
  predicate ThreadFits(l: Local, t: nat, size: nat) {
    match l.pc
    case AddStart(_) => l.charge == Leaving(t)
    case AddLoad(_, after) => l.charge == Adding(t) && l.refs == Refs(true, 0) && AfterOk(after, size)
    case AddNext(_, _, after) => l.charge == Adding(t) && l.refs == Refs(true, 0) && AfterOk(after, size)
    case AddRefs(_, seen, after) =>
      l.charge == Adding(t) && l.refs == Refs(true, 0) && l.next == seen && AfterOk(after, size)
    case AddSwap(_, seen, after) => l.charge == Adding(t) && !l.refs.flag && l.next == seen && AfterOk(after, size)
    case AddUndo(_, _, after) => l.charge == Adding(t) && !l.refs.flag && AfterOk(after, size)
    case GetRaise(_, refs) => refs.count > 0
    case GetSwap(_, next) => l.next == next
    case GetDrop(_) => l.charge == Taken(t)
    case GetUndo(_, seen) => InNodes(seen, size)
    case _ => true
  }

  predicate ThreadOk(s: State, t: nat)
    requires t < |s.pcs| && |s.refs| == |s.next| == |s.charge|
  {
    match Subject(s.pcs[t])
    case None => true
    case Some(n) => n < |s.refs| && ThreadFits(At(s, t, n), t, |s.refs|)
  }

  function Keeper(c: Charge): Option<nat> {
    if c.Leaving? || c.Adding? || c.Taken? then Some(c.thread) else None
  }

  /** What a charge means for the node's references, and for the thread it names. */
  predicate ChargeFits(c: Charge, refs: Refs, keeper: Pc, n: nat) {
    match c
    case Owned => !refs.flag
    case Destroyed => !refs.flag
    case Leaving(_) => keeper == AddStart(n) && !refs.flag
    case Adding(_) => if refs.flag then AddsBeforeStore(keeper, n) && refs.count == 0 else AddsAfterStore(keeper, n)
    case Listed => !refs.flag
    case Pending => refs.flag && refs.count > 0
    case Taken(_) => keeper == GetDrop(n) && !refs.flag
  }

  /** The reference the list itself has, or that the adder has already stored for it. */
  function ListRefs(c: Charge, keeper: Pc, n: nat): nat {
    One(c.Listed? || c.Taken? || (c.Adding? && AddsAfterStore(keeper, n)))
  }

  function KeeperPc(c: Charge, pcs: seq<Pc>): Pc {
    if Keeper(c).Some? && Keeper(c).value < |pcs| then pcs[Keeper(c).value] else Idle
  }

  predicate NodeOk(s: State, n: nat)
    requires n < |s.refs| == |s.charge|
  {
    var c, keeper := s.charge[n], KeeperPc(s.charge[n], s.pcs);
    ChargeFits(c, s.refs[n], keeper, n)
    && s.refs[n].count == Holders(s.pcs, n) + ListRefs(c, keeper, n)
  }

  /** Following the next pointers from `head` visits exactly `list`, and ends. */
  predicate Chain(head: Option<nat>, list: seq<nat>, next: seq<Option<nat>>)
    decreases |list|
  {
    if list == [] then head == None
    else head == Some(list[0]) && list[0] < |next| && Chain(next[list[0]], list[1..], next)
  }

  /** The list holds the listed nodes, each once. */
  predicate Members(list: seq<nat>, charge: seq<Charge>) {
    (forall n :: n in list ==> n < |charge| && charge[n] == Listed)
    && (forall n :: 0 <= n < |charge| && charge[n] == Listed ==> n in list)
    && forall i, j :: 0 <= i < j < |list| ==> list[i] != list[j]
  }

  predicate ListOk(s: State) {
    Chain(s.head, s.list, s.next) && Members(s.list, s.charge)
  }

  ghost predicate Inv(s: State) {
    |s.refs| == |s.next| == |s.charge| && ListOk(s)
    && (forall n: nat :: n < |s.refs| ==> NodeOk(s, n))
    && (forall t: nat :: t < |s.pcs| ==> ThreadOk(s, t))
  }

  // ---------- one operation, seen from its thread and node ----------

  /** How an operation of `t` may change the fields of its node. */
  predicate Allowed(l: Local, l': Local, t: nat) {
    (l'.charge == l.charge || l.charge in {Leaving(t), Adding(t), Taken(t), Listed, Pending})
    && Keeper(l'.charge) in {Keeper(l.charge), Some(t), None}
    && (l'.next == l.next || (l.charge == Adding(t) && l.refs.count == 0))
    && (l.charge != Adding(t) && l.charge != Leaving(t) ==>
          l'.refs.flag == l.refs.flag && (l'.refs == l.refs || l.refs.count > 0))
  }

  /** The heart of the argument, on values only. `other` is the thread in charge if it is not `t`, and
      `others` the references held by other threads. */
  lemma EffectFits(l: Local, head: Option<nat>, t: nat, n: nat, other: Pc, others: nat, size: nat)
    requires Subject(l.pc) == Some(n) && n < size && InNodes(head, size) && ThreadFits(l, t, size)
    requires var keeper := if Keeper(l.charge) == Some(t) then l.pc else other;
             ChargeFits(l.charge, l.refs, keeper, n)
             && l.refs.count == others + One(Holds(l.pc, n)) + ListRefs(l.charge, keeper, n)
    requires head == Some(n) ==> l.charge == Listed
    ensures var l' := Effect(l, head, t, n);
            var keeper := if Keeper(l'.charge) == Some(t) then l'.pc else other;
            ChargeFits(l'.charge, l'.refs, keeper, n)
            && l'.refs.count == others + One(Holds(l'.pc, n)) + ListRefs(l'.charge, keeper, n)
            && (Subject(l'.pc) == Some(n) ==> ThreadFits(l', t, size))
            && (Subject(l'.pc).Some? ==> Subject(l'.pc).value < size)
            && (Subject(l'.pc).Some? && Subject(l'.pc) != Some(n) ==> l'.pc.GetRefs?)
            && Allowed(l, l', t)
            && (l'.charge == Listed <==> if Moves(l.pc, head, n).Push? then true
                                         else if Moves(l.pc, head, n).Pop? then false else l.charge == Listed)
            && (Moves(l.pc, head, n).Push? ==> l.charge != Listed && l'.next == head)
            && (Moves(l.pc, head, n).Pop? ==> l.next == l.pc.next && l'.next == l.next)
            && (l.charge == Listed ==> l'.next == l.next)
  {
  }

  // ---------- preservation ----------

  /** Another node does not notice. */
  lemma OtherNode(s: State, t: nat, n: nat, l: Local, m: nat)
    requires t < |s.pcs| && n < |s.refs| == |s.next| == |s.charge| && m < |s.refs| && m != n
    requires Subject(s.pcs[t]) in {Some(n), None} && !Holds(l.pc, m) && NodeOk(s, m)
    ensures NodeOk(Put(s, t, n, l), m)
  {
    HoldersUpdate(s.pcs, t, l.pc, m);
  }

  /** Another thread keeps what it knows. */
  lemma OtherThread(s: State, t: nat, n: nat, l: Local, u: nat)
    requires t < |s.pcs| && n < |s.refs| == |s.next| == |s.charge| && u < |s.pcs| && u != t
    requires Allowed(At(s, t, n), l, t) && ThreadOk(s, u) && NodeOk(s, n)
    ensures ThreadOk(Put(s, t, n, l), u)
  {
    HoldersUpdate(s.pcs, u, Idle, n);
  }

  lemma {:induction false} ChainFrame(head: Option<nat>, list: seq<nat>, next: seq<Option<nat>>, n: nat, x: Option<nat>)
    requires Chain(head, list, next) && n < |next| && n !in list
    ensures Chain(head, list, next[n := x])
    decreases |list|
  {
    if list != [] {
      assert list[0] in list;
      ChainFrame(next[list[0]], list[1..], next, n, x);
    }
  }

  lemma PutList(s: State, t: nat, n: nat, l: Local)
    requires t < |s.pcs| && n < |s.refs| == |s.next| == |s.charge| && ListOk(s)
    requires (l.charge == Listed <==> s.charge[n] == Listed) && (s.charge[n] == Listed ==> l.next == s.next[n])
    ensures ListOk(Put(s, t, n, l))
  {
    if s.charge[n] == Listed {
      assert s.next[n := l.next] == s.next;
    } else {
      ChainFrame(s.head, s.list, s.next, n, l.next);
    }
  }

  /** The swap of add links the node in front. */
  lemma PushList(s: State, t: nat, n: nat, l: Local)
    requires t < |s.pcs| && n < |s.refs| == |s.next| == |s.charge| && ListOk(s)
    requires s.charge[n] != Listed && l.charge == Listed && l.next == s.head
    ensures ListOk(Put(s, t, n, l).(head := Some(n), list := [n] + s.list))
  {
    ChainFrame(s.head, s.list, s.next, n, l.next);
    assert ([n] + s.list)[1..] == s.list;
  }

  /** The swap of try_get unlinks the first node. */
  lemma PopList(s: State, t: nat, n: nat, l: Local)
    requires t < |s.pcs| && n < |s.refs| == |s.next| == |s.charge| && ListOk(s)
    requires s.head == Some(n) && l.charge != Listed && l.next == s.next[n]
    ensures s.list != [] && ListOk(Put(s, t, n, l).(head := l.next, list := s.list[1..]))
  {
    var rest := s.list[1..];
    assert s.list == [n] + rest;
    assert forall m :: m in rest ==> m in s.list;
    assert n !in rest;
    assert forall i :: 0 <= i < |rest| ==> rest[i] == s.list[i + 1];
    ChainFrame(s.next[n], s.list[1..], s.next, n, l.next);
  }

  lemma HeadInNodes(s: State)
    requires ListOk(s)
    ensures InNodes(s.head, |s.charge|)
  {
    if s.list != [] { assert s.list[0] in s.list; }
  }

  lemma HeadFacts(s: State, n: nat)
    requires ListOk(s) && |s.refs| == |s.charge| && n < |s.refs|
    ensures InNodes(s.head, |s.refs|) && (s.head == Some(n) ==> s.charge[n] == Listed)
  {
    if s.list != [] { assert s.list[0] in s.list; }
  }

  /** Head and list are seen by no thread and no node. */
  lemma HeadUnseen(s: State, head: Option<nat>, list: seq<nat>)
    requires |s.refs| == |s.next| == |s.charge|
    ensures var s' := s.(head := head, list := list);
            (forall n: nat :: n < |s.refs| && NodeOk(s, n) ==> NodeOk(s', n))
            && (forall t: nat :: t < |s.pcs| && ThreadOk(s, t) ==> ThreadOk(s', t))
  {
  }

  lemma SubjectInv(s: State, t: nat, n: nat)
    requires Inv(s) && InRange(s, t) && Subject(s.pcs[t]) == Some(n)
    ensures Inv(Do(s, t))
  {
    var l, l' := At(s, t, n), Effect(At(s, t, n), s.head, t, n);
    var mid := Put(s, t, n, l');
    var keeper := KeeperPc(s.charge[n], s.pcs);
    assert ThreadOk(s, t) && NodeOk(s, n);
    HoldersUpdate(s.pcs, t, l'.pc, n);
    HeadFacts(s, n);
    EffectFits(l, s.head, t, n, keeper, Holders(s.pcs, n) - One(Holds(s.pcs[t], n)), |s.refs|);
    EffectSubject(l, s.head, t, n);
    hide Effect, ThreadFits, ChargeFits, Holders, ListOk;
    assert NodeOk(mid, n);
    assert ThreadOk(mid, t) by { GetRefsFits(mid, t, n); }
    forall m: nat | m < |mid.refs| ensures NodeOk(mid, m) {
      if m != n { OtherNode(s, t, n, l', m); }
    }
    forall u: nat | u < |mid.pcs| ensures ThreadOk(mid, u) {
      if u != t { OtherThread(s, t, n, l', u); }
    }
    MoveInv(s, t, n);
  }

  /** A thread that goes on with another node has not touched it yet. */
  lemma GetRefsFits(s: State, t: nat, n: nat)
    requires t < |s.pcs| && n < |s.refs| == |s.next| == |s.charge|
    requires Subject(s.pcs[t]) == Some(n) ==> ThreadFits(At(s, t, n), t, |s.refs|)
    requires Subject(s.pcs[t]).Some? ==> Subject(s.pcs[t]).value < |s.refs|
    requires Subject(s.pcs[t]).Some? && Subject(s.pcs[t]) != Some(n) ==> s.pcs[t].GetRefs?
    ensures ThreadOk(s, t)
  {
  }

  lemma EffectSubject(l: Local, head: Option<nat>, t: nat, n: nat)
    requires Subject(l.pc) == Some(n)
    ensures forall m :: Holds(Effect(l, head, t, n).pc, m) ==> m == n
    ensures Moves(l.pc, head, n).Push? ==> l.pc.AddSwap?
    ensures Moves(l.pc, head, n).Pop? ==> l.pc.GetSwap? && head == Some(n)
  {
  }

  lemma MoveInv(s: State, t: nat, n: nat)
    requires Inv(s) && InRange(s, t) && Subject(s.pcs[t]) == Some(n)
    requires var l, l' := At(s, t, n), Effect(At(s, t, n), s.head, t, n);
             var move := Moves(l.pc, s.head, n);
             (l'.charge == Listed <==> if move.Push? then true else if move.Pop? then false else l.charge == Listed)
             && (move.Push? ==> l.pc.AddSwap? && l.charge != Listed && l'.next == s.head)
             && (move.Pop? ==> l.pc.GetSwap? && s.head == Some(n) && l.next == l.pc.next && l'.next == l.next)
             && (l.charge == Listed ==> l'.next == l.next)
    requires var mid := Put(s, t, n, Effect(At(s, t, n), s.head, t, n));
             (forall m: nat :: m < |mid.refs| ==> NodeOk(mid, m))
             && (forall u: nat :: u < |mid.pcs| ==> ThreadOk(mid, u))
    ensures Inv(Do(s, t))
  {
    var l' := Effect(At(s, t, n), s.head, t, n);
    var mid := Put(s, t, n, l');
    hide Effect, NodeOk, ThreadOk;
    HeadUnseen(mid, Do(s, t).head, Do(s, t).list);
    match Moves(s.pcs[t], s.head, n)
    case Stay => PutList(s, t, n, l');
    case Push => PushList(s, t, n, l');
    case Pop => PopList(s, t, n, l');
  }

  lemma LoadInv(s: State, t: nat)
    requires Inv(s) && InRange(s, t) && s.pcs[t].GetLoad?
    ensures Inv(Do(s, t))
  {
    var s' := Do(s, t);
    forall m: nat | m < |s'.refs| ensures NodeOk(s', m) {
      assert NodeOk(s, m);
      HoldersUpdate(s.pcs, t, s'.pcs[t], m);
    }
    HeadInNodes(s);
    forall u: nat | u < |s'.pcs| ensures ThreadOk(s', u) { assert ThreadOk(s, u); }
  }

  lemma GetInv(s: State, t: nat)
    requires Inv(s) && t < |s.pcs| && s.pcs[t] == Idle
    ensures Inv(s.(pcs := s.pcs[t := GetLoad]))
  {
    var s' := s.(pcs := s.pcs[t := GetLoad]);
    hide ListOk;
    forall m: nat | m < |s'.refs| ensures NodeOk(s', m) {
      assert NodeOk(s, m);
      HoldersUpdate(s.pcs, t, GetLoad, m);
    }
    forall u: nat | u < |s'.pcs| ensures ThreadOk(s', u) { assert ThreadOk(s, u); }
  }

  /** Someone else's node does not change, and an owned one is in no thread's charge. */
  lemma OwnedNodeChanges(s: State, n: nat, c: Charge)
    requires ListOk(s) && n < |s.charge| && s.charge[n] == Owned && c != Listed
    ensures ListOk(s.(charge := s.charge[n := c]))
  {
    hide Chain;
  }

  lemma AddInv(s: State, t: nat, n: nat)
    requires Inv(s) && t < |s.pcs| && s.pcs[t] == Idle && n < |s.charge| && s.charge[n] == Owned
    ensures Inv(s.(pcs := s.pcs[t := AddStart(n)], charge := s.charge[n := Leaving(t)]))
  {
    var s' := s.(pcs := s.pcs[t := AddStart(n)], charge := s.charge[n := Leaving(t)]);
    OwnedNodeChanges(s, n, Leaving(t));
    assert ListOk(s');
    hide ListOk;
    forall m: nat | m < |s'.refs| ensures NodeOk(s', m) {
      assert NodeOk(s, m);
      HoldersUpdate(s.pcs, t, AddStart(n), m);
    }
    forall u: nat | u < |s'.pcs| ensures ThreadOk(s', u) { assert ThreadOk(s, u); }
  }

  lemma DestroyInv(s: State, n: nat)
    requires Inv(s) && n < |s.charge| && s.charge[n] == Owned
    ensures Inv(s.(charge := s.charge[n := Destroyed]))
  {
    var s' := s.(charge := s.charge[n := Destroyed]);
    OwnedNodeChanges(s, n, Destroyed);
    hide ListOk;
    forall m: nat | m < |s'.refs| ensures NodeOk(s', m) { assert NodeOk(s, m); }
    forall u: nat | u < |s'.pcs| ensures ThreadOk(s', u) { assert ThreadOk(s, u); }
  }

  lemma StartInv(s: State, s': State, t: nat)
    requires Inv(s) && Start(s, s', t)
    ensures Inv(s')
  {
    hide Inv;
    if s' == s.(pcs := s.pcs[t := GetLoad]) {
      GetInv(s, t);
    } else {
      var n: nat :| n < |s.charge| && n < |s.dynamic| && s.charge[n] == Owned && s' == GiveUp(s, t, n);
      if s.dynamic[n] { DestroyInv(s, n); } else { AddInv(s, t, n); }
    }
  }

  lemma InitInv(s: State)
    requires Init(s)
    ensures Inv(s)
  {
    forall n: nat | n < |s.refs| ensures NodeOk(s, n) { NoHolders(s.pcs, n); }
  }

  lemma NextInv(s: State, s': State)
    requires Inv(s) && Next(s, s')
    ensures Inv(s')
  {
    var t: nat :| Start(s, s', t) || (InRange(s, t) && s' == Do(s, t));
    if Start(s, s', t) {
      StartInv(s, s', t);
    } else if s.pcs[t].GetLoad? {
      LoadInv(s, t);
    } else {
      SubjectInv(s, t, s.pcs[t].node);
    }
  }

  lemma {:induction false} RunInv(run: seq<State>, i: nat)
    requires IsRun(run) && i < |run|
    ensures Inv(run[i])
  {
    if i == 0 {
      InitInv(run[0]);
    } else {
      RunInv(run, i - 1);
      NextInv(run[i - 1], run[i]);
    }
  }

  // ---------- what follows ----------

  /** Exactly one party is in charge of every node: its owner, the list, one thread that is adding or
      taking it, or, while it is pending, the threads whose references keep it pending. */
  ghost predicate Safe(s: State) {
    Chain(s.head, s.list, s.next) && Members(s.list, s.charge)
    && (forall t, u, n :: 0 <= t < |s.pcs| && 0 <= u < |s.pcs| && Works(s.pcs[t], n) && Works(s.pcs[u], n) ==> t == u)
    && (forall n: nat :: n < |s.charge| == |s.refs| && s.charge[n] == Pending ==>
          s.refs[n].flag && exists t :: 0 <= t < |s.pcs| && Releases(s.pcs[t], n))
    && (forall t :: 0 <= t < |s.pcs| && s.pcs[t].GetDrop? ==>
          s.pcs[t].node < |s.refs| && !s.refs[s.pcs[t].node].flag && s.refs[s.pcs[t].node].count >= 2)
    && (forall t :: 0 <= t < |s.pcs| && (s.pcs[t].AddStart? || s.pcs[t].AddUndo?) ==>
          s.pcs[t].node < |s.refs| && !s.refs[s.pcs[t].node].flag)
  }

  /** Inside add, inside add_knowing_refcount_is_zero, or about to return the node from try_get. */
  predicate Works(pc: Pc, n: nat) {
    pc == AddStart(n) || AddsBeforeStore(pc, n) || AddsAfterStore(pc, n) || pc == GetDrop(n)
  }

  /** Will drop a reference to the node, and add the node if that is the last one. */
  predicate Releases(pc: Pc, n: nat) {
    (pc.GetNext? || pc.GetSwap? || pc.GetUndo?) && pc.node == n
  }

  lemma WorkerInCharge(s: State, t: nat, n: nat)
    requires Inv(s) && t < |s.pcs| && Works(s.pcs[t], n)
    ensures n < |s.charge| && Keeper(s.charge[n]) == Some(t)
  {
    assert ThreadOk(s, t);
  }

  lemma PendingHasReleaser(s: State, n: nat) returns (t: nat)
    requires Inv(s) && n < |s.charge| && s.charge[n] == Pending
    ensures s.refs[n].flag && t < |s.pcs| && Releases(s.pcs[t], n)
  {
    assert NodeOk(s, n);
    t := SomeHolder(s.pcs, n);
    assert ThreadOk(s, t);
  }

  /** The assertion of line 1494, and the reason the bit can be set by adding. */
  lemma BitIsClear(s: State, t: nat)
    requires Inv(s) && t < |s.pcs| && (s.pcs[t].AddStart? || s.pcs[t].AddUndo? || s.pcs[t].GetDrop?)
    ensures s.pcs[t].node < |s.refs| && !s.refs[s.pcs[t].node].flag
    ensures s.pcs[t].GetDrop? ==> s.refs[s.pcs[t].node].count >= 2
  {
    var n := s.pcs[t].node;
    assert ThreadOk(s, t);
    assert NodeOk(s, n);
    HoldersUpdate(s.pcs, t, Idle, n);
  }

  lemma InvSafe(s: State)
    requires Inv(s)
    ensures Safe(s)
  {
    forall t, u, n | 0 <= t < |s.pcs| && 0 <= u < |s.pcs| && Works(s.pcs[t], n) && Works(s.pcs[u], n) ensures t == u {
      WorkerInCharge(s, t, n);
      WorkerInCharge(s, u, n);
    }
    forall n: nat | n < |s.charge| == |s.refs| && s.charge[n] == Pending
      ensures s.refs[n].flag && exists t :: 0 <= t < |s.pcs| && Releases(s.pcs[t], n)
    {
      var t := PendingHasReleaser(s, n);
    }
    forall t | 0 <= t < |s.pcs| && (s.pcs[t].AddStart? || s.pcs[t].AddUndo? || s.pcs[t].GetDrop?)
      ensures s.pcs[t].node < |s.refs| && !s.refs[s.pcs[t].node].flag
      ensures s.pcs[t].GetDrop? ==> s.refs[s.pcs[t].node].count >= 2
    {
      BitIsClear(s, t);
    }
  }

  lemma RunSafe(run: seq<State>, i: nat)
    requires IsRun(run) && i < |run|
    ensures Safe(run[i])
  {
    RunInv(run, i);
    InvSafe(run[i]);
  }

  /** No ABA: a successful swap of try_get takes the first node and leaves exactly the rest. */
  lemma SwapTakesTheFirst(s: State, t: nat)
    requires Inv(s) && InRange(s, t) && s.pcs[t].GetSwap? && s.head == Some(s.pcs[t].node)
    ensures s.list != [] && s.list[0] == s.pcs[t].node
    ensures var s' := Do(s, t);
            s'.list == s.list[1..] && s'.head == s.next[s.list[0]] && s'.charge == s.charge[s.list[0] := Taken(t)]
  {
    assert ThreadOk(s, t);
  }

  // ---------- the list never sees freed memory ----------

  /** A node of the initial pool, which lives as long as the queue. */
  predicate Pooled(node: Option<nat>, dynamic: seq<bool>) {
    node.Some? ==> node.value < |dynamic| && !dynamic[node.value]
  }

  /** The nodes a thread has a pointer to. */
  function Seen(pc: Pc): Option<nat> {
    if pc.AddNext? || pc.AddRefs? || pc.AddSwap? || pc.AddUndo? || pc.GetUndo? then pc.seen
    else if pc.GetSwap? then pc.next
    else None
  }

  function GoesOn(pc: Pc): Option<nat> {
    if (pc.AddLoad? || pc.AddNext? || pc.AddRefs? || pc.AddSwap? || pc.AddUndo?) && pc.after.Retry? then pc.after.head
    else None
  }

  predicate PcPooled(pc: Pc, dynamic: seq<bool>) {
    Pooled(Subject(pc), dynamic) && Pooled(Seen(pc), dynamic) && Pooled(GoesOn(pc), dynamic)
  }

  predicate NodePooled(s: State, n: nat)
    requires n < |s.next| == |s.charge| == |s.dynamic|
  {
    Pooled(s.next[n], s.dynamic) && (s.charge[n] == Destroyed ==> s.dynamic[n])
  }

  ghost predicate AllPooled(s: State) {
    |s.refs| == |s.next| == |s.charge| == |s.dynamic| && Pooled(s.head, s.dynamic)
    && (forall t: nat :: t < |s.pcs| ==> PcPooled(s.pcs[t], s.dynamic))
    && (forall n: nat :: n < |s.next| ==> NodePooled(s, n))
  }

  /** An operation reads and writes only pointers to pooled nodes. */
  lemma EffectPooled(l: Local, head: Option<nat>, t: nat, n: nat, dynamic: seq<bool>)
    requires Subject(l.pc) == Some(n) && PcPooled(l.pc, dynamic) && Pooled(head, dynamic) && Pooled(l.next, dynamic)
    ensures var l' := Effect(l, head, t, n);
            PcPooled(l'.pc, dynamic) && Pooled(l'.next, dynamic) && (l'.charge == Destroyed ==> l.charge == Destroyed)
  {
  }

  lemma DoPooled(s: State, t: nat)
    requires AllPooled(s) && InRange(s, t)
    ensures AllPooled(Do(s, t)) && Do(s, t).dynamic == s.dynamic
  {
    assert PcPooled(s.pcs[t], s.dynamic);
    if s.pcs[t].GetLoad? {
      hide Effect, NodePooled;
      var s' := Do(s, t);
      forall m: nat | m < |s'.next| ensures NodePooled(s', m) { SameNode(s, s', m); }
    } else {
      var n := s.pcs[t].node;
      assert NodePooled(s, n);
      EffectPooled(At(s, t, n), s.head, t, n, s.dynamic);
      hide Effect, PcPooled;
      assert Pooled(Seen(s.pcs[t]), s.dynamic) && Pooled(Subject(s.pcs[t]), s.dynamic) by { PointersPooled(s.pcs[t], s.dynamic); }
      var s' := Do(s, t);
      forall m: nat | m < |s'.next| ensures NodePooled(s', m) { assert NodePooled(s, m); }
    }
  }

  lemma PointersPooled(pc: Pc, dynamic: seq<bool>)
    requires PcPooled(pc, dynamic)
    ensures Pooled(Seen(pc), dynamic) && Pooled(Subject(pc), dynamic)
  {
  }

  lemma SameNode(s: State, s': State, m: nat)
    requires m < |s.next| == |s.charge| == |s.dynamic| && s'.next == s.next && s'.charge == s.charge
    requires s'.dynamic == s.dynamic && NodePooled(s, m)
    ensures NodePooled(s', m)
  {
  }

  lemma StartPooled(s: State, s': State, t: nat)
    requires AllPooled(s) && Start(s, s', t)
    ensures AllPooled(s') && s'.dynamic == s.dynamic
  {
    forall m: nat | m < |s'.next| ensures NodePooled(s', m) { assert NodePooled(s, m); }
  }

  lemma NextPooled(s: State, s': State)
    requires AllPooled(s) && Next(s, s')
    ensures AllPooled(s') && s'.dynamic == s.dynamic
  {
    hide AllPooled, Start, Do;
    var t: nat :| Start(s, s', t) || (InRange(s, t) && s' == Do(s, t));
    if Start(s, s', t) { StartPooled(s, s', t); } else { DoPooled(s, t); }
  }

  lemma InitPooled(s: State)
    requires Init(s)
    ensures AllPooled(s)
  {
  }

  lemma {:induction false} RunPooled(run: seq<State>, i: nat)
    requires IsRun(run) && i < |run|
    ensures AllPooled(run[i]) && run[i].dynamic == run[0].dynamic
  {
    hide AllPooled, Next, Init;
    if i == 0 {
      InitPooled(run[0]);
    } else {
      RunPooled(run, i - 1);
      NextPooled(run[i - 1], run[i]);
    }
  }

  /** A node is in the list, or some thread has a pointer to it. */
  ghost predicate InUse(s: State, n: nat) {
    n in s.list || exists t :: 0 <= t < |s.pcs| && Some(n) in {Subject(s.pcs[t]), Seen(s.pcs[t]), GoesOn(s.pcs[t])}
  }

  lemma {:induction false} ChainPooled(s: State, head: Option<nat>, list: seq<nat>, n: nat)
    requires AllPooled(s) && Pooled(head, s.dynamic) && Chain(head, list, s.next) && n in list
    ensures n < |s.dynamic| && !s.dynamic[n]
    decreases |list|
  {
    if n != list[0] {
      assert NodePooled(s, list[0]);
      ChainPooled(s, s.next[list[0]], list[1..], n);
    }
  }

  /** What the free list assumes of its clients: a node it can still reach is never destroyed. */
  lemma NeverFreed(run: seq<State>, i: nat, n: nat, j: nat)
    requires IsRun(run) && i < |run| && InUse(run[i], n) && j < |run|
    ensures n < |run[j].charge| && run[j].charge[n] != Destroyed
  {
    var s := run[i];
    RunInv(run, i);
    RunPooled(run, i);
    RunPooled(run, j);
    if n in s.list {
      ChainPooled(s, s.head, s.list, n);
    } else {
      var t :| 0 <= t < |s.pcs| && Some(n) in {Subject(s.pcs[t]), Seen(s.pcs[t]), GoesOn(s.pcs[t])};
      assert PcPooled(s.pcs[t], s.dynamic);
    }
    assert NodePooled(run[j], n);
  }
}
