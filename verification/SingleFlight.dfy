/** The single-flight cache (src/90s/cache/cache.hpp, lines 28-86, 97-113 and 123-156): concurrent calls for
    a key share one run of the factory. Calls are coroutines: other calls may run while a factory is
    pending, and, inside a resolve, whatever the resumed caller does. */
module SingleFlight {
  import opened Common

  type Value = nat

  datatype Source = FromCache | FromLeader(leader: nat) | FromFactory

  /** A call of async_cache (or of cache, which returns at once). A leader holds the vector of the calls
      that wait for it; Resolving is its loop over that vector, `left` what remains. */
  datatype Call =
    | Waiting(key: string, leader: nat)
    | Leading(key: string, once: bool, waiters: seq<nat>)
    | Resolving(key: string, once: bool, result: Option<Value>, left: seq<nat>)
    | Returned(key: string, result: Option<Value>, source: Source)

  /** A cached value, and (history) the call whose factory made it. */
  datatype Item = Item(value: Value, maker: nat)

  /** `items` and `races` of the layer, and all calls so far; a race entry names its leader. */
  datatype State = State(items: map<string, Item>, races: map<string, nat>, calls: seq<Call>)

  // ---------- the steps ----------

  /** get: an entry that `stale` says has expired is erased and not found. */
  function Get(s: State, key: string, stale: bool): (State, Option<Value>) {
    if key !in s.items then (s, None)
    else if stale then (s.(items := s.items - {key}), None)
    else (s, Some(s.items[key].value))
  }

  function Set(items: map<string, Item>, key: string, item: Item): map<string, Item> {
    if key in items then items else items[key := item] // emplace does not overwrite
  }

  function Join(call: Call, c: nat): Call {
    if call.Leading? then call.(waiters := call.waiters + [c]) else call
  }

  /** async_cache up to its first suspension; `once` if it expires at once. */
  function Start(s: State, key: string, once: bool, stale: bool): State {
    var (s', found) := Get(s, key, stale);
    var c := |s.calls|;
    if found.Some? then s'.(calls := s.calls + [Returned(key, found, FromCache)])
    else if key in s.races && s.races[key] < c then
      var leader := s.races[key];
      s'.(calls := s.calls[leader := Join(s.calls[leader], c)] + [Waiting(key, leader)])
    else s'.(races := s.races[key := c], calls := s.calls + [Leading(key, once, [])])
  }

  /** The factory's result arrives: the race ends, and the result is cached if there is one. */
  function Finish(s: State, c: nat, result: Option<Value>): State
    requires c < |s.calls| && s.calls[c].Leading?
  {
    var call := s.calls[c];
    State(if result.Some? then Set(s.items, call.key, Item(result.value, c)) else s.items,
          s.races - {call.key}, s.calls[c := Resolving(call.key, call.once, result, call.waiters)])
  }

  /** The next round of the leader's loop, or what follows the loop. */
  function Resolve(s: State, c: nat): State
    requires c < |s.calls| && s.calls[c].Resolving?
  {
    var call := s.calls[c];
    if call.left == [] then
      s.(items := if call.once then s.items - {call.key} else s.items,
         calls := s.calls[c := Returned(call.key, call.result, FromFactory)])
    else if call.left[0] < |s.calls| && call.left[0] != c then
      s.(calls := s.calls[c := call.(left := call.left[1..])]
                         [call.left[0] := Returned(call.key, call.result, FromLeader(c))])
    else s
  }

  /** update and erase, or time. */
  function Evict(s: State, key: string): State {
    s.(items := s.items - {key})
  }

  /** cache, the synchronous sibling on the same layer. */
  function CacheNow(s: State, key: string, stale: bool, result: Option<Value>): State {
    var (s', found) := Get(s, key, stale);
    if found.Some? then s'.(calls := s.calls + [Returned(key, found, FromCache)])
    else s'.(items := if result.Some? then Set(s'.items, key, Item(result.value, |s.calls|)) else s'.items,
             calls := s.calls + [Returned(key, result, FromFactory)])
  }

  predicate Init(s: State) {
    s == State(map[], map[], [])
  }

  ghost predicate Next(s: State, s': State) {
    (exists key, once, stale :: s' == Start(s, key, once, stale))
    || (exists c: nat, result :: c < |s.calls| && s.calls[c].Leading? && s' == Finish(s, c, result))
    || (exists c: nat :: c < |s.calls| && s.calls[c].Resolving? && s' == Resolve(s, c))
    || (exists key :: s' == Evict(s, key))
    || (exists key, stale, result :: s' == CacheNow(s, key, stale, result))
  }

  ghost predicate IsRun(run: seq<State>) {
    run != [] && Init(run[0]) && forall i :: 0 <= i < |run| - 1 ==> Next(run[i], run[i + 1])
  }

  // ---------- the invariant ----------

  /** The calls a call still has to resolve. */
  function Pending(call: Call): seq<nat> {
    match call
    case Leading(_, _, waiters) => waiters
    case Resolving(_, _, _, left) => left
    case _ => []
  }

  predicate Distinct(calls: seq<nat>) {
    forall i, j :: 0 <= i < j < |calls| ==> calls[i] != calls[j]
  }

  /** The call ran the factory for this key with this result. */
  predicate Made(call: Call, key: string, result: Option<Value>) {
    call.key == key && (call.Resolving? || (call.Returned? && call.source.FromFactory?)) && call.result == result
  }

  ghost predicate CallOk(s: State, c: nat)
    requires c < |s.calls|
  {
    var call := s.calls[c];
    Distinct(Pending(call))
    && (forall w :: w in Pending(call) ==> w < |s.calls| && s.calls[w] == Waiting(call.key, c))
    && match call {
         case Waiting(key, leader) => leader < |s.calls| && s.calls[leader].key == key && c in Pending(s.calls[leader])
         case Leading(key, _, _) => key in s.races && s.races[key] == c
         case Resolving(_, _, _, _) => true
         case Returned(key, result, source) =>
           source.FromLeader? ==> source.leader < |s.calls| && Made(s.calls[source.leader], key, result)
       }
  }

  /** A race entry exists exactly while its leader's factory runs; cached values were made for their key. */
  ghost predicate LayerOk(s: State) {
    (forall key :: key in s.races ==> s.races[key] < |s.calls| && s.calls[s.races[key]].Leading? && s.calls[s.races[key]].key == key)
    && (forall key :: key in s.items ==>
          s.items[key].maker < |s.calls| && Made(s.calls[s.items[key].maker], key, Some(s.items[key].value)))
  }

  ghost predicate Inv(s: State) {
    LayerOk(s) && forall c: nat :: c < |s.calls| ==> CallOk(s, c)
  }

  // ---------- preservation ----------

  lemma DistinctSnoc(calls: seq<nat>, c: nat)
    requires Distinct(calls) && c !in calls
    ensures Distinct(calls + [c])
  {
  }

  lemma DistinctTail(calls: seq<nat>)
    requires Distinct(calls) && calls != []
    ensures Distinct(calls[1..]) && calls[0] !in calls[1..]
    ensures forall x :: x in calls <==> x == calls[0] || x in calls[1..]
  {
    assert calls == [calls[0]] + calls[1..];
  }

  /** A call that nothing happened to stays in order if its waiters, its leader and its race do. */
  lemma Undisturbed(s: State, s': State, c: nat)
    requires c < |s.calls| <= |s'.calls| && CallOk(s, c) && s'.calls[c] == s.calls[c]
    requires forall w :: w in Pending(s.calls[c]) ==> s'.calls[w] == s.calls[w]
    requires match s.calls[c]
             case Waiting(key, leader) => s'.calls[leader].key == key && c in Pending(s'.calls[leader])
             case Leading(key, _, _) => key in s'.races && s'.races[key] == c
             case Resolving(_, _, _, _) => true
             case Returned(key, result, source) =>
               source.FromLeader? ==> Made(s'.calls[source.leader], key, result)
    ensures CallOk(s', c)
  {
  }

  /** A new call that waits for nobody, while the layer changes: old calls do not notice. */
  lemma Appended(s: State, s': State, call: Call)
    requires Inv(s) && s'.calls == s.calls + [call] && Pending(call) == [] && !call.Waiting?
    requires call.Returned? ==> !call.source.FromLeader?
    requires call.Leading? ==> call.key in s'.races && s'.races[call.key] == |s.calls|
    requires forall key :: key in s.races ==> key in s'.races && s'.races[key] == s.races[key]
    ensures forall c: nat :: c < |s'.calls| ==> CallOk(s', c)
  {
    forall c: nat | c < |s'.calls| ensures CallOk(s', c) {
      if c < |s.calls| {
        assert CallOk(s, c);
        Undisturbed(s, s', c);
      }
    }
  }

  /** Joining a race. */
  lemma Joined(s: State, key: string)
    requires Inv(s) && key in s.races
    ensures var leader, c := s.races[key], |s.calls|;
            leader < c && Inv(s.(calls := s.calls[leader := Join(s.calls[leader], c)] + [Waiting(key, leader)]))
  {
    var leader, c := s.races[key], |s.calls|;
    var s' := s.(calls := s.calls[leader := Join(s.calls[leader], c)] + [Waiting(key, leader)]);
    assert CallOk(s, leader);
    DistinctSnoc(Pending(s.calls[leader]), c);
    hide Distinct;
    assert Pending(s'.calls[leader]) == Pending(s.calls[leader]) + [c];
    forall d: nat | d < |s'.calls| ensures CallOk(s', d) {
      if d < c {
        assert CallOk(s, d);
        if d != leader { Undisturbed(s, s', d); }
      }
    }
  }

  lemma LayerKept(s: State, s': State)
    requires LayerOk(s) && |s.calls| <= |s'.calls| && s'.races == s.races
    requires forall key :: key in s'.items ==> key in s.items && s'.items[key] == s.items[key]
    requires forall c :: 0 <= c < |s.calls| ==> s'.calls[c] == s.calls[c]
    ensures LayerOk(s')
  {
  }

  lemma EvictInv(s: State, key: string)
    requires Inv(s)
    ensures Inv(Evict(s, key))
  {
    LayerKept(s, Evict(s, key));
    hide LayerOk;
    forall c: nat | c < |s.calls| ensures CallOk(Evict(s, key), c) {
      assert CallOk(s, c);
      Undisturbed(s, Evict(s, key), c);
    }
  }

  lemma StartInv(s: State, key: string, once: bool, stale: bool)
    requires Inv(s)
    ensures Inv(Start(s, key, once, stale))
  {
    var got, found := Get(s, key, stale).0, Get(s, key, stale).1;
    assert got == s || got == Evict(s, key);
    EvictInv(s, key);
    hide LayerOk, CallOk;
    if found.Some? {
      Appended(got, Start(s, key, once, stale), Returned(key, found, FromCache));
      LayerKept(got, Start(s, key, once, stale));
    } else if key in s.races {
      Joined(got, key);
    } else {
      Appended(got, Start(s, key, once, stale), Leading(key, once, []));
      LayerLed(got, key, once);
    }
  }

  lemma LayerLed(s: State, key: string, once: bool)
    requires LayerOk(s)
    ensures LayerOk(s.(races := s.races[key := |s.calls|], calls := s.calls + [Leading(key, once, [])]))
  {
  }

  /** A synchronous miss: the new call made what it stored. */
  lemma LayerStored(s: State, key: string, result: Option<Value>)
    requires LayerOk(s)
    ensures var item := if result.Some? then Set(s.items, key, Item(result.value, |s.calls|)) else s.items;
            LayerOk(s.(items := item, calls := s.calls + [Returned(key, result, FromFactory)]))
  {
  }

  lemma CacheNowInv(s: State, key: string, stale: bool, result: Option<Value>)
    requires Inv(s)
    ensures Inv(CacheNow(s, key, stale, result))
  {
    var s' := CacheNow(s, key, stale, result);
    var got, found := Get(s, key, stale).0, Get(s, key, stale).1;
    assert got == s || got == Evict(s, key);
    EvictInv(s, key);
    hide LayerOk, CallOk;
    if found.Some? {
      Appended(got, s', Returned(key, found, FromCache));
      LayerKept(got, s');
    } else {
      Appended(got, s', Returned(key, result, FromFactory));
      LayerStored(got, key, result);
    }
  }

  lemma FinishInv(s: State, c: nat, result: Option<Value>)
    requires Inv(s) && c < |s.calls| && s.calls[c].Leading?
    ensures Inv(Finish(s, c, result))
  {
    var s' := Finish(s, c, result);
    assert CallOk(s, c);
    forall d: nat | d < |s'.calls| ensures CallOk(s', d) {
      assert CallOk(s, d);
      if d != c { Undisturbed(s, s', d); }
    }
  }

  lemma NextInLine(s: State, c: nat)
    requires Inv(s) && c < |s.calls| && s.calls[c].Resolving? && s.calls[c].left != []
    ensures var w := s.calls[c].left[0]; w < |s.calls| && w != c && s.calls[w] == Waiting(s.calls[c].key, c)
  {
    assert CallOk(s, c);
    assert s.calls[c].left[0] in Pending(s.calls[c]);
  }

  /** A leader's loop resolves a call that is still waiting for it, and takes it off the vector. */
  lemma ResolvedOne(s: State, c: nat)
    requires Inv(s) && c < |s.calls| && s.calls[c].Resolving? && s.calls[c].left != []
    ensures Inv(Resolve(s, c))
  {
    var s', w := Resolve(s, c), s.calls[c].left[0];
    NextInLine(s, c);
    assert CallOk(s, c);
    DistinctTail(s.calls[c].left);
    hide Distinct;
    assert LayerOk(s') by { hide CallOk; }
    hide LayerOk;
    forall d: nat | d < |s'.calls| ensures CallOk(s', d) {
      assert CallOk(s, d);
      if d != c && d != w { Undisturbed(s, s', d); }
    }
  }

  lemma ResolveInv(s: State, c: nat)
    requires Inv(s) && c < |s.calls| && s.calls[c].Resolving?
    ensures Inv(Resolve(s, c))
  {
    if s.calls[c].left != [] {
      ResolvedOne(s, c);
    } else {
      var s' := Resolve(s, c);
      assert CallOk(s, c);
      forall d: nat | d < |s'.calls| ensures CallOk(s', d) {
        assert CallOk(s, d);
        if d != c { Undisturbed(s, s', d); }
      }
    }
  }

  lemma NextInv(s: State, s': State)
    requires Inv(s) && Next(s, s')
    ensures Inv(s')
  {
    hide Inv, Start, Finish, Resolve, Evict, CacheNow;
    if key, once, stale :| s' == Start(s, key, once, stale) {
      StartInv(s, key, once, stale);
    } else if c: nat, result :| c < |s.calls| && s.calls[c].Leading? && s' == Finish(s, c, result) {
      FinishInv(s, c, result);
    } else if c: nat :| c < |s.calls| && s.calls[c].Resolving? && s' == Resolve(s, c) {
      ResolveInv(s, c);
    } else if key :| s' == Evict(s, key) {
      EvictInv(s, key);
    } else {
      var key, stale, result :| s' == CacheNow(s, key, stale, result);
      CacheNowInv(s, key, stale, result);
    }
  }

  lemma {:induction false} RunInv(run: seq<State>, i: nat)
    requires IsRun(run) && i < |run|
    ensures Inv(run[i])
  {
    if i > 0 {
      RunInv(run, i - 1);
      NextInv(run[i - 1], run[i]);
    }
  }

  // ---------- what follows ----------

  predicate Leads(s: State, c: int, key: string) {
    0 <= c < |s.calls| && s.calls[c].Leading? && s.calls[c].key == key
  }

  /** A race entry exists exactly while one factory for its key is in flight, and there is only one. */
  ghost predicate OneFlight(s: State) {
    (forall key :: key in s.races <==> exists c :: Leads(s, c, key))
    && (forall key, c, d :: Leads(s, c, key) && Leads(s, d, key) ==> c == d)
  }

  /** Whoever waits is on the vector of exactly one unfinished leader for its key; and a call resolved by a
      leader has that leader's key and result. */
  ghost predicate Served(s: State, c: nat)
    requires c < |s.calls|
  {
    match s.calls[c]
    case Waiting(key, leader) => leader < |s.calls| && c in Pending(s.calls[leader]) && s.calls[leader].key == key
    case Returned(key, result, FromLeader(leader)) => leader < |s.calls| && Made(s.calls[leader], key, result)
    case _ => true
  }

  lemma RunSafe(run: seq<State>, i: nat)
    requires IsRun(run) && i < |run|
    ensures OneFlight(run[i]) && forall c: nat :: c < |run[i].calls| ==> Served(run[i], c)
  {
    var s := run[i];
    RunInv(run, i);
    forall key | key in s.races ensures exists c :: Leads(s, c, key) { assert Leads(s, s.races[key], key); }
    forall key, c | Leads(s, c, key) ensures key in s.races && s.races[key] == c { assert CallOk(s, c); }
    forall c: nat | c < |s.calls| ensures Served(s, c) { assert CallOk(s, c); }
  }

  /** Exactly once: a call that has returned never changes again. */
  lemma ReturnedOnce(s: State, s': State, c: nat)
    requires Inv(s) && Next(s, s') && c < |s.calls| && s.calls[c].Returned?
    ensures c < |s'.calls| && s'.calls[c] == s.calls[c]
  {
    if d: nat :| d < |s.calls| && s.calls[d].Resolving? && s' == Resolve(s, d) {
      if s.calls[d].left != [] { NextInLine(s, d); }
      hide Inv;
    } else {
      hide Inv, Resolve;
    }
  }

  /** A leader is done only when nobody waits for it. */
  lemma NobodyForgotten(s: State, c: nat, w: nat)
    requires Inv(s) && c < |s.calls| && s.calls[c].Returned? && w < |s.calls|
    ensures !(s.calls[w].Waiting? && s.calls[w].leader == c)
  {
    assert CallOk(s, w);
  }

  // ---------- cached keys and racing keys ----------

  ghost predicate Disjoint(s: State) {
    forall key :: key in s.items ==> key !in s.races
  }

  /** The synchronous cache is called for a key whose asynchronous factory is in flight, and its own
      factory yields a value. */
  ghost predicate StoresWhileRacing(s: State, s': State) {
    exists key, stale, result ::
      s' == CacheNow(s, key, stale, result) && key in s.races && result.Some?
  }

  /** With no value cached for racing keys before a step, there is none after it, unless the step is such a
      call. */
  lemma DisjointIff(s: State, s': State)
    requires Inv(s) && Disjoint(s) && Next(s, s')
    ensures Disjoint(s') <==> !StoresWhileRacing(s, s')
  {
    hide Inv, Start, Finish, Resolve, Evict, CacheNow;
    if StoresWhileRacing(s, s') {
      var key, stale, result :| s' == CacheNow(s, key, stale, result) && key in s.races && result.Some?;
      CacheNowLayer(s, key, stale, result);
    } else if key, once, stale :| s' == Start(s, key, once, stale) {
      StartLayer(s, key, once, stale);
    } else if c: nat, result :| c < |s.calls| && s.calls[c].Leading? && s' == Finish(s, c, result) {
      FinishLayer(s, c, result);
    } else if c: nat :| c < |s.calls| && s.calls[c].Resolving? && s' == Resolve(s, c) {
      ResolveLayer(s, c);
    } else if key :| s' == Evict(s, key) {
      EvictLayer(s, key);
    } else {
      var key, stale, result :| s' == CacheNow(s, key, stale, result);
      CacheNowLayer(s, key, stale, result);
      assert key in s.races ==> result.None?;
    }
  }

  lemma {:induction false} RunDisjoint(run: seq<State>, i: nat)
    requires IsRun(run) && i < |run|
    requires forall j :: 0 <= j < i ==> !StoresWhileRacing(run[j], run[j + 1])
    ensures Disjoint(run[i])
  {
    hide Inv, StoresWhileRacing, Next;
    if i > 0 {
      RunDisjoint(run, i - 1);
      RunInv(run, i - 1);
      DisjointIff(run[i - 1], run[i]);
    }
  }

  lemma CacheNowLayer(s: State, key: string, stale: bool, result: Option<Value>)
    ensures var s' := CacheNow(s, key, stale, result);
            s'.races == s.races && (forall k :: k != key ==> (k in s'.items ==> k in s.items))
            && (key in s'.items ==> key in s.items || result.Some?) && (result.Some? ==> key in s'.items)
  {
  }

  lemma StartLayer(s: State, key: string, once: bool, stale: bool)
    requires Inv(s) && Disjoint(s)
    ensures Disjoint(Start(s, key, once, stale))
  {
    hide CallOk;
  }

  lemma FinishLayer(s: State, c: nat, result: Option<Value>)
    requires c < |s.calls| && s.calls[c].Leading? && Disjoint(s)
    ensures Disjoint(Finish(s, c, result))
  {
  }

  lemma ResolveLayer(s: State, c: nat)
    requires c < |s.calls| && s.calls[c].Resolving? && Disjoint(s)
    ensures Disjoint(Resolve(s, c))
  {
  }

  lemma EvictLayer(s: State, key: string)
    requires Disjoint(s)
    ensures Disjoint(Evict(s, key))
  {
  }

  /** So without it, set always stores the leader's result. */
  lemma ResultIsStored(s: State, c: nat, value: Value)
    requires Inv(s) && Disjoint(s) && c < |s.calls| && s.calls[c].Leading?
    ensures Finish(s, c, Some(value)).items == s.items[s.calls[c].key := Item(value, c)]
  {
    assert CallOk(s, c);
  }

  /** And with it, the result of a finished race can be dropped. */
  lemma ResultIsDropped()
    ensures var s1 := Start(State(map[], map[], []), "k", false, false);
            var s2 := CacheNow(s1, "k", false, Some(1));
            var s3 := Finish(s2, 0, Some(2));
            s2.calls[0] == Leading("k", false, []) && s3.items["k"].value == 1
  {
  }
}
