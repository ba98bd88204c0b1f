/** The write side of afd (src/90s/afd.cpp, lines 187-240, 270-301 and 362-422): a write-back buffer and
    a queue of promises, one a write. Resolving a promise resumes the coroutine that waits on it at
    once, and the coroutine may write to or close the same object. */
module Writer {
  import opened DelimiterScan

  datatype CloseState = Open | Closing | Closed

  datatype Entry = Entry(length: nat, sent: nat)

  /** What a resumed coroutine does; a close with a callback reaches on_close before it returns. */
  datatype Action = Write(data: string) | Close(immediate: bool, callback: bool)

  /** The fields of afd, and what happened so far: `writes` are the writes that were queued, `log` the
      outcomes of the first of them, `accepted` the bytes the system took, and `credit` the taken bytes
      that on_write has not yet assigned to a write. */
  datatype View = View(
    state: CloseState, buffer: string, offset: nat, queue: seq<Entry>,
    writes: seq<string>, log: seq<bool>, accepted: string, credit: nat)

  // ---------- the invariant ----------

  function Paid(writes: seq<string>, n: nat): nat {
    if n <= |writes| then |Concat(writes[..n])| else 0
  }

  ghost predicate QueueOk(v: View) {
    |v.log| + |v.queue| == |v.writes|
    && (forall j :: 0 <= j < |v.queue| ==> v.queue[j].length == |v.writes[|v.log| + j]|)
    && (forall j :: 0 < j < |v.queue| ==> v.queue[j].sent == 0)
    && (v.queue != [] ==> v.queue[0].sent < v.queue[0].length || v.queue[0] == Entry(0, 0))
  }

  /** A write that came true has all its bytes accepted, and all earlier writes came true. */
  ghost predicate LogOk(v: View) {
    (forall i :: 0 <= i < |v.log| <= |v.writes| && v.log[i] ==> Paid(v.writes, i + 1) <= |v.accepted|)
    && (forall i, j :: 0 <= i < j < |v.log| && v.log[j] ==> v.log[i])
    && (!v.state.Closed? ==> forall i :: 0 <= i < |v.log| ==> v.log[i])
  }

  function FrontSent(queue: seq<Entry>): nat {
    if queue == [] then 0 else queue[0].sent
  }

  /** Every byte is accepted or still in the buffer; every accepted byte is assigned to a write or
      credit. `flight` bytes were accepted, but the offset does not say so yet. */
  ghost predicate BytesOk(v: View, flight: nat) {
    v.offset + flight <= |v.buffer| && Concat(v.writes) == v.accepted + v.buffer[v.offset + flight..]
    && |v.accepted| == Paid(v.writes, |v.log|) + FrontSent(v.queue) + v.credit + flight
  }

  ghost predicate Ok(v: View, flight: nat) {
    QueueOk(v) && LogOk(v) && v.accepted <= Concat(v.writes) && (!v.state.Closed? ==> BytesOk(v, flight))
  }

  predicate Drained(v: View) {
    v.state.Closed? ==> v.queue == [] && v.buffer == "" && v.offset == 0
  }

  /** History only grows. */
  ghost predicate Later(v: View, v': View) {
    v.writes <= v'.writes && v.log <= v'.log && v.accepted <= v'.accepted
    && (!v.state.Open? ==> !v'.state.Open?) && (v.state.Closed? ==> v'.state.Closed?)
  }

  /** What resumed coroutines, and everything they set off, may do to an on_write in progress. */
  ghost predicate Disturbed(v: View, v': View) {
    Later(v, v') && (if v.state.Closed? then v' == v else Drained(v') && (v'.state.Closed? || v'.credit == v.credit))
  }

  // ---------- sums ----------

  lemma PaidSnoc(writes: seq<string>, data: string, n: nat)
    ensures n <= |writes| ==> Paid(writes + [data], n) == Paid(writes, n)
    ensures Concat(writes + [data]) == Concat(writes) + data
    ensures Paid(writes, |writes|) == |Concat(writes)|
  {
    if n <= |writes| { assert (writes + [data])[..n] == writes[..n]; }
    assert (writes + [data])[..|writes|] == writes;
    assert writes[..|writes|] == writes;
  }

  lemma PaidNext(writes: seq<string>, n: nat)
    requires n < |writes|
    ensures Paid(writes, n + 1) == Paid(writes, n) + |writes[n]|
  {
    assert writes[..n + 1][..n] == writes[..n];
  }

  lemma {:induction false} PaidGrows(writes: seq<string>, n: nat, m: nat)
    requires n <= m <= |writes|
    ensures Paid(writes, n) <= Paid(writes, m)
    decreases m
  {
    if n < m {
      PaidGrows(writes, n, m - 1);
      PaidNext(writes, m - 1);
    }
  }

  // ---------- the steps, on values ----------

  /** Credit belongs to queued writes: there is none when the queue is empty. */
  lemma EmptyQueue(v: View, flight: nat)
    requires Ok(v, flight) && !v.state.Closed? && v.queue == []
    ensures v.credit == 0 && flight == 0 && v.offset == |v.buffer|
  {
    assert v.writes[..|v.writes|] == v.writes;
  }

  lemma FreshOk()
    ensures Ok(View(Open, "", 0, [], [], [], "", 0), 0)
  {
  }

  lemma Buffered(v: View)
    requires Ok(v, 0) && !v.state.Closed?
    ensures v.offset <= |v.buffer|
  {
  }

  lemma Cleared(v: View)
    requires Ok(v, 0) && v.queue == []
    ensures Ok(v.(buffer := "", offset := 0), 0)
  {
    if !v.state.Closed? { EmptyQueue(v, 0); }
  }

  function Enqueue(v: View, data: string): View {
    v.(buffer := v.buffer + data, queue := v.queue + [Entry(|data|, 0)], writes := v.writes + [data])
  }

  lemma QueuedLog(v: View, data: string)
    requires LogOk(v) && |v.log| <= |v.writes|
    ensures LogOk(Enqueue(v, data))
  {
    forall i | 0 <= i < |v.log| && v.log[i] ensures Paid(v.writes + [data], i + 1) <= |v.accepted| {
      PaidSnoc(v.writes, data, i + 1);
    }
    hide Paid, Concat;
  }

  lemma QueuedBytes(v: View, data: string)
    requires BytesOk(v, 0) && |v.log| <= |v.writes| && (v.queue == [] ==> FrontSent(v.queue) == 0)
    ensures BytesOk(Enqueue(v, data), 0)
  {
    PaidSnoc(v.writes, data, |v.log|);
    hide Paid, Concat;
    assert (v.buffer + data)[v.offset..] == v.buffer[v.offset..] + data;
    assert v.accepted + (v.buffer[v.offset..] + data) == (v.accepted + v.buffer[v.offset..]) + data;
  }

  lemma Queued(v: View, data: string)
    requires Ok(v, 0) && v.state.Open?
    ensures Ok(Enqueue(v, data), 0)
  {
    QueuedLog(v, data);
    QueuedBytes(v, data);
    PaidSnoc(v.writes, data, 0);
    hide Paid, Concat, LogOk, BytesOk;
  }

  /** The system takes `n` bytes of the buffer. */
  lemma Performed(v: View, n: nat)
    requires Ok(v, 0) && !v.state.Closed? && v.offset + n <= |v.buffer|
    ensures Ok(v.(accepted := v.accepted + v.buffer[v.offset..v.offset + n]), n)
  {
    var taken := v.buffer[v.offset..v.offset + n];
    assert v.buffer[v.offset..] == taken + v.buffer[v.offset + n..];
    hide Paid, Concat;
    assert v.accepted + (taken + v.buffer[v.offset + n..]) == (v.accepted + taken) + v.buffer[v.offset + n..];
  }

  lemma NotPerformed(v: View)
    requires Ok(v, 0) && !v.state.Closed?
    ensures Ok(v.(state := Closing), 0)
  {
    hide Paid, Concat;
  }

  /** on_write starts: the offset moves on, and the bytes are up for distribution. */
  lemma Credited(v: View, n: nat)
    requires Ok(v, n) && !v.state.Closed? && v.credit == 0
    ensures Ok(v.(offset := v.offset + n, credit := n), 0)
  {
  }

  /** The front write is complete. */
  lemma Popped(v: View)
    requires Ok(v, 0) && !v.state.Closed? && v.queue != [] && v.queue[0].sent + v.credit >= v.queue[0].length
    ensures v.queue[0].sent <= v.queue[0].length
    ensures Ok(v.(queue := v.queue[1..], log := v.log + [true],
                  credit := v.credit - (v.queue[0].length - v.queue[0].sent)), 0)
  {
    var v' := v.(queue := v.queue[1..], log := v.log + [true], credit := v.credit - (v.queue[0].length - v.queue[0].sent));
    PaidNext(v.writes, |v.log|);
    assert forall j :: 0 <= j < |v'.queue| ==> v'.queue[j] == v.queue[j + 1];
    hide Paid, Concat;
  }

  /** The front write gets part of its bytes. */
  lemma PartlySent(v: View)
    requires Ok(v, 0) && !v.state.Closed? && v.queue != [] && v.queue[0].sent + v.credit < v.queue[0].length
    ensures Ok(v.(queue := v.queue[0 := v.queue[0].(sent := v.queue[0].sent + v.credit)], credit := 0), 0)
  {
    hide Paid, Concat;
  }

  lemma Failed(v: View)
    requires Ok(v, 0) && v.state.Closed? && v.queue != []
    ensures Ok(v.(queue := v.queue[1..], log := v.log + [false]), 0)
  {
    var v' := v.(queue := v.queue[1..], log := v.log + [false]);
    assert forall j :: 0 <= j < |v'.queue| ==> v'.queue[j] == v.queue[j + 1];
    hide Paid, Concat;
  }

  lemma NowClosed(v: View, flight: nat, credit: nat)
    requires Ok(v, flight)
    ensures Ok(v.(state := Closed, credit := credit), 0)
  {
  }

  // ---------- what the invariant means ----------

  function Outstanding(queue: seq<Entry>): int {
    if queue == [] then 0 else queue[0].length - queue[0].sent + Outstanding(queue[1..])
  }

  lemma {:induction false} OutstandingFrom(v: View, i: nat)
    requires QueueOk(v) && i <= |v.queue|
    ensures Outstanding(v.queue[i..])
         == Paid(v.writes, |v.writes|) - Paid(v.writes, |v.log| + i) - (if i == 0 then FrontSent(v.queue) else 0)
    decreases |v.queue| - i
  {
    if i < |v.queue| {
      OutstandingFrom(v, i + 1);
      PaidNext(v.writes, |v.log| + i);
      assert v.queue[i..][1..] == v.queue[i + 1..];
    }
  }

  /** Between calls, what the queued writes still lack is what the buffer still holds; what the system
      accepted is a prefix of all writes; a write has come true exactly if all its bytes are accepted. */
  ghost predicate Settled(v: View) {
    v.offset <= |v.buffer| && Outstanding(v.queue) == |v.buffer| - v.offset
    && Concat(v.writes) == v.accepted + v.buffer[v.offset..]
    && (forall j :: 0 < j < |v.queue| ==> v.queue[j].sent == 0)
    && |v.log| <= |v.writes|
    && (forall i :: 0 <= i < |v.log| ==> v.log[i] && Paid(v.writes, i + 1) <= |v.accepted|)
    && (forall i :: |v.log| <= i < |v.writes| && v.writes[i] != "" ==> Paid(v.writes, i + 1) > |v.accepted|)
  }

  lemma OkSettles(v: View)
    requires Ok(v, 0) && !v.state.Closed? && v.credit == 0
    ensures Settled(v)
  {
    OutstandingFrom(v, 0);
    assert v.queue[0..] == v.queue && v.writes[..|v.writes|] == v.writes;
    forall i | |v.log| <= i < |v.writes| && v.writes[i] != "" ensures Paid(v.writes, i + 1) > |v.accepted| {
      if i == |v.log| {
        PaidNext(v.writes, i);
      } else {
        PaidNext(v.writes, |v.log|);
        PaidGrows(v.writes, |v.log| + 1, i);
        PaidNext(v.writes, i);
      }
    }
  }

  lemma LaterTrans(a: View, b: View, c: View)
    requires Later(a, b) && Later(b, c)
    ensures Later(a, c)
  {
  }

  lemma DisturbedTrans(a: View, b: View, c: View)
    requires Disturbed(a, b) && Disturbed(b, c)
    ensures Disturbed(a, c)
  {
  }

  lemma LaterRefl(v: View)
    ensures Later(v, v)
  {
  }

  lemma LaterSame(v: View, v': View)
    requires v'.state == v.state && v'.writes == v.writes && v'.log == v.log && v'.accepted == v.accepted
    ensures Later(v, v')
  {
  }

  lemma LaterPopped(v: View, v': View)
    requires v'.state == v.state && v'.writes == v.writes && v'.log == v.log + [true] && v'.accepted == v.accepted
    ensures Later(v, v')
  {
  }

  lemma LaterPerformed(v: View, v': View)
    requires v' == v.(state := Closing) || (v' == v.(accepted := v'.accepted) && v.accepted <= v'.accepted)
    requires !v.state.Closed?
    ensures Later(v, v')
  {
  }

  lemma LaterQueued(v: View, data: string)
    ensures Later(v, Enqueue(v, data))
  {
  }

  lemma LaterWrites(v: View, v': View)
    requires Later(v, v')
    ensures v.writes <= v'.writes
  {
  }

  lemma LaterAccepts(v: View, v': View)
    requires Later(v, v')
    ensures v.accepted <= v'.accepted
  {
  }

  lemma DisturbedLater(v: View, v': View)
    requires Disturbed(v, v')
    ensures Later(v, v')
  {
  }

  lemma Offered(buffer: string, data: string, n: nat)
    requires n <= |data|
    ensures (buffer + data)[|buffer|..|buffer| + n] == data[..n]
  {
  }

  function Min(a: nat, b: nat): nat {
    if a < b then a else b
  }

  function Falses(n: nat): seq<bool> {
    seq(n, i requires 0 <= i < n => false)
  }

  // ---------- the object ----------

  class Writer {
    var closed: CloseState
    var buffer: string
    var offset: nat
    var queue: seq<Entry>
    /** What the following calls of s80_write return: negative for an error, else how much they take. */
    var system: seq<int>
    /** What the coroutines resumed next do, one list for each promise resolved. */
    var script: seq<seq<Action>>
    ghost var writes: seq<string>
    ghost var log: seq<bool>
    ghost var accepted: string
    ghost var credit: nat

    ghost function Now(): View
      reads this
    {
      View(closed, buffer, offset, queue, writes, log, accepted, credit)
    }

    /** Between calls from the event loop. */
    ghost predicate Valid()
      reads this
    {
      Ok(Now(), 0) && Drained(Now()) && (!closed.Closed? ==> credit == 0)
    }

    constructor (system: seq<int>, script: seq<seq<Action>>)
      ensures Valid() && Now() == View(Open, "", 0, [], [], [], "", 0)
      ensures this.system == system && this.script == script
    {
      closed, buffer, offset, queue := Open, "", 0, [];
      this.system, this.script := system, script;
      writes, log, accepted, credit := [], [], "", 0;
      new;
      FreshOk();
      hide Ok;
    }

    /** There are bytes to offer to the system, and a write waiting for them. */
    ghost predicate Offers()
      reads this
    {
      closed.Open? && offset < |buffer| && queue != [] && queue[0].sent < queue[0].length
    }

    /** Between calls the bytes add up, and exactly the writes whose bytes were all accepted have come true. */
    lemma Exact()
      requires Valid() && !closed.Closed?
      ensures Settled(Now())
    {
      OkSettles(Now());
    }

    /** Whatever happened: accepted bytes are a prefix of what was written, in order; a promise came true
        only after its bytes and all earlier ones were accepted; after a close none is left. */
    lemma Outcomes()
      requires Valid()
      ensures accepted <= Concat(writes) && |log| <= |writes| && (closed.Closed? ==> |log| == |writes|)
      ensures forall i :: 0 <= i < |log| && log[i] ==> Paid(writes, i + 1) <= |accepted|
      ensures forall i, j :: 0 <= i < j < |log| && log[j] ==> log[i]
    {
    }

    /** perform_write: hand the rest of the buffer to the system. A script that has run out is an error. */
    method PerformWrite() returns (ok: int)
      requires Ok(Now(), 0) && !closed.Closed?
      modifies this`closed, this`system, this`accepted
      ensures ok < 0 ==> Now() == old(Now()).(state := Closing) && Ok(Now(), 0)
      ensures ok >= 0 ==> offset + ok <= |buffer| && Ok(Now(), ok)
                          && Now() == old(Now()).(accepted := old(accepted) + buffer[offset..offset + ok])
      ensures if old(system) == [] then system == [] && ok < 0
              else system == old(system[1..]) && ok == old(if system[0] > |buffer| - offset then |buffer| - offset else system[0])
    {
      hide Ok;
      Buffered(Now());
      NotPerformed(Now());
      var size := |buffer| - offset;
      if system == [] {
        ok := -1;
      } else {
        ok := if system[0] > size then size else system[0];
        system := system[1..];
      }
      if ok < 0 {
        closed := Closing;
      } else {
        Performed(Now(), ok);
        accepted := accepted + buffer[offset..offset + ok];
      }
    }

    /** Resolving a promise: what the coroutine that waited on it does before resolve returns. */
    method Resume()
      requires Ok(Now(), 0)
      modifies this
      ensures Ok(Now(), 0) && Disturbed(old(Now()), Now()) && |system| <= old(|system|)
      ensures if old(script) == [] then script == [] && Now() == old(Now()) else |script| < old(|script|)
      decreases |script|, 0
    {
      hide Ok, Later;
      LaterRefl(Now());
      if script == [] { return; }
      var actions := script[0];
      script := script[1..];
      var i := 0;
      while i < |actions|
        invariant i <= |actions| && Ok(Now(), 0) && Disturbed(old(Now()), Now())
        invariant |script| < old(|script|) && |system| <= old(|system|)
      {
        ghost var before := Now();
        match actions[i] {
          case Write(data) => var _ := Write(data);
          case Close(immediate, callback) => Close(immediate, callback);
        }
        DisturbedTrans(old(Now()), before, Now());
        i := i + 1;
      }
    }

    /** The loop over the queue in on_write, lines 195-216. */
    method Distribute(n: nat)
      requires Ok(Now(), 0) && !closed.Closed? && credit == n
      modifies this
      ensures Ok(Now(), 0) && Drained(Now()) && (!closed.Closed? ==> credit == 0) && Later(old(Now()), Now())
      ensures |script| <= old(|script|) && |system| <= old(|system|)
      ensures n == 0 && old(queue != [] && queue[0].sent < queue[0].length) ==> Now() == old(Now()) && system == old(system)
      decreases |script|, 1
    {
      hide Ok, Later;
      var written := n;
      LaterRefl(Now());
      while queue != []
        invariant Ok(Now(), 0) && Drained(Now()) && Later(old(Now()), Now())
        invariant !closed.Closed? ==> credit == written
        invariant n == 0 && old(queue != [] && queue[0].sent < queue[0].length) ==> Now() == old(Now()) && system == old(system)
        invariant |script| <= old(|script|) && |system| <= old(|system|)
        decreases |script|, |queue|
      {
        ghost var before := Now();
        var front := queue[0];
        if front.sent + written >= front.length {
          Popped(Now());
          written := written - (front.length - front.sent);
          queue := queue[1..];
          log := log + [true];
          credit := written;
          LaterPopped(before, Now());
          ghost var popped := Now();
          Resume();
          LaterTrans(old(Now()), before, popped);
          DisturbedLater(popped, Now());
          LaterTrans(old(Now()), popped, Now());
        } else {
          PartlySent(Now());
          queue := queue[0 := front.(sent := front.sent + written)];
          written := 0;
          credit := 0;
          LaterSame(before, Now());
          LaterTrans(old(Now()), before, Now());
          break;
        }
      }
      if queue == [] && !closed.Closed? { EmptyQueue(Now(), 0); }
    }

    /** One pass of the loop in on_write, lines 190-226: distribute `written` bytes, then offer the rest of
        the buffer if there were none. */
    method Pass(written: nat) returns (again: bool, taken: nat)
      requires Ok(Now(), written) && !closed.Closed? && credit == 0
      modifies this
      ensures Ok(Now(), taken) && Drained(Now()) && (!closed.Closed? ==> credit == 0) && Later(old(Now()), Now())
      ensures if again then !closed.Closed? && |system| < old(|system|) else taken == 0 && |system| <= old(|system|)
      ensures written == 0 && old(Offers() && system != []) && old(system[0]) > 0
              ==> again && |accepted| > |old(accepted)|
      ensures |script| <= old(|script|)
      decreases |script|, 2
    {
      hide Ok, Later;
      Credited(Now(), written);
      offset := offset + written;
      credit := written;
      LaterSame(old(Now()), Now());
      ghost var credited := Now();
      Distribute(written);
      LaterTrans(old(Now()), credited, Now());
      again, taken := false, 0;
      if offset < |buffer| && written == 0 {
        ghost var distributed := Now();
        var ok := PerformWrite();
        LaterPerformed(distributed, Now());
        LaterTrans(old(Now()), distributed, Now());
        if ok >= 0 { again, taken := true, ok; }
      }
    }

    /** on_write: `n` bytes were taken. The loop continues while the system takes bytes without telling. */
    method OnWrite(n: nat)
      requires Ok(Now(), n) && Drained(Now()) && (!closed.Closed? ==> credit == 0) && (n > 0 ==> closed.Open?)
      modifies this
      ensures Ok(Now(), 0) && Drained(Now()) && (!closed.Closed? ==> credit == 0) && Later(old(Now()), Now())
      ensures !old(closed).Open? ==> Now() == old(Now())
      ensures n == 0 && old(Offers() && system != []) && old(system[0]) > 0 ==> |accepted| > |old(accepted)|
      ensures |script| <= old(|script|) && |system| <= old(|system|)
      decreases |script|, 3
    {
      hide Ok, Later;
      LaterRefl(Now());
      if closed != Open { return; }
      var again, written := Pass(n);
      while again
        invariant Ok(Now(), written) && Drained(Now()) && Later(old(Now()), Now())
        invariant if again then !closed.Closed? else written == 0
        invariant !closed.Closed? ==> credit == 0
        invariant |script| <= old(|script|) && |system| <= old(|system|)
        invariant n == 0 && old(Offers() && system != []) && old(system[0]) > 0 ==> |accepted| > |old(accepted)|
        decreases |system|, again
      {
        ghost var before := Now();
        again, written := Pass(written);
        LaterAccepts(before, Now());
        LaterTrans(old(Now()), before, Now());
      }
      if queue == [] {
        ghost var before := Now();
        Cleared(Now());
        buffer := "";
        offset := 0;
        LaterSame(before, Now());
        LaterTrans(old(Now()), before, Now());
      }
    }

    /** write: queue the data, and hand it to the system at once if nothing is queued before it. The
        promise of a write that is not queued is false from the start; else it is number |writes|. */
    method Write(data: string) returns (accepts: bool)
      requires Ok(Now(), 0)
      modifies this
      ensures old(Valid()) ==> Valid()
      ensures Ok(Now(), 0) && Disturbed(old(Now()), Now())
      ensures if old(closed).Open? then accepts && old(writes) + [data] <= writes
              else !accepts && Now() == old(Now())
      ensures old(closed.Open? && queue == [] && system != []) && old(system[0]) >= 0
              ==> old(accepted) + data[..Min(|data|, old(system[0]))] <= accepted
      ensures |script| <= old(|script|) && |system| <= old(|system|)
      decreases |script|, 4
    {
      hide Ok, Later;
      LaterRefl(Now());
      accepts := closed == Open;
      if !accepts { return; }
      if queue == [] { EmptyQueue(Now(), 0); }
      Queued(Now(), data);
      ghost var before := Now();
      buffer := buffer + data;
      queue := queue + [Entry(|data|, 0)];
      writes := writes + [data];
      LaterQueued(before, data);
      ghost var queued := Now();
      if |queue| == 1 {
        var ok := PerformWrite();
        if ok >= 0 { Offered(before.buffer, data, ok); }
        LaterPerformed(queued, Now());
        LaterTrans(before, queued, Now());
        ghost var performed := Now();
        if ok > 0 {
          OnWrite(ok);
          LaterAccepts(performed, Now());
          LaterTrans(before, performed, Now());
          LaterWrites(performed, Now());
        }
      }
    }

    /** handle_failure: every queued write fails, in order. */
    method HandleFailure()
      requires Ok(Now(), 0) && closed.Closed?
      modifies this
      ensures Ok(Now(), 0)
      ensures Now() == old(Now()).(queue := [], buffer := "", offset := 0, log := old(log) + Falses(|old(queue)|))
      ensures |script| <= old(|script|) && |system| <= old(|system|)
      decreases |script|, 1
    {
      hide Ok;
      while queue != []
        invariant Ok(Now(), 0) && |queue| <= |old(queue)|
        invariant Now() == old(Now()).(queue := queue, log := old(log) + Falses(|old(queue)| - |queue|))
        invariant |script| <= old(|script|) && |system| <= old(|system|)
        decreases |queue|
      {
        Failed(Now());
        queue := queue[1..];
        log := log + [false];
        Resume();
      }
      Cleared(Now());
      offset := 0;
      buffer := "";
    }

    method OnClose()
      requires Ok(Now(), 0)
      modifies this
      ensures old(Valid()) ==> Valid()
      ensures Ok(Now(), 0) && Disturbed(old(Now()), Now()) && closed.Closed?
      ensures !old(closed).Closed? ==> log == old(log) + Falses(|old(queue)|)
      ensures writes == old(writes) && accepted == old(accepted)
      ensures |script| <= old(|script|) && |system| <= old(|system|)
      decreases |script|, 2
    {
      hide Ok;
      if closed != Closed {
        NowClosed(Now(), 0, credit);
        closed := Closed;
        HandleFailure();
      }
    }

    /** close: without `immediate` every pending promise fails now, else when on_close comes. */
    method Close(immediate: bool, callback: bool)
      requires Ok(Now(), 0)
      modifies this
      ensures old(Valid()) ==> Valid()
      ensures Ok(Now(), 0) && Disturbed(old(Now()), Now()) && !closed.Open?
      ensures writes == old(writes) && accepted == old(accepted)
      ensures if old(closed).Open? && (callback || !immediate) then log == old(log) + Falses(|old(queue)|)
              else log == old(log) && queue == old(queue)
      ensures |script| <= old(|script|) && |system| <= old(|system|)
      decreases |script|, 3
    {
      hide Ok;
      if closed == Open {
        NotPerformed(Now());
        closed := Closing;
        if immediate && callback { OnClose(); }
        if !immediate {
          NowClosed(Now(), 0, credit);
          closed := Closed;
          HandleFailure();
        }
      }
    }
  }
}
