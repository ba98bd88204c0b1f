/** The command lock of the MySQL client (src/90s/sql/mysql.cpp, lines 215-271 and 357-428): any number of
    callers share one connection, and whoever has the lock sends a query and reads its answer packet by
    packet. The server answers in order. */
module CommandLock {
  import AioLock

  /** exec_subproc or select_subproc. */
  datatype Kind = Exec | Select

  /** A packet as its first byte shows it to the reader; Count is the number of fields of a table. */
  datatype Packet = Ok | Err | Eof | Count(n: nat) | Field | Row

  datatype Answer = Status | Failure | Table(fields: nat, rows: nat)

  function Repeat(p: Packet, n: nat): (r: seq<Packet>)
    ensures |r| == n
  {
    if n == 0 then [] else [p] + Repeat(p, n - 1)
  }

  function Packets(a: Answer): seq<Packet> {
    match a
    case Status => [Ok]
    case Failure => [Err]
    case Table(fields, rows) => [Count(fields)] + Repeat(Field, fields) + [Eof] + Repeat(Row, rows) + [Eof]
  }

  /** How far a subprocedure has read: what the next packet is taken for. */
  datatype Reader = First | Fields(left: nat) | AfterFields | Rows | Finished

  function BeforeField(left: nat): Reader {
    if left == 0 then AfterFields else Fields(left)
  }

  function Read(kind: Kind, at: Reader, p: Packet): Reader {
    match at
    case First =>
      if kind.Exec? then Finished
      else if p.Count? then BeforeField(p.n)
      else if p.Ok? then AfterFields // a status packet starts with 0, which reads as no fields
      else Finished
    case Fields(left) => if left == 0 then AfterFields else BeforeField(left - 1)
    case AfterFields => if p.Eof? then Rows else Finished
    case Rows => if p.Eof? then Finished else Rows
    case Finished => Finished
  }

  /** Reading these packets finishes with the last of them, and not before. */
  predicate Ends(kind: Kind, at: Reader, packets: seq<Packet>)
    decreases |packets|
  {
    packets != []
    && var next := Read(kind, at, packets[0]);
       if next.Finished? then |packets| == 1 else Ends(kind, next, packets[1..])
  }

  /** exec_subproc is for queries without a result table, select_subproc for those with one. */
  predicate Matches(kind: Kind, a: Answer) {
    if kind.Exec? then !a.Table? else !a.Status?
  }

  lemma {:induction false} EndsAfterRows(rows: nat)
    ensures Ends(Select, Rows, Repeat(Row, rows) + [Eof])
  {
    if rows > 0 {
      EndsAfterRows(rows - 1);
      assert (Repeat(Row, rows) + [Eof])[1..] == Repeat(Row, rows - 1) + [Eof];
    }
  }

  lemma {:induction false} EndsAfterFields(fields: nat, rest: seq<Packet>)
    requires Ends(Select, AfterFields, rest)
    ensures Ends(Select, BeforeField(fields), Repeat(Field, fields) + rest)
  {
    if fields > 0 {
      EndsAfterFields(fields - 1, rest);
      assert (Repeat(Field, fields) + rest)[1..] == Repeat(Field, fields - 1) + rest;
    } else {
      assert Repeat(Field, fields) + rest == rest;
    }
  }

  /** A subprocedure reads exactly the answer, for the answers it is meant for and no others. */
  lemma EndsIff(kind: Kind, a: Answer)
    ensures Ends(kind, First, Packets(a)) <==> Matches(kind, a)
  {
    if a.Table? { TableEnds(kind, a.fields, a.rows); }
  }

  lemma TableEnds(kind: Kind, fields: nat, rows: nat)
    ensures Ends(kind, First, Packets(Table(fields, rows))) <==> kind.Select?
  {
    var rest := [Eof] + (Repeat(Row, rows) + [Eof]);
    var all := [Count(fields)] + (Repeat(Field, fields) + rest);
    assert Packets(Table(fields, rows)) == all;
    hide Packets, Repeat;
    assert all[1..] == Repeat(Field, fields) + rest;
    assert rest[1..] == Repeat(Row, rows) + [Eof];
    EndsAfterRows(rows);
    assert Ends(Select, AfterFields, rest);
    EndsAfterFields(fields, rest);
    assert Ends(Select, First, all);
  }

  /** Reading these packets does not finish before the last of them. */
  predicate NoEarly(kind: Kind, at: Reader, packets: seq<Packet>)
    decreases |packets|
  {
    packets != [] ==>
      var next := Read(kind, at, packets[0]);
      if next.Finished? then |packets| == 1 else NoEarly(kind, next, packets[1..])
  }

  lemma {:induction false} EndsNotEarly(kind: Kind, at: Reader, packets: seq<Packet>)
    requires Ends(kind, at, packets)
    ensures NoEarly(kind, at, packets)
    decreases |packets|
  {
    hide Read;
    var next := Read(kind, at, packets[0]);
    if !next.Finished? { EndsNotEarly(kind, next, packets[1..]); }
  }

  /** Only exec_subproc can stop in the middle of an answer, and only if that is a table. */
  lemma NoEarlyIff(kind: Kind, a: Answer)
    ensures NoEarly(kind, First, Packets(a)) <==> !(kind.Exec? && a.Table?)
  {
    if Matches(kind, a) {
      EndsIff(kind, a);
      EndsNotEarly(kind, First, Packets(a));
    }
  }

  /** atomically uses select_subproc for queries with this very prefix. */
  function KindOf(query: string): Kind {
    if "SELECT " <= query then Select else Exec
  }

  /** So the answer to a query that returns a table but is spelled otherwise is not read to its end. */
  lemma SpellingMatters(rows: nat)
    ensures Ends(KindOf("SELECT 1"), First, Packets(Table(1, rows)))
    ensures !Ends(KindOf("select 1"), First, Packets(Table(1, rows)))
  {
    assert "SELECT " <= "SELECT 1" by { assert "SELECT 1"[..7] == "SELECT "; }
    assert !("SELECT " <= "select 1") by { assert "SELECT "[0] != "select 1"[0]; }
    EndsIff(Select, Table(1, rows));
    EndsIff(Exec, Table(1, rows));
  }

  // ---------- callers, connection and server ----------

  datatype Tagged = Tagged(request: nat, packet: Packet)

  /** A caller outside, waiting for the lock, holding it, or inside a subprocedure. */
  datatype Pc = Idle | Waiting | Holding | Reading(request: nat, kind: Kind, at: Reader, got: seq<Packet>)

  datatype Heard = Heard(request: nat, packets: seq<Packet>)

  /** `kinds` has an entry for each request sent, `answers` what the server said to it, and `heard` the
      packets read by the subprocedures that finished: the last two are history. */
  datatype State = State(
    lock: AioLock.State, history: AioLock.History, pcs: seq<Pc>,
    kinds: seq<Kind>, unanswered: seq<nat>, stream: seq<Tagged>,
    answers: map<nat, Answer>, heard: seq<Heard>)

  function Wake(pcs: seq<Pc>, woken: seq<nat>): seq<Pc> {
    if woken != [] && woken[0] < |pcs| then pcs[woken[0] := Holding] else pcs
  }

  function Lock(s: State, t: nat): State
    requires t < |s.pcs|
  {
    var (lock, woken) := AioLock.Locking(s.lock, t);
    s.(lock := lock, pcs := Wake(s.pcs[t := Waiting], woken),
       history := AioLock.History(s.history.requested + [t], s.history.granted + woken, s.history.released))
  }

  function Unlock(s: State, t: nat): State
    requires t < |s.pcs|
  {
    var (lock, woken) := AioLock.Unlocking(s.lock);
    s.(lock := lock, pcs := Wake(s.pcs[t := Idle], woken),
       history := AioLock.History(s.history.requested, s.history.granted + woken, s.history.released + 1))
  }

  function Send(s: State, t: nat, kind: Kind): State
    requires t < |s.pcs|
  {
    s.(kinds := s.kinds + [kind], unanswered := s.unanswered + [|s.kinds|],
       pcs := s.pcs[t := Reading(|s.kinds|, kind, First, [])])
  }

  function Tag(request: nat, packets: seq<Packet>): seq<Tagged> {
    seq(|packets|, i requires 0 <= i < |packets| => Tagged(request, packets[i]))
  }

  function Respond(s: State, a: Answer): State
    requires s.unanswered != []
  {
    var r := s.unanswered[0];
    s.(unanswered := s.unanswered[1..], stream := s.stream + Tag(r, Packets(a)), answers := s.answers[r := a])
  }

  function ReadPacket(s: State, t: nat): State
    requires t < |s.pcs| && s.pcs[t].Reading? && s.stream != []
  {
    var pc, p := s.pcs[t], s.stream[0].packet;
    var at, got := Read(pc.kind, pc.at, p), pc.got + [p];
    if at.Finished? then s.(stream := s.stream[1..], pcs := s.pcs[t := Holding], heard := s.heard + [Heard(pc.request, got)])
    else s.(stream := s.stream[1..], pcs := s.pcs[t := pc.(at := at, got := got)])
  }

  /** The connection breaks: the subprocedure fails, and the next one gets a new connection. */
  function Lose(s: State, t: nat): State
    requires t < |s.pcs|
  {
    s.(unanswered := [], stream := [], pcs := s.pcs[t := Holding])
  }

  ghost predicate Init(s: State) {
    s == State(AioLock.FRESH, AioLock.History([], [], 0), s.pcs, [], [], [], map[], [])
    && forall t :: 0 <= t < |s.pcs| ==> s.pcs[t] == Idle
  }

  ghost predicate CallerStep(s: State, s': State, t: nat) {
    t < |s.pcs|
    && match s.pcs[t] {
         case Idle => s' == Lock(s, t)
         case Waiting => false
         case Holding => s' == Unlock(s, t) || exists kind :: s' == Send(s, t, kind)
         case Reading(_, _, _, _) => s' == Lose(s, t) || (s.stream != [] && s' == ReadPacket(s, t))
       }
  }

  /** `allowed` says which answers the queries of a subprocedure can have. */
  ghost predicate ServerStep(s: State, s': State, allowed: (Kind, Answer) -> bool) {
    s.unanswered != [] && s.unanswered[0] < |s.kinds|
    && exists a :: allowed(s.kinds[s.unanswered[0]], a) && s' == Respond(s, a)
  }

  ghost predicate Next(s: State, s': State, allowed: (Kind, Answer) -> bool) {
    (exists t: nat :: CallerStep(s, s', t)) || ServerStep(s, s', allowed)
  }

  ghost predicate IsRun(run: seq<State>, allowed: (Kind, Answer) -> bool) {
    run != [] && Init(run[0]) && forall i :: 0 <= i < |run| - 1 ==> Next(run[i], run[i + 1], allowed)
  }

  /** No query given to exec_subproc is answered by a table. */
  ghost predicate NoTables(allowed: (Kind, Answer) -> bool) {
    forall fields, rows :: !allowed(Exec, Table(fields, rows))
  }

  // ---------- the invariant ----------

  predicate Busy(pc: Pc) {
    pc.Holding? || pc.Reading?
  }

  /** Where the caller granted last is, while the lock is taken. */
  function HolderPc(s: State): Pc {
    var granted := s.history.granted;
    if s.lock.sem == 0 && granted != [] && granted[|granted| - 1] < |s.pcs| then s.pcs[granted[|granted| - 1]] else Idle
  }

  /** The caller granted last, and only that one, is past the lock; the others wait in the queue. */
  ghost predicate LockOk(s: State) {
    AioLock.Fair(s.lock, s.history)
    && (forall t: nat :: t < |s.pcs| ==>
          (Busy(s.pcs[t]) <==> s.lock.sem == 0 && s.history.granted[|s.history.granted| - 1] == t))
    && (forall t: nat :: t < |s.pcs| ==> (s.pcs[t] == Waiting <==> t in s.lock.waiters))
    && (forall t :: t in s.history.requested ==> t < |s.pcs|)
    && (forall i, j :: 0 <= i < j < |s.lock.waiters| ==> s.lock.waiters[i] != s.lock.waiters[j])
  }

  function Untag(stream: seq<Tagged>): seq<Packet> {
    seq(|stream|, i requires 0 <= i < |stream| => stream[i].packet)
  }

  /** The wire carries nothing but what is left of the answer the reader is reading. */
  predicate WireOk(s: State, pc: Pc) {
    if !pc.Reading? then s.unanswered == [] && s.stream == []
    else
      pc.request < |s.kinds| && s.kinds[pc.request] == pc.kind
      && if s.unanswered != [] then
           s.unanswered == [pc.request] && pc.request !in s.answers && s.stream == [] && pc.at == First && pc.got == []
         else
           pc.request in s.answers && pc.got + Untag(s.stream) == Packets(s.answers[pc.request])
           && NoEarly(pc.kind, pc.at, Untag(s.stream))
           && forall i :: 0 <= i < |s.stream| ==> s.stream[i].request == pc.request
  }

  ghost predicate ConnectionOk(s: State) {
    WireOk(s, HolderPc(s)) && forall r :: r in s.answers ==> r < |s.kinds|
  }

  /** What a finished subprocedure read is the server's answer to its own query. */
  predicate HeardOk(s: State) {
    forall i :: 0 <= i < |s.heard| ==>
      s.heard[i].request in s.answers && s.heard[i].packets == Packets(s.answers[s.heard[i].request])
  }

  ghost predicate Inv(s: State) {
    LockOk(s) && ConnectionOk(s) && HeardOk(s)
  }

  // ---------- preservation ----------

  lemma InitInv(s: State)
    requires Init(s)
    ensures Inv(s)
  {
  }

  lemma LockInv(s: State, t: nat)
    requires Inv(s) && t < |s.pcs| && s.pcs[t] == Idle
    ensures Inv(Lock(s, t))
  {
    var s' := Lock(s, t);
    AioLock.LockingFair(s.lock, s.history, t);
    assert t !in s.lock.waiters;
    hide HeardOk;
    assert LockOk(s');
  }

  lemma UnlockInv(s: State, t: nat)
    requires Inv(s) && t < |s.pcs| && s.pcs[t] == Holding
    ensures Inv(Unlock(s, t))
  {
    var s' := Unlock(s, t);
    AioLock.UnlockingFair(s.lock, s.history);
    assert HolderPc(s) == Holding;
    if s.lock.waiters != [] { assert s.lock.waiters[0] in s.lock.waiters; }
    assert LockOk(s');
  }

  /** Inside its turn the holder is alone. */
  lemma HolderMoves(s: State, s': State, t: nat)
    requires LockOk(s) && t < |s.pcs| && Busy(s.pcs[t]) && s'.lock == s.lock && s'.history == s.history
    requires |s'.pcs| == |s.pcs| && s'.pcs == s.pcs[t := s'.pcs[t]] && Busy(s'.pcs[t])
    ensures LockOk(s') && HolderPc(s) == s.pcs[t] && HolderPc(s') == s'.pcs[t]
  {
  }

  lemma SendInv(s: State, t: nat, kind: Kind)
    requires Inv(s) && t < |s.pcs| && s.pcs[t] == Holding
    ensures Inv(Send(s, t, kind))
  {
    HolderMoves(s, Send(s, t, kind), t);
    hide LockOk, HolderPc, NoEarly, Packets;
  }

  lemma LoseInv(s: State, t: nat)
    requires Inv(s) && t < |s.pcs| && s.pcs[t].Reading?
    ensures Inv(Lose(s, t))
  {
    HolderMoves(s, Lose(s, t), t);
    hide LockOk, HolderPc, NoEarly, Packets;
  }

  lemma RespondWire(s: State, pc: Pc, a: Answer)
    requires WireOk(s, pc) && s.unanswered != [] && s.unanswered[0] < |s.kinds|
    requires !(s.kinds[s.unanswered[0]].Exec? && a.Table?)
    ensures WireOk(Respond(s, a), pc)
  {
    NoEarlyIff(pc.kind, a);
    assert Untag(Respond(s, a).stream) == Packets(a);
    hide NoEarly, Packets;
  }

  lemma RespondRest(s: State, a: Answer)
    requires s.unanswered != []
    ensures var s' := Respond(s, a);
            HolderPc(s') == HolderPc(s) && (LockOk(s) ==> LockOk(s')) && s'.kinds == s.kinds && s'.heard == s.heard
            && s'.answers == s.answers[s.unanswered[0] := a]
  {
    hide Packets, Tag, WireOk;
  }

  lemma RespondInv(s: State, a: Answer)
    requires Inv(s) && s.unanswered != [] && s.unanswered[0] < |s.kinds|
    requires !(s.kinds[s.unanswered[0]].Exec? && a.Table?)
    ensures Inv(Respond(s, a))
  {
    RespondWire(s, HolderPc(s), a);
    RespondRest(s, a);
    assert s.unanswered[0] !in s.answers;
    hide LockOk, HolderPc, Packets, WireOk, Respond;
  }

  /** One more packet of the answer: either it was the last, or the rest is still to be read. */
  lemma ReadWire(s: State, t: nat)
    requires t < |s.pcs| && s.pcs[t].Reading? && s.stream != [] && WireOk(s, s.pcs[t])
    ensures var s', pc := ReadPacket(s, t), s.pcs[t];
            WireOk(s', s'.pcs[t]) && Busy(s'.pcs[t]) && pc.request in s.answers
            && (s'.heard == s.heard
                || s'.heard == s.heard + [Heard(pc.request, Packets(s.answers[pc.request]))])
  {
    var s', pc := ReadPacket(s, t), s.pcs[t];
    hide Packets, Read;
    assert Untag(s.stream) == [s.stream[0].packet] + Untag(s'.stream);
    assert Untag(s.stream)[1..] == Untag(s'.stream);
    assert pc.got + Untag(s.stream) == (pc.got + [s.stream[0].packet]) + Untag(s'.stream);
    assert s'.stream == [] ==> (pc.got + [s.stream[0].packet]) + Untag(s'.stream) == pc.got + [s.stream[0].packet];
  }

  lemma ReadInv(s: State, t: nat)
    requires Inv(s) && t < |s.pcs| && s.pcs[t].Reading? && s.stream != []
    ensures Inv(ReadPacket(s, t))
  {
    HolderMoves(s, s, t);
    ReadWire(s, t);
    HolderMoves(s, ReadPacket(s, t), t);
    hide LockOk, HolderPc, Packets, WireOk, Read, NoEarly;
  }

  lemma NextInv(s: State, s': State, allowed: (Kind, Answer) -> bool)
    requires Inv(s) && Next(s, s', allowed) && NoTables(allowed)
    ensures Inv(s')
  {
    hide Inv, Lock, Unlock, Send, Lose, ReadPacket, Respond;
    if ServerStep(s, s', allowed) {
      var a :| allowed(s.kinds[s.unanswered[0]], a) && s' == Respond(s, a);
      if a.Table? { assert !allowed(Exec, Table(a.fields, a.rows)); }
      RespondInv(s, a);
    } else {
      var t: nat :| CallerStep(s, s', t);
      match s.pcs[t]
      case Idle => LockInv(s, t);
      case Holding =>
        if s' == Unlock(s, t) {
          UnlockInv(s, t);
        } else {
          var kind :| s' == Send(s, t, kind);
          SendInv(s, t, kind);
        }
      case Reading(_, _, _, _) => if s' == Lose(s, t) { LoseInv(s, t); } else { ReadInv(s, t); }
    }
  }

  lemma {:induction false} RunInv(run: seq<State>, allowed: (Kind, Answer) -> bool, i: nat)
    requires IsRun(run, allowed) && i < |run| && NoTables(allowed)
    ensures Inv(run[i])
  {
    if i == 0 {
      InitInv(run[0]);
    } else {
      RunInv(run, allowed, i - 1);
      NextInv(run[i - 1], run[i], allowed);
    }
  }

  /** At most one caller is inside; turns come in the order they were asked for; what each finished
      subprocedure read is the server's answer to its own query; and the packets on their way are part of
      the answer to the query of the caller inside. */
  ghost predicate Safe(s: State) {
    (forall t: nat, u: nat :: t < |s.pcs| && u < |s.pcs| && Busy(s.pcs[t]) && Busy(s.pcs[u]) ==> t == u)
    && s.history.granted <= s.history.requested && HeardOk(s)
    && (forall i, t: nat :: 0 <= i < |s.stream| && t < |s.pcs| && Busy(s.pcs[t]) ==>
          s.pcs[t].Reading? && s.stream[i].request == s.pcs[t].request)
  }

  lemma RunSafe(run: seq<State>, allowed: (Kind, Answer) -> bool, i: nat)
    requires IsRun(run, allowed) && i < |run| && NoTables(allowed)
    ensures Safe(run[i])
  {
    var s := run[i];
    RunInv(run, allowed, i);
    forall t: nat, j | 0 <= j < |s.stream| && t < |s.pcs| && Busy(s.pcs[t])
      ensures s.pcs[t].Reading? && s.stream[j].request == s.pcs[t].request
    {
      HolderMoves(s, s, t);
    }
    hide NoEarly, Packets, WireOk, HolderPc;
  }

  // ---------- exactly when ----------

  /** The packet a subprocedure is about to read answers its own query. */
  ghost predicate Paired(s: State) {
    forall t: nat :: t < |s.pcs| && s.pcs[t].Reading? && s.stream != [] ==> s.stream[0].request == s.pcs[t].request
  }

  /** One caller whose first query, for exec_subproc, is answered by a table, and who then sends another. */
  function LeftoverRun(fields: nat, rows: nat): seq<State> {
    var idle := State(AioLock.FRESH, AioLock.History([], [], 0), [Idle], [], [], [], map[], []);
    var locked := Lock(idle, 0);
    var sent := Send(locked, 0, Exec);
    var answered := Respond(sent, Table(fields, rows));
    var finished := if answered.pcs[0].Reading? && answered.stream != [] then ReadPacket(answered, 0) else answered;
    [idle, locked, sent, answered, finished, Send(finished, 0, Exec)]
  }

  lemma LeftoverSteps(fields: nat, rows: nat, allowed: (Kind, Answer) -> bool)
    requires allowed(Exec, Table(fields, rows))
    ensures IsRun(LeftoverRun(fields, rows), allowed) && !Paired(LeftoverRun(fields, rows)[5])
  {
    var run := LeftoverRun(fields, rows);
    assert Packets(Table(fields, rows))[0] == Count(fields) && |Packets(Table(fields, rows))| >= 3;
    hide Packets;
    assert run[1].pcs == [Holding];
    assert CallerStep(run[0], run[1], 0);
    assert CallerStep(run[1], run[2], 0);
    assert run[2].unanswered == [0] && run[2].kinds == [Exec];
    assert ServerStep(run[2], run[3], allowed);
    assert CallerStep(run[3], run[4], 0);
    assert CallerStep(run[4], run[5], 0);
    assert run[5].pcs[0].request == 1 && run[5].stream[0].request == 0;
  }

  /** Every packet read, in every run, answers the reader's own query exactly if no query given to
      exec_subproc can be answered by a table. Otherwise the next caller reads what was left over. */
  lemma PairedIff(allowed: (Kind, Answer) -> bool)
    ensures (forall run, i :: IsRun(run, allowed) && 0 <= i < |run| ==> Paired(run[i])) <==> NoTables(allowed)
  {
    if NoTables(allowed) {
      forall run, i | IsRun(run, allowed) && 0 <= i < |run| ensures Paired(run[i]) {
        RunSafe(run, allowed, i);
      }
    } else {
      var fields, rows :| allowed(Exec, Table(fields, rows));
      LeftoverSteps(fields, rows, allowed);
    }
  }
}
