/** The transaction driver of the MySQL client (src/90s/sql/mysql.cpp, lines 273-351), against a database
    whose state is the list of statements that took effect. The connection stays the same throughout. */
module Transaction {
  import CommandLock

  const BREAK_IF_ZERO_AFFECTED := "@B0"
  const BREAK_IF_ZERO_SELECTED := "@B1"
  const ROLLBACK_IF_ZERO_AFFECTED := "@R0"
  const ROLLBACK_IF_ZERO_SELECTED := "@R1"

  const BROKEN_ON_ZERO := 1
  const ROLLED_BACK_ON_ZERO := 2

  /** sql_result: `rows` is the number of selected rows. */
  datatype SqlResult = SqlResult(error: bool, message: string, affected: int, rows: nat, flags: int)

  const DEFAULT_RESULT := SqlResult(false, "", 0, 0, 0)

  function Size(r: SqlResult): nat {
    if r.error then 0 else r.rows
  }

  /** What a subprocedure returns, and whether the server, failing, undid the whole transaction. */
  datatype Reply = Reply(error: bool, message: string, affected: int, rows: nat, aborted: bool)

  function Result(r: Reply): SqlResult {
    SqlResult(r.error, r.message, r.affected, r.rows, 0)
  }

  predicate At(text: string, part: string, i: int) {
    0 <= i <= |text| - |part| && text[i..i + |part|] == part
  }

  predicate IsDeadlock(r: Reply) {
    r.error && exists i :: 0 <= i <= |r.message| && At(r.message, "Deadlock", i)
  }

  datatype Command = Start | Run(query: string, kind: CommandLock.Kind) | Rollback | Commit | Unlock

  datatype Event = Event(command: Command, reply: Reply)

  /** The database as the server has it, and what was sent to it, the lock's release included. `runs` are
      the replies to the statements since the last START that succeeded. */
  datatype Session = Session(
    committed: seq<string>, working: seq<string>, open: bool, trace: seq<Event>, runs: seq<Reply>)

  function Execute(s: Session, c: Command, r: Reply): Session {
    var s' := s.(trace := s.trace + [Event(c, r)]);
    match c
    case Start =>
      if r.error then s'
      else
        var now := if s.open then s.working else s.committed; // START commits an open transaction
        s'.(committed := now, working := now, open := true, runs := [])
    case Run(query, _) =>
      var s'' := s'.(runs := s.runs + [r]);
      if r.error then (if r.aborted then s''.(working := s.committed, open := false) else s'')
      else if s.open then s''.(working := s.working + [query])
      else s''.(committed := s.committed + [query]) // no transaction: in effect at once
    case Rollback => if r.error then s' else s'.(working := s.committed, open := false)
    case Commit => if r.error || !s.open then s' else s'.(committed := s.working, open := false)
    case Unlock => s'
  }

  const NO_REPLY := Reply(false, "", 0, 0, false)

  function Release(s: Session): Session {
    Execute(s, Unlock, NO_REPLY)
  }

  // ---------- what a trace should look like ----------

  datatype Phase = Outside | Inside | Released | Illegal

  function Advance(p: Phase, e: Event): Phase {
    match (p, e.command)
    case (Outside, Start) => if e.reply.error then Outside else Inside
    case (Outside, Unlock) => Released
    case (Inside, Run(_, _)) => Inside
    case (Inside, Rollback) => Outside
    case (Inside, Commit) => Outside
    case _ => Illegal
  }

  /** Statements run only inside a transaction; each START that succeeded is closed by one COMMIT or
      ROLLBACK attempt, before the lock is released and before the next START; and the lock is
      released once, in the end. */
  function PhaseOf(trace: seq<Event>): Phase {
    if trace == [] then Outside else Advance(PhaseOf(trace[..|trace| - 1]), trace[|trace| - 1])
  }

  function Starts(trace: seq<Event>): nat {
    if trace == [] then 0
    else Starts(trace[..|trace| - 1]) + if trace[|trace| - 1].command.Start? then 1 else 0
  }

  /** The trace ends with a statement that failed, and the ROLLBACK that undid it. */
  predicate JustUndone(trace: seq<Event>) {
    |trace| >= 2 && trace[|trace| - 1].command.Rollback? && !trace[|trace| - 1].reply.error
    && trace[|trace| - 2].command.Run? && trace[|trace| - 2].reply.error
  }

  predicate DeadlockUndone(trace: seq<Event>) {
    JustUndone(trace) && IsDeadlock(trace[|trace| - 2].reply)
  }

  /** START is sent first, and again only after a deadlock has been rolled back. */
  ghost predicate RetriesOk(trace: seq<Event>) {
    forall i :: 0 < i < |trace| && trace[i].command.Start? ==>
      DeadlockUndone(trace[..i])
  }

  /** The last command before the release, and whether it worked. */
  function LastCommand(trace: seq<Event>): Command {
    if |trace| >= 2 then trace[|trace| - 2].command else Unlock
  }

  predicate LastOk(trace: seq<Event>) {
    |trace| >= 2 && !trace[|trace| - 2].reply.error
  }

  predicate IsBreak(query: string) {
    query == BREAK_IF_ZERO_AFFECTED || query == BREAK_IF_ZERO_SELECTED
  }

  predicate IsMarker(query: string) {
    IsBreak(query) || query == ROLLBACK_IF_ZERO_AFFECTED || query == ROLLBACK_IF_ZERO_SELECTED
  }

  /** The statements among the first `n` entries of the list. */
  function Statements(queries: seq<string>, n: nat): seq<string>
    requires n <= |queries|
  {
    if n == 0 then []
    else Statements(queries, n - 1) + if IsMarker(queries[n - 1]) then [] else [queries[n - 1]]
  }

  predicate Triggers(marker: string, last: SqlResult) {
    if marker == BREAK_IF_ZERO_AFFECTED || marker == ROLLBACK_IF_ZERO_AFFECTED then last.affected == 0
    else Size(last) == 0
  }

  /** The result a marker at entry `n` looks at: that of the statement before it, if there is one. */
  function LastAt(queries: seq<string>, n: nat, runs: seq<Reply>): SqlResult
    requires n <= |queries|
  {
    var k := |Statements(queries, n)|;
    if 0 < k <= |runs| then Result(runs[k - 1]) else DEFAULT_RESULT
  }

  /** The statements before entry `n` all ran and worked, and no marker among them should have stopped it. */
  predicate Passed(queries: seq<string>, n: nat, runs: seq<Reply>)
    requires n <= |queries|
  {
    |runs| >= |Statements(queries, n)|
    && (forall j :: 0 <= j < |Statements(queries, n)| ==> !runs[j].error)
    && (forall j: nat :: j < n && IsMarker(queries[j]) ==> !Triggers(queries[j], LastAt(queries, j, runs)))
  }

  lemma TraceSnoc(trace: seq<Event>, e: Event)
    ensures PhaseOf(trace + [e]) == Advance(PhaseOf(trace), e)
    ensures Starts(trace + [e]) == Starts(trace) + if e.command.Start? then 1 else 0
    ensures RetriesOk(trace) && (e.command.Start? ==> trace == [] || DeadlockUndone(trace)) ==> RetriesOk(trace + [e])
  {
    assert (trace + [e])[..|trace|] == trace;
    if RetriesOk(trace) && (e.command.Start? ==> trace == [] || DeadlockUndone(trace)) { RetriesSnoc(trace, e); }
  }

  lemma RetriesSnoc(trace: seq<Event>, e: Event)
    requires RetriesOk(trace) && (e.command.Start? ==> trace == [] || DeadlockUndone(trace))
    ensures RetriesOk(trace + [e])
  {
    hide DeadlockUndone;
    var longer := trace + [e];
    forall i | 0 < i < |longer| && longer[i].command.Start? ensures DeadlockUndone(longer[..i]) {
      assert longer[..i] == trace[..i];
      assert i == |trace| ==> longer[..i] == trace;
    }
  }

  lemma {:induction false} StatementsGrow(queries: seq<string>, n: nat, m: nat)
    requires n <= m <= |queries|
    ensures |Statements(queries, n)| <= |Statements(queries, m)|
    decreases m
  {
    if n < m { StatementsGrow(queries, n, m - 1); }
  }

  /** Later replies do not change what the markers so far looked at. */
  lemma PassedMore(queries: seq<string>, n: nat, runs: seq<Reply>, r: Reply)
    requires n <= |queries| && Passed(queries, n, runs)
    ensures Passed(queries, n, runs + [r]) && LastAt(queries, n, runs + [r]) == LastAt(queries, n, runs)
  {
    forall j: nat | j < n && IsMarker(queries[j]) ensures !Triggers(queries[j], LastAt(queries, j, runs + [r])) {
      StatementsGrow(queries, j, n);
    }
    StatementsGrow(queries, n, n);
  }

  lemma PassedRun(queries: seq<string>, n: nat, runs: seq<Reply>, r: Reply)
    requires n < |queries| && !IsMarker(queries[n]) && Passed(queries, n, runs) && |runs| == |Statements(queries, n)|
    requires !r.error
    ensures Passed(queries, n + 1, runs + [r]) && |runs + [r]| == |Statements(queries, n + 1)|
    ensures LastAt(queries, n + 1, runs + [r]) == Result(r)
  {
    PassedMore(queries, n, runs, r);
  }

  lemma PassedMarker(queries: seq<string>, n: nat, runs: seq<Reply>)
    requires n < |queries| && IsMarker(queries[n]) && Passed(queries, n, runs)
    requires !Triggers(queries[n], LastAt(queries, n, runs))
    ensures Passed(queries, n + 1, runs) && Statements(queries, n + 1) == Statements(queries, n)
    ensures LastAt(queries, n + 1, runs) == LastAt(queries, n, runs)
  {
  }

  // ---------- the state between commands ----------

  /** No transaction is open and nothing has changed. */
  ghost predicate Untouched(s: Session, committed: seq<string>) {
    !s.open && s.committed == committed && PhaseOf(s.trace) == Outside && RetriesOk(s.trace)
  }

  /** The transaction is open and has done exactly the statements before entry `n`. */
  ghost predicate InProgress(s: Session, committed: seq<string>, queries: seq<string>, n: nat)
    requires n <= |queries|
  {
    s.open && s.committed == committed && s.working == committed + Statements(queries, n)
    && PhaseOf(s.trace) == Inside && RetriesOk(s.trace)
    && Passed(queries, n, s.runs) && |s.runs| == |Statements(queries, n)|
  }

  /** A statement failed: the transaction is open or undone, and in any case nothing is committed. */
  ghost predicate Broken(s: Session, committed: seq<string>, queries: seq<string>, n: nat, r: Reply)
    requires n <= |queries|
  {
    s.committed == committed && PhaseOf(s.trace) == Inside && RetriesOk(s.trace)
    && s.trace != [] && s.trace[|s.trace| - 1].command.Run? && s.trace[|s.trace| - 1].reply == r && r.error
    && Passed(queries, n, s.runs) && |s.runs| == |Statements(queries, n)| + 1 && s.runs[|s.runs| - 1] == r
  }

  lemma Started(s: Session, r: Reply, committed: seq<string>, queries: seq<string>)
    requires Untouched(s, committed)
    requires s.trace == [] || DeadlockUndone(s.trace)
    ensures var s' := Execute(s, Start, r);
            Starts(s'.trace) == Starts(s.trace) + 1 && s'.trace == s.trace + [Event(Start, r)]
            && if r.error then Untouched(s', committed) else InProgress(s', committed, queries, 0)
  {
    TraceSnoc(s.trace, Event(Start, r));
    assert committed + [] == committed;
    hide PhaseOf, Starts, RetriesOk, DeadlockUndone;
  }

  lemma Ran(s: Session, r: Reply, committed: seq<string>, queries: seq<string>, n: nat)
    requires n < |queries| && InProgress(s, committed, queries, n) && !IsMarker(queries[n])
    ensures var s' := Execute(s, Run(queries[n], CommandLock.KindOf(queries[n])), r);
            Starts(s'.trace) == Starts(s.trace)
            && if r.error then Broken(s', committed, queries, n, r)
               else InProgress(s', committed, queries, n + 1) && LastAt(queries, n + 1, s'.runs) == Result(r)
  {
    TraceSnoc(s.trace, Event(Run(queries[n], CommandLock.KindOf(queries[n])), r));
    PassedMore(queries, n, s.runs, r);
    if !r.error { PassedRun(queries, n, s.runs, r); }
    assert s.working + [queries[n]] == committed + (Statements(queries, n) + [queries[n]]);
    hide PhaseOf, Starts, RetriesOk, IsMarker, Passed, LastAt;
  }

  lemma Skipped(s: Session, committed: seq<string>, queries: seq<string>, n: nat)
    requires n < |queries| && InProgress(s, committed, queries, n) && IsMarker(queries[n])
    requires !Triggers(queries[n], LastAt(queries, n, s.runs))
    ensures InProgress(s, committed, queries, n + 1) && LastAt(queries, n + 1, s.runs) == LastAt(queries, n, s.runs)
  {
    PassedMarker(queries, n, s.runs);
    hide PhaseOf, RetriesOk, IsMarker, Passed, LastAt, Triggers;
  }

  lemma RolledBack(s: Session, r: Reply, committed: seq<string>)
    requires s.committed == committed && PhaseOf(s.trace) == Inside && RetriesOk(s.trace)
    ensures var s' := Execute(s, Rollback, r);
            Starts(s'.trace) == Starts(s.trace) && s'.committed == committed && PhaseOf(s'.trace) == Outside
            && RetriesOk(s'.trace) && (!r.error ==> Untouched(s', committed)) && s'.runs == s.runs
            && s'.trace == s.trace + [Event(Rollback, r)]
  {
    TraceSnoc(s.trace, Event(Rollback, r));
    hide PhaseOf, Starts, RetriesOk, DeadlockUndone;
  }

  lemma Committed(s: Session, r: Reply, committed: seq<string>, queries: seq<string>, n: nat)
    requires n <= |queries| && InProgress(s, committed, queries, n)
    ensures var s' := Execute(s, Commit, r);
            Starts(s'.trace) == Starts(s.trace) && PhaseOf(s'.trace) == Outside && RetriesOk(s'.trace)
            && s'.committed == (if r.error then committed else committed + Statements(queries, n))
            && s'.open == r.error && s'.runs == s.runs && s'.trace == s.trace + [Event(Commit, r)]
  {
    TraceSnoc(s.trace, Event(Commit, r));
    hide PhaseOf, Starts, RetriesOk, Statements, DeadlockUndone;
  }

  lemma Unlocked(s: Session)
    requires PhaseOf(s.trace) == Outside && RetriesOk(s.trace) && s.trace != []
    ensures PhaseOf(Release(s).trace) == Released && RetriesOk(Release(s).trace)
    ensures Starts(Release(s).trace) == Starts(s.trace)
    ensures LastCommand(Release(s).trace) == s.trace[|s.trace| - 1].command
    ensures LastOk(Release(s).trace) == !s.trace[|s.trace| - 1].reply.error
    ensures |Release(s).trace| >= 2 && Release(s).trace[|Release(s).trace| - 2] == s.trace[|s.trace| - 1]
    ensures Release(s).committed == s.committed && Release(s).open == s.open && Release(s).runs == s.runs
  {
    TraceSnoc(s.trace, Event(Unlock, NO_REPLY));
    hide PhaseOf, Starts, RetriesOk, DeadlockUndone;
  }

  // ---------- the driver ----------

  /** Every call is well-behaved towards server and lock, and leaves the database unchanged or with all
      statements up to entry `stop`, the latter exactly if a COMMIT succeeded. */
  ghost predicate Outcome(queries: seq<string>, committed: seq<string>, r: SqlResult, s: Session, stop: nat) {
    stop <= |queries| && PhaseOf(s.trace) == Released && RetriesOk(s.trace) && 1 <= Starts(s.trace) <= 2
    && s.committed == (if LastCommand(s.trace).Commit? && LastOk(s.trace) then committed + Statements(queries, stop)
                       else committed)
    && (LastOk(s.trace) ==> !s.open)
    && match LastCommand(s.trace) {
         case Commit => CommitRight(queries, r, s, stop)
         case Rollback => RollbackRight(queries, r, s, stop)
         case Start => r.error && !s.open && |s.trace| >= 2 && r == Result(s.trace[|s.trace| - 2].reply)
         case _ => false
       }
  }

  /** COMMIT is tried if the list ended, or broke off at the first break marker that should stop it. */
  predicate CommitRight(queries: seq<string>, r: SqlResult, s: Session, stop: nat)
    requires stop <= |queries|
  {
    Passed(queries, stop, s.runs) && !r.error && r.(flags := 0) == LastAt(queries, stop, s.runs)
    && if stop == |queries| then r.flags == 0
       else r.flags == BROKEN_ON_ZERO && IsBreak(queries[stop]) && Triggers(queries[stop], r)
  }

  /** ROLLBACK ends the call at the first rollback marker that should, or when a statement failed, except
      for a first deadlock that could be undone. */
  predicate RollbackRight(queries: seq<string>, r: SqlResult, s: Session, stop: nat)
    requires stop <= |queries|
  {
    stop < |queries| && Passed(queries, stop, s.runs)
    && if IsMarker(queries[stop]) then
         r.flags == ROLLED_BACK_ON_ZERO && !r.error && !IsBreak(queries[stop]) && Triggers(queries[stop], r)
         && r.(flags := 0) == LastAt(queries, stop, s.runs)
       else
         |s.runs| == |Statements(queries, stop)| + 1 && s.runs[|s.runs| - 1].error && r == Result(s.runs[|s.runs| - 1])
         && (IsDeadlock(s.runs[|s.runs| - 1]) && LastOk(s.trace) ==> Starts(s.trace) == 2)
  }

  lemma CommitOutcome(queries: seq<string>, committed: seq<string>, r: SqlResult, s: Session, stop: nat, reply: Reply)
    requires stop <= |queries| && InProgress(s, committed, queries, stop) && 1 <= Starts(s.trace) <= 2
    requires CommitRight(queries, r, s, stop)
    ensures Outcome(queries, committed, r, Release(Execute(s, Commit, reply)), stop)
  {
    var s' := Execute(s, Commit, reply);
    Committed(s, reply, committed, queries, stop);
    Unlocked(s');
    hide PhaseOf, RetriesOk, Statements, Passed, LastAt, Triggers, Starts, LastCommand, LastOk, IsDeadlock, DeadlockUndone;
    hide Execute, Release;
  }

  lemma RollbackOutcome(queries: seq<string>, committed: seq<string>, r: SqlResult, s: Session, stop: nat, reply: Reply)
    requires stop < |queries| && s.committed == committed && PhaseOf(s.trace) == Inside && RetriesOk(s.trace)
    requires 1 <= Starts(s.trace) <= 2 && Passed(queries, stop, s.runs)
    requires if IsMarker(queries[stop]) then
               r.flags == ROLLED_BACK_ON_ZERO && !r.error && !IsBreak(queries[stop]) && Triggers(queries[stop], r)
               && r.(flags := 0) == LastAt(queries, stop, s.runs)
             else
               |s.runs| == |Statements(queries, stop)| + 1 && s.runs[|s.runs| - 1].error && r == Result(s.runs[|s.runs| - 1])
               && (IsDeadlock(s.runs[|s.runs| - 1]) && !reply.error ==> Starts(s.trace) == 2)
    ensures Outcome(queries, committed, r, Release(Execute(s, Rollback, reply)), stop)
  {
    var s' := Execute(s, Rollback, reply);
    RolledBack(s, reply, committed);
    Unlocked(s');
    hide PhaseOf, RetriesOk, Statements, Passed, LastAt, Triggers, Starts, LastCommand, LastOk, IsDeadlock, DeadlockUndone;
    hide Execute, Release;
  }

  lemma StartOutcome(queries: seq<string>, committed: seq<string>, s: Session, reply: Reply)
    requires Untouched(s, committed) && Starts(s.trace) <= 1 && reply.error
    requires s.trace == [] || DeadlockUndone(s.trace)
    ensures Outcome(queries, committed, Result(reply), Release(Execute(s, Start, reply)), 0)
  {
    var s' := Execute(s, Start, reply);
    Started(s, reply, committed, queries);
    Unlocked(s');
    hide PhaseOf, RetriesOk, Statements, Passed, LastAt, Triggers, Starts, LastCommand, LastOk, IsDeadlock, DeadlockUndone;
    hide Execute, Release;
  }

  lemma Undone(s: Session, committed: seq<string>, queries: seq<string>, n: nat, r: Reply, reply: Reply)
    requires n <= |queries| && Broken(s, committed, queries, n, r) && !reply.error
    ensures var s' := Execute(s, Rollback, reply);
            Untouched(s', committed) && Starts(s'.trace) == Starts(s.trace)
            && (IsDeadlock(r) ==> DeadlockUndone(s'.trace))
  {
    RolledBack(s, reply, committed);
    hide PhaseOf, RetriesOk, Starts, IsDeadlock;
  }

  lemma BrokenIs(s: Session, committed: seq<string>, queries: seq<string>, n: nat, r: Reply)
    requires n <= |queries| && Broken(s, committed, queries, n, r)
    ensures s.committed == committed && PhaseOf(s.trace) == Inside && RetriesOk(s.trace) && r.error
    ensures Passed(queries, n, s.runs) && |s.runs| == |Statements(queries, n)| + 1 && s.runs[|s.runs| - 1] == r
  {
  }

  lemma InProgressIs(s: Session, committed: seq<string>, queries: seq<string>, n: nat)
    requires n <= |queries| && InProgress(s, committed, queries, n)
    ensures s.committed == committed && PhaseOf(s.trace) == Inside && RetriesOk(s.trace)
    ensures Passed(queries, n, s.runs) && !LastAt(queries, n, s.runs).error && LastAt(queries, n, s.runs).flags == 0
  {
  }

  /** The first entry, if a marker, always stops the list: no statement has affected or selected anything. */
  lemma FirstMarker(queries: seq<string>, runs: seq<Reply>)
    requires queries != []
    ensures LastAt(queries, 0, runs) == DEFAULT_RESULT
    ensures IsMarker(queries[0]) ==> Triggers(queries[0], DEFAULT_RESULT)
  {
  }

  lemma AtStart(queries: seq<string>, runs: seq<Reply>)
    ensures LastAt(queries, 0, runs) == DEFAULT_RESULT
  {
  }

  /** What an attempt at the list leads to: COMMIT, a return with the lock released, or a second attempt. */
  datatype Then = ToCommit | Returned | Again

  lemma MarkerKinds(query: string, last: SqlResult)
    ensures IsBreak(query) <==> query == BREAK_IF_ZERO_AFFECTED || query == BREAK_IF_ZERO_SELECTED
    ensures IsMarker(query)
       <==> IsBreak(query) || query == ROLLBACK_IF_ZERO_AFFECTED || query == ROLLBACK_IF_ZERO_SELECTED
    ensures IsBreak(query) ==>
      (Triggers(query, last) <==> (query == BREAK_IF_ZERO_AFFECTED && last.affected == 0)
                                  || (query == BREAK_IF_ZERO_SELECTED && Size(last) == 0))
    ensures IsMarker(query) && !IsBreak(query) ==>
      (Triggers(query, last) <==> (query == ROLLBACK_IF_ZERO_AFFECTED && last.affected == 0)
                                  || (query == ROLLBACK_IF_ZERO_SELECTED && Size(last) == 0))
    ensures forall f :: Triggers(query, last.(flags := f)) <==> Triggers(query, last)
  {
  }

  /** The loop over the list, lines 288-335. */
  method Attempt(queries: seq<string>, retry: nat, before: SqlResult, started: Session, server: nat -> Reply,
                 ghost committed: seq<string>)
    returns (last: SqlResult, s: Session, outcome: Then, ghost stop: nat)
    requires InProgress(started, committed, queries, 0) && Starts(started.trace) == retry + 1 <= 2
    requires if retry == 0 then before == DEFAULT_RESULT else queries != [] && !IsMarker(queries[0])
    ensures stop <= |queries|
    ensures outcome.ToCommit? ==>
      InProgress(s, committed, queries, stop) && Starts(s.trace) == retry + 1 && CommitRight(queries, last, s, stop)
    ensures outcome.Returned? ==> Outcome(queries, committed, last, s, stop)
    ensures outcome.Again? ==>
      retry == 0 && Untouched(s, committed) && Starts(s.trace) == 1 && DeadlockUndone(s.trace)
      && queries != [] && !IsMarker(queries[0])
  {
    hide *;
    last, s, outcome := before, started, ToCommit;
    AtStart(queries, s.runs);
    var i := 0;
    while i < |queries|
      invariant i <= |queries| && InProgress(s, committed, queries, i) && Starts(s.trace) == retry + 1
      invariant i > 0 || retry == 0 ==> last == LastAt(queries, i, s.runs)
      invariant i > 0 || retry > 0 ==> queries != [] && !IsMarker(queries[0])
    {
      var query := queries[i];
      MarkerKinds(query, last);
      FirstMarker(queries, s.runs);
      InProgressIs(s, committed, queries, i);
      if query == BREAK_IF_ZERO_AFFECTED || query == BREAK_IF_ZERO_SELECTED {
        if (query == BREAK_IF_ZERO_AFFECTED && last.affected == 0) || (query == BREAK_IF_ZERO_SELECTED && Size(last) == 0) {
          last := last.(flags := BROKEN_ON_ZERO);
          break;
        }
        Skipped(s, committed, queries, i);
      } else if query == ROLLBACK_IF_ZERO_AFFECTED || query == ROLLBACK_IF_ZERO_SELECTED {
        if (query == ROLLBACK_IF_ZERO_AFFECTED && last.affected == 0) || (query == ROLLBACK_IF_ZERO_SELECTED && Size(last) == 0) {
          last := last.(flags := ROLLED_BACK_ON_ZERO);
          RollbackOutcome(queries, committed, last, s, i, server(|s.trace|));
          s := Execute(s, Rollback, server(|s.trace|));
          return last, Release(s), Returned, i;
        }
        Skipped(s, committed, queries, i);
      } else {
        var reply := server(|s.trace|);
        Ran(s, reply, committed, queries, i);
        s := Execute(s, Run(query, CommandLock.KindOf(query)), reply);
        last := Result(reply);
        ResultIs(reply);
        if last.error {
          BrokenIs(s, committed, queries, i, reply);
          var undone := server(|s.trace|);
          if undone.error {
            RollbackOutcome(queries, committed, last, s, i, undone);
            s := Execute(s, Rollback, undone);
            return last, Release(s), Returned, i;
          } else if IsDeadlock(reply) && retry == 0 {
            Undone(s, committed, queries, i, reply, undone);
            s := Execute(s, Rollback, undone);
            return last, s, Again, i;
          } else {
            RollbackOutcome(queries, committed, last, s, i, undone);
            s := Execute(s, Rollback, undone);
            return last, Release(s), Returned, i;
          }
        }
      }
      i := i + 1;
    }
    stop := i;
    InProgressIs(s, committed, queries, i);
    CommitIs(queries, last, s, stop);
  }

  lemma ResultIs(r: Reply)
    ensures Result(r) == SqlResult(r.error, r.message, r.affected, r.rows, 0)
  {
  }

  lemma CommitIs(queries: seq<string>, last: SqlResult, s: Session, stop: nat)
    requires stop <= |queries| && Passed(queries, stop, s.runs)
    requires last.(flags := 0) == LastAt(queries, stop, s.runs) && !LastAt(queries, stop, s.runs).error
    requires if stop == |queries| then last.flags == 0
             else last.flags == BROKEN_ON_ZERO && IsBreak(queries[stop]) && Triggers(queries[stop], last)
    ensures CommitRight(queries, last, s, stop)
  {
  }

  lemma Untouching(before: Session)
    requires before.trace == [] && !before.open
    ensures Untouched(before, before.committed) && Starts(before.trace) == 0
  {
  }

  /** atomically. `before` is a connection on which no transaction is open; reply number `k` of the server
      is `server(k)`. */
  method Atomically(queries: seq<string>, granted: bool, before: Session, server: nat -> Reply)
    returns (result: SqlResult, s: Session)
    requires before.trace == [] && !before.open
    ensures granted ==> exists stop: nat :: Outcome(queries, before.committed, result, s, stop)
    ensures !granted ==> result.error && s == before
  {
    hide *;
    s := before;
    if !granted { return SqlResult(true, "lock failed", 0, 0, 0), s; }
    ghost var stop: nat := 0;
    var last := DEFAULT_RESULT;
    var maxRetries := 1;
    var retry := 0;
    Untouching(before);
    while retry < maxRetries
      invariant retry <= maxRetries <= 2 && stop <= |queries|
      invariant retry == 0 ==> last == DEFAULT_RESULT && s == before && maxRetries == 1
      invariant retry < maxRetries ==> Untouched(s, before.committed) && Starts(s.trace) == retry
      invariant 0 < retry < maxRetries ==> DeadlockUndone(s.trace) && queries != [] && !IsMarker(queries[0])
      invariant retry == maxRetries ==> InProgress(s, before.committed, queries, stop) && 1 <= Starts(s.trace) <= 2
                                        && CommitRight(queries, last, s, stop)
      decreases 2 - retry
    {
      var reply := server(|s.trace|);
      Started(s, reply, before.committed, queries);
      if reply.error {
        StartOutcome(queries, before.committed, s, reply);
        s := Execute(s, Start, reply);
        return Result(reply), Release(s);
      }
      s := Execute(s, Start, reply);
      var outcome;
      last, s, outcome, stop := Attempt(queries, retry, last, s, server, before.committed);
      if outcome.Returned? { return last, s; }
      if outcome.Again? { maxRetries := 2; }
      retry := retry + 1;
    }
    CommitOutcome(queries, before.committed, last, s, stop, server(|s.trace|));
    s := Execute(s, Commit, server(|s.trace|));
    return last, Release(s);
  }

  /** A call that reports an error or a rollback changed nothing, and if the last command worked, left
      no transaction behind. */
  lemma UndoneIsUnchanged(queries: seq<string>, committed: seq<string>, r: SqlResult, s: Session, stop: nat)
    requires Outcome(queries, committed, r, s, stop) && (r.error || r.flags == ROLLED_BACK_ON_ZERO)
    ensures s.committed == committed && (LastOk(s.trace) ==> !s.open)
  {
  }

  /** A call that reports success is right exactly if the COMMIT worked: its failure is only logged. */
  lemma SuccessIsRightIff(queries: seq<string>, committed: seq<string>, r: SqlResult, s: Session, stop: nat)
    requires Outcome(queries, committed, r, s, stop) && !r.error && r.flags != ROLLED_BACK_ON_ZERO
    requires Statements(queries, stop) != []
    ensures s.committed == committed + Statements(queries, stop) <==> LastOk(s.trace)
  {
    assert |committed + Statements(queries, stop)| != |committed|;
  }

  /** The failure: one statement, and a server that runs it but not the COMMIT. The call reports success
      without a flag, and the database is as it was. */
  lemma FailedCommitIsSuccess(committed: seq<string>)
    ensures var ok, failed := Reply(false, "", 1, 0, false), Reply(true, "", 0, 0, false);
            var begun := Execute(Session(committed, committed, false, [], []), Start, ok);
            var ran := Execute(begun, Run("X", CommandLock.KindOf("X")), ok);
            var s, r := Release(Execute(ran, Commit, failed)), Result(ok);
            Outcome(["X"], committed, r, s, 1) && !r.error && r.flags == 0
            && s.committed == committed && Statements(["X"], 1) == ["X"]
  {
    var ok, failed := Reply(false, "", 1, 0, false), Reply(true, "", 0, 0, false);
    var before, queries := Session(committed, committed, false, [], []), ["X"];
    var begun := Execute(before, Start, ok);
    var ran := Execute(begun, Run("X", CommandLock.KindOf("X")), ok);
    NotMarker();
    assert Statements(queries, 0) == [] && Statements(queries, 1) == ["X"];
    hide *;
    Untouching(before);
    BeforeIs(committed);
    Started(before, ok, committed, queries);
    Ran(begun, ok, committed, queries, 0);
    ResultIs(ok);
    InProgressIs(ran, committed, queries, 1);
    CommitIs(queries, Result(ok), ran, 1);
    CommitOutcome(queries, committed, Result(ok), ran, 1, failed);
    Committed(ran, failed, committed, queries, 1);
    ReleaseIs(Execute(ran, Commit, failed));
  }

  lemma NotMarker()
    ensures !IsMarker("X")
  {
    assert |"X"| == 1 && |"@B0"| == 3;
  }

  lemma BeforeIs(committed: seq<string>)
    ensures var s := Session(committed, committed, false, [], []); s.committed == committed && s.trace == []
  {
  }

  lemma ReleaseIs(s: Session)
    ensures Release(s).committed == s.committed
  {
  }
}
