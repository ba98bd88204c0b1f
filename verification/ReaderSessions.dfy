/** What the reads of an afd yield over whole sessions: bytes arrive in any pieces, coroutines issue reads
    when they are resumed. When is what they get the split of the stream? */
module ReaderSessions {
  import opened DelimiterScan
  import opened Kmp
  import opened StreamReader

  // ---------- reading is splitting ----------

  /** What the reads yield, as a function of the stream alone: each takes its bytes off what is left, an
      `Until` up to the first delimiter, while that is possible. What `Any` yields is no such function. */
  function SplitBy(stream: string, requests: seq<Request>): seq<string>
    decreases |requests|
  {
    if requests == [] || stream == "" then []
    else
      match requests[0]
      case Any => []
      case N(n) => if |stream| < n then [] else [stream[..n]] + SplitBy(stream[n..], requests[1..])
      case Until(delim) =>
        var i := FirstOccurrence(stream, delim, 0);
        if delim == "" || i < 0 then [] else [stream[..i]] + SplitBy(stream[i + |delim|..], requests[1..])
  }

  /** What a read of this kind has to yield from the rest of the stream. */
  predicate IsNext(r: Request, arg: string, rest: string) {
    match r
    case Any => false
    case N(n) => rest != "" && |arg| == n
    case Until(delim) => delim != "" && FirstOccurrence(rest, delim, 0) == |arg|
  }

  lemma DeliveryIsNext(d: Delivery, stream: string)
    requires DeliveryOk(d, stream) && Sane(d.request) && EntryKept(d)
    ensures IsNext(d.request, d.arg, stream)
  {
    if d.request.Until? {
      var seen, delim := Concat(d.attempts), d.request.delim;
      KeptAgrees(d.attempts, delim);
      assert stream == seen + stream[|seen|..];
      hide Run, Kept, Flat;
      OccurrenceStays(seen, stream[|seen|..], delim);
    }
  }

  lemma SplitHead(stream: string, requests: seq<Request>, arg: string, taken: nat)
    requires requests != [] && IsNext(requests[0], arg, stream) && |arg| <= taken <= |stream| && stream[..|arg|] == arg
    requires taken == |arg| + if requests[0].Until? then |requests[0].delim| else 0
    ensures SplitBy(stream, requests) == [arg] + SplitBy(stream[taken..], requests[1..])
  {
    hide FirstOccurrence, SplitBy;
    if requests[0].N? { SplitNext(stream, requests, requests[0].n); } else { SplitUntil(stream, requests); }
  }

  lemma SplitNext(stream: string, requests: seq<Request>, n: nat)
    requires requests != [] && stream != "" && requests[0] == N(n) && n <= |stream|
    ensures SplitBy(stream, requests) == [stream[..n]] + SplitBy(stream[n..], requests[1..])
  {
  }

  lemma SplitUntil(stream: string, requests: seq<Request>)
    requires Scanning(requests) && stream != ""
    requires 0 <= FirstOccurrence(stream, requests[0].delim, 0) <= |stream| - |requests[0].delim|
    ensures var i := FirstOccurrence(stream, requests[0].delim, 0);
            SplitBy(stream, requests) == [stream[..i]] + SplitBy(stream[i + |requests[0].delim|..], requests[1..])
  {
    hide FirstOccurrence;
  }

  lemma SplitStep(stream: string, d: Delivery, later: seq<Request>)
    requires IsNext(d.request, d.arg, stream) && |Taken(d)| <= |stream| && stream[..|Taken(d)|] == Taken(d)
    ensures SplitBy(stream, [d.request] + later) == [d.arg] + SplitBy(stream[|Taken(d)|..], later)
  {
    hide IsNext, SplitBy;
    assert ([d.request] + later)[1..] == later;
    SplitHead(stream, [d.request] + later, d.arg, |Taken(d)|);
  }

  lemma EntryIsNext(log: seq<Delivery>, received: string, i: nat)
    requires LogOk(log, received) && i < |log| && Sane(log[i].request) && EntryKept(log[i])
    ensures |Bytes(log[..i])| <= |received| && IsNext(log[i].request, log[i].arg, received[|Bytes(log[..i])|..])
  {
    assert EntryOk(log, received, i);
    DeliveryIsNext(log[i], received[|Bytes(log[..i])|..]);
  }

  /** From delivery `i` on, the delivered arguments are the split of the rest of the stream, and what is
      left waits for its split of the window. */
  lemma {:induction false} DeliveriesSplit(log: seq<Delivery>, waiting: seq<Request>, received: string, window: string, i: nat)
    requires Conserved(log, received, window) && i <= |log|
    requires forall j :: 0 <= j < |log| ==> Sane(log[j].request) && EntryKept(log[j])
    ensures |Bytes(log[..i])| <= |received|
    ensures SplitBy(received[|Bytes(log[..i])|..], Requests(log)[i..] + waiting) == Args(log)[i..] + SplitBy(window, waiting)
    decreases |log| - i
  {
    hide DeliveryOk, Taken, Bytes, SplitBy, Sane, LogOk, EntryKept, IsNext;
    if i == |log| {
      assert log[..i] == log;
      assert received[|Bytes(log)|..] == window;
      assert Requests(log)[i..] + waiting == waiting;
    } else {
      BytesStep(log, received, i);
      DeliveriesSplit(log, waiting, received, window, i + 1);
      EntryIsNext(log, received, i);
      var rest := received[|Bytes(log[..i])|..];
      assert rest[|Taken(log[i])|..] == received[|Bytes(log[..i + 1])|..];
      assert Args(log)[i..] == [log[i].arg] + Args(log)[i + 1..];
      SplitStep(rest, log[i], Requests(log)[i + 1..] + waiting);
      assert Requests(log)[i..] + waiting == [log[i].request] + (Requests(log)[i + 1..] + waiting);
    }
  }

  /** What was delivered is the split of everything received by everything asked for. */
  predicate Right(v: View) {
    Args(v.log) == SplitBy(v.received, v.issued)
  }

  lemma SplitOfStream(v: View)
    requires Ok(v) && !v.closed && LogKept(v)
    ensures SplitBy(v.received, v.issued) == Args(v.log) + SplitBy(Window(v), v.commands)
  {
    forall j | 0 <= j < |v.log| ensures Sane(v.log[j].request) {
      assert v.issued[j] == Requests(v.log)[j];
    }
    hide EntryKept, Sane, SplitBy, ScanGood, ScanOk, ScriptSane;
    DeliveriesSplit(v.log, v.commands, v.received, Window(v), 0);
    assert v.log[..0] == [] && v.received[0..] == v.received;
    assert Requests(v.log)[0..] + v.commands == v.issued && Args(v.log)[0..] == Args(v.log);
  }

  /** A command that waits has nothing to split off, lost match or not. */
  lemma StarvedSplitsNothing(v: View)
    requires Ok(v) && !v.closed && Starved(v) && LogKept(v) && ScanGood(v)
    ensures SplitBy(Window(v), v.commands) == []
  {
    if v.commands != [] && Window(v) != "" {
      FrontSane(v);
      if v.commands[0].Until? {
        var delim := v.commands[0].delim;
        ScanRange(v);
        if Kept(v.attempts, delim) { KeptAgrees(v.attempts, delim); }
        assert Window(v)[..|Window(v)|] == Window(v);
      }
    }
    hide Conserved, EntryKept, AllSane, ScriptSane, Kept, Flat, LongestPartial, FirstOccurrence;
  }

  lemma GoodIsRight(v: View)
    requires Ok(v) && !v.closed && Starved(v) && LogKept(v) && ScanGood(v)
    ensures Right(v)
  {
    SplitOfStream(v);
    StarvedSplitsNothing(v);
    hide *;
    RightIs(v);
  }

  lemma RightIs(v: View)
    ensures Right(v) <==> Args(v.log) == SplitBy(v.received, v.issued)
  {
  }

  lemma KeptIsLogKept(v: View)
    requires AllKept(v) && AllSane(v.issued)
    ensures LogKept(v)
  {
    hide EntryKept, AllSane, Kept;
  }

  /** If no attempt lacked a byte, what the object delivered is the split of everything received by the
      reads issued, from outside or by resumed coroutines. */
  lemma {:induction false} ReadsSplitTheStream(reader: Reader)
    requires reader.Valid() && !reader.closed && Starved(reader.Now())
    requires AllSane(reader.issued) && AllKept(reader.Now())
    ensures Args(reader.log) == SplitBy(reader.received, reader.issued)
  {
    KeptIsGood(reader.Now());
    KeptIsLogKept(reader.Now());
    GoodIsRight(reader.Now());
  }

  // ---------- whole sessions ----------

  ghost predicate Starts(v: View) {
    v == Opened(v.onEmpty, v.script) && ScriptSane(v.script)
  }

  ghost predicate Asks(v: View, v': View, request: Request) {
    Sane(request) && v' == Issued(v, request, Work(v) + 1)
  }

  ghost predicate Hears(v: View, v': View, data: string) {
    v' == Arrived(v, data, Work(v))
  }

  /** A read is issued from outside, or bytes arrive. */
  ghost predicate Step(v: View, v': View) {
    (exists request :: Asks(v, v', request)) || exists data :: Hears(v, v', data)
  }

  /** Bytes arrive in any pieces, and reads are issued at any time besides those of the script. */
  ghost predicate Session(run: seq<View>) {
    run != [] && Starts(run[0])
    && forall i :: 0 < i < |run| ==> Step(run[i - 1], run[i])
  }

  /** The object as the next bytes find it: a callback for an empty queue runs before them. */
  function Awaiting(v: View): View {
    Refilled(v, Work(v))
  }

  ghost predicate Steady(v: View) {
    Ok(v) && !v.closed && Starved(v)
  }

  lemma StartSteady(v: View)
    requires Starts(v)
    ensures Steady(v) && Faithful(v)
  {
    assert v.commands == [] && v.log == [] && v.issued == [];
    assert Window(v) == "";
  }

  lemma {:induction false} StepSteady(v: View, v': View)
    requires Steady(v) && Step(v, v')
    ensures Steady(v') && (Faithful(v) && AllKept(Awaiting(v)) ==> Faithful(v'))
  {
    hide Ok, Faithful, AllKept, Starved, Issued, Arrived, Refilled, Sane, AllSane;
    if request :| Asks(v, v', request) {
      IssuedKeeps(v, request, Work(v) + 1);
      OneSane(request);
    } else {
      var data :| Hears(v, v', data);
      ArrivedKeeps(v, data, Work(v));
    }
  }

  lemma OneSane(request: Request)
    ensures Sane(request) ==> AllSane([request])
  {
  }

  /** While no object in the session waits with a lost match, every one is faithful. */
  lemma {:induction false} SessionSteady(run: seq<View>, n: nat)
    requires Session(run) && n < |run|
    ensures Steady(run[n])
    ensures (forall i :: 0 <= i < n ==> AllKept(Awaiting(run[i]))) ==> Faithful(run[n])
  {
    hide Steady, Faithful, AllKept, Awaiting, Starts, Step;
    if n == 0 {
      StartSteady(run[0]);
    } else {
      SessionSteady(run, n - 1);
      StepSteady(run[n - 1], run[n]);
    }
  }

  /** Waiting with all it needs, the object gets the next bytes right, whatever they are. */
  lemma {:induction false} KeptGoesRight(v: View, data: string)
    requires Steady(v) && Faithful(v) && AllKept(Awaiting(v))
    ensures Right(Arrived(v, data, Work(v)))
  {
    hide Ok, Faithful, AllKept, Starved, Arrived, Refilled, Right;
    ArrivedKeeps(v, data, Work(v));
    FaithfulIs(Arrived(v, data, Work(v)));
    GoodIsRight(Arrived(v, data, Work(v)));
  }

  lemma SteadyIsRight(v: View)
    requires Steady(v) && Faithful(v)
    ensures Right(v)
  {
    FaithfulIs(v);
    GoodIsRight(v);
    hide Ok, Faithful, Starved, Right;
  }

  /** A faithful object that has not kept all has just lost the match of its command in front. */
  lemma LostFront(w: View) returns (rest: string)
    requires Ok(w) && !w.closed && Faithful(w) && !AllKept(w)
    ensures Scanning(w.commands) && rest != "" && w.delimOffset == |Window(w)| && 0 <= w.delimMatch < |w.commands[0].delim|
    ensures FirstOccurrence(Window(w) + rest, w.commands[0].delim, 0) >= 0
    ensures var a := Attempt(Window(w) + rest, w.commands[0].delim, |Window(w)|, w.delimMatch);
            a.Blocked? && a.offset == |Window(w) + rest|
  {
    hide EntryKept, Kept, AllSane, ScriptSane, Conserved, InOrder, Run, Concat, FirstOccurrence, LongestPartial, Attempt, Window;
    rest := LostIsMissed(Window(w), w.commands[0].delim, w.delimMatch);
    LongestRange(Window(w), w.commands[0].delim);
  }

  lemma LongestRange(text: string, delim: string)
    requires delim != ""
    ensures LongestPartial(text, delim, 0) <= |text|
  {
    var k := LongestPartial(text, delim, 0);
    assert PartialAt(text, delim, 0, |text|, k);
  }

  /** Bytes on which the command in front stays blocked change nothing but the scan. */
  lemma OnlyScanned(v: View, data: string, fuel: nat)
    requires Scanning(v.commands) && v.offset <= |v.buffer| && data != "" && fuel > 0 && Try(Appended(v, data)).Blocked?
    ensures var t := Try(Appended(v, data));
            Served(Appended(v, data), fuel) == Stuck(Appended(v, data), t.offset, t.matched)
    ensures var s := Served(Appended(v, data), fuel); Refilled(Compacted(s), fuel) == s && Compacted(s).buffer != ""
  {
    hide Try, Tried, Resumed;
  }

  lemma {:induction false} ArrivesStuck(v: View, data: string)
    requires !v.closed && data != ""
    requires var w := Awaiting(v);
             Scanning(w.commands) && w.offset <= |w.buffer| && Try(Appended(w, data)).Blocked? && Work(v) > 0
    ensures var w, a := Awaiting(v), Arrived(v, data, Work(v));
            a.log == w.log && a.received == w.received + data && a.issued == w.issued
  {
    OnlyScanned(Awaiting(v), data, Work(v));
    hide Refilled, Served, Compacted, Try, Tried, Scanning;
  }

  lemma SplitsOne(stream: string, requests: seq<Request>)
    requires Scanning(requests) && stream != "" && FirstOccurrence(stream, requests[0].delim, 0) >= 0
    ensures SplitBy(stream, requests) != []
  {
    hide FirstOccurrence;
  }

  /** Waiting with a lost match, it misses a delimiter once the bytes come that complete the match. */
  lemma {:induction false} LostGoesWrong(v: View) returns (data: string)
    requires Steady(v) && Faithful(v) && !AllKept(Awaiting(v))
    ensures !Right(Arrived(v, data, Work(v)))
  {
    hide *;
    var w := Awaiting(v);
    AwaitingIs(v);
    data := LostFront(w);
    OkIs(w);
    AppendedOk(w, data);
    var more := Appended(w, data);
    AppendedIs(w, data);
    ArrivesStuck(v, data);
    SplitOfStream(more);
    SplitsOne(Window(more), more.commands);
    RightIs(Arrived(v, data, Work(v)));
  }

  lemma {:induction false} AwaitingIs(v: View)
    requires Steady(v) && Faithful(v)
    ensures var w := Awaiting(v); Ok(w) && !w.closed && Faithful(w) && !v.closed && (w.commands != [] ==> Work(v) > 0)
    ensures forall requests :: Scanning(requests) ==> requests != []
  {
    RefilledKeeps(v, Work(v));
    hide Ok, Faithful, Refilled, Starved, Window;
  }

  lemma AppendedIs(w: View, data: string)
    requires Faithful(w) && Scanning(w.commands) && Window(Appended(w, data)) == Window(w) + data
    requires w.delimOffset == |Window(w)| && 0 <= w.delimMatch < |w.commands[0].delim|
    ensures var a := Appended(w, data);
            LogKept(a) && !a.closed == !w.closed && a.commands == w.commands && a.log == w.log && a.issued == w.issued
            && a.received == w.received + data
            && Try(a) == Attempt(Window(w) + data, w.commands[0].delim, |Window(w)|, w.delimMatch)
  {
    hide EntryKept, AllSane, ScriptSane, ScanGood, Attempt, Window;
  }

  /** What arrives is split right in every continuation of a session exactly if no object in it waits with
      a match it dropped for lack of a byte that decides it. */
  lemma {:induction false} SessionRightIff(run: seq<View>)
    requires Session(run)
    ensures (forall i, data :: 0 <= i < |run| ==> Right(Arrived(run[i], data, Work(run[i]))))
        <==> forall i :: 0 <= i < |run| ==> AllKept(Awaiting(run[i]))
    ensures (forall i :: 0 <= i < |run| ==> AllKept(Awaiting(run[i]))) ==> forall i :: 0 <= i < |run| ==> Right(run[i])
  {
    hide *;
    if forall i :: 0 <= i < |run| ==> AllKept(Awaiting(run[i])) {
      forall i | 0 <= i < |run| ensures Right(run[i]) {
        SessionSteady(run, i);
        SteadyIsRight(run[i]);
      }
      forall i, data | 0 <= i < |run| ensures Right(Arrived(run[i], data, Work(run[i]))) {
        SessionSteady(run, i);
        KeptGoesRight(run[i], data);
      }
    } else {
      var i := FirstLoss(run, |run|);
      SessionSteady(run, i);
      var data := LostGoesWrong(run[i]);
    }
  }

  lemma {:induction false} FirstLoss(run: seq<View>, n: nat) returns (i: nat)
    requires n <= |run| && exists k :: 0 <= k < n && !AllKept(Awaiting(run[k]))
    ensures i < n && !AllKept(Awaiting(run[i])) && forall k :: 0 <= k < i ==> AllKept(Awaiting(run[k]))
  {
    hide *;
    i := 0;
    while AllKept(Awaiting(run[i]))
      invariant i < n && forall k :: 0 <= k < i ==> AllKept(Awaiting(run[k]))
      decreases n - i
    {
      i := i + 1;
    }
  }

  // ---------- pieces that end between delimiters ----------

  /** The unread bytes do not end inside the delimiter that is being read. */
  predicate Uncut(v: View) {
    var w := Awaiting(v);
    Scanning(w.commands) ==> LongestPartial(Window(w), w.commands[0].delim, 0) == 0
  }

  /** Then there is no match to lose. */
  lemma {:induction false} UncutKeeps(v: View)
    requires Steady(v) && Faithful(v) && Uncut(v)
    ensures AllKept(Awaiting(v))
  {
    var w := Awaiting(v);
    AwaitingIs(v);
    ScanIsOk(w);
    ScanRange(w);
    hide Steady, Awaiting, EntryKept, Kept, AllSane, ScriptSane, FirstOccurrence, LongestPartial, Run, Concat, Window, Try;
  }

  lemma ScanIsOk(w: View)
    requires Ok(w) && !w.closed
    ensures ScanOk(w)
  {
  }

  /** Sessions in which no piece ends inside a delimiter that is being read go right, whatever coroutines
      are resumed and whatever they read. */
  lemma {:induction false} UncutSession(run: seq<View>, n: nat)
    requires Session(run) && n < |run| && forall i :: 0 <= i <= n ==> Uncut(run[i])
    ensures forall i :: 0 <= i <= n ==> AllKept(Awaiting(run[i])) && Right(run[i])
    ensures forall data :: Right(Arrived(run[n], data, Work(run[n])))
  {
    hide *;
    if n > 0 { UncutSession(run, n - 1); }
    SessionSteady(run, n);
    UncutKeeps(run[n]);
    SteadyIsRight(run[n]);
    forall data ensures Right(Arrived(run[n], data, Work(run[n]))) { KeptGoesRight(run[n], data); }
  }

  /** It is enough that the stream so far does not end inside any delimiter that is waited for. */
  lemma {:induction false} StreamUncut(v: View)
    requires Steady(v)
    requires forall r :: r in Awaiting(v).commands && r.Until? && r.delim != "" ==> LongestPartial(v.received, r.delim, 0) == 0
    ensures Uncut(v)
  {
    var w := Awaiting(v);
    RefilledKeeps(v, Work(v));
    if Scanning(w.commands) {
      var delim := w.commands[0].delim;
      assert w.commands[0] in w.commands;
      WindowIsSuffix(v, w);
      PartialOfSuffix(Bytes(w.log), Window(w), delim);
    }
    hide Ok, Awaiting, LongestPartial, Window;
  }

  lemma WindowIsSuffix(v: View, w: View)
    requires Keeps(v, w) && !v.closed
    ensures v.received == Bytes(w.log) + Window(w)
  {
    hide Faithful, ScanOk, InOrder, LogOk;
  }

  lemma PartialOfSuffix(before: string, window: string, delim: string)
    requires delim != ""
    ensures LongestPartial(window, delim, 0) <= LongestPartial(before + window, delim, 0)
  {
    var text, k := before + window, LongestPartial(window, delim, 0);
    assert text[|text| - k..] == window[|window| - k..];
    assert PartialAt(text, delim, 0, |text|, k);
  }

  // ---------- a delimiter lost ----------

  /** Where a delimiter of two bytes starts, byte by byte. */
  lemma PairAt(text: string, delim: string, i: nat)
    requires |delim| == 2
    ensures OccursAt(text, delim, i) <==> i + 2 <= |text| && text[i] == delim[0] && text[i + 1] == delim[1]
  {
    if i + 2 <= |text| { assert text[i..i + 2] == [text[i], text[i + 1]] && delim == [delim[0], delim[1]]; }
  }

  lemma FirstPair(text: string, delim: string, from: nat, i: nat)
    requires |delim| == 2 && from <= i && i + 2 <= |text| && text[i] == delim[0] && text[i + 1] == delim[1]
    requires forall j :: from <= j < i ==> text[j] != delim[0]
    ensures FirstOccurrence(text, delim, from) == i
  {
    PairAt(text, delim, i);
    var first := FirstOccurrence(text, delim, from);
    PairAt(text, delim, first);
  }

  /** A delimiter of two bytes, the first of them at the end of the text. */
  lemma HalfPair(text: string, delim: string)
    requires |delim| == 2 && |text| == 2 && text[0] != delim[0] && text[1] == delim[0]
    ensures FirstOccurrence(text, delim, 0) == -1 && LongestPartial(text, delim, 0) == 1
  {
    var first := FirstOccurrence(text, delim, 0);
    if first >= 0 { PairAt(text, delim, first); }
    assert text[1..2] == [text[1]] && delim[..1] == [delim[0]];
    assert PartialAt(text, delim, 0, 2, 1);
  }

  lemma LineAttempts()
    ensures Attempt("a\r\nb\r", "\r\n", 0, 0) == Done(3) && Attempt("b\r", "\r\n", 0, 0) == Blocked(2, 1)
    ensures Attempt("b\r", "\r\n", 2, 1) == Blocked(2, 0) && Attempt("b\r\nc\r\n", "\r\n", 2, 0) == Done(6)
  {
    FirstPair("a\r\nb\r", "\r\n", 0, 1);
    HalfPair("b\r", "\r\n");
    FirstPair("b\r\nc\r\n", "\r\n", 2, 4);
    assert PartialAt("b\r", "\r\n", 2, 2, LongestPartial("b\r", "\r\n", 2));
  }

  const LINE := Until("\r\n")

  /** A read to the end of a line; once it is served, its coroutine reads the next one. */
  function LineReader(): View {
    View(false, "", 0, 0, 0, [LINE], false, [[LINE]], "", [], [], [], [LINE])
  }

  /** `n` bytes of "a\r\nb\r" taken, and where the scan for the second line stands behind some attempts. */
  function SecondLine(attempts: seq<string>, delimOffset: nat, delimMatch: nat): View {
    View(false, "a\r\nb\r", 3, delimOffset, delimMatch, [LINE], false, [], "a\r\nb\r",
         [Delivery(LINE, "a", ["a\r\nb\r"])], attempts, [], [LINE, LINE])
  }

  lemma LineOpens()
    ensures Issued(Opened(false, [[LINE]]), LINE, 2) == LineReader()
  {
    assert [] + [LINE] == [LINE];
  }

  lemma LineStarts()
    ensures var v := Appended(LineReader(), "a\r\nb\r");
            Try(v).Done? && Scanning(v.commands) && Window(v) != ""
            && Popped(Completed(v)) == SecondLine([], 0, 0).(commands := [], issued := [LINE])
            && Completed(v).script == [[LINE]]
  {
    LineAttempts();
    var v := Appended(LineReader(), "a\r\nb\r");
    assert Window(v) == "a\r\nb\r" && Try(v) == Done(3);
    assert Window(v)[..1] == "a" && Window(v)[0..] == Window(v);
    assert [] + ["a\r\nb\r"] == ["a\r\nb\r"];
    assert [] + [Delivery(LINE, "a", ["a\r\nb\r"])] == [Delivery(LINE, "a", ["a\r\nb\r"])];
  }

  /** The attempt of the resumed coroutine's read, and the second attempt of the loop it was resumed from. */
  lemma LineRetried()
    ensures Served(SecondLine([], 0, 0), 1) == SecondLine(["b\r"], 2, 1)
    ensures Served(SecondLine(["b\r"], 2, 1), 1) == SecondLine(["b\r", ""], 2, 0)
  {
    LineAttempts();
    assert "a\r\nb\r"[3..] == "b\r" && "b\r"[0..] == "b\r" && "b\r"[2..] == "";
    assert Window(SecondLine([], 0, 0)) == "b\r" && Window(SecondLine(["b\r"], 2, 1)) == "b\r";
    assert Try(SecondLine([], 0, 0)) == Blocked(2, 1);
    assert Try(SecondLine(["b\r"], 2, 1)) == Blocked(2, 0);
    assert ["b\r"] + [""] == ["b\r", ""];
  }

  lemma LineResumed()
    ensures Resumed(Completed(Appended(LineReader(), "a\r\nb\r")), 1) == SecondLine(["b\r"], 2, 1)
  {
    LineStarts();
    LineRetried();
    hide Completed, Served, Appended, Try;
    var popped := SecondLine([], 0, 0).(commands := [], issued := [LINE]);
    assert [] + [LINE] == [LINE] && [LINE] + [LINE] == [LINE, LINE];
    assert Issued(popped, LINE, 1) == Cycled(SecondLine([], 0, 0), 1) == SecondLine(["b\r"], 2, 1);
    assert IssuedAll(popped, [LINE], 1) == Issued(popped, LINE, 1);
  }

  lemma FirstLineArrives()
    ensures Arrived(LineReader(), "a\r\nb\r", 2) == SecondLine(["b\r", ""], 2, 0)
  {
    LineStarts();
    LineResumed();
    LineRetried();
    hide Completed, Resumed, Try;
    var v := Appended(LineReader(), "a\r\nb\r");
    assert Served(v, 2) == Served(Resumed(Completed(v), 1), 1);
  }

  /** Both deliveries made; the second one took a delimiter for text. */
  function BothLines(): View {
    View(false, "a\r\nb\r\nc\r\n", 9, 0, 0, [], false, [], "a\r\nb\r\nc\r\n",
         [Delivery(LINE, "a", ["a\r\nb\r"]), Delivery(LINE, "b\r\nc", ["b\r", "", "\nc\r\n"])], [], [], [LINE, LINE])
  }

  lemma SecondLineFound()
    ensures var v := Appended(SecondLine(["b\r", ""], 2, 0), "\nc\r\n");
            Scanning(v.commands) && Try(v) == Done(6) && Window(v) == "b\r\nc\r\n" && Completed(v) == BothLines()
  {
    LineAttempts();
    hide Attempt;
    var v := Appended(SecondLine(["b\r", ""], 2, 0), "\nc\r\n");
    assert "a\r\nb\r" + "\nc\r\n" == "a\r\nb\r\nc\r\n";
    assert Window(v) == "b\r\nc\r\n" && Window(v)[2..] == "\nc\r\n";
    assert Try(v) == Done(6);
    assert Window(v)[..4] == "b\r\nc";
    assert ["b\r", ""] + ["\nc\r\n"] == ["b\r", "", "\nc\r\n"];
    hide Try;
  }

  lemma SecondLineArrives()
    ensures var v := Arrived(SecondLine(["b\r", ""], 2, 0), "\nc\r\n", 1);
            Args(v.log) == ["a", "b\r\nc"] && v.received == "a\r\nb\r\nc\r\n" && v.issued == [LINE, LINE]
  {
    SecondLineFound();
    var w, data := SecondLine(["b\r", ""], 2, 0), "\nc\r\n";
    hide Try, Completed, Window, Appended, Tried, Missed;
    ServedUnfolds(Appended(w, data), 1);
    assert Served(Appended(w, data), 1) == BothLines() && Refilled(w, 1) == w;
    assert Arrived(w, data, 1) == BothLines().(offset := 0, buffer := "");
  }

  lemma LineEnds()
    ensures FirstOccurrence("a\r\nb\r\nc\r\n", "\r\n", 0) == 1 && FirstOccurrence("b\r\nc\r\n", "\r\n", 0) == 1
    ensures "a\r\nb\r\nc\r\n"[3..] == "b\r\nc\r\n" && "a\r\nb\r\nc\r\n"[..1] == "a" && "b\r\nc\r\n"[..1] == "b"
    ensures Scanning([LINE, LINE]) && Scanning([LINE])
  {
    FirstPair("a\r\nb\r\nc\r\n", "\r\n", 0, 1);
    FirstPair("b\r\nc\r\n", "\r\n", 0, 1);
    hide FirstOccurrence;
  }

  lemma LinesOf()
    ensures SplitBy("a\r\nb\r\nc\r\n", [LINE, LINE]) == ["a", "b"]
  {
    hide SplitBy, FirstOccurrence, Scanning;
    var text, rest := "a\r\nb\r\nc\r\n", "b\r\nc\r\n";
    LineEnds();
    SplitUntil(text, [LINE, LINE]);
    SplitUntil(rest, [LINE]);
    assert [LINE, LINE][1..] == [LINE] && [LINE][1..] == [];
    SplitNothing(rest[3..]);
  }

  lemma SplitNothing(stream: string)
    ensures SplitBy(stream, []) == []
  {
  }

  /** The input: a line is waited for, and its coroutine reads the next. The first piece ends inside the
      second delimiter. The read of the resumed coroutine finds that half, the loop tries the same command
      once more on no new bytes and drops it, and the next piece is not cut at that delimiter. */
  lemma RescanLosesDelimiter()
    ensures var v := Issued(Opened(false, [[LINE]]), LINE, 2);
            var first := Arrived(v, "a\r\nb\r", Work(v));
            var second := Arrived(first, "\nc\r\n", Work(first));
            Args(second.log) == ["a", "b\r\nc"] && SplitBy(second.received, second.issued) == ["a", "b"]
            && !Kept(first.attempts, "\r\n")
  {
    LineOpens();
    FirstLineArrives();
    SecondLineArrives();
    LinesOf();
    LineWork();
    EmptyIsLost();
    hide *;
  }

  lemma LineWork()
    ensures Work(Opened(false, [[LINE]])) == 1 && Work(LineReader()) == 2
    ensures var v := SecondLine(["b\r", ""], 2, 0); Work(v) == 1 && v.attempts == ["b\r", ""]
  {
    assert Total([[LINE]]) == 1 + Total([]);
  }

  lemma EmptyIsLost()
    ensures !Kept(["b\r", ""], "\r\n")
  {
    LineAttempts();
    KeptSnoc(["b\r"], "", "\r\n");
    assert ["b\r"][..0] == [] && ["b\r"] + [""] == ["b\r", ""];
    assert Concat(["b\r"]) == "b\r";
    assert Run(["b\r"], "\r\n") == Blocked(2, 1);
    assert "" < "\r\n"[1..];
  }

  /** The same on the object. */
  method TwoLines() returns (reader: Reader)
    ensures fresh(reader) && reader.received == "a\r\nb\r\nc\r\n" && reader.issued == [LINE, LINE]
    ensures Args(reader.log) == ["a", "b\r\nc"] && SplitBy(reader.received, reader.issued) == ["a", "b"]
  {
    reader := new Reader(false, [[LINE]]);
    LineOpens();
    LineWork();
    FirstLineArrives();
    SecondLineArrives();
    LinesOf();
    hide Issued, Arrived, SplitBy, SecondLine, Work, Ok;
    reader.Read(LINE, 2);
    reader.OnData("a\r\nb\r", false, 2);
    reader.OnData("\nc\r\n", false, 1);
  }

  // ---------- enough bytes ----------

  /** Delimiters that `n` bytes decide, whatever was matched before. */
  predicate Short(requests: seq<Request>, n: nat) {
    forall i :: 0 <= i < |requests| && requests[i].Until? ==> |requests[i].delim| <= n + 1
  }

  /** Nobody is resumed, no attempt lacked a byte, and the next one has `n` new bytes or is a first one. */
  predicate Fed(v: View, n: nat) {
    v.script == [] && AllKept(v) && Short(v.commands, n)
    && (Scanning(v.commands) && v.attempts != [] ==> |Window(v)| - v.delimOffset >= n)
  }

  lemma LongIsDecided(delim: string, m: nat, more: string)
    requires m < |delim| && |more| + 1 >= |delim|
    ensures Decided(delim, m, more)
  {
  }

  /** The attempt of a scan that is fed. */
  lemma FedTries(v: View, n: nat)
    requires Fed(v, n) && ScanOk(v) && Scanning(v.commands)
    ensures Kept(Tried(v), v.commands[0].delim)
  {
    var delim, piece := v.commands[0].delim, Window(v)[v.delimOffset..];
    ScanRange(v);
    KeptSnoc(v.attempts, piece, delim);
    assert Run([], delim) == Blocked(0, 0);
    if v.attempts != [] { LongIsDecided(delim, v.delimMatch, piece); }
    hide EntryKept, Attempt, Concat, Kept, Window, Tried, Try;
  }

  lemma FedDelivers(v: View, arg: string, taken: nat, tried: seq<string>, n: nat)
    requires Fed(v, n) && v.commands != [] && (Scanning(v.commands) ==> Kept(tried, v.commands[0].delim))
    ensures var d := Delivered(v, arg, taken, tried); Fed(d, n) && d.issued == v.issued
  {
    var d := Delivered(v, arg, taken, tried);
    IsKept(Delivery(v.commands[0], arg, tried));
    NoPieces(d);
    hide EntryKept, Window, Kept;
  }

  lemma NoPieces(v: View)
    requires v.attempts == []
    ensures Scanning(v.commands) ==> Kept(v.attempts, v.commands[0].delim)
  {
  }

  lemma FedMisses(v: View, n: nat)
    requires Fed(v, n) && ScanOk(v) && Scanning(v.commands)
    ensures var m := Missed(v); m.script == [] && m.issued == v.issued && AllKept(m) && Short(m.commands, n)
  {
    FedTries(v, n);
    hide EntryKept, Window, Kept, Try, Tried;
  }

  lemma AloneResumes(v: View, fuel: nat)
    ensures v.script == [] ==> Resumed(v, fuel) == v
  {
  }

  lemma {:induction false} FedServes(v: View, fuel: nat, n: nat)
    requires Going(v, fuel) && Fed(v, n)
    ensures var s := Served(v, fuel); s.script == [] && s.issued == v.issued && AllKept(s) && Short(s.commands, n)
    decreases fuel, 0
  {
    hide *;
    GoingIs(v, fuel);
    OkIs(v);
    FedIs(v, n);
    ServedUnfolds(v, fuel);
    IsScanning(v);
    if v.commands != [] && Window(v) != "" && fuel > 0 {
      var request := v.commands[0];
      if request.Until? && request.delim != "" {
        UntilCases(v, fuel);
        FedTries(v, n);
        if Try(v).Done? {
          FedDelivers(v, Window(v)[..Try(v).end - |request.delim|], Try(v).end, Tried(v), n);
          FedGoesOn(Completed(v), fuel - 1, n);
        } else {
          FedMisses(v, n);
        }
      } else {
        var taken := if request.N? then request.n else |Window(v)|;
        if taken <= |Window(v)| {
          PlainCase(v, taken, fuel);
          FedDelivers(v, Window(v)[..taken], taken, [], n);
          FedGoesOn(Delivered(v, Window(v)[..taken], taken, []), fuel - 1, n);
        }
      }
    }
  }

  lemma {:induction false} FedGoesOn(d: View, fuel: nat, n: nat)
    requires Going(d, fuel) && Fed(d, n)
    ensures Resumed(d, fuel) == d && d.script == [] && AllKept(d) && Short(d.commands, n)
    ensures var s := Served(d, fuel); s.script == [] && s.issued == d.issued && AllKept(s) && Short(s.commands, n)
    decreases fuel, 1
  {
    hide *;
    FedIs(d, n);
    AloneResumes(d, fuel);
    FedServes(d, fuel, n);
  }

  lemma FedIs(v: View, n: nat)
    requires Fed(v, n)
    ensures v.script == [] && AllKept(v) && Short(v.commands, n)
  {
  }

  lemma AppendedFed(v: View, data: string, n: nat)
    requires ScanOk(v) && v.script == [] && AllKept(v) && Short(v.commands, n) && |data| >= n
    requires Window(Appended(v, data)) == Window(v) + data
    ensures Fed(Appended(v, data), n) && Appended(v, data).issued == v.issued
  {
    ScanRange(v);
    AppendedKept(v, data);
    hide AllKept, Window, Run, Concat, Try, Attempt, Short;
  }

  /** With no coroutine to resume, pieces that decide every delimiter keep all matches. */
  lemma {:induction false} LongPiecesKeepAll(v: View, data: string, fuel: nat, n: nat)
    requires Going(v, fuel) && v.script == [] && AllKept(v) && Short(v.commands, n) && |data| >= n
    ensures var a := Arrived(v, data, fuel);
            a.script == [] && a.issued == v.issued && AllKept(a) && Short(a.commands, n) && AllKept(Refilled(a, fuel))
  {
    hide *;
    GoingIs(v, fuel);
    OkIs(v);
    RefilledIs(v, fuel);
    AloneResumes(v, fuel);
    DataIs(v, data, fuel);
    var more := Appended(v, data);
    AppendedKeeps(v, data);
    GoingIs(more, fuel);
    AppendedFed(v, data, n);
    FedServes(more, fuel, n);
    var done := Processed(v, data, fuel);
    ProcessedIs(v, data, fuel);
    RefilledIs(done, fuel);
    AloneResumes(done, fuel);
    RefilledIs(Arrived(v, data, fuel), fuel);
    AloneResumes(Arrived(v, data, fuel), fuel);
  }

  lemma ProcessedIs(v: View, data: string, fuel: nat)
    ensures var s, p := Served(Appended(v, data), fuel), Processed(v, data, fuel);
            p.script == s.script && p.issued == s.issued && p.commands == s.commands && (AllKept(p) <==> AllKept(s))
  {
    hide Served, Appended, EntryKept, Kept;
  }

  /** A read issued from outside first tries what is in the buffer; that is a first attempt. */
  lemma {:induction false} ShortReadsKeepAll(v: View, request: Request, fuel: nat, n: nat)
    requires Going(v, fuel) && Work(v) < fuel && v.script == [] && AllKept(v) && Short(v.commands + [request], n)
    ensures var r := Issued(v, request, fuel);
            r.script == [] && r.issued == v.issued + [request] && AllKept(r) && Short(r.commands, n)
  {
    hide *;
    GoingIs(v, fuel);
    OkIs(v);
    var w := Enqueued(v, request);
    EnqueuedKeeps(v, request);
    EnqueuedOk(v, request);
    GoingIs(w, fuel);
    IssuedIs(v, request, fuel);
    EnqueuedKept(v, request);
    if |w.commands| == 1 {
      FirstFed(w, n);
      FedServes(w, fuel, n);
      DataIs(w, "", fuel);
      ProcessedIs(w, "", fuel);
      NothingAppended(w);
    }
  }

  lemma IssuedIs(v: View, request: Request, fuel: nat)
    requires !v.closed
    ensures var w := Enqueued(v, request);
            Issued(v, request, fuel) == (if |v.buffer| > 0 && |w.commands| == 1 then Cycled(w, fuel) else w)
            && w.script == v.script && w.issued == v.issued + [request] && w.commands == v.commands + [request]
  {
    hide Cycled;
  }

  lemma EnqueuedKept(v: View, request: Request)
    requires ScanOk(v) && AllKept(v)
    ensures AllKept(Enqueued(v, request)) && (v.commands == [] ==> Enqueued(v, request).attempts == [])
    ensures Enqueued(v, request).script == v.script && Enqueued(v, request).closed == v.closed
  {
    if v.commands == [] { NoPieces(Enqueued(v, request)); }
    hide EntryKept, Kept, Run, Concat, Window;
  }

  lemma FirstFed(w: View, n: nat)
    requires w.attempts == [] && w.script == [] && AllKept(w) && Short(w.commands, n)
    ensures Fed(w, n)
  {
    hide AllKept, Short, Window;
  }
}
