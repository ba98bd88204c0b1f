/** The read side of afd (src/90s/afd.cpp): a byte buffer, a queue of read commands and the state of
    the delimiter scan. Resolving a promise resumes the coroutine that waits on it at once, inside the
    call, and the coroutine may issue further reads on the same object. What a call does is a function on
    views of the object; the methods of class Reader compute these functions, and their laws are lemmas. */
module StreamReader {
  import opened Common
  import opened DelimiterScan
  import opened Kmp

  datatype Request = Any | N(n: nat) | Until(delim: string)

  datatype Command = Command(request: Request, table: seq<int>)

  /** A resolved read. `attempts` are the pieces an `Until` was tried on, the last one successfully. */
  datatype Delivery = Delivery(request: Request, arg: string, attempts: seq<string>)

  /** The bytes a delivery took off the stream: its argument, with the delimiter put back. */
  function Taken(d: Delivery): string {
    if d.request.Until? then d.arg + d.request.delim else d.arg
  }

  function Bytes(log: seq<Delivery>): string {
    if log == [] then "" else Bytes(log[..|log| - 1]) + Taken(log[|log| - 1])
  }

  function Total(script: seq<seq<Request>>): nat {
    if script == [] then 0 else |script[0]| + Total(script[1..])
  }

  /** Each delivery is what its command asked for, given the stream it was cut from. */
  ghost predicate DeliveryOk(d: Delivery, stream: string) {
    match d.request
    case Any => true
    case N(n) => stream != "" && |d.arg| == n
    case Until(delim) =>
      delim == "" || (Run(d.attempts, delim) == Done(|d.arg| + |delim|) && Concat(d.attempts) <= stream)
  }

  ghost predicate EntryOk(log: seq<Delivery>, received: string, i: int) {
    0 <= i < |log| && |Bytes(log[..i])| <= |received| && DeliveryOk(log[i], received[|Bytes(log[..i])|..])
  }

  ghost predicate LogOk(log: seq<Delivery>, received: string) {
    Bytes(log) <= received && forall i :: 0 <= i < |log| ==> EntryOk(log, received, i)
  }

  lemma {:induction false} BytesPrefix(log: seq<Delivery>, i: nat)
    requires i <= |log|
    ensures |Bytes(log[..i])| <= |Bytes(log)|
    ensures Bytes(log[..i]) <= Bytes(log)
  {
    if i < |log| {
      BytesPrefix(log[..|log| - 1], i);
      assert log[..|log| - 1][..i] == log[..i];
    } else {
      assert log[..i] == log;
    }
  }

  lemma BytesSnoc(log: seq<Delivery>, d: Delivery)
    ensures Bytes(log + [d]) == Bytes(log) + Taken(d)
  {
    assert (log + [d])[..|log|] == log;
  }

  lemma EntryStays(log: seq<Delivery>, d: Delivery, received: string, i: int)
    requires EntryOk(log, received, i)
    ensures EntryOk(log + [d], received, i)
  {
    assert (log + [d])[..i] == log[..i];
  }

  lemma LogGrows(log: seq<Delivery>, d: Delivery, received: string)
    requires LogOk(log, received) && Taken(d) <= received[|Bytes(log)|..]
    requires DeliveryOk(d, received[|Bytes(log)|..])
    ensures LogOk(log + [d], received) && Bytes(log + [d]) == Bytes(log) + Taken(d)
  {
    var longer := log + [d];
    BytesSnoc(log, d);
    NewEntry(log, d, received);
    PrefixGrows(received, Bytes(log), Taken(d));
    hide Bytes, Taken, DeliveryOk, EntryOk;
    forall i | 0 <= i < |log| ensures EntryOk(longer, received, i) {
      EntryStays(log, d, received, i);
    }
  }

  lemma PrefixGrows(whole: string, a: string, b: string)
    requires a <= whole && b <= whole[|a|..]
    ensures a + b <= whole
  {
  }

  lemma NewEntry(log: seq<Delivery>, d: Delivery, received: string)
    requires |Bytes(log)| <= |received| && DeliveryOk(d, received[|Bytes(log)|..])
    ensures EntryOk(log + [d], received, |log|)
  {
    assert (log + [d])[..|log|] == log;
  }

  lemma MoreReceived(log: seq<Delivery>, received: string, more: string)
    requires LogOk(log, received)
    ensures LogOk(log, received + more)
  {
    forall i | 0 <= i < |log| ensures EntryOk(log, received + more, i) {
      assert EntryOk(log, received, i);
      var at := |Bytes(log[..i])|;
      assert (received + more)[at..] == received[at..] + more;
    }
  }

  lemma BytesStep(log: seq<Delivery>, received: string, i: nat)
    requires LogOk(log, received) && i < |log|
    ensures |Bytes(log[..i])| + |Taken(log[i])| == |Bytes(log[..i + 1])| <= |received|
    ensures received[|Bytes(log[..i])|..][..|Taken(log[i])|] == Taken(log[i])
  {
    assert log[..i + 1] == log[..i] + [log[i]];
    BytesSnoc(log[..i], log[i]);
    BytesPrefix(log, i + 1);
    hide Bytes, Taken, EntryOk;
    var before, taken := Bytes(log[..i]), Taken(log[i]);
    assert received[..|before + taken|] == before + taken;
    assert received[|before|..][..|taken|] == received[..|before + taken|][|before|..];
  }

  /** Nothing is lost: what was delivered, followed by the window, is what was received. */
  ghost predicate Conserved(log: seq<Delivery>, received: string, window: string) {
    received == Bytes(log) + window && LogOk(log, received)
  }

  // ---------- views of the object ----------

  function Requests(log: seq<Delivery>): seq<Request> {
    seq(|log|, i requires 0 <= i < |log| => log[i].request)
  }

  function Args(log: seq<Delivery>): seq<string> {
    seq(|log|, i requires 0 <= i < |log| => log[i].arg)
  }

  function Waiting(commands: seq<Command>): seq<Request> {
    seq(|commands|, i requires 0 <= i < |commands| => commands[i].request)
  }

  /** The fields of afd, with a request for each read command, and what happened so far. `script` is what
      resumed coroutines will ask for: one entry per resumption, an arbitrary finite future. `attempts`
      are the pieces the command in front has been tried on, if it is an `Until`. */
  datatype View = View(
    closed: bool, buffer: string, offset: nat, delimOffset: int, delimMatch: int,
    commands: seq<Request>, onEmpty: bool, script: seq<seq<Request>>,
    received: string, log: seq<Delivery>, attempts: seq<string>, failed: seq<Request>, issued: seq<Request>)

  /** A new object. Its coroutines' future is arbitrary. */
  function Opened(onEmpty: bool, script: seq<seq<Request>>): View {
    View(false, "", 0, 0, 0, [], onEmpty, script, "", [], [], [], [])
  }

  function Window(v: View): string {
    if v.offset <= |v.buffer| then v.buffer[v.offset..] else ""
  }

  function Work(v: View): nat {
    |v.commands| + Total(v.script)
  }

  /** A request whose table has been built. */
  predicate Scanning(commands: seq<Request>) {
    commands != [] && commands[0].Until? && commands[0].delim != ""
  }

  /** delim_state belongs to the command in front, and is the outcome of the attempts made so far. */
  predicate ScanOk(v: View) {
    if Scanning(v.commands) then
      v.delimOffset >= 0 && v.delimMatch >= 0 && Concat(v.attempts) <= Window(v)
      && Run(v.attempts, v.commands[0].delim) == Blocked(v.delimOffset, v.delimMatch)
    else v.attempts == [] && v.delimOffset == 0 && v.delimMatch == 0
  }

  /** Reads are served in the order in which they were issued, and none is dropped. */
  predicate InOrder(v: View) {
    v.issued == Requests(v.log) + v.commands
  }

  ghost predicate Ok(v: View) {
    !v.closed ==> v.offset <= |v.buffer| && Conserved(v.log, v.received, Window(v)) && ScanOk(v) && InOrder(v)
  }

  /** The command in front cannot be served by what is in the buffer. */
  predicate Starved(v: View) {
    v.closed || v.commands == [] || v.offset >= |v.buffer|
    || match v.commands[0]
       case Any => false
       case N(n) => |Window(v)| < n
       case Until(delim) => delim != "" && v.delimOffset == |Window(v)|
  }

  // ---------- what a call does ----------

  /** The command in front is served with `taken` bytes of the window. */
  function Delivered(v: View, arg: string, taken: nat, tried: seq<string>): View
    requires v.commands != []
  {
    v.(offset := v.offset + taken, commands := v.commands[1..], log := v.log + [Delivery(v.commands[0], arg, tried)],
       attempts := [], delimOffset := 0, delimMatch := 0)
  }

  /** One attempt at the delimiter of the command in front. */
  function Try(v: View): Progress
    requires Scanning(v.commands)
  {
    if 0 <= v.delimOffset <= |Window(v)| && 0 <= v.delimMatch < |v.commands[0].delim|
    then Attempt(Window(v), v.commands[0].delim, v.delimOffset, v.delimMatch) else Blocked(0, 0)
  }

  function Tried(v: View): seq<string> {
    v.attempts + if 0 <= v.delimOffset <= |Window(v)| then [Window(v)[v.delimOffset..]] else [""]
  }

  /** What the object knows after an attempt that did not finish. */
  function Stuck(v: View, offset: int, matched: int): View {
    v.(delimOffset := offset, delimMatch := matched, attempts := Tried(v))
  }

  /** The command in front is served up to the delimiter just found. */
  function Completed(v: View): View {
    if Scanning(v.commands) && Try(v).Done? && |v.commands[0].delim| <= Try(v).end <= |Window(v)|
    then Delivered(v, Window(v)[..Try(v).end - |v.commands[0].delim|], Try(v).end, Tried(v)) else v
  }

  /** The delimiter was not found: the command stays in front, and the scan remembers where it stands. */
  function Missed(v: View): View {
    if Scanning(v.commands) && Try(v).Blocked? then Stuck(v, Try(v).offset, Try(v).matched) else v
  }

  /** What is left of the script once its next entry was taken. */
  function Popped(v: View): View
    requires v.script != []
  {
    v.(script := v.script[1..])
  }

  /** Lines 71-170, the loop over the command queue. `fuel` bounds the commands still to come. */
  function Served(v: View, fuel: nat): View
    decreases fuel, 0
  {
    var w := Window(v);
    if v.commands == [] || w == "" || fuel == 0 then v
    else
      match v.commands[0]
      case Any => Resumed(Delivered(v, w, |w|, []), fuel - 1)
      case N(n) => if |w| < n then v else Served(Resumed(Delivered(v, w[..n], n, []), fuel - 1), fuel - 1)
      case Until(delim) =>
        // kmp answers (window length, 0) for an empty delimiter, and 0 bytes complete it
        if delim == "" then Served(Resumed(Delivered(v, w, |w|, []), fuel - 1), fuel - 1)
        else if Try(v).Done? then Served(Resumed(Completed(v), fuel - 1), fuel - 1) else Missed(v)
  }

  /** A coroutine runs: it issues the requests of the script's next entry. */
  function Resumed(v: View, fuel: nat): View
    decreases fuel, 4
  {
    if v.script == [] then v else IssuedAll(Popped(v), v.script[0], fuel)
  }

  function IssuedAll(v: View, requests: seq<Request>, fuel: nat): View
    decreases fuel, 3, |requests|
  {
    if requests == [] then v else IssuedAll(Issued(v, requests[0], fuel), requests[1..], fuel)
  }

  /** read_any, read_n, read_until: queue the command, and run it if it is alone and bytes are waiting. */
  function Issued(v: View, request: Request, fuel: nat): View
    decreases fuel, 2
  {
    if v.closed then v.(failed := v.failed + [request])
    else
      var w := v.(commands := v.commands + [request], issued := v.issued + [request]);
      if |v.buffer| > 0 && |w.commands| == 1 then Cycled(w, fuel) else w
  }

  /** on_data with the cycle flag. */
  function Cycled(v: View, fuel: nat): View
    decreases fuel, 1
  {
    if v.offset >= |v.buffer| then v else Compacted(Served(v, fuel))
  }

  /** Lines 172-178: once everything was consumed, drop the buffer. */
  function Compacted(v: View): View {
    if v.offset == |v.buffer| then v.(offset := 0, buffer := "") else v
  }

  /** The callback for an empty queue resumes someone too. */
  function Refilled(v: View, fuel: nat): View {
    if v.commands == [] && v.onEmpty then Resumed(v, fuel) else v
  }

  function Appended(v: View, data: string): View {
    v.(buffer := v.buffer + data, received := v.received + data)
  }

  /** on_data for bytes from the event loop; the second pass of its do-while loop ends behind the callback. */
  function Arrived(v: View, data: string, fuel: nat): View {
    if v.closed then v
    else
      var filled := Refilled(v, fuel);
      if data == "" then filled
      else
        var done := Compacted(Served(Appended(filled, data), fuel));
        if done.buffer == "" then done else Refilled(done, fuel)
  }

  // ---------- one step ----------

  lemma ConservedMore(log: seq<Delivery>, received: string, window: string, more: string)
    requires Conserved(log, received, window)
    ensures Conserved(log, received + more, window + more)
  {
    MoreReceived(log, received, more);
  }

  lemma DeliveredLog(log: seq<Delivery>, received: string, window: string, d: Delivery)
    requires Conserved(log, received, window)
    requires |Taken(d)| <= |window| && Taken(d) == window[..|Taken(d)|] && DeliveryOk(d, window)
    ensures Conserved(log + [d], received, window[|Taken(d)|..])
  {
    hide LogOk, Bytes, DeliveryOk, Taken;
    assert received[|Bytes(log)|..] == window;
    LogGrows(log, d, received);
    assert window == Taken(d) + window[|Taken(d)|..];
  }

  lemma EndsInDelimiter(window: string, delim: string, p: Progress)
    requires delim != "" && Real(window, delim, p)
    ensures p.Done? ==> |delim| <= p.end <= |window| && window[..p.end] == window[..p.end - |delim|] + delim
  {
    if p.Done? { assert window[p.end - |delim|..p.end] == delim; }
  }

  lemma ServedInOrder(v: View, arg: string, taken: nat, tried: seq<string>)
    requires InOrder(v) && v.commands != []
    ensures InOrder(Delivered(v, arg, taken, tried))
  {
    var d := Delivery(v.commands[0], arg, tried);
    assert Requests(v.log + [d]) == Requests(v.log) + [d.request];
    assert v.commands == [d.request] + v.commands[1..];
  }

  lemma DeliveredOk(v: View, arg: string, taken: nat, tried: seq<string>)
    requires Ok(v) && !v.closed && v.commands != [] && taken <= |Window(v)|
    requires var d := Delivery(v.commands[0], arg, tried);
             Taken(d) == Window(v)[..taken] && DeliveryOk(d, Window(v))
    ensures var v' := Delivered(v, arg, taken, tried);
            Ok(v') && Window(v') == Window(v)[taken..] && Work(v') == Work(v) - 1 && v.log <= v'.log
  {
    var v', d := Delivered(v, arg, taken, tried), Delivery(v.commands[0], arg, tried);
    DeliveredLog(v.log, v.received, Window(v), d);
    ServedInOrder(v, arg, taken, tried);
    hide Conserved, Taken, DeliveryOk, InOrder;
    assert v.buffer[v.offset + taken..] == Window(v)[taken..];
    assert ScanOk(v') by { NoAttempts(v'); }
  }

  lemma NoAttempts(v: View)
    requires v.attempts == [] && v.delimOffset == 0 && v.delimMatch == 0
    ensures ScanOk(v)
  {
  }

  lemma ScanRange(v: View)
    requires ScanOk(v)
    ensures Scanning(v.commands) ==> 0 <= v.delimOffset <= |Window(v)| && 0 <= v.delimMatch < |v.commands[0].delim|
    ensures Scanning(v.commands) ==>
      Concat(v.attempts) == Window(v)[..v.delimOffset] && Tried(v) == v.attempts + [Window(v)[v.delimOffset..]]
      && Try(v) == Attempt(Window(v), v.commands[0].delim, v.delimOffset, v.delimMatch)
    ensures !Scanning(v.commands) ==> v.attempts == []
  {
    if Scanning(v.commands) {
      var p := Run(v.attempts, v.commands[0].delim);
      assert p.offset == |Concat(v.attempts)|;
    }
  }

  /** The next attempt extends the run of attempts to the whole window. */
  lemma AttemptOutcome(w: string, delim: string, attempts: seq<string>, offset: nat, matched: nat)
    requires delim != "" && Concat(attempts) <= w && Run(attempts, delim) == Blocked(offset, matched)
    ensures offset <= |w| && matched < |delim|
    ensures var tried, a := attempts + [w[offset..]], Attempt(w, delim, offset, matched);
            Concat(tried) == w && Run(tried, delim) == a
            && match a
               case Done(end) => |delim| <= end <= |w| && w[..end] == w[..end - |delim|] + delim
               case Blocked(o, _) => o == |w|
  {
    var piece := w[offset..];
    assert w == Concat(attempts) + piece;
    hide Attempt, OccursAt, Concat, Real, Run;
    RunStep(attempts, piece, delim);
    DoneIsReal(attempts + [piece], delim);
    EndsInDelimiter(w, delim, Attempt(w, delim, offset, matched));
  }

  /** What one attempt at the delimiter means for the run of attempts before it. */
  lemma UntilStep(v: View)
    requires ScanOk(v) && Scanning(v.commands)
    ensures var w, delim := Window(v), v.commands[0].delim;
            match Try(v)
            case Done(end) =>
              |delim| <= end <= |w| && w[..end] == w[..end - |delim|] + delim
              && DeliveryOk(Delivery(v.commands[0], w[..end - |delim|], Tried(v)), w)
            case Blocked(o, m) => o == |w| && ScanOk(Stuck(v, o, m))
  {
    ScanRange(v);
    AttemptOutcome(Window(v), v.commands[0].delim, v.attempts, v.delimOffset, v.delimMatch);
    hide Attempt, Concat, Try, Tried, Run;
  }

  lemma StuckOk(v: View, offset: int, matched: int)
    requires Ok(v) && !v.closed && ScanOk(Stuck(v, offset, matched))
    ensures Ok(Stuck(v, offset, matched))
  {
    hide ScanOk, Conserved, Tried;
  }

  // ---------- what every call keeps ----------

  /** A delimiter the scan can get right; reads of a fixed length always are. */
  ghost predicate Sane(r: Request) {
    r.N? || (r.Until? && r.delim != "" && Flat(r.delim))
  }

  ghost predicate AllSane(requests: seq<Request>) {
    forall i :: 0 <= i < |requests| ==> Sane(requests[i])
  }

  ghost predicate ScriptSane(script: seq<seq<Request>>) {
    forall i :: 0 <= i < |script| ==> AllSane(script[i])
  }

  predicate EntryKept(d: Delivery) {
    d.request.Until? && d.request.delim != "" ==> Kept(d.attempts, d.request.delim)
  }

  /** Every attempt ever made had the bytes to decide the partial match it stood on. */
  predicate AllKept(v: View) {
    (forall i :: 0 <= i < |v.log| ==> EntryKept(v.log[i]))
    && (Scanning(v.commands) ==> Kept(v.attempts, v.commands[0].delim))
  }

  /** The scan has what it needs; or it has lost its partial match, and the window, which it has seen
      whole, has no delimiter. */
  predicate ScanGood(v: View) {
    Scanning(v.commands) ==>
      var delim := v.commands[0].delim;
      Kept(v.attempts, delim)
      || (v.delimOffset == |Window(v)| && FirstOccurrence(Window(v), delim, 0) == -1
          && v.delimMatch < LongestPartial(Window(v), delim, 0))
  }

  /** No attempt lacked a byte, except perhaps one that has lost its match since the last bytes arrived. */
  ghost predicate Faithful(v: View) {
    LogKept(v) && ScriptSane(v.script) && ScanGood(v)
  }

  lemma FaithfulIs(v: View)
    ensures Faithful(v) <==> LogKept(v) && ScriptSane(v.script) && ScanGood(v)
  {
  }

  ghost predicate LogKept(v: View) {
    AllSane(v.issued) && forall i :: 0 <= i < |v.log| ==> EntryKept(v.log[i])
  }

  lemma DeliveredFaithful(v: View, arg: string, taken: nat, tried: seq<string>)
    requires v.commands != [] && Faithful(v)
    requires v.commands[0].Until? && v.commands[0].delim != "" ==> Kept(tried, v.commands[0].delim)
    ensures Faithful(Delivered(v, arg, taken, tried))
  {
    IsKept(Delivery(v.commands[0], arg, tried));
    NothingTried(Delivered(v, arg, taken, tried));
    hide EntryKept, AllSane, ScriptSane, ScanGood;
  }

  lemma IsKept(d: Delivery)
    requires d.request.Until? && d.request.delim != "" ==> Kept(d.attempts, d.request.delim)
    ensures EntryKept(d)
  {
  }

  lemma NothingTried(v: View)
    requires v.attempts == []
    ensures ScanGood(v)
  {
  }

  /** From a good scan, an attempt finishes at the first delimiter, or the window has none. */
  lemma UntilGood(v: View)
    requires ScanOk(v) && Scanning(v.commands) && ScanGood(v) && Flat(v.commands[0].delim)
    ensures match Try(v)
            case Done(_) => Kept(Tried(v), v.commands[0].delim)
            case Blocked(o, m) => ScanGood(Stuck(v, o, m))
  {
    var delim, w := v.commands[0].delim, Window(v);
    ScanRange(v);
    hide Run, Kept, Attempt, FirstOccurrence, LongestPartial, Concat, Flat, Try, Tried, Window;
    if Kept(v.attempts, delim) {
      KeptAttempt(w, delim, v.attempts, v.delimOffset, v.delimMatch);
    } else {
      StillLost(w, delim, v.delimMatch);
    }
  }

  /** An attempt after attempts that had all they needed. */
  lemma KeptAttempt(w: string, delim: string, attempts: seq<string>, offset: nat, m: nat)
    requires delim != "" && Flat(delim) && Kept(attempts, delim)
    requires Concat(attempts) <= w && Run(attempts, delim) == Blocked(offset, m)
    requires offset <= |w| && m < |delim| && Concat(attempts) == w[..offset]
    ensures var tried := attempts + [w[offset..]];
            match Attempt(w, delim, offset, m)
            case Done(_) => Kept(tried, delim)
            case Blocked(o, l) =>
              Kept(tried, delim)
              || (o == |w| && FirstOccurrence(w, delim, 0) == -1 && l < LongestPartial(w, delim, 0))
  {
    hide *;
    var seen, piece := w[..offset], w[offset..];
    assert w == seen + piece;
    AttemptOutcome(w, delim, attempts, offset, m);
    KeptSnoc(attempts, piece, delim);
    KeptAgrees(attempts, delim);
    if !Decided(delim, m, piece) { OpenIsLost(seen, piece, delim, m); }
  }

  /** A lost scan without new bytes finds nothing, and stays lost. */
  lemma StillLost(w: string, delim: string, m: nat)
    requires delim != "" && m < |delim| && FirstOccurrence(w, delim, 0) == -1 && m < LongestPartial(w, delim, 0)
    ensures Attempt(w, delim, |w|, m) == Blocked(|w|, 0)
  {
    var i, l := FirstOccurrence(w, delim, |w|), LongestPartial(w, delim, |w|);
    assert i >= 0 ==> OccursAt(w, delim, i);
    assert PartialAt(w, delim, |w|, |w|, l);
  }

  /** History grows, bytes are only taken, and what is still to be asked for is used up. */
  predicate Grown(v: View, v': View) {
    v'.closed == v.closed && v'.received == v.received && v'.failed == v.failed && v'.onEmpty == v.onEmpty
    && v.log <= v'.log && v.issued <= v'.issued && |Window(v')| <= |Window(v)|
  }

  /** A call keeps the object in order, and what was split right so far stays right. */
  ghost predicate Keeps(v: View, v': View) {
    Ok(v') && Grown(v, v') && (Faithful(v) ==> Faithful(v'))
  }

  ghost predicate Going(v: View, fuel: nat) {
    Ok(v) && !v.closed && Work(v) <= fuel
  }

  lemma KeepsTrans(a: View, b: View, c: View)
    requires Keeps(a, b) && Keeps(b, c)
    ensures Keeps(a, c)
  {
    hide Ok, Faithful, Window;
  }

  lemma KeepsSelf(v: View)
    requires Ok(v)
    ensures Keeps(v, v)
  {
    hide Ok, Faithful, Window;
  }

  lemma DeliveredKeeps(v: View, arg: string, taken: nat, tried: seq<string>)
    requires Ok(v) && !v.closed && v.commands != [] && taken <= |Window(v)|
    requires var d := Delivery(v.commands[0], arg, tried);
             Taken(d) == Window(v)[..taken] && DeliveryOk(d, Window(v))
    requires Faithful(v) && v.commands[0].Until? && v.commands[0].delim != "" ==> Kept(tried, v.commands[0].delim)
    ensures var v' := Delivered(v, arg, taken, tried); Keeps(v, v') && Work(v') == Work(v) - 1 && !v'.closed
  {
    DeliveredOk(v, arg, taken, tried);
    if Faithful(v) { DeliveredFaithful(v, arg, taken, tried); }
    hide Ok, Faithful, DeliveryOk, Taken, Kept;
  }

  lemma FrontSane(v: View)
    requires LogKept(v) && Ok(v) && !v.closed && v.commands != []
    ensures Sane(v.commands[0])
  {
    assert v.issued[|v.log|] == v.commands[0];
    hide EntryKept, ScanGood, Sane, Conserved, ScanOk;
  }

  lemma MissedIs(v: View)
    requires Scanning(v.commands) && Try(v).Blocked?
    ensures Missed(v) == Stuck(v, Try(v).offset, Try(v).matched) == v.(delimOffset := Try(v).offset, delimMatch := Try(v).matched, attempts := Tried(v))
  {
    hide Try, Tried;
  }

  lemma MissedKeeps(v: View)
    requires Going(v, Work(v)) && Scanning(v.commands) && Try(v).Blocked?
    ensures var v' := Missed(v); Keeps(v, v') && Work(v') == Work(v) && !v'.closed && Starved(v')
  {
    UntilStep(v);
    MissedIs(v);
    StuckOk(v, Try(v).offset, Try(v).matched);
    if Faithful(v) {
      FrontSane(v);
      UntilGood(v);
    }
    hide Ok, Conserved, ScanOk, Try, Tried, ScanGood, EntryKept, AllSane, ScriptSane, Missed, Stuck;
  }

  lemma PlainSane(r: Request)
    requires Sane(r)
    ensures r.N? || (r.Until? && r.delim != "" && Flat(r.delim))
  {
  }

  lemma CompletedIs(v: View)
    requires Scanning(v.commands) && Try(v).Done? && |v.commands[0].delim| <= Try(v).end <= |Window(v)|
    ensures Completed(v) == Delivered(v, Window(v)[..Try(v).end - |v.commands[0].delim|], Try(v).end, Tried(v))
  {
  }

  /** A delimiter was found: the delivery ends there. */
  lemma CompletedKeeps(v: View)
    requires Going(v, Work(v)) && Scanning(v.commands) && Try(v).Done?
    ensures |v.commands[0].delim| <= Try(v).end <= |Window(v)|
    ensures Keeps(v, Completed(v)) && Work(Completed(v)) == Work(v) - 1 && !Completed(v).closed
  {
    hide *;
    GoingIs(v, Work(v));
    IsScanning(v);
    OkIs(v);
    UntilStep(v);
    CompletedIs(v);
    var w, delim, end := Window(v), v.commands[0].delim, Try(v).end;
    var d := Delivery(v.commands[0], w[..end - |delim|], Tried(v));
    UntilTakes(d);
    assert |w[..end - |delim|]| == end - |delim|;
    if Faithful(v) {
      FaithfulIs(v);
      FrontSane(v);
      PlainSane(v.commands[0]);
      UntilGood(v);
    }
    DeliveredKeeps(v, w[..end - |delim|], end, Tried(v));
  }

  lemma OkIs(v: View)
    requires Ok(v) && !v.closed
    ensures ScanOk(v) && v.offset <= |v.buffer|
  {
  }

  lemma WindowIs(v: View)
    requires v.offset <= |v.buffer|
    ensures Window(v) == v.buffer[v.offset..]
  {
  }

  lemma UntilTakes(d: Delivery)
    requires d.request.Until?
    ensures Taken(d) == d.arg + d.request.delim
  {
  }

  /** Commands that take bytes without looking at them. */
  lemma PlainKeeps(v: View, taken: nat)
    requires Going(v, Work(v)) && v.commands != [] && Window(v) != "" && taken <= |Window(v)|
    requires if v.commands[0].N? then taken == v.commands[0].n
             else taken == |Window(v)| && (v.commands[0].Any? || v.commands[0].delim == "")
    ensures var v' := Delivered(v, Window(v)[..taken], taken, []); Keeps(v, v') && Work(v') == Work(v) - 1 && !v'.closed
  {
    if Faithful(v) {
      FrontSane(v);
      PlainSane(v.commands[0]);
    }
    var w := Window(v);
    assert w[..|w|] == w;
    assert w[..taken] + "" == w[..taken];
    hide Ok, Faithful, Window, Kept, Sane;
    DeliveredKeeps(v, w[..taken], taken, []);
  }

  /** Everything consumed: whatever is next, it has to wait. */
  lemma EmptyStarves(v: View)
    ensures Window(v) == "" ==> Starved(v)
    ensures v.commands == [] ==> Starved(v)
  {
  }

  lemma GoingIs(v: View, fuel: nat)
    ensures Going(v, fuel) <==> Ok(v) && !v.closed && Work(v) <= fuel
    ensures forall v' :: Keeps(v, v') ==> Ok(v') && v'.closed == v.closed
  {
  }

  /** After a delivery: the coroutine runs, and the loop goes on. */
  lemma {:induction false} ThenServed(v: View, d: View, fuel: nat)
    requires Keeps(v, d) && Going(d, fuel)
    ensures var s := Served(Resumed(d, fuel), fuel);
            Keeps(v, s) && Going(s, fuel) && Work(s) <= Work(d) && Starved(s)
    decreases fuel, 6
  {
    hide *;
    ResumedKeeps(d, fuel);
    ServedKeeps(Resumed(d, fuel), fuel);
    KeepsTrans(v, d, Resumed(d, fuel));
    KeepsTrans(v, Resumed(d, fuel), Served(Resumed(d, fuel), fuel));
  }

  /** The cases of one round of the loop. */
  lemma ServedUnfolds(v: View, fuel: nat)
    ensures Served(v, fuel) ==
      if v.commands == [] || Window(v) == "" || fuel == 0 then v
      else
        match v.commands[0] {
          case Any => Resumed(Delivered(v, Window(v)[..|Window(v)|], |Window(v)|, []), fuel - 1)
          case N(n) =>
            if |Window(v)| < n then v
            else Served(Resumed(Delivered(v, Window(v)[..n], n, []), fuel - 1), fuel - 1)
          case Until(delim) =>
            if delim == "" then Served(Resumed(Delivered(v, Window(v)[..|Window(v)|], |Window(v)|, []), fuel - 1), fuel - 1)
            else if Try(v).Done? then Served(Resumed(Completed(v), fuel - 1), fuel - 1) else Missed(v)
        }
  {
    assert Window(v)[..|Window(v)|] == Window(v);
    hide Window, Resumed, Delivered, Try, Completed, Missed;
  }

  lemma {:induction false} ServedKeeps(v: View, fuel: nat)
    requires Going(v, fuel)
    ensures var s := Served(v, fuel); Keeps(v, s) && Going(s, fuel) && Work(s) <= Work(v) && Starved(s)
    decreases fuel, 0
  {
    hide *;
    var w := Window(v);
    GoingIs(v, fuel);
    GoingIs(v, Work(v));
    KeepsSelf(v);
    EmptyStarves(v);
    ServedUnfolds(v, fuel);
    NoFuel(v, fuel);
    if v.commands != [] && w != "" && fuel > 0 {
      match v.commands[0]
      case Any =>
        var d := Delivered(v, w[..|w|], |w|, []);
        PlainKeeps(v, |w|);
        GoingIs(d, fuel - 1);
        TookAll(v);
        ResumedKeeps(d, fuel - 1);
        KeepsTrans(v, d, Resumed(d, fuel - 1));
        GoingIs(Resumed(d, fuel - 1), fuel);
        GoingIs(Resumed(d, fuel - 1), fuel - 1);
      case N(n) =>
        if |w| < n {
          TooFew(v);
        } else {
          PlainKeeps(v, n);
          DeliveredThen(v, Delivered(v, w[..n], n, []), fuel);
        }
      case Until(delim) =>
        IsScanning(v);
        if delim == "" {
          PlainKeeps(v, |w|);
          DeliveredThen(v, Delivered(v, w[..|w|], |w|, []), fuel);
        } else if Try(v).Done? {
          CompletedKeeps(v);
          DeliveredThen(v, Completed(v), fuel);
        } else {
          MissedKeeps(v);
          GoingIs(Missed(v), fuel);
        }
    }
  }

  lemma {:induction false} DeliveredThen(v: View, d: View, fuel: nat)
    requires Going(v, fuel) && fuel > 0 && Keeps(v, d) && Work(d) == Work(v) - 1 && !d.closed
    ensures var s := Served(Resumed(d, fuel - 1), fuel - 1);
            Keeps(v, s) && Going(s, fuel) && Work(s) <= Work(v) && Starved(s)
    decreases fuel - 1, 7
  {
    hide *;
    GoingIs(v, fuel);
    GoingIs(d, fuel - 1);
    ThenServed(v, d, fuel - 1);
    var s := Served(Resumed(d, fuel - 1), fuel - 1);
    GoingIs(s, fuel - 1);
    GoingIs(s, fuel);
  }

  lemma NoFuel(v: View, fuel: nat)
    requires Work(v) <= fuel
    ensures fuel == 0 ==> v.commands == []
  {
  }

  lemma TookAll(v: View)
    requires v.commands != [] && Window(v) != ""
    ensures Starved(Delivered(v, Window(v)[..|Window(v)|], |Window(v)|, []))
  {
  }

  lemma TooFew(v: View)
    requires v.commands != [] && v.commands[0].N? && |Window(v)| < v.commands[0].n
    ensures Starved(v)
  {
  }

  lemma IsScanning(v: View)
    ensures Scanning(v.commands) <==> v.commands != [] && v.commands[0].Until? && v.commands[0].delim != ""
  {
  }

  lemma PoppedFaithful(v: View)
    requires Faithful(v) && v.script != []
    ensures Faithful(Popped(v)) && AllSane(v.script[0])
  {
    assert ScanGood(Popped(v));
    assert ScriptSane(v.script[1..]) by { hide AllSane; }
    hide EntryKept, ScriptSane, AllSane, ScanGood;
  }

  lemma ScriptPops(v: View)
    requires Ok(v) && v.script != []
    ensures var next := Popped(v);
            Keeps(v, next) && Work(next) + |v.script[0]| == Work(v) && (Starved(v) <==> Starved(next))
            && (Faithful(v) ==> AllSane(v.script[0]))
  {
    if Faithful(v) { PoppedFaithful(v); }
    hide Conserved, Faithful, AllSane;
  }

  lemma {:induction false} ResumedKeeps(v: View, fuel: nat)
    requires Going(v, fuel)
    ensures var r := Resumed(v, fuel);
            Keeps(v, r) && Going(r, fuel) && Work(r) <= Work(v) && (Starved(v) ==> Starved(r))
    decreases fuel, 4
  {
    KeepsSelf(v);
    if v.script != [] {
      var next := Popped(v);
      ScriptPops(v);
      hide Ok, Faithful, Window, IssuedAll, Starved, AllSane, Work;
      IssuedAllKeeps(next, v.script[0], fuel);
      hide Grown;
      GrownTrans(v, next, Resumed(v, fuel));
    }
  }

  lemma GrownTrans(a: View, b: View, c: View)
    requires Grown(a, b) && Grown(b, c)
    ensures Grown(a, c)
  {
    hide Window;
  }

  /** Like Keeps, for a call that issues requests of its own. */
  ghost predicate KeepsWith(v: View, v': View, requests: seq<Request>) {
    Ok(v') && Grown(v, v') && (Faithful(v) && AllSane(requests) ==> Faithful(v'))
    && (requests != [] ==> v.issued + [requests[0]] <= v'.issued)
  }

  lemma KeepsWithTrans(a: View, b: View, c: View, requests: seq<Request>)
    requires requests != [] && KeepsWith(a, b, [requests[0]]) && KeepsWith(b, c, requests[1..])
    ensures KeepsWith(a, c, requests)
  {
    GrownTrans(a, b, c);
    hide Ok, Faithful, Sane, Grown;
  }

  lemma KeepsWithNone(v: View)
    requires Ok(v)
    ensures KeepsWith(v, v, [])
  {
    hide Ok, Faithful, Sane, Window;
  }

  lemma {:induction false} IssuedAllKeeps(v: View, requests: seq<Request>, fuel: nat)
    requires Ok(v) && !v.closed && Work(v) + |requests| <= fuel
    ensures var r := IssuedAll(v, requests, fuel);
            KeepsWith(v, r, requests) && Ok(r) && !r.closed && Work(r) <= Work(v) + |requests| && (Starved(v) ==> Starved(r))
    decreases fuel, 3, |requests|
  {
    hide Ok, Issued, Starved, Work, KeepsWith;
    if requests == [] {
      KeepsWithNone(v);
    } else {
      var next := Issued(v, requests[0], fuel);
      IssuedKeeps(v, requests[0], fuel);
      IssuedAllKeeps(next, requests[1..], fuel);
      KeepsWithTrans(v, next, IssuedAll(next, requests[1..], fuel), requests);
    }
  }

  function Enqueued(v: View, request: Request): View {
    v.(commands := v.commands + [request], issued := v.issued + [request])
  }

  lemma EnqueuedInOrder(v: View, request: Request)
    requires InOrder(v)
    ensures InOrder(Enqueued(v, request))
  {
    hide Requests;
    assert v.issued + [request] == Requests(v.log) + (v.commands + [request]);
  }

  lemma EnqueuedWindow(v: View, request: Request)
    ensures Window(Enqueued(v, request)) == Window(v)
  {
  }

  lemma EnqueuedOk(v: View, request: Request)
    requires Ok(v) && !v.closed
    ensures Ok(Enqueued(v, request)) && ScanOk(v)
  {
    EnqueuedInOrder(v, request);
    EnqueuedScan(v, request);
    EnqueuedWindow(v, request);
    hide Conserved, ScanOk, ScanGood, Window, InOrder;
  }

  lemma EnqueuedKeeps(v: View, request: Request)
    requires Ok(v) && !v.closed
    ensures var w := Enqueued(v, request);
            KeepsWith(v, w, [request]) && Work(w) == Work(v) + 1 && !w.closed
            && (v.commands != [] && Starved(v) ==> Starved(w)) && (v.buffer == "" ==> Starved(w))
  {
    var w := Enqueued(v, request);
    EnqueuedOk(v, request);
    if Faithful(v) { EnqueuedScan(v, request); }
    hide Ok, EntryKept, Sane, ScanOk, ScanGood, ScriptSane;
  }

  lemma EnqueuedScan(v: View, request: Request)
    requires ScanOk(v)
    ensures ScanOk(Enqueued(v, request)) && (ScanGood(v) ==> ScanGood(Enqueued(v, request)))
  {
    if v.commands == [] { NothingTried(Enqueued(v, request)); }
    hide Run, Kept, FirstOccurrence, LongestPartial;
  }

  lemma {:induction false} IssuedKeeps(v: View, request: Request, fuel: nat)
    requires Ok(v) && !v.closed && Work(v) < fuel
    ensures var r := Issued(v, request, fuel);
            KeepsWith(v, r, [request]) && Ok(r) && !r.closed && Work(r) <= Work(v) + 1 && (Starved(v) ==> Starved(r))
    decreases fuel, 2
  {
    var w := Enqueued(v, request);
    EnqueuedKeeps(v, request);
    hide Ok, Faithful, Window, Cycled, Starved, Work;
    if |v.buffer| > 0 && |w.commands| == 1 {
      CycledKeeps(w, fuel);
      GrownTrans(v, w, Cycled(w, fuel));
    }
  }

  lemma CompactedKeeps(v: View)
    requires Ok(v)
    ensures var c := Compacted(v);
            Keeps(v, c) && Work(c) == Work(v) && (Starved(v) ==> Starved(c)) && (v.offset >= |v.buffer| ==> Starved(v))
            && Window(c) == Window(v)
  {
    var c := Compacted(v);
    assert Window(c) == Window(v);
    hide Conserved, EntryKept, Sane, Run, Kept, FirstOccurrence, LongestPartial, Concat;
  }

  lemma {:induction false} CycledKeeps(v: View, fuel: nat)
    requires Going(v, fuel)
    ensures var c := Cycled(v, fuel); Keeps(v, c) && Going(c, fuel) && Work(c) <= Work(v) && Starved(c)
    decreases fuel, 1
  {
    KeepsSelf(v);
    CompactedKeeps(v);
    if v.offset < |v.buffer| {
      ServedKeeps(v, fuel);
      CompactedKeeps(Served(v, fuel));
      KeepsTrans(v, Served(v, fuel), Cycled(v, fuel));
    }
    hide Ok, Faithful, Window, Served, Compacted, Starved, Work, Grown;
  }

  lemma {:induction false} RefilledKeeps(v: View, fuel: nat)
    requires Going(v, fuel)
    ensures var r := Refilled(v, fuel);
            Keeps(v, r) && Going(r, fuel) && Work(r) <= Work(v) && (Starved(v) ==> Starved(r))
  {
    KeepsSelf(v);
    ResumedKeeps(v, fuel);
    hide Ok, Faithful, Window, Resumed, Starved, Work, Grown;
  }

  lemma KeptIsGood(v: View)
    requires AllKept(v)
    ensures ScanGood(v)
  {
    hide EntryKept, Kept, FirstOccurrence, LongestPartial, Window;
  }

  lemma AppendedKept(v: View, data: string)
    ensures AllKept(Appended(v, data)) <==> AllKept(v)
  {
    hide EntryKept, Kept;
  }

  lemma AppendedScan(v: View, data: string)
    requires ScanOk(v) && Window(Appended(v, data)) == Window(v) + data
    ensures ScanOk(Appended(v, data))
  {
    hide Run, Concat, Window;
  }

  lemma AppendedWindow(v: View, data: string)
    requires v.offset <= |v.buffer|
    ensures Window(Appended(v, data)) == Window(v) + data
  {
  }

  /** Everything but the bytes stays. */
  lemma AppendedParts(v: View, data: string)
    requires Ok(v) && !v.closed
    ensures v.offset <= |v.buffer| && Conserved(v.log, v.received, Window(v)) && ScanOk(v)
    ensures var a := Appended(v, data);
            Conserved(v.log, v.received + data, Window(v) + data) && Window(a) == Window(v) + data && ScanOk(a) ==> Ok(a)
  {
    hide Conserved, ScanOk, Window, Requests;
  }

  lemma AppendedOk(v: View, data: string)
    requires Ok(v) && !v.closed
    ensures Ok(Appended(v, data)) && Window(Appended(v, data)) == Window(v) + data
  {
    hide *;
    AppendedParts(v, data);
    AppendedWindow(v, data);
    ConservedMore(v.log, v.received, Window(v), data);
    AppendedScan(v, data);
  }

  /** New bytes behind a window whose command in front has seen all of it. */
  lemma AppendedKeeps(v: View, data: string)
    requires Ok(v) && !v.closed
    ensures var a := Appended(v, data);
            Ok(a) && !a.closed && Work(a) == Work(v) && Window(a) == Window(v) + data
            && (Faithful(v) && AllKept(v) ==> Faithful(a))
  {
    AppendedOk(v, data);
    AppendedKept(v, data);
    if AllKept(v) { KeptIsGood(Appended(v, data)); }
    hide Ok, EntryKept, AllSane, ScriptSane, AllKept, ScanGood, Window;
  }

  lemma {:induction false} ArrivedKeeps(v: View, data: string, fuel: nat)
    requires Going(v, fuel) && Starved(v)
    ensures var a := Arrived(v, data, fuel);
            Going(a, fuel) && Work(a) <= Work(v) && Starved(a)
            && a.received == v.received + data && v.log <= a.log && v.issued <= a.issued && a.failed == v.failed
            && (Faithful(v) && AllKept(Refilled(v, fuel)) ==> Faithful(a))
  {
    hide Ok, Faithful, AllKept, Window, Refilled, Served, Compacted, Starved, Work;
    var filled := Refilled(v, fuel);
    RefilledKeeps(v, fuel);
    if data != "" {
      var more := Appended(filled, data);
      AppendedKeeps(filled, data);
      ServedKeeps(more, fuel);
      CompactedKeeps(Served(more, fuel));
      RefilledKeeps(Compacted(Served(more, fuel)), fuel);
    }
  }

  // ---------- failing ----------

  function Next(script: seq<seq<Request>>): seq<Request> {
    if script == [] then [] else script[0]
  }

  function Later(script: seq<seq<Request>>): seq<seq<Request>> {
    if script == [] then [] else script[1..]
  }

  /** What closing fails, in order: each waiting read, and behind it what its coroutine asks for next. */
  function FailAll(waiting: seq<Request>, script: seq<seq<Request>>): seq<Request> {
    if waiting == [] then [] else [waiting[0]] + Next(script) + FailAll(waiting[1..], Later(script))
  }

  lemma FailPops(failed: seq<Request>, waiting: seq<Request>, script: seq<seq<Request>>)
    requires waiting != []
    ensures failed + FailAll(waiting, script)
         == if script == [] then failed + [waiting[0]] + FailAll(waiting[1..], [])
            else failed + [waiting[0]] + script[0] + FailAll(waiting[1..], script[1..])
  {
    assert failed + ([waiting[0]] + Next(script) + FailAll(waiting[1..], Later(script)))
        == failed + [waiting[0]] + Next(script) + FailAll(waiting[1..], Later(script));
    assert script == [] ==> failed + [waiting[0]] + Next(script) == failed + [waiting[0]];
  }

  /** The place of waiting read `k` among the failures. */
  function FailAt(script: seq<seq<Request>>, k: nat): nat {
    if k == 0 then 0 else 1 + |Next(script)| + FailAt(Later(script), k - 1)
  }

  /** Every waiting read fails at a place of its own, in the order in which the reads were issued, and the
      rest is what the resumed coroutines ask for. */
  lemma {:induction false} EachFailsInOrder(waiting: seq<Request>, script: seq<seq<Request>>, k: nat)
    requires k < |waiting|
    ensures FailAt(script, k) < FailAt(script, k + 1) <= FailAt(script, |waiting|) == |FailAll(waiting, script)|
    ensures FailAll(waiting, script)[FailAt(script, k)] == waiting[k]
  {
    hide Next, Later;
    var rest := FailAll(waiting[1..], Later(script));
    assert FailAt(script, k + 1) == 1 + |Next(script)| + FailAt(Later(script), k);
    if k > 0 {
      EachFailsInOrder(waiting[1..], Later(script), k - 1);
    } else if |waiting| > 1 {
      EachFailsInOrder(waiting[1..], Later(script), 0);
    }
  }

  // ---------- the object ----------

  ghost predicate Tables(commands: seq<Command>) {
    forall c :: c in commands && c.request.Until? ==> IsTable(c.request.delim, c.table)
  }

  lemma TablesChange(commands: seq<Command>, c: Command)
    requires Tables(commands) && (c.request.Until? ==> IsTable(c.request.delim, c.table))
    ensures Tables(commands + [c])
    ensures commands != [] ==> Tables(commands[1..])
    ensures commands != [] && commands[0].request.Until? ==> IsTable(commands[0].request.delim, commands[0].table)
  {
  }

  lemma WaitingChange(commands: seq<Command>, c: Command)
    ensures |Waiting(commands)| == |commands| && Waiting(commands + [c]) == Waiting(commands) + [c.request]
    ensures commands != [] ==> Waiting(commands) == [commands[0].request] + Waiting(commands[1..])
    ensures commands != [] ==> Waiting(commands)[1..] == Waiting(commands[1..])
  {
  }

  lemma SearchRange(text: string, delim: string, from: nat)
    requires delim != "" && from <= |text|
    ensures var r := Search(text, delim, from);
            0 <= r.length <= |delim| && from <= r.offset
            && (r.length < |delim| ==> r.offset == |text| - r.length)
  {
    var k := LongestPartial(text, delim, from);
    assert PartialAt(text, delim, from, |text|, k);
  }

  lemma NoScan(v: View)
    requires ScanOk(v) && !Scanning(v.commands)
    ensures v.delimOffset == 0 && v.delimMatch == 0
  {
  }

  /** What the object may do next, for an `Until` in front. */
  lemma UntilCases(v: View, fuel: nat)
    requires Going(v, fuel) && v.commands != [] && v.commands[0].Until? && v.commands[0].delim != ""
    ensures var w, delim := Window(v), v.commands[0].delim;
            fuel > 0 && Scanning(v.commands) && 0 <= v.delimOffset <= |w| && 0 <= v.delimMatch < |delim|
            && Try(v) == Attempt(w, delim, v.delimOffset, v.delimMatch)
            && if Try(v).Done?
               then |delim| <= Try(v).end <= |w| && Going(Completed(v), fuel - 1)
                    && Completed(v) == Delivered(v, w[..Try(v).end - |delim|], Try(v).end, Tried(v))
               else Ok(Missed(v))
                    && Missed(v) == v.(delimOffset := Try(v).offset, delimMatch := Try(v).matched, attempts := Tried(v))
  {
    hide *;
    GoingIs(v, fuel);
    GoingIs(v, Work(v));
    NoFuel(v, fuel);
    IsScanning(v);
    OkIs(v);
    ScanRange(v);
    if Try(v).Done? {
      CompletedKeeps(v);
      CompletedIs(v);
      GoingIs(Completed(v), fuel - 1);
    } else {
      MissedKeeps(v);
      MissedIs(v);
      GoingIs(Missed(v), fuel);
    }
  }

  /** ... and for a command that takes `taken` bytes as they are. */
  lemma PlainCase(v: View, taken: nat, fuel: nat)
    requires Going(v, fuel) && v.commands != [] && Window(v) != "" && taken <= |Window(v)|
    requires if v.commands[0].N? then taken == v.commands[0].n
             else taken == |Window(v)| && (v.commands[0].Any? || v.commands[0].delim == "")
    ensures fuel > 0 && Going(Delivered(v, Window(v)[..taken], taken, []), fuel - 1)
    ensures v.delimOffset == 0 && v.delimMatch == 0
  {
    hide *;
    GoingIs(v, fuel);
    OkIs(v);
    IsScanning(v);
    NoScan(v);
    GoingIs(v, Work(v));
    NoFuel(v, fuel);
    PlainKeeps(v, taken);
    GoingIs(Delivered(v, Window(v)[..taken], taken, []), fuel - 1);
  }

  lemma KeepsIs(v: View, v': View)
    requires Keeps(v, v')
    ensures v'.received == v.received && v.log <= v'.log && v.issued <= v'.issued && v'.failed == v.failed
  {
    hide Ok, Faithful, Window;
  }

  /** The states on_data passes through. */
  lemma {:induction false} ProcessKeeps(v: View, data: string, fuel: nat)
    requires Going(v, fuel)
    ensures v.offset <= |v.buffer| && Going(Appended(v, data), fuel)
    ensures var served := Served(Appended(v, data), fuel); Ok(served) && Going(Compacted(served), fuel)
    ensures Appended(v, "") == v
  {
    hide *;
    GoingIs(v, fuel);
    OkIs(v);
    AppendedKeeps(v, data);
    GoingIs(Appended(v, data), fuel);
    var served := Served(Appended(v, data), fuel);
    ServedKeeps(Appended(v, data), fuel);
    GoingIs(served, fuel);
    CompactedKeeps(served);
    GoingIs(Compacted(served), fuel);
    NothingAppended(v);
  }

  lemma NothingAppended(v: View)
    ensures Appended(v, "") == v
  {
    assert v.buffer + "" == v.buffer && v.received + "" == v.received;
  }

  /** One pass of on_data behind its tests: the queue is worked off with the new bytes. */
  function Processed(v: View, data: string, fuel: nat): View {
    Compacted(Served(Appended(v, data), fuel))
  }

  lemma {:induction false} DataKeeps(v: View, data: string, fuel: nat)
    requires Ok(v) && !v.closed && Work(v) <= fuel
    ensures v.offset <= |v.buffer| && Going(v, fuel) && Going(Refilled(v, fuel), fuel)
    ensures Refilled(v, fuel).offset <= |Refilled(v, fuel).buffer|
    ensures var c := Cycled(v, fuel);
            Going(c, fuel) && Starved(c)
            && c.received == v.received && v.log <= c.log && v.issued <= c.issued && c.failed == v.failed
    ensures Starved(v) ==>
      var a := Arrived(v, data, fuel);
      Going(a, fuel) && Starved(a)
      && a.received == v.received + data && v.log <= a.log && v.issued <= a.issued && a.failed == v.failed
  {
    hide *;
    GoingIs(v, fuel);
    OkIs(v);
    CycledKeeps(v, fuel);
    KeepsIs(v, Cycled(v, fuel));
    RefilledKeeps(v, fuel);
    GoingIs(Refilled(v, fuel), fuel);
    OkIs(Refilled(v, fuel));
    if Starved(v) { ArrivedKeeps(v, data, fuel); }
  }

  lemma DataIs(v: View, data: string, fuel: nat)
    ensures Cycled(v, fuel) == if v.offset >= |v.buffer| then v else Processed(v, "", fuel)
    ensures Arrived(v, data, fuel) ==
      if v.closed then v
      else
        var filled := Refilled(v, fuel);
        if data == "" then filled
        else
          var done := Processed(filled, data, fuel);
          if done.buffer == "" then done else Refilled(done, fuel)
  {
    NothingAppended(v);
    hide Served, Resumed, Compacted, Appended, Refilled;
  }

  lemma RefilledIs(v: View, fuel: nat)
    ensures Refilled(v, fuel) == if v.commands == [] && v.onEmpty then Resumed(v, fuel) else v
  {
    hide Resumed;
  }

  /** A delivery forgets the scan. */
  lemma ScanReset(a: View, b: View, arg: string, taken: nat, tried: seq<string>)
    requires b == a.(delimOffset := 0, delimMatch := 0) && a.commands != []
    ensures Delivered(b, arg, taken, tried) == Delivered(a, arg, taken, tried)
  {
  }

  lemma ClosedIs(v: View)
    requires v.closed
    ensures Ok(v) && Starved(v)
  {
  }

  class Reader {
    var closed: bool
    var buffer: string
    var offset: nat
    var delimOffset: int
    var delimMatch: int
    var commands: seq<Command>
    var hasEmptyCallback: bool
    /** What resumed coroutines will ask for: one entry per resumption, an arbitrary finite future. */
    var script: seq<seq<Request>>

    ghost var received: string
    ghost var log: seq<Delivery>
    /** The pieces the command in front has been tried on, if it is an `Until`. */
    ghost var attempts: seq<string>
    ghost var failed: seq<Request>
    ghost var issued: seq<Request>

    ghost function Now(): View
      reads this
    {
      View(closed, buffer, offset, delimOffset, delimMatch, Waiting(commands), hasEmptyCallback, script,
           received, log, attempts, failed, issued)
    }

    ghost predicate Valid()
      reads this
    {
      Tables(commands) && Ok(Now())
    }

    constructor (onEmpty: bool, future: seq<seq<Request>>)
      ensures Valid() && Starved(Now()) && Now() == Opened(onEmpty, future)
    {
      closed, buffer, offset, delimOffset, delimMatch := false, "", 0, 0, 0;
      commands, hasEmptyCallback, script := [], onEmpty, future;
      received, log, attempts, failed, issued := "", [], [], [], [];
    }

    /** Lines 107-167: one attempt at the delimiter, through the two calls of kmp. Returns the position
        behind the delimiter, or -1. */
    method AttemptUntil(window: string, delim: string, table: seq<int>) returns (end: int)
      requires delim != "" && IsTable(delim, table)
      requires 0 <= delimMatch < |delim| && 0 <= delimOffset <= |window|
      modifies this`delimOffset, this`delimMatch
      ensures match Attempt(window, delim, old(delimOffset), old(delimMatch))
              case Done(e) => end == e && delimOffset == 0 && delimMatch == 0
              case Blocked(o, m) => end == -1 && delimOffset == o && delimMatch == m
    {
      hide Search, IsTable;
      TableFalls(delim, table);
      end := -1;
      var at, matched := delimOffset, delimMatch;
      var part;
      if matched > 0 {
        var rem := |delim| - matched;
        var dataLength := if at + rem > |window| then |window| else at + rem;
        part := Find(window[..dataLength], delim[matched..], at, Some(table));
        assert window[..dataLength][at..] == window[at..dataLength];
        if part.length < rem {
          matched := 0;
          part := Find(window, delim[matched..], at, Some(table));
        }
      } else {
        part := Find(window, delim[matched..], at, Some(table));
      }
      assert delim[0..] == delim;
      SearchRange(window, delim, at);
      if part.length == |delim| || (part.offset == at && part.length + matched == |delim|) {
        end := part.offset + part.length;
        at, matched := 0, 0;
      } else if part.offset == at + matched && part.length > 0 {
        matched := matched + part.length;
        at := part.offset + part.length;
      } else {
        var toAdd := if part.offset == |window| - part.length then part.length else 0;
        if matched == 0 || (matched > 0 && part.offset == at) {
          matched := matched + toAdd;
          at := part.offset + toAdd;
        } else {
          // `matched` is 0 whenever a search fails, so this line of the source is never reached
          matched := toAdd;
          at := part.offset + matched;
        }
      }
      delimOffset, delimMatch := at, matched;
    }

    /** Take the command in front and its bytes off, with the scan state back at its start. */
    method Deliver(arg: string, taken: nat, ghost tried: seq<string>)
      requires Tables(commands) && commands != [] && delimOffset == 0 && delimMatch == 0
      modifies this`offset, this`commands, this`log, this`attempts
      ensures Tables(commands) && Now() == Delivered(old(Now()), arg, taken, tried)
    {
      hide Tables, Waiting;
      TablesChange(commands, Command(Any, []));
      WaitingChange(commands, Command(Any, []));
      log := log + [Delivery(commands[0].request, arg, tried)];
      offset := offset + taken;
      commands := commands[1..];
      attempts := [];
    }

    /** A promise was resolved: the coroutine behind it runs, and may issue reads, which run commands
        themselves. `fuel` bounds the commands still to come. */
    method Resume(ghost fuel: nat)
      requires Valid() && Going(Now(), fuel)
      modifies this
      ensures Valid() && Going(Now(), fuel) && Now() == Resumed(old(Now()), fuel)
      decreases fuel, 3
    {
      hide Ok, Tables, Faithful, Window, Issued, Waiting, Work, Total, AllSane;
      ResumedKeeps(Now(), fuel);
      if script != [] {
        ScriptPops(Now());
        var requests := script[0];
        script := script[1..];
        while requests != []
          invariant Valid() && !closed && Work(Now()) + |requests| <= fuel
          invariant IssuedAll(Now(), requests, fuel) == old(Resumed(Now(), fuel))
          decreases |requests|
        {
          IssuedKeeps(Now(), requests[0], fuel);
          Read(requests[0], fuel);
          requests := requests[1..];
        }
      }
    }

    /** read_any, read_n, read_until: queue the command, and run it if it is alone and bytes are waiting. */
    method Read(request: Request, ghost fuel: nat)
      requires Valid() && Work(Now()) < fuel
      modifies this
      ensures Valid() && Now() == Issued(old(Now()), request, fuel)
      ensures closed == old(closed) && received == old(received) && old(log) <= log
      ensures old(Starved(Now())) ==> Starved(Now())
      ensures if closed then failed == old(failed) + [request] else old(issued) + [request] <= issued
      decreases fuel, 2
    {
      hide Ok, Tables, Faithful, Window, Cycled, Waiting, Work, Starved, IsTable, AllSane;
      if closed {
        failed := failed + [request];
        ClosedIs(Now());
        return;
      }
      IssuedKeeps(Now(), request, fuel);
      EnqueuedKeeps(Now(), request);
      var table := [];
      if request.Until? {
        var pattern := new int[|request.delim| + 2];
        ghost var steps := BuildKmp(request.delim, pattern);
        table := pattern[..];
      }
      TablesChange(commands, Command(request, table));
      WaitingChange(commands, Command(request, table));
      commands := commands + [Command(request, table)];
      issued := issued + [request];
      assert Now() == Enqueued(old(Now()), request);
      if |buffer| > 0 && |commands| == 1 {
        assert |Waiting(commands)| == 1;
        OnData("", true, fuel);
      }
    }

    /** Pop the command, then resolve its promise. */
    method Serve(arg: string, taken: nat, ghost tried: seq<string>, ghost fuel: nat)
      requires Tables(commands) && commands != [] && delimOffset == 0 && delimMatch == 0 && fuel > 0
      requires Going(Delivered(Now(), arg, taken, tried), fuel - 1)
      modifies this
      ensures Valid() && Going(Now(), fuel - 1) && Now() == Resumed(Delivered(old(Now()), arg, taken, tried), fuel - 1)
      decreases fuel, 0, 0
    {
      hide Ok, Tables, Waiting, Work, Resumed;
      Deliver(arg, taken, tried);
      Resume(fuel - 1);
    }

    /** Lines 107-167 around the attempt. Returns false if the command stays blocked. */
    method ServeUntil(it: Command, window: string, ghost fuel: nat) returns (iterate: bool)
      requires Valid() && Going(Now(), fuel) && window == Window(Now()) && commands != [] && commands[0] == it
      requires it.request.Until? && it.request.delim != "" && fuel > 0
      modifies this
      ensures Valid() && iterate == old(Scanning(Waiting(commands)) && Try(Now()).Done?)
      ensures Now() == old(if iterate then Resumed(Completed(Now()), fuel - 1) else Missed(Now()))
      ensures iterate ==> Going(Now(), fuel - 1)
      decreases fuel, 0, 1
    {
      hide Ok, Tables, Waiting, Window, Going, Try, Delivered, Resumed, Attempt, Scanning, Work, Completed, Missed;
      ghost var before := Now();
      TablesChange(commands, Command(Any, []));
      WaitingChange(commands, Command(Any, []));
      UntilCases(before, fuel);
      var delim := it.request.delim;
      var end := AttemptUntil(window, delim, it.table);
      iterate := end >= 0;
      if iterate {
        ScanReset(before, Now(), window[..end - |delim|], end, Tried(before));
        Serve(window[..end - |delim|], end, Tried(before), fuel);
      } else {
        attempts := Tried(before);
      }
    }

    /** The loop over the command queue, lines 71-170. */
    method RunCommands(ghost fuel: nat)
      requires Valid() && Going(Now(), fuel)
      modifies this
      ensures Valid() && Now() == Served(old(Now()), fuel)
      decreases fuel, 0, 2
    {
      hide Ok, Tables, Waiting, Window, Going, Try, Delivered, Resumed, Scanning, Work, Completed, Missed, Served;
      var iterate := true;
      ghost var left: nat := fuel;
      while iterate && commands != []
        invariant Valid() && left <= fuel
        invariant if iterate then Going(Now(), left) && Served(Now(), left) == Served(old(Now()), fuel)
                  else Now() == Served(old(Now()), fuel)
        decreases iterate, left
      {
        GoingIs(Now(), left);
        OkIs(Now());
        WindowIs(Now());
        ServedUnfolds(Now(), left);
        WaitingChange(commands, Command(Any, []));
        var window := buffer[offset..];
        if window == "" { break; }
        var it := commands[0];
        assert window[..|window|] == window;
        match it.request
        case Any =>
          PlainCase(Now(), |window|, left);
          Serve(window, |window|, [], left);
          iterate := false;
        case N(count) =>
          if |window| < count {
            iterate := false;
          } else {
            PlainCase(Now(), count, left);
            Serve(window[..count], count, [], left);
            left := left - 1;
          }
        case Until(delim) =>
          if delim == "" {
            // kmp answers (window length, 0) for an empty delimiter, and 0 bytes complete it
            PlainCase(Now(), |window|, left);
            Serve(window, |window|, [], left);
            left := left - 1;
          } else {
            UntilCases(Now(), left);
            iterate := ServeUntil(it, window, left);
            if iterate { left := left - 1; }
          }
      }
      WaitingChange(commands, Command(Any, []));
      ServedUnfolds(Now(), left);
    }

    /** Line 67: extend the buffer. */
    method Append(data: string)
      requires Valid() && !closed
      modifies this`buffer, this`received
      ensures Valid() && Now() == Appended(old(Now()), data)
    {
      hide Ok, Tables, Window, Waiting;
      AppendedOk(Now(), data);
      buffer := buffer + data;
      received := received + data;
    }

    /** Lines 172-178: once everything was consumed, drop the buffer. */
    method Compact()
      requires Valid()
      modifies this`buffer, this`offset
      ensures Valid() && Now() == Compacted(old(Now()))
    {
      hide Ok, Tables, Window, Waiting;
      CompactedKeeps(Now());
      if offset == |buffer| {
        offset := 0;
        buffer := "";
      }
    }

    /** Lines 64-178. */
    method Process(data: string, ghost fuel: nat)
      requires Valid() && Going(Now(), fuel)
      modifies this
      ensures Valid() && Going(Now(), fuel) && Now() == Processed(old(Now()), data, fuel)
      decreases fuel, 0, 3
    {
      hide Ok, Tables, Waiting, Window, Going, Work, Served, Compacted, Appended;
      ProcessKeeps(Now(), data, fuel);
      GoingIs(Now(), fuel);
      if |data| > 0 { Append(data); }
      RunCommands(fuel);
      Compact();
    }

    /** on_data, without the TLS layer. `cycle` is set when a read forces a run over waiting bytes. */
    method OnData(bytes: string, cycle: bool, ghost fuel: nat)
      requires Valid() && Work(Now()) <= fuel
      requires if cycle then !closed && bytes == "" else Starved(Now())
      modifies this
      ensures Valid() && Now() == if cycle then Cycled(old(Now()), fuel) else Arrived(old(Now()), bytes, fuel)
      ensures closed == old(closed) && received == old(received) + (if closed then "" else bytes) && failed == old(failed)
      ensures old(log) <= log && Starved(Now()) && old(issued) <= issued && Work(Now()) <= fuel
      decreases fuel, if cycle then 1 else 4
    {
      hide Ok, Tables, Waiting, Window, Work, Resumed, Faithful, Starved, Arrived, Cycled, Refilled, Processed;
      ghost var before := Now();
      DataIs(before, bytes, fuel);
      if !closed { DataKeeps(before, bytes, fuel); }
      var data := bytes;
      if closed {
        ClosedIs(before);
        return;
      }
      WaitingChange(commands, Command(Any, []));
      RefilledIs(before, fuel);
      if !cycle && commands == [] && hasEmptyCallback { Resume(fuel); }
      if !cycle && data == "" { return; }
      if |buffer| + |data| - offset == 0 { return; }
      Process(data, fuel);
      if buffer == "" || cycle { return; }
      WaitingChange(commands, Command(Any, []));
      RefilledIs(Now(), fuel);
      // the second pass of the do-while loop: no bytes are left to add, so it ends behind the callback
      if commands == [] && hasEmptyCallback { Resume(fuel); }
    }

    /** on_close: every pending read fails once; what resumed coroutines ask for then fails at once. */
    method OnClose()
      requires Valid()
      modifies this
      ensures Valid() && closed && Starved(Now())
      ensures !old(closed) ==> commands == [] && buffer == ""
      ensures old(closed) ==> unchanged(this)
      ensures received == old(received) && log == old(log)
      ensures !old(closed) ==> failed == old(failed) + FailAll(old(Waiting(commands)), old(script))
    {
      if !closed {
        closed := true;
        while commands != []
          invariant closed && received == old(received) && log == old(log)
          invariant Tables(commands)
          invariant failed + FailAll(Waiting(commands), script) == old(failed) + FailAll(old(Waiting(commands)), old(script))
          decreases |commands|
        {
          hide Waiting, Tables, FailAll;
          FailPops(failed, Waiting(commands), script);
          WaitingChange(commands, Command(Any, []));
          TablesChange(commands, Command(Any, []));
          failed := failed + [commands[0].request];
          commands := commands[1..];
          if script != [] {
            failed := failed + script[0];
            script := script[1..];
          }
        }
        buffer := "";
      }
    }
  }
}
