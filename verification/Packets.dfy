/** mysql::read_packet (src/90s/sql/mysql.cpp, lines 26-43) as a client of the reader: read 4 bytes,
    then as many as they announce. */
module Packets {
  import opened DelimiterScan
  import opened StreamReader

  datatype Packet = Packet(sequence: char, payload: string)

  /** A payload of 1 to 2^24-1 bytes travels this way. From 2^24-1 bytes on the server splits what it sends,
      and an empty packet follows if nothing is left. */
  predicate Sendable(p: Packet) {
    0 < |p.payload| < 0x100_0000 && p.sequence < 256 as char
  }

  function Header(p: Packet): (h: string)
    requires Sendable(p)
    ensures |h| == 4
  {
    var n := |p.payload|;
    [(n % 256) as char, (n / 256 % 256) as char, (n / 65536) as char, p.sequence]
  }

  /** bytes[0] | bytes[1] << 8 | bytes[2] << 16 */
  function Announced(header: string): nat
    requires |header| == 4
  {
    header[0] as nat + header[1] as nat * 256 + header[2] as nat * 65536
  }

  lemma AnnouncedLength(p: Packet)
    requires Sendable(p)
    ensures Announced(Header(p)) == |p.payload|
  {
    var n := |p.payload|;
    assert n / 256 / 256 == n / 65536;
    assert n / 65536 < 256;
  }

  ghost predicate Honest(packets: seq<Packet>) {
    forall p :: p in packets ==> Sendable(p)
  }

  ghost function Wire(packets: seq<Packet>): string
    requires Honest(packets)
  {
    if packets == [] then ""
    else
      var last := packets[|packets| - 1];
      Wire(packets[..|packets| - 1]) + Header(last) + last.payload
  }

  lemma {:induction false} WirePrefix(packets: seq<Packet>, i: nat)
    requires Honest(packets) && i < |packets| && Honest(packets[..i])
    ensures Wire(packets[..i]) + Header(packets[i]) + packets[i].payload <= Wire(packets)
  {
    hide Header, Sendable;
    var last := |packets| - 1;
    if i < last {
      WirePrefix(packets[..last], i);
      assert packets[..last][..i] == packets[..i];
    }
  }

  /** The coroutine: headers and bodies in turn, each body as long as its header said. */
  ghost predicate AsksForPackets(log: seq<Delivery>, issued: seq<Request>) {
    |log| <= |issued| && Requests(log) <= issued
    && (forall k {:trigger HeaderAt(k)} :: 0 <= k && HeaderAt(k) < |issued| ==> issued[HeaderAt(k)] == N(4))
    && (forall k {:trigger HeaderAt(k)} ::
          0 <= k && HeaderAt(k) < |log| && HeaderAt(k) + 1 < |issued| && |log[HeaderAt(k)].arg| == 4
          ==> issued[HeaderAt(k) + 1] == N(Announced(log[HeaderAt(k)].arg)))
  }

  /** Packet `k` starts with this read. */
  function HeaderAt(k: int): int {
    2 * k
  }

  lemma Asked(log: seq<Delivery>, issued: seq<Request>, k: nat)
    requires AsksForPackets(log, issued)
    ensures |log| <= |issued| && Requests(log) <= issued
    ensures 2 * k < |issued| ==> issued[2 * k] == N(4)
    ensures 2 * k < |log| && 2 * k + 1 < |issued| && |log[2 * k].arg| == 4 ==> issued[2 * k + 1] == N(Announced(log[2 * k].arg))
  {
    assert HeaderAt(k) == 2 * k;
  }

  lemma ReadIs(log: seq<Delivery>, issued: seq<Request>, received: string, i: nat, n: nat)
    requires LogOk(log, received) && Requests(log) <= issued && i < |log| <= |issued| && issued[i] == N(n)
    ensures |log[i].arg| == n && |Bytes(log[..i])| + n <= |received|
    ensures Bytes(log[..i + 1]) == Bytes(log[..i]) + log[i].arg
    ensures log[i].arg == received[|Bytes(log[..i])|..|Bytes(log[..i])| + n]
  {
    assert Requests(log)[i] == log[i].request;
    assert EntryOk(log, received, i);
    assert log[..i + 1] == log[..i] + [log[i]];
    BytesSnoc(log[..i], log[i]);
    BytesStep(log, received, i);
  }

  lemma SliceOf(whole: string, received: string, a: string, b: string)
    requires a + b <= whole && received <= whole && |a| + |b| <= |received|
    ensures received[|a|..|a| + |b|] == b
  {
    assert whole[|a|..|a| + |b|] == b;
    assert received[|a|..|a| + |b|] == whole[|a|..|a| + |b|];
  }

  lemma PacketAt(packets: seq<Packet>, received: string, at: nat, i: nat)
    requires Honest(packets) && received <= Wire(packets) && i < |packets| && Honest(packets[..i])
    requires at == |Wire(packets[..i])|
    ensures var body := at + 4 + |packets[i].payload|;
            (at + 4 <= |received| ==> received[at..at + 4] == Header(packets[i]))
            && (body <= |received| ==> received[at + 4..body] == packets[i].payload)
            && body <= |Wire(packets)|
  {
    WirePrefix(packets, i);
    var before, header, payload := Wire(packets[..i]), Header(packets[i]), packets[i].payload;
    var body := at + 4 + |payload|;
    hide Wire, Header, Honest, Sendable;
    if at + 4 <= |received| { SliceOf(Wire(packets), received, before, header); }
    if body <= |received| { SliceOf(Wire(packets), received, before + header, payload); }
  }

  lemma TakeSnoc(packets: seq<Packet>, i: nat)
    requires Honest(packets) && i < |packets|
    ensures Honest(packets[..i]) && Honest(packets[..i + 1])
    ensures Wire(packets[..i + 1]) == Wire(packets[..i]) + Header(packets[i]) + packets[i].payload
  {
    assert packets[..i + 1][..i] == packets[..i];
  }

  /** The body of read pair `i` is packet `i`. */
  predicate Recovered(log: seq<Delivery>, packets: seq<Packet>, i: int) {
    0 <= i < |packets| && 2 * i + 1 < |log| && log[2 * i + 1].arg == packets[i].payload
  }

  /** The header of one packet, given that everything before it was recovered. */
  lemma HeaderIs(log: seq<Delivery>, issued: seq<Request>, received: string, packets: seq<Packet>, i: nat)
    requires Honest(packets) && received <= Wire(packets) && LogOk(log, received) && Requests(log) <= issued
    requires i <= |packets| && Honest(packets[..i]) && 2 * i < |log| <= |issued| && issued[2 * i] == N(4)
    requires Bytes(log[..2 * i]) == Wire(packets[..i])
    ensures i < |packets| && Sendable(packets[i]) && log[2 * i].arg == Header(packets[i])
    ensures Bytes(log[..2 * i + 1]) == Wire(packets[..i]) + Header(packets[i])
  {
    hide *;
    ReadIs(log, issued, received, 2 * i, 4);
    PrefixHonest(packets, i);
    assert packets[..|packets|] == packets;
    PacketAt(packets, received, |Wire(packets[..i])|, i);
  }

  lemma HeaderRead(log: seq<Delivery>, issued: seq<Request>, received: string, packets: seq<Packet>, i: nat)
    requires Honest(packets) && received <= Wire(packets) && LogOk(log, received) && AsksForPackets(log, issued)
    requires i <= |packets| && Honest(packets[..i]) && 2 * i < |log| && Bytes(log[..2 * i]) == Wire(packets[..i])
    ensures i < |packets| && Sendable(packets[i]) && log[2 * i].arg == Header(packets[i])
    ensures Bytes(log[..2 * i + 1]) == Wire(packets[..i]) + Header(packets[i])
    ensures 2 * i + 1 < |issued| ==> issued[2 * i + 1] == N(|packets[i].payload|)
  {
    hide *;
    Asked(log, issued, i);
    HeaderIs(log, issued, received, packets, i);
    AnnouncedLength(packets[i]);
  }

  lemma PrefixHonest(packets: seq<Packet>, i: nat)
    requires Honest(packets) && i <= |packets|
    ensures Honest(packets[..i]) && (i < |packets| ==> Sendable(packets[i]))
  {
  }

  lemma BodyRead(log: seq<Delivery>, issued: seq<Request>, received: string, packets: seq<Packet>, i: nat)
    requires Honest(packets) && received <= Wire(packets) && LogOk(log, received) && AsksForPackets(log, issued)
    requires i < |packets| && Honest(packets[..i]) && Honest(packets[..i + 1])
    requires 2 * i + 1 < |log| && issued[2 * i + 1] == N(|packets[i].payload|)
    requires Bytes(log[..2 * i + 1]) == Wire(packets[..i]) + Header(packets[i])
    ensures Recovered(log, packets, i) && Bytes(log[..2 * (i + 1)]) == Wire(packets[..i + 1])
  {
    hide Wire, Bytes, Honest, LogOk, AsksForPackets, Sendable, Header, Announced;
    PrefixHonest(packets, i);
    Asked(log, issued, i);
    ReadIs(log, issued, received, 2 * i + 1, |packets[i].payload|);
    PacketAt(packets, received, |Wire(packets[..i])|, i);
    TakeSnoc(packets, i);
  }

  lemma NothingYet(log: seq<Delivery>, packets: seq<Packet>)
    ensures Honest(packets[..0]) && Bytes(log[..0]) == Wire(packets[..0])
  {
  }

  /** Every completed pair of reads is the next packet, wherever the pieces were cut. */
  lemma {:induction false} PairsArePackets(log: seq<Delivery>, issued: seq<Request>, received: string, packets: seq<Packet>, k: nat)
    requires Honest(packets) && received <= Wire(packets) && LogOk(log, received) && AsksForPackets(log, issued)
    requires 2 * k <= |log|
    ensures k <= |packets| && Honest(packets[..k]) && Bytes(log[..2 * k]) == Wire(packets[..k])
    ensures forall i :: 0 <= i < k ==> Recovered(log, packets, i)
  {
    hide *;
    if k > 0 {
      PairsArePackets(log, issued, received, packets, k - 1);
      Asked(log, issued, k - 1);
      PrefixHonest(packets, k - 1);
      HeaderRead(log, issued, received, packets, k - 1);
      PrefixHonest(packets, k);
      BodyRead(log, issued, received, packets, k - 1);
    } else {
      NothingYet(log, packets);
    }
  }

  /** As long as a packet is missing, the bytes the coroutine waits for have arrived. */
  lemma NextHasArrived(log: seq<Delivery>, issued: seq<Request>, packets: seq<Packet>)
    requires Honest(packets) && LogOk(log, Wire(packets)) && AsksForPackets(log, issued) && |issued| > |log|
    ensures |log| <= 2 * |packets|
    ensures |log| < 2 * |packets| ==>
              issued[|log|].N? && 0 < issued[|log|].n && |Bytes(log)| + issued[|log|].n <= |Wire(packets)|
  {
    hide *;
    var k := |log| / 2;
    assert log[..|log|] == log;
    PairsArePackets(log, issued, Wire(packets), packets, k);
    Asked(log, issued, k);
    PrefixHonest(packets, k);
    if |log| % 2 == 1 {
      HeaderRead(log, issued, Wire(packets), packets, k);
      PacketAt(packets, Wire(packets), |Wire(packets[..k])|, k);
    } else if k < |packets| {
      PacketAt(packets, Wire(packets), |Wire(packets[..k])|, k);
    }
  }

  /** When everything the server sent has arrived, every packet has been read. */
  lemma {:induction false} AllPacketsRecovered(reader: Reader, packets: seq<Packet>)
    requires Honest(packets)
    requires reader.Valid() && !reader.closed && Starved(reader.Now()) && reader.commands != []
    requires AsksForPackets(reader.log, reader.issued) && reader.received == Wire(packets)
    ensures |reader.log| == 2 * |packets|
    ensures forall i :: 0 <= i < |packets| ==> Recovered(reader.log, packets, i)
  {
    var log, issued := reader.log, reader.issued;
    assert Waiting(reader.commands)[0] == reader.commands[0].request;
    NextHasArrived(log, issued, packets);
    PairsArePackets(log, issued, reader.received, packets, |log| / 2);
  }

  // ---------- running read_packet ----------

  /** The reads of the coroutine for these packets, and the header it waits for behind them. */
  function PacketReads(packets: seq<Packet>): (list: seq<Request>)
    ensures |list| == 2 * |packets| + 1
  {
    seq(2 * |packets| + 1, i requires 0 <= i < 2 * |packets| + 1 => if i % 2 == 0 then N(4) else N(|packets[i / 2].payload|))
  }

  function Flatten(script: seq<seq<Request>>): seq<Request> {
    if script == [] then [] else script[0] + Flatten(script[1..])
  }

  /** A coroutine that goes on when what it waits for is there. It may issue several reads at one resumption,
      as long as they are served at once; those resume nobody, so as many entries behind are empty. The next
      `idle` entries still have to be. */
  predicate Sequential(script: seq<seq<Request>>, idle: nat) {
    Flatten(script) == []
    || (script != []
        && if idle > 0 then script[0] == [] && Sequential(script[1..], idle - 1)
           else script[0] != [] && Sequential(script[1..], |script[0]| - 1))
  }

  /** The reads of the list were issued up to `coming`, which the running coroutine is about to issue; the
      script has the others. Each read that is out or coming, but one, has an empty entry. */
  predicate InTurn(v: View, coming: seq<Request>, list: seq<Request>) {
    v.issued + coming + Flatten(v.script) == list && !v.onEmpty
    && (Flatten(v.script) == []
        || (|v.commands| + |coming| > 0 && Sequential(v.script, |v.commands| + |coming| - 1)))
  }

  /** The same between a delivery and its resumption. */
  predicate Due(v: View, coming: seq<Request>, list: seq<Request>) {
    v.issued + coming + Flatten(v.script) == list && !v.onEmpty && Sequential(v.script, |v.commands| + |coming|)
  }

  lemma EmptyEntry(v: View, coming: seq<Request>, list: seq<Request>)
    requires Due(v, coming, list) && v.script != [] && v.script[0] == []
    ensures InTurn(Popped(v), coming, list)
  {
    assert [] + Flatten(v.script[1..]) == Flatten(v.script[1..]);
  }

  lemma FullEntry(v: View, coming: seq<Request>, list: seq<Request>)
    requires Due(v, coming, list) && v.script != [] && v.script[0] != []
    ensures coming == [] && v.commands == [] && InTurn(Popped(v), v.script[0], list)
  {
    assert Flatten(v.script) == v.script[0] + Flatten(v.script[1..]) != [];
    assert v.issued + [] + (v.script[0] + Flatten(v.script[1..])) == v.issued + v.script[0] + Flatten(v.script[1..]);
  }

  /** Behind a delivery, the coroutine issues what comes next in its list, or nothing. */
  lemma {:induction false} DueResumes(v: View, fuel: nat, coming: seq<Request>, list: seq<Request>)
    requires Going(v, fuel) && Due(v, coming, list)
    ensures InTurn(Resumed(v, fuel), coming, list)
    decreases fuel, 4
  {
    if v.script != [] {
      ScriptPops(v);
      hide Ok, Faithful, Issued, Window, Work, Starved, AllSane, Due, InTurn, Flatten;
      if v.script[0] == [] {
        EmptyEntry(v, coming, list);
      } else {
        FullEntry(v, coming, list);
        IssuesInTurn(Popped(v), v.script[0], fuel, list);
      }
    }
  }

  lemma {:induction false} IssuesInTurn(v: View, requests: seq<Request>, fuel: nat, list: seq<Request>)
    requires Ok(v) && !v.closed && Work(v) + |requests| <= fuel && InTurn(v, requests, list)
    ensures InTurn(IssuedAll(v, requests, fuel), [], list)
    decreases fuel, 3, |requests|
  {
    hide Ok, Faithful, Cycled, Window, Work, Starved, AllSane, InTurn;
    if requests != [] {
      var w, next := Enqueued(v, requests[0]), Issued(v, requests[0], fuel);
      EnqueuedOk(v, requests[0]);
      EnqueuedKeeps(v, requests[0]);
      EnqueuedInTurn(v, requests, list);
      if |w.buffer| > 0 && |w.commands| == 1 { CyclesInTurn(w, fuel, requests[1..], list); }
      IssuedKeeps(v, requests[0], fuel);
      IssuesInTurn(next, requests[1..], fuel, list);
    }
  }

  lemma EnqueuedInTurn(v: View, requests: seq<Request>, list: seq<Request>)
    requires requests != [] && InTurn(v, requests, list)
    ensures InTurn(Enqueued(v, requests[0]), requests[1..], list)
  {
    assert v.issued + requests == v.issued + [requests[0]] + requests[1..];
    hide Sequential, Flatten;
  }

  lemma {:induction false} CyclesInTurn(v: View, fuel: nat, coming: seq<Request>, list: seq<Request>)
    requires Going(v, fuel) && InTurn(v, coming, list)
    ensures InTurn(Cycled(v, fuel), coming, list)
    decreases fuel, 1
  {
    hide *;
    DataIs(v, "", fuel);
    ServesInTurn(v, fuel, coming, list);
    NothingAppended(v);
    ProcessedSame(v, "", fuel);
    SameTurn(Served(v, fuel), Processed(v, "", fuel), coming, list);
  }

  lemma {:induction false} ServesInTurn(v: View, fuel: nat, coming: seq<Request>, list: seq<Request>)
    requires Going(v, fuel) && InTurn(v, coming, list)
    ensures InTurn(Served(v, fuel), coming, list)
    decreases fuel, 0
  {
    hide *;
    GoingIs(v, fuel);
    OkIs(v);
    ServedUnfolds(v, fuel);
    IsScanning(v);
    if v.commands != [] && Window(v) != "" && fuel > 0 {
      var request := v.commands[0];
      if request.Until? && request.delim != "" {
        UntilCases(v, fuel);
        if Try(v).Done? {
          ServesOn(v, Window(v)[..Try(v).end - |request.delim|], Try(v).end, Tried(v), fuel, coming, list);
        } else {
          SameTurn(v, Missed(v), coming, list);
        }
      } else {
        var taken := if request.N? then request.n else |Window(v)|;
        if taken <= |Window(v)| {
          PlainCase(v, taken, fuel);
          ServesOn(v, Window(v)[..taken], taken, [], fuel, coming, list);
        }
      }
    }
  }

  lemma {:induction false} ServesOn(
    v: View, arg: string, taken: nat, tried: seq<string>, fuel: nat, coming: seq<Request>, list: seq<Request>)
    requires Going(v, fuel) && InTurn(v, coming, list) && v.commands != [] && fuel > 0
    requires Going(Delivered(v, arg, taken, tried), fuel - 1)
    ensures var r := Resumed(Delivered(v, arg, taken, tried), fuel - 1);
            InTurn(r, coming, list) && InTurn(Served(r, fuel - 1), coming, list)
    decreases fuel - 1, 5
  {
    hide *;
    var d := Delivered(v, arg, taken, tried);
    DeliveredDue(v, arg, taken, tried, coming, list);
    DueResumes(d, fuel - 1, coming, list);
    ResumedKeeps(d, fuel - 1);
    ServesInTurn(Resumed(d, fuel - 1), fuel - 1, coming, list);
  }

  lemma DeliveredDue(v: View, arg: string, taken: nat, tried: seq<string>, coming: seq<Request>, list: seq<Request>)
    requires InTurn(v, coming, list) && v.commands != []
    ensures Due(Delivered(v, arg, taken, tried), coming, list)
  {
    hide Flatten;
  }

  lemma SameTurn(v: View, w: View, coming: seq<Request>, list: seq<Request>)
    requires InTurn(v, coming, list) && w.issued == v.issued && w.script == v.script && w.onEmpty == v.onEmpty
    requires w.commands == v.commands
    ensures InTurn(w, coming, list)
  {
    hide Sequential, Flatten;
  }

  /** What a piece from the network does to the reads of the coroutine. */
  lemma {:induction false} ArrivesInTurn(v: View, data: string, fuel: nat, list: seq<Request>)
    requires Going(v, fuel) && InTurn(v, [], list)
    ensures InTurn(Arrived(v, data, fuel), [], list)
  {
    hide *;
    NoCallback(v, list);
    RefilledIs(v, fuel);
    DataIs(v, data, fuel);
    var more, served, done := Appended(v, data), Served(Appended(v, data), fuel), Processed(v, data, fuel);
    GoingIs(v, fuel);
    AppendedKeeps(v, data);
    GoingIs(more, fuel);
    AppendedSame(v, data);
    SameTurn(v, more, [], list);
    ServesInTurn(more, fuel, [], list);
    ProcessedSame(v, data, fuel);
    SameTurn(served, done, [], list);
    NoCallback(done, list);
    RefilledIs(done, fuel);
  }

  lemma NoCallback(v: View, list: seq<Request>)
    ensures InTurn(v, [], list) ==> !v.onEmpty
  {
    hide Sequential, Flatten;
  }

  lemma AppendedSame(v: View, data: string)
    ensures var w := Appended(v, data);
            w.issued == v.issued && w.script == v.script && w.onEmpty == v.onEmpty && w.commands == v.commands
  {
  }

  lemma ProcessedSame(v: View, data: string, fuel: nat)
    ensures var s, w := Served(Appended(v, data), fuel), Processed(v, data, fuel);
            w.issued == s.issued && w.script == s.script && w.onEmpty == s.onEmpty && w.commands == s.commands
  {
    hide Served, Appended;
  }

  // ---------- which scripts are sequential ----------

  function Empties(n: nat): (script: seq<seq<Request>>)
    ensures |script| == n
  {
    seq(n, _ => [])
  }

  /** The reads cut into runs: within a run all but the last are served at once. */
  function Spread(runs: seq<seq<Request>>): seq<seq<Request>>
    requires forall i :: 0 <= i < |runs| ==> runs[i] != []
  {
    if runs == [] then [] else [runs[0]] + Empties(|runs[0]| - 1) + Spread(runs[1..])
  }

  lemma {:induction false} EmptiesPass(n: nat, script: seq<seq<Request>>)
    requires Sequential(script, 0)
    ensures Flatten(Empties(n) + script) == Flatten(script) && Sequential(Empties(n) + script, n)
  {
    if n > 0 {
      EmptiesPass(n - 1, script);
      var all := Empties(n) + script;
      assert all[1..] == Empties(n - 1) + script && all[0] == [];
    } else {
      assert Empties(0) + script == script;
    }
  }

  /** However the reads of a coroutine fall on its resumptions, its script is sequential. */
  lemma {:induction false} SpreadIsSequential(runs: seq<seq<Request>>)
    requires forall i :: 0 <= i < |runs| ==> runs[i] != []
    ensures Flatten(Spread(runs)) == Flatten(runs) && Sequential(Spread(runs), 0)
  {
    if runs != [] {
      var rest := Empties(|runs[0]| - 1) + Spread(runs[1..]);
      SpreadIsSequential(runs[1..]);
      EmptiesPass(|runs[0]| - 1, Spread(runs[1..]));
      assert Spread(runs) == [runs[0]] + rest;
      assert Spread(runs)[1..] == rest;
    }
  }

  lemma ServedN(v: View, fuel: nat, n: nat)
    requires Going(v, fuel) && v.commands == [N(n)] && n <= |Window(v)| && Window(v) != ""
    ensures fuel > 0
    ensures var d := Delivered(v, Window(v)[..n], n, []);
            Served(v, fuel) == Served(Resumed(d, fuel - 1), fuel - 1) && Going(d, fuel - 1)
            && d.commands == [] && d.script == v.script && d.issued == v.issued && |Window(d)| == |Window(v)| - n
  {
    PlainCase(v, n, fuel);
    hide Ok, Resumed, Work;
  }

  lemma ServedGrows(v: View, fuel: nat)
    requires Going(v, fuel)
    ensures v.issued <= Served(v, fuel).issued && Compacted(Served(v, fuel)).issued == Served(v, fuel).issued
  {
    hide Ok, Served, Window, Faithful;
    ServedKeeps(v, fuel);
  }

  lemma IssuedGrows(v: View, requests: seq<Request>, fuel: nat)
    requires Ok(v) && !v.closed && Work(v) + |requests| <= fuel
    ensures v.issued + requests[..if requests == [] then 0 else 1] <= IssuedAll(v, requests, fuel).issued
    ensures Going(IssuedAll(v, requests, fuel), fuel)
  {
    hide Ok, IssuedAll, Window, Faithful, Work, Sane, Starved;
    IssuedAllKeeps(v, requests, fuel);
  }

  lemma ResumedIs(v: View, fuel: nat)
    requires v.script != []
    ensures Resumed(v, fuel) == IssuedAll(Popped(v), v.script[0], fuel)
    ensures var p := Popped(v);
            p.script == v.script[1..] && p.commands == v.commands && p.issued == v.issued && p.closed == v.closed
            && Window(p) == Window(v) && p.offset == v.offset && p.buffer == v.buffer
  {
    hide IssuedAll;
  }

  lemma PrefixTrans(a: seq<Request>, b: seq<Request>, c: seq<Request>)
    requires a <= b <= c
    ensures a <= c
  {
  }

  /** A resumption on a view that can take it. */
  lemma ResumedGrows(v: View, fuel: nat)
    requires Going(v, fuel) && v.script != [] && v.script[0] != []
    ensures v.issued + [v.script[0][0]] <= Resumed(v, fuel).issued && Going(Resumed(v, fuel), fuel)
  {
    hide *;
    GoingIs(v, fuel);
    ResumedIs(v, fuel);
    ScriptPops(v);
    GoingIs(v, fuel);
    IssuedGrows(Popped(v), v.script[0], fuel);
    assert v.script[0][..1] == [v.script[0][0]];
  }

  /** A read that is served at once resumes whoever the script has next, before it returns. */
  lemma ServedInside(p: View, fuel: nat, a: nat)
    requires Ok(p) && !p.closed && Work(p) < fuel && p.commands == [] && a <= |Window(p)| && Window(p) != ""
    requires p.script != [] && p.script[0] != []
    ensures p.issued + [N(a), p.script[0][0]] <= Issued(p, N(a), fuel).issued
  {
    hide *;
    var w := Enqueued(p, N(a));
    EnqueuedOk(p, N(a));
    EnqueuedKeeps(p, N(a));
    GoingIs(w, fuel);
    EnqueuedIs(p, N(a), fuel);
    ServedN(w, fuel, a);
    var d := Delivered(w, Window(w)[..a], a, []);
    ResumedGrows(d, fuel - 1);
    ServedGrows(Resumed(d, fuel - 1), fuel - 1);
    ServedGrows(w, fuel);
    assert p.issued + [N(a)] + [p.script[0][0]] == p.issued + [N(a), p.script[0][0]];
    PrefixTrans(p.issued + [N(a), p.script[0][0]], Resumed(d, fuel - 1).issued, Served(w, fuel).issued);
  }

  lemma EnqueuedIs(p: View, request: Request, fuel: nat)
    requires !p.closed && p.commands == [] && Window(p) != ""
    ensures var w := Enqueued(p, request);
            Issued(p, request, fuel) == Compacted(Served(w, fuel)) && w.commands == [request] && w.script == p.script
            && w.issued == p.issued + [request] && Window(w) == Window(p) && w.closed == p.closed
  {
    hide Served, Compacted;
  }

  /** Other scripts: if a read is served at once, and its delivery resumes somebody who asks for more, that
      comes before the rest of the running entry. */
  lemma OutOfTurn(v: View, fuel: nat, n: nat, a: nat)
    requires Going(v, fuel) && v.commands == [N(n)] && n + a <= |Window(v)| && n < |Window(v)|
    requires |v.script| >= 2 && v.script[0] != [] && v.script[0][0] == N(a) && v.script[1] != []
    ensures v.issued + [N(a), v.script[1][0]] <= Served(v, fuel).issued
  {
    hide *;
    ServedN(v, fuel, n);
    var d, f, entry := Delivered(v, Window(v)[..n], n, []), fuel - 1, v.script[0];
    GoingIs(d, f);
    ResumedIs(d, f);
    ScriptPops(d);
    var p := Popped(d);
    GoingIs(d, f);
    ServedInside(p, f, a);
    IssuedKeeps(p, N(a), f);
    IssuedAllIs(p, entry, f);
    IssuedGrows(Issued(p, N(a), f), entry[1..], f);
    ServedGrows(Resumed(d, f), f);
    PrefixTrans(p.issued + [N(a), v.script[1][0]], Issued(p, N(a), f).issued, Resumed(d, f).issued);
    PrefixTrans(p.issued + [N(a), v.script[1][0]], Resumed(d, f).issued, Served(v, fuel).issued);
  }

  lemma IssuedAllIs(v: View, requests: seq<Request>, fuel: nat)
    requires requests != []
    ensures IssuedAll(v, requests, fuel) == IssuedAll(Issued(v, requests[0], fuel), requests[1..], fuel)
  {
    hide Issued;
  }

  lemma ListAt(packets: seq<Packet>, issued: seq<Request>, i: nat)
    requires i < |issued| <= 2 * |packets| + 1 && issued == PacketReads(packets)[..|issued|]
    ensures issued[i] == if i % 2 == 0 then N(4) else N(|packets[i / 2].payload|)
  {
    assert PacketReads(packets)[i] == issued[i];
  }

  /** Reads of the list ask for packets: the bytes that arrive announce what the list asks for next. */
  lemma {:induction false} FollowsAsks(log: seq<Delivery>, issued: seq<Request>, received: string, packets: seq<Packet>)
    requires Honest(packets) && received <= Wire(packets) && LogOk(log, received)
    requires |log| <= |issued| && Requests(log) <= issued
    requires |issued| <= 2 * |packets| + 1 && issued == PacketReads(packets)[..|issued|]
    ensures AsksForPackets(log, issued)
    decreases |log|
  {
    hide *;
    if log == [] {
      AsksNothing(issued, packets);
    } else {
      var n, k := |log| - 1, (|log| - 1) / 2;
      LogShorter(log, received, issued);
      FollowsAsks(log[..n], issued, received, packets);
      if n % 2 == 0 && n + 1 < |issued| {
        ListAt(packets, issued, n);
        ListAt(packets, issued, n + 1);
        PairsArePackets(log[..n], issued, received, packets, k);
        assert log[..n][..2 * k] == log[..2 * k];
        HeaderIs(log, issued, received, packets, k);
        AnnouncedLength(packets[k]);
      }
      AsksServed(log, issued);
    }
  }

  lemma AsksNothing(issued: seq<Request>, packets: seq<Packet>)
    requires |issued| <= 2 * |packets| + 1 && issued == PacketReads(packets)[..|issued|]
    ensures AsksForPackets([], issued)
  {
    forall k {:trigger HeaderAt(k)} | 0 <= k && HeaderAt(k) < |issued| ensures issued[HeaderAt(k)] == N(4) {
      ListAt(packets, issued, HeaderAt(k));
    }
  }

  lemma AsksServed(log: seq<Delivery>, issued: seq<Request>)
    requires log != [] && |log| <= |issued| && Requests(log) <= issued && AsksForPackets(log[..|log| - 1], issued)
    requires var n := |log| - 1;
             n % 2 == 0 && n + 1 < |issued| && |log[n].arg| == 4 ==> issued[n + 1] == N(Announced(log[n].arg))
    ensures AsksForPackets(log, issued)
  {
    var n := |log| - 1;
    forall k {:trigger HeaderAt(k)} | 0 <= k && HeaderAt(k) < |log| && HeaderAt(k) + 1 < |issued| && |log[HeaderAt(k)].arg| == 4
      ensures issued[HeaderAt(k) + 1] == N(Announced(log[HeaderAt(k)].arg))
    {
      if HeaderAt(k) < n { Asked(log[..n], issued, k); }
    }
    hide Announced, Requests;
  }

  lemma LogShorter(log: seq<Delivery>, received: string, issued: seq<Request>)
    requires log != [] && LogOk(log, received) && Requests(log) <= issued
    ensures LogOk(log[..|log| - 1], received) && Requests(log[..|log| - 1]) <= issued
  {
    var shorter := log[..|log| - 1];
    BytesPrefix(log, |log| - 1);
    forall i | 0 <= i < |shorter| ensures EntryOk(shorter, received, i) {
      assert EntryOk(log, received, i) && shorter[..i] == log[..i];
    }
    assert Requests(shorter) == Requests(log)[..|log| - 1];
  }

  lemma InTurnIs(v: View, packets: seq<Packet>)
    requires Ok(v) && !v.closed && InTurn(v, [], PacketReads(packets))
    ensures |v.log| <= |v.issued| && Requests(v.log) <= v.issued && LogOk(v.log, v.received)
    ensures |v.issued| <= 2 * |packets| + 1 && v.issued == PacketReads(packets)[..|v.issued|]
    ensures |v.issued| == |v.log| + |v.commands| && (v.commands == [] ==> |v.log| == 2 * |packets| + 1)
  {
    assert |Requests(v.log)| == |v.log|;
    hide Sequential, ScanOk, Window, LogOk, Bytes;
  }

  /** Behind the last packet there is nothing to read. */
  lemma NoHeaderBehind(log: seq<Delivery>, issued: seq<Request>, packets: seq<Packet>)
    requires Honest(packets) && LogOk(log, Wire(packets)) && AsksForPackets(log, issued)
    ensures |log| <= 2 * |packets|
  {
    hide *;
    if |log| > 2 * |packets| {
      PairsArePackets(log, issued, Wire(packets), packets, |packets|);
      HeaderRead(log, issued, Wire(packets), packets, |packets|);
    }
  }

  lemma FirstHeader(packets: seq<Packet>, script: seq<seq<Request>>, fuel: nat)
    requires Flatten(script) == PacketReads(packets)[1..] && Sequential(script, 0)
    ensures InTurn(Issued(Opened(false, script), N(4), fuel), [], PacketReads(packets))
  {
    assert [] + [N(4)] == [N(4)];
    assert [N(4)] + [] + PacketReads(packets)[1..] == PacketReads(packets);
    hide Sequential, Flatten;
  }

  lemma ConcatStep(pieces: seq<string>, i: nat)
    requires i < |pieces|
    ensures Concat(pieces[..i + 1]) == Concat(pieces[..i]) + pieces[i]
  {
    assert pieces[..i + 1][..i] == pieces[..i];
  }

  /** mysql::read_packet over and over, on a stream cut into these pieces. `script` is how the coroutine's
      reads, after the first, fall on its resumptions. */
  method ReadPackets(packets: seq<Packet>, script: seq<seq<Request>>, pieces: seq<string>) returns (reader: Reader)
    requires Honest(packets) && Concat(pieces) <= Wire(packets)
    requires Flatten(script) == PacketReads(packets)[1..] && Sequential(script, 0)
    ensures fresh(reader) && reader.Valid() && !reader.closed && reader.received == Concat(pieces)
    ensures AsksForPackets(reader.log, reader.issued) && reader.issued <= PacketReads(packets)
    ensures Concat(pieces) == Wire(packets) ==>
      |reader.log| == 2 * |packets| && forall i :: 0 <= i < |packets| ==> Recovered(reader.log, packets, i)
  {
    assert pieces[..0] == [] && Concat([]) == "";
    hide Ok, Tables, Waiting, InTurn, PacketReads, Sequential, Flatten, Issued, Arrived, Wire, Honest, AsksForPackets;
    hide LogOk, Recovered, Starved, Work, Concat, Requests;
    ghost var list := PacketReads(packets);
    ghost var fuel := Work(Opened(false, script)) + 1;
    FirstHeader(packets, script, fuel);
    reader := new Reader(false, script);
    reader.Read(N(4), fuel);
    for i := 0 to |pieces|
      invariant fresh(reader) && reader.Valid() && !reader.closed && Starved(reader.Now())
      invariant InTurn(reader.Now(), [], list) && reader.received == Concat(pieces[..i])
    {
      fuel := Work(reader.Now());
      GoingIs(reader.Now(), fuel);
      ArrivesInTurn(reader.Now(), pieces[i], fuel, list);
      ConcatStep(pieces, i);
      reader.OnData(pieces[i], false, fuel);
    }
    assert pieces[..|pieces|] == pieces;
    InTurnIs(reader.Now(), packets);
    FollowsAsks(reader.log, reader.issued, reader.received, packets);
    if Concat(pieces) == Wire(packets) {
      NoHeaderBehind(reader.log, reader.issued, packets);
      WaitingChange(reader.commands, Command(Any, []));
      AllPacketsRecovered(reader, packets);
    }
  }
}
