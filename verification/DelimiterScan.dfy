/** The resumable delimiter scan of afd::on_data (src/90s/afd.cpp, lines 107-168), apart from the
    buffer it reads: when does resuming agree with splitting the whole stream? */
module DelimiterScan {
  import opened Kmp

  /** Where a scan stands, in positions of the window: finished just behind a delimiter, or blocked at
      `offset` (delim_state.offset) with `match` delimiter bytes in front of it (delim_state.match). */
  datatype Progress = Done(end: nat) | Blocked(offset: nat, matched: nat)

  /** The delimiter's remaining bytes stand at `offset`. */
  predicate Continues(window: string, delim: string, offset: nat, matched: nat)
    requires matched < |delim|
  {
    offset + (|delim| - matched) <= |window| && window[offset..offset + (|delim| - matched)] == delim[matched..]
  }

  /** One attempt on a window: try to continue the partial match; failing that, drop it and search
      on from `offset`. */
  function Attempt(window: string, delim: string, offset: nat, matched: nat): Progress
    requires offset <= |window| && matched < |delim|
  {
    if matched > 0 && Continues(window, delim, offset, matched) then Done(offset + |delim| - matched)
    else
      var r := Search(window, delim, offset);
      if r.length == |delim| then Done(r.offset + |delim|) else Blocked(|window|, r.length)
  }

  function Concat(pieces: seq<string>): string {
    if pieces == [] then "" else Concat(pieces[..|pieces| - 1]) + pieces[|pieces| - 1]
  }

  /** One attempt per piece, each on everything received so far, until one finishes. */
  function Run(pieces: seq<string>, delim: string): (p: Progress)
    requires delim != ""
    ensures p.Blocked? ==> p.offset == |Concat(pieces)| && p.matched < |delim|
  {
    if pieces == [] then Blocked(0, 0)
    else
      match Run(pieces[..|pieces| - 1], delim)
      case Done(end) => Done(end)
      case Blocked(offset, m) => Attempt(Concat(pieces), delim, offset, m)
  }

  /** The scan's outcome is the plain split at the first delimiter. */
  ghost predicate Agrees(pieces: seq<string>, delim: string)
    requires delim != ""
  {
    var first := FirstOccurrence(Concat(pieces), delim, 0);
    match Run(pieces, delim)
    case Done(end) => first >= 0 && end == first + |delim|
    case Blocked(_, _) => first == -1
  }

  ghost predicate LaterAtLeast(pieces: seq<string>, n: nat) {
    forall i :: 1 <= i < |pieces| ==> |pieces[i]| >= n
  }

  /** New bytes decide a partial match of `m` bytes: they complete it, or contradict it. With a proper
      prefix of what is missing, nothing at all included, it stays open. */
  predicate Decided(delim: string, m: nat, more: string) {
    m == 0 || m > |delim| || !(more < delim[m..])
  }

  /** Every attempt had the bytes to decide the partial match it stood on. */
  predicate Kept(pieces: seq<string>, delim: string)
    requires delim != ""
  {
    pieces == []
    || (Kept(pieces[..|pieces| - 1], delim)
        && match Run(pieces[..|pieces| - 1], delim)
           case Done(_) => true
           case Blocked(_, m) => Decided(delim, m, pieces[|pieces| - 1]))
  }

  /** No entry of the delimiter's failure table before the last is above 0. */
  ghost predicate Flat(delim: string) {
    forall k, b :: 0 < b < k < |delim| && Border(delim, k, b) ==> delim[b] == delim[k]
  }

  /** Flatness can be read off the table. */
  lemma FlatIsInTheTable(delim: string, table: seq<int>)
    requires IsTable(delim, table)
    ensures Flat(delim) <==> forall k :: 0 <= k < |delim| ==> table[k] <= 0
  {
    if Flat(delim) {
      forall k | 0 <= k < |delim| ensures table[k] <= 0 { assert StrongFailure(delim, k, table[k]); }
    }
    if forall k :: 0 <= k < |delim| ==> table[k] <= 0 {
      forall k, b | 0 < b < k < |delim| && Border(delim, k, b) ensures delim[b] == delim[k] {
        assert StrongFailure(delim, k, table[k]);
      }
    }
  }

  // ---------- sufficiency ----------

  /** Nothing in the text contradicts an occurrence at `s`, which may reach past its end. */
  ghost predicate Candidate(text: string, delim: string, s: nat) {
    s < |text| && forall i :: 0 <= i < |delim| && s + i < |text| ==> text[s + i] == delim[i]
  }

  lemma CandidateCases(text: string, delim: string, s: nat)
    requires s < |text| && delim != ""
    ensures s + |delim| <= |text| ==> (Candidate(text, delim, s) <==> OccursAt(text, delim, s))
    ensures s + |delim| > |text| ==> (Candidate(text, delim, s) <==> PartialAt(text, delim, 0, |text|, |text| - s))
  {
    var n := if s + |delim| <= |text| then |delim| else |text| - s;
    assert forall i :: 0 <= i < n ==> text[s..s + n][i] == text[s + i] && delim[..n][i] == delim[i];
    assert delim[..|delim|] == delim;
  }

  /** A search may skip positions that are no candidates. */
  lemma SearchSkips(text: string, delim: string, from: nat)
    requires from <= |text| && delim != "" && forall s :: 0 <= s < from ==> !Candidate(text, delim, s)
    ensures Search(text, delim, 0) == Search(text, delim, from)
  {
    var a, b := FirstOccurrence(text, delim, 0), FirstOccurrence(text, delim, from);
    if 0 <= a < from { CandidateCases(text, delim, a); }
    assert b >= 0 ==> OccursAt(text, delim, b);
    assert a >= 0 ==> OccursAt(text, delim, a);
    assert a == b;
    var k, l := LongestPartial(text, delim, 0), LongestPartial(text, delim, from);
    if |text| - k < from { CandidateCases(text, delim, |text| - k); }
    assert PartialAt(text, delim, from, |text|, k);
    assert PartialAt(text, delim, 0, |text|, l);
  }

  /** What a blocked scan should know of its window. */
  ghost predicate Tracked(window: string, delim: string, m: nat) {
    delim != "" && FirstOccurrence(window, delim, 0) == -1 && m == LongestPartial(window, delim, 0)
  }

  /** While the window has no delimiter, its candidates are its partial matches. */
  lemma CandidatesOfBlocked(window: string, more: string, delim: string, m: nat, s: nat)
    requires Tracked(window, delim, m) && s < |window| && Candidate(window + more, delim, s)
    ensures |window| - s <= m
  {
    assert forall i :: 0 <= i < |window| ==> (window + more)[i] == window[i];
    assert Candidate(window, delim, s);
    CandidateCases(window, delim, s);
  }

  lemma CandidateByte(text: string, delim: string, s: nat, at: nat)
    requires Candidate(text, delim, s) && s <= at < |text| && at - s < |delim|
    ensures text[at] == delim[at - s]
  {
    var i := at - s;
    assert text[s + i] == delim[i];
  }

  lemma FlatBorder(delim: string, k: nat, b: nat)
    requires Flat(delim) && 0 < b < k < |delim| && Border(delim, k, b)
    ensures delim[b] == delim[k]
  {
  }

  /** Two alignments of the delimiter agreeing up to a byte give it a border there. */
  lemma OverlapIsBorder(text: string, delim: string, s: nat, s': nat, at: nat)
    requires s < s' < at < |text| && at - s < |delim|
    requires forall i :: s <= i < at ==> text[i] == delim[i - s]
    requires Candidate(text, delim, s')
    ensures Border(delim, at - s, at - s') && text[at] == delim[at - s']
  {
    var k, b := at - s, at - s';
    forall i | 0 <= i < b ensures delim[..b][i] == delim[k - b..k][i] {
      assert text[s' + i] == delim[i];
    }
  }

  /** If the new bytes decide it, the continuation fails at some byte that is there. */
  lemma FirstMismatch(window: string, more: string, delim: string, m: nat) returns (at: nat)
    requires 0 < m < |delim| && m <= |window| && Decided(delim, m, more)
    requires !Continues(window + more, delim, |window|, m)
    requires forall i :: |window| - m <= i < |window| ==> (window + more)[i] == delim[i - (|window| - m)]
    ensures |window| <= at < |window + more| && at - (|window| - m) < |delim|
    ensures (window + more)[at] != delim[at - (|window| - m)]
    ensures forall i :: |window| - m <= i < at ==> (window + more)[i] == delim[i - (|window| - m)]
  {
    var n := 0;
    while n < |more| && n < |delim| - m && more[n] == delim[m + n]
      invariant n <= |more| && n <= |delim| - m
      invariant more[..n] == delim[m..m + n]
    {
      assert more[..n + 1] == more[..n] + [more[n]] && delim[m..m + n + 1] == delim[m..m + n] + [delim[m + n]];
      n := n + 1;
    }
    at := |window| + n;
    assert (window + more)[|window|..|window| + n] == more[..n];
    assert delim[m..m + n] == delim[m..][..n];
    forall i | |window| - m <= i < at ensures (window + more)[i] == delim[i - (|window| - m)] {
      if i >= |window| { assert more[..n][i - |window|] == delim[m..m + n][i - |window|]; }
    }
  }

  lemma PartialBytes(window: string, more: string, delim: string, m: nat)
    requires Tracked(window, delim, m)
    ensures m <= |window| && forall i :: |window| - m <= i < |window| ==> (window + more)[i] == delim[i - (|window| - m)]
  {
    var s := |window| - m;
    assert window[s..] == delim[..m];
    forall i | s <= i < |window| ensures (window + more)[i] == delim[i - s] {
      assert window[s..][i - s] == delim[..m][i - s];
    }
  }

  lemma ContinuedIsFirst(window: string, more: string, delim: string, m: nat)
    requires Tracked(window, delim, m) && m > 0 && Continues(window + more, delim, |window|, m)
    ensures FirstOccurrence(window + more, delim, 0) == |window| - m
  {
    var text, s, rem := window + more, |window| - m, |delim| - m;
    PartialBytes(window, more, delim, m);
    forall i | 0 <= i < |delim| ensures text[s + i] == delim[i] {
      if i >= m { assert text[|window|..|window| + rem][i - m] == delim[m..][i - m]; }
    }
    assert Candidate(text, delim, s);
    CandidateCases(text, delim, s);
    var first := FirstOccurrence(text, delim, 0);
    CandidateCases(text, delim, first);
    CandidatesOfBlocked(window, more, delim, m, first);
  }

  /** A flat delimiter and deciding bytes: after a failed continuation nothing that started before the
      new bytes is still possible. */
  lemma DroppedIsHopeless(window: string, more: string, delim: string, m: nat, s: nat)
    requires Tracked(window, delim, m) && m < |delim| && (m > 0 ==> Flat(delim)) && Decided(delim, m, more)
    requires m == 0 || !Continues(window + more, delim, |window|, m)
    requires s < |window|
    ensures !Candidate(window + more, delim, s)
  {
    hide *;
    var text := window + more;
    if Candidate(text, delim, s) {
      CandidatesOfBlocked(window, more, delim, m, s);
      PartialBytes(window, more, delim, m);
      var at := FirstMismatch(window, more, delim, m);
      if s == |window| - m {
        CandidateByte(text, delim, s, at);
      } else {
        OverlapIsBorder(text, delim, |window| - m, s, at);
        FlatBorder(delim, at - (|window| - m), at - s);
      }
    }
  }

  /** What a search of the whole text has to report, as progress. */
  function Found(text: string, delim: string): Progress
    requires delim != ""
  {
    var r := Search(text, delim, 0);
    if r.length == |delim| then Done(r.offset + |delim|) else Blocked(|text|, r.length)
  }

  lemma DecidedIsSearch(window: string, more: string, delim: string, m: nat)
    requires Tracked(window, delim, m) && m < |delim| && (m > 0 ==> Flat(delim)) && Decided(delim, m, more)
    ensures Attempt(window + more, delim, |window|, m) == Found(window + more, delim)
  {
    if m > 0 && Continues(window + more, delim, |window|, m) {
      ContinuedIsFirst(window, more, delim, m);
    } else {
      forall s | 0 <= s < |window| ensures !Candidate(window + more, delim, s) {
        DroppedIsHopeless(window, more, delim, m, s);
      }
      SearchSkips(window + more, delim, |window|);
    }
  }

  /** The partial match goes on into bytes that leave it open. */
  lemma OpenGoesOn(window: string, more: string, delim: string, m: nat)
    requires Tracked(window, delim, m) && m < |delim| && !Decided(delim, m, more)
    ensures PartialAt(window + more, delim, 0, |window + more|, m + |more|)
  {
    var text, s := window + more, |window| - m;
    assert more == delim[m..][..|more|];
    assert text[s..] == window[s..] + more;
    assert delim[..m + |more|] == delim[..m] + delim[m..][..|more|];
  }

  lemma OpenHasNone(window: string, more: string, delim: string, m: nat)
    requires Tracked(window, delim, m) && m < |delim| && !Decided(delim, m, more)
    ensures FirstOccurrence(window + more, delim, 0) == -1
  {
    var text, i := window + more, FirstOccurrence(window + more, delim, 0);
    if 0 <= i < |window| {
      CandidateCases(text, delim, i);
      CandidatesOfBlocked(window, more, delim, m, i);
    }
  }

  /** Bytes that leave the partial match open make the attempt drop it, although it is the longest. */
  lemma OpenIsLost(window: string, more: string, delim: string, m: nat)
    requires Tracked(window, delim, m) && m < |delim| && !Decided(delim, m, more)
    ensures FirstOccurrence(window + more, delim, 0) == -1
    ensures var a := Attempt(window + more, delim, |window|, m);
            a.Blocked? && a.offset == |window + more| && a.matched < LongestPartial(window + more, delim, 0)
  {
    var text := window + more;
    OpenHasNone(window, more, delim, m);
    OpenGoesOn(window, more, delim, m);
    var k, i := LongestPartial(text, delim, |window|), FirstOccurrence(text, delim, |window|);
    assert PartialAt(text, delim, |window|, |text|, k);
    assert i >= 0 ==> OccursAt(text, delim, i);
  }

  /** One attempt of a tracked scan is the search of the whole window exactly if the new bytes decide the
      partial match it stands on. */
  lemma AttemptIsSearch(window: string, more: string, delim: string, m: nat)
    requires Tracked(window, delim, m) && m < |delim| && Flat(delim)
    ensures Attempt(window + more, delim, |window|, m) == Found(window + more, delim) <==> Decided(delim, m, more)
  {
    if Decided(delim, m, more) {
      DecidedIsSearch(window, more, delim, m);
    } else {
      OpenIsLost(window, more, delim, m);
    }
  }

  lemma OccurrenceStays(text: string, more: string, delim: string)
    requires FirstOccurrence(text, delim, 0) >= 0
    ensures FirstOccurrence(text + more, delim, 0) == FirstOccurrence(text, delim, 0)
  {
    var i := FirstOccurrence(text, delim, 0);
    assert (text + more)[i..i + |delim|] == text[i..i + |delim|];
    assert OccursAt(text + more, delim, i);
    var j := FirstOccurrence(text + more, delim, 0);
    assert (text + more)[j..j + |delim|] == text[j..j + |delim|];
    assert OccursAt(text, delim, j);
  }

  /** The scan that had all it needed agrees with the split, and knows the longest partial match. */
  lemma {:induction false} KeptAgrees(pieces: seq<string>, delim: string)
    requires delim != "" && Flat(delim) && Kept(pieces, delim)
    ensures Agrees(pieces, delim)
    ensures Run(pieces, delim).Blocked? ==> Tracked(Concat(pieces), delim, Run(pieces, delim).matched)
  {
    if pieces != [] {
      var earlier, last := pieces[..|pieces| - 1], pieces[|pieces| - 1];
      KeptAgrees(earlier, delim);
      match Run(earlier, delim)
      case Done(_) => OccurrenceStays(Concat(earlier), last, delim);
      case Blocked(_, m) => DecidedIsSearch(Concat(earlier), last, delim, m);
    }
  }

  lemma {:induction false} LongPiecesAreKept(pieces: seq<string>, delim: string, n: nat)
    requires delim != "" && n >= |delim| - 1 && LaterAtLeast(pieces, n)
    ensures Kept(pieces, delim)
  {
    if pieces != [] {
      var earlier := pieces[..|pieces| - 1];
      LongPiecesAreKept(earlier, delim, n);
      assert earlier == [] ==> Run(earlier, delim) == Blocked(0, 0);
    }
  }

  lemma FlatAgrees(pieces: seq<string>, delim: string, n: nat)
    requires delim != "" && Flat(delim) && n >= |delim| - 1 && LaterAtLeast(pieces, n)
    ensures Agrees(pieces, delim)
    ensures Run(pieces, delim).Blocked? ==> Tracked(Concat(pieces), delim, Run(pieces, delim).matched)
  {
    LongPiecesAreKept(pieces, delim, n);
    KeptAgrees(pieces, delim);
  }

  /** The bytes that complete the longest partial match make a first occurrence. */
  lemma CompletedIsFirst(window: string, delim: string, k: nat)
    requires Tracked(window, delim, k) && 0 < k < |delim|
    ensures FirstOccurrence(window + delim[k..], delim, 0) == |window| - k
  {
    var text := window + delim[k..];
    assert text[|window|..|window| + (|delim| - k)] == delim[k..];
    ContinuedIsFirst(window, delim[k..], delim, k);
  }

  lemma TooShort(window: string, rest: string, delim: string, m: nat)
    requires delim != "" && m < |delim| && |rest| < |delim| - m
    ensures var a := Attempt(window + rest, delim, |window|, m); a.Blocked? && a.offset == |window + rest|
  {
    var text := window + rest;
    var i, l := FirstOccurrence(text, delim, |window|), LongestPartial(text, delim, |window|);
    assert i >= 0 ==> OccursAt(text, delim, i);
    assert PartialAt(text, delim, |window|, |text|, l);
  }

  /** A scan that has lost its partial match misses the delimiter that completes it. */
  lemma LostIsMissed(window: string, delim: string, m: nat) returns (rest: string)
    requires delim != "" && FirstOccurrence(window, delim, 0) == -1 && m < LongestPartial(window, delim, 0)
    ensures rest != "" && FirstOccurrence(window + rest, delim, 0) == |window| - LongestPartial(window, delim, 0)
    ensures m < |delim| && var a := Attempt(window + rest, delim, |window|, m); a.Blocked? && a.offset == |window + rest|
  {
    var k := LongestPartial(window, delim, 0);
    assert PartialAt(window, delim, 0, |window|, k);
    rest := delim[k..];
    CompletedIsFirst(window, delim, k);
    TooShort(window, rest, delim, m);
  }

  /** For a flat delimiter: the scan has kept its partial matches exactly if at each moment, whatever comes
      next, its outcome is the split. */
  lemma KeptIff(pieces: seq<string>, delim: string)
    requires delim != "" && Flat(delim)
    ensures Kept(pieces, delim)
       <==> forall i, next :: 0 <= i <= |pieces| ==> Agrees(pieces[..i] + [next], delim)
  {
    if Kept(pieces, delim) {
      forall i, next | 0 <= i <= |pieces| ensures Agrees(pieces[..i] + [next], delim) {
        KeptPrefix(pieces, delim, i);
        NextAgrees(pieces[..i], next, delim);
      }
    } else {
      var i, next := LossShows(pieces, delim);
    }
  }

  lemma {:induction false} KeptPrefix(pieces: seq<string>, delim: string, i: nat)
    requires delim != "" && Kept(pieces, delim) && i <= |pieces|
    ensures Kept(pieces[..i], delim)
    decreases |pieces|
  {
    if i < |pieces| {
      KeptPrefix(pieces[..|pieces| - 1], delim, i);
      assert pieces[..|pieces| - 1][..i] == pieces[..i];
    } else {
      assert pieces[..i] == pieces;
    }
  }

  lemma KeptSnoc(pieces: seq<string>, next: string, delim: string)
    requires delim != ""
    ensures Kept(pieces + [next], delim)
       <==> Kept(pieces, delim) && (Run(pieces, delim).Done? || Decided(delim, Run(pieces, delim).matched, next))
  {
    assert (pieces + [next])[..|pieces|] == pieces;
    hide Run, Decided;
  }

  /** What it takes for the next attempt to agree with the split. */
  lemma AgreesAfter(pieces: seq<string>, next: string, delim: string)
    requires delim != "" && Run(pieces, delim).Blocked?
    ensures var window, first := Concat(pieces), FirstOccurrence(Concat(pieces) + next, delim, 0);
            Agrees(pieces + [next], delim)
            <==> match Attempt(window + next, delim, |window|, Run(pieces, delim).matched)
                 case Done(end) => first >= 0 && end == first + |delim|
                 case Blocked(_, _) => first == -1
  {
    RunStep(pieces, next, delim);
    hide Run, Concat, Attempt, FirstOccurrence;
  }

  lemma DoneStays(pieces: seq<string>, next: string, delim: string)
    requires delim != "" && Run(pieces, delim).Done? && Agrees(pieces, delim)
    ensures Agrees(pieces + [next], delim)
  {
    assert (pieces + [next])[..|pieces|] == pieces;
    OccurrenceStays(Concat(pieces), next, delim);
    hide FirstOccurrence;
  }

  lemma NextAgrees(pieces: seq<string>, next: string, delim: string)
    requires delim != "" && Flat(delim) && Kept(pieces, delim)
    ensures Agrees(pieces + [next], delim)
  {
    hide *;
    KeptAgrees(pieces, delim);
    match Run(pieces, delim)
    case Done(_) => DoneStays(pieces, next, delim);
    case Blocked(_, m) =>
      if Decided(delim, m, next) {
        KeptSnoc(pieces, next, delim);
        KeptAgrees(pieces + [next], delim);
      } else {
        OpenIsLost(Concat(pieces), next, delim, m);
        AgreesAfter(pieces, next, delim);
      }
  }

  lemma {:induction false} LossShows(pieces: seq<string>, delim: string) returns (i: nat, next: string)
    requires delim != "" && Flat(delim) && !Kept(pieces, delim)
    ensures i <= |pieces| && !Agrees(pieces[..i] + [next], delim)
    decreases |pieces|
  {
    assert pieces != [];
    hide *;
    var earlier, last := pieces[..|pieces| - 1], pieces[|pieces| - 1];
    assert pieces == earlier + [last];
    KeptSnoc(earlier, last, delim);
    if !Kept(earlier, delim) {
      i, next := LossShows(earlier, delim);
      assert earlier[..i] == pieces[..i];
    } else {
      KeptAgrees(earlier, delim);
      OpenIsLost(Concat(earlier), last, delim, Run(earlier, delim).matched);
      RunStep(earlier, last, delim);
      i := |pieces|;
      next := LostIsMissed(Concat(pieces), delim, Run(pieces, delim).matched);
      AgreesAfter(pieces, next, delim);
      assert pieces[..i] == pieces;
    }
  }

  /** A delimiter of two bytes is always flat, so it needs only that no piece is empty. */
  lemma TwoBytesAreFlat(delim: string)
    requires |delim| == 2
    ensures Flat(delim) && forall pieces :: LaterAtLeast(pieces, 1) ==> Agrees(pieces, delim)
  {
    forall pieces | LaterAtLeast(pieces, 1) ensures Agrees(pieces, delim) { FlatAgrees(pieces, delim, 1); }
  }

  /** The blank line that ends HTTP headers is flat as well, and needs pieces of three bytes. */
  lemma BlankLineIsFlat()
    ensures Flat("\r\n\r\n")
    ensures forall pieces :: LaterAtLeast(pieces, 3) ==> Agrees(pieces, "\r\n\r\n")
  {
    var delim := "\r\n\r\n";
    forall k, b | 0 < b < k < |delim| && Border(delim, k, b) ensures delim[b] == delim[k] {
      assert delim[..b][0] == delim[k - b..k][0];
    }
    forall pieces | LaterAtLeast(pieces, 3) ensures Agrees(pieces, delim) { FlatAgrees(pieces, delim, 3); }
  }

  // ---------- necessity ----------

  function Repeat(c: char, n: nat): (s: string)
    ensures |s| == n
  {
    if n == 0 then "" else [c] + Repeat(c, n - 1)
  }

  /** A delimiter with a useful border: its first `k` bytes, then the rest of an overlapping occurrence. */
  function OverlappingPieces(delim: string, k: nat, b: nat, n: nat): seq<string>
    requires b <= k <= |delim|
  {
    [delim[..k], delim[b..] + Repeat('x', n)]
  }

  /** A delimiter cut after its first byte, after `n` more bytes, and the rest. */
  function SlicedPieces(delim: string, n: nat): seq<string>
    requires 1 + n <= |delim|
  {
    [delim[..1], delim[1..1 + n], delim[1 + n..] + Repeat('x', n)]
  }

  lemma PrefixBlocks(delim: string, k: nat)
    requires k < |delim|
    ensures Run([delim[..k]], delim) == Blocked(k, k)
  {
    assert [delim[..k]][..0] == [];
    assert Concat([delim[..k]]) == delim[..k];
    assert PartialAt(delim[..k], delim, 0, k, k);
  }

  lemma RunStep(pieces: seq<string>, last: string, delim: string)
    requires delim != "" && Run(pieces, delim).Blocked?
    ensures Concat(pieces + [last]) == Concat(pieces) + last
    ensures Run(pieces + [last], delim)
         == Attempt(Concat(pieces) + last, delim, |Concat(pieces)|, Run(pieces, delim).matched)
  {
    assert (pieces + [last])[..|pieces|] == pieces;
  }

  /** An attempt that cannot continue reports nothing that starts before its offset. */
  lemma MissedOccurrence(pieces: seq<string>, delim: string, offset: nat, m: nat, s: nat)
    requires delim != "" && m < |delim| && offset <= |Concat(pieces)| && s < offset
    requires OccursAt(Concat(pieces), delim, s) && Run(pieces, delim) == Attempt(Concat(pieces), delim, offset, m)
    requires m == 0 || (!Continues(Concat(pieces), delim, offset, m)) || offset - m > s
    ensures !Agrees(pieces, delim)
  {
    var first := FirstOccurrence(Concat(pieces), delim, 0);
    assert 0 <= first <= s;
  }

  lemma OverlapIsLost(delim: string, k: nat, b: nat, n: nat)
    requires 0 < b < k < |delim| && Border(delim, k, b) && delim[b] != delim[k]
    ensures !Agrees(OverlappingPieces(delim, k, b, n), delim)
  {
    var head, tail := delim[..k], delim[b..] + Repeat('x', n);
    var pieces := OverlappingPieces(delim, k, b, n);
    var text := head + tail;
    assert pieces == [head] + [tail];
    assert Concat([head]) == head by { assert [head][..0] == []; }
    OverlapText(delim, k, b, tail);
    hide *;
    PrefixBlocks(delim, k);
    RunStep([head], tail, delim);
    MissedOccurrence(pieces, delim, k, k, k - b);
  }

  lemma OverlapText(delim: string, k: nat, b: nat, tail: string)
    requires 0 < b < k < |delim| && Border(delim, k, b) && delim[b] != delim[k]
    requires delim[b..] <= tail
    ensures OccursAt(delim[..k] + tail, delim, k - b)
    ensures !Continues(delim[..k] + tail, delim, k, k)
  {
    var text, s := delim[..k] + tail, k - b;
    assert delim == delim[..b] + delim[b..];
    assert text[s..k] == delim[s..k];
    assert text[k..s + |delim|] == tail[..|delim| - b];
    assert text[s..s + |delim|] == text[s..k] + text[k..s + |delim|];
    assert text[k] == delim[b];
    assert text[k..][0] == text[k] && delim[k..][0] == delim[k];
  }

  lemma SliceIsLost(delim: string, n: nat)
    requires n + 1 < |delim|
    ensures !Agrees(SlicedPieces(delim, n), delim)
  {
    var a, b, c := delim[..1], delim[1..1 + n], delim[1 + n..] + Repeat('x', n);
    var pieces := SlicedPieces(delim, n);
    assert pieces == [a] + [b] + [c];
    assert Concat([a]) == a by { assert [a][..0] == []; }
    SliceText(delim, n, c);
    SecondSlice(delim, n);
    hide *;
    PrefixBlocks(delim, 1);
    RunStep([a], b, delim);
    RunStep([a] + [b], c, delim);
    MissedOccurrence(pieces, delim, 1 + n, Run([a] + [b], delim).matched, 0);
  }

  /** An attempt on no new bytes is enough to lose a partial match. */
  lemma EmptyAttemptLosesMatch(delim: string)
    requires |delim| >= 2
    ensures !Agrees([delim[..1], "", delim[1..]], delim)
  {
    SliceIsLost(delim, 0);
    assert Repeat('x', 0) == "" && delim[1..1] == "" && delim[1..] + "" == delim[1..];
    assert SlicedPieces(delim, 0) == [delim[..1], "", delim[1..]];
  }

  lemma SliceText(delim: string, n: nat, tail: string)
    requires n + 1 < |delim| && delim[1 + n..] <= tail
    ensures delim[..1] + delim[1..1 + n] == delim[..1 + n]
    ensures OccursAt(delim[..1 + n] + tail, delim, 0)
  {
    var text := delim[..1 + n] + tail;
    assert text[..|delim|] == delim[..1 + n] + tail[..|delim| - (1 + n)];
    assert text[0..0 + |delim|] == text[..|delim|];
  }

  /** Too few bytes to complete the delimiter: what is left matched starts behind its first byte. */
  lemma SecondSlice(delim: string, n: nat)
    requires n + 1 < |delim|
    ensures var p := Attempt(delim[..1 + n], delim, 1, 1); p.Blocked? && p.matched <= n && p.offset == 1 + n
  {
  }

  /** The resumed scan splits the stream at the first delimiter, for every way the stream can arrive
      with later pieces of at least `n` bytes, exactly if the delimiter's table is flat and
      `n` bytes are enough to complete any partial match. */
  lemma UntilAgreesIff(delim: string, n: nat)
    requires delim != ""
    ensures (forall pieces :: LaterAtLeast(pieces, n) ==> Agrees(pieces, delim))
        <==> Flat(delim) && n >= |delim| - 1
  {
    if Flat(delim) && n >= |delim| - 1 {
      forall pieces | LaterAtLeast(pieces, n) ensures Agrees(pieces, delim) { FlatAgrees(pieces, delim, n); }
    }
    if n < |delim| - 1 {
      SliceIsLost(delim, n);
      assert LaterAtLeast(SlicedPieces(delim, n), n);
    } else if !Flat(delim) {
      var k, b :| 0 < b < k < |delim| && Border(delim, k, b) && delim[b] != delim[k];
      OverlapIsLost(delim, k, b, n);
      assert LaterAtLeast(OverlappingPieces(delim, k, b, n), n);
    }
  }

  /** Whatever the pieces, a finished scan ends behind a real delimiter. */
  lemma {:induction false} DoneIsReal(pieces: seq<string>, delim: string)
    requires delim != ""
    ensures Real(Concat(pieces), delim, Run(pieces, delim))
  {
    if pieces != [] {
      var earlier, last := pieces[..|pieces| - 1], pieces[|pieces| - 1];
      DoneIsReal(earlier, delim);
      AttemptIsReal(Concat(earlier), last, delim, Run(earlier, delim));
    }
  }

  ghost predicate Real(text: string, delim: string, p: Progress)
    requires delim != ""
  {
    match p
    case Done(end) => OccursAt(text, delim, end - |delim|)
    case Blocked(offset, m) => offset == |text| && PartialAt(text, delim, 0, |text|, m)
  }

  lemma ContinuedIsReal(window: string, more: string, delim: string, m: nat)
    requires 0 < m < |delim| && PartialAt(window, delim, 0, |window|, m)
    requires Continues(window + more, delim, |window|, m)
    ensures OccursAt(window + more, delim, |window| - m)
  {
    var text, s := window + more, |window| - m;
    assert text[s..|window|] == window[s..];
    assert text[s..s + |delim|] == text[s..|window|] + text[|window|..s + |delim|];
    assert delim == delim[..m] + delim[m..];
  }

  lemma SearchIsReal(text: string, delim: string, from: nat)
    requires delim != "" && from <= |text|
    ensures var r := Search(text, delim, from);
            Real(text, delim, if r.length == |delim| then Done(r.offset + |delim|) else Blocked(|text|, r.length))
  {
    var k := LongestPartial(text, delim, from);
    assert PartialAt(text, delim, from, |text|, k);
  }

  lemma AttemptIsReal(window: string, more: string, delim: string, p: Progress)
    requires delim != "" && Real(window, delim, p)
    ensures Real(window + more, delim, if p.Done? then p else Attempt(window + more, delim, |window|, p.matched))
  {
    match p
    case Done(end) => assert (window + more)[end - |delim|..end] == window[end - |delim|..end];
    case Blocked(_, m) =>
      if m > 0 && Continues(window + more, delim, |window|, m) {
        ContinuedIsReal(window, more, delim, m);
      } else {
        SearchIsReal(window + more, delim, |window|);
      }
  }
}
