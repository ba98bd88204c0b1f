/** Substring search of src/80s/algo.c: the strong failure table and the scan that reports
    either the first match or the longest partial match at the end of the text. */
module Kmp {
  import opened Common

  /** kmp_result. `offset` is a size_t, but one path stores -1 in it. */
  datatype SearchResult = SearchResult(offset: int, length: int)

  /** The table kmp builds on its own stack serves patterns up to this length. */
  const LOCAL_TABLE_PATTERN_MAX := 256

  // ---------- what a search means ----------

  predicate OccursAt(text: string, pattern: string, i: int) {
    0 <= i <= i + |pattern| <= |text| && text[i..i + |pattern|] == pattern
  }

  /** The first occurrence at or after `from`, or -1, by trying every position. */
  function FirstOccurrence(text: string, pattern: string, from: nat): (i: int)
    ensures i == -1 || (from <= i && OccursAt(text, pattern, i))
    ensures forall j :: from <= j && (i == -1 || j < i) ==> !OccursAt(text, pattern, j)
    decreases |text| - from
  {
    if from + |pattern| > |text| then -1
    else if OccursAt(text, pattern, from) then from
    else FirstOccurrence(text, pattern, from + 1)
  }

  /** `k` bytes of `pattern`, fewer than all of them, end the text at `to`, starting no earlier than `from`. */
  predicate PartialAt(text: string, pattern: string, from: nat, to: int, k: int) {
    0 <= k < |pattern| && from <= to - k && to <= |text| && text[to - k..to] == pattern[..k]
  }

  /** The length of the longest suffix of text[from..] that is a proper prefix of the pattern. */
  function LongestPartial(text: string, pattern: string, from: nat): (k: nat)
    requires from <= |text| && pattern != ""
    ensures PartialAt(text, pattern, from, |text|, k)
    ensures forall other :: PartialAt(text, pattern, from, |text|, other) ==> other <= k
    decreases |text| - from
  {
    if PartialAt(text, pattern, from, |text|, |text| - from) then |text| - from
    else
      assert forall other :: PartialAt(text, pattern, from, |text|, other) ==> PartialAt(text, pattern, from + 1, |text|, other);
      LongestPartial(text, pattern, from + 1)
  }

  /** The result a search of text[from..] has to report. */
  function Search(text: string, pattern: string, from: nat): SearchResult
    requires from <= |text| && pattern != ""
  {
    var i := FirstOccurrence(text, pattern, from);
    if i >= 0 then SearchResult(i, |pattern|)
    else var k := LongestPartial(text, pattern, from); SearchResult(|text| - k, k)
  }

  // ---------- the failure table ----------

  /** `b` is a proper border of pattern[..i]: a prefix of it that is also a suffix. */
  predicate Border(pattern: string, i: int, b: int) {
    0 <= b < i <= |pattern| && pattern[..b] == pattern[i - b..i]
  }

  /** The longest proper border of pattern[..i] whose next byte differs from pattern[i]; -1 if there is none. */
  ghost predicate StrongFailure(pattern: string, i: int, t: int) {
    0 <= i < |pattern| && -1 <= t < i
    && (t >= 0 ==> Border(pattern, i, t) && pattern[t] != pattern[i])
    && forall b :: t < b < i && Border(pattern, i, b) ==> pattern[b] == pattern[i]
  }

  ghost predicate LongestBorder(pattern: string, i: int, b: int) {
    Border(pattern, i, b) && forall c :: b < c < i ==> !Border(pattern, i, c)
  }

  /** What build_kmp leaves in its table, entry by entry. */
  ghost predicate IsTable(pattern: string, table: seq<int>) {
    |table| > |pattern|
    && (forall i :: 0 <= i < |pattern| ==> StrongFailure(pattern, i, table[i]))
    && (pattern != "" ==> LongestBorder(pattern, |pattern|, table[|pattern|]))
  }

  /** All the scan needs of a table to stay inside it. */
  predicate Falls(table: seq<int>, m: nat) {
    |table| > m && forall k :: 0 <= k < m ==> -1 <= table[k] < k
  }

  /** A border of a border of pattern[..i] is a border of pattern[..i]; and conversely for shorter ones. */
  lemma BorderOfBorder(pattern: string, i: int, j: int, b: int)
    requires Border(pattern, i, j) && 0 <= b < j
    ensures Border(pattern, i, b) <==> Border(pattern, j, b)
  {
    assert pattern[..j] == pattern[i - j..i];
    assert pattern[..j][j - b..] == pattern[j - b..j];
    assert pattern[i - j..i][j - b..] == pattern[i - b..i];
  }

  /** Borders grow by one byte exactly when the next bytes agree. */
  lemma BorderExtends(pattern: string, i: int, b: int)
    requires 0 <= b < i < |pattern|
    ensures Border(pattern, i + 1, b + 1) <==> Border(pattern, i, b) && pattern[b] == pattern[i]
  {
    assert pattern[..b + 1] == pattern[..b] + [pattern[b]];
    assert pattern[i - b..i + 1] == pattern[i - b..i] + [pattern[i]];
  }

  /** Every longer border of pattern[..i] fails to extend with pattern[i]. */
  ghost predicate NoLongerExtends(pattern: string, i: int, j: int)
    requires 0 <= i < |pattern|
  {
    forall b :: j < b < i && Border(pattern, i, b) ==> pattern[b] != pattern[i]
  }

  lemma FallKeepsCandidates(pattern: string, i: int, j: int, t: int)
    requires 0 < i < |pattern| && Border(pattern, i, j) && pattern[j] != pattern[i]
    requires StrongFailure(pattern, j, t) && NoLongerExtends(pattern, i, j)
    ensures t >= 0 ==> Border(pattern, i, t)
    ensures NoLongerExtends(pattern, i, t)
  {
    forall b | t < b < i && Border(pattern, i, b) ensures pattern[b] != pattern[i] {
      if b < j { BorderOfBorder(pattern, i, j, b); }
    }
    if t >= 0 { BorderOfBorder(pattern, i, j, t); }
  }

  lemma NextLongestBorder(pattern: string, i: int, j: int)
    requires 0 < i < |pattern| && -1 <= j < i
    requires j >= 0 ==> Border(pattern, i, j) && pattern[j] == pattern[i]
    requires NoLongerExtends(pattern, i, j)
    ensures LongestBorder(pattern, i + 1, j + 1)
  {
    if j >= 0 { BorderExtends(pattern, i, j); }
    var n := i + 1;
    forall c | j + 1 < c < n ensures !Border(pattern, n, c) {
      BorderExtends(pattern, i, c - 1);
    }
  }

  /** With equal bytes the border itself is useless, and its own entry serves. */
  lemma CopiedEntry(pattern: string, i: int, j: int, t: int)
    requires 0 < i < |pattern| && LongestBorder(pattern, i, j) && pattern[j] == pattern[i]
    requires StrongFailure(pattern, j, t)
    ensures StrongFailure(pattern, i, t)
  {
    if t >= 0 { BorderOfBorder(pattern, i, j, t); }
    forall b | t < b < i && Border(pattern, i, b) ensures pattern[b] == pattern[i] {
      if b < j { BorderOfBorder(pattern, i, j, b); }
    }
  }

  /** The entries before `n` are right. */
  ghost predicate FilledTo(pattern: string, table: seq<int>, n: int) {
    0 <= n <= |table| && forall k :: 0 <= k < n && k < |pattern| ==> StrongFailure(pattern, k, table[k])
  }

  lemma FirstEntry(pattern: string, table: seq<int>)
    requires table != [] && table[0] == -1
    ensures FilledTo(pattern, table, 1)
    ensures pattern != "" ==> LongestBorder(pattern, 1, 0)
  {
  }

  lemma FilledExtends(pattern: string, table: seq<int>, i: int, t: int)
    requires FilledTo(pattern, table, i) && i < |table| && (i < |pattern| ==> StrongFailure(pattern, i, t))
    ensures FilledTo(pattern, table[i := t], i + 1)
  {
  }

  lemma FilledEntry(pattern: string, table: seq<int>, i: int, k: int)
    requires FilledTo(pattern, table, i) && 0 <= k < i && k < |pattern|
    ensures StrongFailure(pattern, k, table[k])
  {
  }

  lemma FilledShrinks(pattern: string, table: seq<int>, i: int, n: nat)
    requires FilledTo(pattern, table, i) && n <= i
    ensures FilledTo(pattern, table, n)
  {
  }

  lemma LongestBorderRange(pattern: string, i: int, b: int)
    requires LongestBorder(pattern, i, b)
    ensures 0 <= b < i <= |pattern| && Border(pattern, i, b)
    ensures i < |pattern| ==> NoLongerExtends(pattern, i, b)
    ensures i < |pattern| && pattern[b] != pattern[i] ==> StrongFailure(pattern, i, b)
  {
  }

  lemma StrongFailureRange(pattern: string, i: int, t: int)
    requires StrongFailure(pattern, i, t)
    ensures -1 <= t < i < |pattern|
  {
  }

  lemma FilledTable(pattern: string, table: seq<int>)
    requires |table| > |pattern| && FilledTo(pattern, table, |pattern|)
    requires pattern != "" ==> LongestBorder(pattern, |pattern|, table[|pattern|])
    ensures IsTable(pattern, table) && Falls(table, |pattern|)
  {
  }

  /** The inner loop of build_kmp (lines 16-18): fall along the table until pattern[i] extends the border. */
  method FallBack(pattern: string, table: array<int>, i: int, start: int) returns (j: int, ghost steps: nat)
    requires 0 < i < |pattern| < table.Length && FilledTo(pattern, table[..], i + 1)
    requires LongestBorder(pattern, i, start)
    ensures -1 <= j < i && (j >= 0 ==> Border(pattern, i, j) && pattern[j] == pattern[i])
    ensures NoLongerExtends(pattern, i, j)
    ensures steps <= start - j
  {
    hide *;
    j := start;
    steps := 0;
    LongestBorderRange(pattern, i, start);
    while j >= 0 && pattern[i] != pattern[j]
      invariant -1 <= j < i
      invariant j >= 0 ==> Border(pattern, i, j)
      invariant NoLongerExtends(pattern, i, j)
      invariant steps <= start - j
    {
      FilledEntry(pattern, table[..], i + 1, j);
      FallKeepsCandidates(pattern, i, j, table[j]);
      StrongFailureRange(pattern, j, table[j]);
      j := table[j];
      steps := steps + 1;
    }
  }

  /** build_kmp: fills table[0..m]. `steps` counts the iterations of both loops. */
  method BuildKmp(pattern: string, table: array<int>) returns (ghost steps: nat)
    requires table.Length > |pattern| && table.Length > 1
    modifies table
    ensures IsTable(pattern, table[..])
    ensures pattern != "" ==> steps <= 2 * (|pattern| - 1)
  {
    hide *;
    table[0] := -1;
    var j := 0;
    var i := 1;
    steps := 0;
    FirstEntry(pattern, table[..]);
    while i < |pattern|
      invariant 1 <= i && (i <= |pattern| || (pattern == "" && i == 1))
      invariant if pattern == "" then j == 0 else LongestBorder(pattern, i, j)
      invariant FilledTo(pattern, table[..], i)
      invariant steps <= 2 * (i - 1) - j
    {
      steps := steps + 1;
      ghost var before := table[..];
      LongestBorderRange(pattern, i, j);
      if pattern[i] == pattern[j] {
        FilledEntry(pattern, before, i, j);
        CopiedEntry(pattern, i, j, before[j]);
        table[i] := table[j];
        assert table[..] == before[i := before[j]];
      } else {
        table[i] := j;
        assert table[..] == before[i := j];
        FilledExtends(pattern, before, i, j);
        ghost var falls;
        j, falls := FallBack(pattern, table, i, j);
        steps := steps + falls;
      }
      FilledExtends(pattern, before, i, table[i]);
      NextLongestBorder(pattern, i, j);
      i, j := i + 1, j + 1;
    }
    ghost var before := table[..];
    table[i] := j;
    assert table[..] == before[i := j];
    FilledExtends(pattern, before, i, j);
    FilledShrinks(pattern, table[..], i + 1, |pattern|);
    FilledTable(pattern, table[..]);
  }

  // ---------- the scan ----------

  /** The scan stands at text position `j` with `k` bytes matched: those bytes are there, a longer
      partial match would not survive text[j], and no occurrence has ended so far. */
  ghost predicate ScanAt(text: string, pattern: string, from: nat, j: int, k: int) {
    from <= j <= |text| && (k == -1 || PartialAt(text, pattern, from, j, k))
    && (forall other :: k < other && PartialAt(text, pattern, from, j, other) ==> j < |text| && pattern[other] != text[j])
    && (forall s :: from <= s && s + |pattern| <= j ==> !OccursAt(text, pattern, s))
  }

  lemma PartialExtends(text: string, pattern: string, from: nat, j: int, k: int)
    requires from <= j < |text| && 0 <= k < |pattern| - 1
    ensures PartialAt(text, pattern, from, j + 1, k + 1) <==> PartialAt(text, pattern, from, j, k) && pattern[k] == text[j]
  {
    assert pattern[..k + 1] == pattern[..k] + [pattern[k]];
    if from <= j - k { assert text[j - k..j + 1] == text[j - k..j] + [text[j]]; }
  }

  lemma OccurrenceExtends(text: string, pattern: string, from: nat, j: int)
    requires from <= j < |text| && pattern != "" && from <= j + 1 - |pattern|
    ensures OccursAt(text, pattern, j + 1 - |pattern|)
        <==> PartialAt(text, pattern, from, j, |pattern| - 1) && pattern[|pattern| - 1] == text[j]
  {
    var s, k := j + 1 - |pattern|, |pattern| - 1;
    assert pattern == pattern[..k] + [pattern[k]];
    assert text[s..j + 1] == text[s..j] + [text[j]];
  }

  /** Reading the last byte of the pattern: the first occurrence is complete. */
  lemma ScanCompletes(text: string, pattern: string, from: nat, j: int)
    requires pattern != "" && ScanAt(text, pattern, from, j, |pattern| - 1)
    requires j < |text| && pattern[|pattern| - 1] == text[j]
    ensures Search(text, pattern, from) == SearchResult(j + 1 - |pattern|, |pattern|)
  {
    OccurrenceExtends(text, pattern, from, j);
    var first := FirstOccurrence(text, pattern, from);
    assert OccursAt(text, pattern, first);
  }

  lemma NoOccurrenceEnds(text: string, pattern: string, from: nat, j: int, k: int)
    requires pattern != "" && ScanAt(text, pattern, from, j, k) && j < |text| && k + 1 < |pattern|
    ensures forall s :: from <= s && s + |pattern| <= j + 1 ==> !OccursAt(text, pattern, s)
  {
    if from <= j + 1 - |pattern| { OccurrenceExtends(text, pattern, from, j); }
    forall s | from <= s && s + |pattern| <= j + 1 ensures !OccursAt(text, pattern, s) {
      if s + |pattern| == j + 1 { assert s == j + 1 - |pattern|; }
    }
  }

  /** Reading one more byte, matched (k >= 0) or skipped (k == -1). */
  lemma ScanAdvances(text: string, pattern: string, from: nat, j: int, k: int)
    requires pattern != "" && ScanAt(text, pattern, from, j, k) && j < |text| && k + 1 < |pattern|
    requires k >= 0 ==> pattern[k] == text[j]
    ensures ScanAt(text, pattern, from, j + 1, k + 1)
  {
    NoOccurrenceEnds(text, pattern, from, j, k);
    if k >= 0 { PartialExtends(text, pattern, from, j, k); }
    var n := j + 1;
    forall other | k + 1 < other && PartialAt(text, pattern, from, n, other) ensures false {
      PartialExtends(text, pattern, from, j, other - 1);
    }
  }

  /** Two partial matches ending at the same place: the shorter is a border of the longer. */
  lemma PartialsAreBorders(text: string, pattern: string, from: nat, j: int, k: int, b: int)
    requires PartialAt(text, pattern, from, j, k) && 0 <= b < k
    ensures PartialAt(text, pattern, from, j, b) <==> Border(pattern, k, b)
  {
    assert text[j - k..j][k - b..] == text[j - b..j];
    assert pattern[..k][k - b..] == pattern[k - b..k];
  }

  lemma ScanFalls(text: string, pattern: string, from: nat, j: int, k: int, t: int)
    requires ScanAt(text, pattern, from, j, k) && k >= 0 && j < |text| && pattern[k] != text[j]
    requires StrongFailure(pattern, k, t)
    ensures ScanAt(text, pattern, from, j, t)
  {
    forall other | t < other && PartialAt(text, pattern, from, j, other) ensures pattern[other] != text[j] {
      if other < k { PartialsAreBorders(text, pattern, from, j, k, other); }
    }
    if t >= 0 { PartialsAreBorders(text, pattern, from, j, k, t); }
  }

  lemma ScanEnds(text: string, pattern: string, from: nat, k: int)
    requires from <= |text| && pattern != "" && k >= 0 && ScanAt(text, pattern, from, |text|, k)
    ensures Search(text, pattern, from) == SearchResult(|text| - k, k)
  {
    var i := FirstOccurrence(text, pattern, from);
    assert i >= 0 ==> OccursAt(text, pattern, i);
    var longest := LongestPartial(text, pattern, from);
    assert PartialAt(text, pattern, from, |text|, longest);
  }

  /** memchr over haystack[offset..], the path of a one-byte pattern. */
  method FindByte(haystack: string, c: char, offset: nat) returns (i: int)
    requires offset <= |haystack|
    ensures i == FirstOccurrence(haystack, [c], offset)
  {
    i := offset;
    while i < |haystack|
      invariant offset <= i <= |haystack|
      invariant forall s :: offset <= s < i ==> !OccursAt(haystack, [c], s)
    {
      if haystack[i] == c {
        assert OccursAt(haystack, [c], i);
        assert FirstOccurrence(haystack, [c], offset) == i;
        return;
      }
      assert haystack[i..i + 1][0] != c;
      i := i + 1;
    }
    i := -1;
  }

  /** Where the loop of kmp ends from text position `j` with `k` bytes matched. */
  function ScanFrom(text: string, pattern: string, table: seq<int>, j: nat, k: nat): (r: SearchResult)
    requires j <= |text| && k < |pattern| && Falls(table, |pattern|)
    ensures 0 <= r.length <= |pattern|
    decreases 2 * (|text| - j) + k
  {
    if j == |text| then SearchResult(j - k, k)
    else if pattern[k] == text[j] then
      if k + 1 == |pattern| then SearchResult(j + 1 - |pattern|, |pattern|)
      else ScanFrom(text, pattern, table, j + 1, k + 1)
    else if table[k] < 0 then ScanFrom(text, pattern, table, j + 1, 0)
    else ScanFrom(text, pattern, table, j, table[k])
  }

  lemma ScanFromUnfolds(text: string, pattern: string, table: seq<int>, j: nat, k: nat)
    requires j <= |text| && k < |pattern| && Falls(table, |pattern|)
    ensures ScanFrom(text, pattern, table, j, k) ==
      if j == |text| then SearchResult(j - k, k)
      else if pattern[k] == text[j] then
        if k + 1 == |pattern| then SearchResult(j + 1 - |pattern|, |pattern|)
        else ScanFrom(text, pattern, table, j + 1, k + 1)
      else if table[k] < 0 then ScanFrom(text, pattern, table, j + 1, 0)
      else ScanFrom(text, pattern, table, j, table[k])
  {
  }

  lemma ScanStarts(text: string, pattern: string, from: nat)
    requires from <= |text| && pattern != ""
    ensures ScanAt(text, pattern, from, from, 0)
  {
  }

  lemma TableEntry(pattern: string, table: seq<int>, k: nat)
    requires IsTable(pattern, table) && k < |pattern|
    ensures StrongFailure(pattern, k, table[k]) && -1 <= table[k] < k
  {
  }

  lemma TableFalls(pattern: string, table: seq<int>)
    requires IsTable(pattern, table)
    ensures Falls(table, |pattern|)
  {
  }

  /** With the pattern's own table the loop computes the search. */
  lemma {:induction false} ScanFromSearches(text: string, pattern: string, from: nat, table: seq<int>, j: nat, k: nat)
    requires from <= j <= |text| && k < |pattern| && IsTable(pattern, table)
    requires ScanAt(text, pattern, from, j, k)
    ensures ScanFrom(text, pattern, table, j, k) == Search(text, pattern, from)
    decreases 2 * (|text| - j) + k
  {
    hide *;
    TableFalls(pattern, table);
    ScanFromUnfolds(text, pattern, table, j, k);
    if j == |text| {
      ScanEnds(text, pattern, from, k);
    } else if pattern[k] == text[j] {
      if k + 1 == |pattern| {
        ScanCompletes(text, pattern, from, j);
      } else {
        ScanAdvances(text, pattern, from, j, k);
        ScanFromSearches(text, pattern, from, table, j + 1, k + 1);
      }
    } else {
      var t := table[k];
      TableEntry(pattern, table, k);
      ScanFalls(text, pattern, from, j, k, t);
      if t < 0 {
        ScanAdvances(text, pattern, from, j, t);
        ScanFromSearches(text, pattern, from, table, j + 1, 0);
      } else {
        ScanFromSearches(text, pattern, from, table, j, t);
      }
    }
  }

  /** With any table that falls: a text no longer than the pattern matches as a whole or not at all,
      and `k` can only complete if it never fell. */
  lemma {:induction false} ScanFromFills(text: string, pattern: string, from: nat, table: seq<int>, j: nat, k: nat)
    requires from <= j <= |text| && k < |pattern| && Falls(table, |pattern|)
    requires |text| - from <= |pattern| && k <= j - from
    requires k == j - from ==> text[from..j] == pattern[..k]
    requires text[from..] == pattern ==> k == j - from
    ensures var r := ScanFrom(text, pattern, table, j, k);
            (r.length == |pattern| <==> text[from..] == pattern) && (r.length == |pattern| ==> r.offset == from)
    decreases 2 * (|text| - j) + k
  {
    if j < |text| {
      assert text[from..][j - from] == text[j];
      if pattern[k] == text[j] {
        assert text[from..j + 1] == text[from..j] + [text[j]];
        assert pattern[..k + 1] == pattern[..k] + [pattern[k]];
        if k + 1 == |pattern| {
          assert text[from..j + 1] == text[from..];
        } else {
          ScanFromFills(text, pattern, from, table, j + 1, k + 1);
        }
      } else if table[k] < 0 {
        ScanFromFills(text, pattern, from, table, j + 1, 0);
      } else {
        ScanFromFills(text, pattern, from, table, j, table[k]);
      }
    }
  }

  /** The loop of kmp (lines 56-80), with its linear bound. */
  method Scan(haystack: string, pattern: string, offset: nat, table: seq<int>)
    returns (result: SearchResult, ghost steps: nat)
    requires offset <= |haystack| && pattern != "" && Falls(table, |pattern|)
    ensures result == ScanFrom(haystack, pattern, table, offset, 0)
    ensures steps <= 2 * (|haystack| - offset)
  {
    var j, k := offset, 0;
    steps := 0;
    while j < |haystack|
      invariant offset <= j <= |haystack| && 0 <= k < |pattern|
      invariant ScanFrom(haystack, pattern, table, j, k) == ScanFrom(haystack, pattern, table, offset, 0)
      invariant steps <= 2 * (j - offset) - k
      decreases 2 * (|haystack| - j) + k
    {
      steps := steps + 1;
      if pattern[k] == haystack[j] {
        j, k := j + 1, k + 1;
        if k == |pattern| {
          return SearchResult(j - k, k), steps;
        }
      } else if j == |haystack| {
        break;
      } else {
        k := table[k];
        if k < 0 {
          j, k := j + 1, k + 1;
        }
      }
    }
    result := SearchResult(j - k, k);
  }

  /** A search that cannot leave room for more than the pattern either fills the text or fails. */
  lemma SearchFills(text: string, pattern: string, from: nat)
    requires from <= |text| && pattern != "" && |text| - from <= |pattern|
    ensures var r := Search(text, pattern, from);
            (r.length == |pattern| <==> text[from..] == pattern) && (r.length == |pattern| ==> r.offset == from)
  {
    var i := FirstOccurrence(text, pattern, from);
    if i >= 0 { assert i == from && text[from..i + |pattern|] == text[from..]; }
    if text[from..] == pattern { assert OccursAt(text, pattern, from); }
  }

  lemma ByteSearch(text: string, c: char, from: nat)
    requires from <= |text|
    ensures var i := FirstOccurrence(text, [c], from);
            Search(text, [c], from) == if i >= 0 then SearchResult(i, 1) else SearchResult(|text|, 0)
  {
  }

  lemma EmptySearch(pattern: string)
    requires pattern != ""
    ensures Search("", pattern, 0) == SearchResult(0, 0)
  {
  }

  /** kmp. Without a table it builds its own, for patterns of at most 256 bytes. */
  method Find(haystack: string, pattern: string, offset: nat, table: Option<seq<int>>)
    returns (result: SearchResult)
    requires offset <= |haystack|
    requires table.Some? ==> Falls(table.value, |pattern|)
    ensures haystack == "" || pattern == "" ==> result == SearchResult(|haystack|, 0)
    ensures pattern != "" && (|pattern| == 1 || (table.Some? && IsTable(pattern, table.value))
                             || (table.None? && |pattern| <= LOCAL_TABLE_PATTERN_MAX))
            ==> result == Search(haystack, pattern, offset)
    ensures table.None? && haystack != "" && |pattern| > LOCAL_TABLE_PATTERN_MAX ==> result == SearchResult(-1, 0)
    ensures table.Some? && pattern != "" && |haystack| - offset <= |pattern| ==>
              (result.length == |pattern| <==> haystack[offset..] == pattern)
              && (result.length == |pattern| ==> result.offset == offset)
    ensures 0 <= result.length <= |pattern|
  {
    assert LOCAL_TABLE_PATTERN_MAX == 256;
    hide *;
    if haystack == "" || pattern == "" {
      if pattern != "" {
        EmptySearch(pattern);
        SearchFills(haystack, pattern, offset);
      }
      return SearchResult(|haystack|, 0);
    }
    if |pattern| == 1 {
      assert pattern == [pattern[0]];
      ByteSearch(haystack, pattern[0], offset);
      if |haystack| - offset <= 1 { SearchFills(haystack, pattern, offset); }
      var i := FindByte(haystack, pattern[0], offset);
      result := if i >= 0 then SearchResult(i, 1) else SearchResult(|haystack|, 0);
      return;
    }
    var chosen;
    if table.None? {
      if |pattern| > LOCAL_TABLE_PATTERN_MAX {
        return SearchResult(-1, 0);
      }
      var local := new int[258];
      ghost var steps := BuildKmp(pattern, local);
      chosen := local[..];
      TableFalls(pattern, chosen);
    } else {
      chosen := table.value;
    }
    ghost var steps;
    result, steps := Scan(haystack, pattern, offset, chosen);
    if IsTable(pattern, chosen) {
      ScanStarts(haystack, pattern, offset);
      ScanFromSearches(haystack, pattern, offset, chosen, offset, 0);
    }
    if |haystack| - offset <= |pattern| { ScanFromFills(haystack, pattern, offset, chosen, offset, 0); }
  }
}
