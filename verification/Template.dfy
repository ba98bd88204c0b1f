/** The template compiler's segmentation (src/90s/httpd/template_compiler.cpp, lines 165-214): one pass of
    replace_between, on top of kmp without a table, so markers have 1 to 256 bytes. */
module Template {
  import opened Common
  import opened Kmp
  import DelimiterScan

  /** A stretch between markers, or one inside them; an unclosed one runs to the end. */
  datatype Piece = Outside(text: string) | Inside(text: string, closed: bool)

  predicate IsMarker(m: string) {
    1 <= |m| <= LOCAL_TABLE_PATTERN_MAX
  }

  /** The pieces with the markers back in place. */
  function Source(pieces: seq<Piece>, start: string, end: string): string {
    if pieces == [] then ""
    else
      (match pieces[0]
       case Outside(text) => text
       case Inside(text, closed) => start + text + if closed then end else "")
      + Source(pieces[1..], start, end)
  }

  function SplitOutside(data: string, start: string, end: string): seq<Piece>
    requires start != "" && end != ""
    decreases |data|, 1
  {
    var i := FirstOccurrence(data, start, 0);
    if i < 0 then [Outside(data)] else [Outside(data[..i])] + SplitInside(data[i + |start|..], start, end)
  }

  function SplitInside(data: string, start: string, end: string): seq<Piece>
    requires start != "" && end != ""
    decreases |data|, 2
  {
    var i := FirstOccurrence(data, end, 0);
    if i < 0 then [Inside(data, false)] else [Inside(data[..i], true)] + SplitOutside(data[i + |end|..], start, end)
  }

  // ---------- what the pieces are ----------

  predicate CutAt(p: Piece, start: string, end: string)
    requires start != "" && end != ""
  {
    match p
    case Outside(text) => FirstOccurrence(text + start, start, 0) == |text|
    case Inside(text, closed) => closed && FirstOccurrence(text + end, end, 0) == |text|
  }

  predicate LastCut(p: Piece, start: string, end: string)
    requires start != "" && end != ""
  {
    match p
    case Outside(text) => FirstOccurrence(text, start, 0) == -1
    case Inside(text, closed) => !closed && FirstOccurrence(text, end, 0) == -1
  }

  lemma FirstIs(text: string, m: string, from: nat, i: int)
    requires from <= i && OccursAt(text, m, i) && forall j :: from <= j < i ==> !OccursAt(text, m, j)
    ensures FirstOccurrence(text, m, from) == i
  {
  }

  lemma Around(data: string, m: string, i: nat)
    requires OccursAt(data, m, i)
    ensures i + |m| <= |data| && data == data[..i] + m + data[i + |m|..] && data[..i] + m == data[..i + |m|]
  {
    assert data[i..i + |m|] == m;
  }

  lemma OccursInPrefix(data: string, m: string, n: nat, j: int)
    requires n <= |data| && OccursAt(data[..n], m, j)
    ensures OccursAt(data, m, j)
  {
    assert data[..n][j..j + |m|] == data[j..j + |m|];
  }

  /** The text before the first marker, with the marker, has it at its end and nowhere before. */
  lemma CutBefore(data: string, m: string)
    requires m != "" && FirstOccurrence(data, m, 0) >= 0
    ensures var i := FirstOccurrence(data, m, 0);
            i + |m| <= |data| && data == data[..i] + m + data[i + |m|..] && FirstOccurrence(data[..i] + m, m, 0) == i
  {
    var i := FirstOccurrence(data, m, 0);
    Around(data, m, i);
    var head := data[..i + |m|];
    forall j | 0 <= j < i ensures !OccursAt(head, m, j) {
      if OccursAt(head, m, j) { OccursInPrefix(data, m, i + |m|, j); }
    }
    assert head[i..i + |m|] == m by { assert head[i..i + |m|] == data[i..i + |m|]; }
    FirstIs(head, m, 0, i);
  }

  lemma CutAfter(text: string, m: string, more: string)
    requires m != "" && FirstOccurrence(text + m, m, 0) == |text|
    ensures var data := text + m + more;
            FirstOccurrence(data, m, 0) == |text| && data[..|text|] == text && data[|text| + |m|..] == more
  {
    DelimiterScan.OccurrenceStays(text + m, more, m);
  }

  /** Outside and inside alternate; each piece ends at the first marker that could end it, from where it
      starts; only the last has no marker behind it, and it contains none. */
  predicate CutFrom(pieces: seq<Piece>, start: string, end: string, outside: bool)
    requires start != "" && end != ""
  {
    pieces != [] && (pieces[0].Outside? <==> outside)
    && if |pieces| == 1 then LastCut(pieces[0], start, end)
       else CutAt(pieces[0], start, end) && CutFrom(pieces[1..], start, end, !outside)
  }

  lemma SourceStep(p: Piece, more: seq<Piece>, start: string, end: string)
    ensures Source([p] + more, start, end)
         == (match p
             case Outside(text) => text
             case Inside(text, closed) => start + text + if closed then end else "") + Source(more, start, end)
    ensures Source([p], start, end)
         == match p
            case Outside(text) => text
            case Inside(text, closed) => start + text + if closed then end else ""
  {
    assert ([p] + more)[1..] == more && [p][1..] == [];
  }

  lemma CutStep(p: Piece, more: seq<Piece>, start: string, end: string, outside: bool)
    requires start != "" && end != "" && (p.Outside? <==> outside)
    ensures CutAt(p, start, end) && CutFrom(more, start, end, !outside) ==> CutFrom([p] + more, start, end, outside)
    ensures LastCut(p, start, end) ==> CutFrom([p], start, end, outside)
  {
    assert ([p] + more)[1..] == more;
  }

  /** The pieces are cut at the markers, and putting the markers back gives the input. */
  lemma {:induction false} SplitIsCut(data: string, start: string, end: string, outside: bool)
    requires start != "" && end != ""
    ensures var pieces := if outside then SplitOutside(data, start, end) else SplitInside(data, start, end);
            CutFrom(pieces, start, end, outside)
            && Source(pieces, start, end) == (if outside then "" else start) + data
    decreases |data|, if outside then 1 else 2
  {
    hide FirstOccurrence, OccursAt, Source, CutFrom;
    var m := if outside then start else end;
    var i := FirstOccurrence(data, m, 0);
    if i >= 0 {
      CutBefore(data, m);
      var p := if outside then Outside(data[..i]) else Inside(data[..i], true);
      var more := if outside then SplitInside(data[i + |m|..], start, end) else SplitOutside(data[i + |m|..], start, end);
      SplitIsCut(data[i + |m|..], start, end, !outside);
      SourceStep(p, more, start, end);
      CutStep(p, more, start, end, outside);
      Whole(start, data[..i], end, data[i + |m|..]);
    } else {
      NotFound(data, m);
      var p := if outside then Outside(data) else Inside(data, false);
      SourceStep(p, [], start, end);
      CutStep(p, [], start, end, outside);
    }
  }

  lemma NotFound(data: string, m: string)
    ensures FirstOccurrence(data, m, 0) >= -1
  {
  }

  lemma Whole(start: string, text: string, end: string, more: string)
    ensures text + (start + more) == text + start + more
    ensures start + text + end + ("" + more) == start + (text + end + more)
    ensures start + text + "" == start + text
  {
  }

  lemma OutsideCase(text: string, rest: string, start: string, end: string)
    requires start != "" && end != "" && FirstOccurrence(text + start, start, 0) == |text|
    ensures SplitOutside(text + start + rest, start, end) == [Outside(text)] + SplitInside(rest, start, end)
  {
    CutAfter(text, start, rest);
    hide FirstOccurrence, SplitInside;
  }

  lemma InsideCase(text: string, rest: string, start: string, end: string)
    requires start != "" && end != "" && FirstOccurrence(text + end, end, 0) == |text|
    ensures SplitInside(text + end + rest, start, end) == [Inside(text, true)] + SplitOutside(rest, start, end)
  {
    CutAfter(text, end, rest);
    hide FirstOccurrence, SplitOutside;
  }

  lemma LastCase(p: Piece, start: string, end: string)
    requires start != "" && end != "" && LastCut(p, start, end)
    ensures [p] == if p.Outside? then SplitOutside(p.text, start, end) else SplitInside(p.text, start, end)
  {
    hide FirstOccurrence;
  }

  lemma Uncons(pieces: seq<Piece>, start: string, end: string, outside: bool)
    requires start != "" && end != "" && CutFrom(pieces, start, end, outside)
    ensures pieces != [] && (pieces[0].Outside? <==> outside) && pieces == [pieces[0]] + pieces[1..]
    ensures if |pieces| == 1 then LastCut(pieces[0], start, end) && pieces == [pieces[0]]
            else CutAt(pieces[0], start, end) && CutFrom(pieces[1..], start, end, !outside)
                 && if outside then FirstOccurrence(pieces[0].text + start, start, 0) == |pieces[0].text|
                    else pieces[0].closed && FirstOccurrence(pieces[0].text + end, end, 0) == |pieces[0].text|
    ensures |pieces| == 1 && !outside ==> !pieces[0].closed
  {
    hide FirstOccurrence;
  }

  /** And there is no other way to cut the input: first markers decide everything. */
  lemma {:induction false} CutIsSplit(pieces: seq<Piece>, start: string, end: string, outside: bool, data: string)
    requires start != "" && end != "" && CutFrom(pieces, start, end, outside)
    requires Source(pieces, start, end) == (if outside then "" else start) + data
    ensures pieces == if outside then SplitOutside(data, start, end) else SplitInside(data, start, end)
    decreases |pieces|
  {
    hide *;
    Uncons(pieces, start, end, outside);
    var p, more := pieces[0], pieces[1..];
    SourceStep(p, more, start, end);
    Behind("", data, data);
    if |pieces| == 1 {
      LastCase(p, start, end);
      if !outside { Behind(start, p.text, data); Whole(start, p.text, end, ""); }
    } else {
      SourceBegins(more, start, end, outside);
      var after := Source(more, start, end);
      var rest := if outside then after[|start|..] else after;
      Regrouped(start, p.text, end, rest, after);
      Behind(start, p.text + end + rest, data);
      if outside { OutsideCase(p.text, rest, start, end); } else { InsideCase(p.text, rest, start, end); }
      Resumed(start, after);
      CutIsSplit(more, start, end, !outside, rest);
    }
  }

  lemma Resumed(start: string, after: string)
    ensures start <= after ==> start + after[|start|..] == after
    ensures "" + after == after
  {
  }

  /** What follows an outside piece begins with the start marker. */
  lemma SourceBegins(pieces: seq<Piece>, start: string, end: string, outside: bool)
    requires start != "" && end != "" && CutFrom(pieces, start, end, !outside)
    ensures outside ==> start <= Source(pieces, start, end)
  {
  }

  lemma Behind(start: string, a: string, b: string)
    ensures start + a == start + b ==> a == b
    ensures a + "" == a && "" + a == a
  {
    if start + a == start + b {
      assert a == (start + a)[|start|..] && b == (start + b)[|start|..];
    }
  }

  lemma Regrouped(start: string, text: string, end: string, rest: string, more: string)
    ensures start + text + end + rest == start + (text + end + rest)
    ensures start <= more ==> text + more == text + start + more[|start|..]
    ensures "" + rest == rest
  {
    if start <= more { assert more == start + more[|start|..]; }
  }

  // ---------- replace_between ----------

  function Replaced(p: Piece, inside: string -> string, outside: string -> string): string {
    if p.Outside? then outside(p.text) else inside(p.text)
  }

  function Render(pieces: seq<Piece>, inside: string -> string, outside: string -> string): string {
    if pieces == [] then ""
    else Replaced(pieces[0], inside, outside) + Render(pieces[1..], inside, outside)
  }

  function Blocks(pieces: seq<Piece>): nat {
    if pieces == [] then 0 else (if pieces[0].Inside? then 1 else 0) + Blocks(pieces[1..])
  }

  /** A search from an offset is a search of the rest. */
  lemma SearchRest(data: string, m: string, from: nat)
    requires from <= |data| && m != ""
    ensures var i, k := FirstOccurrence(data, m, from), FirstOccurrence(data[from..], m, 0);
            if k < 0 then i < 0 else i == from + k
  {
    var i, k := FirstOccurrence(data, m, from), FirstOccurrence(data[from..], m, 0);
    if i >= 0 { Shifted(data, m, from, i - from); }
    if k >= 0 { Shifted(data, m, from, k); }
    if 0 <= k && 0 <= i && from + k < i { Shifted(data, m, from, k); }
    if 0 <= k && from <= i < from + k { Shifted(data, m, from, i - from); }
  }

  lemma Shifted(data: string, m: string, from: nat, k: int)
    requires from <= |data|
    ensures k >= 0 ==> (OccursAt(data[from..], m, k) <==> OccursAt(data, m, from + k))
  {
    if 0 <= k <= |data| - from - |m| { assert data[from..][k..k + |m|] == data[from + k..from + k + |m|]; }
  }

  /** kmp finds the first marker from `from` on, or reports fewer bytes than it has. */
  lemma MarkerFound(data: string, m: string, from: nat)
    requires from <= |data| && m != ""
    ensures var r, k := Search(data, m, from), FirstOccurrence(data[from..], m, 0);
            (r.length == |m| <==> k >= 0) && (k >= 0 ==> r.offset == from + k && from + k + |m| <= |data|)
  {
    SearchRest(data, m, from);
    var k := LongestPartial(data, m, from);
    assert PartialAt(data, m, from, |data|, k);
  }

  /** What the pass will have put out in the end. */
  function Final(out: string, pieces: seq<Piece>, inside: string -> string, outside: string -> string): string {
    out + Render(pieces, inside, outside)
  }

  lemma RenderStep(p: Piece, more: seq<Piece>, inside: string -> string, outside: string -> string, out: string)
    ensures Final(out, [p] + more, inside, outside) == Final(out + Replaced(p, inside, outside), more, inside, outside)
    ensures Blocks([p] + more) == (if p.Inside? then 1 else 0) + Blocks(more)
    ensures Final(out, [p], inside, outside) == out + Replaced(p, inside, outside)
    ensures Blocks([p]) == if p.Inside? then 1 else 0
  {
    assert ([p] + more)[1..] == more && [p][1..] == [];
    assert Render([p], inside, outside) == Replaced(p, inside, outside) + "" == Replaced(p, inside, outside);
    assert out + (Replaced(p, inside, outside) + Render(more, inside, outside))
        == out + Replaced(p, inside, outside) + Render(more, inside, outside);
    hide Replaced;
  }

  lemma FinalStart(pieces: seq<Piece>, inside: string -> string, outside: string -> string)
    ensures Final("", pieces, inside, outside) == Render(pieces, inside, outside)
  {
    hide Render;
  }

  lemma Sliced(data: string, from: nat, k: nat, n: nat)
    requires from <= |data| && k <= |data| - from && n <= |data| - from
    ensures data[from..][..k] == data[from..from + k] && data[from..][n..] == data[from + n..]
  {
  }

  function OutsideFrom(data: string, from: nat, start: string, end: string): seq<Piece>
    requires from <= |data| && start != "" && end != ""
  {
    SplitOutside(data[from..], start, end)
  }

  function InsideFrom(data: string, from: nat, start: string, end: string): seq<Piece>
    requires from <= |data| && start != "" && end != ""
  {
    SplitInside(data[from..], start, end)
  }

  /** What one round finds outside, ... */
  lemma OutsideStep(data: string, start: string, end: string, from: nat, r: SearchResult)
    requires start != "" && end != "" && from <= |data| && r == Search(data, start, from)
    ensures if r.length != |start| then OutsideFrom(data, from, start, end) == [Outside(data[from..])]
            else
              from <= r.offset && r.offset + |start| <= |data|
              && OutsideFrom(data, from, start, end)
                 == [Outside(data[from..r.offset])] + InsideFrom(data, r.offset + |start|, start, end)
  {
    MarkerFound(data, start, from);
    var k := FirstOccurrence(data[from..], start, 0);
    if k >= 0 { Sliced(data, from, k, k + |start|); }
    hide FirstOccurrence, SplitInside, Search;
  }

  /** ... and inside. */
  lemma InsideStep(data: string, start: string, end: string, from: nat, r: SearchResult)
    requires start != "" && end != "" && from <= |data| && r == Search(data, end, from)
    ensures if r.length != |end| then InsideFrom(data, from, start, end) == [Inside(data[from..], false)]
            else
              from <= r.offset && r.offset + |end| <= |data|
              && InsideFrom(data, from, start, end)
                 == [Inside(data[from..r.offset], true)] + OutsideFrom(data, r.offset + |end|, start, end)
  {
    MarkerFound(data, end, from);
    var k := FirstOccurrence(data[from..], end, 0);
    if k >= 0 { Sliced(data, from, k, k + |end|); }
    hide FirstOccurrence, SplitOutside, Search;
  }

  /** One round outside, seen from the output, ... */
  lemma OutsideRound(data: string, start: string, end: string, from: nat, r: SearchResult,
                     inside: string -> string, outside: string -> string, out: string)
    requires start != "" && end != "" && from <= |data| && r == Search(data, start, from)
    ensures var now := OutsideFrom(data, from, start, end);
            if r.length != |start| then
              Final(out, now, inside, outside) == out + Replaced(Outside(data[from..]), inside, outside) && Blocks(now) == 0
            else
              from <= r.offset && r.offset + |start| <= |data|
              && var more := InsideFrom(data, r.offset + |start|, start, end);
                 Final(out, now, inside, outside)
                 == Final(out + Replaced(Outside(data[from..r.offset]), inside, outside), more, inside, outside)
                 && Blocks(now) == Blocks(more)
  {
    hide *;
    OutsideStep(data, start, end, from, r);
    if r.length != |start| {
      RenderStep(Outside(data[from..]), [], inside, outside, out);
    } else {
      RenderStep(Outside(data[from..r.offset]), InsideFrom(data, r.offset + |start|, start, end), inside, outside, out);
    }
  }

  /** ... and inside. */
  lemma InsideRound(data: string, start: string, end: string, from: nat, r: SearchResult,
                    inside: string -> string, outside: string -> string, out: string)
    requires start != "" && end != "" && from <= |data| && r == Search(data, end, from)
    ensures var now := InsideFrom(data, from, start, end);
            if r.length != |end| then
              Final(out, now, inside, outside) == out + Replaced(Inside(data[from..], false), inside, outside) && Blocks(now) == 1
            else
              from <= r.offset && r.offset + |end| <= |data|
              && var more := OutsideFrom(data, r.offset + |end|, start, end);
                 Final(out, now, inside, outside)
                 == Final(out + Replaced(Inside(data[from..r.offset], true), inside, outside), more, inside, outside)
                 && Blocks(now) == 1 + Blocks(more)
  {
    hide *;
    InsideStep(data, start, end, from, r);
    if r.length != |end| {
      RenderStep(Inside(data[from..], false), [], inside, outside, out);
    } else {
      RenderStep(Inside(data[from..r.offset], true), OutsideFrom(data, r.offset + |end|, start, end), inside, outside, out);
    }
  }

  /** kmp as the compiler calls it. */
  method FindMarker(data: string, m: string, from: nat) returns (r: SearchResult)
    requires IsMarker(m) && from <= |data|
    ensures m != "" && r == Search(data, m, from)
  {
    r := Find(data, m, from, None);
  }

  lemma PassStarts(data: string, start: string, end: string, inside: string -> string, outside: string -> string)
    requires IsMarker(start) && IsMarker(end)
    ensures start != "" && end != "" && OutsideFrom(data, 0, start, end) == SplitOutside(data, start, end)
    ensures Final("", OutsideFrom(data, 0, start, end), inside, outside) == Render(SplitOutside(data, start, end), inside, outside)
  {
    assert data[0..] == data;
    FinalStart(SplitOutside(data, start, end), inside, outside);
    hide SplitOutside, Render, Final;
  }

  /** One pass: the pieces of the input, each replaced in its way. */
  method ReplaceOnce(data: string, start: string, end: string, inside: string -> string, outside: string -> string)
    returns (out: string, matches: nat)
    requires IsMarker(start) && IsMarker(end)
    ensures out == Render(SplitOutside(data, start, end), inside, outside)
    ensures matches == Blocks(SplitOutside(data, start, end))
  {
    hide *;
    out, matches := "", 0;
    var offset := 0;
    PassStarts(data, start, end, inside, outside);
    ghost var all := OutsideFrom(data, 0, start, end);
    while true
      invariant offset <= |data|
      invariant Final(out, OutsideFrom(data, offset, start, end), inside, outside) == Render(all, inside, outside)
      invariant matches + Blocks(OutsideFrom(data, offset, start, end)) == Blocks(all)
      decreases |data| - offset
    {
      var found := FindMarker(data, start, offset);
      OutsideRound(data, start, end, offset, found, inside, outside, out);
      if found.length != |start| {
        out := out + Replaced(Outside(data[offset..]), inside, outside);
        break;
      }
      out := out + Replaced(Outside(data[offset..found.offset]), inside, outside);
      var at := found.offset + |start|;
      var close := FindMarker(data, end, at);
      InsideRound(data, start, end, at, close, inside, outside, out);
      matches := matches + 1;
      if close.length != |end| {
        out := out + Replaced(Inside(data[at..], false), inside, outside);
        break;
      }
      out := out + Replaced(Inside(data[at..close.offset], true), inside, outside);
      offset := close.offset + |end|;
    }
  }

  /** In particular no outside piece contains the start marker, no inside piece the end marker, and
      putting the markers back gives the input. */
  lemma {:induction false} PiecesAreClean(pieces: seq<Piece>, start: string, end: string, outside: bool, i: nat)
    requires start != "" && end != "" && CutFrom(pieces, start, end, outside) && i < |pieces|
    ensures FirstOccurrence(pieces[i].text, if pieces[i].Outside? then start else end, 0) == -1
    ensures pieces[i].Inside? && !pieces[i].closed ==> i == |pieces| - 1
    decreases i
  {
    hide *;
    Uncons(pieces, start, end, outside);
    if i > 0 {
      PiecesAreClean(pieces[1..], start, end, !outside, i - 1);
    } else if |pieces| > 1 {
      CleanBefore(pieces[0].text, if outside then start else end);
    } else {
      LastIsClean(pieces[0], start, end);
    }
  }

  lemma LastIsClean(p: Piece, start: string, end: string)
    requires start != "" && end != "" && LastCut(p, start, end)
    ensures FirstOccurrence(p.text, if p.Outside? then start else end, 0) == -1
  {
    hide FirstOccurrence;
  }

  lemma CleanBefore(text: string, m: string)
    requires m != "" && FirstOccurrence(text + m, m, 0) == |text|
    ensures FirstOccurrence(text, m, 0) == -1
  {
    var i := FirstOccurrence(text, m, 0);
    if i >= 0 { DelimiterScan.OccurrenceStays(text, m, m); }
  }

  lemma Lossless(data: string, start: string, end: string, i: nat)
    requires IsMarker(start) && IsMarker(end)
    ensures var pieces := SplitOutside(data, start, end);
            Source(pieces, start, end) == data
            && (i < |pieces| ==>
                  FirstOccurrence(pieces[i].text, if pieces[i].Outside? then start else end, 0) == -1
                  && (pieces[i].Inside? && !pieces[i].closed ==> i == |pieces| - 1))
  {
    SplitIsCut(data, start, end, true);
    Resumed(start, data);
    if i < |SplitOutside(data, start, end)| { PiecesAreClean(SplitOutside(data, start, end), start, end, true, i); }
    hide SplitOutside, FirstOccurrence, Source, CutFrom;
  }
}
