/** Query strings: percent-encoding and its inverse, the query parser (src/90s/util/util.cpp, lines 10-76 and
    150-172) and the unencrypted query builder (src/90s/httpd/environment.cpp, lines 144-178). Characters
    are bytes. */
module Url {

  predicate IsBytes(s: string) {
    forall i :: 0 <= i < |s| ==> s[i] as int < 0x100
  }

  /** The unreserved characters of section 2.3 of RFC 3986. */
  predicate IsUnreserved(c: char) {
    'A' <= c <= 'Z' || 'a' <= c <= 'z' || '0' <= c <= '9' || c in {'~', '-', '.', '_'}
  }

  function Digit(d: nat): char
    requires d < 16
  {
    "0123456789ABCDEF"[d]
  }

  function EncodeByte(c: char): string {
    if IsUnreserved(c) then [c] else ['%', Digit(c as int / 16 % 16), Digit(c as int % 16)]
  }

  function UrlEncode(s: string): string {
    if s == "" then "" else EncodeByte(s[0]) + UrlEncode(s[1..])
  }

  predicate IsHex(c: char) {
    '0' <= c <= '9' || 'A' <= c <= 'F' || 'a' <= c <= 'f'
  }

  function HexValue(c: char): (d: nat)
    requires IsHex(c)
    ensures d < 16
  {
    if c <= '9' then c as int - '0' as int else if c <= 'F' then c as int - 'A' as int + 10 else c as int - 'a' as int + 10
  }

  /** The code looks up to two bytes past a view shorter than three; `beyond` is what is there. */
  function At(data: string, beyond: string, i: nat): char {
    if i < |data| then data[i] else if i - |data| < |beyond| then beyond[i - |data|] else '\0'
  }

  /** The test `i <= len - 3` on unsigned numbers. */
  predicate HasRoom(i: nat, len: nat) {
    len < 3 || i <= len - 3
  }

  predicate IsEscape(data: string, beyond: string, i: nat)
    requires i < |data|
  {
    HasRoom(i, |data|) && data[i] == '%' && IsHex(At(data, beyond, i + 1)) && IsHex(At(data, beyond, i + 2))
  }

  function EscapedByte(data: string, beyond: string, i: nat): char
    requires i < |data| && IsEscape(data, beyond, i)
  {
    (HexValue(At(data, beyond, i + 1)) * 16 + HexValue(At(data, beyond, i + 2))) as char
  }

  /** What url_decode makes of the view from position `i` on. */
  function DecodeFrom(data: string, beyond: string, i: nat): string
    decreases |data| - i
  {
    if i >= |data| then ""
    else if IsEscape(data, beyond, i) then [EscapedByte(data, beyond, i)] + DecodeFrom(data, beyond, i + 3)
    else [if data[i] == '+' then ' ' else data[i]] + DecodeFrom(data, beyond, i + 1)
  }

  // ---------- decoding what was encoded ----------

  lemma DigitBack(d: nat)
    requires d < 16
    ensures IsHex(Digit(d)) && HexValue(Digit(d)) == d
  {
  }

  lemma DecodeHex(data: string, beyond: string, i: nat)
    requires i + 2 < |data| && data[i] == '%' && IsHex(data[i + 1]) && IsHex(data[i + 2])
    ensures DecodeFrom(data, beyond, i)
         == [(HexValue(data[i + 1]) * 16 + HexValue(data[i + 2])) as char] + DecodeFrom(data, beyond, i + 3)
  {
    hide IsHex, HexValue;
  }

  lemma Nibbles(c: char)
    requires c as int < 0x100
    ensures ((c as int / 16 % 16) * 16 + c as int % 16) as char == c
  {
  }

  lemma DecodeEscape(data: string, beyond: string, i: nat, c: char)
    requires c as int < 0x100 && i + 2 < |data| && data[i] == '%'
    requires data[i + 1] == Digit(c as int / 16 % 16) && data[i + 2] == Digit(c as int % 16)
    ensures DecodeFrom(data, beyond, i) == [c] + DecodeFrom(data, beyond, i + 3)
  {
    hide *;
    DigitBack(c as int / 16 % 16);
    DigitBack(c as int % 16);
    Nibbles(c);
    DecodeHex(data, beyond, i);
  }

  lemma DecodePlain(data: string, beyond: string, i: nat)
    requires i < |data| && IsUnreserved(data[i])
    ensures DecodeFrom(data, beyond, i) == [data[i]] + DecodeFrom(data, beyond, i + 1)
  {
  }

  /** One encoded byte, wherever it stands and whatever lies beyond. */
  lemma DecodeByte(before: string, c: char, more: string, beyond: string)
    requires c as int < 0x100
    ensures var data := before + EncodeByte(c) + more;
            DecodeFrom(data, beyond, |before|) == [c] + DecodeFrom(data, beyond, |before + EncodeByte(c)|)
  {
    var data, e, i := before + EncodeByte(c) + more, EncodeByte(c), |before|;
    hide DecodeFrom, Digit, IsUnreserved;
    assert forall k :: 0 <= k < |e| ==> data[i + k] == e[k];
    assert data[i] == e[0];
    if IsUnreserved(c) {
      DecodePlain(data, beyond, i);
    } else {
      assert data[i + 1] == e[1] && data[i + 2] == e[2];
      DecodeEscape(data, beyond, i, c);
    }
  }

  lemma DecodeDone(data: string, beyond: string, i: nat, done: string)
    requires i >= |data|
    ensures done + DecodeFrom(data, beyond, i) == done && DecodeFrom(data, beyond, i) == ""
  {
  }

  lemma EncodeStep(before: string, s: string)
    ensures s == "" ==> before + UrlEncode(s) == before
    ensures s != "" ==> before + UrlEncode(s) == before + EncodeByte(s[0]) + UrlEncode(s[1..]) && s == [s[0]] + s[1..]
    ensures s != "" && IsBytes(s) ==> s[0] as int < 0x100 && IsBytes(s[1..])
  {
    hide EncodeByte;
  }

  lemma {:induction false} DecodeEncodeFrom(before: string, s: string, beyond: string)
    requires IsBytes(s)
    ensures DecodeFrom(before + UrlEncode(s), beyond, |before|) == s
    decreases |s|
  {
    hide *;
    EncodeStep(before, s);
    if s == "" {
      DecodeDone(before, beyond, |before|, "");
    } else {
      DecodeByte(before, s[0], UrlEncode(s[1..]), beyond);
      DecodeEncodeFrom(before + EncodeByte(s[0]), s[1..], beyond);
    }
  }

  /** url_decode undoes url_encode, for every string and whatever lies beyond the view. */
  lemma DecodeEncode(s: string, beyond: string)
    requires IsBytes(s)
    ensures DecodeFrom(UrlEncode(s), beyond, 0) == s
  {
    DecodeEncodeFrom("", s, beyond);
    assert "" + UrlEncode(s) == UrlEncode(s);
  }

  /** Encoded text has only unreserved characters and percent signs, so no separators. */
  lemma {:induction false} EncodedChars(s: string)
    ensures forall i :: 0 <= i < |UrlEncode(s)| ==> IsUnreserved(UrlEncode(s)[i]) || UrlEncode(s)[i] == '%'
  {
    if s != "" {
      EncodedChars(s[1..]);
      var e := EncodeByte(s[0]);
      assert forall i :: 0 <= i < |e| ==> IsUnreserved(e[i]) || e[i] == '%';
      hide EncodeByte, IsUnreserved;
    }
  }

  /** And unreserved text is left as it is. */
  lemma {:induction false} UnreservedKept(s: string)
    requires forall i :: 0 <= i < |s| ==> IsUnreserved(s[i])
    ensures UrlEncode(s) == s
  {
    if s != "" {
      UnreservedKept(s[1..]);
      assert EncodeByte(s[0]) == [s[0]];
      hide EncodeByte;
    }
  }

  // ---------- queries ----------

  /** string::find for a character: its position at or after `from`, or the length. */
  function Find(s: string, c: char, from: nat): (p: nat)
    requires from <= |s|
    ensures from <= p <= |s| && (p < |s| ==> s[p] == c) && forall i :: from <= i < p ==> s[i] != c
    decreases |s| - from
  {
    if from == |s| || s[from] == c then from else Find(s, c, from + 1)
  }

  /** One `key=value` segment of the query, `current`, which `beyond` follows. */
  function ParsePair(current: string, beyond: string): (string, string) {
    var mid := Find(current, '=', 0);
    if mid == |current| then (DecodeFrom(current, beyond, 0), "")
    else (DecodeFrom(current[..mid], current[mid..] + beyond, 0), DecodeFrom(current[mid + 1..], beyond, 0))
  }

  /** parse_query_string from position `from` on; an empty segment ends the parse. */
  function ParseFrom(query: string, beyond: string, from: nat, known: map<string, string>): map<string, string>
    requires from <= |query|
    decreases |query| - from
  {
    if from == |query| then known
    else
      var pos := Find(query, '&', from);
      if pos == from then known
      else
        var (key, value) := ParsePair(query[from..pos], query[pos..] + beyond);
        ParseFrom(query, beyond, if pos < |query| then pos + 1 else pos, known[key := value])
  }

  datatype Param = Param(key: string, value: string)

  function Pair(p: Param): string {
    UrlEncode(p.key) + "=" + UrlEncode(p.value)
  }

  /** The query that url builds from the entries of a dictionary, in the order it enumerates them. */
  function Query(params: seq<Param>): string {
    if params == [] then ""
    else Pair(params[0]) + (if |params| > 1 then "&" else "") + Query(params[1..])
  }

  predicate IsEnumeration(params: seq<Param>, m: map<string, string>) {
    (forall i :: 0 <= i < |params| ==> params[i].key in m && m[params[i].key] == params[i].value)
    && (forall k :: k in m ==> exists i :: 0 <= i < |params| && params[i].key == k)
  }

  predicate AllBytes(params: seq<Param>) {
    forall i :: 0 <= i < |params| ==> IsBytes(params[i].key) && IsBytes(params[i].value)
  }

  /** Entries written one after another, as the parser meets them. */
  function Written(params: seq<Param>, known: map<string, string>): map<string, string> {
    if params == [] then known else Written(params[1..], known[params[0].key := params[0].value])
  }

  lemma FindIs(s: string, c: char, from: nat, p: nat)
    requires from <= p <= |s| && (p < |s| ==> s[p] == c) && forall i :: from <= i < p ==> s[i] != c
    ensures Find(s, c, from) == p
  {
  }

  /** A separator behind text that does not contain it is the one found. */
  lemma Separated(query: string, from: nat, text: string, tail: string, c: char)
    requires from <= |query| && query[from..] == text + tail && c !in text && (tail != "" ==> tail[0] == c)
    ensures var pos := from + |text|;
            pos <= |query| && Find(query, c, from) == pos && query[from..pos] == text && query[pos..] == tail
            && (tail == "" <==> pos == |query|) && (tail != "" ==> query[pos + 1..] == tail[1..])
  {
    var pos := from + |text|;
    assert |query| == from + |text| + |tail|;
    assert forall i :: from <= i < |query| ==> query[i] == (text + tail)[i - from];
    assert forall i :: from <= i < pos ==> query[i] == text[i - from];
    FindIs(query, c, from, pos);
    assert query[from..pos] == query[from..][..|text|];
    assert query[pos..] == query[from..][|text|..];
  }

  lemma NoSeparators(s: string)
    ensures '=' !in UrlEncode(s) && '&' !in UrlEncode(s)
  {
    EncodedChars(s);
    hide UrlEncode;
  }

  lemma PairBack(p: Param, beyond: string)
    requires IsBytes(p.key) && IsBytes(p.value)
    ensures ParsePair(Pair(p), beyond) == (p.key, p.value)
    ensures Pair(p) != "" && '&' !in Pair(p)
  {
    var key, value, pair := UrlEncode(p.key), UrlEncode(p.value), Pair(p);
    NoSeparators(p.key);
    NoSeparators(p.value);
    hide UrlEncode, DecodeFrom, Find, IsBytes;
    assert pair[0..] == key + ("=" + value);
    Separated(pair, 0, key, "=" + value, '=');
    assert pair[0..|key|] == pair[..|key|] && ("=" + value)[1..] == value;
    DecodeEncode(p.key, pair[|key|..] + beyond);
    DecodeEncode(p.value, beyond);
  }

  function QueryTail(params: seq<Param>): string
    requires params != []
  {
    if |params| == 1 then "" else "&" + Query(params[1..])
  }

  lemma Joined(a: string, b: string)
    ensures a + "&" + b == a + ("&" + b) && ("&" + b)[1..] == b
    ensures a + "" + "" == a + ""
  {
  }

  lemma QuerySplit(params: seq<Param>)
    requires params != []
    ensures Query(params) == Pair(params[0]) + QueryTail(params)
    ensures QueryTail(params) != "" ==> QueryTail(params)[0] == '&' && QueryTail(params)[1..] == Query(params[1..])
    ensures QueryTail(params) == "" <==> |params| == 1
    ensures |params| == 1 ==> Query(params[1..]) == ""
  {
    hide Pair;
    var pair, more := Pair(params[0]), Query(params[1..]);
    Joined(pair, more);
    NoMore(params);
    assert Query(params) == pair + (if |params| > 1 then "&" else "") + more;
    hide Query;
  }

  /** One round of the parser's loop. */
  lemma ParseStep(query: string, beyond: string, from: nat, known: map<string, string>, pos: nat)
    requires from < |query| && pos == Find(query, '&', from) && pos != from
    ensures var (key, value) := ParsePair(query[from..pos], query[pos..] + beyond);
            ParseFrom(query, beyond, from, known)
            == ParseFrom(query, beyond, if pos < |query| then pos + 1 else pos, known[key := value])
  {
  }

  lemma ByteEntries(params: seq<Param>)
    requires AllBytes(params) && params != []
    ensures IsBytes(params[0].key) && IsBytes(params[0].value) && AllBytes(params[1..])
  {
    hide IsBytes;
  }

  lemma NothingLeft(query: string, from: nat, beyond: string, known: map<string, string>)
    requires from <= |query| && query[from..] == Query([])
    ensures ParseFrom(query, beyond, from, known) == Written([], known)
  {
  }

  lemma WrittenStep(params: seq<Param>, known: map<string, string>)
    requires params != []
    ensures Written(params, known) == Written(params[1..], known[params[0].key := params[0].value])
  {
  }

  /** The parser, standing in front of the entries still to come. */
  lemma {:induction false} QueryBack(query: string, from: nat, params: seq<Param>, beyond: string, known: map<string, string>)
    requires AllBytes(params) && from <= |query| && query[from..] == Query(params)
    ensures ParseFrom(query, beyond, from, known) == Written(params, known)
    decreases |params|
  {
    hide *;
    if params == [] {
      NothingLeft(query, from, beyond, known);
    } else {
      var p, pos := params[0], from + |Pair(params[0])|;
      ByteEntries(params);
      PairBack(p, "");
      QuerySplit(params);
      Separated(query, from, Pair(p), QueryTail(params), '&');
      PairBack(p, query[pos..] + beyond);
      ParseStep(query, beyond, from, known, pos);
      WrittenStep(params, known);
      QueryBack(query, if pos < |query| then pos + 1 else pos, params[1..], beyond, known[p.key := p.value]);
    }
  }

  lemma NoMore(params: seq<Param>)
    ensures |params| == 1 ==> Query(params[1..]) == ""
  {
  }

  lemma {:induction false} WrittenIs(params: seq<Param>, known: map<string, string>, m: map<string, string>)
    requires forall k :: k in known ==> k in m && known[k] == m[k]
    requires forall i :: 0 <= i < |params| ==> params[i].key in m && m[params[i].key] == params[i].value
    requires forall k :: k in m ==> k in known || exists i :: 0 <= i < |params| && params[i].key == k
    ensures Written(params, known) == m
    decreases |params|
  {
    if params != [] {
      forall k | k in m && k !in known && k != params[0].key
        ensures exists i :: 0 <= i < |params[1..]| && params[1..][i].key == k
      {
        var i :| 0 <= i < |params| && params[i].key == k;
        assert params[1..][i - 1].key == k;
      }
      WrittenIs(params[1..], known[params[0].key := params[0].value], m);
    }
  }

  /** Parsing the query built from a dictionary of byte strings gives the dictionary back, whatever order it
      was enumerated in. */
  lemma QueryRoundTrip(m: map<string, string>, params: seq<Param>, beyond: string)
    requires IsEnumeration(params, m) && AllBytes(params)
    ensures ParseFrom(Query(params), beyond, 0, map[]) == m
  {
    assert Query(params)[0..] == Query(params);
    QueryBack(Query(params), 0, params, beyond, map[]);
    WrittenIs(params, map[], m);
  }

  // ---------- the loops ----------

  lemma {:induction false} EncodeSnoc(s: string, c: char)
    ensures UrlEncode(s + [c]) == UrlEncode(s) + EncodeByte(c)
  {
    hide EncodeByte;
    if s == "" {
      assert s + [c] == [c];
    } else {
      EncodeSnoc(s[1..], c);
      assert (s + [c])[1..] == s[1..] + [c];
    }
  }

  /** url_encode */
  method Encode(data: string) returns (result: string)
    ensures result == UrlEncode(data)
  {
    result := "";
    for i := 0 to |data|
      invariant result == UrlEncode(data[..i])
    {
      var c := data[i];
      EncodeSnoc(data[..i], c);
      assert data[..i] + [c] == data[..i + 1];
      if IsUnreserved(c) {
        result := result + [c];
      } else {
        result := result + ['%', Digit(c as int / 16 % 16), Digit(c as int % 16)];
      }
    }
    assert data[..|data|] == data;
  }

  lemma DecodeStep(data: string, beyond: string, i: nat, done: string)
    requires i < |data|
    ensures done + DecodeFrom(data, beyond, i)
         == if IsEscape(data, beyond, i) then done + [EscapedByte(data, beyond, i)] + DecodeFrom(data, beyond, i + 3)
            else done + [if data[i] == '+' then ' ' else data[i]] + DecodeFrom(data, beyond, i + 1)
  {
    hide IsEscape, EscapedByte;
  }

  /** url_decode */
  method Decode(data: string, beyond: string) returns (output: string)
    ensures output == DecodeFrom(data, beyond, 0)
    ensures |output| <= |data|
  {
    hide DecodeFrom, IsHex, HexValue, At;
    output := "";
    var i := 0;
    assert "" + DecodeFrom(data, beyond, 0) == DecodeFrom(data, beyond, 0);
    while i < |data|
      invariant output + DecodeFrom(data, beyond, i) == DecodeFrom(data, beyond, 0)
      invariant |output| <= i && (i <= |data| || |output| <= |data|)
      decreases |data| - i
    {
      DecodeStep(data, beyond, i, output);
      var c := data[i];
      if |data| < 3 || i <= |data| - 3 {
        if c == '+' {
          output := output + [' '];
        } else if c == '%' {
          if IsHex(At(data, beyond, i + 1)) && IsHex(At(data, beyond, i + 2)) {
            output := output + [(HexValue(At(data, beyond, i + 1)) * 16 + HexValue(At(data, beyond, i + 2))) as char];
            i := i + 2;
          } else {
            output := output + [c];
          }
        } else {
          output := output + [c];
        }
      } else {
        output := output + [if c == '+' then ' ' else c];
      }
      i := i + 1;
    }
    DecodeDone(data, beyond, i, output);
  }

  /** parse_query_string */
  method ParseQueryString(query: string, beyond: string) returns (qs: map<string, string>)
    ensures qs == ParseFrom(query, beyond, 0, map[])
  {
    hide ParseFrom, DecodeFrom, Find;
    qs := map[];
    var prev := 0;
    while prev < |query|
      invariant prev <= |query|
      invariant ParseFrom(query, beyond, prev, qs) == ParseFrom(query, beyond, 0, map[])
    {
      var pos := Find(query, '&', prev);
      ParseEnd(query, beyond, prev, qs);
      var current := query[prev..pos];
      if |current| == 0 { break; }
      ParseStep(query, beyond, prev, qs, pos);
      prev := if pos < |query| then pos + 1 else pos;
      var mid := Find(current, '=', 0);
      var after := query[pos..] + beyond;
      if mid == |current| {
        var key := Decode(current, after);
        qs := qs[key := ""];
      } else {
        var key := Decode(current[..mid], current[mid..] + after);
        var value := Decode(current[mid + 1..], after);
        qs := qs[key := value];
      }
    }
    ParseEnd(query, beyond, prev, qs);
  }

  lemma ParseEnd(query: string, beyond: string, from: nat, known: map<string, string>)
    requires from <= |query|
    ensures from == |query| || Find(query, '&', from) == from ==> ParseFrom(query, beyond, from, known) == known
  {
  }

  lemma Appended(query: string, key: string, value: string, tail: string)
    ensures query + key + "=" + value + tail == query + (key + "=" + value + tail)
    ensures tail != "" ==> query + key + "=" + value + tail[..1] + tail[1..] == query + (key + "=" + value + tail)
  {
  }

  /** url with encryption `none`. */
  method BuildUrl(endpoint: string, params: seq<Param>) returns (result: string)
    ensures result == if params == [] then endpoint else endpoint + "?" + Query(params)
  {
    if params == [] { return endpoint; }
    var query := "";
    var i := 0;
    NoMore(params[|params| - 1..]);
    assert params[0..] == params && params[|params| - 1..][1..] == params[|params|..];
    while i < |params|
      invariant i <= |params| && query + Query(params[i..]) == Query(params)
    {
      assert params[i..][1..] == params[i + 1..];
      QuerySplit(params[i..]);
      NoMore(params[i..]);
      hide Query, QueryTail;
      var key := Encode(params[i].key);
      var value := Encode(params[i].value);
      Appended(query, key, value, QueryTail(params[i..]));
      query := query + key + "=" + value;
      if i != |params| - 1 { query := query + "&"; }
      i := i + 1;
    }
    assert query + "" == query;
    result := endpoint + "?" + query;
  }
}
