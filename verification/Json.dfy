/** The JSON printer and the schema-driven parser (src/90s/orm/json.hpp, lines 20-148, 186-229, 232-373 and
    383-563; conversions in src/90s/orm/orm.hpp, lines 281-399 and 477-550). Characters are bytes. */
module Json {
  import opened Common

  /** What an `any` refers to: a string, a bool, an integer of 8 to 64 bits, a vector, or an object with its
      mapper. Optionals occur as fields of objects. */
  datatype Type =
    | TString
    | TBool
    | TInt(signed: bool, bits: nat)
    | TArray(item: Type)
    | TObject(fields: seq<Field>)

  datatype Field = Field(name: string, ty: Type, optional: bool)

  /** The value of an object has an entry for each field, empty for an optional that is not present. */
  datatype Value =
    | VString(s: string)
    | VBool(b: bool)
    | VInt(n: int)
    | VArray(items: seq<Value>)
    | VObject(slots: seq<Option<Value>>)

  // ---------- types and values ----------

  function Pow2(bits: nat): int {
    match bits
    case 8 => 0x100
    case 16 => 0x1_0000
    case 32 => 0x1_0000_0000
    case _ => 0x1_0000_0000_0000_0000
  }

  predicate InRange(n: int, signed: bool, bits: nat) {
    if signed then -Pow2(bits) <= 2 * n < Pow2(bits) else 0 <= n < Pow2(bits)
  }

  /** A field name that needs no escapes: the printer writes names as they are. */
  predicate Plain(name: string) {
    '"' !in name && '\\' !in name
  }

  predicate UniqueNames(fields: seq<Field>) {
    forall i, j :: 0 <= i < j < |fields| ==> fields[i].name != fields[j].name
  }

  predicate TypeOk(ty: Type) {
    match ty
    case TInt(_, bits) => bits in {8, 16, 32, 64}
    case TArray(item) => TypeOk(item)
    case TObject(fields) =>
      fields != [] && UniqueNames(fields)
      && forall i :: 0 <= i < |fields| ==> Plain(fields[i].name) && TypeOk(fields[i].ty)
    case _ => true
  }

  predicate Fits(ty: Type, v: Value) {
    match (ty, v)
    case (TString, VString(_)) => true
    case (TBool, VBool(_)) => true
    case (TInt(signed, bits), VInt(n)) => InRange(n, signed, bits)
    case (TArray(item), VArray(items)) => forall i :: 0 <= i < |items| ==> Fits(item, items[i])
    case (TObject(fields), VObject(slots)) =>
      |slots| == |fields|
      && forall i :: 0 <= i < |fields| ==>
           if slots[i].None? then fields[i].optional else Fits(fields[i].ty, slots[i].value)
    case _ => false
  }

  /** How deep decode recurses into a value of the type: the elements of an empty vector do not count. */
  predicate Within(v: Value, levels: int) {
    levels > 0
    && match v {
         case VArray(items) => forall i :: 0 <= i < |items| ==> Within(items[i], levels - 1)
         case VObject(slots) =>
           levels > 1 && forall i :: 0 <= i < |slots| && slots[i].Some? ==> Within(slots[i].value, levels - 1)
         case _ => true
       }
  }

  function Default(ty: Type): Value {
    match ty
    case TString => VString("")
    case TBool => VBool(false)
    case TInt(_, _) => VInt(0)
    case TArray(_) => VArray([])
    case TObject(fields) =>
      VObject(seq(|fields|, i requires 0 <= i < |fields| =>
        if fields[i].optional then None else Some(Default(fields[i].ty))))
  }

  // ---------- numbers ----------

  function Digit(d: nat): char
    requires d < 10
  {
    "0123456789"[d]
  }

  function Digits(n: nat): (r: string)
    ensures r != "" && AllDigits(r)
  {
    if n < 10 then [Digit(n)] else Digits(n / 10) + [Digit(n % 10)]
  }

  function Print(n: int): string {
    if n < 0 then "-" + Digits(-n) else Digits(n)
  }

  predicate IsDigit(c: char) {
    '0' <= c <= '9'
  }

  function DigitRun(s: string): (n: nat)
    ensures n <= |s| && forall i :: 0 <= i < n ==> IsDigit(s[i])
    ensures n < |s| ==> !IsDigit(s[n])
  {
    if s == "" || !IsDigit(s[0]) then 0 else 1 + DigitRun(s[1..])
  }

  predicate AllDigits(s: string) {
    forall i :: 0 <= i < |s| ==> IsDigit(s[i])
  }

  function Number(s: string): int
    requires AllDigits(s)
  {
    if s == "" then 0
    else
      assert IsDigit(s[|s| - 1]);
      Number(s[..|s| - 1]) * 10 + (s[|s| - 1] as int - '0' as int)
  }

  /** std::from_chars: a sign for signed types, then as many digits as there are; the rest is ignored. */
  function FromChars(s: string, signed: bool, bits: nat): Option<int> {
    var negative := signed && s != "" && s[0] == '-';
    var digits := if negative then s[1..] else s;
    var run := DigitRun(digits);
    if run == 0 then None
    else
      var n := if negative then -Number(digits[..run]) else Number(digits[..run]);
      if InRange(n, signed, bits) then Some(n) else None
  }

  function Unquoted(s: string): string {
    if s != "" && s[0] == '"' && s[|s| - 1] == '"' then (if |s| >= 2 then s[1..|s| - 1] else "") else s
  }

  /** A cast to 8 bits. */
  function Truncate(n: int, signed: bool): int {
    if signed then (n + 0x80) % 0x100 - 0x80 else n % 0x100
  }

  /** to_native for numbers and bools; 8-bit integers are parsed with 32 bits and then cast. */
  function ToNative(ty: Type, token: string): Option<Value> {
    var s := Unquoted(token);
    match ty
    case TBool => Some(VBool(s != "" && s[0] in {'\U{1}', '1', 't', 'T', 'y', 'Y'}))
    case TInt(signed, bits) =>
      (match FromChars(s, signed, if bits == 8 then 32 else bits)
       case None => None
       case Some(n) => Some(VInt(if bits == 8 then Truncate(n, signed) else n)))
    case _ => None
  }

  // ---------- the printer ----------

  function Hex(d: nat): char
    requires d < 16
  {
    "0123456789ABCDEF"[d]
  }

  function Escape(c: char): string {
    if c == '\\' || c == '"' then ['\\', c]
    else if c >= ' ' then [c]
    else if c == '\r' then "\\r"
    else if c == '\n' then "\\n"
    else if c == '\t' then "\\t"
    else if c == '\U{c}' then "\\f"
    else if c == '\U{8}' then "\\b"
    else ['\\', 'u', '0', '0', Hex(c as int / 16), Hex(c as int % 16)]
  }

  /** A control character without an escape of its own. */
  predicate Coded(c: char) {
    c < ' ' && c !in {'\r', '\n', '\t', '\U{c}', '\U{8}'}
  }

  function Escapes(s: string): string {
    if s == "" then "" else Escape(s[0]) + Escapes(s[1..])
  }

  function PrintString(s: string): string {
    "\"" + Escapes(s) + "\""
  }

  function Encode(ty: Type, v: Value): string
    decreases v, 1
  {
    match (ty, v)
    case (TString, VString(s)) => PrintString(s)
    case (TBool, VBool(b)) => if b then "true" else "false"
    case (TInt(_, bits), VInt(n)) => if bits == 64 then "\"" + Print(n) + "\"" else Print(n)
    case (TArray(item), VArray(items)) => "[" + EncodeItems(item, items) + "]"
    case (TObject(fields), VObject(slots)) => "{" + EncodeFields(fields, slots) + "}"
    case _ => ""
  }

  function EncodeItems(item: Type, items: seq<Value>): string
    decreases items, 0
  {
    if items == [] then ""
    else Encode(item, items[0]) + (if |items| > 1 then "," else "") + EncodeItems(item, items[1..])
  }

  function EncodeSlot(ty: Type, slot: Option<Value>): string
    decreases slot, 2
  {
    if slot.None? then "null" else Encode(ty, slot.value)
  }

  function EncodeFields(fields: seq<Field>, slots: seq<Option<Value>>): string
    decreases slots, 0
  {
    if fields == [] || slots == [] then ""
    else
      "\"" + fields[0].name + "\":" + EncodeSlot(fields[0].ty, slots[0])
      + (if |fields| > 1 then "," else "") + EncodeFields(fields[1..], slots[1..])
  }

  // ---------- the input ----------

  /** The unread rest of the stream, and the character carried over from the last read. */
  datatype Input = Input(rest: string, carried: Option<char>)

  function Left(input: Input): nat {
    |input.rest| + if input.carried.Some? then 1 else 0
  }

  datatype Parsed<T> = Ok(value: T, input: Input) | Err | Unmodelled

  predicate IsSpace(c: char) {
    c == ' ' || '\t' <= c <= '\r'
  }

  predicate IsGraph(c: char) {
    '!' <= c <= '~'
  }

  /** Formatted extraction of a character: white space is skipped. */
  function SkipSpaces(rest: string): (r: Parsed<char>)
    ensures r.Ok? ==> |r.input.rest| < |rest| && r.input.carried.None?
    ensures !r.Unmodelled?
  {
    if rest == "" then Err
    else if IsSpace(rest[0]) then SkipSpaces(rest[1..])
    else Ok(rest[0], Input(rest[1..], None))
  }

  /** read_next_c */
  function NextChar(input: Input): (r: Parsed<char>)
    ensures r.Ok? ==> Left(r.input) < Left(input) && r.input.carried.None?
    ensures !r.Unmodelled?
  {
    if input.carried.Some? && IsGraph(input.carried.value) then Ok(input.carried.value, Input(input.rest, None))
    else SkipSpaces(input.rest)
  }

  predicate EndsToken(c: char) {
    c in {'}', ']', ',', ' ', '\t', '\r', '\n'}
  }

  /** The rest of a token, up to the character that ends it, which is carried; there must be one. */
  function TokenRest(rest: string, token: string): (r: Parsed<string>)
    ensures r.Ok? ==> Left(r.input) <= |rest|
    ensures !r.Unmodelled?
  {
    if rest == "" then Err
    else if EndsToken(rest[0]) then Ok(token, Input(rest[1..], Some(rest[0])))
    else TokenRest(rest[1..], token + [rest[0]])
  }

  /** read_next_token, which appends to `token`. */
  function NextToken(input: Input, token: string): (r: Parsed<string>)
    ensures r.Ok? ==> Left(r.input) < Left(input)
    ensures !r.Unmodelled?
  {
    match NextChar(input)
    case Ok(c, next) => TokenRest(next.rest, token + [c])
    case _ => Err
  }

  function HexDigit(c: char): Option<nat> {
    if '0' <= c <= '9' then Some(c as int - '0' as int)
    else if 'A' <= c <= 'F' then Some(c as int - 'A' as int + 10)
    else if 'a' <= c <= 'f' then Some(c as int - 'a' as int + 10)
    else None
  }

  /** The 16-bit value of four hexadecimal digits. */
  function HexValue(s: string): Option<nat>
    requires |s| == 4
  {
    var (a, b, c, d) := (HexDigit(s[0]), HexDigit(s[1]), HexDigit(s[2]), HexDigit(s[3]));
    if a.Some? && b.Some? && c.Some? && d.Some?
    then Some(((a.value * 16 + b.value) * 16 + c.value) * 16 + d.value) else None
  }

  function Byte(n: nat): char {
    (n % 0x100) as char
  }

  /** The UTF-8 form of a character, by section 3 of RFC 3629. */
  function Utf8(cp: nat): string {
    if cp < 0x80 then [Byte(cp)]
    else if cp < 0x800 then [Byte(0xC0 + cp / 0x40), Byte(0x80 + cp % 0x40)]
    else if cp < 0x1_0000 then [Byte(0xE0 + cp / 0x1000), Byte(0x80 + cp / 0x40 % 0x40), Byte(0x80 + cp % 0x40)]
    else [Byte(0xF0 + cp / 0x4_0000), Byte(0x80 + cp / 0x1000 % 0x40), Byte(0x80 + cp / 0x40 % 0x40), Byte(0x80 + cp % 0x40)]
  }

  /** The conversion of UTF-16 code units to UTF-8; a surrogate without its partner is an error. */
  function ToUtf8(units: seq<nat>): Option<string> {
    if units == [] then Some("")
    else
      var u := units[0];
      var pair := 0xD800 <= u < 0xDC00;
      if pair && (|units| == 1 || !(0xDC00 <= units[1] < 0xE000)) then None
      else if 0xDC00 <= u < 0xE000 then None
      else
        match ToUtf8(if pair then units[2..] else units[1..])
        case None => None
        case Some(more) => Some(Utf8(if pair then 0x1_0000 + (u - 0xD800) * 0x400 + (units[1] - 0xDC00) else u) + more)
  }

  /** A backslash escape other than \\u. */
  function Unescape(c: char): string {
    match c
    case 'r' => "\r"
    case 'n' => "\n"
    case 't' => "\t"
    case 'b' => "\U{8}"
    case 'f' => "\U{c}"
    case '"' => "\""
    case '0' => "\0"
    case '\\' => "\\"
    case '/' => "/"
    case _ => ['\\', c]
  }

  /** The loop of read_str behind the opening quote; `units` is the UTF-16 buffer. */
  function StringRest(rest: string, out: string, backslash: bool, units: seq<nat>): (r: Parsed<string>)
    ensures r.Ok? ==> Left(r.input) < |rest| && r.input.carried.None?
    ensures !r.Unmodelled?
    decreases |rest|
  {
    if rest == "" then Err
    else if backslash && rest[0] == 'u' then
      if |rest| < 5 || HexValue(rest[1..5]).None? then Err
      else StringRest(rest[5..], out, false, units + [HexValue(rest[1..5]).value])
    else if !backslash && rest[0] == '\\' then StringRest(rest[1..], out, true, units)
    else
      match ToUtf8(units)
      case None => Err
      case Some(bytes) =>
        if backslash then StringRest(rest[1..], out + bytes + Unescape(rest[0]), false, [])
        else if rest[0] == '"' then Ok(out + bytes, Input(rest[1..], None))
        else StringRest(rest[1..], out + bytes + [rest[0]], false, [])
  }

  /** read_str */
  function ReadString(input: Input): (r: Parsed<string>)
    ensures r.Ok? ==> Left(r.input) < Left(input)
    ensures !r.Unmodelled?
  {
    match NextChar(input)
    case Ok(c, next) => if c == '"' then StringRest(next.rest, "", false, []) else Err
    case _ => Err
  }

  // ---------- the parser ----------

  /** The mapper as a dictionary: of equal names the last one counts. */
  function Find(fields: seq<Field>, name: string): (r: Option<nat>)
    ensures r.Some? ==> r.value < |fields| && fields[r.value].name == name
    ensures r.None? ==> forall i :: 0 <= i < |fields| ==> fields[i].name != name
  {
    if fields == [] then None
    else if fields[|fields| - 1].name == name then Some(|fields| - 1)
    else Find(fields[..|fields| - 1], name)
  }

  /** decode into a value of type `ty` that was `before`: vectors grow, the rest is overwritten. */
  function Decode(ty: Type, before: Value, input: Input, levels: nat): (r: Parsed<Value>)
    ensures r.Ok? ==> Left(r.input) < Left(input)
    decreases levels, Left(input), 2
  {
    if levels == 0 then Err
    else
      match ty
      case TArray(item) =>
        (match NextChar(input)
         case Ok(c, next) => if c == '[' then DecodeItems(item, if before.VArray? then before.items else [], next, levels) else Err
         case _ => Err)
      case TObject(fields) =>
        (match NextChar(input)
         case Ok(c, next) =>
           if c == '{' && before.VObject? && |before.slots| == |fields|
           then DecodeFields(fields, before.slots, next, levels) else Err
         case _ => Err)
      case TString =>
        (match ReadString(input)
         case Ok(s, next) => Ok(VString(s), next)
         case _ => Err)
      case _ =>
        match NextToken(input, "")
        case Ok(token, next) => (match ToNative(ty, token) case Some(v) => Ok(v, next) case None => Err)
        case _ => Err
  }

  /** The loop over the elements of an array. */
  function DecodeItems(item: Type, items: seq<Value>, input: Input, levels: nat): (r: Parsed<Value>)
    requires levels > 0
    ensures r.Ok? ==> Left(r.input) < Left(input)
    decreases levels, Left(input), 1
  {
    match NextChar(input)
    case Ok(c, next) =>
      if c == ']' then Ok(VArray(items), next)
      else
        (match Decode(item, Default(item), Input(next.rest, Some(c)), levels - 1)
         case Ok(v, after) =>
           (match NextChar(after)
            case Ok(d, more) =>
              if d == ']' then Ok(VArray(items + [v]), more)
              else if d == ',' then DecodeItems(item, items + [v], more, levels) else Err
            case _ => Err)
         case Err => Err
         case Unmodelled => Unmodelled)
    case _ => Err
  }

  /** An optional field may be null; else its first character is carried into decode. */
  function DecodeSlot(field: Field, slot: Option<Value>, input: Input, levels: nat): (r: Parsed<Option<Value>>)
    ensures r.Ok? ==> Left(r.input) < Left(input)
    decreases levels, Left(input), 3
  {
    var before := if slot.Some? then slot.value else Default(field.ty);
    if levels == 0 then Err
    else if !field.optional then Present(Decode(field.ty, before, input, levels))
    else
      match NextChar(input)
      case Ok(c, next) =>
        if c == 'n' then
          (match NextToken(next, "n") case Ok(token, after) => if token == "null" then Ok(slot, after) else Err case _ => Err)
        else Present(Decode(field.ty, before, Input(next.rest, Some(c)), levels))
      case _ => Err
  }

  function Present(r: Parsed<Value>): Parsed<Option<Value>> {
    match r
    case Ok(v, input) => Ok(Some(v), input)
    case Err => Err
    case Unmodelled => Unmodelled
  }

  /** The loop over the members of an object. Skipping a member that the type does not have is not modelled. */
  function DecodeFields(fields: seq<Field>, slots: seq<Option<Value>>, input: Input, levels: nat): (r: Parsed<Value>)
    requires levels > 0 && |slots| == |fields|
    ensures r.Ok? ==> Left(r.input) < Left(input)
    decreases levels, Left(input), 1
  {
    match ReadString(input)
    case Ok(key, next) =>
      (match NextChar(next)
       case Ok(colon, after) =>
         if colon != ':' then Err
         else
           (match Find(fields, key)
            case None => Unmodelled
            case Some(i) =>
              (match DecodeSlot(fields[i], slots[i], after, levels - 1)
               case Ok(slot, more) =>
                 (match NextChar(more)
                  case Ok(c, last) =>
                    if c == ',' then DecodeFields(fields, slots[i := slot], last, levels)
                    else if c == '}' then Ok(VObject(slots[i := slot]), last) else Err
                  case _ => Err)
               case Err => Err
               case Unmodelled => Unmodelled))
       case _ => Err)
    case _ => Err
  }

  // ---------- numbers come back ----------

  lemma {:induction false} NumberOfDigits(n: nat)
    ensures Number(Digits(n)) == n
  {
    if n >= 10 {
      NumberOfDigits(n / 10);
      assert Digits(n)[..|Digits(n)| - 1] == Digits(n / 10);
    }
  }

  lemma {:induction false} DigitRunAll(s: string)
    requires AllDigits(s)
    ensures DigitRun(s) == |s|
  {
    if s != "" { DigitRunAll(s[1..]); }
  }

  lemma PrintSigned(n: int, signed: bool, bits: nat)
    requires InRange(n, signed, bits)
    ensures var digits := Digits(if n < 0 then -n else n);
            var negative := signed && Print(n) != "" && Print(n)[0] == '-';
            negative == (n < 0) && (if negative then Print(n)[1..] else Print(n)) == digits
  {
    var digits := Digits(if n < 0 then -n else n);
    hide Digits;
    assert IsDigit(digits[0]);
  }

  lemma FromCharsPrint(n: int, signed: bool, bits: nat)
    requires InRange(n, signed, bits)
    ensures FromChars(Print(n), signed, bits) == Some(n)
  {
    var digits := Digits(if n < 0 then -n else n);
    NumberOfDigits(if n < 0 then -n else n);
    DigitRunAll(digits);
    PrintSigned(n, signed, bits);
    assert digits[..|digits|] == digits;
    hide Digits, Number, InRange, DigitRun, Print;
  }

  lemma Narrow(n: int, signed: bool)
    requires InRange(n, signed, 8)
    ensures InRange(n, signed, 32) && Truncate(n, signed) == n
  {
  }

  function PrintInt(n: int, bits: nat): string {
    if bits == 64 then "\"" + Print(n) + "\"" else Print(n)
  }

  lemma ToNativePrint(ty: Type, n: int)
    requires ty.TInt? && InRange(n, ty.signed, ty.bits)
    ensures ToNative(ty, PrintInt(n, ty.bits)) == Some(VInt(n))
  {
    var parsed := if ty.bits == 8 then 32 else ty.bits;
    if ty.bits == 8 { Narrow(n, ty.signed); }
    FromCharsPrint(n, ty.signed, parsed);
    PrintShape(n);
    hide InRange, Print, FromChars, Truncate;
    assert Unquoted(PrintInt(n, ty.bits)) == Print(n);
  }

  lemma PrintShape(n: int)
    ensures Print(n) != "" && forall c :: c in Print(n) ==> c == '-' || IsDigit(c)
  {
    hide Digits;
  }

  // ---------- strings come back ----------

  predicate Ascii(units: seq<nat>) {
    forall i :: 0 <= i < |units| ==> units[i] < 0x80
  }

  lemma AsciiHead(units: seq<nat>)
    requires units != [] && units[0] < 0x80 && ToUtf8(units[1..]).Some?
    ensures ToUtf8(units) == Some([units[0] as char] + ToUtf8(units[1..]).value)
  {
  }

  lemma {:induction false} AsciiUnits(units: seq<nat>, c: nat)
    requires c < 0x80 && Ascii(units)
    ensures ToUtf8(units).Some? && ToUtf8(units + [c]) == Some(ToUtf8(units).value + [c as char])
  {
    if units == [] {
      assert units + [c] == [c] && [c][1..] == [];
      AsciiHead([c]);
      assert [c as char] + "" == "" + [c as char];
    } else {
      AsciiUnits(units[1..], c);
      assert (units + [c])[1..] == units[1..] + [c];
      AsciiHead(units);
      AsciiHead(units + [c]);
      hide ToUtf8;
      var head, tail := [units[0] as char], ToUtf8(units[1..]).value;
      assert head + (tail + [c as char]) == head + tail + [c as char];
    }
  }

  lemma HexBack(d: nat)
    requires d < 16
    ensures HexDigit(Hex(d)) == Some(d)
  {
  }

  lemma ControlEscape(c: char)
    requires Coded(c)
    ensures |Escape(c)| == 6 && Escape(c)[0] == '\\' && HexValue(Escape(c)[2..6]) == Some(c as int)
  {
    HexBack(c as int / 16);
    HexBack(c as int % 16);
    var e := Escape(c);
    assert e[2..6] == [e[2], e[3], e[4], e[5]];
    assert e[2] == '0' && e[3] == '0';
    hide HexDigit, Hex;
    assert HexDigit('0') == Some(0) by { HexZero(); }
  }

  lemma HexZero()
    ensures HexDigit('0') == Some(0)
  {
  }

  lemma CodedChar(c: char, more: string, out: string, units: seq<nat>)
    requires Coded(c)
    ensures StringRest(Escape(c) + more, out, false, units) == StringRest(more, out, false, units + [c as int])
  {
    var all, e := Escape(c) + more, Escape(c);
    ControlEscape(c);
    assert all[0] == e[0] == '\\' && all[1..][0] == e[1] == 'u';
    assert all[1..][1..5] == e[2..6] && all[1..][5..] == more;
    hide ToUtf8, HexValue, Escape;
    assert StringRest(all, out, false, units) == StringRest(all[1..], out, true, units);
  }

  lemma PlainStep(c: char, more: string, out: string, units: seq<nat>)
    requires c != '\\' && c != '"' && ToUtf8(units).Some?
    ensures StringRest([c] + more, out, false, units) == StringRest(more, out + ToUtf8(units).value + [c], false, [])
  {
    var all := [c] + more;
    assert all[0] == c && all[1..] == more;
    hide ToUtf8, HexValue, Unescape;
  }

  lemma BackslashStep(e: char, more: string, out: string, units: seq<nat>)
    requires e != 'u' && ToUtf8(units).Some?
    ensures StringRest(['\\', e] + more, out, false, units)
         == StringRest(more, out + ToUtf8(units).value + Unescape(e), false, [])
  {
    var all, rest := ['\\', e] + more, [e] + more;
    assert all[0] == '\\' && all[1..] == rest && rest[0] == e && rest[1..] == more;
    hide ToUtf8, HexValue, Unescape;
    assert StringRest(all, out, false, units) == StringRest(rest, out, true, units);
  }

  lemma EscapeShape(c: char)
    requires !Coded(c)
    ensures if c >= ' ' && c != '\\' && c != '"' then Escape(c) == [c]
            else |Escape(c)| == 2 && Escape(c) == ['\\', Escape(c)[1]] && Escape(c)[1] != 'u' && Unescape(Escape(c)[1]) == [c]
  {
  }

  lemma OtherChar(c: char, more: string, out: string, units: seq<nat>)
    requires !Coded(c) && ToUtf8(units).Some?
    ensures StringRest(Escape(c) + more, out, false, units) == StringRest(more, out + ToUtf8(units).value + [c], false, [])
  {
    hide *;
    EscapeShape(c);
    if c >= ' ' && c != '\\' && c != '"' {
      PlainStep(c, more, out, units);
    } else {
      BackslashStep(Escape(c)[1], more, out, units);
    }
  }

  /** One character of a string, and then the rest. */
  lemma EscapedChar(c: char, more: string, out: string, units: seq<nat>)
    requires Ascii(units)
    ensures ToUtf8(units).Some?
    ensures var bytes := ToUtf8(units).value;
            if Coded(c)
            then StringRest(Escape(c) + more, out, false, units) == StringRest(more, out, false, units + [c as int])
            else StringRest(Escape(c) + more, out, false, units) == StringRest(more, out + bytes + [c], false, [])
  {
    hide StringRest, Escape, Coded;
    AsciiUnits(units, 0);
    if Coded(c) { CodedChar(c, more, out, units); } else { OtherChar(c, more, out, units); }
  }

  lemma StringEnd(rest: string, out: string, units: seq<nat>)
    requires ToUtf8(units).Some?
    ensures StringRest("\"" + rest, out, false, units) == Ok(out + ToUtf8(units).value, Input(rest, None))
  {
    assert ("\"" + rest)[1..] == rest;
    hide ToUtf8;
  }

  lemma EscapesStep(s: string, rest: string)
    ensures if s == "" then Escapes(s) + "\"" + rest == "\"" + rest
            else Escapes(s) + "\"" + rest == Escape(s[0]) + (Escapes(s[1..]) + "\"" + rest)
  {
    hide Escape;
  }

  lemma Regroup(a: string, b: string, s: string)
    requires s != ""
    ensures a + (b + [s[0]]) + s[1..] == a + b + s
    ensures (a + b + [s[0]]) + "" + s[1..] == a + b + s
    ensures a + b + "" == a + b
  {
  }

  lemma {:induction false} StringBack(s: string, rest: string, out: string, units: seq<nat>)
    requires Ascii(units)
    ensures ToUtf8(units).Some?
    ensures StringRest(Escapes(s) + "\"" + rest, out, false, units) == Ok(out + ToUtf8(units).value + s, Input(rest, None))
    decreases |s|
  {
    hide StringRest, Escape, Escapes, ToUtf8;
    AsciiUnits(units, 0);
    EscapesStep(s, rest);
    if s == "" {
      StringEnd(rest, out, units);
      assert out + ToUtf8(units).value + s == out + ToUtf8(units).value;
    } else {
      var c, more, bytes := s[0], Escapes(s[1..]) + "\"" + rest, ToUtf8(units).value;
      EscapedChar(c, more, out, units);
      Regroup(out, bytes, s);
      if Coded(c) {
        AsciiUnits(units, c as int);
        StringBack(s[1..], rest, out, units + [c as int]);
      } else {
        StringBack(s[1..], rest, out + bytes + [c], []);
        NoUnits();
      }
    }
  }

  lemma NoUnits()
    ensures ToUtf8([]) == Some("")
  {
  }

  // ---------- escapes of any character ----------

  predicate IsScalar(cp: nat) {
    cp < 0xD800 || 0xE000 <= cp < 0x11_0000
  }

  /** The UTF-16 form of a character: one unit or a surrogate pair. */
  function Utf16(cp: nat): seq<nat> {
    if cp < 0x1_0000 then [cp] else [0xD800 + (cp - 0x1_0000) / 0x400, 0xDC00 + (cp - 0x1_0000) % 0x400]
  }

  lemma PairJoins(cp: nat)
    requires 0x1_0000 <= cp < 0x11_0000
    ensures var units := Utf16(cp);
            0xD800 <= units[0] < 0xDC00 && 0xDC00 <= units[1] < 0xE000
            && 0x1_0000 + (units[0] - 0xD800) * 0x400 + (units[1] - 0xDC00) == cp
  {
  }

  lemma Utf16Back(cp: nat)
    requires IsScalar(cp)
    ensures ToUtf8(Utf16(cp)) == Some(Utf8(cp))
  {
    var units := Utf16(cp);
    NoUnits();
    assert Utf8(cp) + "" == Utf8(cp);
    hide Utf8;
    if cp < 0x1_0000 {
      assert units[1..] == [];
    } else {
      PairJoins(cp);
      assert units[2..] == [];
      hide Utf16;
    }
  }

  /** The escape of one UTF-16 unit. */
  function UnitEscape(u: nat): string
    requires u < 0x1_0000
  {
    ['\\', 'u', Hex(u / 0x1000), Hex(u / 0x100 % 16), Hex(u / 0x10 % 16), Hex(u % 16)]
  }

  lemma UnitDigits(u: nat)
    requires u < 0x1_0000
    ensures ((u / 0x1000 * 16 + u / 0x100 % 16) * 16 + u / 0x10 % 16) * 16 + u % 16 == u
  {
  }

  lemma UnitRead(u: nat, more: string, out: string, units: seq<nat>)
    requires u < 0x1_0000
    ensures StringRest(UnitEscape(u) + more, out, false, units) == StringRest(more, out, false, units + [u])
  {
    var e, all := UnitEscape(u), UnitEscape(u) + more;
    HexBack(u / 0x1000);
    HexBack(u / 0x100 % 16);
    HexBack(u / 0x10 % 16);
    HexBack(u % 16);
    UnitDigits(u);
    assert e[2..6] == [e[2], e[3], e[4], e[5]];
    hide HexDigit, Hex, ToUtf8;
    assert HexValue(e[2..6]) == Some(u);
    assert all[0] == e[0] == '\\' && all[1..][0] == e[1] == 'u';
    assert all[1..][1..5] == e[2..6] && all[1..][5..] == more;
    hide HexValue;
    assert StringRest(all, out, false, units) == StringRest(all[1..], out, true, units);
  }

  function CharEscape(cp: nat): string
    requires IsScalar(cp)
  {
    if cp < 0x1_0000 then UnitEscape(cp) else UnitEscape(Utf16(cp)[0]) + UnitEscape(Utf16(cp)[1])
  }

  lemma EscapeParts(cp: nat, rest: string)
    requires IsScalar(cp)
    ensures cp < 0x1_0000 ==>
      Utf16(cp) == [cp] && CharEscape(cp) + "\"" + rest == UnitEscape(cp) + ("\"" + rest)
    ensures cp >= 0x1_0000 ==>
      var units := Utf16(cp);
      units == [units[0], units[1]] && units[0] < 0x1_0000 && units[1] < 0x1_0000
      && CharEscape(cp) + "\"" + rest == UnitEscape(units[0]) + (UnitEscape(units[1]) + ("\"" + rest))
  {
    hide UnitEscape;
  }

  /** Every character written as an escape, by section 7 of RFC 8259, is read as its UTF-8 form. */
  lemma CharEscapeBack(cp: nat, rest: string, out: string)
    requires IsScalar(cp)
    ensures StringRest(CharEscape(cp) + "\"" + rest, out, false, []) == Ok(out + Utf8(cp), Input(rest, None))
  {
    hide *;
    var units := Utf16(cp);
    Utf16Back(cp);
    EscapeParts(cp, rest);
    if cp < 0x1_0000 {
      UnitRead(cp, "\"" + rest, out, []);
      assert [] + [cp] == units;
    } else {
      UnitRead(units[0], UnitEscape(units[1]) + ("\"" + rest), out, []);
      UnitRead(units[1], "\"" + rest, out, [] + [units[0]]);
      assert [] + [units[0]] + [units[1]] == units;
    }
    StringEnd(rest, out, units);
  }

  // ---------- what others can rely on ----------

  /** Printed strings have no raw control characters and no bare quotes, as section 7 of RFC 8259 asks. */
  lemma {:induction false} EscapesAreClean(s: string)
    ensures forall i :: 0 <= i < |Escapes(s)| ==> Escapes(s)[i] >= ' '
    ensures forall i :: 0 <= i < |Escapes(s)| && Escapes(s)[i] == '"' ==> i > 0 && Escapes(s)[i - 1] == '\\'
  {
    if s != "" {
      EscapesAreClean(s[1..]);
      EscapeIsClean(s[0]);
      hide Escape;
    }
  }

  lemma EscapeIsClean(c: char)
    ensures forall i :: 0 <= i < |Escape(c)| ==> Escape(c)[i] >= ' '
    ensures forall i :: 0 <= i < |Escape(c)| && Escape(c)[i] == '"' ==> i > 0 && Escape(c)[i - 1] == '\\'
  {
  }

  /** A number printed without quotes is exact in a double, which is all a JavaScript reader has. */
  lemma BareNumbersAreExact(ty: Type, v: Value)
    requires TypeOk(ty) && ty.TInt? && Fits(ty, v) && !("\"" <= Encode(ty, v))
    ensures -0x20_0000_0000_0000 < v.n < 0x20_0000_0000_0000
  {
    hide Print;
  }

  // ---------- reading what is there ----------

  /** The parser is about to read `s`: nothing is carried, or its first character is. */
  predicate Stands(input: Input, s: string) {
    input == Input(s, None) || (s != "" && IsGraph(s[0]) && input == Input(s[1..], Some(s[0])))
  }

  /** What may follow a value inside an array or object. */
  predicate Follows(rest: string) {
    rest != "" && rest[0] in {',', ']', '}'}
  }

  lemma NextStands(input: Input, s: string)
    requires s != "" && IsGraph(s[0]) && Stands(input, s)
    ensures NextChar(input) == Ok(s[0], Input(s[1..], None))
    ensures Stands(Input(s[1..], Some(s[0])), s) && Stands(Input(s[1..], None), s[1..])
  {
  }

  lemma ReadStringBack(input: Input, s: string, rest: string)
    requires Stands(input, PrintString(s) + rest)
    ensures ReadString(input) == Ok(s, Input(rest, None))
  {
    var all := PrintString(s) + rest;
    assert all[0] == '"' && all[1..] == Escapes(s) + "\"" + rest;
    NextStands(input, all);
    StringBack(s, rest, "", []);
    NoUnits();
    hide StringRest, Escapes, ToUtf8, Stands, NextChar;
    assert "" + "" + s == s;
  }

  lemma {:induction false} TokenBack(token: string, rest: string, before: string)
    requires Follows(rest) && forall i :: 0 <= i < |token| ==> !EndsToken(token[i])
    ensures TokenRest(token + rest, before) == Ok(before + token, Input(rest[1..], Some(rest[0])))
  {
    if token == "" {
      assert token + rest == rest && before + token == before;
    } else {
      TokenBack(token[1..], rest, before + [token[0]]);
      assert (token + rest)[1..] == token[1..] + rest;
      assert before + [token[0]] + token[1..] == before + token;
    }
  }

  lemma NextTokenBack(input: Input, token: string, rest: string, before: string)
    requires Follows(rest) && Stands(input, token + rest) && token != "" && IsGraph(token[0])
    requires forall i :: 0 <= i < |token| ==> !EndsToken(token[i])
    ensures NextToken(input, before) == Ok(before + token, Input(rest[1..], Some(rest[0])))
    ensures Stands(Input(rest[1..], Some(rest[0])), rest)
  {
    NextStands(input, token + rest);
    assert (token + rest)[1..] == token[1..] + rest;
    TokenBack(token[1..], rest, before + [token[0]]);
    assert before + [token[0]] + token[1..] == before + token;
    hide TokenRest, NextChar;
  }

  // ---------- parsing what was printed ----------

  /** No printed value starts like a null or a closing bracket, and each starts visibly. */
  lemma FirstChar(ty: Type, v: Value)
    requires TypeOk(ty) && Fits(ty, v)
    ensures Encode(ty, v) != "" && IsGraph(Encode(ty, v)[0]) && Encode(ty, v)[0] !in {'n', ']', '}'}
  {
    if ty.TInt? { PrintShape(v.n); }
    hide Print, Escapes, EncodeItems, EncodeFields, TypeOk;
  }

  predicate IsNumeric(ty: Type) {
    ty.TInt? || ty.TBool?
  }

  lemma BoolToken(b: bool)
    ensures var text := if b then "true" else "false";
            (forall i :: 0 <= i < |text| ==> !EndsToken(text[i])) && ToNative(TBool, text) == Some(VBool(b))
  {
  }

  lemma IntToken(ty: Type, n: int)
    requires ty.TInt? && InRange(n, ty.signed, ty.bits)
    ensures var text := PrintInt(n, ty.bits);
            (forall i :: 0 <= i < |text| ==> !EndsToken(text[i])) && ToNative(ty, text) == Some(VInt(n))
  {
    PrintShape(n);
    ToNativePrint(ty, n);
    hide Print, InRange, ToNative;
  }

  /** A printed number or bool is one token. */
  lemma NumericToken(ty: Type, v: Value)
    requires IsNumeric(ty) && Fits(ty, v)
    ensures forall i :: 0 <= i < |Encode(ty, v)| ==> !EndsToken(Encode(ty, v)[i])
    ensures ToNative(ty, Encode(ty, v)) == Some(v)
  {
    if ty.TInt? { IntToken(ty, v.n); } else { BoolToken(v.b); }
    hide Print, InRange, ToNative, EndsToken;
  }

  /** What decode should do in front of a printed value. */
  ghost predicate Back(ty: Type, v: Value, r: Parsed<Value>, rest: string) {
    r.Ok? && r.value == v && Stands(r.input, rest) && (!IsNumeric(ty) ==> r.input == Input(rest, None))
  }

  lemma NumericDecodes(ty: Type, before: Value, input: Input, levels: nat, token: string, next: Input, v: Value)
    requires IsNumeric(ty) && levels > 0 && NextToken(input, "") == Ok(token, next) && ToNative(ty, token) == Some(v)
    ensures Decode(ty, before, input, levels) == Ok(v, next)
  {
  }

  lemma NumericBack(ty: Type, v: Value, before: Value, input: Input, rest: string, levels: nat)
    requires IsNumeric(ty) && TypeOk(ty) && Fits(ty, v) && levels > 0
    requires Stands(input, Encode(ty, v) + rest) && Follows(rest)
    ensures Back(ty, v, Decode(ty, before, input, levels), rest)
  {
    var e := Encode(ty, v);
    hide Encode, Stands, NextToken, ToNative, EndsToken, TypeOk, Fits, Decode, IsGraph;
    FirstChar(ty, v);
    NumericToken(ty, v);
    NextTokenBack(input, e, rest, "");
    assert "" + e == e;
    NumericDecodes(ty, before, input, levels, e, Input(rest[1..], Some(rest[0])), v);
  }

  lemma StringValueBack(ty: Type, v: Value, before: Value, input: Input, rest: string, levels: nat)
    requires ty.TString? && Fits(ty, v) && levels > 0 && Stands(input, Encode(ty, v) + rest)
    ensures Back(ty, v, Decode(ty, before, input, levels), rest)
  {
    ReadStringBack(input, v.s, rest);
    hide PrintString, ReadString;
  }

  lemma {:induction false} DecodeEncode(ty: Type, v: Value, input: Input, rest: string, levels: nat)
    requires TypeOk(ty) && Fits(ty, v) && Within(v, levels)
    requires Stands(input, Encode(ty, v) + rest) && (IsNumeric(ty) ==> Follows(rest))
    ensures Back(ty, v, Decode(ty, Default(ty), input, levels), rest)
    decreases v, 1
  {
    match ty
    case TArray(item) => ArrayBack(item, v.items, input, rest, levels);
    case TObject(fields) => ObjectBack(fields, v.slots, input, rest, levels);
    case TString => StringValueBack(ty, v, Default(ty), input, rest, levels);
    case _ => NumericBack(ty, v, Default(ty), input, rest, levels);
  }

  lemma ArrayOpens(item: Type, items: seq<Value>, input: Input, rest: string, levels: nat)
    requires Stands(input, Encode(TArray(item), VArray(items)) + rest) && levels > 0
    ensures Decode(TArray(item), VArray([]), input, levels)
         == DecodeItems(item, [], Input(EncodeItems(item, items) + "]" + rest, None), levels)
  {
    var all := Encode(TArray(item), VArray(items)) + rest;
    assert all[0] == '[' && all[1..] == EncodeItems(item, items) + "]" + rest;
    NextStands(input, all);
    hide EncodeItems, DecodeItems, NextChar, Stands;
  }

  lemma {:induction false} ArrayBack(item: Type, items: seq<Value>, input: Input, rest: string, levels: nat)
    requires TypeOk(TArray(item)) && Fits(TArray(item), VArray(items)) && Within(VArray(items), levels)
    requires Stands(input, Encode(TArray(item), VArray(items)) + rest)
    ensures Back(TArray(item), VArray(items), Decode(TArray(item), VArray([]), input, levels), rest)
    decreases items, 2
  {
    ArrayOpens(item, items, input, rest, levels);
    ItemsBack(item, [], items, Input(EncodeItems(item, items) + "]" + rest, None), rest, levels);
    assert [] + items == items;
    hide Encode, EncodeItems, Decode, DecodeItems, NextChar, Fits, Within;
  }

  /** What comes behind element 0 of the elements still to be read. */
  function ItemsTail(item: Type, items: seq<Value>, rest: string): string
    requires items != []
  {
    if |items| == 1 then "]" + rest else "," + (EncodeItems(item, items[1..]) + "]" + rest)
  }

  lemma Regrouped(a: string, b: string, c: string, rest: string)
    ensures a + b + c + "]" + rest == a + (b + (c + "]" + rest))
    ensures a + "" + "" + "]" + rest == a + ("]" + rest)
  {
  }

  lemma ItemsSplit(item: Type, items: seq<Value>, rest: string)
    requires items != []
    ensures EncodeItems(item, items) + "]" + rest == Encode(item, items[0]) + ItemsTail(item, items, rest)
    ensures Follows(ItemsTail(item, items, rest))
  {
    hide Encode;
    var more := EncodeItems(item, items[1..]);
    Regrouped(Encode(item, items[0]), ",", more, rest);
    if |items| == 1 { assert more == ""; }
    assert EncodeItems(item, items) == Encode(item, items[0]) + (if |items| > 1 then "," else "") + more;
    hide EncodeItems;
  }

  lemma ItemFacts(item: Type, items: seq<Value>, levels: int)
    requires Fits(TArray(item), VArray(items)) && Within(VArray(items), levels) && items != []
    ensures levels > 0 && Fits(item, items[0]) && Within(items[0], levels - 1) && levels > 1
    ensures Fits(TArray(item), VArray(items[1..])) && Within(VArray(items[1..]), levels)
  {
  }

  lemma NoItems(item: Type, done: seq<Value>, input: Input, rest: string, levels: nat)
    requires levels > 0 && Stands(input, EncodeItems(item, []) + "]" + rest)
    ensures DecodeItems(item, done, input, levels) == Ok(VArray(done), Input(rest, None))
  {
    assert EncodeItems(item, []) + "]" + rest == "]" + rest;
    NextStands(input, "]" + rest);
    assert ("]" + rest)[1..] == rest;
  }

  lemma TailStep(item: Type, items: seq<Value>, rest: string)
    requires items != []
    ensures var tail := ItemsTail(item, items, rest);
            tail != "" && if |items| == 1 then tail[0] == ']' && tail[1..] == rest
                          else tail[0] == ',' && tail[1..] == EncodeItems(item, items[1..]) + "]" + rest
  {
    hide EncodeItems;
  }

  lemma Head(e: string, tail: string)
    requires e != ""
    ensures e + tail != "" && (e + tail)[0] == e[0]
  {
  }

  lemma OneMore(done: seq<Value>, items: seq<Value>)
    requires items != []
    ensures done + [items[0]] + items[1..] == done + items
    ensures |items| == 1 ==> done + [items[0]] == done + items
  {
  }

  lemma {:induction false} FirstItemBack(item: Type, done: seq<Value>, items: seq<Value>, input: Input, rest: string, levels: nat)
    requires TypeOk(item) && Fits(TArray(item), VArray(items)) && Within(VArray(items), levels) && items != []
    requires Stands(input, EncodeItems(item, items) + "]" + rest)
    ensures DecodeItems(item, done, input, levels)
         == if |items| == 1 then Ok(VArray(done + [items[0]]), Input(rest, None))
            else DecodeItems(item, done + [items[0]], Input(EncodeItems(item, items[1..]) + "]" + rest, None), levels)
    decreases items, 0
  {
    hide *;
    var e, tail := Encode(item, items[0]), ItemsTail(item, items, rest);
    ItemFacts(item, items, levels);
    ItemsSplit(item, items, rest);
    FirstChar(item, items[0]);
    Head(e, tail);
    NextStands(input, e + tail);
    TailStep(item, items, rest);
    DecodeEncode(item, items[0], Input((e + tail)[1..], Some(e[0])), tail, levels - 1);
    ItemRead(item, done, items[0], input, e + tail, tail, levels);
  }

  lemma {:induction false} ItemsBack(item: Type, done: seq<Value>, items: seq<Value>, input: Input, rest: string, levels: nat)
    requires TypeOk(item) && Fits(TArray(item), VArray(items)) && Within(VArray(items), levels)
    requires Stands(input, EncodeItems(item, items) + "]" + rest)
    ensures DecodeItems(item, done, input, levels) == Ok(VArray(done + items), Input(rest, None))
    decreases items, 1
  {
    if items == [] {
      NoItems(item, done, input, rest, levels);
      assert done + items == done;
    } else {
      hide *;
      FirstItemBack(item, done, items, input, rest, levels);
      OneMore(done, items);
      ItemFacts(item, items, levels);
      if |items| > 1 {
        Stood(EncodeItems(item, items[1..]) + "]" + rest);
        ItemsBack(item, done + [items[0]], items[1..], Input(EncodeItems(item, items[1..]) + "]" + rest, None), rest, levels);
      }
    }
  }

  lemma Stood(s: string)
    ensures Stands(Input(s, None), s)
  {
  }

  /** One round of the loop over the elements. */
  lemma ItemRead(item: Type, done: seq<Value>, v: Value, input: Input, all: string, tail: string, levels: nat)
    requires levels > 0 && all != "" && NextChar(input) == Ok(all[0], Input(all[1..], None)) && all[0] != ']'
    requires Back(item, v, Decode(item, Default(item), Input(all[1..], Some(all[0])), levels - 1), tail)
    requires tail != "" && tail[0] in {',', ']'}
    ensures DecodeItems(item, done, input, levels)
         == if tail[0] == ']' then Ok(VArray(done + [v]), Input(tail[1..], None))
            else DecodeItems(item, done + [v], Input(tail[1..], None), levels)
  {
    NextStands(Decode(item, Default(item), Input(all[1..], Some(all[0])), levels - 1).input, tail);
    hide Decode, NextChar, Stands, Default;
  }

  // ---------- objects ----------

  lemma {:induction false} PlainBack(name: string, rest: string, out: string)
    requires Plain(name)
    ensures StringRest(name + "\"" + rest, out, false, []) == Ok(out + name, Input(rest, None))
    decreases |name|
  {
    NoUnits();
    if name == "" {
      StringEnd(rest, out, []);
      assert name + "\"" + rest == "\"" + rest && out + "" == out + name;
    } else {
      PlainBack(name[1..], rest, out + "" + [name[0]]);
      assert (name + "\"" + rest)[1..] == name[1..] + "\"" + rest;
      assert out + "" + [name[0]] + name[1..] == out + name;
    }
  }

  lemma KeyBack(input: Input, name: string, rest: string)
    requires Plain(name) && Stands(input, "\"" + name + "\"" + rest)
    ensures ReadString(input) == Ok(name, Input(rest, None))
  {
    var all := "\"" + name + "\"" + rest;
    assert all[0] == '"' && all[1..] == name + "\"" + rest;
    NextStands(input, all);
    PlainBack(name, rest, "");
    assert "" + name == name;
    hide StringRest, Stands, NextChar;
  }

  lemma {:induction false} FindBack(fields: seq<Field>, k: nat)
    requires k < |fields| && UniqueNames(fields)
    ensures Find(fields, fields[k].name) == Some(k)
  {
    var last := |fields| - 1;
    if k < last {
      assert fields[last].name != fields[k].name;
      FindBack(fields[..last], k);
    }
  }

  function DefaultSlot(field: Field): Option<Value> {
    if field.optional then None else Some(Default(field.ty))
  }

  /** What comes behind the value of field `k`. */
  function FieldsTail(fields: seq<Field>, slots: seq<Option<Value>>, k: nat, rest: string): string
    requires k < |fields| == |slots|
  {
    if k + 1 == |fields| then "}" + rest else "," + (EncodeFields(fields[k + 1..], slots[k + 1..]) + "}" + rest)
  }

  lemma MembersRegrouped(name: string, value: string, comma: string, more: string, rest: string)
    ensures "\"" + name + "\":" + value + comma + more + "}" + rest
         == "\"" + name + "\"" + (":" + (value + (comma + (more + "}" + rest))))
    ensures "" + ("" + "}" + rest) == "}" + rest
    ensures ("," + (more + "}" + rest))[1..] == more + "}" + rest && ("}" + rest)[1..] == rest
  {
  }

  lemma FieldsSplit(fields: seq<Field>, slots: seq<Option<Value>>, k: nat, rest: string)
    requires k < |fields| == |slots|
    ensures var tail := FieldsTail(fields, slots, k, rest);
            EncodeFields(fields[k..], slots[k..]) + "}" + rest
            == "\"" + fields[k].name + "\"" + (":" + (EncodeSlot(fields[k].ty, slots[k]) + tail))
            && Follows(tail) && tail != "" && tail[0] in {',', '}'} && (tail[0] == '}' <==> k + 1 == |fields|)
            && tail[1..] == (if k + 1 == |fields| then rest else EncodeFields(fields[k + 1..], slots[k + 1..]) + "}" + rest)
  {
    assert fields[k..][1..] == fields[k + 1..] && slots[k..][1..] == slots[k + 1..];
    var value, more := EncodeSlot(fields[k].ty, slots[k]), EncodeFields(fields[k + 1..], slots[k + 1..]);
    var comma := if k + 1 < |fields| then "," else "";
    hide EncodeSlot;
    assert EncodeFields(fields[k..], slots[k..]) == "\"" + fields[k].name + "\":" + value + comma + more;
    assert k + 1 == |fields| ==> more == "";
    hide EncodeFields;
    MembersRegrouped(fields[k].name, value, comma, more, rest);
  }

  lemma NullBack(field: Field, tail: string, levels: nat)
    requires field.optional && levels > 0 && Follows(tail)
    ensures var r := DecodeSlot(field, None, Input("null" + tail, None), levels);
            r.Ok? && r.value == None && Stands(r.input, tail)
  {
    var all := "null" + tail;
    NextStands(Input(all, None), all);
    assert all[1..] == "ull" + tail;
    NextTokenBack(Input(all[1..], None), "ull", tail, "n");
    assert "n" + "ull" == "null";
    hide NextToken, NextChar, Decode;
  }

  lemma {:induction false} SlotBack(field: Field, slot: Option<Value>, tail: string, levels: nat)
    requires TypeOk(field.ty) && levels > 0 && Follows(tail)
    requires if slot.None? then field.optional else Fits(field.ty, slot.value) && Within(slot.value, levels)
    ensures var r := DecodeSlot(field, DefaultSlot(field), Input(EncodeSlot(field.ty, slot) + tail, None), levels);
            r.Ok? && r.value == slot && Stands(r.input, tail)
    decreases slot, 3
  {
    if slot.None? {
      NullBack(field, tail, levels);
    } else {
      var e := Encode(field.ty, slot.value);
      var all := e + tail;
      FirstChar(field.ty, slot.value);
      assert all[0] == e[0];
      NextStands(Input(all, None), all);
      DecodeEncode(field.ty, slot.value, if field.optional then Input(all[1..], Some(all[0])) else Input(all, None), tail, levels);
      hide Decode, Default, NextChar, Encode, Stands;
    }
  }

  /** One round of the loop over the members. */
  lemma FieldRead(fields: seq<Field>, slots: seq<Option<Value>>, k: nat, slot: Option<Value>, input: Input, value: string,
                  tail: string, levels: nat)
    requires levels > 1 && k < |fields| == |slots| && UniqueNames(fields) && Plain(fields[k].name)
    requires Stands(input, "\"" + fields[k].name + "\"" + (":" + value)) && tail != "" && tail[0] in {',', '}'}
    requires var r := DecodeSlot(fields[k], slots[k], Input(value, None), levels - 1);
             r.Ok? && r.value == slot && Stands(r.input, tail)
    ensures DecodeFields(fields, slots, input, levels)
         == if tail[0] == '}' then Ok(VObject(slots[k := slot]), Input(tail[1..], None))
            else DecodeFields(fields, slots[k := slot], Input(tail[1..], None), levels)
  {
    KeyBack(input, fields[k].name, ":" + value);
    NextStands(Input(":" + value, None), ":" + value);
    assert (":" + value)[1..] == value;
    FindBack(fields, k);
    NextStands(DecodeSlot(fields[k], slots[k], Input(value, None), levels - 1).input, tail);
    hide ReadString, NextChar, DecodeSlot, Stands, Find, Plain, UniqueNames;
  }

  /** Fields before `k` are read, the others still have their defaults. */
  predicate Partial(fields: seq<Field>, slots: seq<Option<Value>>, now: seq<Option<Value>>, k: nat) {
    |now| == |slots| == |fields|
    && forall i :: 0 <= i < |fields| ==> now[i] == if i < k then slots[i] else DefaultSlot(fields[i])
  }

  lemma SlotFacts(fields: seq<Field>, slots: seq<Option<Value>>, k: nat, levels: int)
    requires TypeOk(TObject(fields)) && Fits(TObject(fields), VObject(slots)) && Within(VObject(slots), levels)
    requires k < |fields|
    ensures levels > 1 && |slots| == |fields| && TypeOk(fields[k].ty) && UniqueNames(fields) && Plain(fields[k].name)
    ensures if slots[k].None? then fields[k].optional else Fits(fields[k].ty, slots[k].value) && Within(slots[k].value, levels - 1)
  {
  }

  lemma PartialNext(fields: seq<Field>, slots: seq<Option<Value>>, now: seq<Option<Value>>, k: nat)
    requires k < |fields| && Partial(fields, slots, now, k)
    ensures |now| == |slots| == |fields| && now[k] == DefaultSlot(fields[k])
    ensures Partial(fields, slots, now[k := slots[k]], k + 1)
    ensures k + 1 == |fields| ==> now[k := slots[k]] == slots
  {
    hide DefaultSlot;
  }

  lemma {:induction false} FieldsBack(fields: seq<Field>, slots: seq<Option<Value>>, now: seq<Option<Value>>, k: nat,
                                      input: Input, rest: string, levels: nat)
    requires TypeOk(TObject(fields)) && Fits(TObject(fields), VObject(slots)) && Within(VObject(slots), levels)
    requires k < |fields| == |slots| && Partial(fields, slots, now, k)
    requires Stands(input, EncodeFields(fields[k..], slots[k..]) + "}" + rest)
    ensures |now| == |fields| && levels > 0
    ensures DecodeFields(fields, now, input, levels) == Ok(VObject(slots), Input(rest, None))
    decreases slots, |fields| - k
  {
    hide *;
    var tail := FieldsTail(fields, slots, k, rest);
    SlotFacts(fields, slots, k, levels);
    FieldsSplit(fields, slots, k, rest);
    PartialNext(fields, slots, now, k);
    SlotBack(fields[k], slots[k], tail, levels - 1);
    FieldRead(fields, now, k, slots[k], input, EncodeSlot(fields[k].ty, slots[k]) + tail, tail, levels);
    if k + 1 < |fields| {
      Stood(tail[1..]);
      FieldsBack(fields, slots, now[k := slots[k]], k + 1, Input(tail[1..], None), rest, levels);
    }
  }

  lemma ObjectOpens(fields: seq<Field>, slots: seq<Option<Value>>, before: seq<Option<Value>>, input: Input, rest: string, levels: nat)
    requires Stands(input, Encode(TObject(fields), VObject(slots)) + rest) && levels > 0 && |before| == |fields|
    ensures Decode(TObject(fields), VObject(before), input, levels)
         == DecodeFields(fields, before, Input(EncodeFields(fields, slots) + "}" + rest, None), levels)
  {
    var all := Encode(TObject(fields), VObject(slots)) + rest;
    assert all[0] == '{' && all[1..] == EncodeFields(fields, slots) + "}" + rest;
    NextStands(input, all);
    hide EncodeFields, DecodeFields, NextChar, Stands;
  }

  lemma {:induction false} ObjectBack(fields: seq<Field>, slots: seq<Option<Value>>, input: Input, rest: string, levels: nat)
    requires TypeOk(TObject(fields)) && Fits(TObject(fields), VObject(slots)) && Within(VObject(slots), levels)
    requires Stands(input, Encode(TObject(fields), VObject(slots)) + rest)
    ensures Back(TObject(fields), VObject(slots), Decode(TObject(fields), Default(TObject(fields)), input, levels), rest)
    decreases slots, |fields| + 1
  {
    var before := Default(TObject(fields)).slots;
    SlotFacts(fields, slots, 0, levels);
    ObjectOpens(fields, slots, before, input, rest, levels);
    assert fields[0..] == fields && slots[0..] == slots && Partial(fields, slots, before, 0);
    FieldsBack(fields, slots, before, 0, Input(EncodeFields(fields, slots) + "}" + rest, None), rest, levels);
    hide Encode, EncodeFields, Decode, DecodeFields, NextChar, TypeOk, Fits, Within;
  }

  /** What the printer writes for an object or a vector, the parser reads back, and nothing more. */
  lemma RoundTrip(ty: Type, v: Value, rest: string, maxDepth: nat)
    requires ty.TObject? || ty.TArray?
    requires TypeOk(ty) && Fits(ty, v) && Within(v, maxDepth)
    ensures Decode(ty, Default(ty), Input(Encode(ty, v) + rest, None), maxDepth) == Ok(v, Input(rest, None))
  {
    DecodeEncode(ty, v, Input(Encode(ty, v) + rest, None), rest, maxDepth);
  }

  // ---------- any input ----------

  predicate SlotFits(field: Field, slot: Option<Value>) {
    if slot.None? then field.optional else Fits(field.ty, slot.value)
  }

  lemma TruncateRange(n: int, signed: bool)
    ensures InRange(Truncate(n, signed), signed, 8)
  {
  }

  lemma NumericFits(ty: Type, token: string)
    requires TypeOk(ty)
    ensures ToNative(ty, token).Some? ==> Fits(ty, ToNative(ty, token).value)
  {
    hide Truncate, InRange, Unquoted;
    if ty.TInt? && FromChars(Unquoted(token), ty.signed, if ty.bits == 8 then 32 else ty.bits).Some? {
      TruncateRange(FromChars(Unquoted(token), ty.signed, if ty.bits == 8 then 32 else ty.bits).value, ty.signed);
    }
  }

  lemma {:induction false} DefaultFits(ty: Type)
    ensures Fits(ty, Default(ty))
  {
    if ty.TObject? {
      forall i | 0 <= i < |ty.fields| && !ty.fields[i].optional ensures Fits(ty.fields[i].ty, Default(ty.fields[i].ty)) {
        DefaultFits(ty.fields[i].ty);
      }
    }
  }

  /** Whatever the input, a parse that succeeds yields a value of the type. */
  lemma {:induction false} DecodeFits(ty: Type, before: Value, input: Input, levels: nat)
    requires TypeOk(ty) && Fits(ty, before)
    ensures Decode(ty, before, input, levels).Ok? ==> Fits(ty, Decode(ty, before, input, levels).value)
    decreases levels, Left(input), 2
  {
    if levels > 0 {
      match ty
      case TArray(item) =>
        if NextChar(input).Ok? { ItemsFit(item, before.items, NextChar(input).input, levels); }
        hide DecodeItems;
      case TObject(fields) =>
        if NextChar(input).Ok? { FieldsFit(fields, before.slots, NextChar(input).input, levels); }
        hide DecodeFields;
      case TString =>
      case _ => if NextToken(input, "").Ok? { NumericFits(ty, NextToken(input, "").value); }
    }
  }

  lemma {:induction false} ItemsFit(item: Type, items: seq<Value>, input: Input, levels: nat)
    requires TypeOk(item) && Fits(TArray(item), VArray(items)) && levels > 0
    ensures DecodeItems(item, items, input, levels).Ok? ==>
      Fits(TArray(item), DecodeItems(item, items, input, levels).value)
    decreases levels, Left(input), 1
  {
    hide Decode, NextChar, Default;
    if NextChar(input).Ok? {
      DefaultFits(item);
      var c, next := NextChar(input).value, NextChar(input).input;
      var r := Decode(item, Default(item), Input(next.rest, Some(c)), levels - 1);
      DecodeFits(item, Default(item), Input(next.rest, Some(c)), levels - 1);
      if c != ']' && r.Ok? && NextChar(r.input).Ok? && NextChar(r.input).value == ',' {
        ItemsFit(item, items + [r.value], NextChar(r.input).input, levels);
      }
    }
  }

  lemma {:induction false} SlotsFit(field: Field, slot: Option<Value>, input: Input, levels: nat)
    requires TypeOk(field.ty) && SlotFits(field, slot)
    ensures DecodeSlot(field, slot, input, levels).Ok? ==> SlotFits(field, DecodeSlot(field, slot, input, levels).value)
    decreases levels, Left(input), 3
  {
    hide Decode, NextChar, Default, NextToken;
    DefaultFits(field.ty);
    var before := if slot.Some? then slot.value else Default(field.ty);
    DecodeFits(field.ty, before, input, levels);
    if NextChar(input).Ok? {
      DecodeFits(field.ty, before, Input(NextChar(input).input.rest, Some(NextChar(input).value)), levels);
    }
  }

  lemma {:induction false} FieldsFit(fields: seq<Field>, slots: seq<Option<Value>>, input: Input, levels: nat)
    requires TypeOk(TObject(fields)) && Fits(TObject(fields), VObject(slots)) && levels > 0
    ensures DecodeFields(fields, slots, input, levels).Ok? ==>
      Fits(TObject(fields), DecodeFields(fields, slots, input, levels).value)
    decreases levels, Left(input), 1
  {
    hide DecodeSlot, NextChar, ReadString, Find;
    if ReadString(input).Ok? && NextChar(ReadString(input).input).Ok? && Find(fields, ReadString(input).value).Some? {
      var after, i := NextChar(ReadString(input).input).input, Find(fields, ReadString(input).value).value;
      SlotsFit(fields[i], slots[i], after, levels - 1);
      var r := DecodeSlot(fields[i], slots[i], after, levels - 1);
      if r.Ok? && NextChar(r.input).Ok? && NextChar(r.input).value == ',' {
        FieldsFit(fields, slots[i := r.value], NextChar(r.input).input, levels);
      }
    }
  }

  // ---------- the scanning loops ----------

  lemma {:induction false} EscapesSnoc(s: string, c: char)
    ensures Escapes(s + [c]) == Escapes(s) + Escape(c)
  {
    hide Escape;
    if s == "" {
      assert s + [c] == [c];
    } else {
      EscapesSnoc(s[1..], c);
      assert (s + [c])[1..] == s[1..] + [c];
    }
  }

  /** The switch of json_encode for one character. */
  method PutEscaped(before: string, c: char) returns (out: string)
    ensures out == before + Escape(c)
  {
    out := before;
    if c == '\\' || c == '"' {
      out := out + ['\\', c];
    } else if c >= ' ' {
      out := out + [c];
    } else {
      match c
      case '\r' => out := out + "\\r";
      case '\n' => out := out + "\\n";
      case '\t' => out := out + "\\t";
      case '\U{c}' => out := out + "\\f";
      case '\U{8}' => out := out + "\\b";
      case '\0' => out := out + "\\u0000";
      case _ => out := out + ['\\', 'u', '0', '0', Hex(c as int / 16), Hex(c as int % 16)];
    }
  }

  lemma PrintStep(data: string, i: nat)
    requires i < |data|
    ensures "\"" + Escapes(data[..i + 1]) == "\"" + Escapes(data[..i]) + Escape(data[i])
  {
    EscapesSnoc(data[..i], data[i]);
    assert data[..i] + [data[i]] == data[..i + 1];
    hide Escape, Escapes;
  }

  lemma PrintStart(data: string)
    ensures "\"" + Escapes(data[..0]) == "\"" && data[..|data|] == data
    ensures "\"" + Escapes(data) + "\"" == PrintString(data)
  {
  }

  /** json_encode */
  method JsonEncode(data: string) returns (out: string)
    ensures out == PrintString(data)
  {
    hide *;
    PrintStart(data);
    out := "\"";
    var i := 0;
    while i < |data|
      invariant i <= |data| && out == "\"" + Escapes(data[..i])
    {
      PrintStep(data, i);
      out := PutEscaped(out, data[i]);
      i := i + 1;
    }
    out := out + "\"";
  }

  /** The loop of read_str. */
  method ReadStr(input: Input) returns (r: Parsed<string>)
    ensures r == ReadString(input)
  {
    var first := NextChar(input);
    if !first.Ok? || first.value != '"' { return Err; }
    var rest, out, backslash := first.input.rest, "", false;
    var units: seq<nat> := [];
    while rest != ""
      invariant StringRest(rest, out, backslash, units) == StringRest(first.input.rest, "", false, [])
      decreases |rest|
    {
      var c := rest[0];
      if backslash {
        if c == 'u' {
          if |rest| < 5 { return Err; }
          var value := HexValue(rest[1..5]);
          if value.None? { return Err; }
          units := units + [value.value];
          rest := rest[5..];
          backslash := false;
          continue;
        }
        if |units| > 0 {
          var bytes := ToUtf8(units);
          if bytes.None? { return Err; }
          out := out + bytes.value;
          units := [];
        } else {
          assert out + "" == out;
        }
        out := out + Unescape(c);
        backslash := false;
      } else if c == '\\' {
        backslash := true;
      } else {
        if |units| > 0 {
          var bytes := ToUtf8(units);
          if bytes.None? { return Err; }
          out := out + bytes.value;
          units := [];
        } else {
          assert out + "" == out;
        }
        if c == '"' { return Ok(out, Input(rest[1..], None)); }
        out := out + [c];
      }
      rest := rest[1..];
    }
    r := Err;
  }

  /** The loop of read_next_token. */
  method ReadNextToken(input: Input, token: string) returns (r: Parsed<string>)
    ensures r == NextToken(input, token)
  {
    var first := NextChar(input);
    if !first.Ok? { return Err; }
    var rest, tok := first.input.rest, token + [first.value];
    while rest != ""
      invariant TokenRest(rest, tok) == TokenRest(first.input.rest, token + [first.value])
      decreases |rest|
    {
      var c := rest[0];
      rest := rest[1..];
      if c in {'}', ']', ',', ' ', '\t', '\r', '\n'} { return Ok(tok, Input(rest, Some(c))); }
      tok := tok + [c];
    }
    r := Err;
  }
}
