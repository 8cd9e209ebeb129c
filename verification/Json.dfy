/**
 JSON values, the text the pretty printer writes for them, and what the parser makes of
 a text.  Both sides are given here as functions; `JsonPrinter` and `JsonParser` are the
 loops of the source, proved to compute them.
 */
module Json {
  import opened Wrappers

  /**
   An `f64`.  A finite one is kept as the literal the printer writes for it (the shortest
   text that reads back as the same number); infinities and NaN are one case.
   */
  datatype Number = Finite(literal: string) | NonFinite

  datatype Json =
    | Null
    | Bool(b: bool)
    | Int(i: int)
    | Float(f: Number)
    | Str(s: string)
    | Arr(elts: seq<Json>)
    | Obj(members: seq<Member>)

  datatype Member = Member(key: string, value: Json)

  const I128_MIN: int := -0x8000_0000_0000_0000_0000_0000_0000_0000
  const I128_MAX: int := 0x7fff_ffff_ffff_ffff_ffff_ffff_ffff_ffff

  /** What Rust's types promise: integers fit `i128`, finite floats print as a float literal. */
  predicate Valid(v: Json) {
    match v
    case Int(i) => I128_MIN <= i <= I128_MAX
    case Float(Finite(literal)) => IsDebugFloat(literal)
    case Arr(elts) => forall e :: e in elts ==> Valid(e)
    case Obj(members) => forall m :: m in members ==> Valid(m.value)
    case _ => true
  }

  predicate AllFinite(v: Json) {
    match v
    case Float(f) => f.Finite?
    case Arr(elts) => forall e :: e in elts ==> AllFinite(e)
    case Obj(members) => forall m :: m in members ==> AllFinite(m.value)
    case _ => true
  }

  // ----- Characters -----

  predicate IsDigit(c: char) { '0' <= c <= '9' }

  predicate IsWs(c: char) { c == ' ' || c == '\t' || c == '\n' || c == '\r' }

  /** The characters `number` consumes after an optional leading minus. */
  predicate IsNumberChar(c: char) { IsDigit(c) || c == '.' || c == 'e' || c == 'E' || c == '+' || c == '-' }

  /** The value of a hexadecimal digit of either case. */
  function HexValue(c: char): Option<nat> {
    if '0' <= c <= '9' then Some(c as nat - '0' as nat)
    else if 'a' <= c <= 'f' then Some(c as nat - 'a' as nat + 10)
    else if 'A' <= c <= 'F' then Some(c as nat - 'A' as nat + 10)
    else None
  }

  function HexDigit(d: nat): char
    requires d < 16
  {
    if d < 10 then ('0' as nat + d) as char else ('a' as nat + (d - 10)) as char
  }

  function DecimalDigit(d: nat): char
    requires d < 10
  {
    ('0' as nat + d) as char
  }

  /** First index at or after `i` that is not a decimal digit. */
  function SkipDigits(t: string, i: nat): (j: nat)
    requires i <= |t|
    ensures i <= j <= |t|
    ensures forall k :: i <= k < j ==> IsDigit(t[k])
    ensures j < |t| ==> !IsDigit(t[j])
    decreases |t| - i
  {
    if i < |t| && IsDigit(t[i]) then SkipDigits(t, i + 1) else i
  }

  /** The literals `{:?}` writes: `-?d+(.d+)?(e-?d+)?` with a point or an exponent. */
  predicate IsDebugFloat(t: string) {
    var i := if t != [] && t[0] == '-' then 1 else 0;
    var j := SkipDigits(t, i);
    var k := if j < |t| && t[j] == '.' then SkipDigits(t, j + 1) else j;
    && i < j
    && (k == j || j + 1 < k)
    && (k > j || k < |t|)
    && (k == |t| || (t[k] == 'e' &&
                     var l := if k + 1 < |t| && t[k + 1] == '-' then k + 2 else k + 1;
                     l < |t| && SkipDigits(t, l) == |t|))
  }

  /** The texts `str::parse::<f64>` accepts, among those `number` can cut out. */
  predicate IsRustFloat(t: string) {
    var i := if t != [] && (t[0] == '-' || t[0] == '+') then 1 else 0;
    var j := SkipDigits(t, i);
    var k := if j < |t| && t[j] == '.' then SkipDigits(t, j + 1) else j;
    && (i < j || j + 1 < k)
    && (k == |t| || ((t[k] == 'e' || t[k] == 'E') &&
                     var l := if k + 1 < |t| && (t[k + 1] == '-' || t[k + 1] == '+') then k + 2 else k + 1;
                     l < |t| && SkipDigits(t, l) == |t|))
  }

  // ----- Printing -----

  function NatText(n: nat): (t: string)
    ensures t != [] && forall i :: 0 <= i < |t| ==> IsDigit(t[i])
  {
    if n < 10 then [DecimalDigit(n)] else NatText(n / 10) + [DecimalDigit(n % 10)]
  }

  function IntText(i: int): string {
    if i < 0 then "-" + NatText(-i) else NatText(i)
  }

  function Indent(depth: nat): (t: string)
    ensures |t| == 2 * depth && forall i :: 0 <= i < |t| ==> t[i] == ' '
  {
    if depth == 0 then "" else "  " + Indent(depth - 1)
  }

  /** One character inside a string literal. */
  function EscapeChar(c: char): string {
    if c == '\"' then "\\\""
    else if c == '\\' then "\\\\"
    else if c == '\n' then "\\n"
    else if c == '\r' then "\\r"
    else if c == '\t' then "\\t"
    else if c as nat < 0x20 then "\\u00" + [HexDigit(c as nat / 16), HexDigit(c as nat % 16)]
    else [c]
  }

  function Escape(s: string): string {
    if s == [] then "" else EscapeChar(s[0]) + Escape(s[1..])
  }

  function StringText(s: string): string {
    "\"" + Escape(s) + "\""
  }

  function Print(v: Json, depth: nat): string
    decreases v, 1
  {
    match v
    case Null => "null"
    case Bool(b) => if b then "true" else "false"
    case Int(i) => IntText(i)
    case Float(f) => if f.Finite? then f.literal else "null"
    case Str(s) => StringText(s)
    case Arr(elts) =>
      if elts == [] then "[]"
      else "[" + PrintElts(elts, true, depth + 1) + NewLine(depth) + "]"
    case Obj(members) =>
      if members == [] then "{}"
      else "{" + PrintMembers(members, true, depth + 1) + NewLine(depth) + "}"
  }

  function NewLine(depth: nat): string {
    "\n" + Indent(depth)
  }

  /** The elements, each on its own line, a comma before all but the first. */
  function PrintElts(elts: seq<Json>, first: bool, depth: nat): string
    decreases elts, 0
  {
    if elts == [] then ""
    else
      (if first then "" else ",") + NewLine(depth) + Print(elts[0], depth)
      + PrintElts(elts[1..], false, depth)
  }

  function PrintMembers(members: seq<Member>, first: bool, depth: nat): string
    decreases members, 0
  {
    if members == [] then ""
    else
      (if first then "" else ",") + NewLine(depth) + StringText(members[0].key) + ": "
      + Print(members[0].value, depth) + PrintMembers(members[1..], false, depth)
  }

  function ToPretty(v: Json): string {
    Print(v, 0) + "\n"
  }

  // ----- Parsing -----
  //
  // The functions read from the front of the text that is left, and return what is left behind
  // the part they took.  The source keeps an offset: the length of the whole text minus this.

  datatype Kind =
    | Expected(c: char)
    | ExpectedCommaOrBracket
    | ExpectedCommaOrBrace
    | UnexpectedCharacter
    | UnterminatedString
    | UnterminatedEscape
    | BadUnicodeEscape
    | BadEscape
    | BadNumber
    | TrailingCharacters
    | ArithmeticOverflow // a panic where overflow checks are on

  /** A value and the text left, or an error and how much text was left when it was found. */
  datatype Parsed<+T> = Good(value: T, rest: string) | Bad(left: nat, kind: Kind)

  predicate Peek(s: string, c: char) {
    s != [] && s[0] == c
  }

  function SkipWs(s: string): (rest: string)
    ensures |rest| <= |s|
  {
    if s != [] && IsWs(s[0]) then SkipWs(s[1..]) else s
  }

  function Literal(s: string, word: string, v: Json): (r: Parsed<Json>)
    ensures r.Good? ==> |r.rest| + |word| == |s|
    decreases |word|
  {
    if word == [] then Good(v, s)
    else if Peek(s, word[0]) then Literal(s[1..], word[1..], v)
    else Bad(|s|, Expected(word[0]))
  }

  /** `n` hexadecimal digits. */
  function Hex(s: string, n: nat, code: nat): (r: Parsed<nat>)
    ensures r.Good? ==> |r.rest| + n == |s|
    decreases n
  {
    if n == 0 then Good(code, s)
    else if s != [] && HexValue(s[0]).Some? then Hex(s[1..], n - 1, code * 16 + HexValue(s[0]).value)
    else Bad(|s|, BadUnicodeEscape)
  }

  /** `char::from_u32(code).unwrap_or('\u{FFFD}')` */
  function CharOf(code: nat): char {
    if code < 0xD800 || 0xE000 <= code <= 0x10FFFF then code as char else '\U{FFFD}'
  }

  /** What follows `\u`: four digits; a high surrogate takes a following escape with it. */
  function UnicodeEscape(s: string): (r: Parsed<char>)
    ensures r.Good? ==> |r.rest| < |s|
  {
    match Hex(s, 4, 0)
    case Bad(left, kind) => Bad(left, kind)
    case Good(code, t) => if 0xD800 <= code < 0xDC00 then LowSurrogate(t, code) else Good(CharOf(code), t)
  }

  /** The second half of a surrogate pair; 0 if there is no escape. */
  function LowHalf(s: string): (r: Parsed<nat>)
    ensures r.Good? ==> |r.rest| <= |s|
    ensures r.Good? && r.value != 0 ==> |r.rest| < |s|
  {
    if !Peek(s, '\\') then Good(0, s)
    else if !Peek(s[1..], 'u') then Bad(|s| - 1, Expected('u'))
    else Hex(s[2..], 4, 0)
  }

  /**
   The character of a surrogate pair.  The source subtracts 0xDC00 from the second half with
   wrap-around and then adds in `u32`, which overflows exactly below 0xDC00.
   */
  function LowSurrogate(s: string, high: nat): (r: Parsed<char>)
    requires 0xD800 <= high < 0xDC00
    ensures r.Good? ==> |r.rest| < |s|
  {
    match LowHalf(s)
    case Bad(left, kind) => Bad(left, kind)
    case Good(low, t) =>
      if low < 0xDC00 then Bad(|t|, ArithmeticOverflow)
      else Good(CharOf(0x10000 + (high - 0xD800) * 0x400 + (low - 0xDC00)), t)
  }

  /** The character an escape stands for; `s` starts behind the backslash. */
  function EscapeSeq(s: string): (r: Parsed<char>)
    ensures r.Good? ==> |r.rest| < |s|
  {
    if s == [] then Bad(0, UnterminatedEscape)
    else match s[0]
      case '\"' => Good('\"', s[1..])
      case '\\' => Good('\\', s[1..])
      case '/' => Good('/', s[1..])
      case 'b' => Good('\U{8}', s[1..])
      case 'f' => Good('\U{C}', s[1..])
      case 'n' => Good('\n', s[1..])
      case 'r' => Good('\r', s[1..])
      case 't' => Good('\t', s[1..])
      case 'u' => UnicodeEscape(s[1..])
      case _ => Bad(|s| - 1, BadEscape)
  }

  /** The characters up to the closing quote, behind those in `done`. */
  function StringBody(s: string, done: string): (r: Parsed<string>)
    ensures r.Good? ==> |r.rest| < |s|
    decreases |s|, 0
  {
    if s == [] then Bad(0, UnterminatedString)
    else if s[0] == '\"' then Good(done, s[1..])
    else if s[0] == '\\' then EscapedBody(s[1..], done)
    else StringBody(s[1..], done + [s[0]])
  }

  /** The rest of a string behind a backslash. */
  function EscapedBody(s: string, done: string): (r: Parsed<string>)
    ensures r.Good? ==> |r.rest| < |s|
    decreases |s|, 1
  {
    match EscapeSeq(s)
    case Bad(left, kind) => Bad(left, kind)
    case Good(c, t) => StringBody(t, done + [c])
  }

  function ParseString(s: string): (r: Parsed<string>)
    ensures r.Good? ==> |r.rest| < |s|
  {
    if Peek(s, '\"') then StringBody(s[1..], "") else Bad(|s|, Expected('\"'))
  }

  function SkipNumber(s: string): (rest: string)
    ensures |rest| <= |s|
  {
    if s != [] && IsNumberChar(s[0]) then SkipNumber(s[1..]) else s
  }

  function DigitsValue(t: string): (n: int)
    requires forall i :: 0 <= i < |t| ==> IsDigit(t[i])
    ensures n >= 0
  {
    if t == [] then 0
    else
      assert IsDigit(t[|t| - 1]);
      DigitsValue(t[..|t| - 1]) * 10 + (t[|t| - 1] as int - '0' as int)
  }

  /** `str::parse::<i128>` on an optional minus followed by digits. */
  function ParseI128(t: string): Option<int>
    requires forall i :: (if Peek(t, '-') then 1 else 0) <= i < |t| ==> IsDigit(t[i])
  {
    var digits := if Peek(t, '-') then t[1..] else t;
    if digits == [] then None
    else
      var i := if Peek(t, '-') then -DigitsValue(digits) else DigitsValue(digits);
      if I128_MIN <= i <= I128_MAX then Some(i) else None
  }

  function NumberOf(t: string): Option<Json> {
    if exists i :: (if Peek(t, '-') then 1 else 0) <= i < |t| && !IsDigit(t[i]) then
      if IsRustFloat(t) then Some(Float(Finite(t))) else None
    else
      match ParseI128(t)
      case Some(i) => Some(Int(i))
      case None => None
  }

  function ParseNumber(s: string): (r: Parsed<Json>)
    requires s != [] && (s[0] == '-' || IsDigit(s[0]))
    ensures r.Good? ==> |r.rest| < |s|
  {
    var rest := SkipNumber(if s[0] == '-' then s[1..] else s);
    match NumberOf(s[..|s| - |rest|])
    case Some(v) => Good(v, rest)
    case None => Bad(|rest|, BadNumber)
  }

  /** The white space behind a value is skipped too. */
  function Trimmed<T>(r: Parsed<T>): Parsed<T> {
    match r
    case Bad(left, kind) => Bad(left, kind)
    case Good(v, rest) => Good(v, SkipWs(rest))
  }

  function ParseValue(s: string): (r: Parsed<Json>)
    ensures r.Good? ==> |r.rest| < |s|
    decreases |s|, 1
  {
    if s == [] then Bad(0, UnexpectedCharacter)
    else if s[0] == 'n' then Literal(s, "null", Null)
    else if s[0] == 't' then Literal(s, "true", Bool(true))
    else if s[0] == 'f' then Literal(s, "false", Bool(false))
    else if s[0] == '\"' then
      match ParseString(s)
      case Bad(left, kind) => Bad(left, kind)
      case Good(text, rest) => Good(Str(text), rest)
    else if s[0] == '[' then
      var t := SkipWs(s[1..]);
      if Peek(t, ']') then Good(Arr([]), t[1..]) else ParseElts(t, [])
    else if s[0] == '{' then
      var t := SkipWs(s[1..]);
      if Peek(t, '}') then Good(Obj([]), t[1..]) else ParseMembers(t, [])
    else if s[0] == '-' || IsDigit(s[0]) then ParseNumber(s)
    else Bad(|s|, UnexpectedCharacter)
  }

  /** A value with the white space around it. */
  function ParseElt(s: string): (r: Parsed<Json>)
    ensures r.Good? ==> |r.rest| < |s|
    decreases |s|, 2
  {
    Trimmed(ParseValue(SkipWs(s)))
  }

  /** A member with the white space around it. */
  function ParseMemberElt(s: string): (r: Parsed<Member>)
    ensures r.Good? ==> |r.rest| < |s|
    decreases |s|, 2
  {
    Trimmed(ParseMember(SkipWs(s)))
  }

  /** The element loop of an array. */
  function ParseElts(s: string, done: seq<Json>): (r: Parsed<Json>)
    ensures r.Good? ==> |r.rest| < |s|
    decreases |s|, 3
  {
    match ParseElt(s)
    case Bad(left, kind) => Bad(left, kind)
    case Good(v, t) =>
      if Peek(t, ',') then ParseElts(t[1..], done + [v])
      else if Peek(t, ']') then Good(Arr(done + [v]), t[1..])
      else Bad(|t|, ExpectedCommaOrBracket)
  }

  /** The member loop of an object. */
  function ParseMembers(s: string, done: seq<Member>): (r: Parsed<Json>)
    ensures r.Good? ==> |r.rest| < |s|
    decreases |s|, 3
  {
    match ParseMemberElt(s)
    case Bad(left, kind) => Bad(left, kind)
    case Good(m, t) =>
      if Peek(t, ',') then ParseMembers(t[1..], done + [m])
      else if Peek(t, '}') then Good(Obj(done + [m]), t[1..])
      else Bad(|t|, ExpectedCommaOrBrace)
  }

  /** A key, a colon and a value. */
  function ParseMember(s: string): (r: Parsed<Member>)
    ensures r.Good? ==> |r.rest| < |s|
    decreases |s|, 1
  {
    match ParseString(s)
    case Bad(left, kind) => Bad(left, kind)
    case Good(key, rest) => ParseColonValue(key, SkipWs(rest))
  }

  function ParseColonValue(key: string, t: string): (r: Parsed<Member>)
    ensures r.Good? ==> |r.rest| < |t|
    decreases |t|, 2
  {
    if !Peek(t, ':') then Bad(|t|, Expected(':'))
    else
      match ParseValue(SkipWs(t[1..]))
      case Bad(left, kind) => Bad(left, kind)
      case Good(v, rest) => Good(Member(key, v), rest)
  }

  /** A whole text: the value, or the offset of the error and its kind. */
  function Parse(text: string): Result<Json, (int, Kind)> {
    match ParseElt(text)
    case Bad(left, kind) => Err((|text| - left, kind))
    case Good(v, t) =>
      if t != [] then Err((|text| - |t|, TrailingCharacters)) else Ok(v)
  }
}
