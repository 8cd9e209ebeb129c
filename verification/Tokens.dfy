/** The tokens of a text, as a function of the text: what each turn of the lexer's loop does. */
module Tokens {
  import opened Wrappers

  datatype Tok =
    | Ident(name: string) | Keyword(name: string)
    | LitInt(digits: string) | LitFloat(digits: string) | LitString(value: string)
    | PreAnnotation(note: string) | PostAnnotation(note: string)
    | Eol | Eof | Dot
    | Star | Plus | Slash | Minus | RArrow | Equals | Semi | Colon | Comma | LParen | LBrace | LBracket
    | RParen | RBrace | RBracket | LShift | RShift

  /** A token and where it starts: the offset, and the line and column that the offset stands for. */
  datatype Token = Token(tok: Tok, at: nat, line: nat, col: nat)

  datatype Problem = Tab | BadDollar | BadNumber | NoContinuation | OpenString | OpenTripleString | BadCharacter

  /** The keyword table and the characters that `trim` removes. */
  datatype Tables = Tables(keyword: string -> bool, blank: char -> bool)

  // ---- Characters and positions ----

  /** The character at `p`; 0 at the end of the text. */
  function Ch(t: string, p: nat): char {
    if p < |t| then t[p] else '\0'
  }

  predicate IsDigit(c: char) { '0' <= c <= '9' }

  predicate IsHex(c: char) { IsDigit(c) || 'a' <= c <= 'f' || 'A' <= c <= 'F' }

  predicate IsIdentStart(c: char) { 'a' <= c <= 'z' || 'A' <= c <= 'Z' || c == '_' }

  predicate IsIdentPart(c: char) { IsIdentStart(c) || IsDigit(c) }

  predicate IsSpace(c: char) { c == ' ' }

  predicate IsPad(c: char) { c == ' ' || c == '\r' }

  predicate InLine(c: char) { c != '\n' }

  /** Where a run of characters that are `ok` ends. */
  function End(t: string, p: nat, ok: char -> bool): (q: nat)
    requires p <= |t|
    ensures p <= q <= |t|
    ensures q < |t| ==> !ok(t[q])
    decreases |t| - p
  {
    if p < |t| && ok(t[p]) then End(t, p + 1, ok) else p
  }

  function LineAt(t: string, p: nat): nat
    requires p <= |t|
  {
    if p == 0 then 1 else LineAt(t, p - 1) + if t[p - 1] == '\n' then 1 else 0
  }

  function ColAt(t: string, p: nat): nat
    requires p <= |t|
  {
    if p == 0 || t[p - 1] == '\n' then 1 else ColAt(t, p - 1) + 1
  }

  /** Where the newlines, spaces and comments from `p` on end. */
  function Settle(t: string, p: nat): (q: nat)
    requires p <= |t|
    ensures p <= q <= |t|
    ensures Ch(t, q) !in "\n \r#"
    decreases |t| - p
  {
    if p == |t| then p
    else if t[p] == '\n' || t[p] == ' ' || t[p] == '\r' then Settle(t, p + 1)
    else if t[p] == '#' then
      assert End(t, p, InLine) == End(t, p + 1, InLine);
      Settle(t, End(t, p, InLine))
    else p
  }

  // ---- One turn of the loop ----

  datatype Step = Skip(end: nat) | Emit(tok: Tok, end: nat) | Fail(problem: Problem, at: nat)

  /** A step from `p` moves on, within the text. */
  predicate Moves(t: string, p: nat, s: Step) {
    !s.Fail? ==> p < s.end <= |t|
  }

  function Word(k: Tables, word: string): Tok {
    if k.keyword(word) then Keyword(word) else Ident(word)
  }

  /** Where an exponent at `p` ends: it is there only if digits follow its sign. */
  function ExponentEnd(t: string, p: nat): (q: nat)
    requires p < |t|
    ensures p <= q <= |t|
  {
    var n := if Ch(t, p + 1) == '+' || Ch(t, p + 1) == '-' then p + 2 else p + 1;
    if IsDigit(Ch(t, n)) then End(t, n, IsDigit) else p
  }

  /** The digits after a decimal point, with their exponent. */
  function FractionEnd(t: string, p: nat): (q: nat)
    requires p <= |t|
    ensures p <= q <= |t|
  {
    var d := End(t, p, IsDigit);
    if Ch(t, d) == 'e' || Ch(t, d) == 'E' then ExponentEnd(t, d) else d
  }

  /** A fraction from `p` on, behind the text `before`. */
  function Fraction(t: string, p: nat, before: string): (s: Step)
    requires p <= |t|
    ensures !s.Fail? ==> p <= s.end <= |t|
  {
    var q := FractionEnd(t, p);
    if IsIdentPart(Ch(t, q)) then Fail(BadNumber, q) else Emit(LitFloat(before + t[p..q]), q)
  }

  function Number(t: string, p: nat): (s: Step)
    requires p < |t| && IsDigit(t[p])
    ensures Moves(t, p, s)
  {
    if t[p] == '0' && (Ch(t, p + 1) == 'x' || Ch(t, p + 1) == 'X') then
      var q := End(t, p + 2, IsHex);
      if q == p + 2 || IsIdentPart(Ch(t, q)) then Fail(BadNumber, p) else Emit(LitInt("0x" + t[p + 2..q]), q)
    else
      var d := End(t, p + 1, IsDigit);
      if Ch(t, d) == '.' then Fraction(t, d + 1, t[p..d + 1])
      else
        var q := if Ch(t, d) == 'e' || Ch(t, d) == 'E' then ExponentEnd(t, d) else d;
        if q > d then Emit(LitFloat(t[p..q]), q)
        else if IsIdentPart(Ch(t, d)) then Fail(BadNumber, p)
        else Emit(LitInt(t[p..d]), d)
  }

  function Put(head: string, r: Option<(string, nat)>): Option<(string, nat)> {
    if r.None? then None else Some((head + r.value.0, r.value.1))
  }

  lemma PutNothing(r: Option<(string, nat)>)
    ensures Put("", r) == r
  {
    assert r.Some? ==> "" + r.value.0 == r.value.0;
  }

  lemma PutTwice(a: string, b: string, r: Option<(string, nat)>)
    ensures Put(a, Put(b, r)) == Put(a + b, r)
  {
    assert r.Some? ==> a + (b + r.value.0) == a + b + r.value.0;
  }

  /** The rest of a string literal from `p` on: its value and where it ends. */
  function Quoted(t: string, p: nat): (r: Option<(string, nat)>)
    requires p <= |t|
    ensures r.Some? ==> p < r.value.1 <= |t|
    decreases |t| - p
  {
    if p == |t| || t[p] == '\n' then None
    else if t[p] == '"' then Some(("", p + 1))
    else if t[p] == '\\' && p + 1 == |t| then None
    else
      var q := if t[p] == '\\' then p + 1 else p;
      Put([t[q]], Quoted(t, q + 1))
  }

  /** The rest of a triple-quoted literal: `skip` spaces of this line are still to be removed if it has just begun. */
  function Tripled(t: string, p: nat, indent: nat, skip: nat, begins: bool): (r: Option<(string, nat)>)
    requires p <= |t|
    ensures r.Some? ==> p < r.value.1 <= |t|
    decreases |t| - p
  {
    if p == |t| then None
    else if t[p] == ' ' then
      if begins && skip > 0 then Tripled(t, p + 1, indent, skip - 1, begins)
      else Put(" ", Tripled(t, p + 1, indent, skip, begins))
    else if t[p] == '\n' then Put("\n", Tripled(t, p + 1, indent, indent, true))
    else if t[p] == '"' then
      if Ch(t, p + 1) != '"' then Put("\"", Tripled(t, p + 1, indent, skip, false))
      else if Ch(t, p + 2) != '"' then Put("\"\"", Tripled(t, p + 2, indent, skip, false))
      else Some(("", p + 3))
    else if t[p] == '\\' then
      if p + 1 == |t| then None else Put([t[p + 1]], Tripled(t, p + 2, indent, skip, false))
    else Put([t[p]], Tripled(t, p + 1, indent, skip, false))
  }

  /** A triple-quoted literal at `p`: an initial newline is dropped, and the first line tells the indentation. */
  function Triple(t: string, p: nat): (s: Step)
    requires p + 3 <= |t|
    ensures Moves(t, p, s)
  {
    var body := if Ch(t, p + 3) == '\n' then p + 4 else p + 3;
    var text := End(t, body, IsSpace);
    var r := Tripled(t, text, text - body, text - body, true);
    if r.None? then Fail(OpenTripleString, p) else Emit(LitString(r.value.0), r.value.1)
  }

  function Str(t: string, p: nat): (s: Step)
    requires p < |t| && t[p] == '"'
    ensures Moves(t, p, s)
  {
    if Ch(t, p + 1) == '"' then
      if Ch(t, p + 2) == '"' then Triple(t, p) else Emit(LitString(""), p + 2)
    else
      var r := Quoted(t, p + 1);
      if r.None? then Fail(OpenString, p) else Emit(LitString(r.value.0), r.value.1)
  }

  function Trim(s: string, blank: char -> bool): string {
    if s != [] && blank(s[0]) then Trim(s[1..], blank)
    else if s != [] && blank(s[|s| - 1]) then Trim(s[..|s| - 1], blank)
    else s
  }

  function Annotation(k: Tables, t: string, p: nat): (s: Step)
    requires p < |t| && t[p] == '@'
    ensures Moves(t, p, s)
  {
    var post := Ch(t, p + 1) == '<';
    var from := if post then p + 2 else p + 1;
    var q := End(t, from, InLine);
    var note := Trim(t[from..q], k.blank);
    Emit(if post then PostAnnotation(note) else PreAnnotation(note), Settle(t, q))
  }

  /** The symbols after which newlines are skipped. */
  function Binder(c: char): Option<Tok> {
    match c
    case '*' => Some(Star)
    case '+' => Some(Plus)
    case '/' => Some(Slash)
    case '=' => Some(Equals)
    case ';' => Some(Semi)
    case ':' => Some(Colon)
    case ',' => Some(Comma)
    case '(' => Some(LParen)
    case '{' => Some(LBrace)
    case '[' => Some(LBracket)
    case _ => None
  }

  function Closer(c: char): Option<Tok> {
    match c
    case ')' => Some(RParen)
    case '}' => Some(RBrace)
    case ']' => Some(RBracket)
    case _ => None
  }

  function Symbol(t: string, p: nat): (s: Step)
    requires p < |t|
    ensures Moves(t, p, s)
  {
    var c := t[p];
    if Binder(c).Some? then Emit(Binder(c).value, Settle(t, p + 1))
    else if Closer(c).Some? then Emit(Closer(c).value, p + 1)
    else if c == '-' then
      if Ch(t, p + 1) == '>' then Emit(RArrow, Settle(t, p + 2)) else Emit(Minus, Settle(t, p + 1))
    else if c == '<' then
      if Ch(t, p + 1) == '<' then Emit(LShift, p + 2) else Fail(BadCharacter, p)
    else if c == '>' then
      if Ch(t, p + 1) == '>' then Emit(RShift, p + 2) else Fail(BadCharacter, p)
    else Fail(BadCharacter, p)
  }

  /** A newline or a comment: a token unless a closer or the end of the text follows. */
  function Lines(t: string, p: nat): (s: Step)
    requires p < |t| && (t[p] == '\n' || t[p] == '#')
    ensures Moves(t, p, s)
  {
    var q := if t[p] == '\n' then Settle(t, p + 1) else Settle(t, End(t, p + 1, InLine));
    if q == |t| || Closer(t[q]).Some? then Skip(q) else Emit(Eol, q)
  }

  function Continuation(t: string, p: nat): (s: Step)
    requires p < |t|
    ensures Moves(t, p, s)
  {
    var q := End(t, p + 1, IsPad);
    if Ch(t, q) == '\n' then Skip(q + 1) else Fail(NoContinuation, q)
  }

  function Scan(k: Tables, t: string, p: nat): (s: Step)
    requires p < |t|
    ensures Moves(t, p, s)
  {
    var c := t[p];
    if c == ' ' || c == '\U{c}' || c == '\r' then Skip(p + 1)
    else if c == '\t' then Fail(Tab, p)
    else if c == '$' then
      if IsIdentStart(Ch(t, p + 1)) then
        Emit(Ident(t[p + 1..End(t, p + 1, IsIdentPart)]), End(t, p + 1, IsIdentPart))
      else Fail(BadDollar, p)
    else if IsIdentStart(c) then Emit(Word(k, t[p..End(t, p + 1, IsIdentPart)]), End(t, p + 1, IsIdentPart))
    else if IsDigit(c) then Number(t, p)
    else if c == '\\' then Continuation(t, p)
    else if c == '"' then Str(t, p)
    else if c == '.' then
      if IsDigit(Ch(t, p + 1)) then Fraction(t, p + 1, "0.") else Emit(Dot, p + 1)
    else if c == '\n' || c == '#' then Lines(t, p)
    else if c == '@' then Annotation(k, t, p)
    else Symbol(t, p)
  }

  // ---- The tokens of a text ----

  type Outcome = Result<seq<Token>, (Problem, nat)>

  function At(t: string, tok: Tok, p: nat): Token
    requires p <= |t|
  {
    Token(tok, p, LineAt(t, p), ColAt(t, p))
  }

  function Lex(k: Tables, t: string, p: nat): (r: Outcome)
    requires p <= |t|
    ensures r.Ok? ==> r.value != []
    decreases |t| - p
  {
    if p == |t| then Ok([At(t, Eof, p)])
    else
      var s := Scan(k, t, p);
      match s
      case Fail(problem, at) => Err((problem, at))
      case Skip(end) => Lex(k, t, end)
      case Emit(tok, end) =>
        var r := Lex(k, t, end);
        if r.Err? then r else Ok([At(t, tok, p)] + r.value)
  }

  /** The outcome with the tokens found earlier in front. */
  function Behind(before: seq<Token>, r: Outcome): Outcome {
    if r.Err? then r else Ok(before + r.value)
  }

  lemma BehindNothing(r: Outcome)
    ensures Behind([], r) == r
  {
    assert r.Ok? ==> [] + r.value == r.value;
  }

  lemma BehindTwice(a: seq<Token>, b: seq<Token>, r: Outcome)
    ensures Behind(a, Behind(b, r)) == Behind(a + b, r)
  {
    assert r.Ok? ==> a + (b + r.value) == a + b + r.value;
  }
}
