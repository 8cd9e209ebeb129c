/**
 Every token has a spelling, and the lexer reads it back: wherever it stands in a text, and in whole
 texts that spell a list of tokens.  The spellings are written down here from the token's side; nothing
 in them refers to the tables the lexer reads by.
 */
module Spelling {
  import opened Wrappers
  import opened Tokens
  import opened LexerLaws

  // ---- Characters ----

  predicate Digit(c: char) { '0' <= c <= '9' }

  predicate HexDigit(c: char) { Digit(c) || 'a' <= c <= 'f' || 'A' <= c <= 'F' }

  predicate Letter(c: char) { 'a' <= c <= 'z' || 'A' <= c <= 'Z' || c == '_' }

  predicate WordChar(c: char) { Letter(c) || Digit(c) }

  /** `word` stands at `p`. */
  predicate Stands(t: string, p: nat, word: string) {
    p + |word| <= |t| && forall i :: 0 <= i < |word| ==> t[p + i] == word[i]
  }

  lemma StandsWhole(t: string, p: nat, word: string)
    requires Stands(t, p, word)
    ensures t[p..p + |word|] == word
  {}

  lemma Around(t: string, p: nat, word: string)
    requires Stands(t, p, word)
    ensures t == t[..p] + word + t[p + |word|..]
    ensures Ch(t[p + |word|..], 0) == Ch(t, p + |word|)
  {
    StandsWhole(t, p, word);
  }

  lemma StandsParts(t: string, p: nat, a: string, b: string)
    requires Stands(t, p, a + b)
    ensures Stands(t, p, a) && Stands(t, p + |a|, b)
  {
    forall i | 0 <= i < |a|
      ensures t[p + i] == a[i]
    {
      assert (a + b)[i] == a[i];
    }
    forall i | 0 <= i < |b|
      ensures t[p + |a| + i] == b[i]
    {
      assert (a + b)[|a| + i] == b[i];
      assert t[p + (|a| + i)] == b[i];
    }
  }

  lemma StandsFirst(t: string, p: nat, word: string)
    requires Stands(t, p, word) && word != []
    ensures t[p] == word[0] && (|word| > 1 ==> t[p + 1] == word[1])
  {
    assert t[p + 0] == word[0];
  }

  /** A run of characters that are `ok`, with none behind it, is read to its end. */
  lemma RunStands(t: string, p: nat, run: string, ok: char -> bool)
    requires Stands(t, p, run) && All(run, ok) && !(p + |run| < |t| && ok(t[p + |run|]))
    ensures End(t, p, ok) == p + |run|
    ensures run != [] ==> End(t, p + 1, ok) == p + |run|
  {
    forall i | p <= i < p + |run|
      ensures ok(t[i])
    {
      assert t[p + (i - p)] == run[i - p];
    }
    RunEnds(t, p, p + |run|, ok);
    if run != [] {
      RunEnds(t, p + 1, p + |run|, ok);
    }
  }

  // ---- Symbols ----

  /** How the symbols are written; nothing for the other tokens. */
  function Sign(tok: Tok): string {
    match tok
    case Dot => "."
    case Star => "*"
    case Plus => "+"
    case Slash => "/"
    case Minus => "-"
    case RArrow => "->"
    case Equals => "="
    case Semi => ";"
    case Colon => ":"
    case Comma => ","
    case LParen => "("
    case RParen => ")"
    case LBrace => "{"
    case RBrace => "}"
    case LBracket => "["
    case RBracket => "]"
    case LShift => "<<"
    case RShift => ">>"
    case _ => ""
  }

  /** What a symbol must not be followed by to be read as itself. */
  predicate Apart(tok: Tok, next: char) {
    (tok == Minus ==> next != '>') && (tok == Dot ==> !Digit(next))
  }

  /** Where the lexer goes on behind a token that ends at `q`. */
  function Beyond(t: string, tok: Tok, q: nat): nat
    requires q <= |t|
  {
    if Binds(tok) then Settle(t, q) else q
  }

  /** Every symbol is read back wherever it stands; behind those that bind, blanks, newlines and comments are skipped. */
  lemma SymbolComesBack(k: Tables, tok: Tok, t: string, p: nat)
    requires Sign(tok) != "" && Stands(t, p, Sign(tok)) && Apart(tok, Ch(t, p + |Sign(tok)|))
    ensures Scan(k, t, p) == Emit(tok, Beyond(t, tok, p + |Sign(tok)|))
  {
    StandsFirst(t, p, Sign(tok));
    if tok == Dot {
      assert Scan(k, t, p) == Emit(Dot, p + 1);
    } else {
      SignIs(tok);
      assert Scan(k, t, p) == Symbol(t, p);
      SymbolReads(tok, t, p);
    }
  }

  /** The first character of a symbol begins no other kind of token. */
  lemma SignIs(tok: Tok)
    requires Sign(tok) != "" && tok != Dot
    ensures Sign(tok)[0] !in " \U{c}\r\t$\\\".\n#@" && !IsIdentStart(Sign(tok)[0]) && !IsDigit(Sign(tok)[0])
  {}

  lemma SignTable(tok: Tok)
    requires |Sign(tok)| == 1 && tok != Dot && tok != Minus
    ensures var c := Sign(tok)[0];
            if Closes(tok) then Binder(c).None? && Closer(c) == Some(tok) && !Binds(tok)
            else Binder(c) == Some(tok) && Binds(tok)
  {}

  lemma DashReads(t: string, p: nat)
    requires p < |t| && t[p] == '-'
    ensures Symbol(t, p)
            == if Ch(t, p + 1) == '>' then Emit(RArrow, Settle(t, p + 2)) else Emit(Minus, Settle(t, p + 1))
  {}

  lemma ShiftReads(t: string, p: nat)
    requires p + 1 < |t| && t[p] == t[p + 1] && (t[p] == '<' || t[p] == '>')
    ensures Symbol(t, p) == Emit(if t[p] == '<' then LShift else RShift, p + 2)
  {}

  lemma SymbolReads(tok: Tok, t: string, p: nat)
    requires Sign(tok) != "" && tok != Dot && p + |Sign(tok)| <= |t|
    requires t[p] == Sign(tok)[0] && (|Sign(tok)| > 1 ==> t[p + 1] == Sign(tok)[1])
    requires Apart(tok, Ch(t, p + |Sign(tok)|))
    ensures Symbol(t, p) == Emit(tok, Beyond(t, tok, p + |Sign(tok)|))
  {
    if tok == Minus || tok == RArrow {
      DashReads(t, p);
    } else if tok == LShift || tok == RShift {
      ShiftReads(t, p);
    } else {
      SignTable(tok);
    }
  }

  // ---- Words and numbers ----

  ghost predicate IsWord(word: string) {
    word != [] && Letter(word[0]) && All(word, WordChar)
  }

  /** A word, up to where no letter, digit or underscore follows. */
  lemma WordReads(k: Tables, word: string, t: string, p: nat)
    requires IsWord(word) && Stands(t, p, word) && !WordChar(Ch(t, p + |word|))
    ensures Scan(k, t, p) == Emit(if k.keyword(word) then Keyword(word) else Ident(word), p + |word|)
  {
    Around(t, p, word);
    WordComesBack(k, word, t[..p], t[p + |word|..]);
  }

  lemma DollarReads(k: Tables, word: string, t: string, p: nat)
    requires IsWord(word) && Stands(t, p, "$" + word) && !WordChar(Ch(t, p + 1 + |word|))
    ensures Scan(k, t, p) == Emit(Ident(word), p + 1 + |word|)
  {
    Around(t, p, "$" + word);
    assert t[..p] + ("$" + word) + t[p + 1 + |word|..] == t[..p] + "$" + word + t[p + 1 + |word|..];
    EscapedWordComesBack(k, word, t[..p], t[p + 1 + |word|..]);
  }

  lemma DecimalReads(k: Tables, digits: string, t: string, p: nat)
    requires digits != [] && All(digits, Digit) && Stands(t, p, digits)
    requires !WordChar(Ch(t, p + |digits|)) && Ch(t, p + |digits|) != '.'
    ensures Scan(k, t, p) == Emit(LitInt(digits), p + |digits|)
  {
    Around(t, p, digits);
    NumberComesBack(k, digits, t[..p], t[p + |digits|..]);
  }

  /** Hexadecimal digits of either case behind `0x` or `0X`, as one literal that begins with `0x`. */
  lemma HexReads(k: Tables, x: char, digits: string, t: string, p: nat)
    requires x == 'x' || x == 'X'
    requires digits != [] && All(digits, HexDigit) && Stands(t, p, ['0', x] + digits) && !WordChar(Ch(t, p + 2 + |digits|))
    ensures Scan(k, t, p) == Emit(LitInt("0x" + digits), p + 2 + |digits|)
  {
    StandsParts(t, p, ['0', x], digits);
    StandsFirst(t, p, ['0', x]);
    RunStands(t, p + 2, digits, IsHex);
    StandsWhole(t, p + 2, digits);
  }

  /** `e` or `E`, perhaps a sign, and digits. */
  ghost predicate IsExponent(e: string) {
    && |e| > 1 && (e[0] == 'e' || e[0] == 'E')
    && var n := if e[1] == '+' || e[1] == '-' then 2 else 1;
       n < |e| && All(e[n..], Digit)
  }

  lemma ExponentReads(e: string, t: string, p: nat)
    requires IsExponent(e) && Stands(t, p, e) && !Digit(Ch(t, p + |e|))
    ensures ExponentEnd(t, p) == p + |e|
  {
    var n := if e[1] == '+' || e[1] == '-' then 2 else 1;
    StandsFirst(t, p, e);
    assert e == e[..n] + e[n..];
    StandsParts(t, p, e[..n], e[n..]);
    StandsFirst(t, p + n, e[n..]);
    RunStands(t, p + n, e[n..], IsDigit);
  }

  /** The digits behind a point and an exponent, if there is one. */
  lemma FractionReads(digits: string, e: string, t: string, p: nat)
    requires All(digits, Digit) && (e == [] || IsExponent(e))
    requires Stands(t, p, digits) && Stands(t, p + |digits|, e) && !WordChar(Ch(t, p + |digits| + |e|))
    ensures FractionEnd(t, p) == p + |digits| + |e|
  {
    if e != [] {
      StandsFirst(t, p + |digits|, e);
      ExponentReads(e, t, p + |digits|);
    }
    RunStands(t, p, digits, IsDigit);
  }

  /** Digits up to a character that is none. */
  lemma WholeReads(whole: string, t: string, p: nat)
    requires whole != [] && All(whole, Digit) && Stands(t, p, whole) && !Digit(Ch(t, p + |whole|))
    ensures IsDigit(t[p]) && End(t, p + 1, IsDigit) == p + |whole|
    ensures Ch(t, p + 1) == Ch(t, p + |whole|) || IsDigit(Ch(t, p + 1))
  {
    StandsFirst(t, p, whole);
    RunStands(t, p, whole, IsDigit);
  }

  /** Digits, a point, perhaps more digits and an exponent. */
  lemma FloatReads(k: Tables, whole: string, digits: string, e: string, t: string, p: nat)
    requires whole != [] && All(whole, Digit) && All(digits, Digit) && (e == [] || IsExponent(e))
    requires var lit := whole + "." + digits + e; Stands(t, p, lit) && !WordChar(Ch(t, p + |lit|))
    ensures var lit := whole + "." + digits + e; Scan(k, t, p) == Emit(LitFloat(lit), p + |lit|)
  {
    var lit := whole + "." + digits + e;
    StandsWhole(t, p, lit);
    StandsParts(t, p, whole + "." + digits, e);
    StandsParts(t, p, whole + ".", digits);
    StandsParts(t, p, whole, ".");
    FloatAt(k, whole, digits, e, t, p);
  }

  lemma SliceJoins(t: string, p: nat, d: nat, q: nat)
    requires p <= d <= q <= |t|
    ensures t[p..d] + t[d..q] == t[p..q]
  {}

  lemma FloatAt(k: Tables, whole: string, digits: string, e: string, t: string, p: nat)
    requires whole != [] && All(whole, Digit) && All(digits, Digit) && (e == [] || IsExponent(e))
    requires var d := p + |whole| + 1;
             && Stands(t, p, whole) && Stands(t, d - 1, ".") && Stands(t, d, digits) && Stands(t, d + |digits|, e)
             && !WordChar(Ch(t, d + |digits| + |e|))
    ensures var q := p + |whole| + 1 + |digits| + |e|; Scan(k, t, p) == Emit(LitFloat(t[p..q]), q)
  {
    var d := p + |whole| + 1;
    StandsFirst(t, d - 1, ".");
    WholeReads(whole, t, p);
    FractionReads(digits, e, t, d);
    FractionAt(k, t, p, d, d + |digits| + |e|);
  }

  lemma FractionAt(k: Tables, t: string, p: nat, d: nat, q: nat)
    requires p + 1 < d <= q <= |t| && IsDigit(t[p]) && End(t, p + 1, IsDigit) == d - 1 && t[d - 1] == '.'
    requires Ch(t, p + 1) == '.' || IsDigit(Ch(t, p + 1))
    requires FractionEnd(t, d) == q && !IsIdentPart(Ch(t, q))
    ensures Scan(k, t, p) == Emit(LitFloat(t[p..q]), q)
  {
    SliceJoins(t, p, d, q);
    PointFollows(t, p, d - 1);
    assert Fraction(t, d, t[p..d]) == Emit(LitFloat(t[p..d] + t[d..q]), q);
    ScanDigit(k, t, p);
  }

  lemma PointFollows(t: string, p: nat, n: nat)
    requires p < n < |t| && IsDigit(t[p]) && End(t, p + 1, IsDigit) == n && t[n] == '.'
    requires Ch(t, p + 1) != 'x' && Ch(t, p + 1) != 'X'
    ensures Number(t, p) == Fraction(t, n + 1, t[p..n + 1])
  {}

  lemma ScanDigit(k: Tables, t: string, p: nat)
    requires p < |t| && IsDigit(t[p])
    ensures Scan(k, t, p) == Number(t, p)
  {}

  /** A point and digits, without a digit in front: the literal begins with `0`. */
  lemma PointReads(k: Tables, digits: string, e: string, t: string, p: nat)
    requires digits != [] && All(digits, Digit) && (e == [] || IsExponent(e))
    requires Stands(t, p, "." + (digits + e)) && !WordChar(Ch(t, p + 1 + |digits| + |e|))
    ensures Scan(k, t, p) == Emit(LitFloat("0." + (digits + e)), p + 1 + |digits| + |e|)
  {
    StandsParts(t, p, ".", digits + e);
    StandsFirst(t, p, ".");
    StandsWhole(t, p + 1, digits + e);
    StandsParts(t, p + 1, digits, e);
    StandsFirst(t, p + 1, digits);
    FractionReads(digits, e, t, p + 1);
    assert Scan(k, t, p) == Fraction(t, p + 1, "0.");
  }

  lemma ExponentFollows(t: string, p: nat, d: nat, q: nat)
    requires p < d < q <= |t| && IsDigit(t[p]) && End(t, p + 1, IsDigit) == d && (t[d] == 'e' || t[d] == 'E')
    requires Ch(t, p + 1) != 'x' && Ch(t, p + 1) != 'X' && ExponentEnd(t, d) == q
    ensures Number(t, p) == Emit(LitFloat(t[p..q]), q)
  {}

  /** Digits and an exponent, without a point; only a digit behind them would belong to them. */
  lemma ScientificReads(k: Tables, whole: string, e: string, t: string, p: nat)
    requires whole != [] && All(whole, Digit) && IsExponent(e)
    requires Stands(t, p, whole + e) && !Digit(Ch(t, p + |whole| + |e|))
    ensures Scan(k, t, p) == Emit(LitFloat(whole + e), p + |whole| + |e|)
  {
    StandsWhole(t, p, whole + e);
    StandsParts(t, p, whole, e);
    StandsFirst(t, p + |whole|, e);
    WholeReads(whole, t, p);
    ExponentReads(e, t, p + |whole|);
    ExponentFollows(t, p, p + |whole|, p + |whole| + |e|);
    ScanDigit(k, t, p);
  }

  // ---- Annotations ----

  /** Trimming takes away the blanks at both ends and nothing else. */
  lemma {:induction false} TrimComesBack(a: string, r: string, b: string, blank: char -> bool)
    requires All(a, blank) && All(b, blank)
    requires r != [] ==> !blank(r[0]) && !blank(r[|r| - 1])
    ensures Trim(a + r + b, blank) == r
    decreases |a| + |b|, |b|
  {
    var s := a + r + b;
    if a != [] {
      assert s[0] == a[0] && s[1..] == a[1..] + r + b;
      TrimComesBack(a[1..], r, b, blank);
    } else if b == [] {
      assert s == r;
    } else if r == [] {
      assert s == b + r + [];
      TrimComesBack(b, r, [], blank);
    } else {
      assert s[0] == r[0] && s[|s| - 1] == b[|b| - 1];
      assert s[..|s| - 1] == a + r + b[..|b| - 1];
      TrimComesBack(a, r, b[..|b| - 1], blank);
    }
  }

  /** The text of an annotation without the blanks around it. */
  ghost predicate IsNote(k: Tables, note: string) {
    note != [] ==> !k.blank(note[0]) && !k.blank(note[|note| - 1])
  }

  /** An annotation: a line that begins with `@`, or `@<` for one that follows what it annotates. */
  lemma NoteReads(k: Tables, post: bool, a: string, note: string, b: string, t: string, p: nat)
    requires All(a, k.blank) && All(b, k.blank) && IsNote(k, note)
    requires NoteStands(t, p, post, a + note + b)
    ensures var q := p + (if post then 2 else 1) + |a + note + b|;
            Scan(k, t, p) == Emit(if post then PostAnnotation(note) else PreAnnotation(note), Settle(t, q))
  {
    TrimComesBack(a, note, b, k.blank);
    NoteAt(k, post, a + note + b, t, p);
  }

  /** A line that begins at `p` with the mark of an annotation and goes on with `body`. */
  ghost predicate NoteStands(t: string, p: nat, post: bool, body: string) {
    var from := if post then p + 2 else p + 1;
    && from + |body| <= |t| && t[p] == '@' && (post <==> Ch(t, p + 1) == '<')
    && Stands(t, from, body) && All(body, c => c != '\n')
    && (from + |body| == |t| || t[from + |body|] == '\n')
  }

  lemma NoteAt(k: Tables, post: bool, body: string, t: string, p: nat)
    requires NoteStands(t, p, post, body)
    ensures var q, note := p + (if post then 2 else 1) + |body|, Trim(body, k.blank);
            Scan(k, t, p) == Emit(if post then PostAnnotation(note) else PreAnnotation(note), Settle(t, q))
  {
    var from := if post then p + 2 else p + 1;
    StandsWhole(t, from, body);
    RunStands(t, from, body, InLine);
    NoteFrom(k, t, p, from, from + |body|);
  }

  lemma NoteFrom(k: Tables, t: string, p: nat, from: nat, q: nat)
    requires p < |t| && t[p] == '@' && from == (if Ch(t, p + 1) == '<' then p + 2 else p + 1) <= q <= |t|
    requires End(t, from, InLine) == q
    ensures var note := Trim(t[from..q], k.blank);
            Scan(k, t, p) == Emit(if from == p + 2 then PostAnnotation(note) else PreAnnotation(note), Settle(t, q))
  {
    ScanMark(k, t, p);
  }

  lemma ScanMark(k: Tables, t: string, p: nat)
    requires p < |t| && t[p] == '@'
    ensures Scan(k, t, p) == Annotation(k, t, p)
  {}

  // ---- Gaps ----

  /** What may stand between tokens, apart from form feeds and continuations: blanks, newlines and comments. */
  datatype Filler = Blank(c: char) | Comment(length: nat)

  /** The text from `p` to `q` is the filler `f`; a comment takes its newline with it. */
  ghost predicate Fill(t: string, p: nat, f: Filler, q: nat) {
    && p < q <= |t|
    && match f
       case Blank(c) => q == p + 1 && t[p] == c && (c == ' ' || c == '\r' || c == '\n')
       case Comment(length) =>
         && q == p + length + 2 && t[p] == '#' && t[q - 1] == '\n'
         && forall i :: p <= i < q - 1 ==> t[i] != '\n'
  }

  ghost predicate Fills(t: string, p: nat, gap: seq<Filler>, ends: seq<nat>, q: nat)
    requires |gap| == |ends|
    decreases |gap|
  {
    if gap == [] then p == q
    else Fill(t, p, gap[0], ends[0]) && Fills(t, ends[0], gap[1..], ends[1..], q)
  }

  lemma FillSettles(f: Filler, t: string, p: nat, q: nat)
    requires Fill(t, p, f, q)
    ensures Settle(t, p) == Settle(t, q)
  {
    if f.Comment? {
      RunEnds(t, p, q - 1, InLine);
    }
  }

  /** Behind a token that binds, the whole gap is skipped. */
  lemma {:induction false} GapSettles(gap: seq<Filler>, ends: seq<nat>, t: string, p: nat, q: nat)
    requires |gap| == |ends| && Fills(t, p, gap, ends, q) && p <= |t| && Ch(t, q) !in "\n \r#"
    ensures q <= |t| && Settle(t, p) == q
    decreases |gap|
  {
    if gap != [] {
      GapSettles(gap[1..], ends[1..], t, ends[0], q);
      FillSettles(gap[0], t, p, ends[0]);
    }
  }

  /** A backslash, blanks and a newline are skipped. */
  lemma ContinuationSkips(k: Tables, pad: string, t: string, p: nat)
    requires (forall i :: 0 <= i < |pad| ==> pad[i] == ' ' || pad[i] == '\r') && Stands(t, p, "\\" + pad + "\n")
    ensures Scan(k, t, p) == Skip(p + |pad| + 2)
  {
    StandsParts(t, p, "\\" + pad, "\n");
    StandsParts(t, p, "\\", pad);
    StandsFirst(t, p, "\\");
    StandsFirst(t, p + 1 + |pad|, "\n");
    RunStands(t, p + 1, pad, IsPad);
    assert Scan(k, t, p) == Continuation(t, p);
  }

  // ---- Triple-quoted literals ----

  /** A line of a block: its leading spaces and the rest. */
  datatype Line = Line(spaces: nat, rest: string)

  function Spaces(n: nat): string {
    seq(n, i => ' ')
  }

  /** The leading spaces a line keeps when up to `n` are removed. */
  function Kept(l: Line, n: nat): string {
    Spaces(if l.spaces < n then 0 else l.spaces - n)
  }

  /** The lines with `n` leading spaces removed from each, as far as it has them. */
  function Lined(ls: seq<Line>, n: nat): string
    requires ls != []
    decreases |ls|, 1
  {
    Kept(ls[0], n) + (ls[0].rest + Tail(ls, n))
  }

  /** What the lines after the first add. */
  function Tail(ls: seq<Line>, n: nat): string
    requires ls != []
    decreases |ls|, 0
  {
    if |ls| == 1 then "" else "\n" + Lined(ls[1..], n)
  }

  /** No quote, backslash or newline, and no space in front. */
  ghost predicate PlainRest(rest: string) {
    (forall i :: 0 <= i < |rest| ==> rest[i] !in "\"\\\n") && (rest != [] ==> rest[0] != ' ')
  }

  ghost predicate IndentedAt(t: string, p: nat, l: Line) {
    && p + l.spaces + |l.rest| <= |t| && PlainRest(l.rest)
    && (forall i :: p <= i < p + l.spaces ==> t[i] == ' ') && Stands(t, p + l.spaces, l.rest)
  }

  /** From `p` on stand the lines `ls`, and behind the last the closing quotes, which end at `q`. */
  ghost predicate BlockStands(t: string, p: nat, ls: seq<Line>, q: nat)
    requires ls != []
    decreases |ls|
  {
    var e := p + ls[0].spaces + |ls[0].rest|;
    && IndentedAt(t, p, ls[0])
    && if |ls| == 1 then e + 3 == q <= |t| && t[e] == t[e + 1] == t[e + 2] == '"'
       else e < |t| && t[e] == '\n' && BlockStands(t, e + 1, ls[1..], q)
  }

  /** Leading spaces: those still to be skipped are lost, the others kept. */
  lemma {:induction false} SpacesTripled(t: string, p: nat, m: nat, indent: nat, skip: nat)
    requires p + m <= |t| && forall i :: p <= i < p + m ==> t[i] == ' '
    ensures Tripled(t, p, indent, skip, true)
            == Put(Spaces(if m < skip then 0 else m - skip),
                   Tripled(t, p + m, indent, if m < skip then skip - m else 0, true))
    decreases m
  {
    if m == 0 {
      PutNothing(Tripled(t, p, indent, skip, true));
    } else if skip > 0 {
      SpacesTripled(t, p + 1, m - 1, indent, skip - 1);
    } else {
      SpacesTripled(t, p + 1, m - 1, indent, 0);
      PutTwice(" ", Spaces(m - 1), Tripled(t, p + m, indent, 0, true));
      assert " " + Spaces(m - 1) == Spaces(m);
    }
  }

  /** The rest of a line stands for itself. */
  lemma {:induction false} RestTripled(t: string, p: nat, rest: string, indent: nat, skip: nat, begins: bool)
    requires Stands(t, p, rest) && forall i :: 0 <= i < |rest| ==> rest[i] !in "\"\\\n"
    requires begins && rest != [] ==> rest[0] != ' '
    ensures Tripled(t, p, indent, skip, begins)
            == Put(rest, Tripled(t, p + |rest|, indent, skip, begins && rest == []))
    decreases |rest|
  {
    if rest == [] {
      PutNothing(Tripled(t, p, indent, skip, begins));
    } else {
      StandsFirst(t, p, rest);
      assert Stands(t, p + 1, rest[1..]) by {
        assert rest == rest[..1] + rest[1..];
        StandsParts(t, p, rest[..1], rest[1..]);
      }
      RestTripled(t, p + 1, rest[1..], indent, skip, false);
      PutTwice([rest[0]], rest[1..], Tripled(t, p + |rest|, indent, skip, false));
      assert [rest[0]] + rest[1..] == rest;
    }
  }

  lemma SpacesThen(t: string, p: nat, l: Line, indent: nat, y: string, q: nat)
    requires p + l.spaces <= |t| && forall i :: p <= i < p + l.spaces ==> t[i] == ' '
    requires Tripled(t, p + l.spaces, indent, if l.spaces < indent then indent - l.spaces else 0, true) == Some((y, q))
    ensures Tripled(t, p, indent, indent, true) == Some((Kept(l, indent) + y, q))
  {
    SpacesTripled(t, p, l.spaces, indent, indent);
  }

  lemma {:induction false} LinesTripled(t: string, p: nat, ls: seq<Line>, indent: nat, q: nat)
    requires ls != [] && BlockStands(t, p, ls, q)
    ensures p <= |t| && Tripled(t, p, indent, indent, true) == Some((Lined(ls, indent), q))
    decreases |ls|, 2
  {
    var l := ls[0];
    RestBlock(t, p, ls, indent, if l.spaces < indent then indent - l.spaces else 0, q);
    SpacesThen(t, p, l, indent, l.rest + Tail(ls, indent), q);
  }

  /** From behind its leading spaces on, a line and those after it. */
  lemma {:induction false} RestBlock(t: string, p: nat, ls: seq<Line>, indent: nat, skip: nat, q: nat)
    requires ls != [] && BlockStands(t, p, ls, q)
    ensures var m := p + ls[0].spaces;
            m <= |t| && Tripled(t, m, indent, skip, true) == Some((ls[0].rest + Tail(ls, indent), q))
    decreases |ls|, 1
  {
    var m, rest := p + ls[0].spaces, ls[0].rest;
    var e := m + |rest|;
    RestTripled(t, m, rest, indent, skip, true);
    TailBlock(t, e, ls, indent, skip, rest == [], q);
  }

  lemma {:induction false} TailBlock(t: string, e: nat, ls: seq<Line>, indent: nat, skip: nat, begins: bool, q: nat)
    requires ls != []
    requires if |ls| == 1 then e + 3 == q <= |t| && t[e] == t[e + 1] == t[e + 2] == '"'
             else e < |t| && t[e] == '\n' && BlockStands(t, e + 1, ls[1..], q)
    ensures Tripled(t, e, indent, skip, begins) == Some((Tail(ls, indent), q))
    decreases |ls|, 0
  {
    if |ls| > 1 {
      LinesTripled(t, e + 1, ls[1..], indent, q);
    }
  }

  /**
   A block between triple quotes, begun behind a newline or not: its value is the lines without the
   indentation of the first.
   */
  lemma BlockReads(k: Tables, ls: seq<Line>, t: string, p: nat, q: nat)
    requires ls != [] && p + 3 <= |t| && t[p] == t[p + 1] == t[p + 2] == '"'
    requires BlockStands(t, if Ch(t, p + 3) == '\n' then p + 4 else p + 3, ls, q)
    ensures Scan(k, t, p) == Emit(LitString(Lined(ls, ls[0].spaces)), q)
  {
    var body, n := if Ch(t, p + 3) == '\n' then p + 4 else p + 3, ls[0].spaces;
    BlockIndent(t, body, ls, q);
    RestBlock(t, body, ls, n, n, q);
    assert Lined(ls, n) == Kept(ls[0], n) + (ls[0].rest + Tail(ls, n)) && Kept(ls[0], n) == "";
    assert "" + (ls[0].rest + Tail(ls, n)) == ls[0].rest + Tail(ls, n);
    assert Triple(t, p) == Emit(LitString(Lined(ls, n)), q);
    ScanQuote(k, t, p);
  }

  lemma BlockIndent(t: string, p: nat, ls: seq<Line>, q: nat)
    requires ls != [] && BlockStands(t, p, ls, q)
    ensures p <= |t| && End(t, p, IsSpace) == p + ls[0].spaces
  {
    var m, rest := p + ls[0].spaces, ls[0].rest;
    if rest != [] {
      StandsFirst(t, m, rest);
    }
    RunEnds(t, p, m, IsSpace);
  }

  lemma ScanQuote(k: Tables, t: string, p: nat)
    requires p + 3 <= |t| && t[p] == t[p + 1] == t[p + 2] == '"'
    ensures Scan(k, t, p) == Triple(t, p)
  {}

  // ---- Whole texts ----

  ghost predicate IsFloat(lit: string, whole: string, digits: string, e: string) {
    whole != [] && All(whole, Digit) && All(digits, Digit) && (e == [] || IsExponent(e)) && lit == whole + "." + digits + e
  }

  ghost predicate IsScientific(lit: string, whole: string, e: string) {
    whole != [] && All(whole, Digit) && IsExponent(e) && lit == whole + e
  }

  ghost predicate IsInteger(lit: string) {
    || (lit != [] && All(lit, Digit))
    || (|lit| > 2 && lit[0] == '0' && lit[1] == 'x' && All(lit[2..], HexDigit))
  }

  /** The tokens that a text can have, but for the end of the file. */
  ghost predicate Writable(k: Tables, tok: Tok)
    decreases tok.PostAnnotation?, 1
  {
    WritableAs(k, tok)
  }

  ghost predicate WritableAs(k: Tables, tok: Tok)
    decreases tok.PostAnnotation?, 0
  {
    match tok
    case Ident(name) => IsWord(name)
    case Keyword(name) => IsWord(name) && k.keyword(name)
    case LitInt(lit) => IsInteger(lit)
    case LitFloat(lit) =>
      (exists whole, digits, e :: IsFloat(lit, whole, digits, e)) || (exists whole, e :: IsScientific(lit, whole, e))
    case PreAnnotation(note) => IsNote(k, note) && All(note, c => c != '\n')
    case PostAnnotation(note) => Writable(k, PreAnnotation(note))
    case Eof => false
    case _ => true
  }

  lemma WritableIs(k: Tables, tok: Tok)
    ensures Writable(k, tok) == WritableAs(k, tok)
    ensures tok.PostAnnotation? ==> Writable(k, tok) == WritableAs(k, PreAnnotation(tok.note))
  {
    assert tok.PostAnnotation? ==> Writable(k, PreAnnotation(tok.note)) == WritableAs(k, PreAnnotation(tok.note));
  }

  function Spelled(k: Tables, tok: Tok): string
    decreases tok.Ident?, 1
  {
    SpelledAs(k, tok)
  }

  /** How a token is written; an identifier that is a keyword needs a dollar sign. */
  function SpelledAs(k: Tables, tok: Tok): string
    decreases tok.Ident?, 0
  {
    match tok
    case Ident(name) => (if k.keyword(name) then "$" else "") + Spelled(k, Keyword(name))
    case Keyword(name) => name
    case LitInt(lit) => lit
    case LitFloat(lit) => lit
    case LitString(value) => "\"" + Escaped(value)
    case PreAnnotation(note) => "@" + " " + note + "\n"
    case PostAnnotation(note) => "@<" + " " + note + "\n"
    case Eol => "\n"
    case _ => Sign(tok)
  }

  lemma SpelledIs(k: Tables, tok: Tok)
    ensures Spelled(k, tok) == SpelledAs(k, tok)
    ensures tok.Ident? ==> Spelled(k, tok) == if k.keyword(tok.name) then "$" + tok.name else tok.name
  {
    if tok.Ident? {
      assert Spelled(k, Keyword(tok.name)) == SpelledAs(k, Keyword(tok.name));
      assert "" + tok.name == tok.name;
    }
  }

  /** A list of tokens, each with a space behind it. */
  function TextOf(k: Tables, toks: seq<Tok>): string {
    if toks == [] then "" else Spelled(k, toks[0]) + (" " + TextOf(k, toks[1..]))
  }

  /** The lexer's law of end-of-line tokens, for a list with the end of the file behind it. */
  predicate Orderly(toks: seq<Tok>)
    decreases |toks|, 0
  {
    toks == [] || OrderlyFrom(toks[0], toks[1..])
  }

  predicate OrderlyFrom(tok: Tok, rest: seq<Tok>)
    decreases |rest|, 1
  {
    MayFollow(tok, if rest == [] then Eof else rest[0]) && Orderly(rest)
  }

  function Toks(ts: seq<Token>): seq<Tok> {
    if ts == [] then [] else [ts[0].tok] + Toks(ts[1..])
  }

  lemma IntegerReads(k: Tables, lit: string, t: string, p: nat)
    requires IsInteger(lit) && Stands(t, p, lit) && Ch(t, p + |lit|) == ' '
    ensures Scan(k, t, p) == Emit(LitInt(lit), p + |lit|)
  {
    if All(lit, Digit) {
      DecimalReads(k, lit, t, p);
    } else {
      assert lit == ['0', 'x'] + lit[2..] == "0x" + lit[2..];
      HexReads(k, 'x', lit[2..], t, p);
    }
  }

  lemma RealReads(k: Tables, lit: string, t: string, p: nat)
    requires Writable(k, LitFloat(lit)) && Stands(t, p, lit) && Ch(t, p + |lit|) == ' '
    ensures Scan(k, t, p) == Emit(LitFloat(lit), p + |lit|)
  {
    WritableIs(k, LitFloat(lit));
    if whole, digits, e :| IsFloat(lit, whole, digits, e) {
      FloatReads(k, whole, digits, e, t, p);
    } else {
      var whole, e :| IsScientific(lit, whole, e);
      ScientificReads(k, whole, e, t, p);
    }
  }

  lemma StringReads(k: Tables, value: string, t: string, p: nat)
    requires Stands(t, p, "\"" + Escaped(value)) && Ch(t, p + 1 + |Escaped(value)|) != '"'
    ensures Scan(k, t, p) == Emit(LitString(value), p + 1 + |Escaped(value)|)
  {
    var lit := "\"" + Escaped(value);
    Around(t, p, lit);
    StringComesBack(k, value, t[..p], t[p + |lit|..]);
  }

  lemma StandsJoin(t: string, p: nat, a: string, b: string)
    requires Stands(t, p, a) && Stands(t, p + |a|, b)
    ensures Stands(t, p, a + b)
  {
    forall i | 0 <= i < |a + b|
      ensures t[p + i] == (a + b)[i]
    {
      assert i >= |a| ==> t[p + |a| + (i - |a|)] == b[i - |a|];
    }
  }

  /** The parts of an annotation's line. */
  lemma LineParts(mark: string, note: string, t: string, p: nat)
    requires Stands(t, p, mark + " " + note + "\n")
    ensures var q := p + |mark| + 1 + |note|;
            && q < |t| && t[q] == '\n' && t[p + |mark|] == ' '
            && Stands(t, p, mark) && Stands(t, p + |mark|, " " + note + [])
  {
    StandsParts(t, p, mark + " " + note, "\n");
    StandsFirst(t, p + |mark| + 1 + |note|, "\n");
    StandsParts(t, p, mark + " ", note);
    StandsParts(t, p, mark, " ");
    StandsFirst(t, p + |mark|, " ");
    StandsJoin(t, p + |mark|, " ", note);
    assert " " + note + [] == " " + note;
  }

  lemma LineStands(post: bool, note: string, t: string, p: nat)
    requires All(note, c => c != '\n') && Stands(t, p, (if post then "@<" else "@") + " " + note + "\n")
    ensures var q := p + (if post then 3 else 2) + |note|;
            q < |t| && t[q] == '\n' && NoteStands(t, p, post, " " + note + [])
  {
    var mark := if post then "@<" else "@";
    LineParts(mark, note, t, p);
    StandsFirst(t, p, mark);
  }

  /** The line of an annotation, with its newline. */
  lemma LineReads(k: Tables, post: bool, note: string, t: string, p: nat)
    requires k.blank(' ') && IsNote(k, note) && All(note, c => c != '\n')
    requires Stands(t, p, (if post then "@<" else "@") + " " + note + "\n")
    ensures var q := p + (if post then 4 else 3) + |note|;
            q <= |t| && Reads(k, t, p, [if post then PostAnnotation(note) else PreAnnotation(note)], Settle(t, q))
  {
    var q := p + (if post then 3 else 2) + |note|;
    LineStands(post, note, t, p);
    NoteComes(k, post, note, t, p, q);
    NewlineSettles(t, q);
  }

  lemma NoteComes(k: Tables, post: bool, note: string, t: string, p: nat, q: nat)
    requires k.blank(' ') && IsNote(k, note) && NoteStands(t, p, post, " " + note + [])
    requires q == p + (if post then 3 else 2) + |note|
    ensures q <= |t| && Reads(k, t, p, [if post then PostAnnotation(note) else PreAnnotation(note)], Settle(t, q))
  {
    NoteReads(k, post, " ", note, [], t, p);
    ReadsOne(k, t, p, if post then PostAnnotation(note) else PreAnnotation(note), Settle(t, q));
  }

  lemma NewlineSettles(t: string, q: nat)
    requires q < |t| && t[q] == '\n'
    ensures Settle(t, q) == Settle(t, q + 1)
  {}

  /** From `p` the lexer reads the tokens `toks` and comes to `q`. */
  ghost predicate Reads(k: Tables, t: string, p: nat, toks: seq<Tok>, q: nat)
    decreases |t| - p, 2
  {
    p <= |t| && ((p == q && toks == []) || (p < |t| && ReadsStep(k, t, p, toks, q)))
  }

  ghost predicate ReadsStep(k: Tables, t: string, p: nat, toks: seq<Tok>, q: nat)
    requires p < |t|
    decreases |t| - p, 1
  {
    ReadsBy(k, t, p, Scan(k, t, p), toks, q)
  }

  /** The same with the step from `p` named. */
  ghost predicate ReadsBy(k: Tables, t: string, p: nat, s: Step, toks: seq<Tok>, q: nat)
    requires p < |t| && Moves(t, p, s)
    decreases |t| - p, 0
  {
    match s
    case Fail(_, _) => false
    case Skip(end) => Reads(k, t, end, toks, q)
    case Emit(tok, end) => toks != [] && toks[0] == tok && Reads(k, t, end, toks[1..], q)
  }

  lemma ReadsOne(k: Tables, t: string, p: nat, tok: Tok, q: nat)
    requires p < |t| && Scan(k, t, p) == Emit(tok, q)
    ensures Reads(k, t, p, [tok], q)
  {
    assert [tok][1..] == [];
    assert ReadsStep(k, t, p, [tok], q);
  }

  lemma {:induction false} ReadsAppend(k: Tables, t: string, p: nat, a: seq<Tok>, q: nat, b: seq<Tok>, r: nat)
    requires Reads(k, t, p, a, q) && Reads(k, t, q, b, r)
    ensures Reads(k, t, p, a + b, r)
    decreases |t| - p, 1
  {
    if p == q && a == [] {
      assert a + b == b;
    } else {
      assert ReadsStep(k, t, p, a, q);
      AppendBy(k, t, p, Scan(k, t, p), a, q, b, r);
      assert ReadsStep(k, t, p, a + b, r);
    }
  }

  lemma {:induction false} AppendBy(k: Tables, t: string, p: nat, s: Step, a: seq<Tok>, q: nat, b: seq<Tok>, r: nat)
    requires p < |t| && Moves(t, p, s) && ReadsBy(k, t, p, s, a, q) && Reads(k, t, q, b, r)
    ensures ReadsBy(k, t, p, s, a + b, r)
    decreases |t| - p, 0
  {
    if s.Skip? {
      ReadsAppend(k, t, s.end, a, q, b, r);
    } else {
      ReadsAppend(k, t, s.end, a[1..], q, b, r);
      assert (a + b)[1..] == a[1..] + b;
    }
  }

  /** A token, and then nothing up to `q`. */
  lemma ReadsThen(k: Tables, t: string, p: nat, tok: Tok, e: nat, q: nat)
    requires Reads(k, t, p, [tok], e) && Reads(k, t, e, [], q)
    ensures Reads(k, t, p, [tok], q)
  {
    ReadsAppend(k, t, p, [tok], e, [], q);
    assert [tok] + [] == [tok];
  }

  /** A literal that a space follows. */
  lemma LiteralReads(k: Tables, tok: Tok, t: string, p: nat)
    requires (tok.LitInt? || tok.LitFloat? || tok.LitString?) && Writable(k, tok)
    requires Stands(t, p, Spelled(k, tok)) && Ch(t, p + |Spelled(k, tok)|) == ' '
    ensures Reads(k, t, p, [tok], Beyond(t, tok, p + |Spelled(k, tok)|))
  {
    WritableIs(k, tok);
    SpelledIs(k, tok);
    FirstChar(k, tok);
    match tok {
      case LitInt(lit) => IntegerReads(k, lit, t, p);
      case LitFloat(lit) => RealReads(k, lit, t, p);
      case LitString(value) => StringReads(k, value, t, p);
    }
    ReadsOne(k, t, p, tok, p + |Spelled(k, tok)|);
  }

  lemma NameReads(k: Tables, tok: Tok, t: string, p: nat)
    requires (tok.Ident? || tok.Keyword?) && Writable(k, tok)
    requires Stands(t, p, Spelled(k, tok)) && Ch(t, p + |Spelled(k, tok)|) == ' '
    ensures Reads(k, t, p, [tok], Beyond(t, tok, p + |Spelled(k, tok)|))
  {
    WritableIs(k, tok);
    SpelledIs(k, tok);
    FirstChar(k, tok);
    if tok.Ident? && k.keyword(tok.name) {
      DollarReads(k, tok.name, t, p);
    } else {
      WordReads(k, tok.name, t, p);
    }
    ReadsOne(k, t, p, tok, p + |Spelled(k, tok)|);
  }

  lemma AnnotationReads(k: Tables, tok: Tok, t: string, p: nat)
    requires k.blank(' ') && (tok.PreAnnotation? || tok.PostAnnotation?) && Writable(k, tok)
    requires Stands(t, p, Spelled(k, tok))
    ensures Reads(k, t, p, [tok], Beyond(t, tok, p + |Spelled(k, tok)|))
  {
    WritableIs(k, tok);
    SpelledIs(k, tok);
    LineReads(k, tok.PostAnnotation?, tok.note, t, p);
  }

  /** What a token begins with. */
  lemma FirstChar(k: Tables, tok: Tok)
    requires Writable(k, tok) && tok != Eol
    ensures Spelled(k, tok) != []
    ensures var c := Spelled(k, tok)[0]; c !in "\n \r#" && (Closer(c).Some? ==> Closes(tok))
  {
    WritableIs(k, tok);
    SpelledIs(k, tok);
    if tok.LitFloat? {
      FloatFirst(k, tok.digits);
    }
  }

  lemma FloatFirst(k: Tables, lit: string)
    requires WritableAs(k, LitFloat(lit))
    ensures lit != [] && Digit(lit[0])
  {
    if whole, digits, e :| IsFloat(lit, whole, digits, e) {
      assert lit[0] == whole[0];
    } else {
      var whole, e :| IsScientific(lit, whole, e);
      assert lit[0] == whole[0];
    }
  }

  /** Every token but those of ends of lines and files is read back where a space follows it. */
  lemma TokenComesBack(k: Tables, tok: Tok, t: string, p: nat)
    requires k.blank(' ') && Writable(k, tok) && tok != Eol
    requires Stands(t, p, Spelled(k, tok)) && Ch(t, p + |Spelled(k, tok)|) == ' '
    ensures Reads(k, t, p, [tok], Beyond(t, tok, p + |Spelled(k, tok)|))
  {
    if tok.Ident? || tok.Keyword? {
      NameReads(k, tok, t, p);
    } else if tok.LitInt? || tok.LitFloat? || tok.LitString? {
      LiteralReads(k, tok, t, p);
    } else if tok.PreAnnotation? || tok.PostAnnotation? {
      AnnotationReads(k, tok, t, p);
    } else {
      SignComesBack(k, tok, t, p);
    }
  }

  lemma SignComesBack(k: Tables, tok: Tok, t: string, p: nat)
    requires Writable(k, tok) && tok != Eol
    requires !tok.Ident? && !tok.Keyword? && !tok.LitInt? && !tok.LitFloat? && !tok.LitString?
    requires !tok.PreAnnotation? && !tok.PostAnnotation?
    requires Stands(t, p, Spelled(k, tok)) && Ch(t, p + |Spelled(k, tok)|) == ' '
    ensures Reads(k, t, p, [tok], Beyond(t, tok, p + |Spelled(k, tok)|))
  {
    SignSpelled(k, tok);
    SymbolFirst(k, tok, t, p);
  }

  lemma SignSpelled(k: Tables, tok: Tok)
    requires Writable(k, tok) && tok != Eol
    requires !tok.Ident? && !tok.Keyword? && !tok.LitInt? && !tok.LitFloat? && !tok.LitString?
    requires !tok.PreAnnotation? && !tok.PostAnnotation?
    ensures Spelled(k, tok) == Sign(tok) != ""
  {
    WritableIs(k, tok);
    SpelledIs(k, tok);
  }

  lemma SymbolFirst(k: Tables, tok: Tok, t: string, p: nat)
    requires Sign(tok) != "" && Stands(t, p, Sign(tok)) && Ch(t, p + |Sign(tok)|) == ' '
    ensures Reads(k, t, p, [tok], Beyond(t, tok, p + |Sign(tok)|))
  {
    SymbolComesBack(k, tok, t, p);
    ReadsOne(k, t, p, tok, Beyond(t, tok, p + |Sign(tok)|));
  }

  /** A newline and a space before a token that is no closer. */
  lemma EolReads(k: Tables, t: string, p: nat)
    requires p + 2 < |t| && t[p] == '\n' && t[p + 1] == ' ' && t[p + 2] !in "\n \r#" && Closer(t[p + 2]).None?
    ensures Scan(k, t, p) == Emit(Eol, p + 2)
  {
    assert Settle(t, p + 2) == p + 2;
    assert Settle(t, p + 1) == p + 2;
    assert Scan(k, t, p) == Lines(t, p);
  }

  /** From `p` to its end the text spells `toks`, with a space behind each. */
  ghost predicate Spells(k: Tables, toks: seq<Tok>, t: string, p: nat)
    decreases |toks|, 0
  {
    if toks == [] then p == |t| else SpellsFrom(k, toks[0], toks[1..], t, p)
  }

  ghost predicate SpellsFrom(k: Tables, tok: Tok, rest: seq<Tok>, t: string, p: nat)
    decreases |rest|, 1
  {
    var q := p + |Spelled(k, tok)|;
    && Writable(k, tok) && Stands(t, p, Spelled(k, tok))
    && q < |t| && t[q] == ' ' && Spells(k, rest, t, q + 1)
  }

  lemma {:induction false} TextSpells(k: Tables, toks: seq<Tok>, t: string, p: nat)
    requires forall i :: 0 <= i < |toks| ==> Writable(k, toks[i])
    requires Stands(t, p, TextOf(k, toks)) && p + |TextOf(k, toks)| == |t|
    ensures Spells(k, toks, t, p)
    decreases |toks|
  {
    if toks != [] {
      var word, rest := Spelled(k, toks[0]), TextOf(k, toks[1..]);
      SpaceStands(t, p, word, rest);
      TextSpells(k, toks[1..], t, p + |word| + 1);
      assert SpellsFrom(k, toks[0], toks[1..], t, p);
    }
  }

  lemma SpaceStands(t: string, p: nat, word: string, rest: string)
    requires Stands(t, p, word + (" " + rest))
    ensures Stands(t, p, word) && t[p + |word|] == ' ' && Stands(t, p + |word| + 1, rest)
  {
    StandsParts(t, p, word, " " + rest);
    StandsParts(t, p + |word|, " ", rest);
    StandsFirst(t, p + |word|, " ");
  }

  lemma NextChar(k: Tables, toks: seq<Tok>, t: string, p: nat)
    requires Spells(k, toks, t, p) && (toks != [] ==> toks[0] != Eol)
    ensures Ch(t, p) !in "\n \r#"
    ensures toks != [] ==> p < |t| && (Closer(t[p]).Some? ==> Closes(toks[0]))
  {
    if toks != [] {
      assert SpellsFrom(k, toks[0], toks[1..], t, p);
      FirstChar(k, toks[0]);
      StandsFirst(t, p, Spelled(k, toks[0]));
    }
  }

  lemma ToksFirst(first: Token, ts: seq<Token>)
    ensures Toks([first] + ts) == [first.tok] + Toks(ts)
  {
    assert ([first] + ts)[1..] == ts;
  }

  lemma LexStep(k: Tables, t: string, p: nat, s: Step)
    requires p < |t| && s == Scan(k, t, p)
    ensures Steps(k, t, p, s)
  {}

  /** What the step `s` from `p` means for the tokens of the text. */
  ghost predicate Steps(k: Tables, t: string, p: nat, s: Step)
    requires p < |t| && Moves(t, p, s)
  {
    && (s.Skip? ==> Lex(k, t, p) == Lex(k, t, s.end))
    && (s.Emit? && Lex(k, t, s.end).Ok? ==> Lex(k, t, p) == Ok([At(t, s.tok, p)] + Lex(k, t, s.end).value))
  }

  /** Tokens read up to the end of the text are the tokens of the text, but for the end of the file. */
  lemma {:induction false} ReadsLex(k: Tables, t: string, p: nat, toks: seq<Tok>)
    requires Reads(k, t, p, toks, |t|)
    ensures Lex(k, t, p).Ok? && Toks(Lex(k, t, p).value) == toks + [Eof]
    decreases |t| - p, 1
  {
    if p == |t| {
      var ts := [At(t, Eof, p)];
      assert ts[1..] == [];
    } else {
      assert ReadsStep(k, t, p, toks, |t|);
      LexStep(k, t, p, Scan(k, t, p));
      LexBy(k, t, p, Scan(k, t, p), toks);
    }
  }

  lemma {:induction false} LexBy(k: Tables, t: string, p: nat, s: Step, toks: seq<Tok>)
    requires p < |t| && Moves(t, p, s) && ReadsBy(k, t, p, s, toks, |t|) && Steps(k, t, p, s)
    ensures Lex(k, t, p).Ok? && Toks(Lex(k, t, p).value) == toks + [Eof]
    decreases |t| - p, 0
  {
    if s.Skip? {
      ReadsLex(k, t, s.end, toks);
    } else {
      ReadsLex(k, t, s.end, toks[1..]);
      ToksFirst(At(t, toks[0], p), Lex(k, t, s.end).value);
      assert toks + [Eof] == [toks[0]] + (toks[1..] + [Eof]);
    }
  }

  /** The space behind a token. */
  lemma SpaceReads(k: Tables, t: string, q: nat, tok: Tok)
    requires q < |t| && t[q] == ' ' && (Binds(tok) ==> Ch(t, q + 1) !in "\n \r#")
    ensures Reads(k, t, Beyond(t, tok, q), [], q + 1)
  {
    if Binds(tok) {
      assert Settle(t, q + 1) == q + 1;
    } else {
      assert Scan(k, t, q) == Skip(q + 1);
      assert ReadsStep(k, t, q, [], q + 1);
    }
  }

  lemma EolFirst(k: Tables, t: string, p: nat)
    requires Stands(t, p, Spelled(k, Eol))
    requires p + 2 < |t| && t[p + 1] == ' ' && t[p + 2] !in "\n \r#" && Closer(t[p + 2]).None?
    ensures Reads(k, t, p, [Eol], p + |Spelled(k, Eol)| + 1)
  {
    SpelledIs(k, Eol);
    StandsFirst(t, p, "\n");
    EolReads(k, t, p);
    ReadsOne(k, t, p, Eol, p + 2);
  }

  lemma TokFirst(k: Tables, tok: Tok, t: string, p: nat)
    requires k.blank(' ') && Writable(k, tok) && tok != Eol && Stands(t, p, Spelled(k, tok))
    requires var q := p + |Spelled(k, tok)|; q < |t| && t[q] == ' ' && (Binds(tok) ==> Ch(t, q + 1) !in "\n \r#")
    ensures Reads(k, t, p, [tok], p + |Spelled(k, tok)| + 1)
  {
    var q := p + |Spelled(k, tok)|;
    var e := Beyond(t, tok, q);
    assert Reads(k, t, p, [tok], e) by {
      TokenComesBack(k, tok, t, p);
    }
    assert Reads(k, t, e, [], q + 1) by {
      SpaceReads(k, t, q, tok);
    }
    ReadsThen(k, t, p, tok, e, q + 1);
  }

  lemma EolThen(k: Tables, rest: seq<Tok>, t: string, p: nat)
    requires SpellsFrom(k, Eol, rest, t, p) && OrderlyFrom(Eol, rest)
    ensures Reads(k, t, p, [Eol], p + |Spelled(k, Eol)| + 1)
  {
    SpelledIs(k, Eol);
    NextChar(k, rest, t, p + 2);
    EolFirst(k, t, p);
  }

  lemma TokThen(k: Tables, tok: Tok, rest: seq<Tok>, t: string, p: nat)
    requires k.blank(' ') && tok != Eol && SpellsFrom(k, tok, rest, t, p) && OrderlyFrom(tok, rest)
    ensures Reads(k, t, p, [tok], p + |Spelled(k, tok)| + 1)
  {
    if Binds(tok) {
      NextChar(k, rest, t, p + |Spelled(k, tok)| + 1);
    }
    TokFirst(k, tok, t, p);
  }

  /** One token and the space behind it lead to the next token. */
  lemma FirstReads(k: Tables, tok: Tok, rest: seq<Tok>, t: string, p: nat)
    requires k.blank(' ') && SpellsFrom(k, tok, rest, t, p) && OrderlyFrom(tok, rest)
    ensures var q := p + |Spelled(k, tok)| + 1;
            q <= |t| && Reads(k, t, p, [tok], q) && Spells(k, rest, t, q) && Orderly(rest)
  {
    if tok == Eol {
      EolThen(k, rest, t, p);
    } else {
      TokThen(k, tok, rest, t, p);
    }
  }

  lemma {:induction false} SpelledReads(k: Tables, toks: seq<Tok>, t: string, p: nat)
    requires k.blank(' ') && Orderly(toks) && Spells(k, toks, t, p) && p <= |t|
    ensures Reads(k, t, p, toks, |t|)
    decreases |toks|
  {
    if toks != [] {
      var tok, rest := toks[0], toks[1..];
      var q := p + |Spelled(k, tok)| + 1;
      FirstReads(k, tok, rest, t, p);
      SpelledReads(k, rest, t, q);
      ReadsAppend(k, t, p, [tok], q, rest, |t|);
      assert [tok] + rest == toks;
    }
  }

  /** Every orderly list of tokens is the tokens of the text that spells it. */
  lemma LexComesBack(k: Tables, toks: seq<Tok>)
    requires k.blank(' ') && Orderly(toks) && forall i :: 0 <= i < |toks| ==> Writable(k, toks[i])
    ensures var r := Lex(k, TextOf(k, toks), 0); r.Ok? && Toks(r.value) == toks + [Eof]
  {
    var t := TextOf(k, toks);
    TextSpells(k, toks, t, 0);
    SpelledReads(k, toks, t, 0);
    ReadsLex(k, t, 0, toks);
  }
}
