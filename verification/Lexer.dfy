/** The lexer: a position with its line and column, advanced one character at a time. */
module Lexer {
  import opened Wrappers
  import opened Tokens

  type Trouble = Option<(Problem, nat)>

  /** Where a token starts. */
  datatype Loc = Loc(at: nat, line: nat, col: nat)

  class Lexer {
    const tables: Tables
    const text: string
    var pos: nat
    var line: nat
    var col: nat
    var out: seq<Token>

    /** Line and column count the text before the position. */
    ghost predicate Valid()
      reads this
    {
      pos <= |text| && line == LineAt(text, pos) && col == ColAt(text, pos)
    }

    /** What a step leaves behind. */
    ghost predicate Did(s: Step, from: nat, before: seq<Token>, trouble: Trouble)
      requires from <= |text|
      reads this
    {
      match s
      case Fail(problem, at) => trouble == Some((problem, at))
      case Skip(end) => trouble == None && pos == end && out == before
      case Emit(tok, end) => trouble == None && pos == end && out == before + [At(text, tok, from)]
    }

    constructor (tables: Tables, text: string)
      ensures Valid() && this.tables == tables && this.text == text && pos == 0 && out == []
    {
      this.tables, this.text := tables, text;
      pos, line, col, out := 0, 1, 1, [];
    }

    function Peek(n: nat): char
      reads this
    {
      Ch(text, pos + n)
    }

    method Advance() returns (c: char)
      requires Valid()
      modifies `pos, `line, `col
      ensures Valid() && c == Ch(text, old(pos))
      ensures pos == if old(pos) < |text| then old(pos) + 1 else old(pos)
    {
      c := Peek(0);
      if pos < |text| {
        pos := pos + 1;
        if c == '\n' {
          line, col := line + 1, 1;
        } else {
          col := col + 1;
        }
      }
    }

    method Here() returns (loc: Loc)
      requires Valid()
      ensures loc == Loc(pos, LineAt(text, pos), ColAt(text, pos))
    {
      loc := Loc(pos, line, col);
    }

    method Push(tok: Tok, loc: Loc)
      modifies `out
      ensures out == old(out) + [Token(tok, loc.at, loc.line, loc.col)]
    {
      out := out + [Token(tok, loc.at, loc.line, loc.col)];
    }

    /** Take the characters that are `ok`. */
    method TakeWhile(ok: char -> bool) returns (word: string)
      requires Valid()
      modifies `pos, `line, `col
      ensures Valid() && pos == End(text, old(pos), ok) && word == text[old(pos)..pos]
    {
      word := "";
      while pos < |text| && ok(text[pos])
        invariant Valid() && old(pos) <= pos
        invariant word == text[old(pos)..pos] && End(text, pos, ok) == End(text, old(pos), ok)
      {
        var c := Advance();
        word := word + [c];
      }
    }

    method EatNewlines()
      requires Valid()
      modifies `pos, `line, `col
      ensures Valid() && pos == Settle(text, old(pos))
    {
      while true
        invariant Valid() && Settle(text, pos) == Settle(text, old(pos))
        decreases |text| - pos
      {
        var c := Peek(0);
        if c == '\n' || c == ' ' || c == '\r' {
          var _ := Advance();
        } else if c == '#' {
          var _ := TakeWhile(InLine);
        } else {
          return;
        }
      }
    }

    /** The exponent at the position, or nothing if what stands there is none. */
    method Exponent() returns (taken: string)
      requires Valid() && pos < |text|
      modifies `pos, `line, `col
      ensures Valid() && pos == ExponentEnd(text, old(pos)) && taken == text[old(pos)..pos]
    {
      var n := if Peek(1) == '+' || Peek(1) == '-' then 2 else 1;
      if !IsDigit(Peek(n)) {
        return "";
      }
      var mark := Advance();
      var sign := "";
      if n == 2 {
        var c := Advance();
        sign := [c];
      }
      var digits := TakeWhile(IsDigit);
      taken := [mark] + sign + digits;
    }

    /** What follows the point of a floating literal that began with `before`. */
    method FractionRest(before: string, loc: Loc) returns (trouble: Trouble)
      requires Valid() && loc.at <= |text| && loc == Loc(loc.at, LineAt(text, loc.at), ColAt(text, loc.at))
      modifies this
      ensures Valid() && Did(Fraction(text, old(pos), before), loc.at, old(out), trouble)
    {
      var taken := TakeWhile(IsDigit);
      if Peek(0) == 'e' || Peek(0) == 'E' {
        var more := Exponent();
        taken := taken + more;
      }
      if IsIdentPart(Peek(0)) {
        return Some((BadNumber, pos));
      }
      assert taken == text[old(pos)..pos];
      Push(LitFloat(before + taken), loc);
      trouble := None;
    }

    method HexNumber(loc: Loc) returns (trouble: Trouble)
      requires Valid() && loc == Loc(pos, line, col) && pos + 1 < |text|
      requires text[pos] == '0' && (text[pos + 1] == 'x' || text[pos + 1] == 'X')
      modifies this
      ensures Valid() && Did(Number(text, old(pos)), old(pos), old(out), trouble)
    {
      var _ := Advance();
      var _ := Advance();
      if !IsHex(Peek(0)) {
        return Some((BadNumber, loc.at));
      }
      var digits := TakeWhile(IsHex);
      if IsIdentPart(Peek(0)) {
        return Some((BadNumber, loc.at));
      }
      Push(LitInt("0x" + digits), loc);
      trouble := None;
    }

    /** What follows the digits of a decimal number. */
    method DecimalRest(digits: string, loc: Loc) returns (trouble: Trouble)
      requires Valid() && loc.at < pos && loc == Loc(loc.at, LineAt(text, loc.at), ColAt(text, loc.at))
      requires digits == text[loc.at..pos] && Ch(text, pos) != '.'
      modifies this
      ensures Valid()
      ensures var d := old(pos);
              var q := if Ch(text, d) == 'e' || Ch(text, d) == 'E' then ExponentEnd(text, d) else d;
              var s := if q > d then Emit(LitFloat(text[loc.at..q]), q)
                       else if IsIdentPart(Ch(text, d)) then Fail(BadNumber, loc.at) else Emit(LitInt(text[loc.at..d]), d);
              Did(s, loc.at, old(out), trouble)
    {
      if Peek(0) == 'e' || Peek(0) == 'E' {
        var more := Exponent();
        if more != "" {
          assert digits + more == text[loc.at..pos];
          Push(LitFloat(digits + more), loc);
          return None;
        }
      }
      if IsIdentPart(Peek(0)) {
        return Some((BadNumber, loc.at));
      }
      Push(LitInt(digits), loc);
      trouble := None;
    }

    method NumberToken() returns (trouble: Trouble)
      requires Valid() && pos < |text| && IsDigit(text[pos])
      modifies this
      ensures Valid() && Did(Number(text, old(pos)), old(pos), old(out), trouble)
    {
      var loc := Here();
      if text[pos] == '0' && (Peek(1) == 'x' || Peek(1) == 'X') {
        trouble := HexNumber(loc);
      } else {
        var digits := TakeWhile(IsDigit);
        if Peek(0) == '.' {
          assert digits + "." == text[loc.at..pos + 1];
          var _ := Advance();
          trouble := FractionRest(digits + ".", loc);
        } else {
          trouble := DecimalRest(digits, loc);
        }
      }
    }

    /** The characters up to the closing quote, if there is one. */
    method QuotedRest() returns (r: Option<string>)
      requires Valid()
      modifies `pos, `line, `col
      ensures Valid()
      ensures match Quoted(text, old(pos))
              case None => r == None
              case Some(v) => r == Some(v.0) && pos == v.1
    {
      var value := "";
      PutNothing(Quoted(text, pos));
      while true
        invariant Valid()
        invariant Quoted(text, old(pos)) == Put(value, Quoted(text, pos))
        decreases |text| - pos
      {
        if pos == |text| || Peek(0) == '\n' {
          return None;
        }
        if Peek(0) == '"' {
          var _ := Advance();
          assert value + "" == value;
          return Some(value);
        }
        if Peek(0) == '\\' {
          var _ := Advance();
          if pos == |text| {
            return None;
          }
        }
        var c := Advance();
        PutTwice(value, [c], Quoted(text, pos));
        value := value + [c];
      }
    }

    /** What one character of a triple-quoted literal adds, the spaces then left to skip, and whether its line has just begun. */
    method TripledChar(ghost indent: nat, skip: nat, begins: bool) returns (piece: string, left: Option<nat>, begun: bool)
      requires Valid() && pos < |text| && text[pos] != '"' && text[pos] != '\\'
      modifies `pos, `line, `col
      ensures Valid() && pos == old(pos) + 1
      ensures Tripled(text, old(pos), indent, skip, begins)
              == Put(piece, Tripled(text, pos, indent, if left.None? then indent else left.value, begun))
    {
      var c := Advance();
      piece, left, begun := [c], Some(skip), false;
      if c == ' ' {
        begun := begins;
        if begins && skip > 0 {
          piece, left := "", Some(skip - 1);
          PutNothing(Tripled(text, pos, indent, skip - 1, begins));
        }
      } else if c == '\n' {
        left, begun := None, true;
      }
    }

    /** A quote or an escape in a triple-quoted literal; `None` for the quote that closes it or an escape at the end. */
    method TripledMark(ghost indent: nat, ghost skip: nat, ghost begins: bool) returns (piece: Option<string>)
      requires Valid() && pos < |text| && (text[pos] == '"' || text[pos] == '\\')
      modifies `pos, `line, `col
      ensures Valid() && old(pos) < pos
      ensures piece.Some? ==> Tripled(text, old(pos), indent, skip, begins)
                              == Put(piece.value, Tripled(text, pos, indent, skip, false))
      ensures piece.None? ==> Tripled(text, old(pos), indent, skip, begins)
                              == if text[old(pos)] == '"' then Some(("", pos)) else None
    {
      var c := Advance();
      if c == '"' {
        if Peek(0) != '"' {
          return Some("\"");
        }
        var _ := Advance();
        if Peek(0) != '"' {
          return Some("\"\"");
        }
        var _ := Advance();
        return None;
      }
      if pos == |text| {
        return None;
      }
      var e := Advance();
      piece := Some([e]);
    }

    /** The value of a triple-quoted literal: the indentation of its first line is removed from every line. */
    method TripledRest(indent: nat) returns (r: Option<string>)
      requires Valid()
      modifies `pos, `line, `col
      ensures Valid()
      ensures match Tripled(text, old(pos), indent, indent, true)
              case None => r == None
              case Some(v) => r == Some(v.0) && pos == v.1
    {
      var skip: nat, begins, value := indent, true, "";
      PutNothing(Tripled(text, pos, indent, indent, true));
      while pos < |text|
        invariant Valid()
        invariant Tripled(text, old(pos), indent, indent, true) == Put(value, Tripled(text, pos, indent, skip, begins))
        decreases |text| - pos
      {
        var c := Peek(0);
        if c == '"' || c == '\\' {
          var piece := TripledMark(indent, skip, begins);
          if piece.None? {
            assert value + "" == value;
            return if c == '"' then Some(value) else None;
          }
          begins := false;
          PutTwice(value, piece.value, Tripled(text, pos, indent, skip, begins));
          value := value + piece.value;
        } else {
          var piece, left, begun := TripledChar(indent, skip, begins);
          skip, begins := if left.None? then indent else left.value, begun;
          PutTwice(value, piece, Tripled(text, pos, indent, skip, begins));
          value := value + piece;
        }
      }
      r := None;
    }

    method TripleString(loc: Loc) returns (trouble: Trouble)
      requires Valid() && pos == loc.at + 3 && loc == Loc(loc.at, LineAt(text, loc.at), ColAt(text, loc.at))
      modifies this
      ensures Valid() && Did(Triple(text, loc.at), loc.at, old(out), trouble)
    {
      if Peek(0) == '\n' {
        var _ := Advance();
      }
      var spaces := TakeWhile(IsSpace);
      var r := TripledRest(|spaces|);
      if r.None? {
        return Some((OpenTripleString, loc.at));
      }
      Push(LitString(r.value), loc);
      trouble := None;
    }

    method StringToken() returns (trouble: Trouble)
      requires Valid() && pos < |text| && text[pos] == '"'
      modifies this
      ensures Valid() && Did(Str(text, old(pos)), old(pos), old(out), trouble)
    {
      var loc := Here();
      var _ := Advance();
      if Peek(0) == '"' {
        var _ := Advance();
        if Peek(0) != '"' {
          Push(LitString(""), loc);
          return None;
        }
        var _ := Advance();
        trouble := TripleString(loc);
        return;
      }
      var r := QuotedRest();
      if r.None? {
        return Some((OpenString, loc.at));
      }
      Push(LitString(r.value), loc);
      trouble := None;
    }

    /** The marker and the text of an annotation, up to the end of its line. */
    method Note() returns (post: bool, note: string)
      requires Valid() && pos < |text| && text[pos] == '@'
      modifies `pos, `line, `col
      ensures Valid() && post == (Ch(text, old(pos) + 1) == '<')
      ensures var from := if post then old(pos) + 2 else old(pos) + 1;
              from <= |text| && pos == End(text, from, InLine) && note == text[from..pos]
    {
      var _ := Advance();
      post := Peek(0) == '<';
      if post {
        var _ := Advance();
      }
      note := TakeWhile(InLine);
    }

    method AnnotationToken()
      requires Valid() && pos < |text| && text[pos] == '@'
      modifies this
      ensures Valid() && Did(Annotation(tables, text, old(pos)), old(pos), old(out), None)
    {
      var loc := Here();
      var post, note := Note();
      note := Trim(note, tables.blank);
      Push(if post then PostAnnotation(note) else PreAnnotation(note), loc);
      EatNewlines();
    }

    method LinesToken()
      requires Valid() && pos < |text| && (text[pos] == '\n' || text[pos] == '#')
      modifies this
      ensures Valid() && Did(Lines(text, old(pos)), old(pos), old(out), None)
    {
      var loc := Here();
      EatNewlines();
      if pos < |text| && Closer(Peek(0)).None? {
        Push(Eol, loc);
      }
    }

    method SymbolToken() returns (trouble: Trouble)
      requires Valid() && pos < |text|
      modifies this
      ensures Valid() && Did(Symbol(text, old(pos)), old(pos), old(out), trouble)
    {
      var loc := Here();
      var c := Advance();
      if Binder(c).Some? {
        Push(Binder(c).value, loc);
        EatNewlines();
      } else if Closer(c).Some? {
        Push(Closer(c).value, loc);
      } else if c == '-' {
        if Peek(0) == '>' {
          var _ := Advance();
          Push(RArrow, loc);
        } else {
          Push(Minus, loc);
        }
        EatNewlines();
      } else if c == '<' && Peek(0) == '<' {
        var _ := Advance();
        Push(LShift, loc);
      } else if c == '>' && Peek(0) == '>' {
        var _ := Advance();
        Push(RShift, loc);
      } else {
        return Some((BadCharacter, loc.at));
      }
      trouble := None;
    }

    /** One turn of the loop on a word, a blank or a line continuation. */
    method WordToken() returns (trouble: Trouble)
      requires Valid() && pos < |text| && (text[pos] == '$' || IsIdentStart(text[pos]))
      modifies this
      ensures Valid() && Did(Scan(tables, text, old(pos)), old(pos), old(out), trouble)
    {
      var loc := Here();
      if text[pos] == '$' {
        if !IsIdentStart(Peek(1)) {
          return Some((BadDollar, loc.at));
        }
        var _ := Advance();
        var word := TakeWhile(IsIdentPart);
        Push(Ident(word), loc);
      } else {
        var word := TakeWhile(IsIdentPart);
        Push(Word(tables, word), loc);
      }
      trouble := None;
    }

    method ContinuationToken() returns (trouble: Trouble)
      requires Valid() && pos < |text|
      modifies this
      ensures Valid() && Did(Continuation(text, old(pos)), old(pos), old(out), trouble)
    {
      var _ := Advance();
      var _ := TakeWhile(IsPad);
      if Peek(0) != '\n' {
        return Some((NoContinuation, pos));
      }
      var _ := Advance();
      trouble := None;
    }

    method DotToken() returns (trouble: Trouble)
      requires Valid() && pos < |text| && text[pos] == '.'
      modifies this
      ensures Valid() && Did(Scan(tables, text, old(pos)), old(pos), old(out), trouble)
    {
      var loc := Here();
      var _ := Advance();
      if IsDigit(Peek(0)) {
        trouble := FractionRest("0.", loc);
      } else {
        Push(Dot, loc);
        trouble := None;
      }
    }

    /** One turn of the loop. */
    method Turn() returns (trouble: Trouble)
      requires Valid() && pos < |text|
      modifies this
      ensures Valid() && Did(Scan(tables, text, old(pos)), old(pos), old(out), trouble)
    {
      var c := Peek(0);
      if c == ' ' || c == '\U{c}' || c == '\r' {
        var _ := Advance();
        trouble := None;
      } else if c == '\t' {
        trouble := Some((Tab, pos));
      } else if c == '$' || IsIdentStart(c) {
        trouble := WordToken();
      } else if IsDigit(c) {
        trouble := NumberToken();
      } else if c == '\\' {
        trouble := ContinuationToken();
      } else if c == '"' {
        trouble := StringToken();
      } else if c == '.' {
        trouble := DotToken();
      } else if c == '\n' || c == '#' {
        LinesToken();
        trouble := None;
      } else if c == '@' {
        AnnotationToken();
        trouble := None;
      } else {
        trouble := SymbolToken();
      }
    }

    /** Lex the whole text. */
    method Run() returns (r: Outcome)
      requires Valid() && pos == 0 && out == []
      modifies this
      ensures r == Lex(tables, text, 0)
    {
      BehindNothing(Lex(tables, text, 0));
      while pos < |text|
        invariant Valid()
        invariant Lex(tables, text, 0) == Behind(out, Lex(tables, text, pos))
        decreases |text| - pos
      {
        ghost var p, before := pos, out;
        var trouble := Turn();
        if trouble.Some? {
          return Err(trouble.value);
        }
        LexStep(tables, text, p, before, Scan(tables, text, p));
      }
      var loc := Here();
      Push(Eof, loc);
      r := Ok(out);
    }
  }

  lemma LexStep(k: Tables, t: string, p: nat, before: seq<Token>, s: Step)
    requires p < |t| && s == Scan(k, t, p) && !s.Fail?
    ensures Behind(before, Lex(k, t, p))
            == Behind(if s.Emit? then before + [At(t, s.tok, p)] else before, Lex(k, t, s.end))
  {
    if s.Emit? {
      BehindTwice(before, [At(t, s.tok, p)], Lex(k, t, s.end));
    }
  }

  method LexText(tables: Tables, text: string) returns (r: Outcome)
    ensures r == Lex(tables, text, 0)
  {
    var lexer := new Lexer(tables, text);
    r := lexer.Run();
  }
}
