/** What holds of the tokens of every text. */
module LexerLaws {
  import opened Wrappers
  import opened Tokens

  // ---- End-of-line tokens ----

  /** The tokens after which a newline means nothing. */
  predicate Binds(tok: Tok) {
    tok.PreAnnotation? || tok.PostAnnotation? || tok == Star || tok == Plus || tok == Slash || tok == Minus
    || tok == RArrow || tok == Equals || tok == Semi || tok == Colon || tok == Comma || tok == LParen
    || tok == LBrace || tok == LBracket
  }

  predicate Closes(tok: Tok) { tok == RParen || tok == RBrace || tok == RBracket }

  /** An end-of-line token follows neither another nor a token that binds, and precedes no closer and no end of file. */
  predicate MayFollow(a: Tok, b: Tok) {
    (b == Eol ==> a != Eol && !Binds(a)) && (a == Eol ==> !Closes(b) && b != Eof)
  }

  ghost predicate TidyAt(ts: seq<Token>, i: nat)
    requires i + 1 < |ts|
  {
    MayFollow(ts[i].tok, ts[i + 1].tok)
  }

  ghost predicate Tidy(ts: seq<Token>) {
    forall i :: 0 <= i < |ts| - 1 ==> TidyAt(ts, i)
  }

  /** No form feed and no backslash at `p`. */
  predicate PlainAt(t: string, p: nat) { Ch(t, p) != '\U{c}' && Ch(t, p) != '\\' }

  ghost predicate Plain(t: string) {
    forall p: nat :: p < |t| ==> PlainAt(t, p)
  }

  /** Neither blank nor newline nor comment. */
  predicate Settled(t: string, p: nat) { Ch(t, p) !in "\n \r#" }

  /** Where the text that gives no token ends: blanks, form feeds, continuations, newlines before a closer or the end. */
  function GapEnd(k: Tables, t: string, p: nat): (q: nat)
    requires p <= |t|
    ensures p <= q <= |t|
    ensures q < |t| ==> !Scan(k, t, q).Skip?
    decreases |t| - p
  {
    if p < |t| && Scan(k, t, p).Skip? then GapEnd(k, t, Scan(k, t, p).end) else p
  }

  /**
   Behind a token that binds or an end-of-line token, a gap that begins with a form feed or a backslash
   leads to no newline or comment; behind an end-of-line token, also to no closer and not to the end.
   */
  predicate SmoothGap(k: Tables, t: string, tok: Tok, p: nat)
    requires p <= |t|
  {
    (tok == Eol || Binds(tok)) && !PlainAt(t, p) ==>
      var q := GapEnd(k, t, p);
      Ch(t, q) !in "\n#" && (tok == Eol ==> q < |t| && Closer(t[q]).None?)
  }

  /** All gaps from `p` on are smooth. */
  predicate Smooth(k: Tables, t: string, p: nat)
    requires p <= |t|
    decreases |t| - p
  {
    p == |t| ||
    match Scan(k, t, p)
    case Fail(_, _) => true
    case Skip(end) => Smooth(k, t, end)
    case Emit(tok, end) => SmoothGap(k, t, tok, end) && Smooth(k, t, end)
  }

  /** The token a step emits is told by the character it starts at; after some tokens the position is settled. */
  predicate Told(t: string, p: nat, s: Step)
    requires p < |t| && Moves(t, p, s)
  {
    s.Emit? ==>
      && s.tok != Eof && (s.tok == Eol <==> t[p] in "\n#") && (Closes(s.tok) <==> Closer(t[p]).Some?)
      && (s.tok == Eol || Binds(s.tok) ==> Settled(t, s.end))
      && (s.tok == Eol ==> s.end < |t| && Closer(t[s.end]).None?)
  }

  lemma NumberTold(t: string, p: nat)
    requires p < |t| && IsDigit(t[p])
    ensures Told(t, p, Number(t, p))
  {
  }

  lemma StringTold(t: string, p: nat)
    requires p < |t| && t[p] == '"'
    ensures Told(t, p, Str(t, p))
  {
  }

  lemma AnnotationTold(k: Tables, t: string, p: nat)
    requires p < |t| && t[p] == '@'
    ensures Told(t, p, Annotation(k, t, p))
  {
  }

  lemma LinesTold(t: string, p: nat)
    requires p < |t| && (t[p] == '\n' || t[p] == '#')
    ensures Told(t, p, Lines(t, p))
  {
  }

  lemma SymbolTold(t: string, p: nat)
    requires p < |t| && t[p] !in "\n#"
    ensures Told(t, p, Symbol(t, p))
  {
  }

  lemma EmitTold(k: Tables, t: string, p: nat)
    requires p < |t|
    ensures Told(t, p, Scan(k, t, p))
  {
    var c := t[p];
    if IsDigit(c) {
      NumberTold(t, p);
    } else if c == '"' {
      StringTold(t, p);
    } else if c == '@' {
      AnnotationTold(k, t, p);
    } else if c == '\n' || c == '#' {
      LinesTold(t, p);
    } else {
      SymbolTold(t, p);
    }
  }

  /** At a settled position without form feed or backslash nothing is skipped. */
  lemma SettledScan(k: Tables, t: string, p: nat)
    requires p <= |t| && Settled(t, p) && PlainAt(t, p)
    ensures GapEnd(k, t, p) == p
  {
  }

  lemma {:induction false} GapKeepsTokens(k: Tables, t: string, p: nat)
    requires p <= |t|
    ensures Lex(k, t, p) == Lex(k, t, GapEnd(k, t, p))
    decreases |t| - p
  {
    if p < |t| && Scan(k, t, p).Skip? {
      GapKeepsTokens(k, t, Scan(k, t, p).end);
    }
  }

  /** The next token is told by the character where the gap ends. */
  lemma FirstTok(k: Tables, t: string, p: nat)
    requires p <= |t| && Lex(k, t, p).Ok?
    ensures var first, q := Lex(k, t, p).value[0].tok, GapEnd(k, t, p);
            && (first == Eol <==> Ch(t, q) in "\n#") && (first == Eof <==> q == |t|)
            && (Closes(first) <==> q < |t| && Closer(t[q]).Some?)
  {
    GapKeepsTokens(k, t, p);
    var q := GapEnd(k, t, p);
    if q < |t| {
      EmitTold(k, t, q);
    }
  }

  /** What may follow a token is decided by the gap behind it. */
  lemma FollowsIffSmooth(k: Tables, t: string, p: nat)
    requires p < |t| && Scan(k, t, p).Emit? && Lex(k, t, Scan(k, t, p).end).Ok?
    ensures var s := Scan(k, t, p);
            MayFollow(s.tok, Lex(k, t, s.end).value[0].tok) <==> SmoothGap(k, t, s.tok, s.end)
  {
    var s := Scan(k, t, p);
    EmitTold(k, t, p);
    FirstTok(k, t, s.end);
    if (s.tok == Eol || Binds(s.tok)) && PlainAt(t, s.end) {
      SettledScan(k, t, s.end);
    }
  }

  lemma TidyStep(first: Token, ts: seq<Token>)
    requires ts != []
    ensures Tidy([first] + ts) <==> MayFollow(first.tok, ts[0].tok) && Tidy(ts)
  {
    var all := [first] + ts;
    if Tidy(all) {
      assert TidyAt(all, 0);
      forall i | 0 <= i < |ts| - 1
        ensures TidyAt(ts, i)
      {
        var j := i + 1;
        assert TidyAt(all, j);
      }
    }
    if MayFollow(first.tok, ts[0].tok) && Tidy(ts) {
      forall i | 0 <= i < |all| - 1
        ensures TidyAt(all, i)
      {
        if i > 0 {
          assert TidyAt(ts, i - 1);
        }
      }
    }
  }

  /** Every end-of-line token stands where one may stand exactly when every gap is smooth. */
  lemma {:induction false} TidyIffSmooth(k: Tables, t: string, p: nat)
    requires p <= |t| && Lex(k, t, p).Ok?
    ensures Tidy(Lex(k, t, p).value) <==> Smooth(k, t, p)
    decreases |t| - p
  {
    if p < |t| {
      var s := Scan(k, t, p);
      TidyIffSmooth(k, t, s.end);
      if s.Emit? {
        var rest := Lex(k, t, s.end).value;
        FollowsIffSmooth(k, t, p);
        TidyStep(At(t, s.tok, p), rest);
      }
    }
  }

  lemma {:induction false} PlainIsSmooth(k: Tables, t: string, p: nat)
    requires p <= |t| && Plain(t)
    ensures Smooth(k, t, p)
    decreases |t| - p
  {
    if p < |t| {
      var s := Scan(k, t, p);
      if !s.Fail? {
        PlainIsSmooth(k, t, s.end);
        assert s.end < |t| ==> PlainAt(t, s.end);
      }
    }
  }

  /** In particular, in every text without form feeds and backslashes. */
  lemma LexTidy(k: Tables, t: string)
    requires Plain(t) && Lex(k, t, 0).Ok?
    ensures Tidy(Lex(k, t, 0).value)
  {
    TidyIffSmooth(k, t, 0);
    PlainIsSmooth(k, t, 0);
  }

  // ---- Positions ----

  ghost predicate PlacedAt(t: string, ts: seq<Token>, i: nat)
    requires i < |ts|
  {
    && ts[i].at <= |t| && ts[i] == At(t, ts[i].tok, ts[i].at)
    && (ts[i].tok == Eof <==> i == |ts| - 1)
    && (ts[i].tok == Eof ==> ts[i].at == |t|)
    && (i > 0 ==> ts[i - 1].at < ts[i].at)
  }

  /** Line and column are those of the token's offset, offsets increase, and the end of the file comes last and once. */
  ghost predicate Placed(t: string, p: nat, ts: seq<Token>) {
    && (forall i :: 0 <= i < |ts| ==> PlacedAt(t, ts, i))
    && (ts != [] ==> p <= ts[0].at)
  }

  lemma PlacedStep(t: string, p: nat, tok: Tok, q: nat, ts: seq<Token>)
    requires p < q <= |t| && tok != Eof && ts != [] && Placed(t, q, ts)
    ensures Placed(t, p, [At(t, tok, p)] + ts)
  {
    var all := [At(t, tok, p)] + ts;
    forall i | 0 <= i < |all|
      ensures PlacedAt(t, all, i)
    {
      if i > 0 {
        assert PlacedAt(t, ts, i - 1);
      }
    }
  }

  lemma {:induction false} LexPlaced(k: Tables, t: string, p: nat)
    requires p <= |t| && Lex(k, t, p).Ok?
    ensures Placed(t, p, Lex(k, t, p).value)
    decreases |t| - p
  {
    if p == |t| {
      assert PlacedAt(t, Lex(k, t, p).value, 0);
    } else {
      var s := Scan(k, t, p);
      LexPlaced(k, t, s.end);
      if s.Emit? {
        EmitTold(k, t, p);
        PlacedStep(t, p, s.tok, s.end, Lex(k, t, s.end).value);
      }
    }
  }

  // ---- Literals and names come back ----

  /** A string as a literal: quotes, backslashes and newlines are escaped. */
  function Escaped(s: string): string {
    if s == [] then "\""
    else (if s[0] in "\"\\\n" then ['\\', s[0]] else [s[0]]) + Escaped(s[1..])
  }

  lemma {:induction false} EscapedReads(s: string, before: string, after: string)
    ensures var t := before + Escaped(s) + after;
            Quoted(t, |before|) == Some((s, |before| + |Escaped(s)|))
    decreases |s|
  {
    var t := before + Escaped(s) + after;
    var p := |before|;
    if s == [] {
      assert t[p] == '"';
    } else {
      var head := if s[0] in "\"\\\n" then ['\\', s[0]] else [s[0]];
      assert t == before + head + Escaped(s[1..]) + after;
      assert t[p] == head[0] && t[p + |head| - 1] == s[0];
      assert Quoted(t, p + |head|) == Some((s[1..], p + |Escaped(s)|)) by {
        EscapedReads(s[1..], before + head, after);
      }
      assert s == [s[0]] + s[1..];
    }
  }

  /** Every string is the value of a literal. */
  lemma StringComesBack(k: Tables, s: string, before: string, after: string)
    requires s == [] ==> Ch(after, 0) != '"'
    ensures var literal := "\"" + Escaped(s);
            Scan(k, before + literal + after, |before|) == Emit(LitString(s), |before| + |literal|)
  {
    var t, p := before + ("\"" + Escaped(s)) + after, |before|;
    assert Str(t, p) == Emit(LitString(s), p + 1 + |Escaped(s)|) by {
      LiteralComesBack(s, before, after);
    }
    assert t[p] == '"';
  }

  lemma LiteralComesBack(s: string, before: string, after: string)
    requires s == [] ==> Ch(after, 0) != '"'
    ensures var t, p := before + ("\"" + Escaped(s)) + after, |before|;
            t[p] == '"' && Str(t, p) == Emit(LitString(s), p + 1 + |Escaped(s)|)
  {
    var t, p := before + ("\"" + Escaped(s)) + after, |before|;
    assert t[p] == '"' && t[p + 1] == Escaped(s)[0];
    if s == [] {
      assert Ch(t, p + 2) == Ch(after, 0);
    } else {
      assert Quoted(t, p + 1) == Some((s, p + 1 + |Escaped(s)|)) by {
        EscapedReads(s, before + "\"", after);
        assert t == (before + "\"") + Escaped(s) + after;
      }
    }
  }

  ghost predicate All(s: string, ok: char -> bool) {
    forall i :: 0 <= i < |s| ==> ok(s[i])
  }

  lemma {:induction false} RunEnds(t: string, p: nat, q: nat, ok: char -> bool)
    requires p <= q <= |t| && (q < |t| ==> !ok(t[q]))
    requires forall i :: p <= i < q ==> ok(t[i])
    ensures End(t, p, ok) == q
    decreases q - p
  {
    if p < q {
      RunEnds(t, p + 1, q, ok);
    }
  }

  lemma WordEnds(word: string, before: string, after: string)
    requires word != [] && All(word, IsIdentPart) && !IsIdentPart(Ch(after, 0))
    ensures var t, p := before + word + after, |before|;
            End(t, p, IsIdentPart) == End(t, p + 1, IsIdentPart) == p + |word| && t[p..p + |word|] == word
  {
    var t, p, n := before + word + after, |before|, |word|;
    assert Ch(t, p + n) == Ch(after, 0);
    forall i | p <= i < p + n
      ensures IsIdentPart(t[i])
    {
      assert t[i] == word[i - p];
    }
    RunEnds(t, p, p + n, IsIdentPart);
    RunEnds(t, p + 1, p + n, IsIdentPart);
  }

  /** A word is one token. */
  lemma WordComesBack(k: Tables, word: string, before: string, after: string)
    requires word != [] && IsIdentStart(word[0]) && All(word, IsIdentPart) && !IsIdentPart(Ch(after, 0))
    ensures Scan(k, before + word + after, |before|) == Emit(Word(k, word), |before| + |word|)
  {
    WordEnds(word, before, after);
    assert (before + word + after)[|before|] == word[0];
  }

  /** Behind `$` a word is an identifier, even if it is a keyword. */
  lemma EscapedWordComesBack(k: Tables, word: string, before: string, after: string)
    requires word != [] && IsIdentStart(word[0]) && All(word, IsIdentPart) && !IsIdentPart(Ch(after, 0))
    ensures Scan(k, before + "$" + word + after, |before|) == Emit(Ident(word), |before| + 1 + |word|)
  {
    WordEnds(word, before + "$", after);
    var t := before + "$" + word + after;
    assert t[|before|] == '$' && t[|before| + 1] == word[0];
  }

  lemma DigitsEnd(digits: string, before: string, after: string)
    requires digits != [] && All(digits, IsDigit) && !IsDigit(Ch(after, 0))
    ensures var t, p := before + digits + after, |before|;
            && End(t, p + 1, IsDigit) == p + |digits| && t[p..p + |digits|] == digits && IsDigit(t[p])
            && Ch(t, p + |digits|) == Ch(after, 0) && (|digits| > 1 ==> IsDigit(t[p + 1]))
  {
    var t, p, n := before + digits + after, |before|, |digits|;
    forall i | p <= i < p + n
      ensures IsDigit(t[i])
    {
      assert t[i] == digits[i - p];
    }
    RunEnds(t, p + 1, p + n, IsDigit);
  }

  /** Decimal digits that no digit, letter, underscore or point follows are one integer literal. */
  lemma NumberComesBack(k: Tables, digits: string, before: string, after: string)
    requires digits != [] && All(digits, IsDigit) && !IsIdentPart(Ch(after, 0)) && Ch(after, 0) != '.'
    ensures Scan(k, before + digits + after, |before|) == Emit(LitInt(digits), |before| + |digits|)
  {
    var t, p := before + digits + after, |before|;
    DigitsEnd(digits, before, after);
    assert Number(t, p) == Emit(LitInt(digits), p + |digits|);
  }

  // ---- Where the end-of-line law stops ----

  /** A form feed or a line continuation between two newlines leaves two end-of-line tokens side by side. */
  lemma FormFeedSplits(k: Tables)
    ensures var ts := Lex(k, "\n\U{c}\n.", 0); ts.Ok? && |ts.value| > 1 && ts.value[0].tok == Eol && ts.value[1].tok == Eol
  {
    var t := "\n\U{c}\n.";
    assert Scan(k, t, 3) == Emit(Dot, 4);
    assert Lex(k, t, 4).Ok?;
    assert Lex(k, t, 3).Ok?;
    assert Settle(t, 3) == 3;
    assert Scan(k, t, 2) == Emit(Eol, 3);
    assert Lex(k, t, 2).value[0].tok == Eol;
    assert Scan(k, t, 1) == Skip(2);
    assert Settle(t, 1) == 1;
    assert Scan(k, t, 0) == Emit(Eol, 1);
    assert Lex(k, t, 1) == Lex(k, t, 2);
  }

  lemma ContinuationSplits(k: Tables)
    ensures var ts := Lex(k, "\n\\\n\n.", 0); ts.Ok? && |ts.value| > 1 && ts.value[0].tok == Eol && ts.value[1].tok == Eol
  {
    var t := "\n\\\n\n.";
    assert Scan(k, t, 4) == Emit(Dot, 5);
    assert Lex(k, t, 5).Ok?;
    assert Lex(k, t, 4).Ok?;
    assert Settle(t, 4) == 4;
    assert Scan(k, t, 3) == Emit(Eol, 4);
    assert Lex(k, t, 3).value[0].tok == Eol;
    assert Scan(k, t, 1) == Skip(3);
    assert Settle(t, 1) == 1;
    assert Scan(k, t, 0) == Emit(Eol, 1);
    assert Lex(k, t, 1) == Lex(k, t, 3);
  }
}
