/**
 The parser of the source: an offset into the characters that every method advances.
 Each method is proved to do what the function of `Json` says about the text left.
 */
module JsonParser {
  import opened Wrappers
  import opened Json

  class Parser {
    const chars: string
    var pos: nat

    constructor (text: string)
      ensures chars == text && pos == 0
    {
      chars := text;
      pos := 0;
    }

    ghost predicate Valid()
      reads this
    {
      pos <= |chars|
    }

    ghost function Left(): string
      requires Valid()
      reads this
    {
      chars[pos..]
    }

    /** `r` is what the function returned, and the offset is where the function stopped. */
    ghost predicate Agrees<T(!new)>(r: Result<T, (int, Kind)>, p: Parsed<T>)
      reads this
    {
      match p
      case Good(v, rest) => r == Ok(v) && Valid() && Left() == rest
      case Bad(left, kind) => r == Err((|chars| - left, kind))
    }

    predicate PeekIs(c: char)
      requires Valid()
      reads this
      ensures PeekIs(c) == Peek(Left(), c)
    {
      pos < |chars| && chars[pos] == c
    }

    /** Step over the next character. */
    method Bump()
      requires Valid() && pos < |chars|
      modifies this
      ensures Valid() && pos == old(pos) + 1 && Left() == old(Left())[1..]
    {
      pos := pos + 1;
    }

    lemma Advance()
      requires Valid() && pos < |chars|
      ensures Left() != [] && Left()[0] == chars[pos] && Left()[1..] == chars[pos + 1..]
      ensures |Left()| == |chars| - pos
    {}

    method SkipSpace()
      requires Valid()
      modifies this
      ensures Valid() && Left() == SkipWs(old(Left()))
    {
      while pos < |chars| && IsWs(chars[pos])
        invariant Valid() && SkipWs(Left()) == SkipWs(old(Left()))
        decreases |chars| - pos
      {
        Advance();
        pos := pos + 1;
      }
    }

    method Expect(c: char) returns (r: Result<(), (int, Kind)>)
      requires Valid()
      modifies this
      ensures if Peek(old(Left()), c) then r.Ok? && Valid() && Left() == old(Left())[1..]
              else r == Err((old(pos), Expected(c))) && pos == old(pos)
    {
      if PeekIs(c) {
        Bump();
        return Ok(());
      }
      return Err((pos, Expected(c)));
    }

    method ReadLiteral(word: string, v: Json) returns (r: Result<Json, (int, Kind)>)
      requires Valid()
      modifies this
      ensures Agrees(r, Literal(old(Left()), word, v))
    {
      for i := 0 to |word|
        invariant Valid() && Literal(Left(), word[i..], v) == Literal(old(Left()), word, v)
      {
        assert word[i..][1..] == word[i + 1..];
        var e := Expect(word[i]);
        if e.Err? {
          return Err(e.error);
        }
      }
      return Ok(v);
    }

    /** Four hexadecimal digits. */
    method ReadHex() returns (r: Result<nat, (int, Kind)>)
      requires Valid()
      modifies this
      ensures Agrees(r, Hex(old(Left()), 4, 0))
    {
      var code: nat := 0;
      ghost var all := Hex(Left(), 4, 0);
      for i := 0 to 4
        invariant Valid() && Hex(Left(), 4 - i, code) == all
      {
        if pos == |chars| || HexValue(chars[pos]).None? {
          return Err((pos, BadUnicodeEscape));
        }
        HexMore(Left(), 4 - i, code);
        code := code * 16 + HexValue(chars[pos]).value;
        Bump();
      }
      return Ok(code);
    }

    method ReadUnicodeEscape() returns (r: Result<char, (int, Kind)>)
      requires Valid()
      modifies this
      ensures Agrees(r, UnicodeEscape(old(Left())))
    {
      var code := ReadHex();
      if code.Err? {
        return Err(code.error);
      }
      if !(0xD800 <= code.value < 0xDC00) {
        return Ok(CharOf(code.value));
      }
      r := ReadLowSurrogate(code.value);
    }

    method ReadLowHalf() returns (r: Result<nat, (int, Kind)>)
      requires Valid()
      modifies this
      ensures Agrees(r, LowHalf(old(Left())))
    {
      if !PeekIs('\\') {
        return Ok(0);
      }
      Bump();
      var u := Expect('u');
      if u.Err? {
        return Err(u.error);
      }
      assert Left() == old(Left())[2..];
      r := ReadHex();
    }

    method ReadLowSurrogate(high: nat) returns (r: Result<char, (int, Kind)>)
      requires Valid() && 0xD800 <= high < 0xDC00
      modifies this
      ensures Agrees(r, LowSurrogate(old(Left()), high))
    {
      LowHalfBelow(Left());
      var low := ReadLowHalf();
      if low.Err? {
        return Err(low.error);
      }
      SurrogateSum(high, low.value);
      if Sum(high, low.value) >= 0x1_0000_0000 {
        return Err((pos, ArithmeticOverflow));
      }
      return Ok(CharOf(Sum(high, low.value)));
    }

    method ReadEscape() returns (r: Result<char, (int, Kind)>)
      requires Valid()
      modifies this
      ensures Agrees(r, EscapeSeq(old(Left())))
    {
      if pos == |chars| {
        return Err((pos, UnterminatedEscape));
      }
      Advance();
      var e := chars[pos];
      Bump();
      match e
      case '\"' => return Ok('\"');
      case '\\' => return Ok('\\');
      case '/' => return Ok('/');
      case 'b' => return Ok('\U{8}');
      case 'f' => return Ok('\U{C}');
      case 'n' => return Ok('\n');
      case 'r' => return Ok('\r');
      case 't' => return Ok('\t');
      case 'u' => r := ReadUnicodeEscape();
      case _ => return Err((pos, BadEscape));
    }

    method ReadString() returns (r: Result<string, (int, Kind)>)
      requires Valid()
      modifies this
      ensures Agrees(r, ParseString(old(Left())))
    {
      var q := Expect('\"');
      if q.Err? {
        return Err(q.error);
      }
      r := ReadBody();
    }

    /** The character behind a backslash, to be put behind `s`. */
    method ReadEscaped(s: string) returns (r: Result<char, (int, Kind)>)
      requires Valid()
      modifies this
      ensures match r
              case Ok(c) => Valid() && |Left()| < |old(Left())| && StringBody(Left(), s + [c]) == EscapedBody(old(Left()), s)
              case Err(e) => EscapedBody(old(Left()), s).Bad? && e == (|chars| - EscapedBody(old(Left()), s).left, EscapedBody(old(Left()), s).kind)
    {
      EscapedIs(Left(), s, EscapeSeq(Left()));
      r := ReadEscape();
    }

    /** The loop over the characters of a string. */
    method ReadBody() returns (r: Result<string, (int, Kind)>)
      requires Valid()
      modifies this
      ensures Agrees(r, StringBody(old(Left()), ""))
    {
      var s := "";
      ghost var all := StringBody(Left(), "");
      while true
        invariant Valid() && StringBody(Left(), s) == all
        decreases |chars| - pos
      {
        if pos == |chars| {
          return Err((pos, UnterminatedString));
        }
        Advance();
        var c := chars[pos];
        Bump();
        if c == '\"' {
          return Ok(s);
        }
        if c == '\\' {
          var e := ReadEscaped(s);
          if e.Err? {
            return Err(e.error);
          }
          c := e.value;
        }
        s := s + [c];
      }
    }

    /** The scanning loop of a number: whether something other than a digit was passed. */
    method ScanNumber() returns (isFloat: bool)
      requires Valid()
      modifies this
      ensures Valid() && Left() == SkipNumber(old(Left())) && old(pos) <= pos
      ensures isFloat == exists i :: old(pos) <= i < pos && !IsDigit(chars[i])
    {
      isFloat := false;
      while pos < |chars|
        invariant Valid() && old(pos) <= pos && SkipNumber(Left()) == SkipNumber(old(Left()))
        invariant isFloat == exists i :: old(pos) <= i < pos && !IsDigit(chars[i])
        decreases |chars| - pos
      {
        var c := chars[pos];
        Advance();
        if IsDigit(c) {
          pos := pos + 1;
        } else if c == '.' || c == 'e' || c == 'E' || c == '+' || c == '-' {
          isFloat := true;
          pos := pos + 1;
        } else {
          break;
        }
      }
    }

    /** Cut a number out of the text. */
    method CutNumber() returns (text: string, isFloat: bool)
      requires Valid() && pos < |chars|
      modifies this
      ensures Valid() && Left() == SkipNumber(if chars[old(pos)] == '-' then old(Left())[1..] else old(Left()))
      ensures text == old(Left())[..|old(Left())| - |Left()|]
      ensures isFloat == exists i :: (if Peek(text, '-') then 1 else 0) <= i < |text| && !IsDigit(text[i])
    {
      var start := pos;
      if chars[pos] == '-' {
        Bump();
      }
      ghost var from := pos;
      isFloat := ScanNumber();
      text := chars[start..pos];
      CutIs(chars, start, pos);
      NonDigitShift(chars, start, from, pos);
    }

    method ReadNumber() returns (r: Result<Json, (int, Kind)>)
      requires Valid() && pos < |chars| && (chars[pos] == '-' || IsDigit(chars[pos]))
      modifies this
      ensures Agrees(r, ParseNumber(old(Left())))
    {
      ghost var s := Left();
      var text, isFloat := CutNumber();
      NumberCuts(s, text, Left());
      r := NumberResult(text, isFloat);
    }

    method NumberResult(text: string, isFloat: bool) returns (r: Result<Json, (int, Kind)>)
      requires isFloat == exists i :: (if Peek(text, '-') then 1 else 0) <= i < |text| && !IsDigit(text[i])
      ensures r == match NumberOf(text) { case Some(v) => Ok(v) case None => Err((pos, BadNumber)) }
    {
      NumberOfCases(text, isFloat);
      if isFloat {
        if !IsRustFloat(text) {
          return Err((pos, BadNumber));
        }
        return Ok(Float(Finite(text)));
      } else {
        var i := ParseI128(text);
        if i.None? {
          return Err((pos, BadNumber));
        }
        return Ok(Int(i.value));
      }
    }

    method ReadValue() returns (r: Result<Json, (int, Kind)>)
      requires Valid()
      modifies this
      ensures Agrees(r, ParseValue(old(Left())))
      decreases |chars| - pos, 1
    {
      if pos == |chars| {
        return Err((pos, UnexpectedCharacter));
      }
      Advance();
      match chars[pos]
      case 'n' => r := ReadLiteral("null", Null);
      case 't' => r := ReadLiteral("true", Bool(true));
      case 'f' => r := ReadLiteral("false", Bool(false));
      case '\"' =>
        var s := ReadString();
        if s.Err? {
          return Err(s.error);
        }
        return Ok(Str(s.value));
      case '[' => r := ReadArray();
      case '{' => r := ReadObject();
      case c =>
        if c == '-' || IsDigit(c) {
          r := ReadNumber();
        } else {
          return Err((pos, UnexpectedCharacter));
        }
    }

    method ReadArray() returns (r: Result<Json, (int, Kind)>)
      requires Valid() && PeekIs('[')
      modifies this
      ensures Agrees(r, ParseValue(old(Left())))
      decreases |chars| - pos, 0
    {
      Bump();
      SkipSpace();
      if PeekIs(']') {
        Bump();
        return Ok(Arr([]));
      }
      r := ReadElts();
    }

    /** The element loop of an array. */
    method ReadElts() returns (r: Result<Json, (int, Kind)>)
      requires Valid()
      modifies this
      ensures Agrees(r, ParseElts(old(Left()), []))
      decreases |chars| - pos, 3
    {
      var elts: seq<Json> := [];
      ghost var all := ParseElts(Left(), []);
      while true
        invariant Valid() && old(pos) <= pos && ParseElts(Left(), elts) == all
        decreases |chars| - pos
      {
        var v := ReadElt();
        if v.Err? {
          return Err(v.error);
        }
        elts := elts + [v.value];
        if PeekIs(']') {
          Bump();
          return Ok(Arr(elts));
        }
        if !PeekIs(',') {
          return Err((pos, ExpectedCommaOrBracket));
        }
        Bump();
      }
    }

    method ReadObject() returns (r: Result<Json, (int, Kind)>)
      requires Valid() && PeekIs('{')
      modifies this
      ensures Agrees(r, ParseValue(old(Left())))
      decreases |chars| - pos, 0
    {
      Bump();
      SkipSpace();
      if PeekIs('}') {
        Bump();
        return Ok(Obj([]));
      }
      r := ReadMembers();
    }

    /** One turn of the member loop: a member and what follows it. */
    method MemberTurn(done: seq<Member>) returns (m: Result<Member, (int, Kind)>, more: bool)
      requires Valid()
      modifies this
      ensures m.Ok? ==> Valid() && old(pos) < pos
      ensures m.Ok? && more ==> ParseMembers(Left(), done + [m.value]) == ParseMembers(old(Left()), done)
      ensures m.Ok? && !more ==> ParseMembers(old(Left()), done) == Good(Obj(done + [m.value]), Left())
      ensures m.Err? ==> var all := ParseMembers(old(Left()), done);
                         all.Bad? && m.error == (|chars| - all.left, all.kind)
      decreases |chars| - pos, 4
    {
      m := ReadMember();
      more := false;
      if m.Ok? {
        if PeekIs('}') {
          Bump();
        } else if PeekIs(',') {
          Bump();
          more := true;
        } else {
          m := Err((pos, ExpectedCommaOrBrace));
        }
      }
    }

    /** The member loop of an object. */
    method ReadMembers() returns (r: Result<Json, (int, Kind)>)
      requires Valid()
      modifies this
      ensures Agrees(r, ParseMembers(old(Left()), []))
      decreases |chars| - pos, 5
    {
      var members: seq<Member> := [];
      ghost var all := ParseMembers(Left(), []);
      while true
        invariant Valid() && old(pos) <= pos && ParseMembers(Left(), members) == all
        decreases |chars| - pos
      {
        var m, more := MemberTurn(members);
        if m.Err? {
          return Err(m.error);
        }
        members := members + [m.value];
        if !more {
          return Ok(Obj(members));
        }
      }
    }

    /** A value with the white space around it. */
    method ReadElt() returns (r: Result<Json, (int, Kind)>)
      requires Valid()
      modifies this
      ensures Agrees(r, ParseElt(old(Left())))
      decreases |chars| - pos, 2
    {
      SkipSpace();
      r := ReadValue();
      if r.Ok? {
        SkipSpace();
      }
    }

    /** A key, a colon and a value, with the white space around them. */
    method ReadMember() returns (r: Result<Member, (int, Kind)>)
      requires Valid()
      modifies this
      ensures Agrees(r, ParseMemberElt(old(Left())))
      decreases |chars| - pos, 3
    {
      SkipSpace();
      var k := ReadString();
      if k.Err? {
        return Err(k.error);
      }
      SkipSpace();
      r := ReadColonValue(k.value);
    }

    /** A colon and a value, with the white space around it. */
    method ReadColonValue(key: string) returns (r: Result<Member, (int, Kind)>)
      requires Valid()
      modifies this
      ensures Agrees(r, Trimmed(ParseColonValue(key, old(Left()))))
      decreases |chars| - pos, 2
    {
      var colon := Expect(':');
      if colon.Err? {
        return Err(colon.error);
      }
      var v := ReadElt();
      if v.Err? {
        return Err(v.error);
      }
      return Ok(Member(key, v.value));
    }
  }

  /** The `u32` sum of the source, before it is checked for overflow. */
  function Sum(high: nat, low: nat): nat
    requires 0xD800 <= high
  {
    0x10000 + (high - 0xD800) * 0x400 + (low - 0xDC00) % 0x1_0000_0000
  }

  /** It overflows exactly when the second half is below 0xDC00. */
  lemma SurrogateSum(high: nat, low: nat)
    requires 0xD800 <= high < 0xDC00 && low < 0x10000
    ensures Sum(high, low) >= 0x1_0000_0000 <==> low < 0xDC00
    ensures low >= 0xDC00 ==> Sum(high, low) == 0x10000 + (high - 0xD800) * 0x400 + (low - 0xDC00)
  {}

  lemma EscapedIs(s: string, done: string, e: Parsed<char>)
    requires e == EscapeSeq(s)
    ensures e.Good? ==> |e.rest| < |s| && EscapedBody(s, done) == StringBody(e.rest, done + [e.value])
    ensures e.Bad? ==> EscapedBody(s, done) == Bad(e.left, e.kind)
  {}

  lemma HexMore(s: string, n: nat, code: nat)
    requires n > 0 && s != [] && HexValue(s[0]).Some?
    ensures Hex(s, n, code) == Hex(s[1..], n - 1, code * 16 + HexValue(s[0]).value)
  {}

  /** `n` hexadecimal digits behind `code` make a number below this. */
  function HexLimit(n: nat, code: nat): nat
    requires n <= 4
  {
    (code + 1) * (if n == 0 then 1 else if n == 1 then 0x10 else if n == 2 then 0x100 else if n == 3 then 0x1000 else 0x10000)
  }

  lemma {:induction false} HexBelow(s: string, n: nat, code: nat)
    requires n <= 4
    ensures var r := Hex(s, n, code); r.Good? ==> r.value < HexLimit(n, code)
    decreases n
  {
    if n > 0 && s != [] && HexValue(s[0]).Some? {
      HexBelow(s[1..], n - 1, code * 16 + HexValue(s[0]).value);
    }
  }

  lemma LowHalfBelow(s: string)
    ensures var r := LowHalf(s); r.Good? ==> r.value < 0x10000
  {
    if |s| >= 2 {
      HexBelow(s[2..], 4, 0);
    }
  }

  lemma CutIs(chars: string, start: nat, end: nat)
    requires start <= end <= |chars|
    ensures var s := chars[start..]; chars[start..end] == s[..|s| - |chars[end..]|]
  {}

  lemma NonDigitShift(chars: string, start: nat, from: nat, end: nat)
    requires start <= from <= end <= |chars|
    ensures var text := chars[start..end];
            (exists i :: from <= i < end && !IsDigit(chars[i])) <==>
            (exists i :: from - start <= i < |text| && !IsDigit(text[i]))
  {
    var text := chars[start..end];
    if i :| from <= i < end && !IsDigit(chars[i]) {
      assert !IsDigit(text[i - start]);
    }
  }

  lemma NumberCuts(s: string, text: string, rest: string)
    requires s != [] && (s[0] == '-' || IsDigit(s[0]))
    requires rest == SkipNumber(if s[0] == '-' then s[1..] else s) && text == s[..|s| - |rest|]
    ensures ParseNumber(s) == match NumberOf(text) { case Some(v) => Good(v, rest) case None => Bad(|rest|, BadNumber) }
  {}

  lemma NumberOfCases(text: string, isFloat: bool)
    requires isFloat == exists i :: (if Peek(text, '-') then 1 else 0) <= i < |text| && !IsDigit(text[i])
    ensures isFloat ==> NumberOf(text) == if IsRustFloat(text) then Some(Float(Finite(text))) else None
    ensures !isFloat ==> (forall i :: (if Peek(text, '-') then 1 else 0) <= i < |text| ==> IsDigit(text[i]))
    ensures !isFloat ==> NumberOf(text) == match ParseI128(text) { case Some(i) => Some(Int(i)) case None => None }
  {}

  /** Parse a whole text. */
  method ReadText(text: string) returns (r: Result<Json, (int, Kind)>)
    ensures r == Parse(text)
  {
    var p := new Parser(text);
    assert p.Left() == text;
    var v := p.ReadElt();
    if v.Err? {
      return Err(v.error);
    }
    if p.pos != |p.chars| {
      return Err((p.pos, TrailingCharacters));
    }
    return v;
  }
}
