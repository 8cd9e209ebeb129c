/**
 Parsing what the printer wrote.  For every valid value the parser returns the value with
 each non-finite float replaced by null, which is what the printer wrote for it; so the
 round trip is exact precisely for values whose floats are all finite.
 */
module JsonRoundTrip {
  import opened Wrappers
  import opened Json

  /** The value with every non-finite float replaced by null. */
  function Erase(v: Json): Json
    decreases v, 1
  {
    match v
    case Float(f) => if f.Finite? then v else Null
    case Arr(elts) => Arr(EraseElts(elts))
    case Obj(members) => Obj(EraseMembers(members))
    case _ => v
  }

  function EraseElts(elts: seq<Json>): seq<Json>
    decreases elts, 0
  {
    if elts == [] then [] else [Erase(elts[0])] + EraseElts(elts[1..])
  }

  function EraseMembers(members: seq<Member>): seq<Member>
    decreases members, 0
  {
    if members == [] then []
    else [Member(members[0].key, Erase(members[0].value))] + EraseMembers(members[1..])
  }

  lemma {:induction false} EraseFixes(v: Json)
    ensures Erase(v) == v <==> AllFinite(v)
    decreases v, 1
  {
    match v
    case Arr(elts) => EraseEltsFixes(elts);
    case Obj(members) => EraseMembersFixes(members);
    case _ =>
  }

  lemma {:induction false} EraseEltsFixes(elts: seq<Json>)
    ensures EraseElts(elts) == elts <==> forall e :: e in elts ==> AllFinite(e)
    decreases elts, 0
  {
    if elts != [] {
      EraseFixes(elts[0]);
      EraseEltsFixes(elts[1..]);
      assert elts == [elts[0]] + elts[1..];
    }
  }

  lemma {:induction false} EraseMembersFixes(members: seq<Member>)
    ensures EraseMembers(members) == members <==> forall m :: m in members ==> AllFinite(m.value)
    decreases members, 0
  {
    if members != [] {
      EraseFixes(members[0].value);
      EraseMembersFixes(members[1..]);
      assert members == [members[0]] + members[1..];
    }
  }

  // ----- Texts followed by something -----

  /** The text of a value with `tail` behind it, built from the back. */
  function PrintTo(v: Json, depth: nat, tail: string): string
    decreases v, 1
  {
    match v
    case Arr(elts) =>
      if elts == [] then "[]" + tail
      else ['['] + EltsTo(elts, true, depth + 1, LineTo(depth, [']'] + tail))
    case Obj(members) =>
      if members == [] then "{}" + tail
      else ['{'] + MembersTo(members, true, depth + 1, LineTo(depth, ['}'] + tail))
    case Str(s) => StringTo(s, tail)
    case _ => Print(v, depth) + tail
  }

  function EltsTo(elts: seq<Json>, first: bool, depth: nat, tail: string): string
    decreases elts, 0
  {
    if elts == [] then tail
    else
      var line := LineTo(depth, PrintTo(elts[0], depth, EltsTo(elts[1..], false, depth, tail)));
      if first then line else [','] + line
  }

  function MembersTo(members: seq<Member>, first: bool, depth: nat, tail: string): string
    decreases members, 0
  {
    if members == [] then tail
    else
      var value := PrintTo(members[0].value, depth, MembersTo(members[1..], false, depth, tail));
      var line := LineTo(depth, StringTo(members[0].key, [':'] + ([' '] + value)));
      if first then line else [','] + line
  }

  function LineTo(depth: nat, tail: string): string {
    ['\n'] + IndentTo(depth, tail)
  }

  function IndentTo(depth: nat, tail: string): string {
    if depth == 0 then tail else [' '] + ([' '] + IndentTo(depth - 1, tail))
  }

  function StringTo(s: string, tail: string): string {
    ['\"'] + EscapeTo(s, ['\"'] + tail)
  }

  function EscapeTo(s: string, tail: string): string {
    if s == [] then tail else EscapeChar(s[0]) + EscapeTo(s[1..], tail)
  }

  lemma {:induction false} IndentIs(depth: nat, tail: string)
    ensures IndentTo(depth, tail) == Indent(depth) + tail
  {
    if depth > 0 {
      IndentIs(depth - 1, tail);
      Regroup("  ", Indent(depth - 1), tail);
    }
  }

  lemma Regroup(a: string, b: string, c: string)
    ensures a + b + c == a + (b + c)
  {}

  lemma LineIs(depth: nat, tail: string)
    ensures LineTo(depth, tail) == NewLine(depth) + tail
  {
    IndentIs(depth, tail);
    Regroup("\n", Indent(depth), tail);
  }

  lemma {:induction false} EscapeIs(s: string, tail: string)
    ensures EscapeTo(s, tail) == Escape(s) + tail
  {
    if s != [] {
      EscapeIs(s[1..], tail);
      Regroup(EscapeChar(s[0]), Escape(s[1..]), tail);
    }
  }

  lemma StringIs(s: string, tail: string)
    ensures StringTo(s, tail) == StringText(s) + tail
  {
    EscapeIs(s, ['\"'] + tail);
    Regroup("\"" + Escape(s), "\"", tail);
    Regroup("\"", Escape(s), "\"" + tail);
  }

  lemma {:induction false} PrintIs(v: Json, depth: nat, tail: string)
    ensures PrintTo(v, depth, tail) == Print(v, depth) + tail
    decreases v, 1
  {
    match v
    case Str(s) => StringIs(s, tail);
    case Arr(elts) =>
      if elts != [] {
        LineIs(depth, "]" + tail);
        EltsIs(elts, true, depth + 1, LineTo(depth, "]" + tail));
        Regroup4("[", PrintElts(elts, true, depth + 1), NewLine(depth), "]", tail);
      }
    case Obj(members) =>
      if members != [] {
        LineIs(depth, "}" + tail);
        MembersIs(members, true, depth + 1, LineTo(depth, "}" + tail));
        Regroup4("{", PrintMembers(members, true, depth + 1), NewLine(depth), "}", tail);
      }
    case _ =>
  }

  lemma Regroup4(a: string, b: string, c: string, d: string, e: string)
    ensures a + b + c + d + e == a + (b + (c + (d + e)))
  {}

  lemma {:induction false} EltsIs(elts: seq<Json>, first: bool, depth: nat, tail: string)
    ensures EltsTo(elts, first, depth, tail) == PrintElts(elts, first, depth) + tail
    decreases elts, 0
  {
    if elts != [] {
      var rest, comma := PrintElts(elts[1..], false, depth), if first then "" else ",";
      EltsIs(elts[1..], false, depth, tail);
      PrintIs(elts[0], depth, rest + tail);
      LineIs(depth, Print(elts[0], depth) + (rest + tail));
      Regroup4(comma, NewLine(depth), Print(elts[0], depth), rest, tail);
    }
  }

  lemma MemberIs(m: Member, depth: nat, rest: string, value: string)
    requires value == Print(m.value, depth) + rest
    ensures LineTo(depth, StringTo(m.key, [':'] + ([' '] + value)))
         == NewLine(depth) + (StringText(m.key) + (": " + value))
  {
    assert [':'] + ([' '] + value) == ": " + value;
    StringIs(m.key, ": " + value);
    LineIs(depth, StringText(m.key) + (": " + value));
  }

  lemma Regroup6(a: string, b: string, c: string, d: string, e: string, f: string, g: string)
    ensures a + b + c + d + e + f + g == a + (b + (c + (d + (e + (f + g)))))
  {
    Regroup4(a, b, c, d, e + (f + g));
    Regroup4(a + b + c, d, e, f, g);
  }

  lemma {:induction false} MembersIs(members: seq<Member>, first: bool, depth: nat, tail: string)
    ensures MembersTo(members, first, depth, tail) == PrintMembers(members, first, depth) + tail
    decreases members, 0
  {
    if members != [] {
      var m, rest, comma := members[0], PrintMembers(members[1..], false, depth), if first then "" else ",";
      var value := PrintTo(m.value, depth, MembersTo(members[1..], false, depth, tail));
      assert value == Print(m.value, depth) + (rest + tail) by {
        MembersIs(members[1..], false, depth, tail);
        PrintIs(m.value, depth, rest + tail);
      }
      var line := LineTo(depth, StringTo(m.key, [':'] + ([' '] + value)));
      assert MembersTo(members, first, depth, tail) == comma + line;
      MemberIs(m, depth, rest + tail, value);
      Regroup6(comma, NewLine(depth), StringText(m.key), ": ", Print(m.value, depth), rest, tail);
    }
  }

  // ----- White space -----

  lemma {:induction false} SkipIndent(depth: nat, tail: string)
    requires tail != [] && !IsWs(tail[0])
    ensures SkipWs(IndentTo(depth, tail)) == tail
  {
    if depth > 0 {
      SkipIndent(depth - 1, tail);
      var rest := IndentTo(depth - 1, tail);
      assert ([' '] + ([' '] + rest))[1..] == [' '] + rest;
      assert ([' '] + rest)[1..] == rest;
      assert SkipWs([' '] + rest) == tail;
    }
  }

  /** A line break and its indentation are skipped whole. */
  lemma SkipLine(depth: nat, tail: string)
    requires tail != [] && !IsWs(tail[0])
    ensures SkipWs(LineTo(depth, tail)) == tail
  {
    SkipIndent(depth, tail);
    assert LineTo(depth, tail)[1..] == IndentTo(depth, tail);
  }

  // ----- Strings -----

  lemma HexDigitValue(d: nat)
    requires d < 16
    ensures HexValue(HexDigit(d)) == Some(d)
  {}

  lemma HexStep(c: char, s: string, n: nat, code: nat)
    requires HexValue(c).Some?
    ensures Hex([c] + s, n + 1, code) == Hex(s, n, code * 16 + HexValue(c).value)
  {
    assert ([c] + s)[1..] == s;
  }

  lemma ControlRoundTrip(c: char, tail: string)
    requires c as nat < 0x20
    ensures EscapeSeq("u00" + [HexDigit(c as nat / 16), HexDigit(c as nat % 16)] + tail) == Good(c, tail)
  {
    var hi, lo := c as nat / 16, c as nat % 16;
    var a, b := HexDigit(hi), HexDigit(lo);
    HexDigitValue(hi);
    HexDigitValue(lo);
    HexStep(b, tail, 0, hi);
    HexStep(a, [b] + tail, 1, 0);
    HexStep('0', [a] + ([b] + tail), 2, 0);
    HexStep('0', ['0'] + ([a] + ([b] + tail)), 3, 0);
    var s := "u00" + [a, b] + tail;
    assert s[1..] == ['0'] + (['0'] + ([a] + ([b] + tail)));
    assert s[0] == 'u';
  }

  /** The parser reads one escaped character back. */
  lemma EscapeCharRoundTrip(c: char, tail: string, done: string)
    ensures StringBody(EscapeChar(c) + tail, done) == StringBody(tail, done + [c])
  {
    var t := EscapeChar(c);
    var s := t + tail;
    if |t| == 1 {
      assert s[1..] == tail;
    } else if |t| == 2 {
      assert s[1..] == [t[1]] + tail;
      assert s[1..][1..] == tail;
      assert EscapedBody(s[1..], done) == StringBody(tail, done + [c]);
    } else {
      ControlRoundTrip(c, tail);
      assert s[1..] == "u00" + [HexDigit(c as nat / 16), HexDigit(c as nat % 16)] + tail;
      assert EscapedBody(s[1..], done) == StringBody(tail, done + [c]);
    }
  }

  lemma {:induction false} StringBodyRoundTrip(s: string, tail: string, done: string)
    ensures StringBody(EscapeTo(s, ['\"'] + tail), done) == Good(done + s, tail)
    decreases |s|
  {
    if s == [] {
      assert (['\"'] + tail)[1..] == tail;
      assert done + s == done;
    } else {
      var rest := EscapeTo(s[1..], ['\"'] + tail);
      assert StringBody(EscapeTo(s, ['\"'] + tail), done) == StringBody(rest, done + [s[0]]) by {
        EscapeCharRoundTrip(s[0], rest, done);
      }
      assert StringBody(rest, done + [s[0]]) == Good(done + [s[0]] + s[1..], tail) by {
        StringBodyRoundTrip(s[1..], tail, done + [s[0]]);
      }
      assert done + [s[0]] + s[1..] == done + s;
    }
  }

  lemma StringRoundTrip(s: string, tail: string)
    ensures ParseString(StringTo(s, tail)) == Good(s, tail)
  {
    StringBodyRoundTrip(s, tail, "");
    assert StringTo(s, tail)[1..] == EscapeTo(s, ['\"'] + tail);
    assert "" + s == s;
  }

  // ----- Numbers -----

  /** No number runs on into `tail`. */
  predicate Ends(tail: string) {
    tail == [] || !IsNumberChar(tail[0])
  }

  lemma {:induction false} SkipNumberOver(t: string, tail: string)
    requires Ends(tail) && forall i :: 0 <= i < |t| ==> IsNumberChar(t[i])
    ensures SkipNumber(t + tail) == tail
  {
    if t == [] {
      assert t + tail == tail;
    } else {
      assert (t + tail)[1..] == t[1..] + tail;
      SkipNumberOver(t[1..], tail);
    }
  }

  /** A number literal is cut out whole. */
  lemma NumberCut(t: string, tail: string)
    requires t != [] && (t[0] == '-' || IsDigit(t[0])) && Ends(tail)
    requires forall i :: 0 <= i < |t| ==> IsNumberChar(t[i])
    ensures ParseNumber(t + tail) ==
            match NumberOf(t) { case Some(v) => Good(v, tail) case None => Bad(|tail|, BadNumber) }
  {
    var s := t + tail;
    if t[0] == '-' {
      assert s[1..] == t[1..] + tail;
      SkipNumberOver(t[1..], tail);
    } else {
      SkipNumberOver(t, tail);
    }
    assert s[..|s| - |tail|] == t;
  }

  lemma {:induction false} NatTextValue(n: nat)
    ensures DigitsValue(NatText(n)) == n
  {
    var t := NatText(n);
    if n >= 10 {
      NatTextValue(n / 10);
      assert t[..|t| - 1] == NatText(n / 10);
    } else {
      assert t[..0] == [];
    }
  }

  lemma IntTextValue(i: int)
    requires I128_MIN <= i <= I128_MAX
    ensures NumberOf(IntText(i)) == Some(Int(i))
    ensures var t := IntText(i);
            && t != [] && (t[0] == '-' || IsDigit(t[0]))
            && forall k :: 0 <= k < |t| ==> IsNumberChar(t[k])
  {
    var t := IntText(i);
    if i < 0 {
      NatTextValue(-i);
      assert t[1..] == NatText(-i);
      assert forall k :: 1 <= k < |t| ==> t[k] == NatText(-i)[k - 1];
    } else {
      NatTextValue(i);
      assert IsDigit(t[0]);
    }
  }

  lemma FloatChars(t: string)
    requires IsDebugFloat(t)
    ensures t != [] && (t[0] == '-' || IsDigit(t[0]))
    ensures forall k :: 0 <= k < |t| ==> IsNumberChar(t[k])
  {
    assert IsDigit(t[if t[0] == '-' then 1 else 0]);
  }

  /** What the printer writes for a finite float is read as a float with that literal. */
  lemma FloatLiteral(t: string)
    requires IsDebugFloat(t)
    ensures NumberOf(t) == Some(Float(Finite(t)))
  {
    var i := if Peek(t, '-') then 1 else 0;
    var j := SkipDigits(t, i);
    assert i <= j < |t| && !IsDigit(t[j]);
    assert IsRustFloat(t);
  }

  // ----- Values -----

  /** No value starts like white space or a closer. */
  lemma PrintHead(v: Json, depth: nat, tail: string)
    requires Valid(v)
    ensures PrintTo(v, depth, tail) != []
    ensures var c := PrintTo(v, depth, tail)[0]; !IsWs(c) && c != ']' && c != '}'
  {
    match v
    case Int(i) => IntTextValue(i);
    case Float(Finite(t)) => FloatChars(t);
    case _ =>
  }

  lemma {:induction false} LiteralRoundTrip(word: string, v: Json, tail: string)
    ensures Literal(word + tail, word, v) == Good(v, tail)
    decreases |word|
  {
    if word == [] {
      assert word + tail == tail;
    } else {
      assert (word + tail)[1..] == word[1..] + tail;
      LiteralRoundTrip(word[1..], v, tail);
    }
  }

  // One step of each parser loop, on a text whose next part is known.

  lemma ParseOpen(line: string, s: string)
    requires SkipWs(line) == s && s != [] && s[0] != ']' && s[0] != '}'
    ensures ParseValue(['['] + line) == ParseElts(s, [])
    ensures ParseValue(['{'] + line) == ParseMembers(s, [])
  {
    assert (['['] + line)[1..] == line;
    assert (['{'] + line)[1..] == line;
  }

  lemma ParseEmpty(tail: string)
    ensures ParseValue("[]" + tail) == Good(Arr([]), tail)
    ensures ParseValue("{}" + tail) == Good(Obj([]), tail)
  {
    assert ("[]" + tail)[1..] == [']'] + tail && ([']'] + tail)[1..] == tail;
    assert ("{}" + tail)[1..] == ['}'] + tail && (['}'] + tail)[1..] == tail;
  }

  lemma EltsComma(s: string, done: seq<Json>, v: Json, next: string)
    requires ParseValue(SkipWs(s)) == Good(v, [','] + next)
    ensures ParseElts(s, done) == ParseElts(next, done + [v])
  {
    assert ([','] + next)[1..] == next;
  }

  lemma EltsClose(s: string, done: seq<Json>, v: Json, behind: string, tail: string)
    requires ParseValue(SkipWs(s)) == Good(v, behind) && SkipWs(behind) == [']'] + tail
    ensures ParseElts(s, done) == Good(Arr(done + [v]), tail)
  {
    assert ([']'] + tail)[1..] == tail;
  }

  lemma MembersComma(s: string, done: seq<Member>, m: Member, next: string)
    requires ParseMember(SkipWs(s)) == Good(m, [','] + next)
    ensures ParseMembers(s, done) == ParseMembers(next, done + [m])
  {
    assert ([','] + next)[1..] == next;
  }

  lemma MembersClose(s: string, done: seq<Member>, m: Member, behind: string, tail: string)
    requires ParseMember(SkipWs(s)) == Good(m, behind) && SkipWs(behind) == ['}'] + tail
    ensures ParseMembers(s, done) == Good(Obj(done + [m]), tail)
  {
    assert (['}'] + tail)[1..] == tail;
  }

  /** Scalars: everything that is not an array or an object. */
  lemma ScalarRoundTrip(v: Json, depth: nat, tail: string)
    requires Valid(v) && Ends(tail) && !v.Arr? && !v.Obj?
    ensures ParseValue(PrintTo(v, depth, tail)) == Good(Erase(v), tail)
  {
    match v
    case Null => LiteralRoundTrip("null", Null, tail);
    case Bool(b) => LiteralRoundTrip(if b then "true" else "false", v, tail);
    case Int(i) => IntTextValue(i); NumberRoundTrip(IntText(i), v, tail);
    case Float(f) => if f.Finite? { FloatLiteral(f.literal); FloatChars(f.literal); NumberRoundTrip(f.literal, v, tail); } else { LiteralRoundTrip("null", Null, tail); }
    case Str(s) => StringRoundTrip(s, tail);
  }

  lemma NumberRoundTrip(t: string, v: Json, tail: string)
    requires t != [] && (t[0] == '-' || IsDigit(t[0])) && Ends(tail)
    requires NumberOf(t) == Some(v) && forall i :: 0 <= i < |t| ==> IsNumberChar(t[i])
    ensures ParseValue(t + tail) == Good(v, tail)
  {
    NumberCut(t, tail);
    assert (t + tail)[0] == t[0];
  }

  /** The text of a value, with no number running on behind it, is read back. */
  lemma {:induction false} ValueRoundTrip(v: Json, depth: nat, tail: string)
    requires Valid(v) && Ends(tail)
    ensures ParseValue(PrintTo(v, depth, tail)) == Good(Erase(v), tail)
    decreases v, 1
  {
    match v
    case Arr(elts) =>
      if elts == [] { ParseEmpty(tail); } else { ArrayRoundTrip(elts, depth, tail); }
    case Obj(members) =>
      if members == [] { ParseEmpty(tail); } else { ObjectRoundTrip(members, depth, tail); }
    case _ => ScalarRoundTrip(v, depth, tail);
  }

  /** From the first character of the first element to the end of the array. */
  function EltsText(elts: seq<Json>, depth: nat, tail: string): string
    requires elts != []
  {
    PrintTo(elts[0], depth + 1, EltsTo(elts[1..], false, depth + 1, LineTo(depth, [']'] + tail)))
  }

  lemma {:induction false} ArrayRoundTrip(elts: seq<Json>, depth: nat, tail: string)
    requires elts != [] && Valid(Arr(elts))
    ensures ParseValue(PrintTo(Arr(elts), depth, tail)) == Good(Erase(Arr(elts)), tail)
    decreases elts, 1
  {
    var s := EltsText(elts, depth, tail);
    EltsHead(elts, depth, tail);
    ParseOpen(LineTo(depth + 1, s), s);
    EltsRoundTrip(elts, depth, tail, s, []);
    assert [] + EraseElts(elts) == EraseElts(elts);
  }

  lemma EltsHead(elts: seq<Json>, depth: nat, tail: string)
    requires elts != [] && Valid(Arr(elts))
    ensures var s := EltsText(elts, depth, tail);
            && s != [] && s[0] != ']' && s[0] != '}'
            && SkipWs(LineTo(depth + 1, s)) == s && SkipWs(s) == s
  {
    PrintHead(elts[0], depth + 1, EltsTo(elts[1..], false, depth + 1, LineTo(depth, [']'] + tail)));
    SkipLine(depth + 1, EltsText(elts, depth, tail));
  }

  /** The element loop, started in the white space before the first element. */
  lemma {:induction false} EltsRoundTrip(elts: seq<Json>, depth: nat, tail: string, s: string, done: seq<Json>)
    requires elts != [] && Valid(Arr(elts)) && SkipWs(s) == EltsText(elts, depth, tail)
    ensures ParseElts(s, done) == Good(Arr(done + EraseElts(elts)), tail)
    decreases elts, 0, 1
  {
    if |elts| == 1 {
      EltsTextSplit(elts, depth, tail);
      LastElt(elts[0], depth, tail, s, done);
    } else {
      NextElt(elts, depth, tail, s, done);
      var next := LineTo(depth + 1, EltsText(elts[1..], depth, tail));
      EltsRoundTrip(elts[1..], depth, tail, next, done + [Erase(elts[0])]);
    }
    EraseEltsBehind(elts, done);
  }

  lemma {:induction false} NextElt(elts: seq<Json>, depth: nat, tail: string, s: string, done: seq<Json>)
    requires |elts| > 1 && Valid(Arr(elts)) && SkipWs(s) == EltsText(elts, depth, tail)
    ensures var next := LineTo(depth + 1, EltsText(elts[1..], depth, tail));
            && SkipWs(next) == EltsText(elts[1..], depth, tail)
            && ParseElts(s, done) == ParseElts(next, done + [Erase(elts[0])])
    decreases elts, 0, 0
  {
    var v, next := elts[0], LineTo(depth + 1, EltsText(elts[1..], depth, tail));
    assert SkipWs(next) == EltsText(elts[1..], depth, tail) by {
      EltsHead(elts[1..], depth, tail);
    }
    assert ParseValue(SkipWs(s)) == Good(Erase(v), [','] + next) by {
      EltsTextSplit(elts, depth, tail);
      ValueRoundTrip(v, depth + 1, [','] + next);
    }
    EltsComma(s, done, Erase(v), next);
  }

  lemma {:induction false} LastElt(v: Json, depth: nat, tail: string, s: string, done: seq<Json>)
    requires Valid(v) && SkipWs(s) == PrintTo(v, depth + 1, LineTo(depth, [']'] + tail))
    ensures ParseElts(s, done) == Good(Arr(done + [Erase(v)]), tail)
    decreases v, 2
  {
    var close := LineTo(depth, [']'] + tail);
    assert SkipWs(close) == [']'] + tail by { SkipLine(depth, [']'] + tail); }
    assert ParseValue(SkipWs(s)) == Good(Erase(v), close) by {
      ValueRoundTrip(v, depth + 1, close);
    }
    EltsClose(s, done, Erase(v), close, tail);
  }

  lemma EltsTextSplit(elts: seq<Json>, depth: nat, tail: string)
    requires elts != []
    ensures var rest := elts[1..];
            EltsText(elts, depth, tail) == PrintTo(elts[0], depth + 1,
              if rest == [] then LineTo(depth, [']'] + tail)
              else [','] + LineTo(depth + 1, EltsText(rest, depth, tail)))
  {}

  lemma EraseEltsBehind(elts: seq<Json>, done: seq<Json>)
    requires elts != []
    ensures done + [Erase(elts[0])] + EraseElts(elts[1..]) == done + EraseElts(elts)
    ensures elts[1..] == [] ==> done + [Erase(elts[0])] == done + EraseElts(elts)
  {
    assert done + [Erase(elts[0])] + EraseElts(elts[1..]) == done + ([Erase(elts[0])] + EraseElts(elts[1..]));
  }

  function MemberTo(m: Member, depth: nat, tail: string): string {
    StringTo(m.key, [':'] + ([' '] + PrintTo(m.value, depth, tail)))
  }

  /** From the first character of the first key to the end of the object. */
  function MembersText(members: seq<Member>, depth: nat, tail: string): string
    requires members != []
  {
    MemberTo(members[0], depth + 1, MembersTo(members[1..], false, depth + 1, LineTo(depth, ['}'] + tail)))
  }

  lemma {:induction false} ObjectRoundTrip(members: seq<Member>, depth: nat, tail: string)
    requires members != [] && Valid(Obj(members))
    ensures ParseValue(PrintTo(Obj(members), depth, tail)) == Good(Erase(Obj(members)), tail)
    decreases members, 1
  {
    var s := MembersText(members, depth, tail);
    SkipLine(depth + 1, s);
    ParseOpen(LineTo(depth + 1, s), s);
    MembersRoundTrip(members, depth, tail, s, []);
    assert [] + EraseMembers(members) == EraseMembers(members);
  }

  lemma MemberRead(s: string, key: string, t: string, v: Json, tail: string)
    requires ParseString(s) == Good(key, [':'] + t) && ParseValue(SkipWs(t)) == Good(v, tail)
    ensures ParseMember(s) == Good(Member(key, v), tail)
  {
    assert ([':'] + t)[1..] == t;
  }

  /** The key, the colon and the value of one member are read back. */
  lemma {:induction false} MemberRoundTrip(m: Member, depth: nat, tail: string)
    requires Valid(m.value) && Ends(tail)
    ensures ParseMember(MemberTo(m, depth, tail)) == Good(Member(m.key, Erase(m.value)), tail)
    decreases m, 2
  {
    var value := PrintTo(m.value, depth, tail);
    var colon := [':'] + ([' '] + value);
    assert ParseString(MemberTo(m, depth, tail)) == Good(m.key, colon) by {
      StringRoundTrip(m.key, colon);
    }
    assert SkipWs([' '] + value) == value by {
      PrintHead(m.value, depth, tail);
      assert ([' '] + value)[1..] == value;
    }
    assert ParseValue(value) == Good(Erase(m.value), tail) by {
      ValueRoundTrip(m.value, depth, tail);
    }
    MemberRead(MemberTo(m, depth, tail), m.key, [' '] + value, Erase(m.value), tail);
  }

  lemma {:induction false} MembersRoundTrip(members: seq<Member>, depth: nat, tail: string, s: string, done: seq<Member>)
    requires members != [] && Valid(Obj(members)) && SkipWs(s) == MembersText(members, depth, tail)
    ensures ParseMembers(s, done) == Good(Obj(done + EraseMembers(members)), tail)
    decreases members, 0, 1
  {
    if |members| == 1 {
      MembersTextSplit(members, depth, tail);
      LastMember(members[0], depth, tail, s, done);
    } else {
      NextMember(members, depth, tail, s, done);
      var next := LineTo(depth + 1, MembersText(members[1..], depth, tail));
      var read := Member(members[0].key, Erase(members[0].value));
      MembersRoundTrip(members[1..], depth, tail, next, done + [read]);
    }
    EraseMembersBehind(members, done);
  }

  /** The first of several members, and what is behind its comma. */
  lemma {:induction false} NextRead(members: seq<Member>, depth: nat, tail: string)
    requires |members| > 1 && Valid(members[0].value)
    ensures var next := LineTo(depth + 1, MembersText(members[1..], depth, tail));
            ParseMember(MembersText(members, depth, tail))
            == Good(Member(members[0].key, Erase(members[0].value)), [','] + next)
    decreases members, 0, 0, 0
  {
    MembersTextSplit(members, depth, tail);
    MemberRoundTrip(members[0], depth + 1, [','] + LineTo(depth + 1, MembersText(members[1..], depth, tail)));
  }

  lemma {:induction false} NextMember(members: seq<Member>, depth: nat, tail: string, s: string, done: seq<Member>)
    requires |members| > 1 && Valid(members[0].value) && SkipWs(s) == MembersText(members, depth, tail)
    ensures var next := LineTo(depth + 1, MembersText(members[1..], depth, tail));
            && SkipWs(next) == MembersText(members[1..], depth, tail)
            && ParseMembers(s, done) == ParseMembers(next, done + [Member(members[0].key, Erase(members[0].value))])
    decreases members, 0, 0, 1
  {
    var text := MembersText(members[1..], depth, tail);
    var next, read := LineTo(depth + 1, text), Member(members[0].key, Erase(members[0].value));
    assert SkipWs(next) == text by {
      SkipLine(depth + 1, text);
    }
    assert ParseMember(SkipWs(s)) == Good(read, [','] + next) by {
      NextRead(members, depth, tail);
    }
    MembersComma(s, done, read, next);
  }

  /** The last member, and the closer behind it. */
  lemma {:induction false} LastRead(m: Member, depth: nat, tail: string)
    requires Valid(m.value)
    ensures var close := LineTo(depth, ['}'] + tail);
            ParseMember(MemberTo(m, depth + 1, close)) == Good(Member(m.key, Erase(m.value)), close)
    decreases m, 3
  {
    var close := LineTo(depth, ['}'] + tail);
    assert close[0] == '\n';
    MemberRoundTrip(m, depth + 1, close);
  }

  lemma {:induction false} LastMember(m: Member, depth: nat, tail: string, s: string, done: seq<Member>)
    requires Valid(m.value) && SkipWs(s) == MemberTo(m, depth + 1, LineTo(depth, ['}'] + tail))
    ensures ParseMembers(s, done) == Good(Obj(done + [Member(m.key, Erase(m.value))]), tail)
    decreases m, 4
  {
    var close, read := LineTo(depth, ['}'] + tail), Member(m.key, Erase(m.value));
    assert SkipWs(close) == ['}'] + tail by {
      SkipLine(depth, ['}'] + tail);
    }
    assert ParseMember(SkipWs(s)) == Good(read, close) by {
      LastRead(m, depth, tail);
    }
    MembersClose(s, done, read, close, tail);
  }

  lemma MembersTextSplit(members: seq<Member>, depth: nat, tail: string)
    requires members != []
    ensures var rest := members[1..];
            MembersText(members, depth, tail) == MemberTo(members[0], depth + 1,
              if rest == [] then LineTo(depth, ['}'] + tail)
              else [','] + LineTo(depth + 1, MembersText(rest, depth, tail)))
  {}

  lemma EraseMembersBehind(members: seq<Member>, done: seq<Member>)
    requires members != []
    ensures var read := Member(members[0].key, Erase(members[0].value));
            && done + [read] + EraseMembers(members[1..]) == done + EraseMembers(members)
            && (members[1..] == [] ==> done + [read] == done + EraseMembers(members))
  {
    var read := Member(members[0].key, Erase(members[0].value));
    assert done + [read] + EraseMembers(members[1..]) == done + ([read] + EraseMembers(members[1..]));
  }

  // ----- Main results -----

  /** Parsing the pretty-printed text of any valid value returns it, non-finite floats as null. */
  lemma PrettyRoundTrip(v: Json)
    requires Valid(v)
    ensures Parse(ToPretty(v)) == Ok(Erase(v))
  {
    PrintIs(v, 0, "\n");
    PrintHead(v, 0, "\n");
    ValueRoundTrip(v, 0, "\n");
    assert SkipWs(ToPretty(v)) == ToPretty(v);
    assert SkipWs("\n") == [];
  }

  /** The round trip gives the value back exactly when all its floats are finite. */
  lemma RoundTripIffFinite(v: Json)
    requires Valid(v)
    ensures Parse(ToPretty(v)) == Ok(v) <==> AllFinite(v)
  {
    PrettyRoundTrip(v);
    EraseFixes(v);
  }

  /** Two valid finite values with the same text are the same value. */
  lemma PrintingIsInjective(v: Json, w: Json)
    requires Valid(v) && Valid(w) && AllFinite(v) && AllFinite(w)
    requires ToPretty(v) == ToPretty(w)
    ensures v == w
  {
    RoundTripIffFinite(v);
    RoundTripIffFinite(w);
  }
}
