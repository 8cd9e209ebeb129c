/**
 The layout the printer chooses among all the ways to write a value: every printed text is a document
 with two spaces for each level, one element or member to a line, and the shortest numbers and escapes.
 */
module JsonLayout {
  import opened Wrappers
  import opened Json
  import opened JsonReader
  import R = JsonRoundTrip

  /** A line end and the indentation of a level. */
  ghost predicate IsLine(gap: string, depth: nat) {
    |gap| == 1 + 2 * depth && gap[0] == '\n' && forall i :: 0 < i < |gap| ==> gap[i] == ' '
  }

  /** The short escapes for quotes, backslashes, line ends and tabs, lower-case codes for other control characters. */
  ghost predicate PrettyPiece(p: Piece) {
    match p
    case Plain(c) => c as nat >= 0x20
    case Letter(letter) => letter in "\"\\nrt"
    case Unit(digits, code) =>
      code < 0x20 && code != 9 && code != 10 && code != 13 && forall i :: 0 <= i < |digits| ==> !('A' <= digits[i] <= 'F')
    case Pair(_, _, _, _) => false
  }

  ghost predicate PrettyPieces(ps: seq<Piece>) {
    forall i :: 0 <= i < |ps| ==> PrettyPiece(ps[i])
  }

  /** No zero in front of other digits, and no minus before zero. */
  predicate PrettyNumeral(n: Numeral) {
    n.fraction.None? && n.exponent.None? && n.whole != [] && n.whole[0] == '0' ==> n.whole == "0" && !n.minus
  }

  ghost predicate Pretty(d: Doc, depth: nat)
    decreases d, 1
  {
    match d
    case Number(n) => PrettyNumeral(n)
    case Text(ps) => PrettyPieces(ps)
    case Array(gap, items) => gap == "" && PrettyItems(items, depth)
    case Object(gap, pairs) => gap == "" && PrettyEntries(pairs, depth)
    case _ => true
  }

  /** Every element on a line of its own, and the closing bracket on the last. */
  ghost predicate PrettyItems(items: seq<Item>, depth: nat)
    decreases items, 0
  {
    items == [] ||
    (&& IsLine(items[0].before, depth + 1) && Pretty(items[0].doc, depth + 1)
     && (if |items| == 1 then IsLine(items[0].after, depth) else items[0].after == "")
     && PrettyItems(items[1..], depth))
  }

  /** The same for members: nothing before the colon and a space behind it. */
  ghost predicate PrettyEntries(pairs: seq<Entry>, depth: nat)
    decreases pairs, 0
  {
    pairs == [] ||
    (&& IsLine(pairs[0].before, depth + 1) && Pretty(pairs[0].doc, depth + 1)
     && PrettyPieces(pairs[0].key) && pairs[0].colon == "" && pairs[0].gap == " "
     && (if |pairs| == 1 then IsLine(pairs[0].after, depth) else pairs[0].after == "")
     && PrettyEntries(pairs[1..], depth))
  }

  // ----- Lines, strings and numbers -----

  lemma LineIs(depth: nat, tail: string)
    ensures R.LineTo(depth, tail) == NewLine(depth) + tail && IsLine(NewLine(depth), depth) && Blank(NewLine(depth))
  {
    R.LineIs(depth, tail);
  }

  lemma CharDoc(c: char, tail: string) returns (p: Piece)
    ensures FinePiece(p) && PrettyPiece(p) && Meant(p) == c && EscapeChar(c) + tail == PieceTo(p, tail)
  {
    if c in "\"\\\n\r\t" {
      var letter := if c == '\n' then 'n' else if c == '\r' then 'r' else if c == '\t' then 't' else c;
      p := Letter(letter);
      assert EscapeChar(c) == "\\" + [letter];
      assert "\\" + [letter] + tail == "\\" + ([letter] + tail);
    } else if c as nat < 0x20 {
      p := ControlDoc(c, tail);
    } else {
      p := Plain(c);
    }
  }

  /** Two lower-case digits behind two zeros. */
  lemma ControlDigits(code: nat, digits: string)
    requires code < 0x20 && digits == ['0', '0', HexDigit(code / 16), HexDigit(code % 16)]
    ensures IsHex4(digits, code) && forall i :: 0 <= i < |digits| ==> !('A' <= digits[i] <= 'F')
  {
    assert Hex4At(digits, 0, 0, code / 16, code % 16);
  }

  lemma ControlDoc(c: char, tail: string) returns (p: Piece)
    requires c as nat < 0x20 && c !in "\"\\\n\r\t"
    ensures FinePiece(p) && PrettyPiece(p) && Meant(p) == c && EscapeChar(c) + tail == PieceTo(p, tail)
  {
    var digits := ['0', '0', HexDigit(c as nat / 16), HexDigit(c as nat % 16)];
    ControlDigits(c as nat, digits);
    p := Unit(digits, c as nat);
    ControlText(c, digits, tail);
  }

  lemma ControlText(c: char, digits: string, tail: string)
    requires c as nat < 0x20 && c !in "\"\\\n\r\t"
    requires digits == ['0', '0', HexDigit(c as nat / 16), HexDigit(c as nat % 16)]
    ensures EscapeChar(c) + tail == UnitTo(digits, tail)
  {
    var x, y := HexDigit(c as nat / 16), HexDigit(c as nat % 16);
    assert EscapeChar(c) == "\\u00" + [x, y];
    assert "\\u00" + [x, y] + tail == "\\" + ("u" + (['0', '0', x, y] + tail));
  }

  lemma {:induction false} EscapeDoc(s: string, tail: string) returns (ps: seq<Piece>)
    ensures FinePieces(ps) && PrettyPieces(ps) && Characters(ps) == s && R.EscapeTo(s, ['\"'] + tail) == PiecesTo(ps, tail)
  {
    if s == [] {
      ps := [];
    } else {
      var more := EscapeDoc(s[1..], tail);
      var p := CharDoc(s[0], PiecesTo(more, tail));
      ps := [p] + more;
      PiecesFirst(p, more, tail);
      assert s == [s[0]] + s[1..];
    }
  }

  lemma StringDoc(s: string, tail: string) returns (ps: seq<Piece>)
    ensures FinePieces(ps) && PrettyPieces(ps) && Characters(ps) == s && R.StringTo(s, tail) == StringTo(ps, tail)
  {
    ps := EscapeDoc(s, tail);
  }

  lemma {:induction false} NatTextFirst(n: nat)
    ensures NatText(n)[0] == '0' ==> n == 0 && NatText(n) == "0"
  {
    if n >= 10 {
      NatTextFirst(n / 10);
    }
  }

  lemma IntDoc(i: int) returns (n: Numeral)
    requires I128_MIN <= i <= I128_MAX
    ensures FineNumeral(n) && PrettyNumeral(n) && Amount(n) == Int(i) && Written(n) == IntText(i)
  {
    var t := IntText(i);
    R.IntTextValue(i);
    n := NumberDoc(t, Int(i));
    NatTextFirst(if i < 0 then -i else i);
    assert n.whole == if i < 0 then NatText(-i) else NatText(i) by {
      assert n.whole == if n.minus then Written(n)[1..] else Written(n);
    }
  }

  /** A number text the parser accepts as a whole is a numeral. */
  lemma NumberDoc(t: string, v: Json) returns (n: Numeral)
    requires t != [] && (t[0] == '-' || IsDigit(t[0])) && NumberOf(t) == Some(v)
    ensures FineNumeral(n) && t == Written(n) && v == Amount(n)
    ensures v.Int? ==> n.fraction.None? && n.exponent.None? && n.minus == (t[0] == '-')
  {
    if exists i :: (if Peek(t, '-') then 1 else 0) <= i < |t| && !IsDigit(t[i]) {
      n := FloatBack(t);
    } else {
      n := WholeBack(t);
    }
    var a, b, c := NumeralLaid(n);
    SignIs(n, t, a, b, c);
  }

  // ----- Values -----

  lemma {:induction false} PrintDoc(v: Json, depth: nat, tail: string) returns (d: Doc)
    requires Valid(v)
    ensures Fine(d) && Pretty(d, depth) && Value(d) == R.Erase(v) && R.PrintTo(v, depth, tail) == DocTo(d, tail)
    decreases v, 1
  {
    match v
    case Null => d := Nothing;
    case Bool(b) => d := Truth(b);
    case Int(i) =>
      var n := IntDoc(i);
      d := Number(n);
    case Float(_) =>
      d := FloatDoc(v);
    case Str(s) =>
      var ps := StringDoc(s, tail);
      d := Text(ps);
    case Arr(elts) =>
      if elts == [] {
        d := Array("", []);
        assert "[]" + tail == ['['] + ("" + ([']'] + tail));
      } else {
        var items := EltsDoc(elts, depth, tail);
        d := Array("", items);
      }
    case Obj(members) =>
      if members == [] {
        d := Object("", []);
        assert "{}" + tail == ['{'] + ("" + (['}'] + tail));
      } else {
        var pairs := MembersDoc(members, depth, tail);
        d := Object("", pairs);
      }
  }

  lemma FloatDoc(v: Json) returns (d: Doc)
    requires v.Float? && Valid(v)
    ensures Fine(d) && (d.Nothing? || d.Number?) && (d.Number? ==> PrettyNumeral(d.n)) && Value(d) == R.Erase(v)
    ensures forall depth, tail :: DocTo(d, tail) == Print(v, depth) + tail
  {
    if v.f.Finite? {
      R.FloatChars(v.f.literal);
      R.FloatLiteral(v.f.literal);
      var n := NumberDoc(v.f.literal, v);
      d := Number(n);
    } else {
      d := Nothing;
    }
  }

  lemma {:induction false} EltsDoc(elts: seq<Json>, depth: nat, tail: string) returns (items: seq<Item>)
    requires elts != [] && forall e :: e in elts ==> Valid(e)
    ensures items != [] && (forall i :: 0 <= i < |items| ==> FineItem(items[i])) && PrettyItems(items, depth)
    ensures ItemValues(items) == R.EraseElts(elts)
    ensures R.EltsTo(elts, true, depth + 1, R.LineTo(depth, [']'] + tail)) == ItemsTo(items, tail)
    decreases elts, 0
  {
    var end := R.LineTo(depth, [']'] + tail);
    var rest := R.EltsTo(elts[1..], false, depth + 1, end);
    assert elts[0] in elts && forall e :: e in elts[1..] ==> e in elts;
    var d := PrintDoc(elts[0], depth + 1, rest);
    assert R.EltsTo(elts, true, depth + 1, end) == NewLine(depth + 1) + DocTo(d, rest) by {
      LineIs(depth + 1, DocTo(d, rest));
    }
    if |elts| == 1 {
      items := [Item(NewLine(depth + 1), d, NewLine(depth))];
      LastItem(d, depth, rest, tail);
      assert elts[1..] == [];
    } else {
      var more := EltsDoc(elts[1..], depth, tail);
      items := [Item(NewLine(depth + 1), d, "")] + more;
      assert rest == [','] + ItemsTo(more, tail);
      NextItem(d, depth, rest, more, tail);
    }
  }

  lemma LastItem(d: Doc, depth: nat, rest: string, tail: string)
    requires Fine(d) && Pretty(d, depth + 1) && rest == R.LineTo(depth, [']'] + tail)
    ensures var item := Item(NewLine(depth + 1), d, NewLine(depth));
            && FineItem(item) && PrettyItems([item], depth)
            && ItemsTo([item], tail) == NewLine(depth + 1) + DocTo(d, rest) && ItemValues([item]) == [Value(d)]
  {
    var item := Item(NewLine(depth + 1), d, NewLine(depth));
    LineIs(depth, [']'] + tail);
    LineIs(depth + 1, tail);
    assert FineItem(item);
    ItemsOnly(item, tail);
    assert [item][1..] == [];
  }

  lemma NextItem(d: Doc, depth: nat, rest: string, more: seq<Item>, tail: string)
    requires Fine(d) && Pretty(d, depth + 1) && more != [] && rest == [','] + ItemsTo(more, tail)
    requires (forall i :: 0 <= i < |more| ==> FineItem(more[i])) && PrettyItems(more, depth)
    ensures var items := [Item(NewLine(depth + 1), d, "")] + more;
            && (forall i :: 0 <= i < |items| ==> FineItem(items[i])) && PrettyItems(items, depth)
            && ItemsTo(items, tail) == NewLine(depth + 1) + DocTo(d, rest)
            && ItemValues(items) == [Value(d)] + ItemValues(more)
  {
    var item := Item(NewLine(depth + 1), d, "");
    LineIs(depth + 1, tail);
    assert FineItem(item);
    ItemsFirst(item, more, tail);
    assert ([item] + more)[1..] == more && "" + rest == rest;
  }

  lemma {:induction false} MembersDoc(members: seq<Member>, depth: nat, tail: string) returns (pairs: seq<Entry>)
    requires members != [] && forall m :: m in members ==> Valid(m.value)
    ensures pairs != [] && (forall i :: 0 <= i < |pairs| ==> FineEntry(pairs[i])) && PrettyEntries(pairs, depth)
    ensures EntryValues(pairs) == R.EraseMembers(members)
    ensures R.MembersTo(members, true, depth + 1, R.LineTo(depth, ['}'] + tail)) == EntriesTo(pairs, tail)
    decreases members, 0
  {
    var end := R.LineTo(depth, ['}'] + tail);
    var rest := R.MembersTo(members[1..], false, depth + 1, end);
    assert members[0] in members && forall m :: m in members[1..] ==> m in members;
    var e, text := MemberDoc(members[0], depth, rest);
    MembersStep(members, depth, end, text);
    if |members| == 1 {
      pairs := [e.(after := NewLine(depth))];
      LastEntry(e, depth, rest, tail);
    } else {
      var more := MembersDoc(members[1..], depth, tail);
      pairs := [e] + more;
      NextEntry(e, depth, rest, more, tail);
    }
  }

  /** The first member, and what is behind it. */
  lemma MembersStep(members: seq<Member>, depth: nat, end: string, text: string)
    requires members != []
    requires var rest := R.MembersTo(members[1..], false, depth + 1, end);
             text == R.StringTo(members[0].key, [':'] + ([' '] + R.PrintTo(members[0].value, depth + 1, rest)))
    ensures R.MembersTo(members, true, depth + 1, end) == NewLine(depth + 1) + text
    ensures var rest := R.MembersTo(members[1..], false, depth + 1, end);
            rest == if |members| == 1 then end else [','] + R.MembersTo(members[1..], true, depth + 1, end)
    ensures var first := Member(members[0].key, R.Erase(members[0].value));
            R.EraseMembers(members) == if |members| == 1 then [first] else [first] + R.EraseMembers(members[1..])
  {
    LineIs(depth + 1, text);
    assert |members| == 1 ==> members[1..] == [];
    var first := Member(members[0].key, R.Erase(members[0].value));
    assert [first] + [] == [first];
  }

  /** A member as `MemberDoc` lays it out. */
  ghost predicate PrettyEntry(e: Entry, depth: nat) {
    && FineEntry(e) && IsLine(e.before, depth + 1) && e.colon == "" && e.gap == " "
    && PrettyPieces(e.key) && Pretty(e.doc, depth + 1)
  }

  lemma LastEntry(e: Entry, depth: nat, rest: string, tail: string)
    requires PrettyEntry(e, depth) && rest == R.LineTo(depth, ['}'] + tail)
    ensures var last := e.(after := NewLine(depth));
            && FineEntry(last) && PrettyEntries([last], depth)
            && EntriesTo([last], tail) == e.before + EntryTo(last, rest)
            && EntryValues([last]) == [Member(Characters(e.key), Value(e.doc))]
  {
    var last := e.(after := NewLine(depth));
    LineIs(depth, ['}'] + tail);
    assert FineEntry(last);
    EntriesOnly(last, tail);
    assert [last][1..] == [];
  }

  lemma NextEntry(e: Entry, depth: nat, rest: string, more: seq<Entry>, tail: string)
    requires PrettyEntry(e, depth) && e.after == "" && more != [] && rest == [','] + EntriesTo(more, tail)
    requires (forall i :: 0 <= i < |more| ==> FineEntry(more[i])) && PrettyEntries(more, depth)
    ensures var pairs := [e] + more;
            && (forall i :: 0 <= i < |pairs| ==> FineEntry(pairs[i])) && PrettyEntries(pairs, depth)
            && EntriesTo(pairs, tail) == e.before + EntryTo(e, rest)
            && EntryValues(pairs) == [Member(Characters(e.key), Value(e.doc))] + EntryValues(more)
  {
    EntriesFirst(e, more, tail);
    assert ([e] + more)[1..] == more && "" + rest == rest;
  }

  lemma {:induction false} MemberDoc(m: Member, depth: nat, rest: string) returns (e: Entry, text: string)
    requires Valid(m.value)
    ensures PrettyEntry(e, depth) && e.before == NewLine(depth + 1) && e.after == ""
    ensures Member(Characters(e.key), Value(e.doc)) == Member(m.key, R.Erase(m.value))
    ensures text == R.StringTo(m.key, [':'] + ([' '] + R.PrintTo(m.value, depth + 1, rest)))
    ensures forall after :: EntryTo(e.(after := after), rest) == text
    decreases m, 0
  {
    var d := PrintDoc(m.value, depth + 1, rest);
    var value := [':'] + (" " + DocTo(d, rest));
    var key := StringDoc(m.key, value);
    e := Entry(NewLine(depth + 1), key, "", " ", d, "");
    text := StringTo(key, value);
    LineIs(depth + 1, text);
    assert "" + value == value;
  }

  /** The printed text of every valid value is its pretty document and a line end. */
  lemma PrintsPretty(v: Json) returns (d: Doc)
    requires Valid(v)
    ensures Fine(d) && Pretty(d, 0) && Value(d) == R.Erase(v) && ToPretty(v) == DocTo(d, "\n")
  {
    d := PrintDoc(v, 0, "\n");
    R.PrintIs(v, 0, "\n");
  }
}
