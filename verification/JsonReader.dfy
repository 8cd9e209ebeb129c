/**
 The grammar of JSON texts, told from the side of the writer: a document says for every part of a value
 how it is spelled, with which escapes and which white space, and what it means.  The parser reads every
 such text as what it means.  The tables of escapes and digits here are the standard's own.
 */
module JsonReader {
  import opened Wrappers
  import opened Json
  import R = JsonRoundTrip

  // ----- Characters -----

  predicate Space(c: char) { c in " \t\n\r" }

  predicate Digit(c: char) { '0' <= c <= '9' }

  /** `c` is the hexadecimal digit `v` in one of its two cases. */
  predicate IsHexDigit(c: char, v: nat) {
    if v < 10 then c as nat == '0' as nat + v
    else v < 16 && (c as nat == 'a' as nat + v - 10 || c as nat == 'A' as nat + v - 10)
  }

  /** `d` is four hexadecimal digits with the value `code`. */
  ghost predicate IsHex4(d: string, code: nat) {
    |d| == 4 && exists w: nat, x: nat, y: nat, z: nat :: Hex4At(d, w, x, y, z) && code == w * 4096 + x * 256 + y * 16 + z
  }

  predicate Hex4At(d: string, w: nat, x: nat, y: nat, z: nat)
    requires |d| == 4
  {
    IsHexDigit(d[0], w) && IsHexDigit(d[1], x) && IsHexDigit(d[2], y) && IsHexDigit(d[3], z)
  }

  /** What a backslash and a letter stand for. */
  function Short(letter: char): Option<char> {
    match letter
    case '\"' => Some('\"')
    case '\\' => Some('\\')
    case '/' => Some('/')
    case 'b' => Some('\U{8}')
    case 'f' => Some('\U{C}')
    case 'n' => Some('\U{A}')
    case 'r' => Some('\U{D}')
    case 't' => Some('\U{9}')
    case _ => None
  }

  /** One character of a string, as it is written. */
  datatype Piece =
    | Plain(c: char)
    | Letter(letter: char)
    | Unit(digits: string, code: nat)
    | Pair(digits: string, more: string, high: nat, low: nat)

  /**
   A character stands for itself, behind a backslash, as its code, or as the codes of its surrogates.
   A second surrogate on its own stands for the replacement character.
   */
  ghost predicate FinePiece(p: Piece) {
    match p
    case Plain(c) => c != '\"' && c != '\\'
    case Letter(letter) => Short(letter).Some?
    case Unit(digits, code) => IsHex4(digits, code) && !(0xD800 <= code < 0xDC00)
    case Pair(digits, more, high, low) => Surrogates(digits, more, high, low)
  }

  /** The codes of a first and a second surrogate; the second code is only tested from below. */
  ghost predicate Surrogates(digits: string, more: string, high: nat, low: nat) {
    0xD800 <= high < 0xDC00 && 0xDC00 <= low && IsHex4(digits, high) && IsHex4(more, low)
  }

  /** The character of two surrogates; the replacement character where the second code takes it out of range. */
  function Joined(high: nat, low: nat): char
    requires 0xD800 <= high < 0xDC00 && 0xDC00 <= low
  {
    var code := 0x10000 + (high - 0xD800) * 0x400 + (low - 0xDC00);
    if code <= 0x10FFFF then code as char else '\U{FFFD}'
  }

  ghost function Meant(p: Piece): char
    requires FinePiece(p)
  {
    match p
    case Plain(c) => c
    case Letter(letter) => Short(letter).value
    case Unit(digits, code) =>
      HexBound(digits, code);
      if 0xDC00 <= code < 0xE000 then '\U{FFFD}' else code as char
    case Pair(_, _, high, low) => Joined(high, low)
  }

  lemma HexBound(d: string, code: nat)
    requires IsHex4(d, code)
    ensures code < 0x10000
  {}

  /** A code, and then `tail`. */
  function UnitTo(digits: string, tail: string): string {
    "\\" + ("u" + (digits + tail))
  }

  /** A piece, and then `tail`. */
  function PieceTo(p: Piece, tail: string): string {
    match p
    case Plain(c) => [c] + tail
    case Letter(letter) => "\\" + ([letter] + tail)
    case Unit(digits, _) => UnitTo(digits, tail)
    case Pair(digits, more, _, _) => UnitTo(digits, UnitTo(more, tail))
  }

  // ----- Hexadecimal digits -----

  lemma HexDigitIs(c: char, v: nat)
    requires IsHexDigit(c, v)
    ensures HexValue(c) == Some(v)
  {}

  lemma HexStep(s: string, v: nat, n: nat, code: nat)
    requires n > 0 && s != [] && IsHexDigit(s[0], v)
    ensures Hex(s, n, code) == Hex(s[1..], n - 1, code * 16 + v)
  {
    HexDigitIs(s[0], v);
  }

  lemma Hex4Reads(d: string, code: nat, tail: string)
    requires IsHex4(d, code)
    ensures Hex(d + tail, 4, 0) == Good(code, tail)
  {
    var w: nat, x: nat, y: nat, z: nat :| Hex4At(d, w, x, y, z) && code == w * 4096 + x * 256 + y * 16 + z;
    var s := d + tail;
    assert s[0] == d[0] && s[1] == d[1] && s[2] == d[2] && s[3] == d[3] && s[4..] == tail;
    HexSteps(s, w, x, y, z);
  }

  lemma HexSteps(s: string, w: nat, x: nat, y: nat, z: nat)
    requires |s| >= 4 && IsHexDigit(s[0], w) && IsHexDigit(s[1], x) && IsHexDigit(s[2], y) && IsHexDigit(s[3], z)
    ensures Hex(s, 4, 0) == Good(w * 4096 + x * 256 + y * 16 + z, s[4..])
  {
    HexStep(s, w, 4, 0);
    HexStep(s[1..], x, 3, w);
    assert s[1..][1..] == s[2..];
    HexStep(s[2..], y, 2, w * 16 + x);
    assert s[2..][1..] == s[3..];
    HexStep(s[3..], z, 1, (w * 16 + x) * 16 + y);
    assert s[3..][1..] == s[4..];
  }

  // ----- Escapes -----

  /** What follows a backslash decides. */
  lemma EscapeReads(s: string, c: char, tail: string, done: string)
    requires EscapeSeq(s) == Good(c, tail)
    ensures StringBody("\\" + s, done) == StringBody(tail, done + [c])
  {
    assert ("\\" + s)[1..] == s;
    assert EscapedBody(s, done) == StringBody(tail, done + [c]);
  }

  lemma CodeReads(d: string, tail: string)
    ensures EscapeSeq("u" + (d + tail)) == UnicodeEscape(d + tail)
  {
    CodeFirst("u" + (d + tail));
    assert ("u" + (d + tail))[1..] == d + tail;
  }

  lemma CodeFirst(s: string)
    requires s != [] && s[0] == 'u'
    ensures EscapeSeq(s) == UnicodeEscape(s[1..])
  {}

  /** A character by its code. */
  lemma UnitReads(d: string, code: nat, tail: string, done: string)
    requires IsHex4(d, code) && !(0xD800 <= code < 0xE000)
    ensures code < 0x10000
    ensures StringBody(UnitTo(d, tail), done) == StringBody(tail, done + [code as char])
  {
    HexBound(d, code);
    Hex4Reads(d, code, tail);
    CodeReads(d, tail);
    EscapeReads("u" + (d + tail), code as char, tail, done);
  }

  /** The code of a second surrogate on its own. */
  lemma LoneReads(d: string, code: nat, tail: string, done: string)
    requires IsHex4(d, code) && 0xDC00 <= code < 0xE000
    ensures StringBody(UnitTo(d, tail), done) == StringBody(tail, done + ['\U{FFFD}'])
  {
    Hex4Reads(d, code, tail);
    CodeReads(d, tail);
    EscapeReads("u" + (d + tail), '\U{FFFD}', tail, done);
  }

  lemma PairSum(code: nat, high: nat, low: nat)
    requires 0x10000 <= code <= 0x10FFFF
    requires high == 0xD800 + (code - 0x10000) / 0x400 && low == 0xDC00 + (code - 0x10000) % 0x400
    ensures 0xD800 <= high < 0xDC00 && 0xDC00 <= low < 0xE000 && Joined(high, low) == code as char
  {}

  lemma LowHalfReads(more: string, low: nat, tail: string)
    requires IsHex4(more, low)
    ensures LowHalf(UnitTo(more, tail)) == Good(low, tail)
  {
    var s := UnitTo(more, tail);
    assert s[1..] == "u" + (more + tail) && s[2..] == more + tail;
    Hex4Reads(more, low, tail);
  }

  lemma LowReads(more: string, high: nat, low: nat, tail: string)
    requires 0xD800 <= high < 0xDC00 && 0xDC00 <= low && IsHex4(more, low)
    ensures LowSurrogate(UnitTo(more, tail), high) == Good(Joined(high, low), tail)
  {
    LowHalfReads(more, low, tail);
  }

  lemma HighReads(d: string, more: string, high: nat, low: nat, tail: string)
    requires Surrogates(d, more, high, low)
    ensures EscapeSeq("u" + (d + UnitTo(more, tail))) == Good(Joined(high, low), tail)
  {
    var rest := UnitTo(more, tail);
    LowReads(more, high, low, tail);
    Hex4Reads(d, high, rest);
    CodeReads(d, rest);
  }

  lemma SurrogatesRead(d: string, more: string, high: nat, low: nat, tail: string, done: string)
    requires Surrogates(d, more, high, low)
    ensures StringBody(UnitTo(d, UnitTo(more, tail)), done) == StringBody(tail, done + [Joined(high, low)])
  {
    HighReads(d, more, high, low, tail);
    EscapeReads("u" + (d + UnitTo(more, tail)), Joined(high, low), tail, done);
  }

  /** Every character above the basic plane can be written by the codes of its surrogates. */
  lemma PairReads(code: nat, d: string, more: string, high: nat, low: nat, tail: string, done: string)
    requires 0x10000 <= code <= 0x10FFFF
    requires high == 0xD800 + (code - 0x10000) / 0x400 && low == 0xDC00 + (code - 0x10000) % 0x400
    requires IsHex4(d, high) && IsHex4(more, low)
    ensures StringBody(UnitTo(d, UnitTo(more, tail)), done) == StringBody(tail, done + [code as char])
  {
    PairSum(code, high, low);
    SurrogatesRead(d, more, high, low, tail, done);
  }

  /** A character behind a backslash. */
  lemma LetterReads(letter: char, tail: string, done: string)
    requires Short(letter).Some?
    ensures StringBody("\\" + ([letter] + tail), done) == StringBody(tail, done + [Short(letter).value])
  {
    var s := [letter] + tail;
    assert s[1..] == tail;
    EscapeReads(s, Short(letter).value, tail, done);
  }

  lemma PieceReads(p: Piece, tail: string, done: string)
    requires FinePiece(p)
    ensures StringBody(PieceTo(p, tail), done) == StringBody(tail, done + [Meant(p)])
  {
    match p
    case Plain(c) => assert ([c] + tail)[1..] == tail;
    case Letter(letter) => LetterReads(letter, tail, done);
    case Unit(digits, code) =>
      if 0xDC00 <= code < 0xE000 {
        LoneReads(digits, code, tail, done);
      } else {
        UnitReads(digits, code, tail, done);
      }
    case Pair(digits, more, high, low) => SurrogatesRead(digits, more, high, low, tail, done);
  }

  // ----- Strings -----

  ghost predicate FinePieces(ps: seq<Piece>) {
    forall i :: 0 <= i < |ps| ==> FinePiece(ps[i])
  }

  ghost function Characters(ps: seq<Piece>): string
    requires FinePieces(ps)
  {
    if ps == [] then "" else [Meant(ps[0])] + Characters(ps[1..])
  }

  /** The pieces of a string and its closing quote, and then `tail`. */
  function PiecesTo(ps: seq<Piece>, tail: string): string {
    if ps == [] then "\"" + tail else PieceTo(ps[0], PiecesTo(ps[1..], tail))
  }

  lemma {:induction false} PiecesRead(ps: seq<Piece>, tail: string, done: string)
    requires FinePieces(ps)
    ensures StringBody(PiecesTo(ps, tail), done) == Good(done + Characters(ps), tail)
  {
    if ps == [] {
      assert ("\"" + tail)[1..] == tail && done + "" == done;
    } else {
      var c, rest := Meant(ps[0]), ps[1..];
      assert StringBody(PiecesTo(ps, tail), done) == StringBody(PiecesTo(rest, tail), done + [c]) by {
        PieceReads(ps[0], PiecesTo(rest, tail), done);
      }
      PiecesRead(rest, tail, done + [c]);
      Regroup(done, c, Characters(rest));
    }
  }

  lemma Regroup(done: string, c: char, more: string)
    ensures done + [c] + more == done + ([c] + more)
  {}

  function StringTo(ps: seq<Piece>, tail: string): string {
    "\"" + PiecesTo(ps, tail)
  }

  /** A string is read as the characters its pieces mean. */
  lemma StringReads(ps: seq<Piece>, tail: string)
    requires FinePieces(ps)
    ensures ParseString(StringTo(ps, tail)) == Good(Characters(ps), tail)
  {
    assert StringTo(ps, tail)[1..] == PiecesTo(ps, tail);
    PiecesRead(ps, tail, "");
    assert "" + Characters(ps) == Characters(ps);
  }

  // ----- White space -----

  ghost predicate Blank(gap: string) {
    forall i :: 0 <= i < |gap| ==> Space(gap[i])
  }

  /** Spaces, tabs and line ends are skipped, up to a character that is none. */
  lemma {:induction false} GapSkips(gap: string, tail: string)
    requires Blank(gap) && (tail == [] || !Space(tail[0]))
    ensures SkipWs(gap + tail) == tail
  {
    if gap == [] {
      assert gap + tail == tail;
    } else {
      assert (gap + tail)[1..] == gap[1..] + tail;
      GapSkips(gap[1..], tail);
    }
  }

  // ----- Numbers -----

  /** What can follow a value: the end, white space, a comma or a closing bracket. */
  predicate Ends(tail: string) {
    tail == [] || tail[0] in " \t\n\r,]}"
  }

  ghost predicate Digits(ds: string) {
    forall i :: 0 <= i < |ds| ==> Digit(ds[i])
  }

  /** The value of decimal digits, from the first on. */
  ghost function Decimal(ds: string, sofar: nat): nat
    requires Digits(ds)
  {
    if ds == [] then sofar
    else
      assert Digit(ds[0]);
      Decimal(ds[1..], 10 * sofar + (ds[0] as nat - '0' as nat))
  }

  datatype Exponent = Exponent(mark: char, sign: string, digits: string)

  ghost predicate FineExponent(e: Exponent) {
    && (e.mark == 'e' || e.mark == 'E') && (e.sign == "" || e.sign == "-" || e.sign == "+")
    && e.digits != [] && Digits(e.digits)
  }

  /** A number: perhaps a minus, digits, perhaps a fraction, perhaps an exponent. */
  datatype Numeral = Numeral(minus: bool, whole: string, fraction: Option<string>, exponent: Option<Exponent>)

  /** As the grammar has it, except that the digits on one side of the point may be missing. */
  ghost predicate FineNumeral(n: Numeral) {
    && Digits(n.whole) && (n.minus || n.whole != [])
    && (n.fraction.Some? ==> Digits(n.fraction.value))
    && (n.exponent.Some? ==> FineExponent(n.exponent.value))
    && (n.whole != [] || (n.fraction.Some? && n.fraction.value != []))
    && (n.fraction.None? && n.exponent.None? ==> I128_MIN <= Whole(n) <= I128_MAX)
  }

  ghost function Whole(n: Numeral): int
    requires Digits(n.whole)
  {
    var d: int := Decimal(n.whole, 0);
    if n.minus then -d else d
  }

  function Written(n: Numeral): string {
    (if n.minus then "-" else "") + n.whole
    + (if n.fraction.Some? then "." + n.fraction.value else "")
    + if n.exponent.Some? then [n.exponent.value.mark] + n.exponent.value.sign + n.exponent.value.digits else ""
  }

  ghost function Amount(n: Numeral): Json
    requires FineNumeral(n)
  {
    if n.fraction.None? && n.exponent.None? then Int(Whole(n)) else Float(Finite(Written(n)))
  }

  lemma {:induction false} DecimalEnds(ds: string, sofar: nat, last: char)
    requires Digits(ds) && Digit(last)
    ensures Digits(ds + [last]) && Decimal(ds + [last], sofar) == 10 * Decimal(ds, sofar) + (last as nat - '0' as nat)
    decreases |ds|
  {
    var all := ds + [last];
    assert forall i :: 0 <= i < |all| ==> Digit(all[i]);
    if ds == [] {
      assert all[1..] == [];
    } else {
      assert all[1..] == ds[1..] + [last];
      DecimalEnds(ds[1..], 10 * sofar + (ds[0] as nat - '0' as nat), last);
    }
  }

  lemma {:induction false} DecimalIs(ds: string)
    requires Digits(ds)
    ensures (forall i :: 0 <= i < |ds| ==> IsDigit(ds[i])) && DigitsValue(ds) == Decimal(ds, 0)
  {
    assert forall i :: 0 <= i < |ds| ==> Digit(ds[i]);
    if ds != [] {
      var n := |ds| - 1;
      assert Digit(ds[n]) && forall i :: 0 <= i < n ==> Digit(ds[i]);
      DecimalIs(ds[..n]);
      DecimalEnds(ds[..n], 0, ds[n]);
      assert ds[..n] + [ds[n]] == ds;
    }
  }

  /** `part` stands at `i`. */
  predicate Part(t: string, i: nat, part: string) {
    i + |part| <= |t| && forall k :: 0 <= k < |part| ==> t[i + k] == part[k]
  }

  lemma PartSplit(t: string, i: nat, x: string, y: string)
    requires Part(t, i, x + y)
    ensures Part(t, i, x) && Part(t, i + |x|, y)
  {
    forall k | 0 <= k < |x|
      ensures t[i + k] == x[k]
    {
      assert (x + y)[k] == x[k];
    }
    forall k | 0 <= k < |y|
      ensures t[i + |x| + k] == y[k]
    {
      assert (x + y)[|x| + k] == y[k];
      assert t[i + (|x| + k)] == y[k];
    }
  }

  lemma PartFirst(t: string, i: nat, part: string)
    requires Part(t, i, part) && part != []
    ensures t[i] == part[0]
  {
    assert t[i + 0] == part[0];
  }

  lemma PartDigits(t: string, i: nat, part: string)
    requires Part(t, i, part) && Digits(part)
    ensures forall k :: i <= k < i + |part| ==> IsDigit(t[k])
  {
    forall k | i <= k < i + |part|
      ensures IsDigit(t[k])
    {
      assert t[i + (k - i)] == part[k - i];
      assert Digit(part[k - i]);
    }
  }

  /** Digits that no digit follows are skipped. */
  lemma PartSkips(t: string, i: nat, part: string)
    requires Part(t, i, part) && Digits(part) && (i + |part| < |t| ==> !IsDigit(t[i + |part|]))
    ensures SkipDigits(t, i) == i + |part|
  {
    PartDigits(t, i, part);
  }

  function SignText(n: Numeral): string { if n.minus then "-" else "" }

  function FractionText(n: Numeral): string { if n.fraction.Some? then "." + n.fraction.value else "" }

  function ExponentText(n: Numeral): string {
    if n.exponent.Some? then [n.exponent.value.mark] + n.exponent.value.sign + n.exponent.value.digits else ""
  }

  /** Where the parts of a numeral stand. */
  ghost predicate Laid(n: Numeral, t: string, a: nat, b: nat, c: nat) {
    && a == |SignText(n)| && b == a + |n.whole| && c == b + |FractionText(n)| && |t| == c + |ExponentText(n)|
    && Part(t, 0, SignText(n)) && Part(t, a, n.whole) && Part(t, b, FractionText(n)) && Part(t, c, ExponentText(n))
  }

  lemma NumeralLaid(n: Numeral) returns (a: nat, b: nat, c: nat)
    ensures Laid(n, Written(n), a, b, c)
  {
    var t := Written(n);
    a, b, c := |SignText(n)|, |SignText(n)| + |n.whole|, |SignText(n)| + |n.whole| + |FractionText(n)|;
    LayParts(t, SignText(n), n.whole, FractionText(n), ExponentText(n));
  }

  lemma LayParts(t: string, w: string, x: string, y: string, z: string)
    requires t == w + x + y + z
    ensures Part(t, 0, w) && Part(t, |w|, x) && Part(t, |w| + |x|, y) && Part(t, |w| + |x| + |y|, z)
  {
    PartSplit(t, 0, w + x + y, z);
    PartSplit(t, 0, w + x, y);
    PartSplit(t, 0, w, x);
  }

  /** The sign, or its absence. */
  lemma SignIs(n: Numeral, t: string, a: nat, b: nat, c: nat)
    requires FineNumeral(n) && Laid(n, t, a, b, c)
    ensures t != [] && a == (if t[0] == '-' then 1 else 0) && (t[0] == '-' || IsDigit(t[0]))
  {
    if n.minus {
      PartFirst(t, 0, SignText(n));
    } else {
      PartFirst(t, a, n.whole);
      assert Digit(n.whole[0]);
    }
  }

  /** The fraction, or what follows its absence. */
  lemma FractionIs(n: Numeral, t: string, a: nat, b: nat, c: nat)
    requires FineNumeral(n) && Laid(n, t, a, b, c)
    ensures n.fraction.Some? ==> b < |t| && t[b] == '.' && Part(t, b + 1, n.fraction.value)
    ensures n.fraction.None? ==> b == c
  {
    if n.fraction.Some? {
      PartFirst(t, b, FractionText(n));
      PartSplit(t, b, ".", n.fraction.value);
    }
  }

  lemma ExponentIs(n: Numeral, t: string, a: nat, b: nat, c: nat)
    requires FineNumeral(n) && Laid(n, t, a, b, c) && n.exponent.Some?
    ensures var e := n.exponent.value;
            var l := c + 1 + |e.sign|;
            && c < |t| && t[c] == e.mark && l < |t| == l + |e.digits| && Part(t, l, e.digits) && IsDigit(t[l])
            && (e.sign != [] ==> t[c + 1] == e.sign[0])
  {
    var e := n.exponent.value;
    PartFirst(t, c, ExponentText(n));
    PartSplit(t, c, [e.mark] + e.sign, e.digits);
    PartSplit(t, c, [e.mark], e.sign);
    PartFirst(t, c + 1 + |e.sign|, e.digits);
    assert Digit(e.digits[0]);
    if e.sign != [] {
      PartFirst(t, c + 1, e.sign);
    }
  }

  /** What follows the digits of a numeral is no digit. */
  lemma Stops(n: Numeral, t: string, a: nat, b: nat, c: nat)
    requires FineNumeral(n) && Laid(n, t, a, b, c)
    ensures c < |t| ==> !IsDigit(t[c]) && t[c] != '.'
    ensures b < |t| ==> !IsDigit(t[b]) && (t[b] == '.' <==> n.fraction.Some?)
  {
    FractionIs(n, t, a, b, c);
    if n.exponent.Some? {
      ExponentIs(n, t, a, b, c);
    }
  }

  lemma DigitsSkip(n: Numeral, t: string, a: nat, b: nat, c: nat)
    requires FineNumeral(n) && Laid(n, t, a, b, c)
    ensures SkipDigits(t, a) == b && c == (if b < |t| && t[b] == '.' then SkipDigits(t, b + 1) else b)
  {
    Stops(n, t, a, b, c);
    FractionIs(n, t, a, b, c);
    PartSkips(t, a, n.whole);
    if n.fraction.Some? {
      PartSkips(t, b + 1, n.fraction.value);
    }
  }

  /** The exponent, as the float grammar looks for it. */
  lemma ExponentSkips(n: Numeral, t: string, a: nat, b: nat, c: nat)
    requires FineNumeral(n) && Laid(n, t, a, b, c) && n.exponent.Some?
    ensures c < |t| && ExponentAt(t, c)
  {
    var l := c + 1 + |n.exponent.value.sign|;
    ExponentIs(n, t, a, b, c);
    PartSkips(t, l, n.exponent.value.digits);
    assert l == if t[c + 1] == '-' || t[c + 1] == '+' then c + 2 else c + 1;
  }

  predicate ExponentAt(t: string, c: nat)
    requires c < |t|
  {
    && (t[c] == 'e' || t[c] == 'E')
    && var l := if c + 1 < |t| && (t[c + 1] == '-' || t[c + 1] == '+') then c + 2 else c + 1;
       l < |t| && SkipDigits(t, l) == |t|
  }

  /** A numeral with a fraction or an exponent is a number to `f64`. */
  lemma FloatAccepted(n: Numeral, t: string, a: nat, b: nat, c: nat)
    requires FineNumeral(n) && Laid(n, t, a, b, c) && (n.fraction.Some? || n.exponent.Some?)
    ensures IsRustFloat(t)
  {
    SignIs(n, t, a, b, c);
    DigitsSkip(n, t, a, b, c);
    if n.exponent.Some? {
      ExponentSkips(n, t, a, b, c);
    }
    FloatShape(t, a, b, c);
  }

  lemma FloatShape(t: string, a: nat, b: nat, c: nat)
    requires t != [] && a == (if t[0] == '-' then 1 else 0) && t[0] != '+' && a <= |t| && SkipDigits(t, a) == b
    requires c == (if b < |t| && t[b] == '.' then SkipDigits(t, b + 1) else b) && (a < b || b + 1 < c)
    requires c == |t| || ExponentAt(t, c)
    ensures IsRustFloat(t)
  {
    assert a == if t != [] && (t[0] == '-' || t[0] == '+') then 1 else 0;
  }

  lemma DigitsChars(ds: string)
    requires Digits(ds)
    ensures forall i :: 0 <= i < |ds| ==> IsNumberChar(ds[i])
  {
    forall i | 0 <= i < |ds|
      ensures IsNumberChar(ds[i])
    {
      assert Digit(ds[i]);
    }
  }

  /** Nothing in a numeral ends the search for its end. */
  lemma NumeralChars(n: Numeral)
    requires FineNumeral(n)
    ensures forall i :: 0 <= i < |Written(n)| ==> IsNumberChar(Written(n)[i])
  {
    DigitsChars(n.whole);
    if n.fraction.Some? {
      DigitsChars(n.fraction.value);
    }
    if n.exponent.Some? {
      DigitsChars(n.exponent.value.digits);
    }
  }

  lemma DigitsPlain(t: string)
    requires t != [] && (forall i :: 0 <= i < |t| ==> IsDigit(t[i])) && DigitsValue(t) <= I128_MAX
    ensures NumberOf(t) == Some(Int(DigitsValue(t)))
  {
    assert IsDigit(t[0]);
    assert ParseI128(t) == Some(DigitsValue(t));
  }

  lemma MinusParses(t: string, ds: string)
    requires Peek(t, '-') && t[1..] == ds && ds != [] && (forall i :: 0 <= i < |ds| ==> IsDigit(ds[i]))
    requires (forall i :: 1 <= i < |t| ==> IsDigit(t[i])) && I128_MIN <= -DigitsValue(ds)
    ensures NumberOf(t) == Some(Int(-DigitsValue(ds)))
  {
    assert ParseI128(t) == Some(-DigitsValue(ds));
  }

  lemma DigitsMinus(t: string, ds: string)
    requires t == ['-'] + ds && ds != [] && (forall i :: 0 <= i < |ds| ==> IsDigit(ds[i])) && I128_MIN <= -DigitsValue(ds)
    ensures NumberOf(t) == Some(Int(-DigitsValue(ds)))
  {
    assert Peek(t, '-') && t[1..] == ds;
    forall i | 1 <= i < |t|
      ensures IsDigit(t[i])
    {
      assert t[i] == ds[i - 1];
    }
    MinusParses(t, ds);
  }

  lemma IntegerIs(n: Numeral)
    requires FineNumeral(n) && n.fraction.None? && n.exponent.None?
    ensures NumberOf(Written(n)) == Some(Int(Whole(n)))
  {
    DecimalIs(n.whole);
    if n.minus {
      assert Written(n) == ['-'] + n.whole;
      DigitsMinus(Written(n), n.whole);
    } else {
      assert Written(n) == n.whole;
      DigitsPlain(n.whole);
    }
  }

  lemma FloatIs(n: Numeral)
    requires FineNumeral(n) && (n.fraction.Some? || n.exponent.Some?)
    ensures NumberOf(Written(n)) == Some(Float(Finite(Written(n))))
  {
    var t := Written(n);
    var a, b, c := NumeralLaid(n);
    FloatAccepted(n, t, a, b, c);
    SignIs(n, t, a, b, c);
    Stops(n, t, a, b, c);
    FractionIs(n, t, a, b, c);
    if n.fraction.None? {
      ExponentIs(n, t, a, b, c);
    }
    NotWhole(t, b);
  }

  lemma NotWhole(t: string, b: nat)
    requires b < |t| && (if Peek(t, '-') then 1 else 0) <= b && !IsDigit(t[b]) && IsRustFloat(t)
    ensures NumberOf(t) == Some(Float(Finite(t)))
  {}

  lemma NumeralIs(n: Numeral)
    requires FineNumeral(n)
    ensures NumberOf(Written(n)) == Some(Amount(n))
    ensures var t := Written(n); t != [] && (t[0] == '-' || IsDigit(t[0]))
  {
    var a, b, c := NumeralLaid(n);
    SignIs(n, Written(n), a, b, c);
    if n.fraction.None? && n.exponent.None? {
      IntegerIs(n);
    } else {
      FloatIs(n);
    }
  }

  /** A number is read as its value: an integer, or the float with that text. */
  lemma NumeralReads(n: Numeral, tail: string)
    requires FineNumeral(n) && Ends(tail)
    ensures ParseValue(Written(n) + tail) == Good(Amount(n), tail)
  {
    NumeralIs(n);
    NumeralChars(n);
    R.NumberRoundTrip(Written(n), Amount(n), tail);
  }

  // ----- Documents -----

  /** A value as it is written, with the white space inside it. */
  datatype Doc =
    | Nothing
    | Truth(b: bool)
    | Number(n: Numeral)
    | Text(pieces: seq<Piece>)
    | Array(gap: string, items: seq<Item>)
    | Object(gap: string, pairs: seq<Entry>)

  /** An element with the white space around it. */
  datatype Item = Item(before: string, doc: Doc, after: string)

  /** A member with the white space around its key and its value. */
  datatype Entry = Entry(before: string, key: seq<Piece>, colon: string, gap: string, doc: Doc, after: string)

  ghost predicate Fine(d: Doc)
    decreases d, 1
  {
    match d
    case Number(n) => FineNumeral(n)
    case Text(ps) => FinePieces(ps)
    case Array(gap, items) => Blank(gap) && forall i :: 0 <= i < |items| ==> FineItem(items[i])
    case Object(gap, pairs) => Blank(gap) && forall i :: 0 <= i < |pairs| ==> FineEntry(pairs[i])
    case _ => true
  }

  ghost predicate FineItem(item: Item)
    decreases item, 0
  {
    Blank(item.before) && Blank(item.after) && Fine(item.doc)
  }

  ghost predicate FineEntry(e: Entry)
    decreases e, 0
  {
    Blank(e.before) && Blank(e.colon) && Blank(e.gap) && Blank(e.after) && FinePieces(e.key) && Fine(e.doc)
  }

  /** The value a document stands for. */
  ghost function Value(d: Doc): Json
    requires Fine(d)
    decreases d, 1
  {
    match d
    case Nothing => Null
    case Truth(b) => Bool(b)
    case Number(n) => Amount(n)
    case Text(ps) => Str(Characters(ps))
    case Array(_, items) => Arr(ItemValues(items))
    case Object(_, pairs) => Obj(EntryValues(pairs))
  }

  ghost function ItemValues(items: seq<Item>): seq<Json>
    requires forall i :: 0 <= i < |items| ==> FineItem(items[i])
    decreases items, 0
  {
    if items == [] then []
    else
      assert FineItem(items[0]);
      [Value(items[0].doc)] + ItemValues(items[1..])
  }

  ghost function EntryValues(pairs: seq<Entry>): seq<Member>
    requires forall i :: 0 <= i < |pairs| ==> FineEntry(pairs[i])
    decreases pairs, 0
  {
    if pairs == [] then []
    else
      assert FineEntry(pairs[0]);
      [Member(Characters(pairs[0].key), Value(pairs[0].doc))] + EntryValues(pairs[1..])
  }

  /** The text of a document, and then `tail`. */
  function DocTo(d: Doc, tail: string): string
    decreases d, 1
  {
    match d
    case Nothing => "null" + tail
    case Truth(b) => (if b then "true" else "false") + tail
    case Number(n) => Written(n) + tail
    case Text(ps) => StringTo(ps, tail)
    case Array(gap, items) => ['['] + if items == [] then gap + ([']'] + tail) else ItemsTo(items, tail)
    case Object(gap, pairs) => ['{'] + if pairs == [] then gap + (['}'] + tail) else EntriesTo(pairs, tail)
  }

  function ItemsTo(items: seq<Item>, tail: string): string
    requires items != []
    decreases items, 1
  {
    items[0].before + DocTo(items[0].doc, items[0].after + ItemsRest(items, tail))
  }

  /** What follows the first element. */
  function ItemsRest(items: seq<Item>, tail: string): string
    requires items != []
    decreases items, 0
  {
    if |items| == 1 then [']'] + tail else [','] + ItemsTo(items[1..], tail)
  }

  function EntriesTo(pairs: seq<Entry>, tail: string): string
    requires pairs != []
    decreases pairs, 1
  {
    pairs[0].before + EntryTo(pairs[0], pairs[0].after + EntriesRest(pairs, tail))
  }

  function EntryTo(e: Entry, tail: string): string
    decreases e, 2
  {
    StringTo(e.key, e.colon + ([':'] + (e.gap + DocTo(e.doc, tail))))
  }

  function EntriesRest(pairs: seq<Entry>, tail: string): string
    requires pairs != []
    decreases pairs, 0
  {
    if |pairs| == 1 then ['}'] + tail else [','] + EntriesTo(pairs[1..], tail)
  }

  // ----- Reading documents -----

  /** No value begins like white space or a closing bracket. */
  lemma DocHead(d: Doc, tail: string)
    requires Fine(d)
    ensures DocTo(d, tail) != []
    ensures var c := DocTo(d, tail)[0]; !Space(c) && c != ']' && c != '}'
  {
    if d.Number? {
      var a, b, c := NumeralLaid(d.n);
      SignIs(d.n, Written(d.n), a, b, c);
      assert (Written(d.n) + tail)[0] == Written(d.n)[0];
    }
  }

  /** White space and then a comma or a closing bracket. */
  lemma GapEnds(gap: string, rest: string)
    requires Blank(gap) && rest != [] && rest[0] in ",]}"
    ensures Ends(gap + rest) && SkipWs(gap + rest) == rest
  {
    GapSkips(gap, rest);
    if gap == [] {
      assert gap + rest == rest;
    } else {
      assert Space(gap[0]);
    }
  }

  lemma SkipTwice(s: string)
    ensures SkipWs(SkipWs(s)) == SkipWs(s)
  {}

  lemma EltsSkip(s: string)
    ensures ParseElts(SkipWs(s), []) == ParseElts(s, [])
    ensures ParseMembers(SkipWs(s), []) == ParseMembers(s, [])
  {
    SkipTwice(s);
    assert ParseElt(SkipWs(s)) == ParseElt(s);
    assert ParseMemberElt(SkipWs(s)) == ParseMemberElt(s);
  }

  /** An opening bracket before something other than its closing one. */
  lemma OpenReads(gap: string, s: string)
    requires Blank(gap) && s != [] && !Space(s[0]) && s[0] != ']' && s[0] != '}'
    ensures ParseValue(['['] + (gap + s)) == ParseElts(gap + s, [])
    ensures ParseValue(['{'] + (gap + s)) == ParseMembers(gap + s, [])
  {
    GapSkips(gap, s);
    EltsSkip(gap + s);
    R.ParseOpen(gap + s, s);
  }

  lemma EmptyReads(gap: string, tail: string)
    requires Blank(gap)
    ensures ParseValue(['['] + (gap + ([']'] + tail))) == Good(Arr([]), tail)
    ensures ParseValue(['{'] + (gap + (['}'] + tail))) == Good(Obj([]), tail)
  {
    var s, t := gap + ([']'] + tail), gap + (['}'] + tail);
    GapSkips(gap, [']'] + tail);
    GapSkips(gap, ['}'] + tail);
    assert (['['] + s)[1..] == s && ([']'] + tail)[1..] == tail;
    assert (['{'] + t)[1..] == t && (['}'] + tail)[1..] == tail;
  }

  lemma {:induction false} DocReads(d: Doc, tail: string)
    requires Fine(d) && Ends(tail)
    ensures ParseValue(DocTo(d, tail)) == Good(Value(d), tail)
    decreases d, 1
  {
    match d
    case Nothing => R.LiteralRoundTrip("null", Null, tail);
    case Truth(b) => R.LiteralRoundTrip(if b then "true" else "false", Bool(b), tail);
    case Number(n) => NumeralReads(n, tail);
    case Text(ps) => StringReads(ps, tail);
    case Array(gap, items) =>
      if items == [] {
        EmptyReads(gap, tail);
      } else {
        ArrayReads(items, tail);
      }
    case Object(gap, pairs) =>
      if pairs == [] {
        EmptyReads(gap, tail);
      } else {
        ObjectReads(pairs, tail);
      }
  }

  lemma {:induction false} ArrayReads(items: seq<Item>, tail: string)
    requires items != [] && forall i :: 0 <= i < |items| ==> FineItem(items[i])
    ensures ParseValue(['['] + ItemsTo(items, tail)) == Good(Arr(ItemValues(items)), tail)
    decreases items, 1
  {
    var item := items[0];
    assert FineItem(item);
    DocHead(item.doc, item.after + ItemsRest(items, tail));
    OpenReads(item.before, DocTo(item.doc, item.after + ItemsRest(items, tail)));
    ItemsRead(items, tail, []);
    assert [] + ItemValues(items) == ItemValues(items);
  }

  /** One element, up to the comma or bracket behind it. */
  lemma {:induction false} ItemReads(item: Item, rest: string)
    requires FineItem(item) && rest != [] && rest[0] in ",]}"
    ensures ParseElt(item.before + DocTo(item.doc, item.after + rest)) == Good(Value(item.doc), rest)
    decreases item, 0
  {
    var text := DocTo(item.doc, item.after + rest);
    GapEnds(item.after, rest);
    DocHead(item.doc, item.after + rest);
    GapSkips(item.before, text);
    DocReads(item.doc, item.after + rest);
  }

  lemma EltsNext(s: string, done: seq<Json>, v: Json, next: string)
    requires ParseElt(s) == Good(v, [','] + next)
    ensures ParseElts(s, done) == ParseElts(next, done + [v])
  {
    assert ([','] + next)[1..] == next;
  }

  lemma EltsLast(s: string, done: seq<Json>, v: Json, tail: string)
    requires ParseElt(s) == Good(v, [']'] + tail)
    ensures ParseElts(s, done) == Good(Arr(done + [v]), tail)
  {
    assert ([']'] + tail)[1..] == tail;
  }

  lemma {:induction false} ItemsRead(items: seq<Item>, tail: string, done: seq<Json>)
    requires items != [] && forall i :: 0 <= i < |items| ==> FineItem(items[i])
    ensures ParseElts(ItemsTo(items, tail), done) == Good(Arr(done + ItemValues(items)), tail)
    decreases items, 0
  {
    assert FineItem(items[0]);
    var v, more := Value(items[0].doc), ItemValues(items[1..]);
    ItemReads(items[0], ItemsRest(items, tail));
    if |items| == 1 {
      assert items[1..] == [] && done + [v] + [] == done + [v];
      EltsLast(ItemsTo(items, tail), done, v, tail);
    } else {
      EltsNext(ItemsTo(items, tail), done, v, ItemsTo(items[1..], tail));
      ItemsRead(items[1..], tail, done + [v]);
    }
    assert done + [v] + more == done + ([v] + more);
  }

  lemma {:induction false} ObjectReads(pairs: seq<Entry>, tail: string)
    requires pairs != [] && forall i :: 0 <= i < |pairs| ==> FineEntry(pairs[i])
    ensures ParseValue(['{'] + EntriesTo(pairs, tail)) == Good(Obj(EntryValues(pairs)), tail)
    decreases pairs, 1
  {
    var e := pairs[0];
    assert FineEntry(e);
    OpenReads(e.before, EntryTo(e, e.after + EntriesRest(pairs, tail)));
    EntriesRead(pairs, tail, []);
    assert [] + EntryValues(pairs) == EntryValues(pairs);
  }

  /** A key, a colon and a value. */
  lemma {:induction false} KeyReads(e: Entry, tail: string)
    requires FineEntry(e) && Ends(tail)
    ensures ParseMember(EntryTo(e, tail)) == Good(Member(Characters(e.key), Value(e.doc)), tail)
    decreases e, 0
  {
    var text := DocTo(e.doc, tail);
    var colon := [':'] + (e.gap + text);
    StringReads(e.key, e.colon + colon);
    GapSkips(e.colon, colon);
    assert colon[1..] == e.gap + text;
    DocHead(e.doc, tail);
    GapSkips(e.gap, text);
    DocReads(e.doc, tail);
  }

  lemma {:induction false} EntryReads(e: Entry, rest: string)
    requires FineEntry(e) && rest != [] && rest[0] in ",]}"
    ensures ParseMemberElt(e.before + EntryTo(e, e.after + rest)) == Good(Member(Characters(e.key), Value(e.doc)), rest)
    decreases e, 1
  {
    var text := EntryTo(e, e.after + rest);
    GapEnds(e.after, rest);
    GapSkips(e.before, text);
    KeyReads(e, e.after + rest);
  }

  lemma MembersNext(s: string, done: seq<Member>, m: Member, next: string)
    requires ParseMemberElt(s) == Good(m, [','] + next)
    ensures ParseMembers(s, done) == ParseMembers(next, done + [m])
  {
    assert ([','] + next)[1..] == next;
  }

  lemma MembersLast(s: string, done: seq<Member>, m: Member, tail: string)
    requires ParseMemberElt(s) == Good(m, ['}'] + tail)
    ensures ParseMembers(s, done) == Good(Obj(done + [m]), tail)
  {
    assert (['}'] + tail)[1..] == tail;
  }

  lemma {:induction false} EntriesRead(pairs: seq<Entry>, tail: string, done: seq<Member>)
    requires pairs != [] && forall i :: 0 <= i < |pairs| ==> FineEntry(pairs[i])
    ensures ParseMembers(EntriesTo(pairs, tail), done) == Good(Obj(done + EntryValues(pairs)), tail)
    decreases pairs, 0
  {
    assert FineEntry(pairs[0]);
    var m, more := Member(Characters(pairs[0].key), Value(pairs[0].doc)), EntryValues(pairs[1..]);
    EntryReads(pairs[0], EntriesRest(pairs, tail));
    if |pairs| == 1 {
      assert pairs[1..] == [] && done + [m] + [] == done + [m];
      MembersLast(EntriesTo(pairs, tail), done, m, tail);
    } else {
      MembersNext(EntriesTo(pairs, tail), done, m, EntriesTo(pairs[1..], tail));
      EntriesRead(pairs[1..], tail, done + [m]);
    }
    assert done + [m] + more == done + ([m] + more);
  }

  /** Every document, with white space around it, is read as the value it stands for. */
  lemma DocumentReads(before: string, d: Doc, after: string)
    requires Blank(before) && Fine(d) && Blank(after)
    ensures Parse(before + DocTo(d, after)) == Ok(Value(d))
  {
    assert after + [] == after;
    GapSkips(after, []);
    if after != [] {
      assert Space(after[0]);
    }
    DocHead(d, after);
    GapSkips(before, DocTo(d, after));
    DocReads(d, after);
  }

  // ----- Nothing else is read -----

  lemma HexDigitBack(s: string, n: nat, code: nat) returns (v: nat)
    requires n > 0 && Hex(s, n, code).Good?
    ensures s != [] && IsHexDigit(s[0], v) && Hex(s, n, code) == Hex(s[1..], n - 1, code * 16 + v)
  {
    v := HexValue(s[0]).value;
  }

  lemma Hex2Back(s: string, m: nat, n: nat, code: nat) returns (v: nat, w: nat)
    requires m == n + 2 && Hex(s, m, code).Good?
    ensures |s| >= 2 && IsHexDigit(s[0], v) && IsHexDigit(s[1], w)
    ensures Hex(s, m, code) == Hex(s[2..], n, code * 256 + v * 16 + w)
  {
    v := HexDigitBack(s, m, code);
    w := HexDigitBack(s[1..], n + 1, code * 16 + v);
    assert s[1..][1..] == s[2..] && s[1..][0] == s[1];
  }

  lemma Hex4Back(s: string)
    requires Hex(s, 4, 0).Good?
    ensures |s| >= 4 && IsHex4(s[..4], Hex(s, 4, 0).value) && Hex(s, 4, 0).rest == s[4..]
  {
    var w, x := Hex2Back(s, 4, 2, 0);
    var code := w * 16 + x;
    var y, z := Hex2Back(s[2..], 2, 0, code);
    Hex4From(s, w, x, y, z);
    assert Hex(s[2..][2..], 0, code * 256 + y * 16 + z) == Good(code * 256 + y * 16 + z, s[4..]);
  }

  lemma Hex4From(s: string, w: nat, x: nat, y: nat, z: nat)
    requires |s| >= 4 && IsHexDigit(s[0], w) && IsHexDigit(s[1], x)
    requires IsHexDigit(s[2..][0], y) && IsHexDigit(s[2..][1], z)
    ensures IsHex4(s[..4], w * 4096 + x * 256 + y * 16 + z) && s[2..][2..] == s[4..]
  {
    assert Hex4At(s[..4], w, x, y, z);
  }

  /** A code behind `\u` is one of the two ways to write a character by code. */
  lemma CodeBack(s: string) returns (p: Piece)
    requires UnicodeEscape(s).Good?
    ensures var r := UnicodeEscape(s);
            FinePiece(p) && "\\" + ("u" + s) == PieceTo(p, r.rest) && Meant(p) == r.value
  {
    Hex4Back(s);
    var code, t := Hex(s, 4, 0).value, s[4..];
    HexBound(s[..4], code);
    assert s == s[..4] + t;
    if 0xD800 <= code < 0xDC00 {
      var more, low := LowBack(t, code);
      p := Pair(s[..4], more, code, low);
    } else {
      p := Unit(s[..4], code);
    }
  }

  lemma LowBack(s: string, high: nat) returns (more: string, low: nat)
    requires 0xD800 <= high < 0xDC00 && LowSurrogate(s, high).Good?
    ensures var r := LowSurrogate(s, high);
            0xDC00 <= low && IsHex4(more, low) && s == UnitTo(more, r.rest) && r.value == Joined(high, low)
  {
    var t := s[2..];
    Hex4Back(t);
    more, low := t[..4], Hex(t, 4, 0).value;
    assert t == more + t[4..];
    assert s == "\\" + ("u" + t);
  }

  lemma EscapeBack(s: string) returns (p: Piece)
    requires EscapeSeq(s).Good?
    ensures var r := EscapeSeq(s);
            FinePiece(p) && "\\" + s == PieceTo(p, r.rest) && Meant(p) == r.value
  {
    assert s == [s[0]] + s[1..];
    if s[0] == 'u' {
      CodeFirst(s);
      p := CodeBack(s[1..]);
    } else {
      p := Letter(s[0]);
      LetterBack(s);
    }
  }

  lemma LetterBack(s: string)
    requires s != [] && s[0] != 'u' && EscapeSeq(s).Good?
    ensures Short(s[0]) == Some(EscapeSeq(s).value) && EscapeSeq(s).rest == s[1..]
  {}

  lemma {:induction false} BodyBack(s: string, done: string) returns (ps: seq<Piece>)
    requires StringBody(s, done).Good?
    ensures var r := StringBody(s, done);
            FinePieces(ps) && s == PiecesTo(ps, r.rest) && r.value == done + Characters(ps)
    decreases |s|
  {
    var r := StringBody(s, done);
    if s[0] == '\"' {
      ps := [];
      assert s == "\"" + s[1..] && done + "" == done;
    } else {
      var p, t := NextPiece(s, done);
      var more := BodyBack(t, done + [Meant(p)]);
      ps := [p] + more;
      PiecesFirst(p, more, r.rest);
      Regroup(done, Meant(p), Characters(more));
    }
  }

  lemma PiecesFirst(p: Piece, more: seq<Piece>, tail: string)
    requires FinePiece(p) && FinePieces(more)
    ensures FinePieces([p] + more) && Characters([p] + more) == [Meant(p)] + Characters(more)
    ensures PiecesTo([p] + more, tail) == PieceTo(p, PiecesTo(more, tail))
  {
    assert ([p] + more)[1..] == more;
  }

  lemma NextPiece(s: string, done: string) returns (p: Piece, t: string)
    requires s != [] && s[0] != '\"' && StringBody(s, done).Good?
    ensures FinePiece(p) && s == PieceTo(p, t) && |t| < |s| && StringBody(s, done) == StringBody(t, done + [Meant(p)])
  {
    assert s == [s[0]] + s[1..];
    if s[0] == '\\' {
      assert StringBody(s, done) == EscapedBody(s[1..], done);
      p := EscapeBack(s[1..]);
      t := EscapeSeq(s[1..]).rest;
    } else {
      p, t := Plain(s[0]), s[1..];
    }
  }

  lemma StringBack(s: string) returns (ps: seq<Piece>)
    requires ParseString(s).Good?
    ensures var r := ParseString(s);
            FinePieces(ps) && s == StringTo(ps, r.rest) && r.value == Characters(ps)
  {
    assert s == "\"" + s[1..];
    ps := BodyBack(s[1..], "");
    assert "" + Characters(ps) == Characters(ps);
  }

  lemma {:induction false} GapBack(s: string) returns (gap: string)
    ensures Blank(gap) && s == gap + SkipWs(s)
    decreases |s|
  {
    if s != [] && IsWs(s[0]) {
      var more := GapBack(s[1..]);
      gap := [s[0]] + more;
      assert s == [s[0]] + s[1..];
      assert forall i :: 0 < i < |gap| ==> gap[i] == more[i - 1];
    } else {
      gap := [];
    }
  }

  lemma {:induction false} LiteralBack(s: string, word: string, v: Json)
    requires Literal(s, word, v).Good?
    ensures Literal(s, word, v).value == v && s == word + Literal(s, word, v).rest
    decreases |word|
  {
    if word == [] {
      assert s == "" + s;
    } else {
      LiteralBack(s[1..], word[1..], v);
      assert s == [word[0]] + s[1..] && word == [word[0]] + word[1..];
    }
  }

  // A number: the parts of its text.

  lemma DigitsFrom(t: string, i: nat, j: nat)
    requires i <= j <= |t| && forall k :: i <= k < j ==> IsDigit(t[k])
    ensures Digits(t[i..j])
  {
    forall k | 0 <= k < j - i
      ensures Digit(t[i..j][k])
    {
      assert IsDigit(t[i + k]);
    }
  }

  lemma WholeBack(t: string) returns (n: Numeral)
    requires t != [] && (t[0] == '-' || IsDigit(t[0]))
    requires (forall i :: (if Peek(t, '-') then 1 else 0) <= i < |t| ==> IsDigit(t[i])) && ParseI128(t).Some?
    ensures FineNumeral(n) && t == Written(n) && Amount(n) == Int(ParseI128(t).value)
  {
    var a := if Peek(t, '-') then 1 else 0;
    var digits := t[a..];
    n := Numeral(a == 1, digits, None, None);
    DigitsFrom(t, a, |t|);
    assert t[a..|t|] == digits;
    DecimalIs(digits);
    if a == 1 {
      assert t == "-" + digits + "" + "";
    } else {
      assert t == "" + digits + "" + "";
    }
  }

  /** The exponent of a float text. */
  lemma ExponentBack(t: string, c: nat) returns (e: Exponent)
    requires c < |t| && ExponentAt(t, c)
    ensures FineExponent(e) && t[c..] == [e.mark] + e.sign + e.digits
  {
    var l := if c + 1 < |t| && (t[c + 1] == '-' || t[c + 1] == '+') then c + 2 else c + 1;
    e := Exponent(t[c], t[c + 1..l], t[l..]);
    DigitsFrom(t, l, |t|);
    assert t[l..|t|] == t[l..];
    assert l == c + 2 ==> e.sign == [t[c + 1]];
  }

  /** Where the parts of a float text end. */
  lemma FloatParts(t: string) returns (a: nat, b: nat, c: nat)
    requires t != [] && (t[0] == '-' || IsDigit(t[0])) && IsRustFloat(t)
    requires exists i :: (if Peek(t, '-') then 1 else 0) <= i < |t| && !IsDigit(t[i])
    ensures a == (if Peek(t, '-') then 1 else 0) && a <= b <= c <= |t|
    ensures (a < b || b + 1 < c) && (b < c || c < |t|)
    ensures (forall k :: a <= k < b ==> IsDigit(t[k])) && (b < c ==> t[b] == '.' && forall k :: b < k < c ==> IsDigit(t[k]))
    ensures c < |t| ==> ExponentAt(t, c)
  {
    a := if Peek(t, '-') then 1 else 0;
    b := SkipDigits(t, a);
    c := if b < |t| && t[b] == '.' then SkipDigits(t, b + 1) else b;
  }

  lemma FloatBack(t: string) returns (n: Numeral)
    requires t != [] && (t[0] == '-' || IsDigit(t[0])) && IsRustFloat(t)
    requires exists i :: (if Peek(t, '-') then 1 else 0) <= i < |t| && !IsDigit(t[i])
    ensures FineNumeral(n) && t == Written(n) && Amount(n) == Float(Finite(t))
  {
    var a, b, c := FloatParts(t);
    var exponent: Option<Exponent> := None;
    if c < |t| {
      var e := ExponentBack(t, c);
      exponent := Some(e);
    }
    n := Numeral(a == 1, t[a..b], if b < c then Some(t[b + 1..c]) else None, exponent);
    DigitsFrom(t, a, b);
    if b < c {
      DigitsFrom(t, b + 1, c);
    }
    FloatJoins(t, a, b, c, n);
  }

  lemma FloatJoins(t: string, a: nat, b: nat, c: nat, n: Numeral)
    requires t != [] && a == (if Peek(t, '-') then 1 else 0) && a <= b <= c <= |t|
    requires n.minus == (a == 1) && n.whole == t[a..b]
    requires if b < c then t[b] == '.' && n.fraction == Some(t[b + 1..c]) else n.fraction.None?
    requires if c < |t| then n.exponent.Some? && t[c..] == ExponentText(n) else n.exponent.None?
    ensures t == Written(n)
  {
    assert t[..a] == SignText(n) && t[b..c] == FractionText(n) && t[c..] == ExponentText(n);
    assert t == t[..a] + t[a..b] + t[b..c] + t[c..];
  }

  lemma NumberBack(s: string) returns (n: Numeral)
    requires s != [] && (s[0] == '-' || IsDigit(s[0])) && ParseNumber(s).Good?
    ensures var r := ParseNumber(s);
            FineNumeral(n) && s == Written(n) + r.rest && r.value == Amount(n)
  {
    var rest := ParseNumber(s).rest;
    var t := s[..|s| - |rest|];
    CutBack(s, rest);
    if exists i :: (if Peek(t, '-') then 1 else 0) <= i < |t| && !IsDigit(t[i]) {
      n := FloatBack(t);
    } else {
      n := WholeBack(t);
    }
  }

  lemma CutBack(s: string, rest: string)
    requires s != [] && (s[0] == '-' || IsDigit(s[0])) && rest == SkipNumber(if s[0] == '-' then s[1..] else s)
    ensures |rest| < |s| && s == s[..|s| - |rest|] + rest && s[..|s| - |rest|] != [] && s[..|s| - |rest|][0] == s[0]
  {
    var t := if s[0] == '-' then s[1..] else s;
    SkipBack(t);
    assert s[0] != '-' ==> SkipNumber(s) == SkipNumber(s[1..]);
  }

  lemma {:induction false} SkipBack(s: string)
    ensures |SkipNumber(s)| <= |s| && s[|s| - |SkipNumber(s)|..] == SkipNumber(s)
  {
    if s != [] && IsNumberChar(s[0]) {
      SkipBack(s[1..]);
      var n := |s| - |SkipNumber(s)|;
      assert s[1..][n - 1..] == s[n..];
    }
  }

  // Values, elements and members.

  lemma {:induction false} ValueBack(s: string) returns (d: Doc)
    requires ParseValue(s).Good?
    ensures var r := ParseValue(s);
            Fine(d) && s == DocTo(d, r.rest) && r.value == Value(d)
    decreases |s|, 1
  {
    var r := ParseValue(s);
    if s[0] == '[' {
      d := ArrayBack(s);
    } else if s[0] == '{' {
      d := ObjectBack(s);
    } else {
      d := ScalarBack(s);
    }
  }

  lemma ScalarBack(s: string) returns (d: Doc)
    requires s != [] && s[0] != '[' && s[0] != '{' && ParseValue(s).Good?
    ensures var r := ParseValue(s);
            Fine(d) && s == DocTo(d, r.rest) && r.value == Value(d)
  {
    if s[0] == 'n' {
      LiteralBack(s, "null", Null);
      d := Nothing;
    } else if s[0] == 't' {
      LiteralBack(s, "true", Bool(true));
      d := Truth(true);
    } else if s[0] == 'f' {
      LiteralBack(s, "false", Bool(false));
      d := Truth(false);
    } else if s[0] == '\"' {
      var ps := StringBack(s);
      d := Text(ps);
    } else {
      var n := NumberBack(s);
      d := Number(n);
    }
  }

  lemma {:induction false} ArrayBack(s: string) returns (d: Doc)
    requires s != [] && s[0] == '[' && ParseValue(s).Good?
    ensures var r := ParseValue(s);
            Fine(d) && s == DocTo(d, r.rest) && r.value == Value(d)
    decreases |s|, 0
  {
    var gap := GapBack(s[1..]);
    var t := SkipWs(s[1..]);
    assert s == ['['] + (gap + t);
    if Peek(t, ']') {
      d := Array(gap, []);
      assert t == [']'] + t[1..];
    } else {
      var items := EltsBack(t, []);
      items := ItemsBehind(gap, items, ParseValue(s).rest);
      d := Array("", items);
      assert [] + ItemValues(items) == ItemValues(items);
    }
  }

  /** White space before the first element belongs to it. */
  lemma ItemsBehind(gap: string, items: seq<Item>, tail: string) returns (more: seq<Item>)
    requires Blank(gap) && items != [] && forall i :: 0 <= i < |items| ==> FineItem(items[i])
    ensures more != [] && (forall i :: 0 <= i < |more| ==> FineItem(more[i]))
    ensures gap + ItemsTo(items, tail) == ItemsTo(more, tail) && ItemValues(more) == ItemValues(items)
  {
    var first := items[0].(before := gap + items[0].before);
    more := [first] + items[1..];
    assert FineItem(items[0]);
    assert FineItem(first);
    assert more[1..] == items[1..];
    var text := DocTo(items[0].doc, items[0].after + ItemsRest(items, tail));
    assert ItemsRest(more, tail) == ItemsRest(items, tail);
    assert gap + (items[0].before + text) == gap + items[0].before + text;
  }

  /** One element: the white space around it and its document. */
  lemma {:induction false} EltBack(s: string) returns (item: Item)
    requires ParseElt(s).Good?
    ensures var r := ParseElt(s);
            FineItem(item) && s == item.before + DocTo(item.doc, item.after + r.rest) && r.value == Value(item.doc)
    decreases |s|, 2
  {
    var before := GapBack(s);
    var d := ValueBack(SkipWs(s));
    var after := GapBack(ParseValue(SkipWs(s)).rest);
    item := Item(before, d, after);
  }

  /** What ends a turn of the element loop. */
  lemma EltsTurn(s: string, done: seq<Json>)
    requires ParseElts(s, done).Good?
    ensures ParseElt(s).Good?
    ensures var t, v := ParseElt(s).rest, ParseElt(s).value;
            && t != []
            && if t[0] == ',' then ParseElts(s, done) == ParseElts(t[1..], done + [v])
               else t[0] == ']' && ParseElts(s, done) == Good(Arr(done + [v]), t[1..])
  {}

  lemma {:induction false} EltsBack(s: string, done: seq<Json>) returns (items: seq<Item>)
    requires ParseElts(s, done).Good?
    ensures var r := ParseElts(s, done);
            && items != [] && (forall i :: 0 <= i < |items| ==> FineItem(items[i]))
            && s == ItemsTo(items, r.rest) && r.value == Arr(done + ItemValues(items))
    decreases |s|, 3
  {
    EltsTurn(s, done);
    var item := EltBack(s);
    var t, v := ParseElt(s).rest, Value(item.doc);
    var rest := ParseElts(s, done).rest;
    assert t == [t[0]] + t[1..];
    if t[0] == ',' {
      var more := EltsBack(t[1..], done + [v]);
      items := [item] + more;
      EltsJoin(s, done, item, t, more, rest);
    } else {
      items := [item];
      ItemsOnly(item, rest);
    }
  }

  lemma EltsJoin(s: string, done: seq<Json>, item: Item, t: string, more: seq<Item>, rest: string)
    requires FineItem(item) && more != [] && forall i :: 0 <= i < |more| ==> FineItem(more[i])
    requires s == item.before + DocTo(item.doc, item.after + t) && t == [','] + ItemsTo(more, rest)
    ensures var items := [item] + more;
            && (forall i :: 0 <= i < |items| ==> FineItem(items[i])) && s == ItemsTo(items, rest)
            && done + ItemValues(items) == done + [Value(item.doc)] + ItemValues(more)
  {
    ItemsFirst(item, more, rest);
  }

  lemma ItemsOnly(item: Item, tail: string)
    requires FineItem(item)
    ensures ItemValues([item]) == [Value(item.doc)]
    ensures ItemsTo([item], tail) == item.before + DocTo(item.doc, item.after + ([']'] + tail))
  {
    assert [item][1..] == [];
    assert ItemsRest([item], tail) == [']'] + tail;
    assert [Value(item.doc)] + [] == [Value(item.doc)];
  }

  lemma ItemsFirst(item: Item, more: seq<Item>, tail: string)
    requires FineItem(item) && more != [] && forall i :: 0 <= i < |more| ==> FineItem(more[i])
    ensures var items := [item] + more;
            && (forall i :: 0 <= i < |items| ==> FineItem(items[i]))
            && ItemValues(items) == [Value(item.doc)] + ItemValues(more)
            && ItemsTo(items, tail) == item.before + DocTo(item.doc, item.after + ([','] + ItemsTo(more, tail)))
  {
    var items := [item] + more;
    assert items[1..] == more;
    assert ItemsRest(items, tail) == [','] + ItemsTo(more, tail);
  }

  lemma {:induction false} ObjectBack(s: string) returns (d: Doc)
    requires s != [] && s[0] == '{' && ParseValue(s).Good?
    ensures var r := ParseValue(s);
            Fine(d) && s == DocTo(d, r.rest) && r.value == Value(d)
    decreases |s|, 0
  {
    var gap := GapBack(s[1..]);
    var t := SkipWs(s[1..]);
    assert s == ['{'] + (gap + t);
    if Peek(t, '}') {
      d := Object(gap, []);
      assert t == ['}'] + t[1..];
    } else {
      var pairs := MembersBack(t, []);
      pairs := EntriesBehind(gap, pairs, ParseValue(s).rest);
      d := Object("", pairs);
      assert [] + EntryValues(pairs) == EntryValues(pairs);
    }
  }

  lemma EntriesBehind(gap: string, pairs: seq<Entry>, tail: string) returns (more: seq<Entry>)
    requires Blank(gap) && pairs != [] && forall i :: 0 <= i < |pairs| ==> FineEntry(pairs[i])
    ensures more != [] && (forall i :: 0 <= i < |more| ==> FineEntry(more[i]))
    ensures gap + EntriesTo(pairs, tail) == EntriesTo(more, tail) && EntryValues(more) == EntryValues(pairs)
  {
    var first := pairs[0].(before := gap + pairs[0].before);
    more := [first] + pairs[1..];
    assert FineEntry(pairs[0]);
    assert FineEntry(first);
    assert more[1..] == pairs[1..];
    var rest := pairs[0].after + EntriesRest(pairs, tail);
    assert EntriesRest(more, tail) == EntriesRest(pairs, tail);
    assert EntryTo(first, rest) == EntryTo(pairs[0], rest);
    assert gap + (pairs[0].before + EntryTo(pairs[0], rest)) == gap + pairs[0].before + EntryTo(pairs[0], rest);
  }

  /** A member without the white space around it. */
  lemma {:induction false} MemberBack(s: string) returns (e: Entry)
    requires ParseMember(s).Good?
    ensures var r := ParseMember(s);
            FineEntry(e) && e.before == e.after == "" && s == EntryTo(e, r.rest)
            && r.value == Member(Characters(e.key), Value(e.doc))
    decreases |s|, 1
  {
    var key := StringBack(s);
    var rest := ParseString(s).rest;
    var colon := GapBack(rest);
    var t := SkipWs(rest);
    assert t == [':'] + t[1..];
    var gap := GapBack(t[1..]);
    var d := ValueBack(SkipWs(t[1..]));
    e := Entry("", key, colon, gap, d, "");
  }

  lemma {:induction false} MemberEltBack(s: string) returns (e: Entry)
    requires ParseMemberElt(s).Good?
    ensures var r := ParseMemberElt(s);
            FineEntry(e) && s == e.before + EntryTo(e, e.after + r.rest)
            && r.value == Member(Characters(e.key), Value(e.doc))
    decreases |s|, 2
  {
    var before := GapBack(s);
    var m := MemberBack(SkipWs(s));
    var after := GapBack(ParseMember(SkipWs(s)).rest);
    e := m.(before := before, after := after);
    assert EntryTo(e, ParseMember(SkipWs(s)).rest) == EntryTo(m, ParseMember(SkipWs(s)).rest);
  }

  lemma MembersTurn(s: string, done: seq<Member>)
    requires ParseMembers(s, done).Good?
    ensures ParseMemberElt(s).Good?
    ensures var t, m := ParseMemberElt(s).rest, ParseMemberElt(s).value;
            && t != []
            && if t[0] == ',' then ParseMembers(s, done) == ParseMembers(t[1..], done + [m])
               else t[0] == '}' && ParseMembers(s, done) == Good(Obj(done + [m]), t[1..])
  {}

  lemma {:induction false} MembersBack(s: string, done: seq<Member>) returns (pairs: seq<Entry>)
    requires ParseMembers(s, done).Good?
    ensures var r := ParseMembers(s, done);
            && pairs != [] && (forall i :: 0 <= i < |pairs| ==> FineEntry(pairs[i]))
            && s == EntriesTo(pairs, r.rest) && r.value == Obj(done + EntryValues(pairs))
    decreases |s|, 3
  {
    MembersTurn(s, done);
    var e := MemberEltBack(s);
    var t, m := ParseMemberElt(s).rest, Member(Characters(e.key), Value(e.doc));
    var rest := ParseMembers(s, done).rest;
    assert t == [t[0]] + t[1..];
    if t[0] == ',' {
      var more := MembersBack(t[1..], done + [m]);
      pairs := [e] + more;
      EntriesFirst(e, more, rest);
      assert done + [m] + EntryValues(more) == done + ([m] + EntryValues(more));
    } else {
      pairs := [e];
      EntriesOnly(e, rest);
    }
  }

  lemma EntriesOnly(e: Entry, tail: string)
    requires FineEntry(e)
    ensures EntryValues([e]) == [Member(Characters(e.key), Value(e.doc))]
    ensures EntriesTo([e], tail) == e.before + EntryTo(e, e.after + (['}'] + tail))
  {
    assert [e][1..] == [];
    assert EntriesRest([e], tail) == ['}'] + tail;
    assert [Member(Characters(e.key), Value(e.doc))] + [] == [Member(Characters(e.key), Value(e.doc))];
  }

  lemma EntriesFirst(e: Entry, more: seq<Entry>, tail: string)
    requires FineEntry(e) && more != [] && forall i :: 0 <= i < |more| ==> FineEntry(more[i])
    ensures var pairs := [e] + more;
            && (forall i :: 0 <= i < |pairs| ==> FineEntry(pairs[i]))
            && EntryValues(pairs) == [Member(Characters(e.key), Value(e.doc))] + EntryValues(more)
            && EntriesTo(pairs, tail) == e.before + EntryTo(e, e.after + ([','] + EntriesTo(more, tail)))
  {
    var pairs := [e] + more;
    assert pairs[1..] == more;
    assert EntriesRest(pairs, tail) == [','] + EntriesTo(more, tail);
  }

  /** The text is a document with white space around it that stands for `v`. */
  ghost predicate Denotes(text: string, v: Json) {
    exists before, d, after :: DocumentOf(text, before, d, after) && v == Value(d)
  }

  ghost predicate DocumentOf(text: string, before: string, d: Doc, after: string) {
    Blank(before) && Fine(d) && Blank(after) && text == before + DocTo(d, after)
  }

  /** The parser accepts exactly the documents, and reads each as the value it stands for. */
  lemma ParseIff(text: string, v: Json)
    ensures Parse(text) == Ok(v) <==> Denotes(text, v)
  {
    if Parse(text) == Ok(v) {
      var item := EltBack(text);
      assert item.after + [] == item.after;
      assert DocumentOf(text, item.before, item.doc, item.after);
    }
    if Denotes(text, v) {
      var before, d, after :| DocumentOf(text, before, d, after) && v == Value(d);
      DocumentReads(before, d, after);
    }
  }
}
