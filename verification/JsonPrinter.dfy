/** The printer of the source: it appends to an output string, with a loop over elements and characters. */
module JsonPrinter {
  import opened Json

  method WriteIndent(out: string, depth: nat) returns (r: string)
    ensures r == out + Indent(depth)
  {
    r := out;
    for i := 0 to depth
      invariant r + Indent(depth - i) == out + Indent(depth)
    {
      assert r + Indent(depth - i) == r + "  " + Indent(depth - i - 1);
      r := r + "  ";
    }
  }

  method WriteChar(out: string, c: char) returns (r: string)
    ensures r == out + EscapeChar(c)
  {
    if c == '\"' {
      r := out + "\\\"";
    } else if c == '\\' {
      r := out + "\\\\";
    } else if c == '\n' {
      r := out + "\\n";
    } else if c == '\r' {
      r := out + "\\r";
    } else if c == '\t' {
      r := out + "\\t";
    } else if c as nat < 0x20 {
      r := out + ("\\u00" + [HexDigit(c as nat / 16), HexDigit(c as nat % 16)]);
    } else {
      r := out + [c];
    }
  }

  method WriteString(out: string, s: string) returns (r: string)
    ensures r == out + StringText(s)
  {
    r := out + "\"";
    for i := 0 to |s|
      invariant r + Escape(s[i..]) == out + "\"" + Escape(s)
    {
      assert s[i..][1..] == s[i + 1..];
      assert r + EscapeChar(s[i]) + Escape(s[i + 1..]) == r + (EscapeChar(s[i]) + Escape(s[i + 1..]));
      r := WriteChar(r, s[i]);
    }
    assert Escape(s[|s|..]) == "" && r + "" == r;
    Regroup3(out, "\"", Escape(s), "\"");
    r := r + "\"";
  }

  lemma Regroup3(p: string, a: string, b: string, c: string)
    ensures p + a + b + c == p + (a + b + c)
  {}

  /** Appending piece by piece is appending the whole. */
  lemma Regroup5(p: string, a: string, b: string, c: string, d: string, e: string)
    ensures p + a + b + c + d + e == p + (a + (b + c) + d + e)
    ensures p + a + b + c + d + e == p + (a + b + (c + d) + e)
  {
    Regroup3(p, a, b, c);
    Regroup3(p, a + b + c, d, e);
    Regroup3("", a, b, c);
    Regroup3(a, b, c, d);
    Regroup3(a + b, c, d, e);
  }

  /** Append the text of a value. */
  method Write(out: string, v: Json, depth: nat) returns (r: string)
    ensures r == out + Print(v, depth)
    decreases v, 1
  {
    match v
    case Null => r := out + "null";
    case Bool(b) => r := out + (if b then "true" else "false");
    case Int(i) => r := out + IntText(i);
    case Float(f) => r := out + (if f.Finite? then f.literal else "null");
    case Str(s) => r := WriteString(out, s);
    case Arr(elts) => r := WriteArray(out, elts, depth);
    case Obj(members) => r := WriteObject(out, members, depth);
  }

  method WriteArray(out: string, elts: seq<Json>, depth: nat) returns (r: string)
    ensures r == out + Print(Arr(elts), depth)
    decreases elts, 0
  {
    if elts == [] {
      return out + "[]";
    }
    r := out + "[";
    for i := 0 to |elts|
      invariant r + PrintElts(elts[i..], i == 0, depth + 1) == out + "[" + PrintElts(elts, true, depth + 1)
    {
      ghost var before := r;
      assert elts[i..][1..] == elts[i + 1..];
      if i > 0 {
        r := r + ",";
      }
      r := r + "\n";
      r := WriteIndent(r, depth + 1);
      r := Write(r, elts[i], depth + 1);
      EltAppended(before, r, elts[i..], i == 0, depth + 1);
    }
    Regroup5(out, "[", PrintElts(elts, true, depth + 1), "\n", Indent(depth), "]");
    r := r + "\n";
    r := WriteIndent(r, depth);
    r := r + "]";
  }

  lemma EltAppended(before: string, r: string, elts: seq<Json>, first: bool, depth: nat)
    requires elts != []
    requires r == before + (if first then "" else ",") + "\n" + Indent(depth) + Print(elts[0], depth)
    ensures r + PrintElts(elts[1..], false, depth) == before + PrintElts(elts, first, depth)
  {
    Regroup5(before, if first then "" else ",", "\n", Indent(depth), Print(elts[0], depth), PrintElts(elts[1..], false, depth));
  }

  method WriteMember(out: string, m: Member, first: bool, depth: nat) returns (r: string)
    ensures r == out + (if first then "" else ",") + "\n" + Indent(depth) + StringText(m.key) + ": " + Print(m.value, depth)
    decreases m, 1
  {
    r := out;
    if !first {
      r := r + ",";
    }
    r := r + "\n";
    r := WriteIndent(r, depth);
    r := WriteString(r, m.key);
    r := r + ": ";
    r := Write(r, m.value, depth);
  }

  method WriteObject(out: string, members: seq<Member>, depth: nat) returns (r: string)
    ensures r == out + Print(Obj(members), depth)
    decreases members, 0
  {
    if members == [] {
      return out + "{}";
    }
    r := out + "{";
    for i := 0 to |members|
      invariant r + PrintMembers(members[i..], i == 0, depth + 1) == out + "{" + PrintMembers(members, true, depth + 1)
    {
      ghost var before := r;
      assert members[i..][1..] == members[i + 1..];
      r := WriteMember(r, members[i], i == 0, depth + 1);
      MemberAppended(before, r, members[i..], i == 0, depth + 1);
    }
    Regroup5(out, "{", PrintMembers(members, true, depth + 1), "\n", Indent(depth), "}");
    r := r + "\n";
    r := WriteIndent(r, depth);
    r := r + "}";
  }

  lemma MemberAppended(before: string, r: string, members: seq<Member>, first: bool, depth: nat)
    requires members != []
    requires r == before + (if first then "" else ",") + "\n" + Indent(depth)
                  + StringText(members[0].key) + ": " + Print(members[0].value, depth)
    ensures r + PrintMembers(members[1..], false, depth) == before + PrintMembers(members, first, depth)
  {
    var comma, key := if first then "" else ",", StringText(members[0].key);
    Regroup5(before, comma, "\n", Indent(depth), key, ": ");
    Regroup3(before, comma + NewLine(depth) + key + ": ", Print(members[0].value, depth), PrintMembers(members[1..], false, depth));
  }

  method Pretty(v: Json) returns (r: string)
    ensures r == ToPretty(v)
  {
    r := Write("", v, 0);
    r := r + "\n";
  }
}
