/**
 * The slice of JSON (RFC 8259) the server writes and reads: json.Marshal's
 * text for null, booleans, integers, strings and objects, and a parser that
 * reads such text back. Objects keep their members in order; Go writes the
 * keys of a map in sorted order, so a caller that models a map lists its
 * members sorted.
 */
module Json {
  import opened Wrappers
  import opened Decimal
  import Utf8

  datatype Json = Null | Bool(b: bool) | Number(n: int) | Str(s: string) | Object(members: seq<Member>)
  datatype Member = Member(key: string, value: Json)

  // ---------------------------------------------------------------------------
  // Hexadecimal digits of \uXXXX escapes (Go writes them in lower case)

  predicate IsHex(c: char) { IsDigit(c) || 'a' <= c <= 'f' || 'A' <= c <= 'F' }

  function HexDigit(d: nat): (c: char)
    requires d < 16
    ensures IsHex(c)
  {
    if d < 10 then DigitChar(d) else ('a' as int + d - 10) as char
  }

  function HexValue(c: char): (d: nat)
    requires IsHex(c)
    ensures d < 16
  {
    if IsDigit(c) then c as int - '0' as int
    else if 'a' <= c <= 'f' then c as int - 'a' as int + 10
    else c as int - 'A' as int + 10
  }

  function Hex4(v: nat): (r: string)
    requires v < 0x1_0000
    ensures |r| == 4 && forall i :: 0 <= i < 4 ==> IsHex(r[i])
  {
    [HexDigit(v / 4096), HexDigit(v / 256 % 16), HexDigit(v / 16 % 16), HexDigit(v % 16)]
  }

  function Hex4Value(s: string): (v: nat)
    requires |s| == 4 && forall i :: 0 <= i < 4 ==> IsHex(s[i])
    ensures v < 0x1_0000
  {
    HexValue(s[0]) * 4096 + HexValue(s[1]) * 256 + HexValue(s[2]) * 16 + HexValue(s[3])
  }

  lemma {:induction false} Hex4Digits(v: nat)
    requires v < 0x1_0000
    ensures (v / 4096) * 4096 + (v / 256 % 16) * 256 + (v / 16 % 16) * 16 + v % 16 == v
  {
    var q1 := v / 16;
    var q2 := q1 / 16;
    assert v == q1 * 16 + v % 16;
    assert q1 == q2 * 16 + q1 % 16;
    assert q2 == (q2 / 16) * 16 + q2 % 16;
    assert q2 == v / 256;
    assert q2 / 16 == v / 4096;
  }

  lemma {:induction false} HexDigitValue(d: nat)
    requires d < 16
    ensures HexValue(HexDigit(d)) == d
  {
  }

  lemma {:induction false} Hex4RoundTrip(v: nat)
    requires v < 0x1_0000
    ensures Hex4Value(Hex4(v)) == v
  {
    var h := Hex4(v);
    HexDigitValue(v / 4096);
    HexDigitValue(v / 256 % 16);
    HexDigitValue(v / 16 % 16);
    HexDigitValue(v % 16);
    assert HexValue(h[0]) == v / 4096;
    assert HexValue(h[1]) == v / 256 % 16;
    assert HexValue(h[2]) == v / 16 % 16;
    assert HexValue(h[3]) == v % 16;
    Hex4Digits(v);
  }

  // ---------------------------------------------------------------------------
  // Writing

  /** Characters Go escapes as \uXXXX: other controls, the HTML-sensitive <, > and &, U+2028 and U+2029. */
  predicate EscapedAsHex(c: char)
  {
    (c as int < 0x20 && c != '\n' && c != '\r' && c != '\t')
    || c == '<' || c == '>' || c == '&' || c as int == 0x2028 || c as int == 0x2029
  }

  function EscapeChar(c: char): (r: string)
    ensures |r| >= 1 && r[0] != '\"'
  {
    if c == '\"' then "\\\""
    else if c == '\\' then "\\\\"
    else if c == '\n' then "\\n"
    else if c == '\r' then "\\r"
    else if c == '\t' then "\\t"
    else if EscapedAsHex(c) then "\\u" + Hex4(c as int)
    else [c]
  }

  function Escape(s: string): string
  {
    if s == [] then [] else EscapeChar(s[0]) + Escape(s[1..])
  }

  function Quote(s: string): string { "\"" + Escape(s) + "\"" }

  /** The text json.Marshal produces for a value. */
  function Render(v: Json): string
    decreases v, 1
  {
    match v
    case Null => "null"
    case Bool(b) => if b then "true" else "false"
    case Number(n) => IntToString(n)
    case Str(s) => Quote(s)
    case Object(ms) => "{" + RenderMembers(ms) + "}"
  }

  function RenderMembers(ms: seq<Member>): string
    decreases ms, 0
  {
    if ms == [] then ""
    else
      var head := Quote(ms[0].key) + ":" + Render(ms[0].value);
      if |ms| == 1 then head else head + "," + RenderMembers(ms[1..])
  }

  // ---------------------------------------------------------------------------
  // Reading

  predicate IsWs(c: char) { c == ' ' || c == '\t' || c == '\n' || c == '\r' }

  function SkipWs(t: string): (r: string)
    ensures |r| <= |t|
    ensures r == [] || !IsWs(r[0])
  {
    if |t| > 0 && IsWs(t[0]) then SkipWs(t[1..]) else t
  }

  /**
   * Reads one character of a string literal at the front of t, raw or
   * escaped, with the number of characters it took. A raw control
   * character is an error, and so is a \u escape naming a surrogate
   * (pairs of surrogate escapes are outside this model).
   */
  function UnescapeAt(t: string): (r: Option<(char, nat)>)
    requires |t| > 0 && t[0] != '\"'
    ensures r.Some? ==> 1 <= r.value.1 <= |t|
  {
    if t[0] == '\\' then
      if |t| < 2 then None
      else
        var e := t[1];
        if e == '\"' then Some(('\"', 2))
        else if e == '\\' then Some(('\\', 2))
        else if e == '/' then Some(('/', 2))
        else if e == 'b' then Some((8 as char, 2))
        else if e == 'f' then Some((12 as char, 2))
        else if e == 'n' then Some(('\n', 2))
        else if e == 'r' then Some(('\r', 2))
        else if e == 't' then Some(('\t', 2))
        else if e == 'u' && |t| >= 6 && (forall i :: 2 <= i < 6 ==> IsHex(t[i])) then
          var v := Hex4Value(t[2..6]);
          if Utf8.IsScalar(v) then Some((v as char, 6)) else None
        else None
    else if t[0] as int < 0x20 then None
    else Some((t[0], 1))
  }

  /** Reads the rest of a string literal after its opening quote, up to and including the closing quote. */
  function ParseStringBody(t: string): (r: Option<(string, string)>)
    ensures r.Some? ==> |r.value.1| < |t|
    decreases |t|
  {
    if |t| == 0 then None
    else if t[0] == '\"' then Some(([], t[1..]))
    else
      var c := UnescapeAt(t);
      if c.None? then None
      else
        var tail := ParseStringBody(t[c.value.1..]);
        if tail.None? then None
        else Some(([c.value.0] + tail.value.0, tail.value.1))
  }

  /** Reads an integer: an optional minus, then 0 or digits without a leading zero, and no fraction or exponent. */
  function ParseNumber(t: string): (r: Option<(int, string)>)
    ensures r.Some? ==> |r.value.1| < |t|
  {
    var neg := |t| > 0 && t[0] == '-';
    var m := if neg then t[1..] else t;
    var k := DigitRun(m);
    if k == 0 || (k > 1 && m[0] == '0') then None
    else if k < |m| && (m[k] == '.' || m[k] == 'e' || m[k] == 'E') then None
    else
      var v: int := DigitsValue(m[..k]);
      Some((if neg then -v else v, m[k..]))
  }

  /** Reads null, true or false at the front of u. */
  function ParseKeyword(u: string): (r: Option<(Json, string)>)
    ensures r.Some? ==> |r.value.1| < |u|
  {
    if |u| >= 4 && u[..4] == "null" then Some((Null, u[4..]))
    else if |u| >= 4 && u[..4] == "true" then Some((Bool(true), u[4..]))
    else if |u| >= 5 && u[..5] == "false" then Some((Bool(false), u[5..]))
    else None
  }

  /** Reads an object whose opening brace is at the front of u. */
  function ParseObject(u: string): (r: Option<(Json, string)>)
    requires |u| > 0 && u[0] == '{'
    ensures r.Some? ==> |r.value.1| < |u|
    decreases |u|, 2
  {
    var w := SkipWs(u[1..]);
    if |w| > 0 && w[0] == '}' then Some((Object([]), w[1..]))
    else
      var ms := ParseMembers(w);
      if ms.None? then None else Some((Object(ms.value.0), ms.value.1))
  }

  /** Reads one value after optional white space, returning it with the text that follows it. */
  function ParseValue(t: string): (r: Option<(Json, string)>)
    ensures r.Some? ==> |r.value.1| < |t|
    decreases |t|, 3
  {
    var u := SkipWs(t);
    if |u| == 0 then None
    else if u[0] == 'n' || u[0] == 't' || u[0] == 'f' then ParseKeyword(u)
    else if u[0] == '\"' then
      var s := ParseStringBody(u[1..]);
      if s.None? then None else Some((Str(s.value.0), s.value.1))
    else if u[0] == '{' then ParseObject(u)
    else if u[0] == '-' || IsDigit(u[0]) then
      var n := ParseNumber(u);
      if n.None? then None else Some((Number(n.value.0), n.value.1))
    else None
  }

  /** Reads one `"key": value` member after optional white space. */
  function ParseMember(t: string): (r: Option<(Member, string)>)
    ensures r.Some? ==> |r.value.1| < |t|
    decreases |t|, 0
  {
    var u := SkipWs(t);
    if |u| == 0 || u[0] != '\"' then None
    else
      var k := ParseStringBody(u[1..]);
      if k.None? then None
      else
        var r := SkipWs(k.value.1);
        if |r| == 0 || r[0] != ':' then None
        else
          var v := ParseValue(r[1..]);
          if v.None? then None else Some((Member(k.value.0, v.value.0), v.value.1))
  }

  /** Reads members separated by commas, up to and including the closing brace. */
  function ParseMembers(t: string): (r: Option<(seq<Member>, string)>)
    ensures r.Some? ==> |r.value.1| < |t|
    decreases |t|, 1
  {
    var m := ParseMember(t);
    if m.None? then None
    else
      var r := SkipWs(m.value.1);
      if |r| == 0 then None
      else if r[0] == '}' then Some(([m.value.0], r[1..]))
      else if r[0] == ',' then
        var more := ParseMembers(r[1..]);
        if more.None? then None else Some(([m.value.0] + more.value.0, more.value.1))
      else None
  }

  /** A whole JSON text: one value, surrounded by optional white space. */
  function Parse(t: string): Option<Json>
  {
    var v := ParseValue(t);
    if v.Some? && SkipWs(v.value.1) == [] then Some(v.value.0) else None
  }

  /** The value of the last member named key, as a decoder into a Go map or struct keeps it. */
  function Lookup(ms: seq<Member>, key: string): (r: Option<Json>)
    ensures r.Some? <==> exists i :: 0 <= i < |ms| && ms[i].key == key
  {
    if ms == [] then None
    else if ms[|ms| - 1].key == key then Some(ms[|ms| - 1].value)
    else
      var r := Lookup(ms[..|ms| - 1], key);
      assert forall i :: 0 <= i < |ms| - 1 ==> ms[..|ms| - 1][i] == ms[i];
      r
  }

  // ---------------------------------------------------------------------------
  // Reading back what was written

  lemma {:induction false} SkipWsNone(t: string)
    requires t == [] || !IsWs(t[0])
    ensures SkipWs(t) == t
  {
  }

  lemma {:induction false} UnescapeEscapeChar(c: char, t: string)
    ensures UnescapeAt(EscapeChar(c) + t) == Some((c, |EscapeChar(c)|))
  {
    var e := EscapeChar(c) + t;
    if c == '\"' || c == '\\' || c == '\n' || c == '\r' || c == '\t' {
    } else if EscapedAsHex(c) {
      assert e[2..6] == Hex4(c as int);
      Hex4RoundTrip(c as int);
    } else {
    }
  }

  /** A string literal reads back as the string that was quoted, leaving what follows the closing quote. */
  lemma {:induction false} ParseEscaped(s: string, rest: string)
    ensures ParseStringBody(Escape(s) + "\"" + rest) == Some((s, rest))
  {
    var t := Escape(s) + "\"" + rest;
    if s == [] {
      assert t == "\"" + rest;
    } else {
      var e := EscapeChar(s[0]);
      var tail := Escape(s[1..]) + "\"" + rest;
      assert t == e + tail;
      UnescapeEscapeChar(s[0], tail);
      assert t[|e|..] == tail;
      ParseEscaped(s[1..], rest);
      assert [s[0]] + s[1..] == s;
    }
  }

  /** What may follow a value inside an object, or at the end of the text. */
  predicate Follows(rest: string) { rest == [] || rest[0] == ',' || rest[0] == '}' }

  /** The digits of a rendered number, followed by what may follow a value, read back as that number. */
  lemma {:induction false} ParseDigitsFollowed(digits: string, rest: string)
    requires |digits| >= 1 && AllDigits(digits) && (digits[0] == '0' ==> |digits| == 1)
    requires Follows(rest)
    ensures var m := digits + rest;
      DigitRun(m) == |digits| && m[0] == digits[0] && m[..|digits|] == digits && m[|digits|..] == rest
      && (DigitRun(m) < |m| ==> m[DigitRun(m)] == rest[0])
  {
    assert EndsNumber(rest);
    DigitRunAppend(digits, rest);
  }

  /** A digit string with its value, after an optional minus sign, reads back as that number. */
  lemma {:induction false} ParseNumberDigits(neg: bool, digits: string, rest: string)
    requires |digits| >= 1 && AllDigits(digits) && (digits[0] == '0' ==> |digits| == 1)
    requires Follows(rest)
    ensures var t := (if neg then "-" else "") + digits + rest;
      var v: int := DigitsValue(digits);
      ParseNumber(t) == Some((if neg then -v else v, rest))
  {
    var t := (if neg then "-" else "") + digits + rest;
    var m := digits + rest;
    ParseDigitsFollowed(digits, rest);
    if neg {
      assert t == "-" + m;
      assert t[1..] == m;
    } else {
      assert t == m;
      assert t[0] != '-';
    }
  }

  lemma {:induction false} ParseNumberRendered(n: int, rest: string)
    requires Follows(rest)
    ensures ParseNumber(IntToString(n) + rest) == Some((n, rest))
  {
    var a := if n < 0 then -n else n;
    NatToStringValue(a);
    ParseNumberDigits(n < 0, NatToString(a), rest);
    if n < 0 {
      assert IntToString(n) + rest == "-" + NatToString(a) + rest;
    } else {
      assert IntToString(n) + rest == "" + NatToString(a) + rest;
    }
  }

  lemma {:induction false} ParseRenderNumber(n: int, rest: string)
    requires Follows(rest)
    ensures ParseValue(Render(Number(n)) + rest) == Some((Number(n), rest))
  {
    var t := IntToString(n) + rest;
    assert Render(Number(n)) + rest == t;
    SkipWsNone(t);
    assert t[0] == '-' || IsDigit(t[0]);
    ParseNumberRendered(n, rest);
  }

  lemma {:induction false} ParseRenderString(s: string, rest: string)
    ensures ParseValue(Render(Str(s)) + rest) == Some((Str(s), rest))
  {
    var t := Render(Str(s)) + rest;
    SkipWsNone(t);
    assert t[1..] == Escape(s) + "\"" + rest;
    ParseEscaped(s, rest);
  }

  lemma {:induction false} RenderMembersStart(ms: seq<Member>)
    requires ms != []
    ensures |RenderMembers(ms)| > 0 && RenderMembers(ms)[0] == '\"'
  {
  }

  /** An object whose members text reads back reads back as an object. */
  lemma {:induction false} ParseObjectText(body: string, ms: seq<Member>, rest: string)
    requires body == [] ==> ms == []
    requires body != [] ==> body[0] == '\"' && ParseMembers(body + "}" + rest) == Some((ms, rest))
    ensures ParseValue("{" + body + "}" + rest) == Some((Object(ms), rest))
  {
    var t := "{" + body + "}" + rest;
    SkipWsNone(t);
    var inner := body + "}" + rest;
    assert t[1..] == inner;
    if body == [] {
      assert inner == "}" + rest;
    } else {
      SkipWsNone(inner);
    }
    assert ParseObject(t) == Some((Object(ms), rest));
  }

  /** Every value reads back as itself (the round trip of json.Marshal through a decoder). */
  lemma {:induction false} ParseRender(v: Json, rest: string)
    requires Follows(rest)
    ensures ParseValue(Render(v) + rest) == Some((v, rest))
    decreases v, 1
  {
    var t := Render(v) + rest;
    SkipWsNone(t);
    match v
    case Null =>
      assert t[..4] == "null";
      assert ParseKeyword(t) == Some((v, rest));
    case Bool(b) =>
      if b {
        assert t[..4] == "true";
        assert ParseKeyword(t) == Some((v, rest));
      } else {
        assert t[..4] != "null" && t[..4] != "true";
        assert t[..5] == "false";
        assert ParseKeyword(t) == Some((v, rest));
      }
    case Number(n) =>
      ParseRenderNumber(n, rest);
    case Str(s) =>
      ParseRenderString(s, rest);
    case Object(ms) =>
      if ms != [] {
        ParseRenderMembers(ms, rest);
        RenderMembersStart(ms);
      }
      ParseObjectText(RenderMembers(ms), ms, rest);
      assert Render(v) == "{" + RenderMembers(ms) + "}";
  }

  lemma {:induction false} QuotedShape(e: string, r: string, after: string)
    ensures "\"" + e + "\"" + ":" + r + after == "\"" + (e + "\"" + (":" + r + after))
    ensures ("\"" + (e + "\"" + (":" + r + after)))[1..] == e + "\"" + (":" + r + after)
    ensures (":" + r + after)[1..] == r + after
  {
  }

  /** A written member reads back as that member. */
  lemma {:induction false} ParseMemberText(key: string, value: Json, rendered: string, after: string)
    requires ParseValue(rendered + after) == Some((value, after))
    ensures ParseMember(Quote(key) + ":" + rendered + after) == Some((Member(key, value), after))
  {
    var e := Escape(key);
    var rv := ":" + rendered + after;
    var t := Quote(key) + ":" + rendered + after;
    QuotedShape(e, rendered, after);
    assert t == "\"" + (e + "\"" + rv);
    SkipWsNone(t);
    ParseEscaped(key, rv);
    SkipWsNone(rv);
  }

  lemma {:induction false} MemberTextShape(q: string, r: string, tail: string, rest: string)
    ensures q + ":" + r + "}" + rest == q + ":" + r + ("}" + rest)
    ensures q + ":" + r + "," + tail + "}" + rest == q + ":" + r + ("," + (tail + "}" + rest))
  {
  }

  lemma {:induction false} RenderLastMember(ms: seq<Member>, rest: string)
    requires |ms| == 1
    ensures RenderMembers(ms) + "}" + rest == Quote(ms[0].key) + ":" + Render(ms[0].value) + ("}" + rest)
  {
    assert RenderMembers(ms) == Quote(ms[0].key) + ":" + Render(ms[0].value);
    MemberTextShape(Quote(ms[0].key), Render(ms[0].value), [], rest);
  }

  lemma {:induction false} RenderMoreMembers(ms: seq<Member>, rest: string)
    requires |ms| > 1
    ensures RenderMembers(ms) + "}" + rest
            == Quote(ms[0].key) + ":" + Render(ms[0].value) + ("," + (RenderMembers(ms[1..]) + "}" + rest))
  {
    assert RenderMembers(ms) == Quote(ms[0].key) + ":" + Render(ms[0].value) + "," + RenderMembers(ms[1..]);
    MemberTextShape(Quote(ms[0].key), Render(ms[0].value), RenderMembers(ms[1..]), rest);
  }

  lemma {:induction false} ParseLastMember(t: string, m: Member, rest: string)
    requires ParseMember(t) == Some((m, "}" + rest))
    ensures ParseMembers(t) == Some(([m], rest))
  {
    SkipWsNone("}" + rest);
    assert ("}" + rest)[1..] == rest;
  }

  lemma {:induction false} ParseMemberCons(t: string, m: Member, tail: string, more: seq<Member>, rest: string)
    requires ParseMember(t) == Some((m, "," + tail))
    requires ParseMembers(tail) == Some((more, rest))
    ensures ParseMembers(t) == Some(([m] + more, rest))
  {
    SkipWsNone("," + tail);
    assert ("," + tail)[1..] == tail;
  }

  lemma {:induction false} ParseRenderMembers(ms: seq<Member>, rest: string)
    requires ms != []
    ensures ParseMembers(RenderMembers(ms) + "}" + rest) == Some((ms, rest))
    decreases ms, 0
  {
    var key := ms[0].key;
    var value := ms[0].value;
    var t := RenderMembers(ms) + "}" + rest;
    if |ms| == 1 {
      var after := "}" + rest;
      RenderLastMember(ms, rest);
      ParseRender(value, after);
      ParseMemberText(key, value, Render(value), after);
      ParseLastMember(t, ms[0], rest);
      assert [ms[0]] == ms;
    } else {
      var tail := RenderMembers(ms[1..]) + "}" + rest;
      var after := "," + tail;
      RenderMoreMembers(ms, rest);
      ParseRender(value, after);
      ParseMemberText(key, value, Render(value), after);
      ParseRenderMembers(ms[1..], rest);
      ParseMemberCons(t, ms[0], tail, ms[1..], rest);
      assert [ms[0]] + ms[1..] == ms;
    }
  }

  /** A whole rendered text parses back to the value. */
  lemma {:induction false} ParseRenderText(v: Json)
    ensures Parse(Render(v)) == Some(v)
  {
    ParseRender(v, []);
    assert Render(v) + [] == Render(v);
  }
}
