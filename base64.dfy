/**
 * Standard base64 with '=' padding (RFC 4648, section 4), the form Go's
 * encoding/json gives a byte slice.
 */
module Base64 {
  import opened Wrappers
  import opened Utf8

  /** The character for a 6-bit value: A-Z, a-z, 0-9, '+', '/'. */
  function Digit(v: nat): (c: char)
    requires v < 64
    ensures c != '=' && c as int < 0x80
  {
    if v < 26 then ('A' as int + v) as char
    else if v < 52 then ('a' as int + (v - 26)) as char
    else if v < 62 then ('0' as int + (v - 52)) as char
    else if v == 62 then '+'
    else '/'
  }

  /** The 6-bit value a character stands for. */
  function DigitValue(c: char): (r: Option<nat>)
    ensures r.Some? ==> r.value < 64 && Digit(r.value) == c
  {
    if 'A' <= c <= 'Z' then Some(c as nat - 'A' as nat)
    else if 'a' <= c <= 'z' then Some(c as nat - 'a' as nat + 26)
    else if '0' <= c <= '9' then Some(c as nat - '0' as nat + 52)
    else if c == '+' then Some(62)
    else if c == '/' then Some(63)
    else None
  }

  lemma DigitRoundTrip(v: nat)
    requires v < 64
    ensures DigitValue(Digit(v)) == Some(v)
  {
  }

  /** Four characters for one to three bytes, '='-padded. */
  function EncodeGroup(b: seq<byte>): (s: string)
    requires 1 <= |b| <= 3
    ensures |s| == 4
  {
    var x := b[0] as nat;
    var y := if |b| > 1 then b[1] as nat else 0;
    var z := if |b| > 2 then b[2] as nat else 0;
    [Digit(x / 4), Digit(x % 4 * 16 + y / 16)]
    + (if |b| > 1 then [Digit(y % 16 * 4 + z / 64)] else "=")
    + (if |b| > 2 then [Digit(z % 64)] else "=")
  }

  /** Encodes each three bytes as four characters, padding the last group with '='. */
  function Encode(b: seq<byte>): (s: string)
    ensures |s| == 4 * ((|b| + 2) / 3)
    decreases |b|
  {
    if |b| == 0 then ""
    else if |b| <= 3 then EncodeGroup(b)
    else EncodeGroup(b[..3]) + Encode(b[3..])
  }

  /** Decodes one group of four characters. */
  function DecodeGroup(g: string): (r: Option<seq<byte>>)
    requires |g| == 4
    ensures r.Some? ==> 1 <= |r.value| <= 3
  {
    var v0 := DigitValue(g[0]);
    var v1 := DigitValue(g[1]);
    var v2 := DigitValue(g[2]);
    var v3 := DigitValue(g[3]);
    if v0.None? || v1.None? then None
    else
      var b0 := (v0.value * 4 + v1.value / 16) as byte;
      if g[2] == '=' && g[3] == '=' then Some([b0])
      else if v2.None? then None
      else
        var b1 := (v1.value % 16 * 16 + v2.value / 4) as byte;
        if g[3] == '=' then Some([b0, b1])
        else if v3.None? then None
        else Some([b0, b1, (v2.value % 4 * 64 + v3.value) as byte])
  }

  /** Reads back a base64 text; padding may only close the last group. */
  function Decode(s: string): (r: Option<seq<byte>>)
    decreases |s|
  {
    if s == [] then Some([])
    else if |s| < 4 then None
    else
      var g := DecodeGroup(s[..4]);
      if g.None? || (|g.value| < 3 && |s| > 4) then None
      else
        var rest := Decode(s[4..]);
        if rest.None? then None else Some(g.value + rest.value)
  }

  lemma FirstByte(x: nat, y: nat)
    requires x < 256 && y < 256
    ensures x / 4 * 4 + (x % 4 * 16 + y / 16) / 16 == x
  {
  }

  lemma SecondByte(y: nat, z: nat, m: nat)
    requires y < 256 && z < 256 && m < 16
    ensures (m * 16 + y / 16) % 16 * 16 + (y % 16 * 4 + z / 64) / 4 == y
  {
  }

  lemma ThirdByte(z: nat, m: nat)
    requires z < 256 && m < 16
    ensures (m * 4 + z / 64) % 4 * 64 + z % 64 == z
  {
  }

  lemma {:induction false} DecodeEncodeOne(b: seq<byte>)
    requires |b| == 1
    ensures DecodeGroup(EncodeGroup(b)) == Some(b)
  {
    var x := b[0] as nat;
    var g := EncodeGroup(b);
    assert g == [Digit(x / 4), Digit(x % 4 * 16), '=', '='];
    DigitRoundTrip(x / 4);
    DigitRoundTrip(x % 4 * 16);
    FirstByte(x, 0);
    assert b == [b[0]];
  }

  lemma {:induction false} DecodeEncodeTwo(b: seq<byte>)
    requires |b| == 2
    ensures DecodeGroup(EncodeGroup(b)) == Some(b)
  {
    var x := b[0] as nat;
    var y := b[1] as nat;
    var g := EncodeGroup(b);
    assert g == [Digit(x / 4), Digit(x % 4 * 16 + y / 16), Digit(y % 16 * 4), '='];
    DigitRoundTrip(x / 4);
    DigitRoundTrip(x % 4 * 16 + y / 16);
    DigitRoundTrip(y % 16 * 4);
    FirstByte(x, y);
    SecondByte(y, 0, x % 4);
    assert b == [b[0], b[1]];
  }

  lemma {:induction false} DecodeEncodeThree(b: seq<byte>)
    requires |b| == 3
    ensures DecodeGroup(EncodeGroup(b)) == Some(b)
  {
    var x := b[0] as nat;
    var y := b[1] as nat;
    var z := b[2] as nat;
    var g := EncodeGroup(b);
    assert g == [Digit(x / 4), Digit(x % 4 * 16 + y / 16), Digit(y % 16 * 4 + z / 64), Digit(z % 64)];
    DigitRoundTrip(x / 4);
    DigitRoundTrip(x % 4 * 16 + y / 16);
    DigitRoundTrip(y % 16 * 4 + z / 64);
    DigitRoundTrip(z % 64);
    FirstByte(x, y);
    SecondByte(y, z, x % 4);
    ThirdByte(z, y % 16);
    assert b == [b[0], b[1], b[2]];
  }

  /** A group of four characters decodes back to the bytes it encodes. */
  lemma {:induction false} DecodeEncodeGroup(b: seq<byte>)
    requires 1 <= |b| <= 3
    ensures DecodeGroup(EncodeGroup(b)) == Some(b)
  {
    if |b| == 1 { DecodeEncodeOne(b); }
    else if |b| == 2 { DecodeEncodeTwo(b); }
    else { DecodeEncodeThree(b); }
  }

  /** Decoding undoes encoding. */
  lemma {:induction false} DecodeEncode(b: seq<byte>)
    ensures Decode(Encode(b)) == Some(b)
    decreases |b|
  {
    if |b| > 0 {
      var s := Encode(b);
      if |b| <= 3 {
        DecodeEncodeGroup(b);
        assert s[..4] == s;
        assert s[4..] == [];
        assert b + [] == b;
      } else {
        var g := EncodeGroup(b[..3]);
        DecodeEncodeGroup(b[..3]);
        assert s[..4] == g;
        assert s[4..] == Encode(b[3..]);
        DecodeEncode(b[3..]);
        assert b[..3] + b[3..] == b;
      }
    }
  }
}
