/**
 * Decimal rendering of integers, as Go's fmt verb %d and json.Marshal write
 * them, and the reading back of a run of decimal digits.
 */
module Decimal {
  import opened Wrappers

  predicate IsDigit(c: char) { '0' <= c <= '9' }

  predicate AllDigits(s: string) { forall i :: 0 <= i < |s| ==> IsDigit(s[i]) }

  function DigitChar(d: nat): (c: char)
    requires d < 10
    ensures IsDigit(c) && c as int - '0' as int == d
  {
    ('0' as int + d) as char
  }

  /** %d of a non-negative integer: no sign, no leading zero. */
  function NatToString(n: nat): (r: string)
    ensures |r| >= 1 && AllDigits(r)
    ensures r[0] == '0' ==> n == 0 && |r| == 1
    decreases n
  {
    if n < 10 then [DigitChar(n)] else NatToString(n / 10) + [DigitChar(n % 10)]
  }

  /** %d of any integer: a minus sign before the magnitude of a negative value. */
  function IntToString(i: int): (r: string)
    ensures |r| >= 1
    ensures i < 0 <==> r[0] == '-'
    ensures forall k :: 0 <= k < |r| ==> IsDigit(r[k]) || r[k] == '-'
  {
    if i < 0 then "-" + NatToString(-i) else NatToString(i)
  }

  /** The number a string of decimal digits denotes. */
  function DigitsValue(s: string): nat
    requires AllDigits(s)
  {
    if s == [] then 0 else DigitsValue(s[..|s| - 1]) * 10 + (s[|s| - 1] as int - '0' as int)
  }

  /** The length of the longest prefix of t made of digits. */
  function DigitRun(t: string): (k: nat)
    ensures k <= |t| && AllDigits(t[..k])
    ensures k < |t| ==> !IsDigit(t[k])
  {
    if |t| > 0 && IsDigit(t[0]) then
      var k := 1 + DigitRun(t[1..]);
      assert t[..k] == [t[0]] + t[1..][..k - 1];
      k
    else 0
  }

  /**
   * Reads the maximal run of digits at the front of t (at least one) and
   * returns its value with what follows it.
   */
  function ParseNat(t: string): (r: Option<(nat, string)>)
    ensures r.Some? ==> |r.value.1| < |t|
  {
    var k := DigitRun(t);
    if k == 0 then None else Some((DigitsValue(t[..k]), t[k..]))
  }

  /** Reads the string %d produces: an optional minus sign, then digits. */
  function ParseInt(t: string): (r: Option<(int, string)>)
    ensures r.Some? ==> |r.value.1| < |t|
  {
    if |t| > 0 && t[0] == '-' then
      var p := ParseNat(t[1..]);
      if p.None? then None else Some((-(p.value.0 as int), p.value.1))
    else
      var p := ParseNat(t);
      if p.None? then None else Some((p.value.0 as int, p.value.1))
  }

  /** What may follow a rendered number: nothing, or a character that is not a digit. */
  predicate EndsNumber(rest: string) { rest == [] || !IsDigit(rest[0]) }

  lemma {:induction false} NatToStringValue(n: nat)
    ensures DigitsValue(NatToString(n)) == n
    decreases n
  {
    if n >= 10 {
      var s := NatToString(n);
      assert s[..|s| - 1] == NatToString(n / 10);
      NatToStringValue(n / 10);
    }
  }

  lemma {:induction false} DigitRunAppend(s: string, rest: string)
    requires AllDigits(s) && EndsNumber(rest)
    ensures DigitRun(s + rest) == |s|
  {
    if s != [] {
      assert (s + rest)[1..] == s[1..] + rest;
      DigitRunAppend(s[1..], rest);
    } else {
      assert s + rest == rest;
    }
  }

  /** Reading back what NatToString wrote gives the number and leaves the rest. */
  lemma {:induction false} ParseNatToString(n: nat, rest: string)
    requires EndsNumber(rest)
    ensures ParseNat(NatToString(n) + rest) == Some((n, rest))
  {
    var s := NatToString(n);
    DigitRunAppend(s, rest);
    assert (s + rest)[..|s|] == s;
    assert (s + rest)[|s|..] == rest;
    NatToStringValue(n);
  }

  lemma {:induction false} ParseSigned(s: string, n: nat, rest: string)
    requires ParseNat(s + rest) == Some((n, rest))
    ensures ParseInt("-" + s + rest) == Some((-(n as int), rest))
  {
    var t := "-" + s + rest;
    assert t[1..] == s + rest;
  }

  lemma {:induction false} ParseUnsigned(s: string, n: nat, rest: string)
    requires |s| > 0 && IsDigit(s[0])
    requires ParseNat(s + rest) == Some((n, rest))
    ensures ParseInt(s + rest) == Some((n, rest))
  {
    assert (s + rest)[0] == s[0];
  }

  /** Reading back what IntToString wrote gives the integer and leaves the rest. */
  lemma {:induction false} ParseIntToString(i: int, rest: string)
    requires EndsNumber(rest)
    ensures ParseInt(IntToString(i) + rest) == Some((i, rest))
  {
    if i < 0 {
      ParseNatToString(-i, rest);
      ParseSigned(NatToString(-i), -i, rest);
    } else {
      ParseNatToString(i, rest);
      ParseUnsigned(NatToString(i), i, rest);
    }
  }
}
