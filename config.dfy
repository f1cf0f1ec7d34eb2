/**
 * The service's settings (config.go): a port and a host read from a JSON
 * file, the port defaulting to 4321, and the listen address built from
 * them.
 */
module Config {
  import opened Wrappers
  import opened Utf8
  import opened Decimal
  import opened Json

  const DefaultPort := 4321
  const MinInt := -0x8000_0000_0000_0000
  const MaxInt := 0x7fff_ffff_ffff_ffff

  /** The outcome of reading the configuration file. */
  datatype FileRead = Found(data: seq<byte>) | Unreadable

  /** readConfigFile: the file's bytes, or "{}" when the file cannot be read. */
  function ReadConfigFile(r: FileRead): (data: seq<byte>)
    ensures r.Unreadable? ==> Unmarshal(data) == Some(Settings(0, ""))
  {
    match r
    case Found(data) => data
    case Unreadable =>
      assert Render(Object([])) == "{}";
      UnmarshalRendered([]);
      Encode("{}")
  }

  /** The fields of a Configer. */
  datatype Settings = Settings(port: int, host: string)

  function Lower(c: char): char
  {
    if 'A' <= c <= 'Z' then (c as int + 32) as char else c
  }

  /** Key matching of encoding/json: equal up to ASCII case. */
  predicate FoldEq(a: string, b: string)
  {
    |a| == |b| && forall i :: 0 <= i < |a| ==> Lower(a[i]) == Lower(b[i])
  }

  /**
   * One member of the configuration object. "port" takes an integer that
   * fits Go's int and "host" a string; null leaves the field as it is; any
   * other value is an error; other keys are ignored.
   */
  function ApplyMember(s: Settings, m: Member): (r: Option<Settings>)
    ensures r.Some? && MinInt <= s.port <= MaxInt ==> MinInt <= r.value.port <= MaxInt
    ensures r.Some? && !FoldEq(m.key, "port") ==> r.value.port == s.port
    ensures r.Some? && !FoldEq(m.key, "host") ==> r.value.host == s.host
  {
    if FoldEq(m.key, "port") then
      match m.value
      case Null => Some(s)
      case Number(n) => if MinInt <= n <= MaxInt then Some(s.(port := n)) else None
      case _ => None
    else if FoldEq(m.key, "host") then
      match m.value
      case Null => Some(s)
      case Str(h) => Some(s.(host := h))
      case _ => None
    else Some(s)
  }

  /** The members in order, so a repeated key takes its last value. */
  function ApplyMembers(s: Settings, ms: seq<Member>): (r: Option<Settings>)
    ensures r.Some? && MinInt <= s.port <= MaxInt ==> MinInt <= r.value.port <= MaxInt
    decreases |ms|
  {
    if ms == [] then Some(s)
    else
      var t := ApplyMember(s, ms[0]);
      if t.None? then None else ApplyMembers(t.value, ms[1..])
  }

  /**
   * json.Unmarshal into a zero Configer; None where NewConfiger panics.
   * Only valid UTF-8 holding a JSON object or null decodes, and a decoded
   * port always fits Go's int.
   */
  function Unmarshal(data: seq<byte>): (r: Option<Settings>)
    ensures r.Some? ==> Decode(data).Some? && Parse(Decode(data).value).Some?
    ensures r.Some? ==> Parse(Decode(data).value).value.Null? || Parse(Decode(data).value).value.Object?
    ensures r.Some? ==> MinInt <= r.value.port <= MaxInt
  {
    var text := Decode(data);
    if text.None? then None
    else
      var j := Parse(text.value);
      if j.None? then None
      else match j.value
        case Null => Some(Settings(0, ""))
        case Object(ms) => ApplyMembers(Settings(0, ""), ms)
        case _ => None
  }

  /** The port GetPort reports for a stored port. */
  function EffectivePort(port: int): (p: int)
    ensures p != 0
    ensures port != 0 ==> p == port
  {
    if port == 0 then DefaultPort else port
  }

  /** The address text "%s:%d", which splits back into its host and port. */
  function Addr(host: string, port: int): (a: string)
    ensures SplitAddr(a) == Some((host, port))
  {
    SplitAddrRoundTrip(host, port);
    host + ":" + IntToString(port)
  }

  /** The index of the last ':' in a, if any. */
  function LastColon(a: string): (r: Option<nat>)
    ensures r.Some? ==> r.value < |a| && a[r.value] == ':' && ':' !in a[r.value + 1..]
    ensures r.None? ==> ':' !in a
  {
    if a == [] then None
    else if a[|a| - 1] == ':' then Some(|a| - 1)
    else
      var r := LastColon(a[..|a| - 1]);
      assert a[..|a| - 1] + [a[|a| - 1]] == a;
      if r.None? then None
      else
        assert a[r.value + 1..] == a[..|a| - 1][r.value + 1..] + [a[|a| - 1]];
        Some(r.value)
  }

  /** Splits an address at its last ':' into the host and the port. */
  function SplitAddr(a: string): Option<(string, int)>
  {
    var k := LastColon(a);
    if k.None? then None
    else
      var p := ParseInt(a[k.value + 1..]);
      if p.None? || p.value.1 != [] then None else Some((a[..k.value], p.value.0))
  }

  lemma {:induction false} AddrShape(host: string, digits: string)
    requires ':' !in digits
    ensures LastColon(host + ":" + digits) == Some(|host|)
    decreases |digits|
  {
    var a := host + ":" + digits;
    if digits == [] {
      assert a[|a| - 1] == ':';
    } else {
      assert a[|a| - 1] == digits[|digits| - 1] != ':';
      assert a[..|a| - 1] == host + ":" + digits[..|digits| - 1];
      AddrShape(host, digits[..|digits| - 1]);
    }
  }

  /** An address splits back into the host and port it was made from, whatever ':' the host holds. */
  lemma {:induction false} SplitAddrRoundTrip(host: string, port: int)
    ensures SplitAddr(host + ":" + IntToString(port)) == Some((host, port))
  {
    var digits := IntToString(port);
    assert ':' !in digits;
    AddrShape(host, digits);
    var a := host + ":" + digits;
    assert a[|host| + 1..] == digits + [];
    assert a[..|host|] == host;
    ParseIntToString(port, []);
  }

  /** Reading the GetPort result again changes nothing. */
  lemma EffectivePortIdempotent(port: int)
    ensures EffectivePort(EffectivePort(port)) == EffectivePort(port)
  {
  }

  /** A configuration object written as JSON text is decoded member by member. */
  lemma {:induction false} UnmarshalRendered(ms: seq<Member>)
    ensures Unmarshal(Encode(Render(Object(ms)))) == ApplyMembers(Settings(0, ""), ms)
  {
    var text := Render(Object(ms));
    DecodeEncode(text);
    ParseRenderText(Object(ms));
  }

  /** Without a configuration file the settings are zero, so the address is ":4321". */
  lemma {:induction false} NoConfigFile()
    ensures Unmarshal(ReadConfigFile(Unreadable)) == Some(Settings(0, ""))
    ensures Addr("", EffectivePort(0)) == ":4321"
  {
    assert NatToString(4) == "4";
    assert NatToString(43) == "43";
    assert NatToString(432) == "432";
    assert NatToString(4321) == "4321";
  }

  /** The document {"port":p,"host":h}. */
  function ConfigDocument(port: int, host: string): Json
  {
    Object([Member("port", Number(port)), Member("host", Str(host))])
  }

  lemma {:induction false} ApplyConfigDocument(port: int, host: string)
    requires MinInt <= port <= MaxInt
    ensures ApplyMembers(Settings(0, ""), ConfigDocument(port, host).members) == Some(Settings(port, host))
  {
    var ms := ConfigDocument(port, host).members;
    assert FoldEq("port", "port");
    assert !FoldEq("host", "port") by { assert Lower("host"[0]) != Lower("port"[0]); }
    assert FoldEq("host", "host");
    var s1 := Settings(port, "");
    assert ApplyMember(Settings(0, ""), ms[0]) == Some(s1);
    assert ms[1..][0] == Member("host", Str(host));
    assert ApplyMember(s1, ms[1..][0]) == Some(Settings(port, host));
    assert ms[1..][1..] == [];
    assert ApplyMembers(s1, ms[1..]) == ApplyMembers(Settings(port, host), []);
  }

  /**
   * A file holding {"port":p,"host":h}, with p a Go int, gives those
   * settings; unless p is 0 the address is h:p.
   */
  lemma {:induction false} ConfigFileRead(port: int, host: string)
    requires MinInt <= port <= MaxInt
    ensures Unmarshal(Encode(Render(ConfigDocument(port, host)))) == Some(Settings(port, host))
    ensures port != 0 ==> Addr(host, EffectivePort(port)) == host + ":" + IntToString(port)
  {
    UnmarshalRendered(ConfigDocument(port, host).members);
    ApplyConfigDocument(port, host);
  }

  /** The settings object; its methods are the Configer methods. */
  class Configer {
    var port: int
    var host: string

    constructor(s: Settings)
      ensures port == s.port && host == s.host
    {
      port := s.port;
      host := s.host;
    }

    /** Reports the port, storing 4321 first when it is 0. */
    method GetPort() returns (p: int)
      modifies this
      ensures port == EffectivePort(old(port)) && p == port && host == old(host)
    {
      if port == 0 {
        port := DefaultPort;
      }
      p := port;
    }

    method GetHost() returns (h: string)
      ensures h == host
    {
      h := host;
    }

    /** "host:port", after GetPort's defaulting. */
    method GetAddr() returns (a: string)
      modifies this
      ensures port == EffectivePort(old(port)) && host == old(host)
      ensures a == Addr(host, port) && SplitAddr(a) == Some((host, port))
    {
      var h := GetHost();
      var p := GetPort();
      a := h + ":" + IntToString(p);
      SplitAddrRoundTrip(h, p);
    }
  }

  /** NewConfiger: the decoded settings, or null where the Go code panics on a decoding error. */
  method NewConfiger(data: seq<byte>) returns (c: Configer?)
    ensures Unmarshal(data).None? <==> c == null
    ensures c != null ==> fresh(c) && c.port == Unmarshal(data).value.port && c.host == Unmarshal(data).value.host
  {
    var s := Unmarshal(data);
    if s.None? {
      return null;
    }
    c := new Configer(s.value);
  }
}
