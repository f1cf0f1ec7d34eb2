/**
 * The service's error values (main.go): a numeric code and a message, the
 * fixed catalog of four, and the text an error prints as.
 */
module Errors {
  import opened Wrappers
  import opened Decimal

  /** Go's uint32. */
  newtype uint32 = x: int | 0 <= x < 0x1_0000_0000

  /** Go's E: a message and a code. */
  datatype E = E(msg: string, code: uint32)

  function NewE(code: uint32, msg: string): (e: E)
    ensures e.code == code && e.msg == msg
  {
    E(msg, code)
  }

  /** Code 0, "success". */
  const ErrOK: E := NewE(0, "\U{6210}\U{529F}")
  /** Code 1, "invalid file path". */
  const ErrFilePathInvalid: E := NewE(1, "\U{6587}\U{4EF6}\U{8DEF}\U{5F84}\U{4E0D}\U{5408}\U{6CD5}")
  /** Code 2, "response type not supported". */
  const ErrNotSupportedType: E := NewE(2, "\U{4E0D}\U{652F}\U{6301}\U{54CD}\U{5E94}\U{7C7B}\U{578B}")
  /** Code 3, "internal server error". */
  const ErrServerInternalError: E := NewE(3, "\U{670D}\U{52A1}\U{5668}\U{5185}\U{90E8}\U{5F02}\U{5E38}")

  /** The four catalogued errors. */
  datatype Kind = OK | FilePathInvalid | NotSupportedType | ServerInternalError

  function Catalog(k: Kind): E
  {
    match k
    case OK => ErrOK
    case FilePathInvalid => ErrFilePathInvalid
    case NotSupportedType => ErrNotSupportedType
    case ServerInternalError => ErrServerInternalError
  }

  /** The catalogued error with a given code, if any. */
  function KindOf(code: uint32): (r: Option<Kind>)
    ensures r.Some? ==> Catalog(r.value).code == code
    ensures r.None? <==> code > 3
  {
    if code == 0 then Some(OK)
    else if code == 1 then Some(FilePathInvalid)
    else if code == 2 then Some(NotSupportedType)
    else if code == 3 then Some(ServerInternalError)
    else None
  }

  /** The catalog's codes are 0, 1, 2, 3 and tell its errors apart. */
  lemma CatalogCodes(k: Kind)
    ensures Catalog(k).code as int == match k case OK => 0 case FilePathInvalid => 1
      case NotSupportedType => 2 case ServerInternalError => 3
    ensures KindOf(Catalog(k).code) == Some(k)
    ensures Catalog(k).msg != []
  {
  }

  const Prefix := "error("
  const Separator := "): "

  /** E.Error: "error(<code>): <msg>", with the code in decimal. */
  function ErrorString(e: E): (r: string)
    ensures Prefix <= r
    ensures |r| > |Prefix| + |Separator| + |e.msg| && r[|r| - |e.msg|..] == e.msg
  {
    var digits := NatToString(e.code as nat);
    ErrorStringShape(digits, e.msg);
    var r := "error(" + digits + "): " + e.msg;
    assert r[|r| - |e.msg|..] == e.msg;
    r
  }

  /** Reads back the text ErrorString writes. */
  function ParseErrorString(s: string): (r: Option<E>)
    ensures r.Some? ==> Prefix <= s && |r.value.msg| <= |s| && s[|s| - |r.value.msg|..] == r.value.msg
  {
    if |s| < |Prefix| || s[..|Prefix|] != Prefix then None
    else
      var p := ParseNat(s[|Prefix|..]);
      if p.None? then None
      else
        var code := p.value.0;
        var rest := p.value.1;
        if code >= 0x1_0000_0000 || |rest| < |Separator| || rest[..|Separator|] != Separator then None
        else Some(E(rest[|Separator|..], code as uint32))
  }

  /** A shape fact: the pieces of an error string sit where the parser looks for them. */
  lemma ErrorStringShape(digits: string, msg: string)
    ensures var s := "error(" + digits + "): " + msg;
      |s| >= 6 && s[..6] == Prefix && s[6..] == digits + ("): " + msg)
  {
    var s := "error(" + digits + "): " + msg;
    assert s == Prefix + (digits + ("): " + msg));
  }

  /** Every error string reads back as the error that printed it. */
  lemma {:induction false} ParseErrorStringRoundTrip(e: E)
    ensures ParseErrorString(ErrorString(e)) == Some(e)
  {
    var digits := NatToString(e.code as nat);
    var tail := "): " + e.msg;
    ErrorStringShape(digits, e.msg);
    assert tail[..3] == Separator && tail[3..] == e.msg;
    ParseNatToString(e.code as nat, tail);
  }
}
