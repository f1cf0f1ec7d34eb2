/**
 * The response helper of main.go: a Handler holds the response writer and
 * a content-type mode, and writes values, whole files, or an error
 * envelope to the response.
 *
 * Each method is specified by a pure function giving the calls it makes on
 * the response writer; the lemmas below state what those calls mean for the
 * status and the body the client receives.
 */
module Handlers {
  import opened Wrappers
  import opened Utf8
  import Json
  import Base64
  import opened Errors
  import opened Response
  import opened Files

  const ApplicationJson := "application/json"
  const ApplicationType := "application/type"
  const PlainText := "plain/text"
  const ServerError := "server error"

  /** A value handed to Write: a byte slice, or any other value encoding/json can marshal. */
  datatype Value = Bytes(data: seq<byte>) | Data(json: Json.Json)

  /** The error a handler method returns: one of the catalogued errors, or a read error passed through. */
  datatype Failure = Coded(e: E) | ReadError(cause: string)

  /**
   * The JSON document json.Marshal makes of a value; a byte slice becomes a
   * base64 string (a nil slice, which Go writes as null, is not told apart
   * from the empty one).
   */
  function ToJson(v: Value): Json.Json
  {
    match v
    case Bytes(b) => Json.Str(Base64.Encode(b))
    case Data(j) => j
  }

  /** json.Marshal: the value's JSON text, UTF-8 encoded. */
  function Marshal(v: Value): seq<byte>
  {
    Encode(Json.Render(ToJson(v)))
  }

  /** json.Unmarshal into a byte slice (asBytes) or into an untyped value. */
  function Unmarshal(data: seq<byte>, asBytes: bool): Option<Value>
  {
    var text := Decode(data);
    if text.None? then None
    else
      var j := Json.Parse(text.value);
      if j.None? then None
      else if !asBytes then Some(Data(j.value))
      else if !j.value.Str? then None
      else
        var b := Base64.Decode(j.value.s);
        if b.None? then None else Some(Bytes(b.value))
  }

  /** Marshalled values read back as themselves. */
  lemma {:induction false} UnmarshalMarshal(v: Value)
    ensures Unmarshal(Marshal(v), v.Bytes?) == Some(v)
  {
    DecodeEncode(Json.Render(ToJson(v)));
    Json.ParseRenderText(ToJson(v));
    if v.Bytes? {
      Base64.DecodeEncode(v.data);
    }
  }

  /** The error body: json.Marshal of the map {"msg", "code"}, whose keys encoding/json writes sorted. */
  function Envelope(e: E): (j: Json.Json)
    ensures j.Object? && |j.members| == 2
    ensures Json.Lookup(j.members, "code") == Some(Json.Number(e.code as int))
    ensures Json.Lookup(j.members, "msg") == Some(Json.Str(e.msg))
  {
    var ms := [Json.Member("code", Json.Number(e.code as int)), Json.Member("msg", Json.Str(e.msg))];
    assert ms[1..][1..] == [];
    assert ms[1..][0].key == "msg" != "code";
    assert ms[0].key == "code" != "msg";
    Json.Object(ms)
  }

  /** Reads an error envelope back: a JSON object with a uint32 "code" and a string "msg". */
  function ReadEnvelope(body: seq<byte>): Option<E>
  {
    var text := Decode(body);
    if text.None? then None
    else
      var j := Json.Parse(text.value);
      if j.None? || !j.value.Object? then None
      else
        var code := Json.Lookup(j.value.members, "code");
        var msg := Json.Lookup(j.value.members, "msg");
        if code.None? || msg.None? || !code.value.Number? || !msg.value.Str? then None
        else if !(0 <= code.value.n < 0x1_0000_0000) then None
        else Some(E(msg.value.s, code.value.n as uint32))
  }

  // ---------------------------------------------------------------------------
  // The calls each method makes

  lemma ModesDiffer()
    ensures ApplicationType != PlainText && ApplicationJson != ApplicationType && ApplicationJson != PlainText
  {
    assert ApplicationType[0] != PlainText[0];
    assert ApplicationJson[12] != ApplicationType[12];
    assert ApplicationJson[0] != PlainText[0];
  }

  /** Whether Write accepts the mode. */
  predicate Supported(mode: string) { mode == ApplicationType || mode == PlainText }

  /** The status Write sets in a mode. */
  function WriteStatus(mode: string): int
  {
    if Supported(mode) then 200 else 500
  }

  /** The body Write sends in a mode; in "plain/text" the value must be a byte slice. */
  function WriteBody(mode: string, val: Value): seq<byte>
    requires mode == PlainText ==> val.Bytes?
  {
    if mode == ApplicationType then Marshal(val)
    else if mode == PlainText then val.data
    else Encode(ServerError)
  }

  /** The calls Write makes: always one WriteHeader, then one Write. */
  function WriteCalls(mode: string, val: Value): seq<Call>
    requires mode == PlainText ==> val.Bytes?
  {
    [HeaderCall(WriteStatus(mode)), BodyCall(WriteBody(mode, val))]
  }

  function WriteResult(mode: string): Option<Failure>
  {
    if Supported(mode) then None else Some(Coded(ErrNotSupportedType))
  }

  /** The calls Writefile makes after reading its input. */
  function WritefileCalls(read: ReadOutcome): seq<Call>
  {
    match read
    case ReadOk(data) => [HeaderCall(200), BodyCall(data)]
    case ReadFailed(_) => []
  }

  function WritefileResult(read: ReadOutcome): Option<Failure>
  {
    match read
    case ReadOk(_) => None
    case ReadFailed(cause) => Some(ReadError(cause))
  }

  /** The calls Error makes; a nil error stands for ErrOK. */
  function ErrorCalls(ec: Option<E>): seq<Call>
  {
    var e := if ec.None? then ErrOK else ec.value;
    [BodyCall(Encode(Json.Render(Envelope(e))))]
  }

  // ---------------------------------------------------------------------------
  // What the client receives

  /** In a supported mode, Write answers 200 with the value as the body: its bytes in "plain/text", its JSON text otherwise. */
  lemma WriteServes(mode: string, val: Value)
    requires Supported(mode) && (mode == PlainText ==> val.Bytes?)
    ensures Status(WriteCalls(mode, val)) == Some(200)
    ensures mode == PlainText ==> Body(WriteCalls(mode, val)) == val.data
    ensures mode == ApplicationType ==> Unmarshal(Body(WriteCalls(mode, val)), val.Bytes?) == Some(val)
    ensures WriteResult(mode) == None
  {
    if mode == ApplicationType {
      HeaderThenBody(200, Marshal(val));
      UnmarshalMarshal(val);
    } else {
      HeaderThenBody(200, val.data);
    }
  }

  /**
   * In any other mode, including the default "application/json", Write
   * answers 500 with "server error" and returns ErrNotSupportedType,
   * whatever the value.
   */
  lemma WriteRefuses(mode: string, val: Value)
    requires !Supported(mode)
    ensures Status(WriteCalls(mode, val)) == Some(500)
    ensures Body(WriteCalls(mode, val)) == Encode(ServerError)
    ensures WriteResult(mode) == Some(Coded(ErrNotSupportedType))
  {
    HeaderThenBody(500, Encode(ServerError));
  }

  /** A fresh handler's mode is not one Write accepts. */
  lemma DefaultModeRefused()
    ensures !Supported(ApplicationJson)
    ensures WriteResult(ApplicationJson) == Some(Coded(ErrNotSupportedType))
  {
  }

  /**
   * Writefile writes nothing at all when reading fails, and otherwise
   * answers 200 with exactly the bytes read.
   */
  lemma WritefileEffect(read: ReadOutcome)
    ensures read.ReadFailed? ==> WritefileCalls(read) == [] && WritefileResult(read) == Some(ReadError(read.cause))
    ensures read.ReadOk? ==>
      Status(WritefileCalls(read)) == Some(200) && Body(WritefileCalls(read)) == read.data && WritefileResult(read) == None
  {
    if read.ReadOk? {
      HeaderThenBody(200, read.data);
    }
  }

  /** An envelope's body reads back as the error it was made from. */
  lemma {:induction false} ReadEnvelopeRoundTrip(e: E)
    ensures ReadEnvelope(Encode(Json.Render(Envelope(e)))) == Some(e)
  {
    var text := Json.Render(Envelope(e));
    DecodeEncode(text);
    Json.ParseRenderText(Envelope(e));
  }

  /**
   * Error never sets the status itself (so the client sees 200), treats nil
   * as ErrOK, and its body is a JSON object carrying exactly the error's
   * code and message.
   */
  lemma {:induction false} ErrorEnvelope(ec: Option<E>)
    ensures ErrorCalls(None) == ErrorCalls(Some(ErrOK))
    ensures !SetsStatus(ErrorCalls(ec)) && Status(ErrorCalls(ec)) == Some(200)
    ensures ReadEnvelope(Body(ErrorCalls(ec))) == Some(if ec.None? then ErrOK else ec.value)
  {
    var e := if ec.None? then ErrOK else ec.value;
    BodyOnly(Encode(Json.Render(Envelope(e))));
    ReadEnvelopeRoundTrip(e);
  }

  // ---------------------------------------------------------------------------
  // The handler

  class Handler {
    const w: ResponseWriter
    var contentType: string

    /** NewHandler: a handler on w in the "application/json" mode. */
    constructor(w: ResponseWriter)
      ensures this.w == w && contentType == ApplicationJson
    {
      this.w := w;
      contentType := ApplicationJson;
    }

    /** Changes the mode and nothing else, and returns the same handler. */
    method SetResponseType(contentType: string) returns (h: Handler)
      modifies this
      ensures h == this && this.contentType == contentType
    {
      this.contentType := contentType;
      h := this;
    }

    method Write(val: Value) returns (err: Option<Failure>)
      requires contentType == PlainText ==> val.Bytes?
      modifies w
      ensures w.calls == old(w.calls) + WriteCalls(contentType, val)
      ensures err == WriteResult(contentType)
    {
      ModesDiffer();
      ghost var before := w.calls;
      ghost var expected := WriteCalls(contentType, val);
      // Every mode ends in one WriteHeader and one Write; the modes differ
      // only in the status, the bytes and the error returned.
      var status: int;
      var data: seq<byte>;
      if contentType == ApplicationType {
        status, data, err := 200, Marshal(val), None;
      } else if contentType == PlainText {
        status, data, err := 200, val.data, None;
      } else {
        status, data, err := 500, Encode(ServerError), Some(Coded(ErrNotSupportedType));
      }
      assert expected == [HeaderCall(status), BodyCall(data)];
      w.WriteHeader(status);
      w.Write(data);
      AppendPair(before, HeaderCall(status), BodyCall(data));
    }

    /** Reads the whole input, then writes it as the body. */
    method Writefile(reader: File) returns (err: Option<Failure>)
      requires !reader.closed
      modifies w
      ensures w.calls == old(w.calls) + WritefileCalls(ReadOf(reader.entry))
      ensures err == WritefileResult(ReadOf(reader.entry))
    {
      var read := reader.ReadAll();
      if read.ReadFailed? {
        return Some(ReadError(read.cause));
      }
      w.WriteHeader(200);
      w.Write(read.data);
      return None;
    }

    method Error(ec: Option<E>)
      modifies w
      ensures w.calls == old(w.calls) + ErrorCalls(ec)
    {
      var e := if ec.None? then ErrOK else ec.value;
      var data := Encode(Json.Render(Envelope(e)));
      w.Write(data);
    }
  }
}
