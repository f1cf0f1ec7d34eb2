/**
 * The HTTP response a handler writes to (Go's http.ResponseWriter), kept
 * as the sequence of calls made on it. net/http fixes the status at the
 * first call: WriteHeader(code) sends code, a Write before any WriteHeader
 * sends 200, and any WriteHeader after that is ignored. The body is what
 * the Write calls carried, in order.
 */
module Response {
  import opened Wrappers
  import opened Utf8

  datatype Call = HeaderCall(code: int) | BodyCall(data: seq<byte>)

  /** The status the client sees, None while nothing has been written. */
  function Status(calls: seq<Call>): (r: Option<int>)
    ensures r.None? <==> calls == []
    ensures calls != [] && calls[0].BodyCall? ==> r == Some(200)
  {
    if calls == [] then None
    else match calls[0]
      case HeaderCall(code) => Some(code)
      case BodyCall(_) => Some(200)
  }

  /** The body the client receives. */
  function Body(calls: seq<Call>): seq<byte>
  {
    if calls == [] then [] else
      (match calls[0] case HeaderCall(_) => [] case BodyCall(data) => data) + Body(calls[1..])
  }

  /** Whether any call sets the status explicitly. */
  predicate SetsStatus(calls: seq<Call>)
  {
    exists i :: 0 <= i < |calls| && calls[i].HeaderCall?
  }

  lemma AppendPair(a: seq<Call>, c1: Call, c2: Call)
    ensures a + [c1] + [c2] == a + [c1, c2]
  {
  }

  /** WriteHeader(code) then Write(data): status code, body data. */
  lemma {:induction false} HeaderThenBody(code: int, data: seq<byte>)
    ensures Status([HeaderCall(code), BodyCall(data)]) == Some(code)
    ensures Body([HeaderCall(code), BodyCall(data)]) == data
    ensures SetsStatus([HeaderCall(code), BodyCall(data)])
  {
    var calls := [HeaderCall(code), BodyCall(data)];
    assert calls[0].HeaderCall?;
    assert calls[1..] == [BodyCall(data)];
    BodyOnly(data);
  }

  /** A lone Write(data): status 200 by default, body data, no explicit status. */
  lemma {:induction false} BodyOnly(data: seq<byte>)
    ensures Status([BodyCall(data)]) == Some(200)
    ensures Body([BodyCall(data)]) == data
    ensures !SetsStatus([BodyCall(data)])
  {
    assert [BodyCall(data)][1..] == [];
    assert data + [] == data;
  }

  /** The recorded response of one request. */
  class ResponseWriter {
    var calls: seq<Call>

    constructor()
      ensures calls == []
    {
      calls := [];
    }

    /** Sends a status line; net/http refuses codes outside 100..999. */
    method WriteHeader(code: int)
      requires 100 <= code <= 999
      modifies this
      ensures calls == old(calls) + [HeaderCall(code)]
    {
      calls := calls + [HeaderCall(code)];
    }

    /** Appends to the body. */
    method Write(data: seq<byte>)
      modifies this
      ensures calls == old(calls) + [BodyCall(data)]
    {
      calls := calls + [BodyCall(data)];
    }
  }
}
