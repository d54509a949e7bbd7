/** The slice of PSR-7 / PSR-15 that the middleware touches: a request with a
    method and header lines, a response that is a status plus a header map, and
    the next request handler. */
module Http {
  import opened Text

  /** A server request. Header names are stored lower-cased, so a lookup by any
      spelling of the name finds the same line. */
  datatype Request = Request(verb: string, headers: map<string, string>)

  /** `getHeaderLine($name)`: the header's value, or `''` when it is absent. */
  function HeaderLine(request: Request, name: string): (line: string)
    ensures ToLower(name) !in request.headers ==> line == ""
  {
    var key := ToLower(name);
    if key in request.headers then request.headers[key] else ""
  }

  /** Header values accumulated by the middleware before they are set on a response. */
  type Headers = map<string, string>

  /** A response: status code, reason phrase and every header's list of values. */
  datatype Response = Response(status: int, reason: string, headers: map<string, seq<string>>)

  /** `withHeader`: the header is replaced by the single given value. */
  function WithHeader(response: Response, name: string, value: string): Response
  {
    response.(headers := response.headers[name := [value]])
  }

  /** `withAddedHeader`: the value is appended to the header's existing values. */
  function WithAddedHeader(response: Response, name: string, value: string): (r: Response)
    ensures name in r.headers && |r.headers[name]| >= 1 && r.headers[name][|r.headers[name]| - 1] == value
    ensures name in response.headers ==> r.headers[name][..|r.headers[name]| - 1] == response.headers[name]
    ensures forall k :: k in response.headers && k != name ==> k in r.headers && r.headers[k] == response.headers[k]
    ensures r.headers.Keys == response.headers.Keys + {name}
    ensures r.status == response.status
  {
    var before := if name in response.headers then response.headers[name] else [];
    response.(headers := response.headers[name := before + [value]])
  }

  /** `withoutHeader`. */
  function WithoutHeader(response: Response, name: string): Response
  {
    response.(headers := response.headers - {name})
  }

  /** `withStatus`. */
  function WithStatus(response: Response, code: int, reason: string): Response
  {
    response.(status := code, reason := reason)
  }

  /** Every accumulated header set on the response, each with its single value;
      all other headers of the response are kept. */
  function WithHeaders(response: Response, headers: Headers): (r: Response)
    ensures forall k :: k in headers ==> k in r.headers && r.headers[k] == [headers[k]]
    ensures forall k :: k in response.headers && k !in headers ==> k in r.headers && r.headers[k] == response.headers[k]
    ensures r.headers.Keys == response.headers.Keys + headers.Keys
    ensures r.status == response.status && r.reason == response.reason
  {
    response.(headers := response.headers + map k | k in headers :: [headers[k]])
  }

  /** Sets each accumulated header on the response, one at a time. */
  method ApplyHeaders(response: Response, headers: Headers) returns (r: Response)
    ensures r == WithHeaders(response, headers)
  {
    r := response;
    var todo := headers.Keys;
    while todo != {}
      invariant todo <= headers.Keys
      invariant r == WithHeaders(response, headers - todo)
      decreases todo
    {
      var k :| k in todo;
      WithHeaderStep(response, headers - todo, k, headers[k]);
      assert (headers - todo)[k := headers[k]] == headers - (todo - {k});
      r := WithHeader(r, k, headers[k]);
      todo := todo - {k};
    }
    assert headers - {} == headers;
  }

  lemma WithHeaderStep(response: Response, done: Headers, k: string, v: string)
    ensures WithHeader(WithHeaders(response, done), k, v) == WithHeaders(response, done[k := v])
  {
    var lhs := WithHeader(WithHeaders(response, done), k, v).headers;
    var rhs := WithHeaders(response, done[k := v]).headers;
    assert lhs.Keys == rhs.Keys;
    forall key | key in lhs ensures lhs[key] == rhs[key] {
    }
    assert lhs == rhs;
  }

  /** The next request handler. It counts how often it is asked to handle a
      request, so that callers can state when the request reaches it. */
  class Handler {
    const respond: Request -> Response
    var calls: nat

    constructor(respond: Request -> Response)
      ensures this.respond == respond && calls == 0
    {
      this.respond := respond;
      calls := 0;
    }

    /** `$handler->handle($request)`. */
    method Handle(request: Request) returns (response: Response)
      modifies this
      ensures calls == old(calls) + 1
      ensures response == respond(request)
    {
      calls := calls + 1;
      response := respond(request);
    }
  }
}
