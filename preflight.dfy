/** The preflight handler: an OPTIONS request of a CORS client is checked for
    its requested method and headers against the configured ones; when both are
    allowed, the accumulated headers, the max-age and `Vary: Origin` are set on
    an empty 204 response. */
module Preflight {
  import opened Text
  import opened Http
  import opened Settings
  import opened Exceptions
  import opened Parse

  const AllowMethodsHeader := "Access-Control-Allow-Methods"
  const AllowHeadersHeader := "Access-Control-Allow-Headers"
  const MaxAgeHeader := "Access-Control-Max-Age"

  /** The allowed methods as a list: upper-cased, cut at commas, trimmed. */
  function MethodList(allowMethods: string): seq<string>
  {
    Pieces(ToUpper(allowMethods))
  }

  /** A header list as compared: lower-cased, cut at commas, trimmed. */
  function HeaderList(headers: string): seq<string>
  {
    Pieces(ToLower(headers))
  }

  /** Every requested header is one of the allowed ones. */
  predicate AllAllowed(requested: seq<string>, allowed: seq<string>)
  {
    forall h :: h in requested ==> h in allowed
  }

  /** `accessControlAllowMethods`: the header map with the allowed methods added,
      or the rejection. No configured methods is a configuration error whatever
      the request asks; an empty requested method is refused; a requested method
      is allowed exactly when its upper-cased form is one of the configured ones,
      and then only the Allow-Methods header is added, with the configured text. */
  function AllowMethods(settings: SettingsMap, request: Request, headers: Headers): (r: Result<Headers>)
    ensures var allow := ParseItem(settings, "allowMethods", request, false);
      var requested := HeaderLine(request, "access-control-request-method");
      && (allow.Err? ==> r == Err(allow.error))
      && (allow == Ok("") ==> r == Err(NoMethodsConfigured))
      && (allow.Ok? && allow.value != "" && requested == "" ==> r == Err(Rejected(NoMethod, "", [])))
      && (r.Ok? <==> allow.Ok? && allow.value != "" && requested != "" && ToUpper(requested) in MethodList(allow.value))
      && (allow.Ok? && allow.value != "" && requested != "" && ToUpper(requested) !in MethodList(allow.value) ==>
            r == Err(Rejected(MethodNotAllowed, ToUpper(requested), MethodList(allow.value))))
      && (r.Ok? ==>
            && r.value.Keys == headers.Keys + {AllowMethodsHeader}
            && r.value[AllowMethodsHeader] == allow.value
            && forall k :: k in headers && k != AllowMethodsHeader ==> r.value[k] == headers[k])
  {
    match ParseItem(settings, "allowMethods", request, false)
    case Err(e) => Err(e)
    case Ok(allow) =>
      if allow == "" then Err(NoMethodsConfigured)
      else
        var requested := HeaderLine(request, "access-control-request-method");
        if requested == "" then Err(Rejected(NoMethod, "", []))
        else if ToUpper(requested) !in MethodList(allow) then
          Err(Rejected(MethodNotAllowed, ToUpper(requested), MethodList(allow)))
        else Ok(headers[AllowMethodsHeader := allow])
  }

  /** `accessControlRequestHeaders`: the header map with the allowed headers
      added, or the rejection. With no requested headers the configured list
      (even an empty one) is sent back; requested headers against an empty
      configuration are refused with the raw request; otherwise the request is
      allowed exactly when each requested header, lower-cased and trimmed, is
      configured, and the refusal lists the configured headers as compared. */
  function AllowHeaders(settings: SettingsMap, request: Request, headers: Headers): (r: Result<Headers>)
    ensures var allow := ParseItem(settings, "allowHeaders", request, false);
      var requested := HeaderLine(request, "access-control-request-headers");
      && (allow.Err? ==> r == Err(allow.error))
      && (allow.Ok? && requested == "" ==> r == Ok(headers[AllowHeadersHeader := allow.value]))
      && (allow == Ok("") && requested != "" ==> r == Err(Rejected(NoHeadersAllowed, requested, [])))
      && (allow.Ok? && allow.value != "" && requested != "" ==>
            && (r.Ok? <==> forall h :: h in HeaderList(requested) ==> h in HeaderList(allow.value))
            && (r.Err? ==> r == Err(Rejected(HeaderNotAllowed, requested, HeaderList(allow.value)))))
      && (r.Ok? ==> r.value == headers[AllowHeadersHeader := allow.value])
  {
    match ParseItem(settings, "allowHeaders", request, false)
    case Err(e) => Err(e)
    case Ok(allow) =>
      var requested := HeaderLine(request, "access-control-request-headers");
      if requested == "" then Ok(headers[AllowHeadersHeader := allow])
      else if allow == "" then Err(Rejected(NoHeadersAllowed, requested, []))
      else if !AllAllowed(HeaderList(requested), HeaderList(allow)) then
        Err(Rejected(HeaderNotAllowed, requested, HeaderList(allow)))
      else Ok(headers[AllowHeadersHeader := allow])
  }

  /** The max-age step: the single `maxAge` setting, added as a header only
      when it reads as a number above 0, and then holding that number. */
  function WithMaxAge(settings: SettingsMap, request: Request, headers: Headers): (r: Result<Headers>)
    ensures var maxAge := ParseItem(settings, "maxAge", request, true);
      && (r.Ok? <==> maxAge.Ok?)
      && (maxAge.Err? ==> r == Err(maxAge.error))
      && (r.Ok? && ParseInt(maxAge.value).Some? && ParseInt(maxAge.value).value > 0 ==>
            r.value == headers[MaxAgeHeader := IntToString(ParseInt(maxAge.value).value)])
      && (r.Ok? && !(ParseInt(maxAge.value).Some? && ParseInt(maxAge.value).value > 0) ==> r.value == headers)
  {
    match ParseItem(settings, "maxAge", request, true)
    case Err(e) => Err(e)
    case Ok(maxAge) =>
      match ParseInt(maxAge)
      case Some(n) => if n > 0 then Ok(headers[MaxAgeHeader := IntToString(n)]) else Ok(headers)
      case None => Ok(headers)
  }

  /** The response a successful preflight returns: every accumulated header set,
      `Vary: Origin` appended unless the origin is `*`, status 204 and no
      Content-Type or Content-Length. */
  function Finalise(response: Response, headers: Headers, origin: string): (r: Response)
    ensures r.status == 204 && r.reason == "No Content"
    ensures "Content-Type" !in r.headers && "Content-Length" !in r.headers
    ensures forall k :: k in headers && k != "Content-Type" && k != "Content-Length" && k != "Vary" ==>
      k in r.headers && r.headers[k] == [headers[k]]
    ensures forall k :: k in response.headers && k !in headers && k != "Content-Type" && k != "Content-Length" && k != "Vary" ==>
      k in r.headers && r.headers[k] == response.headers[k]
    ensures origin != "*" ==> "Vary" in r.headers && |r.headers["Vary"]| >= 1 && r.headers["Vary"][|r.headers["Vary"]| - 1] == "Origin"
    ensures origin == "*" ==> r.headers == WithHeaders(response, headers).headers - {"Content-Type", "Content-Length"}
  {
    var applied := WithHeaders(response, headers);
    var varied := if origin != "*" then WithAddedHeader(applied, "Vary", "Origin") else applied;
    WithoutHeader(WithoutHeader(WithStatus(varied, 204, "No Content"), "Content-Type"), "Content-Length")
  }

  /** `__invoke($settings, $request, $response, $headers, $origin)`: the methods
      check, then the headers check, then max-age, then the finished response;
      the first step that fails decides the result. */
  function Outcome(settings: SettingsMap, request: Request, response: Response, headers: Headers, origin: string): (r: Result<Response>)
    ensures AllowMethods(settings, request, headers).Err? ==> r == Err(AllowMethods(settings, request, headers).error)
    ensures r.Ok? ==> r.value.status == 204 && "Content-Type" !in r.value.headers && "Content-Length" !in r.value.headers
    ensures r.Ok? && origin != "*" ==> "Vary" in r.value.headers
    ensures r.Err? ==> r.error == NoMethodsConfigured || r.error.Rejected? || ParseItem(settings, "allowMethods", request, false).Err?
                       || ParseItem(settings, "allowHeaders", request, false).Err? || ParseItem(settings, "maxAge", request, true).Err?
  {
    match AllowMethods(settings, request, headers)
    case Err(e) => Err(e)
    case Ok(withMethods) =>
      match AllowHeaders(settings, request, withMethods)
      case Err(e) => Err(e)
      case Ok(withHeaders) =>
        match WithMaxAge(settings, request, withHeaders)
        case Err(e) => Err(e)
        case Ok(withMaxAge) => Ok(Finalise(response, withMaxAge, origin))
  }

  // ---------------------------------------------------------------------------
  // What the negotiation promises

  /** The requested method is compared without regard to case: two requests
      whose method headers upper-case alike get the same answer. */
  lemma AllowMethodsIgnoresCase(settings: SettingsMap, request: Request, other: Request, headers: Headers)
    requires "allowMethods" in settings ==> !settings["allowMethods"].Callback?
    requires ToUpper(HeaderLine(request, "access-control-request-method")) ==
             ToUpper(HeaderLine(other, "access-control-request-method"))
    ensures AllowMethods(settings, request, headers) == AllowMethods(settings, other, headers)
  {
    var m := HeaderLine(request, "access-control-request-method");
    var n := HeaderLine(other, "access-control-request-method");
    assert |m| == |n|;
  }

  /** The headers the three preflight steps accumulate: both allow lists are
      set, and every header handed in other than those and the max age is kept. */
  lemma AccumulatedHeaders(settings: SettingsMap, request: Request, headers: Headers)
    requires AllowMethods(settings, request, headers).Ok?
    requires AllowHeaders(settings, request, AllowMethods(settings, request, headers).value).Ok?
    requires WithMaxAge(settings, request, AllowHeaders(settings, request, AllowMethods(settings, request, headers).value).value).Ok?
    ensures var h := WithMaxAge(settings, request, AllowHeaders(settings, request, AllowMethods(settings, request, headers).value).value).value;
      && AllowMethodsHeader in h && h[AllowMethodsHeader] == ParseItem(settings, "allowMethods", request, false).value
      && AllowHeadersHeader in h && h[AllowHeadersHeader] == ParseItem(settings, "allowHeaders", request, false).value
      && forall k :: k in headers && k != AllowMethodsHeader && k != AllowHeadersHeader && k != MaxAgeHeader ==> k in h && h[k] == headers[k]
  {
    var withMethods := AllowMethods(settings, request, headers).value;
    var withHeaders := AllowHeaders(settings, request, withMethods).value;
    assert withHeaders == withMethods[AllowHeadersHeader := ParseItem(settings, "allowHeaders", request, false).value];
  }

  /** The reply built from the accumulated headers: 204, no body headers, both
      allow lists, the headers handed in kept, and `Vary` unless the origin is
      `*`. */
  lemma FinaliseKeeps(response: Response, h: Headers, headers: Headers, origin: string, methods: string, allowed: string)
    requires AllowMethodsHeader in h && h[AllowMethodsHeader] == methods
    requires AllowHeadersHeader in h && h[AllowHeadersHeader] == allowed
    requires forall k :: k in headers && k != AllowMethodsHeader && k != AllowHeadersHeader && k != MaxAgeHeader ==> k in h && h[k] == headers[k]
    ensures var r := Finalise(response, h, origin);
      && r.status == 204
      && "Content-Type" !in r.headers && "Content-Length" !in r.headers
      && AllowMethodsHeader in r.headers && r.headers[AllowMethodsHeader] == [methods]
      && AllowHeadersHeader in r.headers && r.headers[AllowHeadersHeader] == [allowed]
      && (forall k :: k in headers && k !in {AllowMethodsHeader, AllowHeadersHeader, MaxAgeHeader, "Content-Type", "Content-Length", "Vary"} ==>
            k in r.headers && r.headers[k] == [headers[k]])
      && (origin != "*" ==> "Vary" in r.headers)
  {
    var r := Finalise(response, h, origin);
    forall k | k in headers && k !in {AllowMethodsHeader, AllowHeadersHeader, MaxAgeHeader, "Content-Type", "Content-Length", "Vary"}
      ensures k in r.headers && r.headers[k] == [headers[k]]
    {
      assert k in h && h[k] == headers[k];
    }
  }

  /** A preflight succeeds exactly when the methods check, the headers check and
      the max-age setting all succeed; its response then carries the configured
      methods and headers texts, keeps every header handed in, and is a 204. A
      failed methods check decides the result before the headers are looked at. */
  lemma OutcomeSpec(settings: SettingsMap, request: Request, response: Response, headers: Headers, origin: string)
    ensures var methods := AllowMethods(settings, request, headers);
      var r := Outcome(settings, request, response, headers, origin);
      && (methods.Err? ==> r == Err(methods.error))
      && (methods.Ok? && AllowHeaders(settings, request, methods.value).Err? ==>
            r == Err(AllowHeaders(settings, request, methods.value).error))
      && (methods.Ok? && AllowHeaders(settings, request, methods.value).Ok? && ParseItem(settings, "maxAge", request, true).Err? ==>
            r == Err(ParseItem(settings, "maxAge", request, true).error))
      && (r.Ok? <==> methods.Ok? && AllowHeaders(settings, request, methods.value).Ok?
                     && ParseItem(settings, "maxAge", request, true).Ok?)
      && (r.Ok? ==>
            && r.value.status == 204
            && "Content-Type" !in r.value.headers && "Content-Length" !in r.value.headers
            && AllowMethodsHeader in r.value.headers
            && r.value.headers[AllowMethodsHeader] == [ParseItem(settings, "allowMethods", request, false).value]
            && AllowHeadersHeader in r.value.headers
            && r.value.headers[AllowHeadersHeader] == [ParseItem(settings, "allowHeaders", request, false).value]
            && (forall k :: k in headers && k !in {AllowMethodsHeader, AllowHeadersHeader, MaxAgeHeader, "Content-Type", "Content-Length", "Vary"} ==>
                  k in r.value.headers && r.value.headers[k] == [headers[k]])
            && (origin != "*" ==> "Vary" in r.value.headers)
            && var maxAge := ParseItem(settings, "maxAge", request, true).value;
               (ParseInt(maxAge).Some? && ParseInt(maxAge).value > 0 ==>
                  MaxAgeHeader in r.value.headers && r.value.headers[MaxAgeHeader] == [IntToString(ParseInt(maxAge).value)]))
  {
    var methods := AllowMethods(settings, request, headers);
    if methods.Ok? {
      var withHeaders := AllowHeaders(settings, request, methods.value);
      if withHeaders.Ok? {
        var withMaxAge := WithMaxAge(settings, request, withHeaders.value);
        if withMaxAge.Ok? {
          AccumulatedHeaders(settings, request, headers);
          FinaliseKeeps(response, withMaxAge.value, headers, origin,
                        ParseItem(settings, "allowMethods", request, false).value,
                        ParseItem(settings, "allowHeaders", request, false).value);
          assert Outcome(settings, request, response, headers, origin) == Ok(Finalise(response, withMaxAge.value, origin));
          var maxAge := ParseItem(settings, "maxAge", request, true).value;
          if ParseInt(maxAge).Some? && ParseInt(maxAge).value > 0 {
            assert withMaxAge.value[MaxAgeHeader] == IntToString(ParseInt(maxAge).value);
          }
        }
      }
    }
  }



  /** The preflight handler. Its settings are the ones the last invocation was
      given. */
  class Preflight {
    var settings: SettingsMap

    constructor()
      ensures settings == map[]
    {
      settings := map[];
    }

    /** `accessControlAllowMethods($request, $response, &$headers)`: the response
        comes back unchanged and the header map gains the allowed methods, or the
        rejection is raised and the map is left alone. */
    method AccessControlAllowMethods(request: Request, response: Response, headers: Headers)
      returns (r: Result<Response>, headersOut: Headers)
      ensures r.Ok? <==> AllowMethods(settings, request, headers).Ok?
      ensures r.Ok? ==> r.value == response && headersOut == AllowMethods(settings, request, headers).value
      ensures r.Err? ==> r.error == AllowMethods(settings, request, headers).error && headersOut == headers
    {
      headersOut := headers;
      var allowMethods := ParseItem(settings, "allowMethods", request, false);
      if allowMethods.Err? {
        r := Err(allowMethods.error);
        return;
      }
      if allowMethods.value == "" {
        r := Err(NoMethodsConfigured);
        return;
      }
      var methods := Pieces(ToUpper(allowMethods.value));
      if HeaderLine(request, "access-control-request-method") == "" {
        var exception := new ExceptionAbstract(NoMethod);
        r := Err(exception.Thrown());
        return;
      }
      var requestedMethod := ToUpper(HeaderLine(request, "access-control-request-method"));
      if requestedMethod !in methods {
        var exception := new ExceptionAbstract(MethodNotAllowed);
        var self := exception.SetSent(requestedMethod);
        self := self.SetAllowed(methods);
        r := Err(exception.Thrown());
        return;
      }
      headersOut := headers[AllowMethodsHeader := allowMethods.value];
      r := Ok(response);
    }

    /** `accessControlRequestHeaders($request, $response, &$headers)`: every
        requested header is looked up in the allowed list in turn, the first one
        missing raising the rejection. */
    method AccessControlRequestHeaders(request: Request, response: Response, headers: Headers)
      returns (r: Result<Response>, headersOut: Headers)
      ensures r.Ok? <==> AllowHeaders(settings, request, headers).Ok?
      ensures r.Ok? ==> r.value == response && headersOut == AllowHeaders(settings, request, headers).value
      ensures r.Err? ==> r.error == AllowHeaders(settings, request, headers).error && headersOut == headers
    {
      headersOut := headers;
      var allowHeaders := ParseItem(settings, "allowHeaders", request, false);
      if allowHeaders.Err? {
        r := Err(allowHeaders.error);
        return;
      }
      var requestHeaders := HeaderLine(request, "access-control-request-headers");
      var originalRequestHeaders := requestHeaders;
      if requestHeaders == "" {
        headersOut := headers[AllowHeadersHeader := allowHeaders.value];
        r := Ok(response);
        return;
      }
      if allowHeaders.value == "" {
        var exception := new ExceptionAbstract(NoHeadersAllowed);
        var self := exception.SetSent(requestHeaders);
        r := Err(exception.Thrown());
        return;
      }
      var requested := Pieces(ToLower(requestHeaders));
      var allowedHeaders := Pieces(ToLower(allowHeaders.value));
      var i := 0;
      while i < |requested|
        invariant 0 <= i <= |requested|
        invariant forall j :: 0 <= j < i ==> requested[j] in allowedHeaders
      {
        if requested[i] !in allowedHeaders {
          var exception := new ExceptionAbstract(HeaderNotAllowed);
          var self := exception.SetAllowed(allowedHeaders);
          self := self.SetSent(originalRequestHeaders);
          r := Err(exception.Thrown());
          return;
        }
        i := i + 1;
      }
      headersOut := headers[AllowHeadersHeader := allowHeaders.value];
      r := Ok(response);
    }

    /** `__invoke($settings, $request, $response, $headers, $origin)`. */
    method Invoke(settings: SettingsMap, request: Request, response: Response, headers: Headers, origin: string)
      returns (r: Result<Response>)
      modifies this
      ensures this.settings == settings
      ensures r == Outcome(settings, request, response, headers, origin)
    {
      this.settings := settings;
      var checked, accumulated := AccessControlAllowMethods(request, response, headers);
      if checked.Err? {
        r := checked;
        return;
      }
      checked, accumulated := AccessControlRequestHeaders(request, checked.value, accumulated);
      if checked.Err? {
        r := checked;
        return;
      }
      var maxAge := ParseItem(settings, "maxAge", request, true);
      if maxAge.Err? {
        r := Err(maxAge.error);
        return;
      }
      var age := ParseInt(maxAge.value);
      if age.Some? && age.value > 0 {
        accumulated := accumulated[MaxAgeHeader := IntToString(age.value)];
      }
      var result := ApplyHeaders(checked.value, accumulated);
      if origin != "*" {
        result := WithAddedHeader(result, "Vary", "Origin");
      }
      result := WithoutHeader(WithoutHeader(WithStatus(result, 204, "No Content"), "Content-Type"), "Content-Length");
      r := Ok(result);
    }
  }
}
