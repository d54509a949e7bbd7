/** The PSR-15 middleware: a request without an Origin header goes straight to
    the next handler; a CORS request has its origin resolved and checked, the
    allow-origin and credentials headers prepared, and is then either answered
    by the preflight handler (OPTIONS) or passed on with the CORS headers set on
    the handler's response. */
module MiddlewareCors {
  import opened Text
  import opened Http
  import opened Settings
  import opened Exceptions
  import opened Parse
  import Preflight

  const AllowOriginHeader := "Access-Control-Allow-Origin"
  const AllowCredentialsHeader := "Access-Control-Allow-Credentials"
  const ExposeHeadersHeader := "Access-Control-Expose-Headers"

  /** The `badOriginCallable` setting: called with the request and the origins
      tried when none matched; it returns normally or raises an error. */
  type BadOriginCallable = (Request, seq<string>) -> Option<Error>

  /** The preflight handler as the middleware invokes it: with the settings, the
      request, the headers prepared so far and the resolved origin. */
  type PreflightHandler = (SettingsMap, Request, Headers, string) -> Result<Response>

  /** What `process` returns, and whether the next handler was asked for it. */
  datatype Processed = Processed(result: Result<Response>, handlerCalled: bool)

  /** The headers every CORS response carries: the resolved origin, and the
      credentials flag only when it is allowed. */
  function CorsHeaders(origin: string, allowCredentials: bool): (h: Headers)
    ensures AllowOriginHeader in h && h[AllowOriginHeader] == origin
    ensures AllowCredentialsHeader in h <==> allowCredentials
    ensures AllowCredentialsHeader in h ==> h[AllowCredentialsHeader] == "true"
    ensures h.Keys <= {AllowOriginHeader, AllowCredentialsHeader}
  {
    var h := map[AllowOriginHeader := origin];
    if allowCredentials then h[AllowCredentialsHeader := "true"] else h
  }

  /** The expose-headers list is added only when it is not empty. */
  function WithExposeHeaders(headers: Headers, expose: string): (h: Headers)
    ensures ExposeHeadersHeader in h <==> expose != "" || ExposeHeadersHeader in headers
    ensures expose != "" ==> h == headers[ExposeHeadersHeader := expose]
    ensures expose == "" ==> h == headers
  {
    if expose != "" then headers[ExposeHeadersHeader := expose] else headers
  }

  predicate IsPreflight(request: Request)
  {
    ToUpper(request.verb) == "OPTIONS"
  }

  /** `process($request, $handler)` as a function of the settings, the request,
      the handler's answer and the two callables. */
  function Decide(settings: SettingsMap, request: Request, respond: Request -> Response,
                  badOrigin: BadOriginCallable, preflight: PreflightHandler): (p: Processed)
    ensures p.handlerCalled ==> p.result.Ok?
    ensures p.handlerCalled ==> HeaderLine(request, "origin") == "" || !IsPreflight(request)
    ensures HeaderLine(request, "origin") != "" && ResolveOrigin(settings, request).result.Err? ==>
      p == Processed(Err(ResolveOrigin(settings, request).result.error), false)
  {
    if HeaderLine(request, "origin") == "" then Processed(Ok(respond(request)), true)
    else
      var resolved := ResolveOrigin(settings, request);
      match resolved.result
      case Err(e) => Processed(Err(e), false)
      case Ok(origin) =>
        var complaint := if origin == "" then badOrigin(request, resolved.tried) else None;
        if complaint.Some? then Processed(Err(complaint.value), false)
        else
          match ParseAllowCredentials(settings, request)
          case Err(e) => Processed(Err(e), false)
          case Ok(allow) =>
            var headers := CorsHeaders(origin, allow);
            if IsPreflight(request) then Processed(preflight(settings, request, headers, origin), false)
            else
              match ParseItem(settings, "exposeHeaders", request, false)
              case Err(e) => Processed(Err(e), false)
              case Ok(expose) => Processed(Ok(WithHeaders(respond(request), WithExposeHeaders(headers, expose))), true)
  }

  // ---------------------------------------------------------------------------
  // What the middleware promises

  /** A request without an Origin header is not a CORS request: whatever its
      method, the handler's response comes back untouched. */
  lemma NoOriginPassesThrough(settings: SettingsMap, request: Request, respond: Request -> Response,
                              badOrigin: BadOriginCallable, preflight: PreflightHandler)
    requires HeaderLine(request, "origin") == ""
    ensures Decide(settings, request, respond, badOrigin, preflight) == Processed(Ok(respond(request)), true)
  {
  }

  /** An origin that matches nothing is reported to `badOriginCallable` with the
      request and every origin tried; if the callable returns, processing goes on
      with an empty allowed origin. An origin that matched never reaches it. */
  lemma BadOriginIsReported(settings: SettingsMap, request: Request, respond: Request -> Response,
                            badOrigin: BadOriginCallable, preflight: PreflightHandler)
    requires HeaderLine(request, "origin") != ""
    requires ResolveOrigin(settings, request).result == Ok("")
    ensures var p := Decide(settings, request, respond, badOrigin, preflight);
      var complaint := badOrigin(request, ResolveOrigin(settings, request).tried);
      && (complaint.Some? ==> p == Processed(Err(complaint.value), false))
      && (complaint.None? && p.result.Ok? && !IsPreflight(request) ==>
            AllowOriginHeader in p.result.value.headers && p.result.value.headers[AllowOriginHeader] == [""])
      && (complaint.None? && IsPreflight(request) && ParseAllowCredentials(settings, request).Ok? ==>
            p == Processed(preflight(settings, request, CorsHeaders("", ParseAllowCredentials(settings, request).value), ""), false))
  {
  }

  /** On a CORS request that is not a preflight and succeeds, the handler is
      asked once; its response carries the resolved origin, the credentials flag
      exactly when `allowCredentials` resolved to true (and never as false), and
      the expose-headers list only when it is not empty; other headers of the
      handler's response are kept. */
  lemma SimpleRequestHeaders(settings: SettingsMap, request: Request, respond: Request -> Response,
                             badOrigin: BadOriginCallable, preflight: PreflightHandler)
    requires HeaderLine(request, "origin") != "" && !IsPreflight(request)
    ensures var p := Decide(settings, request, respond, badOrigin, preflight);
      p.result.Ok? ==>
        var origin := ResolveOrigin(settings, request).result.value;
        var allow := ParseAllowCredentials(settings, request);
        var expose := ParseItem(settings, "exposeHeaders", request, false);
        var h := p.result.value.headers;
        && p.handlerCalled
        && allow.Ok? && expose.Ok?
        && AllowOriginHeader in h && h[AllowOriginHeader] == [origin]
        && (allow.value ==> AllowCredentialsHeader in h && h[AllowCredentialsHeader] == ["true"])
        && (!allow.value ==> (AllowCredentialsHeader in h <==> AllowCredentialsHeader in respond(request).headers))
        && (!allow.value && AllowCredentialsHeader in h ==> h[AllowCredentialsHeader] == respond(request).headers[AllowCredentialsHeader])
        && (expose.value != "" ==> ExposeHeadersHeader in h && h[ExposeHeadersHeader] == [expose.value])
        && (expose.value == "" ==> (ExposeHeadersHeader in h <==> ExposeHeadersHeader in respond(request).headers))
        && (forall k :: k in respond(request).headers && k !in {AllowOriginHeader, AllowCredentialsHeader, ExposeHeadersHeader} ==>
              k in h && h[k] == respond(request).headers[k])
  {
    var p := Decide(settings, request, respond, badOrigin, preflight);
    if p.result.Ok? {
      var origin := ResolveOrigin(settings, request).result.value;
      var allow := ParseAllowCredentials(settings, request);
      var expose := ParseItem(settings, "exposeHeaders", request, false);
      var headers := WithExposeHeaders(CorsHeaders(origin, allow.value), expose.value);
      assert p.result.value == WithHeaders(respond(request), headers);
    }
  }

  /** A preflight (an OPTIONS request, in any case) with an Origin header is
      answered by the preflight handler alone, given the prepared origin and
      credentials headers, the origin being `''` when nothing matched and the
      bad-origin callable returned; the next handler is never asked. */
  lemma PreflightAnswers(settings: SettingsMap, request: Request, respond: Request -> Response,
                         badOrigin: BadOriginCallable, preflight: PreflightHandler)
    requires HeaderLine(request, "origin") != "" && IsPreflight(request)
    ensures var p := Decide(settings, request, respond, badOrigin, preflight);
      && !p.handlerCalled
      && (ResolveOrigin(settings, request).result.Ok?
          && (ResolveOrigin(settings, request).result.value == "" ==> badOrigin(request, ResolveOrigin(settings, request).tried).None?)
          && ParseAllowCredentials(settings, request).Ok? ==>
            var origin := ResolveOrigin(settings, request).result.value;
            p.result == preflight(settings, request, CorsHeaders(origin, ParseAllowCredentials(settings, request).value), origin))
  {
  }

  /** The preflight handler this package provides, answering on an empty
      response from the response factory. */
  function PackagedPreflight(empty: Response): PreflightHandler
  {
    (settings: SettingsMap, request: Request, headers: Headers, origin: string) =>
      Preflight.Outcome(settings, request, empty, headers, origin)
  }

  /** With the package's own preflight handler, an accepted preflight is a 204
      response carrying the resolved origin (`''` when nothing matched and the
      bad-origin callable returned) and, when allowed, the credentials flag. */
  lemma PackagedPreflightAnswers(settings: SettingsMap, request: Request, respond: Request -> Response,
                                 badOrigin: BadOriginCallable, empty: Response)
    requires HeaderLine(request, "origin") != "" && IsPreflight(request)
    requires ResolveOrigin(settings, request).result.Ok?
    requires ParseAllowCredentials(settings, request).Ok?
    ensures var p := Decide(settings, request, respond, badOrigin, PackagedPreflight(empty));
      var origin := ResolveOrigin(settings, request).result.value;
      p.result.Ok? ==>
        && p.result.value.status == 204
        && AllowOriginHeader in p.result.value.headers
        && p.result.value.headers[AllowOriginHeader] == [origin]
        && (ParseAllowCredentials(settings, request).value ==>
              AllowCredentialsHeader in p.result.value.headers && p.result.value.headers[AllowCredentialsHeader] == ["true"])
  {
    var origin := ResolveOrigin(settings, request).result.value;
    var headers := CorsHeaders(origin, ParseAllowCredentials(settings, request).value);
    Preflight.OutcomeSpec(settings, request, empty, headers, origin);
  }

  /** The next handler is asked exactly when the request has no Origin header, or
      it is a CORS request other than a preflight whose origin, credentials and
      expose-headers settings all resolve (the origin either matching or the
      bad-origin callable returning). */
  lemma HandlerCalledWhen(settings: SettingsMap, request: Request, respond: Request -> Response,
                          badOrigin: BadOriginCallable, preflight: PreflightHandler)
    ensures Decide(settings, request, respond, badOrigin, preflight).handlerCalled <==>
      HeaderLine(request, "origin") == "" ||
      (&& !IsPreflight(request)
       && ResolveOrigin(settings, request).result.Ok?
       && (ResolveOrigin(settings, request).result.value == "" ==> badOrigin(request, ResolveOrigin(settings, request).tried).None?)
       && ParseAllowCredentials(settings, request).Ok?
       && ParseItem(settings, "exposeHeaders", request, false).Ok?)
    ensures Decide(settings, request, respond, badOrigin, preflight).handlerCalled ==>
      Decide(settings, request, respond, badOrigin, preflight).result.Ok?
  {
  }

  /** The middleware. Its settings start as the defaults it is given and are
      replaced by merging in new ones. */
  class MiddlewareCors {
    var settings: SettingsMap

    /** `__construct($responseFactory, $settings)`, given `getDefaults()`: the
        settings passed in (none is the empty map) are merged over the
        defaults. */
    constructor(defaults: SettingsMap, initial: SettingsMap)
      ensures settings == defaults + initial
    {
      settings := defaults + initial;
    }

    method GetSettings() returns (current: SettingsMap)
      ensures current == settings
    {
      current := settings;
    }

    /** `setSettings($settings)`: the new keys override the old ones, unknown
        keys are kept, and the merged settings are then validated. They stay in
        place even when validation fails. */
    method SetSettings(newSettings: SettingsMap, validate: SettingsMap -> Option<Error>) returns (failure: Option<Error>)
      modifies this
      ensures settings == old(settings) + newSettings
      ensures forall k :: k in newSettings ==> k in settings
      ensures forall k :: k in old(settings) && k !in newSettings ==> k in settings
      ensures settings.Keys == old(settings).Keys + newSettings.Keys
      ensures failure == validate(settings)
    {
      settings := settings + newSettings;
      failure := validate(settings);
    }

    /** `process($request, $handler)`. */
    method Process(request: Request, handler: Handler, badOrigin: BadOriginCallable, preflight: PreflightHandler)
      returns (r: Result<Response>)
      modifies handler
      ensures r == Decide(settings, request, handler.respond, badOrigin, preflight).result
      ensures handler.calls == old(handler.calls) + (if Decide(settings, request, handler.respond, badOrigin, preflight).handlerCalled then 1 else 0)
    {
      if HeaderLine(request, "origin") == "" {
        var response := handler.Handle(request);
        r := Ok(response);
        return;
      }
      var allowedOrigins: seq<string> := [];
      var origin;
      origin, allowedOrigins := ParseOrigin(settings, request, allowedOrigins);
      assert allowedOrigins == ResolveOrigin(settings, request).tried;
      if origin.Err? {
        r := Err(origin.error);
        return;
      }
      if origin.value == "" {
        var complaint := badOrigin(request, allowedOrigins);
        if complaint.Some? {
          r := Err(complaint.value);
          return;
        }
      }
      var headers: Headers := map[];
      headers := headers[AllowOriginHeader := origin.value];
      var allow := ParseAllowCredentials(settings, request);
      if allow.Err? {
        r := Err(allow.error);
        return;
      }
      if allow.value {
        headers := headers[AllowCredentialsHeader := "true"];
      }
      if ToUpper(request.verb) == "OPTIONS" {
        r := preflight(settings, request, headers, origin.value);
        return;
      }
      var exposeHeaders := ParseItem(settings, "exposeHeaders", request, false);
      if exposeHeaders.Err? {
        r := Err(exposeHeaders.error);
        return;
      }
      if exposeHeaders.value != "" {
        headers := headers[ExposeHeadersHeader := exposeHeaders.value];
      }
      var response := handler.Handle(request);
      response := ApplyHeaders(response, headers);
      r := Ok(response);
    }
  }
}
