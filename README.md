# CORS middleware, modelled in Dafny

This project models the core of `bairwell/middleware-cors`, a PSR-15 middleware for PHP that answers
Cross-Origin Resource Sharing requests. It also models the parsers and validators of the earlier `Cors`
package that ships in the same repository.

For each request the middleware does this:

- A request without an `Origin` header goes to the next handler untouched.
- Otherwise the origin is resolved against the `origin` setting, which may be a string, a list or a
  callable. Resolution follows these rules:
  - a `*` wildcard matches any run of characters;
  - host names are compared case-insensitively;
  - a match is written back out as `scheme://host[:port]`.
- An origin that matches nothing is reported to the `badOriginCallable` setting, with the origins tried.
- `Access-Control-Allow-Origin` is set, and `Access-Control-Allow-Credentials: true` is added only when
  `allowCredentials` is exactly `true`.
- An `OPTIONS` request is a preflight and is answered by the preflight handler:
  - the requested method must be in `allowMethods`;
  - every requested header must be in `allowHeaders`;
  - `Access-Control-Max-Age` is added when `maxAge` is positive;
  - `Vary: Origin` is added unless the origin is `*`;
  - the reply is `204 No Content` with no `Content-Type` or `Content-Length`.
- Any other request is passed to the next handler. Its response gets the CORS headers and, when
  configured, `Access-Control-Expose-Headers`.

Settings are merged over defaults and validated by type. Strings, arrays, callables, integers and booleans
are each accepted only when the allowed types list them. An array must not be empty and must hold only
strings. An integer must not be negative.

Modules follow the source files:

- `Parse` models `MiddlewareCors/Traits/Parse.php`.
- `Preflight` models `MiddlewareCors/Preflight.php`. It is a class whose `Invoke` sets its settings.
- `MiddlewareCors` models `MiddlewareCors.php`. It is a class with a settings field and `Process`.
- `ValidateSettings` and `Exceptions` model the validator and the exception base class.
- `LegacyParse` and `LegacyValidate` model `Cors/Traits/Parse.php` and `Cors/Traits/Validate.php`.

Four support modules stand in for PHP and PSR-7 facilities:

- `Text`: ASCII `strtolower`/`strtoupper`, `trim`, `explode`, `implode`, decimal conversion, and the
  wildcard match that `preg_quote` plus `preg_match('/^…$/')` performs.
- `Url`: the part of `parse_url` an origin needs.
- `Http`: requests, immutable responses, and the next handler as a class counting its calls.
- `Settings`: setting values. A callable setting is a function of the request.

Where a PHP exception is thrown, the model returns `Err` with an `Error` saying which one. The two
origin parsers share `parseOriginMatch`, which is identical in both packages, so `Parse.OriginMatch`
models both.

## Model

| member | source | states |
|---|---|---|
| Parse.Coerce | src/MiddlewareCors/Traits/Parse.php:55-98 | `true` raises and `false`/`null` give `''`; a callable left after resolution cannot be converted; the conversion of strings, ints and lists in single and list mode |
| Parse.ParseItem | src/MiddlewareCors/Traits/Parse.php:50-99 | a missing setting raises "Missing setting"; a present one is resolved (a callable is called with the request) and converted; it raises for `true` exactly |
| Parse.CoerceSingle | src/MiddlewareCors/Traits/Parse.php:71-86 | single mode: an int gives its decimal; a string gives its trimmed self when it has no comma and raises otherwise; a list of length other than one raises; a one-string list gives that string |
| Parse.CoerceMultiString | src/MiddlewareCors/Traits/Parse.php:71-73 | list mode: a string becomes its comma pieces, trimmed and joined with `", "`; the result has the same pieces and normalising it again changes nothing |
| Parse.CoerceMultiOther | src/MiddlewareCors/Traits/Parse.php:88-95 | list mode: an int gives its decimal; a list of strings is joined with `", "` |
| Parse.ParseAllowCredentials | src/MiddlewareCors/Traits/Parse.php:109-129 | succeeds exactly when the setting is present and resolves to a boolean, returning it; otherwise says whether the setting was missing or not a boolean |
| Parse.ParseMaxAge | src/MiddlewareCors/Traits/Parse.php:139-163 | succeeds exactly when the setting is present and resolves to a non-negative int, returning it; distinguishes missing, non-int and negative |
| Parse.OriginMatch | src/MiddlewareCors/Traits/Parse.php:302-335 | `''` and `*` are returned as they are; otherwise the result is the origin or `''`; without `*` it matches exactly when the lower-cased item equals the origin; with `*` it matches exactly when the wildcard pattern matches the whole origin |
| Parse.OriginMatchIgnoresCase | src/MiddlewareCors/Traits/Parse.php:310-311 | the item's letter case never changes the outcome |
| Parse.OriginMatchIsGlob | src/MiddlewareCors/Traits/Parse.php:313-330 | for a non-empty origin, the result is the origin exactly when the wildcard pattern, or the exact lower-cased item, accepts it |
| Parse.OriginMatchSuffix | src/MiddlewareCors/Traits/Parse.php:319-330 | a leading-`*` pattern such as `*.dummy.com` accepts exactly the origins that end with the rest of the pattern |
| Parse.ProtocolOfScheme | src/MiddlewareCors/Traits/Parse.php:263-290 | the protocol string equals `http://` or `https://` exactly when the scheme is `http` or `https` |
| Parse.AddProtocolPortIfNeeded | src/MiddlewareCors/Traits/Parse.php:256-292 | `''` and `*` pass through; otherwise the match is written out as an origin serialised as in RFC 6454 section 6.2: the scheme (default `https`), then the port unless it is the scheme's default; the port is the one parsed, else the scheme's default, else 80; the result is empty exactly when the match is |
| Parse.AddProtocolPortDefaults | src/MiddlewareCors/Traits/Parse.php:263-291 | no scheme gives `https://` plus the match; an unknown scheme without port gets `:80`; an unknown scheme with a port writes it out |
| Parse.AddProtocolPortOfHeader | src/MiddlewareCors/Traits/Parse.php:193-203 | for an origin header `scheme://host[:port]`, writing the matched host back gives the RFC 6454 serialisation of that scheme, host and port |
| Parse.WalkListSpec | src/MiddlewareCors/Traits/Parse.php:217-232 | walking a list policy records the entries tried, in order; it stops at the first match, and every entry before it failed to match; `''` means every entry was tried and none matched; an error means the entry after the tried ones is not a string |
| Parse.WalkList | src/MiddlewareCors/Traits/Parse.php:217-232 | the walk tries at most every entry; an error is the `TypeError` of a non-string entry before the end; a match has tried at least one entry; `''` has tried them all |
| Parse.OriginHost | src/MiddlewareCors/Traits/Parse.php:192-199 | the host matched against is the whole origin, or the host `parse_url` found, which is non-empty and colon-free; with no parts parsed it is the whole origin |
| Parse.ResolveOrigin | src/MiddlewareCors/Traits/Parse.php:176-246 | a missing `origin` setting raises; an empty header gives `''` with nothing tried; a string policy is tried once against the header's host, the result is `''` exactly when it does not match, `*` stays `*`, and a match is written out with the header's scheme and port; a policy that is neither string nor list gives `''` with nothing tried |
| Parse.ExactPolicyServesOrigin | src/MiddlewareCors/Traits/Parse.php:192-245 | a host policy meeting an origin header `scheme://host[:port][path]` for that host is answered with the RFC 6454 serialisation of the header's scheme, host and port, the policy being the one entry tried |
| Parse.ResolveOriginList | src/MiddlewareCors/Traits/Parse.php:217-232 | for a list policy: `''` exactly when no entry matches, with every entry recorded; a non-empty result is the first matching entry's match, written out with scheme and port, with the entries up to it recorded |
| Parse.TryEntries | src/MiddlewareCors/Traits/Parse.php:219-231 | the `foreach` over a list policy returns what the walk decides and appends the entries it tried |
| Parse.ParseOrigin | src/MiddlewareCors/Traits/Parse.php:176-246 | `parseOrigin` returns the resolved origin and appends every origin tried to `$allowedOrigins` |
| Preflight.AllowMethods | src/MiddlewareCors/Preflight.php:94-136 | settings errors propagate; no configured methods raises; no requested method raises `NoMethod`; otherwise it succeeds exactly when the upper-cased method is among the upper-cased, trimmed configured ones, and raises `MethodNotAllowed` with that method and list when it is not; on success only `Access-Control-Allow-Methods` is added, set to the configured list |
| Preflight.AllowHeaders | src/MiddlewareCors/Preflight.php:167-216 | no requested headers adds the configured list as it is; requested headers with none configured raises `NoHeadersAllowed` with the raw request; otherwise it succeeds exactly when every lower-cased, trimmed requested header is configured, and raises `HeaderNotAllowed` with the configured list and the raw request when one is not |
| Preflight.WithMaxAge | src/MiddlewareCors/Preflight.php:262-267 | succeeds exactly when `maxAge` parses; a positive value adds `Access-Control-Max-Age`, anything else leaves the headers alone |
| Preflight.Finalise | src/MiddlewareCors/Preflight.php:269-287 | status 204 "No Content"; no `Content-Type` or `Content-Length`; all accumulated headers set; other response headers kept; `Vary` ends with `Origin` unless the origin is `*` |
| Preflight.AllowMethodsIgnoresCase | src/MiddlewareCors/Preflight.php:109-122 | the requested method's letter case does not change the decision |
| Preflight.AccumulatedHeaders | src/MiddlewareCors/Preflight.php:256-266 | once the methods, headers and max-age steps succeed, the collected headers hold the parsed allowed methods and allowed headers, and every other header handed in is kept unchanged |
| Preflight.FinaliseKeeps | src/MiddlewareCors/Preflight.php:268-287 | the finished reply is 204 with no `Content-Type` or `Content-Length`, carries the allow lists as single header lines, keeps every other collected header, and has `Vary` unless the origin is `*` |
| Preflight.OutcomeSpec | src/MiddlewareCors/Preflight.php:246-288 | the methods error, then the headers error, then the max-age parse error decides the result, in that order; the preflight succeeds exactly when the methods, headers and max-age steps all succeed; the reply is then 204, carries both allow lists, carries `Access-Control-Max-Age` when the parsed max-age is a positive integer, keeps the headers handed in, and has `Vary` unless the origin is `*` |
| Preflight.Outcome | src/MiddlewareCors/Preflight.php:246-288 | a methods error is the result; a success is a 204 reply with no `Content-Type` or `Content-Length`, with `Vary` unless the origin is `*`; an error comes from a missing configuration, a rejection, or a setting that could not be parsed |
| Preflight.Preflight.constructor | src/MiddlewareCors/Preflight.php:52-55 | a new preflight handler holds no settings |
| Preflight.Preflight.AccessControlAllowMethods | src/MiddlewareCors/Preflight.php:94-136 | the imperative method: it succeeds exactly when `AllowMethods` does; the response is unchanged and the headers are extended as specified; an error is built on an exception object through `setSent` and then `setAllowed` |
| Preflight.Preflight.AccessControlRequestHeaders | src/MiddlewareCors/Preflight.php:167-216 | the imperative method with its `foreach` loop: it succeeds exactly when `AllowHeaders` does, with the same headers or error |
| Preflight.Preflight.Invoke | src/MiddlewareCors/Preflight.php:246-288 | `__invoke` stores the settings and returns what `Outcome` specifies |
| MiddlewareCors.CorsHeaders | src/MiddlewareCors.php:178-187 | `Access-Control-Allow-Origin` is the resolved origin; `Access-Control-Allow-Credentials` is present exactly when credentials are allowed, and is then `true`; nothing else |
| MiddlewareCors.WithExposeHeaders | src/MiddlewareCors.php:208-213 | `Access-Control-Expose-Headers` is added exactly when the setting is non-empty |
| MiddlewareCors.NoOriginPassesThrough | src/MiddlewareCors.php:160-163 | with no `Origin` header the handler's response is returned as it is, whatever the method |
| MiddlewareCors.BadOriginIsReported | src/MiddlewareCors.php:170-204 | an origin that matches nothing is passed with the origins tried to `badOriginCallable`; if that raises, its error is the result; if it returns, processing goes on with an empty allowed origin: a simple request's reply carries `Access-Control-Allow-Origin: ''`, and a preflight is handed to the preflight handler with origin `''` |
| MiddlewareCors.SimpleRequestHeaders | src/MiddlewareCors.php:178-222 | a successful non-preflight request calls the handler and carries the resolved origin, the credentials flag exactly when allowed (never `false`), the expose list only when non-empty, and keeps the handler's other headers |
| MiddlewareCors.PreflightAnswers | src/MiddlewareCors.php:192-204 | an `OPTIONS` request in any letter case is answered by the preflight handler with the prepared headers and origin, which is `''` when nothing matched and `badOriginCallable` returned; the next handler is never called |
| MiddlewareCors.PackagedPreflightAnswers | src/MiddlewareCors/Preflight.php:246-288 | with this package's preflight handler, an accepted preflight is a 204 carrying the resolved origin (`''` when nothing matched and `badOriginCallable` returned) and, when allowed, the credentials flag |
| MiddlewareCors.HandlerCalledWhen | src/MiddlewareCors.php:155-223 | the next handler is called exactly when there is no `Origin` header, or on a non-preflight whose origin, credentials and expose settings all resolve; when it is called, the result is a response |
| MiddlewareCors.MiddlewareCors.constructor | src/MiddlewareCors.php:90-101 | the initial settings are the given ones merged over the defaults |
| MiddlewareCors.MiddlewareCors.GetSettings | src/MiddlewareCors.php:119-122 | returns the current settings |
| MiddlewareCors.MiddlewareCors.SetSettings | src/MiddlewareCors.php:133-139 | new keys override, other keys stay; the merged settings are kept and then validated |
| MiddlewareCors.MiddlewareCors.Process | src/MiddlewareCors.php:155-223 | `process` returns what `Decide` specifies; the handler's call count goes up by one exactly when `Decide` says it is called |
| MiddlewareCors.Decide | src/MiddlewareCors.php:155-223 | the handler is called only on a path that succeeds, and never for a preflight carrying an origin; an origin that cannot be resolved is raised before anything else happens |
| ValidateSettings.ValidateString | src/MiddlewareCors/ValidateSettings.php:72-75 | passes exactly a string when `string` is allowed |
| ValidateSettings.ValidateArray | src/MiddlewareCors/ValidateSettings.php:124-141 | does not apply unless the value is an array and arrays are allowed; then passes exactly a non-empty array of strings, and raises "empty" or "non-string item" otherwise |
| ValidateSettings.ValidateCallable | src/MiddlewareCors/ValidateSettings.php:86-89 | passes exactly a callable when `callable` is allowed |
| ValidateSettings.ValidateInt | src/MiddlewareCors/ValidateSettings.php:101-112 | does not apply unless the value is an int and ints are allowed; then passes exactly a non-negative one and raises "too low" otherwise |
| ValidateSettings.ValidateBool | src/MiddlewareCors/ValidateSettings.php:58-61 | passes exactly a boolean when `bool` is allowed |
| ValidateSettings.InvokeDecides | src/MiddlewareCors/ValidateSettings.php:33-47 | a setting is accepted exactly when its type is allowed and the value is well formed; an allowed ill-formed value raises its own error; any other value is refused with the name and the allowed types |
| ValidateSettings.Invoke | src/MiddlewareCors/ValidateSettings.php:33-47 | a refusal is either the value's own complaint or the error naming the setting and the allowed types; a value of none of the five types is always refused the second way |
| ValidateSettings.NullRefused | src/MiddlewareCors/ValidateSettings.php:33-47 | `null` is refused whatever is allowed |
| ValidateSettings.MoreTypesAcceptMore | src/MiddlewareCors/ValidateSettings.php:33-47 | widening the allowed types never refuses a setting that was accepted |
| Exceptions.ExceptionAbstract.constructor | src/MiddlewareCors/Exceptions/ExceptionAbstract.php:24-30 | a new exception has an empty sent item and an empty allowed list |
| Exceptions.ExceptionAbstract.SetSent | src/MiddlewareCors/Exceptions/ExceptionAbstract.php:39-43 | stores the sent item, leaves the allowed list, and returns the same object |
| Exceptions.ExceptionAbstract.GetSent | src/MiddlewareCors/Exceptions/ExceptionAbstract.php:51-54 | returns the stored sent item |
| Exceptions.ExceptionAbstract.SetAllowed | src/MiddlewareCors/Exceptions/ExceptionAbstract.php:63-67 | stores the allowed list, leaves the sent item, and returns the same object |
| Exceptions.ExceptionAbstract.GetAllowed | src/MiddlewareCors/Exceptions/ExceptionAbstract.php:75-78 | returns the stored allowed list |
| Exceptions.PayloadLifecycle | src/MiddlewareCors/Exceptions/ExceptionAbstract.php:24-78 | whatever is set through the chained setters is what the getters return, and setting the two fields in either order gives the same thrown exception |
| LegacyParse.Lookup | src/Cors/Traits/Parse.php:49 | a missing setting reads as `null` |
| LegacyParse.ParseItem | src/Cors/Traits/Parse.php:47-92 | a missing setting gives `''`; a present one parses as in the later package |
| LegacyParse.ParseAllowCredentials | src/Cors/Traits/Parse.php:102-119 | succeeds exactly when the setting resolves to a boolean; a missing one raises "not a boolean" |
| LegacyParse.ParseMaxAge | src/Cors/Traits/Parse.php:129-150 | succeeds exactly when the setting resolves to a non-negative int; distinguishes non-int from negative |
| LegacyParse.ResolveOrigin | src/Cors/Traits/Parse.php:160-211 | an empty header gives `''`; a string policy is matched against the whole lower-cased origin; any other non-list policy, a missing one included, gives `''` |
| LegacyParse.ResolveOriginList | src/Cors/Traits/Parse.php:188-200 | for a list policy: `''` exactly when no entry matches the whole origin; otherwise the first matching entry decides; a non-string entry reached first raises |
| LegacyParse.ParseOrigin | src/Cors/Traits/Parse.php:160-211 | the method with the `foreach` loop returns what `ResolveOrigin` specifies |
| LegacyParse.ParseItemShared | src/Cors/Traits/Parse.php:47-92 | the two packages parse a present setting alike; for a missing one the earlier gives `''` and the later raises |
| LegacyParse.CredentialsAndMaxAgeShared | src/Cors/Traits/Parse.php:102-150 | credentials and max-age parse alike when present; when missing, both raise, with different errors |
| LegacyParse.OriginTrivialShared | src/Cors/Traits/Parse.php:163-169 | with the setting present, both give `''` for an empty header and `*` for a `*` policy |
| LegacyParse.BareHostShared | src/Cors/Traits/Parse.php:172-211 | for an origin header without `scheme://`, both match the same way; the later writes the match as `https://` plus it, keeping `''` and `*` |
| LegacyParse.HostPolicyDiffers | src/Cors/Traits/Parse.php:232-237 | a bare host policy refuses `https://` plus that host in the earlier package and accepts it in the later one |
| LegacyValidate.ValidateSettingBool | src/Cors/Traits/Validate.php:61-70 | agrees with the later `validateBool` |
| LegacyValidate.ValidateSettingString | src/Cors/Traits/Validate.php:82-91 | agrees with the later `validateString` |
| LegacyValidate.ValidateSettingCallable | src/Cors/Traits/Validate.php:103-112 | agrees with the later `validateCallable` |
| LegacyValidate.ValidateSettingInt | src/Cors/Traits/Validate.php:124-137 | agrees with the later `validateInt`, error included |
| LegacyValidate.FirstNonString | src/Cors/Traits/Validate.php:156-160 | finds the first entry that is not a string; every entry before it is a string |
| LegacyValidate.ValidateSettingArray | src/Cors/Traits/Validate.php:149-168 | agrees with the later `validateArray`, errors included |
| LegacyValidate.ValidateSetting | src/Cors/Traits/Validate.php:35-49 | agrees with the later `__invoke` on every name, value and list of types, so the earlier setting rules are the ones `InvokeDecides` states |
| Examples.CommaListExample | tests/MiddlewareCors/Traits/ParseTest.php:76 | `'hello, my,honey'` is normalised to `'hello, my, honey'` |
| Examples.WildcardAcceptsSubdomain | src/MiddlewareCors/Traits/Parse.php:319-330 | `*.dummy.com` accepts `www.dummy.com` |
| Examples.WildcardRefusesOthers | src/MiddlewareCors/Traits/Parse.php:319-334 | `*.dummy.com` refuses `dummy.com` and `evil.com` |
| Examples.ExactIgnoresCase | src/MiddlewareCors/Traits/Parse.php:310-318 | `WWW.Dummy.com` matches `www.dummy.com` |
| Examples.PreflightRefusesDelete | tests/MiddlewareCors/PreflightTest.php:147-154 | with `['PUT', 'POST']` allowed, the request method `delete` is refused, the error carrying sent `DELETE` and allowed `['PUT', 'POST']` |
| Examples.PreflightAllowsPut | tests/MiddlewareCors/PreflightTest.php:185-190 | with `['PUT', 'POST']` allowed, the request method `pUt` is answered with `Access-Control-Allow-Methods: PUT, POST` |
| Examples.PolicyKeepsPort | src/MiddlewareCors/Traits/Parse.php:236-245 | the policy `example.com` and the origin `https://example.com:8443/path` give `https://example.com:8443`: the scheme and the non-default port are kept, the path is dropped |
| Examples.DummyHostPolicy | src/Cors/Traits/Parse.php:232-237 | the policy `www.dummy.com` and the origin `https://www.dummy.com`: the earlier package refuses, the later accepts |
| Url.ParseComposed | src/MiddlewareCors/Traits/Parse.php:193-198 | parsing `scheme://host[:port][path]` gives back that scheme, host and port |
| Url.ParseUrl | src/MiddlewareCors/Traits/Parse.php:193-199 | the `parse_url` stand-in: a host comes only with a non-empty scheme and is non-empty and colon-free; a port comes only with a host and is at most 65535; text without `://` yields no parts |
| Http.ApplyHeaders | src/MiddlewareCors.php:218-220 | the `foreach` setting each accumulated header on the response gives the response with all of them set and the others kept |
| Http.Handler.Handle | src/MiddlewareCors.php:216 | the next handler answers the request and counts one more call |
| Text.CommaListIdempotent | src/MiddlewareCors/Traits/Parse.php:71-95 | normalising a comma list twice is the same as once |
| Text.PiecesOfCommaList | src/MiddlewareCors/Traits/Parse.php:71-95 | the normalised list cuts into the same trimmed pieces as the original |
| Text.IntRoundTrip | src/MiddlewareCors/Traits/Parse.php:78-79 | the decimal written for an int parses back to that int |

## Left out

- Logging. The logger calls and the log text are not modelled, because they do not change any result.
- Exception message texts. Errors are told apart by kind and payload, not by message.
- I/O and framework glue are not part of this model: the Zend Framework factory and config provider, and `setLogger`.
- The preflight object. `process` creates it lazily and drives it through `PreflightInterface`
  (`setSettings`, `setOrigin`, `setHeaders`, `handle`). That interface's implementation is not part of
  this model, so the handler is a parameter of `Decide` and `Process`. `PackagedPreflight` wires in
  `Preflight::__invoke` with the factory's empty response.
- `badOriginCallable` is read from the settings in the source. Here it is a parameter, because a
  settings value models only callables of the request. What it returns is ignored, as in the source.
- `ValidateSettings::getDefaults` and `ValidateSettings::validate` are not part of this model. They
  appear as the `defaults` and `validate` parameters of the middleware.
- MiddlewareCors.MiddlewareCors.constructor: does not validate the settings passed in, because a
  constructor here cannot report a failure. `SetSettings` models merging followed by validation.
- Callable strings and arrays. PHP's `is_callable` accepts function names such as `'trim'`. Here only a
  `Callback` value is callable, so a string setting naming a function is treated as a string.
- Loose comparison. `in_array` without `true` for methods is modelled as exact string equality, so PHP's
  numeric-string equalities such as `'1e1' == '10'` are left out.
- Header names. PSR-7 header names are case-insensitive and keep their order. Requests are modelled with
  lower-cased names and responses as maps, so ordering is not modelled.
- `parse_url`. It is replaced by a splitter for `scheme://host[:port][path]`. Userinfo, IPv6 literals,
  and inputs that `parse_url` parses differently without `://` are left out. Text without `://`
  yields no parts, as `parse_url('dummy.com')` does.
- Preflight.WithMaxAge: `$maxAge > 0` compares the parsed string with 0, and `(int)` converts it. The model
  reads only an optionally negative decimal integer and adds no header for any other string. PHP 8 differs
  in two ways. A numeric string of another form, such as `+5`, `1.5` or `1e3`, is compared as a number and
  sent truncated to an integer (`5`, `1`, `1000`). A non-numeric string is compared with `"0"` as a string,
  so `abc` or `5abc` passes that test, and the header then carries its leading-digit value (`0`, `5`). Such
  strings come from a string setting or a callback.
- Wildcard matching. `preg_quote` plus `preg_match('/^…$/')` is modelled as a glob where `*` matches any
  run of characters. PCRE's `.` does not match a newline and `$` also matches before a trailing newline;
  those cases are left out.
- A non-string entry in an origin list raises a `TypeError` under `strict_types`. In the source that entry
  has already been appended to `$allowedOrigins`, but after a throw that list is no longer observable, so
  the model does not record it.
- `array_merge` renumbers integer keys. Settings keys are strings here.
- Floats are left out, because no setting is meant to be a float.
- Preflight.Preflight.constructor: the logger it stores is left out.
