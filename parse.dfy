/** The parsing shared by the middleware and its preflight handler: resolving a
    setting to a string, a bool or a non-negative int; matching an Origin header
    against the origin policy; and rebuilding `scheme://host[:port]` for the
    origin that matched. */
module Parse {
  import opened Text
  import opened Http
  import opened Settings
  import opened Exceptions
  import opened Url

  // ---------------------------------------------------------------------------
  // parseItem

  /** What `parseItem` makes of a setting once it has been read and any callback
      called: `''` for false and null, an error for true, otherwise the value as a
      single string or as a comma-space separated list. */
  function Coerce(name: string, item: Value, isSingle: bool): (r: Result<string>)
    ensures item.Bool? ==> (r.Err? <==> item.b)
    ensures item.Null? || (item.Bool? && !item.b) ==> r == Ok("")
    ensures item.Callback? ==> r == Err(NotConvertible)
  {
    match item
    case Bool(b) => if b then Err(TrueSetting(name)) else Ok("")
    case Null => Ok("")
    case Str(s) =>
      var parts := Pieces(s);
      if isSingle then (if |parts| == 1 then Ok(parts[0]) else Err(NotSingle))
      else Ok(Join(parts, ", "))
    case Int(i) =>
      if isSingle then Ok(IntToString(i)) else Ok(CommaList(IntToString(i)))
    case List(items) =>
      if isSingle then
        if |items| == 1 then
          (match StringOf(items[0])
           case Some(s) => Ok(s)
           case None => Err(NotConvertible))
        else Err(NotSingle)
      else
        (match JoinValues(items, ", ")
         case Some(s) => Ok(s)
         case None => Err(NotConvertible))
    case Callback(_) =>
      // a callback returning a callback: `count()` and `(string)` both throw
      Err(NotConvertible)
  }

  /** `parseItem($itemName, $request, $isSingle)` over the settings map. */
  function ParseItem(settings: SettingsMap, name: string, request: Request, isSingle: bool): (r: Result<string>)
    ensures name !in settings ==> r == Err(MissingSetting(name))
    ensures name in settings ==> r == Coerce(name, Resolve(settings[name], request), isSingle)
    ensures r == Err(TrueSetting(name)) <==> name in settings && Resolve(settings[name], request).Bool? && Resolve(settings[name], request).b
  {
    if name !in settings then Err(MissingSetting(name))
    else Coerce(name, Resolve(settings[name], request), isSingle)
  }

  /** Single mode: an int is its decimal string, a string must hold no comma and
      is returned trimmed, a list must hold exactly one convertible element. */
  lemma CoerceSingle(name: string, item: Value)
    ensures item.Int? ==> Coerce(name, item, true) == Ok(IntToString(item.i))
    ensures item.Str? ==> Coerce(name, item, true) == (if ',' in item.s then Err(NotSingle) else Ok(Trim(item.s)))
    ensures item.List? && |item.items| != 1 ==> Coerce(name, item, true) == Err(NotSingle)
    ensures item.List? && |item.items| == 1 && item.items[0].Str? ==> Coerce(name, item, true) == Ok(item.items[0].s)
  {
    if item.Str? {
      SplitSingle(item.s, ',');
    }
  }

  /** Multi mode on a string: the pieces are kept, the separators normalised to
      `", "`, and normalising again changes nothing. */
  lemma CoerceMultiString(name: string, s: string)
    ensures Coerce(name, Str(s), false) == Ok(CommaList(s))
    ensures Pieces(CommaList(s)) == Pieces(s)
    ensures Coerce(name, Str(CommaList(s)), false) == Ok(CommaList(s))
  {
    PiecesOfCommaList(s);
    CommaListIdempotent(s);
  }

  /** Multi mode on an int or a list of strings: the decimal string, or the
      strings joined with `", "`. */
  lemma CoerceMultiOther(name: string, item: Value)
    ensures item.Int? ==> Coerce(name, item, false) == Ok(IntToString(item.i))
    ensures item.List? && (forall i :: 0 <= i < |item.items| ==> item.items[i].Str?) ==>
      Coerce(name, item, false) == Ok(Join(Strings(item.items), ", "))
  {
    if item.Int? {
      IntToStringPlain(item.i);
      CommaListOfPlain(IntToString(item.i));
    }
  }

  // ---------------------------------------------------------------------------
  // parseAllowCredentials / parseMaxAge

  /** `parseAllowCredentials`: the resolved setting, which must be a bool. */
  function ParseAllowCredentials(settings: SettingsMap, request: Request): (r: Result<bool>)
    ensures "allowCredentials" !in settings ==> r == Err(MissingSetting("allowCredentials"))
    ensures r.Ok? <==> "allowCredentials" in settings && Resolve(settings["allowCredentials"], request).Bool?
    ensures r.Ok? ==> r.value == Resolve(settings["allowCredentials"], request).b
    ensures "allowCredentials" in settings && !Resolve(settings["allowCredentials"], request).Bool? ==> r == Err(NotBool)
  {
    if "allowCredentials" !in settings then Err(MissingSetting("allowCredentials"))
    else
      match Resolve(settings["allowCredentials"], request)
      case Bool(b) => Ok(b)
      case _ => Err(NotBool)
  }

  /** `parseMaxAge`: the resolved setting, which must be an int of 0 or more. */
  function ParseMaxAge(settings: SettingsMap, request: Request): (r: Result<nat>)
    ensures "maxAge" !in settings ==> r == Err(MissingSetting("maxAge"))
    ensures r.Ok? <==> "maxAge" in settings && Resolve(settings["maxAge"], request).Int? && Resolve(settings["maxAge"], request).i >= 0
    ensures r.Ok? ==> r.value == Resolve(settings["maxAge"], request).i
    ensures "maxAge" in settings && !Resolve(settings["maxAge"], request).Int? ==> r == Err(NotInt)
    ensures "maxAge" in settings && Resolve(settings["maxAge"], request).Int? && Resolve(settings["maxAge"], request).i < 0 ==> r == Err(NegativeMaxAge)
  {
    if "maxAge" !in settings then Err(MissingSetting("maxAge"))
    else
      match Resolve(settings["maxAge"], request)
      case Int(i) => if i < 0 then Err(NegativeMaxAge) else Ok(i)
      case _ => Err(NotInt)
  }

  // ---------------------------------------------------------------------------
  // parseOriginMatch

  /** `parseOriginMatch($item, $origin)`: `''` and `'*'` stand for themselves;
      any other pattern is lower-cased and yields the origin if it matches it,
      exactly when it holds no `*`, as an anchored wildcard otherwise. */
  function OriginMatch(item: string, origin: string): (r: string)
    ensures item == "" || item == "*" ==> r == item
    ensures item != "" && item != "*" ==> r == origin || r == ""
    ensures item != "" && item != "*" && '*' !in item ==> (r != "" <==> origin != "" && ToLower(item) == origin)
    ensures '*' in item && item != "*" ==> (r != "" <==> origin != "" && Glob(ToLower(item), origin))
  {
    ToLowerStar(item);
    if item == "" || item == "*" then item
    else
      var pattern := ToLower(item);
      if '*' !in pattern then
        if pattern == origin then origin else ""
      else
        if Glob(pattern, origin) then origin else ""
  }

  /** Patterns are compared case-insensitively: lower-casing the pattern first
      changes nothing. */
  lemma OriginMatchIgnoresCase(item: string, origin: string)
    ensures OriginMatch(ToLower(item), origin) == OriginMatch(item, origin)
  {
    ToLowerStar(item);
    ToLowerIdempotent(item);
    ToLowerStar(ToLower(item));
  }

  /** A pattern without `*` matches a non-empty origin exactly when it is equal
      to the origin up to the case of its letters; with `*` the match is the
      wildcard match of the lower-cased pattern. */
  lemma OriginMatchIsGlob(item: string, origin: string)
    requires item != "" && item != "*" && origin != ""
    ensures OriginMatch(item, origin) == (if Glob(ToLower(item), origin) then origin else "")
  {
    ToLowerStar(item);
    if '*' !in item {
      GlobLiteral(ToLower(item), origin);
    }
  }

  /** A pattern `*` + text accepts exactly the origins that end with the text,
      lower-cased: `*.dummy.com` admits every subdomain of `dummy.com`. */
  lemma OriginMatchSuffix(p: string, origin: string)
    requires '*' !in p && p != "" && origin != ""
    ensures OriginMatch("*" + p, origin) ==
      (if |p| <= |origin| && origin[|origin| - |p|..] == ToLower(p) then origin else "")
  {
    assert ToLower("*" + p) == "*" + ToLower(p);
    ToLowerStar(p);
    LeadingStar(ToLower(p), origin);
  }

  // ---------------------------------------------------------------------------
  // addProtocolPortIfNeeded, against the ASCII serialisation of an origin

  /** The default port of a scheme, for the two schemes CORS deals in. */
  function DefaultPort(scheme: string): Option<nat>
  {
    if scheme == "http" then Some(80) else if scheme == "https" then Some(443) else None
  }

  /** Section 6.2 of RFC 6454: scheme, `"://"`, host, and `":"` with the port
      unless it is the scheme's default port. */
  function SerialiseOrigin(scheme: string, host: string, port: nat): string
  {
    scheme + "://" + host + (if DefaultPort(scheme) == Some(port) then "" else ":" + NatToString(port))
  }

  /** A scheme written with its `"://"` names http or https exactly when it is
      that scheme. */
  lemma ProtocolOfScheme(scheme: string)
    ensures scheme + "://" == "http://" <==> scheme == "http"
    ensures scheme + "://" == "https://" <==> scheme == "https"
  {
    if scheme + "://" == "http://" {
      assert scheme == (scheme + "://")[..|scheme|];
    }
    if scheme + "://" == "https://" {
      assert scheme == (scheme + "://")[..|scheme|];
    }
  }

  /** `addProtocolPortIfNeeded($matched, $parsed)`. */
  function AddProtocolPortIfNeeded(matched: string, parsed: Url): (r: string)
    ensures matched == "" || matched == "*" ==> r == matched
    ensures matched != "" && matched != "*" ==>
      var scheme := if parsed.scheme.Some? then parsed.scheme.value else "https";
      var port := if parsed.port.Some? && parsed.port.value != 0 then parsed.port.value
                  else if DefaultPort(scheme).Some? then DefaultPort(scheme).value else 80;
      r == SerialiseOrigin(scheme, matched, port)
    ensures r == "" <==> matched == ""
  {
    if matched == "" || matched == "*" then matched
    else
      ProtocolOfScheme(if parsed.scheme.Some? then parsed.scheme.value else "https");
      var protocol := if parsed.scheme.Some? then parsed.scheme.value + "://" else "https://";
      var given := if parsed.port.Some? then parsed.port.value else 0;
      var port := if given != 0 then given else if protocol == "https://" then 443 else 80;
      if (protocol == "http://" && port == 80) || (protocol == "https://" && port == 443) then protocol + matched
      else protocol + matched + ":" + NatToString(port)
  }

  /** Without a scheme the origin is served as https on its default port; a
      scheme other than http and https is given port 80 when the origin names no
      port, and has its port written out whatever it is. */
  lemma AddProtocolPortDefaults(matched: string, scheme: string, port: Option<nat>)
    requires matched != "" && matched != "*"
    ensures AddProtocolPortIfNeeded(matched, Url(None, None, None)) == "https://" + matched
    ensures DefaultPort(scheme).None? && port.None? ==>
      AddProtocolPortIfNeeded(matched, Url(Some(scheme), None, port)) == scheme + "://" + matched + ":80"
    ensures DefaultPort(scheme).None? && port.Some? && port.value != 0 ==>
      AddProtocolPortIfNeeded(matched, Url(Some(scheme), None, port)) == scheme + "://" + matched + ":" + NatToString(port.value)
  {
    assert NatToString(80) == "80";
  }

  /** An origin header `scheme://host[:port]` whose host is the matched host is
      served back as its own serialisation. */
  lemma AddProtocolPortOfHeader(scheme: string, host: string, port: Option<nat>)
    requires scheme != [] && ':' !in scheme
    requires host != [] && host != "*" && ':' !in host && forall j :: 0 <= j < |host| ==> !EndsAuthority(host[j])
    requires port.Some? ==> 0 < port.value <= 65535
    ensures AddProtocolPortIfNeeded(host, ParseUrl(Compose(scheme, host, port, ""))) ==
      SerialiseOrigin(scheme, host, if port.Some? then port.value else if DefaultPort(scheme).Some? then DefaultPort(scheme).value else 80)
  {
    ParseComposed(scheme, host, port, "");
  }

  // ---------------------------------------------------------------------------
  // parseOrigin

  /** What resolving the origin yields, and the patterns tried on the way, in
      order (the `$allowedOrigins` the caller passes by reference). */
  datatype OriginOutcome = OriginOutcome(result: Result<string>, tried: seq<string>)

  /** No pattern among the first `n` of a list policy is a string that matches. */
  ghost predicate NoMatchBefore(items: seq<Value>, n: nat, host: string)
    requires n <= |items|
  {
    forall j :: 0 <= j < n ==> items[j].Str? && OriginMatch(items[j].s, host) == ""
  }

  /** The `foreach` over a list policy: every entry is tried in order until one
      matches; an entry that is not a string is a `TypeError` under strict types. */
  function WalkList(items: seq<Value>, host: string): (o: OriginOutcome)
    ensures |o.tried| <= |items|
    ensures o.result.Err? ==> o.result.error == NotConvertible && |o.tried| < |items|
    ensures o.result.Ok? && o.result.value != "" ==> o.tried != []
    ensures o.result == Ok("") ==> |o.tried| == |items|
  {
    if items == [] then OriginOutcome(Ok(""), [])
    else if !items[0].Str? then OriginOutcome(Err(NotConvertible), [])
    else
      var matched := OriginMatch(items[0].s, host);
      if matched != "" then OriginOutcome(Ok(matched), [items[0].s])
      else
        var rest := WalkList(items[1..], host);
        OriginOutcome(rest.result, [items[0].s] + rest.tried)
  }

  /** The walk stops at the first match, or at the first entry that is not a
      string, or tries every entry: and the patterns tried are the string entries
      it went through, in order. */
  lemma {:induction false} WalkListSpec(items: seq<Value>, host: string)
    ensures var w := WalkList(items, host);
      && |w.tried| <= |items|
      && (forall j :: 0 <= j < |w.tried| ==> items[j].Str? && w.tried[j] == items[j].s)
      && (w.result.Ok? && w.result.value != "" ==>
            |w.tried| >= 1 && NoMatchBefore(items, |w.tried| - 1, host)
            && OriginMatch(items[|w.tried| - 1].s, host) == w.result.value)
      && (w.result == Ok("") ==> |w.tried| == |items| && NoMatchBefore(items, |items|, host))
      && (w.result.Err? ==>
            w.result.error == NotConvertible && |w.tried| < |items|
            && NoMatchBefore(items, |w.tried|, host) && !items[|w.tried|].Str?)
  {
    if items != [] && items[0].Str? && OriginMatch(items[0].s, host) == "" {
      WalkListSpec(items[1..], host);
    }
  }

  /** The lower-cased Origin header. */
  function RequestOrigin(request: Request): string
  {
    ToLower(HeaderLine(request, "origin"))
  }

  /** The host the policy is matched against: the parsed host, or the whole
      origin when none can be parsed. */
  function OriginHost(origin: string): (h: string)
    ensures h == origin || (ParseUrl(origin).host == Some(h) && h != "" && ':' !in h)
    ensures ParseUrl(origin) == NoParts ==> h == origin
  {
    var parsed := ParseUrl(origin);
    if parsed.host.Some? then parsed.host.value else origin
  }

  /** `parseOrigin`: the origin to allow (`'*'`, a serialised origin, or `''` for
      none) and the patterns tried. */
  function ResolveOrigin(settings: SettingsMap, request: Request): (o: OriginOutcome)
    ensures "origin" !in settings ==> o == OriginOutcome(Err(MissingSetting("origin")), [])
    ensures "origin" in settings && HeaderLine(request, "origin") == "" ==> o == OriginOutcome(Ok(""), [])
    ensures "origin" in settings && HeaderLine(request, "origin") != "" && Resolve(settings["origin"], request).Str? ==>
      var policy := Resolve(settings["origin"], request).s;
      var matched := OriginMatch(policy, OriginHost(RequestOrigin(request)));
      && o.tried == [policy]
      && (o.result == Ok("") <==> matched == "")
      && (policy == "*" ==> o.result == Ok("*"))
      && o.result == Ok(AddProtocolPortIfNeeded(matched, ParseUrl(RequestOrigin(request))))
    ensures "origin" in settings && HeaderLine(request, "origin") != "" &&
            !Resolve(settings["origin"], request).Str? && !Resolve(settings["origin"], request).List? ==>
      o == OriginOutcome(Ok(""), [])
  {
    if "origin" !in settings then OriginOutcome(Err(MissingSetting("origin")), [])
    else
      var header := HeaderLine(request, "origin");
      if header == "" then OriginOutcome(Ok(""), [])
      else
        var origin := ToLower(header);
        var parsed := ParseUrl(origin);
        var host := OriginHost(origin);
        var policy := Resolve(settings["origin"], request);
        if policy.List? then
          var w := WalkList(policy.items, host);
          if w.result.Ok? then OriginOutcome(Ok(AddProtocolPortIfNeeded(w.result.value, parsed)), w.tried) else w
        else if policy.Str? then
          OriginOutcome(Ok(AddProtocolPortIfNeeded(OriginMatch(policy.s, host), parsed)), [policy.s])
        else OriginOutcome(Ok(""), [])
  }

  /** An exact host policy meeting an origin header `scheme://host[:port][path]`
      that names the same host is answered with the header's own origin:
      scheme, host, and the port unless it is the scheme's default. */
  lemma ExactPolicyServesOrigin(settings: SettingsMap, request: Request, scheme: string, host: string, port: Option<nat>, path: string)
    requires scheme != [] && ':' !in scheme
    requires host != [] && ToLower(host) == host && '*' !in host && ':' !in host
    requires forall j :: 0 <= j < |host| ==> !EndsAuthority(host[j])
    requires port.Some? ==> 0 < port.value <= 65535
    requires path == [] || EndsAuthority(path[0])
    requires "origin" in settings && Resolve(settings["origin"], request) == Str(host)
    requires RequestOrigin(request) == Compose(scheme, host, port, path)
    ensures ResolveOrigin(settings, request) ==
      OriginOutcome(Ok(SerialiseOrigin(scheme, host, if port.Some? then port.value
                                                     else if DefaultPort(scheme).Some? then DefaultPort(scheme).value else 80)),
                    [host])
  {
    var origin := RequestOrigin(request);
    assert HeaderLine(request, "origin") != "" by {
      assert |origin| == |HeaderLine(request, "origin")|;
    }
    ParseComposed(scheme, host, port, path);
    assert OriginHost(origin) == host;
    assert OriginMatch(host, host) == host;
    AddProtocolPortOfHeader(scheme, host, port);
  }

  /** A list policy is tried entry by entry: the result is `''` exactly when no
      entry matched (all of them then tried), and otherwise the serialisation of
      the first entry that matched, with the entries up to it tried. */
  lemma ResolveOriginList(settings: SettingsMap, request: Request)
    requires "origin" in settings && HeaderLine(request, "origin") != ""
    requires Resolve(settings["origin"], request).List?
    ensures var items := Resolve(settings["origin"], request).items;
      var o := ResolveOrigin(settings, request);
      var host := OriginHost(RequestOrigin(request));
      && (o.result == Ok("") <==> NoMatchBefore(items, |items|, host))
      && (o.result == Ok("") ==> o.tried == Strings(items))
      && (o.result.Ok? && o.result.value != "" ==>
            var k := |o.tried| - 1;
            0 <= k < |items| && NoMatchBefore(items, k, host) && items[k].Str?
            && o.tried == Strings(items[..k + 1])
            && o.result.value == AddProtocolPortIfNeeded(OriginMatch(items[k].s, host), ParseUrl(RequestOrigin(request))))
  {
    var items := Resolve(settings["origin"], request).items;
    var host := OriginHost(RequestOrigin(request));
    var w := WalkList(items, host);
    WalkListSpec(items, host);
    ResolveOriginIsWalk(settings, request);
    var o := ResolveOrigin(settings, request);
    if o.result == Ok("") {
      assert w.result == Ok("");
      assert o.tried == Strings(items);
    }
    if o.result.Ok? && o.result.value != "" {
      assert w.result.Ok? && w.result.value != "";
      assert o.tried == Strings(items[..|o.tried|]);
    }
  }

  /** Under a list policy, resolving the origin is walking the list against the
      header's host, a match then being written out with its scheme and port. */
  lemma ResolveOriginIsWalk(settings: SettingsMap, request: Request)
    requires "origin" in settings && HeaderLine(request, "origin") != ""
    requires Resolve(settings["origin"], request).List?
    ensures var w := WalkList(Resolve(settings["origin"], request).items, OriginHost(RequestOrigin(request)));
      var o := ResolveOrigin(settings, request);
      && o.tried == w.tried
      && (w.result.Err? ==> o.result == w.result)
      && (w.result.Ok? ==> o.result == Ok(AddProtocolPortIfNeeded(w.result.value, ParseUrl(RequestOrigin(request)))))
  {
  }

  /** The loop of `parseOrigin`: the outcome of the first `i` entries is known. */
  lemma WalkListStep(items: seq<Value>, i: nat, host: string)
    requires i < |items| && items[i].Str? && OriginMatch(items[i].s, host) == ""
    ensures WalkList(items[i..], host) ==
      OriginOutcome(WalkList(items[i + 1..], host).result, [items[i].s] + WalkList(items[i + 1..], host).tried)
  {
    assert items[i..][1..] == items[i + 1..];
  }

  /** After `i` entries that were strings and did not match, the walk goes on
      with the rest, those entries already tried. */
  lemma {:induction false} WalkListPrefix(items: seq<Value>, i: nat, host: string)
    requires i <= |items| && NoMatchBefore(items, i, host)
    ensures WalkList(items, host) ==
      OriginOutcome(WalkList(items[i..], host).result, Strings(items[..i]) + WalkList(items[i..], host).tried)
  {
    if i == 0 {
      assert items[0..] == items;
      assert Strings(items[..0]) == [];
    } else {
      var k := i - 1;
      WalkListPrefix(items, k, host);
      WalkListStep(items, k, host);
      var rest := WalkList(items[i..], host);
      StringsSnoc(items, k);
      assert Strings(items[..i]) + rest.tried == Strings(items[..k]) + ([items[k].s] + rest.tried);
    }
  }

  /** The strings of a prefix one entry longer. */
  lemma StringsSnoc(items: seq<Value>, k: nat)
    requires k < |items| && forall j :: 0 <= j <= k ==> items[j].Str?
    ensures Strings(items[..k + 1]) == Strings(items[..k]) + [items[k].s]
  {
    var longer := Strings(items[..k + 1]);
    var shorter := Strings(items[..k]) + [items[k].s];
    assert |longer| == |shorter|;
    forall j | 0 <= j <= k ensures longer[j] == shorter[j] {
      assert items[..k + 1][j] == items[j];
      if j < k {
        assert items[..k][j] == items[j];
      }
    }
  }

  /** Where the walk stops at entry `i`: at a non-string entry or at a match. */
  lemma WalkListStops(items: seq<Value>, i: nat, host: string)
    requires i < |items| && NoMatchBefore(items, i, host)
    ensures !items[i].Str? ==> WalkList(items, host) == OriginOutcome(Err(NotConvertible), Strings(items[..i]))
    ensures items[i].Str? && OriginMatch(items[i].s, host) != "" ==>
      WalkList(items, host) == OriginOutcome(Ok(OriginMatch(items[i].s, host)), Strings(items[..i + 1]))
  {
    WalkListPrefix(items, i, host);
    assert items[i..][0] == items[i];
    if items[i].Str? {
      StringsSnoc(items, i);
    }
  }

  /** One more string entry that does not match extends the entries known not
      to match. */
  lemma NoMatchExtend(items: seq<Value>, i: nat, host: string)
    requires i < |items| && NoMatchBefore(items, i, host)
    requires items[i].Str? && OriginMatch(items[i].s, host) == ""
    ensures NoMatchBefore(items, i + 1, host)
  {
  }

  /** A walk in which no entry matched has tried every entry. */
  lemma WalkListEnds(items: seq<Value>, host: string)
    requires NoMatchBefore(items, |items|, host)
    ensures WalkList(items, host) == OriginOutcome(Ok(""), Strings(items))
  {
    WalkListPrefix(items, |items|, host);
    assert items[|items|..] == [] && items[..|items|] == items;
  }

  /** The `foreach` of `parseOrigin` over a list policy: each entry is appended
      to `allowedOrigins` and matched against the host, stopping at the first
      match. */
  method TryEntries(items: seq<Value>, host: string, allowedOrigins: seq<string>)
    returns (matched: Result<string>, allowedOut: seq<string>)
    ensures matched == WalkList(items, host).result
    ensures allowedOut == allowedOrigins + WalkList(items, host).tried
  {
    allowedOut := allowedOrigins;
    var i := 0;
    while i < |items|
      invariant 0 <= i <= |items|
      invariant NoMatchBefore(items, i, host)
      invariant allowedOut == allowedOrigins + Strings(items[..i])
    {
      WalkListStops(items, i, host);
      if !items[i].Str? {
        matched := Err(NotConvertible);
        return;
      }
      StringsSnoc(items, i);
      allowedOut := allowedOut + [items[i].s];
      assert allowedOut == allowedOrigins + Strings(items[..i + 1]);
      var found := OriginMatch(items[i].s, host);
      if found != "" {
        matched := Ok(found);
        return;
      }
      NoMatchExtend(items, i, host);
      i := i + 1;
    }
    WalkListEnds(items, host);
    assert items[..i] == items;
    matched := Ok("");
  }

  /** `parseOrigin($request, $allowedOrigins)`: the outcome of `ResolveOrigin`,
      with every pattern tried appended to `allowedOrigins`. */
  method ParseOrigin(settings: SettingsMap, request: Request, allowedOrigins: seq<string>)
    returns (matched: Result<string>, allowedOut: seq<string>)
    ensures matched == ResolveOrigin(settings, request).result
    ensures allowedOut == allowedOrigins + ResolveOrigin(settings, request).tried
  {
    allowedOut := allowedOrigins;
    if "origin" !in settings {
      matched := Err(MissingSetting("origin"));
      return;
    }
    var header := HeaderLine(request, "origin");
    if header == "" {
      matched := Ok("");
      return;
    }
    var origin := ToLower(header);
    var parsed := ParseUrl(origin);
    var originHost := origin;
    if parsed.host.Some? {
      originHost := parsed.host.value;
    }
    var originSetting := Resolve(settings["origin"], request);
    var found := "";
    if originSetting.List? {
      var walked;
      walked, allowedOut := TryEntries(originSetting.items, originHost, allowedOut);
      if walked.Err? {
        matched := walked;
        return;
      }
      found := walked.value;
      if found != "" {
        matched := Ok(AddProtocolPortIfNeeded(found, parsed));
        return;
      }
    }
    if found == "" && originSetting.Str? {
      allowedOut := allowedOut + [originSetting.s];
      found := OriginMatch(originSetting.s, originHost);
    }
    matched := Ok(AddProtocolPortIfNeeded(found, parsed));
  }
}
