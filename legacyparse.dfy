/** The earlier `Cors` package's setting parsers. A missing setting reads as
    `null` instead of raising, and the origin header is matched as a whole,
    lower-cased, with no scheme or port put back afterwards. The wildcard
    matcher `parseOriginMatch` is the same as the later one, so `OriginMatch`
    serves both. */
module LegacyParse {
  import opened Text
  import opened Http
  import opened Settings
  import opened Exceptions
  import opened Url
  import Parse

  /** `$this->settings[$name]`: a missing key reads as `null`. */
  function Lookup(settings: SettingsMap, name: string): (v: Value)
    ensures name in settings ==> v == settings[name]
    ensures name !in settings ==> v == Null
  {
    if name in settings then settings[name] else Null
  }

  /** `parseItem($itemName, $request, $isSingle)`. */
  function ParseItem(settings: SettingsMap, name: string, request: Request, isSingle: bool): (r: Result<string>)
    ensures name !in settings ==> r == Ok("")
    ensures name in settings ==> r == Parse.ParseItem(settings, name, request, isSingle)
  {
    Parse.Coerce(name, Resolve(Lookup(settings, name), request), isSingle)
  }

  /** `parseAllowCredentials($request)`: only a boolean passes. */
  function ParseAllowCredentials(settings: SettingsMap, request: Request): (r: Result<bool>)
    ensures r.Ok? <==> Resolve(Lookup(settings, "allowCredentials"), request).Bool?
    ensures r.Ok? ==> r.value == Resolve(Lookup(settings, "allowCredentials"), request).b
    ensures r.Err? ==> r.error == NotBool
  {
    match Resolve(Lookup(settings, "allowCredentials"), request)
    case Bool(b) => Ok(b)
    case _ => Err(NotBool)
  }

  /** `parseMaxAge($request)`: only a non-negative integer passes. */
  function ParseMaxAge(settings: SettingsMap, request: Request): (r: Result<nat>)
    ensures r.Ok? <==> Resolve(Lookup(settings, "maxAge"), request).Int? && Resolve(Lookup(settings, "maxAge"), request).i >= 0
    ensures r.Ok? ==> r.value == Resolve(Lookup(settings, "maxAge"), request).i
    ensures !Resolve(Lookup(settings, "maxAge"), request).Int? ==> r == Err(NotInt)
    ensures Resolve(Lookup(settings, "maxAge"), request).Int? && Resolve(Lookup(settings, "maxAge"), request).i < 0 ==> r == Err(NegativeMaxAge)
  {
    match Resolve(Lookup(settings, "maxAge"), request)
    case Int(i) => if i < 0 then Err(NegativeMaxAge) else Ok(i)
    case _ => Err(NotInt)
  }

  /** `parseOrigin($request)`: the lower-cased origin header is matched against
      the policy itself, the first entry of a list to match deciding. */
  function ResolveOrigin(settings: SettingsMap, request: Request): (r: Result<string>)
    ensures HeaderLine(request, "origin") == "" ==> r == Ok("")
    ensures Resolve(Lookup(settings, "origin"), request).Str? ==>
      r == Ok(if HeaderLine(request, "origin") == "" then ""
              else Parse.OriginMatch(Resolve(Lookup(settings, "origin"), request).s, Parse.RequestOrigin(request)))
    ensures !Resolve(Lookup(settings, "origin"), request).Str? && !Resolve(Lookup(settings, "origin"), request).List? ==> r == Ok("")
  {
    var header := HeaderLine(request, "origin");
    if header == "" then Ok("")
    else
      var origin := ToLower(header);
      var policy := Resolve(Lookup(settings, "origin"), request);
      if policy.List? then Parse.WalkList(policy.items, origin).result
      else if policy.Str? then Ok(Parse.OriginMatch(policy.s, origin))
      else Ok("")
  }

  /** The origin decided by a list policy: the first entry matching the whole
      origin, or `""` when none does; an entry that is not a string, reached
      before a match, raises. */
  lemma ResolveOriginList(settings: SettingsMap, request: Request)
    requires HeaderLine(request, "origin") != "" && Resolve(Lookup(settings, "origin"), request).List?
    ensures var items := Resolve(Lookup(settings, "origin"), request).items;
      var origin := Parse.RequestOrigin(request);
      var r := ResolveOrigin(settings, request);
      && (r == Ok("") <==> Parse.NoMatchBefore(items, |items|, origin))
      && (r.Ok? && r.value != "" ==>
            exists k :: 0 <= k < |items| && Parse.NoMatchBefore(items, k, origin) && items[k].Str?
                        && r.value == Parse.OriginMatch(items[k].s, origin))
      && (r.Err? ==> r.error == NotConvertible)
  {
    var items := Resolve(Lookup(settings, "origin"), request).items;
    var origin := Parse.RequestOrigin(request);
    Parse.WalkListSpec(items, origin);
    var w := Parse.WalkList(items, origin);
    if w.result.Ok? && w.result.value != "" {
      var k := |w.tried| - 1;
      assert Parse.NoMatchBefore(items, k, origin) && items[k].Str? && w.result.value == Parse.OriginMatch(items[k].s, origin);
    }
  }

  /** The `parseOrigin` loop: returns with the first entry that matches. */
  method ParseOrigin(settings: SettingsMap, request: Request) returns (matched: Result<string>)
    ensures matched == ResolveOrigin(settings, request)
  {
    var origin := HeaderLine(request, "origin");
    if origin == "" {
      return Ok("");
    }
    origin := ToLower(origin);
    var originSetting := Resolve(Lookup(settings, "origin"), request);
    if originSetting.List? {
      var items := originSetting.items;
      var i := 0;
      while i < |items|
        invariant 0 <= i <= |items|
        invariant Parse.WalkList(items[i..], origin).result == Parse.WalkList(items, origin).result
      {
        assert items[i..][0] == items[i];
        if !items[i].Str? {
          return Err(NotConvertible);
        }
        var m := Parse.OriginMatch(items[i].s, origin);
        if m != "" {
          return Ok(m);
        }
        Parse.WalkListStep(items, i, origin);
        i := i + 1;
      }
      assert items[i..] == [];
      return Ok("");
    }
    if originSetting.Str? {
      return Ok(Parse.OriginMatch(originSetting.s, origin));
    }
    return Ok("");
  }

  // ---------------------------------------------------------------------------
  // What the two versions share, and where they part

  /** A present setting parses to the same value in both versions; a missing
      one reads as empty here where the later version raises. */
  lemma ParseItemShared(settings: SettingsMap, name: string, request: Request, isSingle: bool)
    ensures name in settings ==> ParseItem(settings, name, request, isSingle) == Parse.ParseItem(settings, name, request, isSingle)
    ensures name !in settings ==>
      ParseItem(settings, name, request, isSingle) == Ok("") &&
      Parse.ParseItem(settings, name, request, isSingle) == Err(MissingSetting(name))
  {
  }

  /** The credentials and maximum-age settings parse alike when present; when
      missing, only the error raised differs. */
  lemma CredentialsAndMaxAgeShared(settings: SettingsMap, request: Request)
    ensures "allowCredentials" in settings ==> ParseAllowCredentials(settings, request) == Parse.ParseAllowCredentials(settings, request)
    ensures "allowCredentials" !in settings ==>
      ParseAllowCredentials(settings, request) == Err(NotBool) &&
      Parse.ParseAllowCredentials(settings, request) == Err(MissingSetting("allowCredentials"))
    ensures "maxAge" in settings ==> ParseMaxAge(settings, request) == Parse.ParseMaxAge(settings, request)
    ensures "maxAge" !in settings ==>
      ParseMaxAge(settings, request) == Err(NotInt) &&
      Parse.ParseMaxAge(settings, request) == Err(MissingSetting("maxAge"))
  {
  }

  /** With an origin setting present, an empty origin header resolves to `""`
      in both, and a `*` policy to `*` in both. */
  lemma OriginTrivialShared(settings: SettingsMap, request: Request)
    requires "origin" in settings
    ensures HeaderLine(request, "origin") == "" ==>
      ResolveOrigin(settings, request) == Parse.ResolveOrigin(settings, request).result == Ok("")
    ensures HeaderLine(request, "origin") != "" && Resolve(settings["origin"], request) == Str("*") ==>
      ResolveOrigin(settings, request) == Parse.ResolveOrigin(settings, request).result == Ok("*")
  {
    if HeaderLine(request, "origin") != "" && Resolve(settings["origin"], request) == Str("*") {
      var parsed := ParseUrl(Parse.RequestOrigin(request));
      assert Parse.AddProtocolPortIfNeeded("*", parsed) == "*";
    }
  }

  /** An origin header with no `scheme://` part (a bare host name) is matched
      the same way by both versions; the later one then writes the match out as
      an `https://` origin, leaving `""` and `*` as they are. */
  lemma BareHostShared(settings: SettingsMap, request: Request)
    requires "origin" in settings && HeaderLine(request, "origin") != ""
    requires ParseUrl(Parse.RequestOrigin(request)).host.None?
    ensures ResolveOrigin(settings, request).Err? ==> Parse.ResolveOrigin(settings, request).result == ResolveOrigin(settings, request)
    ensures ResolveOrigin(settings, request).Ok? ==>
      var m := ResolveOrigin(settings, request).value;
      Parse.ResolveOrigin(settings, request).result == Ok(if m == "" || m == "*" then m else "https://" + m)
  {
    var parsed := ParseUrl(Parse.RequestOrigin(request));
    assert Parse.OriginHost(Parse.RequestOrigin(request)) == Parse.RequestOrigin(request);
    var r := ResolveOrigin(settings, request);
    if r.Ok? && r.value != "" && r.value != "*" {
      assert parsed == NoParts;
      Parse.AddProtocolPortDefaults(r.value, "", None);
    }
  }

  /** Where they part: with a host name such as `www.dummy.com` as the policy,
      the origin `https://` plus that host is refused by the earlier version,
      which compares the whole origin, and accepted by the later one, which
      compares its host. */
  lemma HostPolicyDiffers(settings: SettingsMap, request: Request, host: string)
    requires host != "" && ToLower(host) == host && '*' !in host && ':' !in host
    requires forall j :: 0 <= j < |host| ==> !EndsAuthority(host[j])
    requires settings == map["origin" := Str(host)]
    requires HeaderLine(request, "origin") == "https://" + host
    ensures ResolveOrigin(settings, request) == Ok("")
    ensures Parse.ResolveOrigin(settings, request).result == Ok("https://" + host)
  {
    var origin := "https://" + host;
    ToLowerConcat("https://", host);
    assert ToLower("https://") == "https://";
    assert Parse.RequestOrigin(request) == origin;
    assert Parse.OriginMatch(host, origin) == "" by {
      assert |host| != |origin|;
    }
    assert Compose("https", host, None, "") == origin;
    ParseComposed("https", host, None, "");
    assert Parse.OriginHost(origin) == host;
    assert Parse.OriginMatch(host, host) == host;
    Parse.AddProtocolPortOfHeader("https", host, None);
  }
}
