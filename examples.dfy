/** Concrete cases the middleware's own tests exercise, proved on the model. */
module Examples {
  import opened Text
  import opened Http
  import opened Settings
  import opened Exceptions
  import opened Parse
  import opened Preflight
  import LegacyParse

  /** `'hello, my,honey'` is cut at its two commas. */
  lemma SplitExample(s: string)
    requires s == "hello, my,honey"
    ensures Split(s, ',') == ["hello", " my", "honey"]
  {
    assert s == "hello" + [','] + " my" + [','] + "honey";
    SplitThree("hello", " my", "honey", ',');
  }

  /** `'hello, my,honey'` is normalised to `'hello, my, honey'`. */
  lemma CommaListExample(s: string)
    requires s == "hello, my,honey"
    ensures CommaList(s) == "hello, my, honey"
  {
    SplitExample(s);
    assert Trim(" my") == "my";
    assert Join(["hello", "my", "honey"], ", ") == "hello, my, honey";
    assert Pieces(s) == ["hello", "my", "honey"];
  }

  /** `*.dummy.com` accepts `www.dummy.com`. */
  lemma WildcardAcceptsSubdomain(pattern: string, origin: string)
    requires pattern == "*.dummy.com" && origin == "www.dummy.com"
    ensures OriginMatch(pattern, origin) == origin
  {
    var p := ".dummy.com";
    assert pattern == "*" + p;
    assert ToLower(p) == p;
    OriginMatchSuffix(p, origin);
    assert origin[3..] == p;
  }

  /** `*.dummy.com` refuses the bare `dummy.com` and an unrelated `evil.com`. */
  lemma WildcardRefusesOthers(pattern: string, origin: string)
    requires pattern == "*.dummy.com" && (origin == "dummy.com" || origin == "evil.com")
    ensures OriginMatch(pattern, origin) == ""
  {
    var p := ".dummy.com";
    assert pattern == "*" + p;
    assert ToLower(p) == p;
    OriginMatchSuffix(p, origin);
  }

  /** A pattern without `*` matches regardless of the case of its letters. */
  lemma ExactIgnoresCase(pattern: string, origin: string)
    requires pattern == "WWW.Dummy.com" && origin == "www.dummy.com"
    ensures OriginMatch(pattern, origin) == origin
  {
    var lower := ToLower(pattern);
    forall i | 0 <= i < |pattern| ensures lower[i] == origin[i] {
      assert lower[i] == LowerChar(pattern[i]);
    }
    assert lower == origin;
  }

  /** The list `['PUT', 'POST']` is offered as `PUT, POST`, and cuts back into
      its two methods. */
  lemma MethodsOfPutPost(settings: SettingsMap, request: Request)
    requires settings == map["allowMethods" := List([Str("PUT"), Str("POST")])]
    ensures ParseItem(settings, "allowMethods", request, false) == Ok("PUT, POST")
    ensures MethodList("PUT, POST") == ["PUT", "POST"]
  {
    assert Join(["PUT", "POST"], ", ") == "PUT, POST";
    assert Strings([Str("PUT"), Str("POST")]) == ["PUT", "POST"];
    CoerceMultiOther("allowMethods", List([Str("PUT"), Str("POST")]));
    UpperMethods();
    PiecesOfJoin(["PUT", "POST"]);
  }

  /** The upper-casing the method comparison applies: the allowed list is
      already upper case, and the tests' `delete` and `pUt` become `DELETE`
      and `PUT`. */
  lemma UpperMethods()
    ensures ToUpper("PUT, POST") == "PUT, POST"
    ensures ToUpper("delete") == "DELETE" && ToUpper("pUt") == "PUT"
  {
    assert ToUpper("PUT, POST") == "PUT, POST";
    var d := ToUpper("delete");
    forall i | 0 <= i < 6 ensures d[i] == "DELETE"[i] {
      assert d[i] == UpperChar("delete"[i]);
    }
    var p := ToUpper("pUt");
    forall i | 0 <= i < 3 ensures p[i] == "PUT"[i] {
      assert p[i] == UpperChar("pUt"[i]);
    }
  }

  /** A preflight asking for `delete` where only `PUT` and `POST` are allowed is
      refused, the error carrying the method asked for, upper-cased, and the
      methods allowed. */
  lemma PreflightRefusesDelete(settings: SettingsMap, request: Request, headers: Headers)
    requires settings == map["allowMethods" := List([Str("PUT"), Str("POST")])]
    requires HeaderLine(request, "access-control-request-method") == "delete"
    ensures AllowMethods(settings, request, headers) == Err(Rejected(MethodNotAllowed, "DELETE", ["PUT", "POST"]))
  {
    MethodsOfPutPost(settings, request);
    UpperMethods();
    var requested := HeaderLine(request, "access-control-request-method");
    var allowed := MethodList("PUT, POST");
    assert ToUpper(requested) == "DELETE";
    assert allowed == ["PUT", "POST"];
    assert "DELETE" !in allowed by {
      assert "DELETE" != "PUT" && "DELETE" != "POST";
    }
  }

  /** A preflight asking for `pUt` is answered with both allowed methods. */
  lemma PreflightAllowsPut(settings: SettingsMap, request: Request, headers: Headers)
    requires settings == map["allowMethods" := List([Str("PUT"), Str("POST")])]
    requires HeaderLine(request, "access-control-request-method") == "pUt"
    ensures AllowMethods(settings, request, headers).Ok?
    ensures AllowMethods(settings, request, headers).value[AllowMethodsHeader] == "PUT, POST"
  {
    MethodsOfPutPost(settings, request);
    UpperMethods();
    assert ToUpper(HeaderLine(request, "access-control-request-method")) == "PUT";
    assert ToUpper(HeaderLine(request, "access-control-request-method")) in MethodList("PUT, POST");
  }

  /** The policy `example.com` and the origin `https://example.com:8443/path`:
      the answer keeps the scheme and the port that is not the default. */
  lemma PolicyKeepsPort(settings: SettingsMap, request: Request, host: string, path: string)
    requires host == "example.com" && path == "/path"
    requires settings == map["origin" := Str(host)]
    requires HeaderLine(request, "origin") == "https://" + host + ":8443" + path
    ensures Parse.ResolveOrigin(settings, request).result == Ok("https://" + host + ":8443")
  {
    PortHeader(HeaderLine(request, "origin"), host, path);
    ExactPolicyServesOrigin(settings, request, "https", host, Some(8443), path);
  }

  /** The header of that example is the composition of its scheme, host, port
      and path, and the origin it names is written with its port. */
  lemma PortHeader(header: string, host: string, path: string)
    requires host == "example.com" && path == "/path"
    requires header == "https://" + host + ":8443" + path
    ensures ToLower(header) == header
    ensures header == Url.Compose("https", host, Some(8443), path)
    ensures SerialiseOrigin("https", host, 8443) == "https://" + host + ":8443"
    ensures ToLower(host) == host
    ensures forall j :: 0 <= j < |host| ==> host[j] != ':' && host[j] != '*' && !Url.EndsAuthority(host[j])
  {
    PortDigits();
    LowerHeader(header, host, path);
  }

  /** `8443` is written as its four digits. */
  lemma PortDigits()
    ensures NatToString(8443) == "8443"
  {
    assert NatToString(8443) == "8443";
  }

  /** The header of that example and its host are lower case. */
  lemma LowerHeader(header: string, host: string, path: string)
    requires host == "example.com" && path == "/path"
    requires header == "https://" + host + ":8443" + path
    ensures ToLower(header) == header
    ensures ToLower(host) == host
  {
    LowerText("https://");
    LowerText(host);
    LowerText(":8443");
    LowerText(path);
    ToLowerConcat("https://", host);
    ToLowerConcat("https://" + host, ":8443");
    ToLowerConcat("https://" + host + ":8443", path);
  }

  /** Text with no upper-case letter is its own lower case. */
  lemma LowerText(s: string)
    requires forall i :: 0 <= i < |s| ==> !('A' <= s[i] <= 'Z')
    ensures ToLower(s) == s
  {
  }

  /** The policy `www.dummy.com` and the origin `https://www.dummy.com`: refused
      by the earlier package, accepted by the later one. */
  lemma DummyHostPolicy(settings: SettingsMap, request: Request, host: string)
    requires host == "www.dummy.com"
    requires settings == map["origin" := Str(host)]
    requires HeaderLine(request, "origin") == "https://" + host
    ensures LegacyParse.ResolveOrigin(settings, request) == Ok("")
    ensures Parse.ResolveOrigin(settings, request).result == Ok("https://" + host)
  {
    assert ToLower(host) == host;
    assert forall j :: 0 <= j < |host| ==> host[j] != ':' && host[j] != '*' && !Url.EndsAuthority(host[j]);
    LegacyParse.HostPolicyDiffers(settings, request, host);
  }
}
