/** A small stand-in for PHP's `parse_url`, enough for an Origin header:
    `scheme "://" host [":" port] [path]`. Text without `"://"` yields no parts
    (as `parse_url('dummy.com')` yields only a path), and a malformed authority
    (empty scheme or host, a port that is not a number up to 65535) yields none
    either, as `parse_url` then returns false. */
module Url {
  import opened Text

  datatype Url = Url(scheme: Option<string>, host: Option<string>, port: Option<nat>)

  const NoParts := Url(None, None, None)

  predicate SeparatorAt(s: string, j: nat)
  {
    j + 3 <= |s| && s[j] == ':' && s[j + 1] == '/' && s[j + 2] == '/'
  }

  /** The first position at or after `from` where `"://"` starts. */
  function SchemeSeparator(s: string, from: nat): (r: Option<nat>)
    ensures r.Some? ==> from <= r.value && SeparatorAt(s, r.value)
    ensures r.Some? ==> forall j :: from <= j < r.value ==> !SeparatorAt(s, j)
    ensures r.None? ==> forall j :: from <= j ==> !SeparatorAt(s, j)
    decreases |s| - from
  {
    if from + 3 > |s| then None
    else if SeparatorAt(s, from) then Some(from)
    else SchemeSeparator(s, from + 1)
  }

  predicate EndsAuthority(c: char)
  {
    c == '/' || c == '?' || c == '#'
  }

  /** The position of the first character satisfying `stop`, or `|s|`. */
  function FirstWhere(s: string, stop: char -> bool): (r: nat)
    ensures r <= |s|
    ensures r < |s| ==> stop(s[r])
    ensures forall j :: 0 <= j < r ==> !stop(s[j])
  {
    if s == [] then 0 else if stop(s[0]) then 0 else 1 + FirstWhere(s[1..], stop)
  }

  function IsColon(c: char): bool
  {
    c == ':'
  }

  /** The authority part of what follows `"://"`: up to the first `/`, `?` or `#`. */
  function Authority(rest: string): (a: string)
    ensures a <= rest
  {
    rest[..FirstWhere(rest, EndsAuthority)]
  }

  /** Host and port of an authority, split at its first `:`. */
  function ParseAuthority(scheme: string, authority: string): (u: Url)
    ensures u.host.Some? ==> u.scheme == Some(scheme) && scheme != "" && u.host.value != "" && ':' !in u.host.value
    ensures u.port.Some? ==> u.host.Some? && u.port.value <= 65535
    ensures u.host.None? ==> u == NoParts
  {
    var colon := FirstWhere(authority, IsColon);
    var host := authority[..colon];
    if scheme == "" || host == "" then NoParts
    else if colon + 1 >= |authority| then Url(Some(scheme), Some(host), None)
    else
      match ParseNat(authority[colon + 1..])
      case Some(p) => if p <= 65535 then Url(Some(scheme), Some(host), Some(p)) else NoParts
      case None => NoParts
  }

  function ParseUrl(s: string): (u: Url)
    ensures u.host.Some? ==> u.scheme.Some? && u.scheme.value != "" && u.host.value != "" && ':' !in u.host.value
    ensures u.port.Some? ==> u.host.Some? && u.port.value <= 65535
    ensures u.host.None? ==> u == NoParts
    ensures SchemeSeparator(s, 0).None? ==> u == NoParts
  {
    match SchemeSeparator(s, 0)
    case None => NoParts
    case Some(i) => ParseAuthority(s[..i], Authority(s[i + 3..]))
  }

  /** The text an origin header carries when its scheme, host, optional port and
      path are written out. */
  function Compose(scheme: string, host: string, port: Option<nat>, path: string): string
  {
    scheme + "://" + host + PortText(port) + path
  }

  lemma {:induction false} FirstWhereAfterPrefix(a: string, b: string, stop: char -> bool)
    requires forall j :: 0 <= j < |a| ==> !stop(a[j])
    requires b == [] || stop(b[0])
    ensures FirstWhere(a + b, stop) == |a|
    decreases |a|
  {
    if a == [] {
      assert a + b == b;
    } else {
      var s := a + b;
      assert s[0] == a[0] && !stop(a[0]);
      assert s[1..] == a[1..] + b;
      var tail := a[1..];
      forall j | 0 <= j < |tail| ensures !stop(tail[j]) {
        assert tail[j] == a[j + 1];
      }
      FirstWhereAfterPrefix(tail, b, stop);
    }
  }

  function PortText(port: Option<nat>): string
  {
    if port.Some? then ":" + NatToString(port.value) else ""
  }

  lemma SchemeOfComposed(scheme: string, rest: string)
    requires ':' !in scheme
    ensures SchemeSeparator(scheme + "://" + rest, 0) == Some(|scheme|)
    ensures (scheme + "://" + rest)[..|scheme|] == scheme
    ensures (scheme + "://" + rest)[|scheme| + 3..] == rest
  {
    var s := scheme + "://" + rest;
    forall j | 0 <= j < |scheme| ensures !SeparatorAt(s, j) {
      assert s[j] == scheme[j];
    }
    assert SeparatorAt(s, |scheme|);
  }

  lemma PortTextClean(port: Option<nat>)
    ensures forall j :: 0 <= j < |PortText(port)| ==> !EndsAuthority(PortText(port)[j])
    ensures PortText(port) == [] || IsColon(PortText(port)[0])
  {
    if port.Some? {
      var digits := NatToString(port.value);
      forall j | 0 <= j < |PortText(port)| ensures !EndsAuthority(PortText(port)[j]) {
        if j > 0 {
          assert PortText(port)[j] == digits[j - 1];
          assert IsDigit(digits[j - 1]);
        }
      }
    }
  }

  lemma AuthorityOfComposed(host: string, port: Option<nat>, path: string)
    requires forall j :: 0 <= j < |host| ==> !EndsAuthority(host[j])
    requires path == [] || EndsAuthority(path[0])
    ensures Authority(host + PortText(port) + path) == host + PortText(port)
  {
    var hp := host + PortText(port);
    PortTextClean(port);
    forall j | 0 <= j < |hp| ensures !EndsAuthority(hp[j]) {
      if j >= |host| {
        assert hp[j] == PortText(port)[j - |host|];
      }
    }
    FirstWhereAfterPrefix(hp, path, EndsAuthority);
  }

  lemma HostPortOfAuthority(scheme: string, host: string, port: Option<nat>)
    requires scheme != [] && host != [] && ':' !in host
    requires port.Some? ==> port.value <= 65535
    ensures ParseAuthority(scheme, host + PortText(port)) == Url(Some(scheme), Some(host), port)
  {
    var authority := host + PortText(port);
    ColonAfterHost(host, port);
    assert authority[..|host|] == host;
    if port.Some? {
      var digits := NatToString(port.value);
      assert authority[|host| + 1..] == digits;
      assert |host| + 1 < |authority|;
      NatRoundTrip(port.value);
    } else {
      assert authority == host;
    }
  }

  /** In `host[":" port]` the first colon is the one after the host. */
  lemma ColonAfterHost(host: string, port: Option<nat>)
    requires ':' !in host
    ensures FirstWhere(host + PortText(port), IsColon) == |host|
  {
    forall j | 0 <= j < |host| ensures !IsColon(host[j]) {
      assert host[j] in host;
    }
    PortTextClean(port);
    FirstWhereAfterPrefix(host, PortText(port), IsColon);
  }

  /** Parsing a composed origin gives back its scheme, host and port. */
  lemma ParseComposed(scheme: string, host: string, port: Option<nat>, path: string)
    requires scheme != [] && ':' !in scheme
    requires host != [] && ':' !in host && forall j :: 0 <= j < |host| ==> !EndsAuthority(host[j])
    requires port.Some? ==> port.value <= 65535
    requires path == [] || EndsAuthority(path[0])
    ensures ParseUrl(Compose(scheme, host, port, path)) == Url(Some(scheme), Some(host), port)
  {
    var rest := host + PortText(port) + path;
    var s := Compose(scheme, host, port, path);
    assert s == scheme + "://" + rest;
    SchemeOfComposed(scheme, rest);
    assert ParseUrl(s) == ParseAuthority(s[..|scheme|], Authority(s[|scheme| + 3..]));
    AuthorityOfComposed(host, port, path);
    assert Authority(s[|scheme| + 3..]) == host + PortText(port);
    HostPortOfAuthority(scheme, host, port);
  }
}
