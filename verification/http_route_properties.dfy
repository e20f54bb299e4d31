/** Properties of the conversion layer that relate several calls: inverses and round
    trips, the order in which composite conversions report rejections, and the
    identity keys' independence from instance data. */
module HttpRouteProperties {
  import opened Wrappers
  import opened Seqs
  import opened Strings
  import opened Foreign
  import Api
  import opened Routes
  import opened HttpRoute

  // ---------------------------------------------------------------- paths

  /** The external exact/prefix record a canonical exact/prefix path match came from. */
  function PathMatchSource(pm: PathMatch): Option<Api.HttpPathMatch> {
    match pm
    case Exact(v) => Some(Api.HttpPathMatch.Exact(v))
    case Prefix(v) => Some(Api.PathPrefix(v))
    case Regex(_) => None
  }

  /** Exact and prefix path matches convert without loss, and every absolute canonical
      exact or prefix match is the conversion of its source record. */
  lemma PathMatchRoundTrip(p: Parsers, m: Api.HttpPathMatch, pm: PathMatch)
    ensures !m.RegularExpression? && ToPathMatch(p, m).Success? ==>
      PathMatchSource(ToPathMatch(p, m).value) == Some(m)
    ensures !pm.Regex? && pm.Valid() ==> ToPathMatch(p, PathMatchSource(pm).value) == Success(pm)
  {
  }

  /** The external rewrite record a canonical path modifier came from. */
  function PathModifierSource(pm: PathModifier): Api.HttpPathModifier {
    match pm
    case Full(v) => Api.ReplaceFullPath(v)
    case Prefix(v) => Api.ReplacePrefixMatch(v)
  }

  /** Path-modifier conversion is a bijection between absolute rewrite records and valid
      canonical modifiers. */
  lemma PathModifierRoundTrip(m: Api.HttpPathModifier, pm: PathModifier)
    ensures ToPathModifier(m).Success? ==> PathModifierSource(ToPathModifier(m).value) == m
    ensures pm.Valid() <==> ToPathModifier(PathModifierSource(pm)) == Success(pm)
  {
  }

  // ---------------------------------------------------------------- hosts

  /** The host pattern a canonical host match stands for. */
  function HostPattern(hm: HostMatch): string {
    match hm
    case Exact(h) => h
    case Suffix(labels) => "*." + Join(Reverse(labels), '.')
  }

  /** Host conversion loses nothing: the pattern is recoverable from the match. */
  lemma HostMatchRoundTrip(hostname: string)
    ensures HostPattern(ToHostMatch(hostname)) == hostname
  {
    if StartsWith(hostname, "*.") {
      var pieces := Split(hostname[2..], '.');
      assert ToHostMatch(hostname) == HostMatch.Suffix(Reverse(pieces));
      ReverseInvolutive(pieces);
      JoinSplit(hostname[2..], '.');
      assert hostname[..2] == "*.";
      calc {
        HostPattern(ToHostMatch(hostname));
        "*." + Join(Reverse(Reverse(pieces)), '.');
        "*." + hostname[2..];
        hostname;
      }
    }
  }

  /** Every suffix match with at least one label and no `.` inside a label is the
      conversion of its own pattern. */
  lemma HostSuffixRoundTrip(labels: seq<string>)
    requires |labels| >= 1
    requires forall i :: 0 <= i < |labels| ==> '.' !in labels[i]
    ensures ToHostMatch(HostPattern(HostMatch.Suffix(labels))) == HostMatch.Suffix(labels)
  {
    var h := HostPattern(HostMatch.Suffix(labels));
    var rest := Join(Reverse(labels), '.');
    assert h[..2] == "*.";
    assert h[2..] == rest;
    SplitJoin(Reverse(labels), '.');
    ReverseInvolutive(labels);
  }

  lemma WildcardHostExample()
    ensures ToHostMatch("*.example.com") == HostMatch.Suffix(["com", "example"])
  {
    var h := "*.example.com";
    assert StartsWith(h, "*.");
    assert h[2..] == "example" + ['.'] + "com";
    SplitCons("example", '.', "com");
    SplitNoSep("com", '.');
    assert Split(h[2..], '.') == ["example", "com"];
    assert Reverse(["example", "com"]) == ["com", "example"];
  }

  // ---------------------------------------------------------------- headers

  /** An exact header match validates its name and value exactly as a header-modifier
      entry with the same name and value does: same acceptance, same error, same parsed
      pair. A regular-expression header match validates its name the same way too. */
  lemma HeaderMatchAgreesWithHeaderPair(p: Parsers, name: string, value: string)
    ensures var hm, hp := ToHeaderMatch(p, Api.HttpHeaderMatch.Exact(name, value)),
                          ToHeaderPair(p, Api.HttpHeader(name, value));
      && (hm.Success? <==> hp.Success?)
      && (hm.Success? ==> hm.value.name == hp.value.0 && hm.value.value == hp.value.1)
      && (hm.Failure? ==> hm.error == hp.error)
    ensures var hr := ToHeaderMatch(p, Api.HttpHeaderMatch.RegularExpression(name, value));
      hr.Success? ==> ParseHeaderName(p, name) == Success(hr.value.name)
  {
  }

  // ---------------------------------------------------------------- query parameters

  /** Exact query-parameter matches are never validated: no parser is consulted. */
  lemma QueryParamExactUnvalidated(p1: Parsers, p2: Parsers, m: Api.HttpQueryParamMatch)
    requires m.Exact?
    ensures ToQueryParamMatch(p1, m).Success?
    ensures ToQueryParamMatch(p1, m) == ToQueryParamMatch(p2, m)
  {
  }

  // ---------------------------------------------------------------- fail-fast order

  /** `try_match` reports the path's rejection first, then that of the first rejected
      header, then that of the first rejected query parameter, then the method's. */
  lemma TryMatchFailFast(p: Parsers, m: Api.HttpRouteMatch, i: int)
    ensures m.path.Some? && ToPathMatch(p, m.path.value).Failure? ==>
      TryMatch(p, m) == Failure(ToPathMatch(p, m.path.value).error)
    ensures var hs := OrEmpty(m.headers);
      && (m.path.Some? ==> ToPathMatch(p, m.path.value).Success?)
      && 0 <= i < |hs| && ToHeaderMatch(p, hs[i]).Failure?
      && (forall j :: 0 <= j < i ==> ToHeaderMatch(p, hs[j]).Success?)
      ==> TryMatch(p, m) == Failure(ToHeaderMatch(p, hs[i]).error)
    ensures var hs, qs := OrEmpty(m.headers), OrEmpty(m.queryParams);
      && (m.path.Some? ==> ToPathMatch(p, m.path.value).Success?)
      && (forall j :: 0 <= j < |hs| ==> ToHeaderMatch(p, hs[j]).Success?)
      && 0 <= i < |qs| && ToQueryParamMatch(p, qs[i]).Failure?
      && (forall j :: 0 <= j < i ==> ToQueryParamMatch(p, qs[j]).Success?)
      ==> TryMatch(p, m) == Failure(ToQueryParamMatch(p, qs[i]).error)
    ensures var hs, qs := OrEmpty(m.headers), OrEmpty(m.queryParams);
      && (m.path.Some? ==> ToPathMatch(p, m.path.value).Success?)
      && (forall j :: 0 <= j < |hs| ==> ToHeaderMatch(p, hs[j]).Success?)
      && (forall j :: 0 <= j < |qs| ==> ToQueryParamMatch(p, qs[j]).Success?)
      && m.httpMethod.Some? && p.httpMethod(m.httpMethod.value).None?
      ==> TryMatch(p, m) == Failure(InvalidMethod(m.httpMethod.value))
  {
  }

  /** `header_modifier` reports the first rejected `add` entry first, then the first
      rejected `set` entry, then the first rejected `remove` name. */
  lemma HeaderModifierFailFast(p: Parsers, f: Api.HttpRequestHeaderFilter, i: int)
    ensures var adds := OrEmpty(f.addHeaders);
      && 0 <= i < |adds| && ToHeaderPair(p, adds[i]).Failure?
      && (forall j :: 0 <= j < i ==> ToHeaderPair(p, adds[j]).Success?)
      ==> ToHeaderModifier(p, f) == Failure(ToHeaderPair(p, adds[i]).error)
    ensures var adds, sets := OrEmpty(f.addHeaders), OrEmpty(f.setHeaders);
      && (forall j :: 0 <= j < |adds| ==> ToHeaderPair(p, adds[j]).Success?)
      && 0 <= i < |sets| && ToHeaderPair(p, sets[i]).Failure?
      && (forall j :: 0 <= j < i ==> ToHeaderPair(p, sets[j]).Success?)
      ==> ToHeaderModifier(p, f) == Failure(ToHeaderPair(p, sets[i]).error)
    ensures var adds, sets, removes := OrEmpty(f.addHeaders), OrEmpty(f.setHeaders), OrEmpty(f.removeHeaders);
      && (forall j :: 0 <= j < |adds| ==> ToHeaderPair(p, adds[j]).Success?)
      && (forall j :: 0 <= j < |sets| ==> ToHeaderPair(p, sets[j]).Success?)
      && 0 <= i < |removes| && p.headerName(removes[i]).None?
      && (forall j :: 0 <= j < i ==> p.headerName(removes[j]).Some?)
      ==> ToHeaderModifier(p, f) == Failure(InvalidHeaderName(removes[i]))
  {
  }

  /** `req_redirect` reports a rejected scheme first, then a relative path, then a
      rejected status code. */
  lemma RequestRedirectFailFast(p: Parsers, f: Api.HttpRequestRedirectFilter)
    ensures f.scheme.Some? && p.scheme(f.scheme.value).None? ==>
      ToRequestRedirect(p, f) == Failure(InvalidScheme(f.scheme.value))
    ensures
      && (f.scheme.Some? ==> p.scheme(f.scheme.value).Some?)
      && f.path.Some? && !StartsWith(f.path.value.path, "/")
      ==> ToRequestRedirect(p, f) == Failure(RedirectPathNotAbsolute(f.path.value.path))
    ensures
      && (f.scheme.Some? ==> p.scheme(f.scheme.value).Some?)
      && (f.path.Some? ==> StartsWith(f.path.value.path, "/"))
      && f.statusCode.Some? && p.statusCode(f.statusCode.value).None?
      ==> ToRequestRedirect(p, f) == Failure(InvalidStatusCode(f.statusCode.value))
  {
  }

  /** A zero port is the same as no port, and the port never decides acceptance. */
  lemma RedirectZeroPortIsNoPort(p: Parsers, f: Api.HttpRequestRedirectFilter, port: Option<uint16>)
    ensures ToRequestRedirect(p, f.(port := Some(0))) == ToRequestRedirect(p, f.(port := None))
    ensures ToRequestRedirect(p, f.(port := port)).Success? == ToRequestRedirect(p, f).Success?
  {
  }

  /** A rule matching prefix `/api` and method `GET`, with a filter adding `x-trace: 1`,
      converts with nothing defaulted in: no headers, no query parameters, and empty `set`
      and `remove` lists, whenever the parsers accept `GET`, `x-trace` and `1`. */
  lemma EndToEndExample(p: Parsers)
    requires p.httpMethod("GET") == Some(Method("GET"))
    requires p.headerName("x-trace") == Some(HeaderName("x-trace"))
    requires p.headerValue("1") == Some(HeaderValue("1"))
    ensures TryMatch(p, Api.HttpRouteMatch(Some(Api.PathPrefix("/api")), None, None, Some("GET")))
      == Success(HttpRouteMatch(Some(PathMatch.Prefix("/api")), [], [], Some(Method("GET"))))
    ensures ToHeaderModifier(p, Api.HttpRequestHeaderFilter(None, Some([Api.HttpHeader("x-trace", "1")]), None))
      == Success(HeaderModifierFilter([(HeaderName("x-trace"), HeaderValue("1"))], [], []))
  {
    assert StartsWith("/api", "/");
    var r := ToHeaderModifier(p, Api.HttpRequestHeaderFilter(None, Some([Api.HttpHeader("x-trace", "1")]), None));
    assert r.Success?;
    assert r.value.addHeaders == [(HeaderName("x-trace"), HeaderValue("1"))];
  }

  // ---------------------------------------------------------------- identity keys

  /** Group and kind come from the resource type alone; the name is the only instance
      data in a key, so keys of one type are equal exactly when the names are. */
  lemma GknNameIndependent(a: string, b: string)
    ensures GknForLinkerdHttpRoute(a).(name := b) == GknForLinkerdHttpRoute(b)
    ensures GknForGatewayHttpRoute(a).(name := b) == GknForGatewayHttpRoute(b)
    ensures GknForLinkerdHttpRoute(a) == GknForLinkerdHttpRoute(b) <==> a == b
    ensures GknForGatewayHttpRoute(a) == GknForGatewayHttpRoute(b) <==> a == b
  {
  }

  /** The two route schemas never share a key, whatever the names. This rests on the
      group constants of this model (`LinkerdPolicyGroup`, `GatewayGroup`), which stand in
      for the groups the resource types' derived metadata supplies. */
  lemma GknSchemasDisjoint(a: string, b: string)
    ensures GknForLinkerdHttpRoute(a) != GknForGatewayHttpRoute(b)
    ensures GknForLinkerdHttpRoute(a).kind == GknForGatewayHttpRoute(b).kind
  {
  }
}
