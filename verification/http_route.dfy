/** Conversion of Gateway-API-shaped route matches and filters into the canonical route
    model, with the validation the conversion performs. Every conversion is total; every
    conversion that can reject reports it through `Result`, and composite conversions stop
    at the first rejected part. */
module HttpRoute {
  import opened Wrappers
  import opened Seqs
  import opened Strings
  import opened Foreign
  import Api
  import opened Routes

  /** Why a conversion was rejected, tagged with the offending input. */
  datatype Error =
    | PathNotAbsolute(path: string)
    | RedirectPathNotAbsolute(path: string)
    | InvalidRegex(pattern: string)
    | InvalidHeaderName(name: string)
    | InvalidHeaderValue(value: string)
    | InvalidMethod(token: string)
    | InvalidScheme(scheme: string)
    | InvalidStatusCode(code: uint16)

  function ParseRegex(p: Parsers, s: string): (r: Result<Foreign.Regex, Error>)
    ensures r.Success? <==> p.regex(s).Some?
    ensures r.Success? ==> r.value == p.regex(s).value
    ensures r.Failure? ==> r.error == InvalidRegex(s)
  {
    p.regex(s).ToResult(InvalidRegex(s))
  }

  function ParseHeaderName(p: Parsers, s: string): (r: Result<HeaderName, Error>)
    ensures r.Success? <==> p.headerName(s).Some?
    ensures r.Success? ==> r.value == p.headerName(s).value
    ensures r.Failure? ==> r.error == InvalidHeaderName(s)
  {
    p.headerName(s).ToResult(InvalidHeaderName(s))
  }

  function ParseHeaderValue(p: Parsers, s: string): (r: Result<HeaderValue, Error>)
    ensures r.Success? <==> p.headerValue(s).Some?
    ensures r.Success? ==> r.value == p.headerValue(s).value
    ensures r.Failure? ==> r.error == InvalidHeaderValue(s)
  {
    p.headerValue(s).ToResult(InvalidHeaderValue(s))
  }

  // ---------------------------------------------------------------- primitive matchers

  /** `path_match`: exact and prefix paths must be absolute and are kept verbatim; a
      regular-expression path is compiled. */
  function ToPathMatch(p: Parsers, m: Api.HttpPathMatch): (r: Result<PathMatch, Error>)
    ensures r.Success? ==> r.value.Valid()
    ensures !m.RegularExpression? ==> (r.Failure? <==> !StartsWith(m.value, "/"))
    ensures !m.RegularExpression? && r.Failure? ==> r.error == PathNotAbsolute(m.value)
    ensures m.Exact? && r.Success? ==> r.value == PathMatch.Exact(m.value)
    ensures m.PathPrefix? && r.Success? ==> r.value == PathMatch.Prefix(m.value)
    ensures m.RegularExpression? ==> (r.Success? <==> p.regex(m.value).Some?)
    ensures m.RegularExpression? && r.Success? ==> r.value == PathMatch.Regex(p.regex(m.value).value)
    ensures m.RegularExpression? && r.Failure? ==> r.error == InvalidRegex(m.value)
  {
    match m
    case Exact(v) =>
      if !StartsWith(v, "/") then Failure(PathNotAbsolute(v)) else Success(PathMatch.Exact(v))
    case PathPrefix(v) =>
      if !StartsWith(v, "/") then Failure(PathNotAbsolute(v)) else Success(PathMatch.Prefix(v))
    case RegularExpression(v) =>
      var re :- ParseRegex(p, v);
      Success(PathMatch.Regex(re))
  }

  /** `host_match`: a host starting with `*.` becomes the reversed list of the `.`-separated
      labels after the wildcard; any other host is kept as it is. Never fails. */
  function ToHostMatch(hostname: string): (r: HostMatch)
    ensures r.Exact? <==> !StartsWith(hostname, "*.")
    ensures r.Exact? ==> r.hostname == hostname
    ensures r.Suffix? ==> r.reverseLabels == Reverse(Split(hostname[2..], '.'))
    ensures r.Suffix? ==> |r.reverseLabels| >= 1
    ensures r.Suffix? ==> forall i :: 0 <= i < |r.reverseLabels| ==> '.' !in r.reverseLabels[i]
  {
    if StartsWith(hostname, "*.") then
      SplitAfterWildcard(hostname);
      HostMatch.Suffix(Reverse(Split(hostname, '.')[1..]))
    else
      HostMatch.Exact(hostname)
  }

  /** Dropping the first piece of a `*.`-host's split is splitting what follows `*.`. */
  lemma SplitAfterWildcard(hostname: string)
    requires StartsWith(hostname, "*.")
    ensures Split(hostname, '.')[1..] == Split(hostname[2..], '.')
  {
    assert hostname == "*" + "." + hostname[2..];
    SplitCons("*", '.', hostname[2..]);
  }

  /** `header_match`: the name is parsed as a header name, then the value is parsed as a
      header value (exact match) or compiled as a regular expression. */
  function ToHeaderMatch(p: Parsers, m: Api.HttpHeaderMatch): (r: Result<HeaderMatch, Error>)
    ensures r.Success? <==>
      && p.headerName(m.name).Some?
      && (m.Exact? ==> p.headerValue(m.value).Some?)
      && (m.RegularExpression? ==> p.regex(m.value).Some?)
    ensures m.Exact? && r.Success? ==>
      r.value == HeaderMatch.Exact(p.headerName(m.name).value, p.headerValue(m.value).value)
    ensures m.RegularExpression? && r.Success? ==>
      r.value == HeaderMatch.Regex(p.headerName(m.name).value, p.regex(m.value).value)
    ensures p.headerName(m.name).None? ==> r == Failure(InvalidHeaderName(m.name))
    ensures p.headerName(m.name).Some? && m.Exact? && p.headerValue(m.value).None? ==>
      r == Failure(InvalidHeaderValue(m.value))
    ensures p.headerName(m.name).Some? && m.RegularExpression? && p.regex(m.value).None? ==>
      r == Failure(InvalidRegex(m.value))
  {
    match m
    case Exact(name, value) =>
      var n :- ParseHeaderName(p, name);
      var v :- ParseHeaderValue(p, value);
      Success(HeaderMatch.Exact(n, v))
    case RegularExpression(name, value) =>
      var n :- ParseHeaderName(p, name);
      var re :- ParseRegex(p, value);
      Success(HeaderMatch.Regex(n, re))
  }

  /** `query_param_match`: an exact match is copied without any validation; a
      regular-expression match compiles its value. */
  function ToQueryParamMatch(p: Parsers, m: Api.HttpQueryParamMatch): (r: Result<QueryParamMatch, Error>)
    ensures m.Exact? ==> r == Success(QueryParamMatch.Exact(m.name, m.value))
    ensures m.RegularExpression? ==> (r.Success? <==> p.regex(m.value).Some?)
    ensures m.RegularExpression? && r.Success? ==>
      r.value == QueryParamMatch.Regex(m.name, p.regex(m.value).value)
    ensures m.RegularExpression? && r.Failure? ==> r.error == InvalidRegex(m.value)
  {
    match m
    case Exact(name, value) => Success(QueryParamMatch.Exact(name, value))
    case RegularExpression(name, value) =>
      var re :- ParseRegex(p, value);
      Success(QueryParamMatch.Regex(name, re))
  }

  function ToMethod(p: Parsers, token: string): (r: Result<Method, Error>)
    ensures r.Success? <==> p.httpMethod(token).Some?
    ensures r.Success? ==> r.value == p.httpMethod(token).value
    ensures r.Failure? ==> r.error == InvalidMethod(token)
  {
    p.httpMethod(token).ToResult(InvalidMethod(token))
  }

  /** The header list of `try_match` (http_route.rs lines 67-71), converted fail-fast. */
  function HeaderMatches(p: Parsers, hs: seq<Api.HttpHeaderMatch>): Result<seq<HeaderMatch>, Error> {
    Traverse(hs, h => ToHeaderMatch(p, h))
  }

  /** The query-parameter list of `try_match` (http_route.rs lines 73-77), converted fail-fast. */
  function QueryParamMatches(p: Parsers, qs: seq<Api.HttpQueryParamMatch>): Result<seq<QueryParamMatch>, Error> {
    Traverse(qs, q => ToQueryParamMatch(p, q))
  }

  /** `try_match`: converts path, headers, query parameters and method in that order; an
      absent list is an empty list, an absent path or method stays absent, and the first
      rejection is the result. */
  function TryMatch(p: Parsers, m: Api.HttpRouteMatch): (r: Result<HttpRouteMatch, Error>)
    ensures r.Success? <==>
      && (m.path.Some? ==> ToPathMatch(p, m.path.value).Success?)
      && (forall i :: 0 <= i < |OrEmpty(m.headers)| ==> ToHeaderMatch(p, OrEmpty(m.headers)[i]).Success?)
      && (forall i :: 0 <= i < |OrEmpty(m.queryParams)| ==> ToQueryParamMatch(p, OrEmpty(m.queryParams)[i]).Success?)
      && (m.httpMethod.Some? ==> p.httpMethod(m.httpMethod.value).Some?)
    ensures r.Success? ==> r.value.path.Some? == m.path.Some?
    ensures r.Success? && m.path.Some? ==> r.value.path.value == ToPathMatch(p, m.path.value).value
    ensures r.Success? && r.value.path.Some? ==> r.value.path.value.Valid()
    ensures r.Success? ==> |r.value.headers| == |OrEmpty(m.headers)|
    ensures r.Success? ==> forall i :: 0 <= i < |r.value.headers| ==>
      r.value.headers[i] == ToHeaderMatch(p, OrEmpty(m.headers)[i]).value
    ensures r.Success? ==> |r.value.queryParams| == |OrEmpty(m.queryParams)|
    ensures r.Success? ==> forall i :: 0 <= i < |r.value.queryParams| ==>
      r.value.queryParams[i] == ToQueryParamMatch(p, OrEmpty(m.queryParams)[i]).value
    ensures r.Success? ==> r.value.httpMethod.Some? == m.httpMethod.Some?
    ensures r.Success? && m.httpMethod.Some? ==>
      r.value.httpMethod.value == p.httpMethod(m.httpMethod.value).value
  {
    var path :- TraverseOption(m.path, pm => ToPathMatch(p, pm));
    var headers :- HeaderMatches(p, OrEmpty(m.headers));
    var queryParams :- QueryParamMatches(p, OrEmpty(m.queryParams));
    var httpMethod :- TraverseOption(m.httpMethod, t => ToMethod(p, t));
    Success(HttpRouteMatch(path, headers, queryParams, httpMethod))
  }

  // ---------------------------------------------------------------- filter converters

  /** One `(name, value)` header of a header-modifier filter; the name is parsed first. */
  function ToHeaderPair(p: Parsers, h: Api.HttpHeader): (r: Result<(HeaderName, HeaderValue), Error>)
    ensures r.Success? <==> p.headerName(h.name).Some? && p.headerValue(h.value).Some?
    ensures r.Success? ==> r.value == (p.headerName(h.name).value, p.headerValue(h.value).value)
    ensures p.headerName(h.name).None? ==> r == Failure(InvalidHeaderName(h.name))
    ensures p.headerName(h.name).Some? && p.headerValue(h.value).None? ==>
      r == Failure(InvalidHeaderValue(h.value))
  {
    var n :- ParseHeaderName(p, h.name);
    var v :- ParseHeaderValue(p, h.value);
    Success((n, v))
  }

  /** The `add` or `set` list of `header_modifier` (http_route.rs lines 148-157), converted fail-fast. */
  function HeaderPairs(p: Parsers, hs: seq<Api.HttpHeader>): Result<seq<(HeaderName, HeaderValue)>, Error> {
    Traverse(hs, h => ToHeaderPair(p, h))
  }

  /** The `remove` list of `header_modifier` (http_route.rs lines 158-162), converted fail-fast. */
  function HeaderNames(p: Parsers, ns: seq<string>): Result<seq<HeaderName>, Error> {
    Traverse(ns, n => ParseHeaderName(p, n))
  }

  /** `header_modifier`: converts the `add`, `set` and `remove` lists, in that order; an
      absent list is an empty list and the first rejected element is the result. */
  function ToHeaderModifier(p: Parsers, f: Api.HttpRequestHeaderFilter): (r: Result<HeaderModifierFilter, Error>)
    ensures r.Success? <==>
      && (forall i :: 0 <= i < |OrEmpty(f.addHeaders)| ==> ToHeaderPair(p, OrEmpty(f.addHeaders)[i]).Success?)
      && (forall i :: 0 <= i < |OrEmpty(f.setHeaders)| ==> ToHeaderPair(p, OrEmpty(f.setHeaders)[i]).Success?)
      && (forall i :: 0 <= i < |OrEmpty(f.removeHeaders)| ==> p.headerName(OrEmpty(f.removeHeaders)[i]).Some?)
    ensures r.Success? ==> |r.value.addHeaders| == |OrEmpty(f.addHeaders)|
    ensures r.Success? ==> forall i :: 0 <= i < |r.value.addHeaders| ==>
      r.value.addHeaders[i] == ToHeaderPair(p, OrEmpty(f.addHeaders)[i]).value
    ensures r.Success? ==> |r.value.setHeaders| == |OrEmpty(f.setHeaders)|
    ensures r.Success? ==> forall i :: 0 <= i < |r.value.setHeaders| ==>
      r.value.setHeaders[i] == ToHeaderPair(p, OrEmpty(f.setHeaders)[i]).value
    ensures r.Success? ==> |r.value.removeHeaders| == |OrEmpty(f.removeHeaders)|
    ensures r.Success? ==> forall i :: 0 <= i < |r.value.removeHeaders| ==>
      r.value.removeHeaders[i] == p.headerName(OrEmpty(f.removeHeaders)[i]).value
  {
    var add :- HeaderPairs(p, OrEmpty(f.addHeaders));
    var overwrite :- HeaderPairs(p, OrEmpty(f.setHeaders));
    var remove :- HeaderNames(p, OrEmpty(f.removeHeaders));
    Success(HeaderModifierFilter(add, overwrite, remove))
  }

  /** `path_modifier`: both rewrite kinds demand an absolute path, kept verbatim. */
  function ToPathModifier(m: Api.HttpPathModifier): (r: Result<PathModifier, Error>)
    ensures r.Failure? <==> !StartsWith(m.path, "/")
    ensures r.Failure? ==> r.error == RedirectPathNotAbsolute(m.path)
    ensures r.Success? ==> r.value.Valid() && r.value.path == m.path
    ensures r.Success? ==> (r.value.Full? <==> m.ReplaceFullPath?)
  {
    match m
    case ReplaceFullPath(path) =>
      if !StartsWith(path, "/") then Failure(RedirectPathNotAbsolute(path)) else Success(Full(path))
    case ReplacePrefixMatch(path) =>
      if !StartsWith(path, "/") then Failure(RedirectPathNotAbsolute(path)) else Success(PathModifier.Prefix(path))
  }

  /** The port override of a redirect: a port of 0 is no override, any other is kept. */
  function PortOverride(port: Option<uint16>): (r: Option<NonZeroUint16>)
    ensures r.None? <==> (port.None? || port.value == 0)
    ensures r.Some? ==> r.value == port.value
  {
    match port
    case Some(n) => if n == 0 then None else Some(n)
    case None => None
  }

  function ToScheme(p: Parsers, s: string): (r: Result<Scheme, Error>)
    ensures r.Success? <==> p.scheme(s).Some?
    ensures r.Success? ==> r.value == p.scheme(s).value
    ensures r.Failure? ==> r.error == InvalidScheme(s)
  {
    p.scheme(s).ToResult(InvalidScheme(s))
  }

  function ToStatusCode(p: Parsers, c: uint16): (r: Result<StatusCode, Error>)
    ensures r.Success? <==> p.statusCode(c).Some?
    ensures r.Success? ==> r.value == p.statusCode(c).value
    ensures r.Failure? ==> r.error == InvalidStatusCode(c)
  {
    p.statusCode(c).ToResult(InvalidStatusCode(c))
  }

  /** `req_redirect`: converts scheme, host, path, port and status in that order; the host
      is passed through, a zero port is dropped without complaint, and a rejected scheme,
      path or status code rejects the filter. */
  function ToRequestRedirect(p: Parsers, f: Api.HttpRequestRedirectFilter): (r: Result<RequestRedirectFilter, Error>)
    ensures r.Success? <==>
      && (f.scheme.Some? ==> p.scheme(f.scheme.value).Some?)
      && (f.path.Some? ==> StartsWith(f.path.value.path, "/"))
      && (f.statusCode.Some? ==> p.statusCode(f.statusCode.value).Some?)
    ensures r.Success? ==> r.value.host == f.hostname
    ensures r.Success? ==> r.value.port == PortOverride(f.port)
    ensures r.Success? ==> r.value.scheme.Some? == f.scheme.Some?
    ensures r.Success? && f.scheme.Some? ==> r.value.scheme.value == p.scheme(f.scheme.value).value
    ensures r.Success? ==> r.value.path.Some? == f.path.Some?
    ensures r.Success? && f.path.Some? ==> r.value.path.value == ToPathModifier(f.path.value).value
    ensures r.Success? ==> r.value.status.Some? == f.statusCode.Some?
    ensures r.Success? && f.statusCode.Some? ==>
      r.value.status.value == p.statusCode(f.statusCode.value).value
  {
    var scheme :- TraverseOption(f.scheme, s => ToScheme(p, s));
    var path :- TraverseOption(f.path, ToPathModifier);
    var status :- TraverseOption(f.statusCode, c => ToStatusCode(p, c));
    Success(RequestRedirectFilter(scheme, f.hostname, path, PortOverride(f.port), status))
  }

  // ---------------------------------------------------------------- identity keys

  /** The API group and kind of the two route resource types (static type metadata). */
  const LinkerdPolicyGroup: string := "policy.linkerd.io"
  const GatewayGroup: string := "gateway.networking.k8s.io"
  const HttpRouteKind: string := "HTTPRoute"

  /** `gkn_for_linkerd_http_route`: the key of a vendor-schema route named `name`. */
  function GknForLinkerdHttpRoute(name: string): (r: GroupKindName)
    ensures r.name == name
  {
    GroupKindName(LinkerdPolicyGroup, HttpRouteKind, name)
  }

  /** `gkn_for_gateway_http_route`: the key of a Gateway-API route named `name`. */
  function GknForGatewayHttpRoute(name: string): (r: GroupKindName)
    ensures r.name == name
  {
    GroupKindName(GatewayGroup, HttpRouteKind, name)
  }
}
