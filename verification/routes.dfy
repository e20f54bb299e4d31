/** The controller's canonical route model, the output of the conversion layer. */
module Routes {
  import opened Wrappers
  import opened Foreign
  import opened Strings

  datatype PathMatch =
    | Exact(path: string)
    | Prefix(path: string)
    | Regex(regex: Foreign.Regex)
  {
    /** Exact and prefix paths are absolute. */
    predicate Valid() {
      !Regex? ==> StartsWith(path, "/")
    }
  }

  datatype HeaderMatch =
    | Exact(name: HeaderName, value: HeaderValue)
    | Regex(name: HeaderName, pattern: Foreign.Regex)

  datatype QueryParamMatch =
    | Exact(name: string, value: string)
    | Regex(name: string, pattern: Foreign.Regex)

  /** A wildcard host `*.a.b` is kept as its labels after the wildcard, outermost first. */
  datatype HostMatch =
    | Exact(hostname: string)
    | Suffix(reverseLabels: seq<string>)

  datatype HttpRouteMatch = HttpRouteMatch(
    path: Option<PathMatch>,
    headers: seq<HeaderMatch>,
    queryParams: seq<QueryParamMatch>,
    httpMethod: Option<Method>)

  datatype HeaderModifierFilter = HeaderModifierFilter(
    addHeaders: seq<(HeaderName, HeaderValue)>,
    setHeaders: seq<(HeaderName, HeaderValue)>,
    removeHeaders: seq<HeaderName>)

  datatype PathModifier =
    | Full(path: string)
    | Prefix(path: string)
  {
    /** Redirect paths are absolute. */
    predicate Valid() {
      StartsWith(path, "/")
    }
  }

  datatype RequestRedirectFilter = RequestRedirectFilter(
    scheme: Option<Scheme>,
    host: Option<string>,
    path: Option<PathModifier>,
    port: Option<NonZeroUint16>,
    status: Option<StatusCode>)

  /** The identity key of a route resource. */
  datatype GroupKindName = GroupKindName(group: string, kind: string, name: string)
}
