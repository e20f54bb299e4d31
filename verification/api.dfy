/** The external, Gateway-API-shaped route records the conversion layer reads. Every
    "may be absent" field is an `Option`. (`set` and `method` are Dafny keywords, hence
    the names `setHeaders` and `httpMethod`.) */
module Api {
  import opened Wrappers
  import opened Foreign

  datatype HttpPathMatch =
    | Exact(value: string)
    | PathPrefix(value: string)
    | RegularExpression(value: string)

  datatype HttpHeaderMatch =
    | Exact(name: string, value: string)
    | RegularExpression(name: string, value: string)

  datatype HttpQueryParamMatch =
    | Exact(name: string, value: string)
    | RegularExpression(name: string, value: string)

  datatype HttpRouteMatch = HttpRouteMatch(
    path: Option<HttpPathMatch>,
    headers: Option<seq<HttpHeaderMatch>>,
    queryParams: Option<seq<HttpQueryParamMatch>>,
    httpMethod: Option<string>)

  datatype HttpHeader = HttpHeader(name: string, value: string)

  datatype HttpRequestHeaderFilter = HttpRequestHeaderFilter(
    setHeaders: Option<seq<HttpHeader>>,
    addHeaders: Option<seq<HttpHeader>>,
    removeHeaders: Option<seq<string>>)

  datatype HttpPathModifier =
    | ReplaceFullPath(path: string)
    | ReplacePrefixMatch(path: string)

  datatype HttpRequestRedirectFilter = HttpRequestRedirectFilter(
    scheme: Option<string>,
    hostname: Option<string>,
    path: Option<HttpPathModifier>,
    port: Option<uint16>,
    statusCode: Option<uint16>)
}
