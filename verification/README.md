# HTTP route conversion layer of the Linkerd policy controller

This project models, in Dafny, the conversion layer of the policy controller's
Kubernetes index (`policy-controller/k8s/index/src/http_route.rs`). The layer turns
Gateway-API-shaped HTTP route records (path, header, query-parameter and method matches;
request-header-modifier and request-redirect filters) into the controller's canonical
route model. Along the way it checks the routing invariants: exact, prefix and redirect
paths must be absolute, and header names, header values, methods, schemes, status codes
and regular expressions must parse. It also builds the group/kind/name identity keys of
the two HTTP route resource types.

Files, one module each:

- `wrappers.dfy` (`Wrappers`): `Option`, and a failure-compatible `Result`, so that
  `var x :- e;` plays the part of Rust's `?`.
- `seqs.dfy` (`Seqs`): `Reverse`, and `Traverse`, the fail-fast model of
  `.map(f).collect::<Result<Vec<_>>>()`.
- `strings.dfy` (`Strings`): `StartsWith`, and `Split`/`Join` with the meaning of
  `str::split(char)`.
- `foreign.dfy` (`Foreign`): the library value types (compiled regex, header name, header
  value, method, scheme, status code) and `Parsers`, a record of the library parsers as
  total functions returning `Option`. `None` means the parser rejected its input.
- `api.dfy` (`Api`): the external records. Every optional field is an `Option`.
- `routes.dfy` (`Routes`): the canonical model and its invariants (`PathMatch.Valid`,
  `PathModifier.Valid`).
- `http_route.dfy` (`HttpRoute`): the conversion functions and the identity-key
  constructors.
- `http_route_properties.dfy` (`HttpRouteProperties`): lemmas relating several calls:
  inverses and round trips, fail-fast ordering, port normalisation and identity keys.

Every conversion that consults a library parser takes the `Parsers` record as a
parameter. `ToHostMatch`, `ToPathModifier`, `PortOverride` and the identity-key
constructors consult none, so they do not take it. Every property holds for any parsers,
except the worked examples, which state what they assume the parsers accept as
`requires`. Errors are `HttpRoute.Error`, a datatype that stands in for the `anyhow`
message: one constructor per kind of rejection, tagged with the offending input.

Points where the model follows the code closely:

- Wire ports are `u16` and `NonZeroU16::try_from` rejects only 0. So 0 is the only port
  that gets dropped, and a port above 65535 cannot occur.
- In a regular-expression header match, the value is compiled as a regex only. It is not
  also parsed as a header value.
- The header modifier builds `add`, then `set`, then `remove`, in the order of the struct
  literal. So an `add` error is reported ahead of a `set` error.
- `remove` converts to an ordered sequence of names. It is not a set.
- Wildcard hosts split the whole hostname on `.` and then skip the first piece. Empty
  labels are kept, as `str::split` keeps them.

## Model

| member | source | states |
|---|---|---|
| HttpRoute.ToPathMatch | policy-controller/k8s/index/src/http_route.rs:92-106 | exact/prefix fail exactly when the value is not absolute (error names the value), otherwise become Exact/Prefix of the unchanged value; a regex path succeeds exactly when the pattern compiles; every result satisfies the absolute-path invariant |
| HttpRouteProperties.PathMatchRoundTrip | policy-controller/k8s/index/src/http_route.rs:92-100 | exact/prefix conversion is lossless (the source record is recovered) and every valid canonical exact/prefix match is the conversion of its source record |
| HttpRoute.ToHostMatch | policy-controller/k8s/index/src/http_route.rs:108-120 | never fails; the result is Exact(hostname) exactly when the host does not start with `*.`; otherwise Suffix of the reversed `.`-pieces after `*.`, at least one label, none containing `.` |
| HttpRouteProperties.HostMatchRoundTrip | policy-controller/k8s/index/src/http_route.rs:108-120 | the host pattern is recoverable from every host match: re-joining the reversed labels behind `*.` gives back the hostname |
| HttpRouteProperties.HostSuffixRoundTrip | policy-controller/k8s/index/src/http_route.rs:109-116 | every non-empty, dot-free label list is the suffix match of its own pattern |
| HttpRouteProperties.WildcardHostExample | policy-controller/k8s/index/src/http_route.rs:109-116 | `*.example.com` becomes Suffix `[com, example]` |
| Strings.Split | policy-controller/k8s/index/src/http_route.rs:110-112 | splitting on `.` yields at least one piece and no piece contains `.` |
| Strings.JoinSplit | policy-controller/k8s/index/src/http_route.rs:110-112 | joining the pieces of a split with the separator gives back the string |
| Strings.SplitJoin | policy-controller/k8s/index/src/http_route.rs:110-112 | splitting the join of separator-free pieces gives back the pieces |
| Seqs.Reverse | policy-controller/k8s/index/src/http_route.rs:115 | the reversed label list has the same length, with element i taken from position n-1-i |
| HttpRoute.ToHeaderMatch | policy-controller/k8s/index/src/http_route.rs:122-131 | succeeds exactly when the name parses and the value parses (exact: as header value; regex: as pattern); the name is checked first and each failure is tagged with its input |
| Strings.StartsWith | policy-controller/k8s/index/src/http_route.rs:109 | a string starts with a prefix exactly when the prefix is no longer and agrees with it position by position (`str::starts_with`) |
| Seqs.OrEmpty | policy-controller/k8s/index/src/http_route.rs:148-160 | an absent list reads as the empty list and a present one as itself (`into_iter().flatten()` on an optional vector) |
| Seqs.TraverseOption | policy-controller/k8s/index/src/http_route.rs:176-180 | an absent field stays absent; a present one succeeds exactly when its conversion does, carrying the converted value or that conversion's error (`map(f).transpose()`) |
| Seqs.TraverseOptionAgreesWithTraverse | policy-controller/k8s/index/src/http_route.rs:176-180 | converting an optional field agrees with fail-fast collection over its zero-or-one-element list: same acceptance, same contents, same error |
| HttpRoute.ParseRegex | policy-controller/k8s/index/src/http_route.rs:101-104 | succeeds exactly when the regex parser accepts the pattern, with its compiled value; a rejection names the pattern |
| HttpRoute.ParseHeaderName | policy-controller/k8s/index/src/http_route.rs:125 | succeeds exactly when the header-name parser accepts the name, with its parsed value; a rejection names the name |
| HttpRoute.ParseHeaderValue | policy-controller/k8s/index/src/http_route.rs:125 | succeeds exactly when the header-value parser accepts the value, with its parsed value; a rejection names the value |
| HttpRoute.ToMethod | policy-controller/k8s/index/src/http_route.rs:79-82 | succeeds exactly when the method parser accepts the token, with its parsed method; a rejection names the token |
| HttpRoute.ToScheme | policy-controller/k8s/index/src/http_route.rs:176 | succeeds exactly when the scheme parser accepts the string, with its parsed scheme; a rejection names the string |
| HttpRoute.ToStatusCode | policy-controller/k8s/index/src/http_route.rs:180 | succeeds exactly when the status-code parser accepts the number, with its parsed code; a rejection names the number |
| HttpRouteProperties.HeaderMatchAgreesWithHeaderPair | policy-controller/k8s/index/src/http_route.rs:122-131 | an exact header match accepts, rejects and parses a name/value pair exactly as a header-modifier entry does; a regex header match parses its name the same way |
| HttpRoute.ToQueryParamMatch | policy-controller/k8s/index/src/http_route.rs:133-142 | exact matches always succeed, copying name and value verbatim; a regex match succeeds exactly when the pattern compiles |
| HttpRouteProperties.QueryParamExactUnvalidated | policy-controller/k8s/index/src/http_route.rs:135-137 | an exact query-parameter match succeeds under any parsers and its result does not depend on them |
| Seqs.Traverse | policy-controller/k8s/index/src/http_route.rs:67-71 | collecting a fallible map succeeds exactly when every element converts, keeping length and order; otherwise the result is the error of the first failing element |
| HttpRoute.TryMatch | policy-controller/k8s/index/src/http_route.rs:57-90 | succeeds exactly when path, every header, every query parameter and the method convert; absent lists become empty, absent path/method stay absent; headers and query parameters keep length and order |
| HttpRouteProperties.TryMatchFailFast | policy-controller/k8s/index/src/http_route.rs:65-82 | the error returned is the path's, else the first failing header's, else the first failing query parameter's, else the method's |
| HttpRoute.ToHeaderPair | policy-controller/k8s/index/src/http_route.rs:151 | a header pair converts exactly when name and value parse; a bad name is reported before a bad value |
| HttpRoute.ToHeaderModifier | policy-controller/k8s/index/src/http_route.rs:144-164 | succeeds exactly when every add/set pair and every remove name parses; absent lists become empty; add, set and remove keep length and order |
| HttpRouteProperties.HeaderModifierFailFast | policy-controller/k8s/index/src/http_route.rs:147-162 | the error returned is the first failing add entry's, else the first failing set entry's, else the first failing remove name's |
| HttpRoute.ToPathModifier | policy-controller/k8s/index/src/http_route.rs:184-203 | both rewrite kinds fail exactly when the path is not absolute (error names the path); otherwise the kind is kept and the path unchanged |
| HttpRouteProperties.PathModifierRoundTrip | policy-controller/k8s/index/src/http_route.rs:184-203 | path-modifier conversion is a bijection between absolute rewrite records and valid canonical modifiers |
| HttpRoute.PortOverride | policy-controller/k8s/index/src/http_route.rs:179 | no override exactly when the port is absent or 0; a non-zero port is kept unchanged |
| HttpRoute.ToRequestRedirect | policy-controller/k8s/index/src/http_route.rs:166-182 | succeeds exactly when the scheme and status code (if present) parse and the path (if present) is absolute; host passed through unchanged, port normalised, scheme/path/status converted |
| HttpRouteProperties.RequestRedirectFailFast | policy-controller/k8s/index/src/http_route.rs:175-181 | a bad scheme is reported first, then a relative path, then a bad status code |
| HttpRouteProperties.RedirectZeroPortIsNoPort | policy-controller/k8s/index/src/http_route.rs:179 | a zero port converts exactly like no port, and the port never decides whether the redirect is accepted |
| HttpRouteProperties.EndToEndExample | policy-controller/k8s/index/src/http_route.rs:57-164 | prefix `/api` with method `GET` converts to a match with empty header and query lists; an add-only header filter converts with empty set and remove lists |
| HttpRoute.GknForLinkerdHttpRoute | policy-controller/k8s/index/src/http_route.rs:215-221 | the key carries the given name verbatim |
| HttpRoute.GknForGatewayHttpRoute | policy-controller/k8s/index/src/http_route.rs:223-229 | the key carries the given name verbatim |
| HttpRouteProperties.GknNameIndependent | policy-controller/k8s/index/src/http_route.rs:215-229 | group and kind do not depend on the name; keys of one resource type are equal exactly when the names are |
| HttpRouteProperties.GknSchemasDisjoint | policy-controller/k8s/index/src/http_route.rs:215-229 | the two route types share their kind but never a key |

## Left out

- `HttpRouteResource` and its accessors `name`, `namespace`, `inner`, `status` and `gknn` (http_route.rs:8-55): thin views over Kubernetes resource objects whose only behaviour is a panic on a missing namespace.
- `gkn_for_resource` (http_route.rs:205-213): it reads group and kind from the Kubernetes `Resource` trait's static metadata, which is not part of this model.
- Regex compilation, header name and value parsing, and method, scheme and status-code parsing: library code, modelled only as the `Foreign.Parsers` parameter. Only the worked examples assume anything about what they accept, and they state it as `requires`.
- Error message text: `HttpRoute.Error` keeps the kind of rejection and the offending input, not the `anyhow` message.
- HttpRoute.GknForLinkerdHttpRoute: the group `policy.linkerd.io` and kind `HTTPRoute` are written as constants. In the source they come from the resource type's metadata.
- HttpRoute.GknForGatewayHttpRoute: the group `gateway.networking.k8s.io` and kind `HTTPRoute` are written as constants, for the same reason.
