/** The library types and parsers the conversion layer relies on but does not define:
    regular-expression compilation, HTTP header name and value parsing, HTTP method,
    URI scheme and status-code parsing. The value types below stand for what those
    parsers produce. Every conversion that consults a library parser takes the `Parsers`
    record as a parameter, and every property holds for any parsers, except worked
    examples, which state what they assume the parsers accept as `requires`. */
module Foreign {
  import opened Wrappers

  /** Rust's `u16`, the wire type of ports and status codes. */
  type uint16 = x: int | 0 <= x < 0x1_0000

  /** Rust's `NonZeroU16`, the type of a redirect's port override. */
  type NonZeroUint16 = x: int | 1 <= x < 0x1_0000 witness 1

  /** A compiled regular expression. */
  datatype Regex = CompiledRegex(source: string)

  /** A header name that passed the header-name grammar (in whatever normal form the
      parser keeps). */
  datatype HeaderName = HeaderName(name: string)

  /** A header value that passed the header-value grammar. */
  datatype HeaderValue = HeaderValue(bytes: string)

  /** An HTTP method token. */
  datatype Method = Method(token: string)

  /** A URI scheme. */
  datatype Scheme = Scheme(name: string)

  /** An HTTP status code. */
  datatype StatusCode = StatusCode(code: uint16)

  /** The foreign parsers; `None` is a rejection. */
  datatype Parsers = Parsers(
    regex: string -> Option<Regex>,
    headerName: string -> Option<HeaderName>,
    headerValue: string -> Option<HeaderValue>,
    httpMethod: string -> Option<Method>,
    scheme: string -> Option<Scheme>,
    statusCode: uint16 -> Option<StatusCode>)
}
