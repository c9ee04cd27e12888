/**
 * The slice of Go's net/http that the middlewares touch: header maps with
 * canonical keys, requests, recorded responses, the status-text table,
 * `http.Error`, and a response writer whose header map is sent when the
 * status line is written.
 */
module Http {
  import opened Strings

  newtype byte = b: int | 0 <= b < 256

  /** `http.Header`: canonical key to the list of values. */
  type Header = map<string, seq<string>>

  // ---------------------------------------------------------------- header keys

  /** The bytes Go accepts in a header field name (RFC 7230 `tchar`). */
  predicate IsTokenChar(c: char) {
    ('a' <= c <= 'z') || ('A' <= c <= 'Z') || ('0' <= c <= '9')
    || c in "!#$%&'*+-.^_`|~"
  }

  function CanonicalFrom(s: string, upper: bool): (r: string)
    ensures |r| == |s|
  {
    if s == [] then []
    else
      var c := s[0];
      var c' := if upper && 'a' <= c <= 'z' then (c as int - 32) as char
                else if !upper && 'A' <= c <= 'Z' then (c as int + 32) as char
                else c;
      [c'] + CanonicalFrom(s[1..], c == '-')
  }

  /**
   * `http.CanonicalHeaderKey`: the first letter and every letter after a
   * hyphen upper-case, the other letters lower-case; a key holding a byte
   * that is not a token character is returned unchanged.
   */
  function CanonicalHeaderKey(s: string): string {
    if forall k | 0 <= k < |s| :: IsTokenChar(s[k]) then CanonicalFrom(s, true) else s
  }

  lemma {:induction false} CanonicalFromIdempotent(s: string, upper: bool)
    ensures CanonicalFrom(CanonicalFrom(s, upper), upper) == CanonicalFrom(s, upper)
    decreases |s|
  {
    if s != [] {
      var r := CanonicalFrom(s, upper);
      assert r[0] == '-' <==> s[0] == '-';
      assert r[1..] == CanonicalFrom(s[1..], s[0] == '-');
      CanonicalFromIdempotent(s[1..], s[0] == '-');
    }
  }

  lemma {:induction false} CanonicalFromKeepsTokens(s: string, upper: bool)
    requires forall k | 0 <= k < |s| :: IsTokenChar(s[k])
    ensures forall k | 0 <= k < |s| :: IsTokenChar(CanonicalFrom(s, upper)[k])
    decreases |s|
  {
    if s != [] {
      CanonicalFromKeepsTokens(s[1..], s[0] == '-');
      var r := CanonicalFrom(s, upper);
      assert r[1..] == CanonicalFrom(s[1..], s[0] == '-');
      forall k | 0 <= k < |s| ensures IsTokenChar(r[k]) {
        if k > 0 { assert r[k] == r[1..][k - 1]; }
      }
    }
  }

  /** Canonicalising a key twice is the same as canonicalising it once. */
  lemma CanonicalHeaderKeyIdempotent(s: string)
    ensures CanonicalHeaderKey(CanonicalHeaderKey(s)) == CanonicalHeaderKey(s)
  {
    if forall k | 0 <= k < |s| :: IsTokenChar(s[k]) {
      CanonicalFromKeepsTokens(s, true);
      CanonicalFromIdempotent(s, true);
    }
  }

  /** Go stores the ETag header under the key "Etag". */
  lemma CanonicalETag()
    ensures CanonicalHeaderKey("ETag") == "Etag"
  {
    var s := "ETag";
    assert IsTokenChar(s[0]) && IsTokenChar(s[1]) && IsTokenChar(s[2]) && IsTokenChar(s[3]);
    assert CanonicalFrom(s[3..], false) == "g";
    assert s[2..][1..] == s[3..];
    assert CanonicalFrom(s[2..], false) == "ag";
    assert s[1..][1..] == s[2..];
    assert CanonicalFrom(s[1..], false) == "tag";
  }

  /** `Header.Get`: the first value under the canonical form of `key`, or "". */
  function Get(h: Header, key: string): string {
    var k := CanonicalHeaderKey(key);
    if k in h && |h[k]| > 0 then h[k][0] else ""
  }

  /** `Header.Set`: replaces every value under the canonical form of `key` with `value`. */
  function Set(h: Header, key: string, value: string): (h': Header)
    ensures Get(h', key) == value
    ensures forall k :: k in h && k != CanonicalHeaderKey(key) ==> k in h' && h'[k] == h[k]
    ensures h'.Keys == h.Keys + {CanonicalHeaderKey(key)}
  {
    h[CanonicalHeaderKey(key) := [value]]
  }

  // ---------------------------------------------------------------- requests and responses

  /** A request body: either it can be read in full, or reading it fails. */
  datatype Body = Readable(data: seq<byte>) | Failing

  datatype Request = Request(
    httpMethod: string,
    url: string,          // `r.URL.String()`
    header: Header,
    remoteAddr: string,
    body: Body)

  /** A complete response: what a recorder captures, or what a client receives. */
  datatype Response = Response(code: int, header: Header, body: seq<byte>)

  /** The bytes of an ASCII text (its UTF-8 encoding); every text this library writes is ASCII. */
  function Ascii(s: string): (b: seq<byte>)
    ensures |b| == |s|
  {
    seq(|s|, i requires 0 <= i < |s| => (s[i] as int % 256) as byte)
  }

  /** A handler, seen as the response it produces for a request. */
  type Handler = Request -> Response

  /** A middleware wraps a downstream handler. */
  type Middleware = Handler -> Handler

  /** A `HeaderFunc`: an update of a header map. */
  type HeaderFunc = Header -> Header

  /** The headers `http.Error` sets before writing. */
  function ErrorHeader(): Header {
    map["Content-Type" := ["text/plain; charset=utf-8"], "X-Content-Type-Options" := ["nosniff"]]
  }

  /** What `http.Error(w, text, code)` writes to a fresh writer. */
  function ErrorResponse(text: string, code: int): (resp: Response)
    ensures resp.code == code && resp.body == Ascii(text + "\n")
  {
    Response(code, ErrorHeader(), Ascii(text + "\n"))
  }

  /** What `w.WriteHeader(code)` alone sends from a fresh writer. */
  function StatusOnly(code: int): Response {
    Response(code, map[], [])
  }

  /** `http.NotFoundHandler()`. */
  function NotFoundHandler(): Handler {
    _ => ErrorResponse("404 page not found", 404)
  }

  // ---------------------------------------------------------------- status texts

  /** `http.StatusText`: the reason phrase Go knows for a code, or "" for an unknown code. */
  function StatusText(code: int): string {
    match code
    case 100 => "Continue"
    case 101 => "Switching Protocols"
    case 102 => "Processing"
    case 103 => "Early Hints"
    case 200 => "OK"
    case 201 => "Created"
    case 202 => "Accepted"
    case 203 => "Non-Authoritative Information"
    case 204 => "No Content"
    case 205 => "Reset Content"
    case 206 => "Partial Content"
    case 207 => "Multi-Status"
    case 208 => "Already Reported"
    case 226 => "IM Used"
    case 300 => "Multiple Choices"
    case 301 => "Moved Permanently"
    case 302 => "Found"
    case 303 => "See Other"
    case 304 => "Not Modified"
    case 305 => "Use Proxy"
    case 307 => "Temporary Redirect"
    case 308 => "Permanent Redirect"
    case 400 => "Bad Request"
    case 401 => "Unauthorized"
    case 402 => "Payment Required"
    case 403 => "Forbidden"
    case 404 => "Not Found"
    case 405 => "Method Not Allowed"
    case 406 => "Not Acceptable"
    case 407 => "Proxy Authentication Required"
    case 408 => "Request Timeout"
    case 409 => "Conflict"
    case 410 => "Gone"
    case 411 => "Length Required"
    case 412 => "Precondition Failed"
    case 413 => "Request Entity Too Large"
    case 414 => "Request URI Too Long"
    case 415 => "Unsupported Media Type"
    case 416 => "Requested Range Not Satisfiable"
    case 417 => "Expectation Failed"
    case 418 => "I'm a teapot"
    case 421 => "Misdirected Request"
    case 422 => "Unprocessable Entity"
    case 423 => "Locked"
    case 424 => "Failed Dependency"
    case 425 => "Too Early"
    case 426 => "Upgrade Required"
    case 428 => "Precondition Required"
    case 429 => "Too Many Requests"
    case 431 => "Request Header Fields Too Large"
    case 451 => "Unavailable For Legal Reasons"
    case 500 => "Internal Server Error"
    case 501 => "Not Implemented"
    case 502 => "Bad Gateway"
    case 503 => "Service Unavailable"
    case 504 => "Gateway Timeout"
    case 505 => "HTTP Version Not Supported"
    case 506 => "Variant Also Negotiates"
    case 507 => "Insufficient Storage"
    case 508 => "Loop Detected"
    case 510 => "Not Extended"
    case 511 => "Network Authentication Required"
    case _ => ""
  }

  // ---------------------------------------------------------------- map copying

  /**
   * `for k, v := range src { dst[k] = v }`: every entry of `src` is written
   * over `dst`, the other entries of `dst` stay.
   */
  function Overlay<K, V>(dst: map<K, V>, src: map<K, V>): (out: map<K, V>)
    ensures out.Keys == dst.Keys + src.Keys
    ensures forall k :: k in src ==> out[k] == src[k]
    ensures forall k :: k in dst && k !in src ==> out[k] == dst[k]
  {
    map k | k in dst.Keys + src.Keys :: if k in src then src[k] else dst[k]
  }

  method CopyMap<K, V>(dst: map<K, V>, src: map<K, V>) returns (out: map<K, V>)
    ensures out == Overlay(dst, src)
    ensures out.Keys == dst.Keys + src.Keys
    ensures forall k :: k in src ==> out[k] == src[k]
    ensures forall k :: k in dst && k !in src ==> out[k] == dst[k]
  {
    out := dst;
    var todo := src.Keys;
    while todo != {}
      invariant todo <= src.Keys
      invariant out.Keys == dst.Keys + (src.Keys - todo)
      invariant forall k :: k in src && k !in todo ==> out[k] == src[k]
      invariant forall k :: k in dst && k !in src ==> out[k] == dst[k]
      decreases todo
    {
      var k :| k in todo;
      out := out[k := src[k]];
      todo := todo - {k};
    }
  }

  // ---------------------------------------------------------------- response writer

  /**
   * An `http.ResponseWriter`: a mutable header map, and a status line and body
   * that are sent once. The header map as it stands when the status is first
   * written is what the client receives; later header changes are not sent.
   */
  class ResponseWriter {
    var header: Header
    var wroteHeader: bool
    var status: int
    var sentHeader: Header
    var body: seq<byte>

    /** Nothing of the body is sent before the status line. */
    predicate Valid()
      reads this
    {
      !wroteHeader ==> body == []
    }

    constructor ()
      ensures Valid() && header == map[] && !wroteHeader && body == []
    {
      header, wroteHeader, status, sentHeader, body := map[], false, 200, map[], [];
    }

    /** The response the client has received so far. */
    function Sent(): Response
      reads this
    {
      Response(status, sentHeader, body)
    }

    /** `w.Header().Set(key, value)`. */
    method SetHeader(key: string, value: string)
      modifies this`header
      ensures header == Set(old(header), key, value)
      ensures old(Valid()) ==> Valid()
    {
      header := Set(header, key, value);
    }

    /** `for k, v := range src { w.Header()[k] = v }`. */
    method CopyHeader(src: Header)
      modifies this`header
      ensures header == Overlay(old(header), src)
      ensures old(Valid()) ==> Valid()
    {
      header := CopyMap(header, src);
    }

    /** `w.WriteHeader(code)`: only the first call has an effect. */
    method WriteHeader(code: int)
      modifies this`wroteHeader, this`status, this`sentHeader
      ensures old(wroteHeader) ==> status == old(status) && sentHeader == old(sentHeader)
      ensures !old(wroteHeader) ==> status == code && sentHeader == header
      ensures wroteHeader && Valid()
    {
      if !wroteHeader {
        wroteHeader, status, sentHeader := true, code, header;
      }
    }

    /** `w.Write(data)`: sends status 200 first if no status was written. */
    method Write(data: seq<byte>)
      modifies this`wroteHeader, this`status, this`sentHeader, this`body
      ensures old(wroteHeader) ==> status == old(status) && sentHeader == old(sentHeader)
      ensures !old(wroteHeader) ==> status == 200 && sentHeader == header
      ensures wroteHeader && Valid() && body == old(body) + data
    {
      WriteHeader(200);
      body := body + data;
    }

    /**
     * Replays a recorded response: its headers copied over the writer's,
     * then its status, then its body.
     */
    method Replay(resp: Response)
      requires Valid()
      modifies this
      ensures Valid()
      ensures !old(wroteHeader) ==> Sent() == Response(resp.code, Overlay(old(header), resp.header), resp.body)
      ensures old(wroteHeader) ==> status == old(status) && sentHeader == old(sentHeader) && body == old(body) + resp.body
    {
      CopyHeader(resp.header);
      WriteHeader(resp.code);
      Write(resp.body);
    }
  }
}
