/**
 * `ETag()`: the downstream response is recorded, its body hashed with MD5,
 * and the quoted lower-case hex digest sent as the ETag header; a request
 * whose If-None-Match equals that tag gets 304 and no body.
 */
module ETag {
  import opened Wrappers
  import opened Http

  /** An MD5 digest: sixteen bytes. */
  type Md5Sum = s: seq<byte> | |s| == 16 witness seq(16, _ => 0 as byte)

  /** The MD5 function itself is a parameter of the model. */
  type Hash = seq<byte> -> Md5Sum

  // ---------------------------------------------------------------- formatting the tag

  function HexDigit(d: nat): (c: char)
    requires d < 16
  {
    if d < 10 then ('0' as int + d) as char else ('a' as int + d - 10) as char
  }

  predicate IsHexDigit(c: char) {
    ('0' <= c <= '9') || ('a' <= c <= 'f')
  }

  function HexValue(c: char): (d: nat)
    requires IsHexDigit(c)
    ensures d < 16 && HexDigit(d) == c
  {
    if c <= '9' then c as int - '0' as int else c as int - 'a' as int + 10
  }

  /** `%x` of a byte slice: two lower-case hex digits per byte, high nibble first. */
  function Hex(bs: seq<byte>): (s: string)
    ensures |s| == 2 * |bs|
    ensures forall k :: 0 <= k < |s| ==> IsHexDigit(s[k])
  {
    if |bs| == 0 then ""
    else [HexDigit(bs[0] as int / 16), HexDigit(bs[0] as int % 16)] + Hex(bs[1..])
  }

  /** The inverse of `Hex`: None for odd length or a character that is not a lower-case hex digit. */
  function UnHex(s: string): Option<seq<byte>>
    decreases |s|
  {
    if |s| == 0 then Some([])
    else if |s| == 1 || !IsHexDigit(s[0]) || !IsHexDigit(s[1]) then None
    else match UnHex(s[2..])
      case None => None
      case Some(rest) => Some([(16 * HexValue(s[0]) + HexValue(s[1])) as byte] + rest)
  }

  lemma {:induction false} UnHexHex(bs: seq<byte>)
    ensures UnHex(Hex(bs)) == Some(bs)
  {
    if |bs| > 0 {
      var s := Hex(bs);
      assert s[2..] == Hex(bs[1..]);
      UnHexHex(bs[1..]);
      assert HexValue(s[0]) == bs[0] as int / 16;
      assert HexValue(s[1]) == bs[0] as int % 16;
      assert [bs[0]] + bs[1..] == bs;
    }
  }

  /** `fmt.Sprintf("\"%x\"", md5.Sum(body))`. */
  function ETagOf(sum: Md5Sum): (tag: string)
    ensures |tag| == 34 && tag[0] == '"' && tag[33] == '"'
    ensures forall k :: 1 <= k < 33 ==> IsHexDigit(tag[k])
  {
    "\"" + Hex(sum) + "\""
  }

  /** Reads a tag back: the quotes stripped and the hex decoded. */
  function ParseETag(tag: string): Option<seq<byte>> {
    if |tag| >= 2 && tag[0] == '"' && tag[|tag| - 1] == '"' then UnHex(tag[1..|tag| - 1]) else None
  }

  /** The tag gives back the digest it was made from. */
  lemma ETagRoundTrip(sum: Md5Sum)
    ensures ParseETag(ETagOf(sum)) == Some(sum)
  {
    var tag := ETagOf(sum);
    assert tag[1..|tag| - 1] == Hex(sum);
    UnHexHex(sum);
  }

  /** Different digests give different tags. */
  lemma ETagInjective(a: Md5Sum, b: Md5Sum)
    ensures ETagOf(a) == ETagOf(b) <==> a == b
  {
    ETagRoundTrip(a);
    ETagRoundTrip(b);
  }

  // ---------------------------------------------------------------- the handler

  /** The headers sent: ETag set first, then every downstream header copied over it. */
  function ETagHeader(h: Header, rec: Response, tag: string): Header {
    Overlay(Set(h, "ETag", tag), rec.header)
  }

  /**
   * What the client receives from `ETag()(next)`, where `rec` is what `next`
   * wrote for `r` and `h` is the header map the writer held beforehand.
   */
  function ETagResponse(hash: Hash, r: Request, rec: Response, h: Header): Response {
    var tag := ETagOf(hash(rec.body));
    var header := ETagHeader(h, rec, tag);
    if Get(r.header, "If-None-Match") == tag then Response(304, header, [])
    else Response(rec.code, header, rec.body)
  }

  /** The handler body, on a writer: headers, then the status, then the body. */
  method ServeETag(hash: Hash, w: ResponseWriter, r: Request, rec: Response)
    requires w.Valid()
    modifies w
    ensures w.Valid()
    ensures !old(w.wroteHeader) ==> w.Sent() == ETagResponse(hash, r, rec, old(w.header))
    ensures old(w.wroteHeader) ==>
      w.status == old(w.status) && w.sentHeader == old(w.sentHeader)
      && w.body == old(w.body) + ETagResponse(hash, r, rec, old(w.header)).body
  {
    var tag := ETagOf(hash(rec.body));
    w.SetHeader("ETag", tag);
    w.CopyHeader(rec.header);
    if Get(r.header, "If-None-Match") == tag {
      w.WriteHeader(304);
      return;
    }
    w.WriteHeader(rec.code);
    w.Write(rec.body);
  }

  /**
   * A matching If-None-Match gives 304 with no body; any other gives the
   * downstream status and body unchanged.
   */
  lemma ETagConditional(hash: Hash, r: Request, rec: Response, h: Header)
    ensures var resp := ETagResponse(hash, r, rec, h);
      (Get(r.header, "If-None-Match") == ETagOf(hash(rec.body)) ==> resp.code == 304 && resp.body == [])
      && (Get(r.header, "If-None-Match") != ETagOf(hash(rec.body)) ==> resp.code == rec.code && resp.body == rec.body)
  {
  }

  /**
   * The ETag header carries the digest of the body, unless the downstream
   * handler set its own ETag header, which is copied over it.
   */
  lemma ETagHeaderSent(hash: Hash, r: Request, rec: Response, h: Header)
    ensures var header := ETagResponse(hash, r, rec, h).header;
      ("Etag" !in rec.header ==> Get(header, "ETag") == ETagOf(hash(rec.body)))
      && ("Etag" in rec.header ==> header["Etag"] == rec.header["Etag"])
  {
    CanonicalETag();
  }

  /**
   * A client that sends back the tag it was given gets 304 when the
   * downstream handler writes the same body again.
   */
  lemma RevalidationGetsNotModified(hash: Hash, r1: Request, r2: Request, rec: Response)
    requires "Etag" !in rec.header
    requires Get(r2.header, "If-None-Match") == Get(ETagResponse(hash, r1, rec, map[]).header, "ETag")
    ensures ETagResponse(hash, r2, rec, map[]).code == 304
  {
    ETagHeaderSent(hash, r1, rec, map[]);
  }
}
