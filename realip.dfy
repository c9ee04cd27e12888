/**
 * `RealIP()`: the client address is taken from the forwarding headers,
 * scanning each comma-separated list from its last item to its first and
 * keeping the first public unicast address found.
 */
module RealIp {
  import opened Wrappers
  import opened Strings
  import opened Http

  // ---------------------------------------------------------------- addresses

  type Ip4Bytes = s: seq<byte> | |s| == 4 witness [0, 0, 0, 0]
  type Ip6Bytes = s: seq<byte> | |s| == 16 witness seq(16, _ => 0 as byte)

  /** An address; an IPv4-mapped IPv6 address is an IPv4 one, as `IP.To4` treats it. */
  datatype IP = V4(v4: Ip4Bytes) | V6(v6: Ip6Bytes)

  /** The IPv6 literal parser is a parameter of the model: the sixteen bytes of a literal, or None. */
  type Ipv6Parser = string -> Option<Ip6Bytes>

  /** A network: an address masked to its first `bits` bits, as `net.ParseCIDR` returns it. */
  datatype Cidr = Cidr(network: IP, bits: nat)

  function Pow2(k: nat): (p: nat)
    ensures p >= 1
  {
    if k == 0 then 1 else 2 * Pow2(k - 1)
  }

  /** The first `bits` bits of `a` and `b` agree. */
  predicate PrefixMatch(a: seq<byte>, b: seq<byte>, bits: nat)
    requires |a| == |b|
    decreases |a|
  {
    if bits == 0 || |a| == 0 then true
    else if bits >= 8 then a[0] == b[0] && PrefixMatch(a[1..], b[1..], bits - 8)
    else a[0] as int / Pow2(8 - bits) == b[0] as int / Pow2(8 - bits)
  }

  /** `IPNet.Contains`: same family and the same first `bits` bits. */
  predicate CidrContains(c: Cidr, ip: IP) {
    match (c.network, ip)
    case (V4(n), V4(a)) => PrefixMatch(n, a, c.bits)
    case (V6(n), V6(a)) => PrefixMatch(n, a, c.bits)
    case _ => false
  }

  function Zeros6(): Ip6Bytes { seq(16, _ => 0 as byte) }

  /** The IPv6 address whose first bytes are `prefix` and whose remaining bytes are 0. */
  function V6Prefix(prefix: seq<byte>): IP
    requires |prefix| <= 16
  {
    V6(prefix + seq(16 - |prefix|, _ => 0 as byte))
  }

  /**
   * The loopback, private and link-local blocks, in the order they are
   * listed: 127.0.0.1/8 (network 127.0.0.0), 10.0.0.0/8, 172.16.0.0/12,
   * 192.168.0.0/16, 169.254.0.0/16, ::1/128, fc00::/7, fe80::/10.
   */
  function Blocks(): seq<Cidr> {
    [ Cidr(V4([127, 0, 0, 0]), 8),
      Cidr(V4([10, 0, 0, 0]), 8),
      Cidr(V4([172, 16, 0, 0]), 12),
      Cidr(V4([192, 168, 0, 0]), 16),
      Cidr(V4([169, 254, 0, 0]), 16),
      Cidr(V6(Zeros6()[15 := 1]), 128),
      Cidr(V6Prefix([0xfc]), 7),
      Cidr(V6Prefix([0xfe, 0x80]), 10) ]
  }

  /** `isPrivateSubnet`: the address lies in one of the blocks. */
  predicate IsPrivateSubnet(ip: IP) {
    exists i | 0 <= i < |Blocks()| :: CidrContains(Blocks()[i], ip)
  }

  /** `IP.IsGlobalUnicast`: not broadcast, unspecified, loopback, multicast or link-local unicast. */
  predicate IsGlobalUnicast(ip: IP) {
    match ip
    case V4(a) =>
      a != [255, 255, 255, 255] && a != [0, 0, 0, 0] && a[0] != 127
      && !(224 <= a[0] < 240) && !(a[0] == 169 && a[1] == 254)
    case V6(a) =>
      a != Zeros6() && a != Zeros6()[15 := 1] && a[0] != 0xff
      && !(a[0] == 0xfe && a[1] as int / 64 == 2)
  }

  /** The IPv4 blocks, stated on the bytes. */
  lemma {:induction false} PrivateSubnetV4(a: Ip4Bytes)
    ensures IsPrivateSubnet(V4(a)) <==>
      a[0] == 127 || a[0] == 10 || (a[0] == 172 && 16 <= a[1] < 32)
      || (a[0] == 192 && a[1] == 168) || (a[0] == 169 && a[1] == 254)
  {
    var b := Blocks();
    assert Pow2(4) == 16;
    assert CidrContains(b[0], V4(a)) <==> a[0] == 127;
    assert CidrContains(b[1], V4(a)) <==> a[0] == 10;
    assert CidrContains(b[2], V4(a)) <==> a[0] == 172 && 16 <= a[1] < 32;
    assert CidrContains(b[3], V4(a)) <==> a[0] == 192 && a[1] == 168;
    assert CidrContains(b[4], V4(a)) <==> a[0] == 169 && a[1] == 254;
    assert !CidrContains(b[5], V4(a)) && !CidrContains(b[6], V4(a)) && !CidrContains(b[7], V4(a));
  }

  // ---------------------------------------------------------------- parsing

  /** One dotted-quad field: one to three digits, no leading zero, at most 255. */
  function ParseOctet(s: string): Option<byte> {
    if 1 <= |s| <= 3 && AllDigits(s) && (|s| == 1 || s[0] != '0') && DigitsValue(s) <= 255
    then Some(DigitsValue(s) as byte) else None
  }

  /** A dotted-quad IPv4 literal: exactly four fields. */
  function ParseIPv4(s: string): Option<Ip4Bytes> {
    var parts := Split(s, '.');
    if |parts| != 4 then None
    else match (ParseOctet(parts[0]), ParseOctet(parts[1]), ParseOctet(parts[2]), ParseOctet(parts[3]))
      case (Some(a), Some(b), Some(c), Some(d)) => Some([a, b, c, d])
      case _ => None
  }

  /** The first of '.', ':' and '%' in `s`, which decides how `net.ParseIP` reads it; ' ' if none. */
  function Family(s: string): (c: char)
    ensures c == '.' || c == ':' || c == '%' || c == ' '
  {
    if |s| == 0 then ' '
    else if s[0] == '.' || s[0] == ':' || s[0] == '%' then s[0]
    else Family(s[1..])
  }

  predicate IsV4Mapped(b: Ip6Bytes) {
    (forall k | 0 <= k < 10 :: b[k] == 0) && b[10] == 0xff && b[11] == 0xff
  }

  /** `net.ParseIP`: None for anything that is not an address literal. */
  function ParseIP(parse6: Ipv6Parser, s: string): Option<IP> {
    match Family(s)
    case '.' => (match ParseIPv4(s) case Some(a) => Some(V4(a)) case None => None)
    case ':' =>
      (match parse6(s)
       case Some(b) => if IsV4Mapped(b) then Some(V4(b[12..])) else Some(V6(b))
       case None => None)
    case _ => None
  }

  /** The decimal dotted-quad form of an IPv4 address. */
  function FormatIPv4(a: Ip4Bytes): string {
    Join([NatToString(a[0] as nat), NatToString(a[1] as nat), NatToString(a[2] as nat),
          NatToString(a[3] as nat)], '.')
  }

  lemma ParseOctetOfNumeral(b: byte)
    ensures ParseOctet(NatToString(b as nat)) == Some(b)
    ensures '.' !in NatToString(b as nat)
  {
    NatToStringLength(b as nat, 3);
    DigitsValueOfNatToString(b as nat);
  }

  lemma NumeralHasNoSeparator(s: string)
    requires AllDigits(s)
    ensures '.' !in s && ':' !in s && '%' !in s && Family(s) == ' '
  {
    FamilyNone(s);
  }

  lemma {:induction false} FamilyNone(s: string)
    requires '.' !in s && ':' !in s && '%' !in s
    ensures Family(s) == ' '
  {
    if |s| > 0 {
      assert s[0] in s;
      assert forall c :: c in s[1..] ==> c in s;
      FamilyNone(s[1..]);
    }
  }

  lemma {:induction false} FamilyAppend(s: string, t: string)
    requires '.' !in s && ':' !in s && '%' !in s
    ensures Family(s + t) == Family(t)
  {
    if |s| > 0 {
      assert s[0] in s;
      assert (s + t)[1..] == s[1..] + t;
      assert forall c :: c in s[1..] ==> c in s;
      FamilyAppend(s[1..], t);
    } else {
      assert s + t == t;
    }
  }

  /** A formatted IPv4 address parses back to itself. */
  lemma FormatParseIPv4(a: Ip4Bytes)
    ensures ParseIPv4(FormatIPv4(a)) == Some(a)
  {
    var parts := [NatToString(a[0] as nat), NatToString(a[1] as nat), NatToString(a[2] as nat),
                  NatToString(a[3] as nat)];
    ParseOctetOfNumeral(a[0]);
    ParseOctetOfNumeral(a[1]);
    ParseOctetOfNumeral(a[2]);
    ParseOctetOfNumeral(a[3]);
    SplitJoin(parts, '.');
    ParseFourFields(FormatIPv4(a), parts, a);
  }

  /** Four fields that each parse as an octet make the address of those octets. */
  lemma ParseFourFields(s: string, parts: seq<string>, a: Ip4Bytes)
    requires Split(s, '.') == parts && |parts| == 4
    requires forall k | 0 <= k < 4 :: ParseOctet(parts[k]) == Some(a[k])
    ensures ParseIPv4(s) == Some(a)
  {
    assert [a[0], a[1], a[2], a[3]] == a;
  }

  /** ... and is read as an IPv4 literal by `net.ParseIP`. */
  lemma FormatParseIP(parse6: Ipv6Parser, a: Ip4Bytes)
    ensures ParseIP(parse6, FormatIPv4(a)) == Some(V4(a))
  {
    var s0 := NatToString(a[0] as nat);
    NumeralHasNoSeparator(s0);
    var rest := Join([NatToString(a[1] as nat), NatToString(a[2] as nat), NatToString(a[3] as nat)], '.');
    assert FormatIPv4(a) == s0 + ['.'] + rest;
    FamilyAppend(s0, ['.'] + rest);
    assert s0 + ['.'] + rest == s0 + (['.'] + rest);
    FormatParseIPv4(a);
  }

  // ---------------------------------------------------------------- the scan

  /** An item of a forwarding list is accepted: trimmed, it is a public unicast address. */
  predicate Qualifies(parse6: Ipv6Parser, item: string) {
    match ParseIP(parse6, TrimSpace(item))
    case Some(ip) => IsGlobalUnicast(ip) && !IsPrivateSubnet(ip)
    case None => false
  }

  lemma QualifiedIsNotEmpty(parse6: Ipv6Parser, item: string)
    requires Qualifies(parse6, item)
    ensures TrimSpace(item) != ""
  {
  }

  /**
   * The loop `for i := n - 1; i >= 0; i--` over `list[..n]`: the largest
   * index whose item `accept` takes, or None.
   */
  function ScanFromRight(accept: string -> bool, list: seq<string>, n: nat): (j: Option<nat>)
    requires n <= |list|
    ensures j.None? <==> forall k | 0 <= k < n :: !accept(list[k])
    ensures j.Some? ==>
      j.value < n && accept(list[j.value]) && forall k | j.value < k < n :: !accept(list[k])
  {
    if n == 0 then None
    else if accept(list[n - 1]) then Some(n - 1)
    else ScanFromRight(accept, list, n - 1)
  }

  /** The address one header yields: the trimmed item found scanning its comma-split list from the right. */
  function FromHeader(parse6: Ipv6Parser, h: Header, name: string): string {
    var list := Split(Get(h, CanonicalHeaderKey(name)), ',');
    match ScanFromRight(s => Qualifies(parse6, s), list, |list|)
    case Some(j) => TrimSpace(list[j])
    case None => ""
  }

  /**
   * A header yields "" exactly when none of its items qualifies; otherwise it
   * yields the trimmed form of the last item that qualifies.
   */
  lemma FromHeaderRightmost(parse6: Ipv6Parser, h: Header, name: string)
    ensures var list := Split(Get(h, CanonicalHeaderKey(name)), ',');
      var ip := FromHeader(parse6, h, name);
      (ip == "" <==> forall k | 0 <= k < |list| :: !Qualifies(parse6, list[k]))
      && (ip != "" ==> exists j | 0 <= j < |list| ::
            Qualifies(parse6, list[j]) && ip == TrimSpace(list[j])
            && forall k | j < k < |list| :: !Qualifies(parse6, list[k]))
  {
    var list := Split(Get(h, CanonicalHeaderKey(name)), ',');
    var j := ScanFromRight(s => Qualifies(parse6, s), list, |list|);
    if j.Some? {
      QualifiedIsNotEmpty(parse6, list[j.value]);
    }
  }

  /** The scan stops at the last accepted item. */
  lemma {:induction false} ScanFindsLast(accept: string -> bool, list: seq<string>, n: nat, j: nat)
    requires j < n <= |list| && accept(list[j])
    requires forall k | j < k < n :: !accept(list[k])
    ensures ScanFromRight(accept, list, n) == Some(j)
    decreases n
  {
    if n - 1 != j {
      ScanFindsLast(accept, list, n - 1, j);
    }
  }

  /** A header whose last qualifying item is `list[j]` yields that item trimmed. */
  lemma FromHeaderAt(parse6: Ipv6Parser, h: Header, name: string, list: seq<string>, j: nat)
    requires list == Split(Get(h, CanonicalHeaderKey(name)), ',')
    requires j < |list| && Qualifies(parse6, list[j])
    requires forall k | j < k < |list| :: !Qualifies(parse6, list[k])
    ensures FromHeader(parse6, h, name) == TrimSpace(list[j])
  {
    ScanFindsLast(s => Qualifies(parse6, s), list, |list|, j);
  }

  /** The headers tried, in order, as written; each is canonicalised before the lookup. */
  function ForwardingHeaders(): seq<string> {
    ["X-Forwarded-For", "X-Real-IP", "X-ProxyUser-Ip"]
  }

  /** The headers `names[i..]` tried in order; the first one that yields an address wins. */
  function FirstFrom(lookup: string -> string, names: seq<string>, i: nat): (ip: string)
    requires i <= |names|
    ensures ip == "" <==> forall k | i <= k < |names| :: lookup(names[k]) == ""
    ensures ip != "" ==> exists k | i <= k < |names| ::
      ip == lookup(names[k]) && forall m | i <= m < k :: lookup(names[m]) == ""
    decreases |names| - i
  {
    if i == |names| then ""
    else if lookup(names[i]) != "" then lookup(names[i])
    else FirstFrom(lookup, names, i + 1)
  }

  /** `realIP(r)`: "" when no header yields a public address. */
  function RealIP(parse6: Ipv6Parser, r: Request): string {
    FirstFrom(name => FromHeader(parse6, r.header, name), ForwardingHeaders(), 0)
  }

  /** What `RealIP()` hands to `next`: the request with RemoteAddr overwritten when an address was found. */
  function WithRealIP(parse6: Ipv6Parser, r: Request): (r': Request)
    ensures r'.httpMethod == r.httpMethod && r'.url == r.url && r'.header == r.header && r'.body == r.body
    ensures RealIP(parse6, r) == "" ==> r'.remoteAddr == r.remoteAddr
    ensures RealIP(parse6, r) != "" ==> r'.remoteAddr == RealIP(parse6, r)
  {
    var ip := RealIP(parse6, r);
    if ip != "" then r.(remoteAddr := ip) else r
  }

  function RealIPMiddleware(parse6: Ipv6Parser): Middleware {
    (next: Handler) => (r: Request) => next(WithRealIP(parse6, r))
  }

  // ---------------------------------------------------------------- consequences

  /** The first header that yields an address decides, whatever the later ones hold. */
  lemma FirstFromPicksFirst(lookup: string -> string, names: seq<string>, k: nat)
    requires k < |names| && lookup(names[k]) != ""
    requires forall m | 0 <= m < k :: lookup(names[m]) == ""
    ensures FirstFrom(lookup, names, 0) == lookup(names[k])
  {
    var i := 0;
    while i < k
      invariant 0 <= i <= k
      invariant FirstFrom(lookup, names, 0) == FirstFrom(lookup, names, i)
    {
      i := i + 1;
    }
  }

  /** An address in X-Forwarded-For wins whatever the later headers hold. */
  lemma ForwardedForFirst(parse6: Ipv6Parser, r: Request)
    requires FromHeader(parse6, r.header, "X-Forwarded-For") != ""
    ensures RealIP(parse6, r) == FromHeader(parse6, r.header, "X-Forwarded-For")
  {
    FirstFromPicksFirst(name => FromHeader(parse6, r.header, name), ForwardingHeaders(), 0);
  }

  /** When X-Forwarded-For yields nothing, X-Real-IP is tried next. */
  lemma RealIpSecond(parse6: Ipv6Parser, r: Request)
    requires FromHeader(parse6, r.header, "X-Forwarded-For") == ""
    requires FromHeader(parse6, r.header, "X-Real-IP") != ""
    ensures RealIP(parse6, r) == FromHeader(parse6, r.header, "X-Real-IP")
  {
    var lookup := name => FromHeader(parse6, r.header, name);
    var names := ForwardingHeaders();
    assert lookup(names[0]) == "";
    forall m | 0 <= m < 1
      ensures lookup(names[m]) == ""
    {
      assert m == 0;
    }
    FirstFromPicksFirst(lookup, names, 1);
  }
}
