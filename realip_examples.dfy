/**
 * The forwarding lists of the `RealIP` tests, built from formatted addresses:
 * the rightmost public address of X-Forwarded-For wins over X-Real-IP, and
 * X-Real-IP is used when X-Forwarded-For holds only loopback, private or
 * unparseable items.
 */
module RealIpExamples {
  import opened Wrappers
  import opened Strings
  import opened Http
  import opened RealIp

  lemma DigitIsNoSpace(c: char)
    requires IsDigit(c)
    ensures !IsSpace(c) && c != ','
  {
  }

  /** A formatted address starts and ends with a digit and holds no comma. */
  lemma FormatIPv4Shape(a: Ip4Bytes)
    ensures var f := FormatIPv4(a);
      |f| > 0 && IsDigit(f[0]) && IsDigit(f[|f| - 1]) && ',' !in f
  {
    var s0, s1, s2, s3 := NatToString(a[0] as nat), NatToString(a[1] as nat),
                          NatToString(a[2] as nat), NatToString(a[3] as nat);
    assert Join([s2, s3], '.') == s2 + ['.'] + s3;
    assert Join([s1, s2, s3], '.') == s1 + ['.'] + (s2 + ['.'] + s3);
    var t := s1 + ['.'] + (s2 + ['.'] + s3);
    var f := s0 + ['.'] + t;
    assert FormatIPv4(a) == f;
    assert f[0] == s0[0];
    assert f[|f| - 1] == s3[|s3| - 1];
    if ',' in f {
      var k :| 0 <= k < |f| && f[k] == ',';
      CommaNotInNumerals(s0, s1, s2, s3, k);
    }
  }

  lemma CommaNotInNumerals(s0: string, s1: string, s2: string, s3: string, k: nat)
    requires AllDigits(s0) && AllDigits(s1) && AllDigits(s2) && AllDigits(s3)
    requires k < |s0 + ['.'] + (s1 + ['.'] + (s2 + ['.'] + s3))|
    ensures (s0 + ['.'] + (s1 + ['.'] + (s2 + ['.'] + s3)))[k] != ','
  {
    var u := s2 + ['.'] + s3;
    var t := s1 + ['.'] + u;
    var f := s0 + ['.'] + t;
    if k < |s0| {
      assert f[k] == s0[k];
    } else if k > |s0| {
      var k1 := k - |s0| - 1;
      assert f[k] == t[k1];
      if k1 < |s1| {
        assert t[k1] == s1[k1];
      } else if k1 > |s1| {
        var k2 := k1 - |s1| - 1;
        assert t[k1] == u[k2];
        if k2 < |s2| {
          assert u[k2] == s2[k2];
        } else if k2 > |s2| {
          assert u[k2] == s3[k2 - |s2| - 1];
        }
      }
    }
  }

  /** Text that starts and ends with something other than white space trims to itself. */
  lemma TrimUnpadded(f: string)
    requires |f| > 0 && !IsSpace(f[0]) && !IsSpace(f[|f| - 1])
    ensures TrimSpace(f) == f
  {
    assert TrimLeft(f) == f;
  }

  /** One leading blank is trimmed away. */
  lemma TrimOneBlank(f: string)
    requires |f| > 0 && !IsSpace(f[0]) && !IsSpace(f[|f| - 1])
    ensures TrimSpace(" " + f) == f
  {
    assert (" " + f)[1..] == f;
    assert TrimLeft(" " + f) == TrimLeft(f);
    TrimUnpadded(f);
  }

  /** A formatted address, alone or after one blank, qualifies exactly when it is public unicast. */
  lemma QualifiesFormatted(parse6: Ipv6Parser, a: Ip4Bytes, item: string)
    requires item == FormatIPv4(a) || item == " " + FormatIPv4(a)
    ensures ',' !in item
    ensures TrimSpace(item) == FormatIPv4(a)
    ensures Qualifies(parse6, item) <==> IsGlobalUnicast(V4(a)) && !IsPrivateSubnet(V4(a))
  {
    var f := FormatIPv4(a);
    FormatIPv4Shape(a);
    DigitIsNoSpace(f[0]);
    DigitIsNoSpace(f[|f| - 1]);
    if item == f {
      TrimUnpadded(f);
    } else {
      TrimOneBlank(f);
      assert ',' !in " ";
    }
    FormatParseIP(parse6, a);
  }

  /** The host name that closes the forwarding lists of the tests. */
  const Localhost: string := "localhost"

  /** "localhost" is not an address literal. */
  lemma LocalhostIsNoAddress(parse6: Ipv6Parser)
    ensures !Qualifies(parse6, " " + Localhost) && ',' !in " " + Localhost
  {
    assert TrimSpace(" " + Localhost) == Localhost by {
      assert Localhost[0] == 'l' && Localhost[|Localhost| - 1] == 't';
      TrimOneBlank(Localhost);
    }
    LettersHaveNoSeparator(Localhost);
    NoSeparatorNoAddress(parse6, " " + Localhost);
    assert ',' !in " ";
  }

  /** A word of lower-case letters holds no separator, so `net.ParseIP` does not read it as an address. */
  lemma LettersHaveNoSeparator(s: string)
    requires forall k | 0 <= k < |s| :: 'a' <= s[k] <= 'z'
    ensures '.' !in s && ':' !in s && '%' !in s && ',' !in s && Family(s) == ' '
  {
    FamilyNone(s);
  }

  /** An item that trims to text with no '.', ':' or '%' does not qualify. */
  lemma NoSeparatorNoAddress(parse6: Ipv6Parser, item: string)
    requires Family(TrimSpace(item)) == ' '
    ensures !Qualifies(parse6, item)
  {
    var t := TrimSpace(item);
    assert ParseIP(parse6, t) == None;
  }

  /** A comma-free header value is a one-item list. */
  lemma SplitOne(a: string)
    requires ',' !in a
    ensures Split(a, ',') == [a]
  {
  }

  /** The list a header value is read as, under the canonical key. */
  lemma ListOf(h: Header, name: string, list: seq<string>)
    requires |list| >= 1 && forall k | 0 <= k < |list| :: ',' !in list[k]
    requires Get(h, name) == Join(list, ',')
    ensures Split(Get(h, CanonicalHeaderKey(name)), ',') == list
  {
    CanonicalHeaderKeyIdempotent(name);
    SplitJoin(list, ',');
  }

  /** A three-item list none of whose items qualifies yields nothing. */
  lemma NoneOfThree(parse6: Ipv6Parser, h: Header, name: string, a: string, b: string, c: string)
    requires ',' !in a && ',' !in b && ',' !in c
    requires !Qualifies(parse6, a) && !Qualifies(parse6, b) && !Qualifies(parse6, c)
    requires Get(h, name) == Join([a, b, c], ',')
    ensures FromHeader(parse6, h, name) == ""
  {
    var list := [a, b, c];
    forall k | 0 <= k < |list|
      ensures ',' !in list[k] && !Qualifies(parse6, list[k])
    {
      assert list[k] in {a, b, c};
    }
    ListOf(h, name, list);
    FromHeaderRightmost(parse6, h, name);
  }

  /** In a four-item list whose second item is the last that qualifies, that item is the address. */
  lemma SecondOfFour(parse6: Ipv6Parser, h: Header, name: string, a: string, b: string, c: string, d: string)
    requires ',' !in a && ',' !in b && ',' !in c && ',' !in d
    requires Qualifies(parse6, b) && !Qualifies(parse6, c) && !Qualifies(parse6, d)
    requires Get(h, name) == Join([a, b, c, d], ',')
    ensures FromHeader(parse6, h, name) == TrimSpace(b)
  {
    var list := [a, b, c, d];
    forall k | 0 <= k < |list|
      ensures ',' !in list[k]
    {
      assert list[k] in {a, b, c, d};
    }
    ListOf(h, name, list);
    forall k | 1 < k < |list|
      ensures !Qualifies(parse6, list[k])
    {
      assert list[k] in {c, d};
    }
    FromHeaderAt(parse6, h, name, list, 1);
  }

  /** The X-Forwarded-For list "x, y, z, localhost" where only y is public yields y. */
  lemma ForwardedListYields(parse6: Ipv6Parser, h: Header, x: Ip4Bytes, y: Ip4Bytes, z: Ip4Bytes)
    requires !IsGlobalUnicast(V4(x)) || IsPrivateSubnet(V4(x))
    requires IsGlobalUnicast(V4(y)) && !IsPrivateSubnet(V4(y))
    requires !IsGlobalUnicast(V4(z)) || IsPrivateSubnet(V4(z))
    requires Get(h, "X-Forwarded-For")
          == Join([FormatIPv4(x), " " + FormatIPv4(y), " " + FormatIPv4(z), " " + Localhost], ',')
    ensures FromHeader(parse6, h, "X-Forwarded-For") == FormatIPv4(y)
  {
    QualifiesFormatted(parse6, x, FormatIPv4(x));
    QualifiesFormatted(parse6, y, " " + FormatIPv4(y));
    QualifiesFormatted(parse6, z, " " + FormatIPv4(z));
    LocalhostIsNoAddress(parse6);
    SecondOfFour(parse6, h, "X-Forwarded-For",
                 FormatIPv4(x), " " + FormatIPv4(y), " " + FormatIPv4(z), " " + Localhost);
  }

  /** The X-Forwarded-For list "x, z, localhost" with no public address yields nothing. */
  lemma PrivateListYieldsNothing(parse6: Ipv6Parser, h: Header, x: Ip4Bytes, z: Ip4Bytes)
    requires !IsGlobalUnicast(V4(x)) || IsPrivateSubnet(V4(x))
    requires !IsGlobalUnicast(V4(z)) || IsPrivateSubnet(V4(z))
    requires Get(h, "X-Forwarded-For") == Join([FormatIPv4(x), " " + FormatIPv4(z), " " + Localhost], ',')
    ensures FromHeader(parse6, h, "X-Forwarded-For") == ""
  {
    QualifiesFormatted(parse6, x, FormatIPv4(x));
    QualifiesFormatted(parse6, z, " " + FormatIPv4(z));
    LocalhostIsNoAddress(parse6);
    NoneOfThree(parse6, h, "X-Forwarded-For", FormatIPv4(x), " " + FormatIPv4(z), " " + Localhost);
  }

  /** A header holding one public address yields it. */
  lemma SingleAddressYields(parse6: Ipv6Parser, h: Header, name: string, w: Ip4Bytes)
    requires IsGlobalUnicast(V4(w)) && !IsPrivateSubnet(V4(w))
    requires Get(h, name) == FormatIPv4(w)
    ensures FromHeader(parse6, h, name) == FormatIPv4(w)
  {
    QualifiesFormatted(parse6, w, FormatIPv4(w));
    SplitOne(FormatIPv4(w));
    CanonicalHeaderKeyIdempotent(name);
    FromHeaderAt(parse6, h, name, [FormatIPv4(w)], 0);
  }

  /**
   * X-Forwarded-For "x, y, z, localhost" where only y is public: the
   * address is y, whatever X-Real-IP holds.
   */
  lemma RightmostPublicWins(parse6: Ipv6Parser, r: Request, x: Ip4Bytes, y: Ip4Bytes, z: Ip4Bytes)
    requires !IsGlobalUnicast(V4(x)) || IsPrivateSubnet(V4(x))
    requires IsGlobalUnicast(V4(y)) && !IsPrivateSubnet(V4(y))
    requires !IsGlobalUnicast(V4(z)) || IsPrivateSubnet(V4(z))
    requires Get(r.header, "X-Forwarded-For")
          == Join([FormatIPv4(x), " " + FormatIPv4(y), " " + FormatIPv4(z), " " + Localhost], ',')
    ensures RealIP(parse6, r) == FormatIPv4(y)
  {
    ForwardedListYields(parse6, r.header, x, y, z);
    ForwardedForFirst(parse6, r);
  }

  /**
   * X-Forwarded-For "x, z, localhost" with no public address yields nothing,
   * so a public X-Real-IP w is used.
   */
  lemma FallBackToRealIp(parse6: Ipv6Parser, r: Request, x: Ip4Bytes, z: Ip4Bytes, w: Ip4Bytes)
    requires !IsGlobalUnicast(V4(x)) || IsPrivateSubnet(V4(x))
    requires !IsGlobalUnicast(V4(z)) || IsPrivateSubnet(V4(z))
    requires IsGlobalUnicast(V4(w)) && !IsPrivateSubnet(V4(w))
    requires Get(r.header, "X-Forwarded-For")
          == Join([FormatIPv4(x), " " + FormatIPv4(z), " " + Localhost], ',')
    requires Get(r.header, "X-Real-IP") == FormatIPv4(w)
    ensures RealIP(parse6, r) == FormatIPv4(w)
  {
    PrivateListYieldsNothing(parse6, r.header, x, z);
    SingleAddressYields(parse6, r.header, "X-Real-IP", w);
    RealIpSecond(parse6, r);
  }

  /** The addresses of the tests, classified: 127.0.0.1 and 192.168.0.4 are passed over, the other two are public. */
  lemma TestAddresses(loopback: Ip4Bytes, private: Ip4Bytes, public1: Ip4Bytes, public2: Ip4Bytes)
    requires loopback == [127, 0, 0, 1] && private == [192, 168, 0, 4]
    requires public1 == [100, 100, 100, 100] && public2 == [101, 101, 101, 101]
    ensures !IsGlobalUnicast(V4(loopback))
    ensures IsPrivateSubnet(V4(private))
    ensures IsGlobalUnicast(V4(public1)) && !IsPrivateSubnet(V4(public1))
    ensures IsGlobalUnicast(V4(public2)) && !IsPrivateSubnet(V4(public2))
  {
    PrivateSubnetV4(private);
    PrivateSubnetV4(public1);
    PrivateSubnetV4(public2);
  }

  /** The first test: 100.100.100.100 is found behind 192.168.0.4 and before 127.0.0.1. */
  lemma TestForwardedFor(parse6: Ipv6Parser, r: Request, loopback: Ip4Bytes, public: Ip4Bytes, private: Ip4Bytes)
    requires loopback == [127, 0, 0, 1] && public == [100, 100, 100, 100] && private == [192, 168, 0, 4]
    requires Get(r.header, "X-Forwarded-For")
          == Join([FormatIPv4(loopback), " " + FormatIPv4(public), " " + FormatIPv4(private), " " + Localhost], ',')
    ensures RealIP(parse6, r) == FormatIPv4(public)
  {
    TestAddresses(loopback, private, public, [101, 101, 101, 101]);
    RightmostPublicWins(parse6, r, loopback, public, private);
  }

  /** The second test: with nothing public in X-Forwarded-For, X-Real-IP 101.101.101.101 is used. */
  lemma TestRealIpFallback(parse6: Ipv6Parser, r: Request, loopback: Ip4Bytes, private: Ip4Bytes, public: Ip4Bytes)
    requires loopback == [127, 0, 0, 1] && private == [192, 168, 0, 4] && public == [101, 101, 101, 101]
    requires Get(r.header, "X-Forwarded-For")
          == Join([FormatIPv4(loopback), " " + FormatIPv4(private), " " + Localhost], ',')
    requires Get(r.header, "X-Real-IP") == FormatIPv4(public)
    ensures RealIP(parse6, r) == FormatIPv4(public)
  {
    TestAddresses(loopback, private, [100, 100, 100, 100], public);
    FallBackToRealIp(parse6, r, loopback, private, public);
  }
}
