/** The Strict-Transport-Security value of section 6.1 of RFC 6797, as `HSTSHeaderFunc` builds it. */
module Hsts {
  import opened Wrappers
  import opened Strings
  import opened Http

  /** 365 days, in seconds: what a negative max-age is replaced with. */
  const DefaultMaxAge: nat := 31536000

  function EffectiveMaxAge(maxAge: int): (age: nat)
    ensures maxAge < 0 ==> age == DefaultMaxAge
    ensures maxAge >= 0 ==> age == maxAge
  {
    if maxAge < 0 then DefaultMaxAge else maxAge
  }

  /** The two directives the option may add, compared case-sensitively. */
  predicate KnownOption(opt: string) {
    opt == "includeSubDomains" || opt == "preload"
  }

  /** `max-age=<seconds>`, followed by `; <opt>` for a known option. */
  function HstsValue(maxAge: int, opt: string): string {
    var value := "max-age=" + NatToString(EffectiveMaxAge(maxAge));
    if KnownOption(opt) then value + "; " + opt else value
  }

  function HSTSHeaderFunc(maxAge: int, opt: string): HeaderFunc {
    h => Set(h, "Strict-Transport-Security", HstsValue(maxAge, opt))
  }

  /** The number of leading decimal digits of `s`. */
  function DigitRun(s: string): (n: nat)
    ensures n <= |s| && AllDigits(s[..n])
    ensures n < |s| ==> !IsDigit(s[n])
  {
    if |s| > 0 && IsDigit(s[0]) then
      var k := 1 + DigitRun(s[1..]);
      assert s[..k] == [s[0]] + s[1..][..k - 1];
      k
    else 0
  }

  /**
   * A reader for the values built here: the max-age seconds and the directive
   * after "; " ("" when there is none).
   */
  function ParseHsts(v: string): Option<(nat, string)> {
    if |v| < 8 || v[..8] != "max-age=" then None else ParseSeconds(v[8..])
  }

  function ParseSeconds(rest: string): Option<(nat, string)> {
    var n := DigitRun(rest);
    if n == 0 then None
    else if n == |rest| then Some((DigitsValue(rest[..n]), ""))
    else if |rest| - n >= 2 && rest[n..n + 2] == "; " then Some((DigitsValue(rest[..n]), rest[n + 2..]))
    else None
  }

  lemma {:induction false} DigitRunOfNumeral(digits: string, tail: string)
    requires AllDigits(digits)
    requires tail == [] || !IsDigit(tail[0])
    ensures DigitRun(digits + tail) == |digits|
    decreases |digits|
  {
    if |digits| > 0 {
      assert (digits + tail)[1..] == digits[1..] + tail;
      DigitRunOfNumeral(digits[1..], tail);
    } else {
      assert digits + tail == tail;
    }
  }

  lemma ParseHstsPrefix(rest: string)
    ensures ParseHsts("max-age=" + rest) == ParseSeconds(rest)
  {
    var v := "max-age=" + rest;
    assert v[..8] == "max-age=";
    assert v[8..] == rest;
  }

  lemma ParseSecondsOf(age: nat, tail: string, directive: string)
    requires tail == "" || tail == "; " + directive
    requires tail == "" ==> directive == ""
    ensures ParseSeconds(NatToString(age) + tail) == Some((age, directive))
  {
    var digits := NatToString(age);
    var rest := digits + tail;
    assert tail == [] || tail[0] == ';';
    DigitRunOfNumeral(digits, tail);
    var n := |digits|;
    assert rest[..n] == digits;
    DigitsValueOfNatToString(age);
    if tail != "" {
      assert rest[n..n + 2] == "; ";
      assert rest[n + 2..] == directive;
    }
  }

  lemma HstsValueWithOption(age: nat, opt: string)
    ensures ParseHsts("max-age=" + NatToString(age) + "; " + opt) == Some((age, opt))
  {
    var digits := NatToString(age);
    var rest := digits + ("; " + opt);
    assert "max-age=" + digits + "; " + opt == "max-age=" + rest;
    ParseHstsPrefix(rest);
    ParseSecondsOf(age, "; " + opt, opt);
  }

  lemma HstsValueWithoutOption(age: nat)
    ensures ParseHsts("max-age=" + NatToString(age)) == Some((age, ""))
  {
    var digits := NatToString(age);
    ParseSecondsOf(age, "", "");
    ParseHstsPrefix(digits + "");
    assert digits + "" == digits;
  }

  /**
   * The value reads back as the effective max-age and the option when the
   * option is one of the two known directives, and as the max-age alone otherwise.
   */
  lemma HstsValueRoundTrip(maxAge: int, opt: string)
    ensures ParseHsts(HstsValue(maxAge, opt))
         == Some((EffectiveMaxAge(maxAge), if KnownOption(opt) then opt else ""))
  {
    if KnownOption(opt) {
      HstsValueWithOption(EffectiveMaxAge(maxAge), opt);
    } else {
      HstsValueWithoutOption(EffectiveMaxAge(maxAge));
    }
  }

  /** The header function sets Strict-Transport-Security and leaves every other header alone. */
  lemma HSTSHeaderFuncSetsOnlyItsHeader(maxAge: int, opt: string, h: Header)
    ensures Get(HSTSHeaderFunc(maxAge, opt)(h), "Strict-Transport-Security") == HstsValue(maxAge, opt)
    ensures forall k :: k in h && k != CanonicalHeaderKey("Strict-Transport-Security")
              ==> HSTSHeaderFunc(maxAge, opt)(h)[k] == h[k]
  {
  }
}
