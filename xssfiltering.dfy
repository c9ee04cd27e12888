/** The X-XSS-Protection value, as `XSSFilteringHeaderFunc` builds it. */
module XssFiltering {
  import opened Http

  /** The default used for an empty option. */
  const DefaultXssValue: string := "1; mode=block"

  function XssValue(opt: string): (v: string)
    ensures v != ""
    ensures opt == "" ==> v == DefaultXssValue
    ensures opt != "" ==> v == opt
  {
    if opt == "" then DefaultXssValue else opt
  }

  function XSSFilteringHeaderFunc(opt: string): HeaderFunc {
    h => Set(h, "X-XSS-Protection", XssValue(opt))
  }

  /** Only X-XSS-Protection is set, and it is never set to an empty value. */
  lemma XSSFilteringSetsOnlyItsHeader(opt: string, h: Header)
    ensures Get(XSSFilteringHeaderFunc(opt)(h), "X-XSS-Protection") != ""
    ensures forall k :: k in h && k != CanonicalHeaderKey("X-XSS-Protection")
              ==> XSSFilteringHeaderFunc(opt)(h)[k] == h[k]
  {
  }
}
