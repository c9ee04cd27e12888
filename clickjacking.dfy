/** The X-Frame-Options value of section 2.1 of RFC 7034, as `ClickjackingHeaderFunc` normalises it. */
module Clickjacking {
  import opened Strings
  import opened Http

  /** The option, lower-cased; anything but "deny" or "sameorigin" becomes "deny". */
  function FrameOption(opt: string): (v: string)
    ensures v == "deny" || v == "sameorigin"
    ensures v == "sameorigin" <==> ToLower(opt) == "sameorigin"
  {
    var lowered := ToLower(opt);
    if lowered != "deny" && lowered != "sameorigin" then "deny" else lowered
  }

  function ClickjackingHeaderFunc(opt: string): HeaderFunc {
    h => Set(h, "X-Frame-Options", FrameOption(opt))
  }

  /** Normalising a normalised value changes nothing. */
  lemma FrameOptionIdempotent(opt: string)
    ensures FrameOption(FrameOption(opt)) == FrameOption(opt)
  {
    assert ToLower("deny") == "deny";
    assert ToLower("sameorigin") == "sameorigin";
  }

  /** Case does not matter, and an empty or unknown option gives "deny". */
  lemma FrameOptionExamples()
    ensures FrameOption("SameOrigin") == "sameorigin"
    ensures FrameOption("DENY") == "deny"
    ensures FrameOption("") == "deny"
    ensures FrameOption("allow-from") == "deny"
  {
    assert ToLower("SameOrigin") == "sameorigin";
    assert ToLower("DENY") == "deny";
    assert ToLower("allow-from") == "allow-from";
  }
}
