/** The Cache-Control value of section 5.2 of RFC 9111, as `CacheControlHeaderFunc` builds it. */
module CacheControl {
  import opened Strings
  import opened Http

  /** The options joined by "," with no spaces, in the given order. */
  function CacheControlValue(opts: seq<string>): string {
    Join(opts, ',')
  }

  /** No options: no header at all; otherwise Cache-Control is set to the joined options. */
  function CacheControlHeaderFunc(opts: seq<string>): HeaderFunc {
    if |opts| == 0 then h => h
    else h => Set(h, "Cache-Control", CacheControlValue(opts))
  }

  /** The directives that forbid every cache from keeping the response. */
  function NoCacheOptions(): seq<string> {
    ["private", "no-cache", "no-store", "must-revalidate", "max-age=0", "proxy-revalidate", "s-maxage=0"]
  }

  function NoCacheHeaderFunc(): HeaderFunc {
    CacheControlHeaderFunc(NoCacheOptions())
  }

  /** With no options the header map is left exactly as it was. */
  lemma NoOptionsNoHeader(h: Header)
    ensures CacheControlHeaderFunc([])(h) == h
  {
  }

  /** With options, Cache-Control is set to their join and the other headers stay. */
  lemma CacheControlSetsOnlyItsHeader(opts: seq<string>, h: Header)
    requires |opts| > 0
    ensures Get(CacheControlHeaderFunc(opts)(h), "Cache-Control") == CacheControlValue(opts)
    ensures forall k :: k in h && k != CanonicalHeaderKey("Cache-Control")
              ==> CacheControlHeaderFunc(opts)(h)[k] == h[k]
  {
  }

  /** Splitting the value on "," gives back the options, when none of them holds a comma. */
  lemma CacheControlValueSplits(opts: seq<string>)
    requires |opts| > 0
    requires forall i :: 0 <= i < |opts| ==> ',' !in opts[i]
    ensures Split(CacheControlValue(opts), ',') == opts
  {
    SplitJoin(opts, ',');
  }

  /** The value `NoCache()` writes splits back into its seven directives. */
  lemma NoCacheValueSplits()
    ensures Split(CacheControlValue(NoCacheOptions()), ',') == NoCacheOptions()
    ensures |NoCacheOptions()| == 7
  {
    var o := NoCacheOptions();
    assert ',' !in o[0] && ',' !in o[1] && ',' !in o[2] && ',' !in o[3];
    assert ',' !in o[4] && ',' !in o[5] && ',' !in o[6];
    CacheControlValueSplits(o);
  }

  /** Joining a head onto a non-empty tail puts one separator between them. */
  lemma JoinCons(head: string, tail: seq<string>, sep: char)
    requires |tail| >= 1
    ensures Join([head] + tail, sep) == head + [sep] + Join(tail, sep)
  {
    assert ([head] + tail)[1..] == tail;
  }

  /** `NoCache()` writes the seven directives in order, each followed by a single comma except the last. */
  lemma NoCacheValue()
    ensures CacheControlValue(NoCacheOptions())
         == "private" + "," + ("no-cache" + "," + ("no-store" + "," + ("must-revalidate" + ","
          + ("max-age=0" + "," + ("proxy-revalidate" + "," + "s-maxage=0")))))
  {
    var t6: seq<string> := ["s-maxage=0"];
    var t5 := ["proxy-revalidate"] + t6;
    JoinCons("proxy-revalidate", t6, ',');
    var t4 := ["max-age=0"] + t5;
    JoinCons("max-age=0", t5, ',');
    var t3 := ["must-revalidate"] + t4;
    JoinCons("must-revalidate", t4, ',');
    var t2 := ["no-store"] + t3;
    JoinCons("no-store", t3, ',');
    var t1 := ["no-cache"] + t2;
    JoinCons("no-cache", t2, ',');
    JoinCons("private", t1, ',');
    assert NoCacheOptions() == ["private"] + t1;
  }
}
