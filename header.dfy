/**
 * `AllowHTTPHeader` and `DisallowHTTPHeader`: case-insensitive substring
 * filters on one request header, and their fixed-status instances for
 * Content-Type, Accept and User-Agent.
 */
module HeaderFilter {
  import opened Strings
  import opened Http

  /** Does the header value contain one of `values` as a substring, ignoring case? */
  predicate Matches(values: seq<string>, headerValue: string) {
    exists i | 0 <= i < |values| :: Contains(ToLower(headerValue), ToLower(values[i]))
  }

  /** The lower-cased copy of the configured values, built once per middleware. */
  method LowerAll(values: seq<string>) returns (list: seq<string>)
    ensures |list| == |values|
    ensures forall i :: 0 <= i < |values| ==> list[i] == ToLower(values[i])
  {
    var a := new string[|values|];
    for i := 0 to |values|
      invariant forall j :: 0 <= j < i ==> a[j] == ToLower(values[j])
    {
      a[i] := ToLower(values[i]);
    }
    list := a[..];
  }

  /** The per-request scan: does `value` contain some entry of `list`? */
  function ContainsAny(list: seq<string>, value: string): (found: bool)
    ensures found <==> exists i | 0 <= i < |list| :: Contains(value, list[i])
  {
    if |list| == 0 then false
    else if Contains(value, list[0]) then true
    else ContainsAny(list[1..], value)
  }

  function AllowWith(badStatus: int, name: string, list: seq<string>): Middleware {
    (next: Handler) => (r: Request) =>
      if ContainsAny(list, ToLower(Get(r.header, name))) then next(r) else StatusOnly(badStatus)
  }

  function DisallowWith(badStatus: int, name: string, list: seq<string>): Middleware {
    (next: Handler) => (r: Request) =>
      if ContainsAny(list, ToLower(Get(r.header, name))) then StatusOnly(badStatus) else next(r)
  }

  /** Forwards a request whose `name` header contains a listed value; answers `badStatus` otherwise. */
  method AllowHTTPHeader(badStatus: int, name: string, values: seq<string>) returns (mw: Middleware)
    ensures forall next: Handler, r: Request ::
      mw(next)(r) == if Matches(values, Get(r.header, name)) then next(r) else StatusOnly(badStatus)
  {
    var list := LowerAll(values);
    mw := AllowWith(badStatus, name, list);
  }

  /** Answers `badStatus` to a request whose `name` header contains a listed value; forwards the others. */
  method DisallowHTTPHeader(badStatus: int, name: string, values: seq<string>) returns (mw: Middleware)
    ensures forall next: Handler, r: Request ::
      mw(next)(r) == if Matches(values, Get(r.header, name)) then StatusOnly(badStatus) else next(r)
  {
    var list := LowerAll(values);
    mw := DisallowWith(badStatus, name, list);
  }

  /** Only the lower-cased header value matters. */
  lemma MatchIgnoresCase(values: seq<string>, headerValue: string)
    ensures Matches(values, headerValue) == Matches(values, ToLower(headerValue))
    ensures Matches(values, headerValue) ==
      Matches(seq(|values|, i requires 0 <= i < |values| => ToLower(values[i])), headerValue)
  {
    ToLowerIdempotent(headerValue);
    var lowered := seq(|values|, i requires 0 <= i < |values| => ToLower(values[i]));
    forall i | 0 <= i < |values| ensures ToLower(lowered[i]) == ToLower(values[i]) {
      ToLowerIdempotent(values[i]);
    }
  }

  /** With no values, nothing matches; an empty value matches every header, even a missing one. */
  lemma MatchEdgeCases(values: seq<string>, headerValue: string)
    ensures !Matches([], headerValue)
    ensures (exists i | 0 <= i < |values| :: values[i] == "") ==> Matches(values, headerValue)
  {
    if i :| 0 <= i < |values| && values[i] == "" {
      EmptyIsContained(ToLower(headerValue));
      assert ToLower(values[i]) == "";
    }
  }

  /**
   * With the same status, header name and values, exactly one of the two
   * filters forwards a request: `AllowHTTPHeader` refuses exactly the
   * requests `DisallowHTTPHeader` lets through.
   */
  lemma HeaderFiltersComplementary(badStatus: int, name: string, values: seq<string>, next: Handler, r: Request)
    ensures var list := seq(|values|, i requires 0 <= i < |values| => ToLower(values[i]));
      var allowed := AllowWith(badStatus, name, list)(next)(r);
      var denied := DisallowWith(badStatus, name, list)(next)(r);
      (Matches(values, Get(r.header, name)) ==> allowed == next(r) && denied == StatusOnly(badStatus))
      && (!Matches(values, Get(r.header, name)) ==> allowed == StatusOnly(badStatus) && denied == next(r))
  {
    var list := seq(|values|, i requires 0 <= i < |values| => ToLower(values[i]));
    var v := ToLower(Get(r.header, name));
    if Matches(values, Get(r.header, name)) {
      var i :| 0 <= i < |values| && Contains(v, ToLower(values[i]));
      assert Contains(v, list[i]);
    }
  }

  method AllowContentType(types: seq<string>) returns (mw: Middleware)
    ensures forall next: Handler, r: Request ::
      mw(next)(r) == if Matches(types, Get(r.header, "Content-Type")) then next(r) else StatusOnly(415)
  {
    mw := AllowHTTPHeader(415, "Content-Type", types);
  }

  method DisallowContentType(types: seq<string>) returns (mw: Middleware)
    ensures forall next: Handler, r: Request ::
      mw(next)(r) == if Matches(types, Get(r.header, "Content-Type")) then StatusOnly(415) else next(r)
  {
    mw := DisallowHTTPHeader(415, "Content-Type", types);
  }

  method AllowAccept(types: seq<string>) returns (mw: Middleware)
    ensures forall next: Handler, r: Request ::
      mw(next)(r) == if Matches(types, Get(r.header, "Accept")) then next(r) else StatusOnly(406)
  {
    mw := AllowHTTPHeader(406, "Accept", types);
  }

  method DisallowAccept(types: seq<string>) returns (mw: Middleware)
    ensures forall next: Handler, r: Request ::
      mw(next)(r) == if Matches(types, Get(r.header, "Accept")) then StatusOnly(406) else next(r)
  {
    mw := DisallowHTTPHeader(406, "Accept", types);
  }

  method AllowUserAgent(agents: seq<string>) returns (mw: Middleware)
    ensures forall next: Handler, r: Request ::
      mw(next)(r) == if Matches(agents, Get(r.header, "User-Agent")) then next(r) else StatusOnly(403)
  {
    mw := AllowHTTPHeader(403, "User-Agent", agents);
  }

  method DisallowUserAgent(agents: seq<string>) returns (mw: Middleware)
    ensures forall next: Handler, r: Request ::
      mw(next)(r) == if Matches(agents, Get(r.header, "User-Agent")) then StatusOnly(403) else next(r)
  {
    mw := DisallowHTTPHeader(403, "User-Agent", agents);
  }
}
