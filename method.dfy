/** `AllowMethod` and `DisallowMethod`: 405 filters on the request method. */
module MethodFilter {
  import opened Strings
  import opened Http

  /** The scan of the filters: does `m` equal some listed method, ignoring case? */
  function Listed(methods: seq<string>, m: string): (found: bool)
    ensures found <==> exists i | 0 <= i < |methods| :: EqualFold(m, methods[i])
  {
    if |methods| == 0 then false
    else if EqualFold(m, methods[0]) then true
    else Listed(methods[1..], m)
  }

  /** Forwards a request whose method is listed; answers 405 otherwise. */
  function AllowMethod(methods: seq<string>): Middleware {
    (next: Handler) => (r: Request) =>
      if Listed(methods, r.httpMethod) then next(r) else StatusOnly(405)
  }

  /** Answers 405 to a request whose method is listed; forwards the others. */
  function DisallowMethod(methods: seq<string>): Middleware {
    (next: Handler) => (r: Request) =>
      if Listed(methods, r.httpMethod) then StatusOnly(405) else next(r)
  }

  /** `AllowMethod` forwards exactly the requests whose method equals a listed one up to case. */
  lemma AllowMethodDecides(methods: seq<string>, next: Handler, r: Request)
    ensures (exists i | 0 <= i < |methods| :: EqualFold(r.httpMethod, methods[i]))
              ==> AllowMethod(methods)(next)(r) == next(r)
    ensures (forall i | 0 <= i < |methods| :: !EqualFold(r.httpMethod, methods[i]))
              ==> AllowMethod(methods)(next)(r) == StatusOnly(405)
  {
  }

  /** `DisallowMethod` answers 405 exactly to the requests whose method equals a listed one up to case. */
  lemma DisallowMethodDecides(methods: seq<string>, next: Handler, r: Request)
    ensures (exists i | 0 <= i < |methods| :: EqualFold(r.httpMethod, methods[i]))
              ==> DisallowMethod(methods)(next)(r) == StatusOnly(405)
    ensures (forall i | 0 <= i < |methods| :: !EqualFold(r.httpMethod, methods[i]))
              ==> DisallowMethod(methods)(next)(r) == next(r)
  {
  }

  /** With the same list, exactly one of the two filters forwards a given request. */
  lemma MethodFiltersComplementary(methods: seq<string>, next: Handler, r: Request)
    ensures || (AllowMethod(methods)(next)(r) == next(r) && DisallowMethod(methods)(next)(r) == StatusOnly(405))
            || (AllowMethod(methods)(next)(r) == StatusOnly(405) && DisallowMethod(methods)(next)(r) == next(r))
  {
  }

  /** With no methods listed, `AllowMethod` refuses everything and `DisallowMethod` passes everything. */
  lemma EmptyMethodList(next: Handler, r: Request)
    ensures AllowMethod([])(next)(r) == StatusOnly(405)
    ensures DisallowMethod([])(next)(r) == next(r)
  {
  }

  /** Matching is case-insensitive but whole-string: "get" matches "GET", "GETX" does not. */
  lemma MethodMatchIsWholeString()
    ensures Listed(["GET"], "get")
    ensures !Listed(["GET"], "GETX")
  {
    assert ToLower("get") == "get";
    assert ToLower("GET") == "get";
    assert |ToLower("GETX")| == 4;
  }
}
