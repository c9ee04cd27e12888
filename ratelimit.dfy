/**
 * `RateLimit` and `RateLimitPerIP`: requests wait on a token-bucket limiter
 * before reaching the handler; a failed wait is answered with 500. The
 * per-IP variant keeps one limiter per client address and lets the first
 * request from an address through without waiting.
 */
module RateLimit {
  import opened Wrappers
  import opened Http
  import opened RealIp

  /** A token-bucket limiter; its bucket is not modelled, only its settings. */
  class Limiter {
    const limit: int
    const burst: int

    /** `rate.NewLimiter(rate.Limit(limit), burst)`. */
    constructor (limit: int, burst: int)
      ensures this.limit == limit && this.burst == burst
    {
      this.limit := limit;
      this.burst := burst;
    }
  }

  /** What `Limiter.Wait` returns for one request: a token, or an error (deadline, cancellation). */
  datatype WaitResult = Granted | Failed

  /** `waitRateLimit`: a failed wait gives 500 with its status text and does not reach `next`. */
  function WaitRateLimit(wait: WaitResult, next: Handler, r: Request): (resp: Response)
    ensures wait == Granted ==> resp == next(r)
    ensures wait == Failed ==> resp == ErrorResponse(StatusText(500), 500)
  {
    match wait
    case Granted => next(r)
    case Failed => ErrorResponse(StatusText(500), 500)
  }

  /** After a failed wait the response is the same whatever `next` would have done. */
  lemma FailedWaitSkipsNext(next1: Handler, next2: Handler, r: Request)
    ensures WaitRateLimit(Failed, next1, r) == WaitRateLimit(Failed, next2, r)
    ensures WaitRateLimit(Failed, next1, r).code == 500
    ensures WaitRateLimit(Failed, next1, r).body == Ascii("Internal Server Error\n")
  {
  }

  /** The response to a request that passed free, or that waited with result `wait`. */
  function Answer(free: bool, wait: WaitResult, next: Handler, r: Request): Response {
    if free then next(r) else WaitRateLimit(wait, next, r)
  }

  /** `RateLimit(rl)`: one limiter with rate `rl` and burst 1, shared by every request. */
  class RateLimiter {
    const l: Limiter

    constructor (rl: int)
      ensures l.limit == rl && l.burst == 1
    {
      l := new Limiter(rl, 1);
    }

    /** One request: `wait` is what `l.Wait` returned; the limiter waited on is returned too. */
    method ServeHTTP(next: Handler, r: Request, wait: WaitResult) returns (resp: Response, waitedOn: Limiter)
      ensures resp == WaitRateLimit(wait, next, r)
      ensures waitedOn == l
    {
      resp := WaitRateLimit(wait, next, r);
      waitedOn := l;
    }
  }

  /** `RateLimitPerIP(rl)`: a registry from client address to its own limiter. */
  class PerIPRateLimiter {
    const rl: int
    var limiters: map<string, Limiter>

    constructor (rl: int)
      ensures this.rl == rl && limiters == map[]
    {
      this.rl := rl;
      limiters := map[];
    }

    /**
     * One request. The key is `realIP(r)` ("" when no public address was
     * found). A known key waits on its limiter; an unseen key gets a fresh
     * limiter stored and passes at once, whatever `wait` would have said.
     */
    method ServeHTTP(parse6: Ipv6Parser, next: Handler, r: Request, wait: WaitResult)
      returns (resp: Response, waitedOn: Option<Limiter>)
      modifies this`limiters
      ensures var ip := RealIP(parse6, r);
        limiters.Keys == old(limiters).Keys + {ip}
        && (ip in old(limiters) ==>
              limiters == old(limiters) && waitedOn == Some(old(limiters)[ip])
              && resp == WaitRateLimit(wait, next, r))
        && (ip !in old(limiters) ==>
              fresh(limiters[ip]) && limiters[ip].limit == rl && limiters[ip].burst == 1
              && limiters == old(limiters)[ip := limiters[ip]]
              && waitedOn == None && resp == next(r))
    {
      resp, waitedOn := Admit(RealIP(parse6, r), next, r, wait);
    }

    /** The registry step for a request whose key is `ip`. */
    method Admit(ip: string, next: Handler, r: Request, wait: WaitResult)
      returns (resp: Response, waitedOn: Option<Limiter>)
      modifies this`limiters
      ensures limiters.Keys == old(limiters).Keys + {ip}
      ensures ip in old(limiters) ==>
        limiters == old(limiters) && waitedOn == Some(old(limiters)[ip])
        && resp == WaitRateLimit(wait, next, r)
      ensures ip !in old(limiters) ==>
        fresh(limiters[ip]) && limiters[ip].limit == rl && limiters[ip].burst == 1
        && limiters == old(limiters)[ip := limiters[ip]]
        && waitedOn == None && resp == next(r)
    {
      if ip in limiters {
        var l := limiters[ip];
        resp := WaitRateLimit(wait, next, r);
        waitedOn := Some(l);
        return;
      }
      var l := new Limiter(rl, 1);
      limiters := limiters[ip := l];
      resp := next(r);
      waitedOn := None;
    }

    /**
     * A run of requests through the middleware, one after another; `waits[k]`
     * is what a wait for request `k` would return. The registry ends with
     * exactly the addresses seen, a request passes without waiting exactly
     * when its address was not yet known, and so the requests let through
     * without waiting number `FreePasses`.
     */
    method ServeAll(parse6: Ipv6Parser, next: Handler, rs: seq<Request>, waits: seq<WaitResult>)
      returns (resps: seq<Response>, waitedOns: seq<Option<Limiter>>)
      requires |waits| == |rs|
      modifies this`limiters
      ensures var ips := Addresses(parse6, rs);
        && limiters.Keys == KeysAfter(old(limiters).Keys, ips)
        && |resps| == |rs| && |waitedOns| == |rs|
        && Unwaited(waitedOns) == FreePasses(old(limiters).Keys, ips)
        && (forall k :: 0 <= k < |rs| ==> (waitedOns[k] == None <==> FirstSeen(old(limiters).Keys, ips, k)))
        && forall k :: 0 <= k < |rs| ==>
             resps[k] == Answer(waitedOns[k] == None, waits[k], next, rs[k])
    {
      ghost var known := limiters.Keys;
      var ips := Addresses(parse6, rs);
      resps, waitedOns := [], [];
      for i := 0 to |rs|
        invariant |waitedOns| == i
        invariant limiters.Keys == KeysAfter(known, ips[..i])
        invariant Unwaited(waitedOns) == FreePasses(known, ips[..i])
        invariant AnsweredAsRegistered(known, ips, rs, waits, next, resps, waitedOns)
      {
        resps, waitedOns := AdmitNext(known, ips, rs, waits, next, resps, waitedOns);
      }
      assert ips[..|rs|] == ips;
    }

    /** Request `|waitedOns|` of a run, after the ones before it were answered. */
    method AdmitNext(ghost known: set<string>, ips: seq<string>, rs: seq<Request>, waits: seq<WaitResult>,
                     next: Handler, resps: seq<Response>, waitedOns: seq<Option<Limiter>>)
      returns (resps': seq<Response>, waitedOns': seq<Option<Limiter>>)
      requires AnsweredAsRegistered(known, ips, rs, waits, next, resps, waitedOns) && |waitedOns| < |ips|
      requires limiters.Keys == KeysAfter(known, ips[..|waitedOns|])
      requires Unwaited(waitedOns) == FreePasses(known, ips[..|waitedOns|])
      modifies this`limiters
      ensures AnsweredAsRegistered(known, ips, rs, waits, next, resps', waitedOns')
      ensures |waitedOns'| == |waitedOns| + 1
      ensures limiters.Keys == KeysAfter(known, ips[..|waitedOns'|])
      ensures Unwaited(waitedOns') == FreePasses(known, ips[..|waitedOns'|])
    {
      var i := |waitedOns|;
      FirstSeenKnown(known, ips, i);
      var resp, waitedOn := Admit(ips[i], next, rs[i], waits[i]);
      TakeOneMore(ips, i);
      KeysAfterAppend(known, ips[..i], ips[i]);
      FreePassesAppend(known, ips[..i], ips[i]);
      AnsweredAppend(known, ips, rs, waits, next, resps, waitedOns, resp, waitedOn);
      resps', waitedOns' := resps + [resp], waitedOns + [waitedOn];
      assert waitedOns'[..i] == waitedOns;
    }
  }

  // ---------------------------------------------------------------- the registry over many requests

  /** The registry key of each request: its `realIP`. */
  function Addresses(parse6: Ipv6Parser, rs: seq<Request>): (ips: seq<string>)
    ensures |ips| == |rs|
  {
    if |rs| == 0 then [] else Addresses(parse6, rs[..|rs| - 1]) + [RealIP(parse6, rs[|rs| - 1])]
  }

  /** Each of the first `|waitedOns|` requests was answered as the registry decides. */
  predicate AnsweredAsRegistered(known: set<string>, ips: seq<string>, rs: seq<Request>, waits: seq<WaitResult>,
                                 next: Handler, resps: seq<Response>, waitedOns: seq<Option<Limiter>>)
  {
    && |resps| == |waitedOns| <= |ips| == |rs| == |waits|
    && forall k :: 0 <= k < |waitedOns| ==>
         (waitedOns[k] == None <==> FirstSeen(known, ips, k))
         && resps[k] == Answer(waitedOns[k] == None, waits[k], next, rs[k])
  }

  /** Answering one more request as the registry decides extends the run. */
  lemma AnsweredAppend(known: set<string>, ips: seq<string>, rs: seq<Request>, waits: seq<WaitResult>,
                       next: Handler, resps: seq<Response>, waitedOns: seq<Option<Limiter>>,
                       resp: Response, waitedOn: Option<Limiter>)
    requires AnsweredAsRegistered(known, ips, rs, waits, next, resps, waitedOns)
    requires |waitedOns| < |ips|
    requires waitedOn == None <==> FirstSeen(known, ips, |waitedOns|)
    requires resp == Answer(waitedOn == None, waits[|waitedOns|], next, rs[|waitedOns|])
    ensures AnsweredAsRegistered(known, ips, rs, waits, next, resps + [resp], waitedOns + [waitedOn])
  {
    var resps', waitedOns' := resps + [resp], waitedOns + [waitedOn];
    forall k | 0 <= k < |waitedOns'|
      ensures (waitedOns'[k] == None <==> FirstSeen(known, ips, k))
      ensures resps'[k] == Answer(waitedOns'[k] == None, waits[k], next, rs[k])
    {
      if k < |waitedOns| {
        assert waitedOns'[k] == waitedOns[k] && resps'[k] == resps[k];
      }
    }
  }

  lemma TakeOneMore<T>(s: seq<T>, i: int)
    requires 0 <= i < |s|
    ensures s[..i + 1] == s[..i] + [s[i]]
  {
  }

  lemma {:induction false} AddressAt(parse6: Ipv6Parser, rs: seq<Request>, k: int)
    requires 0 <= k < |rs|
    ensures Addresses(parse6, rs)[k] == RealIP(parse6, rs[k])
    decreases |rs|
  {
    if k < |rs| - 1 {
      AddressAt(parse6, rs[..|rs| - 1], k);
    }
  }

  /** Request `k` is the first from its address, which was not known before the run. */
  predicate FirstSeen(known: set<string>, ips: seq<string>, k: int)
    requires 0 <= k < |ips|
  {
    ips[k] !in known && ips[k] !in ips[..k]
  }

  lemma FirstSeenKnown(known: set<string>, ips: seq<string>, k: int)
    requires 0 <= k < |ips|
    ensures FirstSeen(known, ips, k) <==> ips[k] !in KeysAfter(known, ips[..k])
  {
    assert (set j | 0 <= j < |ips[..k]| :: ips[..k][j]) == set x | x in ips[..k];
  }

  /** How many of the requests passed without waiting on a limiter. */
  function Unwaited(waitedOns: seq<Option<Limiter>>): nat {
    if |waitedOns| == 0 then 0
    else Unwaited(waitedOns[..|waitedOns| - 1]) + (if waitedOns[|waitedOns| - 1] == None then 1 else 0)
  }

  /** The keys known after requests from `ips`, in order, starting from `known`. */
  function KeysAfter(known: set<string>, ips: seq<string>): (keys: set<string>)
    ensures keys == known + set i | 0 <= i < |ips| :: ips[i]
    decreases |ips|
  {
    if |ips| == 0 then known
    else
      var keys := KeysAfter(known + {ips[0]}, ips[1..]);
      assert (set i | 0 <= i < |ips| :: ips[i]) == {ips[0]} + set i | 0 <= i < |ips[1..]| :: ips[1..][i];
      keys
  }

  /** How many of those requests passed without waiting: one per address not yet known. */
  function FreePasses(known: set<string>, ips: seq<string>): nat
    decreases |ips|
  {
    if |ips| == 0 then 0
    else (if ips[0] in known then 0 else 1) + FreePasses(known + {ips[0]}, ips[1..])
  }

  /**
   * From an empty registry, every address gets exactly one free pass: the
   * number of requests let through without waiting is the number of distinct
   * addresses seen.
   */
  lemma {:induction false} FreePassesCountAddresses(known: set<string>, ips: seq<string>)
    ensures FreePasses(known, ips) == |KeysAfter(known, ips) - known|
    decreases |ips|
  {
    if |ips| > 0 {
      var k' := known + {ips[0]};
      FreePassesCountAddresses(k', ips[1..]);
      var after := KeysAfter(k', ips[1..]);
      assert KeysAfter(known, ips) == after;
      assert k' <= after;
      if ips[0] in known {
        assert k' == known;
      } else {
        assert after - known == (after - k') + {ips[0]};
        assert ips[0] !in after - k';
      }
    }
  }

  /** One more request adds its address to the known keys. */
  lemma KeysAfterAppend(known: set<string>, ips: seq<string>, ip: string)
    ensures KeysAfter(known, ips + [ip]) == KeysAfter(known, ips) + {ip}
  {
    var ips' := ips + [ip];
    assert (set i | 0 <= i < |ips'| :: ips'[i]) == (set i | 0 <= i < |ips| :: ips[i]) + {ip} by {
      forall i | 0 <= i < |ips| ensures ips[i] in (set i | 0 <= i < |ips'| :: ips'[i]) {
        assert ips'[i] == ips[i];
      }
      assert ips'[|ips|] == ip;
    }
  }

  /** One more request is a free pass exactly when its address was not yet known. */
  lemma {:induction false} FreePassesAppend(known: set<string>, ips: seq<string>, ip: string)
    ensures FreePasses(known, ips + [ip]) ==
      FreePasses(known, ips) + (if ip in KeysAfter(known, ips) then 0 else 1)
    decreases |ips|
  {
    if |ips| > 0 {
      var k' := known + {ips[0]};
      assert (ips + [ip])[0] == ips[0];
      assert (ips + [ip])[1..] == ips[1..] + [ip];
      FreePassesAppend(k', ips[1..], ip);
      assert KeysAfter(known, ips) == KeysAfter(k', ips[1..]);
    }
  }
}
