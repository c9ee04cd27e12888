/**
 * `Stampede(d)`: GET and HEAD responses are cached per URL for `d`; a
 * cached entry that has not expired is served without calling the handler,
 * an expired one is dropped and recomputed. Other methods bypass the cache.
 */
module Stampede {
  import opened Wrappers
  import opened Http

  /** A cached response and the instant after which it is stale. */
  datatype Entry = Entry(expiry: int, code: int, header: Header, body: seq<byte>)

  predicate IsCacheable(httpMethod: string) {
    httpMethod == "GET" || httpMethod == "HEAD"
  }

  /** The cache key: `r.URL.String()`, verbatim. */
  function Key(r: Request): string {
    r.url
  }

  /** An entry under `key` whose expiry is strictly after `now` (`c.time.After(now)`). */
  predicate IsFresh(sm: map<string, Entry>, key: string, now: int) {
    key in sm && sm[key].expiry > now
  }

  /** Whether the request reaches `next`: a method that is not cached, or no fresh entry. */
  predicate CallsNext(sm: map<string, Entry>, r: Request, now: int) {
    !IsCacheable(r.httpMethod) || !IsFresh(sm, Key(r), now)
  }

  /**
   * The cache after one request. `now` is the clock read for the lookup,
   * `later` the one read when storing, and `rec` what `next` recorded.
   */
  function NextCache(sm: map<string, Entry>, r: Request, now: int, later: int, rec: Response, ttl: int)
    : map<string, Entry>
  {
    var key := Key(r);
    if !IsCacheable(r.httpMethod) || IsFresh(sm, key, now) then sm
    else (sm - {key})[key := Entry(later + ttl, rec.code, rec.header, rec.body)]
  }

  /** The recorded response an entry replays. */
  function AsResponse(e: Entry): Response {
    Response(e.code, e.header, e.body)
  }

  /**
   * What the client receives, from a writer that held `h`: the response of
   * `next` for a method that is not cached, and otherwise the entry's
   * headers, status and body, the entry being the cached one or the new one.
   */
  function StampedeResponse(sm: map<string, Entry>, r: Request, now: int, later: int, rec: Response,
                            ttl: int, h: Header): Response
  {
    var served := if !IsCacheable(r.httpMethod) then rec
      else AsResponse(NextCache(sm, r, now, later, rec, ttl)[Key(r)]);
    Response(served.code, Overlay(h, served.header), served.body)
  }

  /** The cache shared by every request through one `Stampede(d)` middleware. */
  class StampedeCache {
    const ttl: int
    var sm: map<string, Entry>

    constructor (ttl: int)
      ensures this.ttl == ttl && sm == map[]
    {
      this.ttl := ttl;
      sm := map[];
    }

    /** One request, handled as one atomic step. */
    method ServeHTTP(w: ResponseWriter, r: Request, now: int, later: int, rec: Response)
      requires w.Valid()
      modifies this`sm, w
      ensures w.Valid()
      ensures sm == NextCache(old(sm), r, now, later, rec, ttl)
      ensures !old(w.wroteHeader) ==> w.Sent() == StampedeResponse(old(sm), r, now, later, rec, ttl, old(w.header))
      ensures old(w.wroteHeader) ==>
        w.status == old(w.status) && w.sentHeader == old(w.sentHeader)
        && w.body == old(w.body) + StampedeResponse(old(sm), r, now, later, rec, ttl, old(w.header)).body
    {
      if r.httpMethod != "GET" && r.httpMethod != "HEAD" {
        w.Replay(rec);
        return;
      }
      var path := r.url;
      if path in sm {
        var c := sm[path];
        if c.expiry > now {
          w.Replay(AsResponse(c));
          return;
        }
        sm := sm - {path};
      }
      var c := Entry(later + ttl, rec.code, rec.header, rec.body);
      sm := sm[path := c];
      w.Replay(AsResponse(c));
    }
  }

  // ---------------------------------------------------------------- properties

  /** A method other than GET or HEAD leaves the cache as it was and gets the handler's response. */
  lemma UncachedMethodBypasses(sm: map<string, Entry>, r: Request, now: int, later: int, rec: Response,
                               ttl: int, h: Header)
    requires !IsCacheable(r.httpMethod)
    ensures NextCache(sm, r, now, later, rec, ttl) == sm
    ensures StampedeResponse(sm, r, now, later, rec, ttl, h) == Response(rec.code, Overlay(h, rec.header), rec.body)
    ensures CallsNext(sm, r, now)
  {
  }

  /** A fresh entry is served as stored, and whatever `next` would record plays no part. */
  lemma FreshEntryServed(sm: map<string, Entry>, r: Request, now: int, later: int, rec1: Response,
                         rec2: Response, ttl: int, h: Header)
    requires IsCacheable(r.httpMethod) && IsFresh(sm, Key(r), now)
    ensures !CallsNext(sm, r, now)
    ensures NextCache(sm, r, now, later, rec1, ttl) == sm
    ensures StampedeResponse(sm, r, now, later, rec1, ttl, h) == StampedeResponse(sm, r, now, later, rec2, ttl, h)
    ensures StampedeResponse(sm, r, now, later, rec1, ttl, h).body == sm[Key(r)].body
  {
  }

  /**
   * A missing or expired entry is replaced by the recorded response with
   * expiry `later + ttl`; the entries under other keys are untouched.
   */
  lemma StaleEntryRecomputed(sm: map<string, Entry>, r: Request, now: int, later: int, rec: Response, ttl: int)
    requires IsCacheable(r.httpMethod) && !IsFresh(sm, Key(r), now)
    ensures CallsNext(sm, r, now)
    ensures var sm' := NextCache(sm, r, now, later, rec, ttl);
      Key(r) in sm' && sm'[Key(r)] == Entry(later + ttl, rec.code, rec.header, rec.body)
      && sm'.Keys == sm.Keys + {Key(r)}
      && forall k :: k in sm && k != Key(r) ==> sm'[k] == sm[k]
  {
  }

  /**
   * Two GETs of the same URL within the time to live: the second is served
   * from the cache, without calling `next`, with the same status, headers
   * and body as the first.
   */
  lemma SecondGetWithinTtlIsCached(sm: map<string, Entry>, r1: Request, r2: Request, now1: int,
                                   later1: int, rec1: Response, now2: int, later2: int,
                                   rec2: Response, ttl: int, h: Header)
    requires IsCacheable(r1.httpMethod) && IsCacheable(r2.httpMethod) && Key(r1) == Key(r2)
    requires !IsFresh(sm, Key(r1), now1)
    requires now2 < later1 + ttl
    ensures var sm1 := NextCache(sm, r1, now1, later1, rec1, ttl);
      !CallsNext(sm1, r2, now2)
      && StampedeResponse(sm1, r2, now2, later2, rec2, ttl, h) == StampedeResponse(sm, r1, now1, later1, rec1, ttl, h)
  {
  }

  /**
   * With a time to live of 0 the stored expiry is the store time, so with a
   * clock that does not go back the lookup after a recompute misses again.
   */
  lemma ZeroTtlAlwaysMisses(sm: map<string, Entry>, r1: Request, r2: Request, now1: int, later1: int,
                            rec1: Response, now2: int)
    requires IsCacheable(r1.httpMethod) && IsCacheable(r2.httpMethod) && Key(r1) == Key(r2)
    requires !IsFresh(sm, Key(r1), now1)
    requires later1 <= now2
    ensures CallsNext(NextCache(sm, r1, now1, later1, rec1, 0), r2, now2)
  {
  }
}
