/**
 * `MetricsRecorder`: a middleware that runs the next handler against a
 * recorder, folds the request into the shared metrics record, hands a
 * per-request record to a hook, and then replays the recorded response.
 */
module MetricsRecorderModel {
  import opened Wrappers
  import opened Http
  import opened MetricsModel

  /** The per-request record handed to the hook; times are clock readings in nanoseconds. */
  datatype RequestMetrics = RequestMetrics(
    startTime: int,
    endTime: int,
    httpMethod: string,
    status: int,
    userAgent: string,
    referer: string,
    goroutinesCount: int,
    requestDurationNanoseconds: int,
    requestDurationMilliseconds: int,
    requestBytesCount: int,
    responseBytesCount: int)

  /** A hook function, known by name; `NoOpHook` is the default that does nothing. */
  datatype Hook = NoOpHook | HookFunc(name: string)

  /** `WithRequestMetricsHookFunc(fn)`; `None` stands for a nil `fn`. */
  datatype RecorderOption = WithRequestMetricsHookFunc(fn: Option<Hook>)

  /** One option applied to the recorder's hook: a nil function leaves it as it was. */
  function ApplyOption(h: Hook, opt: RecorderOption): Hook {
    if opt.fn.Some? then opt.fn.value else h
  }

  /** The options applied in order, as `NewMetricsRecorder` applies them. */
  function ApplyOptions(h: Hook, opts: seq<RecorderOption>): Hook
    decreases |opts|
  {
    if |opts| == 0 then h else ApplyOption(ApplyOptions(h, opts[..|opts| - 1]), opts[|opts| - 1])
  }

  /** Options that all carry a nil function leave the hook alone. */
  lemma {:induction false} NilOptionsKeepHook(h: Hook, opts: seq<RecorderOption>)
    requires forall i :: 0 <= i < |opts| ==> opts[i].fn.None?
    ensures ApplyOptions(h, opts) == h
    decreases |opts|
  {
    if |opts| != 0 {
      NilOptionsKeepHook(h, opts[..|opts| - 1]);
    }
  }

  /** The last option with a non-nil function decides the hook. */
  lemma {:induction false} LastHookWins(h: Hook, opts: seq<RecorderOption>, i: nat)
    requires i < |opts| && opts[i].fn.Some?
    requires forall j :: i < j < |opts| ==> opts[j].fn.None?
    ensures ApplyOptions(h, opts) == opts[i].fn.value
    decreases |opts|
  {
    if i < |opts| - 1 {
      LastHookWins(h, opts[..|opts| - 1], i);
    }
  }

  /** Go's `Duration.Milliseconds`: nanoseconds divided by 1e6, truncated toward zero. */
  function Milliseconds(ns: int): (ms: int)
    ensures ns >= 0 ==> 0 <= ms <= ns / 1000000
    ensures ns < 0 ==> ns / 1000000 <= ms <= 0
  {
    GoDiv(ns, 1000000)
  }

  /**
   * The readings one successful request contributes: the body that was
   * read, the recorded response, the two clock readings around the call to
   * the next handler, the goroutine count, and the process start time.
   */
  function ObservationOf(r: Request, requestBody: seq<byte>, rec: Response,
                         startTime: int, endTime: int, goroutines: int, processStart: int): Observation
  {
    var d := endTime - startTime;
    var uptime := startTime - processStart;
    Observation(r.httpMethod, rec.code, |requestBody|, |rec.body|, d, Milliseconds(d),
                goroutines, uptime, Milliseconds(uptime))
  }

  /** The record handed to the hook for the same request. */
  function RequestMetricsOf(r: Request, requestBody: seq<byte>, rec: Response,
                            startTime: int, endTime: int, goroutines: int): RequestMetrics
  {
    var d := endTime - startTime;
    RequestMetrics(startTime, endTime, r.httpMethod, rec.code,
                   Get(r.header, "User-Agent"), Get(r.header, "Referer"),
                   goroutines, d, Milliseconds(d), |requestBody|, |rec.body|)
  }

  /** The hook sees the same method, status, sizes, durations and goroutine sample that were aggregated. */
  lemma HookAgreesWithRecord(r: Request, requestBody: seq<byte>, rec: Response,
                             startTime: int, endTime: int, goroutines: int, processStart: int)
    ensures var o := ObservationOf(r, requestBody, rec, startTime, endTime, goroutines, processStart);
      var rm := RequestMetricsOf(r, requestBody, rec, startTime, endTime, goroutines);
      && rm.httpMethod == o.httpMethod && rm.status == o.code
      && rm.requestBytesCount == o.requestBytes && rm.responseBytesCount == o.responseBytes
      && rm.requestDurationNanoseconds == o.nanoseconds
      && rm.requestDurationMilliseconds == o.milliseconds
      && rm.goroutinesCount == o.goroutines
      && rm.requestDurationNanoseconds == rm.endTime - rm.startTime
  {
  }

  class MetricsRecorder {
    const m: Metrics
    var hook: Hook
    /** Every call made to a hook so far, in order: the hook called and the record it received. */
    var hookCalls: seq<(Hook, RequestMetrics)>

    predicate Valid()
      reads this, m
    {
      m.Valid()
    }

    /** `NewMetricsRecorder(opts...)`: a fresh `newMetrics` record, the no-op hook, then each option in turn. */
    constructor (opts: seq<RecorderOption>)
      ensures Valid() && fresh(m)
      ensures m.View() == NewSnapshot()
      ensures hook == ApplyOptions(NoOpHook, opts)
      ensures hookCalls == []
    {
      var h := NoOpHook;
      var i := 0;
      while i < |opts|
        invariant 0 <= i <= |opts|
        invariant h == ApplyOptions(NoOpHook, opts[..i])
      {
        assert opts[..i + 1][..i] == opts[..i];
        h := ApplyOption(h, opts[i]);
        i := i + 1;
      }
      assert opts[..|opts|] == opts;
      var metrics := NewMetrics();
      m := metrics;
      hook := h;
      hookCalls := [];
    }

    /** `Metrics()`: a copy of the record, equal to it and sharing nothing with it. */
    method Metrics() returns (snapshot: MetricsModel.Metrics)
      ensures fresh(snapshot)
      ensures snapshot.View() == m.View()
    {
      snapshot := m.Clone();
    }

    /**
     * The middleware around `next`, for one request. `startTime`, `endTime`
     * and `goroutines` are the readings taken around the call to `next`;
     * `processStart` is the time the process started.
     *
     * If the request body cannot be read, `next` serves the request directly
     * and nothing is recorded. Otherwise `next` runs against a recorder,
     * the record takes in the request, the hook receives the per-request
     * record, and the recorded response is replayed onto `w`.
     */
    method ServeHTTP(w: ResponseWriter, r: Request, next: Handler,
                     startTime: int, endTime: int, goroutines: int, processStart: int)
      requires Valid() && w.Valid()
      modifies this, m, w
      ensures Valid() && w.Valid()
      ensures hook == old(hook)
      ensures r.body.Failing? ==> m.View() == old(m.View()) && hookCalls == old(hookCalls)
      ensures r.body.Readable? ==>
        var rec := next(r);
        && m.View() == Observe(old(m.View()),
                               ObservationOf(r, r.body.data, rec, startTime, endTime, goroutines, processStart))
        && hookCalls == old(hookCalls) +
             [(hook, RequestMetricsOf(r, r.body.data, rec, startTime, endTime, goroutines))]
      ensures !old(w.wroteHeader) ==>
        w.Sent() == Response(next(r).code, Overlay(old(w.header), next(r).header), next(r).body)
      ensures old(w.wroteHeader) ==>
        w.status == old(w.status) && w.sentHeader == old(w.sentHeader) && w.body == old(w.body) + next(r).body
    {
      if r.body.Failing? {
        w.Replay(next(r));
        return;
      }
      var requestBody := r.body.data;
      var rec := next(r);
      var o := ObservationOf(r, requestBody, rec, startTime, endTime, goroutines, processStart);
      m.Record(o);
      hookCalls := hookCalls + [(hook, RequestMetricsOf(r, requestBody, rec, startTime, endTime, goroutines))];
      w.Replay(rec);
    }
  }
}
