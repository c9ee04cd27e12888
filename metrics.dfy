/**
 * The metrics record: request counters per method, per status code and per
 * status class, totals with integer averages, and maximum and minimum
 * fields that treat 0 as "not set yet".
 */
module MetricsModel {
  import opened Http

  /** The record as a value: one field per field of `Metrics`. */
  datatype Snapshot = Snapshot(
    goroutinesTotalCount: int,
    maxGoroutinesCount: int,
    minGoroutinesCount: int,
    avgGoroutinesCount: int,
    requestsTotalCount: int,
    totalRequestDurationNanoseconds: int,
    maxRequestDurationNanoseconds: int,
    minRequestDurationNanoseconds: int,
    avgRequestDurationNanoseconds: int,
    totalRequestDurationMilliseconds: int,
    maxRequestDurationMilliseconds: int,
    minRequestDurationMilliseconds: int,
    avgRequestDurationMilliseconds: int,
    maxRequestBytesCount: int,
    minRequestBytesCount: int,
    maxResponseBytesCount: int,
    minResponseBytesCount: int,
    uptimeDurationNanoseconds: int,
    uptimeDurationMilliseconds: int,
    methodCount: map<string, int>,
    statusCount: map<int, int>,
    statusClassCount: map<string, int>)

  /** One recorded request, with the clock and runtime readings already taken. */
  datatype Observation = Observation(
    httpMethod: string,
    code: int,
    requestBytes: int,
    responseBytes: int,
    nanoseconds: int,
    milliseconds: int,
    goroutines: int,
    uptimeNanoseconds: int,
    uptimeMilliseconds: int)

  // ---------------------------------------------------------------- arithmetic of one update

  /** Go's `/` on integers: the quotient truncated toward zero. */
  function GoDiv(a: int, b: int): (q: int)
    requires b > 0
    ensures a >= 0 ==> q * b <= a < q * b + b
    ensures a < 0 ==> q * b - b < a <= q * b
  {
    if a >= 0 then a / b else -((-a) / b)
  }

  /** `if max < v || max == 0 { max = v }`. */
  function MaxRule(old_: int, v: int): (r: int)
    ensures r == old_ || r == v
    ensures old_ >= 0 && v >= 0 ==> r >= old_ && r >= v
  {
    if old_ < v || old_ == 0 then v else old_
  }

  /** `if min > v || min == 0 { min = v }`. */
  function MinRule(old_: int, v: int): (r: int)
    ensures old_ == 0 ==> r == v
    ensures old_ != 0 ==> (r == old_ || r == v) && r <= old_ && r <= v
  {
    if old_ > v || old_ == 0 then v else old_
  }

  /** `counts[k]++`: a missing key starts from 0. */
  function Inc<K>(counts: map<K, int>, k: K): (r: map<K, int>)
    ensures k in r && r[k] == (if k in counts then counts[k] else 0) + 1
    ensures r.Keys == counts.Keys + {k}
    ensures forall j :: j in counts && j != k ==> r[j] == counts[j]
  {
    counts[k := (if k in counts then counts[k] else 0) + 1]
  }

  /** The class counter a status code raises, if any. */
  function StatusClass(code: int): (c: string)
    ensures c != "" <==> 100 <= code < 600
  {
    if 100 <= code < 200 then "1xx"
    else if 200 <= code < 300 then "2xx"
    else if 300 <= code < 400 then "3xx"
    else if 400 <= code < 500 then "4xx"
    else if 500 <= code < 600 then "5xx"
    else ""
  }

  /** metrics_recorder.go lines 64-68: the uptime readings and the request count. */
  function CountStage(s: Snapshot, o: Observation): Snapshot {
    s.(uptimeDurationNanoseconds := o.uptimeNanoseconds,
       uptimeDurationMilliseconds := o.uptimeMilliseconds,
       requestsTotalCount := s.requestsTotalCount + 1)
  }

  /** metrics_recorder.go lines 71-86: the request and response body sizes. */
  function BytesStage(s: Snapshot, o: Observation): Snapshot {
    s.(maxRequestBytesCount := MaxRule(s.maxRequestBytesCount, o.requestBytes),
       minRequestBytesCount := MinRule(s.minRequestBytesCount, o.requestBytes),
       maxResponseBytesCount := MaxRule(s.maxResponseBytesCount, o.responseBytes),
       minResponseBytesCount := MinRule(s.minResponseBytesCount, o.responseBytes))
  }

  /** metrics_recorder.go lines 89-107: the method, status and status-class counters. */
  function StatusStage(s: Snapshot, o: Observation): Snapshot {
    var cls := StatusClass(o.code);
    s.(methodCount := Inc(s.methodCount, o.httpMethod),
       statusCount := Inc(s.statusCount, o.code),
       statusClassCount := if cls == "" then s.statusClassCount else Inc(s.statusClassCount, cls))
  }

  /** metrics_recorder.go lines 110-121: the durations in nanoseconds. */
  function NanosecondStage(s: Snapshot, o: Observation): Snapshot
    requires s.requestsTotalCount > 0
  {
    var total := s.totalRequestDurationNanoseconds + o.nanoseconds;
    s.(totalRequestDurationNanoseconds := total,
       avgRequestDurationNanoseconds := GoDiv(total, s.requestsTotalCount),
       maxRequestDurationNanoseconds := MaxRule(s.maxRequestDurationNanoseconds, o.nanoseconds),
       minRequestDurationNanoseconds := MinRule(s.minRequestDurationNanoseconds, o.nanoseconds))
  }

  /** metrics_recorder.go lines 111 and 123-132: the durations in milliseconds; the minimum rule is applied twice, as written. */
  function MillisecondStage(s: Snapshot, o: Observation): Snapshot
    requires s.requestsTotalCount > 0
  {
    var total := s.totalRequestDurationMilliseconds + o.milliseconds;
    s.(totalRequestDurationMilliseconds := total,
       avgRequestDurationMilliseconds := GoDiv(total, s.requestsTotalCount),
       maxRequestDurationMilliseconds := MaxRule(s.maxRequestDurationMilliseconds, o.milliseconds),
       minRequestDurationMilliseconds :=
         MinRule(MinRule(s.minRequestDurationMilliseconds, o.milliseconds), o.milliseconds))
  }

  /** metrics_recorder.go lines 134-142: the goroutine sample. */
  function GoroutineStage(s: Snapshot, o: Observation): Snapshot
    requires s.requestsTotalCount > 0
  {
    var total := s.goroutinesTotalCount + o.goroutines;
    s.(goroutinesTotalCount := total,
       avgGoroutinesCount := GoDiv(total, s.requestsTotalCount),
       maxGoroutinesCount := MaxRule(s.maxGoroutinesCount, o.goroutines),
       minGoroutinesCount := MinRule(s.minGoroutinesCount, o.goroutines))
  }

  /** The record after one request: the stages in the order the source runs them. */
  function Observe(s: Snapshot, o: Observation): Snapshot
    requires s.requestsTotalCount >= 0
  {
    var s1 := CountStage(s, o);
    GoroutineStage(MillisecondStage(NanosecondStage(StatusStage(BytesStage(s1, o), o), o), o), o)
  }

  /** The record after a sequence of requests, in order. */
  function ObserveAll(s: Snapshot, obs: seq<Observation>): (s': Snapshot)
    requires s.requestsTotalCount >= 0
    ensures s'.requestsTotalCount == s.requestsTotalCount + |obs|
    decreases |obs|
  {
    if |obs| == 0 then s else ObserveAll(Observe(s, obs[0]), obs[1..])
  }

  // ---------------------------------------------------------------- the initial record

  /** The nine request methods of net/http. */
  function StandardMethods(): set<string> {
    {"GET", "HEAD", "POST", "PUT", "PATCH", "DELETE", "CONNECT", "OPTIONS", "TRACE"}
  }

  function StatusClasses(): set<string> {
    {"1xx", "2xx", "3xx", "4xx", "5xx"}
  }

  /** The record `newMetrics` returns. */
  function NewSnapshot(): Snapshot {
    Snapshot(0, 0, 0, 0, 0, 0, 0, 0, 0, 0, 0, 0, 0, 0, 0, 0, 0, 0, 0,
             map k | k in StandardMethods() :: 0,
             map i | 0 <= i < 600 && StatusText(i) != "" :: 0,
             map k | k in StatusClasses() :: 0)
  }

  // ---------------------------------------------------------------- the mutable record

  class Metrics {
    var goroutinesTotalCount: int
    var maxGoroutinesCount: int
    var minGoroutinesCount: int
    var avgGoroutinesCount: int
    var requestsTotalCount: int
    var totalRequestDurationNanoseconds: int
    var maxRequestDurationNanoseconds: int
    var minRequestDurationNanoseconds: int
    var avgRequestDurationNanoseconds: int
    var totalRequestDurationMilliseconds: int
    var maxRequestDurationMilliseconds: int
    var minRequestDurationMilliseconds: int
    var avgRequestDurationMilliseconds: int
    var maxRequestBytesCount: int
    var minRequestBytesCount: int
    var maxResponseBytesCount: int
    var minResponseBytesCount: int
    var uptimeDurationNanoseconds: int
    var uptimeDurationMilliseconds: int
    var methodCount: map<string, int>
    var statusCount: map<int, int>
    var statusClassCount: map<string, int>

    function View(): Snapshot
      reads this
    {
      Snapshot(goroutinesTotalCount, maxGoroutinesCount, minGoroutinesCount, avgGoroutinesCount,
               requestsTotalCount,
               totalRequestDurationNanoseconds, maxRequestDurationNanoseconds,
               minRequestDurationNanoseconds, avgRequestDurationNanoseconds,
               totalRequestDurationMilliseconds, maxRequestDurationMilliseconds,
               minRequestDurationMilliseconds, avgRequestDurationMilliseconds,
               maxRequestBytesCount, minRequestBytesCount, maxResponseBytesCount, minResponseBytesCount,
               uptimeDurationNanoseconds, uptimeDurationMilliseconds,
               methodCount, statusCount, statusClassCount)
    }

    /** The request count never goes below zero, so the averages divide by a positive count. */
    predicate Valid()
      reads this
    {
      requestsTotalCount >= 0
    }

    /** A record literal with the given fields. */
    constructor Of(s: Snapshot)
      ensures View() == s
    {
      goroutinesTotalCount, maxGoroutinesCount := s.goroutinesTotalCount, s.maxGoroutinesCount;
      minGoroutinesCount, avgGoroutinesCount := s.minGoroutinesCount, s.avgGoroutinesCount;
      requestsTotalCount := s.requestsTotalCount;
      totalRequestDurationNanoseconds := s.totalRequestDurationNanoseconds;
      maxRequestDurationNanoseconds := s.maxRequestDurationNanoseconds;
      minRequestDurationNanoseconds := s.minRequestDurationNanoseconds;
      avgRequestDurationNanoseconds := s.avgRequestDurationNanoseconds;
      totalRequestDurationMilliseconds := s.totalRequestDurationMilliseconds;
      maxRequestDurationMilliseconds := s.maxRequestDurationMilliseconds;
      minRequestDurationMilliseconds := s.minRequestDurationMilliseconds;
      avgRequestDurationMilliseconds := s.avgRequestDurationMilliseconds;
      maxRequestBytesCount, minRequestBytesCount := s.maxRequestBytesCount, s.minRequestBytesCount;
      maxResponseBytesCount, minResponseBytesCount := s.maxResponseBytesCount, s.minResponseBytesCount;
      uptimeDurationNanoseconds := s.uptimeDurationNanoseconds;
      uptimeDurationMilliseconds := s.uptimeDurationMilliseconds;
      methodCount, statusCount, statusClassCount := s.methodCount, s.statusCount, s.statusClassCount;
    }

    /**
     * `Clone`: a new record equal to this one field by field and key by key,
     * its maps filled entry by entry into fresh maps.
     */
    method Clone() returns (m2: Metrics)
      ensures fresh(m2)
      ensures m2.View() == View()
    {
      var methods := CopyMap(map[], methodCount);
      var statuses := CopyMap(map[], statusCount);
      var classes := CopyMap(map[], statusClassCount);
      m2 := new Metrics.Of(View().(methodCount := methods, statusCount := statuses, statusClassCount := classes));
    }

    /** One request's update, as the recorder performs it under its lock. */
    method Record(o: Observation)
      requires Valid()
      modifies this
      ensures Valid()
      ensures View() == Observe(old(View()), o)
    {
      RecordCount(o);
      RecordBytes(o);
      RecordStatus(o);
      RecordNanoseconds(o);
      RecordMilliseconds(o);
      RecordGoroutines(o);
    }

    method RecordCount(o: Observation)
      modifies this`uptimeDurationNanoseconds, this`uptimeDurationMilliseconds, this`requestsTotalCount
      ensures View() == CountStage(old(View()), o)
    {
      uptimeDurationNanoseconds := o.uptimeNanoseconds;
      uptimeDurationMilliseconds := o.uptimeMilliseconds;
      requestsTotalCount := requestsTotalCount + 1;
    }

    method RecordBytes(o: Observation)
      modifies this`maxRequestBytesCount, this`minRequestBytesCount,
               this`maxResponseBytesCount, this`minResponseBytesCount
      ensures View() == BytesStage(old(View()), o)
    {
      RecordRequestBytes(o);
      RecordResponseBytes(o);
    }

    method RecordRequestBytes(o: Observation)
      modifies this`maxRequestBytesCount, this`minRequestBytesCount
      ensures View() == old(View()).(maxRequestBytesCount := MaxRule(old(maxRequestBytesCount), o.requestBytes),
                                     minRequestBytesCount := MinRule(old(minRequestBytesCount), o.requestBytes))
    {
      var max, min := maxRequestBytesCount, minRequestBytesCount;
      if max < o.requestBytes || max == 0 {
        max := o.requestBytes;
      }
      if min > o.requestBytes || min == 0 {
        min := o.requestBytes;
      }
      maxRequestBytesCount, minRequestBytesCount := max, min;
    }

    method RecordResponseBytes(o: Observation)
      modifies this`maxResponseBytesCount, this`minResponseBytesCount
      ensures View() == old(View()).(maxResponseBytesCount := MaxRule(old(maxResponseBytesCount), o.responseBytes),
                                     minResponseBytesCount := MinRule(old(minResponseBytesCount), o.responseBytes))
    {
      var max, min := maxResponseBytesCount, minResponseBytesCount;
      if max < o.responseBytes || max == 0 {
        max := o.responseBytes;
      }
      if min > o.responseBytes || min == 0 {
        min := o.responseBytes;
      }
      maxResponseBytesCount, minResponseBytesCount := max, min;
    }

    method RecordStatus(o: Observation)
      modifies this`methodCount, this`statusCount, this`statusClassCount
      ensures View() == StatusStage(old(View()), o)
    {
      methodCount := methodCount[o.httpMethod := (if o.httpMethod in methodCount then methodCount[o.httpMethod] else 0) + 1];
      statusCount := statusCount[o.code := (if o.code in statusCount then statusCount[o.code] else 0) + 1];
      RecordStatusClass(o);
    }

    method RecordStatusClass(o: Observation)
      modifies this`statusClassCount
      ensures var cls := StatusClass(o.code);
        View() == old(View()).(statusClassCount := if cls == "" then old(statusClassCount)
                                                   else Inc(old(statusClassCount), cls))
    {
      var cls := "";
      if 100 <= o.code < 200 {
        cls := "1xx";
      } else if 200 <= o.code < 300 {
        cls := "2xx";
      } else if 300 <= o.code < 400 {
        cls := "3xx";
      } else if 400 <= o.code < 500 {
        cls := "4xx";
      } else if 500 <= o.code < 600 {
        cls := "5xx";
      }
      if cls != "" {
        statusClassCount := statusClassCount[cls := (if cls in statusClassCount then statusClassCount[cls] else 0) + 1];
      }
    }

    method RecordNanoseconds(o: Observation)
      requires requestsTotalCount > 0
      modifies this`totalRequestDurationNanoseconds, this`avgRequestDurationNanoseconds,
               this`maxRequestDurationNanoseconds, this`minRequestDurationNanoseconds
      ensures View() == NanosecondStage(old(View()), o)
    {
      var total := totalRequestDurationNanoseconds + o.nanoseconds;
      totalRequestDurationNanoseconds, avgRequestDurationNanoseconds := total, GoDiv(total, requestsTotalCount);
      RecordNanosecondExtremes(o);
    }

    method RecordNanosecondExtremes(o: Observation)
      modifies this`maxRequestDurationNanoseconds, this`minRequestDurationNanoseconds
      ensures View() == old(View()).(
        maxRequestDurationNanoseconds := MaxRule(old(maxRequestDurationNanoseconds), o.nanoseconds),
        minRequestDurationNanoseconds := MinRule(old(minRequestDurationNanoseconds), o.nanoseconds))
    {
      var max, min := maxRequestDurationNanoseconds, minRequestDurationNanoseconds;
      if max < o.nanoseconds || max == 0 {
        max := o.nanoseconds;
      }
      if min > o.nanoseconds || min == 0 {
        min := o.nanoseconds;
      }
      maxRequestDurationNanoseconds, minRequestDurationNanoseconds := max, min;
    }

    method RecordMilliseconds(o: Observation)
      requires requestsTotalCount > 0
      modifies this`totalRequestDurationMilliseconds, this`avgRequestDurationMilliseconds,
               this`maxRequestDurationMilliseconds, this`minRequestDurationMilliseconds
      ensures View() == MillisecondStage(old(View()), o)
    {
      var total := totalRequestDurationMilliseconds + o.milliseconds;
      totalRequestDurationMilliseconds, avgRequestDurationMilliseconds := total, GoDiv(total, requestsTotalCount);
      RecordMillisecondExtremes(o);
    }

    method RecordMillisecondExtremes(o: Observation)
      modifies this`maxRequestDurationMilliseconds, this`minRequestDurationMilliseconds
      ensures View() == old(View()).(
        maxRequestDurationMilliseconds := MaxRule(old(maxRequestDurationMilliseconds), o.milliseconds),
        minRequestDurationMilliseconds :=
          MinRule(MinRule(old(minRequestDurationMilliseconds), o.milliseconds), o.milliseconds))
    {
      var max, min := maxRequestDurationMilliseconds, minRequestDurationMilliseconds;
      if max < o.milliseconds || max == 0 {
        max := o.milliseconds;
      }
      if min > o.milliseconds || min == 0 {
        min := o.milliseconds;
      }
      if min > o.milliseconds || min == 0 {
        min := o.milliseconds;
      }
      maxRequestDurationMilliseconds, minRequestDurationMilliseconds := max, min;
    }

    method RecordGoroutines(o: Observation)
      requires requestsTotalCount > 0
      modifies this`goroutinesTotalCount, this`avgGoroutinesCount,
               this`maxGoroutinesCount, this`minGoroutinesCount
      ensures View() == GoroutineStage(old(View()), o)
    {
      var total := goroutinesTotalCount + o.goroutines;
      goroutinesTotalCount, avgGoroutinesCount := total, GoDiv(total, requestsTotalCount);
      RecordGoroutineExtremes(o);
    }

    method RecordGoroutineExtremes(o: Observation)
      modifies this`maxGoroutinesCount, this`minGoroutinesCount
      ensures View() == old(View()).(maxGoroutinesCount := MaxRule(old(maxGoroutinesCount), o.goroutines),
                                     minGoroutinesCount := MinRule(old(minGoroutinesCount), o.goroutines))
    {
      var max, min := maxGoroutinesCount, minGoroutinesCount;
      if max < o.goroutines || max == 0 {
        max := o.goroutines;
      }
      if min > o.goroutines || min == 0 {
        min := o.goroutines;
      }
      maxGoroutinesCount, minGoroutinesCount := max, min;
    }
  }

  /** `newMetrics`: the nine methods and five classes at 0, and every code below 600 with a status text at 0. */
  method NewMetrics() returns (m: Metrics)
    ensures fresh(m) && m.Valid()
    ensures m.View() == NewSnapshot()
  {
    var statuses := ZeroStatusCounts();
    var methods := map["GET" := 0, "HEAD" := 0, "POST" := 0, "PUT" := 0, "PATCH" := 0,
                       "DELETE" := 0, "CONNECT" := 0, "OPTIONS" := 0, "TRACE" := 0];
    var classes := map["1xx" := 0, "2xx" := 0, "3xx" := 0, "4xx" := 0, "5xx" := 0];
    InitialMaps(methods, classes);
    m := new Metrics.Of(Snapshot(0, 0, 0, 0, 0, 0, 0, 0, 0, 0, 0, 0, 0, 0, 0, 0, 0, 0, 0,
                                 methods, statuses, classes));
  }

  /** The status loop of `newMetrics`: a 0 entry for every code below 600 that has a status text. */
  method ZeroStatusCounts() returns (statuses: map<int, int>)
    ensures statuses == map j | 0 <= j < 600 && StatusText(j) != "" :: 0
  {
    statuses := map[];
    var i := 0;
    while i < 600
      invariant 0 <= i <= 600
      invariant statuses == ZerosBelow(i)
    {
      ZerosBelowStep(i);
      if StatusText(i) != "" {
        statuses := statuses[i := 0];
      }
      i := i + 1;
    }
  }

  ghost function ZerosBelow(n: int): map<int, int> {
    map j | 0 <= j < n && StatusText(j) != "" :: 0
  }

  lemma ZerosBelowStep(i: int)
    requires 0 <= i
    ensures StatusText(i) != "" ==> ZerosBelow(i + 1) == ZerosBelow(i)[i := 0]
    ensures StatusText(i) == "" ==> ZerosBelow(i + 1) == ZerosBelow(i)
  {
    var t := StatusText(i);
    assert forall j :: 0 <= j < i + 1 && StatusText(j) != "" <==> (0 <= j < i && StatusText(j) != "") || (j == i && t != "");
  }

  lemma InitialMaps(methods: map<string, int>, classes: map<string, int>)
    requires methods == map["GET" := 0, "HEAD" := 0, "POST" := 0, "PUT" := 0, "PATCH" := 0,
                            "DELETE" := 0, "CONNECT" := 0, "OPTIONS" := 0, "TRACE" := 0]
    requires classes == map["1xx" := 0, "2xx" := 0, "3xx" := 0, "4xx" := 0, "5xx" := 0]
    ensures methods == map k | k in StandardMethods() :: 0
    ensures classes == map k | k in StatusClasses() :: 0
  {
  }
}
