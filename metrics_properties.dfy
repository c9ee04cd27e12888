/**
 * What one recorded request does to the metrics record, and what holds of
 * the record after any sequence of requests starting from `newMetrics`.
 */
module MetricsProperties {
  import opened Http
  import opened MetricsModel

  // ---------------------------------------------------------------- one request

  /**
   * The request count rises by exactly one; the counters of the request's
   * method and status rise by one (a missing key is created at 1) and every
   * other key keeps its value.
   */
  lemma ObserveCounts(s: Snapshot, o: Observation)
    requires s.requestsTotalCount >= 0
    ensures var s' := Observe(s, o);
      && s'.requestsTotalCount == s.requestsTotalCount + 1
      && s'.methodCount.Keys == s.methodCount.Keys + {o.httpMethod}
      && s'.methodCount[o.httpMethod] == (if o.httpMethod in s.methodCount then s.methodCount[o.httpMethod] else 0) + 1
      && (forall k :: k in s.methodCount && k != o.httpMethod ==> s'.methodCount[k] == s.methodCount[k])
      && s'.statusCount.Keys == s.statusCount.Keys + {o.code}
      && s'.statusCount[o.code] == (if o.code in s.statusCount then s.statusCount[o.code] else 0) + 1
      && (forall c :: c in s.statusCount && c != o.code ==> s'.statusCount[c] == s.statusCount[c])
  {
  }

  /** The class counter a code raises is named by its hundreds digit. */
  lemma StatusClassDigit(code: int)
    requires 100 <= code < 600
    ensures StatusClass(code) == [(('0' as int) + code / 100) as char] + "xx"
  {
  }

  /**
   * For a code in [100, 600) exactly the class counter of its hundreds digit
   * rises by one; for any other code no class counter changes.
   */
  lemma ObserveStatusClass(s: Snapshot, o: Observation)
    requires s.requestsTotalCount >= 0
    ensures 100 <= o.code < 600 ==>
      var s', cls := Observe(s, o), [(('0' as int) + o.code / 100) as char] + "xx";
      && s'.statusClassCount.Keys == s.statusClassCount.Keys + {cls}
      && s'.statusClassCount[cls] == (if cls in s.statusClassCount then s.statusClassCount[cls] else 0) + 1
      && (forall k :: k in s.statusClassCount && k != cls ==> s'.statusClassCount[k] == s.statusClassCount[k])
    ensures !(100 <= o.code < 600) ==> Observe(s, o).statusClassCount == s.statusClassCount
  {
    if 100 <= o.code < 600 {
      StatusClassDigit(o.code);
    }
  }

  function Max(a: int, b: int): int {
    if a < b then b else a
  }

  /** For non-negative readings every maximum field becomes the larger of the old value and the reading. */
  lemma ObserveMaxima(s: Snapshot, o: Observation)
    requires s.requestsTotalCount >= 0
    requires s.maxRequestBytesCount >= 0 && o.requestBytes >= 0
    requires s.maxResponseBytesCount >= 0 && o.responseBytes >= 0
    requires s.maxRequestDurationNanoseconds >= 0 && o.nanoseconds >= 0
    requires s.maxRequestDurationMilliseconds >= 0 && o.milliseconds >= 0
    requires s.maxGoroutinesCount >= 0 && o.goroutines >= 0
    ensures var s' := Observe(s, o);
      && s'.maxRequestBytesCount == Max(s.maxRequestBytesCount, o.requestBytes)
      && s'.maxResponseBytesCount == Max(s.maxResponseBytesCount, o.responseBytes)
      && s'.maxRequestDurationNanoseconds == Max(s.maxRequestDurationNanoseconds, o.nanoseconds)
      && s'.maxRequestDurationMilliseconds == Max(s.maxRequestDurationMilliseconds, o.milliseconds)
      && s'.maxGoroutinesCount == Max(s.maxGoroutinesCount, o.goroutines)
  {
  }

  /** The minimum rule: 0 means "unset" and is replaced by the reading; otherwise the smaller value is kept. */
  function MinOrUnset(current: int, v: int): int {
    if current == 0 then v else if v < current then v else current
  }

  /** Every minimum field follows the "0 means unset" rule; an observed 0 is therefore overwritten by the next reading. */
  lemma ObserveMinima(s: Snapshot, o: Observation)
    requires s.requestsTotalCount >= 0
    ensures var s' := Observe(s, o);
      && s'.minRequestBytesCount == MinOrUnset(s.minRequestBytesCount, o.requestBytes)
      && s'.minResponseBytesCount == MinOrUnset(s.minResponseBytesCount, o.responseBytes)
      && s'.minRequestDurationNanoseconds == MinOrUnset(s.minRequestDurationNanoseconds, o.nanoseconds)
      && s'.minRequestDurationMilliseconds == MinOrUnset(s.minRequestDurationMilliseconds, o.milliseconds)
      && s'.minGoroutinesCount == MinOrUnset(s.minGoroutinesCount, o.goroutines)
  {
  }

  /** The second application of the minimum rule to the milliseconds (written twice in the source) changes nothing. */
  lemma MinRuleIdempotent(current: int, v: int)
    ensures MinRule(MinRule(current, v), v) == MinRule(current, v)
  {
  }

  /**
   * The totals grow by exactly the readings, and each average is its total
   * divided by the new request count with Go's truncating division.
   */
  lemma ObserveAverages(s: Snapshot, o: Observation)
    requires s.requestsTotalCount >= 0
    ensures var s' := Observe(s, o);
      && s'.requestsTotalCount > 0
      && s'.totalRequestDurationNanoseconds == s.totalRequestDurationNanoseconds + o.nanoseconds
      && s'.totalRequestDurationMilliseconds == s.totalRequestDurationMilliseconds + o.milliseconds
      && s'.goroutinesTotalCount == s.goroutinesTotalCount + o.goroutines
      && s'.avgRequestDurationNanoseconds == GoDiv(s'.totalRequestDurationNanoseconds, s'.requestsTotalCount)
      && s'.avgRequestDurationMilliseconds == GoDiv(s'.totalRequestDurationMilliseconds, s'.requestsTotalCount)
      && s'.avgGoroutinesCount == GoDiv(s'.goroutinesTotalCount, s'.requestsTotalCount)
  {
  }

  /** The uptime fields hold the latest reading. */
  lemma ObserveUptime(s: Snapshot, o: Observation)
    requires s.requestsTotalCount >= 0
    ensures Observe(s, o).uptimeDurationNanoseconds == o.uptimeNanoseconds
    ensures Observe(s, o).uptimeDurationMilliseconds == o.uptimeMilliseconds
  {
  }

  // ---------------------------------------------------------------- sums of counters

  /** The sum of a counter map's values. */
  ghost function Sum<K>(m: map<K, int>): int
    decreases |m|
  {
    if |m| == 0 then 0
    else
      var k :| k in m;
      m[k] + Sum(m - {k})
  }

  /** The sum does not depend on which key is taken first. */
  lemma {:induction false} SumRemove<K>(m: map<K, int>, k: K)
    requires k in m
    ensures Sum(m) == m[k] + Sum(m - {k})
    decreases |m|
  {
    var j :| j in m && Sum(m) == m[j] + Sum(m - {j});
    if j != k {
      var mj, mk := m - {j}, m - {k};
      assert |mj| == |m| - 1 && |mk| == |m| - 1;
      SumRemove(mj, k);
      SumRemove(mk, j);
      SwapRemoved(m, j, k);
    }
  }

  /** Taking `j` then `k` out of a map leaves the same map as taking `k` then `j`. */
  lemma SwapRemoved<K>(m: map<K, int>, j: K, k: K)
    requires j in m && k in m && j != k
    ensures (m - {j}) - {k} == (m - {k}) - {j}
    ensures (m - {j})[k] == m[k] && (m - {k})[j] == m[j]
  {
  }

  /** Raising one counter raises the sum by one. */
  lemma SumInc<K>(m: map<K, int>, k: K)
    ensures Sum(Inc(m, k)) == Sum(m) + 1
  {
    var m' := Inc(m, k);
    SumRemove(m', k);
    if k in m {
      SumRemove(m, k);
      assert m' - {k} == m - {k};
    } else {
      assert m' - {k} == m;
    }
  }

  /** A map of zero counters sums to zero. */
  lemma {:induction false} SumZeros<K>(m: map<K, int>)
    requires forall k :: k in m ==> m[k] == 0
    ensures Sum(m) == 0
    decreases |m|
  {
    if |m| != 0 {
      var k :| k in m;
      SumRemove(m, k);
      SumZeros(m - {k});
    }
  }

  /** Every request is counted once under its method and once under its status. */
  ghost predicate Balanced(s: Snapshot) {
    Sum(s.methodCount) == s.requestsTotalCount && Sum(s.statusCount) == s.requestsTotalCount
  }

  lemma ObserveBalanced(s: Snapshot, o: Observation)
    requires s.requestsTotalCount >= 0 && Balanced(s)
    ensures Balanced(Observe(s, o))
  {
    var s' := Observe(s, o);
    assert s'.methodCount == Inc(s.methodCount, o.httpMethod);
    assert s'.statusCount == Inc(s.statusCount, o.code);
    SumInc(s.methodCount, o.httpMethod);
    SumInc(s.statusCount, o.code);
  }

  lemma NewSnapshotBalanced()
    ensures Balanced(NewSnapshot())
  {
    SumZeros(NewSnapshot().methodCount);
    SumZeros(NewSnapshot().statusCount);
  }

  /**
   * Starting from `newMetrics`, after any sequence of requests the method
   * counters and the status counters each add up to the request count.
   */
  lemma {:induction false} CountersAddUp(obs: seq<Observation>)
    ensures Sum(ObserveAll(NewSnapshot(), obs).methodCount) == |obs|
    ensures Sum(ObserveAll(NewSnapshot(), obs).statusCount) == |obs|
  {
    NewSnapshotBalanced();
    ObserveAllBalanced(NewSnapshot(), obs);
  }

  lemma {:induction false} ObserveAllBalanced(s: Snapshot, obs: seq<Observation>)
    requires s.requestsTotalCount >= 0 && Balanced(s)
    ensures Balanced(ObserveAll(s, obs))
    decreases |obs|
  {
    if |obs| != 0 {
      ObserveBalanced(s, obs[0]);
      ObserveAllBalanced(Observe(s, obs[0]), obs[1..]);
    }
  }

  // ---------------------------------------------------------------- the initial record

  /**
   * `newMetrics`: exactly the nine standard methods and the five classes,
   * each at 0; a 0 entry for exactly the codes in [0, 600) with a status
   * text; every scalar 0.
   */
  lemma NewSnapshotShape()
    ensures var s := NewSnapshot();
      && s.methodCount.Keys == {"GET", "HEAD", "POST", "PUT", "PATCH", "DELETE", "CONNECT", "OPTIONS", "TRACE"}
      && (forall k :: k in s.methodCount ==> s.methodCount[k] == 0)
      && s.statusClassCount.Keys == {"1xx", "2xx", "3xx", "4xx", "5xx"}
      && (forall k :: k in s.statusClassCount ==> s.statusClassCount[k] == 0)
      && (forall c :: c in s.statusCount <==> 0 <= c < 600 && StatusText(c) != "")
      && (forall c :: c in s.statusCount ==> s.statusCount[c] == 0)
      && s.requestsTotalCount == 0
      && s.goroutinesTotalCount == 0 && s.maxGoroutinesCount == 0
      && s.minGoroutinesCount == 0 && s.avgGoroutinesCount == 0
      && s.totalRequestDurationNanoseconds == 0 && s.maxRequestDurationNanoseconds == 0
      && s.minRequestDurationNanoseconds == 0 && s.avgRequestDurationNanoseconds == 0
      && s.totalRequestDurationMilliseconds == 0 && s.maxRequestDurationMilliseconds == 0
      && s.minRequestDurationMilliseconds == 0 && s.avgRequestDurationMilliseconds == 0
      && s.maxRequestBytesCount == 0 && s.minRequestBytesCount == 0
      && s.maxResponseBytesCount == 0 && s.minResponseBytesCount == 0
      && s.uptimeDurationNanoseconds == 0 && s.uptimeDurationMilliseconds == 0
  {
  }

  /** Some codes the initial record lists and some it does not. */
  lemma NewSnapshotCodes()
    ensures 200 in NewSnapshot().statusCount && 101 in NewSnapshot().statusCount
    ensures 0 !in NewSnapshot().statusCount && 600 !in NewSnapshot().statusCount
  {
    assert StatusText(200) != "" && StatusText(101) != "";
  }

  // ---------------------------------------------------------------- a recorded scenario

  /** Go's map read: the stored value, or 0 for a missing key. */
  function Count<K>(m: map<K, int>, k: K): int {
    if k in m then m[k] else 0
  }

  /** The five class counters, read as Go reads them. */
  datatype ClassTally = ClassTally(informational: int, successful: int, redirection: int,
                                   clientError: int, serverError: int)

  function Classes(m: map<string, int>): ClassTally {
    ClassTally(Count(m, "1xx"), Count(m, "2xx"), Count(m, "3xx"), Count(m, "4xx"), Count(m, "5xx"))
  }

  function AddClass(t: ClassTally, code: int): ClassTally {
    if 100 <= code < 200 then t.(informational := t.informational + 1)
    else if 200 <= code < 300 then t.(successful := t.successful + 1)
    else if 300 <= code < 400 then t.(redirection := t.redirection + 1)
    else if 400 <= code < 500 then t.(clientError := t.clientError + 1)
    else if 500 <= code < 600 then t.(serverError := t.serverError + 1)
    else t
  }

  /** The counters the scenario below reads. */
  datatype Tally = Tally(requests: int, gets: int, oks: int, classes: ClassTally)

  function TallyOf(s: Snapshot): Tally {
    Tally(s.requestsTotalCount, Count(s.methodCount, "GET"), Count(s.statusCount, 200), Classes(s.statusClassCount))
  }

  /** What one GET request answered with `code` adds to the tally. */
  function Bump(t: Tally, code: int): Tally {
    Tally(t.requests + 1, t.gets + 1, t.oks + (if code == 200 then 1 else 0), AddClass(t.classes, code))
  }

  function BumpAll(t: Tally, obs: seq<Observation>): Tally
    decreases |obs|
  {
    if |obs| == 0 then t else BumpAll(Bump(t, obs[0].code), obs[1..])
  }

  /** One GET request's effect on the tally. */
  lemma GetStep(s: Snapshot, o: Observation)
    requires s.requestsTotalCount >= 0 && o.httpMethod == "GET"
    ensures TallyOf(Observe(s, o)) == Bump(TallyOf(s), o.code)
  {
    ObserveCounts(s, o);
  }

  /** A run of GET requests adds to the tally request by request. */
  lemma {:induction false} GetRun(s: Snapshot, obs: seq<Observation>)
    requires s.requestsTotalCount >= 0
    requires forall i :: 0 <= i < |obs| ==> obs[i].httpMethod == "GET"
    ensures TallyOf(ObserveAll(s, obs)) == BumpAll(TallyOf(s), obs)
    decreases |obs|
  {
    if |obs| != 0 {
      GetStep(s, obs[0]);
      GetRun(Observe(s, obs[0]), obs[1..]);
    }
  }

  /**
   * Five GET requests answered 500, 400, 300, 200 and 101 after
   * `newMetrics` leave a request count of 5, a GET count of 5, one 200, and
   * one request in every class.
   */
  lemma FiveClassesScenario(obs: seq<Observation>)
    requires |obs| == 5 && forall i :: 0 <= i < 5 ==> obs[i].httpMethod == "GET"
    requires obs[0].code == 500 && obs[1].code == 400 && obs[2].code == 300
    requires obs[3].code == 200 && obs[4].code == 101
    ensures var s := ObserveAll(NewSnapshot(), obs);
      && s.requestsTotalCount == 5
      && Count(s.methodCount, "GET") == 5
      && Count(s.statusCount, 200) == 1
      && Classes(s.statusClassCount) == ClassTally(1, 1, 1, 1, 1)
  {
    NewSnapshotShape();
    NewSnapshotCodes();
    GetRun(NewSnapshot(), obs);
    var t0 := TallyOf(NewSnapshot());
    assert t0 == Tally(0, 0, 0, ClassTally(0, 0, 0, 0, 0));
    var t1 := Bump(t0, 500);
    var t2 := Bump(t1, 400);
    var t3 := Bump(t2, 300);
    var t4 := Bump(t3, 200);
    var t5 := Bump(t4, 101);
    assert BumpAll(t4, obs[4..]) == t5 by {
      assert obs[4..][1..] == [];
    }
    assert BumpAll(t3, obs[3..]) == t5 by {
      assert obs[3..][1..] == obs[4..];
    }
    assert BumpAll(t2, obs[2..]) == t5 by {
      assert obs[2..][1..] == obs[3..];
    }
    assert BumpAll(t1, obs[1..]) == t5 by {
      assert obs[1..][1..] == obs[2..];
    }
    assert BumpAll(t0, obs) == t5;
  }
}
