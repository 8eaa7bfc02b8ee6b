/**
 * `services/NetRecon/metrics.py`: the in-memory request counters of the
 * NetRecon service. Every recorded request is counted once in the total, once
 * under its path, once under its status code, and once as a success or as an
 * error, so the four totals always agree.
 */
module MetricsCollector {
  import opened Wrappers

  /** The value a `defaultdict(int)` reads for `k`. */
  function Count<K>(m: map<K, nat>, k: K): nat {
    if k in m then m[k] else 0
  }

  /** `m` after `m[k] += 1` on a `defaultdict(int)`. */
  function Bump<K>(m: map<K, nat>, k: K): map<K, nat> {
    m[k := Count(m, k) + 1]
  }

  /** A bump adds one to the count of its key and leaves every other count as it was. */
  lemma BumpCount<K>(m: map<K, nat>, k: K, j: K)
    ensures j in Bump(m, k) <==> j in m || j == k
    ensures Count(Bump(m, k), j) == Count(m, j) + (if j == k then 1 else 0)
  {
  }

  /** The sum of the values of `m`. */
  ghost function Sum<K>(m: map<K, nat>): nat
    decreases |m.Keys|
  {
    if m == map[] then 0
    else
      var k :| k in m;
      m[k] + Sum(m - {k})
  }

  /** Any key can be taken out of the sum first. */
  lemma {:induction false} SumWithout<K>(m: map<K, nat>, k: K)
    requires k in m
    ensures Sum(m) == m[k] + Sum(m - {k})
    decreases |m.Keys|
  {
    var j :| j in m && Sum(m) == m[j] + Sum(m - {j});
    if j != k {
      var mj, mk := m - {j}, m - {k};
      assert |mj.Keys| < |m.Keys| && k in mj;
      SumWithout(mj, k);
      assert |mk.Keys| < |m.Keys| && j in mk;
      SumWithout(mk, j);
      assert mj - {k} == mk - {j};
    }
  }

  /** Counting one more occurrence of a key adds one to the sum. */
  lemma SumBump<K>(m: map<K, nat>, k: K)
    ensures Sum(Bump(m, k)) == Sum(m) + 1
  {
    var r := Bump(m, k);
    SumWithout(r, k);
    assert r - {k} == m - {k};
    if k in m {
      SumWithout(m, k);
    } else {
      assert m - {k} == m;
    }
  }

  /** `200 <= status_code < 400` */
  predicate IsSuccess(statusCode: int) {
    200 <= statusCode < 400
  }

  /** `datetime.fromtimestamp(ts, timezone.utc)`: the same instant, read as a UTC date-time. */
  datatype UtcDateTime = UtcDateTime(timestamp: real)

  /** The dictionary `snapshot` returns. */
  datatype MetricsSnapshot = MetricsSnapshot(
    totalRequests: nat,
    totalSuccess: nat,
    totalErrors: nat,
    averageLatencyMs: real,
    byPath: map<string, nat>,
    byStatusCode: map<int, nat>,
    lastRequestTimestamp: Option<real>,
    lastRequestDatetime: Option<UtcDateTime>)

  /** `total_latency_ms / total_requests`, or `0.0` before the first request. */
  function AverageLatency(totalLatencyMs: real, totalRequests: nat): (avg: real)
    ensures totalRequests == 0 ==> avg == 0.0
    ensures totalRequests > 0 ==> avg * totalRequests as real == totalLatencyMs
  {
    if totalRequests > 0 then totalLatencyMs / totalRequests as real else 0.0
  }

  class Metrics {
    var totalRequests: nat
    var totalErrors: nat
    var totalSuccess: nat
    var pathCounters: map<string, nat>
    var statusCounters: map<int, nat>
    var lastRequestTimestamp: Option<real>
    var lastRequestDatetime: Option<UtcDateTime>
    var totalLatencyMs: real

    /**
     * Conservation: every request is either a success or an error, and is
     * counted under exactly one path and exactly one status code.
     */
    ghost predicate Valid()
      reads this
    {
      && totalRequests == totalSuccess + totalErrors
      && totalRequests == Sum(pathCounters)
      && totalRequests == Sum(statusCounters)
    }

    /** `Metrics()`: all counters zero, no keys, no request seen. */
    constructor ()
      ensures Valid()
      ensures totalRequests == 0 && totalErrors == 0 && totalSuccess == 0
      ensures pathCounters == map[] && statusCounters == map[]
      ensures lastRequestTimestamp.None? && lastRequestDatetime.None?
      ensures totalLatencyMs == 0.0
    {
      totalRequests := 0;
      totalErrors := 0;
      totalSuccess := 0;
      pathCounters := map[];
      statusCounters := map[];
      lastRequestTimestamp := None;
      lastRequestDatetime := None;
      totalLatencyMs := 0.0;
    }

    /**
     * `record_request(path, status_code, duration_ms)` with the clock reading
     * `now` (`time()`): one more request in total, under its path and under
     * its status code, and one more success exactly when the status is in
     * `[200, 400)`, one more error otherwise.
     */
    method RecordRequest(path: string, statusCode: int, durationMs: real, now: real)
      requires Valid()
      modifies this
      ensures Valid()
      ensures totalRequests == old(totalRequests) + 1
      ensures pathCounters == Bump(old(pathCounters), path)
      ensures statusCounters == Bump(old(statusCounters), statusCode)
      ensures totalLatencyMs == old(totalLatencyMs) + durationMs
      ensures lastRequestTimestamp == Some(now)
      ensures lastRequestDatetime == Some(UtcDateTime(now))
      ensures IsSuccess(statusCode) ==>
        totalSuccess == old(totalSuccess) + 1 && totalErrors == old(totalErrors)
      ensures !IsSuccess(statusCode) ==>
        totalErrors == old(totalErrors) + 1 && totalSuccess == old(totalSuccess)
    {
      SumBump(pathCounters, path);
      SumBump(statusCounters, statusCode);
      totalRequests := totalRequests + 1;
      pathCounters := Bump(pathCounters, path);
      statusCounters := Bump(statusCounters, statusCode);
      totalLatencyMs := totalLatencyMs + durationMs;
      lastRequestTimestamp := Some(now);
      lastRequestDatetime := Some(UtcDateTime(now));
      if IsSuccess(statusCode) {
        totalSuccess := totalSuccess + 1;
      } else {
        totalErrors := totalErrors + 1;
      }
    }

    /**
     * `snapshot()`: a copy of the counters and maps and the average latency,
     * which is `0.0` before the first request. Nothing is changed, and the
     * copied totals keep the conservation law.
     */
    method Snapshot() returns (s: MetricsSnapshot)
      requires Valid()
      ensures s.totalRequests == totalRequests
      ensures s.totalSuccess == totalSuccess && s.totalErrors == totalErrors
      ensures s.totalRequests == s.totalSuccess + s.totalErrors
      ensures s.byPath == pathCounters && s.byStatusCode == statusCounters
      ensures s.totalRequests == Sum(s.byPath) == Sum(s.byStatusCode)
      ensures s.averageLatencyMs == AverageLatency(totalLatencyMs, totalRequests)
      ensures s.lastRequestTimestamp == lastRequestTimestamp
      ensures s.lastRequestDatetime == lastRequestDatetime
    {
      var avg := if totalRequests > 0 then totalLatencyMs / totalRequests as real else 0.0;
      s := MetricsSnapshot(totalRequests, totalSuccess, totalErrors, avg,
        pathCounters, statusCounters, lastRequestTimestamp, lastRequestDatetime);
    }
  }

  /**
   * Three requests answered 200, 404 and 500 leave three requests, one
   * success and two errors, each status counted once.
   */
  method ThreeRequests() returns (total: nat, success: nat, errors: nat, byStatus: map<int, nat>)
    ensures total == 3 && success == 1 && errors == 2
    ensures byStatus == map[200 := 1, 404 := 1, 500 := 1]
  {
    var m := new Metrics();
    m.RecordRequest("/lookup", 200, 12.0, 1.0);
    m.RecordRequest("/lookup", 404, 3.0, 2.0);
    m.RecordRequest("/missing", 500, 5.0, 3.0);
    total, success, errors, byStatus := m.totalRequests, m.totalSuccess, m.totalErrors, m.statusCounters;
  }
}
