/** The figures the event-driven simulators report once their loop has served n customers:
    the average wait and response time (with their squared 95% margins), the time-average
    number waiting `area_queue / time_total` and the measured utilization
    `area_busy / time_total`, here read off the Lindley recursion. */
module Summary {
  import opened Outcomes
  import opened Sums
  import opened Lindley
  import opened Station
  import opened SampleStats

  datatype Metrics = Metrics(
    avgWait: real,
    waitMarginSquared: real,
    avgResponse: real,
    responseMarginSquared: real,
    avgQueueLength: real,
    avgUtilization: real)

  /** The two time averages divide by the run length, the last departure instant. */
  function Summarize(arr: seq<real>, svc: seq<real>, n: nat, w: Estimate, rt: Estimate): Result<Metrics>
    requires n <= |arr| && n <= |svc|
  {
    var timeTotal := EndAfter(arr, svc, n);
    if timeTotal == 0.0 then Err(ZeroDivision)
    else Ok(Metrics(w.mean, w.marginSquared, rt.mean, rt.marginSquared,
                    Sum(Waits(arr, svc, n)) / timeTotal, Sum(svc[..n]) / timeTotal))
  }

  /** The relations a report of n customers with arrival instants arr and service times
      svc satisfies: the run has positive length; the average response time is the average
      wait plus the average service time; the average queue length is the throughput
      n / T times the average wait (Little's law on the sample path); the utilization is
      the fraction of the run the server was busy, so it lies in [0, 1]; the averages and
      the squared margins are non-negative. */
  ghost predicate Consistent(arr: seq<real>, svc: seq<real>, n: nat, m: Metrics)
    requires 0 < n && n <= |arr| && n <= |svc|
  {
    && EndAfter(arr, svc, n) != 0.0
    && m.avgResponse == m.avgWait + Sum(svc[..n]) / n as real
    && m.avgQueueLength == (n as real / EndAfter(arr, svc, n)) * m.avgWait
    && 0.0 <= m.avgUtilization <= 1.0
    && 0.0 <= m.avgWait && 0.0 <= m.avgQueueLength
    && 0.0 <= m.waitMarginSquared && 0.0 <= m.responseMarginSquared
  }

  /** Given estimates whose means are the sample means of the waits and response times and
      whose squared margins are non-negative, the report is `Consistent`; it fails exactly
      when the run lasted no time at all. */
  lemma SummarizeFacts(arr: seq<real>, svc: seq<real>, n: nat, w: Estimate, rt: Estimate)
    requires Workload(arr, svc, n) && 0 < n
    requires w.mean == Mean(Waits(arr, svc, n)) && rt.mean == Mean(Responses(arr, svc, n))
    requires 0.0 <= w.marginSquared && 0.0 <= rt.marginSquared
    ensures var r := Summarize(arr, svc, n, w, rt);
            r.Ok? ==> Consistent(arr, svc, n, r.value)
    ensures Summarize(arr, svc, n, w, rt).Err? <==> EndAfter(arr, svc, n) == 0.0
  {
    var waits := Waits(arr, svc, n);
    ResponsesSum(arr, svc, n);
    WaitsNonNegative(arr, svc, n);
    SumNonNegative(waits);
    SumNonNegative(svc[..n]);
    BusyTimeBelowClock(arr, svc, n);
    var r := Summarize(arr, svc, n, w, rt);
    if r.Ok? {
      var a, b, k, t := Sum(waits), Sum(svc[..n]), n as real, EndAfter(arr, svc, n);
      assert r.value.avgWait == a / k && r.value.avgResponse == (a + b) / k;
      assert r.value.avgQueueLength == a / t && r.value.avgUtilization == b / t;
      Ratios(a, b, k, t);
    }
  }

  /** The arithmetic behind the reports, for total wait w, total service b, count k and
      run length t. */
  lemma Ratios(w: real, b: real, k: real, t: real)
    requires 0.0 <= w && 0.0 <= b <= t && 0.0 < k && t != 0.0
    ensures (w + b) / k == w / k + b / k
    ensures w / t == (k / t) * (w / k)
    ensures 0.0 <= b / t <= 1.0 && 0.0 <= w / k && 0.0 <= w / t
  {
    ThroughputTimesWait(w, k, t);
    FractionAtMostOne(b, t);
    assert t > 0.0;
    FractionAtMostOne(0.0, k);
  }

  lemma ThroughputTimesWait(w: real, k: real, t: real)
    requires k > 0.0 && t != 0.0
    ensures w / t == (k / t) * (w / k)
  {
    assert (k / t) * (w / k) == (k * w) / (t * k);
  }

  lemma FractionAtMostOne(a: real, t: real)
    requires 0.0 <= a <= t && t != 0.0
    ensures 0.0 <= a / t <= 1.0
  {
    assert a / t * t == a;
  }
}
