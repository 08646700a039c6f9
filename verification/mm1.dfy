/** The M/M/1 simulator of M-M-1/mm1.py: a script whose state lives in module globals,
    updated by `update_areas` and by the main loop. Arrivals are generated on the fly: the
    first one is drawn before the loop and every later one, while fewer than NUM_CUSTOMERS
    have arrived, at the current time plus a fresh gap. Instead of per-customer lists the
    script keeps running totals of the waits and response times.

    Random numbers are parameters: `gaps` holds the inter-arrival draws exp_rv(beta), one per
    customer in order of arrival, and `svc` the service draws exp_rv(1 / mu), one per service
    start. Customer i then arrives at the running sum of the first i + 1 gaps. */
module MM1 {
  import opened Outcomes
  import opened Sums
  import opened EventList
  import opened Lindley
  import opened Station
  import Summary

  /** The arrival instants of the first n customers: running sums of their gaps. */
  function Arrivals(gaps: seq<real>, n: nat): (r: seq<real>)
    requires n <= |gaps|
    ensures |r| == n
  {
    CumSums(gaps[..n])
  }

  /** The next arrival is the current one plus the next gap. */
  lemma ArrivalsStep(gaps: seq<real>, n: nat, i: nat)
    requires i + 1 < n <= |gaps|
    ensures Arrivals(gaps, n)[i + 1] == Arrivals(gaps, n)[i] + gaps[i + 1]
  {
    var g := gaps[..n];
    assert g[..i + 2] == gaps[..i + 2] && g[..i + 1] == gaps[..i + 1];
    SumPrefixStep(gaps, i + 1);
  }

  datatype Metrics = Metrics(avgWaitTime: real, avgQueueLength: real, utilization: real,
                             avgResponseTime: real)

  /** The performance measures computed after the loop from the running totals: total wait
      and total response over the number served, the two areas over the final time. With no
      customer served the first division is 0 / 0. */
  function Measures(totalWait: real, totalResponse: real, areaQueue: real, areaBusy: real,
                    served: nat, time: real): Result<Metrics>
  {
    if served == 0 || time == 0.0 then Err(ZeroDivision)
    else Ok(Metrics(totalWait / served as real, areaQueue / time, areaBusy / time,
                    totalResponse / served as real))
  }

  /** Totals as a finished run leaves them: every response is a wait plus a service, so the
      total response is the total wait plus the busy time; the area under the line length is
      the total wait; the server was busy for at most the whole run. Then the average response
      time is the average wait plus the average service time, the average queue length is the
      throughput served / time times the average wait (Little's law on the sample path), the
      utilization lies in [0, 1], and the measures fail exactly when nobody was served or no
      time passed. */
  lemma MeasuresFacts(totalWait: real, totalResponse: real, areaQueue: real, areaBusy: real,
                      served: nat, time: real)
    requires totalResponse == totalWait + areaBusy && areaQueue == totalWait
    requires 0.0 <= totalWait && 0.0 <= areaBusy <= time
    ensures var r := Measures(totalWait, totalResponse, areaQueue, areaBusy, served, time);
            && (r.Err? <==> served == 0 || time == 0.0)
            && (r.Ok? ==>
                  && r.value.avgResponseTime == r.value.avgWaitTime + areaBusy / served as real
                  && r.value.avgQueueLength == (served as real / time) * r.value.avgWaitTime
                  && 0.0 <= r.value.utilization <= 1.0
                  && 0.0 <= r.value.avgWaitTime && 0.0 <= r.value.avgQueueLength)
  {
    if served > 0 && time != 0.0 {
      Summary.Ratios(totalWait, areaBusy, served as real, time);
    }
  }

  /** The measures of the run whose customers arrive at `arr`, read off the Lindley
      recursion: the run ends at the last departure. */
  function Figures(arr: seq<real>, svc: seq<real>, n: nat): Result<Metrics>
    requires n <= |arr| && n <= |svc|
  {
    Measures(Sum(Waits(arr, svc, n)), Sum(Responses(arr, svc, n)), Sum(Waits(arr, svc, n)),
             Sum(svc[..n]), n, EndAfter(arr, svc, n))
  }

  /** The whole script, for customers arriving at the running sums of the gaps. */
  function Run(gaps: seq<real>, svc: seq<real>, n: nat): Result<Metrics>
    requires n <= |gaps| && n <= |svc|
  {
    Figures(Arrivals(gaps, n), svc, n)
  }

  /** The Lindley totals are totals of a finished run in the sense of `MeasuresFacts`, so the
      figures satisfy everything it states. */
  lemma FiguresFacts(arr: seq<real>, svc: seq<real>, n: nat)
    requires n <= |arr| && n <= |svc| && AllNonNegative(svc)
    ensures var w := Sum(Waits(arr, svc, n));
            && Sum(Responses(arr, svc, n)) == w + Sum(svc[..n])
            && 0.0 <= w && 0.0 <= Sum(svc[..n]) <= EndAfter(arr, svc, n)
  {
    ResponsesSum(arr, svc, n);
    WaitsNonNegative(arr, svc, n);
    SumNonNegative(Waits(arr, svc, n));
    SumNonNegative(svc[..n]);
    BusyTimeBelowClock(arr, svc, n);
  }

  /** The station starts from the first arrival scheduled at the first gap, which is the
      first arrival instant; running sums of non-negative gaps are a valid workload. */
  lemma FirstArrival(gaps: seq<real>, svc: seq<real>, N: nat)
    requires 0 < N <= |gaps| && N <= |svc| && AllNonNegative(gaps) && AllNonNegative(svc)
    ensures Initial(Arrivals(gaps, N)) == State([Event(gaps[0], Arrival)], [], false, 0.0, 0.0, 0.0, 0, [], [])
    ensures Inv(Initial(Arrivals(gaps, N)), Arrivals(gaps, N), svc, N)
  {
    var arr := Arrivals(gaps, N);
    assert gaps[..N][..1] == [] + [gaps[0]];
    SumAppend([], gaps[0]);
    assert arr[0] == gaps[0];
    CumSumsNonDecreasing(gaps[..N]);
    InitialInv(arr, svc, N);
  }

  /** A running total and the values it adds up moved together: either neither changed, or
      one value was appended and added to the total. */
  ghost predicate Accumulated(total0: real, xs0: seq<real>, total1: real, xs1: seq<real>)
  {
    (xs1 == xs0 && total1 == total0) || xs1 == xs0 + [total1 - total0]
  }

  lemma AccumulatedSum(total0: real, xs0: seq<real>, total1: real, xs1: seq<real>)
    requires total0 == Sum(xs0) && Accumulated(total0, xs0, total1, xs1)
    ensures total1 == Sum(xs1)
  {
    if xs1 != xs0 {
      SumAppend(xs0, total1 - total0);
    }
  }

  /** The script's globals. `waitTimes` and `responseTimes` are the per-customer values the
      two totals add up; the script never stores them. */
  class Simulator {
    var currentTime: real
    var queue: seq<real>
    var serverBusy: bool
    var eventList: seq<Event>
    var lastEventTime: real
    var numCustomersServed: nat
    var totalWaitTime: real
    var areaQueue: real
    var areaBusy: real
    var totalResponseTime: real
    ghost var waitTimes: seq<real>
    ghost var responseTimes: seq<real>

    /** The globals seen as a state of the station. */
    ghost function Snapshot(): State
      reads this
    {
      State(eventList, queue, serverBusy, lastEventTime, areaQueue, areaBusy,
            numCustomersServed, waitTimes, responseTimes)
    }

    /** The totals are the sums of the per-customer values. */
    ghost predicate Totals()
      reads this`totalWaitTime, this`waitTimes, this`totalResponseTime, this`responseTimes
    {
      totalWaitTime == Sum(waitTimes) && totalResponseTime == Sum(responseTimes)
    }

    /** The initial values of the globals. */
    constructor ()
      ensures Snapshot() == State([], [], false, 0.0, 0.0, 0.0, 0, [], [])
      ensures currentTime == 0.0 && totalWaitTime == 0.0 && totalResponseTime == 0.0
    {
      currentTime := 0.0;
      queue := [];
      serverBusy := false;
      eventList := [];
      lastEventTime := 0.0;
      numCustomersServed := 0;
      totalWaitTime := 0.0;
      areaQueue := 0.0;
      areaBusy := 0.0;
      totalResponseTime := 0.0;
      waitTimes := [];
      responseTimes := [];
    }

    /** update_areas: close out the interval since the last event at the current line
        length and server state, then move the clock. A second call at the same time adds
        nothing. */
    method UpdateAreas(time: real)
      modifies this`areaQueue, this`areaBusy, this`lastEventTime
      ensures areaQueue == old(areaQueue) + Scaled(|queue|, time - old(lastEventTime))
      ensures areaBusy == old(areaBusy) + Scaled(if serverBusy then 1 else 0, time - old(lastEventTime))
      ensures lastEventTime == time
      ensures old(lastEventTime) == time ==> areaQueue == old(areaQueue) && areaBusy == old(areaBusy)
    {
      var timeSinceLast := time - lastEventTime;
      ScaledZero(|queue|);
      ScaledZero(if serverBusy then 1 else 0);
      areaQueue := areaQueue + Scaled(|queue|, timeSinceLast);
      areaBusy := areaBusy + Scaled(if serverBusy then 1 else 0, timeSinceLast);
      lastEventTime := time;
    }

    /** The script from the first arrival to the figures it prints. */
    static method RunScript(gaps: seq<real>, svc: seq<real>, N: nat) returns (r: Result<Metrics>)
      requires 0 < |gaps| && N <= |gaps| && N <= |svc|
      requires AllNonNegative(gaps) && AllNonNegative(svc)
      ensures r == Run(gaps, svc, N)
    {
      var sim := new Simulator();
      sim.eventList := Insert(sim.eventList, Event(gaps[0], Arrival));
      sim.EventLoop(gaps, svc, N);
      sim.UpdateAreas(sim.currentTime);
      r := sim.Results();
    }

    /** The performance measures computed after the loop. */
    method Results() returns (r: Result<Metrics>)
      ensures r == Measures(totalWaitTime, totalResponseTime, areaQueue, areaBusy,
                            numCustomersServed, currentTime)
    {
      if numCustomersServed == 0 {
        return Err(ZeroDivision);
      }
      var avgWaitTime := totalWaitTime / numCustomersServed as real;
      if currentTime == 0.0 {
        return Err(ZeroDivision);
      }
      var avgQueueLength := areaQueue / currentTime;
      var utilization := areaBusy / currentTime;
      var avgResponseTime := totalResponseTime / numCustomersServed as real;
      r := Ok(Metrics(avgWaitTime, avgQueueLength, utilization, avgResponseTime));
    }

    /** The main loop, from the first arrival scheduled until NUM_CUSTOMERS customers have
        been served. Every pass is one `Step` of the station whose customers arrive at the
        running sums of the gaps, so at the end the line and the heap are empty, the server
        is idle, and the totals and integrals are the Lindley ones. With NUM_CUSTOMERS = 0
        nothing happens. */
    method EventLoop(gaps: seq<real>, svc: seq<real>, N: nat)
      modifies this
      requires 0 < |gaps| && N <= |gaps| && N <= |svc|
      requires AllNonNegative(gaps) && AllNonNegative(svc)
      requires Snapshot() == State([Event(gaps[0], Arrival)], [], false, 0.0, 0.0, 0.0, 0, [], [])
      requires currentTime == 0.0 && totalWaitTime == 0.0 && totalResponseTime == 0.0
      ensures numCustomersServed == N && Totals() && currentTime == lastEventTime
      ensures N == 0 ==> Snapshot() == old(Snapshot()) && currentTime == 0.0
      ensures N > 0 ==> var arr := Arrivals(gaps, N);
                        && queue == [] && !serverBusy && eventList == []
                        && waitTimes == Waits(arr, svc, N)
                        && responseTimes == Responses(arr, svc, N)
                        && currentTime == EndAfter(arr, svc, N)
                        && areaQueue == Sum(Waits(arr, svc, N))
                        && areaBusy == Sum(svc[..N])
    {
      if N == 0 {
        return;
      }
      ghost var arr := Arrivals(gaps, N);
      FirstArrival(gaps, svc, N);
      ghost var s := Snapshot();
      while numCustomersServed < N
        invariant s == Snapshot() && Inv(s, arr, svc, N)
        invariant currentTime == lastEventTime && Totals()
        decreases Measure(s, N)
      {
        Progress(s, arr, svc, N);
        StepPreservesInv(s, arr, svc, N);
        Pass(gaps, svc, N, arr);
        s := Snapshot();
      }
      Finished(s, arr, svc, N);
    }

    /** One pass of the main loop: pop the next event, which the invariant guarantees
        exists while fewer than NUM_CUSTOMERS have been served, and handle it. The globals
        move exactly as one `Step` of the station, and the totals keep adding up the
        samples. */
    method Pass(gaps: seq<real>, svc: seq<real>, N: nat, ghost arr: seq<real>)
      modifies this
      requires N <= |gaps| && arr == Arrivals(gaps, N)
      requires Inv(Snapshot(), arr, svc, N) && numCustomersServed < N
      requires currentTime == lastEventTime && Totals()
      ensures |old(Snapshot()).eventList| > 0 && Snapshot() == Step(old(Snapshot()), arr, svc, N)
      ensures currentTime == lastEventTime && Totals()
    {
      Progress(Snapshot(), arr, svc, N);
      if eventList[0].kind == Arrival {
        ArrivalStep(gaps, svc, N, arr);
      } else {
        DepartureStep(svc, N, arr);
      }
    }

    /** The pass when the popped event is an arrival. */
    method ArrivalStep(gaps: seq<real>, svc: seq<real>, N: nat, ghost arr: seq<real>)
      modifies this
      requires N <= |gaps| && arr == Arrivals(gaps, N)
      requires Inv(Snapshot(), arr, svc, N) && eventList != [] && eventList[0].kind == Arrival
      requires Totals()
      ensures Snapshot() == Step(old(Snapshot()), arr, svc, N)
      ensures currentTime == lastEventTime && Totals()
    {
      ghost var before := Snapshot();
      HeadKind(before, arr, svc, N);
      HeadReady(before, arr, svc, N);
      ghost var wait0, waits0, response0, responses0 := totalWaitTime, waitTimes, totalResponseTime, responseTimes;
      ghost var a := Admitted(before);
      assert eventList[0] == Event(arr[a], Arrival);
      if a + 1 < N {
        ArrivalsStep(gaps, N, a);
      }
      ArrivalPass(gaps, svc, N, arr);
      Station.ArrivalPass(before, Snapshot(), arr, svc, N);
      AccumulatedSum(wait0, waits0, totalWaitTime, waitTimes);
      AccumulatedSum(response0, responses0, totalResponseTime, responseTimes);
    }

    /** The pass when the popped event is a departure. */
    method DepartureStep(svc: seq<real>, N: nat, ghost arr: seq<real>)
      modifies this
      requires Inv(Snapshot(), arr, svc, N) && eventList != [] && eventList[0].kind == Departure
      requires Totals()
      ensures Snapshot() == Step(old(Snapshot()), arr, svc, N)
      ensures currentTime == lastEventTime && Totals()
    {
      ghost var before := Snapshot();
      HeadReady(before, arr, svc, N);
      ghost var wait0, waits0, response0, responses0 := totalWaitTime, waitTimes, totalResponseTime, responseTimes;
      DeparturePass(svc);
      Station.DeparturePass(before, Snapshot(), arr, svc, N);
      AccumulatedSum(wait0, waits0, totalWaitTime, waitTimes);
      AccumulatedSum(response0, responses0, totalResponseTime, responseTimes);
    }

    /** A pass of the main loop that pops an arrival: update the areas up to it and handle
        it. */
    method ArrivalPass(gaps: seq<real>, svc: seq<real>, N: nat, ghost arr: seq<real>)
      modifies this
      requires N <= |gaps| && N <= |svc| && |arr| == N
      requires eventList != [] && eventList[0].kind == Arrival
      requires Admitted(Snapshot()) < N && eventList[0].time == arr[Admitted(Snapshot())]
      requires Admitted(Snapshot()) + 1 < N ==>
                 arr[Admitted(Snapshot()) + 1] == arr[Admitted(Snapshot())] + gaps[Admitted(Snapshot()) + 1]
      requires |waitTimes| == Started(Snapshot())
      ensures currentTime == lastEventTime
      ensures Accumulated(old(totalWaitTime), old(waitTimes), totalWaitTime, waitTimes)
      ensures Accumulated(old(totalResponseTime), old(responseTimes), totalResponseTime, responseTimes)
      ensures ArrivalHandled(old(Snapshot()), Snapshot(), arr, svc, N)
    {
      var eventTime := eventList[0].time;
      eventList := eventList[1..];
      UpdateAreas(eventTime);
      currentTime := eventTime;
      HandleArrival(gaps, svc, N, arr);
    }

    /** A pass of the main loop that pops a departure: update the areas up to it and handle
        it. */
    method DeparturePass(svc: seq<real>)
      modifies this
      requires eventList != [] && eventList[0].kind == Departure && serverBusy
      requires |waitTimes| == Started(Snapshot()) <= Admitted(Snapshot()) <= |svc|
      ensures currentTime == lastEventTime
      ensures Accumulated(old(totalWaitTime), old(waitTimes), totalWaitTime, waitTimes)
      ensures Accumulated(old(totalResponseTime), old(responseTimes), totalResponseTime, responseTimes)
      ensures DepartureHandled(old(Snapshot()), Snapshot(), svc)
    {
      var eventTime := eventList[0].time;
      eventList := eventList[1..];
      UpdateAreas(eventTime);
      currentTime := eventTime;
      HandleDeparture(svc);
    }

    /** The ARRIVAL branch: an idle server starts the customer at once (wait 0) and schedules
        its departure, a busy one appends it to the line; then, while fewer than
        NUM_CUSTOMERS have arrived, the next arrival is scheduled one gap later. */
    method HandleArrival(gaps: seq<real>, svc: seq<real>, N: nat, ghost arr: seq<real>)
      modifies this`serverBusy, this`totalResponseTime, this`responseTimes, this`waitTimes
      modifies this`eventList, this`queue
      requires N <= |gaps| && N <= |svc| && |arr| == N
      requires var a := numCustomersServed + |queue| + (if serverBusy then 1 else 0);
               && a < N && currentTime == arr[a]
               && (a + 1 < N ==> arr[a + 1] == currentTime + gaps[a + 1])
      requires !serverBusy ==> |waitTimes| == numCustomersServed
      ensures serverBusy
      ensures Accumulated(old(totalWaitTime), old(waitTimes), totalWaitTime, waitTimes)
      ensures Accumulated(old(totalResponseTime), old(responseTimes), totalResponseTime, responseTimes)
      ensures !old(serverBusy) ==>
                && queue == old(queue) && waitTimes == old(waitTimes) + [0.0]
                && responseTimes == old(responseTimes) + [svc[|old(waitTimes)|]]
                && eventList == ScheduleNextArrival(
                                  Insert(old(eventList), Event(currentTime + svc[|old(waitTimes)|], Departure)),
                                  numCustomersServed + |queue| + 1, arr, N)
      ensures old(serverBusy) ==>
                && queue == old(queue) + [currentTime]
                && waitTimes == old(waitTimes) && responseTimes == old(responseTimes)
                && eventList == ScheduleNextArrival(old(eventList), numCustomersServed + |queue| + 1, arr, N)
    {
      if !serverBusy {
        StartService(svc);
      } else {
        queue := queue + [currentTime];
      }
      ScheduleNext(gaps, N, arr);
    }

    /** An arriving customer finding the server idle is served at once: it waits 0 and
        leaves one service time later. */
    method StartService(svc: seq<real>)
      modifies this`serverBusy, this`totalResponseTime, this`responseTimes, this`waitTimes
      modifies this`eventList
      requires |waitTimes| == numCustomersServed < |svc|
      ensures serverBusy
      ensures waitTimes == old(waitTimes) + [0.0]
      ensures totalResponseTime == old(totalResponseTime) + svc[numCustomersServed]
      ensures responseTimes == old(responseTimes) + [svc[numCustomersServed]]
      ensures eventList == Insert(old(eventList), Event(currentTime + svc[numCustomersServed], Departure))
    {
      serverBusy := true;
      var serviceTime := svc[numCustomersServed];
      totalResponseTime := totalResponseTime + serviceTime;
      responseTimes := responseTimes + [serviceTime];
      waitTimes := waitTimes + [0.0];
      eventList := Insert(eventList, Event(currentTime + serviceTime, Departure));
    }

    /** While fewer than NUM_CUSTOMERS have arrived, the next one comes a fresh gap after the
        current one. */
    method ScheduleNext(gaps: seq<real>, N: nat, ghost arr: seq<real>)
      modifies this`eventList
      requires N <= |gaps| && |arr| == N && serverBusy
      requires var a := numCustomersServed + |queue| + 1;
               a < N ==> arr[a] == currentTime + gaps[a]
      ensures eventList == ScheduleNextArrival(old(eventList), numCustomersServed + |queue| + 1, arr, N)
    {
      var admitted := numCustomersServed + |queue| + 1;
      if admitted < N {
        var nextArrival := currentTime + gaps[admitted];
        eventList := Insert(eventList, Event(nextArrival, Arrival));
      }
    }

    /** The DEPARTURE branch: one more customer served; the oldest waiting customer, if any,
        starts at once, having waited since its arrival, otherwise the server goes idle. */
    method HandleDeparture(svc: seq<real>)
      modifies this`numCustomersServed, this`serverBusy, this`queue, this`totalWaitTime
      modifies this`waitTimes, this`totalResponseTime, this`responseTimes, this`eventList
      requires queue != [] ==> |waitTimes| == numCustomersServed + 1 < |svc|
      ensures numCustomersServed == old(numCustomersServed) + 1
      ensures Accumulated(old(totalWaitTime), old(waitTimes), totalWaitTime, waitTimes)
      ensures Accumulated(old(totalResponseTime), old(responseTimes), totalResponseTime, responseTimes)
      ensures old(queue) != [] ==>
                var wait := currentTime - old(queue)[0];
                && serverBusy == old(serverBusy) && queue == old(queue)[1..]
                && waitTimes == old(waitTimes) + [wait]
                && responseTimes == old(responseTimes) + [wait + svc[|old(waitTimes)|]]
                && eventList == Insert(old(eventList), Event(currentTime + svc[|old(waitTimes)|], Departure))
      ensures old(queue) == [] ==>
                && !serverBusy && queue == old(queue) && eventList == old(eventList)
                && waitTimes == old(waitTimes) && responseTimes == old(responseTimes)
    {
      numCustomersServed := numCustomersServed + 1;
      if queue != [] {
        StartNext(svc);
      } else {
        serverBusy := false;
      }
    }

    /** The head of the line starts service: its wait is the time since it arrived. */
    method StartNext(svc: seq<real>)
      modifies this`queue, this`totalWaitTime, this`waitTimes, this`totalResponseTime
      modifies this`responseTimes, this`eventList
      requires queue != [] && |waitTimes| == numCustomersServed < |svc|
      ensures queue == old(queue)[1..]
      ensures totalWaitTime == old(totalWaitTime) + (currentTime - old(queue)[0])
      ensures totalResponseTime == old(totalResponseTime) + ((currentTime - old(queue)[0]) + svc[numCustomersServed])
      ensures waitTimes == old(waitTimes) + [currentTime - old(queue)[0]]
      ensures responseTimes == old(responseTimes) + [(currentTime - old(queue)[0]) + svc[numCustomersServed]]
      ensures eventList == Insert(old(eventList), Event(currentTime + svc[numCustomersServed], Departure))
    {
      var arrivalTime := queue[0];
      queue := queue[1..];
      var waitTime := currentTime - arrivalTime;
      totalWaitTime := totalWaitTime + waitTime;
      waitTimes := waitTimes + [waitTime];
      var serviceTime := svc[numCustomersServed];
      totalResponseTime := totalResponseTime + (waitTime + serviceTime);
      responseTimes := responseTimes + [waitTime + serviceTime];
      eventList := Insert(eventList, Event(currentTime + serviceTime, Departure));
    }
  }
}
