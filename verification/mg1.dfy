/** The M/G/1 simulator of M-G-1/mg1.py: exponential inter-arrival gaps (rate lambda) are
    all generated first, then a module-level event loop serves NUM_CUSTOMERS customers with
    hyperexponential service times hyperx(1 / mu, 2 / mu) drawn as services start, and the
    script reports the average wait and response time with their 95% intervals, the
    time-average queue length and the measured utilization.

    Random numbers are parameters: the unit exponentials -ln U behind `exp_rv`, one per
    arrival gap, and one `HyperDraw` per service start. Unlike G/M/1, the next arrival is
    scheduled after every arrival without looking at the head count: the arrival cursor
    moves on by one each time and pushing stops after the last pre-generated instant. */
module MG1 {
  import opened Outcomes
  import opened Sums
  import opened EventList
  import opened Lindley
  import opened Station
  import opened Variates
  import opened SampleStats
  import opened Summary
  import GM1

  /** For hyperx(1 / mu, 2 / mu), z = 4 and the square-root argument is (4 - 1) / (4 + 1). */
  const ServiceRootArgument: real := 0.6

  /** exp_rv(lambda) = -ln U / lambda, with the unit exponential e = -ln U supplied. */
  function ExpRv(lambda: real, e: real): real
    requires lambda != 0.0
  {
    e / lambda
  }

  function InterArrivalTimes(lambda: real, es: seq<real>): (r: seq<real>)
    requires lambda != 0.0
    ensures |r| == |es|
  {
    seq(|es|, i requires 0 <= i < |es| => ExpRv(lambda, es[i]))
  }

  /** The arrival instants generate_arrival_times produces: running sums of the gaps. */
  function ArrivalTimes(lambda: real, es: seq<real>): (r: seq<real>)
    requires lambda != 0.0
    ensures |r| == |es|
  {
    CumSums(InterArrivalTimes(lambda, es))
  }

  /** With a positive rate and non-negative unit exponentials the arrival instants start at
      or after time 0 and never decrease. */
  lemma ArrivalTimesOrdered(lambda: real, es: seq<real>)
    requires 0.0 < lambda && AllNonNegative(es)
    ensures NonDecreasing(ArrivalTimes(lambda, es))
    ensures |es| > 0 ==> 0.0 <= ArrivalTimes(lambda, es)[0]
  {
    var gaps := InterArrivalTimes(lambda, es);
    forall i | 0 <= i < |gaps|
      ensures 0.0 <= gaps[i]
    {
      assert gaps[i] == es[i] / lambda;
    }
    CumSumsNonDecreasing(gaps);
  }

  /** generate_arrival_times: numArrivals running sums of exponential gaps; a zero rate
      divides by zero at the first draw. */
  method GenerateArrivalTimes(lambda: real, numArrivals: nat, es: seq<real>)
    returns (r: Result<seq<real>>)
    requires numArrivals <= |es|
    ensures numArrivals == 0 ==> r == Ok([])
    ensures 0 < numArrivals && lambda == 0.0 ==> r == Err(ZeroDivision)
    ensures lambda != 0.0 ==> r == Ok(ArrivalTimes(lambda, es[..numArrivals]))
  {
    var arrivalTimes: seq<real> := [];
    var currentTime := 0.0;
    for i := 0 to numArrivals
      invariant lambda == 0.0 ==> i == 0 && arrivalTimes == []
      invariant lambda != 0.0 ==> arrivalTimes == CumSums(InterArrivalTimes(lambda, es[..i]))
      invariant lambda != 0.0 ==> currentTime == Sum(InterArrivalTimes(lambda, es[..i]))
    {
      if lambda == 0.0 {
        return Err(ZeroDivision);
      }
      var interArrivalTime := ExpRv(lambda, es[i]);
      ghost var gaps := InterArrivalTimes(lambda, es[..i]);
      assert InterArrivalTimes(lambda, es[..i + 1]) == gaps + [interArrivalTime];
      CumSumsAppend(gaps, interArrivalTime);
      SumAppend(gaps, interArrivalTime);
      currentTime := currentTime + interArrivalTime;
      arrivalTimes := arrivalTimes + [currentTime];
    }
    assert es[..numArrivals] == es[..numArrivals][..numArrivals];
    return Ok(arrivalTimes);
  }

  /** confidence_interval: `statistics.mean` needs one observation and `statistics.stdev`
      two; otherwise the sample mean and the squared 95% margin. */
  function ConfidenceInterval(data: seq<real>): (r: Result<Estimate>)
    ensures r.Err? <==> |data| < 2
    ensures r.Err? ==> r.error == NotEnoughData
    ensures r.Ok? ==> r.value.mean * |data| as real == Sum(data) && 0.0 <= r.value.marginSquared
  {
    if |data| < 2 then Err(NotEnoughData)
    else Ok(Estimate(Mean(data), MarginSquared(data)))
  }

  /** On two or more observations the interval is the one G-M-1/gm1.py computes; the two
      differ only on fewer, where gm1 reports a zero margin (one point) instead of failing. */
  lemma ConfidenceIntervalAgrees(data: seq<real>)
    ensures |data| >= 2 ==> ConfidenceInterval(data) == GM1.ConfidenceInterval(data)
    ensures |data| == 1 ==> ConfidenceInterval(data).Err? && GM1.ConfidenceInterval(data).Ok?
                            && GM1.ConfidenceInterval(data).value.marginSquared == 0.0
  {
  }

  /** With a positive service rate, hyperx(1 / mu, 1 / (mu / 2)) always succeeds and, given a
      non-negative unit exponential, returns a non-negative service time. */
  lemma ServiceHyperx(mu: real, root: real, d: HyperDraw)
    requires 0.0 < mu && IsSqrt(root, ServiceRootArgument)
    ensures RootSupplied(1.0 / mu, 1.0 / (mu / 2.0), root)
    ensures Hyperx(1.0 / mu, 1.0 / (mu / 2.0), root, d).Ok?
    ensures 0.0 <= d.e ==> 0.0 <= Hyperx(1.0 / mu, 1.0 / (mu / 2.0), root, d).value
  {
    var x, s := 1.0 / mu, 1.0 / (mu / 2.0);
    assert s == 2.0 * x;
    assert s / x == 2.0;
    assert CvSquared(x, s) == 4.0;
    assert RootArgument(x, s) == ServiceRootArgument;
  }

  /** With a negative service rate the hyperx guard fails at the first service:
      2 / mu <= 1 / mu. */
  lemma NegativeServiceRateRejected(mu: real, root: real, d: HyperDraw)
    requires mu < 0.0
    ensures RootSupplied(1.0 / mu, 1.0 / (mu / 2.0), root)
    ensures Hyperx(1.0 / mu, 1.0 / (mu / 2.0), root, d) == Err(InvalidDistribution)
  {
    assert 1.0 / (mu / 2.0) == 2.0 * (1.0 / mu);
  }

  /** The service time a start draws: hyperx(1 / mu, 1 / (mu / 2)). */
  function ServiceTime(mu: real, root: real, d: HyperDraw): real
    requires 0.0 < mu && IsSqrt(root, ServiceRootArgument)
  {
    ServiceHyperx(mu, root, d);
    Hyperx(1.0 / mu, 1.0 / (mu / 2.0), root, d).value
  }

  /** The service times in the order services start, one draw each. */
  function ServiceTimes(mu: real, root: real, draws: seq<HyperDraw>): (r: seq<real>)
    requires 0.0 < mu && IsSqrt(root, ServiceRootArgument)
    ensures |r| == |draws|
  {
    seq(|draws|, i requires 0 <= i < |draws| => ServiceTime(mu, root, draws[i]))
  }

  lemma ServiceTimesNonNegative(mu: real, root: real, draws: seq<HyperDraw>)
    requires 0.0 < mu && IsSqrt(root, ServiceRootArgument) && UnitDraws(draws)
    ensures AllNonNegative(ServiceTimes(mu, root, draws))
  {
    forall i | 0 <= i < |draws|
      ensures 0.0 <= ServiceTimes(mu, root, draws)[i]
    {
      ServiceHyperx(mu, root, draws[i]);
    }
  }

  /** What the end of mg1.py reports for n >= 2 customers: the two intervals, then the two
      time averages over the run, which ends at the last departure. */
  function Report(arr: seq<real>, svc: seq<real>, n: nat): Result<Metrics>
    requires 2 <= n && n <= |arr| && n <= |svc|
  {
    var w := ConfidenceInterval(Waits(arr, svc, n));
    var rt := ConfidenceInterval(Responses(arr, svc, n));
    Summarize(arr, svc, n, w.value, rt.value)
  }

  /** The script, errors in the order it meets them: the arrivals are generated (a zero
      rate divides by zero), the first arrival is scheduled (`arrival_times[0]` of an empty
      list), the first service is drawn in the first pass (1 / mu, then the hyperx guard), the
      intervals need two customers and the averages a run of positive length. */
  function Run(lambda: real, serviceRate: real, numCustomers: nat, root: real,
               arrivalDraws: seq<real>, serviceDraws: seq<HyperDraw>): Result<Metrics>
    requires IsSqrt(root, ServiceRootArgument)
    requires numCustomers <= |arrivalDraws| && numCustomers <= |serviceDraws|
  {
    if numCustomers == 0 then Err(IndexOutOfRange)
    else if lambda == 0.0 then Err(ZeroDivision)
    else if serviceRate == 0.0 then Err(ZeroDivision)
    else if serviceRate < 0.0 then Err(InvalidDistribution)
    else if numCustomers < 2 then Err(NotEnoughData)
    else Report(ArrivalTimes(lambda, arrivalDraws[..numCustomers]),
                ServiceTimes(serviceRate, root, serviceDraws), numCustomers)
  }

  /** The reported figures, as for G/M/1: average response = average wait + average service,
      average queue length = throughput times average wait, utilization in [0, 1], and the
      report fails only for a run of length 0. */
  lemma ReportFacts(arr: seq<real>, svc: seq<real>, n: nat)
    requires Workload(arr, svc, n) && 2 <= n
    ensures Report(arr, svc, n).Ok? ==> Consistent(arr, svc, n, Report(arr, svc, n).value)
    ensures Report(arr, svc, n).Err? <==> EndAfter(arr, svc, n) == 0.0
  {
    var w := ConfidenceInterval(Waits(arr, svc, n));
    var rt := ConfidenceInterval(Responses(arr, svc, n));
    assert w.value.mean == Mean(Waits(arr, svc, n)) && rt.value.mean == Mean(Responses(arr, svc, n));
    SummarizeFacts(arr, svc, n, w.value, rt.value);
    assert Report(arr, svc, n) == Summarize(arr, svc, n, w.value, rt.value);
  }

  /** mg1.py from line 60 on: generate the arrivals, run the loop, report. A negative
      service rate or a zero one fails at the first service drawn, in the first pass; the
      model tests the rate just before the loop. */
  method RunSimulation(lambda: real, serviceRate: real, numCustomers: nat, root: real,
                       arrivalDraws: seq<real>, serviceDraws: seq<HyperDraw>)
    returns (r: Result<Metrics>)
    requires IsSqrt(root, ServiceRootArgument) && 0.0 <= lambda
    requires AllNonNegative(arrivalDraws) && UnitDraws(serviceDraws)
    requires numCustomers <= |arrivalDraws| && numCustomers <= |serviceDraws|
    ensures r == Run(lambda, serviceRate, numCustomers, root, arrivalDraws, serviceDraws)
  {
    var generated := GenerateArrivalTimes(lambda, numCustomers, arrivalDraws);
    if generated.Err? {
      return Err(generated.error);
    }
    var arrivalTimes := generated.value;
    if |arrivalTimes| == 0 {
      return Err(IndexOutOfRange);
    }
    if serviceRate == 0.0 {
      return Err(ZeroDivision);
    }
    if serviceRate < 0.0 {
      return Err(InvalidDistribution);
    }
    ghost var svc := ServiceTimes(serviceRate, root, serviceDraws);
    ArrivalTimesOrdered(lambda, arrivalDraws[..numCustomers]);
    ServiceTimesNonNegative(serviceRate, root, serviceDraws);
    assert Workload(arrivalTimes, svc, numCustomers);
    var currentTime, areaQueue, areaBusy, waitTimes, responseTimes :=
      EventLoop(arrivalTimes, serviceRate, root, serviceDraws, numCustomers, svc);
    var timeTotal := currentTime;
    var waitEstimate := ConfidenceInterval(waitTimes);
    if waitEstimate.Err? {
      return Err(waitEstimate.error);
    }
    var responseEstimate := ConfidenceInterval(responseTimes);
    if timeTotal == 0.0 {
      return Err(ZeroDivision);
    }
    var avgQueueLength := areaQueue / timeTotal;
    var avgUtilization := areaBusy / timeTotal;
    r := Ok(Metrics(waitEstimate.value.mean, waitEstimate.value.marginSquared,
                    responseEstimate.value.mean, responseEstimate.value.marginSquared,
                    avgQueueLength, avgUtilization));
  }

  /** The main loop: pop events until NUM_CUSTOMERS customers have been served. The heap is
      never popped empty (`Progress`), and every pass is one `Step`, so at the end the samples
      and integrals are the Lindley ones. */
  method EventLoop(arrivalTimes: seq<real>, serviceRate: real, root: real,
                   serviceDraws: seq<HyperDraw>, N: nat, ghost svc: seq<real>)
    returns (currentTime: real, areaQueue: real, areaBusy: real,
             waitTimes: seq<real>, responseTimes: seq<real>)
    requires 0.0 < serviceRate && IsSqrt(root, ServiceRootArgument)
    requires svc == ServiceTimes(serviceRate, root, serviceDraws)
    requires Workload(arrivalTimes, svc, N) && N > 0
    ensures waitTimes == Waits(arrivalTimes, svc, N)
    ensures responseTimes == Responses(arrivalTimes, svc, N)
    ensures currentTime == EndAfter(arrivalTimes, svc, N)
    ensures areaBusy == Sum(svc[..N])
    ensures areaQueue == Sum(Waits(arrivalTimes, svc, N))
  {
    currentTime := 0.0;
    var queue: seq<real> := [];
    var serverBusy := false;
    var eventList: seq<Event> := [];
    var lastEventTime := 0.0;
    var nextArrivalIndex: nat := 0;
    var numCustomersServed: nat := 0;
    areaQueue := 0.0;
    areaBusy := 0.0;
    waitTimes := [];
    responseTimes := [];

    eventList := Insert(eventList, Event(arrivalTimes[nextArrivalIndex], Arrival));
    ghost var s := State(eventList, queue, serverBusy, lastEventTime, areaQueue, areaBusy,
                         numCustomersServed, waitTimes, responseTimes);
    assert s == Initial(arrivalTimes);
    InitialInv(arrivalTimes, svc, N);

    while numCustomersServed < N
      invariant s == State(eventList, queue, serverBusy, lastEventTime, areaQueue, areaBusy,
                           numCustomersServed, waitTimes, responseTimes)
      invariant Inv(s, arrivalTimes, svc, N)
      invariant currentTime == lastEventTime
      invariant nextArrivalIndex == Admitted(s)
      decreases Measure(s, N)
    {
      Progress(s, arrivalTimes, svc, N);
      ghost var before := s;
      HeadReady(before, arrivalTimes, svc, N);
      eventList, queue, serverBusy, lastEventTime, areaQueue, areaBusy, numCustomersServed,
        waitTimes, responseTimes, nextArrivalIndex :=
        Advance(eventList, queue, serverBusy, lastEventTime, areaQueue, areaBusy, numCustomersServed,
                waitTimes, responseTimes, nextArrivalIndex, s, arrivalTimes, serviceRate, root,
                serviceDraws, N, svc);
      s := State(eventList, queue, serverBusy, lastEventTime, areaQueue, areaBusy,
                 numCustomersServed, waitTimes, responseTimes);
      currentTime := lastEventTime;
      if before.eventList[0].kind == Arrival {
        ArrivalKeepsInv(before, s, arrivalTimes, svc, N);
      } else {
        DepartureKeepsInv(before, s, arrivalTimes, svc, N);
      }
    }

    Finished(s, arrivalTimes, svc, N);
  }

  /** One pass of the main loop: pop the earliest event, advance the time integrals and the
      clock to it, and handle it. */
  method Advance(eventList: seq<Event>, queue: seq<real>, serverBusy: bool, lastEventTime: real,
                 areaQueue: real, areaBusy: real, numCustomersServed: nat,
                 waitTimes: seq<real>, responseTimes: seq<real>, nextArrivalIndex: nat,
                 ghost s: State, arrivalTimes: seq<real>, serviceRate: real, root: real,
                 serviceDraws: seq<HyperDraw>, N: nat, ghost svc: seq<real>)
    returns (eventList': seq<Event>, queue': seq<real>, serverBusy': bool, currentTime: real,
             areaQueue': real, areaBusy': real, numCustomersServed': nat,
             waitTimes': seq<real>, responseTimes': seq<real>, nextArrivalIndex': nat)
    requires 0.0 < serviceRate && IsSqrt(root, ServiceRootArgument)
    requires svc == ServiceTimes(serviceRate, root, serviceDraws)
    requires s == State(eventList, queue, serverBusy, lastEventTime, areaQueue, areaBusy,
                        numCustomersServed, waitTimes, responseTimes)
    requires eventList != [] && |arrivalTimes| == N
    requires s.eventList[0].kind == Arrival ==> Admitted(s) < N
    requires s.eventList[0].kind == Departure ==> s.serverBusy
    requires |s.waitTimes| == Started(s) <= Admitted(s) <= N <= |svc|
    requires nextArrivalIndex == Admitted(s)
    ensures var t := State(eventList', queue', serverBusy', currentTime, areaQueue', areaBusy',
                           numCustomersServed', waitTimes', responseTimes');
      && (s.eventList[0].kind == Arrival ==> ArrivalHandled(s, t, arrivalTimes, svc, N))
      && (s.eventList[0].kind == Departure ==> DepartureHandled(s, t, svc))
      && (nextArrivalIndex' == Admitted(t))
  {
    var eventTime, eventType := eventList[0].time, eventList[0].kind;
    eventList' := eventList[1..];
    var timeSinceLast := eventTime - lastEventTime;
    areaQueue' := areaQueue + Scaled(|queue|, timeSinceLast);
    areaBusy' := areaBusy + Scaled(if serverBusy then 1 else 0, timeSinceLast);
    currentTime := eventTime;

    if eventType == Arrival {
      eventList', queue', serverBusy', waitTimes', responseTimes', nextArrivalIndex' :=
        HandleArrival(eventList', queue, serverBusy, waitTimes, responseTimes, nextArrivalIndex,
                      currentTime, arrivalTimes, serviceRate, root, serviceDraws);
      numCustomersServed' := numCustomersServed;
    } else {
      eventList', queue', serverBusy', waitTimes', responseTimes', numCustomersServed' :=
        HandleDeparture(eventList', queue, serverBusy, waitTimes, responseTimes, numCustomersServed,
                        currentTime, serviceRate, root, serviceDraws);
      nextArrivalIndex' := nextArrivalIndex;
    }
  }

  /** The ARRIVAL branch: an idle server starts the customer at once (wait 0) with a fresh
      service draw and schedules its departure, a busy one appends it to the line; then the
      cursor moves on and the next pre-generated arrival, if any, is pushed. */
  method HandleArrival(eventList: seq<Event>, queue: seq<real>, serverBusy: bool,
                       waitTimes: seq<real>, responseTimes: seq<real>, nextArrivalIndex: nat,
                       currentTime: real, arrivalTimes: seq<real>,
                       serviceRate: real, root: real, serviceDraws: seq<HyperDraw>)
    returns (events: seq<Event>, line: seq<real>, busy: bool,
             waits: seq<real>, responses: seq<real>, nextIndex: nat)
    requires 0.0 < serviceRate && IsSqrt(root, ServiceRootArgument)
    requires !serverBusy ==> |waitTimes| < |serviceDraws|
    ensures busy && nextIndex == nextArrivalIndex + 1
    ensures !serverBusy ==>
              var service := ServiceTime(serviceRate, root, serviceDraws[|waitTimes|]);
              && line == queue && waits == waitTimes + [0.0]
              && responses == responseTimes + [service]
              && events == ScheduleNextArrival(Insert(eventList, Event(currentTime + service, Departure)),
                                               nextIndex, arrivalTimes, |arrivalTimes|)
    ensures serverBusy ==>
              && line == queue + [currentTime] && waits == waitTimes && responses == responseTimes
              && events == ScheduleNextArrival(eventList, nextIndex, arrivalTimes, |arrivalTimes|)
  {
    events, line, busy, waits, responses := eventList, queue, serverBusy, waitTimes, responseTimes;
    if !busy {
      busy := true;
      var serviceTime := ServiceTime(serviceRate, root, serviceDraws[|waits|]);
      responses := responses + [serviceTime];
      waits := waits + [0.0];
      events := Insert(events, Event(currentTime + serviceTime, Departure));
    } else {
      line := line + [currentTime];
    }
    nextIndex := nextArrivalIndex + 1;
    if nextIndex < |arrivalTimes| {
      var nextArrival := arrivalTimes[nextIndex];
      events := Insert(events, Event(nextArrival, Arrival));
    }
  }

  /** The DEPARTURE branch: one more customer served; the oldest waiting customer, if any,
      starts at once with a fresh service draw, having waited since its arrival, otherwise
      the server goes idle. */
  method HandleDeparture(eventList: seq<Event>, queue: seq<real>, serverBusy: bool,
                         waitTimes: seq<real>, responseTimes: seq<real>, numCustomersServed: nat,
                         currentTime: real, serviceRate: real, root: real,
                         serviceDraws: seq<HyperDraw>)
    returns (events: seq<Event>, line: seq<real>, busy: bool,
             waits: seq<real>, responses: seq<real>, served: nat)
    requires 0.0 < serviceRate && IsSqrt(root, ServiceRootArgument)
    requires queue != [] ==> |waitTimes| < |serviceDraws|
    ensures served == numCustomersServed + 1
    ensures queue != [] ==>
              var wait := currentTime - queue[0];
              var service := ServiceTime(serviceRate, root, serviceDraws[|waitTimes|]);
              && busy == serverBusy && line == queue[1..]
              && waits == waitTimes + [wait]
              && responses == responseTimes + [wait + service]
              && events == Insert(eventList, Event(currentTime + service, Departure))
    ensures queue == [] ==>
              !busy && line == queue && waits == waitTimes && responses == responseTimes
              && events == eventList
  {
    events, line, busy, waits, responses := eventList, queue, serverBusy, waitTimes, responseTimes;
    served := numCustomersServed + 1;
    if line != [] {
      var arrivalTime := line[0];
      line := line[1..];
      var waitTime := currentTime - arrivalTime;
      var serviceTime := ServiceTime(serviceRate, root, serviceDraws[|waits|]);
      waits := waits + [waitTime];
      responses := responses + [waitTime + serviceTime];
      events := Insert(events, Event(currentTime + serviceTime, Departure));
    } else {
      busy := false;
    }
  }
}
