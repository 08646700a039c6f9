/** The G/M/1 simulator of G-M-1/gm1.py (the live code from line 172 on): arrivals with
    hyperexponential gaps (mean 1/lambda, standard deviation three times the mean) are all
    generated first, then `run_simulation` runs the event loop over them and reports the
    average wait and response time with their confidence margins, the time-average queue
    length and the measured utilization.

    Random numbers are parameters: one `HyperDraw` per arrival gap, and the service times
    `exp_rv(1 / service_rate)` returns, in the order services start. */
module GM1 {
  import opened Outcomes
  import opened Sums
  import opened EventList
  import opened Lindley
  import opened Station
  import opened Variates
  import opened SampleStats
  import opened Summary

  /** For hyperx(mean, 3 * mean), z = 9 and the square-root argument is (9 - 1) / (9 + 1). */
  const ArrivalRootArgument: real := 0.8

  /** With a positive mean, hyperx(mean, 3 * mean) always succeeds and, given a non-negative
      unit exponential, returns a non-negative gap. */
  lemma ArrivalHyperx(mean: real, root: real, d: HyperDraw)
    requires 0.0 < mean && IsSqrt(root, ArrivalRootArgument)
    ensures RootSupplied(mean, 3.0 * mean, root)
    ensures Hyperx(mean, 3.0 * mean, root, d).Ok?
    ensures 0.0 <= d.e ==> 0.0 <= Hyperx(mean, 3.0 * mean, root, d).value
  {
    assert (3.0 * mean) / mean == 3.0;
    assert CvSquared(mean, 3.0 * mean) == 9.0;
    assert RootArgument(mean, 3.0 * mean) == ArrivalRootArgument;
  }

  /** With a negative mean the hyperx guard fails: 3 * mean <= mean. */
  lemma NegativeMeanRejected(mean: real, root: real, d: HyperDraw)
    requires mean < 0.0
    ensures RootSupplied(mean, 3.0 * mean, root)
    ensures Hyperx(mean, 3.0 * mean, root, d) == Err(InvalidDistribution)
  {
  }

  function InterArrivalTime(mean: real, root: real, d: HyperDraw): real
    requires 0.0 < mean && IsSqrt(root, ArrivalRootArgument)
  {
    ArrivalHyperx(mean, root, d);
    Hyperx(mean, 3.0 * mean, root, d).value
  }

  function InterArrivalTimes(mean: real, root: real, draws: seq<HyperDraw>): (r: seq<real>)
    requires 0.0 < mean && IsSqrt(root, ArrivalRootArgument)
    ensures |r| == |draws|
  {
    seq(|draws|, i requires 0 <= i < |draws| => InterArrivalTime(mean, root, draws[i]))
  }

  /** The arrival instants generate_arrival_times produces for a positive rate: running sums
      of the gaps. */
  function ArrivalTimes(lambda: real, root: real, draws: seq<HyperDraw>): (r: seq<real>)
    requires 0.0 < lambda && IsSqrt(root, ArrivalRootArgument)
    ensures |r| == |draws|
  {
    CumSums(InterArrivalTimes(1.0 / lambda, root, draws))
  }

  /** The arrival instants start at or after time 0 and never decrease. */
  lemma ArrivalTimesOrdered(lambda: real, root: real, draws: seq<HyperDraw>)
    requires 0.0 < lambda && IsSqrt(root, ArrivalRootArgument) && UnitDraws(draws)
    ensures NonDecreasing(ArrivalTimes(lambda, root, draws))
    ensures |draws| > 0 ==> 0.0 <= ArrivalTimes(lambda, root, draws)[0]
  {
    var gaps := InterArrivalTimes(1.0 / lambda, root, draws);
    forall i | 0 <= i < |gaps|
      ensures 0.0 <= gaps[i]
    {
      ArrivalHyperx(1.0 / lambda, root, draws[i]);
    }
    CumSumsNonDecreasing(gaps);
  }

  /** generate_arrival_times: `1 / lambda_value` divides by zero for a zero rate; a negative
      rate fails the hyperx guard at the first draw; otherwise the result is the running sums
      of numArrivals hyperexponential gaps. */
  method GenerateArrivalTimes(lambda: real, numArrivals: nat, root: real, draws: seq<HyperDraw>)
    returns (r: Result<seq<real>>)
    requires numArrivals <= |draws| && IsSqrt(root, ArrivalRootArgument)
    ensures lambda == 0.0 ==> r == Err(ZeroDivision)
    ensures lambda < 0.0 ==> r == if numArrivals == 0 then Ok([]) else Err(InvalidDistribution)
    ensures 0.0 < lambda ==> r == Ok(ArrivalTimes(lambda, root, draws[..numArrivals]))
  {
    if lambda == 0.0 {
      return Err(ZeroDivision);
    }
    var arrivalTimes: seq<real> := [];
    var currentTime := 0.0;
    var mean := 1.0 / lambda;
    var std := 3.0 * mean;
    for i := 0 to numArrivals
      invariant 0.0 < lambda ==> 0.0 < mean
      invariant 0.0 < lambda ==> arrivalTimes == CumSums(InterArrivalTimes(mean, root, draws[..i]))
      invariant 0.0 < lambda ==> currentTime == Sum(InterArrivalTimes(mean, root, draws[..i]))
      invariant lambda < 0.0 ==> mean < 0.0 && i == 0 && arrivalTimes == []
    {
      if mean < 0.0 {
        NegativeMeanRejected(mean, root, draws[i]);
      } else {
        ArrivalHyperx(mean, root, draws[i]);
      }
      var interArrivalTime := Hyperx(mean, std, root, draws[i]);
      if interArrivalTime.Err? {
        return Err(interArrivalTime.error);
      }
      ghost var gaps := InterArrivalTimes(mean, root, draws[..i]);
      assert InterArrivalTimes(mean, root, draws[..i + 1]) == gaps + [interArrivalTime.value];
      CumSumsAppend(gaps, interArrivalTime.value);
      SumAppend(gaps, interArrivalTime.value);
      currentTime := currentTime + interArrivalTime.value;
      arrivalTimes := arrivalTimes + [currentTime];
    }
    return Ok(arrivalTimes);
  }

  /** confidence_interval: the sample mean, and the squared 95% margin, zero for a single
      observation; `statistics.mean` of no data fails. */
  function ConfidenceInterval(data: seq<real>): (r: Result<Estimate>)
    ensures r.Err? <==> |data| == 0
    ensures r.Err? ==> r.error == NotEnoughData
    ensures r.Ok? ==> r.value.mean * |data| as real == Sum(data)
    ensures r.Ok? && |data| <= 1 ==> r.value.marginSquared == 0.0
    ensures r.Ok? ==> 0.0 <= r.value.marginSquared
  {
    if |data| == 0 then Err(NotEnoughData)
    else Ok(Estimate(Mean(data), if |data| > 1 then MarginSquared(data) else 0.0))
  }

  /** What the end of run_simulation reports for n > 0 customers with arrival instants arr
      and service times svc: the estimates of the waits and response times, then the two
      time averages over the run, which ends at the last departure. */
  function Report(arr: seq<real>, svc: seq<real>, n: nat): Result<Metrics>
    requires 0 < n && n <= |arr| && n <= |svc|
  {
    var w := ConfidenceInterval(Waits(arr, svc, n));
    var rt := ConfidenceInterval(Responses(arr, svc, n));
    Summarize(arr, svc, n, w.value, rt.value)
  }

  /** run_simulation, errors in the order the source meets them. */
  function Run(lambda: real, serviceRate: real, numCustomers: nat, root: real,
               arrivalDraws: seq<HyperDraw>, serviceTimes: seq<real>): Result<Metrics>
    requires IsSqrt(root, ArrivalRootArgument)
    requires numCustomers <= |arrivalDraws| && numCustomers <= |serviceTimes|
  {
    if lambda == 0.0 then Err(ZeroDivision)
    else if lambda < 0.0 && numCustomers > 0 then Err(InvalidDistribution)
    else if numCustomers == 0 then Err(IndexOutOfRange)
    else if serviceRate == 0.0 then Err(ZeroDivision)
    else Report(ArrivalTimes(lambda, root, arrivalDraws[..numCustomers]), serviceTimes, numCustomers)
  }

  /** The reported figures: the average response time is the average wait plus the average
      service time; the average queue length is the throughput n / T times the average wait;
      the utilization lies in [0, 1]; the averages and margins are non-negative. */
  lemma ReportFacts(arr: seq<real>, svc: seq<real>, n: nat)
    requires Workload(arr, svc, n) && 0 < n
    ensures Report(arr, svc, n).Ok? ==> Consistent(arr, svc, n, Report(arr, svc, n).value)
    ensures Report(arr, svc, n).Err? <==> EndAfter(arr, svc, n) == 0.0
  {
    var w := ConfidenceInterval(Waits(arr, svc, n));
    var rt := ConfidenceInterval(Responses(arr, svc, n));
    assert w.value.mean == Mean(Waits(arr, svc, n)) && rt.value.mean == Mean(Responses(arr, svc, n));
    SummarizeFacts(arr, svc, n, w.value, rt.value);
    assert Report(arr, svc, n) == Summarize(arr, svc, n, w.value, rt.value);
  }

  /** run_simulation: generate the arrivals, schedule the first one (an empty list has no
      first element), then pop events until num_customers have been served or nothing is
      pending. The loop is proved to be one `Step` per pass, so its samples and integrals are
      the Lindley ones. The first pass always starts a service, so a zero service rate fails
      there with `1 / service_rate`; the model tests it just before the loop. */
  method RunSimulation(lambda: real, serviceRate: real, numCustomers: nat, root: real,
                       arrivalDraws: seq<HyperDraw>, serviceTimes: seq<real>)
    returns (r: Result<Metrics>)
    requires IsSqrt(root, ArrivalRootArgument) && UnitDraws(arrivalDraws)
    requires numCustomers <= |arrivalDraws| && numCustomers <= |serviceTimes|
    requires AllNonNegative(serviceTimes)
    ensures r == Run(lambda, serviceRate, numCustomers, root, arrivalDraws, serviceTimes)
  {
    var generated := GenerateArrivalTimes(lambda, numCustomers, root, arrivalDraws);
    if generated.Err? {
      return Err(generated.error);
    }
    var arrivalTimes := generated.value;
    if |arrivalTimes| == 0 {
      return Err(IndexOutOfRange);
    }
    if serviceRate == 0.0 {
      return Err(ZeroDivision);
    }
    ArrivalTimesOrdered(lambda, root, arrivalDraws[..numCustomers]);
    assert Workload(arrivalTimes, serviceTimes, numCustomers);
    var currentTime, areaQueue, areaBusy, waitTimes, responseTimes :=
      EventLoop(arrivalTimes, serviceTimes, numCustomers);
    var timeTotal := currentTime;
    var waitEstimate := ConfidenceInterval(waitTimes);
    var responseEstimate := ConfidenceInterval(responseTimes);
    if timeTotal == 0.0 {
      return Err(ZeroDivision);
    }
    var avgQueueLength := areaQueue / timeTotal;
    var avgUtilization := areaBusy / timeTotal;
    r := Ok(Metrics(waitEstimate.value.mean, waitEstimate.value.marginSquared,
                    responseEstimate.value.mean, responseEstimate.value.marginSquared,
                    avgQueueLength, avgUtilization));
  }

  /** The event loop of run_simulation, from the first scheduled arrival until
      `num_customers` have been served or nothing is pending. Every pass is one `Step`, so
      at the end the samples and integrals are the Lindley ones. */
  method EventLoop(arrivalTimes: seq<real>, serviceTimes: seq<real>, N: nat)
    returns (currentTime: real, areaQueue: real, areaBusy: real,
             waitTimes: seq<real>, responseTimes: seq<real>)
    requires Workload(arrivalTimes, serviceTimes, N) && N > 0
    ensures waitTimes == Waits(arrivalTimes, serviceTimes, N)
    ensures responseTimes == Responses(arrivalTimes, serviceTimes, N)
    ensures currentTime == EndAfter(arrivalTimes, serviceTimes, N)
    ensures areaBusy == Sum(serviceTimes[..N])
    ensures areaQueue == Sum(Waits(arrivalTimes, serviceTimes, N))
  {
    currentTime := 0.0;
    var queue: seq<real> := [];
    var serverBusy := false;
    var eventList: seq<Event> := [];
    var lastEventTime := 0.0;
    var nextArrivalIndex: nat := 0;
    var numCustomersServed: nat := 0;
    areaQueue := 0.0;
    areaBusy := 0.0;
    waitTimes := [];
    responseTimes := [];

    eventList := Insert(eventList, Event(arrivalTimes[nextArrivalIndex], Arrival));
    ghost var s := State(eventList, queue, serverBusy, lastEventTime, areaQueue, areaBusy,
                         numCustomersServed, waitTimes, responseTimes);
    assert s == Initial(arrivalTimes);
    InitialInv(arrivalTimes, serviceTimes, N);

    while numCustomersServed < N && eventList != []
      invariant s == State(eventList, queue, serverBusy, lastEventTime, areaQueue, areaBusy,
                           numCustomersServed, waitTimes, responseTimes)
      invariant Inv(s, arrivalTimes, serviceTimes, N)
      invariant currentTime == lastEventTime
      invariant nextArrivalIndex == if Admitted(s) < N then Admitted(s) else N - 1
      decreases Measure(s, N)
    {
      ghost var before := s;
      HeadReady(before, arrivalTimes, serviceTimes, N);
      eventList, queue, serverBusy, lastEventTime, areaQueue, areaBusy, numCustomersServed,
        waitTimes, responseTimes, nextArrivalIndex :=
        Advance(eventList, queue, serverBusy, lastEventTime, areaQueue, areaBusy, numCustomersServed,
                waitTimes, responseTimes, nextArrivalIndex, s, arrivalTimes, serviceTimes, N);
      s := State(eventList, queue, serverBusy, lastEventTime, areaQueue, areaBusy,
                 numCustomersServed, waitTimes, responseTimes);
      currentTime := lastEventTime;
      if before.eventList[0].kind == Arrival {
        ArrivalKeepsInv(before, s, arrivalTimes, serviceTimes, N);
      } else {
        DepartureKeepsInv(before, s, arrivalTimes, serviceTimes, N);
      }
    }

    Progress(s, arrivalTimes, serviceTimes, N);
    Finished(s, arrivalTimes, serviceTimes, N);
  }

  /** One pass of the event loop: pop the earliest event, advance the time integrals and
      the clock to it, and handle it. `t` is the locals afterwards, related to `s`, the
      locals before, as `ArrivalHandled` or `DepartureHandled` describe. */
  method Advance(eventList: seq<Event>, queue: seq<real>, serverBusy: bool, lastEventTime: real,
                 areaQueue: real, areaBusy: real, numCustomersServed: nat,
                 waitTimes: seq<real>, responseTimes: seq<real>, nextArrivalIndex: nat,
                 ghost s: State, arrivalTimes: seq<real>, serviceTimes: seq<real>, N: nat)
    returns (eventList': seq<Event>, queue': seq<real>, serverBusy': bool, currentTime: real,
             areaQueue': real, areaBusy': real, numCustomersServed': nat,
             waitTimes': seq<real>, responseTimes': seq<real>, nextArrivalIndex': nat)
    requires s == State(eventList, queue, serverBusy, lastEventTime, areaQueue, areaBusy,
                        numCustomersServed, waitTimes, responseTimes)
    requires eventList != [] && |arrivalTimes| == N
    requires s.eventList[0].kind == Arrival ==> Admitted(s) < N
    requires s.eventList[0].kind == Departure ==> s.serverBusy
    requires |s.waitTimes| == Started(s) <= Admitted(s) <= N <= |serviceTimes|
    requires nextArrivalIndex == if Admitted(s) < N then Admitted(s) else N - 1
    ensures var t := State(eventList', queue', serverBusy', currentTime, areaQueue', areaBusy',
                           numCustomersServed', waitTimes', responseTimes');
      && (s.eventList[0].kind == Arrival ==> ArrivalHandled(s, t, arrivalTimes, serviceTimes, N))
      && (s.eventList[0].kind == Departure ==> DepartureHandled(s, t, serviceTimes))
      && (nextArrivalIndex' == if Admitted(t) < N then Admitted(t) else N - 1)
  {
    var eventTime, eventType := eventList[0].time, eventList[0].kind;
    eventList' := eventList[1..];
    var timeSinceLast := eventTime - lastEventTime;
    areaQueue' := areaQueue + Scaled(|queue|, timeSinceLast);
    areaBusy' := areaBusy + Scaled(if serverBusy then 1 else 0, timeSinceLast);
    currentTime := eventTime;

    if eventType == Arrival {
      eventList', queue', serverBusy', waitTimes', responseTimes', nextArrivalIndex' :=
        HandleArrival(eventList', queue, serverBusy, waitTimes, responseTimes, numCustomersServed,
                      nextArrivalIndex, currentTime, arrivalTimes, serviceTimes, N);
      numCustomersServed' := numCustomersServed;
    } else {
      eventList', queue', serverBusy', waitTimes', responseTimes', numCustomersServed' :=
        HandleDeparture(eventList', queue, serverBusy, waitTimes, responseTimes, numCustomersServed,
                        currentTime, serviceTimes);
      nextArrivalIndex' := nextArrivalIndex;
    }
  }

  /** The ARRIVAL branch of the loop: an idle server starts the customer at once (wait 0)
      and schedules its departure, a busy one appends it to the line; then the next
      arrival is scheduled while fewer than `num_customers` have arrived. */
  method HandleArrival(eventList: seq<Event>, queue: seq<real>, serverBusy: bool,
                       waitTimes: seq<real>, responseTimes: seq<real>, numCustomersServed: nat,
                       nextArrivalIndex: nat, currentTime: real,
                       arrivalTimes: seq<real>, serviceTimes: seq<real>, N: nat)
    returns (events: seq<Event>, line: seq<real>, busy: bool,
             waits: seq<real>, responses: seq<real>, nextIndex: nat)
    requires |arrivalTimes| == N
    requires !serverBusy ==> |waitTimes| < |serviceTimes|
    requires nextArrivalIndex == numCustomersServed + |queue| + (if serverBusy then 1 else 0) < N
    ensures busy
    ensures !serverBusy ==>
              && line == queue && waits == waitTimes + [0.0]
              && responses == responseTimes + [serviceTimes[|waitTimes|]]
              && events == ScheduleNextArrival(
                             Insert(eventList, Event(currentTime + serviceTimes[|waitTimes|], Departure)),
                             numCustomersServed + |queue| + 1, arrivalTimes, N)
    ensures serverBusy ==>
              && line == queue + [currentTime] && waits == waitTimes && responses == responseTimes
              && events == ScheduleNextArrival(eventList, numCustomersServed + |queue| + 2, arrivalTimes, N)
    ensures var admitted := numCustomersServed + |line| + 1;
            nextIndex == if admitted < N then admitted else N - 1
  {
    events, line, busy, waits, responses, nextIndex :=
      eventList, queue, serverBusy, waitTimes, responseTimes, nextArrivalIndex;
    if !busy {
      busy := true;
      var serviceTime := serviceTimes[|waits|];
      responses := responses + [serviceTime];
      waits := waits + [0.0];
      events := Insert(events, Event(currentTime + serviceTime, Departure));
    } else {
      line := line + [currentTime];
    }
    ghost var handled := events;
    assert !serverBusy ==> handled == Insert(eventList, Event(currentTime + serviceTimes[|waitTimes|], Departure));
    assert serverBusy ==> handled == eventList;
    var admitted := numCustomersServed + |line| + (if busy then 1 else 0);
    assert admitted == numCustomersServed + |queue| + (if serverBusy then 2 else 1);
    events, nextIndex := ScheduleNext(events, admitted, nextIndex, arrivalTimes, N);
    assert events == ScheduleNextArrival(handled, admitted, arrivalTimes, N);
  }

  /** "Schedule next arrival": while fewer than `num_customers` customers have arrived,
      advance the index and push that customer's arrival. */
  method ScheduleNext(eventList: seq<Event>, admitted: nat, nextArrivalIndex: nat,
                      arrivalTimes: seq<real>, N: nat)
    returns (events: seq<Event>, nextIndex: nat)
    requires |arrivalTimes| == N
    requires 0 < admitted <= N && nextArrivalIndex + 1 == admitted
    ensures events == ScheduleNextArrival(eventList, admitted, arrivalTimes, N)
    ensures nextIndex == if admitted < N then admitted else N - 1
  {
    events, nextIndex := eventList, nextArrivalIndex;
    if admitted < N {
      nextIndex := nextIndex + 1;
      if nextIndex < |arrivalTimes| {
        var nextArrival := arrivalTimes[nextIndex];
        events := Insert(events, Event(nextArrival, Arrival));
      }
    }
  }

  /** The DEPARTURE branch of the loop: one more customer served; the oldest waiting
      customer, if any, starts at once, having waited since its arrival, otherwise the
      server goes idle. */
  method HandleDeparture(eventList: seq<Event>, queue: seq<real>, serverBusy: bool,
                         waitTimes: seq<real>, responseTimes: seq<real>, numCustomersServed: nat,
                         currentTime: real, serviceTimes: seq<real>)
    returns (events: seq<Event>, line: seq<real>, busy: bool,
             waits: seq<real>, responses: seq<real>, served: nat)
    requires queue != [] ==> |waitTimes| < |serviceTimes|
    ensures served == numCustomersServed + 1
    ensures queue != [] ==>
              var wait := currentTime - queue[0];
              && busy == serverBusy && line == queue[1..]
              && waits == waitTimes + [wait]
              && responses == responseTimes + [wait + serviceTimes[|waitTimes|]]
              && events == Insert(eventList, Event(currentTime + serviceTimes[|waitTimes|], Departure))
    ensures queue == [] ==>
              !busy && line == queue && waits == waitTimes && responses == responseTimes
              && events == eventList
  {
    events, line, busy, waits, responses := eventList, queue, serverBusy, waitTimes, responseTimes;
    served := numCustomersServed + 1;
    if line != [] {
      var arrivalTime := line[0];
      line := line[1..];
      var waitTime := currentTime - arrivalTime;
      var serviceTime := serviceTimes[|waits|];
      waits := waits + [waitTime];
      responses := responses + [waitTime + serviceTime];
      events := Insert(events, Event(currentTime + serviceTime, Departure));
    } else {
      busy := false;
    }
  }
}
