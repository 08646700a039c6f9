/** One single-server FIFO station driven by an event list, as the three event-driven
    simulators run it (G-M-1/gm1.py, M-G-1/mg1.py, M-M-1/mm1.py). The state is the tuple
    of variables the loops mutate; `Step` is one pass of the loop body (pop the least
    event, close out the elapsed interval, apply the Idle/Busy transition, schedule the
    follow-on events). The customers are described by a workload: the arrival instants
    `arr` (pre-generated, or accumulated on the fly) and the service draws `svc` taken in
    the order services start.

    `Inv` ties every reachable state to the Lindley recursion: the waits recorded so far are
    exactly the Lindley waits, the pending departure is the Lindley departure of the
    customer in service, `area_busy` is the service work done and `area_queue` is the
    waiting time accumulated (a sample-path form of Little's law). */
module Station {
  import opened Sums
  import opened EventList
  import opened Lindley

  datatype State = State(
    eventList: seq<Event>,
    queue: seq<real>,          // arrival instants of the waiting customers, oldest first
    serverBusy: bool,
    lastEventTime: real,
    areaQueue: real,
    areaBusy: real,
    served: nat,               // num_customers_served
    waitTimes: seq<real>,
    responseTimes: seq<real>)

  function InService(s: State): nat
  {
    if s.serverBusy then 1 else 0
  }

  /** Customers whose service has started. */
  function Started(s: State): nat
  {
    s.served + InService(s)
  }

  /** Customers that have arrived: served + in service + queued, the quantity the
      scheduling guard compares with the target count. */
  function Admitted(s: State): nat
  {
    Started(s) + |s.queue|
  }

  /** What the loops need of their customers: n arrival instants in order from time 0 on,
      at least n non-negative service draws. */
  ghost predicate Workload(arr: seq<real>, svc: seq<real>, n: nat)
  {
    && |arr| == n
    && n <= |svc|
    && NonDecreasing(arr)
    && (n > 0 ==> 0.0 <= arr[0])
    && AllNonNegative(svc)
  }

  /** The state just before the loop: first arrival scheduled, everything else empty. */
  function Initial(arr: seq<real>): State
    requires |arr| > 0
  {
    State([Event(arr[0], Arrival)], [], false, 0.0, 0.0, 0.0, 0, [], [])
  }

  function PendingDeparture(s: State, arr: seq<real>, svc: seq<real>, n: nat): multiset<Event>
    requires Workload(arr, svc, n) && Admitted(s) <= n
  {
    if s.serverBusy then multiset{Event(EndAfter(arr, svc, s.served + 1), Departure)} else multiset{}
  }

  function PendingArrival(s: State, arr: seq<real>, n: nat): multiset<Event>
    requires |arr| == n
  {
    if Admitted(s) < n then multiset{Event(arr[Admitted(s)], Arrival)} else multiset{}
  }

  /** Head counts and the FIFO line. */
  ghost predicate LineInv(s: State, arr: seq<real>, n: nat)
    requires |arr| == n
  {
    && Admitted(s) <= n
    && (!s.serverBusy ==> s.queue == [])
    && s.queue == arr[Started(s)..Admitted(s)]
  }

  /** Per-customer samples, one per service start, equal to the Lindley values. */
  ghost predicate SamplesInv(s: State, arr: seq<real>, svc: seq<real>, n: nat)
    requires Workload(arr, svc, n) && Admitted(s) <= n
  {
    && s.waitTimes == Waits(arr, svc, Started(s))
    && s.responseTimes == Responses(arr, svc, Started(s))
  }

  /** The event list: one departure iff busy, one arrival iff customers remain to arrive. */
  ghost predicate EventsInv(s: State, arr: seq<real>, svc: seq<real>, n: nat)
    requires Workload(arr, svc, n) && Admitted(s) <= n
  {
    && Sorted(s.eventList)
    && multiset(s.eventList) == PendingDeparture(s, arr, svc, n) + PendingArrival(s, arr, n)
  }

  /** The clock stands between the last handled event and the next pending one. */
  ghost predicate ClockInv(s: State, arr: seq<real>, svc: seq<real>, n: nat)
    requires Workload(arr, svc, n) && Admitted(s) <= n
  {
    && 0.0 <= s.lastEventTime
    && (Admitted(s) > 0 ==> arr[Admitted(s) - 1] <= s.lastEventTime)
    && (Admitted(s) < n ==> s.lastEventTime <= arr[Admitted(s)])
    && (s.serverBusy ==>
          Start(arr, svc, s.served) <= s.lastEventTime <= EndAfter(arr, svc, s.served + 1))
    && (!s.serverBusy ==> EndAfter(arr, svc, s.served) <= s.lastEventTime)
    && (!s.serverBusy && s.served > 0 ==> s.lastEventTime == EndAfter(arr, svc, s.served))
  }

  /** The integrals: area_busy is the service work done so far, area_queue the waiting
      time accumulated so far by started and still-queued customers. */
  ghost predicate AreasInv(s: State, arr: seq<real>, svc: seq<real>, n: nat)
    requires Workload(arr, svc, n) && Admitted(s) <= n
  {
    && s.areaBusy == Sum(svc[..s.served])
                     + (if s.serverBusy then s.lastEventTime - Start(arr, svc, s.served) else 0.0)
    && s.areaQueue == Sum(s.waitTimes) + Scaled(|s.queue|, s.lastEventTime) - Sum(s.queue)
  }

  ghost predicate Inv(s: State, arr: seq<real>, svc: seq<real>, n: nat)
  {
    && Workload(arr, svc, n)
    && LineInv(s, arr, n)
    && SamplesInv(s, arr, svc, n)
    && EventsInv(s, arr, svc, n)
    && ClockInv(s, arr, svc, n)
    && AreasInv(s, arr, svc, n)
  }

  /** Arrivals still to be handled plus departures still to happen. */
  function Measure(s: State, n: nat): nat
    requires Admitted(s) <= n
  {
    (n - Admitted(s)) + (n - s.served)
  }

  /** What the popped event is: the next customer's arrival, or the departure of the
      customer in service. */
  lemma HeadFacts(s: State, arr: seq<real>, svc: seq<real>, n: nat)
    requires Workload(arr, svc, n) && Admitted(s) <= n
    requires EventsInv(s, arr, svc, n) && ClockInv(s, arr, svc, n) && |s.eventList| > 0
    ensures Sorted(s.eventList[1..])
    ensures s.eventList[0].kind == Arrival ==>
              Admitted(s) < n && s.eventList[0] == Event(arr[Admitted(s)], Arrival)
              && multiset(s.eventList[1..]) == PendingDeparture(s, arr, svc, n)
    ensures s.eventList[0].kind == Departure ==>
              s.serverBusy && s.eventList[0] == Event(EndAfter(arr, svc, s.served + 1), Departure)
              && multiset(s.eventList[1..]) == PendingArrival(s, arr, n)
    ensures s.lastEventTime <= s.eventList[0].time
    ensures forall e :: e in multiset(s.eventList[1..]) ==> s.eventList[0].time <= e.time
  {
    PopFacts(s.eventList);
    var d := Event(if s.serverBusy then EndAfter(arr, svc, s.served + 1) else 0.0, Departure);
    var a := Event(if Admitted(s) < n then arr[Admitted(s)] else 0.0, Arrival);
    PopOneOfTwo(s.eventList, s.serverBusy, d, Admitted(s) < n, a);
  }

  /** The part of `HeadFacts` that does not mention the remaining events' multiset. */
  lemma HeadKind(s: State, arr: seq<real>, svc: seq<real>, n: nat)
    requires Workload(arr, svc, n) && Admitted(s) <= n
    requires EventsInv(s, arr, svc, n) && ClockInv(s, arr, svc, n) && |s.eventList| > 0
    ensures Sorted(s.eventList[1..])
    ensures s.eventList[0].kind == Arrival ==>
              Admitted(s) < n && s.eventList[0] == Event(arr[Admitted(s)], Arrival)
    ensures s.eventList[0].kind == Departure ==>
              s.serverBusy && s.eventList[0] == Event(EndAfter(arr, svc, s.served + 1), Departure)
    ensures s.lastEventTime <= s.eventList[0].time
  {
    HeadFacts(s, arr, svc, n);
  }

  /** What one pass needs to be defined: the rest of the list stays ordered, an arrival
      is of a customer still to come, a departure finds the server busy, and a service
      that starts has its draw. */
  lemma HeadReady(s: State, arr: seq<real>, svc: seq<real>, n: nat)
    requires Inv(s, arr, svc, n) && |s.eventList| > 0
    ensures Sorted(s.eventList[1..])
    ensures s.eventList[0].kind == Arrival ==> Admitted(s) < n
    ensures s.eventList[0].kind == Departure ==> s.serverBusy
    ensures |s.waitTimes| == Started(s) <= Admitted(s) <= n <= |svc|
  {
    HeadKind(s, arr, svc, n);
  }

  /** One pass of the loop body. */
  function Step(s: State, arr: seq<real>, svc: seq<real>, n: nat): State
    requires Inv(s, arr, svc, n) && |s.eventList| > 0
  {
    assert Sorted(s.eventList[1..]) && (s.eventList[0].kind == Arrival ==> Admitted(s) < n)
           && (s.eventList[0].kind == Departure ==> s.serverBusy) by {
      HeadReady(s, arr, svc, n);
    }
    var ev := s.eventList[0];
    var rest := s.eventList[1..];
    var dt := ev.time - s.lastEventTime;
    var areaQueue := s.areaQueue + Scaled(|s.queue|, dt);
    var areaBusy := s.areaBusy + Scaled(InService(s), dt);
    var now := ev.time;
    match ev.kind
    case Arrival =>
      if !s.serverBusy then
        var service := svc[|s.waitTimes|];
        var events := Insert(rest, Event(now + service, Departure));
        State(ScheduleNextArrival(events, s.served + |s.queue| + 1, arr, n), s.queue, true,
              now, areaQueue, areaBusy, s.served, s.waitTimes + [0.0], s.responseTimes + [service])
      else
        var queue := s.queue + [now];
        State(ScheduleNextArrival(rest, s.served + |queue| + 1, arr, n), queue, true,
              now, areaQueue, areaBusy, s.served, s.waitTimes, s.responseTimes)
    case Departure =>
      if s.queue != [] then
        var wait := now - s.queue[0];
        var service := svc[|s.waitTimes|];
        State(Insert(rest, Event(now + service, Departure)), s.queue[1..], true,
              now, areaQueue, areaBusy, s.served + 1, s.waitTimes + [wait], s.responseTimes + [wait + service])
      else
        State(rest, s.queue, false, now, areaQueue, areaBusy, s.served + 1, s.waitTimes, s.responseTimes)
  }

  /** Schedule the arrival of customer `admitted` if the target count has not been reached. */
  function ScheduleNextArrival(events: seq<Event>, admitted: nat, arr: seq<real>, n: nat): seq<Event>
    requires |arr| == n
  {
    if admitted < n then Insert(events, Event(arr[admitted], Arrival)) else events
  }

  /** Scheduling keeps the list ordered and adds exactly the pending arrival, if any. */
  lemma ScheduleNextArrivalFacts(events: seq<Event>, admitted: nat, arr: seq<real>, n: nat)
    requires |arr| == n
    ensures Sorted(events) ==> Sorted(ScheduleNextArrival(events, admitted, arr, n))
    ensures multiset(ScheduleNextArrival(events, admitted, arr, n)) == multiset(events)
              + (if admitted < n then multiset{Event(arr[admitted], Arrival)} else multiset{})
  {
    if admitted < n {
      InsertContents(events, Event(arr[admitted], Arrival));
      if Sorted(events) {
        InsertSorted(events, Event(arr[admitted], Arrival));
      }
    }
  }

  /** The four shapes of one pass, written out field by field: the imperative loops match
      their local updates against these states, each of which again satisfies `Inv` and is
      closer to the end of the run. */
  lemma StepArrivalIdle(s: State, arr: seq<real>, svc: seq<real>, n: nat)
    requires Inv(s, arr, svc, n) && |s.eventList| > 0
    requires s.eventList[0].kind == Arrival && !s.serverBusy
    ensures |s.waitTimes| < |svc| && Sorted(s.eventList[1..])
    ensures var now := s.eventList[0].time;
            var dt := now - s.lastEventTime;
            var service := svc[|s.waitTimes|];
            var t := State(ScheduleNextArrival(Insert(s.eventList[1..], Event(now + service, Departure)),
                                               s.served + |s.queue| + 1, arr, n),
                           s.queue, true, now, s.areaQueue + Scaled(|s.queue|, dt), s.areaBusy + Scaled(0, dt),
                           s.served, s.waitTimes + [0.0], s.responseTimes + [service]);
            Step(s, arr, svc, n) == t
  {
    HeadReady(s, arr, svc, n);
  }

  lemma StepArrivalBusy(s: State, arr: seq<real>, svc: seq<real>, n: nat)
    requires Inv(s, arr, svc, n) && |s.eventList| > 0
    requires s.eventList[0].kind == Arrival && s.serverBusy
    ensures Sorted(s.eventList[1..])
    ensures var now := s.eventList[0].time;
            var dt := now - s.lastEventTime;
            var t := State(ScheduleNextArrival(s.eventList[1..], s.served + |s.queue| + 2, arr, n),
                           s.queue + [now], true, now, s.areaQueue + Scaled(|s.queue|, dt),
                           s.areaBusy + Scaled(1, dt), s.served, s.waitTimes, s.responseTimes);
            Step(s, arr, svc, n) == t
  {
    HeadReady(s, arr, svc, n);
  }

  lemma StepDepartureQueue(s: State, arr: seq<real>, svc: seq<real>, n: nat)
    requires Inv(s, arr, svc, n) && |s.eventList| > 0
    requires s.eventList[0].kind == Departure && s.queue != []
    ensures |s.waitTimes| < |svc| && Sorted(s.eventList[1..])
    ensures var now := s.eventList[0].time;
            var dt := now - s.lastEventTime;
            var wait := now - s.queue[0];
            var service := svc[|s.waitTimes|];
            var t := State(Insert(s.eventList[1..], Event(now + service, Departure)),
                           s.queue[1..], true, now, s.areaQueue + Scaled(|s.queue|, dt), s.areaBusy + Scaled(1, dt),
                           s.served + 1, s.waitTimes + [wait], s.responseTimes + [wait + service]);
            Step(s, arr, svc, n) == t
  {
    HeadReady(s, arr, svc, n);
  }

  lemma StepDepartureEmpty(s: State, arr: seq<real>, svc: seq<real>, n: nat)
    requires Inv(s, arr, svc, n) && |s.eventList| > 0
    requires s.eventList[0].kind == Departure && s.queue == []
    ensures var now := s.eventList[0].time;
            var dt := now - s.lastEventTime;
            var t := State(s.eventList[1..], s.queue, false, now, s.areaQueue + Scaled(0, dt),
                           s.areaBusy + Scaled(1, dt), s.served + 1, s.waitTimes, s.responseTimes);
            Step(s, arr, svc, n) == t
  {
    HeadReady(s, arr, svc, n);
  }

  /** The loop body as the imperative code performs it, relating the locals before a
      pass (`s`) to the locals after it (`t`): the earliest event is popped, both integrals
      grow by their integrand times the elapsed time and the clock moves to the event. */
  ghost predicate Popped(s: State, t: State)
  {
    && |s.eventList| > 0
    && t.lastEventTime == s.eventList[0].time
    && t.areaQueue == s.areaQueue + Scaled(|s.queue|, s.eventList[0].time - s.lastEventTime)
    && t.areaBusy == s.areaBusy + Scaled(if s.serverBusy then 1 else 0, s.eventList[0].time - s.lastEventTime)
  }

  /** The ARRIVAL branch: an idle server starts the customer with wait 0 and schedules its
      departure, a busy one appends its arrival time to the line; then the next arrival is
      scheduled. */
  ghost predicate ArrivalHandled(s: State, t: State, arr: seq<real>, svc: seq<real>, n: nat)
    requires |arr| == n
  {
    && Popped(s, t)
    && t.serverBusy && t.served == s.served
    && (!s.serverBusy ==>
          && |s.waitTimes| < |svc|
          && t.queue == s.queue && t.waitTimes == s.waitTimes + [0.0]
          && t.responseTimes == s.responseTimes + [svc[|s.waitTimes|]]
          && t.eventList == ScheduleNextArrival(
                              Insert(s.eventList[1..], Event(s.eventList[0].time + svc[|s.waitTimes|], Departure)),
                              s.served + |s.queue| + 1, arr, n))
    && (s.serverBusy ==>
          && t.queue == s.queue + [s.eventList[0].time]
          && t.waitTimes == s.waitTimes && t.responseTimes == s.responseTimes
          && t.eventList == ScheduleNextArrival(s.eventList[1..], s.served + |s.queue| + 2, arr, n))
  }

  /** The DEPARTURE branch: one more customer served; the head of the line, if any, starts
      at once having waited since its arrival, otherwise the server goes idle. */
  ghost predicate DepartureHandled(s: State, t: State, svc: seq<real>)
  {
    && Popped(s, t)
    && t.served == s.served + 1
    && (s.queue != [] ==>
          && |s.waitTimes| < |svc|
          && t.serverBusy == s.serverBusy && t.queue == s.queue[1..]
          && t.waitTimes == s.waitTimes + [s.eventList[0].time - s.queue[0]]
          && t.responseTimes == s.responseTimes + [(s.eventList[0].time - s.queue[0]) + svc[|s.waitTimes|]]
          && t.eventList == Insert(s.eventList[1..], Event(s.eventList[0].time + svc[|s.waitTimes|], Departure)))
    && (s.queue == [] ==>
          && !t.serverBusy && t.queue == s.queue && t.waitTimes == s.waitTimes
          && t.responseTimes == s.responseTimes && t.eventList == s.eventList[1..])
  }

  /** An arrival handled as the loop does it is the `Step`. */
  lemma ArrivalPass(s: State, t: State, arr: seq<real>, svc: seq<real>, n: nat)
    requires Inv(s, arr, svc, n) && |s.eventList| > 0 && s.eventList[0].kind == Arrival
    requires ArrivalHandled(s, t, arr, svc, n)
    ensures t == Step(s, arr, svc, n)
  {
    if s.serverBusy {
      StepArrivalBusy(s, arr, svc, n);
    } else {
      StepArrivalIdle(s, arr, svc, n);
    }
  }

  /** A departure handled as the loop does it is the `Step`: it keeps `Inv`, makes progress
      and leaves the number of admitted customers unchanged. */
  lemma DeparturePass(s: State, t: State, arr: seq<real>, svc: seq<real>, n: nat)
    requires Inv(s, arr, svc, n) && |s.eventList| > 0 && s.eventList[0].kind == Departure
    requires DepartureHandled(s, t, svc)
    ensures t == Step(s, arr, svc, n)
  {
    if s.queue != [] {
      StepDepartureQueue(s, arr, svc, n);
    } else {
      StepDepartureEmpty(s, arr, svc, n);
    }
  }

  // One pass keeps the invariant. Each transition is proved piece by piece, every piece
  // from the few facts about the state before (`s`) and after (`t`) that it needs.

  /** An idle server has served everyone admitted, so the arriving customer starts at once. */
  lemma IdleArrivalStarts(s: State, arr: seq<real>, svc: seq<real>, n: nat, now: real)
    requires Workload(arr, svc, n) && LineInv(s, arr, n) && ClockInv(s, arr, svc, n)
    requires !s.serverBusy && Admitted(s) < n && now == arr[Admitted(s)] && s.lastEventTime <= now
    ensures s.queue == [] && s.served == Admitted(s)
    ensures Start(arr, svc, s.served) == now
    ensures EndAfter(arr, svc, s.served + 1) == now + svc[s.served]
  {
    StartBounds(arr, svc, s.served);
  }

  lemma IdleArrivalLine(s: State, t: State, arr: seq<real>, svc: seq<real>, n: nat)
    requires Workload(arr, svc, n) && LineInv(s, arr, n) && SamplesInv(s, arr, svc, n)
    requires !s.serverBusy && Admitted(s) < n && Start(arr, svc, s.served) == arr[s.served]
    requires t.queue == [] && t.serverBusy && t.served == s.served
    requires t.waitTimes == s.waitTimes + [0.0]
    requires t.responseTimes == s.responseTimes + [svc[s.served]]
    ensures Admitted(t) == Admitted(s) + 1 <= n
    ensures LineInv(t, arr, n) && SamplesInv(t, arr, svc, n)
  {
  }

  lemma IdleArrivalEvents(s: State, t: State, arr: seq<real>, svc: seq<real>, n: nat)
    requires Workload(arr, svc, n) && |s.eventList| > 0
    requires !s.serverBusy && s.served == Admitted(s) < n
    requires Sorted(s.eventList[1..]) && multiset(s.eventList[1..]) == multiset{}
    requires EndAfter(arr, svc, s.served + 1) == s.eventList[0].time + svc[s.served]
    requires t.serverBusy && t.served == s.served && Admitted(t) == Admitted(s) + 1
    requires t.eventList == ScheduleNextArrival(
                              Insert(s.eventList[1..], Event(s.eventList[0].time + svc[s.served], Departure)),
                              s.served + 1, arr, n)
    ensures EventsInv(t, arr, svc, n)
  {
    var D := Event(s.eventList[0].time + svc[s.served], Departure);
    assert D == Event(EndAfter(arr, svc, s.served + 1), Departure);
    InsertFacts(s.eventList[1..], D);
    ScheduleNextArrivalFacts(Insert(s.eventList[1..], D), s.served + 1, arr, n);
  }

  lemma IdleArrivalClock(s: State, t: State, arr: seq<real>, svc: seq<real>, n: nat)
    requires Workload(arr, svc, n) && 0.0 <= s.lastEventTime
    requires s.served == Admitted(s) < n && Start(arr, svc, s.served) == arr[s.served]
    requires s.lastEventTime <= arr[s.served] == t.lastEventTime
    requires t.serverBusy && t.served == s.served && Admitted(t) == Admitted(s) + 1
    ensures ClockInv(t, arr, svc, n)
  {
    StartBounds(arr, svc, s.served);
  }

  lemma IdleArrivalAreas(s: State, t: State, arr: seq<real>, svc: seq<real>, n: nat)
    requires Workload(arr, svc, n) && Admitted(s) <= n && AreasInv(s, arr, svc, n)
    requires !s.serverBusy && s.queue == [] && s.served < n
    requires Admitted(t) <= n && t.serverBusy && t.served == s.served && t.queue == []
    requires t.lastEventTime == Start(arr, svc, s.served)
    requires t.waitTimes == s.waitTimes + [0.0]
    requires t.areaQueue == s.areaQueue + Scaled(0, t.lastEventTime - s.lastEventTime)
    requires t.areaBusy == s.areaBusy + Scaled(0, t.lastEventTime - s.lastEventTime)
    ensures AreasInv(t, arr, svc, n)
  {
    SumAppend(s.waitTimes, 0.0);
  }

  /** An arrival to an idle server: the customer starts at once (wait 0) and its departure
      is scheduled at its Lindley departure time. */
  lemma IdleArrivalKeepsInv(s: State, t: State, arr: seq<real>, svc: seq<real>, n: nat)
    requires Inv(s, arr, svc, n) && |s.eventList| > 0
    requires s.eventList[0].kind == Arrival && !s.serverBusy
    requires ArrivalHandled(s, t, arr, svc, n)
    ensures Admitted(t) == Admitted(s) + 1 && Inv(t, arr, svc, n)
  {
    HeadFacts(s, arr, svc, n);
    var now := s.eventList[0].time;
    IdleArrivalStarts(s, arr, svc, n, now);
    assert |s.waitTimes| == s.served;
    IdleArrivalLine(s, t, arr, svc, n);
    IdleArrivalEvents(s, t, arr, svc, n);
    IdleArrivalClock(s, t, arr, svc, n);
    IdleArrivalAreas(s, t, arr, svc, n);
  }

  lemma BusyArrivalLine(s: State, t: State, arr: seq<real>, svc: seq<real>, n: nat)
    requires Workload(arr, svc, n) && LineInv(s, arr, n) && SamplesInv(s, arr, svc, n)
    requires s.serverBusy && Admitted(s) < n
    requires t.queue == s.queue + [arr[Admitted(s)]] && t.serverBusy && t.served == s.served
    requires t.waitTimes == s.waitTimes && t.responseTimes == s.responseTimes
    ensures Admitted(t) == Admitted(s) + 1 <= n
    ensures LineInv(t, arr, n) && SamplesInv(t, arr, svc, n)
  {
    assert t.queue == arr[Started(s)..Admitted(s) + 1];
  }

  lemma BusyArrivalEvents(s: State, t: State, arr: seq<real>, svc: seq<real>, n: nat)
    requires Workload(arr, svc, n) && |s.eventList| > 0 && Admitted(s) < n
    requires s.serverBusy && Sorted(s.eventList[1..])
    requires multiset(s.eventList[1..]) == PendingDeparture(s, arr, svc, n)
    requires t.serverBusy && t.served == s.served && Admitted(t) == Admitted(s) + 1
    requires t.eventList == ScheduleNextArrival(s.eventList[1..], Admitted(s) + 1, arr, n)
    ensures EventsInv(t, arr, svc, n)
  {
    ScheduleNextArrivalFacts(s.eventList[1..], Admitted(s) + 1, arr, n);
  }

  lemma BusyArrivalClock(s: State, t: State, arr: seq<real>, svc: seq<real>, n: nat)
    requires Workload(arr, svc, n) && Admitted(s) < n && ClockInv(s, arr, svc, n)
    requires s.serverBusy && s.served < Admitted(s)
    requires s.lastEventTime <= arr[Admitted(s)] <= EndAfter(arr, svc, s.served + 1)
    requires t.lastEventTime == arr[Admitted(s)]
    requires t.serverBusy && t.served == s.served && Admitted(t) == Admitted(s) + 1
    ensures ClockInv(t, arr, svc, n)
  {
  }

  lemma JoinAreas(s: State, t: State, arr: seq<real>, svc: seq<real>, n: nat, now: real)
    requires Workload(arr, svc, n) && Admitted(s) <= n && Admitted(t) <= n
    requires AreasInv(s, arr, svc, n)
    requires s.serverBusy && t.serverBusy && t.served == s.served && t.waitTimes == s.waitTimes
    requires t.queue == s.queue + [now] && t.lastEventTime == now
    requires t.areaQueue == s.areaQueue + Scaled(|s.queue|, now - s.lastEventTime)
    requires t.areaBusy == s.areaBusy + Scaled(1, now - s.lastEventTime)
    ensures AreasInv(t, arr, svc, n)
  {
    SumAppend(s.queue, now);
    ScaledDifference(|s.queue|, now, s.lastEventTime);
    assert Scaled(|t.queue|, now) == Scaled(|s.queue|, now) + now;
  }

  /** An arrival to a busy server joins the end of the line. */
  lemma BusyArrivalKeepsInv(s: State, t: State, arr: seq<real>, svc: seq<real>, n: nat)
    requires Inv(s, arr, svc, n) && |s.eventList| > 0
    requires s.eventList[0].kind == Arrival && s.serverBusy
    requires ArrivalHandled(s, t, arr, svc, n)
    ensures Admitted(t) == Admitted(s) + 1 && Inv(t, arr, svc, n)
  {
    HeadKind(s, arr, svc, n);
    BusyArrivalLine(s, t, arr, svc, n);
    JoinAreas(s, t, arr, svc, n, s.eventList[0].time);
    BusyArrivalSchedule(s, t, arr, svc, n);
  }

  lemma BusyArrivalSchedule(s: State, t: State, arr: seq<real>, svc: seq<real>, n: nat)
    requires Inv(s, arr, svc, n) && |s.eventList| > 0
    requires s.eventList[0].kind == Arrival && s.serverBusy
    requires ArrivalHandled(s, t, arr, svc, n) && Admitted(t) == Admitted(s) + 1 <= n
    ensures EventsInv(t, arr, svc, n) && ClockInv(t, arr, svc, n)
  {
    HeadFacts(s, arr, svc, n);
    var d := Event(EndAfter(arr, svc, s.served + 1), Departure);
    assert d in multiset(s.eventList) by {
      assert d in PendingDeparture(s, arr, svc, n);
    }
    HeadIsLeast(s.eventList, d);
    assert s.served < Admitted(s) && s.eventList[0].time == arr[Admitted(s)];
    BusyArrivalEvents(s, t, arr, svc, n);
    BusyArrivalClock(s, t, arr, svc, n);
  }

  /** The customer at the head of the line starts at the departure instant. */
  lemma QueueDepartureStarts(s: State, arr: seq<real>, svc: seq<real>, n: nat, now: real)
    requires Workload(arr, svc, n) && LineInv(s, arr, n) && ClockInv(s, arr, svc, n)
    requires s.serverBusy && s.queue != [] && s.lastEventTime <= now
    requires now == EndAfter(arr, svc, s.served + 1)
    ensures s.served + 2 <= Admitted(s) && s.queue[0] == arr[s.served + 1]
    ensures Start(arr, svc, s.served + 1) == now
    ensures EndAfter(arr, svc, s.served + 2) == now + svc[s.served + 1]
  {
    var k := s.served;
    assert s.queue[0] == arr[k + 1] && k + 2 <= Admitted(s);
    assert arr[k + 1] <= arr[Admitted(s) - 1];
    StartBounds(arr, svc, k + 1);
  }

  lemma QueueDepartureLine(s: State, t: State, arr: seq<real>, svc: seq<real>, n: nat)
    requires Workload(arr, svc, n) && LineInv(s, arr, n) && SamplesInv(s, arr, svc, n)
    requires s.serverBusy && s.queue != []
    requires t.queue == s.queue[1..] && t.serverBusy && t.served == s.served + 1
    requires t.waitTimes == s.waitTimes + [Wait(arr, svc, s.served + 1)]
    requires t.responseTimes == s.responseTimes + [Wait(arr, svc, s.served + 1) + svc[s.served + 1]]
    ensures Admitted(t) == Admitted(s)
    ensures LineInv(t, arr, n) && SamplesInv(t, arr, svc, n)
  {
  }

  lemma QueueDepartureEvents(s: State, t: State, arr: seq<real>, svc: seq<real>, n: nat)
    requires Workload(arr, svc, n) && |s.eventList| > 0 && Admitted(s) <= n
    requires s.serverBusy && s.served + 2 <= Admitted(s)
    requires Sorted(s.eventList[1..]) && multiset(s.eventList[1..]) == PendingArrival(s, arr, n)
    requires t.serverBusy && t.served == s.served + 1 && Admitted(t) == Admitted(s)
    requires t.eventList == Insert(s.eventList[1..], Event(EndAfter(arr, svc, s.served + 2), Departure))
    ensures EventsInv(t, arr, svc, n)
  {
    InsertFacts(s.eventList[1..], Event(EndAfter(arr, svc, s.served + 2), Departure));
  }

  lemma QueueDepartureClock(s: State, t: State, arr: seq<real>, svc: seq<real>, n: nat, now: real)
    requires Workload(arr, svc, n) && Admitted(s) <= n && s.served + 2 <= Admitted(s)
    requires 0.0 <= s.lastEventTime <= now && arr[Admitted(s) - 1] <= now
    requires Admitted(s) < n ==> now <= arr[Admitted(s)]
    requires now == Start(arr, svc, s.served + 1)
    requires t.lastEventTime == now && t.serverBusy && t.served == s.served + 1
    requires Admitted(t) == Admitted(s)
    ensures ClockInv(t, arr, svc, n)
  {
    StartBounds(arr, svc, s.served + 1);
  }

  lemma LeaveAreas(s: State, t: State, arr: seq<real>, svc: seq<real>, n: nat, now: real)
    requires Workload(arr, svc, n) && Admitted(s) <= n && Admitted(t) <= n
    requires AreasInv(s, arr, svc, n)
    requires s.serverBusy && t.serverBusy && t.served == s.served + 1 && s.queue != []
    requires t.waitTimes == s.waitTimes + [now - s.queue[0]]
    requires t.queue == s.queue[1..] && t.lastEventTime == now
    requires now == EndAfter(arr, svc, s.served + 1) == Start(arr, svc, s.served) + svc[s.served]
    requires Start(arr, svc, t.served) == now
    requires t.areaQueue == s.areaQueue + Scaled(|s.queue|, now - s.lastEventTime)
    requires t.areaBusy == s.areaBusy + Scaled(1, now - s.lastEventTime)
    ensures AreasInv(t, arr, svc, n)
  {
    LeaveQueueArea(s.areaQueue, s.waitTimes, s.queue, s.lastEventTime, now);
    LeaveBusyArea(s.areaBusy, svc, s.served, Start(arr, svc, s.served), s.lastEventTime, now);
  }

  /** The waiting area when the oldest waiting customer starts service at `now`: its wait
      moves from the queue term to the recorded waits. */
  lemma LeaveQueueArea(area: real, waits: seq<real>, queue: seq<real>, last: real, now: real)
    requires queue != []
    requires area == Sum(waits) + Scaled(|queue|, last) - Sum(queue)
    ensures area + Scaled(|queue|, now - last)
            == Sum(waits + [now - queue[0]]) + Scaled(|queue| - 1, now) - Sum(queue[1..])
  {
    SumAppend(waits, now - queue[0]);
    assert queue == [queue[0]] + queue[1..];
    SumCons(queue[0], queue[1..]);
    ScaledDifference(|queue|, now, last);
  }

  /** The busy area when the service that started at `start` ends at `now`. */
  lemma LeaveBusyArea(area: real, svc: seq<real>, k: nat, start: real, last: real, now: real)
    requires k < |svc| && now == start + svc[k]
    requires area == Sum(svc[..k]) + (last - start)
    ensures area + Scaled(1, now - last) == Sum(svc[..k + 1])
  {
    SumPrefixStep(svc, k);
  }

  /** A departure with customers waiting: the oldest starts at once, having waited since
      its arrival. */
  lemma QueueDepartureKeepsInv(s: State, t: State, arr: seq<real>, svc: seq<real>, n: nat)
    requires Inv(s, arr, svc, n) && |s.eventList| > 0
    requires s.eventList[0].kind == Departure && s.queue != []
    requires DepartureHandled(s, t, svc)
    ensures Admitted(t) == Admitted(s) && Inv(t, arr, svc, n)
  {
    HeadKind(s, arr, svc, n);
    var k := s.served;
    var now := s.eventList[0].time;
    QueueDepartureStarts(s, arr, svc, n, now);
    assert |s.waitTimes| == k + 1;
    assert now - s.queue[0] == Wait(arr, svc, k + 1);
    QueueDepartureLine(s, t, arr, svc, n);
    StartBounds(arr, svc, k);
    LeaveAreas(s, t, arr, svc, n, now);
    QueueDepartureSchedule(s, t, arr, svc, n);
  }

  lemma QueueDepartureSchedule(s: State, t: State, arr: seq<real>, svc: seq<real>, n: nat)
    requires Inv(s, arr, svc, n) && |s.eventList| > 0
    requires s.eventList[0].kind == Departure && s.queue != []
    requires DepartureHandled(s, t, svc) && Admitted(t) == Admitted(s)
    ensures EventsInv(t, arr, svc, n) && ClockInv(t, arr, svc, n)
  {
    HeadFacts(s, arr, svc, n);
    var now := s.eventList[0].time;
    QueueDepartureStarts(s, arr, svc, n, now);
    QueueDepartureEvents(s, t, arr, svc, n);
    if Admitted(s) < n {
      assert Event(arr[Admitted(s)], Arrival) in multiset(s.eventList[1..]);
    }
    QueueDepartureClock(s, t, arr, svc, n, now);
  }

  lemma EmptyDepartureEvents(s: State, t: State, arr: seq<real>, svc: seq<real>, n: nat)
    requires Workload(arr, svc, n) && |s.eventList| > 0 && Admitted(s) <= n
    requires Sorted(s.eventList[1..]) && multiset(s.eventList[1..]) == PendingArrival(s, arr, n)
    requires !t.serverBusy && Admitted(t) == Admitted(s) && t.eventList == s.eventList[1..]
    ensures EventsInv(t, arr, svc, n)
  {
  }

  lemma EmptyDepartureClock(s: State, t: State, arr: seq<real>, svc: seq<real>, n: nat, now: real)
    requires Workload(arr, svc, n) && Admitted(s) <= n && s.served < n
    requires 0.0 <= now && (Admitted(s) > 0 ==> arr[Admitted(s) - 1] <= now)
    requires Admitted(s) < n ==> now <= arr[Admitted(s)]
    requires now == EndAfter(arr, svc, s.served + 1)
    requires t.lastEventTime == now && !t.serverBusy && t.served == s.served + 1
    requires Admitted(t) == Admitted(s)
    ensures ClockInv(t, arr, svc, n)
  {
  }

  lemma EmptyDepartureAreas(s: State, t: State, arr: seq<real>, svc: seq<real>, n: nat, now: real)
    requires Workload(arr, svc, n) && Admitted(s) <= n && Admitted(t) <= n
    requires AreasInv(s, arr, svc, n)
    requires s.serverBusy && s.queue == [] && s.served < n
    requires !t.serverBusy && t.served == s.served + 1 && t.queue == [] && t.waitTimes == s.waitTimes
    requires now == EndAfter(arr, svc, s.served + 1) && t.lastEventTime == now
    requires t.areaQueue == s.areaQueue + Scaled(0, now - s.lastEventTime)
    requires t.areaBusy == s.areaBusy + Scaled(1, now - s.lastEventTime)
    ensures AreasInv(t, arr, svc, n)
  {
    StartBounds(arr, svc, s.served);
    SumPrefixStep(svc, s.served);
    assert Scaled(1, now - s.lastEventTime) == now - s.lastEventTime;
  }

  /** A departure with nobody waiting leaves the server idle. */
  lemma EmptyDepartureKeepsInv(s: State, t: State, arr: seq<real>, svc: seq<real>, n: nat)
    requires Inv(s, arr, svc, n) && |s.eventList| > 0
    requires s.eventList[0].kind == Departure && s.queue == []
    requires DepartureHandled(s, t, svc)
    ensures Admitted(t) == Admitted(s) && Inv(t, arr, svc, n)
  {
    HeadFacts(s, arr, svc, n);
    var now := s.eventList[0].time;
    assert Admitted(t) == Admitted(s) && Started(t) == Started(s);
    assert LineInv(t, arr, n) && SamplesInv(t, arr, svc, n);
    EmptyDepartureEvents(s, t, arr, svc, n);
    if Admitted(s) < n {
      assert Event(arr[Admitted(s)], Arrival) in multiset(s.eventList[1..]);
    }
    EmptyDepartureClock(s, t, arr, svc, n, now);
    EmptyDepartureAreas(s, t, arr, svc, n, now);
  }

  /** The pass never moves the clock or the integrals backwards. */
  lemma PoppedMonotone(s: State, t: State)
    requires Popped(s, t) && s.lastEventTime <= s.eventList[0].time
    ensures s.lastEventTime <= t.lastEventTime
    ensures s.areaQueue <= t.areaQueue && s.areaBusy <= t.areaBusy
  {
    var dt := s.eventList[0].time - s.lastEventTime;
    ScaledNonNegative(|s.queue|, dt);
    ScaledNonNegative(if s.serverBusy then 1 else 0, dt);
  }

  /** One pass of the loop, as the loop performs it, keeps the invariant, consumes one
      event (so the loop ends), never moves the clock or the integrals backwards, and
      counts an arrival as one more customer admitted and a departure as one more
      customer served. */
  lemma ArrivalKeepsInv(s: State, t: State, arr: seq<real>, svc: seq<real>, n: nat)
    requires Inv(s, arr, svc, n) && |s.eventList| > 0 && s.eventList[0].kind == Arrival
    requires ArrivalHandled(s, t, arr, svc, n)
    ensures Inv(t, arr, svc, n) && Measure(t, n) < Measure(s, n)
    ensures t.served == s.served && Admitted(t) == Admitted(s) + 1
    ensures s.lastEventTime <= t.lastEventTime
    ensures s.areaQueue <= t.areaQueue && s.areaBusy <= t.areaBusy
  {
    HeadKind(s, arr, svc, n);
    PoppedMonotone(s, t);
    if s.serverBusy {
      BusyArrivalKeepsInv(s, t, arr, svc, n);
    } else {
      IdleArrivalKeepsInv(s, t, arr, svc, n);
    }
  }

  lemma DepartureKeepsInv(s: State, t: State, arr: seq<real>, svc: seq<real>, n: nat)
    requires Inv(s, arr, svc, n) && |s.eventList| > 0 && s.eventList[0].kind == Departure
    requires DepartureHandled(s, t, svc)
    ensures Inv(t, arr, svc, n) && Measure(t, n) < Measure(s, n)
    ensures t.served == s.served + 1 && Admitted(t) == Admitted(s)
    ensures s.lastEventTime <= t.lastEventTime
    ensures s.areaQueue <= t.areaQueue && s.areaBusy <= t.areaBusy
  {
    HeadKind(s, arr, svc, n);
    PoppedMonotone(s, t);
    if s.queue != [] {
      QueueDepartureKeepsInv(s, t, arr, svc, n);
    } else {
      EmptyDepartureKeepsInv(s, t, arr, svc, n);
    }
  }

  /** The same for `Step`, the pass written as a function. */
  lemma StepPreservesInv(s: State, arr: seq<real>, svc: seq<real>, n: nat)
    requires Inv(s, arr, svc, n) && |s.eventList| > 0
    ensures var t := Step(s, arr, svc, n);
            && Inv(t, arr, svc, n) && Measure(t, n) < Measure(s, n)
            && s.lastEventTime <= t.lastEventTime
            && s.areaQueue <= t.areaQueue && s.areaBusy <= t.areaBusy
            && (s.eventList[0].kind == Arrival ==> t.served == s.served && Admitted(t) == Admitted(s) + 1)
            && (s.eventList[0].kind == Departure ==> t.served == s.served + 1 && Admitted(t) == Admitted(s))
  {
    var t := Step(s, arr, svc, n);
    if s.eventList[0].kind == Arrival {
      if s.serverBusy {
        StepArrivalBusy(s, arr, svc, n);
      } else {
        StepArrivalIdle(s, arr, svc, n);
      }
      assert ArrivalHandled(s, t, arr, svc, n);
      ArrivalKeepsInv(s, t, arr, svc, n);
    } else {
      HeadReady(s, arr, svc, n);
      if s.queue != [] {
        StepDepartureQueue(s, arr, svc, n);
      } else {
        StepDepartureEmpty(s, arr, svc, n);
      }
      assert DepartureHandled(s, t, svc);
      DepartureKeepsInv(s, t, arr, svc, n);
    }
  }

  /** Scheduling the first arrival establishes the invariant. */
  lemma InitialInv(arr: seq<real>, svc: seq<real>, n: nat)
    requires Workload(arr, svc, n) && n > 0
    ensures Inv(Initial(arr), arr, svc, n)
  {
    var s := Initial(arr);
    assert Admitted(s) == 0 && PendingDeparture(s, arr, svc, n) == multiset{};
    assert s.waitTimes == Waits(arr, svc, 0);
    assert Sum(svc[..0]) == 0.0 by { assert svc[..0] == []; }
  }

  /** While customers remain to be served an event is pending: the heap is never popped
      empty. */
  lemma Progress(s: State, arr: seq<real>, svc: seq<real>, n: nat)
    requires Inv(s, arr, svc, n)
    ensures s.served < n ==> |s.eventList| > 0
  {
    if s.served < n {
      var pending := PendingDeparture(s, arr, svc, n) + PendingArrival(s, arr, n);
      if s.serverBusy {
        assert Event(EndAfter(arr, svc, s.served + 1), Departure) in pending;
      } else {
        assert Event(arr[Admitted(s)], Arrival) in pending;
      }
      assert |multiset(s.eventList)| > 0;
    }
  }

  /** Once every customer has been served nothing is left: the server is idle, the line and
      the event list are empty, the samples are the Lindley waits and response times of all n
      customers, the clock stands at the last Lindley departure, area_busy is the total service
      time and area_queue the total wait. */
  lemma Finished(s: State, arr: seq<real>, svc: seq<real>, n: nat)
    requires Inv(s, arr, svc, n) && s.served >= n
    ensures s.served == n && !s.serverBusy && s.queue == [] && s.eventList == []
    ensures s.waitTimes == Waits(arr, svc, n) && s.responseTimes == Responses(arr, svc, n)
    ensures n > 0 ==> s.lastEventTime == EndAfter(arr, svc, n)
    ensures s.areaBusy == Sum(svc[..n])
    ensures s.areaQueue == Sum(Waits(arr, svc, n))
  {
    assert Admitted(s) == n && !s.serverBusy && s.queue == [];
    assert multiset(s.eventList) == multiset{};
    assert Scaled(0, s.lastEventTime) == 0.0;
  }

  /** The event list holds one departure exactly when the server is busy, one arrival exactly
      when a customer is still to arrive, and never two events of the same kind. */
  lemma PendingEvents(s: State, arr: seq<real>, svc: seq<real>, n: nat)
    requires Inv(s, arr, svc, n)
    ensures |s.eventList| == InService(s) + (if Admitted(s) < n then 1 else 0)
    ensures s.serverBusy <==> exists i :: 0 <= i < |s.eventList| && s.eventList[i].kind == Departure
    ensures Admitted(s) < n <==> exists i :: 0 <= i < |s.eventList| && s.eventList[i].kind == Arrival
    ensures forall i, j :: (0 <= i < |s.eventList| && 0 <= j < |s.eventList|
                            && s.eventList[i].kind == s.eventList[j].kind) ==> i == j
  {
    var q := s.eventList;
    assert |multiset(q)| == |q|;
    EventKinds(s, arr, svc, n);
    if s.serverBusy {
      assert Event(EndAfter(arr, svc, s.served + 1), Departure) in multiset(q);
    }
    if Admitted(s) < n {
      assert Event(arr[Admitted(s)], Arrival) in multiset(q);
    }
    EventsDistinct(s, arr, svc, n);
  }

  lemma EventKinds(s: State, arr: seq<real>, svc: seq<real>, n: nat)
    requires Workload(arr, svc, n) && Admitted(s) <= n && EventsInv(s, arr, svc, n)
    ensures forall i :: 0 <= i < |s.eventList| && s.eventList[i].kind == Departure ==>
              s.serverBusy && s.eventList[i] == Event(EndAfter(arr, svc, s.served + 1), Departure)
    ensures forall i :: 0 <= i < |s.eventList| && s.eventList[i].kind == Arrival ==>
              Admitted(s) < n && s.eventList[i] == Event(arr[Admitted(s)], Arrival)
  {
    var q := s.eventList;
    forall i | 0 <= i < |q|
      ensures q[i].kind == Departure ==> s.serverBusy && q[i] == Event(EndAfter(arr, svc, s.served + 1), Departure)
      ensures q[i].kind == Arrival ==> Admitted(s) < n && q[i] == Event(arr[Admitted(s)], Arrival)
    {
      assert q[i] in multiset(q);
    }
  }

  lemma EventsDistinct(s: State, arr: seq<real>, svc: seq<real>, n: nat)
    requires Workload(arr, svc, n) && Admitted(s) <= n && EventsInv(s, arr, svc, n)
    ensures forall i, j :: (0 <= i < |s.eventList| && 0 <= j < |s.eventList|
                            && s.eventList[i].kind == s.eventList[j].kind) ==> i == j
  {
    var q := s.eventList;
    EventKinds(s, arr, svc, n);
    forall i, j | 0 <= i < |q| && 0 <= j < |q| && q[i].kind == q[j].kind
      ensures i == j
    {
      if i != j {
        var lo, hi := if i < j then i else j, if i < j then j else i;
        TwoCopies(q, lo, hi);
      }
    }
  }

  /** One wait and one response time per service started; every wait is non-negative and
      every response time is that customer's wait plus its service time. The line holds only
      while the server is busy, oldest arrival first. */
  lemma Samples(s: State, arr: seq<real>, svc: seq<real>, n: nat)
    requires Inv(s, arr, svc, n)
    ensures |s.waitTimes| == |s.responseTimes| == Started(s)
    ensures forall i :: 0 <= i < |s.waitTimes| ==> 0.0 <= s.waitTimes[i]
    ensures forall i :: 0 <= i < |s.waitTimes| ==> s.responseTimes[i] == s.waitTimes[i] + svc[i]
    ensures s.queue != [] ==> s.serverBusy
    ensures forall i, j :: 0 <= i <= j < |s.queue| ==> s.queue[i] <= s.queue[j] <= s.lastEventTime
  {
    WaitsNonNegative(arr, svc, Started(s));
    forall i | 0 <= i < |s.waitTimes|
      ensures s.responseTimes[i] == s.waitTimes[i] + svc[i]
    {
      WaitsAt(arr, svc, Started(s), i);
    }
    forall i, j | 0 <= i <= j < |s.queue|
      ensures s.queue[i] <= s.queue[j] <= s.lastEventTime
    {
      assert s.queue[j] == arr[Started(s) + j] && s.queue[i] == arr[Started(s) + i];
      assert arr[Started(s) + j] <= arr[Admitted(s) - 1];
    }
  }
}
