/** The customer-by-customer M/M/1 simulator (`M-M-1/MM1V1.py`): every customer is
    generated up front with its arrival instant and service time, then the customers are
    served in order, each starting at the later of its arrival and the previous departure.
    The exponential draws are supplied by the caller as the standard exponential values
    -ln(1 - U); `random.expovariate(rate)` divides such a value by the rate. */
module MM1V1 {
  import opened Outcomes
  import opened Sums
  import opened Lindley

  /** `random.expovariate(rate)` given the standard exponential value e. */
  function Draw(rate: real, e: real): (x: real)
    requires rate != 0.0
    ensures x * rate == e
  {
    e / rate
  }

  /** The values drawn from `random.expovariate(rate)` for the standard draws `es`. */
  function Draws(rate: real, es: seq<real>): (xs: seq<real>)
    requires rate != 0.0
    ensures |xs| == |es|
  {
    seq(|es|, i requires 0 <= i < |es| => Draw(rate, es[i]))
  }

  lemma DrawsAppend(rate: real, es: seq<real>, k: nat)
    requires rate != 0.0 && k < |es|
    ensures Draws(rate, es[..k + 1]) == Draws(rate, es[..k]) + [Draw(rate, es[k])]
  {
  }

  /** A positive rate turns non-negative standard draws into non-negative values. */
  lemma DrawsNonNegative(rate: real, es: seq<real>)
    requires 0.0 < rate && AllNonNegative(es)
    ensures AllNonNegative(Draws(rate, es))
  {
    forall i | 0 <= i < |es|
      ensures 0.0 <= Draws(rate, es)[i]
    {
      assert Draws(rate, es)[i] * rate == es[i];
    }
  }

  /** The arrival instants `generate_clients` builds from a positive rate and non-negative
      standard draws start at or after time 0 and never decrease. */
  lemma GeneratedArrivalsOrdered(lam: real, es: seq<real>)
    requires 0.0 < lam && AllNonNegative(es)
    ensures NonDecreasing(CumSums(Draws(lam, es)))
    ensures |es| > 0 ==> 0.0 <= CumSums(Draws(lam, es))[0]
  {
    DrawsNonNegative(lam, es);
    CumSumsNonDecreasing(Draws(lam, es));
  }

  /** The server state shown for a customer: busy ("occupé") exactly when the customer
      had to wait, i.e. started after arriving. */
  datatype ServerState = Busy | Idle

  function StateSeen(arrival: real, start: real): (s: ServerState)
    ensures s == Busy <==> start - arrival > 0.0
    ensures s == Idle <==> start <= arrival
  {
    if arrival < start then Busy else Idle
  }

  /** Under the Lindley recursion the server is shown busy to customer i exactly when
      the previous customer had not yet left when i arrived. */
  lemma {:induction false} BusyIffPreviousNotGone(arr: seq<real>, svc: seq<real>, i: nat)
    requires i < |arr| && i < |svc|
    ensures StateSeen(arr[i], Start(arr, svc, i)) == Busy <==> arr[i] < EndAfter(arr, svc, i)
    ensures StateSeen(arr[i], Start(arr, svc, i)) == Busy <==> Wait(arr, svc, i) > 0.0
  {
    StartBounds(arr, svc, i);
  }

  class Client {
    const id: nat
    const arrivalTime: real
    const serviceTime: real
    var startServiceTime: real
    var endServiceTime: real

    constructor (clientId: nat, arrival: real, service: real)
      ensures id == clientId && arrivalTime == arrival && serviceTime == service
      ensures startServiceTime == 0.0 && endServiceTime == 0.0
    {
      id := clientId;
      arrivalTime := arrival;
      serviceTime := service;
      startServiceTime := 0.0;
      endServiceTime := 0.0;
    }

    /** Serve this customer after a server that is free from lastEndTime on: it starts
        no earlier than both, leaves its service time later, and its response time is
        its wait plus its service time. */
    method ComputeMetrics(lastEndTime: real) returns (waitingTime: real, responseTime: real)
      modifies this`startServiceTime, this`endServiceTime
      ensures startServiceTime == Max(arrivalTime, lastEndTime)
      ensures endServiceTime == startServiceTime + serviceTime
      ensures arrivalTime <= startServiceTime && lastEndTime <= startServiceTime
      ensures waitingTime == startServiceTime - arrivalTime && 0.0 <= waitingTime
      ensures responseTime == endServiceTime - arrivalTime
      ensures responseTime == waitingTime + serviceTime
    {
      startServiceTime := Max(arrivalTime, lastEndTime);
      endServiceTime := startServiceTime + serviceTime;
      waitingTime := startServiceTime - arrivalTime;
      responseTime := endServiceTime - arrivalTime;
    }
  }

  /** The arrival instants and the service times of a list of customers. */
  function ArrivalsOf(cs: seq<Client>): (r: seq<real>)
    ensures |r| == |cs|
  {
    seq(|cs|, i requires 0 <= i < |cs| => cs[i].arrivalTime)
  }

  function ServicesOf(cs: seq<Client>): (r: seq<real>)
    ensures |r| == |cs|
  {
    seq(|cs|, i requires 0 <= i < |cs| => cs[i].serviceTime)
  }

  /** The three results of `run`: average wait, average response time, utilization. */
  datatype Averages = Averages(avgWaiting: real, avgResponse: real, utilization: real)

  /** The closing arithmetic of `run`: both totals are divided by `total_customers` and
      the utilization is lam / mu; either division by zero raises ZeroDivisionError. */
  function Report(totalWaiting: real, totalResponse: real, lam: real, mu: real, total: nat)
    : (r: Result<Averages>)
    ensures r.Err? <==> total == 0 || mu == 0.0
    ensures r.Err? ==> r.error == ZeroDivision
    ensures r.Ok? ==> r.value.avgWaiting * total as real == totalWaiting
    ensures r.Ok? ==> r.value.avgResponse * total as real == totalResponse
    ensures r.Ok? ==> r.value.utilization * mu == lam
  {
    if total == 0 || mu == 0.0 then Err(ZeroDivision)
    else Ok(Averages(totalWaiting / total as real, totalResponse / total as real, lam / mu))
  }

  /** When the response total is the wait total plus the busy time and no wait is
      negative, the average response is the average wait plus the mean service time, and
      the average wait is non-negative. */
  lemma ReportFacts(totalWaiting: real, busy: real, lam: real, mu: real, total: nat)
    requires 0.0 <= totalWaiting
    ensures var r := Report(totalWaiting, totalWaiting + busy, lam, mu, total);
      r.Ok? ==> (r.value.avgResponse == r.value.avgWaiting + busy / total as real
                 && 0.0 <= r.value.avgWaiting)
  {
  }

  /** Over the customers of a run, the response total is the wait total plus the total
      service time, waits add up to a non-negative amount, and the last departure is
      never earlier than any earlier one. */
  lemma {:induction false} RunTotals(arr: seq<real>, svc: seq<real>)
    requires |arr| == |svc|
    ensures Sum(Responses(arr, svc, |arr|)) == Sum(Waits(arr, svc, |arr|)) + Sum(svc)
    ensures 0.0 <= Sum(Waits(arr, svc, |arr|))
  {
    ResponsesSum(arr, svc, |arr|);
    assert svc[..|arr|] == svc;
    WaitsNonNegative(arr, svc, |arr|);
    SumNonNegative(Waits(arr, svc, |arr|));
  }

  /** One more pair of standard draws extends the inter-arrival and service values by
      one each, and the arrival instants by the previous instant plus the new gap. */
  lemma NextDraws(lam: real, mu: real, arrivalDraws: seq<real>, serviceDraws: seq<real>, i: nat)
    requires lam != 0.0 && mu != 0.0 && i < |arrivalDraws| && i < |serviceDraws|
    ensures Draws(mu, serviceDraws[..i + 1]) == Draws(mu, serviceDraws[..i]) + [Draw(mu, serviceDraws[i])]
    ensures var gaps := Draws(lam, arrivalDraws[..i]);
      var x := Draw(lam, arrivalDraws[i]);
      && Draws(lam, arrivalDraws[..i + 1]) == gaps + [x]
      && CumSums(gaps + [x]) == CumSums(gaps) + [Sum(gaps) + x]
      && Sum(gaps + [x]) == Sum(gaps) + x
  {
    DrawsAppend(lam, arrivalDraws, i);
    DrawsAppend(mu, serviceDraws, i);
    CumSumsAppend(Draws(lam, arrivalDraws[..i]), Draw(lam, arrivalDraws[i]));
    SumAppend(Draws(lam, arrivalDraws[..i]), Draw(lam, arrivalDraws[i]));
  }

  lemma ClientsAppend(cs: seq<Client>, c: Client)
    ensures ArrivalsOf(cs + [c]) == ArrivalsOf(cs) + [c.arrivalTime]
    ensures ServicesOf(cs + [c]) == ServicesOf(cs) + [c.serviceTime]
  {
  }

  lemma ClientsConcat(cs: seq<Client>, ds: seq<Client>)
    ensures ArrivalsOf(cs + ds) == ArrivalsOf(cs) + ArrivalsOf(ds)
    ensures ServicesOf(cs + ds) == ServicesOf(cs) + ServicesOf(ds)
  {
  }

  class MM1Simulation {
    const lam: real
    const mu: real
    const totalCustomers: nat
    var clients: seq<Client>

    /** No customer object appears twice in the list. */
    ghost predicate Valid()
      reads this
    {
      forall i, j :: 0 <= i < j < |clients| ==> clients[i] != clients[j]
    }

    constructor (lam: real, mu: real, totalCustomers: nat)
      ensures this.lam == lam && this.mu == mu && this.totalCustomers == totalCustomers
      ensures clients == [] && Valid()
    {
      this.lam := lam;
      this.mu := mu;
      this.totalCustomers := totalCustomers;
      clients := [];
    }

    /** Appends `total_customers` new customers numbered 0, 1, ... whose arrival
        instants are the running sums of the inter-arrival draws (restarting from 0) and
        whose service times are the service draws. A zero rate makes the first draw
        raise ZeroDivisionError before anything is appended (ok is false). */
    method GenerateClients(arrivalDraws: seq<real>, serviceDraws: seq<real>) returns (ok: bool)
      requires Valid()
      requires totalCustomers <= |arrivalDraws| && totalCustomers <= |serviceDraws|
      modifies this`clients
      ensures Valid()
      ensures ok <==> totalCustomers == 0 || (lam != 0.0 && mu != 0.0)
      ensures totalCustomers == 0 || !ok ==> clients == old(clients)
      ensures ok && totalCustomers > 0 ==>
        && |clients| == |old(clients)| + totalCustomers
        && clients[..|old(clients)|] == old(clients)
        && (forall i :: |old(clients)| <= i < |clients| ==>
              fresh(clients[i]) && clients[i].id == i - |old(clients)|)
        && ArrivalsOf(clients) == ArrivalsOf(old(clients))
                                  + CumSums(Draws(lam, arrivalDraws[..totalCustomers]))
        && ServicesOf(clients) == ServicesOf(old(clients))
                                  + Draws(mu, serviceDraws[..totalCustomers])
    {
      if totalCustomers > 0 && (lam == 0.0 || mu == 0.0) {
        return false;
      }
      ok := true;
      if totalCustomers == 0 {
        return;
      }
      ghost var before := clients;
      ghost var added: seq<Client> := [];
      var arrivalTime := 0.0;
      for i := 0 to totalCustomers
        invariant clients == before + added && |added| == i && Valid()
        invariant forall j :: 0 <= j < i ==> fresh(added[j]) && added[j].id == j
        invariant arrivalTime == Sum(Draws(lam, arrivalDraws[..i]))
        invariant ArrivalsOf(added) == CumSums(Draws(lam, arrivalDraws[..i]))
        invariant ServicesOf(added) == Draws(mu, serviceDraws[..i])
      {
        var interArrival := Draw(lam, arrivalDraws[i]);
        var serviceTime := Draw(mu, serviceDraws[i]);
        NextDraws(lam, mu, arrivalDraws, serviceDraws, i);
        arrivalTime := arrivalTime + interArrival;
        var c := new Client(i, arrivalTime, serviceTime);
        AddClient(c);
        ClientsAppend(added, c);
        added := added + [c];
      }
      ClientsConcat(before, added);
    }

    /** The serving loop of `run`: every customer in the list, in order, starts at the
        later of its arrival and the previous departure, and the returned totals are the
        sums of the waits and of the response times of the Lindley recursion. */
    method ServeAll() returns (totalWaiting: real, totalResponse: real)
      requires Valid()
      modifies clients
      ensures var arr, svc := ArrivalsOf(clients), ServicesOf(clients);
        && (forall i :: 0 <= i < |clients| ==>
              clients[i].startServiceTime == Start(arr, svc, i)
              && clients[i].endServiceTime == EndAfter(arr, svc, i + 1))
        && totalWaiting == Sum(Waits(arr, svc, |arr|))
        && totalResponse == Sum(Responses(arr, svc, |arr|))
    {
      ghost var arr, svc := ArrivalsOf(clients), ServicesOf(clients);
      var lastEndTime := 0.0;
      totalWaiting, totalResponse := 0.0, 0.0;
      for k := 0 to |clients|
        invariant lastEndTime == EndAfter(arr, svc, k)
        invariant totalWaiting == Sum(Waits(arr, svc, k))
        invariant totalResponse == Sum(Responses(arr, svc, k))
        invariant forall i :: 0 <= i < k ==>
                    clients[i].startServiceTime == Start(arr, svc, i)
                    && clients[i].endServiceTime == EndAfter(arr, svc, i + 1)
      {
        var waitingTime, responseTime := ServeNext(k, lastEndTime, arr, svc);
        lastEndTime := clients[k].endServiceTime;
        totalWaiting := totalWaiting + waitingTime;
        totalResponse := totalResponse + responseTime;
        TotalsStep(arr, svc, k);
      }
    }

    /** One pass of the serving loop: customer k starts at the later of its arrival and
        the previous departure, which is its Lindley start; the customers before it keep
        the service times they were given; its wait and response time are the Lindley
        ones. */
    method ServeNext(k: nat, lastEndTime: real, ghost arr: seq<real>, ghost svc: seq<real>)
      returns (waitingTime: real, responseTime: real)
      requires Valid() && k < |clients| && arr == ArrivalsOf(clients) && svc == ServicesOf(clients)
      requires lastEndTime == EndAfter(arr, svc, k)
      requires forall i :: 0 <= i < k ==>
                 clients[i].startServiceTime == Start(arr, svc, i)
                 && clients[i].endServiceTime == EndAfter(arr, svc, i + 1)
      modifies clients[k]
      ensures forall i :: 0 <= i < k + 1 ==>
                clients[i].startServiceTime == Start(arr, svc, i)
                && clients[i].endServiceTime == EndAfter(arr, svc, i + 1)
      ensures waitingTime == Wait(arr, svc, k) && responseTime == Wait(arr, svc, k) + svc[k]
    {
      var client := clients[k];
      assert arr[k] == client.arrivalTime && svc[k] == client.serviceTime;
      label before:
      waitingTime, responseTime := client.ComputeMetrics(lastEndTime);
      forall i | 0 <= i < k + 1
        ensures clients[i].startServiceTime == Start(arr, svc, i)
        ensures clients[i].endServiceTime == EndAfter(arr, svc, i + 1)
      {
        if i < k {
          assert clients[i] != client;
          assert clients[i].startServiceTime == old@before(clients[i].startServiceTime);
          assert clients[i].endServiceTime == old@before(clients[i].endServiceTime);
        }
      }
    }

    /** Appends a customer that is not yet in the list. */
    method AddClient(c: Client)
      requires Valid() && c !in clients
      modifies this`clients
      ensures Valid() && clients == old(clients) + [c]
    {
      clients := clients + [c];
    }

    /** Generates the customers, then serves every customer in the list in order: each
        customer's service start and end become the Lindley start and departure for the
        list's arrivals and service times, and the result is the report on the totals of
        those waits and response times. */
    method Run(arrivalDraws: seq<real>, serviceDraws: seq<real>) returns (r: Result<Averages>)
      requires Valid()
      requires totalCustomers <= |arrivalDraws| && totalCustomers <= |serviceDraws|
      modifies this`clients, clients
      ensures Valid()
      ensures totalCustomers > 0 && (lam == 0.0 || mu == 0.0) ==>
        r == Err(ZeroDivision) && clients == old(clients) && unchanged(clients)
      ensures !(totalCustomers > 0 && (lam == 0.0 || mu == 0.0)) ==>
        var arr, svc := ArrivalsOf(clients), ServicesOf(clients);
        && |clients| == |old(clients)| + totalCustomers
        && clients[..|old(clients)|] == old(clients)
        && (totalCustomers > 0 ==>
              arr == ArrivalsOf(old(clients)) + CumSums(Draws(lam, arrivalDraws[..totalCustomers]))
              && svc == ServicesOf(old(clients)) + Draws(mu, serviceDraws[..totalCustomers]))
        && (forall i :: 0 <= i < |clients| ==>
              clients[i].startServiceTime == Start(arr, svc, i)
              && clients[i].endServiceTime == EndAfter(arr, svc, i + 1))
        && r == Report(Sum(Waits(arr, svc, |arr|)), Sum(Responses(arr, svc, |arr|)),
                       lam, mu, totalCustomers)
    {
      var ok := GenerateClients(arrivalDraws, serviceDraws);
      if !ok {
        return Err(ZeroDivision);
      }
      assert forall c :: c in clients ==> c in old(clients) || fresh(c) by {
        forall c | c in clients
          ensures c in old(clients) || fresh(c)
        {
          var i :| 0 <= i < |clients| && clients[i] == c;
          if i < |old(clients)| {
            assert clients[..|old(clients)|][i] == c;
          }
        }
      }
      var totalWaiting, totalResponse := ServeAll();
      r := Report(totalWaiting, totalResponse, lam, mu, totalCustomers);
    }
  }
}
