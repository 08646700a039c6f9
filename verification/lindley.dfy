/** The Lindley recursion for a single FIFO server that starts idle at time 0:
    customer i arrives at arr[i], needs svc[i] time units of service, starts at
    max(arr[i], departure of customer i - 1) and leaves service-time later.
    This is what `Client.compute_metrics` computes one customer at a time, and it is
    the reference the event-driven simulators are proved to agree with. */
module Lindley {
  import opened Sums

  function Max(a: real, b: real): real
  {
    if a >= b then a else b
  }

  /** Departure time of customer k - 1: the server's `last_end_time` once k customers have
      been served (0 before any). */
  function EndAfter(arr: seq<real>, svc: seq<real>, k: nat): real
    requires k <= |arr| && k <= |svc|
  {
    if k == 0 then 0.0 else Max(arr[k - 1], EndAfter(arr, svc, k - 1)) + svc[k - 1]
  }

  /** Service start of customer i. */
  function Start(arr: seq<real>, svc: seq<real>, i: nat): real
    requires i < |arr| && i < |svc|
  {
    Max(arr[i], EndAfter(arr, svc, i))
  }

  function Wait(arr: seq<real>, svc: seq<real>, i: nat): real
    requires i < |arr| && i < |svc|
  {
    Start(arr, svc, i) - arr[i]
  }

  /** The waits of the first k customers, in order. */
  function Waits(arr: seq<real>, svc: seq<real>, k: nat): (r: seq<real>)
    requires k <= |arr| && k <= |svc|
    ensures |r| == k
  {
    if k == 0 then [] else Waits(arr, svc, k - 1) + [Wait(arr, svc, k - 1)]
  }

  /** The response times (time in system) of the first k customers. */
  function Responses(arr: seq<real>, svc: seq<real>, k: nat): (r: seq<real>)
    requires k <= |arr| && k <= |svc|
    ensures |r| == k
  {
    if k == 0 then [] else Responses(arr, svc, k - 1) + [Wait(arr, svc, k - 1) + svc[k - 1]]
  }

  /** Serving customer k adds its wait to the running wait total and its wait plus its
      service time to the running response total. */
  lemma TotalsStep(arr: seq<real>, svc: seq<real>, k: nat)
    requires k < |arr| && k < |svc|
    ensures Sum(Waits(arr, svc, k + 1)) == Sum(Waits(arr, svc, k)) + Wait(arr, svc, k)
    ensures Sum(Responses(arr, svc, k + 1)) == Sum(Responses(arr, svc, k)) + (Wait(arr, svc, k) + svc[k])
  {
    SumAppend(Waits(arr, svc, k), Wait(arr, svc, k));
    SumAppend(Responses(arr, svc, k), Wait(arr, svc, k) + svc[k]);
  }

  /** A customer never starts before arriving, nor before the previous one has left,
      and leaves exactly its service time after starting. */
  lemma StartBounds(arr: seq<real>, svc: seq<real>, i: nat)
    requires i < |arr| && i < |svc|
    ensures Start(arr, svc, i) >= arr[i] && Start(arr, svc, i) >= EndAfter(arr, svc, i)
    ensures Wait(arr, svc, i) >= 0.0
    ensures EndAfter(arr, svc, i + 1) == Start(arr, svc, i) + svc[i]
    ensures Start(arr, svc, i) == arr[i] || Start(arr, svc, i) == EndAfter(arr, svc, i)
  {
  }

  lemma {:induction false} WaitsAt(arr: seq<real>, svc: seq<real>, k: nat, i: nat)
    requires k <= |arr| && k <= |svc| && i < k
    ensures Waits(arr, svc, k)[i] == Wait(arr, svc, i)
    ensures Responses(arr, svc, k)[i] == Wait(arr, svc, i) + svc[i]
    decreases k
  {
    if i < k - 1 {
      WaitsAt(arr, svc, k - 1, i);
    }
  }

  /** Every wait is non-negative. */
  lemma {:induction false} WaitsNonNegative(arr: seq<real>, svc: seq<real>, k: nat)
    requires k <= |arr| && k <= |svc|
    ensures AllNonNegative(Waits(arr, svc, k))
    decreases k
  {
    if k > 0 {
      WaitsNonNegative(arr, svc, k - 1);
      StartBounds(arr, svc, k - 1);
    }
  }

  /** Total response time = total wait + total service. */
  lemma {:induction false} ResponsesSum(arr: seq<real>, svc: seq<real>, k: nat)
    requires k <= |arr| && k <= |svc|
    ensures Sum(Responses(arr, svc, k)) == Sum(Waits(arr, svc, k)) + Sum(svc[..k])
    decreases k
  {
    if k > 0 {
      ResponsesSum(arr, svc, k - 1);
      SumAppend(Responses(arr, svc, k - 1), Wait(arr, svc, k - 1) + svc[k - 1]);
      SumAppend(Waits(arr, svc, k - 1), Wait(arr, svc, k - 1));
      SumPrefixStep(svc, k - 1);
    }
  }

  /** With non-negative service times the server's `last_end_time` never decreases. */
  lemma {:induction false} EndAfterMonotone(arr: seq<real>, svc: seq<real>, i: nat, j: nat)
    requires i <= j <= |arr| && j <= |svc|
    requires AllNonNegative(svc)
    ensures EndAfter(arr, svc, i) <= EndAfter(arr, svc, j)
    decreases j - i
  {
    if i < j {
      EndAfterMonotone(arr, svc, i, j - 1);
    }
  }

  /** The server cannot have worked longer than the clock has run: the total service of the
      first k customers is at most the departure time of the k-th. */
  lemma {:induction false} BusyTimeBelowClock(arr: seq<real>, svc: seq<real>, k: nat)
    requires k <= |arr| && k <= |svc|
    ensures Sum(svc[..k]) <= EndAfter(arr, svc, k)
    decreases k
  {
    if k == 0 {
      assert svc[..0] == [];
    } else {
      BusyTimeBelowClock(arr, svc, k - 1);
      SumPrefixStep(svc, k - 1);
    }
  }

  /** When customers arrive in order, a customer that arrives while its predecessor is still
      in service starts exactly at that predecessor's departure. */
  lemma StartAfterBusyArrival(arr: seq<real>, svc: seq<real>, i: nat)
    requires i < |arr| && i < |svc|
    requires arr[i] <= EndAfter(arr, svc, i)
    ensures Start(arr, svc, i) == EndAfter(arr, svc, i)
  {
  }
}
