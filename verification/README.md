# Verified model of a single-server queue simulation study

The repository studies single-server FIFO queues in three ways:

- **Event-driven simulators** for G/M/1, M/G/1 and M/M/1:
  - `G-M-1/gm1.py`, `M-G-1/mg1.py` and `M-M-1/mm1.py`;
  - each keeps a heap of `(time, type)` events, a FIFO line of arrival instants, a busy flag and time integrals of the line length and of the busy server;
  - they report the average wait and response time, the time-average queue length and the measured utilization;
  - the G/M/1 and M/G/1 simulators also report 95% margins for the two averages, while the M/M/1 simulator (`M-M-1/mm1.py:79-91`) divides its running totals by the number served and reports no margin.
- **A customer-by-customer simulator** (`M-M-1/MM1V1.py`):
  - each client starts at the later of its arrival and the previous departure (the Lindley recursion);
  - it reports the average wait, the average response time and lam / mu.
- **Closed-form formulas:**
  - the M/M/1 results (`mm1_theoretical_metrics`);
  - the Pollaczek-Khinchine M/G/1 results in two forms (`mg1_theoretical`, `mg1_queue`);
  - their hyperexponential special case (`mg1_hyperexponential_theoretical`);
  - the heavy-traffic G/M/1 approximation (`gm1_queue`).

The Dafny project models all three.

- **Random numbers are parameters.** Each simulator takes its random draws as supplied sequences of reals. What remains is a deterministic state machine.
  - `EventList` models the heap as a sequence kept in Python's tuple order.
  - `Station` holds the state of one pass of the loop, as a value. `Station.Inv` ties that state to the Lindley recursion (`Lindley`).
- **The event loops are proved against the recursion.** Each loop is an imperative method (`GM1.EventLoop`, `MG1.EventLoop`, `MM1.Simulator.EventLoop`) whose loop invariant is `Station.Inv`. At the end of every run, each loop is proved to have recorded:
  - exactly the Lindley waits and response times;
  - a clock that stands at the last Lindley departure;
  - an `area_busy` equal to the total service time;
  - an `area_queue` equal to the total wait (Little's law on the sample path).
- **The MM1V1 program keeps its class structure.**
  - `Client` has mutable service start and end fields.
  - `MM1Simulation` keeps a list of clients.
  - Its methods are proved against the same recursion.
- **The formulas are functions over `real`.** Their stability guards and division errors are modelled as `Result` errors. The lemmas prove:
  - the identities W = Wq + 1/mu, Lq = lam Wq and L = Lq + rho;
  - non-negativity and monotonicity;
  - that the formulas agree with one another (Pollaczek-Khinchine with cv2 = 1 is M/M/1, and so on).

Python exceptions become `Outcomes.Error` values:
- `ValueError` for an unstable system or a bad `hyperx` argument;
- `ZeroDivisionError`;
- `IndexError`;
- `statistics.StatisticsError`;
- `math.sqrt` domain errors.

Floating-point numbers are modelled as exact reals.

## Model

| member | source | states |
|---|---|---|
| Sums.CumSumsNonDecreasing | G-M-1/gm1.py:214-217 | running sums of non-negative gaps never decrease and the first is at least 0 |
| Sums.ScaledIsProduct | G-M-1/gm1.py:264-265 | the repeated addition used for `len(queue) * time_since_last` is the product count times time |
| EventList.InsertFacts | G-M-1/gm1.py:277 | heappush on an ordered event list keeps it ordered and adds exactly the pushed event |
| EventList.PopFacts | G-M-1/gm1.py:262 | heappop returns an event no later than any other pending event; the rest stays ordered and holds everything else |
| EventList.HeadIsLeast | G-M-1/gm1.py:262 | the popped event is below every pending event in the (time, type) order |
| EventList.TiesPopArrivalFirst | G-M-1/gm1.py:239-240 | at equal times an ARRIVAL (1) is popped before a DEPARTURE (2) |
| Lindley.StartBounds | M-M-1/MM1V1.py:17-19 | a customer starts at its arrival or at the previous departure, never before either, waits a non-negative time and leaves its service time after starting |
| Lindley.WaitsNonNegative | M-M-1/MM1V1.py:19 | every waiting time of the recursion is non-negative |
| Lindley.ResponsesSum | M-M-1/MM1V1.py:48-49 | the total response time is the total wait plus the total service time |
| Lindley.TotalsStep | M-M-1/MM1V1.py:48-49 | serving one more customer adds its wait to the wait total and its wait plus service to the response total |
| Lindley.EndAfterMonotone | M-M-1/MM1V1.py:44-46 | with non-negative service times `last_end_time` never decreases |
| Lindley.BusyTimeBelowClock | G-M-1/gm1.py:305 | the total service time is at most the last departure instant, so utilization cannot exceed 1 |
| Lindley.StartAfterBusyArrival | G-M-1/gm1.py:290-292 | a customer that arrives while the previous one is in service starts exactly at that departure |
| Station.InitialInv | G-M-1/gm1.py:243-258 | the state after scheduling the first arrival satisfies the invariant tying the loop state to the Lindley recursion |
| Station.StepPreservesInv | G-M-1/gm1.py:261-298 | one pass keeps the invariant, brings the run closer to its end, never decreases the clock or the two areas, adds one served customer per DEPARTURE and one arrived customer per ARRIVAL |
| Station.HeadFacts | G-M-1/gm1.py:262 | the popped event is the next customer's arrival or the departure of the customer in service, never earlier than the clock |
| Station.ScheduleNextArrivalFacts | G-M-1/gm1.py:281-286 | scheduling pushes the next arrival exactly when fewer than the target number of customers have arrived, keeping the list ordered |
| Station.ArrivalKeepsInv | G-M-1/gm1.py:271-287 | an ARRIVAL pass as the loop performs it keeps the invariant |
| Station.DepartureKeepsInv | G-M-1/gm1.py:288-298 | a DEPARTURE pass as the loop performs it keeps the invariant |
| Station.Progress | M-G-1/mg1.py:88-89 | while fewer than the target number have been served an event is pending, so heappop never meets an empty heap |
| Station.Finished | G-M-1/gm1.py:300-305 | when all are served the server is idle, the line and heap are empty, the samples are the Lindley waits and responses, the clock is the last departure, area_busy the total service and area_queue the total wait |
| Station.PendingEvents | G-M-1/gm1.py:272-298 | exactly one DEPARTURE is pending iff the server is busy, one ARRIVAL iff a customer is still to arrive, never two of a kind |
| Station.Samples | G-M-1/gm1.py:272-296 | wait and response lists have one entry per started service; waits are non-negative, response = wait + service; a non-empty line implies a busy server; the line is in arrival order and in the past |
| Variates.Hyperx | G-M-1/gm1.py:182-202 | ValueError whenever s <= x, before any draw; otherwise it succeeds exactly when x != 0 and the square-root argument is non-negative (s + x >= 0), and a positive mean with a non-negative unit draw gives a non-negative variate; M-G-1/mg1.py:10-30 is an identical copy |
| Variates.PhaseProbabilityBounds | G-M-1/gm1.py:194 | the phase probability p lies in (0, 1/2] |
| Variates.MixtureMean | G-M-1/gm1.py:196-202 | for every 0 < p < 1 the mixture of the two phases PhaseScale selects (weight 1 - p for u > p, weight p otherwise), with half-scale exponentials, has mean exactly x |
| Variates.MixtureSecondMoment | G-M-1/gm1.py:192-202 | with p from the square root, the mixture of the two phases PhaseScale selects has second moment x^2 + s^2, i.e. standard deviation s |
| SampleStats.MeanBetween | G-M-1/gm1.py:222 | a sample whose values all lie in [lo, hi] has its mean in [lo, hi] |
| SampleStats.SampleVariance | G-M-1/gm1.py:224 | the sample variance (n - 1 form) is non-negative |
| SampleStats.MarginSquared | G-M-1/gm1.py:225-226 | the squared 95% margin is non-negative |
| SampleStats.ConstantSample | G-M-1/gm1.py:220-229 | a constant sample has that constant as mean and a zero margin |
| Summary.SummarizeFacts | G-M-1/gm1.py:300-305 | the report is `Summary.Consistent`: positive run length, average response = average wait + average service, average queue length = throughput n / T times average wait (Little's law on the sample path), utilization in [0, 1], averages and squared margins non-negative; it fails exactly for a run of length 0 |
| GM1.ArrivalHyperx | G-M-1/gm1.py:211-215 | hyperx(mean, 3 mean) never fails for a positive mean and gives a non-negative gap |
| GM1.NegativeMeanRejected | G-M-1/gm1.py:189-190 | a negative rate makes hyperx(mean, 3 mean) fail its guard |
| GM1.ArrivalTimesOrdered | G-M-1/gm1.py:204-218 | the generated arrival instants start at or after 0 and never decrease |
| GM1.GenerateArrivalTimes | G-M-1/gm1.py:204-218 | the loop returns exactly num_arrivals running sums of the gaps; a zero rate divides by zero, a negative one fails in hyperx |
| GM1.ConfidenceInterval | G-M-1/gm1.py:220-229 | mean = sum / n, margin 0 for n <= 1, non-negative margin, StatisticsError for no data |
| GM1.ReportFacts | G-M-1/gm1.py:300-314 | a successful report is `Summary.Consistent` with the Lindley run (margins included); the report fails exactly for a run of length 0 |
| GM1.RunSimulation | G-M-1/gm1.py:231-314 | the whole run returns the report computed from the Lindley recursion over the generated arrivals, with errors in the order the source meets them |
| GM1.EventLoop | G-M-1/gm1.py:260-298 | the loop ends with the Lindley waits and responses, the clock at the last departure, area_busy = total service, area_queue = total wait |
| GM1.Advance | G-M-1/gm1.py:262-269 | the returned locals are the old state with the head popped, line length and busy flag integrated over the elapsed time, and the ARRIVAL or DEPARTURE branch applied (`Station.ArrivalHandled` / `Station.DepartureHandled`); the arrival index stays at the number of arrived customers, capped at N - 1 |
| GM1.HandleArrival | G-M-1/gm1.py:271-287 | an idle server starts the customer with wait 0 and response = service and schedules its departure; a busy one queues the arrival; then the next arrival is scheduled while fewer than num_customers have arrived |
| GM1.ScheduleNext | G-M-1/gm1.py:281-286 | the cursor moves on and pushes the next arrival exactly when the head count is below num_customers |
| GM1.HandleDeparture | G-M-1/gm1.py:288-298 | one more served; the oldest waiting customer starts with wait = now - arrival and response = wait + service, or the server goes idle |
| MG1.ArrivalTimesOrdered | M-G-1/mg1.py:32-43 | the exponential arrival instants start at or after 0 and never decrease |
| MG1.GenerateArrivalTimes | M-G-1/mg1.py:32-43 | the loop returns exactly num_arrivals running sums of exp_rv gaps; a zero rate divides by zero |
| MG1.ConfidenceInterval | M-G-1/mg1.py:46-52 | fails unless there are two observations; mean = sum / n and a non-negative margin |
| MG1.ConfidenceIntervalAgrees | M-G-1/mg1.py:46-52 | on two or more observations it is the G/M/1 interval; on one, only the G/M/1 version succeeds |
| MG1.ServiceHyperx | M-G-1/mg1.py:102 | hyperx(1/mu, 2/mu) never fails its s <= x guard for mu > 0 and gives a non-negative service time; the same call is made on the dequeue path at line 121 |
| MG1.NegativeServiceRateRejected | M-G-1/mg1.py:17-18 | with a negative service rate the guard fails at the first service |
| MG1.ServiceTimesNonNegative | M-G-1/mg1.py:102 | every service time drawn for a positive rate is non-negative |
| MG1.ReportFacts | M-G-1/mg1.py:128-133 | a successful report is `Summary.Consistent` with the Lindley run (margins included); the report fails exactly for a run of length 0 |
| MG1.RunSimulation | M-G-1/mg1.py:59-133 | the script returns the report computed from the Lindley recursion over the generated arrivals and drawn services, with errors in the order the source meets them |
| MG1.EventLoop | M-G-1/mg1.py:84-126 | the loop ends with the Lindley waits and responses, the clock at the last departure, area_busy = total service, area_queue = total wait |
| MG1.Advance | M-G-1/mg1.py:89-96 | the returned locals are the old state with the head popped, the elapsed interval integrated, and the ARRIVAL or DEPARTURE branch applied (`Station.ArrivalHandled` / `Station.DepartureHandled`); the cursor equals the number of arrived customers |
| MG1.HandleArrival | M-G-1/mg1.py:98-113 | an idle server starts the customer with wait 0; a busy one queues it; the cursor always advances by one and pushes only within the pre-generated instants |
| MG1.HandleDeparture | M-G-1/mg1.py:115-126 | one more served; the oldest waiting customer starts with wait = now - arrival and response = wait + service, or the server goes idle |
| MM1.ArrivalsStep | M-M-1/mm1.py:60-61 | the next arrival is the current time plus the next gap |
| MM1.MeasuresFacts | M-M-1/mm1.py:78-82 | from finished-run totals: average response = average wait + average service, queue length = throughput times wait, utilization in [0, 1], failure exactly when nobody was served or no time passed |
| MM1.FiguresFacts | M-M-1/mm1.py:68-70 | the Lindley totals satisfy total response = total wait + total service and busy time <= clock |
| MM1.FirstArrival | M-M-1/mm1.py:41 | the first scheduled arrival is the first running sum and establishes the invariant |
| MM1.Simulator.constructor | M-M-1/mm1.py:18-30 | all state variables start empty or zero |
| MM1.Simulator.UpdateAreas | M-M-1/mm1.py:33-38 | adds len(queue) and busy times the elapsed time and sets the clock; a second call at the same time adds nothing |
| MM1.Simulator.RunScript | M-M-1/mm1.py:40-82 | the script from the first arrival to the measures equals the measures of the Lindley run over the running sums of the gaps |
| MM1.Simulator.Results | M-M-1/mm1.py:78-82 | the performance measures from the totals, ZeroDivisionError when nobody was served or no time passed |
| MM1.Simulator.EventLoop | M-M-1/mm1.py:43-73 | the loop serves exactly NUM_CUSTOMERS and ends with an empty line and heap, an idle server, the Lindley samples, clock at the last departure, area_queue = total wait, area_busy = total service |
| MM1.Simulator.Pass | M-M-1/mm1.py:44-73 | while fewer than NUM_CUSTOMERS are served an event is pending, and one pass moves the globals exactly as one `Station.Step`, keeping the running totals equal to the sums of the samples |
| MM1.Simulator.ArrivalStep | M-M-1/mm1.py:45-61 | a pass that pops an ARRIVAL moves the globals exactly as one `Station.Step` and keeps the running totals equal to the sums of the samples |
| MM1.Simulator.DepartureStep | M-M-1/mm1.py:63-73 | a pass that pops a DEPARTURE moves the globals exactly as one `Station.Step` and keeps the running totals equal to the sums of the samples |
| MM1.Simulator.ArrivalPass | M-M-1/mm1.py:45-61 | an ARRIVAL pass is the Station arrival step and keeps the running totals equal to the sums of the samples |
| MM1.Simulator.DeparturePass | M-M-1/mm1.py:63-73 | a DEPARTURE pass is the Station departure step and keeps the running totals equal to the sums of the samples |
| MM1.Simulator.HandleArrival | M-M-1/mm1.py:49-61 | idle: start the service; busy: queue the arrival; then schedule the next arrival while the head count is below NUM_CUSTOMERS |
| MM1.Simulator.StartService | M-M-1/mm1.py:50-54 | the server becomes busy, the response total grows by the service time and the departure is pushed |
| MM1.Simulator.ScheduleNext | M-M-1/mm1.py:58-61 | pushes the next arrival exactly when served + queued + in service < NUM_CUSTOMERS |
| MM1.Simulator.HandleDeparture | M-M-1/mm1.py:63-73 | one more served; the oldest waiting customer starts or the server goes idle |
| MM1.Simulator.StartNext | M-M-1/mm1.py:65-71 | the oldest arrival leaves the line; wait = now - arrival joins the wait total and wait + service the response total; the departure is pushed |
| MM1V1.DrawsNonNegative | M-M-1/MM1V1.py:33-34 | a positive rate gives non-negative gaps and service times |
| MM1V1.GeneratedArrivalsOrdered | M-M-1/MM1V1.py:31-35 | the generated arrival instants start at or after 0 and never decrease |
| MM1V1.StateSeen | M-M-1/MM1V1.py:51 | the shown state is busy exactly when the client started after arriving |
| MM1V1.BusyIffPreviousNotGone | M-M-1/MM1V1.py:51 | under the recursion, busy exactly when the previous client had not left at the arrival, i.e. when the wait is positive |
| MM1V1.Client.constructor | M-M-1/MM1V1.py:9-14 | id, arrival and service as given; start and end 0 |
| MM1V1.Client.ComputeMetrics | M-M-1/MM1V1.py:16-21 | start = max(arrival, last_end) >= both, end = start + service, wait = start - arrival >= 0, response = end - arrival = wait + service |
| MM1V1.MM1Simulation.constructor | M-M-1/MM1V1.py:24-28 | the rates and count as given and no clients |
| MM1V1.MM1Simulation.AddClient | M-M-1/MM1V1.py:36 | appends one new client to the list |
| MM1V1.MM1Simulation.GenerateClients | M-M-1/MM1V1.py:30-36 | appends total_customers new clients with ids 0..n-1, arrivals the running sums of the inter-arrival draws and the service draws in order; a zero rate fails before any append |
| MM1V1.MM1Simulation.ServeNext | M-M-1/MM1V1.py:44-46 | customer k starts at its Lindley start and leaves at its Lindley departure, earlier customers keep theirs, and the returned wait and response are the Lindley ones |
| MM1V1.MM1Simulation.ServeAll | M-M-1/MM1V1.py:40-49 | every client's start and end are the Lindley start and departure and the totals are the sums of the Lindley waits and responses |
| MM1V1.MM1Simulation.Run | M-M-1/MM1V1.py:38-64 | generate then serve; the result is the averages of the Lindley totals over total_customers and lam / mu, ZeroDivisionError for a zero rate or no customers; a zero rate with customers to generate fails before any client is added or changed |
| MM1V1.Report | M-M-1/MM1V1.py:60-64 | both averages divide by total_customers, utilization is lam / mu (not measured), ZeroDivisionError exactly for no customers or mu = 0 |
| MM1V1.ReportFacts | M-M-1/MM1V1.py:60-61 | average response = average wait + mean service, average wait non-negative |
| MM1V1.RunTotals | M-M-1/MM1V1.py:44-49 | total response = total wait + total service, total wait non-negative |
| MM1Formulas.Theoretical | M-M-1/Graph_theorical.py:4-12 | ValueError iff lam >= mu, ZeroDivisionError for mu = 0 below it, otherwise rho = lam / mu; the copy at M-M-1/Graph_simvsth.py:82-89 computes the same function |
| MM1Formulas.ResponseAndLittle | M-M-1/Graph_theorical.py:9-11 | W = Wq + 1/mu and Lq = lam Wq on every accepted input; likewise for the copy at M-M-1/Graph_simvsth.py:86-88 |
| MM1Formulas.Positive | M-M-1/Graph_theorical.py:8-11 | for 0 <= lam < mu, 0 <= rho < 1 and W > 0; for lam > 0 all four results are positive |
| MG1Formulas.SecondMoment | M-G-1/graph_theorical.py:17-19 | E[S^2] mu^2 = cv2 + 1 |
| MG1Formulas.PKWaitMonotone | M-G-1/graph_theorical.py:22 | for lam >= 0 and rho < 1 the Pollaczek-Khinchine wait never decreases as the second moment of the service time grows |
| MG1Formulas.Theoretical | M-G-1/graph_theorical.py:4-33 | ZeroDivisionError iff mu = 0, ValueError iff lam / mu >= 1, and success iff mu != 0 and lam / mu < 1, with utilization = lam / mu < 1; the copy at M-G-1/graph_simvsth.py:6-29 computes the same function |
| MG1Formulas.Identities | M-G-1/graph_theorical.py:22-26 | W = Wq + 1/mu, Lq = lam Wq and Wq 2 (1 - rho) mu^2 = lam (cv2 + 1); likewise for the copy at M-G-1/graph_simvsth.py:20-22 |
| MG1Formulas.WaitNonNegative | M-G-1/graph_theorical.py:22 | for lam >= 0, cv2 >= -1 and a utilization below 1 the call succeeds and the wait and queue length are non-negative |
| MG1Formulas.WaitMonotone | M-G-1/graph_theorical.py:17-26 | for lam >= 0 and a utilization below 1, a larger cv2 never decreases the wait, the queue length or the response time |
| MG1Formulas.AgreesWithMM1 | M-G-1/graph_theorical.py:4-33 | with cv2 = 1 the results equal the M/M/1 results |
| GM1Formulas.WaitSign | G-M-1/TheoricalValues.py:6 | for 0 <= rho < 1, mu > 0 and ca2 >= -1 the approximate wait is non-negative |
| GM1Formulas.ApproxWaitMonotone | G-M-1/TheoricalValues.py:6 | for 0 <= rho < 1 and mu > 0 the approximate wait never decreases as ca2 grows |
| GM1Formulas.Theoretical | G-M-1/TheoricalValues.py:1-8 | ValueError iff lam >= mu, ZeroDivisionError for mu = 0 below it, and success iff lam < mu and mu != 0, with utilization = lam / mu |
| GM1Formulas.Identities | G-M-1/TheoricalValues.py:6-8 | W = Wq + 1/mu, Lq = lam Wq and the wait formula on every accepted input |
| GM1Formulas.WaitNonNegative | G-M-1/TheoricalValues.py:5-8 | for 0 <= lam < mu and ca2 >= -1 the wait and queue length are non-negative |
| GM1Formulas.WaitMonotone | G-M-1/TheoricalValues.py:6-8 | a larger ca2 never decreases the wait, the queue length or the response time |
| GM1Formulas.AgreesWithMM1 | G-M-1/TheoricalValues.py:1-8 | with ca2 = 1 the approximation gives the M/M/1 results |
| MG1QueueFormulas.QueueLengthMonotone | M-M-1/TheoricalValues.py:21 | for rho < 1 the Pollaczek-Khinchine queue length never decreases as the service-time variance grows |
| MG1QueueFormulas.FromQueueLengthFacts | M-M-1/TheoricalValues.py:22-24 | Lq = lam Wq, W = Wq + 1/mu and L = Lq + rho |
| MG1QueueFormulas.Theoretical | M-M-1/TheoricalValues.py:1-31 | ValueError iff lam >= mu; ZeroDivisionError below it for mu = 0 or lam = 0; utilization = lam / mu; the reported service variance is sigma^2, never negative |
| MG1QueueFormulas.Identities | M-M-1/TheoricalValues.py:21-24 | every input with lam < mu and neither rate zero is accepted, and on it W = Wq + 1/mu, Lq = lam Wq and L = Lq + rho |
| MG1QueueFormulas.QueueLengthNonNegative | M-M-1/TheoricalValues.py:17-21 | for 0 <= lam < mu the queue length is non-negative |
| MG1QueueFormulas.SameWait | M-M-1/TheoricalValues.py:21-22 | Lq / lam equals the Pollaczek-Khinchine wait with cv2 = sigma^2 mu^2 |
| MG1QueueFormulas.AgreesWithPK | M-M-1/TheoricalValues.py:17-23 | for 0 < lam < mu the variance form gives the results of mg1_theoretical with cv2 = sigma^2 mu^2 |
| MG1QueueFormulas.AgreesWithMM1 | M-M-1/TheoricalValues.py:1-24 | with sigma = 1/mu and 0 < lam < mu the results are the M/M/1 ones |
| MG1HyperFormulas.Service | M-G-1/TheoricalValues.py:16-21 | mean 1/mu, standard deviation twice the mean, squared coefficient of variation exactly 4 |
| MG1HyperFormulas.Theoretical | M-G-1/TheoricalValues.py:3-30 | ValueError iff lam >= mu; ZeroDivisionError below it for mu = 0 or lam = 0; utilization = lam / mu and scv = 4 |
| MG1HyperFormulas.Identities | M-G-1/TheoricalValues.py:24-30 | every input with lam < mu and neither rate zero is accepted, and on it Lq 2 (1 - rho) = 5 rho^2, W = Wq + 1/mu, Lq = lam Wq and L = Lq + rho |
| MG1HyperFormulas.SameQueueLength | M-G-1/TheoricalValues.py:27 | with scv = 4 the queue length is the variance-form one with sigma = 2/mu |
| MG1HyperFormulas.AgreesWithVarianceForm | M-G-1/TheoricalValues.py:3-30 | for 0 < lam < mu the queue metrics are those of mg1_queue with sigma = 2/mu |
| MG1HyperFormulas.AgreesWithPK | M-G-1/TheoricalValues.py:3-30 | for 0 < lam < mu the results are those of mg1_theoretical with cv2 = 4 |

## Left out

- Random number generation and transcendental functions are not modelled, because they are an RNG and floating-point library calls. This covers `random.random`, `math.log`, `random.expovariate` and `math.sqrt` in `exp_rv` and `hyperx` (G-M-1/gm1.py:179-202, M-G-1/mg1.py:6-30, M-M-1/mm1.py:5-6, M-M-1/MM1V1.py:33-34).
  - The draws are parameters instead.
  - `hyperx` keeps its guard, its divisions and its phase choice. The square root is supplied as a non-negative number whose square is the argument.
- Floating-point rounding is not modelled: every `float` is an exact `real`.
- The 95% margins are carried as their squares (1.96^2 variance / n), because `math.sqrt` is not modelled. The same applies to the `(mean - margin, mean + margin)` tuple that `M-G-1/mg1.py` builds.
  - SampleStats.MarginSquared: states the squared margin rather than the margin.
  - GM1.ConfidenceInterval: returns the mean and the squared margin instead of the margin.
  - MG1.ConfidenceInterval: returns the mean and the squared margin instead of the interval.
- The error-bar helpers that compute standard deviations (Comparaison.py, M-M-1/Graph_plot.py:58-77, M-M-1/Graph_simvsth.py:58-79) are not modelled. They are float numerics over hard-coded tables, used only for plotting.
- The G/M/1 root finding with `scipy.optimize.fsolve` (G-M-1/graph_theorical.py, G-M-1/graphsimvsth.py) is a foreign numerical solver and is not part of this model.
- Plotting, CSV reading and writing (`save_results_to_csv` in M-M-1/MM1V1.py:66-70) and every `print` are I/O.
  - The three TheoricalValues.py functions only print their results. The model returns every printed value instead, including the service variance of `mg1_queue` and the service parameters of `mg1_hyperexponential_theoretical`.
  - The `server_state` label of M-M-1/MM1V1.py:51 is returned by `MM1V1.StateSeen` instead of printed.
- The hard-coded parameter blocks and the replication driver that averages several runs (G-M-1/gm1.py:316-331) are a driver, not logic.
- G-M-1/gm1.py:1-169 is a string literal, not code.
- The unused observation lists `queue_lengths` and `utilizations` (G-M-1/gm1.py:266-267, M-G-1/mg1.py:93-94) are never read, so they are not modelled.
- Statistical convergence (a measured utilization tending to lam / mu, simulation matching theory) is probabilistic and not stated.
- MM1.Simulator.RunScript: takes the scaled inter-arrival gaps `exp_rv(beta)` directly. The division `beta = 1 / arrival_rate` (M-M-1/mm1.py:11) and its ZeroDivisionError for a zero rate are therefore not modelled. The gaps are also required to be non-negative, so the negative gaps a negative arrival rate would produce are not modelled either; the script fixes arrival_rate = 0.1 (M-M-1/mm1.py:9).
- MM1.Simulator.RunScript: takes the service times as supplied non-negative draws, already scaled by 1 / service_rate. The division in `exp_rv(1/service_rate)` (M-M-1/mm1.py:52, 69), its ZeroDivisionError for a zero rate and the negative service times of a negative rate are therefore not modelled; the script fixes service_rate = 1.0 (M-M-1/mm1.py:10).
- GM1.RunSimulation: tests a zero service rate just before the loop. The source fails at `1 / service_rate` in the first pass, which always starts a service, so the outcome is the same.
- GM1.RunSimulation: takes the service times as supplied non-negative draws, already scaled by 1 / service_rate, and does not tie them to `serviceRate`. A negative service rate, for which `exp_rv(1 / service_rate)` (G-M-1/gm1.py:274, 293) returns non-positive times, is therefore not modelled; the script passes service_rate = 1.0 (G-M-1/gm1.py:318).
- MG1.RunSimulation: tests the service rate just before the loop in the same way. It needs a non-negative arrival rate, because a negative rate produces arrival instants that run backwards in time.
- The heap's binary-tree layout is modelled as a sequence kept sorted in Python's tuple order. Only the pop order can be observed.
- `mg1_theoretical` (M-G-1/graph_theorical.py:12-14) divides lam by mu before its guard and then tests lam / mu >= 1. The model follows this code rather than the "lam >= mu" guard of the other formulas. A zero mu therefore gives ZeroDivisionError, and a negative mu can pass the guard.
- The two TheoricalValues.py variance forms divide by lam after a guard that lets lam = 0 through. The model returns ZeroDivisionError there; it does not assume lam > 0.
