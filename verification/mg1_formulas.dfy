/** The Pollaczek-Khinchine M/G/1 results of `mg1_theoretical` (M-G-1/graph_theorical.py,
    and the identical copy in M-G-1/graph_simvsth.py): for arrival rate lam, service rate
    mu and squared coefficient of variation cv2 of the service time, the mean wait is
    Wq = lam E[S^2] / (2 (1 - rho)) with E[S^2] = (cv2 + 1) / mu^2. */
module MG1Formulas {
  import opened Outcomes
  import opened RealArith
  import MM1Formulas

  /** The returned dictionary. */
  datatype Metrics = Metrics(avgWaitTime: real, avgQueueLength: real, utilization: real,
                             avgResponseTime: real)

  /** Second moment of a service time with mean 1 / mu and variance cv2 / mu^2. */
  function SecondMoment(mu: real, cv2: real): (m: real)
    requires mu != 0.0
    ensures m * (mu * mu) == cv2 + 1.0
  {
    var mean := 1.0 / mu;
    assert mean * mu == 1.0;
    assert mean * mean * (mu * mu) == 1.0;
    cv2 * (mean * mean) + mean * mean
  }

  /** The Pollaczek-Khinchine mean wait for arrival rate lam, second moment s and
      utilization rho < 1. */
  function PKWait(lam: real, s: real, rho: real): (w: real)
    requires rho < 1.0
    ensures w * (2.0 * (1.0 - rho)) == lam * s
  {
    lam * s / (2.0 * (1.0 - rho))
  }

  /** The dictionary built from the wait: response = wait + 1 / mu, queue = lam * wait. */
  function Assemble(lam: real, mu: real, utilization: real, avgWaitTime: real): Metrics
    requires mu != 0.0
  {
    Metrics(avgWaitTime, lam * avgWaitTime, utilization, avgWaitTime + 1.0 / mu)
  }

  /** lam / mu is computed before the guard, so a zero mu raises ZeroDivisionError;
      otherwise a utilization of 1 or more raises ValueError. */
  function Theoretical(lam: real, mu: real, cv2: real): (r: Result<Metrics>)
    ensures r == Err(ZeroDivision) <==> mu == 0.0
    ensures r == Err(Unstable) <==> mu != 0.0 && lam / mu >= 1.0
    ensures r.Ok? <==> mu != 0.0 && lam / mu < 1.0
    ensures r.Ok? ==> r.value.utilization * mu == lam && r.value.utilization < 1.0
  {
    if mu == 0.0 then Err(ZeroDivision)
    else
      var utilization := lam / mu;
      if utilization >= 1.0 then Err(Unstable)
      else
        Ok(Assemble(lam, mu, utilization, PKWait(lam, SecondMoment(mu, cv2), utilization)))
  }

  /** The response time is the wait plus the mean service time, the queue length is
      lam times the wait (Little's law), and the wait is lam E[S^2] / (2 (1 - rho)). */
  lemma Identities(lam: real, mu: real, cv2: real)
    requires Theoretical(lam, mu, cv2).Ok?
    ensures var m := Theoretical(lam, mu, cv2).value;
      && m.avgResponseTime == m.avgWaitTime + 1.0 / mu
      && m.avgQueueLength == lam * m.avgWaitTime
      && m.avgWaitTime * (2.0 * (1.0 - m.utilization)) * (mu * mu) == lam * (cv2 + 1.0)
  {
    var m := Theoretical(lam, mu, cv2).value;
    var d := 2.0 * (1.0 - m.utilization);
    var s := SecondMoment(mu, cv2);
    assert m.avgWaitTime == lam * s / d;
    assert m.avgWaitTime * d == lam * s;
    assert m.avgWaitTime * d * (mu * mu) == lam * (s * (mu * mu));
  }

  /** With a non-negative arrival rate and cv2 >= -1 (in particular any real variance)
      the wait and the queue length are non-negative. */
  lemma WaitNonNegative(lam: real, mu: real, cv2: real)
    requires 0.0 <= lam && -1.0 <= cv2 && mu != 0.0 && lam / mu < 1.0
    ensures Theoretical(lam, mu, cv2).Ok?
    ensures 0.0 <= Theoretical(lam, mu, cv2).value.avgWaitTime
    ensures 0.0 <= Theoretical(lam, mu, cv2).value.avgQueueLength
  {
    var m := Theoretical(lam, mu, cv2).value;
    var s := SecondMoment(mu, cv2);
    SquarePositive(mu);
    assert 0.0 <= s by {
      if s < 0.0 {
        MulMonotone(s, 0.0, mu * mu);
      }
    }
    MulNonNegative(lam, s);
    QuotientNonNegative(lam * s, 2.0 * (1.0 - m.utilization));
    MulNonNegative(lam, m.avgWaitTime);
  }

  /** For a fixed non-negative arrival rate and service rate, a more variable service
      time never shortens the wait, the queue or the response time. */
  lemma WaitMonotone(lam: real, mu: real, cv2: real, cv2': real)
    requires 0.0 <= lam && cv2 <= cv2' && mu != 0.0 && lam / mu < 1.0
    ensures Theoretical(lam, mu, cv2).Ok? && Theoretical(lam, mu, cv2').Ok?
    ensures var m, m' := Theoretical(lam, mu, cv2).value, Theoretical(lam, mu, cv2').value;
      && m.avgWaitTime <= m'.avgWaitTime
      && m.avgQueueLength <= m'.avgQueueLength
      && m.avgResponseTime <= m'.avgResponseTime
  {
    var rho := lam / mu;
    var s, s' := SecondMoment(mu, cv2), SecondMoment(mu, cv2');
    SecondMomentMonotone(mu, cv2, cv2');
    PKWaitMonotone(lam, s, s', rho);
    AssembleMonotone(lam, mu, rho, PKWait(lam, s, rho), PKWait(lam, s', rho));
  }

  lemma AssembleMonotone(lam: real, mu: real, rho: real, w: real, w': real)
    requires mu != 0.0 && 0.0 <= lam && w <= w'
    ensures Assemble(lam, mu, rho, w).avgQueueLength <= Assemble(lam, mu, rho, w').avgQueueLength
    ensures Assemble(lam, mu, rho, w).avgResponseTime <= Assemble(lam, mu, rho, w').avgResponseTime
  {
    MulMonotoneLeft(lam, w, w');
  }

  lemma SecondMomentMonotone(mu: real, cv2: real, cv2': real)
    requires mu != 0.0 && cv2 <= cv2'
    ensures SecondMoment(mu, cv2) <= SecondMoment(mu, cv2')
  {
    var s, s' := SecondMoment(mu, cv2), SecondMoment(mu, cv2');
    SquarePositive(mu);
    assert (s' - s) * (mu * mu) == cv2' - cv2;
    if s' - s < 0.0 {
      MulMonotone(s' - s, 0.0, mu * mu);
    }
  }

  lemma PKWaitMonotone(lam: real, s: real, s': real, rho: real)
    requires 0.0 <= lam && s <= s' && rho < 1.0
    ensures PKWait(lam, s, rho) <= PKWait(lam, s', rho)
  {
    MulMonotone(s, s', lam);
    QuotientMonotone(lam * s, lam * s', 2.0 * (1.0 - rho));
  }

  /** With exponential service (cv2 = 1) and 0 <= lam < mu the Pollaczek-Khinchine
      results are the M/M/1 results of `mm1_theoretical_metrics`. */
  lemma AgreesWithMM1(lam: real, mu: real)
    requires 0.0 <= lam < mu
    ensures Theoretical(lam, mu, 1.0).Ok? && MM1Formulas.Theoretical(lam, mu).Ok?
    ensures var m, e := Theoretical(lam, mu, 1.0).value, MM1Formulas.Theoretical(lam, mu).value;
      && m.avgWaitTime == e.wq
      && m.avgQueueLength == e.lq
      && m.utilization == e.rho
      && m.avgResponseTime == e.w
  {
    QuotientBelowOne(lam, mu);
    var m, e := Theoretical(lam, mu, 1.0).value, MM1Formulas.Theoretical(lam, mu).value;
    MM1Formulas.ResponseAndLittle(lam, mu);
    Identities(lam, mu, 1.0);
    var rho := lam / mu;
    assert rho * mu == lam;
    var d := 1.0 - rho;
    assert 0.0 < d;
    assert e.wq * (mu * d) == rho;
    assert m.avgWaitTime * (2.0 * d) * (mu * mu) == 2.0 * lam;
    assert m.avgWaitTime * (mu * d) * mu == lam;
    assert m.avgWaitTime * (mu * d) == rho;
    assert (m.avgWaitTime - e.wq) * (mu * d) == 0.0;
    MulPositive(mu, d);
  }
}
