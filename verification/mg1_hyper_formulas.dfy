/** The M/G/1 results for the hyperexponential service of the M/G/1 simulator, as
    `mg1_hyperexponential_theoretical` (M-G-1/TheoricalValues.py) computes them: service
    mean x = 1 / mu and standard deviation s = 2 / mu, so the squared coefficient of
    variation is s^2 / x^2 = 4, and Lq = rho^2 (1 + scv) / (2 (1 - rho)),
    Wq = Lq / lam, W = Wq + 1 / mu and L = lam W. */
module MG1HyperFormulas {
  import opened Outcomes
  import opened RealArith
  import MG1Formulas
  import MG1QueueFormulas

  /** The printed service-time parameters. */
  datatype ServiceParameters = ServiceParameters(mean: real, stdDev: real, scv: real)

  /** The printed results: the queue metrics and the service-time parameters. */
  datatype Report = Report(metrics: MG1QueueFormulas.Metrics, service: ServiceParameters)

  /** Mean 1 / mu and standard deviation 2 / mu give a squared coefficient of variation
      of exactly 4, whatever mu. */
  function Service(mu: real): (p: ServiceParameters)
    requires mu != 0.0
    ensures p.mean * mu == 1.0 && p.stdDev == 2.0 * p.mean && p.scv == 4.0
  {
    var x := 1.0 / mu;
    var s := 2.0 / mu;
    var variance := s * s;
    assert x * mu == 1.0 && s == 2.0 * x;
    assert variance == 4.0 * (x * x);
    SquarePositive(x);
    ServiceParameters(x, s, variance / (x * x))
  }

  /** The Pollaczek-Khinchine queue length written with the utilization and the squared
      coefficient of variation. */
  function HyperQueueLength(rho: real, scv: real): (lq: real)
    requires rho != 1.0
    ensures lq * (2.0 * (1.0 - rho)) == rho * rho * (1.0 + scv)
  {
    rho * rho * (1.0 + scv) / (2.0 * (1.0 - rho))
  }

  /** Raises ValueError unless lam < mu; 1 / mu raises ZeroDivisionError for a zero mu
      (reachable when lam < 0), and Lq / lam for a zero lam, which the guard lets
      through. */
  function Theoretical(lam: real, mu: real): (r: Result<Report>)
    ensures r == Err(Unstable) <==> lam >= mu
    ensures r == Err(ZeroDivision) <==> lam < mu && (mu == 0.0 || lam == 0.0)
    ensures r.Ok? ==> r.value.metrics.utilization * mu == lam && r.value.service.scv == 4.0
  {
    if lam >= mu then Err(Unstable)
    else if mu == 0.0 then Err(ZeroDivision)
    else
      var service := Service(mu);
      var rho := lam / mu;
      assert rho * mu == lam;
      var lq := HyperQueueLength(rho, service.scv);
      if lam == 0.0 then Err(ZeroDivision)
      else Ok(Report(MG1QueueFormulas.FromQueueLength(lam, mu, rho, lq), service))
  }

  /** On every accepted input (lam < mu with neither rate zero): Lq = 5 rho^2 / (2 (1 - rho)),
      W = Wq + 1 / mu, Lq = lam Wq and L = lam W = Lq + rho. */
  lemma Identities(lam: real, mu: real)
    requires lam < mu && mu != 0.0 && lam != 0.0
    ensures Theoretical(lam, mu).Ok?
    ensures var m := Theoretical(lam, mu).value.metrics;
      && m.avgQueueLength * (2.0 * (1.0 - m.utilization)) == 5.0 * (m.utilization * m.utilization)
      && m.avgResponseTime == m.avgWaitTime + 1.0 / mu
      && m.avgQueueLength == lam * m.avgWaitTime
      && m.avgSystemLength == m.avgQueueLength + m.utilization
  {
    var rho := lam / mu;
    assert rho * mu == lam;
    MG1QueueFormulas.FromQueueLengthFacts(lam, mu, rho, HyperQueueLength(rho, 4.0));
  }

  /** For 0 < lam < mu the results are those of the variance form `mg1_queue` with
      service standard deviation 2 / mu. */
  lemma AgreesWithVarianceForm(lam: real, mu: real)
    requires 0.0 < lam < mu
    ensures Theoretical(lam, mu).Ok? && MG1QueueFormulas.Theoretical(lam, mu, 2.0 / mu).Ok?
    ensures Theoretical(lam, mu).value.metrics == MG1QueueFormulas.Theoretical(lam, mu, 2.0 / mu).value.metrics
  {
    var rho := lam / mu;
    assert rho * mu == lam;
    QuotientBelowOne(lam, mu);
    var sigma := 2.0 / mu;
    SameQueueLength(lam, mu, rho, sigma);
  }

  lemma SameQueueLength(lam: real, mu: real, rho: real, sigma: real)
    requires rho * mu == lam && rho < 1.0 && mu != 0.0 && sigma * mu == 2.0
    ensures HyperQueueLength(rho, 4.0) == MG1QueueFormulas.QueueLength(lam, rho, sigma * sigma)
  {
    var d := 2.0 * (1.0 - rho);
    var a, b := HyperQueueLength(rho, 4.0), MG1QueueFormulas.QueueLength(lam, rho, sigma * sigma);
    assert lam * sigma == 2.0 * rho by {
      assert lam * sigma * mu == rho * mu * (sigma * mu);
      Cancel(lam * sigma, 2.0 * rho, mu);
    }
    assert lam * lam * (sigma * sigma) == 4.0 * (rho * rho) by {
      assert lam * lam * (sigma * sigma) == (lam * sigma) * (lam * sigma);
    }
    assert a * d == b * d;
    Cancel(a, b, d);
  }

  /** For 0 < lam < mu the results are the Pollaczek-Khinchine results of
      `mg1_theoretical` with cv2 = 4. */
  lemma AgreesWithPK(lam: real, mu: real)
    requires 0.0 < lam < mu
    ensures Theoretical(lam, mu).Ok? && MG1Formulas.Theoretical(lam, mu, 4.0).Ok?
    ensures var m, p := Theoretical(lam, mu).value.metrics, MG1Formulas.Theoretical(lam, mu, 4.0).value;
      && m.avgWaitTime == p.avgWaitTime
      && m.avgQueueLength == p.avgQueueLength
      && m.utilization == p.utilization
      && m.avgResponseTime == p.avgResponseTime
  {
    AgreesWithVarianceForm(lam, mu);
    var sigma := 2.0 / mu;
    MG1QueueFormulas.AgreesWithPK(lam, mu, sigma);
    assert sigma * sigma * (mu * mu) == 4.0 by {
      assert sigma * mu == 2.0;
      assert sigma * sigma * (mu * mu) == (sigma * mu) * (sigma * mu);
    }
  }
}
