/** The Pollaczek-Khinchine M/G/1 results in the variance form of `mg1_queue`
    (M-M-1/TheoricalValues.py): for arrival rate lam, service rate mu and service-time
    standard deviation sigma, Lq = (lam^2 sigma^2 + rho^2) / (2 (1 - rho)), then
    Wq = Lq / lam, W = Wq + 1 / mu and L = lam W. */
module MG1QueueFormulas {
  import opened Outcomes
  import opened RealArith
  import MG1Formulas
  import MM1Formulas

  /** The printed wait, queue length, utilization, response time and number in system. */
  datatype Metrics = Metrics(avgWaitTime: real, avgQueueLength: real, utilization: real,
                             avgResponseTime: real, avgSystemLength: real)

  /** Everything `mg1_queue` prints: the queue metrics and then the service-time
      variance sigma^2. */
  datatype Report = Report(metrics: Metrics, serviceVariance: real)

  /** The results derived from a queue length lq: Wq = lq / lam, W = Wq + 1 / mu and
      L = lam W. */
  function FromQueueLength(lam: real, mu: real, rho: real, lq: real): Metrics
    requires lam != 0.0 && mu != 0.0
  {
    var wq := lq / lam;
    var w := wq + 1.0 / mu;
    Metrics(wq, lq, rho, w, lam * w)
  }

  /** Little's law in both forms: the queue length is lam times the wait, and the number
      in system is the queue length plus the utilization when rho = lam / mu. */
  lemma FromQueueLengthFacts(lam: real, mu: real, rho: real, lq: real)
    requires lam != 0.0 && mu != 0.0 && rho * mu == lam
    ensures var m := FromQueueLength(lam, mu, rho, lq);
      && m.avgQueueLength == lam * m.avgWaitTime
      && m.avgResponseTime == m.avgWaitTime + 1.0 / mu
      && m.avgSystemLength == m.avgQueueLength + rho
  {
    var m := FromQueueLength(lam, mu, rho, lq);
    assert m.avgWaitTime * lam == lq;
    assert (1.0 / mu) * mu == 1.0;
    assert lam * (1.0 / mu) == rho;
    assert m.avgSystemLength == lam * m.avgWaitTime + lam * (1.0 / mu);
  }

  /** The Pollaczek-Khinchine queue length for variance v and utilization rho other
      than 1. */
  function QueueLength(lam: real, rho: real, v: real): (lq: real)
    requires rho != 1.0
    ensures lq * (2.0 * (1.0 - rho)) == lam * lam * v + rho * rho
  {
    (lam * lam * v + rho * rho) / (2.0 * (1.0 - rho))
  }

  /** A more variable service time never shortens the queue: for a utilization below 1
      the queue length is non-decreasing in the service-time variance. */
  lemma QueueLengthMonotone(lam: real, rho: real, v: real, v': real)
    requires rho < 1.0 && v <= v'
    ensures QueueLength(lam, rho, v) <= QueueLength(lam, rho, v')
  {
    SquareNonNegative(lam);
    MulMonotoneLeft(lam * lam, v, v');
    QuotientMonotone(lam * lam * v + rho * rho, lam * lam * v' + rho * rho, 2.0 * (1.0 - rho));
  }

  /** Raises ValueError unless lam < mu; lam / mu raises ZeroDivisionError for a zero mu
      (reachable when lam < 0), and Lq / lam for a zero lam, which the guard lets
      through. */
  function Theoretical(lam: real, mu: real, sigma: real): (r: Result<Report>)
    ensures r == Err(Unstable) <==> lam >= mu
    ensures r == Err(ZeroDivision) <==> lam < mu && (mu == 0.0 || lam == 0.0)
    ensures r.Ok? ==> r.value.metrics.utilization * mu == lam
    ensures r.Ok? ==> 0.0 <= r.value.serviceVariance && r.value.serviceVariance == sigma * sigma
  {
    if lam >= mu then Err(Unstable)
    else if mu == 0.0 then Err(ZeroDivision)
    else
      var utilization := lam / mu;
      assert utilization * mu == lam;
      var serviceVariance := sigma * sigma;
      SquareNonNegative(sigma);
      var lq := QueueLength(lam, utilization, serviceVariance);
      if lam == 0.0 then Err(ZeroDivision)
      else Ok(Report(FromQueueLength(lam, mu, utilization, lq), serviceVariance))
  }

  /** On every accepted input (lam < mu with neither rate zero): W = Wq + 1 / mu,
      Lq = lam Wq and L = lam W = Lq + rho. */
  lemma Identities(lam: real, mu: real, sigma: real)
    requires lam < mu && mu != 0.0 && lam != 0.0
    ensures Theoretical(lam, mu, sigma).Ok?
    ensures var m := Theoretical(lam, mu, sigma).value.metrics;
      && m.avgResponseTime == m.avgWaitTime + 1.0 / mu
      && m.avgQueueLength == lam * m.avgWaitTime
      && m.avgSystemLength == m.avgQueueLength + m.utilization
  {
    var rho := lam / mu;
    assert rho * mu == lam;
    FromQueueLengthFacts(lam, mu, rho, QueueLength(lam, rho, sigma * sigma));
  }

  /** For 0 <= lam < mu the queue length is never negative. */
  lemma QueueLengthNonNegative(lam: real, mu: real, sigma: real)
    requires 0.0 <= lam < mu
    ensures 0.0 <= QueueLength(lam, lam / mu, sigma * sigma)
    ensures Theoretical(lam, mu, sigma).Ok? ==>
      0.0 <= Theoretical(lam, mu, sigma).value.metrics.avgQueueLength
  {
    var rho := lam / mu;
    QuotientBelowOne(lam, mu);
    SquareNonNegative(sigma);
    MulNonNegative(lam, lam);
    MulNonNegative(lam * lam, sigma * sigma);
    MulNonNegative(rho, rho);
    QuotientNonNegative(lam * lam * (sigma * sigma) + rho * rho, 2.0 * (1.0 - rho));
  }

  /** The variance form is the Pollaczek-Khinchine formula of `mg1_theoretical` with
      cv2 = sigma^2 mu^2: for 0 < lam < mu both give the same wait, queue length,
      utilization and response time. */
  lemma AgreesWithPK(lam: real, mu: real, sigma: real)
    requires 0.0 < lam < mu
    ensures Theoretical(lam, mu, sigma).Ok?
    ensures MG1Formulas.Theoretical(lam, mu, sigma * sigma * (mu * mu)).Ok?
    ensures var m, p := Theoretical(lam, mu, sigma).value.metrics,
                        MG1Formulas.Theoretical(lam, mu, sigma * sigma * (mu * mu)).value;
      && m.avgWaitTime == p.avgWaitTime
      && m.avgQueueLength == p.avgQueueLength
      && m.utilization == p.utilization
      && m.avgResponseTime == p.avgResponseTime
  {
    QuotientBelowOne(lam, mu);
    var rho := lam / mu;
    assert rho * mu == lam;
    var v, cv2 := sigma * sigma, sigma * sigma * (mu * mu);
    var lq := QueueLength(lam, rho, v);
    assert Theoretical(lam, mu, sigma) == Ok(Report(FromQueueLength(lam, mu, rho, lq), v));
    var wq := MG1Formulas.PKWait(lam, MG1Formulas.SecondMoment(mu, cv2), rho);
    assert MG1Formulas.Theoretical(lam, mu, cv2) == Ok(MG1Formulas.Assemble(lam, mu, rho, wq));
    SameWait(lam, mu, rho, v);
    assert lq == lam * (lq / lam);
  }

  /** With exponential service (sigma = 1 / mu) and 0 < lam < mu the variance form gives
      the M/M/1 results of `mm1_theoretical_metrics`: Lq = rho^2 / (1 - rho) and so on. */
  lemma AgreesWithMM1(lam: real, mu: real)
    requires 0.0 < lam < mu
    ensures Theoretical(lam, mu, 1.0 / mu).Ok? && MM1Formulas.Theoretical(lam, mu).Ok?
    ensures var m, e := Theoretical(lam, mu, 1.0 / mu).value.metrics, MM1Formulas.Theoretical(lam, mu).value;
      && m.avgWaitTime == e.wq
      && m.avgQueueLength == e.lq
      && m.utilization == e.rho
      && m.avgResponseTime == e.w
  {
    var sigma := 1.0 / mu;
    AgreesWithPK(lam, mu, sigma);
    assert sigma * sigma * (mu * mu) == 1.0 by {
      assert sigma * mu == 1.0;
      assert sigma * sigma * (mu * mu) == (sigma * mu) * (sigma * mu);
    }
    MG1Formulas.AgreesWithMM1(lam, mu);
  }

  /** The wait of the variance form equals the Pollaczek-Khinchine wait with
      cv2 = v mu^2. */
  lemma SameWait(lam: real, mu: real, rho: real, v: real)
    requires rho * mu == lam && lam != 0.0 && rho < 1.0
    ensures mu != 0.0
    ensures QueueLength(lam, rho, v) / lam
         == MG1Formulas.PKWait(lam, MG1Formulas.SecondMoment(mu, v * (mu * mu)), rho)
  {
    var k := mu * mu;
    var d := 2.0 * (1.0 - rho);
    var s := MG1Formulas.SecondMoment(mu, v * k);
    SquarePositive(mu);
    WaitAlgebra(lam, QueueLength(lam, rho, v), s, MG1Formulas.PKWait(lam, s, rho), d, k, v, rho, mu);
  }

  /** The same over plain reals: a queue length lq with lq d = lam^2 v + rho^2 and a
      Pollaczek-Khinchine wait pw with pw d = lam s, where s k = v k + 1, k = mu^2 and
      rho mu = lam, satisfy lq / lam = pw. */
  lemma WaitAlgebra(lam: real, lq: real, s: real, pw: real, d: real, k: real, v: real, rho: real, mu: real)
    requires lq * d == lam * lam * v + rho * rho && pw * d == lam * s && s * k == v * k + 1.0
    requires k == mu * mu && 0.0 < k && rho * mu == lam && lam != 0.0 && d != 0.0
    ensures lq / lam == pw
  {
    var wq := lq / lam;
    assert wq * lam == lq;
    ScaleWait(wq, lam, lq, d, k, v, rho, mu);
    PKScaled(pw, lam, s, d, k, v);
    Cancel(wq, pw, d * k);
  }

  lemma PKScaled(pw: real, lam: real, s: real, d: real, k: real, v: real)
    requires s * k == v * k + 1.0 && pw * d == lam * s
    ensures pw * d * k == lam * (v * k + 1.0)
  {
    assert pw * d * k == lam * (s * k);
  }

  /** The algebra behind AgreesWithPK over plain reals: a wait wq with wq lam = lq and
      lq d = lam^2 v + rho^2 satisfies wq d k = lam (v k + 1) when k = mu^2 and
      rho mu = lam. */
  lemma ScaleWait(wq: real, lam: real, lq: real, d: real, k: real, v: real, rho: real, mu: real)
    requires wq * lam == lq && lq * d == lam * lam * v + rho * rho
    requires k == mu * mu && rho * mu == lam && lam != 0.0
    ensures wq * d * k == lam * (v * k + 1.0)
  {
    assert rho * rho * k == lam * lam by {
      assert rho * rho * (mu * mu) == (rho * mu) * (rho * mu);
    }
    assert lam * (wq * d * k) == lq * d * k;
    assert lq * d * k == lam * lam * v * k + lam * lam;
    assert lam * (wq * d * k) == lam * (lam * (v * k + 1.0));
  }
}
