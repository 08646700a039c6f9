/** The heavy-traffic G/M/1 approximation of `gm1_queue` (G-M-1/TheoricalValues.py): for
    arrival rate lam, service rate mu and squared coefficient of variation ca2 of the
    inter-arrival time, Wq = rho / (1 - rho) * (ca2 + 1) / (2 mu). */
module GM1Formulas {
  import opened Outcomes
  import opened RealArith
  import MM1Formulas
  import MG1Formulas

  /** The approximate wait for a utilization rho other than 1. */
  function ApproxWait(rho: real, mu: real, ca2: real): (w: real)
    requires rho != 1.0 && mu != 0.0
    ensures w * ((1.0 - rho) * (2.0 * mu)) == rho * (ca2 + 1.0)
  {
    var a, b := rho / (1.0 - rho), (ca2 + 1.0) / (2.0 * mu);
    assert a * (1.0 - rho) == rho && b * (2.0 * mu) == ca2 + 1.0;
    assert a * b * ((1.0 - rho) * (2.0 * mu)) == (a * (1.0 - rho)) * (b * (2.0 * mu));
    a * b
  }

  /** The printed wait, queue length, utilization and response time, the same four
      results as `mg1_theoretical`. Raises ValueError unless lam < mu; a zero mu (reachable when lam < 0) raises
      ZeroDivisionError at lam / mu. */
  function Theoretical(lam: real, mu: real, ca2: real): (r: Result<MG1Formulas.Metrics>)
    ensures r == Err(Unstable) <==> lam >= mu
    ensures r == Err(ZeroDivision) <==> lam < mu && mu == 0.0
    ensures r.Ok? <==> lam < mu && mu != 0.0
    ensures r.Ok? ==> r.value.utilization * mu == lam
  {
    if lam >= mu then Err(Unstable)
    else if mu == 0.0 then Err(ZeroDivision)
    else
      var utilization := lam / mu;
      assert utilization * mu == lam;
      Ok(MG1Formulas.Assemble(lam, mu, utilization, ApproxWait(utilization, mu, ca2)))
  }

  /** Response time is wait plus 1 / mu and queue length is lam times the wait (Little's
      law), and the wait is rho (ca2 + 1) / (2 mu (1 - rho)). */
  lemma Identities(lam: real, mu: real, ca2: real)
    requires Theoretical(lam, mu, ca2).Ok?
    ensures var m := Theoretical(lam, mu, ca2).value;
      && m.avgResponseTime == m.avgWaitTime + 1.0 / mu
      && m.avgQueueLength == lam * m.avgWaitTime
      && m.avgWaitTime * ((1.0 - m.utilization) * (2.0 * mu)) == m.utilization * (ca2 + 1.0)
  {
  }

  /** For 0 <= lam < mu and ca2 >= -1 the wait and the queue length are non-negative. */
  lemma WaitNonNegative(lam: real, mu: real, ca2: real)
    requires 0.0 <= lam < mu && -1.0 <= ca2
    ensures Theoretical(lam, mu, ca2).Ok?
    ensures 0.0 <= Theoretical(lam, mu, ca2).value.avgWaitTime
    ensures 0.0 <= Theoretical(lam, mu, ca2).value.avgQueueLength
  {
    var rho := lam / mu;
    QuotientBelowOne(lam, mu);
    QuotientNonNegative(lam, mu);
    var w := ApproxWait(rho, mu, ca2);
    WaitSign(rho, mu, ca2);
    MulNonNegative(lam, w);
  }

  lemma WaitSign(rho: real, mu: real, ca2: real)
    requires 0.0 <= rho < 1.0 && 0.0 < mu && -1.0 <= ca2
    ensures 0.0 <= ApproxWait(rho, mu, ca2)
  {
    QuotientNonNegative(rho, 1.0 - rho);
    QuotientNonNegative(ca2 + 1.0, 2.0 * mu);
    MulNonNegative(rho / (1.0 - rho), (ca2 + 1.0) / (2.0 * mu));
  }

  /** For 0 <= lam < mu a more variable arrival stream never shortens the wait, the
      queue or the response time. */
  lemma WaitMonotone(lam: real, mu: real, ca2: real, ca2': real)
    requires 0.0 <= lam < mu && ca2 <= ca2'
    ensures Theoretical(lam, mu, ca2).Ok? && Theoretical(lam, mu, ca2').Ok?
    ensures var m, m' := Theoretical(lam, mu, ca2).value, Theoretical(lam, mu, ca2').value;
      && m.avgWaitTime <= m'.avgWaitTime
      && m.avgQueueLength <= m'.avgQueueLength
      && m.avgResponseTime <= m'.avgResponseTime
  {
    var rho := lam / mu;
    QuotientBelowOne(lam, mu);
    QuotientNonNegative(lam, mu);
    ApproxWaitMonotone(rho, mu, ca2, ca2');
    MG1Formulas.AssembleMonotone(lam, mu, rho, ApproxWait(rho, mu, ca2), ApproxWait(rho, mu, ca2'));
  }

  lemma ApproxWaitMonotone(rho: real, mu: real, ca2: real, ca2': real)
    requires 0.0 <= rho < 1.0 && 0.0 < mu && ca2 <= ca2'
    ensures ApproxWait(rho, mu, ca2) <= ApproxWait(rho, mu, ca2')
  {
    QuotientMonotone(ca2 + 1.0, ca2' + 1.0, 2.0 * mu);
    QuotientNonNegative(rho, 1.0 - rho);
    MulMonotoneLeft(rho / (1.0 - rho), (ca2 + 1.0) / (2.0 * mu), (ca2' + 1.0) / (2.0 * mu));
  }

  /** With Poisson arrivals (ca2 = 1) and 0 <= lam < mu the approximation is exact: it
      gives the M/M/1 results of `mm1_theoretical_metrics`. */
  lemma AgreesWithMM1(lam: real, mu: real)
    requires 0.0 <= lam < mu
    ensures Theoretical(lam, mu, 1.0).Ok? && MM1Formulas.Theoretical(lam, mu).Ok?
    ensures var m, e := Theoretical(lam, mu, 1.0).value, MM1Formulas.Theoretical(lam, mu).value;
      && m.avgWaitTime == e.wq
      && m.avgQueueLength == e.lq
      && m.utilization == e.rho
      && m.avgResponseTime == e.w
  {
    QuotientBelowOne(lam, mu);
    MM1Formulas.ResponseAndLittle(lam, mu);
    var rho := lam / mu;
    var w := ApproxWait(rho, mu, 1.0);
    var e := MM1Formulas.Theoretical(lam, mu).value;
    var d := 1.0 - rho;
    assert w * (d * (2.0 * mu)) == rho * 2.0;
    assert e.wq * (mu * d) == rho;
    assert (w - e.wq) * (mu * d) == 0.0;
    MulPositive(mu, d);
  }
}
