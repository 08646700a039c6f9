/** The closed-form M/M/1 results of `mm1_theoretical_metrics` (M-M-1/Graph_theorical.py,
    and the identical copy in M-M-1/Graph_simvsth.py): utilization rho = lam / mu, mean
    queue length Lq = rho^2 / (1 - rho), mean wait Wq = rho / (mu (1 - rho)) and mean
    response time W = 1 / (mu - lam). */
module MM1Formulas {
  import opened Outcomes
  import opened RealArith

  /** The tuple (Lq, Wq, rho, W) in the order the function returns it. */
  datatype Metrics = Metrics(lq: real, wq: real, rho: real, w: real)

  /** Raises ValueError unless lam < mu; a zero mu (reachable when lam < 0) raises
      ZeroDivisionError at lam / mu. */
  function Theoretical(lam: real, mu: real): (r: Result<Metrics>)
    ensures r == Err(Unstable) <==> lam >= mu
    ensures r == Err(ZeroDivision) <==> lam < mu && mu == 0.0
    ensures r.Ok? <==> lam < mu && mu != 0.0
    ensures r.Ok? ==> r.value.rho * mu == lam
  {
    if lam >= mu then Err(Unstable)
    else if mu == 0.0 then Err(ZeroDivision)
    else
      var rho := lam / mu;
      Ok(Metrics(rho * rho / (1.0 - rho), rho / (mu * (1.0 - rho)), rho, 1.0 / (mu - lam)))
  }

  /** The response time is the wait plus the mean service time 1 / mu, and the queue
      length is the arrival rate times the wait (Little's law), for every accepted input. */
  lemma ResponseAndLittle(lam: real, mu: real)
    requires Theoretical(lam, mu).Ok?
    ensures var m := Theoretical(lam, mu).value;
      m.w == m.wq + 1.0 / mu && m.lq == lam * m.wq
  {
    var m := Theoretical(lam, mu).value;
    var rho := lam / mu;
    assert rho * mu == lam;
    assert rho != 1.0;
    assert mu * (1.0 - rho) == mu - lam;
    assert m.wq == rho / (mu - lam);
    assert m.wq * (mu - lam) == rho;
    assert (m.wq + 1.0 / mu) * (mu - lam) == rho + (mu - lam) / mu;
    assert (mu - lam) / mu == 1.0 - rho;
    assert m.w * (mu - lam) == 1.0;
    assert m.lq == rho * (rho / (1.0 - rho));
    assert lam * m.wq == rho * (mu * (rho / (mu * (1.0 - rho))));
  }

  /** A stable queue with a non-negative arrival rate has utilization in [0, 1); with a
      positive arrival rate all four results are positive. */
  lemma Positive(lam: real, mu: real)
    requires 0.0 <= lam < mu
    ensures Theoretical(lam, mu).Ok?
    ensures var m := Theoretical(lam, mu).value;
      0.0 <= m.rho < 1.0 && 0.0 < m.w
      && (0.0 < lam ==> 0.0 < m.lq && 0.0 < m.wq && 0.0 < m.rho)
  {
    var rho := lam / mu;
    QuotientNonNegative(lam, mu);
    QuotientBelowOne(lam, mu);
    QuotientPositive(1.0, mu - lam);
    if 0.0 < lam {
      QuotientPositive(lam, mu);
      MulPositive(rho, rho);
      QuotientPositive(rho * rho, 1.0 - rho);
      MulPositive(mu, 1.0 - rho);
      QuotientPositive(rho, mu * (1.0 - rho));
    }
  }
}
