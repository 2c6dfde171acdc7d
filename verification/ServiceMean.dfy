/**
 * The mean service time and the service rate that the controller estimates (server/PoolController.cpp:125-140): when
 * every service took between lo and hi seconds, so does the estimate, from the first one on.
 */
module ServiceMean {
  import opened RealFacts
  import opened PoolProtocol
  import opened ClassPool
  import opened PoolController
  import opened ServiceVariance

  /** Every service in the log took between lo and hi seconds. */
  ghost predicate Took(log: seq<Served>, lo: real, hi: real) {
    forall k :: 0 <= k < |log| ==> lo <= (log[k].doneNs - log[k].deqNs) as real / 1000000000.0 <= hi
  }

  /** n services took s1 seconds together, each between lo and hi. */
  ghost predicate Between(n: real, s1: real, lo: real, hi: real) {
    n >= 0.0 && Mul(lo, n) <= s1 <= Mul(hi, n)
  }

  lemma BetweenAdd(n: real, x: real, m: real, y: real, lo: real, hi: real)
    requires Between(n, x, lo, hi) && Between(m, y, lo, hi)
    ensures Between(n + m, x + y, lo, hi)
  {
    hide Mul;
    MulDistributes(lo, n, m);
    MulDistributes(hi, n, m);
  }

  lemma BetweenScale(k: real, n: real, x: real, lo: real, hi: real)
    requires k >= 0.0 && Between(n, x, lo, hi)
    ensures Between(Mul(k, n), Mul(k, x), lo, hi)
  {
    hide Mul;
    MulPositive(k, n);
    MulOrder(k, Mul(lo, n), x);
    MulOrder(k, x, Mul(hi, n));
    MulSwaps(k, lo, n);
    MulSwaps(k, hi, n);
  }

  lemma MulSwaps(x: real, y: real, z: real)
    ensures Mul(x, Mul(y, z)) == Mul(y, Mul(x, z))
  {}

  lemma OneBetween(s: real, lo: real, hi: real)
    requires lo <= s <= hi
    ensures Between(1.0, s, lo, hi)
  {}

  lemma NoneBetween(lo: real, hi: real)
    ensures Between(0.0, 0.0, lo, hi)
  {}

  /** What a stretch of the log adds to the sums. */
  lemma {:induction false} AddedBetween(early: seq<Served>, late: seq<Served>, lo: real, hi: real)
    requires early <= late && Took(late, lo, hi)
    ensures Between(Added(early, late).done as real, Added(early, late).svc, lo, hi)
    decreases |late|
  {
    hide Added, Between;
    if |early| == |late| {
      NothingAdded(early, late);
      NoneBetween(lo, hi);
    } else {
      AddedOneMore(early, late);
      var init, e := late[..|late| - 1], late[|late| - 1];
      AddedBetween(early, init, lo, hi);
      OneBetween(StatsOf(e).svc, lo, hi);
      BetweenAdd(Added(early, init).done as real, Added(early, init).svc, 1.0, StatsOf(e).svc, lo, hi);
      assert Added(early, late).done as real == Added(early, init).done as real + 1.0;
    }
  }

  lemma NothingAdded(early: seq<Served>, late: seq<Served>)
    requires early <= late && |early| == |late|
    ensures Added(early, late).done == 0 && Added(early, late).svc == 0.0
  {
    assert early == late;
  }

  lemma MixBetween(w: real, n: real, x: real, m: real, y: real, lo: real, hi: real)
    requires 0.0 <= w <= 1.0 && Between(n, x, lo, hi) && Between(m, y, lo, hi)
    ensures Between(Mix(w, n, m), Mix(w, x, y), lo, hi)
  {
    MixIsMul(w, n, m);
    MixIsMul(w, x, y);
    hide Between, Mix, Mul;
    BetweenScale(1.0 - w, n, x, lo, hi);
    BetweenScale(w, m, y, lo, hi);
    BetweenAdd(Mul(1.0 - w, n), Mul(1.0 - w, x), Mul(w, m), Mul(w, y), lo, hi);
  }

  ghost predicate SumsBetween(st: State, lo: real, hi: real) { Between(st.nEma, st.s1Ema, lo, hi) }

  lemma SmoothedBetween(p: Params, num: Numerics, st: State, s: PoolSnapshot, dt: real, early: seq<Served>,
                        late: seq<Served>, lo: real, hi: real)
    requires ValidParams(p) && IsExp(num.exp) && dt > 0.0 && early <= late && Took(late, lo, hi)
    requires AtBoundary(st.prev, early) && AtBoundary(s, late) && SumsBetween(st, lo, hi)
    ensures SumsBetween(Smoothed(p, num, st, s, dt), lo, hi)
  {
    hide Between, Mix, IsExp;
    AddedBetween(early, late, lo, hi);
    WeightInRange(num, dt, p.rateTauSec);
    var d := Added(early, late);
    MixBetween(1.0 - num.exp(-dt / p.rateTauSec), st.nEma, st.s1Ema, d.done as real, d.svc, lo, hi);
  }

  /** An estimate lies where the services do; without one the mean stays, and the sums stay between or start anew. */
  lemma EstimatedBetween(t: State, lo: real, hi: real)
    requires SumsBetween(t, lo, hi)
    ensures SumsBetween(Estimated(t), lo, hi)
    ensures if Estimates(t) then lo <= Estimated(t).meanS <= hi else Estimated(t).meanS == t.meanS
  {
    NoneBetween(lo, hi);
    if Estimates(t) {
      LeDiv(t.s1Ema, t.nEma, lo);
      DivLe(t.s1Ema, t.nEma, hi);
    }
  }

  /** A long idle class starts its sums anew; otherwise they are what the smoothing left. */
  lemma IdleStartsAnew(t: State)
    ensures var e := Estimated(t);
      if !Estimates(t) && t.nEma <= 0.000000000001 then e.nEma == e.s1Ema == e.s2Ema == 0.0
      else e.nEma == t.nEma && e.s1Ema == t.s1Ema && e.s2Ema == t.s2Ema
    ensures !Estimates(t) ==> Estimated(t).cs2 == t.cs2
  {}

  /** The estimates reproduce the smoothed sums: mean times count, and mean square times count. */
  lemma EstimatesMatchSums(t: State)
    requires Estimates(t)
    ensures Mul(Estimated(t).meanS, t.nEma) == t.s1Ema
    ensures Mul(t.s1Ema, t.s1Ema) <= Mul(t.nEma, t.s2Ema) ==>
      Mul(Mul(Estimated(t).cs2 + 1.0, Mul(Estimated(t).meanS, Estimated(t).meanS)), t.nEma) == t.s2Ema
  {
    UnclippedIff(t);
    var m1, m2 := t.s1Ema / t.nEma, t.s2Ema / t.nEma;
    QuotientMul(t.s1Ema, t.nEma);
    QuotientMul(t.s2Ema, t.nEma);
    PositiveQuotient(t.s1Ema, t.nEma);
    SquarePositive(m1);
    QuotientMul(m2, Mul(m1, m1));
    hide Mul;
  }

  /** One smoothing step keeps of the distance to what the tick has seen exactly the share exp(-dt / tau), and of the
      slope's the share 1 - alpha. */
  lemma SmoothingForgets(p: Params, num: Numerics, st: State, s: PoolSnapshot, dt: real)
    requires ValidParams(p) && dt > 0.0
    ensures var t, e, rate := Smoothed(p, num, st, s, dt), num.exp(-dt / p.rateTauSec),
        (s.offered - st.prev.offered) as real / dt;
      && t.lamHat - rate == Mul(e, st.lamHat - rate)
      && t.nEma - (s.done - st.prev.done) as real == Mul(e, st.nEma - (s.done - st.prev.done) as real)
      && t.s1Ema - (s.svcSum - st.prev.svcSum) == Mul(e, st.s1Ema - (s.svcSum - st.prev.svcSum))
      && t.s2Ema - (s.svcSqSum - st.prev.svcSqSum) == Mul(e, st.s2Ema - (s.svcSqSum - st.prev.svcSqSum))
    ensures var slope := ((s.offered - st.prev.offered) as real - (s.dequeued - st.prev.dequeued) as real) / dt;
      Smoothed(p, num, st, s, dt).sHat - slope == Mul(1.0 - p.slopeAlpha, st.sHat - slope)
  {
    var e := num.exp(-dt / p.rateTauSec);
    MixForgets(1.0 - e, st.lamHat, (s.offered - st.prev.offered) as real / dt);
    MixForgets(1.0 - e, st.nEma, (s.done - st.prev.done) as real);
    MixForgets(1.0 - e, st.s1Ema, s.svcSum - st.prev.svcSum);
    MixForgets(1.0 - e, st.s2Ema, s.svcSqSum - st.prev.svcSqSum);
    MixForgets(p.slopeAlpha, st.sHat,
               ((s.offered - st.prev.offered) as real - (s.dequeued - st.prev.dequeued) as real) / dt);
    hide Mix, Mul;
  }

  lemma MixForgets(w: real, x: real, y: real)
    ensures Mix(w, x, y) - y == Mul(1.0 - w, x - y)
  {}

  // ---------------------------------------------------------------- over whole runs

  /** Tick k of the run makes an estimate. */
  ghost predicate EstimateAt(p: Params, num: Numerics, cfg: Config, threads: int, st: State, ins: seq<Input>,
                             ds: seq<Decision>, k: nat)
    requires ValidParams(p) && ValidConfig(cfg, threads) && PoolController.Inv(p, cfg, st)
    requires Run(p, num, cfg, threads, st, ins, ds) && k < |ins|
  {
    StateStep(p, num, cfg, threads, st, ins, ds, k);
    var a := StateAt(p, num, cfg, threads, st, ins, ds, k);
    a.primed && Estimates(Smoothed(p, num, a, ins[k].s, ins[k].dt))
  }

  lemma MeanTick(p: Params, num: Numerics, cfg: Config, threads: int, st: State, i: Input, d: Decision,
                 early: seq<Served>, late: seq<Served>, lo: real, hi: real)
    requires ValidParams(p) && IsExp(num.exp) && PoolController.Inv(p, cfg, st) && i.dt > 0.0 && i.now >= 0.0
    requires AtBoundary(st.prev, early) && AtBoundary(i.s, late) && early <= late && Took(late, lo, hi)
    requires SumsBetween(st, lo, hi)
    ensures var st' := AfterTick(p, num, cfg, threads, st, i, d);
      && SumsBetween(st', lo, hi) && AtBoundary(st'.prev, late)
      && if st.primed && Estimates(Smoothed(p, num, st, i.s, i.dt)) then lo <= st'.meanS <= hi
         else st'.meanS == st.meanS
  {
    hide Between, IsExp, Smoothed, Estimated, Prepared, Decided, Took;
    if st.primed {
      SmoothedBetween(p, num, st, i.s, i.dt, early, late, lo, hi);
      EstimatedBetween(Smoothed(p, num, st, i.s, i.dt), lo, hi);
      SmoothedKeeps(p, num, st, i.s, i.dt);
      RestKeepsSums(p, num, cfg, threads, st, i, d);
    }
  }

  /** Some tick before tick k has made an estimate. */
  ghost predicate HasEstimated(p: Params, num: Numerics, cfg: Config, threads: int, st: State, ins: seq<Input>,
                             ds: seq<Decision>, k: nat)
    requires ValidParams(p) && ValidConfig(cfg, threads) && PoolController.Inv(p, cfg, st)
    requires Run(p, num, cfg, threads, st, ins, ds) && k <= |ins|
  {
    exists j: nat :: j < k && EstimateAt(p, num, cfg, threads, st, ins, ds, j)
  }

  /** The snapshots are taken between jobs, and every service in the logs took between lo and hi seconds. */
  ghost predicate Observed(ins: seq<Input>, logs: seq<seq<Served>>, lo: real, hi: real) {
    AtBoundaries(ins, logs) && forall k :: 0 <= k < |logs| ==> Took(logs[k], lo, hi)
  }

  lemma {:induction false} MeanSince(p: Params, num: Numerics, cfg: Config, threads: int, st: State, ins: seq<Input>,
                                     ds: seq<Decision>, logs: seq<seq<Served>>, lo: real, hi: real, k: nat)
    requires ValidParams(p) && ValidConfig(cfg, threads) && PoolController.Inv(p, cfg, st) && IsExp(num.exp)
    requires Run(p, num, cfg, threads, st, ins, ds) && k <= |ins| && Observed(ins, logs, lo, hi)
    requires SumsBetween(st, lo, hi) && AtBoundary(st.prev, [])
    ensures var s := StateAt(p, num, cfg, threads, st, ins, ds, k);
      && SumsBetween(s, lo, hi) && AtBoundary(s.prev, if k == 0 then [] else logs[k - 1])
      && if HasEstimated(p, num, cfg, threads, st, ins, ds, k) then lo <= s.meanS <= hi else s.meanS == st.meanS
    decreases k
  {
    hide PoolController.Inv, IsExp, AfterTick, TickOf, SumsBetween, AtBoundary, Took, Estimates, Smoothed;
    if k > 0 {
      MeanSince(p, num, cfg, threads, st, ins, ds, logs, lo, hi, k - 1);
      StateStep(p, num, cfg, threads, st, ins, ds, k - 1);
      var a := StateAt(p, num, cfg, threads, st, ins, ds, k - 1);
      TickDefined(p, num, cfg, a, ins[k - 1], ds[k - 1]);
      MeanTick(p, num, cfg, threads, a, ins[k - 1], ds[k - 1], if k == 1 then [] else logs[k - 2], logs[k - 1], lo, hi);
      assert EstimateAt(p, num, cfg, threads, st, ins, ds, k - 1) ==>
        HasEstimated(p, num, cfg, threads, st, ins, ds, k);
    }
  }

  /**
   * In every run from the start whose snapshots are taken between jobs: if every service took between lo and hi
   * seconds, then from the first estimate on the mean does too, and the service rate is between 1 / hi and 1 / lo;
   * before it the rate is what the class was configured with.
   */
  lemma MeanAlways(p: Params, num: Numerics, cfg: Config, threads: int, active: int, ins: seq<Input>,
                   ds: seq<Decision>, logs: seq<seq<Served>>, lo: real, hi: real, k: nat)
    requires ValidParams(p) && ValidConfig(cfg, threads) && cfg.cMin <= active <= cfg.Hw() && IsExp(num.exp)
    requires PoolController.Inv(p, cfg, InitState(cfg, active)) && 0.0 < lo <= hi
    requires Run(p, num, cfg, threads, InitState(cfg, active), ins, ds) && k <= |ins| && Observed(ins, logs, lo, hi)
    ensures var s := StateAt(p, num, cfg, threads, InitState(cfg, active), ins, ds, k);
      && lo * s.nEma <= s.s1Ema <= hi * s.nEma
      && if HasEstimated(p, num, cfg, threads, InitState(cfg, active), ins, ds, k)
         then lo <= s.meanS <= hi && 1.0 / hi <= Mu(cfg, s) <= 1.0 / lo
         else Mu(cfg, s) == if cfg.mu0 > 0.0 then cfg.mu0 else 1.0
  {
    hide Run, StateAt, IsExp, Observed, HasEstimated;
    var st := InitState(cfg, active);
    NoneBetween(lo, hi);
    MeanSince(p, num, cfg, threads, st, ins, ds, logs, lo, hi, k);
    var s := StateAt(p, num, cfg, threads, st, ins, ds, k);
    if lo <= s.meanS <= hi { Reciprocals(lo, s.meanS, hi); }
    if cfg.mu0 > 0.0 { DoubleReciprocal(cfg.mu0); }
  }

  lemma Reciprocals(lo: real, m: real, hi: real)
    requires 0.0 < lo <= m <= hi
    ensures 1.0 / hi <= 1.0 / m <= 1.0 / lo
  {
    DivCompare(1.0, hi, 1.0, m);
    DivCompare(1.0, m, 1.0, lo);
  }

  lemma DoubleReciprocal(x: real)
    requires x > 0.0
    ensures 1.0 / x > 0.0 && 1.0 / (1.0 / x) == x
  {
    PositiveQuotient(1.0, x);
    var r := 1.0 / x;
    assert x * r == 1.0;
    assert x == 1.0 / r;
  }
}
