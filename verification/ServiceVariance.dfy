/**
 * The squared coefficient of variation that the controller estimates (server/PoolController.cpp:125-138) from the
 * workers' sums (server/ClassPool.cpp:148-156) is never negative before it is clipped at 0, as long as every
 * snapshot is taken between jobs.
 */
module ServiceVariance {
  import opened RealFacts
  import opened PoolProtocol
  import opened ClassPool
  import opened PoolController

  /** Count n, sum s1 and sum of squares s2 of some samples satisfy Cauchy-Schwarz. */
  ghost predicate Cone(n: real, s1: real, s2: real) {
    n >= 0.0 && s2 >= 0.0 && Mul(s1, s1) <= Mul(n, s2)
  }

  lemma ConeScale(k: real, n: real, s1: real, s2: real)
    requires k >= 0.0 && Cone(n, s1, s2)
    ensures Cone(Mul(k, n), Mul(k, s1), Mul(k, s2))
  {
    hide Mul;
    MulPositive(k, n);
    MulPositive(k, s2);
    MulPositive(k, k);
    MulInterchange(k, s1, k, s1);
    MulInterchange(k, n, k, s2);
    MulOrder(Mul(k, k), Mul(s1, s1), Mul(n, s2));
  }

  /** n m (n v + m u) >= n^2 y^2 + m^2 x^2 >= 2 n m x y, and n m can be cancelled. */
  lemma ConeCross(n: real, x: real, u: real, m: real, y: real, v: real)
    requires Cone(n, x, u) && Cone(m, y, v) && n > 0.0 && m > 0.0
    ensures 2.0 * Mul(x, y) <= Mul(n, v) + Mul(m, u)
  {
    hide Mul;
    var k, p, q := Mul(n, m), Mul(n, y), Mul(m, x);
    MulPositive(n, m);
    MeanOfSquares(p, q);
    SquareBelow(n, m, y, v);
    SquareBelow(m, n, x, u);
    MulCommutes(n, m);
    MulCommutes(y, x);
    MulInterchange(n, y, m, x);
    MulDistributes(k, Mul(n, v), Mul(m, u));
    MulDistributes(k, Mul(x, y), Mul(x, y));
    MulCancel(k, Mul(x, y) + Mul(x, y), Mul(n, v) + Mul(m, u));
  }

  /** (n y)^2 <= (n m) (n v) when y^2 <= m v. */
  lemma SquareBelow(n: real, m: real, y: real, v: real)
    requires n > 0.0 && Mul(y, y) <= Mul(m, v)
    ensures Mul(Mul(n, y), Mul(n, y)) <= Mul(Mul(n, m), Mul(n, v))
  {
    hide Mul;
    MulPositive(n, n);
    MulInterchange(n, y, n, y);
    MulInterchange(n, m, n, v);
    MulOrder(Mul(n, n), Mul(y, y), Mul(m, v));
  }

  lemma ConeAdd(n: real, x: real, u: real, m: real, y: real, v: real)
    requires Cone(n, x, u) && Cone(m, y, v)
    ensures Cone(n + m, x + y, u + v)
  {
    hide Mul;
    MulPositive(n, v);
    MulPositive(m, u);
    MulPositive(n, u);
    MulPositive(m, v);
    if n > 0.0 && m > 0.0 {
      ConeCross(n, x, u, m, y, v);
    } else {
      if x != 0.0 { SquarePositive(x); }
      if y != 0.0 { SquarePositive(y); }
      MulPositive(x, y);
    }
    MulDistributes(x + y, x, y);
    MulDistributes(x, x, y);
    MulDistributes(y, x, y);
    MulCommutes(x, y);
    MulDistributes(u + v, n, m);
    MulDistributes(n, u, v);
    MulDistributes(m, u, v);
  }

  /** What was added to the sums between two points of the service log. */
  function Added(early: seq<Served>, late: seq<Served>): WorkerStats
    requires early <= late
  {
    var a, b := LogStats(early), LogStats(late);
    LogStatsDone(early);
    LogStatsDone(late);
    WorkerStats(b.done - a.done, b.svc - a.svc, b.svcSq - a.svcSq, b.wait - a.wait)
  }

  lemma {:induction false} LogStatsDone(log: seq<Served>)
    ensures LogStats(log).done == |log|
  {
    if log != [] { LogStatsDone(log[..|log| - 1]); }
  }

  lemma AddedOneMore(early: seq<Served>, late: seq<Served>)
    requires early <= late && |early| < |late|
    ensures early <= late[..|late| - 1]
    ensures Added(early, late) == Added(early, late[..|late| - 1]).Plus(StatsOf(late[|late| - 1]))
  {
    LogStatsDone(late[..|late| - 1]);
  }

  /** Cauchy-Schwarz for the service times of any stretch of the log. */
  lemma {:induction false} AddedInCone(early: seq<Served>, late: seq<Served>)
    requires early <= late
    ensures Cone(Added(early, late).done as real, Added(early, late).svc, Added(early, late).svcSq)
    decreases |late|, 1
  {
    if |early| == |late| {
      assert early == late;
    } else {
      AddedOneMore(early, late);
      ConeOneMore(early, late);
    }
  }

  lemma {:induction false} ConeOneMore(early: seq<Served>, late: seq<Served>)
    requires early <= late && |early| < |late| && early <= late[..|late| - 1]
    requires Added(early, late) == Added(early, late[..|late| - 1]).Plus(StatsOf(late[|late| - 1]))
    ensures Cone(Added(early, late).done as real, Added(early, late).svc, Added(early, late).svcSq)
    decreases |late|, 0
  {
    hide Cone, Added, Seconds;
    AddedInCone(early, late[..|late| - 1]);
    var d, e := Added(early, late[..|late| - 1]), late[|late| - 1];
    var svc := Seconds(e.doneNs - e.deqNs);
    OneSample(svc);
    ConeAdd(d.done as real, d.svc, d.svcSq, 1.0, svc, svc * svc);
    assert StatsOf(e) == WorkerStats(1, svc, svc * svc, StatsOf(e).wait);
    var a := Added(early, late);
    assert a.done as real == d.done as real + 1.0 && a.svc == d.svc + svc && a.svcSq == d.svcSq + svc * svc;
  }

  lemma OneSample(svc: real)
    ensures Cone(1.0, svc, svc * svc)
  {}

  /** The snapshot's sums are those of the log: no worker is between two of its stores. */
  ghost predicate AtBoundary(s: PoolSnapshot, log: seq<Served>) {
    WorkerStats(s.done, s.svcSum, s.svcSqSum, s.waitSum) == LogStats(log)
  }

  /** The smoothing weight is a probability. */
  lemma WeightInRange(num: Numerics, dt: real, tau: real)
    requires IsExp(num.exp) && dt > 0.0 && tau > 0.0
    ensures 0.0 <= 1.0 - num.exp(-dt / tau) <= 1.0
  {
    DivLe(-dt, tau, 0.0);
    assert ExpOrder(num.exp, -dt / tau, 0.0) && ExpPositive(num.exp, -dt / tau);
  }

  lemma MixInCone(w: real, n: real, x: real, u: real, m: real, y: real, v: real)
    requires 0.0 <= w <= 1.0 && Cone(n, x, u) && Cone(m, y, v)
    ensures Cone(Mix(w, n, m), Mix(w, x, y), Mix(w, u, v))
  {
    MixIsMul(w, n, m);
    MixIsMul(w, x, y);
    MixIsMul(w, u, v);
    hide Cone, Mix, Mul;
    ConeScale(1.0 - w, n, x, u);
    ConeScale(w, m, y, v);
    ConeAdd(Mul(1.0 - w, n), Mul(1.0 - w, x), Mul(1.0 - w, u), Mul(w, m), Mul(w, y), Mul(w, v));
  }

  lemma MixIsMul(w: real, x: real, y: real)
    ensures Mix(w, x, y) == Mul(1.0 - w, x) + Mul(w, y)
  {}

  ghost predicate InCone(st: State) { Cone(st.nEma, st.s1Ema, st.s2Ema) }

  /** With both snapshots at job boundaries, smoothing keeps Cauchy-Schwarz. */
  lemma SmoothingInCone(p: Params, num: Numerics, st: State, s: PoolSnapshot, dt: real, early: seq<Served>,
                        late: seq<Served>)
    requires ValidParams(p) && IsExp(num.exp) && dt > 0.0 && early <= late
    requires AtBoundary(st.prev, early) && AtBoundary(s, late) && InCone(st)
    ensures InCone(Smoothed(p, num, st, s, dt))
  {
    hide Cone, Mix, IsExp;
    AddedInCone(early, late);
    WeightInRange(num, dt, p.rateTauSec);
    var d := Added(early, late);
    MixInCone(1.0 - num.exp(-dt / p.rateTauSec), st.nEma, st.s1Ema, st.s2Ema, d.done as real, d.svc, d.svcSq);
  }

  /** The squared coefficient of variation before it is clipped at 0. */
  function Unclipped(t: State): real
    requires t.nEma > 0.0 && t.s1Ema > 0.0
  {
    var m1, m2 := t.s1Ema / t.nEma, t.s2Ema / t.nEma;
    PositiveQuotient(t.s1Ema, t.nEma);
    SquarePositive(m1);
    m2 / Mul(m1, m1) - 1.0
  }

  /** The controller makes an estimate. */
  predicate Estimates(t: State) { t.nEma > 0.000000001 && t.s1Ema > 0.0 }

  /** The clip is idle if and only if the smoothed sums satisfy Cauchy-Schwarz. */
  lemma UnclippedIff(t: State)
    requires Estimates(t)
    ensures Unclipped(t) >= 0.0 <==> Mul(t.s1Ema, t.s1Ema) <= Mul(t.nEma, t.s2Ema)
    ensures Estimated(t).cs2 == Max(0.0, Unclipped(t))
  {
    RatioAtLeastOne(t.nEma, t.s1Ema, t.s2Ema);
    hide Mul;
  }

  lemma RatioAtLeastOne(n: real, s1: real, s2: real)
    requires n > 0.0 && s1 > 0.0
    ensures var m1, m2 := s1 / n, s2 / n;
      m1 > 0.0 && Mul(m1, m1) > 0.0 && (m2 / Mul(m1, m1) >= 1.0 <==> Mul(s1, s1) <= Mul(n, s2))
  {
    hide Mul;
    var m1, m2 := s1 / n, s2 / n;
    PositiveQuotient(s1, n);
    SquarePositive(m1);
    QuotientMul(s1, n);
    QuotientMul(s2, n);
    SquareBelowIff(m1, m2, n, s1, s2);
    LeDiv(m2, Mul(m1, m1), 1.0);
  }

  lemma SquareBelowIff(m1: real, m2: real, n: real, s1: real, s2: real)
    requires n > 0.0 && Mul(m1, n) == s1 && Mul(m2, n) == s2
    ensures Mul(m1, m1) <= m2 <==> Mul(s1, s1) <= Mul(n, s2)
  {
    hide Mul;
    MulPositive(n, n);
    MulInterchange(m1, n, m1, n);
    Regroup(n, m2);
    MulCommutes(Mul(n, n), Mul(m1, m1));
    if Mul(m1, m1) <= m2 { MulOrder(Mul(n, n), Mul(m1, m1), m2); }
    if Mul(s1, s1) <= Mul(n, s2) { MulCancel(Mul(n, n), Mul(m1, m1), m2); }
  }

  lemma Regroup(n: real, m2: real)
    ensures Mul(n, Mul(m2, n)) == Mul(Mul(n, n), m2)
  {}

  /** Then the estimate needs no clipping, and neither it nor the idle reset leaves Cauchy-Schwarz. */
  lemma VarianceNonNegative(t: State)
    requires InCone(t)
    ensures InCone(Estimated(t))
    ensures Estimates(t) ==> Estimated(t).cs2 == Unclipped(t) >= 0.0
  {
    MulPositive(0.0, 0.0);
    hide Mul, Unclipped;
    if Estimates(t) { UnclippedIff(t); }
  }

  // ---------------------------------------------------------------- over whole runs

  /** Sums in the cone, and the last snapshot between jobs. */
  ghost predicate Sound(st: State, log: seq<Served>) { InCone(st) && AtBoundary(st.prev, log) }

  /** The sums, their last snapshot and the estimate. */
  ghost predicate SameSums(a: State, b: State) {
    && a.nEma == b.nEma && a.s1Ema == b.s1Ema && a.s2Ema == b.s2Ema
    && a.prev == b.prev && a.cs2 == b.cs2 && a.meanS == b.meanS
  }

  lemma DecidedKeepsSums(p: Params, cfg: Config, threads: int, t: State, want: int, mu: real, s: PoolSnapshot,
                         now: real)
    requires ValidParams(p) && (t.gainPending ==> t.gainC0 < t.c)
    ensures SameSums(Decided(p, cfg, t, want, mu, s, now, threads), t)
  {
    hide GainWindow, TargetLength;
  }

  /** Everything after the estimate leaves the sums as they are. */
  lemma RestKeepsSums(p: Params, num: Numerics, cfg: Config, threads: int, st: State, i: Input, d: Decision)
    requires ValidParams(p) && PoolController.Inv(p, cfg, st) && st.primed && i.dt > 0.0 && i.now >= 0.0
    ensures SameSums(AfterTick(p, num, cfg, threads, st, i, d), Estimated(Smoothed(p, num, st, i.s, i.dt)))
    ensures Estimated(Smoothed(p, num, st, i.s, i.dt)).prev == i.s
  {
    hide Estimated, Smoothed, GainTooSmall, Decided, LimitMove;
    PreparedLimits(p, num, cfg, st, i);
    SmoothedKeeps(p, num, st, i.s, i.dt);
    EstimatedKeeps(Smoothed(p, num, st, i.s, i.dt));
    var t := Prepared(p, num, cfg, st, i);
    DecidedKeepsSums(p, cfg, threads, t, d.want, Mu(cfg, t), i.s, i.now);
  }

  /** The estimate of a tick from st to st', if it makes one, is the unclipped value. */
  ghost predicate CleanTick(p: Params, num: Numerics, st: State, i: Input, st': State)
    requires ValidParams(p) && i.dt > 0.0
  {
    var t := Smoothed(p, num, st, i.s, i.dt);
    st.primed && Estimates(t) ==> st'.cs2 == Unclipped(t) >= 0.0
  }

  /** A tick between two snapshots at job boundaries: its estimate is not clipped, and the next tick can go on. */
  lemma TickIsSound(p: Params, num: Numerics, cfg: Config, threads: int, st: State, i: Input, d: Decision,
                    early: seq<Served>, late: seq<Served>)
    requires ValidParams(p) && IsExp(num.exp) && PoolController.Inv(p, cfg, st) && i.dt > 0.0 && i.now >= 0.0
    requires Sound(st, early) && AtBoundary(i.s, late) && early <= late
    ensures Sound(AfterTick(p, num, cfg, threads, st, i, d), late)
    ensures CleanTick(p, num, st, i, AfterTick(p, num, cfg, threads, st, i, d))
  {
    hide Cone, IsExp, Smoothed, Estimated, Unclipped, Prepared, Decided;
    if st.primed {
      SmoothingInCone(p, num, st, i.s, i.dt, early, late);
      VarianceNonNegative(Smoothed(p, num, st, i.s, i.dt));
      RestKeepsSums(p, num, cfg, threads, st, i, d);
    }
  }

  /** Snapshot k of a run shows log k, and the log only grows. */
  ghost predicate AtBoundaries(ins: seq<Input>, logs: seq<seq<Served>>) {
    && |logs| == |ins|
    && (forall k :: 0 <= k < |ins| ==> AtBoundary(ins[k].s, logs[k]))
    && (forall k :: 1 <= k < |ins| ==> logs[k - 1] <= logs[k])
  }

  /** Tick k of a run makes a clean estimate. */
  ghost predicate CleanAt(p: Params, num: Numerics, cfg: Config, threads: int, st: State, ins: seq<Input>,
                          ds: seq<Decision>, k: nat)
    requires ValidParams(p) && ValidConfig(cfg, threads) && PoolController.Inv(p, cfg, st)
    requires Run(p, num, cfg, threads, st, ins, ds) && k < |ins|
  {
    StateStep(p, num, cfg, threads, st, ins, ds, k);
    CleanTick(p, num, StateAt(p, num, cfg, threads, st, ins, ds, k), ins[k],
      StateAt(p, num, cfg, threads, st, ins, ds, k + 1))
  }

  lemma {:induction false} SoundAlways(p: Params, num: Numerics, cfg: Config, threads: int, st: State,
                                       ins: seq<Input>, ds: seq<Decision>, logs: seq<seq<Served>>, early: seq<Served>,
                                       k: nat)
    requires ValidParams(p) && ValidConfig(cfg, threads) && PoolController.Inv(p, cfg, st) && IsExp(num.exp)
    requires Run(p, num, cfg, threads, st, ins, ds) && k <= |ins|
    requires Sound(st, early) && AtBoundaries(ins, logs) && (logs != [] ==> early <= logs[0])
    ensures Sound(StateAt(p, num, cfg, threads, st, ins, ds, k), if k == 0 then early else logs[k - 1])
    ensures k > 0 ==> CleanAt(p, num, cfg, threads, st, ins, ds, k - 1)
    decreases k
  {
    hide PoolController.Inv, IsExp, AfterTick, TickOf, Sound, CleanTick, AtBoundary;
    if k > 0 {
      SoundAlways(p, num, cfg, threads, st, ins, ds, logs, early, k - 1);
      StateStep(p, num, cfg, threads, st, ins, ds, k - 1);
      var a := StateAt(p, num, cfg, threads, st, ins, ds, k - 1);
      TickDefined(p, num, cfg, a, ins[k - 1], ds[k - 1]);
      TickIsSound(p, num, cfg, threads, a, ins[k - 1], ds[k - 1], if k == 1 then early else logs[k - 2], logs[k - 1]);
    }
  }

  lemma TickDefined(p: Params, num: Numerics, cfg: Config, st: State, i: Input, d: Decision)
    requires ValidParams(p) && 1 <= cfg.cMin && PoolController.Inv(p, cfg, st) && TickOf(p, num, cfg, st, i, d)
    ensures i.dt > 0.0 && i.now >= 0.0
  {}

  /**
   * In every run of ticks from the start whose snapshots are taken between jobs, every estimate equals its unclipped
   * value, which is not negative.
   */
  lemma NeverClipped(p: Params, num: Numerics, cfg: Config, threads: int, active: int, ins: seq<Input>,
                     ds: seq<Decision>, logs: seq<seq<Served>>, k: nat)
    requires ValidParams(p) && ValidConfig(cfg, threads) && cfg.cMin <= active <= cfg.Hw() && IsExp(num.exp)
    requires PoolController.Inv(p, cfg, InitState(cfg, active))
    requires Run(p, num, cfg, threads, InitState(cfg, active), ins, ds) && k < |ins| && AtBoundaries(ins, logs)
    ensures CleanAt(p, num, cfg, threads, InitState(cfg, active), ins, ds, k)
  {
    hide Run, CleanAt, IsExp;
    MulPositive(0.0, 0.0);
    assert Sound(InitState(cfg, active), []);
    SoundAlways(p, num, cfg, threads, InitState(cfg, active), ins, ds, logs, [], k + 1);
  }

  // ---------------------------------------------------------------- between a worker's stores

  /**
   * A snapshot between a worker's stores can miss the count but see the time. After one job of 1 ms, a second such
   * job seen that way makes the unclipped estimate negative, at every smoothing weight.
   */
  lemma TornSnapshotGoesNegative(p: Params, num: Numerics, st: State, s: PoolSnapshot, dt: real, e: Served)
    requires ValidParams(p) && dt > 0.0 && 0.000000001 < num.exp(-dt / p.rateTauSec) < 1.0
    requires st.nEma == 1.0 && st.s1Ema == 0.001 && st.s2Ema == 0.000001
    requires e.doneNs - e.deqNs == 1000000 && s.done == st.prev.done
    requires s.svcSum == st.prev.svcSum + StatsOf(e).svc && s.svcSqSum == st.prev.svcSqSum + StatsOf(e).svcSq
    ensures InCone(st)
    ensures var t := Smoothed(p, num, st, s, dt); Estimates(t) && Unclipped(t) < 0.0 && Estimated(t).cs2 == 0.0
  {
    assert StatsOf(e).svc == 0.001 && StatsOf(e).svcSq == 0.000001;
    var w := num.exp(-dt / p.rateTauSec);
    MixWith(w, 1.0, 0.0);
    MixWith(w, 0.001, 0.001);
    MixWith(w, 0.000001, 0.000001);
    var t := Smoothed(p, num, st, s, dt);
    assert t.nEma == w && t.s1Ema == 0.001 && t.s2Ema == 0.000001;
    UnclippedIff(t);
  }

  lemma MixWith(w: real, x: real, y: real)
    ensures y == x ==> Mix(1.0 - w, x, y) == x
    ensures y == 0.0 ==> Mix(1.0 - w, x, y) == w * x
  {}
}
