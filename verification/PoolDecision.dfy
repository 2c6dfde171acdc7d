/**
 * What the numbers of a controller tick (server/PoolController.cpp:174-256) amount to, each stated from the parameters
 * and the state alone: the drain of a burst, the admission cap, the gain window, and the thread count and limit after
 * a tick.
 */
module PoolDecision {
  import opened RealFacts
  import opened QueueMath
  import opened ClassPool
  import opened PoolController
  import PoolProtocol

  // ---------------------------------------------------------------- the fluid part

  /** The slope counts only when it exceeds slopeZ times the deviation of its Poisson noise. */
  lemma SlopeIs(p: Params, num: Numerics, st: State, mu: real, flow: real, variance: real, noise: real)
    requires ValidParams(p)
    requires flow == st.lamHat + if st.lamHat < st.c as real * mu then st.lamHat else st.c as real * mu
    requires variance == p.slopeAlpha / (2.0 - p.slopeAlpha) * flow / p.tickSec && noise == num.sqrt(variance)
    ensures Slope(p, num, st, mu) ==
      if st.sHat > p.slopeZ * noise || -st.sHat > p.slopeZ * noise then st.sHat else 0.0
  {
    hide Throughput, NoiseSquared;
    FlowIs(st, mu);
    VarianceIs(p, flow);
  }

  lemma VarianceIs(p: Params, flow: real)
    requires ValidParams(p)
    ensures NoiseSquared(p, flow) == p.slopeAlpha / (2.0 - p.slopeAlpha) * flow / p.tickSec
  {}

  lemma FlowIs(st: State, mu: real)
    ensures Throughput(st, mu) == if st.lamHat < st.c as real * mu then st.lamHat else st.c as real * mu
  {}

  /**
   * A predicted queue over the target asks for the fewest threads whose added capacity works off the excess and the
   * growth within drainSec, at most a million of them; a queue within the target asks for none.
   */
  lemma BurstDrains(p: Params, num: Numerics, st: State, mu: real, qlen: nat, slope: real, over: real)
    requires ValidParams(p) && mu > 0.0 && slope == Slope(p, num, st, mu)
    requires over == qlen as real + slope * p.horizonSec - st.c as real * mu * p.waitTargetSec
    ensures var cB := BurstServers(p, num, st, mu, qlen);
      && (over <= 0.0 ==> cB == 0)
      && (over > 0.0 ==> st.c <= cB <= st.c + 1000000)
      && (over > 0.0 && cB < st.c + 1000000 ==> over + slope * p.drainSec <= (cB - st.c) as real * mu * p.drainSec)
      && (over > 0.0 && cB > st.c ==> over + slope * p.drainSec > (cB - st.c - 1) as real * mu * p.drainSec)
  {
    hide Slope, ThreadsFor;
    TargetIs(p, st.c, mu);
    NeedIs(slope, over, p.drainSec);
    EnoughThreads(slope + over / p.drainSec, mu, p.drainSec);
    BurstIs(p, num, st, mu, qlen, slope, over);
  }

  lemma TargetIs(p: Params, c: int, mu: real)
    ensures TargetLength(p, c, mu) == c as real * mu * p.waitTargetSec
  {}

  lemma BurstIs(p: Params, num: Numerics, st: State, mu: real, qlen: nat, slope: real, over: real)
    requires ValidParams(p) && mu > 0.0 && slope == Slope(p, num, st, mu)
    requires over == qlen as real + slope * p.horizonSec - TargetLength(p, st.c, mu)
    ensures BurstServers(p, num, st, mu, qlen) ==
      if over > 0.0 then st.c + ThreadsFor(slope + over / p.drainSec, mu) else 0
  {
    hide Slope, ThreadsFor, TargetLength;
  }

  lemma NeedIs(slope: real, over: real, d: real)
    requires d > 0.0
    ensures (slope + over / d) * d == over + slope * d
  {
    var q := over / d;
    assert q * d == over;
  }

  lemma EnoughThreads(need: real, mu: real, d: real)
    requires mu > 0.0 && d > 0.0
    ensures var n := ThreadsFor(need, mu);
      && 0 <= n <= 1000000
      && (n < 1000000 ==> need * d <= n as real * mu * d)
      && (n > 0 ==> need * d > (n - 1) as real * mu * d)
  {
    var n := ThreadsFor(need, mu);
    ThreadsBracket(need, mu);
    if n < 1000000 { MulMono(need, n as real * mu, d); }
    if n > 0 {
      var x := (n - 1) as real;
      MulMonoStrict(x * mu, need, d);
    }
  }

  lemma ThreadsBracket(need: real, mu: real)
    requires mu > 0.0
    ensures var n := ThreadsFor(need, mu);
      && 0 <= n <= 1000000
      && (n < 1000000 ==> need <= n as real * mu)
      && (n > 0 ==> (n - 1) as real * mu < need)
  {
    var n := ThreadsFor(need, mu);
    var x := (n - 1) as real;
    DivLe(need, mu, n as real);
    DivLe(need, mu, x);
    LeDiv(need, mu, 0.0);
  }

  // ---------------------------------------------------------------- the admission cap

  /** The dynamic cap is the whole part of the jobs done in waitMaxSec, but no less than kMin and no more than kMax. */
  lemma CapIs(p: Params, cfg: Config, c: int, mu: real, work: real)
    requires p.kMin <= p.kMax && work == c as real * mu * p.waitMaxSec
    ensures var k := CapFor(p, cfg, c, mu);
      && (!cfg.dynamicCap ==> k == cfg.fixedCap)
      && (cfg.dynamicCap ==>
            && p.kMin <= k <= p.kMax
            && (k > p.kMin ==> k as real <= work)
            && (k < p.kMax ==> work < k as real + 1.0))
  {
    hide ClampCap, WorkIn;
    WorkIs(p, c, mu);
    CapCut(work, p);
  }

  lemma WorkIs(p: Params, c: int, mu: real)
    ensures WorkIn(p, c, mu) == c as real * mu * p.waitMaxSec
  {}

  lemma CapCut(work: real, p: Params)
    requires p.kMin <= p.kMax
    ensures p.kMin <= ClampCap(work, p) <= p.kMax
    ensures ClampCap(work, p) > p.kMin ==> ClampCap(work, p) as real <= work
    ensures ClampCap(work, p) < p.kMax ==> work < ClampCap(work, p) as real + 1.0
  {}

  // ---------------------------------------------------------------- the gain window

  /**
   * Of the completions expected in the window, n = c1 mu w, the Poisson deviation times gainZ is within the gain that
   * the added threads must show, g = gainMin (c1 - c0) mu w, unless the window is cut at 5 s; and the window is no
   * longer than that takes, unless it is at its minimum.
   */
  lemma WindowBeatsNoise(p: Params, c0: int, c1: int, mu: real, m: real, n: real, g: real)
    requires ValidParams(p) && c0 < c1 && m == if mu < 0.000000001 then 0.000000001 else mu
    requires n == c1 as real * m * GainWindow(p, c0, c1, mu)
    requires g == p.gainMin * (c1 - c0) as real * m * GainWindow(p, c0, c1, mu)
    ensures GainWindow(p, c0, c1, mu) < 5.0 ==> p.gainZ * p.gainZ * n <= g * g
    ensures GainWindow(p, c0, c1, mu) > p.gainWindowSec ==> p.gainZ * p.gainZ * n >= g * g
  {
    hide WindowNeed, GainDivisor;
    var w, q, dc := GainWindow(p, c0, c1, mu), WindowNeed(p, c0, c1, mu), (c1 - c0) as real;
    var top, d := p.gainZ * p.gainZ * c1 as real, GainDivisor(p.gainMin, dc, m);
    WindowNeedIs(p, c0, c1, mu, m, dc);
    PositiveProduct(m, w);
    var x := m * w;
    WindowTerms(p.gainZ, c1 as real, m, w, p.gainMin, dc, n, g);
    if w < 5.0 { Scaled(top, q, d, w, x); }
    if w > p.gainWindowSec { Scaled2(top, q, d, w, x); }
  }

  lemma Scaled(top: real, q: real, d: real, w: real, x: real)
    requires q * d == top && d > 0.0 && q <= w && x > 0.0
    ensures top * x <= w * d * x
  {
    MulMono(q, w, d);
    MulMono(top, w * d, x);
  }

  lemma Scaled2(top: real, q: real, d: real, w: real, x: real)
    requires q * d == top && d > 0.0 && w <= q && x > 0.0
    ensures top * x >= w * d * x
  {
    MulMono(w, q, d);
    MulMono(w * d, top, x);
  }

  lemma WindowNeedIs(p: Params, c0: int, c1: int, mu: real, m: real, dc: real)
    requires ValidParams(p) && c0 < c1 && dc == (c1 - c0) as real
    requires m == if mu < 0.000000001 then 0.000000001 else mu
    ensures GainDivisor(p.gainMin, dc, m) > 0.0
    ensures WindowNeed(p, c0, c1, mu) * GainDivisor(p.gainMin, dc, m) == p.gainZ * p.gainZ * c1 as real
  {
    hide GainDivisor;
    assert m == Max(mu, 0.000000001);
    GainDivisorPositive(p.gainMin, dc, m);
    Undivided(p.gainZ * p.gainZ * c1 as real, GainDivisor(p.gainMin, dc, m));
  }

  lemma Undivided(x: real, d: real)
    requires d > 0.0
    ensures x / d * d == x
  {}

  lemma WindowTerms(z: real, c1: real, m: real, w: real, gainMin: real, dc: real, n: real, g: real)
    requires n == c1 * m * w && g == gainMin * dc * m * w
    ensures z * z * c1 * (m * w) == z * z * n
    ensures w * GainDivisor(gainMin, dc, m) * (m * w) == g * g
  {
    var x := m * w;
    assert n == c1 * x;
    assert g == gainMin * dc * x;
    assert z * z * n == z * z * c1 * x;
    assert g * g == (gainMin * dc) * (gainMin * dc) * (x * x);
    assert w * (gainMin * gainMin * dc * dc * m) * x == gainMin * gainMin * dc * dc * (m * w) * x;
  }

  // ---------------------------------------------------------------- the thread count after a tick

  /**
   * Growth is at once and to what is wanted; shrinking is by one thread, only after the hold has lasted through a queue
   * shorter than half its target, and never stays above the limit; a class that is not adaptive keeps its threads.
   */
  lemma ThreadsAfterTick(p: Params, num: Numerics, cfg: Config, threads: int, st: State, i: Input, d: Decision,
                         target: real)
    requires ValidParams(p) && ValidConfig(cfg, threads) && Inv(p, cfg, st) && st.primed
    requires TickOf(p, num, cfg, st, i, d)
    requires target == st.c as real * Mu(cfg, Prepared(p, num, cfg, st, i)) * p.waitTargetSec
    ensures var st' := AfterTick(p, num, cfg, threads, st, i, d);
      var held := i.s.qlen as real < target / 2.0 && st.shrinkFrom >= 0.0 && i.now - st.shrinkFrom >= p.shrinkHoldSec;
      var down := if held then st.c - 1 else st.c;
      && d.want <= st'.cMaxEff
      && st'.c == if !cfg.adaptive then st.c
                  else if d.want >= st.c then d.want
                  else if down < st'.cMaxEff then down else st'.cMaxEff
  {
    hide Prepared, TargetLength, GainWindow, IsMinServers, BurstServers, CapTooSmall, LimitMove, Mu;
    PreparedLimits(p, num, cfg, st, i);
    var t := Prepared(p, num, cfg, st, i);
    MuPositive(cfg, t);
    PreparedKeepsHold(p, num, cfg, st, i);
    TargetIs(p, st.c, Mu(cfg, t));
  }

  /** A lowered limit rises only to c_max, and no sooner than cMaxRestoreSec after the cut that lowered it. */
  lemma RestoreIsPatient(p: Params, num: Numerics, cfg: Config, threads: int, st: State, i: Input, d: Decision)
    requires ValidParams(p) && Inv(p, cfg, st) && st.primed && i.dt > 0.0 && i.now >= 0.0
    requires AfterTick(p, num, cfg, threads, st, i, d).cMaxEff > st.cMaxEff
    ensures AfterTick(p, num, cfg, threads, st, i, d).cMaxEff == if cfg.cMin < cfg.cMax then cfg.cMax else cfg.cMin
    ensures st.cMaxCutAt >= 0.0 && i.now - st.cMaxCutAt >= p.cMaxRestoreSec
  {
    hide AfterTick;
    LimitAfterTick(p, num, cfg, threads, st, i, d);
  }

  /** A growth starts the probe anew; one still within its window keeps the thread count and rate that it began with. */
  lemma ProbeAfterGrowth(p: Params, num: Numerics, cfg: Config, threads: int, st: State, i: Input, d: Decision)
    requires ValidParams(p) && ValidConfig(cfg, threads) && Inv(p, cfg, st) && st.primed
    requires TickOf(p, num, cfg, st, i, d) && cfg.adaptive && d.want > st.c
    ensures var st' := AfterTick(p, num, cfg, threads, st, i, d);
      var running := st.gainPending && i.now - st.gainT0 < st.gainWin;
      && st'.gainPending && st'.gainC1 == d.want && st'.gainT0 == i.now && st'.gainDone0 == i.s.done
      && st'.gainC0 == (if running then st.gainC0 else st.c)
      && st'.gainMu == if running then st.gainMu else Mu(cfg, Prepared(p, num, cfg, st, i))
  {
    hide Prepared, TargetLength, GainWindow, IsMinServers, BurstServers, CapTooSmall, LimitMove, Mu;
    PreparedLimits(p, num, cfg, st, i);
    MuPositive(cfg, Prepared(p, num, cfg, st, i));
    ProbeRuns(p, num, cfg, st, i);
  }

  /** Before the decision a probe is still pending exactly while its window runs. */
  lemma ProbeRuns(p: Params, num: Numerics, cfg: Config, st: State, i: Input)
    requires ValidParams(p) && Inv(p, cfg, st) && i.dt > 0.0
    ensures var t := Prepared(p, num, cfg, st, i);
      && t.gainPending == (st.gainPending && i.now - st.gainT0 < st.gainWin)
      && t.gainC0 == st.gainC0 && t.gainMu == st.gainMu && t.c == st.c
  {
    hide Estimated, Smoothed, GainTooSmall;
    SmoothedKeeps(p, num, st, i.s, i.dt);
    EstimatedKeeps(Smoothed(p, num, st, i.s, i.dt));
  }
}
