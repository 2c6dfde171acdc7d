/** The 10 ms controller of server/PoolController.cpp, over the reals. */
module PoolController {
  import opened RealFacts
  import opened QueueMath
  import opened ClassPool
  import PoolProtocol

  datatype Params = Params(
    tickSec: real, waitTargetSec: real, waitTailP: real, waitMaxSec: real, slopeAlpha: real, slopeZ: real,
    rateTauSec: real, horizonSec: real, drainSec: real, rhoMax: real, shrinkHoldSec: real, gainWindowSec: real,
    gainMin: real, gainZ: real, cMaxRestoreSec: real, kFloorEps: real, ca2: real, kMin: nat, kMax: nat)

  /** The values of ControllerParams. */
  const DEFAULTS := Params(0.010, 0.050, 0.01, 1.0, 0.3, 3.0, 1.0, 0.100, 0.5, 0.9, 0.200, 0.100, 0.5, 3.0, 10.0,
                           0.0001, 1.0, 64, 131072)

  /** What the arithmetic below needs of the parameters. */
  ghost predicate ValidParams(p: Params) {
    && p.tickSec > 0.0 && 0.0 <= p.slopeAlpha < 2.0 && p.rateTauSec > 0.0 && p.drainSec > 0.0
    && 0.0 < p.gainWindowSec <= 5.0 && p.gainMin > 0.0 && p.cMaxRestoreSec >= 0.0 && p.kFloorEps > 0.0
  }

  lemma DefaultsValid()
    ensures ValidParams(DEFAULTS)
  {}

  datatype Numerics = Numerics(exp: real -> real, ln: real -> real, sqrt: real -> real)

  datatype Config = Config(mu0: real, cs2Prior: real, adaptive: bool, dynamicCap: bool,
                           fixedCap: nat, cMin: int, cMax: int) {
    /** The configured c_max. */
    function Hw(): int { if cMin < cMax then cMax else cMin }
  }

  const NO_MINIMUM: nat := 0xFFFF_FFFF_FFFF_FFFF

  datatype State = State(
    prev: PoolSnapshot, primed: bool,
    sHat: real, lamHat: real, nEma: real, s1Ema: real, s2Ema: real, meanS: real, cs2: real,
    c: int, cMaxEff: int, cMaxCutAt: real, shrinkFrom: real,
    gainPending: bool, gainC0: int, gainC1: int, gainT0: real, gainWin: real, gainDone0: nat,
    gainMu: real, gainMinQ: nat)

  datatype Decision = Decision(cSs: int, cB: int, want: int)

  function InitState(cfg: Config, active: int): State {
    State(PoolSnapshot(0, 0, 0, 0, 0, 0.0, 0.0, 0.0, 0, 0, 0, 0), false,
          0.0, 0.0, 0.0, 0.0, 0.0, if cfg.mu0 > 0.0 then 1.0 / cfg.mu0 else 1.0, cfg.cs2Prior,
          active, cfg.Hw(), -1.0, -1.0,
          false, 0, 0, 0.0, 0.0, 0, 0.0, 0)
  }

  // ---------------------------------------------------------------- the parts of a tick

  /** One exponential smoothing step. */
  function Mix(w: real, x: real, y: real): real { (1.0 - w) * x + w * y }

  function Smoothed(p: Params, num: Numerics, st: State, s: PoolSnapshot, dt: real): State
    requires ValidParams(p) && dt > 0.0
  {
    var inst := ((s.offered - st.prev.offered) as real - (s.dequeued - st.prev.dequeued) as real) / dt;
    var ar := 1.0 - num.exp(-dt / p.rateTauSec);
    st.(prev := s,
        sHat := Mix(p.slopeAlpha, st.sHat, inst),
        lamHat := Mix(ar, st.lamHat, (s.offered - st.prev.offered) as real / dt),
        nEma := Mix(ar, st.nEma, (s.done - st.prev.done) as real),
        s1Ema := Mix(ar, st.s1Ema, s.svcSum - st.prev.svcSum),
        s2Ema := Mix(ar, st.s2Ema, s.svcSqSum - st.prev.svcSqSum))
  }

  function Estimated(st: State): State {
    if st.nEma > 0.000000001 && st.s1Ema > 0.0 then
      var m1 := st.s1Ema / st.nEma;
      var m2 := st.s2Ema / st.nEma;
      PositiveQuotient(st.s1Ema, st.nEma);
      SquarePositive(m1);
      st.(meanS := m1, cs2 := Max(0.0, m2 / Mul(m1, m1) - 1.0))
    else if st.nEma <= 0.000000000001 then st.(nEma := 0.0, s1Ema := 0.0, s2Ema := 0.0)
    else st
  }

  function Mu(cfg: Config, st: State): real {
    if st.meanS > 0.0 then 1.0 / st.meanS else cfg.mu0
  }

  /** The cut is old enough to be taken back. */
  predicate RestoreDue(p: Params, cfg: Config, st: State, now: real) {
    st.cMaxEff < cfg.Hw() && st.cMaxCutAt >= 0.0 && now - st.cMaxCutAt >= p.cMaxRestoreSec
  }

  function Restored(p: Params, cfg: Config, st: State, now: real): State {
    if RestoreDue(p, cfg, st, now) then st.(cMaxEff := cfg.Hw(), cMaxCutAt := -1.0) else st
  }

  /** The last growth has brought too little throughput although the queue was never empty. */
  predicate GainTooSmall(p: Params, st: State, done: nat, now: real)
    requires now - st.gainT0 > 0.0
  {
    var x1 := (done - st.gainDone0) as real / (now - st.gainT0);
    var gain := x1 - st.gainC0 as real * st.gainMu;
    st.gainMinQ >= 1 && gain < p.gainMin * st.gainMu * (st.gainC1 - st.gainC0) as real
  }

  function GainChecked(p: Params, cfg: Config, st: State, s: PoolSnapshot, now: real): State
    requires st.gainPending ==> st.gainWin > 0.0
  {
    if !st.gainPending then st
    else
      var st1 := st.(gainMinQ := if s.qlen < st.gainMinQ then s.qlen else st.gainMinQ);
      if now - st.gainT0 < st.gainWin then st1
      else if GainTooSmall(p, st1, s.done, now) then
        st1.(gainPending := false, cMaxEff := if cfg.cMin < st.gainC0 then st.gainC0 else cfg.cMin, cMaxCutAt := now)
      else st1.(gainPending := false)
  }

  function ClampCap(k: real, p: Params): nat {
    var k := if k > 0.0 then k else 0.0;
    if k > p.kMax as real then p.kMax
    else if p.kMin < k.Floor then k.Floor else p.kMin
  }

  /** How many jobs c threads can do in waitMaxSec. */
  function WorkIn(p: Params, c: int, mu: real): real { c as real * mu * p.waitMaxSec }

  function CapFor(p: Params, cfg: Config, c: int, mu: real): nat {
    if cfg.dynamicCap then ClampCap(WorkIn(p, c, mu), p) else cfg.fixedCap
  }

  /** The target queue length. */
  function TargetLength(p: Params, c: int, mu: real): real { c as real * mu * p.waitTargetSec }

  function Throughput(st: State, mu: real): real { Min(st.lamHat, st.c as real * mu) }

  /** The variance of the smoothed slope when arrivals and departures are Poisson. */
  function NoiseSquared(p: Params, flow: real): real
    requires ValidParams(p)
  {
    p.slopeAlpha / (2.0 - p.slopeAlpha) * flow / p.tickSec
  }

  /** The slope, where it stands out of the noise. */
  function Slope(p: Params, num: Numerics, st: State, mu: real): real
    requires ValidParams(p)
  {
    var sigma := num.sqrt(NoiseSquared(p, st.lamHat + Throughput(st, mu)));
    if Abs(st.sHat) > p.slopeZ * sigma then st.sHat else 0.0
  }

  function ThreadsFor(need: real, mu: real): int
    requires mu > 0.0
  {
    Ceil(if need > 0.0 then Min(need / mu, 1000000.0) else 0.0)
  }

  /** The fluid part: threads needed to drain the predicted excess, 0 when there is none. */
  function BurstServers(p: Params, num: Numerics, st: State, mu: real, qlen: nat): int
    requires ValidParams(p) && mu > 0.0
  {
    var slope := Slope(p, num, st, mu);
    var over := qlen as real + slope * p.horizonSec - TargetLength(p, st.c, mu);
    if over > 0.0 then st.c + ThreadsFor(slope + over / p.drainSec, mu) else 0
  }

  /** c threads cannot absorb random variation within the admission cap. */
  predicate CapTooSmall(p: Params, num: Numerics, cfg: Config, st: State, mu: real, c: int)
    requires ValidParams(p) && mu > 0.0 && c > 0
  {
    KFloor(num.ln, Rho(c, st.lamHat, mu), p.ca2, st.cs2, p.kFloorEps) > CapFor(p, cfg, c, mu) as real
  }

  /** What the decision must be: the larger demand, clamped, then raised while the cap is too small. */
  ghost predicate IsDecision(p: Params, num: Numerics, cfg: Config, st: State, mu: real, qlen: nat, d: Decision)
    requires ValidParams(p) && mu > 0.0 && 1 <= cfg.cMin <= st.cMaxEff
  {
    var base := PoolProtocol.Clamp(if d.cSs < d.cB then d.cB else d.cSs, cfg.cMin, st.cMaxEff);
    && IsMinServers(num.exp, d.cSs, st.lamHat, mu, p.waitTargetSec, p.waitTailP, p.rhoMax, p.ca2, st.cs2, st.cMaxEff)
    && d.cB == BurstServers(p, num, st, mu, qlen)
    && base <= d.want <= st.cMaxEff
    && (forall c :: base <= c < d.want ==> CapTooSmall(p, num, cfg, st, mu, c))
    && (d.want < st.cMaxEff ==> !CapTooSmall(p, num, cfg, st, mu, d.want))
  }

  /** How long it takes until the gain of a growth from c0 to c1 stands out of the noise. */
  function WindowNeed(p: Params, c0: int, c1: int, mu: real): real
    requires ValidParams(p) && c0 < c1
  {
    var dc, m := (c1 - c0) as real, Max(mu, 0.000000001);
    GainDivisorPositive(p.gainMin, dc, m);
    p.gainZ * p.gainZ * c1 as real / GainDivisor(p.gainMin, dc, m)
  }

  /** The window over which the throughput gain of a growth is judged; it divides by the growth c1 - c0. */
  function GainWindow(p: Params, c0: int, c1: int, mu: real): (w: real)
    requires ValidParams(p) && c0 < c1
    ensures p.gainWindowSec <= w <= 5.0
  {
    Max(p.gainWindowSec, Min(WindowNeed(p, c0, c1, mu), 5.0))
  }

  function GainDivisor(g: real, dc: real, m: real): real { g * g * dc * dc * m }

  lemma GainDivisorPositive(g: real, dc: real, m: real)
    requires g > 0.0 && dc > 0.0 && m > 0.0
    ensures GainDivisor(g, dc, m) > 0.0
  {
    PositiveProduct(dc, m);
    PositiveProduct(dc, dc * m);
    PositiveProduct(g, dc * (dc * m));
    PositiveProduct(g, g * (dc * (dc * m)));
    assert g * g * dc * dc * m == g * (g * (dc * (dc * m)));
  }

  /** Growing at once: start or extend the gain window. */
  function Grown(p: Params, st: State, want: int, mu: real, done: nat, now: real): State
    requires ValidParams(p) && (if st.gainPending then st.gainC0 else st.c) < want
  {
    var c0 := if st.gainPending then st.gainC0 else st.c;
    var m := if st.gainPending then st.gainMu else mu;
    st.(shrinkFrom := -1.0, gainPending := true, gainC0 := c0, gainMu := m, gainC1 := want, gainT0 := now,
        gainWin := GainWindow(p, c0, want, m), gainDone0 := done, gainMinQ := NO_MINIMUM)
  }

  /** Shrinking by one when the queue has been short for long enough; c itself is set by the caller. */
  function ShrinkStep(p: Params, st: State, qlen: nat, mu: real, now: real): (State, int) {
    if qlen as real < TargetLength(p, st.c, mu) / 2.0 then
      if st.shrinkFrom < 0.0 then (st.(shrinkFrom := now), st.c)
      else if now - st.shrinkFrom >= p.shrinkHoldSec then (st.(shrinkFrom := now, gainPending := false), st.c - 1)
      else (st, st.c)
    else (st.(shrinkFrom := -1.0), st.c)
  }

  /** The thread count after the decision: clamped to the limits, then by the pool to its threads. */
  function SetC(cfg: Config, st: State, newC: int, threads: int): State {
    var k := PoolProtocol.Clamp(newC, cfg.cMin, st.cMaxEff);
    if k == st.c then st else st.(c := PoolProtocol.Clamp(k, 1, threads))
  }

  function Decided(p: Params, cfg: Config, st: State, want: int, mu: real, s: PoolSnapshot, now: real,
                   threads: int): State
    requires ValidParams(p)
    requires st.gainPending ==> st.gainC0 < st.c
  {
    if !cfg.adaptive then st
    else if want > st.c then SetC(cfg, Grown(p, st, want, mu, s.done, now), want, threads)
    else if want < st.c then
      var (st1, newC) := ShrinkStep(p, st, s.qlen, mu, now);
      SetC(cfg, st1, newC, threads)
    else SetC(cfg, st.(shrinkFrom := -1.0), st.c, threads)
  }

  // ---------------------------------------------------------------- the invariant

  /** The limits main.cpp hands over: at least one thread, and no more than the pool has. */
  ghost predicate ValidConfig(cfg: Config, threads: int) {
    1 <= cfg.cMin && cfg.Hw() <= threads
  }

  ghost predicate Inv(p: Params, cfg: Config, st: State) {
    && cfg.cMin <= st.c <= st.cMaxEff <= cfg.Hw()
    && (st.cMaxCutAt >= 0.0 <==> st.cMaxEff < cfg.Hw())
    && (st.gainPending ==> cfg.adaptive && cfg.cMin <= st.gainC0 < st.gainC1 == st.c && st.gainWin >= p.gainWindowSec)
    && st.meanS > 0.0
  }

  datatype Input = Input(s: PoolSnapshot, now: real, dt: real)

  /** The state from which the decision is taken. */
  function Prepared(p: Params, num: Numerics, cfg: Config, st: State, i: Input): State
    requires ValidParams(p) && i.dt > 0.0 && (st.gainPending ==> st.gainWin > 0.0)
  {
    GainChecked(p, cfg, Restored(p, cfg, Estimated(Smoothed(p, num, st, i.s, i.dt)), i.now), i.s, i.now)
  }

  lemma MuPositive(cfg: Config, st: State)
    requires st.meanS > 0.0
    ensures Mu(cfg, st) > 0.0
  {
    PositiveQuotient(1.0, st.meanS);
  }

  lemma EstimatedKeeps(st: State)
    requires st.meanS > 0.0
    ensures Estimated(st).meanS > 0.0
    ensures Estimated(st) == st.(nEma := Estimated(st).nEma, s1Ema := Estimated(st).s1Ema, s2Ema := Estimated(st).s2Ema,
                                 meanS := Estimated(st).meanS, cs2 := Estimated(st).cs2)
  {
    if st.nEma > 0.000000001 && st.s1Ema > 0.0 { PositiveQuotient(st.s1Ema, st.nEma); }
  }

  /** A tick keeps the limit when no restore is due, restores it when one is, or cuts it below where it was. */
  ghost predicate LimitMove(p: Params, cfg: Config, st: State, st': State, now: real) {
    || (st'.cMaxEff == st.cMaxEff && st'.cMaxCutAt == st.cMaxCutAt && !RestoreDue(p, cfg, st, now))
    || (st'.cMaxEff == cfg.Hw() && RestoreDue(p, cfg, st, now))
    || (cfg.cMin <= st'.cMaxEff < st.cMaxEff && st'.cMaxCutAt == now)
  }

  /** What the first half of a tick does to the limit: keep it, restore it, or cut it below where it was. */
  lemma PreparedLimits(p: Params, num: Numerics, cfg: Config, st: State, i: Input)
    requires ValidParams(p) && Inv(p, cfg, st) && i.dt > 0.0 && i.now >= 0.0
    ensures var t := Prepared(p, num, cfg, st, i);
      && cfg.cMin <= t.cMaxEff <= cfg.Hw() && t.c == st.c && t.meanS > 0.0
      && (t.cMaxCutAt >= 0.0 <==> t.cMaxEff < cfg.Hw())
      && (t.gainPending ==>
            st.gainPending && t.gainC0 == st.gainC0 && t.gainWin == st.gainWin
            && t.gainC1 == st.c && st.c <= t.cMaxEff)
      && (t.cMaxEff < st.c ==> cfg.adaptive && t.cMaxEff < st.cMaxEff && t.cMaxCutAt == i.now && !t.gainPending)
      && LimitMove(p, cfg, st, t, i.now)
  {
    hide Estimated, Smoothed, GainTooSmall;
    SmoothedKeeps(p, num, st, i.s, i.dt);
    EstimatedKeeps(Smoothed(p, num, st, i.s, i.dt));
  }

  lemma SmoothedKeeps(p: Params, num: Numerics, st: State, s: PoolSnapshot, dt: real)
    requires ValidParams(p) && dt > 0.0
    ensures var t := Smoothed(p, num, st, s, dt);
      t == st.(prev := s, sHat := t.sHat, lamHat := t.lamHat, nEma := t.nEma, s1Ema := t.s1Ema, s2Ema := t.s2Ema)
  {}

  /** The inputs a tick can get, and the decision it then takes. */
  ghost predicate TickOf(p: Params, num: Numerics, cfg: Config, st: State, i: Input, d: Decision)
    requires ValidParams(p) && 1 <= cfg.cMin && Inv(p, cfg, st)
  {
    && i.dt > 0.0 && i.now >= 0.0
    && (st.primed ==>
          var t := Prepared(p, num, cfg, st, i);
          PreparedLimits(p, num, cfg, st, i);
          MuPositive(cfg, t);
          IsDecision(p, num, cfg, t, Mu(cfg, t), i.s.qlen, d))
  }

  /** One tick: the first snapshot only primes; later ones estimate, restore, check the gain and decide. */
  function AfterTick(p: Params, num: Numerics, cfg: Config, threads: int, st: State, i: Input, d: Decision): State
    requires ValidParams(p) && Inv(p, cfg, st) && i.dt > 0.0 && i.now >= 0.0
  {
    if !st.primed then st.(prev := i.s, primed := true)
    else
      PreparedLimits(p, num, cfg, st, i);
      var t := Prepared(p, num, cfg, st, i);
      Decided(p, cfg, t, d.want, Mu(cfg, t), i.s, i.now, threads)
  }

  /** Any decision within the limits keeps the invariant; c moves by more than one down only to a lowered limit. */
  lemma DecidedKeepsInv(p: Params, cfg: Config, threads: int, t: State, want: int, mu: real, s: PoolSnapshot, now: real)
    requires ValidParams(p) && ValidConfig(cfg, threads) && t.meanS > 0.0
    requires cfg.cMin <= want <= t.cMaxEff <= cfg.Hw() && (t.cMaxCutAt >= 0.0 <==> t.cMaxEff < cfg.Hw())
    requires cfg.cMin <= t.c <= cfg.Hw() && (t.c > t.cMaxEff ==> cfg.adaptive && !t.gainPending)
    requires t.gainPending ==> cfg.adaptive && cfg.cMin <= t.gainC0 < t.gainC1 == t.c && t.gainWin >= p.gainWindowSec
    ensures var st' := Decided(p, cfg, t, want, mu, s, now, threads);
      && Inv(p, cfg, st') && st'.cMaxEff == t.cMaxEff && st'.cMaxCutAt == t.cMaxCutAt
      && (st'.c < t.c - 1 ==> st'.c == t.cMaxEff < t.c)
      && (st'.c > t.c ==> st'.c == want)
  {
    hide TargetLength, GainWindow;
  }

  lemma InitInv(p: Params, cfg: Config, active: int)
    requires cfg.cMin <= active <= cfg.Hw()
    ensures Inv(p, cfg, InitState(cfg, active))
  {
    if cfg.mu0 > 0.0 { PositiveQuotient(1.0, cfg.mu0); }
  }

  /**
   * The controller invariant, for every snapshot and clock reading; what a tick does to the limit; and c falls by
   * more than one only in a tick that cut the limit.
   */
  lemma TickKeepsInv(p: Params, num: Numerics, cfg: Config, threads: int, st: State, i: Input, d: Decision)
    requires ValidParams(p) && ValidConfig(cfg, threads) && Inv(p, cfg, st) && TickOf(p, num, cfg, st, i, d)
    ensures var st' := AfterTick(p, num, cfg, threads, st, i, d);
      && Inv(p, cfg, st') && st'.primed
      && (st'.c < st.c - 1 ==> st'.cMaxEff < st.cMaxEff && st'.cMaxCutAt == i.now && st'.c == st'.cMaxEff)
      && (st.primed ==> LimitMove(p, cfg, st, st', i.now))
  {
    hide Prepared, Decided, BurstServers, CapTooSmall, IsMinServers;
    if st.primed {
      PreparedLimits(p, num, cfg, st, i);
      var t := Prepared(p, num, cfg, st, i);
      MuPositive(cfg, t);
      DecidedKeepsInv(p, cfg, threads, t, d.want, Mu(cfg, t), i.s, i.now);
      DecidedKeepsPrimed(p, cfg, threads, t, d.want, Mu(cfg, t), i.s, i.now);
      PreparedKeepsPrimed(p, num, cfg, st, i);
    }
  }

  lemma DecidedKeepsPrimed(p: Params, cfg: Config, threads: int, t: State, want: int, mu: real, s: PoolSnapshot,
                           now: real)
    requires ValidParams(p) && (t.gainPending ==> t.gainC0 < t.c)
    ensures Decided(p, cfg, t, want, mu, s, now, threads).primed == t.primed
  {}

  lemma PreparedKeepsPrimed(p: Params, num: Numerics, cfg: Config, st: State, i: Input)
    requires ValidParams(p) && i.dt > 0.0 && (st.gainPending ==> st.gainWin > 0.0)
    ensures Prepared(p, num, cfg, st, i).primed == st.primed
  {
    hide GainTooSmall;
  }

  // ---------------------------------------------------------------- runs of ticks

  /** A run of ticks from st: each input is possible, and each decision is the one taken. */
  ghost predicate Run(p: Params, num: Numerics, cfg: Config, threads: int, st: State, ins: seq<Input>,
                      ds: seq<Decision>)
    requires ValidParams(p) && ValidConfig(cfg, threads) && Inv(p, cfg, st)
    decreases |ins|
  {
    if ins == [] then ds == []
    else
      && ds != [] && TickOf(p, num, cfg, st, ins[0], ds[0])
      && (TickKeepsInv(p, num, cfg, threads, st, ins[0], ds[0]);
          Run(p, num, cfg, threads, AfterTick(p, num, cfg, threads, st, ins[0], ds[0]), ins[1..], ds[1..]))
  }

  /** The state before tick k of a run. */
  ghost function StateAt(p: Params, num: Numerics, cfg: Config, threads: int, st: State, ins: seq<Input>,
                         ds: seq<Decision>, k: nat): State
    requires ValidParams(p) && ValidConfig(cfg, threads) && Inv(p, cfg, st)
    requires Run(p, num, cfg, threads, st, ins, ds) && k <= |ins|
    decreases k
  {
    if k == 0 then st
    else
      TickKeepsInv(p, num, cfg, threads, st, ins[0], ds[0]);
      StateAt(p, num, cfg, threads, AfterTick(p, num, cfg, threads, st, ins[0], ds[0]), ins[1..], ds[1..], k - 1)
  }

  /** The invariant holds at every point of every run. */
  lemma {:induction false} InvAlways(p: Params, num: Numerics, cfg: Config, threads: int, st: State, ins: seq<Input>,
                                     ds: seq<Decision>, k: nat)
    requires ValidParams(p) && ValidConfig(cfg, threads) && Inv(p, cfg, st)
    requires Run(p, num, cfg, threads, st, ins, ds) && k <= |ins|
    ensures Inv(p, cfg, StateAt(p, num, cfg, threads, st, ins, ds, k))
    decreases k
  {
    hide Inv, AfterTick, IsDecision, Prepared;
    if k > 0 {
      TickKeepsInv(p, num, cfg, threads, st, ins[0], ds[0]);
      InvAlways(p, num, cfg, threads, AfterTick(p, num, cfg, threads, st, ins[0], ds[0]), ins[1..], ds[1..], k - 1);
    }
  }

  /**
   * A cut is taken back: once a tick comes (cMaxEff - cMin + 1) restore periods after the last cut, a restore has
   * happened by then, however many further cuts there were. For a fresh cut cMaxEff < c_max, so that is within
   * (c_max - cMin) periods.
   */
  lemma {:induction false} CutIsTemporary(p: Params, num: Numerics, cfg: Config, threads: int, st: State,
                                          ins: seq<Input>, ds: seq<Decision>, i: nat)
    requires ValidParams(p) && ValidConfig(cfg, threads) && Inv(p, cfg, st) && st.primed
    requires Run(p, num, cfg, threads, st, ins, ds) && i < |ins| && st.cMaxEff < cfg.Hw()
    requires ins[i].now >= Horizon(cfg, st, p.cMaxRestoreSec)
    ensures exists j :: 0 <= j <= i && RestoreDue(p, cfg, StateAt(p, num, cfg, threads, st, ins, ds, j), ins[j].now)
    decreases i
  {
    hide Inv, AfterTick, IsDecision, Prepared, LimitMove;
    TickKeepsInv(p, num, cfg, threads, st, ins[0], ds[0]);
    if RestoreDue(p, cfg, st, ins[0].now) {
      assert StateAt(p, num, cfg, threads, st, ins, ds, 0) == st;
    } else {
      var st' := AfterTick(p, num, cfg, threads, st, ins[0], ds[0]);
      CutStep(p, cfg, st, st', ins[0].now);
      CutIsTemporary(p, num, cfg, threads, st', ins[1..], ds[1..], i - 1);
      var j :| 0 <= j <= i - 1
        && RestoreDue(p, cfg, StateAt(p, num, cfg, threads, st', ins[1..], ds[1..], j), ins[1..][j].now);
      assert StateAt(p, num, cfg, threads, st, ins, ds, j + 1) ==
        StateAt(p, num, cfg, threads, st', ins[1..], ds[1..], j);
    }
  }

  /** When the latest the cut limit can last, with one restore period per level still to lose. */
  function Horizon(cfg: Config, st: State, period: real): real {
    st.cMaxCutAt + Mul((st.cMaxEff - cfg.cMin + 1) as real, period)
  }

  lemma LevelsTimesPeriod(n: real, n': real, r: real)
    requires r >= 0.0
    ensures n >= 1.0 ==> r <= Mul(n, r)
    ensures n' <= n - 1.0 ==> Mul(n', r) <= Mul(n, r) - r
  {
    if n >= 1.0 { MulMono(1.0, n, r); }
    if n' <= n - 1.0 { MulMono(n', n - 1.0, r); }
  }

  /** A further cut before a restore is due moves the horizon nearer, never away; nor has it passed. */
  lemma CutStep(p: Params, cfg: Config, st: State, st': State, now: real)
    requires Inv(p, cfg, st) && Inv(p, cfg, st') && LimitMove(p, cfg, st, st', now) && p.cMaxRestoreSec >= 0.0
    requires st.cMaxEff < cfg.Hw() && !RestoreDue(p, cfg, st, now)
    ensures st'.cMaxEff < cfg.Hw() && Horizon(cfg, st', p.cMaxRestoreSec) <= Horizon(cfg, st, p.cMaxRestoreSec)
    ensures now < Horizon(cfg, st, p.cMaxRestoreSec)
  {
    hide Mul;
    LevelsTimesPeriod((st.cMaxEff - cfg.cMin + 1) as real, (st'.cMaxEff - cfg.cMin + 1) as real, p.cMaxRestoreSec);
  }

  /** The same for the limit seen between ticks, where a restore may be followed by a cut in the same tick. */
  lemma CutStepVisible(p: Params, cfg: Config, st: State, st': State, last: real, now: real, gap: real)
    requires Inv(p, cfg, st) && Inv(p, cfg, st') && LimitMove(p, cfg, st, st', now) && p.cMaxRestoreSec >= 0.0
    requires gap >= 0.0
    requires st.cMaxEff < cfg.Hw() && st'.cMaxEff < cfg.Hw() && last <= st.cMaxCutAt + p.cMaxRestoreSec
    requires now <= last + gap
    ensures now <= st'.cMaxCutAt + p.cMaxRestoreSec
    ensures Horizon(cfg, st', p.cMaxRestoreSec + gap) <= Horizon(cfg, st, p.cMaxRestoreSec + gap)
    ensures now <= Horizon(cfg, st, p.cMaxRestoreSec + gap)
  {
    hide Mul;
    LevelsTimesPeriod((st.cMaxEff - cfg.cMin + 1) as real, (st'.cMaxEff - cfg.cMin + 1) as real,
      p.cMaxRestoreSec + gap);
  }

  /** Ticks follow each other within gap seconds, the first within gap of last. */
  ghost predicate Spaced(last: real, ins: seq<Input>, gap: real)
    decreases |ins|
  {
    ins == [] || (ins[0].now <= last + gap && Spaced(ins[0].now, ins[1..], gap))
  }

  /**
   * The limit a tick leaves behind: with ticks at most gap apart, some tick ends at the configured c_max before any
   * tick later than (cMaxEff - cMin + 1) times (restore period + gap) after the last cut.
   */
  lemma {:induction false} LimitComesBack(p: Params, num: Numerics, cfg: Config, threads: int, st: State,
                                          ins: seq<Input>, ds: seq<Decision>, last: real, gap: real, i: nat)
    requires ValidParams(p) && ValidConfig(cfg, threads) && Inv(p, cfg, st) && st.primed && gap >= 0.0
    requires Run(p, num, cfg, threads, st, ins, ds) && i < |ins| && st.cMaxEff < cfg.Hw()
    requires Spaced(last, ins, gap) && last <= st.cMaxCutAt + p.cMaxRestoreSec
    requires ins[i].now > Horizon(cfg, st, p.cMaxRestoreSec + gap)
    ensures exists j :: 0 < j <= i + 1 && StateAt(p, num, cfg, threads, st, ins, ds, j).cMaxEff == cfg.Hw()
    decreases i
  {
    hide Inv, AfterTick, IsDecision, Prepared, LimitMove, Horizon;
    TickKeepsInv(p, num, cfg, threads, st, ins[0], ds[0]);
    var st' := AfterTick(p, num, cfg, threads, st, ins[0], ds[0]);
    assert StateAt(p, num, cfg, threads, st, ins, ds, 1) ==
      StateAt(p, num, cfg, threads, st', ins[1..], ds[1..], 0) == st';
    LimitInRange(p, cfg, st');
    if st'.cMaxEff < cfg.Hw() {
      CutStepVisible(p, cfg, st, st', last, ins[0].now, gap);
      LimitComesBack(p, num, cfg, threads, st', ins[1..], ds[1..], ins[0].now, gap, i - 1);
      var j :| 0 < j <= i && StateAt(p, num, cfg, threads, st', ins[1..], ds[1..], j).cMaxEff == cfg.Hw();
      assert StateAt(p, num, cfg, threads, st, ins, ds, j + 1) ==
        StateAt(p, num, cfg, threads, st', ins[1..], ds[1..], j);
    }
  }

  lemma LimitInRange(p: Params, cfg: Config, st: State)
    requires Inv(p, cfg, st)
    ensures cfg.cMin <= st.cMaxEff <= cfg.Hw()
  {}

  // ---------------------------------------------------------------- the shrink hold

  /** The tick wanted fewer threads and saw less than half the target queue. */
  ghost predicate ShortTick(p: Params, num: Numerics, cfg: Config, st: State, i: Input, d: Decision)
    requires ValidParams(p) && Inv(p, cfg, st) && i.dt > 0.0
  {
    var t := Prepared(p, num, cfg, st, i);
    st.primed && d.want < st.c && i.s.qlen as real < TargetLength(p, st.c, Mu(cfg, t)) / 2.0
  }

  /** A hold is only ever under way in an adaptive class after its first tick. */
  ghost predicate HoldPossible(cfg: Config, st: State) { st.shrinkFrom >= 0.0 ==> cfg.adaptive && st.primed }

  lemma PreparedKeepsHold(p: Params, num: Numerics, cfg: Config, st: State, i: Input)
    requires ValidParams(p) && i.dt > 0.0 && st.meanS > 0.0 && (st.gainPending ==> st.gainWin > 0.0)
    ensures Prepared(p, num, cfg, st, i).shrinkFrom == st.shrinkFrom
  {
    hide GainTooSmall, Estimated, Smoothed;
    SmoothedKeeps(p, num, st, i.s, i.dt);
    EstimatedKeeps(Smoothed(p, num, st, i.s, i.dt));
  }

  /** What a decision does to the hold. */
  lemma DecidedHold(p: Params, cfg: Config, threads: int, t: State, want: int, mu: real, s: PoolSnapshot, now: real)
    requires ValidParams(p) && ValidConfig(cfg, threads) && now >= 0.0 && (t.gainPending ==> t.gainC0 < t.c)
    requires cfg.cMin <= want <= t.cMaxEff <= cfg.Hw() && cfg.cMin <= t.c && (t.shrinkFrom >= 0.0 ==> cfg.adaptive)
    ensures var st' := Decided(p, cfg, t, want, mu, s, now, threads);
      var short := want < t.c && s.qlen as real < TargetLength(p, t.c, mu) / 2.0;
      && (st'.shrinkFrom >= 0.0 ==> cfg.adaptive && short && (st'.shrinkFrom == t.shrinkFrom || st'.shrinkFrom == now))
      && (st'.c < t.c <= t.cMaxEff ==>
            short && t.shrinkFrom >= 0.0 && now - t.shrinkFrom >= p.shrinkHoldSec
            && st'.c == t.c - 1)
  {
    hide TargetLength, GainWindow;
  }

  /** One tick: a hold goes on only through short ticks, and c falls without a cut only when it has lasted. */
  lemma HoldTick(p: Params, num: Numerics, cfg: Config, threads: int, st: State, i: Input, d: Decision)
    requires ValidParams(p) && ValidConfig(cfg, threads) && Inv(p, cfg, st) && TickOf(p, num, cfg, st, i, d)
    requires HoldPossible(cfg, st)
    ensures var st' := AfterTick(p, num, cfg, threads, st, i, d);
      && HoldPossible(cfg, st')
      && (st'.shrinkFrom >= 0.0 ==>
            ShortTick(p, num, cfg, st, i, d)
            && (st'.shrinkFrom == st.shrinkFrom || st'.shrinkFrom == i.now))
      && (st'.c < st.c && st'.cMaxEff >= st.cMaxEff ==>
            ShortTick(p, num, cfg, st, i, d) && st.shrinkFrom >= 0.0
              && i.now - st.shrinkFrom >= p.shrinkHoldSec && st'.c == st.c - 1)
  {
    hide Prepared, Decided, BurstServers, CapTooSmall, IsMinServers, TargetLength;
    if st.primed {
      PreparedLimits(p, num, cfg, st, i);
      PreparedKeepsHold(p, num, cfg, st, i);
      PreparedKeepsPrimed(p, num, cfg, st, i);
      var t := Prepared(p, num, cfg, st, i);
      MuPositive(cfg, t);
      DecidedKeepsInv(p, cfg, threads, t, d.want, Mu(cfg, t), i.s, i.now);
      DecidedKeepsPrimed(p, cfg, threads, t, d.want, Mu(cfg, t), i.s, i.now);
      DecidedHold(p, cfg, threads, t, d.want, Mu(cfg, t), i.s, i.now);
    }
  }

  /** The states of a run follow each other by ticks. */
  lemma {:induction false} StateStep(p: Params, num: Numerics, cfg: Config, threads: int, st: State, ins: seq<Input>,
                                     ds: seq<Decision>, k: nat)
    requires ValidParams(p) && ValidConfig(cfg, threads) && Inv(p, cfg, st)
    requires Run(p, num, cfg, threads, st, ins, ds) && k < |ins|
    ensures |ds| == |ins| && Inv(p, cfg, StateAt(p, num, cfg, threads, st, ins, ds, k))
    ensures TickOf(p, num, cfg, StateAt(p, num, cfg, threads, st, ins, ds, k), ins[k], ds[k])
    ensures StateAt(p, num, cfg, threads, st, ins, ds, k + 1)
         == AfterTick(p, num, cfg, threads, StateAt(p, num, cfg, threads, st, ins, ds, k), ins[k], ds[k])
    decreases k
  {
    hide Inv, AfterTick, IsDecision, Prepared;
    TickKeepsInv(p, num, cfg, threads, st, ins[0], ds[0]);
    var st' := AfterTick(p, num, cfg, threads, st, ins[0], ds[0]);
    RunLength(p, num, cfg, threads, st, ins, ds);
    if k > 0 {
      StateStep(p, num, cfg, threads, st', ins[1..], ds[1..], k - 1);
      assert StateAt(p, num, cfg, threads, st, ins, ds, k) ==
        StateAt(p, num, cfg, threads, st', ins[1..], ds[1..], k - 1);
      assert StateAt(p, num, cfg, threads, st, ins, ds, k + 1) ==
        StateAt(p, num, cfg, threads, st', ins[1..], ds[1..], k);
    } else {
      assert StateAt(p, num, cfg, threads, st, ins, ds, 1) == StateAt(p, num, cfg, threads, st', ins[1..], ds[1..], 0);
    }
  }

  lemma {:induction false} RunLength(p: Params, num: Numerics, cfg: Config, threads: int, st: State, ins: seq<Input>,
                                     ds: seq<Decision>)
    requires ValidParams(p) && ValidConfig(cfg, threads) && Inv(p, cfg, st) && Run(p, num, cfg, threads, st, ins, ds)
    ensures |ds| == |ins|
    decreases |ins|
  {
    hide Inv, AfterTick, IsDecision, Prepared;
    if ins != [] {
      TickKeepsInv(p, num, cfg, threads, st, ins[0], ds[0]);
      RunLength(p, num, cfg, threads, AfterTick(p, num, cfg, threads, st, ins[0], ds[0]), ins[1..], ds[1..]);
    }
  }

  /** Tick i of a run was short. */
  ghost predicate ShortAt(p: Params, num: Numerics, cfg: Config, threads: int, st: State, ins: seq<Input>,
                          ds: seq<Decision>, i: nat)
    requires ValidParams(p) && ValidConfig(cfg, threads) && Inv(p, cfg, st) && Run(p, num, cfg, threads, st, ins, ds)
  {
    && i < |ins| && i < |ds|
    && (StateStep(p, num, cfg, threads, st, ins, ds, i);
        ShortTick(p, num, cfg, StateAt(p, num, cfg, threads, st, ins, ds, i), ins[i], ds[i]))
  }

  /** Ticks j to k - 1 of a run were short. */
  ghost predicate ShortFrom(p: Params, num: Numerics, cfg: Config, threads: int, st: State, ins: seq<Input>,
                            ds: seq<Decision>, j: nat, k: nat)
    requires ValidParams(p) && ValidConfig(cfg, threads) && Inv(p, cfg, st) && Run(p, num, cfg, threads, st, ins, ds)
  {
    forall i: nat :: j <= i < k ==> ShortAt(p, num, cfg, threads, st, ins, ds, i)
  }

  /** A hold began at the clock reading of a tick since which every tick was short. */
  lemma {:induction false} HoldSince(p: Params, num: Numerics, cfg: Config, threads: int, st: State, ins: seq<Input>,
                                     ds: seq<Decision>, k: nat)
    requires ValidParams(p) && ValidConfig(cfg, threads) && Inv(p, cfg, st) && st.shrinkFrom < 0.0
    requires Run(p, num, cfg, threads, st, ins, ds) && k <= |ins|
    ensures var s := StateAt(p, num, cfg, threads, st, ins, ds, k);
      && HoldPossible(cfg, s)
      && (s.shrinkFrom >= 0.0 ==>
            exists j: nat :: j < k && ins[j].now == s.shrinkFrom && ShortFrom(p, num, cfg, threads, st, ins, ds, j, k))
    decreases k
  {
    hide Inv, AfterTick, TickOf, ShortTick;
    if k > 0 {
      HoldSince(p, num, cfg, threads, st, ins, ds, k - 1);
      StateStep(p, num, cfg, threads, st, ins, ds, k - 1);
      var before := StateAt(p, num, cfg, threads, st, ins, ds, k - 1);
      var s := StateAt(p, num, cfg, threads, st, ins, ds, k);
      HoldTick(p, num, cfg, threads, before, ins[k - 1], ds[k - 1]);
      if s.shrinkFrom >= 0.0 {
        assert ShortAt(p, num, cfg, threads, st, ins, ds, k - 1);
        if s.shrinkFrom == ins[k - 1].now {
          assert ShortFrom(p, num, cfg, threads, st, ins, ds, k - 1, k);
        } else {
          var j: nat :| j < k - 1 && ins[j].now == before.shrinkFrom
            && ShortFrom(p, num, cfg, threads, st, ins, ds, j, k - 1);
          assert ins[j].now == s.shrinkFrom && ShortFrom(p, num, cfg, threads, st, ins, ds, j, k);
        }
      }
    }
  }

  /**
   * Shrinking waits: in every run, c falls in a tick that did not cut the limit only by one, and only when every tick
   * of at least the hold time wanted fewer threads and saw a short queue.
   */
  lemma ShrinkWaits(p: Params, num: Numerics, cfg: Config, threads: int, st: State, ins: seq<Input>,
                    ds: seq<Decision>, k: nat)
    requires ValidParams(p) && ValidConfig(cfg, threads) && Inv(p, cfg, st) && st.shrinkFrom < 0.0
    requires Run(p, num, cfg, threads, st, ins, ds) && k < |ins|
    ensures var a, b := StateAt(p, num, cfg, threads, st, ins, ds, k),
      StateAt(p, num, cfg, threads, st, ins, ds, k + 1);
      b.c < a.c && b.cMaxEff >= a.cMaxEff ==>
        && b.c == a.c - 1
        && exists j: nat :: j < k && ins[k].now - ins[j].now >= p.shrinkHoldSec
             && ShortFrom(p, num, cfg, threads, st, ins, ds, j, k + 1)
  {
    hide Inv, AfterTick, TickOf, ShortTick;
    HoldSince(p, num, cfg, threads, st, ins, ds, k);
    StateStep(p, num, cfg, threads, st, ins, ds, k);
    var a, b := StateAt(p, num, cfg, threads, st, ins, ds, k), StateAt(p, num, cfg, threads, st, ins, ds, k + 1);
    HoldTick(p, num, cfg, threads, a, ins[k], ds[k]);
    if b.c < a.c && b.cMaxEff >= a.cMaxEff {
      assert ShortAt(p, num, cfg, threads, st, ins, ds, k);
      var j: nat :| j < k && ins[j].now == a.shrinkFrom && ShortFrom(p, num, cfg, threads, st, ins, ds, j, k);
      assert ins[k].now - ins[j].now >= p.shrinkHoldSec && ShortFrom(p, num, cfg, threads, st, ins, ds, j, k + 1);
    }
  }

  /** The dynamic cap is what waitMaxSec of work fills, within its bounds. */
  lemma CapBounds(p: Params, cfg: Config, c: int, mu: real)
    requires cfg.dynamicCap && p.kMin <= p.kMax && WorkIn(p, c, mu) >= 0.0
    ensures p.kMin <= CapFor(p, cfg, c, mu) <= p.kMax
    ensures p.kMin < CapFor(p, cfg, c, mu) < p.kMax ==>
      CapFor(p, cfg, c, mu) as real <= WorkIn(p, c, mu) < CapFor(p, cfg, c, mu) as real + 1.0
  {
    hide WorkIn;
  }

  /** What keeps the caps in order: bounds the right way round, and all below the demand of a saturated pool. */
  predicate ValidCaps(p: Params, cfg: Config) {
    p.waitMaxSec >= 0.0 && p.kMin <= p.kMax && p.kMax as real <= BIG - 1.0 && cfg.fixedCap as real <= BIG - 1.0
  }

  /** One more thread never lowers the cap. */
  lemma CapRises(p: Params, cfg: Config, c: int, mu: real)
    requires ValidCaps(p, cfg) && mu > 0.0 && c > 0
    ensures CapFor(p, cfg, c, mu) <= CapFor(p, cfg, c + 1, mu)
    ensures CapFor(p, cfg, c, mu) as real < BIG
  {
    hide ClampCap, WorkIn;
    WorkRises(p, c, mu);
    ClampRises(WorkIn(p, c, mu), WorkIn(p, c + 1, mu), p);
  }

  lemma WorkRises(p: Params, c: int, mu: real)
    requires p.waitMaxSec >= 0.0 && mu > 0.0
    ensures WorkIn(p, c, mu) <= WorkIn(p, c + 1, mu)
  {
    MulMono(c as real, (c + 1) as real, mu);
    MulMono(c as real * mu, (c + 1) as real * mu, p.waitMaxSec);
  }

  lemma ClampRises(k: real, k': real, p: Params)
    requires p.kMin <= p.kMax && k <= k'
    ensures ClampCap(k, p) <= ClampCap(k', p) <= p.kMax
  {}

  /** A thread count whose cap suffices keeps it sufficient when threads are added. */
  lemma CapSufficesUpward(p: Params, num: Numerics, cfg: Config, st: State, mu: real, c: int)
    requires ValidParams(p) && ValidCaps(p, cfg) && IsLn(num.ln) && mu > 0.0 && c > 0 && p.ca2 + st.cs2 >= 0.0
    ensures CapTooSmall(p, num, cfg, st, mu, c + 1) ==> CapTooSmall(p, num, cfg, st, mu, c)
  {
    hide KFloor, CapFor, Rho;
    CapRises(p, cfg, c, mu);
    RhoFalls(c, st.lamHat, mu);
    KFloorFacts(num.ln, Rho(c, st.lamHat, mu), Rho(c + 1, st.lamHat, mu), p.ca2, st.cs2, p.kFloorEps);
  }

  /** The demand is 0 without load, does not fall below saturation, and is BIG there unless eps forgives it. */
  lemma KFloorFacts(ln: real -> real, rho: real, rho': real, ca2: real, cs2: real, eps: real)
    requires IsLn(ln) && eps > 0.0 && ca2 + cs2 >= 0.0
    ensures rho' <= 0.0 ==> KFloor(ln, rho', ca2, cs2, eps) == 0.0
    ensures rho' <= rho ==>
      KFloor(ln, rho', ca2, cs2, eps) <= KFloor(ln, rho, ca2, cs2, eps) || KFloor(ln, rho, ca2, cs2, eps) == BIG
  {
    if rho' <= rho { KFloorRisesIff(ln, rho', rho, ca2, cs2, eps); }
  }

  /** The raised count is exact: a count from the base on suffices if and only if it is at least want and want does. */
  lemma WantIsExact(p: Params, num: Numerics, cfg: Config, st: State, mu: real, qlen: nat, d: Decision, c: int)
    requires ValidParams(p) && ValidCaps(p, cfg) && IsLn(num.ln) && mu > 0.0 && p.ca2 + st.cs2 >= 0.0
    requires 1 <= cfg.cMin <= st.cMaxEff && IsDecision(p, num, cfg, st, mu, qlen, d)
    requires PoolProtocol.Clamp(if d.cSs < d.cB then d.cB else d.cSs, cfg.cMin, st.cMaxEff) <= c <= st.cMaxEff
    ensures !CapTooSmall(p, num, cfg, st, mu, c) <==> d.want <= c && !CapTooSmall(p, num, cfg, st, mu, d.want)
  {
    hide CapTooSmall, IsMinServers, BurstServers;
    if d.want < c { CapSufficesFrom(p, num, cfg, st, mu, d.want, c); }
  }

  lemma {:induction false} CapSufficesFrom(p: Params, num: Numerics, cfg: Config, st: State, mu: real, c: int, c': int)
    requires ValidParams(p) && ValidCaps(p, cfg) && IsLn(num.ln) && mu > 0.0 && p.ca2 + st.cs2 >= 0.0
    requires 0 < c <= c' && !CapTooSmall(p, num, cfg, st, mu, c)
    ensures !CapTooSmall(p, num, cfg, st, mu, c')
    decreases c' - c
  {
    hide CapTooSmall;
    if c < c' {
      CapSufficesUpward(p, num, cfg, st, mu, c);
      CapSufficesFrom(p, num, cfg, st, mu, c + 1, c');
    }
  }

  // ---------------------------------------------------------------- the gain probe

  /** The probe under way, as the state holds it. */
  datatype Probe = Probe(c0: int, c1: int, mu: real, t0: real, win: real, done0: nat)

  function ProbeOf(st: State): Probe { Probe(st.gainC0, st.gainC1, st.gainMu, st.gainT0, st.gainWin, st.gainDone0) }

  lemma PreparedKeepsProbe(p: Params, num: Numerics, cfg: Config, st: State, i: Input)
    requires ValidParams(p) && Inv(p, cfg, st) && i.dt > 0.0
    ensures var t := Prepared(p, num, cfg, st, i);
      && (t.gainPending ==>
            st.gainPending && ProbeOf(t) == ProbeOf(st) && t.gainMinQ <= st.gainMinQ
            && t.gainMinQ <= i.s.qlen)
      && (t.cMaxEff < st.cMaxEff ==> CutDue(p, st, i))
  {
    hide Estimated, Smoothed;
    SmoothedKeeps(p, num, st, i.s, i.dt);
    EstimatedKeeps(Smoothed(p, num, st, i.s, i.dt));
  }

  /** The throughput since the growth exceeds that of c0 threads by less than gainMin of what c1 - c0 should add. */
  ghost predicate GainBelow(p: Params, g: Probe, done: nat, now: real) {
    now > g.t0
    && (done - g.done0) as real / (now - g.t0) - g.c0 as real * g.mu < p.gainMin * g.mu * (g.c1 - g.c0) as real
  }

  /** What a cut takes: the window is over, the queue was never empty in it, and the gain is too small. */
  ghost predicate CutDue(p: Params, st: State, i: Input) {
    && st.gainPending && i.now - st.gainT0 >= st.gainWin && st.gainMinQ >= 1 && i.s.qlen >= 1
    && GainBelow(p, ProbeOf(st), i.s.done, i.now)
  }

  lemma DecidedProbe(p: Params, cfg: Config, threads: int, t: State, want: int, mu: real, s: PoolSnapshot, now: real)
    requires ValidParams(p) && ValidConfig(cfg, threads) && (t.gainPending ==> t.gainC0 < t.c)
    ensures var st' := Decided(p, cfg, t, want, mu, s, now, threads);
      && st'.cMaxEff == t.cMaxEff
      && (st'.gainPending ==>
            || (t.gainPending && ProbeOf(st') == ProbeOf(t) && st'.gainMinQ == t.gainMinQ)
            || (st'.gainT0 == now && st'.gainDone0 == s.done && st'.gainMinQ == NO_MINIMUM && want > t.c))
  {
    hide TargetLength, GainWindow;
  }

  /** One tick: a probe is carried on with the shortest queue seen, or started by a growth; a cut needs all of it. */
  lemma ProbeTick(p: Params, num: Numerics, cfg: Config, threads: int, st: State, i: Input, d: Decision)
    requires ValidParams(p) && ValidConfig(cfg, threads) && Inv(p, cfg, st) && TickOf(p, num, cfg, st, i, d)
    ensures var st' := AfterTick(p, num, cfg, threads, st, i, d);
      && (st'.gainPending ==>
            || (st.gainPending && ProbeOf(st') == ProbeOf(st) && st'.gainMinQ <= st.gainMinQ
                 && (st.primed ==> st'.gainMinQ <= i.s.qlen))
            || (st'.gainT0 == i.now && st'.gainDone0 == i.s.done && st'.gainMinQ == NO_MINIMUM && st.primed))
      && (st'.cMaxEff < st.cMaxEff ==> CutDue(p, st, i))
  {
    hide Prepared, Decided, BurstServers, CapTooSmall, IsMinServers, TargetLength, GainBelow, LimitMove;
    if st.primed {
      PreparedLimits(p, num, cfg, st, i);
      PreparedKeepsProbe(p, num, cfg, st, i);
      var t := Prepared(p, num, cfg, st, i);
      MuPositive(cfg, t);
      DecidedProbe(p, cfg, threads, t, d.want, Mu(cfg, t), i.s, i.now);
    }
  }

  /** The limit that the first half of a tick leaves, in full. */
  lemma PreparedLimitIs(p: Params, num: Numerics, cfg: Config, st: State, i: Input)
    requires ValidParams(p) && Inv(p, cfg, st) && i.dt > 0.0
    ensures Prepared(p, num, cfg, st, i).cMaxEff ==
      if CutDue(p, st, i) then (if cfg.cMin < st.gainC0 then st.gainC0 else cfg.cMin)
      else if RestoreDue(p, cfg, st, i.now) then cfg.Hw() else st.cMaxEff
  {
    hide Estimated, Smoothed;
    SmoothedKeeps(p, num, st, i.s, i.dt);
    EstimatedKeeps(Smoothed(p, num, st, i.s, i.dt));
  }

  /** The limit after a tick, in every case: a cut wins over a restore. */
  lemma LimitAfterTick(p: Params, num: Numerics, cfg: Config, threads: int, st: State, i: Input, d: Decision)
    requires ValidParams(p) && Inv(p, cfg, st) && st.primed && i.dt > 0.0 && i.now >= 0.0
    ensures AfterTick(p, num, cfg, threads, st, i, d).cMaxEff ==
      if CutDue(p, st, i) then st.gainC0
      else if RestoreDue(p, cfg, st, i.now) then cfg.Hw() else st.cMaxEff
  {
    hide Prepared, CutDue, RestoreDue, LimitMove, TargetLength, GainWindow;
    PreparedLimits(p, num, cfg, st, i);
    PreparedLimitIs(p, num, cfg, st, i);
    CutNeedsProbe(p, st, i);
  }

  lemma CutNeedsProbe(p: Params, st: State, i: Input)
    ensures CutDue(p, st, i) ==> st.gainPending
  {}

  /** A due restore can be seen after its tick if and only if no cut is due in it. */
  lemma RestoreSeenIff(p: Params, num: Numerics, cfg: Config, threads: int, st: State, i: Input, d: Decision)
    requires ValidParams(p) && Inv(p, cfg, st) && st.primed && i.dt > 0.0 && i.now >= 0.0
    requires RestoreDue(p, cfg, st, i.now)
    ensures AfterTick(p, num, cfg, threads, st, i, d).cMaxEff == cfg.Hw() <==> !CutDue(p, st, i)
  {
    hide AfterTick, CutDue;
    LimitAfterTick(p, num, cfg, threads, st, i, d);
    CutNeedsProbe(p, st, i);
  }

  /** The window of a probe under way is that of its growth. */
  ghost predicate WindowSet(p: Params, st: State)
    requires ValidParams(p)
  {
    st.gainPending ==> st.gainC0 < st.gainC1 && st.gainWin == GainWindow(p, st.gainC0, st.gainC1, st.gainMu)
  }

  lemma DecidedKeepsWindow(p: Params, cfg: Config, t: State, want: int, mu: real, s: PoolSnapshot, now: real,
                           threads: int)
    requires ValidParams(p) && WindowSet(p, t) && (t.gainPending ==> t.gainC0 < t.c)
    ensures WindowSet(p, Decided(p, cfg, t, want, mu, s, now, threads))
  {
    hide TargetLength, GainWindow;
  }

  lemma WindowTick(p: Params, num: Numerics, cfg: Config, threads: int, st: State, i: Input, d: Decision)
    requires ValidParams(p) && Inv(p, cfg, st) && i.dt > 0.0 && i.now >= 0.0 && WindowSet(p, st)
    ensures WindowSet(p, AfterTick(p, num, cfg, threads, st, i, d))
  {
    hide Prepared, Decided, GainWindow;
    if st.primed {
      PreparedLimits(p, num, cfg, st, i);
      PreparedKeepsProbe(p, num, cfg, st, i);
      var t := Prepared(p, num, cfg, st, i);
      assert t.gainPending ==> ProbeOf(t) == ProbeOf(st);
      DecidedKeepsWindow(p, cfg, t, d.want, Mu(cfg, t), i.s, i.now, threads);
    }
  }

  /** The window is that of the growth at every point of every run. */
  lemma {:induction false} WindowAlways(p: Params, num: Numerics, cfg: Config, threads: int, st: State,
                                        ins: seq<Input>, ds: seq<Decision>, k: nat)
    requires ValidParams(p) && ValidConfig(cfg, threads) && Inv(p, cfg, st) && WindowSet(p, st)
    requires Run(p, num, cfg, threads, st, ins, ds) && k <= |ins|
    ensures WindowSet(p, StateAt(p, num, cfg, threads, st, ins, ds, k))
    decreases k
  {
    hide Inv, AfterTick, WindowSet, IsDecision, Prepared;
    if k > 0 {
      TickKeepsInv(p, num, cfg, threads, st, ins[0], ds[0]);
      WindowTick(p, num, cfg, threads, st, ins[0], ds[0]);
      WindowAlways(p, num, cfg, threads, AfterTick(p, num, cfg, threads, st, ins[0], ds[0]), ins[1..], ds[1..], k - 1);
    }
  }

  /** Since tick j the queue was never shorter than q. */
  ghost predicate NeverShorter(ins: seq<Input>, j: nat, k: nat, q: nat) {
    forall i: nat :: j < i < k && i < |ins| ==> ins[i].s.qlen >= q
  }

  /** Tick j started the probe g. */
  ghost predicate StartedAt(ins: seq<Input>, j: nat, g: Probe) {
    j < |ins| && ins[j].now == g.t0 && ins[j].s.done == g.done0
  }

  /** A probe under way was started by an earlier tick of the run, and gainMinQ bounds the queue from below since. */
  lemma {:induction false} ProbeSince(p: Params, num: Numerics, cfg: Config, threads: int, st: State, ins: seq<Input>,
                                      ds: seq<Decision>, k: nat)
    requires ValidParams(p) && ValidConfig(cfg, threads) && Inv(p, cfg, st) && !st.gainPending && st.primed
    requires Run(p, num, cfg, threads, st, ins, ds) && k <= |ins|
    ensures var s := StateAt(p, num, cfg, threads, st, ins, ds, k);
      && s.primed
      && (s.gainPending ==> exists j: nat ::
            j < k && StartedAt(ins, j, ProbeOf(s)) && NeverShorter(ins, j, k, s.gainMinQ))
    decreases k
  {
    hide Inv, AfterTick, TickOf, GainBelow;
    if k > 0 {
      ProbeSince(p, num, cfg, threads, st, ins, ds, k - 1);
      StateStep(p, num, cfg, threads, st, ins, ds, k - 1);
      var before := StateAt(p, num, cfg, threads, st, ins, ds, k - 1);
      var s := StateAt(p, num, cfg, threads, st, ins, ds, k);
      TickKeepsInv(p, num, cfg, threads, before, ins[k - 1], ds[k - 1]);
      ProbeTick(p, num, cfg, threads, before, ins[k - 1], ds[k - 1]);
      if s.gainPending {
        if before.gainPending && ProbeOf(s) == ProbeOf(before) && s.gainMinQ <= before.gainMinQ
          && s.gainMinQ <= ins[k - 1].s.qlen {
          var j: nat :| j < k - 1 && StartedAt(ins, j, ProbeOf(before)) && NeverShorter(ins, j, k - 1, before.gainMinQ);
          assert StartedAt(ins, j, ProbeOf(s)) && NeverShorter(ins, j, k, s.gainMinQ);
        } else {
          assert StartedAt(ins, k - 1, ProbeOf(s)) && NeverShorter(ins, k - 1, k, s.gainMinQ);
        }
      }
    }
  }

  /**
   * A cut is earned: in every run, a tick lowers the limit only after the whole window of some growth in which every
   * tick found the queue non-empty, and only if the completed requests fall short of the expected gain.
   */
  lemma CutIsEarned(p: Params, num: Numerics, cfg: Config, threads: int, st: State, ins: seq<Input>,
                    ds: seq<Decision>, k: nat)
    requires ValidParams(p) && ValidConfig(cfg, threads) && Inv(p, cfg, st) && !st.gainPending && st.primed
    requires Run(p, num, cfg, threads, st, ins, ds) && k < |ins|
    ensures var a, b := StateAt(p, num, cfg, threads, st, ins, ds, k),
      StateAt(p, num, cfg, threads, st, ins, ds, k + 1);
      b.cMaxEff < a.cMaxEff ==>
        && a.gainC0 < a.gainC1 == a.c
        && exists j: nat :: j < k && NeverShorter(ins, j, k + 1, 1)
             && ins[k].now - ins[j].now >= GainWindow(p, a.gainC0, a.c, a.gainMu) >= p.gainWindowSec
             && GainBelow(p, Probe(a.gainC0, a.c, a.gainMu, ins[j].now, a.gainWin, ins[j].s.done),
                  ins[k].s.done, ins[k].now)
  {
    hide AfterTick, TickOf, GainBelow;
    ProbeSince(p, num, cfg, threads, st, ins, ds, k);
    WindowAlways(p, num, cfg, threads, st, ins, ds, k);
    StateStep(p, num, cfg, threads, st, ins, ds, k);
    var a, b := StateAt(p, num, cfg, threads, st, ins, ds, k), StateAt(p, num, cfg, threads, st, ins, ds, k + 1);
    ProbeTick(p, num, cfg, threads, a, ins[k], ds[k]);
    if b.cMaxEff < a.cMaxEff {
      var j: nat :| j < k && StartedAt(ins, j, ProbeOf(a)) && NeverShorter(ins, j, k, a.gainMinQ);
      assert NeverShorter(ins, j, k + 1, 1);
      assert ProbeOf(a) == Probe(a.gainC0, a.c, a.gainMu, ins[j].now, a.gainWin, ins[j].s.done);
    }
  }

  // ---------------------------------------------------------------- the controller object

  class Controller {
    const p: Params
    const num: Numerics
    const cfgs: seq<Config>
    var states: seq<State>

    ghost predicate Valid(threads: int)
      reads this
    {
      && ValidParams(p) && |states| == |cfgs|
      && forall k :: 0 <= k < |cfgs| ==> ValidConfig(cfgs[k], threads) && Inv(p, cfgs[k], states[k])
    }

    /** Starts from the pools' initial thread counts. */
    constructor (params: Params, numerics: Numerics, classes: seq<Config>, active: seq<int>, ghost threads: int)
      requires ValidParams(params) && |active| == |classes|
      requires forall k :: 0 <= k < |classes| ==>
        ValidConfig(classes[k], threads) && classes[k].cMin <= active[k] <= classes[k].Hw()
      ensures Valid(threads) && p == params && num == numerics && cfgs == classes
      ensures forall k :: 0 <= k < |classes| ==> states[k] == InitState(classes[k], active[k])
    {
      p, num, cfgs := params, numerics, classes;
      states := seq(|classes|, k requires 0 <= k < |classes| => InitState(classes[k], active[k]));
      new;
      forall k | 0 <= k < |classes| ensures Inv(p, cfgs[k], states[k]) { InitInv(params, classes[k], active[k]); }
    }

    /** The least thread count from base on whose cap absorbs random variation, up to the limit. */
    method RaiseWant(cfg: Config, st: State, mu: real, base: int) returns (want: int)
      requires ValidParams(p) && mu > 0.0 && 1 <= base <= st.cMaxEff
      ensures base <= want <= st.cMaxEff
      ensures forall c :: base <= c < want ==> CapTooSmall(p, num, cfg, st, mu, c)
      ensures want < st.cMaxEff ==> !CapTooSmall(p, num, cfg, st, mu, want)
      ensures forall c :: base <= c < want ==>
        KFloor(num.ln, Rho(c, st.lamHat, mu), p.ca2, st.cs2, p.kFloorEps) > CapFor(p, cfg, c, mu) as real
      ensures want < st.cMaxEff ==>
        KFloor(num.ln, Rho(want, st.lamHat, mu), p.ca2, st.cs2, p.kFloorEps) <= CapFor(p, cfg, want, mu) as real
    {
      hide KFloor, Rho, CapFor;
      want := base;
      while want < st.cMaxEff
        invariant base <= want <= st.cMaxEff
        invariant forall c :: base <= c < want ==> CapTooSmall(p, num, cfg, st, mu, c)
        invariant forall c :: base <= c < want ==>
          KFloor(num.ln, Rho(c, st.lamHat, mu), p.ca2, st.cs2, p.kFloorEps) > CapFor(p, cfg, c, mu) as real
      {
        if !CapTooSmall(p, num, cfg, st, mu, want) { return; }
        want := want + 1;
      }
    }

    method Decide(cfg: Config, st: State, mu: real, qlen: nat) returns (d: Decision)
      requires ValidParams(p) && mu > 0.0 && 1 <= cfg.cMin <= st.cMaxEff
      ensures IsDecision(p, num, cfg, st, mu, qlen, d)
    {
      hide CapTooSmall, IsMinServers, BurstServers;
      var cSs := MinServers(num.exp, st.lamHat, mu, p.waitTargetSec, p.waitTailP, p.rhoMax, p.ca2, st.cs2, st.cMaxEff);
      var cB := BurstServers(p, num, st, mu, qlen);
      var want := RaiseWant(cfg, st, mu, PoolProtocol.Clamp(if cSs < cB then cB else cSs, cfg.cMin, st.cMaxEff));
      d := Decision(cSs, cB, want);
    }

    /** One tick of class k: what it decided, the thread count for setActive and the cap for setCap. */
    method TickClass(k: nat, s: PoolSnapshot, now: real, dt: real, threads: int)
      returns (d: Decision, active: int, cap: nat)
      requires Valid(threads) && k < |states| && dt > 0.0 && now >= 0.0
      modifies this
      ensures Valid(threads) && TickOf(p, num, cfgs[k], old(states[k]), Input(s, now, dt), d)
      ensures states == old(states)[k := AfterTick(p, num, cfgs[k], threads, old(states[k]), Input(s, now, dt), d)]
      ensures active == states[k].c
      ensures old(states[k]).primed ==> cap == CapFor(p, cfgs[k], active, Mu(cfgs[k], states[k]))
      ensures !old(states[k]).primed ==> cap == s.cap
    {
      hide Inv, IsDecision, Prepared, Decided;
      var cfg, st := cfgs[k], states[k];
      ghost var i := Input(s, now, dt);
      var primed := st.primed;
      if !primed {
        d := Decision(0, 0, 0);
        states := states[k := st.(prev := s, primed := true)];
      } else {
        d, st := TickPrimed(cfg, st, s, now, dt, threads);
        states := states[k := st];
      }
      TickKeepsInv(p, num, cfg, threads, old(states[k]), i, d);
      active := st.c;
      cap := if primed then CapFor(p, cfg, active, Mu(cfg, st)) else s.cap;
    }

    method TickPrimed(cfg: Config, st0: State, s: PoolSnapshot, now: real, dt: real, threads: int)
      returns (d: Decision, st: State)
      requires ValidParams(p) && ValidConfig(cfg, threads) && Inv(p, cfg, st0) && st0.primed && dt > 0.0 && now >= 0.0
      ensures TickOf(p, num, cfg, st0, Input(s, now, dt), d)
      ensures st == AfterTick(p, num, cfg, threads, st0, Input(s, now, dt), d)
    {
      hide IsDecision, Decided, BurstServers, CapTooSmall, LimitMove, Estimated, Smoothed, GainTooSmall;
      ghost var i := Input(s, now, dt);
      PreparedLimits(p, num, cfg, st0, i);
      st := Smoothed(p, num, st0, s, dt);
      SmoothedKeeps(p, num, st0, s, dt);
      EstimatedKeeps(st);
      st := Estimated(st);
      st := Restored(p, cfg, st, now);
      st := GainChecked(p, cfg, st, s, now);
      MuPositive(cfg, st);
      var mu := Mu(cfg, st);
      d := Decide(cfg, st, mu, s.qlen);
      st := Decided(p, cfg, st, d.want, mu, s, now, threads);
    }
  }
}
