/**
 * A run of the controller, from its first tick on, in which one tick restores c_max and cuts it again. Two threads are
 * slow to answer late queries, so a growth to four brings nothing and the limit is cut to two; ten seconds later the
 * growth from one thread to two has brought nothing either when the restore is due.
 */
module RestoreAndCut {
  import opened RealFacts
  import opened QueueMath
  import opened ClassPool
  import opened PoolController

  const TWO_OF_FOUR := Config(100.0, 1.0, true, true, 10000, 1, 4)

  function Snap(offered: nat, dequeued: nat, expired: nat, qlen: nat, active: nat, cap: nat): PoolSnapshot {
    PoolSnapshot(offered, 0, dequeued, expired, 0, 0.0, 0.0, 0.0, qlen, 1, active, cap)
  }

  /** The seven ticks. */
  const INPUTS: seq<Input> := [
    Input(Snap(107, 2, 2, 105, 2, 10000), 1.0, 0.01),
    Input(Snap(107, 2, 2, 105, 2, 10000), 1.01, 0.01),
    Input(Snap(107, 2, 2, 105, 4, 400), 1.5, 0.49),
    Input(Snap(107, 107, 107, 0, 2, 200), 10.0, 8.5),
    Input(Snap(107, 107, 107, 0, 2, 200), 10.3, 0.3),
    Input(Snap(207, 108, 107, 99, 1, 100), 10.6, 0.3),
    Input(Snap(207, 109, 107, 98, 2, 200), 11.5, 0.9)]

  /** What every pool's counters obey: each job taken is done, expired or with an active thread. */
  predicate Balanced(s: PoolSnapshot) {
    s.offered == s.shed + s.dequeued + s.qlen && s.done + s.expired <= s.dequeued <= s.done + s.expired + s.active
  }

  /** What one tick's clock and counters are to the next. */
  predicate Follows(a: Input, b: Input) {
    && b.dt == b.now - a.now
    && a.s.offered <= b.s.offered && a.s.shed <= b.s.shed && a.s.dequeued <= b.s.dequeued
    && a.s.expired <= b.s.expired && a.s.done <= b.s.done
  }

  predicate Possible(ins: seq<Input>) {
    && (forall k :: 0 <= k < |ins| ==> Balanced(ins[k].s))
    && (forall k {:trigger ins[k]} :: 1 <= k < |ins| ==> Follows(ins[k - 1], ins[k]))
  }

  // The states between the ticks.

  const FRESH := InitState(TWO_OF_FOUR, 2)
  const PRIMED := FRESH.(prev := INPUTS[0].s, primed := true)
  const GROWN := PRIMED.(prev := INPUTS[1].s, c := 4, gainPending := true, gainC0 := 2, gainC1 := 4, gainMu := 100.0,
                         gainT0 := 1.01, gainWin := 0.36, gainMinQ := NO_MINIMUM)
  const CUT := GROWN.(prev := INPUTS[2].s, c := 2, cMaxEff := 2, cMaxCutAt := 1.5, gainPending := false,
                      gainMinQ := 105)
  const SHORT := CUT.(prev := INPUTS[3].s, sHat := -63.0 / 17.0, shrinkFrom := 10.0)
  const SHRUNK := SHORT.(prev := INPUTS[4].s, sHat := -44.1 / 17.0, shrinkFrom := 10.3, c := 1)

  /** The estimates when new queries have come in. */
  function Refilled(num: Numerics): State {
    SHRUNK.(prev := INPUTS[5].s, sHat := 99.0 - 30.87 / 17.0,
            lamHat := Mix(1.0 - num.exp(-0.3 / 1.0), 0.0, 100.0 / 0.3))
  }

  function Regrown(num: Numerics): State {
    Refilled(num).(shrinkFrom := -1.0, c := 2, gainPending := true, gainC0 := 1, gainC1 := 2, gainT0 := 10.6,
                   gainWin := 0.72, gainMinQ := NO_MINIMUM)
  }

  /** While nothing is completed the estimates of the service time stay, and the other two are smoothed. */
  lemma NothingDone(num: Numerics, st: State, i: Input)
    requires st.nEma == 0.0 && st.s1Ema == 0.0 && st.s2Ema == 0.0 && i.dt > 0.0
    requires i.s.done == st.prev.done && i.s.svcSum == st.prev.svcSum && i.s.svcSqSum == st.prev.svcSqSum
    ensures ValidParams(DEFAULTS)
    ensures var inst := ((i.s.offered - st.prev.offered) as real - (i.s.dequeued - st.prev.dequeued) as real) / i.dt;
      Estimated(Smoothed(DEFAULTS, num, st, i.s, i.dt)) == st.(prev := i.s, sHat := Mix(0.3, st.sHat, inst),
        lamHat := Mix(1.0 - num.exp(-i.dt / 1.0), st.lamHat, (i.s.offered - st.prev.offered) as real / i.dt))
  {
    DefaultsValid();
  }

  /** A tick with the input i takes d and leads from st to t. */
  ghost predicate Leads(num: Numerics, st: State, i: Input, d: Decision, t: State) {
    DefaultsValid();
    && Inv(DEFAULTS, TWO_OF_FOUR, st)
    && TickOf(DEFAULTS, num, TWO_OF_FOUR, st, i, d)
    && AfterTick(DEFAULTS, num, TWO_OF_FOUR, 4, st, i, d) == t
  }

  lemma Primes(num: Numerics)
    ensures Leads(num, FRESH, INPUTS[0], Decision(0, 0, 0), PRIMED)
  {}

  lemma Grows(num: Numerics)
    ensures Leads(num, PRIMED, INPUTS[1], Decision(1, 4, 4), GROWN)
  {
    NothingDone(num, PRIMED, INPUTS[1]);
    hide Smoothed, Estimated;
  }

  lemma Cuts(num: Numerics)
    ensures Leads(num, GROWN, INPUTS[2], Decision(1, 6, 2), CUT)
  {
    NothingDone(num, GROWN, INPUTS[2]);
    hide Smoothed, Estimated;
  }

  lemma Waits(num: Numerics)
    ensures Leads(num, CUT, INPUTS[3], Decision(1, 0, 1), SHORT)
  {
    NothingDone(num, CUT, INPUTS[3]);
    hide Smoothed, Estimated;
  }

  lemma Shrinks(num: Numerics)
    ensures Leads(num, SHORT, INPUTS[4], Decision(1, 0, 1), SHRUNK)
  {
    NothingDone(num, SHORT, INPUTS[4]);
    hide Smoothed, Estimated;
  }

  /** The least server count up to 2, whatever the rates are. */
  lemma OneOrTwo(num: Numerics, lam: real, mu: real, cs2: real, top: int) returns (c: int)
    requires 1 <= top <= 2 && mu > 0.0
    ensures 1 <= c <= top
    ensures var p := DEFAULTS;
      IsMinServers(num.exp, c, lam, mu, p.waitTargetSec, p.waitTailP, p.rhoMax, p.ca2, cs2, top)
  {
    hide Feasible;
    var p := DEFAULTS;
    c := if lam <= 0.0 || Feasible(num.exp, 1, lam, mu, p.waitTargetSec, p.waitTailP, p.rhoMax, p.ca2, cs2)
      then 1 else top;
  }

  lemma Refills(num: Numerics)
    ensures ValidParams(DEFAULTS)
    ensures Prepared(DEFAULTS, num, TWO_OF_FOUR, SHRUNK, INPUTS[5]) == Refilled(num)
  {
    hide Smoothed, Estimated;
    NothingDone(num, SHRUNK, INPUTS[5]);
  }

  /** 99 queued queries and more coming in call for a second thread, whatever the noise level is taken to be. */
  lemma OneIsTooFew(num: Numerics)
    ensures ValidParams(DEFAULTS) && BurstServers(DEFAULTS, num, Refilled(num), 100.0, 99) >= 2
  {
    DefaultsValid();
  }

  lemma RegrowsTo(num: Numerics)
    ensures ValidParams(DEFAULTS)
    ensures Decided(DEFAULTS, TWO_OF_FOUR, Refilled(num), 2, 100.0, INPUTS[5].s, INPUTS[5].now, 4) == Regrown(num)
  {
    DefaultsValid();
  }

  lemma Regrows(num: Numerics) returns (d: Decision)
    ensures Leads(num, SHRUNK, INPUTS[5], d, Regrown(num))
  {
    hide Prepared, Decided, BurstServers, IsMinServers, CapTooSmall;
    Refills(num);
    OneIsTooFew(num);
    RegrowsTo(num);
    var t := Refilled(num);
    var cSs := OneOrTwo(num, t.lamHat, 100.0, t.cs2, 2);
    d := Decision(cSs, BurstServers(DEFAULTS, num, t, 100.0, 99), 2);
  }

  lemma BothDue(num: Numerics)
    ensures Inv(DEFAULTS, TWO_OF_FOUR, Regrown(num)) && ValidParams(DEFAULTS)
    ensures RestoreDue(DEFAULTS, TWO_OF_FOUR, Regrown(num), INPUTS[6].now)
    ensures CutDue(DEFAULTS, Regrown(num), INPUTS[6])
  {
    DefaultsValid();
  }

  lemma RestoresAndCuts(num: Numerics) returns (d: Decision, t: State)
    ensures Leads(num, Regrown(num), INPUTS[6], d, t) && t.cMaxEff == 1
    ensures RestoreDue(DEFAULTS, TWO_OF_FOUR, Regrown(num), INPUTS[6].now)
    ensures CutDue(DEFAULTS, Regrown(num), INPUTS[6])
  {
    hide Prepared, AfterTick, IsMinServers, CapTooSmall, BurstServers, CutDue, RestoreDue, Inv, LimitMove;
    BothDue(num);
    var st, i := Regrown(num), INPUTS[6];
    PreparedLimits(DEFAULTS, num, TWO_OF_FOUR, st, i);
    PreparedLimitIs(DEFAULTS, num, TWO_OF_FOUR, st, i);
    var u := Prepared(DEFAULTS, num, TWO_OF_FOUR, st, i);
    MuPositive(TWO_OF_FOUR, u);
    var mu := Mu(TWO_OF_FOUR, u);
    var cSs := OneOrTwo(num, u.lamHat, mu, u.cs2, 1);
    d := Decision(cSs, BurstServers(DEFAULTS, num, u, mu, 98), 1);
    t := AfterTick(DEFAULTS, num, TWO_OF_FOUR, 4, st, i, d);
    LimitAfterTick(DEFAULTS, num, TWO_OF_FOUR, 4, st, i, d);
  }

  /** The last ticks of the scenario, from tick k on, are a run from st through the states sts. */
  ghost predicate Passes(num: Numerics, k: nat, ds: seq<Decision>, sts: seq<State>)
    requires k <= 7
  {
    && |sts| == 8 - k && |ds| == 7 - k
    && ValidParams(DEFAULTS) && Inv(DEFAULTS, TWO_OF_FOUR, sts[0])
    && Run(DEFAULTS, num, TWO_OF_FOUR, 4, sts[0], INPUTS[k..], ds)
    && forall j :: 0 <= j <= 7 - k ==> StateAt(DEFAULTS, num, TWO_OF_FOUR, 4, sts[0], INPUTS[k..], ds, j) == sts[j]
  }

  lemma Prepend(num: Numerics, k: nat, d: Decision, ds: seq<Decision>, st: State, sts: seq<State>)
    returns (ds': seq<Decision>, sts': seq<State>)
    requires k < 7 && Passes(num, k + 1, ds, sts) && |sts| > 0 && Leads(num, st, INPUTS[k], d, sts[0])
    ensures Passes(num, k, ds', sts') && ds' == [d] + ds && sts' == [st] + sts
  {
    hide Inv, TickOf, AfterTick;
    var ins := INPUTS[k..];
    ds', sts' := [d] + ds, [st] + sts;
    assert ins[1..] == INPUTS[k + 1..] && ds'[1..] == ds;
    TickKeepsInv(DEFAULTS, num, TWO_OF_FOUR, 4, st, ins[0], d);
    forall j | 1 <= j <= 7 - k
      ensures StateAt(DEFAULTS, num, TWO_OF_FOUR, 4, st, ins, ds', j) == sts'[j]
    {
      assert StateAt(DEFAULTS, num, TWO_OF_FOUR, 4, sts[0], INPUTS[k + 1..], ds, j - 1) == sts[j - 1];
    }
  }

  /**
   * Whatever exp, ln and sqrt are: the seven ticks are a run from the initial state, the last of them finds both a
   * restore and a cut due, and the limit ends at 1 of 4. The pool reports the thread counts that the controller set.
   */
  lemma RestoreAndCutInOneTick(num: Numerics) returns (ds: seq<Decision>)
    ensures ValidParams(DEFAULTS) && Inv(DEFAULTS, TWO_OF_FOUR, InitState(TWO_OF_FOUR, 2)) && Possible(INPUTS)
    ensures Run(DEFAULTS, num, TWO_OF_FOUR, 4, InitState(TWO_OF_FOUR, 2), INPUTS, ds)
    ensures forall k :: 0 <= k < |INPUTS| ==>
      StateAt(DEFAULTS, num, TWO_OF_FOUR, 4, InitState(TWO_OF_FOUR, 2), INPUTS, ds, k).c == INPUTS[k].s.active
    ensures var st := StateAt(DEFAULTS, num, TWO_OF_FOUR, 4, InitState(TWO_OF_FOUR, 2), INPUTS, ds, 6);
      RestoreDue(DEFAULTS, TWO_OF_FOUR, st, INPUTS[6].now) && CutDue(DEFAULTS, st, INPUTS[6])
    ensures StateAt(DEFAULTS, num, TWO_OF_FOUR, 4, InitState(TWO_OF_FOUR, 2), INPUTS, ds, 7).cMaxEff == 1
  {
    hide Passes, Leads, Inv, Run, StateAt, RestoreDue, CutDue, Possible;
    InputsPossible();
    BothDue(num);
    var sts;
    ds, sts := WholeRun(num);
    Unpack(num, ds, sts);
    assert INPUTS[0..] == INPUTS;
  }

  lemma InputsPossible()
    ensures Possible(INPUTS)
  {
    assert Follows(INPUTS[0], INPUTS[1]) && Follows(INPUTS[1], INPUTS[2]) && Follows(INPUTS[2], INPUTS[3]);
    assert Follows(INPUTS[3], INPUTS[4]) && Follows(INPUTS[4], INPUTS[5]) && Follows(INPUTS[5], INPUTS[6]);
    hide Follows;
  }

  lemma Unpack(num: Numerics, ds: seq<Decision>, sts: seq<State>)
    ensures Passes(num, 0, ds, sts) ==>
      && ValidParams(DEFAULTS) && |sts| == 8 && Inv(DEFAULTS, TWO_OF_FOUR, sts[0])
      && Run(DEFAULTS, num, TWO_OF_FOUR, 4, sts[0], INPUTS[0..], ds)
      && forall j :: 0 <= j <= 7 ==> StateAt(DEFAULTS, num, TWO_OF_FOUR, 4, sts[0], INPUTS[0..], ds, j) == sts[j]
  {}

  lemma Ends(num: Numerics, st: State, d: Decision, t: State)
    requires Leads(num, st, INPUTS[6], d, t)
    ensures Passes(num, 7, [], [t])
  {
    hide TickOf, AfterTick;
    TickKeepsInv(DEFAULTS, num, TWO_OF_FOUR, 4, st, INPUTS[6], d);
  }

  lemma WholeRun(num: Numerics) returns (ds: seq<Decision>, sts: seq<State>)
    ensures Passes(num, 0, ds, sts) && |sts| == 8 && sts[7].cMaxEff == 1
    ensures sts[..7] == [FRESH, PRIMED, GROWN, CUT, SHORT, SHRUNK, Regrown(num)]
  {
    hide Passes, Leads, RestoreDue, CutDue;
    var d6, t := RestoresAndCuts(num);
    var d5 := Regrows(num);
    Ends(num, Regrown(num), d6, t);
    ds, sts := [], [t];
    ds, sts := Prepend(num, 6, d6, ds, Regrown(num), sts);
    ds, sts := Prepend(num, 5, d5, ds, SHRUNK, sts);
    Shrinks(num);
    ds, sts := Prepend(num, 4, Decision(1, 0, 1), ds, SHORT, sts);
    Waits(num);
    ds, sts := Prepend(num, 3, Decision(1, 0, 1), ds, CUT, sts);
    Cuts(num);
    ds, sts := Prepend(num, 2, Decision(1, 6, 2), ds, GROWN, sts);
    Grows(num);
    ds, sts := Prepend(num, 1, Decision(1, 4, 4), ds, PRIMED, sts);
    Primes(num);
    ds, sts := Prepend(num, 0, Decision(0, 0, 0), ds, FRESH, sts);
  }
}
