/** The value baseline: a warm-up mean, then an exponential moving average (src/evolvbft/adaptive/advantage.go). */
module Baselines {
  import opened Wrappers
  import opened Arith
  import opened Roulette

  datatype AdvantageConfig = AdvantageConfig(alpha: real, warmupSteps: int, normalize: bool, stdEpsilon: real)

  /** Out-of-range settings are replaced. */
  function WithDefaults(config: AdvantageConfig): (c: AdvantageConfig)
    ensures ValidConfig(c)
    ensures ValidConfig(config) ==> c == config
  {
    config.(alpha := if config.alpha <= 0.0 || config.alpha > 1.0 then 0.05 else config.alpha,
            warmupSteps := if config.warmupSteps < 0 then 0 else config.warmupSteps,
            stdEpsilon := if config.stdEpsilon <= 0.0 then 0.00000001 else config.stdEpsilon)
  }

  /** Each setting that is out of range is replaced by itself. */
  lemma DefaultsReplaceEach(config: AdvantageConfig)
    ensures var c := WithDefaults(config);
            && c.alpha == (if 0.0 < config.alpha <= 1.0 then config.alpha else 0.05)
            && c.warmupSteps == (if config.warmupSteps >= 0 then config.warmupSteps else 0)
            && c.stdEpsilon == (if config.stdEpsilon > 0.0 then config.stdEpsilon else 0.00000001)
            && c.normalize == config.normalize
  {
  }

  predicate ValidConfig(c: AdvantageConfig) {
    0.0 < c.alpha <= 1.0 && c.warmupSteps >= 0 && c.stdEpsilon > 0.0
  }

  /** The estimator's numbers.  Before the first advantage the extremes are infinite, here None. */
  datatype Estimate = Estimate(
    baseline: real, variance: real, steps: nat, warmedUp: bool,
    totalAdv: real, maxAdv: Option<real>, minAdv: Option<real>)

  const START := Estimate(0.0, 0.0, 0, false, 0.0, None, None)

  function Observe(c: AdvantageConfig, e: Estimate, reward: real): Estimate {
    var steps := e.steps + 1;
    if steps <= c.warmupSteps then
      e.(steps := steps,
         baseline := if steps == 1 then reward else e.baseline + Quotient(reward - e.baseline, steps as real),
         warmedUp := steps >= c.warmupSteps)
    else
      var advantage := reward - e.baseline;
      e.(steps := steps,
         baseline := e.baseline + Times(c.alpha, reward - e.baseline),
         variance := e.variance + Times(c.alpha, Times(advantage, advantage) - e.variance),
         totalAdv := e.totalAdv + advantage,
         maxAdv := if e.maxAdv.None? || advantage > e.maxAdv.value then Some(advantage) else e.maxAdv,
         minAdv := if e.minAdv.None? || advantage < e.minAdv.value then Some(advantage) else e.minAdv)
  }

  /** The estimate after a list of rewards. */
  function After(c: AdvantageConfig, rewards: seq<real>): (e: Estimate)
    ensures e.steps == |rewards|
  {
    if rewards == [] then START
    else Observe(c, After(c, rewards[..|rewards| - 1]), rewards[|rewards| - 1])
  }

  class ValueBaseline {
    const config: AdvantageConfig
    const sqrt: real -> real
    var baseline: real
    var variance: real
    var steps: nat
    var warmedUp: bool
    var totalAdv: real
    var maxAdv: Option<real>
    var minAdv: Option<real>
    ghost var rewards: seq<real>   // every reward ever observed

    ghost predicate Valid()
      reads this
    {
      && ValidConfig(config)
      && (forall x: real :: x >= 0.0 ==> sqrt(x) >= 0.0)
      && Estimate(baseline, variance, steps, warmedUp, totalAdv, maxAdv, minAdv) == After(config, rewards)
    }

    constructor (config: AdvantageConfig, sqrt: real -> real)
      requires forall x: real :: x >= 0.0 ==> sqrt(x) >= 0.0
      ensures Valid() && rewards == [] && this.config == WithDefaults(config) && this.sqrt == sqrt
    {
      this.config, this.sqrt := WithDefaults(config), sqrt;
      baseline, variance, steps, warmedUp := 0.0, 0.0, 0, false;
      totalAdv, maxAdv, minAdv, rewards := 0.0, None, None, [];
    }

    /** Returns the raw reward during warm-up, then the advantage over the previous baseline. */
    method Advantage(reward: real) returns (result: real)
      requires Valid()
      modifies this
      ensures Valid() && rewards == old(rewards) + [reward]
      ensures steps <= config.warmupSteps ==> result == reward
      ensures steps > config.warmupSteps ==>
                var advantage := reward - old(baseline);
                if config.normalize then Times(result, sqrt(variance) + config.stdEpsilon) == advantage
                else result == advantage
    {
      hide Times, Quotient, After;
      AfterSnoc(config, rewards, reward);
      rewards := rewards + [reward];
      steps := steps + 1;
      if steps <= config.warmupSteps {
        if steps == 1 {
          baseline := reward;
        } else {
          baseline := baseline + Quotient(reward - baseline, steps as real);
        }
        warmedUp := steps >= config.warmupSteps;
        return reward;
      }
      var advantage := reward - baseline;
      baseline := baseline + Times(config.alpha, reward - baseline);
      variance := variance + Times(config.alpha, Times(advantage, advantage) - variance);
      totalAdv := totalAdv + advantage;
      if maxAdv.None? || advantage > maxAdv.value {
        maxAdv := Some(advantage);
      }
      if minAdv.None? || advantage < minAdv.value {
        minAdv := Some(advantage);
      }
      result := advantage;
      if config.normalize {
        VarianceNotNegative(config, rewards);
        var std := sqrt(variance) + config.stdEpsilon;
        QuotientTimes(advantage, std);
        result := Quotient(advantage, std);
      }
    }
  }

  lemma AfterSnoc(c: AdvantageConfig, rewards: seq<real>, reward: real)
    ensures After(c, rewards + [reward]) == Observe(c, After(c, rewards), reward)
  {
    assert (rewards + [reward])[..|rewards|] == rewards;
  }

  // ---- convex combinations ----

  /** A step of length k in [0, 1] from b towards r stays between them. */
  lemma StepStaysBetween(lo: real, hi: real, b: real, r: real, k: real)
    requires lo <= b <= hi && lo <= r <= hi && 0.0 <= k <= 1.0
    ensures lo <= b + Times(k, r - b) <= hi
  {
    hide Times;
    if r >= b {
      FractionOf(k, r - b);
    } else {
      FractionOf(k, b - r);
      assert r - b == -(b - r);
    }
  }

  lemma SquareBound(a: real, w: real)
    requires -w <= a <= w
    ensures 0.0 <= Times(a, a) <= Times(w, w)
  {
    var m := if a >= 0.0 then a else -a;
    ScaleMonotone(0.0, m, m);
    ScaleMonotone(m, w, m);
    ScaleMonotone(m, w, w);
  }

  predicate Within(lo: real, hi: real, rewards: seq<real>) {
    forall i | 0 <= i < |rewards| :: lo <= rewards[i] <= hi
  }

  /**
   The baseline never leaves the range of the rewards seen, and the variance estimate stays in
   [0, (hi - lo)^2].  Without a warm-up the baseline starts at 0, so 0 has to be in the range.
   */
  lemma {:induction false} StaysInRange(c: AdvantageConfig, rewards: seq<real>, lo: real, hi: real)
    requires ValidConfig(c) && rewards != [] && Within(lo, hi, rewards)
    requires c.warmupSteps >= 1 || lo <= 0.0 <= hi
    ensures lo <= After(c, rewards).baseline <= hi
    ensures 0.0 <= After(c, rewards).variance <= Times(hi - lo, hi - lo)
  {
    hide Times, Quotient, After;
    var n := |rewards| - 1;
    var before, r := After(c, rewards[..n]), rewards[n];
    LastObserved(c, rewards);
    SquareBound(hi - lo, hi - lo);
    if n > 0 {
      StaysInRange(c, rewards[..n], lo, hi);
    } else {
      NothingObserved(c);
      assert rewards[..0] == [];
    }
    if n > 0 || c.warmupSteps == 0 {
      StepInRange(c, before, r, lo, hi);
    }
  }

  lemma NothingObserved(c: AdvantageConfig)
    ensures After(c, []) == START
  {
  }

  lemma StepInRange(c: AdvantageConfig, e: Estimate, r: real, lo: real, hi: real)
    requires ValidConfig(c) && lo <= r <= hi && lo <= e.baseline <= hi
    requires 0.0 <= e.variance <= Times(hi - lo, hi - lo)
    ensures lo <= Observe(c, e, r).baseline <= hi
    ensures 0.0 <= Observe(c, e, r).variance <= Times(hi - lo, hi - lo)
  {
    hide Times, Quotient;
    if e.steps + 1 <= c.warmupSteps {
      DivideByCount(r - e.baseline, e.steps + 1);
      StepStaysBetween(lo, hi, e.baseline, r, 1.0 / ((e.steps + 1) as real));
    } else {
      var a := r - e.baseline;
      SquareBound(a, hi - lo);
      StepStaysBetween(lo, hi, e.baseline, r, c.alpha);
      StepStaysBetween(0.0, Times(hi - lo, hi - lo), e.variance, Times(a, a), c.alpha);
    }
  }

  lemma DivideByCount(x: real, n: nat)
    requires n >= 1
    ensures Quotient(x, n as real) == Times(1.0 / (n as real), x) && 0.0 <= 1.0 / (n as real) <= 1.0
  {
    QuotientTimes(x, n as real);
    QuotientsOrdered(1.0, n as real, n as real);
    assert (n as real) / (n as real) == 1.0;
  }

  lemma VarianceNotNegative(c: AdvantageConfig, rewards: seq<real>)
    requires ValidConfig(c)
    ensures After(c, rewards).variance >= 0.0
  {
    if rewards != [] {
      var lo, hi := Bounds(rewards);
      StaysInRange(c, rewards, lo, hi);
    }
  }

  lemma {:induction false} Bounds(rewards: seq<real>) returns (lo: real, hi: real)
    ensures Within(lo, hi, rewards) && lo <= 0.0 <= hi
  {
    if rewards == [] {
      return 0.0, 0.0;
    }
    lo, hi := Bounds(rewards[1..]);
    var r := rewards[0];
    lo, hi := if r < lo then r else lo, if r > hi then r else hi;
    forall i | 0 <= i < |rewards| ensures lo <= rewards[i] <= hi {
      assert i > 0 ==> rewards[i] == rewards[1..][i - 1];
    }
  }

  // ---- what the baseline is ----

  /** During the warm-up the baseline is the exact mean of the rewards seen. */
  lemma {:induction false} WarmupIsMean(c: AdvantageConfig, rewards: seq<real>)
    requires 1 <= |rewards| <= c.warmupSteps
    ensures After(c, rewards).baseline == Quotient(Sum(rewards), |rewards| as real)
    ensures After(c, rewards).totalAdv == 0.0
    ensures After(c, rewards).warmedUp <==> |rewards| == c.warmupSteps
  {
    var n := |rewards| - 1;
    assert rewards == rewards[..n] + [rewards[n]];
    SumAppend(rewards[..n], [rewards[n]]);
    if n > 0 {
      WarmupIsMean(c, rewards[..n]);
      RunningMean(Sum(rewards[..n]), rewards[n], n);
    } else {
      assert Sum(rewards) == rewards[0];
    }
  }

  lemma RunningMean(sum: real, x: real, n: nat)
    requires n >= 1
    ensures var mean := Quotient(sum, n as real);
            mean + Quotient(x - mean, (n + 1) as real) == Quotient(sum + x, (n + 1) as real)
  {
    var mean, m := Quotient(sum, n as real), (n + 1) as real;
    QuotientTimes(sum, n as real);
    QuotientTimes(x - mean, m);
    QuotientTimes(sum + x, m);
    QuotientTimes(mean, m);
    hide Quotient, Times;
    var k := 1.0 / m;
    TimesDistributes(n as real, 1.0, mean);
    assert Times(m, mean) == sum + mean;
    TimesDistributes(m, 0.0, mean);
    TimesDistributes(mean, 0.0, n as real);
    QuotientTimes(Times(mean, m), m);
    TimesDistributes(x - mean, sum + mean, k);
    TimesDistributes(x - mean, 0.0, k);
    TimesDistributes(sum + mean, 0.0, k);
    TimesDistributes(sum + x, 0.0, k);
  }

  /** Where the moving average starts. */
  function WarmupValue(c: AdvantageConfig, rewards: seq<real>): real
    requires 0 <= c.warmupSteps <= |rewards|
  {
    if c.warmupSteps == 0 then 0.0 else Quotient(Sum(rewards[..c.warmupSteps]), c.warmupSteps as real)
  }

  /** After the warm-up the baseline is the warm-up mean plus alpha times all advantages so far. */
  lemma {:induction false} BaselineTelescopes(c: AdvantageConfig, rewards: seq<real>)
    requires 0 <= c.warmupSteps <= |rewards|
    ensures After(c, rewards).baseline == WarmupValue(c, rewards) + Times(c.alpha, After(c, rewards).totalAdv)
  {
    TimesDistributes(0.0, 0.0, c.alpha);
    if |rewards| == c.warmupSteps {
      if rewards != [] {
        WarmupIsMean(c, rewards);
        assert rewards[..c.warmupSteps] == rewards;
      }
    } else {
      var n := |rewards| - 1;
      var before := After(c, rewards[..n]);
      BaselineTelescopes(c, rewards[..n]);
      assert rewards[..n][..c.warmupSteps] == rewards[..c.warmupSteps];
      hide Times, After;
      TimesDistributes(before.totalAdv, rewards[n] - before.baseline, c.alpha);
      TimesDistributes(rewards[n] - before.baseline, 0.0, c.alpha);
      TimesDistributes(before.totalAdv, 0.0, c.alpha);
      TimesDistributes(before.totalAdv + (rewards[n] - before.baseline), 0.0, c.alpha);
      LastObserved(c, rewards);
    }
  }

  lemma LastObserved(c: AdvantageConfig, rewards: seq<real>)
    requires rewards != []
    ensures After(c, rewards) == Observe(c, After(c, rewards[..|rewards| - 1]), rewards[|rewards| - 1])
  {
  }

  /** The advantages so far: each reward after the warm-up, over the baseline before it. */
  function Advantages(c: AdvantageConfig, rewards: seq<real>): (advantages: seq<real>)
    requires c.warmupSteps >= 0
    ensures |advantages| == if |rewards| <= c.warmupSteps then 0 else |rewards| - c.warmupSteps
  {
    if |rewards| <= c.warmupSteps then []
    else
      var before := rewards[..|rewards| - 1];
      Advantages(c, before) + [rewards[|rewards| - 1] - After(c, before).baseline]
  }

  function Squares(xs: seq<real>): (r: seq<real>)
    ensures |r| == |xs| && forall i | 0 <= i < |xs| :: r[i] == Times(xs[i], xs[i])
  {
    seq(|xs|, i requires 0 <= i < |xs| => Times(xs[i], xs[i]))
  }

  /** A moving average: each new number has the share alpha in it, all before the rest. */
  function Smoothed(start: real, alpha: real, xs: seq<real>): real {
    if xs == [] then start
    else Times(1.0 - alpha, Smoothed(start, alpha, xs[..|xs| - 1])) + Times(alpha, xs[|xs| - 1])
  }

  lemma SmoothedSnoc(start: real, alpha: real, xs: seq<real>, x: real)
    ensures Smoothed(start, alpha, xs + [x])
            == Smoothed(start, alpha, xs) + Times(alpha, x - Smoothed(start, alpha, xs))
  {
    assert (xs + [x])[..|xs|] == xs;
    var s := Smoothed(start, alpha, xs);
    TimesDistributes(1.0, alpha, s);
    TimesDistributes(x, s, alpha);
    TimesDistributes(x, 0.0, alpha);
    TimesDistributes(s, 0.0, alpha);
    TimesDistributes(x - s, 0.0, alpha);
    hide Times;
  }

  /** After the warm-up the baseline averages the rewards and the variance the squared advantages. */
  lemma {:induction false} EstimatesAreSmoothed(c: AdvantageConfig, rewards: seq<real>)
    requires 0 <= c.warmupSteps <= |rewards|
    ensures After(c, rewards).baseline == Smoothed(WarmupValue(c, rewards), c.alpha, rewards[c.warmupSteps..])
    ensures After(c, rewards).variance == Smoothed(0.0, c.alpha, Squares(Advantages(c, rewards)))
  {
    hide Times, After, Quotient, Smoothed, Squares, Advantages, WarmupValue;
    if |rewards| == c.warmupSteps {
      EndOfWarmup(c, rewards);
      NothingSmoothed(WarmupValue(c, rewards), c.alpha);
      NothingSmoothed(0.0, c.alpha);
      assert Squares([]) == [];
    } else {
      var n := |rewards| - 1;
      var before := rewards[..n];
      EstimatesAreSmoothed(c, before);
      LastObserved(c, rewards);
      OneMoreReward(c, rewards);
      SmoothedSnoc(WarmupValue(c, rewards), c.alpha, before[c.warmupSteps..], rewards[n]);
      var a := rewards[n] - After(c, before).baseline;
      SmoothedSnoc(0.0, c.alpha, Squares(Advantages(c, before)), Times(a, a));
    }
  }

  lemma NothingSmoothed(start: real, alpha: real)
    ensures Smoothed(start, alpha, []) == start
  {
  }

  lemma EndOfWarmup(c: AdvantageConfig, rewards: seq<real>)
    requires 0 <= c.warmupSteps == |rewards|
    ensures After(c, rewards).baseline == WarmupValue(c, rewards) && After(c, rewards).variance == 0.0
    ensures Advantages(c, rewards) == [] && rewards[c.warmupSteps..] == []
  {
    hide Times, After, Quotient;
    NoAdvantagesInWarmup(c, rewards);
    assert rewards[..c.warmupSteps] == rewards;
    if rewards != [] {
      WarmupIsMean(c, rewards);
    } else {
      NothingObserved(c);
    }
  }

  lemma OneMoreReward(c: AdvantageConfig, rewards: seq<real>)
    requires 0 <= c.warmupSteps < |rewards|
    ensures var n := |rewards| - 1;
            var before := rewards[..n];
            var a := rewards[n] - After(c, before).baseline;
            && WarmupValue(c, rewards) == WarmupValue(c, before)
            && rewards[c.warmupSteps..] == before[c.warmupSteps..] + [rewards[n]]
            && Squares(Advantages(c, rewards)) == Squares(Advantages(c, before)) + [Times(a, a)]
  {
    hide Times, After, Quotient;
    assert rewards[..|rewards| - 1][..c.warmupSteps] == rewards[..c.warmupSteps];
  }

  /** The published total and extremes are those of the advantages. */
  lemma {:induction false} StatisticsAreExact(c: AdvantageConfig, rewards: seq<real>)
    requires c.warmupSteps >= 0
    ensures var e, advantages := After(c, rewards), Advantages(c, rewards);
            && e.steps == |rewards| && e.totalAdv == Sum(advantages)
            && (advantages == [] ==> e.maxAdv.None? && e.minAdv.None?)
            && (advantages != [] ==>
                  && e.maxAdv.Some? && e.maxAdv.value in advantages
                  && e.minAdv.Some? && e.minAdv.value in advantages
                  && forall a | a in advantages :: e.minAdv.value <= a <= e.maxAdv.value)
  {
    hide Times, After, Sum;
    if |rewards| <= c.warmupSteps {
      NoAdvantagesInWarmup(c, rewards);
      NoSum();
    } else {
      var n := |rewards| - 1;
      var before, a := Advantages(c, rewards[..n]), rewards[n] - After(c, rewards[..n]).baseline;
      StatisticsAreExact(c, rewards[..n]);
      LastObserved(c, rewards);
      hide Advantages;
      assert Advantages(c, rewards) == before + [a] by {
        AdvantagesSnoc(c, rewards);
      }
      SumAppend(before, [a]);
      NoSum();
      assert Sum([a]) == a by {
        OneSum(a);
      }
    }
  }

  lemma NoSum()
    ensures Sum([]) == 0.0
  {
  }

  lemma OneSum(a: real)
    ensures Sum([a]) == a
  {
    assert [a][1..] == [];
  }

  lemma AdvantagesSnoc(c: AdvantageConfig, rewards: seq<real>)
    requires 0 <= c.warmupSteps < |rewards|
    ensures var before := rewards[..|rewards| - 1];
            Advantages(c, rewards) == Advantages(c, before) + [rewards[|rewards| - 1] - After(c, before).baseline]
  {
    hide After;
  }

  /** The mean advantage published by the statistics lies between the published extremes. */
  lemma {:induction false} MeanBetweenExtremes(c: AdvantageConfig, rewards: seq<real>)
    requires 0 <= c.warmupSteps < |rewards|
    ensures var e, n := After(c, rewards), (|rewards| - c.warmupSteps) as real;
            && e.minAdv.Some? && e.maxAdv.Some?
            && e.minAdv.value <= Quotient(e.totalAdv, n) <= e.maxAdv.value
  {
    ExtremesBoundTotal(c, rewards);
    var e, n := After(c, rewards), (|rewards| - c.warmupSteps) as real;
    hide After, Times, Quotient;
    TimesDistributes(n, 0.0, e.minAdv.value);
    TimesDistributes(n, 0.0, e.maxAdv.value);
    QuotientMonotone(Times(n, e.minAdv.value), e.totalAdv, n);
    QuotientMonotone(e.totalAdv, Times(n, e.maxAdv.value), n);
    QuotientTimes(e.minAdv.value, n);
    QuotientTimes(e.maxAdv.value, n);
  }

  lemma {:induction false} ExtremesBoundTotal(c: AdvantageConfig, rewards: seq<real>)
    requires 0 <= c.warmupSteps <= |rewards|
    ensures var e, n := After(c, rewards), (|rewards| - c.warmupSteps) as real;
            if n == 0.0 then e.minAdv.None? && e.maxAdv.None? && e.totalAdv == 0.0
            else e.minAdv.Some? && e.maxAdv.Some?
                 && Times(n, e.minAdv.value) <= e.totalAdv <= Times(n, e.maxAdv.value)
  {
    hide After, Times;
    if |rewards| == c.warmupSteps {
      NoAdvantagesInWarmup(c, rewards);
    } else {
      var m := |rewards| - 1;
      ExtremesBoundTotal(c, rewards[..m]);
      var before, now := After(c, rewards[..m]), After(c, rewards);
      LastObserved(c, rewards);
      var n := (m - c.warmupSteps) as real;
      var a := rewards[m] - before.baseline;
      if n == 0.0 {
        TimesDistributes(0.0, 0.0, a);
      } else {
        TimesMonotone(now.minAdv.value, before.minAdv.value, n);
        TimesMonotone(before.maxAdv.value, now.maxAdv.value, n);
        TimesDistributes(n, 1.0, now.minAdv.value);
        TimesDistributes(n, 1.0, now.maxAdv.value);
      }
    }
  }

  lemma TimesMonotone(a: real, b: real, n: real)
    requires a <= b && n >= 0.0
    ensures Times(n, a) <= Times(n, b)
  {
    ScaleMonotone(a, b, n);
  }

  lemma {:induction false} NoAdvantagesInWarmup(c: AdvantageConfig, rewards: seq<real>)
    requires |rewards| <= c.warmupSteps
    ensures var e := After(c, rewards); e.minAdv.None? && e.maxAdv.None? && e.totalAdv == 0.0 && e.variance == 0.0
  {
    if rewards != [] {
      NoAdvantagesInWarmup(c, rewards[..|rewards| - 1]);
    }
  }

  // ---- without a warm-up ----

  /**
   With warmupSteps = 0 the first observation does not set the baseline, as a test's comment says:
   it moves it from 0 by alpha, and so sets it exactly if alpha is 1 or the reward is 0.
   */
  lemma FirstObservationSetsBaselineIff(c: AdvantageConfig, reward: real)
    requires ValidConfig(c) && c.warmupSteps == 0
    ensures After(c, [reward]).baseline == Times(c.alpha, reward)
    ensures After(c, [reward]).baseline == reward <==> c.alpha == 1.0 || reward == 0.0
  {
    assert [reward][..0] == [] && After(c, []) == START;
    assert After(c, [reward]) == Observe(c, START, reward);
    TimesDistributes(c.alpha, 1.0, reward);
    if Times(c.alpha - 1.0, reward) == 0.0 {
      assert c.alpha == 1.0 || reward == 0.0;
    }
  }

  /** After every observation the baseline lies between any bounds on the rewards seen so far. */
  ghost predicate BaselineStaysInRange(c: AdvantageConfig, rewards: seq<real>) {
    forall k: nat, lo: real, hi: real | 1 <= k <= |rewards| && Within(lo, hi, rewards[..k]) ::
      lo <= After(c, rewards[..k]).baseline <= hi
  }

  /** After every observation the variance is at most the square of the width of any such bounds. */
  ghost predicate VarianceStaysInRange(c: AdvantageConfig, rewards: seq<real>) {
    forall k: nat, lo: real, hi: real | 1 <= k <= |rewards| && Within(lo, hi, rewards[..k]) ::
      0.0 <= After(c, rewards[..k]).variance <= Times(hi - lo, hi - lo)
  }

  /**
   The baseline of a run stays in the range of its rewards exactly if there is a warm-up, or alpha is 1,
   or the run starts with a reward of 0, at which the baseline starts.
   */
  lemma BaselineInRangeIff(c: AdvantageConfig, rewards: seq<real>)
    requires ValidConfig(c) && rewards != []
    ensures BaselineStaysInRange(c, rewards) <==> c.warmupSteps >= 1 || c.alpha == 1.0 || rewards[0] == 0.0
  {
    hide After, Times;
    var first := rewards[..1];
    assert first == [rewards[0]] && Within(rewards[0], rewards[0], first);
    if c.warmupSteps == 0 {
      FirstObservationSetsBaselineIff(c, rewards[0]);
    }
    if c.warmupSteps >= 1 || c.alpha == 1.0 || rewards[0] == 0.0 {
      forall k: nat, lo, hi | 1 <= k <= |rewards| && Within(lo, hi, rewards[..k])
        ensures lo <= After(c, rewards[..k]).baseline <= hi
      {
        assert rewards[..k][0] == rewards[0];
        if c.warmupSteps == 0 && c.alpha == 1.0 {
          AlphaOneTracksLast(c, rewards[..k]);
        } else {
          StaysInRange(c, rewards[..k], lo, hi);
        }
      }
    }
  }

  /** The variance bound needs a warm-up or a first reward of 0; alpha = 1 does not help it. */
  lemma VarianceInRangeIff(c: AdvantageConfig, rewards: seq<real>)
    requires ValidConfig(c) && rewards != []
    ensures VarianceStaysInRange(c, rewards) <==> c.warmupSteps >= 1 || rewards[0] == 0.0
  {
    hide After, Times;
    var r, first := rewards[0], rewards[..1];
    assert first == [r] && Within(r, r, first);
    if c.warmupSteps == 0 && r != 0.0 {
      FirstVariance(c, r);
      TimesDistributes(0.0, 0.0, r - r);
      assert !VarianceStaysInRange(c, rewards) by {
        assert After(c, rewards[..1]).variance > Times(r - r, r - r);
      }
    } else {
      forall k: nat, lo, hi | 1 <= k <= |rewards| && Within(lo, hi, rewards[..k])
        ensures 0.0 <= After(c, rewards[..k]).variance <= Times(hi - lo, hi - lo)
      {
        assert rewards[..k][0] == rewards[0];
        StaysInRange(c, rewards[..k], lo, hi);
      }
    }
  }

  lemma AlphaOneTracksLast(c: AdvantageConfig, rewards: seq<real>)
    requires c.alpha == 1.0 && c.warmupSteps == 0 && rewards != []
    ensures After(c, rewards).baseline == rewards[|rewards| - 1]
  {
    var n := |rewards| - 1;
    hide After, Times;
    LastObserved(c, rewards);
    TimesDistributes(0.0, 0.0, rewards[n] - After(c, rewards[..n]).baseline);
  }

  lemma FirstVariance(c: AdvantageConfig, reward: real)
    requires ValidConfig(c) && c.warmupSteps == 0 && reward != 0.0
    ensures After(c, [reward]).variance > 0.0
  {
    assert [reward][..0] == [] && After(c, []) == START;
    assert After(c, [reward]) == Observe(c, START, reward);
    var square := Times(reward, reward);
    assert square > 0.0 by {
      SquarePositive(reward);
    }
    hide Times;
    assert reward - START.baseline == reward && square - START.variance == square;
    assert After(c, [reward]).variance == Times(c.alpha, square);
    PositiveTimes(c.alpha, square);
  }

  lemma SquarePositive(x: real)
    requires x != 0.0
    ensures Times(x, x) > 0.0
  {
    var m := if x > 0.0 then x else -x;
    PositiveTimes(m, m);
    assert Times(x, x) == m * m;
  }

  lemma PositiveTimes(a: real, b: real)
    requires a > 0.0 && b > 0.0
    ensures Times(a, b) > 0.0
  {
    ScaleMonotone(a, a, b);
  }

  /**
   Concretely: with alpha = 1/2 a single reward of 10 gives the baseline 5, outside the range of
   rewards seen, and the variance 50, though the rewards do not vary.
   */
  lemma NoWarmupLeavesRange(c: AdvantageConfig, reward: real)
    requires c == AdvantageConfig(0.5, 0, false, 1.0) && reward == 10.0
    ensures Within(10.0, 10.0, [reward]) && After(c, [reward]).baseline == 5.0
    ensures After(c, [reward]).variance == 50.0
  {
    FirstObservationSetsBaselineIff(c, reward);
    assert [reward][..0] == [] && After(c, []) == START;
    assert After(c, [reward]) == Observe(c, START, reward);
  }
}
