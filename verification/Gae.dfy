/**
 Generalized advantage estimation (experiments/sfac_ppo.py, SFACController._compute_gae).

 One column is one instance.  The loop runs backwards over the steps and carries the last
 advantage; the definition it has to meet runs forwards and stops at the end of the episode.
 */
module Gae {
  import opened Arith
  import opened Roulette

  // ---- the forward definition ----

  function Pow(c: real, k: nat): real {
    if k == 0 then 1.0 else Times(Pow(c, k - 1), c)
  }

  /** xs[0] + c xs[1] + c^2 xs[2] + ... */
  function PowerSum(c: real, xs: seq<real>): real {
    if xs == [] then 0.0
    else PowerSum(c, xs[..|xs| - 1]) + Times(Pow(c, |xs| - 1), xs[|xs| - 1])
  }

  /** The last step of the episode that step t belongs to: the first done step from t on, or the last of all. */
  function EpisodeEnd(dones: seq<bool>, t: nat): (e: nat)
    requires t < |dones|
    ensures t <= e < |dones|
    ensures e < |dones| - 1 ==> dones[e]
    ensures forall k | t <= k < e :: !dones[k]
    decreases |dones| - t
  {
    if t == |dones| - 1 || dones[t] then t else EpisodeEnd(dones, t + 1)
  }

  /** The critic's value of the following step; nothing follows the end of an episode. */
  function NextValue(dones: seq<bool>, values: seq<real>, t: nat): real
    requires |values| == |dones| && t < |dones|
  {
    if t == |dones| - 1 || dones[t] then 0.0 else values[t + 1]
  }

  datatype Discount = Discount(gamma: real, lambda: real)

  /** The factor between consecutive errors. */
  function Decay(c: Discount): real {
    c.gamma * c.lambda
  }

  function Delta(c: Discount, rewards: seq<real>, dones: seq<bool>, values: seq<real>, t: nat): real
    requires |rewards| == |values| == |dones| && t < |dones|
  {
    rewards[t] + Times(c.gamma, NextValue(dones, values, t)) - values[t]
  }

  /** The temporal-difference errors from step t to the end of its episode. */
  function EpisodeDeltas(c: Discount, rewards: seq<real>, dones: seq<bool>, values: seq<real>, t: nat): (ds: seq<real>)
    requires |rewards| == |values| == |dones| && t < |dones|
    ensures |ds| == EpisodeEnd(dones, t) + 1 - t
    ensures forall k | 0 <= k < |ds| :: ds[k] == Delta(c, rewards, dones, values, t + k)
  {
    seq(EpisodeEnd(dones, t) + 1 - t,
        k requires 0 <= k <= EpisodeEnd(dones, t) - t => Delta(c, rewards, dones, values, t + k))
  }

  /** A_t = sum over k of (gamma lambda)^k delta_{t+k}, cut at the end of the episode. */
  function Advantage(c: Discount, rewards: seq<real>, dones: seq<bool>, values: seq<real>, t: nat): real
    requires |rewards| == |values| == |dones| && t < |dones|
  {
    PowerSum(Decay(c), EpisodeDeltas(c, rewards, dones, values, t))
  }

  // ---- backward step ----

  /** Summing forwards by powers is the same as multiplying out from the back. */
  lemma {:induction false} PowerSumCons(c: real, x: real, xs: seq<real>)
    ensures PowerSum(c, [x] + xs) == x + Times(c, PowerSum(c, xs))
  {
    TimesDistributes(0.0, 0.0, c);
    hide Times;
    if xs == [] {
      assert [x] + xs == [x] && [x][..0] == [];
      TimesDistributes(x, 0.0, x);
    } else {
      var n := |xs|;
      var init, last, p := xs[..n - 1], xs[n - 1], Pow(c, n - 1);
      PowerSumCons(c, x, init);
      assert ([x] + xs)[..n] == [x] + init;
      assert Pow(c, n) == Times(p, c);
      HornerStep(c, p, last, PowerSum(c, init));
    }
  }

  lemma HornerStep(c: real, p: real, last: real, s: real)
    ensures Times(c, s) + Times(Times(p, c), last) == Times(c, s + Times(p, last))
  {
  }

  /** The recurrence the loop follows. */
  lemma AdvantageRecurrence(c: Discount, rewards: seq<real>, dones: seq<bool>, values: seq<real>, t: nat)
    requires |rewards| == |values| == |dones| && t < |dones|
    ensures Advantage(c, rewards, dones, values, t)
            == Delta(c, rewards, dones, values, t)
               + if t == |dones| - 1 || dones[t] then 0.0
                 else Times(Decay(c), Advantage(c, rewards, dones, values, t + 1))
  {
    hide Decay, Times;
    TimesDistributes(0.0, 0.0, Decay(c));
    var now := EpisodeDeltas(c, rewards, dones, values, t);
    var delta := Delta(c, rewards, dones, values, t);
    if t == |dones| - 1 || dones[t] {
      assert now == [delta] + [];
      assert PowerSum(Decay(c), []) == 0.0;
      PowerSumCons(Decay(c), delta, []);
    } else {
      var later := EpisodeDeltas(c, rewards, dones, values, t + 1);
      assert now == [delta] + later;
      PowerSumCons(Decay(c), delta, later);
    }
  }

  /** The advantage of a step from its reward, its value, and the value and advantage of the next. */
  lemma AdvantageUnfolds(c: Discount, rewards: seq<real>, dones: seq<bool>, values: seq<real>, t: nat)
    requires |rewards| == |values| == |dones| && t < |dones|
    ensures Advantage(c, rewards, dones, values, t)
            == rewards[t] - values[t]
               + if t == |dones| - 1 || dones[t] then 0.0
                 else Times(c.gamma, values[t + 1])
                      + Times(Times(c.gamma, c.lambda), Advantage(c, rewards, dones, values, t + 1))
  {
    AdvantageRecurrence(c, rewards, dones, values, t);
    TimesDistributes(0.0, 0.0, c.gamma);
    assert Decay(c) == Times(c.gamma, c.lambda);
    hide Advantage, Decay, Times;
  }

  // ---- what the definition promises ----

  /** Rewards of other episodes, in particular those after a done step, have no influence. */
  lemma OnlyOwnEpisodeMatters(c: Discount, r: seq<real>, r': seq<real>, dones: seq<bool>, values: seq<real>, t: nat)
    requires |r| == |r'| == |values| == |dones| && t < |dones|
    requires forall k | t <= k <= EpisodeEnd(dones, t) :: r[k] == r'[k]
    ensures Advantage(c, r, dones, values, t) == Advantage(c, r', dones, values, t)
  {
    var ds, ds' := EpisodeDeltas(c, r, dones, values, t), EpisodeDeltas(c, r', dones, values, t);
    forall k | 0 <= k < |ds| ensures ds[k] == ds'[k] {
      var u := t + k;
      assert r[u] == r'[u];
      assert ds[k] == Delta(c, r, dones, values, u) && ds'[k] == Delta(c, r', dones, values, u);
    }
    assert ds == ds';
  }

  /** The value the source calls the return of step t. */
  function Return(c: Discount, rewards: seq<real>, dones: seq<bool>, values: seq<real>, t: nat): real
    requires |rewards| == |values| == |dones| && t < |dones|
  {
    Advantage(c, rewards, dones, values, t) + values[t]
  }

  /** With lambda = 1 the critic's values cancel from one step to the next. */
  lemma ReturnRecurrence(c: Discount, rewards: seq<real>, dones: seq<bool>, values: seq<real>, t: nat)
    requires |rewards| == |values| == |dones| && t < |dones| && c.lambda == 1.0
    ensures Return(c, rewards, dones, values, t)
            == rewards[t] + if t == |dones| - 1 || dones[t] then 0.0
                            else Times(c.gamma, Return(c, rewards, dones, values, t + 1))
  {
    AdvantageRecurrence(c, rewards, dones, values, t);
    assert Decay(c) == c.gamma;
    hide Advantage, Decay, Times;
    TimesDistributes(0.0, 0.0, c.gamma);
    if t < |dones| - 1 {
      var next := Advantage(c, rewards, dones, values, t + 1);
      TimesDistributes(next, values[t + 1], c.gamma);
      TimesDistributes(next + values[t + 1], 0.0, c.gamma);
      TimesDistributes(values[t + 1], 0.0, c.gamma);
    }
  }

  /** With lambda = 1 the return is the discounted reward to go, whatever the critic says. */
  lemma {:induction false} ReturnIsRewardToGo(c: Discount, rewards: seq<real>, dones: seq<bool>, values: seq<real>,
                                              t: nat)
    requires |rewards| == |values| == |dones| && t < |dones| && c.lambda == 1.0
    ensures Return(c, rewards, dones, values, t) == PowerSum(c.gamma, rewards[t..EpisodeEnd(dones, t) + 1])
    decreases |dones| - t
  {
    hide Return, PowerSum, Times;
    ReturnRecurrence(c, rewards, dones, values, t);
    TimesDistributes(0.0, 0.0, c.gamma);
    var e := EpisodeEnd(dones, t);
    SliceCons(rewards, t, e + 1);
    PowerSumCons(c.gamma, rewards[t], rewards[t + 1..e + 1]);
    if t == |dones| - 1 || dones[t] {
      NoTerms(c.gamma);
      assert rewards[t + 1..e + 1] == [];
    } else {
      ReturnIsRewardToGo(c, rewards, dones, values, t + 1);
    }
  }

  lemma NoTerms(c: real)
    ensures PowerSum(c, []) == 0.0
  {
  }

  lemma SliceCons(xs: seq<real>, lo: nat, hi: nat)
    requires lo < hi <= |xs|
    ensures xs[lo..hi] == [xs[lo]] + xs[lo + 1..hi]
  {
  }

  /** With lambda = 0 the advantage is the one-step temporal-difference error. */
  lemma OneStepAdvantage(c: Discount, rewards: seq<real>, dones: seq<bool>, values: seq<real>, t: nat)
    requires |rewards| == |values| == |dones| && t < |dones| && c.lambda == 0.0
    ensures Advantage(c, rewards, dones, values, t) == Delta(c, rewards, dones, values, t)
  {
    AdvantageRecurrence(c, rewards, dones, values, t);
    assert Decay(c) == 0.0;
  }

  // ---- normalization ----

  function Mean(xs: seq<real>): real
    requires xs != []
  {
    Sum(xs) / (|xs| as real)
  }

  function SquaredDeviations(xs: seq<real>, mean: real): (r: seq<real>)
    ensures |r| == |xs| && forall i | 0 <= i < |xs| :: r[i] == Times(xs[i] - mean, xs[i] - mean)
  {
    seq(|xs|, i requires 0 <= i < |xs| => Times(xs[i] - mean, xs[i] - mean))
  }

  /** Standard deviation, for a given square root. */
  function Std(sqrt: real -> real, xs: seq<real>): real
    requires xs != []
  {
    sqrt(Mean(SquaredDeviations(xs, Mean(xs))))
  }

  const STD_EPSILON := 0.00000001

  /** What normalization does to the value x among the values xs. */
  function Normalized(sqrt: real -> real, xs: seq<real>, x: real): real {
    if xs != [] && Std(sqrt, xs) > STD_EPSILON then (x - Mean(xs)) / (Std(sqrt, xs) + STD_EPSILON) else x
  }

  ghost predicate SquareRootLaw(sqrt: real -> real) {
    forall x: real :: x >= 0.0 ==> sqrt(x) >= 0.0 && Times(sqrt(x), sqrt(x)) == x
  }

  /** Mean and standard deviation of some values, without a division. */
  predicate AreMoments(xs: seq<real>, mean: real, std: real) {
    && Times(mean, |xs| as real) == Sum(xs)
    && std >= 0.0 && Times(Times(std, std), |xs| as real) == Sum(SquaredDeviations(xs, mean))
  }

  /** Normalization subtracts the mean and divides by the standard deviation, unless that is tiny. */
  lemma NormalizedIs(sqrt: real -> real, xs: seq<real>, x: real) returns (mean: real, std: real)
    requires xs != [] && SquareRootLaw(sqrt)
    ensures AreMoments(xs, mean, std)
    ensures if std > 0.00000001 then Times(Normalized(sqrt, xs, x), std + 0.00000001) == x - mean
            else Normalized(sqrt, xs, x) == x
  {
    mean, std := Mean(xs), Std(sqrt, xs);
    MeanIs(xs);
    var ds := SquaredDeviations(xs, mean);
    MeanIs(ds);
    SquaresNotNegative(xs, mean);
    hide Times, SquareRootLaw, Sum;
    RootIs(sqrt, Mean(ds));
    if std > 0.00000001 {
      DividedBack(x - mean, std + 0.00000001);
    }
  }

  lemma MeanIs(xs: seq<real>)
    requires xs != []
    ensures Times(Mean(xs), |xs| as real) == Sum(xs)
    ensures NonNegative(xs) ==> Mean(xs) >= 0.0
  {
    hide Sum;
    if NonNegative(xs) {
      QuotientsOrdered(0.0, Sum(xs), |xs| as real);
    }
  }

  lemma SquaresNotNegative(xs: seq<real>, mean: real)
    ensures NonNegative(SquaredDeviations(xs, mean))
  {
  }

  lemma RootIs(sqrt: real -> real, x: real)
    requires SquareRootLaw(sqrt) && x >= 0.0
    ensures sqrt(x) >= 0.0 && Times(sqrt(x), sqrt(x)) == x
  {
  }

  lemma DividedBack(a: real, d: real)
    requires d > 0.0
    ensures Times(a / d, d) == a
  {
  }

  /** Normalization never reorders advantages. */
  lemma NormalizationKeepsOrder(sqrt: real -> real, xs: seq<real>, x: real, y: real)
    ensures x < y ==> Normalized(sqrt, xs, x) < Normalized(sqrt, xs, y)
  {
    if x < y && xs != [] && Std(sqrt, xs) > STD_EPSILON {
      var s, mean := Std(sqrt, xs) + STD_EPSILON, Mean(xs);
      hide Std, Mean;
      QuotientsOrdered(y - x, y - x, s);
      QuotientDifference(y - mean, x - mean, s);
    }
  }

  lemma QuotientDifference(a: real, b: real, d: real)
    requires d > 0.0
    ensures a / d - b / d == (a - b) / d
  {
    QuotientIsProduct(a, d);
    QuotientIsProduct(b, d);
    QuotientIsProduct(a - b, d);
  }

  /** If normalization happens at all, the result is centred. */
  lemma NormalizedSumToZero(sqrt: real -> real, xs: seq<real>, ys: seq<real>)
    requires xs != [] && Std(sqrt, xs) > STD_EPSILON
    requires |ys| == |xs| && forall i | 0 <= i < |xs| :: ys[i] == Normalized(sqrt, xs, xs[i])
    ensures Sum(ys) == 0.0
  {
    hide Std, Mean, Normalized, Times;
    var mean, k := Mean(xs), 1.0 / (Std(sqrt, xs) + STD_EPSILON);
    forall i | 0 <= i < |xs| ensures ys[i] == Times(xs[i] - mean, k) {
      NormalizedIsScaled(sqrt, xs, xs[i]);
    }
    MeanTimesCount(xs);
    ScaledSum(xs, ys, mean, k);
    TimesDistributes(0.0, 0.0, k);
  }

  lemma NormalizedIsScaled(sqrt: real -> real, xs: seq<real>, x: real)
    requires xs != [] && Std(sqrt, xs) > STD_EPSILON
    ensures Normalized(sqrt, xs, x) == Times(x - Mean(xs), 1.0 / (Std(sqrt, xs) + STD_EPSILON))
  {
    hide Std, Mean;
    QuotientIsProduct(x - Mean(xs), Std(sqrt, xs) + STD_EPSILON);
  }

  lemma MeanTimesCount(xs: seq<real>)
    requires xs != []
    ensures Sum(xs) == Times(|xs| as real, Mean(xs))
  {
    hide Sum;
  }

  lemma {:induction false} ScaledSum(xs: seq<real>, ys: seq<real>, mean: real, k: real)
    requires |xs| == |ys|
    requires forall i | 0 <= i < |xs| :: ys[i] == Times(xs[i] - mean, k)
    ensures Sum(ys) == Times(Sum(xs) - Times(|xs| as real, mean), k)
  {
    TimesDistributes(0.0, 0.0, k);
    TimesDistributes(0.0, 0.0, mean);
    hide Times;
    if xs != [] {
      ScaledSum(xs[1..], ys[1..], mean, k);
      TimesDistributes(|xs[1..]| as real, 1.0, mean);
      TimesDistributes(xs[0] - mean, Sum(xs[1..]) - Times(|xs[1..]| as real, mean), k);
    }
  }

  // ---- the loops ----

  /** The loop's factor for a step with done flag 0 or 1. */
  lemma StepFactor(c: Discount, done: real, x: real)
    requires done == 0.0 || done == 1.0
    ensures Times(Times(Decay(c), 1.0 - done), x) == if done == 1.0 then 0.0 else Times(Decay(c), x)
  {
  }


  function Column(rows: seq<seq<real>>, m: nat, j: nat): (column: seq<real>)
    requires j < m && forall t | 0 <= t < |rows| :: |rows[t]| == m
    ensures |column| == |rows| && forall t | 0 <= t < |rows| :: column[t] == rows[t][j]
  {
    seq(|rows|, t requires 0 <= t < |rows| => rows[t][j])
  }

  /** The advantages of all instances at step t. */
  function AdvantageRow(c: Discount, rewards: seq<seq<real>>, dones: seq<bool>, values: seq<real>, m: nat,
                        t: nat): (row: seq<real>)
    requires |rewards| == |values| == |dones| && forall t | 0 <= t < |rewards| :: |rewards[t]| == m
    requires t < |dones|
    ensures |row| == m
    ensures forall j | 0 <= j < m :: row[j] == Advantage(c, Column(rewards, m, j), dones, values, t)
  {
    seq(m, j requires 0 <= j < m => Advantage(c, Column(rewards, m, j), dones, values, t))
  }

  /** The advantages of steps 0, ..., t-1 in one list, row after row. */
  function Ravel(c: Discount, rewards: seq<seq<real>>, dones: seq<bool>, values: seq<real>, m: nat, t: nat): seq<real>
    requires |rewards| == |values| == |dones| && forall t | 0 <= t < |rewards| :: |rewards[t]| == m
    requires t <= |dones|
  {
    if t == 0 then []
    else Ravel(c, rewards, dones, values, m, t - 1) + AdvantageRow(c, rewards, dones, values, m, t - 1)
  }

  lemma RavelStarts(c: Discount, rewards: seq<seq<real>>, dones: seq<bool>, values: seq<real>, m: nat)
    requires |rewards| == |values| == |dones| && forall t | 0 <= t < |rewards| :: |rewards[t]| == m
    ensures Ravel(c, rewards, dones, values, m, 0) == []
  {
  }

  lemma RavelSnoc(c: Discount, rewards: seq<seq<real>>, dones: seq<bool>, values: seq<real>, m: nat, t: nat)
    requires |rewards| == |values| == |dones| && forall t | 0 <= t < |rewards| :: |rewards[t]| == m
    requires t < |dones|
    ensures Ravel(c, rewards, dones, values, m, t + 1)
            == Ravel(c, rewards, dones, values, m, t) + AdvantageRow(c, rewards, dones, values, m, t)
  {
    hide AdvantageRow;
  }

  /** The list has every advantage of every instance once. */
  lemma {:induction false} RavelHoldsAll(c: Discount, rewards: seq<seq<real>>, dones: seq<bool>, values: seq<real>,
                                         m: nat, t: nat, u: nat, j: nat)
    requires |rewards| == |values| == |dones| && forall t | 0 <= t < |rewards| :: |rewards[t]| == m
    requires u < t <= |dones| && j < m
    ensures var flat := Ravel(c, rewards, dones, values, m, t);
            && |flat| == t * m && u * m + j < t * m
            && flat[u * m + j] == Advantage(c, Column(rewards, m, j), dones, values, u)
  {
    hide Advantage;
    assert t * m == (t - 1) * m + m;
    if u < t - 1 {
      RavelHoldsAll(c, rewards, dones, values, m, t - 1, u, j);
    } else {
      RavelLength(c, rewards, dones, values, m, t - 1);
    }
  }

  lemma {:induction false} RavelLength(c: Discount, rewards: seq<seq<real>>, dones: seq<bool>, values: seq<real>,
                                       m: nat, t: nat)
    requires |rewards| == |values| == |dones| && forall t | 0 <= t < |rewards| :: |rewards[t]| == m
    requires t <= |dones|
    ensures |Ravel(c, rewards, dones, values, m, t)| == t * m
  {
    hide Advantage;
    if t > 0 {
      RavelLength(c, rewards, dones, values, m, t - 1);
    }
  }

  /** The backward loop: fills in unnormalized advantages and returns. */
  method BackwardPass(c: Discount, rewards: seq<seq<real>>, dones: seq<bool>, values: seq<real>, m: nat)
    returns (returns_: array2<real>, advantages: array2<real>)
    requires |rewards| == |values| == |dones| && forall t | 0 <= t < |rewards| :: |rewards[t]| == m
    ensures fresh(returns_) && fresh(advantages) && returns_ != advantages
    ensures returns_.Length0 == advantages.Length0 == |dones| && returns_.Length1 == advantages.Length1 == m
    ensures forall t, j | 0 <= t < |dones| && 0 <= j < m ::
              && advantages[t, j] == Advantage(c, Column(rewards, m, j), dones, values, t)
              && returns_[t, j] == advantages[t, j] + values[t]
  {
    hide Advantage, Decay, Times;
    TimesDistributes(0.0, 0.0, Decay(c));
    var steps := |dones|;
    returns_ := new real[steps, m]((_, _) => 0.0);
    advantages := new real[steps, m]((_, _) => 0.0);
    var j := 0;
    while j < m
      invariant j <= m
      invariant forall t, k | 0 <= t < steps && 0 <= k < j ::
        && advantages[t, k] == Advantage(c, Column(rewards, m, k), dones, values, t)
        && returns_[t, k] == advantages[t, k] + values[t]
    {
      var lastGae := 0.0;
      var t := steps;
      while t > 0
        invariant t <= steps
        invariant t < steps ==> lastGae == Advantage(c, Column(rewards, m, j), dones, values, t)
        invariant t == steps ==> lastGae == 0.0
        invariant forall u | t <= u < steps ::
          && advantages[u, j] == Advantage(c, Column(rewards, m, j), dones, values, u)
          && returns_[u, j] == advantages[u, j] + values[u]
        invariant forall u, k | 0 <= u < steps && 0 <= k < j ::
          && advantages[u, k] == Advantage(c, Column(rewards, m, k), dones, values, u)
          && returns_[u, k] == advantages[u, k] + values[u]
      {
        t := t - 1;
        AdvantageRecurrence(c, Column(rewards, m, j), dones, values, t);
        var nextVal := if t == steps - 1 || dones[t] then 0.0 else values[t + 1];
        var delta := rewards[t][j] + Times(c.gamma, nextVal) - values[t];
        var done := if dones[t] then 1.0 else 0.0;
        StepFactor(c, done, lastGae);
        lastGae := delta + Times(Times(Decay(c), 1.0 - done), lastGae);
        advantages[t, j] := lastGae;
        returns_[t, j] := advantages[t, j] + values[t];
      }
      j := j + 1;
    }
  }

  /** Advantages are normalized over all steps and instances together; returns are not. */
  method ComputeGae(c: Discount, rewards: seq<seq<real>>, dones: seq<bool>, values: seq<real>, m: nat,
                    sqrt: real -> real)
    returns (returns_: array2<real>, advantages: array2<real>)
    requires |rewards| == |values| == |dones| && forall t | 0 <= t < |rewards| :: |rewards[t]| == m
    ensures returns_.Length0 == advantages.Length0 == |dones| && returns_.Length1 == advantages.Length1 == m
    ensures forall t, j | 0 <= t < |dones| && 0 <= j < m ::
              && advantages[t, j] == Normalized(sqrt, Ravel(c, rewards, dones, values, m, |dones|),
                                                Advantage(c, Column(rewards, m, j), dones, values, t))
              && returns_[t, j] == Return(c, Column(rewards, m, j), dones, values, t)
  {
    hide Advantage, Ravel, Normalized, Mean, Std;
    returns_, advantages := BackwardPass(c, rewards, dones, values, m);
    var steps := |dones|;
    var flat: seq<real> := [];
    RavelStarts(c, rewards, dones, values, m);
    forall u | 0 <= u < steps
      ensures Ravel(c, rewards, dones, values, m, u + 1)
              == Ravel(c, rewards, dones, values, m, u) + AdvantageRow(c, rewards, dones, values, m, u)
    {
      RavelSnoc(c, rewards, dones, values, m, u);
    }
    var t := 0;
    while t < steps
      invariant t <= steps && flat == Ravel(c, rewards, dones, values, m, t)
    {
      ghost var row := AdvantageRow(c, rewards, dones, values, m, t);
      var j := 0;
      while j < m
        invariant j <= m && flat == Ravel(c, rewards, dones, values, m, t) + row[..j]
      {
        assert row[..j + 1] == row[..j] + [row[j]];
        flat := flat + [advantages[t, j]];
        j := j + 1;
      }
      assert row[..m] == row;
      t := t + 1;
    }
    t := 0;
    while t < steps
      invariant t <= steps
      invariant forall u, j | 0 <= u < steps && 0 <= j < m ::
        advantages[u, j] == if u < t then Normalized(sqrt, flat, Advantage(c, Column(rewards, m, j), dones, values, u))
                            else Advantage(c, Column(rewards, m, j), dones, values, u)
      invariant forall u, j | 0 <= u < steps && 0 <= j < m ::
        returns_[u, j] == Return(c, Column(rewards, m, j), dones, values, u)
    {
      var j := 0;
      while j < m
        invariant j <= m
        invariant forall u, k | 0 <= u < steps && 0 <= k < m ::
          advantages[u, k] == if u < t || (u == t && k < j)
                              then Normalized(sqrt, flat, Advantage(c, Column(rewards, m, k), dones, values, u))
                              else Advantage(c, Column(rewards, m, k), dones, values, u)
        invariant forall u, k | 0 <= u < steps && 0 <= k < m ::
          returns_[u, k] == Return(c, Column(rewards, m, k), dones, values, u)
      {
        advantages[t, j] := Normalized(sqrt, flat, advantages[t, j]);
        j := j + 1;
      }
      t := t + 1;
    }
  }
}
