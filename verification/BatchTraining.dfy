/**
 The joint training loop over a batch (marl/trainer.py, SafeFACMACTrainer.fit_batch): role critics,
 the monotonic mixer, the linear critic and the actor are updated sample by sample.
 */
module BatchTraining {
  import opened Wrappers
  import opened Arith
  import R = Roulette
  import opened Mixers
  import opened Trainers

  const EPOCHS: nat := 24

  datatype TrainingBatch = TrainingBatch(
    features: Matrix, nextFeatures: Matrix, actions: Matrix, candidateActions: Matrix, governedActions: Matrix,
    rewards: seq<real>, teamRewards: seq<real>, dones: seq<real>,
    governanceDeltas: seq<real>, guardrailDeltas: seq<real>)

  /** The batch is non-empty and its lists have the same length; otherwise training raises an error. */
  predicate Aligned(b: TrainingBatch) {
    && b.features != []
    && |b.features| == |b.actions| == |b.rewards| == |b.nextFeatures| == |b.teamRewards| == |b.dones|
    && |b.features| == |b.candidateActions| == |b.governedActions|
    && |b.features| == |b.governanceDeltas| == |b.guardrailDeltas|
  }

  /** Nine lists have to be as long as the list of features, which has to have a row. */
  lemma AlignedIff(b: TrainingBatch)
    ensures Aligned(b) <==>
              && |b.features| >= 1
              && forall n | n in [|b.nextFeatures|, |b.actions|, |b.candidateActions|, |b.governedActions|, |b.rewards|,
                                  |b.teamRewards|, |b.dones|, |b.governanceDeltas|, |b.guardrailDeltas|] ::
                   n == |b.features|
  {
    var lengths := [|b.nextFeatures|, |b.actions|, |b.candidateActions|, |b.governedActions|, |b.rewards|,
                    |b.teamRewards|, |b.dones|, |b.governanceDeltas|, |b.guardrailDeltas|];
    assert && lengths[0] in lengths && lengths[1] in lengths && lengths[2] in lengths && lengths[3] in lengths
           && lengths[4] in lengths && lengths[5] in lengths && lengths[6] in lengths && lengths[7] in lengths
           && lengths[8] in lengths;
  }

  /** Rewards are clipped before use. */
  function Sanitized(rewards: seq<real>): (r: seq<real>)
    ensures |r| == |rewards| && InBox(r, MAX_ROLE_REWARD_ABS)
    ensures forall i | 0 <= i < |r| :: StepsTo(0.0, rewards[i], -5.0, 5.0, r[i])
  {
    seq(|rewards|, i requires 0 <= i < |rewards| => Clip(rewards[i], -MAX_ROLE_REWARD_ABS, MAX_ROLE_REWARD_ABS))
  }

  /** Everything that stays fixed during training; the two reward lists are sanitized. */
  datatype Setup = Setup(batch: TrainingBatch, features: nat, actions: nat, hidden: nat, exp: real -> real)

  ghost predicate SetupFits(s: Setup) {
    && Aligned(s.batch)
    && IsMatrix(s.batch.features, |s.batch.features|, s.features)
    && IsMatrix(s.batch.nextFeatures, |s.batch.features|, s.features)
    && IsMatrix(s.batch.actions, |s.batch.features|, s.actions)
    && InBox(s.batch.rewards, MAX_ROLE_REWARD_ABS)
  }

  datatype TrainState = TrainState(
    actor: Actor, criticW: seq<real>, criticB: real,
    roleW: Matrix, roleB: seq<real>, mixer: MixerParameters)

  ghost predicate StateFits(s: Setup, st: TrainState) {
    && ActorFits(st.actor, s.actions, s.features)
    && |st.criticW| == s.features
    && IsMatrix(st.roleW, NUM_ROLES, s.features) && |st.roleB| == NUM_ROLES
    && Fits(st.mixer, NUM_ROLES, s.hidden, s.features)
  }

  // ---- one sample ----

  /** The value each role's critic gives to x. */
  function RoleValues(st: TrainState, x: seq<real>): (q: seq<real>)
    requires |st.roleW| == |st.roleB| == NUM_ROLES
    ensures |q| == NUM_ROLES
  {
    seq(NUM_ROLES, r requires 0 <= r < NUM_ROLES => Dot(st.roleW[r], x) + st.roleB[r])
  }

  /** The mixed value of x. */
  ghost function TeamValue(s: Setup, st: TrainState, x: seq<real>): real
    requires SetupFits(s) && StateFits(s, st)
  {
    Forward(s.exp, st.mixer, NUM_ROLES, s.hidden, s.features, x, RoleValues(st, x))
  }

  ghost function Target(s: Setup, st: TrainState, idx: nat): real
    requires SetupFits(s) && StateFits(s, st) && idx < |s.batch.features|
  {
    s.batch.teamRewards[idx]
    + Times(Times(1.0 - s.batch.dones[idx], GAMMA), TeamValue(s, st, s.batch.nextFeatures[idx]))
  }

  function LinearValue(st: TrainState, x: seq<real>): real {
    Dot(st.criticW, x) + st.criticB
  }

  /** All role critics after one step of the given size. */
  function RolesMoved(rows: Matrix, step: real, x: seq<real>): (r: Matrix)
    requires IsMatrix(rows, |rows|, |x|)
    ensures IsMatrix(r, |rows|, |x|) && forall i | 0 <= i < |r| :: InBox(r[i], MAX_CRITIC_WEIGHT)
  {
    seq(|rows|, i requires 0 <= i < |rows| => Moved(rows[i], step, x, MAX_CRITIC_WEIGHT))
  }

  function BiasesMoved(biases: seq<real>, step: real): (r: seq<real>)
    ensures |r| == |biases| && InBox(r, MAX_CRITIC_WEIGHT)
  {
    seq(|biases|, i requires 0 <= i < |biases| => Clip(biases[i] + step, -MAX_CRITIC_WEIGHT, MAX_CRITIC_WEIGHT))
  }

  function BatchSampleWeight(b: TrainingBatch, idx: nat): real
    requires Aligned(b) && idx < |b.features|
  {
    SampleWeight(b.rewards[idx], Least(b.rewards), Span(b.rewards))
    + Times(0.15, b.governanceDeltas[idx]) + Times(0.05, b.guardrailDeltas[idx])
  }

  function ActorSteps(actor: Actor, x: seq<real>, y: seq<real>, weight: real, td: real): (raw: seq<real>)
    requires |actor.weights| == |actor.bias| == |y|
    ensures |raw| == |y|
  {
    seq(|y|, i requires 0 <= i < |y| =>
      Times(Times(BC_LR, weight), y[i] - Affine(actor, x)[i]) + Times(Times(ACTOR_LR, td), 0.05))
  }

  /** One sample: every part of the state moves along errors computed from the state before. */
  ghost function SampleStep(s: Setup, st: TrainState, idx: nat): (r: TrainState)
    requires SetupFits(s) && StateFits(s, st) && idx < |s.batch.features|
    ensures StateFits(s, r)
  {
    var x, y := s.batch.features[idx], s.batch.actions[idx];
    var td := Target(s, st, idx) - TeamValue(s, st, x);
    var tdLinear := Target(s, st, idx) - LinearValue(st, x);
    var half := Times(Times(CRITIC_LR, 0.5), td);
    TrainState(
      ActorMoved(st.actor, ActorSteps(st.actor, x, y, BatchSampleWeight(s.batch, idx), td), x,
                 Mins(s.batch.actions, s.actions), Maxs(s.batch.actions, s.actions)),
      Moved(st.criticW, Times(CRITIC_LR, tdLinear), x, MAX_CRITIC_WEIGHT),
      Clip(st.criticB + Times(CRITIC_LR, tdLinear), -MAX_CRITIC_WEIGHT, MAX_CRITIC_WEIGHT),
      RolesMoved(st.roleW, half, x), BiasesMoved(st.roleB, half),
      Updated(st.mixer, NUM_ROLES, s.hidden, s.features, x, RoleValues(st, x), td, CRITIC_LR))
  }

  ghost function TrainEpoch(s: Setup, st: TrainState, order: seq<nat>): (r: TrainState)
    requires SetupFits(s) && StateFits(s, st) && OrderFits(order, |s.batch.features|)
    ensures StateFits(s, r)
  {
    if order == [] then st
    else SampleStep(s, TrainEpoch(s, st, order[..|order| - 1]), order[|order| - 1])
  }

  ghost function TrainEpochs(s: Setup, st: TrainState, orders: seq<seq<nat>>): (r: TrainState)
    requires SetupFits(s) && StateFits(s, st)
    requires forall e | 0 <= e < |orders| :: OrderFits(orders[e], |s.batch.features|)
    ensures StateFits(s, r)
  {
    if orders == [] then st
    else TrainEpoch(s, TrainEpochs(s, st, orders[..|orders| - 1]), orders[|orders| - 1])
  }

  // ---- the boxes ----

  /** Actor biases within the targets' column bounds, actor weights in [-1, 1], critic parameters in [-5, 5]. */
  ghost predicate InBoxes(s: Setup, st: TrainState)
    requires SetupFits(s)
  {
    && ActorInBox(st.actor, Mins(s.batch.actions, s.actions), Maxs(s.batch.actions, s.actions))
    && InBox(st.criticW, MAX_CRITIC_WEIGHT) && InBox([st.criticB], MAX_CRITIC_WEIGHT)
    && (forall r | 0 <= r < |st.roleW| :: InBox(st.roleW[r], MAX_CRITIC_WEIGHT))
    && InBox(st.roleB, MAX_CRITIC_WEIGHT)
  }

  /** The parts of the mixer that training moves. */
  predicate MixerInBox(p: MixerParameters) {
    && (forall r | 0 <= r < |p.hyperW1| :: InBox(p.hyperW1[r], MAX_CRITIC_WEIGHT))
    && InBox(p.biasW, MAX_CRITIC_WEIGHT) && InBox([p.biasB], MAX_CRITIC_WEIGHT)
  }

  /** A step lands in the boxes from anywhere, and leaves the untrained parts of the mixer alone. */
  lemma StepLandsInBoxes(s: Setup, st: TrainState, idx: nat)
    requires SetupFits(s) && StateFits(s, st) && idx < |s.batch.features|
    ensures var r := SampleStep(s, st, idx);
            && InBoxes(s, r) && MixerInBox(r.mixer)
            && r.mixer.hyperB1 == st.mixer.hyperB1 && r.mixer.hyperW2 == st.mixer.hyperW2
  {
    hide ActorInBox, ActorMoved, Moved, Target, TeamValue, ActorSteps, BatchSampleWeight, RoleValues, LinearValue;
    var x, y := s.batch.features[idx], s.batch.actions[idx];
    var td := Target(s, st, idx) - TeamValue(s, st, x);
    ActorMovedInBox(st.actor, ActorSteps(st.actor, x, y, BatchSampleWeight(s.batch, idx), td), x,
                    Mins(s.batch.actions, s.actions), Maxs(s.batch.actions, s.actions));
  }

  lemma {:induction false} EpochKeepsBoxes(s: Setup, st: TrainState, order: seq<nat>)
    requires SetupFits(s) && StateFits(s, st) && OrderFits(order, |s.batch.features|) && InBoxes(s, st)
    ensures var r := TrainEpoch(s, st, order);
            && InBoxes(s, r)
            && (order != [] || MixerInBox(st.mixer) ==> MixerInBox(r.mixer))
            && r.mixer.hyperB1 == st.mixer.hyperB1 && r.mixer.hyperW2 == st.mixer.hyperW2
  {
    hide InBoxes, MixerInBox, SampleStep;
    if order != [] {
      EpochKeepsBoxes(s, st, order[..|order| - 1]);
      StepLandsInBoxes(s, TrainEpoch(s, st, order[..|order| - 1]), order[|order| - 1]);
    }
  }

  /** The state before the first epoch; the initial mixer comes from the generator. */
  function Start(s: Setup, mixer: MixerParameters): TrainState
    requires s.batch.actions != [] && |s.batch.actions| == |s.batch.rewards|
    requires IsMatrix(s.batch.actions, |s.batch.actions|, s.actions)
  {
    var mean := Quotient(R.Sum(s.batch.rewards), |s.batch.rewards| as real);
    TrainState(
      Actor(seq(s.actions, i => seq(s.features, k => 0.0)), TopRewardMean(s.batch.actions, s.batch.rewards, s.actions)),
      seq(s.features, k => 0.0), mean,
      seq(NUM_ROLES, r => seq(s.features, k => 0.0)), seq(NUM_ROLES, r => Quotient(mean, 4.0)),
      mixer.(biasB := 0.0))
  }

  lemma StartInBoxes(s: Setup, mixer: MixerParameters)
    requires SetupFits(s) && Fits(mixer, NUM_ROLES, s.hidden, s.features)
    ensures StateFits(s, Start(s, mixer)) && InBoxes(s, Start(s, mixer))
  {
    hide Quotient, R.Sum, TopRewardMean, Mins, Maxs;
    TopRewardMeanBetween(s.batch.actions, s.batch.rewards, s.actions);
    MeanBetween(s.batch.rewards, -MAX_ROLE_REWARD_ABS, MAX_ROLE_REWARD_ABS);
    var mean := Quotient(R.Sum(s.batch.rewards), |s.batch.rewards| as real);
    QuarterInBox(mean);
  }

  lemma QuarterInBox(x: real)
    requires -5.0 <= x <= 5.0
    ensures -5.0 <= Quotient(x, 4.0) <= 5.0
  {
  }

  /** For every batch, every initial mixer, any number of epochs and any orders, training stays in the boxes. */
  lemma {:induction false} TrainingStaysInBoxes(s: Setup, mixer: MixerParameters, orders: seq<seq<nat>>)
    requires SetupFits(s) && Fits(mixer, NUM_ROLES, s.hidden, s.features)
    requires forall e | 0 <= e < |orders| :: OrderFits(orders[e], |s.batch.features|)
    ensures StateFits(s, Start(s, mixer))
    ensures var r := TrainEpochs(s, Start(s, mixer), orders);
            && InBoxes(s, r)
            && ((exists e | 0 <= e < |orders| :: orders[e] != []) ==> MixerInBox(r.mixer))
            && r.mixer.hyperB1 == mixer.hyperB1 && r.mixer.hyperW2 == mixer.hyperW2
  {
    hide InBoxes, MixerInBox, TrainEpoch;
    StartInBoxes(s, mixer);
    if orders != [] {
      var n := |orders| - 1;
      TrainingStaysInBoxes(s, mixer, orders[..n]);
      EpochKeepsBoxes(s, TrainEpochs(s, Start(s, mixer), orders[..n]), orders[n]);
      if e :| 0 <= e < |orders| && orders[e] != [] {
        assert e < n ==> orders[..n][e] != [];
      }
    }
  }

  // ---- what one sample does ----

  /** The role critics' values of x. */
  predicate AreRoleValues(st: TrainState, x: seq<real>, q: seq<real>) {
    |q| == |st.roleW| == |st.roleB| && forall r | 0 <= r < |q| :: q[r] == Dot(st.roleW[r], x) + st.roleB[r]
  }

  /** The mixed value of the sample, and its target: team reward plus discounted value of what follows, if anything. */
  ghost predicate AreValueAndTarget(s: Setup, st: TrainState, idx: nat, q: seq<real>, value: real, target: real)
    requires SetupFits(s) && StateFits(s, st) && idx < |s.batch.features|
  {
    && AreRoleValues(st, s.batch.features[idx], q)
    && value == Forward(s.exp, st.mixer, 4, s.hidden, s.features, s.batch.features[idx], q)
    && exists next :: && AreRoleValues(st, s.batch.nextFeatures[idx], next)
                      && target == s.batch.teamRewards[idx]
                                   + Times(Times(1.0 - s.batch.dones[idx], 0.95),
                                           Forward(s.exp, st.mixer, 4, s.hidden, s.features,
                                                   s.batch.nextFeatures[idx], next))
  }

  /** A linear critic moves by this step: its bias by the step itself, its weights along x, all within [-5, 5]. */
  predicate CriticFollows(w: seq<real>, b: real, step: real, x: seq<real>, w': seq<real>, b': real) {
    && |w'| == |w| == |x| && StepsTo(b, step, -5.0, 5.0, b')
    && forall k | 0 <= k < |w| :: StepsTo(w[k], Times(step, x[k]), -5.0, 5.0, w'[k])
  }

  /**
   One sample moves the role critics and the mixer along the error of the mixed value, the linear critic
   along its own error, and the actor towards the sample's action, with a share of the first error.
   */
  lemma SampleFollowsErrors(s: Setup, st: TrainState, idx: nat)
    returns (q: seq<real>, value: real, target: real, base: real, changes: seq<real>)
    requires SetupFits(s) && StateFits(s, st) && idx < |s.batch.features|
    ensures AreValueAndTarget(s, st, idx, q, value, target)
    ensures IsSampleWeight(s.batch.rewards, idx, base) && |changes| == s.actions && |q| == 4
    ensures var x, y := s.batch.features[idx], s.batch.actions[idx];
            forall i | 0 <= i < s.actions ::
              changes[i] == Times(Times(0.08, base + Times(0.15, s.batch.governanceDeltas[idx])
                                                   + Times(0.05, s.batch.guardrailDeltas[idx])),
                                  y[i] - (st.actor.bias[i] + Dot(x, st.actor.weights[i])))
                            + Times(Times(0.002, target - value), 0.05)
    ensures var x, r := s.batch.features[idx], SampleStep(s, st, idx);
            && ActorFollows(st.actor, changes, x, Mins(s.batch.actions, s.actions), Maxs(s.batch.actions, s.actions),
                            r.actor)
            && CriticFollows(st.criticW, st.criticB, Times(0.01, target - (Dot(st.criticW, x) + st.criticB)), x,
                             r.criticW, r.criticB)
            && (forall k | 0 <= k < 4 ::
                  CriticFollows(st.roleW[k], st.roleB[k], Times(Times(0.01, 0.5), target - value), x,
                                r.roleW[k], r.roleB[k]))
            && r.mixer == Updated(st.mixer, 4, s.hidden, s.features, x, q, target - value, 0.01)
  {
    hide Times, Dot, Forward, Moved, Updated, ActorMoved, ActorFollows, SampleWeight, IsSampleWeight, Mins, Maxs, Least,
        Span;
    var x := s.batch.features[idx];
    q, value, target := ValueAndTarget(s, st, idx);
    base := SampleWeight(s.batch.rewards[idx], Least(s.batch.rewards), Span(s.batch.rewards));
    SampleWeightIs(s.batch.rewards, idx);
    changes := ActorSteps(st.actor, x, s.batch.actions[idx], BatchSampleWeight(s.batch, idx), target - value);
    BoundsOrdered(s.batch.actions, s.actions);
    ActorMovedFollows(st.actor, changes, x, Mins(s.batch.actions, s.actions), Maxs(s.batch.actions, s.actions));
    CriticMoved(st.criticW, st.criticB, Times(0.01, target - LinearValue(st, x)), x);
    forall k | 0 <= k < 4
      ensures CriticFollows(st.roleW[k], st.roleB[k], Times(Times(0.01, 0.5), target - value), x,
                            SampleStep(s, st, idx).roleW[k], SampleStep(s, st, idx).roleB[k])
    {
      CriticMoved(st.roleW[k], st.roleB[k], Times(Times(0.01, 0.5), target - value), x);
    }
  }

  lemma ValueAndTarget(s: Setup, st: TrainState, idx: nat) returns (q: seq<real>, value: real, target: real)
    requires SetupFits(s) && StateFits(s, st) && idx < |s.batch.features|
    ensures AreValueAndTarget(s, st, idx, q, value, target)
    ensures q == RoleValues(st, s.batch.features[idx])
    ensures value == TeamValue(s, st, s.batch.features[idx]) && target == Target(s, st, idx)
  {
    hide Times, Dot, Forward;
    q := RoleValues(st, s.batch.features[idx]);
    value, target := TeamValue(s, st, s.batch.features[idx]), Target(s, st, idx);
    assert AreRoleValues(st, s.batch.nextFeatures[idx], RoleValues(st, s.batch.nextFeatures[idx]));
  }

  lemma CriticMoved(w: seq<real>, b: real, step: real, x: seq<real>)
    requires |w| == |x|
    ensures CriticFollows(w, b, step, x, Moved(w, step, x, 5.0), Clip(b + step, -5.0, 5.0))
  {
    hide Times, Moved;
    MovedIs(w, step, x, 5.0);
  }

  /**
   Away from the bounds, role and mixer biases rise exactly if the target exceeds the mixed value, fall
   exactly if it is below, and stay otherwise; the linear critic's bias does the same for its own value.
   */
  lemma BiasesFollowError(s: Setup, st: TrainState, idx: nat) returns (q: seq<real>, value: real, target: real)
    requires SetupFits(s) && StateFits(s, st) && idx < |s.batch.features|
    requires forall k | 0 <= k < 4 :: -5.0 < st.roleB[k] < 5.0
    requires -5.0 < st.mixer.biasB < 5.0 && -5.0 < st.criticB < 5.0
    ensures AreValueAndTarget(s, st, idx, q, value, target)
    ensures var r, own := SampleStep(s, st, idx), Dot(st.criticW, s.batch.features[idx]) + st.criticB;
            && (forall k | 0 <= k < 4 ::
                  (r.roleB[k] > st.roleB[k] <==> target > value) && (r.roleB[k] < st.roleB[k] <==> target < value))
            && (r.mixer.biasB > st.mixer.biasB <==> target > value)
            && (r.mixer.biasB < st.mixer.biasB <==> target < value)
            && (r.criticB > st.criticB <==> target > own) && (r.criticB < st.criticB <==> target < own)
  {
    hide SampleStep, SetupFits, StateFits, AreValueAndTarget, ActorFollows, Dot, Times, Updated, IsSampleWeight;
    var base: real, changes: seq<real>;
    q, value, target, base, changes := SampleFollowsErrors(s, st, idx);
    FitsParts(s, st, idx);
    FitsParts(s, SampleStep(s, st, idx), idx);
    var own := Dot(st.criticW, s.batch.features[idx]) + st.criticB;
    SameSign(0.01, target - own);
    SameSign(0.01, target - value);
    SameSign(Times(0.01, 0.5), target - value);
    UpdateFollowsError(st.mixer, 4, s.hidden, s.features, s.batch.features[idx], q, target - value, 0.01);
    StepFollowsChange(st.criticB, Times(0.01, target - own), -5.0, 5.0, SampleStep(s, st, idx).criticB);
    StepFollowsChange(st.mixer.biasB, Times(0.01, target - value), -5.0, 5.0, SampleStep(s, st, idx).mixer.biasB);
    forall k | 0 <= k < 4
      ensures (SampleStep(s, st, idx).roleB[k] > st.roleB[k] <==> target > value)
              && (SampleStep(s, st, idx).roleB[k] < st.roleB[k] <==> target < value)
    {
      StepFollowsChange(st.roleB[k], Times(Times(0.01, 0.5), target - value), -5.0, 5.0,
                        SampleStep(s, st, idx).roleB[k]);
    }
  }

  lemma FitsParts(s: Setup, st: TrainState, idx: nat)
    requires SetupFits(s) && StateFits(s, st) && idx < |s.batch.features|
    ensures |st.roleB| == |st.roleW| == 4 && Fits(st.mixer, 4, s.hidden, s.features)
    ensures |s.batch.features[idx]| == s.features == |st.criticW|
  {
  }

  lemma SameSign(rate: real, error: real)
    requires rate == 0.01 || rate == Times(0.01, 0.5)
    ensures (Times(rate, error) > 0.0 <==> error > 0.0) && (Times(rate, error) < 0.0 <==> error < 0.0)
  {
  }

  /** Samples are taken one after the other, and epochs too. */
  lemma TakesEach(s: Setup, st: TrainState, order: seq<nat>, idx: nat, orders: seq<seq<nat>>)
    requires SetupFits(s) && StateFits(s, st) && OrderFits(order, |s.batch.features|) && idx < |s.batch.features|
    requires forall e | 0 <= e < |orders| :: OrderFits(orders[e], |s.batch.features|)
    ensures TrainEpoch(s, st, []) == st && TrainEpochs(s, st, []) == st
    ensures TrainEpoch(s, st, order + [idx]) == SampleStep(s, TrainEpoch(s, st, order), idx)
    ensures TrainEpochs(s, st, orders + [order]) == TrainEpoch(s, TrainEpochs(s, st, orders), order)
  {
    assert (order + [idx])[..|order|] == order;
    assert (orders + [order])[..|orders|] == orders;
    hide SampleStep, SetupFits, StateFits;
  }

  /** Training starts from the mean reward, split evenly over the roles, and the best samples' mean action. */
  lemma StartIs(s: Setup, mixer: MixerParameters)
    requires SetupFits(s) && Fits(mixer, NUM_ROLES, s.hidden, s.features)
    ensures var st := Start(s, mixer);
            && Times(st.criticB, |s.batch.rewards| as real) == R.Sum(s.batch.rewards)
            && (forall k | 0 <= k < 4 :: Times(st.roleB[k], 4.0) == st.criticB)
            && (forall i | 0 <= i < s.features :: st.criticW[i] == 0.0)
            && (forall k, i | 0 <= k < 4 && 0 <= i < s.features :: st.roleW[k][i] == 0.0)
            && st.actor.bias == TopRewardMean(s.batch.actions, s.batch.rewards, s.actions)
            && (forall k, i | 0 <= k < s.actions && 0 <= i < s.features :: st.actor.weights[k][i] == 0.0)
            && st.mixer == mixer.(biasB := 0.0)
  {
    hide Times, Quotient, R.Sum, TopRewardMean;
    var n := |s.batch.rewards| as real;
    QuotientTimes(R.Sum(s.batch.rewards), n);
    QuotientTimes(Quotient(R.Sum(s.batch.rewards), n), 4.0);
  }

  // ---- the loops ----

  /** Updates every role critic and its bias. */
  method MoveRoles(roleW: Matrix, roleB: seq<real>, step: real, x: seq<real>) returns (w: Matrix, b: seq<real>)
    requires IsMatrix(roleW, |roleB|, |x|)
    ensures w == RolesMoved(roleW, step, x) && b == BiasesMoved(roleB, step)
  {
    hide Moved, InBox;
    w, b := roleW, roleB;
    ghost var goalW, goalB := RolesMoved(roleW, step, x), BiasesMoved(roleB, step);
    var r := 0;
    while r < |roleB|
      invariant r <= |roleB| == |w| == |b|
      invariant forall k | 0 <= k < |roleB| ::
        if k < r then w[k] == goalW[k] && b[k] == goalB[k] else w[k] == roleW[k] && b[k] == roleB[k]
    {
      b := b[r := Clip(b[r] + step, -MAX_CRITIC_WEIGHT, MAX_CRITIC_WEIGHT)];
      var row := MoveVector(w[r], step, x, MAX_CRITIC_WEIGHT);
      w := w[r := row];
      r := r + 1;
    }
    assert w == goalW && b == goalB;
  }

  /** The body of the inner loop; `st.mixer` stands for the parameters the mixer object holds. */
  method TrainSample(s: Setup, st: TrainState, mixer: MonotonicMixer, mins: seq<real>, maxs: seq<real>, idx: nat)
    returns (r: TrainState)
    requires SetupFits(s) && StateFits(s, st) && idx < |s.batch.features|
    requires mixer.Valid() && mixer.Parameters() == st.mixer
    requires mixer.nAgents == NUM_ROLES && mixer.hidden == s.hidden
    requires mixer.stateDim == s.features && mixer.exp == s.exp
    requires mins == Mins(s.batch.actions, s.actions) && maxs == Maxs(s.batch.actions, s.actions)
    modifies mixer
    ensures r == SampleStep(s, st, idx)
    ensures mixer.Valid() && mixer.Parameters() == r.mixer
  {
    hide ActorMoved, Moved, ActorSteps, BatchSampleWeight, RoleValues, Forward, Updated, RolesMoved, BiasesMoved, Mins,
        Maxs, Times, Dot;
    var x, nextX, y := s.batch.features[idx], s.batch.nextFeatures[idx], s.batch.actions[idx];
    var q, nextQ := RoleValues(st, x), RoleValues(st, nextX);
    var value := mixer.ForwardPass(x, q);
    var nextValue := mixer.ForwardPass(nextX, nextQ);
    var target := s.batch.teamRewards[idx] + Times(Times(1.0 - s.batch.dones[idx], GAMMA), nextValue);
    var td := target - value;
    var tdLinear := target - LinearValue(st, x);
    var roleW, roleB := MoveRoles(st.roleW, st.roleB, Times(Times(CRITIC_LR, 0.5), td), x);
    mixer.Update(x, q, td, CRITIC_LR);
    var criticB := Clip(st.criticB + Times(CRITIC_LR, tdLinear), -MAX_CRITIC_WEIGHT, MAX_CRITIC_WEIGHT);
    var criticW := MoveVector(st.criticW, Times(CRITIC_LR, tdLinear), x, MAX_CRITIC_WEIGHT);
    var actor := MoveActor(st.actor, ActorSteps(st.actor, x, y, BatchSampleWeight(s.batch, idx), td), x, mins, maxs);
    var moved := MixerParameters(mixer.hyperW1, mixer.hyperB1, mixer.hyperW2, mixer.biasW, mixer.biasB);
    r := TrainState(actor, criticW, criticB, roleW, roleB, moved);
  }

  /** The fixed part of a training run on a raw batch. */
  function Prepared(raw: TrainingBatch, features: nat, actions: nat, hidden: nat, exp: real -> real): Setup {
    Setup(raw.(rewards := Sanitized(raw.rewards), teamRewards := Sanitized(raw.teamRewards)), features, actions,
          hidden, exp)
  }

  /** What shuffling the rows gives: no order is empty unless the batch is. */
  predicate ShufflesFit(orders: seq<seq<nat>>, n: nat) {
    forall e | 0 <= e < |orders| :: OrderFits(orders[e], n) && (n > 0 ==> orders[e] != [])
  }

  /** `samples` is the number of trajectory samples, if any are passed. */
  method FitBatch(raw: TrainingBatch, samples: Option<nat>, features: nat, actions: nat, hidden: nat,
                  exp: real -> real, initial: MixerParameters, orders: seq<seq<nat>>)
    returns (result: Option<TrainState>)
    requires Aligned(raw) ==> SetupFits(Prepared(raw, features, actions, hidden, exp))
    requires Fits(initial, NUM_ROLES, hidden, features)
    requires |orders| == EPOCHS && ShufflesFit(orders, |raw.features|)
    ensures result.None? <==> !Aligned(raw) || (samples.Some? && samples.value != |raw.features|)
    ensures result.Some? ==>
              var s := Prepared(raw, features, actions, hidden, exp);
              && StateFits(s, Start(s, initial))
              && result == Some(TrainEpochs(s, Start(s, initial), orders))
              && InBoxes(s, result.value) && MixerInBox(result.value.mixer)
  {
    if raw.features == [] || raw.actions == [] {
      return None;
    }
    if |raw.features| != |raw.actions| || |raw.features| != |raw.rewards| || |raw.features| != |raw.nextFeatures|
       || |raw.features| != |raw.teamRewards| || |raw.features| != |raw.dones|
       || |raw.features| != |raw.candidateActions| || |raw.features| != |raw.governedActions|
       || |raw.features| != |raw.governanceDeltas| || |raw.features| != |raw.guardrailDeltas| {
      return None;
    }
    if samples.Some? && samples.value != |raw.features| {
      return None;
    }
    var s := Prepared(raw, features, actions, hidden, exp);
    TrainingStaysInBoxes(s, initial, orders);
    hide InBoxes, MixerInBox, SetupFits, StateFits, SampleStep, Start;
    assert orders[0] != [];
    var trained := TrainLoop(s, initial, orders);
    result := Some(trained);
  }

  /** One epoch in the given order. */
  method EpochLoop(s: Setup, before: TrainState, mixer: MonotonicMixer, mins: seq<real>, maxs: seq<real>,
                   order: seq<nat>)
    returns (st: TrainState)
    requires SetupFits(s) && StateFits(s, before) && OrderFits(order, |s.batch.features|)
    requires mixer.Valid() && mixer.Parameters() == before.mixer
    requires mixer.nAgents == NUM_ROLES && mixer.hidden == s.hidden
    requires mixer.stateDim == s.features && mixer.exp == s.exp
    requires mins == Mins(s.batch.actions, s.actions) && maxs == Maxs(s.batch.actions, s.actions)
    modifies mixer
    ensures st == TrainEpoch(s, before, order)
    ensures mixer.Valid() && mixer.Parameters() == st.mixer
  {
    hide StateFits, SampleStep, Mins, Maxs;
    st := before;
    assert order[..0] == [];
    var k := 0;
    while k < |order|
      invariant k <= |order|
      invariant StateFits(s, st) && st == TrainEpoch(s, before, order[..k])
      invariant mixer.Valid() && mixer.Parameters() == st.mixer
    {
      assert order[..k + 1][..k] == order[..k];
      st := TrainSample(s, st, mixer, mins, maxs, order[k]);
      k := k + 1;
    }
    assert order[..|order|] == order;
  }

  method TrainLoop(s: Setup, initial: MixerParameters, orders: seq<seq<nat>>) returns (st: TrainState)
    requires SetupFits(s) && Fits(initial, NUM_ROLES, s.hidden, s.features)
    requires forall e | 0 <= e < |orders| :: OrderFits(orders[e], |s.batch.features|)
    ensures StateFits(s, Start(s, initial)) && st == TrainEpochs(s, Start(s, initial), orders)
  {
    hide InBoxes, SampleStep, Mins, Maxs, TrainEpoch;
    StartInBoxes(s, initial);
    var mins, maxs := Bounds(s.batch.actions, s.actions);
    var mixer := new MonotonicMixer(NUM_ROLES, s.hidden, s.features, s.exp, initial);
    st := Start(s, initial);
    hide Start, StateFits;
    assert orders[..0] == [];
    var e := 0;
    while e < |orders|
      invariant e <= |orders|
      invariant StateFits(s, st) && st == TrainEpochs(s, Start(s, initial), orders[..e])
      invariant mixer.Valid() && mixer.Parameters() == st.mixer && fresh(mixer)
    {
      st := EpochLoop(s, st, mixer, mins, maxs, orders[e]);
      assert orders[..e + 1][..e] == orders[..e];
      e := e + 1;
    }
    assert orders[..|orders|] == orders;
  }
}
