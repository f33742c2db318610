/**
 The monotonic mixing network (marl/trainer.py, MonotonicMixer): agent values are mixed with
 absolute-value weights through a hidden ELU layer.  The exponential is a parameter.
 */
module Mixers {
  import opened Arith
  import R = Roulette

  const MAX_CRITIC_WEIGHT := 5.0

  /** The sum of products, as far as both lists go. */
  function Dot(a: seq<real>, b: seq<real>): real {
    if a == [] || b == [] then 0.0 else Times(a[0], b[0]) + Dot(a[1..], b[1..])
  }

  function Clip(value: real, low: real, high: real): (r: real)
    ensures low <= high ==> low <= r <= high
    ensures low <= value <= high ==> r == value
  {
    if value < low then low else if value > high then high else value
  }

  /** What is used of the exponential function. */
  ghost predicate ExpLaws(exp: real -> real) {
    && exp(0.0) == 1.0
    && forall x: real, y: real :: x <= y ==> exp(x) <= exp(y)
  }

  function Elu(exp: real -> real, x: real): real {
    if x > 0.0 then x else exp(if x > -10.0 then x else -10.0) - 1.0
  }

  lemma EluMonotone(exp: real -> real, x: real, y: real)
    requires ExpLaws(exp) && x <= y
    ensures Elu(exp, x) <= Elu(exp, y)
  {
    var cx, cy := if x > -10.0 then x else -10.0, if y > -10.0 then y else -10.0;
    assert exp(cx) <= exp(0.0) || x > 0.0;
    assert exp(cx) <= exp(cy) || x > 0.0;
  }

  /** The activation's pieces, which meet at 0 and at the cut-off. */
  lemma EluIs(exp: real -> real, x: real)
    requires ExpLaws(exp)
    ensures x >= 0.0 ==> Elu(exp, x) == x
    ensures -10.0 <= x <= 0.0 ==> Elu(exp, x) == exp(x) - 1.0
    ensures x <= -10.0 ==> Elu(exp, x) == exp(-10.0) - 1.0
  {
  }

  /** The products of entries at the same place. */
  function Products(a: seq<real>, b: seq<real>): (ps: seq<real>)
    requires |a| == |b|
    ensures |ps| == |a| && forall k | 0 <= k < |a| :: ps[k] == Times(a[k], b[k])
  {
    seq(|a|, k requires 0 <= k < |a| => Times(a[k], b[k]))
  }

  lemma {:induction false} DotIsSum(a: seq<real>, b: seq<real>)
    requires |a| == |b|
    ensures Dot(a, b) == R.Sum(Products(a, b))
  {
    hide Times;
    if a != [] {
      DotIsSum(a[1..], b[1..]);
      assert Products(a, b)[1..] == Products(a[1..], b[1..]);
    }
  }

  // ---- mixing, given the weights ----

  /** The weights the hypernetworks produce for one state; w1 is stored agent by agent. */
  datatype MixWeights = MixWeights(w1: seq<real>, b1: seq<real>, w2: seq<real>, b2: real)

  /** Shapes for n agents and h hidden units; the mixing weights are not negative. */
  predicate Shaped(w: MixWeights, n: nat, h: nat) {
    && |w.w1| == n * h && |w.b1| == h && |w.w2| == h
    && NonNegative(w.w1) && NonNegative(w.w2)
  }

  lemma FlatIndex(n: nat, h: nat, i: nat, j: nat)
    requires i < n && j < h
    ensures i * h + j < n * h
  {
    assert (i + 1) * h <= n * h;
  }

  /** Entry (i, j) of a table of h columns that is stored row after row. */
  function At<T>(table: seq<T>, n: nat, h: nat, i: nat, j: nat): (x: T)
    requires |table| == n * h && i < n && j < h
    ensures i * h + j < n * h && x == table[i * h + j]
  {
    FlatIndex(n, h, i, j);
    table[i * h + j]
  }

  /** Hidden unit j before activation, with the first k agents added. */
  function Preactivation(w: MixWeights, n: nat, h: nat, q: seq<real>, j: nat, k: nat): real
    requires Shaped(w, n, h) && |q| == n && j < h && k <= n
  {
    if k == 0 then w.b1[j]
    else
      Preactivation(w, n, h, q, j, k - 1) + Times(q[k - 1], At(w.w1, n, h, k - 1, j))
  }

  /** The mixed value, with the first k hidden units added. */
  function Mixed(exp: real -> real, w: MixWeights, n: nat, h: nat, q: seq<real>, k: nat): real
    requires Shaped(w, n, h) && |q| == n && k <= h
  {
    if k == 0 then w.b2
    else Mixed(exp, w, n, h, q, k - 1) + Times(Elu(exp, Preactivation(w, n, h, q, k - 1, n)), w.w2[k - 1])
  }

  predicate Below(q: seq<real>, q': seq<real>) {
    |q| == |q'| && forall i | 0 <= i < |q| :: q[i] <= q'[i]
  }

  lemma {:induction false} PreactivationMonotone(w: MixWeights, n: nat, h: nat, q: seq<real>, q': seq<real>, j: nat,
                                                 k: nat)
    requires Shaped(w, n, h) && |q| == n && Below(q, q') && j < h && k <= n
    ensures Preactivation(w, n, h, q, j, k) <= Preactivation(w, n, h, q', j, k)
  {
    hide Times, At;
    if k > 0 {
      PreactivationMonotone(w, n, h, q, q', j, k - 1);
      AtNonNegative(w.w1, n, h, k - 1, j);
      ProductMonotone(q[k - 1], q'[k - 1], At(w.w1, n, h, k - 1, j));
    }
  }

  lemma AtNonNegative(ws: seq<real>, n: nat, h: nat, i: nat, j: nat)
    requires |ws| == n * h && i < n && j < h && NonNegative(ws)
    ensures At(ws, n, h, i, j) >= 0.0
  {
    FlatIndex(n, h, i, j);
  }

  lemma ProductMonotone(a: real, b: real, k: real)
    requires a <= b && k >= 0.0
    ensures Times(a, k) <= Times(b, k)
  {
    ScaleMonotone(a, b, k);
  }

  /** Raising any agent values never lowers the mixed value. */
  lemma {:induction false} MixMonotone(exp: real -> real, w: MixWeights, n: nat, h: nat, q: seq<real>, q': seq<real>,
                                       k: nat)
    requires ExpLaws(exp) && Shaped(w, n, h) && |q| == n && Below(q, q') && k <= h
    ensures Mixed(exp, w, n, h, q, k) <= Mixed(exp, w, n, h, q', k)
  {
    hide Times, Elu;
    if k > 0 {
      MixMonotone(exp, w, n, h, q, q', k - 1);
      var x, y := Preactivation(w, n, h, q, k - 1, n), Preactivation(w, n, h, q', k - 1, n);
      PreactivationMonotone(w, n, h, q, q', k - 1, n);
      EluMonotone(exp, x, y);
      ProductMonotone(Elu(exp, x), Elu(exp, y), w.w2[k - 1]);
    }
  }

  // ---- individual-global-max ----

  /** candidates[i][a] is the value of action a for agent i; a joint action picks one per agent. */
  predicate IsJointAction(candidates: seq<seq<real>>, joint: seq<nat>) {
    |joint| == |candidates| && forall i | 0 <= i < |joint| :: joint[i] < |candidates[i]|
  }

  function ValuesOf(candidates: seq<seq<real>>, joint: seq<nat>): (q: seq<real>)
    requires IsJointAction(candidates, joint)
    ensures |q| == |candidates| && forall i | 0 <= i < |q| :: q[i] == candidates[i][joint[i]]
  {
    seq(|candidates|, i requires 0 <= i < |candidates| => candidates[i][joint[i]])
  }

  /** Every agent picks an action that is best for itself. */
  predicate PicksOwnBest(candidates: seq<seq<real>>, joint: seq<nat>) {
    && IsJointAction(candidates, joint)
    && forall i | 0 <= i < |joint| :: forall a | 0 <= a < |candidates[i]| :: candidates[i][a] <= candidates[i][joint[i]]
  }

  // ---- the network ----

  /** The trainable parameters for n agents, h hidden units and d state features. */
  datatype MixerParameters = MixerParameters(
    hyperW1: seq<seq<real>>, hyperB1: seq<seq<real>>, hyperW2: seq<seq<real>>, biasW: seq<real>, biasB: real)

  predicate Fits(p: MixerParameters, n: nat, h: nat, d: nat) {
    && |p.hyperW1| == n * h && |p.hyperB1| == h && |p.hyperW2| == h && |p.biasW| == d
    && forall r | 0 <= r < |p.hyperW1| :: |p.hyperW1[r]| == d
  }

  function DotRows(rows: seq<seq<real>>, state: seq<real>): (r: seq<real>)
    ensures |r| == |rows| && forall i | 0 <= i < |rows| :: r[i] == Dot(rows[i], state)
  {
    seq(|rows|, i requires 0 <= i < |rows| => Dot(rows[i], state))
  }

  function AbsAll(xs: seq<real>): (r: seq<real>)
    ensures |r| == |xs| && NonNegative(r) && forall i | 0 <= i < |xs| :: r[i] == Abs(xs[i])
  {
    seq(|xs|, i requires 0 <= i < |xs| => Abs(xs[i]))
  }

  function WeightsFor(p: MixerParameters, state: seq<real>): MixWeights {
    MixWeights(AbsAll(DotRows(p.hyperW1, state)), DotRows(p.hyperB1, state), AbsAll(DotRows(p.hyperW2, state)),
               Dot(p.biasW, state) + p.biasB)
  }

  /** The mixed value of the agents' values in a state. */
  function Forward(exp: real -> real, p: MixerParameters, n: nat, h: nat, d: nat, state: seq<real>, q: seq<real>): real
    requires Fits(p, n, h, d) && |q| == n
  {
    Mixed(exp, WeightsFor(p, state), n, h, q, h)
  }

  /** What agent i contributes to hidden unit j: its value, weighted with what row i h + j makes of the state. */
  function AgentShare(p: MixerParameters, n: nat, h: nat, d: nat, state: seq<real>, q: seq<real>, i: nat, j: nat): real
    requires Fits(p, n, h, d) && |q| == n && i < n && j < h
  {
    FlatIndex(n, h, i, j);
    var weight := Dot(p.hyperW1[i * h + j], state);
    if weight >= 0.0 then Times(q[i], weight) else Times(q[i], -weight)
  }

  function AgentShares(p: MixerParameters, n: nat, h: nat, d: nat, state: seq<real>, q: seq<real>, j: nat)
      : (shares: seq<real>)
    requires Fits(p, n, h, d) && |q| == n && j < h
    ensures |shares| == n && forall i | 0 <= i < n :: shares[i] == AgentShare(p, n, h, d, state, q, i, j)
  {
    seq(n, i requires 0 <= i < n => AgentShare(p, n, h, d, state, q, i, j))
  }

  /** What hidden unit j contributes to the mixed value. */
  function UnitShare(exp: real -> real, p: MixerParameters, n: nat, h: nat, d: nat, state: seq<real>, q: seq<real>,
                     j: nat): real
    requires Fits(p, n, h, d) && |q| == n && j < h
  {
    var unit := Dot(p.hyperB1[j], state) + R.Sum(AgentShares(p, n, h, d, state, q, j));
    var weight := Dot(p.hyperW2[j], state);
    if weight >= 0.0 then Times(Elu(exp, unit), weight) else Times(Elu(exp, unit), -weight)
  }

  function UnitShares(exp: real -> real, p: MixerParameters, n: nat, h: nat, d: nat, state: seq<real>, q: seq<real>)
      : (shares: seq<real>)
    requires Fits(p, n, h, d) && |q| == n
    ensures |shares| == h && forall j | 0 <= j < h :: shares[j] == UnitShare(exp, p, n, h, d, state, q, j)
  {
    seq(h, j requires 0 <= j < h => UnitShare(exp, p, n, h, d, state, q, j))
  }

  lemma {:induction false} PreactivationIsSum(p: MixerParameters, n: nat, h: nat, d: nat, state: seq<real>,
                                              q: seq<real>, j: nat, k: nat)
    requires Fits(p, n, h, d) && |q| == n && j < h && k <= n
    ensures Preactivation(WeightsFor(p, state), n, h, q, j, k)
            == Dot(p.hyperB1[j], state) + R.Sum(AgentShares(p, n, h, d, state, q, j)[..k])
  {
    hide Times, Dot;
    if k > 0 {
      PreactivationIsSum(p, n, h, d, state, q, j, k - 1);
      FlatIndex(n, h, k - 1, j);
      R.SumSnoc(AgentShares(p, n, h, d, state, q, j), k - 1);
    }
  }

  lemma {:induction false} MixedIsSum(exp: real -> real, p: MixerParameters, n: nat, h: nat, d: nat,
                                      state: seq<real>, q: seq<real>, k: nat)
    requires Fits(p, n, h, d) && |q| == n && k <= h
    ensures Mixed(exp, WeightsFor(p, state), n, h, q, k)
            == Dot(p.biasW, state) + p.biasB + R.Sum(UnitShares(exp, p, n, h, d, state, q)[..k])
  {
    BiasIs(p, n, h, d, state);
    hide Times, Dot, Elu, Preactivation, WeightsFor, UnitShare, Fits;
    if k > 0 {
      MixedIsSum(exp, p, n, h, d, state, q, k - 1);
      UnitShareIs(exp, p, n, h, d, state, q, k - 1);
      R.SumSnoc(UnitShares(exp, p, n, h, d, state, q), k - 1);
    }
  }

  lemma BiasIs(p: MixerParameters, n: nat, h: nat, d: nat, state: seq<real>)
    requires Fits(p, n, h, d)
    ensures Shaped(WeightsFor(p, state), n, h) && WeightsFor(p, state).b2 == Dot(p.biasW, state) + p.biasB
  {
  }

  lemma UnitShareIs(exp: real -> real, p: MixerParameters, n: nat, h: nat, d: nat, state: seq<real>, q: seq<real>,
                    j: nat)
    requires Fits(p, n, h, d) && |q| == n && j < h
    ensures var w := WeightsFor(p, state);
            Times(Elu(exp, Preactivation(w, n, h, q, j, n)), w.w2[j]) == UnitShare(exp, p, n, h, d, state, q, j)
  {
    hide Times, Dot, Elu, Preactivation;
    PreactivationIsSum(p, n, h, d, state, q, j, n);
    assert AgentShares(p, n, h, d, state, q, j)[..n] == AgentShares(p, n, h, d, state, q, j);
  }

  /** The mixed value is the bias of the state plus what the hidden units contribute, each from all agents. */
  lemma ForwardIsSum(exp: real -> real, p: MixerParameters, n: nat, h: nat, d: nat, state: seq<real>, q: seq<real>)
    requires Fits(p, n, h, d) && |q| == n
    ensures Forward(exp, p, n, h, d, state, q)
            == Dot(p.biasW, state) + p.biasB + R.Sum(UnitShares(exp, p, n, h, d, state, q))
  {
    MixedIsSum(exp, p, n, h, d, state, q, h);
    assert UnitShares(exp, p, n, h, d, state, q)[..h] == UnitShares(exp, p, n, h, d, state, q);
  }

  /** Monotone in all agents at once, for every state and all parameters, trained or not. */
  lemma ForwardMonotone(exp: real -> real, p: MixerParameters, n: nat, h: nat, d: nat, state: seq<real>, q: seq<real>,
                        q': seq<real>)
    requires ExpLaws(exp) && Fits(p, n, h, d) && |q| == n && Below(q, q')
    ensures Forward(exp, p, n, h, d, state, q) <= Forward(exp, p, n, h, d, state, q')
  {
    MixMonotone(exp, WeightsFor(p, state), n, h, q, q', h);
  }

  /**
   Individual-global-max: if every agent picks an action best for itself, the joint action is best
   for the team, among all joint actions.
   */
  lemma IndividualGlobalMax(exp: real -> real, p: MixerParameters, n: nat, h: nat, d: nat, state: seq<real>,
                            candidates: seq<seq<real>>, own: seq<nat>, other: seq<nat>)
    requires ExpLaws(exp) && Fits(p, n, h, d) && |candidates| == n
    requires PicksOwnBest(candidates, own) && IsJointAction(candidates, other)
    ensures Forward(exp, p, n, h, d, state, ValuesOf(candidates, other))
            <= Forward(exp, p, n, h, d, state, ValuesOf(candidates, own))
  {
    var q, q' := ValuesOf(candidates, other), ValuesOf(candidates, own);
    forall i | 0 <= i < n ensures q[i] <= q'[i] {
      assert candidates[i][other[i]] <= candidates[i][own[i]];
    }
    ForwardMonotone(exp, p, n, h, d, state, q, q');
  }

  // ---- training step of the mixer ----

  /** One clipped step of a weight vector along x. */
  function Moved(w: seq<real>, step: real, x: seq<real>, bound: real): (r: seq<real>)
    requires |x| == |w|
    ensures |r| == |w|
    ensures bound >= 0.0 ==> InBox(r, bound)
  {
    seq(|w|, k requires 0 <= k < |w| => Clip(w[k] + Times(step, x[k]), -bound, bound))
  }

  predicate InBox(w: seq<real>, bound: real) {
    forall k | 0 <= k < |w| :: -bound <= w[k] <= bound
  }

  /** The step of the row for agent i: along the sign its weight is taken with. */
  function RowStep(row: seq<real>, state: seq<real>, td: real, lr: real, q: real): real {
    Times(Times(lr, 0.1), Times(Times(td, q), if Dot(row, state) >= 0.0 then 1.0 else -1.0))
  }

  class MonotonicMixer {
    const nAgents: nat
    const hidden: nat
    const stateDim: nat
    const exp: real -> real
    var hyperW1: seq<seq<real>>
    var hyperB1: seq<seq<real>>
    var hyperW2: seq<seq<real>>
    var biasW: seq<real>
    var biasB: real

    ghost function Parameters(): MixerParameters
      reads this
    {
      MixerParameters(hyperW1, hyperB1, hyperW2, biasW, biasB)
    }

    ghost predicate Valid()
      reads this
    {
      Fits(Parameters(), nAgents, hidden, stateDim)
    }

    /** Initial weights are draws of the generator, hence parameters here. */
    constructor (nAgents: nat, hidden: nat, stateDim: nat, exp: real -> real, initial: MixerParameters)
      requires Fits(initial, nAgents, hidden, stateDim)
      ensures Valid() && Parameters() == initial.(biasB := 0.0)
      ensures this.nAgents == nAgents && this.hidden == hidden && this.stateDim == stateDim && this.exp == exp
    {
      this.nAgents, this.hidden, this.stateDim, this.exp := nAgents, hidden, stateDim, exp;
      hyperW1, hyperB1, hyperW2, biasW := initial.hyperW1, initial.hyperB1, initial.hyperW2, initial.biasW;
      biasB := 0.0;
    }

    method ForwardPass(state: seq<real>, qValues: seq<real>) returns (qTot: real)
      requires Valid() && |qValues| == nAgents
      ensures qTot == Forward(exp, Parameters(), nAgents, hidden, stateDim, state, qValues)
    {
      var w1 := AbsAll(DotRows(hyperW1, state));
      var b1 := DotRows(hyperB1, state);
      var w2 := AbsAll(DotRows(hyperW2, state));
      var b2 := Dot(biasW, state) + biasB;
      ghost var w := WeightsFor(Parameters(), state);
      assert w == MixWeights(w1, b1, w2, b2);
      hide Times, Elu, Dot, Abs;
      var activations: seq<real> := [];
      var j := 0;
      while j < hidden
        invariant j <= hidden && |activations| == j
        invariant forall k | 0 <= k < j ::
                    activations[k] == Elu(exp, Preactivation(w, nAgents, hidden, qValues, k, nAgents))
      {
        var val := b1[j];
        var i := 0;
        while i < nAgents
          invariant i <= nAgents && val == Preactivation(w, nAgents, hidden, qValues, j, i)
        {
          val := val + Times(qValues[i], At(w1, nAgents, hidden, i, j));
          i := i + 1;
        }
        activations := activations + [Elu(exp, val)];
        j := j + 1;
      }
      qTot := b2;
      j := 0;
      while j < hidden
        invariant j <= hidden && qTot == Mixed(exp, w, nAgents, hidden, qValues, j)
      {
        qTot := qTot + Times(activations[j], w2[j]);
        j := j + 1;
      }
    }

    /** One clipped step of the bias network and of the first hypernetwork. */
    method Update(state: seq<real>, qValues: seq<real>, td: real, lr: real)
      requires Valid() && |state| == stateDim && |qValues| == nAgents
      modifies this
      ensures Valid()
      ensures Parameters() == Updated(old(Parameters()), nAgents, hidden, stateDim, state, qValues, td, lr)
    {
      hide Times, Dot, Moved, RowStep, Spliced;
      ghost var rows := hyperW1;
      ghost var goal := MovedRows(hyperW1, nAgents, hidden, stateDim, state, qValues, td, lr);
      biasW := MoveVector(biasW, Times(lr, td), state, MAX_CRITIC_WEIGHT);
      biasB := Clip(biasB + Times(lr, td), -MAX_CRITIC_WEIGHT, MAX_CRITIC_WEIGHT);
      ghost var base := Parameters();
      SplicedEnds(goal, rows);
      var i := 0;
      while i < nAgents
        invariant i <= nAgents && i * hidden <= |rows| == |hyperW1| == |goal|
        invariant hyperW1 == Spliced(goal, rows, i * hidden)
        invariant Parameters() == base.(hyperW1 := hyperW1)
      {
        var j := 0;
        NextBlock(nAgents, hidden, i);
        ghost var start := i * hidden;
        while j < hidden
          invariant j <= hidden && start + j <= |rows| == |hyperW1| == |goal|
          invariant hyperW1 == Spliced(goal, rows, start + j)
          invariant Parameters() == base.(hyperW1 := hyperW1)
        {
          FlatIndex(nAgents, hidden, i, j);
          ReplaceOne(goal, rows, start + j);
          RemainderIs(i * hidden + j, hidden, i, j);
          var idx := i * hidden + j;
          var row := MoveVector(hyperW1[idx], RowStep(hyperW1[idx], state, td, lr, qValues[i]), state,
                                MAX_CRITIC_WEIGHT);
          assert row == goal[idx];
          hyperW1 := hyperW1[idx := row];
          j := j + 1;
        }
        i := i + 1;
      }
    }
  }

  lemma NextBlock(n: nat, h: nat, i: nat)
    requires i < n
    ensures i * h + h == (i + 1) * h <= n * h
  {
  }

  /** A list of which the first k entries are done. */
  ghost function Spliced<T>(done: seq<T>, todo: seq<T>, k: nat): (r: seq<T>)
    requires |done| == |todo| && k <= |done|
    ensures |r| == |done|
  {
    done[..k] + todo[k..]
  }

  lemma SplicedEnds<T>(done: seq<T>, todo: seq<T>)
    requires |done| == |todo|
    ensures Spliced(done, todo, 0) == todo && Spliced(done, todo, |done|) == done
  {
  }

  /** Overwriting position k moves the border between what is done and what is not. */
  lemma ReplaceOne<T>(done: seq<T>, todo: seq<T>, k: nat)
    requires |done| == |todo| && k < |done|
    ensures Spliced(done, todo, k)[k] == todo[k]
    ensures Spliced(done, todo, k)[k := done[k]] == Spliced(done, todo, k + 1)
  {
  }

  method MoveVector(w: seq<real>, step: real, x: seq<real>, bound: real) returns (r: seq<real>)
    requires |x| == |w|
    ensures r == Moved(w, step, x, bound)
  {
    r := w;
    var k := 0;
    while k < |w|
      invariant k <= |w| == |r|
      invariant forall i | 0 <= i < |w| :: r[i] == if i < k then Moved(w, step, x, bound)[i] else w[i]
    {
      r := r[k := Clip(r[k] + Times(step, x[k]), -bound, bound)];
      k := k + 1;
    }
  }

  /** All rows of the first hypernetwork after one step; rows r h, ..., r h + h - 1 belong to agent r. */
  function MovedRows(rows: seq<seq<real>>, n: nat, h: nat, d: nat, state: seq<real>, q: seq<real>, td: real,
                     lr: real): (r: seq<seq<real>>)
    requires |rows| == n * h && |state| == d && |q| == n
    requires forall i | 0 <= i < |rows| :: |rows[i]| == d
    ensures |r| == |rows| && forall i | 0 <= i < |rows| :: |r[i]| == d && InBox(r[i], MAX_CRITIC_WEIGHT)
  {
    seq(|rows|, i requires 0 <= i < |rows| =>
      AgentOfRow(n, h, i);
      Moved(rows[i], RowStep(rows[i], state, td, lr, q[i / h]), state, MAX_CRITIC_WEIGHT))
  }

  lemma AgentOfRow(n: nat, h: nat, r: nat)
    requires r < n * h
    ensures h > 0 && 0 <= r / h < n
  {
    Decompose(r, h);
  }

  function Updated(p: MixerParameters, n: nat, h: nat, d: nat, state: seq<real>, q: seq<real>, td: real,
                   lr: real): MixerParameters
    requires Fits(p, n, h, d) && |state| == d && |q| == n
  {
    p.(biasW := Moved(p.biasW, Times(lr, td), state, MAX_CRITIC_WEIGHT),
       biasB := Clip(p.biasB + Times(lr, td), -MAX_CRITIC_WEIGHT, MAX_CRITIC_WEIGHT),
       hyperW1 := MovedRows(p.hyperW1, n, h, d, state, q, td, lr))
  }

  // ---- what a training step does ----

  /** A number moves by this much, unless that leads past a bound, where it then ends. */
  predicate StepsTo(before: real, change: real, low: real, high: real, after: real) {
    && low <= after <= high
    && (|| after == before + change
        || (after == low && before + change < low)
        || (after == high && before + change > high))
  }

  /** From strictly between the bounds a number rises, falls or stays as its change does. */
  lemma StepFollowsChange(before: real, change: real, low: real, high: real, after: real)
    requires low < before < high && StepsTo(before, change, low, high, after)
    ensures (after > before <==> change > 0.0) && (after < before <==> change < 0.0)
  {
  }

  lemma MovedIs(w: seq<real>, step: real, x: seq<real>, bound: real)
    requires |x| == |w| && bound >= 0.0
    ensures forall k | 0 <= k < |w| :: StepsTo(w[k], Times(step, x[k]), -bound, bound, Moved(w, step, x, bound)[k])
  {
    hide Times;
  }

  /** How far entry k of row i h + j moves: along the error, the agent's value, and the sign of the row's weight. */
  function RowChange(p: MixerParameters, n: nat, h: nat, d: nat, state: seq<real>, q: seq<real>, td: real, lr: real,
                     i: nat, j: nat, k: nat): real
    requires Fits(p, n, h, d) && |state| == d && |q| == n && i < n && j < h && k < d
  {
    FlatIndex(n, h, i, j);
    var along := Times(Times(Times(lr, 0.1), Times(td, q[i])), state[k]);
    if Dot(p.hyperW1[i * h + j], state) >= 0.0 then along else -along
  }

  /** Bias network and first hypernetwork move along the error, up to the bounds; the other two stay. */
  lemma UpdateFollowsError(p: MixerParameters, n: nat, h: nat, d: nat, state: seq<real>, q: seq<real>, td: real,
                           lr: real)
    requires Fits(p, n, h, d) && |state| == d && |q| == n
    ensures var p' := Updated(p, n, h, d, state, q, td, lr);
            && Fits(p', n, h, d) && p'.hyperB1 == p.hyperB1 && p'.hyperW2 == p.hyperW2
            && StepsTo(p.biasB, Times(lr, td), -5.0, 5.0, p'.biasB)
            && (forall k: nat | k < d :: StepsTo(p.biasW[k], Times(Times(lr, td), state[k]), -5.0, 5.0, p'.biasW[k]))
            && forall i: nat, j: nat, k: nat | i < n && j < h && k < d ::
                 StepsTo(At(p.hyperW1, n, h, i, j)[k], RowChange(p, n, h, d, state, q, td, lr, i, j, k), -5.0, 5.0,
                         At(p'.hyperW1, n, h, i, j)[k])
  {
    var p' := Updated(p, n, h, d, state, q, td, lr);
    hide Times, Dot, Moved;
    MovedIs(p.biasW, Times(lr, td), state, 5.0);
    forall i: nat, j: nat, k: nat | i < n && j < h && k < d
      ensures StepsTo(At(p.hyperW1, n, h, i, j)[k], RowChange(p, n, h, d, state, q, td, lr, i, j, k), -5.0, 5.0,
                      At(p'.hyperW1, n, h, i, j)[k])
    {
      FlatIndex(n, h, i, j);
      RemainderIs(i * h + j, h, i, j);
      var row := p.hyperW1[i * h + j];
      MovedIs(row, RowStep(row, state, td, lr, q[i]), state, 5.0);
      SignedStep(Times(lr, 0.1), Times(td, q[i]), state[k]);
    }
  }

  lemma SignedStep(a: real, b: real, x: real)
    ensures Times(Times(a, Times(b, 1.0)), x) == Times(Times(a, b), x)
    ensures Times(Times(a, Times(b, -1.0)), x) == -Times(Times(a, b), x)
  {
  }
}
