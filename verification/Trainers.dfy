/**
 The clipped training loops (marl/trainer.py, SafeFACMACTrainer.fit_batch and _fit_actor_head).

 One sample is one step of a pure function on the training state; the loops are proved to run
 exactly those steps, and the box bounds are proved for every order of samples and every number
 of epochs.  The shuffled orders are parameters.
 */
module Trainers {
  import opened Arith
  import R = Roulette
  import opened Mixers

  const ACTOR_LR := 0.002
  const CRITIC_LR := 0.01
  const BC_LR := 0.08
  const MAX_ACTOR_DELTA := 0.25
  const MAX_ACTOR_WEIGHT := 1.0
  const GAMMA := 0.95
  const MAX_ROLE_REWARD_ABS := 5.0
  const NUM_ROLES := 4

  type Matrix = seq<seq<real>>

  predicate IsMatrix(rows: Matrix, n: nat, cols: nat) {
    |rows| == n && forall i | 0 <= i < |rows| :: |rows[i]| == cols
  }

  // ---- column bounds ----

  /** The least entry of a column. */
  function ColumnMin(rows: Matrix, cols: nat, c: nat): (m: real)
    requires rows != [] && IsMatrix(rows, |rows|, cols) && c < cols
    ensures forall i | 0 <= i < |rows| :: m <= rows[i][c]
    ensures exists i | 0 <= i < |rows| :: m == rows[i][c]
  {
    if |rows| == 1 then rows[0][c]
    else
      var m := ColumnMin(rows[1..], cols, c);
      if rows[0][c] < m then rows[0][c] else assert forall i | 0 <= i < |rows[1..]| :: rows[1..][i] == rows[i + 1]; m
  }

  function ColumnMax(rows: Matrix, cols: nat, c: nat): (m: real)
    requires rows != [] && IsMatrix(rows, |rows|, cols) && c < cols
    ensures forall i | 0 <= i < |rows| :: rows[i][c] <= m
    ensures exists i | 0 <= i < |rows| :: m == rows[i][c]
  {
    if |rows| == 1 then rows[0][c]
    else
      var m := ColumnMax(rows[1..], cols, c);
      if rows[0][c] > m then rows[0][c] else assert forall i | 0 <= i < |rows[1..]| :: rows[1..][i] == rows[i + 1]; m
  }

  /** The bounds of all columns. */
  function Mins(rows: Matrix, cols: nat): (r: seq<real>)
    requires rows != [] && IsMatrix(rows, |rows|, cols)
    ensures |r| == cols && forall c | 0 <= c < cols :: r[c] == ColumnMin(rows, cols, c)
  {
    seq(cols, c requires 0 <= c < cols => ColumnMin(rows, cols, c))
  }

  function Maxs(rows: Matrix, cols: nat): (r: seq<real>)
    requires rows != [] && IsMatrix(rows, |rows|, cols)
    ensures |r| == cols && forall c | 0 <= c < cols :: r[c] == ColumnMax(rows, cols, c)
  {
    seq(cols, c requires 0 <= c < cols => ColumnMax(rows, cols, c))
  }

  /** Each entry between its bounds. */
  predicate Between(xs: seq<real>, lows: seq<real>, highs: seq<real>) {
    |xs| == |lows| == |highs| && forall i | 0 <= i < |xs| :: lows[i] <= xs[i] <= highs[i]
  }

  method Bounds(rows: Matrix, cols: nat) returns (mins: seq<real>, maxs: seq<real>)
    requires rows != [] && IsMatrix(rows, |rows|, cols)
    ensures mins == Mins(rows, cols) && maxs == Maxs(rows, cols)
  {
    // the first row replaces the infinite start values
    mins, maxs := rows[0], rows[0];
    assert rows[..1] == [rows[0]];
    var i := 1;
    while i < |rows|
      invariant 1 <= i <= |rows| && |mins| == |maxs| == cols
      invariant mins == Mins(rows[..i], cols) && maxs == Maxs(rows[..i], cols)
    {
      assert rows[..i + 1] == rows[..i] + [rows[i]];
      forall c | 0 <= c < cols
        ensures ColumnMin(rows[..i + 1], cols, c) == if rows[i][c] < mins[c] then rows[i][c] else mins[c]
        ensures ColumnMax(rows[..i + 1], cols, c) == if rows[i][c] > maxs[c] then rows[i][c] else maxs[c]
      {
        BoundsSnoc(rows[..i], rows[i], cols, c);
      }
      mins := seq(cols, c requires 0 <= c < cols => if rows[i][c] < mins[c] then rows[i][c] else mins[c]);
      maxs := seq(cols, c requires 0 <= c < cols => if rows[i][c] > maxs[c] then rows[i][c] else maxs[c]);
      i := i + 1;
    }
    assert rows[..|rows|] == rows;
  }

  lemma {:induction false} BoundsSnoc(rows: Matrix, row: seq<real>, cols: nat, c: nat)
    requires rows != [] && IsMatrix(rows, |rows|, cols) && |row| == cols && c < cols
    ensures var lo, hi := ColumnMin(rows, cols, c), ColumnMax(rows, cols, c);
            && ColumnMin(rows + [row], cols, c) == (if row[c] < lo then row[c] else lo)
            && ColumnMax(rows + [row], cols, c) == (if row[c] > hi then row[c] else hi)
  {
    if |rows| == 1 {
      assert (rows + [row])[1..] == [row];
    } else {
      assert (rows + [row])[1..] == rows[1..] + [row];
      BoundsSnoc(rows[1..], row, cols, c);
    }
  }

  // ---- the mean of the best rows ----

  /** Stable insertion: before everything with a reward no larger. */
  function InsertDescending(p: (real, seq<real>), sorted: seq<(real, seq<real>)>): (r: seq<(real, seq<real>)>)
    ensures |r| == |sorted| + 1
  {
    if sorted == [] || p.0 >= sorted[0].0 then [p] + sorted
    else [sorted[0]] + InsertDescending(p, sorted[1..])
  }

  /** Rows by falling reward, equal rewards in their original order. */
  function SortDescending(pairs: seq<(real, seq<real>)>): (r: seq<(real, seq<real>)>)
    ensures |r| == |pairs|
  {
    if pairs == [] then [] else InsertDescending(pairs[0], SortDescending(pairs[1..]))
  }

  predicate Descending(pairs: seq<(real, seq<real>)>) {
    forall i, j | 0 <= i < j < |pairs| :: pairs[i].0 >= pairs[j].0
  }

  lemma {:induction false} InsertKeepsOrder(p: (real, seq<real>), sorted: seq<(real, seq<real>)>)
    requires Descending(sorted)
    ensures Descending(InsertDescending(p, sorted))
    ensures multiset(InsertDescending(p, sorted)) == multiset{p} + multiset(sorted)
  {
    if sorted != [] && p.0 < sorted[0].0 {
      var rest := InsertDescending(p, sorted[1..]);
      InsertKeepsOrder(p, sorted[1..]);
      hide InsertDescending;
      assert sorted == [sorted[0]] + sorted[1..];
      forall k | 0 <= k < |rest| ensures rest[k].0 <= sorted[0].0 {
        assert rest[k] in multiset(rest);
      }
    }
  }

  /** The sort is one: a permutation with falling rewards. */
  lemma {:induction false} SortSorts(pairs: seq<(real, seq<real>)>)
    ensures Descending(SortDescending(pairs)) && multiset(SortDescending(pairs)) == multiset(pairs)
  {
    if pairs != [] {
      SortSorts(pairs[1..]);
      InsertKeepsOrder(pairs[0], SortDescending(pairs[1..]));
      assert pairs == [pairs[0]] + pairs[1..];
    }
  }

  function Zip(rewards: seq<real>, rows: Matrix): (pairs: seq<(real, seq<real>)>)
    requires |rewards| == |rows|
    ensures |pairs| == |rows|
  {
    seq(|rows|, i requires 0 <= i < |rows| => (rewards[i], rows[i]))
  }

  /** The rows with the highest rewards. */
  function TopRows(rows: Matrix, rewards: seq<real>, keep: nat): (top: Matrix)
    requires |rows| == |rewards| && keep <= |rows|
    ensures |top| == keep
  {
    var sorted := SortDescending(Zip(rewards, rows));
    seq(keep, i requires 0 <= i < keep => sorted[i].1)
  }

  function Column(rows: Matrix, cols: nat, c: nat): (r: seq<real>)
    requires IsMatrix(rows, |rows|, cols) && c < cols
    ensures |r| == |rows| && forall i | 0 <= i < |rows| :: r[i] == rows[i][c]
  {
    seq(|rows|, i requires 0 <= i < |rows| => rows[i][c])
  }

  function MeanRow(rows: Matrix, cols: nat): (r: seq<real>)
    requires rows != [] && IsMatrix(rows, |rows|, cols)
    ensures |r| == cols
  {
    seq(cols, c requires 0 <= c < cols => Quotient(R.Sum(Column(rows, cols, c)), |rows| as real))
  }

  lemma TopRowsAreRows(rows: Matrix, rewards: seq<real>, keep: nat)
    requires |rows| == |rewards| && keep <= |rows|
    ensures forall i | 0 <= i < keep :: TopRows(rows, rewards, keep)[i] in rows
  {
    var pairs := Zip(rewards, rows);
    SortSorts(pairs);
    forall i | 0 <= i < keep ensures TopRows(rows, rewards, keep)[i] in rows {
      var p := SortDescending(pairs)[i];
      assert p in multiset(SortDescending(pairs));
      assert p in pairs;
    }
  }

  lemma {:induction false} SumBetween(xs: seq<real>, lo: real, hi: real)
    requires forall i | 0 <= i < |xs| :: lo <= xs[i] <= hi
    ensures Times(|xs| as real, lo) <= R.Sum(xs) <= Times(|xs| as real, hi)
  {
    TimesDistributes(0.0, 0.0, lo);
    TimesDistributes(0.0, 0.0, hi);
    hide Times;
    if xs != [] {
      SumBetween(xs[1..], lo, hi);
      TimesDistributes(|xs[1..]| as real, 1.0, lo);
      TimesDistributes(|xs[1..]| as real, 1.0, hi);
    }
  }

  lemma MeanBetween(xs: seq<real>, lo: real, hi: real)
    requires xs != [] && forall i | 0 <= i < |xs| :: lo <= xs[i] <= hi
    ensures lo <= Quotient(R.Sum(xs), |xs| as real) <= hi
  {
    hide Times, Quotient, R.Sum;
    var n := |xs| as real;
    SumBetween(xs, lo, hi);
    TimesDistributes(n, 0.0, lo);
    TimesDistributes(n, 0.0, hi);
    QuotientMonotone(Times(n, lo), R.Sum(xs), n);
    QuotientMonotone(R.Sum(xs), Times(n, hi), n);
    QuotientTimes(lo, n);
    QuotientTimes(hi, n);
  }

  function Keep(n: nat): (k: nat)
    ensures n >= 1 ==> 1 <= k <= n
  {
    if n <= 1 then 1 else if n <= 8 then n else 8
  }

  /** The initial actor bias: the mean target of the (at most 8) best-rewarded samples. */
  function TopRewardMean(rows: Matrix, rewards: seq<real>, cols: nat): (bias: seq<real>)
    requires rows != [] && |rows| == |rewards| && IsMatrix(rows, |rows|, cols)
    ensures |bias| == cols
  {
    TopRowsAreRows(rows, rewards, Keep(|rows|));
    MeanRow(TopRows(rows, rewards, Keep(|rows|)), cols)
  }

  lemma TopRewardMeanBetween(rows: Matrix, rewards: seq<real>, cols: nat)
    requires rows != [] && |rows| == |rewards| && IsMatrix(rows, |rows|, cols)
    ensures Between(TopRewardMean(rows, rewards, cols), Mins(rows, cols), Maxs(rows, cols))
  {
    TopRowsAreRows(rows, rewards, Keep(|rows|));
    var top := TopRows(rows, rewards, Keep(|rows|));
    hide TopRows, Keep;
    forall c | 0 <= c < cols
      ensures ColumnMin(rows, cols, c) <= MeanRow(top, cols)[c] <= ColumnMax(rows, cols, c)
    {
      var column := Column(top, cols, c);
      forall i | 0 <= i < |column| ensures ColumnMin(rows, cols, c) <= column[i] <= ColumnMax(rows, cols, c) {
        var k :| 0 <= k < |rows| && rows[k] == top[i];
      }
      MeanBetween(column, ColumnMin(rows, cols, c), ColumnMax(rows, cols, c));
    }
  }

  // ---- the actor ----

  datatype Actor = Actor(weights: Matrix, bias: seq<real>)

  predicate ActorFits(a: Actor, actions: nat, features: nat) {
    IsMatrix(a.weights, actions, features) && |a.bias| == actions
  }

  /** The actor's prediction for x. */
  function Affine(a: Actor, x: seq<real>): (r: seq<real>)
    requires |a.weights| == |a.bias|
    ensures |r| == |a.bias|
  {
    seq(|a.bias|, i requires 0 <= i < |a.bias| => a.bias[i] + Dot(x, a.weights[i]))
  }

  /** One clipped step; raw[i] is the unclipped change of action i. */
  function ActorMoved(a: Actor, raw: seq<real>, x: seq<real>, lows: seq<real>, highs: seq<real>): (r: Actor)
    requires ActorFits(a, |raw|, |x|) && |lows| == |highs| == |raw|
    ensures ActorFits(r, |raw|, |x|)
  {
    Actor(seq(|raw|, i requires 0 <= i < |raw| => Moved(a.weights[i], Delta(raw[i]), x, MAX_ACTOR_WEIGHT)),
          seq(|raw|, i requires 0 <= i < |raw| => Clip(a.bias[i] + Delta(raw[i]), lows[i], highs[i])))
  }

  function Delta(raw: real): real {
    Clip(raw, -MAX_ACTOR_DELTA, MAX_ACTOR_DELTA)
  }

  predicate ActorInBox(a: Actor, lows: seq<real>, highs: seq<real>) {
    && Between(a.bias, lows, highs)
    && forall i | 0 <= i < |a.weights| :: InBox(a.weights[i], MAX_ACTOR_WEIGHT)
  }

  lemma ActorMovedInBox(a: Actor, raw: seq<real>, x: seq<real>, lows: seq<real>, highs: seq<real>)
    requires ActorFits(a, |raw|, |x|) && |lows| == |highs| == |raw|
    requires forall i | 0 <= i < |lows| :: lows[i] <= highs[i]
    ensures ActorInBox(ActorMoved(a, raw, x, lows, highs), lows, highs)
  {
    hide Moved, Delta;
  }

  method MoveActor(a: Actor, raw: seq<real>, x: seq<real>, lows: seq<real>, highs: seq<real>) returns (r: Actor)
    requires ActorFits(a, |raw|, |x|) && |lows| == |highs| == |raw|
    ensures r == ActorMoved(a, raw, x, lows, highs)
  {
    hide Moved, InBox;
    var weights, bias := a.weights, a.bias;
    ghost var goal := ActorMoved(a, raw, x, lows, highs);
    var i := 0;
    while i < |raw|
      invariant i <= |raw| == |weights| == |bias|
      invariant forall k | 0 <= k < |raw| ::
        if k < i then weights[k] == goal.weights[k] && bias[k] == goal.bias[k]
        else weights[k] == a.weights[k] && bias[k] == a.bias[k]
    {
      var delta := Clip(raw[i], -MAX_ACTOR_DELTA, MAX_ACTOR_DELTA);
      bias := bias[i := Clip(bias[i] + delta, lows[i], highs[i])];
      var row := MoveVector(weights[i], delta, x, MAX_ACTOR_WEIGHT);
      weights := weights[i := row];
      i := i + 1;
    }
    assert weights == goal.weights && bias == goal.bias;
    r := Actor(weights, bias);
  }

  /** How much a sample counts: from 1/4 for the least reward to 1 for the largest. */
  function SampleWeight(reward: real, least: real, span: real): real
    requires span > 0.0
  {
    0.25 + Times(0.75, Quotient(reward - least, span))
  }

  function Least(xs: seq<real>): (m: real)
    requires xs != []
    ensures m in xs && forall i | 0 <= i < |xs| :: m <= xs[i]
  {
    if |xs| == 1 then xs[0] else var m := Least(xs[1..]); if xs[0] < m then xs[0] else m
  }

  function Greatest(xs: seq<real>): (m: real)
    requires xs != []
    ensures m in xs && forall i | 0 <= i < |xs| :: xs[i] <= m
  {
    if |xs| == 1 then xs[0] else var m := Greatest(xs[1..]); if xs[0] > m then xs[0] else m
  }

  function Span(xs: seq<real>): (r: real)
    requires xs != []
    ensures r > 0.0
  {
    if Greatest(xs) - Least(xs) > 0.000001 then Greatest(xs) - Least(xs) else 0.000001
  }

  // ---- fitting one role head ----

  /** Aligned training rows for one head. */
  datatype HeadData = HeadData(xs: Matrix, ys: Matrix, rewards: seq<real>, features: nat, actions: nat)

  predicate HeadDataFits(h: HeadData) {
    && h.xs != []
    && IsMatrix(h.xs, |h.rewards|, h.features) && IsMatrix(h.ys, |h.rewards|, h.actions)
  }

  function ImitationSteps(a: Actor, x: seq<real>, y: seq<real>, weight: real): (raw: seq<real>)
    requires |a.weights| == |a.bias| == |y|
    ensures |raw| == |y|
  {
    seq(|y|, i requires 0 <= i < |y| => Times(Times(BC_LR, weight), y[i] - Affine(a, x)[i]))
  }

  function HeadStep(h: HeadData, a: Actor, idx: nat): (r: Actor)
    requires HeadDataFits(h) && ActorFits(a, h.actions, h.features) && idx < |h.xs|
    ensures ActorFits(r, h.actions, h.features)
  {
    var weight := SampleWeight(h.rewards[idx], Least(h.rewards), Span(h.rewards));
    ActorMoved(a, ImitationSteps(a, h.xs[idx], h.ys[idx], weight), h.xs[idx],
               Mins(h.ys, h.actions), Maxs(h.ys, h.actions))
  }

  predicate OrderFits(order: seq<nat>, n: nat) {
    forall k | 0 <= k < |order| :: order[k] < n
  }

  function HeadEpoch(h: HeadData, a: Actor, order: seq<nat>): (r: Actor)
    requires HeadDataFits(h) && ActorFits(a, h.actions, h.features) && OrderFits(order, |h.xs|)
    ensures ActorFits(r, h.actions, h.features)
  {
    if order == [] then a
    else HeadStep(h, HeadEpoch(h, a, order[..|order| - 1]), order[|order| - 1])
  }

  function HeadEpochs(h: HeadData, a: Actor, orders: seq<seq<nat>>): (r: Actor)
    requires HeadDataFits(h) && ActorFits(a, h.actions, h.features)
    requires forall e | 0 <= e < |orders| :: OrderFits(orders[e], |h.xs|)
    ensures ActorFits(r, h.actions, h.features)
  {
    if orders == [] then a
    else HeadEpoch(h, HeadEpochs(h, a, orders[..|orders| - 1]), orders[|orders| - 1])
  }

  function HeadStart(h: HeadData): (a: Actor)
    requires HeadDataFits(h)
    ensures ActorFits(a, h.actions, h.features)
  {
    Actor(seq(h.actions, i => seq(h.features, k => 0.0)), TopRewardMean(h.ys, h.rewards, h.actions))
  }

  /** After any number of epochs in any orders: biases between the column bounds of the targets, weights in [-1, 1]. */
  lemma HeadInBox(h: HeadData, orders: seq<seq<nat>>)
    requires HeadDataFits(h) && forall e | 0 <= e < |orders| :: OrderFits(orders[e], |h.xs|)
    ensures ActorInBox(HeadEpochs(h, HeadStart(h), orders), Mins(h.ys, h.actions), Maxs(h.ys, h.actions))
  {
    TopRewardMeanBetween(h.ys, h.rewards, h.actions);
    HeadEpochsInBox(h, HeadStart(h), orders);
  }

  lemma {:induction false} HeadEpochsInBox(h: HeadData, a: Actor, orders: seq<seq<nat>>)
    requires HeadDataFits(h) && ActorFits(a, h.actions, h.features)
    requires forall e | 0 <= e < |orders| :: OrderFits(orders[e], |h.xs|)
    requires ActorInBox(a, Mins(h.ys, h.actions), Maxs(h.ys, h.actions))
    ensures ActorInBox(HeadEpochs(h, a, orders), Mins(h.ys, h.actions), Maxs(h.ys, h.actions))
  {
    hide ActorInBox, HeadEpoch;
    if orders != [] {
      var init, last := orders[..|orders| - 1], orders[|orders| - 1];
      HeadEpochsInBox(h, a, init);
      HeadEpochInBox(h, HeadEpochs(h, a, init), last);
    }
  }

  lemma {:induction false} HeadEpochInBox(h: HeadData, a: Actor, order: seq<nat>)
    requires HeadDataFits(h) && ActorFits(a, h.actions, h.features) && OrderFits(order, |h.xs|)
    requires ActorInBox(a, Mins(h.ys, h.actions), Maxs(h.ys, h.actions))
    ensures ActorInBox(HeadEpoch(h, a, order), Mins(h.ys, h.actions), Maxs(h.ys, h.actions))
  {
    hide ActorInBox, ActorMoved, SampleWeight, ImitationSteps;
    if order != [] {
      var before, idx := HeadEpoch(h, a, order[..|order| - 1]), order[|order| - 1];
      var weight := SampleWeight(h.rewards[idx], Least(h.rewards), Span(h.rewards));
      ActorMovedInBox(before, ImitationSteps(before, h.xs[idx], h.ys[idx], weight), h.xs[idx],
                      Mins(h.ys, h.actions), Maxs(h.ys, h.actions));
    }
  }

  /** The training loops of one role head; orders[e] is the shuffled order of epoch e. */
  method FitActorHead(h: HeadData, orders: seq<seq<nat>>) returns (a: Actor)
    requires HeadDataFits(h) && forall e | 0 <= e < |orders| :: OrderFits(orders[e], |h.xs|)
    ensures a == HeadEpochs(h, HeadStart(h), orders)
    ensures ActorInBox(a, Mins(h.ys, h.actions), Maxs(h.ys, h.actions))
  {
    HeadInBox(h, orders);
    hide ActorInBox, ActorMoved, SampleWeight, ImitationSteps, HeadStart, Least, Span, Mins, Maxs, Affine;
    var mins, maxs := Bounds(h.ys, h.actions);
    a := HeadStart(h);
    assert orders[..0] == [];
    var e := 0;
    while e < |orders|
      invariant e <= |orders| && a == HeadEpochs(h, HeadStart(h), orders[..e])
    {
      var order := orders[e];
      ghost var before := a;
      var k := 0;
      assert order[..0] == [];
      while k < |order|
        invariant k <= |order| && a == HeadEpoch(h, before, order[..k])
      {
        var idx := order[k];
        var weight := SampleWeight(h.rewards[idx], Least(h.rewards), Span(h.rewards));
        assert order[..k + 1][..k] == order[..k];
        a := MoveActor(a, ImitationSteps(a, h.xs[idx], h.ys[idx], weight), h.xs[idx], mins, maxs);
        k := k + 1;
      }
      assert order[..|order|] == order && orders[..e + 1][..e] == orders[..e];
      e := e + 1;
    }
    assert orders[..|orders|] == orders;
  }

  // ---- what one step and the start mean ----

  /** An output moves by a change of at most 1/4: its bias up to the given bounds and its weights, along x, up to 1. */
  ghost predicate OutputFollows(bias: real, weights: seq<real>, change: real, x: seq<real>, low: real, high: real,
                                bias': real, weights': seq<real>)
    requires |weights| == |x| == |weights'|
  {
    exists delta :: && StepsTo(0.0, change, -0.25, 0.25, delta)
                    && StepsTo(bias, delta, low, high, bias')
                    && forall k | 0 <= k < |x| :: StepsTo(weights[k], Times(delta, x[k]), -1.0, 1.0, weights'[k])
  }

  /** Every action's output does so, with its own change. */
  ghost predicate ActorFollows(a: Actor, changes: seq<real>, x: seq<real>, lows: seq<real>, highs: seq<real>,
                               r: Actor) {
    && ActorFits(a, |changes|, |x|) && ActorFits(r, |changes|, |x|) && |lows| == |highs| == |changes|
    && forall i | 0 <= i < |changes| ::
         OutputFollows(a.bias[i], a.weights[i], changes[i], x, lows[i], highs[i], r.bias[i], r.weights[i])
  }

  lemma ActorMovedFollows(a: Actor, raw: seq<real>, x: seq<real>, lows: seq<real>, highs: seq<real>)
    requires ActorFits(a, |raw|, |x|) && |lows| == |highs| == |raw|
    requires forall i | 0 <= i < |lows| :: lows[i] <= highs[i]
    ensures ActorFollows(a, raw, x, lows, highs, ActorMoved(a, raw, x, lows, highs))
  {
    var r := ActorMoved(a, raw, x, lows, highs);
    hide Moved, OutputFollows;
    forall i | 0 <= i < |raw|
      ensures OutputFollows(a.bias[i], a.weights[i], raw[i], x, lows[i], highs[i], r.bias[i], r.weights[i])
    {
      OutputMoved(a.bias[i], a.weights[i], raw[i], x, lows[i], highs[i]);
    }
  }

  lemma OutputMoved(bias: real, weights: seq<real>, raw: real, x: seq<real>, low: real, high: real)
    requires |weights| == |x| && low <= high
    ensures OutputFollows(bias, weights, raw, x, low, high, Clip(bias + Delta(raw), low, high),
                          Moved(weights, Delta(raw), x, MAX_ACTOR_WEIGHT))
  {
    hide Times, Moved;
    MovedIs(weights, Delta(raw), x, 1.0);
    assert StepsTo(0.0, raw, -0.25, 0.25, Delta(raw));
    assert StepsTo(bias, Delta(raw), low, high, Clip(bias + Delta(raw), low, high));
  }

  lemma BoundsOrdered(rows: Matrix, cols: nat)
    requires rows != [] && IsMatrix(rows, |rows|, cols)
    ensures forall c | 0 <= c < cols :: Mins(rows, cols)[c] <= Maxs(rows, cols)[c]
  {
    forall c | 0 <= c < cols ensures Mins(rows, cols)[c] <= Maxs(rows, cols)[c] {
      assert ColumnMin(rows, cols, c) <= rows[0][c] <= ColumnMax(rows, cols, c);
    }
  }

  /**
   The weight of sample i rises with its reward from 1/4 at the least reward, by 3/4 over the whole span
   of rewards, which counts as 0.000001 at least.
   */
  ghost predicate IsSampleWeight(rewards: seq<real>, i: nat, weight: real) {
    && i < |rewards|
    && exists least, greatest :: && least in rewards && greatest in rewards
                                 && (forall r | r in rewards :: least <= r <= greatest)
                                 && IsWeightAt(rewards[i], least, greatest, weight)
  }

  predicate IsWeightAt(reward: real, least: real, greatest: real, weight: real) {
    Times(weight - 0.25, if greatest - least > 0.000001 then greatest - least else 0.000001)
    == Times(0.75, reward - least)
  }

  lemma SampleWeightIs(rewards: seq<real>, i: nat)
    requires i < |rewards|
    ensures IsSampleWeight(rewards, i, SampleWeight(rewards[i], Least(rewards), Span(rewards)))
  {
    hide SampleWeight, Times, Least, Greatest;
    ExtremesBound(rewards);
    var least, greatest := Least(rewards), Greatest(rewards);
    WeightAbove(rewards[i], least, Span(rewards));
    assert IsWeightAt(rewards[i], least, greatest, SampleWeight(rewards[i], least, Span(rewards)));
  }

  lemma ExtremesBound(rewards: seq<real>)
    requires rewards != []
    ensures forall r | r in rewards :: Least(rewards) <= r <= Greatest(rewards)
  {
    hide Least, Greatest;
    forall r | r in rewards ensures Least(rewards) <= r <= Greatest(rewards) {
      var k :| 0 <= k < |rewards| && rewards[k] == r;
    }
  }

  lemma WeightAbove(reward: real, least: real, span: real)
    requires span > 0.0
    ensures Times(SampleWeight(reward, least, span) - 0.25, span) == Times(0.75, reward - least)
  {
    QuotientTimes(reward - least, span);
    TimesAssociates(0.75, Quotient(reward - least, span), span);
  }

  /** One step of a role head moves every output towards its target, the more the better the sample's reward. */
  lemma HeadStepImitates(h: HeadData, a: Actor, idx: nat) returns (weight: real, changes: seq<real>)
    requires HeadDataFits(h) && ActorFits(a, h.actions, h.features) && idx < |h.xs|
    ensures IsSampleWeight(h.rewards, idx, weight)
    ensures |changes| == h.actions
    ensures forall i | 0 <= i < h.actions ::
              changes[i] == Times(Times(0.08, weight), h.ys[idx][i] - (a.bias[i] + Dot(h.xs[idx], a.weights[i])))
    ensures ActorFollows(a, changes, h.xs[idx], Mins(h.ys, h.actions), Maxs(h.ys, h.actions), HeadStep(h, a, idx))
  {
    hide Times, Dot, ActorFollows, SampleWeight, ActorMoved, IsSampleWeight, Mins, Maxs, Least, Span;
    weight := SampleWeight(h.rewards[idx], Least(h.rewards), Span(h.rewards));
    SampleWeightIs(h.rewards, idx);
    changes := ImitationSteps(a, h.xs[idx], h.ys[idx], weight);
    BoundsOrdered(h.ys, h.actions);
    ActorMovedFollows(a, changes, h.xs[idx], Mins(h.ys, h.actions), Maxs(h.ys, h.actions));
  }

  /** Samples are taken one after the other, and epochs too. */
  lemma HeadTakesEach(h: HeadData, a: Actor, order: seq<nat>, idx: nat, orders: seq<seq<nat>>)
    requires HeadDataFits(h) && ActorFits(a, h.actions, h.features)
    requires OrderFits(order, |h.xs|) && idx < |h.xs|
    requires forall e | 0 <= e < |orders| :: OrderFits(orders[e], |h.xs|)
    ensures HeadEpoch(h, a, []) == a && HeadEpochs(h, a, []) == a
    ensures HeadEpoch(h, a, order + [idx]) == HeadStep(h, HeadEpoch(h, a, order), idx)
    ensures HeadEpochs(h, a, orders + [order]) == HeadEpoch(h, HeadEpochs(h, a, orders), order)
  {
    assert (order + [idx])[..|order|] == order;
    assert (orders + [order])[..|orders|] == orders;
    hide HeadStep;
  }

  /** The rows of the pairs. */
  function RowsOf(pairs: seq<(real, seq<real>)>): (rows: Matrix)
    ensures |rows| == |pairs| && forall i | 0 <= i < |rows| :: rows[i] == pairs[i].1
  {
    seq(|pairs|, i requires 0 <= i < |pairs| => pairs[i].1)
  }

  /** Of the rewarded rows the eight best, or all if there are no more: none left out has a better reward. */
  predicate AreBest(rewards: seq<real>, rows: Matrix, best: seq<(real, seq<real>)>, others: seq<(real, seq<real>)>)
    requires |rewards| == |rows|
  {
    && |best| == (if |rows| <= 8 then |rows| else 8)
    && multiset(best + others) == multiset(seq(|rows|, i requires 0 <= i < |rows| => (rewards[i], rows[i])))
    && forall i, j | 0 <= i < |best| && 0 <= j < |others| :: best[i].0 >= others[j].0
  }

  /** The initial bias of each output is the mean of the best rows' targets. */
  lemma TopRewardMeanIs(rows: Matrix, rewards: seq<real>, cols: nat)
    returns (best: seq<(real, seq<real>)>, others: seq<(real, seq<real>)>)
    requires rows != [] && |rows| == |rewards| && IsMatrix(rows, |rows|, cols)
    ensures AreBest(rewards, rows, best, others) && IsMatrix(RowsOf(best), |best|, cols)
    ensures forall c | 0 <= c < cols ::
              Times(TopRewardMean(rows, rewards, cols)[c], |best| as real) == R.Sum(Column(RowsOf(best), cols, c))
  {
    hide Times, AreBest, R.Sum, Zip, SortDescending;
    var keep := Keep(|rows|);
    best, others := BestRows(rows, rewards);
    var bias := TopRewardMean(rows, rewards, cols);
    forall c | 0 <= c < cols ensures Times(bias[c], |best| as real) == R.Sum(Column(RowsOf(best), cols, c)) {
      QuotientTimes(R.Sum(Column(RowsOf(best), cols, c)), |best| as real);
    }
  }

  lemma BestRows(rows: Matrix, rewards: seq<real>)
    returns (best: seq<(real, seq<real>)>, others: seq<(real, seq<real>)>)
    requires rows != [] && |rows| == |rewards|
    ensures AreBest(rewards, rows, best, others)
    ensures RowsOf(best) == TopRows(rows, rewards, Keep(|rows|))
    ensures forall i | 0 <= i < |best| :: RowsOf(best)[i] in rows
  {
    var keep := Keep(|rows|);
    TopRowsAreRows(rows, rewards, keep);
    SortSorts(Zip(rewards, rows));
    var sorted := SortDescending(Zip(rewards, rows));
    best, others := sorted[..keep], sorted[keep..];
    assert RowsOf(best) == TopRows(rows, rewards, keep);
    assert best + others == sorted;
    ZipIs(rewards, rows);
    hide SortDescending, Zip, TopRows;
  }

  lemma ZipIs(rewards: seq<real>, rows: Matrix)
    requires |rewards| == |rows|
    ensures Zip(rewards, rows) == seq(|rows|, i requires 0 <= i < |rows| => (rewards[i], rows[i]))
  {
  }

  /** A head starts with those biases and no weights. */
  lemma HeadStartIs(h: HeadData)
    requires HeadDataFits(h)
    ensures HeadStart(h).bias == TopRewardMean(h.ys, h.rewards, h.actions)
    ensures forall i, k | 0 <= i < h.actions && 0 <= k < h.features :: HeadStart(h).weights[i][k] == 0.0
  {
  }
}
