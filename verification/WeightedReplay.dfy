/**
 The trajectory replay buffer with weighted priority order (marl/replay.py).

 The generator's draws in [0, 1) are parameters, one for each item to be ordered.
 */
module WeightedReplay {
  import opened Wrappers
  import opened Arith
  import opened Roulette
  import opened Rings

  datatype TrajectorySample = TrajectorySample(
    id: int, governanceDelta: bool, guardrailDelta: bool,
    adversaryScore: real, churnRate: real, networkJitterMs: real)

  predicate HasStressSignal(s: TrajectorySample) {
    s.adversaryScore >= 0.6 || s.churnRate >= 0.4 || s.networkJitterMs >= 50.0
  }

  function PriorityScore(s: TrajectorySample): (score: real)
    ensures 0.0 <= score <= 9.0
  {
    (if s.governanceDelta then 2.0 else 0.0) + (if s.guardrailDelta then 4.0 else 0.0)
    + (if HasStressSignal(s) then 3.0 else 0.0)
  }

  function Weights(items: seq<TrajectorySample>): (ws: seq<real>)
    ensures |ws| == |items| && forall i | 0 <= i < |ws| :: ws[i] >= 1.0
    ensures NonNegative(ws)
  {
    seq(|items|, i requires 0 <= i < |items| => 1.0 + PriorityScore(items[i]))
  }

  function Without<T>(items: seq<T>, i: nat): (rest: seq<T>)
    requires i < |items|
    ensures |rest| == |items| - 1
  {
    items[..i] + items[i + 1..]
  }

  predicate AreDraws(draws: seq<real>, n: nat) {
    |draws| == n && forall k | 0 <= k < n :: 0.0 <= draws[k] < 1.0
  }

  /** Repeated roulette selection without replacement. */
  function WeightedOrder(items: seq<TrajectorySample>, draws: seq<real>): (ordered: seq<TrajectorySample>)
    requires AreDraws(draws, |items|)
    ensures |ordered| == |items|
    decreases |items|
  {
    if items == [] then []
    else
      var i := Drawn(items, draws[0]);
      [items[i]] + WeightedOrder(Without(items, i), draws[1..])
  }

  /** Whatever the draws, the order is a permutation of the items. */
  lemma {:induction false} OrderIsPermutation(items: seq<TrajectorySample>, draws: seq<real>)
    requires AreDraws(draws, |items|)
    ensures multiset(WeightedOrder(items, draws)) == multiset(items)
    decreases |items|
  {
    if items != [] {
      var i := Drawn(items, draws[0]);
      hide Drawn, Without;
      OrderIsPermutation(Without(items, i), draws[1..]);
      RemoveOne(items, i);
    }
  }

  lemma PrefixWithin<T>(xs: seq<T>, k: nat)
    requires k <= |xs|
    ensures multiset(xs[..k]) <= multiset(xs)
  {
    assert xs == xs[..k] + xs[k..];
  }

  /** A draw below 1 gives a threshold that the weights' running total reaches. */
  lemma ThresholdReached(ws: seq<real>, draw: real)
    requires NonNegative(ws) && 0.0 <= draw < 1.0
    ensures 0.0 <= Times(draw, Sum(ws)) <= Sum(ws)
  {
    hide Sum, Times;
    FractionOf(draw, Sum(ws));
  }

  lemma {:induction false} RunningTotalBelow(ws: seq<real>, k: nat)
    requires NonNegative(ws) && k <= |ws|
    ensures Sum(ws[..k]) <= Sum(ws)
  {
    assert ws == ws[..k] + ws[k..];
    SumAppend(ws[..k], ws[k..]);
    assert NonNegative(ws[k..]);
  }

  /** The inner loop: runs up the weights and stops at the first running total not below the threshold. */
  method PickIndex(ws: seq<real>, threshold: real) returns (picked: Option<nat>)
    requires ws != [] && NonNegative(ws)
    ensures picked == if threshold <= Sum(ws) then Some(Scan(ws, threshold)) else None
  {
    hide NonNegative;
    var cumulative := 0.0;
    var index := 0;
    assert ws[0..] == ws;
    while index < |ws|
      invariant index <= |ws| && cumulative == Sum(ws[..index])
      invariant index > 0 ==> threshold > cumulative
      invariant index < |ws| ==> Scan(ws, threshold) == index + Scan(ws[index..], threshold - cumulative)
    {
      SumSnoc(ws, index);
      RunningTotalBelow(ws, index + 1);
      cumulative := cumulative + ws[index];
      if threshold <= cumulative {
        return Some(index);
      }
      assert ws[index..][1..] == ws[index + 1..];
      index := index + 1;
    }
    assert ws[..|ws|] == ws;
    return None;
  }

  /** The index a draw selects. */
  function Drawn(items: seq<TrajectorySample>, draw: real): (i: nat)
    requires items != []
    ensures i < |items|
  {
    Scan(Weights(items), Times(draw, Sum(Weights(items))))
  }

  /** The chances of a sample: 1, plus 2 for a governance change, 4 for a guardrail change, and 3 under stress. */
  predicate AreChances(s: TrajectorySample, chances: real) {
    var stressed := !(s.adversaryScore < 0.6 && s.churnRate < 0.4 && s.networkJitterMs < 50.0);
    match (s.governanceDelta, s.guardrailDelta)
    case (false, false) => chances == if stressed then 4.0 else 1.0
    case (true, false) => chances == if stressed then 6.0 else 3.0
    case (false, true) => chances == if stressed then 8.0 else 5.0
    case (true, true) => chances == if stressed then 10.0 else 7.0
  }

  /** A position is drawn exactly by the draws of a stretch that is as long as its sample's share of all chances. */
  lemma DrawnIffInStretch(items: seq<TrajectorySample>, draw: real, i: nat, chances: seq<real>)
    requires i < |items| && 0.0 < draw < 1.0
    requires |chances| == |items| && forall k | 0 <= k < |items| :: AreChances(items[k], chances[k])
    ensures Drawn(items, draw) == i
            <==> Sum(chances[..i]) < Times(draw, Sum(chances)) <= Sum(chances[..i]) + chances[i]
  {
    assert Weights(items) == chances;
    SumSnoc(chances, i);
    PositiveThreshold(chances, draw);
    hide Weights, Times, Sum;
    ScanBrackets(chances, Times(draw, Sum(chances)));
    if Sum(chances[..i]) < Times(draw, Sum(chances)) <= Sum(chances[..i]) + chances[i] {
      BracketIsScan(chances, Times(draw, Sum(chances)), i);
    }
  }

  lemma PositiveThreshold(ws: seq<real>, draw: real)
    requires ws != [] && (forall k | 0 <= k < |ws| :: ws[k] >= 1.0) && 0.0 < draw < 1.0
    ensures NonNegative(ws) && 0.0 < Times(draw, Sum(ws)) <= Sum(ws)
  {
    ThresholdReached(ws, draw);
    assert NonNegative(ws[1..]);
    assert Sum(ws) >= 1.0;
    ScaleMonotone(draw, draw, Sum(ws));
  }

  /** One round: pops the selected item. */
  method PopOne(remaining: seq<TrajectorySample>, draw: real)
      returns (item: TrajectorySample, rest: seq<TrajectorySample>)
    requires remaining != [] && 0.0 <= draw < 1.0
    ensures item == remaining[Drawn(remaining, draw)] && rest == Without(remaining, Drawn(remaining, draw))
  {
    hide Times, Sum, Scan, Weights;
    var ws := Weights(remaining);
    ThresholdReached(ws, draw);
    var picked := PickIndex(ws, Times(draw, Sum(ws)));
    var index := picked.value;
    item, rest := remaining[index], remaining[..index] + remaining[index + 1..];
  }

  /** Each round removes exactly one item, so there are as many rounds as items. */
  method WeightedPriorityOrder(items: seq<TrajectorySample>, draws: seq<real>) returns (ordered: seq<TrajectorySample>)
    requires AreDraws(draws, |items|)
    ensures ordered == WeightedOrder(items, draws)
    ensures multiset(ordered) == multiset(items)
  {
    OrderIsPermutation(items, draws);
    hide WeightedOrder, Drawn, Without;
    var remaining := items;
    ordered := [];
    var k := 0;
    assert draws[0..] == draws && [] + WeightedOrder(items, draws) == WeightedOrder(items, draws);
    while remaining != []
      invariant k + |remaining| == |draws| && AreDraws(draws[k..], |remaining|)
      invariant ordered + WeightedOrder(remaining, draws[k..]) == WeightedOrder(items, draws)
      decreases |remaining|
    {
      OrderStep(remaining, draws[k..], ordered);
      assert draws[k..][1..] == draws[k + 1..] && draws[k..][0] == draws[k];
      var item;
      item, remaining := PopOne(remaining, draws[k]);
      ordered := ordered + [item];
      k := k + 1;
    }
    NothingToOrder(draws[k..]);
    assert ordered + [] == ordered;
  }

  lemma OrderStep(items: seq<TrajectorySample>, draws: seq<real>, before: seq<TrajectorySample>)
    requires AreDraws(draws, |items|) && items != []
    ensures AreDraws(draws[1..], |items| - 1)
    ensures before + WeightedOrder(items, draws)
            == before + [items[Drawn(items, draws[0])]]
                + WeightedOrder(Without(items, Drawn(items, draws[0])), draws[1..])
  {
    hide Drawn, Without;
  }

  lemma NothingToOrder(draws: seq<real>)
    requires draws == []
    ensures WeightedOrder([], draws) == []
  {
  }

  datatype Mode = Uniform | Priority | Other

  datatype SampleResult = Samples(samples: seq<TrajectorySample>) | UnsupportedMode

  predicate AreDistinctPositions(picks: seq<nat>, k: nat, n: nat) {
    && |picks| == k
    && (forall i | 0 <= i < k :: picks[i] < n)
    && (forall i, j | 0 <= i < j < k :: picks[i] != picks[j])
  }

  /** The items at the given positions. */
  function ItemsAt(items: seq<TrajectorySample>, picks: seq<nat>): (r: seq<TrajectorySample>)
    requires forall i | 0 <= i < |picks| :: picks[i] < |items|
    ensures |r| == |picks| && forall i | 0 <= i < |r| :: r[i] == items[picks[i]]
  {
    seq(|picks|, i requires 0 <= i < |picks| => items[picks[i]])
  }

  class ReplayBuffer {
    const capacity: nat
    var items: seq<TrajectorySample>
    ghost var history: seq<TrajectorySample>   // every sample ever pushed

    ghost predicate Valid()
      reads this
    {
      capacity >= 1 && items == Recent(history, capacity)
    }

    /** A capacity of 0 or less is an error in the source. */
    constructor (capacity: nat)
      requires capacity >= 1
      ensures Valid() && history == [] && this.capacity == capacity
    {
      this.capacity := capacity;
      items, history := [], [];
    }

    /** A bounded deque: appends on the right, drops on the left. */
    method Push(sample: TrajectorySample)
      requires Valid()
      modifies this
      ensures Valid() && history == old(history) + [sample]
    {
      items := items + [sample];
      if |items| > capacity {
        items := items[1..];
      }
      history := history + [sample];
    }

    method Extend(samples: seq<TrajectorySample>)
      requires Valid()
      modifies this
      ensures Valid() && history == old(history) + samples
    {
      var i := 0;
      while i < |samples|
        invariant i <= |samples| && Valid() && history == old(history) + samples[..i]
      {
        assert samples[..i + 1] == samples[..i] + [samples[i]];
        Push(samples[i]);
        i := i + 1;
      }
      assert samples[..|samples|] == samples;
    }

    /** `picks` are the positions rng.sample returns, `draws` the numbers rng.random returns. */
    method Sample(batchSize: int, mode: Mode, picks: seq<nat>, draws: seq<real>) returns (result: SampleResult)
      requires Valid()
      requires 0 < batchSize < |items| ==> AreDistinctPositions(picks, batchSize, |items|)
      requires AreDraws(draws, |items|)
      ensures result.UnsupportedMode? <==> batchSize > 0 && mode.Other?
      ensures result.Samples? ==>
                && |result.samples|
                   == (if batchSize <= 0 then 0 else if batchSize <= |items| then batchSize else |items|)
                && multiset(result.samples) <= multiset(items)
      ensures result.Samples? && batchSize > 0 && mode.Priority? ==>
                result.samples == WeightedOrder(items, draws)[..|result.samples|]
      ensures result.Samples? && batchSize >= |items| && batchSize > 0 && mode.Uniform? ==> result.samples == items
      ensures result.Samples? && 0 < batchSize < |items| && mode.Uniform? ==>
                |result.samples| == batchSize && forall k | 0 <= k < batchSize :: result.samples[k] == items[picks[k]]
    {
      hide WeightedOrder, Recent;
      if batchSize <= 0 {
        return Samples([]);
      }
      if mode.Uniform? {
        if batchSize >= |items| {
          return Samples(items);
        }
        PositionsWithin(items, picks);
        return Samples(ItemsAt(items, picks));
      }
      if !mode.Priority? {
        return UnsupportedMode;
      }
      var ordered := WeightedPriorityOrder(items, draws);
      var k := if batchSize <= |ordered| then batchSize else |ordered|;
      PrefixWithin(ordered, k);
      return Samples(ordered[..k]);
    }

    method Get(index: int) returns (sample: Option<TrajectorySample>)
      requires Valid()
      ensures sample == if 0 <= index < |items| then Some(items[index]) else None
    {
      if index < 0 || index >= |items| {
        return None;
      }
      return Some(items[index]);
    }
  }

  lemma {:induction false} RemoveOne<T>(items: seq<T>, i: nat)
    requires i < |items|
    ensures multiset(items) == multiset(Without(items, i)) + multiset{items[i]}
  {
    assert items == items[..i] + [items[i]] + items[i + 1..];
  }

  /** Distinct positions take each item no more often than it is there. */
  lemma {:induction false} PositionsWithin(items: seq<TrajectorySample>, picks: seq<nat>)
    requires AreDistinctPositions(picks, |picks|, |items|)
    ensures multiset(ItemsAt(items, picks)) <= multiset(items)
    decreases |items|, |picks|
  {
    var taken := ItemsAt(items, picks);
    if picks == [] {
      assert taken == [];
    } else {
      assert picks[0] < |items|;
      var n := |items| - 1;
      var init := items[..n];
      assert items == init + [items[n]];
      if at :| 0 <= at < |picks| && picks[at] == n {
        var others := Without(picks, at);
        PositionsWithin(init, others);
        var rest := ItemsAt(init, others);
        forall i | 0 <= i < |rest| ensures rest[i] == Without(taken, at)[i] {
          assert others[i] == if i < at then picks[i] else picks[i + 1];
        }
        assert rest == Without(taken, at);
        RemoveOne(taken, at);
      } else {
        PositionsWithin(init, picks);
        assert taken == ItemsAt(init, picks);
      }
    }
  }
}
