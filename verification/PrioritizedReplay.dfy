/**
 Proportional prioritized replay over the sum tree
 (marl/training/replay_buffer.py, PrioritizedReplayBuffer).

 Random draws are parameters: `draws[i]` is the fraction of stratum i that the generator
 returns, `redraws` the fractions of the total it returns afterwards.
 */
module PrioritizedReplay {
  import opened Wrappers
  import opened Roulette
  import opened SumTrees
  import opened Rings
  import opened Arith

  /** What is used of the power function: positive on positive numbers, falling for exponents <= 0. */
  ghost predicate PowLaws(pow: (real, real) -> real) {
    && (forall x: real, a: real :: x > 0.0 ==> pow(x, a) > 0.0)
    && (forall x: real, y: real, a: real :: 0.0 < x <= y && a <= 0.0 ==> pow(y, a) <= pow(x, a))
  }

  function Min(xs: seq<real>): (m: real)
    requires xs != []
    ensures m in xs && forall i | 0 <= i < |xs| :: m <= xs[i]
  {
    if |xs| == 1 then xs[0] else
    var m := Min(xs[1..]);
    if xs[0] <= m then xs[0] else m
  }

  lemma {:induction false} WeightBelowSum(ws: seq<real>, i: nat)
    requires NonNegative(ws) && i < |ws|
    ensures ws[i] <= Sum(ws)
  {
    if i > 0 {
      WeightBelowSum(ws[1..], i - 1);
    } else {
      assert Sum(ws[1..]) >= 0.0;
    }
  }

  /** No priority is negative and every filled slot has a positive one. */
  predicate Prioritised(leaves: seq<real>, size: nat) {
    && NonNegative(leaves)
    && size <= |leaves|
    && forall i | 0 <= i < size :: leaves[i] > 0.0
  }

  /** The data list holds exactly the given slots; the remaining places are empty. */
  predicate Stores<T(==)>(data: seq<Option<T>>, slots: seq<T>) {
    && |slots| <= |data|
    && (forall i | 0 <= i < |slots| :: data[i] == Some(slots[i]))
    && (forall i | |slots| <= i < |data| :: data[i] == None)
  }

  /** What writing one transition at the cursor does to a list that stores the ring's slots. */
  lemma StoreOne<T>(data: seq<Option<T>>, leaves: seq<real>, history: seq<T>, capacity: nat, x: T, priority: real)
    requires capacity >= 1 && |data| == |leaves| == capacity && priority > 0.0
    requires Stores(data, Slots(history, capacity))
    requires Prioritised(leaves, |Recent(history, capacity)|)
    ensures var p, more := Cursor(|history|, capacity), history + [x];
            var size := |Recent(more, capacity)|;
            && size == (if |history| < capacity then |history| + 1 else capacity)
            && Cursor(|more|, capacity) == Next(p, capacity)
            && Stores(data[p := Some(x)], Slots(more, capacity))
            && Prioritised(leaves[p := priority], size)
            && (Tight(leaves, |Recent(history, capacity)|) ==> Tight(leaves[p := priority], size))
  {
    hide Slots, Rotate, Cursor;
    WriteExtendsHistory(history, capacity, x);
    NextStands(|history|, capacity);
    assert |history + [x]| == |history| + 1;
  }

  lemma NextStands(n: nat, capacity: nat)
    requires capacity >= 1
    ensures Cursor(n + 1, capacity) == Next(Cursor(n, capacity), capacity)
    ensures n < capacity ==> Cursor(n, capacity) == n
  {
    if n < capacity {
      CursorBeforeWrap(n, capacity);
    }
  }

  // ---- which draws can land on an empty slot ----

  /** Only the first `size` leaves carry any priority. */
  predicate Tight(leaves: seq<real>, size: nat) {
    && NonNegative(leaves)
    && forall i | size <= i < |leaves| :: leaves[i] == 0.0
  }

  /** The smallest p * 2^k that is at least capacity. */
  function DoubledTo(p: nat, capacity: nat): (r: nat)
    requires p >= 1
    ensures r >= capacity
    decreases capacity - p
  {
    if p >= capacity then p else DoubledTo(2 * p, capacity)
  }

  /** The leftmost leaf has index 2^k - capacity for the least power of two 2^k >= capacity. */
  lemma {:induction false} LeftmostLeaf(capacity: nat, p: nat)
    requires 1 <= p && p <= 2 * capacity - 1
    ensures InOrder(capacity, p - 1)[0] == DoubledTo(p, capacity) - capacity
    decreases capacity - p
  {
    if p < capacity {
      LeftmostLeaf(capacity, 2 * p);
      assert InOrder(capacity, p - 1)[0] == InOrder(capacity, 2 * p - 1)[0];
    }
  }

  /**
   A draw in [0, total] finds a filled slot if and only if it is positive or the leftmost leaf is
   filled already.  The buffer's resampling loop is there for the remaining case.
   */
  lemma DrawHitsFilledSlot(capacity: nat, t: seq<real>, size: nat, v: real)
    requires IsSumTree(capacity, t) && Tight(t[capacity - 1..], size)
    requires 0.0 <= v <= t[0]
    ensures Pick(t[capacity - 1..], v) < size
            <==> v > 0.0 || DoubledTo(1, capacity) - capacity < size
  {
    if v > 0.0 {
      PickBrackets(capacity, t, v);
    } else {
      ZeroPicksLeftmost(t[capacity - 1..], v);
      LeftmostLeaf(capacity, 1);
    }
  }

  /** Concretely: with capacity 3 and one stored transition, the draw 0 selects the empty slot 1. */
  lemma ZeroDrawMissesForThree()
    ensures IsSumTree(3, [1.0, 0.0, 1.0, 0.0, 0.0][2 := 1.0])
    ensures Pick([1.0, 0.0, 0.0], 0.0) == 1
  {
    assert InOrder(3, 1) == InOrder(3, 3) + InOrder(3, 4) == [1, 2];
    assert InOrder(3, 0) == InOrder(3, 1) + InOrder(3, 2) == [1, 2, 0];
    ZeroPicksLeftmost([1.0, 0.0, 0.0], 0.0);
    var t := [1.0, 0.0, 1.0, 0.0, 0.0];
    assert Owes(t, 0, 0.0) && Owes(t, 1, 0.0);
  }

  /** A uniform draw from [low, high), given the fraction u in [0, 1). */
  function Uniform(low: real, high: real, u: real): real {
    low + u * (high - low)
  }

  /** Draw i of n equal strata of [0, total). */
  function StratumDraw(total: real, n: nat, i: nat, u: real): real
    requires n >= 1
  {
    var segment := total / (n as real);
    Uniform(segment * (i as real), segment * ((i + 1) as real), u)
  }

  /** A draw over the whole range. */
  function Redraw(total: real, u: real): real {
    u * total
  }

  lemma UniformInStratum(segment: real, i: real, u: real)
    ensures Uniform(segment * i, segment * (i + 1.0), u) == segment * (i + u)
  {
    StratumWidth(segment, i, u);
    UniformOver(segment * i, segment * (i + 1.0), segment, u);
    hide Uniform;
  }

  lemma StratumWidth(segment: real, i: real, u: real)
    ensures segment * (i + 1.0) - segment * i == segment
    ensures segment * (i + u) == segment * i + u * segment
  {
  }

  lemma UniformOver(low: real, high: real, width: real, u: real)
    requires high - low == width
    ensures Uniform(low, high, u) == low + u * width
  {
  }

  lemma StratumDrawInRange(total: real, n: nat, i: nat, u: real)
    requires n >= 1 && i < n && 0.0 <= u < 1.0 && total >= 0.0
    ensures 0.0 <= StratumDraw(total, n, i, u) <= total
    ensures total > 0.0 && (i > 0 || u > 0.0) ==> StratumDraw(total, n, i, u) > 0.0
  {
    var segment := total / (n as real);
    QuotientsOrdered(0.0, total, n as real);
    if total > 0.0 {
      QuotientsOrdered(total, total, n as real);
    }
    assert segment * (n as real) == total;
    UniformInStratum(segment, i as real, u);
    var at := i as real + u;
    assert StratumDraw(total, n, i, u) == at * segment;
    hide StratumDraw, Uniform;
    ScaleMonotone(0.0, at, segment);
    ScaleMonotone(at, n as real, segment);
    if total > 0.0 && (i > 0 || u > 0.0) {
      assert at > 0.0 && segment > 0.0;
    }
  }

  /** Later strata never select an earlier leaf (in left-to-right order). */
  lemma StrataAscend(leaves: seq<real>, n: nat, i: nat, j: nat, u: real, w: real)
    requires leaves != [] && NonNegative(leaves)
    requires i < j < n && 0.0 <= u < 1.0 && 0.0 <= w < 1.0
    ensures PickPosition(leaves, StratumDraw(Sum(leaves), n, i, u))
            <= PickPosition(leaves, StratumDraw(Sum(leaves), n, j, w))
  {
    StratumOrder(Sum(leaves), n, i, j, u, w);
    hide StratumDraw, Sum, Weights, InOrder, Scan;
    ScanMonotone(Weights(leaves, InOrder(|leaves|, 0)),
                 StratumDraw(Sum(leaves), n, i, u), StratumDraw(Sum(leaves), n, j, w));
  }

  lemma StratumOrder(total: real, n: nat, i: nat, j: nat, u: real, w: real)
    requires total >= 0.0 && i < j < n && 0.0 <= u < 1.0 && 0.0 <= w < 1.0
    ensures StratumDraw(total, n, i, u) <= StratumDraw(total, n, j, w)
  {
    var segment := total / (n as real);
    QuotientsOrdered(0.0, total, n as real);
    UniformInStratum(segment, i as real, u);
    UniformInStratum(segment, j as real, w);
    ScaleMonotone(i as real + u, j as real + w, segment);
  }

  /** Stratum i of n is [total * i / n, total * (i + 1) / n), and its draw moves through it evenly. */
  lemma StratumIs(total: real, n: nat, i: nat, u: real, w: real)
    requires total > 0.0 && i < n && 0.0 <= u < 1.0
    ensures total * (i as real) / (n as real) <= StratumDraw(total, n, i, u) < total * ((i + 1) as real) / (n as real)
    ensures StratumDraw(total, n, i, w) - StratumDraw(total, n, i, u) == Times(w - u, Quotient(total, n as real))
  {
    hide StratumDraw, Times;
    var width := Quotient(total, n as real);
    QuotientMonotone(total, total, n as real);
    PositiveQuotient(total, n as real);
    hide Quotient;
    DrawIs(total, n, i, u);
    DrawIs(total, n, i, w);
    ShareOf(total, n, i as real);
    ShareOf(total, n, (i + 1) as real);
    assert (i + 1) as real == i as real + 1.0;
    WithinWidth(width, i as real, u, w);
  }

  lemma PositiveQuotient(a: real, d: real)
    requires a > 0.0 && d > 0.0
    ensures Quotient(a, d) > 0.0
  {
    QuotientsOrdered(a, a, d);
  }

  lemma WithinWidth(width: real, i: real, u: real, w: real)
    requires width > 0.0 && 0.0 <= u < 1.0
    ensures Times(width, i) <= Times(width, i + u) < Times(width, i + 1.0)
    ensures Times(width, i + w) - Times(width, i + u) == Times(w - u, width)
  {
    ScaleMonotone(0.0, u, width);
    ScaleMonotone(1.0 - u, 1.0 - u, width);
    assert width * (i + u) == width * i + u * width;
    assert width * (i + 1.0) == width * i + width;
    assert (1.0 - u) * width == width - u * width;
    assert width * (i + w) == width * i + w * width;
    assert (w - u) * width == w * width - u * width;
  }

  lemma DrawIs(total: real, n: nat, i: nat, u: real)
    requires n >= 1
    ensures StratumDraw(total, n, i, u) == Times(Quotient(total, n as real), i as real + u)
  {
    UniformInStratum(total / (n as real), i as real, u);
    assert (i + 1) as real == i as real + 1.0;
  }

  lemma ShareOf(total: real, n: nat, x: real)
    requires n >= 1
    ensures total * x / (n as real) == Times(Quotient(total, n as real), x)
  {
    QuotientIsProduct(total * x, n as real);
    QuotientIsProduct(total, n as real);
    assert total * x * (1.0 / (n as real)) == total * (1.0 / (n as real)) * x;
  }

  /** The strata share out the whole range: every number below the total is the draw of exactly one stratum. */
  lemma StrataShareRange(total: real, n: nat, v: real) returns (i: nat, u: real)
    requires n >= 1 && 0.0 <= v < total
    ensures i < n && 0.0 <= u < 1.0 && StratumDraw(total, n, i, u) == v
    ensures forall j: nat, w: real | j < n && 0.0 <= w < 1.0 && StratumDraw(total, n, j, w) == v :: j == i && w == u
  {
    hide StratumDraw, Times, Quotient;
    var width := Quotient(total, n as real);
    PositiveQuotient(total, n as real);
    QuotientTimes(total, n as real);
    var at := Quotient(v, width);
    QuotientTimes(v, width);
    QuotientTimes(n as real, width);
    TimesDistributes(n as real, 0.0, width);
    TimesDistributes(at, 0.0, width);
    QuotientStrict(v, total, width);
    i := at.Floor;
    u := at - i as real;
    DrawIs(total, n, i, u);
    forall j: nat, w: real | j < n && 0.0 <= w < 1.0 && StratumDraw(total, n, j, w) == v ensures j == i && w == u {
      DrawIs(total, n, j, w);
      EqualFactors(width, j as real + w, at);
      assert at.Floor == j;
    }
  }

  lemma QuotientStrict(v: real, total: real, d: real)
    requires 0.0 <= v < total && d > 0.0
    ensures 0.0 <= Quotient(v, d) < Quotient(total, d)
  {
    QuotientIsProduct(v, d);
    QuotientIsProduct(total, d);
    ScaleMonotone(0.0, v, 1.0 / d);
    ScaleMonotone(total - v, total - v, 1.0 / d);
    assert (total - v) * (1.0 / d) == total * (1.0 / d) - v * (1.0 / d);
  }

  lemma EqualFactors(width: real, a: real, b: real)
    requires width > 0.0 && Times(width, a) == Times(width, b)
    ensures a == b
  {
    assert width * (a - b) == 0.0;
  }

  /** A redraw goes over the whole range in the same even way. */
  lemma RedrawIsStratum(total: real, u: real)
    ensures Redraw(total, u) == StratumDraw(total, 1, 0, u)
  {
    DrawIs(total, 1, 0, u);
    assert Quotient(total, 1.0) == total;
  }

  /**
   A whole batch goes through without a single redraw whenever something is stored and the first
   draw is positive (or the leftmost slot is filled).
   */
  lemma NoRedrawNeeded(capacity: nat, t: seq<real>, size: nat, draws: seq<real>)
    requires IsSumTree(capacity, t)
    requires var leaves := t[capacity - 1..]; Tight(leaves, size) && Prioritised(leaves, size)
    requires size >= 1 && draws != [] && forall i | 0 <= i < |draws| :: 0.0 <= draws[i] < 1.0
    requires draws[0] > 0.0 || DoubledTo(1, capacity) - capacity < size
    ensures var leaves := t[capacity - 1..];
            forall i | 0 <= i < |draws| ::
              Pick(leaves, StratumDraw(Sum(leaves), |draws|, i, draws[i])) < size
  {
    var leaves := t[capacity - 1..];
    RootIsTotal(capacity, t);
    WeightBelowSum(leaves, 0);
    assert leaves[0] > 0.0;
    forall i | 0 <= i < |draws|
      ensures Pick(leaves, StratumDraw(Sum(leaves), |draws|, i, draws[i])) < size
    {
      StratumDrawInRange(Sum(leaves), |draws|, i, draws[i]);
      DrawHitsFilledSlot(capacity, t, size, StratumDraw(Sum(leaves), |draws|, i, draws[i]));
    }
  }

  // ---- importance-sampling weights ----

  function RawWeight(pow: (real, real) -> real, size: nat, beta: real, priority: real, total: real): real
    requires total > 0.0
  {
    pow(size as real * (priority / total), -beta)
  }

  lemma RawWeightFalls(pow: (real, real) -> real, size: nat, beta: real, p: real, q: real, total: real)
    requires PowLaws(pow) && size >= 1 && beta >= 0.0 && 0.0 < p <= q && total > 0.0
    ensures 0.0 < RawWeight(pow, size, beta, q, total) <= RawWeight(pow, size, beta, p, total)
  {
    var s := size as real;
    QuotientsOrdered(p, q, total);
    ScaleMonotone(p / total, q / total, s);
    assert 0.0 < s * (p / total) <= s * (q / total);
  }

  /** Weights relative to the weight of the least likely sample. */
  function ImportanceWeights(pow: (real, real) -> real, size: nat, beta: real,
                             priorities: seq<real>, total: real): (weights: seq<real>)
    requires PowLaws(pow) && size >= 1 && total > 0.0
    requires priorities != [] && forall k | 0 <= k < |priorities| :: priorities[k] > 0.0
    ensures |weights| == |priorities|
  {
    RawWeightPositive(pow, size, beta, Min(priorities), total);
    seq(|priorities|, k requires 0 <= k < |priorities| =>
      Ratio(RawWeight(pow, size, beta, priorities[k], total), RawWeight(pow, size, beta, Min(priorities), total)))
  }

  function Ratio(a: real, b: real): real
    requires b > 0.0
  {
    a / b
  }

  /** Every weight is in (0, 1], some weight is 1, and likelier samples weigh no more. */
  lemma WeightsNormalised(pow: (real, real) -> real, size: nat, beta: real, priorities: seq<real>, total: real)
    requires PowLaws(pow) && size >= 1 && beta >= 0.0 && total > 0.0
    requires priorities != [] && forall k | 0 <= k < |priorities| :: priorities[k] > 0.0
    ensures var weights := ImportanceWeights(pow, size, beta, priorities, total);
            && (forall k | 0 <= k < |weights| :: 0.0 < weights[k] <= 1.0)
            && (exists k | 0 <= k < |weights| :: weights[k] == 1.0)
            && (forall i, j | 0 <= i < |weights| && 0 <= j < |weights| && priorities[i] <= priorities[j] ::
                  weights[j] <= weights[i])
  {
    var weights := ImportanceWeights(pow, size, beta, priorities, total);
    var top := RawWeight(pow, size, beta, Min(priorities), total);
    hide RawWeight, PowLaws, Ratio;
    RawWeightPositive(pow, size, beta, Min(priorities), total);
    assert forall k | 0 <= k < |weights| ::
        weights[k] == Ratio(RawWeight(pow, size, beta, priorities[k], total), top);
    forall k | 0 <= k < |weights| ensures 0.0 < weights[k] <= 1.0 {
      RawWeightFalls(pow, size, beta, Min(priorities), priorities[k], total);
      RatiosOrdered(RawWeight(pow, size, beta, priorities[k], total), top, top);
    }
    forall i, j | 0 <= i < |weights| && 0 <= j < |weights| && priorities[i] <= priorities[j]
      ensures weights[j] <= weights[i]
    {
      RawWeightFalls(pow, size, beta, priorities[i], priorities[j], total);
      RatiosOrdered(RawWeight(pow, size, beta, priorities[j], total),
                       RawWeight(pow, size, beta, priorities[i], total), top);
    }
    var least :| 0 <= least < |priorities| && priorities[least] == Min(priorities);
    RawWeightFalls(pow, size, beta, Min(priorities), Min(priorities), total);
    RatiosOrdered(top, top, top);
    assert weights[least] == 1.0;
  }

  /** How often a slot of priority p is expected among as many draws as there are slots in use. */
  function ExpectedDraws(size: nat, p: real, total: real): real
    requires total > 0.0
  {
    size as real * (p / total)
  }

  /** The weights of samples with these priorities: each to the power -beta, relative to the least of them. */
  ghost predicate AreImportanceWeights(pow: (real, real) -> real, size: nat, beta: real, priorities: seq<real>,
                                       total: real, weights: seq<real>) {
    && |weights| == |priorities| && total > 0.0
    && exists least | 0 <= least < |priorities| ::
         && (forall k | 0 <= k < |priorities| :: priorities[least] <= priorities[k])
         && (forall k | 0 <= k < |priorities| ::
               Times(weights[k], pow(ExpectedDraws(size, priorities[least], total), -beta))
               == pow(ExpectedDraws(size, priorities[k], total), -beta))
  }

  lemma WeightsAreImportance(pow: (real, real) -> real, size: nat, beta: real, priorities: seq<real>, total: real)
    requires PowLaws(pow) && size >= 1 && total > 0.0
    requires priorities != [] && forall k | 0 <= k < |priorities| :: priorities[k] > 0.0
    ensures AreImportanceWeights(pow, size, beta, priorities, total,
                                 ImportanceWeights(pow, size, beta, priorities, total))
  {
    hide PowLaws, RawWeight, Ratio, Times, ExpectedDraws;
    var least :| 0 <= least < |priorities| && priorities[least] == Min(priorities);
    RawWeightPositive(pow, size, beta, Min(priorities), total);
    RawWeightIs(pow, size, beta, priorities[least], total);
    var weights := ImportanceWeights(pow, size, beta, priorities, total);
    forall k | 0 <= k < |priorities|
      ensures Times(weights[k], pow(ExpectedDraws(size, priorities[least], total), -beta))
              == pow(ExpectedDraws(size, priorities[k], total), -beta)
    {
      RawWeightIs(pow, size, beta, priorities[k], total);
      RatioTimes(RawWeight(pow, size, beta, priorities[k], total), RawWeight(pow, size, beta, Min(priorities), total));
    }
    assert forall k | 0 <= k < |priorities| :: priorities[least] <= priorities[k];
  }

  /** What a batch needs of its weights. */
  lemma WeightsFit(pow: (real, real) -> real, size: nat, beta: real, priorities: seq<real>, total: real)
    requires PowLaws(pow) && size >= 1 && total > 0.0
    requires priorities != [] && forall k | 0 <= k < |priorities| :: priorities[k] > 0.0
    ensures var weights := ImportanceWeights(pow, size, beta, priorities, total);
            && AreImportanceWeights(pow, size, beta, priorities, total, weights)
            && (beta >= 0.0 ==>
                  && (forall k | 0 <= k < |weights| :: 0.0 < weights[k] <= 1.0)
                  && (exists k | 0 <= k < |weights| :: weights[k] == 1.0)
                  && (forall i, j | 0 <= i < |weights| && 0 <= j < |weights| && priorities[i] <= priorities[j] ::
                        weights[j] <= weights[i]))
  {
    hide AreImportanceWeights, PowLaws;
    WeightsAreImportance(pow, size, beta, priorities, total);
    if beta >= 0.0 {
      WeightsNormalised(pow, size, beta, priorities, total);
    }
  }

  lemma RawWeightIs(pow: (real, real) -> real, size: nat, beta: real, p: real, total: real)
    requires total > 0.0
    ensures RawWeight(pow, size, beta, p, total) == pow(ExpectedDraws(size, p, total), -beta)
  {
  }

  lemma RatioTimes(a: real, b: real)
    requires b > 0.0
    ensures Times(Ratio(a, b), b) == a
  {
  }

  lemma RatiosOrdered(a: real, b: real, d: real)
    requires 0.0 < a <= b && d > 0.0
    ensures 0.0 < Ratio(a, d) <= Ratio(b, d)
    ensures b == d ==> Ratio(b, d) == 1.0
  {
    QuotientsOrdered(a, b, d);
    assert d / d == 1.0;
  }

  lemma RawWeightPositive(pow: (real, real) -> real, size: nat, beta: real, p: real, total: real)
    requires PowLaws(pow) && size >= 1 && p > 0.0 && total > 0.0
    ensures RawWeight(pow, size, beta, p, total) > 0.0
  {
    QuotientsOrdered(p, p, total);
    ScaleMonotone(p / total, p / total, size as real);
  }

  // ---- a batch of new priorities ----

  function Shorter(a: nat, b: nat): nat {
    if a <= b then a else b
  }

  /** Writes ps[k] to slot indices[k], for k = 0, 1, ... as far as both lists go. */
  function Repriced(leaves: seq<real>, indices: seq<nat>, ps: seq<real>): (r: seq<real>)
    requires forall k | 0 <= k < |indices| :: indices[k] < |leaves|
    ensures |r| == |leaves|
    decreases |indices|
  {
    if indices == [] || ps == [] then leaves
    else Repriced(leaves[indices[0] := ps[0]], indices[1..], ps[1..])
  }

  lemma RepriceOne(leaves: seq<real>, size: nat, i: nat, priority: real)
    requires Prioritised(leaves, size) && i < |leaves| && priority > 0.0
    ensures Prioritised(leaves[i := priority], size)
  {
  }

  function Largest(m: real, ps: seq<real>): (r: real)
    ensures m <= r && forall k | 0 <= k < |ps| :: ps[k] <= r
    ensures r == m || r in ps
    decreases |ps|
  {
    if ps == [] then m else Largest(if ps[0] > m then ps[0] else m, ps[1..])
  }

  /** For a repeated index the last entry stands; slots not named keep their priority. */
  lemma {:induction false} LastPriorityStands(leaves: seq<real>, indices: seq<nat>, ps: seq<real>, i: nat)
    requires forall k | 0 <= k < |indices| :: indices[k] < |leaves|
    requires i < |leaves|
    ensures var n := Shorter(|indices|, |ps|);
            && (i !in indices[..n] ==> Repriced(leaves, indices, ps)[i] == leaves[i])
            && (forall k | 0 <= k < n && indices[k] == i && i !in indices[k + 1..n] ::
                  Repriced(leaves, indices, ps)[i] == ps[k])
    decreases |indices|
  {
    hide Repriced;
    RepricedUnfolds(leaves, indices, ps);
    var n := Shorter(|indices|, |ps|);
    if n > 0 {
      var rest, after := indices[1..], leaves[indices[0] := ps[0]];
      LastPriorityStands(after, rest, ps[1..], i);
      assert indices[..n] == [indices[0]] + rest[..n - 1];
      forall k | 0 <= k < n && indices[k] == i && i !in indices[k + 1..n]
        ensures Repriced(leaves, indices, ps)[i] == ps[k]
      {
        if k > 0 {
          assert indices[k + 1..n] == rest[k..n - 1] && indices[k] == rest[k - 1] && ps[k] == ps[1..][k - 1];
        } else {
          assert indices[1..n] == rest[..n - 1];
        }
      }
    }
  }

  lemma RepricedUnfolds(leaves: seq<real>, indices: seq<nat>, ps: seq<real>)
    requires forall k | 0 <= k < |indices| :: indices[k] < |leaves|
    ensures Repriced(leaves, indices, ps)
            == if indices == [] || ps == [] then leaves
               else Repriced(leaves[indices[0] := ps[0]], indices[1..], ps[1..])
  {
  }

  /** Positive priorities keep the empty slots at priority 0 exactly if no empty slot is named. */
  lemma {:induction false} TightUnlessEmptySlotNamed(leaves: seq<real>, indices: seq<nat>, ps: seq<real>, size: nat)
    requires Tight(leaves, size)
    requires forall k | 0 <= k < |indices| :: indices[k] < |leaves|
    requires forall k | 0 <= k < |ps| :: ps[k] > 0.0
    ensures Tight(Repriced(leaves, indices, ps), size)
            <==> forall k | 0 <= k < Shorter(|indices|, |ps|) :: indices[k] < size
  {
    var n, after := Shorter(|indices|, |ps|), Repriced(leaves, indices, ps);
    forall i | 0 <= i < |leaves|
      ensures if i in indices[..n] then after[i] > 0.0 else after[i] == leaves[i]
    {
      LastPriorityStands(leaves, indices, ps, i);
      if i in indices[..n] {
        var k := LastOccurrence(indices[..n], i);
        assert indices[..n][k + 1..] == indices[k + 1..n];
      }
    }
    forall k | 0 <= k < n ensures indices[k] in indices[..n] {
      assert indices[..n][k] == indices[k];
    }
  }

  lemma {:induction false} LastOccurrence(xs: seq<nat>, x: nat) returns (k: nat)
    requires x in xs
    ensures k < |xs| && xs[k] == x && x !in xs[k + 1..]
  {
    if x in xs[1..] {
      var j := LastOccurrence(xs[1..], x);
      k := j + 1;
      assert xs[k + 1..] == xs[1..][j + 1..];
    } else {
      k := 0;
    }
  }

  function PrioritiesAt(leaves: seq<real>, indices: seq<nat>): (priorities: seq<real>)
    requires forall k | 0 <= k < |indices| :: indices[k] < |leaves|
    ensures |priorities| == |indices| && forall k | 0 <= k < |indices| :: priorities[k] == leaves[indices[k]]
  {
    seq(|indices|, k requires 0 <= k < |indices| => leaves[indices[k]])
  }

  datatype SampleResult<T> =
    | Batch(transitions: seq<T>, indices: seq<nat>, weights: seq<real>)
    | EmptyBatch       // a batch of size 0: taking the least priority of no samples fails
    | NoFilledSlot     // the generator's record ends while every draw so far met an empty slot

  class PrioritizedReplayBuffer<T> {
    const capacity: nat
    const alpha: real
    const betaStart: real
    const epsilon: real
    const pow: (real, real) -> real
    const tree: SumTree
    const data: array<Option<T>>
    var beta: real
    var maxPriority: real
    ghost var history: seq<T>   // every transition ever added

    ghost predicate Valid()
      reads this, tree, tree.tree, data
    {
      && PowLaws(pow) && epsilon > 0.0 && maxPriority > 0.0
      && tree.Valid()
      && tree.capacity == capacity == data.Length
      && tree.dataPointer == Cursor(|history|, capacity)
      && tree.size == |Recent(history, capacity)|
      && Prioritised(tree.Leaves(), tree.size)
      && Stores(data[..], Slots(history, capacity))
    }

    constructor (capacity: nat, alpha: real, betaStart: real, epsilon: real, pow: (real, real) -> real)
      requires capacity >= 1 && epsilon > 0.0 && PowLaws(pow)
      ensures Valid() && fresh(tree) && fresh(tree.tree) && fresh(data)
      ensures history == [] && Tight(tree.Leaves(), tree.size)
      ensures this.capacity == capacity && beta == betaStart && this.betaStart == betaStart
      ensures this.alpha == alpha && this.epsilon == epsilon && this.pow == pow && maxPriority == 1.0
    {
      this.capacity, this.alpha, this.betaStart, this.epsilon := capacity, alpha, betaStart, epsilon;
      this.pow, beta, maxPriority := pow, betaStart, 1.0;
      tree := new SumTree(capacity);
      data := new Option<T>[capacity](_ => None);
      history := [];
    }

    /** The priority given to a temporal-difference error. */
    function Priority(tdError: real): (priority: real)
      ensures tdError >= 0.0 ==> priority == pow(tdError + epsilon, alpha)
      ensures tdError < 0.0 ==> priority == pow(-tdError + epsilon, alpha)
    {
      pow(Abs(tdError) + epsilon, alpha)
    }

    method Add(transition: T, tdError: Option<real>)
      requires Valid()
      modifies this`history, tree, tree.tree, data
      ensures Valid() && history == old(history) + [transition]
      ensures tree.Leaves() == old(tree.Leaves())[Cursor(old(|history|), capacity) :=
                                 if tdError.Some? then Priority(tdError.value) else maxPriority]
      ensures tdError.Some? ==>
                tree.Leaves()[Cursor(old(|history|), capacity)]
                == pow((if tdError.value >= 0.0 then tdError.value else -tdError.value) + epsilon, alpha)
      ensures old(Tight(tree.Leaves(), tree.size)) ==> Tight(tree.Leaves(), tree.size)
    {
      var priority := if tdError.Some? then Priority(tdError.value) else maxPriority;
      StoreOne(data[..], tree.Leaves(), history, capacity, transition, priority);
      hide IsSumTree, Slots, Recent, PowLaws, Cursor, Stores, Prioritised, Tight;
      var idx := tree.Add(priority);
      data[idx] := Some(transition);
      history := history + [transition];
    }

    /** The priorities that a batch of temporal-difference errors stands for. */
    function Priorities(tdErrors: seq<real>): (ps: seq<real>)
      ensures |ps| == |tdErrors|
      ensures forall k | 0 <= k < |ps| :: ps[k] == Priority(tdErrors[k])
    {
      seq(|tdErrors|, k requires 0 <= k < |tdErrors| => Priority(tdErrors[k]))
    }

    /** New priorities for the given slots, one after the other. */
    method UpdatePriorities(indices: seq<nat>, tdErrors: seq<real>)
      requires Valid()
      requires forall k | 0 <= k < |indices| :: indices[k] < capacity
      modifies this`maxPriority, tree.tree
      ensures Valid()
      ensures tree.Leaves() == Repriced(old(tree.Leaves()), indices, Priorities(tdErrors))
      ensures maxPriority == Largest(old(maxPriority), Priorities(tdErrors)[..Shorter(|indices|, |tdErrors|)])
    {
      hide IsSumTree, Slots, Recent, PowLaws, Cursor, Stores, Prioritised, Priority, Priorities;
      ghost var ps := Priorities(tdErrors);
      assert forall k | 0 <= k < |ps| :: ps[k] > 0.0 by {
        PrioritiesPositive(tdErrors);
      }
      var n := Shorter(|indices|, |tdErrors|);
      var k := 0;
      while k < n
        invariant k <= n && Valid()
        invariant Repriced(tree.Leaves(), indices[k..], ps[k..]) == Repriced(old(tree.Leaves()), indices, ps)
        invariant Largest(maxPriority, ps[k..n]) == Largest(old(maxPriority), ps[..n])
      {
        var priority := Priority(tdErrors[k]);
        maxPriority := if priority > maxPriority then priority else maxPriority;
        RepriceOne(tree.Leaves(), tree.size, indices[k], priority);
        tree.Update(indices[k], priority);
        assert indices[k..][1..] == indices[k + 1..] && ps[k..][1..] == ps[k + 1..];
        assert ps[k..n][1..] == ps[k + 1..n];
        k := k + 1;
      }
    }

    lemma PrioritiesPositive(tdErrors: seq<real>)
      requires PowLaws(pow) && epsilon > 0.0
      ensures forall k | 0 <= k < |tdErrors| :: Priority(tdErrors[k]) > 0.0
    {
    }

    /** Anneals the importance-sampling exponent towards 1. */
    method AnnealBeta(fraction: real)
      modifies this`beta
      ensures beta == betaStart + fraction * (1.0 - betaStart)
      ensures 0.0 <= betaStart <= 1.0 && 0.0 <= fraction <= 1.0 ==> betaStart <= beta <= 1.0
    {
      beta := betaStart + fraction * (1.0 - betaStart);
      if 0.0 <= betaStart <= 1.0 && 0.0 <= fraction <= 1.0 {
        ScaleMonotone(0.0, fraction, 1.0 - betaStart);
        ScaleMonotone(fraction, 1.0, 1.0 - betaStart);
      }
    }

    /** Takes the slot for `value`, redrawing over the whole range while the slot is empty. */
    method FilledSlot(value: real, redraws: seq<real>) returns (slot: Option<nat>, rest: seq<real>)
      requires Valid()
      ensures slot.Some? ==> slot.value < tree.size
      ensures Pick(tree.Leaves(), value) < tree.size ==> slot == Some(Pick(tree.Leaves(), value)) && rest == redraws
      ensures Pick(tree.Leaves(), value) >= tree.size && slot.Some? ==>
                exists k | 0 <= k < |redraws| ::
                  slot.value == Pick(tree.Leaves(), Redraw(Sum(tree.Leaves()), redraws[k])) && rest == redraws[k + 1..]
      ensures slot.None? ==>
                forall k | 0 <= k < |redraws| ::
                  Pick(tree.Leaves(), Redraw(Sum(tree.Leaves()), redraws[k])) >= tree.size
    {
      hide Pick, IsSumTree, Slots, Recent, Sum, PowLaws, Redraw, StratumDraw;
      ghost var leaves, size := tree.Leaves(), tree.size;
      var idx := tree.Sample(value);
      rest := redraws;
      ghost var k := 0;
      while data[idx].None?
        invariant Valid() && tree.Leaves() == leaves && tree.size == size
        invariant idx < capacity
        invariant k <= |redraws| && rest == redraws[k..]
        invariant idx == Pick(leaves, if k == 0 then value else Redraw(Sum(leaves), redraws[k - 1]))
        invariant k > 0 ==> Pick(leaves, value) >= size
        invariant forall j | 0 <= j < k - 1 :: Pick(leaves, Redraw(Sum(leaves), redraws[j])) >= size
        decreases |rest|
      {
        assert idx >= size;
        if rest == [] {
          return None, rest;
        }
        var total := tree.Total();
        idx := tree.Sample(Redraw(total, rest[0]));
        rest := rest[1..];
        k := k + 1;
      }
      slot := Some(idx);
    }

    method Sample(batchSize: nat, draws: seq<real>, redraws: seq<real>) returns (result: SampleResult<T>)
      requires Valid()
      requires |draws| == batchSize && forall i | 0 <= i < batchSize :: 0.0 <= draws[i] < 1.0
      ensures result.EmptyBatch? <==> batchSize == 0
      ensures batchSize > 0 && tree.size == 0 ==> result.NoFilledSlot?
      ensures result.Batch? ==>
                && |result.transitions| == |result.indices| == |result.weights| == batchSize
                && forall i | 0 <= i < batchSize ::
                     && result.indices[i] < tree.size
                     && result.transitions[i] == Slots(history, capacity)[result.indices[i]]
                     && (Pick(tree.Leaves(), StratumDraw(Sum(tree.Leaves()), batchSize, i, draws[i])) < tree.size
                         ==> result.indices[i]
                             == Pick(tree.Leaves(), StratumDraw(Sum(tree.Leaves()), batchSize, i, draws[i])))
      ensures result.Batch? ==>
                && AreImportanceWeights(pow, tree.size, beta, PrioritiesAt(tree.Leaves(), result.indices),
                                        Sum(tree.Leaves()), result.weights)
      // no redraw is needed when every stratum's own draw finds a filled slot
      ensures batchSize > 0 && (forall i | 0 <= i < batchSize ::
                Pick(tree.Leaves(), StratumDraw(Sum(tree.Leaves()), batchSize, i, draws[i])) < tree.size)
              ==> result.Batch?
      ensures result.Batch? && beta >= 0.0 ==>
                && (forall i | 0 <= i < batchSize :: 0.0 < result.weights[i] <= 1.0)
                && (exists i | 0 <= i < batchSize :: result.weights[i] == 1.0)
                && (forall i, j | 0 <= i < batchSize && 0 <= j < batchSize &&
                      tree.Leaves()[result.indices[i]] <= tree.Leaves()[result.indices[j]] ::
                      result.weights[j] <= result.weights[i])
    {
      hide Pick, IsSumTree, Slots, Recent, Sum, PowLaws, Redraw, StratumDraw, AreImportanceWeights;
      if batchSize == 0 {
        return EmptyBatch;
      }
      ghost var leaves, size := tree.Leaves(), tree.size;
      var indices: seq<nat>, priorities: seq<real>, transitions: seq<T>, rest := [], [], [], redraws;
      var total := tree.Total();
      var i := 0;
      while i < batchSize
        invariant Valid() && tree.Leaves() == leaves && tree.size == size
        invariant i <= batchSize && |indices| == |priorities| == |transitions| == i
        invariant forall k | 0 <= k < i ::
          && indices[k] < size && priorities[k] == leaves[indices[k]]
          && transitions[k] == Slots(history, capacity)[indices[k]]
        invariant forall k | 0 <= k < i && Pick(leaves, StratumDraw(total, batchSize, k, draws[k])) < size ::
          indices[k] == Pick(leaves, StratumDraw(total, batchSize, k, draws[k]))
      {
        var slot;
        slot, rest := FilledSlot(StratumDraw(total, batchSize, i, draws[i]), rest);
        if slot.None? {
          return NoFilledSlot;
        }
        indices := indices + [slot.value];
        priorities := priorities + [tree.tree[slot.value + tree.capacity - 1]];
        transitions := transitions + [data[slot.value].value];
        i := i + 1;
      }
      WeightBelowSum(leaves, indices[0]);
      var weights := ImportanceWeights(pow, tree.size, beta, priorities, total);
      assert priorities == PrioritiesAt(leaves, indices);
      WeightsFit(pow, tree.size, beta, priorities, total);
      result := Batch(transitions, indices, weights);
    }
  }
}
