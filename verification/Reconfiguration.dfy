/**
 Epoch-boundary reconfiguration (experiments/run_e2e_experiments.py, ReconfigurationEngine): nodes
 move from a little-threatened instance to an under-provisioned one.

 numpy's argsort is a parameter: an order of the instances with non-decreasing fault estimates.
 */
module Reconfiguration {

  /** Python's int(): truncation towards zero. */
  function Truncate(x: real): int {
    if x >= 0.0 then x.Floor else -((-x).Floor)
  }

  function Total(sizes: seq<int>): int {
    if sizes == [] then 0 else sizes[0] + Total(sizes[1..])
  }

  /** The nodes an instance needs for its estimated fault fraction. */
  function Needed(f: real, n: int): int {
    Truncate(3.0 * f * (n as real) + 1.0)
  }

  /** The nodes a donor has to keep for its own estimate. */
  function Reserve(f: real, n: int): int {
    Truncate(3.0 * f * (n as real) + 2.0)
  }

  /** The nodes a donor can do without. */
  function Spare(f: real, n: int): int {
    n - Reserve(f, n)
  }

  /** Instances by non-decreasing fault estimate, each at most once, none missing. */
  ghost predicate IsArgsort(order: seq<nat>, fHat: seq<real>) {
    && (forall k | 0 <= k < |order| :: order[k] < |fHat|)
    && (forall i, j | 0 <= i < j < |order| :: order[i] != order[j] && fHat[order[i]] <= fHat[order[j]])
    && (forall d | 0 <= d < |fHat| :: d in order)
  }

  predicate Eligible(sizes: seq<int>, fHat: seq<real>, target: nat, d: nat)
    requires |sizes| == |fHat| && d < |sizes|
  {
    d != target && Spare(fHat[d], sizes[d]) >= 2
  }

  /** What one successful reconfiguration promises. */
  ghost predicate Moved(sizes: seq<int>, fHat: seq<real>, target: nat, donor: nat, sizes': seq<int>)
    requires |sizes| == |fHat| && target < |sizes| && donor < |sizes|
  {
    && |sizes'| == |sizes|
    && Eligible(sizes, fHat, target, donor)
    // no eligible instance is threatened less
    && (forall d: nat | d < |sizes| && Eligible(sizes, fHat, target, d) :: fHat[donor] <= fHat[d])
    // the target grows, but not past its need
    && sizes[target] < sizes'[target] <= Needed(fHat[target], sizes[target])
    // the donor keeps what its own estimate calls for, and more
    && sizes'[donor] < sizes[donor]
    && sizes'[donor] >= Reserve(fHat[donor], sizes[donor]) + 1
    // nobody else is touched and no node is lost
    && (forall d | 0 <= d < |sizes| && d != target && d != donor :: sizes'[d] == sizes[d])
    && sizes'[target] - sizes[target] == sizes[donor] - sizes'[donor]
    // half of what the donor can spare moves, or what the target needs, if that is less
    && (|| sizes[donor] - sizes'[donor] == Spare(fHat[donor], sizes[donor]) / 2
        || sizes'[target] == Needed(fHat[target], sizes[target]))
    && sizes[donor] - sizes'[donor] <= Spare(fHat[donor], sizes[donor]) / 2
  }

  class ReconfigurationEngine {
    const cooldown: int
    var lastReconfigEpoch: int
    var totalReconfigs: nat

    ghost predicate Valid()
      reads this
    {
      RateHolds(cooldown, lastReconfigEpoch, totalReconfigs)
    }

    constructor (cooldown: int)
      ensures Valid() && this.cooldown == cooldown && lastReconfigEpoch == -cooldown && totalReconfigs == 0
    {
      this.cooldown := cooldown;
      lastReconfigEpoch, totalReconfigs := -cooldown, 0;
    }

    method Execute(epoch: int, sizes: seq<int>, fHat: seq<real>, target: nat, order: seq<nat>)
      returns (sizes': seq<int>, moved: bool, ghost donor: nat)
      requires Valid() && |sizes| == |fHat| && target < |sizes| && IsArgsort(order, fHat)
      modifies this
      ensures Valid()
      ensures moved <==> && epoch - old(lastReconfigEpoch) >= cooldown
                         && sizes[target] < Needed(fHat[target], sizes[target])
                         && exists d: nat | d < |sizes| :: Eligible(sizes, fHat, target, d)
      ensures moved ==> donor < |sizes| && Moved(sizes, fHat, target, donor, sizes')
      ensures moved ==> lastReconfigEpoch == epoch && totalReconfigs == old(totalReconfigs) + 1
      ensures !moved ==> sizes' == sizes
      ensures !moved ==> lastReconfigEpoch == old(lastReconfigEpoch) && totalReconfigs == old(totalReconfigs)
      ensures Total(sizes') == Total(sizes)
    {
      hide Needed, Reserve, Truncate, RateHolds, Moved;
      sizes', moved, donor := sizes, false, 0;
      if epoch - lastReconfigEpoch < cooldown {
        return;
      }
      var targetNeeded := Needed(fHat[target], sizes[target]);
      var current := sizes[target];
      if current >= targetNeeded {
        return;
      }
      var k := 0;
      while k < |order|
        invariant k <= |order| && sizes' == sizes && !moved
        invariant forall i | 0 <= i < k :: !Eligible(sizes, fHat, target, order[i])
      {
        var d := order[k];
        if d != target {
          var spare := Spare(fHat[d], sizes[d]);
          if spare >= 2 {
            var transfer := if spare / 2 <= targetNeeded - current then spare / 2 else targetNeeded - current;
            if transfer > 0 {
              sizes' := sizes'[d := sizes'[d] - transfer];
              sizes' := sizes'[target := sizes'[target] + transfer];
              moved, donor := true, d;
              TransferKeepsTotal(sizes, d, target, transfer);
              LeastThreatened(sizes, fHat, target, order, k);
              assert Eligible(sizes, fHat, target, d);
              TransferIsMove(sizes, fHat, target, d, transfer);
              break;
            }
          }
        }
        k := k + 1;
      }
      assert moved || k == |order|;
      if !moved {
        NoneEligible(sizes, fHat, target, order);
      }
      if moved {
        RateStep(cooldown, lastReconfigEpoch, totalReconfigs, epoch);
        lastReconfigEpoch := epoch;
        totalReconfigs := totalReconfigs + 1;
      }
    }
  }

  lemma TransferIsMove(sizes: seq<int>, fHat: seq<real>, target: nat, d: nat, transfer: int)
    requires |sizes| == |fHat| && target < |sizes| && d < |sizes| && Eligible(sizes, fHat, target, d)
    requires forall e: nat | e < |sizes| && Eligible(sizes, fHat, target, e) :: fHat[d] <= fHat[e]
    requires 0 < transfer <= Spare(fHat[d], sizes[d]) / 2
    requires sizes[target] + transfer <= Needed(fHat[target], sizes[target])
    requires transfer == Spare(fHat[d], sizes[d]) / 2 || sizes[target] + transfer == Needed(fHat[target], sizes[target])
    ensures Moved(sizes, fHat, target, d, sizes[d := sizes[d] - transfer][target := sizes[target] + transfer])
  {
    hide Needed, Reserve;
  }

  /** The first eligible instance of a sorted order has the least estimate of all eligible ones. */
  lemma LeastThreatened(sizes: seq<int>, fHat: seq<real>, target: nat, order: seq<nat>, k: nat)
    requires |sizes| == |fHat| && IsArgsort(order, fHat) && k < |order|
    requires forall i | 0 <= i < k :: !Eligible(sizes, fHat, target, order[i])
    ensures forall d: nat | d < |sizes| && Eligible(sizes, fHat, target, d) :: fHat[order[k]] <= fHat[d]
  {
    hide Eligible;
    forall d: nat | d < |sizes| && Eligible(sizes, fHat, target, d) ensures fHat[order[k]] <= fHat[d] {
      assert d in order;
      var i :| 0 <= i < |order| && order[i] == d;
      assert i >= k;
    }
  }

  lemma NoneEligible(sizes: seq<int>, fHat: seq<real>, target: nat, order: seq<nat>)
    requires |sizes| == |fHat| && IsArgsort(order, fHat)
    requires forall i | 0 <= i < |order| :: !Eligible(sizes, fHat, target, order[i])
    ensures forall d: nat | d < |sizes| :: !Eligible(sizes, fHat, target, d)
  {
    hide Eligible;
    forall d: nat | d < |sizes| ensures !Eligible(sizes, fHat, target, d) {
      assert d in order;
    }
  }

  lemma {:induction false} TotalUpdate(sizes: seq<int>, i: nat, x: int)
    requires i < |sizes|
    ensures Total(sizes[i := x]) == Total(sizes) - sizes[i] + x
  {
    if i > 0 {
      assert sizes[i := x][1..] == sizes[1..][i - 1 := x];
      TotalUpdate(sizes[1..], i - 1, x);
    } else {
      assert sizes[i := x][1..] == sizes[1..];
    }
  }

  lemma TransferKeepsTotal(sizes: seq<int>, from: nat, to: nat, k: int)
    requires from < |sizes| && to < |sizes| && from != to
    ensures Total(sizes[from := sizes[from] - k][to := sizes[to] + k]) == Total(sizes)
  {
    TotalUpdate(sizes, from, sizes[from] - k);
    TotalUpdate(sizes[from := sizes[from] - k], to, sizes[to] + k);
  }

  // ---- rate over any run ----

  /** All reconfigurations so far fit, cooldown by cooldown, before the last one. */
  predicate RateHolds(cooldown: int, last: int, total: nat) {
    total * cooldown <= last + cooldown
  }

  lemma RateStep(cooldown: int, last: int, total: nat, epoch: int)
    requires RateHolds(cooldown, last, total) && epoch - last >= cooldown
    ensures RateHolds(cooldown, epoch, total + 1)
  {
    assert (total + 1) * cooldown == total * cooldown + cooldown;
  }

  // ---- what instances need ----

  /** int() drops the fraction. */
  lemma TruncatesTowardsZero(x: real)
    ensures x >= 0.0 ==> 0 <= Truncate(x) && Truncate(x) as real <= x < (Truncate(x) + 1) as real
    ensures x <= 0.0 ==> Truncate(x) <= 0 && (Truncate(x) - 1) as real < x <= Truncate(x) as real
  {
  }

  /** For an estimate of f n faulty nodes: 3 f n + 1 nodes are needed, and a donor keeps one more, both rounded down. */
  lemma NeedsAreResilient(f: real, n: int)
    requires f >= 0.0 && n >= 0
    ensures var faulty := 3.0 * f * (n as real);
            && Needed(f, n) as real <= faulty + 1.0 < (Needed(f, n) + 1) as real
            && Reserve(f, n) == Needed(f, n) + 1 && Spare(f, n) == n - Needed(f, n) - 1
  {
    var faulty := 3.0 * f * (n as real);
    ProductNotNegative(f, n as real);
    hide Truncate;
    TruncatesTowardsZero(faulty + 1.0);
    TruncatesTowardsZero(faulty + 2.0);
  }

  /** Exactly who can give: every other instance that keeps at least two nodes more than it has to. */
  lemma EligibleIff(sizes: seq<int>, fHat: seq<real>, target: nat, d: nat)
    requires |sizes| == |fHat| && d < |sizes| && fHat[d] >= 0.0 && sizes[d] >= 0
    ensures Eligible(sizes, fHat, target, d)
            <==> d != target && (sizes[d] - 2) as real > 3.0 * fHat[d] * (sizes[d] as real) + 1.0
  {
    NeedsAreResilient(fHat[d], sizes[d]);
    hide Needed, Reserve;
  }

  // ---- resilience of the donor ----

  /** With an estimate in [0, 1] the donor still has more than 3 f n + 2 nodes: at least int(3 f n) + 3. */
  lemma DonorStaysResilient(sizes: seq<int>, fHat: seq<real>, target: nat, donor: nat, sizes': seq<int>)
    requires |sizes| == |fHat| && target < |sizes| && donor < |sizes|
    requires Moved(sizes, fHat, target, donor, sizes')
    requires fHat[donor] >= 0.0 && sizes[donor] >= 0
    ensures sizes'[donor] >= Truncate(3.0 * fHat[donor] * (sizes[donor] as real)) + 3
    ensures sizes'[donor] as real > 3.0 * fHat[donor] * (sizes[donor] as real) + 2.0
  {
    var x := 3.0 * fHat[donor] * (sizes[donor] as real);
    ProductNotNegative(fHat[donor], sizes[donor] as real);
    ShiftTruncated(x);
  }

  lemma ProductNotNegative(f: real, n: real)
    requires f >= 0.0 && n >= 0.0
    ensures 3.0 * f * n >= 0.0
  {
    assert f * n >= 0.0;
    assert 3.0 * f * n == 3.0 * (f * n);
  }

  lemma ShiftTruncated(x: real)
    requires x >= 0.0
    ensures Truncate(x + 2.0) == Truncate(x) + 2
    ensures (Truncate(x + 2.0) + 1) as real > x + 2.0
  {
  }
}
