/**
 The quorum guards on evictions: the pre-argmax safety mask (marl/networks/safety_guardian.py), the
 controllers' filters (experiments/sfac_facmac.py, experiments/sfac_ppo.py) and the capped fault
 estimate (src/cmd/evolvbft/adaptive_runtime.go).
 */
module EvictionSafety {
  import opened Wrappers

  function Max(a: int, b: int): int {
    if a >= b then a else b
  }

  /** The quorum size that has to remain for f faults with safety margin delta. */
  function Quorum(f: int, delta: int): int {
    3 * Max(1, f) + 1 + delta
  }

  predicate IsEvictionSafe(validators: int, faults: int, delta: int) {
    validators > 0 && validators - 1 >= Quorum(faults, delta)
  }

  // ---- runs of evictions under an explicit fault estimate ----

  /** How many validators remain when an eviction is proposed `proposals` times and each is filtered. */
  function AfterProposals(validators: int, faults: int, delta: int, proposals: nat): int {
    if proposals == 0 then validators
    else
      var n := AfterProposals(validators, faults, delta, proposals - 1);
      if IsEvictionSafe(n, faults, delta) then n - 1 else n
  }

  /**
   The filter stops exactly at the quorum: however often evictions are proposed, an instance above
   the quorum never falls below it, and one that is not above it loses nobody.
   */
  lemma {:induction false} EvictionsStopAtQuorum(validators: int, faults: int, delta: int, proposals: nat)
    ensures var quorum := 3 * (if faults >= 1 then faults else 1) + 1 + delta;
            var floor := if quorum >= 0 then quorum else 0;
            AfterProposals(validators, faults, delta, proposals)
            == if validators - proposals >= floor then validators - proposals
               else if validators >= floor then floor else validators
  {
    if proposals > 0 {
      EvictionsStopAtQuorum(validators, faults, delta, proposals - 1);
    }
  }

  // ---- runs of evictions under the protocol's own fault bound ----

  /** floor((n - 1) / 3), the faults that n nodes tolerate. */
  function Tolerated(n: int): int {
    (n - 1) / 3
  }

  /** The controller's filter with that bound. */
  predicate PassesProtocolFilter(n: int, delta: int) {
    n - 1 >= 3 * Tolerated(n) + 1 + delta
  }

  /** For any margin an eviction passes iff the remainder of n - 1 exceeds it, so never from margin 2 on. */
  lemma PassesIffRemainder(n: int, delta: int)
    ensures PassesProtocolFilter(n, delta) <==> (n - 1) % 3 > delta
  {
    assert n - 1 == 3 * ((n - 1) / 3) + (n - 1) % 3;
  }

  /** With the default margin an eviction passes exactly for sizes divisible by three. */
  lemma PassesIffDivisible(n: int)
    ensures PassesProtocolFilter(n, 1) <==> n % 3 == 0
    ensures PassesProtocolFilter(n, 1) ==> Tolerated(n - 1) == Tolerated(n) && !PassesProtocolFilter(n - 1, 1)
  {
    PassesIffRemainder(n, 1);
    PassesIffRemainder(n - 1, 1);
  }

  function AfterProtocolProposals(n: int, delta: int, proposals: nat): int {
    if proposals == 0 then n
    else
      var m := AfterProtocolProposals(n, delta, proposals - 1);
      if PassesProtocolFilter(m, delta) then m - 1 else m
  }

  /** How many evictions n nodes can spare without tolerating fewer faults, less the margin. */
  function Spare(n: int, delta: int): int {
    Max(0, (n - 1) % 3 - delta)
  }

  /**
   Over any run of proposals, and for any margin from 0 on, exactly the spare evictions pass and
   the tolerated faults never change.  A negative margin lets every eviction pass.
   */
  lemma {:induction false} OnlySpareEvictionsPass(n: int, delta: int, proposals: nat)
    ensures AfterProtocolProposals(n, delta, proposals)
            == n - if delta >= 0 && proposals > Spare(n, delta) then Spare(n, delta) else proposals
    ensures delta >= 0 ==> Tolerated(AfterProtocolProposals(n, delta, proposals)) == Tolerated(n)
  {
    if proposals > 0 {
      OnlySpareEvictionsPass(n, delta, proposals - 1);
      PassesIffRemainder(AfterProtocolProposals(n, delta, proposals - 1), delta);
    }
  }

  /** With the default margin at most one eviction passes. */
  lemma AtMostOneEviction(n: int, proposals: nat)
    ensures AfterProtocolProposals(n, 1, proposals) == if proposals > 0 && n % 3 == 0 then n - 1 else n
    ensures Tolerated(AfterProtocolProposals(n, 1, proposals)) == Tolerated(n)
  {
    OnlySpareEvictionsPass(n, 1, proposals);
  }

  // ---- fault estimates ----

  datatype TrustFeatures = TrustFeatures(timeoutRate: real, equivocationRate: real, viewChangeRate: real)

  function AnomalyScore(f: TrustFeatures): real {
    f.timeoutRate + f.equivocationRate + f.viewChangeRate
  }

  function CountAbove(features: seq<TrustFeatures>, threshold: real): (n: nat)
    ensures n <= |features|
  {
    if features == [] then 0
    else CountAbove(features[..|features| - 1], threshold)
         + if AnomalyScore(features[|features| - 1]) > threshold then 1 else 0
  }

  /** The nodes whose rates add up to more than the threshold. */
  function Anomalous(features: seq<TrustFeatures>, threshold: real): set<nat> {
    set i: nat | i < |features|
                 && features[i].timeoutRate + features[i].equivocationRate + features[i].viewChangeRate > threshold
  }

  lemma {:induction false} CountIsAnomalous(features: seq<TrustFeatures>, threshold: real)
    ensures CountAbove(features, threshold) == |Anomalous(features, threshold)|
  {
    if features != [] {
      var n := |features| - 1;
      var before, all := Anomalous(features[..n], threshold), Anomalous(features, threshold);
      CountIsAnomalous(features[..n], threshold);
      assert all == if n in all then before + {n} else before;
    }
  }

  /** Suspected nodes by their features, at least one. */
  method EstimateFaultsFromFeatures(features: seq<TrustFeatures>, threshold: real) returns (faults: nat)
    ensures faults == Max(1, CountAbove(features, threshold))
    ensures faults == if Anomalous(features, threshold) == {} then 1 else |Anomalous(features, threshold)|
  {
    CountIsAnomalous(features, threshold);
    if features == [] {
      return 1;
    }
    var suspected := 0;
    assert features[..0] == [];
    var i := 0;
    while i < |features|
      invariant i <= |features| && suspected == CountAbove(features[..i], threshold)
    {
      assert features[..i + 1][..i] == features[..i];
      if AnomalyScore(features[i]) > threshold {
        suspected := suspected + 1;
      }
      i := i + 1;
    }
    assert features[..|features|] == features;
    faults := if suspected > 1 then suspected else 1;
  }

  /** The nodes whose (fused and decayed) fault probability is known and above one half. */
  function Suspects(validators: set<nat>, prob: map<nat, real>): set<nat> {
    set v | v in validators && v in prob && prob[v] > 0.5
  }

  /**
   Counts suspects and caps the count at the protocol bound; without a trust estimator, or without
   a validator set, the estimate is 0.  Go's division truncates, so an empty set gives 0, too.
   */
  method EstimateFaults(validators: Option<set<nat>>, prob: Option<map<nat, real>>) returns (f: int)
    ensures validators.None? || prob.None? ==> f == 0
    ensures validators.Some? && prob.Some? ==>
              var n := |validators.value|;
              var suspects := set v | v in validators.value && v in prob.value && prob.value[v] > 0.5;
              var bound := if n >= 1 then (n - 1) / 3 else 0;
              && f == (if |suspects| <= bound then |suspects| else bound)
              && (3 * f + 1 <= n <==> n >= 1)
  {
    if validators.None? || prob.None? {
      return 0;
    }
    f := 0;
    var rest := validators.value;
    ghost var seen: set<nat> := {};
    while rest != {}
      invariant rest <= validators.value && seen == validators.value - rest
      invariant f == |Suspects(seen, prob.value)|
    {
      var v :| v in rest;
      var known := v in prob.value;
      if known && prob.value[v] > 0.5 {
        assert Suspects(seen + {v}, prob.value) == Suspects(seen, prob.value) + {v};
        f := f + 1;
      } else {
        assert Suspects(seen + {v}, prob.value) == Suspects(seen, prob.value);
      }
      rest := rest - {v};
      seen := seen + {v};
    }
    assert seen == validators.value;
    assert Suspects(seen, prob.value)
           == set v | v in validators.value && v in prob.value && prob.value[v] > 0.5;
    var n := |validators.value|;
    var maxF := if n >= 1 then (n - 1) / 3 else 0;
    if f > maxF {
      f := maxF;
    }
  }

  // ---- the masks ----

  /** What is known about one instance; missing entries have defaults. */
  datatype Instance = Instance(validatorCount: Option<int>, faultsEstimate: Option<int>,
                               trustFeatures: seq<TrustFeatures>)

  function ValidatorsOf(inst: Instance): int {
    if inst.validatorCount.Some? then inst.validatorCount.value else 4
  }

  /** An explicit estimate has priority over the features. */
  function FaultsOf(inst: Instance): int {
    if inst.faultsEstimate.Some? then inst.faultsEstimate.value
    else Max(1, CountAbove(inst.trustFeatures, 0.5))
  }

  predicate EvictionAllowed(inst: Instance, delta: int) {
    IsEvictionSafe(ValidatorsOf(inst), FaultsOf(inst), delta)
  }

  /** Entry (k, c) after masking: the detection signal of unsafe instances is 0, all else is unchanged. */
  function MaskedEntry(instances: seq<Instance>, delta: int, k: nat, c: nat, signal: real): real {
    if c == 0 && k < |instances| && !EvictionAllowed(instances[k], delta) then 0.0 else signal
  }

  /**
   Exactly when the mask lets an instance evict: of its validators, 4 if unknown, three for every fault
   it reckons with, at least one fault, one more, and the margin have to remain.
   */
  lemma EvictionAllowedIff(inst: Instance, delta: int)
    ensures var n := if inst.validatorCount.Some? then inst.validatorCount.value else 4;
            var suspected := |Anomalous(inst.trustFeatures, 0.5)|;
            var f := if inst.faultsEstimate.Some? then inst.faultsEstimate.value else suspected;
            EvictionAllowed(inst, delta) <==> n >= 1 && n >= 3 * (if f >= 1 then f else 1) + 2 + delta
  {
    CountIsAnomalous(inst.trustFeatures, 0.5);
    hide Anomalous, CountAbove;
  }

  type Matrix = seq<seq<real>>

  /** A whole matrix after masking. */
  function Masked(instances: seq<Instance>, delta: int, rows: Matrix): (masked: Matrix)
    ensures |masked| == |rows|
    ensures forall k | 0 <= k < |rows| :: |masked[k]| == |rows[k]|
  {
    seq(|rows|, k requires 0 <= k < |rows| =>
      seq(|rows[k]|, c requires 0 <= c < |rows[k]| => MaskedEntry(instances, delta, k, c, rows[k][c])))
  }

  ghost function Rows(a: array2<real>): (rows: Matrix)
    reads a
    ensures |rows| == a.Length0
    ensures forall k | 0 <= k < a.Length0 ::
              |rows[k]| == a.Length1 && forall c | 0 <= c < a.Length1 :: rows[k][c] == a[k, c]
  {
    seq(a.Length0, k requires 0 <= k < a.Length0 reads a =>
      seq(a.Length1, c requires 0 <= c < a.Length1 reads a => a[k, c]))
  }

  /**
   Masking again changes nothing, and masking leaves all but the first column alone, and the first
   column of every instance that can spare an eviction.
   */
  lemma MaskTwiceIsMaskOnce(instances: seq<Instance>, delta: int, rows: Matrix)
    ensures Masked(instances, delta, Masked(instances, delta, rows)) == Masked(instances, delta, rows)
    ensures Masked(instances, delta, rows) == rows
            <==> forall k | 0 <= k < |rows| && k < |instances| && !EvictionAllowed(instances[k], delta) ::
                   rows[k] == [] || rows[k][0] == 0.0
  {
    var once := Masked(instances, delta, rows);
    var twice := Masked(instances, delta, once);
    hide EvictionAllowed;
    forall k | 0 <= k < |rows| ensures twice[k] == once[k] {
    }
    if forall k | 0 <= k < |rows| && k < |instances| && !EvictionAllowed(instances[k], delta) ::
         rows[k] == [] || rows[k][0] == 0.0 {
      forall k | 0 <= k < |rows| ensures once[k] == rows[k] {
      }
    } else {
      var k :| 0 <= k < |rows| && k < |instances| && !EvictionAllowed(instances[k], delta)
               && !(rows[k] == [] || rows[k][0] == 0.0);
      assert once[k][0] == 0.0;
    }
  }

  /** Overwrites column 0 of the unsafe rows, in place. */
  method PreArgmaxSafetyMask(actions: array2<real>, instances: seq<Instance>, delta: int)
    requires actions.Length1 >= 1
    modifies actions
    ensures forall k, c | 0 <= k < actions.Length0 && 0 <= c < actions.Length1 ::
              actions[k, c] == MaskedEntry(instances, delta, k, c, old(actions[k, c]))
    ensures Rows(actions) == Masked(instances, delta, old(Rows(actions)))
  {
    ghost var before := Rows(actions);
    var m := if actions.Length0 <= |instances| then actions.Length0 else |instances|;
    var k := 0;
    while k < m
      invariant k <= m
      invariant forall i, c | 0 <= i < actions.Length0 && 0 <= c < actions.Length1 ::
        actions[i, c] == if i < k then MaskedEntry(instances, delta, i, c, old(actions[i, c])) else old(actions[i, c])
    {
      var inst := instances[k];
      var validators := if inst.validatorCount.Some? then inst.validatorCount.value else 4;
      var faults: int;
      if inst.faultsEstimate.Some? {
        faults := inst.faultsEstimate.value;
      } else {
        faults := EstimateFaultsFromFeatures(inst.trustFeatures, 0.5);
      }
      if !IsEvictionSafe(validators, faults, delta) {
        actions[k, 0] := 0.0;
      }
      k := k + 1;
    }
    forall i | 0 <= i < actions.Length0 ensures Rows(actions)[i] == Masked(instances, delta, before)[i] {
    }
  }

  /** The bound a controller's filter uses for an instance of n nodes with fault probability p. */
  function FaultBound(protocolBound: bool, n: int, p: real): int {
    if protocolBound then Tolerated(n) else Ceiling(p * (n as real))
  }

  function Ceiling(x: real): int {
    -((-x).Floor)
  }

  /** A proposed eviction (signal above one half) that the filter blocks. */
  predicate Blocked(protocolBound: bool, n: int, p: real, delta: int, signal: real) {
    signal > 0.5 && n - 1 < 3 * FaultBound(protocolBound, n, p) + 1 + delta
  }

  /**
   Both controllers' filters: one takes the protocol bound, the other the rounded-up fault
   probability.  Only the signal of a blocked proposal changes.
   */
  method SafetyFilter(actions: array2<real>, probs: seq<real>, sizes: seq<int>, delta: int, useFilter: bool,
                      protocolBound: bool)
    requires actions.Length1 >= 1 && actions.Length0 == |probs| == |sizes|
    modifies actions
    ensures forall k, c | 0 <= k < actions.Length0 && 0 <= c < actions.Length1 ::
              actions[k, c]
              == if useFilter && c == 0 && Blocked(protocolBound, sizes[k], probs[k], delta, old(actions[k, c]))
                               then 0.0 else old(actions[k, c])
    ensures useFilter && protocolBound && delta == 1 ==>
              forall k | 0 <= k < actions.Length0 && actions[k, 0] > 0.5 :: sizes[k] % 3 == 0
  {
    if !useFilter {
      return;
    }
    hide Blocked, FaultBound;
    var k := 0;
    while k < actions.Length0
      invariant k <= actions.Length0
      invariant forall i, c | 0 <= i < actions.Length0 && 0 <= c < actions.Length1 ::
        actions[i, c] == if i < k && c == 0 && Blocked(protocolBound, sizes[i], probs[i], delta, old(actions[i, c]))
                         then 0.0 else old(actions[i, c])
    {
      BlockedIs(protocolBound, sizes[k], probs[k], delta, actions[k, 0]);
      if actions[k, 0] > 0.5 {
        var nAfter := sizes[k] - 1;
        var fv := FaultBound(protocolBound, sizes[k], probs[k]);
        if nAfter < 3 * fv + 1 + delta {
          actions[k, 0] := 0.0;
        }
      }
      k := k + 1;
    }
    if protocolBound && delta == 1 {
      forall i | 0 <= i < actions.Length0 && actions[i, 0] > 0.5 ensures sizes[i] % 3 == 0 {
        BlockedIs(protocolBound, sizes[i], probs[i], delta, old(actions[i, 0]));
        ProtocolBoundIs(sizes[i], probs[i]);
        PassesIffDivisible(sizes[i]);
      }
    }
  }

  /** Exactly which proposals a filter blocks: signals above 1/2 that leave fewer nodes than the faults call for. */
  lemma BlockedIff(protocolBound: bool, n: int, p: real, delta: int, signal: real) returns (faults: int)
    ensures protocolBound ==> 3 * faults + 1 <= n <= 3 * faults + 3
    ensures !protocolBound ==> (faults - 1) as real < p * (n as real) <= faults as real
    ensures Blocked(protocolBound, n, p, delta, signal) <==> signal > 0.5 && n < 3 * faults + 2 + delta
  {
    faults := FaultBound(protocolBound, n, p);
    if !protocolBound {
      CeilingIs(p * (n as real));
    }
    hide Ceiling;
  }

  lemma CeilingIs(x: real)
    ensures (Ceiling(x) - 1) as real < x <= Ceiling(x) as real
  {
  }

  lemma BlockedIs(protocolBound: bool, n: int, p: real, delta: int, signal: real)
    ensures Blocked(protocolBound, n, p, delta, signal)
            <==> signal > 0.5 && n - 1 < 3 * FaultBound(protocolBound, n, p) + 1 + delta
  {
    hide FaultBound;
  }

  lemma ProtocolBoundIs(n: int, p: real)
    ensures FaultBound(true, n, p) == Tolerated(n)
  {
  }
}
