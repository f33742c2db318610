/**
 The one-pass latency and damage bookkeeping of the end-to-end experiment
 (experiments/run_e2e_experiments.py, run_e2e) against a specification by attack intervals.
 */
module DetectionLatency {
  import opened Wrappers

  /** Sum of the detection latencies and number of detection events. */
  datatype Tally = Tally(sum: int, events: int)

  function Add(a: Tally, b: Tally): Tally {
    Tally(a.sum + b.sum, a.events + b.events)
  }

  const NOTHING := Tally(0, 0)

  // ---- specification: maximal attack intervals ----

  /** End (exclusive) of the run of active epochs that starts at s. */
  function RunEnd(active: seq<bool>, s: nat): (e: nat)
    requires s <= |active|
    ensures s <= e <= |active|
    ensures s < |active| && active[s] ==> s < e
    decreases |active| - s
  {
    if s < |active| && active[s] then RunEnd(active, s + 1) else s
  }

  lemma {:induction false} RunIsActive(active: seq<bool>, s: nat)
    requires s <= |active|
    ensures var e := RunEnd(active, s);
            && (e < |active| ==> !active[e])
            && (forall t | s <= t < e :: active[t])
    decreases |active| - s
  {
    if s < |active| && active[s] {
      RunIsActive(active, s + 1);
    }
  }

  /** All maximal attack intervals from epoch `from` on, as half-open ranges, in order. */
  function Intervals(active: seq<bool>, from: nat): (ivs: seq<(nat, nat)>)
    requires from <= |active|
    ensures forall i | 0 <= i < |ivs| :: from <= ivs[i].0 < ivs[i].1 <= |active|
    decreases |active| - from
  {
    if from == |active| then []
    else if !active[from] then Intervals(active, from + 1)
    else [(from, RunEnd(active, from))] + Intervals(active, RunEnd(active, from))
  }

  /** The first epoch in [s, e) with a detection. */
  function FirstHit(detected: seq<bool>, s: nat, e: nat): (hit: Option<nat>)
    requires s <= e <= |detected|
    ensures hit.Some? ==> s <= hit.value < e
    decreases e - s
  {
    if s == e then None else if detected[s] then Some(s) else FirstHit(detected, s + 1, e)
  }

  lemma {:induction false} HitIsFirst(detected: seq<bool>, s: nat, e: nat)
    requires s <= e <= |detected|
    ensures var hit := FirstHit(detected, s, e);
            if hit.Some? then detected[hit.value] && forall t | s <= t < hit.value :: !detected[t]
            else forall t | s <= t < e :: !detected[t]
    decreases e - s
  {
    if s < e && !detected[s] {
      HitIsFirst(detected, s + 1, e);
    }
  }

  /** An interval with a detection counts once, with the delay of its first detection. */
  function IntervalTally(detected: seq<bool>, s: nat, e: nat): Tally
    requires s <= e <= |detected|
  {
    HitTally(FirstHit(detected, s, e), s)
  }

  function HitTally(hit: Option<nat>, s: nat): Tally {
    if hit.Some? then Tally(hit.value - s, 1) else NOTHING
  }

  function IntervalsTally(detected: seq<bool>, ivs: seq<(nat, nat)>): Tally
    requires forall i | 0 <= i < |ivs| :: ivs[i].0 <= ivs[i].1 <= |detected|
  {
    if ivs == [] then NOTHING
    else Add(IntervalTally(detected, ivs[0].0, ivs[0].1), IntervalsTally(detected, ivs[1..]))
  }

  /** No attack interval is cut in two by starting at epoch s. */
  predicate StartsAfresh(active: seq<bool>, s: nat) {
    s < |active| && active[s] ==> s == 0 || !active[s - 1]
  }

  predicate IsMaximalInterval(active: seq<bool>, s: nat, e: nat) {
    && s < e <= |active|
    && (s == 0 || !active[s - 1])
    && (e == |active| || !active[e])
    && forall u | s <= u < e :: active[u]
  }

  lemma {:induction false} IntervalsAreMaximal(active: seq<bool>, from: nat)
    requires from <= |active| && StartsAfresh(active, from)
    ensures forall i | 0 <= i < |Intervals(active, from)| ::
              IsMaximalInterval(active, Intervals(active, from)[i].0, Intervals(active, from)[i].1)
    decreases |active| - from
  {
    if from < |active| {
      if !active[from] {
        IntervalsAreMaximal(active, from + 1);
      } else {
        RunIsActive(active, from);
        IntervalsAreMaximal(active, RunEnd(active, from));
      }
    }
  }

  /** Every attacked epoch lies in one of the intervals. */
  lemma {:induction false} IntervalsCover(active: seq<bool>, from: nat, t: nat) returns (i: nat)
    requires from <= t < |active| && active[t]
    ensures i < |Intervals(active, from)|
    ensures Intervals(active, from)[i].0 <= t < Intervals(active, from)[i].1
    decreases |active| - from
  {
    RunIsActive(active, from);
    if !active[from] {
      i := IntervalsCover(active, from + 1, t);
    } else if t < RunEnd(active, from) {
      i := 0;
    } else {
      var k := IntervalsCover(active, RunEnd(active, from), t);
      i := k + 1;
    }
  }

  // ---- what the single pass adds at each epoch ----

  /** First epoch of the attack interval that epoch t belongs to. */
  function IntervalStart(active: seq<bool>, t: nat): (s: nat)
    requires t < |active| && active[t]
    ensures s <= t
  {
    if t == 0 || !active[t - 1] then t else IntervalStart(active, t - 1)
  }

  /** Epoch t counts if the attack is detected in it and was not detected earlier in its interval. */
  function EpochTally(active: seq<bool>, detected: seq<bool>, t: nat): Tally
    requires |active| == |detected| && t < |active|
  {
    if active[t] && detected[t] && FirstHit(detected, IntervalStart(active, t), t).None?
    then Tally(t - IntervalStart(active, t), 1) else NOTHING
  }

  /** All epochs in [lo, hi) together. */
  function EpochsTally(active: seq<bool>, detected: seq<bool>, lo: nat, hi: nat): Tally
    requires |active| == |detected| && lo <= hi <= |active|
    decreases hi - lo
  {
    if lo == hi then NOTHING
    else Add(EpochsTally(active, detected, lo, hi - 1), EpochTally(active, detected, hi - 1))
  }

  lemma {:induction false} SplitEpochs(active: seq<bool>, detected: seq<bool>, lo: nat, mid: nat, hi: nat)
    requires |active| == |detected| && lo <= mid <= hi <= |active|
    ensures EpochsTally(active, detected, lo, hi)
            == Add(EpochsTally(active, detected, lo, mid), EpochsTally(active, detected, mid, hi))
    decreases hi - mid
  {
    hide EpochTally;
    if mid < hi {
      SplitEpochs(active, detected, lo, mid, hi - 1);
    }
  }

  lemma {:induction false} StartOfInterval(active: seq<bool>, s: nat, t: nat)
    requires s <= t < |active| && (s == 0 || !active[s - 1]) && forall u | s <= u <= t :: active[u]
    ensures IntervalStart(active, t) == s
  {
    if s < t {
      StartOfInterval(active, s, t - 1);
    }
  }

  lemma {:induction false} HitSnoc(detected: seq<bool>, s: nat, e: nat)
    requires s <= e < |detected|
    ensures FirstHit(detected, s, e + 1)
            == if FirstHit(detected, s, e).Some? then FirstHit(detected, s, e)
               else if detected[e] then Some(e) else None
    decreases e - s
  {
    if s < e && !detected[s] {
      HitSnoc(detected, s + 1, e);
    }
  }

  lemma EmptyRange(active: seq<bool>, detected: seq<bool>, s: nat)
    requires |active| == |detected| && s <= |active|
    ensures EpochsTally(active, detected, s, s) == NOTHING == IntervalTally(detected, s, s)
  {
  }

  function DelayIfFirst(detected: seq<bool>, s: nat, t: nat): Tally
    requires s <= t < |detected|
  {
    if detected[t] && FirstHit(detected, s, t).None? then Tally(t - s, 1) else NOTHING
  }

  /** One more epoch of an interval adds as much to the interval ... */
  lemma IntervalSnoc(detected: seq<bool>, s: nat, t: nat)
    requires s <= t < |detected|
    ensures IntervalTally(detected, s, t + 1) == Add(IntervalTally(detected, s, t), DelayIfFirst(detected, s, t))
  {
    hide FirstHit, HitTally, Add;
    HitSnoc(detected, s, t);
    LaterHitTally(FirstHit(detected, s, t), FirstHit(detected, s, t + 1), detected[t], s, t);
  }

  lemma LaterHitTally(hit: Option<nat>, hit': Option<nat>, found: bool, s: nat, t: nat)
    requires hit' == if hit.Some? then hit else if found then Some(t) else None
    ensures HitTally(hit', s) == Add(HitTally(hit, s), if found && hit.None? then Tally(t - s, 1) else NOTHING)
  {
  }

  /** ... as to the pass. */
  lemma PassSnoc(active: seq<bool>, detected: seq<bool>, s: nat, t: nat)
    requires |active| == |detected| && s <= t < |active|
    requires active[t] && IntervalStart(active, t) == s
    ensures EpochsTally(active, detected, s, t + 1)
            == Add(EpochsTally(active, detected, s, t), DelayIfFirst(detected, s, t))
  {
    hide IntervalStart, FirstHit;
  }

  /** Inside one interval the pass adds exactly what the interval is worth. */
  lemma {:induction false} OneInterval(active: seq<bool>, detected: seq<bool>, s: nat, h: nat)
    requires |active| == |detected| && s <= h <= |active|
    requires (s == 0 || !active[s - 1]) && forall u | s <= u < h :: active[u]
    ensures EpochsTally(active, detected, s, h) == IntervalTally(detected, s, h)
    decreases h - s
  {
    hide *;
    if s < h {
      OneInterval(active, detected, s, h - 1);
      StartOfInterval(active, s, h - 1);
      IntervalSnoc(detected, s, h - 1);
      PassSnoc(active, detected, s, h - 1);
    } else {
      EmptyRange(active, detected, s);
    }
  }

  /** The single pass over all epochs and the interval specification agree, for every trace. */
  lemma {:induction false} PassRefinesIntervals(active: seq<bool>, detected: seq<bool>, from: nat)
    requires |active| == |detected| && from <= |active|
    requires StartsAfresh(active, from)
    ensures EpochsTally(active, detected, from, |active|) == IntervalsTally(detected, Intervals(active, from))
    decreases |active| - from
  {
    hide EpochTally, IntervalTally, EpochsTally, IntervalsTally, RunEnd;
    if from < |active| {
      if !active[from] {
        PassRefinesIntervals(active, detected, from + 1);
        SplitEpochs(active, detected, from, from + 1, |active|);
        QuietEpoch(active, detected, from);
      } else {
        var e := RunEnd(active, from);
        var rest := Intervals(active, e);
        RunIsActive(active, from);
        PassRefinesIntervals(active, detected, e);
        OneInterval(active, detected, from, e);
        SplitEpochs(active, detected, from, e, |active|);
        TallyCons(detected, (from, e), rest);
      }
    } else {
      NothingLeft(active, detected);
    }
  }

  lemma NothingLeft(active: seq<bool>, detected: seq<bool>)
    requires |active| == |detected|
    ensures EpochsTally(active, detected, |active|, |active|) == NOTHING
            == IntervalsTally(detected, Intervals(active, |active|))
  {
  }

  lemma QuietEpoch(active: seq<bool>, detected: seq<bool>, t: nat)
    requires |active| == |detected| && t < |active| && !active[t]
    ensures EpochsTally(active, detected, t, t + 1) == NOTHING
  {
    assert EpochsTally(active, detected, t, t) == NOTHING;
    hide IntervalStart;
  }

  lemma TallyCons(detected: seq<bool>, iv: (nat, nat), rest: seq<(nat, nat)>)
    requires forall i | 0 <= i < |rest| :: rest[i].0 <= rest[i].1 <= |detected|
    requires iv.0 <= iv.1 <= |detected|
    ensures IntervalsTally(detected, [iv] + rest)
            == Add(IntervalTally(detected, iv.0, iv.1), IntervalsTally(detected, rest))
  {
    assert ([iv] + rest)[1..] == rest;
  }

  // ---- all instances ----

  /** A trace: for each epoch and instance the number of active Byzantine nodes and whether it was detected. */
  ghost predicate IsTrace(byz: seq<seq<nat>>, detected: seq<seq<bool>>, m: nat) {
    && |byz| == |detected|
    && (forall t | 0 <= t < |byz| :: |byz[t]| == m)
    && (forall t | 0 <= t < |detected| :: |detected[t]| == m)
  }

  ghost function ActiveIn(byz: seq<seq<nat>>, j: nat): (a: seq<bool>)
    requires forall t | 0 <= t < |byz| :: j < |byz[t]|
    ensures |a| == |byz| && forall t | 0 <= t < |byz| :: a[t] == (byz[t][j] > 0)
  {
    seq(|byz|, t requires 0 <= t < |byz| => byz[t][j] > 0)
  }

  ghost function DetectedIn(detected: seq<seq<bool>>, j: nat): (d: seq<bool>)
    requires forall t | 0 <= t < |detected| :: j < |detected[t]|
    ensures |d| == |detected| && forall t | 0 <= t < |detected| :: d[t] == detected[t][j]
  {
    seq(|detected|, t requires 0 <= t < |detected| => detected[t][j])
  }

  ghost function CellTally(byz: seq<seq<nat>>, detected: seq<seq<bool>>, m: nat, t: nat, j: nat): Tally
    requires IsTrace(byz, detected, m) && t < |byz| && j < m
  {
    EpochTally(ActiveIn(byz, j), DetectedIn(detected, j), t)
  }

  /** In the order of the loops: all instances of epochs before t, and the first j instances of epoch t. */
  ghost function LoopTally(byz: seq<seq<nat>>, detected: seq<seq<bool>>, m: nat, t: nat, j: nat): Tally
    requires IsTrace(byz, detected, m) && t <= |byz| && j <= m && (t == |byz| ==> j == 0)
    decreases t, j
  {
    if j > 0 then Add(LoopTally(byz, detected, m, t, j - 1), CellTally(byz, detected, m, t, j - 1))
    else if t > 0 then LoopTally(byz, detected, m, t - 1, m)
    else NOTHING
  }

  /** The same cells, summed instance by instance over the first k instances. */
  ghost function ColumnsTally(byz: seq<seq<nat>>, detected: seq<seq<bool>>, m: nat, t: nat, j: nat, k: nat): Tally
    requires IsTrace(byz, detected, m) && t <= |byz| && j <= m && (t == |byz| ==> j == 0) && k <= m
  {
    if k == 0 then NOTHING
    else Add(ColumnsTally(byz, detected, m, t, j, k - 1),
             EpochsTally(ActiveIn(byz, k - 1), DetectedIn(detected, k - 1), 0, if k - 1 < j then t + 1 else t))
  }

  lemma {:induction false} OneMoreCell(byz: seq<seq<nat>>, detected: seq<seq<bool>>, m: nat, t: nat, j: nat, k: nat)
    requires IsTrace(byz, detected, m) && t < |byz| && j < m && k <= m
    ensures ColumnsTally(byz, detected, m, t, j + 1, k)
            == Add(ColumnsTally(byz, detected, m, t, j, k),
                   if j < k then CellTally(byz, detected, m, t, j) else NOTHING)
  {
    hide Add, EpochTally, NOTHING, EpochsTally;
    AddLaws(NOTHING, NOTHING, NOTHING);
    if k > 0 {
      OneMoreCell(byz, detected, m, t, j, k - 1);
      var before := ColumnsTally(byz, detected, m, t, j, k - 1);
      var column := EpochsTally(ActiveIn(byz, k - 1), DetectedIn(detected, k - 1), 0, t);
      EpochsSnoc(ActiveIn(byz, k - 1), DetectedIn(detected, k - 1), t);
      AddLaws(before, column, CellTally(byz, detected, m, t, j));
      AddLaws(ColumnsTally(byz, detected, m, t, j, k), NOTHING, NOTHING);
      AddLaws(before, NOTHING, NOTHING);
      AddLaws(before, EpochsTally(ActiveIn(byz, k - 1), DetectedIn(detected, k - 1), 0, t + 1),
              CellTally(byz, detected, m, t, j));
    }
  }

  lemma AddLaws(a: Tally, b: Tally, c: Tally)
    ensures Add(Add(a, b), c) == Add(a, Add(b, c)) == Add(Add(a, c), b)
    ensures Add(a, NOTHING) == a
  {
  }

  lemma EpochsSnoc(active: seq<bool>, detected: seq<bool>, t: nat)
    requires |active| == |detected| && t < |active|
    ensures EpochsTally(active, detected, 0, t + 1)
            == Add(EpochsTally(active, detected, 0, t), EpochTally(active, detected, t))
  {
    hide EpochTally;
  }

  lemma {:induction false} FullRow(byz: seq<seq<nat>>, detected: seq<seq<bool>>, m: nat, t: nat, k: nat)
    requires IsTrace(byz, detected, m) && t < |byz| && k <= m
    ensures ColumnsTally(byz, detected, m, t, m, k) == ColumnsTally(byz, detected, m, t + 1, 0, k)
  {
    hide EpochsTally;
    if k > 0 {
      FullRow(byz, detected, m, t, k - 1);
    }
  }

  lemma {:induction false} NoEpochs(byz: seq<seq<nat>>, detected: seq<seq<bool>>, m: nat, k: nat)
    requires IsTrace(byz, detected, m) && k <= m
    ensures ColumnsTally(byz, detected, m, 0, 0, k) == NOTHING
  {
    if k > 0 {
      NoEpochs(byz, detected, m, k - 1);
    }
  }

  /** Summing epoch by epoch or instance by instance is the same. */
  lemma {:induction false} LoopsExchange(byz: seq<seq<nat>>, detected: seq<seq<bool>>, m: nat, t: nat, j: nat)
    requires IsTrace(byz, detected, m) && t <= |byz| && j <= m && (t == |byz| ==> j == 0)
    ensures LoopTally(byz, detected, m, t, j) == ColumnsTally(byz, detected, m, t, j, m)
    decreases t, j
  {
    hide ColumnsTally, CellTally;
    if j > 0 {
      LoopsExchange(byz, detected, m, t, j - 1);
      OneMoreCell(byz, detected, m, t, j - 1, m);
    } else if t > 0 {
      LoopsExchange(byz, detected, m, t - 1, m);
      FullRow(byz, detected, m, t - 1, m);
    } else {
      NoEpochs(byz, detected, m, m);
    }
  }

  /** The specification for the first k instances: instance by instance, interval by interval. */
  ghost function TraceTally(byz: seq<seq<nat>>, detected: seq<seq<bool>>, m: nat, k: nat): Tally
    requires IsTrace(byz, detected, m) && k <= m
  {
    if k == 0 then NOTHING
    else Add(TraceTally(byz, detected, m, k - 1),
             IntervalsTally(DetectedIn(detected, k - 1), Intervals(ActiveIn(byz, k - 1), 0)))
  }

  lemma {:induction false} LoopsMeetSpecification(byz: seq<seq<nat>>, detected: seq<seq<bool>>, m: nat, k: nat)
    requires IsTrace(byz, detected, m) && k <= m
    ensures ColumnsTally(byz, detected, m, |byz|, 0, k) == TraceTally(byz, detected, m, k)
  {
    hide EpochsTally, IntervalsTally, Intervals;
    if k > 0 {
      LoopsMeetSpecification(byz, detected, m, k - 1);
      PassRefinesIntervals(ActiveIn(byz, k - 1), DetectedIn(detected, k - 1), 0);
    }
  }

  // ---- damage ----

  /** Active Byzantine nodes of the first j instances that go undetected in one epoch. */
  function EpochDamage(byz: seq<nat>, detected: seq<bool>, j: nat): nat
    requires j <= |byz| && |byz| == |detected|
  {
    if j == 0 then 0
    else EpochDamage(byz, detected, j - 1) + if byz[j - 1] > 0 && !detected[j - 1] then byz[j - 1] else 0
  }

  ghost function Damage(byz: seq<seq<nat>>, detected: seq<seq<bool>>, m: nat, t: nat): nat
    requires IsTrace(byz, detected, m) && t <= |byz|
  {
    if t == 0 then 0 else Damage(byz, detected, m, t - 1) + EpochDamage(byz[t - 1], detected[t - 1], m)
  }

  /** The Byzantine nodes of the first j instances, by instance and number, that go undetected in one epoch. */
  function UndetectedNodes(byz: seq<nat>, detected: seq<bool>, j: nat): set<(nat, nat)>
    requires j <= |byz| && |byz| == |detected|
  {
    set k: nat, i: nat | k < j && i < byz[k] && !detected[k] :: (k, i)
  }

  function NodesOf(k: nat, n: nat): (nodes: set<(nat, nat)>)
    ensures |nodes| == n
    ensures forall node :: node in nodes <==> node.0 == k && node.1 < n
  {
    if n == 0 then {} else NodesOf(k, n - 1) + {(k, n - 1)}
  }

  /** An epoch's damage is how many they are. */
  lemma {:induction false} DamageCountsUndetected(byz: seq<nat>, detected: seq<bool>, j: nat)
    requires j <= |byz| && |byz| == |detected|
    ensures EpochDamage(byz, detected, j) == |UndetectedNodes(byz, detected, j)|
  {
    if j > 0 {
      DamageCountsUndetected(byz, detected, j - 1);
      var before := UndetectedNodes(byz, detected, j - 1);
      var more := if detected[j - 1] then {} else NodesOf(j - 1, byz[j - 1]);
      assert UndetectedNodes(byz, detected, j) == before + more;
      assert before !! more;
    } else {
      assert UndetectedNodes(byz, detected, 0) == {};
    }
  }

  /** The damage up to an epoch is that of the epochs before plus its own. */
  lemma DamageAccumulates(byz: seq<seq<nat>>, detected: seq<seq<bool>>, m: nat, t: nat)
    requires IsTrace(byz, detected, m) && t < |byz|
    ensures Damage(byz, detected, m, 0) == 0
    ensures Damage(byz, detected, m, t + 1)
            == Damage(byz, detected, m, t) + |UndetectedNodes(byz[t], detected[t], m)|
  {
    DamageCountsUndetected(byz[t], detected[t], m);
  }

  // ---- the loops ----

  /** What the two dictionaries say about one instance after its first n epochs. */
  ghost predicate InStep(active: seq<bool>, detected: seq<bool>, n: nat, start: Option<nat>, found: bool)
    requires |active| == |detected| && n <= |active|
  {
    if n > 0 && active[n - 1]
    then start == Some(IntervalStart(active, n - 1))
         && (found <==> FirstHit(detected, IntervalStart(active, n - 1), n).Some?)
    else start == None && !found
  }

  function Lookup(m: map<nat, nat>, j: nat): Option<nat> {
    if j in m then Some(m[j]) else None
  }

  /** How one epoch changes what is known about one instance, and what it adds. */
  lemma EpochStep(active: seq<bool>, detected: seq<bool>, t: nat, start: Option<nat>, found: bool)
    requires |active| == |detected| && t < |active|
    requires InStep(active, detected, t, start, found)
    ensures !active[t] ==> InStep(active, detected, t + 1, None, false) && EpochTally(active, detected, t) == NOTHING
    ensures active[t] ==>
              var s := if start.Some? then start.value else t;
              && s <= t
              && InStep(active, detected, t + 1, Some(s), found || detected[t])
              && EpochTally(active, detected, t) == if detected[t] && !found then Tally(t - s, 1) else NOTHING
  {
    if active[t] {
      HitSnoc(detected, IntervalStart(active, t), t);
    }
  }

  ghost predicate AllInStep(byz: seq<seq<nat>>, detected: seq<seq<bool>>, m: nat, t: nat, j: nat,
                            start: map<nat, nat>, found: map<nat, nat>)
    requires IsTrace(byz, detected, m) && t <= |byz| && j <= m && (t == |byz| ==> j == 0)
  {
    forall k: nat | k < m ::
      InStep(ActiveIn(byz, k), DetectedIn(detected, k), if k < j then t + 1 else t, Lookup(start, k), k in found)
  }

  method DamageOfEpoch(byz: seq<nat>, detected: seq<bool>, m: nat) returns (damage: nat)
    requires |byz| == |detected| == m
    ensures damage == EpochDamage(byz, detected, m)
  {
    damage := 0;
    var j := 0;
    while j < m
      invariant j <= m && damage == EpochDamage(byz, detected, j)
    {
      if byz[j] > 0 && !detected[j] {
        damage := damage + byz[j];
      }
      j := j + 1;
    }
  }

  /** The dictionary updates of one epoch; returns what the epoch adds. */
  method TrackEpoch(byz: seq<seq<nat>>, detected: seq<seq<bool>>, m: nat, t: nat,
                    start: map<nat, nat>, found: map<nat, nat>, latencySum: int, events: int)
    returns (start': map<nat, nat>, found': map<nat, nat>, latencySum': int, events': int)
    requires IsTrace(byz, detected, m) && t < |byz|
    requires AllInStep(byz, detected, m, t, 0, start, found)
    requires Tally(latencySum, events) == LoopTally(byz, detected, m, t, 0)
    ensures AllInStep(byz, detected, m, t + 1, 0, start', found')
    ensures Tally(latencySum', events') == LoopTally(byz, detected, m, t + 1, 0)
  {
    hide InStep, EpochTally, AllInStep;
    start', found', latencySum', events' := start, found, latencySum, events;
    var j := 0;
    while j < m
      invariant j <= m
      invariant Tally(latencySum', events') == LoopTally(byz, detected, m, t, j)
      invariant AllInStep(byz, detected, m, t, j, start', found')
    {
      OneInStep(byz, detected, m, t, j, start', found');
      EpochStep(ActiveIn(byz, j), DetectedIn(detected, j), t, Lookup(start', j), j in found');
      ghost var start0, found0 := start', found';
      if byz[t][j] > 0 && j !in start' {
        start' := start'[j := t];
      }
      if byz[t][j] > 0 && detected[t][j] && j !in found' {
        found' := found'[j := t];
        if j in start' {
          latencySum' := latencySum' + (t - start'[j]);
          events' := events' + 1;
        }
      }
      if byz[t][j] == 0 && j in start' {
        start' := start' - {j};
        found' := found' - {j};
      }
      OthersUnchanged(byz, detected, m, t, j, start0, found0, start', found');
      j := j + 1;
    }
    NextRow(byz, detected, m, t, start', found');
  }

  lemma OneInStep(byz: seq<seq<nat>>, detected: seq<seq<bool>>, m: nat, t: nat, j: nat,
                  start: map<nat, nat>, found: map<nat, nat>)
    requires IsTrace(byz, detected, m) && t < |byz| && j < m
    requires AllInStep(byz, detected, m, t, j, start, found)
    ensures InStep(ActiveIn(byz, j), DetectedIn(detected, j), t, Lookup(start, j), j in found)
    ensures Lookup(start, j).None? ==> j !in found
  {
    hide Lookup;
  }

  method TrackDetections(byz: seq<seq<nat>>, detected: seq<seq<bool>>, m: nat)
    returns (latencySum: int, events: int, cumulativeDamage: seq<nat>)
    requires IsTrace(byz, detected, m)
    ensures Tally(latencySum, events) == TraceTally(byz, detected, m, m)
    ensures |cumulativeDamage| == |byz|
    ensures forall t | 0 <= t < |byz| :: cumulativeDamage[t] == Damage(byz, detected, m, t + 1)
  {
    hide InStep, AllInStep, EpochTally, CellTally, TraceTally, ColumnsTally, EpochDamage;
    latencySum, events, cumulativeDamage := 0, 0, [];
    var damageSum := 0;
    var attackStart: map<nat, nat>, attackDetected: map<nat, nat> := map[], map[];
    NothingTracked(byz, detected, m);
    var t := 0;
    while t < |byz|
      invariant t <= |byz| == |detected|
      invariant damageSum == Damage(byz, detected, m, t) && |cumulativeDamage| == t
      invariant forall u | 0 <= u < t :: cumulativeDamage[u] == Damage(byz, detected, m, u + 1)
      invariant Tally(latencySum, events) == LoopTally(byz, detected, m, t, 0)
      invariant AllInStep(byz, detected, m, t, 0, attackStart, attackDetected)
    {
      var epochDamage := DamageOfEpoch(byz[t], detected[t], m);
      damageSum := damageSum + epochDamage;
      cumulativeDamage := cumulativeDamage + [damageSum];
      attackStart, attackDetected, latencySum, events :=
        TrackEpoch(byz, detected, m, t, attackStart, attackDetected, latencySum, events);
      t := t + 1;
    }
    LoopsExchange(byz, detected, m, |byz|, 0);
    LoopsMeetSpecification(byz, detected, m, m);
  }

  lemma NothingTracked(byz: seq<seq<nat>>, detected: seq<seq<bool>>, m: nat)
    requires IsTrace(byz, detected, m)
    ensures AllInStep(byz, detected, m, 0, 0, map[], map[])
  {
  }

  lemma OthersUnchanged(byz: seq<seq<nat>>, detected: seq<seq<bool>>, m: nat, t: nat, j: nat,
                        start: map<nat, nat>, found: map<nat, nat>, start': map<nat, nat>, found': map<nat, nat>)
    requires IsTrace(byz, detected, m) && t < |byz| && j < m
    requires AllInStep(byz, detected, m, t, j, start, found)
    requires forall k: nat | k != j :: Lookup(start', k) == Lookup(start, k) && (k in found' <==> k in found)
    requires InStep(ActiveIn(byz, j), DetectedIn(detected, j), t + 1, Lookup(start', j), j in found')
    ensures AllInStep(byz, detected, m, t, j + 1, start', found')
  {
    hide InStep, Lookup;
  }

  lemma NextRow(byz: seq<seq<nat>>, detected: seq<seq<bool>>, m: nat, t: nat, start: map<nat, nat>,
                found: map<nat, nat>)
    requires IsTrace(byz, detected, m) && t < |byz|
    requires AllInStep(byz, detected, m, t, m, start, found)
    ensures AllInStep(byz, detected, m, t + 1, 0, start, found)
  {
    hide InStep, Lookup;
  }
}
