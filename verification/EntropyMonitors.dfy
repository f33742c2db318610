/** The policy entropy monitor: a sliding window of bucketed actions (src/evolvbft/adaptive/entropy.go). */
module EntropyMonitors {
  import opened Rings
  import opened Arith
  import opened Entropy

  datatype Action = Action(committeeSize: int, pacemakerTimeoutMs: int, mempoolMaxBatchTxs: int)

  datatype ActionBucket = ActionBucket(committee: int, timeout: int, batch: int)

  /** Go's integer division truncates towards zero. */
  function TruncatedQuotient(a: int, d: nat): int
    requires d > 0
  {
    if a >= 0 then a / d else -((-a) / d)
  }

  function Bucketize(action: Action): ActionBucket {
    ActionBucket(TruncatedQuotient(action.committeeSize, 5),
                 TruncatedQuotient(action.pacemakerTimeoutMs, 100),
                 TruncatedQuotient(action.mempoolMaxBatchTxs, 512))
  }

  /** Quotient q of a number by a step: it lies in the q-th step from 0, on its side of 0. */
  predicate InStepOf(x: int, step: int, q: int) {
    (x >= 0 ==> 0 <= step * q <= x < step * (q + 1)) && (x <= 0 ==> step * (q - 1) < x <= step * q <= 0)
  }

  /** Buckets are steps of 5 members, 100 milliseconds and 512 transactions. */
  lemma BucketsAreSteps(a: Action)
    ensures var b := Bucketize(a);
            && InStepOf(a.committeeSize, 5, b.committee) && InStepOf(a.pacemakerTimeoutMs, 100, b.timeout)
            && InStepOf(a.mempoolMaxBatchTxs, 512, b.batch)
  {
  }

  datatype EntropyConfig = EntropyConfig(windowSize: int, lowThreshold: real, highThreshold: real)

  function WithDefaults(config: EntropyConfig): (c: EntropyConfig)
    ensures c.windowSize >= 1 && c.lowThreshold > 0.0 && c.highThreshold > 0.0
    ensures config.windowSize >= 1 && config.lowThreshold > 0.0 && config.highThreshold > 0.0 ==> c == config
  {
    EntropyConfig(if config.windowSize <= 0 then 100 else config.windowSize,
                  if config.lowThreshold <= 0.0 then 0.5 else config.lowThreshold,
                  if config.highThreshold <= 0.0 then 2.0 else config.highThreshold)
  }

  /** Each setting that makes no sense is replaced by itself. */
  lemma DefaultsReplaceEach(config: EntropyConfig)
    ensures var c := WithDefaults(config);
            && c.windowSize == (if config.windowSize >= 1 then config.windowSize else 100)
            && c.lowThreshold == (if config.lowThreshold > 0.0 then config.lowThreshold else 0.5)
            && c.highThreshold == (if config.highThreshold > 0.0 then config.highThreshold else 2.0)
  {
  }

  // ---- the alarm, as a property of the history ----

  /** At least half a window has been seen and its entropy is low. */
  predicate IsLow(log: real -> real, config: EntropyConfig, history: seq<ActionBucket>)
    requires config.windowSize >= 1
  {
    && EntropyOf(log, Recent(history, config.windowSize)) < config.lowThreshold
    && |Recent(history, config.windowSize)| >= config.windowSize / 2
  }

  /** At how many moments of the history the alarm condition held. */
  function Alarms(log: real -> real, config: EntropyConfig, history: seq<ActionBucket>): nat
    requires config.windowSize >= 1
  {
    if history == [] then 0
    else Alarms(log, config, history[..|history| - 1]) + if IsLow(log, config, history) then 1 else 0
  }

  lemma AlarmIs(log: real -> real, config: EntropyConfig, history: seq<ActionBucket>)
    requires config.windowSize >= 1
    ensures var recent := Recent(history, config.windowSize);
            IsLow(log, config, history)
            <==> EntropyOf(log, recent) < config.lowThreshold && |recent| >= config.windowSize / 2
  {
  }

  lemma AlarmStep(log: real -> real, config: EntropyConfig, history: seq<ActionBucket>, bucket: ActionBucket)
    requires config.windowSize >= 1
    ensures Alarms(log, config, history + [bucket])
            == Alarms(log, config, history) + if IsLow(log, config, history + [bucket]) then 1 else 0
  {
    assert (history + [bucket])[..|history|] == history;
  }

  /** The moments at which the alarm condition held, by the number of actions seen. */
  ghost function LowMoments(log: real -> real, config: EntropyConfig, history: seq<ActionBucket>): set<nat>
    requires config.windowSize >= 1
  {
    set k: nat | 1 <= k <= |history| && IsLow(log, config, history[..k])
  }

  lemma {:induction false} AlarmsCountLowMoments(log: real -> real, config: EntropyConfig, history: seq<ActionBucket>)
    requires config.windowSize >= 1
    ensures Alarms(log, config, history) == |LowMoments(log, config, history)|
  {
    hide IsLow;
    if history == [] {
      assert LowMoments(log, config, history) == {};
    } else {
      var n := |history|;
      var init := history[..n - 1];
      AlarmsCountLowMoments(log, config, init);
      var before := LowMoments(log, config, init);
      assert forall k: nat | k <= n - 1 :: init[..k] == history[..k];
      assert history[..n] == history;
      assert LowMoments(log, config, history) == if IsLow(log, config, history) then before + {n} else before;
    }
  }

  /** How many slots of the window are in use. */
  function Fill(capacity: nat, pos: nat, full: bool): nat {
    if full then capacity else pos
  }

  /** The slots in use are those of a ring with this history, and the cursor is where it has to be. */
  predicate WindowHolds(window: seq<ActionBucket>, pos: nat, full: bool, history: seq<ActionBucket>) {
    && window != []
    && pos == Cursor(|history|, |window|)
    && (full <==> |history| >= |window|)
    && Fill(|window|, pos, full) == |Recent(history, |window|)|
    && window[..Fill(|window|, pos, full)] == Slots(history, |window|)
  }

  lemma WindowStep(window: seq<ActionBucket>, pos: nat, full: bool, history: seq<ActionBucket>, bucket: ActionBucket)
    requires WindowHolds(window, pos, full, history)
    ensures pos < |window|
    ensures var next := (pos + 1) % |window|;
            WindowHolds(window[pos := bucket], next, full || next == 0, history + [bucket])
  {
    var capacity := |window|;
    NextCursor(pos, capacity);
    WriteExtendsHistory(history, capacity, bucket);
    assert Cursor(|history + [bucket]|, capacity) == Next(pos, capacity);
    if |history| < capacity {
      CursorBeforeWrap(|history|, capacity);
    }
    hide Cursor, Slots;
  }

  /** The slots in use have the same values, equally often, as the recent actions. */
  lemma WindowFacts(window: seq<ActionBucket>, pos: nat, full: bool, history: seq<ActionBucket>)
    requires WindowHolds(window, pos, full, history)
    ensures var size, recent := Fill(|window|, pos, full), Recent(history, |window|);
            && size == |recent| <= |window|
            && Distinct(window[..size]) == Distinct(recent)
            && forall b :: Count(window[..size], b) == Count(recent, b)
  {
    SlotsHoldRecent(history, |window|);
    SameValues(window[..Fill(|window|, pos, full)], Recent(history, |window|));
  }

  lemma EmptyWindow(window: seq<ActionBucket>)
    requires window != []
    ensures WindowHolds(window, 0, false, [])
  {
  }

  datatype EntropyStats = EntropyStats(
    entropy: real, isLow: bool, windowFill: nat, windowSize: nat,
    uniqueBuckets: nat, totalObservations: nat, lowAlarmCount: nat)

  class EntropyMonitor {
    const config: EntropyConfig
    const log: real -> real     // math.Log2
    const window: array<ActionBucket>
    var pos: nat
    var full: bool
    var totalObservations: nat
    var lowAlarmCount: nat
    ghost var history: seq<ActionBucket>   // every bucket ever observed

    /** The window holds the last actions; entropies can be computed. */
    ghost predicate WindowValid()
      reads this, window
    {
      && config.windowSize >= 1 && window.Length == config.windowSize
      && log(1.0) == 0.0
      && WindowHolds(window[..], pos, full, history)
    }

    ghost predicate Valid()
      reads this, window
    {
      && WindowValid()
      && totalObservations == |history|
      && lowAlarmCount == Alarms(log, config, history)
    }

    constructor (config: EntropyConfig, log: real -> real)
      requires log(1.0) == 0.0
      ensures Valid() && fresh(window) && history == []
      ensures this.config == WithDefaults(config) && this.log == log
    {
      var c := WithDefaults(config);
      this.config, this.log := c, log;
      window := new ActionBucket[c.windowSize](_ => ActionBucket(0, 0, 0));
      pos, full, totalObservations, lowAlarmCount, history := 0, false, 0, 0, [];
      new;
      EmptyWindow(window[..]);
    }

    method EffectiveSize() returns (size: nat)
      requires WindowValid()
      ensures size == Fill(window.Length, pos, full) == |Recent(history, config.windowSize)|
    {
      size := if full then config.windowSize else pos;
    }

    /** How often each bucket occurs among the last actions. */
    method BucketCounts() returns (counts: map<ActionBucket, nat>)
      requires WindowValid()
      ensures Tallies(counts, Recent(history, config.windowSize))
    {
      hide WindowHolds, Tallies, Distinct, Count, Recent, Fill;
      WindowFacts(window[..], pos, full, history);
      var size := EffectiveSize();
      ghost var w := window[..size];
      assert window[..][..size] == w;
      counts := map[];
      NothingTallied();
      var i := 0;
      while i < size
        invariant i <= size == |w| <= window.Length && window[..size] == w
        invariant Tallies(counts, w[..i])
      {
        var b := window[i];
        TallyOne(counts, w[..i], b);
        assert w[..i + 1] == w[..i] + [b];
        counts := counts[b := (if b in counts then counts[b] else 0) + 1];
        i := i + 1;
      }
      assert w[..size] == w;
      SameTally(counts, w, Recent(history, config.windowSize));
    }

    method ComputeEntropy() returns (entropy: real)
      requires WindowValid()
      ensures entropy == EntropyOf(log, Recent(history, config.windowSize))
    {
      ghost var w := Recent(history, config.windowSize);
      var size := EffectiveSize();
      if size <= 1 {
        FewSamples(log, w);
        return 0.0;
      }
      var counts := BucketCounts();
      ghost var f := Surprises(log, w);
      assert counts.Keys == Distinct(w) && forall b | b in counts :: counts[b] == Count(w, b);
      assert EntropyOf(log, w) == SumOver(w, Distinct(w), f);
      assert forall b | b in f :: f[b] == Surprise(log, w, b);
      hide *;
      SumOverNoKeys(w, f);
      var n := size as real;
      entropy := 0.0;
      var keys := counts.Keys;
      ghost var seen: set<ActionBucket> := {};
      while keys != {}
        invariant keys <= counts.Keys && seen == counts.Keys - keys
        invariant seen <= f.Keys && entropy == SumOver(w, seen, f)
      {
        var b :| b in keys;
        var p := (counts[b] as real) / n;
        ValueContribution(log, w, b);
        SumOverAddKey(w, seen, b, f);
        FrequencyIs(w, b, counts[b], n);
        entropy := entropy - Times(p, log(p));
        keys := keys - {b};
        seen := seen + {b};
      }
      assert seen == Distinct(w);
    }

    /** Writes one bucket into the ring. */
    method Record(bucket: ActionBucket)
      requires WindowValid()
      modifies this`pos, this`full, this`totalObservations, this`history, window
      ensures WindowValid() && history == old(history) + [bucket]
      ensures totalObservations == old(totalObservations) + 1
    {
      hide WindowHolds;
      WindowStep(window[..], pos, full, history, bucket);
      window[pos] := bucket;
      pos := (pos + 1) % config.windowSize;
      if !full && pos == 0 {
        full := true;
      }
      totalObservations := totalObservations + 1;
      history := history + [bucket];
    }

    /** Records an action and returns the entropy of the window that now ends with it. */
    method Observe(action: Action) returns (entropy: real)
      requires Valid()
      modifies this, window
      ensures Valid() && history == old(history) + [Bucketize(action)]
      ensures entropy == EntropyOf(log, Recent(history, config.windowSize))
    {
      hide WindowHolds, EntropyOf, Recent, Bucketize, Alarms, IsLow, Fill;
      var bucket := Bucketize(action);
      AlarmStep(log, config, history, bucket);
      Record(bucket);
      entropy := ComputeEntropy();
      var size := EffectiveSize();
      AlarmIs(log, config, history);
      if entropy < config.lowThreshold && size >= config.windowSize / 2 {
        lowAlarmCount := lowAlarmCount + 1;
      }
    }

    method IsLowEntropy() returns (low: bool)
      requires Valid()
      ensures low <==> IsLow(log, config, history)
    {
      var entropy := ComputeEntropy();
      var size := EffectiveSize();
      low := entropy < config.lowThreshold && size >= config.windowSize / 2;
    }

    method Stats() returns (stats: EntropyStats)
      requires Valid()
      ensures var w := Recent(history, config.windowSize);
              stats == EntropyStats(EntropyOf(log, w), IsLow(log, config, history), |w|, config.windowSize,
                                    |Distinct(w)|, |history|, Alarms(log, config, history))
    {
      var entropy := ComputeEntropy();
      var size := EffectiveSize();
      var counts := BucketCounts();
      var low := entropy < config.lowThreshold && size >= config.windowSize / 2;
      stats := EntropyStats(entropy, low, size, config.windowSize, |counts.Keys|, totalObservations, lowAlarmCount);
    }
  }

  /** What counting a list of buckets must give. */
  ghost predicate Tallies(counts: map<ActionBucket, nat>, w: seq<ActionBucket>) {
    && counts.Keys == Distinct(w)
    && forall b | b in counts :: counts[b] == Count(w, b) > 0
  }

  lemma NothingTallied()
    ensures Tallies(map[], [])
  {
  }

  lemma TallyOne(counts: map<ActionBucket, nat>, w: seq<ActionBucket>, b: ActionBucket)
    requires Tallies(counts, w)
    ensures Tallies(counts[b := (if b in counts then counts[b] else 0) + 1], w + [b])
  {
    if b !in counts {
      assert b !in w;
      assert b !in multiset(w);
    }
  }

  lemma SameTally(counts: map<ActionBucket, nat>, w: seq<ActionBucket>, w': seq<ActionBucket>)
    requires Tallies(counts, w)
    requires Distinct(w) == Distinct(w') && forall b :: Count(w, b) == Count(w', b)
    ensures Tallies(counts, w')
  {
  }

  lemma FrequencyIs(w: seq<ActionBucket>, b: ActionBucket, count: nat, n: real)
    requires w != [] && count == Count(w, b) && n == |w| as real
    ensures (count as real) / n == Frequency(w, b)
  {
  }

  /** The early exit for windows of at most one action agrees with the general formula. */
  lemma FewSamples(log: real -> real, w: seq<ActionBucket>)
    requires |w| <= 1 && log(1.0) == 0.0
    ensures EntropyOf(log, w) == 0.0
  {
    if |w| == 1 {
      assert w == [w[0]];
      assert Count(w, w[0]) == 1 && Frequency(w, w[0]) == 1.0;
      assert Surprise(log, w, w[0]) == 0.0;
      assert SumOver(w, Distinct(w), Surprises(log, w)) == 0.0 + SumOver(w[1..], Distinct(w), Surprises(log, w));
    }
  }

  lemma SameValues(w: seq<ActionBucket>, w': seq<ActionBucket>)
    requires multiset(w) == multiset(w')
    ensures Distinct(w) == Distinct(w') && forall b :: Count(w, b) == Count(w', b)
  {
    assert forall b :: b in w <==> b in multiset(w);
    assert forall b :: b in w' <==> b in multiset(w');
  }
}
