/** What the epoch gate promises over whole runs of submissions and epoch changes. */
module GateRuns {
  import opened Wrappers
  import opened EpochGates

  datatype Event<A> =
    | Submission(action: A, isEmergency: bool, now: int)
    | NewEpoch(epoch: Epoch, now: int)

  /** One application of an action: which submission it was, when, and whether it bypassed the gate. */
  datatype Application<A> = Application(submission: int, action: A, epoch: Epoch, bypassed: bool)

  /** A gate together with what has happened to it. */
  datatype Trace<A> = Trace(
    gate: GateState<A>,
    submitted: seq<A>,                 // every action submitted, in order
    applied: seq<Application<A>>,      // every action applied, in order
    clearedByEmergency: nat)           // held actions that an emergency threw away

  function Step<A>(t: Trace<A>, e: Event<A>): Trace<A> {
    match e
    case Submission(action, isEmergency, now) =>
      var (g, result) := Submit(t.gate, action, isEmergency, now);
      var application := Application(|t.submitted|, action, t.gate.currentEpoch, result.Emergency?);
      Trace(g, t.submitted + [action],
            if result.Applied? || result.Emergency? then t.applied + [application] else t.applied,
            t.clearedByEmergency + if result.Emergency? && t.gate.pending.Some? then 1 else 0)
    case NewEpoch(epoch, now) =>
      var (g, released) := Advance(t.gate, epoch, now);
      t.(gate := g,
         applied := if released.Some?
                    then t.applied + [Application(|t.submitted| - 1, released.value, epoch, false)]
                    else t.applied)
  }

  function Run<A>(config: GateConfig, events: seq<Event<A>>): Trace<A> {
    if events == [] then Trace(NewGate(config), [], [], 0)
    else Step(Run(config, events[..|events| - 1]), events[|events| - 1])
  }

  // ---- the invariant behind every promise of the gate ----

  /** A held action is the newest submission, and its cooldown is still running. */
  ghost predicate HoldsNewest<A>(t: Trace<A>) {
    var g := t.gate;
    g.pending.Some? ==>
      && t.submitted != []
      && g.pending.value.action == t.submitted[|t.submitted| - 1]
      && g.hasApplied && !CanApplyAt(g, g.currentEpoch)
  }

  /** The gate remembers its last application, and a held action is newer than that. */
  predicate RemembersLast<A>(t: Trace<A>) {
    var g, n := t.gate, |t.applied|;
    && (g.hasApplied <==> t.applied != [])
    && (t.applied != [] ==>
          && g.lastAppliedEpoch == t.applied[n - 1].epoch <= g.currentEpoch
          && t.applied[n - 1].submission + (if g.pending.Some? then 1 else 0) < |t.submitted|)
  }

  /** Only submitted actions are applied. */
  ghost predicate AppliesSubmitted<A>(t: Trace<A>) {
    forall i | 0 <= i < |t.applied| ::
      && 0 <= t.applied[i].submission < |t.submitted|
      && t.applied[i].action == t.submitted[t.applied[i].submission]
  }

  /** Later in submission order and in time, and after the cooldown unless it bypassed the gate or the sum wrapped. */
  predicate Spaced<A>(config: GateConfig, before: Application<A>, after: Application<A>) {
    && before.epoch <= after.epoch
    && before.submission < after.submission
    && (after.bypassed || !CooldownFits(config, before.epoch)
        || after.epoch >= before.epoch + config.minCooldownEpochs)
  }

  predicate AllSpaced<A>(t: Trace<A>) {
    forall i | 1 <= i < |t.applied| :: Spaced(t.gate.config, t.applied[i - 1], t.applied[i])
  }

  function Held<A>(g: GateState<A>): nat {
    if g.pending.Some? then 1 else 0
  }

  predicate Counts<A>(t: Trace<A>) {
    var g := t.gate;
    && g.totalSubmitted == |t.submitted|
    && g.totalApplied + g.totalEmergency == |t.applied|
    && g.totalSubmitted == g.totalApplied + g.totalEmergency + g.totalDropped + g.totalStale
                           + Held(g) + t.clearedByEmergency
    && (!g.config.allowEmergencyBypass ==> g.totalEmergency == 0 == t.clearedByEmergency)
  }

  ghost predicate Invariant<A>(t: Trace<A>) {
    HoldsNewest(t) && RemembersLast(t) && AppliesSubmitted(t) && AllSpaced(t) && Counts(t)
  }

  lemma SubmissionKeepsInvariant<A>(t: Trace<A>, e: Event<A>)
    requires Invariant(t) && e.Submission?
    ensures Invariant(Step(t, e)) && Step(t, e).gate.config == t.gate.config
  {
    var t' := Step(t, e);
    assert HoldsNewest(t') && RemembersLast(t');
    if t'.applied != t.applied && t.applied != [] {
      assert Spaced(t.gate.config, t.applied[|t.applied| - 1], t'.applied[|t.applied|]);
    }
  }

  lemma NewEpochKeepsInvariant<A>(t: Trace<A>, e: Event<A>)
    requires Invariant(t) && e.NewEpoch?
    ensures Invariant(Step(t, e)) && Step(t, e).gate.config == t.gate.config
  {
    var t' := Step(t, e);
    assert HoldsNewest(t') && RemembersLast(t');
    if t'.applied != t.applied && t.applied != [] {
      assert Spaced(t.gate.config, t.applied[|t.applied| - 1], t'.applied[|t.applied|]);
    }
  }

  /** Every reachable state of the gate satisfies the invariant. */
  lemma {:induction false} RunKeepsInvariant<A>(config: GateConfig, events: seq<Event<A>>)
    ensures Invariant(Run(config, events))
    ensures Run(config, events).gate.config
            == if config.minCooldownEpochs == 0 then config.(minCooldownEpochs := 1) else config
  {
    if events != [] {
      var t, e := Run(config, events[..|events| - 1]), events[|events| - 1];
      RunKeepsInvariant(config, events[..|events| - 1]);
      if e.Submission? {
        SubmissionKeepsInvariant(t, e);
      } else {
        NewEpochKeepsInvariant(t, e);
      }
    }
  }

  // ---- promises over every run ----

  /** Applying at once never discards a held action: whenever one is held the gate still defers. */
  lemma ImmediateApplyDiscardsNothing<A>(config: GateConfig, events: seq<Event<A>>, action: A, isEmergency: bool,
                                         now: int)
    ensures var g := Run(config, events).gate;
            var (g', result) := Submit(g, action, isEmergency, now);
            && (result.Applied? ==> g.pending.None?)
            && (g.pending.Some? ==> result == if isEmergency && config.allowEmergencyBypass then Emergency else Dropped)
  {
    RunKeepsInvariant(config, events);
  }

  /** Actions are applied in submission order, so each at most once. */
  lemma {:induction false} AppliedInOrder<A>(t: Trace<A>, i: nat, j: nat)
    requires AllSpaced(t) && i < j < |t.applied|
    ensures t.applied[i].submission < t.applied[j].submission
    ensures t.applied[i].epoch <= t.applied[j].epoch
    decreases j
  {
    assert Spaced(t.gate.config, t.applied[j - 1], t.applied[j]);
    if i < j - 1 {
      AppliedInOrder(t, i, j - 1);
    }
  }

  /** Over any run: a regular application comes at least the cooldown after every earlier application. */
  lemma CooldownKept<A>(config: GateConfig, events: seq<Event<A>>, i: nat, j: nat)
    ensures var t := Run(config, events);
            && (i < j < |t.applied| && !t.applied[j].bypassed && CooldownFits(t.gate.config, t.applied[j - 1].epoch) ==>
                  t.applied[j].epoch >= t.applied[i].epoch + t.gate.config.minCooldownEpochs)
            && (i < j < |t.applied| ==> t.applied[i].submission < t.applied[j].submission)
            && t.gate.config.minCooldownEpochs >= 1
  {
    hide Run, HoldsNewest, RemembersLast, AppliesSubmitted, Counts;
    var t := Run(config, events);
    RunKeepsInvariant(config, events);
    if i < j < |t.applied| {
      assert Spaced(t.gate.config, t.applied[j - 1], t.applied[j]);
      AppliedInOrder(t, i, j);
      if i < j - 1 {
        AppliedInOrder(t, i, j - 1);
      }
    }
  }

  /** Rate limit: without bypass, k cooldowns pass before application k. */
  lemma {:induction false} RateLimited<A>(t: Trace<A>, k: nat)
    requires AllSpaced(t) && k < |t.applied|
    requires forall i | 0 <= i <= k :: !t.applied[i].bypassed && CooldownFits(t.gate.config, t.applied[i].epoch)
    ensures t.applied[k].epoch >= t.applied[0].epoch + k * t.gate.config.minCooldownEpochs
  {
    if k > 0 {
      RateLimited(t, k - 1);
      assert Spaced(t.gate.config, t.applied[k - 1], t.applied[k]);
    }
  }

  /** Event k is an emergency that bypasses the gate while the gate holds an action. */
  predicate ClearsHeld<A>(config: GateConfig, events: seq<Event<A>>, k: nat) {
    && k < |events| && events[k].Submission?
    && events[k].isEmergency && config.allowEmergencyBypass
    && Run(config, events[..k]).gate.pending.Some?
  }

  /** The published counters account for every submission exactly if no emergency met a held action. */
  lemma CountersBalance<A>(config: GateConfig, events: seq<Event<A>>)
    ensures var g := Run(config, events).gate;
            g.totalSubmitted == g.totalApplied + g.totalEmergency + g.totalDropped + g.totalStale + Held(g)
            <==> forall k: nat | k < |events| :: !ClearsHeld(config, events, k)
  {
    RunKeepsInvariant(config, events);
    ClearedIff(config, events);
    hide Run, ClearsHeld;
  }

  lemma {:induction false} ClearedIff<A>(config: GateConfig, events: seq<Event<A>>)
    ensures Run(config, events).clearedByEmergency == 0
            <==> forall k: nat | k < |events| :: !ClearsHeld(config, events, k)
  {
    if events != [] {
      var n := |events| - 1;
      var before := events[..n];
      ClearedIff(config, before);
      RunKeepsInvariant(config, before);
      ClearedByStep(Run(config, before), events[n]);
      hide Invariant, Submit, Advance, Step;
      forall k: nat | k < n ensures ClearsHeld(config, events, k) <==> ClearsHeld(config, before, k) {
        assert before[..k] == events[..k];
      }
      assert ClearsHeld(config, events, n) <==>
             events[n].Submission? && events[n].isEmergency && config.allowEmergencyBypass
             && Run(config, before).gate.pending.Some?;
    }
  }

  lemma ClearedByStep<A>(t: Trace<A>, e: Event<A>)
    ensures Step(t, e).clearedByEmergency == t.clearedByEmergency
            + if e.Submission? && e.isEmergency && t.gate.config.allowEmergencyBypass && t.gate.pending.Some?
              then 1 else 0
  {
  }

  /** Concretely: apply, hold one action, then an emergency.  Three submissions, but the counters add up to two. */
  lemma EmergencyLosesHeldAction<A>(a: A)
    ensures var config := GateConfig(2, true, 0);
            var events := [Submission(a, false, 0), Submission(a, false, 0), Submission(a, true, 0)];
            var g := Run(config, events).gate;
            && g.totalSubmitted == 3
            && g.totalApplied + g.totalEmergency + g.totalDropped + g.totalStale + Held(g) == 2
  {
    var config := GateConfig(2, true, 0);
    var e1, e2, e3 := Submission(a, false, 0), Submission(a, false, 0), Submission(a, true, 0);
    assert [e1, e2, e3][..2] == [e1, e2] && [e1, e2][..1] == [e1] && [e1][..0] == [];
    var t1 := Step(Run(config, []), e1);
    assert Run(config, [e1]) == t1;
    var t2 := Step(t1, e2);
    assert Run(config, [e1, e2]) == t2;
    assert Run(config, [e1, e2, e3]) == Step(t2, e3);
  }

  // ---- the cooldown and the width of epochs ----

  /**
   In every reachable state a regular submission is applied at once if and only if nothing was
   applied before, the cooldown is over, or adding the cooldown wraps around 2^64 (which voids it).
   */
  lemma AppliedAtOnceIff<A>(config: GateConfig, events: seq<Event<A>>, action: A, now: int)
    ensures var g := Run(config, events).gate;
            Submit(g, action, false, now).1 == Applied
            <==> || !g.hasApplied
                 || !CooldownFits(g.config, g.lastAppliedEpoch)
                 || g.currentEpoch >= Due(g)
  {
    RunKeepsInvariant(config, events);
  }

  /** Concretely: in the last epoch the cooldown of 2 is void and two actions are applied at once. */
  lemma CooldownVoidInLastEpoch<A>(a: A)
    ensures var config := GateConfig(2, true, 0);
            var last: Epoch := TWO_TO_64 - 1;
            var events := [NewEpoch(last, 0), Submission(a, false, 0), Submission(a, false, 0)];
            var t := Run(config, events);
            |t.applied| == 2 && t.applied[0].epoch == t.applied[1].epoch && !t.applied[1].bypassed
  {
    var config := GateConfig(2, true, 0);
    var last: Epoch := TWO_TO_64 - 1;
    var e1, e2, e3 := NewEpoch(last, 0), Submission(a, false, 0), Submission(a, false, 0);
    assert [e1, e2, e3][..2] == [e1, e2] && [e1, e2][..1] == [e1] && [e1][..0] == [];
    var t1 := Step(Run(config, []), e1);
    assert Run(config, [e1]) == t1;
    var t2 := Step(t1, e2);
    assert Run(config, [e1, e2]) == t2;
    assert Run(config, [e1, e2, e3]) == Step(t2, e3);
  }

  // ---- release of a held action ----

  /** The position of the newest submission of a run. */
  function NewestSubmission<A>(events: seq<Event<A>>): (k: Option<nat>)
    ensures k.Some? ==>
              && k.value < |events| && events[k.value].Submission?
              && forall j | k.value < j < |events| :: events[j].NewEpoch?
    ensures k.None? ==> forall j | 0 <= j < |events| :: events[j].NewEpoch?
  {
    if events == [] then None
    else if events[|events| - 1].Submission? then Some(|events| - 1)
    else NewestSubmission(events[..|events| - 1])
  }

  /** A held action is that of the newest submission, with its time and the epoch it came in. */
  lemma {:induction false} HeldSinceNewest<A>(config: GateConfig, events: seq<Event<A>>)
    requires Run(config, events).gate.pending.Some?
    ensures var k := NewestSubmission(events);
            && k.Some?
            && Run(config, events).gate.pending.value
               == PendingAction(events[k.value].action, events[k.value].now,
                                Run(config, events[..k.value]).gate.currentEpoch)
  {
    var n := |events| - 1;
    var before := events[..n];
    if events[n].NewEpoch? {
      assert Run(config, before).gate.pending == Run(config, events).gate.pending;
      HeldSinceNewest(config, before);
      assert before[..NewestSubmission(before).value] == events[..NewestSubmission(before).value];
    }
  }

  /** At this time the newest submission is no older than a held action may be. */
  predicate IsFresh<A>(config: GateConfig, events: seq<Event<A>>, now: int) {
    var k := NewestSubmission(events);
    config.maxPendingAge <= 0 || k.None? || now - events[k.value].now <= config.maxPendingAge
  }

  lemma FreshIff<A>(config: GateConfig, events: seq<Event<A>>, now: int)
    requires Run(config, events).gate.pending.Some?
    ensures IsStale(Run(config, events).gate, now) <==> !IsFresh(config, events, now)
  {
    HeldSinceNewest(config, events);
    RunKeepsInvariant(config, events);
    hide Run, Invariant;
  }

  /** Feeds epoch changes only; collects the actions released and the epochs of their release. */
  function AdvanceAll<A>(g: GateState<A>, changes: seq<(Epoch, int)>): (GateState<A>, seq<(A, Epoch)>)
    decreases |changes|
  {
    if changes == [] then (g, [])
    else
      var (g', released) := Advance(g, changes[0].0, changes[0].1);
      var (g'', later) := AdvanceAll(g', changes[1..]);
      (g'', (if released.Some? then [(released.value, changes[0].0)] else []) + later)
  }

  /** The epoch at which the cooldown of the last application ends. */
  function Due<A>(g: GateState<A>): nat {
    g.lastAppliedEpoch + g.config.minCooldownEpochs
  }

  predicate Reaches(changes: seq<(Epoch, int)>, due: nat, k: nat) {
    && k < |changes|
    && changes[k].0 >= due
    && forall i | 0 <= i < k :: changes[i].0 < due
  }

  lemma {:induction false} NothingHeldNothingReleased<A>(g: GateState<A>, changes: seq<(Epoch, int)>)
    requires g.pending.None?
    ensures AdvanceAll(g, changes).1 == [] && AdvanceAll(g, changes).0.pending.None?
    decreases |changes|
  {
    if changes != [] {
      NothingHeldNothingReleased(Advance(g, changes[0].0, changes[0].1).0, changes[1..]);
    }
  }

  /** What is released, and what is left, when a fresh held action meets a list of epoch changes. */
  ghost predicate LeavesOnTime<A>(g: GateState<A>, changes: seq<(Epoch, int)>)
    requires g.pending.Some?
  {
    var (after, releases) := AdvanceAll(g, changes);
    && (forall k: nat | Reaches(changes, Due(g), k) ::
          releases == [(g.pending.value.action, changes[k].0)] && after.pending.None?)
    && ((forall i | 0 <= i < |changes| :: changes[i].0 < Due(g)) ==>
          releases == [] && after.pending == g.pending)
  }

  /**
   A held action that stays fresh is released exactly once: at the first epoch change that reaches
   the last application plus the cooldown.  Until then it stays held.
   */
  lemma {:induction false} ReleasedAtFirstReach<A>(g: GateState<A>, changes: seq<(Epoch, int)>)
    requires g.pending.Some? && g.hasApplied && g.currentEpoch < Due(g) < TWO_TO_64
    requires forall i | 0 <= i < |changes| :: !IsStale(g, changes[i].1)
    ensures LeavesOnTime(g, changes)
    decreases |changes|
  {
    if changes != [] {
      var (g', released) := Advance(g, changes[0].0, changes[0].1);
      var rest := changes[1..];
      assert !IsStale(g, changes[0].1);
      if changes[0].0 >= Due(g) {
        NothingHeldNothingReleased(g', rest);
        assert forall k: nat | Reaches(changes, Due(g), k) :: k == 0;
      } else {
        assert forall i | 0 <= i < |rest| :: rest[i] == changes[i + 1];
        ReleasedAtFirstReach(g', rest);
        forall k: nat | Reaches(changes, Due(g), k) ensures k > 0 && Reaches(rest, Due(g'), k - 1) {
        }
      }
    }
  }

  /**
   For every reachable gate that holds an action: the action is the newest submission, its cooldown
   is still running, and if the clock keeps it fresh it leaves at the first epoch change that ends
   the cooldown, and not before.
   */
  lemma HeldActionLeavesOnTime<A>(config: GateConfig, events: seq<Event<A>>, changes: seq<(Epoch, int)>)
    requires Run(config, events).gate.pending.Some?
    requires forall i | 0 <= i < |changes| :: IsFresh(config, events, changes[i].1)
    ensures var t := Run(config, events);
            && t.submitted != []
            && t.gate.pending.value.action == t.submitted[|t.submitted| - 1]
            && t.gate.currentEpoch < Due(t.gate)
            && LeavesOnTime(t.gate, changes)
  {
    hide Run, IsStale, IsFresh, LeavesOnTime, AppliesSubmitted, AllSpaced, Counts;
    RunKeepsInvariant(config, events);
    var g := Run(config, events).gate;
    assert g.currentEpoch < Due(g) < TWO_TO_64;
    forall i | 0 <= i < |changes| ensures !IsStale(g, changes[i].1) {
      FreshIff(config, events, changes[i].1);
    }
    ReleasedAtFirstReach(g, changes);
  }

  /**
   An epoch change releases an action if and only if one is held, the change reaches the last application
   plus the cooldown, and the newest submission, whose action it is, is fresh; otherwise a held action
   that is not fresh is thrown away by the next later epoch.
   */
  lemma ReleasedIff<A>(config: GateConfig, events: seq<Event<A>>, newEpoch: Epoch, now: int)
    ensures var g := Run(config, events).gate;
            var (g', released) := Advance(g, newEpoch, now);
            && (released.Some? <==> g.pending.Some? && IsFresh(config, events, now) && newEpoch >= Due(g))
            && (released.Some? ==>
                  var k := NewestSubmission(events); k.Some? && released == Some(events[k.value].action))
            && (g'.pending.Some? <==>
                  && g.pending.Some?
                  && (newEpoch <= g.currentEpoch || (IsFresh(config, events, now) && newEpoch < Due(g))))
  {
    RunKeepsInvariant(config, events);
    if Run(config, events).gate.pending.Some? {
      HeldSinceNewest(config, events);
      FreshIff(config, events, now);
    }
    hide Run, IsFresh;
  }

  // ---- epochs and counters ----

  /** The gate is in the highest epoch it was told of. */
  lemma {:induction false} EpochIsHighest<A>(config: GateConfig, events: seq<Event<A>>)
    ensures var epoch := Run(config, events).gate.currentEpoch;
            && (forall k | 0 <= k < |events| && events[k].NewEpoch? :: events[k].epoch <= epoch)
            && (epoch == 0 || exists k | 0 <= k < |events| :: events[k].NewEpoch? && events[k].epoch == epoch)
  {
    if events != [] {
      var n := |events| - 1;
      EpochIsHighest(config, events[..n]);
      var before := Run(config, events[..n]).gate.currentEpoch;
      if k :| 0 <= k < n && events[..n][k].NewEpoch? && events[..n][k].epoch == before {
        assert events[k].NewEpoch? && events[k].epoch == before;
      }
    }
  }

  /** Which result a submission has, what it leaves held, and which counters it moves. */
  lemma SubmissionCounts<A>(config: GateConfig, events: seq<Event<A>>, action: A, isEmergency: bool, now: int)
    ensures var g := Run(config, events).gate;
            var (g', result) := Submit(g, action, isEmergency, now);
            && (result.Emergency? <==> isEmergency && config.allowEmergencyBypass)
            && (result.Dropped? <==> !(isEmergency && config.allowEmergencyBypass) && g.pending.Some?)
            && (g'.pending.Some? <==> result.Deferred? || result.Dropped?)
            && (g'.pending.Some? ==> g'.pending.value == PendingAction(action, now, g.currentEpoch))
            && g'.totalSubmitted == g.totalSubmitted + 1
            && g'.totalEmergency == g.totalEmergency + (if result.Emergency? then 1 else 0)
            && g'.totalApplied == g.totalApplied + (if result.Applied? then 1 else 0)
            && g'.totalDeferred == g.totalDeferred + (if g'.pending.Some? then 1 else 0)
            && g'.totalDropped == g.totalDropped + (if result.Dropped? then 1 else 0)
            && g'.totalStale == g.totalStale && g'.currentEpoch == g.currentEpoch
            && (g'.pending.None? ==> g'.hasApplied && g'.lastAppliedEpoch == g.currentEpoch)
            && (g'.pending.Some? ==> g'.hasApplied == g.hasApplied && g'.lastAppliedEpoch == g.lastAppliedEpoch)
  {
    RunKeepsInvariant(config, events);
    hide Run;
  }

  /** An epoch change counts an application if it releases, a stale action if it throws one away, and else nothing. */
  lemma EpochChangeCounts<A>(config: GateConfig, events: seq<Event<A>>, newEpoch: Epoch, now: int)
    ensures var g := Run(config, events).gate;
            var (g', released) := Advance(g, newEpoch, now);
            && (newEpoch <= g.currentEpoch ==> g' == g)
            && g' == g.(currentEpoch := g'.currentEpoch, pending := g'.pending, hasApplied := g'.hasApplied,
                        lastAppliedEpoch := g'.lastAppliedEpoch, totalApplied := g'.totalApplied,
                        totalStale := g'.totalStale)
            && g'.totalApplied == g.totalApplied + (if released.Some? then 1 else 0)
            && g'.totalStale == g.totalStale
                                + (if g.pending.Some? && newEpoch > g.currentEpoch && !IsFresh(config, events, now)
                                   then 1 else 0)
            && (released.Some? ==> g'.hasApplied && g'.lastAppliedEpoch == newEpoch)
            && (released.None? ==> g'.hasApplied == g.hasApplied && g'.lastAppliedEpoch == g.lastAppliedEpoch)
            && (g'.pending.Some? ==> g'.pending == g.pending)
  {
    RunKeepsInvariant(config, events);
    if Run(config, events).gate.pending.Some? {
      FreshIff(config, events, now);
    }
    hide Run, IsFresh;
  }
}
