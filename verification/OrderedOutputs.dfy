/**
 The runtime's record of ordered outputs, which drives the epoch gate
 (src/cmd/evolvbft/adaptive_runtime.go, recordOrderedOutput, through Controller.AdvanceEpoch).

 Every epoch transition comes with the clock reading at which it is processed.
 */
module OrderedOutputs {
  import opened Wrappers
  import opened EpochGates
  import opened GateRuns

  datatype Block = Block(height: nat, laneID: nat, configID: nat)

  /** An output: the transitions may contain nil entries. */
  datatype InstanceOutput = InstanceOutput(
    rank: nat,
    isNil: bool,
    block: Option<Block>,
    transitions: seq<(Option<Epoch>, int)>)

  datatype OrderedState = OrderedState(
    rank: nat, isNil: bool, transitionCount: nat,
    height: nat, laneID: nat, configID: nat, reconfigEpoch: Epoch)

  // ---- which transitions are notified ----

  /** The largest epoch seen so far. */
  function Peak(start: Epoch, ts: seq<(Option<Epoch>, int)>): (peak: Epoch)
    ensures peak >= start
    decreases |ts|
  {
    if ts == [] then start
    else Peak(if ts[0].0.Some? && ts[0].0.value > start then ts[0].0.value else start, ts[1..])
  }

  lemma {:induction false} PeakIsMaximum(start: Epoch, ts: seq<(Option<Epoch>, int)>)
    ensures forall k | 0 <= k < |ts| && ts[k].0.Some? :: ts[k].0.value <= Peak(start, ts)
    ensures Peak(start, ts) == start || exists k | 0 <= k < |ts| :: ts[k].0 == Some(Peak(start, ts))
    decreases |ts|
  {
    if ts != [] {
      var start' := if ts[0].0.Some? && ts[0].0.value > start then ts[0].0.value else start;
      PeakIsMaximum(start', ts[1..]);
      forall k | 0 <= k < |ts| && ts[k].0.Some? ensures ts[k].0.value <= Peak(start, ts) {
        assert k > 0 ==> ts[k] == ts[1..][k - 1];
      }
      if Peak(start, ts) != start' {
        var k :| 0 <= k < |ts[1..]| && ts[1..][k].0 == Some(Peak(start, ts));
        assert ts[k + 1].0 == Some(Peak(start, ts));
      }
    }
  }

  /** The epoch changes passed on: every transition that exceeds all epochs before it. */
  function Notifications(start: Epoch, ts: seq<(Option<Epoch>, int)>): (notes: seq<(Epoch, int)>)
    decreases |ts|
  {
    if ts == [] then []
    else if ts[0].0.Some? && ts[0].0.value > start then
      [(ts[0].0.value, ts[0].1)] + Notifications(ts[0].0.value, ts[1..])
    else Notifications(start, ts[1..])
  }

  predicate IsNewPeak(start: Epoch, ts: seq<(Option<Epoch>, int)>, k: nat)
    requires k < |ts|
  {
    && ts[k].0.Some?
    && ts[k].0.value > start
    && forall j | 0 <= j < k && ts[j].0.Some? :: ts[j].0.value < ts[k].0.value
  }

  /** Several outputs in a row are treated as one long list of transitions. */
  lemma {:induction false} NotificationsAppend(start: Epoch, a: seq<(Option<Epoch>, int)>, b: seq<(Option<Epoch>, int)>)
    ensures Notifications(start, a + b) == Notifications(start, a) + Notifications(Peak(start, a), b)
    ensures Peak(start, a + b) == Peak(Peak(start, a), b)
    decreases |a|
  {
    hide Notifications, Peak;
    if a == [] {
      assert a + b == b;
      NothingNotified(start);
      assert [] + Notifications(start, b) == Notifications(start, b);
    } else {
      var start' := if a[0].0.Some? && a[0].0.value > start then a[0].0.value else start;
      NotificationsAppend(start', a[1..], b);
      ConsUnfolds(start, a);
      ConsUnfolds(start, a + b);
      assert (a + b)[1..] == a[1..] + b && (a + b)[0] == a[0];
    }
  }

  lemma NothingNotified(start: Epoch)
    ensures Notifications(start, []) == [] && Peak(start, []) == start
  {
  }

  lemma ConsUnfolds(start: Epoch, ts: seq<(Option<Epoch>, int)>)
    requires ts != []
    ensures var notify := ts[0].0.Some? && ts[0].0.value > start;
            var start' := if notify then ts[0].0.value else start;
            && Peak(start, ts) == Peak(start', ts[1..])
            && Notifications(start, ts)
               == if notify then [(ts[0].0.value, ts[0].1)] + Notifications(start', ts[1..])
                  else Notifications(start, ts[1..])
  {
  }

  /** Transition k is passed on, next in line, exactly when it is a strict running maximum. */
  lemma NotifiedIffNewPeak(start: Epoch, ts: seq<(Option<Epoch>, int)>, k: nat)
    requires k < |ts|
    ensures Notifications(start, ts[..k + 1])
            == Notifications(start, ts[..k]) + if IsNewPeak(start, ts, k) then [(ts[k].0.value, ts[k].1)] else []
  {
    assert ts[..k + 1] == ts[..k] + [ts[k]];
    PeakIsMaximum(start, ts[..k]);
    NotificationsAppend(start, ts[..k], [ts[k]]);
    var peak := Peak(start, ts[..k]);
    assert Notifications(peak, [ts[k]]) ==
      if ts[k].0.Some? && ts[k].0.value > peak then [(ts[k].0.value, ts[k].1)] else [];
    assert forall j | 0 <= j < k :: ts[..k][j] == ts[j];
    if peak != start {
      var j :| 0 <= j < |ts[..k]| && ts[..k][j].0 == Some(peak);
      assert ts[j].0 == Some(peak);
    }
  }

  /** Notified epochs rise strictly, start above the recorded epoch and end at the peak. */
  lemma {:induction false} NotificationsRise(start: Epoch, ts: seq<(Option<Epoch>, int)>)
    ensures var notes := Notifications(start, ts);
            && (forall i, j | 0 <= i < j < |notes| :: notes[i].0 < notes[j].0)
            && (forall i | 0 <= i < |notes| :: start < notes[i].0)
            && Peak(start, ts) == if notes == [] then start else notes[|notes| - 1].0
    decreases |ts|
  {
    if ts != [] {
      NotificationsRise(if ts[0].0.Some? && ts[0].0.value > start then ts[0].0.value else start, ts[1..]);
    }
  }

  // ---- the recorder ----

  /** The new record.  Height and epoch are maxima; lane and configuration follow the newest real block. */
  function Recorded(state: OrderedState, out: InstanceOutput): OrderedState {
    var b := out.block;
    OrderedState(
      out.rank, out.isNil, |out.transitions|,
      if b.Some? && b.value.height > state.height then b.value.height else state.height,
      if b.Some? && (b.value.laneID > 0 || !out.isNil) then b.value.laneID else state.laneID,
      if b.Some? && (b.value.configID > 0 || !out.isNil) then b.value.configID else state.configID,
      Peak(state.reconfigEpoch, out.transitions))
  }

  method BlockRecorded(last: OrderedState, out: InstanceOutput) returns (state: OrderedState)
    ensures state == Recorded(last, out).(reconfigEpoch := last.reconfigEpoch)
  {
    state := last.(rank := out.rank, isNil := out.isNil, transitionCount := |out.transitions|);
    if out.block.Some? {
      var b := out.block.value;
      if b.height > state.height {
        state := state.(height := b.height);
      }
      if b.laneID > 0 || !out.isNil {
        state := state.(laneID := b.laneID);
      }
      if b.configID > 0 || !out.isNil {
        state := state.(configID := b.configID);
      }
    }
  }

  /** The actions among a list of releases. */
  function Actions<A>(releases: seq<(A, Epoch)>): (actions: seq<A>)
    ensures |actions| == |releases|
  {
    seq(|releases|, i requires 0 <= i < |releases| => releases[i].0)
  }

  /** One epoch change passed to the gate, if there is one (Controller.AdvanceEpoch). */
  function Notify<A>(g: Option<GateState<A>>, epoch: Epoch, now: int): (Option<GateState<A>>, seq<A>) {
    if g.None? then (None, [])
    else
      var (g', released) := Advance(g.value, epoch, now);
      (Some(g'), if released.Some? then [released.value] else [])
  }

  /** What a list of transitions does to the gate, and which actions it makes the gate release. */
  function Outcome<A>(g: Option<GateState<A>>, start: Epoch, ts: seq<(Option<Epoch>, int)>)
      : (Option<GateState<A>>, seq<A>)
  {
    if g.None? then (None, [])
    else
      var (after, releases) := AdvanceAll(g.value, Notifications(start, ts));
      (Some(after), Actions(releases))
  }

  lemma OutcomeOfCons<A>(g: Option<GateState<A>>, start: Epoch, ts: seq<(Option<Epoch>, int)>)
    requires ts != []
    ensures ts[0].0.Some? && ts[0].0.value > start ==>
              var (g', released) := Notify(g, ts[0].0.value, ts[0].1);
              var (after, later) := Outcome(g', ts[0].0.value, ts[1..]);
              Outcome(g, start, ts) == (after, released + later)
    ensures !(ts[0].0.Some? && ts[0].0.value > start) ==>
              Outcome(g, start, ts) == Outcome(g, start, ts[1..])
  {
    ConsUnfolds(start, ts);
    hide Peak, Notifications, Actions, Advance;
    if g.Some? && ts[0].0.Some? && ts[0].0.value > start {
      var notes := Notifications(start, ts);
      assert notes[1..] == Notifications(ts[0].0.value, ts[1..]);
      var (g', released) := Advance(g.value, ts[0].0.value, ts[0].1);
      ActionsAppend(if released.Some? then [(released.value, ts[0].0.value)] else [], AdvanceAll(g', notes[1..]).1);
    } else {
      var nothing: seq<A> := [];
      assert nothing + nothing == nothing;
    }
  }

  lemma ActionsAppend<A>(a: seq<(A, Epoch)>, b: seq<(A, Epoch)>)
    ensures Actions(a + b) == Actions(a) + Actions(b)
    ensures |a| == 1 ==> Actions(a) == [a[0].0]
  {
  }

  class OrderedRecorder<A> {
    var lastOrdered: OrderedState
    const gate: EpochGate?<A>    // absent when there is no controller, or one without a gate

    constructor (gate: EpochGate?<A>)
      ensures this.gate == gate && lastOrdered == OrderedState(0, false, 0, 0, 0, 0, 0)
    {
      this.gate := gate;
      lastOrdered := OrderedState(0, false, 0, 0, 0, 0, 0);
    }

    ghost function GateNow(): Option<GateState<A>>
      reads gate
    {
      if gate == null then None else Some(gate.State())
    }

    /** Tells the gate about a new epoch; returns the action to apply, if one is released. */
    method NotifyGate(epoch: Epoch, now: int) returns (released: seq<A>)
      modifies gate
      ensures (GateNow(), released) == Notify(old(GateNow()), epoch, now)
    {
      released := [];
      if gate != null {
        var action := gate.AdvanceEpoch(epoch, now);
        if action.Some? {
          released := [action.value];
        }
      }
    }

    /** Returns the actions handed to the actuator. */
    method RecordOrderedOutput(out: InstanceOutput) returns (released: seq<A>)
      modifies this, gate
      ensures lastOrdered == Recorded(old(lastOrdered), out)
      ensures (GateNow(), released) == Outcome(old(GateNow()), old(lastOrdered).reconfigEpoch, out.transitions)
    {
      var state := BlockRecorded(lastOrdered, out);
      hide Peak, Outcome, Notify, Notifications;
      ghost var seen, ts, start := state, out.transitions, state.reconfigEpoch;
      ghost var outcome := Outcome(GateNow(), start, ts);
      released := [];
      var i := 0;
      assert ts[0..] == ts && [] + outcome.1 == outcome.1;
      while i < |out.transitions|
        invariant i <= |ts|
        invariant state == seen.(reconfigEpoch := state.reconfigEpoch)
        invariant Peak(state.reconfigEpoch, ts[i..]) == Peak(start, ts)
        invariant outcome.0 == Outcome(GateNow(), state.reconfigEpoch, ts[i..]).0
        invariant outcome.1 == released + Outcome(GateNow(), state.reconfigEpoch, ts[i..]).1
      {
        var transition := out.transitions[i];
        assert ts[i..][1..] == ts[i + 1..] && ts[i..][0] == transition;
        ConsUnfolds(state.reconfigEpoch, ts[i..]);
        OutcomeOfCons(GateNow(), state.reconfigEpoch, ts[i..]);
        if transition.0.Some? && transition.0.value > state.reconfigEpoch {
          state := state.(reconfigEpoch := transition.0.value);
          var applied := NotifyGate(transition.0.value, transition.1);
          released := released + applied;
        }
        i := i + 1;
      }
      assert ts[|ts|..] == [];
      EmptyOutcome(GateNow(), state.reconfigEpoch);
      assert released + [] == released;
      lastOrdered := state;
    }
  }

  lemma EmptyOutcome<A>(g: Option<GateState<A>>, start: Epoch)
    ensures Outcome(g, start, []) == (g, []) && Peak(start, []) == start
  {
    assert Notifications(start, []) == [];
  }

  // ---- promises over runs of outputs ----

  function RecordAll(state: OrderedState, outs: seq<InstanceOutput>): OrderedState {
    if outs == [] then state else Recorded(RecordAll(state, outs[..|outs| - 1]), outs[|outs| - 1])
  }

  function AllTransitions(outs: seq<InstanceOutput>): seq<(Option<Epoch>, int)> {
    if outs == [] then [] else AllTransitions(outs[..|outs| - 1]) + outs[|outs| - 1].transitions
  }

  function AllNotes(state: OrderedState, outs: seq<InstanceOutput>): seq<(Epoch, int)> {
    if outs == [] then []
    else AllNotes(state, outs[..|outs| - 1])
         + Notifications(RecordAll(state, outs[..|outs| - 1]).reconfigEpoch, outs[|outs| - 1].transitions)
  }

  /**
   Over any run of outputs: the notifications are exactly the strict running maxima of all
   transitions, hence strictly rising across output boundaries, and the recorded epoch is the peak.
   */
  lemma {:induction false} RunNotifiesRunningMaxima(state: OrderedState, outs: seq<InstanceOutput>)
    ensures AllNotes(state, outs) == Notifications(state.reconfigEpoch, AllTransitions(outs))
    ensures RecordAll(state, outs).reconfigEpoch == Peak(state.reconfigEpoch, AllTransitions(outs))
    ensures forall i, j | 0 <= i < j < |AllNotes(state, outs)| ::
              AllNotes(state, outs)[i].0 < AllNotes(state, outs)[j].0
  {
    if outs != [] {
      var init, last := outs[..|outs| - 1], outs[|outs| - 1];
      RunNotifiesRunningMaxima(state, init);
      NotificationsAppend(state.reconfigEpoch, AllTransitions(init), last.transitions);
    }
    NotificationsRise(state.reconfigEpoch, AllTransitions(outs));
  }

  /** Height and epoch never decrease over a run. */
  lemma {:induction false} HeightAndEpochNeverDecrease(state: OrderedState, outs: seq<InstanceOutput>, k: nat)
    requires k <= |outs|
    ensures RecordAll(state, outs[..k]).height <= RecordAll(state, outs).height
    ensures RecordAll(state, outs[..k]).reconfigEpoch <= RecordAll(state, outs).reconfigEpoch
    decreases |outs|
  {
    if k < |outs| {
      var init := outs[..|outs| - 1];
      assert init[..k] == outs[..k];
      HeightAndEpochNeverDecrease(state, init, k);
    } else {
      assert outs[..k] == outs;
    }
  }

  /** An output with a block tells its lane if it is a real one, or if the lane is not 0. */
  predicate TellsLane(out: InstanceOutput) {
    out.block.Some? && (!out.isNil || out.block.value.laneID > 0)
  }

  /** And the same for its configuration. */
  predicate TellsConfig(out: InstanceOutput) {
    out.block.Some? && (!out.isNil || out.block.value.configID > 0)
  }

  predicate IsNewestLane(outs: seq<InstanceOutput>, k: nat) {
    k < |outs| && TellsLane(outs[k]) && forall j | k < j < |outs| :: !TellsLane(outs[j])
  }

  predicate IsNewestConfig(outs: seq<InstanceOutput>, k: nat) {
    k < |outs| && TellsConfig(outs[k]) && forall j | k < j < |outs| :: !TellsConfig(outs[j])
  }

  /**
   What is recorded after a run: rank and kind of the last output, the greatest height so far, and lane
   and configuration as the newest output told them that did.
   */
  lemma RecordIs(state: OrderedState, outs: seq<InstanceOutput>)
    requires outs != []
    ensures var r, last := RecordAll(state, outs), outs[|outs| - 1];
            && r.rank == last.rank && r.isNil == last.isNil && r.transitionCount == |last.transitions|
            && IsGreatestHeight(state.height, outs, r.height)
            && (forall k: nat | IsNewestLane(outs, k) :: r.laneID == outs[k].block.value.laneID)
            && ((forall k | 0 <= k < |outs| :: !TellsLane(outs[k])) ==> r.laneID == state.laneID)
            && (forall k: nat | IsNewestConfig(outs, k) :: r.configID == outs[k].block.value.configID)
            && ((forall k | 0 <= k < |outs| :: !TellsConfig(outs[k])) ==> r.configID == state.configID)
  {
    hide IsGreatestHeight, RecordAll;
    LastIsRecorded(state, outs);
    HeightIs(state, outs);
    forall k: nat | IsNewestLane(outs, k) ensures RecordAll(state, outs).laneID == outs[k].block.value.laneID {
      LaneIs(state, outs, k);
    }
    forall k: nat | IsNewestConfig(outs, k) ensures RecordAll(state, outs).configID == outs[k].block.value.configID {
      ConfigIs(state, outs, k);
    }
    if forall k | 0 <= k < |outs| :: !TellsLane(outs[k]) {
      NoLane(state, outs);
    }
    if forall k | 0 <= k < |outs| :: !TellsConfig(outs[k]) {
      NoConfig(state, outs);
    }
  }

  lemma LastIsRecorded(state: OrderedState, outs: seq<InstanceOutput>)
    requires outs != []
    ensures var r, last := RecordAll(state, outs), outs[|outs| - 1];
            r.rank == last.rank && r.isNil == last.isNil && r.transitionCount == |last.transitions|
  {
    hide Peak;
  }

  /** The greatest of a height and those of the outputs' blocks. */
  predicate IsGreatestHeight(start: nat, outs: seq<InstanceOutput>, height: nat) {
    && height >= start
    && (forall k | 0 <= k < |outs| && outs[k].block.Some? :: outs[k].block.value.height <= height)
    && (height == start || exists k | 0 <= k < |outs| :: outs[k].block.Some? && outs[k].block.value.height == height)
  }

  lemma {:induction false} HeightIs(state: OrderedState, outs: seq<InstanceOutput>)
    ensures IsGreatestHeight(state.height, outs, RecordAll(state, outs).height)
  {
    hide Peak;
    if outs != [] {
      var n := |outs| - 1;
      var init, before := outs[..n], RecordAll(state, outs[..n]).height;
      HeightIs(state, init);
      if k :| 0 <= k < n && init[k].block.Some? && init[k].block.value.height == before {
        assert outs[k].block.Some? && outs[k].block.value.height == before;
      }
    }
  }

  lemma NothingRecorded(state: OrderedState)
    ensures RecordAll(state, []) == state
  {
  }

  lemma LaneStep(state: OrderedState, outs: seq<InstanceOutput>)
    requires outs != []
    ensures var n := |outs| - 1;
            RecordAll(state, outs).laneID
            == if TellsLane(outs[n]) then outs[n].block.value.laneID else RecordAll(state, outs[..n]).laneID
    ensures TellsLane(outs[|outs| - 1]) ==> outs[|outs| - 1].block.Some?
  {
    hide Peak;
  }

  lemma {:induction false} LaneIs(state: OrderedState, outs: seq<InstanceOutput>, k: nat)
    requires IsNewestLane(outs, k) && outs[k].block.Some?
    ensures RecordAll(state, outs).laneID == outs[k].block.value.laneID
  {
    hide RecordAll;
    var n := |outs| - 1;
    LaneStep(state, outs);
    if k < n {
      assert !TellsLane(outs[n]);
      hide TellsLane;
      assert outs[..n][k] == outs[k];
      LaneIs(state, outs[..n], k);
    }
  }

  lemma {:induction false} NoLane(state: OrderedState, outs: seq<InstanceOutput>)
    requires forall k | 0 <= k < |outs| :: !TellsLane(outs[k])
    ensures RecordAll(state, outs).laneID == state.laneID
  {
    hide RecordAll, TellsLane;
    if outs == [] {
      NothingRecorded(state);
    } else {
      var n := |outs| - 1;
      LaneStep(state, outs);
      forall k | 0 <= k < n ensures !TellsLane(outs[..n][k]) {
        assert outs[..n][k] == outs[k];
      }
      NoLane(state, outs[..n]);
    }
  }

  lemma ConfigStep(state: OrderedState, outs: seq<InstanceOutput>)
    requires outs != []
    ensures var n := |outs| - 1;
            RecordAll(state, outs).configID
            == if TellsConfig(outs[n]) then outs[n].block.value.configID else RecordAll(state, outs[..n]).configID
    ensures TellsConfig(outs[|outs| - 1]) ==> outs[|outs| - 1].block.Some?
  {
    hide Peak;
  }

  lemma {:induction false} ConfigIs(state: OrderedState, outs: seq<InstanceOutput>, k: nat)
    requires IsNewestConfig(outs, k) && outs[k].block.Some?
    ensures RecordAll(state, outs).configID == outs[k].block.value.configID
  {
    hide RecordAll;
    var n := |outs| - 1;
    ConfigStep(state, outs);
    if k < n {
      assert !TellsConfig(outs[n]);
      hide TellsConfig;
      assert outs[..n][k] == outs[k];
      ConfigIs(state, outs[..n], k);
    }
  }

  lemma {:induction false} NoConfig(state: OrderedState, outs: seq<InstanceOutput>)
    requires forall k | 0 <= k < |outs| :: !TellsConfig(outs[k])
    ensures RecordAll(state, outs).configID == state.configID
  {
    hide RecordAll, TellsConfig;
    if outs == [] {
      NothingRecorded(state);
    } else {
      var n := |outs| - 1;
      ConfigStep(state, outs);
      forall k | 0 <= k < n ensures !TellsConfig(outs[..n][k]) {
        assert outs[..n][k] == outs[k];
      }
      NoConfig(state, outs[..n]);
    }
  }

  /** A gate in step with the record stays in step, and every notification really advances it. */
  lemma {:induction false} GateStaysInStep<A>(g: GateState<A>, start: Epoch, ts: seq<(Option<Epoch>, int)>)
    requires g.currentEpoch == start
    ensures AdvanceAll(g, Notifications(start, ts)).0.currentEpoch == Peak(start, ts)
    decreases |ts|
  {
    if ts != [] {
      if ts[0].0.Some? && ts[0].0.value > start {
        var notes := Notifications(start, ts);
        assert notes[1..] == Notifications(ts[0].0.value, ts[1..]);
        GateStaysInStep(Advance(g, ts[0].0.value, ts[0].1).0, ts[0].0.value, ts[1..]);
      } else {
        GateStaysInStep(g, start, ts[1..]);
      }
    }
  }
}
