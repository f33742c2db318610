/**
 The epoch gate (src/evolvbft/adaptive/epoch_gate.go): at most one action is held back until the
 cooldown since the last application has passed.

 The gate's object is the class EpochGate.  Its two operations are given as functions on the
 gate's state, and everything the gate promises over whole runs is proved about those functions.
 Epochs are unsigned 64-bit numbers and wrap around as in Go; times are an ordered clock.
 */
module EpochGates {
  import opened Wrappers

  const TWO_TO_64: nat := 0x1_0000_0000_0000_0000

  type Epoch = e: nat | e < TWO_TO_64

  /** Go's addition on uint64. */
  function AddEpochs(a: Epoch, b: Epoch): (s: Epoch)
    ensures a + b < TWO_TO_64 ==> s == a + b
    ensures a + b >= TWO_TO_64 ==> s == a + b - TWO_TO_64
  {
    if a + b < TWO_TO_64 then a + b else a + b - TWO_TO_64
  }

  datatype GateConfig = GateConfig(minCooldownEpochs: Epoch, allowEmergencyBypass: bool, maxPendingAge: int)

  datatype GateResult = Applied | Deferred | Dropped | Emergency

  datatype PendingAction<A> = PendingAction(action: A, submittedAt: int, epoch: Epoch)

  datatype GateState<A> = GateState(
    config: GateConfig,
    currentEpoch: Epoch,
    lastAppliedEpoch: Epoch,
    hasApplied: bool,
    pending: Option<PendingAction<A>>,
    totalSubmitted: nat,
    totalApplied: nat,
    totalDeferred: nat,
    totalDropped: nat,
    totalEmergency: nat,
    totalStale: nat)

  // ---- the operations ----

  /** A cooldown of 0 is replaced by 1. */
  function NewGate<A>(config: GateConfig): GateState<A> {
    var cooldown := if config.minCooldownEpochs == 0 then 1 else config.minCooldownEpochs;
    GateState(config.(minCooldownEpochs := cooldown), 0, 0, false, None, 0, 0, 0, 0, 0, 0)
  }

  /** Adding the cooldown to this epoch does not wrap around. */
  predicate CooldownFits(config: GateConfig, epoch: Epoch) {
    epoch + config.minCooldownEpochs < TWO_TO_64
  }

  predicate CanApplyAt<A>(g: GateState<A>, epoch: Epoch) {
    g.hasApplied ==> epoch >= AddEpochs(g.lastAppliedEpoch, g.config.minCooldownEpochs)
  }

  predicate IsStale<A>(g: GateState<A>, now: int) {
    && g.pending.Some?
    && g.config.maxPendingAge > 0
    && now - g.pending.value.submittedAt > g.config.maxPendingAge
  }

  function Submit<A>(g: GateState<A>, action: A, isEmergency: bool, now: int): (GateState<A>, GateResult) {
    var g := g.(totalSubmitted := g.totalSubmitted + 1);
    if isEmergency && g.config.allowEmergencyBypass then
      (g.(totalEmergency := g.totalEmergency + 1, lastAppliedEpoch := g.currentEpoch,
          hasApplied := true, pending := None), Emergency)
    else if CanApplyAt(g, g.currentEpoch) then
      (g.(totalApplied := g.totalApplied + 1, lastAppliedEpoch := g.currentEpoch,
          hasApplied := true, pending := None), Applied)
    else
      var replaced := if g.pending.Some? then 1 else 0;
      (g.(totalDropped := g.totalDropped + replaced,
          pending := Some(PendingAction(action, now, g.currentEpoch)),
          totalDeferred := g.totalDeferred + 1),
       if g.pending.Some? then Dropped else Deferred)
  }

  function Advance<A>(g: GateState<A>, newEpoch: Epoch, now: int): (GateState<A>, Option<A>) {
    if newEpoch <= g.currentEpoch then (g, None)
    else
      var g := g.(currentEpoch := newEpoch);
      if g.pending.None? then (g, None)
      else if IsStale(g, now) then
        (g.(totalStale := g.totalStale + 1, pending := None), None)
      else if CanApplyAt(g, newEpoch) then
        (g.(pending := None, totalApplied := g.totalApplied + 1, lastAppliedEpoch := newEpoch, hasApplied := true),
         Some(g.pending.value.action))
      else (g, None)
  }

  class EpochGate<A> {
    const config: GateConfig
    var currentEpoch: Epoch
    var lastAppliedEpoch: Epoch
    var hasApplied: bool
    var pending: Option<PendingAction<A>>
    var totalSubmitted: nat
    var totalApplied: nat
    var totalDeferred: nat
    var totalDropped: nat
    var totalEmergency: nat
    var totalStale: nat

    ghost function State(): GateState<A>
      reads this
    {
      GateState(config, currentEpoch, lastAppliedEpoch, hasApplied, pending,
                totalSubmitted, totalApplied, totalDeferred, totalDropped, totalEmergency, totalStale)
    }

    constructor (config: GateConfig)
      ensures State() == NewGate(config)
      ensures currentEpoch == 0 && !hasApplied && pending.None?
      ensures totalSubmitted == totalApplied == totalDeferred == totalDropped == totalEmergency == totalStale == 0
    {
      this.config := config.(minCooldownEpochs :=
        if config.minCooldownEpochs == 0 then 1 else config.minCooldownEpochs);
      currentEpoch, lastAppliedEpoch, hasApplied, pending := 0, 0, false, None;
      totalSubmitted, totalApplied, totalDeferred := 0, 0, 0;
      totalDropped, totalEmergency, totalStale := 0, 0, 0;
    }

    /**
     Before the first application anything may be applied.  Afterwards the cooldown has to be over,
     unless it reaches past the last epoch: then the sum wraps and no epoch from then on has to wait.
     */
    predicate CooldownOver(epoch: Epoch)
      reads this
      ensures !hasApplied ==> CooldownOver(epoch)
      ensures hasApplied && CooldownFits(config, lastAppliedEpoch) ==>
                (CooldownOver(epoch) <==> epoch - lastAppliedEpoch >= config.minCooldownEpochs)
      ensures hasApplied && !CooldownFits(config, lastAppliedEpoch) && epoch >= lastAppliedEpoch ==>
                CooldownOver(epoch)
    {
      if !hasApplied then true
      else epoch >= AddEpochs(lastAppliedEpoch, config.minCooldownEpochs)
    }

    method SubmitAction(action: A, isEmergency: bool, now: int) returns (result: GateResult)
      modifies this
      ensures (State(), result) == Submit(old(State()), action, isEmergency, now)
    {
      totalSubmitted := totalSubmitted + 1;
      if isEmergency && config.allowEmergencyBypass {
        totalEmergency := totalEmergency + 1;
        lastAppliedEpoch := currentEpoch;
        hasApplied := true;
        pending := None;
        return Emergency;
      }
      if CooldownOver(currentEpoch) {
        totalApplied := totalApplied + 1;
        lastAppliedEpoch := currentEpoch;
        hasApplied := true;
        pending := None;
        return Applied;
      }
      result := Deferred;
      if pending.Some? {
        totalDropped := totalDropped + 1;
        result := Dropped;
      }
      pending := Some(PendingAction(action, now, currentEpoch));
      totalDeferred := totalDeferred + 1;
    }

    method AdvanceEpoch(newEpoch: Epoch, now: int) returns (released: Option<A>)
      modifies this
      ensures (State(), released) == Advance(old(State()), newEpoch, now)
    {
      if newEpoch <= currentEpoch {
        return None;
      }
      currentEpoch := newEpoch;
      if pending.None? {
        return None;
      }
      if config.maxPendingAge > 0 && now - pending.value.submittedAt > config.maxPendingAge {
        totalStale := totalStale + 1;
        pending := None;
        return None;
      }
      if CooldownOver(newEpoch) {
        released := Some(pending.value.action);
        pending := None;
        totalApplied := totalApplied + 1;
        lastAppliedEpoch := newEpoch;
        hasApplied := true;
        return;
      }
      return None;
    }
  }
}
