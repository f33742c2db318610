/**
 From a proposed action to the decided one: governance (marl/organization.py, sanitize) followed by
 projection onto the guardrails (marl/policy.py, project_action and decide).
 */
module Policies {
  import opened Wrappers
  import opened Organization

  function Clamp(x: int, low: int, high: int): (r: int)
    requires low <= high
    ensures low <= r <= high && (low <= x <= high ==> r == x)
  {
    if x < low then low else if x > high then high else x
  }

  function AtLeast(x: int, low: int): (r: int)
    ensures r >= low && r >= x && (r == x || r == low)
  {
    if x >= low then x else low
  }

  // ---- observed agents ----

  /** What is observed of an instance; of several entries the last one counts. */
  function Observed(agents: seq<AgentObservation>, id: int): (agent: Option<AgentObservation>)
    ensures agent.Some? ==> agent.value in agents && agent.value.instanceId == id
    ensures agent.None? ==> forall a | a in agents :: a.instanceId != id
  {
    if agents == [] then None
    else
      var n := |agents| - 1;
      assert agents == agents[..n] + [agents[n]];
      if agents[n].instanceId == id then Some(agents[n]) else Observed(agents[..n], id)
  }

  /** The newest entry of an instance counts. */
  lemma {:induction false} LastEntryCounts(agents: seq<AgentObservation>, id: int, k: nat)
    requires k < |agents| && agents[k].instanceId == id
    requires forall j | k < j < |agents| :: agents[j].instanceId != id
    ensures Observed(agents, id) == Some(agents[k])
  {
    var n := |agents| - 1;
    if k < n {
      assert agents[n].instanceId != id;
      LastEntryCounts(agents[..n], id, k);
    }
  }

  // ---- governance ----

  function Held(allowed: set<Field>, f: Field, proposed: int, current: int): int {
    if f in allowed then proposed else current
  }

  function SanitizedAgent(allowed: set<Field>, proposed: AgentAction, current: AgentObservation): AgentAction {
    AgentAction(
      proposed.instanceId,
      Held(allowed, CommitteeSize, proposed.committeeSize, current.committeeSize),
      Held(allowed, PacemakerTimeoutMs, proposed.pacemakerTimeoutMs, current.pacemakerTimeoutMs),
      Held(allowed, MempoolMaxBatchTxs, proposed.mempoolMaxBatchTxs, current.mempoolMaxBatchTxs),
      Held(allowed, MempoolProposalIntervalMs, proposed.mempoolProposalIntervalMs, current.mempoolProposalIntervalMs),
      NO_EXTRAS)
  }

  /** Actions for unobserved instances are dropped, the others keep their order. */
  function SanitizedAgents(o: Observation, allowed: set<Field>, actions: seq<AgentAction>): seq<AgentAction> {
    if actions == [] then []
    else
      var init, last := SanitizedAgents(o, allowed, actions[..|actions| - 1]), actions[|actions| - 1];
      var current := Observed(o.agents, last.instanceId);
      if current.None? then init else init + [SanitizedAgent(allowed, last, current.value)]
  }

  function Join(parts: seq<string>, separator: string): string {
    if parts == [] then "" else if |parts| == 1 then parts[0] else parts[0] + separator + Join(parts[1..], separator)
  }

  function RoleName(role: Role): string {
    match role
    case SafetyGuardian => "safety_guardian"
    case RecoveryTuner => "recovery_tuner"
    case MembershipTuner => "membership_tuner"
    case LaneTuner => "lane_tuner"
  }

  function LevelName(level: Level): string {
    match level
    case Nominal => "nominal"
    case Elevated => "elevated"
    case Critical => "critical"
  }

  function ReasonName(reason: Reason): string {
    match reason
    case MembershipFrozen => "membership-frozen"
    case LaneTuningFrozen => "lane-tuning-frozen"
    case SafetyEscalation(level) => "safety-escalation:" + LevelName(level)
    case CannotParticipate => "cannot-participate"
  }

  /** The text that records why the action looks as it does. */
  function Annotation(roles: seq<Role>, level: Level, notes: seq<Reason>): string {
    "roles=" + (if roles == [] then "none"
                else Join(seq(|roles|, i requires 0 <= i < |roles| => RoleName(roles[i])), ","))
    + " escalation=" + LevelName(level)
    + " notes=" + (if notes == [] then "nominal"
                   else Join(seq(|notes|, i requires 0 <= i < |notes| => ReasonName(notes[i])), ";"))
  }

  function Annotated(reason: string, annotation: string): string {
    if reason != "" then reason + " " + annotation else annotation
  }

  function Sanitized(o: Observation, a: Action): Action {
    var allowed := Allowed(o);
    Action(
      Held(allowed, CommitteeSize, a.committeeSize, o.committeeSize),
      Held(allowed, PacemakerTimeoutMs, a.pacemakerTimeoutMs, o.pacemakerTimeoutMs),
      Held(allowed, MempoolMaxBatchTxs, a.mempoolMaxBatchTxs, o.mempoolMaxBatchTxs),
      Held(allowed, MempoolProposalIntervalMs, a.mempoolProposalIntervalMs, o.mempoolProposalIntervalMs),
      SubmitJoin in allowed && a.submitJoin,
      SubmitLeave in allowed && a.submitLeave,
      if HydraDiscoveryTarget in allowed then a.hydraDiscoveryTarget else 0,
      Annotated(a.reason, Annotation(ActiveRoles(o), EscalationLevel(o), Notes(o))),
      SanitizedAgents(o, allowed, a.agentActions))
  }

  method SanitizeAgents(o: Observation, allowed: set<Field>, actions: seq<AgentAction>)
      returns (sanitized: seq<AgentAction>)
    ensures sanitized == SanitizedAgents(o, allowed, actions)
  {
    hide SanitizedAgent;
    sanitized := [];
    var i := 0;
    assert actions[..0] == [];
    while i < |actions|
      invariant i <= |actions| && sanitized == SanitizedAgents(o, allowed, actions[..i])
    {
      assert actions[..i + 1][..i] == actions[..i];
      var current := Observed(o.agents, actions[i].instanceId);
      if current.Some? {
        sanitized := sanitized + [SanitizedAgent(allowed, actions[i], current.value)];
      }
      i := i + 1;
    }
    assert actions[..|actions|] == actions;
  }

  method AllowedBy(d: OrganizationDecision, o: Observation) returns (allowed: set<Field>)
    requires d.activeRoles == ActiveRoles(o) && d.blockedFields == FieldsOf(Blocks(o))
    ensures allowed == Allowed(o)
  {
    allowed := {};
    var i := 0;
    while i < |d.activeRoles|
      invariant i <= |d.activeRoles|
      invariant forall f: Field :: f in allowed <==> exists k | 0 <= k < i :: f in AllowedFields(d.activeRoles[k])
    {
      var more := AllowedFields(d.activeRoles[i]);
      allowed := allowed + (set f | f in more);
      i := i + 1;
    }
    forall f: Field ensures f in allowed <==> f in Owned(o) {
      OwnedBy(o, f);
      ActiveIff(o, OwnerOf(f));
      OnlyOwner(d.activeRoles, f);
    }
    assert allowed == Owned(o);
    allowed := allowed - (set f | f in d.blockedFields);
  }

  lemma OnlyOwner(roles: seq<Role>, f: Field)
    ensures (exists k | 0 <= k < |roles| :: f in AllowedFields(roles[k])) <==> OwnerOf(f) in roles
  {
    assert f in AllowedFields(OwnerOf(f));
    assert forall role: Role | f in AllowedFields(role) :: role == OwnerOf(f);
  }

  /** Governance of a proposed action.  Some role is always active, so there is no case without one. */
  method Sanitize(o: Observation, a: Action) returns (sanitized: Action)
    ensures sanitized == Sanitized(o, a)
  {
    var d := Evaluate(o);
    hide Allowed, Blocks, FieldsOf, ActiveRoles, EscalationLevel, Notes, Annotation, SanitizedAgents;
    var allowed := AllowedBy(d, o);
    SomeRoleIsActive(o);
    var agents := SanitizeAgents(o, allowed, a.agentActions);
    sanitized := Action(
      Held(allowed, CommitteeSize, a.committeeSize, o.committeeSize),
      Held(allowed, PacemakerTimeoutMs, a.pacemakerTimeoutMs, o.pacemakerTimeoutMs),
      Held(allowed, MempoolMaxBatchTxs, a.mempoolMaxBatchTxs, o.mempoolMaxBatchTxs),
      Held(allowed, MempoolProposalIntervalMs, a.mempoolProposalIntervalMs, o.mempoolProposalIntervalMs),
      if SubmitJoin in allowed then a.submitJoin else false,
      if SubmitLeave in allowed then a.submitLeave else false,
      if HydraDiscoveryTarget in allowed then a.hydraDiscoveryTarget else 0,
      a.reason, agents);
    sanitized := sanitized.(reason := Annotated(sanitized.reason,
                                                Annotation(d.activeRoles, d.escalationLevel, d.notes)));
  }

  // ---- projection ----

  function ProjectedCommittee(size: int, validators: int): int {
    if size <= 0 then 0 else Clamp(size, 4, AtLeast(validators, 4))
  }

  function ProjectedAgent(o: Observation, a: AgentAction): AgentAction {
    var seen := Observed(o.agents, a.instanceId);
    AgentAction(
      a.instanceId,
      ProjectedCommittee(a.committeeSize, if seen.Some? then seen.value.validatorCount else o.validatorCount),
      Clamp(a.pacemakerTimeoutMs, 250, 5000),
      Clamp(a.mempoolMaxBatchTxs, 1, 8192),
      Clamp(a.mempoolProposalIntervalMs, 10, 2000),
      NO_EXTRAS)
  }

  function ProjectedAgents(o: Observation, actions: seq<AgentAction>): (r: seq<AgentAction>)
    ensures |r| == |actions| && forall i | 0 <= i < |r| :: r[i] == ProjectedAgent(o, actions[i])
  {
    seq(|actions|, i requires 0 <= i < |actions| => ProjectedAgent(o, actions[i]))
  }

  function Projected(o: Observation, a: Action): Action {
    var join := a.submitJoin && !o.localValidator;
    var leave := a.submitLeave && o.localValidator && o.validatorCount > 3;
    Action(
      ProjectedCommittee(a.committeeSize, o.validatorCount),
      Clamp(a.pacemakerTimeoutMs, 250, 5000),
      Clamp(a.mempoolMaxBatchTxs, 1, 8192),
      Clamp(a.mempoolProposalIntervalMs, 10, 2000),
      join && !leave, leave && !join,
      AtLeast(a.hydraDiscoveryTarget, 0),
      a.reason, ProjectedAgents(o, a.agentActions))
  }

  method ProjectAction(o: Observation, a: Action) returns (projected: Action)
    ensures projected == Projected(o, a)
  {
    var submitJoin := a.submitJoin && !o.localValidator;
    var submitLeave := a.submitLeave && o.localValidator && o.validatorCount > 3;
    if submitJoin && submitLeave {
      submitJoin, submitLeave := false, false;
    }
    var agents: seq<AgentAction> := [];
    var i := 0;
    while i < |a.agentActions|
      invariant i <= |a.agentActions| && |agents| == i
      invariant forall k | 0 <= k < i :: agents[k] == ProjectedAgent(o, a.agentActions[k])
    {
      agents := agents + [ProjectedAgent(o, a.agentActions[i])];
      i := i + 1;
    }
    assert agents == ProjectedAgents(o, a.agentActions);
    projected := Action(
      ProjectedCommittee(a.committeeSize, o.validatorCount),
      Clamp(a.pacemakerTimeoutMs, 250, 5000),
      Clamp(a.mempoolMaxBatchTxs, 1, 8192),
      Clamp(a.mempoolProposalIntervalMs, 10, 2000),
      submitJoin, submitLeave, AtLeast(a.hydraDiscoveryTarget, 0), a.reason, agents);
  }

  // ---- decisions ----

  function Decided(o: Observation, a: Action): Action {
    Projected(o, Sanitized(o, a))
  }

  method Decide(o: Observation, proposal: Action) returns (decision: Action)
    ensures decision == Decided(o, proposal)
  {
    var sanitized := Sanitize(o, proposal);
    decision := ProjectAction(o, sanitized);
  }

  predicate CommitteeInBounds(size: int, validators: int) {
    size == 0 || 4 <= size <= AtLeast(validators, 4)
  }

  predicate TuningInBounds(pacemaker: int, batch: int, interval: int) {
    250 <= pacemaker <= 5000 && 1 <= batch <= 8192 && 10 <= interval <= 2000
  }

  /** The guardrails every decision keeps, whatever was proposed. */
  ghost predicate InGuardrails(o: Observation, d: Action) {
    && CommitteeInBounds(d.committeeSize, o.validatorCount)
    && TuningInBounds(d.pacemakerTimeoutMs, d.mempoolMaxBatchTxs, d.mempoolProposalIntervalMs)
    && d.hydraDiscoveryTarget >= 0
    && !(d.submitJoin && d.submitLeave)
    && (d.submitJoin ==> !o.localValidator)
    && (d.submitLeave ==> o.localValidator && o.validatorCount > 3)
    && forall i | 0 <= i < |d.agentActions| ::
         var agent := d.agentActions[i];
         && Observed(o.agents, agent.instanceId).Some?
         && CommitteeInBounds(agent.committeeSize, Observed(o.agents, agent.instanceId).value.validatorCount)
         && TuningInBounds(agent.pacemakerTimeoutMs, agent.mempoolMaxBatchTxs, agent.mempoolProposalIntervalMs)
         && agent.extras == NO_EXTRAS
  }

  lemma {:induction false} OnlyObservedAgents(o: Observation, allowed: set<Field>, actions: seq<AgentAction>)
    ensures forall i | 0 <= i < |SanitizedAgents(o, allowed, actions)| ::
              Observed(o.agents, SanitizedAgents(o, allowed, actions)[i].instanceId).Some?
  {
    hide Observed;
    if actions != [] {
      OnlyObservedAgents(o, allowed, actions[..|actions| - 1]);
    }
  }

  lemma DecisionInGuardrails(o: Observation, a: Action)
    ensures InGuardrails(o, Decided(o, a))
  {
    OnlyObservedAgents(o, Allowed(o), a.agentActions);
    hide Allowed, Observed, SanitizedAgents, Annotation, Annotated;
  }

  /** A field that may not be changed ends up at its observed value, moved into the guardrails. */
  lemma BlockedFieldsAreHeld(o: Observation, a: Action)
    ensures var d, allowed := Decided(o, a), Allowed(o);
            && (CommitteeSize !in allowed ==> d.committeeSize == ProjectedCommittee(o.committeeSize, o.validatorCount))
            && (PacemakerTimeoutMs !in allowed ==> d.pacemakerTimeoutMs == Clamp(o.pacemakerTimeoutMs, 250, 5000))
            && (MempoolMaxBatchTxs !in allowed ==> d.mempoolMaxBatchTxs == Clamp(o.mempoolMaxBatchTxs, 1, 8192))
            && (MempoolProposalIntervalMs !in allowed ==>
                  d.mempoolProposalIntervalMs == Clamp(o.mempoolProposalIntervalMs, 10, 2000))
            && (SubmitJoin !in allowed ==> !d.submitJoin)
            && (SubmitLeave !in allowed ==> !d.submitLeave)
            && (HydraDiscoveryTarget !in allowed ==> d.hydraDiscoveryTarget == 0)
  {
    hide Allowed, SanitizedAgents, Annotation, Annotated;
  }

  /** A number moved into a range. */
  predicate IsMovedInto(x: int, low: int, high: int, r: int) {
    low <= r <= high && (r == x || (r == low && x < low) || (r == high && x > high))
  }

  /** No committee stays none; any other has at least 4 members and at most as many as there are validators, if 4. */
  predicate IsCommittee(size: int, validators: int, r: int) {
    if size <= 0 then r == 0 else IsMovedInto(size, 4, if validators >= 4 then validators else 4, r)
  }

  /** A field that may be changed ends up at its proposed value, moved into the guardrails. */
  lemma AllowedFieldsFollow(o: Observation, a: Action)
    ensures var d, allowed := Decided(o, a), Allowed(o);
            && (CommitteeSize in allowed ==> IsCommittee(a.committeeSize, o.validatorCount, d.committeeSize))
            && (PacemakerTimeoutMs in allowed ==> IsMovedInto(a.pacemakerTimeoutMs, 250, 5000, d.pacemakerTimeoutMs))
            && (MempoolMaxBatchTxs in allowed ==> IsMovedInto(a.mempoolMaxBatchTxs, 1, 8192, d.mempoolMaxBatchTxs))
            && (MempoolProposalIntervalMs in allowed ==>
                  IsMovedInto(a.mempoolProposalIntervalMs, 10, 2000, d.mempoolProposalIntervalMs))
            && (HydraDiscoveryTarget in allowed ==>
                  d.hydraDiscoveryTarget == if a.hydraDiscoveryTarget > 0 then a.hydraDiscoveryTarget else 0)
  {
    hide Allowed, SanitizedAgents, Annotation, Annotated;
  }

  /** For an observed instance: each field follows the proposal if it may be changed, and the observation if not. */
  predicate AgentFollows(o: Observation, allowed: set<Field>, a: AgentAction, r: AgentAction) {
    var seen := Observed(o.agents, a.instanceId);
    && seen.Some? && r.instanceId == a.instanceId && r.extras == Extras([], [], [], false, [])
    && IsCommittee(if CommitteeSize in allowed then a.committeeSize else seen.value.committeeSize,
                   seen.value.validatorCount, r.committeeSize)
    && IsMovedInto(if PacemakerTimeoutMs in allowed then a.pacemakerTimeoutMs else seen.value.pacemakerTimeoutMs,
                   250, 5000, r.pacemakerTimeoutMs)
    && IsMovedInto(if MempoolMaxBatchTxs in allowed then a.mempoolMaxBatchTxs else seen.value.mempoolMaxBatchTxs,
                   1, 8192, r.mempoolMaxBatchTxs)
    && IsMovedInto(if MempoolProposalIntervalMs in allowed then a.mempoolProposalIntervalMs
                   else seen.value.mempoolProposalIntervalMs, 10, 2000, r.mempoolProposalIntervalMs)
  }

  /** Which of the proposed actions are for observed instances, in order. */
  function ForObserved(o: Observation, actions: seq<AgentAction>): seq<AgentAction> {
    if actions == [] then []
    else
      var rest := ForObserved(o, actions[1..]);
      if exists seen | seen in o.agents :: seen.instanceId == actions[0].instanceId then [actions[0]] + rest else rest
  }

  lemma {:induction false} ForObservedSnoc(o: Observation, actions: seq<AgentAction>, a: AgentAction)
    ensures ForObserved(o, actions + [a])
            == ForObserved(o, actions) + if Observed(o.agents, a.instanceId).Some? then [a] else []
  {
    hide Observed;
    if actions == [] {
      assert [a][1..] == [] && [] + [a] == [a];
    } else {
      assert (actions + [a])[1..] == actions[1..] + [a];
      ForObservedSnoc(o, actions[1..], a);
    }
  }

  /** A decision acts on exactly the observed instances that the proposal names, one action after the other. */
  lemma {:induction false} AgentsFollow(o: Observation, allowed: set<Field>, actions: seq<AgentAction>)
    ensures var decided, proposed := ProjectedAgents(o, SanitizedAgents(o, allowed, actions)), ForObserved(o, actions);
            |decided| == |proposed|
            && forall i | 0 <= i < |decided| :: AgentFollows(o, allowed, proposed[i], decided[i])
  {
    hide Observed;
    if actions != [] {
      var n := |actions| - 1;
      AgentsFollow(o, allowed, actions[..n]);
      ForObservedSnoc(o, actions[..n], actions[n]);
      assert actions == actions[..n] + [actions[n]];
      hide ForObserved, AgentFollows, ProjectedAgent, SanitizedAgent;
      if Observed(o.agents, actions[n].instanceId).Some? {
        AgentIsDecided(o, allowed, actions[n]);
      }
    }
  }

  lemma AgentIsDecided(o: Observation, allowed: set<Field>, a: AgentAction)
    requires Observed(o.agents, a.instanceId).Some?
    ensures var current := Observed(o.agents, a.instanceId).value;
            AgentFollows(o, allowed, a, ProjectedAgent(o, SanitizedAgent(allowed, a, current)))
  {
    hide Observed;
  }

  lemma DecidedAgentsFollow(o: Observation, a: Action)
    ensures var decided, proposed := Decided(o, a).agentActions, ForObserved(o, a.agentActions);
            |decided| == |proposed|
            && forall i | 0 <= i < |decided| :: AgentFollows(o, Allowed(o), proposed[i], decided[i])
  {
    AgentsFollow(o, Allowed(o), a.agentActions);
    hide Allowed, ForObserved, AgentFollows, ProjectedAgents, SanitizedAgents, Annotation, Annotated;
  }

  /** The explanation of a decision extends that of the proposal. */
  lemma DecisionExplains(o: Observation, a: Action)
    ensures Decided(o, a).reason
            == (if a.reason == "" then "" else a.reason + " ")
               + Annotation(ActiveRoles(o), EscalationLevel(o), Notes(o))
  {
    hide Allowed, SanitizedAgents, Annotation, ActiveRoles, EscalationLevel, Notes;
  }

  /** The explanation names the roles, the level and the notes. */
  lemma AnnotationIs(roles: seq<Role>, level: Level, notes: seq<Reason>, names: seq<string>, remarks: seq<string>)
    requires |names| == |roles| && forall i | 0 <= i < |roles| :: names[i] == RoleName(roles[i])
    requires |remarks| == |notes| && forall i | 0 <= i < |notes| :: remarks[i] == ReasonName(notes[i])
    ensures Annotation(roles, level, notes)
            == "roles=" + (if roles == [] then "none" else Join(names, ",")) + " escalation=" + LevelName(level)
               + " notes=" + (if notes == [] then "nominal" else Join(remarks, ";"))
  {
    assert names == seq(|roles|, i requires 0 <= i < |roles| => RoleName(roles[i]));
    assert remarks == seq(|notes|, i requires 0 <= i < |notes| => ReasonName(notes[i]));
    hide Join, RoleName, LevelName, ReasonName;
  }

  /** Concretely: what a quiet validator's decision says. */
  lemma QuietAnnotation()
    ensures Annotation([LaneTuner], Nominal, [])
            == "roles=" + "lane_tuner" + " escalation=" + "nominal" + " notes=" + "nominal"
  {
    AnnotationIs([LaneTuner], Nominal, [], ["lane_tuner"], []);
    hide Annotation;
  }

  /** Concretely: what a decision says that had to block fields. */
  lemma ElevatedAnnotation()
    ensures Annotation([SafetyGuardian, RecoveryTuner], Elevated, [MembershipFrozen, SafetyEscalation(Elevated)])
            == "roles=" + ("safety_guardian" + "," + "recovery_tuner") + " escalation=" + "elevated"
               + " notes=" + ("membership-frozen" + ";" + ("safety-escalation:" + "elevated"))
  {
    AnnotationIs([SafetyGuardian, RecoveryTuner], Elevated, [MembershipFrozen, SafetyEscalation(Elevated)],
                 ["safety_guardian", "recovery_tuner"], ["membership-frozen", "safety-escalation:" + "elevated"]);
    hide Annotation, Join;
    TwoParts("safety_guardian", "recovery_tuner", ",");
    TwoParts("membership-frozen", "safety-escalation:" + "elevated", ";");
  }

  lemma TwoParts(a: string, b: string, separator: string)
    ensures Join([a, b], separator) == a + separator + b
  {
    assert [a, b][1..] == [b];
  }

  /** Exactly when a decision joins or leaves. */
  lemma JoinsAndLeavesIff(o: Observation, a: Action)
    ensures Decided(o, a).submitJoin <==> a.submitJoin && !o.localValidator && SubmitJoin in Allowed(o)
    ensures Decided(o, a).submitLeave <==>
              a.submitLeave && o.localValidator && o.validatorCount > 3 && SubmitLeave in Allowed(o)
  {
    hide Allowed, SanitizedAgents, Annotation, Annotated;
  }

  /**
   Concretely: among five validators, a quiet local validator that cannot participate decides to leave,
   though the published rules freeze membership for it.
   */
  lemma CannotParticipateYetLeaves(a: Action)
    requires a.submitLeave
    ensures var o := Observation(5, 1, 1, 3, 1000, 100, 100, 0, 0, 0, 0, false, true, 0.0, 0.0, []);
            Decided(o, a).submitLeave && exists f :: f in MEMBERSHIP_FIELDS && f in Allowed(o)
  {
    var o := Observation(5, 1, 1, 3, 1000, 100, 100, 0, 0, 0, 0, false, true, 0.0, 0.0, []);
    JoinsAndLeavesIff(o, a);
    AllowedIff(o, SubmitLeave);
    hide Allowed, Decided;
    assert SubmitLeave in MEMBERSHIP_FIELDS;
  }

  // ---- deciding again ----

  lemma {:induction false} AgentsAgain(o: Observation, allowed: set<Field>, actions: seq<AgentAction>)
    ensures var once := ProjectedAgents(o, SanitizedAgents(o, allowed, actions));
            ProjectedAgents(o, SanitizedAgents(o, allowed, once)) == once
  {
    hide Observed;
    if actions != [] {
      var n := |actions| - 1;
      AgentsAgain(o, allowed, actions[..n]);
      var before := ProjectedAgents(o, SanitizedAgents(o, allowed, actions[..n]));
      var once := ProjectedAgents(o, SanitizedAgents(o, allowed, actions));
      var current := Observed(o.agents, actions[n].instanceId);
      if current.Some? {
        var decided := ProjectedAgent(o, SanitizedAgent(allowed, actions[n], current.value));
        assert once == before + [decided];
        assert once[..|once| - 1] == before;
        AgentAgain(o, allowed, actions[n]);
      } else {
        assert once == before;
      }
    }
  }

  lemma AgentAgain(o: Observation, allowed: set<Field>, a: AgentAction)
    requires Observed(o.agents, a.instanceId).Some?
    ensures var current := Observed(o.agents, a.instanceId).value;
            var once := ProjectedAgent(o, SanitizedAgent(allowed, a, current));
            ProjectedAgent(o, SanitizedAgent(allowed, once, current)) == once
  {
    hide Observed;
  }

  /** Deciding on a decision changes nothing but the explanation. */
  lemma DecidingAgainChangesNothing(o: Observation, a: Action)
    ensures var d := Decided(o, a);
            Decided(o, d) == d.(reason := Decided(o, d).reason)
  {
    AgentsAgain(o, Allowed(o), a.agentActions);
    hide Allowed, SanitizedAgents, Annotation, Annotated, ProjectedAgents;
  }
}
