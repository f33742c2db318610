/**
 Role-based governance of actions (marl/organization.py, MOISEOrganizationModel): which roles an
 observation activates, which fields they may change, and what happens to a proposed action.
 */
module Organization {
  datatype Field =
    | CommitteeSize | PacemakerTimeoutMs | MempoolMaxBatchTxs | MempoolProposalIntervalMs
    | SubmitJoin | SubmitLeave | HydraDiscoveryTarget

  datatype Role = SafetyGuardian | RecoveryTuner | MembershipTuner | LaneTuner

  datatype Mission =
    | MaximizeThroughput | ReduceTailLatency | StabilizeRecovery | RespectSafetyEnvelope | HandleMembershipChurn

  datatype Level = Nominal | Elevated | Critical

  datatype Reason = MembershipFrozen | LaneTuningFrozen | SafetyEscalation(level: Level) | CannotParticipate

  datatype AgentObservation = AgentObservation(
    instanceId: int, validatorCount: int, committeeSize: int, pacemakerTimeoutMs: int,
    mempoolMaxBatchTxs: int, mempoolProposalIntervalMs: int)

  datatype Observation = Observation(
    validatorCount: int, currentConfigId: int, highestKnownConfigId: int,
    committeeSize: int, pacemakerTimeoutMs: int, mempoolMaxBatchTxs: int, mempoolProposalIntervalMs: int,
    backlogMissing: int, rejectTotal: int, pendingJoins: int, pendingLeaves: int,
    canParticipate: bool, localValidator: bool, churnRate: real, adversaryScore: real,
    agents: seq<AgentObservation>)

  /** The parts of an agent action that governance does not pass on; a fresh action has none of them. */
  datatype Extras = Extras(reconfig: seq<int>, evict: seq<int>, admit: seq<int>, rotateLeader: bool,
                           paramVector: seq<real>)

  const NO_EXTRAS := Extras([], [], [], false, [])

  datatype AgentAction = AgentAction(
    instanceId: int, committeeSize: int, pacemakerTimeoutMs: int,
    mempoolMaxBatchTxs: int, mempoolProposalIntervalMs: int, extras: Extras)

  datatype Action = Action(
    committeeSize: int, pacemakerTimeoutMs: int, mempoolMaxBatchTxs: int, mempoolProposalIntervalMs: int,
    submitJoin: bool, submitLeave: bool, hydraDiscoveryTarget: int,
    reason: string, agentActions: seq<AgentAction>)

  // ---- roles ----

  function AllowedFields(role: Role): seq<Field> {
    match role
    case LaneTuner => [CommitteeSize, MempoolMaxBatchTxs, MempoolProposalIntervalMs]
    case RecoveryTuner => [PacemakerTimeoutMs]
    case MembershipTuner => [SubmitJoin, SubmitLeave, HydraDiscoveryTarget]
    case SafetyGuardian => []
  }

  function MissionsOf(role: Role): seq<Mission> {
    match role
    case LaneTuner => [MaximizeThroughput, ReduceTailLatency]
    case RecoveryTuner => [StabilizeRecovery, RespectSafetyEnvelope]
    case MembershipTuner => [HandleMembershipChurn, RespectSafetyEnvelope]
    case SafetyGuardian => [RespectSafetyEnvelope]
  }

  predicate Activates(o: Observation, role: Role) {
    match role
    case LaneTuner => o.localValidator
    case RecoveryTuner => o.backlogMissing > 0 || o.rejectTotal > 0 || o.adversaryScore > 0.2
    case MembershipTuner =>
      !o.localValidator || !o.canParticipate || o.pendingJoins > 0 || o.pendingLeaves > 0
      || o.highestKnownConfigId > o.currentConfigId
    case SafetyGuardian => o.rejectTotal > 0 || o.backlogMissing > 0
  }

  /** The active roles by priority. */
  function ActiveRoles(o: Observation): seq<Role> {
    ByPriority(set role: Role | Activates(o, role))
  }

  function ByPriority(roles: set<Role>): (r: seq<Role>) {
    (if SafetyGuardian in roles then [SafetyGuardian] else [])
    + (if RecoveryTuner in roles then [RecoveryTuner] else [])
    + (if MembershipTuner in roles then [MembershipTuner] else [])
    + (if LaneTuner in roles then [LaneTuner] else [])
  }

  lemma ByPriorityHasAll(roles: set<Role>, role: Role)
    ensures role in ByPriority(roles) <==> role in roles
  {
    match role
    case SafetyGuardian =>
    case RecoveryTuner =>
    case MembershipTuner =>
    case LaneTuner =>
  }

  lemma ActiveIff(o: Observation, role: Role)
    ensures role in ActiveRoles(o) <==> Activates(o, role)
  {
    hide ByPriority, Activates;
    ByPriorityHasAll((set r: Role | Activates(o, r)), role);
  }

  // ---- escalation and freezes ----

  function EscalationLevel(o: Observation): Level {
    if o.rejectTotal > 10 || o.backlogMissing > 10 || o.adversaryScore >= 0.7 then Critical
    else if o.rejectTotal > 0 || o.backlogMissing > 0 || o.adversaryScore >= 0.3 || o.churnRate >= 0.4 then Elevated
    else Nominal
  }

  predicate FreezesMembership(o: Observation) {
    EscalationLevel(o) != Nominal || o.pendingJoins > 0 || o.pendingLeaves > 0
  }

  predicate FreezesLaneTuning(o: Observation) {
    EscalationLevel(o) == Critical || o.backlogMissing > 0
  }

  const MEMBERSHIP_FIELDS := [SubmitJoin, SubmitLeave, HydraDiscoveryTarget]
  const LANE_FIELDS := [CommitteeSize, MempoolMaxBatchTxs, MempoolProposalIntervalMs]

  function SafetyBlockedFields(level: Level): seq<Field> {
    (if level != Nominal then MEMBERSHIP_FIELDS else []) + (if level == Critical then LANE_FIELDS else [])
  }

  /** Everything that is blocked, in the order of blocking, each with its reason. */
  function Blocks(o: Observation): seq<(seq<Field>, Reason)> {
    var level := EscalationLevel(o);
    (if FreezesMembership(o) then [(MEMBERSHIP_FIELDS, MembershipFrozen)] else [])
    + (if FreezesLaneTuning(o) then [(LANE_FIELDS, LaneTuningFrozen)] else [])
    + (if Activates(o, SafetyGuardian) then
         [(SafetyBlockedFields(level), SafetyEscalation(level))]
         + (if !o.canParticipate then [([SubmitLeave], CannotParticipate)] else [])
       else [])
  }

  function FieldsOf(blocks: seq<(seq<Field>, Reason)>): seq<Field> {
    if blocks == [] then [] else FieldsOf(blocks[..|blocks| - 1]) + blocks[|blocks| - 1].0
  }

  /** The fields that the active roles own. */
  function Owned(o: Observation): set<Field> {
    set role: Role, f: Field | Activates(o, role) && f in AllowedFields(role) :: f
  }

  /** The fields an action may change. */
  function Allowed(o: Observation): set<Field> {
    Owned(o) - (set f | f in FieldsOf(Blocks(o)))
  }

  // ---- what this means ----

  /** Some role is always active, so the pass-through for "no active role" is never taken. */
  lemma SomeRoleIsActive(o: Observation)
    ensures ActiveRoles(o) != []
  {
    ActiveIff(o, LaneTuner);
    ActiveIff(o, MembershipTuner);
    hide ActiveRoles;
  }

  /** All blocked fields in one list. */
  lemma BlockedList(o: Observation)
    ensures FieldsOf(Blocks(o))
            == (if FreezesMembership(o) then MEMBERSHIP_FIELDS else [])
             + (if FreezesLaneTuning(o) then LANE_FIELDS else [])
             + (if Activates(o, SafetyGuardian) then SafetyBlockedFields(EscalationLevel(o)) else [])
             + (if Activates(o, SafetyGuardian) && !o.canParticipate then [SubmitLeave] else [])
  {
    var level := EscalationLevel(o);
    hide EscalationLevel, FreezesMembership, FreezesLaneTuning, Activates, SafetyBlockedFields, FieldsOf;
    var a := if FreezesMembership(o) then [(MEMBERSHIP_FIELDS, MembershipFrozen)] else [];
    var b := if FreezesLaneTuning(o) then [(LANE_FIELDS, LaneTuningFrozen)] else [];
    var c := if Activates(o, SafetyGuardian) then [(SafetyBlockedFields(level), SafetyEscalation(level))] else [];
    var d := if Activates(o, SafetyGuardian) && !o.canParticipate then [([SubmitLeave], CannotParticipate)] else [];
    assert Blocks(o) == a + b + c + d;
    FieldsAppend(a + b + c, d);
    FieldsAppend(a + b, c);
    FieldsAppend(a, b);
    OneBlock(MEMBERSHIP_FIELDS, MembershipFrozen);
    OneBlock(LANE_FIELDS, LaneTuningFrozen);
    OneBlock(SafetyBlockedFields(level), SafetyEscalation(level));
    OneBlock([SubmitLeave], CannotParticipate);
  }

  /** The safety blocks repeat what the two freezes block already, so only the freezes count. */
  lemma BlockedIff(o: Observation, f: Field)
    ensures f in FieldsOf(Blocks(o)) <==>
              || (f in MEMBERSHIP_FIELDS && FreezesMembership(o))
              || (f in LANE_FIELDS && FreezesLaneTuning(o))
  {
    BlockedList(o);
    var blocked := FieldsOf(Blocks(o));
    hide Blocks, FieldsOf;
    assert f in SafetyBlockedFields(EscalationLevel(o)) ==>
             (f in MEMBERSHIP_FIELDS && FreezesMembership(o)) || (f in LANE_FIELDS && FreezesLaneTuning(o));
    assert Activates(o, SafetyGuardian) ==> FreezesMembership(o);
  }

  lemma {:induction false} FieldsAppend(a: seq<(seq<Field>, Reason)>, b: seq<(seq<Field>, Reason)>)
    ensures FieldsOf(a + b) == FieldsOf(a) + FieldsOf(b)
  {
    if b == [] {
      assert a + b == a;
    } else {
      var n := |b| - 1;
      assert (a + b)[..|a| + n] == a + b[..n];
      FieldsAppend(a, b[..n]);
    }
  }

  lemma OneBlock(fields: seq<Field>, reason: Reason)
    ensures FieldsOf([(fields, reason)]) == fields && FieldsOf([]) == []
  {
    assert [(fields, reason)][..0] == [];
  }

  /** A stress-free node: nothing missing, rejected, hostile or churning beyond the thresholds. */
  predicate Quiet(o: Observation) {
    o.rejectTotal <= 0 && o.backlogMissing <= 0 && o.adversaryScore < 0.3 && o.churnRate < 0.4
  }

  /** Exactly when each field may be changed. */
  lemma AllowedIff(o: Observation, f: Field)
    ensures f in Allowed(o) <==>
      match f
      case PacemakerTimeoutMs => o.backlogMissing > 0 || o.rejectTotal > 0 || o.adversaryScore > 0.2
      case SubmitJoin | SubmitLeave | HydraDiscoveryTarget =>
        && (!o.localValidator || !o.canParticipate || o.highestKnownConfigId > o.currentConfigId)
        && o.pendingJoins <= 0 && o.pendingLeaves <= 0 && Quiet(o)
      case CommitteeSize | MempoolMaxBatchTxs | MempoolProposalIntervalMs =>
        o.localValidator && o.backlogMissing <= 0 && o.rejectTotal <= 10 && o.adversaryScore < 0.7
  {
    BlockedIff(o, f);
    OwnedBy(o, f);
    hide Allowed, Owned, Blocks;
    AllowedIs(o, f);
  }

  lemma AllowedIs(o: Observation, f: Field)
    ensures f in Allowed(o) <==> f in Owned(o) && f !in FieldsOf(Blocks(o))
  {
    hide Owned, Blocks;
  }

  function OwnerOf(f: Field): Role {
    match f
    case PacemakerTimeoutMs => RecoveryTuner
    case SubmitJoin | SubmitLeave | HydraDiscoveryTarget => MembershipTuner
    case CommitteeSize | MempoolMaxBatchTxs | MempoolProposalIntervalMs => LaneTuner
  }

  lemma OwnedBy(o: Observation, f: Field)
    ensures f in Owned(o) <==> Activates(o, OwnerOf(f))
  {
    hide Activates;
    assert f in AllowedFields(OwnerOf(f));
    assert forall role: Role | f in AllowedFields(role) :: role == OwnerOf(f);
  }

  /** o' is o under at least as much stress, and otherwise the same. */
  predicate MoreStressed(o: Observation, o': Observation) {
    && o' == o.(rejectTotal := o'.rejectTotal, backlogMissing := o'.backlogMissing,
                adversaryScore := o'.adversaryScore, churnRate := o'.churnRate)
    && o.rejectTotal <= o'.rejectTotal && o.backlogMissing <= o'.backlogMissing
    && o.adversaryScore <= o'.adversaryScore && o.churnRate <= o'.churnRate
  }

  /** More stress never frees a field, except the pacemaker timeout, which it never takes away. */
  lemma StressOnlyRestricts(o: Observation, o': Observation)
    requires MoreStressed(o, o')
    ensures Allowed(o') <= Allowed(o) + {PacemakerTimeoutMs}
    ensures PacemakerTimeoutMs in Allowed(o) ==> PacemakerTimeoutMs in Allowed(o')
  {
    forall f: Field ensures f in Allowed(o') && f != PacemakerTimeoutMs ==> f in Allowed(o) {
      AllowedIff(o, f);
      AllowedIff(o', f);
      hide Allowed;
    }
    AllowedIff(o, PacemakerTimeoutMs);
    AllowedIff(o', PacemakerTimeoutMs);
  }

  /**
   The published freeze rules say that membership freezes when a node cannot safely participate.
   The code does not look at that: for such a node the membership fields are frozen exactly when
   changes are pending or the node is not quiet.
   */
  lemma CannotParticipateFreezesIff(o: Observation)
    requires !o.canParticipate
    ensures (forall f | f in MEMBERSHIP_FIELDS :: f !in Allowed(o))
            <==> !(o.pendingJoins <= 0 && o.pendingLeaves <= 0 && Quiet(o))
  {
    AllowedIff(o, SubmitJoin);
    AllowedIff(o, SubmitLeave);
    AllowedIff(o, HydraDiscoveryTarget);
    hide Allowed, Quiet;
    assert SubmitLeave in MEMBERSHIP_FIELDS;
  }

  /** Losing the ability to participate never takes a field away. */
  lemma CannotParticipateNeverBlocks(o: Observation)
    ensures Allowed(o) <= Allowed(o.(canParticipate := false))
  {
    var o' := o.(canParticipate := false);
    forall f: Field ensures f in Allowed(o) ==> f in Allowed(o') {
      AllowedIff(o, f);
      AllowedIff(o', f);
      hide Allowed;
    }
  }

  /** Exactly how far a node's signs escalate. */
  lemma LevelIff(o: Observation)
    ensures EscalationLevel(o) == Nominal <==> Quiet(o)
    ensures EscalationLevel(o) == Critical <==>
              o.rejectTotal >= 11 || o.backlogMissing >= 11 || !(o.adversaryScore < 0.7)
    ensures FreezesMembership(o) <==> !Quiet(o) || o.pendingJoins >= 1 || o.pendingLeaves >= 1
    ensures FreezesLaneTuning(o) <==> o.backlogMissing >= 1 || o.rejectTotal >= 11 || !(o.adversaryScore < 0.7)
  {
  }

  /** Exactly when each role is active. */
  lemma ActiveRolesIff(o: Observation)
    ensures LaneTuner in ActiveRoles(o) <==> o.localValidator
    ensures RecoveryTuner in ActiveRoles(o) <==> PacemakerTimeoutMs in Allowed(o)
    ensures SafetyGuardian in ActiveRoles(o) <==> o.rejectTotal >= 1 || o.backlogMissing >= 1
    ensures MembershipTuner !in ActiveRoles(o) <==>
              && o.localValidator && o.canParticipate && o.pendingJoins <= 0 && o.pendingLeaves <= 0
              && o.highestKnownConfigId <= o.currentConfigId
  {
    ActiveIff(o, LaneTuner);
    ActiveIff(o, RecoveryTuner);
    ActiveIff(o, SafetyGuardian);
    ActiveIff(o, MembershipTuner);
    AllowedIff(o, PacemakerTimeoutMs);
    hide ActiveRoles, Allowed;
  }

  /** The guardian comes first, then recovery, membership and lanes. */
  function Priority(role: Role): nat {
    match role
    case SafetyGuardian => 0
    case RecoveryTuner => 1
    case MembershipTuner => 2
    case LaneTuner => 3
  }

  lemma RolesByPriority(o: Observation)
    ensures forall i, j | 0 <= i < j < |ActiveRoles(o)| :: Priority(ActiveRoles(o)[i]) < Priority(ActiveRoles(o)[j])
  {
    Ascending(set role: Role | Activates(o, role));
    hide ByPriority, Activates;
  }

  lemma Ascending(roles: set<Role>)
    ensures var r := ByPriority(roles); forall i, j | 0 <= i < j < |r| :: Priority(r[i]) < Priority(r[j])
  {
  }

  /** Exactly which missions a node pursues. */
  lemma PursuedIff(o: Observation, m: Mission)
    ensures m in MissionsFor(ActiveRoles(o)) <==>
      match m
      case MaximizeThroughput | ReduceTailLatency => o.localValidator
      case StabilizeRecovery => o.backlogMissing > 0 || o.rejectTotal > 0 || o.adversaryScore > 0.2
      case HandleMembershipChurn => MembershipTuner in ActiveRoles(o)
      case RespectSafetyEnvelope =>
        MembershipTuner in ActiveRoles(o) || o.backlogMissing > 0 || o.rejectTotal > 0 || o.adversaryScore > 0.2
  {
    var roles := ActiveRoles(o);
    MissionsAreUnion(roles, m);
    ActiveRolesIff(o);
    AllowedIff(o, PacemakerTimeoutMs);
    hide MissionsFor, ActiveRoles, Allowed;
    assert forall role: Role :: role in roles <==> exists k | 0 <= k < |roles| :: roles[k] == role;
    assert (exists k | 0 <= k < |roles| :: m in MissionsOf(roles[k]))
           <==> exists role: Role :: role in roles && m in MissionsOf(role) by {
      if role: Role :| role in roles && m in MissionsOf(role) {
        var k :| 0 <= k < |roles| && roles[k] == role;
        assert m in MissionsOf(roles[k]);
      }
    }
    assert m in MissionsOf(OneWith(m));
  }

  /** A role that pursues the mission. */
  function OneWith(m: Mission): Role {
    match m
    case MaximizeThroughput | ReduceTailLatency => LaneTuner
    case StabilizeRecovery => RecoveryTuner
    case HandleMembershipChurn | RespectSafetyEnvelope => MembershipTuner
  }

  /** Exactly which reasons are recorded for a field that is blocked. */
  lemma RecordedIff(o: Observation, f: Field, r: Reason)
    ensures r in Reasons(ReasonsOf(Blocks(o)), f) <==>
      match r
      case MembershipFrozen => f in MEMBERSHIP_FIELDS && FreezesMembership(o)
      case LaneTuningFrozen => f in LANE_FIELDS && FreezesLaneTuning(o)
      case SafetyEscalation(level) =>
        && level == EscalationLevel(o) && (o.rejectTotal > 0 || o.backlogMissing > 0)
        && (f in MEMBERSHIP_FIELDS || (f in LANE_FIELDS && level == Critical))
      case CannotParticipate => f == SubmitLeave && !o.canParticipate && (o.rejectTotal > 0 || o.backlogMissing > 0)
  {
    ReasonsAreExact(Blocks(o), f, r);
    hide ReasonsOf, Reasons, FreezesMembership, FreezesLaneTuning, Blocks;
    BlockNamed(o, f, r);
  }

  /** Some block is of this field, for this reason. */
  predicate Names(blocks: seq<(seq<Field>, Reason)>, f: Field, r: Reason) {
    exists k | 0 <= k < |blocks| :: f in blocks[k].0 && blocks[k].1 == r
  }

  lemma NamesAppend(a: seq<(seq<Field>, Reason)>, b: seq<(seq<Field>, Reason)>, f: Field, r: Reason)
    ensures Names(a + b, f, r) <==> Names(a, f, r) || Names(b, f, r)
  {
    var both := a + b;
    if k :| 0 <= k < |a| && f in a[k].0 && a[k].1 == r {
      assert both[k] == a[k];
    }
    if k :| 0 <= k < |b| && f in b[k].0 && b[k].1 == r {
      assert both[|a| + k] == b[k];
    }
  }

  lemma NamesOne(fields: seq<Field>, reason: Reason, f: Field, r: Reason)
    ensures Names([(fields, reason)], f, r) <==> f in fields && reason == r
    ensures !Names([], f, r)
  {
    assert [(fields, reason)][0] == (fields, reason);
  }

  lemma BlockNamed(o: Observation, f: Field, r: Reason)
    ensures Names(Blocks(o), f, r) <==>
              || (r == MembershipFrozen && f in MEMBERSHIP_FIELDS && FreezesMembership(o))
              || (r == LaneTuningFrozen && f in LANE_FIELDS && FreezesLaneTuning(o))
              || (r == SafetyEscalation(EscalationLevel(o)) && Activates(o, SafetyGuardian)
                  && f in SafetyBlockedFields(EscalationLevel(o)))
              || (r == CannotParticipate && f == SubmitLeave && !o.canParticipate && Activates(o, SafetyGuardian))
  {
    var level := EscalationLevel(o);
    hide EscalationLevel, FreezesMembership, FreezesLaneTuning, Activates, SafetyBlockedFields, Names;
    var a := if FreezesMembership(o) then [(MEMBERSHIP_FIELDS, MembershipFrozen)] else [];
    var b := if FreezesLaneTuning(o) then [(LANE_FIELDS, LaneTuningFrozen)] else [];
    var c := if Activates(o, SafetyGuardian) then [(SafetyBlockedFields(level), SafetyEscalation(level))] else [];
    var d := if Activates(o, SafetyGuardian) && !o.canParticipate then [([SubmitLeave], CannotParticipate)] else [];
    assert Blocks(o) == a + b + c + d;
    NamesAppend(a + b + c, d, f, r);
    NamesAppend(a + b, c, f, r);
    NamesAppend(a, b, f, r);
    NamesOne(MEMBERSHIP_FIELDS, MembershipFrozen, f, r);
    NamesOne(LANE_FIELDS, LaneTuningFrozen, f, r);
    NamesOne(SafetyBlockedFields(level), SafetyEscalation(level), f, r);
    NamesOne([SubmitLeave], CannotParticipate, f, r);
  }

  // ---- the decision object ----

  class OrganizationDecision {
    var activeRoles: seq<Role>
    var missions: seq<Mission>
    var notes: seq<Reason>
    var blockedFields: seq<Field>
    var blockedFieldReasons: map<Field, seq<Reason>>
    var escalationLevel: Level
    var freezeMembership: bool
    var freezeLaneTuning: bool

    constructor ()
      ensures activeRoles == [] && missions == [] && notes == []
      ensures blockedFields == [] && blockedFieldReasons == map[] && escalationLevel == Nominal
      ensures !freezeMembership && !freezeLaneTuning
    {
      activeRoles, missions, notes, blockedFields, blockedFieldReasons := [], [], [], [], map[];
      escalationLevel, freezeMembership, freezeLaneTuning := Nominal, false, false;
    }

    /** Records that the fields are blocked for this reason; a field keeps each reason once. */
    method Block(fields: seq<Field>, reason: Reason)
      modifies this`blockedFields, this`blockedFieldReasons
      ensures blockedFields == old(blockedFields) + fields
      ensures blockedFieldReasons == RecordAll(old(blockedFieldReasons), fields, reason)
    {
      hide RecordOne;
      var i := 0;
      assert fields[..0] == [];
      while i < |fields|
        invariant i <= |fields| && blockedFields == old(blockedFields) + fields[..i]
        invariant blockedFieldReasons == RecordAll(old(blockedFieldReasons), fields[..i], reason)
      {
        assert fields[..i + 1] == fields[..i] + [fields[i]] && fields[..i + 1][..i] == fields[..i];
        BlockOne(fields[i], reason);
        i := i + 1;
      }
      assert fields[..|fields|] == fields;
    }

    method BlockOne(f: Field, reason: Reason)
      modifies this`blockedFields, this`blockedFieldReasons
      ensures blockedFields == old(blockedFields) + [f]
      ensures blockedFieldReasons == RecordOne(old(blockedFieldReasons), f, reason)
    {
      blockedFields := blockedFields + [f];
      var reasons := if f in blockedFieldReasons then blockedFieldReasons[f] else [];
      if reason !in reasons {
        reasons := reasons + [reason];
      }
      blockedFieldReasons := blockedFieldReasons[f := reasons];
    }

    method AddMission(mission: Mission)
      modifies this`missions
      ensures missions == WithMission(old(missions), mission)
    {
      if mission !in missions {
        missions := missions + [mission];
      }
    }
  }

  // ---- reasons for blocking ----

  function Reasons(m: map<Field, seq<Reason>>, f: Field): seq<Reason> {
    if f in m then m[f] else []
  }

  /** Adds a reason unless the field has it already. */
  function RecordOne(m: map<Field, seq<Reason>>, f: Field, reason: Reason): map<Field, seq<Reason>> {
    m[f := if reason in Reasons(m, f) then Reasons(m, f) else Reasons(m, f) + [reason]]
  }

  function RecordAll(m: map<Field, seq<Reason>>, fields: seq<Field>, reason: Reason): map<Field, seq<Reason>> {
    if fields == [] then m
    else RecordOne(RecordAll(m, fields[..|fields| - 1], reason), fields[|fields| - 1], reason)
  }

  function ReasonsOf(blocks: seq<(seq<Field>, Reason)>): map<Field, seq<Reason>> {
    if blocks == [] then map[]
    else RecordAll(ReasonsOf(blocks[..|blocks| - 1]), blocks[|blocks| - 1].0, blocks[|blocks| - 1].1)
  }

  lemma {:induction false} RecordAllMeans(m: map<Field, seq<Reason>>, fields: seq<Field>, reason: Reason, f: Field,
                                          r: Reason)
    ensures r in Reasons(RecordAll(m, fields, reason), f)
            <==> r in Reasons(m, f) || (r == reason && f in fields)
  {
    if fields != [] {
      var n := |fields| - 1;
      RecordAllMeans(m, fields[..n], reason, f, r);
      assert fields == fields[..n] + [fields[n]];
    }
  }

  /** The recorded reasons of a field are exactly those of the blocks that name it. */
  lemma {:induction false} ReasonsAreExact(blocks: seq<(seq<Field>, Reason)>, f: Field, r: Reason)
    ensures r in Reasons(ReasonsOf(blocks), f)
            <==> exists k | 0 <= k < |blocks| :: f in blocks[k].0 && blocks[k].1 == r
    ensures Reasons(ReasonsOf(blocks), f) != [] <==> f in FieldsOf(blocks)
  {
    if blocks != [] {
      var n := |blocks| - 1;
      ReasonsAreExact(blocks[..n], f, r);
      RecordAllMeans(ReasonsOf(blocks[..n]), blocks[n].0, blocks[n].1, f, r);
      RecordAllMeans(ReasonsOf(blocks[..n]), blocks[n].0, blocks[n].1, f, blocks[n].1);
      if k :| 0 <= k < n && f in blocks[..n][k].0 && blocks[..n][k].1 == r {
        assert f in blocks[k].0 && blocks[k].1 == r;
      }
      if Reasons(ReasonsOf(blocks[..n]), f) != [] {
        var first := Reasons(ReasonsOf(blocks[..n]), f)[0];
        RecordAllMeans(ReasonsOf(blocks[..n]), blocks[n].0, blocks[n].1, f, first);
      }
      if Reasons(ReasonsOf(blocks), f) != [] {
        var first := Reasons(ReasonsOf(blocks), f)[0];
        RecordAllMeans(ReasonsOf(blocks[..n]), blocks[n].0, blocks[n].1, f, first);
      }
    }
  }

  // ---- missions ----

  function WithMission(missions: seq<Mission>, mission: Mission): seq<Mission> {
    if mission in missions then missions else missions + [mission]
  }

  function WithMissions(missions: seq<Mission>, more: seq<Mission>): seq<Mission> {
    if more == [] then missions
    else WithMission(WithMissions(missions, more[..|more| - 1]), more[|more| - 1])
  }

  function MissionsFor(roles: seq<Role>): seq<Mission> {
    if roles == [] then [] else WithMissions(MissionsFor(roles[..|roles| - 1]), MissionsOf(roles[|roles| - 1]))
  }

  predicate NoDuplicates(missions: seq<Mission>) {
    forall i, j | 0 <= i < j < |missions| :: missions[i] != missions[j]
  }

  lemma {:induction false} WithMissionsMeans(missions: seq<Mission>, more: seq<Mission>, m: Mission)
    requires NoDuplicates(missions)
    ensures NoDuplicates(WithMissions(missions, more))
    ensures m in WithMissions(missions, more) <==> m in missions || m in more
  {
    if more != [] {
      var n := |more| - 1;
      WithMissionsMeans(missions, more[..n], m);
      assert more == more[..n] + [more[n]];
    }
  }

  /** The missions of the active roles, each once. */
  lemma {:induction false} MissionsAreUnion(roles: seq<Role>, m: Mission)
    ensures NoDuplicates(MissionsFor(roles))
    ensures m in MissionsFor(roles) <==> exists k | 0 <= k < |roles| :: m in MissionsOf(roles[k])
  {
    if roles != [] {
      var n := |roles| - 1;
      MissionsAreUnion(roles[..n], m);
      WithMissionsMeans(MissionsFor(roles[..n]), MissionsOf(roles[n]), m);
      hide MissionsOf;
      if k :| 0 <= k < n && m in MissionsOf(roles[..n][k]) {
        assert m in MissionsOf(roles[k]);
      }
      if k :| 0 <= k < |roles| && m in MissionsOf(roles[k]) {
        assert k < n ==> m in MissionsOf(roles[..n][k]);
      }
    }
  }

  function Notes(o: Observation): seq<Reason> {
    (if FreezesMembership(o) then [MembershipFrozen] else [])
    + (if FreezesLaneTuning(o) then [LaneTuningFrozen] else [])
    + (if Activates(o, SafetyGuardian) then [SafetyEscalation(EscalationLevel(o))] else [])
  }

  /** The place of a note among the notes. */
  function NotePlace(note: Reason): nat {
    match note
    case MembershipFrozen => 0
    case LaneTuningFrozen => 1
    case SafetyEscalation(level) => 2
    case CannotParticipate => 3
  }

  /** Exactly what a decision notes, and in which order. */
  lemma NotedIff(o: Observation, note: Reason)
    ensures note in Notes(o) <==>
      match note
      case MembershipFrozen => !Quiet(o) || o.pendingJoins > 0 || o.pendingLeaves > 0
      case LaneTuningFrozen => o.backlogMissing > 0 || o.rejectTotal > 10 || !(o.adversaryScore < 0.7)
      case SafetyEscalation(level) => level == EscalationLevel(o) && (o.rejectTotal > 0 || o.backlogMissing > 0)
      case CannotParticipate => false
    ensures forall i, j | 0 <= i < j < |Notes(o)| :: NotePlace(Notes(o)[i]) < NotePlace(Notes(o)[j])
  {
    LevelIff(o);
    hide EscalationLevel, FreezesMembership, FreezesLaneTuning, Quiet;
  }

  // ---- evaluation ----

  method EvaluateMissions(d: OrganizationDecision)
    requires d.missions == []
    modifies d`missions
    ensures d.missions == MissionsFor(d.activeRoles)
  {
    hide MissionsOf, WithMission;
    var i := 0;
    assert d.activeRoles[..0] == [];
    while i < |d.activeRoles|
      invariant i <= |d.activeRoles| && d.missions == MissionsFor(d.activeRoles[..i])
    {
      var more := MissionsOf(d.activeRoles[i]);
      ghost var before := d.missions;
      var k := 0;
      assert more[..0] == [] && d.activeRoles[..i + 1][..i] == d.activeRoles[..i];
      while k < |more|
        invariant k <= |more| && d.missions == WithMissions(before, more[..k])
      {
        assert more[..k + 1][..k] == more[..k];
        d.AddMission(more[k]);
        k := k + 1;
      }
      assert more[..|more|] == more;
      i := i + 1;
    }
    assert d.activeRoles[..|d.activeRoles|] == d.activeRoles;
  }

  /** Appends the active roles in the order of the checks, then sorts them by priority. */
  method RolesFor(o: Observation) returns (roles: seq<Role>)
    ensures roles == ActiveRoles(o)
  {
    var found: seq<Role> := [];
    if o.localValidator {
      found := found + [LaneTuner];
    }
    if o.backlogMissing > 0 || o.rejectTotal > 0 || o.adversaryScore > 0.2 {
      found := found + [RecoveryTuner];
    }
    if !o.localValidator || !o.canParticipate || o.pendingJoins > 0 || o.pendingLeaves > 0
       || o.highestKnownConfigId > o.currentConfigId {
      found := found + [MembershipTuner];
    }
    if o.rejectTotal > 0 || o.backlogMissing > 0 {
      found := found + [SafetyGuardian];
    }
    var distinct := set role | role in found;
    assert distinct == set role: Role | Activates(o, role);
    roles := ByPriority(distinct);
  }

  /** Blocks one group of fields and keeps track of all groups so far. */
  method BlockGroup(d: OrganizationDecision, fields: seq<Field>, reason: Reason,
                    ghost before: seq<(seq<Field>, Reason)>)
    requires d.blockedFields == FieldsOf(before) && d.blockedFieldReasons == ReasonsOf(before)
    modifies d`blockedFields, d`blockedFieldReasons
    ensures d.blockedFields == FieldsOf(before + [(fields, reason)])
    ensures d.blockedFieldReasons == ReasonsOf(before + [(fields, reason)])
  {
    assert (before + [(fields, reason)])[..|before|] == before;
    d.Block(fields, reason);
  }

  method EvaluateBlocks(o: Observation, d: OrganizationDecision)
    requires d.blockedFields == [] && d.blockedFieldReasons == map[] && d.notes == []
    requires d.activeRoles == ActiveRoles(o) && d.escalationLevel == EscalationLevel(o)
    requires d.freezeMembership == FreezesMembership(o) && d.freezeLaneTuning == FreezesLaneTuning(o)
    modifies d`blockedFields, d`blockedFieldReasons, d`notes
    ensures d.blockedFields == FieldsOf(Blocks(o)) && d.blockedFieldReasons == ReasonsOf(Blocks(o))
    ensures d.notes == Notes(o)
  {
    hide FieldsOf, ReasonsOf, ActiveRoles, EscalationLevel, FreezesMembership, FreezesLaneTuning;
    ActiveIff(o, SafetyGuardian);
    NoBlocks();
    ghost var done: seq<(seq<Field>, Reason)> := [];
    if d.freezeMembership {
      BlockGroup(d, MEMBERSHIP_FIELDS, MembershipFrozen, done);
      done := done + [(MEMBERSHIP_FIELDS, MembershipFrozen)];
      d.notes := d.notes + [MembershipFrozen];
    }
    if d.freezeLaneTuning {
      BlockGroup(d, LANE_FIELDS, LaneTuningFrozen, done);
      done := done + [(LANE_FIELDS, LaneTuningFrozen)];
      d.notes := d.notes + [LaneTuningFrozen];
    }
    if SafetyGuardian in d.activeRoles {
      var safety := SafetyEscalation(d.escalationLevel);
      BlockGroup(d, SafetyBlockedFields(d.escalationLevel), safety, done);
      done := done + [(SafetyBlockedFields(d.escalationLevel), safety)];
      if !o.canParticipate {
        BlockGroup(d, [SubmitLeave], CannotParticipate, done);
        done := done + [([SubmitLeave], CannotParticipate)];
      }
      d.notes := d.notes + [safety];
    }
    assert done == Blocks(o) && d.notes == Notes(o);
  }

  lemma NoBlocks()
    ensures FieldsOf([]) == [] && ReasonsOf([]) == map[]
  {
  }

  method Evaluate(o: Observation) returns (d: OrganizationDecision)
    ensures fresh(d)
    ensures d.activeRoles == ActiveRoles(o) && d.escalationLevel == EscalationLevel(o)
    ensures d.freezeMembership == FreezesMembership(o) && d.freezeLaneTuning == FreezesLaneTuning(o)
    ensures d.blockedFields == FieldsOf(Blocks(o)) && d.blockedFieldReasons == ReasonsOf(Blocks(o))
    ensures d.notes == Notes(o) && d.missions == MissionsFor(ActiveRoles(o))
  {
    d := new OrganizationDecision();
    d.activeRoles := RolesFor(o);
    d.escalationLevel := EscalationLevel(o);
    assert d.missions == [];
    d.freezeMembership := d.escalationLevel != Nominal || o.pendingJoins > 0 || o.pendingLeaves > 0;
    d.freezeLaneTuning := d.escalationLevel == Critical || o.backlogMissing > 0;
    hide ActiveRoles, EscalationLevel, Blocks, FieldsOf, ReasonsOf;
    EvaluateBlocks(o, d);
    EvaluateMissions(d);
  }
}
