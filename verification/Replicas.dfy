/**
 How a replica votes (src/evolvbft/consensus/hotstuff/engine.go): it takes a proposal at most once per
 view and leader, never falls back by more than one view, and asks the block tree whether the proposal
 is safe.  A leader also votes for its own proposals, which skip those tests.
 */
module Replicas {
  import opened Wrappers
  import opened BlockTrees

  /** The leader of each view and what else is fixed within an epoch. */
  datatype Setup = Setup(leader: nat -> nat, epoch: nat, fastPathThreshold: nat)

  /** A vote, and the lock under which it was cast. */
  datatype Vote = Vote(block: Block, lock: QuorumCertificate, own: bool)

  datatype Replica = Replica(
    tree: TreeState,
    currentView: nat,
    lastProposedView: nat,
    seen: map<(nat, nat), Hash>,   // by view and leader
    votes: seq<Vote>)

  /**
   `admitted` stands for the checks that are not part of this model (epoch, lane, configuration,
   signatures and rank), `selected` for membership in the voting committee.
   */
  datatype Event =
    | Proposal(block: Block, admitted: bool, selected: bool)
    | OwnProposal(hash: Hash, nodeId: nat, selected: bool)
    | SeenCertificate(qc: QuorumCertificate)
    | LeftView(view: nat)

  const ZERO_HASH: Hash := 0
  const GC_VIEW_LAG: nat := 10

  function NewReplica(setup: Setup): Replica {
    Replica(NewTree(setup.epoch, setup.fastPathThreshold), 1, 0, map[], [])
  }

  /** The pacemaker only moves forwards. */
  function AfterView(currentView: nat, view: nat): nat {
    if view >= currentView then view + 1 else currentView
  }

  predicate MeetsConstraint(setup: Setup, currentView: nat, b: Block) {
    && (currentView > 1 ==> b.view + 1 >= currentView)
    && 0 < b.view <= currentView + 1
    && b.leaderId == setup.leader(b.view)
    && (match b.justify
        case None => b.view == 1
        case Some(qc) => qc.view < b.view && (qc.blockHash.Some? ==> b.parent == qc.blockHash))
  }

  /** Committing clears what was seen long ago. */
  function Remembered(seen: map<(nat, nat), Hash>, currentView: nat, committed: bool): map<(nat, nat), Hash> {
    if committed && currentView > GC_VIEW_LAG
    then map k | k in seen && k.0 >= currentView - GC_VIEW_LAG :: seen[k]
    else seen
  }

  /** The height of the highest block in the store, and of the highest committed. */
  ghost function LatestHeight(stored: map<Hash, Block>): (height: nat)
    ensures forall h | h in stored :: stored[h].height <= height
    ensures height > 0 ==> exists h :: h in stored && stored[h].height == height
    decreases |stored|
  {
    if stored == map[] then 0
    else
      var h :| h in stored;
      assert forall k | k in stored && k != h :: k in stored - {h} && (stored - {h})[k] == stored[k];
      var rest := LatestHeight(stored - {h});
      if stored[h].height > rest then stored[h].height else rest
  }

  function HighestCommitted(committed: seq<Block>): nat {
    if committed == [] then 0
    else
      var before, last := HighestCommitted(committed[..|committed| - 1]), committed[|committed| - 1];
      if last.height > before then last.height else before
  }

  predicate IsNew(r: Replica, b: Block) {
    && b.hash !in r.tree.stored && b.height > HighestCommitted(r.tree.committed)
    && (b.view, b.leaderId) !in r.seen
  }

  ghost predicate Accepts(setup: Setup, r: Replica, b: Block) {
    MeetsConstraint(setup, r.currentView, b) && IsNew(r, b) && SafeToVote(r.tree, b)
  }

  ghost function Handle(setup: Setup, r: Replica, b: Block, selected: bool): Replica {
    if !MeetsConstraint(setup, r.currentView, b) || !IsNew(r, b) then r
    else
      var seen := r.seen[(b.view, b.leaderId) := b.hash];
      if !SafeToVote(r.tree, b) then r.(seen := seen)
      else
        var tree := Process(r.tree, b);
        r.(tree := tree,
           seen := Remembered(seen, r.currentView, tree.committed != r.tree.committed),
           currentView := AfterView(r.currentView, b.view),
           votes := if selected then r.votes + [Vote(b, r.tree.lockedQC, false)] else r.votes)
  }

  /** A leader builds on the highest certificate it knows, one above all blocks it has stored. */
  ghost function Built(r: Replica, hash: Hash, nodeId: nat): Block {
    var qc := r.tree.highQC;
    Block(hash, if qc.blockHash.Some? then qc.blockHash else Some(ZERO_HASH), r.currentView, nodeId,
          LatestHeight(r.tree.stored) + 1, Some(qc))
  }

  ghost function Propose(r: Replica, hash: Hash, nodeId: nat, selected: bool): Replica {
    if r.currentView <= r.lastProposedView then r
    else
      var b := Built(r, hash, nodeId);
      var tree := Process(r.tree, b);
      r.(tree := tree,
         seen := Remembered(r.seen, r.currentView, tree.committed != r.tree.committed),
         lastProposedView := r.currentView,
         votes := if selected then r.votes + [Vote(b, r.tree.lockedQC, true)] else r.votes)
  }

  ghost function Step(setup: Setup, r: Replica, e: Event): Replica {
    match e
    case Proposal(b, admitted, selected) => if admitted then Handle(setup, r, b, selected) else r
    case OwnProposal(hash, nodeId, selected) => Propose(r, hash, nodeId, selected)
    case SeenCertificate(qc) =>
      r.(tree := SeeCertificate(r.tree, qc), currentView := AfterView(r.currentView, qc.view))
    case LeftView(view) => r.(currentView := AfterView(r.currentView, view))
  }

  /** The block that an event makes the replica process. */
  ghost function Taken(setup: Setup, r: Replica, e: Event): Option<Block> {
    match e
    case Proposal(b, admitted, selected) => if admitted && Accepts(setup, r, b) then Some(b) else None
    case OwnProposal(hash, nodeId, selected) =>
      if r.currentView > r.lastProposedView then Some(Built(r, hash, nodeId)) else None
    case SeenCertificate(qc) => None
    case LeftView(view) => None
  }

  ghost function Run(setup: Setup, events: seq<Event>): Replica {
    if events == [] then NewReplica(setup)
    else Step(setup, Run(setup, events[..|events| - 1]), events[|events| - 1])
  }

  // ---- votes rise ----

  predicate Rising(votes: seq<Vote>) {
    forall i, j | 0 <= i < j < |votes| :: votes[i].block.view < votes[j].block.view
  }

  predicate OncePerView(votes: seq<Vote>) {
    forall i, j | 0 <= i < j < |votes| :: votes[i].block.view != votes[j].block.view
  }

  /** Vote j is for a received proposal, for the view of the own proposal voted for before it or one view less. */
  predicate FallsBehindOwn(votes: seq<Vote>, i: nat, j: nat) {
    && i < j < |votes| && votes[i].own && !votes[j].own
    && votes[j].block.view <= votes[i].block.view <= votes[j].block.view + 1
  }

  /** What a replica remembers about a vote: it can neither repeat it nor vote below it. */
  predicate RemembersVote(setup: Setup, r: Replica, v: Vote) {
    if v.own then v.block.view <= r.lastProposedView <= r.currentView
    else v.block.view < r.currentView
         && (v.block.view + 1 == r.currentView ==> (v.block.view, setup.leader(v.block.view)) in r.seen)
  }

  ghost predicate VotesInOrder(setup: Setup, r: Replica) {
    && r.lastProposedView <= r.currentView
    && (forall i | 0 <= i < |r.votes| :: RemembersVote(setup, r, r.votes[i]))
    && (forall i: nat, j: nat | i < j < |r.votes| ::
          r.votes[i].block.view < r.votes[j].block.view || FallsBehindOwn(r.votes, i, j))
  }

  lemma RememberedKeepsRecent(seen: map<(nat, nat), Hash>, currentView: nat, committed: bool, k: (nat, nat))
    requires k in seen && k.0 + 1 >= currentView
    ensures k in Remembered(seen, currentView, committed)
  {
  }

  lemma CastKeepsOrder(setup: Setup, r: Replica, v: Vote, r': Replica)
    requires VotesInOrder(setup, r)
    requires r'.votes == r.votes + [v] && r'.lastProposedView <= r'.currentView
    requires RemembersVote(setup, r', v)
    requires forall i | 0 <= i < |r.votes| :: RemembersVote(setup, r', r.votes[i])
    requires forall i | 0 <= i < |r.votes| ::
               || r.votes[i].block.view < v.block.view
               || (r.votes[i].own && !v.own && r.votes[i].block.view <= v.block.view + 1)
    ensures VotesInOrder(setup, r')
  {
    hide RemembersVote;
    forall i: nat, j: nat | i < j < |r'.votes|
      ensures r'.votes[i].block.view < r'.votes[j].block.view || FallsBehindOwn(r'.votes, i, j)
    {
      if j < |r.votes| {
        assert r.votes[i].block.view < r.votes[j].block.view || FallsBehindOwn(r.votes, i, j);
      }
    }
  }

  lemma HandleKeepsOrder(setup: Setup, r: Replica, b: Block, selected: bool)
    requires VotesInOrder(setup, r)
    ensures VotesInOrder(setup, Handle(setup, r, b, selected))
  {
    hide Process, SafeToVote, Remembered;
    var r' := Handle(setup, r, b, selected);
    if MeetsConstraint(setup, r.currentView, b) && IsNew(r, b) {
      var seen := r.seen[(b.view, b.leaderId) := b.hash];
      var committed := Process(r.tree, b).committed != r.tree.committed;
      RememberedKeepsRecent(seen, r.currentView, committed, (b.view, b.leaderId));
      forall i | 0 <= i < |r.votes| ensures RemembersVote(setup, r', r.votes[i]) {
        var w := r.votes[i].block.view;
        assert RemembersVote(setup, r, r.votes[i]);
        if !r.votes[i].own && w + 1 == r.currentView {
          RememberedKeepsRecent(seen, r.currentView, committed, (w, setup.leader(w)));
        }
      }
      if SafeToVote(r.tree, b) && selected {
        CastKeepsOrder(setup, r, Vote(b, r.tree.lockedQC, false), r');
      } else {
        OrderIgnoresRest(setup, r, r');
      }
    }
  }

  lemma OrderIgnoresRest(setup: Setup, r: Replica, r': Replica)
    requires VotesInOrder(setup, r) && r'.votes == r.votes && r'.lastProposedView <= r'.currentView
    requires forall i | 0 <= i < |r.votes| :: RemembersVote(setup, r', r.votes[i])
    ensures VotesInOrder(setup, r')
  {
    hide RemembersVote;
  }

  lemma ProposeKeepsOrder(setup: Setup, r: Replica, hash: Hash, nodeId: nat, selected: bool)
    requires VotesInOrder(setup, r)
    ensures VotesInOrder(setup, Propose(r, hash, nodeId, selected))
  {
    hide Process, Remembered;
    var r' := Propose(r, hash, nodeId, selected);
    if r.currentView > r.lastProposedView {
      var b := Built(r, hash, nodeId);
      var committed := Process(r.tree, b).committed != r.tree.committed;
      forall i | 0 <= i < |r.votes| ensures RemembersVote(setup, r', r.votes[i]) {
        var w := r.votes[i].block.view;
        assert RemembersVote(setup, r, r.votes[i]);
        if !r.votes[i].own && w + 1 == r.currentView {
          RememberedKeepsRecent(r.seen, r.currentView, committed, (w, setup.leader(w)));
        }
      }
      if selected {
        forall i | 0 <= i < |r.votes| ensures r.votes[i].block.view < b.view {
          assert RemembersVote(setup, r, r.votes[i]);
        }
        CastKeepsOrder(setup, r, Vote(b, r.tree.lockedQC, true), r');
      } else {
        OrderIgnoresRest(setup, r, r');
      }
    }
  }

  lemma {:induction false} RunKeepsOrder(setup: Setup, events: seq<Event>)
    ensures VotesInOrder(setup, Run(setup, events))
  {
    if events != [] {
      var n := |events| - 1;
      RunKeepsOrder(setup, events[..n]);
      var r, e := Run(setup, events[..n]), events[n];
      hide VotesInOrder, Handle, Propose;
      match e
      case Proposal(b, admitted, selected) =>
        HandleKeepsOrder(setup, r, b, selected);
      case OwnProposal(hash, nodeId, selected) =>
        ProposeKeepsOrder(setup, r, hash, nodeId, selected);
      case SeenCertificate(qc) =>
        ViewKeepsOrder(setup, r, Step(setup, r, e));
      case LeftView(view) =>
        ViewKeepsOrder(setup, r, Step(setup, r, e));
    }
  }

  lemma ViewKeepsOrder(setup: Setup, r: Replica, r': Replica)
    requires VotesInOrder(setup, r) && r' == r.(tree := r'.tree, currentView := r'.currentView)
    requires r'.currentView >= r.currentView
    ensures VotesInOrder(setup, r')
  {
    forall i | 0 <= i < |r.votes| ensures RemembersVote(setup, r', r.votes[i]) {
      assert RemembersVote(setup, r, r.votes[i]);
    }
    hide RemembersVote;
  }

  lemma SnocVotes(votes: seq<Vote>, v: Vote)
    ensures Rising(votes + [v])
            <==> Rising(votes) && forall i | 0 <= i < |votes| :: votes[i].block.view < v.block.view
    ensures OncePerView(votes + [v])
            <==> OncePerView(votes) && forall i | 0 <= i < |votes| :: votes[i].block.view != v.block.view
  {
    var longer := votes + [v];
    assert forall i | 0 <= i < |votes| :: longer[i] == votes[i];
    assert longer[|votes|] == v;
    if Rising(longer) {
      assert forall i | 0 <= i < |votes| :: longer[i].block.view < longer[|votes|].block.view;
      forall i, j | 0 <= i < j < |votes| ensures votes[i].block.view < votes[j].block.view {
        assert longer[i].block.view < longer[j].block.view;
      }
    }
    if OncePerView(longer) {
      assert forall i | 0 <= i < |votes| :: longer[i].block.view != longer[|votes|].block.view;
      forall i, j | 0 <= i < j < |votes| ensures votes[i].block.view != votes[j].block.view {
        assert longer[i].block.view != longer[j].block.view;
      }
    }
  }

  /** Event k makes the replica vote for a proposal it receives. */
  ghost predicate VotesForReceived(setup: Setup, events: seq<Event>, k: nat) {
    && k < |events| && events[k].Proposal? && events[k].admitted && events[k].selected
    && Accepts(setup, Run(setup, events[..k]), events[k].block)
  }

  /** At event k the replica takes a proposal that is not above an own one it has voted for. */
  ghost predicate TakesAtOrBelowOwn(setup: Setup, events: seq<Event>, k: nat) {
    && VotesForReceived(setup, events, k)
    && var votes := Run(setup, events[..k]).votes;
       exists i: nat :: i < |votes| && votes[i].own && events[k].block.view <= votes[i].block.view
  }

  /** At event k the replica takes a proposal for a view in which it has voted for its own. */
  ghost predicate TakesAtOwn(setup: Setup, events: seq<Event>, k: nat) {
    && VotesForReceived(setup, events, k)
    && var votes := Run(setup, events[..k]).votes;
       exists i: nat :: i < |votes| && votes[i].own && events[k].block.view == votes[i].block.view
  }

  /** What the last event does to the two properties. */
  lemma LastVoteRises(setup: Setup, events: seq<Event>)
    requires events != []
    ensures var n := |events| - 1;
            var votes, votes' := Run(setup, events[..n]).votes, Run(setup, events).votes;
            && (Rising(votes') <==> Rising(votes) && !TakesAtOrBelowOwn(setup, events, n))
            && (OncePerView(votes') <==> OncePerView(votes) && !TakesAtOwn(setup, events, n))
  {
    hide Process, Accepts, Remembered, RemembersVote, Rising, OncePerView;
    var n := |events| - 1;
    var r, e := Run(setup, events[..n]), events[n];
    RunKeepsOrder(setup, events[..n]);
    RunKeepsOrder(setup, events);
    CastsAtMostOne(setup, r, e);
    var r' := Run(setup, events);
    if r'.votes != r.votes {
      var v := r'.votes[|r.votes|];
      SnocVotes(r.votes, v);
      forall i: nat | i < |r.votes|
        ensures r.votes[i].block.view < v.block.view
                || (r.votes[i].own && !v.own && v.block.view <= r.votes[i].block.view)
      {
        assert r'.votes[i] == r.votes[i];
        assert r'.votes[i].block.view < r'.votes[|r.votes|].block.view || FallsBehindOwn(r'.votes, i, |r.votes|);
      }
    }
  }

  lemma CastsAtMostOne(setup: Setup, r: Replica, e: Event)
    ensures var r' := Step(setup, r, e);
            if e.Proposal? && e.admitted && e.selected && Accepts(setup, r, e.block)
            then r'.votes == r.votes + [Vote(e.block, r.tree.lockedQC, false)]
            else r'.votes == r.votes || exists v: Vote :: v.own && r'.votes == r.votes + [v]
  {
    hide Process, Remembered, SafeToVote, MeetsConstraint, IsNew;
    if e.OwnProposal? && r.currentView > r.lastProposedView && e.selected {
      var v := Vote(Built(r, e.hash, e.nodeId), r.tree.lockedQC, true);
      assert v.own && Step(setup, r, e).votes == r.votes + [v];
    }
  }

  /**
   In every run the votes rise strictly from view to view exactly if the replica never takes a proposal
   that is not above an own one it has voted for, and it votes at most once in each view exactly if it
   never takes one for a view in which it has voted for its own.
   */
  lemma {:induction false} VotesRiseIff(setup: Setup, events: seq<Event>)
    ensures Rising(Run(setup, events).votes)
            <==> forall k: nat | k < |events| :: !TakesAtOrBelowOwn(setup, events, k)
    ensures OncePerView(Run(setup, events).votes)
            <==> forall k: nat | k < |events| :: !TakesAtOwn(setup, events, k)
  {
    hide Run, Rising, OncePerView, VotesForReceived;
    if events == [] {
      NoVotesYet(setup);
    } else {
      var n := |events| - 1;
      var before := events[..n];
      VotesRiseIff(setup, before);
      LastVoteRises(setup, events);
      forall k: nat | k < n
        ensures TakesAtOrBelowOwn(setup, events, k) <==> TakesAtOrBelowOwn(setup, before, k)
        ensures TakesAtOwn(setup, events, k) <==> TakesAtOwn(setup, before, k)
      {
        assert before[..k] == events[..k];
        SameStep(setup, events, before, k);
      }
    }
  }

  lemma NoVotesYet(setup: Setup)
    ensures Rising(Run(setup, []).votes) && OncePerView(Run(setup, []).votes)
  {
  }

  lemma SameStep(setup: Setup, events: seq<Event>, before: seq<Event>, k: nat)
    requires k < |before| && before <= events
    ensures VotesForReceived(setup, events, k) <==> VotesForReceived(setup, before, k)
  {
    hide Run, Accepts;
    assert before[..k] == events[..k];
  }

  /** Without own proposals the votes rise in every run. */
  lemma {:induction false} HandledVotesRise(setup: Setup, events: seq<Event>)
    requires forall k | 0 <= k < |events| :: !events[k].OwnProposal?
    ensures Rising(Run(setup, events).votes)
  {
    VotesRiseIff(setup, events);
    hide Run, Accepts, Rising;
    forall k: nat | k < |events| ensures !TakesAtOrBelowOwn(setup, events, k) {
      NoneOwn(setup, events[..k]);
    }
  }

  lemma {:induction false} NoneOwn(setup: Setup, events: seq<Event>)
    requires forall k | 0 <= k < |events| :: !events[k].OwnProposal?
    ensures forall i | 0 <= i < |Run(setup, events).votes| :: !Run(setup, events).votes[i].own
  {
    hide Process, SafeToVote, Remembered, MeetsConstraint, IsNew;
    if events != [] {
      NoneOwn(setup, events[..|events| - 1]);
    }
  }

  // ---- where votes come from ----

  /** Event k makes the replica build and process block b. */
  ghost predicate MakesAt(setup: Setup, events: seq<Event>, k: nat, b: Block) {
    && k < |events| && events[k].OwnProposal?
    && var r := Run(setup, events[..k]);
       r.currentView > r.lastProposedView && b == Built(r, events[k].hash, events[k].nodeId)
  }

  lemma ProposedViewsRise(setup: Setup, r: Replica, e: Event)
    ensures r.lastProposedView <= Step(setup, r, e).lastProposedView
  {
    hide Process, Remembered, Accepts, SafeToVote, MeetsConstraint, IsNew;
  }

  lemma {:induction false} ProposedViewsKeepRising(setup: Setup, events: seq<Event>, i: nat)
    requires i <= |events|
    ensures Run(setup, events[..i]).lastProposedView <= Run(setup, events).lastProposedView
  {
    hide Step;
    if i < |events| {
      var n := |events| - 1;
      ProposedViewsKeepRising(setup, events[..n], i);
      assert events[..n][..i] == events[..i];
      ProposedViewsRise(setup, Run(setup, events[..n]), events[n]);
    } else {
      assert events[..i] == events;
    }
  }

  /** A replica builds at most one block per view. */
  lemma MakesOncePerView(setup: Setup, events: seq<Event>, k: nat, b: Block, k': nat, b': Block)
    requires MakesAt(setup, events, k, b) && MakesAt(setup, events, k', b') && k < k'
    ensures b.view < b'.view
  {
    hide Process, Remembered;
    assert events[..k + 1][..k] == events[..k];
    assert Run(setup, events[..k + 1]) == Step(setup, Run(setup, events[..k]), events[k]);
    ProposedViewsKeepRising(setup, events[..k'], k + 1);
    assert events[..k'][..k + 1] == events[..k + 1];
  }

  /** The origin of vote i: the block was built, or was received when it was new and came from its leader. */
  ghost predicate HasOrigin(setup: Setup, events: seq<Event>, v: Vote) {
    if v.own then exists k: nat :: MakesAt(setup, events, k, v.block)
    else v.block.leaderId == setup.leader(v.block.view)
         && exists k: nat :: k < |events| && events[k] == Proposal(v.block, true, true)
  }

  ghost predicate VotesKnown(setup: Setup, events: seq<Event>, r: Replica) {
    && (forall i | 0 <= i < |r.votes| :: HasOrigin(setup, events, r.votes[i]) && r.votes[i].block.hash in r.tree.stored)
    && (forall i, j | 0 <= i < j < |r.votes| && !r.votes[j].own :: r.votes[i].block.hash != r.votes[j].block.hash)
  }

  lemma OriginStays(setup: Setup, events: seq<Event>, e: Event, v: Vote)
    requires HasOrigin(setup, events, v)
    ensures HasOrigin(setup, events + [e], v)
  {
    hide Run, Built;
    var longer := events + [e];
    if v.own {
      var k: nat :| MakesAt(setup, events, k, v.block);
      assert longer[..k] == events[..k];
      assert MakesAt(setup, longer, k, v.block);
    } else {
      var k: nat :| k < |events| && events[k] == Proposal(v.block, true, true);
      assert longer[k] == events[k];
    }
  }

  lemma NewOrigin(setup: Setup, events: seq<Event>, e: Event, v: Vote)
    requires var r := Run(setup, events);
             if v.own then e.OwnProposal? && r.currentView > r.lastProposedView && v.block == Built(r, e.hash, e.nodeId)
             else e == Proposal(v.block, true, true) && v.block.leaderId == setup.leader(v.block.view)
    ensures HasOrigin(setup, events + [e], v)
  {
    hide Run, Built;
    var longer, k := events + [e], |events|;
    assert longer[..k] == events && longer[k] == e;
    if v.own {
      assert MakesAt(setup, longer, k, v.block);
    }
  }

  /** What one event adds to votes and store. */
  lemma StepAdds(setup: Setup, r: Replica, e: Event)
    ensures var r' := Step(setup, r, e);
            && r.tree.stored.Keys <= r'.tree.stored.Keys
            && (r'.votes != r.votes ==>
                  var v := r'.votes[|r.votes|];
                  && r'.votes == r.votes + [v] && v.block.hash in r'.tree.stored
                  && (v.own ==> e.OwnProposal? && r.currentView > r.lastProposedView
                                && v.block == Built(r, e.hash, e.nodeId))
                  && (!v.own ==> e == Proposal(v.block, true, true) && v.block.hash !in r.tree.stored
                                 && v.block.leaderId == setup.leader(v.block.view)))
  {
    hide Process, Remembered, SafeToVote, Built;
    match e
    case Proposal(b, admitted, selected) => ProcessLocks(r.tree, b);
    case OwnProposal(hash, nodeId, selected) =>
      ProcessLocks(r.tree, Built(r, hash, nodeId));
      assert Built(r, hash, nodeId).hash == hash by {
        BuiltHash(r, hash, nodeId);
      }
    case SeenCertificate(qc) =>
    case LeftView(view) =>
  }

  lemma BuiltHash(r: Replica, hash: Hash, nodeId: nat)
    ensures Built(r, hash, nodeId).hash == hash && Built(r, hash, nodeId).leaderId == nodeId
  {
  }

  lemma {:induction false} VotesAreKnown(setup: Setup, events: seq<Event>)
    ensures VotesKnown(setup, events, Run(setup, events))
  {
    if events != [] {
      hide Step, HasOrigin, Built;
      var n := |events| - 1;
      var before, e := events[..n], events[n];
      var r, r' := Run(setup, before), Run(setup, events);
      VotesAreKnown(setup, before);
      StepAdds(setup, r, e);
      assert before + [e] == events;
      forall i | 0 <= i < |r.votes| ensures HasOrigin(setup, events, r.votes[i]) {
        OriginStays(setup, before, e, r.votes[i]);
      }
      if r'.votes != r.votes {
        NewOrigin(setup, before, e, r'.votes[|r.votes|]);
      }
    }
  }

  // ---- what a replica knows ----

  /** The certificate that an event shows to the replica: its own, or that of the block it makes it process. */
  ghost function ShownAt(setup: Setup, r: Replica, e: Event): set<QuorumCertificate> {
    if e.SeenCertificate? then {e.qc}
    else if Taken(setup, r, e).Some? then ShownBy(Taken(setup, r, e).value) else {}
  }

  ghost function ShownTo(setup: Setup, events: seq<Event>): set<QuorumCertificate> {
    if events == [] then {}
    else
      var before := events[..|events| - 1];
      ShownTo(setup, before) + ShownAt(setup, Run(setup, before), events[|events| - 1])
  }

  lemma StepShows(setup: Setup, r: Replica, e: Event, start: QuorumCertificate, shown: set<QuorumCertificate>)
    requires IsLatestOf(r.tree.highQC, start, shown)
    ensures IsLatestOf(Step(setup, r, e).tree.highQC, start, shown + ShownAt(setup, r, e))
  {
    hide Process, SeeCertificate, IsLatestOf, Accepts, SafeToVote, MeetsConstraint, IsNew, Remembered, Built;
    match e
    case Proposal(b, admitted, selected) =>
      AcceptsIs(setup, r, b);
      LatestGrows(r.tree, start, shown, b, GenesisQC(0));
      assert shown + {} == shown;
    case OwnProposal(hash, nodeId, selected) =>
      LatestGrows(r.tree, start, shown, Built(r, hash, nodeId), GenesisQC(0));
      assert shown + {} == shown;
    case SeenCertificate(qc) =>
      LatestGrows(r.tree, start, shown, Block(0, None, 0, 0, 0, None), qc);
    case LeftView(view) =>
      assert shown + {} == shown;
  }

  lemma AcceptsIs(setup: Setup, r: Replica, b: Block)
    ensures Accepts(setup, r, b)
            <==> MeetsConstraint(setup, r.currentView, b) && IsNew(r, b) && SafeToVote(r.tree, b)
  {
    hide MeetsConstraint, IsNew, SafeToVote;
  }

  /** In every run the highest certificate is the latest one that was shown, whatever their epochs. */
  lemma {:induction false} HighestIsLatest(setup: Setup, events: seq<Event>)
    ensures IsLatestOf(Run(setup, events).tree.highQC, GenesisQC(setup.epoch), ShownTo(setup, events))
  {
    hide Step, ShownAt, IsLatestOf;
    if events == [] {
      NothingShownYet(setup);
    } else {
      var n := |events| - 1;
      HighestIsLatest(setup, events[..n]);
      StepShows(setup, Run(setup, events[..n]), events[n], GenesisQC(setup.epoch), ShownTo(setup, events[..n]));
    }
  }

  lemma NothingShownYet(setup: Setup)
    ensures IsLatestOf(Run(setup, []).tree.highQC, GenesisQC(setup.epoch), {})
  {
  }

  /**
   A block that a replica builds extends the latest certificate it was shown, names its parent, is in its
   view, and is one higher than the highest stored block.
   */
  lemma BuildsOnLatest(setup: Setup, events: seq<Event>, k: nat, b: Block)
    requires MakesAt(setup, events, k, b)
    ensures var r := Run(setup, events[..k]);
            && b.justify.Some? && IsLatestOf(b.justify.value, GenesisQC(setup.epoch), ShownTo(setup, events[..k]))
            && b.parent == (if b.justify.value.blockHash.Some? then b.justify.value.blockHash else Some(0))
            && b.view == r.currentView && b.leaderId == events[k].nodeId && b.hash == events[k].hash
            && (forall h | h in r.tree.stored :: r.tree.stored[h].height < b.height)
            && (b.height == 1 || exists h :: h in r.tree.stored && r.tree.stored[h].height + 1 == b.height)
  {
    hide Run, IsLatestOf;
    HighestIsLatest(setup, events[..k]);
  }

  /** The views that an event tells the replica are over. */
  ghost function ViewsOver(setup: Setup, r: Replica, e: Event): set<nat> {
    match e
    case Proposal(b, admitted, selected) => if admitted && Accepts(setup, r, b) then {b.view} else {}
    case OwnProposal(hash, nodeId, selected) => {}
    case SeenCertificate(qc) => {qc.view}
    case LeftView(view) => {view}
  }

  ghost function AllViewsOver(setup: Setup, events: seq<Event>): set<nat> {
    if events == [] then {}
    else
      var before := events[..|events| - 1];
      AllViewsOver(setup, before) + ViewsOver(setup, Run(setup, before), events[|events| - 1])
  }

  /** A replica is in view 1 at first, and later in the first view after all that are over. */
  ghost predicate IsFirstAfter(view: nat, over: set<nat>) {
    (view == 1 || view - 1 in over) && view >= 1 && forall v | v in over :: v < view
  }

  lemma {:induction false} ViewIsFirstAfter(setup: Setup, events: seq<Event>)
    ensures IsFirstAfter(Run(setup, events).currentView, AllViewsOver(setup, events))
  {
    if events != [] {
      var before, e := events[..|events| - 1], events[|events| - 1];
      ViewIsFirstAfter(setup, before);
      ViewStep(setup, Run(setup, before), e, AllViewsOver(setup, before));
    }
  }

  lemma ViewStep(setup: Setup, r: Replica, e: Event, over: set<nat>)
    requires IsFirstAfter(r.currentView, over)
    ensures IsFirstAfter(Step(setup, r, e).currentView, over + ViewsOver(setup, r, e))
  {
    hide Process, Accepts, SafeToVote, MeetsConstraint, IsNew, Remembered, Built;
    if e.Proposal? {
      AcceptsIs(setup, r, e.block);
    }
  }

  /**
   Exactly when a replica votes for an admitted proposal that it may vote on: the view is its own, the one
   before or the one after, the proposer leads it, the certificate is from an earlier view and for the
   parent, the block is new, higher than all committed ones and the first of its view and leader, and its
   certificate is newer than the lock or its branch leads to the locked block.
   */
  lemma VotesForIff(setup: Setup, r: Replica, b: Block)
    requires r.currentView >= 1
    ensures Step(setup, r, Proposal(b, true, true)).votes != r.votes
            <==> && r.currentView <= b.view + 1 && 1 <= b.view <= r.currentView + 1
                 && b.leaderId == setup.leader(b.view)
                 && (b.justify.None? ==> b.view == 1)
                 && (b.justify.Some? ==>
                       && b.justify.value.view < b.view
                       && (b.justify.value.blockHash.Some? ==> b.parent == b.justify.value.blockHash))
                 && b.hash !in r.tree.stored && (b.view, b.leaderId) !in r.seen
                 && (b.height > 0 && forall c | c in r.tree.committed :: b.height > c.height)
                 && (|| (b.justify.Some? && b.justify.value.view > r.tree.lockedQC.view)
                     || r.tree.lockedQC.blockHash.None?
                     || (b.justify.Some? && b.justify.value.blockHash == r.tree.lockedQC.blockHash)
                     || Reaches(r.tree.stored, Above(b), r.tree.lockedQC.blockHash.value))
  {
    hide Process, Remembered, SafeToVote, MeetsConstraint, IsNew;
    VotesIfAccepted(setup, r, b);
    AcceptsIs(setup, r, b);
    ConstraintMeans(setup, r.currentView, b);
    NewMeans(r, b);
    SafeMeans(r.tree, b);
  }

  lemma VotesIfAccepted(setup: Setup, r: Replica, b: Block)
    ensures Step(setup, r, Proposal(b, true, true)).votes != r.votes <==> Accepts(setup, r, b)
  {
    hide Process, Remembered, SafeToVote, MeetsConstraint, IsNew;
  }

  lemma ConstraintMeans(setup: Setup, currentView: nat, b: Block)
    requires currentView >= 1
    ensures MeetsConstraint(setup, currentView, b)
            <==> && currentView <= b.view + 1 && 1 <= b.view <= currentView + 1
                 && b.leaderId == setup.leader(b.view)
                 && (b.justify.None? ==> b.view == 1)
                 && (b.justify.Some? ==>
                       && b.justify.value.view < b.view
                       && (b.justify.value.blockHash.Some? ==> b.parent == b.justify.value.blockHash))
  {
  }

  lemma NewMeans(r: Replica, b: Block)
    ensures IsNew(r, b)
            <==> && b.hash !in r.tree.stored && (b.view, b.leaderId) !in r.seen
                 && (b.height > 0 && forall c | c in r.tree.committed :: b.height > c.height)
  {
    AboveCommitted(r.tree.committed, b.height);
  }

  lemma SafeMeans(t: TreeState, b: Block)
    ensures SafeToVote(t, b)
            <==> || (b.justify.Some? && b.justify.value.view > t.lockedQC.view)
                 || t.lockedQC.blockHash.None?
                 || (b.justify.Some? && b.justify.value.blockHash == t.lockedQC.blockHash)
                 || Reaches(t.stored, Above(b), t.lockedQC.blockHash.value)
  {
    hide Reaches;
  }

  lemma {:induction false} AboveCommitted(committed: seq<Block>, height: nat)
    ensures height > HighestCommitted(committed) <==> height > 0 && forall c | c in committed :: height > c.height
  {
    if committed != [] {
      var n := |committed| - 1;
      AboveCommitted(committed[..n], height);
      assert committed == committed[..n] + [committed[n]];
    }
  }

  /** A vote is for the proposed block, and cast under the lock held before it. */
  lemma VoteShowsLock(setup: Setup, r: Replica, b: Block)
    requires Step(setup, r, Proposal(b, true, true)).votes != r.votes
    ensures Step(setup, r, Proposal(b, true, true)).votes == r.votes + [Vote(b, r.tree.lockedQC, false)]
  {
    CastsAtMostOne(setup, r, Proposal(b, true, true));
    hide Process, Remembered, MeetsConstraint, IsNew, SafeToVote;
  }

  /**
   The first proposal of each view and leader is remembered, taken or not, and forgotten only when a
   commit finds it more than ten views old.
   */
  lemma RemembersFirstProposals(setup: Setup, r: Replica, e: Event, view: nat, leader: nat)
    ensures var r' := Step(setup, r, e);
            && ((view, leader) in r.seen && r.currentView <= view + 10 ==>
                  (view, leader) in r'.seen && r'.seen[(view, leader)] == r.seen[(view, leader)])
            && ((view, leader) in r.seen && (view, leader) !in r'.seen ==> r'.tree.committed != r.tree.committed)
            && (r'.tree.committed != r.tree.committed && view + 10 < r.currentView ==> (view, leader) !in r'.seen)
            && ((view, leader) in r'.seen && (view, leader) !in r.seen ==>
                  e.Proposal? && e.admitted && e.block.view == view && e.block.leaderId == leader)
            && (e.Proposal? && e.admitted && MeetsConstraint(setup, r.currentView, e.block) && IsNew(r, e.block)
                && r'.tree == r.tree ==>
                  (e.block.view, e.block.leaderId) in r'.seen)
  {
    hide Process, SafeToVote, MeetsConstraint, HighestCommitted, Built;
  }

  // ---- instances ----

  /** Concretely: the leader of view 2 votes for its own proposal and then for a late one of view 1. */
  lemma MayFallBehindOwn(setup: Setup)
    requires setup.leader(2) == 0
    ensures var late := Block(8, None, 1, setup.leader(1), 1, None);
            var events := [LeftView(1), OwnProposal(7, 0, true), Proposal(late, true, true)];
            TakesAtOrBelowOwn(setup, events, 2) && !Rising(Run(setup, events).votes)
  {
    var late := Block(8, None, 1, setup.leader(1), 1, None);
    OwnThenReceived(setup, 1, 0, late);
  }

  /**
   Concretely: node 0 stands in for the leader of view 1 with a proposal of its own, and then takes the
   leader's; it votes twice in view 1.
   */
  lemma FallbackVotesTwice(setup: Setup)
    requires setup.leader(1) != 0
    ensures var other := Block(8, None, 1, setup.leader(1), 1, None);
            var events := [LeftView(0), OwnProposal(7, 0, true), Proposal(other, true, true)];
            TakesAtOwn(setup, events, 2) && !OncePerView(Run(setup, events).votes)
  {
    var other := Block(8, None, 1, setup.leader(1), 1, None);
    OwnThenReceived(setup, 0, 0, other);
  }

  /** Node `id` leaves a view, proposes in the next, and then receives another block of view 1. */
  lemma OwnThenReceived(setup: Setup, left: nat, id: nat, b: Block)
    requires left <= 1 && b == Block(8, None, 1, setup.leader(1), 1, None)
    ensures var events := [LeftView(left), OwnProposal(7, id, true), Proposal(b, true, true)];
            && TakesAtOrBelowOwn(setup, events, 2) && !Rising(Run(setup, events).votes)
            && (left == 0 ==> TakesAtOwn(setup, events, 2) && !OncePerView(Run(setup, events).votes))
  {
    var e1, e2, e3 := LeftView(left), OwnProposal(7, id, true), Proposal(b, true, true);
    assert [e1][..0] == [] && [e1, e2][..1] == [e1] && [e1, e2, e3][..2] == [e1, e2];
    assert Run(setup, []) == NewReplica(setup);
    var r1 := Run(setup, [e1]);
    assert r1 == NewReplica(setup).(currentView := left + 1);
    var r2 := Run(setup, [e1, e2]);
    assert r2 == Propose(r1, 7, id, true);
    assert r2.tree == Store(r1.tree, Built(r1, 7, id));
    assert b.hash !in r2.tree.stored && r2.tree.lockedQC.blockHash.None?;
    assert Accepts(setup, r2, b) && r2.votes[0].own && r2.votes[0].block.view == left + 1;
    VotesRiseIff(setup, [e1, e2, e3]);
  }
}
