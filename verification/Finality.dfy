/**
 What committing a block means when replicas vote as in Replicas: quorums meet in honest replicas, so
 one block is certified per view, and a block at the start of three certificates in consecutive views
 is an ancestor of every later certified block.

 Faulty replicas may vote for anything.  Certificates are genuine, and what is proposed in the name of an
 honest replica comes from it, as signatures are not modelled.  An honest replica may vote twice in a view
 in which it stands in for the leader; its own block then never gets a quorum.
 */
module Finality {
  import opened Wrappers
  import opened BlockTrees
  import opened Replicas

  /**
   One history of events for each replica; `block` gives the block of each hash, as hashes do not collide.
   `parentsHeld` says that no replica takes a block before the one that its certificate is for.
   */
  datatype System = System(
    setup: Setup, histories: seq<seq<Event>>, faulty: set<nat>, block: Hash -> Block, parentsHeld: bool)

  // ---- quorums ----

  function QuorumSize(n: nat): nat {
    n * 2 / 3 + 1
  }

  function Range(n: nat): (range: set<nat>)
    ensures |range| == n
    ensures forall r: nat :: r in range <==> r < n
  {
    if n == 0 then {} else Range(n - 1) + {n - 1}
  }

  ghost function VotesOf(sys: System, r: nat): seq<Vote>
    requires r < |sys.histories|
  {
    Run(sys.setup, sys.histories[r]).votes
  }

  ghost predicate Voted(sys: System, r: nat, h: Hash) {
    r < |sys.histories| && exists k :: 0 <= k < |VotesOf(sys, r)| && VotesOf(sys, r)[k].block.hash == h
  }

  ghost predicate IsQuorumFor(sys: System, quorum: set<nat>, h: Hash) {
    && quorum <= Range(|sys.histories|)
    && |quorum| >= QuorumSize(|sys.histories|)
    && forall r | r in quorum :: r in sys.faulty || Voted(sys, r, h)
  }

  ghost predicate HasQuorum(sys: System, h: Hash) {
    exists quorum: set<nat> :: IsQuorumFor(sys, quorum, h)
  }

  predicate FewFaulty(sys: System) {
    sys.faulty <= Range(|sys.histories|) && 3 * |sys.faulty| < |sys.histories|
  }

  /** Two quorums meet in a replica that is not faulty. */
  lemma QuorumsMeet(sys: System, h: Hash, h': Hash) returns (r: nat)
    requires FewFaulty(sys) && HasQuorum(sys, h) && HasQuorum(sys, h')
    ensures r !in sys.faulty && Voted(sys, r, h) && Voted(sys, r, h')
  {
    var n := |sys.histories|;
    var q: set<nat> :| IsQuorumFor(sys, q, h);
    var q': set<nat> :| IsQuorumFor(sys, q', h');
    SubsetSize(q + q', Range(n));
    assert |q + q'| + |q * q'| == |q| + |q'|;
    if q * q' <= sys.faulty {
      SubsetSize(q * q', sys.faulty);
      assert false;
    }
    r :| r in q * q' && r !in sys.faulty;
  }

  lemma {:induction false} SubsetSize<T>(a: set<T>, b: set<T>)
    requires a <= b
    ensures |a| <= |b|
  {
    assert b == a + (b - a);
  }

  // ---- ancestors ----

  function Ascend(block: Hash -> Block, from: Option<Hash>, k: nat): Option<Hash> {
    if k == 0 then from
    else
      var h := Ascend(block, from, k - 1);
      if h.None? then None else Above(block(h.value))
  }

  /** Some path upwards from a block (itself included) meets the target. */
  ghost predicate Descends(sys: System, h: Hash, target: Hash) {
    exists k: nat :: Ascend(sys.block, Some(h), k) == Some(target)
  }

  lemma {:induction false} AscendFrom(block: Hash -> Block, from: Option<Hash>, i: nat, k: nat)
    ensures Ascend(block, from, i + k) == Ascend(block, Ascend(block, from, i), k)
  {
    if k > 0 {
      AscendFrom(block, from, i, k - 1);
    }
  }

  lemma DescendsTransitively(sys: System, a: Hash, b: Hash, c: Hash)
    requires Descends(sys, a, b) && Descends(sys, b, c)
    ensures Descends(sys, a, c)
  {
    var i: nat :| Ascend(sys.block, Some(a), i) == Some(b);
    var k: nat :| Ascend(sys.block, Some(b), k) == Some(c);
    AscendFrom(sys.block, Some(a), i, k);
  }

  lemma ParentAbove(sys: System, h: Hash, parent: Hash)
    requires Above(sys.block(h)) == Some(parent)
    ensures Descends(sys, h, parent)
  {
    assert Ascend(sys.block, Some(h), 0) == Some(h);
    assert Ascend(sys.block, Some(h), 1) == Some(parent);
  }

  lemma Itself(sys: System, h: Hash)
    ensures Descends(sys, h, h)
  {
    assert Ascend(sys.block, Some(h), 0) == Some(h);
  }

  /** What a replica sees in its store is the truth. */
  lemma {:induction false} WalkIsAscent(sys: System, stored: map<Hash, Block>, from: Option<Hash>, k: nat)
    requires forall h | h in stored :: stored[h] == sys.block(h)
    ensures Walk(stored, from, k).Some? ==> Ascend(sys.block, from, k) == Walk(stored, from, k)
  {
    if k > 0 {
      WalkIsAscent(sys, stored, from, k - 1);
    }
  }

  lemma ExtendsIsDescent(sys: System, stored: map<Hash, Block>, b: Block, target: Hash)
    requires forall h | h in stored :: stored[h] == sys.block(h)
    requires b == sys.block(b.hash) && BuiltOnCertified(b) && Extends(stored, b, target)
    ensures Descends(sys, b.hash, target)
  {
    if b.justify.Some? && b.justify.value.blockHash == Some(target) {
      ParentAbove(sys, b.hash, target);
    } else {
      var k: nat :| Walk(stored, Above(b), k) == Some(target);
      WalkIsAscent(sys, stored, Above(b), k);
      assert Ascend(sys.block, Some(b.hash), 0) == Some(b.hash);
      assert Ascend(sys.block, Some(b.hash), 1) == Above(b);
      AscendFrom(sys.block, Some(b.hash), 1, k);
    }
  }

  // ---- systems that can happen ----

  /** The certificate of a block, if it names one, is for its parent and from an earlier view. */
  predicate BuiltOnCertified(b: Block) {
    b.justify.Some? ==>
      b.justify.value.view < b.view && (b.justify.value.blockHash.Some? ==> b.parent == b.justify.value.blockHash)
  }

  /** A quorum voted for the block of the certificate, in the view of the certificate. */
  ghost predicate Genuine(sys: System, qc: QuorumCertificate) {
    && qc.epoch == sys.setup.epoch
    && match qc.blockHash
       case None => qc.view == 0
       case Some(h) => HasQuorum(sys, h) && sys.block(h).view == qc.view
  }

  ghost predicate GenuineBlock(sys: System, b: Block) {
    && b == sys.block(b.hash)
    && (b.justify.Some? ==> Genuine(sys, b.justify.value))
  }

  /** The block that the certificate is for, if it is for one, is stored. */
  predicate HoldsParent(stored: map<Hash, Block>, b: Block) {
    b.justify.Some? && b.justify.value.blockHash.Some? ==> b.justify.value.blockHash.value in stored
  }

  /** The replica that a block names as its leader has built it, in the course of its own history. */
  ghost predicate Authored(sys: System, b: Block) {
    b.leaderId < |sys.histories| && exists k: nat :: MakesAt(sys.setup, sys.histories[b.leaderId], k, b)
  }

  /**
   What replica `id` can meet with.  The sender of an admitted proposal is its leader, so that a proposal
   in the name of an honest replica comes from it; and own proposals carry the replica's own number.
   */
  ghost predicate EventSound(sys: System, id: nat, r: Replica, e: Event) {
    match e
    case Proposal(b, admitted, selected) =>
      admitted ==>
        && GenuineBlock(sys, b) && (sys.parentsHeld ==> HoldsParent(r.tree.stored, b))
        && (b.leaderId !in sys.faulty ==> Authored(sys, b))
    case OwnProposal(hash, nodeId, selected) =>
      r.currentView > r.lastProposedView ==>
        && nodeId == id && GenuineBlock(sys, Built(r, hash, nodeId))
        && (sys.parentsHeld ==> HoldsParent(r.tree.stored, Built(r, hash, nodeId)))
    case SeenCertificate(qc) => Genuine(sys, qc)
    case LeftView(view) => true
  }

  ghost predicate HistorySound(sys: System, id: nat, events: seq<Event>) {
    forall k | 0 <= k < |events| :: EventSound(sys, id, Run(sys.setup, events[..k]), events[k])
  }

  /** Leaders are replicas, but an honest replica may also stand in for one it suspects. */
  ghost predicate Possible(sys: System) {
    && FewFaulty(sys)
    && (forall h :: sys.block(h).hash == h)
    && (forall view: nat :: sys.setup.leader(view) < |sys.histories|)
    && forall r: nat | r < |sys.histories| && r !in sys.faulty :: HistorySound(sys, r, sys.histories[r])
  }

  ghost predicate Complete(sys: System) {
    Possible(sys) && sys.parentsHeld
  }

  // ---- what holds of every honest replica ----

  ghost predicate StoreSound(sys: System, stored: map<Hash, Block>) {
    forall h | h in stored ::
      && stored[h] == sys.block(h) && stored[h].hash == h && stored[h].view >= 1
      && BuiltOnCertified(stored[h]) && GenuineBlock(sys, stored[h]) && HoldsParent(stored, stored[h])
  }

  /** The view of the certificate that the certified parent of a block is built on. */
  function LockedBy(sys: System, b: Block): nat {
    if b.justify.None? || b.justify.value.blockHash.None? then 0
    else
      var generic := sys.block(b.justify.value.blockHash.value);
      if generic.justify.None? then 0 else generic.justify.value.view
  }

  /** The lock and the highest certificate are genuine, and behind the view. */
  ghost predicate LocksSound(sys: System, t: TreeState, currentView: nat) {
    && Genuine(sys, t.lockedQC) && Genuine(sys, t.highQC)
    && t.lockedQC.view <= t.highQC.view < currentView
    && (t.lockedQC.view == 0 || t.lockedQC.view + 1 < currentView)
  }

  /** The block a vote is for respects the lock it was cast under. */
  ghost predicate VoteSound(sys: System, v: Vote) {
    && v.block.view >= 1 && BuiltOnCertified(v.block) && GenuineBlock(sys, v.block)
    && Genuine(sys, v.lock) && v.lock.view < v.block.view
    && (|| v.lock.blockHash.None?
        || (v.block.justify.Some? && v.block.justify.value.view >= v.lock.view)
        || Descends(sys, v.block.hash, v.lock.blockHash.value))
  }

  /** Having voted for a block, a replica is locked at least as high as that block shows. */
  ghost predicate VotesBind(sys: System, votes: seq<Vote>, lock: nat) {
    && (forall i | 0 <= i < |votes| :: VoteSound(sys, votes[i]) && LockedBy(sys, votes[i].block) <= lock)
    && (forall i, j | 0 <= i < j < |votes| :: LockedBy(sys, votes[i].block) <= votes[j].lock.view)
  }

  /** No certificate on show in a store is above this view. */
  predicate ShowsUpTo(stored: map<Hash, Block>, view: nat) {
    forall h | h in stored :: stored[h].justify.Some? ==> stored[h].justify.value.view <= view
  }

  /** An own proposal is built as high as any block shows that the replica could take before it. */
  predicate CoversBelow(stored: map<Hash, Block>, v: Vote) {
    && v.block.justify.Some?
    && forall h | h in stored && stored[h].view + 2 <= v.block.view ::
         stored[h].justify.Some? ==> stored[h].justify.value.view <= v.block.justify.value.view
  }

  ghost predicate OwnVotesBind(sys: System, votes: seq<Vote>, stored: map<Hash, Block>, currentView: nat) {
    && (forall j | 0 <= j < |votes| && votes[j].own ::
          votes[j].block.view <= currentView && CoversBelow(stored, votes[j]))
    && (forall i, j | && 0 <= i < |votes| && 0 <= j < |votes| && votes[j].own
                      && votes[i].block.view < votes[j].block.view ::
          LockedBy(sys, votes[i].block) <= votes[j].block.justify.value.view)
  }

  ghost predicate ReplicaSound(sys: System, r: Replica) {
    && StoreSound(sys, r.tree.stored)
    && LocksSound(sys, r.tree, r.currentView)
    && VotesBind(sys, r.votes, r.tree.lockedQC.view)
    && ShowsUpTo(r.tree.stored, r.tree.highQC.view)
    && OwnVotesBind(sys, r.votes, r.tree.stored, r.currentView)
  }

  lemma StoreStaysSound(sys: System, stored: map<Hash, Block>, b: Block)
    requires StoreSound(sys, stored) && b.view >= 1 && BuiltOnCertified(b) && HoldsParent(stored, b)
    requires GenuineBlock(sys, b)
    ensures StoreSound(sys, stored[b.hash := b])
  {
    hide Genuine, BuiltOnCertified;
    var stored' := stored[b.hash := b];
    forall h | h in stored' ensures HoldsParent(stored', stored'[h]) {
      if h != b.hash {
        assert HoldsParent(stored, stored[h]);
      }
    }
  }

  /** In a sound store the lock ends at least where the block shows, and behind the block. */
  lemma LockStaysSound(sys: System, t: TreeState, b: Block)
    requires StoreSound(sys, t.stored) && b.view >= 1 && BuiltOnCertified(b) && HoldsParent(t.stored, b)
    requires GenuineBlock(sys, b) && Genuine(sys, t.lockedQC)
    ensures var t' := Process(t, b);
            && Genuine(sys, t'.lockedQC)
            && t'.lockedQC.view >= t.lockedQC.view
            && t'.lockedQC.view >= LockedBy(sys, b)
            && (t'.lockedQC == t.lockedQC
                || (b.justify.Some? && t'.lockedQC.view < b.justify.value.view))
  {
    hide Process, HasQuorum, Store;
    ProcessLocks(t, b);
    StoreStaysSound(sys, t.stored, b);
    var stored' := t.stored[b.hash := b];
    if b.justify.Some? && b.justify.value.blockHash.Some? {
      var h := b.justify.value.blockHash.value;
      assert h in stored' && stored'[h] == sys.block(h);
      var generic := stored'[h];
      assert generic.view == b.justify.value.view && HoldsParent(stored', generic);
      if generic.justify.Some? && generic.justify.value.blockHash.Some? {
        var h' := generic.justify.value.blockHash.value;
        assert h' in stored' && stored'[h'] == sys.block(h');
        assert stored'[h'].view == generic.justify.value.view < generic.view;
      }
    }
  }

  /** Processing a sound block, as a replica does in its current view or for a view next to it. */
  lemma ProcessKeepsLocks(sys: System, t: TreeState, b: Block, currentView: nat, currentView': nat)
    requires StoreSound(sys, t.stored) && b.view >= 1 && BuiltOnCertified(b) && HoldsParent(t.stored, b)
    requires GenuineBlock(sys, b) && LocksSound(sys, t, currentView)
    requires currentView <= currentView' && b.view <= currentView'
    ensures StoreSound(sys, Process(t, b).stored) && LocksSound(sys, Process(t, b), currentView')
  {
    hide Process, StoreSound, HasQuorum, HoldsParent, LockedBy;
    ProcessLocks(t, b);
    StoreStaysSound(sys, t.stored, b);
    LockStaysSound(sys, t, b);
  }

  lemma CastKeepsBinding(sys: System, votes: seq<Vote>, v: Vote, lock: nat, lock': nat)
    requires VotesBind(sys, votes, lock) && VoteSound(sys, v)
    requires v.lock.view == lock <= lock' && LockedBy(sys, v.block) <= lock'
    ensures VotesBind(sys, votes + [v], lock')
  {
    hide VoteSound, LockedBy;
  }

  lemma LocksBound(sys: System, votes: seq<Vote>, lock: nat)
    requires VotesBind(sys, votes, lock)
    ensures forall i | 0 <= i < |votes| :: LockedBy(sys, votes[i].block) <= lock
  {
    hide VoteSound, LockedBy;
  }

  lemma LaterLockBinds(sys: System, votes: seq<Vote>, lock: nat, lock': nat)
    requires VotesBind(sys, votes, lock) && lock <= lock'
    ensures VotesBind(sys, votes, lock')
  {
    hide VoteSound, LockedBy;
  }

  /** The highest certificate is at least as high as any on show. */
  lemma ProcessShows(sys: System, t: TreeState, b: Block)
    requires ShowsUpTo(t.stored, t.highQC.view) && Genuine(sys, t.highQC) && GenuineBlock(sys, b)
    ensures ShowsUpTo(Process(t, b).stored, Process(t, b).highQC.view)
  {
    hide Process, HasQuorum;
    ProcessLocks(t, b);
  }

  /** A block that is taken is not far below the view, so that it lies above all that own proposals cover. */
  lemma TakingKeepsOwnBound(sys: System, votes: seq<Vote>, stored: map<Hash, Block>, b: Block, currentView: nat,
                            currentView': nat)
    requires OwnVotesBind(sys, votes, stored, currentView)
    requires currentView <= b.view + 1 && currentView <= currentView'
    ensures OwnVotesBind(sys, votes, stored[b.hash := b], currentView')
  {
    hide LockedBy;
  }

  lemma CastKeepsOwnBound(sys: System, votes: seq<Vote>, v: Vote, stored: map<Hash, Block>, currentView: nat)
    requires OwnVotesBind(sys, votes, stored, currentView)
    requires v.own ==> v.block.view <= currentView && CoversBelow(stored, v)
    requires v.own ==> forall i | 0 <= i < |votes| :: LockedBy(sys, votes[i].block) <= v.block.justify.value.view
    requires forall j | 0 <= j < |votes| && votes[j].own && v.block.view < votes[j].block.view ::
               LockedBy(sys, v.block) <= votes[j].block.justify.value.view
    ensures OwnVotesBind(sys, votes + [v], stored, currentView)
  {
    hide LockedBy, CoversBelow;
  }

  /** A received block shows no more than the own proposals above it. */
  lemma CoveredByOwn(sys: System, votes: seq<Vote>, stored: map<Hash, Block>, b: Block, currentView: nat, j: nat)
    requires StoreSound(sys, stored) && OwnVotesBind(sys, votes, stored, currentView)
    requires BuiltOnCertified(b) && HoldsParent(stored, b) && GenuineBlock(sys, b)
    requires j < |votes| && votes[j].own && b.view < votes[j].block.view
    ensures LockedBy(sys, b) <= votes[j].block.justify.value.view
  {
    hide HasQuorum;
    assert CoversBelow(stored, votes[j]);
    if b.justify.Some? && b.justify.value.blockHash.Some? {
      var h := b.justify.value.blockHash.value;
      assert h in stored && stored[h] == sys.block(h);
    }
  }

  lemma HandleKeepsSound(sys: System, r: Replica, b: Block, selected: bool)
    requires ReplicaSound(sys, r) && GenuineBlock(sys, b) && HoldsParent(r.tree.stored, b)
    ensures ReplicaSound(sys, Handle(sys.setup, r, b, selected))
  {
    hide Process, Remembered, HasQuorum, Extends, Descends, LockedBy, VotesBind, HoldsParent;
    if Accepts(sys.setup, r, b) {
      var t' := Process(r.tree, b);
      assert BuiltOnCertified(b);
      ProcessKeepsLocks(sys, r.tree, b, r.currentView, AfterView(r.currentView, b.view));
      LockStaysSound(sys, r.tree, b);
      if r.tree.lockedQC.blockHash.Some? && Extends(r.tree.stored, b, r.tree.lockedQC.blockHash.value) {
        ExtendsIsDescent(sys, r.tree.stored, b, r.tree.lockedQC.blockHash.value);
      }
      var v := Vote(b, r.tree.lockedQC, false);
      assert VoteSound(sys, v);
      ProcessShows(sys, r.tree, b);
      ProcessLocks(r.tree, b);
      forall j: nat | j < |r.votes| && r.votes[j].own && b.view < r.votes[j].block.view
        ensures LockedBy(sys, b) <= r.votes[j].block.justify.value.view
      {
        CoveredByOwn(sys, r.votes, r.tree.stored, b, r.currentView, j);
      }
      TakingKeepsOwnBound(sys, r.votes, r.tree.stored, b, r.currentView, AfterView(r.currentView, b.view));
      hide VoteSound, StoreSound, LocksSound, SafeToVote, MeetsConstraint, IsNew, GenuineBlock, OwnVotesBind, ShowsUpTo;
      OwnIsBuilt(sys, r.votes, t'.stored, AfterView(r.currentView, b.view));
      CastKeepsOwnBound(sys, r.votes, v, t'.stored, AfterView(r.currentView, b.view));
      CastKeepsBinding(sys, r.votes, v, r.tree.lockedQC.view, t'.lockedQC.view);
      LaterLockBinds(sys, r.votes, r.tree.lockedQC.view, t'.lockedQC.view);
    }
  }

  lemma OwnIsBuilt(sys: System, votes: seq<Vote>, stored: map<Hash, Block>, currentView: nat)
    requires OwnVotesBind(sys, votes, stored, currentView)
    ensures forall j | 0 <= j < |votes| && votes[j].own ::
              votes[j].block.justify.Some? && votes[j].block.view <= currentView
  {
    hide LockedBy;
  }

  /** When a leader proposes, its block is built on the highest certificate, so nothing stored shows more. */
  lemma ProposalCovers(r: Replica, hash: Hash, nodeId: nat)
    requires ShowsUpTo(r.tree.stored, r.tree.highQC.view)
    ensures var b := Built(r, hash, nodeId);
            CoversBelow(r.tree.stored[hash := b], Vote(b, r.tree.lockedQC, true))
  {
  }

  lemma ProposeKeepsSound(sys: System, id: nat, r: Replica, hash: Hash, nodeId: nat, selected: bool)
    requires sys.parentsHeld && ReplicaSound(sys, r) && EventSound(sys, id, r, OwnProposal(hash, nodeId, selected))
    ensures ReplicaSound(sys, Propose(r, hash, nodeId, selected))
  {
    hide Process, Remembered, HasQuorum, Descends, LockedBy, VotesBind, HoldsParent;
    if r.currentView > r.lastProposedView {
      var b := Built(r, hash, nodeId);
      var t' := Process(r.tree, b);
      assert BuiltOnCertified(b) && b.view >= 1;
      ProcessKeepsLocks(sys, r.tree, b, r.currentView, r.currentView);
      LockStaysSound(sys, r.tree, b);
      var v := Vote(b, r.tree.lockedQC, true);
      assert VoteSound(sys, v);
      ProcessShows(sys, r.tree, b);
      ProcessLocks(r.tree, b);
      ProposalCovers(r, hash, nodeId);
      LocksBound(sys, r.votes, r.tree.lockedQC.view);
      TakingKeepsOwnBound(sys, r.votes, r.tree.stored, b, r.currentView, r.currentView);
      OwnIsBuilt(sys, r.votes, t'.stored, r.currentView);
      hide VoteSound, StoreSound, LocksSound, GenuineBlock, OwnVotesBind, ShowsUpTo;
      CastKeepsOwnBound(sys, r.votes, v, t'.stored, r.currentView);
      hide Built;
      CastKeepsBinding(sys, r.votes, v, r.tree.lockedQC.view, t'.lockedQC.view);
      LaterLockBinds(sys, r.votes, r.tree.lockedQC.view, t'.lockedQC.view);
    }
  }

  lemma StepKeepsSound(sys: System, id: nat, r: Replica, e: Event)
    requires sys.parentsHeld && ReplicaSound(sys, r) && EventSound(sys, id, r, e)
    ensures ReplicaSound(sys, Step(sys.setup, r, e))
  {
    match e
    case Proposal(b, admitted, selected) =>
      if admitted {
        hide ReplicaSound, Handle, GenuineBlock, HoldsParent;
        HandleKeepsSound(sys, r, b, selected);
      }
    case OwnProposal(hash, nodeId, selected) =>
      hide ReplicaSound, Propose, EventSound;
      ProposeKeepsSound(sys, id, r, hash, nodeId, selected);
    case SeenCertificate(qc) =>
      hide StoreSound, VotesBind, HasQuorum;
    case LeftView(view) =>
      hide StoreSound, VotesBind, HasQuorum;
  }

  lemma PrefixSound(sys: System, id: nat, events: seq<Event>, n: nat)
    requires HistorySound(sys, id, events) && n <= |events|
    ensures HistorySound(sys, id, events[..n])
  {
    hide EventSound, Run;
    forall k | 0 <= k < n ensures EventSound(sys, id, Run(sys.setup, events[..n][..k]), events[..n][k]) {
      assert events[..n][..k] == events[..k];
    }
  }

  lemma {:induction false} RunIsSound(sys: System, id: nat, events: seq<Event>)
    requires sys.parentsHeld && HistorySound(sys, id, events)
    ensures ReplicaSound(sys, Run(sys.setup, events))
  {
    if events == [] {
      assert Genuine(sys, GenesisQC(sys.setup.epoch));
    } else {
      hide ReplicaSound, Step, EventSound;
      var n := |events| - 1;
      PrefixSound(sys, id, events, n);
      RunIsSound(sys, id, events[..n]);
      StepKeepsSound(sys, id, Run(sys.setup, events[..n]), events[n]);
    }
  }

  /** Every vote of an honest replica is sound, and binds its later votes. */
  lemma HonestVotes(sys: System, r: nat)
    requires Complete(sys) && r < |sys.histories| && r !in sys.faulty
    ensures var votes := VotesOf(sys, r);
            && (forall i | 0 <= i < |votes| :: VoteSound(sys, votes[i]))
            && (forall i, j | 0 <= i < |votes| && 0 <= j < |votes| && votes[i].block.view < votes[j].block.view ::
                  BoundBy(votes[j], LockedBy(sys, votes[i].block)))
  {
    hide Run, StoreSound, LocksSound, VoteSound, LockedBy, EventSound, CoversBelow, ShowsUpTo, RemembersVote;
    RunIsSound(sys, r, sys.histories[r]);
    RunKeepsOrder(sys.setup, sys.histories[r]);
    var end, votes := Run(sys.setup, sys.histories[r]), VotesOf(sys, r);
    forall i: nat, j: nat | i < |votes| && j < |votes| && votes[i].block.view < votes[j].block.view
      ensures BoundBy(votes[j], LockedBy(sys, votes[i].block))
    {
      if j < i {
        assert FallsBehindOwn(votes, j, i);
        OwnIsBuilt(sys, votes, end.tree.stored, end.currentView);
      }
    }
  }

  /** The vote was cast under a lock of this view at least, or for a block built on such a certificate. */
  predicate BoundBy(v: Vote, view: nat) {
    v.lock.view >= view || (v.block.justify.Some? && v.block.justify.value.view >= view)
  }

  // ---- certified blocks ----

  /** One vote of an honest replica for a certified block. */
  lemma CertifiedIsSound(sys: System, h: Hash) returns (v: Vote)
    requires Complete(sys) && HasQuorum(sys, h)
    ensures VoteSound(sys, v) && v.block == sys.block(h)
  {
    var r := QuorumsMeet(sys, h, h);
    HonestVotes(sys, r);
    hide Run, VoteSound, HasQuorum, LockedBy, HistorySound;
    var votes := VotesOf(sys, r);
    var k :| 0 <= k < |votes| && votes[k].block.hash == h;
    v := votes[k];
    SoundVoteBlock(sys, v);
  }

  lemma SoundVoteBlock(sys: System, v: Vote)
    requires VoteSound(sys, v)
    ensures v.block == sys.block(v.block.hash)
  {
  }

  /** Whose block an honest replica has voted for: its own, or that of the view's leader. */
  ghost predicate VoteNamed(sys: System, r: nat, v: Vote) {
    && r < |sys.histories| && v.block == sys.block(v.block.hash)
    && (if v.own then v.block.leaderId == r && exists k: nat :: MakesAt(sys.setup, sys.histories[r], k, v.block)
        else v.block.leaderId == sys.setup.leader(v.block.view)
             && (v.block.leaderId !in sys.faulty ==> Authored(sys, v.block)))
  }

  lemma OriginIsNamed(sys: System, r: nat, v: Vote)
    requires r < |sys.histories| && HistorySound(sys, r, sys.histories[r])
    requires HasOrigin(sys.setup, sys.histories[r], v)
    ensures VoteNamed(sys, r, v)
  {
    hide Run, Authored, Genuine, HoldsParent;
    if v.own {
      var k: nat :| MakesAt(sys.setup, sys.histories[r], k, v.block);
      var e := sys.histories[r][k];
      assert EventSound(sys, r, Run(sys.setup, sys.histories[r][..k]), e);
      BuiltHash(Run(sys.setup, sys.histories[r][..k]), e.hash, e.nodeId);
    } else {
      var k: nat :| k < |sys.histories[r]| && sys.histories[r][k] == Proposal(v.block, true, true);
      assert EventSound(sys, r, Run(sys.setup, sys.histories[r][..k]), sys.histories[r][k]);
    }
  }

  lemma HonestVotesNamed(sys: System, r: nat)
    requires Possible(sys) && r < |sys.histories| && r !in sys.faulty
    ensures var votes := VotesOf(sys, r);
            && (forall i | 0 <= i < |votes| :: VoteNamed(sys, r, votes[i]))
            && (forall i, j | 0 <= i < j < |votes| && !votes[j].own :: votes[i].block.hash != votes[j].block.hash)
  {
    hide Run, HasOrigin, VoteNamed, HistorySound;
    VotesAreKnown(sys.setup, sys.histories[r]);
    var votes := VotesOf(sys, r);
    forall i | 0 <= i < |votes| ensures VoteNamed(sys, r, votes[i]) {
      OriginIsNamed(sys, r, votes[i]);
    }
  }

  /**
   An honest replica votes at most once in each view for blocks of the view's leader: it takes one
   received proposal, and none if it leads, for its own is stored by then.
   */
  lemma OneVoteForLeader(sys: System, r: nat, i: nat, j: nat)
    requires Possible(sys) && r < |sys.histories| && r !in sys.faulty
    requires i < j < |VotesOf(sys, r)|
    requires VotesOf(sys, r)[i].block.view == VotesOf(sys, r)[j].block.view
    ensures VotesOf(sys, r)[i].own && VotesOf(sys, r)[i].block.leaderId == r
    ensures sys.setup.leader(VotesOf(sys, r)[i].block.view) != r
  {
    hide Run, RemembersVote, HistorySound;
    HonestVotesNamed(sys, r);
    RunKeepsOrder(sys.setup, sys.histories[r]);
    var votes := VotesOf(sys, r);
    var own, other := votes[i], votes[j];
    assert FallsBehindOwn(votes, i, j);
    assert VoteNamed(sys, r, own) && VoteNamed(sys, r, other);
    if sys.setup.leader(own.block.view) == r {
      var k: nat :| MakesAt(sys.setup, sys.histories[r], k, own.block);
      var k': nat :| MakesAt(sys.setup, sys.histories[r], k', other.block);
      if k < k' {
        MakesOncePerView(sys.setup, sys.histories[r], k, own.block, k', other.block);
      } else if k' < k {
        MakesOncePerView(sys.setup, sys.histories[r], k', other.block, k, own.block);
      }
      assert false;
    }
  }

  /** So it votes once per view as long as it proposes only in views that it leads. */
  lemma LeadersVoteOnce(sys: System, r: nat)
    requires Possible(sys) && r < |sys.histories| && r !in sys.faulty
    requires forall i | 0 <= i < |VotesOf(sys, r)| && VotesOf(sys, r)[i].own ::
               sys.setup.leader(VotesOf(sys, r)[i].block.view) == r
    ensures OncePerView(VotesOf(sys, r))
  {
    hide Possible, Run;
    forall i: nat, j: nat | i < j < |VotesOf(sys, r)|
      ensures VotesOf(sys, r)[i].block.view != VotesOf(sys, r)[j].block.view
    {
      if VotesOf(sys, r)[i].block.view == VotesOf(sys, r)[j].block.view {
        OneVoteForLeader(sys, r, i, j);
      }
    }
  }

  lemma WithoutFaulty(quorum: set<nat>, faulty: set<nat>)
    ensures |quorum - faulty| >= |quorum| - |faulty|
  {
    SubsetSize(quorum * faulty, faulty);
    assert quorum == (quorum - faulty) + quorum * faulty;
  }

  lemma TwoOf(s: set<nat>) returns (r: nat, r': nat)
    requires |s| >= 1
    ensures r in s && r' in s && (r != r' || |s| == 1)
  {
    r :| r in s;
    r' := r;
    if |s| >= 2 {
      assert |s - {r}| >= 1;
      r' :| r' in s - {r};
    }
  }

  lemma ManyHonest(sys: System, h: Hash) returns (r: nat, r': nat)
    requires FewFaulty(sys) && HasQuorum(sys, h)
    ensures r !in sys.faulty && Voted(sys, r, h) && r' !in sys.faulty && Voted(sys, r', h)
    ensures r != r' || |sys.histories| == 1
  {
    hide Voted;
    var q: set<nat> :| IsQuorumFor(sys, q, h);
    WithoutFaulty(q, sys.faulty);
    r, r' := TwoOf(q - sys.faulty);
  }

  /** A certified block comes from the leader of its view: nobody else's gets a second honest vote. */
  lemma CertifiedByLeader(sys: System, h: Hash)
    requires Possible(sys) && HasQuorum(sys, h)
    ensures sys.block(h).leaderId == sys.setup.leader(sys.block(h).view)
  {
    var r, r' := ManyHonest(sys, h);
    HonestVotesNamed(sys, r);
    HonestVotesNamed(sys, r');
    hide Run, HasQuorum, HistorySound;
    var votes, votes' := VotesOf(sys, r), VotesOf(sys, r');
    var i: nat :| i < |votes| && votes[i].block.hash == h;
    var i': nat :| i' < |votes'| && votes'[i'].block.hash == h;
    assert VoteNamed(sys, r, votes[i]) && VoteNamed(sys, r', votes'[i']);
    assert sys.setup.leader(sys.block(h).view) < |sys.histories|;
  }

  /** In one view at most one block gets a quorum. */
  lemma OneBlockPerView(sys: System, h: Hash, h': Hash)
    requires Possible(sys) && HasQuorum(sys, h) && HasQuorum(sys, h')
    requires sys.block(h).view == sys.block(h').view
    ensures h == h'
  {
    hide Run, HasQuorum, HistorySound, Authored, MakesAt;
    var r := QuorumsMeet(sys, h, h');
    CertifiedByLeader(sys, h);
    CertifiedByLeader(sys, h');
    HonestVotesNamed(sys, r);
    var votes := VotesOf(sys, r);
    var i: nat :| i < |votes| && votes[i].block.hash == h;
    var j: nat :| j < |votes| && votes[j].block.hash == h';
    assert VoteNamed(sys, r, votes[i]) && VoteNamed(sys, r, votes[j]);
    if i < j {
      OneVoteForLeader(sys, r, i, j);
    } else if j < i {
      OneVoteForLeader(sys, r, j, i);
    }
  }

  /** Three certified blocks, each built on the one before by its certificate. */
  ghost predicate ThreeChain(sys: System, start: Hash, middle: Hash, end: Hash) {
    && HasQuorum(sys, start) && HasQuorum(sys, middle) && HasQuorum(sys, end)
    && BuiltOn(sys, middle, start) && BuiltOn(sys, end, middle)
  }

  predicate BuiltOn(sys: System, h: Hash, below: Hash) {
    && sys.block(h).justify.Some?
    && sys.block(h).justify.value.blockHash == Some(below)
    && sys.block(h).justify.value.view == sys.block(below).view
  }

  /** The three views follow each other without a gap. */
  predicate Consecutive(sys: System, start: Hash, middle: Hash, end: Hash) {
    sys.block(middle).view == sys.block(start).view + 1 && sys.block(end).view == sys.block(start).view + 2
  }

  /** Some honest replica voted for the end of the chain and later for h, or h is in the chain's views. */
  lemma VotedAbove(sys: System, end: Hash, h: Hash) returns (v: Vote)
    requires Complete(sys) && HasQuorum(sys, end) && HasQuorum(sys, h)
    requires sys.block(end).view < sys.block(h).view
    ensures VoteSound(sys, v) && v.block == sys.block(h) && v.block.hash == h
    ensures BoundBy(v, LockedBy(sys, sys.block(end)))
  {
    var r := QuorumsMeet(sys, end, h);
    HonestVotes(sys, r);
    hide Run, VoteSound, HasQuorum, LockedBy, HistorySound;
    var votes := VotesOf(sys, r);
    var i :| 0 <= i < |votes| && votes[i].block.hash == end;
    var j :| 0 <= j < |votes| && votes[j].block.hash == h;
    SoundVoteBlock(sys, votes[i]);
    SoundVoteBlock(sys, votes[j]);
    v := votes[j];
  }

  lemma CertifiedParent(sys: System, h: Hash, below: Hash)
    requires Complete(sys) && HasQuorum(sys, h) && BuiltOn(sys, h, below)
    ensures Descends(sys, h, below) && sys.block(below).view < sys.block(h).view
  {
    var v := CertifiedIsSound(sys, h);
    ParentAbove(sys, h, below);
  }

  /**
   Finality: once three blocks in consecutive views are certified, each built on the one before, every
   certified block from the first one's view on descends from the first.
   */
  lemma {:induction false} CertifiedDescends(sys: System, start: Hash, middle: Hash, end: Hash, h: Hash)
    requires Complete(sys) && ThreeChain(sys, start, middle, end) && Consecutive(sys, start, middle, end)
    requires HasQuorum(sys, h) && sys.block(h).view >= sys.block(start).view
    ensures Descends(sys, h, start)
    decreases sys.block(h).view
  {
    hide Possible, HasQuorum, Descends;
    var view := sys.block(start).view;
    CertifiedParent(sys, middle, start);
    CertifiedParent(sys, end, middle);
    DescendsTransitively(sys, end, middle, start);
    Itself(sys, start);
    if sys.block(h).view == view {
      OneBlockPerView(sys, h, start);
    } else if sys.block(h).view == view + 1 {
      OneBlockPerView(sys, h, middle);
    } else if sys.block(h).view == view + 2 {
      OneBlockPerView(sys, h, end);
    } else {
      var v := VotedAbove(sys, end, h);
      StartIsSeen(sys, start);
      if v.block.justify.Some? && v.block.justify.value.view >= view {
        var parent := v.block.justify.value.blockHash.value;
        ParentAbove(sys, h, parent);
        CertifiedDescends(sys, start, middle, end, parent);
        DescendsTransitively(sys, h, parent, start);
      } else {
        assert v.lock.view >= view >= 1 && v.lock.blockHash.Some?;
        var locked := v.lock.blockHash.value;
        CertifiedDescends(sys, start, middle, end, locked);
        DescendsTransitively(sys, h, locked, start);
      }
    }
  }

  lemma StartIsSeen(sys: System, h: Hash)
    requires Complete(sys) && HasQuorum(sys, h)
    ensures sys.block(h).view >= 1
  {
    var v := CertifiedIsSound(sys, h);
  }

  // ---- commits ----

  lemma StoredIsGenuine(sys: System, stored: map<Hash, Block>, qc: Option<QuorumCertificate>)
    requires StoreSound(sys, stored) && Certified(stored, qc).Some? && Genuine(sys, qc.value)
    ensures var b := Certified(stored, qc).value;
            && b == sys.block(b.hash) && qc.value.blockHash == Some(b.hash) && qc.value.view == b.view
            && HasQuorum(sys, b.hash) && (b.justify.Some? ==> Genuine(sys, b.justify.value))
  {
    hide HasQuorum;
  }

  predicate IsChain(sys: System, c: Chain) {
    c.start == sys.block(c.start.hash) && c.middle == sys.block(c.middle.hash) && c.end == sys.block(c.end.hash)
  }

  /** What processing a sound block commits by the rule of three is at the start of three certified blocks. */
  lemma CommittedChain(sys: System, t: TreeState, b: Block)
    requires StoreSound(sys, t.stored) && b.view >= 1 && BuiltOnCertified(b) && HoldsParent(t.stored, b)
    requires GenuineBlock(sys, b) && ChainCommitted(t, b).Some?
    ensures var c := ChainCommitted(t, b).value;
            IsChain(sys, c) && ThreeChain(sys, c.start.hash, c.middle.hash, c.end.hash)
  {
    hide StoreSound, HasQuorum, BuiltOnCertified, HoldsParent, FastCommit;
    StoreStaysSound(sys, t.stored, b);
    var stored, c := t.stored[b.hash := b], ChainCommitted(t, b).value;
    StoredIsGenuine(sys, stored, b.justify);
    StoredIsGenuine(sys, stored, c.end.justify);
    StoredIsGenuine(sys, stored, c.middle.justify);
  }

  /** Event k makes a replica process a block that completes this chain, and so commit its start. */
  ghost predicate CommitsInRun(setup: Setup, events: seq<Event>, k: nat, c: Chain) {
    && k < |events|
    && var before := Run(setup, events[..k]);
       var b := Taken(setup, before, events[k]);
       b.Some? && ChainCommitted(before.tree, b.value) == Some(c)
  }

  /** Replica r does so at event k of its history. */
  ghost predicate CommitsAt(sys: System, r: nat, k: nat, c: Chain) {
    r < |sys.histories| && CommitsInRun(sys.setup, sys.histories[r], k, c)
  }

  lemma TakenIsSound(sys: System, id: nat, r: Replica, e: Event)
    requires sys.parentsHeld && ReplicaSound(sys, r) && EventSound(sys, id, r, e) && Taken(sys.setup, r, e).Some?
    ensures var b := Taken(sys.setup, r, e).value;
            && b.view >= 1 && BuiltOnCertified(b) && HoldsParent(r.tree.stored, b) && GenuineBlock(sys, b)
            && StoreSound(sys, r.tree.stored)
  {
    hide StoreSound, VotesBind, SafeToVote, HasQuorum, Authored, OwnVotesBind, ShowsUpTo;
  }

  lemma CommitIsChain(sys: System, r: nat, k: nat, c: Chain)
    requires Complete(sys) && r !in sys.faulty && CommitsAt(sys, r, k, c)
    ensures IsChain(sys, c) && ThreeChain(sys, c.start.hash, c.middle.hash, c.end.hash)
  {
    hide Run, ReplicaSound, EventSound, Taken, ChainCommitted, StoreSound;
    var events := sys.histories[r];
    PrefixSound(sys, r, events, k);
    RunIsSound(sys, r, events[..k]);
    assert EventSound(sys, r, Run(sys.setup, events[..k]), events[k]);
    TakenIsSound(sys, r, Run(sys.setup, events[..k]), events[k]);
    CommittedChain(sys, Run(sys.setup, events[..k]).tree,
                   Taken(sys.setup, Run(sys.setup, events[..k]), events[k]).value);
  }

  /** What an honest replica commits over a chain without a gap is final. */
  lemma CommitIsFinal(sys: System, r: nat, k: nat, c: Chain, h: Hash)
    requires Complete(sys) && r !in sys.faulty && CommitsAt(sys, r, k, c) && WithoutGap(c)
    requires HasQuorum(sys, h) && sys.block(h).view >= c.start.view
    ensures Descends(sys, h, c.start.hash)
  {
    hide Complete, HasQuorum, Descends, CommitsAt;
    CommitIsChain(sys, r, k, c);
    CertifiedDescends(sys, c.start.hash, c.middle.hash, c.end.hash, h);
  }

  /** Blocks that honest replicas commit over chains without a gap lie on one branch. */
  lemma CommitsAgree(sys: System, r: nat, k: nat, c: Chain, r': nat, k': nat, c': Chain)
    requires Complete(sys) && r !in sys.faulty && r' !in sys.faulty
    requires CommitsAt(sys, r, k, c) && WithoutGap(c) && CommitsAt(sys, r', k', c') && WithoutGap(c')
    ensures Descends(sys, c.start.hash, c'.start.hash) || Descends(sys, c'.start.hash, c.start.hash)
  {
    hide Complete, HasQuorum, Descends, CommitsAt;
    CommitIsChain(sys, r, k, c);
    CommitIsChain(sys, r', k', c');
    if c.start.view <= c'.start.view {
      CommitIsFinal(sys, r, k, c, c'.start.hash);
    } else {
      CommitIsFinal(sys, r', k', c', c.start.hash);
    }
  }

  ghost function CommittedBy(sys: System, r: nat): seq<Block>
    requires r < |sys.histories|
  {
    Run(sys.setup, sys.histories[r]).tree.committed
  }

  lemma StepCommits(setup: Setup, r: Replica, e: Event)
    ensures var r', b := Step(setup, r, e), Taken(setup, r, e);
            r'.tree.committed == if b.Some? then Process(r.tree, b.value).committed else r.tree.committed
    ensures Step(setup, r, e).tree.fastPathThreshold == r.tree.fastPathThreshold
  {
    hide Process, Remembered, SafeToVote, Built;
    match e
    case Proposal(b, admitted, selected) => ProcessCommits(r.tree, b);
    case OwnProposal(hash, nodeId, selected) => ProcessCommits(r.tree, Built(r, hash, nodeId));
    case SeenCertificate(qc) =>
    case LeftView(view) =>
  }

  /** Without the fast path every committed block was committed over some chain, at some event. */
  lemma {:induction false} CommittedOverChain(setup: Setup, events: seq<Event>, i: nat)
    requires setup.fastPathThreshold == 0 && i < |Run(setup, events).tree.committed|
    ensures exists k: nat, c: Chain ::
              CommitsInRun(setup, events, k, c) && c.start == Run(setup, events).tree.committed[i]
  {
    hide Step, Taken, Process, ChainCommitted;
    if events != [] {
      var n := |events| - 1;
      var before := events[..n];
      var r, r', b := Run(setup, before), Run(setup, events), Taken(setup, Run(setup, before), events[n]);
      FastPathStaysOff(setup, before);
      StepCommits(setup, r, events[n]);
      if b.Some? {
        ProcessCommits(r.tree, b.value);
      }
      if i < |r.tree.committed| {
        CommittedOverChain(setup, before, i);
        var k: nat, c: Chain :| CommitsInRun(setup, before, k, c) && c.start == r.tree.committed[i];
        assert before[..k] == events[..k];
        assert CommitsInRun(setup, events, k, c);
      } else {
        var c := ChainCommitted(r.tree, b.value).value;
        assert CommitsInRun(setup, events, n, c);
      }
    }
  }

  lemma {:induction false} FastPathStaysOff(setup: Setup, events: seq<Event>)
    requires setup.fastPathThreshold == 0
    ensures Run(setup, events).tree.fastPathThreshold == 0
  {
    hide Step;
    if events != [] {
      FastPathStaysOff(setup, events[..|events| - 1]);
      StepCommits(setup, Run(setup, events[..|events| - 1]), events[|events| - 1]);
    }
  }
}
