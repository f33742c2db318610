/**
 The block tree of one consensus instance (src/evolvbft/consensus/hotstuff/blocktree.go): which block
 a replica is locked on, which blocks it commits, and which proposals it may vote for.

 Its object is the class BlockTree.  The operations that change it are given as functions on its
 state; the safety test is proved to decide ancestry in the stored blocks, cycles included.
 */
module BlockTrees {
  import opened Wrappers

  type Hash = nat

  /** A certificate without a block hash is the genesis certificate. */
  datatype QuorumCertificate = QuorumCertificate(blockHash: Option<Hash>, view: nat, epoch: nat, numSignatures: nat)

  datatype Block = Block(
    hash: Hash, parent: Option<Hash>, view: nat, leaderId: nat, height: nat, justify: Option<QuorumCertificate>)

  /** `confirmed` and `committed` are the blocks handed to the two callbacks, in order. */
  datatype TreeState = TreeState(
    stored: map<Hash, Block>,
    highQC: QuorumCertificate,
    genericQC: QuorumCertificate,
    lockedQC: QuorumCertificate,
    commitQC: QuorumCertificate,
    fastPathThreshold: nat,
    confirmed: seq<Block>,
    committed: seq<Block>)

  // ---- the operations ----

  function GenesisQC(epoch: nat): QuorumCertificate {
    QuorumCertificate(None, 0, epoch, 0)
  }

  function NewTree(epoch: nat, fastPathThreshold: nat): TreeState {
    var qc := GenesisQC(epoch);
    TreeState(map[], qc, qc, qc, qc, fastPathThreshold, [], [])
  }

  /** Certificates are ordered by epoch, then by view. */
  predicate IsNewer(candidate: QuorumCertificate, current: QuorumCertificate) {
    candidate.epoch > current.epoch || (candidate.epoch == current.epoch && candidate.view > current.view)
  }

  /** The stored block a certificate is for. */
  function Certified(stored: map<Hash, Block>, qc: Option<QuorumCertificate>): Option<Block> {
    if qc.None? || qc.value.blockHash.None? || qc.value.blockHash.value !in stored then None
    else Some(stored[qc.value.blockHash.value])
  }

  function Store(t: TreeState, b: Block): TreeState {
    t.(stored := t.stored[b.hash := b],
       highQC := if b.justify.Some? && IsNewer(b.justify.value, t.highQC) then b.justify.value else t.highQC)
  }

  /** `generic` has a certificate and is built on `locked`: the certificate of `locked` may become the lock. */
  function MoveLock(t: TreeState, generic: Block, locked: Block): TreeState
    requires generic.justify.Some?
  {
    var candidate := generic.justify.value;
    if candidate.view >= locked.view && generic.view > locked.view && candidate.view > t.lockedQC.view
    then t.(lockedQC := candidate) else t
  }

  /** With enough signatures under the block built on it, `locked` is committed at once. */
  function FastCommit(t: TreeState, signatures: nat, generic: Block, locked: Block): TreeState
    requires generic.justify.Some?
  {
    if t.fastPathThreshold > 0 && signatures >= t.fastPathThreshold && generic.justify.value.view > t.commitQC.view
    then t.(commitQC := generic.justify.value, committed := t.committed + [locked]) else t
  }

  /** A chain of three certificates commits the block at its start. */
  function ChainCommit(t: TreeState, locked: Block, start: Block): TreeState
    requires locked.justify.Some?
  {
    var candidate := locked.justify.value;
    if candidate.view >= start.view && locked.view > start.view && candidate.view > t.commitQC.view
    then t.(commitQC := candidate, committed := t.committed + [start]) else t
  }

  /** Follows the certificates down from a block that has one with so many signatures. */
  function FollowChain(t: TreeState, signatures: nat, generic: Block): TreeState {
    match Certified(t.stored, generic.justify)
    case None => t
    case Some(locked) =>
      var t := FastCommit(MoveLock(t, generic, locked), signatures, generic, locked);
      match Certified(t.stored, locked.justify)
      case None => t
      case Some(start) => ChainCommit(t, locked, start)
  }

  function Process(t: TreeState, b: Block): TreeState {
    var t := Store(t, b);
    match Certified(t.stored, b.justify)
    case None => t
    case Some(generic) =>
      FollowChain(t.(genericQC := b.justify.value, confirmed := t.confirmed + [generic]),
                  b.justify.value.numSignatures, generic)
  }

  /** A certificate formed from votes or received with a view change. */
  function SeeCertificate(t: TreeState, qc: QuorumCertificate): TreeState {
    t.(highQC := if IsNewer(qc, t.highQC) then qc else t.highQC,
       genericQC := if qc.epoch > t.genericQC.epoch || (qc.epoch == t.genericQC.epoch && qc.view >= t.genericQC.view)
                    then qc else t.genericQC)
  }

  // ---- ancestors ----

  /** Where a block points: to its parent, or else to the block its certificate is for. */
  function Above(b: Block): Option<Hash> {
    if b.parent.None? && b.justify.Some? then b.justify.value.blockHash else b.parent
  }

  /** k steps up from a hash; None once the path has left the stored blocks. */
  function Walk(stored: map<Hash, Block>, from: Option<Hash>, k: nat): Option<Hash> {
    if k == 0 then from
    else
      var h := Walk(stored, from, k - 1);
      if h.None? || h.value !in stored then None else Above(stored[h.value])
  }

  ghost predicate Reaches(stored: map<Hash, Block>, from: Option<Hash>, target: Hash) {
    exists k: nat :: Walk(stored, from, k) == Some(target)
  }

  /** The block is built on the target, as far as stored blocks show. */
  ghost predicate Extends(stored: map<Hash, Block>, b: Block, target: Hash) {
    (b.justify.Some? && b.justify.value.blockHash == Some(target)) || Reaches(stored, Above(b), target)
  }

  /** The voting rule: a certificate newer than the lock, or a block built on the locked one. */
  ghost predicate SafeToVote(t: TreeState, b: Block) {
    || (b.justify.Some? && b.justify.value.view > t.lockedQC.view)
    || t.lockedQC.blockHash.None?
    || Extends(t.stored, b, t.lockedQC.blockHash.value)
  }

  lemma {:induction false} WalkFrom(stored: map<Hash, Block>, from: Option<Hash>, i: nat, k: nat)
    ensures Walk(stored, from, i + k) == Walk(stored, Walk(stored, from, i), k)
  {
    if k > 0 {
      WalkFrom(stored, from, i, k - 1);
    }
  }

  lemma {:induction false} WalkEnds(stored: map<Hash, Block>, k: nat)
    ensures Walk(stored, None, k) == None
  {
    if k > 0 {
      WalkEnds(stored, k - 1);
    }
  }

  /** The block's parent, or without one the block that its certificate is for. */
  predicate PointsTo(b: Block, h: Hash) {
    b.parent == Some(h) || (b.parent.None? && b.justify.Some? && b.justify.value.blockHash == Some(h))
  }

  /** Stored blocks, each pointing to the next, up to the last one, which need not be stored. */
  predicate IsPath(stored: map<Hash, Block>, path: seq<Hash>) {
    path != [] && forall i | 0 <= i < |path| - 1 :: path[i] in stored && PointsTo(stored[path[i]], path[i + 1])
  }

  lemma {:induction false} PathIsWalk(stored: map<Hash, Block>, path: seq<Hash>, k: nat)
    requires IsPath(stored, path) && k < |path|
    ensures Walk(stored, Some(path[0]), k) == Some(path[k])
  {
    if k > 0 {
      PathIsWalk(stored, path, k - 1);
    }
  }

  lemma {:induction false} WalkHasPath(stored: map<Hash, Block>, from: Hash, target: Hash, k: nat)
    returns (path: seq<Hash>)
    requires Walk(stored, Some(from), k) == Some(target)
    ensures IsPath(stored, path) && path[0] == from && path[|path| - 1] == target
    decreases k
  {
    if k == 0 {
      path := [from];
    } else {
      var h := Walk(stored, Some(from), k - 1).value;
      path := WalkHasPath(stored, from, h, k - 1);
      path := path + [target];
    }
  }

  /** The walk upwards from a block meets a hash exactly if there is a path of stored blocks to it. */
  lemma ReachesByPath(stored: map<Hash, Block>, b: Block, target: Hash)
    ensures Reaches(stored, Above(b), target)
            <==> exists path :: IsPath(stored, path) && PointsTo(b, path[0]) && path[|path| - 1] == target
  {
    if Reaches(stored, Above(b), target) {
      var k: nat :| Walk(stored, Above(b), k) == Some(target);
      if Above(b).None? {
        WalkEnds(stored, k);
      } else {
        var path := WalkHasPath(stored, Above(b).value, target, k);
      }
    }
    if path :| IsPath(stored, path) && PointsTo(b, path[0]) && path[|path| - 1] == target {
      PathIsWalk(stored, path, |path| - 1);
    }
  }

  /** A path that comes back to where it was at step i only repeats steps i, ..., j - 1. */
  lemma {:induction false} CycleRepeats(stored: map<Hash, Block>, from: Option<Hash>, i: nat, j: nat, k: nat)
    requires i < j && Walk(stored, from, i) == Walk(stored, from, j)
    ensures exists m: nat :: m < j && Walk(stored, from, m) == Walk(stored, from, k)
    decreases k
  {
    if k >= j {
      var back := k - (j - i);
      WalkFrom(stored, from, i, k - j);
      WalkFrom(stored, from, j, k - j);
      CycleRepeats(stored, from, i, j, back);
    }
  }

  /** The path meets h in its first k places. */
  ghost predicate VisitedBefore(stored: map<Hash, Block>, from: Option<Hash>, k: nat, h: Hash) {
    exists i: nat :: i < k && Walk(stored, from, i) == Some(h)
  }

  lemma WalkStarts(stored: map<Hash, Block>, from: Option<Hash>)
    ensures Walk(stored, from, 0) == from
    ensures forall h :: !VisitedBefore(stored, from, 0, h)
  {
  }

  /** One step further on the path. */
  lemma WalkOn(stored: map<Hash, Block>, from: Option<Hash>, k: nat, h: Hash)
    requires Walk(stored, from, k).Some?
    ensures var here := Walk(stored, from, k).value;
            && Walk(stored, from, k + 1) == (if here in stored then Above(stored[here]) else None)
            && (VisitedBefore(stored, from, k + 1, h) <==> VisitedBefore(stored, from, k, h) || here == h)
  {
    if VisitedBefore(stored, from, k, h) {
      var i: nat :| i < k && Walk(stored, from, i) == Some(h);
      assert i < k + 1;
    }
  }

  lemma MetAt(stored: map<Hash, Block>, from: Option<Hash>, k: nat, target: Hash)
    requires Walk(stored, from, k) == Some(target)
    ensures Reaches(stored, from, target)
  {
  }

  /** A path that ends after k steps goes nowhere it has not been by then. */
  lemma EndedWalk(stored: map<Hash, Block>, from: Option<Hash>, k: nat, target: Hash)
    requires Walk(stored, from, k) == None && !VisitedBefore(stored, from, k, target)
    ensures !Reaches(stored, from, target)
  {
    forall m: nat ensures Walk(stored, from, m) != Some(target) {
      if m >= k {
        WalkFrom(stored, from, k, m - k);
        WalkEnds(stored, m - k);
      }
    }
  }

  /** A path that comes back to where it has been goes nowhere new. */
  lemma NeverLeavesCycle(stored: map<Hash, Block>, from: Option<Hash>, j: nat, target: Hash)
    requires Walk(stored, from, j).Some? && VisitedBefore(stored, from, j, Walk(stored, from, j).value)
    requires !VisitedBefore(stored, from, j, target)
    ensures !Reaches(stored, from, target)
  {
    var i: nat :| i < j && Walk(stored, from, i) == Walk(stored, from, j);
    forall k: nat ensures Walk(stored, from, k) != Some(target) {
      CycleRepeats(stored, from, i, j, k);
    }
  }

  lemma CertifiedBlock(stored: map<Hash, Block>, qc: QuorumCertificate)
    ensures Certified(stored, Some(qc))
            == if qc.blockHash.None? || qc.blockHash.value !in stored then None else Some(stored[qc.blockHash.value])
  {
  }

  lemma NotCertified(stored: map<Hash, Block>, qc: Option<QuorumCertificate>)
    requires qc.None?
    ensures Certified(stored, qc) == None
  {
  }

  lemma LockThenFastCommit(t: TreeState, signatures: nat, generic: Block, locked: Block)
    requires generic.justify.Some?
    ensures var qc := generic.justify.value;
            var locks := qc.view >= locked.view && generic.view > locked.view && qc.view > t.lockedQC.view;
            var fast := t.fastPathThreshold > 0 && signatures >= t.fastPathThreshold && qc.view > t.commitQC.view;
            FastCommit(MoveLock(t, generic, locked), signatures, generic, locked)
            == t.(lockedQC := if locks then qc else t.lockedQC,
                  commitQC := if fast then qc else t.commitQC,
                  committed := if fast then t.committed + [locked] else t.committed)
  {
  }

  lemma ChainCommitIs(t: TreeState, locked: Block, start: Block)
    requires locked.justify.Some?
    ensures var qc := locked.justify.value;
            var commits := qc.view >= start.view && locked.view > start.view && qc.view > t.commitQC.view;
            ChainCommit(t, locked, start)
            == t.(commitQC := if commits then qc else t.commitQC,
                  committed := if commits then t.committed + [start] else t.committed)
  {
  }

  class BlockTree {
    var stored: map<Hash, Block>
    var highQC: QuorumCertificate
    var genericQC: QuorumCertificate
    var lockedQC: QuorumCertificate
    var commitQC: QuorumCertificate
    var fastPathThreshold: nat
    var confirmed: seq<Block>
    var committed: seq<Block>

    ghost function State(): TreeState
      reads this
    {
      TreeState(stored, highQC, genericQC, lockedQC, commitQC, fastPathThreshold, confirmed, committed)
    }

    constructor (epoch: nat)
      ensures State() == NewTree(epoch, 0)
    {
      stored := map[];
      highQC, genericQC, lockedQC, commitQC := GenesisQC(epoch), GenesisQC(epoch), GenesisQC(epoch), GenesisQC(epoch);
      fastPathThreshold, confirmed, committed := 0, [], [];
    }

    /** Nine tenths of the validators, rounded down. */
    method SetFastPathThreshold(n: nat)
      modifies this
      ensures State() == old(State()).(fastPathThreshold := n * 9 / 10)
    {
      fastPathThreshold := n * 9 / 10;
    }

    method Commit(b: Block)
      modifies `committed
      ensures committed == old(committed) + [b]
    {
      committed := committed + [b];
    }

    method ProcessBlock(block: Block)
      modifies this
      ensures State() == Process(old(State()), block)
    {
      hide IsNewer, FollowChain, Certified;
      ghost var before := State();
      stored := stored[block.hash := block];
      if block.justify.None? {
        NotCertified(stored, block.justify);
        return;
      }
      var justify := block.justify.value;
      if IsNewer(justify, highQC) {
        highQC := justify;
      }
      assert State() == Store(before, block);
      CertifiedBlock(stored, justify);
      if justify.blockHash.None? || justify.blockHash.value !in stored {
        return;
      }
      var genericBlock := stored[justify.blockHash.value];
      genericQC := justify;
      confirmed := confirmed + [genericBlock];
      ProcessChain(justify, genericBlock);
    }

    /** The rest of the above, from the block that the new one's certificate is for. */
    method ProcessChain(justify: QuorumCertificate, genericBlock: Block)
      modifies this
      ensures State() == FollowChain(old(State()), justify.numSignatures, genericBlock)
    {
      hide MoveLock, FastCommit, ChainCommit, Certified;
      ghost var known := State();
      if genericBlock.justify.Some? {
        CertifiedBlock(stored, genericBlock.justify.value);
      } else {
        NotCertified(stored, genericBlock.justify);
      }
      if genericBlock.justify.None? || genericBlock.justify.value.blockHash.None?
         || genericBlock.justify.value.blockHash.value !in stored {
        return;
      }
      var lockCandidate := genericBlock.justify.value;
      var lockedBlock := stored[lockCandidate.blockHash.value];
      if lockCandidate.view >= lockedBlock.view && genericBlock.view > lockedBlock.view
         && lockCandidate.view > lockedQC.view {
        lockedQC := lockCandidate;
      }
      if fastPathThreshold > 0 && justify.numSignatures >= fastPathThreshold {
        if lockCandidate.view > commitQC.view {
          commitQC := lockCandidate;
          Commit(lockedBlock);
        }
      }
      assert State() == FastCommit(MoveLock(known, genericBlock, lockedBlock), justify.numSignatures, genericBlock,
                                   lockedBlock)
      by {
        LockThenFastCommit(known, justify.numSignatures, genericBlock, lockedBlock);
      }
      ghost var fast := State();
      if lockedBlock.justify.Some? {
        CertifiedBlock(stored, lockedBlock.justify.value);
      } else {
        NotCertified(stored, lockedBlock.justify);
      }
      if lockedBlock.justify.None? || lockedBlock.justify.value.blockHash.None?
         || lockedBlock.justify.value.blockHash.value !in stored {
        return;
      }
      var commitCandidate := lockedBlock.justify.value;
      var commitBlock := stored[commitCandidate.blockHash.value];
      if commitCandidate.view >= commitBlock.view && lockedBlock.view > commitBlock.view
         && commitCandidate.view > commitQC.view {
        commitQC := commitCandidate;
        Commit(commitBlock);
      }
      ChainCommitIs(fast, lockedBlock, commitBlock);
    }

    method OnVoteQC(qc: QuorumCertificate)
      modifies `highQC, `genericQC
      ensures State() == SeeCertificate(old(State()), qc)
    {
      if IsNewer(qc, highQC) {
        highQC := qc;
      }
      if qc.epoch > genericQC.epoch || (qc.epoch == genericQC.epoch && qc.view >= genericQC.view) {
        genericQC := qc;
      }
    }

    method SafeNode(block: Block) returns (safe: bool)
      ensures safe <==> SafeToVote(State(), block)
    {
      if block.justify.Some? && block.justify.value.view > lockedQC.view {
        return true;
      }
      safe := ExtendsLockedBlock(block);
    }

    /** Follows the stored blocks upwards until it meets the locked block, leaves them, or has been here before. */
    method ExtendsLockedBlock(block: Block) returns (found: bool)
      ensures found <==> lockedQC.blockHash.None? || Extends(stored, block, lockedQC.blockHash.value)
    {
      if lockedQC.blockHash.None? {
        return true;
      }
      var target := lockedQC.blockHash.value;
      if block.justify.Some? && block.justify.value.blockHash == Some(target) {
        return true;
      }
      var current := block.parent;
      if current.None? && block.justify.Some? {
        current := block.justify.value.blockHash;
      }
      ghost var start := Above(block);
      ghost var k: nat := 0;
      var visited: set<Hash> := {};
      hide Walk, Reaches;
      WalkStarts(stored, start);
      while current.Some?
        invariant current == Walk(stored, start, k)
        invariant visited <= stored.Keys
        invariant forall h | h in visited :: VisitedBefore(stored, start, k, h)
        invariant !VisitedBefore(stored, start, k, target)
        decreases |stored.Keys - visited|
      {
        if current.value == target {
          MetAt(stored, start, k, target);
          return true;
        }
        if current.value in visited {
          NeverLeavesCycle(stored, start, k, target);
          return false;
        }
        WalkOn(stored, start, k, target);
        if current.value !in stored {
          EndedWalk(stored, start, k + 1, target);
          return false;
        }
        var parentBlock := stored[current.value];
        var next := parentBlock.parent;
        if next.None? && parentBlock.justify.Some? {
          next := parentBlock.justify.value.blockHash;
        }
        forall h | h in visited + {current.value} ensures VisitedBefore(stored, start, k + 1, h) {
          WalkOn(stored, start, k, h);
        }
        assert stored.Keys - (visited + {current.value}) < stored.Keys - visited;
        visited := visited + {current.value};
        current := next;
        k := k + 1;
      }
      EndedWalk(stored, start, k, target);
      return false;
    }
  }

  // ---- which certificates are kept ----

  /** Certificate a is not from a later epoch than c, nor from a later view of the same epoch. */
  predicate AtMost(a: QuorumCertificate, c: QuorumCertificate) {
    a.epoch < c.epoch || (a.epoch == c.epoch && a.view <= c.view)
  }

  /** One of them, and none of them is later. */
  ghost predicate IsLatestOf(qc: QuorumCertificate, start: QuorumCertificate, shown: set<QuorumCertificate>) {
    (qc == start || qc in shown) && AtMost(start, qc) && forall c | c in shown :: AtMost(c, qc)
  }

  /** The certificate that a block shows. */
  function ShownBy(b: Block): set<QuorumCertificate> {
    if b.justify.Some? then {b.justify.value} else {}
  }

  lemma LatestGrows(t: TreeState, start: QuorumCertificate, shown: set<QuorumCertificate>, b: Block,
                    qc: QuorumCertificate)
    requires IsLatestOf(t.highQC, start, shown)
    ensures IsLatestOf(Process(t, b).highQC, start, shown + ShownBy(b))
    ensures IsLatestOf(SeeCertificate(t, qc).highQC, start, shown + {qc})
  {
    ProcessLocks(t, b);
    hide Process;
  }

  datatype TreeEvent = Processed(block: Block) | Seen(qc: QuorumCertificate)

  function RunTree(epoch: nat, fastPathThreshold: nat, events: seq<TreeEvent>): TreeState {
    if events == [] then NewTree(epoch, fastPathThreshold)
    else
      var before := RunTree(epoch, fastPathThreshold, events[..|events| - 1]);
      match events[|events| - 1]
      case Processed(b) => Process(before, b)
      case Seen(qc) => SeeCertificate(before, qc)
  }

  function ShownIn(events: seq<TreeEvent>): set<QuorumCertificate> {
    if events == [] then {}
    else
      var e := events[|events| - 1];
      ShownIn(events[..|events| - 1]) + if e.Processed? then ShownBy(e.block) else {e.qc}
  }

  /** Whatever blocks and certificates come, of any epochs: the highest certificate is the latest one shown. */
  lemma {:induction false} HighestIsLatestShown(epoch: nat, fastPathThreshold: nat, events: seq<TreeEvent>)
    ensures IsLatestOf(RunTree(epoch, fastPathThreshold, events).highQC, QuorumCertificate(None, 0, epoch, 0),
                       ShownIn(events))
  {
    if events != [] {
      hide Process, SeeCertificate, IsLatestOf;
      var n := |events| - 1;
      var b := if events[n].Processed? then events[n].block else Block(0, None, 0, 0, 0, None);
      var qc := if events[n].Seen? then events[n].qc else GenesisQC(0);
      HighestIsLatestShown(epoch, fastPathThreshold, events[..n]);
      LatestGrows(RunTree(epoch, fastPathThreshold, events[..n]), GenesisQC(epoch), ShownIn(events[..n]), b, qc);
    } else {
      NothingShown(epoch, fastPathThreshold);
    }
  }

  lemma NothingShown(epoch: nat, fastPathThreshold: nat)
    ensures IsLatestOf(RunTree(epoch, fastPathThreshold, []).highQC, GenesisQC(epoch), {})
  {
  }

  /** A certificate from votes replaces the highest one only if it is later, the generic one also if it is as late. */
  lemma CertificateReplacesIff(t: TreeState, qc: QuorumCertificate)
    ensures var t' := SeeCertificate(t, qc);
            && t'.highQC == (if AtMost(qc, t.highQC) then t.highQC else qc)
            && t'.genericQC == (if AtMost(t.genericQC, qc) then qc else t.genericQC)
            && t' == t.(highQC := t'.highQC, genericQC := t'.genericQC)
  {
  }

  // ---- which blocks are confirmed, locked and committed ----

  /** The certificate of b is for the stored block `below`. */
  predicate IsBuiltOn(stored: map<Hash, Block>, b: Block, below: Block) {
    && b.justify.Some? && b.justify.value.blockHash.Some?
    && b.justify.value.blockHash.value in stored && stored[b.justify.value.blockHash.value] == below
  }

  /** A block confirms the stored block that its certificate is for, and takes over the certificate. */
  lemma ConfirmsIff(t: TreeState, b: Block)
    ensures var t', stored := Process(t, b), t.stored[b.hash := b];
            && t'.stored == stored
            && (forall below | IsBuiltOn(stored, b, below) ::
                  t'.confirmed == t.confirmed + [below] && t'.genericQC == b.justify.value)
            && ((forall below :: !IsBuiltOn(stored, b, below)) ==>
                  t'.confirmed == t.confirmed && t'.genericQC == t.genericQC)
  {
    hide IsNewer;
    if b.justify.Some? && b.justify.value.blockHash.Some? && b.justify.value.blockHash.value in t.stored[b.hash := b] {
      assert IsBuiltOn(t.stored[b.hash := b], b, t.stored[b.hash := b][b.justify.value.blockHash.value]);
    }
  }

  /** Block b lies on two stored certificates, of rising views, and the lower one is newer than the lock. */
  ghost predicate LocksThrough(t: TreeState, b: Block, generic: Block, locked: Block) {
    var stored := t.stored[b.hash := b];
    && IsBuiltOn(stored, b, generic) && IsBuiltOn(stored, generic, locked)
    && generic.justify.value.view >= locked.view && generic.view > locked.view
    && generic.justify.value.view > t.lockedQC.view
  }

  /** The lock moves exactly to such certificates. */
  lemma LockMovesIff(t: TreeState, b: Block)
    ensures forall generic, locked | LocksThrough(t, b, generic, locked) ::
              Process(t, b).lockedQC == generic.justify.value != t.lockedQC
    ensures (forall generic, locked :: !LocksThrough(t, b, generic, locked)) ==> Process(t, b).lockedQC == t.lockedQC
  {
    hide IsNewer, Process;
    ProcessLocks(t, b);
    var stored := t.stored[b.hash := b];
    match Certified(stored, b.justify) {
      case None =>
      case Some(generic) =>
        assert IsBuiltOn(stored, b, generic);
        match Certified(stored, generic.justify) {
          case None =>
          case Some(locked) =>
            assert IsBuiltOn(stored, generic, locked);
            assert LocksThrough(t, b, generic, locked)
              || (generic.justify.value.view >= locked.view && generic.view > locked.view
                  ==> generic.justify.value.view <= t.lockedQC.view);
        }
    }
  }

  /** Enough signatures on top of two stored certificates commit the lower block at once. */
  ghost predicate CommitsFast(t: TreeState, b: Block, generic: Block, start: Block) {
    var stored := t.stored[b.hash := b];
    && IsBuiltOn(stored, b, generic) && IsBuiltOn(stored, generic, start)
    && 0 < t.fastPathThreshold <= b.justify.value.numSignatures
    && generic.justify.value.view > t.commitQC.view
  }

  /** Three stored certificates commit the block at their start, unless something as late is committed. */
  ghost predicate CommitsChain(t: TreeState, b: Block, end: Block, middle: Block, start: Block) {
    var stored := t.stored[b.hash := b];
    && IsBuiltOn(stored, b, end) && IsBuiltOn(stored, end, middle) && IsBuiltOn(stored, middle, start)
    && middle.justify.value.view >= start.view && middle.view > start.view
    && middle.justify.value.view > t.commitQC.view
    && (CommitsFast(t, b, end, middle) ==> middle.justify.value.view > end.justify.value.view)
  }

  /** Exactly these blocks are committed, the fast one first, and the last one's certificate is remembered. */
  lemma CommitsIff(t: TreeState, b: Block)
    ensures var t' := Process(t, b);
            && (forall end, middle, start | CommitsChain(t, b, end, middle, start) ::
                  t'.commitQC == middle.justify.value
                  && t'.committed == t.committed + (if CommitsFast(t, b, end, middle) then [middle] else []) + [start])
            && ((forall end, middle, start :: !CommitsChain(t, b, end, middle, start)) ==>
                  (forall generic, start | CommitsFast(t, b, generic, start) ::
                     t'.commitQC == generic.justify.value && t'.committed == t.committed + [start])
                  && ((forall generic, start :: !CommitsFast(t, b, generic, start)) ==>
                        t'.commitQC == t.commitQC && t'.committed == t.committed))
  {
    hide IsNewer;
    var stored := t.stored[b.hash := b];
    match Certified(stored, b.justify) {
      case None =>
      case Some(generic) =>
        assert IsBuiltOn(stored, b, generic);
        match Certified(stored, generic.justify) {
          case None =>
          case Some(locked) =>
            assert CommitsFast(t, b, generic, locked)
              <==> 0 < t.fastPathThreshold <= b.justify.value.numSignatures
                   && generic.justify.value.view > t.commitQC.view;
            match Certified(stored, locked.justify) {
              case None =>
              case Some(start) =>
                assert CommitsChain(t, b, generic, locked, start)
                  <==> && locked.justify.value.view >= start.view && locked.view > start.view
                       && locked.justify.value.view > t.commitQC.view
                       && (CommitsFast(t, b, generic, locked) ==>
                             locked.justify.value.view > generic.justify.value.view);
            }
        }
    }
  }

  // ---- what never goes back ----

  /**
   Processing a block moves locks, commits and the highest certificate forwards only, and each commit
   raises the view of the last committed block.
   */
  lemma ProcessMovesForward(t: TreeState, b: Block)
    ensures var t' := Process(t, b);
            && t.lockedQC.view <= t'.lockedQC.view
            && !IsNewer(t.highQC, t'.highQC)
            && t.committed <= t'.committed
            && t.commitQC.view + (|t'.committed| - |t.committed|) <= t'.commitQC.view
  {
  }

  /** What processing does to the parts of the tree that matter for votes. */
  lemma ProcessLocks(t: TreeState, b: Block)
    ensures var t' := Process(t, b);
            && t'.stored == t.stored[b.hash := b]
            && t'.highQC == Store(t, b).highQC
            && t'.lockedQC == match Certified(t'.stored, b.justify) {
                 case None => t.lockedQC
                 case Some(generic) =>
                   match Certified(t'.stored, generic.justify) {
                     case None => t.lockedQC
                     case Some(locked) => MoveLock(t, generic, locked).lockedQC
                   }
               }
  {
  }

  // ---- the chain that commits ----

  /** Three blocks, each certified by the next one above it. */
  datatype Chain = Chain(start: Block, middle: Block, end: Block)

  predicate WithoutGap(c: Chain) {
    c.middle.view == c.start.view + 1 && c.end.view == c.start.view + 2
  }

  /** The chain for which processing b commits a block, if it does. */
  function ChainCommitted(t: TreeState, b: Block): Option<Chain> {
    var t := Store(t, b);
    match Certified(t.stored, b.justify)
    case None => None
    case Some(end) =>
      match Certified(t.stored, end.justify)
      case None => None
      case Some(middle) =>
        match Certified(t.stored, middle.justify)
        case None => None
        case Some(start) =>
          var commitView := FastCommit(t, b.justify.value.numSignatures, end, middle).commitQC.view;
          if middle.justify.value.view >= start.view && middle.view > start.view
              && middle.justify.value.view > commitView
          then Some(Chain(start, middle, end)) else None
  }

  /** That block is the last one committed; and without the fast path, no others are. */
  lemma ProcessCommits(t: TreeState, b: Block)
    ensures var t', c := Process(t, b), ChainCommitted(t, b);
            && t.committed <= t'.committed && t'.fastPathThreshold == t.fastPathThreshold
            && (c.Some? ==> |t'.committed| > |t.committed| && t'.committed[|t'.committed| - 1] == c.value.start)
            && (t.fastPathThreshold == 0 ==>
                  t'.committed == t.committed + if c.Some? then [c.value.start] else [])
  {
    hide IsNewer;
  }
}
