/**
 Histories of replicas that get, build and certify the blocks of a fork: one chain of four blocks, and
 beside it another one of four that starts at the genesis certificate.  A summary keeps book of what a
 replica knows after each action; it is proved to match the replica's state.
 */
module Schedules {
  import opened Wrappers
  import opened BlockTrees
  import opened Replicas
  import opened Finality

  // ---- the blocks ----

  const START: Hash := 1
  const MIDDLE: Hash := 2
  const END: Hash := 3
  const AFTER_END: Hash := 4
  const OTHER: Hash := 5
  const ON_OTHER: Hash := 6
  const LAST: Hash := 8
  const BLOCKS: set<Hash> := {START, MIDDLE, END, AFTER_END, OTHER, ON_OTHER, ON_OTHER + 1, LAST}

  /**
   The views of the first three blocks of the chain and of the first block beside it.  The fourth block
   of the chain comes in the view after `end`, the others beside it in the three views after that.  Every
   certificate shows so many signatures.
   */
  datatype Fork = Fork(setup: Setup, start: nat, middle: nat, end: nat, other: nat, signatures: nat)

  predicate IsBlock(h: Hash) {
    START <= h <= LAST
  }

  /** The block that a block is built on. */
  function Below(h: Hash): Option<Hash> {
    if h == START || h == OTHER then None else Some(if h == 0 then 0 else h - 1)
  }

  function ViewOf(f: Fork, h: Hash): nat {
    if h == START then f.start
    else if h == MIDDLE then f.middle
    else if h == END then f.end
    else if h == AFTER_END then f.end + 1
    else if h == OTHER then f.other
    else f.end + 2 + (if h >= ON_OTHER then h - ON_OTHER else 0)
  }

  function ViewUpTo(f: Fork, h: Option<Hash>): nat {
    if h.None? then 0 else ViewOf(f, h.value)
  }

  function CertificateOf(f: Fork, h: Option<Hash>): QuorumCertificate {
    if h.None? then GenesisQC(f.setup.epoch)
    else QuorumCertificate(h, ViewOf(f, h.value), f.setup.epoch, f.signatures)
  }

  /** Two blocks follow the first one: the one beside it, and the second one of the chain, in this order or at once. */
  function HeightOf(f: Fork, h: Hash): nat {
    if h == START then 1
    else if h == OTHER then 2
    else (if h > OTHER then h - 2 else h) + if f.other < f.middle then 1 else 0
  }

  /** On the genesis certificate the parent is the block of zeros, as for a leader that knows no other. */
  function BlockOf(f: Fork, h: Hash): Block {
    if !IsBlock(h) then Block(h, None, 1, 0, 0, None)
    else
      Block(h, if Below(h).None? then Some(ZERO_HASH) else Below(h), ViewOf(f, h), f.setup.leader(ViewOf(f, h)),
            HeightOf(f, h), Some(CertificateOf(f, Below(h))))
  }

  ghost function Blocks(f: Fork): (block: Hash -> Block)
    ensures forall h: Hash :: block(h) == BlockOf(f, h)
  {
    (h: Hash) => BlockOf(f, h)
  }

  /** Views rise along the chain and beside it. */
  predicate Rises(f: Fork) {
    1 <= f.start < f.middle < f.end && 1 <= f.other < f.end + 2
  }

  lemma ViewsRise(f: Fork, h: Hash)
    requires Rises(f) && IsBlock(h)
    ensures 1 <= ViewOf(f, h) && ViewUpTo(f, Below(h)) < ViewOf(f, h)
    ensures Below(h).Some? ==> IsBlock(Below(h).value)
  {
  }

  // ---- what a replica knows ----

  datatype Action = Get(h: Hash) | Build(h: Hash) | Collect(h: Hash)

  datatype Summary = Summary(
    hashes: set<Hash>,
    locked: Option<Hash>,
    high: Option<Hash>,
    commitView: nat,
    committed: seq<Hash>,
    currentView: nat,
    proposedView: nat,
    seenViews: set<nat>,
    height: nat,
    voted: seq<Hash>)

  const NOTHING_KNOWN := Summary({}, None, None, 0, [], 1, 0, {}, 0, [])

  function Known(hashes: set<Hash>, h: Option<Hash>): Option<Hash> {
    if h.Some? && h.value in hashes then h else None
  }

  /** The known blocks one, two and three certificates below a block. */
  function First(hashes: set<Hash>, h: Hash): Option<Hash> {
    Known(hashes, Below(h))
  }

  function Second(hashes: set<Hash>, h: Hash): Option<Hash> {
    if First(hashes, h).Some? then Known(hashes, Below(First(hashes, h).value)) else None
  }

  function Third(hashes: set<Hash>, h: Hash): Option<Hash> {
    if Second(hashes, h).Some? then Known(hashes, Below(Second(hashes, h).value)) else None
  }

  predicate IsFast(f: Fork) {
    f.setup.fastPathThreshold > 0 && f.signatures >= f.setup.fastPathThreshold
  }

  /** Takes a block: stores it, and moves lock and commits as far as known blocks reach below it. */
  function Take(f: Fork, s: Summary, h: Hash): Summary {
    var hashes := s.hashes + {h};
    var locked, start := Second(hashes, h), Third(hashes, h);
    var fast := locked.Some? && IsFast(f) && ViewUpTo(f, locked) > s.commitView;
    var commitView := if fast then ViewUpTo(f, locked) else s.commitView;
    var committed := if fast then s.committed + [locked.value] else s.committed;
    var commits := start.Some? && ViewUpTo(f, start) > commitView;
    s.(hashes := hashes,
       locked := if locked.Some? && ViewUpTo(f, locked) > ViewUpTo(f, s.locked) then locked else s.locked,
       high := if ViewUpTo(f, Below(h)) > ViewUpTo(f, s.high) then Below(h) else s.high,
       commitView := if commits then ViewUpTo(f, start) else commitView,
       committed := if commits then committed + [start.value] else committed,
       height := Higher(s.height, HeightOf(f, h)),
       voted := s.voted + [h])
  }

  function Higher(x: nat, y: nat): nat {
    if y > x then y else x
  }

  function Act(f: Fork, s: Summary, a: Action): Summary {
    match a
    case Get(h) =>
      Take(f, s, h).(currentView := if ViewOf(f, h) >= s.currentView then ViewOf(f, h) + 1 else s.currentView,
                     seenViews := s.seenViews + {ViewOf(f, h)})
    case Build(h) =>
      Take(f, s, h).(currentView := ViewOf(f, h), proposedView := ViewOf(f, h))
    case Collect(h) =>
      s.(high := if ViewOf(f, h) > ViewUpTo(f, s.high) then Some(h) else s.high,
         currentView := AfterView(s.currentView, ViewOf(f, h)))
  }

  /**
   Replica `id` can do this.  It gets a block in its view or at most one later, not locked above it and
   higher than what it has committed; it builds one in its view on the highest certificate it knows.
   */
  predicate Fits(f: Fork, id: nat, held: bool, s: Summary, a: Action) {
    && IsBlock(a.h)
    && (!a.Collect? ==> a.h !in s.hashes && (held && Below(a.h).Some? ==> Below(a.h).value in s.hashes))
    && match a
       case Get(h) =>
         && ViewOf(f, h) + 1 >= s.currentView && ViewOf(f, h) !in s.seenViews
         && (forall c | c in s.committed :: HeightOf(f, c) < HeightOf(f, h))
         && (s.locked.None? || ViewUpTo(f, Below(h)) > ViewUpTo(f, s.locked))
       case Build(h) =>
         && ViewOf(f, h) >= s.currentView && ViewOf(f, h) > s.proposedView
         && s.high == Below(h) && HeightOf(f, h) == s.height + 1 && f.setup.leader(ViewOf(f, h)) == id
       case Collect(h) => true
  }

  ghost predicate TreeMatches(f: Fork, t: TreeState, s: Summary) {
    && (forall h | h in s.hashes :: IsBlock(h))
    && t.stored.Keys == s.hashes && (forall h | h in s.hashes :: t.stored[h] == BlockOf(f, h))
    && LatestHeight(t.stored) == s.height
    && t.lockedQC == CertificateOf(f, s.locked) && t.highQC == CertificateOf(f, s.high)
    && t.commitQC.view == s.commitView && t.fastPathThreshold == f.setup.fastPathThreshold
    && |t.committed| == |s.committed|
    && (forall i | 0 <= i < |s.committed| :: t.committed[i] == BlockOf(f, s.committed[i]))
  }

  ghost predicate Matches(f: Fork, r: Replica, s: Summary) {
    && TreeMatches(f, r.tree, s)
    && r.currentView == s.currentView && r.lastProposedView == s.proposedView
    && (forall k | k in r.seen :: k.0 in s.seenViews)
    && |r.votes| == |s.voted| && (forall i | 0 <= i < |s.voted| :: r.votes[i].block == BlockOf(f, s.voted[i]))
  }

  function BlockIf(f: Fork, h: Option<Hash>): Option<Block> {
    if h.Some? then Some(BlockOf(f, h.value)) else None
  }

  ghost predicate StoreMatches(f: Fork, stored: map<Hash, Block>, hashes: set<Hash>) {
    stored.Keys == hashes && forall h | h in hashes :: IsBlock(h) && stored[h] == BlockOf(f, h)
  }

  /** A certificate finds its block in the store exactly if the block is known. */
  lemma CertifiedIsKnown(f: Fork, stored: map<Hash, Block>, hashes: set<Hash>, h: Hash)
    requires StoreMatches(f, stored, hashes) && IsBlock(h)
    ensures Certified(stored, BlockOf(f, h).justify) == BlockIf(f, First(hashes, h))
    ensures BlockOf(f, h).justify == Some(CertificateOf(f, Below(h)))
    ensures First(hashes, h).Some? ==> First(hashes, h) == Below(h) && IsBlock(Below(h).value)
  {
  }

  /** The three blocks that processing looks at, as far as they are known. */
  lemma ChainIsKnown(f: Fork, stored: map<Hash, Block>, hashes: set<Hash>, h: Hash)
    requires StoreMatches(f, stored, hashes) && IsBlock(h)
    ensures var generic, locked, start := First(hashes, h), Second(hashes, h), Third(hashes, h);
            && Certified(stored, BlockOf(f, h).justify) == BlockIf(f, generic)
            && BlockIf(f, locked)
               == (if generic.Some? then Certified(stored, BlockOf(f, generic.value).justify) else None)
            && BlockIf(f, start)
               == (if locked.Some? then Certified(stored, BlockOf(f, locked.value).justify) else None)
            && (generic.Some? ==> generic == Below(h) && IsBlock(generic.value))
            && (locked.Some? ==> locked == Below(generic.value) && IsBlock(locked.value))
            && (start.Some? ==> start == Below(locked.value) && IsBlock(start.value))
  {
    hide Certified, BlockOf, Below, Known, IsBlock, StoreMatches;
    CertifiedIsKnown(f, stored, hashes, h);
    if First(hashes, h).Some? {
      CertifiedIsKnown(f, stored, hashes, First(hashes, h).value);
      NextIsFirst(hashes, h);
      if Second(hashes, h).Some? {
        CertifiedIsKnown(f, stored, hashes, Second(hashes, h).value);
        NextIsFirst(hashes, Second(hashes, h).value);
      }
    }
  }

  lemma NextIsFirst(hashes: set<Hash>, h: Hash)
    ensures First(hashes, h).Some? ==> Second(hashes, h) == First(hashes, First(hashes, h).value)
    ensures Second(hashes, h).Some? ==> Third(hashes, h) == First(hashes, Second(hashes, h).value)
  {
  }

  /** What processing does to commits. */
  lemma ProcessCommitSteps(t: TreeState, b: Block)
    requires b.justify.Some?
    ensures var stored := t.stored[b.hash := b];
            var generic := Certified(stored, b.justify);
            var locked := if generic.Some? then Certified(stored, generic.value.justify) else None;
            var start := if locked.Some? then Certified(stored, locked.value.justify) else None;
            var fast := if locked.None? then t
                        else FastCommit(t, b.justify.value.numSignatures, generic.value, locked.value);
            var all := if start.Some? then ChainCommit(fast, locked.value, start.value) else fast;
            && Process(t, b).commitQC == all.commitQC && Process(t, b).committed == all.committed
            && Process(t, b).fastPathThreshold == t.fastPathThreshold
  {
    hide IsNewer;
  }

  /** Blocks and certificates on the way down have the views and signatures of the fork. */
  lemma CertificateViews(f: Fork, h: Hash)
    requires Rises(f) && IsBlock(h)
    ensures var b := BlockOf(f, h);
            && b.hash == h && b.view == ViewOf(f, h) && b.justify == Some(CertificateOf(f, Below(h)))
            && b.justify.value.view == ViewUpTo(f, Below(h)) < b.view
            && (Below(h).Some? ==> b.justify.value.numSignatures == f.signatures)
  {
  }

  lemma LatestIsHigher(stored: map<Hash, Block>, b: Block)
    requires b.hash !in stored
    ensures LatestHeight(stored[b.hash := b]) == Higher(LatestHeight(stored), b.height)
  {
    hide LatestHeight;
    var after := stored[b.hash := b];
    assert forall h | h in stored :: h in after && after[h] == stored[h];
    assert after[b.hash] == b;
  }

  lemma {:induction false} HigherThanCommitted(f: Fork, committed: seq<Block>, hashes: seq<Hash>, height: nat)
    requires |committed| == |hashes| && height > 0
    requires forall i | 0 <= i < |hashes| :: committed[i] == BlockOf(f, hashes[i])
    requires forall h | h in hashes :: HeightOf(f, h) < height
    ensures HighestCommitted(committed) < height
  {
    if committed != [] {
      var n := |committed| - 1;
      HigherThanCommitted(f, committed[..n], hashes[..n], height);
      assert hashes[n] in hashes;
    }
  }

  lemma TakeLocks(f: Fork, t: TreeState, s: Summary, h: Hash)
    requires Rises(f) && TreeMatches(f, t, s) && IsBlock(h) && h !in s.hashes
    ensures var t', s' := Process(t, BlockOf(f, h)), Take(f, s, h);
            && StoreMatches(f, t'.stored, s'.hashes)
            && t'.lockedQC == CertificateOf(f, s'.locked) && t'.highQC == CertificateOf(f, s'.high)
  {
    hide Process, Certified, Below, ViewOf, BlockOf, IsBlock, First, Second, Third;
    var b, hashes := BlockOf(f, h), s.hashes + {h};
    CertificateViews(f, h);
    ProcessLocks(t, b);
    ChainIsKnown(f, t.stored[h := b], hashes, h);
    var generic, locked := First(hashes, h), Second(hashes, h);
    if locked.Some? {
      CertificateViews(f, generic.value);
      CertificateViews(f, locked.value);
    }
  }

  lemma TakeCommits(f: Fork, t: TreeState, s: Summary, h: Hash)
    requires Rises(f) && TreeMatches(f, t, s) && IsBlock(h) && h !in s.hashes
    ensures var t', s' := Process(t, BlockOf(f, h)), Take(f, s, h);
            && t'.commitQC.view == s'.commitView && t'.fastPathThreshold == f.setup.fastPathThreshold
            && |t'.committed| == |s'.committed|
            && forall i | 0 <= i < |s'.committed| :: t'.committed[i] == BlockOf(f, s'.committed[i])
  {
    hide Process, Certified, Below, ViewOf, BlockOf, IsBlock, First, Second, Third;
    var b, hashes := BlockOf(f, h), s.hashes + {h};
    CertificateViews(f, h);
    ProcessCommitSteps(t, b);
    ChainIsKnown(f, t.stored[h := b], hashes, h);
    var generic, locked, start := First(hashes, h), Second(hashes, h), Third(hashes, h);
    if locked.Some? {
      CertificateViews(f, generic.value);
      CertificateViews(f, locked.value);
      if start.Some? {
        CertificateViews(f, start.value);
      }
    }
  }

  lemma TakeHeight(f: Fork, t: TreeState, s: Summary, h: Hash)
    requires TreeMatches(f, t, s) && IsBlock(h) && h !in s.hashes
    ensures LatestHeight(Process(t, BlockOf(f, h)).stored) == Take(f, s, h).height
  {
    hide Process, LatestHeight, BlockOf, First, Second, Third, HeightOf, ViewOf, Below;
    BlockNames(f, h);
    BlockHash(f, h);
    ProcessLocks(t, BlockOf(f, h));
    LatestIsHigher(t.stored, BlockOf(f, h));
  }

  // ---- one action ----

  function EventsOf(f: Fork, id: nat, a: Action): seq<Event> {
    var view := ViewOf(f, a.h);
    match a
    case Get(h) => [LeftView(if view == 0 then 0 else view - 1), Proposal(BlockOf(f, h), true, true)]
    case Build(h) => [LeftView(if view == 0 then 0 else view - 1), OwnProposal(h, id, true)]
    case Collect(h) => [SeenCertificate(CertificateOf(f, Some(h)))]
  }

  ghost function AfterAction(f: Fork, id: nat, r: Replica, a: Action): Replica {
    var events := EventsOf(f, id, a);
    if a.Collect? then Step(f.setup, r, events[0]) else Step(f.setup, Step(f.setup, r, events[0]), events[1])
  }

  lemma TakeTree(f: Fork, t: TreeState, s: Summary, h: Hash)
    requires Rises(f) && TreeMatches(f, t, s) && IsBlock(h) && h !in s.hashes
    ensures TreeMatches(f, Process(t, BlockOf(f, h)), Take(f, s, h))
  {
    hide Process, Take, BlockOf, IsBlock, Below, ViewOf;
    TakeLocks(f, t, s, h);
    TakeCommits(f, t, s, h);
    TakeHeight(f, t, s, h);
  }

  lemma TakeKeepsRest(f: Fork, s: Summary, h: Hash)
    ensures var s' := Take(f, s, h);
            && s'.currentView == s.currentView && s'.proposedView == s.proposedView && s'.seenViews == s.seenViews
            && s'.voted == s.voted + [h]
  {
  }

  lemma GetIsAccepted(f: Fork, id: nat, held: bool, r: Replica, s: Summary, h: Hash)
    requires Rises(f) && Matches(f, r, s) && Fits(f, id, held, s, Get(h))
    ensures var r1 := r.(currentView := AfterView(r.currentView, ViewOf(f, h) - 1));
            && r1 == Step(f.setup, r, EventsOf(f, id, Get(h))[0])
            && Accepts(f.setup, r1, BlockOf(f, h))
  {
    hide ViewOf, BlockOf, Below, Extends;
    ViewsRise(f, h);
    CertificateViews(f, h);
    BlockNames(f, h);
    CertificateViewIs(f, s.locked);
    HigherThanCommitted(f, r.tree.committed, s.committed, HeightOf(f, h));
  }

  lemma BlockNames(f: Fork, h: Hash)
    requires IsBlock(h)
    ensures BlockOf(f, h).leaderId == f.setup.leader(ViewOf(f, h)) && BlockOf(f, h).height == HeightOf(f, h) > 0
    ensures BlockOf(f, h).parent == if Below(h).None? then Some(ZERO_HASH) else Below(h)
  {
  }

  lemma CertificateViewIs(f: Fork, h: Option<Hash>)
    ensures CertificateOf(f, h).view == ViewUpTo(f, h) && CertificateOf(f, h).blockHash == h
    ensures CertificateOf(f, h).epoch == f.setup.epoch
  {
  }

  lemma GetMatches(f: Fork, id: nat, held: bool, r: Replica, s: Summary, h: Hash)
    requires Rises(f) && Matches(f, r, s) && Fits(f, id, held, s, Get(h))
    ensures Matches(f, AfterAction(f, id, r, Get(h)), Act(f, s, Get(h)))
  {
    hide Process, Take, BlockOf, IsBlock, Below, ViewOf, Accepts, TreeMatches, CertificateOf;
    GetIsAccepted(f, id, held, r, s, h);
    CertificateViews(f, h);
    TakeTree(f, r.tree, s, h);
    TakeKeepsRest(f, s, h);
    AcceptedStep(f.setup, Step(f.setup, r, EventsOf(f, id, Get(h))[0]), BlockOf(f, h));
    hide Step, SafeToVote, MeetsConstraint, IsNew;
    MatchesRest(f, Act(f, s, Get(h)), Take(f, s, h), AfterAction(f, id, r, Get(h)).tree);
  }

  lemma AcceptedStep(setup: Setup, r: Replica, b: Block)
    requires Accepts(setup, r, b)
    ensures var r' := Step(setup, r, Proposal(b, true, true));
            && r'.tree == Process(r.tree, b) && r'.votes == r.votes + [Vote(b, r.tree.lockedQC, false)]
            && r'.currentView == AfterView(r.currentView, b.view) && r'.lastProposedView == r.lastProposedView
            && forall k | k in r'.seen :: k in r.seen || k == (b.view, b.leaderId)
  {
    hide Process, SafeToVote, MeetsConstraint, IsNew;
  }

  /** The tree part of a summary does not depend on its other parts. */
  lemma MatchesRest(f: Fork, s: Summary, s': Summary, t: TreeState)
    requires TreeMatches(f, t, s')
    requires s == s'.(currentView := s.currentView, proposedView := s.proposedView, seenViews := s.seenViews,
                      voted := s.voted)
    ensures TreeMatches(f, t, s)
  {
  }

  lemma BuildMatches(f: Fork, id: nat, held: bool, r: Replica, s: Summary, h: Hash)
    requires Rises(f) && Matches(f, r, s) && Fits(f, id, held, s, Build(h))
    ensures Matches(f, AfterAction(f, id, r, Build(h)), Act(f, s, Build(h)))
    ensures var r1 := Step(f.setup, r, EventsOf(f, id, Build(h))[0]);
            r1.tree == r.tree && r1.currentView > r1.lastProposedView && Built(r1, h, id) == BlockOf(f, h)
  {
    hide Process, Take, BlockOf, IsBlock, Below, ViewOf, CertificateOf;
    ViewsRise(f, h);
    CertificateViews(f, h);
    BlockNames(f, h);
    CertificateViewIs(f, s.high);
    var r1 := Step(f.setup, r, EventsOf(f, id, Build(h))[0]);
    assert r1 == r.(currentView := ViewOf(f, h));
    assert Built(r1, h, id) == BlockOf(f, h);
    TakeTree(f, r.tree, s, h);
    TakeKeepsRest(f, s, h);
    BuiltStep(f.setup, r1, h, id);
    hide Step, Built, TreeMatches;
    MatchesRest(f, Act(f, s, Build(h)), Take(f, s, h), AfterAction(f, id, r, Build(h)).tree);
  }

  lemma BuiltStep(setup: Setup, r: Replica, h: Hash, id: nat)
    requires r.currentView > r.lastProposedView
    ensures var r' := Step(setup, r, OwnProposal(h, id, true));
            && r'.tree == Process(r.tree, Built(r, h, id))
            && r'.votes == r.votes + [Vote(Built(r, h, id), r.tree.lockedQC, true)]
            && r'.currentView == r.currentView == r'.lastProposedView
            && forall k | k in r'.seen :: k in r.seen
  {
    hide Process, Built;
  }

  lemma CollectMatches(f: Fork, id: nat, r: Replica, s: Summary, h: Hash)
    requires Matches(f, r, s)
    ensures Matches(f, AfterAction(f, id, r, Collect(h)), Act(f, s, Collect(h)))
  {
    hide BlockOf, IsBlock, Below, ViewOf;
    CertificateViewIs(f, s.high);
    CertificateViewIs(f, Some(h));
  }

  lemma ActionMatches(f: Fork, id: nat, held: bool, r: Replica, s: Summary, a: Action)
    requires Rises(f) && Matches(f, r, s) && Fits(f, id, held, s, a)
    ensures Matches(f, AfterAction(f, id, r, a), Act(f, s, a))
  {
    hide Matches, Fits, AfterAction, Act;
    match a
    case Get(h) => GetMatches(f, id, held, r, s, h);
    case Build(h) => BuildMatches(f, id, held, r, s, h);
    case Collect(h) => CollectMatches(f, id, r, s, h);
  }

  // ---- plans ----

  function History(f: Fork, id: nat, plan: seq<Action>): seq<Event> {
    if plan == [] then [] else History(f, id, plan[..|plan| - 1]) + EventsOf(f, id, plan[|plan| - 1])
  }

  function Outcome(f: Fork, plan: seq<Action>): Summary {
    if plan == [] then NOTHING_KNOWN else Act(f, Outcome(f, plan[..|plan| - 1]), plan[|plan| - 1])
  }

  predicate Works(f: Fork, id: nat, held: bool, plan: seq<Action>) {
    plan != [] ==>
      var before := plan[..|plan| - 1];
      Works(f, id, held, before) && Fits(f, id, held, Outcome(f, before), plan[|plan| - 1])
  }

  lemma RunNext(setup: Setup, events: seq<Event>, e: Event)
    ensures Run(setup, events + [e]) == Step(setup, Run(setup, events), e)
  {
    hide Step;
    assert (events + [e])[..|events|] == events;
  }

  lemma RunAction(f: Fork, id: nat, events: seq<Event>, a: Action)
    ensures Run(f.setup, events + EventsOf(f, id, a)) == AfterAction(f, id, Run(f.setup, events), a)
  {
    hide Step, Run, BlockOf, CertificateOf;
    var more := EventsOf(f, id, a);
    RunNext(f.setup, events, more[0]);
    if a.Collect? {
      assert more == [more[0]];
    } else {
      RunNext(f.setup, events + [more[0]], more[1]);
      assert events + [more[0]] + [more[1]] == events + more;
    }
  }

  lemma {:induction false} PlanMatches(f: Fork, id: nat, held: bool, plan: seq<Action>)
    requires Rises(f) && Works(f, id, held, plan)
    ensures Matches(f, Run(f.setup, History(f, id, plan)), Outcome(f, plan))
  {
    if plan == [] {
      NothingKnownMatches(f);
    } else {
      hide Run, Act, Matches, AfterAction, Fits, EventsOf;
      var before, a := plan[..|plan| - 1], plan[|plan| - 1];
      PlanMatches(f, id, held, before);
      ActionMatches(f, id, held, Run(f.setup, History(f, id, before)), Outcome(f, before), a);
      RunAction(f, id, History(f, id, before), a);
    }
  }

  lemma NothingKnownMatches(f: Fork)
    ensures Matches(f, Run(f.setup, []), NOTHING_KNOWN)
  {
  }

  /** A plan works up to one more action if that fits. */
  lemma ThenAt(f: Fork, id: nat, held: bool, plan: seq<Action>, j: nat)
    requires j < |plan| && Works(f, id, held, plan[..j]) && Fits(f, id, held, Outcome(f, plan[..j]), plan[j])
    ensures Works(f, id, held, plan[..j + 1])
    ensures Outcome(f, plan[..j + 1]) == Act(f, Outcome(f, plan[..j]), plan[j])
  {
    hide Fits, Act;
    assert plan[..j + 1][..j] == plan[..j];
  }

  lemma NoPlan(f: Fork, id: nat, held: bool, plan: seq<Action>)
    ensures Works(f, id, held, plan[..0]) && Outcome(f, plan[..0]) == NOTHING_KNOWN
    ensures plan[..|plan|] == plan
  {
  }

  // ---- systems of replicas with plans ----

  ghost function Scheduled(f: Fork, plans: seq<seq<Action>>, faulty: set<nat>, held: bool): (sys: System)
    ensures sys.setup == f.setup && sys.faulty == faulty && sys.parentsHeld == held
    ensures |sys.histories| == |plans| && forall i | 0 <= i < |plans| :: sys.histories[i] == History(f, i, plans[i])
    ensures forall h: Hash :: sys.block(h) == BlockOf(f, h)
  {
    System(f.setup, seq(|plans|, i requires 0 <= i < |plans| => History(f, i, plans[i])), faulty, Blocks(f), held)
  }

  predicate AllWork(f: Fork, held: bool, plans: seq<seq<Action>>) {
    forall i: nat | i < |plans| :: Works(f, i, held, plans[i])
  }

  lemma PlanVotes(f: Fork, plans: seq<seq<Action>>, faulty: set<nat>, held: bool, r: nat, h: Hash)
    requires Rises(f) && AllWork(f, held, plans) && r < |plans| && h in Outcome(f, plans[r]).voted
    ensures Voted(Scheduled(f, plans, faulty, held), r, h)
  {
    hide Run, Works, Outcome, History, Scheduled;
    var sys := Scheduled(f, plans, faulty, held);
    PlanMatches(f, r, held, plans[r]);
    var k :| 0 <= k < |Outcome(f, plans[r]).voted| && Outcome(f, plans[r]).voted[k] == h;
    assert VotesOf(sys, r)[k].block == BlockOf(f, h);
    BlockHash(f, h);
  }

  lemma BlockHash(f: Fork, h: Hash)
    ensures BlockOf(f, h).hash == h
  {
  }

  /** If a quorum's plans vote for a block, it is certified. */
  lemma PlansCertify(f: Fork, plans: seq<seq<Action>>, faulty: set<nat>, held: bool, quorum: set<nat>, h: Hash)
    requires Rises(f) && AllWork(f, held, plans)
    requires quorum <= Range(|plans|) && |quorum| >= QuorumSize(|plans|)
    requires forall r | r in quorum :: h in Outcome(f, plans[r]).voted
    ensures HasQuorum(Scheduled(f, plans, faulty, held), h)
  {
    hide Works, Outcome, History, Voted, Scheduled, AllWork;
    var sys := Scheduled(f, plans, faulty, held);
    forall r | r in quorum ensures Voted(sys, r, h) {
      PlanVotes(f, plans, faulty, held, r, h);
    }
    assert IsQuorumFor(sys, quorum, h);
  }

  lemma {:induction false} HistoryPrefix(f: Fork, id: nat, plan: seq<Action>, j: nat)
    requires j <= |plan|
    ensures History(f, id, plan[..j]) <= History(f, id, plan)
  {
    hide EventsOf;
    if j < |plan| {
      HistoryPrefix(f, id, plan[..|plan| - 1], j);
      assert plan[..|plan| - 1][..j] == plan[..j];
    } else {
      assert plan[..j] == plan;
    }
  }

  lemma {:induction false} PrefixWorks(f: Fork, id: nat, held: bool, plan: seq<Action>, j: nat)
    requires Works(f, id, held, plan) && j <= |plan|
    ensures Works(f, id, held, plan[..j])
  {
    hide Fits;
    if j < |plan| {
      PrefixWorks(f, id, held, plan[..|plan| - 1], j);
      assert plan[..|plan| - 1][..j] == plan[..j];
    } else {
      assert plan[..j] == plan;
    }
  }

  /** A plan that builds a block makes the replica its author. */
  lemma PlanAuthors(f: Fork, plans: seq<seq<Action>>, faulty: set<nat>, held: bool, r: nat, j: nat)
    requires Rises(f) && AllWork(f, held, plans) && r < |plans| && j < |plans[r]| && plans[r][j].Build?
    ensures Authored(Scheduled(f, plans, faulty, held), BlockOf(f, plans[r][j].h))
  {
    hide Run, Fits, Matches, BlockOf, Scheduled, Built, Outcome;
    var plan, h := plans[r], plans[r][j].h;
    var sys, before := Scheduled(f, plans, faulty, held), History(f, r, plan[..j]);
    PrefixWorks(f, r, held, plan, j + 1);
    assert plan[..j + 1][..j] == plan[..j] && plan[..j + 1][j] == plan[j];
    PlanMatches(f, r, held, plan[..j]);
    BuildMatches(f, r, held, Run(f.setup, before), Outcome(f, plan[..j]), h);
    HistoryPrefix(f, r, plan, j + 1);
    var events, more := History(f, r, plan), EventsOf(f, r, Build(h));
    assert History(f, r, plan[..j + 1]) == before + more;
    RunNext(f.setup, before, more[0]);
    var k := |before| + 1;
    assert events[..k] == before + [more[0]] && events[k] == more[1];
    FitsLeader(f, r, held, Outcome(f, plan[..j]), h);
    assert MakesAt(sys.setup, sys.histories[r], k, BlockOf(f, h));
  }

  lemma FitsLeader(f: Fork, id: nat, held: bool, s: Summary, h: Hash)
    requires Fits(f, id, held, s, Build(h))
    ensures BlockOf(f, h).leaderId == id
  {
    BlockNames(f, h);
  }

  /** What an action needs of the system. */
  ghost predicate ActionSound(sys: System, f: Fork, h: Hash) {
    && HasQuorum(sys, h) && GenuineBlock(sys, BlockOf(f, h))
    && (BlockOf(f, h).leaderId !in sys.faulty ==> Authored(sys, BlockOf(f, h)))
  }

  lemma ActionIsSound(sys: System, f: Fork, id: nat, events: seq<Event>, s: Summary, a: Action)
    requires Rises(f) && sys.setup == f.setup && (forall h: Hash :: sys.block(h) == BlockOf(f, h))
    requires HistorySound(sys, id, events)
    requires Matches(f, Run(sys.setup, events), s) && Fits(f, id, sys.parentsHeld, s, a) && ActionSound(sys, f, a.h)
    ensures HistorySound(sys, id, events + EventsOf(f, id, a))
  {
    hide Run, HistorySound, BlockOf, Authored, HasQuorum, ViewOf, Below, Built;
    var r, more := Run(sys.setup, events), EventsOf(f, id, a);
    CertificateViews(f, a.h);
    CertificateViewIs(f, Some(a.h));
    if a.Collect? {
      SoundNext(sys, id, events, more[0]);
      assert more == [more[0]];
    } else {
      RunNext(sys.setup, events, more[0]);
      SoundNext(sys, id, events, more[0]);
      assert Step(sys.setup, r, more[0]).tree == r.tree;
      CertificateViewIs(f, Below(a.h));
      if a.Build? {
        BuildMatches(f, id, sys.parentsHeld, r, s, a.h);
      }
      SoundNext(sys, id, events + [more[0]], more[1]);
      assert events + [more[0]] + [more[1]] == events + more;
    }
  }

  lemma SoundNext(sys: System, id: nat, events: seq<Event>, e: Event)
    requires HistorySound(sys, id, events) && EventSound(sys, id, Run(sys.setup, events), e)
    ensures HistorySound(sys, id, events + [e])
  {
    hide EventSound, Run;
    var longer := events + [e];
    forall k | 0 <= k < |longer| ensures EventSound(sys, id, Run(sys.setup, longer[..k]), longer[k]) {
      if k < |events| {
        assert longer[..k] == events[..k] && longer[k] == events[k];
      } else {
        assert longer[..k] == events;
      }
    }
  }

  lemma {:induction false} PlanIsSound(sys: System, f: Fork, id: nat, plan: seq<Action>)
    requires Rises(f) && sys.setup == f.setup && (forall h: Hash :: sys.block(h) == BlockOf(f, h))
    requires Works(f, id, sys.parentsHeld, plan) && forall a | a in plan :: ActionSound(sys, f, a.h)
    ensures HistorySound(sys, id, History(f, id, plan))
  {
    if plan != [] {
      hide Run, HistorySound, BlockOf, ActionSound, Fits, Matches, EventsOf, Act;
      var before, a := plan[..|plan| - 1], plan[|plan| - 1];
      PlanIsSound(sys, f, id, before);
      PlanMatches(f, id, sys.parentsHeld, before);
      ActionIsSound(sys, f, id, History(f, id, before), Outcome(f, before), a);
    }
  }

  /** Blocks that are certified, with all below them, and built by their leaders. */
  ghost predicate WellUsed(sys: System, f: Fork, used: set<Hash>) {
    forall h | h in used ::
      && IsBlock(h) && (Below(h).Some? ==> Below(h).value in used) && HasQuorum(sys, h)
      && (f.setup.leader(ViewOf(f, h)) !in sys.faulty ==> Authored(sys, BlockOf(f, h)))
  }

  lemma UsedIsSound(sys: System, f: Fork, used: set<Hash>, h: Hash)
    requires Rises(f) && sys.setup == f.setup && (forall h: Hash :: sys.block(h) == BlockOf(f, h))
    requires WellUsed(sys, f, used) && h in used
    ensures ActionSound(sys, f, h)
  {
    hide HasQuorum, Authored, BlockOf;
    CertificateViews(f, h);
    BlockNames(f, h);
    CertificateViewIs(f, Below(h));
    if Below(h).Some? {
      CertificateViews(f, Below(h).value);
    }
  }

  lemma ScheduledIsPossible(f: Fork, plans: seq<seq<Action>>, faulty: set<nat>, held: bool, used: set<Hash>)
    requires Rises(f) && AllWork(f, held, plans)
    requires faulty <= Range(|plans|) && 3 * |faulty| < |plans|
    requires forall view: nat :: f.setup.leader(view) < |plans|
    requires forall r, a | 0 <= r < |plans| && a in plans[r] :: a.h in used
    requires WellUsed(Scheduled(f, plans, faulty, held), f, used)
    ensures Possible(Scheduled(f, plans, faulty, held))
  {
    hide Works, HistorySound, History, BlockOf, ActionSound, Scheduled, WellUsed;
    var sys := Scheduled(f, plans, faulty, held);
    forall h ensures sys.block(h).hash == h {
      BlockHash(f, h);
    }
    forall r: nat | r < |plans| ensures HistorySound(sys, r, sys.histories[r]) {
      forall a | a in plans[r] ensures ActionSound(sys, f, a.h) {
        UsedIsSound(sys, f, used, a.h);
      }
      PlanIsSound(sys, f, r, plans[r]);
    }
  }
}
