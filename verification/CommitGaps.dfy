/**
 When a committed block is final.  The commit rule of the block tree does not look at gaps between the
 views of a chain.  Systems whose leaders build every block themselves, on the highest certificate that
 has reached them, show that finality needs the chain to be without gaps, that the fast path does not
 give it, and that replicas have to hold what they vote to extend.  No replica is faulty, but for a
 leader on the fast path among more than six.

 Replica 0 leads the views of the chain, replica 1 those of the blocks beside it.
 */
module CommitGaps {
  import opened Wrappers
  import opened BlockTrees
  import opened Replicas
  import opened Finality
  import opened Schedules

  // ---- a fork with two leaders ----

  const FORKED: set<Hash> := {START, MIDDLE, OTHER, END}

  function TwoLeaders(start: nat, middle: nat, end: nat, other: nat, threshold: nat, signatures: nat): (f: Fork)
    ensures f.start == start && f.middle == middle && f.end == end && f.other == other
    ensures f.signatures == signatures && f.setup.fastPathThreshold == threshold
    ensures Led(f)
  {
    Fork(Setup((view: nat) => if view == other || view > end + 1 then 1 else 0, 0, threshold),
         start, middle, end, other, signatures)
  }

  ghost predicate Led(f: Fork) {
    forall view: nat :: f.setup.leader(view) == if view == f.other || view > f.end + 1 then 1 else 0
  }

  /** The block beside the chain comes right after the first block, in a gap before the second. */
  predicate GapBefore(f: Fork) {
    1 <= f.start && f.other == f.start + 1 < f.middle < f.end
  }

  /** It comes right after the second block, in a gap before the third. */
  predicate GapAfter(f: Fork) {
    1 <= f.start < f.middle && f.other == f.middle + 1 < f.end
  }

  /**
   All blocks up to the end of the chain.  The leader of the block beside it has not heard of the
   certificate of the first block when it builds its own; it takes the second block late, if need be.
   */
  function ForkPlan(f: Fork, id: nat): seq<Action> {
    if f.other < f.middle then PlanBefore(id) else PlanAfter(id)
  }

  function PlanBefore(id: nat): seq<Action> {
    if id == 0 then [Build(START), Collect(START), Get(OTHER), Build(MIDDLE), Collect(MIDDLE), Build(END)]
    else if id == 1 then [Get(START), Build(OTHER), Collect(OTHER), Get(MIDDLE), Get(END)]
    else [Get(START), Get(OTHER), Get(MIDDLE), Get(END)]
  }

  function PlanAfter(id: nat): seq<Action> {
    if id == 0 then [Build(START), Collect(START), Build(MIDDLE), Collect(MIDDLE), Get(OTHER), Build(END)]
    else if id == 1 then [Get(START), Build(OTHER), Get(MIDDLE), Collect(OTHER), Get(END)]
    else [Get(START), Get(MIDDLE), Get(OTHER), Get(END)]
  }

  function ForkPlans(f: Fork, n: nat): seq<seq<Action>> {
    seq(n, i requires 0 <= i < n => ForkPlan(f, i))
  }

  /** What the replica commits by itself when it takes the end of the chain: on the fast path, the first block. */
  function FastView(f: Fork): nat {
    if IsFast(f) then f.start else 0
  }

  function FastCommits(f: Fork): seq<Hash> {
    if IsFast(f) then [START] else []
  }

  /** What every replica knows in the end. */
  ghost predicate KnowsFork(f: Fork, s: Summary) {
    && START in s.hashes && MIDDLE in s.hashes && OTHER in s.hashes && END in s.hashes
    && (forall h: Hash | h in s.hashes :: h in FORKED)
    && START in s.voted && MIDDLE in s.voted && OTHER in s.voted && END in s.voted
    && s.locked == Some(START) && s.commitView == FastView(f) && s.committed == FastCommits(f)
  }

  /** And with the gap after the second block. */
  ghost predicate AfterFork(f: Fork, id: nat, s: Summary) {
    && KnowsFork(f, s)
    && s.high == Some(if id == 1 then OTHER else MIDDLE)
    && s.currentView == (if id == 0 then f.end else f.end + 1) && s.proposedView <= f.end
    && s.height == 3 && forall view | view in s.seenViews :: view <= f.end
  }

  /** What an action adds, apart from what the blocks below say. */
  function Added(f: Fork, s: Summary, a: Action): Summary {
    match a
    case Get(h) =>
      s.(hashes := s.hashes + {h}, voted := s.voted + [h], currentView := ViewOf(f, h) + 1,
         seenViews := s.seenViews + {ViewOf(f, h)}, height := Higher(s.height, HeightOf(f, h)))
    case Build(h) =>
      s.(hashes := s.hashes + {h}, voted := s.voted + [h], currentView := ViewOf(f, h), proposedView := ViewOf(f, h),
         height := HeightOf(f, h))
    case Collect(h) => s.(high := Some(h), currentView := ViewOf(f, h) + 1)
  }

  /** One action of a plan, from one summary to the next. */
  lemma StepTo(f: Fork, id: nat, plan: seq<Action>, j: nat, s: Summary, a: Action, s': Summary)
    requires j < |plan| && plan[j] == a && Works(f, id, true, plan[..j]) && Outcome(f, plan[..j]) == s
    requires Fits(f, id, true, s, a) && Act(f, s, a) == s'
    ensures Works(f, id, true, plan[..j + 1]) && Outcome(f, plan[..j + 1]) == s'
  {
    hide Works, Outcome, Fits, Act;
    ThenAt(f, id, true, plan, j);
  }

  lemma PlanBeforeIs(id: nat)
    ensures var plan := PlanBefore(id);
            if id == 0 then
              |plan| == 6 && plan[0] == Build(START) && plan[1] == Collect(START)
              && plan[2] == Get(OTHER) && plan[3] == Build(MIDDLE) && plan[4] == Collect(MIDDLE)
              && plan[5] == Build(END)
            else if id == 1 then
              |plan| == 5 && plan[0] == Get(START) && plan[1] == Build(OTHER)
              && plan[2] == Collect(OTHER) && plan[3] == Get(MIDDLE) && plan[4] == Get(END)
            else
              |plan| == 4 && plan[0] == Get(START) && plan[1] == Get(OTHER) && plan[2] == Get(MIDDLE)
              && plan[3] == Get(END)
  {
  }

  lemma PlanAfterIs(id: nat)
    ensures var plan := PlanAfter(id);
            if id == 0 then
              |plan| == 6 && plan[0] == Build(START) && plan[1] == Collect(START)
              && plan[2] == Build(MIDDLE) && plan[3] == Collect(MIDDLE) && plan[4] == Get(OTHER)
              && plan[5] == Build(END)
            else if id == 1 then
              |plan| == 5 && plan[0] == Get(START) && plan[1] == Build(OTHER) && plan[2] == Get(MIDDLE)
              && plan[3] == Collect(OTHER) && plan[4] == Get(END)
            else
              |plan| == 4 && plan[0] == Get(START) && plan[1] == Get(MIDDLE) && plan[2] == Get(OTHER)
              && plan[3] == Get(END)
  {
  }

  lemma ForkIs(f: Fork)
    ensures ViewOf(f, START) == f.start && ViewOf(f, MIDDLE) == f.middle && ViewOf(f, END) == f.end
    ensures ViewOf(f, AFTER_END) == f.end + 1 && ViewOf(f, OTHER) == f.other
    ensures forall h | ON_OTHER <= h <= LAST :: ViewOf(f, h) == f.end + 2 + h - ON_OTHER
    ensures HeightOf(f, START) == 1 && HeightOf(f, OTHER) == 2
    ensures var more := if f.other < f.middle then 1 else 0;
            && HeightOf(f, MIDDLE) == 2 + more && HeightOf(f, END) == 3 + more && HeightOf(f, AFTER_END) == 4 + more
            && forall h | ON_OTHER <= h <= LAST :: HeightOf(f, h) == h - 2 + more
    ensures Below(START) == None && Below(OTHER) == None
    ensures forall h | IsBlock(h) && h != START && h != OTHER :: Below(h) == Some(h - 1)
  {
  }

  /** Taking a block on which no lock depends. */
  lemma TakeLow(f: Fork, s: Summary, h: Hash)
    requires h == START || h == OTHER || h == MIDDLE || h == ON_OTHER
    ensures Take(f, s, h)
            == s.(hashes := s.hashes + {h}, voted := s.voted + [h], height := Higher(s.height, HeightOf(f, h)),
                  high := if ViewUpTo(f, Below(h)) > ViewUpTo(f, s.high) then Below(h) else s.high)
  {
  }

  /** Taking a block of whose branch the three blocks before it are known, as far as there are any. */
  lemma TakeDeep(f: Fork, s: Summary, h: Hash)
    requires h == END || h == AFTER_END || h == ON_OTHER + 1 || h == LAST
    requires h - 1 in s.hashes && h - 2 in s.hashes && (h == AFTER_END || h == LAST ==> h - 3 in s.hashes)
    ensures Second(s.hashes + {h}, h) == Some(h - 2)
    ensures Third(s.hashes + {h}, h) == if h == AFTER_END || h == LAST then Some(h - 3) else None
    ensures Take(f, s, h)
            == var fast := IsFast(f) && ViewOf(f, h - 2) > s.commitView;
               var commitView := if fast then ViewOf(f, h - 2) else s.commitView;
               var commits := (h == AFTER_END || h == LAST) && ViewOf(f, h - 3) > commitView;
               s.(hashes := s.hashes + {h}, voted := s.voted + [h], height := Higher(s.height, HeightOf(f, h)),
                  high := if ViewOf(f, h - 1) > ViewUpTo(f, s.high) then Some(h - 1) else s.high,
                  locked := if ViewOf(f, h - 2) > ViewUpTo(f, s.locked) then Some(h - 2) else s.locked,
                  commitView := if commits then ViewOf(f, h - 3) else commitView,
                  committed := (if fast then s.committed + [h - 2] else s.committed)
                               + (if commits then [h - 3] else []))
  {
  }

  lemma ChainPlanBeforeWorks(f: Fork)
    requires Led(f) && GapBefore(f)
    ensures Works(f, 0, true, PlanBefore(0)) && KnowsFork(f, Outcome(f, PlanBefore(0)))
  {
    hide Works, Outcome, PlanBefore, Take, First, Second, Third, Known, ViewOf, HeightOf, Below;
    ForkIs(f);
    PlanBeforeIs(0);
    var plan := PlanBefore(0);
    NoPlan(f, 0, true, plan);
    var s1 := Added(f, NOTHING_KNOWN, Build(START));
    TakeLow(f, NOTHING_KNOWN, START);
    StepTo(f, 0, plan, 0, NOTHING_KNOWN, Build(START), s1);
    var s2 := Added(f, s1, Collect(START));
    StepTo(f, 0, plan, 1, s1, Collect(START), s2);
    var s3 := Added(f, s2, Get(OTHER));
    TakeLow(f, s2, OTHER);
    StepTo(f, 0, plan, 2, s2, Get(OTHER), s3);
    var s4 := Added(f, s3, Build(MIDDLE));
    TakeLow(f, s3, MIDDLE);
    StepTo(f, 0, plan, 3, s3, Build(MIDDLE), s4);
    var s5 := Added(f, s4, Collect(MIDDLE));
    StepTo(f, 0, plan, 4, s4, Collect(MIDDLE), s5);
    var s6 := Added(f, s5, Build(END))
           .(locked := Some(START), commitView := FastView(f), committed := FastCommits(f));
    TakeDeep(f, s5, END);
    StepTo(f, 0, plan, 5, s5, Build(END), s6);
  }

  lemma OtherPlanBeforeWorks(f: Fork)
    requires Led(f) && GapBefore(f)
    ensures Works(f, 1, true, PlanBefore(1)) && KnowsFork(f, Outcome(f, PlanBefore(1)))
  {
    hide Works, Outcome, PlanBefore, Take, First, Second, Third, Known, ViewOf, HeightOf, Below;
    ForkIs(f);
    PlanBeforeIs(1);
    var plan := PlanBefore(1);
    NoPlan(f, 1, true, plan);
    var s1 := Added(f, NOTHING_KNOWN, Get(START));
    TakeLow(f, NOTHING_KNOWN, START);
    StepTo(f, 1, plan, 0, NOTHING_KNOWN, Get(START), s1);
    var s2 := Added(f, s1, Build(OTHER));
    TakeLow(f, s1, OTHER);
    StepTo(f, 1, plan, 1, s1, Build(OTHER), s2);
    var s3 := Added(f, s2, Collect(OTHER));
    StepTo(f, 1, plan, 2, s2, Collect(OTHER), s3);
    var s4 := Added(f, s3, Get(MIDDLE));
    TakeLow(f, s3, MIDDLE);
    StepTo(f, 1, plan, 3, s3, Get(MIDDLE), s4);
    var s5 := Added(f, s4, Get(END))
           .(high := Some(MIDDLE), locked := Some(START), commitView := FastView(f), committed := FastCommits(f));
    TakeDeep(f, s4, END);
    StepTo(f, 1, plan, 4, s4, Get(END), s5);
  }

  lemma FollowerPlanBeforeWorks(f: Fork, id: nat)
    requires Led(f) && GapBefore(f) && id >= 2
    ensures Works(f, id, true, PlanBefore(id)) && KnowsFork(f, Outcome(f, PlanBefore(id)))
  {
    hide Works, Outcome, PlanBefore, Take, First, Second, Third, Known, ViewOf, HeightOf, Below;
    ForkIs(f);
    PlanBeforeIs(id);
    var plan := PlanBefore(id);
    NoPlan(f, id, true, plan);
    var s1 := Added(f, NOTHING_KNOWN, Get(START));
    TakeLow(f, NOTHING_KNOWN, START);
    StepTo(f, id, plan, 0, NOTHING_KNOWN, Get(START), s1);
    var s2 := Added(f, s1, Get(OTHER));
    TakeLow(f, s1, OTHER);
    StepTo(f, id, plan, 1, s1, Get(OTHER), s2);
    var s3 := Added(f, s2, Get(MIDDLE)).(high := Some(START));
    TakeLow(f, s2, MIDDLE);
    StepTo(f, id, plan, 2, s2, Get(MIDDLE), s3);
    var s4 := Added(f, s3, Get(END))
           .(high := Some(MIDDLE), locked := Some(START), commitView := FastView(f), committed := FastCommits(f));
    TakeDeep(f, s3, END);
    StepTo(f, id, plan, 3, s3, Get(END), s4);
  }

  lemma ChainPlanAfterWorks(f: Fork)
    requires Led(f) && GapAfter(f)
    ensures Works(f, 0, true, PlanAfter(0)) && AfterFork(f, 0, Outcome(f, PlanAfter(0)))
  {
    hide Works, Outcome, PlanAfter, Take, First, Second, Third, Known, ViewOf, HeightOf, Below;
    ForkIs(f);
    PlanAfterIs(0);
    var plan := PlanAfter(0);
    NoPlan(f, 0, true, plan);
    var s1 := Added(f, NOTHING_KNOWN, Build(START));
    TakeLow(f, NOTHING_KNOWN, START);
    StepTo(f, 0, plan, 0, NOTHING_KNOWN, Build(START), s1);
    var s2 := Added(f, s1, Collect(START));
    StepTo(f, 0, plan, 1, s1, Collect(START), s2);
    var s3 := Added(f, s2, Build(MIDDLE));
    TakeLow(f, s2, MIDDLE);
    StepTo(f, 0, plan, 2, s2, Build(MIDDLE), s3);
    var s4 := Added(f, s3, Collect(MIDDLE));
    StepTo(f, 0, plan, 3, s3, Collect(MIDDLE), s4);
    var s5 := Added(f, s4, Get(OTHER));
    TakeLow(f, s4, OTHER);
    StepTo(f, 0, plan, 4, s4, Get(OTHER), s5);
    var s6 := Added(f, s5, Build(END))
           .(locked := Some(START), commitView := FastView(f), committed := FastCommits(f));
    TakeDeep(f, s5, END);
    StepTo(f, 0, plan, 5, s5, Build(END), s6);
  }

  lemma OtherPlanAfterWorks(f: Fork)
    requires Led(f) && GapAfter(f)
    ensures Works(f, 1, true, PlanAfter(1)) && AfterFork(f, 1, Outcome(f, PlanAfter(1)))
  {
    hide Works, Outcome, PlanAfter, Take, First, Second, Third, Known, ViewOf, HeightOf, Below;
    ForkIs(f);
    PlanAfterIs(1);
    var plan := PlanAfter(1);
    NoPlan(f, 1, true, plan);
    var s1 := Added(f, NOTHING_KNOWN, Get(START));
    TakeLow(f, NOTHING_KNOWN, START);
    StepTo(f, 1, plan, 0, NOTHING_KNOWN, Get(START), s1);
    var s2 := Added(f, s1, Build(OTHER));
    TakeLow(f, s1, OTHER);
    StepTo(f, 1, plan, 1, s1, Build(OTHER), s2);
    var s3 := Added(f, s2, Get(MIDDLE)).(high := Some(START), currentView := f.other);
    TakeLow(f, s2, MIDDLE);
    StepTo(f, 1, plan, 2, s2, Get(MIDDLE), s3);
    var s4 := Added(f, s3, Collect(OTHER));
    StepTo(f, 1, plan, 3, s3, Collect(OTHER), s4);
    var s5 := Added(f, s4, Get(END)).(locked := Some(START), commitView := FastView(f), committed := FastCommits(f));
    TakeDeep(f, s4, END);
    StepTo(f, 1, plan, 4, s4, Get(END), s5);
  }

  lemma FollowerPlanAfterWorks(f: Fork, id: nat)
    requires Led(f) && GapAfter(f) && id >= 2
    ensures Works(f, id, true, PlanAfter(id)) && AfterFork(f, id, Outcome(f, PlanAfter(id)))
  {
    hide Works, Outcome, PlanAfter, Take, First, Second, Third, Known, ViewOf, HeightOf, Below;
    ForkIs(f);
    PlanAfterIs(id);
    var plan := PlanAfter(id);
    NoPlan(f, id, true, plan);
    var s1 := Added(f, NOTHING_KNOWN, Get(START));
    TakeLow(f, NOTHING_KNOWN, START);
    StepTo(f, id, plan, 0, NOTHING_KNOWN, Get(START), s1);
    var s2 := Added(f, s1, Get(MIDDLE)).(high := Some(START));
    TakeLow(f, s1, MIDDLE);
    StepTo(f, id, plan, 1, s1, Get(MIDDLE), s2);
    var s3 := Added(f, s2, Get(OTHER));
    TakeLow(f, s2, OTHER);
    StepTo(f, id, plan, 2, s2, Get(OTHER), s3);
    var s4 := Added(f, s3, Get(END))
           .(high := Some(MIDDLE), locked := Some(START), commitView := FastView(f), committed := FastCommits(f));
    TakeDeep(f, s3, END);
    StepTo(f, id, plan, 3, s3, Get(END), s4);
  }

  lemma ForkPlanWorks(f: Fork, id: nat)
    requires Led(f) && (GapBefore(f) || GapAfter(f))
    ensures Works(f, id, true, ForkPlan(f, id)) && KnowsFork(f, Outcome(f, ForkPlan(f, id)))
    ensures GapAfter(f) ==> AfterFork(f, id, Outcome(f, ForkPlan(f, id)))
  {
    hide Works, Outcome, PlanBefore, PlanAfter;
    if GapBefore(f) {
      if id == 0 {
        ChainPlanBeforeWorks(f);
      } else if id == 1 {
        OtherPlanBeforeWorks(f);
      } else {
        FollowerPlanBeforeWorks(f, id);
      }
    } else if id == 0 {
      ChainPlanAfterWorks(f);
    } else if id == 1 {
      OtherPlanAfterWorks(f);
    } else {
      FollowerPlanAfterWorks(f, id);
    }
  }

  // ---- the system of all replicas ----

  ghost function Forked(f: Fork, n: nat, faulty: set<nat>): System {
    Scheduled(f, ForkPlans(f, n), faulty, true)
  }

  lemma ForkPlansWork(f: Fork, n: nat)
    requires Led(f) && (GapBefore(f) || GapAfter(f))
    ensures AllWork(f, true, ForkPlans(f, n))
    ensures forall r: nat | r < n :: KnowsFork(f, Outcome(f, ForkPlans(f, n)[r]))
  {
    hide Works, Outcome, ForkPlan, KnowsFork;
    forall r: nat | r < n
      ensures Works(f, r, true, ForkPlans(f, n)[r]) && KnowsFork(f, Outcome(f, ForkPlans(f, n)[r]))
    {
      ForkPlanWorks(f, r);
    }
  }

  lemma QuorumOfAll(n: nat)
    requires n >= 1
    ensures |Range(n)| >= QuorumSize(n)
  {
  }

  lemma ForkCertifies(f: Fork, n: nat, faulty: set<nat>, h: Hash)
    requires Led(f) && (GapBefore(f) || GapAfter(f)) && n >= 1
    requires h == START || h == MIDDLE || h == OTHER || h == END
    ensures HasQuorum(Forked(f, n, faulty), h)
  {
    hide Works, Outcome, ForkPlan, HasQuorum, Scheduled, Range, QuorumSize, GapBefore, GapAfter;
    ForkPlansWork(f, n);
    QuorumOfAll(n);
    assert Rises(f) by {
      GapsRise(f);
    }
    PlansCertify(f, ForkPlans(f, n), faulty, true, Range(n), h);
  }

  lemma GapsRise(f: Fork)
    requires GapBefore(f) || GapAfter(f)
    ensures Rises(f)
  {
  }

  /** Each block is built by the leader of its view. */
  lemma ForkAuthors(f: Fork, n: nat, faulty: set<nat>, h: Hash)
    requires Led(f) && (GapBefore(f) || GapAfter(f)) && n >= 2
    requires h == START || h == MIDDLE || h == OTHER || h == END
    ensures Authored(Forked(f, n, faulty), BlockOf(f, h))
  {
    hide Works, Outcome, Authored, Scheduled, BlockOf;
    ForkPlansWork(f, n);
    var plans := ForkPlans(f, n);
    if h == OTHER {
      PlanAuthors(f, plans, faulty, true, 1, 1);
    } else {
      var j := if h == START then 0 else if h == END then 5 else if f.other < f.middle then 3 else 2;
      assert plans[0][j] == Build(h);
      PlanAuthors(f, plans, faulty, true, 0, j);
    }
  }

  lemma ForkUses(f: Fork, n: nat)
    ensures forall r, a | 0 <= r < n && a in ForkPlans(f, n)[r] :: a.h in FORKED
  {
  }

  lemma ChainIsBuilt(f: Fork, sys: System, h: Hash)
    requires Rises(f) && IsBlock(h) && Below(h).Some?
    requires forall h: Hash :: sys.block(h) == BlockOf(f, h)
    ensures BuiltOn(sys, h, Below(h).value)
  {
    hide ViewOf;
  }

  /** Three certified blocks, each built on the one before. */
  lemma ChainIsCertified(f: Fork, sys: System)
    requires Rises(f) && (forall h: Hash :: sys.block(h) == BlockOf(f, h)) && WellUsed(sys, f, FORKED)
    ensures ThreeChain(sys, START, MIDDLE, END) && HasQuorum(sys, OTHER)
  {
    hide Authored, HasQuorum, BlockOf, BuiltOn;
    ChainIsBuilt(f, sys, MIDDLE);
    ChainIsBuilt(f, sys, END);
  }

  lemma ForkIsUsed(f: Fork, n: nat, faulty: set<nat>)
    requires Led(f) && (GapBefore(f) || GapAfter(f)) && n >= 2
    ensures WellUsed(Forked(f, n, faulty), f, FORKED)
  {
    hide Authored, Scheduled, HasQuorum, BlockOf, Led, GapBefore, GapAfter, ForkPlans;
    forall h | h in FORKED
      ensures HasQuorum(Forked(f, n, faulty), h) && Authored(Forked(f, n, faulty), BlockOf(f, h))
    {
      ForkCertifies(f, n, faulty, h);
      ForkAuthors(f, n, faulty, h);
    }
  }

  lemma LeadersAreTwo(f: Fork, n: nat)
    requires Led(f) && n >= 2
    ensures forall view: nat :: f.setup.leader(view) < n
  {
  }

  /** The system can happen, and it certifies the chain as well as the block beside it. */
  lemma ForkHappens(f: Fork, n: nat, faulty: set<nat>)
    requires Led(f) && (GapBefore(f) || GapAfter(f)) && n >= 2
    requires faulty <= {0} && 3 * |faulty| < n
    ensures Complete(Forked(f, n, faulty))
    ensures ThreeChain(Forked(f, n, faulty), START, MIDDLE, END) && HasQuorum(Forked(f, n, faulty), OTHER)
  {
    hide Scheduled, HasQuorum, ThreeChain, Possible, WellUsed, Led, GapBefore, GapAfter, ForkPlan, AllWork, KnowsFork;
    ForkPlansWork(f, n);
    GapsRise(f);
    ForkUses(f, n);
    LeadersAreTwo(f, n);
    ForkIsUsed(f, n, faulty);
    ScheduledIsPossible(f, ForkPlans(f, n), faulty, true, FORKED);
    ChainIsCertified(f, Forked(f, n, faulty));
  }

  // ---- beside each other ----

  lemma {:induction false} RootLeadsNowhere(f: Fork, sys: System, h: Hash, k: nat)
    requires forall h: Hash :: sys.block(h) == BlockOf(f, h)
    requires h == START || h == OTHER
    ensures Ascend(sys.block, Some(h), k) == if k == 0 then Some(h) else if k == 1 then Some(ZERO_HASH) else None
  {
    if k > 0 {
      RootLeadsNowhere(f, sys, h, k - 1);
    }
  }

  lemma BesideEachOther(f: Fork, sys: System)
    requires forall h: Hash :: sys.block(h) == BlockOf(f, h)
    ensures !Descends(sys, OTHER, START) && !Descends(sys, START, OTHER)
  {
    forall k: nat
      ensures Ascend(sys.block, Some(OTHER), k) != Some(START) && Ascend(sys.block, Some(START), k) != Some(OTHER)
    {
      RootLeadsNowhere(f, sys, OTHER, k);
      RootLeadsNowhere(f, sys, START, k);
    }
  }

  // ---- finality needs a chain without gaps ----

  /**
   Among n replicas, a block is final when three blocks from it on are certified in these views: whatever
   happens, every block certified in its view or later descends from it.
   */
  ghost predicate FinalAt(n: nat, start: nat, middle: nat, end: nat) {
    forall sys: System, h0: Hash, h1: Hash, h2: Hash, h: Hash
      | && |sys.histories| == n && Complete(sys) && ThreeChain(sys, h0, h1, h2) && HasQuorum(sys, h)
        && sys.block(h0).view == start && sys.block(h1).view == middle && sys.block(h2).view == end
        && sys.block(h).view >= start
      :: Descends(sys, h, h0)
  }

  /** The fork of a chain with a gap; certificates have the signatures of a quorum. */
  function GapFork(n: nat, start: nat, middle: nat, end: nat): Fork {
    TwoLeaders(start, middle, end, if middle > start + 1 then start + 1 else middle + 1, n * 9 / 10, QuorumSize(n))
  }

  /** A chain of three makes its first block final exactly if its views are consecutive. */
  lemma FinalIffConsecutive(n: nat, start: nat, middle: nat, end: nat)
    requires n >= 2 && 1 <= start < middle < end
    ensures FinalAt(n, start, middle, end) <==> middle == start + 1 && end == start + 2
  {
    hide Complete, HasQuorum, Descends, Scheduled;
    if middle == start + 1 && end == start + 2 {
      forall sys: System, h0: Hash, h1: Hash, h2: Hash, h: Hash
        | && |sys.histories| == n && Complete(sys) && ThreeChain(sys, h0, h1, h2) && HasQuorum(sys, h)
          && sys.block(h0).view == start && sys.block(h1).view == middle && sys.block(h2).view == end
          && sys.block(h).view >= start
        ensures Descends(sys, h, h0)
      {
        CertifiedDescends(sys, h0, h1, h2, h);
      }
    } else {
      hide ThreeChain;
      var f := GapFork(n, start, middle, end);
      var sys := Forked(f, n, {});
      ForkHappens(f, n, {});
      BesideEachOther(f, sys);
      assert sys.block(START).view == start && sys.block(MIDDLE).view == middle && sys.block(END).view == end;
      assert sys.block(OTHER).view >= start;
    }
  }

  // ---- the fast path ----

  /**
   The fork in which all replicas commit its first block on the fast path.  Up to six replicas a quorum
   has the signatures that takes; of more, the leader has to gather more than a quorum.
   */
  function FastFork(n: nat, start: nat, middle: nat): Fork {
    TwoLeaders(start, middle, middle + 2, middle + 1, n * 9 / 10, if n <= 6 then QuorumSize(n) else n)
  }

  lemma PlanCommits(f: Fork, n: nat, faulty: set<nat>, r: nat)
    requires Led(f) && (GapBefore(f) || GapAfter(f)) && r < n && IsFast(f)
    ensures CommittedBy(Forked(f, n, faulty), r) == [BlockOf(f, START)]
  {
    hide Works, Outcome, ForkPlan, Run, Scheduled, BlockOf;
    ForkPlansWork(f, n);
    GapsRise(f);
    PlanMatches(f, r, true, ForkPlans(f, n)[r]);
  }

  /**
   A block committed on the fast path is not final in any views: all replicas commit it, and a later
   certified block does not descend from it.  Up to six replicas that takes no fault.
   */
  lemma FastCommitNotFinal(n: nat, start: nat, middle: nat)
    requires n >= 2 && 1 <= start < middle
    ensures var sys := Forked(FastFork(n, start, middle), n, if n <= 6 then {} else {0});
            && Complete(sys) && |sys.histories| == n && sys.setup.fastPathThreshold == n * 9 / 10
            && (forall r: nat | r < n :: CommittedBy(sys, r) == [sys.block(START)])
            && sys.block(START).view == start && sys.block(MIDDLE).view == middle && BuiltOn(sys, MIDDLE, START)
            && HasQuorum(sys, OTHER) && sys.block(OTHER).view > middle
            && !Descends(sys, OTHER, START)
  {
    hide Complete, HasQuorum, Descends, Scheduled, Run;
    var f, faulty: set<nat> := FastFork(n, start, middle), if n <= 6 then {} else {0};
    var sys := Forked(f, n, faulty);
    ForkHappens(f, n, faulty);
    BesideEachOther(f, sys);
    forall r: nat | r < n ensures CommittedBy(sys, r) == [sys.block(START)] {
      PlanCommits(f, n, faulty, r);
    }
  }

  // ---- and with a gap, blocks of two branches can be committed ----

  /**
   The leader of the chain goes on with it, and its first block is committed; the leader beside it goes on
   with its own block, whose certificate is newer than all locks.
   */
  function MorePlan(id: nat): seq<Action> {
    if id == 0 then [Collect(END), Build(AFTER_END), Get(ON_OTHER), Get(ON_OTHER + 1), Get(LAST)]
    else if id == 1 then
      [Build(ON_OTHER), Get(AFTER_END), Collect(ON_OTHER), Build(ON_OTHER + 1), Collect(ON_OTHER + 1), Build(LAST)]
    else [Get(AFTER_END), Get(ON_OTHER), Get(ON_OTHER + 1), Get(LAST)]
  }

  function LongPlan(id: nat): seq<Action> {
    PlanAfter(id) + MorePlan(id)
  }

  /** Both first blocks are committed, and every block is voted for. */
  predicate CommitsBoth(s: Summary) {
    && START in s.committed && OTHER in s.committed
    && forall h: Hash | START <= h <= LAST :: h in s.voted
  }

  lemma LongPlanIs(id: nat)
    ensures var plan := LongPlan(id);
            if id == 0 then
              |plan| == 11 && plan[0] == Build(START) && plan[1] == Collect(START)
              && plan[2] == Build(MIDDLE) && plan[3] == Collect(MIDDLE) && plan[4] == Get(OTHER)
              && plan[5] == Build(END) && plan[6] == Collect(END) && plan[7] == Build(AFTER_END)
              && plan[8] == Get(ON_OTHER) && plan[9] == Get(ON_OTHER + 1) && plan[10] == Get(LAST)
            else if id == 1 then
              |plan| == 11 && plan[0] == Get(START) && plan[1] == Build(OTHER)
              && plan[2] == Get(MIDDLE) && plan[3] == Collect(OTHER) && plan[4] == Get(END)
              && plan[5] == Build(ON_OTHER) && plan[6] == Get(AFTER_END) && plan[7] == Collect(ON_OTHER)
              && plan[8] == Build(ON_OTHER + 1) && plan[9] == Collect(ON_OTHER + 1)
              && plan[10] == Build(LAST)
            else
              |plan| == 8 && plan[0] == Get(START) && plan[1] == Get(MIDDLE) && plan[2] == Get(OTHER)
              && plan[3] == Get(END) && plan[4] == Get(AFTER_END) && plan[5] == Get(ON_OTHER)
              && plan[6] == Get(ON_OTHER + 1) && plan[7] == Get(LAST)
  {
  }

  /** The long plan up to the end of the short one. */
  lemma LongPlanStarts(f: Fork, id: nat)
    requires Led(f) && GapAfter(f)
    ensures LongPlan(id)[..|PlanAfter(id)|] == PlanAfter(id)
    ensures Works(f, id, true, PlanAfter(id)) && AfterFork(f, id, Outcome(f, PlanAfter(id)))
  {
    hide Works, Outcome, PlanAfter, MorePlan, KnowsFork, AfterFork;
    ForkPlanWorks(f, id);
    assert LongPlan(id)[..|PlanAfter(id)|] == PlanAfter(id);
  }

  function ChainView(f: Fork): nat {
    if IsFast(f) then f.middle else f.start
  }

  function ChainCommits(f: Fork): seq<Hash> {
    if IsFast(f) then [START, MIDDLE] else [START]
  }

  function OtherCommits(f: Fork): seq<Hash> {
    if IsFast(f) then [START, MIDDLE, OTHER] else [START]
  }

  function LastCommits(f: Fork): seq<Hash> {
    if IsFast(f) then [START, MIDDLE, OTHER, ON_OTHER] else [START, OTHER]
  }

  /** The first commit is made, and the block that follows the one beside the chain is there. */
  ghost predicate BothBegun(f: Fork, id: nat, s: Summary) {
    && (forall h: Hash | START <= h <= ON_OTHER :: h in s.hashes && h in s.voted)
    && (forall h: Hash | h > ON_OTHER :: h !in s.hashes)
    && s.locked == Some(MIDDLE) && s.commitView == ChainView(f) && s.committed == ChainCommits(f)
    && s.high == Some(if id == 1 then ON_OTHER else END)
    && s.currentView == f.end + 3 && s.proposedView <= f.end + 2
    && s.height == 4 && forall view | view in s.seenViews :: view <= f.end + 2
  }

  lemma LongChainBegins(f: Fork)
    requires Led(f) && GapAfter(f)
    ensures var plan, j := LongPlan(0), |PlanAfter(0)| + 3;
            Works(f, 0, true, plan[..j]) && BothBegun(f, 0, Outcome(f, plan[..j]))
  {
    hide Works, Outcome, LongPlan, PlanAfter, Take, First, Second, Third, Known, ViewOf, HeightOf, Below;
    ForkIs(f);
    LongPlanIs(0);
    PlanAfterIs(0);
    LongPlanStarts(f, 0);
    var plan, m := LongPlan(0), |PlanAfter(0)|;
    var s := Outcome(f, PlanAfter(0));
    var s1 := Added(f, s, Collect(END));
    StepTo(f, 0, plan, m, s, Collect(END), s1);
    var s2 := Added(f, s1, Build(AFTER_END))
           .(locked := Some(MIDDLE), commitView := ChainView(f), committed := ChainCommits(f));
    TakeDeep(f, s1, AFTER_END);
    StepTo(f, 0, plan, m + 1, s1, Build(AFTER_END), s2);
    var s3 := Added(f, s2, Get(ON_OTHER));
    TakeLow(f, s2, ON_OTHER);
    StepTo(f, 0, plan, m + 2, s2, Get(ON_OTHER), s3);
  }

  lemma LongOtherBegins(f: Fork)
    requires Led(f) && GapAfter(f)
    ensures var plan, j := LongPlan(1), |PlanAfter(1)| + 3;
            Works(f, 1, true, plan[..j]) && BothBegun(f, 1, Outcome(f, plan[..j]))
  {
    hide Works, Outcome, LongPlan, PlanAfter, Take, First, Second, Third, Known, ViewOf, HeightOf, Below;
    ForkIs(f);
    LongPlanIs(1);
    PlanAfterIs(1);
    LongPlanStarts(f, 1);
    var plan, m := LongPlan(1), |PlanAfter(1)|;
    var s := Outcome(f, PlanAfter(1));
    var s1 := Added(f, s, Build(ON_OTHER));
    TakeLow(f, s, ON_OTHER);
    StepTo(f, 1, plan, m, s, Build(ON_OTHER), s1);
    var s2 := Added(f, s1, Get(AFTER_END))
           .(high := Some(END), locked := Some(MIDDLE), commitView := ChainView(f), committed := ChainCommits(f));
    TakeDeep(f, s1, AFTER_END);
    StepTo(f, 1, plan, m + 1, s1, Get(AFTER_END), s2);
    var s3 := Added(f, s2, Collect(ON_OTHER));
    StepTo(f, 1, plan, m + 2, s2, Collect(ON_OTHER), s3);
  }

  lemma LongFollowerBegins(f: Fork, id: nat)
    requires Led(f) && GapAfter(f) && id >= 2
    ensures var plan, j := LongPlan(id), |PlanAfter(id)| + 2;
            Works(f, id, true, plan[..j]) && BothBegun(f, id, Outcome(f, plan[..j]))
  {
    hide Works, Outcome, LongPlan, PlanAfter, Take, First, Second, Third, Known, ViewOf, HeightOf, Below;
    ForkIs(f);
    LongPlanIs(id);
    PlanAfterIs(id);
    LongPlanStarts(f, id);
    var plan, m := LongPlan(id), |PlanAfter(id)|;
    var s := Outcome(f, PlanAfter(id));
    var s1 := Added(f, s, Get(AFTER_END))
           .(high := Some(END), locked := Some(MIDDLE), commitView := ChainView(f), committed := ChainCommits(f));
    TakeDeep(f, s, AFTER_END);
    StepTo(f, id, plan, m, s, Get(AFTER_END), s1);
    var s2 := Added(f, s1, Get(ON_OTHER));
    TakeLow(f, s1, ON_OTHER);
    StepTo(f, id, plan, m + 1, s1, Get(ON_OTHER), s2);
  }

  /** The block after it locks the one beside the chain, and commits it if the path is fast. */
  lemma LocksOther(f: Fork, id: nat, s: Summary)
    requires GapAfter(f) && BothBegun(f, id, s)
    ensures Take(f, s, ON_OTHER + 1)
            == s.(hashes := s.hashes + {ON_OTHER + 1}, voted := s.voted + [ON_OTHER + 1],
                  height := Higher(s.height, HeightOf(f, ON_OTHER + 1)), high := Some(ON_OTHER),
                  locked := Some(OTHER), commitView := if IsFast(f) then f.other else f.start,
                  committed := OtherCommits(f))
  {
    hide Take, IsFast, First, Second, Third, Known, ViewOf, HeightOf, Below;
    ForkIs(f);
    TakeDeep(f, s, ON_OTHER + 1);
  }

  lemma LongPlanEnds(f: Fork, id: nat, plan: seq<Action>, m: nat)
    requires Led(f) && GapAfter(f) && id != 1
    requires |plan| == m + 2 && plan[m] == Get(ON_OTHER + 1) && plan[m + 1] == Get(LAST)
    requires Works(f, id, true, plan[..m]) && BothBegun(f, id, Outcome(f, plan[..m]))
    ensures Works(f, id, true, plan) && CommitsBoth(Outcome(f, plan))
  {
    hide Works, Outcome, IsFast, Take, First, Second, Third, Known, ViewOf, HeightOf, Below;
    ForkIs(f);
    NoPlan(f, id, true, plan);
    var s := Outcome(f, plan[..m]);
    var s1 := Added(f, s, Get(ON_OTHER + 1))
           .(high := Some(ON_OTHER), locked := Some(OTHER), commitView := if IsFast(f) then f.other else f.start,
             committed := OtherCommits(f));
    LocksOther(f, id, s);
    StepTo(f, id, plan, m, s, Get(ON_OTHER + 1), s1);
    var s2 := Added(f, s1, Get(LAST))
           .(high := Some(ON_OTHER + 1), locked := Some(ON_OTHER),
             commitView := if IsFast(f) then f.end + 2 else f.other, committed := LastCommits(f));
    TakeDeep(f, s1, LAST);
    StepTo(f, id, plan, m + 1, s1, Get(LAST), s2);
  }

  lemma LongFollowerPlanWorks(f: Fork, id: nat)
    requires Led(f) && GapAfter(f) && id != 1
    ensures Works(f, id, true, LongPlan(id)) && CommitsBoth(Outcome(f, LongPlan(id)))
  {
    hide Works, Outcome, LongPlan, PlanAfter, CommitsBoth, BothBegun, Led, GapAfter;
    LongPlanIs(id);
    PlanAfterIs(id);
    if id == 0 {
      LongChainBegins(f);
    } else {
      LongFollowerBegins(f, id);
    }
    LongPlanEnds(f, id, LongPlan(id), |LongPlan(id)| - 2);
  }

  lemma LongOtherPlanWorks(f: Fork)
    requires Led(f) && GapAfter(f)
    ensures Works(f, 1, true, LongPlan(1)) && CommitsBoth(Outcome(f, LongPlan(1)))
  {
    hide Works, Outcome, IsFast, LongPlan, PlanAfter, Take, First, Second, Third, Known, ViewOf, HeightOf, Below;
    ForkIs(f);
    LongPlanIs(1);
    PlanAfterIs(1);
    LongOtherBegins(f);
    var plan := LongPlan(1);
    NoPlan(f, 1, true, plan);
    var m := |plan| - 3;
    var s := Outcome(f, plan[..m]);
    var s1 := Added(f, s, Build(ON_OTHER + 1))
           .(locked := Some(OTHER), commitView := if IsFast(f) then f.other else f.start, committed := OtherCommits(f));
    LocksOther(f, 1, s);
    StepTo(f, 1, plan, m, s, Build(ON_OTHER + 1), s1);
    var s2 := Added(f, s1, Collect(ON_OTHER + 1));
    StepTo(f, 1, plan, m + 1, s1, Collect(ON_OTHER + 1), s2);
    var s3 := Added(f, s2, Build(LAST))
           .(locked := Some(ON_OTHER), commitView := if IsFast(f) then f.end + 2 else f.other,
             committed := LastCommits(f));
    TakeDeep(f, s2, LAST);
    StepTo(f, 1, plan, m + 2, s2, Build(LAST), s3);
  }

  lemma LongPlanWorks(f: Fork, id: nat)
    requires Led(f) && GapAfter(f)
    ensures Works(f, id, true, LongPlan(id)) && CommitsBoth(Outcome(f, LongPlan(id)))
  {
    hide Works, Outcome, LongPlan, CommitsBoth;
    if id == 1 {
      LongOtherPlanWorks(f);
    } else {
      LongFollowerPlanWorks(f, id);
    }
  }

  function LongPlans(n: nat): seq<seq<Action>> {
    seq(n, i requires 0 <= i < n => LongPlan(i))
  }

  ghost function ForkedLong(f: Fork, n: nat): System {
    Scheduled(f, LongPlans(n), {}, true)
  }

  lemma LongPlansWork(f: Fork, n: nat)
    requires Led(f) && GapAfter(f)
    ensures AllWork(f, true, LongPlans(n))
    ensures forall r: nat | r < n :: CommitsBoth(Outcome(f, LongPlans(n)[r]))
  {
    hide Works, Outcome, LongPlan, CommitsBoth;
    forall r: nat | r < n ensures Works(f, r, true, LongPlans(n)[r]) && CommitsBoth(Outcome(f, LongPlans(n)[r])) {
      LongPlanWorks(f, r);
    }
  }

  lemma LongCertifies(f: Fork, n: nat, h: Hash)
    requires Led(f) && GapAfter(f) && n >= 1 && IsBlock(h)
    ensures HasQuorum(ForkedLong(f, n), h)
  {
    hide Works, Outcome, LongPlan, HasQuorum, Scheduled, Range, QuorumSize, GapAfter;
    LongPlansWork(f, n);
    QuorumOfAll(n);
    assert Rises(f) by {
      GapsRise(f);
    }
    PlansCertify(f, LongPlans(n), {}, true, Range(n), h);
  }

  lemma LongAuthors(f: Fork, n: nat, h: Hash)
    requires Led(f) && GapAfter(f) && n >= 2 && IsBlock(h)
    ensures Authored(ForkedLong(f, n), BlockOf(f, h))
  {
    hide Works, Outcome, Authored, Scheduled, BlockOf;
    LongPlansWork(f, n);
    if h >= OTHER {
      var j := if h == OTHER then 1 else if h == ON_OTHER then 5 else if h == ON_OTHER + 1 then 8 else 10;
      assert LongPlans(n)[1][j] == Build(h);
      PlanAuthors(f, LongPlans(n), {}, true, 1, j);
    } else {
      var j := if h == START then 0 else if h == MIDDLE then 2 else if h == END then 5 else 7;
      assert LongPlans(n)[0][j] == Build(h);
      PlanAuthors(f, LongPlans(n), {}, true, 0, j);
    }
  }

  lemma LongUses(n: nat)
    ensures forall r, a | 0 <= r < n && a in LongPlans(n)[r] :: a.h in BLOCKS
  {
    hide LongPlan;
    forall r, a | 0 <= r < n && a in LongPlans(n)[r] ensures a.h in BLOCKS {
      LongPlanIs(r);
    }
  }

  lemma LongIsUsed(f: Fork, n: nat)
    requires Led(f) && GapAfter(f) && n >= 2
    ensures WellUsed(ForkedLong(f, n), f, BLOCKS)
  {
    hide Authored, Scheduled, HasQuorum, BlockOf, Led, GapAfter, LongPlans;
    forall h | h in BLOCKS ensures HasQuorum(ForkedLong(f, n), h) && Authored(ForkedLong(f, n), BlockOf(f, h)) {
      LongCertifies(f, n, h);
      LongAuthors(f, n, h);
    }
  }

  lemma LongHappens(f: Fork, n: nat)
    requires Led(f) && GapAfter(f) && n >= 2
    ensures Complete(ForkedLong(f, n))
  {
    hide Scheduled, Possible, WellUsed, Led, GapAfter, LongPlan, AllWork, CommitsBoth, Outcome;
    LongPlansWork(f, n);
    GapsRise(f);
    LongUses(n);
    LeadersAreTwo(f, n);
    LongIsUsed(f, n);
    ScheduledIsPossible(f, LongPlans(n), {}, true, BLOCKS);
  }

  lemma LongCommits(f: Fork, n: nat, r: nat)
    requires Led(f) && GapAfter(f) && r < n
    ensures BlockOf(f, START) in CommittedBy(ForkedLong(f, n), r)
    ensures BlockOf(f, OTHER) in CommittedBy(ForkedLong(f, n), r)
  {
    hide Works, Outcome, LongPlan, Run, Scheduled, BlockOf;
    LongPlansWork(f, n);
    GapsRise(f);
    PlanMatches(f, r, true, LongPlans(n)[r]);
    var s := Outcome(f, LongPlans(n)[r]);
    var committed := CommittedBy(ForkedLong(f, n), r);
    forall h | h in s.committed ensures BlockOf(f, h) in committed {
      var i :| 0 <= i < |s.committed| && s.committed[i] == h;
      assert committed[i] == BlockOf(f, h);
    }
  }

  /**
   With a gap after the second block of a chain: a run without any fault, with the fast path set as for n
   replicas, in which all replicas commit the first block of the chain and the block beside it, neither
   of which descends from the other.
   */
  lemma GapCommitsBoth(n: nat, start: nat, middle: nat, end: nat)
    requires n >= 2 && 1 <= start < middle && middle + 1 < end
    ensures var sys := ForkedLong(TwoLeaders(start, middle, end, middle + 1, n * 9 / 10, QuorumSize(n)), n);
            && Complete(sys) && |sys.histories| == n && sys.faulty == {}
            && sys.block(START).view == start && sys.block(MIDDLE).view == middle && sys.block(END).view == end
            && (forall r: nat | r < n ::
                  sys.block(START) in CommittedBy(sys, r) && sys.block(OTHER) in CommittedBy(sys, r))
            && !Descends(sys, OTHER, START) && !Descends(sys, START, OTHER)
  {
    hide Complete, Descends, Scheduled, Run;
    var f := TwoLeaders(start, middle, end, middle + 1, n * 9 / 10, QuorumSize(n));
    var sys := ForkedLong(f, n);
    LongHappens(f, n);
    BesideEachOther(f, sys);
    forall r: nat | r < n
      ensures sys.block(START) in CommittedBy(sys, r) && sys.block(OTHER) in CommittedBy(sys, r)
    {
      LongCommits(f, n, r);
    }
  }

  // ---- and replicas that hold what they vote to extend ----

  /** Views without a gap, and the block beside them in the view after. */
  function LossyFork(start: nat): Fork {
    TwoLeaders(start, start + 1, start + 2, start + 3, 4 * 9 / 10, QuorumSize(4))
  }

  /** One block is lost on the way to each of four replicas. */
  function LossyPlan(id: nat): seq<Action> {
    if id == 0 then [Build(START), Collect(START), Build(MIDDLE), Collect(MIDDLE), Build(END)]
    else if id == 1 then [Get(START), Build(OTHER), Get(END)]
    else if id == 2 then [Get(START), Get(MIDDLE), Get(OTHER)]
    else [Get(MIDDLE), Get(END), Get(OTHER)]
  }

  function LossyPlans(): seq<seq<Action>> {
    [LossyPlan(0), LossyPlan(1), LossyPlan(2), LossyPlan(3)]
  }

  ghost function Lossy(start: nat): System {
    Scheduled(LossyFork(start), LossyPlans(), {}, false)
  }

  lemma LossyChainWorks(start: nat)
    requires start >= 1
    ensures Works(LossyFork(start), 0, false, LossyPlan(0))
    ensures Outcome(LossyFork(start), LossyPlan(0)).voted == [START, MIDDLE, END]
  {
    hide Works, Outcome;
    var f, plan := LossyFork(start), LossyPlan(0);
    NoPlan(f, 0, false, plan);
    ThenAt(f, 0, false, plan, 0);
    ThenAt(f, 0, false, plan, 1);
    ThenAt(f, 0, false, plan, 2);
    ThenAt(f, 0, false, plan, 3);
    ThenAt(f, 0, false, plan, 4);
  }

  lemma LossyOtherWorks(start: nat)
    requires start >= 1
    ensures Works(LossyFork(start), 1, false, LossyPlan(1))
    ensures Outcome(LossyFork(start), LossyPlan(1)).voted == [START, OTHER, END]
  {
    hide Works, Outcome;
    var f, plan := LossyFork(start), LossyPlan(1);
    NoPlan(f, 1, false, plan);
    ThenAt(f, 1, false, plan, 0);
    ThenAt(f, 1, false, plan, 1);
    ThenAt(f, 1, false, plan, 2);
  }

  lemma LossyFirstWorks(start: nat)
    requires start >= 1
    ensures Works(LossyFork(start), 2, false, LossyPlan(2))
    ensures Outcome(LossyFork(start), LossyPlan(2)).voted == [START, MIDDLE, OTHER]
  {
    hide Works, Outcome;
    var f, plan := LossyFork(start), LossyPlan(2);
    NoPlan(f, 2, false, plan);
    ThenAt(f, 2, false, plan, 0);
    ThenAt(f, 2, false, plan, 1);
    ThenAt(f, 2, false, plan, 2);
  }

  lemma LossyLastWorks(start: nat)
    requires start >= 1
    ensures Works(LossyFork(start), 3, false, LossyPlan(3))
    ensures Outcome(LossyFork(start), LossyPlan(3)).voted == [MIDDLE, END, OTHER]
  {
    hide Works, Outcome;
    var f, plan := LossyFork(start), LossyPlan(3);
    NoPlan(f, 3, false, plan);
    ThenAt(f, 3, false, plan, 0);
    ThenAt(f, 3, false, plan, 1);
    ThenAt(f, 3, false, plan, 2);
  }

  lemma LossyPlanWorks(start: nat, id: nat)
    requires start >= 1 && id < 4
    ensures Works(LossyFork(start), id, false, LossyPlan(id))
    ensures Outcome(LossyFork(start), LossyPlan(id)).voted
            == if id == 0 then [START, MIDDLE, END] else if id == 1 then [START, OTHER, END]
               else if id == 2 then [START, MIDDLE, OTHER] else [MIDDLE, END, OTHER]
  {
    hide Works, Outcome, LossyPlan, LossyFork;
    LossyChainWorks(start);
    LossyOtherWorks(start);
    LossyFirstWorks(start);
    LossyLastWorks(start);
  }

  lemma LossyPlansWork(start: nat)
    requires start >= 1
    ensures AllWork(LossyFork(start), false, LossyPlans())
  {
    hide Works, LossyPlan, LossyFork;
    forall r: nat | r < 4 ensures Works(LossyFork(start), r, false, LossyPlans()[r]) {
      LossyPlanWorks(start, r);
    }
  }

  /** Each block reaches three of the four replicas. */
  lemma LossyCertifies(start: nat, h: Hash)
    requires start >= 1 && (h == START || h == MIDDLE || h == END || h == OTHER)
    ensures HasQuorum(Lossy(start), h)
  {
    hide Works, Outcome, HasQuorum, Scheduled, LossyPlan;
    var f := LossyFork(start);
    LossyPlansWork(start);
    var missed := if h == START then 3 else if h == MIDDLE then 1 else if h == END then 2 else 0;
    forall r: nat | r < 4 && r != missed ensures h in Outcome(f, LossyPlans()[r]).voted {
      LossyPlanWorks(start, r);
    }
    PlansCertify(f, LossyPlans(), {}, false, Range(4) - {missed}, h);
  }

  lemma LossyAuthors(start: nat, h: Hash)
    requires start >= 1 && (h == START || h == MIDDLE || h == END || h == OTHER)
    ensures Authored(Lossy(start), BlockOf(LossyFork(start), h))
  {
    hide Works, Authored, Scheduled, BlockOf;
    LossyPlansWork(start);
    var r := if h == OTHER then 1 else 0;
    var j := if h == OTHER then 1 else if h == START then 0 else if h == MIDDLE then 2 else 4;
    assert LossyPlans()[r][j] == Build(h);
    PlanAuthors(LossyFork(start), LossyPlans(), {}, false, r, j);
  }

  lemma LossyShape(start: nat)
    requires start >= 1
    ensures Rises(LossyFork(start)) && forall view: nat :: LossyFork(start).setup.leader(view) < 4
    ensures forall r, a | 0 <= r < 4 && a in LossyPlans()[r] :: a.h in FORKED
  {
  }

  lemma LossyIsUsed(start: nat)
    requires start >= 1
    ensures WellUsed(Lossy(start), LossyFork(start), FORKED)
  {
    hide Authored, Scheduled, HasQuorum, BlockOf, LossyFork, LossyPlans;
    forall h | h in FORKED ensures HasQuorum(Lossy(start), h) && Authored(Lossy(start), BlockOf(LossyFork(start), h)) {
      LossyCertifies(start, h);
      LossyAuthors(start, h);
    }
  }

  lemma LossyHappens(start: nat)
    requires start >= 1
    ensures Possible(Lossy(start)) && ThreeChain(Lossy(start), START, MIDDLE, END) && HasQuorum(Lossy(start), OTHER)
  {
    hide Scheduled, HasQuorum, ThreeChain, Possible, WellUsed, LossyFork, LossyPlan, AllWork;
    LossyShape(start);
    LossyPlansWork(start);
    LossyIsUsed(start);
    ScheduledIsPossible(LossyFork(start), LossyPlans(), {}, false, FORKED);
    ChainIsCertified(LossyFork(start), Lossy(start));
  }

  /**
   For every view to start from: among four replicas without a fault, three blocks in consecutive views
   are certified, and so is a later one that does not descend from the first.  Replicas that miss a
   parent vote all the same, and their votes do not lock them.
   */
  lemma MissingParentsLoseFinality(start: nat)
    requires start >= 1
    ensures var sys := Lossy(start);
            && Possible(sys) && !sys.parentsHeld && |sys.histories| == 4 && sys.faulty == {}
            && ThreeChain(sys, START, MIDDLE, END) && Consecutive(sys, START, MIDDLE, END)
            && sys.block(START).view == start
            && HasQuorum(sys, OTHER) && sys.block(OTHER).view == start + 3 && !Descends(sys, OTHER, START)
  {
    hide Possible, HasQuorum, Descends, Scheduled, ThreeChain;
    LossyHappens(start);
    BesideEachOther(LossyFork(start), Lossy(start));
  }
}
