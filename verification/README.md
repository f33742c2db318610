# Verified models of Evolv-BFT

This project models the stateful algorithms of the Evolv-BFT adaptation layer, and of its consensus engine the block
tree, the voting rule and the global orderer, and proves what they promise over all inputs, all orders of random draws
and all runs.

| file | component |
|---|---|
| `Arith.dfy`, `Roulette.dfy`, `Rings.dfy`, `Wrappers.dfy` | shared: quotients and products, roulette selection by a linear scan, rings against their history, optional values |
| `SumTrees.dfy`, `PrioritizedReplay.dfy` | the array-backed sum tree of any capacity and the prioritized replay buffer over it |
| `EpochGates.dfy`, `GateRuns.dfy`, `OrderedOutputs.dfy` | the epoch gate, its promises over runs, and the recorder of ordered outputs that drives it |
| `Orderers.dfy`, `OrdererRuns.dfy` | the global orderer that puts the outputs of all instances into one log, and its promises over runs |
| `BlockTrees.dfy`, `Replicas.dfy` | the block tree with its lock, commit and safety rules, and how a replica votes with it |
| `Finality.dfy` | quorums of replicas: one certified block per view, and when a committed block is final |
| `Schedules.dfy`, `CommitGaps.dfy` | histories in which replicas build, receive and certify the blocks of a fork, and systems made of them in which a committed block is not final |
| `Gae.dfy` | generalized advantage estimation |
| `Entropy.dfy`, `EntropyMonitors.dfy` | Shannon entropy with Gibbs' inequality, and the sliding-window monitor |
| `Baselines.dfy` | the value baseline: warm-up mean, then exponential average |
| `DetectionLatency.dfy` | one-pass latency and damage bookkeeping against attack intervals |
| `Mixers.dfy`, `Trainers.dfy`, `BatchTraining.dfy` | the monotonic mixer and the clipped training loops |
| `Organization.dfy`, `Policies.dfy` | role-based governance, guardrail projection and their composition |
| `Reconfiguration.dfy`, `EvictionSafety.dfy` | node transfers between instances and the quorum guards on evictions |
| `WeightedReplay.dfy` | the trajectory buffer with weighted priority order |
| `ShardPlacement.dfy` | shard dissemination, sampling and committee gathering |

How the model is set up:

- Floating-point numbers are `real`. Products and quotients inside proofs go through `Arith.Times` and
  `Arith.Quotient`, which are the plain operations under a name.
- `pow`, `exp`, `log` and `sqrt` are parameters; the laws used of them are hypotheses (`PowLaws`, `ExpLaws`,
  `LogLaws`; a square root only has to be non-negative).
- Random draws, shuffles, argsort and clock readings are parameters: whatever the generator returns, in range.
- Objects whose methods update fields are classes; their methods are tied to functions on the old state, and the
  promises over runs are lemmas about those functions.
- A system of replicas is one list of events for each; faulty replicas vote for anything. Signatures, messages and
  clocks are not modelled. What stands for signatures (`Finality.EventSound`): a certificate is genuine if a quorum
  voted for its block, and a proposal is admitted only from the leader it names
  (src/evolvbft/consensus/hotstuff/engine.go:616), so that one in the name of an honest replica was built by it, in
  the course of its own history. Otherwise any proposal may arrive at any time, or never, and the readings of the
  orderer's clock are parameters.
- Epochs of the gate are unsigned 64-bit numbers with Go's wrap-around; other integers are unbounded.

## What turned out not to hold as stated

- **Draw 0 in prioritized sampling.** A draw of exactly 0 selects the leftmost leaf of the tree, even at priority 0.
  Its index is 2^k - capacity for the least power of two 2^k >= capacity, so for other capacities it can be an empty
  slot and the resampling loop is entered. `PrioritizedReplay.DrawHitsFilledSlot` gives the exact condition,
  `PrioritizedReplay.ZeroDrawMissesForThree` an instance. A batch drawn from an empty buffer resamples for ever
  (`NoFilledSlot` in the model).
- **Cooldown near the end of the epoch range.** `lastAppliedEpoch + MinCooldownEpochs` can wrap; the cooldown is then
  void. `GateRuns.AppliedAtOnceIff` is exact, `GateRuns.CooldownVoidInLastEpoch` an instance.
- **Gate counters.** An emergency that meets a held action clears it without counting it anywhere.
  `GateRuns.CountersBalance` is exact, `GateRuns.EmergencyLosesHeldAction` an instance.
- **Baseline without warm-up.** With `WarmupSteps` = 0 the first observation does not set the baseline (a comment at
  src/evolvbft/adaptive/advantage_test.go:56 says it does); the baseline starts at 0 and can lie outside the range of
  the rewards, and the variance above the square of that range. `Baselines.FirstObservationSetsBaselineIff`,
  `Baselines.BaselineInRangeIff` and `Baselines.VarianceInRangeIff` are exact, `Baselines.NoWarmupLeavesRange` is an
  instance.
- **Membership freeze.** The published rules (marl/organization.py:232) freeze membership when a node cannot
  participate; the code does not, and a quiet node that cannot participate may leave.
  `Organization.CannotParticipateFreezesIff` is exact, `Policies.CannotParticipateYetLeaves` an instance.
- **One order for all nodes.** A rank that is filled in after the timeout on one node can hold its output on another.
  A rank is filled in exactly if some event finds it next, not waiting, and timed out (`OrdererRuns.NilIffFilledIn`).
  `OrdererRuns.EntriesAgreeIff` is exact in these terms, `OrdererRuns.LateOutputSplitsLogs` an instance.
- **Votes that rise.** After voting for its own proposal a leader can still take one of the view before, and a replica
  that stands in for a suspected leader can still take that leader's own: `TakesAtOrBelowOwn` and `TakesAtOwn` are
  conditions on the arriving proposal. `Replicas.VotesRiseIff` is exact, `Replicas.MayFallBehindOwn` and
  `Replicas.FallbackVotesTwice` are instances. Who proposes only in views that it leads votes once per view
  (`Finality.LeadersVoteOnce`), and one block per view is certified in any case (`Finality.OneBlockPerView`).
- **Final commits.** A comment (src/evolvbft/consensus/hotstuff/blocktree.go:83) promises finality by three-chains.
  The rule does not look at gaps between the views of a chain. The block it commits is final if and only if there are
  none (`CommitGaps.FinalIffConsecutive`, for any number of replicas from two on), and with a gap replicas can commit
  blocks of two branches (`CommitGaps.GapCommitsBoth`). Both take no faulty replica, only a leader that has not heard
  of a certificate when it builds: all blocks are built by honest leaders on the highest certificate each knows. A
  block committed on the fast path is final for no choice of views (`CommitGaps.FastCommitNotFinal`); up to six
  replicas that takes no fault either, beyond that the leader gathers more signatures than a quorum. Finality also
  takes replicas that have stored the parent of what they vote for, which the code does not ask: four honest replicas,
  each missing one block, lose it for every choice of views without a gap (`CommitGaps.MissingParentsLoseFinality`).

## Model

| member | source | states |
|---|---|---|
| SumTrees.InOrderIsPermutation | marl/training/replay_buffer.py:34-71 | for every capacity the leaves met from left to right are the indices 0, ..., capacity-1, each once |
| SumTrees.NodeIsSumOfLeaves | marl/training/replay_buffer.py:44-50 | in a tree whose nodes add up, every node is the sum of the leaves below it |
| SumTrees.RootIsTotal | marl/training/replay_buffer.py:40-42 | the root is the sum of all priorities in index order |
| SumTrees.LeavesDetermineTree | marl/training/replay_buffer.py:44-50 | the priorities alone determine the whole array |
| SumTrees.PickBrackets | marl/training/replay_buffer.py:59-71 | for 0 < v <= total the selected priority is positive and v lies in its in-order stretch of prefix sums |
| SumTrees.PickedIffInStretch | marl/training/replay_buffer.py:59-71 | a position is selected iff the draw lies in its stretch, which is as long as its priority |
| SumTrees.ZeroPicksLeftmost | marl/training/replay_buffer.py:59-71 | a draw of at most 0 selects the leftmost leaf |
| SumTrees.SumTree.Update | marl/training/replay_buffer.py:44-50 | the delta walk sets one leaf, leaves all others and restores every sum |
| SumTrees.SumTree.Add | marl/training/replay_buffer.py:52-57 | writes at the cursor, moves the cursor around the ring, caps the size |
| SumTrees.SumTree.Sample | marl/training/replay_buffer.py:59-71 | the descent returns exactly what a linear in-order roulette scan returns, for every draw |
| SumTrees.SumTree.Total | marl/training/replay_buffer.py:40-42 | the stored total is the sum of the priorities |
| Roulette.ScanBrackets | marl/training/replay_buffer.py:59-71 | the scan selects the weight whose stretch contains the draw |
| Roulette.BracketIsScan | marl/training/replay_buffer.py:59-71 | no other position satisfies that bracket |
| Rings.SlotsHoldRecent | marl/training/replay_buffer.py:103-110 | as a multiset the slots hold exactly the last min(N, capacity) elements |
| Rings.WriteExtendsHistory | marl/training/replay_buffer.py:52-57 | writing at the cursor is extending the history by one element |
| Rings.CursorIsRemainder | marl/training/replay_buffer.py:55 | the cursor after n writes is n modulo the capacity |
| PrioritizedReplay.PrioritizedReplayBuffer.Add | marl/training/replay_buffer.py:103-110 | keeps slots, sizes and priorities in line with the history; new data gets the error's or the largest priority |
| PrioritizedReplay.PrioritizedReplayBuffer.Sample | marl/training/replay_buffer.py:112-145 | indices are filled and agree with the in-order scan of each stratum, data come from those slots, weights are the importance weights, in (0, 1] with 1 attained and falling with priority; no redraw if every stratum hits a filled slot |
| PrioritizedReplay.PrioritizedReplayBuffer.FilledSlot | marl/training/replay_buffer.py:129-134 | the resampling loop takes the first filled slot among the draw and the redraws |
| PrioritizedReplay.PrioritizedReplayBuffer.UpdatePriorities | marl/training/replay_buffer.py:147-152 | priorities are overwritten in order; the maximum priority is the largest so far |
| PrioritizedReplay.LastPriorityStands | marl/training/replay_buffer.py:147-152 | for a repeated index the last entry stands, unnamed slots keep their priority |
| PrioritizedReplay.TightUnlessEmptySlotNamed | marl/training/replay_buffer.py:147-152 | empty slots keep priority 0 exactly if no empty slot is named |
| PrioritizedReplay.DrawHitsFilledSlot | marl/training/replay_buffer.py:125-134 | a draw finds a filled slot iff it is positive or the leftmost slot is filled |
| PrioritizedReplay.LeftmostLeaf | marl/training/replay_buffer.py:59-71 | the leftmost leaf has index 2^k - capacity for the least 2^k >= capacity |
| PrioritizedReplay.ZeroDrawMissesForThree | marl/training/replay_buffer.py:129-134 | instance: capacity 3, one transition, draw 0 meets an empty slot |
| PrioritizedReplay.NoRedrawNeeded | marl/training/replay_buffer.py:125-134 | a whole batch needs no redraw if something is stored and the first draw is positive |
| PrioritizedReplay.StrataAscend | marl/training/replay_buffer.py:125-128 | stratified draws give non-decreasing in-order positions |
| PrioritizedReplay.StratumIs | marl/training/replay_buffer.py:122-128 | draw i of n lies in [total * i / n, total * (i + 1) / n) and moves through it evenly with the fraction drawn |
| PrioritizedReplay.StrataShareRange | marl/training/replay_buffer.py:122-128 | every number below the total is the draw of exactly one stratum and fraction |
| PrioritizedReplay.WeightsNormalised | marl/training/replay_buffer.py:138-143 | importance weights are in (0, 1], 1 is attained, likelier samples weigh no more |
| PrioritizedReplay.WeightsAreImportance | marl/training/replay_buffer.py:138-143 | each weight, times the power -beta of the least expected number of draws, is that power of its own |
| EpochGates.EpochGate.SubmitAction | src/evolvbft/adaptive/epoch_gate.go:114-152 | new state and result of a submission, all branches |
| EpochGates.EpochGate.AdvanceEpoch | src/evolvbft/adaptive/epoch_gate.go:157-188 | new state and released action of an epoch change, all branches |
| EpochGates.EpochGate.CooldownOver | src/evolvbft/adaptive/epoch_gate.go:222-227 | nothing to wait for before the first application; afterwards the epochs passed must reach the cooldown, unless the sum wraps, when no later epoch waits |
| EpochGates.EpochGate.constructor | src/evolvbft/adaptive/epoch_gate.go:103-108 | a cooldown of 0 becomes 1, everything else starts empty |
| GateRuns.RunKeepsInvariant | src/evolvbft/adaptive/epoch_gate.go:114-188 | every reachable state: a held action is the newest submission with its cooldown still running, only submitted actions are applied, in order and spaced, all counters account |
| GateRuns.ImmediateApplyDiscardsNothing | src/evolvbft/adaptive/epoch_gate.go:129-136 | the immediate-apply branch never discards a held action |
| GateRuns.CooldownKept | src/evolvbft/adaptive/epoch_gate.go:129-136 | a regular application comes at least the cooldown after every earlier one, and no action is applied twice or out of order |
| GateRuns.RateLimited | src/evolvbft/adaptive/epoch_gate.go:30-32 | without bypass, k cooldowns pass before application k |
| GateRuns.CountersBalance | src/evolvbft/adaptive/epoch_gate.go:119-188 | submitted = applied + emergency + dropped + stale + held, iff no event of the run is a bypassing emergency that finds an action held |
| GateRuns.EmergencyLosesHeldAction | src/evolvbft/adaptive/epoch_gate.go:121-127 | instance: three submissions, counters add up to two |
| GateRuns.AppliedAtOnceIff | src/evolvbft/adaptive/epoch_gate.go:222-227 | in reachable states a regular submission is applied at once iff first, cooled down, or the addition wraps |
| GateRuns.CooldownVoidInLastEpoch | src/evolvbft/adaptive/epoch_gate.go:222-227 | instance: two regular applications in the last epoch |
| GateRuns.HeldActionLeavesOnTime | src/evolvbft/adaptive/epoch_gate.go:157-188 | a held action leaves exactly once, at the first epoch change that reaches the due epoch, as long as the newest submission event is fresh |
| GateRuns.ReleasedIff | src/evolvbft/adaptive/epoch_gate.go:157-188 | an epoch change releases iff an action is held, the change is due, and the newest submission event is no older than allowed; what is released is its action; what is left |
| GateRuns.HeldSinceNewest | src/evolvbft/adaptive/epoch_gate.go:114-152 | a held action is that of the newest submission event, with its time and the epoch the gate was in then |
| GateRuns.SubmissionCounts | src/evolvbft/adaptive/epoch_gate.go:114-152 | in every reachable state: the result of a submission, what it leaves held, and every counter |
| GateRuns.EpochChangeCounts | src/evolvbft/adaptive/epoch_gate.go:157-188 | in every reachable state: what an epoch change counts and what it leaves alone |
| GateRuns.EpochIsHighest | src/evolvbft/adaptive/epoch_gate.go:157-162 | the gate is in the highest epoch it was told of |
| OrderedOutputs.OrderedRecorder.RecordOrderedOutput | src/cmd/evolvbft/adaptive_runtime.go:575-604 | new record, new gate state and the actions handed to the actuator |
| OrderedOutputs.OrderedRecorder.NotifyGate | src/evolvbft/adaptive/controller.go:164-176 | passes an epoch to the gate, if there is one, and returns the released action |
| OrderedOutputs.NotifiedIffNewPeak | src/cmd/evolvbft/adaptive_runtime.go:594-602 | a transition is passed on exactly when it is a strict running maximum |
| OrderedOutputs.NotificationsRise | src/cmd/evolvbft/adaptive_runtime.go:594-602 | notified epochs rise strictly and end at the recorded epoch |
| OrderedOutputs.RunNotifiesRunningMaxima | src/cmd/evolvbft/adaptive_runtime.go:575-604 | over any run of outputs the notifications are the strict running maxima of all transitions |
| OrderedOutputs.HeightAndEpochNeverDecrease | src/cmd/evolvbft/adaptive_runtime.go:583-596 | height and epoch never decrease over a run |
| OrderedOutputs.RecordIs | src/cmd/evolvbft/adaptive_runtime.go:575-604 | over any run: rank and kind of the last output, greatest height, lane and configuration of the newest output that told them |
| OrderedOutputs.GateStaysInStep | src/cmd/evolvbft/adaptive_runtime.go:594-602 | a gate in step with the record stays in step |
| Orderers.GlobalOrderer.constructor | src/evolvbft/consensus/hotstuff/orderer.go:33-54 | missing settings are replaced; the first rank is that of height 1 of instance 0 |
| Orderers.RankMappingRoundTrip | src/evolvbft/consensus/hotstuff/orderer.go:146-159 | an output fits its rank iff the rank is the one its instance gives to its height (rank_state.go:22) |
| Orderers.GlobalOrderer.OnInput | src/evolvbft/consensus/hotstuff/orderer.go:113-144 | late, misplaced and repeated outputs do not wait; in a full buffer the highest rank has to go |
| OrdererRuns.AcceptKeepsAllButHighest | src/evolvbft/consensus/hotstuff/orderer.go:113-144 | what fits its rank, is not late and not there yet waits; only with a full buffer is something dropped, and it is the highest of all ranks |
| Orderers.GlobalOrderer.HighestPending | src/evolvbft/consensus/hotstuff/orderer.go:127-134 | the scan finds the highest waiting rank in any order of the map |
| Orderers.GlobalOrderer.NextToEmit | src/evolvbft/consensus/hotstuff/orderer.go:173-208 | emits what waits for the next rank, or its nil entry after the timeout, or notes since when it is missing |
| Orderers.GlobalOrderer.FlushAll | src/evolvbft/consensus/hotstuff/orderer.go:161-171 | the loop ends in every state and equals the flush of the model |
| Orderers.FlushShape | src/evolvbft/consensus/hotstuff/orderer.go:161-208 | a flush emits at most one nil entry, that of a timed-out next rank and first, then all that waits for consecutive ranks |
| Orderers.FlushKeepsInvariant | src/evolvbft/consensus/hotstuff/orderer.go:161-208 | a flush appends what it emits and leaves the next rank noted as missing, and nothing else |
| OrdererRuns.FlushTakesWhatItEmits | src/evolvbft/consensus/hotstuff/orderer.go:161-208 | a flush logs exactly the waiting outputs below its next rank, each at its place, and leaves the others waiting |
| OrdererRuns.LogHasEveryRankOnce | src/evolvbft/consensus/hotstuff/orderer.go:91-208 | over any run of inputs and ticks the log has the ranks numInstances, numInstances + 1, ... once each and in their slots; waiting outputs never exceed the bound |
| OrdererRuns.LogOnlyGrows | src/evolvbft/consensus/hotstuff/orderer.go:113-208 | no later event changes an entry of the log |
| OrdererRuns.EntriesArrivedOrNil | src/evolvbft/consensus/hotstuff/orderer.go:113-208 | every entry is an output that arrived, or the nil entry of its rank; the nil counter counts them |
| OrdererRuns.InTimeIsKept | src/evolvbft/consensus/hotstuff/orderer.go:113-208 | over any run: an output that arrives in time waits or is logged ever after, as long as no arrival finds the buffer full |
| OrdererRuns.MissingSinceIs | src/evolvbft/consensus/hotstuff/orderer.go:189-199 | over any run: the only rank noted as missing is the next one, since the clock reading at which a flush first found it missing |
| OrdererRuns.FillsInIff | src/evolvbft/consensus/hotstuff/orderer.go:173-208 | an event fills in a rank iff it is next, nothing for it waits or arrives, and the timeout has passed since that reading |
| OrdererRuns.NilIffFilledIn | src/evolvbft/consensus/hotstuff/orderer.go:161-208 | in every run an entry is nil iff the flush of some event started when its rank was next, not waiting and timed out |
| OrdererRuns.EntriesAgreeIff | src/evolvbft/consensus/hotstuff/orderer.go:173-208 | two orderers with any arrival orders agree on an entry iff both or neither have an event that fills in its rank |
| OrdererRuns.WithoutFillsLogsAgree | src/evolvbft/consensus/hotstuff/orderer.go:173-208 | while no event of either fills in a rank, one log continues the other |
| OrdererRuns.LateOutputSplitsLogs | src/evolvbft/consensus/hotstuff/orderer.go:189-207 | instance: an output in time on one node and filled in on the other |
| OrdererRuns.InputsAccountedFor | src/evolvbft/consensus/hotstuff/orderer.go:113-187 | inputs = late + dropped + emitted + waiting + ignored on arrival, over every run |
| BlockTrees.BlockTree.ProcessBlock | src/evolvbft/consensus/hotstuff/blocktree.go:60-131 | certificates, lock and commits after a block, on all branches |
| BlockTrees.BlockTree.OnVoteQC | src/evolvbft/consensus/hotstuff/blocktree.go:163-175 | a newer certificate replaces the highest and the generic one |
| BlockTrees.CertificateReplacesIff | src/evolvbft/consensus/hotstuff/blocktree.go:163-175 | a certificate replaces the highest one iff it is of a later epoch, or of the same and a later view; the generic one also if it is as late |
| BlockTrees.HighestIsLatestShown | src/evolvbft/consensus/hotstuff/blocktree.go:60-175 | after any blocks and certificates, of any epochs, the highest certificate was shown (or is the genesis one) and none shown is later |
| BlockTrees.ConfirmsIff | src/evolvbft/consensus/hotstuff/blocktree.go:76-90 | a block confirms the stored block that its certificate is for, and nothing else |
| BlockTrees.LockMovesIff | src/evolvbft/consensus/hotstuff/blocktree.go:91-103 | the lock moves exactly to newer certificates that a stored block under the new one shows for a stored block |
| BlockTrees.CommitsIff | src/evolvbft/consensus/hotstuff/blocktree.go:105-131 | exactly which blocks are committed, in which order, and which certificate is remembered for them |
| BlockTrees.BlockTree.SafeNode | src/evolvbft/consensus/hotstuff/blocktree.go:178-192 | a vote is safe iff the certificate is newer than the lock or the block extends the locked one |
| BlockTrees.BlockTree.ExtendsLockedBlock | src/evolvbft/consensus/hotstuff/blocktree.go:194-230 | the loop decides whether a path of parents meets the locked block, for any stored blocks, cycles included |
| BlockTrees.ReachesByPath | src/evolvbft/consensus/hotstuff/blocktree.go:194-230 | the walk upwards meets a hash iff there is a path of stored blocks to it, over parents or else certificates |
| BlockTrees.ProcessMovesForward | src/evolvbft/consensus/hotstuff/blocktree.go:60-131 | lock, commits and highest certificate only move forwards; each commit raises the committed view |
| Replicas.VotesRiseIff | src/evolvbft/consensus/hotstuff/engine.go:759-951 | a replica's votes rise from view to view iff it never takes a proposal whose view is at most that of an own one it voted for; it votes once per view iff it never takes one for the view of an own one |
| Replicas.VotesForIff | src/evolvbft/consensus/hotstuff/engine.go:759-951 | exactly which proposals a replica votes for: all tests on view, leader, certificate, novelty, height and lock |
| Replicas.HighestIsLatest | src/evolvbft/consensus/hotstuff/engine.go:759-1060 | in every run the highest certificate is the latest one that was shown to the replica |
| Replicas.BuildsOnLatest | src/evolvbft/consensus/hotstuff/engine.go:1219-1262 | in every run an own block extends the latest certificate shown and is one higher than all stored blocks |
| Replicas.ViewIsFirstAfter | src/evolvbft/consensus/hotstuff/engine.go:759-1044 | in every run a replica is in view 1 or the first view after all that proposals, certificates or timeouts ended |
| Replicas.RemembersFirstProposals | src/evolvbft/consensus/hotstuff/engine.go:803-823 | the first proposal of a view and leader is remembered until a commit finds it more than ten views old |
| Replicas.HandledVotesRise | src/evolvbft/consensus/hotstuff/engine.go:759-951 | votes for received proposals always rise |
| Replicas.MayFallBehindOwn | src/evolvbft/consensus/hotstuff/engine.go:1271-1345 | instance: the leader of view 2 votes for view 1 after its own proposal |
| Replicas.FallbackVotesTwice | src/evolvbft/consensus/hotstuff/engine.go:1190-1217 | instance: a replica that stands in for the leader of view 1 votes for its own block and for the leader's |
| Replicas.MakesOncePerView | src/evolvbft/consensus/hotstuff/engine.go:1271-1281 | in every run a replica builds at most one block per view |
| Finality.QuorumsMeet | src/evolvbft/types/types.go:646-670 | two quorums share a replica that is not faulty |
| Finality.LeadersVoteOnce | src/evolvbft/consensus/hotstuff/engine.go:759-951 | an honest replica that votes for own blocks only in views that it leads votes once per view |
| Finality.CertifiedByLeader | src/evolvbft/consensus/hotstuff/engine.go:926-931 | a certified block comes from the leader of its view, even if others stood in for it |
| Finality.OneBlockPerView | src/evolvbft/consensus/hotstuff/engine.go:953-1060 | at most one block per view is certified |
| Finality.RunIsSound | src/evolvbft/consensus/hotstuff/blocktree.go:60-131 | over every run of a replica: genuine locks behind the view, votes that respect the lock and bind later votes |
| Finality.CertifiedDescends | src/evolvbft/consensus/hotstuff/blocktree.go:91-131 | after three certified blocks in consecutive views, every block certified from then on descends from the first |
| Finality.CommitIsFinal | src/evolvbft/consensus/hotstuff/blocktree.go:113-131 | when an honest replica commits over a chain without a gap, every block certified from that view on descends from the committed one |
| Finality.CommitsAgree | src/evolvbft/consensus/hotstuff/blocktree.go:113-131 | blocks that any two honest replicas commit over chains without a gap lie on one branch |
| Finality.CommittedOverChain | src/evolvbft/consensus/hotstuff/blocktree.go:113-131 | without the fast path every committed block was committed when some event completed a chain that starts with it |
| CommitGaps.FinalIffConsecutive | src/evolvbft/consensus/hotstuff/blocktree.go:113-131 | for any number of replicas from two on, a chain of three makes its first block final iff its views are consecutive |
| CommitGaps.GapCommitsBoth | src/evolvbft/consensus/hotstuff/blocktree.go:113-131 | for any such number and any views with a gap after the second: honest replicas that all commit two blocks of different branches |
| CommitGaps.FastCommitNotFinal | src/evolvbft/consensus/hotstuff/blocktree.go:105-112 | for any views, a block that all replicas commit on the fast path need not be an ancestor of later certified blocks; no replica is faulty up to six |
| CommitGaps.MissingParentsLoseFinality | src/evolvbft/consensus/hotstuff/blocktree.go:76-90 | for any three consecutive views, four honest replicas that vote without having the parent are not locked, and a later certified block is not a descendant |
| Gae.BackwardPass | experiments/sfac_ppo.py:842-869 | the reverse loop computes the forward, episode-truncated discounted sum for every step and instance |
| Gae.ComputeGae | experiments/sfac_ppo.py:842-878 | advantages are those sums normalized over all entries together, returns are not normalized |
| Gae.AdvantageRecurrence | experiments/sfac_ppo.py:857-868 | forward definition and backward recurrence agree, with the cut at done steps |
| Gae.AdvantageUnfolds | experiments/sfac_ppo.py:857-868 | the advantage from reward, value, and the next value and advantage, with gamma and gamma lambda written out |
| Gae.OnlyOwnEpisodeMatters | experiments/sfac_ppo.py:857-868 | rewards outside the episode from t on never influence step t |
| Gae.ReturnIsRewardToGo | experiments/sfac_ppo.py:857-869 | with lambda 1 the return is the discounted reward to go, whatever the critic says |
| Gae.OneStepAdvantage | experiments/sfac_ppo.py:863-868 | with lambda 0 the advantage is the one-step error |
| Gae.NormalizedSumToZero | experiments/sfac_ppo.py:871-876 | normalized advantages add up to 0 |
| Gae.NormalizedIs | experiments/sfac_ppo.py:871-876 | normalized times (standard deviation + 1e-8) is the value less the mean, unless the deviation is at most 1e-8 |
| Gae.RavelHoldsAll | experiments/sfac_ppo.py:871-876 | mean and deviation are taken over every advantage of every instance |
| Gae.NormalizationKeepsOrder | experiments/sfac_ppo.py:871-876 | normalization never reorders |
| EntropyMonitors.EntropyMonitor.Observe | src/evolvbft/adaptive/entropy.go:95-112 | returns the entropy of the last min(N, window) buckets and counts the alarm exactly when it holds |
| EntropyMonitors.AlarmsCountLowMoments | src/evolvbft/adaptive/entropy.go:106-110 | the alarm count is the number of moments at which at least half a window had been seen and its entropy was low |
| EntropyMonitors.BucketsAreSteps | src/evolvbft/adaptive/entropy.go:157-164 | buckets are steps of 5, 100 and 512, counted from 0 on both sides |
| EntropyMonitors.EntropyMonitor.BucketCounts | src/evolvbft/adaptive/entropy.go:175-182 | the counts are the multiplicities among the last actions, for exactly the buckets that occur |
| EntropyMonitors.EntropyMonitor.ComputeEntropy | src/evolvbft/adaptive/entropy.go:185-202 | whatever the order of the map, the sum over buckets is the mean surprise of the window |
| EntropyMonitors.EntropyMonitor.Stats | src/evolvbft/adaptive/entropy.go:140-155 | fill, unique buckets and alarm count as functions of the history |
| EntropyMonitors.WindowStep | src/evolvbft/adaptive/entropy.go:99-104 | one write keeps window, cursor and full flag in line with the history |
| EntropyMonitors.WindowFacts | src/evolvbft/adaptive/entropy.go:167-182 | the used slots have the same values, equally often, as the last actions |
| EntropyMonitors.FewSamples | src/evolvbft/adaptive/entropy.go:186-189 | the early exit agrees with the general formula |
| Entropy.EntropyIgnoresOrder | src/evolvbft/adaptive/entropy.go:185-202 | entropy depends only on how often each value occurs |
| Entropy.EntropyZeroIff | src/evolvbft/adaptive/entropy.go:21-25 | entropy is not negative, and 0 iff at most one value occurs |
| Entropy.GibbsInequality | src/evolvbft/adaptive/entropy.go:40-43 | entropy is at most log2 of the number of distinct values, with equality iff they occur equally often |
| Baselines.ValueBaseline.Advantage | src/evolvbft/adaptive/advantage.go:92-134 | the estimate stays that of the history; raw reward in warm-up, then the (normalized) advantage |
| Baselines.WarmupIsMean | src/evolvbft/adaptive/advantage.go:98-107 | during warm-up the baseline is the exact mean |
| Baselines.BaselineTelescopes | src/evolvbft/adaptive/advantage.go:109-119 | afterwards it is the warm-up mean plus alpha times the sum of all advantages |
| Baselines.EstimatesAreSmoothed | src/evolvbft/adaptive/advantage.go:109-116 | after the warm-up the baseline is the moving average of the rewards and the variance that of the squared advantages |
| Baselines.StatisticsAreExact | src/evolvbft/adaptive/advantage.go:117-125 | the published total and extremes are those of all advantages |
| Baselines.BaselineInRangeIff | src/evolvbft/adaptive/advantage.go:92-134 | over a run the baseline stays within the range of the rewards seen iff there is a warm-up, or alpha is 1, or the first reward is 0 |
| Baselines.VarianceInRangeIff | src/evolvbft/adaptive/advantage.go:92-134 | over a run 0 <= variance <= (max-min)^2 of the rewards seen iff there is a warm-up or the first reward is 0 |
| Baselines.MeanBetweenExtremes | src/evolvbft/adaptive/advantage.go:118-125 | the mean advantage lies between the recorded extremes |
| Baselines.FirstObservationSetsBaselineIff | src/evolvbft/adaptive/advantage.go:98-113 | without warm-up the first reward sets the baseline iff alpha is 1 or the reward is 0 |
| Baselines.NoWarmupLeavesRange | src/evolvbft/adaptive/advantage.go:98-113 | instance: baseline 5 and variance 50 after the single reward 10 |
| DetectionLatency.TrackDetections | experiments/run_e2e_experiments.py:1335-1359 | sum and number of latencies are those of the attack intervals; cumulative damage is the prefix sum of undetected attackers |
| DetectionLatency.DamageAccumulates | experiments/run_e2e_experiments.py:1336-1341 | each epoch adds the number of its undetected Byzantine nodes to the damage |
| DetectionLatency.PassRefinesIntervals | experiments/run_e2e_experiments.py:1347-1359 | for every trace the single pass adds up the first-detection delay of each interval with a detection, once per interval |
| DetectionLatency.IntervalsAreMaximal | experiments/run_e2e_experiments.py:1357-1359 | the intervals of the specification are maximal runs of attacked epochs |
| DetectionLatency.IntervalsCover | experiments/run_e2e_experiments.py:1349-1350 | every attacked epoch is in one of them |
| DetectionLatency.HitIsFirst | experiments/run_e2e_experiments.py:1351-1355 | the hit of an interval is its first detection |
| Mixers.MonotonicMixer.ForwardPass | marl/trainer.py:70-99 | the loops compute the mixing function |
| Mixers.ForwardIsSum | marl/trainer.py:70-99 | the mixed value as sums: bias of the state, plus each unit activated by all weighted agent values and weighted itself |
| Mixers.MonotonicMixer.Update | marl/trainer.py:101-125 | exactly the bias network and the first hypernetwork move, each by its clipped step |
| Mixers.UpdateFollowsError | marl/trainer.py:101-125 | each trained number moves along the error by its share, up to [-5, 5]; two hypernetworks stay |
| Mixers.ForwardMonotone | marl/trainer.py:70-99 | the mixed value is monotone in all agent values, for every state and all parameters |
| Mixers.IndividualGlobalMax | marl/trainer.py:186 | agents that each pick their own best action maximise the mixed value over all joint actions |
| Mixers.EluMonotone | marl/trainer.py:639-643 | the activation with its cut-off is monotone |
| Mixers.EluIs | marl/trainer.py:639-643 | the identity from 0 on, exp(x) - 1 down to -10, constant below |
| Trainers.FitActorHead | marl/trainer.py:734-762 | the loops run the sample steps of all epochs in order and end in the boxes |
| Trainers.HeadStepImitates | marl/trainer.py:745-762 | each output moves towards its target by 0.08 times the sample weight, at most 1/4, within its bounds |
| Trainers.HeadInBox | marl/trainer.py:734-762 | for any orders and epochs biases stay within the targets' column bounds and weights in [-1, 1] |
| Trainers.TopRewardMeanBetween | marl/trainer.py:662-664 | the initial bias lies within the column bounds |
| Trainers.TopRewardMeanIs | marl/trainer.py:662-664 | the initial bias is the mean of the eight best rewarded rows, or of all if there are fewer |
| Trainers.SortSorts | marl/trainer.py:662-664 | rows are ordered by falling reward, as a permutation |
| Trainers.Bounds | marl/trainer.py:667-677 | the loop computes the least and greatest entry of every column |
| BatchTraining.FitBatch | marl/trainer.py:201-312 | rejects empty and misaligned batches and sample lists, otherwise runs all epochs and ends with actor, critics and mixer in their boxes |
| BatchTraining.AlignedIff | marl/trainer.py:209-212 | a batch is accepted iff there is a row and nine lists are as long as the list of features |
| BatchTraining.TrainSample | marl/trainer.py:248-307 | one sample updates role critics, mixer, linear critic and actor from errors of the state before |
| BatchTraining.SampleFollowsErrors | marl/trainer.py:248-307 | with value and target written out: every part moves along its own error by its own rate, within its bounds |
| BatchTraining.BiasesFollowError | marl/trainer.py:262-288 | away from the bounds, role and mixer biases rise iff the target exceeds the mixed value, fall iff it is below; the linear critic likewise |
| BatchTraining.StartIs | marl/trainer.py:221-236 | training starts from the mean reward, split evenly over the roles, and the best samples' mean action |
| BatchTraining.TrainingStaysInBoxes | marl/trainer.py:240-312 | for every batch, initial mixer, number of epochs and order, all trained parameters stay in their boxes |
| Organization.Evaluate | marl/organization.py:96-151 | roles, level, freezes, blocked fields with reasons, notes and missions of an observation |
| Organization.LevelIff | marl/organization.py:263-276 | exactly when a node is nominal or critical, and when membership and lane tuning freeze |
| Organization.ActiveRolesIff | marl/organization.py:96-113 | exactly when each role is active |
| Organization.RecordedIff | marl/organization.py:130-141 | exactly which reasons are recorded for which field |
| Organization.NotedIff | marl/organization.py:130-141 | exactly what a decision notes, and in which order |
| Organization.PursuedIff | marl/organization.py:142-148 | exactly which missions a node pursues |
| Organization.OrganizationDecision.Block | marl/organization.py:53-58 | blocks fields, each reason once per field |
| Organization.ReasonsAreExact | marl/organization.py:53-58 | a field's recorded reasons are exactly those of the groups that name it, and none iff it is not blocked |
| Organization.MissionsAreUnion | marl/organization.py:142-148 | the missions of the active roles, without duplicates |
| Organization.SomeRoleIsActive | marl/organization.py:159-171 | the pass-through for no active role is unreachable |
| Organization.AllowedIff | marl/organization.py:153-158 | exactly when each field may be changed |
| Organization.StressOnlyRestricts | marl/organization.py:96-158 | more stress never frees a field other than the pacemaker timeout, and never takes that one away |
| Organization.CannotParticipateFreezesIff | marl/organization.py:232-282 | for a node that cannot participate, all membership fields are frozen iff changes are pending or the node is not quiet |
| Organization.CannotParticipateNeverBlocks | marl/organization.py:270-273 | losing the ability to participate never takes away a field |
| Policies.CannotParticipateYetLeaves | marl/policy.py:14-49 | instance: a quiet validator that cannot participate decides to leave |
| Policies.Sanitize | marl/organization.py:153-210 | the governed action, including dropped agents and the explanation |
| Policies.ProjectAction | marl/policy.py:14-49 | the projected action |
| Policies.DecisionInGuardrails | marl/policy.py:118-119 | every decision is inside all guardrails, never joins and leaves at once, and addresses observed instances only |
| Policies.BlockedFieldsAreHeld | marl/organization.py:286-287 | a field that may not change ends at its clamped observed value |
| Policies.AllowedFieldsFollow | marl/organization.py:286-287 | an allowed field ends up at the proposed value, moved into the guardrails |
| Policies.DecidedAgentsFollow | marl/organization.py:289-322 | one decided action for each proposed one of an observed instance, in order, each field proposed or held |
| Policies.DecisionExplains | marl/organization.py:204-210 | the explanation extends the proposal's by roles, level and notes |
| Policies.JoinsAndLeavesIff | marl/policy.py:19-23 | exactly when a decision joins or leaves |
| Policies.DecidingAgainChangesNothing | marl/policy.py:118-119 | deciding on a decision changes only the explanation |
| Reconfiguration.ReconfigurationEngine.Execute | experiments/run_e2e_experiments.py:262-299 | moves iff cooled down, needed and possible; conserves nodes; donor least threatened and above its reserve; target grows within its need; cooldown rate kept |
| Reconfiguration.EligibleIff | experiments/run_e2e_experiments.py:284-287 | an instance can give iff it keeps two nodes more than 3 f n + 2, rounded down |
| Reconfiguration.NeedsAreResilient | experiments/run_e2e_experiments.py:273-287 | for f n faulty nodes an instance needs 3 f n + 1 nodes, rounded down, and a donor keeps one more |
| Reconfiguration.DonorStaysResilient | experiments/run_e2e_experiments.py:284-292 | the donor keeps at least int(3 f n) + 3 nodes |
| EvictionSafety.EvictionsStopAtQuorum | marl/networks/safety_guardian.py:342-361 | over any number of proposals the mask stops exactly at 3 max(1, f) + 1 + delta |
| EvictionSafety.AtMostOneEviction | experiments/sfac_facmac.py:733-754 | under the protocol bound at most one eviction passes, exactly for sizes divisible by three, and tolerated faults never change |
| EvictionSafety.PassesIffRemainder | experiments/sfac_facmac.py:745-752 | for any margin an eviction passes iff the remainder of n - 1 by 3 exceeds it |
| EvictionSafety.OnlySpareEvictionsPass | experiments/sfac_facmac.py:733-754 | over any run of proposals and any margin exactly the spare evictions pass, and tolerated faults never change |
| EvictionSafety.PreArgmaxSafetyMask | marl/networks/safety_guardian.py:391-431 | only column 0 of unsafe rows becomes 0 |
| EvictionSafety.EvictionAllowedIff | marl/networks/safety_guardian.py:342-431 | exactly when the mask lets an instance evict, defaults included |
| EvictionSafety.MaskTwiceIsMaskOnce | marl/networks/safety_guardian.py:391-431 | on whole matrices the mask is idempotent, and changes nothing iff the unsafe rows already start with 0 |
| EvictionSafety.SafetyFilter | experiments/sfac_facmac.py:733-754 | only blocked proposals become 0; proposals that pass the protocol bound have sizes divisible by three |
| EvictionSafety.BlockedIff | experiments/sfac_facmac.py:740-754 | exactly which proposals are blocked, with the fault bound pinned from both sides |
| EvictionSafety.EstimateFaultsFromFeatures | marl/networks/safety_guardian.py:364-388 | the number of nodes above the threshold, at least one |
| EvictionSafety.EstimateFaults | src/cmd/evolvbft/adaptive_runtime.go:709-740 | the capped number of suspects, with 3f + 1 <= n iff n >= 1 |
| WeightedReplay.WeightedPriorityOrder | marl/replay.py:73-86 | terminates, one item per round, with a permutation of the items for any draws |
| WeightedReplay.PickIndex | marl/replay.py:79-85 | the inner loop is the roulette scan and finds an item iff the threshold is within the total |
| WeightedReplay.DrawnIffInStretch | marl/replay.py:73-96 | a sample is drawn by a stretch of draws as long as its share of all chances: 1, plus 2, 4 and 3 |
| WeightedReplay.OrderIsPermutation | marl/replay.py:73-86 | the weighted order is a permutation whatever the draws |
| WeightedReplay.ReplayBuffer.Sample | marl/replay.py:42-54 | min(batch, length) samples, each no more often than stored, or the mode is unsupported |
| WeightedReplay.ReplayBuffer.Push | marl/replay.py:35-36 | the buffer holds the most recent samples |
| WeightedReplay.PositionsWithin | marl/replay.py:47-50 | distinct positions take each item no more often than it is there |
| ShardPlacement.Disseminate | src/cmd/evolvbft-das/main.go:67-76 | the loops place shard v mod shards on each of the first R * shards nodes and nothing else |
| ShardPlacement.EveryShardReplicated | src/cmd/evolvbft-das/main.go:62-76 | each shard is on exactly nodes / shards nodes, no node has two |
| ShardPlacement.LookupSucceedsIff | src/cmd/evolvbft-das/main.go:95-109 | every lookup finds its shard intact iff there are at least as many nodes as shards |
| ShardPlacement.Lookup | src/cmd/evolvbft-das/main.go:100-109 | asks the homes in order |
| ShardPlacement.FirstHolderIs | src/cmd/evolvbft-das/main.go:100-109 | whatever the nodes hold, a lookup finds the shard at the first of its homes that has it, and fails iff none has |
| ShardPlacement.Sample | src/cmd/evolvbft-das/main.go:89-115 | an observer collects all its samples, or none if there are too few nodes |
| ShardPlacement.GatherFromCommittee | src/cmd/evolvbft-das/main.go:126-136 | the first c nodes together hold exactly the first min(c, shards) shards |

## Left out

- Float rounding: all arithmetic is exact, so thresholds that only rounding could miss are always met.
- Mutexes: every method is one atomic step.
- PrioritizedReplay: a temporal-difference offset of 0 (the constructor's `epsilon`) is excluded, because its purpose is to keep priorities positive.
- PrioritizedReplay.PrioritizedReplayBuffer.UpdatePriorities: negative indices, which would write to inner nodes, are excluded; they never come out of sampling.
- Gae: the critic network is a list of values; reward augmentation and the surrounding PPO update are not modelled.
- DetectionLatency: throughput, rewards, safety-violation counts and recovery times of the same function.
- Trainers.FitActorHead: the call with no rows, which returns empty weights; its only caller skips it.
- BatchTraining.FitBatch: rows of uneven length; error histories, role and agent heads (`Trainers` has the role head), the count of disagreeing choices and checkpoints, which is all that candidate and governed actions are used for; non-finite rewards.
- Mixers: hypernetwork initialization (its draws are a parameter) and weight serialization.
- Organization: the evidence and role-field maps of a decision and the published snapshot.
- Policies: how the model proposes an action; a proposal is a parameter.
- EvictionSafety.EstimateFaults: fusion and decay of fault probabilities, which are given here as one map.
- Reconfiguration: how a target is chosen; the random generator that `execute` receives but does not use.
- ShardPlacement: erasure coding, Merkle proofs and reconstruction; traffic counts and timing.
- Orderers: channels, goroutines and the ticker; each input or tick is one step with its own clock readings.
- BlockTrees: nil blocks and blocks without a hash, block phases, and log output.
- Replicas: message formats and signatures, epochs, lanes and ranks, reputation and the choice of leaders, which is a fixed function of the view; a proposal that fails one of those checks is one that is not admitted.
- Finality: there is no order between events of different replicas, so the results hold for any; validators have equal power, and votes of a sortition committee count towards the quorum of all.
- Finality.CertifiedDescends: needs that an honest replica has stored the parents of what it votes for (`CommitGaps.MissingParentsLoseFinality`).
- CommitGaps.FinalIffConsecutive: a single replica, which certifies each own block at once, is not covered.
- Executor, view change certificates, beacon, reputation, membership and network layers.
