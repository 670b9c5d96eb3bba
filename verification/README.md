# C-CFR in Dafny

C-CFR learns game strategies by counterfactual regret minimisation. This project models its learning store,
its tree algorithms, its compacting optimiser for blackjack, its checkpoint format and its blackjack rules, and
proves what each is for. Utilities, probabilities and accumulated sums are real numbers; in checkpoints a double
is its 64-bit pattern. Threads are interleaved atomic steps. Allocation failures are parameters where the code's
answer to them matters.

How the files hang together:

- **Evaluation.** `Sums` and `BestResponse` hold the theory: on a tree laid out in pre-order, a best response found
  information set by information set is a maximum over all behavioural strategies when there is perfect recall.
  `GameTree` and `Layout` say what a pre-order layout of a game is, `Construction` what building it checks,
  `Solver` what its caches mean while groups are being solved, `Optimality` what the finished numbers mean,
  `PathSums` that an expected utility is also the sum over the ends of the game weighed by their paths,
  `EvaluationChecks` which games are accepted and what each error means, with the tolerances written out.
  `Evaluation` is the workspace itself: build, memoised mutual recursion, metrics.
- **Learning.** `Play` is a game as the traversals meet it: callbacks over a state that actions change and undo
  restores, for one to four players, and the tree of what can follow. `RegretMatching` holds strategies of one node
  and the potential argument, `Traversal` the full traversal of such a game from the seat being trained, with its slices of an arena and `IndexTable` the open-addressed table that finds them, `Sampling` the
  division of all 64-bit words among actions, `ExternalSampling` the sampled walk, `SnapshotRefinement` and
  `SampledRegret` what it does, `ActionOrder` exactly when its two implementations part, `Mccfr` the walk as it runs.
  `Trainer` is the loop around any traversal, `Training` the loop around the full one and `SampledTraining` around
  the sampled one. `TrainingSteps` and `SampledSteps` say, action by action and of the game alone, what one traversal
  and its commit leave in the sums and when they succeed; `SampledSuccess` on which games sampling always succeeds.
- **Shared state.** `Commit` is the multi-node commit protocol, with back-off and with blocking workers together,
  `CommitDecisions` which commits it accepts and what each of them changes;
  `Seqlock` the lock-free reader of regrets; `ProbeTable`, `Hashing` and `InfoStore` the sequential store and its
  arena; `ShardedStore` the steps inside one shard of the concurrent store, `ConcurrentStore` the whole of it with
  workers that cross shards and reservations that lock them all, `Reservations` what a granted one guarantees,
  `StoreMemory` when an operation can fail, with memory and without, `StoreGrowth` when tables grow;
  `RadixSort` both sorts.
- **Compact blackjack.** `BlackjackRules` and `Blackjack` are the game and its reversible state, `BlackjackRounds`
  whole rounds told by the cards, `CompactBlackjack`
  the encoding and the bisimulation, `Dag` the order and the reach pass on any graph, `CompactGraph` the merged game,
  `CompactTraining` the tool's training on it, `BlackjackTree` the proof that this is the library's own training on
  the whole unmerged game.
- **Checkpoints.** `Crc` is the checksum, `Checkpoint` the format and a functional reader, `CheckpointIntegrity`
  what damage does and why bytes depend on content only, `CheckpointLayout` where every byte stands, `Doubles` which
  numbers the stored patterns are, `CheckpointStream` and `CheckpointWriter` the reader and
  the writer step by step, `CheckpointRewrite` what reading and writing again does to the bytes.

Where the code and a first reading of it part:

- The sequential sampled traversal compares an information set's actions only where it samples, the concurrent one
  at every later visit. Alone, the concurrent one succeeds exactly when the sequential one does and meets no
  information set with two lists of actions (`ActionOrder.AloneIff`); a game that lists them in one order is enough
  (`SnapshotRefinement.AloneAgrees`), and there is a game on which they part (`SnapshotRefinement.OrderMatters`).
- The checkpoint reader accepts records in any order while the writer sorts them. Reading a file and writing it again
  gives the same bytes exactly when its records were in increasing key order (`CheckpointRewrite.RewriteIff`,
  `CheckpointRewrite.LoadThenSave`); any two good records the other way round are a file that does not come back
  (`CheckpointRewrite.FallingPair`, `CheckpointRewrite.RewritingReorders`).
- Damage detection is stronger than one byte: no change inside four neighbouring bytes goes unnoticed, the stored
  checksum included (`CheckpointIntegrity.DamageIsRejected`).
- A random state is saved only for the sampling variant; a resumed run of the other two agrees with an unbroken one
  on everything but the random state, which they do not use (`Trainer.ResumedRun`, `Training.ResumedTraining`).

## Model

| member | source | states |
|---|---|---|
| BestResponse.SolvedIsOptimal | src/evaluation.c:936-1041 | under perfect recall no behavioural strategy of the responder, pure or mixed, earns more at the root than the solved value |
| BestResponse.NeverAgain | src/evaluation.c:957-971 | with perfect recall no path meets an information set twice, so a group is never re-entered |
| BestResponse.ValuesUnique | src/evaluation.c:1043-1166 | a strategy has one value at each node, so a memoised value is the value |
| BestResponse.PureIsStrategy | src/evaluation.c:1020-1041 | the selected actions are themselves a strategy the responder may play |
| Solver.FinishedIsSolved | src/evaluation.c:936-1166 | when the root has a value, every value and every selection in the caches is right for the whole tree |
| Solver.SoundDespiteOther | src/evaluation.c:1201-1226 | solving one player's groups leaves the other player's findings right |
| Layout.FlatIsPreorder | src/evaluation.c:688-883 | the built arrays are a pre-order of the tree: each subtree is one interval |
| Layout.FlatReaches | src/evaluation.c:842-868 | the stored reach of a node is the product, along its path, of everything but one player's own choices |
| Layout.FlatHistories | src/evaluation.c:688-883 | each node's own past is the sequence of information sets and actions leading to it |
| Construction.SucceedsIff | src/evaluation.c:501-642 | construction finds no error exactly when each position passes alone and equal information sets list equal actions |
| Evaluation.EvaluationWorkspace.Build | src/evaluation.c:688-883 | building reports the first failing position in pre-order, or appends exactly the visits and edges of the subtree |
| Evaluation.EvaluationWorkspace.AppendDecision | src/evaluation.c:536-642 | a decision joins its information set's chain, and is refused exactly when the set is known with other actions |
| Evaluation.EvaluationWorkspace.BestResponseValue | src/evaluation.c:1043-1166 | keeps all caches sound; fails only by meeting a set still being solved, which perfect recall rules out; terminates |
| Evaluation.EvaluationWorkspace.SolveGroup | src/evaluation.c:936-1041 | a solved group holds the first action with the largest reach-weighted total over all its members |
| Evaluation.EvaluationWorkspace.ProfileValue | src/evaluation.c:885-934 | the value of a node is the expected utility of the learned profile from there |
| Evaluation.EvaluationWorkspace.RootBestResponse | src/evaluation.c:1286-1309 | a success is the value of some strategy; under perfect recall the search succeeds with the maximum over all strategies |
| Evaluation.EvaluationWorkspace.CalculateMetrics | src/evaluation.c:1168-1237 | under perfect recall an error exactly when the profile values are not zero-sum within tolerance, and otherwise the exact metrics; without it, a success still reports exact profile values and best responses that some strategy earns |
| Evaluation.Summarise | src/evaluation.c:1190-1235 | which of the three outcomes there is, and the metrics of a success; improvements and exploitability are never negative |
| Evaluation.EvaluateMetrics | src/evaluation.c:1311-1351 | evaluation of a whole game: the first construction error and the position it is about, or under perfect recall exact best responses and exploitability; on an exactly zero-sum game in order it succeeds, and any success bounds what the two utilities of every end add up to by the tolerances |
| EvaluationChecks.BuildsIff | src/evaluation.c:501-883 | construction succeeds exactly when all ends pay opposite amounts and all chance nodes add up to one within tolerance, branches are in number, stored sums fit and are not negative, and information sets are consistent |
| EvaluationChecks.FailureIsNamed | src/evaluation.c:501-883 | a failing construction names the first position in pre-order that does not fit, and each error what is wrong with it |
| PathSums.UtilityOverEnds | src/evaluation.c:885-934 | the profile's expected utility is what the ends pay, each weighed by the probability of the path to it |
| PathSums.PathsAgree | src/evaluation.c:842-868 | what excludes a player times what that player did is one probability, whichever player is asked |
| Optimality.FinishedIsAttained | src/evaluation.c:936-1166 | whatever the players remember, a finished search has found the value of a strategy |
| Optimality.FinishedIsBest | src/evaluation.c:936-1166 | a finished search holds the maximum over all strategies on the tree itself, and it is achieved |
| Optimality.ExploitabilityMeans | src/evaluation.c:1201-1235 | exploitability is never negative, and zero exactly at an equilibrium |
| Optimality.ZeroSumProfile | src/evaluation.c:209-218 | in an exactly zero-sum game the two profile values add up to zero |
| RegretMatching.MatchIsDistribution | src/info_node.c:220-254 | regret matching gives non-negative probabilities that add up to one, for any regrets |
| RegretMatching.MatchIsFair | src/info_node.c:220-254 | actions are played in the ratio of their positive regrets, those without any not at all, and all alike when none has any |
| RegretMatching.CurrentStrategyLocked | src/info_node.c:220-254 | scaling by the largest regret first gives the plain regret-matching strategy, and only that part of the buffer is written |
| RegretMatching.CurrentStrategyInPlace | src/info_node.c:295-337 | the lock-free reader's in-place form gives the same strategy |
| RegretMatching.AverageStrategyLocked | src/info_node.c:562-594 | fails exactly on a negative accumulator, writing nothing; otherwise normalises, or is uniform on zeros |
| RegretMatching.PotentialStep | src/info_node.c:451-461 | a commit orthogonal to the current strategy raises the sum of squared positive regrets by at most its squared norm |
| RegretMatching.ClampKeepsPotential | src/info_node.c:483-490 | clamping leaves that sum alone |
| RegretMatching.PotentialOverRun | src/info_node.c:451-490 | over any run of such commits the sum grows by at most the squared norms |
| RegretMatching.RegretGrowsSublinearly | src/info_node.c:220-254 | from a fresh node, after T commits of squared norm at most b, every regret r has r^2 at most bT |
| Traversal.FullTraversal.TraverseBranch | src/traversal.c:348-502 | by apply and undo on a game of any number of players: the state ends as it began, the utility is exact, each history adds its share to its own information set only, every position is counted once, nodes and failures are those of `Touch` |
| Traversal.FullTraversal.TraverseAndCommit | src/traversal.c:581-626 | status and all sums afterwards are one function of the sums before, the game and the seat, which `TrainingSteps.SeatLearns` and `TrainingSteps.SeatSucceedsIff` spell out; a failure commits nothing; the state is restored |
| Traversal.UnfoldsShows | src/traversal.c:386-391 | what can follow a state, seen from any seat, others and chance together weighing its regrets |
| Traversal.FullTraversal.FindOrCreateEntry | src/traversal.c:288-346 | the open-addressed table finds the set's slice or gains a new one; a new slice, a grown table or a grown arena changes no pending amount |
| Traversal.FullTraversal.CommitDeltas | src/traversal.c:221-261 | every visited set gains, action by action, its pending regrets, with zero for a negative sum under CFR+ and only there, and its pending strategy sums; no other changes |
| Traversal.TraversalOrthogonal | src/traversal.c:474-498 | what a whole traversal accumulates at a set is orthogonal to the strategy played there |
| Traversal.CommittedTrains | src/traversal.c:221-261 | committing the slices makes exactly the sums of the training step |
| Traversal.AllowedIsCommittable | src/traversal.c:196-219 | the check over slices refuses exactly when some strategy sum would become negative |
| TrainingSteps.SeatLearns | src/traversal.c:221-261 | after a successful traversal and commit each regret of a met set is what it was plus, over the set's histories, the others' reach times what the action earns above the average, or zero if that is negative under CFR+; each strategy sum gains own reach times strategy times weight; all else is as it was |
| TrainingSteps.SeatSucceedsIff | src/traversal.c:581-626 | success exactly when the seat and the weight are valid, every position is passable, and no strategy sum takes in or becomes something negative |
| TrainingSteps.WalkSucceedsIff | src/traversal.c:348-502 | the walk meets no error exactly when branches are in number, chance nodes are distributions, and each information set has one number of actions |
| Traversal.RegretOverRun | src/traversal.c:565-579 | over any training run, each turn on the game as its player sees it, squared positive regret grows by at most the squared norms of the increments |
| IndexTable.Rebuild | src/traversal.c:263-286 | rebuilding from the entries in their order stands for the same map and keeps every key reachable |
| IndexTable.EnteredOk | src/traversal.c:288-346 | filling the cell where the probe ended adds just that entry |
| Training.RunTrains | src/trainer.c:182-215 | a successful run of the trainer, in a game of any number of players, is a training run at every information set: all players in order, each from its own seat, with linear weights for CFR+ |
| Training.TurnsAre | src/trainer.c:182-215 | the turns of that run spelt out: each iteration every player in order from its own seat, with weight one, or the number of the iteration under CFR+ |
| Training.RunBoundsRegret | src/trainer.c:182-215 | over any successful run of CFR or CFR+ on any game of one to four players, squared positive regret of every set grows by at most the squared norms of its traversals' increments |
| Training.FullStepIff | src/traversal.c:588-606 | from non-negative strategy sums a player is trained exactly when there is such a seat and the walk meets no error; anything else is an invalid argument |
| Training.RefusedStep | src/traversal.c:196-219 | a commit that would leave a negative strategy sum is refused as a numeric error, and the sums and the random state stay |
| Training.CommitNeverRefused | src/traversal.c:196-219 | non-negative strategy sums stay so, and then a traversal that meets no error is always committed |
| Training.FullIsUnsampled | src/trainer.c:54-59 | the full traversal neither reads nor passes on the random state |
| Training.ResumedTraining | src/trainer.c:182-215 | stopping CFR or CFR+, saving, loading and going on agrees with an unbroken run |
| SampledTraining.SampledStepIff | src/mccfr_sequential.c:911-936 | from non-negative strategy sums a player is trained exactly when the walk meets no error, in games of any number of players; otherwise the walk's error is passed on |
| SampledTraining.SnapshotStepIff | src/mccfr.c:1121-1145 | with snapshots exactly when without, and no information set is met with two lists of actions; then to the same end |
| SampledTraining.SnapshotRun | src/trainer.c:182-215 | a successful run of the trainer with snapshots is the run without |
| SampledTraining.RunBoundsRegret | src/trainer.c:182-215 | over any successful run of the sampling trainer, whatever it draws, the same bound holds |
| SampledTraining.ResumedTraining | src/trainer.c:182-215 | stopping, saving, loading and going on with sampling equals the unbroken run, random state included |
| Commit.UnlockedIsSerial | src/mccfr.c:677-735 | in every state of every run, an unlocked node holds what the decided commits give one after another, each as a whole |
| Commit.FinishedIsSerial | src/mccfr.c:677-735 | when all workers are done, the nodes are the serial result of an interleaving of all jobs; what one step of that result is, `CommitDecisions.EveryDecision` says |
| CommitDecisions.EveryDecision | src/info_node.c:374-397 | in every run, a decided commit adds all its deltas exactly when every delta and resulting sum is finite, no strategy delta is negative and no strategy sum would be; otherwise it changes nothing |
| CommitDecisions.SumsStayHealthy | src/mccfr.c:653-675 | in every state of every run all sums stay finite and strategy sums non-negative, half-written commits included |
| CommitDecisions.LoneWorkerFinishes | src/mccfr.c:677-735 | a worker by itself finishes all its jobs in a bounded number of turns |
| Commit.ProgramOrder | src/mccfr.c:1123-1145 | each worker's jobs are decided once each, in its own order |
| Commit.BackOffHoldsNothing | src/mccfr.c:692-724 | a worker that backs off holds no lock while it waits |
| Commit.WaitingClimbs | src/traversal.c:159-194 | along waiting workers the wanted nodes climb in the lock order, back-off workers among them |
| Commit.NoWaitingCycle | src/traversal.c:242-261 | no worker waits, directly or through others, for itself |
| Commit.NeverStuck | src/mccfr.c:677-735 | in every state of every run some unfinished worker can step |
| Commit.Conservation | src/info_node.c:463-472 | every accumulator that nothing clamps is its initial value plus the committed deltas |
| Commit.ClampedCommit | src/info_node.c:483-490 | a clamped regret is the larger of zero and the plain sum |
| Seqlock.AcceptedIsCommitted | src/info_node.c:269-337 | in any interleaving with writers, an accepted copy is the complete array as it stood between two whole updates |
| Seqlock.AcceptedStrategy | src/info_node.c:295-337 | the strategy computed from it is what a locked reader would have computed, and a distribution |
| Seqlock.ProgramsAreMade | src/info_node.c:440-490 | in any run the updates of the history are the writers' programs, each in its order, apart from clamps that had nothing to do |
| Seqlock.EffectMeans | src/info_node.c:440-490 | an update publishes values, adds deltas, or lifts one negative entry to zero |
| Seqlock.SkippedIsIdle | src/info_node.c:483-490 | a clamp is skipped exactly when it would change nothing |
| Seqlock.UndisturbedIsAccepted | src/info_node.c:269-337 | a reader that nobody disturbs between updates has accepted the whole array after one turn for each entry and two more |
| ProbeTable.LocateFinds | src/info_store.c:554-582 | a probe finds a key exactly when the table stands for it, at the cell that holds it |
| ProbeTable.InsertOk | src/info_store.c:554-582 | filling the vacant cell where a probe ended keeps every key reachable and adds just that key |
| ProbeTable.NeverFull | src/info_store.c:554-582 | with a free cell left, no probe comes back full |
| ProbeTable.RehashKeepsMap | src/info_store.c:584-625 | rehashing keeps the map, the probe invariant and the count |
| Hashing.HomeOfOk | src/info_store.c:405-410 | the dispersed hash gives every key a home inside any capacity in use |
| Hashing.ShardHomeOk | src/info_store.c:429-434 | so does the shard's, which leaves out the shard bits |
| InfoStore.InfoStore.AlwaysRoom | src/info_store.c:1365-1409 | at three quarters load there is always a free cell, so the full answer cannot occur |
| InfoStore.InfoStore.GetOrCreate | src/info_store.c:1365-1409 | finds the node or adds one new key; an action count that differs, or any failure, changes nothing; nodes never move; the table doubles exactly when it is three quarters full |
| InfoStore.InfoStore.Find | src/info_store.c:1231-1270 | finds a node exactly when the map has the key |
| InfoStore.InfoStore.Rebuild | src/info_store.c:584-625 | a larger table stands for the same map; without memory nothing changes |
| InfoStore.InfoStore.Reserve | src/info_store.c:1150-1186 | a success leaves room for the wanted nodes without further growth; with memory it succeeds whenever some table that can be had admits them |
| InfoStore.TargetCapacity | src/info_store.c:1166-1178 | the smallest doubling whose load limit admits the wanted nodes |
| InfoStore.AllocationIsFresh | src/info_store.c:218-262 | a new node overlaps no other node of the arena, and has room for its header and both arrays of sums |
| InfoStore.RollbackRestores | src/info_store.c:197-216 | rolling back to a mark restores the arena exactly |
| ConcurrentStore.Linearizable | src/info_store.c:804-917 | from the prepared store, in every run, every finished operation of every worker in any shard answered what the whole map held at one instant between its beginning and its end |
| StoreMemory.FailsOnlyWhenFull | src/info_store.c:829-1027 | in every run with memory, a key is refused only by a shard with the largest table three quarters full, and a reservation is granted exactly when it asks for no more than three quarters of the largest tables |
| StoreMemory.LoneCreates | src/info_store.c:829-917 | with memory, a lone worker asking for an absent key of a shard that is not full has created it within a bounded number of turns, and the map holds the new node |
| StoreMemory.LoneReserves | src/info_store.c:965-1027 | a lone reservation is answered within twenty-one turns |
| StoreMemory.NothingWithoutMemory | src/info_store.c:829-1027 | in every run without memory no table, node or map changes |
| StoreMemory.EveryKeyHasCreator | src/info_store.c:829-917 | in every run a key of the map was there at the beginning or belongs to an operation that answers that it created it |
| StoreGrowth.GrowsOnlyWhenFull | src/info_store.c:884-905 | in every run without reservations a replaced table was three quarters taken, and the next is twice as large |
| StoreGrowth.ReservationIsModest | src/info_store.c:965-1027 | half of what a reservation plans for a shard would be too small for what is asked, or for what is there |
| ConcurrentStore.NeverMissed | src/info_store.c:804-827 | a lookup begun when the key was in the map finds its node, whatever insertion, growth or reservation happens meanwhile |
| ConcurrentStore.StableIdentity | src/info_store.c:507-552 | one node per key for ever: the whole map only grows, and every entry of any retired table is in its shard's active one |
| ConcurrentStore.ProgramOrder | src/info_store.c:829-917 | each worker's operations are answered once each, in its own order |
| ConcurrentStore.GrantedMakesRoom | src/info_store.c:965-1027 | a granted reservation, while it holds all locks, has made room for its share in every shard, together at least what was asked |
| Reservations.GrantedKeepsRoom | src/info_store.c:965-1027 | a reservation answered as granted has that room in every shard from its end on, in every run |
| ConcurrentStore.NeverStuck | src/info_store.c:919-931 | in every state of every run some unfinished worker can step, reservations that lock every shard included |
| ConcurrentStore.PreparedInv | src/info_store.c:673-802 | the store made by distributing a sound sequential table over four shards is sound, with the capacities the code computes |
| ConcurrentStore.PreparedMap | src/info_store.c:673-802 | distributing changes nothing of the map |
| ShardedStore.TagNeverRejects | src/info_store.c:412-427 | comparing tags before keys never turns away a matching key |
| ShardedStore.PreparedIsOk | src/info_store.c:733-741 | each shard gets a sound table of exactly its keys, within the load limit of the computed capacity |
| RadixSort.RadixSortNodes | src/info_store.c:352-398 | eight passes leave a sorted permutation in the caller's array |
| RadixSort.SignedOrder | src/info_store.c:352-398 | with the top bit flipped, unsigned order is signed order |
| RadixSort.PassSorts | src/info_store.c:365-391 | a stable pass extends the sorted low bytes by one |
| RadixSort.SkippedPass | src/mccfr.c:619-622 | a pass over a byte on which all agree would change nothing |
| RadixSort.SortDeltaEntries | src/mccfr.c:583-651 | both ways of sorting leave pointer order and the same entries |
| Sampling.Partition | src/mccfr.c:410-456 | the intervals fill all 2^64 words, and are empty exactly for zero probabilities |
| Sampling.IntervalNearShare | src/mccfr.c:427-447 | with k positive actions an interval differs from the exact share by at most k + 1 words |
| Sampling.OnlyOne | src/mccfr.c:421-454 | a word belongs to one action only |
| Sampling.SampleIndex | src/mccfr.c:388-457 | draws the action whose interval holds the word, and fails exactly on invalid probabilities |
| SnapshotRefinement.SnapshotsRefine | src/mccfr.c:468-576 | however others change the nodes meanwhile, a snapshotting traversal ends as the sequential one does on a profile agreeing with its snapshots: utility, visits, random state, changes |
| SnapshotRefinement.AloneAgrees | src/mccfr_sequential.c:422-485 | alone, with one order of actions per information set, both traversals end alike, failures included |
| SnapshotRefinement.OrderMatters | src/mccfr.c:485-499 | without one order of actions there is a game on which they end differently |
| ActionOrder.AloneIff | src/mccfr.c:485-499 | alone, the snapshotting traversal succeeds exactly when the sequential one does and meets no information set with two lists of actions, and then both end alike |
| SampledRegret.TraverseSound | src/mccfr_sequential.c:530-603 | each pending regret change is orthogonal to the strategy played, each strategy change a multiple of it, in both passes |
| SampledRegret.SampledPotential | src/mccfr_sequential.c:503-512 | committing a sampled traversal raises a node's potential by at most the squared norm of its change |
| SampledRegret.UtilityIsAverage | src/mccfr_sequential.c:663-690 | the utility of a target node is the average of its branches under the strategy |
| SampledSteps.TraverseRecords | src/mccfr.c:753-876 | the pending changes of a traversal are sums over the positions it met, every one of which is counted: for a regret the action's utility less the strategy's average of the branch utilities, for a strategy sum the strategy times own reach, one, or reach divided by the probability of the uniform choices |
| SampledSteps.TeachAdds | src/mccfr.c:677-735 | a successful traversal and commit add exactly that to every action's sums |
| SampledSteps.TraverseEarns | src/mccfr_sequential.c:654-700 | the utility of a traversal that begins with the target is the average there of what the branches earned |
| SampledSteps.OneChoiceRecords | src/mccfr_sequential.c:530-573 | where the target chooses once among ends, each action's recorded regret is what it is worth above the average |
| SampledSuccess.PlayableSucceeds | src/mccfr_sequential.c:785-876 | on a game in order, with one list of actions per information set, a traversal succeeds for every player, strategy and random state |
| ExternalSampling.PickDraws | src/mccfr_sequential.c:385-418 | the chosen action is the one whose interval holds the word, and it has positive probability |
| ExternalSampling.UniformParts | src/mccfr_sequential.c:606-640 | the words of each uniform choice are those whose top 53 bits lie in its equal part |
| ExternalSampling.StatesDiffer | src/mccfr.c:36-44 | the random state moves on by one constant with every draw and does not come back within 2^64 draws |
| ExternalSampling.WalkKeeps | src/mccfr.c:459-551 | snapshots and sampled actions are only added, never changed, and come from reads of the shared nodes |
| Mccfr.Workspace.StrategyAt | src/mccfr.c:468-551 | the workspace's lookup is the walk's lookup, for either way of reading |
| Mccfr.Workspace.SampleAction | src/mccfr.c:553-576 | one action per information set, drawn at its first use |
| Mccfr.Workspace.TraverseBranch | src/mccfr.c:1002-1081 | by apply and undo: the recursive traversal ends in the result and records of the walk, and the state as it began |
| Mccfr.Workspace.TraverseTarget | src/mccfr.c:878-921 | trying every action, then recording, is the walk's target step, whose record `SampledSteps.TraverseRecords` spells out |
| Mccfr.Workspace.TraverseAndCommit | src/mccfr.c:1082-1145 | both passes, the check, then every change added once, which is what `SampledSteps.TeachAdds` says of each action; status, sums and random state afterwards are one function of those before, and a failure moves neither sums nor random state |
| BlackjackRules.HandIsBestTotal | src/blackjack.c:245-265 | for any cards the running hand is the best total, soft exactly when an ace counts eleven |
| BlackjackRules.AdvanceOk | src/blackjack.c:404-512 | legal actions succeed, others are refused as illegal, and play strictly runs down; capacity errors cannot occur |
| BlackjackRules.RoundsAreBounded | include/cfr/blackjack.h:15-22 | no round has more than 196 transitions, within the undo capacity |
| BlackjackRules.ActionsAreLegal | src/blackjack.c:823-874 | the action list holds exactly the legal actions, each once |
| BlackjackRules.KeyDecodes | src/blackjack.c:1060-1110 | two decisions share a key exactly when up card, total, softness and action class agree |
| BlackjackRules.KeyInRange | src/blackjack.c:1060-1110 | keys stay inside the declared number of information sets |
| BlackjackRules.TraverseIsFold | tools/blackjack_compact_eval.c:775-823 | adding up history by history with reach pushed down is the fold from the root |
| BlackjackRules.EndsAreCertain | src/blackjack.c:975-1005 | under any policy the probabilities of the ends of a round add up to one |
| BlackjackRules.CardIsRank | src/blackjack.c:240-243 | a card is dealt as often as ranks of a suit count as it |
| BlackjackRules.BetterHandWins | src/blackjack.c:728-751 | the better side wins the stake, the player's natural half as much again, a bust loses whatever the dealer does, equals pay nothing |
| BlackjackRounds.RoundByCards | src/blackjack.c:404-512 | a finished round without splits by its cards: the player drew only below twenty-one and once after doubling, the dealer drew below seventeen and stood from there, and the best totals settle what is paid |
| BlackjackRounds.SplitByCards | src/blackjack.c:404-512 | on two cards a hand can be doubled, and split exactly when they are of one rank, hands are fewer than four and they are not aces of a split; a split leaves two hands of one card in its place |
| BlackjackRounds.SecondCardOfSplit | src/blackjack.c:404-512 | a split ace gets one card and no more, any other split card is played on unless it makes twenty-one |
| Blackjack.UndoInverts | src/blackjack.c:926-973 | undo inverts every transition exactly, the hand shift of a split included |
| Blackjack.BlackjackState.ApplyAction | src/blackjack.c:876-915 | checked application: refused states and actions change nothing, a success is the transition with its undo entry |
| Blackjack.BlackjackState.UndoAction | src/blackjack.c:917-973 | checked undo restores the state before the last transition |
| Blackjack.BlackjackState.ApplyReached | src/blackjack.c:886-915 | from a reached state exactly the legal actions are accepted, each reaching the next |
| Blackjack.BlackjackState.UndoReached | src/blackjack.c:926-973 | undo takes a reached state back by one action |
| Blackjack.BlackjackState.Validate | src/blackjack.c:645-695 | replay accepts exactly the states some sequence of actions reaches |
| CompactBlackjack.StepSame | tools/blackjack_compact_eval.c:264-323 | from positions with equal encodings the same actions are legal and lead to equal encodings |
| CompactBlackjack.ActionsSame | tools/blackjack_compact_eval.c:264-323 | equal encodings have the same phase, key and ordered actions |
| CompactBlackjack.PairForgotten | tools/blackjack_compact_eval.c:264-323 | whether a hand is a pair is forgotten unless it is about to be split or the hole card is being dealt |
| CompactBlackjack.UtilityFromEncoding | tools/blackjack_compact_eval.c:264-323 | the terminal utility depends on the encoding only |
| CompactBlackjack.ValueSame | tools/blackjack_compact_eval.c:775-823 | under any policy positions with equal encodings are worth the same |
| CompactBlackjack.FoldSame | tools/blackjack_compact_eval.c:476-607 | any sum over the play that follows is the same for equal encodings |
| CompactBlackjack.SortIsCanonical | tools/blackjack_compact_eval.c:193-222 | sorted hands are equal exactly when the hands are the same up to order |
| CompactBlackjack.CompactSortHands | tools/blackjack_compact_eval.c:211-222 | the in-place insertion sort computes that sorted form |
| Dag.TopologicalOrder | tools/blackjack_compact_eval.c:609-685 | Kahn's algorithm gives an order with every edge forward exactly when the graph is acyclic with the root its only source |
| Dag.ReachPass | tools/blackjack_compact_eval.c:687-734 | the pass along the order solves the reach equations |
| Dag.ReachAddsUp | tools/blackjack_compact_eval.c:687-734 | any quantity weighted by reach adds up to its total over the unfolded tree |
| CompactGraph.CompactGraph.BuildNode | tools/blackjack_compact_eval.c:476-607 | one node per encoding, its subtree complete, earlier nodes as they were |
| CompactGraph.CompactGraph.Order | tools/blackjack_compact_eval.c:609-685 | ordering the merged game always succeeds |
| CompactGraph.EveryPositionHasNode | tools/blackjack_compact_eval.c:476-607 | every position a round can reach has its node |
| CompactGraph.ReachIsRaw | tools/blackjack_compact_eval.c:687-734 | a node's reach is the sum over all raw histories merged into it, for any measure |
| CompactGraph.GroupAddsUp | tools/blackjack_compact_eval.c:1178-1229 | adding over an information set's group is adding over all its raw histories |
| CompactGraph.CompactGraph.ProfileValue | tools/blackjack_compact_eval.c:775-823 | the graph's value is the raw game's value |
| CompactGraph.CompactGraph.Deltas | tools/blackjack_compact_eval.c:1231-1318 | regret and strategy increments of a set equal those of the raw traversal |
| CompactGraph.CompactGraph.CompactIteration | tools/blackjack_compact_eval.c:1245-1290 | under any policy the increments of every set asked for are the raw game's |
| CompactTraining.CompactTrainer.Iterate | tools/blackjack_compact_eval.c:1231-1318 | a whole iteration: strategies by regret matching, the checks, the commits and the clamp; the sums become those of the raw game's step, action by action and clamped only under CFR+, or nothing changes |
| CompactTraining.IterationLearns | tools/blackjack_compact_eval.c:1231-1318 | after a successful iteration each regret is what it was plus the raw game's increment, or zero if that is negative under CFR+, and each strategy sum gained something non-negative |
| CompactTraining.CompactTrainer.Train | tools/blackjack_compact_eval.c:1320-1353 | any number of iterations, stopping at the first failure, leaves the sums of the raw game's training |
| CompactTraining.GroupIsMet | tools/blackjack_compact_eval.c:736-773 | the information sets with a group are exactly those a round can reach |
| BlackjackTree.DealtUnfolds | src/blackjack.c:876-973 | blackjack's own apply and undo play the tree of what can follow, so the traversals apply to it |
| BlackjackTree.UtilityIs | src/traversal.c:348-502 | the full traversal's utility of a position is the value of the round from there |
| BlackjackTree.SharesAre | src/traversal.c:348-502 | the shares the full traversal adds up below a position are the raw walk's, for regrets and strategies |
| BlackjackTree.StepIsTraversal | tools/blackjack_compact_eval.c:1231-1318 | one iteration on the merged game leaves what one full traversal of blackjack's tree and its commit leave |
| BlackjackTree.CompactIsFull | tools/blackjack_compact_eval.c:1320-1353 | training on the merged game leaves the sums the trainer leaves by traversing the whole game |
| BlackjackTree.TrainingSucceeds | tools/blackjack_compact_eval.c:1292-1318 | from non-negative strategy sums training never fails while iterations can be counted |
| Crc.StepIsBitwise | src/checkpoint.c:50-135 | the table step, with the literal table, is eight steps of the bitwise CRC of section 8 of RFC 1952 |
| Crc.StepInjective | src/checkpoint.c:127-135 | equal bytes never merge two running values |
| Crc.FourInjective | src/checkpoint.c:127-135 | no two runs of four bytes lead from one running value to one running value |
| Crc.Update | src/checkpoint.c:127-135 | the loop computes the run of steps |
| Crc.SealedIsResidue | src/checkpoint.c:137-139 | a file ends in its own checksum exactly when the checksum of the whole file is one constant |
| Crc.WindowBreaksSeal | src/checkpoint.c:123-139 | any change inside four neighbouring bytes, trailer included, breaks the seal |
| Checkpoint.KeyRoundTrip | src/checkpoint.c:404-408 | key encoding and decoding are inverse to each other in both directions |
| Checkpoint.RecordComplete | src/checkpoint.c:680-736 | a written node reads back as itself |
| Checkpoint.RecordSound | src/checkpoint.c:680-736 | an accepted node is new, valid, and spelt by exactly the bytes consumed |
| Checkpoint.LoadedIsFile | src/checkpoint.c:738-825 | whatever is accepted is byte for byte the file of what was read, wholly consumed, trailer equal to the checksum |
| Checkpoint.FileLoads | src/checkpoint.c:622-825 | reading a written checkpoint restores variant, random state, counters and every node |
| CheckpointLayout.FileLayout | src/checkpoint.c:410-503 | every byte of a file is accounted for by its offset: mark, version, schema, variant, random state, counters, nodes in order, checksum of all before it |
| CheckpointLayout.SchemaMeans | src/checkpoint.c:166-182 | a schema is one to 255 visible characters |
| Doubles.ChecksMean | src/checkpoint.c:299-308 | a stored pattern passes as finite when it is a number, and as negative when that number is below zero |
| Doubles.RecordMeans | src/checkpoint.c:290-311 | storable nodes are those with actions in number and finite values, no negative strategy sum, and under CFR+ no negative regret |
| CheckpointIntegrity.DamageIsRejected | src/checkpoint.c:777-783 | an accepted file changed inside four neighbouring bytes is rejected, by any reader |
| CheckpointIntegrity.ChangedByteIsRejected | src/checkpoint.c:777-783 | any one changed byte is rejected |
| CheckpointIntegrity.AcceptedIsWhole | src/checkpoint.c:784-795 | no proper beginning of an accepted file is accepted, and nothing may follow it |
| CheckpointIntegrity.AcceptedIff | src/checkpoint.c:738-825 | the reader accepts exactly the files of contents that are valid and fit in memory |
| CheckpointIntegrity.FileHoldsOneContent | src/checkpoint.c:410-503 | a file holds one content only |
| CheckpointIntegrity.BytesDependOnContent | src/checkpoint.c:410-503 | in key order, equal node maps give equal bytes |
| CheckpointRewrite.RewriteIff | src/checkpoint.c:738-825 | an accepted file's content, written again, has the same bytes exactly when its records were in increasing key order |
| CheckpointRewrite.LoadThenSave | src/checkpoint.c:410-503 | the reader and then the writer: saving succeeds exactly with memory and as much space as the file took, and the bytes come back exactly under that condition |
| CheckpointRewrite.SnapshotLength | src/checkpoint.c:410-503 | putting records in order does not change how long they are |
| CheckpointRewrite.FallingPair | src/checkpoint.c:738-825 | any two good records in falling key order are an accepted file that is saved as other bytes |
| CheckpointRewrite.RewritingReorders | src/checkpoint.c:738-825 | the smallest such file |
| CheckpointRewrite.FailureIsNamed | src/checkpoint.c:738-825 | a load that fails never reports success |
| CheckpointStream.Reader.ReadRecord | src/checkpoint.c:680-736 | the step-by-step node reader accepts, consumes and fails as the functional reader does |
| CheckpointStream.Reader.ReadFields | src/checkpoint.c:659-675 | so does the header reader |
| CheckpointStream.Load | src/checkpoint.c:738-825 | publishes the whole content of an acceptable stream, or on any failure nothing at all, with the same status |
| CheckpointWriter.Snapshot | src/info_store.c:1475-1545 | the nodes in signed key order, each once, whatever order the store holds them in |
| CheckpointWriter.ValidateNode | src/checkpoint.c:290-311 | succeeds exactly on storable nodes, and tells a bad length from a bad number |
| CheckpointWriter.Save | src/checkpoint.c:410-503 | succeeds exactly when the content can be saved and fits; the bytes are then a function of header and node map |
| CheckpointWriter.SavedLoads | src/checkpoint.c:410-503 | what was saved reads back as the same header and node map |
| Trainer.RunsCompose | src/trainer.c:182-215 | running m then n iterations is running m + n, failures included |
| Trainer.RunCounters | src/trainer.c:185-205 | counters grow by the work done and stop at the largest size |
| Trainer.RunFollows | src/trainer.c:182-215 | a run whose traversals do what others do is their run |
| Trainer.RunRises | src/trainer.c:182-215 | a successful run raises any measure by at most the gains of its traversals |
| Trainer.ResumedRun | src/trainer.c:182-215 | run m, save, load, run n agrees with run m + n, for any traversal and any exact coding of its sums |
| Trainer.Session.RunIterations | src/trainer.c:182-215 | the loop is the run, and reports at every interval and at the end, until the observer stops it |

## Left out

- Commit: memory fences, pauses, yields and jitter; steps are sequentially consistent, and no fairness is claimed for the back-off loop.
- Seqlock: the version counter is unbounded and does not wrap.
- ConcurrentStore: statistics and sorted snapshots, which also lock every shard; collision counters; whether an allocation succeeds is part of the schedule.
- ShardedStore: a shard's nodes are a list, its blocks of memory the subject of `InfoStore`.
- InfoStore: collision statistics, the reader and writer lock of the sequential mode, and switching modes while a sequential call is in flight.
- Evaluation: the hash table from information sets to groups is a map; frame buffers, and the buffer size a game's action list may exceed.
- Play: callbacks of a game are functions; a game whose apply or undo fails on a listed action is outside the traversals' premise.
- Traversal: the index table is a sequence of cells replaced as it is written; the hash of a node is a parameter; allocation failures and the depth frames.
- Mccfr: the snapshot, sample and delta tables and their arena are maps, and the node cache is left out; the SplitMix64 output function is a parameter; checks that values stay finite have no counterpart in exact arithmetic.
- Mccfr.Workspace.TraverseAndCommit: the sums are a value handed in and out; adding to nodes that other workers change at the same time is the subject of `Commit`.
- CompactTraining: finding or creating the nodes in the store before training, and the counters other than the iterations.
- CompactGraph: policies are functions of information set and action; the best response and basic strategy chart of the tool, and writing the policy back to a store.
- Checkpoint: Zstandard framing and stdio; a stream is its bytes and whether it breaks at their end. The text export of strategies is left out.
- CheckpointStream.Load: the temporary store is a map, the store itself being the subject of `InfoStore`.
- Trainer: a traversal is a function of node map, random state, player and iteration, with the full and the sampled one as instances; workspaces and the switch to the concurrent store are left out, and an observer does not change the trainer.
- IEEE rounding and the tolerance tests' effect on it: sums, products and quotients are exact.
- BlackjackRounds.RoundByCards: a round with splits is told step by step (`BlackjackRounds.SplitByCards`, `BlackjackRounds.SecondCardOfSplit`) and paid hand by hand, not by one sequence of cards.
- SampledSuccess.PlayableSucceeds: one direction only, as a sampled walk does not look at the branches it does not take.
- Leduc poker and Kuhn poker, the public game wrapper's null checks, clocks and command lines.
- Convergence to an equilibrium and statistical unbiasedness of sampling.
