# Verification of the HotStuff blockchain core

A Dafny model of the parts of the system where a fast or distributed mechanism has to agree with a
simple specification, with proofs that it does. `dafny verify dfyconfig.toml` checks everything.

| part | files | main results |
|---|---|---|
| HotStuff | `BlockTree`, `Quorum`, `Replica`, `ReplicaInvariant`, `Protocol`, `SigningHeights`, `PremiseNeeded`, `Pruning`, `HandlerEffects` | `Protocol.Agreement`, `SigningHeights.IncreasingIff`, `PremiseNeeded.AgreementNeedsPremise`, `Pruning.PruningAgreement`, `ReplicaInvariant.CommittedIsOneChain`, `HandlerEffects.ProposalLocks` |
| Block execution | `StateTracker`, `TxExecution`, `ChaincodeMeaning`, `TxExecutor`, `ChaincodeEnds`, `Scheduler`, `SchedulerControl`, `Serializability`, `SchedulerProgress`, `SchedulerTermination` | `Serializability.ExecutionIsSerial`, `ChaincodeMeaning.ReadsLastWrite`, `ChaincodeMeaning.FinishedWrites`, `SchedulerProgress.WakeupsSafeIff`, `SchedulerTermination.MaximalRunReturnsSerialResult` |
| Merkle tree and state storage | `TreeCalc`, `MerkleSpec`, `MerkleTree`, `StateStore`, `Storage` | `MerkleSpec.UpdatesStayFull`, `MerkleTrees.Tree.Verify`, `Storage.StateDb.Commit`, `Storage.RootIsDeterministic` |
| Transaction pool and commit | `TxHeap`, `TxStore`, `CommitGlue` | `TxStores.TxStore.PopTxsFromQueue`, `CommitGlue.Driver.Commit` |

How the source is represented:

- **Blocks.** A block hash covers the parent hash and the hash of the block its quorum certificate
  is for, so without hash collisions a block determines both. The block tree is an inductive datatype,
  a block reference is a block, and a reference the block store cannot resolve is `None` (nil).
- **Signatures** name their key and the message they were made over. The protocol is a step relation
  over replicas and the log of all signatures given so far. Each handler call of a correct replica is
  one step; faulty validators sign anything; votes, proposals and certificates arrive in any order, any
  number of times, as soon as their signatures exist.
- **Agreement** is stated for every number of validators, with at most n - MajorityCount(n) of them
  faulty. Its premises are a received block that extends the block its certificate is for and has height
  parent + 1 (`BlockTree.InTree`), signatures of each correct validator that increase in height, and no
  restarts. The second is a check before each signature (`Protocol.SignsAbove`): a run of the code keeps to
  the check if and only if the signatures increase (`SigningHeights.IncreasingIff`), and without it
  agreement fails with no faulty validator at all (`PremiseNeeded.AgreementNeedsPremise`). What concerns one
  replica alone, such as its committed list being one chain, asks of received blocks only the height check
  that the code makes (`BlockTree.Rooted`).
- **Chaincode** is a deterministic program: the next get, set, finish or failure is a function of the
  answers received so far. The block executor is a step relation over the main goroutine and the workers
  whose steps are one chaincode action, one merge, one increment of the merge index, one emit, one
  subscribe or unsubscribe, one channel operation.
- **The hash function** is a parameter. Soundness of verification is stated without assuming it
  collision free: leaves that do not match but reproduce the root have, somewhere in the two trees, a group
  with different children and one hash.
- **Mutable objects** (replica, trackers, executor, sibling group, node store, tree, state database,
  heap, pool, driver) are classes with the source's fields. Iteration over a Go map is a loop that picks any
  remaining key. In `Scheduler` and `Protocol`, where goroutines or machines interleave, the same
  objects are values so that states of a run can be compared.

What the proofs found about the code:

- A waiting worker subscribes with a buffer of 20 events and a full buffer drops events. Wake-ups are
  never lost if and only if min(concurrency limit, transactions) is at most 21
  (`SchedulerProgress.WakeupsSafeIff`), and a lost one is never made good
  (`SchedulerProgress.LostForGood`). The default limit of 20 is inside the safe range; nothing
  checks a configured one.
- Proposing signs a block without raising bVote, so one replica can sign its own proposal and then vote
  for a conflicting block of the same height (`Protocol.ProposerMaySignTwice`). A signature is above all
  earlier ones of its validator exactly when it is above the last vote and above the validator's own
  proposals (`Protocol.SignatureFreshIff`); two correct validators that do not keep to this can commit
  different blocks (`PremiseNeeded.AgreementNeedsPremise`).
- Success of a transaction is recognised by an empty error (execution/blk_executer.go:126). An execution
  records the empty error exactly when it finished or failed with an empty message
  (`TxExecution.EmptyErrorIff`), so such a failure is recorded as a success
  (`TxExecution.EmptyFailureRecorded`); like every failure it changes nothing
  (`TxExecution.FailedChangesNothing`).
- `NewValidatorStore` accepts repeated keys; two accepted certificates still share more validators
  than may be faulty (`Quorum.AcceptedCertsIntersect`).

## Model

| member | source | states |
|---|---|---|
| `Protocol.Agreement` | hotstuff/hotstuff.go:52-109 | In every run, for any two correct replicas at any two moments, one committed list is a prefix of the other and the last executed blocks are on one branch. |
| `Protocol.FatalStopUnreachable` | hotstuff/hotstuff.go:99-109 | No correct replica ever reaches the "safety breached" stop. |
| `Protocol.NextKeeps` | hotstuff/hotstuff.go:26-118 | Every step, of a correct replica or of a faulty signer, keeps all signatures of correct validators obedient to the vote rule and every correct replica's lock, highest certificate, executed block and open votes backed by signatures in the log. |
| `Protocol.RunOk` | hotstuff/hotstuff.go:26-118 | That invariant holds at every moment of every run. |
| `Protocol.CertifiedUnique` | hotstuff/hotstuff.go:61-66 | At most one block of each height can be certified. |
| `Protocol.CertifiedExtendsDecided` | hotstuff/hotstuff.go:61-97 | Every certified block at or above the height of a decided block extends it. |
| `Protocol.LaterSignatureExtends` | hotstuff/hotstuff.go:61-97 | A signature that obeyed the vote rule under a lock at least as high as a decided block is on a descendant of that block. |
| `Protocol.DecidedExtends` | hotstuff/hotstuff.go:85-97 | Of a decided block and a certified block at least as high, the second extends the first. |
| `Protocol.DeliverOk` | consensus/validator.go:233-308 | One call of a correct replica (proposal, new view, vote or own proposal) adds at most one signature, which obeys the vote rule, and leaves the replica in order. |
| `Protocol.AcceptedIsCertified` | core/quorum_cert.go:36-53 | A certificate that passes Validate, made of signatures really given, has a majority of signers in the log. |
| `Protocol.SignatureFreshIff` | hotstuff/hotstuff.go:52-66 | Whatever call signs a block, the signature is above all earlier ones of the validator if and only if the block is above its last vote and above its own proposals. |
| `SigningHeights.IncreasingIff` | consensus/pacemaker.go:96-102 | A run of the code keeps to that check before every signature if and only if the signatures of every correct validator increase in height. |
| `SigningHeights.IncreasingRunsAgree` | hotstuff/hotstuff.go:52-109 | In every run of the code in which they do, no correct replica stops and any two committed lists are one a prefix of the other. |
| `PremiseNeeded.AgreementNeedsPremise` | consensus/pacemaker.go:96-102 | Some run of the code with two correct validators and none faulty ends with neither stopped and committed lists of which neither is a prefix of the other. |
| `Pruning.HandleMirrors` | consensus/hs_driver.go:114-140 | A replica that has lost any blocks below bExec answers every call as one that kept them: it signs the same block, commits the same blocks and stops in the same calls. |
| `Pruning.RunMirrors` | consensus/hs_driver.go:114-140 | Every run of replicas that prune at any time is mirrored, moment by moment, by a run of replicas that keep everything. |
| `Pruning.PruningAgreement` | consensus/hs_driver.go:114-140 | Agreement holds and the fatal stop is unreachable for replicas that prune. |
| `Protocol.ProposerMaySignTwice` | consensus/pacemaker.go:96-102 | From a fresh replica, proposing and then receiving another block of the same height makes it sign both of two conflicting blocks. |
| `ReplicaInvariant.CommittedIsOneChain` | hotstuff/hotstuff.go:85-109 | At every point of every run of one replica, for received blocks of height parent + 1 with whatever certificates, the blocks given to driver.Commit are a parent chain from the start block with consecutive heights ending in bExec, and a call that reaches the fatal stop has committed nothing. |
| `ReplicaInvariant.RunIsSound` | hotstuff/hotstuff.go:26-118 | In every such run height(bExec) <= height(bLock), bLeaf extends the qcHigh block, and the committed list is the path to bExec. |
| `ReplicaInvariant.RunIsGood` | hotstuff/hotstuff.go:26-118 | When received blocks extend the blocks they certify, besides height(bLock) <= height(qcHigh), strictly once bLock has moved. |
| `ReplicaInvariant.RunAdvances` | hotstuff/hotstuff.go:52-118 | Over any stretch of a run, whatever the certificates are for, the heights of bVote, bLock, bExec and qcHigh do not fall and the committed list only grows. |
| `ReplicaInvariant.HandleKeeps` | consensus/validator.go:221-308 | Every call, for a block of height parent + 1 or none, keeps that soundness and that monotonicity, or stops having committed nothing; for blocks that extend what they certify it keeps the lock below qcHigh too. |
| `HandlerEffects.ProposalEffect` | consensus/validator.go:233-250 | A received proposal, to be voted on or not, is stored; bVote moves to it exactly when it is to be voted on and the vote rule holds; qcHigh and bLeaf follow its certificate exactly when that is for a higher block; open proposal and votes stay. |
| `HandlerEffects.ProposalLocks` | hotstuff/hotstuff.go:85-97 | When the block two certificates back is above the lock it becomes the lock; on three direct parents the path to the third block is appended to the committed blocks, or the call stops exactly when that block does not descend from the last executed one; otherwise nothing is committed. |
| `HandlerEffects.ProposalBelowLock` | hotstuff/hotstuff.go:85-97 | When it is not above the lock, lock, executed block and committed blocks stay. |
| `HandlerEffects.NewViewEffect` | hotstuff/hotstuff.go:112-118 | A certificate received in a new view becomes qcHigh, with bLeaf its block, exactly when its block is stored and higher; nothing else changes. |
| `HandlerEffects.VoteEffect` | hotstuff/hotstuff.go:39-49 | A vote is counted exactly when it is for the open proposal and its voter has none; below the majority only the table grows; the completing vote closes the proposal, which becomes qcHigh if it is higher. |
| `HandlerEffects.BeatEffect` | consensus/pacemaker.go:96-102 | An own proposal is a leaf on bLeaf, one higher, with the highest certificate; it is open with the own vote alone, or certified at once where one vote is a majority; bVote does not move. |
| `HandlerEffects.BeatLocks` | hotstuff/hotstuff.go:85-97 | The lock and commit rules on an own proposal, where the block two certificates back is above the lock. |
| `HandlerEffects.BeatBelowLock` | hotstuff/hotstuff.go:85-97 | And where it is not. |
| `HandlerEffects.SignsIff` | hotstuff/hotstuff.go:52-66 | A replica signs exactly the proposals to be voted on that obey the vote rule, and its own proposals. |
| `ReplicaInvariant.SafetyWalkIsExtends` | hotstuff/hotstuff.go:69-77 | The height-bounded parent walk answers true exactly for descendants of the locked block. |
| `ReplicaInvariant.CanVoteIff` | hotstuff/hotstuff.go:61-82 | A block may be voted for exactly when it is above the last vote and either descends from the lock or certifies a block above it. |
| `ReplicaInvariant.CommitWalkIsPath` | hotstuff/hotstuff.go:99-109 | The commit recursion succeeds exactly for descendants of bExec and then commits the path between them, oldest first, without a gap. |
| `ReplicaInvariant.UpdateMeans` | hotstuff/hotstuff.go:85-97 | When the block two certificates back is above the lock it becomes the lock; on three direct parents the block below is executed, and the call stops exactly when that block does not descend from bExec. |
| `ReplicaInvariant.UpdateBelowLock` | hotstuff/hotstuff.go:85-97 | Otherwise only qcHigh and bLeaf may change, and they do exactly when the new certificate is for a higher block. |
| `ReplicaInvariant.UpdateKeeps` | hotstuff/hotstuff.go:85-97 | Update, whatever the certificates are for, keeps the replica sound and gives no height up; one that stops commits nothing. |
| `ReplicaInvariant.UpdateKeepsGood` | hotstuff/hotstuff.go:85-97 | On blocks that extend what they certify it also keeps the lock below the highest certificate. |
| `ReplicaInvariant.UpdateQCHighKeeps` | hotstuff/hotstuff.go:112-118 | qcHigh becomes at least as high as the certificate offered and never falls, and bLeaf still extends it. |
| `ReplicaInvariant.ProposalIsSound` | hotstuff/hotstuff.go:26-36 | A leader's own block has height parent + 1, extends the block its certificate is for, keeps the invariant and satisfies the safety-or-liveness part of the leader's own vote rule. |
| `ReplicaInvariant.OnReceiveVoteKeeps` | hotstuff/hotstuff.go:39-49 | Receiving a vote keeps the invariant; it can only move qcHigh, and only to the open proposal. |
| `HotstuffReplica.Hotstuff.constructor` | hotstuff/state.go:28-37 | All block fields start at the start block, no proposal is open and nothing is committed. |
| `HotstuffReplica.Hotstuff.CheckSafetyRule` | hotstuff/hotstuff.go:69-77 | The loop computes the recursive parent walk, and terminates. |
| `HotstuffReplica.Hotstuff.CanVote` | hotstuff/hotstuff.go:61-66 | The method computes the vote rule. |
| `HotstuffReplica.Hotstuff.UpdateQCHigh` | hotstuff/hotstuff.go:112-118 | The new state is the specified one; only qcHigh and bLeaf change. |
| `HotstuffReplica.Hotstuff.OnCommit` | hotstuff/hotstuff.go:99-109 | The blocks of the commit walk are appended in order, or the fatal stop is reached with nothing appended. |
| `HotstuffReplica.Hotstuff.Update` | hotstuff/hotstuff.go:85-97 | The new state is the specified one, including lock, executed block, committed list and the fatal stop. |
| `HotstuffReplica.Hotstuff.OnReceiveProposal` | hotstuff/hotstuff.go:52-58 | The new state is the specified one and a vote is given exactly when the vote rule allowed it before the call. |
| `HotstuffReplica.Hotstuff.OnPropose` | hotstuff/hotstuff.go:26-36 | The leaf is built on bLeaf with qcHigh, becomes bLeaf and the open proposal with no votes; without a leaf nothing changes. |
| `HotstuffReplica.Hotstuff.GetVotes` | hotstuff/state.go:117-126 | Every vote held is listed once, in some order, with distinct voters. |
| `HotstuffReplica.Hotstuff.CreateQC` | consensus/hs_driver.go:45-52 | The certificate is for the open proposal with one signature per voter; from validated votes of a majority it passes Validate. |
| `HotstuffReplica.Hotstuff.OnReceiveVote` | hotstuff/hotstuff.go:39-49 | A certificate is made exactly when the vote completes a majority for the open proposal; it is for that proposal, counts each voter once, and passes Validate when all votes were validated. |
| `HotstuffReplica.Hotstuff.Propose` | consensus/pacemaker.go:96-102 | Proposing, counting the own signature as a vote and updating have the specified joint effect. |
| `Quorum.MajorityIsTwoThirds` | core/validator_store.go:71-74 | For n >= 1 the majority is n - (n-1)/3, lies in 1..n, and twice it exceeds n by more than the (n-1)/3 faults allowed. |
| `Quorum.MajoritiesShareCorrect` | core/validator_store.go:71-74 | Two majorities share a validator outside any set of tolerated faults. |
| `Quorum.AcceptedCertsIntersect` | core/quorum_cert.go:36-53 | Two accepted certificates share more validators than may be faulty, also for a validator list with repeats. |
| `Quorum.NewValidatorStore` | core/validator_store.go:28-38 | Exactly the listed keys are validators, and each key's index is that of its last occurrence. |
| `Quorum.HasDuplicate` | core/crypto.go:144-154 | Answers whether two signatures have one key. |
| `Quorum.HasInvalidValidator` | core/crypto.go:156-163 | Answers whether some signer is not a validator. |
| `Quorum.HasInvalidSig` | core/crypto.go:165-172 | Answers whether some signature does not verify. |
| `Quorum.Validate` | core/quorum_cert.go:36-53 | No error exactly for enough distinct verifying validator signatures; otherwise the error of the first check that fails, each error under its exact condition. |
| `Quorum.ValidateVote` | core/vote.go:31-46 | A vote is refused exactly for a voter who is no validator, or else for a signature over another hash. |
| `Quorum.Build` | core/quorum_cert.go:65-79 | The certificate has every vote's signature in order and the first block hash among the votes. |
| `Serializability.ExecutionIsSerial` | execution/blk_executer.go:49-151 | In every interleaving, once executeConcurrent has returned, the block's changes and every transaction's error are those of running the transactions one at a time in list order and dropping the writes of failed ones; each was merged once, in order. |
| `Serializability.ExecutionIsDeterministic` | execution/blk_executer.go:31-48 | Two runs of one block agree on changes and errors, whatever their limits and interleavings. |
| `Serializability.SerialUnique` | execution/blk_executer.go:31-48 | One-at-a-time execution has one result. |
| `Serializability.SerialStepMeans` | execution/blk_executer.go:120-130 | In the serial execution every read of a transaction gets the value it last set itself, or the block's, or storage's; one that failed, with whatever message, leaves the changes as they were; one that finished leaves them with exactly its last writes on top and has the empty error. |
| `Serializability.RerunIff` | execution/blk_executer.go:120-130 | At its turn a transaction is executed again exactly when some key it depends on was changed by those merged before it. |
| `Serializability.NextKeepsGood` | execution/blk_executer.go:93-142 | Every step keeps each pending execution replayable and the merged changes equal to the serial execution of the merged transactions. |
| `Serializability.CommitKeepsData` | execution/blk_executer.go:120-130 | A merge extends the serial execution by exactly its transaction and leaves all other pending executions replayable. |
| `Serializability.NoConflictUndisturbed` | execution/state_tracker.go:61-77 | An execution none of whose dependencies changed in the block equals an undisturbed execution on the block's present changes. |
| `TxExecution.ActSameRoot` | execution/state_tracker.go:102-118 | Two block states that change none of the dependencies an action records cannot be told apart by that action. |
| `TxExecution.RunSameRoot` | execution/state_tracker.go:102-118 | Nor by a whole execution. |
| `TxExecution.GrowReplayable` | execution/blk_executer.go:120-130 | Merging more changes into the block keeps every pending execution replayable. |
| `TxExecution.ReadThree` | execution/tx_executer.go:76-112 | A chaincode read is answered by the chaincode's own writes, then the transaction's, the block's and storage; it is recorded with the transaction unless the chaincode wrote the key itself. |
| `TxExecution.EmptyErrorIff` | execution/blk_executer.go:126-128 | In every interleaving an execution that has ended records the empty error exactly when it finished or failed with an empty message. |
| `TxExecution.FailedChangesNothing` | execution/blk_executer.go:120-130 | A transaction that failed, with whatever message, leaves the block's changes as they were. |
| `TxExecution.EmptyFailureRecorded` | execution/blk_executer.go:126-128 | Chaincode that fails at once with an empty message is recorded with the empty error and changes nothing. |
| `TxExecution.ChildrenDisjoint` | execution/tx_executer.go:76-112 | In every execution, whatever the block does meanwhile, the code registry and a chaincode at another address of the same length write disjoint keys and their merges commute. |
| `ChaincodeMeaning.ReadsLastWrite` | execution/state_tracker.go:102-124 | In every execution, whatever the block does meanwhile, a read gets the value the chaincode last set for that key through the same tracker, and otherwise the block's value at that moment, or storage's; a write is answered nil. |
| `ChaincodeMeaning.AnswersStand` | execution/tx_executer.go:98-112 | Each action but the one that ends the execution gets exactly one answer, and an answer is never changed. |
| `ChaincodeMeaning.FinishedWrites` | execution/tx_executer.go:76-112 | A transaction that finished holds exactly the prefixed keys the chaincode set, each with the value set last; for a deployment also those set in the code registry, where the two fall together the chaincode's. |
| `ChaincodeMeaning.FinishedChanges` | execution/blk_executer.go:120-130 | Merging it leaves the block's changes with exactly those writes on top. |
| `ChaincodeMeaning.DependsOnReads` | execution/state_tracker.go:102-118 | A transaction depends on exactly the keys it read without having set them before. |
| `ChaincodeMeaning.AloneMeans` | execution/tx_executer.go:64-112 | The same for an undisturbed execution on one block state, with the error it ends with. |
| `TxExecutors.TxExecutor.Perform` | execution/tx_executer.go:76-112 | One action of the running chaincode changes the trackers as specified and not the block's; a write sets its prefixed key in the tracker it is made through and nothing else; it ends exactly when the action is no read and no write. |
| `TxExecutors.TxExecutor.ExecuteChaincode` | execution/tx_executer.go:64-112 | Chaincode that ends on the given state is executed to its end with the error of its last action; every read was answered by the last write before it, the block or storage; on success the transaction holds exactly its last writes, on failure none. |
| `SchedulerControl.NextKeepsControl` | execution/blk_executer.go:68-151 | Every step of every goroutine, for every limit, keeps the control invariant: each transaction taken and not yet merged is held by exactly one worker, and buffers hold only as many events as there were earlier transactions in flight. |
| `SchedulerControl.RunControl` | execution/blk_executer.go:68-151 | That invariant holds at every moment of every run. |
| `SchedulerControl.OneMergesAtATime` | execution/blk_executer.go:120-130 | Two workers are never between wake-up and increment at once, and the one that is holds the next transaction. |
| `SchedulerControl.BelowBound` | execution/blk_executer.go:105-118 | At most min(limit, n) - 1 earlier transactions can be in flight when a worker subscribes. |
| `SchedulerProgress.WakeupsSafeIff` | execution/blk_executer.go:105-118 | No run of any block of n transactions with this limit loses a wake-up if and only if min(limit, n) <= 21. |
| `SchedulerProgress.RunWakes` | emitter/emitter.go:33-61 | Within that bound a waiter whose turn has come always has its event buffered or still to be emitted. |
| `SchedulerProgress.LostForGood` | emitter/emitter.go:33-38 | After a lost wake-up no step restores it and the executor does not return. |
| `SchedulerProgress.NeverStuck` | execution/blk_executer.go:68-118 | Within that bound, with a worker, every reachable state short of the end has a step. |
| `SchedulerTermination.RunsAreFinite` | execution/blk_executer.go:68-151 | For chaincode that ends however its reads are answered, with no bound on how long it takes, some number of steps is exceeded by no run of the block. |
| `SchedulerTermination.NextLowersRank` | execution/blk_executer.go:68-151 | Every step of every goroutine lowers a rank. |
| `SchedulerTermination.MaximalRunReturnsSerialResult` | execution/blk_executer.go:49-151 | Within the bound on wake-ups, and for such chaincode, runs are bounded in length and one that nothing can continue has returned with the serial result. |
| `StateTrackers.ReadIsFlat` | execution/state_tracker.go:102-118 | Through trackers of any depth a read equals a lookup of the fully prefixed key in the stacked overlays. |
| `StateTrackers.MergeAnswersAsChild` | execution/state_tracker.go:79-89 | After a merge the parent answers prefix + key as the child answered key, for every key. |
| `StateTrackers.MergeFrame` | execution/state_tracker.go:79-89 | A merge changes no answer for keys the child did not write. |
| `StateTrackers.ReadOwnKeys` | execution/state_tracker.go:102-118 | A read through any number of trackers changes no prefix and no written value of any of them. |
| `StateTrackers.MergedOwnKeys` | execution/state_tracker.go:79-89 | Whatever a child wrote, after merging it the parent still writes only under its own prefix. |
| `StateTrackers.DistinctPrefixesDisjoint` | execution/state_tracker.go:55-59 | Children with distinct prefixes of one length write disjoint parent keys and their merges commute. |
| `StateTrackers.StateTracker.Spawn` | execution/state_tracker.go:55-59 | The child is empty, tracks dependencies and reads through its parent. |
| `StateTrackers.StateTracker.GetState` | execution/state_tracker.go:102-118 | The value is the specified read through the whole chain, and each tracker passed records the key as it sees it. |
| `StateTrackers.StateTracker.SetState` | execution/state_tracker.go:120-124 | Only the tracker's own change of the prefixed key is set. |
| `StateTrackers.StateTracker.HasDependencyChanges` | execution/state_tracker.go:61-77 | True exactly when some dependency of the child is changed here. |
| `StateTrackers.StateTracker.Merge` | execution/state_tracker.go:79-89 | In any order of the child's changes the result is the specified overlay. |
| `StateTrackers.StateTracker.GetStateChanges` | execution/state_tracker.go:91-100 | Every change once, in some order. |
| `MerkleSpec.IncrementalIsFull` | merkle/tree.go:51-90 | Writing the recomputed levels of one update over the stored tree leaves exactly the nodes of a full rebuild over the new leaves, also when levels are added. |
| `MerkleSpec.UpdatesStayFull` | merkle/tree.go:51-90 | After any sequence of updates that supply every new index the store is the full rebuild over the last leaves. |
| `MerkleSpec.TopChange` | merkle/tree.go:66-70 | The top level recomputes exactly one node, position (height - 1, 0), with the root of a full rebuild. |
| `MerkleSpec.GroupIsNew` | merkle/types.go:123-162 | A group completed from the store hashes exactly its children in the new row, in order. |
| `MerkleSpec.LevelStep` | merkle/tree.go:74-90 | If the changes at one level are the difference between stored and new row, so are the recomputed ones a level up. |
| `MerkleSpec.SameRootCollides` | merkle/types.go:151-162 | Different leaf lists of one length with one root have, somewhere in their trees, a group with different children and one hash. |
| `MerkleSpec.NodeHashesChildren` | merkle/types.go:151-162 | In a canonical store every node above the leaves is the hash of its stored children, at most the branch factor, in index order. |
| `MerkleSpec.ConcatInOrder` | merkle/types.go:151-162 | The bytes hashed are the children's one after the other. |
| `MerkleSpec.RecomputedUnique` | merkle/tree.go:51-90 | The recomputed levels are determined by the store, the changed leaves and the leaf count. |
| `MerkleTrees.Tree.constructor` | merkle/tree.go:26-38 | A branch factor below two is raised to two. |
| `MerkleTrees.Tree.RootIsFull` | merkle/tree.go:41-47 | Root answers the root of a full rebuild over the stored leaves, and none for an empty tree. |
| `MerkleTrees.Tree.GroupNodesByParent` | merkle/tree.go:133-162 | Each group with a member is mapped to its nodes in their order, and no other group is. |
| `MerkleTrees.Tree.MakeParent` | merkle/tree.go:79-106 | The parent of one group hashes the updated children together with the stored others inside the row. |
| `MerkleTrees.Tree.UpdateOneLevel` | merkle/tree.go:74-90 | Whatever order groups and workers take, the parents are the specified ones, each position once. |
| `MerkleTrees.Tree.Update` | merkle/tree.go:51-72 | Leaf count and height, in eight bits, are the new ones and the root is the last branch, or the first leaf without branches; up to 255 levels the branches write exactly the recomputed levels and the root is in the top one. |
| `MerkleTrees.UpdateRoot` | merkle/tree.go:51-72 | The root an update reports is that of a full rebuild over the new leaves. |
| `MerkleTrees.Tree.CommitUpdate` | merkle/store.go:61-73 | Committing an update leaves the full tree over the new leaves, whose root is the one reported. |
| `MerkleTrees.Tree.Verify` | merkle/tree.go:109-131 | False for leaves outside the tree or none. Otherwise true exactly when the leaves put in place leave the full root as it is; a tree of one leaf compares the first leaf given. For leaves of digest size at distinct positions true if all match the stored ones, and only then unless the two trees have a hash collision. |
| `MerkleTrees.SameRootIff` | merkle/tree.go:109-131 | Leaves of digest size reproduce the full root exactly when they match the stored ones, unless the two trees have a hash collision. |
| `MerkleTrees.Group.SetNode` | merkle/types.go:114-120 | Only the slot of the node's index within its group is set. |
| `MerkleTrees.Group.Load` | merkle/types.go:123-140 | Empty slots inside the row are filled from the store, set ones are kept, slots past the row stay empty. |
| `MerkleTrees.Group.IsEmpty` | merkle/types.go:165-172 | True exactly when no slot is set. |
| `MerkleTrees.Group.Sum` | merkle/types.go:151-162 | Nil exactly for an empty group, otherwise the hash of the set slots in order. |
| `MerkleTrees.MapStore.CommitUpdate` | merkle/store.go:61-73 | Leaf count, height, leaves and branches are written, later nodes over earlier ones. |
| `TreeCalc.HeightIsLeast` | merkle/tree_calc.go:25-33 | For every h >= 1, b^(h-1) >= n exactly when h is at least the height: the height is the least such h. |
| `TreeCalc.TopRow` | merkle/tree_calc.go:25-50 | height - 1 groupings of n leaves give one node, fewer give several. |
| `TreeCalc.Height` | merkle/tree_calc.go:25-33 | The loop ends with the height, counted in eight bits. |
| `TreeCalc.GroupCountIsGroups` | merkle/tree_calc.go:41-50 | The quotient with remainder counts the groups of b nodes. |
| `TreeCalc.GroupOfIsQuotient` | merkle/tree_calc.go:67-71 | The quotient is the number of whole groups before the node. |
| `MerkleTrees.SlotOfNode` | merkle/tree_calc.go:57-82 | First node of the group plus index in the group gives the node back. |
| `TreeCalc.PositionRoundTrip` | merkle/types.go:20-47 | Unmarshalling undoes marshalling for every level and index. |
| `TreeCalc.IntBytesBigEndian` | merkle/types.go:39-47 | The index bytes are its digits to the base 256, the most significant first and not zero. |
| `TreeCalc.PositionBytesInjective` | merkle/types.go:39-47 | Distinct positions have distinct bytes. |
| `StateStorage.SetNewTreeIndexes` | storage/state_store.go:38-57 | Known keys keep their index, new keys get consecutive indexes after the old leaf count in sorted key order, nothing else changes. |
| `StateStorage.SortedUnique` | storage/state_store.go:38-57 | A set of keys has one sorted listing. |
| `StateStorage.LessIff` | storage/state_store.go:51-56 | A key is before another exactly when it is a proper prefix of it or has the smaller byte where they first differ. |
| `Storage.StateDb.Commit` | storage/storage.go:140-170 | After a completed commit every changed key reads its new value and every other key the value it had; the indexes are again a bijection onto [0, leafCount) with the new keys appended in sorted order, the tree is the full tree over the hashes of the current values; the changes carry their previous values, and leaf count and root handed to the block commit are those of that tree. |
| `Storage.StateDb.constructor` | storage/storage.go:105-107 | A new state has no value for any key, and state and tree agree. |
| `Storage.StateDb.VerifyState` | storage/storage.go:109-130 | Returns exactly what GetState returns, which is none before the first commit and afterwards what was committed last; both panics are unreachable. |
| `Storage.StateDb.GetMerkleRoot` | storage/storage.go:132-138 | The root of a full rebuild over the hashes of all current values, or none when there are no values. |
| `Storage.StateDb.LoadPrevValues` | storage/state_store.go:23-27 | Every change gets the current value of its key, or none, and is otherwise unchanged. |
| `Storage.StateDb.LoadPrevTreeIndexes` | storage/state_store.go:29-36 | Every change gets the stored index of its key, or none. |
| `Storage.StateDb.ComputeUpdatedTreeNodes` | storage/state_store.go:67-102 | One leaf per change, at the change's index, with the hash of its value. |
| `Storage.StateDb.CommitStateChanges` | storage/state_store.go:104-119 | Values and indexes become the old ones with those of the changes. |
| `Storage.StateDb.ComputeMerkleUpdate` | storage/storage.go:172-183 | Every change has its previous value and its index, the leaf count is that with the new keys, and the update is the specified one for it. |
| `Storage.StateDb.WriteStateMerkleTree` | storage/storage.go:200-210 | State and tree agree again and the stored root is the one computed for the block. |
| `Storage.IndexesExtend` | storage/state_store.go:38-57 | The key-to-index map stays a bijection and old keys keep their index. |
| `Storage.LeavesExtend` | storage/state_store.go:67-102 | The leaves after the changes are the old ones with the computed nodes put in place, and every new index is among them. |
| `Storage.RootIsDeterministic` | storage/storage.go:172-183 | Index assignment, values and root depend only on the state before and the set of changes, not on the order of the list. |
| `Storage.RootBindsState` | storage/state_store.go:84-102 | States over the same keys with one root have values of equal hash under every key, unless two different inputs collide inside their trees. |
| `TxHeap.TxQueue.Swap` | txpool/txstore.go:49-53 | Two items change places and every item still knows its slot. |
| `TxHeap.TxQueue.Push` | txpool/txstore.go:55-60 | The queue stays a heap with one more item; no other item's membership changes. |
| `TxHeap.TxQueue.PopLast` | txpool/txstore.go:62-70 | The last item leaves with index -1. |
| `TxHeap.TxQueue.Pop` | txpool/txstore.go:41-70 | An oldest item leaves with index -1 and the rest stays a heap of the same items. |
| `TxHeap.TxQueue.Remove` | txpool/txstore.go:41-70 | The item in the given slot leaves with index -1 and the rest stays a heap of the same items. |
| `TxStores.TxStore.AddNewTx` | txpool/txstore.go:86-96 | A new hash is mapped and queued with its time; a known one changes nothing; no item is replaced. |
| `TxStores.TxStore.PopTxsFromQueue` | txpool/txstore.go:98-112 | The min(length, max) oldest hashes, distinct and in time order; the rest stays queued and none of it is older. |
| `TxStores.TxStore.PutTxsToQueue` | txpool/txstore.go:121-132 | Exactly the known hashes of the list are added to the queue. |
| `TxStores.TxStore.SetTxsPending` | txpool/txstore.go:134-145 | Exactly the hashes of the list leave the queue; the pool keeps them. |
| `TxStores.TxStore.RemoveTxs` | txpool/txstore.go:147-159 | Exactly the hashes of the list leave pool and queue. |
| `TxStores.TxStore.GetTxStatus` | txpool/txstore.go:172-184 | Queued, pending or not found, as the queue and the map have it. |
| `TxStores.TxStore.QueuedIffInQueue` | txpool/txstore.go:14-30 | A hash is in the queue exactly when its item has a slot. |
| `CommitGlue.SelectPartition` | txpool/txpool.go:194-214 | The executed and the old list together are the block's list. |
| `CommitGlue.SelectInOrder` | txpool/txpool.go:197-212 | Each list has its hashes in the order, and as often, as they occur in the block's list. |
| `CommitGlue.SelectMembers` | txpool/txpool.go:194-214 | The executed list has exactly the hashes not stored, the old list the others. |
| `CommitGlue.SelectDistinctIff` | txpool/txpool.go:194-214 | The executed list repeats a hash exactly when the block's list repeats one that is not stored. |
| `CommitGlue.Driver.AddNewTx` | txpool/txpool.go:150-162 | A transaction refused by Validate, or not stored and refused by VerifyTx, returns that error and is not pooled; a stored one is not taken into the pool again; any other is, and a new one is queued with the time it came; nothing pooled before changes. |
| `CommitGlue.Driver.GetTxsToExecute` | txpool/txpool.go:194-214 | The fatal stop exactly for a hash neither stored nor pooled; otherwise the hashes not stored and the stored ones, each in the order and as often as listed, and the block's hashes leave the queue. |
| `CommitGlue.Driver.GetTxStatus` | txpool/txpool.go:216-225 | Committed exactly when some commit executed the transaction, queued exactly when it is in the queue, not found exactly when it is neither pooled nor stored. |
| `CommitGlue.Driver.GetBlock` | consensus/state.go:57-68 | The cached or stored block, cached afterwards; the answer does not change by asking. |
| `CommitGlue.Driver.GetUncommitedOlderBlocks` | consensus/state.go:131-147 | Exactly the cached blocks below the height that are not committed. |
| `CommitGlue.Driver.GetOlderBlocks` | consensus/state.go:119-129 | Exactly the cached blocks below the height. |
| `CommitGlue.Driver.DeleteCommitedOlderBlocks` | consensus/hs_driver.go:130-140 | Exactly the cached blocks more than 20 below the committed height go, with their committed marks. |
| `CommitGlue.Driver.CleanStateOnCommited` | consensus/hs_driver.go:114-128 | The block's transactions leave the pool, forks below it go with their certificates, their pooled transactions are queued again, the block's own certificate goes, the block is marked committed, no cached block at or above it is lost and none changes. |
| `CommitGlue.Driver.WriteChainData` | storage/storage.go:185-192 | The block, its certificate if there is one, the executed transactions and their errors are stored; if no transaction had been executed twice, none has been after it. |
| `CommitGlue.ErrorMapAt` | storage/chain_store.go:174-180 | Every one of distinct transactions is recorded with its own error. |
| `CommitGlue.Driver.Commit` | consensus/hs_driver.go:88-112 | A transaction is executed in at most one commit and once there, for blocks that list distinct hashes, and no recorded error is ever overwritten; getBlock finds every stored block, as stored or as cached before, and every cached block at or above the committed height; no transaction of the block stays pooled; the pooled transactions of every discarded fork are queued; certificate, height and transaction count follow. |
| `CommitGlue.Driver.PrunedFinds` | consensus/state.go:57-68 | After pruning, getBlock answers as before for the blocks that stay, and else from storage. |

## Left out

- Network and process code (`p2p/`, `node/`, `cmd/`, `execution/bincc/`, `txpool/broadcaster.go`): I/O.
- Protobuf, JSON, Ed25519 and SHA3: signatures are abstract and the hash is a parameter.
- Leader rotation and pacemaker timers: wall-clock behaviour; only the propose step is taken.
- Genesis bootstrap and block synchronisation: driven by answers of peers; only the height check and the calls into hotstuff are taken.
- Restarts: a restarted replica resets bVote and bLock (hotstuff/state.go:28-37), which agreement excludes.
- Crashes inside a commit: storage writes several database transactions; only completed commits are modelled.
- Transaction timeouts and elapsed times: outside the serializability claim.
- JuriaCoin: would add only easy members.
- Shrinking the Merkle leaf count: storage never does it.
- Within an emit the receivers do not move: `Emit` delivers to all subscribers in one step, as its lock does against subscribing and unsubscribing.
- `hotstuff/state.go` guards its fields with atomics and a mutex; a handler call is one step here.
- Quorum.MajorityIsTwoThirds: the floating point quotient is taken as exact.
- TreeCalc.Height: trees above 255 levels wrap the eight-bit height, and the members that commit trees ask for at most 255.
- Storage.StateDb.Commit: asks for one change per key, as GetStateChanges gives, and treats a nil value as the empty value; the chain data of the same call are in `CommitGlue.Driver.WriteChainData`.
- TxExecutors.TxExecutor.ExecuteChaincode: is for chaincode that ends on the given state and runs undisturbed; the interleaved case is `Scheduler`, where the trackers are values.
- CommitGlue.Driver.Commit: the execution is a function from the list to its errors, and storing the state is in `Storage.StateDb.Commit`; the map from heights to block hashes is not modelled.
- CommitGlue.Driver.WriteChainData: a certificate is the hash of the block it is for, and the map from heights to block hashes is not modelled.
- The block executor's goroutines are a step relation over values, since Dafny methods run one at a time.
