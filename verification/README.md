# Verified model of the kinet consensus core

A Dafny model of five parts of the node, with proofs about every input, every call sequence or
every reachable state.

* **Block tree** (`Blocks`, `Forest`, `ForestQueries`, `CommitSafety`, `ForestRuns`, `ForestTimes`,
  `ForestAgreement`, `ForestEffects`, `ForestExamples`, `ForestTimeExamples`, `Tree`, `Waves`,
  `BlockTree`, `Committing`, `Sequences`).  `Forest` is the tree as a value: a root, the blocks above
  it and the set of coherent ones.  The classes `Tree` and `BlockTree` hold the entries, child lists
  and payload index that the program updates in place, and each method is proved against the forest.
  `CommitSafety` says what consensus promises about certificates, `ForestRuns`, `ForestTimes` and
  `ForestAgreement` are about whole runs of adding, updating coherency and committing, `ForestEffects`
  says what each of these achieves, and `ForestExamples` and `ForestTimeExamples` hold runs where a
  property fails.
* **Block sync** (`Sync`, `SyncInvariant`, `SyncRuns`, `SyncConservation`, `SyncRequests`,
  `SyncEffects`, `SyncAnswers`, `BlockSync`).  `Sync` says what each handler does to the state and
  which commands it issues; `SyncRuns` puts the handlers together with the ledger, the timers and
  arbitrary peers; `SyncEffects` and `SyncAnswers` say what a step achieves; the class `BlockSync`
  implements the handlers.
* **Signature aggregation** (`Groups`, `AggregationTree`, `SignatureCollection`, `SignerMap`).
  Signatures are elements of an arbitrary commutative group.
* **RLP offset scanner** (`Rlp`, `RlpScanner`, `RlpRanges`, `RlpPrefixes`, `RlpWrapping`).  The
  scanner is proved against an encoder written from Appendix B of the Ethereum Yellow Paper.
* **Timeout certificates** (`Ranks`, `Timeouts`, `TimeoutVerification`, `TimeoutDemands`,
  `TimeoutSignatures`).  Bundling timeouts into a certificate, verifying one, and that the second
  accepts the first.

Where the comments of the program and its code differ the model follows the code: a prune removes
the blocks whose *parent* round is below the new root's round, not those whose own round is.

## Main results

* Over every run of the block tree, with commits on the highest committable certificate and on any
  certificate received, the committed blocks form one chain from the initial root, with rising rounds
  and, under a policy that counts blocks, consecutive sequence numbers (`ForestRuns.RunFromNew`).
* Under commit safety any two nodes agree: of two runs from one root, one commits a prefix of what the
  other commits (`ForestAgreement.RunsAgree`).  After a commit of the highest committable certificate
  nothing is left to commit (`ForestAgreement.NothingLeft`).
* Timestamps need not rise from one commit to the next (`ForestTimeExamples.LaterCommitOlder`).  They
  do exactly when no committed block was accepted right above a root that it is not later than
  (`ForestTimes.RunTimesRiseIff`).
* Blocks may arrive in any order (`ForestEffects.AddOrderIrrelevant`).  An update makes coherent
  exactly what is reached over the first incoherent block of the path and accepted from there on
  (`ForestEffects.UpdateExact`).
* A commit on a received certificate panics exactly when the block it commits is coherent, not the
  root and not joined to the root (`Committing.TryCommitOn`); a commit of the highest committable one
  never does (`Committing.CommitHighest`).
* A prune compares with the round a block was *first proposed* in.  Under commit safety a survivor
  that does not descend from the new root carries a certificate from between that round and the one
  the new root was certified in (`CommitSafety.SurvivorInGap`); only descendants survive iff the tree
  holds no rival certificate from that gap (`CommitSafety.OnlyDescendantsSurviveIff`).  If consensus
  promises both commit safety and no rivals in the gap, then in every reachable tree every coherent
  block is joined to the root and no commit on any certificate panics (`ForestRuns.SafeRunConnected`).
  Each promise is needed: a family of runs stays joined iff both are kept
  (`ForestExamples.PromisesNeeded`), and without them a commit that panics is reachable
  (`ForestExamples.PanicReachable`).
* Over every run of block sync no self request is stuck, every pending peer request waits for an
  unanswered ledger fetch, no range is emitted more often than it was accepted, every emission is the
  complete range with matching bodies, and every reply to a peer passes the check that the peer makes
  (`SyncRuns.RunSafe`).  An accepted request is emitted or still held and covered unless it is
  cancelled or another requester takes over (`SyncConservation.AcceptedNotLost`), and a cancelled one
  is not emitted until it is asked for again (`SyncConservation.CancelledNotEmitted`).
* Over every run whoever is on record for a request of the node was sent it, and only outstanding
  requests are sent (`SyncRequests.RunRecord`).  Headers that verify and payloads that are waited for
  are taken in, whoever sends them (`SyncEffects.HeadersTakenIn`, `SyncEffects.PayloadTakenIn`), and
  peers get what is at hand or found (`SyncAnswers.PeerHeadersAnswered`,
  `SyncAnswers.WaitingHeadersAnswered`).
* Building a signature collection succeeds exactly when the submissions are consistent, all from
  validators, and their sum verifies; a failure report is fair (`SignatureCollections.New`).
* On encoded blocks the scanner cuts out exactly the transaction encodings
  (`RlpRanges.TransactionRangesExact`, `RlpRanges.AllTxOffsetsExact`), and on arbitrary bytes it
  succeeds exactly on items one after the other (`RlpPrefixes.ScanIff`).  In a build without overflow
  checks the loop need not end; it ends iff it meets no position twice (`RlpWrapping.EndsIff`), and
  agrees with the checked build as long as nothing overflows (`RlpWrapping.AgreesUnlessOverflow`).
* A timeout certificate is accepted exactly if it meets a list of demands on its entries and signers
  (`TimeoutDemands.AcceptableIff`).
* A timeout certificate bundled from timeouts of distinct senders, which hold the rounds of what they
  extend and whose extends verify, passes verification exactly when the senders make a super majority
  and no timeout holds a certificate of the round or later (`TimeoutVerification.BundledVerifies`).
  With the aggregate signatures of this project, right timeouts are bundled unless the signatures of
  a group cancel out, and the certificate verifies under that same condition
  (`TimeoutSignatures.HonestTimeoutsVerify`).

## Premises

* Hashes are symbolic.  A block id is the hash of a known header or a bare digest, so hashing is
  injective and parent links cannot be cyclic.  A body id is the hash of its body.
* A block that enters the tree has a round above its certificate's round, and a certificate's round
  is not below the round of the block it certifies (`WellFormed`).  A root is genesis or agrees with
  the header its id stands for (`RootMatches`).
* Iteration order of hash maps is open everywhere: commands are specified as *some* enumeration of a
  set.  Which peer is picked, or none, is part of the event that needs one.
* Headers that the ledger has are those of the range; the program asserts this.  Apart from that the
  ledger may answer anything, also twice, timers may go off at any time, and peers may send anything.
* What consensus promises about certificates is a property of the set of all certificates ever formed
  (`Safe`, `NoRivals`), and is assumed only where a result says so.
* Group axioms used: commutative, associative, unit.  For a fixed message each validator has one
  expected signature.
* The scanner runs on a machine with 64-bit addresses.  An overflow is an outcome of its own: a panic in
  a build with overflow checks, and a wrap-around in the release profile, which `RlpWrapping` models.

## Model

| member | source | states |
|---|---|---|
| Blocks.IdFixesBlock | consensus-types/src/block.rs:515-524 | whatever bodies are offered, a block id belongs to at most one full block, and a full block taken apart builds again |
| Blocks.DescendsLater | consensus-types/src/block.rs:541-546 | a descendant's certificate is at least as recent as the ancestor's block |
| Blocks.AncestorsLinear | consensus-types/src/block.rs:532-537 | two ancestors of one block are comparable |
| Forests.CoherentPath | blocktree/src/tree.rs:239-243 | a coherent block that descends from the root is joined to it by coherent blocks only |
| Forests.AddKeepsInv | blocktree/src/blocktree.rs:222-235 | adding any block, in any order, keeps the tree invariant |
| ForestEffects.AddExact | blocktree/src/blocktree.rs:222-235 | a block above the root round is in the tree once it was added, whatever its parent, and nothing else changes |
| ForestEffects.AddAllExact | blocktree/src/blocktree.rs:222-235 | after adding a list of blocks the tree holds what it held and the blocks of the list above the root round |
| ForestEffects.AddOrderIrrelevant | blocktree/src/blocktree.rs:222-235 | neither the order in which blocks arrive nor repetitions matter |
| Forests.StartIsFrontier | blocktree/src/blocktree.rs:245-260 | an update starts at an incoherent block below a coherent parent |
| Forests.UpdateKeepsInv | blocktree/src/blocktree.rs:237-327 | an update keeps the tree invariant |
| ForestEffects.FixpointAbove | blocktree/src/blocktree.rs:237-327 | an update revokes nothing, touches only what lies above the first incoherent block of the path, and there a block is coherent iff its parent is coherent (or root) and the policy accepts it against its path from the root |
| ForestEffects.UpdateExact | blocktree/src/blocktree.rs:237-327 | the whole effect of an update: exactly the blocks reached over the first incoherent block of the path, and accepted from there on against the blocks before them, become coherent |
| ForestEffects.UpdateIdle | blocktree/src/blocktree.rs:245-260 | without a path, or with a coherent one, an update does nothing |
| ForestEffects.PathDecided | blocktree/src/blocktree.rs:245-282 | a block of the path from the first incoherent one on becomes coherent iff the policy accepts it and all of them before it |
| ForestEffects.UpdateReaches | blocktree/src/blocktree.rs:237-327 | if the policy accepts every incoherent block of the path against those before it, the block asked for is coherent afterwards |
| ForestEffects.ChainInAnyOrder | blocktree/src/blocktree.rs:222-327 | the blocks of a chain above the root, added in any order, become coherent up to its end by one update if the policy accepts them |
| Forests.DescendantSurvives | blocktree/src/blocktree.rs:131-218 | every descendant of the new root survives a prune, gaps in its chain or not |
| Forests.CommittedRemoved | blocktree/src/blocktree.rs:152-218 | no committed block survives the prune |
| Forests.PruneKeepsInv | blocktree/src/blocktree.rs:152-218 | a prune keeps the tree invariant |
| Forests.PruneExact | blocktree/src/blocktree.rs:152-218 | a block survives iff its parent round is at least the new root's round, survivors keep their flag, descendants all survive, and those joined to the old root are joined to the new one |
| CommitSafety.CommitTargetIs | consensus-types/src/quorum_certificate.rs:102-117 | the program commits the parent of a certified block exactly when the two certificates are from consecutive rounds |
| CommitSafety.SurvivorInGap | blocktree/src/blocktree.rs:131-218 | under commit safety a survivor that does not descend from the new root carries a certificate from the rounds between the new root's first proposal and its certification |
| CommitSafety.OnlyDescendantsSurviveIff | blocktree/src/blocktree.rs:131-218 | under commit safety only descendants survive iff the tree holds no certificate of those rounds for another branch |
| CommitSafety.FreshCommitExact | blocktree/src/blocktree.rs:131-218 | under commit safety exactly the descendants survive when the new root was certified in the round it was proposed in |
| CommitSafety.PruneConnectedIffNoRival | blocktree/src/blocktree.rs:152-218 | under commit safety a prune leaves every coherent block joined to the root iff no coherent block carries a rival certificate of those rounds |
| CommitSafety.SafeCommitConnected | consensus-state/src/lib.rs:1437-1492 | with both promises a commit on any certificate does not panic and leaves every coherent block joined to the root |
| ForestExamples.PromisesNeeded | blocktree/src/blocktree.rs:131-218 | for a family of runs from a new tree that end in a commit of the highest committable certificate, every coherent block stays joined to the root iff both promises are kept |
| ForestExamples.BothKindsOccur | consensus-types/src/block.rs:72-75 | in the family either promise is broken without the other: a fork certified too late, and a fork certified before a block is proposed again |
| ForestExamples.PanicReachable | consensus-state/src/lib.rs:1437-1492 | a run from a new tree after which a commit on a received certificate panics |
| Forests.PruneConnectedIff | blocktree/src/blocktree.rs:152-218 | a prune leaves every coherent block joined to the root iff the coherent survivors descend from the new root |
| Forests.UpdateKeepsConnected | blocktree/src/blocktree.rs:237-327 | an update leaves every coherent block joined to the root |
| Forests.AddKeepsConnected | blocktree/src/blocktree.rs:222-235 | out-of-order insertion leaves every coherent block joined to the root |
| ForestQueries.CommitIsLegal | blocktree/src/blocktree.rs:334-380 | the block committed by the highest committable certificate is coherent, joined to the root, not the root, and pruning to it strictly raises the root round |
| ForestEffects.CommitExact | consensus-state/src/lib.rs:1437-1492 | a certificate from the round after the certified block's own, whose parent block is coherent, makes that block the root and yields the chain up to it, or panics iff it is not joined to the root; any other certificate does nothing |
| ForestEffects.HighCommittableIff | blocktree/src/blocktree.rs:334-380 | the highest committable certificate is one of greatest round among those, carried by blocks joined to the root, on which a commit changes the tree; none iff no commit does |
| ForestQueries.ConnectedNeverPanics | consensus-state/src/lib.rs:1437-1492 | when every coherent block is joined to the root no certificate makes a commit panic |
| ForestQueries.UnjoinedPanics | consensus-state/src/lib.rs:1437-1492 | a coherent block not joined to the root makes a commit panic as soon as a child of it is certified in the next round |
| ForestQueries.CanonicalTipCoherent | blocktree/src/blocktree.rs:594-618 | the canonical tip is coherent or root, and extends the certified block when that is coherent |
| ForestEffects.TipBeforeFrontier | blocktree/src/blocktree.rs:594-618 | when the chain to the certified block has an incoherent block, the tip is what comes before the first such block |
| ForestEffects.TipAbove | blocktree/src/blocktree.rs:594-618 | the tip is otherwise the certified block or a coherent descendant of the highest round; without a path, likewise of the root |
| ForestEffects.TipOfRoot | blocktree/src/blocktree.rs:594-618 | a certificate of the root has the root as its tip |
| ForestQueries.FillNumberExact | blocktree/src/blocktree.rs:383-408 | with contiguous sequence numbers the missing ancestor is exactly as far above the root as the number requested |
| ForestEffects.FillExact | blocktree/src/blocktree.rs:383-408 | what is requested in every case, from the chain of known blocks: one block when the certified block is unknown; else the parent of the first known block, and its number above the root less one but at least one; an underflow iff a known block not right above the root has a number below the root's |
| ForestEffects.ParentChainMaximal | blocktree/src/blocktree.rs:533-545 | the chain of known blocks goes back as far as blocks are known |
| ForestQueries.FillCompletes | blocktree/src/blocktree.rs:383-408 | fetching exactly the requested number of ancestors ending at the requested id, and adding them, joins the certified block to the root |
| ForestRuns.StepKeepsInv | blocktree/src/blocktree.rs:152-327 | every event, commits on any certificate included, keeps the tree invariant |
| ForestRuns.RunCommitsOneChain | consensus-state/src/lib.rs:1437-1492 | over every run, with commits on the highest committable and on any received certificate, the concatenated outputs are one chain from the initial to the final root, with strictly rising rounds |
| ForestRuns.RunCoherentPaths | blocktree/src/tree.rs:239-243 | in every reachable tree a coherent block with a path to the root has only coherent blocks on it |
| ForestRuns.SafeRunConnected | blocktree/src/blocktree.rs:152-327 | if all certificates of a run come from a set that keeps both promises, every coherent block of the final tree is joined to the root and no commit on any certificate panics there |
| ForestRuns.PassthruWeakest | consensus-types/src/block.rs:427-460 | the pass-through policy counts blocks, checks their time and wants no execution results, and is the weakest policy that does |
| ForestTimes.RunCommitsTimed | consensus-types/src/block.rs:448-451 | over every run under policies that check time, whatever a certificate commits at once has strictly rising timestamps |
| ForestTimes.UpdateLaterIff | consensus-types/src/block.rs:437-451 | if every coherent block was later than its parent, an update keeps that iff it accepts no block right above the root that is not later than the root |
| ForestTimes.RunTimesRiseIff | consensus-types/src/block.rs:437-451 | over every run under policies that check time, from a new tree or any whose coherent blocks are later than their parents, the timestamps of the root and of all committed blocks rise across all commits iff no committed block was accepted right above a root that it is not later than |
| ForestTimeExamples.LaterCommitOlder | consensus-types/src/block.rs:437-451 | a family of runs from a new tree with two commits of one block each, where the second block is not later than the first: it is refused above the first, and accepted once that is the root |
| ForestRuns.RunCommitsNumbered | consensus-types/src/block.rs:427-460 | under policies that count blocks committed sequence numbers go up by exactly one, across all commits of a run |
| ForestRuns.RunFromNew | blocktree/src/blocktree.rs:117-126 | the run theorems for every run that starts with a new tree |
| ForestAgreement.RunsAgree | consensus-state/src/lib.rs:1437-1492 | of any two runs from one root whose certificates come from one safe set, one commits a prefix of what the other commits |
| ForestAgreement.NothingLeft | consensus-state/src/lib.rs:1564-1567 | under commit safety, after a commit of the highest committable certificate nothing is left to commit |
| Trees.Tree.constructor | blocktree/src/tree.rs:165-181 | an empty store is valid |
| Trees.Tree.SetCoherent | blocktree/src/tree.rs:68-71 | sets one flag, fails iff the block is absent, changes nothing else |
| Trees.Tree.Remove | blocktree/src/tree.rs:73-96 | removes one entry and exactly its share of the payload index |
| Trees.Tree.Insert | blocktree/src/tree.rs:98-137 | inserts a block as incoherent; the payload index stays exact and child lists stay duplicate-free and exact |
| Trees.Tree.GetPayload | blocktree/src/tree.rs:139-146 | a payload is found iff some block present has that body id, and it hashes to it |
| Waves.WaveSound | blocktree/src/blocktree.rs:334-380 | whatever a breadth-first walk meets lies below its start |
| Waves.WaveComplete | blocktree/src/blocktree.rs:334-380 | a breadth-first walk that ends has met everything below its start |
| BlockTrees.SurvivorsKeepChildren | blocktree/src/blocktree.rs:186-214 | child lists of survivors stay exact although removal never edits a parent's child list |
| BlockTrees.PrunedState | blocktree/src/blocktree.rs:186-214 | the round test alone yields the pruned forest with exact child lists |
| BlockTrees.CoherentBelow | blocktree/src/blocktree.rs:560-585 | every coherent block below a connected block is joined to it by coherent blocks, so a walk over coherent children misses none |
| BlockTrees.BlockTree.constructor | blocktree/src/blocktree.rs:117-126 | a new tree is valid and empty above its root |
| BlockTrees.BlockTree.AddBlock | blocktree/src/blocktree.rs:222-235 | adds the block unless it is present or not above the root round; all indexes stay exact |
| BlockTrees.BlockTree.CheckCoherent | blocktree/src/blocktree.rs:410-421 | a block is coherent iff it is the root or present and flagged |
| BlockTrees.BlockTree.GetBlocksOnPath | blocktree/src/blocktree.rs:423-444 | returns the path from the root, None iff it is broken |
| BlockTrees.BlockTree.GetParentBlockChain | blocktree/src/blocktree.rs:533-545 | returns the chain of blocks present that ends at the id |
| BlockTrees.BlockTree.DetachPath | blocktree/src/blocktree.rs:160-184 | removes exactly the committed path, newest first; fails iff the block is not joined to the root |
| BlockTrees.BlockTree.RemoveOlder | blocktree/src/blocktree.rs:186-204 | keeps exactly the entries whose parent round is at least the given round |
| BlockTrees.BlockTree.PruneTo | blocktree/src/blocktree.rs:152-218 | panics iff the block is not coherent or not joined to the root; otherwise the tree becomes the pruned forest with all indexes exact, and the result is the committed path, oldest first |
| BlockTrees.BlockTree.TryUpdateCoherency | blocktree/src/blocktree.rs:237-327 | the tree becomes the updated forest, and each newly coherent block is returned once, parents before children |
| BlockTrees.BlockTree.MarkFrom | blocktree/src/blocktree.rs:259-327 | the breadth-first pass marks exactly the blocks that become coherent below its start |
| BlockTrees.BlockTree.CheckCoherency | blocktree/src/blocktree.rs:263-282 | the policy is asked about a block against its whole path from the root |
| BlockTrees.BlockTree.GetHighCommittableQc | blocktree/src/blocktree.rs:334-380 | the result has the highest round of all certificates carried by blocks joined to the root that pass the consecutive-round rule and name a coherent non-root block; None iff there is none |
| BlockTrees.BlockTree.HighestRoundCoherentDescendant | blocktree/src/blocktree.rs:549-586 | no block that coherent blocks join to the start has a higher round than the result; from a start joined to the root, no coherent block below it has; an unknown start is returned |
| BlockTrees.BlockTree.LastCoherent | blocktree/src/blocktree.rs:595-600 | the last coherent block of a path, None iff there is none |
| BlockTrees.BlockTree.GetCanonicalCoherentTip | blocktree/src/blocktree.rs:594-618 | the highest coherent block below the certified block, the last coherent one on its path, or the highest reachable one, in the three cases of the code |
| BlockTrees.BlockTree.MaybeFillPathToRoot | blocktree/src/blocktree.rs:383-408 | None iff the path exists or the certificate is not above the root round, otherwise the nearest missing ancestor and the number read off the last known block, or the underflow of the sequence numbers |
| Committing.TryCommitOn | consensus-state/src/lib.rs:1437-1492 | a commit on any certificate panics iff the block it commits is coherent, not the root and not joined to the root; otherwise it is exactly a commit event of a run |
| Committing.CommitHighest | consensus-state/src/lib.rs:1564-1567 | a commit of the highest committable certificate never panics and is exactly a commit event of a run; it does nothing iff there is none |
| SyncInvariant.HeadersHandlerKeepsInv | blocksync/src/blocksync.rs:645-804 | a headers response keeps the accounting: in-flight counter equal to the initiated payload requests and at most 10, every missing payload on request, nothing queued while a slot is free, no full range unemitted, no range both awaited and completed |
| SyncInvariant.PayloadHandlerKeepsInv | blocksync/src/blocksync.rs:806-937 | a payload response keeps the accounting |
| SyncInvariant.InitiateKeepsInv | blocksync/src/blocksync.rs:556-642 | starting payload requests restores "nothing queued while a slot is free" and emits only complete ranges |
| SyncInvariant.SelfRequestKeepsInv | blocksync/src/blocksync.rs:293-330 | a self request keeps the accounting, also when it switches the mode |
| SyncInvariant.CancelKeepsInv | blocksync/src/blocksync.rs:332-354 | a cancel keeps the accounting |
| SyncInvariant.TimeoutKeepsInv | blocksync/src/blocksync.rs:1098-1194 | a timeout keeps the accounting |
| SyncInvariant.LedgerKeepsInv | blocksync/src/blocksync.rs:984-1080 | a ledger response keeps the accounting |
| SyncInvariant.FullEmitsOk | blocksync/src/blocksync.rs:940-981 | every emission carries exactly the blocks of its range, consecutive by parent id, bodies matching their headers, to the current requester |
| SyncInvariant.CachedFits | blocksync/src/blocksync.rs:357-422 | what is cached is the whole range a peer asked for, or fits onto the range left for the ledger |
| SyncInvariant.StitchedVerifies | blocksync/src/blocksync.rs:991-1039 | headers from the ledger followed by cached headers pass the requester's own check of the requested range |
| SyncRuns.StepKeepsInv | blocksync/src/blocksync.rs:293-1194 | every handler keeps the accounting and emits only correct ranges |
| SyncRuns.StepCovered | blocksync/src/blocksync.rs:293-1194 | every handler leaves each outstanding headers request and initiated payload request with an unanswered ledger fetch or an armed timer |
| SyncRuns.StepPeersCovered | blocksync/src/blocksync.rs:293-1194 | every handler leaves each pending peer request with an unanswered ledger fetch |
| SyncRuns.StepAccounted | blocksync/src/blocksync.rs:293-1194 | every handler keeps: a range is emitted or still held at most as often as it was accepted |
| SyncRuns.StepAsked | blocksync/src/blocksync.rs:357-450 | every reply goes to a peer that asked for exactly that range or payload, and headers found pass that peer's check |
| SyncRuns.StepSafe | blocksync/src/blocksync.rs:293-1194 | all of this is kept by every step |
| SyncRuns.RunSafe | blocksync/src/blocksync.rs:293-1194 | all of this holds over every run |
| SyncRuns.InitialSafe | blocksync/src/blocksync.rs:196-217 | and holds at the start |
| SyncRuns.EmittedWasAccepted | blocksync/src/blocksync.rs:293-330 | from the start on no range is emitted more often than accepted and no self request is stuck |
| SyncConservation.StepNotLost | blocksync/src/blocksync.rs:293-1194 | every handler keeps a held range held, unless it emits it, it is cancelled, or another requester takes over |
| SyncConservation.AcceptedNotLost | blocksync/src/blocksync.rs:293-330 | over every run without cancel or mode switch an accepted self request is emitted, or still held with an unanswered fetch or an armed timer behind every outstanding request |
| SyncConservation.CancelledNotEmitted | blocksync/src/blocksync.rs:332-354 | once the current requester cancels a range no run emits it until it is asked for again |
| SyncRequests.StepRecord | blocksync/src/blocksync.rs:293-1194 | every handler records a peer for an outstanding request only if it sends them that request, and sends outstanding requests only |
| SyncRequests.RunRecord | blocksync/src/blocksync.rs:293-1194 | over every run, whoever is on record for an outstanding request was sent it, and nothing but outstanding requests was sent |
| SyncEffects.VerifiesIff | blocksync/src/blocksync.rs:508-533 | headers pass the check iff they are those of a chain of blocks of the right number that ends at the right block |
| SyncEffects.HeadersTakenIn | blocksync/src/blocksync.rs:671-727 | headers that verify for an outstanding range are taken in, whoever sent them: the request is done, and the range is emitted or recorded with exactly those headers; an answer from a peer stops the timer |
| SyncEffects.HeadersNotTaken | blocksync/src/blocksync.rs:728-797 | when the ledger lacks the headers and no peer was asked, the picked peer is asked and a timer set; wrong headers, a refusal by a peer and a late word of the ledger change nothing |
| SyncEffects.PayloadTakenIn | blocksync/src/blocksync.rs:841-882 | a payload that is waited for is taken in, whoever sent it: no range lacks it any more, and ranges that lacked nothing else are emitted; an answer from a peer stops the timer |
| SyncEffects.PayloadNotTaken | blocksync/src/blocksync.rs:883-928 | when the ledger lacks the payload and no peer was asked, the picked peer is asked and a timer set; a refusal by a peer and a late word of the ledger change nothing |
| SyncEffects.Unawaited | blocksync/src/blocksync.rs:651-658 | a response nobody waits for changes nothing for the node itself |
| SyncEffects.HasCachedIff | blocksync/src/blocksync.rs:535-554 | the lookup finds a body iff it is in a block of the tree, in the buffer, or in a range being synced |
| SyncEffects.NothingAtHandAwaited | blocksync/src/blocksync.rs:559-611 | after a response to an outstanding request no payload that is at hand is still on request |
| SyncEffects.TimerStopped | blocksync/src/blocksync.rs:559-611 | a payload request that was with a peer and is settled by a body at hand has its timer stopped |
| SyncEffects.TimeoutAsks | blocksync/src/blocksync.rs:1098-1194 | a timer that goes off for an outstanding request asks the picked peer and is set again, and touches no other request; otherwise nothing happens |
| SyncEffects.RequestHeld | blocksync/src/blocksync.rs:293-330 | a request for at least one block leaves the range held for that requester, and goes to the ledger if it is new; a change of requester drops all else; a request for none is ignored |
| SyncEffects.CancelDrops | blocksync/src/blocksync.rs:332-354 | a cancel drops that range iff it is held for that requester, and nothing else |
| SyncEffects.TenInFlight | blocksync/src/blocksync.rs:613-637 | between two handlers at most ten payload requests are in flight, and exactly ten while any is queued |
| SyncAnswers.PeerPayloadAnswered | blocksync/src/blocksync.rs:423-449 | a peer gets a payload at hand at once; otherwise the ledger is asked and the peer waits |
| SyncAnswers.PeerHeadersAnswered | blocksync/src/blocksync.rs:357-422 | a peer gets a range that is in the tree at once; otherwise the ledger is asked for what the tree lacks, and the peer waits to be answered for the range it asked for |
| SyncAnswers.WaitingHeadersAnswered | blocksync/src/blocksync.rs:991-1039 | headers the ledger finds go to every peer waiting for them, followed by what was cached for that peer; that it lacks them is passed on; nobody is left waiting |
| SyncAnswers.WaitingPayloadsAnswered | blocksync/src/blocksync.rs:1042-1076 | the word of the ledger on a payload goes to every peer waiting for it, and nobody is left waiting |
| SyncAnswers.StepWaiting | blocksync/src/blocksync.rs:357-1080 | a peer that waits for the ledger is answered by the step or waits on, and only a word of the ledger ends the waiting |
| SyncAnswers.RunWaiting | blocksync/src/blocksync.rs:357-1080 | over every run a peer that waits is answered, or waits on for a ledger fetch not yet answered |
| BlockSyncs.BlockSync.constructor | blocksync/src/blocksync.rs:196-217 | the initial state |
| BlockSyncs.BlockSync.VerifyBlockHeaders | blocksync/src/blocksync.rs:508-533 | headers pass iff they are as many as asked, linked by parent id and end at the last id; panics iff none are asked for and none are given |
| BlockSyncs.BlockSync.GetCachedPayload | blocksync/src/blocksync.rs:535-554 | a body is found iff it is in the cache or was received for another range |
| BlockSyncs.BlockSync.HandleSelfRequest | blocksync/src/blocksync.rs:293-330 | state and commands of a self request, including mode switch and duplicate |
| BlockSyncs.BlockSync.HandleSelfCancelRequest | blocksync/src/blocksync.rs:332-354 | state after a cancel |
| BlockSyncs.BlockSync.HandlePeerHeadersRequest | blocksync/src/blocksync.rs:357-422 | replies from the cache, or remembers what is cached and fetches the rest |
| BlockSyncs.BlockSync.HandlePeerPayloadRequest | blocksync/src/blocksync.rs:423-449 | replies from the cache, or remembers the peer and fetches |
| BlockSyncs.BlockSync.HandlePeerRequest | blocksync/src/blocksync.rs:357-449 | one peer request is a step of a run |
| BlockSyncs.BlockSync.TakeCachedPayloads | blocksync/src/blocksync.rs:559-611 | exactly the requested payloads at hand are taken off the list and handed out, timers reset once each |
| BlockSyncs.BlockSync.StartPayloadRequests | blocksync/src/blocksync.rs:613-637 | queued requests are started until none is left or ten are in flight |
| BlockSyncs.BlockSync.TryInitiatePayloadRequests | blocksync/src/blocksync.rs:556-642 | both passes and the emissions they lead to |
| BlockSyncs.BlockSync.HandleHeadersResponseForSelf | blocksync/src/blocksync.rs:645-804 | state and commands of a headers response: ignored, refused and asked again, or taken in |
| BlockSyncs.BlockSync.HandlePayloadResponseForSelf | blocksync/src/blocksync.rs:806-937 | state and commands of a payload response |
| BlockSyncs.BlockSync.HandleCompletedRanges | blocksync/src/blocksync.rs:940-981 | emits each complete range once and drops it; no header and body can mismatch |
| BlockSyncs.BlockSync.ReplyHeaders | blocksync/src/blocksync.rs:991-1039 | one reply to each waiting peer, with its own cached headers appended |
| BlockSyncs.BlockSync.HandleLedgerResponse | blocksync/src/blocksync.rs:984-1080 | one ledger response is a step of a run |
| BlockSyncs.BlockSync.HandlePeerResponse | blocksync/src/blocksync.rs:1082-1096 | one peer response is a step of a run |
| BlockSyncs.BlockSync.HandleTimeout | blocksync/src/blocksync.rs:1098-1194 | one timeout is a step of a run |
| AggregationTrees.VerifyAggregate | bls/src/aggregation_tree.rs:39-77 | accepts iff the bitmap has the right length, is not over the limit, and the sum is that of the signers' expected signatures and not the identity (or there are no validators); returns the signers |
| AggregationTrees.AcceptsExactly | bls/src/aggregation_tree.rs:39-77 | a bitmap of the wrong length or over the limit never verifies, nor does the identity unless there are no validators; all else verifies iff the signature is the sum expected of the signers |
| AggregationTrees.ChildLeavesDisjoint | bls/src/aggregation_tree.rs:155-163 | the leaves below a heap node split disjointly between its children |
| AggregationTrees.RootHasAllLeaves | bls/src/aggregation_tree.rs:155-163 | every leaf is below the root |
| AggregationTrees.MergedNode | bls/src/aggregation_tree.rs:250-271 | the union of two disjoint nodes aggregates exactly their leaves |
| AggregationTrees.NothingBlamed | bls/src/aggregation_tree.rs:168-205 | the search from a node reports nothing iff the node verifies |
| AggregationTrees.UnblamedAddUp | bls/src/aggregation_tree.rs:168-205 | the signatures that are not reported add up to what is expected of their signers |
| AggregationTrees.BlamedIsCulpable | bls/src/aggregation_tree.rs:168-223 | a reported leaf does not verify by itself or is part of a non-empty sum that cancels out |
| SignatureCollections.MergeNodes | bls/src/aggregation_tree.rs:250-271 | merging two disjoint nodes; the count assertion cannot fire |
| SignatureCollections.FillLeaves | bls/src/aggregation_tree.rs:145-153 | the leaves hold one signer and signature each |
| SignatureCollections.MergeUp | bls/src/aggregation_tree.rs:155-163 | bottom-up, every heap node aggregates exactly the leaves below it |
| SignatureCollections.BuildTree | bls/src/aggregation_tree.rs:126-166 | the heap over the signatures, or one empty node |
| SignatureCollections.CollectLeafSignatures | bls/src/aggregation_tree.rs:211-223 | collects each leaf below a node once |
| SignatureCollections.VerifyTree | bls/src/aggregation_tree.rs:168-205 | succeeds iff the root verifies; otherwise the report is not empty and lists exactly the blamed leaves, each once |
| SignatureCollections.New | bls/src/aggregation_tree.rs:383-420 | conflict iff a submitter sent two different signatures; else unknown submitters iff some are; else a collection of exactly the distinct submitters and their sum iff it verifies; else a fair report; panics iff nothing is submitted for a non-empty validator set |
| SignatureCollections.OutsidersExact | bls/src/aggregation_tree.rs:390-406 | the submissions reported as of non-validators are all of those, each as often as it came |
| SignatureCollections.ReportIsFair | bls/src/aggregation_tree.rs:168-223 | a report names each submitter at most once with their signature, names only the guilty, and clears signatures that add up |
| SignatureCollections.OrderIrrelevant | bls/src/aggregation_tree.rs:390-406 | neither order nor repetition of the submissions matters |
| SignatureCollections.HonestAccepted | bls/src/aggregation_tree.rs:39-77 | when every submitted signature is right the aggregate is accepted unless it cancels out |
| SignerMaps.Encode | bls/src/aggregation_tree.rs:323-343 | the bytes hold exactly the bits of the map counted from the back, and padding is clear |
| SignerMaps.Decode | bls/src/aggregation_tree.rs:345-377 | accepts iff the length is within the limit and the byte count fits, and returns the bits |
| SignerMaps.RoundTrip | bls/src/aggregation_tree.rs:323-377 | an encoded bitmap is accepted iff it is not longer than 16384 bits, and then decodes to itself |
| SignerMaps.EncodingUnique | bls/src/aggregation_tree.rs:323-343 | a bitmap has one encoding |
| SignerMaps.CanonicalIffPaddingClear | bls/src/aggregation_tree.rs:345-377 | an accepted message is what its bitmap encodes to iff its padding bits are clear |
| SignerMaps.PaddingIgnored | bls/src/aggregation_tree.rs:362-370 | two different messages that decode to one bitmap |
| Rlp.EncodingIsBytes | archive/src/rlp_offset_scanner.rs:29-67 | encodings shorter than 2^64 are made of bytes |
| Rlp.BigEndianValue | archive/src/rlp_offset_scanner.rs:70-89 | minimal big-endian digits have no leading zero and stand for their number |
| RlpScanning.RlpScanner.DecodeLength | archive/src/rlp_offset_scanner.rs:29-67 | lengths of content and item by the first byte; error at the end or on a short prefix, panic past the end, overflow when the total exceeds 64 bits |
| RlpScanning.RlpScanner.DecodeUint | archive/src/rlp_offset_scanner.rs:70-89 | the number iff the bytes are not empty, have no leading zero and do not overflow |
| RlpScanning.RlpScanner.CollectRanges | archive/src/rlp_offset_scanner.rs:110-119 | the ranges of consecutive items up to the end of the list |
| RlpScanning.GetRlpListRanges | archive/src/rlp_offset_scanner.rs:123-145 | ranges of the items of a list |
| RlpScanning.GetTransactionRanges | archive/src/rlp_offset_scanner.rs:93-120 | ranges of the transactions of a block |
| RlpScanning.GetAllTxOffsets | archive/src/rlp_offset_scanner.rs:149-209 | transaction ranges moved to the block, paired with receipt and trace ranges, or the failure |
| RlpRanges.LengthOfItem | archive/src/rlp_offset_scanner.rs:29-67 | the scanner reads off any encoded item the length of its content and of the whole |
| RlpRanges.ListRangesExact | archive/src/rlp_offset_scanner.rs:123-145 | for an encoded list the ranges are contiguous and their slices are exactly the encodings of its items, in order |
| RlpRanges.TransactionRangesExact | archive/src/rlp_offset_scanner.rs:93-120 | for an encoded block with any header, transactions and further fields the ranges are contiguous and cut out exactly the transaction encodings, in order |
| RlpRanges.AllTxOffsetsExact | archive/src/rlp_offset_scanner.rs:149-209 | for encoded block, receipts and traces the offsets fail iff the counts differ; otherwise they pair the three lists with the same transaction ranges |
| RlpRanges.ScanReaches | archive/src/rlp_offset_scanner.rs:132-144 | for arbitrary bytes, without overflow, the ranges found follow each other, are not empty, start inside the data, and reach the end of the list |
| RlpPrefixes.UintIff | archive/src/rlp_offset_scanner.rs:70-89 | the number reader accepts exactly the shortest big-endian digits of the numbers below 2^64, one zero for zero |
| RlpPrefixes.ItemLengthIff | archive/src/rlp_offset_scanner.rs:29-67 | for arbitrary bytes the lengths read are exactly those that a prefix at the position tells; a panic iff the position is past the end |
| RlpPrefixes.OverflowIff | archive/src/rlp_offset_scanner.rs:29-67 | an overflow iff a prefix at the position tells a total length of 2^64 or more |
| RlpPrefixes.TruncatedPanics | archive/src/rlp_offset_scanner.rs:149-176 | a block whose transaction list runs past the end of the data makes the search for offsets panic |
| RlpPrefixes.ScanIff | archive/src/rlp_offset_scanner.rs:132-144 | for arbitrary bytes the scan succeeds with some ranges iff they are items one after the other up to the end |
| RlpWrapping.EndsIff | archive/src/rlp_offset_scanner.rs:132-144 | in a build without overflow checks the loop ends iff it meets no position twice, and iff it has ended after one turn more than there are bytes |
| RlpWrapping.AgreesUnlessOverflow | archive/src/rlp_offset_scanner.rs:132-144 | as long as no position overflows that build finds what the checked one finds |
| RlpWrapping.WrappedReaches | archive/src/rlp_offset_scanner.rs:132-144 | and then the ranges it finds reach the end of the list |
| RlpWrapping.WrappedListExact | archive/src/rlp_offset_scanner.rs:123-145 | on every encoded list it finds exactly the items |
| RlpWrapping.StandsStill | archive/src/rlp_offset_scanner.rs:132-144 | a list on which that build never ends: an item of total length zero modulo 2^64 |
| RlpWrapping.GoesRound | archive/src/rlp_offset_scanner.rs:132-144 | another, with no such item: the second item leads back to the first |
| RlpRanges.OffsetsAgree | archive/src/rlp_offset_scanner.rs:149-209 | for arbitrary inputs, if there are offsets their transaction ranges are those found by scanning the block |
| Ranks.CompareIsBelow | consensus-types/src/timeout.rs:323-384 | the comparison is the order by round, then certificate over tip, then certificate round, and is equal only on equal ranks |
| Ranks.TotalOrder | consensus-types/src/timeout.rs:317-384 | that order is total, irreflexive, asymmetric and transitive |
| Ranks.PartialCompareGreater | consensus-types/src/timeout.rs:116-128 | extends compare by rank; equal ranks of different extends are not comparable |
| Ranks.ExtendOrder | consensus-types/src/timeout.rs:116-128 | which extend wins, by their rounds: the later round; in one round a certificate over a tip, and of two tips that with the later certificate |
| Timeouts.HighestIsMax | consensus-types/src/timeout.rs:479-489 | the fold yields the maximum rank of all extends and the genesis certificate |
| Timeouts.HighestIsFirst | consensus-types/src/timeout.rs:479-489 | among extends of the highest rank the fold keeps the first |
| Timeouts.HighestOrderIrrelevant | consensus-types/src/timeout.rs:479-489 | the rank found does not depend on the order of the timeouts |
| Timeouts.GroupsPartition | consensus-types/src/timeout.rs:480-489 | the groups hold every signature exactly as often as it came |
| Timeouts.NewCertificate | consensus-types/src/timeout.rs:470-512 | fails iff a group does not make a signature collection; otherwise one entry per timeout info, in some order, and the fold's extend |
| Timeouts.RanksAsExtendIff | consensus-types/src/timeout.rs:401-438 | an info or entry ranks as an extend iff it holds the rounds of that extend: tip and certificate of a tip, or the certificate and no tip |
| TimeoutVerification.VerifyCertificate | consensus/src/validation/signing.rs:870-934 | accepts iff every demand is met, the epoch lookup included; a refusal names the first demand that is not met, in the order of the checks: epoch, number of entries, each entry in turn, majority, extend, rank |
| TimeoutVerification.VerdictUnique | consensus/src/validation/signing.rs:870-934 | the order of the checks leaves one verdict only |
| TimeoutDemands.AcceptableIff | consensus/src/validation/signing.rs:870-934 | what acceptance stands for, entry by entry: a known epoch of the round, entries within the number of validators and signed over infos of this round with earlier certificates, no info twice, nobody signing twice, the signers a super majority, the extend verified, ranking as a signed info (or genesis) and outranked by none |
| TimeoutVerification.ExtendIsHighest | consensus-types/src/timeout.rs:460-512 | if each timeout's info holds the rounds of its extend, the certificate's extend ranks as the highest of its entries |
| TimeoutVerification.HighestVerifies | consensus/src/validation/signing.rs:994-1024 | the chosen extend verifies if the extends of all timeouts do, and the genesis certificate does in case it is chosen |
| TimeoutVerification.BundledVerifies | consensus/src/validation/signing.rs:870-934 | a certificate bundled from timeouts whose extends verify (and the genesis certificate, where that is the one chosen) verifies iff the senders make a super majority and no timeout holds a certificate of the round or later; its signers are exactly the senders |
| TimeoutSignatures.AggregateSchemeSound | bls/src/aggregation_tree.rs:383-420 | a built collection verifies with exactly the submitters as signers, each once |
| TimeoutSignatures.HonestTimeoutsVerify | consensus-types/src/timeout.rs:470-512 | right timeouts of distinct validators are bundled with aggregate signatures iff no group cancels out, and the certificate then verifies iff the senders make a super majority and no timeout holds a certificate of the round or later |

## Left out

- Curve arithmetic, hashing to the curve, pairings and signing: signatures are elements of an abstract commutative group.
- Signature checks of quorum certificates and tips inside `verify_high_extend`: a yes-or-no parameter of the extend; and the certificate cache.
- Stake weights: which signers make a super majority is a predicate on the set of signers.
- The list framing around the signer bitmap, and the derived codecs of consensus types: they rest on a library and on derive macros.
- Voting, the pacemaker and a proof of the promises about certificates: they are named premises where they are needed.
- The tree that a panicking prune leaves behind: a panic ends the run.
- Peer selection probabilities and override lists: any peer or none may be picked.
- Overflow of rounds and sequence numbers at 64 bits: they are unbounded.
- Update in place of the scan loop in a build without overflow checks: it need not end, so it is modelled on values, and only the loop over the items is.
- An answer to every single peer request: the ledger need not answer, and a request of a peer replaces an earlier one of that peer that left the same range for the ledger.
- Metrics, logging, wall-clock time, vote delays and the archive's storage back ends: input and output only.
- The policy that checks execution results and balances: policies are parameters; only the pass-through policy is modelled.
- A policy that changes its mind during one update: a policy is fixed for the length of one call, and may differ between calls.
- Blocks.NewFullBlock: hashing is symbolic, so collisions of body hashes are not modelled.
- Trees.Tree.Insert: the caller never inserts a block twice, so replacing an entry is not modelled.
- BlockSyncs.BlockSync.HandleTimeout: the delay of a timer is not modelled, only that it is armed.
- Timeouts.NewCertificate: the last-round certificate and the vote signature carried by a timeout are not used by the bundling.
