# Axon node: a verified model

Axon is a BFT sidechain node. This project models the parts of it that keep state consistent and proves what
they keep:

- **Chain** (`ChainTypes`, `Store`, `Quorum`, `NodeSpec`, `NodeSafety`, `NodeRuns`, `Node`): the engine's commit
  path and the synchronization path, which extend one stored chain under one lock, as a state machine whose steps
  may fail after any number of storage writes; and the quorum test of block proofs.
- **Synchronization** (`SyncReplay`, `StoredBlocks`, `StoredBodies`, `SyncReplies`, `Restart`): why syncing a chain
  gives what committing it gave, what a finished commit stores field by field, that stored transactions and receipts
  are the executed ones, what a reply of any height does, and what a restarted node resumes with.
- **Consensus log** (`Wal`): the write-ahead log as a directory of files, with a crash after any file operation.
- **Mempool** (`PoolSpec`, `PoolProofs`, `Pool`, `PoolConcurrency`): the priority pool's five linked structures,
  first one call at a time, then as interleaved steps of any number of threads.
- **Executor** (`Backend`, `NativeToken`, `TrieCache`, `Blake2F`): the account backend over two levels of tries,
  native token transactions, the trie database's cache and the BLAKE2 F precompile.
- **Storage scan** (`ByteStrings`, `HashKeys`, `PrefixScan`): the early-exit range scan behind `get_transactions` and
  `get_receipts`.
- **Peer addresses** (`AddrSpec`, `AddrProofs`, `AddrManager`, `Purge`): the address manager's four indexes, its
  random fetch, and the purge of a full store.

Objects that the program updates in place are classes. Each class has a function `State()`; its methods are proved
equal to a specification function on that state, and the theorems are about those functions. Hashing, signatures,
execution, metadata and trie roots are function-valued parameters; where a theorem needs them to be injective it
says so. Clocks, random draws, iteration orders of hash maps and the success of store operations are parameters or
unconstrained choices, so every theorem holds for all of them. Heights, gas and similar counters are unbounded
unless a row below says that a width is modelled.

Where the code does less than its comments or callers suggest, the model follows the code and a lemma states
exactly when the expected property holds:

- `start_sync` does not compare the height of a reply with the height it asked for. For replies of any height and
  any failure while saving, `SyncReplies.AnyReplyIff` says exactly when the published and the session's status
  still describe good chains; `SyncReplies.AlteredReplyBreaksPublished` is a reply that is accepted and breaks the
  published chain.
- Gas used, bloom, difficulty and nonce of a synced header are never checked, so two blocks with the same proposal
  may differ in them and in nothing else (`NodeSafety.ProvedBlocksAgreeIff`).
- `save_chain_data` stores the proof in the block's header, which proves the previous block, so a node restarted
  after a sync has an older proof than its status had (`Restart.RestartAfterSync`).
- `load_overlord_wal` does not move past a file shorter than a digest (`Wal.SpinsIff`, `Wal.CrashSafety`).
- While insertions are under way, a packaged hash may not resolve and a sender and nonce may be packaged twice.
  `PoolConcurrency.PackagingIff` says exactly when in every reachable state;
  `PoolConcurrency.HalfInsertedIsPackaged` and `PoolConcurrency.DoubledSlotIsPackaged` are runs in which it happens.
- An account is never counted as empty, so the request to delete empty accounts has no effect
  (`Backend.ApplyOneRefines`), and a deletion is not committed to the root (`Backend.RootAfterApply`).
- The trie cache is filled before the store is asked (`TrieCache.RefusedWriteTransparentIff`), and trimming it
  panics when its limit is zero (`TrieCache.RocksTrieDB.Flush`).
- A hash requested twice is answered only once (`PrefixScan.ScanIsPointLookups`).
- A removal or replacement that does not name the stored peer id leaves a dead id in the peer index, and an
  addition without a peer id deletes an older entry (`AddrProofs.RemoveStaleIff`, `AddrProofs.AddStaleIff`).
- A full store whose entries are all connectable cannot be purged when they form a single group, however large
  (`Purge.PurgeFailsIff`).

## Model

| member | source | states |
|---|---|---|
| ChainTypes.ProposalRoundTrip | protocol/src/types/block.rs:29-112 | a proposal turned into a block and back is the same proposal |
| Quorum.VerifyProofWeight | core/consensus/src/adapter.rs:575-619 | the accumulating loop computes the weight test with 64-bit wrap-around, rejecting unknown voters |
| Quorum.WeightCheckExact | core/consensus/src/adapter.rs:575-619 | for up to 2^30 verifiers with 32-bit weights nothing wraps: accepted if and only if all voters are known and hold more than two thirds of the weight |
| Quorum.WeightMapSane | core/consensus/src/adapter.rs:492-495 | the weight map collected from a verifier list keeps 32-bit weights |
| Quorum.LastWeightCounts | core/consensus/src/adapter.rs:492-495 | a verifier counts with the weight it is listed with last, and only listed verifiers count |
| Quorum.QuorumIntersection | core/consensus/src/adapter.rs:575-619 | any two accepted duplicate-free voter lists share voters holding strictly more than a third of the weight |
| Quorum.ProofAcceptedIff | core/consensus/src/adapter.rs:428-534 | above genesis a proof is accepted if and only if it names the height and the hash of the proposal, the metadata covers the height, the voters decode and hold enough weight, and the signature is valid for that height, round and hash under the keys of exactly the verifiers among the voters, in list order |
| Quorum.VerifyProof | core/consensus/src/adapter.rs:428-534 | the proof check with all its error cases, in order; accepted exactly as above |
| Quorum.ConflictNeedsAThird | core/consensus/src/adapter.rs:428-534 | two accepted proofs at one height have common signers with more than a third of the weight; the proposals differ exactly when the proved hashes differ |
| Quorum.HonestVoterSigned | core/consensus/src/adapter.rs:503-531 | if signatures cannot be forged, every honest verifier among the voters of an accepted proof signed its height, round and hash |
| Quorum.ProofsAgree | core/consensus/src/adapter.rs:428-534 | if signatures cannot be forged, honest keys sign one hash per height and round, and at most a third of the weight is faulty, all proofs of one height and round prove the same proposal |
| ChainStore.ReplayFrame | core/storage/src/lib.rs:343-427 | a list of writes for height n leaves everything stored below n as it was |
| ChainStore.WriteAllFrame | core/storage/src/lib.rs:124-190 | the same for any prefix of the writes, when a later one fails |
| NodeSafety.CommitFrame | core/consensus/src/engine.rs:193-299 | however far a commit gets before failing, it writes only above the published chain |
| NodeSafety.CommitPublishes | core/consensus/src/engine.rs:580-676 | a commit that changes the status publishes a chain extended by one good block |
| NodeSafety.CommitKeepsInv | core/consensus/src/engine.rs:193-299 | every commit, successful or not, keeps the node invariant |
| NodeSafety.GetBlockKeepsInv | core/consensus/src/engine.rs:61-111 | proposing keeps the invariant and records a proposal on top of the published block |
| NodeSafety.CheckBlockKeepsInv | core/consensus/src/engine.rs:120-182 | checking keeps the invariant; what passes extends the published block, also through the exemption set |
| NodeSafety.SyncOneKeepsChain | core/consensus/src/synchronization.rs:210-375 | a block accepted at the next height extends the session's chain; a refused or half-saved one leaves the old chain intact |
| NodeSafety.SyncBlockKeepsInv | core/consensus/src/synchronization.rs:140-208 | one turn of the sync loop keeps the invariant although the status is not yet published |
| NodeSafety.SyncEndKeepsInv | core/consensus/src/synchronization.rs:472-500 | publishing the session's status at the end keeps the invariant |
| NodeSafety.StepKeepsInv | core/consensus/src/engine.rs:61-299 | every step of the node keeps the invariant |
| NodeSafety.ChainSafety | core/consensus/src/engine.rs:193-299 | over every run of proposals, checks, commits, completed syncs and syncs that fail midway: the stored block at the published height has the published hash and root, the proof is of that height, and every block below links by hash to its predecessor and carries the root execution gives |
| NodeSafety.StepIsMonotone | core/consensus/src/synchronization.rs:42-99 | no step lowers the published height or changes what is stored at or below it |
| NodeSafety.PublishedIsFinal | core/consensus/src/synchronization.rs:42-99 | over every run, what was published once stays stored |
| NodeSafety.HeaderCheckIff | core/consensus/src/adapter.rs:399-425 | at the next height the header check passes if and only if the proposal extends the published block |
| NodeSafety.CheckedProposalIff | core/consensus/src/engine.rs:480-541 | a proposal for the next height passes the full check if and only if it extends the published block, is neither older nor from the future, proves that block, is known to the mempool, and commits to its transaction hashes and to the fetched transactions |
| NodeSafety.CheckedProposalProof | core/consensus/src/engine.rs:480-541 | above genesis a proposal that passes names the height and hash of the published block in its proof |
| NodeSafety.ProposalPassesIff | core/consensus/src/engine.rs:61-111 | what `get_block` answers for the next height passes the full check of every node with the same last block, for the same transactions, if and only if its time is right and the published proof proves that block |
| NodeSafety.OwnProposalPassesIff | core/consensus/src/engine.rs:120-182 | the proposer passes its own proposal as soon as its transactions are there, without checking it again |
| NodeSafety.AcceptedIsBuiltIff | core/consensus/src/synchronization.rs:302-335 | a block with the roots of its execution is the one the engine would build if and only if gas used, bloom, difficulty and nonce agree |
| NodeSafety.ProvedBlocksAgreeIff | core/consensus/src/synchronization.rs:210-335 | under the same assumptions on signatures, two blocks proved at one height and round and executed on one root are equal if and only if those four fields agree |
| NodeRuns.OneHeight | core/consensus/src/engine.rs:61-299 | from every good state without a sync session: proposing the next height, checking it and committing it with a proof of its height is an admissible run, and publishes that height if its transactions execute and nothing fails |
| NodeRuns.LoopIsRun | core/consensus/src/synchronization.rs:160-205 | the sync loop is a run of single steps, for replies of any height and any failures |
| NodeRuns.ReceiveIsRun | core/consensus/src/synchronization.rs:42-99 | so is the whole call, from taking the lock to publishing |
| NodeRuns.ReceiveReaches | core/consensus/src/synchronization.rs:42-99 | a call that succeeds with the lock free and a higher height announced publishes that height or fifty blocks more than before; any other call publishes nothing |
| NodeRuns.ReceiveKept | core/consensus/src/synchronization.rs:42-99 | with peers that answer with the height asked for, the call keeps the invariant, the published height and everything stored up to it |
| StoredBlocks.BodyWritesSave | core/consensus/src/engine.rs:747-775 | each transaction is stored under its height and hash and recorded with the height; its receipt holds its index, sender and hash, gas, logs, bloom, code address and exit reason of its own response, and number, hash and state root of its block; of several with one hash the last counts |
| StoredBlocks.CommitStores | core/consensus/src/engine.rs:580-676 | after a commit that publishes: the stored block carries every field of the proposal and roots, gas and bloom of the response; block, header, hash record, latest block, proof and body are stored as above; the status describes that block, with the limits and checkpoint it had |
| StoredBlocks.CommitAnswersIff | core/consensus/src/engine.rs:193-299 | a commit publishes if and only if it executes, nine writes succeed and the metadata can be updated; it answers if and only if it repeats the published height or publishes and flush, clean-up and broadcast succeed; the answer is the height after the published one |
| StoredBlocks.ProposedThenCommitted | core/consensus/src/engine.rs:61-111 | a block proposed from a status and committed on it links to that status' block and proof, keeps its base fee and checkpoint, and holds the transaction hashes, root, digest, time, proposer and chain it was proposed with |
| StoredBlocks.NewBlockResults | protocol/src/types/block.rs:78-112 | a new block carries every field of its proposal, and roots, gas and the bloom of the logs' blooms of its response |
| StoredBlocks.SyncedIff | core/consensus/src/synchronization.rs:160-375 | a reply of the height asked for is accepted and saved if and only if it links to the last block, is proved, proves the last block, lists the digest of its transactions, carries the roots of executing them, and nothing fails |
| StoredBlocks.CommitBlockStores | core/consensus/src/synchronization.rs:302-375 | after a block is committed by synchronization: it is stored as it came with its body as above; the status describes it, with limits and checkpoint from the metadata of its height |
| StoredBodies.StoredTxsAreExecuted | core/consensus/src/synchronization.rs:411-429 | over every run, the transactions stored with a published block are those whose execution gave its roots, when they are distinct and listed in it, and the receipts stored with them are those of that execution |
| SyncReplies.WritesReplace | core/consensus/src/synchronization.rs:411-429 | the first five writes of a synced block touch no block or header; from the sixth on the block at its height is replaced |
| SyncReplies.OverwriteIff | core/consensus/src/synchronization.rs:302-375 | overwriting a block under a good status leaves it good if and only if the header hash is the same and the block runs there |
| SyncReplies.AnyReplyIff | core/consensus/src/synchronization.rs:160-205 | for a reply of any height and any failure: both statuses stay good if and only if the reply is refused before its writes or is safe for its height; the invariant is kept if and only if, besides, a completely saved reply is the one asked for |
| SyncReplies.AskedReplyIsSafe | core/consensus/src/synchronization.rs:160-205 | a reply of the height asked for is always safe |
| SyncReplies.AlteredReplyBreaksPublished | core/consensus/src/synchronization.rs:378-409 | for all collision-free digests: a stored block returned with another amount of gas used is accepted, the session's status stays good and the published one does not |
| Restart.RestartAfterCommit | core/run/src/lib.rs:334-378 | a restart after a commit resumes with the hash, height, root, base fee and proof of the status, and with the limits and checkpoint of the metadata of that height |
| Restart.RestartAfterSync | core/consensus/src/synchronization.rs:411-429 | a restart after a synced block of any height resumes with the session's status but for the proof, which is the one in the header; that proves the last block, and `get_block` can propose, if and only if the proof is of the block's own height |
| Restart.SyncedProofIsOlder | core/consensus/src/synchronization.rs:210-295 | the proof in a synced header is of the stored block below, genesis excepted |
| SyncReplay.ChunksConcatenate | core/consensus/src/synchronization.rs:378-397 | for any chunk size the fetched transactions come together in block order |
| SyncReplay.CommitsGrow | core/consensus/src/engine.rs:580-676 | a list of good commits builds a chain, one block per commit, on top of what was stored |
| SyncReplay.ServedProofOk | core/consensus/src/message.rs:284-313 | the proof a node serves for any block it built passes the proof check |
| SyncReplay.SourceBlockAccepted | core/consensus/src/synchronization.rs:210-295 | a block built by the engine passes every check of a node in step with its predecessor |
| SyncReplay.AcceptedBlockSaved | core/consensus/src/synchronization.rs:302-375 | saving it leaves the source's block, header, transactions and receipts at that height and nothing else changed below |
| SyncReplay.SyncLoopReplays | core/consensus/src/synchronization.rs:160-205 | the sync loop accepts every block and catches up with the source |
| SyncReplay.SyncReplaysConsensus | core/consensus/src/synchronization.rs:42-99 | a node that syncs what another committed ends with the same hash, height, root and base fee and the same stored blocks, transactions and receipts |
| NodeObject.Node.GetBlock | core/consensus/src/engine.rs:61-111 | new state and answer are the specification's; the invariant, the published height and the stored chain are kept; for the next height the answer passes the full check elsewhere as `ProposalPassesIff` says |
| NodeObject.Node.CheckBlock | core/consensus/src/engine.rs:120-182 | new state and answer are the specification's; shown the proposal's own digest, the invariant and the stored chain are kept |
| NodeObject.Node.Persist | core/storage/src/lib.rs:343-386 | the write loop leaves the store after as many writes as succeed |
| NodeObject.Node.Commit | core/consensus/src/engine.rs:193-299 | new state and answer are the specification's, for every point of failure; on checked content the invariant and the published chain are kept; a commit that publishes stores what `CommitStores` says |
| NodeObject.Node.GetRichBlock | core/consensus/src/synchronization.rs:378-397 | the chunk loop fetches what the recursive form fetches |
| NodeObject.Node.VerifyBlock | core/consensus/src/synchronization.rs:210-295 | answers the block check with its error cases |
| NodeObject.Node.CommitBlock | core/consensus/src/synchronization.rs:302-375 | new store and session status are the specification's, also when the metadata query, a write or the mempool flush fails; a committed block is stored as `CommitBlockStores` says |
| NodeObject.Node.StartSync | core/consensus/src/synchronization.rs:140-208 | the loop computes the recursive sync, stopping at the first failure |
| NodeObject.Node.ReceiveRemoteBlock | core/consensus/src/synchronization.rs:42-99 | new state and answer are the specification's; the new state is that of a run of single steps, and with peers that answer what they are asked the invariant and the published chain are kept |
| Wal.SortNames | core/consensus/src/wal.rs:251-266 | the file names, newest first |
| Wal.LoopMatchesLoad | core/consensus/src/wal.rs:268-303 | the index-driven loop stops with the answer of the recursive form, or never stops |
| Wal.ShortFileSpins | core/consensus/src/wal.rs:289-291 | at a file shorter than a digest the loop does not advance, whatever the number of turns |
| Wal.SpinsIff | core/consensus/src/wal.rs:268-303 | for any directory loading never stops if and only if a short file has only long, damaged files above it |
| Wal.LoadSplit | core/consensus/src/wal.rs:268-303 | files with later names answer first |
| Wal.CrashSafety | core/consensus/src/wal.rs:170-241 | for any directory and any crash point of a save with the newest name: loading gives the new info once the write is complete, never stops while the new file is shorter than a digest, and gives the old answer otherwise |
| Wal.HistoryLoads | core/consensus/src/wal.rs:170-303 | over every history of saves crashed anywhere or finished, loading gives the last info completely written, unless a later attempt stopped inside its first 32 bytes |
| Wal.CompletedWriteRecovers | core/consensus/src/wal.rs:170-303 | a completed write is what loads, whatever the attempts before it left |
| Wal.FinishedSave | core/consensus/src/wal.rs:200-241 | all operations of a save together leave the new file and only newer ones beside it |
| Wal.SaveVisibleIff | core/consensus/src/wal.rs:170-303 | for any timestamp a finished save is what loading gives if and only if the files with later names hold nothing else |
| Wal.ConsensusWal.UpdateOverlordWal | core/consensus/src/wal.rs:170-241 | the write and the deletion loop leave exactly the directory of a finished save |
| Wal.ConsensusWal.LoadOverlordWal | core/consensus/src/wal.rs:244-303 | returns the specification's answer, a short file reported instead of looping |
| PoolProofs.OccupyTakesSlot | core/mempool/src/pool.rs:180-190 | the new pointer takes its slot, the displaced one is marked dropped, no other slot or pointer changes |
| PoolProofs.InsertFound | core/mempool/src/pool.rs:74-89 | accepted if and only if the map is not above the capacity; then found by its hash, its live pointer holds its slot and is queued if there is room, other hashes are found as before |
| PoolProofs.SystemInsertFound | core/mempool/src/pool.rs:215-223 | a system transaction is found by its hash afterwards, other hashes as before |
| PoolProofs.InsertKeepsInv | core/mempool/src/pool.rs:74-89 | inserting keeps the pool invariant, also at the limit and when the bounded queue refuses |
| PoolProofs.InsertSystemKeepsInv | core/mempool/src/pool.rs:68-72 | inserting a system transaction keeps the pool invariant |
| PoolProofs.DrainKeepsInv | core/mempool/src/pool.rs:41-52 | draining the bounded queue into the heap keeps the pool invariant |
| PoolProofs.FlushKeepsInv | core/mempool/src/pool.rs:145-178 | flushing keeps the pool invariant |
| PoolProofs.FlushSurvivors | core/mempool/src/pool.rs:159-178 | a transaction survives a flush if and only if it is not committed, passes the nonce check and had no dropped pointer queued |
| PoolProofs.FlushRefillsHeap | core/mempool/src/pool.rs:145-157 | after a flush the bounded queue is empty and the heap holds one fresh pointer per surviving transaction, also for refused ones |
| PoolProofs.FlushBuckets | core/mempool/src/pool.rs:247-253 | a flush removes exactly the system buckets a flushed hash mapped to |
| PoolProofs.FlushedAreGone | core/mempool/src/pool.rs:145-157 | a committed hash is neither contained nor resolved nor in any bucket afterwards |
| PoolProofs.PackageSound | core/mempool/src/pool.rs:91-113 | packaged hashes resolve, are at most the limit and never two for one sender and nonce |
| PoolProofs.PackageComplete | core/mempool/src/pool.rs:91-113 | if nothing was refused since the last flush, a large enough limit hands out exactly the occupied slots |
| PoolProofs.SystemHeadResolves | core/mempool/src/pool.rs:225-245 | the first hash of a system bucket resolves to a transaction of that bucket |
| PoolObject.PriorityPool.Occupy | core/mempool/src/pool.rs:180-190 | new state is the specification's |
| PoolObject.PriorityPool.Insert | core/mempool/src/pool.rs:74-89 | new state and acceptance are the specification's |
| PoolObject.PriorityPool.InsertSystemScriptTx | core/mempool/src/pool.rs:215-223 | new state is the specification's |
| PoolObject.PriorityPool.Drain | core/mempool/src/pool.rs:41-52 | the loop moves the whole bounded queue, in order |
| PoolObject.PriorityPool.FirstKey | core/mempool/src/pool.rs:225-235 | the smallest hash of a bucket |
| PoolObject.PriorityPool.PackageSystem | core/mempool/src/pool.rs:225-235 | one hash per bucket, its smallest |
| PoolObject.PriorityPool.PickLive | core/mempool/src/pool.rs:101-111 | the loop over the heap takes live pointers up to the limit |
| PoolObject.PriorityPool.Package | core/mempool/src/pool.rs:91-113 | drains first, keeps the invariant and returns the system heads and the live pointers' hashes |
| PoolObject.PriorityPool.GetByHash | core/mempool/src/pool.rs:136-143 | pool entry, or else the system bucket's |
| PoolObject.PriorityPool.Contains | core/mempool/src/pool.rs:123-126 | whether the pool or a system bucket knows the hash |
| PoolObject.PriorityPool.GetTxCountByAddress | core/mempool/src/pool.rs:57-66 | the number of slots the sender holds |
| PoolObject.PriorityPool.RemoveCommitted | core/mempool/src/pool.rs:159-178 | removes exactly the given hashes from the map |
| PoolObject.PriorityPool.RemoveDropped | core/mempool/src/pool.rs:159-178 | removes exactly the hashes with a dropped pointer among the drained ones |
| PoolObject.PriorityPool.RetainChecked | core/mempool/src/pool.rs:159-178 | keeps exactly the transactions passing the check |
| PoolObject.PriorityPool.GetResidual | core/mempool/src/pool.rs:159-178 | leaves exactly the survivors and empty queues |
| PoolObject.PriorityPool.FlushSystem | core/mempool/src/pool.rs:247-253 | the loop removes exactly the hit buckets and hashes |
| PoolObject.PriorityPool.Flush | core/mempool/src/pool.rs:145-157 | new state is the specification's, for any order of refilling |
| PoolConcurrency.EveryInterleaving | core/mempool/src/pool.rs:74-113 | every interleaving of inserter steps, draining, packaging and flushes keeps the concurrent invariant |
| PoolConcurrency.QuietIsSequential | core/mempool/src/pool.rs:74-89 | when no insertion is between its push and its map entry, the sequential invariant holds |
| PoolConcurrency.SoloInsertIsSequential | core/mempool/src/pool.rs:74-89 | an inserter's steps, uninterrupted and below the limit, are the sequential insertion, whatever the other threads hold |
| PoolConcurrency.SoloDrainIsSequential | core/mempool/src/pool.rs:41-52 | a popper that gets the lock and pops what it counted, uninterrupted, is the sequential drain |
| PoolConcurrency.PoolIsSafe | core/mempool/src/pool.rs:74-89 | in every interleaving the map stays within capacity plus the number of inserters and no pop meets an empty queue |
| PoolConcurrency.SystemIsTwoWrites | core/mempool/src/pool.rs:215-223 | the two interleaved writes of a system insertion together are the sequential one |
| PoolConcurrency.PackagingIff | core/mempool/src/pool.rs:91-113 | in every reachable state: all packaged hashes resolve if and only if the packaged insertions under way are of known transactions; no sender and nonce is packaged twice if and only if every packaged pointer that has not taken or just lost its slot is alone |
| PoolConcurrency.HalfInsertedIsPackaged | core/mempool/src/pool.rs:74-113 | a run in which a packaged hash does not resolve |
| PoolConcurrency.DoubledSlotIsPackaged | core/mempool/src/pool.rs:74-113 | a run in which two pointers of one sender and nonce are packaged |
| Backend.ReadsAreFlat | core/executor/src/adapter/mod.rs:114-172 | balance, nonce, code and storage reads are reads of the flat account map |
| Backend.ModifiedAccount | core/executor/src/adapter/mod.rs:251-322 | the account just written reads back as the flat account, and never counts as empty |
| Backend.ApplyOneRefines | core/executor/src/adapter/mod.rs:185-213 | one modification or deletion refines the flat map; deleting empty accounts never happens |
| Backend.ApplyRefinesFlatMap | core/executor/src/adapter/mod.rs:185-213 | the same for any list of them |
| Backend.BatchesRefineFlatMap | core/executor/src/adapter/mod.rs:185-322 | for every sequence of batches what is read afterwards is what the flat map says |
| Backend.LastLogs | core/executor/src/adapter/mod.rs:185-213 | for every sequence of batches the logs held afterwards are those of the last batch alone; changing accounts leaves the logs |
| Backend.LastWriteWins | core/executor/src/adapter/mod.rs:281-283 | of several writes to a slot the last one counts, others keep their word |
| Backend.RootAfterApply | core/executor/src/adapter/mod.rs:185-213 | a modification leaves a current root; a deletion does if and only if there was nothing to delete |
| Backend.RootsArePersistent | core/executor/src/adapter/mod.rs:231-245 | a root that was current once opens to the same accounts after any later batches |
| Backend.AxonExecutorAdapter.FromRoot | core/executor/src/adapter/mod.rs:231-245 | opens the accounts stored under the root |
| Backend.AxonExecutorAdapter.GetLogs | core/executor/src/adapter/mod.rs:48-52 | returns the logs and leaves none |
| Backend.AxonExecutorAdapter.ApplyAccount | core/executor/src/adapter/mod.rs:251-322 | new state and emptiness are the specification's |
| Backend.AxonExecutorAdapter.ApplyValues | core/executor/src/adapter/mod.rs:185-213 | the loop leaves the specification's state, and the logs are the batch's |
| NativeToken.EncodedCall | core/executor/src/system.rs:67-73 | a direction byte and an address in twenty bytes are read back as written |
| NativeToken.CallEffect | core/executor/src/system.rs:61-108 | carried out if and only if well formed and covered; then only the target changes, by the value and one nonce, keeping code and storage, and the new balance and the whole gas limit are returned; otherwise nothing changes and one unit of gas is used |
| NativeToken.CallReturnsIff | core/executor/src/system.rs:41-108 | the call returns and does not panic if and only if, carried out, new balance and nonce are within 256 bits and the gas limit within 64, or, refused, the gas limit less one is |
| NativeToken.ExecSystem | core/executor/src/lib.rs:87-123 | the loop computes the recursive run, or panics where it does; a block that fits does not panic and conserves the supply |
| NativeToken.SupplyIsConserved | core/executor/src/lib.rs:87-123 | for every list of system transactions that does not panic the sum of all balances moves by minted minus burned values, responses match transactions one to one, gas is their sum, one per refusal, and only the first response can carry older logs |
| NativeToken.FittingBlock | core/executor/src/lib.rs:87-123 | if the supply and all values to be minted, and the nonces and the number of transactions, fit in 256 bits and gas limits lie between 1 and 2^64 - 1, no transaction panics and the supply is conserved |
| NativeToken.EachAnswered | core/executor/src/system.rs:41-108 | response i says whether transaction i was carried out on the accounts the earlier ones left, with the balance it left and the gas that remains; a refused one leaves the accounts untouched |
| TrieCache.StepKeepsTransparent | core/executor/src/adapter/trie_db.rs:48-135 | each call with successful writes keeps the cache inside the store and answers as the store |
| TrieCache.CacheIsTransparent | core/executor/src/adapter/trie_db.rs:48-163 | over every run with successful writes, all answers are those of the store alone, whatever was evicted |
| TrieCache.CachedUntilFlush | core/executor/src/adapter/trie_db.rs:48-135 | from a write of a key or a read that found it to the next flush no read of the key fails, whatever the store does |
| TrieCache.RefusedWriteTransparentIff | core/executor/src/adapter/trie_db.rs:114-135 | after a refused batch the cache is transparent if and only if the store already held every value written |
| TrieCache.RandRemoveList | core/executor/src/adapter/trie_db.rs:166-180 | whatever is drawn, the list has the requested length and no duplicates and never the last key; it panics if and only if as many are requested as there are |
| TrieCache.RocksTrieDB.Get | core/executor/src/adapter/trie_db.rs:48-64 | one step of the run, or a failed read that changes nothing |
| TrieCache.RocksTrieDB.Contains | core/executor/src/adapter/trie_db.rs:84-96 | one step of the run, or a failed read that changes nothing |
| TrieCache.RocksTrieDB.Insert | core/executor/src/adapter/trie_db.rs:98-112 | one step of the run, with a successful or refused write |
| TrieCache.RocksTrieDB.InsertBatch | core/executor/src/adapter/trie_db.rs:114-135 | one step of the run; different lengths are refused without change |
| TrieCache.RocksTrieDB.Flush | core/executor/src/adapter/trie_db.rs:145-163 | above the limit exactly the excess goes and exactly the limit stays; panics if and only if the limit is zero and the cache is not empty |
| Blake2F.UnmixMix | core/executor/src/precompiles/blake2_f.rs:142-151 | the mixing function has an inverse, applied after it |
| Blake2F.MixUnmix | core/executor/src/precompiles/blake2_f.rs:142-151 | and before it |
| Blake2F.RoundsAreABijection | core/executor/src/precompiles/blake2_f.rs:165-176 | for every message block and round count the round loop has a two-sided inverse |
| Blake2F.EachWordOnce | core/executor/src/precompiles/blake2_f.rs:117-128 | every round uses every message word exactly once |
| Blake2F.ConstantsAreRoots | core/executor/src/precompiles/blake2_f.rs:130-139 | the constants are the first 64 bits of the fractional parts of the square roots of the first eight primes |
| Blake2F.ZeroRounds | core/executor/src/precompiles/blake2_f.rs:153-181 | without rounds the result is the constants with counter and flag, for every state and message |
| Blake2F.G | core/executor/src/precompiles/blake2_f.rs:142-151 | the eight in-place updates compute the mixing function on four words and leave the others |
| Blake2F.ColumnsAreParallel | core/executor/src/precompiles/blake2_f.rs:167-170 | four mixings one after the other mix the four columns of the matrix at once |
| Blake2F.DiagonalsAreColumns | core/executor/src/precompiles/blake2_f.rs:172-175 | the four diagonal mixings are column mixings of the matrix with turned rows |
| Blake2F.RoundInPlace | core/executor/src/precompiles/blake2_f.rs:165-176 | one pass of the loop is one round of the matrix form |
| Blake2F.Compress | core/executor/src/precompiles/blake2_f.rs:153-181 | the in-place function computes the recursive form of the compression function of section 3.2 of RFC 7693 for any round count |
| ByteStrings.FromToBytes | core/storage/src/lib.rs:192-211 | a number that fits is read back from its big-endian bytes |
| HashKeys.KeyRoundTrip | core/storage/src/lib.rs:192-221 | a key gives back the height and hash it was made from |
| HashKeys.KeyFromParts | core/storage/src/lib.rs:275-291 | height and hash of a key make the key again |
| HashKeys.LessIsNumeric | core/storage/src/lib.rs:192-221 | big-endian prefixes are ordered as the heights they encode, and only equal heights have equal prefixes |
| HashKeys.HeightsAreOrdered | core/storage/src/lib.rs:192-221 | in key order the heights never fall |
| HashKeys.BeforePrefixIff | core/storage/src/lib.rs:192-221 | a key is before a height's prefix if and only if its height is smaller |
| PrefixScan.EndCovers | core/storage/src/lib.rs:488-489 | stopping at another height loses no requested row |
| PrefixScan.CountCovers | core/storage/src/lib.rs:480-496 | stopping when the countdown reaches zero loses no requested row |
| PrefixScan.ScanHeight | core/storage/src/lib.rs:465-497 | the early-exit loop finds exactly the requested hashes stored at the height, each once, with their bytes |
| PrefixScan.DecodeFound | core/storage/src/lib.rs:499-531 | decoding in chunks of a thousand is decoding the whole, failing when any value fails |
| PrefixScan.TakeOut | core/storage/src/lib.rs:533 | each hash takes its value out of the map, a repeated one finds nothing |
| PrefixScan.GetTransactions | core/storage/src/lib.rs:456-534 | fails if and only if a point lookup of a requested hash fails; otherwise answers each lookup at the first place of its hash |
| PrefixScan.GetReceipts | core/storage/src/lib.rs:625-703 | the same for receipts, an empty request included |
| PrefixScan.ScanIsPointLookups | core/storage/src/lib.rs:456-534 | the answer is the point lookups at every position if and only if no stored hash is requested twice |
| AddrSpec.SwapKeeps | core/network/src/peer_manager/peer_store/addr_manager.rs:161-174 | swapping two places keeps all indexes in agreement and the entries unchanged |
| AddrSpec.RemoveKeeps | core/network/src/peer_manager/peer_store/addr_manager.rs:100-117 | swap-remove keeps the indexes in agreement and removes exactly the entry of that socket address |
| AddrSpec.AddKeeps | core/network/src/peer_manager/peer_store/addr_manager.rs:24-52 | adding keeps the indexes in agreement and the later-connected entry |
| AddrSpec.MarkKeeps | core/network/src/peer_manager/peer_store/addr_manager.rs:129-139 | marking an entry changes that entry alone |
| AddrProofs.RemoveStaleIff | core/network/src/peer_manager/peer_store/addr_manager.rs:100-117 | a removal leaves the peer index exact if and only if it names the stored peer id |
| AddrProofs.AddStaleIff | core/network/src/peer_manager/peer_store/addr_manager.rs:24-52 | an addition leaves the peer index exact if and only if it replaces nothing or names the stored peer id |
| AddrProofs.Shuffle | core/network/src/peer_manager/peer_store/addr_manager.rs:64-68 | for every sequence of draws the shuffle permutes the list and leaves map, peer index and entries alone |
| AddrProofs.EveryRun | core/network/src/peer_manager/peer_store/addr_manager.rs:24-174 | over every run of additions, removals, marks and fetches the indexes agree and the manager is a plain map from socket address to entry; if every removal and replacement names the stored peer id the peer index is exact |
| AddrProofs.GivenUpIff | core/network/src/peer_manager/peer_store/types.rs:71-105 | after any sequence of marks an entry is given up if and only if its last try is over a minute old and it was tried three times without ever connecting or ten times since a connection over a week old |
| AddrProofs.FetchIsSound | core/network/src/peer_manager/peer_store/addr_manager.rs:55-87 | fetched entries are stored, have different socket addresses, are connectable and pass the filter, no two share an IP other than a test IP; a full pass misses no wanted entry whose IP is its own |
| AddrProofs.PicksComplete | core/network/src/peer_manager/peer_store/addr_manager.rs:70-82 | a wanted entry is left out only if another visited entry has its IP |
| AddrManager.Manager.SwapRandomId | core/network/src/peer_manager/peer_store/addr_manager.rs:161-174 | new state is the specification's |
| AddrManager.Manager.Remove | core/network/src/peer_manager/peer_store/addr_manager.rs:100-117 | new state and answer are the specification's; invariant kept; the plain map loses that address |
| AddrManager.Manager.Add | core/network/src/peer_manager/peer_store/addr_manager.rs:24-52 | new state is the specification's; invariant kept; the plain map keeps the later-connected entry |
| AddrManager.Manager.MarkEntry | core/network/src/peer_manager/peer_store/types.rs:95-105 | new state is the specification's; invariant kept |
| AddrManager.Manager.Count | core/network/src/peer_manager/peer_store/addr_manager.rs:90-92 | the size of the plain map |
| AddrManager.Manager.GetByPeerId | core/network/src/peer_manager/peer_store/addr_manager.rs:142-157 | panics if and only if the peer's set holds a removed id; otherwise returns exactly the wanted addresses stored for the peer |
| AddrManager.Manager.FetchRandom | core/network/src/peer_manager/peer_store/addr_manager.rs:55-87 | the loop shuffles and picks as specified, visits everything or stops at the count, and for a count of at least one returns no more |
| Purge.GroupMeans | core/network/src/peer_manager/peer_store/mod.rs:90-121 | the group is the first two bytes of the IPv4 address an address is or embeds, else the first four of the IPv6 address; loopback addresses form one group |
| Purge.PurgeIsFair | core/network/src/peer_manager/peer_store/peer_store_impl.rs:289-312 | every group that loses addresses keeps at least three, every other group is untouched |
| Purge.PurgeFailsIff | core/network/src/peer_manager/peer_store/peer_store_impl.rs:272-317 | with all entries connectable nothing is purged if and only if there is at most one group or none has more than four |
| Purge.PurgeOutcome | core/network/src/peer_manager/peer_store/peer_store_impl.rs:242-319 | at or above the limit a purge either fails, exactly then, with the store unchanged, or strictly lowers the count |
| Purge.AddKeepsBound | core/network/src/peer_manager/peer_store/peer_store_impl.rs:68-76 | adding after a purge never raises the count above the limit or the previous count |
| Purge.AdditionsKeepBound | core/network/src/peer_manager/peer_store/peer_store_impl.rs:68-76 | over every sequence of additions at any times the count stays within the limit or where it started |
| Purge.PeerStore.NotConnectable | core/network/src/peer_manager/peer_store/peer_store_impl.rs:256-266 | removing the collected addresses leaves exactly the connectable entries; none are collected if and only if all are connectable |
| Purge.PeerStore.GroupEntries | core/network/src/peer_manager/peer_store/peer_store_impl.rs:274-280 | one bucket per network group, holding each of its addresses once |
| Purge.PeerStore.Rank | core/network/src/peer_manager/peer_store/peer_store_impl.rs:281-287 | every group once, larger ones first |
| Purge.PeerStore.ChooseCrowded | core/network/src/peer_manager/peer_store/peer_store_impl.rs:289-307 | exactly two addresses from each group of more than four in the larger half, none from others |
| Purge.PeerStore.RemoveAll | core/network/src/peer_manager/peer_store/peer_store_impl.rs:310-312 | exactly the listed addresses go, the manager's invariant stays |
| Purge.PeerStore.CheckPurge | core/network/src/peer_manager/peer_store/peer_store_impl.rs:242-319 | below the limit nothing changes; else the non-connectable entries go if there are any, else two from each crowded group, failing when there is none |
| Purge.PeerStore.AddAddr | core/network/src/peer_manager/peer_store/peer_store_impl.rs:68-76 | a banned address changes nothing; otherwise the map is what a purge leaves plus, if that succeeded and the address is new and complete, one fresh entry with the given score; a known address keeps its entry, no other address is added or altered, and the count never exceeds the larger of the limit and the previous count |

## Left out

- Overlord's voting rounds, BLS and secp256k1 signatures, the EVM interpreter, the CKB VM, RocksDB, the Patricia
  trie and Merkle trees: libraries, represented by uninterpreted functions and by maps from root to content.
- The metadata cache and its epochs: metadata is a function of the block number.
- The LRU caches in `ImplStorage`: the chain's store is a plain map; a failed write leaves a prefix of the writes.
- `SyncStatus` progress reporting, broadcasting, metrics, tracing and all network, RPC and configuration code.
- The signed-transaction log next to the consensus log, and the codecs of blocks and transactions.
- ChainSafety: assumes that remotes answer with the number asked for (what happens otherwise is stated by
  `AnyReplyIff`), that committed content passed `check_block` at that height, and that transactions fetched for a
  commit hash to the proposal's digest; restarts are not steps of a run.
- ProofsAgree: that signatures cannot be forged and honest verifiers vote once per height and round is assumed.
- CommitAnswersIff: interval, timer and authority list of the answer, read from the metadata of the next height, are
  not modelled.
- ReceiveRemoteBlock: an error while telling Overlord about the published status is not modelled; it changes the
  answer only.
- CheckBlockKeepsInv: transaction verification by the mempool is an uninterpreted answer.
- SyncReplaysConsensus: assumes that the syncing node's own store writes succeed and that it starts in step with
  the source.
- CrashSafety: a directory that cannot be listed, file names that are not numbers and read errors are not modelled;
  a crash keeps file operations in the order they were issued.
- Package: the priority order of the heap, because packaging walks it in unspecified order.
- EveryInterleaving: a flush is one step, since it holds the write lock; atomic operations on one map entry are
  one step.
- PackagingIff: the walk over the heap is one step, so a flag raised during the walk is seen by all of it or none.
- ReadsAreFlat: gas price and block context fields of the backend are not modelled.
- SupplyIsConserved: the list holds system transactions only; EVM transactions, the receipt root and the state
  root of the response are not modelled.
- CacheIsTransparent: concurrent calls on the cache and the fixed seed of its generator are not modelled; a refused
  write leaves the store as it was.
- Compress: the precompile's input parsing, gas charge and output encoding are not modelled.
- GetTransactions: errors of the iterator itself are not modelled.
- EveryRun: ids are unbounded; loading a saved manager from disk is not modelled.
- AddAddr: the ban list is an answer given by the caller.
- Other precompiles and the remaining calls of the peer store: thin wrappers that would only add easy members.
