# Verified model of chain-sdk

This project models the stateful core of chain-sdk, a node for rollup chains, and proves what that
core promises: the block producer with its crash recovery, the Cosmos execution layer behind it, the
store with rollback, pruning and its hash index, the caches in front of it, forced inclusion from the
DA layer, height subscriptions, leader election, DA submission bookkeeping, the legacy header codec,
epochs and transaction filtering.

`dafny verify dfyconfig.toml` checks the whole project.

## How the model is built

Each component has specification functions over values and, where the Go code updates state, a class
or a method with loops whose contract equates the new state with those functions. Theorems over whole
runs are lemmas about the specification functions, so they hold for the classes as well.

What the node cannot see into is a parameter: the application (`App`), SHA-256 and header hashes, the
DA client (`Client`), the DA content itself (`Ledger`), the text encoding of chain identifiers
(`Text`), what an LRU cache evicts (`Policy`, `Insertion`), the answers of the Raft node (`Env`), failures of disk
and network (step labels). Time, randomness and the order in which concurrent steps happen are
inputs or nondeterministic steps.

| file | component |
|---|---|
| `Chain.dfy` | state transition and header sequence check (types/state.go) |
| `ExecutionLayer.dfy`, `CosmosExec.dfy` | CosmosExecutor as functions, and as the object it is |
| `NodeTypes.dfy`, `Replay.dfy` | blocks and disk; replay after a restart |
| `NodeMachine.dfy`, `NodeSafety.dfy` | block production as a state machine with crashes at every step; its theorems |
| `NodeBlocks.dfy` | what the blocks of a node hold, and what a call does with its batch |
| `BlockProducer.dfy` | Executor as an object, refining the machine |
| `Epoch.dfy`, `ForcedInclusion.dfy` | DA epochs; prefetching and forced inclusion |
| `HeightSub.dfy` | waiting for a height |
| `Wire.dfy`, `LegacyHeader.dfy`, `LegacyPayload.dfy` | Protocol Buffers wire format; legacy header fields and payload |
| `Keys.dfy`, `Paths.dfy`, `Entries.dfy` | store keys, the database entries they reach, and when the two agree |
| `Store.dfy`, `StoreObjects.dfy`, `StoreIndex.dfy` | store operations, objects, and what the operations keep |
| `Lru.dfy`, `CachedStore.dfy` | caches over the store |
| `Election.dfy` | leader election |
| `Pending.dfy`, `DACache.dfy` | items waiting for DA submission; DA-inclusion cache and its snapshot |
| `Pruner.dfy` | block pruning |
| `TxFilter.dfy` | transaction filtering |

## Main results

- No two different headers are ever signed for one height, over every run with crashes anywhere, as
  long as no call that built a fresh block gives up after signing it. That condition is exact: every
  such step on a live chain leads to a second signature (`NodeSafety.NoEquivocation`,
  `NodeSafety.GivingUpIsSafeIffNotDangerous`), and a run of the code as it stands that does so exists
  for every genesis and application (`NodeSafety.FailedCommitEquivocates`): saving a pending block
  does not set the in-memory pending flag.
- What the sequencer hands out is what ends up on the chain: a call on an aligned node commits exactly
  the batch's transactions in one block on the tip, unless the batch's time precedes the tip's
  (`NodeBlocks.BatchIsCommitted`), and over every run each stored block's data is what its header names
  and is linked to the data below (`NodeBlocks.StoredBlocksAreWellBuilt`).
- The execution layer is level with the store or one block ahead in every reachable state, and a
  restart realigns them exactly when a chain block is stored or they were level
  (`NodeSafety.RestartRealigns`). Losing the first block between execution and commit is the one case
  that does not recover, because replay skips heights below the initial one.
- Replay succeeds exactly on the disks described by `Replayable`, and then equals direct execution;
  it overwrites the DA height recorded with a state (`Replay.ReplayKeepsStateIffSameDAHeight`).
- Forced inclusion delivers every non-empty blob of any k epochs once and in order, whatever the
  prefetch cache holds at each lookup of each query.
- No wakeup is lost in any interleaving of SetHeight and Wait, also when heights go down.
- The hash index is exact over every run that saves no block over a different header, and that is
  exactly what breaks it (`StoreIndex.SaveKeepsIndexIff`).
- Reads through the caches equal reads of the store over every run in which no batch replaces a
  cached entry by a different one, whatever is evicted.
- A metadata name reaches an entry of its own exactly when it has no empty, "." or ".." segment; the
  name "../h/5" is the header of height 5. Every name the node writes is of the first kind, and for
  those the store model and the string database agree operation by operation. Any other name acts on
  the key whose entry it reaches (`Entries.ActsOnEntry`, `Entries.MetadataLeavesOthersIff`).
- Pending items are those of a plain scan over every run in which no change of the store contradicts
  an item cached and still to be submitted, whatever is evicted (`Pending.EveryAnswerIsScan`); block
  production and pruning of submitted heights never do. For one call on any cache the answer is right
  for all evictions exactly when the cached items are current or a scanned height is neither cached nor
  stored (`Pending.ScanWhateverIsEvictedIff`). The runs include submissions whose height was or was not
  written, and restarts.
- The Cosmos filter delivers transactions in their original order exactly when, by the sizes alone,
  none overtakes another.
- The election loop never runs two workers, never starts a leader on logs that have not landed or
  out of sync, and leaves no worker behind; a follower started by the ticker is not compared with the
  Raft state (`Election.FollowerCheckedIff`). When it starts a leader, when a follower and when and with
  what it returns is given exactly (`Election.LeaderStartsIff`, `Election.FollowerStartsIff`,
  `Election.ReturnsIff`): losing leadership always ends the leader.
- Rolling the executor back to a checkpoint restores root, height and blocks, and executing again
  gives each block its old root; the transaction results are restored exactly when none of them was
  reported again in between.
- Pruning never touches the recent part of the chain, nor, with a DA layer, anything it does not include
  yet, and reaches its target within the rounded-up
  number of ticks; it makes no progress exactly for an empty batch, which a validated configuration
  produces only when an interval holds 2^62 blocks.
- Round trips and injectivity for the snapshot, height, key, varint, field, legacy field and legacy
  header payload encodings.

Where comments and code differ the model follows the code. The comments in types/epoch.go give epoch
size 0 the meaning of a single epoch; the retriever then delivers the start height only
(`ForcedInclusion.ZeroSizeDeliversStartOnly`), and genesis validation refuses the value. The comments
on calculateBatchSize speak of a minimum and of a batch of 36000; the code takes at most 10000.

## Model

| member | source | states |
|---|---|---|
| `Chain.SequenceGuard.AssertValidSequence` | types/state.go:76-111 | verdict and process-wide mismatch counter after a check equal `CheckSequence`, error by error |
| `Chain.OfferKeepsProgress` | types/state.go:42-111 | accepting or rejecting one header keeps the accepted ones a chain that the state describes |
| `Chain.AcceptedHeadersFormAChain` | types/state.go:70-111 | whatever headers are offered, the accepted ones have consecutive heights, non-decreasing times, the predecessor's root as app hash, and at most one broken hash link |
| `Chain.OneWaiverPerProcess` | types/state.go:93-104 | over any calls on any states at most one header with a wrong last hash passes |
| `Chain.AcceptedIff` | types/state.go:76-111 | a header is accepted if and only if it is of the chain and, after a first one, next in height, not earlier, on the right app hash, and on the right hash unless the waiver is unused |
| `Chain.WaiverGrantedIff` | types/state.go:93-104 | over any calls the waiver is used, once, if and only if the first header in order with a wrong hash has the right app hash |
| `ExecutionLayer.StepKeepsBounded` | apps/cosmos-exec/executor/executor.go:336-435 | every operation keeps finalized, block and result heights at or below the last height, and the root equal to the committed version |
| `ExecutionLayer.EveryRunIsBounded` | apps/cosmos-exec/executor/executor.go:248-454 | the same over every run from a new executor |
| `ExecutionLayer.RollbackRestoresCheckpoint` | apps/cosmos-exec/executor/executor.go:819-871 | rollback to an earlier height restores root, height and block map whatever happened above it |
| `ExecutionLayer.RollbackToGenesisRefusedIff` | apps/cosmos-exec/executor/executor.go:290-303 | after an executed block, rollback to the genesis height is refused if and only if InitChain did not commit; otherwise it restores the genesis root |
| `ExecutionLayer.ReexecutionReachesSameRoots` | apps/cosmos-exec/executor/executor.go:336-435 | executing, rolling back and executing again gives after every operation the same root, height and blocks as the first time |
| `ExecutionLayer.UntouchedSurvive` | apps/cosmos-exec/executor/executor.go:379-404 | exactly the results recorded at or below a height and not rewritten since are still those of that height |
| `ExecutionLayer.ResultsRestoredIffDisjoint` | apps/cosmos-exec/executor/executor.go:853-857 | rollback restores the transaction results if and only if no later execution reported a transaction that had one |
| `ExecutionLayer.ExecutedResult` | apps/cosmos-exec/executor/executor.go:379-404 | each answered transaction whose hash does not recur later in the block has its own code, log, events, gas and size recorded |
| `ExecutionLayer.ExecutedBlock` | apps/cosmos-exec/executor/executor.go:336-435 | a block is executed if and only if it is next on the current root; root, version, height and block entry then, and nothing else but results changes |
| `ExecutionLayer.InitializedOnce` | apps/cosmos-exec/executor/executor.go:248-276 | after any run a second InitChain changes nothing, and is refused if and only if it is for another chain |
| `ExecutionLayer.MempoolConserves` | apps/cosmos-exec/executor/executor.go:314-454 | over every run what is handed out and what is left are what was there and what was injected, in order |
| `ExecutionLayer.FinalizedIsLargest` | apps/cosmos-exec/executor/executor.go:668-688 | without rollbacks the finalized height is the largest of the first and the accepted ones |
| `ExecutionLayer.RollbackFinalized` | apps/cosmos-exec/executor/executor.go:819-871 | a rollback leaves the finalized height unless it is above the target, and then sets it there |
| `CosmosExec.CosmosExecutor.InitChain` | apps/cosmos-exec/executor/executor.go:248-310 | every refusal, the idempotent second call, and the commit that an empty app hash causes |
| `CosmosExec.CosmosExecutor.GetTxs` | apps/cosmos-exec/executor/executor.go:314-331 | returns the mempool and empties it |
| `CosmosExec.CosmosExecutor.InjectTx` | apps/cosmos-exec/executor/executor.go:438-454 | appends a non-empty transaction and answers its hash, refuses an empty one |
| `CosmosExec.CosmosExecutor.ValidTxs` | apps/cosmos-exec/executor/executor.go:359-366 | the loop keeps exactly the non-empty transactions in order |
| `CosmosExec.CosmosExecutor.RecordResults` | apps/cosmos-exec/executor/executor.go:379-404 | the loop records hash, code, log, events, clamped gas and size of each reported transaction, later ones over earlier ones |
| `CosmosExec.CosmosExecutor.ExecuteTxs` | apps/cosmos-exec/executor/executor.go:336-435 | refines the specification, every refusal leaving the state alone |
| `CosmosExec.CosmosExecutor.SetFinal` | apps/cosmos-exec/executor/executor.go:668-688 | raises the finalized height, never above the last one |
| `CosmosExec.CosmosExecutor.Rollback` | apps/cosmos-exec/executor/executor.go:819-871 | refines the specification, deletion loops included |
| `CosmosExec.CosmosExecutor.PruneExec` | apps/cosmos-exec/executor/executor.go:883-906 | removes blocks and results at or below the height and nothing else |
| `Replay.Replayer.ReplayOne` | block/internal/common/replay.go:128-248 | one replayed block: executor, disk and error are those of `ReplayBlock` |
| `Replay.Replayer.ReplayFrom` | block/internal/common/replay.go:104-109 | the height loop equals `ReplayRange` |
| `Replay.Replayer.Sync` | block/internal/common/replay.go:46-119 | skip, rollback and replay branches equal `SyncToHeight` |
| `Replay.ReplayRangeExact` | block/internal/common/replay.go:104-248 | replay succeeds if and only if the disk is replayable, and then equals direct execution of the stored blocks |
| `Replay.SyncFromBehind` | block/internal/common/replay.go:46-119 | a sync from behind succeeds exactly on a replayable disk, ends at the target and changes no recorded app hash |
| `Replay.ReplayKeepsStateIffSameDAHeight` | block/internal/common/replay.go:222-248 | the rewritten state is the old one if and only if its DA height is its predecessor's |
| `NodeMachine.TipFacts` | block/internal/executing/executor.go:220-368 | on a sound disk the tip state and block are there and fit each other |
| `NodeMachine.BootSyncKeepsInv` | block/internal/executing/executor.go:333-338 | synchronising at start-up keeps the invariant of disk, executor and memory |
| `NodeMachine.ExecuteKeepsInv` | block/internal/executing/executor.go:536-542 | executing the block in hand keeps it |
| `NodeMachine.CommitKeepsInv` | block/internal/executing/executor.go:553-618 | committing a signed block extends the chain and keeps it |
| `NodeSafety.StepKeepsInv` | block/internal/executing/executor.go:445-651 | every step of the machine keeps the invariant |
| `NodeSafety.RunKeepsInv` | block/internal/executing/executor.go:445-651 | so does every run |
| `NodeSafety.StoredHashesAreTheFold` | block/internal/executing/executor.go:792-821 | each stored app hash is the application folded over the stored blocks |
| `NodeSafety.ExecutionNeverDrifts` | block/internal/executing/executor.go:536-611 | in every reachable state the execution layer is level or one ahead, hashes are the fold, blocks are linked, a pending header has its data |
| `NodeSafety.RestartRealigns` | block/internal/executing/executor.go:220-368 | after a crash anywhere a restart comes up on the untouched store, aligned if and only if a chain block is stored or the heights were level |
| `NodeSafety.RestartNeverReplays` | block/internal/executing/executor.go:333-338 | the execution layer is never behind the store at start-up |
| `NodeSafety.LostTailIsReplayed` | block/internal/common/replay.go:46-119 | an execution layer that fell back to an earlier height is brought to the tip with the stored root |
| `NodeSafety.SafeRunKeepsSignOk` | block/internal/executing/executor.go:497-551 | without a dangerous step every signature is remembered by a stored or pending block |
| `NodeSafety.NoEquivocation` | block/internal/executing/executor.go:497-611 | over every run without a dangerous step all headers signed for one height are the same |
| `NodeSafety.DangerousStepEquivocates` | block/internal/executing/executor.go:544-606 | each dangerous step can be followed to a second, different signature, on a header whose time is not before the last block |
| `NodeSafety.GivingUpIsSafeIffNotDangerous` | block/internal/executing/executor.go:497-611 | giving up a call is free of equivocation in every continuation if and only if it is not dangerous |
| `NodeSafety.FailedCommitEquivocates` | block/internal/executing/pending.go:51-79 | for every genesis and application a run with one failed commit signs two headers for one height |
| `NodeSafety.PendingBlockIsCommitted` | block/internal/executing/pending.go:21-48 | after a restart the next call commits exactly the pending block, unless its time precedes the last block's |
| `NodeBlocks.CreateBlockExact` | block/internal/executing/executor.go:686-789 | a new block holds the batch's transactions, names them by its data hash and is linked to header and data of the tip |
| `NodeBlocks.StoredBlocksAreWellBuilt` | block/internal/executing/executor.go:686-789 | in every reachable state header and data of each stored and of the next pending block agree in chain, height, time and data hash, and link to the block below |
| `NodeBlocks.BatchIsCommitted` | block/internal/executing/executor.go:445-651 | the five steps of a call store exactly one block, with the batch's transactions, its state and its DA height, if and only if the tip has no hash or the batch's time does not precede it |
| `NodeBlocks.FreshCallIsThePath` | block/internal/executing/executor.go:445-651 | those are the steps of a call without faults; a refused time makes it end by rejecting |
| `NodeBlocks.StopThenStart` | block/internal/executing/executor.go:181-192 | a stop and start keeps blocks, and the pending block if and only if the flag was set |
| `BlockProducer.Executor.LoadState` | block/internal/executing/executor.go:220-243 | loads the stored or the genesis state as the machine's boot step |
| `BlockProducer.Executor.PersistState` | block/internal/executing/executor.go:272-288 | writes the start state and height as the machine's step |
| `BlockProducer.Executor.WarmAndSync` | block/internal/executing/executor.go:300-338 | sets up memory and synchronises the execution layer as the machine's step |
| `BlockProducer.Executor.InitializeState` | block/internal/executing/executor.go:220-368 | start-up takes exactly the machine's boot steps, ending after the first if the chain cannot be initialized |
| `BlockProducer.Executor.GetPendingBlock` | block/internal/executing/pending.go:21-48 | returns the saved header and data, both or neither |
| `BlockProducer.Executor.SavePendingBlock` | block/internal/executing/pending.go:51-79 | stores both parts and leaves the pending flag as it was |
| `BlockProducer.Executor.CreateBlock` | block/internal/executing/executor.go:686-789 | builds the machine's block on the last state and the last block; what that holds is `NodeBlocks.CreateBlockExact` |
| `BlockProducer.Executor.ObtainBlock` | block/internal/executing/executor.go:491-530 | pending block or fresh block, saved before use |
| `BlockProducer.Executor.ApplyBlock` | block/internal/executing/executor.go:792-821 | executes the block and gives the next state |
| `BlockProducer.Executor.SignHeader` | block/internal/executing/executor.go:826-843 | adds the header to what was signed |
| `BlockProducer.Executor.ValidateAndCommit` | block/internal/executing/executor.go:553-618 | sequence check and one atomic batch, as commit or rejection of the machine |
| `BlockProducer.Executor.ProduceBlock` | block/internal/executing/executor.go:445-651 | a call takes exactly the steps that the machine, the batch and the faults determine, and reports success if and only if it commits |
| `BlockProducer.Executor.Stop` | block/internal/executing/executor.go:181-192 | stopping is a run of the machine |
| `Epoch.BoundariesExact` | types/epoch.go:36-51 | boundaries contain the height, span the epoch size and never wrap below the last epoch |
| `Epoch.StartExact` | types/epoch.go:36-51 | the computed start is that of the epoch of the height for all 64-bit heights, also where the end wraps |
| `Epoch.EpochsTile` | types/epoch.go:13-51 | all heights of an epoch compute the same boundaries and the next height starts the next epoch |
| `Epoch.SameEpochIffWithin` | types/epoch.go:13-51 | equal epoch numbers if and only if one height lies in the other's boundaries |
| `Epoch.EndWrapsIffOutOfRange` | types/epoch.go:36-51 | the computed end is the true one if and only if that fits 64 bits; a wrapped end lies below the height |
| `ForcedInclusion.AsyncBlockRetriever.UpdateCurrentHeight` | block/internal/da/async_block_retriever.go:112-126 | the tracked height never goes down |
| `ForcedInclusion.AsyncBlockRetriever.GetCachedBlock` | block/internal/da/async_block_retriever.go:134-170 | cached block, miss or refusal below the start height |
| `ForcedInclusion.AsyncBlockRetriever.FetchAndCacheBlock` | block/internal/da/async_block_retriever.go:218-290 | caches exactly the answers that may be cached |
| `ForcedInclusion.AsyncBlockRetriever.CleanupOldBlocks` | block/internal/da/async_block_retriever.go:293-332 | keeps exactly the blocks within the window behind the height |
| `ForcedInclusion.AsyncBlockRetriever.PrefetchBlocks` | block/internal/da/async_block_retriever.go:190-215 | which heights are cached after a round, and that contents come from the client or were there |
| `ForcedInclusion.PrefetchKeepsCoherence` | block/internal/da/async_block_retriever.go:190-290 | with an honest client the cache agrees with the DA content |
| `ForcedInclusion.PrefetchedStatesAreCoherent` | block/internal/da/async_block_retriever.go:190-332 | so does every state the cache goes through from the empty one, within rounds as well |
| `ForcedInclusion.PrefetchKeepsCurrentEpoch` | block/internal/da/forced_inclusion_retriever.go:53-60 | a prefetch round keeps every cached block of the current epoch, unchanged, for epochs below 2^63 heights |
| `ForcedInclusion.EpochSurvivesPrefetchIff` | block/internal/da/async_block_retriever.go:293-332 | with the wrapped window no round within an epoch drops one of its cached blocks if and only if the size is below 2^63 or is 2^64 - 1 |
| `ForcedInclusion.SeenIsLedger` | block/internal/da/forced_inclusion_retriever.go:131-222 | cache hits and fetches together give the blobs and the latest time of the DA content |
| `ForcedInclusion.ForcedInclusionRetriever.RetrieveEpoch` | block/internal/da/forced_inclusion_retriever.go:119-243 | at an epoch end: the complete epoch, or an error named by the first height not there |
| `ForcedInclusion.ForcedInclusionRetriever.RetrieveForcedIncludedTxs` | block/internal/da/forced_inclusion_retriever.go:84-243 | not configured, before the start, inside an epoch nothing, at its end the whole epoch; never a part, however the cache changes between the lookups of the query |
| `ForcedInclusion.DeliveredExactlyOnce` | block/internal/da/forced_inclusion_retriever.go:84-243 | over k epochs the deliveries are every non-empty blob once, in DA order |
| `ForcedInclusion.DeliverEpochs` | block/internal/da/forced_inclusion_retriever.go:84-243 | the same for the object, with any coherent cache contents at each lookup of each query |
| `ForcedInclusion.ZeroSizeDeliversStartOnly` | types/epoch.go:36-51 | with epoch size 0 only the start height is delivered; that is everything if and only if no later height has blobs |
| `HeightSub.StepKeepsInv` | pkg/store/store_adapter.go:77-124 | every step keeps: a due waiter is covered by a notification under way, no channel is closed twice |
| `HeightSub.NoLostWakeup` | pkg/store/store_adapter.go:77-124 | the same over every interleaving, with heights going down too |
| `HeightSub.QuiescentStatesHaveNoStrandedWaiters` | pkg/store/store_adapter.go:77-124 | with no SetHeight under way everyone waiting waits for a greater height, and every closed channel stands for a reached one |
| `HeightSub.HeightIsLastStored` | pkg/store/store_adapter.go:78-101 | the height is the one stored last, and a wait gets a channel if and only if its target is above it |
| `HeightSub.DrainingWakesAllDue` | pkg/store/store_adapter.go:112-124 | finishing the pending notifications in any order wakes every due waiter |
| `HeightSub.Subscription.NotifyUpTo` | pkg/store/store_adapter.go:112-124 | closes and drops exactly the waiters at or below the height |
| `HeightSub.Subscription.SetHeight` | pkg/store/store_adapter.go:78-81 | store then notify, as the two steps of the machine |
| `HeightSub.Subscription.CheckAndRegister` | pkg/store/store_adapter.go:85-101 | under the lock: nothing to wait for, or one new channel registered |
| `Wire.VarintRoundTrip` | types/serialization.go:625-630 | a 64-bit varint is read back whatever follows it |
| `Wire.TagRoundTrip` | types/serialization.go:625-630 | so is a field tag |
| `Wire.BytesRoundTrip` | types/serialization.go:625-630 | so is a length-delimited value |
| `Wire.FieldValueExact` | types/serialization.go:556-593 | skipping a field of any wire type, groups nested to the limit included, consumes exactly it |
| `Wire.GroupExact` | types/serialization.go:587-593 | a group is consumed up to its matching end tag |
| `LegacyHeader.DecodeLegacyHeaderFields` | types/serialization.go:534-601 | the loop with its limits and errors equals the specification |
| `LegacyHeader.EncodeLegacyUnknownFields` | types/serialization.go:603-623 | writes the present legacy fields in order, nothing for absent ones |
| `LegacyHeader.DecodeLegacyIsFold` | types/serialization.go:534-601 | on any well-formed unknown fields decoding is the fold over the fields, within the size limits |
| `LegacyHeader.LegacyRoundTrip` | types/serialization.go:534-623 | legacy fields are read back, also with other fields between them |
| `LegacyPayload.MarshalLegacyHeader` | types/serialization.go:632-710 | the payload is the encoding of the header's field list with legacy defaults |
| `LegacyPayload.PayloadBytes` | types/serialization.go:640-710 | the payload byte by byte: tags of fields 1 to 12 on the header's values, absent ones left out, 32 zero bytes for a missing consensus hash |
| `LegacyPayload.ParseIsFold` | types/serialization.go:43-51 | parsing any well-formed field list is the fold over it, field numbers above 2^29 - 1 refused |
| `LegacyPayload.VersionRoundTrip` | types/serialization.go:256-305 | the nested version message is read back, zero values left out |
| `LegacyPayload.PayloadRoundTrip` | types/serialization.go:256-305 | parsing the payload recovers the header with its defaults filled in if and only if the legacy hashes are within the limit of 1024 bytes, and fails otherwise |
| `LegacyPayload.PayloadInjective` | types/header.go:226-256 | two headers with hashes of any size have the same payload if and only if they agree with defaults filled in |
| `Keys.DecimalReads` | pkg/store/keys.go:43-52 | a decimal height is its number without leading zeros |
| `Keys.DecimalInjective` | pkg/store/keys.go:43-52 | decimal heights differ for different heights |
| `Keys.HexInjective` | pkg/store/keys.go:84-88 | so do hexadecimal hashes |
| `Keys.RenderInjective` | pkg/store/keys.go:43-104 | no two keys of the store are written as the same string |
| `Paths.SharesEntryIff` | pkg/store/store.go:185-209 | two keys reach the same database entry if and only if their segments resolve to the same path |
| `Paths.OwnEntryIff` | pkg/store/store.go:185-209 | a key reaches the entry its string names if and only if none of its segments is empty, "." or ".." |
| `Paths.MetadataOwnEntryIff` | pkg/store/store.go:185-209 | for metadata that is a condition on the name |
| `Paths.StoreKeysArePlain` | pkg/store/keys.go:43-92 | all other keys of the store meet it |
| `Paths.BatchEntriesAgree` | pkg/store/batch.go:46-101 | the keys a batch writes without cleaning reach the same entry with it |
| `Paths.PlainKeysAreApart` | pkg/store/store.go:185-209 | different keys that meet it never share an entry |
| `Paths.NameReachesHeader` | pkg/rpc/server/server.go:213-225 | the metadata name "../h/N" reaches the header of height N, for every N |
| `Paths.NamesStayInMetadata` | pkg/store/store.go:194-201 | without ".." a name reaches no entry of another kind of key |
| `Paths.WrittenNamesArePlain` | pkg/store/keys.go:9-40 | every metadata name that the node writes meets the condition |
| `Entries.PlainReadsAgree` | pkg/store/store.go:194-201 | reading such a key from the string database is reading it from the store model |
| `Entries.PlainWritesAgree` | pkg/store/store.go:185-209 | so is putting or deleting it |
| `Entries.ActsOnEntry` | pkg/store/store.go:185-209 | a key reads, writes and deletes whichever plain key has the entry it reaches |
| `Entries.MetadataLeavesOthersIff` | pkg/store/store.go:185-191 | writing metadata leaves all other keys alone if and only if the name is plain or reaches no key's entry |
| `Entries.MetadataWriteIff` | pkg/store/store.go:185-191 | writing metadata is what the store model says if and only if the name meets the condition |
| `Entries.NameActsOnHeader` | pkg/store/store.go:185-201 | reading the name "../h/N" gives the header of height N, and writing it would replace that header |
| `Keys.LittleEndianAt` | pkg/store/store.go:401-414 | byte i of an encoded height is its i-th digit to the base 256, lowest first |
| `Keys.HeightRoundTrip` | pkg/store/store.go:401-414 | the 8-byte height codec is a bijection on 64-bit heights |
| `Store.TopMissing` | pkg/store/store.go:262-292 | where the downward loop stops: the highest height without a header |
| `StoreObjects.DefaultStore.Rollback` | pkg/store/store.go:228-306 | one batch whose effect and error are those of the specification |
| `StoreObjects.DefaultStore.PruneBlocks` | pkg/store/store.go:314-399 | one batch whose effect is that of the specification |
| `StoreObjects.DefaultBatch.SetHeight` | pkg/store/batch.go:36-47 | never lowers the height; fails only on an undecodable one |
| `StoreObjects.DefaultBatch.SaveBlockDataFromBytes` | pkg/store/batch.go:64-85 | header, data, signature and index entry of the block, nothing else |
| `StoreObjects.DefaultBatch.EraseDown` | pkg/store/store.go:262-292 | the loop deletes every height above the target, or stops at the highest missing header |
| `StoreObjects.DefaultBatch.PruneUp` | pkg/store/store.go:339-388 | the loop deletes the stored heights and skips missing ones |
| `StoreIndex.RollbackMeaning` | pkg/store/store.go:228-306 | when rollback succeeds, exactly which heights are erased, that all others and all other metadata stay, and the new heights; a failure changes nothing |
| `StoreIndex.PruneMeaning` | pkg/store/store.go:314-399 | pruning deletes exactly the stored heights above the last pruned one and up to the target; height, DA height and states stay |
| `StoreIndex.RollbackKeepsIndex` | pkg/store/store.go:262-292 | rollback keeps the index exact |
| `StoreIndex.PruneKeepsIndex` | pkg/store/store.go:339-388 | so does pruning |
| `StoreIndex.SaveKeepsIndexIff` | pkg/store/batch.go:64-85 | saving keeps the index exact if and only if no different header was stored at the height |
| `StoreIndex.HashIndexStaysExact` | pkg/store/store.go:228-399 | over every run of rollbacks, prunes, other writes and saves that replace no different header, the index is exactly digest to height |
| `StoreIndex.SaveReadsBack` | pkg/store/batch.go:62-94 | header, data and signature read back by height and by hash; state, chain height and other heights stay |
| `StoreIndex.StateReadsBack` | pkg/store/batch.go:35-101 | a stored state reads back, and setting the height gives the larger one |
| `StoreIndex.BlockByHash` | pkg/store/store.go:74-93 | a lookup by hash finds exactly the stored block with that header digest |
| `Caching.SaveKeepsCoherenceIff` | pkg/store/cached_store.go:88-126 | a save past the caches leaves them right if and only if it replaces no cached header or block by a different one |
| `Caching.RollbackKeepsCoherence` | pkg/store/cached_store.go:143-158 | rollback with its invalidation leaves the caches right |
| `Caching.PruneKeepsCoherence` | pkg/store/cached_store.go:162-170 | so does pruning |
| `Caching.ReadsAreCached` | pkg/store/cached_store.go:88-140 | a stored block that was read is cached, and dropping a range keeps the rest |
| `Caching.CacheIsTransparent` | pkg/store/cached_store.go:88-170 | over every run in which no batch replaces a cached entry by a different one, the cached store answers as the bare store, whatever is evicted |
| `Caching.OverwriteIsHidden` | pkg/store/cached_store.go:107-126 | overwriting a cached block through a batch makes the next read return the old one |
| `CachedStores.CachedStore.GetHeader` | pkg/store/cached_store.go:88-104 | answer and cache contents after a hit, a miss and an error |
| `CachedStores.CachedStore.GetBlockData` | pkg/store/cached_store.go:107-126 | the same, filling both caches |
| `CachedStores.CachedStore.InvalidateRange` | pkg/store/cached_store.go:129-134 | the loop drops exactly the range from both caches |
| `CachedStores.CachedStore.Rollback` | pkg/store/cached_store.go:143-158 | store effect and invalidation, or nothing on an error |
| `CachedStores.CachedStore.PruneBlocks` | pkg/store/cached_store.go:162-170 | store effect and invalidation |
| `Election.StepKeepsInv` | pkg/raft/election.go:91-184 | every event keeps the loop's variables in step with what it did |
| `Election.EveryRunIsSafe` | pkg/raft/election.go:55-185 | over all events and answers: leaders start on landed logs and in sync, one worker at a time, follower before leader and neither twice, none left at the return, nothing after it |
| `Election.LeaderStartsIff` | pkg/raft/election.go:93-139 | over every run a leader is started if and only if the node became leader, the logs landed, it is built, and a follower before it is in sync or recovered |
| `Election.FollowerStartsIff` | pkg/raft/election.go:144-178 | a follower is started if and only if nothing was and another node leads or the ticker first finds a leader, it is built and, after a change, its state is good |
| `Election.ReturnsIff` | pkg/raft/election.go:91-184 | exactly when the loop returns and with which outcome, for every event after every run |
| `Election.EndsWhenItMust` | pkg/raft/election.go:140-184 | lost leadership, cancellation and a failed worker end the loop with the right outcome and every worker ended |
| `Election.LeadershipIsHandedOver` | pkg/raft/election.go:67-107 | a failed worker and a wait in vain are each followed at once by handing leadership over |
| `Election.FollowerCheckedIff` | pkg/raft/election.go:144-178 | over every run, the log up to the start of the follower holds a comparison with the Raft state if and only if a leader change started it while that state was not empty |
| `ElectionLoop.DynamicLeaderElection.StartWorker` | pkg/raft/election.go:67-85 | stops and waits for the old worker, then starts the new one |
| `ElectionLoop.DynamicLeaderElection.OnBecameLeader` | pkg/raft/election.go:93-139 | wait, confirm, reconcile, stop, start, in that order and with every way out |
| `ElectionLoop.DynamicLeaderElection.CheckFollower` | pkg/raft/election.go:188-225 | recovers only a runnable ahead of a non-empty Raft state |
| `ElectionLoop.DynamicLeaderElection.OnTicker` | pkg/raft/election.go:158-178 | the ticker runs until a leader is known and then starts a follower at most |
| `ElectionLoop.DynamicLeaderElection.RunLoop` | pkg/raft/election.go:55-185 | the event loop is the fold of the steps up to the first return; `Election.ReturnsIff` says what they return |
| `Lru.AddIsEvicting` | block/internal/cache/pending_base.go:94-107 | adding to a bounded cache holds the new entry and makes up none, whatever the capacity and the evictions: what the pending results ask of a cache |
| `Pending.ScanExact` | block/internal/cache/pending_base.go:60-112 | the plain scan succeeds if and only if every item is there, and lists them in order |
| `Pending.PlainScanExact` | block/internal/cache/pending_base.go:60-112 | which answer the scan gives when; items are those next in order, at most 200000 |
| `Pending.GetPendingIsScan` | block/internal/cache/pending_base.go:60-112 | the answer, errors included, is that of the plain scan when the cached items among the scanned heights are current |
| `Pending.EveryAnswerIsScan` | block/internal/cache/pending_base.go:60-141 | over every run of calls, submissions written or not, restarts and store changes that contradict no cached item above the submitted height, every answer is that of the plain scan, whatever is evicted |
| `Pending.GrowthIsCoherent` | block/internal/cache/pending_base.go:60-141 | a store that only gains items above the submitted height, and loses or replaces any below, makes such runs |
| `Pending.GapFails` | block/internal/cache/pending_base.go:84-96 | a scanned height neither cached nor stored fails the call, whatever is cached and evicted |
| `Pending.KeepingShowsView` | block/internal/cache/pending_base.go:84-110 | with nothing evicted the answer is the scan of the cache laid over the store |
| `Pending.ScanWhateverIsEvictedIff` | block/internal/cache/pending_base.go:84-110 | for any cache: the answer is that of the plain scan for all evictions if and only if the cached items of the scanned heights are current, or some scanned height is neither cached nor stored |
| `Pending.StaleAfterRollback` | block/internal/cache/pending_base.go:84-110 | after a store rollback and another block at the height the old item is still returned |
| `Pending.SubmittedInOrder` | block/internal/cache/pending_base.go:60-141 | however rounds cut the queue, what is submitted is every item after the last submitted height, in order, once |
| `Pending.SubmissionDrains` | block/internal/cache/pending_base.go:60-141 | rounds that each get something through empty the queue |
| `Pending.NumPendingExactIff` | block/internal/cache/pending_base.go:114-121 | the unsigned count is right if and only if the store is not behind |
| `Pending.SetLastExact` | block/internal/cache/pending_base.go:127-141 | the marker becomes the larger of the two heights; a restart finds the new one if it was written and the old entry if not |
| `Pending.SetAllIsLargest` | block/internal/cache/pending_base.go:127-141 | after any calls the marker is the largest height called with |
| `Pending.RestartResumes` | block/internal/cache/pending_base.go:127-160 | a restart never resumes past what was submitted, and exactly there when every write went through |
| `Pending.AdvanceExact` | block/internal/cache/pending_data.go:90-113 | the marker moves to the end of the empty blocks that follow it and nowhere else |
| `Pending.AdvanceMarkExact` | block/internal/cache/pending_data.go:90-113 | with any failing metadata writes the marker still ends there, and a restart resumes at or before it |
| `PendingItems.PendingBase.GetPending` | block/internal/cache/pending_base.go:60-112 | answer and cache after both loops equal the specification, for any cache and any evictions |
| `PendingItems.PendingBase.Init` | block/internal/cache/pending_base.go:143-160 | picks up the persisted height, fails on an entry of the wrong length |
| `PendingItems.PendingBase.SetLastSubmittedHeight` | block/internal/cache/pending_base.go:127-141 | only forward, and persisted |
| `PendingItems.PendingBase.AdvancePastEmptyData` | block/internal/cache/pending_data.go:90-113 | the loop moves the marker as specified and persists each step that can be written |
| `DACache.PlaceholderInjective` | block/internal/cache/generic_cache.go:284-297 | placeholder keys of different heights differ and none is a hexadecimal hash |
| `DACache.SnapshotRoundTrip` | block/internal/cache/generic_cache.go:231-255 | the 16-byte entry codec loses nothing |
| `DACache.IncludeRefines` | block/internal/cache/generic_cache.go:152-159 | recording an inclusion is a map update when a hash belongs to one height |
| `DACache.OthersKeptIff` | block/internal/cache/generic_cache.go:152-159 | the other heights keep their answers if and only if none shares the replaced hash or the new one |
| `DACache.SeenKeepsAnswerIff` | block/internal/cache/generic_cache.go:127-131 | seeing a hash keeps its height's answer if and only if the hash's own inclusion entry gives it; with room left other heights keep theirs |
| `DACache.SnapshotRestores` | block/internal/cache/generic_cache.go:209-282 | save and restore give every height the same answer and the largest DA height as maximum |
| `DACache.CacheRefinesMap` | block/internal/cache/generic_cache.go:141-282 | over every run of inclusions, hashes seen, deletions and restarts that lose no answer the cache is the plain map, bounded by its maximum |
| `DACache.MaximumIsLargest` | block/internal/cache/generic_cache.go:152-185 | between restarts the reported maximum is the largest DA height ever included |
| `DACache.CacheIsSound` | block/internal/cache/generic_cache.go:141-282 | over every run, evictions and hidden answers included, an answer is that of the plain map when there is one |
| `DACache.SeenIsSoundIff` | block/internal/cache/generic_cache.go:127-131 | seeing a hash keeps every answer right if and only if the hash has no inclusion entry other than the current DA height of its height |
| `DACaches.EncodeSnapshot` | block/internal/cache/generic_cache.go:232-240 | the buffer written by index is the encoding |
| `DACaches.DecodeSnapshot` | block/internal/cache/generic_cache.go:244-255 | entry by entry, nothing for a partial buffer |
| `DACaches.HeightPlaceholderKey` | block/internal/cache/generic_cache.go:287-297 | the digits written from the back are the placeholder |
| `DACaches.InclusionCache.MarkSeen` | block/internal/cache/generic_cache.go:127-131 | the hash is seen and becomes the one recorded for the height; inclusion entries stay |
| `DACaches.InclusionCache.RecordDAIncluded` | block/internal/cache/generic_cache.go:152-159 | both caches and the maximum after one inclusion |
| `DACaches.InclusionCache.DeleteHeight` | block/internal/cache/generic_cache.go:191-205 | removes the item, the seen hash, the index entry and the inclusion entry of the height |
| `DACaches.InclusionCache.PersistSnapshot` | block/internal/cache/generic_cache.go:209-229 | one entry for every height with an answer, in some order |
| `DACaches.InclusionCache.RestoreFromStore` | block/internal/cache/generic_cache.go:261-282 | installs every decoded entry under its placeholder |
| `Pruning.BatchSizeExact` | block/internal/pruner/pruner.go:167-177 | with a validated interval the batch is four times its blocks, at most 10000, wrapping at 2^62 blocks |
| `Pruning.BatchEmptyIff` | block/internal/pruner/pruner.go:167-177 | with a validated interval the batch is empty if and only if an interval holds 2^62 blocks |
| `Pruning.TickKeepsRecent` | block/internal/pruner/pruner.go:109-162 | a tick changes nothing within the last blocks to keep of the chain or of its DA-included part, nor anything while a height is unknown |
| `Pruning.TickAdvances` | block/internal/pruner/pruner.go:138-152 | the last pruned height moves to the end of the batch and only forward |
| `Pruning.ProgressIff` | block/internal/pruner/pruner.go:138-152 | a tick below the target makes progress if and only if the batch is not empty and its end does not wrap |
| `Pruning.PruningConverges` | block/internal/pruner/pruner.go:109-177 | the target is reached within the rounded-up quotient of ticks, and no header between is left |
| `Pruning.PruningReaches` | block/internal/pruner/pruner.go:109-177 | every header up to the lower of chain and DA-included height less the blocks to keep is gone within the number of ticks that min(4 * interval / block time, 10000) gives |
| `Pruning.ConvergesIff` | block/internal/pruner/pruner.go:109-177 | pruning ever reaches the target if and only if the batch is not empty |
| `Pruning.RecentBlocksSurvive` | block/internal/pruner/pruner.go:109-162 | while the chain grows, header, data and signature of every height so protected at the end are still there, unchanged unless saved again |
| `Pruning.TickExecKeepsRecent` | block/internal/pruner/pruner.go:154-158 | the execution layer keeps blocks and results of such heights, its height and its root |
| `Pruning.TickKeepsInStep` | block/internal/pruner/pruner.go:145-158 | store and execution layer are pruned together |
| `Pruning.TickFailsIff` | block/internal/pruner/pruner.go:109-152 | a tick fails if and only if a height it needs cannot be read, and then changes nothing |
| `Pruning.LastPrunedEntryIff` | block/internal/pruner/pruner.go:232-249 | which entry stands for which last pruned height |
| `Pruners.Pruner.PruneBlocks` | block/internal/pruner/pruner.go:109-162 | one tick on the store and on the execution layer, with its skips and errors |
| `Pruners.Pruner.GetLastPrunedBlockHeight` | block/internal/pruner/pruner.go:232-249 | missing is 0; another length or the value 0 is an error |
| `TxFilter.DummyRound` | core/execution/dummy.go:114-153 | a round takes a prefix of what fits a block within the limit, at least one, and postpones the rest |
| `TxFilter.CosmosRound` | apps/cosmos-exec/executor/executor.go:701-727 | a round takes some of what fits within the limit, at least one; the rest and the oversize are postponed |
| `TxFilter.DummyStatusIff` | core/execution/dummy.go:114-153 | each status: removed if and only if empty or oversize, postponed if and only if one before was or it exceeds the room left |
| `TxFilter.CosmosStatusIff` | apps/cosmos-exec/executor/executor.go:701-727 | each status: removed if and only if empty, postponed if and only if it exceeds the room left by those accepted before it |
| `TxFilter.DummyDrains` | core/execution/dummy.go:114-153 | re-filtering accepts every transaction that fits once, in order, in at most that many rounds |
| `TxFilter.CosmosDrains` | apps/cosmos-exec/executor/executor.go:701-727 | re-filtering accepts each of them once; exactly the oversize ones stay postponed |
| `TxFilter.RoundKeepsOrderIff` | apps/cosmos-exec/executor/executor.go:701-727 | what a round accepts, followed by what it postpones, keeps the order if and only if, by the sizes alone, nothing overtakes |
| `TxFilter.CosmosKeepsOrderIff` | apps/cosmos-exec/executor/executor.go:701-727 | re-filtering delivers what fits in its original order if and only if nothing ever overtakes, for every queue and limit |
| `TxFilter.CosmosReorders` | apps/cosmos-exec/executor/executor.go:701-727 | an instance: a small transaction overtakes one that has to wait |
| `TxFilter.DummyFilterTxs` | core/execution/dummy.go:114-153 | the loop assigns the specified statuses |
| `TxFilter.CosmosFilterTxs` | apps/cosmos-exec/executor/executor.go:701-727 | the loop assigns the specified statuses |

## Left out

- Raft in block production: the machine is the node without a Raft node; the election loop is modelled on its own.
- Signature values, proposer checks and the signer: a signature is the fact that a header was signed.
- migrateLegacyPendingBlock: it only acts on a block stored above the height, which the machine never has.
- Persistence of CosmosExecutor to JSON lines and the metadata file, queries, simulation, accounts and events of transactions.
- P2P, RPC, HTTP and gRPC servers, the DA client, telemetry, configuration loading and command lines.
- Syncer, submitter and sequencers: not part of this model; forced inclusion and pending items are modelled up to their interfaces.
- pendingCache and the rest of StoreAdapter: only its heightSub is modelled.
- pruneMetadata: the pruning mode that deletes states and keeps blocks.
- Items of the generic cache and getNextItem: only what the answers by height depend on is followed over runs.
- Block heights of the node, store and caches are unbounded naturals; 64-bit wrap-around is modelled for epochs, time stamps, pending counts, batch sizes and all encodings.
- Metadata under names that are not plain: runs of the store write plain names only, as the node does; what another name reaches is in Paths and Entries.
- go-datastore, the Cosmos application and its versioned store are libraries: NewKey is taken to be Go's path.Clean on the rooted string, Commit to record the version of the height it ends, LoadVersion to succeed exactly for recorded versions.
- The slim Protocol Buffers form of Header and the other messages: only the legacy payload and its parser are modelled.
- Compare-and-swap races on atomic counters and concurrent use of LRU caches: operations on one object are atomic, except in heightSub, where the interleavings are the point.
- Context cancellation, except in CosmosExecutor and the election loop.
- NodeSafety.NoEquivocation: restricted to runs without a dangerous step, because the property is false beyond them; the condition is shown to be exact.
- NodeSafety.RestartRealigns: realignment is stated with its exact condition, because it fails for a lost first block.
- ForcedInclusion.ForcedInclusionRetriever.RetrieveForcedIncludedTxs: not for an epoch that ends at height 2^64 - 1, where the loop over its heights does not end.
- BlockProducer.Executor.CreateBlock: leaves out the public key, the validator hash errors and the error for a missing previous signature; that signature is stored in one batch with its block.
- ForcedInclusion.DeliveredExactlyOnce: for epoch sizes of at least 1; size 0 is covered by `ForcedInclusion.ZeroSizeDeliversStartOnly`.
- Pending.EveryAnswerIsScan: for runs in which no store change contradicts a cached item still to be submitted, because that item would be stale (`Pending.StaleAfterRollback`; `Pending.ScanWhateverIsEvictedIff` says exactly when one call is right).
- Caching.CacheIsTransparent: for batches that replace no cached entry, because others leave it stale (`Caching.SaveKeepsCoherenceIff`, `Caching.OverwriteIsHidden`).
- Pruning.PruningReaches: for intervals of less than 2^62 blocks; `Pruning.BatchSizeExact` gives the batch beyond.
- Pruning.PruningConverges: for targets more than one batch below 2^64, because the batch end wraps beyond (`Pruning.ProgressIff`).
- DACache.CacheRefinesMap: for hashes that belong to one height, caches that are not overfull and hashes seen that take the place of no answer; `DACache.OthersKeptIff` and `DACache.SeenKeepsAnswerIff` say what a shared hash and a hash seen do, `DACache.CacheIsSound` what remains true of overfull caches and hidden answers.
- DACache.CacheIsSound: for hashes seen that bring back no stale inclusion entry, because that entry would be a wrong answer (`DACache.SeenIsSoundIff`).
- StoreIndex.HashIndexStaysExact: for runs that save no block over a different header, because that breaks the index (`StoreIndex.SaveKeepsIndexIff`).
