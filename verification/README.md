# Hearth node: a Dafny model

This project models the parts of the Hearth node whose correctness spans many steps, and proves what they promise for
every input, every run or every reachable state. `dafny verify dfyconfig.toml` checks all of it.

What is modelled, by component:

- **Subscriber event queue** (`ChainEvents`, `Compaction`, `EventHandler`, `HandlerLimits`, `UpdateFeed`, `UpdateLoader`,
  `UpdateStream`, `StreamGaps`). A handler buffers append and rollback events for one subscriber, compacts rollbacks against
  what it has not sent, and is drained by tasks on a scheduler. Each unlocked read and each locked section is one step of a state machine, and the
  steps of all threads interleave freely. The repository that feeds it and the loader that replays stored updates
  are steps of the same machine: any calls of the node make a run of the handler, and what a subscriber is sent in all,
  rows and then live events, is a legal run under an exact condition on the rows it read.
- **Reservations** (`Ledger`, `LedgerBooks`, `LedgerEffects`, `LedgerExact`, `KeyedHistory`, `WithdrawalIndex`, `LedgerChain`,
  `RollbackHorizon`, `StaleWithdrawal`). Reserve, Settle, Withdraw and the delayed payout over three lifetime counters, each to
  the unit, stored in history-keyed families with an index of what is due, appended to and rolled back block by block as far
  as the rollback depth allows.
- **Stakes** (`Periods`, `StakeLock`, `StakePayout`). The lock read at the tip and the lock rebuilt from linked history,
  the candidate index, and the split of a period's issuance.
- **Export and import** (`ExportJoin`, `ChainFile`, `Importer`, `RoundTrip`). The lookahead merge join, the length-prefixed
  files, the chunked reader with skip and resume, the apply loop, and all of these in one: from one node's database to
  another node's chain.
- **Supply, balances, simulation** (`SupplyAudit`, `BalanceHistory`, `BaseTarget`). Fees, carry, rewards and penalties
  with the explorer's check of the total; the linked balance history with its listing and its scan; the chunked minimum
  inside the base target simulation.
- **Consensus arithmetic** (`Bytes`, `SettlementMessage`, `EmissionCurve`, `EmissionAccuracy`). The signed settlement
  preimage and the Q128 reward curve.

`Wrappers` and `Sums` hold the option and result types and sums over finite sets.

## Where the code differs from what is written about it

The model follows the code. Each difference is proved, with the exact condition under which the promise does hold.

- `docs/notes/hearth-transactions.md:441` says nothing outlives a paid request. When the block that pays a request also
  carries the next Withdraw of the same client, miner and asset, the paid request's index entry stays
  (`StaleWithdrawal.StaleEntryReached`, `WithdrawalIndex.AgreementExactly`). It never pays twice.
- `docs/notes/cred-economy.md:96-102` keeps an address in the candidate index while it holds a stake or changed one in the
  period, and says pruning need not be undone by a rollback. A block is written as one batch, and the pruning at a
  period's first block reads the database as it was before the block, so a stake set there after a release loses its
  entry at once (`StakePayout.RestakeLost`); and undoing such a block does not bring back what it pruned
  (`StakePayout.MissedStaker`). Either way the address is not paid. `StakePayout.RunEnumeration` says exactly when it is,
  over all runs of blocks appended and undone.
- The supply check of the explorer ignores penalties, which the total stored with each block does count. It reports an
  error on every chain on which a deposit was ever taken (`SupplyAudit.AuditVerdict`), and such chains there are
  (`SupplyAudit.PenaltyReached`).
- The import height is exceeded by one: the loop applies `importHeight - startHeight + 1` blocks
  (`Importer.ResumeReaches`).
- Resuming an import with snapshots in the format that is not binary skips the snapshots twice
  (`ChainFile.OtherSkipsTwice`), so it works only for a node that holds nothing of the file, or all of it
  (`ChainFile.OtherResumesExactly`).
- A subscriber is sent stored rows and then live events, and each batch of rows reads the database as it is then. Three
  things go wrong without an error. A rollback below the row the loader is at ends it short of its target, which is never
  checked (`StreamGaps.LostRows`). A subscriber that joins while there is no liquid block, as after a start or a rollback,
  has no target, so a block that is stored before the loader gets to it is sent twice (`StreamGaps.RepeatedRow`). And a
  rollback with new blocks between two batches mixes the rows of two forks (`StreamGaps.ForkedRows`).
  `UpdateStream.StreamExactly` says when the whole is a legal run, in every history.
- The updates repository deletes as many keys above a height as it has found rows there, starting right above the height.
  When storage starts further up, other rows are deleted than were found (`UpdateFeed.DeletedExactly`).
- A transaction row without a block row makes every later block lose its transactions (`ExportJoin.OrphanStarves`;
  `ExportJoin.TakenExactly` for what each block gets).
- The scan for corrupt balance history never looks at an address's oldest row, so the listing of an address it is silent
  about may never end (`BalanceHistory.OldestUnchecked`, `BalanceHistory.EndsExactly`); and after old nodes are deleted
  the listing ends with an entry of zero that was never written (`BalanceHistory.HistoryAfterCleanup`).
- `docs/notes/economics.md:58` derives the initial reward from the curve's integral. The settings in the code are derived
  from the discrete sum, and for those the cap is proved (`EmissionCurve.HardCap`).
- The counting argument for the settlement preimage uses a bound on the period start. A bound on the number of
  settlements serves as well, and the validator's limit of 100 is far below it, so the preimage is injective at every
  height (`SettlementMessage.MessageInjective`, `SettlementMessage.AcceptedInjective`); past both bounds it is not (`SettlementMessage.Collision`).

## Modelling decisions

- An id is a hash over its parent, so it fixes its ancestry: `parent` is that function, and every append names its
  reference accordingly. Chains are spelled out with the ids of all microblocks, also where a block is stored whole.
- A replayed row counts as its block and then its microblocks, one append each.
- A subscriber holds the chain under the first row it asks for, and its subject is subscribed to once the loader is done.
- A completed subject delivers nothing more.
- Fees are kept as a pool in the reservation ledgers, so that their books balance without the block's miner; `SupplyAudit`
  is where fees are shared out.
- `UpdateFeed.Allowed` says what the node guarantees to the repository: new ids are new, a block goes on top of the node's
  chain, and a rollback names the block that is at the given height, which is not below what is stored.
- The appender, the block codec, signatures, hit sources, delays and base target formulas are functions given from outside.

## Model

| member | source | states |
|---|---|---|
| EventHandler.CompactionInvisible | grpc-server/src/main/scala/tech/hearth/events/Handler.scala:25-112 | in every state of every interleaving of updates, rollbacks, sends and acknowledgements, until the subject is completed, what was delivered followed by the buffer leads the subscriber to the chain the whole uncompacted log leads to |
| EventHandler.DeliveredIsLegal | grpc-server/src/main/scala/tech/hearth/events/Handler.scala:37-112 | every prefix of what the subscriber ever receives is a legal run: an append references the tip, a rollback names an id on the chain, also after a truncation and after cancellation |
| EventHandler.NoLostWakeUp | grpc-server/src/main/scala/tech/hearth/events/Handler.scala:20-112 | with a non-empty buffer, an accepted subscription, no cancellation and no Stop, some read, task, acknowledgement or subscription callback is outstanding |
| EventHandler.DrainsCompletely | grpc-server/src/main/scala/tech/hearth/events/Handler.scala:94-112 | once the node is silent and the subscriber keeps acknowledging, every schedule ends within a stated number of steps, with an empty buffer and the subscriber on the node's chain |
| HandlerLimits.EndedExactly | grpc-server/src/main/scala/tech/hearth/events/Handler.scala:20-92 | over all runs: the subject is completed exactly by a shutdown or by an update that finds the buffer full, and the subscription is cancelled by these or when it is not accepted, and by nothing else |
| HandlerLimits.EndedCleared | grpc-server/src/main/scala/tech/hearth/events/Handler.scala:26-30 | and then nothing is left in the buffer |
| HandlerLimits.UpdateBuffered | grpc-server/src/main/scala/tech/hearth/events/Handler.scala:31-34 | an update that finds room is buffered behind everything else and asks for a send |
| HandlerLimits.SendsAsked | grpc-server/src/main/scala/tech/hearth/events/Handler.scala:94-112 | between any two states of a run no more is delivered than was on its way and was asked for since, by reports of the node, by Continue and by the accepted subscription; a Stop asks for nothing |
| HandlerLimits.CancelledRunsOut | grpc-server/src/main/scala/tech/hearth/events/Handler.scala:94-96 | once a subscription is cancelled only sends already scheduled go out |
| HandlerLimits.SendsInOrder | grpc-server/src/main/scala/tech/hearth/events/Handler.scala:97-101 | only a task delivers, the first buffered event at a time, and none once the subject is completed |
| EventHandler.StepChainInv | grpc-server/src/main/scala/tech/hearth/events/Handler.scala:25-112 | each single step of any thread keeps the invariant behind these results |
| EventHandler.RunInv | grpc-server/src/main/scala/tech/hearth/events/Handler.scala:20-112 | the invariant in every state of every run |
| EventHandler.RollbackBlockFaithful | grpc-server/src/main/scala/tech/hearth/events/Handler.scala:75-85 | reverting microblocks and then blocks in the buffer is as good as logging all the rollbacks |
| Compaction.RevertMicroFaithful | grpc-server/src/main/scala/tech/hearth/events/Handler.scala:37-54 | cutting the buffer at the first match, or appending the rollback, leaves the subscriber on the chain the logged rollback leads to |
| Compaction.RevertBlockFaithful | grpc-server/src/main/scala/tech/hearth/events/Handler.scala:61-82 | the same for a block rollback, which cuts at the last event with its id |
| Compaction.RevertMicroExactly | grpc-server/src/main/scala/tech/hearth/events/Handler.scala:37-54 | the buffer is cut exactly if the target or a microblock on top of it is buffered, after the one or before the other, whichever comes first; otherwise the rollback is buffered last |
| Compaction.RevertBlockExactly | grpc-server/src/main/scala/tech/hearth/events/Handler.scala:61-82 | the buffer is cut exactly if its last event is an append and some event has the id, after the last of those; otherwise the rollback is buffered last |
| Compaction.RevertMicrosFaithful | grpc-server/src/main/scala/tech/hearth/events/Handler.scala:75-76 | the same for a list of microblock rollbacks |
| Compaction.RevertBlocksFaithful | grpc-server/src/main/scala/tech/hearth/events/Handler.scala:77-82 | the same for a list of block rollbacks |
| ChainEvents.TipFixesChain | grpc-server/src/main/scala/tech/hearth/events/events.scala:524-528 | two chains over one genesis with the same tip are the same, since an id fixes what it references |
| ChainEvents.RunsAgree | grpc-server/src/main/scala/tech/hearth/events/events.scala:524-528 | two legal runs that end at the same tip leave the subscriber with the same chain |
| EventHandler.Handler.constructor | grpc-server/src/main/scala/tech/hearth/events/Handler.scala:15-23 | a new handler buffers the liquid block's events and waits for the subscription |
| EventHandler.Handler.HandleUpdate | grpc-server/src/main/scala/tech/hearth/events/Handler.scala:25-35 | the handler's update step: with room the event is buffered and nothing is cancelled, a full buffer is cleared and the subscription cancelled |
| EventHandler.Handler.RevertMicroBlock | grpc-server/src/main/scala/tech/hearth/events/Handler.scala:37-54 | the scan from the front computes the cut `RevertMicroFaithful` is about |
| EventHandler.Handler.RollbackMicroBlock | grpc-server/src/main/scala/tech/hearth/events/Handler.scala:56-59 | the microblock rollback step |
| EventHandler.Handler.RevertBlock | grpc-server/src/main/scala/tech/hearth/events/Handler.scala:61-73 | the scan from the back cuts after the last event with the rollback's id, or appends the rollback |
| EventHandler.Handler.RevertMicroBlocks | grpc-server/src/main/scala/tech/hearth/events/Handler.scala:75-76 | the loop over reverted microblocks |
| EventHandler.Handler.RevertKeyBlocks | grpc-server/src/main/scala/tech/hearth/events/Handler.scala:77-82 | the loop over reverted blocks, which compacts only behind an append |
| EventHandler.Handler.RollbackBlock | grpc-server/src/main/scala/tech/hearth/events/Handler.scala:75-85 | the block rollback step |
| EventHandler.Handler.Shutdown | grpc-server/src/main/scala/tech/hearth/events/Handler.scala:87-92 | the shutdown step |
| EventHandler.Handler.SendUpdate | grpc-server/src/main/scala/tech/hearth/events/Handler.scala:94-96 | both unlocked reads, and the task they lead to |
| EventHandler.Handler.RunTask | grpc-server/src/main/scala/tech/hearth/events/Handler.scala:97-101 | a task sends the first buffered event, or nothing |
| EventHandler.Handler.OnAck | grpc-server/src/main/scala/tech/hearth/events/Handler.scala:101-109 | an acknowledgement asks for one more event, a Stop or failure does not |
| EventHandler.Handler.OnSubscription | grpc-server/src/main/scala/tech/hearth/events/Handler.scala:20-23 | an accepted subscription starts sending, any other cancels |
| UpdateFeed.CallFollows | grpc-server/src/main/scala/tech/hearth/events/Repo.scala:63-213 | every call the node may make keeps the repository sound, and what it reports takes the node's chain from before the call to after it; rollback calls report rollbacks only |
| UpdateFeed.RollbackSettles | grpc-server/src/main/scala/tech/hearth/events/Repo.scala:153-172 | what a rollback reports leads to the part of the node's chain up to the block it was asked for |
| UpdateFeed.RollbackArrives | grpc-server/src/main/scala/tech/hearth/events/Repo.scala:153-172 | a rollback that reverts a block ends at the block it was asked for |
| UpdateFeed.FindId | grpc-server/src/main/scala/tech/hearth/events/Repo.scala:183-189 | the search from the end for the id to keep |
| UpdateStream.HistoryIsRun | grpc-server/src/main/scala/tech/hearth/events/Repo.scala:63-213 | however the node's calls, the loader's reads and the handler's own steps interleave, the handler goes through one of its runs, and its log leads to the node's chain |
| UpdateStream.SubscriberFollowsNode | grpc-server/src/main/scala/tech/hearth/events/Repo.scala:63-213 | in every state of every such history, until the subject is completed, what was delivered followed by the buffer leads from the chain stored at the join to the node's chain |
| UpdateStream.StreamExactly | grpc-server/src/main/scala/tech/hearth/events/Repo.scala:230-252 | in every state of every history, whatever the node does between two batches: the rows read and then the live events are a legal run for the subscriber if and only if each row goes on the one before and, once there are live events, the last row is the last that was stored at the join, or there was no liquid block then and the first live event rolls back to an id the subscriber holds; live events come only after the loader is done |
| UpdateStream.StreamArrives | grpc-server/src/main/scala/tech/hearth/events/Repo.scala:230-252 | and then what is still buffered leads the subscriber to the node's chain |
| UpdateStream.TargetReached | grpc-server/src/main/scala/tech/hearth/events/Loader.scala:30-35 | with a liquid block at the join, rows that go on one another and get to the target height are followed by fitting live events, whatever else happened |
| UpdateStream.UndisturbedStream | grpc-server/src/main/scala/tech/hearth/events/Loader.scala:21-48 | if no rollback is made while the loader reads, and without a liquid block at the join nothing is stored either, then the loader never fails and what is sent is a legal run ever after |
| UpdateStream.LoadsInOrder | grpc-server/src/main/scala/tech/hearth/events/Loader.scala:21-48 | under the same condition what was read is a part of what was stored at the join from the first height on, and all of it when the loader is done |
| UpdateStream.HistoryRead | grpc-server/src/main/scala/tech/hearth/events/Loader.scala:21-48 | in every history the rows read were all stored over one genesis, the one at the target height is the target, and nothing is sent before the loader is done |
| UpdateStream.LoadedIs | grpc-server/src/main/scala/tech/hearth/events/Loader.scala:21-48 | one batch over the rows stored now: how many are taken, from which one on, and when it fails or ends |
| UpdateStream.RowsRun | grpc-server/src/main/scala/tech/hearth/events/events.scala:524-528 | rows lead from a chain to that chain and their ids if and only if each references the one before |
| UpdateStream.HandoverExactly | grpc-server/src/main/scala/tech/hearth/events/Repo.scala:243-251 | live events that fit one chain fit another over the same genesis exactly if there are none, the tips are the same, or the first rolls back to an id on the other; and then both end up on the same chain |
| UpdateStream.RunKeyFirst | grpc-server/src/main/scala/tech/hearth/events/Handler.scala:15-85 | the liquid block a handler starts with is the first event it delivers, whatever is compacted |
| StreamGaps.LostRows | grpc-server/src/main/scala/tech/hearth/events/Loader.scala:25-48 | a history with a rollback before the first batch: the loader is done without a row and without an error, and the first live event does not fit |
| StreamGaps.RepeatedRow | grpc-server/src/main/scala/tech/hearth/events/Repo.scala:243-251 | a history that starts without a liquid block: two new blocks before the first batch, and the first live event is a row that was replayed |
| StreamGaps.ForkedRows | grpc-server/src/main/scala/tech/hearth/events/Loader.scala:40-48 | a history with a rollback and new blocks between two batches: the second row does not go on the first |
| UpdateFeed.LiquidAdmissible | grpc-server/src/main/scala/tech/hearth/events/Repo.scala:230-236 | the events a new handler starts with lead from the stored chain to the node's chain |
| UpdateFeed.MicroRevertsRun | grpc-server/src/main/scala/tech/hearth/events/Repo.scala:126-138 | reverting a liquid block's microblocks last first, each event naming the reverted one, is legal and ends at the first microblock |
| UpdateFeed.SolidRevertsRun | grpc-server/src/main/scala/tech/hearth/events/Repo.scala:140-151 | reverting stored blocks last first is legal and ends at what the oldest one references |
| UpdateFeed.RollbackRuns | grpc-server/src/main/scala/tech/hearth/events/Repo.scala:153-172 | a rollback's microblock and block events together lead from the node's chain to a part of it, cut at what the oldest reverted block references |
| UpdateFeed.Repo.constructor | grpc-server/src/main/scala/tech/hearth/events/Repo.scala:30-36 | an empty repository over a chain |
| UpdateFeed.Repo.OnProcessBlock | grpc-server/src/main/scala/tech/hearth/events/Repo.scala:63-82 | fails exactly when the block does not reference the liquid block's total id; otherwise stores that block, and its event extends the node's chain |
| UpdateFeed.Repo.OnProcessMicroBlock | grpc-server/src/main/scala/tech/hearth/events/Repo.scala:84-101 | fails exactly without a liquid block or with another reference; otherwise its event extends the node's chain |
| UpdateFeed.Repo.RollbackData | grpc-server/src/main/scala/tech/hearth/events/Repo.scala:103-124 | takes the stored blocks above a height, last first, and deletes as many keys from there on |
| UpdateFeed.DeletedExactly | grpc-server/src/main/scala/tech/hearth/events/Repo.scala:103-124 | all blocks but those at the deleted heights are left, and they are the ones up to the height if and only if storage starts no higher than right above it or is empty |
| UpdateFeed.Repo.OnRollback | grpc-server/src/main/scala/tech/hearth/events/Repo.scala:153-172 | fails exactly for a height not below the liquid block or a wrong reference; otherwise its rollback events take the node's chain to one whose tip is the requested block |
| UpdateFeed.Repo.OnMicroBlockRollback | grpc-server/src/main/scala/tech/hearth/events/Repo.scala:174-213 | fails exactly without a liquid block, for an unknown id and for the last id; otherwise its event cuts the node's chain at that id |
| UpdateLoader.LoadBatch | grpc-server/src/main/scala/tech/hearth/events/Loader.scala:22-38 | the batch loop takes no more than 100 rows, fewer only at the end of storage or past the target, and checks the row at the target height |
| UpdateLoader.ReplayIsPlain | grpc-server/src/main/scala/tech/hearth/events/Loader.scala:21-47 | on storage dense from the start height the stream is the plain list of rows up to the target, row i numbered start + i, whatever the batch size; a wrong row at the target height is an error that holds back exactly its own batch |
| UpdateLoader.RightIffDense | grpc-server/src/main/scala/tech/hearth/events/Loader.scala:21-47 | on any storage, a stream that does not fail numbers every row with its own height if and only if storage is dense |
| UpdateLoader.SeekEnds | grpc-server/src/main/scala/tech/hearth/events/Loader.scala:40-47 | a batch that takes anything starts no higher than the last row, so the recursion ends on any storage |
| LedgerChain.LedgersSound | node/src/main/scala/tech/hearth/state/diffs/SettleTransactionDiff.scala:57-145 | in every state of every run of blocks and rollbacks, read through storage, settled + withdrawn <= reserved for every triple; no asset's supply, less three tenths of what was settled, and no recorded work, beyond six tenths of it, comes from nowhere, and under the exact split both are conserved to the unit |
| LedgerChain.IndexSound | node/src/main/scala/tech/hearth/database/RocksDBWriter.scala:585-595 | in every state of every run, for each height to come an index entry exists exactly when a pending request has that payout height; a passed height has one exactly when its block carried the next request of a triple it paid |
| LedgerChain.RollbackUndoesAppend | node/src/main/scala/tech/hearth/database/RocksDBWriter.scala:950-964 | appending any valid block and rolling it back leaves the index as it was and every ledger reading what it read |
| RollbackHorizon.HorizonExactly | node/src/main/scala/tech/hearth/database/RocksDBWriter.scala:417-421 | in every state of every run the rollback horizon is the greatest height so far less the rollback depth, or zero |
| RollbackHorizon.RollbackReaches | node/src/main/scala/tech/hearth/state/BlockchainUpdaterImpl.scala:446-466 | from every state of every run the node may go back to any height from there to its tip, to the chain it had at that height, with every ledger and the index reading as they did then |
| RollbackHorizon.RollbackOnlyTo | node/src/main/scala/tech/hearth/state/BlockchainUpdaterImpl.scala:446-466 | and to no height further down |
| RollbackHorizon.HistoriesBounded | node/src/main/scala/tech/hearth/database/RocksDBWriter.scala:297-304 | in every state of every run no ledger keeps more heights of a triple than the rollback depth and two |
| LedgerChain.ScanFindsDue | node/src/main/scala/tech/hearth/database/RocksDBWriter.scala:1299-1303 | the scan at the next height finds exactly the requests due there, and only at a period's first block |
| LedgerChain.ChainKeeps | node/src/main/scala/tech/hearth/state/diffs/SettleTransactionDiff.scala:139-145 | between any two heights of a chain nothing is created, and from the gate height on nothing is lost, whatever the truncating split lost before |
| LedgerChain.BlockKeeps | node/src/main/scala/tech/hearth/state/diffs/BlockDiffer.scala:200-217 | a block's payouts and transactions keep the invariant and the books |
| LedgerChain.BlockInOrder | node/src/main/scala/tech/hearth/state/diffs/BlockDiffer.scala:200-217 | a block pays what is due on the state before it and then applies each transaction to what all before it have left, and fails as soon as one of these does |
| LedgerChain.BlockWrites | node/src/main/scala/tech/hearth/state/WithdrawalPayout.scala:25-52 | what a block may write to the pending ledger: an answer to each due request and new requests two periods ahead |
| LedgerChain.AppendHolds | node/src/main/scala/tech/hearth/database/RocksDBWriter.scala:555-595 | storage stands for the chain of blocks after an append |
| LedgerChain.UndoHolds | node/src/main/scala/tech/hearth/database/RocksDBWriter.scala:950-964 | and after a rollback |
| LedgerChain.LedgerStore.constructor | node/src/main/scala/tech/hearth/database/RocksDBWriter.scala:555-595 | a new store stands for the chain without blocks |
| LedgerChain.Persist | node/src/main/scala/tech/hearth/database/RocksDBWriter.scala:417-595 | the ledger and index writes of a block |
| LedgerChain.Unwind | node/src/main/scala/tech/hearth/database/RocksDBWriter.scala:950-964 | the undoing of the newest block, the index by what the ledger still says |
| LedgerChain.LedgerStore.DoAppend | node/src/main/scala/tech/hearth/database/RocksDBWriter.scala:417-595 | persisting a valid block leaves storage standing for the longer chain, with the horizon the rollback depth below the greatest height so far |
| LedgerChain.LedgerStore.DoRollback | node/src/main/scala/tech/hearth/database/RocksDBWriter.scala:860-964 | unwinding to any height not further below the greatest one so far than the rollback depth leaves storage standing for exactly the blocks up to it |
| LedgerChain.LedgerStore.UnsettledAmount | node/src/main/scala/tech/hearth/state/Blockchain.scala:310-315 | what a Withdraw may ask for, read from storage, is what the chain has led to, and never negative |
| LedgerBooks.DiffKeeps | node/src/main/scala/tech/hearth/state/diffs/SettleTransactionDiff.scala:57-137 | any accepted Reserve, Settle or Withdraw keeps settled + withdrawn <= reserved and the books of every asset |
| LedgerBooks.ReserveInv | node/src/main/scala/tech/hearth/state/diffs/ReserveTransactionDiff.scala:20-44 | an accepted Reserve keeps the three-ledger invariant |
| LedgerBooks.SettleInv | node/src/main/scala/tech/hearth/state/diffs/SettleTransactionDiff.scala:86-137 | an accepted Settle keeps it, repeated clients included |
| LedgerBooks.WithdrawInv | node/src/main/scala/tech/hearth/state/diffs/WithdrawTransactionDiff.scala:18-40 | an accepted Withdraw keeps it |
| LedgerBooks.SettleAllBounds | node/src/main/scala/tech/hearth/state/diffs/SettleTransactionDiff.scala:87-128 | a batch moves each counter up and never past what is reserved and not withdrawn, and debits nothing |
| LedgerBooks.SettleAllEarns | node/src/main/scala/tech/hearth/state/diffs/SettleTransactionDiff.scala:115-145 | the credits of a batch, repeated clients included, add up to the growth of three tenths of each counter, and its work to that of six tenths |
| LedgerBooks.TruncatedIsLess | node/src/main/scala/tech/hearth/state/diffs/SettleTransactionDiff.scala:139-145 | dividing first never earns more than the exact split |
| LedgerBooks.PayoutKeeps | node/src/main/scala/tech/hearth/state/WithdrawalPayout.scala:33-51 | a payout keeps every asset's books |
| LedgerBooks.PayoutInv | node/src/main/scala/tech/hearth/state/WithdrawalPayout.scala:33-51 | a payout keeps the three-ledger invariant |
| LedgerEffects.SettleCounters | node/src/main/scala/tech/hearth/state/diffs/SettleTransactionDiff.scala:87-136 | a batch sets each counter it names to the last value it states, and no other, and records work for the enclave's validator in the current period alone |
| LedgerEffects.SettleCredits | node/src/main/scala/tech/hearth/state/diffs/SettleTransactionDiff.scala:115-136 | a batch credits the settling miner alone, in each asset with the growth of three tenths of its counters, and charges it the fee |
| LedgerEffects.PayoutEffect | node/src/main/scala/tech/hearth/state/WithdrawalPayout.scala:33-51 | a payout credits, records and clears the due requests and touches nothing else; `LedgerExact` says how much |
| LedgerExact.ReserveAccepted | node/src/main/scala/tech/hearth/state/diffs/ReserveTransactionDiff.scala:20-44 | a Reserve is accepted exactly if the asset is issued, the miner registered, the total fits a long, and the sender can pay amount and fee together |
| LedgerExact.ReserveEffect | node/src/main/scala/tech/hearth/state/diffs/ReserveTransactionDiff.scala:20-44 | and moves exactly the amount from the account to the reserve and takes the fee |
| LedgerExact.WithdrawAccepted | node/src/main/scala/tech/hearth/state/diffs/WithdrawTransactionDiff.scala:18-40 | a Withdraw is accepted exactly if something is reserved, nothing pending, the amount neither settled nor withdrawn, and the fee covered |
| LedgerExact.WithdrawEffect | node/src/main/scala/tech/hearth/state/diffs/WithdrawTransactionDiff.scala:18-40 | and files the request for the first block of the period after the next, in plain numbers, and takes the fee |
| LedgerExact.SettleAccepted | node/src/main/scala/tech/hearth/state/diffs/SettleTransactionDiff.scala:57-137 | a batch is accepted exactly if the sender operates a registered enclave with a committed validator and a valid signature, each entry stays between the counter before it and what is reserved and not withdrawn, nothing overflows, and the fee is covered |
| LedgerExact.SettleExactly | node/src/main/scala/tech/hearth/state/diffs/SettleTransactionDiff.scala:87-145 | and brings the sender and the validator exactly the sums of its entries, repeated clients, both splits and every other account included |
| LedgerExact.SettleOneEntry | node/src/main/scala/tech/hearth/state/diffs/SettleTransactionDiff.scala:52-145 | an entry that takes a counter from p to c credits 3c/10 - 3p/10 and records 6c/10 - 6p/10 of work, below the gate (c - p)/10 times 3 and 6 |
| LedgerExact.PayoutExactly | node/src/main/scala/tech/hearth/state/WithdrawalPayout.scala:33-51 | each due request is paid what it asked for or what is left of the reserve, whichever is less, and cleared; nothing else is paid |
| LedgerExact.PayoutReturns | node/src/main/scala/tech/hearth/state/WithdrawalPayout.scala:33-51 | each account grows by what its due requests in that asset are paid together |
| LedgerExact.PayoutAccepted | node/src/main/scala/tech/hearth/state/WithdrawalPayout.scala:33-51 | a payout fails exactly if what it returns to an account, with what is there, exceeds a long |
| KeyedHistory.WriteKeyed | node/src/main/scala/tech/hearth/database/RocksDBWriter.scala:1113-1127 | the loop over a block's entries writes each value and history, and the keys of the height |
| KeyedHistory.RollbackKeyed | node/src/main/scala/tech/hearth/database/RocksDBWriter.scala:1132-1145 | the loop over the height's keys removes each value and its height from the history |
| KeyedHistory.WriteValid | node/src/main/scala/tech/hearth/database/RocksDBWriter.scala:1113-1127 | writing a family keeps it standing for the log of writes, trimmed histories included |
| KeyedHistory.WriteTrims | node/src/main/scala/tech/hearth/database/RocksDBWriter.scala:297-304 | a write leaves of a key's history its own height, those from the threshold on, and the newest one below |
| KeyedHistory.RollbackValid | node/src/main/scala/tech/hearth/database/RocksDBWriter.scala:1132-1145 | rolling back the top height undoes the last entry of the log |
| KeyedHistory.ReadIsLatest | node/src/main/scala/tech/hearth/database/RocksDBWriter.scala:57-60 | a read gives the latest write of the log |
| WithdrawalIndex.IndexAppendValid | node/src/main/scala/tech/hearth/database/RocksDBWriter.scala:591-595 | an append keeps the index exact |
| WithdrawalIndex.IndexRollbackValid | node/src/main/scala/tech/hearth/database/RocksDBWriter.scala:957-963 | a rollback keeps it exact, whichever of request and payout the block was |
| WithdrawalIndex.IndexAgreesAhead | docs/notes/hearth-transactions.md:441-441 | for heights to come, an entry exists exactly when a pending request has that payout height |
| WithdrawalIndex.StaleEntries | node/src/main/scala/tech/hearth/database/RocksDBWriter.scala:591-595 | an entry outlives its payout exactly when the paying block carried the triple's next request |
| WithdrawalIndex.AgreementExactly | docs/notes/hearth-transactions.md:441-441 | index and ledger agree everywhere if and only if no block carried a new request for a triple it was paying |
| StaleWithdrawal.StaleEntryReached | node/src/main/scala/tech/hearth/database/RocksDBWriter.scala:591-595 | a run of blocks from genesis on, with a Reserve and two Withdraws, whose index keeps the entry of the paid request |
| WithdrawalIndex.PutDue | node/src/main/scala/tech/hearth/database/RocksDBWriter.scala:591-595 | the loop of index writes of a block |
| WithdrawalIndex.UndoDue | node/src/main/scala/tech/hearth/database/RocksDBWriter.scala:957-963 | the loop that undoes them, told apart by the written value |
| WithdrawalIndex.AnsweredOnce | docs/notes/hearth-transactions.md:433-439 | each request is answered at the first block of the period after next, and not touched before |
| StakeLock.SetStakeRepresents | node/src/main/scala/tech/hearth/database/Caches.scala:387-393 | a stake write becomes the newest of the linked writes |
| StakeLock.RollbackStakeRepresents | node/src/main/scala/tech/hearth/database/RocksDBWriter.scala:1159-1171 | a rollback removes the newest write exactly if it was made at that height |
| StakeLock.RollbackUndoesSet | node/src/main/scala/tech/hearth/database/RocksDBWriter.scala:1159-1171 | a write and its rollback leave the stored record as it was |
| StakeLock.StakeBefore | node/src/main/scala/tech/hearth/database/RocksDBWriter.scala:1440-1450 | the walk finds the amount set by the last write below a height |
| StakeLock.StakeAt | node/src/main/scala/tech/hearth/database/Caches.scala:195-200 | fast path and walk both give the amount set before the period |
| StakeLock.LockedStake | node/src/main/scala/tech/hearth/state/Blockchain.scala:184-188 | the lock read at the tip is at least the stake in force and at least the latest one and is one of the two; a stake not written in the period is locked at its amount |
| StakeLock.CollectStakeLocks | node/src/main/scala/tech/hearth/database/RocksDBWriter.scala:1404-1424 | the change points rebuilt from history give such a lock at every height of the range, and are real changes in ascending order |
| StakeLock.SetByNewest | node/src/main/scala/tech/hearth/state/Blockchain.scala:184-188 | the stake set by a height is that of the newest write up to it, or zero |
| StakeLock.FoldChanges | node/src/main/scala/tech/hearth/database/RocksDBWriter.scala:1416-1421 | the fold over writes and period starts keeps every change of the lock |
| StakeLock.LockStands | node/src/main/scala/tech/hearth/database/RocksDBWriter.scala:1400-1424 | between writes and period starts the lock stands still |
| StakeLock.LockKept | node/src/main/scala/tech/hearth/database/RocksDBWriter.scala:1409-1414 | the writes from the first period on and one before it are enough |
| StakeLock.LockOfThen | node/src/main/scala/tech/hearth/state/Blockchain.scala:184-188 | the lock seen while a height was the tip is what history gives for it ever after |
| StakePayout.Enumerate | node/src/main/scala/tech/hearth/database/RocksDBWriter.scala:1602-1624 | a candidate is resolved through its history, an address without an entry not at all |
| StakePayout.AppendListed | node/src/main/scala/tech/hearth/database/RocksDBWriter.scala:696-699 | appending keeps an address listed if and only if the block is not a period's first that restates a zero stake which still had its entry |
| StakePayout.ListedIsEnumerated | node/src/main/scala/tech/hearth/database/RocksDBWriter.scala:1602-1624 | a listed address is enumerated for the tip's period with its stake in force |
| StakePayout.EntryStands | node/src/main/scala/tech/hearth/database/RocksDBWriter.scala:1159-1198 | in every state of every run of blocks appended and undone, an address that has set a stake is in the index if and only if, of the steps that wrote the stake or swept a zero one but not both, the last one wrote it and an even number of blocks did both since, or it swept and an odd number did |
| StakePayout.RunEnumeration | docs/notes/cred-economy.md:96-102 | so in every such state and for every period the enumeration is right if and only if the stake in force is zero or the entry stands |
| StakePayout.PlainRunEnumeration | docs/notes/cred-economy.md:96-102 | where nothing is undone and no period's first block restates a zero stake, every address is enumerated right |
| StakePayout.RestakeLost | node/src/main/scala/tech/hearth/database/RocksDBWriter.scala:1188-1198 | a stake set in a period's first block after a release is lost without any rollback |
| StakePayout.FoundStaker | node/src/main/scala/tech/hearth/database/RocksDBWriter.scala:1159-1171 | undoing a later write puts a removed entry back |
| StakePayout.MissedStaker | node/src/main/scala/tech/hearth/database/RocksDBWriter.scala:1188-1198 | a stake is missed after a period's first block is appended and undone |
| StakePayout.CreditedBounds | node/src/main/scala/tech/hearth/state/StakingPayout.scala:92-105 | the floored shares against the exact ones |
| StakePayout.PayoutWithinIssuance | node/src/main/scala/tech/hearth/state/StakingPayout.scala:92-105 | a payout never mints more than the period's work and leaves at most one unit per staker |
| StakePayout.SplitIssuance | node/src/main/scala/tech/hearth/state/StakingPayout.scala:87-105 | every staker gets its floored share of the issuance; too large an issuance is an error, and nothing is paid without issuance or stakes |
| SettlementMessage.MessageInjective | node/src/main/scala/tech/hearth/transaction/SettleTransaction.scala:69-101 | the preimage is injective over all network ids of 1 to 83 letters and all batch sizes for period starts below 0x61616161, and over all period starts for batches below 0x6161 |
| SettlementMessage.AcceptedInjective | node/src/main/scala/tech/hearth/transaction/SettleTransaction.scala:69-101 | the preimage is injective on all batches of up to 100 settlements, at every height |
| SettlementMessage.HeaderLayout | node/src/main/scala/tech/hearth/transaction/SettleTransaction.scala:69-101 | where the domain, the network id, the enclave key, the operator, the period start and the count are in the preimage |
| SettlementMessage.RecordLayout | node/src/main/scala/tech/hearth/transaction/SettleTransaction.scala:69-101 | where each settlement's client, asset and counter are |
| Bytes.ByteIsDigit | node/src/main/scala/tech/hearth/transaction/SettleTransaction.scala:92-101 | numbers are written most significant byte first |
| SettlementMessage.AlignedInjective | node/src/main/scala/tech/hearth/transaction/SettleTransaction.scala:89-101 | with network ids of one length the fields can be read back |
| SettlementMessage.NoOverlap | node/src/main/scala/tech/hearth/transaction/SettleTransaction.scala:84-88 | network ids of different length never give the same preimage within the bounds |
| SettlementMessage.Overlap | node/src/main/scala/tech/hearth/transaction/SettleTransaction.scala:84-88 | where a longer network id would have to hold the shorter batch's fields |
| SettlementMessage.Collision | node/src/main/scala/tech/hearth/transaction/SettleTransaction.scala:84-88 | past both bounds two different valid batches share a preimage |
| EmissionCurve.FixedMulFloors | node/src/main/scala/tech/hearth/state/EmissionCurve.scala:20-20 | shifting a product right by 128 bits is the exact product over 2^128, floored |
| EmissionCurve.ComputePowFixed | node/src/main/scala/tech/hearth/state/EmissionCurve.scala:26-38 | the loop computes the floored power |
| EmissionCurve.PowFromBelow | node/src/main/scala/tech/hearth/state/EmissionCurve.scala:22-38 | however many floors it takes, the power never ends above the exact one |
| EmissionCurve.MintedWithinGeometric | node/src/main/scala/tech/hearth/state/EmissionCurve.scala:40-52 | for every ratio and every n, the first n rewards times (2^128 - ratio) are at most the initial reward times 2^128 |
| EmissionCurve.FlatReward | node/src/main/scala/tech/hearth/state/EmissionCurve.scala:51-52 | at a ratio of one every reward is the initial one |
| EmissionCurve.CapHolds | node/src/main/scala/tech/hearth/settings/BlockchainSettings.scala:33-50 | settings whose geometric series stays below the cap never mint it |
| EmissionCurve.HardCap | node/src/main/scala/tech/hearth/settings/BlockchainSettings.scala:53-75 | with the settings of the networks, written out, less than 95 million HRTH are ever minted |
| EmissionAccuracy.PowFromAbove | node/src/main/scala/tech/hearth/state/EmissionCurve.scala:22-38 | the power ends at most two units of 2^-128 per exponent below the exact one |
| EmissionAccuracy.RewardAccurate | node/src/main/scala/tech/hearth/state/EmissionCurve.scala:51-52 | the reward is within two embers of the exact curve and never above it |
| ExportJoin.Advance | node/src/main/scala/tech/hearth/Exporter.scala:213-229 | the column iterator moves to the next row above genesis |
| ExportJoin.LoadTxData | node/src/main/scala/tech/hearth/Exporter.scala:144-155 | takes the rows at a height and holds the first one beyond back |
| ExportJoin.LoadAt | node/src/main/scala/tech/hearth/Exporter.scala:162-177 | uses a held row only at its own height |
| ExportJoin.BlockSnapshotIterator.constructor | node/src/main/scala/tech/hearth/Exporter.scala:110-142 | a fresh iterator has the whole join to give |
| ExportJoin.BlockSnapshotIterator.ComputeNext | node/src/main/scala/tech/hearth/Exporter.scala:157-191 | gives the first item of the remaining join |
| ExportJoin.BlockSnapshotIterator.ExportAll | node/src/main/scala/tech/hearth/Exporter.scala:79-89 | draining gives the whole join |
| ExportJoin.TakenExactly | node/src/main/scala/tech/hearth/Exporter.scala:144-177 | a block gets exactly its height's rows, or none if a row without a block sits below |
| ExportJoin.LeftAfter | node/src/main/scala/tech/hearth/Exporter.scala:144-177 | and leaves exactly the rows of later heights |
| ExportJoin.JoinIsPerHeight | node/src/main/scala/tech/hearth/Exporter.scala:144-191 | on any rows in height order no block gets another's rows, and one that fails to build takes its own with it |
| ExportJoin.JoinIsPlain | node/src/main/scala/tech/hearth/Exporter.scala:144-191 | where every transaction height, and if exported every snapshot height, has a block row, the join is each block up to the target with exactly its own rows, in order |
| ExportJoin.ExportRows | node/src/main/scala/tech/hearth/Exporter.scala:79-229 | end to end: from rows in height order the exporter gives exactly the blocks from height 2 to the target that build, in order, each with its own transactions and snapshots |
| ExportJoin.OrphanStarves | node/src/main/scala/tech/hearth/Exporter.scala:162-177 | a transaction row without a block row makes later blocks lose theirs |
| ChainFile.ExportBlock | node/src/main/scala/tech/hearth/Exporter.scala:242-252 | writes one length-prefixed frame and returns its length |
| ChainFile.ExportSnapshots | node/src/main/scala/tech/hearth/Exporter.scala:254-268 | writes one frame of length-prefixed snapshots |
| ChainFile.Export | node/src/main/scala/tech/hearth/Exporter.scala:79-89 | writes both files, or fails exactly when some block's snapshots do not match its transactions |
| ChainFile.ExportReads | node/src/main/scala/tech/hearth/Importer.scala:219-290 | reading a whole export back gives exactly the pairs that were written |
| ChainFile.CutExportReads | node/src/main/scala/tech/hearth/Importer.scala:219-290 | an export cut at any byte of either file gives, without an error, exactly the pairs whose frames are whole in both |
| ChainFile.CutWhileSkipping | node/src/main/scala/tech/hearth/Importer.scala:231-241 | a frame that is to be skipped and whose body is cut is an error, cut inside its size it is the end |
| ChainFile.MalformedFails | node/src/main/scala/tech/hearth/Importer.scala:243-262 | a whole frame that cannot be read, or whose snapshots do not unpack to one for each transaction, is an error, and no other is |
| ChainFile.NegativeSize | node/src/main/scala/tech/hearth/Importer.scala:226-243 | a size with its highest bit set is an error unless the frame is skipped |
| ChainFile.WholeExactly | node/src/main/scala/tech/hearth/Importer.scala:219-290 | those are the pairs that end before both cuts |
| ChainFile.UnpackReadsBack | node/src/main/scala/tech/hearth/Importer.scala:252-263 | the nested parse gives back the snapshots that were packed |
| ChainFile.SkipLands | node/src/main/scala/tech/hearth/Importer.scala:228-250 | skipping k frames leaves each stream at its own item k |
| ChainFile.BlocksOffset | node/src/main/scala/tech/hearth/Importer.scala:354-369 | the sum over stored metas, genesis left out |
| ChainFile.OffsetLands | node/src/main/scala/tech/hearth/Importer.scala:354-369 | that sum is the position of the frame of height H + 1 |
| ChainFile.SkipSnapshots | node/src/main/scala/tech/hearth/Importer.scala:371-380 | the skip loop over the snapshots file |
| ChainFile.SkipFramesLands | node/src/main/scala/tech/hearth/Importer.scala:371-380 | it lands on the entry of height H + 1 |
| ChainFile.BinaryResumes | node/src/main/scala/tech/hearth/Importer.scala:354-380 | in the binary format both streams resume at height H + 1 |
| ChainFile.CutResumes | node/src/main/scala/tech/hearth/Importer.scala:219-380 | resuming from an export cut at any byte of either file, a node that holds no more than what is whole in both reads exactly what else is whole, without an error |
| ChainFile.OtherResumes | node/src/main/scala/tech/hearth/Importer.scala:202-204 | in the other format the blocks do, without snapshots |
| ChainFile.OtherSkipsTwice | node/src/main/scala/tech/hearth/Importer.scala:228-239 | with snapshots these are skipped twice, so that each block is read beside those of the block H - 1 places on; past the middle of the file nothing is read, without an error |
| ChainFile.OtherResumesExactly | node/src/main/scala/tech/hearth/Importer.scala:228-239 | so what follows the node's blocks is read if and only if the node holds nothing of the file or all of it |
| Importer.ImportRun.constructor | node/src/main/scala/tech/hearth/Importer.scala:198-217 | a run before anything is read |
| Importer.ImportRun.ReadFrame | node/src/main/scala/tech/hearth/Importer.scala:222-290 | one frame of each stream is skipped or queued, or ends the input |
| Importer.ImportRun.Refill | node/src/main/scala/tech/hearth/Importer.scala:293-294 | one turn on an empty queue; if it fails, exactly the pairs of the whole refills before were offered |
| Importer.ImportRun.ReadBlocks | node/src/main/scala/tech/hearth/Importer.scala:219-290 | moves at most so many frames to the queue, loses none, and makes progress |
| Importer.ImportRun.TakeNext | node/src/main/scala/tech/hearth/Importer.scala:297-310 | offers the first queued block if it extends the tip; a rejection clears the queue |
| Importer.ImportRun.Turn | node/src/main/scala/tech/hearth/Importer.scala:296-310 | one turn on a queue that holds something |
| Importer.ImportRun.StartImport | node/src/main/scala/tech/hearth/Importer.scala:188-311 | ends on every input; unless the input is malformed, the node is where offering all pairs at once leads, whatever the queue size; malformed input leaves it where offering the pairs of the whole refills before it leads |
| Importer.ImportSplits | node/src/main/scala/tech/hearth/Importer.scala:292-311 | offering one list and then another is offering both |
| Importer.TakenLegal | node/src/main/scala/tech/hearth/Importer.scala:292-311 | only blocks that extend the tip are taken, in file order, at most the budget, and they account for the whole new chain |
| Importer.RejectionIsLast | node/src/main/scala/tech/hearth/Importer.scala:299-303 | a rejection is the answer to the block right after those dealt with, and the last thing that happens |
| Importer.TailImports | node/src/main/scala/tech/hearth/Importer.scala:202-311 | what follows the tip is taken up to the budget |
| Importer.KnownIgnored | node/src/main/scala/tech/hearth/Importer.scala:307-309 | blocks the node already has are passed over |
| Importer.ResumeReaches | node/src/main/scala/tech/hearth/Importer.scala:188-380 | export, stop anywhere, cut either file at any byte, resume: the node reads without an error and reaches the exported chain, as far as it is whole and up to one block past the import height |
| RoundTrip.Transfer | node/src/main/scala/tech/hearth/Importer.scala:188-429 | from database to chain: blocks stored by one node are joined with their transactions and snapshots, written up to a target height, cut at any byte, and resumed by a node that holds the first of them; with any queue size it ends without an error on the first node's chain, as far as the files are whole and up to one block past the import height |
| RoundTrip.ExportStore | node/src/main/scala/tech/hearth/Exporter.scala:40-229 | a whole export of a node's database is the two files of its blocks from height 2 to the target |
| RoundTrip.ImportFiles | node/src/main/scala/tech/hearth/Importer.scala:188-429 | a whole import offers the node all pairs that the resumed files hold |
| RoundTrip.ItemsExported | node/src/main/scala/tech/hearth/Exporter.scala:79-229 | on a database with a block at every height, the exported items are exactly those of heights 2 to the target, in order |
| SupplyAudit.MinerFee | node/src/main/scala/tech/hearth/state/diffs/BlockDiffer.scala:33-44 | the miner's share of a fee is two for every whole five |
| SupplyAudit.RewardShares | node/src/main/scala/tech/hearth/state/BlockRewardCalculator.scala:37-80 | the shares add up to the reward; the DAO gets nothing below 2 HRTH, half of what exceeds them below 6, and 2 from there on |
| SupplyAudit.TxKeeps | node/src/main/scala/tech/hearth/state/diffs/BlockDiffer.scala:352-366 | a fee splits into share and carry with nothing lost |
| SupplyAudit.TxsCarry | node/src/main/scala/tech/hearth/state/diffs/BlockDiffer.scala:435-446 | the carry is what the per-transaction shares leave of the fees |
| SupplyAudit.TxAccepted | node/src/main/scala/tech/hearth/state/diffs/BlockDiffer.scala:345-388 | with nothing overdrawn before it, a transaction is accepted exactly if its transfers and its fee overdraw no account |
| SupplyAudit.ElidedOnly | node/src/main/scala/tech/hearth/state/diffs/BlockDiffer.scala:332-400 | without a challenge a block is accepted exactly if each of its transactions is in turn, and with one no transaction fails it |
| SupplyAudit.BlockKeeps | node/src/main/scala/tech/hearth/state/diffs/BlockDiffer.scala:149-199 | a block adds its reward, burns the deposits of the conflicts reported before it, and nothing else |
| SupplyAudit.BlockPays | node/src/main/scala/tech/hearth/state/diffs/BlockDiffer.scala:149-199 | a block's effect on any account that is no party to its transactions: reward share, carry and fee shares to its miner, the DAO's share, a deposit per conflict |
| SupplyAudit.SupplyKept | node/src/main/scala/tech/hearth/database/Caches.scala:296-298 | in every run balances plus last carry equal initial supply plus rewards less penalties, and so does the stored total |
| SupplyAudit.Audit | node/src/main/scala/tech/hearth/Explorer.scala:89-122 | the check adds up records and rewards and compares three totals |
| SupplyAudit.AuditVerdict | node/src/main/scala/tech/hearth/Explorer.scala:89-122 | in every run the check passes if and only if no block before the last reported a conflict |
| SupplyAudit.PenaltyReached | node/src/main/scala/tech/hearth/Explorer.scala:89-122 | from any genesis there is a run of two blocks with a penalty |
| BalanceHistory.LoadBalanceHistory | node/src/main/scala/tech/hearth/Explorer.scala:70-82 | wherever following links ends, the listing is the current entry and every node they lead to |
| BalanceHistory.DownEnds | node/src/main/scala/tech/hearth/Explorer.scala:70-82 | where links go down it does end, and gives the walk down |
| BalanceHistory.SetBalanceRepresents | node/src/main/scala/tech/hearth/database/Caches.scala:431-438 | a balance is recorded exactly when it changes |
| BalanceHistory.HistoryIsWrites | node/src/main/scala/tech/hearth/Explorer.scala:70-82 | the listing is every write, newest first |
| BalanceHistory.WrittenLinksGoDown | node/src/main/scala/tech/hearth/database/Caches.scala:431-438 | everything the node writes has links that go down |
| BalanceHistory.HistoryAfterCleanup | node/src/main/scala/tech/hearth/database/RocksDBWriter.scala:764-813 | after old nodes are deleted, the listing is right down to the deleted part and then shows one entry of zero that was never written |
| BalanceHistory.Scan | node/src/main/scala/tech/hearth/Explorer.scala:382-402 | the scan warns about exactly the rows whose link is not the row before |
| BalanceHistory.UnbrokenIffVisited | node/src/main/scala/tech/hearth/Explorer.scala:382-402 | an address has no broken link if and only if following links from its newest row visits all its rows, newest first |
| BalanceHistory.SilentScan | node/src/main/scala/tech/hearth/Explorer.scala:382-402 | after a silent scan this holds for every address, in strictly descending height |
| BalanceHistory.EndsExactly | node/src/main/scala/tech/hearth/Explorer.scala:382-402 | after a silent scan, following links from an address's newest row ends if and only if its oldest row does not lead back to one of its own rows |
| BalanceHistory.SilentListing | node/src/main/scala/tech/hearth/Explorer.scala:70-82 | the listing is then the address's rows, newest first, and where the oldest one leads, if not to 0, with a balance of zero |
| BalanceHistory.OldestUnchecked | node/src/main/scala/tech/hearth/Explorer.scala:389-400 | a store the scan is silent about and the listing never ends on |
| BalanceHistory.ClimbingEnds | node/src/main/scala/tech/hearth/Explorer.scala:70-82 | a climbing link alone does not keep it from ending |
| BaseTarget.ParallelIsSequential | node/src/main/scala/tech/hearth/GenesisBlockGenerator.scala:236-240 | for any processor count the chunked minimum is the first minimum of the whole, ties included |
| BaseTarget.GroupedMin | node/src/main/scala/tech/hearth/GenesisBlockGenerator.scala:236-240 | minima of parts have the minimum of the whole |
| BaseTarget.CalcIsChain | node/src/main/scala/tech/hearth/GenesisBlockGenerator.scala:242-265 | the lists always have the length of the height and hold the chain newest first, so index 100 is the source 100 blocks back |
| BaseTarget.SimulationIsChain | node/src/main/scala/tech/hearth/GenesisBlockGenerator.scala:267-274 | from the start block on, the result is the chain's base targets |

## Left out

- RocksDB, netty, gRPC, monix and pekko: a store is a map or a sorted list of rows, the scheduler a count of pending steps, a stream a byte sequence.
- Cryptography and protobuf: signatures are a flag, blocks go through an abstract codec, and snapshots stay bytes, so a snapshot that fails to parse is not an error here.
- Transfers, leases, exchanges, boosts and the other transaction types: their diffs add easy members; `SupplyAudit` takes a transaction as transfers and a fee.
- HRTH locks in balance checks: stakes, leases and deposits are not subtracted when a transaction's affordability is checked.
- Long overflow of balances in `SupplyAudit`: it turns a block into an error, and the results hold for all blocks without that check.
- Predefined snapshots after genesis: one that sets HRTH balances would change the supply outside of rewards.
- Deletion of expired ledger values below the rollback horizon: the model leaves them in place, where nothing reads them.
- Storage of balances within `LedgerStore`: balances are followed along the chain of blocks; their own linked records are `BalanceHistory`'s.
- The importer's shutdown hook: it sets `quit` and stores the liquid block from another thread; the import loop is modelled as it runs by itself.
- Allocation failures: a size field that asks for more memory than there is.
- The upper height of a subscription: the stream is cut off at it, which only shortens what is delivered.
- The floating-point delay formula and the average over the last hundred base targets: wiring around `calc`.
- The memo table of hit sources: it caches a function.
- Logging, progress reports, options, REST routes and configuration.
- LedgerChain.LedgersSound: the per-asset supply is stated of the state the stored blocks lead to; of storage itself it states the three counters.
- UpdateFeed.Repo.OnRollback: asks for a target not more than one below the first stored height, since there other rows are deleted than were reported (`UpdateFeed.DeletedExactly`); the extension refuses to start behind its node, so that it stores from height 1 on, and no target is lower than 0.
- UpdateStream.UndisturbedStream: asks for a subscription from the first stored height or above, which every height from 1 on is for the same reason; `UpdateStream.StreamExactly` has no such condition.
- UpdateStream.LoadsInOrder: the same.
