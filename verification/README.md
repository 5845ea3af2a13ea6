# Ledger, consensus, packet and staking models

A Dafny model of the parts of SubHost that have to agree with each other: the single-node ledger
from transaction pool to disk file, the consensus building blocks, the packet state machine and the
staking book. `dafny verify dfyconfig.toml` checks all of it.

The files follow the crates.

- State: `WorldState` (accounts, execution, snapshots).
- Mempool: `Mempool` (the pool as a set of transactions), `PoolStore` (the pool object with its two
  indexes) and `DigestOrder` (an order of digests).
- Storage: `Storage` (the validation of a chain) and `LedgerFile` (a disk on which a write can stop
  after any of its steps, and a crash can expose old or new content).
- RPC node: `Ledger` (what it means for a ledger to have an execution history), `LedgerLoads`
  (writing, loading, seeding), `CommitPath` (a submission as a function of memory and disk),
  `NodeRuns` (whole lives of a node), `Origins` (the genesis a run starts from), `Durability` (what
  a successful answer is worth), `Unsynced` (when memory is ahead of the disk), `Reseeding` (a
  second seeding), `Acceptance` (which submissions succeed and what they change), `RpcNode` (the object), `Readers` (lookups interleaved with the writes of a
  commit).
- Consensus: `Quorum` (sizing, certificates, the lock), `Dag` and `DagStore` (the vertex store).
- Packets: `Ibc` (one module as a function), `IbcState` (the object), `Relay` (two chains and a
  relayer).
- Staking: `Staking` (the book and its balance law) and `StakingBook` (the object).
- Shared: `Prelude`, `Core`, `Ordering`, `Sums`.

Objects that the program updates in place are classes. Each method is proved to compute a function
of the old state, and the properties of runs are proved about those functions.

Modelling decisions:

- Hashes of transactions, headers, snapshots and receipts are constructors that hold the hashed
  content, so equal hashes mean equal content. The byte order of digests, which decides the last
  tie of the eviction order, is an arbitrary strict total order given with the pool configuration.
  Vertex hashes are an arbitrary function of the vertex, with no assumption at all.
- Heights, nonces and sequences are bounded to 64 bits and amounts to 128 bits; every checked or
  saturating operation of the source is written out.
- Signature checks, the clock, the size of an encoding, and the step at which a write fails are
  parameters. The size is free of the ledger it belongs to, so the theorems hold for every encoding.

Where the code and its comments differ, the model follows the code:

- `persist` is documented to validate the snapshot first (crates/subhost-storage/src/lib.rs:161-162)
  but checks only chain ids and size. That every written ledger loads is proved from the producer.
- An error from `persist` does not mean the file is unchanged: the directory sync comes after the
  rename. `Unsynced.NeverAheadIffSettled` says exactly when that puts memory ahead of the disk.
- Seeding is not tied to an empty chain, and seeding later makes the file unloadable unless it
  changes nothing (`LedgerLoads.ReseedLoadsIff`, `Reseeding.ReseedBreaksRun`).
- `from_snapshot` does not require sorted accounts (`WorldState.RestoredIsSourceIffSorted`).
- The quorum rule promises byzantine sizing for any count, but overlap needs a count of 3f + 1
  (`Quorum.OverlapIffExactCount`).
- `register` stores a key before it reports the duplicate (`Quorum.ValidatorRegistry.Register`).
- `add_vertex` is documented to keep the DAG connected; any collection that removes a vertex ends
  that (`Dag.ConnectedAfterGcIff`, `Dag.GcOrphansChild`).
- `receive_packet` records a receipt before a sequence overflow is found
  (`Ibc.FailedReceiveKeepsIff`, `Ibc.OverflowLeavesReceipt`), and its send sequence is global, where
  ICS-004 (Channel and Packet Semantics) has one per channel (`Relay.OrderedStalls`).
- Double signing is documented to eject; a validator with no stake left stays
  (`Staking.EjectedIff`, `Staking.ZeroStakeStays`).

## Model

| member | source | states |
|---|---|---|
| `NodeRuns.EveryFileLoads` | crates/subhost-storage/src/lib.rs:163-217 | at every moment of every run (boots, seeding, submissions, failed writes, kills, power losses) whatever content a crash can leave in the ledger file passes validation and loads back to exactly a ledger with a genuine execution history |
| `NodeRuns.MemoryNeverAhead` | crates/subhost-rpc/src/lib.rs:325-338 | the visible file loads to the running node's whole ledger, or to that plus the one block or seeding in flight; the same for everything a power loss could leave, once the node has started with nothing unsynced or completed a write |
| `Unsynced.NeverAheadIffSettled` | crates/subhost-storage/src/lib.rs:195-216 | for a running node of any run, everything a power loss could leave holds its blocks or those and one more, if and only if it has no blocks, or started with nothing unsynced, or has completed a write since |
| `Durability.AnsweredSurvives` | crates/subhost-rpc/src/lib.rs:325-338 | once a submission has answered with success, in every continuation of every run each content any crash can leave loads to a chain that still holds the blocks of that moment followed by the block of that transaction |
| `Durability.StaysDurable` | crates/subhost-storage/src/lib.rs:195-216 | blocks that all possible disk contents and memory hold stay so through every further event |
| `Unsynced.RestartBeforeSyncRunsAhead` | crates/subhost-storage/src/lib.rs:195-216 | the failing side, from every running node and for every committable transaction: a write refused at the directory sync, then a process restart, serves a block although some content a power loss can leave loads without it |
| `Unsynced.RunTrails` | crates/subhost-storage/src/lib.rs:195-216 | in every run something no longer than memory is exposed, and something shorter while memory is unsettled |
| `NodeRuns.NothingStaysPending` | crates/subhost-rpc/src/lib.rs:217-245 | between operations of every run the pool is empty |
| `Origins.RunIsLawful` | crates/subhost-rpc/src/lib.rs:273-357 | every reachable ledger is what its transactions make of a genesis seeded with the run's own allocation lists and nothing else; from there per-sender nonces are gap-free from zero in block order, there is exactly one receipt per block, balances plus fees equal the genesis sum, and a genesis sum within 128 bits rules out balance overflow |
| `Origins.OneGenesis` | crates/subhost-node/src/lib.rs:85-97 | a node only ever given one list of allocations has exactly that genesis, and those laws from it |
| `Origins.AnsweredSeedingSurvives` | crates/subhost-rpc/src/lib.rs:200-213 | after a seeding has answered with success, every content any later crash can leave loads to a ledger whose history starts at exactly the seeded balances, until something else is seeded |
| `Origins.BootSeedingSurvives` | crates/subhost-node/src/lib.rs:85-97 | the same for the allocations of a node that came up on a missing file |
| `Origins.StaysRooted` | crates/subhost-rpc/src/lib.rs:200-213 | from any point of a run on, disk and memory keep starting at an admitted genesis |
| `NodeRuns.StepKeeps` | crates/subhost-node/src/lib.rs:85-97 | each event of a node's life, interrupted anywhere, keeps the disk sound and memory backed by it |
| `Ledger.CommitKeepsHistory` | crates/subhost-rpc/src/lib.rs:283-328 | a commit extends the ledger by exactly one block with that one transaction and keeps the property that blocks, receipts, roots and state are those of one execution from genesis |
| `Ledger.CommitIff` | crates/subhost-rpc/src/lib.rs:273-339 | a transaction can be sealed next exactly when its gas fits a block and it executes |
| `Ledger.CommitAdds` | crates/subhost-rpc/src/lib.rs:283-328 | what a commit adds: the executed world, a block at the next height and given time over that world and the old tip, and its receipt |
| `LedgerLoads.ReceiptsInOrder` | crates/subhost-rpc/src/lib.rs:341-357 | sorting the receipt map by height lists exactly one receipt per block, in block order, because replay protection keeps hashes apart |
| `LedgerLoads.HistoryIsValid` | crates/subhost-storage/src/lib.rs:246-318 | every ledger with an execution history passes the load gate, although writing only checks chain ids and size |
| `LedgerLoads.WrittenLoads` | crates/subhost-storage/src/lib.rs:143-159 | encoding a ledger with a history and loading the file is the identity on state, blocks and receipt map |
| `LedgerLoads.LedgerLaws` | crates/subhost-state/src/lib.rs:147-193 | for any ledger with a history: each sender's nonces are 0 up to its account nonce, one receipt per block, and conservation |
| `LedgerLoads.SeedHistory` | crates/subhost-rpc/src/lib.rs:200-213 | seeding before the first block gives a ledger with a history |
| `LedgerLoads.ReseedLoadsIff` | crates/subhost-rpc/src/lib.rs:200-213 | seeding once blocks exist writes a file that loads if and only if the allocations already hold |
| `LedgerLoads.ReseedBreaksFile` | crates/subhost-rpc/src/lib.rs:200-213 | any chain with a block, then any change of one balance by seeding, gives a file that does not load |
| `Reseeding.ReseedBreaksRun` | crates/subhost-rpc/src/lib.rs:200-213 | reachable from a new data directory: fund a sender, commit its first transfer, seed it again; the seeding answers with success and the file no longer loads |
| `LedgerLoads.SeedSets` | crates/subhost-rpc/src/lib.rs:200-213 | a seeded address ends with the balance of its last allocation, its nonce untouched |
| `CommitPath.FailedSubmitKeepsMemory` | crates/subhost-rpc/src/lib.rs:217-269 | a submission that fails for any reason leaves state, blocks, receipts, height and pool exactly as they were |
| `CommitPath.SubmitCommits` | crates/subhost-rpc/src/lib.rs:217-245 | a submission that succeeds commits that very transaction and leaves it out of the pool |
| `CommitPath.SubmitWrites` | crates/subhost-rpc/src/lib.rs:325-338 | a submission touches the disk only by writing the ledger its commit produces |
| `Acceptance.SubmissionIff` | crates/subhost-rpc/src/lib.rs:217-245 | on a running node of any run, with a fault-free write within the size limit, a submission succeeds exactly for a transaction within the limits of pool and block that its sender can pay for |
| `Acceptance.SubmissionPays` | crates/subhost-rpc/src/lib.rs:217-245 | a submission that succeeds has moved the value from sender to receiver, taken the fee from the sender, advanced one nonce and touched no other account |
| `RpcNode.RpcState.constructor` | crates/subhost-rpc/src/lib.rs:137-152 | starting from whatever the store loads gives its state, blocks, receipt map and height, and an empty pool |
| `RpcNode.LoadedRanked` | crates/subhost-rpc/src/lib.rs:341-357 | the receipts of anything that loads have distinct heights, so writing them in height order is unambiguous |
| `RpcNode.RpcState.Persist` | crates/subhost-rpc/src/lib.rs:341-357 | the encoded ledger, receipts sorted by height, is what reaches the store |
| `RpcNode.RpcState.SealOnCopy` | crates/subhost-rpc/src/lib.rs:273-324 | refuses exactly when the commit would, without touching the live state, and otherwise seals the block of the commit |
| `RpcNode.RpcState.SealNextBlock` | crates/subhost-rpc/src/lib.rs:273-339 | memory, disk and answer after a commit attempt, for every way the write can end |
| `RpcNode.RpcState.PersistAndSwap` | crates/subhost-rpc/src/lib.rs:325-338 | the new ledger becomes visible if and only if the write reported success; otherwise memory is unchanged |
| `RpcNode.RpcState.RestorePool` | crates/subhost-rpc/src/lib.rs:254-269 | undoes an admission on both pool indexes |
| `RpcNode.RpcState.SubmitTransaction` | crates/subhost-rpc/src/lib.rs:217-245 | the whole submission on the object, both pool indexes included, equals the commit-path function |
| `RpcNode.RpcState.SeedAccounts` | crates/subhost-rpc/src/lib.rs:200-213 | the live state is replaced only if the write succeeded |
| `RpcNode.Bootstrap` | crates/subhost-node/src/lib.rs:85-97 | a start on any store loads an existing file and seeds only a fresh one |
| `RpcNode.IndexReceipts` | crates/subhost-rpc/src/lib.rs:137-152 | receipts are collected by transaction hash, the last of equal hashes winning |
| `Readers.LookupsNeverMiss` | crates/subhost-rpc/src/lib.rs:333-337 | in every interleaving of the five writes of commits with readers: a visible receipt names a visible block holding its transaction, the height never exceeds the block count, and a lookup that read a receipt or resolved a height finds its transaction or block |
| `Readers.TraceKeeps` | crates/subhost-rpc/src/lib.rs:721-736 | the coherence of visible state and of every reader's partial result is kept by every step of every interleaving |
| `Readers.PartlyCoherent` | crates/subhost-rpc/src/lib.rs:333-337 | whichever of the five writes have happened, the views agree |
| `Readers.InvAnswersRight` | crates/subhost-rpc/src/lib.rs:453-468 | a finished lookup holds the right transaction or the block of the resolved height |
| `Readers.LookupFinds` | crates/subhost-rpc/src/lib.rs:721-736 | in a coherent state a transaction lookup finds its transaction exactly when there is a receipt |
| `Readers.TagsName` | crates/subhost-rpc/src/lib.rs:453-468 | latest, pending, safe and finalized name the newest block, earliest the first; only a malformed number is an error |
| `Readers.NumberNames` | crates/subhost-rpc/src/lib.rs:453-468 | a number names exactly the block that carries that height, if there is one |
| `Readers.BlockLookupFinds` | crates/subhost-rpc/src/lib.rs:706-719 | a block lookup answers with the block its tag names |
| `LedgerFile.WriteIsAtomic` | crates/subhost-storage/src/lib.rs:195-216 | wherever a write stops, a crash can leave only what it could have left before or the whole new ledger; before the rename nothing has changed, and after the last step only the new ledger is left |
| `LedgerFile.PersistIff` | crates/subhost-storage/src/lib.rs:163-217 | a write succeeds exactly when chain ids match, the size is within the limit and no step faults |
| `LedgerFile.LedgerStore.Load` | crates/subhost-storage/src/lib.rs:109-140 | what loading returns is the restored form of the visible file, or the error of the first check that fails |
| `LedgerFile.LedgerStore.RestoreSnapshot` | crates/subhost-storage/src/lib.rs:143-159 | a snapshot is restored only if its chain id matches and the chain validates |
| `LedgerFile.LedgerStore.Persist` | crates/subhost-storage/src/lib.rs:163-217 | the step-by-step write, failing at any step, equals the disk function |
| `Storage.ValidateChain` | crates/subhost-storage/src/lib.rs:246-318 | accepts exactly the valid chains, and an error blames a real fault |
| `Storage.CheckBlocks` | crates/subhost-storage/src/lib.rs:252-285 | the pass with the running parent accepts exactly linked, committed one-transaction blocks at heights 1..n |
| `Storage.CheckReceipts` | crates/subhost-storage/src/lib.rs:286-308 | the pass with the growing set accepts exactly when every receipt matches its own block and no block is claimed twice |
| `Storage.EveryBlockTargeted` | crates/subhost-storage/src/lib.rs:252-308 | by counting, every block is claimed by a receipt |
| `Storage.ReceiptsMatchBlocks` | crates/subhost-storage/src/lib.rs:252-308 | an accepted chain has heights 1..n and exactly one receipt per block, carrying that block's only transaction hash, height and gas |
| `Storage.HashesDistinct` | crates/subhost-storage/src/lib.rs:252-285 | blocks of an accepted chain have distinct hashes |
| `Storage.TipFixesLedger` | crates/subhost-storage/src/lib.rs:246-318 | two accepted ledgers with the same tip hash have the same length, headers and transactions, and the same state |
| `Storage.SignaturesAreFree` | crates/subhost-storage/src/lib.rs:246-318 | what the tip does not fix: block signatures can be replaced in any accepted ledger |
| `Storage.LogsAreFree` | crates/subhost-storage/src/lib.rs:232-239 | nor are the logs and contract address of a receipt |
| `WorldState.State.ApplyTransaction` | crates/subhost-state/src/lib.rs:147-193 | executes as the specification function and an error changes nothing |
| `WorldState.ExecuteIff` | crates/subhost-state/src/lib.rs:147-193 | exactly the transactions with right chain, nonce, type and destination that the balances cover execute |
| `WorldState.ExecutePays` | crates/subhost-state/src/lib.rs:111-193 | the receiver gains the value, the sender loses value and gas price times gas limit, a self-transfer costs only the fee, one nonce advances, nothing else changes |
| `WorldState.RefusedFor` | crates/subhost-state/src/lib.rs:155-168 | exactly which refusals are for the nonce and which for an overflowing credit |
| `WorldState.State.ApplyTransfer` | crates/subhost-state/src/lib.rs:111-136 | moves value, self-transfers included; an overdraft or a credit overflow changes nothing |
| `WorldState.State.Debit` | crates/subhost-state/src/lib.rs:203-210 | takes an amount from one account or changes nothing |
| `WorldState.State.SetBalance` | crates/subhost-state/src/lib.rs:60-62 | sets one balance and no nonce |
| `WorldState.State.Snapshot` | crates/subhost-state/src/lib.rs:81-86 | the address-sorted snapshot, whatever order the map is walked in |
| `WorldState.SettleInSteps` | crates/subhost-state/src/lib.rs:147-193 | value, fee and nonce moved one after another give the settled world |
| `WorldState.NoncesAreConsecutive` | crates/subhost-state/src/lib.rs:155-193 | over any successful execution a sender's nonces are exactly the gap-free run from its old nonce to its new one |
| `WorldState.NoReplay` | crates/subhost-state/src/lib.rs:155-193 | no transaction executes twice in one history |
| `WorldState.ExecuteConserves` | crates/subhost-state/src/lib.rs:111-210 | one transaction burns exactly its fee |
| `WorldState.HistoryConserves` | crates/subhost-state/src/lib.rs:147-193 | what is left plus all fees is what there was |
| `WorldState.SupplyBoundsCredits` | crates/subhost-state/src/lib.rs:111-136 | if the starting supply fits in 128 bits, no later credit overflows |
| `WorldState.RestoreSnapshot` | crates/subhost-state/src/lib.rs:90-103 | restoring accepts exactly snapshots without a repeated address |
| `WorldState.SnapshotRoundTrip` | crates/subhost-state/src/lib.rs:81-103 | restoring a snapshot gives the same world back |
| `WorldState.RestoredIsSourceIffSorted` | crates/subhost-state/src/lib.rs:90-103 | a restored world has that very snapshot if and only if the entries were sorted |
| `WorldState.RootDeterminesWorld` | crates/subhost-state/src/lib.rs:106-108 | equal state roots mean equal worlds |
| `Mempool.AdmitKeeps` | crates/subhost-mempool/src/lib.rs:114-181 | a well-formed pool stays so; an error changes nothing, success removes at most one transaction and reports exactly that one, and the pool-full error never occurs |
| `Mempool.AdmitOutcome` | crates/subhost-mempool/src/lib.rs:114-181 | exactly when the pool admits, keeps the incumbent of the slot, or refuses |
| `Mempool.AdmissibleIff` | crates/subhost-mempool/src/lib.rs:114-140 | the entry conditions in the fields of the transaction |
| `Mempool.DisplacedIsCheapest` | crates/subhost-mempool/src/lib.rs:295-317 | a full pool displaces a transaction no dearer than any other pending one and, at the same price, with no lower nonce |
| `Mempool.RollBackExact` | crates/subhost-rpc/src/lib.rs:254-269 | admission followed by rollback is the identity on every well-formed pool, in all four cases |
| `DigestOrder.DefaultIsValid` | crates/subhost-mempool/src/lib.rs:24-33 | the default pool configuration with a concrete digest order meets what the pool and run theorems ask of a configuration |
| `Mempool.VictimExists` | crates/subhost-mempool/src/lib.rs:295-317 | a non-empty pool has an eviction victim |
| `Mempool.VictimUnique` | crates/subhost-mempool/src/lib.rs:295-307 | the victim is fixed by the contents of the pool |
| `Mempool.VictimIsCheapest` | crates/subhost-mempool/src/lib.rs:295-307 | the victim has the lowest gas price and among those the highest nonce |
| `Mempool.ReadyIsLongest` | crates/subhost-mempool/src/lib.rs:245-265 | the ready prefix is the longest gap-free run of pending nonces |
| `Mempool.ReadyNeverBadNonce` | crates/subhost-mempool/src/lib.rs:245-265 | executed in order, no member of the prefix is refused for its nonce |
| `Mempool.PruneLeavesSuffix` | crates/subhost-mempool/src/lib.rs:280-293 | pruning at the nonce reached after k executions leaves exactly the rest of the prefix ready |
| `Mempool.PruneDropsIff` | crates/subhost-mempool/src/lib.rs:280-293 | pruning drops exactly that sender's transactions below the nonce |
| `Mempool.SubPoolOk` | crates/subhost-mempool/src/lib.rs:184-195 | removal and pruning keep the pool well-formed |
| `Mempool.ProposalOrderTotal` | crates/subhost-mempool/src/lib.rs:230-240 | in a well-formed pool no two transactions tie in the proposal order |
| `PoolStore.InverseUnique` | crates/subhost-mempool/src/lib.rs:114-195 | the sender index is determined by the transactions, so restoring those restores both |
| `PoolStore.QueueSize` | crates/subhost-mempool/src/lib.rs:114-181 | a sender's nonce map has one entry per pending transaction of that sender |
| `PoolStore.TxPool.Admit` | crates/subhost-mempool/src/lib.rs:114-181 | both indexes stay inverse views, and the result is that of the specification |
| `PoolStore.TxPool.ReplaceByFee` | crates/subhost-mempool/src/lib.rs:114-181 | only a strictly higher gas price takes an occupied slot |
| `PoolStore.TxPool.EvictLowestPriority` | crates/subhost-mempool/src/lib.rs:295-317 | drops exactly the victim, from both indexes |
| `PoolStore.TxPool.Remove` | crates/subhost-mempool/src/lib.rs:184-195 | removes one transaction from both indexes and leaves no empty sender map |
| `PoolStore.TxPool.GetBySenderNonce` | crates/subhost-mempool/src/lib.rs:205-212 | finds exactly the transaction holding the slot |
| `PoolStore.TxPool.ReadyFor` | crates/subhost-mempool/src/lib.rs:245-265 | the walk over nonces returns the ready prefix |
| `PoolStore.TxPool.PruneBelowNonce` | crates/subhost-mempool/src/lib.rs:280-293 | drops exactly that sender's transactions below the nonce and counts them |
| `PoolStore.TxPool.InProposalOrder` | crates/subhost-mempool/src/lib.rs:230-240 | the whole pool by falling gas price, then sender, then nonce, whatever order the map is walked in |
| `Ordering.SortedUnique` | crates/subhost-mempool/src/lib.rs:230-240 | a strictly sorted listing is determined by its elements |
| `Ordering.Sort` | crates/subhost-state/src/lib.rs:81-86 | sorting a set walked in any order gives its canonical listing |
| `Quorum.OverlapIffExactCount` | crates/subhost-consensus/src/lib.rs:39-51 | any two quorums share more members than may be faulty if and only if the validator count leaves remainder one modulo three |
| `Quorum.PayloadInjective` | crates/subhost-consensus/src/lib.rs:318-328 | the signed bytes determine view and block hash |
| `Quorum.ValidateQc` | crates/subhost-consensus/src/lib.rs:382-415 | accepts exactly when enough distinct registered validators validly signed the payload, and otherwise reports the first fault in signature order |
| `Quorum.ConflictExposesSigners` | crates/subhost-consensus/src/lib.rs:382-415 | accepted certificates for two blocks of one view share at least twice the threshold less the registry size in signers, each of whom signed both payloads; f + 1 with 3f + 1 registered |
| `Quorum.OneBlockPerView` | crates/subhost-consensus/src/lib.rs:382-415 | with 3f + 1 registered validators of which at most f sign twice, a view certifies one block |
| `Quorum.ValidatorRegistry.Register` | crates/subhost-consensus/src/lib.rs:70-83 | an error leaves the registry as it was unless it names a duplicate under a different key |
| `Quorum.LockIsFinal` | crates/subhost-consensus/src/lib.rs:421-436 | after a valid certificate no later state, whatever follows, accepts a proposal at or below its view |
| `Quorum.SafeIffAboveAll` | crates/subhost-consensus/src/lib.rs:421-436 | in every run a proposal is safe exactly when its view is above every valid certificate seen |
| `Quorum.ReactedForward` | crates/subhost-consensus/src/lib.rs:367-436 | in every run the lock is the view of the highest certificate, that certificate is valid, and view, lock and certificate never go back |
| `Quorum.HotStuff.EnterNextView` | crates/subhost-consensus/src/lib.rs:367-373 | the next view, or an error and no change at the last one |
| `Quorum.HotStuff.UpdateHighQc` | crates/subhost-consensus/src/lib.rs:421-431 | adopts and locks exactly a valid, newer certificate and moves the view up to it; otherwise nothing changes |
| `Dag.RunKeepsSupport` | crates/subhost-consensus/src/lib.rs:213-251 | in every run of additions, commits and collections each stored committed vertex still has quorum support |
| `Dag.AdmissionIsTopological` | crates/subhost-consensus/src/lib.rs:154-182 | in every run, collections included, parents of a vertex past round 1 were admitted before it |
| `Dag.ConnectedWithoutGc` | crates/subhost-consensus/src/lib.rs:148-182 | without collection every parent of a stored vertex past round 1 is stored |
| `Dag.ConnectedAfterGcIff` | crates/subhost-consensus/src/lib.rs:261-301 | after a collection that still holds if and only if nothing was collected, because supporters of the last collected round stay behind |
| `Dag.GcOrphansChild` | crates/subhost-consensus/src/lib.rs:261-301 | a run with one validator that ends unconnected: a parent, its child, a commit and a collection |
| `Dag.GcRemovesIff` | crates/subhost-consensus/src/lib.rs:265-301 | a stored vertex goes exactly when it is committed and more than the kept number of rounds behind some stored vertex |
| `Dag.AdmitsIff` | crates/subhost-consensus/src/lib.rs:154-182 | exactly when a vertex is admitted, by its round and parents |
| `Dag.MissingIsFirst` | crates/subhost-consensus/src/lib.rs:168-172 | the missing parent a refusal names is the first one |
| `Dag.CommitsIff` | crates/subhost-consensus/src/lib.rs:213-251 | a vertex is committed exactly when it is stored and enough different next-round authors name it |
| `Dag.CommittedHaveQuorum` | crates/subhost-consensus/src/lib.rs:213-251 | in every run a committed vertex has at least the threshold of different next-round authors naming it |
| `DagStore.DAG.AddVertex` | crates/subhost-consensus/src/lib.rs:154-182 | round store, index and edges keep describing the same vertices; the answer names the first missing parent |
| `DagStore.DAG.SupportFor` | crates/subhost-consensus/src/lib.rs:213-231 | the number of distinct next-round authors naming the vertex |
| `DagStore.DAG.MarkCommitted` | crates/subhost-consensus/src/lib.rs:239-251 | commits exactly a known vertex with quorum support |
| `DagStore.DAG.Gc` | crates/subhost-consensus/src/lib.rs:265-301 | removes exactly the committed vertices below the cutoff from all tables, keeps the order of the rest, and returns their number |
| `DagStore.LatestRound` | crates/subhost-consensus/src/lib.rs:200-202 | the largest round key is the newest round of any stored vertex, since no round is empty |
| `Relay.EveryRunDelivers` | crates/subhost-ibc/src/lib.rs:265-346 | two chains and a relayer delivering anything ever sent, in any order and number: every accepted packet was sent on the mirrored channel, is accepted once, an ordered channel accepts a prefix of all that was sent, and no token is accepted beyond what was sent |
| `Relay.ReturnedWasAsked` | crates/subhost-ibc/src/lib.rs:215-346 | in every run each transfer a receive call returned is the transfer of one accepted send call of the other chain, and different receive calls answer different send calls |
| `Relay.RunCarries` | crates/subhost-ibc/src/lib.rs:215-346 | in every run the packets sent carry the transfers asked for, and the packets accepted those returned, in order |
| `Relay.ReturnedWithinAsked` | crates/subhost-ibc/src/lib.rs:215-346 | in every run no token is returned by receive calls beyond what send calls of the other chain were asked for |
| `Relay.RunKeeps` | crates/subhost-ibc/src/lib.rs:215-346 | the invariant behind it, kept by every move of both chains and the relayer |
| `Relay.IssuedSequences` | crates/subhost-ibc/src/lib.rs:239-253 | the sequences a chain issues are exactly 1 to next - 1 in sending order |
| `Relay.OrderedStalls` | crates/subhost-ibc/src/lib.rs:239-253 | sequences are shared by all channels, so an ordered channel accepts nothing past the first packet sent elsewhere |
| `Ibc.RunLater` | crates/subhost-ibc/src/lib.rs:156-212 | in every run channels are never overwritten or rebound and only move forward; acknowledged and timed-out packets stay so; sequences are not taken back |
| `Ibc.FreshId` | crates/subhost-ibc/src/lib.rs:156-185 | the id of a new channel is held by no existing channel |
| `Ibc.OpensIff` | crates/subhost-ibc/src/lib.rs:156-185 | exactly when a channel opens, in which state and bound to what |
| `Ibc.MovesIff` | crates/subhost-ibc/src/lib.rs:188-212 | exactly when a channel moves, and that only its state does |
| `Ibc.SendsIff` | crates/subhost-ibc/src/lib.rs:215-253 | exactly which transfers are queued; an error changes nothing |
| `Ibc.SendCarries` | crates/subhost-ibc/src/lib.rs:215-261 | the queued packet carries the very transfer under the next sequence to the counterparty of its channel with both timeouts, and nothing else changes |
| `Ibc.ReceivesIff` | crates/subhost-ibc/src/lib.rs:265-346 | exactly which packets are accepted |
| `Ibc.ReceiveReturns` | crates/subhost-ibc/src/lib.rs:319-346 | acceptance returns the packet's own transfer, records its receipt and moves the expected sequence past it |
| `Ibc.AllowedIffForward` | crates/subhost-ibc/src/lib.rs:188-212 | the allowed transitions are exactly the forward ones |
| `Ibc.EveryFate` | crates/subhost-ibc/src/lib.rs:349-379 | in every run each issued sequence, and no other, is held unacknowledged, or was acknowledged by an accepted call, or timed out by an accepted call, and only one of these |
| `Ibc.FatesAreCalls` | crates/subhost-ibc/src/lib.rs:349-379 | in every run a packet has timed out, or is acknowledged, exactly when the run holds the accepted call that made it so |
| `Ibc.OnlyExpiryTimesOut` | crates/subhost-ibc/src/lib.rs:364-379 | only a timeout call on an expired outstanding packet times it out |
| `Ibc.FailedReceiveKeepsIff` | crates/subhost-ibc/src/lib.rs:265-346 | a failed receive changes nothing if and only if it is not a sequence overflow, with the exact condition for overflow |
| `Ibc.OverflowLeavesReceipt` | crates/subhost-ibc/src/lib.rs:334-336 | reachable on a freshly opened unordered channel: a packet with the last sequence is refused for overflow and leaves its receipt behind |
| `IbcState.IbcModule.OpenChannel` | crates/subhost-ibc/src/lib.rs:156-185 | opens under an id no channel holds |
| `IbcState.IbcModule.SetChannelState` | crates/subhost-ibc/src/lib.rs:188-212 | moves one channel by an allowed transition |
| `IbcState.IbcModule.SendTransfer` | crates/subhost-ibc/src/lib.rs:215-261 | queues a packet under the next sequence or changes nothing |
| `IbcState.IbcModule.CheckPacket` | crates/subhost-ibc/src/lib.rs:265-332 | the first failing check, in order |
| `IbcState.IbcModule.ReceivePacket` | crates/subhost-ibc/src/lib.rs:265-346 | accepts only a packet whose receipt was not recorded before |
| `IbcState.IbcModule.AcknowledgePacket` | crates/subhost-ibc/src/lib.rs:349-361 | succeeds exactly for an outstanding packet |
| `IbcState.IbcModule.TimeoutPacket` | crates/subhost-ibc/src/lib.rs:364-379 | succeeds exactly for an expired outstanding packet |
| `Staking.RunKeepsBook` | crates/subhost-consensus/src/staking.rs:146-202 | in every run each delegation is positive and points to a registered validator |
| `Staking.RunBalances` | crates/subhost-consensus/src/staking.rs:146-256 | in every run stake plus penalties equals own stake plus delegations plus withdrawals beyond the stake |
| `Staking.RegistersIff` | crates/subhost-consensus/src/staking.rs:109-117 | exactly which validators can register |
| `Staking.DelegateMoves` | crates/subhost-consensus/src/staking.rs:146-173 | exactly when a delegation is accepted, and that it adds the amount to one record and one stake |
| `Staking.UndelegateMoves` | crates/subhost-consensus/src/staking.rs:176-202 | exactly when an undelegation is accepted, and that it takes the amount from one record and, as far as it goes, one stake |
| `Staking.SlashTakes` | crates/subhost-consensus/src/staking.rs:86-92 | double signing costs the whole stake, downtime a hundredth, other offences a half, rounded down; the evidence is kept and no other stake changes |
| `Staking.StakeIsWhatWasPaid` | crates/subhost-consensus/src/staking.rs:146-202 | without slashing, stake is own stake plus delegations and never below the minimum |
| `Staking.UndelegationNeverSaturates` | crates/subhost-consensus/src/staking.rs:176-202 | without slashing, an accepted undelegation is covered by the stake |
| `Staking.EjectedIff` | crates/subhost-consensus/src/staking.rs:221-256 | a validator leaves exactly on proven double signing while it still has stake |
| `Staking.EjectionNeedsDoubleSign` | crates/subhost-consensus/src/staking.rs:221-256 | a validator gone after any run was proven to have signed twice during it |
| `Staking.ZeroStakeStays` | crates/subhost-consensus/src/staking.rs:233-237 | a reachable validator without stake survives double-signing evidence |
| `Staking.DowntimeIsGentle` | crates/subhost-consensus/src/staking.rs:86-92 | after k downtime slashes at least (99/100)^k of the stake is left, in any run without other penalties or withdrawals on that validator |
| `StakingBook.StakingModule.AddValidator` | crates/subhost-consensus/src/staking.rs:109-117 | registers a valid new validator or changes nothing |
| `StakingBook.StakingModule.Delegate` | crates/subhost-consensus/src/staking.rs:146-173 | credits record and stake together, or changes nothing |
| `StakingBook.StakingModule.Undelegate` | crates/subhost-consensus/src/staking.rs:176-202 | takes the amount from the record and, as far as it goes, from the stake |
| `StakingBook.StakingModule.Slash` | crates/subhost-consensus/src/staking.rs:221-256 | records evidence, deducts, and burns the delegations of an ejected validator |
| `StakingBook.StakingModule.GetValidatorSet` | crates/subhost-consensus/src/staking.rs:134-142 | all validators by falling stake, then address, with the capped total stake and quorum size |
| `StakingBook.SumStakes` | crates/subhost-consensus/src/staking.rs:128-130 | the saturating total does not depend on the order of the map |
| `StakingBook.RankingTotal` | crates/subhost-consensus/src/staking.rs:134-142 | no two stored validators tie |

## Left out

- Cryptography and the wallet: signature, possession and decoding checks are abstract predicates.
- JSON-RPC parsing and rendering, HTTP, the command line, the explorer, metrics, benchmarks, the network layer and the faucet: input and output around the modelled core.
- The signature check of the RPC surface before a submission.
- The byte format of the ledger file: a file is a whole encoded ledger of some size or bytes that fail the format checks, which are then one error.
- File permissions and ownership, and stores without a path, whose writes succeed and keep nothing.
- A data directory used with several chain ids, and other processes writing to it.
- Storage.ValidateChain: the separate error for a height beyond 64 bits is reported as a bad sequence, since no list of that length exists.
- NodeRuns.MemoryNeverAhead: for what a power loss may leave, asks for a start with nothing unsynced or a completed write since; Unsynced.NeverAheadIffSettled proves that condition exact for blocks.
- Locking itself: the writes of a commit and the reads of a lookup are atomic steps in any interleaving, with one commit at a time as the submission lock gives.
- The hexadecimal parsing of block tags: a tag holds a parsed number or is malformed.
- `next_nonce_for`, `credit`, `delegated_to` and the plain accessors: they would only add easy members.
- How a vertex hash is computed from its parts, and the vertex signature, which admission does not check.
- The consensus loop: the crate has none, so a replica is any sequence of views and certificates.
- Packet payloads as bytes: a payload is its length and the transfer it parses to, and serialized length is a parameter.
- The texts of error messages: errors that differ only in their text are one error.
- Liveness across channels, and whether a timed-out packet was received: the code does not decide either.
- Rewards: the field exists and stays zero, as nothing in the source sets it.
