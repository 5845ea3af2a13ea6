/** A node's own first block followed by a second seeding writes a file that no longer loads. */
module Reseeding {
  import opened Prelude
  import opened Core
  import opened WorldState
  import opened Mempool
  import opened LedgerFile
  import opened Ledger
  import opened LedgerLoads
  import opened CommitPath
  import opened NodeRuns
  import opened Origins
  import opened Unsynced

  /** A first transfer of this chain that the pool admits and a block can hold. */
  predicate FirstTransfer(cfg: Config, chainId: U64, tx: Transaction) {
    && Admissible(cfg, tx) && tx.chainId == chainId && tx.nonce == 0 && tx.txType == Transfer
    && tx.to.Some? && tx.gasLimit <= BLOCK_GAS_LIMIT
  }

  /** Just enough for the transfer and its fee. */
  function Funding(tx: Transaction): Allocations
    requires tx.TotalCost().Some?
  {
    [(tx.from, tx.TotalCost().value)]
  }

  /** What the sender has left: nothing, or the value sent to itself. */
  function Remaining(tx: Transaction): U128
    requires tx.to.Some?
  {
    if tx.to.value == tx.from then tx.value else 0
  }

  lemma FundedExecutes(cfg: Config, chainId: U64, tx: Transaction)
    requires FirstTransfer(cfg, chainId, tx)
    ensures var w := SeedWorld(Blank(chainId), Funding(tx));
            Execute(w, tx).Ok? && Execute(w, tx).value.Balance(tx.from) == Remaining(tx)
  {
    var a := Funding(tx);
    var w := SeedWorld(Blank(chainId), a);
    assert a[..|a| - 1] == [] && SeedWorld(Blank(chainId), []) == Blank(chainId);
    assert w == Blank(chainId).WithBalance(tx.from, tx.TotalCost().value);
  }

  /** A write that meets no fault puts the new ledger in place. */
  lemma CleanWrite(chainId: U64, d: Disk, next: Ledger, size: nat)
    requires DiskOk(d) && Encoded(chainId, next).state.chainId == chainId && size <= MAX_LEDGER_BYTES
    ensures var (after, r) := PersistTo(chainId, d, Encoded(chainId, next), Io(size, None));
            r.Ok? && after.target == Some(Whole(Encoded(chainId, next), size)) && DiskOk(after)
  {
    PersistEnds(chainId, d, Encoded(chainId, next), Io(size, None));
  }

  lemma SeededStart(chainId: U64, a: Allocations, size: nat)
    requires chainId != 0 && a != [] && size <= MAX_LEDGER_BYTES
    ensures var n := AfterStart(chainId, NEW_NODE, a, Io(size, None));
            n.memory == Some(Memory(Ledger(SeedWorld(Blank(chainId), a), [], map[]), map[], 0)) && DiskOk(n.disk)
  {
    SeedKeepsNonces(Blank(chainId), a, 0);
    CleanWrite(chainId, FRESH_DISK, Ledger(SeedWorld(Blank(chainId), a), [], map[]), size);
  }

  lemma FirstSubmit(cfg: Config, chainId: U64, m: Memory, d: Disk, tx: Transaction, now: U64, size: nat)
    requires cfg.Valid() && MemoryOk(chainId, m) && DiskOk(d) && Admissible(cfg, tx) && size <= MAX_LEDGER_BYTES
    requires Commit(chainId, m.ledger, tx, now).Ok?
    ensures Submit(cfg, chainId, m, d, tx, now, Io(size, None)).2.Ok?
    ensures Submit(cfg, chainId, m, d, tx, now, Io(size, None)).0.ledger == Commit(chainId, m.ledger, tx, now).value
    ensures DiskOk(Submit(cfg, chainId, m, d, tx, now, Io(size, None)).1)
  {
    var next := Commit(chainId, m.ledger, tx, now).value;
    CommitHasHistory(chainId, m.ledger, tx, now);
    SnapshotChainIds(chainId, next);
    CleanWrite(chainId, d, next, size);
    FirstAdmission(cfg, tx);
    var admitted := m.(pool := Swap(map[], {}, tx));
    assert tx.Hash() in admitted.pool && admitted.pool[tx.Hash()] == tx;
    SealWritten(chainId, admitted, d, tx.Hash(), now, Io(size, None), next);
  }

  /** Seeding once blocks exist answers with success, and what it wrote does not load. */
  lemma ReseedAnswers(chainId: U64, genesis: World, m: Memory, d: Disk, a: Address, balance: U128, size: nat)
    requires History(chainId, genesis, m.ledger) && m.ledger.blocks != [] && DiskOk(d) && size <= MAX_LEDGER_BYTES
    requires m.ledger.world.Balance(a) != balance
    ensures var (_, disk, r) := Seed(chainId, m, d, [(a, balance)], Io(size, None));
            r.Ok? && LoadFile(chainId, disk.target).None?
  {
    ReseedBreaksFile(chainId, genesis, m.ledger, a, balance, size);
    SeedKeepsNonces(m.ledger.world, [(a, balance)], 0);
    ChainIdFixed(genesis, Txs(m.ledger.blocks));
    CleanWrite(chainId, d, m.ledger.(world := SeedWorld(m.ledger.world, [(a, balance)])), size);
  }

  lemma TwoEvents(cfg: Config, chainId: U64, e: Event, f: Event)
    requires cfg.Valid()
    ensures Run(cfg, chainId, [e, f]) == Apply(cfg, chainId, Apply(cfg, chainId, NEW_NODE, e), f)
  {
    RunSnoc(cfg, chainId, [], e);
    RunSnoc(cfg, chainId, [e], f);
    assert [] + [e] == [e] && [e] + [f] == [e, f];
  }

  lemma FundedCommit(cfg: Config, chainId: U64, tx: Transaction, now: U64)
    requires chainId != 0 && FirstTransfer(cfg, chainId, tx)
    ensures var l := Ledger(SeedWorld(Blank(chainId), Funding(tx)), [], map[]);
            && HasHistory(chainId, l) && Commit(chainId, l, tx, now).Ok?
            && |Commit(chainId, l, tx, now).value.blocks| == 1
            && Commit(chainId, l, tx, now).value.world.Balance(tx.from) == Remaining(tx)
  {
    FundedExecutes(cfg, chainId, tx);
    GenesisHistory(chainId, Blank(chainId));
    SeedHistory(chainId, Blank(chainId), Funding(tx));
  }

  lemma OneBlockRun(cfg: Config, chainId: U64, tx: Transaction, now: U64, size: nat)
    requires cfg.Valid() && chainId != 0 && FirstTransfer(cfg, chainId, tx) && size <= MAX_LEDGER_BYTES
    ensures var n := Run(cfg, chainId, [Start(Funding(tx), Io(size, None)), SubmitTransaction(tx, now, Io(size, None))]);
            && n.memory.Some? && |n.memory.value.ledger.blocks| == 1 && DiskOk(n.disk)
            && n.memory.value.ledger.world.Balance(tx.from) == Remaining(tx)
  {
    var io := Io(size, None);
    var up := AfterStart(chainId, NEW_NODE, Funding(tx), io);
    SeededStart(chainId, Funding(tx), size);
    FundedCommit(cfg, chainId, tx, now);
    FirstSubmit(cfg, chainId, up.memory.value, up.disk, tx, now, size);
    TwoEvents(cfg, chainId, Start(Funding(tx), io), SubmitTransaction(tx, now, io));
  }

  /**
   Reachable from a new data directory: fund a sender, commit its first transfer, then seed it
   again with any other balance. The seeding succeeds and the next start cannot load the file.
   */
  lemma ReseedBreaksRun(cfg: Config, chainId: U64, tx: Transaction, now: U64, size: nat, balance: U128)
    requires cfg.Valid() && chainId != 0 && FirstTransfer(cfg, chainId, tx) && size <= MAX_LEDGER_BYTES
    requires balance != Remaining(tx)
    ensures var n := Run(cfg, chainId, [Start(Funding(tx), Io(size, None)), SubmitTransaction(tx, now, Io(size, None))]);
            && n.memory.Some? && |n.memory.value.ledger.blocks| == 1
            && var (_, disk, r) := Seed(chainId, n.memory.value, n.disk, [(tx.from, balance)], Io(size, None));
            r.Ok? && LoadFile(chainId, disk.target).None?
  {
    var events := [Start(Funding(tx), Io(size, None)), SubmitTransaction(tx, now, Io(size, None))];
    OneBlockRun(cfg, chainId, tx, now, size);
    RunKeeps(cfg, chainId, events);
    var n := Run(cfg, chainId, events);
    var genesis :| History(chainId, genesis, n.memory.value.ledger);
    ReseedAnswers(chainId, genesis, n.memory.value, n.disk, tx.from, balance, size);
  }
}
