/** What a client of a running node gets: which submissions succeed, and what a success changes. */
module Acceptance {
  import opened Prelude
  import opened Core
  import opened WorldState
  import opened Mempool
  import opened LedgerFile
  import opened Ledger
  import opened CommitPath
  import opened NodeRuns
  import opened Reseeding

  lemma SubmittedIsAdmissible(cfg: Config, chainId: U64, m: Memory, d: Disk, tx: Transaction, now: U64, io: Io)
    requires cfg.Valid() && PoolOk(cfg, m.pool) && Submit(cfg, chainId, m, d, tx, now, io).2.Ok?
    ensures Admissible(cfg, tx)
  {
    AdmitOutcome(cfg, m.pool, tx);
  }

  /**
   On a running node of any run, when the write meets no fault, a submission succeeds exactly for a
   transaction within the pool's and the block's limits that its sender can pay for.
   */
  lemma SubmissionIff(cfg: Config, chainId: U64, events: seq<Event>, tx: Transaction, now: U64, size: nat)
    requires cfg.Valid() && chainId != 0 && Run(cfg, chainId, events).memory.Some? && size <= MAX_LEDGER_BYTES
    requires |Run(cfg, chainId, events).memory.value.ledger.blocks| < U64_MAX
    ensures var n := Run(cfg, chainId, events);
            Submit(cfg, chainId, n.memory.value, n.disk, tx, now, Io(size, None)).2.Ok? <==>
              && |tx.data| <= cfg.maxTxDataBytes && tx.gasPrice >= cfg.minGasPrice && tx.gasLimit <= 30_000_000
              && Payable(n.memory.value.ledger.world, tx)
  {
    RunKeeps(cfg, chainId, events);
    var n := Run(cfg, chainId, events);
    var m := n.memory.value;
    var genesis :| History(chainId, genesis, m.ledger);
    CommitIff(chainId, genesis, m.ledger, tx, now);
    AdmissibleIff(cfg, tx);
    if Submit(cfg, chainId, m, n.disk, tx, now, Io(size, None)).2.Ok? {
      EmptyPoolOk(cfg);
      SubmitCommits(cfg, chainId, m, n.disk, tx, now, Io(size, None));
      SubmittedIsAdmissible(cfg, chainId, m, n.disk, tx, now, Io(size, None));
    }
    if Admissible(cfg, tx) && Commit(chainId, m.ledger, tx, now).Ok? {
      FirstSubmit(cfg, chainId, m, n.disk, tx, now, size);
    }
  }

  /**
   A submission that succeeds, in any run and however the write went, has moved the value from
   sender to receiver and the fee out of the sender's balance, and has touched no other account.
   */
  lemma SubmissionPays(cfg: Config, chainId: U64, events: seq<Event>, tx: Transaction, now: U64, io: Io, a: Address)
    requires cfg.Valid() && chainId != 0 && Run(cfg, chainId, events).memory.Some?
    requires var n := Run(cfg, chainId, events); Submit(cfg, chainId, n.memory.value, n.disk, tx, now, io).2.Ok?
    ensures tx.to.Some?
    ensures var before := Run(cfg, chainId, events).memory.value.ledger.world;
            var after := Run(cfg, chainId, events + [SubmitTransaction(tx, now, io)]).memory;
            && after.Some?
            && after.value.ledger.world.Balance(a) == before.Balance(a)
                 + (if a == tx.to.value then tx.value else 0)
                 - (if a == tx.from then tx.value + tx.gasPrice * tx.gasLimit else 0)
            && after.value.ledger.world.Nonce(a) == before.Nonce(a) + (if a == tx.from then 1 else 0)
  {
    RunKeeps(cfg, chainId, events);
    var n := Run(cfg, chainId, events);
    EmptyPoolOk(cfg);
    SubmitCommits(cfg, chainId, n.memory.value, n.disk, tx, now, io);
    CommitIs(chainId, n.memory.value.ledger, tx, now);
    ExecutePays(n.memory.value.ledger.world, tx, a);
    RunSnoc(cfg, chainId, events, SubmitTransaction(tx, now, io));
  }
}
