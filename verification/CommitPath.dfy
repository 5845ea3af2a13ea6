/**
 The node's operations on its whole state, memory and disk together: submitting a transaction,
 including a pending one, seeding balances, and starting up.
 */
module CommitPath {
  import opened Prelude
  import opened Core
  import opened WorldState
  import opened Mempool
  import opened LedgerFile
  import opened Ledger
  import opened LedgerLoads

  /** The in-memory views a node serves from. */
  datatype Memory = Memory(ledger: Ledger, pool: Pool, height: U64)

  datatype RpcError =
    | InvalidTxHash
    | PoolRefused(pool: PoolError)
    | Underpriced
    | Refused(commit: CommitError)
    | Persistence(storage: StorageError)

  ghost function SealNext(chainId: U64, m: Memory, d: Disk, h: Hash, now: U64, io: Io): (Memory, Disk, Result<Hash, RpcError>) {
    if h !in m.pool then (m, d, Err(InvalidTxHash)) else
    match Commit(chainId, m.ledger, m.pool[h], now)
    case Err(e) => (m, d, Err(Refused(e)))
    case Ok(next) =>
      var (after, written) := PersistTo(chainId, d, Encoded(chainId, next), io);
      if written.Err? then (m, after, Err(Persistence(written.error)))
      else (Memory(next, m.pool - {h}, TipHeight(next.blocks)), after, Ok(h))
  }

  ghost function SealOrRollBack(
    cfg: Config, chainId: U64, m: Memory, d: Disk, h: Hash,
    previous: Option<Transaction>, displaced: Option<Transaction>, now: U64, io: Io): (Memory, Disk, Result<Hash, RpcError>)
    requires cfg.Valid()
  {
    var (sealed, after, r) := SealNext(chainId, m, d, h, now, io);
    if r.Ok? then (sealed, after, r) else (sealed.(pool := RollBack(cfg, sealed.pool, h, previous, displaced)), after, r)
  }

  ghost function Submit(cfg: Config, chainId: U64, m: Memory, d: Disk, tx: Transaction, now: U64, io: Io)
    : (Memory, Disk, Result<Hash, RpcError>)
    requires cfg.Valid()
  {
    var previous := Pending(m.pool, tx.from, tx.nonce);
    var (admitted, outcome) := Admit(cfg, m.pool, tx);
    match outcome
    case Err(e) => (m.(pool := admitted), d, Err(PoolRefused(e)))
    case Ok(admission) =>
      if !admission.accepted then (m.(pool := admitted), d, Err(Underpriced)) else
      SealOrRollBack(cfg, chainId, m.(pool := admitted), d, admission.hash, previous, admission.displaced, now, io)
  }

  ghost function Seed(chainId: U64, m: Memory, d: Disk, allocations: seq<(Address, U128)>, io: Io)
    : (Memory, Disk, Result<(), RpcError>)
  {
    var next := m.ledger.(world := SeedWorld(m.ledger.world, allocations));
    var (after, written) := PersistTo(chainId, d, Encoded(chainId, next), io);
    if written.Err? then (m, after, Err(Persistence(written.error))) else (m.(ledger := next), after, Ok(()))
  }

  function Started(r: Restored): Memory {
    Memory(Loaded(r), map[], TipHeight(r.blocks))
  }

  /** Start up: load, and apply the genesis allocations only when there was no ledger file. */
  ghost function Boot(chainId: U64, d: Disk, allocations: seq<(Address, U128)>, io: Io): (Disk, Option<Memory>) {
    match LoadFile(chainId, d.target)
    case None => (d, None)
    case Some(restored) =>
      if d.target.Some? || allocations == [] then (d, Some(Started(restored))) else
      var (m, after, r) := Seed(chainId, Started(restored), d, allocations, io);
      (after, if r.Ok? then Some(m) else None)
  }

  // ---------------------------------------------------------------- facts about single operations

  lemma SealOrRollBackIs(
    cfg: Config, chainId: U64, m: Memory, d: Disk, h: Hash, previous: Option<Transaction>, displaced: Option<Transaction>,
    now: U64, io: Io, sealed: Memory, disk: Disk, r: Result<Hash, RpcError>)
    requires cfg.Valid() && (sealed, disk, r) == SealNext(chainId, m, d, h, now, io)
    ensures SealOrRollBack(cfg, chainId, m, d, h, previous, displaced, now, io)
         == if r.Ok? then (sealed, disk, r)
            else (sealed.(pool := RollBack(cfg, sealed.pool, h, previous, displaced)), disk, r)
  {
  }

  lemma SealWritten(chainId: U64, m: Memory, d: Disk, h: Hash, now: U64, io: Io, next: Ledger)
    requires h in m.pool && Commit(chainId, m.ledger, m.pool[h], now) == Ok(next)
    requires PersistTo(chainId, d, Encoded(chainId, next), io).1.Ok?
    ensures SealNext(chainId, m, d, h, now, io)
            == (Memory(next, m.pool - {h}, TipHeight(next.blocks)), PersistTo(chainId, d, Encoded(chainId, next), io).0, Ok(h))
  {
  }

  lemma SealUnwritten(chainId: U64, m: Memory, d: Disk, h: Hash, now: U64, io: Io, next: Ledger)
    requires h in m.pool && Commit(chainId, m.ledger, m.pool[h], now) == Ok(next)
    requires PersistTo(chainId, d, Encoded(chainId, next), io).1.Err?
    ensures SealNext(chainId, m, d, h, now, io)
            == (m, PersistTo(chainId, d, Encoded(chainId, next), io).0,
                Err(Persistence(PersistTo(chainId, d, Encoded(chainId, next), io).1.error)))
  {
  }

  /** A commit that fails anywhere leaves every in-memory view as it was. */
  lemma FailedSealKeepsMemory(chainId: U64, m: Memory, d: Disk, h: Hash, now: U64, io: Io)
    requires SealNext(chainId, m, d, h, now, io).2.Err?
    ensures SealNext(chainId, m, d, h, now, io).0 == m
  {
  }

  /** A submission that fails anywhere, for whatever reason, changes nothing in memory. */
  lemma FailedSubmitKeepsMemory(cfg: Config, chainId: U64, m: Memory, d: Disk, tx: Transaction, now: U64, io: Io)
    requires cfg.Valid() && PoolOk(cfg, m.pool)
    requires Submit(cfg, chainId, m, d, tx, now, io).2.Err?
    ensures Submit(cfg, chainId, m, d, tx, now, io).0 == m
  {
    AdmitKeeps(cfg, m.pool, tx);
    var (admitted, outcome) := Admit(cfg, m.pool, tx);
    if outcome.Ok? && outcome.value.accepted {
      FailedSealKeepsMemory(chainId, m.(pool := admitted), d, outcome.value.hash, now, io);
      RollBackExact(cfg, m.pool, tx);
    }
  }

  lemma SealCommits(chainId: U64, m: Memory, d: Disk, h: Hash, now: U64, io: Io)
    requires SealNext(chainId, m, d, h, now, io).2.Ok?
    ensures var (after, _, r) := SealNext(chainId, m, d, h, now, io);
            && r == Ok(h) && h in m.pool && after.pool == m.pool - {h}
            && Commit(chainId, m.ledger, m.pool[h], now) == Ok(after.ledger)
            && after.height == TipHeight(after.ledger.blocks)
  {
  }

  /** A submission that succeeds commits that very transaction and leaves it out of the pool. */
  lemma SubmitCommits(cfg: Config, chainId: U64, m: Memory, d: Disk, tx: Transaction, now: U64, io: Io)
    requires cfg.Valid() && PoolOk(cfg, m.pool)
    requires Submit(cfg, chainId, m, d, tx, now, io).2.Ok?
    ensures var (after, _, r) := Submit(cfg, chainId, m, d, tx, now, io);
            && r == Ok(tx.Hash()) && tx.Hash() !in after.pool
            && Commit(chainId, m.ledger, tx, now) == Ok(after.ledger)
            && after.height == TipHeight(after.ledger.blocks)
            && PoolOk(cfg, after.pool) && after.pool.Keys <= m.pool.Keys
  {
    AdmitKeeps(cfg, m.pool, tx);
    var admitted := Admit(cfg, m.pool, tx).0;
    assert tx.Hash() in admitted && admitted[tx.Hash()] == tx;
    SealCommits(chainId, m.(pool := admitted), d, tx.Hash(), now, io);
    SubPoolOk(cfg, admitted, admitted - {tx.Hash()});
  }

  /** The only writes: the disk after attempting to write `next`, and whether that succeeded. */
  ghost predicate WritesOnly(chainId: U64, next: Result<Ledger, CommitError>, d: Disk, io: Io, disk: Disk, ok: bool) {
    || (disk == d && !ok)
    || (next.Ok? && var (after, written) := PersistTo(chainId, d, Encoded(chainId, next.value), io);
        disk == after && ok == written.Ok?)
  }

  lemma SealWrites(chainId: U64, m: Memory, d: Disk, h: Hash, now: U64, io: Io)
    requires h in m.pool
    ensures var (_, disk, r) := SealNext(chainId, m, d, h, now, io);
            WritesOnly(chainId, Commit(chainId, m.ledger, m.pool[h], now), d, io, disk, r.Ok?)
  {
  }

  /** A submission touches the disk only by writing the ledger its commit produces. */
  lemma SubmitWrites(cfg: Config, chainId: U64, m: Memory, d: Disk, tx: Transaction, now: U64, io: Io)
    requires cfg.Valid() && PoolOk(cfg, m.pool)
    ensures var (_, disk, r) := Submit(cfg, chainId, m, d, tx, now, io);
            WritesOnly(chainId, Commit(chainId, m.ledger, tx, now), d, io, disk, r.Ok?)
  {
    AdmitKeeps(cfg, m.pool, tx);
    var (admitted, outcome) := Admit(cfg, m.pool, tx);
    if outcome.Ok? && outcome.value.accepted {
      assert outcome.value.hash in admitted && admitted[outcome.value.hash] == tx;
      SealWrites(chainId, m.(pool := admitted), d, outcome.value.hash, now, io);
    }
  }

  /** How a write can end: the file and what a crash may expose are untouched, or the new ledger is in place. */
  ghost predicate WriteEnds(d: Disk, after: Disk, c: Content, ok: bool) {
    && DiskOk(after)
    && (|| (!ok && after.target == d.target && after.exposed == d.exposed)
        || (&& c.Whole? && c.size <= MAX_LEDGER_BYTES
            && after.target == Some(c)
            && after.exposed == (if ok then {Some(c)} else d.exposed + {Some(c)})))
  }

  lemma PersistEnds(chainId: U64, d: Disk, s: LedgerSnapshot, io: Io)
    requires DiskOk(d) && s.chainId == chainId && s.state.chainId == chainId
    ensures var (after, r) := PersistTo(chainId, d, s, io); WriteEnds(d, after, Whole(s, io.size), r.Ok?)
  {
    WriteIsAtomic(d, Whole(s, io.size), StepsDone(io));
  }
}
