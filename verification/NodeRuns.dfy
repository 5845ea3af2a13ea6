/**
 Whole runs of a node on one data directory: any mix of starts, seedings, submissions, failed
 writes, killed processes and power losses, the last two also in the middle of a write.
 */
module NodeRuns {
  import opened Prelude
  import opened Core
  import opened WorldState
  import opened Mempool
  import opened LedgerFile
  import opened Ledger
  import opened LedgerLoads
  import opened CommitPath

  /**
   `settled` records that nothing unsynced was visible when the process started, or that it has
   completed a write since.
   */
  datatype Node = Node(disk: Disk, memory: Option<Memory>, settled: bool)

  const NEW_NODE := Node(FRESH_DISK, None, false)

  /** A write that may be interrupted. */
  datatype Write =
    | Seeding(allocations: seq<(Address, U128)>)
    | Committing(tx: Transaction, now: U64)

  datatype Event =
    | Start(allocations: seq<(Address, U128)>, io: Io)
    | SeedAccounts(allocations: seq<(Address, U128)>, io: Io)
    | SubmitTransaction(tx: Transaction, now: U64, io: Io)
    | IncludeTransaction(hash: Hash, now: U64, io: Io)
    | Kill
    | PowerLoss(survivor: Option<Content>)
    | Interrupt(write: Write, size: nat, steps: nat)

  /** The ledger an interrupted write was putting on disk. */
  ghost function InFlight(chainId: U64, m: Memory, w: Write): Option<Ledger> {
    match w
    case Seeding(allocations) =>
      if m.ledger.blocks == [] then Some(m.ledger.(world := SeedWorld(m.ledger.world, allocations))) else None
    case Committing(tx, now) =>
      match Commit(chainId, m.ledger, tx, now) case Ok(next) => Some(next) case Err(_) => None
  }

  ghost function AfterStart(chainId: U64, n: Node, allocations: seq<(Address, U128)>, io: Io): Node {
    var (disk, memory) := Boot(chainId, n.disk, allocations, io);
    Node(disk, memory, disk.exposed == {disk.target})
  }

  ghost function AfterSeed(chainId: U64, n: Node, m: Memory, allocations: seq<(Address, U128)>, io: Io): Node {
    var (after, disk, r) := Seed(chainId, m, n.disk, allocations, io);
    Node(disk, Some(after), n.settled || r.Ok?)
  }

  ghost function AfterSubmit(cfg: Config, chainId: U64, n: Node, m: Memory, tx: Transaction, now: U64, io: Io): Node
    requires cfg.Valid()
  {
    var (after, disk, r) := Submit(cfg, chainId, m, n.disk, tx, now, io);
    Node(disk, Some(after), n.settled || r.Ok?)
  }

  ghost function AfterInclude(chainId: U64, n: Node, m: Memory, hash: Hash, now: U64, io: Io): Node {
    var (after, disk, r) := SealNext(chainId, m, n.disk, hash, now, io);
    Node(disk, Some(after), n.settled || r.Ok?)
  }

  ghost function AfterInterrupt(chainId: U64, n: Node, next: Ledger, size: nat, steps: nat): Node
    requires steps <= |STEPS|
  {
    Node(AfterSteps(n.disk, Whole(Encoded(chainId, next), size), steps), None, false)
  }

  /** Seeding happens only while there are no blocks. */
  ghost function ApplySeed(chainId: U64, n: Node, allocations: seq<(Address, U128)>, io: Io): Node {
    if n.memory.None? || n.memory.value.ledger.blocks != [] then n
    else AfterSeed(chainId, n, n.memory.value, allocations, io)
  }

  ghost function ApplyInterrupt(chainId: U64, n: Node, write: Write, size: nat, steps: nat): Node {
    if n.memory.None? || steps > StepsDone(Io(size, None)) then n else
    match InFlight(chainId, n.memory.value, write)
    case None => n
    case Some(next) => AfterInterrupt(chainId, n, next, size, steps)
  }

  /** One event. One that does not apply, such as a submission to a node that is down, does nothing. */
  ghost function Apply(cfg: Config, chainId: U64, n: Node, e: Event): Node
    requires cfg.Valid()
  {
    match e
    case Start(allocations, io) =>
      if n.memory.Some? then n else AfterStart(chainId, n, allocations, io)
    case SeedAccounts(allocations, io) => ApplySeed(chainId, n, allocations, io)
    case SubmitTransaction(tx, now, io) =>
      if n.memory.None? then n else AfterSubmit(cfg, chainId, n, n.memory.value, tx, now, io)
    case IncludeTransaction(hash, now, io) =>
      if n.memory.None? then n else AfterInclude(chainId, n, n.memory.value, hash, now, io)
    case Kill => n.(memory := None)
    case PowerLoss(survivor) =>
      if survivor in n.disk.exposed then Node(Crash(n.disk, survivor), None, false) else n
    case Interrupt(write, size, steps) => ApplyInterrupt(chainId, n, write, size, steps)
  }

  ghost function Run(cfg: Config, chainId: U64, events: seq<Event>): Node
    requires cfg.Valid()
  {
    if events == [] then NEW_NODE else
      Apply(cfg, chainId, Run(cfg, chainId, events[..|events| - 1]), events[|events| - 1])
  }

  // ---------------------------------------------------------------- what every state of a run keeps

  ghost predicate HasHistory(chainId: U64, l: Ledger) {
    exists genesis :: History(chainId, genesis, l)
  }

  function Empty(chainId: U64): Ledger {
    Ledger(World(chainId, map[]), [], map[])
  }

  /** The file content records exactly the ledger `l`, which has a history. */
  ghost predicate Records(chainId: U64, c: Option<Content>, l: Ledger) {
    && HasHistory(chainId, l)
    && match c
       case None => l == Empty(chainId)
       case Some(Torn) => false
       case Some(Whole(s, size)) => size <= MAX_LEDGER_BYTES && s == Encoded(chainId, l)
  }

  ghost predicate Sound(chainId: U64, c: Option<Content>) {
    exists l :: Records(chainId, c, l)
  }

  ghost predicate OneCommitOn(chainId: U64, m: Ledger, l: Ledger) {
    exists tx, now :: Commit(chainId, m, tx, now) == Ok(l)
  }

  ghost predicate OneSeedOn(m: Ledger, l: Ledger) {
    m.blocks == [] && exists allocations :: l == m.(world := SeedWorld(m.world, allocations))
  }

  /** `l` is memory's ledger, or that plus the one block or seeding in flight. */
  ghost predicate Near(chainId: U64, m: Ledger, l: Ledger) {
    l == m || OneCommitOn(chainId, m, l) || OneSeedOn(m, l)
  }

  ghost predicate Backs(chainId: U64, m: Ledger, c: Option<Content>) {
    exists l :: Records(chainId, c, l) && Near(chainId, m, l)
  }

  ghost predicate MemoryOk(chainId: U64, m: Memory) {
    HasHistory(chainId, m.ledger) && m.pool == map[] && m.height == TipHeight(m.ledger.blocks)
  }

  ghost predicate AllSound(chainId: U64, d: Disk) {
    DiskOk(d) && forall c | c in d.exposed :: Sound(chainId, c)
  }

  ghost predicate AllBack(chainId: U64, m: Ledger, cs: set<Option<Content>>) {
    forall c | c in cs :: Backs(chainId, m, c)
  }

  ghost predicate Inv(chainId: U64, n: Node) {
    && AllSound(chainId, n.disk)
    && (n.memory.Some? ==>
          && MemoryOk(chainId, n.memory.value)
          && Backs(chainId, n.memory.value.ledger, n.disk.target)
          && (n.settled ==> AllBack(chainId, n.memory.value.ledger, n.disk.exposed)))
  }

  // ---------------------------------------------------------------- writes

  lemma WrittenRecords(chainId: U64, l: Ledger, size: nat)
    requires HasHistory(chainId, l) && size <= MAX_LEDGER_BYTES
    ensures Records(chainId, Some(Whole(Encoded(chainId, l), size)), l)
  {
  }

  /** However a write of `next` ends, the disk stays sound and keeps backing memory. */
  lemma WriteKeeps(chainId: U64, m: Ledger, next: Ledger, d: Disk, after: Disk, size: nat, ok: bool)
    requires AllSound(chainId, d) && HasHistory(chainId, next)
    requires WriteEnds(d, after, Whole(Encoded(chainId, next), size), ok)
    ensures AllSound(chainId, after)
    ensures Near(chainId, m, next) && Backs(chainId, m, d.target) ==> Backs(chainId, m, after.target)
    ensures Near(chainId, m, next) && AllBack(chainId, m, d.exposed) ==> AllBack(chainId, m, after.exposed)
    ensures ok ==> Backs(chainId, next, after.target) && AllBack(chainId, next, after.exposed)
  {
    var c := Some(Whole(Encoded(chainId, next), size));
    if size <= MAX_LEDGER_BYTES {
      WrittenRecords(chainId, next, size);
      assert Sound(chainId, c);
      assert Near(chainId, m, next) ==> Backs(chainId, m, c);
      assert Near(chainId, next, next) && Backs(chainId, next, c);
    }
  }

  lemma SnapshotChainIds(chainId: U64, l: Ledger)
    requires HasHistory(chainId, l)
    ensures Encoded(chainId, l).chainId == chainId && Encoded(chainId, l).state.chainId == chainId
  {
    var genesis :| History(chainId, genesis, l);
    ChainIdFixed(genesis, Txs(l.blocks));
  }

  lemma CommitHasHistory(chainId: U64, l: Ledger, tx: Transaction, now: U64)
    requires HasHistory(chainId, l) && Commit(chainId, l, tx, now).Ok?
    ensures HasHistory(chainId, Commit(chainId, l, tx, now).value)
    ensures Near(chainId, l, Commit(chainId, l, tx, now).value)
  {
    var genesis :| History(chainId, genesis, l);
    CommitKeepsHistory(chainId, genesis, l, tx, now);
  }

  lemma SeedHasHistory(chainId: U64, l: Ledger, allocations: seq<(Address, U128)>)
    requires HasHistory(chainId, l) && l.blocks == []
    ensures var next := l.(world := SeedWorld(l.world, allocations));
            HasHistory(chainId, next) && Near(chainId, l, next)
  {
    var genesis :| History(chainId, genesis, l);
    assert l == Ledger(genesis, [], map[]);
    SeedHistory(chainId, genesis, allocations);
  }

  // ---------------------------------------------------------------- one lemma per event

  lemma SealKeeps(chainId: U64, m: Memory, d: Disk, tx: Transaction, now: U64, io: Io)
    requires HasHistory(chainId, m.ledger) && AllSound(chainId, d) && Commit(chainId, m.ledger, tx, now).Ok?
    ensures var next := Commit(chainId, m.ledger, tx, now).value;
            var (after, r) := PersistTo(chainId, d, Encoded(chainId, next), io);
            && HasHistory(chainId, next) && AllSound(chainId, after)
            && (Backs(chainId, m.ledger, d.target) ==> Backs(chainId, m.ledger, after.target))
            && (AllBack(chainId, m.ledger, d.exposed) ==> AllBack(chainId, m.ledger, after.exposed))
            && (r.Ok? ==> Backs(chainId, next, after.target) && AllBack(chainId, next, after.exposed))
  {
    var next := Commit(chainId, m.ledger, tx, now).value;
    CommitHasHistory(chainId, m.ledger, tx, now);
    SnapshotChainIds(chainId, next);
    PersistEnds(chainId, d, Encoded(chainId, next), io);
    var (after, r) := PersistTo(chainId, d, Encoded(chainId, next), io);
    WriteKeeps(chainId, m.ledger, next, d, after, io.size, r.Ok?);
  }

  lemma EmptyPoolOk(cfg: Config)
    requires cfg.Valid()
    ensures PoolOk(cfg, map[])
  {
    assert forall s :: Queue(map[], s) == {};
  }

  /** What an operation on a running node keeps. */
  ghost predicate Keeps(chainId: U64, m: Memory, d: Disk, after: Memory, disk: Disk, ok: bool) {
    && MemoryOk(chainId, after) && AllSound(chainId, disk)
    && (Backs(chainId, m.ledger, d.target) ==> Backs(chainId, after.ledger, disk.target))
    && (AllBack(chainId, m.ledger, d.exposed) ==> AllBack(chainId, after.ledger, disk.exposed))
    && (ok ==> Backs(chainId, after.ledger, disk.target) && AllBack(chainId, after.ledger, disk.exposed))
  }

  lemma FailedSubmitKeeps(cfg: Config, chainId: U64, m: Memory, d: Disk, tx: Transaction, now: U64, io: Io)
    requires cfg.Valid() && MemoryOk(chainId, m) && AllSound(chainId, d)
    requires Submit(cfg, chainId, m, d, tx, now, io).2.Err?
    ensures var (after, disk, r) := Submit(cfg, chainId, m, d, tx, now, io); Keeps(chainId, m, d, after, disk, false)
  {
    EmptyPoolOk(cfg);
    FailedSubmitKeepsMemory(cfg, chainId, m, d, tx, now, io);
    SubmitWrites(cfg, chainId, m, d, tx, now, io);
    if Submit(cfg, chainId, m, d, tx, now, io).1 != d {
      SealKeeps(chainId, m, d, tx, now, io);
    }
  }

  lemma SubmitOkKeeps(cfg: Config, chainId: U64, m: Memory, d: Disk, tx: Transaction, now: U64, io: Io)
    requires cfg.Valid() && MemoryOk(chainId, m) && AllSound(chainId, d)
    requires Submit(cfg, chainId, m, d, tx, now, io).2.Ok?
    ensures var (after, disk, r) := Submit(cfg, chainId, m, d, tx, now, io); Keeps(chainId, m, d, after, disk, true)
  {
    EmptyPoolOk(cfg);
    SubmitWrites(cfg, chainId, m, d, tx, now, io);
    SubmitCommits(cfg, chainId, m, d, tx, now, io);
    SealKeeps(chainId, m, d, tx, now, io);
  }

  lemma KeepsInv(chainId: U64, n: Node, after: Memory, disk: Disk, ok: bool)
    requires Inv(chainId, n) && n.memory.Some? && Keeps(chainId, n.memory.value, n.disk, after, disk, ok)
    ensures Inv(chainId, Node(disk, Some(after), n.settled || ok))
  {
  }

  lemma SubmitKeeps(cfg: Config, chainId: U64, n: Node, tx: Transaction, now: U64, io: Io)
    requires cfg.Valid() && Inv(chainId, n) && n.memory.Some?
    ensures Inv(chainId, AfterSubmit(cfg, chainId, n, n.memory.value, tx, now, io))
  {
    var m := n.memory.value;
    var (after, disk, r) := Submit(cfg, chainId, m, n.disk, tx, now, io);
    if r.Ok? {
      SubmitOkKeeps(cfg, chainId, m, n.disk, tx, now, io);
    } else {
      FailedSubmitKeeps(cfg, chainId, m, n.disk, tx, now, io);
    }
    KeepsInv(chainId, n, after, disk, r.Ok?);
  }

  lemma SeedingKeeps(chainId: U64, m: Memory, d: Disk, allocations: seq<(Address, U128)>, io: Io)
    requires MemoryOk(chainId, m) && m.ledger.blocks == [] && AllSound(chainId, d)
    ensures var (after, disk, r) := Seed(chainId, m, d, allocations, io); Keeps(chainId, m, d, after, disk, r.Ok?)
  {
    var next := m.ledger.(world := SeedWorld(m.ledger.world, allocations));
    SeedHasHistory(chainId, m.ledger, allocations);
    SnapshotChainIds(chainId, next);
    PersistEnds(chainId, d, Encoded(chainId, next), io);
    var (after, r) := PersistTo(chainId, d, Encoded(chainId, next), io);
    WriteKeeps(chainId, m.ledger, next, d, after, io.size, r.Ok?);
  }

  /** Loading a recorded ledger gives that ledger back. */
  lemma LoadsRecorded(chainId: U64, c: Option<Content>, l: Ledger)
    requires Records(chainId, c, l)
    ensures LoadFile(chainId, c).Some? && Loaded(LoadFile(chainId, c).value) == l
    ensures LoadFile(chainId, c).value.blocks == l.blocks
  {
    var genesis :| History(chainId, genesis, l);
    match c {
      case None =>
      case Some(Whole(s, size)) =>
        WrittenLoads(chainId, genesis, l, size);
    }
  }

  lemma BootKeeps(chainId: U64, d: Disk, allocations: seq<(Address, U128)>, io: Io)
    requires AllSound(chainId, d)
    ensures var (disk, memory) := Boot(chainId, d, allocations, io);
            && AllSound(chainId, disk)
            && (memory.Some? ==> MemoryOk(chainId, memory.value) && Backs(chainId, memory.value.ledger, disk.target))
  {
    assert Sound(chainId, d.target);
    var l :| Records(chainId, d.target, l);
    LoadsRecorded(chainId, d.target, l);
    assert Near(chainId, l, l) && Backs(chainId, l, d.target);
    if d.target.None? && allocations != [] {
      SeedingKeeps(chainId, Started(LoadFile(chainId, d.target).value), d, allocations, io);
    }
  }

  lemma StartKeeps(chainId: U64, n: Node, allocations: seq<(Address, U128)>, io: Io)
    requires Inv(chainId, n)
    ensures Inv(chainId, AfterStart(chainId, n, allocations, io))
  {
    BootKeeps(chainId, n.disk, allocations, io);
  }

  lemma SeedKeeps(chainId: U64, n: Node, allocations: seq<(Address, U128)>, io: Io)
    requires Inv(chainId, n) && n.memory.Some? && n.memory.value.ledger.blocks == []
    ensures Inv(chainId, AfterSeed(chainId, n, n.memory.value, allocations, io))
  {
    SeedingKeeps(chainId, n.memory.value, n.disk, allocations, io);
    var (after, disk, r) := Seed(chainId, n.memory.value, n.disk, allocations, io);
    KeepsInv(chainId, n, after, disk, r.Ok?);
  }

  lemma InFlightHasHistory(chainId: U64, m: Memory, write: Write)
    requires HasHistory(chainId, m.ledger) && InFlight(chainId, m, write).Some?
    ensures HasHistory(chainId, InFlight(chainId, m, write).value)
  {
    match write {
      case Seeding(allocations) => SeedHasHistory(chainId, m.ledger, allocations);
      case Committing(tx, now) => CommitHasHistory(chainId, m.ledger, tx, now);
    }
  }

  lemma StoppedWriteKeeps(chainId: U64, d: Disk, next: Ledger, size: nat, steps: nat)
    requires AllSound(chainId, d) && HasHistory(chainId, next) && steps <= StepsDone(Io(size, None))
    ensures AllSound(chainId, AfterSteps(d, Whole(Encoded(chainId, next), size), steps))
  {
    WriteIsAtomic(d, Whole(Encoded(chainId, next), size), steps);
    if size <= MAX_LEDGER_BYTES {
      WrittenRecords(chainId, next, size);
      assert Sound(chainId, Some(Whole(Encoded(chainId, next), size)));
    }
  }

  lemma InterruptKeeps(chainId: U64, n: Node, write: Write, size: nat, steps: nat)
    requires Inv(chainId, n) && n.memory.Some? && InFlight(chainId, n.memory.value, write).Some?
    requires steps <= StepsDone(Io(size, None))
    ensures Inv(chainId, AfterInterrupt(chainId, n, InFlight(chainId, n.memory.value, write).value, size, steps))
  {
    InFlightHasHistory(chainId, n.memory.value, write);
    StoppedWriteKeeps(chainId, n.disk, InFlight(chainId, n.memory.value, write).value, size, steps);
  }

  // ---------------------------------------------------------------- the theorems

  lemma StepKeeps(cfg: Config, chainId: U64, n: Node, e: Event)
    requires cfg.Valid() && Inv(chainId, n)
    ensures Inv(chainId, Apply(cfg, chainId, n, e))
  {
    match e {
      case Start(allocations, io) =>
        if n.memory.None? { StartKeeps(chainId, n, allocations, io); }
      case SeedAccounts(allocations, io) =>
        if n.memory.Some? && n.memory.value.ledger.blocks == [] { SeedKeeps(chainId, n, allocations, io); }
      case SubmitTransaction(tx, now, io) =>
        if n.memory.Some? { SubmitKeeps(cfg, chainId, n, tx, now, io); }
      case IncludeTransaction(hash, now, io) =>
      case Kill =>
      case PowerLoss(survivor) =>
      case Interrupt(write, size, steps) =>
        if n.memory.Some? && InFlight(chainId, n.memory.value, write).Some? && steps <= StepsDone(Io(size, None)) {
          InterruptKeeps(chainId, n, write, size, steps);
        }
    }
  }

  lemma {:induction false} RunKeeps(cfg: Config, chainId: U64, events: seq<Event>)
    requires cfg.Valid() && chainId != 0
    ensures Inv(chainId, Run(cfg, chainId, events))
  {
    if events == [] {
      GenesisHistory(chainId, World(chainId, map[]));
      assert Records(chainId, None, Empty(chainId));
      assert Sound(chainId, None);
    } else {
      RunKeeps(cfg, chainId, events[..|events| - 1]);
      StepKeeps(cfg, chainId, Run(cfg, chainId, events[..|events| - 1]), events[|events| - 1]);
    }
  }

  /**
   At every moment of every run, whatever content a crash leaves in the ledger file is accepted by
   validation, and loading it gives back exactly a ledger the node had produced: one with a history.
   */
  lemma EveryFileLoads(cfg: Config, chainId: U64, events: seq<Event>, c: Option<Content>)
    requires cfg.Valid() && chainId != 0 && c in Run(cfg, chainId, events).disk.exposed
    ensures exists l :: HasHistory(chainId, l) && Records(chainId, c, l)
                        && LoadFile(chainId, c).Some? && Loaded(LoadFile(chainId, c).value) == l
  {
    RunKeeps(cfg, chainId, events);
    assert Sound(chainId, c);
    var l :| Records(chainId, c, l);
    LoadsRecorded(chainId, c, l);
  }

  ghost predicate NotBehind(m: Ledger, l: Ledger) {
    |m.blocks| <= |l.blocks| <= |m.blocks| + 1 && m.blocks <= l.blocks
  }

  lemma NearIsNotBehind(chainId: U64, m: Ledger, l: Ledger)
    requires HasHistory(chainId, m) && Near(chainId, m, l)
    ensures NotBehind(m, l)
  {
    var genesis :| History(chainId, genesis, m);
    if OneCommitOn(chainId, m, l) {
      var tx, now :| Commit(chainId, m, tx, now) == Ok(l);
      CommitKeepsHistory(chainId, genesis, m, tx, now);
    }
  }

  /**
   While a node runs, the visible file holds its whole ledger, or that and the one block or seeding
   in flight. The same is true of everything a power loss could leave, provided the node started
   with nothing unsynced or has completed a write since.
   */
  lemma MemoryNeverAhead(cfg: Config, chainId: U64, events: seq<Event>, c: Option<Content>)
    requires cfg.Valid() && chainId != 0
    requires var n := Run(cfg, chainId, events);
             n.memory.Some? && (c == n.disk.target || (n.settled && c in n.disk.exposed))
    ensures LoadFile(chainId, c).Some?
    ensures Near(chainId, Run(cfg, chainId, events).memory.value.ledger, Loaded(LoadFile(chainId, c).value))
    ensures NotBehind(Run(cfg, chainId, events).memory.value.ledger, Loaded(LoadFile(chainId, c).value))
  {
    RunKeeps(cfg, chainId, events);
    var m := Run(cfg, chainId, events).memory.value.ledger;
    assert Backs(chainId, m, c);
    var l :| Records(chainId, c, l) && Near(chainId, m, l);
    LoadsRecorded(chainId, c, l);
    NearIsNotBehind(chainId, m, l);
  }

  /** The pool is only ever a stage on the way to a block: between operations it is empty. */
  lemma NothingStaysPending(cfg: Config, chainId: U64, events: seq<Event>)
    requires cfg.Valid() && chainId != 0
    ensures var n := Run(cfg, chainId, events); n.memory.Some? ==> n.memory.value.pool == map[]
  {
    RunKeeps(cfg, chainId, events);
  }

  lemma RunSnoc(cfg: Config, chainId: U64, events: seq<Event>, e: Event)
    requires cfg.Valid()
    ensures Run(cfg, chainId, events + [e]) == Apply(cfg, chainId, Run(cfg, chainId, events), e)
  {
    assert (events + [e])[..|events|] == events;
  }
}
