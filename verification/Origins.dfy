/**
 Where the balances of a run come from: the genesis every ledger starts at is made of the
 allocations the run was given and of nothing else.
 */
module Origins {
  import opened Prelude
  import opened Core
  import opened WorldState
  import opened Mempool
  import opened LedgerFile
  import opened Ledger
  import opened LedgerLoads
  import opened CommitPath
  import opened NodeRuns

  type Allocations = seq<(Address, U128)>

  function Blank(chainId: U64): World {
    World(chainId, map[])
  }

  /** The allocations an event would seed. */
  function SeedingOf(e: Event): Option<Allocations> {
    match e
    case Start(a, _) => Some(a)
    case SeedAccounts(a, _) => Some(a)
    case Interrupt(Seeding(a), _, _) => Some(a)
    case _ => None
  }

  /** Every seeding of the run uses one of these allocation lists. */
  ghost predicate SeedsOnly(events: seq<Event>, lists: set<Allocations>) {
    forall i | 0 <= i < |events| && SeedingOf(events[i]).Some? :: SeedingOf(events[i]).value in lists
  }

  function SeedAll(w: World, lists: seq<Allocations>): World {
    if lists == [] then w else SeedWorld(SeedAll(w, lists[..|lists| - 1]), lists[|lists| - 1])
  }

  // ---------------------------------------------------------------- what every event keeps

  /** `l` has a history from a genesis that `ok` admits. */
  ghost predicate Rooted(chainId: U64, ok: World -> bool, l: Ledger) {
    exists genesis :: ok(genesis) && History(chainId, genesis, l)
  }

  ghost predicate Stored(chainId: U64, ok: World -> bool, c: Option<Content>) {
    exists l :: Records(chainId, c, l) && Rooted(chainId, ok, l)
  }

  /** Every file content is rooted; `blank` says whether the file may still be missing. */
  ghost predicate DiskOrigin(chainId: U64, ok: World -> bool, blank: bool, cs: set<Option<Content>>) {
    forall c | c in cs :: if c.None? then blank else Stored(chainId, ok, c)
  }

  ghost predicate Origin(chainId: U64, ok: World -> bool, blank: bool, n: Node) {
    DiskOrigin(chainId, ok, blank, n.disk.exposed) && (n.memory.Some? ==> Rooted(chainId, ok, n.memory.value.ledger))
  }

  ghost predicate Reseeds(ok: World -> bool, a: Allocations) {
    forall w | ok(w) :: ok(SeedWorld(w, a))
  }

  /** What the event may seed leads from admitted worlds to admitted worlds. */
  ghost predicate Permits(chainId: U64, ok: World -> bool, blank: bool, e: Event) {
    match e
    case Start(a, _) => blank ==> ok(SeedWorld(Blank(chainId), a))
    case SeedAccounts(a, _) => Reseeds(ok, a)
    case Interrupt(Seeding(a), _, _) => Reseeds(ok, a)
    case _ => true
  }

  lemma RootedHasHistory(chainId: U64, ok: World -> bool, l: Ledger)
    requires Rooted(chainId, ok, l)
    ensures HasHistory(chainId, l)
  {
  }

  lemma CommitRooted(chainId: U64, ok: World -> bool, l: Ledger, tx: Transaction, now: U64)
    requires Rooted(chainId, ok, l) && Commit(chainId, l, tx, now).Ok?
    ensures Rooted(chainId, ok, Commit(chainId, l, tx, now).value)
  {
    var genesis :| ok(genesis) && History(chainId, genesis, l);
    CommitKeepsHistory(chainId, genesis, l, tx, now);
  }

  lemma SeedRooted(chainId: U64, ok: World -> bool, l: Ledger, a: Allocations)
    requires Rooted(chainId, ok, l) && l.blocks == [] && Reseeds(ok, a)
    ensures Rooted(chainId, ok, l.(world := SeedWorld(l.world, a)))
  {
    var genesis :| ok(genesis) && History(chainId, genesis, l);
    assert l == Ledger(genesis, [], map[]);
    SeedHistory(chainId, genesis, a);
  }

  lemma FirstSeedRooted(chainId: U64, ok: World -> bool, a: Allocations)
    requires chainId != 0 && ok(SeedWorld(Blank(chainId), a))
    ensures Rooted(chainId, ok, Ledger(SeedWorld(Blank(chainId), a), [], map[]))
  {
    GenesisHistory(chainId, Blank(chainId));
    SeedHistory(chainId, Blank(chainId), a);
  }

  lemma WrittenStored(chainId: U64, ok: World -> bool, next: Ledger, size: nat)
    requires Rooted(chainId, ok, next) && size <= MAX_LEDGER_BYTES
    ensures Stored(chainId, ok, Some(Whole(Encoded(chainId, next), size)))
  {
    RootedHasHistory(chainId, ok, next);
    WrittenRecords(chainId, next, size);
  }

  lemma WriteOrigin(chainId: U64, ok: World -> bool, blank: bool, next: Ledger, d: Disk, io: Io)
    requires Rooted(chainId, ok, next) && DiskOk(d) && DiskOrigin(chainId, ok, blank, d.exposed)
    ensures DiskOrigin(chainId, ok, blank, PersistTo(chainId, d, Encoded(chainId, next), io).0.exposed)
  {
    RootedHasHistory(chainId, ok, next);
    SnapshotChainIds(chainId, next);
    PersistEnds(chainId, d, Encoded(chainId, next), io);
    if io.size <= MAX_LEDGER_BYTES {
      WrittenStored(chainId, ok, next, io.size);
    }
  }

  lemma SubmitDiskOrigin(
    cfg: Config, chainId: U64, ok: World -> bool, blank: bool, m: Memory, d: Disk, tx: Transaction, now: U64, io: Io)
    requires cfg.Valid() && m.pool == map[] && Rooted(chainId, ok, m.ledger)
    requires DiskOk(d) && DiskOrigin(chainId, ok, blank, d.exposed)
    ensures DiskOrigin(chainId, ok, blank, Submit(cfg, chainId, m, d, tx, now, io).1.exposed)
  {
    EmptyPoolOk(cfg);
    SubmitWrites(cfg, chainId, m, d, tx, now, io);
    if Commit(chainId, m.ledger, tx, now).Ok? {
      CommitRooted(chainId, ok, m.ledger, tx, now);
      WriteOrigin(chainId, ok, blank, Commit(chainId, m.ledger, tx, now).value, d, io);
    }
  }

  lemma SubmitMemoryOrigin(
    cfg: Config, chainId: U64, ok: World -> bool, m: Memory, d: Disk, tx: Transaction, now: U64, io: Io)
    requires cfg.Valid() && m.pool == map[] && Rooted(chainId, ok, m.ledger)
    ensures Rooted(chainId, ok, Submit(cfg, chainId, m, d, tx, now, io).0.ledger)
  {
    EmptyPoolOk(cfg);
    if Submit(cfg, chainId, m, d, tx, now, io).2.Ok? {
      SubmitCommits(cfg, chainId, m, d, tx, now, io);
      CommitRooted(chainId, ok, m.ledger, tx, now);
    } else {
      FailedSubmitKeepsMemory(cfg, chainId, m, d, tx, now, io);
    }
  }

  lemma SeedOrigin(chainId: U64, ok: World -> bool, blank: bool, m: Memory, d: Disk, a: Allocations, io: Io)
    requires Rooted(chainId, ok, m.ledger.(world := SeedWorld(m.ledger.world, a)))
    requires DiskOk(d) && DiskOrigin(chainId, ok, blank, d.exposed)
    ensures DiskOrigin(chainId, ok, blank, Seed(chainId, m, d, a, io).1.exposed)
    ensures Seed(chainId, m, d, a, io).2.Ok? ==> Rooted(chainId, ok, Seed(chainId, m, d, a, io).0.ledger)
  {
    WriteOrigin(chainId, ok, blank, m.ledger.(world := SeedWorld(m.ledger.world, a)), d, io);
  }

  /** A start on a missing file begins at the allocations it was given. */
  lemma FirstStartOrigin(chainId: U64, ok: World -> bool, n: Node, a: Allocations, io: Io)
    requires chainId != 0 && n.disk.target.None? && DiskOk(n.disk) && DiskOrigin(chainId, ok, true, n.disk.exposed)
    requires ok(SeedWorld(Blank(chainId), a))
    ensures Origin(chainId, ok, true, AfterStart(chainId, n, a, io))
  {
    var m := Started(LoadFile(chainId, n.disk.target).value);
    assert m.ledger == Ledger(Blank(chainId), [], map[]);
    FirstSeedRooted(chainId, ok, a);
    SeedOrigin(chainId, ok, true, m, n.disk, a, io);
  }

  lemma LaterStartOrigin(chainId: U64, ok: World -> bool, blank: bool, n: Node, a: Allocations, io: Io)
    requires n.disk.target.Some? && DiskOk(n.disk) && DiskOrigin(chainId, ok, blank, n.disk.exposed)
    ensures Origin(chainId, ok, blank, AfterStart(chainId, n, a, io))
  {
    assert Stored(chainId, ok, n.disk.target);
    var l :| Records(chainId, n.disk.target, l) && Rooted(chainId, ok, l);
    LoadsRecorded(chainId, n.disk.target, l);
  }

  lemma InterruptOrigin(chainId: U64, ok: World -> bool, blank: bool, n: Node, write: Write, size: nat, steps: nat)
    requires Inv(chainId, n) && Origin(chainId, ok, blank, n) && n.memory.Some? && steps <= StepsDone(Io(size, None))
    requires Permits(chainId, ok, blank, Interrupt(write, size, steps)) && InFlight(chainId, n.memory.value, write).Some?
    ensures Origin(chainId, ok, blank, AfterInterrupt(chainId, n, InFlight(chainId, n.memory.value, write).value, size, steps))
  {
    var l, next := n.memory.value.ledger, InFlight(chainId, n.memory.value, write).value;
    match write {
      case Seeding(a) => SeedRooted(chainId, ok, l, a);
      case Committing(tx, now) => CommitRooted(chainId, ok, l, tx, now);
    }
    WriteIsAtomic(n.disk, Whole(Encoded(chainId, next), size), steps);
    if size <= MAX_LEDGER_BYTES {
      WrittenStored(chainId, ok, next, size);
    }
  }

  lemma SeedStepOrigin(chainId: U64, ok: World -> bool, blank: bool, n: Node, a: Allocations, io: Io)
    requires DiskOk(n.disk) && Origin(chainId, ok, blank, n) && Reseeds(ok, a)
    requires n.memory.Some? && n.memory.value.ledger.blocks == []
    ensures Origin(chainId, ok, blank, AfterSeed(chainId, n, n.memory.value, a, io))
  {
    SeedRooted(chainId, ok, n.memory.value.ledger, a);
    SeedOrigin(chainId, ok, blank, n.memory.value, n.disk, a, io);
  }

  lemma SubmitStepOrigin(cfg: Config, chainId: U64, ok: World -> bool, blank: bool, n: Node, tx: Transaction, now: U64, io: Io)
    requires cfg.Valid() && Inv(chainId, n) && Origin(chainId, ok, blank, n) && n.memory.Some?
    ensures Origin(chainId, ok, blank, AfterSubmit(cfg, chainId, n, n.memory.value, tx, now, io))
  {
    SubmitDiskOrigin(cfg, chainId, ok, blank, n.memory.value, n.disk, tx, now, io);
    SubmitMemoryOrigin(cfg, chainId, ok, n.memory.value, n.disk, tx, now, io);
  }

  lemma StartStepOrigin(chainId: U64, ok: World -> bool, blank: bool, n: Node, a: Allocations, io: Io)
    requires chainId != 0 && DiskOk(n.disk) && Origin(chainId, ok, blank, n)
    requires blank ==> ok(SeedWorld(Blank(chainId), a))
    ensures Origin(chainId, ok, blank, AfterStart(chainId, n, a, io))
  {
    if n.disk.target.None? {
      assert n.disk.target in n.disk.exposed;
      FirstStartOrigin(chainId, ok, n, a, io);
    } else {
      LaterStartOrigin(chainId, ok, blank, n, a, io);
    }
  }

  lemma StoppedOrigin(chainId: U64, ok: World -> bool, blank: bool, n: Node, write: Write, size: nat, steps: nat)
    requires Inv(chainId, n) && Origin(chainId, ok, blank, n) && Permits(chainId, ok, blank, Interrupt(write, size, steps))
    ensures Origin(chainId, ok, blank, ApplyInterrupt(chainId, n, write, size, steps))
  {
    if n.memory.Some? && InFlight(chainId, n.memory.value, write).Some? && steps <= StepsDone(Io(size, None)) {
      InterruptOrigin(chainId, ok, blank, n, write, size, steps);
    }
  }

  lemma SeedingOrigin(chainId: U64, ok: World -> bool, blank: bool, n: Node, a: Allocations, io: Io)
    requires DiskOk(n.disk) && Origin(chainId, ok, blank, n) && Reseeds(ok, a)
    ensures Origin(chainId, ok, blank, ApplySeed(chainId, n, a, io))
  {
    if n.memory.Some? && n.memory.value.ledger.blocks == [] {
      SeedStepOrigin(chainId, ok, blank, n, a, io);
    }
  }

  lemma StepOrigin(cfg: Config, chainId: U64, ok: World -> bool, blank: bool, n: Node, e: Event)
    requires cfg.Valid() && chainId != 0 && Inv(chainId, n) && Origin(chainId, ok, blank, n) && Permits(chainId, ok, blank, e)
    ensures Origin(chainId, ok, blank, Apply(cfg, chainId, n, e))
  {
    if e.Start? && n.memory.None? {
      StartStepOrigin(chainId, ok, blank, n, e.allocations, e.io);
      assert Apply(cfg, chainId, n, e) == AfterStart(chainId, n, e.allocations, e.io);
    } else if e.SeedAccounts? {
      SeedingOrigin(chainId, ok, blank, n, e.allocations, e.io);
      assert Apply(cfg, chainId, n, e) == ApplySeed(chainId, n, e.allocations, e.io);
    } else if e.SubmitTransaction? && n.memory.Some? {
      SubmitStepOrigin(cfg, chainId, ok, blank, n, e.tx, e.now, e.io);
      assert Apply(cfg, chainId, n, e) == AfterSubmit(cfg, chainId, n, n.memory.value, e.tx, e.now, e.io);
    } else if e.Interrupt? {
      StoppedOrigin(chainId, ok, blank, n, e.write, e.size, e.steps);
      assert Apply(cfg, chainId, n, e) == ApplyInterrupt(chainId, n, e.write, e.size, e.steps);
    }
  }

  ghost predicate AllPermitted(chainId: U64, ok: World -> bool, blank: bool, events: seq<Event>) {
    forall i | 0 <= i < |events| :: Permits(chainId, ok, blank, events[i])
  }

  lemma NextOrigin(cfg: Config, chainId: U64, ok: World -> bool, blank: bool, events: seq<Event>, e: Event)
    requires cfg.Valid() && chainId != 0 && Origin(chainId, ok, blank, Run(cfg, chainId, events))
    requires Permits(chainId, ok, blank, e)
    ensures Origin(chainId, ok, blank, Run(cfg, chainId, events + [e]))
  {
    RunKeeps(cfg, chainId, events);
    StepOrigin(cfg, chainId, ok, blank, Run(cfg, chainId, events), e);
    RunSnoc(cfg, chainId, events, e);
  }

  /** From any point of a run on, permitted events keep the origin. */
  lemma {:induction false} StaysRooted(
    cfg: Config, chainId: U64, ok: World -> bool, blank: bool, before: seq<Event>, later: seq<Event>)
    requires cfg.Valid() && chainId != 0 && Origin(chainId, ok, blank, Run(cfg, chainId, before))
    requires AllPermitted(chainId, ok, blank, later)
    ensures Origin(chainId, ok, blank, Run(cfg, chainId, before + later))
  {
    if later == [] {
      assert before + later == before;
    } else {
      var front, last := later[..|later| - 1], later[|later| - 1];
      StaysRooted(cfg, chainId, ok, blank, before, front);
      NextOrigin(cfg, chainId, ok, blank, before + front, last);
      assert before + later == before + front + [last];
    }
  }

  lemma RunRooted(cfg: Config, chainId: U64, ok: World -> bool, events: seq<Event>)
    requires cfg.Valid() && chainId != 0 && AllPermitted(chainId, ok, true, events)
    ensures Origin(chainId, ok, true, Run(cfg, chainId, events))
  {
    StaysRooted(cfg, chainId, ok, true, [], events);
    assert [] + events == events;
  }

  // ---------------------------------------------------------------- the laws of a ledger

  /** The laws of a committed ledger, measured from the genesis its history starts at. */
  ghost predicate Lawful(genesis: World, l: Ledger) {
    && Single(l.blocks)
    && (forall a :: NoncesOf(Txs(l.blocks), a) == Range(0, l.world.Nonce(a)))
    && |l.receipts| == |l.blocks|
    && Supply(l.world) + Fees(Txs(l.blocks)) == Supply(genesis)
    && (Supply(genesis) <= U128_MAX ==>
          forall tx :: !(Execute(l.world, tx).Err? && Execute(l.world, tx).error.BalanceOverflow?))
  }

  lemma HistoryIsLawful(chainId: U64, genesis: World, l: Ledger)
    requires History(chainId, genesis, l)
    ensures Lawful(genesis, l)
  {
    forall a ensures NoncesOf(Txs(l.blocks), a) == Range(0, l.world.Nonce(a)) {
      LedgerLaws(chainId, genesis, l, a);
    }
    LedgerLaws(chainId, genesis, l, 0);
    if Supply(genesis) <= U128_MAX {
      forall tx ensures !(Execute(l.world, tx).Err? && Execute(l.world, tx).error.BalanceOverflow?) {
        SupplyBoundsCredits(genesis, Txs(l.blocks), tx);
      }
    }
  }

  ghost predicate AllIn(lists: seq<Allocations>, given: set<Allocations>) {
    forall i | 0 <= i < |lists| :: lists[i] in given
  }

  /** `w` is what some of the given lists, in some order, make of a blank world. */
  ghost predicate Seeded(chainId: U64, given: set<Allocations>, w: World) {
    exists lists :: AllIn(lists, given) && w == SeedAll(Blank(chainId), lists)
  }

  lemma SeedMore(chainId: U64, given: set<Allocations>, w: World, a: Allocations)
    requires Seeded(chainId, given, w) && a in given
    ensures Seeded(chainId, given, SeedWorld(w, a))
  {
    var lists :| AllIn(lists, given) && w == SeedAll(Blank(chainId), lists);
    var more := lists + [a];
    assert more[..|lists|] == lists;
    assert AllIn(more, given) && SeedWorld(w, a) == SeedAll(Blank(chainId), more);
  }

  lemma GivenPermitted(chainId: U64, given: set<Allocations>, e: Event)
    requires SeedingOf(e).Some? ==> SeedingOf(e).value in given
    ensures Permits(chainId, w => Seeded(chainId, given, w), true, e)
  {
    assert SeedAll(Blank(chainId), []) == Blank(chainId) && AllIn([], given);
    if SeedingOf(e).Some? {
      forall w | Seeded(chainId, given, w) ensures Seeded(chainId, given, SeedWorld(w, SeedingOf(e).value)) {
        SeedMore(chainId, given, w, SeedingOf(e).value);
      }
    }
  }

  /**
   In every run: the ledger is what its transactions make of a genesis seeded with the run's own
   allocation lists and nothing else. Measured from there, each sender's committed nonces are
   0, 1, 2, ... in block order, there is exactly one receipt per block, balances plus fees add up
   to the genesis supply, and a genesis supply that fits in 128 bits rules out balance overflow.
   */
  lemma RunIsLawful(cfg: Config, chainId: U64, events: seq<Event>, given: set<Allocations>)
    requires cfg.Valid() && chainId != 0 && SeedsOnly(events, given) && Run(cfg, chainId, events).memory.Some?
    ensures var l := Run(cfg, chainId, events).memory.value.ledger;
            exists lists :: AllIn(lists, given)
                            && History(chainId, SeedAll(Blank(chainId), lists), l)
                            && Lawful(SeedAll(Blank(chainId), lists), l)
  {
    var ok := w => Seeded(chainId, given, w);
    forall i | 0 <= i < |events| ensures Permits(chainId, ok, true, events[i]) {
      GivenPermitted(chainId, given, events[i]);
    }
    RunRooted(cfg, chainId, ok, events);
    var l := Run(cfg, chainId, events).memory.value.ledger;
    var genesis :| ok(genesis) && History(chainId, genesis, l);
    HistoryIsLawful(chainId, genesis, l);
    var lists :| AllIn(lists, given) && genesis == SeedAll(Blank(chainId), lists);
  }

  // ---------------------------------------------------------------- one list of allocations

  lemma SeedTwice(w: World, a: Allocations)
    ensures AlreadyHolds(SeedWorld(w, a), a)
    ensures SeedWorld(SeedWorld(w, a), a) == SeedWorld(w, a)
  {
    forall i | 0 <= i < |a| && LastFor(a, i)
      ensures a[i].0 in SeedWorld(w, a).accounts && SeedWorld(w, a).accounts[a[i].0].balance == a[i].1
    {
      SeedSets(w, a, i);
    }
    SeedIdentity(SeedWorld(w, a), a);
  }

  /** A node that is only ever given one list of allocations has exactly that genesis. */
  lemma OneGenesis(cfg: Config, chainId: U64, events: seq<Event>, a: Allocations)
    requires cfg.Valid() && chainId != 0 && SeedsOnly(events, {a}) && Run(cfg, chainId, events).memory.Some?
    ensures var l := Run(cfg, chainId, events).memory.value.ledger;
            History(chainId, SeedWorld(Blank(chainId), a), l) && Lawful(SeedWorld(Blank(chainId), a), l)
  {
    var ok := w => w == SeedWorld(Blank(chainId), a);
    SeedTwice(Blank(chainId), a);
    forall i | 0 <= i < |events| ensures Permits(chainId, ok, true, events[i]) {
      assert SeedingOf(events[i]).Some? ==> SeedingOf(events[i]).value == a;
    }
    RunRooted(cfg, chainId, ok, events);
    HistoryIsLawful(chainId, SeedWorld(Blank(chainId), a), Run(cfg, chainId, events).memory.value.ledger);
  }

  // ---------------------------------------------------------------- what an answered seeding is worth

  /** The event seeds nothing, or only balances that `genesis` already has. */
  ghost predicate LeavesGenesis(genesis: World, e: Event) {
    match e
    case SeedAccounts(a, _) => AlreadyHolds(genesis, a)
    case Interrupt(Seeding(a), _, _) => AlreadyHolds(genesis, a)
    case _ => true
  }

  /** Everything the disk can show, and memory, starts at `genesis`. */
  ghost predicate StartsAt(chainId: U64, genesis: World, n: Node) {
    Origin(chainId, w => w == genesis, false, n)
  }

  lemma SeedWrittenStartsAt(chainId: U64, n: Node, l: Ledger, a: Allocations, disk: Disk, io: Io, settled: bool)
    requires HasHistory(chainId, l) && l.blocks == [] && DiskOk(n.disk)
    requires PersistTo(chainId, n.disk, Encoded(chainId, l.(world := SeedWorld(l.world, a))), io) == (disk, Ok(()))
    ensures var m := Memory(l.(world := SeedWorld(l.world, a)), map[], 0);
            StartsAt(chainId, SeedWorld(l.world, a), Node(disk, Some(m), settled))
  {
    var genesis :| History(chainId, genesis, l);
    assert l == Ledger(genesis, [], map[]);
    SeedHistory(chainId, genesis, a);
    var next := l.(world := SeedWorld(l.world, a));
    var ok := w => w == SeedWorld(l.world, a);
    assert Rooted(chainId, ok, next);
    SnapshotChainIds(chainId, next);
    PersistEnds(chainId, n.disk, Encoded(chainId, next), io);
    WrittenStored(chainId, ok, next, io.size);
  }

  lemma SeedAnswered(chainId: U64, n: Node, a: Allocations, io: Io)
    requires Inv(chainId, n) && n.memory.Some? && n.memory.value.ledger.blocks == []
    requires Seed(chainId, n.memory.value, n.disk, a, io).2.Ok?
    ensures StartsAt(chainId, SeedWorld(n.memory.value.ledger.world, a), AfterSeed(chainId, n, n.memory.value, a, io))
  {
    var m := n.memory.value;
    var (after, disk, r) := Seed(chainId, m, n.disk, a, io);
    SeedWrittenStartsAt(chainId, n, m.ledger, a, disk, io, true);
  }

  /** A node that comes up on a missing file has its allocations on disk. */
  lemma BootAnswered(chainId: U64, n: Node, a: Allocations, io: Io)
    requires chainId != 0 && DiskOk(n.disk) && n.disk.target.None? && a != []
    requires AfterStart(chainId, n, a, io).memory.Some?
    ensures StartsAt(chainId, SeedWorld(Blank(chainId), a), AfterStart(chainId, n, a, io))
  {
    var m := Started(LoadFile(chainId, n.disk.target).value);
    GenesisHistory(chainId, Blank(chainId));
    assert m.ledger == Ledger(Blank(chainId), [], map[]);
    var (after, disk, r) := Seed(chainId, m, n.disk, a, io);
    SeedWrittenStartsAt(chainId, n, m.ledger, a, disk, io, true);
  }

  /** While nothing else is seeded, all that any crash can leave is a history from that genesis. */
  lemma GenesisSurvives(
    cfg: Config, chainId: U64, before: seq<Event>, genesis: World, later: seq<Event>, c: Option<Content>)
    requires cfg.Valid() && chainId != 0 && StartsAt(chainId, genesis, Run(cfg, chainId, before))
    requires forall i | 0 <= i < |later| :: LeavesGenesis(genesis, later[i])
    requires c in Run(cfg, chainId, before + later).disk.exposed
    ensures LoadFile(chainId, c).Some? && History(chainId, genesis, Loaded(LoadFile(chainId, c).value))
  {
    var ok := w => w == genesis;
    forall i | 0 <= i < |later| ensures Permits(chainId, ok, false, later[i]) {
      assert LeavesGenesis(genesis, later[i]);
      if SeedingOf(later[i]).Some? {
        SeedIdentity(genesis, SeedingOf(later[i]).value);
      }
    }
    StaysRooted(cfg, chainId, ok, false, before, later);
    assert Stored(chainId, ok, c);
    var l :| Records(chainId, c, l) && Rooted(chainId, ok, l);
    LoadsRecorded(chainId, c, l);
  }

  /**
   After a seeding has answered with success, every content any later crash can leave loads to a
   ledger whose history starts at exactly the seeded balances, until something else is seeded.
   */
  lemma AnsweredSeedingSurvives(
    cfg: Config, chainId: U64, before: seq<Event>, a: Allocations, io: Io, later: seq<Event>, c: Option<Content>)
    requires cfg.Valid() && chainId != 0
    requires var n := Run(cfg, chainId, before);
             n.memory.Some? && n.memory.value.ledger.blocks == [] && Seed(chainId, n.memory.value, n.disk, a, io).2.Ok?
    requires var genesis := SeedWorld(Run(cfg, chainId, before).memory.value.ledger.world, a);
             forall i | 0 <= i < |later| :: LeavesGenesis(genesis, later[i])
    requires c in Run(cfg, chainId, before + [SeedAccounts(a, io)] + later).disk.exposed
    ensures LoadFile(chainId, c).Some?
    ensures History(chainId, SeedWorld(Run(cfg, chainId, before).memory.value.ledger.world, a), Loaded(LoadFile(chainId, c).value))
  {
    var n := Run(cfg, chainId, before);
    RunKeeps(cfg, chainId, before);
    SeedAnswered(chainId, n, a, io);
    RunSnoc(cfg, chainId, before, SeedAccounts(a, io));
    GenesisSurvives(
      cfg, chainId, before + [SeedAccounts(a, io)], SeedWorld(n.memory.value.ledger.world, a), later, c);
  }

  /** The same for the allocations of a node that came up on a missing file. */
  lemma BootSeedingSurvives(
    cfg: Config, chainId: U64, before: seq<Event>, a: Allocations, io: Io, later: seq<Event>, c: Option<Content>)
    requires cfg.Valid() && chainId != 0 && a != []
    requires var n := Run(cfg, chainId, before); n.memory.None? && n.disk.target.None?
    requires Run(cfg, chainId, before + [Start(a, io)]).memory.Some?
    requires forall i | 0 <= i < |later| :: LeavesGenesis(SeedWorld(Blank(chainId), a), later[i])
    requires c in Run(cfg, chainId, before + [Start(a, io)] + later).disk.exposed
    ensures LoadFile(chainId, c).Some?
    ensures History(chainId, SeedWorld(Blank(chainId), a), Loaded(LoadFile(chainId, c).value))
  {
    RunKeeps(cfg, chainId, before);
    RunSnoc(cfg, chainId, before, Start(a, io));
    BootAnswered(chainId, Run(cfg, chainId, before), a, io);
    GenesisSurvives(cfg, chainId, before + [Start(a, io)], SeedWorld(Blank(chainId), a), later, c);
  }
}
