/**
 Exactly when a running node can serve blocks that a power loss would take away: a write refused at
 the directory sync is visible but not durable, and a process restarted on it starts from there.
 */
module Unsynced {
  import opened Prelude
  import opened Core
  import opened Mempool
  import opened LedgerFile
  import opened Ledger
  import opened LedgerLoads
  import opened CommitPath
  import opened NodeRuns

  // ---------------------------------------------------------------- the length of what is on disk

  function BlockCount(c: Option<Content>): nat {
    match c
    case None => 0
    case Some(Torn) => 0
    case Some(Whole(s, _)) => |s.blocks|
  }

  lemma LoadsBlockCount(chainId: U64, c: Option<Content>)
    requires Sound(chainId, c)
    ensures LoadFile(chainId, c).Some? && |Loaded(LoadFile(chainId, c).value).blocks| == BlockCount(c)
  {
    var l :| Records(chainId, c, l);
    LoadsRecorded(chainId, c, l);
  }

  ghost predicate SomeUpTo(cs: set<Option<Content>>, n: int) {
    exists c :: c in cs && BlockCount(c) <= n
  }

  ghost predicate NoneAbove(cs: set<Option<Content>>, n: nat) {
    forall c | c in cs :: BlockCount(c) <= n
  }

  /**
   Unless the visible file is all a power loss can leave, something shorter is exposed too, or the
   visible file has no blocks; and then nothing exposed has more than one.
   */
  ghost predicate DiskTrails(d: Disk) {
    && (d.exposed != {d.target} && BlockCount(d.target) > 0 ==> SomeUpTo(d.exposed, BlockCount(d.target) - 1))
    && (BlockCount(d.target) == 0 ==> NoneAbove(d.exposed, 1))
  }

  /** A running node never has less than everything exposed, and strictly more when unsettled. */
  ghost predicate MemoryTrails(blocks: nat, settled: bool, d: Disk) {
    && SomeUpTo(d.exposed, blocks)
    && (!settled && blocks > 0 ==> SomeUpTo(d.exposed, blocks - 1))
    && (blocks == 0 ==> NoneAbove(d.exposed, 1))
  }

  ghost predicate Trails(n: Node) {
    && DiskTrails(n.disk)
    && (n.memory.Some? ==> MemoryTrails(|n.memory.value.ledger.blocks|, n.settled, n.disk))
  }

  // ---------------------------------------------------------------- what every event keeps

  /** The disk after a write of a ledger with `count` blocks, however it ended. */
  ghost predicate Wrote(d: Disk, after: Disk, count: nat, ok: bool) {
    || (!ok && after.target == d.target && after.exposed == d.exposed)
    || (exists c :: BlockCount(Some(c)) == count && after.target == Some(c)
                    && after.exposed == if ok then {Some(c)} else d.exposed + {Some(c)})
  }

  /** Writing the next block, or any ledger before the first block, keeps the disk trailing. */
  lemma WriteTrails(d: Disk, after: Disk, blocks: nat, settled: bool, count: nat, ok: bool)
    requires DiskTrails(d) && MemoryTrails(blocks, settled, d) && Wrote(d, after, count, ok)
    requires count == blocks + 1 || count == blocks == 0
    ensures DiskTrails(after)
    ensures !ok ==> MemoryTrails(blocks, settled, after)
    ensures ok ==> MemoryTrails(count, true, after)
  {
    var low :| low in d.exposed && BlockCount(low) <= blocks;
    assert !ok ==> low in after.exposed;
    if !settled && blocks > 0 {
      var lower :| lower in d.exposed && BlockCount(lower) <= blocks - 1;
      assert !ok ==> lower in after.exposed;
    }
    assert ok ==> after.target in after.exposed;
  }

  lemma PersistWrote(chainId: U64, d: Disk, next: Ledger, io: Io)
    requires DiskOk(d) && HasHistory(chainId, next)
    ensures var (after, r) := PersistTo(chainId, d, Encoded(chainId, next), io);
            Wrote(d, after, |next.blocks|, r.Ok?)
  {
    SnapshotChainIds(chainId, next);
    PersistEnds(chainId, d, Encoded(chainId, next), io);
    assert BlockCount(Some(Whole(Encoded(chainId, next), io.size))) == |next.blocks|;
  }

  lemma CommitGrows(chainId: U64, l: Ledger, tx: Transaction, now: U64)
    requires HasHistory(chainId, l) && Commit(chainId, l, tx, now).Ok?
    ensures HasHistory(chainId, Commit(chainId, l, tx, now).value)
    ensures |Commit(chainId, l, tx, now).value.blocks| == |l.blocks| + 1
  {
    var genesis :| History(chainId, genesis, l);
    CommitKeepsHistory(chainId, genesis, l, tx, now);
  }

  lemma SubmitWrote(cfg: Config, chainId: U64, m: Memory, d: Disk, tx: Transaction, now: U64, io: Io)
    requires cfg.Valid() && MemoryOk(chainId, m) && DiskOk(d)
    ensures var (after, disk, r) := Submit(cfg, chainId, m, d, tx, now, io);
            && Wrote(d, disk, |m.ledger.blocks| + 1, r.Ok?)
            && |after.ledger.blocks| == |m.ledger.blocks| + if r.Ok? then 1 else 0
  {
    EmptyPoolOk(cfg);
    SubmitWrites(cfg, chainId, m, d, tx, now, io);
    if Commit(chainId, m.ledger, tx, now).Ok? {
      CommitGrows(chainId, m.ledger, tx, now);
      PersistWrote(chainId, d, Commit(chainId, m.ledger, tx, now).value, io);
    }
    if Submit(cfg, chainId, m, d, tx, now, io).2.Ok? {
      SubmitCommits(cfg, chainId, m, d, tx, now, io);
    } else {
      FailedSubmitKeepsMemory(cfg, chainId, m, d, tx, now, io);
    }
  }

  lemma SubmitTrails(cfg: Config, chainId: U64, n: Node, tx: Transaction, now: U64, io: Io)
    requires cfg.Valid() && Inv(chainId, n) && Trails(n) && n.memory.Some?
    ensures Trails(AfterSubmit(cfg, chainId, n, n.memory.value, tx, now, io))
  {
    var m := n.memory.value;
    var (after, disk, r) := Submit(cfg, chainId, m, n.disk, tx, now, io);
    SubmitWrote(cfg, chainId, m, n.disk, tx, now, io);
    WriteTrails(n.disk, disk, |m.ledger.blocks|, n.settled, |m.ledger.blocks| + 1, r.Ok?);
  }

  lemma SeedWrote(chainId: U64, m: Memory, d: Disk, a: seq<(Address, U128)>, io: Io)
    requires HasHistory(chainId, m.ledger) && m.ledger.blocks == [] && DiskOk(d)
    ensures Wrote(d, Seed(chainId, m, d, a, io).1, 0, Seed(chainId, m, d, a, io).2.Ok?)
    ensures Seed(chainId, m, d, a, io).0.ledger.blocks == []
  {
    SeedHasHistory(chainId, m.ledger, a);
    PersistWrote(chainId, d, m.ledger.(world := SeedWorld(m.ledger.world, a)), io);
  }

  lemma SeedTrails(chainId: U64, n: Node, a: seq<(Address, U128)>, io: Io)
    requires Inv(chainId, n) && Trails(n) && n.memory.Some? && n.memory.value.ledger.blocks == []
    ensures Trails(AfterSeed(chainId, n, n.memory.value, a, io))
  {
    var (after, disk, r) := Seed(chainId, n.memory.value, n.disk, a, io);
    SeedWrote(chainId, n.memory.value, n.disk, a, io);
    WriteTrails(n.disk, disk, 0, n.settled, 0, r.Ok?);
  }

  /** A start on a missing file: nothing is exposed but its absence. */
  lemma FirstStartTrails(chainId: U64, n: Node, a: seq<(Address, U128)>, io: Io)
    requires AllSound(chainId, n.disk) && n.disk.target.None? && chainId != 0
    ensures Trails(AfterStart(chainId, n, a, io))
  {
    var m := Started(LoadFile(chainId, n.disk.target).value);
    assert m.ledger == Empty(chainId);
    GenesisHistory(chainId, m.ledger.world);
    assert None in n.disk.exposed && BlockCount(None) == 0;
    if a != [] {
      var (after, disk, r) := Seed(chainId, m, n.disk, a, io);
      SeedWrote(chainId, m, n.disk, a, io);
      WriteTrails(n.disk, disk, 0, true, 0, r.Ok?);
    }
  }

  /** A start on a file: memory is what the visible file holds. */
  lemma LaterStartTrails(chainId: U64, n: Node, a: seq<(Address, U128)>, io: Io)
    requires AllSound(chainId, n.disk) && n.disk.target.Some? && DiskTrails(n.disk)
    ensures Trails(AfterStart(chainId, n, a, io))
  {
    assert Sound(chainId, n.disk.target);
    LoadsBlockCount(chainId, n.disk.target);
    assert n.disk.target in n.disk.exposed;
  }

  lemma InterruptTrails(chainId: U64, n: Node, write: Write, size: nat, steps: nat)
    requires Inv(chainId, n) && Trails(n) && n.memory.Some? && steps <= StepsDone(Io(size, None))
    requires InFlight(chainId, n.memory.value, write).Some?
    ensures Trails(AfterInterrupt(chainId, n, InFlight(chainId, n.memory.value, write).value, size, steps))
  {
    var l, next := n.memory.value.ledger, InFlight(chainId, n.memory.value, write).value;
    match write {
      case Seeding(a) =>
      case Committing(tx, now) => CommitGrows(chainId, l, tx, now);
    }
    var content := Whole(Encoded(chainId, next), size);
    var after := AfterSteps(n.disk, content, steps);
    WriteIsAtomic(n.disk, content, steps);
    assert BlockCount(Some(content)) == |next.blocks|;
    WriteTrails(n.disk, after, |l.blocks|, n.settled, |next.blocks|, steps == |STEPS|);
  }

  lemma StartTrails(chainId: U64, n: Node, a: seq<(Address, U128)>, io: Io)
    requires AllSound(chainId, n.disk) && Trails(n) && chainId != 0
    ensures Trails(AfterStart(chainId, n, a, io))
  {
    if n.disk.target.None? {
      FirstStartTrails(chainId, n, a, io);
    } else {
      LaterStartTrails(chainId, n, a, io);
    }
  }

  lemma CrashTrails(d: Disk, survivor: Option<Content>)
    requires survivor in d.exposed
    ensures Trails(Node(Crash(d, survivor), None, false))
  {
  }

  lemma KillTrails(n: Node)
    requires Trails(n)
    ensures Trails(n.(memory := None))
  {
  }

  /** With nothing pending there is nothing to include. */
  lemma IncludeNothing(chainId: U64, n: Node, hash: Hash, now: U64, io: Io)
    requires n.memory.Some? && n.memory.value.pool == map[]
    ensures AfterInclude(chainId, n, n.memory.value, hash, now, io) == n
  {
  }

  /** A node that is down can only be started or lose power. */
  lemma DownTrails(cfg: Config, chainId: U64, n: Node, e: Event)
    requires cfg.Valid() && chainId != 0 && AllSound(chainId, n.disk) && Trails(n) && n.memory.None?
    ensures Trails(Apply(cfg, chainId, n, e))
  {
    if e.Start? {
      StartTrails(chainId, n, e.allocations, e.io);
    } else if e.PowerLoss? && e.survivor in n.disk.exposed {
      CrashTrails(n.disk, e.survivor);
    } else {
      assert Apply(cfg, chainId, n, e) == n;
    }
  }

  lemma SeedingTrails(chainId: U64, n: Node, a: seq<(Address, U128)>, io: Io)
    requires Inv(chainId, n) && Trails(n)
    ensures Trails(ApplySeed(chainId, n, a, io))
  {
    if n.memory.Some? && n.memory.value.ledger.blocks == [] {
      SeedTrails(chainId, n, a, io);
    }
  }

  lemma StoppingTrails(chainId: U64, n: Node, write: Write, size: nat, steps: nat)
    requires Inv(chainId, n) && Trails(n)
    ensures Trails(ApplyInterrupt(chainId, n, write, size, steps))
  {
    if n.memory.Some? && InFlight(chainId, n.memory.value, write).Some? && steps <= StepsDone(Io(size, None)) {
      InterruptTrails(chainId, n, write, size, steps);
      assert ApplyInterrupt(chainId, n, write, size, steps)
          == AfterInterrupt(chainId, n, InFlight(chainId, n.memory.value, write).value, size, steps);
    } else {
      assert ApplyInterrupt(chainId, n, write, size, steps) == n;
    }
  }

  /** The events that write. */
  lemma WritingTrails(cfg: Config, chainId: U64, n: Node, e: Event)
    requires cfg.Valid() && Inv(chainId, n) && Trails(n) && n.memory.Some?
    requires e.SeedAccounts? || e.SubmitTransaction? || e.Interrupt?
    ensures Trails(Apply(cfg, chainId, n, e))
  {
    if e.SubmitTransaction? {
      SubmitTrails(cfg, chainId, n, e.tx, e.now, e.io);
      assert Apply(cfg, chainId, n, e) == AfterSubmit(cfg, chainId, n, n.memory.value, e.tx, e.now, e.io);
    } else if e.SeedAccounts? {
      SeedingTrails(chainId, n, e.allocations, e.io);
      assert Apply(cfg, chainId, n, e) == ApplySeed(chainId, n, e.allocations, e.io);
    } else {
      StoppingTrails(chainId, n, e.write, e.size, e.steps);
      assert Apply(cfg, chainId, n, e) == ApplyInterrupt(chainId, n, e.write, e.size, e.steps);
    }
  }

  lemma QuietTrails(cfg: Config, chainId: U64, n: Node, e: Event)
    requires cfg.Valid() && Inv(chainId, n) && Trails(n) && n.memory.Some?
    requires !(e.SeedAccounts? || e.SubmitTransaction? || e.Interrupt?)
    ensures Trails(Apply(cfg, chainId, n, e))
  {
    if e.PowerLoss? && e.survivor in n.disk.exposed {
      CrashTrails(n.disk, e.survivor);
    } else if e.Kill? {
      KillTrails(n);
    } else if e.IncludeTransaction? {
      IncludeNothing(chainId, n, e.hash, e.now, e.io);
    } else {
      assert Apply(cfg, chainId, n, e) == n;
    }
  }

  lemma StepTrails(cfg: Config, chainId: U64, n: Node, e: Event)
    requires cfg.Valid() && chainId != 0 && Inv(chainId, n) && Trails(n)
    ensures Trails(Apply(cfg, chainId, n, e))
  {
    if n.memory.None? {
      DownTrails(cfg, chainId, n, e);
    } else if e.SeedAccounts? || e.SubmitTransaction? || e.Interrupt? {
      WritingTrails(cfg, chainId, n, e);
    } else {
      QuietTrails(cfg, chainId, n, e);
    }
  }

  lemma {:induction false} RunTrails(cfg: Config, chainId: U64, events: seq<Event>)
    requires cfg.Valid() && chainId != 0
    ensures Trails(Run(cfg, chainId, events))
  {
    if events != [] {
      RunTrails(cfg, chainId, events[..|events| - 1]);
      RunKeeps(cfg, chainId, events[..|events| - 1]);
      StepTrails(cfg, chainId, Run(cfg, chainId, events[..|events| - 1]), events[|events| - 1]);
    }
  }

  // ---------------------------------------------------------------- the exact condition

  /** Whatever a power loss leaves loads to memory's blocks, or those and one more. */
  ghost predicate AllNotBehind(chainId: U64, m: Ledger, cs: set<Option<Content>>) {
    forall c | c in cs :: LoadFile(chainId, c).Some? && NotBehind(m, Loaded(LoadFile(chainId, c).value))
  }

  lemma ShorterIsBehind(chainId: U64, m: Ledger, d: Disk)
    requires AllSound(chainId, d) && SomeUpTo(d.exposed, |m.blocks| - 1)
    ensures exists c :: c in d.exposed && LoadFile(chainId, c).Some? && !NotBehind(m, Loaded(LoadFile(chainId, c).value))
  {
    var c :| c in d.exposed && BlockCount(c) <= |m.blocks| - 1;
    LoadsBlockCount(chainId, c);
  }

  /**
   For a running node of any run: no power loss can take away a served block if and only if it has
   served none, or started with nothing unsynced, or has completed a write since.
   */
  lemma NeverAheadIffSettled(cfg: Config, chainId: U64, events: seq<Event>)
    requires cfg.Valid() && chainId != 0 && Run(cfg, chainId, events).memory.Some?
    ensures var n := Run(cfg, chainId, events);
            AllNotBehind(chainId, n.memory.value.ledger, n.disk.exposed) <==> n.settled || n.memory.value.ledger.blocks == []
  {
    RunKeeps(cfg, chainId, events);
    RunTrails(cfg, chainId, events);
    var n := Run(cfg, chainId, events);
    var m := n.memory.value.ledger;
    if n.settled {
      forall c | c in n.disk.exposed
        ensures LoadFile(chainId, c).Some? && NotBehind(m, Loaded(LoadFile(chainId, c).value))
      {
        MemoryNeverAhead(cfg, chainId, events, c);
      }
    } else if m.blocks == [] {
      forall c | c in n.disk.exposed
        ensures LoadFile(chainId, c).Some? && NotBehind(m, Loaded(LoadFile(chainId, c).value))
      {
        LoadsBlockCount(chainId, c);
      }
    } else {
      ShorterIsBehind(chainId, m, n.disk);
    }
  }

  // ---------------------------------------------------------------- the failing runs

  lemma FirstAdmission(cfg: Config, tx: Transaction)
    requires cfg.Valid() && Admissible(cfg, tx)
    ensures Admit(cfg, map[], tx) == (Swap(map[], {}, tx), Ok(Admission(tx.Hash(), true, None)))
  {
    assert Queue(map[], tx.from) == {};
  }

  lemma UnsyncedWrite(chainId: U64, d: Disk, s: LedgerSnapshot, size: nat)
    requires DiskOk(d) && s.chainId == chainId && s.state.chainId == chainId && size <= MAX_LEDGER_BYTES
    ensures var (disk, r) := PersistTo(chainId, d, s, Io(size, Some(7)));
            var c := Some(Whole(s, size));
            r.Err? && disk.target == c && disk.exposed == d.exposed + {c}
  {
    WriteIsAtomic(d, Whole(s, size), 7);
  }

  /** The file holds the ledger `l` and `disk` still exposes everything `d` did. */
  ghost predicate LeftUnsynced(chainId: U64, d: Disk, disk: Disk, l: Ledger) {
    disk.target.Some? && Records(chainId, disk.target, l) && d.exposed <= disk.exposed
  }

  /** A commit whose write fails only at the directory sync: refused, but visible on disk. */
  lemma UnsyncedSeal(chainId: U64, m: Memory, d: Disk, h: Hash, now: U64, size: nat)
    requires HasHistory(chainId, m.ledger) && AllSound(chainId, d) && h in m.pool && size <= MAX_LEDGER_BYTES
    requires Commit(chainId, m.ledger, m.pool[h], now).Ok?
    ensures var (_, disk, r) := SealNext(chainId, m, d, h, now, Io(size, Some(7)));
            r.Err? && LeftUnsynced(chainId, d, disk, Commit(chainId, m.ledger, m.pool[h], now).value)
  {
    var next := Commit(chainId, m.ledger, m.pool[h], now).value;
    CommitHasHistory(chainId, m.ledger, m.pool[h], now);
    SnapshotChainIds(chainId, next);
    UnsyncedWrite(chainId, d, Encoded(chainId, next), size);
    WrittenRecords(chainId, next, size);
  }

  lemma UnsyncedSubmit(cfg: Config, chainId: U64, m: Memory, d: Disk, tx: Transaction, now: U64, size: nat)
    requires cfg.Valid() && MemoryOk(chainId, m) && AllSound(chainId, d)
    requires Admissible(cfg, tx) && Commit(chainId, m.ledger, tx, now).Ok? && size <= MAX_LEDGER_BYTES
    ensures var (_, disk, r) := Submit(cfg, chainId, m, d, tx, now, Io(size, Some(7)));
            r.Err? && LeftUnsynced(chainId, d, disk, Commit(chainId, m.ledger, tx, now).value)
  {
    FirstAdmission(cfg, tx);
    UnsyncedSeal(chainId, m.(pool := Swap(map[], {}, tx)), d, tx.Hash(), now, size);
  }

  lemma StartOnRecorded(chainId: U64, n: Node, l: Ledger, io: Io)
    requires n.disk.target.Some? && Records(chainId, n.disk.target, l)
    ensures var after := AfterStart(chainId, n, [], io);
            after.disk == n.disk && after.memory.Some? && after.memory.value.ledger == l
  {
    LoadsRecorded(chainId, n.disk.target, l);
  }

  lemma RestartAhead(cfg: Config, chainId: U64, n: Node, tx: Transaction, now: U64, io: Io)
    requires cfg.Valid() && Inv(chainId, n) && Trails(n) && n.memory.Some?
    requires io.size <= MAX_LEDGER_BYTES && io.failsAt == Some(7) && Admissible(cfg, tx)
    requires Commit(chainId, n.memory.value.ledger, tx, now).Ok?
    ensures var down := AfterSubmit(cfg, chainId, n, n.memory.value, tx, now, io).(memory := None);
            var after := AfterStart(chainId, down, [], io);
            && after.memory.Some?
            && after.memory.value.ledger == Commit(chainId, n.memory.value.ledger, tx, now).value
            && SomeUpTo(after.disk.exposed, |after.memory.value.ledger.blocks| - 1)
  {
    UnsyncedSubmit(cfg, chainId, n.memory.value, n.disk, tx, now, io.size);
    var down := AfterSubmit(cfg, chainId, n, n.memory.value, tx, now, io).(memory := None);
    StartOnRecorded(chainId, down, Commit(chainId, n.memory.value.ledger, tx, now).value, io);
    CommitGrows(chainId, n.memory.value.ledger, tx, now);
    var low :| low in n.disk.exposed && BlockCount(low) <= |n.memory.value.ledger.blocks|;
    assert low in down.disk.exposed;
  }

  /**
   Such runs exist from everywhere: refuse a submission at the directory sync, restart the process
   without a power loss, and the node serves its block although a power loss can still leave a
   file without it.
   */
  lemma RestartBeforeSyncRunsAhead(cfg: Config, chainId: U64, events: seq<Event>, tx: Transaction, now: U64, io: Io)
    requires cfg.Valid() && chainId != 0 && Run(cfg, chainId, events).memory.Some?
    requires io.size <= MAX_LEDGER_BYTES && io.failsAt == Some(7) && Admissible(cfg, tx)
    requires Commit(chainId, Run(cfg, chainId, events).memory.value.ledger, tx, now).Ok?
    ensures var before := Run(cfg, chainId, events);
            var after := Run(cfg, chainId, events + [SubmitTransaction(tx, now, io)] + [Kill] + [Start([], io)]);
            && after.memory.Some?
            && after.memory.value.ledger == Commit(chainId, before.memory.value.ledger, tx, now).value
            && exists c :: c in after.disk.exposed && LoadFile(chainId, c).Some?
                           && !NotBehind(after.memory.value.ledger, Loaded(LoadFile(chainId, c).value))
  {
    RunKeeps(cfg, chainId, events);
    RunTrails(cfg, chainId, events);
    RestartAhead(cfg, chainId, Run(cfg, chainId, events), tx, now, io);
    RestartedRun(cfg, chainId, events, tx, now, io);
    var last := events + [SubmitTransaction(tx, now, io)] + [Kill] + [Start([], io)];
    RunKeeps(cfg, chainId, last);
    var after := Run(cfg, chainId, last);
    ShorterIsBehind(chainId, after.memory.value.ledger, after.disk);
  }

  lemma RestartedRun(cfg: Config, chainId: U64, events: seq<Event>, tx: Transaction, now: U64, io: Io)
    requires cfg.Valid() && Run(cfg, chainId, events).memory.Some?
    ensures var n := Run(cfg, chainId, events);
            var down := AfterSubmit(cfg, chainId, n, n.memory.value, tx, now, io).(memory := None);
            Run(cfg, chainId, events + [SubmitTransaction(tx, now, io)] + [Kill] + [Start([], io)])
            == AfterStart(chainId, down, [], io)
  {
    var submitted := events + [SubmitTransaction(tx, now, io)];
    var killed := submitted + [Kill];
    RunSnoc(cfg, chainId, events, SubmitTransaction(tx, now, io));
    RunSnoc(cfg, chainId, submitted, Kill);
    RunSnoc(cfg, chainId, killed, Start([], io));
    assert Run(cfg, chainId, killed) == Run(cfg, chainId, submitted).(memory := None);
  }
}
