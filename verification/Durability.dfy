/**
 What an answered submission is worth: once a submission has succeeded, its block is in every
 ledger a later start can load, whatever happens in between.
 */
module Durability {
  import opened Prelude
  import opened Core
  import opened Mempool
  import opened LedgerFile
  import opened Ledger
  import opened LedgerLoads
  import opened CommitPath
  import opened NodeRuns

  /** The file content begins with these blocks. */
  ghost predicate Holds(c: Option<Content>, kept: seq<Block>) {
    match c
    case None => kept == []
    case Some(Torn) => false
    case Some(Whole(s, _)) => kept <= s.blocks
  }

  ghost predicate AllHold(cs: set<Option<Content>>, kept: seq<Block>) {
    forall c | c in cs :: Holds(c, kept)
  }

  /** The blocks are in all that a crash can leave, and in memory while the node runs. */
  ghost predicate Durable(n: Node, kept: seq<Block>) {
    AllHold(n.disk.exposed, kept) && (n.memory.Some? ==> kept <= n.memory.value.ledger.blocks)
  }

  lemma CommitExtends(chainId: U64, l: Ledger, tx: Transaction, now: U64, kept: seq<Block>)
    requires HasHistory(chainId, l) && Commit(chainId, l, tx, now).Ok? && kept <= l.blocks
    ensures kept <= Commit(chainId, l, tx, now).value.blocks
    ensures var next := Commit(chainId, l, tx, now).value;
            l.blocks <= next.blocks && |next.blocks| == |l.blocks| + 1 && next.blocks[|l.blocks|].transactions == [tx]
  {
    var genesis :| History(chainId, genesis, l);
    CommitKeepsHistory(chainId, genesis, l, tx, now);
  }

  /** However a write ends, it exposes nothing but what was exposed and what it wrote. */
  lemma WriteHolds(chainId: U64, next: Ledger, d: Disk, io: Io, kept: seq<Block>)
    requires HasHistory(chainId, next) && DiskOk(d) && AllHold(d.exposed, kept) && kept <= next.blocks
    ensures AllHold(PersistTo(chainId, d, Encoded(chainId, next), io).0.exposed, kept)
  {
    SnapshotChainIds(chainId, next);
    PersistEnds(chainId, d, Encoded(chainId, next), io);
  }

  /** A successful write leaves only what it wrote. */
  lemma WrittenHolds(chainId: U64, next: Ledger, d: Disk, io: Io)
    requires HasHistory(chainId, next) && DiskOk(d)
    requires PersistTo(chainId, d, Encoded(chainId, next), io).1.Ok?
    ensures AllHold(PersistTo(chainId, d, Encoded(chainId, next), io).0.exposed, next.blocks)
  {
    SnapshotChainIds(chainId, next);
    PersistEnds(chainId, d, Encoded(chainId, next), io);
  }

  lemma SubmitDiskHolds(cfg: Config, chainId: U64, m: Memory, d: Disk, tx: Transaction, now: U64, io: Io, kept: seq<Block>)
    requires cfg.Valid() && MemoryOk(chainId, m) && DiskOk(d) && AllHold(d.exposed, kept) && kept <= m.ledger.blocks
    ensures AllHold(Submit(cfg, chainId, m, d, tx, now, io).1.exposed, kept)
  {
    EmptyPoolOk(cfg);
    SubmitWrites(cfg, chainId, m, d, tx, now, io);
    if Commit(chainId, m.ledger, tx, now).Ok? {
      CommitHasHistory(chainId, m.ledger, tx, now);
      CommitExtends(chainId, m.ledger, tx, now, kept);
      WriteHolds(chainId, Commit(chainId, m.ledger, tx, now).value, d, io, kept);
    }
  }

  lemma SubmitMemoryKeeps(cfg: Config, chainId: U64, m: Memory, d: Disk, tx: Transaction, now: U64, io: Io, kept: seq<Block>)
    requires cfg.Valid() && MemoryOk(chainId, m) && kept <= m.ledger.blocks
    ensures kept <= Submit(cfg, chainId, m, d, tx, now, io).0.ledger.blocks
  {
    EmptyPoolOk(cfg);
    if Submit(cfg, chainId, m, d, tx, now, io).2.Ok? {
      SubmitCommits(cfg, chainId, m, d, tx, now, io);
      CommitExtends(chainId, m.ledger, tx, now, kept);
    } else {
      FailedSubmitKeepsMemory(cfg, chainId, m, d, tx, now, io);
    }
  }

  lemma StartDurable(chainId: U64, n: Node, allocations: seq<(Address, U128)>, io: Io, kept: seq<Block>)
    requires AllSound(chainId, n.disk) && Durable(n, kept) && kept != []
    ensures Durable(AfterStart(chainId, n, allocations, io), kept)
  {
    assert Holds(n.disk.target, kept);
    assert Sound(chainId, n.disk.target);
    var l :| Records(chainId, n.disk.target, l);
    LoadsRecorded(chainId, n.disk.target, l);
  }

  lemma InterruptDurable(chainId: U64, n: Node, write: Write, size: nat, steps: nat, kept: seq<Block>)
    requires Inv(chainId, n) && Durable(n, kept) && kept != [] && n.memory.Some? && steps <= |STEPS|
    requires InFlight(chainId, n.memory.value, write).Some?
    ensures Durable(AfterInterrupt(chainId, n, InFlight(chainId, n.memory.value, write).value, size, steps), kept)
  {
    var next := InFlight(chainId, n.memory.value, write).value;
    assert write.Committing?;
    CommitExtends(chainId, n.memory.value.ledger, write.tx, write.now, kept);
    WriteIsAtomic(n.disk, Whole(Encoded(chainId, next), size), steps);
  }

  lemma SubmitDurable(cfg: Config, chainId: U64, n: Node, tx: Transaction, now: U64, io: Io, kept: seq<Block>)
    requires cfg.Valid() && Inv(chainId, n) && Durable(n, kept) && n.memory.Some?
    ensures Durable(AfterSubmit(cfg, chainId, n, n.memory.value, tx, now, io), kept)
  {
    SubmitDiskHolds(cfg, chainId, n.memory.value, n.disk, tx, now, io, kept);
    SubmitMemoryKeeps(cfg, chainId, n.memory.value, n.disk, tx, now, io, kept);
  }

  lemma StoppedDurable(chainId: U64, n: Node, write: Write, size: nat, steps: nat, kept: seq<Block>)
    requires Inv(chainId, n) && Durable(n, kept) && kept != []
    ensures Durable(ApplyInterrupt(chainId, n, write, size, steps), kept)
  {
    if n.memory.Some? && InFlight(chainId, n.memory.value, write).Some? && steps <= StepsDone(Io(size, None)) {
      InterruptDurable(chainId, n, write, size, steps, kept);
      assert ApplyInterrupt(chainId, n, write, size, steps)
          == AfterInterrupt(chainId, n, InFlight(chainId, n.memory.value, write).value, size, steps);
    } else {
      assert ApplyInterrupt(chainId, n, write, size, steps) == n;
    }
  }

  lemma StepDurable(cfg: Config, chainId: U64, n: Node, e: Event, kept: seq<Block>)
    requires cfg.Valid() && Inv(chainId, n) && Durable(n, kept) && kept != []
    ensures Durable(Apply(cfg, chainId, n, e), kept)
  {
    if e.Start? && n.memory.None? {
      StartDurable(chainId, n, e.allocations, e.io, kept);
      assert Apply(cfg, chainId, n, e) == AfterStart(chainId, n, e.allocations, e.io);
    } else if e.SubmitTransaction? && n.memory.Some? {
      SubmitDurable(cfg, chainId, n, e.tx, e.now, e.io, kept);
      assert Apply(cfg, chainId, n, e) == AfterSubmit(cfg, chainId, n, n.memory.value, e.tx, e.now, e.io);
    } else if e.Interrupt? {
      StoppedDurable(chainId, n, e.write, e.size, e.steps, kept);
      assert Apply(cfg, chainId, n, e) == ApplyInterrupt(chainId, n, e.write, e.size, e.steps);
    }
  }

  lemma NextDurable(cfg: Config, chainId: U64, events: seq<Event>, e: Event, kept: seq<Block>)
    requires cfg.Valid() && chainId != 0 && kept != [] && Durable(Run(cfg, chainId, events), kept)
    ensures Durable(Run(cfg, chainId, events + [e]), kept)
  {
    RunKeeps(cfg, chainId, events);
    StepDurable(cfg, chainId, Run(cfg, chainId, events), e, kept);
    RunSnoc(cfg, chainId, events, e);
  }

  lemma {:induction false} StaysDurable(cfg: Config, chainId: U64, before: seq<Event>, later: seq<Event>, kept: seq<Block>)
    requires cfg.Valid() && chainId != 0 && kept != [] && Durable(Run(cfg, chainId, before), kept)
    ensures Durable(Run(cfg, chainId, before + later), kept)
  {
    if later == [] {
      assert before + later == before;
    } else {
      var front, last := later[..|later| - 1], later[|later| - 1];
      StaysDurable(cfg, chainId, before, front, kept);
      NextDurable(cfg, chainId, before + front, last, kept);
      assert before + later == before + front + [last];
    }
  }

  /** A successful submission leaves its block in all that the disk can show. */
  lemma AnswerIsDurable(cfg: Config, chainId: U64, n: Node, tx: Transaction, now: U64, io: Io)
    requires cfg.Valid() && Inv(chainId, n) && n.memory.Some?
    requires Submit(cfg, chainId, n.memory.value, n.disk, tx, now, io).2.Ok?
    ensures Commit(chainId, n.memory.value.ledger, tx, now).Ok?
    ensures Durable(AfterSubmit(cfg, chainId, n, n.memory.value, tx, now, io),
                    Commit(chainId, n.memory.value.ledger, tx, now).value.blocks)
  {
    EmptyPoolOk(cfg);
    var m := n.memory.value;
    SubmitCommits(cfg, chainId, m, n.disk, tx, now, io);
    SubmitWrites(cfg, chainId, m, n.disk, tx, now, io);
    CommitHasHistory(chainId, m.ledger, tx, now);
    WrittenHolds(chainId, Commit(chainId, m.ledger, tx, now).value, n.disk, io);
  }

  lemma HeldLoads(chainId: U64, c: Option<Content>, kept: seq<Block>)
    requires Sound(chainId, c) && Holds(c, kept)
    ensures LoadFile(chainId, c).Some? && kept <= LoadFile(chainId, c).value.blocks
  {
    var l :| Records(chainId, c, l);
    LoadsRecorded(chainId, c, l);
  }

  /**
   After a submission has answered with success, every content any later crash can leave loads to
   a chain that still has the node's blocks of that moment and then the block of that transaction.
   */
  lemma AnsweredSurvives(
    cfg: Config, chainId: U64, before: seq<Event>, tx: Transaction, now: U64, io: Io, later: seq<Event>, c: Option<Content>)
    requires cfg.Valid() && chainId != 0 && Run(cfg, chainId, before).memory.Some?
    requires var n := Run(cfg, chainId, before); Submit(cfg, chainId, n.memory.value, n.disk, tx, now, io).2.Ok?
    requires c in Run(cfg, chainId, before + [SubmitTransaction(tx, now, io)] + later).disk.exposed
    ensures LoadFile(chainId, c).Some?
    ensures var known, blocks := Run(cfg, chainId, before).memory.value.ledger.blocks, LoadFile(chainId, c).value.blocks;
            known <= blocks && |known| < |blocks| && blocks[|known|].transactions == [tx]
  {
    var n := Run(cfg, chainId, before);
    RunKeeps(cfg, chainId, before);
    AnswerIsDurable(cfg, chainId, n, tx, now, io);
    CommitExtends(chainId, n.memory.value.ledger, tx, now, []);
    var kept := Commit(chainId, n.memory.value.ledger, tx, now).value.blocks;
    RunSnoc(cfg, chainId, before, SubmitTransaction(tx, now, io));
    StaysDurable(cfg, chainId, before + [SubmitTransaction(tx, now, io)], later, kept);
    RunKeeps(cfg, chainId, before + [SubmitTransaction(tx, now, io)] + later);
    assert Sound(chainId, c);
    HeldLoads(chainId, c, kept);
  }
}
