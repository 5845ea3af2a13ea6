/**
 Readers against a commit in progress. A commit becomes visible through five separate writes under
 separate locks, and a lookup reads under separate locks too; any number of commits may pass
 between two of its reads.
 */
module Readers {
  import opened Prelude
  import opened Core
  import opened WorldState
  import opened Storage
  import opened Ledger
  import opened LedgerLoads
  import opened CommitPath

  // ---------------------------------------------------------------- what a reader computes

  function BlockAt(blocks: seq<Block>, height: nat): Option<Block> {
    if 1 <= height <= |blocks| then Some(blocks[height - 1]) else None
  }

  function FindTx(txs: seq<Transaction>, h: Hash): Option<Transaction> {
    if txs == [] then None else if txs[0].Hash() == h then Some(txs[0]) else FindTx(txs[1..], h)
  }

  /** A block tag, with a number already parsed from its hexadecimal digits, or found malformed. */
  datatype Tag = Latest | Pending | Safe | Finalized | Earliest | Number(parsed: Option<U64>)

  datatype TagError = InvalidParams

  function ResolveHeight(tag: Tag, count: nat): Result<Option<nat>, TagError> {
    if count == 0 then Ok(None) else
    match tag
    case Earliest => Ok(Some(1))
    case Number(None) => Err(InvalidParams)
    case Number(Some(height)) => Ok(if 1 <= height <= count then Some(height) else None)
    case _ => Ok(Some(count))
  }

  // ---------------------------------------------------------------- the interleaved system

  datatype Writer = Resting | Publishing(before: Memory, tx: Transaction, next: Ledger, done: nat)

  datatype Reader =
    | Asking(hash: Hash)
    | HasReceipt(hash: Hash, receipt: Option<Receipt>)
    | Answered(hash: Hash, sawReceipt: bool, tx: Option<Transaction>)
    | AskingBlock(tag: Tag)
    | HasHeight(height: Option<nat>)
    | AnsweredBlock(height: Option<nat>, block: Option<Block>)

  datatype System = System(visible: Memory, writer: Writer, readers: map<nat, Reader>)

  datatype Step =
    | BeginCommit(tx: Transaction, now: U64)
    | NextWrite
    | NewReader(id: nat, reader: Reader)
    | Read(id: nat)

  const WRITES: nat := 5

  /** The views after the first `done` of the five writes: state, pool, blocks, receipts, height. */
  function Partly(m: Memory, tx: Transaction, next: Ledger, done: nat): Memory {
    Memory(
      Ledger(
        if done >= 1 then next.world else m.ledger.world,
        if done >= 3 then next.blocks else m.ledger.blocks,
        if done >= 4 then next.receipts else m.ledger.receipts),
      if done >= 2 then m.pool - {tx.Hash()} else m.pool,
      if done >= 5 then TipHeight(next.blocks) else m.height)
  }

  function Advance(r: Reader, v: Memory): Reader {
    match r
    case Asking(h) =>
      HasReceipt(h, if h in v.ledger.receipts then Some(v.ledger.receipts[h]) else None)
    case HasReceipt(h, None) => Answered(h, false, None)
    case HasReceipt(h, Some(receipt)) =>
      (match BlockAt(v.ledger.blocks, receipt.blockHeight)
       case None => Answered(h, true, None)
       case Some(block) => Answered(h, true, FindTx(block.transactions, h)))
    case AskingBlock(tag) =>
      (match ResolveHeight(tag, |v.ledger.blocks|)
       case Err(_) => HasHeight(None)
       case Ok(height) => HasHeight(height))
    case HasHeight(height) =>
      AnsweredBlock(height, if height.Some? then BlockAt(v.ledger.blocks, height.value) else None)
    case _ => r
  }

  ghost function Next(chainId: U64, s: System, step: Step): System {
    match step
    case BeginCommit(tx, now) =>
      (match Commit(chainId, s.visible.ledger, tx, now)
       case Ok(next) => if s.writer.Resting? then s.(writer := Publishing(s.visible, tx, next, 0)) else s
       case Err(_) => s)
    case NextWrite =>
      if s.writer.Resting? then s else
      var w := s.writer;
      var visible := Partly(w.before, w.tx, w.next, w.done + 1);
      s.(visible := visible, writer := if w.done + 1 == WRITES then Resting else w.(done := w.done + 1))
    case NewReader(id, reader) =>
      if id !in s.readers && (reader.Asking? || reader.AskingBlock?) then s.(readers := s.readers[id := reader]) else s
    case Read(id) =>
      if id in s.readers then s.(readers := s.readers[id := Advance(s.readers[id], s.visible)]) else s
  }

  ghost function Trace(chainId: U64, s: System, steps: seq<Step>): System {
    if steps == [] then s else Next(chainId, Trace(chainId, s, steps[..|steps| - 1]), steps[|steps| - 1])
  }

  // ---------------------------------------------------------------- what every interleaving keeps

  /** The receipt stored under `h` names a visible block whose only transaction has that hash. */
  ghost predicate Names(r: Receipt, h: Hash, blocks: seq<Block>) {
    && 1 <= r.blockHeight <= |blocks|
    && |blocks[r.blockHeight - 1].transactions| == 1
    && blocks[r.blockHeight - 1].transactions[0].Hash() == h
  }

  ghost predicate HeightsOk(blocks: seq<Block>) {
    forall i | 0 <= i < |blocks| :: blocks[i].header.height == i + 1
  }

  ghost predicate Coherent(v: Memory) {
    && (forall h | h in v.ledger.receipts :: Names(v.ledger.receipts[h], h, v.ledger.blocks))
    && v.height <= |v.ledger.blocks|
    && HeightsOk(v.ledger.blocks)
  }

  ghost predicate ReaderOk(r: Reader, blocks: seq<Block>) {
    match r
    case HasReceipt(h, Some(receipt)) => Names(receipt, h, blocks)
    case Answered(h, true, tx) => tx.Some? && tx.value.Hash() == h
    case Answered(h, false, tx) => tx.None?
    case HasHeight(Some(height)) => 1 <= height <= |blocks|
    case AnsweredBlock(Some(height), block) => block.Some? && block.value.header.height == height
    case _ => true
  }

  ghost predicate Settled(chainId: U64, genesis: World, m: Memory) {
    History(chainId, genesis, m.ledger) && m.height == TipHeight(m.ledger.blocks)
  }

  ghost predicate WriterOk(chainId: U64, genesis: World, s: System) {
    match s.writer
    case Resting => Settled(chainId, genesis, s.visible)
    case Publishing(before, tx, next, done) =>
      && Settled(chainId, genesis, before) && done < WRITES
      && s.visible == Partly(before, tx, next, done)
      && exists now :: Commit(chainId, before.ledger, tx, now) == Ok(next)
  }

  ghost predicate Inv(chainId: U64, genesis: World, s: System) {
    && WriterOk(chainId, genesis, s)
    && Coherent(s.visible)
    && forall id | id in s.readers :: ReaderOk(s.readers[id], s.visible.ledger.blocks)
  }

  lemma ListNames(blocks: seq<Block>, chainId: U64, h: Hash)
    requires BlocksOk(blocks, chainId) && Single(blocks) && DistinctHashes(ReceiptList(blocks))
    requires h in ToReceipts(ReceiptList(blocks))
    ensures Names(ToReceipts(ReceiptList(blocks))[h], h, blocks)
  {
    var list := ReceiptList(blocks);
    ToReceiptsEntries(list);
    var i :| 0 <= i < |list| && list[i] == ToReceipts(list)[h];
    assert BlockOk(blocks, i, chainId) && list[i] == ReceiptFor(blocks[i]);
  }

  lemma ReceiptsName(chainId: U64, genesis: World, l: Ledger, h: Hash)
    requires History(chainId, genesis, l) && h in l.receipts
    ensures Names(l.receipts[h], h, l.blocks)
  {
    HashesApart(chainId, genesis, l);
    ListNames(l.blocks, chainId, h);
  }

  lemma SettledCoherent(chainId: U64, genesis: World, m: Memory)
    requires Settled(chainId, genesis, m)
    ensures Coherent(m)
  {
    TipHeightIsCount(m.ledger.blocks, chainId);
    forall i | 0 <= i < |m.ledger.blocks| ensures m.ledger.blocks[i].header.height == i + 1 {
      assert BlockOk(m.ledger.blocks, i, chainId);
    }
    forall h | h in m.ledger.receipts ensures Names(m.ledger.receipts[h], h, m.ledger.blocks) {
      ReceiptsName(chainId, genesis, m.ledger, h);
    }
  }

  lemma ReadersSurviveGrowth(r: Reader, blocks: seq<Block>, more: seq<Block>)
    requires ReaderOk(r, blocks) && blocks <= more
    ensures ReaderOk(r, more)
  {
  }

  /** Whichever of the five writes have happened, the views agree: blocks first, then what points into them. */
  lemma PartlyCoherent(chainId: U64, genesis: World, m: Memory, tx: Transaction, now: U64, done: nat)
    requires Settled(chainId, genesis, m) && Commit(chainId, m.ledger, tx, now).Ok? && done <= WRITES
    ensures var next := Commit(chainId, m.ledger, tx, now).value;
            && Coherent(Partly(m, tx, next, done))
            && m.ledger.blocks <= next.blocks
            && (done == WRITES ==> Settled(chainId, genesis, Partly(m, tx, next, done)))
  {
    var next := Commit(chainId, m.ledger, tx, now).value;
    CommitKeepsHistory(chainId, genesis, m.ledger, tx, now);
    SettledCoherent(chainId, genesis, m);
    SettledCoherent(chainId, genesis, Memory(next, m.pool, TipHeight(next.blocks)));
    assert m.ledger.blocks == next.blocks[..|m.ledger.blocks|];
    CoherentGrows(m, next.blocks, Partly(m, tx, next, done).ledger.world);
    TipHeightIsCount(next.blocks, chainId);
  }

  lemma CoherentGrows(m: Memory, more: seq<Block>, world: World)
    requires Coherent(m) && m.ledger.blocks <= more && HeightsOk(more)
    ensures forall h | h in m.ledger.receipts :: Names(m.ledger.receipts[h], h, more)
  {
  }

  lemma AdvanceKeeps(r: Reader, v: Memory)
    requires Coherent(v) && ReaderOk(r, v.ledger.blocks)
    ensures ReaderOk(Advance(r, v), v.ledger.blocks)
  {
  }

  lemma StepKeeps(chainId: U64, genesis: World, s: System, step: Step)
    requires Inv(chainId, genesis, s)
    ensures Inv(chainId, genesis, Next(chainId, s, step))
  {
    match step {
      case BeginCommit(tx, now) =>
      case NextWrite =>
        if s.writer.Publishing? {
          WriteKeeps(chainId, genesis, s);
        }
      case NewReader(id, reader) =>
      case Read(id) =>
        if id in s.readers {
          AdvanceKeeps(s.readers[id], s.visible);
        }
    }
  }

  lemma WriteKeeps(chainId: U64, genesis: World, s: System)
    requires Inv(chainId, genesis, s) && s.writer.Publishing?
    ensures Inv(chainId, genesis, Next(chainId, s, NextWrite))
  {
    var w := s.writer;
    var now :| Commit(chainId, w.before.ledger, w.tx, now) == Ok(w.next);
    PartlyCoherent(chainId, genesis, w.before, w.tx, now, w.done + 1);
    var t := Next(chainId, s, NextWrite);
    assert s.visible.ledger.blocks <= t.visible.ledger.blocks;
    forall id | id in t.readers ensures ReaderOk(t.readers[id], t.visible.ledger.blocks) {
      ReadersSurviveGrowth(s.readers[id], s.visible.ledger.blocks, t.visible.ledger.blocks);
    }
  }

  lemma {:induction false} TraceKeeps(chainId: U64, genesis: World, s: System, steps: seq<Step>)
    requires Inv(chainId, genesis, s)
    ensures Inv(chainId, genesis, Trace(chainId, s, steps))
  {
    if steps != [] {
      TraceKeeps(chainId, genesis, s, steps[..|steps| - 1]);
      StepKeeps(chainId, genesis, Trace(chainId, s, steps[..|steps| - 1]), steps[|steps| - 1]);
    }
  }

  /** No reader has been answered wrongly. */
  ghost predicate NoneMissed(s: System) {
    && (forall id | id in s.readers && s.readers[id].Answered? && s.readers[id].sawReceipt ::
          s.readers[id].tx.Some? && s.readers[id].tx.value.Hash() == s.readers[id].hash)
    && (forall id | id in s.readers && s.readers[id].AnsweredBlock? && s.readers[id].height.Some? ::
          s.readers[id].block.Some? && s.readers[id].block.value.header.height == s.readers[id].height.value)
  }

  lemma InvAnswersRight(chainId: U64, genesis: World, s: System)
    requires Inv(chainId, genesis, s)
    ensures Coherent(s.visible) && NoneMissed(s)
  {
    forall id | id in s.readers
      ensures s.readers[id].Answered? && s.readers[id].sawReceipt ==>
                s.readers[id].tx.Some? && s.readers[id].tx.value.Hash() == s.readers[id].hash
      ensures s.readers[id].AnsweredBlock? && s.readers[id].height.Some? ==>
                s.readers[id].block.Some? && s.readers[id].block.value.header.height == s.readers[id].height.value
    {
      assert ReaderOk(s.readers[id], s.visible.ledger.blocks);
    }
  }

  /**
   In every interleaving of commits and lookups: a visible receipt names a visible block holding
   its transaction, the visible height never exceeds the block count, a lookup that read a receipt
   finds the transaction, and a block lookup that resolved a height finds the block of that height.
   */
  lemma LookupsNeverMiss(chainId: U64, genesis: World, m: Memory, steps: seq<Step>)
    requires Settled(chainId, genesis, m)
    ensures Coherent(Trace(chainId, System(m, Resting, map[]), steps).visible)
    ensures NoneMissed(Trace(chainId, System(m, Resting, map[]), steps))
  {
    SettledCoherent(chainId, genesis, m);
    TraceKeeps(chainId, genesis, System(m, Resting, map[]), steps);
    InvAnswersRight(chainId, genesis, Trace(chainId, System(m, Resting, map[]), steps));
  }

  // ---------------------------------------------------------------- what a tag means

  /** The block a tag names in a list of blocks. */
  function Tagged(blocks: seq<Block>, tag: Tag): Option<Block> {
    match ResolveHeight(tag, |blocks|)
    case Ok(Some(height)) => BlockAt(blocks, height)
    case _ => None
  }

  /** The newest block for latest, pending, safe and finalized, and the first for earliest. */
  lemma TagsName(blocks: seq<Block>)
    requires blocks != []
    ensures forall tag | tag in {Latest, Pending, Safe, Finalized} :: Tagged(blocks, tag) == Some(blocks[|blocks| - 1])
    ensures Tagged(blocks, Earliest) == Some(blocks[0])
    ensures forall tag: Tag :: ResolveHeight(tag, |blocks|).Err? <==> tag == Number(None)
  {
  }

  /** For a number, exactly the block that carries that height, if there is one. */
  lemma NumberNames(blocks: seq<Block>, height: U64)
    requires HeightsOk(blocks)
    ensures var found := Tagged(blocks, Number(Some(height)));
            && (found.Some? ==> found.value in blocks && found.value.header.height == height)
            && (forall b | b in blocks && b.header.height == height :: found == Some(b))
  {
  }

  lemma FindSingle(tx: Transaction, h: Hash)
    ensures FindTx([tx], h) == if tx.Hash() == h then Some(tx) else None
  {
    assert [tx][1..] == [];
  }

  /** Two reads in a coherent state answer with the transaction of the block, exactly when there is a receipt. */
  lemma LookupFinds(v: Memory, h: Hash)
    requires Coherent(v)
    ensures Advance(Advance(Asking(h), v), v)
         == if h in v.ledger.receipts
            then Answered(h, true, Some(v.ledger.blocks[v.ledger.receipts[h].blockHeight - 1].transactions[0]))
            else Answered(h, false, None)
  {
    if h in v.ledger.receipts {
      var block := v.ledger.blocks[v.ledger.receipts[h].blockHeight - 1];
      assert block.transactions == [block.transactions[0]];
      FindSingle(block.transactions[0], h);
    }
  }

  /** Two reads in one state answer a tag with the block it names. */
  lemma BlockLookupFinds(v: Memory, tag: Tag)
    ensures Advance(Advance(AskingBlock(tag), v), v).AnsweredBlock?
    ensures Advance(Advance(AskingBlock(tag), v), v).block == Tagged(v.ledger.blocks, tag)
  {
  }
}
