/**
 The in-memory ledger, the commit that extends it by one block, and the history every such ledger
 carries: a genesis whose re-execution through the blocks gives the present state.
 */
module Ledger {
  import opened Prelude
  import opened Core
  import opened WorldState
  import opened Storage
  import opened LedgerFile

  datatype Ledger = Ledger(world: World, blocks: seq<Block>, receipts: map<Hash, Receipt>)

  datatype CommitError = GasAboveBlockLimit | Rejected(reason: StateError) | HeightOverflow

  // ---------------------------------------------------------------- one commit

  /** The block that would follow, sealed over the root of the world its transaction leaves. */
  function Seal(chainId: U64, blocks: seq<Block>, height: U64, tx: Transaction, root: Hash, now: U64): Block {
    Block(
      BlockHeader(
        1, chainId, height, now,
        ParentOf(blocks, |blocks|),
        root,
        TxRootOf([tx.Hash()]),
        ReceiptRoot(tx.Hash(), height, tx.gasLimit),
        0, tx.gasLimit, BLOCK_GAS_LIMIT, []),
      [tx], [])
  }

  function ReceiptFor(block: Block): Receipt
    requires |block.transactions| == 1
  {
    Receipt(block.transactions[0].Hash(), block.Hash(), block.header.height, block.header.gasUsed, Success, [], None)
  }

  function Extend(l: Ledger, block: Block, after: World): Ledger
    requires |block.transactions| == 1
  {
    var receipt := ReceiptFor(block);
    Ledger(after, l.blocks + [block], l.receipts[receipt.txHash := receipt])
  }

  /** Execute one transaction and append its block and receipt. */
  ghost function Commit(chainId: U64, l: Ledger, tx: Transaction, now: U64): Result<Ledger, CommitError> {
    if tx.gasLimit > BLOCK_GAS_LIMIT then Err(GasAboveBlockLimit)
    else match Execute(l.world, tx)
      case Err(e) => Err(Rejected(e))
      case Ok(after) =>
        if TipHeight(l.blocks) == U64_MAX then Err(HeightOverflow) else
        var block := Seal(chainId, l.blocks, TipHeight(l.blocks) + 1, tx, RootOf(after), now);
        Ok(Extend(l, block, after))
  }

  // ---------------------------------------------------------------- the history of a ledger

  predicate Single(blocks: seq<Block>) {
    forall i | 0 <= i < |blocks| :: |blocks[i].transactions| == 1
  }

  function Txs(blocks: seq<Block>): seq<Transaction>
    requires Single(blocks)
  {
    seq(|blocks|, i requires 0 <= i < |blocks| => blocks[i].transactions[0])
  }

  function ReceiptList(blocks: seq<Block>): seq<Receipt>
    requires Single(blocks)
  {
    seq(|blocks|, i requires 0 <= i < |blocks| => ReceiptFor(blocks[i]))
  }

  /** Index a list of receipts by transaction hash, later entries overwriting earlier ones. */
  function ToReceipts(list: seq<Receipt>): map<Hash, Receipt> {
    if list == [] then map[] else
      var last := list[|list| - 1];
      ToReceipts(list[..|list| - 1])[last.txHash := last]
  }

  ghost predicate NonceFree(w: World) {
    forall a :: w.Nonce(a) == 0
  }

  /** `root` commits to the world the first `n` transactions leave. */
  ghost predicate RootAfter(genesis: World, txs: seq<Transaction>, n: nat, root: Hash)
    requires n <= |txs|
  {
    ExecuteAll(genesis, txs[..n]).Ok? && root == RootOf(ExecuteAll(genesis, txs[..n]).value)
  }

  /** Every header commits to the state its own transaction left. */
  ghost predicate RootsFollow(genesis: World, blocks: seq<Block>)
    requires Single(blocks)
  {
    forall i | 0 <= i < |blocks| :: RootAfter(genesis, Txs(blocks), i + 1, blocks[i].header.stateRoot)
  }

  /** `l` is what committing its own transactions, in order, makes of `genesis`. */
  ghost predicate History(chainId: U64, genesis: World, l: Ledger) {
    && chainId != 0 && genesis.chainId == chainId && NonceFree(genesis)
    && BlocksOk(l.blocks, chainId)
    && Single(l.blocks)
    && ExecuteAll(genesis, Txs(l.blocks)) == Ok(l.world)
    && RootsFollow(genesis, l.blocks)
    && l.receipts == ToReceipts(ReceiptList(l.blocks))
  }

  lemma GenesisHistory(chainId: U64, genesis: World)
    requires chainId != 0 && genesis.chainId == chainId && NonceFree(genesis)
    ensures History(chainId, genesis, Ledger(genesis, [], map[]))
  {
  }

  lemma ExecuteSnoc(w: World, txs: seq<Transaction>, tx: Transaction)
    requires ExecuteAll(w, txs).Ok?
    ensures ExecuteAll(w, txs + [tx]) == Execute(ExecuteAll(w, txs).value, tx)
  {
    assert (txs + [tx])[..|txs|] == txs;
  }

  lemma ChainIdFixed(w: World, txs: seq<Transaction>)
    requires ExecuteAll(w, txs).Ok?
    ensures ExecuteAll(w, txs).value.chainId == w.chainId
  {
    if txs != [] {
      ChainIdFixed(w, txs[..|txs| - 1]);
    }
  }

  lemma AppendBlockOk(blocks: seq<Block>, block: Block, chainId: U64)
    requires BlocksOk(blocks, chainId)
    requires |blocks| < U64_MAX && block.header.height == |blocks| + 1
    requires block.header.parentHash == ParentOf(blocks, |blocks|) && block.header.chainId == chainId
    requires |block.transactions| == 1 && block.header.gasUsed <= block.header.gasLimit
    requires Committed(block, chainId)
    ensures BlocksOk(blocks + [block], chainId)
  {
    var longer := blocks + [block];
    forall i | 0 <= i < |longer| ensures BlockOk(longer, i, chainId) {
      if i < |blocks| {
        assert BlockOk(blocks, i, chainId) && longer[i] == blocks[i];
        assert ParentOf(longer, i) == ParentOf(blocks, i);
      }
    }
  }

  lemma AppendTxs(blocks: seq<Block>, block: Block)
    requires Single(blocks) && |block.transactions| == 1
    ensures Single(blocks + [block])
    ensures Txs(blocks + [block]) == Txs(blocks) + [block.transactions[0]]
    ensures ReceiptList(blocks + [block]) == ReceiptList(blocks) + [ReceiptFor(block)]
  {
    assert Single(blocks + [block]);
  }

  lemma AppendReceipt(list: seq<Receipt>, r: Receipt)
    ensures ToReceipts(list + [r]) == ToReceipts(list)[r.txHash := r]
  {
    assert (list + [r])[..|list|] == list;
  }

  lemma RootOfPrefix(genesis: World, txs: seq<Transaction>, tx: Transaction, n: nat, root: Hash)
    requires n <= |txs|
    ensures RootAfter(genesis, txs, n, root) <==> RootAfter(genesis, txs + [tx], n, root)
  {
    assert (txs + [tx])[..n] == txs[..n];
  }

  lemma AppendRoots(genesis: World, blocks: seq<Block>, block: Block, after: World)
    requires Single(blocks) && |block.transactions| == 1 && RootsFollow(genesis, blocks)
    requires ExecuteAll(genesis, Txs(blocks) + [block.transactions[0]]) == Ok(after)
    requires block.header.stateRoot == RootOf(after)
    ensures Single(blocks + [block]) && RootsFollow(genesis, blocks + [block])
  {
    AppendTxs(blocks, block);
    var longer, txs, tx := blocks + [block], Txs(blocks), block.transactions[0];
    forall i | 0 <= i < |longer| ensures RootAfter(genesis, Txs(longer), i + 1, longer[i].header.stateRoot) {
      if i < |blocks| {
        RootOfPrefix(genesis, txs, tx, i + 1, blocks[i].header.stateRoot);
      } else {
        assert (txs + [tx])[..i + 1] == txs + [tx];
      }
    }
  }

  function TipHeight(blocks: seq<Block>): U64 {
    if blocks == [] then 0 else blocks[|blocks| - 1].header.height
  }

  lemma TipHeightIsCount(blocks: seq<Block>, chainId: U64)
    requires BlocksOk(blocks, chainId)
    ensures TipHeight(blocks) == |blocks|
  {
    if blocks != [] {
      assert BlockOk(blocks, |blocks| - 1, chainId);
    }
  }

  ghost function NextBlock(chainId: U64, l: Ledger, tx: Transaction, now: U64): Block
    requires Execute(l.world, tx).Ok? && TipHeight(l.blocks) < U64_MAX
  {
    Seal(chainId, l.blocks, TipHeight(l.blocks) + 1, tx, RootOf(Execute(l.world, tx).value), now)
  }

  /** What sealing produces passes the block checks. */
  lemma NextBlockOk(chainId: U64, l: Ledger, tx: Transaction, now: U64)
    requires BlocksOk(l.blocks, chainId) && TipHeight(l.blocks) < U64_MAX && Execute(l.world, tx).Ok?
    requires tx.chainId == chainId && tx.gasLimit <= BLOCK_GAS_LIMIT
    ensures BlocksOk(l.blocks + [NextBlock(chainId, l, tx, now)], chainId)
  {
    TipHeightIsCount(l.blocks, chainId);
    AppendBlockOk(l.blocks, NextBlock(chainId, l, tx, now), chainId);
  }

  lemma ExtendHistory(chainId: U64, genesis: World, l: Ledger, block: Block, after: World)
    requires History(chainId, genesis, l) && BlocksOk(l.blocks + [block], chainId)
    requires |block.transactions| == 1 && Execute(l.world, block.transactions[0]) == Ok(after)
    requires block.header.stateRoot == RootOf(after)
    ensures History(chainId, genesis, Extend(l, block, after))
  {
    ExecuteSnoc(genesis, Txs(l.blocks), block.transactions[0]);
    AppendTxs(l.blocks, block);
    AppendRoots(genesis, l.blocks, block, after);
    AppendReceipt(ReceiptList(l.blocks), ReceiptFor(block));
  }

  lemma CommitIs(chainId: U64, l: Ledger, tx: Transaction, now: U64)
    requires Commit(chainId, l, tx, now).Ok?
    ensures tx.gasLimit <= BLOCK_GAS_LIMIT && Execute(l.world, tx).Ok? && TipHeight(l.blocks) < U64_MAX
    ensures tx.chainId == l.world.chainId
    ensures Commit(chainId, l, tx, now).value == Extend(l, NextBlock(chainId, l, tx, now), Execute(l.world, tx).value)
  {
  }

  /** A commit extends the ledger by exactly one block and keeps its history. */
  lemma CommitKeepsHistory(chainId: U64, genesis: World, l: Ledger, tx: Transaction, now: U64)
    requires History(chainId, genesis, l) && Commit(chainId, l, tx, now).Ok?
    ensures History(chainId, genesis, Commit(chainId, l, tx, now).value)
    ensures var m := Commit(chainId, l, tx, now).value;
            && |m.blocks| == |l.blocks| + 1 && m.blocks[..|l.blocks|] == l.blocks
            && m.blocks[|l.blocks|].transactions == [tx]
  {
    CommitIs(chainId, l, tx, now);
    NextBlockKeeps(chainId, genesis, l, tx, now);
  }

  lemma NextBlockKeeps(chainId: U64, genesis: World, l: Ledger, tx: Transaction, now: U64)
    requires History(chainId, genesis, l) && tx.chainId == l.world.chainId
    requires tx.gasLimit <= BLOCK_GAS_LIMIT && Execute(l.world, tx).Ok? && TipHeight(l.blocks) < U64_MAX
    ensures History(chainId, genesis, Extend(l, NextBlock(chainId, l, tx, now), Execute(l.world, tx).value))
  {
    ChainIdFixed(genesis, Txs(l.blocks));
    NextBlockOk(chainId, l, tx, now);
    ExtendHistory(chainId, genesis, l, NextBlock(chainId, l, tx, now), Execute(l.world, tx).value);
  }

  /** A transaction can be sealed next exactly when its gas fits a block and it executes. */
  lemma CommitIff(chainId: U64, genesis: World, l: Ledger, tx: Transaction, now: U64)
    requires History(chainId, genesis, l) && |l.blocks| < U64_MAX
    ensures Commit(chainId, l, tx, now).Ok? <==> tx.gasLimit <= 30_000_000 && Payable(l.world, tx)
  {
    TipHeightIsCount(l.blocks, chainId);
    ExecuteIff(l.world, tx);
  }

  /** What a commit adds: the world the transaction leaves, and a block at the next height, at that time, over that world. */
  lemma CommitAdds(chainId: U64, genesis: World, l: Ledger, tx: Transaction, now: U64)
    requires History(chainId, genesis, l) && Commit(chainId, l, tx, now).Ok?
    ensures var m := Commit(chainId, l, tx, now).value;
            && Execute(l.world, tx) == Ok(m.world)
            && |m.blocks| == |l.blocks| + 1
            && var header := m.blocks[|l.blocks|].header;
            && header.height == |l.blocks| + 1 && header.timestamp == now && header.chainId == chainId
            && header.stateRoot == RootOf(m.world) && header.gasUsed == tx.gasLimit
            && (l.blocks != [] ==> header.parentHash == l.blocks[|l.blocks| - 1].Hash())
            && tx.Hash() in m.receipts && m.receipts[tx.Hash()].blockHeight == |l.blocks| + 1
            && m.receipts[tx.Hash()].blockHash == m.blocks[|l.blocks|].Hash()
  {
    CommitIs(chainId, l, tx, now);
    TipHeightIsCount(l.blocks, chainId);
  }
}
