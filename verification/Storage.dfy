/** The integrity gate every loaded ledger passes: what it accepts, and what its acceptance fixes. */
module Storage {
  import opened Prelude
  import opened Core
  import opened WorldState

  datatype ChainError =
    | BadSequence(height: nat)
    | BadCommitment(height: nat)
    | ReceiptCount
    | DuplicateReceipt
    | UnknownBlock
    | BadReceipt(height: nat)
    | StateMismatch

  // ---------------------------------------------------------------- what is checked

  function ParentOf(blocks: seq<Block>, i: nat): Hash
    requires i <= |blocks|
  {
    if i == 0 then Zero else blocks[i - 1].Hash()
  }

  predicate Linked(blocks: seq<Block>, i: nat, chainId: U64)
    requires i < |blocks|
  {
    var header := blocks[i].header;
    && header.height == i + 1
    && header.parentHash == ParentOf(blocks, i)
    && header.chainId == chainId
    && |blocks[i].transactions| == 1
    && header.gasUsed <= header.gasLimit
  }

  predicate Committed(block: Block, chainId: U64)
    requires |block.transactions| == 1
  {
    var header, tx := block.header, block.transactions[0];
    && header.txRoot == TxRootOf([tx.Hash()])
    && tx.chainId == chainId
    && header.gasUsed == tx.gasLimit
    && header.receiptRoot == ReceiptRoot(tx.Hash(), header.height, header.gasUsed)
  }

  predicate BlockOk(blocks: seq<Block>, i: nat, chainId: U64)
    requires i < |blocks|
  {
    Linked(blocks, i, chainId) && Committed(blocks[i], chainId)
  }

  ghost predicate BlocksOk(blocks: seq<Block>, chainId: U64) {
    forall i | 0 <= i < |blocks| :: BlockOk(blocks, i, chainId)
  }

  predicate Contains(txs: seq<Transaction>, h: Hash) {
    exists i | 0 <= i < |txs| :: txs[i].Hash() == h
  }

  predicate Describes(r: Receipt, block: Block) {
    && r.blockHeight == block.header.height
    && Contains(block.transactions, r.txHash)
    && r.status == Success
    && r.gasUsed == block.header.gasUsed
    && ReceiptRoot(r.txHash, r.blockHeight, r.gasUsed) == block.header.receiptRoot
  }

  /** The receipt names a block of the chain and describes it. */
  predicate ReceiptOk(r: Receipt, blocks: seq<Block>) {
    exists i | 0 <= i < |blocks| :: blocks[i].Hash() == r.blockHash && Describes(r, blocks[i])
  }

  ghost predicate DistinctTargets(receipts: seq<Receipt>) {
    forall i, j | 0 <= i < j < |receipts| :: receipts[i].blockHash != receipts[j].blockHash
  }

  ghost predicate ReceiptsOk(receipts: seq<Receipt>, blocks: seq<Block>) {
    DistinctTargets(receipts) && forall j | 0 <= j < |receipts| :: ReceiptOk(receipts[j], blocks)
  }

  predicate TipMatches(blocks: seq<Block>, root: Hash) {
    blocks == [] || blocks[|blocks| - 1].header.stateRoot == root
  }

  ghost predicate ChainValid(blocks: seq<Block>, receipts: seq<Receipt>, chainId: U64, root: Hash) {
    && BlocksOk(blocks, chainId)
    && |blocks| == |receipts|
    && ReceiptsOk(receipts, blocks)
    && TipMatches(blocks, root)
  }

  /** The fault a rejection names is really there, and the checks before it had passed. */
  ghost predicate Blames(e: ChainError, blocks: seq<Block>, receipts: seq<Receipt>, chainId: U64, root: Hash) {
    match e
    case BadSequence(h) =>
      && 0 < h <= |blocks| && !Linked(blocks, h - 1, chainId)
      && forall i | 0 <= i < h - 1 :: BlockOk(blocks, i, chainId)
    case BadCommitment(h) =>
      && 0 < h <= |blocks| && Linked(blocks, h - 1, chainId) && !Committed(blocks[h - 1], chainId)
      && forall i | 0 <= i < h - 1 :: BlockOk(blocks, i, chainId)
    case ReceiptCount => BlocksOk(blocks, chainId) && |blocks| != |receipts|
    case DuplicateReceipt => BlocksOk(blocks, chainId) && !DistinctTargets(receipts)
    case UnknownBlock =>
      exists j | 0 <= j < |receipts| :: forall i | 0 <= i < |blocks| :: blocks[i].Hash() != receipts[j].blockHash
    case BadReceipt(h) =>
      exists j | 0 <= j < |receipts| :: receipts[j].blockHeight == h && !ReceiptOk(receipts[j], blocks)
    case StateMismatch => BlocksOk(blocks, chainId) && ReceiptsOk(receipts, blocks) && !TipMatches(blocks, root)
  }

  // ---------------------------------------------------------------- the two passes

  /** The pass over the blocks, with the running parent hash. */
  method CheckBlocks(blocks: seq<Block>, chainId: U64) returns (r: Result<(), ChainError>)
    ensures r.Ok? <==> BlocksOk(blocks, chainId)
    ensures r.Err? ==> (r.error.BadSequence? || r.error.BadCommitment?) && Blames(r.error, blocks, [], chainId, Zero)
  {
    var parent := Zero;
    for i := 0 to |blocks|
      invariant parent == ParentOf(blocks, i)
      invariant forall j | 0 <= j < i :: BlockOk(blocks, j, chainId)
    {
      var block := blocks[i];
      if || block.header.height != i + 1
         || block.header.parentHash != parent
         || block.header.chainId != chainId
         || |block.transactions| != 1
         || block.header.gasUsed > block.header.gasLimit
      {
        assert !BlockOk(blocks, i, chainId);
        return Err(BadSequence(i + 1));
      }
      var tx := block.transactions[0];
      if || block.header.txRoot != TxRootOf([tx.Hash()])
         || tx.chainId != chainId
         || block.header.gasUsed != tx.gasLimit
         || block.header.receiptRoot != ReceiptRoot(tx.Hash(), block.header.height, block.header.gasUsed)
      {
        assert !BlockOk(blocks, i, chainId);
        return Err(BadCommitment(i + 1));
      }
      parent := block.Hash();
    }
    return Ok(());
  }

  /** Headers carry their height, so distinct positions have distinct hashes. */
  lemma HashesDistinct(blocks: seq<Block>, chainId: U64, i: nat, j: nat)
    requires BlocksOk(blocks, chainId) && i < |blocks| && j < |blocks|
    requires blocks[i].Hash() == blocks[j].Hash()
    ensures i == j
  {
    assert BlockOk(blocks, i, chainId) && BlockOk(blocks, j, chainId);
  }

  /** The first block with the given hash, if any. */
  method FindBlock(blocks: seq<Block>, h: Hash) returns (r: Option<nat>)
    ensures r.Some? ==> r.value < |blocks| && blocks[r.value].Hash() == h
    ensures r.None? ==> forall i | 0 <= i < |blocks| :: blocks[i].Hash() != h
  {
    for i := 0 to |blocks|
      invariant forall j | 0 <= j < i :: blocks[j].Hash() != h
    {
      if blocks[i].Hash() == h {
        return Some(i);
      }
    }
    return None;
  }

  /** The pass over the receipts, with the growing set of blocks already claimed. */
  method CheckReceipts(receipts: seq<Receipt>, blocks: seq<Block>, chainId: U64) returns (r: Result<(), ChainError>)
    requires BlocksOk(blocks, chainId)
    ensures r.Ok? <==> ReceiptsOk(receipts, blocks)
    ensures r.Err? ==> Blames(r.error, blocks, receipts, chainId, Zero) && !r.error.StateMismatch?
  {
    var claimed: set<Hash> := {};
    for i := 0 to |receipts|
      invariant forall h :: h in claimed <==> exists j :: 0 <= j < i && receipts[j].blockHash == h
      invariant DistinctTargets(receipts[..i])
      invariant forall j | 0 <= j < i :: ReceiptOk(receipts[j], blocks)
    {
      var receipt := receipts[i];
      if receipt.blockHash in claimed {
        return Err(DuplicateReceipt);
      }
      claimed := claimed + {receipt.blockHash};
      var found := FindBlock(blocks, receipt.blockHash);
      if found.None? {
        return Err(UnknownBlock);
      }
      if !Describes(receipt, blocks[found.value]) {
        OnlyCandidate(receipt, blocks, chainId, found.value);
        return Err(BadReceipt(receipt.blockHeight));
      }
    }
    assert receipts[..|receipts|] == receipts;
    return Ok(());
  }

  lemma OnlyCandidate(r: Receipt, blocks: seq<Block>, chainId: U64, i: nat)
    requires BlocksOk(blocks, chainId) && i < |blocks| && blocks[i].Hash() == r.blockHash
    ensures ReceiptOk(r, blocks) <==> Describes(r, blocks[i])
  {
    if ReceiptOk(r, blocks) {
      var j :| 0 <= j < |blocks| && blocks[j].Hash() == r.blockHash && Describes(r, blocks[j]);
      HashesDistinct(blocks, chainId, i, j);
    }
  }

  /** The whole gate: both passes, then the newest header against the restored state. */
  method ValidateChain(blocks: seq<Block>, receipts: seq<Receipt>, chainId: U64, state: State)
    returns (r: Result<(), ChainError>)
    ensures r.Ok? <==> ChainValid(blocks, receipts, chainId, RootOf(state.View()))
    ensures r.Err? ==> Blames(r.error, blocks, receipts, chainId, RootOf(state.View()))
  {
    r := CheckBlocks(blocks, chainId);
    if r.Err? {
      return;
    }
    if |blocks| != |receipts| {
      return Err(ReceiptCount);
    }
    r := CheckReceipts(receipts, blocks, chainId);
    if r.Err? {
      return;
    }
    var snapshot := state.Snapshot();
    if blocks != [] && OfSnapshot(snapshot) != blocks[|blocks| - 1].header.stateRoot {
      return Err(StateMismatch);
    }
    return Ok(());
  }

  // ---------------------------------------------------------------- receipts and blocks correspond

  function Targets(receipts: seq<Receipt>): seq<Hash> {
    seq(|receipts|, i requires 0 <= i < |receipts| => receipts[i].blockHash)
  }

  function BlockHashes(blocks: seq<Block>): seq<Hash> {
    seq(|blocks|, i requires 0 <= i < |blocks| => blocks[i].Hash())
  }

  lemma {:induction false} DistinctCount<T>(s: seq<T>)
    requires forall i, j | 0 <= i < j < |s| :: s[i] != s[j]
    ensures |Elements(s)| == |s|
  {
    if s != [] {
      var rest, last := s[..|s| - 1], s[|s| - 1];
      DistinctCount(rest);
      assert Elements(s) == Elements(rest) + {last};
    }
  }

  lemma {:induction false} ElementCount<T>(s: seq<T>)
    ensures |Elements(s)| <= |s|
  {
    if s != [] {
      var rest, last := s[..|s| - 1], s[|s| - 1];
      ElementCount(rest);
      assert Elements(s) == Elements(rest) + {last};
    }
  }

  lemma {:induction false} FullSubset<T>(a: set<T>, b: set<T>)
    requires a <= b && |b| <= |a|
    ensures a == b
  {
    if a == {} {
    } else {
      var x :| x in a;
      FullSubset(a - {x}, b - {x});
    }
  }

  /** As many distinct targets as blocks, all of them blocks: every block is a target. */
  lemma EveryBlockTargeted(blocks: seq<Block>, receipts: seq<Receipt>)
    requires |blocks| == |receipts| && ReceiptsOk(receipts, blocks)
    ensures Elements(Targets(receipts)) == Elements(BlockHashes(blocks))
  {
    var targets, hashes := Targets(receipts), BlockHashes(blocks);
    DistinctCount(targets);
    ElementCount(hashes);
    forall h | h in Elements(targets) ensures h in Elements(hashes) {
      var j :| 0 <= j < |targets| && targets[j] == h;
      assert ReceiptOk(receipts[j], blocks);
      var i :| 0 <= i < |blocks| && blocks[i].Hash() == receipts[j].blockHash;
      assert hashes[i] == h;
    }
    FullSubset(Elements(targets), Elements(hashes));
  }

  /** The receipt `r` belongs to the block at position `i` and records its only transaction. */
  ghost predicate Belongs(r: Receipt, blocks: seq<Block>, i: nat)
    requires i < |blocks|
  {
    && r.blockHash == blocks[i].Hash()
    && r.blockHeight == i + 1
    && |blocks[i].transactions| == 1
    && r.txHash == blocks[i].transactions[0].Hash()
    && r.gasUsed == blocks[i].transactions[0].gasLimit
    && r.status == Success
  }

  /** Acceptance puts receipts and blocks in one-to-one correspondence. */
  lemma ReceiptsMatchBlocks(blocks: seq<Block>, receipts: seq<Receipt>, chainId: U64, root: Hash, i: nat)
    requires ChainValid(blocks, receipts, chainId, root) && i < |blocks|
    ensures exists j | 0 <= j < |receipts| ::
              && Belongs(receipts[j], blocks, i)
              && forall k | 0 <= k < |receipts| && receipts[k].blockHash == blocks[i].Hash() :: k == j
  {
    EveryBlockTargeted(blocks, receipts);
    assert BlockHashes(blocks)[i] in Elements(Targets(receipts));
    var j :| 0 <= j < |receipts| && Targets(receipts)[j] == blocks[i].Hash();
    assert BlockOk(blocks, i, chainId) && ReceiptOk(receipts[j], blocks);
    OnlyCandidate(receipts[j], blocks, chainId, i);
    assert Belongs(receipts[j], blocks, i);
  }

  // ---------------------------------------------------------------- the tip fixes the history

  lemma {:induction false} HeadersFixed(a: seq<Block>, b: seq<Block>, chainId: U64, i: nat)
    requires BlocksOk(a, chainId) && BlocksOk(b, chainId) && |a| == |b| && i < |a|
    requires a[|a| - 1].Hash() == b[|b| - 1].Hash()
    ensures a[i].header == b[i].header
    decreases |a| - i
  {
    if i + 1 < |a| {
      HeadersFixed(a, b, chainId, i + 1);
      assert BlockOk(a, i + 1, chainId) && BlockOk(b, i + 1, chainId);
    }
  }

  /**
   Two accepted ledgers with the same tip hash agree on their length, on every header and
   transaction, and on the whole account state.
   */
  lemma TipFixesLedger(
    a: seq<Block>, b: seq<Block>, ra: seq<Receipt>, rb: seq<Receipt>, chainId: U64, va: World, vb: World)
    requires ChainValid(a, ra, chainId, RootOf(va)) && ChainValid(b, rb, chainId, RootOf(vb))
    requires a != [] && b != [] && a[|a| - 1].Hash() == b[|b| - 1].Hash()
    ensures |a| == |b|
    ensures forall i | 0 <= i < |a| :: a[i].header == b[i].header && a[i].transactions == b[i].transactions
    ensures va == vb
  {
    assert BlockOk(a, |a| - 1, chainId) && BlockOk(b, |b| - 1, chainId);
    forall i | 0 <= i < |a| ensures a[i].header == b[i].header && a[i].transactions == b[i].transactions {
      HeadersFixed(a, b, chainId, i);
      assert BlockOk(a, i, chainId) && BlockOk(b, i, chainId);
      assert TxRootOf([a[i].transactions[0].Hash()]).hashes[0] == TxRootOf([b[i].transactions[0].Hash()]).hashes[0];
      assert a[i].transactions == [a[i].transactions[0]] && b[i].transactions == [b[i].transactions[0]];
    }
    RootDeterminesWorld(va, vb);
  }

  /** What the tip does not fix: block signatures can be replaced in any accepted ledger. */
  lemma SignaturesAreFree(
    blocks: seq<Block>, receipts: seq<Receipt>, chainId: U64, root: Hash, i: nat, signatures: seq<ValidatorSignature>)
    requires ChainValid(blocks, receipts, chainId, root) && i < |blocks|
    ensures ChainValid(blocks[i := blocks[i].(signatures := signatures)], receipts, chainId, root)
  {
    var other := blocks[i := blocks[i].(signatures := signatures)];
    assert forall k | 0 <= k < |blocks| ::
        other[k].header == blocks[k].header && other[k].transactions == blocks[k].transactions;
    forall k | 0 <= k < |other| ensures BlockOk(other, k, chainId) {
      assert BlockOk(blocks, k, chainId);
    }
    forall j | 0 <= j < |receipts| ensures ReceiptOk(receipts[j], other) {
      assert ReceiptOk(receipts[j], blocks);
      var k :| 0 <= k < |blocks| && blocks[k].Hash() == receipts[j].blockHash && Describes(receipts[j], blocks[k]);
      assert other[k].Hash() == receipts[j].blockHash && Describes(receipts[j], other[k]);
    }
  }

  /** Nor are the logs and contract address of a receipt committed to. */
  lemma LogsAreFree(
    blocks: seq<Block>, receipts: seq<Receipt>, chainId: U64, root: Hash, i: nat, logs: seq<Log>, contract: Option<Address>)
    requires ChainValid(blocks, receipts, chainId, root) && i < |receipts|
    ensures ChainValid(blocks, receipts[i := receipts[i].(logs := logs, contractAddress := contract)], chainId, root)
  {
    var other := receipts[i := receipts[i].(logs := logs, contractAddress := contract)];
    forall j | 0 <= j < |other| ensures ReceiptOk(other[j], blocks) {
      assert ReceiptOk(receipts[j], blocks);
      var k :| 0 <= k < |blocks| && blocks[k].Hash() == receipts[j].blockHash && Describes(receipts[j], blocks[k]);
      assert blocks[k].Hash() == other[j].blockHash && Describes(other[j], blocks[k]);
    }
  }
}
