/** The shared node state behind the RPC surface: its fields, its commit path, and its start-up. */
module RpcNode {
  import opened Prelude
  import opened Core
  import opened Ordering
  import opened WorldState
  import opened Mempool
  import opened PoolStore
  import Storage
  import opened LedgerFile
  import opened Ledger
  import opened LedgerLoads
  import opened CommitPath

  class RpcState {
    const chainId: U64
    const mempool: TxPool
    const store: LedgerStore
    var state: State
    var blocks: seq<Block>
    var receipts: map<Hash, Receipt>
    var blockHeight: U64

    function View(): Memory
      reads this, state, mempool
    {
      Memory(Ledger(state.View(), blocks, receipts), mempool.txs, blockHeight)
    }

    ghost predicate Valid()
      reads this, state, mempool
    {
      && store.chainId == chainId
      && mempool.Valid()
      && Ranked(View().ledger)
      && blockHeight == TipHeight(blocks)
    }

    /** Start from what the store loads, with an empty pool. */
    constructor (store: LedgerStore, config: Config, restored: Restored)
      requires config.Valid() && LoadFile(store.chainId, store.disk.target) == Some(restored)
      ensures Valid() && fresh(mempool) && fresh(state)
      ensures this.store == store && mempool.config == config && View() == Started(restored)
    {
      LoadedRanked(store.chainId, store.disk.target);
      chainId := store.chainId;
      this.store := store;
      mempool := new TxPool(config);
      state := new State(restored.world);
      blocks := restored.blocks;
      var byHash := IndexReceipts(restored.receipts);
      receipts := byHash;
      blockHeight := TipHeight(restored.blocks);
    }

    /** Hands a candidate ledger to the store, receipts sorted by height. */
    method Persist(candidate: State, nextBlocks: seq<Block>, nextReceipts: map<Hash, Receipt>, io: Io)
      returns (r: Result<(), RpcError>)
      requires store.chainId == chainId && Ranked(Ledger(candidate.View(), nextBlocks, nextReceipts))
      modifies store`disk
      ensures var (disk, written) :=
                PersistTo(chainId, old(store.disk), Encoded(chainId, Ledger(candidate.View(), nextBlocks, nextReceipts)), io);
              && store.disk == disk
              && r == if written.Ok? then Ok(()) else Err(Persistence(written.error))
    {
      RankedTotal(Ledger(candidate.View(), nextBlocks, nextReceipts));
      var ordered := Sort(nextReceipts.Values, ByHeight);
      var snapshot := candidate.Snapshot();
      var written := store.Persist(LedgerSnapshot(chainId, snapshot, nextBlocks, ordered), io);
      return if written.Ok? then Ok(()) else Err(Persistence(written.error));
    }

    /** Executes a transaction on a copy of the state and seals a block over the result. */
    method SealOnCopy(tx: Transaction, now: U64) returns (r: Result<(State, Block), RpcError>)
      ensures r.Err? ==>
        Commit(chainId, View().ledger, tx, now).Err? && r.error == Refused(Commit(chainId, View().ledger, tx, now).error)
      ensures r.Ok? ==>
        var (candidate, block) := r.value;
        && fresh(candidate) && block.transactions == [tx]
        && TipHeight(blocks) < U64_MAX && block.header.height == TipHeight(blocks) + 1
        && Commit(chainId, View().ledger, tx, now) == Ok(Extend(View().ledger, block, candidate.View()))
    {
      if tx.gasLimit > BLOCK_GAS_LIMIT {
        return Err(Refused(GasAboveBlockLimit));
      }
      var candidate := new State(state.View());
      var applied := candidate.ApplyTransaction(tx);
      if applied.Err? {
        return Err(Refused(Rejected(applied.error)));
      }
      if TipHeight(blocks) == U64_MAX {
        return Err(Refused(HeightOverflow));
      }
      var snapshot := candidate.Snapshot();
      var block := Seal(chainId, blocks, TipHeight(blocks) + 1, tx, OfSnapshot(snapshot), now);
      return Ok((candidate, block));
    }

    /** Commits one pending transaction: seal on a copy, persist, and only then swap every view. */
    method SealNextBlock(hash: Hash, now: U64, io: Io) returns (r: Result<Receipt, RpcError>)
      requires Valid()
      modifies this`state, this`blocks, this`receipts, this`blockHeight, mempool, store`disk
      ensures Valid()
      ensures (View(), store.disk, HashOf(r)) == SealNext(chainId, old(View()), old(store.disk), hash, now, io)
      ensures r.Ok? ==> r.value.txHash == hash && hash in receipts && receipts[hash] == r.value
    {
      if hash !in mempool.txs {
        return Err(InvalidTxHash);
      }
      var tx := mempool.txs[hash];
      var sealed := SealOnCopy(tx, now);
      if sealed.Err? {
        return Err(sealed.error);
      }
      var (candidate, block) := sealed.value;
      ghost var memory, disk := View(), store.disk;
      ghost var next := Extend(memory.ledger, block, candidate.View());
      ExtendRanked(memory.ledger, block, candidate.View());
      r := PersistAndSwap(hash, io, candidate, block, next);
      if r.Ok? {
        SealWritten(chainId, memory, disk, hash, now, io, next);
      } else {
        SealUnwritten(chainId, memory, disk, hash, now, io, next);
      }
    }

    /** Durability before visibility: nothing is swapped in unless the write succeeds. */
    method PersistAndSwap(hash: Hash, io: Io, candidate: State, block: Block, ghost next: Ledger)
      returns (r: Result<Receipt, RpcError>)
      requires Valid() && candidate != state
      requires |block.transactions| == 1 && block.transactions[0].Hash() == hash
      requires next == Extend(View().ledger, block, candidate.View()) && Ranked(next)
      modifies this`state, this`blocks, this`receipts, this`blockHeight, mempool, store`disk
      ensures Valid()
      ensures store.disk == PersistTo(chainId, old(store.disk), Encoded(chainId, next), io).0
      ensures r.Ok? <==> PersistTo(chainId, old(store.disk), Encoded(chainId, next), io).1.Ok?
      ensures r.Ok? ==>
        View() == Memory(next, old(mempool.txs) - {hash}, TipHeight(next.blocks)) && r.value == ReceiptFor(block)
      ensures r.Err? ==>
        && View() == old(View())
        && r.error == Persistence(PersistTo(chainId, old(store.disk), Encoded(chainId, next), io).1.error)
    {
      var receipt := ReceiptFor(block);
      var nextBlocks := blocks + [block];
      var nextReceipts := receipts[hash := receipt];
      var persisted := Persist(candidate, nextBlocks, nextReceipts, io);
      if persisted.Err? {
        return Err(persisted.error);
      }
      SwapIn(hash, candidate, nextBlocks, nextReceipts, block.header.height);
      return Ok(receipt);
    }

    /** The writes that make a commit visible, in the order readers can observe them. */
    method SwapIn(hash: Hash, candidate: State, nextBlocks: seq<Block>, nextReceipts: map<Hash, Receipt>, height: U64)
      requires mempool.Valid()
      modifies this`state, this`blocks, this`receipts, this`blockHeight, mempool
      ensures mempool.Valid()
      ensures View() == Memory(Ledger(candidate.View(), nextBlocks, nextReceipts), old(mempool.txs) - {hash}, height)
    {
      state := candidate;
      var removed := mempool.Remove(hash);
      blocks := nextBlocks;
      receipts := nextReceipts;
      blockHeight := height;
    }

    /** Undoes an admission: the new transaction out, the slot's old one and the displaced one back. */
    method RestorePool(hash: Hash, previous: Option<Transaction>, displaced: Option<Transaction>)
      requires Valid()
      modifies mempool
      ensures Valid()
      ensures View() == old(View()).(pool := RollBack(mempool.config, old(View()).pool, hash, previous, displaced))
    {
      var removed := mempool.Remove(hash);
      if previous.Some? {
        var again := mempool.Admit(previous.value);
      }
      if displaced.Some? {
        var again := mempool.Admit(displaced.value);
      }
    }

    /** Admit, commit, and on any failure put the pool back. */
    method AdmitAndSeal(tx: Transaction, now: U64, io: Io) returns (r: Result<Hash, RpcError>)
      requires Valid()
      modifies this`state, this`blocks, this`receipts, this`blockHeight, mempool, store`disk
      ensures Valid()
      ensures (View(), store.disk, r) == Submit(mempool.config, chainId, old(View()), old(store.disk), tx, now, io)
    {
      var previous := mempool.GetBySenderNonce(tx.from, tx.nonce);
      var admission := mempool.Admit(tx);
      if admission.Err? {
        return Err(PoolRefused(admission.error));
      }
      if !admission.value.accepted {
        return Err(Underpriced);
      }
      r := SealOrRestore(admission.value.hash, previous, admission.value.displaced, now, io);
    }

    /** Commits an admitted transaction, or undoes its admission. */
    method SealOrRestore(hash: Hash, previous: Option<Transaction>, displaced: Option<Transaction>, now: U64, io: Io)
      returns (r: Result<Hash, RpcError>)
      requires Valid()
      modifies this`state, this`blocks, this`receipts, this`blockHeight, mempool, store`disk
      ensures Valid()
      ensures (View(), store.disk, r)
           == SealOrRollBack(mempool.config, chainId, old(View()), old(store.disk), hash, previous, displaced, now, io)
    {
      ghost var memory, disk := View(), store.disk;
      var sealed := SealNextBlock(hash, now, io);
      SealOrRollBackIs(mempool.config, chainId, memory, disk, hash, previous, displaced, now, io, View(), store.disk, HashOf(sealed));
      if sealed.Ok? {
        return Ok(sealed.value.txHash);
      }
      RestorePool(hash, previous, displaced);
      return Err(sealed.error);
    }

    /** A submission either commits the transaction or leaves every view, and both pool indexes, as they were. */
    method SubmitTransaction(tx: Transaction, now: U64, io: Io) returns (r: Result<Hash, RpcError>)
      requires Valid()
      modifies this`state, this`blocks, this`receipts, this`blockHeight, mempool, store`disk
      ensures Valid()
      ensures (View(), store.disk, r) == Submit(mempool.config, chainId, old(View()), old(store.disk), tx, now, io)
      ensures r.Err? ==> View() == old(View()) && mempool.bySender == old(mempool.bySender)
    {
      ghost var before, disk, index := View(), store.disk, mempool.bySender;
      r := AdmitAndSeal(tx, now, io);
      if r.Err? {
        FailedSubmitKeepsMemory(mempool.config, chainId, before, disk, tx, now, io);
        InverseUnique(mempool.txs, mempool.bySender, index);
      }
    }

    /** A copy of the state with the allocations set one by one. */
    method SeededCopy(allocations: seq<(Address, U128)>) returns (candidate: State)
      ensures fresh(candidate) && candidate.View() == SeedWorld(state.View(), allocations)
    {
      ghost var world := state.View();
      candidate := new State(state.View());
      for i := 0 to |allocations|
        invariant fresh(candidate) && candidate.View() == SeedWorld(world, allocations[..i])
      {
        candidate.SetBalance(allocations[i].0, allocations[i].1);
        assert allocations[..i + 1][..i] == allocations[..i];
      }
      assert allocations[..|allocations|] == allocations;
    }

    /** Sets balances and persists them; the live state is replaced only once the write succeeds. */
    method SeedAccounts(allocations: seq<(Address, U128)>, io: Io) returns (r: Result<(), RpcError>)
      requires Valid()
      modifies this`state, store`disk
      ensures Valid()
      ensures (View(), store.disk, r) == Seed(chainId, old(View()), old(store.disk), allocations, io)
    {
      var candidate := SeededCopy(allocations);
      var persisted := Persist(candidate, blocks, receipts, io);
      if persisted.Err? {
        return Err(persisted.error);
      }
      state := candidate;
      return Ok(());
    }
  }

  /**
   Starts a node on a store: load whatever is there, and apply the genesis allocations only when
   there was no ledger file.
   */
  method Bootstrap(store: LedgerStore, config: Config, allocations: seq<(Address, U128)>, io: Io)
    returns (node: RpcState?)
    requires config.Valid() && store.chainId != 0
    modifies store`disk
    ensures node != null ==> node.Valid() && fresh(node) && node.store == store
    ensures (store.disk, if node == null then None else Some(node.View()))
         == Boot(store.chainId, old(store.disk), allocations, io)
  {
    var isFresh := store.disk.target.None?;
    var restored := store.Load();
    if restored.Err? {
      return null;
    }
    var started := new RpcState(store, config, restored.value);
    if isFresh && allocations != [] {
      var seeded := started.SeedAccounts(allocations, io);
      if seeded.Err? {
        return null;
      }
    }
    return started;
  }

  /** A sealed block is reported by its receipt; the caller only needs the transaction hash. */
  function HashOf(r: Result<Receipt, RpcError>): Result<Hash, RpcError> {
    match r case Ok(receipt) => Ok(receipt.txHash) case Err(e) => Err(e)
  }

  /** Collect receipts into a map keyed by transaction hash. */
  method IndexReceipts(list: seq<Receipt>) returns (m: map<Hash, Receipt>)
    ensures m == ToReceipts(list)
  {
    m := map[];
    for i := 0 to |list|
      invariant m == ToReceipts(list[..i])
    {
      m := m[list[i].txHash := list[i]];
      assert list[..i + 1][..i] == list[..i];
    }
    assert list[..|list|] == list;
  }

  // ---------------------------------------------------------------- receipts by height

  /** No two receipts share a height and none is above the tip, so sorting by height has no ties. */
  ghost predicate Ranked(l: Ledger) {
    && (forall h | h in l.receipts :: l.receipts[h].blockHeight <= TipHeight(l.blocks))
    && (forall g, h | g in l.receipts && h in l.receipts && l.receipts[g].blockHeight == l.receipts[h].blockHeight ::
          l.receipts[g] == l.receipts[h])
  }

  lemma RankedTotal(l: Ledger)
    requires Ranked(l)
    ensures StrictTotalOn(l.receipts.Values, ByHeight)
  {
    forall x, y | x in l.receipts.Values && y in l.receipts.Values && x != y ensures ByHeight(x, y) || ByHeight(y, x) {
      var g :| g in l.receipts && l.receipts[g] == x;
      var h :| h in l.receipts && l.receipts[h] == y;
    }
  }

  /** The new receipt is above all others, whatever it replaces. */
  lemma ExtendRanked(l: Ledger, block: Block, after: World)
    requires Ranked(l) && |block.transactions| == 1
    requires TipHeight(l.blocks) < U64_MAX && block.header.height == TipHeight(l.blocks) + 1
    ensures Ranked(Extend(l, block, after))
  {
  }

  lemma {:induction false} IndexedFrom(list: seq<Receipt>, h: Hash)
    requires h in ToReceipts(list)
    ensures ToReceipts(list)[h] in list
  {
    var last := list[|list| - 1];
    if h != last.txHash {
      IndexedFrom(list[..|list| - 1], h);
    }
  }

  lemma ValidReceiptHeight(blocks: seq<Block>, receipts: seq<Receipt>, chainId: U64, j: nat) returns (i: nat)
    requires Storage.BlocksOk(blocks, chainId) && Storage.ReceiptsOk(receipts, blocks) && j < |receipts|
    ensures i < |blocks| && blocks[i].Hash() == receipts[j].blockHash && receipts[j].blockHeight == i + 1
  {
    assert Storage.ReceiptOk(receipts[j], blocks);
    i :| 0 <= i < |blocks| && blocks[i].Hash() == receipts[j].blockHash && Storage.Describes(receipts[j], blocks[i]);
    assert Storage.BlockOk(blocks, i, chainId);
  }

  lemma IndexedAt(receipts: seq<Receipt>, h: Hash) returns (j: nat)
    requires h in ToReceipts(receipts)
    ensures j < |receipts| && receipts[j] == ToReceipts(receipts)[h]
  {
    IndexedFrom(receipts, h);
    j :| 0 <= j < |receipts| && receipts[j] == ToReceipts(receipts)[h];
  }

  lemma SameHeightSame(blocks: seq<Block>, receipts: seq<Receipt>, chainId: U64, j: nat, k: nat)
    requires Storage.BlocksOk(blocks, chainId) && Storage.ReceiptsOk(receipts, blocks)
    requires j < |receipts| && k < |receipts| && receipts[j].blockHeight == receipts[k].blockHeight
    ensures j == k
  {
    var x := ValidReceiptHeight(blocks, receipts, chainId, j);
    var y := ValidReceiptHeight(blocks, receipts, chainId, k);
    assert receipts[j].blockHash == receipts[k].blockHash;
  }

  lemma ValidIsRanked(l: Ledger, receipts: seq<Receipt>, chainId: U64)
    requires Storage.BlocksOk(l.blocks, chainId) && Storage.ReceiptsOk(receipts, l.blocks)
    requires l.receipts == ToReceipts(receipts)
    ensures Ranked(l)
  {
    forall h | h in l.receipts ensures l.receipts[h].blockHeight <= TipHeight(l.blocks) {
      TipHeightIsCount(l.blocks, chainId);
      var j := IndexedAt(receipts, h);
      var i := ValidReceiptHeight(l.blocks, receipts, chainId, j);
    }
    forall g, h | g in l.receipts && h in l.receipts && l.receipts[g].blockHeight == l.receipts[h].blockHeight
      ensures l.receipts[g] == l.receipts[h]
    {
      var j := IndexedAt(receipts, g);
      var k := IndexedAt(receipts, h);
      SameHeightSame(l.blocks, receipts, chainId, j, k);
    }
  }

  /** Whatever loads can be sorted again when it is next written. */
  lemma LoadedRanked(chainId: U64, file: Option<Content>)
    requires LoadFile(chainId, file).Some?
    ensures Ranked(Loaded(LoadFile(chainId, file).value))
  {
    var restored := LoadFile(chainId, file).value;
    if file.Some? {
      ValidIsRanked(Loaded(restored), restored.receipts, chainId);
    }
  }
}
