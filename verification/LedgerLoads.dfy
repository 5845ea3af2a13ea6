/**
 A ledger with a history can always be written and read back. Writing checks only chain ids and
 size, so that the file will pass the validation on the next start has to follow from how the
 ledger was produced: one receipt per block rests on no transaction being committed twice.
 */
module LedgerLoads {
  import opened Prelude
  import opened Core
  import opened Ordering
  import opened WorldState
  import opened Storage
  import opened LedgerFile
  import opened Ledger

  predicate ByHeight(x: Receipt, y: Receipt) {
    x.blockHeight < y.blockHeight
  }

  /** The snapshot handed to the store: receipts leave their hash map in height order. */
  ghost function Encoded(chainId: U64, l: Ledger): LedgerSnapshot {
    LedgerSnapshot(chainId, SnapshotOf(l.world), l.blocks, SortedSeq(l.receipts.Values, ByHeight))
  }

  /** The ledger a node starts from once loading has succeeded. */
  function Loaded(r: Restored): Ledger {
    Ledger(r.world, r.blocks, ToReceipts(r.receipts))
  }

  // ---------------------------------------------------------------- one receipt per block

  ghost predicate DistinctHashes(list: seq<Receipt>) {
    forall i, j | 0 <= i < j < |list| :: list[i].txHash != list[j].txHash
  }

  lemma {:induction false} ToReceiptsEntries(list: seq<Receipt>)
    requires DistinctHashes(list)
    ensures forall i | 0 <= i < |list| ::
              list[i].txHash in ToReceipts(list) && ToReceipts(list)[list[i].txHash] == list[i]
    ensures forall h | h in ToReceipts(list) :: ToReceipts(list)[h] in list && ToReceipts(list)[h].txHash == h
  {
    if list != [] {
      var rest := list[..|list| - 1];
      assert forall i | 0 <= i < |rest| :: rest[i] == list[i];
      ToReceiptsEntries(rest);
    }
  }

  lemma ReceiptValues(list: seq<Receipt>)
    requires DistinctHashes(list)
    ensures ToReceipts(list).Values == Elements(list)
  {
    ToReceiptsEntries(list);
  }

  lemma {:induction false} ReceiptCounts(list: seq<Receipt>)
    requires DistinctHashes(list)
    ensures |ToReceipts(list)| == |list|
  {
    if list != [] {
      var rest, last := list[..|list| - 1], list[|list| - 1];
      ReceiptCounts(rest);
      ToReceiptsEntries(rest);
      assert last.txHash !in ToReceipts(rest);
    }
  }

  /** Replay protection keeps the committed transaction hashes apart. */
  lemma HashesApart(chainId: U64, genesis: World, l: Ledger)
    requires History(chainId, genesis, l)
    ensures DistinctHashes(ReceiptList(l.blocks))
  {
    var list, txs := ReceiptList(l.blocks), Txs(l.blocks);
    forall i, j | 0 <= i < j < |list| ensures list[i].txHash != list[j].txHash {
      NoReplay(genesis, txs, i, j);
    }
  }

  lemma HeightsAscend(blocks: seq<Block>, chainId: U64)
    requires BlocksOk(blocks, chainId) && Single(blocks)
    ensures Sorted(ReceiptList(blocks), ByHeight)
  {
    forall i | 0 <= i < |blocks| ensures blocks[i].header.height == i + 1 {
      assert BlockOk(blocks, i, chainId);
    }
  }

  lemma AscendingIsTotal(list: seq<Receipt>)
    requires Sorted(list, ByHeight)
    ensures StrictTotalOn(Elements(list), ByHeight)
  {
    forall x, y | x in Elements(list) && y in Elements(list) && x != y ensures ByHeight(x, y) || ByHeight(y, x) {
      var i :| 0 <= i < |list| && list[i] == x;
      var j :| 0 <= j < |list| && list[j] == y;
      assert i < j ==> ByHeight(list[i], list[j]);
      assert j < i ==> ByHeight(list[j], list[i]);
    }
  }

  /** Sorting the receipt map by height lists one receipt per block, in block order. */
  lemma ReceiptsInOrder(chainId: U64, genesis: World, l: Ledger)
    requires History(chainId, genesis, l)
    ensures SortedSeq(l.receipts.Values, ByHeight) == ReceiptList(l.blocks)
    ensures |l.receipts| == |l.blocks|
  {
    var list := ReceiptList(l.blocks);
    HashesApart(chainId, genesis, l);
    ReceiptValues(list);
    ReceiptCounts(list);
    HeightsAscend(l.blocks, chainId);
    CanonicalOrder(list);
  }

  lemma CanonicalOrder(list: seq<Receipt>)
    requires Sorted(list, ByHeight)
    ensures SortedSeq(Elements(list), ByHeight) == list
    ensures StrictTotalOn(Elements(list), ByHeight)
  {
    AscendingIsTotal(list);
    SortedIsCanonical(list, Elements(list), ByHeight);
  }

  // ---------------------------------------------------------------- what is written loads

  lemma ReceiptListOk(blocks: seq<Block>, chainId: U64)
    requires BlocksOk(blocks, chainId) && Single(blocks)
    ensures ReceiptsOk(ReceiptList(blocks), blocks)
  {
    var list := ReceiptList(blocks);
    forall i, j | 0 <= i < j < |list| ensures list[i].blockHash != list[j].blockHash {
      assert list[i].blockHash == blocks[i].Hash() && list[j].blockHash == blocks[j].Hash();
      if blocks[i].Hash() == blocks[j].Hash() {
        HashesDistinct(blocks, chainId, i, j);
      }
    }
    forall j | 0 <= j < |list| ensures ReceiptOk(list[j], blocks) {
      assert BlockOk(blocks, j, chainId);
      assert blocks[j].transactions[0].Hash() == list[j].txHash;
      assert blocks[j].Hash() == list[j].blockHash && Describes(list[j], blocks[j]);
    }
  }

  lemma TipRoot(chainId: U64, genesis: World, l: Ledger)
    requires History(chainId, genesis, l)
    ensures TipMatches(l.blocks, RootOf(l.world))
  {
    if l.blocks != [] {
      var n, txs := |l.blocks|, Txs(l.blocks);
      assert RootAfter(genesis, txs, n - 1 + 1, l.blocks[n - 1].header.stateRoot);
      assert txs[..n] == txs;
    }
  }

  lemma HistoryIsValid(chainId: U64, genesis: World, l: Ledger)
    requires History(chainId, genesis, l)
    ensures ChainValid(l.blocks, ReceiptList(l.blocks), chainId, RootOf(l.world))
  {
    ReceiptListOk(l.blocks, chainId);
    TipRoot(chainId, genesis, l);
  }

  /** Writing a ledger with a history and loading the file gives back that very ledger. */
  lemma WrittenLoads(chainId: U64, genesis: World, l: Ledger, size: nat)
    requires History(chainId, genesis, l) && size <= MAX_LEDGER_BYTES
    ensures LoadFile(chainId, Some(Whole(Encoded(chainId, l), size))).Some?
    ensures Loaded(LoadFile(chainId, Some(Whole(Encoded(chainId, l), size))).value) == l
  {
    ReceiptsInOrder(chainId, genesis, l);
    HistoryIsValid(chainId, genesis, l);
    ChainIdFixed(genesis, Txs(l.blocks));
    SnapshotRoundTrip(l.world);
  }

  // ---------------------------------------------------------------- laws of every such ledger

  /**
   What holds of every ledger with a history: each sender's committed nonces are 0, 1, 2, ... up to
   its account nonce, there is one receipt per block, and balances plus burned fees add up to the
   genesis supply.
   */
  lemma LedgerLaws(chainId: U64, genesis: World, l: Ledger, a: Address)
    requires History(chainId, genesis, l)
    ensures NoncesOf(Txs(l.blocks), a) == Range(0, l.world.Nonce(a))
    ensures |l.receipts| == |l.blocks|
    ensures Supply(l.world) + Fees(Txs(l.blocks)) == Supply(genesis)
  {
    NoncesAreConsecutive(genesis, Txs(l.blocks), a);
    ReceiptsInOrder(chainId, genesis, l);
    HistoryConserves(genesis, Txs(l.blocks));
  }

  // ---------------------------------------------------------------- seeding

  function SeedWorld(w: World, allocations: seq<(Address, U128)>): World {
    if allocations == [] then w else
      var last := allocations[|allocations| - 1];
      SeedWorld(w, allocations[..|allocations| - 1]).WithBalance(last.0, last.1)
  }

  /** Seeding sets balances and never touches a nonce or the chain id. */
  lemma {:induction false} SeedKeepsNonces(w: World, allocations: seq<(Address, U128)>, a: Address)
    ensures SeedWorld(w, allocations).Nonce(a) == w.Nonce(a)
    ensures SeedWorld(w, allocations).chainId == w.chainId
  {
    if allocations != [] {
      SeedKeepsNonces(w, allocations[..|allocations| - 1], a);
    }
  }

  lemma SeedHistory(chainId: U64, w: World, allocations: seq<(Address, U128)>)
    requires History(chainId, w, Ledger(w, [], map[]))
    ensures var s := SeedWorld(w, allocations); History(chainId, s, Ledger(s, [], map[]))
  {
    var s := SeedWorld(w, allocations);
    SeedKeepsNonces(w, allocations, 0);
    forall a ensures s.Nonce(a) == 0 {
      SeedKeepsNonces(w, allocations, a);
    }
    GenesisHistory(chainId, s);
  }

  /** The allocations already hold: each address exists and its last entry is its present balance. */
  ghost predicate AlreadyHolds(w: World, allocations: seq<(Address, U128)>) {
    forall i | 0 <= i < |allocations| && LastFor(allocations, i) ::
      allocations[i].0 in w.accounts && w.accounts[allocations[i].0].balance == allocations[i].1
  }

  ghost predicate LastFor(allocations: seq<(Address, U128)>, i: nat)
    requires i < |allocations|
  {
    forall j | i < j < |allocations| :: allocations[j].0 != allocations[i].0
  }

  /** An address the allocations do not mention keeps its entry. */
  lemma {:induction false} SeedSkips(w: World, allocations: seq<(Address, U128)>, a: Address)
    requires forall i | 0 <= i < |allocations| :: allocations[i].0 != a
    ensures a in SeedWorld(w, allocations).accounts <==> a in w.accounts
    ensures SeedWorld(w, allocations).Entry(a) == w.Entry(a)
  {
    if allocations != [] {
      SeedSkips(w, allocations[..|allocations| - 1], a);
    }
  }

  /** An address they mention ends with the balance of its last entry. */
  lemma {:induction false} SeedSets(w: World, allocations: seq<(Address, U128)>, i: nat)
    requires i < |allocations| && LastFor(allocations, i)
    ensures var a := allocations[i].0;
            && a in SeedWorld(w, allocations).accounts
            && SeedWorld(w, allocations).Entry(a) == w.Entry(a).(balance := allocations[i].1)
  {
    var n, a := |allocations| - 1, allocations[i].0;
    var rest := allocations[..n];
    SeedKeepsNonces(w, rest, a);
    if i < n {
      assert allocations[n].0 != a && rest[i] == allocations[i];
      assert LastFor(rest, i) by {
        assert forall j | i < j < |rest| :: rest[j] == allocations[j];
      }
      SeedSets(w, rest, i);
    }
  }

  lemma {:induction false} LastExists(allocations: seq<(Address, U128)>, i: nat) returns (j: nat)
    requires i < |allocations|
    ensures i <= j < |allocations| && allocations[j].0 == allocations[i].0 && LastFor(allocations, j)
    decreases |allocations| - i
  {
    if LastFor(allocations, i) {
      j := i;
    } else {
      var k :| i < k < |allocations| && allocations[k].0 == allocations[i].0;
      j := LastExists(allocations, k);
    }
  }

  lemma SeededSame(w: World, allocations: seq<(Address, U128)>, a: Address)
    requires AlreadyHolds(w, allocations)
    ensures a in SeedWorld(w, allocations).accounts <==> a in w.accounts
    ensures SeedWorld(w, allocations).Entry(a) == w.Entry(a)
  {
    if i :| 0 <= i < |allocations| && allocations[i].0 == a {
      var j := LastExists(allocations, i);
      SeedSets(w, allocations, j);
    } else {
      SeedSkips(w, allocations, a);
    }
  }

  lemma SeedIdentity(w: World, allocations: seq<(Address, U128)>)
    ensures SeedWorld(w, allocations) == w <==> AlreadyHolds(w, allocations)
  {
    var s := SeedWorld(w, allocations);
    if AlreadyHolds(w, allocations) {
      SeedKeepsNonces(w, allocations, 0);
      forall a ensures (a in s.accounts <==> a in w.accounts) && s.Entry(a) == w.Entry(a) {
        SeededSame(w, allocations, a);
      }
      forall a | a in w.accounts ensures s.accounts[a] == w.accounts[a] {
        assert s.Entry(a) == w.Entry(a);
      }
    }
    if s == w {
      forall i | 0 <= i < |allocations| && LastFor(allocations, i)
        ensures allocations[i].0 in w.accounts && w.accounts[allocations[i].0].balance == allocations[i].1
      {
        SeedSets(w, allocations, i);
      }
    }
  }

  /**
   Seeding once blocks exist changes the state under a header that cannot change with it: the
   file then loads exactly when the allocations were already in force.
   */
  lemma ReseedLoadsIff(chainId: U64, genesis: World, l: Ledger, allocations: seq<(Address, U128)>, size: nat)
    requires History(chainId, genesis, l) && l.blocks != [] && size <= MAX_LEDGER_BYTES
    ensures var reseeded := l.(world := SeedWorld(l.world, allocations));
            LoadFile(chainId, Some(Whole(Encoded(chainId, reseeded), size))).Some?
            <==> AlreadyHolds(l.world, allocations)
  {
    var world := SeedWorld(l.world, allocations);
    SeedIdentity(l.world, allocations);
    if world == l.world {
      WrittenLoads(chainId, genesis, l, size);
    } else {
      TipRoot(chainId, genesis, l);
      SeedKeepsNonces(l.world, allocations, 0);
      ChainIdFixed(genesis, Txs(l.blocks));
      SnapshotRoundTrip(world);
      if RootOf(world) == RootOf(l.world) {
        RootDeterminesWorld(world, l.world);
      }
    }
  }

  /** Such a file: any chain with a block, then any change of one balance. */
  lemma ReseedBreaksFile(chainId: U64, genesis: World, l: Ledger, a: Address, balance: U128, size: nat)
    requires History(chainId, genesis, l) && l.blocks != [] && size <= MAX_LEDGER_BYTES
    requires l.world.Balance(a) != balance
    ensures var reseeded := l.(world := SeedWorld(l.world, [(a, balance)]));
            LoadFile(chainId, Some(Whole(Encoded(chainId, reseeded), size))).None?
  {
    ReseedLoadsIff(chainId, genesis, l, [(a, balance)], size);
    assert LastFor([(a, balance)], 0);
  }
}
