/**
 The pool as the program keeps it: the transactions by hash and, beside them, each sender's
 nonces. The two are inverse views of one another, and every method is proved against the
 description of the same operation on the hash map alone.
 */
module PoolStore {
  import opened Prelude
  import opened Core
  import opened Ordering
  import opened Mempool

  type Index = map<Address, map<U64, Hash>>

  ghost predicate Listed(idx: Index, s: Address, n: U64, h: Hash) {
    s in idx && n in idx[s] && idx[s][n] == h
  }

  /** The index lists exactly the occupied slots, and no sender with an empty queue. */
  ghost predicate Inverse(p: Pool, idx: Index) {
    && (forall s, n, h :: Listed(idx, s, n, h) <==> Occupies(p, h, s, n))
    && (forall s | s in idx :: idx[s] != map[])
  }

  /** The sender index is determined by the transactions, so restoring those restores both. */
  lemma InverseUnique(p: Pool, i: Index, j: Index)
    requires Inverse(p, i) && Inverse(p, j)
    ensures i == j
  {
    forall s | s in i ensures s in j && i[s] == j[s] {
      SameQueue(p, i, j, s);
    }
    forall s | s in j ensures s in i {
      SameQueue(p, j, i, s);
    }
  }

  lemma SameQueue(p: Pool, i: Index, j: Index, s: Address)
    requires Inverse(p, i) && Inverse(p, j) && s in i
    ensures s in j && i[s] == j[s]
  {
    forall n | n in i[s] ensures s in j && n in j[s] && j[s][n] == i[s][n] {
      assert Listed(i, s, n, i[s][n]);
      assert Listed(j, s, n, i[s][n]);
    }
    var n :| n in i[s];
    forall m | m in j[s] ensures m in i[s] {
      assert Listed(j, s, m, j[s][m]);
      assert Listed(i, s, m, j[s][m]);
    }
  }

  function Nonces(idx: Index, s: Address): map<U64, Hash> {
    if s in idx then idx[s] else map[]
  }

  function IndexAdd(idx: Index, s: Address, n: U64, h: Hash): Index {
    idx[s := Nonces(idx, s)[n := h]]
  }

  function IndexRemove(idx: Index, s: Address, n: U64): Index {
    var rest := Nonces(idx, s) - {n};
    if rest == map[] then idx - {s} else idx[s := rest]
  }

  lemma LookUpSlot(p: Pool, idx: Index, s: Address, n: U64)
    requires Inverse(p, idx)
    ensures Slot(p, s, n) == if n in Nonces(idx, s) then Some(Nonces(idx, s)[n]) else None
  {
    if n in Nonces(idx, s) {
      assert Listed(idx, s, n, idx[s][n]);
    }
    if Slot(p, s, n).Some? {
      assert Listed(idx, s, n, Slot(p, s, n).value);
    }
  }

  lemma AddInverse(p: Pool, idx: Index, tx: Transaction)
    requires Inverse(p, idx) && tx.Hash() !in p && tx.nonce !in Nonces(idx, tx.from)
    ensures Inverse(Swap(p, {}, tx), IndexAdd(idx, tx.from, tx.nonce, tx.Hash()))
  {
    var q, jdx := Swap(p, {}, tx), IndexAdd(idx, tx.from, tx.nonce, tx.Hash());
    forall s, n, h ensures Listed(jdx, s, n, h) <==> Occupies(q, h, s, n) {
      assert Listed(idx, s, n, h) <==> Occupies(p, h, s, n);
    }
  }

  lemma RemoveInverse(p: Pool, idx: Index, h: Hash)
    requires Inverse(p, idx) && h in p
    ensures Inverse(p - {h}, IndexRemove(idx, p[h].from, p[h].nonce))
  {
    var q, jdx := p - {h}, IndexRemove(idx, p[h].from, p[h].nonce);
    assert Occupies(p, h, p[h].from, p[h].nonce);
    forall s, n, g ensures Listed(jdx, s, n, g) <==> Occupies(q, g, s, n) {
      assert Listed(idx, s, n, g) <==> Occupies(p, g, s, n);
      assert Listed(idx, p[h].from, p[h].nonce, h);
      RemoveListed(idx, p[h].from, p[h].nonce, s, n, g);
    }
  }

  lemma RemoveListed(idx: Index, s0: Address, n0: U64, s: Address, n: U64, h: Hash)
    requires n0 in Nonces(idx, s0)
    ensures Listed(IndexRemove(idx, s0, n0), s, n, h) <==> Listed(idx, s, n, h) && (s, n) != (s0, n0)
  {
    var rest := Nonces(idx, s0) - {n0};
    if s == s0 && Listed(idx, s, n, h) && n != n0 {
      assert n in rest;
    }
  }

  /** A sender's nonce map has one entry for each of its pending transactions. */
  lemma QueueSize(p: Pool, idx: Index, s: Address)
    requires Inverse(p, idx)
    ensures |Nonces(idx, s)| == |Queue(p, s)|
  {
    var m := Nonces(idx, s);
    forall h ensures h in Queue(p, s) <==> h in m.Values {
      if h in Queue(p, s) {
        assert Occupies(p, h, s, p[h].nonce);
        assert Listed(idx, s, p[h].nonce, h);
      }
      if h in m.Values {
        var n :| n in m && m[n] == h;
        assert Listed(idx, s, n, h);
        assert Occupies(p, h, s, n);
      }
    }
    forall i, j | i in m && j in m && m[i] == m[j] ensures i == j {
      assert Listed(idx, s, i, m[i]) && Listed(idx, s, j, m[j]);
      assert Occupies(p, m[i], s, i) && Occupies(p, m[i], s, j);
    }
    InjectiveSize(m);
    assert Queue(p, s) == m.Values;
  }

  lemma {:induction false} InjectiveSize<K, V>(m: map<K, V>)
    requires forall i, j | i in m && j in m && m[i] == m[j] :: i == j
    ensures |m.Values| == |m|
    decreases |m|
  {
    if m != map[] {
      var k :| k in m;
      var rest := m - {k};
      InjectiveSize(rest);
      assert m.Values == rest.Values + {m[k]} by {
        forall v ensures v in m.Values <==> v in rest.Values + {m[k]} {
          if v in m.Values {
            var i :| i in m && m[i] == v;
            assert i == k || (i in rest && rest[i] == v);
          }
          if v in rest.Values {
            var i :| i in rest && rest[i] == v;
            assert i in m && m[i] == v;
          }
        }
      }
      assert m[k] !in rest.Values;
      assert rest.Keys == m.Keys - {k};
    }
  }

  predicate Below(m: U64, n: U64) {
    m < n
  }

  class TxPool {
    const config: Config
    var txs: map<Hash, Transaction>
    var bySender: Index

    ghost predicate Valid()
      reads this
    {
      config.Valid() && PoolOk(config, txs) && Inverse(txs, bySender)
    }

    constructor (config: Config)
      requires config.Valid()
      ensures Valid() && this.config == config && txs == map[]
    {
      this.config := config;
      txs := map[];
      bySender := map[];
      new;
      assert forall s :: Queue(map[], s) == {};
    }

    /** Inserts a transaction and reports what it displaced. */
    method Admit(tx: Transaction) returns (r: Result<Admission, PoolError>)
      requires Valid()
      modifies this
      ensures Valid()
      ensures (txs, r) == Mempool.Admit(config, old(txs), tx)
    {
      AdmitKeeps(config, txs, tx);
      if |tx.data| > config.maxTxDataBytes {
        return Err(DataTooLarge(|tx.data|, config.maxTxDataBytes));
      }
      var hash := tx.Hash();
      if hash in txs {
        return Ok(Admission(hash, true, None));
      }
      if tx.gasLimit == 0 {
        return Err(PoolError.InvalidTransaction("gas limit must be > 0"));
      }
      if tx.gasPrice < config.minGasPrice {
        return Err(GasPriceTooLow(tx.gasPrice, config.minGasPrice));
      }
      if tx.TotalCost().None? {
        return Err(PoolError.InvalidTransaction("gas_price * gas_limit + value overflows"));
      }
      LookUpSlot(txs, bySender, tx.from, tx.nonce);
      if tx.nonce in Nonces(bySender, tx.from) {
        r := ReplaceByFee(tx, bySender[tx.from][tx.nonce]);
      } else {
        r := InsertFresh(tx);
      }
    }

    /** The branch for an occupied slot: only a strictly higher gas price wins it. */
    method ReplaceByFee(tx: Transaction, existing: Hash) returns (r: Result<Admission, PoolError>)
      requires Valid() && Admissible(config, tx) && tx.Hash() !in txs
      requires Slot(txs, tx.from, tx.nonce) == Some(existing)
      modifies this
      ensures Valid()
      ensures (txs, r) == Mempool.Admit(config, old(txs), tx)
    {
      var pool, index := txs, bySender;
      if tx.gasPrice <= pool[existing].gasPrice {
        OldTxStays(config, pool, tx, existing);
        return Ok(Admission(existing, false, None));
      }
      NewTxWins(config, pool, tx, existing);
      ReplaceStep(config, pool, index, tx, existing);
      var displaced := pool[existing];
      pool := pool - {existing};
      // One transaction has just left, so neither the budget nor the capacity can bind here.
      assert |pool| < config.maxPending;
      bySender := ReplaceSlot(index, tx.from, tx.nonce, tx.Hash());
      txs := pool[tx.Hash() := tx];
      return Ok(Admission(tx.Hash(), true, Some(displaced)));
    }

    /** The branch for a free slot: sender budget, then global capacity, then insertion. */
    method InsertFresh(tx: Transaction) returns (r: Result<Admission, PoolError>)
      requires Valid() && Admissible(config, tx) && tx.Hash() !in txs
      requires Slot(txs, tx.from, tx.nonce).None?
      modifies this
      ensures Valid()
      ensures (txs, r) == Mempool.Admit(config, old(txs), tx)
    {
      ghost var before := txs;
      QueueSize(txs, bySender, tx.from);
      if |Nonces(bySender, tx.from)| >= config.maxPerSender {
        return Err(SenderQueueFull(tx.from));
      }
      AdmitKeeps(config, before, tx);
      var displaced: Option<Transaction> := None;
      if |txs| >= config.maxPending {
        assert before != map[];
        var evicted := EvictLowestPriority();
        displaced := evicted.value;
      }
      FreshStep(before, txs, bySender, tx);
      bySender := IndexAdd(bySender, tx.from, tx.nonce, tx.Hash());
      txs := txs[tx.Hash() := tx];
      return Ok(Admission(tx.Hash(), true, displaced));
    }

    /** Drops the transaction the eviction order puts first. */
    method EvictLowestPriority() returns (r: Result<Option<Transaction>, PoolError>)
      requires Valid()
      modifies this
      ensures Valid()
      ensures old(txs) == map[] ==> r == Err(Full) && txs == old(txs)
      ensures old(txs) != map[] ==>
        var v := Victim(config, old(txs));
        r == Ok(Some(old(txs)[v])) && txs == old(txs) - {v}
    {
      if txs.Keys == {} {
        return Err(Full);
      }
      var best := CheapestOf(txs);
      VictimUnique(config, txs, best, Victim(config, txs));
      var transaction := txs[best];
      var dropped := Remove(best);
      return Ok(Some(transaction));
    }

    /** Walks the pool in any order, keeping the best candidate so far. */
    method CheapestOf(pool: Pool) returns (best: Hash)
      requires config.Valid() && pool.Keys != {}
      ensures IsVictim(config, pool, best)
    {
      best :| best in pool.Keys;
      var left := pool.Keys - {best};
      while left != {}
        invariant left <= pool.Keys && best in pool
        invariant forall h | h in pool && h !in left && h != best :: EvictedBefore(config, pool, best, h)
        decreases |left|
      {
        var h :| h in left;
        if EvictedBefore(config, pool, h, best) {
          best := h;
        }
        left := left - {h};
      }
    }

    method Remove(hash: Hash) returns (present: bool)
      requires Valid()
      modifies this
      ensures Valid()
      ensures present == (hash in old(txs)) && txs == old(txs) - {hash}
    {
      if hash !in txs {
        MinusNone(txs, {hash});
        return false;
      }
      var pool, index := txs, bySender;
      RemoveStep(config, pool, index, hash);
      var tx := pool[hash];
      txs := pool - {hash};
      var nonces: map<U64, Hash> := index[tx.from] - {tx.nonce};
      bySender := if nonces == map[] then index - {tx.from} else index[tx.from := nonces];
      return true;
    }

    method GetBySenderNonce(sender: Address, nonce: U64) returns (r: Option<Transaction>)
      requires Valid()
      ensures r == Pending(txs, sender, nonce)
    {
      LookUpSlot(txs, bySender, sender, nonce);
      if nonce in Nonces(bySender, sender) {
        return Some(txs[bySender[sender][nonce]]);
      }
      return None;
    }

    /** The executable prefix for a sender: walk its nonces upward and stop at the first gap. */
    method ReadyFor(sender: Address, nextNonce: U64) returns (ready: seq<Transaction>)
      requires Valid()
      ensures ready == Ready(txs, sender, nextNonce)
    {
      var pool, nonces := txs, Nonces(bySender, sender);
      QueueBacked(pool, bySender, sender);
      ready := WalkNonces(pool, nonces, nextNonce);
      RunIsReady(pool, sender, nonces, nextNonce, ready);
    }

    /** Drops every transaction of the sender below a nonce and says how many there were. */
    method PruneBelowNonce(sender: Address, nextNonce: U64) returns (count: nat)
      requires Valid()
      modifies this
      ensures Valid()
      ensures txs == Prune(old(txs), sender, nextNonce)
      ensures count == |old(txs)| - |txs|
    {
      var pool := txs;
      var stale := set h | h in pool && pool[h].from == sender && pool[h].nonce < nextNonce;
      var left := stale;
      MinusNone(pool, stale - left);
      while left != {}
        invariant Valid() && left <= stale
        invariant txs == pool - (stale - left)
        decreases |left|
      {
        var h :| h in left;
        var dropped := Remove(h);
        MinusOne(pool, stale, left, h);
        left := left - {h};
      }
      PruneCount(pool, sender, nextNonce, stale);
      return |stale|;
    }

    /** The whole pool in proposal order, whatever order the hash map is walked in. */
    method InProposalOrder() returns (s: seq<Transaction>)
      requires Valid()
      ensures StrictTotalOn(txs.Values, ProposedBefore)
      ensures s == SortedSeq(txs.Values, ProposedBefore) && Elements(s) == txs.Values
      ensures forall i, j | 0 <= i < j < |s| ::
                s[i].gasPrice >= s[j].gasPrice
                && (s[i].gasPrice == s[j].gasPrice ==> s[i].from <= s[j].from)
                && (s[i].gasPrice == s[j].gasPrice && s[i].from == s[j].from ==> s[i].nonce < s[j].nonce)
    {
      ProposalOrderTotal(config, txs);
      s := Sort(txs.Values, ProposedBefore);
    }
  }

  // ---------------------------------------------------------------- one step of each method

  lemma ReplaceStep(cfg: Config, p: Pool, idx: Index, tx: Transaction, existing: Hash)
    requires PoolOk(cfg, p) && Inverse(p, idx) && Admissible(cfg, tx) && tx.Hash() !in p
    requires Slot(p, tx.from, tx.nonce) == Some(existing)
    ensures tx.from in idx && existing in p && |p - {existing}| < cfg.maxPending
    ensures PoolOk(cfg, Swap(p, {existing}, tx))
    ensures Inverse(Swap(p, {existing}, tx), ReplaceSlot(idx, tx.from, tx.nonce, tx.Hash()))
  {
    LookUpSlot(p, idx, tx.from, tx.nonce);
    ReplaceKeeps(cfg, p, tx, existing);
    QueueWithout(p, existing);
    RemoveInverse(p, idx, existing);
    AddInverse(p - {existing}, IndexRemove(idx, tx.from, tx.nonce), tx);
    SameIndex(idx, tx.from, tx.nonce, tx.Hash());
    SwapTwice(p, existing, tx);
  }

  lemma SwapTwice(p: Pool, h: Hash, tx: Transaction)
    ensures Swap(p - {h}, {}, tx) == Swap(p, {h}, tx)
  {
  }

  /** Take a nonce out of its sender's map and put it back for another transaction. */
  function ReplaceSlot(idx: Index, s: Address, n: U64, h: Hash): Index
    requires s in idx
  {
    idx[s := (idx[s] - {n})[n := h]]
  }

  lemma SameIndex(idx: Index, s: Address, n: U64, h: Hash)
    requires s in idx
    ensures IndexAdd(IndexRemove(idx, s, n), s, n, h) == ReplaceSlot(idx, s, n, h)
  {
  }

  lemma FreshStep(before: Pool, p: Pool, idx: Index, tx: Transaction)
    requires Inverse(p, idx) && tx.Hash() !in before && Slot(before, tx.from, tx.nonce).None?
    requires p.Keys <= before.Keys && forall h | h in p :: p[h] == before[h]
    ensures Inverse(Swap(p, {}, tx), IndexAdd(idx, tx.from, tx.nonce, tx.Hash()))
    ensures Swap(p, {}, tx) == p[tx.Hash() := tx]
  {
    assert forall h :: Occupies(p, h, tx.from, tx.nonce) ==> Occupies(before, h, tx.from, tx.nonce);
    LookUpSlot(p, idx, tx.from, tx.nonce);
    AddInverse(p, idx, tx);
  }

  lemma RemoveStep(cfg: Config, p: Pool, idx: Index, h: Hash)
    requires PoolOk(cfg, p) && Inverse(p, idx) && h in p
    ensures p[h].from in idx && PoolOk(cfg, p - {h})
    ensures Inverse(p - {h}, IndexRemove(idx, p[h].from, p[h].nonce))
  {
    SubPoolOk(cfg, p, p - {h});
    RemoveInverse(p, idx, h);
    assert Occupies(p, h, p[h].from, p[h].nonce);
    assert Listed(idx, p[h].from, p[h].nonce, h);
  }

  lemma MinusNone(p: Pool, gone: set<Hash>)
    requires gone !! p.Keys
    ensures p - gone == p
  {
  }

  lemma MinusOne(p: Pool, stale: set<Hash>, left: set<Hash>, h: Hash)
    requires h in left && left <= stale
    ensures p - (stale - left) - {h} == p - (stale - (left - {h}))
  {
  }

  lemma PruneCount(p: Pool, s: Address, n: U64, stale: set<Hash>)
    requires stale == set h | h in p && p[h].from == s && p[h].nonce < n
    ensures p - stale == Prune(p, s, n)
    ensures |stale| == |p| - |Prune(p, s, n)|
  {
    assert Prune(p, s, n).Keys == p.Keys - stale;
  }

  /** A sender's nonce map, seen from the pool: it lists exactly the sender's slots. */
  ghost predicate Backed(p: Pool, s: Address, nonces: map<U64, Hash>) {
    forall n: U64 :: Slot(p, s, n) == if n in nonces then Some(nonces[n]) else None
  }

  lemma QueueBacked(p: Pool, idx: Index, s: Address)
    requires Inverse(p, idx)
    ensures Backed(p, s, Nonces(idx, s))
    ensures forall n | n in Nonces(idx, s) :: Nonces(idx, s)[n] in p
  {
    forall n: U64 ensures Slot(p, s, n) == if n in Nonces(idx, s) then Some(Nonces(idx, s)[n]) else None {
      LookUpSlot(p, idx, s, n);
    }
  }

  lemma ReadyStep(p: Pool, s: Address, nonces: map<U64, Hash>, n: U64)
    requires Backed(p, s, nonces)
    ensures n !in nonces ==> Ready(p, s, n) == []
    ensures n in nonces ==> nonces[n] in p
    ensures n in nonces ==>
      Ready(p, s, n) == [p[nonces[n]]] + (if n == U64_MAX then [] else Ready(p, s, n + 1))
  {
    assert Slot(p, s, n) == if n in nonces then Some(nonces[n]) else None;
  }

  ghost predicate At(p: Pool, nonces: map<U64, Hash>, n: int, tx: Transaction) {
    0 <= n <= U64_MAX && n in nonces && nonces[n] in p && p[nonces[n]] == tx
  }

  ghost predicate IsRun(p: Pool, nonces: map<U64, Hash>, first: U64, run: seq<Transaction>) {
    forall j | 0 <= j < |run| :: At(p, nonces, first + j, run[j])
  }

  /** A run of pending transactions that ends at a gap, or at the last nonce, is the ready prefix. */
  lemma {:induction false} RunIsReady(p: Pool, s: Address, nonces: map<U64, Hash>, first: U64, run: seq<Transaction>)
    requires Backed(p, s, nonces) && IsRun(p, nonces, first, run)
    requires first + |run| <= U64_MAX + 1
    requires first + |run| <= U64_MAX ==> first + |run| !in nonces
    ensures run == Ready(p, s, first)
    decreases |run|
  {
    ReadyStep(p, s, nonces, first);
    if run != [] {
      var rest := run[1..];
      assert At(p, nonces, first + 0, run[0]);
      assert forall j | 0 <= j < |rest| :: rest[j] == run[j + 1];
      if first < U64_MAX {
        RunIsReady(p, s, nonces, first + 1, rest);
      }
    }
  }

  lemma RunSnoc(p: Pool, nonces: map<U64, Hash>, first: U64, run: seq<Transaction>, tx: Transaction)
    requires IsRun(p, nonces, first, run) && At(p, nonces, first + |run|, tx)
    ensures IsRun(p, nonces, first, run + [tx])
  {
  }

  function KeysFrom(nonces: map<U64, Hash>, first: U64): (keys: set<U64>)
    ensures forall n :: n in keys <==> n in nonces && first <= n
  {
    set n | n in nonces && first <= n
  }

  method Ascending(keys: set<U64>) returns (s: seq<U64>)
    ensures Sorted(s, Below) && Elements(s) == keys
  {
    s := Sort(keys, Below);
  }

  /** Walks the nonces from `first` upward, taking transactions until the first gap. */
  method WalkNonces(p: Pool, nonces: map<U64, Hash>, first: U64) returns (ready: seq<Transaction>)
    requires forall n | n in nonces :: nonces[n] in p
    ensures first + |ready| <= U64_MAX + 1 && IsRun(p, nonces, first, ready)
    ensures first + |ready| <= U64_MAX ==> first + |ready| !in nonces
  {
    var keys := KeysFrom(nonces, first);
    var ordered := Ascending(keys);
    ready := [];
    for i := 0 to |ordered|
      invariant first + i <= U64_MAX && |ready| == i
      invariant forall j | 0 <= j < i :: ordered[j] == first + j
      invariant IsRun(p, nonces, first, ready)
    {
      var expected: U64 := first + i;
      if ordered[i] != expected {
        GapAt(ordered, keys, first, i);
        assert expected !in nonces;
        return;
      }
      assert expected in keys && expected in nonces;
      var tx := p[nonces[expected]];
      assert At(p, nonces, expected, tx);
      RunSnoc(p, nonces, first, ready, tx);
      ready := ready + [tx];
      if expected == U64_MAX {
        return;
      }
    }
    EndAt(ordered, keys, first);
    assert first + |ordered| !in nonces;
  }

  lemma GapAt(ordered: seq<U64>, keys: set<U64>, first: U64, i: nat)
    requires i < |ordered| && Sorted(ordered, Below) && Elements(ordered) == keys
    requires forall j | 0 <= j < i :: ordered[j] == first + j
    requires forall n | n in keys :: first <= n
    requires ordered[i] != first + i
    ensures first + i !in keys
  {
    assert forall n | n in keys :: n in ordered;
    assert ordered[i] in keys;
    assert i > 0 ==> Below(ordered[i - 1], ordered[i]);
    assert first + i < ordered[i];
    assert forall k | i < k < |ordered| :: Below(ordered[i], ordered[k]);
  }

  lemma EndAt(ordered: seq<U64>, keys: set<U64>, first: U64)
    requires Elements(ordered) == keys
    requires forall j | 0 <= j < |ordered| :: ordered[j] == first + j
    ensures first + |ordered| !in keys
  {
    assert forall n | n in keys :: n in ordered;
  }
}
