/**
 The pending transaction pool.

 A pool is first described by what it holds, a map from hash to transaction, and every operation
 by what it does to that map. The class then keeps the two indexes the program keeps, and each of
 its methods is proved to do to the map what the description says.
 */
module Mempool {
  import opened Prelude
  import opened Core
  import opened Ordering
  import opened WorldState

  type Pool = map<Hash, Transaction>

  ghost predicate IsOrder(less: (Hash, Hash) -> bool) {
    && (forall x :: !less(x, x))
    && (forall x, y | x != y :: less(x, y) || less(y, x))
    && (forall x, y, z | less(x, y) && less(y, z) :: less(x, z))
  }

  /** The pool limits, with the byte order of digests, which breaks eviction ties. */
  datatype Config = Config(
    maxPending: nat,
    maxPerSender: nat,
    minGasPrice: U128,
    maxTxDataBytes: nat,
    hashLess: (Hash, Hash) -> bool)
  {
    ghost predicate Valid() {
      maxPending > 0 && maxPerSender > 0 && IsOrder(hashLess)
    }
  }

  datatype Admission = Admission(hash: Hash, accepted: bool, displaced: Option<Transaction>)

  datatype PoolError =
    | Full
    | GasPriceTooLow(provided: U128, min: U128)
    | InvalidTransaction(reason: string)
    | SenderQueueFull(sender: Address)
    | DataTooLarge(length: nat, max: nat)

  // ---------------------------------------------------------------- what a pool holds

  ghost predicate Occupies(p: Pool, h: Hash, s: Address, n: U64) {
    h in p && p[h].from == s && p[h].nonce == n
  }

  /** The hash holding the slot `(s, n)`. */
  ghost function Slot(p: Pool, s: Address, n: U64): (r: Option<Hash>)
    ensures r.Some? ==> Occupies(p, r.value, s, n)
    ensures r.None? ==> forall h :: !Occupies(p, h, s, n)
  {
    if exists h :: Occupies(p, h, s, n) then
      var h :| Occupies(p, h, s, n);
      Some(h)
    else None
  }

  function Queue(p: Pool, s: Address): set<Hash> {
    set h | h in p && p[h].from == s
  }

  predicate Admissible(cfg: Config, tx: Transaction) {
    && |tx.data| <= cfg.maxTxDataBytes
    && tx.gasLimit > 0
    && cfg.minGasPrice <= tx.gasPrice
    && tx.TotalCost().Some?
  }

  ghost predicate OnePerSlot(p: Pool) {
    forall g, h, s, n | Occupies(p, g, s, n) && Occupies(p, h, s, n) :: g == h
  }

  ghost predicate WithinCaps(cfg: Config, p: Pool) {
    |p| <= cfg.maxPending && forall s :: |Queue(p, s)| <= cfg.maxPerSender
  }

  /** One transaction per slot, both caps, and nothing inside that admission would refuse. */
  ghost predicate PoolOk(cfg: Config, p: Pool) {
    && (forall h | h in p :: h == p[h].Hash() && Admissible(cfg, p[h]))
    && OnePerSlot(p)
    && WithinCaps(cfg, p)
  }

  /** Cheapest first; among equals the higher nonce; among those the smaller digest. */
  predicate EvictedBefore(cfg: Config, p: Pool, g: Hash, h: Hash)
    requires g in p && h in p
  {
    || p[g].gasPrice < p[h].gasPrice
    || (p[g].gasPrice == p[h].gasPrice && p[g].nonce > p[h].nonce)
    || (p[g].gasPrice == p[h].gasPrice && p[g].nonce == p[h].nonce && cfg.hashLess(g, h))
  }

  ghost predicate IsVictim(cfg: Config, p: Pool, v: Hash) {
    v in p && forall h | h in p && h != v :: EvictedBefore(cfg, p, v, h)
  }

  ghost function Victim(cfg: Config, p: Pool): (v: Hash)
    requires cfg.Valid() && p != map[]
    ensures IsVictim(cfg, p, v)
  {
    VictimExists(cfg, p);
    var v :| IsVictim(cfg, p, v);
    v
  }

  lemma {:induction false} VictimExists(cfg: Config, p: Pool)
    requires cfg.Valid() && p != map[]
    ensures exists v :: IsVictim(cfg, p, v)
    decreases |p|
  {
    var h :| h in p;
    var rest := p - {h};
    if rest == map[] {
      assert p.Keys == {h} by { assert rest.Keys == {}; }
      assert IsVictim(cfg, p, h);
    } else {
      VictimExists(cfg, rest);
      var v :| IsVictim(cfg, rest, v);
      var w := if EvictedBefore(cfg, p, h, v) then h else v;
      forall g | g in p && g != w ensures EvictedBefore(cfg, p, w, g) {
        assert g == h || g == v || EvictedBefore(cfg, rest, v, g);
      }
      assert IsVictim(cfg, p, w);
    }
  }

  /** The victim is fixed by the contents of the pool, whatever order they are walked in. */
  lemma VictimUnique(cfg: Config, p: Pool, v: Hash, w: Hash)
    requires cfg.Valid() && IsVictim(cfg, p, v) && IsVictim(cfg, p, w)
    ensures v == w
  {
    if v != w {
      assert false;
    }
  }

  // ---------------------------------------------------------------- admission

  ghost function Admit(cfg: Config, p: Pool, tx: Transaction): (Pool, Result<Admission, PoolError>)
    requires cfg.Valid()
  {
    var h := tx.Hash();
    if |tx.data| > cfg.maxTxDataBytes then (p, Err(DataTooLarge(|tx.data|, cfg.maxTxDataBytes)))
    else if h in p then (p, Ok(Admission(h, true, None)))
    else if tx.gasLimit == 0 then (p, Err(PoolError.InvalidTransaction("gas limit must be > 0")))
    else if tx.gasPrice < cfg.minGasPrice then (p, Err(GasPriceTooLow(tx.gasPrice, cfg.minGasPrice)))
    else if tx.TotalCost().None? then (p, Err(PoolError.InvalidTransaction("gas_price * gas_limit + value overflows")))
    else
      match Slot(p, tx.from, tx.nonce)
      case Some(held) =>
        if tx.gasPrice <= p[held].gasPrice then (p, Ok(Admission(held, false, None)))
        else (Swap(p, {held}, tx), Ok(Admission(h, true, Some(p[held]))))
      case None =>
        if |Queue(p, tx.from)| >= cfg.maxPerSender then (p, Err(SenderQueueFull(tx.from)))
        else if |p| >= cfg.maxPending then
          if p == map[] then (p, Err(Full)) else
          var v := Victim(cfg, p);
          (Swap(p, {v}, tx), Ok(Admission(h, true, Some(p[v]))))
        else (Swap(p, {}, tx), Ok(Admission(h, true, None)))
  }

  /** The pool with `tx` in and the transactions in `gone` out. */
  function Swap(p: Pool, gone: set<Hash>, tx: Transaction): Pool {
    (p - gone)[tx.Hash() := tx]
  }

  lemma SwapSize(p: Pool, gone: set<Hash>, tx: Transaction, max: nat)
    requires |p.Keys - gone| < max
    ensures |Swap(p, gone, tx)| <= max
  {
    assert Swap(p, gone, tx).Keys == (p.Keys - gone) + {tx.Hash()};
  }

  lemma SwapQueue(p: Pool, gone: set<Hash>, tx: Transaction, s: Address)
    requires tx.Hash() !in p
    ensures Queue(Swap(p, gone, tx), s) == (Queue(p, s) - gone) + (if s == tx.from then {tx.Hash()} else {})
  {
  }

  lemma SwapQueueSize(p: Pool, gone: set<Hash>, tx: Transaction, s: Address, max: nat)
    requires tx.Hash() !in p && |Queue(p, s)| <= max && |Queue(p, tx.from) - gone| < max
    ensures |Queue(Swap(p, gone, tx), s)| <= max
  {
    SwapQueue(p, gone, tx, s);
    if s != tx.from {
      SubsetSize(Queue(Swap(p, gone, tx), s), Queue(p, s));
    }
  }

  lemma SwapSlots(p: Pool, gone: set<Hash>, tx: Transaction)
    requires OnePerSlot(p) && forall h | Occupies(p, h, tx.from, tx.nonce) :: h in gone
    ensures OnePerSlot(Swap(p, gone, tx))
  {
    var q := Swap(p, gone, tx);
    forall g, k, s, n | Occupies(q, g, s, n) && Occupies(q, k, s, n) ensures g == k {
      assert g == tx.Hash() || Occupies(p, g, s, n);
      assert k == tx.Hash() || Occupies(p, k, s, n);
    }
  }

  /** Swapping `tx` in for the transactions in `gone` keeps the pool well-formed. */
  lemma SwapKeeps(cfg: Config, p: Pool, gone: set<Hash>, tx: Transaction)
    requires PoolOk(cfg, p) && tx.Hash() !in p && Admissible(cfg, tx)
    requires forall h | Occupies(p, h, tx.from, tx.nonce) :: h in gone
    requires |p.Keys - gone| < cfg.maxPending
    requires |Queue(p, tx.from) - gone| < cfg.maxPerSender
    ensures PoolOk(cfg, Swap(p, gone, tx))
  {
    SwapSlots(p, gone, tx);
    SwapSize(p, gone, tx, cfg.maxPending);
    forall s ensures |Queue(Swap(p, gone, tx), s)| <= cfg.maxPerSender {
      SwapQueueSize(p, gone, tx, s, cfg.maxPerSender);
    }
  }

  lemma ReplaceKeeps(cfg: Config, p: Pool, tx: Transaction, held: Hash)
    requires PoolOk(cfg, p) && tx.Hash() !in p && Admissible(cfg, tx)
    requires Occupies(p, held, tx.from, tx.nonce)
    ensures PoolOk(cfg, Swap(p, {held}, tx))
  {
    assert held in Queue(p, tx.from);
    SwapKeeps(cfg, p, {held}, tx);
  }

  lemma EvictKeeps(cfg: Config, p: Pool, tx: Transaction, victim: Hash)
    requires PoolOk(cfg, p) && tx.Hash() !in p && Admissible(cfg, tx) && victim in p
    requires Slot(p, tx.from, tx.nonce).None? && |Queue(p, tx.from)| < cfg.maxPerSender
    ensures PoolOk(cfg, Swap(p, {victim}, tx))
  {
    SubsetSize(Queue(p, tx.from) - {victim}, Queue(p, tx.from));
    SwapKeeps(cfg, p, {victim}, tx);
  }

  lemma InsertKeeps(cfg: Config, p: Pool, tx: Transaction)
    requires PoolOk(cfg, p) && tx.Hash() !in p && Admissible(cfg, tx) && |p| < cfg.maxPending
    requires Slot(p, tx.from, tx.nonce).None? && |Queue(p, tx.from)| < cfg.maxPerSender
    ensures PoolOk(cfg, Swap(p, {}, tx))
  {
    assert p.Keys - {} == p.Keys && Queue(p, tx.from) - {} == Queue(p, tx.from);
    SwapKeeps(cfg, p, {}, tx);
  }

  ghost function Pending(p: Pool, s: Address, n: U64): Option<Transaction> {
    match Slot(p, s, n) case Some(h) => Some(p[h]) case None => None
  }

  /** What the caller of an admission may rely on, whichever branch it took. */
  ghost predicate Reported(p: Pool, tx: Transaction, q: Pool, r: Result<Admission, PoolError>) {
    match r
    case Err(e) => q == p && !e.Full?
    case Ok(Admission(h, false, d)) =>
      q == p && d.None? && h != tx.Hash() && Slot(p, tx.from, tx.nonce) == Some(h)
    case Ok(Admission(h, true, None)) =>
      && h == tx.Hash() && q == Swap(p, {}, tx)
      && Pending(p, tx.from, tx.nonce) == (if h in p then Some(tx) else None)
    case Ok(Admission(h, true, Some(d))) =>
      && h == tx.Hash() && h !in p && d.Hash() in p && p[d.Hash()] == d && q == Swap(p, {d.Hash()}, tx)
      && Pending(p, tx.from, tx.nonce) in {None, Some(d)}
  }

  /**
   Admission keeps the pool well-formed, never reports `Full`, changes nothing when it fails or
   keeps the incumbent, and otherwise swaps in the new transaction for at most one other, which
   is the one it reports.
   */
  lemma AdmitKeeps(cfg: Config, p: Pool, tx: Transaction)
    requires cfg.Valid() && PoolOk(cfg, p)
    ensures PoolOk(cfg, Admit(cfg, p, tx).0)
    ensures Reported(p, tx, Admit(cfg, p, tx).0, Admit(cfg, p, tx).1)
  {
    if Admissible(cfg, tx) {
      if tx.Hash() in p {
        AdmitKnown(cfg, p, tx);
      } else if Slot(p, tx.from, tx.nonce).Some? {
        AdmitHeld(cfg, p, tx);
      } else {
        AdmitFresh(cfg, p, tx);
      }
    }
  }

  lemma SwapSame(p: Pool, tx: Transaction)
    requires tx.Hash() in p && p[tx.Hash()] == tx
    ensures Swap(p, {}, tx) == p
  {
  }

  lemma AdmitKnown(cfg: Config, p: Pool, tx: Transaction)
    requires cfg.Valid() && PoolOk(cfg, p) && tx.Hash() in p
    ensures Admit(cfg, p, tx).0 == p
    ensures Reported(p, tx, Admit(cfg, p, tx).0, Admit(cfg, p, tx).1)
  {
    SwapSame(p, tx);
    assert Occupies(p, tx.Hash(), tx.from, tx.nonce);
  }

  lemma OldTxStays(cfg: Config, p: Pool, tx: Transaction, existing: Hash)
    requires cfg.Valid() && Admissible(cfg, tx) && tx.Hash() !in p
    requires Slot(p, tx.from, tx.nonce) == Some(existing) && existing in p && tx.gasPrice <= p[existing].gasPrice
    ensures Admit(cfg, p, tx) == (p, Ok(Admission(existing, false, None)))
  {
  }

  lemma NewTxWins(cfg: Config, p: Pool, tx: Transaction, existing: Hash)
    requires cfg.Valid() && Admissible(cfg, tx) && tx.Hash() !in p
    requires Slot(p, tx.from, tx.nonce) == Some(existing) && existing in p && tx.gasPrice > p[existing].gasPrice
    ensures Admit(cfg, p, tx) == (Swap(p, {existing}, tx), Ok(Admission(tx.Hash(), true, Some(p[existing]))))
  {
  }

  lemma AdmitHeld(cfg: Config, p: Pool, tx: Transaction)
    requires cfg.Valid() && PoolOk(cfg, p) && Admissible(cfg, tx) && tx.Hash() !in p
    requires Slot(p, tx.from, tx.nonce).Some?
    ensures PoolOk(cfg, Admit(cfg, p, tx).0)
    ensures Reported(p, tx, Admit(cfg, p, tx).0, Admit(cfg, p, tx).1)
  {
    var held := Slot(p, tx.from, tx.nonce).value;
    if tx.gasPrice <= p[held].gasPrice {
      OldTxStays(cfg, p, tx, held);
    } else {
      NewTxWins(cfg, p, tx, held);
      ReplaceKeeps(cfg, p, tx, held);
    }
  }

  lemma AdmitFresh(cfg: Config, p: Pool, tx: Transaction)
    requires cfg.Valid() && PoolOk(cfg, p) && Admissible(cfg, tx) && tx.Hash() !in p
    requires Slot(p, tx.from, tx.nonce).None?
    ensures PoolOk(cfg, Admit(cfg, p, tx).0)
    ensures Reported(p, tx, Admit(cfg, p, tx).0, Admit(cfg, p, tx).1)
  {
    if |Queue(p, tx.from)| < cfg.maxPerSender {
      if |p| >= cfg.maxPending {
        EvictKeeps(cfg, p, tx, Victim(cfg, p));
      } else {
        InsertKeeps(cfg, p, tx);
      }
    }
  }

  // ---------------------------------------------------------------- rollback

  ghost function Add(cfg: Config, p: Pool, tx: Option<Transaction>): Pool
    requires cfg.Valid()
  {
    match tx case None => p case Some(t) => Admit(cfg, p, t).0
  }

  /** Undo an admission: drop the new transaction, then re-add the slot's old one and the displaced one. */
  ghost function RollBack(cfg: Config, p: Pool, h: Hash, previous: Option<Transaction>, displaced: Option<Transaction>): Pool
    requires cfg.Valid()
  {
    Add(cfg, Add(cfg, p - {h}, previous), displaced)
  }

  /** Re-adding a transaction that was just taken out of a well-formed pool puts it back. */
  lemma ReAdd(cfg: Config, p: Pool, h: Hash)
    requires cfg.Valid() && PoolOk(cfg, p) && h in p
    ensures Admit(cfg, p - {h}, p[h]).0 == p
  {
    SlotWithout(p, h);
    QueueWithout(p, h);
    SwapBack(p, h);
  }

  lemma SwapBack(p: Pool, h: Hash)
    requires h in p && h == p[h].Hash()
    ensures Swap(p - {h}, {}, p[h]) == p
  {
  }

  lemma SlotWithout(p: Pool, h: Hash)
    requires h in p && OnePerSlot(p)
    ensures Slot(p - {h}, p[h].from, p[h].nonce).None?
  {
    assert Occupies(p, h, p[h].from, p[h].nonce);
    assert forall g :: Occupies(p - {h}, g, p[h].from, p[h].nonce) ==> Occupies(p, g, p[h].from, p[h].nonce);
  }

  lemma QueueWithout(p: Pool, h: Hash)
    requires h in p
    ensures |Queue(p - {h}, p[h].from)| == |Queue(p, p[h].from)| - 1
    ensures |p - {h}| == |p| - 1
  {
    assert Queue(p - {h}, p[h].from) == Queue(p, p[h].from) - {h};
    assert (p - {h}).Keys == p.Keys - {h};
  }

  /**
   Rolling back an accepted admission restores the pool exactly, in all four cases: fresh slot,
   already pending, replaced by fee, and eviction at capacity.
   */
  lemma RollBackExact(cfg: Config, p: Pool, tx: Transaction)
    requires cfg.Valid() && PoolOk(cfg, p)
    requires Admit(cfg, p, tx).1.Ok? && Admit(cfg, p, tx).1.value.accepted
    ensures var (q, r) := Admit(cfg, p, tx);
            RollBack(cfg, q, r.value.hash, Pending(p, tx.from, tx.nonce), r.value.displaced) == p
  {
    AdmitKeeps(cfg, p, tx);
    match Admit(cfg, p, tx).1.value.displaced {
      case None =>
        if tx.Hash() in p {
          UndoKept(cfg, p, tx);
        } else {
          UndoInsert(p, tx);
        }
      case Some(d) =>
        UndoSwap(cfg, p, tx, d.Hash(), Pending(p, tx.from, tx.nonce));
    }
  }

  lemma UndoKept(cfg: Config, p: Pool, tx: Transaction)
    requires cfg.Valid() && PoolOk(cfg, p) && tx.Hash() in p
    ensures RollBack(cfg, Swap(p, {}, tx), tx.Hash(), Some(tx), None) == p
  {
    SwapSame(p, tx);
    ReAdd(cfg, p, tx.Hash());
  }

  lemma UndoInsert(p: Pool, tx: Transaction)
    requires tx.Hash() !in p
    ensures Swap(p, {}, tx) - {tx.Hash()} == p
  {
  }

  /** Re-adding the displaced transaction, once or twice, gives the pool back. */
  lemma UndoSwap(cfg: Config, p: Pool, tx: Transaction, d: Hash, previous: Option<Transaction>)
    requires cfg.Valid() && PoolOk(cfg, p) && tx.Hash() !in p && d in p
    requires previous in {None, Some(p[d])}
    ensures RollBack(cfg, Swap(p, {d}, tx), tx.Hash(), previous, Some(p[d])) == p
  {
    assert Swap(p, {d}, tx) - {tx.Hash()} == p - {d};
    ReAdd(cfg, p, d);
  }

  // ---------------------------------------------------------------- nonce-continuous prefixes

  /** The pending transactions of `s` from nonce `n` on, up to the first gap. */
  ghost function Ready(p: Pool, s: Address, n: U64): seq<Transaction>
    decreases U64_MAX - n
  {
    match Slot(p, s, n)
    case None => []
    case Some(h) => [p[h]] + (if n == U64_MAX then [] else Ready(p, s, n + 1))
  }

  /** It holds the right transaction at every position and stops only at a gap or at the last nonce. */
  lemma {:induction false} ReadyIsLongest(p: Pool, s: Address, n: U64)
    ensures var r := Ready(p, s, n);
            && n + |r| <= U64_MAX + 1
            && (forall i | 0 <= i < |r| :: r[i] in p.Values && r[i].from == s && r[i].nonce == n + i)
            && (n + |r| <= U64_MAX ==> Slot(p, s, n + |r|).None?)
    decreases U64_MAX - n
  {
    if Slot(p, s, n).Some? && n < U64_MAX {
      ReadyIsLongest(p, s, n + 1);
      var r, rest := Ready(p, s, n), Ready(p, s, n + 1);
      assert forall i | 0 < i < |r| :: r[i] == rest[i - 1];
    }
  }

  /** Executed in order, no member of the prefix is refused for its nonce once its predecessors succeed. */
  lemma {:induction false} ReadyNeverBadNonce(p: Pool, s: Address, w: World, k: nat)
    requires var r := Ready(p, s, w.Nonce(s)); k < |r| && ExecuteAll(w, r[..k]).Ok?
    ensures var r := Ready(p, s, w.Nonce(s));
            !BadNonce(Execute(ExecuteAll(w, r[..k]).value, r[k]))
  {
    ReadyIsLongest(p, s, w.Nonce(s));
    NonceAfterReady(p, s, w, k);
    var r := Ready(p, s, w.Nonce(s));
    ExpectedNonce(ExecuteAll(w, r[..k]).value, r[k]);
  }

  lemma NonceAfterReady(p: Pool, s: Address, w: World, k: nat)
    requires var r := Ready(p, s, w.Nonce(s)); k <= |r| && ExecuteAll(w, r[..k]).Ok?
    ensures ExecuteAll(w, Ready(p, s, w.Nonce(s))[..k]).value.Nonce(s) == w.Nonce(s) + k
  {
    var first := Ready(p, s, w.Nonce(s))[..k];
    assert forall i | 0 <= i < k :: first[i].from == s by { ReadyIsLongest(p, s, w.Nonce(s)); }
    NonceAdvances(w, first, s);
  }

  lemma NonceAdvances(w: World, txs: seq<Transaction>, s: Address)
    requires ExecuteAll(w, txs).Ok? && forall i | 0 <= i < |txs| :: txs[i].from == s
    ensures ExecuteAll(w, txs).value.Nonce(s) == w.Nonce(s) + |txs|
  {
    NoncesAreConsecutive(w, txs, s);
    NonceCount(txs, s);
  }

  ghost function Prune(p: Pool, s: Address, n: U64): Pool {
    map h | h in p && !(p[h].from == s && p[h].nonce < n) :: p[h]
  }

  lemma PruneAt(p: Pool, s: Address, n: U64, k: nat)
    requires OnePerSlot(p) && k <= |Ready(p, s, n)| && n + k <= U64_MAX
    ensures Ready(Prune(p, s, n + k), s, n + k) == Ready(p, s, n)[k..]
  {
    ReadyDrop(p, s, n, k);
    ReadyOfPruned(p, s, n + k, n + k);
  }

  /** Pruning at the nonce reached after `k` executions leaves exactly the rest of the prefix ready. */
  lemma PruneLeavesSuffix(cfg: Config, p: Pool, s: Address, w: World, k: nat)
    requires PoolOk(cfg, p)
    requires var r := Ready(p, s, w.Nonce(s)); k <= |r| && ExecuteAll(w, r[..k]).Ok?
    ensures var r := Ready(p, s, w.Nonce(s));
            var next := ExecuteAll(w, r[..k]).value.Nonce(s);
            Ready(Prune(p, s, next), s, next) == r[k..]
  {
    NonceAfterReady(p, s, w, k);
    PruneAt(p, s, w.Nonce(s), k);
  }

  lemma {:induction false} ReadyDrop(p: Pool, s: Address, n: U64, k: nat)
    requires k <= |Ready(p, s, n)| && n + k <= U64_MAX
    ensures Ready(p, s, n)[k..] == Ready(p, s, n + k)
    decreases k
  {
    if k > 0 {
      ReadyDrop(p, s, n + 1, k - 1);
      assert Ready(p, s, n)[1..] == Ready(p, s, n + 1);
      assert Ready(p, s, n)[k..] == Ready(p, s, n)[1..][k - 1..];
    }
  }

  lemma {:induction false} ReadyOfPruned(p: Pool, s: Address, low: U64, n: U64)
    requires OnePerSlot(p) && low <= n
    ensures Ready(Prune(p, s, low), s, n) == Ready(p, s, n)
    decreases U64_MAX - n
  {
    var q := Prune(p, s, low);
    assert forall h :: Occupies(q, h, s, n) <==> Occupies(p, h, s, n);
    if n < U64_MAX {
      ReadyOfPruned(p, s, low, n + 1);
    }
  }

  /** Pruning and removal keep the pool well-formed. */
  lemma SubPoolOk(cfg: Config, p: Pool, q: Pool)
    requires PoolOk(cfg, p) && q.Keys <= p.Keys && forall h | h in q :: q[h] == p[h]
    ensures PoolOk(cfg, q)
  {
    SubsetSize(q.Keys, p.Keys);
    assert forall h, s, n :: Occupies(q, h, s, n) ==> Occupies(p, h, s, n);
    forall s ensures |Queue(q, s)| <= cfg.maxPerSender {
      SubsetSize(Queue(q, s), Queue(p, s));
    }
  }

  // ---------------------------------------------------------------- proposal order

  /** Highest gas price first, ties broken by sender and then nonce. */
  predicate ProposedBefore(x: Transaction, y: Transaction) {
    || x.gasPrice > y.gasPrice
    || (x.gasPrice == y.gasPrice && x.from < y.from)
    || (x.gasPrice == y.gasPrice && x.from == y.from && x.nonce < y.nonce)
  }

  /** In a well-formed pool no two transactions tie, so the proposal order is unique. */
  lemma ProposalOrderTotal(cfg: Config, p: Pool)
    requires PoolOk(cfg, p)
    ensures StrictTotalOn(p.Values, ProposedBefore)
  {
    forall x, y | x in p.Values && y in p.Values && x != y
      ensures ProposedBefore(x, y) || ProposedBefore(y, x)
    {
      var g :| g in p && p[g] == x;
      var h :| h in p && p[h] == y;
      assert Occupies(p, g, x.from, x.nonce) && Occupies(p, h, y.from, y.nonce);
    }
  }

  /** The victim is the cheapest transaction; among the cheapest the one with the highest nonce. */
  lemma VictimIsCheapest(cfg: Config, p: Pool, h: Hash)
    requires cfg.Valid() && h in p
    ensures Victim(cfg, p) in p
    ensures p[Victim(cfg, p)].gasPrice <= p[h].gasPrice
    ensures p[Victim(cfg, p)].gasPrice == p[h].gasPrice ==> p[Victim(cfg, p)].nonce >= p[h].nonce
  {
  }

  /** What a transaction must look like, in its own fields. */
  lemma AdmissibleIff(cfg: Config, tx: Transaction)
    ensures Admissible(cfg, tx) <==>
              && |tx.data| <= cfg.maxTxDataBytes && tx.gasLimit > 0 && tx.gasPrice >= cfg.minGasPrice
              && tx.value + tx.gasPrice * tx.gasLimit <= U128_MAX
  {
    CostIs(tx);
  }

  /** Every answer, by the rival that holds the slot and the room the sender has left. */
  ghost predicate Outcome(cfg: Config, p: Pool, tx: Transaction, q: Pool, r: Result<Admission, PoolError>) {
    var rival := Pending(p, tx.from, tx.nonce);
    && (r.Ok? <==> Admissible(cfg, tx) && (rival.Some? || |Queue(p, tx.from)| < cfg.maxPerSender))
    && (r.Ok? ==> (r.value.accepted <==> rival.None? || rival == Some(tx) || tx.gasPrice > rival.value.gasPrice))
    && (r.Ok? && r.value.accepted ==> tx.Hash() in q && q[tx.Hash()] == tx)
  }

  lemma KnownOutcome(cfg: Config, p: Pool, tx: Transaction)
    requires cfg.Valid() && PoolOk(cfg, p) && tx.Hash() in p
    ensures Outcome(cfg, p, tx, p, Ok(Admission(tx.Hash(), true, None)))
  {
    assert p[tx.Hash()] == tx && Occupies(p, tx.Hash(), tx.from, tx.nonce);
    assert Admissible(cfg, tx);
  }

  lemma HeldOutcome(cfg: Config, p: Pool, tx: Transaction, held: Hash)
    requires cfg.Valid() && PoolOk(cfg, p) && tx.Hash() !in p && Admissible(cfg, tx)
    requires Slot(p, tx.from, tx.nonce) == Some(held)
    ensures Outcome(cfg, p, tx, Admit(cfg, p, tx).0, Admit(cfg, p, tx).1)
  {
    assert p[held].Hash() != tx.Hash();
    if tx.gasPrice <= p[held].gasPrice {
      OldTxStays(cfg, p, tx, held);
    } else {
      NewTxWins(cfg, p, tx, held);
    }
  }

  lemma FreshOutcome(cfg: Config, p: Pool, tx: Transaction)
    requires cfg.Valid() && tx.Hash() !in p && Admissible(cfg, tx) && Slot(p, tx.from, tx.nonce).None?
    ensures Outcome(cfg, p, tx, Admit(cfg, p, tx).0, Admit(cfg, p, tx).1)
  {
  }

  /** What the pool answers: exactly when it admits, keeps the incumbent or refuses. */
  lemma AdmitOutcome(cfg: Config, p: Pool, tx: Transaction)
    requires cfg.Valid() && PoolOk(cfg, p)
    ensures Outcome(cfg, p, tx, Admit(cfg, p, tx).0, Admit(cfg, p, tx).1)
  {
    if tx.Hash() in p {
      KnownOutcome(cfg, p, tx);
    } else if Admissible(cfg, tx) {
      var slot := Slot(p, tx.from, tx.nonce);
      if slot.Some? {
        HeldOutcome(cfg, p, tx, slot.value);
      } else {
        FreshOutcome(cfg, p, tx);
      }
    }
  }

  /**
   Capacity displaces the cheapest: a transaction pushed out of another slot is no dearer than any
   that was pending with it, and at the same price has no lower nonce.
   */
  lemma DisplacedIsCheapest(cfg: Config, p: Pool, tx: Transaction, h: Hash)
    requires cfg.Valid() && PoolOk(cfg, p) && h in p
    requires Admit(cfg, p, tx).1.Ok? && Admit(cfg, p, tx).1.value.displaced.Some?
    requires Pending(p, tx.from, tx.nonce).None?
    ensures |p| >= cfg.maxPending
    ensures var d := Admit(cfg, p, tx).1.value.displaced.value;
            d.gasPrice <= p[h].gasPrice && (d.gasPrice == p[h].gasPrice ==> d.nonce >= p[h].nonce)
  {
    VictimIsCheapest(cfg, p, h);
  }

  /** Pruning drops exactly that sender's transactions below the nonce. */
  lemma PruneDropsIff(p: Pool, s: Address, n: U64, h: Hash)
    requires h in p
    ensures h !in Prune(p, s, n) <==> p[h].from == s && p[h].nonce < n
    ensures h in Prune(p, s, n) ==> Prune(p, s, n)[h] == p[h]
    ensures Prune(p, s, n).Keys <= p.Keys
  {
  }
}
