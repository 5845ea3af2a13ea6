/** The account world state, the rules for executing a transaction against it, and its snapshot. */
module WorldState {
  import opened Prelude
  import opened Core
  import opened Ordering
  import opened Sums

  datatype StateError =
    | InsufficientBalance(address: Address, have: U128, want: U128)
    | InvalidNonce(sender: Address, expected: U64, got: U64)
    | ChainMismatch(expectedChain: U64, gotChain: U64)
    | InvalidTransaction(reason: string)
    | InvalidSnapshot(reason: string)
    | UnsupportedTransactionType(txType: TransactionType)
    | BalanceOverflow(receiver: Address)

  datatype World = World(chainId: U64, accounts: map<Address, Account>) {

    /** The account at `a`, or the default one an insertion would start from. */
    function Entry(a: Address): Account {
      if a in accounts then accounts[a] else Account(0, 0)
    }

    function Balance(a: Address): U128 {
      Entry(a).balance
    }

    function Nonce(a: Address): U64 {
      Entry(a).nonce
    }

    function WithBalance(a: Address, balance: U128): World {
      this.(accounts := accounts[a := Entry(a).(balance := balance)])
    }
  }

  // ---------------------------------------------------------------- execution

  /**
   What one transaction does, as a single all-or-nothing step: either the first rule it breaks,
   or the world in which sender and receiver hold their settled balances.
   */
  function Execute(w: World, tx: Transaction): Result<World, StateError> {
    if tx.chainId != w.chainId then Err(ChainMismatch(w.chainId, tx.chainId))
    else if tx.gasLimit == 0 then Err(InvalidTransaction("gas limit must be > 0"))
    else if tx.nonce != w.Nonce(tx.from) then Err(InvalidNonce(tx.from, w.Nonce(tx.from), tx.nonce))
    else if tx.nonce == U64_MAX then Err(InvalidTransaction("transaction nonce overflow"))
    else if tx.Fee().None? then Err(InvalidTransaction("transaction fee overflows"))
    else if tx.txType != Transfer then Err(UnsupportedTransactionType(tx.txType))
    else if tx.to.None? then Err(InvalidTransaction("transfer requires a destination"))
    else if tx.TotalCost().None? then Err(InvalidTransaction("transaction cost overflows"))
    else if w.Balance(tx.from) < tx.TotalCost().value then
      Err(InsufficientBalance(tx.from, w.Balance(tx.from), tx.TotalCost().value))
    else if tx.to.value != tx.from && w.Balance(tx.to.value) + tx.value > U128_MAX then
      Err(BalanceOverflow(tx.to.value))
    else Ok(Settle(w, tx.from, tx.to.value, tx.value, tx.Fee().value, tx.nonce + 1))
  }

  /** The settled world: the sender pays value and fee, the receiver is credited, the nonce advances. */
  function Settle(w: World, from: Address, to: Address, value: U128, fee: U128, nextNonce: U64): World
    requires value + fee <= w.Balance(from)
    requires to != from ==> w.Balance(to) + value <= U128_MAX
  {
    if to == from then
      w.(accounts := w.accounts[from := Account(nextNonce, w.Balance(from) - fee)])
    else
      w.(accounts := w.accounts
        [from := Account(nextNonce, w.Balance(from) - value - fee)]
        [to := Account(w.Nonce(to), w.Balance(to) + value)])
  }

  /** The settled world is what moving the value, then debiting the fee, then advancing the nonce leaves. */
  lemma SettleInSteps(w: World, from: Address, to: Address, value: U128, fee: U128, nextNonce: U64)
    requires value + fee <= w.Balance(from)
    requires to != from ==> w.Balance(to) + value <= U128_MAX
    ensures var moved := if to == from then w else
                         w.WithBalance(from, w.Balance(from) - value).WithBalance(to, w.Balance(to) + value);
            && fee <= moved.Balance(from)
            && var paid := moved.WithBalance(from, moved.Balance(from) - fee);
            Settle(w, from, to, value, fee, nextNonce)
              == paid.(accounts := paid.accounts[from := paid.Entry(from).(nonce := nextNonce)])
  {
  }

  predicate BadNonce(r: Result<World, StateError>) {
    r.Err? && r.error.InvalidNonce?
  }

  lemma ExpectedNonce(w: World, tx: Transaction)
    requires tx.nonce == w.Nonce(tx.from)
    ensures !BadNonce(Execute(w, tx))
  {
  }

  /** What a transaction needs, in its own fields and the two balances it touches. */
  predicate Payable(w: World, tx: Transaction) {
    && tx.chainId == w.chainId && tx.txType == Transfer && tx.to.Some?
    && tx.gasLimit > 0 && tx.nonce == w.Nonce(tx.from) < U64_MAX
    && tx.value + tx.gasPrice * tx.gasLimit <= w.Balance(tx.from)
    && (tx.to.value != tx.from ==> w.Balance(tx.to.value) + tx.value <= U128_MAX)
  }

  lemma CostIs(tx: Transaction)
    ensures tx.gasPrice * tx.gasLimit >= 0
    ensures tx.Fee() == if tx.gasPrice * tx.gasLimit <= U128_MAX then Some(tx.gasPrice * tx.gasLimit) else None
    ensures tx.TotalCost() == if tx.value + tx.gasPrice * tx.gasLimit <= U128_MAX
                              then Some(tx.value + tx.gasPrice * tx.gasLimit) else None
  {
  }

  /** Exactly the payable transactions execute. */
  lemma ExecuteIff(w: World, tx: Transaction)
    ensures Execute(w, tx).Ok? <==> Payable(w, tx)
  {
    CostIs(tx);
  }

  /** Exactly which refusals are for the nonce and which for an overflowing credit. */
  lemma RefusedFor(w: World, tx: Transaction)
    ensures BadNonce(Execute(w, tx)) <==> tx.chainId == w.chainId && tx.gasLimit > 0 && tx.nonce != w.Nonce(tx.from)
    ensures Execute(w, tx).Err? && Execute(w, tx).error.BalanceOverflow? <==>
              && tx.chainId == w.chainId && tx.txType == Transfer && tx.to.Some? && tx.to.value != tx.from
              && tx.gasLimit > 0 && tx.nonce == w.Nonce(tx.from) < U64_MAX
              && tx.value + tx.gasPrice * tx.gasLimit <= w.Balance(tx.from)
              && w.Balance(tx.to.value) + tx.value > U128_MAX
  {
    CostIs(tx);
  }

  /**
   Who pays and who is paid: the receiver gets the value, the sender loses it and the gas price
   times the gas limit, a self-transfer costs only the fee, one nonce advances, and no other
   account changes.
   */
  lemma ExecutePays(w: World, tx: Transaction, a: Address)
    requires Execute(w, tx).Ok?
    ensures tx.to.Some?
    ensures var after := Execute(w, tx).value;
            && after.chainId == w.chainId
            && after.Balance(a) == w.Balance(a)
                 + (if a == tx.to.value then tx.value else 0)
                 - (if a == tx.from then tx.value + tx.gasPrice * tx.gasLimit else 0)
            && after.Nonce(a) == w.Nonce(a) + (if a == tx.from then 1 else 0)
            && (a != tx.from && a != tx.to.value ==> (a in after.accounts <==> a in w.accounts) && after.Entry(a) == w.Entry(a))
  {
    CostIs(tx);
  }

  /** The world state as the program holds it: one account map, updated in place. */
  class State {
    const chainId: U64
    var accounts: map<Address, Account>

    function View(): World
      reads this
    {
      World(chainId, accounts)
    }

    constructor (w: World)
      ensures View() == w
    {
      chainId := w.chainId;
      accounts := w.accounts;
    }

    method SetBalance(address: Address, balance: U128)
      modifies this`accounts
      ensures View() == old(View()).WithBalance(address, balance)
    {
      accounts := accounts[address := View().Entry(address).(balance := balance)];
    }

    /** Moves value between two accounts; an overdraft or a credit overflow changes nothing. */
    method ApplyTransfer(from: Address, to: Address, value: U128) returns (r: Result<(), StateError>)
      modifies this`accounts
      ensures r.Err? ==> View() == old(View())
      ensures r.Ok? <==>
        && value <= old(View()).Balance(from)
        && (from != to ==> old(View()).Balance(to) + value <= U128_MAX)
      ensures r.Ok? && from == to ==> View() == old(View())
      ensures r.Ok? && from != to ==>
        && View() == old(View()).WithBalance(from, old(View()).Balance(from) - value)
                                .WithBalance(to, old(View()).Balance(to) + value)
      ensures r.Err? ==>
        r.error == if old(View()).Balance(from) < value
                   then InsufficientBalance(from, old(View()).Balance(from), value)
                   else BalanceOverflow(to)
    {
      var fromBalance := View().Balance(from);
      if fromBalance < value {
        return Err(InsufficientBalance(from, fromBalance, value));
      }
      if from == to {
        return Ok(());
      }
      if View().Balance(to) + value > U128_MAX {
        return Err(BalanceOverflow(to));
      }
      var credited := View().Balance(to) + value;
      accounts := accounts[from := View().Entry(from).(balance := fromBalance - value)];
      accounts := accounts[to := View().Entry(to).(balance := credited)];
      return Ok(());
    }

    method Debit(address: Address, amount: U128) returns (r: Result<(), StateError>)
      modifies this`accounts
      ensures r.Ok? <==> amount <= old(View()).Balance(address)
      ensures r.Ok? ==> View() == old(View()).WithBalance(address, old(View()).Balance(address) - amount)
      ensures r.Err? ==> View() == old(View())
    {
      var balance := View().Balance(address);
      if balance < amount {
        return Err(InsufficientBalance(address, balance, amount));
      }
      accounts := accounts[address := View().Entry(address).(balance := balance - amount)];
      return Ok(());
    }

    /**
     Executes a transaction by three successive updates. The result is the all-or-nothing step:
     no error leaves a partial update behind, and on success the fee is reported.
     */
    method ApplyTransaction(tx: Transaction) returns (r: Result<U128, StateError>)
      modifies this`accounts
      ensures r.Ok? <==> Execute(old(View()), tx).Ok?
      ensures r.Ok? ==> View() == Execute(old(View()), tx).value && tx.Fee() == Some(r.value)
      ensures r.Err? ==> View() == old(View()) && r.error == Execute(old(View()), tx).error
    {
      if tx.chainId != chainId {
        return Err(ChainMismatch(chainId, tx.chainId));
      }
      if tx.gasLimit == 0 {
        return Err(InvalidTransaction("gas limit must be > 0"));
      }
      var expected := View().Nonce(tx.from);
      if tx.nonce != expected {
        return Err(InvalidNonce(tx.from, expected, tx.nonce));
      }
      if tx.nonce == U64_MAX {
        return Err(InvalidTransaction("transaction nonce overflow"));
      }
      var nextNonce := tx.nonce + 1;
      if tx.Fee().None? {
        return Err(InvalidTransaction("transaction fee overflows"));
      }
      var fee := tx.Fee().value;
      match tx.txType {
        case Transfer =>
          if tx.to.None? {
            return Err(InvalidTransaction("transfer requires a destination"));
          }
          if tx.TotalCost().None? {
            return Err(InvalidTransaction("transaction cost overflows"));
          }
          var have := View().Balance(tx.from);
          if have < tx.TotalCost().value {
            return Err(InsufficientBalance(tx.from, have, tx.TotalCost().value));
          }
          var moved := ApplyTransfer(tx.from, tx.to.value, tx.value);
          if moved.Err? {
            return Err(moved.error);
          }
          var paid := Debit(tx.from, fee);
          assert paid.Ok?;
        case _ =>
          return Err(UnsupportedTransactionType(tx.txType));
      }
      SettleInSteps(old(View()), tx.from, tx.to.value, tx.value, fee, nextNonce);
      accounts := accounts[tx.from := View().Entry(tx.from).(nonce := nextNonce)];
      return Ok(fee);
    }

    /** The address-sorted snapshot, whatever order the account map is walked in. */
    method Snapshot() returns (s: StateSnapshot)
      ensures s == SnapshotOf(View())
    {
      ItemsOrdered(accounts);
      var listed := Sort(accounts.Items, ByAddress);
      s := StateSnapshot(chainId, listed);
    }
  }

  // ---------------------------------------------------------------- whole histories

  /** Execution of a list of transactions, each against the world its predecessors left. */
  function ExecuteAll(w: World, txs: seq<Transaction>): Result<World, StateError> {
    if txs == [] then Ok(w) else
      match ExecuteAll(w, txs[..|txs| - 1])
      case Err(e) => Err(e)
      case Ok(before) => Execute(before, txs[|txs| - 1])
  }

  function NoncesOf(txs: seq<Transaction>, a: Address): seq<U64> {
    if txs == [] then [] else
      var last := txs[|txs| - 1];
      NoncesOf(txs[..|txs| - 1], a) + (if last.from == a then [last.nonce] else [])
  }

  function Range(lo: U64, hi: U64): seq<U64>
    requires lo <= hi
  {
    seq(hi - lo, i requires 0 <= i < hi - lo => lo + i)
  }

  /** A sender's executed nonces are exactly the gap-free run from its old nonce to its new one. */
  lemma {:induction false} NoncesAreConsecutive(w: World, txs: seq<Transaction>, a: Address)
    requires ExecuteAll(w, txs).Ok?
    ensures w.Nonce(a) <= ExecuteAll(w, txs).value.Nonce(a)
    ensures NoncesOf(txs, a) == Range(w.Nonce(a), ExecuteAll(w, txs).value.Nonce(a))
  {
    if txs != [] {
      var prefix, last := txs[..|txs| - 1], txs[|txs| - 1];
      NoncesAreConsecutive(w, prefix, a);
      var before := ExecuteAll(w, prefix).value;
      ExecuteMovesNonce(before, last, a);
      RangeSnoc(w.Nonce(a), before.Nonce(a));
    }
  }

  lemma ExecuteMovesNonce(w: World, tx: Transaction, a: Address)
    requires Execute(w, tx).Ok?
    ensures tx.nonce == w.Nonce(tx.from) && tx.nonce < U64_MAX
    ensures Execute(w, tx).value.Nonce(a) == if a == tx.from then tx.nonce + 1 else w.Nonce(a)
  {
  }

  lemma RangeSnoc(lo: U64, hi: U64)
    requires lo <= hi
    ensures hi < U64_MAX ==> Range(lo, hi + 1) == Range(lo, hi) + [hi]
  {
  }

  lemma {:induction false} NonceCount(txs: seq<Transaction>, a: Address)
    requires forall i | 0 <= i < |txs| :: txs[i].from == a
    ensures |NoncesOf(txs, a)| == |txs|
  {
    if txs != [] {
      NonceCount(txs[..|txs| - 1], a);
    }
  }

  /** Every executed transaction lies below its sender's nonce, so it can never execute again. */
  lemma {:induction false} ExecutedIsStale(w: World, txs: seq<Transaction>, i: nat)
    requires i < |txs| && ExecuteAll(w, txs).Ok?
    ensures txs[i].nonce < ExecuteAll(w, txs).value.Nonce(txs[i].from)
  {
    var prefix, last := txs[..|txs| - 1], txs[|txs| - 1];
    ExecuteMovesNonce(ExecuteAll(w, prefix).value, last, txs[i].from);
    if i < |txs| - 1 {
      assert prefix[i] == txs[i];
      ExecutedIsStale(w, prefix, i);
    }
  }

  /** Replay protection over a whole history: no transaction executes twice. */
  lemma {:induction false} NoReplay(w: World, txs: seq<Transaction>, i: nat, j: nat)
    requires i < j < |txs| && ExecuteAll(w, txs).Ok?
    ensures txs[i] != txs[j]
  {
    ExecutePrefix(w, txs, j + 1);
    ExecutePrefix(w, txs, j);
    assert txs[..j + 1][..j] == txs[..j];
    assert txs[..j][i] == txs[i];
    ExecutedIsStale(w, txs[..j], i);
  }

  lemma {:induction false} ExecutePrefix(w: World, txs: seq<Transaction>, n: nat)
    requires n <= |txs| && ExecuteAll(w, txs).Ok?
    ensures ExecuteAll(w, txs[..n]).Ok?
    decreases |txs|
  {
    if n == |txs| {
      assert txs[..n] == txs;
    } else {
      assert txs[..|txs| - 1][..n] == txs[..n];
      ExecutePrefix(w, txs[..|txs| - 1], n);
    }
  }

  // ---------------------------------------------------------------- conservation

  ghost function Balances(accounts: map<Address, Account>): map<Address, nat> {
    map a | a in accounts :: accounts[a].balance
  }

  ghost function Supply(w: World): nat {
    Sum(Balances(w.accounts))
  }

  ghost function Fees(txs: seq<Transaction>): nat {
    if txs == [] then 0 else
      Fees(txs[..|txs| - 1]) + (match txs[|txs| - 1].Fee() case Some(fee) => fee case None => 0)
  }

  lemma SupplyOfUpdate(w: World, a: Address, account: Account)
    ensures Supply(w.(accounts := w.accounts[a := account])) == Supply(w) + account.balance - w.Balance(a)
  {
    SumUpdate(Balances(w.accounts), a, account.balance);
    assert Balances(w.accounts[a := account]) == Balances(w.accounts)[a := account.balance];
  }

  lemma SettleConserves(w: World, from: Address, to: Address, value: U128, fee: U128, nextNonce: U64)
    requires value + fee <= w.Balance(from)
    requires to != from ==> w.Balance(to) + value <= U128_MAX
    ensures Supply(Settle(w, from, to, value, fee, nextNonce)) + fee == Supply(w)
  {
    var payer := Account(nextNonce, w.Balance(from) - fee - (if to == from then 0 else value));
    SupplyOfUpdate(w, from, payer);
    if to != from {
      var charged := w.(accounts := w.accounts[from := payer]);
      SupplyOfUpdate(charged, to, Account(w.Nonce(to), w.Balance(to) + value));
    }
  }

  /** One transaction burns exactly its fee, self-transfers included. */
  lemma ExecuteConserves(w: World, tx: Transaction)
    requires Execute(w, tx).Ok?
    ensures Supply(Execute(w, tx).value) + tx.Fee().value == Supply(w)
  {
    SettleConserves(w, tx.from, tx.to.value, tx.value, tx.Fee().value, tx.nonce + 1);
  }

  /** Over a whole history: what is left plus all fees is what there was at the start. */
  lemma {:induction false} HistoryConserves(w: World, txs: seq<Transaction>)
    requires ExecuteAll(w, txs).Ok?
    ensures Supply(ExecuteAll(w, txs).value) + Fees(txs) == Supply(w)
  {
    if txs != [] {
      HistoryConserves(w, txs[..|txs| - 1]);
      ExecuteConserves(ExecuteAll(w, txs[..|txs| - 1]).value, txs[|txs| - 1]);
    }
  }

  /** If the starting supply fits in 128 bits, no later credit can overflow. */
  lemma SupplyBoundsCredits(w: World, txs: seq<Transaction>, tx: Transaction)
    requires Supply(w) <= U128_MAX && ExecuteAll(w, txs).Ok?
    ensures !(Execute(ExecuteAll(w, txs).value, tx).Err?
              && Execute(ExecuteAll(w, txs).value, tx).error.BalanceOverflow?)
  {
    HistoryConserves(w, txs);
    var now := ExecuteAll(w, txs).value;
    if Execute(now, tx).Err? && Execute(now, tx).error.BalanceOverflow? {
      var to, balances := tx.to.value, Balances(now.accounts);
      if tx.from in balances {
        SumAtLeast(balances, tx.from);
        if to in balances {
          SumTwo(balances, tx.from, to);
        }
      }
      assert false;
    }
  }

  // ---------------------------------------------------------------- snapshots

  predicate ByAddress(x: (Address, Account), y: (Address, Account)) {
    x.0 < y.0
  }

  lemma ItemsOrdered(accounts: map<Address, Account>)
    ensures StrictTotalOn(accounts.Items, ByAddress)
  {
  }

  ghost function SnapshotOf(w: World): StateSnapshot {
    StateSnapshot(w.chainId, SortedSeq(w.accounts.Items, ByAddress))
  }

  ghost function RootOf(w: World): Hash {
    OfSnapshot(SnapshotOf(w))
  }

  predicate DistinctAddresses(entries: seq<(Address, Account)>) {
    forall i, j | 0 <= i < j < |entries| :: entries[i].0 != entries[j].0
  }

  /** Insert the entries one by one. */
  function ToAccounts(entries: seq<(Address, Account)>): map<Address, Account> {
    if entries == [] then map[] else
      var last := entries[|entries| - 1];
      ToAccounts(entries[..|entries| - 1])[last.0 := last.1]
  }

  /** Every entry is found under its address, and nothing else is. */
  lemma {:induction false} ToAccountsEntries(entries: seq<(Address, Account)>)
    requires DistinctAddresses(entries)
    ensures forall i | 0 <= i < |entries| ::
              entries[i].0 in ToAccounts(entries) && ToAccounts(entries)[entries[i].0] == entries[i].1
    ensures forall a | a in ToAccounts(entries) :: (a, ToAccounts(entries)[a]) in entries
  {
    if entries != [] {
      var rest, last := entries[..|entries| - 1], entries[|entries| - 1];
      assert forall i | 0 <= i < |rest| :: rest[i] == entries[i];
      ToAccountsEntries(rest);
    }
  }

  lemma ToAccountsItems(entries: seq<(Address, Account)>)
    requires DistinctAddresses(entries)
    ensures ToAccounts(entries).Items == Elements(entries)
  {
    ToAccountsEntries(entries);
    forall e ensures e in ToAccounts(entries).Items <==> e in Elements(entries) {
      assert e in ToAccounts(entries).Items <==> e.0 in ToAccounts(entries) && ToAccounts(entries)[e.0] == e.1;
    }
  }

  /** One more entry: its address is new exactly when the longer list still has distinct addresses. */
  lemma ToAccountsStep(entries: seq<(Address, Account)>, i: nat)
    requires i < |entries| && DistinctAddresses(entries[..i])
    ensures entries[i].0 !in ToAccounts(entries[..i]) <==> DistinctAddresses(entries[..i + 1])
    ensures ToAccounts(entries[..i + 1]) == ToAccounts(entries[..i])[entries[i].0 := entries[i].1]
  {
    ToAccountsEntries(entries[..i]);
    assert entries[..i + 1] == entries[..i] + [entries[i]];
    if entries[i].0 in ToAccounts(entries[..i]) {
      var j :| 0 <= j < i && entries[..i][j].0 == entries[i].0;
      assert entries[..i + 1][j].0 == entries[..i + 1][i].0;
    }
  }

  function FromSnapshot(s: StateSnapshot): Result<World, StateError> {
    if s.chainId == 0 then Err(InvalidSnapshot("chain ID cannot be zero"))
    else if !DistinctAddresses(s.accounts) then Err(InvalidSnapshot("snapshot contains duplicate accounts"))
    else Ok(World(s.chainId, ToAccounts(s.accounts)))
  }

  /** Rebuilds a world by inserting entries until an address repeats. */
  method RestoreSnapshot(s: StateSnapshot) returns (r: Result<World, StateError>)
    ensures r == FromSnapshot(s)
  {
    if s.chainId == 0 {
      return Err(InvalidSnapshot("chain ID cannot be zero"));
    }
    var accounts: map<Address, Account> := map[];
    for i := 0 to |s.accounts|
      invariant DistinctAddresses(s.accounts[..i])
      invariant accounts == ToAccounts(s.accounts[..i])
    {
      ToAccountsStep(s.accounts, i);
      if s.accounts[i].0 in accounts {
        assert !DistinctAddresses(s.accounts);
        return Err(InvalidSnapshot("snapshot contains duplicate accounts"));
      }
      accounts := accounts[s.accounts[i].0 := s.accounts[i].1];
    }
    assert s.accounts[..|s.accounts|] == s.accounts;
    return Ok(World(s.chainId, accounts));
  }

  lemma SnapshotListsAccounts(w: World)
    ensures Sorted(SnapshotOf(w).accounts, ByAddress) && Elements(SnapshotOf(w).accounts) == w.accounts.Items
  {
    ItemsOrdered(w.accounts);
    SortedSeqSorts(w.accounts.Items, ByAddress);
  }

  /** Taking a snapshot and restoring it gives the same world back. */
  lemma SnapshotRoundTrip(w: World)
    requires w.chainId != 0
    ensures FromSnapshot(SnapshotOf(w)) == Ok(w)
  {
    SnapshotListsAccounts(w);
    var entries := SnapshotOf(w).accounts;
    ToAccountsItems(entries);
    ItemsDetermine(ToAccounts(entries), w.accounts);
  }

  lemma ItemsDetermine(m: map<Address, Account>, n: map<Address, Account>)
    requires m.Items == n.Items
    ensures m == n
  {
    forall a ensures a in m <==> a in n {
      assert a in m ==> (a, m[a]) in m.Items;
      assert a in n ==> (a, n[a]) in n.Items;
    }
    forall a | a in m ensures m[a] == n[a] {
      assert (a, m[a]) in m.Items;
    }
  }

  /**
   Which accepted snapshots could have been produced by taking one: restoring checks only for
   repeated addresses, so re-taking the snapshot reproduces it exactly when it was sorted.
   */
  lemma RestoredIsSourceIffSorted(s: StateSnapshot)
    requires FromSnapshot(s).Ok?
    ensures SnapshotOf(FromSnapshot(s).value) == s <==> Sorted(s.accounts, ByAddress)
  {
    var w := FromSnapshot(s).value;
    SnapshotListsAccounts(w);
    ToAccountsItems(s.accounts);
    if Sorted(s.accounts, ByAddress) {
      ItemsOrdered(w.accounts);
      SortedIsCanonical(s.accounts, w.accounts.Items, ByAddress);
    }
  }

  /** Equal state roots mean equal worlds. */
  lemma RootDeterminesWorld(v: World, w: World)
    requires RootOf(v) == RootOf(w)
    ensures v == w
  {
    SnapshotListsAccounts(v);
    SnapshotListsAccounts(w);
    ItemsDetermine(v.accounts, w.accounts);
  }
}
