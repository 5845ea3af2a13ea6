/**
 A byte order of digests exists for the symbolic hashes too: every hash is read as a tree of
 numbers, different hashes as different trees, and trees are compared from the left. So the
 default pool configuration is one the pool theorems speak about.
 */
module DigestOrder {
  import opened Prelude
  import opened Core
  import opened Mempool

  datatype Tree = Leaf(n: int) | Pair(left: Tree, right: Tree)

  predicate Less(x: Tree, y: Tree) {
    match (x, y)
    case (Leaf(m), Leaf(n)) => m < n
    case (Leaf(_), Pair(_, _)) => true
    case (Pair(_, _), Leaf(_)) => false
    case (Pair(a, b), Pair(c, d)) => Less(a, c) || (a == c && Less(b, d))
  }

  lemma {:induction false} LessIrreflexive(x: Tree)
    ensures !Less(x, x)
  {
    if x.Pair? {
      LessIrreflexive(x.left);
      LessIrreflexive(x.right);
    }
  }

  lemma {:induction false} LessTotal(x: Tree, y: Tree)
    requires x != y
    ensures Less(x, y) || Less(y, x)
  {
    if x.Pair? && y.Pair? {
      if x.left != y.left {
        LessTotal(x.left, y.left);
      } else {
        LessTotal(x.right, y.right);
      }
    }
  }

  lemma {:induction false} LessTransitive(x: Tree, y: Tree, z: Tree)
    requires Less(x, y) && Less(y, z)
    ensures Less(x, z)
  {
    if x.Pair? && z.Pair? {
      if Less(x.left, y.left) && Less(y.left, z.left) {
        LessTransitive(x.left, y.left, z.left);
      } else if x.left == y.left == z.left {
        LessTransitive(x.right, y.right, z.right);
      }
    }
  }

  // ---------------------------------------------------------------- hashes as trees

  function Numbers(s: seq<int>): Tree {
    if s == [] then Leaf(0) else Pair(Leaf(s[0]), Numbers(s[1..]))
  }

  lemma {:induction false} NumbersInjective(s: seq<int>, t: seq<int>)
    requires Numbers(s) == Numbers(t)
    ensures s == t
  {
    if s != [] && t != [] {
      NumbersInjective(s[1..], t[1..]);
      assert s == [s[0]] + s[1..] && t == [t[0]] + t[1..];
    }
  }

  function TypeCode(t: TransactionType): int {
    match t
    case Transfer => 0
    case ContractCreation => 1
    case ContractCall => 2
    case Stake => 3
    case Unstake => 4
    case GovernanceVote => 5
    case CrossChain => 6
  }

  function TxNumbers(tx: Transaction): seq<int> {
    [TypeCode(tx.txType), tx.nonce, tx.from, if tx.to.Some? then tx.to.value else -1, tx.value, tx.gasPrice,
     tx.gasLimit, tx.chainId, tx.signature.r, tx.signature.s, tx.signature.v]
  }

  function TxTree(tx: Transaction): Tree {
    Pair(Numbers(TxNumbers(tx)), Numbers(tx.data))
  }

  lemma TxTreeInjective(x: Transaction, y: Transaction)
    requires TxTree(x) == TxTree(y)
    ensures x == y
  {
    NumbersInjective(x.data, y.data);
    NumbersInjective(TxNumbers(x), TxNumbers(y));
    var a, b := TxNumbers(x), TxNumbers(y);
    assert forall i | 0 <= i < 11 :: a[i] == b[i];
    assert a[0] == b[0] && a[1] == b[1] && a[2] == b[2] && a[3] == b[3] && a[4] == b[4] && a[5] == b[5];
    assert a[6] == b[6] && a[7] == b[7] && a[8] == b[8] && a[9] == b[9] && a[10] == b[10];
  }

  function AccountsTree(accounts: seq<(Address, Account)>): Tree {
    if accounts == [] then Leaf(0) else
      var (address, account) := accounts[0];
      Pair(Numbers([address, account.nonce, account.balance]), AccountsTree(accounts[1..]))
  }

  lemma {:induction false} AccountsTreeInjective(x: seq<(Address, Account)>, y: seq<(Address, Account)>)
    requires AccountsTree(x) == AccountsTree(y)
    ensures x == y
  {
    if x != [] && y != [] {
      var a, b := [x[0].0, x[0].1.nonce, x[0].1.balance], [y[0].0, y[0].1.nonce, y[0].1.balance];
      NumbersInjective(a, b);
      assert a[0] == b[0] && a[1] == b[1] && a[2] == b[2];
      AccountsTreeInjective(x[1..], y[1..]);
      assert x == [x[0]] + x[1..] && y == [y[0]] + y[1..];
    }
  }

  function HeaderNumbers(h: BlockHeader): seq<int> {
    [h.version, h.chainId, h.height, h.timestamp, h.validator, h.gasUsed, h.gasLimit]
  }

  function HashTree(h: Hash): Tree {
    match h
    case Zero => Leaf(0)
    case OfTransaction(tx) => Pair(Leaf(1), TxTree(tx))
    case OfHeader(b) => Pair(Leaf(2), Pair(Pair(Numbers(HeaderNumbers(b)), Numbers(b.extraData)),
      Pair(Pair(HashTree(b.parentHash), HashTree(b.stateRoot)), Pair(HashTree(b.txRoot), HashTree(b.receiptRoot)))))
    case OfSnapshot(s) => Pair(Leaf(3), Pair(Leaf(s.chainId), AccountsTree(s.accounts)))
    case OfHashes(hashes) => Pair(Leaf(4), HashesTree(hashes))
    case OfReceipt(txHash, height, gasUsed, status) =>
      Pair(Leaf(5), Pair(HashTree(txHash), Numbers([height, gasUsed, if status.Success? then 1 else 0])))
  }

  function HashesTree(hashes: seq<Hash>): Tree {
    if hashes == [] then Leaf(0) else Pair(HashTree(hashes[0]), HashesTree(hashes[1..]))
  }

  lemma HeaderNumbersInjective(x: BlockHeader, y: BlockHeader)
    requires HeaderNumbers(x) == HeaderNumbers(y) && x.extraData == y.extraData
    requires x.parentHash == y.parentHash && x.stateRoot == y.stateRoot && x.txRoot == y.txRoot && x.receiptRoot == y.receiptRoot
    ensures x == y
  {
    var a, b := HeaderNumbers(x), HeaderNumbers(y);
    assert a[0] == b[0] && a[1] == b[1] && a[2] == b[2] && a[3] == b[3] && a[4] == b[4] && a[5] == b[5] && a[6] == b[6];
  }

  lemma ReceiptNumbersInjective(h: U64, g: U64, s: ReceiptStatus, i: U64, j: U64, t: ReceiptStatus)
    requires [h, g, if s.Success? then 1 else 0] == [i, j, if t.Success? then 1 else 0]
    ensures h == i && g == j && s == t
  {
    var a, b := [h, g, if s.Success? then 1 else 0], [i, j, if t.Success? then 1 else 0];
    assert a[0] == b[0] && a[1] == b[1] && a[2] == b[2];
  }

  lemma {:induction false} HashTreeInjective(g: Hash, h: Hash)
    requires HashTree(g) == HashTree(h)
    ensures g == h
    decreases g
  {
    match g {
      case Zero =>
      case OfTransaction(tx) => TxTreeInjective(tx, h.tx);
      case OfHeader(b) =>
        HashTreeInjective(b.parentHash, h.header.parentHash);
        HashTreeInjective(b.stateRoot, h.header.stateRoot);
        HashTreeInjective(b.txRoot, h.header.txRoot);
        HashTreeInjective(b.receiptRoot, h.header.receiptRoot);
        NumbersInjective(HeaderNumbers(b), HeaderNumbers(h.header));
        NumbersInjective(b.extraData, h.header.extraData);
        HeaderNumbersInjective(b, h.header);
      case OfSnapshot(s) => AccountsTreeInjective(s.accounts, h.snapshot.accounts);
      case OfHashes(hashes) => HashesTreeInjective(hashes, h.hashes);
      case OfReceipt(txHash, height, gasUsed, status) =>
        HashTreeInjective(txHash, h.txHash);
        NumbersInjective([height, gasUsed, if status.Success? then 1 else 0], [h.height, h.gasUsed, if h.status.Success? then 1 else 0]);
        ReceiptNumbersInjective(height, gasUsed, status, h.height, h.gasUsed, h.status);
    }
  }

  lemma {:induction false} HashesTreeInjective(x: seq<Hash>, y: seq<Hash>)
    requires HashesTree(x) == HashesTree(y)
    ensures x == y
    decreases x
  {
    if x != [] && y != [] {
      HashTreeInjective(x[0], y[0]);
      HashesTreeInjective(x[1..], y[1..]);
      assert x == [x[0]] + x[1..] && y == [y[0]] + y[1..];
    }
  }

  // ---------------------------------------------------------------- the default pool

  predicate HashLess(x: Hash, y: Hash) {
    Less(HashTree(x), HashTree(y))
  }

  /** The default limits of the pool. */
  const DEFAULT_CONFIG := Config(10_000, 64, 1, 131_072, HashLess)

  /** The default configuration is valid, so what is proved of valid configurations is not empty. */
  lemma DefaultIsValid()
    ensures DEFAULT_CONFIG.Valid()
  {
    forall x: Hash ensures !HashLess(x, x) {
      LessIrreflexive(HashTree(x));
    }
    forall x: Hash, y: Hash | x != y ensures HashLess(x, y) || HashLess(y, x) {
      if HashTree(x) == HashTree(y) {
        HashTreeInjective(x, y);
      }
      LessTotal(HashTree(x), HashTree(y));
    }
    forall x: Hash, y: Hash, z: Hash | HashLess(x, y) && HashLess(y, z) ensures HashLess(x, z) {
      LessTransitive(HashTree(x), HashTree(y), HashTree(z));
    }
  }
}
