/**
 The shapes shared by every component: transactions, blocks, receipts, account snapshots and
 the commitments over them.

 A digest is modelled by the content it commits to, one constructor per kind of content. Two
 digests are equal exactly when they commit to equal content of the same kind, which is what
 collision resistance of BLAKE3 over an injective encoding means for this code.
 */
module Core {
  import opened Prelude

  const BLOCK_GAS_LIMIT: U64 := 30_000_000

  /** A 20-byte address read as a big-endian number, so numeric order is byte order. */
  type Address = x: int | 0 <= x < 0x1_00000000_00000000_00000000_00000000_00000000

  datatype TransactionType =
    | Transfer | ContractCreation | ContractCall | Stake | Unstake | GovernanceVote | CrossChain

  datatype TransactionSignature = TransactionSignature(r: nat, s: nat, v: Byte)

  datatype Transaction = Transaction(
    txType: TransactionType,
    nonce: U64,
    from: Address,
    to: Option<Address>,
    value: U128,
    gasPrice: U128,
    gasLimit: U64,
    data: seq<Byte>,
    chainId: U64,
    signature: TransactionSignature)
  {
    function Hash(): Hash {
      OfTransaction(this)
    }

    /** `gas_price * gas_limit`, absent when it does not fit in 128 bits. */
    function Fee(): Option<U128> {
      if gasPrice * gasLimit <= U128_MAX && 0 <= gasPrice * gasLimit then Some(gasPrice * gasLimit) else None
    }

    /** `value + fee`, absent when either step overflows. */
    function TotalCost(): Option<U128> {
      match Fee()
      case None => None
      case Some(fee) => if value + fee <= U128_MAX then Some(value + fee) else None
    }
  }

  datatype Account = Account(nonce: U64, balance: U128)

  datatype StateSnapshot = StateSnapshot(chainId: U64, accounts: seq<(Address, Account)>)

  datatype ReceiptStatus = Failure | Success

  datatype BlockHeader = BlockHeader(
    version: nat,
    chainId: U64,
    height: U64,
    timestamp: U64,
    parentHash: Hash,
    stateRoot: Hash,
    txRoot: Hash,
    receiptRoot: Hash,
    validator: Address,
    gasUsed: U64,
    gasLimit: U64,
    extraData: seq<Byte>)

  datatype Hash =
    | Zero
    | OfTransaction(tx: Transaction)
    | OfHeader(header: BlockHeader)
    | OfSnapshot(snapshot: StateSnapshot)
    | OfHashes(hashes: seq<Hash>)
    | OfReceipt(txHash: Hash, height: U64, gasUsed: U64, status: ReceiptStatus)

  datatype ValidatorSignature = ValidatorSignature(validator: Address, signature: seq<Byte>)

  datatype Block = Block(
    header: BlockHeader,
    transactions: seq<Transaction>,
    signatures: seq<ValidatorSignature>)
  {
    function Hash(): Hash {
      OfHeader(header)
    }
  }

  datatype Log = Log(address: Address, topics: seq<Hash>, data: seq<Byte>)

  datatype Receipt = Receipt(
    txHash: Hash,
    blockHash: Hash,
    blockHeight: U64,
    gasUsed: U64,
    status: ReceiptStatus,
    logs: seq<Log>,
    contractAddress: Option<Address>)

  function TxRootOf(hashes: seq<Hash>): Hash {
    OfHashes(hashes)
  }

  function ReceiptRoot(txHash: Hash, height: U64, gasUsed: U64): Hash {
    OfReceipt(txHash, height, gasUsed, Success)
  }
}
