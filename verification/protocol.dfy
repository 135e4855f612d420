/** The values the node exchanges, and the parameters it runs under: addresses,
    transactions (blockchain/transaction.py), blocks (blockchain/block.py) and the
    digests and signature checks, which stay abstract functions. */
module Protocol {

  datatype Option<+T> = None | Some(value: T)

  type Address = string

  const SYSTEM: Address := "SYSTEM"
  const LENDING_POOL: Address := "LENDING_POOL"
  const TREASURY: Address := "VORLIQ_TREASURY"

  /** Membership in SYSTEM_ADDRESSES. */
  predicate IsSystem(a: Address) {
    a == SYSTEM || a == LENDING_POOL
  }

  /** Amounts are whole multiples of 1e-8 VLQ. */
  datatype TxData = TxData(sender: Address, receiver: Address, amount: int, timestamp: real,
                           signature: Option<string>, publicKey: Option<string>,
                           kind: string, category: string, metadata: string, suppliedId: Option<string>)

  predicate Constructible(sender: Address, receiver: Address, amount: int) {
    sender != "" && receiver != "" && amount > 0
  }

  /** A transaction object: its constructor raises on anything else. */
  type Tx = t: TxData | Constructible(t.sender, t.receiver, t.amount)
    witness TxData("SYSTEM", "SYSTEM", 1, 0.0, None, None, "", "", "", None)

  /** The fields that calculate_hash covers; a block's difficulty is not one of them. */
  datatype BlockData = BlockData(index: int, timestamp: real, transactions: seq<Tx>, previousHash: string,
                                 nonce: int, minerAddress: Option<string>)

  datatype Block = Block(data: BlockData, hash: string, difficulty: int)

  type Accounts = map<Address, int>

  /** What a prune-point commitment covers. */
  datatype Snapshot = Snapshot(height: int, blockHash: string, totalIssued: int, balances: Accounts)

  datatype Params = Params(digest: BlockData -> string, txDigest: Tx -> string, commitDigest: Snapshot -> string,
                           signatureOk: Tx -> bool, blockTimeMinimum: int, retargets: bool)

  function Digest(p: Params, d: BlockData): string {
    p.digest(d)
  }

  /** A transaction may come with an id of its own; otherwise its digest is its id. */
  function TxId(p: Params, t: Tx): string {
    if Present(t.suppliedId) then t.suppliedId.value else p.txDigest(t)
  }

  function Commit(p: Params, s: Snapshot): string {
    p.commitDigest(s)
  }

  predicate SignatureOk(p: Params, t: Tx) {
    p.signatureOk(t)
  }

  /** Transaction.verify_transaction. */
  predicate Verifies(p: Params, t: Tx) {
    if IsSystem(t.sender) then t.signature.None?
    else if t.sender == TREASURY then t.signature.None?
    else if t.receiver == LENDING_POOL && t.signature.None? then true
    else Present(t.publicKey) && Present(t.signature) && SignatureOk(p, t)
  }

  /** Python truthiness of an optional string. */
  predicate Present(s: Option<string>) {
    s.Some? && s.value != ""
  }

  /** "0" * n; a negative count gives the empty string. */
  function Zeros(n: int): string
    decreases if n < 0 then 0 else n
  {
    if n <= 0 then "" else Zeros(n - 1) + "0"
  }

  /** h.startswith("0" * n). */
  predicate StartsWithZeros(h: string, n: int) {
    Zeros(n) <= h
  }

  predicate HashMatches(p: Params, b: Block) {
    b.hash == Digest(p, b.data)
  }

  /** Block.has_valid_proof at the block's own recorded difficulty. */
  predicate HasValidProof(p: Params, b: Block) {
    HashMatches(p, b) && StartsWithZeros(b.hash, b.difficulty)
  }
}
