/** A block while it is being made (blockchain/block.py): its nonce, hash and difficulty
    still change, the other hashed fields do not. */
module Blocks {
  import opened Protocol
  import opened Pool

  class MutableBlock {
    const p: Params
    const index: int
    const timestamp: real
    const transactions: seq<Tx>
    const previousHash: string
    const minerAddress: Option<string>
    var nonce: int
    var hash: string
    var difficulty: int

    /** The fields calculate_hash covers. */
    function Data(): BlockData
      reads this
    {
      BlockData(index, timestamp, transactions, previousHash, nonce, minerAddress)
    }

    function Value(): Block
      reads this
    {
      Block(Data(), hash, difficulty)
    }

    /** A block without a recorded hash gets the one its fields call for. */
    constructor (p: Params, b: Block)
      ensures this.p == p && Value() == if b.hash == "" then Block(b.data, Digest(p, b.data), b.difficulty) else b
    {
      this.p, index, timestamp, transactions := p, b.data.index, b.data.timestamp, b.data.transactions;
      previousHash, minerAddress, nonce := b.data.previousHash, b.data.minerAddress, b.data.nonce;
      hash, difficulty := if b.hash == "" then Digest(p, b.data) else b.hash, b.difficulty;
    }

    /** proof_of_work stops at the first nonce from the present one on that solves the block,
        provided there is one, and touches no other hashed field. */
    method ProofOfWork(target: Option<int>, ghost solution: int)
      requires nonce <= solution
      requires Solves(p, Value().(difficulty := if target.Some? then target.value else difficulty), solution)
      modifies this
      ensures difficulty == if target.Some? then target.value else old(difficulty)
      ensures old(nonce) <= nonce <= solution
      ensures Value() == WithNonce(p, old(Value()).(difficulty := difficulty), nonce)
      ensures HasValidProof(p, Value())
      ensures forall n :: old(nonce) <= n < nonce ==> !Solves(p, Value(), n)
    {
      if target.Some? {
        difficulty := target.value;
      }
      hash := Digest(p, Data());
      while !StartsWithZeros(hash, difficulty)
        invariant difficulty == if target.Some? then target.value else old(difficulty)
        invariant old(nonce) <= nonce <= solution
        invariant Value() == WithNonce(p, old(Value()).(difficulty := difficulty), nonce)
        invariant Solves(p, Value(), solution)
        invariant forall n :: old(nonce) <= n < nonce ==> !Solves(p, Value(), n)
        decreases solution - nonce
      {
        ghost var before := Value();
        assert !Solves(p, before, nonce);
        nonce := nonce + 1;
        hash := Digest(p, Data());
        SolvesIgnoresNonce(p, before, nonce);
        assert Value() == WithNonce(p, before, nonce);
      }
    }

    /** has_valid_proof, at the block's own difficulty or at a given one. */
    method CheckProof(target: Option<int>) returns (ok: bool)
      ensures ok == HasValidProof(p, Value().(difficulty := if target.Some? then target.value else difficulty))
    {
      var zeros := if target.None? then difficulty else target.value;
      ok := hash == Digest(p, Data()) && StartsWithZeros(hash, zeros);
    }
  }

  /** Whether the nonce would solve the block. */
  predicate Solves(p: Params, b: Block, nonce: int) {
    HasValidProof(p, WithNonce(p, b, nonce))
  }

  /** Which nonces solve a block does not depend on the nonce it has now. */
  lemma SolvesIgnoresNonce(p: Params, b: Block, nonce: int)
    ensures forall n :: Solves(p, WithNonce(p, b, nonce), n) <==> Solves(p, b, n)
  {}
}
