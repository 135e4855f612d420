/** The chain and its pending pool with every answer computed by a full scan: what
    blockchain/blockchain.py means when neither the read index nor the validity memo
    is consulted. The classes of module Node are proved against these functions. */
module Ledgers {
  import opened Protocol
  import opened Balances
  import opened Rewards

  const BLOCK_TIME_TARGET: real := 60.0
  const DIFFICULTY_ADJUSTMENT_INTERVAL: int := 10

  datatype PrunePoint = PrunePoint(snapshot: Snapshot, commitment: string)

  datatype Ledger = Ledger(chain: seq<Block>, pending: seq<Tx>, difficulty: int, miningReward: real,
                           prunePoint: Option<PrunePoint>)

  function Tip(l: Ledger): Block
    requires l.chain != []
  {
    l.chain[|l.chain| - 1]
  }

  function Height(l: Ledger): int {
    if l.chain == [] then -1 else Tip(l).data.index
  }

  // ------------------------------------------------- balances and supply

  function SeedBalances(pp: Option<PrunePoint>): Accounts {
    if pp.Some? then pp.value.snapshot.balances else map[]
  }

  function SeedIssued(pp: Option<PrunePoint>): int {
    if pp.Some? then pp.value.snapshot.totalIssued else 0
  }

  /** _confirmed_balances without an index; None is its ValueError. */
  function ConfirmedBalances(p: Params, l: Ledger): Option<Accounts> {
    ApplyTxs(p, SeedBalances(l.prunePoint), Txs(l.chain))
  }

  function TotalIssued(l: Ledger): int {
    SeedIssued(l.prunePoint) + Issued(Txs(l.chain))
  }

  function CurrentReward(l: Ledger): real {
    RewardAt(l.miningReward, Height(l) + 1, TotalIssued(l))
  }

  /** What a transaction adds to an address in get_balance's scan. */
  function Delta(t: Tx, a: Address): int {
    (if t.receiver == a then t.amount else 0) - (if t.sender == a then t.amount else 0)
  }

  function Deltas(ts: seq<Tx>, a: Address): int {
    if ts == [] then 0 else Delta(ts[0], a) + Deltas(ts[1..], a)
  }

  /** get_balance without an index. */
  function ScannedBalance(l: Ledger, a: Address): int {
    Get(SeedBalances(l.prunePoint), a) + Deltas(Txs(l.chain) + l.pending, a)
  }

  // ------------------------------------------------------------- validity

  predicate SameMiner(prev: Block, cur: Block) {
    Present(prev.data.minerAddress) && Present(cur.data.minerAddress) && prev.data.minerAddress == cur.data.minerAddress
  }

  function Gap(prev: Block, cur: Block): real {
    cur.data.timestamp - prev.data.timestamp
  }

  /** The spacing rules as is_chain_valid applies them to history. */
  predicate SpacingValid(p: Params, prev: Block, cur: Block) {
    && (Present(cur.data.minerAddress) ==> Gap(prev, cur) >= p.blockTimeMinimum as real)
    && (SameMiner(prev, cur) ==> Gap(prev, cur) >= 2.0 * p.blockTimeMinimum as real)
  }

  predicate LinkValid(p: Params, prev: Block, cur: Block, spacing: bool) {
    && HasValidProof(p, cur)
    && cur.data.previousHash == prev.hash
    && (spacing ==> SpacingValid(p, prev, cur))
  }

  predicate LinksValid(p: Params, chain: seq<Block>, spacing: bool) {
    forall i :: 0 < i < |chain| ==> LinkAt(p, chain, i, spacing)
  }

  predicate LinkAt(p: Params, chain: seq<Block>, i: nat, spacing: bool)
    requires 0 < i < |chain|
  {
    LinkValid(p, chain[i - 1], chain[i], spacing)
  }

  /** prune_commitment_is_valid. */
  predicate CommitmentValid(p: Params, chain: seq<Block>, pp: Option<PrunePoint>) {
    pp.Some? ==>
      && Commit(p, pp.value.snapshot) == pp.value.commitment
      && (chain != [] ==> chain[0].data.previousHash == pp.value.snapshot.blockHash)
  }

  /** is_chain_valid. */
  predicate ChainValid(p: Params, chain: seq<Block>, pp: Option<PrunePoint>, spacing: bool) {
    && chain != []
    && CommitmentValid(p, chain, pp)
    && HasValidProof(p, chain[0])
    && LinksValid(p, chain, spacing)
    && ApplyTxs(p, SeedBalances(pp), Txs(chain)).Some?
  }

  predicate Valid(p: Params, l: Ledger) {
    ChainValid(p, l.chain, l.prunePoint, false)
  }

  // ------------------------------------------------------------ admission

  /** Everything add_block checks against the tip, transactions aside. */
  predicate Admissible(p: Params, tip: Block, b: Block) {
    && b.data.index == tip.data.index + 1
    && b.data.previousHash == tip.hash
    && Gap(tip, b) >= p.blockTimeMinimum as real
    && (SameMiner(tip, b) ==> Gap(tip, b) >= 2.0 * p.blockTimeMinimum as real)
    && HasValidProof(p, b)
  }

  /** adjust_difficulty, after the block has been appended. */
  function Retarget(p: Params, chain: seq<Block>, difficulty: int): int
    requires chain != []
  {
    var height := chain[|chain| - 1].data.index;
    if !p.retargets || height <= 0 || height % DIFFICULTY_ADJUSTMENT_INTERVAL != 0
       || |chain| <= DIFFICULTY_ADJUSTMENT_INTERVAL
    then difficulty
    else
      var elapsed := Gap(chain[|chain| - 1 - DIFFICULTY_ADJUSTMENT_INTERVAL], chain[|chain| - 1]);
      var average := (if elapsed > 0.0 then elapsed else 0.0) / 10.0;
      if average < BLOCK_TIME_TARGET * 0.75 then difficulty + 1
      else if average > BLOCK_TIME_TARGET * 1.25 then (if difficulty - 1 > 2 then difficulty - 1 else 2)
      else difficulty
  }

  /** A difficulty of at least two stays so and moves by at most one, at heights that are
      multiples of ten and only with more than ten blocks at hand. */
  lemma RetargetBounds(p: Params, chain: seq<Block>, difficulty: int)
    requires chain != [] && difficulty >= 2
    ensures 2 <= Retarget(p, chain, difficulty) && difficulty - 1 <= Retarget(p, chain, difficulty) <= difficulty + 1
    ensures Retarget(p, chain, difficulty) != difficulty ==>
              p.retargets && chain[|chain| - 1].data.index % 10 == 0 && |chain| > 10
  {}

  /** When a retarget is due, ten blocks in under 450 seconds raise the difficulty, ten in over
      750 lower it unless it is two already, and nothing else changes it. */
  lemma RetargetDirection(p: Params, chain: seq<Block>, difficulty: int)
    requires |chain| > 10 && difficulty >= 2 && p.retargets
    requires chain[|chain| - 1].data.index > 0 && chain[|chain| - 1].data.index % 10 == 0
    ensures var seconds := chain[|chain| - 1].data.timestamp - chain[|chain| - 11].data.timestamp;
            && (Retarget(p, chain, difficulty) > difficulty <==> seconds < 450.0)
            && (Retarget(p, chain, difficulty) < difficulty <==> seconds > 750.0 && difficulty > 2)
  {}

  /** Failed is the ValueError of a chain whose own balances do not add up. */
  datatype Answer = Accepted | Rejected | Failed

  function AdmitAnswer(p: Params, l: Ledger, b: Block): Answer
    requires l.chain != []
  {
    if !Admissible(p, Tip(l), b) then Rejected
    else match ConfirmedBalances(p, l)
      case None => Failed
      case Some(balances) => if ApplyTxs(p, balances, b.data.transactions).Some? then Accepted else Rejected
  }

  /** The same, for a node that goes by these balances instead. */
  function AdmitAnswerBy(p: Params, l: Ledger, b: Block, seen: Option<Accounts>): Answer
    requires l.chain != []
  {
    if !Admissible(p, Tip(l), b) then Rejected
    else if seen.None? then Failed
    else if ApplyTxs(p, seen.value, b.data.transactions).Some? then Accepted
    else Rejected
  }

  function Append(p: Params, l: Ledger, b: Block): Ledger {
    l.(chain := l.chain + [b], difficulty := Retarget(p, l.chain + [b], l.difficulty))
  }

  function AddBlock(p: Params, l: Ledger, b: Block): (Ledger, Answer)
    requires l.chain != []
  {
    var answer := AdmitAnswer(p, l, b);
    (if answer.Accepted? then Append(p, l, b) else l, answer)
  }

  // --------------------------------------------------------- pending pool

  function PendingSpend(pending: seq<Tx>, a: Address): int {
    if pending == [] then 0
    else (if pending[0].sender == a then pending[0].amount else 0) + PendingSpend(pending[1..], a)
  }

  datatype SubmitAnswer = Submitted | BadSignature | NotEnough | SubmitFailed

  function SubmitAnswerOf(p: Params, l: Ledger, t: Tx): SubmitAnswer {
    if !Verifies(p, t) then BadSignature
    else if IsSystem(t.sender) then Submitted
    else match ConfirmedBalances(p, l)
      case None => SubmitFailed
      case Some(b) =>
        if Get(b, t.sender) - PendingSpend(l.pending, t.sender) >= t.amount then Submitted else NotEnough
  }

  /** The same, for a node that goes by these balances instead. */
  function SubmitAnswerBy(p: Params, l: Ledger, t: Tx, seen: Option<Accounts>): SubmitAnswer {
    if !Verifies(p, t) then BadSignature
    else if IsSystem(t.sender) then Submitted
    else if seen.None? then SubmitFailed
    else if Get(seen.value, t.sender) - PendingSpend(l.pending, t.sender) >= t.amount then Submitted
    else NotEnough
  }

  function Submit(p: Params, l: Ledger, t: Tx): (Ledger, SubmitAnswer) {
    var answer := SubmitAnswerOf(p, l, t);
    (if answer.Submitted? then l.(pending := l.pending + [t]) else l, answer)
  }

  /** _select_valid_pending_transactions, from the given balances on. */
  function Select(p: Params, b: Accounts, pending: seq<Tx>): seq<Tx>
    decreases |pending|
  {
    if pending == [] then []
    else match ApplyTx(p, b, pending[0])
      case None => Select(p, b, pending[1..])
      case Some(b') => [pending[0]] + Select(p, b', pending[1..])
  }

  /** The fields _transaction_identity compares. */
  datatype Identity = Identity(signature: Option<string>, sender: Address, receiver: Address, amount: int,
                               timestamp: real)

  function IdentityOf(t: Tx): Identity {
    Identity(t.signature, t.sender, t.receiver, t.amount, t.timestamp)
  }

  function Identities(ts: seq<Tx>): set<Identity> {
    set t | t in ts :: IdentityOf(t)
  }

  /** The loop of prune_pending_transactions, from the given balances on. */
  function Retain(p: Params, b: Accounts, confirmed: set<Identity>, dropSystem: bool, pending: seq<Tx>): seq<Tx>
    decreases |pending|
  {
    if pending == [] then []
    else if dropSystem && pending[0].sender == SYSTEM then Retain(p, b, confirmed, dropSystem, pending[1..])
    else if IdentityOf(pending[0]) in confirmed then Retain(p, b, confirmed, dropSystem, pending[1..])
    else match ApplyTx(p, b, pending[0])
      case None => Retain(p, b, confirmed, dropSystem, pending[1..])
      case Some(b') => [pending[0]] + Retain(p, b', confirmed, dropSystem, pending[1..])
  }

  /** prune_pending_transactions; None is its ValueError. */
  function PrunePending(p: Params, l: Ledger, dropSystem: bool): Option<Ledger> {
    match ConfirmedBalances(p, l)
    case None => None
    case Some(b) => Some(l.(pending := Retain(p, b, Identities(Txs(l.chain)), dropSystem, l.pending)))
  }

  // --------------------------------------------------------------- mining

  datatype BuildAnswer =
    | Built(block: Block, expectedPreviousHash: string)
    | MinerMissing
    | ReservedAddress
    | ChainInvalid
    | Cooldown
    | ConsecutiveMiner

  /** build_candidate_block. `raw` is the address as supplied, `miner` what is left of it
      after clean-up; the clock is read once for the cooldown and once for the block. */
  function BuildCandidate(p: Params, l: Ledger, raw: string, miner: string, now: real, stamp: real): BuildAnswer
    requires l.chain != []
  {
    if raw == "" then MinerMissing
    else if IsSystem(miner) || miner == TREASURY then ReservedAddress
    else if !Valid(p, l) then ChainInvalid
    else if now - Tip(l).data.timestamp < p.blockTimeMinimum as real then Cooldown
    else
      var block := CandidateBlock(p, l, miner, stamp);
      if Present(Tip(l).data.minerAddress) && Tip(l).data.minerAddress == Some(miner)
         && Gap(Tip(l), block) < 2.0 * p.blockTimeMinimum as real
      then ConsecutiveMiner
      else Built(block, Tip(l).hash)
  }

  function CandidateBlock(p: Params, l: Ledger, miner: string, stamp: real): Block
    requires l.chain != [] && ConfirmedBalances(p, l).Some?
  {
    var data := BlockData(Tip(l).data.index + 1, stamp, Select(p, ConfirmedBalances(p, l).value, l.pending),
                          Tip(l).hash, 0, Some(miner));
    Block(data, Digest(p, data), l.difficulty)
  }

  function DefaultKind(sender: Address, receiver: Address): string {
    if sender == SYSTEM && receiver == TREASURY then "treasury_reward"
    else if sender == SYSTEM then "mining_reward"
    else if sender == LENDING_POOL || receiver == LENDING_POOL then "lending"
    else if sender == TREASURY || receiver == TREASURY then "treasury"
    else "transfer"
  }

  function Mint(receiver: Address, amount: int, now: real): Tx
    requires Constructible(SYSTEM, receiver, amount)
  {
    TxData(SYSTEM, receiver, amount, now, None, None, DefaultKind(SYSTEM, receiver), DefaultKind(SYSTEM, receiver),
           "{}", None)
  }

  /** Whether both reward transactions can be constructed. They are constructed before the
      reward is tested for being positive (blockchain.py:354-366). */
  predicate Payable(reward: real, miner: Option<string>) {
    Present(miner) && MinerShare(reward) > 0 && TreasuryShare(reward) > 0
  }

  function RewardPair(reward: real, miner: string, now: real, later: real): seq<Tx>
    requires Payable(reward, Some(miner))
  {
    [Mint(miner, MinerShare(reward), now), Mint(TREASURY, TreasuryShare(reward), later)]
  }

  /** Unpaid: the block was appended, then constructing a reward transaction raised and the
      old pending pool stayed in place. */
  datatype FinalizeAnswer = Mined | Stale | NotAccepted | FinalizeFailed | Unpaid

  /** The tail of finalize_mined_block: replace the pool by the next reward pair. */
  function Pay(l: Ledger, b: Block, now: real, later: real): (Ledger, FinalizeAnswer) {
    var reward := CurrentReward(l);
    if !Payable(reward, b.data.minerAddress) then (l, Unpaid)
    else (l.(pending := if reward > 0.0 then RewardPair(reward, b.data.minerAddress.value, now, later) else []), Mined)
  }

  /** finalize_mined_block. */
  function Finalize(p: Params, l: Ledger, b: Block, expected: string, now: real, later: real): (Ledger, FinalizeAnswer)
    requires l.chain != []
  {
    FinalizeAs(p, l, AdmitAnswer(p, l, b), b, expected, now, later)
  }

  /** The same, given what add_block would answer. */
  function FinalizeAs(p: Params, l: Ledger, answer: Answer, b: Block, expected: string, now: real, later: real)
      : (Ledger, FinalizeAnswer)
    requires l.chain != []
  {
    if Tip(l).hash != expected then (l, Stale)
    else match answer
      case Rejected => (l, NotAccepted)
      case Failed => (l, FinalizeFailed)
      case Accepted => Pay(Append(p, l, b), b, now, later)
  }

  // -------------------------------------------------------------- pruning

  /** What is remembered of the first n blocks of the chain. */
  function SnapshotAt(chain: seq<Block>, pp: Option<PrunePoint>, n: nat): Snapshot
    requires 0 < n <= |chain|
  {
    var dropped := Txs(chain[..n]);
    Snapshot(chain[n - 1].data.index, chain[n - 1].hash, SeedIssued(pp) + Issued(dropped),
             NonZero(Settle(SeedBalances(pp), dropped)))
  }

  /** The prune point that replaces them. */
  function PointAt(p: Params, chain: seq<Block>, pp: Option<PrunePoint>, n: nat): PrunePoint
    requires 0 < n <= |chain|
  {
    PrunePoint(SnapshotAt(chain, pp, n), Commit(p, SnapshotAt(chain, pp, n)))
  }

  /** The ledger after its first n blocks have been replaced by a prune point. */
  function PrunedAt(p: Params, full: Ledger, n: nat): Ledger
    requires n < |full.chain|
  {
    if n == 0 then full
    else full.(chain := full.chain[n..], prunePoint := Some(PointAt(p, full.chain, full.prunePoint, n)))
  }

  /** prune_chain for keep >= 1. */
  function Prune(p: Params, l: Ledger, keep: nat): Ledger
    requires keep >= 1
  {
    if |l.chain| <= keep then l else PrunedAt(p, l, |l.chain| - keep)
  }

  // ------------------------------------------- admission keeps validity

  lemma LinksAppend(p: Params, chain: seq<Block>, b: Block, spacing: bool)
    requires chain != []
    ensures LinksValid(p, chain + [b], spacing) <==>
              LinksValid(p, chain, spacing) && LinkValid(p, chain[|chain| - 1], b, spacing)
  {
    var longer := chain + [b];
    if LinksValid(p, longer, spacing) {
      assert LinkAt(p, longer, |chain|, spacing);
      forall i | 0 < i < |chain| ensures LinkAt(p, chain, i, spacing) {
        assert LinkAt(p, longer, i, spacing);
      }
    }
    if LinksValid(p, chain, spacing) && LinkValid(p, chain[|chain| - 1], b, spacing) {
      forall i | 0 < i < |longer| ensures LinkAt(p, longer, i, spacing) {
        assert i < |chain| ==> LinkAt(p, chain, i, spacing);
      }
    }
  }

  /** A block that add_block accepts extends a valid chain to a valid chain, so a memoised
      "valid" may be carried over; with spacing on as well as off. */
  lemma AdmissionKeepsValidity(p: Params, l: Ledger, b: Block, spacing: bool)
    requires ChainValid(p, l.chain, l.prunePoint, spacing) && AdmitAnswer(p, l, b).Accepted?
    ensures ChainValid(p, l.chain + [b], l.prunePoint, spacing)
  {
    LinksAppend(p, l.chain, b, spacing);
    TxsAppend(l.chain, b);
    ApplyTxsConcat(p, SeedBalances(l.prunePoint), Txs(l.chain), b.data.transactions);
  }

  /** The converse, up to the two rules only admission has: re-validation misses nothing else. */
  lemma RevalidationImpliesAdmission(p: Params, l: Ledger, b: Block)
    requires l.chain != [] && ChainValid(p, l.chain + [b], l.prunePoint, true)
    requires b.data.index == Tip(l).data.index + 1 && Present(b.data.minerAddress)
    ensures AdmitAnswer(p, l, b).Accepted?
  {
    LinksAppend(p, l.chain, b, true);
    TxsAppend(l.chain, b);
    ApplyTxsConcat(p, SeedBalances(l.prunePoint), Txs(l.chain), b.data.transactions);
  }

  lemma SpacingIsStronger(p: Params, chain: seq<Block>, pp: Option<PrunePoint>)
    requires ChainValid(p, chain, pp, true)
    ensures ChainValid(p, chain, pp, false)
  {
    forall i | 0 < i < |chain| ensures LinkAt(p, chain, i, false) {
      assert LinkAt(p, chain, i, true);
    }
  }
}
