/** The lending pool (blockchain/lending.py): community-voted loans whose issuance and
    repayment are ordinary transactions on the chain. */
module Lending {
  import opened Protocol
  import opened Balances
  import opened Rewards
  import opened Ledgers
  import opened Voting
  import opened Indexing
  import opened IndexContents
  import opened Node

  const MAXIMUM_LOAN_AMOUNT: int := 10_000 * COIN
  const REPAYMENT_BLOCKS: int := 1_000

  datatype Status = PendingVote | Declined | ApprovedPendingIssue | Running | RepaymentPending | Repaid | Overdue

  datatype Loan = Loan(requester: Address, amount: int, repaymentAmount: int, dueBlock: int, status: Status,
                       votes: map<Address, Vote>, yesWeight: int, noWeight: int,
                       issuanceTxId: Option<string>, repaymentTxId: Option<string>)

  /** A transaction handed to the chain on behalf of a loan. */
  datatype Made = Issuance(loanId: string, tx: Tx) | Repayment(loanId: string, tx: Tx)

  /** `made` is everything ever handed to the chain, `reported` every transaction id the chain
      has reported as confirmed; the source keeps neither. */
  datatype State = State(loans: map<string, Loan>, made: seq<Made>, reported: set<string>)

  predicate IsOpen(s: Status) {
    !s.Declined? && !s.Repaid?
  }

  // ------------------------------------------------------------ transactions

  /** round(amount * 1.10, 8), in whole units. */
  function RepaymentFor(amount: int): int {
    RoundHalfEven(amount as real * 1.1)
  }

  function IssuanceTx(id: string, loan: Loan, now: real): Tx
    requires Constructible(LENDING_POOL, loan.requester, loan.amount)
  {
    TxData(LENDING_POOL, loan.requester, loan.amount, now, None, None, "loan_issuance", "lending", id, None)
  }

  function RepaymentTx(id: string, loan: Loan, now: real): Tx
    requires Constructible(loan.requester, LENDING_POOL, loan.repaymentAmount)
  {
    TxData(loan.requester, LENDING_POOL, loan.repaymentAmount, now, None, None, "loan_repayment", "lending", id, None)
  }

  /** The chain never refuses an issuance. */
  lemma IssuanceAccepted(p: Params, l: Ledger, id: string, loan: Loan, now: real)
    requires Constructible(LENDING_POOL, loan.requester, loan.amount)
    ensures Submit(p, l, IssuanceTx(id, loan, now)) ==
              (l.(pending := l.pending + [IssuanceTx(id, loan, now)]), Submitted)
  {}

  /** A repayment needs no signature: it is accepted exactly when the requester can spend it. */
  lemma RepaymentAcceptedExactly(p: Params, l: Ledger, id: string, loan: Loan, now: real)
    requires Constructible(loan.requester, LENDING_POOL, loan.repaymentAmount) && !IsSystem(loan.requester)
    requires ConfirmedBalances(p, l).Some?
    ensures SubmitAnswerOf(p, l, RepaymentTx(id, loan, now)).Submitted? <==>
              Get(ConfirmedBalances(p, l).value, loan.requester) - PendingSpend(l.pending, loan.requester)
              >= loan.repaymentAmount
  {}

  // -------------------------------------------------------------- operations

  function OpenLoansOf(loans: map<string, Loan>, requester: Address): set<string> {
    set id | id in loans && loans[id].requester == requester && IsOpen(loans[id].status)
  }

  datatype RequestAnswer = Requested | Malformed | AmountNotPositive | AmountTooLarge | AlreadyOpen

  function RequestAnswerOf(s: State, requester: Address, amount: int, reason: string): RequestAnswer {
    if requester == "" || reason == "" then Malformed
    else if amount <= 0 then AmountNotPositive
    else if amount > MAXIMUM_LOAN_AMOUNT then AmountTooLarge
    else if OpenLoansOf(s.loans, requester) != {} then AlreadyOpen
    else Requested
  }

  function NewLoan(requester: Address, amount: int, height: int): Loan {
    Loan(requester, amount, RepaymentFor(amount), height + REPAYMENT_BLOCKS, PendingVote, map[], 0, 0, None, None)
  }

  /** create_loan_request; `id` is the digest the loan is filed under. */
  function Request(s: State, id: string, requester: Address, amount: int, reason: string, height: int)
      : (State, RequestAnswer) {
    var answer := RequestAnswerOf(s, requester, amount, reason);
    (if answer.Requested? then s.(loans := s.loans[id := NewLoan(requester, amount, height)]) else s, answer)
  }

  datatype VoteAnswer = Voted | NoSuchLoan | NotOpen | BadVote | AlreadyVoted | NoBalance

  function VoteAnswerOf(s: State, id: string, voter: Address, yes: Option<bool>, weight: int): VoteAnswer {
    if id !in s.loans then NoSuchLoan
    else if !s.loans[id].status.PendingVote? then NotOpen
    else if yes.None? then BadVote
    else if voter in s.loans[id].votes then AlreadyVoted
    else if weight <= 0 then NoBalance
    else Voted
  }

  function WithVote(q: Loan, voter: Address, yes: bool, weight: int): Loan {
    q.(votes := q.votes[voter := Vote(yes, weight)],
       yesWeight := if yes then q.yesWeight + weight else q.yesWeight,
       noWeight := if yes then q.noWeight else q.noWeight + weight)
  }

  /** What check_loan_outcome makes of a loan, and the transaction it hands to the chain, if any. */
  function Decided(p: Params, id: string, q: Loan, threshold: int, now: real): (Loan, seq<Made>)
    requires Constructible(LENDING_POOL, q.requester, q.amount)
  {
    if !q.status.PendingVote? || q.yesWeight + q.noWeight < threshold then (q, [])
    else if q.yesWeight > q.noWeight then
      var t := IssuanceTx(id, q, now);
      (q.(status := ApprovedPendingIssue, issuanceTxId := Some(TxId(p, t))), [Issuance(id, t)])
    else if q.noWeight > q.yesWeight then (q.(status := Declined), [])
    else (q, [])
  }

  /** vote_on_loan. */
  function CastVote(p: Params, s: State, id: string, voter: Address, yes: Option<bool>, weight: int, threshold: int,
                    now: real): (State, VoteAnswer)
    requires Sound(s)
  {
    var answer := VoteAnswerOf(s, id, voter, yes, weight);
    if !answer.Voted? then (s, answer)
    else
      assert Borrowable(s.loans[id]);
      var (q, made) := Decided(p, id, WithVote(s.loans[id], voter, yes.value, weight), threshold, now);
      (s.(loans := s.loans[id := q], made := s.made + made), answer)
  }

  function TopOf(chain: seq<Block>): int {
    if chain == [] then -1 else chain[|chain| - 1].data.index
  }

  function PutTxs(p: Params, m: map<string, int>, ts: seq<Tx>, index: int): map<string, int>
    decreases |ts|
  {
    if ts == [] then m else PutTxs(p, m[TxId(p, ts[0]) := index], ts[1..], index)
  }

  /** Which transaction ids the chain confirms, and in the block of which index. */
  function ConfirmedIn(p: Params, chain: seq<Block>): map<string, int> {
    if chain == [] then map[]
    else
      var last := chain[|chain| - 1];
      PutTxs(p, ConfirmedIn(p, chain[..|chain| - 1]), last.data.transactions, last.data.index)
  }

  /** The node as a status sync finds it. */
  datatype View = View(chain: seq<Block>, pool: seq<Tx>, indexed: bool)

  function PoolIds(p: Params, pool: seq<Tx>): set<string> {
    set i | 0 <= i < |pool| :: TxId(p, pool[i])
  }

  /** What get_transaction_detail reports as confirmed: an index prefers the confirmed record of an
      id that is also pending, the scan that stands in for it the pending one. */
  function Shown(p: Params, v: View): map<string, int> {
    if v.indexed then ConfirmedIn(p, v.chain) else ConfirmedIn(p, v.chain) - PoolIds(p, v.pool)
  }

  lemma {:induction false} PutTxsAt(p: Params, m: map<string, int>, ts: seq<Tx>, index: int, id: string)
    ensures id in PutTxs(p, m, ts, index) <==> id in m || Knows(p, ts, id)
    decreases |ts|
  {
    if ts != [] {
      PutTxsAt(p, m[TxId(p, ts[0]) := index], ts[1..], index, id);
      KnowsConcat(p, [ts[0]], ts[1..], id);
      assert ts == [ts[0]] + ts[1..];
      assert Knows(p, [ts[0]], id) <==> TxId(p, [ts[0]][0]) == id;
    }
  }

  lemma {:induction false} ConfirmedIsInChain(p: Params, chain: seq<Block>, id: string)
    ensures id in ConfirmedIn(p, chain) <==> Knows(p, Txs(chain), id)
    decreases |chain|
  {
    if chain != [] {
      var init, last := chain[..|chain| - 1], chain[|chain| - 1];
      assert init + [last] == chain;
      TxsAppend(init, last);
      ConfirmedIsInChain(p, init, id);
      PutTxsAt(p, ConfirmedIn(p, init), last.data.transactions, last.data.index, id);
      KnowsConcat(p, Txs(init), last.data.transactions, id);
    }
  }

  /** A transaction counts as confirmed in the last block of the chain that has its id. */
  lemma {:induction false} PutTxsIndex(p: Params, m: map<string, int>, ts: seq<Tx>, index: int, id: string)
    ensures var r := PutTxs(p, m, ts, index);
            if NoneBears(p, ts, id) then (id in r <==> id in m) && (id in m ==> r[id] == m[id])
            else id in r && r[id] == index
    decreases |ts|
  {
    if ts != [] {
      PutTxsIndex(p, m[TxId(p, ts[0]) := index], ts[1..], index, id);
      if NoneBears(p, ts[1..], id) && !Bears(p, ts[0], id) {
        forall k | 0 <= k < |ts| ensures !Bears(p, ts[k], id) {
          assert k > 0 ==> ts[k] == ts[1..][k - 1];
        }
      }
      if NoneBears(p, ts, id) {
        assert !Bears(p, ts[0], id);
        forall k | 0 <= k < |ts| - 1 ensures !Bears(p, ts[1..][k], id) {
          assert ts[1..][k] == ts[k + 1];
        }
      }
    }
  }

  lemma {:induction false} ConfirmedFinds(p: Params, chain: seq<Block>, id: string)
    ensures match Last(chain, HasId(p, id))
            case Some(b) => id in ConfirmedIn(p, chain) && ConfirmedIn(p, chain)[id] == b.data.index
            case None => id !in ConfirmedIn(p, chain)
    decreases |chain|
  {
    if chain != [] {
      var init, b := chain[..|chain| - 1], chain[|chain| - 1];
      ConfirmedFinds(p, init, id);
      PutTxsIndex(p, ConfirmedIn(p, init), b.data.transactions, b.data.index, id);
      LastWithIdIs(p, b.data.transactions, id);
    }
  }

  /** What a sync is shown: each confirmed id with its last block's index, but without an index not those
      that are also pending. */
  lemma ShownExactly(p: Params, v: View, id: string)
    ensures id in Shown(p, v) <==> !Unused(p, v.chain, id) && (v.indexed || NoneBears(p, v.pool, id))
    ensures forall i: nat, j: nat :: LastInChain(p, v.chain, i, j, id) && id in Shown(p, v) ==>
              Shown(p, v)[id] == v.chain[i].data.index
    ensures v.chain != [] ==> TopOf(v.chain) == v.chain[|v.chain| - 1].data.index
  {
    ConfirmedFinds(p, v.chain, id);
    BearersAgree(p, v.chain, id);
    LastIsLast(v.chain, HasId(p, id));
    forall i: nat, j: nat | LastInChain(p, v.chain, i, j, id) ensures Last(v.chain, HasId(p, id)) == Some(v.chain[i]) {
      LastInChainIsLast(p, v.chain, i, j, id);
    }
    assert id in PoolIds(p, v.pool) <==> !NoneBears(p, v.pool, id) by {
      forall k | 0 <= k < |v.pool| ensures Bears(p, v.pool[k], id) <==> TxId(p, v.pool[k]) == id {}
    }
  }

  /** What sync_loan_statuses does to one loan; `confirmed` gives the block index of each
      transaction the chain reports as confirmed. */
  function Synced(q: Loan, height: int, confirmed: map<string, int>): Loan {
    Late(Settled(Started(q, height, confirmed), confirmed), height)
  }

  function Started(q: Loan, height: int, confirmed: map<string, int>): Loan {
    if q.status.ApprovedPendingIssue? && q.issuanceTxId.Some? && q.issuanceTxId.value in confirmed
    then
      var block := confirmed[q.issuanceTxId.value];
      q.(status := Running, dueBlock := (if block != 0 then block else height) + REPAYMENT_BLOCKS)
    else q
  }

  function Settled(q: Loan, confirmed: map<string, int>): Loan {
    if (q.status.RepaymentPending? || q.status.Overdue?) && q.repaymentTxId.Some? && q.repaymentTxId.value in confirmed
    then q.(status := Repaid)
    else q
  }

  function Late(q: Loan, height: int): Loan {
    if (q.status.Running? || q.status.RepaymentPending?) && height > q.dueBlock then q.(status := Overdue) else q
  }

  function SyncedAll(loans: map<string, Loan>, height: int, confirmed: map<string, int>): map<string, Loan> {
    map id | id in loans :: Synced(loans[id], height, confirmed)
  }

  /** sync_loan_statuses. */
  function Sync(s: State, height: int, confirmed: map<string, int>): State {
    s.(loans := SyncedAll(s.loans, height, confirmed), reported := s.reported + confirmed.Keys)
  }

  datatype RepayAnswer = Repaying | NoLoan | NotRunning | AlreadyRepaying | NotTheRequester | Refused

  /** Which repay_loan check fails, after the sync; Repaying when only the chain is left to ask. */
  function RepayAnswerOf(s: State, id: string, repayer: Address): RepayAnswer {
    if id !in s.loans then NoLoan
    else
      var q := s.loans[id];
      if !q.status.Running? && !q.status.Overdue? then NotRunning
      else if q.repaymentTxId.Some? then AlreadyRepaying
      else if repayer != q.requester then NotTheRequester
      else Repaying
  }

  function BeingRepaid(p: Params, id: string, q: Loan, now: real): Loan
    requires Borrowable(q)
  {
    q.(status := RepaymentPending, repaymentTxId := Some(TxId(p, RepaymentTx(id, q, now))))
  }

  /** repay_loan, given whether the chain accepts the repayment transaction. */
  function Repay(p: Params, s: State, id: string, repayer: Address, now: real, height: int, confirmed: map<string, int>,
                 accepted: bool)
    : (State, RepayAnswer)
    requires Sound(s)
  {
    if id !in s.loans then (s, NoLoan)
    else
      SyncSound(s, height, confirmed);
      RepaySynced(p, Sync(s, height, confirmed), id, repayer, now, accepted)
  }

  /** The same, after its sync. */
  function RepaySynced(p: Params, s: State, id: string, repayer: Address, now: real, accepted: bool)
      : (State, RepayAnswer)
    requires Sound(s)
  {
    var answer := RepayAnswerOf(s, id, repayer);
    if !answer.Repaying? then (s, answer)
    else if !accepted then (s, Refused)
    else
      var q := s.loans[id];
      assert Borrowable(q);
      (s.(loans := s.loans[id := BeingRepaid(p, id, q, now)],
          made := s.made + [Repayment(id, RepaymentTx(id, q, now))]), answer)
  }

  // --------------------------------------------------------------- invariant

  predicate Borrowable(q: Loan) {
    && q.requester != ""
    && 0 < q.amount <= MAXIMUM_LOAN_AMOUNT
    && q.repaymentAmount == RepaymentFor(q.amount)
    && q.repaymentAmount > 0
  }

  predicate Sound(s: State) {
    forall id :: id in s.loans ==> Borrowable(s.loans[id])
  }

  lemma SyncSound(s: State, height: int, confirmed: map<string, int>)
    requires Sound(s)
    ensures Sound(Sync(s, height, confirmed))
  {}

  /** Interest rounds to the nearest unit: within half a unit of a tenth. */
  lemma RepaymentNear(amount: int)
    requires amount > 0
    ensures -5 <= 10 * RepaymentFor(amount) - 11 * amount <= 5
    ensures RepaymentFor(amount) >= amount
  {}

  /** Where a loan stands says what has been made and confirmed for it. */
  predicate Consistent(q: Loan, reported: set<string>) {
    match q.status
    case PendingVote => q.issuanceTxId.None? && q.repaymentTxId.None?
    case Declined => q.issuanceTxId.None? && q.repaymentTxId.None?
    case ApprovedPendingIssue => q.issuanceTxId.Some? && q.repaymentTxId.None?
    case Running => Confirmed(q.issuanceTxId, reported) && q.repaymentTxId.None?
    case RepaymentPending => Confirmed(q.issuanceTxId, reported) && q.repaymentTxId.Some?
    case Overdue => Confirmed(q.issuanceTxId, reported)
    case Repaid => Confirmed(q.issuanceTxId, reported) && Confirmed(q.repaymentTxId, reported)
  }

  predicate Confirmed(id: Option<string>, reported: set<string>) {
    id.Some? && id.value in reported
  }

  /** A loan still up for vote is short of the threshold, or tied. */
  predicate Undecided(q: Loan, threshold: int) {
    q.status.PendingVote? ==> q.votes == map[] || q.yesWeight + q.noWeight < threshold || q.yesWeight == q.noWeight
  }

  ghost predicate LoanOk(q: Loan, threshold: int, reported: set<string>) {
    && Borrowable(q)
    && Consistent(q, reported)
    && Undecided(q, threshold)
    && Sums(q.votes, q.yesWeight, q.noWeight)
  }

  /** How many issuances, or repayments, have been made for a loan. */
  function Count(made: seq<Made>, id: string, repays: bool): nat {
    if made == [] then 0
    else
      var last := made[|made| - 1];
      (if last.loanId == id && last.Repayment? == repays then 1 else 0) + Count(made[..|made| - 1], id, repays)
  }

  /** What has been made for a loan is what the loan records. */
  predicate MadeOnce(s: State, id: string) {
    && Count(s.made, id, false) == (if id in s.loans && s.loans[id].issuanceTxId.Some? then 1 else 0)
    && Count(s.made, id, true) == (if id in s.loans && s.loans[id].repaymentTxId.Some? then 1 else 0)
  }

  /** An unsigned payment on behalf of a loan. */
  predicate Pays(t: Tx, sender: Address, receiver: Address, amount: int) {
    && t.sender == sender && t.receiver == receiver && t.amount == amount
    && t.signature == None && t.category == "lending"
  }

  /** The transaction is the loan's own, and the loan records its id. */
  predicate MadeFor(p: Params, q: Loan, m: Made) {
    && Borrowable(q)
    && match m
       case Issuance(id, t) =>
         && Pays(t, "LENDING_POOL", q.requester, q.amount) && t.kind == "loan_issuance" && t.metadata == id
         && q.issuanceTxId == Some(TxId(p, t))
       case Repayment(id, t) =>
         && Pays(t, q.requester, "LENDING_POOL", q.repaymentAmount) && t.kind == "loan_repayment" && t.metadata == id
         && q.repaymentTxId == Some(TxId(p, t))
  }

  predicate MadeIsRecorded(p: Params, loans: map<string, Loan>, m: Made) {
    m.loanId in loans && MadeFor(p, loans[m.loanId], m)
  }

  predicate AllRecorded(p: Params, s: State) {
    forall k :: 0 <= k < |s.made| ==> MadeIsRecorded(p, s.loans, s.made[k])
  }

  predicate OneOpen(s: State, i: string, j: string) {
    i in s.loans && j in s.loans && i != j && s.loans[i].requester == s.loans[j].requester ==>
      !(IsOpen(s.loans[i].status) && IsOpen(s.loans[j].status))
  }

  ghost predicate Inv(p: Params, s: State, threshold: int) {
    && (forall id :: id in s.loans ==> LoanOk(s.loans[id], threshold, s.reported))
    && (forall id :: MadeOnce(s, id))
    && AllRecorded(p, s)
    && (forall i, j :: OneOpen(s, i, j))
  }

  lemma InvIsSound(p: Params, s: State, threshold: int)
    requires Inv(p, s, threshold)
    ensures Sound(s)
  {}

  lemma {:induction false} CountAppend(made: seq<Made>, x: Made, id: string, repays: bool)
    ensures Count(made + [x], id, repays) ==
              Count(made, id, repays) + (if x.loanId == id && x.Repayment? == repays then 1 else 0)
  {}

  /** The later stage records at most one more transaction, and that one is made now. */
  predicate Records(before: Loan, after: Loan, id: string, made: seq<Made>) {
    if after.issuanceTxId.Some? && before.issuanceTxId.None?
    then |made| == 1 && made[0].Issuance? && made[0].loanId == id && after.repaymentTxId == before.repaymentTxId
    else if after.repaymentTxId.Some? && before.repaymentTxId.None?
    then |made| == 1 && made[0].Repayment? && made[0].loanId == id && after.issuanceTxId == before.issuanceTxId
    else made == [] && after.repaymentTxId == before.repaymentTxId && after.issuanceTxId == before.issuanceTxId
  }

  /** The terms that a loan's transactions are made from. */
  predicate SameTerms(before: Loan, after: Loan) {
    after.requester == before.requester && after.amount == before.amount
    && after.repaymentAmount == before.repaymentAmount
  }

  lemma AdvanceKeepsMade(s: State, t: State, id: string, q: Loan, made: seq<Made>, k: string)
    requires MadeOnce(s, k) && id in s.loans && Records(s.loans[id], q, id, made)
    requires t == s.(loans := s.loans[id := q], made := s.made + made)
    ensures MadeOnce(t, k)
  {
    if made == [] {
      assert t.made == s.made;
    } else {
      assert made == [made[0]];
      CountAppend(s.made, made[0], k, false);
      CountAppend(s.made, made[0], k, true);
    }
  }

  lemma AdvanceKeepsRecorded(p: Params, s: State, t: State, id: string, q: Loan, made: seq<Made>)
    requires AllRecorded(p, s) && id in s.loans && Records(s.loans[id], q, id, made)
    requires t == s.(loans := s.loans[id := q], made := s.made + made)
    requires Borrowable(q) && SameTerms(s.loans[id], q) && forall m :: m in made ==> MadeFor(p, q, m)
    ensures AllRecorded(p, t)
  {
    forall k | 0 <= k < |t.made| ensures MadeIsRecorded(p, t.loans, t.made[k]) {
      if k < |s.made| {
        assert MadeIsRecorded(p, s.loans, s.made[k]);
      } else {
        assert t.made[k] == made[k - |s.made|];
      }
    }
  }

  lemma AdvanceKeepsOneOpen(s: State, t: State, id: string, q: Loan, i: string, j: string)
    requires OneOpen(s, i, j) && id in s.loans && t.loans == s.loans[id := q]
    requires q.requester == s.loans[id].requester && (IsOpen(q.status) ==> IsOpen(s.loans[id].status))
    ensures OneOpen(t, i, j)
  {}

  /** Replacing one loan by a later stage of itself, making at most what it newly records. */
  lemma AdvanceKeepsInv(p: Params, s: State, t: State, id: string, q: Loan, made: seq<Made>, threshold: int)
    requires Inv(p, s, threshold) && id in s.loans && LoanOk(q, threshold, s.reported)
    requires t == s.(loans := s.loans[id := q], made := s.made + made) && Records(s.loans[id], q, id, made)
    requires SameTerms(s.loans[id], q) && (IsOpen(q.status) ==> IsOpen(s.loans[id].status))
    requires forall m :: m in made ==> MadeFor(p, q, m)
    ensures Inv(p, t, threshold)
  {
    AdvanceKeepsRecorded(p, s, t, id, q, made);
    forall k ensures MadeOnce(t, k) {
      AdvanceKeepsMade(s, t, id, q, made, k);
    }
    forall i, j ensures OneOpen(t, i, j) {
      AdvanceKeepsOneOpen(s, t, id, q, i, j);
    }
  }

  // ------------------------------------------------------------------- steps

  datatype Event =
    | Apply(id: string, requester: Address, amount: int, reason: string, height: int)
    | Ballot(id: string, voter: Address, yes: Option<bool>, weight: int, now: real)
    | Update(view: View)
    | PayBack(id: string, repayer: Address, now: real, view: View, accepted: bool)

  function Step(p: Params, threshold: int, s: State, e: Event): State
    requires Sound(s)
  {
    match e
    case Apply(id, requester, amount, reason, height) => Request(s, id, requester, amount, reason, height).0
    case Ballot(id, voter, yes, weight, now) => CastVote(p, s, id, voter, yes, weight, threshold, now).0
    case Update(view) => Sync(s, TopOf(view.chain), Shown(p, view))
    case PayBack(id, repayer, now, view, accepted) =>
      Repay(p, s, id, repayer, now, TopOf(view.chain), Shown(p, view), accepted).0
  }

  /** Loans are filed under digests that have not occurred before. */
  predicate FreshId(s: State, e: Event) {
    e.Apply? ==> e.id !in s.loans
  }

  lemma ApplyKeepsOneOpen(s: State, id: string, q: Loan, i: string, j: string)
    requires OneOpen(s, i, j) && id !in s.loans && OpenLoansOf(s.loans, q.requester) == {}
    ensures OneOpen(s.(loans := s.loans[id := q]), i, j)
  {
    assert i !in OpenLoansOf(s.loans, q.requester) && j !in OpenLoansOf(s.loans, q.requester);
  }

  lemma ApplyKeepsRecorded(p: Params, s: State, id: string, q: Loan)
    requires AllRecorded(p, s) && id !in s.loans
    ensures AllRecorded(p, s.(loans := s.loans[id := q]))
  {
    var t := s.(loans := s.loans[id := q]);
    forall k | 0 <= k < |t.made| ensures MadeIsRecorded(p, t.loans, t.made[k]) {
      assert MadeIsRecorded(p, s.loans, s.made[k]);
    }
  }

  lemma ApplyKeepsInv(p: Params, s: State, e: Event, threshold: int)
    requires Inv(p, s, threshold) && e.Apply? && FreshId(s, e)
    ensures Inv(p, Request(s, e.id, e.requester, e.amount, e.reason, e.height).0, threshold)
  {
    if RequestAnswerOf(s, e.requester, e.amount, e.reason).Requested? {
      var q := NewLoan(e.requester, e.amount, e.height);
      RepaymentNear(e.amount);
      NoVotesSum();
      var t := s.(loans := s.loans[e.id := q]);
      ApplyKeepsRecorded(p, s, e.id, q);
      forall k ensures MadeOnce(t, k) {
        assert MadeOnce(s, k);
      }
      forall i, j ensures OneOpen(t, i, j) {
        ApplyKeepsOneOpen(s, e.id, q, i, j);
      }
    }
  }

  lemma DecidedRecords(p: Params, id: string, before: Loan, q: Loan, threshold: int, now: real)
    requires Borrowable(q) && q.status.PendingVote? && before.status.PendingVote? && SameTerms(before, q)
    requires before.issuanceTxId.None? && before.repaymentTxId == q.repaymentTxId && q.issuanceTxId.None?
    ensures var (decided, made) := Decided(p, id, q, threshold, now);
            && Records(before, decided, id, made) && SameTerms(before, decided)
            && forall m :: m in made ==> MadeFor(p, decided, m)
  {}

  lemma DecidedOk(p: Params, id: string, q: Loan, threshold: int, now: real, reported: set<string>)
    requires Borrowable(q) && Consistent(q, reported) && q.status.PendingVote? && Sums(q.votes, q.yesWeight, q.noWeight)
    ensures LoanOk(Decided(p, id, q, threshold, now).0, threshold, reported)
  {}

  /** A vote decides a loan exactly when the weight reaches the threshold and one side outweighs
      the other, counting the recorded votes. */
  lemma DecidedExactly(p: Params, id: string, q: Loan, threshold: int, now: real)
    requires Borrowable(q) && q.status.PendingVote? && Sums(q.votes, q.yesWeight, q.noWeight)
    ensures var yes, no := Total(Weights(q.votes, true)), Total(Weights(q.votes, false));
            && (Decided(p, id, q, threshold, now).0.status.ApprovedPendingIssue? <==> yes + no >= threshold && yes > no)
            && (Decided(p, id, q, threshold, now).0.status.Declined? <==> yes + no >= threshold && no > yes)
            && (Decided(p, id, q, threshold, now).1 == [Issuance(id, IssuanceTx(id, q, now))] <==>
                yes + no >= threshold && yes > no)
  {}

  lemma BallotKeepsInv(p: Params, s: State, e: Event, threshold: int)
    requires Inv(p, s, threshold) && Sound(s) && e.Ballot?
    ensures Inv(p, CastVote(p, s, e.id, e.voter, e.yes, e.weight, threshold, e.now).0, threshold)
  {
    if VoteAnswerOf(s, e.id, e.voter, e.yes, e.weight).Voted? {
      var before := s.loans[e.id];
      var q := WithVote(before, e.voter, e.yes.value, e.weight);
      assert LoanOk(before, threshold, s.reported);
      VoteKeepsSums(before.votes, before.yesWeight, before.noWeight, e.voter, Vote(e.yes.value, e.weight));
      DecidedOk(p, e.id, q, threshold, e.now, s.reported);
      DecidedRecords(p, e.id, before, q, threshold, e.now);
      var (decided, made) := Decided(p, e.id, q, threshold, e.now);
      var t := s.(loans := s.loans[e.id := decided], made := s.made + made);
      AdvanceKeepsInv(p, s, t, e.id, decided, made, threshold);
    }
  }

  lemma SyncedOk(q: Loan, height: int, confirmed: map<string, int>, threshold: int, reported: set<string>)
    requires LoanOk(q, threshold, reported)
    ensures LoanOk(Synced(q, height, confirmed), threshold, reported + confirmed.Keys)
  {}

  /** A loan runs from the block its issuance was confirmed in, and is overdue exactly when the
      chain is more than a thousand blocks further. */
  lemma OverdueExactly(q: Loan, height: int, confirmed: map<string, int>, block: int)
    requires q.status.ApprovedPendingIssue? && q.issuanceTxId.Some? && q.issuanceTxId.value in confirmed
             && q.repaymentTxId.None?
    requires confirmed[q.issuanceTxId.value] == block != 0
    ensures var r := Synced(q, height, confirmed);
            r == q.(status := r.status, dueBlock := block + 1000)
                && r.status == if height - block > 1000 then Overdue else Running
  {}

  lemma SyncedFrame(q: Loan, height: int, confirmed: map<string, int>)
    ensures var r := Synced(q, height, confirmed);
            && SameTerms(q, r) && r.issuanceTxId == q.issuanceTxId && r.repaymentTxId == q.repaymentTxId
            && (IsOpen(r.status) ==> IsOpen(q.status))
            && (!IsOpen(q.status) ==> r == q)
  {}

  lemma UpdateKeepsMade(s: State, height: int, confirmed: map<string, int>, k: string)
    requires MadeOnce(s, k)
    ensures MadeOnce(Sync(s, height, confirmed), k)
  {}

  lemma UpdateKeepsOneOpen(s: State, height: int, confirmed: map<string, int>, i: string, j: string)
    requires OneOpen(s, i, j)
    ensures OneOpen(Sync(s, height, confirmed), i, j)
  {}

  lemma UpdateKeepsRecorded(p: Params, s: State, height: int, confirmed: map<string, int>)
    requires AllRecorded(p, s)
    ensures AllRecorded(p, Sync(s, height, confirmed))
  {
    var t := Sync(s, height, confirmed);
    forall k | 0 <= k < |t.made| ensures MadeIsRecorded(p, t.loans, t.made[k]) {
      assert MadeIsRecorded(p, s.loans, s.made[k]);
      SyncedFrame(s.loans[s.made[k].loanId], height, confirmed);
    }
  }

  lemma UpdateKeepsInv(p: Params, s: State, height: int, confirmed: map<string, int>, threshold: int)
    requires Inv(p, s, threshold)
    ensures Inv(p, Sync(s, height, confirmed), threshold)
  {
    var t := Sync(s, height, confirmed);
    UpdateKeepsRecorded(p, s, height, confirmed);
    forall id | id in s.loans ensures LoanOk(t.loans[id], threshold, t.reported) {
      SyncedOk(s.loans[id], height, confirmed, threshold, s.reported);
    }
    forall k ensures MadeOnce(t, k) {
      UpdateKeepsMade(s, height, confirmed, k);
    }
    forall i, j ensures OneOpen(t, i, j) {
      UpdateKeepsOneOpen(s, height, confirmed, i, j);
    }
  }

  lemma RepaySyncedKeepsInv(p: Params, s: State, id: string, repayer: Address, now: real, accepted: bool,
                            threshold: int)
    requires Inv(p, s, threshold) && Sound(s)
    ensures Inv(p, RepaySynced(p, s, id, repayer, now, accepted).0, threshold)
  {
    if RepayAnswerOf(s, id, repayer).Repaying? && accepted {
      assert LoanOk(s.loans[id], threshold, s.reported);
      var t := RepaySynced(p, s, id, repayer, now, accepted).0;
      AdvanceKeepsInv(p, s, t, id, t.loans[id], [Repayment(id, RepaymentTx(id, s.loans[id], now))], threshold);
    }
  }

  lemma PayBackKeepsInv(p: Params, s: State, e: Event, threshold: int)
    requires Inv(p, s, threshold) && Sound(s) && e.PayBack?
    ensures Inv(p, Repay(p, s, e.id, e.repayer, e.now, TopOf(e.view.chain), Shown(p, e.view), e.accepted).0, threshold)
  {
    if e.id in s.loans {
      var height, confirmed := TopOf(e.view.chain), Shown(p, e.view);
      SyncSound(s, height, confirmed);
      UpdateKeepsInv(p, s, height, confirmed, threshold);
      RepaySyncedKeepsInv(p, Sync(s, height, confirmed), e.id, e.repayer, e.now, e.accepted, threshold);
    }
  }

  lemma StepKeepsInv(p: Params, s: State, e: Event, threshold: int)
    requires Inv(p, s, threshold) && FreshId(s, e)
    ensures Sound(s) && Inv(p, Step(p, threshold, s, e), threshold) && Sound(Step(p, threshold, s, e))
  {
    InvIsSound(p, s, threshold);
    match e
    case Apply(_, _, _, _, _) => ApplyKeepsInv(p, s, e, threshold);
    case Ballot(_, _, _, _, _) => BallotKeepsInv(p, s, e, threshold);
    case Update(view) => UpdateKeepsInv(p, s, TopOf(view.chain), Shown(p, view), threshold);
    case PayBack(_, _, _, _, _) => PayBackKeepsInv(p, s, e, threshold);
    InvIsSound(p, Step(p, threshold, s, e), threshold);
  }

  /** A declined or repaid loan is never touched again. */
  lemma ClosedStaysClosed(p: Params, s: State, e: Event, threshold: int, id: string)
    requires Sound(s) && FreshId(s, e) && id in s.loans && !IsOpen(s.loans[id].status)
    ensures id in Step(p, threshold, s, e).loans && Step(p, threshold, s, e).loans[id] == s.loans[id]
  {
    if e.Update? || e.PayBack? {
      SyncedFrame(s.loans[id], TopOf(e.view.chain), Shown(p, e.view));
    }
  }

  // -------------------------------------------------------------------- runs

  predicate Runs(p: Params, threshold: int, s: State, events: seq<Event>)
    requires Sound(s)
    decreases |events|
  {
    events == [] ||
    (FreshId(s, events[0]) && Sound(Step(p, threshold, s, events[0]))
     && Runs(p, threshold, Step(p, threshold, s, events[0]), events[1..]))
  }

  function After(p: Params, threshold: int, s: State, events: seq<Event>): State
    requires Sound(s) && Runs(p, threshold, s, events)
    decreases |events|
  {
    if events == [] then s else After(p, threshold, Step(p, threshold, s, events[0]), events[1..])
  }

  lemma {:induction false} RunKeepsInv(p: Params, threshold: int, s: State, events: seq<Event>)
    requires Inv(p, s, threshold) && Sound(s) && Runs(p, threshold, s, events)
    ensures Inv(p, After(p, threshold, s, events), threshold)
    decreases |events|
  {
    if events != [] {
      StepKeepsInv(p, s, events[0], threshold);
      RunKeepsInv(p, threshold, Step(p, threshold, s, events[0]), events[1..]);
    }
  }

  lemma {:induction false} ClosedForEver(p: Params, threshold: int, s: State, events: seq<Event>, id: string)
    requires Sound(s) && Runs(p, threshold, s, events) && id in s.loans && !IsOpen(s.loans[id].status)
    ensures id in After(p, threshold, s, events).loans && After(p, threshold, s, events).loans[id] == s.loans[id]
    decreases |events|
  {
    if events != [] {
      ClosedStaysClosed(p, s, events[0], threshold, id);
      ClosedForEver(p, threshold, Step(p, threshold, s, events[0]), events[1..], id);
    }
  }

  const NONE: State := State(map[], [], {})

  /** A chain that the node held at this event has the transaction. */
  predicate Holds(e: Event, t: Tx) {
    (e.Update? || e.PayBack?) && t in Txs(e.view.chain)
  }

  /** A transaction with this id was in a chain that the node held at one of these events. */
  ghost predicate InSomeChain(p: Params, events: seq<Event>, id: string) {
    exists k, t :: 0 <= k < |events| && Holds(events[k], t) && TxId(p, t) == id
  }

  lemma StepReports(p: Params, threshold: int, s: State, e: Event, id: string)
    requires Sound(s) && id in Step(p, threshold, s, e).reported
    ensures id in s.reported || exists t :: Holds(e, t) && TxId(p, t) == id
  {
    if id !in s.reported {
      ConfirmedIsInChain(p, e.view.chain, id);
      var i :| 0 <= i < |Txs(e.view.chain)| && TxId(p, Txs(e.view.chain)[i]) == id;
      assert Holds(e, Txs(e.view.chain)[i]);
    }
  }

  lemma {:induction false} ReportedIsInChain(p: Params, threshold: int, s: State, events: seq<Event>, id: string)
    requires Sound(s) && Runs(p, threshold, s, events) && id in After(p, threshold, s, events).reported
    ensures id in s.reported || InSomeChain(p, events, id)
    decreases |events|
  {
    if events != [] {
      var next, rest := Step(p, threshold, s, events[0]), events[1..];
      ReportedIsInChain(p, threshold, next, rest, id);
      if id in next.reported {
        StepReports(p, threshold, s, events[0], id);
      } else {
        var k, t :| 0 <= k < |rest| && Holds(rest[k], t) && TxId(p, t) == id;
        assert Holds(events[k + 1], t);
      }
    }
  }

  /** The transaction itself was in a chain of the node, or a different one there bore its id. */
  ghost predicate Landed(p: Params, events: seq<Event>, t: Tx) {
    || (exists k :: 0 <= k < |events| && Holds(events[k], t))
    || (exists k, u :: 0 <= k < |events| && Holds(events[k], u) && u != t && TxId(p, u) == TxId(p, t))
  }

  /** The one issuance, or the one repayment, made for the loan was made on its terms and landed. */
  ghost predicate MadeAndLanded(p: Params, s: State, events: seq<Event>, id: string, repays: bool)
    requires id in s.loans
  {
    && Count(s.made, id, repays) == 1
    && exists k :: 0 <= k < |s.made| && s.made[k].loanId == id && s.made[k].Repayment? == repays
                   && MadeFor(p, s.loans[id], s.made[k]) && Landed(p, events, s.made[k].tx)
  }

  lemma {:induction false} CountedIsThere(made: seq<Made>, id: string, repays: bool) returns (k: nat)
    requires Count(made, id, repays) > 0
    ensures k < |made| && made[k].loanId == id && made[k].Repayment? == repays
    decreases |made|
  {
    k := |made| - 1;
    if !(made[k].loanId == id && made[k].Repayment? == repays) {
      k := CountedIsThere(made[..k], id, repays);
    }
  }

  /** What the loan says is confirmed has landed. */
  lemma {:induction false} ConfirmedHasLanded(p: Params, threshold: int, events: seq<Event>, s: State, id: string,
                                              repays: bool)
    requires Sound(NONE) && Runs(p, threshold, NONE, events) && s == After(p, threshold, NONE, events)
    requires Inv(p, s, threshold) && id in s.loans
    requires Confirmed(if repays then s.loans[id].repaymentTxId else s.loans[id].issuanceTxId, s.reported)
    ensures MadeAndLanded(p, s, events, id, repays)
  {
    assert MadeOnce(s, id);
    var k := CountedIsThere(s.made, id, repays);
    assert MadeIsRecorded(p, s.loans, s.made[k]);
    ReportedIsInChain(p, threshold, NONE, events, TxId(p, s.made[k].tx));
  }

  /** Over every run: vote totals are the sums of one vote per address; issuance and repayment
      are each made at most once for a loan, and those of a repaid loan, for its amount and to or
      from its requester, have been in the node's chain, unless another transaction there bore the
      same id; nobody has two open loans. */
  lemma {:induction false} LoansAreSafe(p: Params, threshold: int, events: seq<Event>, i: string, j: string)
    requires Sound(NONE) && Runs(p, threshold, NONE, events)
    ensures var s := After(p, threshold, NONE, events);
            && Count(s.made, i, false) <= 1 && Count(s.made, i, true) <= 1
            && (i in s.loans ==>
                Sums(s.loans[i].votes, s.loans[i].yesWeight, s.loans[i].noWeight) && Undecided(s.loans[i], threshold))
            && (i in s.loans && s.loans[i].status.Repaid? ==>
                MadeAndLanded(p, s, events, i, false) && MadeAndLanded(p, s, events, i, true))
            && (i in s.loans && j in s.loans && i != j && s.loans[i].requester == s.loans[j].requester ==>
                  !IsOpen(s.loans[i].status) || !IsOpen(s.loans[j].status))
  {
    assert Inv(p, NONE, threshold);
    RunKeepsInv(p, threshold, NONE, events);
    var s := After(p, threshold, NONE, events);
    assert MadeOnce(s, i) && OneOpen(s, i, j);
    if i in s.loans {
      assert LoanOk(s.loans[i], threshold, s.reported);
      if s.loans[i].status.Repaid? {
        ConfirmedHasLanded(p, threshold, events, s, i, false);
        ConfirmedHasLanded(p, threshold, events, s, i, true);
      }
    }
  }

  // ------------------------------------------------------- what moves a loan

  /** The ballot counts: on a loan up for vote, for a word that is a vote, by a holder who has not
      voted on it yet. */
  predicate Counts(s: State, e: Event, id: string) {
    && e.Ballot? && e.id == id && id in s.loans && s.loans[id].status.PendingVote?
    && e.yes.Some? && e.weight > 0 && e.voter !in s.loans[id].votes
  }

  /** What a counted ballot makes of its loan: the vote is recorded with its side and weight, the side's
      total grows by it, and from the threshold on the heavier side decides. */
  predicate AfterBallot(q: Loan, e: Event, threshold: int, after: Loan)
    requires e.Ballot? && e.yes.Some?
  {
    && after.votes == q.votes[e.voter := Vote(e.yes.value, e.weight)]
    && after.yesWeight == (if e.yes.value then q.yesWeight + e.weight else q.yesWeight)
    && after.noWeight == (if e.yes.value then q.noWeight else q.noWeight + e.weight)
    && after.status == (if after.yesWeight + after.noWeight < threshold || after.yesWeight == after.noWeight
                        then PendingVote
                        else if after.yesWeight > after.noWeight then ApprovedPendingIssue else Declined)
    && (after.issuanceTxId.Some? <==> after.status.ApprovedPendingIssue? || q.issuanceTxId.Some?)
    && after == q.(votes := after.votes, yesWeight := after.yesWeight, noWeight := after.noWeight,
                   status := after.status, issuanceTxId := after.issuanceTxId)
  }

  predicate ShownAs(id: Option<string>, confirmed: map<string, int>) {
    id.Some? && id.value in confirmed
  }

  /** What a status sync makes of a loan: a confirmed issuance starts it, a confirmed repayment ends it,
      and otherwise it is overdue once the chain is past its due block. */
  predicate AfterSync(q: Loan, height: int, confirmed: map<string, int>, after: Loan) {
    var starts := q.status.ApprovedPendingIssue? && ShownAs(q.issuanceTxId, confirmed);
    var ends := (q.status.RepaymentPending? || q.status.Overdue?) && ShownAs(q.repaymentTxId, confirmed);
    var late := (starts || q.status.Running? || q.status.RepaymentPending?) && height > after.dueBlock;
    && after.dueBlock == (if !starts then q.dueBlock
                          else 1000 + (if confirmed[q.issuanceTxId.value] != 0 then confirmed[q.issuanceTxId.value]
                                       else height))
    && after.status == (if ends then Repaid else if late then Overdue else if starts then Running else q.status)
    && after == q.(status := after.status, dueBlock := after.dueBlock)
  }

  lemma SyncedExactly(q: Loan, height: int, confirmed: map<string, int>)
    ensures AfterSync(q, height, confirmed, Synced(q, height, confirmed))
  {}

  /** The loan is made out to its requester: 110%, due a thousand blocks on, up for vote. */
  predicate MadeOut(e: Event, q: Loan)
    requires e.Apply?
  {
    && q.requester == e.requester && q.amount == e.amount && -5 <= 10 * q.repaymentAmount - 11 * e.amount <= 5
    && q.dueBlock == e.height + 1000 && q.status.PendingVote?
    && q.votes == map[] && q.yesWeight == q.noWeight == 0 && q.issuanceTxId.None? && q.repaymentTxId.None?
  }

  /** A request is filed exactly when it is complete, for up to 10,000 VLQ, and its requester has no
      loan that is neither declined nor repaid. */
  lemma RequestedExactly(p: Params, s: State, e: Event, threshold: int)
    requires Sound(s) && e.Apply? && FreshId(s, e)
    ensures var t := Step(p, threshold, s, e);
            && (e.id in t.loans <==>
                && e.requester != "" && e.reason != "" && 0 < e.amount <= 10_000 * COIN
                && forall k :: k in s.loans && s.loans[k].requester == e.requester ==>
                     s.loans[k].status.Declined? || s.loans[k].status.Repaid?)
            && (e.id in t.loans ==> t == s.(loans := s.loans[e.id := t.loans[e.id]]) && MadeOut(e, t.loans[e.id]))
            && (e.id !in t.loans ==> t == s)
  {
    assert OpenLoansOf(s.loans, e.requester) == {} <==>
      forall k :: k in s.loans && s.loans[k].requester == e.requester ==>
        s.loans[k].status.Declined? || s.loans[k].status.Repaid? by {
      forall k ensures k in OpenLoansOf(s.loans, e.requester) <==>
          k in s.loans && s.loans[k].requester == e.requester && IsOpen(s.loans[k].status) {}
    }
    if e.amount > 0 {
      RepaymentNear(e.amount);
    }
  }

  /** A refusal names the first check that fails. */
  lemma RequestRefusedFor(s: State, requester: Address, amount: int, reason: string)
    ensures var answer := RequestAnswerOf(s, requester, amount, reason);
            var complete := requester != "" && reason != "";
            && (answer.Malformed? <==> !complete)
            && (answer.AmountNotPositive? <==> complete && amount <= 0)
            && (answer.AmountTooLarge? <==> complete && amount > 10_000 * COIN)
  {}

  lemma VoteRefusedFor(s: State, id: string, voter: Address, yes: Option<bool>, weight: int)
    ensures var answer := VoteAnswerOf(s, id, voter, yes, weight);
            var open := id in s.loans && s.loans[id].status == PendingVote;
            && (answer.NoSuchLoan? <==> id !in s.loans)
            && (answer.NotOpen? <==> id in s.loans && !open)
            && (answer.BadVote? <==> open && yes == None)
            && (answer.AlreadyVoted? <==> open && yes != None && voter in s.loans[id].votes)
            && (answer.NoBalance? <==> open && yes != None && voter !in s.loans[id].votes && weight <= 0)
  {}

  lemma RepaymentRefusedFor(s: State, id: string, repayer: Address)
    ensures var answer := RepayAnswerOf(s, id, repayer);
            var due := id in s.loans && (s.loans[id].status == Running || s.loans[id].status == Overdue);
            && (answer.NoLoan? <==> id !in s.loans)
            && (answer.NotRunning? <==> id in s.loans && !due)
            && (answer.AlreadyRepaying? <==> due && s.loans[id].repaymentTxId != None)
            && (answer.NotTheRequester? <==>
                due && s.loans[id].repaymentTxId == None && repayer != s.loans[id].requester)
            && (answer.Repaying? <==> due && s.loans[id].repaymentTxId == None && repayer == s.loans[id].requester)
  {}

  /** What a ballot makes of any loan, and what it hands to the chain. */
  lemma BallotMovesExactly(p: Params, s: State, e: Event, threshold: int, id: string)
    requires Sound(s) && e.Ballot? && id in s.loans
    ensures var t := Step(p, threshold, s, e);
            && id in t.loans
            && (if Counts(s, e, id) then
                  && AfterBallot(s.loans[id], e, threshold, t.loans[id])
                  && (if t.loans[id].status.ApprovedPendingIssue?
                      then |t.made| == |s.made| + 1 && s.made < t.made && t.made[|s.made|].Issuance?
                           && t.made[|s.made|].loanId == id && MadeFor(p, t.loans[id], t.made[|s.made|])
                      else t.made == s.made)
                else t.loans[id] == s.loans[id])
  {}

  /** Who may repay which loan, once it has been synced. */
  predicate Repayable(q: Loan, repayer: Address) {
    (q.status.Running? || q.status.Overdue?) && q.repaymentTxId.None? && repayer == q.requester
  }

  /** What a repayment makes of its loan, and what it hands to the chain: exactly when the loan runs or
      is overdue, has no repayment yet, is the caller's, and the chain takes the transaction. */
  lemma PayBackMovesExactly(p: Params, s: State, e: Event, threshold: int)
    requires Sound(s) && e.PayBack? && e.id in s.loans
    ensures var t, height, confirmed := Step(p, threshold, s, e), TopOf(e.view.chain), Shown(p, e.view);
            var synced := Synced(s.loans[e.id], height, confirmed);
            && AfterSync(s.loans[e.id], height, confirmed, synced) && e.id in t.loans
            && (if Repayable(synced, e.repayer) && e.accepted then
                  && t.loans[e.id] ==
                     synced.(status := RepaymentPending, repaymentTxId := t.loans[e.id].repaymentTxId)
                  && |t.made| == |s.made| + 1 && s.made < t.made && t.made[|s.made|].Repayment?
                  && t.made[|s.made|].loanId == e.id && MadeFor(p, t.loans[e.id], t.made[|s.made|])
                else t.loans[e.id] == synced && t.made == s.made)
            && forall k :: k in s.loans && k != e.id ==>
                 k in t.loans && AfterSync(s.loans[k], height, confirmed, t.loans[k])
  {
    var height, confirmed := TopOf(e.view.chain), Shown(p, e.view);
    SyncSound(s, height, confirmed);
    forall k | k in s.loans ensures AfterSync(s.loans[k], height, confirmed, Synced(s.loans[k], height, confirmed)) {
      SyncedExactly(s.loans[k], height, confirmed);
    }
  }

  /** The vote of the first ballot of this address that counts on this loan. */
  function BallotOf(p: Params, threshold: int, s: State, events: seq<Event>, id: string, voter: Address): Option<Vote>
    requires Sound(s) && Runs(p, threshold, s, events)
    decreases |events|
  {
    if events == [] then None
    else if Counts(s, events[0], id) && events[0].voter == voter
    then Some(Vote(events[0].yes.value, events[0].weight))
    else BallotOf(p, threshold, Step(p, threshold, s, events[0]), events[1..], id, voter)
  }

  function EntryOf(s: State, id: string, voter: Address): Option<Vote> {
    if id in s.loans && voter in s.loans[id].votes then Some(s.loans[id].votes[voter]) else None
  }

  lemma EntryAfter(p: Params, threshold: int, s: State, e: Event, id: string, voter: Address)
    requires Sound(s) && FreshId(s, e)
    ensures EntryOf(Step(p, threshold, s, e), id, voter) ==
            if Counts(s, e, id) && e.voter == voter then Some(Vote(e.yes.value, e.weight)) else EntryOf(s, id, voter)
    ensures Counts(s, e, id) && e.voter == voter ==> EntryOf(s, id, voter).None?
  {
    match e
    case Apply(_, _, _, _, _) => RequestedExactly(p, s, e, threshold);
    case Ballot(_, _, _, _, _) => if id in s.loans { BallotMovesExactly(p, s, e, threshold, id); }
    case Update(view) =>
      if id in s.loans { SyncedExactly(s.loans[id], TopOf(view.chain), Shown(p, view)); }
    case PayBack(_, _, _, _, _) => if e.id in s.loans { PayBackMovesExactly(p, s, e, threshold); }
  }

  /** Over every run: an address has an entry on a loan exactly when a ballot of its own counted, with
      that ballot's side and weight. */
  lemma {:induction false} VotesAreTheBallots(p: Params, threshold: int, s: State, events: seq<Event>, id: string,
                                              voter: Address)
    requires Sound(s) && Runs(p, threshold, s, events)
    ensures EntryOf(After(p, threshold, s, events), id, voter) ==
            if EntryOf(s, id, voter).Some? then EntryOf(s, id, voter)
            else BallotOf(p, threshold, s, events, id, voter)
    decreases |events|
  {
    if events != [] {
      EntryAfter(p, threshold, s, events[0], id, voter);
      VotesAreTheBallots(p, threshold, Step(p, threshold, s, events[0]), events[1..], id, voter);
    }
  }

  // -------------------------------------------------------------- the object

  class LendingPool {
    const threshold: int
    var loans: map<string, Loan>
    ghost var made: seq<Made>
    ghost var reported: set<string>

    ghost function Now(): State
      reads this
    {
      State(loans, made, reported)
    }

    constructor (threshold: int)
      ensures this.threshold == threshold && Now() == NONE && forall p: Params :: Inv(p, Now(), threshold)
    {
      this.threshold, loans, made, reported := threshold, map[], [], {};
    }

    method HasOpenLoan(requester: Address) returns (open: bool)
      ensures open <==> OpenLoansOf(loans, requester) != {}
    {
      var todo := loans.Keys;
      while todo != {}
        invariant todo <= loans.Keys
        invariant forall id :: id in loans && id !in todo ==> id !in OpenLoansOf(loans, requester)
        decreases |todo|
      {
        var id :| id in todo;
        if loans[id].requester == requester && IsOpen(loans[id].status) {
          assert id in OpenLoansOf(loans, requester);
          return true;
        }
        todo := todo - {id};
      }
      open := false;
    }

    method CreateLoanRequest(id: string, requester: Address, amount: int, reason: string, height: int)
      returns (answer: RequestAnswer)
      modifies this`loans
      ensures (Now(), answer) == Request(old(Now()), id, requester, amount, reason, height)
    {
      if requester == "" || reason == "" {
        return Malformed;
      }
      if amount <= 0 {
        return AmountNotPositive;
      }
      if amount > MAXIMUM_LOAN_AMOUNT {
        return AmountTooLarge;
      }
      var open := HasOpenLoan(requester);
      if open {
        return AlreadyOpen;
      }
      var loan := Loan(requester, amount, RepaymentFor(amount), height + REPAYMENT_BLOCKS, PendingVote,
                       map[], 0, 0, None, None);
      loans := loans[id := loan];
      return Requested;
    }

    /** vote_on_loan, with check_loan_outcome and approve_loan: a vote that approves the loan
        puts its issuance into the node's pool, any other leaves the pool alone. */
    method VoteOnLoan(bc: Blockchain, id: string, voter: Address, yes: Option<bool>, weight: int, now: real)
      returns (answer: VoteAnswer)
      requires Sound(Now()) && bc.Maintained()
      modifies this, bc`pending
      ensures bc.Maintained()
      ensures (Now(), answer) == CastVote(bc.p, old(Now()), id, voter, yes, weight, threshold, now)
      ensures answer.Voted? <==> old(Counts(Now(), Ballot(id, voter, yes, weight, now), id))
      ensures answer.Voted? ==>
                && id in loans
                && AfterBallot(old(loans)[id], Ballot(id, voter, yes, weight, now), threshold, loans[id])
      ensures if made == old(made) then bc.L() == old(bc.L())
              else
                && id in loans && Borrowable(loans[id])
                && bc.L() == old(bc.L()).(pending := old(bc.pending) + [IssuanceTx(id, loans[id], now)])
    {
      if id !in loans {
        return NoSuchLoan;
      }
      if !loans[id].status.PendingVote? {
        return NotOpen;
      }
      if yes.None? {
        return BadVote;
      }
      if voter in loans[id].votes {
        return AlreadyVoted;
      }
      if weight <= 0 {
        return NoBalance;
      }
      assert Borrowable(loans[id]);
      BallotMovesExactly(bc.p, Now(), Ballot(id, voter, yes, weight, now), threshold, id);
      RecordVote(id, voter, yes.value, weight);
      CheckLoanOutcome(bc, id, now);
      assert loans == old(loans)[id := loans[id]];
      return Voted;
    }

    method RecordVote(id: string, voter: Address, yes: bool, weight: int)
      requires id in loans
      modifies this`loans
      ensures loans == old(loans)[id := WithVote(old(loans)[id], voter, yes, weight)]
    {
      var q := loans[id];
      q := q.(votes := q.votes[voter := Vote(yes, weight)]);
      if yes {
        q := q.(yesWeight := q.yesWeight + weight);
      } else {
        q := q.(noWeight := q.noWeight + weight);
      }
      loans := loans[id := q];
    }

    method CheckLoanOutcome(bc: Blockchain, id: string, now: real)
      requires bc.Maintained() && id in loans && loans[id].status.PendingVote? && Borrowable(loans[id])
      modifies this`loans, this`made, bc`pending
      ensures bc.Maintained()
      ensures var (q, more) := Decided(bc.p, id, old(loans)[id], threshold, now);
              && loans == old(loans)[id := q] && made == old(made) + more
              && bc.L() == if more == [] then old(bc.L())
                           else old(bc.L()).(pending := old(bc.pending) + [IssuanceTx(id, old(loans)[id], now)])
    {
      var q := loans[id];
      assert old(loans)[id := q] == old(loans) && old(made) + [] == old(made);
      if q.yesWeight + q.noWeight < threshold {
        return;
      }
      if q.yesWeight > q.noWeight {
        ApproveLoan(bc, id, now);
      } else if q.noWeight > q.yesWeight {
        loans := loans[id := q.(status := Declined)];
      }
    }

    method ApproveLoan(bc: Blockchain, id: string, now: real)
      requires bc.Maintained() && id in loans && loans[id].status.PendingVote? && Borrowable(loans[id])
      modifies this`loans, this`made, bc`pending
      ensures bc.Maintained()
      ensures var q := old(loans)[id];
              var txId := TxId(bc.p, IssuanceTx(id, q, now));
              && loans == old(loans)[id := q.(status := ApprovedPendingIssue, issuanceTxId := Some(txId))]
              && made == old(made) + [Issuance(id, IssuanceTx(id, q, now))]
              && bc.L() == old(bc.L()).(pending := old(bc.pending) + [IssuanceTx(id, q, now)])
    {
      var q := loans[id];
      loans := loans[id := q.(status := ApprovedPendingIssue)];
      var t := IssuanceTx(id, q, now);
      var submitted := bc.AddPendingTransaction(t);
      loans := loans[id := q.(status := ApprovedPendingIssue, issuanceTxId := Some(TxId(bc.p, t)))];
      made := made + [Issuance(id, t)];
    }

    /** Which of the chain's transactions count as confirmed, asked one by one in the source. */
    static method Confirmations(p: Params, chain: seq<Block>) returns (confirmed: map<string, int>)
      ensures confirmed == ConfirmedIn(p, chain)
    {
      confirmed := map[];
      var i := 0;
      while i < |chain|
        invariant 0 <= i <= |chain| && confirmed == ConfirmedIn(p, chain[..i])
      {
        assert chain[..i + 1][..i] == chain[..i];
        confirmed := AddConfirmed(p, confirmed, chain[i]);
        i := i + 1;
      }
      assert chain[..|chain|] == chain;
    }

    static method AddConfirmed(p: Params, before: map<string, int>, b: Block) returns (confirmed: map<string, int>)
      ensures confirmed == PutTxs(p, before, b.data.transactions, b.data.index)
    {
      confirmed := before;
      var ts, i := b.data.transactions, 0;
      while i < |ts|
        invariant 0 <= i <= |ts|
        invariant PutTxs(p, confirmed, ts[i..], b.data.index) == PutTxs(p, before, ts, b.data.index)
      {
        confirmed := confirmed[TxId(p, ts[i]) := b.data.index];
        i := i + 1;
      }
    }

    static function Seen(bc: Blockchain): View
      reads bc
    {
      View(bc.chain, bc.pending, bc.index != null)
    }

    static method WithoutPending(p: Params, before: map<string, int>, pool: seq<Tx>)
      returns (confirmed: map<string, int>)
      ensures confirmed == before - PoolIds(p, pool)
    {
      confirmed := before;
      var i := 0;
      while i < |pool|
        invariant 0 <= i <= |pool|
        invariant confirmed == before - PoolIds(p, pool[..i])
      {
        assert PoolIds(p, pool[..i + 1]) == PoolIds(p, pool[..i]) + {TxId(p, pool[i])} by {
          assert forall j :: 0 <= j < i ==> pool[..i + 1][j] == pool[..i][j];
        }
        confirmed := confirmed - {TxId(p, pool[i])};
        i := i + 1;
      }
      assert pool[..|pool|] == pool;
    }

    /** sync_loan_statuses, against the node; the answer says whether any loan changed. */
    method SyncLoanStatuses(bc: Blockchain) returns (changed: bool)
      modifies this
      ensures Now() == Sync(old(Now()), bc.GetBlockHeight(), Shown(bc.p, Seen(bc)))
      ensures changed <==> loans != old(loans)
    {
      var confirmed := Confirmations(bc.p, bc.chain);
      if bc.index == null {
        confirmed := WithoutPending(bc.p, confirmed, bc.pending);
      }
      changed := SyncAll(bc.GetBlockHeight(), confirmed);
      reported := reported + confirmed.Keys;
    }

    method SyncAll(height: int, confirmed: map<string, int>) returns (changed: bool)
      modifies this`loans
      ensures loans == SyncedAll(old(loans), height, confirmed)
      ensures changed <==> loans != old(loans)
    {
      changed := false;
      var todo := loans.Keys;
      while todo != {}
        invariant PartlySynced(old(loans), loans, todo, height, confirmed)
        invariant changed ==> exists id :: id in loans && id !in todo && loans[id] != old(loans)[id]
        invariant !changed ==> loans == old(loans)
        decreases |todo|
      {
        var id :| id in todo;
        SyncOneMore(old(loans), loans, todo, id, height, confirmed);
        var q := SyncLoan(loans[id], height, confirmed);
        changed := changed || q != loans[id];
        loans := loans[id := q];
        todo := todo - {id};
      }
      FullySynced(old(loans), loans, height, confirmed);
    }

    static predicate PartlySynced(before: map<string, Loan>, loans: map<string, Loan>, todo: set<string>, height: int,
                                  confirmed: map<string, int>) {
      && todo <= loans.Keys == before.Keys
      && (forall id :: id in todo ==> loans[id] == before[id])
      && (forall id :: id in loans && id !in todo ==> loans[id] == Synced(before[id], height, confirmed))
    }

    static lemma SyncOneMore(before: map<string, Loan>, loans: map<string, Loan>, todo: set<string>, id: string,
                             height: int, confirmed: map<string, int>)
      requires PartlySynced(before, loans, todo, height, confirmed) && id in todo
      ensures PartlySynced(before, loans[id := Synced(loans[id], height, confirmed)], todo - {id}, height, confirmed)
    {}

    static lemma FullySynced(before: map<string, Loan>, loans: map<string, Loan>, height: int,
                             confirmed: map<string, int>)
      requires PartlySynced(before, loans, {}, height, confirmed)
      ensures loans == SyncedAll(before, height, confirmed)
    {}

    static method SyncLoan(loan: Loan, height: int, confirmed: map<string, int>) returns (q: Loan)
      ensures q == Synced(loan, height, confirmed)
    {
      q := loan;
      if q.status.ApprovedPendingIssue? && q.issuanceTxId.Some? {
        if q.issuanceTxId.value in confirmed {
          var block := confirmed[q.issuanceTxId.value];
          q := q.(status := Running, dueBlock := (if block != 0 then block else height) + REPAYMENT_BLOCKS);
        }
      }
      if (q.status.RepaymentPending? || q.status.Overdue?) && q.repaymentTxId.Some? {
        if q.repaymentTxId.value in confirmed {
          q := q.(status := Repaid);
        }
      }
      if q.status.Running? || q.status.RepaymentPending? {
        if height > q.dueBlock {
          q := q.(status := Overdue);
        }
      }
    }

    /** repay_loan: the repayment is in the node's pool exactly when the answer is Repaying. */
    method RepayLoan(bc: Blockchain, id: string, repayer: Address, now: real) returns (answer: RepayAnswer)
      requires Sound(Now()) && bc.Maintained()
      modifies this, bc`pending
      ensures bc.Maintained()
      ensures (Now(), answer) == Repay(bc.p, old(Now()), id, repayer, now, old(bc.GetBlockHeight()),
                                      Shown(bc.p, old(Seen(bc))), answer.Repaying?)
      ensures if answer.Repaying? then
                && id in loans && Borrowable(loans[id])
                && bc.L() == old(bc.L()).(pending := old(bc.pending) + [RepaymentTx(id, loans[id], now)])
              else bc.L() == old(bc.L())
    {
      if id !in loans {
        return NoLoan;
      }
      ghost var confirmed := Shown(bc.p, Seen(bc));
      ghost var synced := Sync(Now(), bc.GetBlockHeight(), confirmed);
      SyncSound(Now(), bc.GetBlockHeight(), confirmed);
      var changed := SyncLoanStatuses(bc);
      assert Now() == synced && Sound(synced);
      answer := RepayAfterSync(bc, id, repayer, now);
    }

    method RepayAfterSync(bc: Blockchain, id: string, repayer: Address, now: real) returns (answer: RepayAnswer)
      requires Sound(Now()) && bc.Maintained() && id in loans
      modifies this`loans, this`made, bc`pending
      ensures bc.Maintained()
      ensures (Now(), answer) == RepaySynced(bc.p, old(Now()), id, repayer, now, answer.Repaying?)
      ensures if answer.Repaying? then
                && id in loans && Borrowable(loans[id])
                && bc.L() == old(bc.L()).(pending := old(bc.pending) + [RepaymentTx(id, loans[id], now)])
              else bc.L() == old(bc.L())
    {
      var q := loans[id];
      if !q.status.Running? && !q.status.Overdue? {
        return NotRunning;
      }
      if q.repaymentTxId.Some? {
        return AlreadyRepaying;
      }
      if repayer != q.requester {
        return NotTheRequester;
      }
      assert Borrowable(q);
      var ok := SubmitRepayment(bc, id, now);
      return if ok then Repaying else Refused;
    }

    method SubmitRepayment(bc: Blockchain, id: string, now: real) returns (ok: bool)
      requires bc.Maintained() && id in loans && Borrowable(loans[id])
      modifies this`loans, this`made, bc`pending
      ensures bc.Maintained()
      ensures var q := old(loans)[id];
              if ok then
                && loans == old(loans)[id := BeingRepaid(bc.p, id, q, now)]
                && made == old(made) + [Repayment(id, RepaymentTx(id, q, now))]
                && bc.L() == old(bc.L()).(pending := old(bc.pending) + [RepaymentTx(id, q, now)])
              else loans == old(loans) && made == old(made) && bc.L() == old(bc.L())
    {
      var q := loans[id];
      var t := RepaymentTx(id, q, now);
      var submitted := bc.AddPendingTransaction(t);
      if !submitted.Submitted? {
        return false;
      }
      loans := loans[id := q.(status := RepaymentPending, repaymentTxId := Some(TxId(bc.p, t)))];
      made := made + [Repayment(id, t)];
      return true;
    }
  }
}
