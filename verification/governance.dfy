/** Governance voting (blockchain/governance.py): proposals, weighted votes, execution of the
    setting changes they carry, cancellation and expiry. */
module Governances {
  import opened Protocol
  import opened Balances
  import opened Voting

  datatype Category = MiningReward | Difficulty | LoanLimit | LoanInterest | ExchangeLimit | General

  datatype Status = Active | PassedPendingExecution | Executed | Rejected | Expired | Cancelled

  /** A proposed value as supplied or as normalized; numbers in text are taken as numbers. */
  datatype Parameter = Number(x: real) | Whole(n: int) | Text(s: string)

  datatype Proposal = Proposal(proposer: Address, category: Category, parameter: Parameter, deadline: real,
                               status: Status,
                               votes: map<Address, Vote>, yesWeight: int, noWeight: int, quorum: int, threshold: real)

  datatype RuleChange = RuleChange(proposalId: string, category: Category, oldValue: Parameter, newValue: Parameter)

  /** `current` is governance_settings; miningReward and difficulty belong to the blockchain. */
  datatype State = State(proposals: map<string, Proposal>, ruleChanges: seq<RuleChange>,
                         current: map<Category, Parameter>,
                         miningReward: real, difficulty: int)

  datatype Rules = Rules(quorum: int, threshold: real, votingPeriod: real)

  // -------------------------------------------------------------- parameters

  /** int(x): truncation toward zero. */
  function Truncated(x: real): int {
    if x >= 0.0 then x.Floor else -((-x).Floor)
  }

  /** float(value) and int(value); None where Python raises. */
  function AsNumber(v: Parameter): Option<real> {
    match v
    case Number(x) => Some(x)
    case Whole(n) => Some(n as real)
    case Text(_) => None
  }

  function AsWhole(v: Parameter): Option<int> {
    match v
    case Number(x) => Some(Truncated(x))
    case Whole(n) => Some(n)
    case Text(_) => None
  }

  function NumberIn(v: Parameter, ok: real -> bool): Option<Parameter> {
    match AsNumber(v)
    case None => None
    case Some(x) => if ok(x) then Some(Number(x)) else None
  }

  function WholeIn(v: Parameter, low: int, high: int): Option<Parameter> {
    match AsWhole(v)
    case None => None
    case Some(n) => if low <= n <= high then Some(Whole(n)) else None
  }

  /** _normalize_parameter; None is its exception. */
  function Normalize(category: Category, v: Parameter): Option<Parameter> {
    match category
    case MiningReward => NumberIn(v, x => 0.0 < x <= 1000.0)
    case Difficulty => WholeIn(v, 2, 8)
    case LoanLimit => NumberIn(v, x => 0.0 < x <= 1_000_000.0)
    case LoanInterest =>
      (match NumberIn(v, x => 0.0 <= x <= 100.0)
       case None => None
       case Some(y) => Some(Number(if y.x > 1.0 then y.x / 100.0 else y.x)))
    case ExchangeLimit => WholeIn(v, 1, 1000)
    case General => if v.Text? && (v.s == "" || |v.s| > 500) then None else Some(v)
  }

  /** Normalizing again at execution changes nothing and never fails: the value voted on is
      the value put in force. */
  lemma NormalizeIdempotent(category: Category, v: Parameter)
    requires Normalize(category, v).Some?
    ensures Normalize(category, Normalize(category, v).value) == Normalize(category, v)
  {}

  // -------------------------------------------------------------- operations

  datatype CreateAnswer = Created | Malformed | InvalidCategory | NotHolder | TooManyActive | BadParameter

  function ActiveOf(proposals: map<string, Proposal>, proposer: Address): set<string> {
    set id | id in proposals && proposals[id].proposer == proposer && proposals[id].status.Active?
  }

  /** What a proposal says, as cleaned-up texts; None is a category nobody knows. */
  datatype Draft = Draft(proposer: Address, title: string, description: string, category: Option<Category>,
                         v: Parameter)

  /** _require_text on a text that has been stripped. */
  predicate TextOk(text: string, limit: nat) {
    0 < |text| <= limit
  }

  predicate WellFormed(d: Draft) {
    TextOk(d.proposer, 160) && TextOk(d.title, 160) && TextOk(d.description, 3000)
  }

  function CreateAnswerOf(s: State, d: Draft, balance: int): CreateAnswer {
    if !WellFormed(d) then Malformed
    else if d.category.None? then InvalidCategory
    else if balance <= 0 then NotHolder
    else if |ActiveOf(s.proposals, d.proposer)| >= 3 then TooManyActive
    else if Normalize(d.category.value, d.v).None? then BadParameter
    else Created
  }

  function NewProposal(r: Rules, proposer: Address, category: Category, v: Parameter, now: real): Proposal
    requires Normalize(category, v).Some?
  {
    Proposal(proposer, category, Normalize(category, v).value, now + r.votingPeriod, Active,
             map[], 0, 0, r.quorum, r.threshold)
  }

  /** create_proposal. `balance` is what the proposer holds, `id` the digest under which the
      proposal is filed. */
  function Create(r: Rules, s: State, id: string, d: Draft, balance: int, now: real): (State, CreateAnswer) {
    var answer := CreateAnswerOf(s, d, balance);
    (if answer.Created? then s.(proposals := s.proposals[id := NewProposal(r, d.proposer, d.category.value, d.v, now)])
     else s,
     answer)
  }

  datatype VoteAnswer = Voted | NoSuchProposal | NotActive | DeadlinePassed | BadVote | AlreadyVoted | NoBalance

  function VoteAnswerOf(s: State, id: string, voter: Address, yes: Option<bool>, weight: int, now: real): VoteAnswer {
    if id !in s.proposals then NoSuchProposal
    else
      var q := s.proposals[id];
      if !q.status.Active? then NotActive
      else if now >= q.deadline then DeadlinePassed
      else if yes.None? then BadVote
      else if voter in q.votes then AlreadyVoted
      else if weight <= 0 then NoBalance
      else Voted
  }

  function WithVote(q: Proposal, voter: Address, yes: bool, weight: int): Proposal {
    q.(votes := q.votes[voter := Vote(yes, weight)],
       yesWeight := if yes then q.yesWeight + weight else q.yesWeight,
       noWeight := if yes then q.noWeight else q.noWeight + weight)
  }

  datatype Outcome = Undecided | Passes | Fails

  /** The verdict of check_proposal_outcome on an active proposal. */
  function OutcomeOf(q: Proposal): Outcome
    requires q.yesWeight + q.noWeight != 0
  {
    var total := q.yesWeight + q.noWeight;
    if total < q.quorum then Undecided
    else if q.yesWeight as real / total as real >= q.threshold then Passes
    else if q.noWeight as real / total as real > 1.0 - q.threshold then Fails
    else Undecided
  }

  /** What is in force for a category; the blockchain's own fields come first. */
  function CurrentValue(s: State, category: Category): Parameter {
    match category
    case MiningReward => Number(s.miningReward)
    case Difficulty => Whole(s.difficulty)
    case _ => if category in s.current then s.current[category] else Text("advisory")
  }

  /** execute_proposal on a proposal that has passed; if it raises, the proposal keeps waiting. */
  function Execute(s: State, id: string): State
    requires id in s.proposals
  {
    var q := s.proposals[id];
    if !q.status.PassedPendingExecution? then s
    else if q.category.General? then s.(proposals := s.proposals[id := q.(status := Executed)])
    else match Normalize(q.category, q.parameter)
      case None => s
      case Some(v) =>
        s.(proposals := s.proposals[id := q.(status := Executed)],
           ruleChanges := s.ruleChanges + [RuleChange(id, q.category, CurrentValue(s, q.category), v)],
           current := s.current[q.category := v],
           miningReward := if q.category.MiningReward? && v.Number? then v.x else s.miningReward,
           difficulty := if q.category.Difficulty? && v.Whole? then v.n else s.difficulty)
  }

  /** check_proposal_outcome. */
  function Check(s: State, id: string): State
    requires id in s.proposals && s.proposals[id].yesWeight + s.proposals[id].noWeight != 0
  {
    var q := s.proposals[id];
    if !q.status.Active? then s
    else match OutcomeOf(q)
      case Undecided => s
      case Passes => Execute(s.(proposals := s.proposals[id := q.(status := PassedPendingExecution)]), id)
      case Fails => s.(proposals := s.proposals[id := q.(status := Rejected)])
  }

  /** vote_on_proposal for a well-formed voter; `yes` is None for any other word. */
  function CastVote(s: State, id: string, voter: Address, yes: Option<bool>, weight: int, now: real)
      : (State, VoteAnswer)
    requires Sound(s)
  {
    var answer := VoteAnswerOf(s, id, voter, yes, weight, now);
    if answer.DeadlinePassed? then (s.(proposals := s.proposals[id := s.proposals[id].(status := Expired)]), answer)
    else if !answer.Voted? then (s, answer)
    else
      assert Tallied(s.proposals[id]);
      (Check(s.(proposals := s.proposals[id := WithVote(s.proposals[id], voter, yes.value, weight)]), id), answer)
  }

  /** cancel_proposal; false is its exception. */
  predicate Cancellable(s: State, id: string, proposer: Address) {
    id in s.proposals && s.proposals[id].proposer == proposer && s.proposals[id].status.Active?
        && s.proposals[id].votes == map[]
  }

  function Cancel(s: State, id: string, proposer: Address): State {
    if Cancellable(s, id, proposer)
    then s.(proposals := s.proposals[id := s.proposals[id].(status := Cancelled)])
    else s
  }

  function Aged(q: Proposal, now: real): Proposal {
    if q.status.Active? && now >= q.deadline then q.(status := Expired) else q
  }

  /** expire_proposals. */
  function Expire(s: State, now: real): State {
    s.(proposals := map id | id in s.proposals :: Aged(s.proposals[id], now))
  }

  // --------------------------------------------------------------- invariant

  /** The totals are the sums of the recorded votes, one for each address. */
  ghost predicate SumsVotes(q: Proposal) {
    Sums(q.votes, q.yesWeight, q.noWeight)
  }

  predicate Tallied(q: Proposal) {
    && q.yesWeight >= 0 && q.noWeight >= 0
    && (forall a :: a in q.votes ==> q.votes[a].weight > 0)
  }

  predicate Sound(s: State) {
    forall id :: id in s.proposals ==> Tallied(s.proposals[id])
  }

  /** An active proposal that anyone has voted on is still short of its quorum. */
  predicate Open(q: Proposal) {
    q.status.Active? ==> q.votes == map[] || q.yesWeight + q.noWeight < q.quorum
  }

  ghost predicate ProposalOk(q: Proposal) {
    && Tallied(q) && SumsVotes(q) && Open(q)
    && !q.status.PassedPendingExecution?
    && Normalize(q.category, q.parameter) == Some(q.parameter)
  }

  predicate ChangesSetting(q: Proposal) {
    q.status.Executed? && !q.category.General?
  }

  predicate Recorded(s: State, i: nat)
    requires i < |s.ruleChanges|
  {
    var c := s.ruleChanges[i];
    && c.proposalId in s.proposals
    && ChangesSetting(s.proposals[c.proposalId])
    && c.category == s.proposals[c.proposalId].category
    && c.newValue == s.proposals[c.proposalId].parameter
  }

  predicate HasChange(changes: seq<RuleChange>, id: string) {
    exists i :: 0 <= i < |changes| && changes[i].proposalId == id
  }

  /** The value the last rule change of a category put in force. */
  function LastChange(changes: seq<RuleChange>, category: Category): Option<Parameter> {
    if changes == [] then None
    else
      var last := changes[|changes| - 1];
      if last.category == category then Some(last.newValue) else LastChange(changes[..|changes| - 1], category)
  }

  /** Rule changes and executed setting proposals correspond one to one. */
  predicate ChangesMatch(s: State) {
    && (forall i :: 0 <= i < |s.ruleChanges| ==> Recorded(s, i))
    && (forall i, j :: 0 <= i < j < |s.ruleChanges| ==> s.ruleChanges[i].proposalId != s.ruleChanges[j].proposalId)
    && (forall id :: id in s.proposals && ChangesSetting(s.proposals[id]) ==> HasChange(s.ruleChanges, id))
  }

  predicate SettingsInForce(s: State) {
    && (forall category :: LastChange(s.ruleChanges, category).Some? ==>
          category in s.current && s.current[category] == LastChange(s.ruleChanges, category).value)
    && (LastChange(s.ruleChanges, MiningReward).Some? ==>
        LastChange(s.ruleChanges, MiningReward).value == Number(s.miningReward))
  }

  ghost predicate FewActive(s: State) {
    forall proposer :: |ActiveOf(s.proposals, proposer)| <= 3
  }

  ghost predicate Inv(s: State) {
    && (forall id :: id in s.proposals ==> ProposalOk(s.proposals[id]))
    && ChangesMatch(s)
    && SettingsInForce(s)
    && FewActive(s)
  }

  lemma InvIsSound(s: State)
    requires Inv(s)
    ensures Sound(s)
  {}

  /** At the quorum the vote always decides: whatever the threshold, it passes or it fails. */
  lemma QuorumDecides(q: Proposal)
    requires q.yesWeight + q.noWeight > 0
    ensures OutcomeOf(q).Undecided? <==> q.yesWeight + q.noWeight < q.quorum
  {
    var total := (q.yesWeight + q.noWeight) as real;
    assert q.yesWeight as real / total + q.noWeight as real / total == 1.0;
  }

  /** A proposal passes exactly when the quorum is met and the yes share reaches the threshold,
      and fails exactly when the quorum is met and it does not. */
  lemma OutcomeExactly(q: Proposal)
    requires SumsVotes(q) && q.yesWeight + q.noWeight > 0
    ensures var yes := Total(Weights(q.votes, true)) as real;
            var total := yes + Total(Weights(q.votes, false)) as real;
            && (OutcomeOf(q).Passes? <==> total >= q.quorum as real && yes >= q.threshold * total)
            && (OutcomeOf(q).Fails? <==> total >= q.quorum as real && yes < q.threshold * total)
  {
    var total := (q.yesWeight + q.noWeight) as real;
    Share(q.yesWeight as real, total, q.threshold);
    QuorumDecides(q);
  }

  lemma Share(part: real, total: real, threshold: real)
    requires total > 0.0
    ensures part / total >= threshold <==> part >= threshold * total
  {
    var share := part / total;
    assert share * total == part;
    if share >= threshold {
      assert (share - threshold) * total >= 0.0;
    } else {
      assert (threshold - share) * total > 0.0;
    }
  }

  lemma FewerActive(s: State, t: State, proposer: Address)
    requires |ActiveOf(s.proposals, proposer)| <= 3
             && ActiveOf(t.proposals, proposer) <= ActiveOf(s.proposals, proposer)
    ensures |ActiveOf(t.proposals, proposer)| <= 3
  {
    var a, b := ActiveOf(t.proposals, proposer), ActiveOf(s.proposals, proposer);
    assert b == a + (b - a);
  }

  /** Replacing one proposal by one that is no more active keeps the bound on active ones. */
  lemma ReplaceKeepsFew(s: State, id: string, q: Proposal)
    requires FewActive(s) && id in s.proposals && q.proposer == s.proposals[id].proposer
    requires q.status.Active? ==> s.proposals[id].status.Active?
    ensures FewActive(s.(proposals := s.proposals[id := q]))
  {
    var t := s.(proposals := s.proposals[id := q]);
    forall proposer ensures |ActiveOf(t.proposals, proposer)| <= 3 {
      assert |ActiveOf(s.proposals, proposer)| <= 3;
      FewerActive(s, t, proposer);
    }
  }

  /** Changing a proposal that neither was nor becomes an executed setting change. */
  lemma ReplaceKeepsChanges(s: State, id: string, q: Proposal)
    requires ChangesMatch(s) && id in s.proposals && !ChangesSetting(s.proposals[id]) && !ChangesSetting(q)
    ensures ChangesMatch(s.(proposals := s.proposals[id := q]))
  {
    var t := s.(proposals := s.proposals[id := q]);
    forall i | 0 <= i < |t.ruleChanges| ensures Recorded(t, i) {
      assert Recorded(s, i);
    }
  }

  /** Any step on one proposal that keeps it in order and executes nothing. */
  lemma ReplaceKeepsInv(s: State, id: string, q: Proposal)
    requires Inv(s) && id in s.proposals && ProposalOk(q) && q.proposer == s.proposals[id].proposer
    requires q.status.Active? ==> s.proposals[id].status.Active?
    requires !ChangesSetting(s.proposals[id]) && !ChangesSetting(q)
    ensures Inv(s.(proposals := s.proposals[id := q]))
  {
    ReplaceKeepsFew(s, id, q);
    ReplaceKeepsChanges(s, id, q);
  }

  /** The state a passed setting proposal leaves behind. */
  function Applied(s: State, id: string, q: Proposal): State {
    s.(proposals := s.proposals[id := q.(status := Executed)],
       ruleChanges := s.ruleChanges + [RuleChange(id, q.category, CurrentValue(s, q.category), q.parameter)],
       current := s.current[q.category := q.parameter],
       miningReward := if q.category.MiningReward? && q.parameter.Number? then q.parameter.x else s.miningReward,
       difficulty := if q.category.Difficulty? && q.parameter.Whole? then q.parameter.n else s.difficulty)
  }

  lemma AppliedMatches(s: State, id: string, q: Proposal)
    requires ChangesMatch(s) && id in s.proposals && s.proposals[id].status.Active? && !q.category.General?
    ensures ChangesMatch(Applied(s, id, q))
  {
    var t := Applied(s, id, q);
    var n := |s.ruleChanges|;
    forall i | 0 <= i < |t.ruleChanges| ensures Recorded(t, i) && (i < n ==> t.ruleChanges[i].proposalId != id) {
      if i < n {
        assert Recorded(s, i);
      }
    }
    forall k | k in t.proposals && ChangesSetting(t.proposals[k]) ensures HasChange(t.ruleChanges, k) {
      if k == id {
        assert t.ruleChanges[n].proposalId == id;
      } else {
        assert HasChange(s.ruleChanges, k);
        var i :| 0 <= i < n && s.ruleChanges[i].proposalId == k;
        assert t.ruleChanges[i].proposalId == k;
      }
    }
  }

  lemma AppliedInForce(s: State, id: string, q: Proposal)
    requires SettingsInForce(s) && Normalize(q.category, q.parameter) == Some(q.parameter)
    ensures SettingsInForce(Applied(s, id, q))
  {}

  lemma AppliedKeepsInv(s: State, id: string, q: Proposal)
    requires Inv(s) && id in s.proposals && s.proposals[id].status.Active? && q.proposer == s.proposals[id].proposer
    requires ProposalOk(q.(status := Executed)) && !q.category.General?
    ensures Inv(Applied(s, id, q))
  {
    AppliedMatches(s, id, q);
    AppliedInForce(s, id, q);
    ReplaceKeepsFew(s, id, q.(status := Executed));
  }

  // ------------------------------------------------------------------- steps

  datatype Event =
    | Propose(id: string, draft: Draft, balance: int, now: real)
    | Ballot(id: string, voter: Address, yes: Option<bool>, weight: int, now: real)
    | Withdraw(id: string, proposer: Address)
    | Tick(now: real)
    | Retargeted(difficulty: int)

  function Step(r: Rules, s: State, e: Event): State
    requires Sound(s)
  {
    match e
    case Propose(id, draft, balance, now) => Create(r, s, id, draft, balance, now).0
    case Ballot(id, voter, yes, weight, now) => CastVote(s, id, voter, yes, weight, now).0
    case Withdraw(id, proposer) => Cancel(s, id, proposer)
    case Tick(now) => Expire(s, now)
    case Retargeted(difficulty) => s.(difficulty := difficulty)
  }

  /** Proposals are filed under digests that have not occurred before. */
  predicate FreshId(s: State, e: Event) {
    e.Propose? ==> e.id !in s.proposals
  }

  lemma AddedKeepsFew(s: State, id: string, q: Proposal)
    requires FewActive(s) && id !in s.proposals && |ActiveOf(s.proposals, q.proposer)| < 3
    ensures FewActive(s.(proposals := s.proposals[id := q]))
  {
    var t := s.(proposals := s.proposals[id := q]);
    forall proposer ensures |ActiveOf(t.proposals, proposer)| <= 3 {
      assert |ActiveOf(s.proposals, proposer)| <= 3;
      if proposer == q.proposer {
        assert ActiveOf(t.proposals, proposer) <= ActiveOf(s.proposals, proposer) + {id};
        AtMostOneMore(ActiveOf(t.proposals, proposer), ActiveOf(s.proposals, proposer), id);
      } else {
        FewerActive(s, t, proposer);
      }
    }
  }

  lemma AtMostOneMore(a: set<string>, b: set<string>, x: string)
    requires a <= b + {x}
    ensures |a| <= |b| + 1
  {
    assert a + ((b + {x}) - a) == b + {x};
  }

  lemma AddedKeepsInv(s: State, id: string, q: Proposal)
    requires Inv(s) && id !in s.proposals && |ActiveOf(s.proposals, q.proposer)| < 3
    requires ProposalOk(q) && q.status.Active?
    ensures Inv(s.(proposals := s.proposals[id := q]))
  {
    AddedKeepsFew(s, id, q);
    AddedKeepsChanges(s, id, q);
  }

  lemma AddedKeepsChanges(s: State, id: string, q: Proposal)
    requires ChangesMatch(s) && id !in s.proposals && !ChangesSetting(q)
    ensures ChangesMatch(s.(proposals := s.proposals[id := q]))
  {
    var t := s.(proposals := s.proposals[id := q]);
    forall i | 0 <= i < |t.ruleChanges| ensures Recorded(t, i) {
      assert Recorded(s, i);
    }
  }

  lemma NewProposalOk(r: Rules, proposer: Address, category: Category, v: Parameter, now: real)
    requires Normalize(category, v).Some?
    ensures ProposalOk(NewProposal(r, proposer, category, v, now))
  {}

  lemma ProposeKeepsInv(r: Rules, s: State, e: Event)
    requires Inv(s) && e.Propose? && FreshId(s, e)
    ensures Inv(Create(r, s, e.id, e.draft, e.balance, e.now).0)
  {
    if CreateAnswerOf(s, e.draft, e.balance).Created? {
      NewProposalOk(r, e.draft.proposer, e.draft.category.value, e.draft.v, e.now);
      AddedKeepsInv(s, e.id, NewProposal(r, e.draft.proposer, e.draft.category.value, e.draft.v, e.now));
    }
  }

  lemma CountedVoteKeepsInv(s: State, id: string, voter: Address, yes: bool, weight: int)
    requires Inv(s) && id in s.proposals && s.proposals[id].status.Active? && voter !in s.proposals[id].votes
             && weight > 0
    ensures var q := WithVote(s.proposals[id], voter, yes, weight);
            q.yesWeight + q.noWeight > 0 && Inv(Check(s.(proposals := s.proposals[id := q]), id))
  {
    var p := s.proposals[id];
    var q := WithVote(p, voter, yes, weight);
    assert ProposalOk(p);
    VoteKeepsSums(p.votes, p.yesWeight, p.noWeight, voter, Vote(yes, weight));
    QuorumDecides(q);
    match OutcomeOf(q)
    case Undecided => ReplaceKeepsInv(s, id, q);
    case Fails => RejectedKeepsInv(s, id, q);
    case Passes => PassedKeepsInv(s, id, q);
  }

  lemma FailingRejects(s: State, id: string, q: Proposal)
    requires q.status.Active? && q.yesWeight + q.noWeight > 0 && OutcomeOf(q).Fails?
    ensures Check(s.(proposals := s.proposals[id := q]), id) ==
              s.(proposals := s.proposals[id := q.(status := Rejected)])
  {}

  lemma RejectedKeepsInv(s: State, id: string, q: Proposal)
    requires Inv(s) && id in s.proposals && s.proposals[id].status.Active? && q.proposer == s.proposals[id].proposer
    requires Tallied(q) && SumsVotes(q) && Normalize(q.category, q.parameter) == Some(q.parameter)
    requires q.status.Active? && q.yesWeight + q.noWeight > 0 && OutcomeOf(q).Fails?
    ensures Inv(Check(s.(proposals := s.proposals[id := q]), id))
  {
    ReplaceKeepsInv(s, id, q.(status := Rejected));
    FailingRejects(s, id, q);
  }

  /** A passed proposal is executed at once, with the value that was voted on. */
  lemma PassingExecutes(s: State, id: string, q: Proposal)
    requires id in s.proposals && q.status.Active? && q.yesWeight + q.noWeight > 0 && OutcomeOf(q).Passes?
    requires Normalize(q.category, q.parameter) == Some(q.parameter)
    ensures Check(s.(proposals := s.proposals[id := q]), id) ==
            if q.category.General?
            then s.(proposals := s.proposals[id := q.(status := Executed)])
            else Applied(s, id, q)
  {}

  lemma PassedKeepsInv(s: State, id: string, q: Proposal)
    requires Inv(s) && id in s.proposals && s.proposals[id].status.Active? && q.proposer == s.proposals[id].proposer
    requires Tallied(q) && SumsVotes(q) && Normalize(q.category, q.parameter) == Some(q.parameter)
    requires q.status.Active? && q.yesWeight + q.noWeight > 0 && OutcomeOf(q).Passes?
    ensures Inv(Check(s.(proposals := s.proposals[id := q]), id))
  {
    PassingExecutes(s, id, q);
    if q.category.General? {
      ReplaceKeepsInv(s, id, q.(status := Executed));
    } else {
      AppliedKeepsInv(s, id, q);
    }
  }

  lemma BallotKeepsInv(s: State, e: Event)
    requires Inv(s) && Sound(s) && e.Ballot?
    ensures Inv(CastVote(s, e.id, e.voter, e.yes, e.weight, e.now).0)
  {
    var answer := VoteAnswerOf(s, e.id, e.voter, e.yes, e.weight, e.now);
    if answer.Voted? {
      CountedVoteKeepsInv(s, e.id, e.voter, e.yes.value, e.weight);
    } else if answer.DeadlinePassed? {
      ReplaceKeepsInv(s, e.id, s.proposals[e.id].(status := Expired));
    }
  }

  lemma TickKeepsChanges(s: State, now: real)
    requires ChangesMatch(s)
    ensures ChangesMatch(Expire(s, now))
  {
    var t := Expire(s, now);
    forall i | 0 <= i < |t.ruleChanges| ensures Recorded(t, i) {
      assert Recorded(s, i);
    }
  }

  lemma TickKeepsFew(s: State, now: real)
    requires FewActive(s)
    ensures FewActive(Expire(s, now))
  {
    forall proposer ensures |ActiveOf(Expire(s, now).proposals, proposer)| <= 3 {
      assert |ActiveOf(s.proposals, proposer)| <= 3;
      FewerActive(s, Expire(s, now), proposer);
    }
  }

  lemma TickKeepsInv(s: State, now: real)
    requires Inv(s)
    ensures Inv(Expire(s, now))
  {
    TickKeepsChanges(s, now);
    TickKeepsFew(s, now);
    forall id | id in s.proposals ensures ProposalOk(Expire(s, now).proposals[id]) {
      assert ProposalOk(s.proposals[id]);
    }
  }

  lemma StepKeepsInv(r: Rules, s: State, e: Event)
    requires Inv(s) && FreshId(s, e)
    ensures Sound(s) && Inv(Step(r, s, e)) && Sound(Step(r, s, e))
  {
    InvIsSound(s);
    match e
    case Propose(_, _, _, _) => ProposeKeepsInv(r, s, e);
    case Ballot(_, _, _, _, _) => BallotKeepsInv(s, e);
    case Withdraw(id, proposer) =>
      if Cancellable(s, id, proposer) { ReplaceKeepsInv(s, id, s.proposals[id].(status := Cancelled)); }
    case Tick(now) => TickKeepsInv(s, now);
    case Retargeted(difficulty) => RetargetKeepsInv(s, difficulty);
    InvIsSound(Step(r, s, e));
  }

  lemma RetargetKeepsInv(s: State, difficulty: int)
    requires Inv(s)
    ensures Inv(s.(difficulty := difficulty))
  {
    var t := s.(difficulty := difficulty);
    forall i | 0 <= i < |t.ruleChanges| ensures Recorded(t, i) {
      assert Recorded(s, i);
    }
  }

  // -------------------------------------------------------------------- runs

  predicate Closed(q: Proposal) {
    !q.status.Active? && !q.status.PassedPendingExecution?
  }

  lemma CheckTouchesOne(s: State, id: string, k: string)
    requires id in s.proposals && s.proposals[id].yesWeight + s.proposals[id].noWeight != 0 && k in s.proposals
    ensures k in Check(s, id).proposals && Check(s, id).proposals[k].votes == s.proposals[k].votes
    ensures Check(s, id).proposals[k].quorum == s.proposals[k].quorum
    ensures k != id ==> Check(s, id).proposals[k] == s.proposals[k]
  {}

  lemma VoteMovesOn(s: State, id: string, voter: Address, yes: Option<bool>, weight: int, now: real, k: string)
    requires Sound(s) && k in s.proposals
    ensures var t := CastVote(s, id, voter, yes, weight, now).0;
            && k in t.proposals && t.proposals[k].quorum == s.proposals[k].quorum
            && (Closed(s.proposals[k]) ==> t.proposals[k] == s.proposals[k])
            && forall a :: a in s.proposals[k].votes ==>
                 a in t.proposals[k].votes && t.proposals[k].votes[a] == s.proposals[k].votes[a]
  {
    if VoteAnswerOf(s, id, voter, yes, weight, now).Voted? {
      var q := WithVote(s.proposals[id], voter, yes.value, weight);
      assert Tallied(s.proposals[id]);
      CheckTouchesOne(s.(proposals := s.proposals[id := q]), id, k);
    }
  }

  /** A closed proposal is never touched again, and a recorded vote is never changed. */
  lemma ProposalsOnlyMoveOn(r: Rules, s: State, e: Event, id: string)
    requires Sound(s) && FreshId(s, e) && id in s.proposals
    ensures id in Step(r, s, e).proposals && Step(r, s, e).proposals[id].quorum == s.proposals[id].quorum
    ensures Closed(s.proposals[id]) ==> Step(r, s, e).proposals[id] == s.proposals[id]
    ensures forall a :: a in s.proposals[id].votes ==>
              a in Step(r, s, e).proposals[id].votes && Step(r, s, e).proposals[id].votes[a] == s.proposals[id].votes[a]
  {
    if e.Ballot? {
      VoteMovesOn(s, e.id, e.voter, e.yes, e.weight, e.now, id);
    }
  }

  predicate Runs(r: Rules, s: State, events: seq<Event>)
    requires Sound(s)
    decreases |events|
  {
    events == [] || (FreshId(s, events[0]) && Sound(Step(r, s, events[0]))
                     && Runs(r, Step(r, s, events[0]), events[1..]))
  }

  function After(r: Rules, s: State, events: seq<Event>): State
    requires Sound(s) && Runs(r, s, events)
    decreases |events|
  {
    if events == [] then s else After(r, Step(r, s, events[0]), events[1..])
  }

  lemma {:induction false} RunKeepsInv(r: Rules, s: State, events: seq<Event>)
    requires Inv(s) && Sound(s) && Runs(r, s, events)
    ensures Inv(After(r, s, events))
    decreases |events|
  {
    if events != [] {
      StepKeepsInv(r, s, events[0]);
      RunKeepsInv(r, Step(r, s, events[0]), events[1..]);
    }
  }

  /** Every proposal was filed under the quorum in force. */
  predicate QuorumsRecorded(r: Rules, s: State) {
    forall id :: id in s.proposals ==> s.proposals[id].quorum == r.quorum
  }

  /** Filing a proposal is the only way one can appear. */
  lemma StepAddsOnly(r: Rules, s: State, e: Event, id: string)
    requires Sound(s) && id in Step(r, s, e).proposals && id !in s.proposals
    ensures e.Propose? && id == e.id && Step(r, s, e).proposals[id].quorum == r.quorum
  {}

  lemma {:induction false} RunKeepsQuorums(r: Rules, s: State, events: seq<Event>)
    requires Sound(s) && Runs(r, s, events) && QuorumsRecorded(r, s)
    ensures QuorumsRecorded(r, After(r, s, events))
    decreases |events|
  {
    if events != [] {
      var t := Step(r, s, events[0]);
      forall id | id in t.proposals ensures t.proposals[id].quorum == r.quorum {
        if id in s.proposals {
          ProposalsOnlyMoveOn(r, s, events[0], id);
        } else {
          StepAddsOnly(r, s, events[0], id);
        }
      }
      RunKeepsQuorums(r, t, events[1..]);
    }
  }

  lemma {:induction false} ClosedForEver(r: Rules, s: State, events: seq<Event>, id: string)
    requires Sound(s) && Runs(r, s, events) && id in s.proposals && Closed(s.proposals[id])
    ensures id in After(r, s, events).proposals && After(r, s, events).proposals[id] == s.proposals[id]
    decreases |events|
  {
    if events != [] {
      ProposalsOnlyMoveOn(r, s, events[0], id);
      ClosedForEver(r, Step(r, s, events[0]), events[1..], id);
    }
  }

  function Initial(current: map<Category, Parameter>, miningReward: real, difficulty: int): State {
    State(map[], [], current, miningReward, difficulty)
  }

  lemma InitialInv(current: map<Category, Parameter>, miningReward: real, difficulty: int)
    ensures Inv(Initial(current, miningReward, difficulty)) && Sound(Initial(current, miningReward, difficulty))
  {}

  /** An active proposal in order is below a positive quorum, with votes or without. */
  lemma ActiveIsBelowQuorum(q: Proposal)
    requires ProposalOk(q) && q.status.Active? && q.quorum > 0
    ensures q.yesWeight + q.noWeight < q.quorum
  {
    if q.votes == map[] {
      assert Weights(q.votes, true) == map[] && Weights(q.votes, false) == map[];
    }
  }

  /** Over every run: totals are the sums of one vote per address, every active proposal is short
      of a positive quorum (of any quorum, once someone has voted), and a proposal that passed is
      executed, never left waiting. */
  lemma {:induction false} DecidedAtQuorum(r: Rules, start: State, events: seq<Event>, id: string)
    requires start == Initial(start.current, start.miningReward, start.difficulty)
    requires Sound(start) && Runs(r, start, events) && id in After(r, start, events).proposals
    ensures var q := After(r, start, events).proposals[id];
            && q.yesWeight == Total(Weights(q.votes, true)) && q.noWeight == Total(Weights(q.votes, false))
            && q.quorum == r.quorum
            && (q.status.Active? && r.quorum > 0 ==> q.yesWeight + q.noWeight < r.quorum)
            && (q.status.Active? && q.votes != map[] ==> q.yesWeight + q.noWeight < r.quorum)
            && !q.status.PassedPendingExecution?
  {
    InitialInv(start.current, start.miningReward, start.difficulty);
    RunKeepsInv(r, start, events);
    RunKeepsQuorums(r, start, events);
    var q := After(r, start, events).proposals[id];
    assert ProposalOk(q);
    if q.status.Active? && q.quorum > 0 {
      ActiveIsBelowQuorum(q);
    }
  }

  /** No later rule change is about the same setting. */
  predicate Newest(changes: seq<RuleChange>, i: nat)
    requires i < |changes|
  {
    forall j :: i < j < |changes| ==> changes[j].category != changes[i].category
  }

  lemma {:induction false} NewestIsLast(changes: seq<RuleChange>, i: nat)
    requires i < |changes| && Newest(changes, i)
    ensures LastChange(changes, changes[i].category) == Some(changes[i].newValue)
    decreases |changes|
  {
    if i < |changes| - 1 {
      NewestIsLast(changes[..|changes| - 1], i);
    }
  }

  lemma {:induction false} NoChange(changes: seq<RuleChange>, category: Category)
    requires forall i :: 0 <= i < |changes| ==> changes[i].category != category
    ensures LastChange(changes, category).None?
    decreases |changes|
  {
    if changes != [] {
      NoChange(changes[..|changes| - 1], category);
    }
  }

  /** Each rule change carries the value of one executed proposal of its own, and the newest of
      each category is in force. */
  predicate ChangeOk(s: State, i: nat)
    requires i < |s.ruleChanges|
  {
    var c := s.ruleChanges[i];
    && c.proposalId in s.proposals && s.proposals[c.proposalId].status.Executed?
    && c.newValue == s.proposals[c.proposalId].parameter
    && (forall j :: 0 <= j < |s.ruleChanges| && j != i ==> s.ruleChanges[j].proposalId != c.proposalId)
    && (Newest(s.ruleChanges, i) ==> c.category in s.current && s.current[c.category] == c.newValue)
    && (Newest(s.ruleChanges, i) && c.category.MiningReward? ==> c.newValue == Number(s.miningReward))
  }

  lemma InvChangeOk(s: State, i: nat)
    requires Inv(s) && i < |s.ruleChanges|
    ensures ChangeOk(s, i)
  {
    assert Recorded(s, i);
    if Newest(s.ruleChanges, i) {
      NewestIsLast(s.ruleChanges, i);
    }
  }

  /** What a category's setting is; the mining reward has a second copy, on the chain. */
  predicate SameSetting(s: State, t: State, category: Category) {
    && (category in s.current <==> category in t.current)
    && (category in s.current ==> s.current[category] == t.current[category])
    && (category.MiningReward? ==> s.miningReward == t.miningReward)
  }

  lemma {:induction false} StepChangesOnlyVoted(r: Rules, s: State, e: Event, category: Category)
    requires Sound(s)
    ensures s.ruleChanges <= Step(r, s, e).ruleChanges
    ensures LastChange(Step(r, s, e).ruleChanges, category).None? ==> SameSetting(s, Step(r, s, e), category)
  {}

  lemma {:induction false} LastChangePrefix(changes: seq<RuleChange>, longer: seq<RuleChange>, category: Category)
    requires changes <= longer && LastChange(longer, category).None?
    ensures LastChange(changes, category).None?
    decreases |longer|
  {
    if |changes| < |longer| {
      LastChangePrefix(changes, longer[..|longer| - 1], category);
    } else {
      assert changes == longer;
    }
  }

  lemma {:induction false} RunChangesOnlyVoted(r: Rules, s: State, events: seq<Event>, category: Category)
    requires Sound(s) && Runs(r, s, events)
    ensures s.ruleChanges <= After(r, s, events).ruleChanges
    ensures LastChange(After(r, s, events).ruleChanges, category).None? ==>
              SameSetting(s, After(r, s, events), category)
    decreases |events|
  {
    if events != [] {
      var next := Step(r, s, events[0]);
      StepChangesOnlyVoted(r, s, events[0], category);
      RunChangesOnlyVoted(r, next, events[1..], category);
      var end := After(r, s, events);
      if LastChange(end.ruleChanges, category).None? {
        LastChangePrefix(next.ruleChanges, end.ruleChanges, category);
      }
    }
  }

  /** Over every run, what was voted last on each setting is in force, and a setting that was never
      voted on is as it was. */
  lemma {:induction false} VotedValuesAreInForce(r: Rules, start: State, events: seq<Event>)
    requires start == Initial(start.current, start.miningReward, start.difficulty)
    requires Sound(start) && Runs(r, start, events)
    ensures var end := After(r, start, events);
            && (forall i :: 0 <= i < |end.ruleChanges| ==> ChangeOk(end, i))
            && (forall c: Category :: (forall i :: 0 <= i < |end.ruleChanges| ==> end.ruleChanges[i].category != c) ==>
                  SameSetting(start, end, c))
  {
    InitialInv(start.current, start.miningReward, start.difficulty);
    RunKeepsInv(r, start, events);
    var end := After(r, start, events);
    forall i | 0 <= i < |end.ruleChanges| ensures ChangeOk(end, i) {
      InvChangeOk(end, i);
    }
    forall c: Category | forall i :: 0 <= i < |end.ruleChanges| ==> end.ruleChanges[i].category != c
      ensures SameSetting(start, end, c)
    {
      NoChange(end.ruleChanges, c);
      RunChangesOnlyVoted(r, start, events, c);
    }
  }

  /** Strictly below the quorum from the moment it is filed: exactly when the quorum is positive. */
  lemma OpenFromTheStartExactly(r: Rules, proposer: Address, category: Category, v: Parameter, now: real)
    requires Normalize(category, v).Some?
    ensures var q := NewProposal(r, proposer, category, v, now);
            q.yesWeight + q.noWeight < q.quorum <==> r.quorum > 0
  {}

  // --------------------------------------------------- ballots and settings

  /** The ballot counts: on an active proposal before its deadline, for a word that is a vote, by a
      holder who has not voted on it yet. */
  predicate Counts(s: State, e: Event, id: string) {
    && e.Ballot? && e.id == id && id in s.proposals
    && s.proposals[id].status.Active? && e.now < s.proposals[id].deadline
    && e.yes.Some? && e.weight > 0 && e.voter !in s.proposals[id].votes
  }

  function WeightWith(weight: int, more: bool, e: Event): int
    requires e.Ballot?
  {
    if more then weight + e.weight else weight
  }

  /** With this ballot the quorum is reached, and of it the share that passes. */
  predicate Reaches(q: Proposal, e: Event)
    requires e.Ballot?
  {
    q.yesWeight + q.noWeight + e.weight >= q.quorum
  }

  predicate Carries(q: Proposal, e: Event)
    requires e.Ballot? && e.yes.Some?
  {
    WeightWith(q.yesWeight, e.yes.value, e) as real >= q.threshold * (q.yesWeight + q.noWeight + e.weight) as real
  }

  /** What a counted ballot makes of its proposal: the vote is recorded with its side and weight, the
      side's total grows by it, and the proposal is decided once the quorum is reached. */
  predicate AfterBallot(q: Proposal, e: Event, after: Proposal)
    requires e.Ballot? && e.yes.Some?
  {
    && after.votes == q.votes[e.voter := Vote(e.yes.value, e.weight)]
    && after.yesWeight == WeightWith(q.yesWeight, e.yes.value, e)
    && after.noWeight == WeightWith(q.noWeight, !e.yes.value, e)
    && after.status == (if !Reaches(q, e) then Active else if Carries(q, e) then Executed else Rejected)
    && after == q.(votes := after.votes, yesWeight := after.yesWeight, noWeight := after.noWeight,
                   status := after.status)
  }

  /** Its deadline has come: the clock ticks, or somebody tries to vote. */
  predicate TimesOut(q: Proposal, e: Event, id: string) {
    && q.status.Active?
    && ((e.Tick? && e.now >= q.deadline) || (e.Ballot? && e.id == id && e.now >= q.deadline))
  }

  predicate Retracts(q: Proposal, e: Event, id: string) {
    q.status.Active? && q.votes == map[] && e.Withdraw? && e.id == id && e.proposer == q.proposer
  }

  lemma BallotDecides(q: Proposal, e: Event)
    requires Tallied(q) && e.Ballot? && e.yes.Some? && e.weight > 0
    ensures var with := WithVote(q, e.voter, e.yes.value, e.weight);
            OutcomeOf(with) == if !Reaches(q, e) then Undecided else if Carries(q, e) then Passes else Fails
  {
    var with := WithVote(q, e.voter, e.yes.value, e.weight);
    var total := (with.yesWeight + with.noWeight) as real;
    Share(with.yesWeight as real, total, q.threshold);
    QuorumDecides(with);
  }

  lemma BallotMoves(s: State, e: Event, id: string)
    requires Inv(s) && Sound(s) && Counts(s, e, id)
    ensures var t := CastVote(s, e.id, e.voter, e.yes, e.weight, e.now).0;
            id in t.proposals && AfterBallot(s.proposals[id], e, t.proposals[id])
  {
    var q := s.proposals[id];
    var with := WithVote(q, e.voter, e.yes.value, e.weight);
    assert ProposalOk(q);
    BallotDecides(q, e);
    match OutcomeOf(with)
    case Undecided =>
    case Fails => FailingRejects(s, id, with);
    case Passes => PassingExecutes(s, id, with);
  }

  /** A ballot that does not count on a proposal can only find it out of time. */
  lemma BallotLeaves(s: State, e: Event, id: string)
    requires Sound(s) && e.Ballot? && id in s.proposals && !Counts(s, e, id)
    ensures var t := CastVote(s, e.id, e.voter, e.yes, e.weight, e.now).0;
            id in t.proposals &&
            t.proposals[id] == if TimesOut(s.proposals[id], e, id) then s.proposals[id].(status := Expired)
                               else s.proposals[id]
  {
    if Counts(s, e, e.id) {
      assert Tallied(s.proposals[e.id]);
      var with := WithVote(s.proposals[e.id], e.voter, e.yes.value, e.weight);
      CheckTouchesOne(s.(proposals := s.proposals[e.id := with]), e.id, id);
    }
  }

  /** What any event makes of any proposal, in the proposal's own fields. */
  lemma MovesExactly(r: Rules, s: State, e: Event, id: string)
    requires Inv(s) && Sound(s) && FreshId(s, e) && id in s.proposals
    ensures id in Step(r, s, e).proposals
    ensures var q, after := s.proposals[id], Step(r, s, e).proposals[id];
            if Counts(s, e, id) then AfterBallot(q, e, after)
            else if TimesOut(q, e, id) then after == q.(status := Expired)
            else if Retracts(q, e, id) then after == q.(status := Cancelled)
            else after == q
  {
    if Counts(s, e, id) {
      BallotMoves(s, e, id);
    } else if e.Ballot? {
      BallotLeaves(s, e, id);
    }
  }

  /** A proposal is filed exactly when its texts fit, its category is known, its proposer holds
      something and has fewer than three active, and its value is allowed; and as it was drafted. */
  lemma FiledExactly(r: Rules, s: State, e: Event)
    requires Sound(s) && e.Propose? && FreshId(s, e)
    ensures var d, t := e.draft, Step(r, s, e);
            var active := set k | k in s.proposals && s.proposals[k].proposer == d.proposer
                                  && s.proposals[k].status == Active;
            && (e.id in t.proposals <==>
                && 0 < |d.proposer| <= 160 && 0 < |d.title| <= 160 && 0 < |d.description| <= 3000
                && d.category.Some? && e.balance > 0
                && |active| < 3
                && Normalize(d.category.value, d.v).Some?)
            && (e.id in t.proposals ==>
                t == s.(proposals := s.proposals[e.id := t.proposals[e.id]])
                && t.proposals[e.id] ==
                     Proposal(d.proposer, d.category.value, Normalize(d.category.value, d.v).value,
                              e.now + r.votingPeriod, Active, map[], 0, 0, r.quorum, r.threshold))
            && (e.id !in t.proposals ==> t == s)
  {
    assert ActiveOf(s.proposals, e.draft.proposer) ==
             set k | k in s.proposals && s.proposals[k].proposer == e.draft.proposer && s.proposals[k].status == Active;
  }

  /** A refusal names the first check that fails. */
  lemma FilingRefusedFor(s: State, d: Draft, balance: int)
    ensures var answer := CreateAnswerOf(s, d, balance);
            var formed := 0 < |d.proposer| <= 160 && 0 < |d.title| <= 160 && 0 < |d.description| <= 3000;
            && (answer.Malformed? <==> !formed)
            && (answer.InvalidCategory? <==> formed && d.category.None?)
            && (answer.NotHolder? <==> formed && d.category.Some? && balance <= 0)
            && (answer.TooManyActive? ==> balance > 0 && |ActiveOf(s.proposals, d.proposer)| >= 3)
            && (answer.BadParameter? ==> balance > 0 && d.category.Some? && Normalize(d.category.value, d.v).None?)
  {}

  lemma VoteRefusedFor(s: State, id: string, voter: Address, yes: Option<bool>, weight: int, now: real)
    ensures var answer := VoteAnswerOf(s, id, voter, yes, weight, now);
            var active := id in s.proposals && s.proposals[id].status == Active;
            && (answer.NoSuchProposal? <==> id !in s.proposals)
            && (answer.NotActive? <==> id in s.proposals && !active)
            && (answer.DeadlinePassed? <==> active && now >= s.proposals[id].deadline)
            && (answer.BadVote? <==> active && now < s.proposals[id].deadline && yes == None)
            && (answer.AlreadyVoted? ==> active && yes != None && voter in s.proposals[id].votes)
            && (answer.NoBalance? ==> active && yes != None && voter !in s.proposals[id].votes && weight <= 0)
  {}

  /** The numbers a proposal may carry; an interest above one is a percentage. */
  lemma AllowedNumbers(v: Parameter)
    ensures Normalize(MiningReward, v) ==
            if AsNumber(v).Some? && 0.0 < AsNumber(v).value <= 1000.0
            then Some(Number(AsNumber(v).value)) else None
    ensures Normalize(LoanLimit, v) ==
            if AsNumber(v).Some? && 0.0 < AsNumber(v).value <= 1_000_000.0
            then Some(Number(AsNumber(v).value)) else None
    ensures Normalize(LoanInterest, v).Some? <==> AsNumber(v).Some? && 0.0 <= AsNumber(v).value <= 100.0
    ensures forall x :: 1.0 < x <= 100.0 ==> Normalize(LoanInterest, Number(x)) == Some(Number(x / 100.0))
    ensures forall x :: 0.0 <= x <= 1.0 ==> Normalize(LoanInterest, Number(x)) == Some(Number(x))
  {}

  /** The whole numbers, cut off toward zero, and the texts. */
  lemma AllowedWholes(v: Parameter)
    ensures Normalize(Difficulty, v) ==
              if AsWhole(v).Some? && 2 <= AsWhole(v).value <= 8 then Some(Whole(AsWhole(v).value)) else None
    ensures Normalize(ExchangeLimit, v) ==
              if AsWhole(v).Some? && 1 <= AsWhole(v).value <= 1000 then Some(Whole(AsWhole(v).value)) else None
    ensures Normalize(General, v) == if v.Text? ==> 0 < |v.s| <= 500 then Some(v) else None
    ensures v.Number? && v.x >= 0.0 ==>
              AsWhole(v).Some? && AsWhole(v).value as real <= v.x < AsWhole(v).value as real + 1.0
    ensures v.Number? && v.x < 0.0 ==>
              AsWhole(v).Some? && AsWhole(v).value as real - 1.0 < v.x <= AsWhole(v).value as real
  {}

  /** The ballot that puts a setting in force. */
  predicate Enacts(s: State, e: Event) {
    && e.Ballot? && Counts(s, e, e.id) && Reaches(s.proposals[e.id], e) && Carries(s.proposals[e.id], e)
    && !s.proposals[e.id].category.General?
  }

  /** What is in force before a change. */
  predicate WasInForce(s: State, category: Category, v: Parameter) {
    match category
    case MiningReward => v == Number(s.miningReward)
    case Difficulty => v == Whole(s.difficulty)
    case _ => v == if category in s.current then s.current[category] else Text("advisory")
  }

  /** Settings change with the ballot that carries a proposal, to the value that was proposed, and the
      chain's own two fields with them; the difficulty otherwise only with a retarget. */
  lemma SettingsMoveExactly(r: Rules, s: State, e: Event)
    requires Inv(s) && Sound(s) && FreshId(s, e)
    ensures var t := Step(r, s, e);
            if Enacts(s, e) then
              var category, v := s.proposals[e.id].category, s.proposals[e.id].parameter;
              && t.current == s.current[category := v]
              && |t.ruleChanges| == |s.ruleChanges| + 1 && s.ruleChanges < t.ruleChanges
              && (var c := t.ruleChanges[|s.ruleChanges|];
                  c == RuleChange(e.id, category, c.oldValue, v) && WasInForce(s, category, c.oldValue))
              && (category.MiningReward? ==> v == Number(t.miningReward))
              && (!category.MiningReward? ==> t.miningReward == s.miningReward)
              && (category.Difficulty? ==> v == Whole(t.difficulty))
              && (!category.Difficulty? ==> t.difficulty == s.difficulty)
            else
              && t.current == s.current && t.ruleChanges == s.ruleChanges && t.miningReward == s.miningReward
              && t.difficulty == if e.Retargeted? then e.difficulty else s.difficulty
  {
    if e.Ballot? && Counts(s, e, e.id) {
      SettingsAfterBallot(s, e);
    }
  }

  lemma SettingsAfterBallot(s: State, e: Event)
    requires Inv(s) && Sound(s) && e.Ballot? && Counts(s, e, e.id)
    ensures var q := s.proposals[e.id];
            var with := WithVote(q, e.voter, e.yes.value, e.weight);
            var t := CastVote(s, e.id, e.voter, e.yes, e.weight, e.now).0;
            && ProposalOk(q)
            && if Enacts(s, e) then t == Applied(s, e.id, with) else t == s.(proposals := t.proposals)
  {
    var q := s.proposals[e.id];
    var with := WithVote(q, e.voter, e.yes.value, e.weight);
    assert ProposalOk(q);
    BallotDecides(q, e);
    match OutcomeOf(with)
    case Undecided =>
    case Fails => FailingRejects(s, e.id, with);
    case Passes => PassingExecutes(s, e.id, with);
  }

  /** The vote of the first ballot of this address that counts on this proposal. */
  function BallotOf(r: Rules, s: State, events: seq<Event>, id: string, voter: Address): Option<Vote>
    requires Sound(s) && Runs(r, s, events)
    decreases |events|
  {
    if events == [] then None
    else if Counts(s, events[0], id) && events[0].voter == voter
    then Some(Vote(events[0].yes.value, events[0].weight))
    else BallotOf(r, Step(r, s, events[0]), events[1..], id, voter)
  }

  /** How many of its ballots count. */
  function BallotsOf(r: Rules, s: State, events: seq<Event>, id: string, voter: Address): nat
    requires Sound(s) && Runs(r, s, events)
    decreases |events|
  {
    if events == [] then 0
    else
      (if Counts(s, events[0], id) && events[0].voter == voter then 1 else 0)
      + BallotsOf(r, Step(r, s, events[0]), events[1..], id, voter)
  }

  function EntryOf(s: State, id: string, voter: Address): Option<Vote> {
    if id in s.proposals && voter in s.proposals[id].votes then Some(s.proposals[id].votes[voter]) else None
  }

  lemma EntryAfter(r: Rules, s: State, e: Event, id: string, voter: Address)
    requires Inv(s) && Sound(s) && FreshId(s, e)
    ensures EntryOf(Step(r, s, e), id, voter) ==
            if Counts(s, e, id) && e.voter == voter then Some(Vote(e.yes.value, e.weight)) else EntryOf(s, id, voter)
    ensures Counts(s, e, id) && e.voter == voter ==> EntryOf(s, id, voter).None?
  {
    if id in s.proposals {
      MovesExactly(r, s, e, id);
    } else if id in Step(r, s, e).proposals {
      StepAddsOnly(r, s, e, id);
      FiledExactly(r, s, e);
    }
  }

  lemma {:induction false} EntriesFollowBallots(r: Rules, s: State, events: seq<Event>, id: string, voter: Address)
    requires Inv(s) && Sound(s) && Runs(r, s, events)
    ensures EntryOf(After(r, s, events), id, voter) ==
            if EntryOf(s, id, voter).Some? then EntryOf(s, id, voter) else BallotOf(r, s, events, id, voter)
    ensures BallotsOf(r, s, events, id, voter) ==
            if EntryOf(s, id, voter).None? && EntryOf(After(r, s, events), id, voter).Some? then 1 else 0
    decreases |events|
  {
    if events != [] {
      StepKeepsInv(r, s, events[0]);
      EntryAfter(r, s, events[0], id, voter);
      EntriesFollowBallots(r, Step(r, s, events[0]), events[1..], id, voter);
    }
  }

  /** Over every run: an address has an entry on a proposal exactly when a ballot of its own counted,
      with that ballot's side and weight, and then exactly one did. */
  lemma {:induction false} VotesAreTheBallots(r: Rules, start: State, events: seq<Event>, id: string, voter: Address)
    requires start == Initial(start.current, start.miningReward, start.difficulty)
    requires Sound(start) && Runs(r, start, events)
    ensures EntryOf(After(r, start, events), id, voter) == BallotOf(r, start, events, id, voter)
    ensures BallotsOf(r, start, events, id, voter) == if BallotOf(r, start, events, id, voter).Some? then 1 else 0
  {
    InitialInv(start.current, start.miningReward, start.difficulty);
    EntriesFollowBallots(r, start, events, id, voter);
  }

  /** The difficulty as the events leave it: set by each retarget and each difficulty vote in turn. */
  function DifficultyAfter(r: Rules, s: State, events: seq<Event>, difficulty: int): int
    requires Sound(s) && Runs(r, s, events)
    decreases |events|
  {
    if events == [] then difficulty
    else
      var e := events[0];
      var next := if e.Retargeted? then e.difficulty
                  else if Enacts(s, e) && s.proposals[e.id].category.Difficulty? && s.proposals[e.id].parameter.Whole?
                  then s.proposals[e.id].parameter.n
                  else difficulty;
      DifficultyAfter(r, Step(r, s, e), events[1..], next)
  }

  /** Over every run the chain works at the difficulty that was voted or retargeted last. */
  lemma {:induction false} DifficultyFollows(r: Rules, s: State, events: seq<Event>)
    requires Inv(s) && Sound(s) && Runs(r, s, events)
    ensures After(r, s, events).difficulty == DifficultyAfter(r, s, events, s.difficulty)
    decreases |events|
  {
    if events != [] {
      StepKeepsInv(r, s, events[0]);
      SettingsMoveExactly(r, s, events[0]);
      DifficultyFollows(r, Step(r, s, events[0]), events[1..]);
    }
  }

  // ------------------------------------------------------------- the objects

  /** The two fields of the blockchain that governance may write. */
  class Chain {
    var miningReward: real
    var difficulty: int

    constructor (miningReward: real, difficulty: int)
      ensures this.miningReward == miningReward && this.difficulty == difficulty
    {
      this.miningReward, this.difficulty := miningReward, difficulty;
    }
  }

  class Governance {
    const rules: Rules
    var proposals: map<string, Proposal>
    var ruleChanges: seq<RuleChange>
    var current: map<Category, Parameter>

    function Now(chain: Chain): State
      reads this, chain
    {
      State(proposals, ruleChanges, current, chain.miningReward, chain.difficulty)
    }

    constructor (rules: Rules, current: map<Category, Parameter>)
      ensures this.rules == rules
      ensures forall chain: Chain :: Now(chain) == Initial(current, chain.miningReward, chain.difficulty)
    {
      this.rules, proposals, ruleChanges, this.current := rules, map[], [], current;
    }

    method CountActive(proposer: Address) returns (count: nat)
      ensures count == |ActiveOf(proposals, proposer)|
    {
      var todo := proposals.Keys;
      ghost var active := ActiveOf(proposals, proposer);
      count := 0;
      assert active - todo == {};
      while todo != {}
        invariant todo <= proposals.Keys
        invariant count == |active - todo|
        decreases |todo|
      {
        var id :| id in todo;
        CountOne(active, todo, id);
        if proposals[id].proposer == proposer && proposals[id].status.Active? {
          count := count + 1;
        }
        todo := todo - {id};
      }
      assert active - {} == active;
    }

    static lemma CountOne(active: set<string>, todo: set<string>, id: string)
      requires id in todo
      ensures |active - (todo - {id})| == |active - todo| + (if id in active then 1 else 0)
    {
      assert active - (todo - {id}) == if id in active then (active - todo) + {id} else active - todo;
    }

    method CreateProposal(chain: Chain, id: string, d: Draft, balance: int, now: real) returns (answer: CreateAnswer)
      modifies this
      ensures (Now(chain), answer) == Create(rules, old(Now(chain)), id, d, balance, now)
    {
      if !TextOk(d.proposer, 160) || !TextOk(d.title, 160) || !TextOk(d.description, 3000) {
        return Malformed;
      }
      if d.category.None? {
        return InvalidCategory;
      }
      if balance <= 0 {
        return NotHolder;
      }
      var active := CountActive(d.proposer);
      if active >= 3 {
        return TooManyActive;
      }
      var parameter := Normalize(d.category.value, d.v);
      if parameter.None? {
        return BadParameter;
      }
      var proposal := Proposal(d.proposer, d.category.value, parameter.value, now + rules.votingPeriod, Active,
                               map[], 0, 0, rules.quorum, rules.threshold);
      proposals := proposals[id := proposal];
      return Created;
    }

    method SetStatus(id: string, status: Status)
      requires id in proposals
      modifies this`proposals
      ensures proposals == old(proposals)[id := old(proposals)[id].(status := status)]
    {
      proposals := proposals[id := proposals[id].(status := status)];
    }

    method VoteOnProposal(chain: Chain, id: string, voter: Address, yes: Option<bool>, weight: int, now: real)
      returns (answer: VoteAnswer)
      requires Inv(Now(chain)) && Sound(Now(chain))
      modifies this, chain
      ensures (Now(chain), answer) == CastVote(old(Now(chain)), id, voter, yes, weight, now)
      ensures Inv(Now(chain))
      ensures answer.Voted? <==> old(Counts(Now(chain), Ballot(id, voter, yes, weight, now), id))
      ensures answer.Voted? ==>
                id in proposals && AfterBallot(old(proposals)[id], Ballot(id, voter, yes, weight, now), proposals[id])
    {
      if Counts(Now(chain), Ballot(id, voter, yes, weight, now), id) {
        BallotMoves(Now(chain), Ballot(id, voter, yes, weight, now), id);
      }
      BallotKeepsInv(Now(chain), Ballot(id, voter, yes, weight, now));
      if id !in proposals {
        return NoSuchProposal;
      }
      if !proposals[id].status.Active? {
        return NotActive;
      }
      if now >= proposals[id].deadline {
        SetStatus(id, Expired);
        return DeadlinePassed;
      }
      if yes.None? {
        return BadVote;
      }
      if voter in proposals[id].votes {
        return AlreadyVoted;
      }
      if weight <= 0 {
        return NoBalance;
      }
      assert Tallied(proposals[id]);
      RecordVote(id, voter, yes.value, weight);
      CheckProposalOutcome(chain, id);
      return Voted;
    }

    method RecordVote(id: string, voter: Address, yes: bool, weight: int)
      requires id in proposals
      modifies this`proposals
      ensures proposals == old(proposals)[id := WithVote(old(proposals)[id], voter, yes, weight)]
    {
      var q := proposals[id];
      q := q.(votes := q.votes[voter := Vote(yes, weight)]);
      if yes {
        q := q.(yesWeight := q.yesWeight + weight);
      } else {
        q := q.(noWeight := q.noWeight + weight);
      }
      proposals := proposals[id := q];
    }

    method CheckProposalOutcome(chain: Chain, id: string)
      requires id in proposals && proposals[id].yesWeight + proposals[id].noWeight != 0
      modifies this, chain
      ensures Now(chain) == Check(old(Now(chain)), id)
    {
      var q := proposals[id];
      if !q.status.Active? {
        return;
      }
      var total := q.yesWeight + q.noWeight;
      if total < q.quorum {
        return;
      }
      var yesRatio, noRatio := q.yesWeight as real / total as real, q.noWeight as real / total as real;
      if yesRatio >= q.threshold {
        SetStatus(id, PassedPendingExecution);
        ExecuteProposal(chain, id);
        return;
      }
      if noRatio > 1.0 - q.threshold {
        SetStatus(id, Rejected);
      }
    }

    method ExecuteProposal(chain: Chain, id: string)
      requires id in proposals
      modifies this, chain
      ensures Now(chain) == Execute(old(Now(chain)), id)
    {
      var q := proposals[id];
      if !q.status.PassedPendingExecution? {
        return;
      }
      if q.category.General? {
        SetStatus(id, Executed);
        return;
      }
      var oldValue, newValue := CurrentValue(Now(chain), q.category), Normalize(q.category, q.parameter);
      if newValue.None? {
        return;
      }
      if q.category.MiningReward? && newValue.value.Number? {
        chain.miningReward := newValue.value.x;
      } else if q.category.Difficulty? && newValue.value.Whole? {
        chain.difficulty := newValue.value.n;
      }
      current := current[q.category := newValue.value];
      ruleChanges := ruleChanges + [RuleChange(id, q.category, oldValue, newValue.value)];
      SetStatus(id, Executed);
    }

    method CancelProposal(chain: Chain, id: string, proposer: Address) returns (ok: bool)
      modifies this
      ensures Now(chain) == Cancel(old(Now(chain)), id, proposer) && ok == Cancellable(old(Now(chain)), id, proposer)
    {
      if id !in proposals || proposals[id].proposer != proposer || !proposals[id].status.Active?
          || proposals[id].votes != map[] {
        return false;
      }
      SetStatus(id, Cancelled);
      return true;
    }

    method ExpireProposals(chain: Chain, now: real) returns (changed: bool)
      modifies this
      ensures Now(chain) == Expire(old(Now(chain)), now)
      ensures changed <==> Now(chain) != old(Now(chain))
    {
      changed := false;
      var todo := proposals.Keys;
      while todo != {}
        invariant todo <= proposals.Keys == old(proposals).Keys
        invariant unchanged(this`ruleChanges, this`current) && unchanged(chain)
        invariant forall id :: id in todo ==> proposals[id] == old(proposals)[id]
        invariant forall id :: id in proposals && id !in todo ==> proposals[id] == Aged(old(proposals)[id], now)
        invariant changed ==> exists id :: id in proposals && proposals[id] != old(proposals)[id]
        invariant !changed ==> proposals == old(proposals)
        decreases |todo|
      {
        var id :| id in todo;
        if proposals[id].status.Active? && now >= proposals[id].deadline {
          SetStatus(id, Expired);
          changed := true;
        }
        todo := todo - {id};
      }
      assert proposals == Expire(old(Now(chain)), now).proposals;
    }
  }
}
