/** Does the node ever issue more than maximum_supply? Yes, from when a reward has become too
    small to be constructed as a transaction. This module says exactly when, and that the cap
    holds over every run in which that does not happen. */
module Supply {
  import opened Protocol
  import opened Balances
  import opened Rewards
  import opened Ledgers
  import opened Pruning
  import opened Pool
  import opened Mining

  /** Everything issued, and everything about to be issued by the pool, fits under the cap. */
  predicate WithinCap(l: Ledger) {
    TotalIssued(l) + Issued(l.pending) <= MAXIMUM_SUPPLY
  }

  lemma IssuedAfterAppend(p: Params, l: Ledger, b: Block)
    ensures TotalIssued(Append(p, l, b)) == TotalIssued(l) + Issued(b.data.transactions)
  {
    TxsAppend(l.chain, b);
    IssuedConcat(Txs(l.chain), b.data.transactions);
  }

  lemma PairIssued(reward: real, miner: string, now: real, later: real)
    requires Payable(reward, Some(miner))
    ensures Issued(RewardPair(reward, miner, now, later)) == PaidOut(reward)
  {
    var pair := RewardPair(reward, miner, now, later);
    assert Issued(pair) == IssuedBy(pair[0]) + Issued(pair[1..]);
    assert pair[1..][0] == pair[1];
    assert Issued(pair[1..]) == IssuedBy(pair[1]) + Issued([]);
  }

  lemma FinalizeAppends(p: Params, l: Ledger, b: Block, expected: string, now: real, later: real)
    requires l.chain != []
    requires Appended(Some(Finalize(p, l, b, expected, now, later).1))
    ensures Finalize(p, l, b, expected, now, later).0 ==
              Append(p, l, b).(pending := Finalize(p, l, b, expected, now, later).0.pending)
    ensures Finalize(p, l, b, expected, now, later).1.Unpaid? ==>
              Finalize(p, l, b, expected, now, later).0.pending == l.pending
    ensures Finalize(p, l, b, expected, now, later).1.Unpaid? <==>
              !Payable(CurrentReward(Append(p, l, b)), b.data.minerAddress)
    ensures Finalize(p, l, b, expected, now, later).1.Mined? ==>
              Finalize(p, l, b, expected, now, later).0.pending ==
              RewardPair(CurrentReward(Append(p, l, b)), b.data.minerAddress.value, now, later)
  {}

  lemma FinalizeIssued(p: Params, l: Ledger, b: Block, expected: string, now: real, later: real)
    requires l.chain != []
    requires Appended(Some(Finalize(p, l, b, expected, now, later).1))
    ensures var (l', answer) := Finalize(p, l, b, expected, now, later);
            && TotalIssued(l') == TotalIssued(l) + Issued(b.data.transactions)
            && (answer.Unpaid? ==> Issued(l'.pending) == Issued(l.pending))
            && (answer.Mined? ==> Issued(l'.pending) == PaidOut(CurrentReward(Append(p, l, b))))
  {
    FinalizeAppends(p, l, b, expected, now, later);
    IssuedAfterAppend(p, l, b);
    if Finalize(p, l, b, expected, now, later).1.Mined? {
      PairIssued(CurrentReward(Append(p, l, b)), b.data.minerAddress.value, now, later);
    }
  }

  /** The exact condition, for every append that itself stays within the supply: the cap
      survives if and only if the reward could be paid out, or what the old pool would mint a
      second time still fits. */
  lemma CapKeptExactlyWhenPaid(p: Params, l: Ledger, b: Block, expected: string, now: real, later: real)
    requires l.chain != []
    requires Appended(Some(Finalize(p, l, b, expected, now, later).1))
    requires TotalIssued(l) + Issued(b.data.transactions) <= MAXIMUM_SUPPLY
    ensures WithinCap(Finalize(p, l, b, expected, now, later).0) <==>
              || Payable(CurrentReward(Append(p, l, b)), b.data.minerAddress)
              || TotalIssued(l) + Issued(b.data.transactions) + Issued(l.pending) <= MAXIMUM_SUPPLY
  {
    FinalizeAppends(p, l, b, expected, now, later);
    FinalizeIssued(p, l, b, expected, now, later);
    IssuedAfterAppend(p, l, b);
    RewardWithinRemaining(l.miningReward, b.data.index + 1, TotalIssued(Append(p, l, b)));
  }

  /** A reward is payable exactly when it exceeds 1e-7 VLQ and there is a miner to pay. */
  lemma PayableExactly(reward: real, miner: Option<string>)
    ensures Payable(reward, miner) <==> Present(miner) && reward > 10.0
  {}

  // ------------------------------------------------------------------ runs

  /** Nothing but this node's own mining mints: submissions come from outside, so not from
      SYSTEM, and there are no peers' blocks, whose mints no node checks. */
  predicate Local(a: Action) {
    && Ordinary(a)
    && (a.Arrive? ==> a.t.sender != SYSTEM)
    && !a.Peer?
  }

  predicate AllLocal(actions: seq<Action>) {
    forall i :: 0 <= i < |actions| ==> Local(actions[i])
  }

  /** An append whose reward can be paid, or after which the old pool still fits once more. */
  predicate Affordable(p: Params, s: System, a: Action)
    requires s.node.chain != []
  {
    Appended(AnswerOf(p, s, a)) ==>
      var b := s.candidates[a.id].block;
      || (Present(b.data.minerAddress) && CurrentReward(Append(p, s.node, b)) > 10.0)
      || TotalIssued(s.node) + Issued(b.data.transactions) + Issued(s.node.pending) <= MAXIMUM_SUPPLY
  }

  predicate AllAffordable(p: Params, s: System, actions: seq<Action>)
    requires s.node.chain != []
    decreases |actions|
  {
    actions == [] || (Affordable(p, s, actions[0]) && AllAffordable(p, Act(p, s, actions[0]), actions[1..]))
  }

  /** No candidate on the tip would take the issued total over the maximum. */
  predicate CandidatesFit(s: System) {
    forall id :: id in s.candidates && s.candidates[id].block.data.index == |s.history| ==>
      TotalIssued(s.node) + Issued(s.candidates[id].block.data.transactions) <= MAXIMUM_SUPPLY
  }

  /** Now and after every action: what is issued and pending fits, and so does every candidate. */
  predicate AlwaysWithinCap(p: Params, s: System, actions: seq<Action>)
    requires s.node.chain != []
    decreases |actions|
  {
    && WithinCap(s.node) && CandidatesFit(s)
    && (actions == [] || AlwaysWithinCap(p, Act(p, s, actions[0]), actions[1..]))
  }

  predicate StepPaid(p: Params, s: System, a: Action)
    requires s.node.chain != []
  {
    AnswerOf(p, s, a) != Some(Unpaid)
  }

  predicate NeverUnpaid(p: Params, s: System, actions: seq<Action>)
    requires s.node.chain != []
    decreases |actions|
  {
    actions == [] || (StepPaid(p, s, actions[0]) && NeverUnpaid(p, Act(p, s, actions[0]), actions[1..]))
  }

  lemma ArriveIssued(p: Params, l: Ledger, t: Tx)
    requires t.sender != SYSTEM
    ensures TotalIssued(Submit(p, l, t).0) == TotalIssued(l)
    ensures Issued(Submit(p, l, t).0.pending) == Issued(l.pending)
  {
    IssuedAppend(l.pending, t);
  }

  lemma PruneIssued(p: Params, l: Ledger, keep: nat)
    requires l.chain != [] && keep >= 1
    ensures TotalIssued(Prune(p, l, keep)) == TotalIssued(l) && Prune(p, l, keep).pending == l.pending
  {
    PruneIsPrunedAt(p, l, keep);
    PruningKeepsIssued(p, l, PruneDepth(|l.chain|, 0, keep));
  }

  /** What an action does to the supply: only an append moves anything. */
  lemma ActIssued(p: Params, s: System, a: Action)
    requires Inv(p, s) && Local(a) && !Appended(AnswerOf(p, s, a))
    ensures TotalIssued(Act(p, s, a).node) == TotalIssued(s.node)
    ensures Issued(Act(p, s, a).node.pending) == Issued(s.node.pending)
  {
    match a
    case Arrive(t) => ArriveIssued(p, s.node, t);
    case Build(_, _, _, _, _) =>
    case Work(_, _) =>
    case Complete(_, _, _) =>
      if AnswerOf(p, s, a).Some? { AppendedIffCurrent(p, s, a); }
    case PruneNode(keep) => if keep >= 1 { PruneIssued(p, s.node, keep); }
  }

  /** The candidate an append consumes mints no more than the pool did. */
  lemma AppendedMintsThePool(p: Params, s: System, a: Action)
    requires Inv(p, s) && Appended(AnswerOf(p, s, a))
    ensures Issued(s.candidates[a.id].block.data.transactions) <= Issued(s.node.pending)
  {}

  lemma StepKeepsCapExactly(p: Params, s: System, a: Action)
    requires Inv(p, s) && Local(a) && WithinCap(s.node)
    ensures WithinCap(Act(p, s, a).node) <==> Affordable(p, s, a)
  {
    if Appended(AnswerOf(p, s, a)) {
      var c := s.candidates[a.id];
      AppendedMintsThePool(p, s, a);
      FinalizeAppends(p, s.node, c.block, c.expected, a.paid, a.later);
      CapKeptExactlyWhenPaid(p, s.node, c.block, c.expected, a.paid, a.later);
      PayableExactly(CurrentReward(Append(p, s.node, c.block)), c.block.data.minerAddress);
    } else {
      ActIssued(p, s, a);
    }
  }

  lemma CandidatesFitWithPool(p: Params, s: System)
    requires Inv(p, s) && WithinCap(s.node)
    ensures CandidatesFit(s)
  {
    forall id | id in s.candidates && s.candidates[id].block.data.index == |s.history|
      ensures TotalIssued(s.node) + Issued(s.candidates[id].block.data.transactions) <= MAXIMUM_SUPPLY
    {
      assert CandidateOk(p, s.node, s.history, s.candidates[id]);
    }
  }

  /** The supply cap over whole runs, with any number of concurrent candidates, submissions and
      prunes: issued plus pending, and issued plus any candidate on the tip, stay within
      maximum_supply throughout exactly when every append could pay its reward or afford the old
      pool once more. */
  lemma {:induction false} SupplyCap(p: Params, s: System, actions: seq<Action>)
    requires Inv(p, s) && WithinCap(s.node) && AllLocal(actions)
    ensures AlwaysWithinCap(p, s, actions) <==> AllAffordable(p, s, actions)
    decreases |actions|
  {
    CandidatesFitWithPool(p, s);
    if actions != [] {
      var next := Act(p, s, actions[0]);
      StepKeepsCapExactly(p, s, actions[0]);
      ActKeeps(p, s, actions[0]);
      if WithinCap(next.node) {
        SupplyCap(p, next, actions[1..]);
      }
    }
  }

  // ------------------------------------------------- where the cap breaks

  /** Once the supply is fully scheduled, mining the pool twice issues the last rewards twice:
      the first append finds no reward left to pay, raises, and leaves them pending. */
  lemma ExhaustedSupplyOverflows(p: Params, l: Ledger, e: Pool.Event, f: Pool.Event)
    requires Healthy(p, l) && TotalIssued(l) + Issued(l.pending) == MAXIMUM_SUPPLY && Issued(l.pending) > 0
    requires e.Mining? && e.now <= e.stamp && f.Mining? && f.now <= f.stamp
    requires Mine(p, l, e.raw, e.miner, e.now, e.stamp, e.nonce, e.paid, e.later).1.Finalized?
    requires Mine(p, After(p, l, e), f.raw, f.miner, f.now, f.stamp, f.nonce, f.paid, f.later).1.Finalized?
    requires PoolApplies(p, After(p, l, e))
    ensures Mine(p, l, e.raw, e.miner, e.now, e.stamp, e.nonce, e.paid, e.later).1.finalize.Unpaid?
    ensures TotalIssued(After(p, After(p, l, e), f)) > MAXIMUM_SUPPLY
  {
    MineConfirmsPool(p, l, e);
    var b := Mine(p, l, e.raw, e.miner, e.now, e.stamp, e.nonce, e.paid, e.later).1.block;
    FinalizeAppends(p, l, b, Tip(l).hash, e.paid, e.later);
    FinalizeIssued(p, l, b, Tip(l).hash, e.paid, e.later);
    IssuedAfterAppend(p, l, b);
    assert CurrentReward(Append(p, l, b)) <= 0.0;
    SharesPositive(CurrentReward(Append(p, l, b)));
    var l' := After(p, l, e);
    assert l'.pending == l.pending && TotalIssued(l') == MAXIMUM_SUPPLY;
    MineConfirmsPool(p, l', f);
    var b' := Mine(p, l', f.raw, f.miner, f.now, f.stamp, f.nonce, f.paid, f.later).1.block;
    FinalizeIssued(p, l', b', Tip(l').hash, f.paid, f.later);
  }

  // ------------------------------------------------------ the default reward

  /** A ledger on the default schedule: n blocks after genesis have paid at most the schedule. */
  predicate OnSchedule(l: Ledger, n: int) {
    && n >= 0
    && l.miningReward == INITIAL_MINING_REWARD
    && TotalIssued(l) + Issued(l.pending) <= ScheduleTotal(n)
  }

  predicate MinersNamed(candidates: map<nat, Candidate>) {
    forall id :: id in candidates ==> Present(candidates[id].block.data.minerAddress)
  }

  predicate NamesMiner(a: Action) {
    a.Build? ==> a.miner != ""
  }

  /** On the default schedule the remaining supply never lowers a reward, and the reward is
      payable exactly until the 29th halving. */
  lemma DefaultRewardIsScheduled(p: Params, l: Ledger, n: nat, b: Block)
    requires OnSchedule(l, n) && b.data.index == n + 1
    requires Issued(b.data.transactions) <= Issued(l.pending) && Present(b.data.minerAddress)
    ensures CurrentReward(Append(p, l, b)) == ScheduledReward(INITIAL_MINING_REWARD, n + 2)
    ensures Payable(CurrentReward(Append(p, l, b)), b.data.minerAddress) <==> n + 2 < UNPAYABLE_EPOCH * HALVING_INTERVAL
  {
    IssuedAfterAppend(p, l, b);
    ScheduleNeverCapped(n);
    DefaultPayableUntil(n + 2);
    SharesPositive(CurrentReward(Append(p, l, b)));
  }

  lemma ScheduleAppend(p: Params, l: Ledger, n: nat, b: Block, expected: string, now: real, later: real)
    requires l.chain != [] && OnSchedule(l, n) && b.data.index == n + 1 && n + 2 < UNPAYABLE_EPOCH * HALVING_INTERVAL
    requires Issued(b.data.transactions) <= Issued(l.pending) && Present(b.data.minerAddress)
    requires Appended(Some(Finalize(p, l, b, expected, now, later).1))
    ensures OnSchedule(Finalize(p, l, b, expected, now, later).0, n + 1)
    ensures !Finalize(p, l, b, expected, now, later).1.Unpaid?
  {
    FinalizeAppends(p, l, b, expected, now, later);
    FinalizeIssued(p, l, b, expected, now, later);
    DefaultRewardIsScheduled(p, l, n, b);
  }

  lemma ActKeepsMinersNamed(p: Params, s: System, a: Action)
    requires s.node.chain != [] && MinersNamed(s.candidates) && NamesMiner(a)
    ensures MinersNamed(Act(p, s, a).candidates)
  {}

  lemma ActKeepsReward(p: Params, s: System, a: Action)
    requires s.node.chain != [] && Local(a)
    ensures Act(p, s, a).node.miningReward == s.node.miningReward
    ensures |Act(p, s, a).history| == |s.history| + (if Appended(AnswerOf(p, s, a)) then 1 else 0)
  {}

  /** What completing a candidate does to the node, in terms of the candidate alone. */
  lemma CompletesAs(p: Params, s: System, a: Action, c: Candidate)
    requires s.node.chain != [] && Appended(AnswerOf(p, s, a)) && c == s.candidates[a.id]
    ensures Act(p, s, a).node == Finalize(p, s.node, c.block, c.expected, a.paid, a.later).0
    ensures AnswerOf(p, s, a) == Some(Finalize(p, s.node, c.block, c.expected, a.paid, a.later).1)
  {}

  lemma ScheduleCompletes(p: Params, s: System, a: Action, c: Candidate, n: nat)
    requires s.node.chain != [] && OnSchedule(s.node, n) && n + 2 < UNPAYABLE_EPOCH * HALVING_INTERVAL
    requires Appended(AnswerOf(p, s, a)) && c == s.candidates[a.id] && c.block.data.index == n + 1
    requires Issued(c.block.data.transactions) <= Issued(s.node.pending) && Present(c.block.data.minerAddress)
    ensures OnSchedule(Act(p, s, a).node, n + 1) && StepPaid(p, s, a)
  {
    CompletesAs(p, s, a, c);
    ScheduleAppend(p, s.node, n, c.block, c.expected, a.paid, a.later);
  }

  lemma ScheduleStepAppended(p: Params, s: System, a: Action)
    requires Inv(p, s) && OnSchedule(s.node, |s.history| - 1) && MinersNamed(s.candidates)
             && Appended(AnswerOf(p, s, a))
    requires |s.history| + 1 < UNPAYABLE_EPOCH * HALVING_INTERVAL
    ensures OnSchedule(Act(p, s, a).node, |s.history|) && StepPaid(p, s, a)
  {
    AppendedMintsThePool(p, s, a);
    AppendedIffCurrent(p, s, a);
    ScheduleCompletes(p, s, a, s.candidates[a.id], |s.history| - 1);
  }

  lemma ScheduleStep(p: Params, s: System, a: Action)
    requires Inv(p, s) && OnSchedule(s.node, |s.history| - 1) && MinersNamed(s.candidates) && Local(a)
    requires |Act(p, s, a).history| < UNPAYABLE_EPOCH * HALVING_INTERVAL
    ensures OnSchedule(Act(p, s, a).node, |Act(p, s, a).history| - 1) && StepPaid(p, s, a)
  {
    ActKeepsReward(p, s, a);
    if Appended(AnswerOf(p, s, a)) {
      ScheduleStepAppended(p, s, a);
    } else {
      ActIssued(p, s, a);
    }
  }

  lemma {:induction false} HistoryGrows(p: Params, s: System, actions: seq<Action>)
    requires s.node.chain != []
    ensures |ActAll(p, s, actions).history| >= |s.history|
    decreases |actions|
  {
    if actions != [] {
      HistoryGrows(p, Act(p, s, actions[0]), actions[1..]);
    }
  }

  /** A reachable state of a node on the default schedule. */
  predicate Scheduled(p: Params, s: System) {
    Inv(p, s) && OnSchedule(s.node, |s.history| - 1) && MinersNamed(s.candidates)
  }

  lemma ActKeepsSchedule(p: Params, s: System, a: Action, s': System)
    requires Scheduled(p, s) && Local(a) && NamesMiner(a)
    requires s' == Act(p, s, a) && |s'.history| < UNPAYABLE_EPOCH * HALVING_INTERVAL
    ensures Scheduled(p, s') && StepPaid(p, s, a)
  {
    ScheduleStep(p, s, a);
    ActKeepsMinersNamed(p, s, a);
    ActKeeps(p, s, a);
  }

  lemma {:induction false} FirstActGrows(p: Params, s: System, actions: seq<Action>)
    requires s.node.chain != [] && actions != []
    ensures |ActAll(p, s, actions).history| >= |Act(p, s, actions[0]).history|
  {
    HistoryGrows(p, Act(p, s, actions[0]), actions[1..]);
  }

  lemma {:induction false} DefaultRunStaysOnSchedule(p: Params, s: System, actions: seq<Action>)
    requires Scheduled(p, s) && AllLocal(actions) && AllNameMiners(actions)
    requires |ActAll(p, s, actions).history| < UNPAYABLE_EPOCH * HALVING_INTERVAL
    ensures Scheduled(p, ActAll(p, s, actions)) && NeverUnpaid(p, s, actions)
    decreases |actions|
  {
    if actions != [] {
      FirstActGrows(p, s, actions);
      ActKeepsSchedule(p, s, actions[0], Act(p, s, actions[0]));
      DefaultRunStaysOnSchedule(p, Act(p, s, actions[0]), actions[1..]);
    }
  }

  predicate AllNameMiners(actions: seq<Action>) {
    forall i :: 0 <= i < |actions| ==> NamesMiner(actions[i])
  }

  lemma ScheduledWithinCap(p: Params, s: System)
    requires Scheduled(p, s)
    ensures OnSchedule(s.node, |s.history| - 1) && WithinCap(s.node)
  {
    ScheduleNeverCapped(|s.history| - 1);
  }

  lemma {:induction false} ScheduledRunWithinCap(p: Params, s: System, actions: seq<Action>, end: System)
    requires Scheduled(p, s) && AllLocal(actions) && AllNameMiners(actions) && end == ActAll(p, s, actions)
    requires |end.history| < UNPAYABLE_EPOCH * HALVING_INTERVAL
    ensures NeverUnpaid(p, s, actions) && OnSchedule(end.node, |end.history| - 1) && WithinCap(end.node)
  {
    DefaultRunStaysOnSchedule(p, s, actions);
    ScheduledWithinCap(p, end);
  }

  /** With the default reward, for as long as the chain has fewer than 29 halvings' worth of
      blocks, every append pays, and everything ever issued follows the schedule and so
      stays below 21,000,000 VLQ. */
  lemma {:induction false} DefaultSupply(p: Params, genesis: Block, difficulty: int, s: System, actions: seq<Action>)
    requires GenesisOk(p, genesis) && AllLocal(actions) && AllNameMiners(actions)
    requires s == Start(genesis, difficulty, INITIAL_MINING_REWARD)
    requires |ActAll(p, s, actions).history| < UNPAYABLE_EPOCH * HALVING_INTERVAL
    ensures NeverUnpaid(p, s, actions)
    ensures OnSchedule(ActAll(p, s, actions).node, |ActAll(p, s, actions).history| - 1)
    ensures WithinCap(ActAll(p, s, actions).node)
  {
    StartScheduled(p, genesis, difficulty);
    ScheduledRunWithinCap(p, s, actions, ActAll(p, s, actions));
  }

  lemma StartScheduled(p: Params, genesis: Block, difficulty: int)
    requires GenesisOk(p, genesis)
    ensures Scheduled(p, Start(genesis, difficulty, INITIAL_MINING_REWARD))
  {
    StartInv(p, genesis, difficulty, INITIAL_MINING_REWARD);
    assert Txs([genesis]) == [] + Txs([genesis][1..]);
  }
}
