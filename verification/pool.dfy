/** The pending pool: what is admitted can be mined, in order, and nobody goes overdrawn. */
module Pool {
  import opened Protocol
  import opened Balances
  import opened Ledgers
  import opened Rewards
  import opened Pruning

  /** The whole pool can be applied, in order, to the confirmed balances. */
  predicate PoolApplies(p: Params, l: Ledger) {
    ConfirmedBalances(p, l).Some? && ApplyTxs(p, ConfirmedBalances(p, l).value, l.pending).Some?
  }

  lemma {:induction false} SelectApplies(p: Params, b: Accounts, pending: seq<Tx>)
    ensures ApplyTxs(p, b, Select(p, b, pending)).Some?
    decreases |pending|
  {
    if pending != [] {
      match ApplyTx(p, b, pending[0])
      case None => SelectApplies(p, b, pending[1..]);
      case Some(b') =>
        SelectApplies(p, b', pending[1..]);
        assert ([pending[0]] + Select(p, b', pending[1..]))[1..] == Select(p, b', pending[1..]);
    }
  }

  lemma {:induction false} SelectLength(p: Params, b: Accounts, pending: seq<Tx>)
    ensures |Select(p, b, pending)| <= |pending|
    decreases |pending|
  {
    if pending != [] {
      match ApplyTx(p, b, pending[0])
      case None => SelectLength(p, b, pending[1..]);
      case Some(b') => SelectLength(p, b', pending[1..]);
    }
  }

  /** Selection before mining drops nothing exactly when the pool applies as a whole. */
  lemma {:induction false} SelectAll(p: Params, b: Accounts, pending: seq<Tx>)
    ensures Select(p, b, pending) == pending <==> ApplyTxs(p, b, pending).Some?
    decreases |pending|
  {
    if pending != [] {
      match ApplyTx(p, b, pending[0])
      case None => SelectLength(p, b, pending[1..]);
      case Some(b') =>
        SelectAll(p, b', pending[1..]);
        assert ([pending[0]] + Select(p, b', pending[1..]))[1..] == Select(p, b', pending[1..]);
    }
  }

  /** What selection takes of one more transaction: exactly what applies after all it has taken. */
  lemma {:induction false} SelectAppend(p: Params, b: Accounts, pending: seq<Tx>, t: Tx)
    ensures Select(p, b, pending + [t]) ==
            Select(p, b, pending) + (if ApplyTxs(p, b, Select(p, b, pending) + [t]).Some? then [t] else [])
    decreases |pending|
  {
    if pending == [] {
      assert [] + [t] == [t] && [t][1..] == [];
    } else {
      var first, rest := pending[0], pending[1..];
      assert (pending + [t])[1..] == rest + [t];
      match ApplyTx(p, b, first)
      case None => SelectAppend(p, b, rest, t);
      case Some(b') =>
        SelectAppend(p, b', rest, t);
        var taken := Select(p, b', rest);
        assert [first] + taken + [t] == [first] + (taken + [t]);
        assert ([first] + (taken + [t]))[1..] == taken + [t];
    }
  }

  /** A sender keeps at least what it had minus what it spends; receipts only add. */
  lemma {:induction false} SpendBound(p: Params, b: Accounts, ts: seq<Tx>, a: Address)
    requires !IsSystem(a) && ApplyTxs(p, b, ts).Some?
    ensures Get(ApplyTxs(p, b, ts).value, a) >= Get(b, a) - PendingSpend(ts, a)
    decreases |ts|
  {
    if ts != [] {
      var b' := ApplyTx(p, b, ts[0]).value;
      SpendBound(p, b', ts[1..], a);
    }
  }

  /** The admission test counts the pool's spending and ignores its receipts, so what it
      lets in can always be applied at the end of the pool. */
  lemma SubmitKeepsPool(p: Params, l: Ledger, t: Tx)
    requires PoolApplies(p, l)
    ensures PoolApplies(p, Submit(p, l, t).0)
  {
    var b := ConfirmedBalances(p, l).value;
    if SubmitAnswerOf(p, l, t).Submitted? {
      ApplyTxsConcat(p, b, l.pending, [t]);
      var b' := ApplyTxs(p, b, l.pending).value;
      if !IsSystem(t.sender) {
        SpendBound(p, b, l.pending, t.sender);
      }
      var last := ApplyTx(p, b', t);
      assert last.Some?;
      assert ApplyTxs(p, b', [t]) == ApplyTxs(p, last.value, [t][1..]);
    }
  }

  lemma PruneKeepsPool(p: Params, l: Ledger, n: nat)
    requires PoolApplies(p, l) && n < |l.chain|
    ensures PoolApplies(p, PrunedAt(p, l, n))
  {
    SeededBalancesAgree(p, l, n);
    ApplyTxsAgree(p, ConfirmedBalances(p, l).value, ConfirmedBalances(p, PrunedAt(p, l, n)).value, l.pending);
  }

  lemma {:induction false} RetainApplies(p: Params, b: Accounts, confirmed: set<Identity>, dropSystem: bool,
                                         pending: seq<Tx>)
    ensures ApplyTxs(p, b, Retain(p, b, confirmed, dropSystem, pending)).Some?
    ensures forall t :: t in Retain(p, b, confirmed, dropSystem, pending) ==>
              t in pending && IdentityOf(t) !in confirmed && (dropSystem ==> t.sender != SYSTEM)
    decreases |pending|
  {
    if pending != [] {
      var rest := pending[1..];
      if !(dropSystem && pending[0].sender == SYSTEM) && IdentityOf(pending[0]) !in confirmed
          && ApplyTx(p, b, pending[0]).Some? {
        var b' := ApplyTx(p, b, pending[0]).value;
        RetainApplies(p, b', confirmed, dropSystem, rest);
        var kept := Retain(p, b', confirmed, dropSystem, rest);
        assert ([pending[0]] + kept)[1..] == kept;
      } else {
        RetainApplies(p, b, confirmed, dropSystem, rest);
      }
    }
  }

  predicate Unwanted(confirmed: set<Identity>, dropSystem: bool, t: Tx) {
    (dropSystem && t.sender == SYSTEM) || IdentityOf(t) in confirmed
  }

  lemma {:induction false} RetainLength(p: Params, b: Accounts, confirmed: set<Identity>, dropSystem: bool,
                                        pending: seq<Tx>)
    ensures |Retain(p, b, confirmed, dropSystem, pending)| <= |pending|
    decreases |pending|
  {
    if pending != [] {
      var rest := pending[1..];
      if !Unwanted(confirmed, dropSystem, pending[0]) && ApplyTx(p, b, pending[0]).Some? {
        RetainLength(p, ApplyTx(p, b, pending[0]).value, confirmed, dropSystem, rest);
      } else {
        RetainLength(p, b, confirmed, dropSystem, rest);
      }
    }
  }

  /** prune_pending_transactions drops nothing exactly when nothing is stale and the pool applies. */
  lemma {:induction false} RetainAll(p: Params, b: Accounts, confirmed: set<Identity>, dropSystem: bool,
                                     pending: seq<Tx>)
    ensures Retain(p, b, confirmed, dropSystem, pending) == pending <==>
              && ApplyTxs(p, b, pending).Some?
              && forall i :: 0 <= i < |pending| ==> !Unwanted(confirmed, dropSystem, pending[i])
    decreases |pending|
  {
    if pending != [] {
      var t, rest := pending[0], pending[1..];
      if Unwanted(confirmed, dropSystem, t) || ApplyTx(p, b, t).None? {
        RetainLength(p, b, confirmed, dropSystem, rest);
      } else {
        var b' := ApplyTx(p, b, t).value;
        RetainAll(p, b', confirmed, dropSystem, rest);
        assert ([t] + Retain(p, b', confirmed, dropSystem, rest))[1..] == Retain(p, b', confirmed, dropSystem, rest);
        assert forall i :: 0 <= i < |rest| ==> rest[i] == pending[i + 1];
        assert forall i :: 0 < i < |pending| ==> pending[i] == rest[i - 1];
      }
    }
  }

  /** What prune_pending_transactions keeps of one more transaction: it, exactly when it is wanted
      and applies after all that has been kept. */
  lemma {:induction false} RetainAppend(p: Params, b: Accounts, confirmed: set<Identity>, dropSystem: bool,
                                        pending: seq<Tx>, t: Tx)
    ensures var kept := Retain(p, b, confirmed, dropSystem, pending);
            Retain(p, b, confirmed, dropSystem, pending + [t]) ==
            kept + (if !Unwanted(confirmed, dropSystem, t) && ApplyTxs(p, b, kept + [t]).Some? then [t] else [])
    decreases |pending|
  {
    if pending == [] {
      assert [] + [t] == [t] && [t][1..] == [];
    } else {
      var first, rest := pending[0], pending[1..];
      assert (pending + [t])[1..] == rest + [t];
      if Unwanted(confirmed, dropSystem, first) || ApplyTx(p, b, first).None? {
        RetainAppend(p, b, confirmed, dropSystem, rest, t);
      } else {
        var b' := ApplyTx(p, b, first).value;
        RetainAppend(p, b', confirmed, dropSystem, rest, t);
        var kept := Retain(p, b', confirmed, dropSystem, rest);
        assert [first] + kept + [t] == [first] + (kept + [t]);
        assert ([first] + (kept + [t]))[1..] == kept + [t];
      }
    }
  }

  /** Already confirmed means that a confirmed transaction has the same five fields. */
  lemma ConfirmedExactly(ts: seq<Tx>, t: Tx)
    ensures IdentityOf(t) in Identities(ts) <==>
              exists u :: u in ts && u.signature == t.signature && u.sender == t.sender && u.receiver == t.receiver
                          && u.amount == t.amount && u.timestamp == t.timestamp
  {
    if u :| u in ts && u.signature == t.signature && u.sender == t.sender && u.receiver == t.receiver
            && u.amount == t.amount && u.timestamp == t.timestamp {
      assert IdentityOf(u) == IdentityOf(t);
    }
  }

  /** After prune_pending_transactions the pool applies, whatever it held before, and holds
      nothing already confirmed. */
  lemma PrunePendingSound(p: Params, l: Ledger, dropSystem: bool)
    requires ConfirmedBalances(p, l).Some?
    ensures PoolApplies(p, PrunePending(p, l, dropSystem).value)
    ensures forall t :: t in PrunePending(p, l, dropSystem).value.pending ==>
              t in l.pending && IdentityOf(t) !in Identities(Txs(l.chain)) && (dropSystem ==> t.sender != SYSTEM)
  {
    RetainApplies(p, ConfirmedBalances(p, l).value, Identities(Txs(l.chain)), dropSystem, l.pending);
  }

  // ---------------------------------------------------------------- mining

  function WithNonce(p: Params, b: Block, nonce: int): Block {
    var data := b.data.(nonce := nonce);
    Block(data, Digest(p, data), b.difficulty)
  }

  datatype MineAnswer = NotBuilt(build: BuildAnswer) | Unsolved | Finalized(finalize: FinalizeAnswer, block: Block)

  /** mine_pending_transactions: build, proof of work ending at this nonce, finalize. */
  function Mine(p: Params, l: Ledger, raw: string, miner: string, now: real, stamp: real, nonce: int, paid: real,
                later: real)
    : (Ledger, MineAnswer)
    requires l.chain != []
  {
    match BuildCandidate(p, l, raw, miner, now, stamp)
    case Built(b, expected) =>
      var solved := WithNonce(p, b, nonce);
      if !HasValidProof(p, solved) then (l, Unsolved)
      else (Finalize(p, l, solved, expected, paid, later).0,
            Finalized(Finalize(p, l, solved, expected, paid, later).1, solved))
    case other => (l, NotBuilt(other))
  }

  /** A solved candidate on an unchanged tip is never turned away, provided the clock did not
      run backwards while it was built. */
  lemma BuiltIsAdmitted(p: Params, l: Ledger, raw: string, miner: string, now: real, stamp: real, nonce: int)
    requires l.chain != [] && BuildCandidate(p, l, raw, miner, now, stamp).Built? && now <= stamp
    requires HasValidProof(p, WithNonce(p, BuildCandidate(p, l, raw, miner, now, stamp).block, nonce))
    ensures AdmitAnswer(p, l, WithNonce(p, BuildCandidate(p, l, raw, miner, now, stamp).block, nonce)).Accepted?
  {
    SelectApplies(p, ConfirmedBalances(p, l).value, l.pending);
  }

  lemma {:induction false} RewardsApply(p: Params, b: Accounts, reward: real, miner: string, now: real, later: real)
    requires Payable(reward, Some(miner))
    ensures ApplyTxs(p, b, RewardPair(reward, miner, now, later)).Some?
  {
    var pair := RewardPair(reward, miner, now, later);
    var b' := ApplyTx(p, b, pair[0]).value;
    assert ApplyTxs(p, b, pair) == ApplyTxs(p, b', pair[1..]);
    assert pair[1..][0] == pair[1];
    var b'' := ApplyTx(p, b', pair[1]).value;
    assert ApplyTxs(p, b', pair[1..]) == ApplyTxs(p, b'', []);
  }

  /** The reward pair pays the miner 95% and the treasury 5%, to within half a unit each. */
  lemma {:induction false} RewardsReach(reward: real, miner: string, now: real, later: real)
    requires Payable(reward, Some(miner)) && miner != TREASURY && miner != SYSTEM
    ensures var pair := RewardPair(reward, miner, now, later);
            && -0.5 <= Deltas(pair, miner) as real - reward * 0.95 <= 0.5
            && -0.5 <= Deltas(pair, TREASURY) as real - reward * 0.05 <= 0.5
            && Deltas(pair, SYSTEM) == -PaidOut(reward)
  {
    var pair := RewardPair(reward, miner, now, later);
    RoundHalfEvenNear(reward * 0.95);
    RoundHalfEvenNear(reward * 0.05);
    assert forall a :: Deltas(pair, a) == Delta(pair[0], a) + Deltas(pair[1..], a);
    assert pair[1..][0] == pair[1];
    assert forall a :: Deltas(pair[1..], a) == Delta(pair[1], a) + Deltas([], a);
  }

  // ---------------------------------------------------------------- events

  datatype Event =
    | Submission(t: Tx)
    | Mining(raw: string, miner: string, now: real, stamp: real, nonce: int, paid: real, later: real)
    | Pruning(keep: nat)
    | PoolPruning(dropSystem: bool)

  function After(p: Params, l: Ledger, e: Event): Ledger
    requires l.chain != []
  {
    match e
    case Submission(t) => Submit(p, l, t).0
    case Mining(raw, miner, now, stamp, nonce, paid, later) => Mine(p, l, raw, miner, now, stamp, nonce, paid, later).0
    case Pruning(keep) => if keep >= 1 then Prune(p, l, keep) else l
    case PoolPruning(dropSystem) =>
      match PrunePending(p, l, dropSystem)
      case None => l
      case Some(l') => l'
  }

  function MineOf(p: Params, l: Ledger, e: Event): (Ledger, MineAnswer)
    requires l.chain != [] && e.Mining?
  {
    Mine(p, l, e.raw, e.miner, e.now, e.stamp, e.nonce, e.paid, e.later)
  }

  /** The block was appended, whether or not its reward could be constructed. */
  predicate Appends(answer: MineAnswer) {
    answer.Finalized? && (answer.finalize.Mined? || answer.finalize.Unpaid?)
  }

  /** Mining appends a block of what selection lets through and then pays or keeps the old pool,
      or it changes nothing; also when the clock runs backwards. */
  lemma {:induction false} MineOutcome(p: Params, l: Ledger, e: Event)
    requires l.chain != [] && e.Mining?
    ensures var (l', answer) := MineOf(p, l, e);
            if !Appends(answer) then l' == l
            else
              && Valid(p, l) && AdmitAnswer(p, l, answer.block).Accepted?
              && answer.block.data.transactions == Select(p, ConfirmedBalances(p, l).value, l.pending)
              && answer.block.data.index == Height(l) + 1
              && l' == Append(p, l, answer.block).(pending := l'.pending)
              && var reward := CurrentReward(Append(p, l, answer.block));
                 if Payable(reward, Some(e.miner))
                 then l'.pending == (if reward > 0.0 then RewardPair(reward, e.miner, e.paid, e.later) else [])
                 else l'.pending == l.pending
  {}

  // --------------------------------------------- when the pool survives

  /** The reward that will be due once the whole pool has been mined. */
  function RewardDue(l: Ledger): real {
    RewardAt(l.miningReward, Height(l) + 2, TotalIssued(l) + Issued(l.pending))
  }

  /** The next reward can be paid, or the whole pool could be applied twice over. */
  predicate Sustainable(p: Params, l: Ledger, miner: string) {
    || (miner != "" && RewardDue(l) > 10.0)
    || (ConfirmedBalances(p, l).Some? && ApplyTxs(p, ConfirmedBalances(p, l).value, l.pending + l.pending).Some?)
  }

  lemma RewardAfterPool(p: Params, l: Ledger, b: Block)
    requires b.data.transactions == l.pending && b.data.index == Height(l) + 1
    ensures CurrentReward(Append(p, l, b)) == RewardDue(l)
  {
    TxsAppend(l.chain, b);
    IssuedConcat(Txs(l.chain), l.pending);
  }

  /** A pool that can be applied can still be applied after it has been mined exactly when the
      next reward could be paid or the pool can be applied a second time: otherwise the old pool
      stays pending beside its own confirmation. */
  lemma MiningKeepsPoolExactly(p: Params, l: Ledger, e: Event)
    requires l.chain != [] && PoolApplies(p, l) && e.Mining? && Appends(MineOf(p, l, e).1)
    ensures PoolApplies(p, MineOf(p, l, e).0) <==> Sustainable(p, l, e.miner)
  {
    var (l', answer) := MineOf(p, l, e);
    var balances := ConfirmedBalances(p, l).value;
    MineOutcome(p, l, e);
    SelectAll(p, balances, l.pending);
    RewardAfterPool(p, l, answer.block);
    SharesPositive(RewardDue(l));
    TxsAppend(l.chain, answer.block);
    ApplyTxsConcat(p, SeedBalances(l.prunePoint), Txs(l.chain), l.pending);
    ApplyTxsConcat(p, balances, l.pending, l.pending);
    if Payable(RewardDue(l), Some(e.miner)) {
      RewardsApply(p, ConfirmedBalances(p, l').value, RewardDue(l), e.miner, e.paid, e.later);
    }
  }

  /** Mining confirms the whole pool, in order; what it leaves pending can be applied exactly when
      the append can be sustained. */
  lemma MineConfirmsPool(p: Params, l: Ledger, e: Event)
    requires l.chain != [] && PoolApplies(p, l) && e.Mining? && e.now <= e.stamp
    ensures var (l', answer) := MineOf(p, l, e);
            answer.Finalized? ==>
              && (answer.finalize.Mined? || answer.finalize.Unpaid?)
              && answer.block.data.transactions == l.pending
              && l'.chain == l.chain + [answer.block]
              && Valid(p, l')
              && (PoolApplies(p, l') <==> Sustainable(p, l, e.miner))
              && (answer.finalize.Mined? ==> PoolApplies(p, l'))
  {
    var answer := MineOf(p, l, e).1;
    if answer.Finalized? {
      BuiltIsAdmitted(p, l, e.raw, e.miner, e.now, e.stamp, e.nonce);
      MineOutcome(p, l, e);
      SelectAll(p, ConfirmedBalances(p, l).value, l.pending);
      AdmissionKeepsValidity(p, l, answer.block, false);
      MiningKeepsPoolExactly(p, l, e);
      RewardAfterPool(p, l, answer.block);
      SharesPositive(RewardDue(l));
    }
  }

  /** For a pool of one ordinary transfer, applying it twice takes twice the amount. */
  lemma {:induction false} TwiceTheTransfer(p: Params, b: Accounts, t: Tx)
    requires Verifies(p, t) && !IsSystem(t.sender) && t.receiver != t.sender
    ensures ApplyTxs(p, b, [t] + [t]).Some? <==> Get(b, t.sender) >= 2 * t.amount
  {
    assert ([t] + [t])[1..] == [t];
    if Get(b, t.sender) >= t.amount {
      var b' := ApplyTx(p, b, t).value;
      assert ApplyTxs(p, b, [t] + [t]) == ApplyTxs(p, b', [t]);
      assert ApplyTxs(p, b', [t]).Some? <==> ApplyTx(p, b', t).Some? by {
        assert [t][1..] == [];
      }
    }
  }

  // ---------------------------------------------------------------- health

  /** The chain is valid and its balances are nobody's debt. */
  ghost predicate Solvent(p: Params, l: Ledger) {
    Valid(p, l) && NoOverdraft(ConfirmedBalances(p, l).value)
  }

  /** And the whole pool applies to them. */
  ghost predicate Healthy(p: Params, l: Ledger) {
    Solvent(p, l) && PoolApplies(p, l)
  }

  lemma MiningKeepsSolvent(p: Params, l: Ledger, e: Event)
    requires Solvent(p, l) && e.Mining?
    ensures Solvent(p, After(p, l, e))
  {
    var (l', answer) := MineOf(p, l, e);
    MineOutcome(p, l, e);
    if Appends(answer) {
      var ts := answer.block.data.transactions;
      AdmissionKeepsValidity(p, l, answer.block, false);
      TxsAppend(l.chain, answer.block);
      ApplyTxsConcat(p, SeedBalances(l.prunePoint), Txs(l.chain), ts);
      ApplyTxsNoOverdraft(p, ConfirmedBalances(p, l).value, ts);
    }
  }

  lemma PruningKeepsSolvent(p: Params, l: Ledger, keep: nat)
    requires Solvent(p, l) && keep >= 1
    ensures Solvent(p, Prune(p, l, keep))
  {
    var n := PruneDepth(|l.chain|, 0, keep);
    PruneIsPrunedAt(p, l, keep);
    PruningKeepsValidity(p, l, n);
    SeededBalancesAgree(p, l, n);
    var before, after := ConfirmedBalances(p, l).value, ConfirmedBalances(p, PrunedAt(p, l, n)).value;
    forall a | !IsSystem(a) ensures Get(after, a) >= 0 {
      assert Get(before, a) == Get(after, a);
    }
  }

  lemma StepKeepsSolvent(p: Params, l: Ledger, e: Event)
    requires Solvent(p, l)
    ensures Solvent(p, After(p, l, e))
  {
    match e
    case Submission(t) =>
    case Mining(_, _, _, _, _, _, _) => MiningKeepsSolvent(p, l, e);
    case Pruning(keep) => if keep >= 1 { PruningKeepsSolvent(p, l, keep); }
    case PoolPruning(dropSystem) =>
  }

  predicate SustainedStep(p: Params, l: Ledger, e: Event)
    requires l.chain != []
  {
    e.Mining? && Appends(MineOf(p, l, e).1) ==> Sustainable(p, l, e.miner)
  }

  /** A step keeps the pool applicable exactly when it is not an append that cannot be sustained. */
  lemma StepKeepsHealthExactly(p: Params, l: Ledger, e: Event)
    requires Healthy(p, l)
    ensures Healthy(p, After(p, l, e)) <==> SustainedStep(p, l, e)
  {
    StepKeepsSolvent(p, l, e);
    match e
    case Submission(t) => SubmitKeepsPool(p, l, t);
    case Mining(_, _, _, _, _, _, _) =>
      if Appends(MineOf(p, l, e).1) { MiningKeepsPoolExactly(p, l, e); } else { MineOutcome(p, l, e); }
    case Pruning(keep) =>
      if keep >= 1 {
        PruneIsPrunedAt(p, l, keep);
        PruneKeepsPool(p, l, PruneDepth(|l.chain|, 0, keep));
      }
    case PoolPruning(dropSystem) => PrunePendingSound(p, l, dropSystem);
  }

  // ------------------------------------------------------------------ runs

  function RunOf(p: Params, l: Ledger, es: seq<Event>): (r: Ledger)
    requires l.chain != []
    ensures r.chain != []
    decreases |es|
  {
    if es == [] then l else RunOf(p, After(p, l, es[0]), es[1..])
  }

  /** Every append of the run is one that can be sustained. */
  predicate Sustained(p: Params, l: Ledger, es: seq<Event>)
    requires l.chain != []
    decreases |es|
  {
    es == [] || (SustainedStep(p, l, es[0]) && Sustained(p, After(p, l, es[0]), es[1..]))
  }

  /** A candidate built now takes the whole pool, in order. */
  predicate TakesAll(p: Params, l: Ledger) {
    ConfirmedBalances(p, l).Some? && Select(p, ConfirmedBalances(p, l).value, l.pending) == l.pending
  }

  predicate AlwaysTakesAll(p: Params, l: Ledger, es: seq<Event>)
    requires l.chain != []
    decreases |es|
  {
    TakesAll(p, l) && (es == [] || AlwaysTakesAll(p, After(p, l, es[0]), es[1..]))
  }

  /** Nothing admitted is dropped at mining, over whole runs, exactly when every append can be
      sustained: then, and only then, the next candidate takes the entire pool in every state. */
  lemma {:induction false} NothingAdmittedIsDropped(p: Params, l: Ledger, es: seq<Event>)
    requires Healthy(p, l)
    ensures AlwaysTakesAll(p, l, es) <==> Sustained(p, l, es)
    ensures Sustained(p, l, es) ==> Healthy(p, RunOf(p, l, es))
    decreases |es|
  {
    SelectAll(p, ConfirmedBalances(p, l).value, l.pending);
    if es != [] {
      var next := After(p, l, es[0]);
      StepKeepsHealthExactly(p, l, es[0]);
      StepKeepsSolvent(p, l, es[0]);
      SelectAll(p, ConfirmedBalances(p, next).value, next.pending);
      if Healthy(p, next) {
        NothingAdmittedIsDropped(p, next, es[1..]);
      }
    }
  }

  /** Whatever happens to the pool, no address outside SYSTEM_ADDRESSES is ever overdrawn. */
  lemma {:induction false} NobodyIsOverdrawn(p: Params, l: Ledger, es: seq<Event>)
    requires Solvent(p, l)
    ensures Solvent(p, RunOf(p, l, es))
    decreases |es|
  {
    if es != [] {
      StepKeepsSolvent(p, l, es[0]);
      NobodyIsOverdrawn(p, After(p, l, es[0]), es[1..]);
    }
  }

  /** A node that has just been started is healthy. */
  lemma GenesisHealthy(p: Params, genesis: Block, difficulty: int, miningReward: real)
    requires HasValidProof(p, genesis) && genesis.data.transactions == []
    ensures Healthy(p, Ledger([genesis], [], difficulty, miningReward, None))
  {
    assert Txs([genesis]) == [] + Txs([genesis][1..]);
  }
}
