/** The three-phase miner of blockchain/app.py (_mine_one_block) as a step system: any number
    of miners build candidates, work on them outside the lock, and finalize in any order,
    while transactions and peers' blocks arrive and the node prunes. */
module Mining {
  import opened Protocol
  import opened Balances
  import opened Rewards
  import opened Ledgers
  import opened Pruning
  import opened Reconciliation
  import opened Pool

  /** A candidate block in a miner's hands, with the tip hash it was built on. */
  datatype Candidate = Candidate(block: Block, expected: string)

  /** `history` is the full chain the node has ever had; `extended` records, for each append,
      the tip it was made on. Both are bookkeeping the node itself does not do. */
  datatype System = System(node: Ledger, history: seq<Block>, candidates: map<nat, Candidate>, extended: seq<string>)

  /** A peer's block goes through add_block and makes every candidate in hand stale; whatever
      the node then does to its pool, for that block or by itself, is an input. */
  datatype Action =
    | Arrive(t: Tx)
    | Build(id: nat, raw: string, miner: string, now: real, stamp: real)
    | Work(id: nat, nonce: int)
    | Complete(id: nat, paid: real, later: real)
    | Peer(b: Block, pool: seq<Tx>)
    | PruneNode(keep: nat)

  /** What finalizing reports, for Complete actions of miners whose proof of work is done. */
  function AnswerOf(p: Params, s: System, a: Action): Option<FinalizeAnswer>
    requires s.node.chain != []
  {
    if a.Complete? && a.id in s.candidates && HasValidProof(p, s.candidates[a.id].block)
    then Some(Finalize(p, s.node, s.candidates[a.id].block, s.candidates[a.id].expected, a.paid, a.later).1)
    else None
  }

  predicate Appended(answer: Option<FinalizeAnswer>) {
    answer == Some(Mined) || answer == Some(Unpaid)
  }

  function Act(p: Params, s: System, a: Action): System
    requires s.node.chain != []
  {
    match a
    case Arrive(t) => s.(node := Submit(p, s.node, t).0)
    case Build(id, raw, miner, now, stamp) =>
      (match BuildCandidate(p, s.node, raw, miner, now, stamp)
       case Built(b, expected) => s.(candidates := s.candidates[id := Candidate(b, expected)])
       case _ => s)
    case Work(id, nonce) =>
      if id in s.candidates
      then s.(candidates := s.candidates[id := s.candidates[id].(block := WithNonce(p, s.candidates[id].block, nonce))])
      else s
    case Complete(id, paid, later) =>
      var answer := AnswerOf(p, s, a);
      if answer.None? then s
      else
        var c := s.candidates[id];
        var node' := Finalize(p, s.node, c.block, c.expected, paid, later).0;
        if Appended(answer)
        then System(node', s.history + [c.block], s.candidates - {id}, s.extended + [c.expected])
        else s.(node := node', candidates := s.candidates - {id})
    case Peer(b, pool) =>
      if AdmitAnswer(p, s.node, b).Accepted?
      then System(Append(p, s.node, b).(pending := pool), s.history + [b], s.candidates,
                  s.extended + [Tip(s.node).hash])
      else s
    case PruneNode(keep) => s.(node := if keep >= 1 then Prune(p, s.node, keep) else s.node)
  }

  /** The clock runs forward during a build. */
  predicate Ordinary(a: Action) {
    a.Build? ==> a.now <= a.stamp
  }

  // -------------------------------------------------------------- invariant

  /** A candidate built on the current tip would be admitted as soon as its proof is done. */
  predicate Fresh(p: Params, l: Ledger, c: Candidate)
    requires l.chain != []
  {
    && c.block.data.index == Tip(l).data.index + 1
    && c.block.data.previousHash == Tip(l).hash
    && Gap(Tip(l), c.block) >= p.blockTimeMinimum as real
    && (SameMiner(Tip(l), c.block) ==> Gap(Tip(l), c.block) >= 2.0 * p.blockTimeMinimum as real)
    && ConfirmedBalances(p, l).Some?
    && ApplyTxs(p, ConfirmedBalances(p, l).value, c.block.data.transactions).Some?
    && Issued(c.block.data.transactions) <= Issued(l.pending)
  }

  /** A candidate was built on some block of the history, and if that is the tip it is fresh. */
  predicate CandidateOk(p: Params, l: Ledger, history: seq<Block>, c: Candidate)
    requires l.chain != []
  {
    && 0 < c.block.data.index <= |history|
    && history[c.block.data.index - 1].hash == c.expected
    && (c.block.data.index == |history| ==> Fresh(p, l, c))
  }

  predicate CandidatesOk(p: Params, l: Ledger, history: seq<Block>, candidates: map<nat, Candidate>)
    requires l.chain != []
  {
    forall id :: id in candidates ==> CandidateOk(p, l, history, candidates[id])
  }

  /** The node's chain is the end of its history, which is one unbroken line from genesis. */
  predicate OneLine(p: Params, chain: seq<Block>, history: seq<Block>) {
    && chain != []
    && |chain| <= |history|
    && chain == history[|history| - |chain|..]
    && HashChained(p, history)
    && Contiguous(history)
  }

  /** Appends were made on successive tips. */
  predicate ExtendedTips(history: seq<Block>, extended: seq<string>) {
    && |extended| < |history|
    && forall i :: 0 <= i < |extended| ==> extended[i] == history[|history| - 1 - |extended| + i].hash
  }

  predicate Inv(p: Params, s: System) {
    && OneLine(p, s.node.chain, s.history)
    && Valid(p, s.node)
    && ExtendedTips(s.history, s.extended)
    && CandidatesOk(p, s.node, s.history, s.candidates)
  }

  lemma TipIsLast(p: Params, l: Ledger, history: seq<Block>)
    requires OneLine(p, l.chain, history)
    ensures history != [] && Tip(l) == history[|history| - 1]
  {}

  lemma {:induction false} SelectIssued(p: Params, b: Accounts, pending: seq<Tx>)
    ensures Issued(Select(p, b, pending)) <= Issued(pending)
    decreases |pending|
  {
    if pending != [] {
      match ApplyTx(p, b, pending[0])
      case None => SelectIssued(p, b, pending[1..]);
      case Some(b') =>
        SelectIssued(p, b', pending[1..]);
        assert ([pending[0]] + Select(p, b', pending[1..]))[1..] == Select(p, b', pending[1..]);
    }
  }

  lemma BuiltIsFresh(p: Params, l: Ledger, raw: string, miner: string, now: real, stamp: real)
    requires l.chain != [] && now <= stamp
    requires BuildCandidate(p, l, raw, miner, now, stamp).Built?
    ensures var a := BuildCandidate(p, l, raw, miner, now, stamp);
            a.expectedPreviousHash == Tip(l).hash && Fresh(p, l, Candidate(a.block, a.expectedPreviousHash))
  {
    SelectApplies(p, ConfirmedBalances(p, l).value, l.pending);
    SelectIssued(p, ConfirmedBalances(p, l).value, l.pending);
  }

  lemma {:induction false} IssuedAppend(ts: seq<Tx>, t: Tx)
    ensures Issued(ts + [t]) == Issued(ts) + IssuedBy(t)
  {
    IssuedConcat(ts, [t]);
    assert Issued([t]) == IssuedBy(t) + Issued([t][1..]);
  }

  /** Candidates survive a step that leaves history and tip alone and keeps fresh ones fresh. */
  lemma CandidatesKept(p: Params, l: Ledger, l': Ledger, history: seq<Block>, candidates: map<nat, Candidate>)
    requires l.chain != [] && l'.chain != [] && CandidatesOk(p, l, history, candidates)
    requires forall c :: Fresh(p, l, c) ==> Fresh(p, l', c)
    ensures CandidatesOk(p, l', history, candidates)
  {}

  lemma CandidateAdded(p: Params, l: Ledger, history: seq<Block>, candidates: map<nat, Candidate>, id: nat,
                       c: Candidate)
    requires l.chain != [] && CandidatesOk(p, l, history, candidates) && CandidateOk(p, l, history, c)
    ensures CandidatesOk(p, l, history, candidates[id := c])
  {}

  lemma CandidateRemoved(p: Params, l: Ledger, history: seq<Block>, candidates: map<nat, Candidate>, id: nat)
    requires l.chain != [] && CandidatesOk(p, l, history, candidates)
    ensures CandidatesOk(p, l, history, candidates - {id})
  {}

  lemma SubmitFrame(p: Params, l: Ledger, t: Tx)
    ensures Submit(p, l, t).0 == l.(pending := Submit(p, l, t).0.pending)
    ensures Issued(Submit(p, l, t).0.pending) >= Issued(l.pending)
  {
    IssuedAppend(l.pending, t);
  }

  lemma {:induction false} FreshWithMorePending(p: Params, l: Ledger, pending: seq<Tx>, c: Candidate)
    requires l.chain != [] && Fresh(p, l, c) && Issued(pending) >= Issued(l.pending)
    ensures Fresh(p, l.(pending := pending), c)
  {}

  lemma ArriveKeeps(p: Params, s: System, t: Tx)
    requires Inv(p, s)
    ensures Inv(p, Act(p, s, Arrive(t)))
  {
    var l' := Submit(p, s.node, t).0;
    SubmitFrame(p, s.node, t);
    assert CandidatesOk(p, l', s.history, s.candidates) by {
      forall c | Fresh(p, s.node, c) ensures Fresh(p, l', c) {
        FreshWithMorePending(p, s.node, l'.pending, c);
      }
      CandidatesKept(p, s.node, l', s.history, s.candidates);
    }
  }

  lemma BuiltIsOk(p: Params, l: Ledger, history: seq<Block>, a: Action)
    requires OneLine(p, l.chain, history) && a.Build? && Ordinary(a)
    requires BuildCandidate(p, l, a.raw, a.miner, a.now, a.stamp).Built?
    ensures var r := BuildCandidate(p, l, a.raw, a.miner, a.now, a.stamp);
            CandidateOk(p, l, history, Candidate(r.block, r.expectedPreviousHash))
  {
    TipIsLast(p, l, history);
    BuiltIsFresh(p, l, a.raw, a.miner, a.now, a.stamp);
    assert history[|history| - 1].hash == Tip(l).hash;
  }

  lemma BuildKeeps(p: Params, s: System, a: Action)
    requires Inv(p, s) && a.Build? && Ordinary(a)
    ensures Inv(p, Act(p, s, a))
  {
    match BuildCandidate(p, s.node, a.raw, a.miner, a.now, a.stamp)
    case Built(b, expected) =>
      BuiltIsOk(p, s.node, s.history, a);
      CandidateAdded(p, s.node, s.history, s.candidates, a.id, Candidate(b, expected));
    case _ =>
  }

  lemma WorkKeeps(p: Params, s: System, id: nat, nonce: int)
    requires Inv(p, s)
    ensures Inv(p, Act(p, s, Work(id, nonce)))
  {}

  lemma FreshAfterPruning(p: Params, l: Ledger, n: nat, c: Candidate)
    requires Valid(p, l) && n < |l.chain| && Fresh(p, l, c)
    ensures Fresh(p, PrunedAt(p, l, n), c)
  {
    SeededBalancesAgree(p, l, n);
    ApplyTxsAgree(p, ConfirmedBalances(p, l).value, ConfirmedBalances(p, PrunedAt(p, l, n)).value,
                  c.block.data.transactions);
  }

  lemma PrunedCandidatesOk(p: Params, l: Ledger, n: nat, history: seq<Block>, candidates: map<nat, Candidate>)
    requires Valid(p, l) && n < |l.chain| && CandidatesOk(p, l, history, candidates)
    ensures CandidatesOk(p, PrunedAt(p, l, n), history, candidates)
  {
    forall c | Fresh(p, l, c) ensures Fresh(p, PrunedAt(p, l, n), c) {
      FreshAfterPruning(p, l, n, c);
    }
    CandidatesKept(p, l, PrunedAt(p, l, n), history, candidates);
  }

  lemma PrunedOneLine(p: Params, chain: seq<Block>, n: nat, history: seq<Block>)
    requires OneLine(p, chain, history) && n < |chain|
    ensures OneLine(p, chain[n..], history)
  {}

  lemma PrunedKeeps(p: Params, s: System, n: nat, s': System)
    requires Inv(p, s) && n < |s.node.chain| && s' == s.(node := PrunedAt(p, s.node, n))
    ensures Inv(p, s')
  {
    PruningKeepsValidity(p, s.node, n);
    PrunedOneLine(p, s.node.chain, n, s.history);
    PrunedCandidatesOk(p, s.node, n, s.history, s.candidates);
  }

  lemma PruneNodeKeeps(p: Params, s: System, keep: nat)
    requires Inv(p, s) && keep >= 1
    ensures Inv(p, Act(p, s, PruneNode(keep)))
  {
    PruneIsPrunedAt(p, s.node, keep);
    PrunedKeeps(p, s, PruneDepth(|s.node.chain|, 0, keep), Act(p, s, PruneNode(keep)));
  }

  // ---------------------------------------------------------- finalization

  /** A finished candidate is appended exactly when the block it was built on is still the tip,
      and is reported stale otherwise; only a digest shared by two different blocks of the line
      can turn "stale" into "not accepted". */
  lemma AppendedIffCurrent(p: Params, s: System, a: Action)
    requires Inv(p, s) && AnswerOf(p, s, a).Some?
    ensures Appended(AnswerOf(p, s, a)) <==> s.candidates[a.id].block.data.index == |s.history|
    ensures Appended(AnswerOf(p, s, a)) ==> s.candidates[a.id].expected == Tip(s.node).hash
    ensures !Appended(AnswerOf(p, s, a)) ==> AnswerOf(p, s, a) == Some(Stale) || Collide(p, s.history, s.history)
  {
    var c := s.candidates[a.id];
    assert CandidateOk(p, s.node, s.history, c);
    TipIsLast(p, s.node, s.history);
    if c.block.data.index < |s.history| && c.expected == Tip(s.node).hash {
      SameHashCollides(p, s.history, c.block.data.index - 1, |s.history| - 1);
    }
  }

  lemma SameHashCollides(p: Params, history: seq<Block>, i: nat, j: nat)
    requires HashChained(p, history) && Contiguous(history) && i < j < |history|
    requires history[i].hash == history[j].hash
    ensures Collide(p, history, history)
  {
    assert ChainedAt(p, history, i) && ChainedAt(p, history, j);
    assert CollideAt(p, history[i].data, history[j].data);
  }

  lemma ChainGrows(p: Params, l: Ledger, history: seq<Block>, b: Block)
    requires OneLine(p, l.chain, history) && Admissible(p, Tip(l), b)
    ensures OneLine(p, l.chain + [b], history + [b])
  {
    TipIsLast(p, l, history);
    var longer := history + [b];
    forall i | 0 <= i < |longer| ensures ChainedAt(p, longer, i) {
      if i < |history| {
        assert ChainedAt(p, history, i);
      }
    }
    assert l.chain + [b] == longer[|longer| - |l.chain + [b]|..];
  }

  lemma AppendCandidatesOk(p: Params, l: Ledger, l': Ledger, history: seq<Block>, candidates: map<nat, Candidate>,
                           b: Block)
    requires l.chain != [] && l'.chain != [] && CandidatesOk(p, l, history, candidates)
    ensures CandidatesOk(p, l', history + [b], candidates)
  {
    forall id | id in candidates ensures CandidateOk(p, l', history + [b], candidates[id]) {
      assert CandidateOk(p, l, history, candidates[id]);
    }
  }

  lemma AppendExtendedTips(p: Params, l: Ledger, history: seq<Block>, extended: seq<string>, b: Block)
    requires OneLine(p, l.chain, history) && ExtendedTips(history, extended)
    ensures ExtendedTips(history + [b], extended + [Tip(l).hash])
  {}

  lemma GrowKeeps(p: Params, s: System, l': Ledger, b: Block)
    requires Inv(p, s) && AdmitAnswer(p, s.node, b).Accepted?
    requires l'.chain == s.node.chain + [b] && l'.prunePoint == s.node.prunePoint
    ensures Inv(p, System(l', s.history + [b], s.candidates, s.extended + [Tip(s.node).hash]))
  {
    AdmissionKeepsValidity(p, s.node, b, false);
    ChainGrows(p, s.node, s.history, b);
    AppendExtendedTips(p, s.node, s.history, s.extended, b);
    AppendCandidatesOk(p, s.node, l', s.history, s.candidates, b);
  }

  lemma FinalizeChain(p: Params, l: Ledger, b: Block, expected: string, now: real, later: real)
    requires l.chain != []
    ensures var (l', answer) := Finalize(p, l, b, expected, now, later);
            if Appended(Some(answer))
            then AdmitAnswer(p, l, b).Accepted? && l'.chain == l.chain + [b] && l'.prunePoint == l.prunePoint
            else l' == l
  {}

  lemma CompleteKeeps(p: Params, s: System, a: Action)
    requires Inv(p, s) && a.Complete?
    ensures Inv(p, Act(p, s, a))
  {
    if AnswerOf(p, s, a).Some? {
      var c := s.candidates[a.id];
      AppendedIffCurrent(p, s, a);
      FinalizeChain(p, s.node, c.block, c.expected, a.paid, a.later);
      if Appended(AnswerOf(p, s, a)) {
        var l' := Finalize(p, s.node, c.block, c.expected, a.paid, a.later).0;
        GrowKeeps(p, s, l', c.block);
        CandidateRemoved(p, l', s.history + [c.block], s.candidates, a.id);
      } else {
        CandidateRemoved(p, s.node, s.history, s.candidates, a.id);
      }
    }
  }

  lemma ActKeeps(p: Params, s: System, a: Action)
    requires Inv(p, s) && Ordinary(a)
    ensures Inv(p, Act(p, s, a))
  {
    match a
    case Arrive(t) => ArriveKeeps(p, s, t);
    case Build(_, _, _, _, _) => BuildKeeps(p, s, a);
    case Work(id, nonce) => WorkKeeps(p, s, id, nonce);
    case Complete(_, _, _) => CompleteKeeps(p, s, a);
    case Peer(b, pool) =>
      if AdmitAnswer(p, s.node, b).Accepted? { GrowKeeps(p, s, Append(p, s.node, b).(pending := pool), b); }
    case PruneNode(keep) => if keep >= 1 { PruneNodeKeeps(p, s, keep); }
  }

  // ------------------------------------------------------------------ runs

  function Start(genesis: Block, difficulty: int, miningReward: real): System {
    System(Ledger([genesis], [], difficulty, miningReward, None), [genesis], map[], [])
  }

  predicate GenesisOk(p: Params, genesis: Block) {
    && HasValidProof(p, genesis)
    && genesis.data.index == 0
    && genesis.data.previousHash == GENESIS_MARKER
    && genesis.data.transactions == []
  }

  lemma StartInv(p: Params, genesis: Block, difficulty: int, miningReward: real)
    requires GenesisOk(p, genesis)
    ensures Inv(p, Start(genesis, difficulty, miningReward))
  {
    assert Txs([genesis]) == [] + Txs([genesis][1..]);
  }

  function ActAll(p: Params, s: System, actions: seq<Action>): (r: System)
    requires s.node.chain != []
    ensures r.node.chain != []
    decreases |actions|
  {
    if actions == [] then s else ActAll(p, Act(p, s, actions[0]), actions[1..])
  }

  predicate AllOrdinary(actions: seq<Action>) {
    forall i :: 0 <= i < |actions| ==> Ordinary(actions[i])
  }

  lemma {:induction false} RunKeeps(p: Params, s: System, actions: seq<Action>)
    requires Inv(p, s) && AllOrdinary(actions)
    ensures Inv(p, ActAll(p, s, actions))
    decreases |actions|
  {
    if actions != [] {
      ActKeeps(p, s, actions[0]);
      RunKeeps(p, Act(p, s, actions[0]), actions[1..]);
    }
  }

  lemma TipsDistinct(p: Params, history: seq<Block>, extended: seq<string>)
    requires HashChained(p, history) && Contiguous(history) && ExtendedTips(history, extended)
    ensures Collide(p, history, history) || forall i, j :: 0 <= i < j < |extended| ==> extended[i] != extended[j]
  {
    if i, j :| 0 <= i < j < |extended| && extended[i] == extended[j] {
      var first := |history| - 1 - |extended|;
      SameHashCollides(p, history, first + i, first + j);
    }
  }

  lemma OneLineAtEnd(p: Params, end: System)
    requires Inv(p, end)
    ensures HashChained(p, end.history) && Contiguous(end.history) && |end.node.chain| <= |end.history|
    ensures end.node.chain == end.history[|end.history| - |end.node.chain|..]
    ensures Collide(p, end.history, end.history) ||
            forall i, j :: 0 <= i < j < |end.extended| ==> end.extended[i] != end.extended[j]
  {
    TipsDistinct(p, end.history, end.extended);
  }

  /** Mining never forks: over any interleaving of any number of miners and peers' blocks the history is one line
      of contiguous indices and true back-links, and no tip is extended twice, unless two
      different blocks of the line share a digest. */
  lemma {:induction false} NeverForks(p: Params, genesis: Block, difficulty: int, miningReward: real,
                                      actions: seq<Action>)
    requires GenesisOk(p, genesis) && AllOrdinary(actions)
    ensures var end := ActAll(p, Start(genesis, difficulty, miningReward), actions);
            && HashChained(p, end.history)
            && Contiguous(end.history)
            && |end.node.chain| <= |end.history|
            && end.node.chain == end.history[|end.history| - |end.node.chain|..]
            && (Collide(p, end.history, end.history) ||
                forall i, j :: 0 <= i < j < |end.extended| ==> end.extended[i] != end.extended[j])
  {
    var s := Start(genesis, difficulty, miningReward);
    var end := ActAll(p, s, actions);
    StartInv(p, genesis, difficulty, miningReward);
    RunKeeps(p, s, actions);
    OneLineAtEnd(p, end);
  }
}
