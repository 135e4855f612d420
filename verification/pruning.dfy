/** prune_chain replaces old blocks by a balance snapshot. This module shows that nobody
    can tell: pruning keeps the chain valid, composes, and a pruned node answers every
    later request like its unpruned twin. */
module Pruning {
  import opened Protocol
  import opened Balances
  import opened Rewards
  import opened Ledgers

  // ---------------------------------------------------------- composition

  lemma SplitTxs(chain: seq<Block>, i: nat, j: nat)
    requires i <= j <= |chain|
    ensures Txs(chain[..j]) == Txs(chain[..i]) + Txs(chain[i..j])
    ensures Txs(chain[i..]) == Txs(chain[i..j]) + Txs(chain[j..])
  {
    assert chain[..j] == chain[..i] + chain[i..j];
    TxsConcat(chain[..i], chain[i..j]);
    assert chain[i..] == chain[i..j] + chain[j..];
    TxsConcat(chain[i..j], chain[j..]);
  }

  lemma {:induction false} BalancesCompose(b: Accounts, xs: seq<Tx>, ys: seq<Tx>)
    ensures NonZero(Settle(NonZero(Settle(b, xs)), ys)) == NonZero(Settle(b, xs + ys))
  {
    SettleConcat(b, xs, ys);
    NonZeroSame(Settle(b, xs));
    SettleSame(NonZero(Settle(b, xs)), Settle(b, xs), ys);
    NonZeroCanonical(Settle(NonZero(Settle(b, xs)), ys), Settle(Settle(b, xs), ys));
  }

  /** A snapshot taken on top of a prune point is the snapshot of the full history. */
  lemma SnapshotComposes(p: Params, chain: seq<Block>, pp: Option<PrunePoint>, n: nat, m: nat)
    requires 0 < n < m <= |chain|
    ensures SnapshotAt(chain[n..], Some(PointAt(p, chain, pp, n)), m - n) == SnapshotAt(chain, pp, m)
  {
    assert chain[n..][..m - n] == chain[n..m];
    assert chain[n..][m - n - 1] == chain[m - 1];
    SplitTxs(chain, n, m);
    IssuedConcat(Txs(chain[..n]), Txs(chain[n..m]));
    BalancesCompose(SeedBalances(pp), Txs(chain[..n]), Txs(chain[n..m]));
  }

  function PruneDepth(length: nat, n: nat, keep: nat): nat
    requires n < length && keep >= 1
  {
    if length - n <= keep then n else length - keep
  }

  lemma PruneIsPrunedAt(p: Params, l: Ledger, keep: nat)
    requires l.chain != [] && keep >= 1
    ensures Prune(p, l, keep) == PrunedAt(p, l, PruneDepth(|l.chain|, 0, keep))
  {}

  /** Pruning a pruned node is pruning the full node once, to the final depth. */
  lemma PruneOfPruned(p: Params, full: Ledger, n: nat, keep: nat)
    requires n < |full.chain| && keep >= 1
    ensures Prune(p, PrunedAt(p, full, n), keep) == PrunedAt(p, full, PruneDepth(|full.chain|, n, keep))
  {
    var l := PrunedAt(p, full, n);
    var m := PruneDepth(|full.chain|, n, keep);
    if n != 0 && m != n {
      SnapshotComposes(p, full.chain, full.prunePoint, n, m);
      assert full.chain[n..][m - n..] == full.chain[m..];
    }
  }

  /** Two-stage pruning equals pruning once: same blocks, snapshot, issued total and commitment. */
  lemma PruneComposes(p: Params, l: Ledger, first: nat, second: nat)
    requires l.chain != [] && first >= second >= 1
    ensures Prune(p, Prune(p, l, first), second) == Prune(p, l, second)
  {
    PruneIsPrunedAt(p, l, first);
    PruneOfPruned(p, l, PruneDepth(|l.chain|, 0, first), second);
    PruneIsPrunedAt(p, l, second);
  }

  // ------------------------------------------------ balances and validity

  /** The snapshot seeds the ledger rule as well as the dropped blocks did. */
  lemma SeededBalancesAgree(p: Params, l: Ledger, n: nat)
    requires n < |l.chain| && ConfirmedBalances(p, l).Some?
    ensures ConfirmedBalances(p, PrunedAt(p, l, n)).Some?
    ensures Agree(ConfirmedBalances(p, l).value, ConfirmedBalances(p, PrunedAt(p, l, n)).value)
  {
    if n > 0 {
      var seed := SeedBalances(l.prunePoint);
      var gone, kept := Txs(l.chain[..n]), Txs(l.chain[n..]);
      SplitTxs(l.chain, 0, n);
      assert l.chain[0..] == l.chain && l.chain[0..n] == l.chain[..n];
      ApplyTxsConcat(p, seed, gone, kept);
      ApplyTxsAgree(p, seed, seed, gone);
      var snapshot := NonZero(Settle(seed, gone));
      NonZeroSame(Settle(seed, gone));
      assert Agree(Settle(seed, gone), snapshot);
      var before := ApplyTxs(p, seed, gone).value;
      assert Agree(before, snapshot) by {
        forall a | !IsSystem(a) ensures Get(before, a) == Get(snapshot, a) {
          assert Get(before, a) == Get(Settle(seed, gone), a);
        }
      }
      ApplyTxsAgree(p, before, snapshot, kept);
    }
  }

  /** Pruning keeps a valid chain valid, whatever was pruned before. */
  lemma PruningKeepsValidity(p: Params, l: Ledger, n: nat)
    requires Valid(p, l) && n < |l.chain|
    ensures Valid(p, PrunedAt(p, l, n))
  {
    if n > 0 {
      SeededBalancesAgree(p, l, n);
      assert LinkAt(p, l.chain, n, false);
      var kept := l.chain[n..];
      forall i | 0 < i < |kept| ensures LinkAt(p, kept, i, false) {
        assert LinkAt(p, l.chain, n + i, false);
      }
    }
  }

  lemma PruneKeepsValidity(p: Params, l: Ledger, keep: nat)
    requires Valid(p, l) && keep >= 1
    ensures Valid(p, Prune(p, l, keep))
  {
    PruneIsPrunedAt(p, l, keep);
    PruningKeepsValidity(p, l, PruneDepth(|l.chain|, 0, keep));
  }

  lemma PruningKeepsIssued(p: Params, l: Ledger, n: nat)
    requires n < |l.chain|
    ensures TotalIssued(PrunedAt(p, l, n)) == TotalIssued(l)
  {
    if n > 0 {
      SplitTxs(l.chain, 0, n);
      assert l.chain[0..] == l.chain && l.chain[0..n] == l.chain[..n];
      IssuedConcat(Txs(l.chain[..n]), Txs(l.chain[n..]));
    }
  }

  lemma {:induction false} DeltasConcat(xs: seq<Tx>, ys: seq<Tx>, a: Address)
    ensures Deltas(xs + ys, a) == Deltas(xs, a) + Deltas(ys, a)
  {
    if xs == [] {
      assert xs + ys == ys;
    } else {
      assert (xs + ys)[1..] == xs[1..] + ys;
      DeltasConcat(xs[1..], ys, a);
    }
  }

  /** The index rule moves every address by what it received minus what it sent; SYSTEM
      alone also keeps what it minted. */
  lemma {:induction false} SettleDeltas(b: Accounts, ts: seq<Tx>, a: Address)
    ensures Get(Settle(b, ts), a) == Get(b, a) + Deltas(ts, a) + (if a == SYSTEM then Issued(ts) else 0)
    decreases |ts|
  {
    if ts != [] {
      SettleDeltas(SettleTx(b, ts[0]), ts[1..], a);
    }
  }

  lemma PruningKeepsBalances(p: Params, l: Ledger, n: nat, a: Address)
    requires n < |l.chain|
    ensures a != SYSTEM ==> ScannedBalance(PrunedAt(p, l, n), a) == ScannedBalance(l, a)
  {
    if n > 0 && a != SYSTEM {
      var gone, kept := Txs(l.chain[..n]), Txs(l.chain[n..]);
      SplitTxs(l.chain, 0, n);
      assert l.chain[0..] == l.chain && l.chain[0..n] == l.chain[..n];
      assert Txs(l.chain) + l.pending == gone + (kept + l.pending);
      DeltasConcat(gone, kept + l.pending, a);
      SettleDeltas(SeedBalances(l.prunePoint), gone, a);
      NonZeroSame(Settle(SeedBalances(l.prunePoint), gone));
    }
  }

  // ---------------------------------------------------------- bisimulation

  datatype Event =
    | SubmitTx(t: Tx)
    | PeerBlock(b: Block)
    | BuildRequest(raw: string, miner: string, now: real, stamp: real)
    | FinalizeBlock(b: Block, expected: string, now: real, later: real)
    | PruneTo(keep: nat)

  datatype Reply =
    | SubmitReply(submit: SubmitAnswer)
    | BlockReply(block: Answer)
    | BuildReply(build: BuildAnswer)
    | FinalizeReply(finalize: FinalizeAnswer)
    | PruneReply

  function Step(p: Params, l: Ledger, e: Event): (Ledger, Reply)
    requires l.chain != []
  {
    match e
    case SubmitTx(t) => (Submit(p, l, t).0, SubmitReply(Submit(p, l, t).1))
    case PeerBlock(b) => (AddBlock(p, l, b).0, BlockReply(AddBlock(p, l, b).1))
    case BuildRequest(raw, miner, now, stamp) => (l, BuildReply(BuildCandidate(p, l, raw, miner, now, stamp)))
    case FinalizeBlock(b, expected, now, later) =>
      (Finalize(p, l, b, expected, now, later).0, FinalizeReply(Finalize(p, l, b, expected, now, later).1))
    case PruneTo(keep) => (if keep >= 1 then Prune(p, l, keep) else l, PruneReply)
  }

  /** A node that ignores requests to prune. */
  function UnprunedStep(p: Params, l: Ledger, e: Event): (Ledger, Reply)
    requires l.chain != []
  {
    if e.PruneTo? then (l, PruneReply) else Step(p, l, e)
  }

  lemma StepKeepsValidity(p: Params, l: Ledger, e: Event)
    requires Valid(p, l)
    ensures Valid(p, Step(p, l, e).0)
  {
    match e
    case SubmitTx(t) =>
    case PeerBlock(b) =>
      if AdmitAnswer(p, l, b).Accepted? { AdmissionKeepsValidity(p, l, b, false); }
    case BuildRequest(raw, miner, now, stamp) =>
    case FinalizeBlock(b, expected, now, later) =>
      if AdmitAnswer(p, l, b).Accepted? { AdmissionKeepsValidity(p, l, b, false); }
    case PruneTo(keep) =>
      if keep >= 1 { PruneKeepsValidity(p, l, keep); }
  }

  /** The node keeps the retarget window: nothing is pruned, or at least ten blocks are kept. */
  predicate KeepsWindow(full: Ledger, n: nat) {
    n < |full.chain| && (n == 0 || |full.chain| - n >= DIFFICULTY_ADJUSTMENT_INTERVAL)
  }

  lemma {:induction false} SelectAgree(p: Params, b: Accounts, c: Accounts, pending: seq<Tx>)
    requires Agree(b, c)
    ensures Select(p, b, pending) == Select(p, c, pending)
    decreases |pending|
  {
    if pending != [] {
      ApplyTxAgree(p, b, c, pending[0]);
      match ApplyTx(p, b, pending[0])
      case None => SelectAgree(p, b, c, pending[1..]);
      case Some(b') => SelectAgree(p, b', ApplyTx(p, c, pending[0]).value, pending[1..]);
    }
  }

  lemma SubmitTwin(p: Params, full: Ledger, n: nat, t: Tx)
    requires Valid(p, full) && n < |full.chain|
    ensures Submit(p, PrunedAt(p, full, n), t) == (PrunedAt(p, Submit(p, full, t).0, n), Submit(p, full, t).1)
  {
    SeededBalancesAgree(p, full, n);
    assert Agree(ConfirmedBalances(p, full).value, ConfirmedBalances(p, PrunedAt(p, full, n)).value);
  }

  lemma AppendTwin(p: Params, full: Ledger, n: nat, b: Block)
    requires KeepsWindow(full, n)
    ensures Append(p, PrunedAt(p, full, n), b) == PrunedAt(p, Append(p, full, b), n)
  {
    var longer := full.chain + [b];
    if n > 0 {
      assert full.chain[n..] + [b] == longer[n..];
      assert longer[..n] == full.chain[..n];
      assert PointAt(p, longer, full.prunePoint, n) == PointAt(p, full.chain, full.prunePoint, n);
    }
  }

  lemma AdmitTwin(p: Params, full: Ledger, n: nat, b: Block)
    requires Valid(p, full) && n < |full.chain|
    ensures AdmitAnswer(p, PrunedAt(p, full, n), b) == AdmitAnswer(p, full, b)
  {
    SeededBalancesAgree(p, full, n);
    ApplyTxsAgree(p, ConfirmedBalances(p, full).value, ConfirmedBalances(p, PrunedAt(p, full, n)).value,
                  b.data.transactions);
  }

  lemma AddBlockTwin(p: Params, full: Ledger, n: nat, b: Block)
    requires Valid(p, full) && KeepsWindow(full, n)
    ensures AddBlock(p, PrunedAt(p, full, n), b) == (PrunedAt(p, AddBlock(p, full, b).0, n), AddBlock(p, full, b).1)
  {
    AdmitTwin(p, full, n, b);
    AppendTwin(p, full, n, b);
  }

  lemma PayTwin(p: Params, full: Ledger, n: nat, b: Block, now: real, later: real)
    requires n < |full.chain|
    ensures Pay(PrunedAt(p, full, n), b, now, later) ==
              (PrunedAt(p, Pay(full, b, now, later).0, n), Pay(full, b, now, later).1)
  {
    PruningKeepsIssued(p, full, n);
  }

  lemma FinalizeAsTwin(p: Params, full: Ledger, n: nat, answer: Answer, b: Block, expected: string, now: real,
                       later: real)
    requires KeepsWindow(full, n)
    ensures FinalizeAs(p, PrunedAt(p, full, n), answer, b, expected, now, later) ==
            (PrunedAt(p, FinalizeAs(p, full, answer, b, expected, now, later).0, n),
             FinalizeAs(p, full, answer, b, expected, now, later).1)
  {
    if answer.Accepted? {
      AppendTwin(p, full, n, b);
      PayTwin(p, Append(p, full, b), n, b, now, later);
    }
  }

  lemma FinalizeTwin(p: Params, full: Ledger, n: nat, b: Block, expected: string, now: real, later: real)
    requires Valid(p, full) && KeepsWindow(full, n)
    ensures Finalize(p, PrunedAt(p, full, n), b, expected, now, later) ==
            (PrunedAt(p, Finalize(p, full, b, expected, now, later).0, n), Finalize(p, full, b, expected, now, later).1)
  {
    AdmitTwin(p, full, n, b);
    FinalizeAsTwin(p, full, n, AdmitAnswer(p, full, b), b, expected, now, later);
  }

  lemma CandidateTwin(p: Params, full: Ledger, n: nat, miner: string, stamp: real)
    requires n < |full.chain| && ConfirmedBalances(p, full).Some?
    ensures ConfirmedBalances(p, PrunedAt(p, full, n)).Some?
    ensures CandidateBlock(p, PrunedAt(p, full, n), miner, stamp) == CandidateBlock(p, full, miner, stamp)
  {
    SeededBalancesAgree(p, full, n);
    SelectAgree(p, ConfirmedBalances(p, full).value, ConfirmedBalances(p, PrunedAt(p, full, n)).value, full.pending);
  }

  lemma SameBuild(p: Params, l: Ledger, m: Ledger, raw: string, miner: string, now: real, stamp: real)
    requires Valid(p, l) && Valid(p, m) && Tip(l) == Tip(m)
    requires CandidateBlock(p, l, miner, stamp) == CandidateBlock(p, m, miner, stamp)
    ensures BuildCandidate(p, l, raw, miner, now, stamp) == BuildCandidate(p, m, raw, miner, now, stamp)
  {}

  lemma TipTwin(p: Params, full: Ledger, n: nat)
    requires n < |full.chain|
    ensures Tip(PrunedAt(p, full, n)) == Tip(full)
  {}

  lemma BuildTwin(p: Params, full: Ledger, n: nat, raw: string, miner: string, now: real, stamp: real)
    requires Valid(p, full) && n < |full.chain|
    ensures BuildCandidate(p, PrunedAt(p, full, n), raw, miner, now, stamp) ==
              BuildCandidate(p, full, raw, miner, now, stamp)
  {
    PruningKeepsValidity(p, full, n);
    TipTwin(p, full, n);
    CandidateTwin(p, full, n, miner, stamp);
    SameBuild(p, PrunedAt(p, full, n), full, raw, miner, now, stamp);
  }

  function TwinDepth(full: Ledger, n: nat, e: Event): nat
    requires n < |full.chain|
  {
    if e.PruneTo? && e.keep >= 1 then PruneDepth(|full.chain|, n, e.keep) else n
  }

  lemma StepKeepsWindow(p: Params, full: Ledger, n: nat, e: Event)
    requires KeepsWindow(full, n)
    requires e.PruneTo? ==> e.keep >= DIFFICULTY_ADJUSTMENT_INTERVAL
    ensures KeepsWindow(UnprunedStep(p, full, e).0, TwinDepth(full, n, e))
  {}

  /** One step of the bisimulation. */
  lemma StepTwin(p: Params, full: Ledger, n: nat, e: Event)
    requires Valid(p, full) && KeepsWindow(full, n)
    requires e.PruneTo? ==> e.keep >= DIFFICULTY_ADJUSTMENT_INTERVAL
    ensures KeepsWindow(UnprunedStep(p, full, e).0, TwinDepth(full, n, e))
    ensures Step(p, PrunedAt(p, full, n), e) ==
            (PrunedAt(p, UnprunedStep(p, full, e).0, TwinDepth(full, n, e)), UnprunedStep(p, full, e).1)
  {
    StepKeepsWindow(p, full, n, e);
    match e
    case SubmitTx(t) => SubmitTwin(p, full, n, t);
    case PeerBlock(b) => AddBlockTwin(p, full, n, b);
    case BuildRequest(raw, miner, now, stamp) => BuildTwin(p, full, n, raw, miner, now, stamp);
    case FinalizeBlock(b, expected, now, later) => FinalizeTwin(p, full, n, b, expected, now, later);
    case PruneTo(keep) => PruneOfPruned(p, full, n, keep);
  }

  function Run(p: Params, l: Ledger, es: seq<Event>): (r: (Ledger, seq<Reply>))
    requires l.chain != []
    ensures r.0.chain != []
    decreases |es|
  {
    if es == [] then (l, [])
    else
      var (l', reply) := Step(p, l, es[0]);
      var (l'', replies) := Run(p, l', es[1..]);
      (l'', [reply] + replies)
  }

  function UnprunedRun(p: Params, l: Ledger, es: seq<Event>): (r: (Ledger, seq<Reply>))
    requires l.chain != []
    ensures r.0.chain != []
    decreases |es|
  {
    if es == [] then (l, [])
    else
      var (l', reply) := UnprunedStep(p, l, es[0]);
      var (l'', replies) := UnprunedRun(p, l', es[1..]);
      (l'', [reply] + replies)
  }

  /** Everything a client can read off a node, apart from the number of retained blocks. */
  ghost predicate SameFromOutside(l: Ledger, m: Ledger)
    requires l.chain != [] && m.chain != []
  {
    && Height(l) == Height(m)
    && Tip(l) == Tip(m)
    && l.pending == m.pending
    && l.difficulty == m.difficulty
    && CurrentReward(l) == CurrentReward(m)
    && TotalIssued(l) == TotalIssued(m)
    && forall a :: a != SYSTEM ==> ScannedBalance(l, a) == ScannedBalance(m, a)
  }

  lemma TwinsLookAlike(p: Params, full: Ledger, n: nat)
    requires Valid(p, full) && n < |full.chain|
    ensures SameFromOutside(PrunedAt(p, full, n), full) && Valid(p, PrunedAt(p, full, n))
  {
    PruningKeepsIssued(p, full, n);
    PruningKeepsValidity(p, full, n);
    forall a | a != SYSTEM ensures ScannedBalance(PrunedAt(p, full, n), a) == ScannedBalance(full, a) {
      PruningKeepsBalances(p, full, n, a);
    }
  }

  /** Pruning is unobservable over whole runs: a node pruned to at least ten blocks, which
      may go on pruning to at least ten, gives the answers of its unpruned twin for ever. */
  lemma {:induction false} PruningUnobservable(p: Params, full: Ledger, n: nat, es: seq<Event>)
    requires Valid(p, full) && KeepsWindow(full, n)
    requires forall i :: 0 <= i < |es| && es[i].PruneTo? ==> es[i].keep >= DIFFICULTY_ADJUSTMENT_INTERVAL
    ensures Run(p, PrunedAt(p, full, n), es).1 == UnprunedRun(p, full, es).1
    ensures SameFromOutside(Run(p, PrunedAt(p, full, n), es).0, UnprunedRun(p, full, es).0)
    ensures Valid(p, Run(p, PrunedAt(p, full, n), es).0)
    decreases |es|
  {
    if es == [] {
      TwinsLookAlike(p, full, n);
    } else {
      StepTwin(p, full, n, es[0]);
      StepKeepsValidity(p, full, es[0]);
      PruningUnobservable(p, UnprunedStep(p, full, es[0]).0, TwinDepth(full, n, es[0]), es[1..]);
    }
  }

  /** Appending the block makes the full node reconsider its difficulty. */
  predicate RetargetDue(p: Params, chain: seq<Block>, b: Block) {
    && p.retargets && |chain| >= DIFFICULTY_ADJUSTMENT_INTERVAL
    && b.data.index > 0 && b.data.index % DIFFICULTY_ADJUSTMENT_INTERVAL == 0
  }

  /** Ten is exact. With fewer blocks kept the pruned node skips every retarget, so the twins
      agree just when none is due, or the last ten blocks took between 450 and 750 seconds, or
      longer at the least difficulty. */
  lemma RetargetNeedsWindow(p: Params, full: Ledger, n: nat, b: Block)
    requires n < |full.chain|
    ensures Append(p, PrunedAt(p, full, n), b).difficulty == Append(p, full, b).difficulty
            <==>
            || |full.chain| - n >= DIFFICULTY_ADJUSTMENT_INTERVAL
            || !RetargetDue(p, full.chain, b)
            || var seconds := Gap(full.chain[|full.chain| - DIFFICULTY_ADJUSTMENT_INTERVAL], b);
               450.0 <= seconds && (seconds <= 750.0 || full.difficulty == 2)
  {
    if RetargetDue(p, full.chain, b) {
      assert (full.chain + [b])[|full.chain| - DIFFICULTY_ADJUSTMENT_INTERVAL] ==
             full.chain[|full.chain| - DIFFICULTY_ADJUSTMENT_INTERVAL];
    }
  }
}
