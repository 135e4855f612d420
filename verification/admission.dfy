/** What the node's checks mean, in the fields of the blocks and transactions they look at: who may
    send, what a list of transactions needs to apply, which blocks are let in and which chains are
    valid. */
module Admission {
  import opened Protocol
  import opened Balances
  import opened Rewards
  import opened Ledgers
  import opened Pruning
  import opened Pool

  // ---------------------------------------------------------- proof of work

  /** The first n characters are zeros, and there are that many. */
  predicate LeadingZeros(h: string, n: int) {
    n <= |h| && forall i :: 0 <= i < n ==> h[i] == '0'
  }

  lemma {:induction false} ZerosLength(n: int)
    ensures |Zeros(n)| == if n > 0 then n else 0
    ensures forall i :: 0 <= i < |Zeros(n)| ==> Zeros(n)[i] == '0'
    decreases if n < 0 then 0 else n
  {
    if n > 0 {
      ZerosLength(n - 1);
    }
  }

  /** A hash one zero short is refused, one with exactly enough is not. */
  lemma StartsWithZerosExactly(h: string, n: int)
    ensures StartsWithZeros(h, n) <==> LeadingZeros(h, n)
  {
    ZerosLength(n);
  }

  /** The recorded hash is the digest of the hashed fields and has its zeros. */
  predicate Proven(p: Params, b: Block) {
    b.hash == p.digest(b.data) && LeadingZeros(b.hash, b.difficulty)
  }

  lemma ProvenExactly(p: Params, b: Block)
    ensures HasValidProof(p, b) <==> Proven(p, b)
  {
    StartsWithZerosExactly(b.hash, b.difficulty);
  }

  // --------------------------------------------------------- authorization

  predicate Signed(p: Params, t: Tx) {
    && t.signature.Some? && t.signature.value != ""
    && t.publicKey.Some? && t.publicKey.value != ""
    && p.signatureOk(t)
  }

  /** The node's own addresses sign nothing; everyone else signs, except to repay a loan. */
  predicate Authorised(p: Params, t: Tx) {
    if t.sender == "SYSTEM" || t.sender == "LENDING_POOL" || t.sender == "VORLIQ_TREASURY" then t.signature == None
    else Signed(p, t) || (t.receiver == "LENDING_POOL" && t.signature == None)
  }

  lemma AuthorisedExactly(p: Params, t: Tx)
    ensures Verifies(p, t) <==> Authorised(p, t)
  {}

  // ------------------------------------------------------ applying a list

  /** What an address receives. */
  function Received(ts: seq<Tx>, a: Address): int {
    if ts == [] then 0
    else
      var last := ts[|ts| - 1];
      Received(ts[..|ts| - 1], a) + (if last.receiver == a then last.amount else 0)
  }

  /** What an address sends. */
  function Sent(ts: seq<Tx>, a: Address): int {
    if ts == [] then 0
    else
      var last := ts[|ts| - 1];
      Sent(ts[..|ts| - 1], a) + (if last.sender == a then last.amount else 0)
  }

  /** What is issued is what SYSTEM sends. */
  lemma {:induction false} IssuedIsSent(ts: seq<Tx>)
    ensures Issued(ts) == Sent(ts, SYSTEM)
    decreases |ts|
  {
    if ts != [] {
      var init, last := ts[..|ts| - 1], ts[|ts| - 1];
      assert ts == init + [last];
      IssuedIsSent(init);
      IssuedConcat(init, [last]);
      assert Issued([last]) == IssuedBy(last) + Issued([last][1..]);
    }
  }

  lemma {:induction false} DeltasAppend(ts: seq<Tx>, t: Tx, a: Address)
    ensures Deltas(ts + [t], a) == Deltas(ts, a) + Delta(t, a)
  {
    DeltasConcat(ts, [t], a);
    assert Deltas([t], a) == Delta(t, a) + Deltas([t][1..], a);
  }

  lemma {:induction false} PendingSpendConcat(xs: seq<Tx>, ys: seq<Tx>, a: Address)
    ensures PendingSpend(xs + ys, a) == PendingSpend(xs, a) + PendingSpend(ys, a)
  {
    if xs == [] {
      assert xs + ys == ys;
    } else {
      assert (xs + ys)[1..] == xs[1..] + ys;
      PendingSpendConcat(xs[1..], ys, a);
    }
  }

  /** The spendability test counts each pending amount of the sender once, and nothing else. */
  lemma {:induction false} PendingSpendIsSent(ts: seq<Tx>, a: Address)
    ensures PendingSpend(ts, a) == Sent(ts, a)
    decreases |ts|
  {
    if ts != [] {
      var init, last := ts[..|ts| - 1], ts[|ts| - 1];
      assert ts == init + [last];
      PendingSpendIsSent(init, a);
      PendingSpendConcat(init, [last], a);
      assert PendingSpend([last], a) == (if last.sender == a then last.amount else 0) + PendingSpend([last][1..], a);
    }
  }

  lemma {:induction false} DeltasAre(ts: seq<Tx>, a: Address)
    ensures Deltas(ts, a) == Received(ts, a) - Sent(ts, a)
    decreases |ts|
  {
    if ts != [] {
      var init, last := ts[..|ts| - 1], ts[|ts| - 1];
      assert ts == init + [last];
      DeltasAre(init, a);
      DeltasAppend(init, last, a);
    }
  }

  /** An accepted list moves every ordinary address by what it receives less what it sends. */
  lemma {:induction false} AppliedBalance(p: Params, b: Accounts, ts: seq<Tx>, a: Address)
    requires ApplyTxs(p, b, ts).Some? && !IsSystem(a)
    ensures Get(ApplyTxs(p, b, ts).value, a) == Get(b, a) + Received(ts, a) - Sent(ts, a)
  {
    ApplyTxsAgree(p, b, b, ts);
    SettleDeltas(b, ts, a);
    DeltasAre(ts, a);
  }

  /** When its turn comes, the sender has the amount: what it had, and what it received before, less
      what it sent before. */
  predicate Covered(b: Accounts, ts: seq<Tx>, i: nat)
    requires i < |ts|
  {
    var t := ts[i];
    t.sender == "SYSTEM" || t.sender == "LENDING_POOL" ||
    Get(b, t.sender) + Received(ts[..i], t.sender) - Sent(ts[..i], t.sender) >= t.amount
  }

  predicate AllCovered(p: Params, b: Accounts, ts: seq<Tx>) {
    forall i :: 0 <= i < |ts| ==> Authorised(p, ts[i]) && Covered(b, ts, i)
  }

  lemma AllCoveredAppend(p: Params, b: Accounts, ts: seq<Tx>, t: Tx)
    ensures AllCovered(p, b, ts + [t]) <==>
              AllCovered(p, b, ts) && Authorised(p, t) && Covered(b, ts + [t], |ts|)
  {
    var us := ts + [t];
    forall i | 0 <= i < |ts| ensures us[i] == ts[i] && (Covered(b, us, i) <==> Covered(b, ts, i)) {
      assert us[..i] == ts[..i];
    }
    if AllCovered(p, b, us) {
      assert Authorised(p, us[|ts|]) && Covered(b, us, |ts|);
      forall i | 0 <= i < |ts| ensures Authorised(p, ts[i]) && Covered(b, ts, i) {
        assert Authorised(p, us[i]) && Covered(b, us, i);
      }
    }
    if AllCovered(p, b, ts) && Authorised(p, t) && Covered(b, us, |ts|) {
      forall i | 0 <= i < |us| ensures Authorised(p, us[i]) && Covered(b, us, i) {
        if i < |ts| {
          assert Authorised(p, ts[i]) && Covered(b, ts, i);
        }
      }
    }
  }

  /** A list of transactions is accepted exactly when each is authorised and covered in its turn. */
  lemma {:induction false} AppliesExactly(p: Params, b: Accounts, ts: seq<Tx>)
    ensures ApplyTxs(p, b, ts).Some? <==> AllCovered(p, b, ts)
    decreases |ts|
  {
    if ts != [] {
      var init, last := ts[..|ts| - 1], ts[|ts| - 1];
      assert ts == init + [last];
      AppliesExactly(p, b, init);
      AllCoveredAppend(p, b, init, last);
      ApplyTxsConcat(p, b, init, [last]);
      if ApplyTxs(p, b, init).Some? {
        OneMore(p, b, init, last);
      }
    }
  }

  lemma {:induction false} OneMore(p: Params, b: Accounts, ts: seq<Tx>, t: Tx)
    requires ApplyTxs(p, b, ts).Some?
    ensures ApplyTxs(p, ApplyTxs(p, b, ts).value, [t]).Some? <==>
              Authorised(p, t) && Covered(b, ts + [t], |ts|)
  {
    var b' := ApplyTxs(p, b, ts).value;
    assert (ts + [t])[..|ts|] == ts;
    AuthorisedExactly(p, t);
    if !IsSystem(t.sender) {
      AppliedBalance(p, b, ts, t.sender);
    }
    assert ApplyTxs(p, b', [t]).Some? <==> ApplyTx(p, b', t).Some? by {
      assert [t][1..] == [];
    }
  }

  // -------------------------------------------------------------- admission

  predicate SameNamedMiner(prev: Block, cur: Block) {
    cur.data.minerAddress.Some? && cur.data.minerAddress.value != "" && prev.data.minerAddress == cur.data.minerAddress
  }

  /** Late enough after the block before it, and twice as late after one of the same miner. */
  predicate FarEnough(minimum: int, prev: Block, cur: Block) {
    var seconds := cur.data.timestamp - prev.data.timestamp;
    seconds >= minimum as real && (SameNamedMiner(prev, cur) ==> seconds >= 2.0 * minimum as real)
  }

  /** The next index, the tip's hash, and a proof. */
  predicate Continues(p: Params, tip: Block, b: Block) {
    b.data.index == tip.data.index + 1 && b.data.previousHash == tip.hash && Proven(p, b)
  }

  /** add_block lets a block in exactly when it continues the tip, comes late enough, and each of its
      transactions is authorised and covered by the balances the node goes by. */
  lemma AcceptedByExactly(p: Params, l: Ledger, b: Block, seen: Option<Accounts>)
    requires l.chain != []
    ensures AdmitAnswerBy(p, l, b, seen).Accepted? <==>
              && Continues(p, Tip(l), b)
              && FarEnough(p.blockTimeMinimum, Tip(l), b)
              && seen.Some? && AllCovered(p, seen.value, b.data.transactions)
    ensures AdmitAnswer(p, l, b) == AdmitAnswerBy(p, l, b, ConfirmedBalances(p, l))
  {
    ProvenExactly(p, b);
    if seen.Some? {
      AppliesExactly(p, seen.value, b.data.transactions);
    }
  }

  /** On a chain whose own balances add up, those are the balances that the chain gives. */
  lemma AcceptedExactly(p: Params, l: Ledger, b: Block)
    requires l.chain != [] && ConfirmedBalances(p, l).Some?
    ensures AdmitAnswer(p, l, b).Accepted? <==>
              && Continues(p, Tip(l), b)
              && FarEnough(p.blockTimeMinimum, Tip(l), b)
              && AllCovered(p, ConfirmedBalances(p, l).value, b.data.transactions)
  {
    AcceptedByExactly(p, l, b, ConfirmedBalances(p, l));
  }

  // --------------------------------------------------------------- validity

  /** What validation asks of a block and the one before it. */
  predicate FollowsIn(p: Params, chain: seq<Block>, i: nat, spacing: bool)
    requires 0 < i < |chain|
  {
    var prev, cur := chain[i - 1], chain[i];
    && Proven(p, cur)
    && cur.data.previousHash == prev.hash
    && (spacing && cur.data.minerAddress.Some? && cur.data.minerAddress.value != "" ==>
        FarEnough(p.blockTimeMinimum, prev, cur))
  }

  /** The first retained block sits on the snapshot that the commitment covers. */
  predicate OnSnapshot(p: Params, first: Block, pp: Option<PrunePoint>) {
    pp.Some? ==>
      p.commitDigest(pp.value.snapshot) == pp.value.commitment
      && first.data.previousHash == pp.value.snapshot.blockHash
  }

  lemma LinkExactly(p: Params, chain: seq<Block>, i: nat, spacing: bool)
    requires 0 < i < |chain|
    ensures LinkAt(p, chain, i, spacing) <==> FollowsIn(p, chain, i, spacing)
  {
    ProvenExactly(p, chain[i]);
  }

  /** A chain is valid exactly when its blocks are proven and linked, spaced where that is asked, and
      all its transactions are authorised and covered, from the snapshot on. */
  lemma {:induction false} ValidExactly(p: Params, chain: seq<Block>, pp: Option<PrunePoint>, spacing: bool)
    ensures ChainValid(p, chain, pp, spacing) <==>
              && chain != []
              && Proven(p, chain[0]) && OnSnapshot(p, chain[0], pp)
              && (forall i :: 0 < i < |chain| ==> FollowsIn(p, chain, i, spacing))
              && AllCovered(p, if pp.Some? then pp.value.snapshot.balances else map[], Txs(chain))
  {
    if chain != [] {
      ProvenExactly(p, chain[0]);
      forall i | 0 < i < |chain| ensures LinkAt(p, chain, i, spacing) <==> FollowsIn(p, chain, i, spacing) {
        LinkExactly(p, chain, i, spacing);
      }
      AppliesExactly(p, SeedBalances(pp), Txs(chain));
    }
  }

  // ------------------------------------------------------------- submission

  /** With an applicable pool a submission is taken exactly when it is authorised and its sender, if
      it has to pay, would still have the amount after the pool, not counting what the pool gives it. */
  lemma {:induction false} SubmittedExactly(p: Params, l: Ledger, t: Tx)
    requires PoolApplies(p, l)
    ensures var after := ApplyTxs(p, ConfirmedBalances(p, l).value, l.pending).value;
            && (Submit(p, l, t).1.Submitted? <==>
                && Authorised(p, t)
                && (t.sender == "SYSTEM" || t.sender == "LENDING_POOL" ||
                    Get(after, t.sender) - Received(l.pending, t.sender) >= t.amount))
            && (Submit(p, l, t).1.BadSignature? <==> !Authorised(p, t))
            && Submit(p, l, t).0 == if Submit(p, l, t).1.Submitted? then l.(pending := l.pending + [t]) else l
  {
    AuthorisedExactly(p, t);
    if !IsSystem(t.sender) {
      AppliedBalance(p, ConfirmedBalances(p, l).value, l.pending, t.sender);
      PendingSpendIsSent(l.pending, t.sender);
    }
  }

  /** The same in terms of the pool alone, by whatever balances the node goes. */
  lemma SubmittedByExactly(p: Params, l: Ledger, t: Tx, seen: Option<Accounts>)
    ensures var answer := SubmitAnswerBy(p, l, t, seen);
            && (answer.Submitted? <==>
                && Authorised(p, t)
                && (t.sender == "SYSTEM" || t.sender == "LENDING_POOL" ||
                    (seen.Some? && Get(seen.value, t.sender) - Sent(l.pending, t.sender) >= t.amount)))
            && (answer.BadSignature? <==> !Authorised(p, t))
    ensures SubmitAnswerOf(p, l, t) == SubmitAnswerBy(p, l, t, ConfirmedBalances(p, l))
  {
    AuthorisedExactly(p, t);
    PendingSpendIsSent(l.pending, t.sender);
  }

  /** The balance shown for an ordinary address is the one it will have when the pool is mined. */
  lemma {:induction false} ShownBalanceIsAfterPool(p: Params, l: Ledger, a: Address)
    requires PoolApplies(p, l) && !IsSystem(a)
    ensures ScannedBalance(l, a) == Get(ApplyTxs(p, ConfirmedBalances(p, l).value, l.pending).value, a)
  {
    var seed := SeedBalances(l.prunePoint);
    ApplyTxsConcat(p, seed, Txs(l.chain), l.pending);
    AppliedBalance(p, seed, Txs(l.chain) + l.pending, a);
    DeltasAre(Txs(l.chain) + l.pending, a);
  }

  // ----------------------------------------------------------------- mining

  /** build_candidate_block builds exactly for a named ordinary miner, on a valid chain, late enough
      after the tip, and then this block. */
  lemma BuiltExactly(p: Params, l: Ledger, raw: string, miner: string, now: real, stamp: real)
    requires l.chain != []
    ensures var answer, tip := BuildCandidate(p, l, raw, miner, now, stamp), Tip(l);
            && (answer.Built? <==>
                && raw != "" && miner != "SYSTEM" && miner != "LENDING_POOL" && miner != "VORLIQ_TREASURY"
                && Valid(p, l)
                && now - tip.data.timestamp >= p.blockTimeMinimum as real
                && (miner != "" && tip.data.minerAddress == Some(miner) ==>
                    stamp - tip.data.timestamp >= 2.0 * p.blockTimeMinimum as real))
            && (answer.Built? ==>
                && answer.expectedPreviousHash == tip.hash
                && answer.block.difficulty == l.difficulty
                && answer.block.data.index == tip.data.index + 1
                && answer.block.data.timestamp == stamp
                && answer.block.data.previousHash == tip.hash
                && answer.block.data.minerAddress == Some(miner))
  {}

  /** Otherwise the answer names the first check that fails. */
  lemma BuildRefusedFor(p: Params, l: Ledger, raw: string, miner: string, now: real, stamp: real)
    requires l.chain != []
    ensures var answer := BuildCandidate(p, l, raw, miner, now, stamp);
            var reserved := miner == "SYSTEM" || miner == "LENDING_POOL" || miner == "VORLIQ_TREASURY";
            var early := now - l.chain[|l.chain| - 1].data.timestamp < p.blockTimeMinimum as real;
            && (answer.MinerMissing? <==> raw == "")
            && (answer.ReservedAddress? <==> raw != "" && reserved)
            && (answer.ChainInvalid? <==> raw != "" && !reserved && !Valid(p, l))
            && (answer.Cooldown? <==> raw != "" && !reserved && Valid(p, l) && early)
            && (answer.ConsecutiveMiner? ==> l.chain[|l.chain| - 1].data.minerAddress == Some(miner))
  {}

  /** A block that is not let in is refused, unless it is the chain's own balances that do not add up;
      and so for submissions and finalizations. */
  lemma FailuresAreTheChains(p: Params, l: Ledger, b: Block, t: Tx, expected: string, now: real, later: real)
    requires l.chain != []
    ensures AdmitAnswer(p, l, b).Failed? ==> ConfirmedBalances(p, l).None? && Continues(p, Tip(l), b)
    ensures Submit(p, l, t).1.SubmitFailed? ==> ConfirmedBalances(p, l).None? && Authorised(p, t)
    ensures Submit(p, l, t).1.NotEnough? ==> ConfirmedBalances(p, l).Some? && Authorised(p, t)
    ensures Finalize(p, l, b, expected, now, later).1.FinalizeFailed? <==>
              Tip(l).hash == expected && AdmitAnswer(p, l, b).Failed?
  {
    ProvenExactly(p, b);
    AuthorisedExactly(p, t);
  }

  /** What mining appends carries the difficulty in force when it was built, the miner and the time it
      was asked for, and enough zeros. */
  lemma MinedBlockFields(p: Params, l: Ledger, e: Pool.Event)
    requires l.chain != [] && e.Mining? && Appends(MineOf(p, l, e).1)
    ensures var l', b := MineOf(p, l, e).0, MineOf(p, l, e).1.block;
            && l'.chain == l.chain + [b]
            && b.difficulty == l.difficulty && LeadingZeros(b.hash, l.difficulty)
            && b.data.timestamp == e.stamp && b.data.minerAddress == Some(e.miner)
  {
    MineOutcome(p, l, e);
    ProvenExactly(p, MineOf(p, l, e).1.block);
  }

  /** The reward pair: two unsigned payments by SYSTEM, to the miner and to the treasury. */
  lemma RewardPairFields(reward: real, miner: string, now: real, later: real)
    requires Payable(reward, Some(miner)) && miner != "VORLIQ_TREASURY"
    ensures var pair := RewardPair(reward, miner, now, later);
            && |pair| == 2 && pair[0].sender == pair[1].sender == "SYSTEM"
            && pair[0].receiver == miner && pair[1].receiver == "VORLIQ_TREASURY"
            && pair[0].signature == pair[1].signature == None
            && pair[0].kind == "mining_reward" && pair[1].kind == "treasury_reward"
            && pair[0].timestamp == now && pair[1].timestamp == later
  {}

  /** To within half a unit. */
  predicate Near(amount: int, exact: real) {
    exact - 0.5 <= amount as real <= exact + 0.5
  }

  /** finalize_mined_block: stale exactly on another tip, and otherwise the block is appended if
      add_block lets it in; then the pool becomes the next reward pair, 95 to 5 for this block's miner
      and the treasury, exactly when there is a miner and the reward exceeds 1e-7 VLQ. */
  lemma FinalizedExactly(p: Params, l: Ledger, b: Block, expected: string, now: real, later: real)
    requires l.chain != []
    ensures var (l', answer) := Finalize(p, l, b, expected, now, later);
            var reward := CurrentReward(Append(p, l, b));
            var paid := b.data.minerAddress.Some? && b.data.minerAddress.value != "" && reward > 10.0;
            && (answer.Stale? <==> l.chain[|l.chain| - 1].hash != expected)
            && (answer.Mined? <==> !answer.Stale? && AdmitAnswer(p, l, b).Accepted? && paid)
            && (answer.Unpaid? <==> !answer.Stale? && AdmitAnswer(p, l, b).Accepted? && !paid)
            && l' == (if answer.Mined? || answer.Unpaid? then Append(p, l, b).(pending := l'.pending) else l)
            && (!answer.Mined? ==> l'.pending == l.pending)
            && (answer.Mined? ==>
                  && |l'.pending| == 2 && l'.pending[0].sender == l'.pending[1].sender == "SYSTEM"
                  && l'.pending[0].receiver == b.data.minerAddress.value && l'.pending[1].receiver == "VORLIQ_TREASURY"
                  && Near(l'.pending[0].amount, reward * 0.95) && Near(l'.pending[1].amount, reward * 0.05))
  {
    var reward := CurrentReward(Append(p, l, b));
    SharesPositive(reward);
    RoundHalfEvenNear(reward * 0.95);
    RoundHalfEvenNear(reward * 0.05);
  }

  // ---------------------------------------------------------------- pruning

  /** A balance after the first blocks: what was remembered before, received and sent; SYSTEM is not
      charged for what it mints. */
  function Remembered(l: Ledger, gone: nat, a: Address): int
    requires gone <= |l.chain|
  {
    var ts := Txs(l.chain[..gone]);
    Get(if l.prunePoint.Some? then l.prunePoint.value.snapshot.balances else map[], a)
    + Received(ts, a) - (if a == "SYSTEM" then 0 else Sent(ts, a))
  }

  /** prune_chain keeps the last blocks, no more than asked for, and remembers of the others the last
      one's index and hash, what they issued, and every balance that is not zero. */
  lemma PrunedExactly(p: Params, l: Ledger, keep: nat)
    requires l.chain != [] && keep >= 1
    ensures var l', gone := Prune(p, l, keep), |l.chain| - keep;
            if gone <= 0 then l' == l
            else
              && l' == l.(chain := l.chain[gone..], prunePoint := l'.prunePoint) && l'.prunePoint.Some?
              && var kept := l'.prunePoint.value.snapshot;
                 && kept.height == l.chain[gone - 1].data.index && kept.blockHash == l.chain[gone - 1].hash
                 && l'.prunePoint.value.commitment == p.commitDigest(kept)
                 && kept.totalIssued == SeedIssued(l.prunePoint) + Sent(Txs(l.chain[..gone]), "SYSTEM")
                 && (forall a :: a in kept.balances ==> kept.balances[a] != 0)
                 && forall a :: Get(kept.balances, a) == Remembered(l, gone, a)
  {
    var gone := |l.chain| - keep;
    if gone > 0 {
      var seed, ts := SeedBalances(l.prunePoint), Txs(l.chain[..gone]);
      NonZeroSame(Settle(seed, ts));
      IssuedIsSent(ts);
      forall a ensures Get(NonZero(Settle(seed, ts)), a) == Remembered(l, gone, a) {
        SettleDeltas(seed, ts, a);
        DeltasAre(ts, a);
      }
    }
  }
}
