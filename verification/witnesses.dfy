/** Inputs that show where a description of the node fails. Every chain here is grown block by
    block from a genesis, for whatever digest function the node uses, as long as proof of work
    can be done at its difficulty. */
module Witnesses {
  import opened Protocol
  import opened Balances
  import opened Rewards
  import opened Ledgers
  import opened Pruning
  import opened Reconciliation
  import opened Pool
  import opened Admission
  import opened Blocks
  import opened Mining
  import opened Supply
  import opened Indexing
  import opened Syncing

  /** Some nonce solves the block data at this difficulty. */
  ghost predicate SolvableAt(p: Params, data: BlockData, difficulty: int) {
    exists nonce :: StartsWithZeros(Digest(p, data.(nonce := nonce)), difficulty)
  }

  /** Proof of work always ends, and a lone miner may mine every minute. */
  ghost predicate Minable(p: Params, difficulty: int) {
    && (forall data :: SolvableAt(p, data, difficulty))
    && p.blockTimeMinimum <= 30
  }

  const MINER: string := "miner"

  /** Such parameters exist; the digest chosen here tells blocks of different seconds apart, and
      the commitment snapshots of different totals. */
  function ExampleParams(): Params {
    Params((d: BlockData) => Zeros(4 + (if d.timestamp >= 0.0 then d.timestamp.Floor else 0)),
           (t: Tx) => t.sender, (s: Snapshot) => Zeros(s.totalIssued), (t: Tx) => true, 30, true)
  }

  lemma ExampleIsMinable()
    ensures Minable(ExampleParams(), 4)
  {
    var p := ExampleParams();
    forall data ensures SolvableAt(p, data, 4) {
      var seconds := if data.timestamp >= 0.0 then data.timestamp.Floor else 0;
      ZerosLength(4);
      ZerosLength(4 + seconds);
      assert Digest(p, data.(nonce := 0)) == Zeros(4 + seconds);
    }
  }

  // ------------------------------------------------------- growing chains

  predicate AllMints(ts: seq<Tx>) {
    forall i :: 0 <= i < |ts| ==> ts[i].sender == SYSTEM && ts[i].signature.None?
  }

  lemma {:induction false} MintsApply(p: Params, b: Accounts, ts: seq<Tx>)
    requires AllMints(ts)
    ensures ApplyTxs(p, b, ts).Some?
    decreases |ts|
  {
    if ts != [] {
      MintsApply(p, ApplyTx(p, b, ts[0]).value, ts[1..]);
    }
  }

  lemma Genesis(p: Params, difficulty: int, timestamp: real) returns (g: Block)
    requires Minable(p, difficulty)
    ensures GenesisOk(p, g) && ValidOffer(p, [g])
    ensures g.difficulty == difficulty && g.data.timestamp == timestamp && g.data.minerAddress.None?
  {
    var data := BlockData(0, timestamp, [], GENESIS_MARKER, 0, None);
    assert SolvableAt(p, data, difficulty);
    var nonce :| StartsWithZeros(Digest(p, data.(nonce := nonce)), difficulty);
    var solved := data.(nonce := nonce);
    g := Block(solved, Digest(p, solved), difficulty);
    GenesisIsAccepted(p, g);
  }

  /** A block a minute after the tip, mined by the one miner, with this index and these mints. */
  predicate Follows(p: Params, tip: Block, b: Block, index: int, ts: seq<Tx>, difficulty: int) {
    && b.data == BlockData(index, tip.data.timestamp + 60.0, ts, tip.hash, b.data.nonce, Some(MINER))
    && b.difficulty == difficulty
    && HasValidProof(p, b)
  }

  /** Every acceptable chain can be extended by such a block, whatever its index. */
  lemma Extend(p: Params, chain: seq<Block>, index: int, ts: seq<Tx>, difficulty: int) returns (b: Block)
    requires Minable(p, difficulty) && ValidOffer(p, chain) && AllMints(ts)
    ensures Follows(p, chain[|chain| - 1], b, index, ts, difficulty) && ValidOffer(p, chain + [b])
  {
    var tip := chain[|chain| - 1];
    var data := BlockData(index, tip.data.timestamp + 60.0, ts, tip.hash, 0, Some(MINER));
    assert SolvableAt(p, data, difficulty);
    var nonce :| StartsWithZeros(Digest(p, data.(nonce := nonce)), difficulty);
    var solved := data.(nonce := nonce);
    b := Block(solved, Digest(p, solved), difficulty);
    FollowerFits(p, chain, b, index, ts, difficulty);
  }

  /** An acceptable chain of blocks without transactions, indexed from zero, a minute apart. */
  predicate Plain(p: Params, chain: seq<Block>, start: real) {
    ValidOffer(p, chain) && Contiguous(chain) && MinuteApart(chain, start)
  }

  predicate MinuteApart(chain: seq<Block>, start: real) {
    forall i :: 0 <= i < |chain| ==> chain[i].data.timestamp == start + 60.0 * i as real
  }

  lemma {:induction false} GrowPlain(p: Params, chain: seq<Block>, start: real, length: nat, difficulty: int)
    returns (longer: seq<Block>)
    requires Minable(p, difficulty) && Plain(p, chain, start) && |chain| <= length
    ensures Plain(p, longer, start) && |longer| == length && chain <= longer
    decreases length - |chain|
  {
    if |chain| == length {
      return chain;
    }
    var b := Extend(p, chain, |chain|, [], difficulty);
    longer := GrowPlain(p, chain + [b], start, length, difficulty);
  }

  lemma FollowerFits(p: Params, chain: seq<Block>, b: Block, index: int, ts: seq<Tx>, difficulty: int)
    requires p.blockTimeMinimum <= 30 && ValidOffer(p, chain) && AllMints(ts)
    requires Follows(p, chain[|chain| - 1], b, index, ts, difficulty)
    ensures ValidOffer(p, chain + [b])
  {
    LinksAppend(p, chain, b, true);
    TxsAppend(chain, b);
    ApplyTxsConcat(p, map[], Txs(chain), ts);
    MintsApply(p, ApplyTxs(p, map[], Txs(chain)).value, ts);
  }

  lemma FollowerIsAdmitted(p: Params, l: Ledger, b: Block, ts: seq<Tx>, difficulty: int)
    requires p.blockTimeMinimum <= 30 && Valid(p, l) && AllMints(ts)
    requires Follows(p, Tip(l), b, Tip(l).data.index + 1, ts, difficulty)
    ensures AdmitAnswer(p, l, b).Accepted?
  {
    MintsApply(p, ConfirmedBalances(p, l).value, ts);
  }

  // --------------------------------------------- merge against rebuild

  /** A block that add_block accepts and after which the merged index is not the rebuilt one. */
  lemma MergeCanDiffer(p: Params, difficulty: int) returns (l: Ledger, b: Block)
    requires Minable(p, difficulty)
    ensures Valid(p, l) && l.prunePoint.None? && AdmitAnswer(p, l, b).Accepted?
    ensures MergeBlock(p, CoreOf(p, map[], l.chain), b) != CoreOf(p, map[], l.chain + [b])
  {
    var g := Genesis(p, difficulty, 0.0);
    var r := Mint(MINER, 1, 0.0);
    SpacingIsStronger(p, [g], None);
    b := Extend(p, [g], 1, [r, r], difficulty);
    l := Ledger([g], [], difficulty, INITIAL_MINING_REWARD, None);
    FollowerIsAdmitted(p, l, b, [r, r], difficulty);
    MergeEqualsRebuildExactly(p, map[], l.chain, b);
    SecondRepeats(p, Txs([g]), r);
  }

  lemma {:induction false} SecondRepeats(p: Params, ts: seq<Tx>, r: Tx)
    ensures !NewTo(p, ts, [r, r])
  {
    assert [r, r][1..] == [r];
    KnownAppend(p, ts, r, r.sender, TxId(p, r));
    assert Repeats(p, ts + [r], r);
  }

  // ------------------------------------------------- strays and second syncs

  /** A valid, higher offer that contains the node's whole history, and that the prune point
      refuses because a later block carries an old index. */
  lemma StrayIsRefused(p: Params, difficulty: int) returns (full: Ledger, offered: seq<Block>)
    requires Minable(p, difficulty)
    ensures Valid(p, full) && full.prunePoint.None? && |full.chain| == 2
    ensures ValidOffer(p, offered) && SamePrefix(offered, full.chain, 1) && TopIndex(offered) > Height(full)
    ensures !StraysNeutral(offered, 1)
    ensures SnapshotsCollide(p, full, 1, offered) || !Eligible(p, PrunedAt(p, full, 1), Some(offered))
    ensures p == ExampleParams() ==> !SnapshotsCollide(p, full, 1, offered)
  {
    var g := Genesis(p, difficulty, 0.0);
    var own := GrowPlain(p, [g], 0.0, 2, difficulty);
    full := PlainNode(p, own, 0.0, difficulty);
    var r := Mint(MINER, 1, 0.0);
    var s := Extend(p, [g], 0, [r], difficulty);
    var t := Extend(p, [g] + [s], 2, [], difficulty);
    offered := [g] + [s] + [t];
    StrayChanges(p, full, g, s, t, r);
    assert offered == [g, s, t];
  }

  lemma PlainNode(p: Params, chain: seq<Block>, start: real, difficulty: int) returns (l: Ledger)
    requires Plain(p, chain, start)
    ensures Valid(p, l) && l == Ledger(chain, [], difficulty, INITIAL_MINING_REWARD, None)
  {
    SpacingIsStronger(p, chain, None);
    l := Ledger(chain, [], difficulty, INITIAL_MINING_REWARD, None);
  }

  lemma StrayChanges(p: Params, full: Ledger, g: Block, s: Block, t: Block, r: Tx)
    requires |full.chain| == 2 && full.chain[0] == g && full.prunePoint.None?
    requires g.data.index == 0 && g.data.transactions == [] && s.data.index == 0 && s.data.transactions == [r]
             && t.data.index == 2
    requires r.sender == SYSTEM
    ensures !StraysNeutral([g, s, t], 1)
    ensures SnapshotsCollide(p, full, 1, [g, s, t]) || !OfferedMatches(p, PrunedAt(p, full, 1), [g, s, t])
    ensures p == ExampleParams() ==> !SnapshotsCollide(p, full, 1, [g, s, t])
  {
    var offered := [g, s, t];
    StrayBlocks(g, s, t);
    BlockTxs(s, [r]);
    TxsConcat([g], [s]);
    BlockTxs(g, []);
    assert [g] + [s] == [g, s] && [] + [r] == [r];
    assert Issued([r]) == r.amount + Issued([r][1..]);
    assert full.chain[..1] == [g] && offered[..1] == [g];
    assert OfferSnapshot(offered, 0, g.hash).totalIssued == r.amount;
    assert SnapshotAt(full.chain, full.prunePoint, 1).totalIssued == 0;
    ZerosLength(r.amount);
  }

  lemma StrayBlocks(g: Block, s: Block, t: Block)
    requires g.data.index == 0 && s.data.index == 0 && t.data.index == 2
    ensures UpTo([g, s, t], 0) == [g, s] && UpTo([g, s, t][1..], 0) == [s] && FirstAt([g, s, t], 0) == Some(0)
  {
    assert [g, s, t][1..] == [s, t] && [s, t][1..] == [t] && [t][1..] == [];
    assert UpTo([t], 0) == [] + UpTo([], 0);
    assert UpTo([s, t], 0) == [s] + UpTo([t], 0);
  }

  lemma BlockTxs(b: Block, ts: seq<Tx>)
    requires b.data.transactions == ts
    ensures Txs([b]) == ts
  {
    assert Txs([b]) == ts + Txs([b][1..]);
  }

  lemma ExampleKeepsApart(a: seq<Block>, b: seq<Block>)
    requires MinuteApart(a, 1.0) && MinuteApart(b, 0.0)
    ensures !Collide(ExampleParams(), a, b)
  {
    var p := ExampleParams();
    forall i, j | 0 <= i < |a| && 0 <= j < |b| ensures !CollideAt(p, a[i].data, b[j].data) {
      assert a[i].data.timestamp.Floor == 1 + 60 * i && b[j].data.timestamp.Floor == 60 * j;
      ZerosLength(5 + 60 * i);
      ZerosLength(4 + 60 * j);
      assert Digest(p, a[i].data) == Zeros(5 + 60 * i) && Digest(p, b[j].data) == Zeros(4 + 60 * j);
    }
  }

  /** Two offers, the second refused by the prune point at the first sync and adopted at the next. */
  lemma SecondSyncAdoptsRefused(p: Params, difficulty: int) returns (full: Ledger, own: seq<Block>, other: seq<Block>)
    requires Minable(p, difficulty)
    ensures Valid(p, full) && full.prunePoint.None? && |full.chain| == 2
    ensures var offers := [Some(own), Some(other)];
            var l := PrunedAt(p, full, 1);
            var once := Sync(p, l, offers).0;
            Collide(p, other, full.chain) ||
            (once.chain == own && !OfferedMatches(p, l, other) && Sync(p, once, offers).0.chain == other)
    ensures p == ExampleParams() ==> !Collide(p, other, full.chain)
  {
    var g := Genesis(p, difficulty, 0.0);
    var h := Genesis(p, difficulty, 1.0);
    var chain := GrowPlain(p, [g], 0.0, 2, difficulty);
    own := GrowPlain(p, chain, 0.0, 3, difficulty);
    other := GrowPlain(p, [h], 1.0, 4, difficulty);
    full := PlainNode(p, chain, 0.0, difficulty);
    TwoSyncs(p, full, own, other);
    if p == ExampleParams() {
      ExampleKeepsApart(other, chain);
    }
  }

  /** The two syncs, for any node of height one, longer own chain, and still longer other chain. */
  lemma TwoSyncs(p: Params, full: Ledger, own: seq<Block>, other: seq<Block>)
    requires Valid(p, full) && full.prunePoint.None? && |full.chain| == 2 && Contiguous(full.chain)
    requires ValidOffer(p, own) && |own| == 3 && Contiguous(own) && own[..2] == full.chain
    requires ValidOffer(p, other) && |other| == 4 && Contiguous(other) && other[0].data != full.chain[0].data
    ensures var offers := [Some(own), Some(other)];
            var l := PrunedAt(p, full, 1);
            var once := Sync(p, l, offers).0;
            Collide(p, other, full.chain) ||
            (once.chain == own && !OfferedMatches(p, l, other) && Sync(p, once, offers).0.chain == other)
  {
    var offers := [Some(own), Some(other)];
    var l := PrunedAt(p, full, 1);
    if !Collide(p, other, full.chain) {
      OtherIsRefused(p, full, other);
      ExtensionIsEligible(p, full, 1, own);
      assert ChosenOffer(p, l, offers) == Some(0) by {
        ChosenOfferIsFirstHighest(p, l, offers);
        assert Eligible(p, l, offers[0]) && !Eligible(p, l, offers[1]);
      }
      AdoptedNode(p, l, own);
      var once := Sync(p, l, offers).0;
      assert once.chain == own && once.prunePoint.None?;
      SecondChoice(p, once, own, other);
      AdoptedNode(p, once, other);
    }
  }

  lemma OtherIsRefused(p: Params, full: Ledger, other: seq<Block>)
    requires full.prunePoint.None? && |full.chain| == 2 && Valid(p, full) && Contiguous(full.chain)
    requires ValidOffer(p, other) && Contiguous(other) && other[0].data != full.chain[0].data
    ensures Collide(p, other, full.chain) || !OfferedMatches(p, PrunedAt(p, full, 1), other)
  {
    if other[0].hash == full.chain[0].hash {
      assert CollideAt(p, other[0].data, full.chain[0].data);
    }
    assert other[0].data.index == 0;
    assert FirstAt(other, 0) == Some(0);
  }

  lemma SecondChoice(p: Params, l: Ledger, own: seq<Block>, other: seq<Block>)
    requires l.chain == own && l.prunePoint.None?
    requires |own| == 3 && Contiguous(own) && ValidOffer(p, other) && |other| == 4 && Contiguous(other)
    ensures ChosenOffer(p, l, [Some(own), Some(other)]) == Some(1)
  {
    var offers := [Some(own), Some(other)];
    ChosenOfferIsFirstHighest(p, l, offers);
    assert !Eligible(p, l, offers[0]) && Eligible(p, l, offers[1]);
  }

  // ---------------------------------------------------- runs of one miner

  /** A node h mined blocks after its genesis, one each `gap` seconds, never pruned. */
  predicate Steady(p: Params, l: Ledger, h: nat, difficulty: int, gap: real, reward: real) {
    && Valid(p, l) && l.prunePoint.None? && Spaced(l.chain, h, gap)
    && l.difficulty == difficulty && l.miningReward == reward && AllMints(l.pending)
    && Minted(l, h, reward)
    && Funded(l.pending, ConfirmedBalances(p, l).value, h, reward)
  }

  /** The miner's share of the first reward is on its way, and from the second block on it is there. */
  predicate Funded(pending: seq<Tx>, balances: Accounts, h: nat, reward: real) {
    reward <= MAXIMUM_SUPPLY as real ==>
      && (h == 1 ==> pending != [] && pending[0].receiver == MINER && pending[0].amount == MinerShare(reward))
      && Get(balances, MINER) >= (if h > 1 then MinerShare(reward) else 0)
  }

  predicate Spaced(chain: seq<Block>, h: nat, gap: real) {
    && |chain| == h + 1
    && forall i :: 0 <= i <= h ==> chain[i].data.index == i && chain[i].data.timestamp == At(gap, i)
  }

  function At(gap: real, i: nat): real {
    gap * i as real
  }

  lemma AtStep(gap: real, i: nat)
    ensures At(gap, i + 1) == At(gap, i) + gap
  {}

  /** Every block but the first mints something, and at 1000 VLQ exactly the reward. */
  predicate Minted(l: Ledger, h: nat, reward: real) {
    && (h == 0 ==> TotalIssued(l) == 0 && l.pending == [])
    && (h > 0 ==> TotalIssued(l) >= h - 1 && Issued(l.pending) >= 1)
    && (h > 0 && reward == GOVERNED_REWARD as real && h < 200_000 ==>
        MintedExactly(TotalIssued(l), Issued(l.pending), h))
    && (reward == INITIAL_MINING_REWARD ==>
        TotalIssued(l) == DefaultIssued(h) && Issued(l.pending) == DefaultPending(h))
  }

  /** At the default reward, what h blocks after genesis leave pending and have issued. */
  function DefaultPending(h: nat): int {
    if h == 0 then 0 else if h <= LAST_PAID then Payout(h + 1) else LAST_PAIR
  }

  function DefaultIssued(h: nat): int {
    if h == 0 then 0 else DefaultIssued(h - 1) + DefaultPending(h - 1)
  }

  lemma {:induction false} DefaultIssuedClosed(h: nat)
    ensures h > 0 ==> DefaultIssued(h) == if h - 1 <= LAST_PAID then ScheduleTotal(h - 1)
                                          else ScheduleTotal(LAST_PAID) + LAST_PAIR * (h - 1 - LAST_PAID)
  {
    if h > 1 {
      DefaultIssuedClosed(h - 1);
    }
  }

  lemma DefaultPendingNext(h: nat, due: real)
    requires due == RewardAt(INITIAL_MINING_REWARD, h + 2, DefaultIssued(h + 1))
    ensures DefaultPending(h + 1) == if due > 10.0 then PaidOut(due) else DefaultPending(h)
  {
    DefaultPayableUntil(h + 2);
    if h + 1 <= LAST_PAID {
      DefaultIssuedClosed(h + 1);
      ScheduleNeverCapped(h);
      assert due == ScheduledReward(INITIAL_MINING_REWARD, h + 2);
    } else {
      SchedulePaysInAll();
    }
  }

  predicate MintedExactly(issued: int, pending: int, h: nat) {
    issued == (h - 1) * GOVERNED_REWARD && pending == GOVERNED_REWARD
  }

  /** 1000 VLQ, the most that governance may set. */
  const GOVERNED_REWARD: int := 1000 * COIN

  predicate MinerEvent(e: Pool.Event) {
    e.Mining? && e.now <= e.stamp
  }

  /** At 1000 VLQ a block the supply is used up by exactly 21,000 blocks. */
  lemma GovernedDue(h: nat)
    requires h + 1 < 200_000
    ensures RewardAt(GOVERNED_REWARD as real, h + 2, h * GOVERNED_REWARD) ==
              if h < 21_000 then GOVERNED_REWARD as real else 0.0
  {
    assert ScheduledReward(GOVERNED_REWARD as real, h + 2) == GOVERNED_REWARD as real;
  }

  lemma GovernedPaid()
    ensures PaidOut(GOVERNED_REWARD as real) == GOVERNED_REWARD
  {
    SplitExact(GOVERNED_REWARD);
  }

  lemma MintedExactlyNext(issued: int, pending: int, h: nat, due: real, next: int)
    requires h + 1 < 200_000 && (h > 0 ==> MintedExactly(issued, pending, h)) && (h == 0 ==> issued == pending == 0)
    requires due == RewardAt(GOVERNED_REWARD as real, h + 2, issued + pending)
    requires next == if due > 10.0 then PaidOut(due) else pending
    ensures MintedExactly(issued + pending, next, h + 1)
  {
    assert issued + pending == h * GOVERNED_REWARD;
    GovernedDue(h);
    GovernedPaid();
  }

  /** What the next reward pair will mint, in the terms of the reward it pays. */
  lemma MintedNext(l: Ledger, h: nat, reward: real, next: Ledger, due: real)
    requires Minted(l, h, reward) && reward > 10.0
    requires TotalIssued(next) == TotalIssued(l) + Issued(l.pending)
    requires due == RewardAt(reward, h + 2, TotalIssued(next))
    requires Issued(next.pending) == if due > 10.0 then PaidOut(due) else Issued(l.pending)
    ensures Minted(next, h + 1, reward)
  {
    SharesPositive(due);
    if h == 0 {
      assert ScheduledReward(reward, 2) == reward;
    }
    if reward == INITIAL_MINING_REWARD {
      DefaultPendingNext(h, due);
    }
    if reward == GOVERNED_REWARD as real && h + 1 < 200_000 {
      MintedExactlyNext(TotalIssued(l), Issued(l.pending), h, due, Issued(next.pending));
    }
  }

  lemma SpacedRetarget(p: Params, chain: seq<Block>, h: nat, difficulty: int, gap: real)
    requires Spaced(chain, h, gap) && (gap == 60.0 || h < 10)
    ensures Retarget(p, chain, difficulty) == difficulty
  {}

  /** The miner asks for a block one gap after the tip: nothing refuses it. */
  lemma CandidateBuilt(p: Params, l: Ledger, h: nat, at: real, gap: real)
    requires Valid(p, l) && Spaced(l.chain, h, gap) && at == At(gap, h) + gap
    requires gap >= 60.0 && p.blockTimeMinimum <= 30
    ensures BuildCandidate(p, l, MINER, MINER, at, at) == Built(CandidateBlock(p, l, MINER, at), Tip(l).hash)
  {}

  /** The candidate that the miner builds next can be solved and will be admitted. */
  lemma NextCandidate(p: Params, l: Ledger, h: nat, difficulty: int, gap: real) returns (e: Pool.Event, b: Block)
    requires Minable(p, difficulty) && Valid(p, l) && Spaced(l.chain, h, gap) && gap >= 60.0
    requires l.difficulty == difficulty && PoolApplies(p, l)
    ensures MinerEvent(e) && b.data.index == h + 1 && b.data.timestamp == At(gap, h + 1)
    ensures b.data.minerAddress == Some(MINER) && b.data.transactions == l.pending
    ensures After(p, l, e) == Finalize(p, l, b, Tip(l).hash, e.paid, e.later).0
    ensures AdmitAnswer(p, l, b).Accepted? && Appends(MineOf(p, l, e).1) && MineOf(p, l, e).1.block == b
    ensures e.miner == MINER
  {
    var at := At(gap, h) + gap;
    AtStep(gap, h);
    CandidateBuilt(p, l, h, at, gap);
    var c := CandidateBlock(p, l, MINER, at);
    assert SolvableAt(p, c.data, difficulty);
    var nonce :| StartsWithZeros(Digest(p, c.data.(nonce := nonce)), difficulty);
    b := WithNonce(p, c, nonce);
    e := Pool.Event.Mining(MINER, MINER, at, at, nonce, at, at);
    SelectAll(p, ConfirmedBalances(p, l).value, l.pending);
    BuiltIsAdmitted(p, l, MINER, MINER, at, at, nonce);
  }

  /** Mints only add, and the first one adds to its receiver. */
  lemma {:induction false} MintsOnlyAdd(p: Params, b: Accounts, ts: seq<Tx>, a: Address)
    requires AllMints(ts)
    ensures ApplyTxs(p, b, ts).Some? && PendingSpend(ts, MINER) == 0
    ensures Get(ApplyTxs(p, b, ts).value, a) >=
              Get(b, a) + (if ts != [] && ts[0].receiver == a then ts[0].amount else 0)
    decreases |ts|
  {
    if ts != [] {
      MintsOnlyAdd(p, ApplyTx(p, b, ts[0]).value, ts[1..], a);
    }
  }

  lemma {:induction false} BalancesAfter(p: Params, l: Ledger, b: Block)
    requires ConfirmedBalances(p, l).Some?
    ensures ConfirmedBalances(p, Append(p, l, b)) == ApplyTxs(p, ConfirmedBalances(p, l).value, b.data.transactions)
  {
    TxsAppend(l.chain, b);
    ApplyTxsConcat(p, SeedBalances(l.prunePoint), Txs(l.chain), b.data.transactions);
  }

  lemma FirstReward(p: Params, l: Ledger, reward: real, b: Block)
    requires Minted(l, 0, reward) && l.miningReward == reward <= MAXIMUM_SUPPLY as real
    requires b.data.transactions == l.pending && b.data.index == 1
    ensures CurrentReward(Append(p, l, b)) == reward
  {
    IssuedAfterAppend(p, l, b);
    assert ScheduledReward(reward, 2) == reward;
  }

  lemma FundedNext(p: Params, l: Ledger, h: nat, reward: real, b: Block, now: real, later: real, next: Ledger)
    requires l.chain != [] && ConfirmedBalances(p, l).Some?
    requires AdmitAnswer(p, l, b).Accepted? && b.data.minerAddress == Some(MINER)
    requires b.data.transactions == l.pending && b.data.index == h + 1
    requires Minted(l, h, reward) && l.miningReward == reward > 10.0 && AllMints(l.pending)
    requires Funded(l.pending, ConfirmedBalances(p, l).value, h, reward)
    requires next == Finalize(p, l, b, Tip(l).hash, now, later).0
    requires ConfirmedBalances(p, next) == ConfirmedBalances(p, Append(p, l, b))
    ensures ConfirmedBalances(p, next).Some? && Funded(next.pending, ConfirmedBalances(p, next).value, h + 1, reward)
  {
    BalancesAfter(p, l, b);
    MintsOnlyAdd(p, ConfirmedBalances(p, l).value, l.pending, MINER);
    if h == 0 && reward <= MAXIMUM_SUPPLY as real {
      FirstReward(p, l, reward, b);
      SharesPositive(reward);
      FinalizeAppends(p, l, b, Tip(l).hash, now, later);
    }
  }

  lemma FinalizedMints(p: Params, l: Ledger, h: nat, reward: real, b: Block, now: real, later: real, next: Ledger)
    requires l.chain != [] && AdmitAnswer(p, l, b).Accepted? && b.data.minerAddress == Some(MINER)
    requires b.data.transactions == l.pending && b.data.index == h + 1
    requires Minted(l, h, reward) && l.miningReward == reward > 10.0 && AllMints(l.pending)
    requires next == Finalize(p, l, b, Tip(l).hash, now, later).0
    ensures Minted(next, h + 1, reward) && AllMints(next.pending)
    ensures next == Append(p, l, b).(pending := next.pending)
  {
    var expected := Tip(l).hash;
    FinalizeAppends(p, l, b, expected, now, later);
    FinalizeIssued(p, l, b, expected, now, later);
    IssuedAfterAppend(p, l, b);
    PayableExactly(CurrentReward(Append(p, l, b)), Some(MINER));
    MintedNext(l, h, reward, next, CurrentReward(Append(p, l, b)));
  }

  lemma SteadyNext(p: Params, l: Ledger, h: nat, difficulty: int, gap: real, b: Block, next: Ledger)
    requires Valid(p, l) && l.prunePoint.None? && Spaced(l.chain, h, gap) && l.difficulty == difficulty
    requires gap == 60.0 || h + 1 < 10
    requires AdmitAnswer(p, l, b).Accepted? && b.data.index == h + 1 && b.data.timestamp == At(gap, h + 1)
    requires next == Append(p, l, b).(pending := next.pending)
    ensures Valid(p, next) && next.prunePoint.None? && Spaced(next.chain, h + 1, gap)
    ensures next.difficulty == difficulty && next.miningReward == l.miningReward
    ensures ConfirmedBalances(p, next) == ConfirmedBalances(p, Append(p, l, b))
  {
    AdmissionKeepsValidity(p, l, b, false);
    SpacedRetarget(p, l.chain + [b], h + 1, difficulty, gap);
  }

  lemma StepSteady(p: Params, l: Ledger, h: nat, difficulty: int, gap: real, reward: real) returns (e: Pool.Event)
    requires Minable(p, difficulty) && Steady(p, l, h, difficulty, gap, reward)
    requires gap >= 60.0 && (gap == 60.0 || h + 1 < 10) && reward > 10.0
    ensures MinerEvent(e) && Steady(p, After(p, l, e), h + 1, difficulty, gap, reward)
  {
    var b;
    MintsApply(p, ConfirmedBalances(p, l).value, l.pending);
    e, b := NextCandidate(p, l, h, difficulty, gap);
    var next := After(p, l, e);
    FinalizedMints(p, l, h, reward, b, e.paid, e.later, next);
    SteadyNext(p, l, h, difficulty, gap, b, next);
    FundedNext(p, l, h, reward, b, e.paid, e.later, next);
  }

  predicate MinerRun(es: seq<Pool.Event>) {
    forall i :: 0 <= i < |es| ==> MinerEvent(es[i])
  }

  lemma {:induction false} RunCons(p: Params, l: Ledger, e: Pool.Event, rest: seq<Pool.Event>)
    requires l.chain != []
    ensures RunOf(p, l, [e] + rest) == RunOf(p, After(p, l, e), rest)
  {
    assert ([e] + rest)[1..] == rest;
  }

  lemma {:induction false} RunSteady(p: Params, l: Ledger, h: nat, difficulty: int, gap: real, reward: real, last: nat)
    returns (es: seq<Pool.Event>)
    requires Minable(p, difficulty) && Steady(p, l, h, difficulty, gap, reward) && h <= last
    requires gap >= 60.0 && (gap == 60.0 || last < 10) && reward > 10.0
    ensures |es| == last - h && MinerRun(es) && Steady(p, RunOf(p, l, es), last, difficulty, gap, reward)
    decreases last - h
  {
    if h == last {
      return [];
    }
    var e := StepSteady(p, l, h, difficulty, gap, reward);
    var rest := RunSteady(p, After(p, l, e), h + 1, difficulty, gap, reward, last);
    RunCons(p, l, e, rest);
    es := [e] + rest;
  }

  /** A node that holds only its genesis block. */
  predicate NewNode(p: Params, l: Ledger, difficulty: int, reward: real) {
    l.chain != [] && GenesisOk(p, Tip(l)) && l == Ledger([Tip(l)], [], difficulty, reward, None)
  }

  lemma FreshNode(p: Params, difficulty: int, gap: real, reward: real) returns (l: Ledger)
    requires Minable(p, difficulty)
    ensures Steady(p, l, 0, difficulty, gap, reward) && NewNode(p, l, difficulty, reward)
  {
    var g := Genesis(p, difficulty, 0.0);
    l := Ledger([g], [], difficulty, reward, None);
    SpacingIsStronger(p, [g], None);
    BlockTxs(g, []);
  }

  // ------------------------------------------------------------- the cap

  /** From a new node with the highest reward governance may set, 21,002 ordinary mining steps
      issue more than the maximum. */
  lemma CapCanBeExceeded(p: Params, difficulty: int) returns (l: Ledger, es: seq<Pool.Event>)
    requires Minable(p, difficulty)
    ensures NewNode(p, l, difficulty, GOVERNED_REWARD as real)
    ensures |es| == 21_002 && MinerRun(es)
    ensures TotalIssued(RunOf(p, l, es)) == MAXIMUM_SUPPLY + GOVERNED_REWARD
  {
    l := FreshNode(p, difficulty, 60.0, GOVERNED_REWARD as real);
    es := RunSteady(p, l, 0, difficulty, 60.0, GOVERNED_REWARD as real, 21_002);
  }

  /** No reward is spared: every node whose first reward is payable, the default one included,
      exceeds the maximum if mined long enough, for every further block mints something. */
  lemma CapAlwaysFails(p: Params, difficulty: int, reward: real, length: nat) returns (l: Ledger, es: seq<Pool.Event>)
    requires Minable(p, difficulty) && reward > 10.0
    ensures NewNode(p, l, difficulty, reward)
    ensures |es| == length && MinerRun(es)
    ensures TotalIssued(RunOf(p, l, es)) >= length - 1
    ensures length > MAXIMUM_SUPPLY + 1 ==> TotalIssued(RunOf(p, l, es)) > MAXIMUM_SUPPLY
  {
    l := FreshNode(p, difficulty, 60.0, reward);
    es := RunSteady(p, l, 0, difficulty, 60.0, reward, length);
  }

  /** The first height at which the default reward has issued too much. */
  const DEFAULT_OVERFLOW: nat := 532_604_736

  lemma {:induction false} DefaultOverflowExactly(h: nat)
    ensures DefaultIssued(h) > MAXIMUM_SUPPLY <==> h >= DEFAULT_OVERFLOW
  {
    DefaultIssuedClosed(h);
    SchedulePaysInAll();
    if 0 < h <= LAST_PAID + 1 {
      ScheduleNeverCapped(h - 1);
    }
  }

  /** A node as the source starts it, mined by a lone miner, first exceeds the maximum at height
      532,604,736, and then by three units. */
  lemma DefaultCapFailsExactly(p: Params, difficulty: int, length: nat) returns (l: Ledger, es: seq<Pool.Event>)
    requires Minable(p, difficulty)
    ensures NewNode(p, l, difficulty, INITIAL_MINING_REWARD)
    ensures |es| == length && MinerRun(es)
    ensures TotalIssued(RunOf(p, l, es)) > MAXIMUM_SUPPLY <==> length >= DEFAULT_OVERFLOW
    ensures length == DEFAULT_OVERFLOW ==> TotalIssued(RunOf(p, l, es)) == MAXIMUM_SUPPLY + 3
  {
    l := FreshNode(p, difficulty, 60.0, INITIAL_MINING_REWARD);
    es := RunSteady(p, l, 0, difficulty, 60.0, INITIAL_MINING_REWARD, length);
    DefaultOverflowExactly(length);
    if length == DEFAULT_OVERFLOW {
      DefaultIssuedClosed(length);
      SchedulePaysInAll();
    }
  }

  // -------------------------------------------------- a transfer, twice over

  /** A pool of mints and one transfer that its sender could afford twice. */
  lemma {:induction false} PoolTwice(p: Params, b: Accounts, mints: seq<Tx>, t: Tx)
    requires AllMints(mints) && Verifies(p, t) && t.sender == MINER && Get(b, MINER) >= 2 * t.amount
    ensures ApplyTxs(p, b, mints + [t]).Some? && ApplyTxs(p, b, (mints + [t]) + (mints + [t])).Some?
  {
    TransferApplies(p, b, mints, t);
    ApplyTxsConcat(p, b, mints + [t], mints + [t]);
    TransferApplies(p, ApplyTxs(p, b, mints + [t]).value, mints, t);
  }

  lemma {:induction false} TransferApplies(p: Params, b: Accounts, mints: seq<Tx>, t: Tx)
    requires AllMints(mints) && Verifies(p, t) && t.sender == MINER && Get(b, MINER) >= t.amount
    ensures ApplyTxs(p, b, mints + [t]).Some?
    ensures Get(ApplyTxs(p, b, mints + [t]).value, MINER) >= Get(b, MINER) - t.amount
  {
    MintsOnlyAdd(p, b, mints, MINER);
    ApplyTxsConcat(p, b, mints, [t]);
    var b' := ApplyTxs(p, b, mints).value;
    var last := ApplyTx(p, b', t);
    assert last.Some?;
    assert ApplyTxs(p, b', [t]) == ApplyTxs(p, last.value, [t][1..]);
  }

  /** A mining step that no reward follows leaves the pool it has confirmed. */
  lemma UnpaidStep(p: Params, l: Ledger, h: nat, difficulty: int) returns (e: Pool.Event, next: Ledger)
    requires Minable(p, difficulty) && Valid(p, l) && l.prunePoint.None?
    requires Spaced(l.chain, h, 60.0) && l.difficulty == difficulty
    requires PoolApplies(p, l) && RewardDue(l) <= 10.0
    ensures MinerEvent(e) && next == After(p, l, e)
    ensures Valid(p, next) && Spaced(next.chain, h + 1, 60.0) && next.difficulty == difficulty
    ensures next.pending == l.pending && |next.chain| == h + 2 && next.chain[..h + 1] == l.chain
    ensures next.chain[h + 1].data.transactions == l.pending
    ensures PoolApplies(p, next) <==> Sustainable(p, l, MINER)
  {
    var b;
    e, b := NextCandidate(p, l, h, difficulty, 60.0);
    next := After(p, l, e);
    MineOutcome(p, l, e);
    MiningKeepsPoolExactly(p, l, e);
    RewardAfterPool(p, l, b);
    SharesPositive(RewardDue(l));
    SteadyNext(p, l, h, difficulty, 60.0, b, next);
  }

  lemma {:induction false} RunAppend(p: Params, l: Ledger, es: seq<Pool.Event>, fs: seq<Pool.Event>)
    requires l.chain != []
    ensures RunOf(p, l, es + fs) == RunOf(p, RunOf(p, l, es), fs)
    decreases |es|
  {
    if es == [] {
      assert es + fs == fs;
    } else {
      assert (es + fs)[1..] == es[1..] + fs;
      RunAppend(p, After(p, l, es[0]), es[1..], fs);
    }
  }

  /** A new node mined until the last reward that can be paid is pending. */
  lemma ExhaustedNode(p: Params, difficulty: int) returns (l: Ledger, es: seq<Pool.Event>)
    requires Minable(p, difficulty)
    ensures NewNode(p, l, difficulty, INITIAL_MINING_REWARD) && |es| == LAST_PAID && MinerRun(es)
    ensures Steady(p, RunOf(p, l, es), LAST_PAID, difficulty, 60.0, INITIAL_MINING_REWARD)
  {
    l := FreshNode(p, difficulty, 60.0, INITIAL_MINING_REWARD);
    es := RunSteady(p, l, 0, difficulty, 60.0, INITIAL_MINING_REWARD, LAST_PAID);
  }

  /** A transfer submitted then is accepted, and the pool it joins is followed by no reward. */
  lemma SubmitWhenExhausted(p: Params, l: Ledger, difficulty: int, t: Tx) returns (next: Ledger)
    requires Steady(p, l, LAST_PAID, difficulty, 60.0, INITIAL_MINING_REWARD)
    requires t.sender == MINER && Verifies(p, t) && t.amount <= 20 * COIN
    ensures Submit(p, l, t) == (next, Submitted) && next == l.(pending := l.pending + [t])
    ensures PoolApplies(p, next) && Sustainable(p, next, MINER) && RewardDue(next) <= 10.0
  {
    var b := ConfirmedBalances(p, l).value;
    next := l.(pending := l.pending + [t]);
    assert MinerShare(INITIAL_MINING_REWARD) == 4_750_000_000;
    MintsOnlyAdd(p, b, l.pending, MINER);
    PoolTwice(p, b, l.pending, t);
    DefaultPayableUntil(LAST_PAID + 2);
  }

  lemma MinedOnce(p: Params, l: Ledger, difficulty: int) returns (e: Pool.Event, next: Ledger)
    requires Minable(p, difficulty) && Valid(p, l) && Spaced(l.chain, LAST_PAID + 1, 60.0) && l.difficulty == difficulty
    requires PoolApplies(p, l)
    ensures MinerEvent(e) && next == After(p, l, e)
    ensures |next.chain| == LAST_PAID + 3 && next.chain[..LAST_PAID + 2] == l.chain
    ensures next.chain[LAST_PAID + 2].data.transactions == l.pending
  {
    var b;
    e, b := NextCandidate(p, l, LAST_PAID + 1, difficulty, 60.0);
    next := After(p, l, e);
    MineOutcome(p, l, e);
  }

  /** Such transfers exist under every signature scheme: a repayment needs no signature. */
  lemma ARepayment(p: Params) returns (t: Tx)
    ensures t.sender == MINER && t.receiver == LENDING_POOL && t.amount == COIN && Verifies(p, t)
  {
    t := TxData(MINER, LENDING_POOL, COIN, 0.0, None, None, "lending", "lending", "{}", None);
  }

  lemma {:induction false} RunTwo(p: Params, l: Ledger, a: Pool.Event, b: Pool.Event)
    requires l.chain != []
    ensures RunOf(p, l, [a, b]) == After(p, After(p, l, a), b)
  {
    RunCons(p, l, a, [b]);
    RunCons(p, After(p, l, a), b, []);
    assert [a] + [b] == [a, b] && [b] + [] == [b];
  }

  lemma {:induction false} RunThree(p: Params, l: Ledger, a: Pool.Event, b: Pool.Event, c: Pool.Event)
    requires l.chain != []
    ensures RunOf(p, l, [a, b, c]) == After(p, After(p, After(p, l, a), b), c)
  {
    RunCons(p, l, a, [b, c]);
    RunTwo(p, After(p, l, a), b, c);
    assert [a] + [b, c] == [a, b, c];
  }

  predicate ConfirmedInBoth(chain: seq<Block>, t: Tx) {
    && |chain| == LAST_PAID + 3
    && t in chain[LAST_PAID + 1].data.transactions && t in chain[LAST_PAID + 2].data.transactions
  }

  lemma SubmitAndMineTwice(p: Params, l: Ledger, difficulty: int, t: Tx) returns (e: Pool.Event, f: Pool.Event)
    requires Minable(p, difficulty) && Steady(p, l, LAST_PAID, difficulty, 60.0, INITIAL_MINING_REWARD)
    requires t.sender == MINER && Verifies(p, t) && t.amount <= 20 * COIN
    ensures MinerEvent(e) && MinerEvent(f)
    ensures ConfirmedInBoth(RunOf(p, l, [Submission(t), e, f]).chain, t)
  {
    var offered := SubmitWhenExhausted(p, l, difficulty, t);
    var once, twice;
    e, once := UnpaidStep(p, offered, LAST_PAID, difficulty);
    f, twice := MinedOnce(p, once, difficulty);
    RunThree(p, l, Submission(t), e, f);
    assert t in offered.pending;
    assert twice.chain[LAST_PAID + 1] == twice.chain[..LAST_PAID + 2][LAST_PAID + 1];
  }

  /** From a new node as the source starts it: once no reward can be paid any more, a transfer that
      was submitted once is confirmed in two successive blocks, and debited twice. */
  lemma TransferConfirmedTwice(p: Params, difficulty: int, t: Tx) returns (l: Ledger, es: seq<Pool.Event>)
    requires Minable(p, difficulty)
    requires t.sender == MINER && Verifies(p, t) && t.amount <= 20 * COIN
    ensures NewNode(p, l, difficulty, INITIAL_MINING_REWARD)
    ensures |es| == LAST_PAID + 3 && es[LAST_PAID] == Submission(t)
    ensures MinerRun(es[..LAST_PAID]) && MinerRun(es[LAST_PAID + 1..])
    ensures ConfirmedInBoth(RunOf(p, l, es).chain, t)
  {
    var mined;
    l, mined := ExhaustedNode(p, difficulty);
    var e, f := SubmitAndMineTwice(p, RunOf(p, l, mined), difficulty, t);
    RunAppend(p, l, mined, [Submission(t), e, f]);
    es := mined + [Submission(t), e, f];
    assert es[..LAST_PAID] == mined && es[LAST_PAID + 1..] == [e, f];
  }

  // ------------------------------------------------------- the retarget

  /** Nine mining steps after genesis, pruned to nine blocks, a node misses the retarget at
      height ten: it and its unpruned twin accept the same block and then differ in difficulty. */
  lemma NineBlocksAreTooFew(p: Params, difficulty: int) returns (l: Ledger, es: seq<Pool.Event>, b: Block)
    requires Minable(p, difficulty) && p.retargets && difficulty != 2
    ensures NewNode(p, l, difficulty, INITIAL_MINING_REWARD)
    ensures |es| == 9 && MinerRun(es)
    ensures var full := RunOf(p, l, es);
            && Valid(p, full) && |full.chain| == 10
            && AddBlock(p, full, b).1.Accepted? && AddBlock(p, Prune(p, full, 9), b).1.Accepted?
            && AddBlock(p, Prune(p, full, 9), b).0.difficulty != AddBlock(p, full, b).0.difficulty
  {
    l := FreshNode(p, difficulty, 100.0, INITIAL_MINING_REWARD);
    es := RunSteady(p, l, 0, difficulty, 100.0, INITIAL_MINING_REWARD, 9);
    var full := RunOf(p, l, es);
    var e;
    MintsApply(p, ConfirmedBalances(p, full).value, full.pending);
    e, b := NextCandidate(p, full, 9, difficulty, 100.0);
    PruneIsPrunedAt(p, full, 9);
    AdmitTwin(p, full, 1, b);
    RetargetNeedsWindow(p, full, 1, b);
    assert Gap(full.chain[0], b) == 1000.0;
  }
}
