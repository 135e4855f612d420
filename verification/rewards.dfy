/** Reward arithmetic: halving, the 95/5 split rounded half-even at 1e-8 VLQ
    (blockchain/blockchain.py, get_current_mining_reward and finalize_mined_block). */
module Rewards {

  const COIN: int := 100_000_000
  const MAXIMUM_SUPPLY: int := 21_000_000 * COIN
  const INITIAL_MINING_REWARD: real := 5_000_000_000.0
  const HALVING_INTERVAL: int := 210_000

  function Pow2(n: nat): (r: int)
    ensures r >= 1
  {
    if n == 0 then 1 else 2 * Pow2(n - 1)
  }

  /** Number of halvings after this many blocks; Python's floor division. */
  function Halvings(totalBlocks: int): nat {
    if totalBlocks < 0 then 0 else totalBlocks / HALVING_INTERVAL
  }

  function ScheduledReward(miningReward: real, totalBlocks: int): real {
    miningReward / (Pow2(Halvings(totalBlocks)) as real)
  }

  /** min(scheduled, max(maximum - issued, 0)). */
  function RewardAt(miningReward: real, totalBlocks: int, issued: int): real {
    var remaining := if MAXIMUM_SUPPLY > issued then (MAXIMUM_SUPPLY - issued) as real else 0.0;
    var scheduled := ScheduledReward(miningReward, totalBlocks);
    if scheduled < remaining then scheduled else remaining
  }

  /** Python's round: to the nearest integer, ties to the even one. */
  function RoundHalfEven(x: real): int {
    var f := x.Floor;
    var d := x - f as real;
    if d < 0.5 then f
    else if d > 0.5 then f + 1
    else if f % 2 == 0 then f else f + 1
  }

  function MinerShare(reward: real): int {
    RoundHalfEven(reward * 0.95)
  }

  function TreasuryShare(reward: real): int {
    RoundHalfEven(reward * 0.05)
  }

  /** Both shares together. */
  function PaidOut(reward: real): int {
    MinerShare(reward) + TreasuryShare(reward)
  }

  lemma RoundHalfEvenNear(x: real)
    ensures x - 0.5 <= RoundHalfEven(x) as real <= x + 0.5
  {}

  /** A whole reward is split without gaining or losing a unit, ties included. */
  lemma SplitExact(n: int)
    ensures PaidOut(n as real) == n
  {}

  /** The split never pays out more than a whole cap that the reward respects. */
  lemma SplitWithinCap(reward: real, cap: int)
    requires reward <= cap as real
    ensures PaidOut(reward) <= cap
  {}

  /** Both shares are payable exactly when the reward exceeds 1e-7 VLQ. */
  lemma SharesPositive(reward: real)
    ensures MinerShare(reward) > 0 && TreasuryShare(reward) > 0 <==> reward > 10.0
  {}

  lemma RewardWithinRemaining(miningReward: real, totalBlocks: int, issued: int)
    requires issued <= MAXIMUM_SUPPLY
    ensures PaidOut(RewardAt(miningReward, totalBlocks, issued)) <= MAXIMUM_SUPPLY - issued
  {}

  // ------------------------------------------------- the default schedule

  /** What the n blocks after genesis pay out at the default reward: block b is paid when
      b + 1 blocks exist. */
  function ScheduleTotal(n: nat): int {
    if n == 0 then 0 else ScheduleTotal(n - 1) + Payout(n + 1)
  }

  function Payout(totalBlocks: int): int {
    PaidOut(ScheduledReward(INITIAL_MINING_REWARD, totalBlocks))
  }

  const HALVING: real := 210_000.0

  /** Unrounded rewards of every block after the first t, to infinity: the rest of the
      current epoch and, beyond it, once more a whole epoch's worth. */
  function Tail(t: nat): real {
    var h := Halvings(t + 1);
    ((HALVING_INTERVAL * (h + 2) - (t + 1)) as real) * EpochReward(h)
  }

  function EpochReward(h: nat): real {
    INITIAL_MINING_REWARD / (Pow2(h) as real)
  }

  lemma EpochRewardHalves(h: nat)
    ensures EpochReward(h) == 2.0 * EpochReward(h + 1) && EpochReward(h + 1) > 0.0
  {}

  lemma TailStep(t: nat)
    ensures Tail(t) - Tail(t + 1) == ScheduledReward(INITIAL_MINING_REWARD, t + 1)
    ensures Tail(t) >= ScheduledReward(INITIAL_MINING_REWARD, t + 1)
  {}

  /** Epochs from this one on round to no payout at all. */
  const LAST_EPOCH: nat := 34

  lemma {:induction false} EpochRewardShrinks(h: nat, k: nat)
    requires h <= k
    ensures EpochReward(k) <= EpochReward(h)
    decreases k - h
  {
    if h < k {
      EpochRewardHalves(k - 1);
      EpochRewardShrinks(h, k - 1);
    }
  }

  lemma Pow2Values()
    ensures Pow2(28) == 0x1000_0000 && Pow2(29) == 0x2000_0000 && Pow2(34) == 0x4_0000_0000
  {
    assert Pow2(7) == 128;
    assert Pow2(14) == 128 * 128;
    assert Pow2(21) == 128 * 128 * 128;
    assert Pow2(28) == 0x1000_0000;
  }

  lemma PayoutBounds(totalBlocks: nat)
    ensures Payout(totalBlocks) as real <= ScheduledReward(INITIAL_MINING_REWARD, totalBlocks) + 1.0
    ensures Halvings(totalBlocks) >= LAST_EPOCH ==> Payout(totalBlocks) == 0
  {
    var reward := ScheduledReward(INITIAL_MINING_REWARD, totalBlocks);
    RoundHalfEvenNear(reward * 0.95);
    RoundHalfEvenNear(reward * 0.05);
    if Halvings(totalBlocks) >= LAST_EPOCH {
      EpochRewardShrinks(LAST_EPOCH, Halvings(totalBlocks));
      EpochRewardHalves(Halvings(totalBlocks));
      Pow2Values();
      assert 0.0 < reward < 0.3;
      assert (reward * 0.95).Floor == 0 && (reward * 0.05).Floor == 0;
    }
  }

  /** Rounding gains at most a unit a block, and nothing once rewards round to nothing. */
  function Gains(n: nat): nat {
    if n < HALVING_INTERVAL * LAST_EPOCH then n else HALVING_INTERVAL * LAST_EPOCH
  }

  lemma GainsStep(n: nat)
    requires n > 0
    ensures Payout(n + 1) as real <= ScheduledReward(INITIAL_MINING_REWARD, n + 1) + (Gains(n) - Gains(n - 1)) as real
  {
    PayoutBounds(n + 1);
    EpochRewardHalves(Halvings(n + 1));
  }

  /** The rounding gains of all epochs together are far below what genesis leaves unpaid. */
  lemma {:induction false} ScheduleBelowTail(n: nat)
    ensures ScheduleTotal(n) as real <= MAXIMUM_SUPPLY as real - 10_000_000_000.0 - Tail(n + 1) + Gains(n) as real
  {
    if n == 0 {
      assert Halvings(2) == 0 && Pow2(0) == 1;
    } else {
      ScheduleBelowTail(n - 1);
      TailStep(n);
      GainsStep(n);
    }
  }

  /** At the default reward the schedule stays below 21,000,000 VLQ for ever, and the next
      scheduled reward always still fits: the remaining-supply minimum never binds. */
  lemma {:induction false} ScheduleNeverCapped(n: nat)
    ensures ScheduleTotal(n) as real + ScheduledReward(INITIAL_MINING_REWARD, n + 2) <= MAXIMUM_SUPPLY as real
    ensures ScheduleTotal(n) <= MAXIMUM_SUPPLY
  {
    ScheduleBelowTail(n);
    TailStep(n + 1);
    EpochRewardHalves(Halvings(n + 2));
    assert EpochReward(Halvings(n + 2)) == 2.0 * EpochReward(Halvings(n + 2) + 1);
  }

  const UNPAYABLE_EPOCH: nat := 29

  /** The default reward stops being payable exactly at the 29th halving. */
  lemma DefaultPayableUntil(totalBlocks: nat)
    ensures ScheduledReward(INITIAL_MINING_REWARD, totalBlocks) > 10.0 <==>
              totalBlocks < UNPAYABLE_EPOCH * HALVING_INTERVAL
  {
    var h := Halvings(totalBlocks);
    Pow2Values();
    if h < UNPAYABLE_EPOCH {
      EpochRewardShrinks(h, UNPAYABLE_EPOCH - 1);
    } else {
      EpochRewardShrinks(UNPAYABLE_EPOCH, h);
    }
  }

  // ---------------------------------------------- what is left unpaid for ever

  /** The last block after genesis whose reward pair can be constructed, and what that pair mints. */
  const LAST_PAID: nat := UNPAYABLE_EPOCH * HALVING_INTERVAL - 2
  const LAST_PAIR: int := 19

  /** One payout of each epoch up to this one. */
  function EpochSum(e: nat): int {
    (if e == 0 then 0 else EpochSum(e - 1)) + PaidOut(EpochReward(e))
  }

  lemma PayoutIn(e: nat, n: nat)
    requires n > 0 && HALVING_INTERVAL * e <= n + 1 < HALVING_INTERVAL * (e + 1)
    ensures ScheduleTotal(n) == ScheduleTotal(n - 1) + PaidOut(EpochReward(e))
  {
    assert Halvings(n + 1) == e;
  }

  function Times(k: nat, x: int): int {
    if k == 0 then 0 else Times(k - 1, x) + x
  }

  lemma {:induction false} TimesIsProduct(k: nat, x: int)
    ensures Times(k, x) == k * x
  {
    if k > 0 {
      TimesIsProduct(k - 1, x);
    }
  }

  lemma {:induction false} WithinEpoch(e: nat, m: nat, n: nat)
    requires HALVING_INTERVAL * e <= m + 2 && m <= n && n + 1 < HALVING_INTERVAL * (e + 1)
    ensures ScheduleTotal(n) == ScheduleTotal(m) + Times(n - m, PaidOut(EpochReward(e)))
    decreases n
  {
    if m < n {
      WithinEpoch(e, m, n - 1);
      PayoutIn(e, n);
    }
  }

  /** The schedule counts blocks from one, and the first pair is due when there are two. */
  lemma {:induction false} AtEpochEnd(e: nat)
    ensures ScheduleTotal(HALVING_INTERVAL * (e + 1) - 2) == HALVING_INTERVAL * EpochSum(e) - 10_000_000_000
    decreases e
  {
    if e == 0 {
      WithinEpoch(0, 0, HALVING_INTERVAL - 2);
      TimesIsProduct(HALVING_INTERVAL - 2, PaidOut(EpochReward(0)));
      assert EpochReward(0) == INITIAL_MINING_REWARD;
      SplitExact(5_000_000_000);
    } else {
      AtEpochEnd(e - 1);
      WithinEpoch(e, HALVING_INTERVAL * e - 2, HALVING_INTERVAL * (e + 1) - 2);
      TimesIsProduct(HALVING_INTERVAL, PaidOut(EpochReward(e)));
    }
  }

  lemma NextEpoch(e: nat, reward: real, total: int)
    requires EpochReward(e) == 2.0 * reward && EpochSum(e) == total
    ensures EpochReward(e + 1) == reward && EpochSum(e + 1) == total + PaidOut(reward)
  {
    EpochRewardHalves(e);
  }

  lemma SumToEpoch9()
    ensures EpochReward(9) == 9765625.0 && EpochSum(9) == 9_990_234_375
  {
    assert EpochReward(0) == INITIAL_MINING_REWARD;
    SplitExact(5_000_000_000);
    NextEpoch(0, 2500000000.0, 5_000_000_000);
    NextEpoch(1, 1250000000.0, 7_500_000_000);
    NextEpoch(2, 625000000.0, 8_750_000_000);
    NextEpoch(3, 312500000.0, 9_375_000_000);
    NextEpoch(4, 156250000.0, 9_687_500_000);
    NextEpoch(5, 78125000.0, 9_843_750_000);
    NextEpoch(6, 39062500.0, 9_921_875_000);
    NextEpoch(7, 19531250.0, 9_960_937_500);
    NextEpoch(8, 9765625.0, 9_980_468_750);
  }

  lemma SumToEpoch18()
    ensures EpochReward(18) == 19073.486328125 && EpochSum(18) == 9_999_980_927
  {
    SumToEpoch9();
    NextEpoch(9, 4882812.5, 9_990_234_375);
    NextEpoch(10, 2441406.25, 9_995_117_188);
    NextEpoch(11, 1220703.125, 9_997_558_594);
    NextEpoch(12, 610351.5625, 9_998_779_297);
    NextEpoch(13, 305175.78125, 9_999_389_649);
    NextEpoch(14, 152587.890625, 9_999_694_825);
    NextEpoch(15, 76293.9453125, 9_999_847_412);
    NextEpoch(16, 38146.97265625, 9_999_923_706);
    NextEpoch(17, 19073.486328125, 9_999_961_853);
  }

  lemma SumToEpoch28()
    ensures EpochReward(28) == 18.6264514923095703125 && EpochSum(28) == 9_999_999_982
  {
    SumToEpoch18();
    NextEpoch(18, 9536.7431640625, 9_999_980_927);
    NextEpoch(19, 4768.37158203125, 9_999_990_464);
    NextEpoch(20, 2384.185791015625, 9_999_995_232);
    NextEpoch(21, 1192.0928955078125, 9_999_997_616);
    NextEpoch(22, 596.04644775390625, 9_999_998_808);
    NextEpoch(23, 298.023223876953125, 9_999_999_404);
    NextEpoch(24, 149.0116119384765625, 9_999_999_702);
    NextEpoch(25, 74.50580596923828125, 9_999_999_851);
    NextEpoch(26, 37.252902984619140625, 9_999_999_926);
    NextEpoch(27, 18.6264514923095703125, 9_999_999_963);
  }

  /** All payable rewards of the default schedule together, and the last of them. */
  lemma SchedulePaysInAll()
    ensures ScheduleTotal(LAST_PAID) == 2_099_989_996_220_000 && Payout(LAST_PAID + 1) == LAST_PAIR
  {
    SumToEpoch28();
    AtEpochEnd(28);
    assert Halvings(LAST_PAID + 1) == 28;
  }
}
