/** The supply schedule of the economics page (blockchain/app.py, get_economics_overview), and
    how it compares with what the ledger's own schedule pays out. */
module Economics {
  import opened Rewards

  /** One halving epoch, with amounts as shown: the reward to eight places of a coin, the total
      so far to four. */
  datatype Row = Row(epoch: nat, startBlock: nat, reward: int, cumulative: int)

  /** round(x, 4) for an amount in coins, in units. */
  function ToFourPlaces(x: real): int {
    10_000 * RoundHalfEven(x / 10_000.0)
  }

  const EPOCH_LIMIT: nat := 64
  const CLOSE_ENOUGH: real := 50_000_000.0

  function Least(a: real, b: real): real {
    if b < a then b else a
  }

  function RewardIn(initial: real, epoch: nat): real {
    initial / (Pow2(epoch) as real)
  }

  function EpochTotal(interval: nat, reward: real): real {
    interval as real * reward
  }

  /** The whole of this epoch and all before it. */
  function SumTo(initial: real, interval: nat, epoch: nat): real {
    (if epoch == 0 then 0.0 else SumTo(initial, interval, epoch - 1)) + EpochTotal(interval, RewardIn(initial, epoch))
  }

  /** The geometric sum. */
  lemma {:induction false} SumToClosed(initial: real, interval: nat, epoch: nat)
    ensures SumTo(initial, interval, epoch) == interval as real * (2.0 * initial - RewardIn(initial, epoch))
  {
    if epoch == 0 {
      assert RewardIn(initial, 0) == initial;
      assert interval as real * (2.0 * initial - initial) == interval as real * initial;
    } else {
      SumToClosed(initial, interval, epoch - 1);
      RewardHalves(initial, epoch - 1);
      var n, r := interval as real, RewardIn(initial, epoch);
      assert n * (2.0 * initial - 2.0 * r) + n * r == n * (2.0 * initial - r);
    }
  }

  lemma RewardHalves(initial: real, epoch: nat)
    ensures RewardIn(initial, epoch) == 2.0 * RewardIn(initial, epoch + 1)
  {}

  function StartOf(interval: nat, epoch: nat): nat {
    epoch * interval
  }

  /** The running total at an epoch's end, before it is rounded for display. */
  function CappedTo(maximum: real, initial: real, interval: nat, epoch: nat): real {
    Least(SumTo(initial, interval, epoch), maximum)
  }

  function RowOf(maximum: real, initial: real, interval: nat, epoch: nat): Row {
    Row(epoch, StartOf(interval, epoch), RoundHalfEven(RewardIn(initial, epoch)),
        ToFourPlaces(CappedTo(maximum, initial, interval, epoch)))
  }

  lemma ToFourPlacesNear(x: real)
    ensures ToFourPlaces(x) % 10_000 == 0 && x - 5_000.0 <= ToFourPlaces(x) as real <= x + 5_000.0
  {
    RoundHalfEvenNear(x / 10_000.0);
  }

  /** A row shows the epoch's first block, its reward to half a unit, and the capped total so far to
      half of the fourth place of a coin. */
  lemma {:induction false} RowNear(maximum: real, initial: real, interval: nat, epoch: nat)
    ensures var row := RowOf(maximum, initial, interval, epoch);
            var reward := initial / (Pow2(epoch) as real);
            var total := SumTo(initial, interval, epoch);
            && row.epoch == epoch && row.startBlock == epoch * interval
            && reward - 0.5 <= row.reward as real <= reward + 0.5
            && row.cumulative % 10_000 == 0
            && var capped := if total < maximum then total else maximum;
               capped - 5_000.0 <= row.cumulative as real <= capped + 5_000.0
  {
    RoundHalfEvenNear(RewardIn(initial, epoch));
    ToFourPlacesNear(CappedTo(maximum, initial, interval, epoch));
  }

  /** The loop: rows until the cumulative supply is within half a coin of the maximum. */
  method SupplySchedule(maximum: real, initial: real, interval: nat) returns (rows: seq<Row>)
    ensures |rows| <= EPOCH_LIMIT
    ensures forall e :: 0 <= e < |rows| ==> rows[e] == RowOf(maximum, initial, interval, e)
    ensures Ends(maximum, initial, interval, |rows|)
  {
    rows := [];
    var cumulative, epoch := 0.0, 0;
    while cumulative < maximum - CLOSE_ENOUGH && epoch < EPOCH_LIMIT
      invariant epoch == |rows| <= EPOCH_LIMIT
      invariant cumulative == if epoch == 0 then 0.0 else CappedTo(maximum, initial, interval, epoch - 1)
      invariant forall e :: 0 <= e < |rows| ==> rows[e] == RowOf(maximum, initial, interval, e)
      invariant forall e :: 0 <= e < epoch - 1 ==> CappedTo(maximum, initial, interval, e) < maximum - CLOSE_ENOUGH
      decreases EPOCH_LIMIT - epoch
    {
      var reward := RewardIn(initial, epoch);
      if reward <= 0.0 {
        PositiveReward(initial, epoch);
        break;
      }
      cumulative := Least(cumulative + EpochTotal(interval, reward), maximum);
      rows := rows + [Row(epoch, StartOf(interval, epoch), RoundHalfEven(reward), ToFourPlaces(cumulative))];
      epoch := epoch + 1;
    }
  }

  /** The number of rows: the total came close enough in the last one and in none before it,
      unless the page gave up at 64 rows or there was nothing to pay. */
  predicate Ends(maximum: real, initial: real, interval: nat, rows: nat) {
    && (forall e :: 0 <= e < rows - 1 ==> CappedTo(maximum, initial, interval, e) < maximum - CLOSE_ENOUGH)
    && (rows == EPOCH_LIMIT || initial <= 0.0 ||
        (if rows == 0 then 0.0 else CappedTo(maximum, initial, interval, rows - 1)) >= maximum - CLOSE_ENOUGH)
  }

  lemma PositiveReward(initial: real, epoch: nat)
    ensures initial > 0.0 ==> RewardIn(initial, epoch) > 0.0
  {}

  /** With the default figures an epoch's end is short of the maximum by what its own blocks paid. */
  lemma {:induction false} DefaultSum(epoch: nat)
    ensures SumTo(INITIAL_MINING_REWARD, HALVING_INTERVAL, epoch) ==
              MAXIMUM_SUPPLY as real - HALVING * EpochReward(epoch)
  {
    SumToClosed(INITIAL_MINING_REWARD, HALVING_INTERVAL, epoch);
    assert RewardIn(INITIAL_MINING_REWARD, epoch) == EpochReward(epoch);
  }

  lemma Pow2OfTwentyFour()
    ensures Pow2(24) == 0x100_0000 && Pow2(25) == 0x200_0000
  {
    assert Pow2(8) == 256;
    assert Pow2(16) == 256 * 256;
    assert Pow2(24) == 256 * 256 * 256;
  }

  function DefaultTotal(epoch: nat): real {
    CappedTo(MAXIMUM_SUPPLY as real, INITIAL_MINING_REWARD, HALVING_INTERVAL, epoch)
  }

  /** The page counts the supply as exhausted from epoch 25 on. */
  lemma DefaultCumulative(epoch: nat)
    ensures DefaultTotal(epoch) >= MAXIMUM_SUPPLY as real - CLOSE_ENOUGH <==> epoch >= 25
  {
    Pow2OfTwentyFour();
    DefaultSum(epoch);
    EpochRewardHalves(epoch);
    assert EpochReward(25) < 200.0 && EpochReward(24) > 290.0;
    if epoch >= 25 {
      EpochRewardShrinks(25, epoch);
    } else {
      EpochRewardShrinks(epoch, 24);
    }
  }

  /** What SupplySchedule returns on the default figures has 26 rows, epochs 0 to 25. */
  lemma DefaultScheduleEnds(rows: nat, last: nat)
    requires last == 25 && rows <= EPOCH_LIMIT
    requires Ends(MAXIMUM_SUPPLY as real, INITIAL_MINING_REWARD, HALVING_INTERVAL, rows)
    ensures rows == last + 1
  {
    DefaultCumulative(last);
    if rows > 0 {
      DefaultCumulative(rows - 1);
    }
    assert rows > last + 1 ==> DefaultTotal(last) < MAXIMUM_SUPPLY as real - CLOSE_ENOUGH;
  }

  lemma TailAtEpochEnd(epoch: nat)
    ensures Tail((epoch + 1) * HALVING_INTERVAL + 1) == HALVING * EpochReward(epoch) - 2.0 * EpochReward(epoch + 1)
  {
    var n := (epoch + 1) * HALVING_INTERVAL;
    var r := EpochReward(epoch + 1);
    EpochRewardHalves(epoch);
    assert Halvings(n + 2) == epoch + 1;
    assert HALVING_INTERVAL * (epoch + 1 + 2) - (n + 2) == 2 * HALVING_INTERVAL - 2;
    assert Tail(n + 1) == (2.0 * HALVING - 2.0) * r;
  }

  lemma LedgerAtEpochEnd(epoch: nat)
    ensures ScheduleTotal((epoch + 1) * HALVING_INTERVAL) as real <=
            MAXIMUM_SUPPLY as real - 9_990_000_000.0 - HALVING * EpochReward(epoch) + 2.0 * EpochReward(epoch + 1)
  {
    ScheduleBelowTail((epoch + 1) * HALVING_INTERVAL);
    TailAtEpochEnd(epoch);
  }

  lemma LaterRewardSmall(epoch: nat)
    ensures 2.0 * EpochReward(epoch + 1) <= 5_000_000_000.0
  {}

  /** The page runs ahead of the ledger: the first blocks after genesis pay nothing yet, so at
      each epoch's end the ledger's schedule has paid less than the page shows. */
  lemma {:induction false} LedgerStaysBelowPage(epoch: nat)
    ensures ScheduleTotal((epoch + 1) * HALVING_INTERVAL) < ToFourPlaces(DefaultTotal(epoch))
  {
    LedgerAtEpochEnd(epoch);
    LaterRewardSmall(epoch);
    DefaultSum(epoch);
    EpochRewardHalves(epoch);
    RoundHalfEvenNear(DefaultTotal(epoch) / 10_000.0);
  }
}
