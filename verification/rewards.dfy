/** The block-reward halving schedule of the PMVP node (block_reward). */
module Rewards {
  import opened LedgerTypes

  /** Python's `x >> k` for a non-negative x: k halvings, each rounding down. */
  function ShiftRight(x: nat, k: nat): (r: nat)
    ensures r <= x
    ensures k > 0 && x > 0 ==> r < x
  {
    if k == 0 then x else ShiftRight(x / 2, k - 1)
  }

  /**
   * block_reward: 50 halved once per 100 blocks, never below 1. The source
   * raises on a negative height (a negative shift count), so the height is a nat.
   */
  function BlockReward(height: nat): (r: nat)
    ensures 1 <= r <= RewardInitial
    ensures r == RewardInitial <==> height < HalvingInterval
  {
    var halved := ShiftRight(RewardInitial, height / HalvingInterval);
    if halved < 1 then 1 else halved
  }

  lemma {:induction false} ShiftRightAntitoneInCount(x: nat, k1: nat, k2: nat)
    requires k1 <= k2
    ensures ShiftRight(x, k2) <= ShiftRight(x, k1)
  {
    if k1 > 0 {
      ShiftRightAntitoneInCount(x / 2, k1 - 1, k2 - 1);
    }
  }

  /** The reward never increases as the height grows. */
  lemma RewardNonIncreasing(h1: nat, h2: nat)
    requires h1 <= h2
    ensures BlockReward(h2) <= BlockReward(h1)
  {
    ShiftRightAntitoneInCount(RewardInitial, h1 / HalvingInterval, h2 / HalvingInterval);
  }

  /** The concrete schedule: 50, 25, 12, 6, 3, 1 per era of 100 blocks, and 1 from height 500 on. */
  lemma RewardSchedule(height: nat)
    ensures height < 100 ==> BlockReward(height) == 50
    ensures 100 <= height < 200 ==> BlockReward(height) == 25
    ensures 200 <= height < 300 ==> BlockReward(height) == 12
    ensures 300 <= height < 400 ==> BlockReward(height) == 6
    ensures 400 <= height < 500 ==> BlockReward(height) == 3
    ensures 500 <= height ==> BlockReward(height) == 1
  {
    var k := height / HalvingInterval;
    if k >= 5 {
      ShiftRightAntitoneInCount(RewardInitial, 5, k);
      assert ShiftRight(RewardInitial, 5) == 1;
    }
  }
}
