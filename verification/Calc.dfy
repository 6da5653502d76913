/** Block and ommer rewards, in wrapping machine arithmetic. */
module Calc {
  import opened Common
  import opened Hardforks

  const ETH_TO_WEI: u128 := 1_000_000_000_000_000_000

  function BaseBlockReward(spec: ChainSpec, number: u64): Option<u128> {
    if spec.paris.ActiveAtBlock(number) then None else Some(BaseBlockRewardPreMerge(spec, number))
  }

  function BaseBlockRewardPreMerge(spec: ChainSpec, number: u64): u128 {
    if spec.constantinople.ActiveAtBlock(number) then ETH_TO_WEI * 2
    else if spec.byzantium.ActiveAtBlock(number) then ETH_TO_WEI * 3
    else ETH_TO_WEI * 5
  }

  function BlockReward(base: u128, ommers: nat): u128 {
    AddU128(base, (base / 32 * ommers) % U128)
  }

  function OmmerReward(base: u128, number: u64, ommer: u64): u128 {
    (SubU64(AddU64(8, ommer), number) * base) % U128 / 8
  }

  /** One of the three base rewards the schedule can pay. */
  predicate IsBaseReward(base: int) {
    base == 2 * ETH_TO_WEI || base == 3 * ETH_TO_WEI || base == 5 * ETH_TO_WEI
  }

  /** On a schedule by block number the reward is 5, 3, 2 ETH and nothing, in this order. */
  lemma {:induction false} RewardSchedule(spec: ChainSpec, byzantium: u64, constantinople: u64, paris: u64, number: u64)
    requires byzantium <= constantinople <= paris
    requires spec.byzantium == AtBlock(byzantium) && spec.constantinople == AtBlock(constantinople)
    requires spec.paris == AtBlock(paris) || spec.paris == AtDifficulty(paris)
    ensures BaseBlockReward(spec, number) ==
            if number < byzantium && number < paris then Some(5_000_000_000_000_000_000)
            else if number < constantinople then Some(3_000_000_000_000_000_000)
            else if number < paris then Some(2_000_000_000_000_000_000)
            else None
  {
  }

  lemma {:induction false} BaseRewardIsOneOfThree(spec: ChainSpec, number: u64)
    ensures BaseBlockReward(spec, number).Some? <==> !spec.paris.ActiveAtBlock(number)
    ensures BaseBlockReward(spec, number).Some? ==> IsBaseReward(BaseBlockReward(spec, number).value)
  {
  }

  /** Neither shift loses a wei, and no number of ommers makes the block reward overflow. */
  lemma {:induction false} BlockRewardExact(base: u128, ommers: u64)
    requires IsBaseReward(base)
    ensures base % 32 == 0 && base % 8 == 0
    ensures 32 * (BlockReward(base, ommers) - base) == base * ommers
  {
    if base == 2 * ETH_TO_WEI {
      BlockRewardLinear(62_500_000_000_000_000, ommers);
    } else if base == 3 * ETH_TO_WEI {
      BlockRewardLinear(93_750_000_000_000_000, ommers);
    } else {
      BlockRewardLinear(156_250_000_000_000_000, ommers);
    }
  }

  lemma {:induction false} BlockRewardLinear(part: nat, ommers: u64)
    requires part < 1_000_000_000_000_000_000
    ensures BlockReward(32 * part, ommers) == 32 * part + part * ommers
  {
    ProductBound(part, ommers, 1_000_000_000_000_000_000);
    Unwrapped(part * ommers);
    Unwrapped(32 * part + part * ommers);
    assert 32 * part / 32 == part;
  }

  lemma {:induction false} ProductBound(x: nat, n: u64, bound: nat)
    requires x < bound
    ensures 0 <= x * n <= bound * U64
  {
  }

  lemma {:induction false} Unwrapped(x: nat)
    requires x < U128
    ensures x % U128 == x
  {
  }

  /**
   The ommer reward is (8 - depth) eighths of the base reward exactly when the depth is at most 8
   (and the ommer is not absurdly far ahead): otherwise the unsigned subtraction has wrapped.
   */
  lemma {:induction false} OmmerRewardExact(base: u128, number: u64, ommer: u64)
    requires IsBaseReward(base)
    ensures OmmerReward(base, number, ommer) == (8 + ommer - number) * (base / 8) <==>
            0 <= 8 + ommer - number < U64
  {
    var wrapped := SubU64(AddU64(8, ommer), number);
    WrappedDepth(number, ommer);
    if base == 2 * ETH_TO_WEI {
      OmmerEighths(wrapped, 250_000_000_000_000_000);
    } else if base == 3 * ETH_TO_WEI {
      OmmerEighths(wrapped, 375_000_000_000_000_000);
    } else {
      OmmerEighths(wrapped, 625_000_000_000_000_000);
    }
  }

  lemma {:induction false} WrappedDepth(number: u64, ommer: u64)
    ensures SubU64(AddU64(8, ommer), number) == 8 + ommer - number <==> 0 <= 8 + ommer - number < U64
  {
  }

  lemma {:induction false} OmmerEighths(wrapped: u64, eighth: nat)
    requires eighth < 1_000_000_000_000_000_000
    ensures (wrapped * (8 * eighth)) % U128 / 8 == wrapped * eighth
  {
    ProductBound(eighth, wrapped, 1_000_000_000_000_000_000);
    assert wrapped * (8 * eighth) == 8 * (wrapped * eighth);
  }
}
