/** Fork schedules: when each rule the executors ask about becomes active. */
module Hardforks {
  import opened Common

  datatype ForkCondition = AtBlock(block: u64) | AtDifficulty(activationBlock: u64) | AtTimestamp(time: u64) | Never {
    predicate ActiveAtBlock(n: u64) {
      match this
      case AtBlock(b) => b <= n
      case AtDifficulty(b) => b <= n
      case _ => false
    }

    predicate ActiveAtTimestamp(t: u64) {
      AtTimestamp? && time <= t
    }

    predicate TransitionsAtBlock(n: u64) {
      AtBlock? && block == n
    }
  }

  datatype ChainSpec = ChainSpec(
    dao: ForkCondition, spuriousDragon: ForkCondition, byzantium: ForkCondition, constantinople: ForkCondition,
    paris: ForkCondition, shanghai: ForkCondition, cancun: ForkCondition, prague: ForkCondition,
    regolith: ForkCondition, canyon: ForkCondition,
    depositContract: Option<Address>)
}
