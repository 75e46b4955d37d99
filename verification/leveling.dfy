/** The arithmetic shared by both generations' levelling loops. */
module Leveling {

  /** XP consumed by `count` successive level-ups starting at `from`, for a per-level threshold. */
  function ThresholdSum(threshold: int -> int, from: int, count: nat): int
    decreases count
  {
    if count == 0 then 0 else threshold(from) + ThresholdSum(threshold, from + 1, count - 1)
  }

  /** Consuming one more level at the end adds that level's threshold. */
  lemma {:induction false} ThresholdSumSnoc(threshold: int -> int, from: int, count: nat)
    ensures ThresholdSum(threshold, from, count + 1) == ThresholdSum(threshold, from, count) + threshold(from + count)
    decreases count
  {
    if count > 0 {
      ThresholdSumSnoc(threshold, from + 1, count - 1);
    }
  }
}
