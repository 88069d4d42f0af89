/**
 * The cost model: how a stored preference weight becomes the cost of the
 * (graduate, team) edge handed to the min-cost-flow solver. Lower cost means
 * a more desirable placement.
 */
module CostModel {

  /** Weights at or above this value mark a graduate's previous team. */
  const DISCOURAGED_THRESHOLD := 100

  /** Ordinary weights lie on a rank scale from 1 to 5. */
  const LOWEST_RANK := 1
  const HIGHEST_RANK := 5

  /**
   * A discouraged weight is used as the cost unchanged; a rank weight w
   * becomes 6 - w, so the scale is turned around and the highest rank is
   * the cheapest edge.
   */
  function EdgeCost(weight: int): (cost: int)
    ensures LOWEST_RANK <= weight <= HIGHEST_RANK ==> LOWEST_RANK <= cost <= HIGHEST_RANK
    ensures LOWEST_RANK <= weight <= HIGHEST_RANK ==> cost == LOWEST_RANK + HIGHEST_RANK - weight
    ensures weight >= DISCOURAGED_THRESHOLD ==> cost >= DISCOURAGED_THRESHOLD
  {
    if weight >= DISCOURAGED_THRESHOLD then weight else 6 - weight
  }

  /** Below the threshold a larger weight always gives a strictly cheaper edge. */
  lemma CostReversesRank(lighter: int, heavier: int)
    requires lighter < heavier < DISCOURAGED_THRESHOLD
    ensures EdgeCost(lighter) > EdgeCost(heavier)
  {
  }

  /** At or above the threshold a larger weight gives a strictly dearer edge. */
  lemma CostGrowsWithPenalty(lighter: int, heavier: int)
    requires DISCOURAGED_THRESHOLD <= lighter < heavier
    ensures EdgeCost(lighter) < EdgeCost(heavier)
  {
  }

  /** Any discouraged edge costs more than any edge weighted on the rank scale. */
  lemma DiscouragedCostsMore(discouraged: int, ranked: int)
    requires discouraged >= DISCOURAGED_THRESHOLD
    requires LOWEST_RANK <= ranked <= HIGHEST_RANK
    ensures EdgeCost(discouraged) > EdgeCost(ranked)
  {
  }
}
