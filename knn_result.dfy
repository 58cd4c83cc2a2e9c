/** `KnnClassifierResult`: the immutable outcome of one inference. */
module KnnResult {
  import opened Distances

  /**
   * The winning category, the votes per category among the nearest entries, the
   * closest distance per category, and every distance in ascending order. Being a
   * value, it cannot change after construction: later learning leaves it as it is.
   */
  datatype KnnClassifierResult<C> = KnnClassifierResult(
    winner: C,
    inferenceResult: map<C, nat>,
    categoryDistance: map<C, Distance>,
    distances: seq<Distance>)
  {
    /** `getWinner`: the winner given at construction. */
    function GetWinner(): (w: C)
      ensures w == winner
    {
      winner
    }

    /** `getInferenceResult`: the vote map given at construction, as it was given. */
    function GetInferenceResult(): (votes: map<C, nat>)
      ensures votes == inferenceResult
    {
      inferenceResult
    }

    /**
     * `getClosestToCategory`: the stored closest distance. For a category without
     * one, Java unboxes the `null` from `getOrDefault` and throws, so the category
     * must be a key.
     */
    function GetClosestToCategory(category: C): (d: Distance)
      requires category in categoryDistance
      ensures d == categoryDistance[category]
    {
      categoryDistance[category]
    }
  }
}
