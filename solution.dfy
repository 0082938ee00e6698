/**
 * The solution record the solve and aggregate passes exchange, reduced to the
 * fields they read or write, and the reply of the knowledge-base retriever.
 */
module Solutions {
  import opened Requirements

  /** `SolutionSource`: found in the knowledge base, or generated. */
  datatype Source = Existing | Novel

  /**
   * `Solution`. `id` stands for the fresh UUID each solution receives;
   * `isAggregated` and `childSolutionIds` are set only by the aggregator.
   */
  datatype Solution = Solution(
    id: Id,
    requirementId: Id,
    content: string,
    source: Source,
    confidence: real,
    isAggregated: bool,
    childSolutionIds: seq<Id>)

  function SolutionIdOf(s: Solution): Id { s.id }

  /** `RetrieverAgentOutput`: whether the search ran, the text of the chunks found, and their sources. */
  datatype Retrieval = Retrieval(success: bool, chunks: string, sources: seq<string>)

  /** `result.success and result.chunks`: the search ran and found some text. */
  predicate Found(r: Retrieval) {
    r.success && r.chunks != []
  }

  /** `result.chunks if result.success else ""` */
  function ChunksOrEmpty(r: Retrieval): (s: string)
    ensures s != [] ==> Found(r)
  {
    if r.success then r.chunks else ""
  }
}
