/** The aggregator node: the per-agent results of the state collected into one response. */
module Aggregator {
  import opened Wrappers
  import opened Schemas
  import opened State

  /**
   * `aggregator_node(state)`; the update's only key is `analyze_response`, so
   * the response itself stands for it. Reading `state["session_id"]` raises
   * when the key is absent, and the handler answers with an empty response.
   */
  function AggregatorNode(s: TutorState): (r: AnalyzeResponse)
    ensures s.sessionId.Some? ==> (r.sessionId == s.sessionId.value && r.reading == s.readingResult
      && r.grammar == s.grammarResult && r.vocabulary == s.vocabularyResult)
    ensures s.sessionId.None? ==> r == NewAnalyzeResponse("")
  {
    if s.sessionId.None? then NewAnalyzeResponse(GetOr(s.sessionId, ""))
    else AnalyzeResponse(s.sessionId.value, s.readingResult, s.grammarResult, s.vocabularyResult)
  }

  /** With no agent result at all the response is still well formed, every field empty. */
  lemma NoResults(s: TutorState)
    requires s.sessionId.Some?
    requires s.readingResult.None? && s.grammarResult.None? && s.vocabularyResult.None?
    ensures AggregatorNode(s) == NewAnalyzeResponse(s.sessionId.value)
  {
  }
}
