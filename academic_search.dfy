// The academic search tool (app/api/lib/ai/tools/academic-search.ts).
// Whether the service key is configured, and what the search service
// does with a request (answer with raw results, or throw), are
// parameters.

module AcademicSearch {
  import opened Opt
  import opened Seqs
  import opened Exa
  import opened Strings

  /** What a thrown value looks like to the tool: an Error with a message,
      or anything else. */
  datatype Thrown = ErrorObject(message: string) | OtherValue

  /** The outcome of constructing the service and searching. */
  datatype Outcome = Returned(raw: seq<RawResult>) | Threw(error: Thrown)

  datatype ToolResult = ToolResult(results: seq<ExaResult>, error: Option<string>, query: string,
                                   totalResults: Option<int>, filteredResults: Option<int>)

  const UnavailableMessage :=
    "Academic search is currently unavailable. " + "Please ensure EXA_API_KEY is configured."
  const FailurePrefix := "Academic search failed: "

  /** The request the tool makes: twenty results with summaries. */
  function ToolRequest(): (r: Request)
    ensures r.numResults == 20 && r.summary == SummaryQuery(AbstractQuery)
    ensures r.category == Some(ResearchPaper)
  {
    AcademicRequest(Some(20), Some(true))
  }

  /** `paper => paper.summary`: a non-empty summary. */
  predicate HasSummary(p: ExaResult)
  {
    p.summary.Some? && p.summary.value != ""
  }

  /** The message of a caught error. */
  function FailureMessage(e: Thrown): string
  {
    FailurePrefix + (if e.ErrorObject? then e.message else "Unknown error")
  }

  /** `execute`: without a key nothing is searched; otherwise the cleaned
      results with a summary are returned with both counts, and a thrown
      error becomes an error result instead of propagating. */
  function Execute(query: string, hasKey: bool, service: Request -> Outcome): (r: ToolResult)
    ensures r.query == query
    ensures !hasKey ==> r == ToolResult([], Some(UnavailableMessage), query, None, None)
    ensures hasKey && service(ToolRequest()).Threw? ==>
              r == ToolResult([], Some(FailureMessage(service(ToolRequest()).error)), query, None, None)
    ensures hasKey && service(ToolRequest()).Returned? ==>
              var all := ProcessAcademicResults(service(ToolRequest()).raw);
              r.error.None? && r.results == Filter(HasSummary, all)
              && r.totalResults == Some(|all|) && r.filteredResults == Some(|r.results|)
  {
    if !hasKey then ToolResult([], Some(UnavailableMessage), query, None, None)
    else
      match service(ToolRequest())
      case Threw(e) => ToolResult([], Some(FailureMessage(e)), query, None, None)
      case Returned(raw) =>
        var all := ProcessAcademicResults(raw);
        var kept := Filter(HasSummary, all);
        ToolResult(kept, None, query, Some(|all|), Some(|kept|))
  }

  /** A successful search never reports more filtered results than it
      found, every returned paper has a summary, and an error result
      carries no papers. */
  lemma ExecuteCounts(query: string, hasKey: bool, service: Request -> Outcome)
    ensures var r := Execute(query, hasKey, service);
            (r.filteredResults.Some? <==> r.totalResults.Some?)
            && (r.filteredResults.Some? ==> r.filteredResults.value <= r.totalResults.value)
            && (forall i :: 0 <= i < |r.results| ==> HasSummary(r.results[i]))
            && (r.error.Some? ==> r.results == [] && r.totalResults.None?)
            && (r.error.None? <==> hasKey && service(ToolRequest()).Returned?)
  {
  }

  /** The error of a result tells its cause apart: the missing-key message
      comes exactly when no key is configured, and a message starting with
      'Academic search failed: ' exactly when the configured service threw. */
  lemma ErrorIdentifiesCause(query: string, hasKey: bool, service: Request -> Outcome)
    ensures var r := Execute(query, hasKey, service);
            (r.error == Some(UnavailableMessage) <==> !hasKey)
            && (r.error.Some? && StartsWith(r.error.value, FailurePrefix) <==>
                  hasKey && service(ToolRequest()).Threw?)
  {
    assert UnavailableMessage[16] != FailurePrefix[16];
    assert !StartsWith(UnavailableMessage, FailurePrefix);
    if hasKey && service(ToolRequest()).Threw? {
      var m := FailureMessage(service(ToolRequest()).error);
      assert m[..|FailurePrefix|] == FailurePrefix;
      assert m[16] == FailurePrefix[16];
    }
  }

  /** A paper returned by the service without a summary is cleaned to an
      empty one and so is filtered out here. */
  lemma UnsummarisedDropped(query: string, paper: RawResult, service: Request -> Outcome)
    requires paper.summary.None?
    requires service(ToolRequest()) == Returned([paper])
    ensures Execute(query, true, service).results == []
    ensures Execute(query, true, service).totalResults == Some(1)
  {
    SummaryNotRequired(paper);
  }
}
