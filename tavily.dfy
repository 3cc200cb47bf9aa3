// The Tavily web search client (app/api/lib/services/tavily.ts). The
// client call is a parameter mapping a query and a request to the raw
// response, and the two clock readings around it are parameters too.

module Tavily {
  import opened Opt
  import opened Seqs

  /** The options a caller may give; every one may be absent. */
  datatype SearchOptions = SearchOptions(searchDepth: Option<string>, includeAnswer: Option<bool>,
                                         maxResults: Option<int>, includeDomains: Option<seq<string>>,
                                         excludeDomains: Option<seq<string>>)

  /** The request handed to the client; an absent domain list is a key the
      source leaves out of the object. */
  datatype Request = Request(searchDepth: string, includeAnswer: bool, maxResults: int,
                             includeDomains: Option<seq<string>>, excludeDomains: Option<seq<string>>)

  /** A result as the client returns it. */
  datatype RawResult = RawResult(title: Option<string>, url: Option<string>, content: Option<string>,
                                 score: Option<real>, published_date: Option<string>,
                                 publishedDate: Option<string>)

  datatype RawResponse = RawResponse(results: Option<seq<RawResult>>, answer: Option<string>)

  datatype TavilyResult = TavilyResult(title: string, url: string, content: string,
                                       score: Option<real>, publishedDate: Option<string>)

  datatype Response = Response(query: string, results: seq<TavilyResult>, answer: Option<string>,
                               responseTime: int)

  /** `search`'s request: the destructuring defaults ('basic', an answer,
      six results) replace only absent options, and a domain list is sent
      only when one was given. */
  function BuildRequest(o: SearchOptions): (r: Request)
    ensures r.searchDepth == o.searchDepth.GetOr("basic")
    ensures r.includeAnswer == o.includeAnswer.GetOr(true)
    ensures r.maxResults == o.maxResults.GetOr(6)
    ensures r.includeDomains == o.includeDomains && r.excludeDomains == o.excludeDomains
  {
    Request(o.searchDepth.GetOr("basic"), o.includeAnswer.GetOr(true), o.maxResults.GetOr(6),
            o.includeDomains, o.excludeDomains)
  }

  /** With no options at all the request is basic, with an answer, for six
      results and without domain filters. */
  lemma DefaultRequest()
    ensures BuildRequest(SearchOptions(None, None, None, None, None)) == Request("basic", true, 6, None, None)
  {
  }

  /** `a || b` on optional strings: the first when it is a non-empty
      string, otherwise the second as it is. */
  function OrOpt(a: Option<string>, b: Option<string>): (r: Option<string>)
    ensures a.Some? && a.value != "" ==> r == a
    ensures !(a.Some? && a.value != "") ==> r == b
  {
    if a.Some? && a.value != "" then a else b
  }

  function OrEmpty(s: Option<string>): (r: string)
    ensures s.Some? ==> r == s.value
    ensures s.None? ==> r == ""
  {
    if s.Some? && s.value != "" then s.value else ""
  }

  /** One cleaned result. */
  function CleanResult(r: RawResult): TavilyResult
  {
    TavilyResult(OrEmpty(r.title), OrEmpty(r.url), OrEmpty(r.content), r.score,
                 OrOpt(r.published_date, r.publishedDate))
  }

  /** `processResults`. */
  function ProcessResults(rs: seq<RawResult>): seq<TavilyResult>
  {
    Map(CleanResult, rs)
  }

  /** The results correspond one to one with the raw ones; present strings
      are kept, missing ones become '', and the snake-case date wins over
      the camel-case one unless it is missing or empty. */
  lemma ProcessResultsOneToOne(rs: seq<RawResult>)
    ensures var out := ProcessResults(rs);
            |out| == |rs|
            && forall i :: 0 <= i < |rs| ==>
                 out[i].title == rs[i].title.GetOr("") && out[i].url == rs[i].url.GetOr("")
                 && out[i].content == rs[i].content.GetOr("") && out[i].score == rs[i].score
                 && (rs[i].published_date.Some? && rs[i].published_date.value != "" ==>
                       out[i].publishedDate == rs[i].published_date)
                 && (rs[i].published_date.None? ==> out[i].publishedDate == rs[i].publishedDate)
  {
  }

  /** `search`: the client is asked for the query with the built request;
      its results are cleaned by `processResults`, missing results being an
      empty list; the response time is the clock difference. */
  function Search(query: string, o: SearchOptions, client: string -> Request -> RawResponse,
                  startTime: int, endTime: int): (r: Response)
    ensures r.query == query && r.responseTime == endTime - startTime
    ensures r.answer == client(query)(BuildRequest(o)).answer
    ensures r.results == ProcessResults(client(query)(BuildRequest(o)).results.GetOr([]))
    ensures client(query)(BuildRequest(o)).results.None? ==> r.results == []
    ensures client(query)(BuildRequest(o)).results.Some? ==>
              |r.results| == |client(query)(BuildRequest(o)).results.value|
  {
    var raw := client(query)(BuildRequest(o));
    Response(query, ProcessResults(raw.results.GetOr([])), raw.answer, endTime - startTime)
  }

  /** `quickSearch`'s options: basic, no answer, three results unless a
      count is passed. */
  function QuickOptions(maxResults: Option<int>): SearchOptions
  {
    SearchOptions(Some("basic"), Some(false), Some(maxResults.GetOr(3)), None, None)
  }

  /** `deepSearch`'s options: advanced, with an answer, ten results unless
      a count is passed. */
  function DeepOptions(maxResults: Option<int>): SearchOptions
  {
    SearchOptions(Some("advanced"), Some(true), Some(maxResults.GetOr(10)), None, None)
  }

  /** `searchWithDomains`'s options: basic, no answer, `maxResults || 5`,
      and the domain lists passed on. */
  function DomainOptions(includeDomains: Option<seq<string>>, excludeDomains: Option<seq<string>>,
                         maxResults: Option<int>): SearchOptions
  {
    SearchOptions(Some("basic"), Some(false),
                  Some(if maxResults.Some? && maxResults.value != 0 then maxResults.value else 5),
                  includeDomains, excludeDomains)
  }

  /** The three presets' requests. A count of 0 is kept by the parameter
      default of `quickSearch` but replaced by `searchWithDomains`'s `||`. */
  lemma PresetRequests(inc: Option<seq<string>>, exc: Option<seq<string>>)
    ensures BuildRequest(QuickOptions(None)) == Request("basic", false, 3, None, None)
    ensures BuildRequest(DeepOptions(None)) == Request("advanced", true, 10, None, None)
    ensures BuildRequest(DomainOptions(inc, exc, None)) == Request("basic", false, 5, inc, exc)
    ensures BuildRequest(QuickOptions(Some(0))).maxResults == 0
    ensures BuildRequest(DomainOptions(inc, exc, Some(0))).maxResults == 5
  {
  }
}
