// The academic tool and the reasoned search of the chat route
// (app/api/search/route.ts). The route calls the search clients directly;
// they are parameters mapping a query and a request to the raw results,
// `None` standing for a call that throws. Language-model calls are left
// out: the research plan and the knowledge gaps are inputs.

module RouteSearch {
  import opened Opt
  import opened Strings
  import opened Seqs
  import Exa
  import Tavily
  import opened ResearchPlan
  import opened ResearchRun

  // ---------------------------------------------------------------------
  // The academic tool

  /** The tool's request: twenty research papers with an abstract
      summary. */
  function AcademicToolRequest(): (r: Exa.Request)
    ensures r.numResults == 20 && r.category == Some(Exa.ResearchPaper)
    ensures r.summary == Exa.SummaryQuery(Exa.AbstractQuery)
  {
    Exa.AcademicRequest(Some(20), Some(true))
  }

  /** `!paper.summary` is false: the paper has a non-empty summary. */
  predicate Usable(p: Exa.RawResult)
  {
    p.summary.Some? && p.summary.value != ""
  }

  /** A kept paper: every field spread from the original, the title
      stripped of a bracketed suffix (`cleanTitle || ''`) and the summary
      of its label. */
  function CleanToolPaper(p: Exa.RawResult): (r: Exa.RawResult)
    requires Usable(p)
    ensures r.url == p.url && r.id == p.id && r.author == p.author && r.text == p.text
    ensures r.summary == Some(Exa.StripSummaryLabel(p.summary.value))
  {
    p.(title := Some(if p.title.Some? then Exa.StripBracketSuffix(p.title.value) else ""),
       summary := Some(Exa.StripSummaryLabel(p.summary.value)))
  }

  /** `acc.some((p) => p.url === paper.url)` on the spread urls, so two
      missing urls are equal. */
  predicate Taken(acc: seq<Exa.RawResult>, url: Option<string>)
  {
    exists k | 0 <= k < |acc| :: acc[k].url == url
  }

  function ToolStep(acc: seq<Exa.RawResult>, paper: Exa.RawResult): seq<Exa.RawResult>
  {
    if Taken(acc, paper.url) || !Usable(paper) then acc else acc + [CleanToolPaper(paper)]
  }

  /** The tool's reduce over the raw results, as a left fold. */
  function ToolResults(rs: seq<Exa.RawResult>): seq<Exa.RawResult>
    decreases |rs|
  {
    if rs == [] then [] else ToolStep(ToolResults(rs[..|rs| - 1]), rs[|rs| - 1])
  }

  /** Paper `i` is kept by the reference: it has a summary and no earlier
      paper with a summary shares its url. */
  predicate FirstUsable(rs: seq<Exa.RawResult>, i: int)
    requires 0 <= i < |rs|
  {
    Usable(rs[i]) && forall j :: 0 <= j < i && Usable(rs[j]) ==> rs[j].url != rs[i].url
  }

  /** The reference: the papers that are first usable for their url,
      cleaned, in input order. */
  function FirstUsablePerUrl(rs: seq<Exa.RawResult>): seq<Exa.RawResult>
    decreases |rs|
  {
    if rs == [] then []
    else
      var n := |rs| - 1;
      FirstUsablePerUrl(rs[..n]) + (if FirstUsable(rs, n) then [CleanToolPaper(rs[n])] else [])
  }

  function KeptUrls(acc: seq<Exa.RawResult>): set<Option<string>>
  {
    set k | 0 <= k < |acc| :: acc[k].url
  }

  function UsableUrls(rs: seq<Exa.RawResult>): set<Option<string>>
  {
    set j | 0 <= j < |rs| && Usable(rs[j]) :: rs[j].url
  }

  lemma UsableUrlsSnoc(p: seq<Exa.RawResult>, x: Exa.RawResult)
    ensures UsableUrls(p + [x]) == UsableUrls(p) + (if Usable(x) then {x.url} else {})
  {
    var s := p + [x];
    forall u | u in UsableUrls(s)
      ensures u in UsableUrls(p) + (if Usable(x) then {x.url} else {})
    {
      var j :| 0 <= j < |s| && Usable(s[j]) && s[j].url == u;
      if j < |p| {
        assert s[j] == p[j];
      }
    }
    forall u | u in UsableUrls(p)
      ensures u in UsableUrls(s)
    {
      var j :| 0 <= j < |p| && Usable(p[j]) && p[j].url == u;
      assert s[j] == p[j];
    }
    if Usable(x) {
      assert s[|p|] == x;
    }
  }

  lemma KeptUrlsSnoc(acc: seq<Exa.RawResult>, c: Exa.RawResult)
    ensures KeptUrls(acc + [c]) == KeptUrls(acc) + {c.url}
  {
    var s := acc + [c];
    forall u | u in KeptUrls(s)
      ensures u in KeptUrls(acc) + {c.url}
    {
      var k :| 0 <= k < |s| && s[k].url == u;
      if k < |acc| {
        assert s[k] == acc[k];
      }
    }
    forall u | u in KeptUrls(acc)
      ensures u in KeptUrls(s)
    {
      var k :| 0 <= k < |acc| && acc[k].url == u;
      assert s[k] == acc[k];
    }
    assert s[|acc|] == c;
  }

  /** The last paper is first usable exactly when it has a summary and its
      url is not among the earlier usable ones. */
  lemma FirstUsableLast(p: seq<Exa.RawResult>, x: Exa.RawResult)
    ensures FirstUsable(p + [x], |p|) <==> Usable(x) && x.url !in UsableUrls(p)
  {
    var s := p + [x];
    assert s[|p|] == x;
    forall j | 0 <= j < |p|
      ensures s[j] == p[j]
    {
    }
  }

  lemma ToolStepReference(p: seq<Exa.RawResult>, x: Exa.RawResult)
    requires ToolResults(p) == FirstUsablePerUrl(p) && KeptUrls(ToolResults(p)) == UsableUrls(p)
    ensures ToolResults(p + [x]) == FirstUsablePerUrl(p + [x])
    ensures KeptUrls(ToolResults(p + [x])) == UsableUrls(p + [x])
  {
    var s := p + [x];
    assert s[..|s| - 1] == p && s[|s| - 1] == x;
    var acc := ToolResults(p);
    assert Taken(acc, x.url) <==> x.url in KeptUrls(acc);
    FirstUsableLast(p, x);
    UsableUrlsSnoc(p, x);
    if !Taken(acc, x.url) && Usable(x) {
      KeptUrlsSnoc(acc, CleanToolPaper(x));
    }
  }

  /** The tool keeps exactly the first paper with a summary for each url
      (a missing url counting as one url), in input order, and its urls
      are those of the papers with a summary. */
  lemma {:induction false} ToolResultsAreFirstUsable(rs: seq<Exa.RawResult>)
    ensures ToolResults(rs) == FirstUsablePerUrl(rs)
    ensures KeptUrls(ToolResults(rs)) == UsableUrls(rs)
    decreases |rs|
  {
    if rs != [] {
      var p, x := rs[..|rs| - 1], rs[|rs| - 1];
      assert rs == p + [x];
      ToolResultsAreFirstUsable(p);
      ToolStepReference(p, x);
    }
  }

  /** The paper `c` is the cleaned form of some input paper with a
      summary. */
  predicate FromUsable(rs: seq<Exa.RawResult>, c: Exa.RawResult)
  {
    exists k :: 0 <= k < |rs| && Usable(rs[k]) && c == CleanToolPaper(rs[k])
  }

  /** Every kept paper is the cleaned form of an input paper with a
      summary. */
  lemma {:induction false} ToolResultsFromUsable(rs: seq<Exa.RawResult>)
    ensures forall i :: 0 <= i < |ToolResults(rs)| ==> FromUsable(rs, ToolResults(rs)[i])
    decreases |rs|
  {
    if rs != [] {
      var n := |rs| - 1;
      var p := rs[..n];
      ToolResultsFromUsable(p);
      var acc := ToolResults(p);
      var r := ToolStep(acc, rs[n]);
      assert ToolResults(rs) == r;
      forall i | 0 <= i < |r|
        ensures FromUsable(rs, r[i])
      {
        if i < |acc| {
          assert r[i] == acc[i];
          assert FromUsable(p, acc[i]);
          var k :| 0 <= k < |p| && Usable(p[k]) && acc[i] == CleanToolPaper(p[k]);
          assert p[k] == rs[k];
        } else {
          assert r[i] == CleanToolPaper(rs[n]);
        }
      }
    }
  }

  predicate UrlsDistinct(r: seq<Exa.RawResult>)
  {
    forall i, j :: 0 <= i < j < |r| ==> r[i].url != r[j].url
  }

  /** No url, not even a missing one, appears twice among the kept
      papers. */
  lemma {:induction false} ToolResultsDistinct(rs: seq<Exa.RawResult>)
    ensures UrlsDistinct(ToolResults(rs))
    decreases |rs|
  {
    if rs != [] {
      var n := |rs| - 1;
      var p := rs[..n];
      ToolResultsDistinct(p);
      var acc := ToolResults(p);
      var r := ToolStep(acc, rs[n]);
      assert ToolResults(rs) == r;
      if !Taken(acc, rs[n].url) && Usable(rs[n]) {
        var c := CleanToolPaper(rs[n]);
        assert r == acc + [c];
        forall i, j | 0 <= i < j < |r|
          ensures r[i].url != r[j].url
        {
          assert r[i] == acc[i];
          if j < |acc| {
            assert r[j] == acc[j];
          } else {
            assert r[j] == c;
          }
        }
      } else {
        assert r == acc;
      }
    }
  }

  /** Unlike the Exa client's cleaning, the tool collapses papers lacking a
      url into the first of them. */
  lemma ToolCollapsesMissingUrls(a: Exa.RawResult, b: Exa.RawResult)
    requires a.url.None? && b.url.None? && Usable(a) && Usable(b)
    ensures |ToolResults([a, b])| == 1
  {
    assert [a, b][..1] == [a];
    assert [a][..0] == [];
    var c := CleanToolPaper(a);
    assert ToolResults([a]) == [c];
    assert [c][0].url == b.url;
    assert Taken([c], b.url);
  }

  /** The Exa client keeps both: its cleaned url '' never equals a missing
      url. */
  lemma ClientKeepsMissingUrls(a: Exa.RawResult, b: Exa.RawResult)
    requires a.url.None? && b.url.None?
    ensures |Exa.ProcessAcademicResults([a, b])| == 2
  {
    var e := Exa.CleanPaper(a);
    assert Exa.AcademicStep([], a) == [e];
    assert !Exa.UrlTaken([e], b.url);
    assert [a, b][1..] == [b];
    assert [b][1..] == [];
    assert Exa.FoldAcademic([], [a, b]) == Exa.FoldAcademic([e], [b]);
    assert Exa.FoldAcademic([e], [b]) == Exa.FoldAcademic([e, Exa.CleanPaper(b)], []);
  }

  // ---------------------------------------------------------------------
  // The reasoned search: clients and the results of one step

  /** The route's web client: the query and request to the results, or
      `None` when the call throws. */
  type WebClient = string -> Tavily.Request -> Option<seq<Tavily.TavilyResult>>

  /** The route's Exa client, likewise. */
  type RawClient = string -> Exa.Request -> Option<seq<Exa.RawResult>>

  /** The academic request of a plan step: `summary: true` rather than an
      abstract query. */
  function PlanAcademicRequest(priority: int): (r: Exa.Request)
    ensures r.numResults == Min(6 - priority, 5) && r.summary == Exa.SummaryOn
  {
    Exa.Request("auto", Min(6 - priority, 5), Some(Exa.ResearchPaper), None, false, false, false, Exa.SummaryOn)
  }

  /** A paper straight from the client: `title || ''`, `url || ''`,
      `summary || ''`. */
  function FromRawPaper(r: Exa.RawResult): ProcessedResult
  {
    ProcessedResult(AcademicSearch, Exa.OrElse(r.title, ""), Exa.OrElse(r.url, ""), Exa.OrElse(r.summary, ""), None)
  }

  /** A post, when its tweet id is truthy: `title || author || 'Tweet'`,
      `text || ''`. */
  function PostOf(r: Exa.RawResult, tweetId: Option<string>): (p: Option<ProcessedResult>)
    ensures p.Some? <==> tweetId.Some? && tweetId.value != ""
    ensures p.Some? ==> p.value.tweetId == tweetId && p.value.title != "" && p.value.source == XSearch
  {
    if tweetId.None? || tweetId.value == "" then None
    else Some(ProcessedResult(XSearch, Exa.OrElse(r.title, Exa.OrElse(r.author, "Tweet")),
                              r.url.GetOr(""), Exa.OrElse(r.text, ""), tweetId))
  }

  /** The posts of the raw results whose extracted tweet id is truthy: the
      map to `null` and the filter of the nulls. */
  function Posts(extract: Option<string> -> Option<string>, raw: seq<Exa.RawResult>): (r: seq<ProcessedResult>)
    ensures |r| <= |raw|
    ensures forall i :: 0 <= i < |r| ==> r[i].source == XSearch && r[i].tweetId.Some? && r[i].tweetId.value != ""
    decreases |raw|
  {
    if raw == [] then []
    else
      var p := PostOf(raw[0], extract(raw[0].url));
      (if p.Some? then [p.value] else []) + Posts(extract, raw[1..])
  }

  /** The route's extractTweetId on a url that is present. */
  function UrlTweetId(url: Option<string>): Option<string>
  {
    if url.Some? then Exa.ExtractTweetId(url.value) else None
  }

  predicate HasUrl(r: Exa.RawResult)
  {
    r.url.Some?
  }

  /** The posts of an X step; `url.match` on a missing url throws. */
  function XPosts(raw: seq<Exa.RawResult>): Option<seq<ProcessedResult>>
  {
    if forall i :: 0 <= i < |raw| ==> HasUrl(raw[i]) then Some(Posts(UrlTweetId, raw)) else None
  }

  /** Exactly the raw results whose url links a post are kept, each with
      that post's numeric id. */
  lemma {:induction false} PostsAreTweets(raw: seq<Exa.RawResult>)
    ensures var r := Posts(UrlTweetId, raw);
            |r| == Count(Exa.HasTweetLink, raw)
            && forall k :: 0 <= k < |r| ==>
                 r[k].tweetId.Some? && r[k].tweetId == Exa.ExtractTweetId(r[k].url) && r[k].title != ""
                 && (forall i :: 0 <= i < |r[k].tweetId.value| ==> IsDigit(r[k].tweetId.value[i]))
    decreases |raw|
  {
    if raw != [] {
      PostsAreTweets(raw[1..]);
      if raw[0].url.Some? {
        Exa.TweetIdIsNumeric(raw[0].url.value);
      }
    }
  }

  /** The results of one step of the plan; `None` when a client throws or
      an X result lacks a url, which ends the whole tool. */
  function PlanStepResults(step: SearchStep, depth: string, web: WebClient, exa: RawClient)
    : (r: Option<seq<ProcessedResult>>)
    ensures r.Some? ==> forall i :: 0 <= i < |r.value| ==> r.value[i].source == step.kind
  {
    var q := step.query;
    match step.kind
    case WebSearch =>
      var hits := web(q.query)(Tavily.Request(depth, true, Min(6 - q.priority, 10), None, None));
      if hits.None? then None else Some(Map(FromWeb, hits.value))
    case AcademicSearch =>
      var papers := exa(q.query)(PlanAcademicRequest(q.priority));
      if papers.None? then None else Some(Map(FromRawPaper, papers.value))
    case XSearch =>
      var raw := exa(q.query)(Exa.SocialRequest(Some(q.priority)));
      if raw.None? then None else XPosts(raw.value)
  }

  function RouteRunner(depth: string, web: WebClient, exa: RawClient): Runner
  {
    (s: SearchStep) => PlanStepResults(s, depth, web, exa)
  }

  // ---------------------------------------------------------------------
  // Follow-up searches

  /** A knowledge gap the gap analysis reports. */
  datatype Gap = Gap(topic: string, reason: string, additionalQueries: seq<string>)

  /** The source of a gap's query number `idx`: 'all' for the first, then
      `['web', 'academic', 'x'][idx % 3]`. */
  function FollowUpSource(idx: nat): (s: Source)
    ensures s == All <==> idx == 0
  {
    if idx == 0 then All
    else if idx % 3 == 0 then Web
    else if idx % 3 == 1 then Academic
    else X
  }

  /** A gap's follow-up queries, all with the gap's reason and priority 3. */
  function GapQueries(g: Gap): (qs: seq<SearchQuery>)
    ensures |qs| == |g.additionalQueries|
    ensures forall k :: 0 <= k < |qs| ==>
              qs[k] == SearchQuery(g.additionalQueries[k], g.reason, FollowUpSource(k), 3)
  {
    seq(|g.additionalQueries|, k requires 0 <= k < |g.additionalQueries| =>
          SearchQuery(g.additionalQueries[k], g.reason, FollowUpSource(k), 3))
  }

  /** The flatMap of `GapQueries` over the gaps. */
  function FollowUpQueries(gaps: seq<Gap>): seq<SearchQuery>
    decreases |gaps|
  {
    if gaps == [] then [] else FollowUpQueries(gaps[..|gaps| - 1]) + GapQueries(gaps[|gaps| - 1])
  }

  /** The inner reduce of `additionalQueriesCount` over `n` queries. */
  function QueryOpCount(n: nat): nat
  {
    if n == 0 then 0 else QueryOpCount(n - 1) + (if FollowUpSource(n - 1) == All then 3 else 1)
  }

  /** `additionalQueriesCount`: the outer reduce over the gaps. */
  function AdditionalQueriesCount(gaps: seq<Gap>): nat
    decreases |gaps|
  {
    if gaps == [] then 0
    else AdditionalQueriesCount(gaps[..|gaps| - 1]) + QueryOpCount(|gaps[|gaps| - 1].additionalQueries|)
  }

  /** A gap with n queries costs n + 2 operations, none without queries. */
  lemma {:induction false} QueryOpCountClosed(n: nat)
    ensures QueryOpCount(n) == if n == 0 then 0 else n + 2
  {
    if n > 0 {
      QueryOpCountClosed(n - 1);
    }
  }

  /** The operations of a follow-up query, in the order they run. */
  function Operations(q: SearchQuery): (ks: seq<Kind>)
    ensures |ks| == if q.source == All then 3 else 1
    ensures forall i :: 0 <= i < |ks| ==> KindFits(q.source, ks[i])
  {
    (if q.source == All || q.source == Web then [WebSearch] else [])
    + (if q.source == All || q.source == Academic then [AcademicSearch] else [])
    + (if q.source == All || q.source == X then [XSearch] else [])
  }

  /** One follow-up operation: its kind and the query it serves. */
  datatype FollowUpOp = FollowUpOp(kind: Kind, query: SearchQuery)

  function OpsOf(q: SearchQuery): (ops: seq<FollowUpOp>)
    ensures |ops| == |Operations(q)|
    ensures forall i :: 0 <= i < |ops| ==> ops[i] == FollowUpOp(Operations(q)[i], q)
  {
    Map((k: Kind) => FollowUpOp(k, q), Operations(q))
  }

  /** All follow-up operations in the order the nested loops run them. */
  function FollowUpOps(qs: seq<SearchQuery>): seq<FollowUpOp>
    decreases |qs|
  {
    if qs == [] then [] else FollowUpOps(qs[..|qs| - 1]) + OpsOf(qs[|qs| - 1])
  }

  lemma {:induction false} FollowUpOpsCount(qs: seq<SearchQuery>)
    ensures |FollowUpOps(qs)| == StepCount(qs)
    decreases |qs|
  {
    if qs != [] {
      FollowUpOpsCount(qs[..|qs| - 1]);
    }
  }

  lemma {:induction false} StepCountConcat(a: seq<SearchQuery>, b: seq<SearchQuery>)
    ensures StepCount(a + b) == StepCount(a) + StepCount(b)
    decreases |b|
  {
    if b == [] {
      assert a + b == a;
    } else {
      var n := |b| - 1;
      assert (a + b)[..|a + b| - 1] == a + b[..n];
      StepCountConcat(a, b[..n]);
    }
  }

  lemma {:induction false} GapQueriesCount(g: Gap, n: nat)
    requires n <= |g.additionalQueries|
    ensures StepCount(GapQueries(g)[..n]) == QueryOpCount(n)
    decreases n
  {
    if n > 0 {
      GapQueriesCount(g, n - 1);
      assert GapQueries(g)[..n][..n - 1] == GapQueries(g)[..n - 1];
    }
  }

  /** `additionalQueriesCount` is exactly the number of operations the
      follow-up loops run. */
  lemma {:induction false} AdditionalCountIsOperations(gaps: seq<Gap>)
    ensures |FollowUpOps(FollowUpQueries(gaps))| == AdditionalQueriesCount(gaps)
    decreases |gaps|
  {
    FollowUpOpsCount(FollowUpQueries(gaps));
    if gaps != [] {
      var n := |gaps| - 1;
      var g := gaps[n];
      AdditionalCountIsOperations(gaps[..n]);
      FollowUpOpsCount(FollowUpQueries(gaps[..n]));
      StepCountConcat(FollowUpQueries(gaps[..n]), GapQueries(g));
      GapQueriesCount(g, |g.additionalQueries|);
      assert GapQueries(g)[..|g.additionalQueries|] == GapQueries(g);
    }
  }

  /** `gap-search-<type>-<n>`. */
  function GapSearchId(k: Kind, n: nat): string
  {
    "gap-search-" + KindName(k) + "-" + NatToString(n)
  }

  lemma GapSearchIdParts(k: Kind, n: nat)
    ensures var p := "gap-search-" + KindName(k) + "-";
            GapSearchId(k, n) == p + NatToString(n) && |p| == 12 + |KindName(k)|
            && GapSearchId(k, n)[11] == KindName(k)[0] && GapSearchId(k, n)[0] == 'g'
  {
    KindNameFirst(k);
  }

  /** Follow-up ids name their kind and counter value unambiguously. */
  lemma GapSearchIdInjective(k1: Kind, n1: nat, k2: Kind, n2: nat)
    ensures GapSearchId(k1, n1) == GapSearchId(k2, n2) ==> k1 == k2 && n1 == n2
  {
    if GapSearchId(k1, n1) == GapSearchId(k2, n2) {
      GapSearchIdParts(k1, n1);
      GapSearchIdParts(k2, n2);
      KindNameFirst(k1);
      KindNameFirst(k2);
      var p := "gap-search-" + KindName(k1) + "-";
      assert (p + NatToString(n1))[|p|..] == NatToString(n1);
      assert (p + NatToString(n2))[|p|..] == NatToString(n2);
      if n1 != n2 {
        NatToStringInjective(n1, n2);
      }
    }
  }

  /** No follow-up id is a plan step id: they begin 'g' and 's'. */
  lemma GapIdNotStepId(k1: Kind, n1: nat, k2: Kind, n2: nat)
    ensures GapSearchId(k1, n1) != StepId(k2, n2)
  {
    GapSearchIdParts(k1, n1);
    StepIdParts(k2, n2);
  }

  /** The ids of a run of operations numbered from `start`. */
  function GapIds(ops: seq<FollowUpOp>, start: nat): (ids: seq<string>)
    ensures |ids| == |ops|
    decreases |ops|
  {
    if ops == [] then []
    else
      var n := |ops| - 1;
      GapIds(ops[..n], start) + [GapSearchId(ops[n].kind, start + n)]
  }

  /** Operation `i` gets id number `start + i`. */
  lemma {:induction false} GapIdsAt(ops: seq<FollowUpOp>, start: nat)
    ensures forall i :: 0 <= i < |ops| ==> GapIds(ops, start)[i] == GapSearchId(ops[i].kind, start + i)
    decreases |ops|
  {
    if ops != [] {
      var n := |ops| - 1;
      GapIdsAt(ops[..n], start);
      forall i | 0 <= i < n
        ensures GapIds(ops, start)[i] == GapSearchId(ops[i].kind, start + i)
      {
        assert ops[..n][i] == ops[i];
      }
    }
  }

  /** Follow-up ids are pairwise distinct. */
  lemma GapIdsDistinct(ops: seq<FollowUpOp>, start: nat)
    ensures var ids := GapIds(ops, start);
            forall i, j :: 0 <= i < j < |ids| ==> ids[i] != ids[j]
  {
    var ids := GapIds(ops, start);
    GapIdsAt(ops, start);
    forall i, j | 0 <= i < j < |ids|
      ensures ids[i] != ids[j]
    {
      GapSearchIdInjective(ops[i].kind, start + i, ops[j].kind, start + j);
    }
  }

  /** The follow-up web request: basic, no answer, three results. */
  const FollowUpWebRequest := Tavily.Request("basic", false, 3, None, None)

  /** The follow-up academic request: two papers with summaries. */
  const FollowUpAcademicRequest := Exa.Request("auto", 2, Some(Exa.ResearchPaper), None, false, false, false, Exa.SummaryOn)

  /** The follow-up X request: a keyword search for three posts. */
  const FollowUpXRequest := Exa.Request("keyword", 3, None, Some(["twitter.com", "x.com"]), false, true, true, Exa.NoSummary)

  /** The local extractTweetId of the follow-up branch, as written: it
      returns null for every url. */
  function StubTweetId(url: Option<string>): Option<string>
  {
    None
  }

  /** The follow-up X results as written: the stub's null drops every
      post. */
  function FollowUpPostsAsWritten(raw: seq<Exa.RawResult>): seq<ProcessedResult>
  {
    Posts(StubTweetId, raw)
  }

  /** As written, a follow-up X search never contributes a post. */
  lemma {:induction false} FollowUpPostsAlwaysEmpty(raw: seq<Exa.RawResult>)
    ensures FollowUpPostsAsWritten(raw) == []
    decreases |raw|
  {
    if raw != [] {
      FollowUpPostsAlwaysEmpty(raw[1..]);
    }
  }

  /** The discrepancy: a result whose url links a post (such as
      'https://x.com/a/status/1', see `Exa.StatusLinkKept`) is kept by the
      plan steps' extraction but dropped by the follow-up stub. */
  lemma FollowUpStubDropsPost(r: Exa.RawResult)
    requires Exa.HasTweetLink(r)
    ensures FollowUpPostsAsWritten([r]) == []
    ensures XPosts([r]).Some? && |XPosts([r]).value| == 1
    ensures XPosts([r]).value[0].tweetId == Exa.ExtractTweetId(r.url.value)
  {
    FollowUpPostsAlwaysEmpty([r]);
    assert [r][1..] == [];
    assert HasUrl([r][0]);
    Exa.TweetIdIsNumeric(r.url.value);
    assert Posts(UrlTweetId, [r]) == [PostOf(r, UrlTweetId(r.url)).value] + Posts(UrlTweetId, []);
  }

  /** The query a follow-up entry records: the operation's own type as
      source. */
  function SourceOf(k: Kind): Source
  {
    match k
    case WebSearch => Web
    case AcademicSearch => Academic
    case XSearch => X
  }

  /** One follow-up operation: its entry, or `None` when it throws (the
      catch block pushes nothing). X posts go through the branch's local
      stub, so an X entry is pushed whenever the call succeeds, and it is
      always empty. */
  function FollowUpOutcome(op: FollowUpOp, web: WebClient, exa: RawClient): (r: Option<SearchResult>)
    ensures r.Some? ==> r.value.kind == op.kind && r.value.query.query == op.query.query
                        && r.value.query.source == SourceOf(op.kind)
    ensures op.kind == XSearch ==>
              (r.Some? <==> exa(op.query.query)(FollowUpXRequest).Some?)
              && (r.Some? ==> r.value.results == [])
  {
    var q := op.query;
    var entry := (results: seq<ProcessedResult>) =>
      SearchResult(op.kind, SearchQuery(q.query, q.rationale, SourceOf(op.kind), q.priority), results);
    match op.kind
    case WebSearch =>
      var hits := web(q.query)(FollowUpWebRequest);
      if hits.None? then None else Some(entry(Map(FromWeb, hits.value)))
    case AcademicSearch =>
      var papers := exa(q.query)(FollowUpAcademicRequest);
      if papers.None? then None else Some(entry(Map(FromRawPaper, papers.value)))
    case XSearch =>
      var raw := exa(q.query)(FollowUpXRequest);
      if raw.None? then None
      else
        FollowUpPostsAlwaysEmpty(raw.value);
        Some(entry(FollowUpPostsAsWritten(raw.value)))
  }

  /** What running one follow-up operation yields. */
  type Performer = FollowUpOp -> Option<SearchResult>

  function FollowUpPerformer(web: WebClient, exa: RawClient): Performer
  {
    (op: FollowUpOp) => FollowUpOutcome(op, web, exa)
  }

  /** The entries the follow-up operations push, in order. */
  function FollowUpEntries(ops: seq<FollowUpOp>, perform: Performer): (r: seq<SearchResult>)
    ensures |r| <= |ops|
    decreases |ops|
  {
    if ops == [] then []
    else
      var n := |ops| - 1;
      var o := perform(ops[n]);
      FollowUpEntries(ops[..n], perform) + (if o.Some? then [o.value] else [])
  }

  /** One more operation appends its entry, if it yields one, and its id
      numbered `start + j`. */
  lemma OperationStep(ops: seq<FollowUpOp>, j: nat, start: nat, perform: Performer)
    requires j < |ops|
    ensures var o := perform(ops[j]);
            FollowUpEntries(ops[..j + 1], perform) == FollowUpEntries(ops[..j], perform) + (if o.Some? then [o.value] else [])
    ensures GapIds(ops[..j + 1], start) == GapIds(ops[..j], start) + [GapSearchId(ops[j].kind, start + j)]
  {
    assert ops[..j + 1][..j] == ops[..j];
  }

  lemma {:induction false} FollowUpEntriesConcat(a: seq<FollowUpOp>, b: seq<FollowUpOp>, perform: Performer)
    ensures FollowUpEntries(a + b, perform) == FollowUpEntries(a, perform) + FollowUpEntries(b, perform)
    decreases |b|
  {
    if b == [] {
      assert a + b == a;
    } else {
      var n := |b| - 1;
      assert (a + b)[..|a + b| - 1] == a + b[..n];
      FollowUpEntriesConcat(a, b[..n], perform);
    }
  }

  lemma {:induction false} GapIdsConcat(a: seq<FollowUpOp>, b: seq<FollowUpOp>, start: nat)
    ensures GapIds(a + b, start) == GapIds(a, start) + GapIds(b, start + |a|)
    decreases |b|
  {
    if b == [] {
      assert a + b == a;
    } else {
      var n := |b| - 1;
      assert (a + b)[..|a + b| - 1] == a + b[..n];
      GapIdsConcat(a, b[..n], start);
    }
  }

  /** The inner loop: the operations of one query, each numbered by the
      continuing search index, counted as done in the `finally` block
      whether or not it threw, and pushing an entry only when it did
      not. */
  method RunOperations(ops: seq<FollowUpOp>, start: nat, perform: Performer)
    returns (entries: seq<SearchResult>, ids: seq<string>, done: nat)
    ensures entries == FollowUpEntries(ops, perform)
    ensures ids == GapIds(ops, start)
    ensures done == |ops|
  {
    entries := [];
    ids := [];
    done := 0;
    var searchIndex := start;
    var j := 0;
    while j < |ops|
      invariant 0 <= j <= |ops|
      invariant entries == FollowUpEntries(ops[..j], perform)
      invariant ids == GapIds(ops[..j], start)
      invariant done == j && searchIndex == start + j
    {
      var op := ops[j];
      var id := GapSearchId(op.kind, searchIndex);
      searchIndex := searchIndex + 1;
      var outcome := perform(op);
      if outcome.Some? {
        entries := entries + [outcome.value];
      }
      done := done + 1;
      ids := ids + [id];
      OperationStep(ops, j, start, perform);
      j := j + 1;
    }
    assert ops[..j] == ops;
  }

  /** `searchOperations`: built by the three pushes. */
  method SearchOperations(q: SearchQuery) returns (ops: seq<FollowUpOp>)
    ensures ops == OpsOf(q)
  {
    ops := [];
    if q.source == All || q.source == Web {
      ops := ops + [FollowUpOp(WebSearch, q)];
    }
    if q.source == All || q.source == Academic {
      ops := ops + [FollowUpOp(AcademicSearch, q)];
    }
    if q.source == All || q.source == X {
      ops := ops + [FollowUpOp(XSearch, q)];
    }
  }

  /** One more follow-up query appends its operations' entries and ids,
      the ids numbered on from the `done` operations before it. */
  lemma FollowUpStep(qs: seq<SearchQuery>, i: nat, start: nat, done: nat, perform: Performer)
    requires i < |qs| && done == |FollowUpOps(qs[..i])|
    ensures var ops := OpsOf(qs[i]);
            && FollowUpEntries(FollowUpOps(qs[..i + 1]), perform)
               == FollowUpEntries(FollowUpOps(qs[..i]), perform) + FollowUpEntries(ops, perform)
            && GapIds(FollowUpOps(qs[..i + 1]), start)
               == GapIds(FollowUpOps(qs[..i]), start) + GapIds(ops, start + done)
            && |FollowUpOps(qs[..i + 1])| == done + |ops|
  {
    assert qs[..i + 1][..i] == qs[..i];
    assert FollowUpOps(qs[..i + 1]) == FollowUpOps(qs[..i]) + OpsOf(qs[i]);
    FollowUpEntriesConcat(FollowUpOps(qs[..i]), OpsOf(qs[i]), perform);
    GapIdsConcat(FollowUpOps(qs[..i]), OpsOf(qs[i]), start);
  }

  /** The outer loop over the follow-up queries. */
  method RunFollowUps(qs: seq<SearchQuery>, start: nat, perform: Performer)
    returns (entries: seq<SearchResult>, ids: seq<string>, done: nat)
    ensures entries == FollowUpEntries(FollowUpOps(qs), perform)
    ensures ids == GapIds(FollowUpOps(qs), start)
    ensures done == |FollowUpOps(qs)|
  {
    entries := [];
    ids := [];
    done := 0;
    var i := 0;
    while i < |qs|
      invariant 0 <= i <= |qs|
      invariant entries == FollowUpEntries(FollowUpOps(qs[..i]), perform)
      invariant ids == GapIds(FollowUpOps(qs[..i]), start)
      invariant done == |FollowUpOps(qs[..i])|
    {
      var ops := SearchOperations(qs[i]);
      var e, more, n := RunOperations(ops, start + done, perform);
      FollowUpStep(qs, i, start, done, perform);
      entries := entries + e;
      ids := ids + more;
      done := done + n;
      i := i + 1;
    }
    assert qs[..i] == qs;
  }

  /** Whether the follow-up branch runs: advanced depth and at least one
      knowledge gap. */
  predicate FollowsUp(depth: string, gaps: seq<Gap>)
  {
    depth == "advanced" && |gaps| > 0
  }

  /** The total of the final progress report. */
  function FinalTotal(total: nat, depth: string, gaps: seq<Gap>): nat
  {
    total + 1 + (if FollowsUp(depth, gaps) then AdditionalQueriesCount(gaps) + 1 else 1)
  }

  /** The total the first gap-analysis report gives before the branch is
      chosen. */
  function InterimTotal(total: nat, depth: string): nat
  {
    total + (if depth == "advanced" then 2 else 1)
  }

  /** The interim total never exceeds the final one; at basic depth it is
      one short, so the interim report shows every step done while the
      synthesis is still to come. */
  lemma InterimTotalBelowFinal(total: nat, depth: string, gaps: seq<Gap>)
    ensures InterimTotal(total, depth) <= FinalTotal(total, depth, gaps)
    ensures depth != "advanced" ==> InterimTotal(total, depth) + 1 == FinalTotal(total, depth, gaps)
    ensures depth == "advanced" && !FollowsUp(depth, gaps) ==> InterimTotal(total, depth) == FinalTotal(total, depth, gaps)
  {
  }

  /** The route's `reason_search` from a given plan and gap analysis: the
      plan steps, the analyses, the gap analysis, then either the
      follow-up searches and a synthesis or a synthesis alone.
      `reportedTotal` is the total the chosen branch reports and
      `finalTotal` the one of the closing progress report. */
  method RouteReasonSearch(plan: Plan, depth: string, gaps: seq<Gap>, web: WebClient, exa: RawClient)
    returns (r: Option<seq<SearchResult>>, followUpIds: seq<string>, completed: nat,
             reportedTotal: nat, finalTotal: nat)
    ensures var initial := Collect(SearchSteps(plan.queries), RouteRunner(depth, web, exa));
            r.None? <==> initial.None?
    ensures var initial := Collect(SearchSteps(plan.queries), RouteRunner(depth, web, exa));
            var ops := FollowUpOps(FollowUpQueries(gaps));
            r.Some? ==>
              r.value == initial.value + (if FollowsUp(depth, gaps) then FollowUpEntries(ops, FollowUpPerformer(web, exa)) else [])
              && followUpIds == (if FollowsUp(depth, gaps) then GapIds(ops, |SearchSteps(plan.queries)|) else [])
    ensures r.Some? ==>
              completed == reportedTotal == finalTotal == FinalTotal(TotalSteps(plan), depth, gaps)
  {
    var steps := SearchSteps(plan.queries);
    var analyses := AnalysisSteps(plan.analyses);
    var totalSteps := |steps| + |analyses|;
    var found, _, searched := RunSearches(steps, RouteRunner(depth, web, exa));
    r := found;
    followUpIds := [];
    completed := searched;
    reportedTotal := 0;
    finalTotal := 0;
    if r.None? {
      return;
    }
    var searchIndex := searched;
    // one step per analysis, then the gap analysis
    completed := completed + |analyses|;
    completed := completed + 1;
    var additionalQueriesCount := 0;
    if depth == "advanced" && |gaps| > 0 {
      additionalQueriesCount := AdditionalQueriesCount(gaps);
      reportedTotal := totalSteps + 1 + additionalQueriesCount + 1;
      var entries, ids, done := RunFollowUps(FollowUpQueries(gaps), searchIndex, FollowUpPerformer(web, exa));
      AdditionalCountIsOperations(gaps);
      r := Some(r.value + entries);
      followUpIds := ids;
      completed := completed + done;
      // final synthesis
      completed := completed + 1;
    } else {
      reportedTotal := totalSteps + 1 + 1;
      // final synthesis
      completed := completed + 1;
    }
    finalTotal := totalSteps + 1 + (if depth == "advanced" && |gaps| > 0 then additionalQueriesCount + 1 else 1);
    assert totalSteps == TotalSteps(plan);
  }
}
