// The search and analysis loops of the reasoned search
// (`executeReasonSearch`, app/api/lib/ai/tools/reason-search-advanced.ts).
// The two search clients are parameters mapping a query and a request to
// the raw results, or to `None` when the call rejects (the services
// rethrow, and the tool does not catch); the language-model calls (plan, analyses, gap analysis,
// synthesis) are left out, only the progress they report is kept.

module ResearchRun {
  import opened Opt
  import opened Seqs
  import Exa
  import Tavily
  import opened ResearchPlan

  /** One result of a step, as the tool reports it. */
  datatype ProcessedResult = ProcessedResult(source: Kind, title: string, url: string, content: string,
                                             tweetId: Option<string>)

  /** The results of one search step. */
  datatype SearchResult = SearchResult(kind: Kind, query: SearchQuery, results: seq<ProcessedResult>)

  datatype Status = Running | Completed

  /** A progress annotation: its id, status and, where it carries them, the
      completed and total step counts. */
  datatype Update = Update(id: string, status: Status, completed: Option<nat>, total: Option<nat>)

  /** The Tavily client: the raw response, or `None` when the call throws. */
  type TavilyClient = string -> Tavily.Request -> Option<Tavily.RawResponse>

  /** The Exa client, likewise. */
  type ExaClient = string -> Exa.Request -> Option<seq<Exa.RawResult>>

  function Min(a: int, b: int): (m: int)
    ensures m <= a && m <= b && (m == a || m == b)
  {
    if a <= b then a else b
  }

  /** The options of a web step: the run's depth, an answer, and
      `min(6 - priority, 10)` results. */
  function WebOptions(depth: string, priority: int): Tavily.SearchOptions
  {
    Tavily.SearchOptions(Some(depth), Some(true), Some(Min(6 - priority, 10)), None, None)
  }

  /** The request of an academic step: `min(6 - priority, 5)` papers with
      summaries. */
  function AcademicStepRequest(priority: int): Exa.Request
  {
    Exa.AcademicRequest(Some(Min(6 - priority, 5)), Some(true))
  }

  /** The request of an X step: as many posts as the priority. */
  function XStepRequest(priority: int): Exa.Request
  {
    Exa.SocialRequest(Some(priority))
  }

  /** The requested counts: higher priority (a smaller number) asks for
      more web and academic results but fewer posts; within the schema's
      priorities 1 to 5 every count lies between 1 and 5. */
  lemma RequestedCounts(depth: string, p: int)
    requires 1 <= p <= 5
    ensures var web := Tavily.BuildRequest(WebOptions(depth, p));
            web.maxResults == 6 - p && web.searchDepth == depth && web.includeAnswer
    ensures AcademicStepRequest(p).numResults == 6 - p
    ensures AcademicStepRequest(p).summary == Exa.SummaryQuery(Exa.AbstractQuery)
    ensures XStepRequest(p).numResults == p
    ensures 1 <= 6 - p <= 5
  {
  }

  function FromWeb(r: Tavily.TavilyResult): ProcessedResult
  {
    ProcessedResult(WebSearch, r.title, r.url, r.content, None)
  }

  /** `title || ''`, `url || ''`, `summary || ''`. */
  function FromPaper(r: Exa.ExaResult): ProcessedResult
  {
    ProcessedResult(AcademicSearch, r.title, r.url, Exa.OrElse(r.summary, ""), None)
  }

  /** `result.extras?.tweetId` is truthy. */
  predicate HasTweetId(r: Exa.ExaResult)
  {
    r.tweetId.Some? && r.tweetId.value != ""
  }

  /** `title || author || 'Tweet'`, `text || ''`, `tweetId || ''`. */
  function FromPost(r: Exa.ExaResult): ProcessedResult
  {
    ProcessedResult(XSearch, if r.title != "" then r.title else Exa.OrElse(r.author, "Tweet"),
                    r.url, r.text, Some(Exa.OrElse(r.tweetId, "")))
  }

  /** The raw answer of the client a step calls: Tavily for a web step,
      Exa's academic or social search otherwise. */
  function WebRaw(step: SearchStep, depth: string, tavily: TavilyClient): Option<Tavily.RawResponse>
  {
    tavily(step.query.query)(Tavily.BuildRequest(WebOptions(depth, step.query.priority)))
  }

  function AcademicRaw(step: SearchStep, exa: ExaClient): Option<seq<Exa.RawResult>>
  {
    exa(step.query.query)(AcademicStepRequest(step.query.priority))
  }

  function SocialRaw(step: SearchStep, exa: ExaClient): Option<seq<Exa.RawResult>>
  {
    exa(step.query.query)(XStepRequest(step.query.priority))
  }

  /** A step throws when the client it awaits rejects, or, for an X step,
      when a returned post has no url (`processSocialResults` then throws). */
  predicate StepThrows(step: SearchStep, depth: string, tavily: TavilyClient, exa: ExaClient)
  {
    match step.kind
    case WebSearch => WebRaw(step, depth, tavily).None?
    case AcademicSearch => AcademicRaw(step, exa).None?
    case XSearch =>
      SocialRaw(step, exa).None? || Exa.ProcessSocialResults(SocialRaw(step, exa).value).None?
  }

  /** The results of one step, or `None` when it throws, which ends the
      whole run. */
  function StepResults(step: SearchStep, depth: string, tavily: TavilyClient, exa: ExaClient)
    : (r: Option<seq<ProcessedResult>>)
    ensures r.None? <==> StepThrows(step, depth, tavily, exa)
    ensures r.Some? ==> forall i :: 0 <= i < |r.value| ==> r.value[i].source == step.kind
  {
    var q := step.query;
    match step.kind
    case WebSearch =>
      var raw := WebRaw(step, depth, tavily);
      if raw.None? then None
      else
        var resp := raw.value;
        Some(Map(FromWeb, Tavily.Search(q.query, WebOptions(depth, q.priority), _ => _ => resp, 0, 0).results))
    case AcademicSearch =>
      var raw := AcademicRaw(step, exa);
      if raw.None? then None else Some(Map(FromPaper, Exa.ProcessAcademicResults(raw.value)))
    case XSearch =>
      var raw := SocialRaw(step, exa);
      if raw.None? then None
      else
        var posts := Exa.ProcessSocialResults(raw.value);
        if posts.None? then None else Some(Map(FromPost, Filter(HasTweetId, posts.value)))
  }

  /** What running one step yields: its results, or `None` when it throws. */
  type Runner = SearchStep -> Option<seq<ProcessedResult>>

  /** The tool's runner. */
  function ToolRunner(depth: string, tavily: TavilyClient, exa: ExaClient): Runner
  {
    (s: SearchStep) => StepResults(s, depth, tavily, exa)
  }

  /** The results of all steps in step order, or `None` once one step
      throws. */
  function Collect(steps: seq<SearchStep>, run: Runner): Option<seq<SearchResult>>
    decreases |steps|
  {
    if steps == [] then Some([])
    else
      var n := |steps| - 1;
      var prev := Collect(steps[..n], run);
      var here := run(steps[n]);
      if prev.None? || here.None? then None
      else Some(prev.value + [SearchResult(steps[n].kind, steps[n].query, here.value)])
  }

  /** A failed prefix fails the whole run. */
  lemma {:induction false} CollectPrefixFails(steps: seq<SearchStep>, i: nat, run: Runner)
    requires i <= |steps|
    requires Collect(steps[..i], run).None?
    ensures Collect(steps, run).None?
    decreases |steps| - i
  {
    if i < |steps| {
      var n := |steps| - 1;
      assert steps[..n][..i] == steps[..i];
      if i < n {
        CollectPrefixFails(steps[..n], i, run);
      } else {
        assert steps[..n] == steps[..i];
      }
    } else {
      assert steps[..i] == steps;
    }
  }

  /** The run yields results exactly when no step throws. */
  lemma {:induction false} CollectSucceeds(steps: seq<SearchStep>, run: Runner)
    ensures Collect(steps, run).Some? <==> forall i :: 0 <= i < |steps| ==> run(steps[i]).Some?
    decreases |steps|
  {
    if steps != [] {
      var n := |steps| - 1;
      var init := steps[..n];
      CollectSucceeds(init, run);
      if Collect(steps, run).Some? {
        forall i | 0 <= i < |steps|
          ensures run(steps[i]).Some?
        {
          if i < n {
            assert init[i] == steps[i];
          }
        }
      } else if Collect(init, run).None? {
        var i :| 0 <= i < n && run(init[i]).None?;
        assert init[i] == steps[i];
      }
    }
  }

  /** A successful run has one entry per step, in order, with the step's
      kind, its query and its results. */
  lemma {:induction false} CollectEntries(steps: seq<SearchStep>, run: Runner)
    requires Collect(steps, run).Some?
    ensures var r := Collect(steps, run).value;
            |r| == |steps|
            && forall i :: 0 <= i < |steps| ==>
                 run(steps[i]).Some?
                 && r[i] == SearchResult(steps[i].kind, steps[i].query, run(steps[i]).value)
    decreases |steps|
  {
    if steps != [] {
      var n := |steps| - 1;
      var init := steps[..n];
      CollectEntries(init, run);
      forall i | 0 <= i < n
        ensures init[i] == steps[i]
      {
      }
    }
  }

  /** The tool's run throws exactly when some step's client call rejects
      or some X step returns a post without a url; nothing in the loop
      catches either. */
  lemma ToolRunFails(steps: seq<SearchStep>, depth: string, tavily: TavilyClient, exa: ExaClient)
    ensures Collect(steps, ToolRunner(depth, tavily, exa)).None? <==>
              exists i :: 0 <= i < |steps| && StepThrows(steps[i], depth, tavily, exa)
  {
    var run := ToolRunner(depth, tavily, exa);
    CollectSucceeds(steps, run);
    if Collect(steps, run).None? {
      var i :| 0 <= i < |steps| && run(steps[i]).None?;
      assert StepResults(steps[i], depth, tavily, exa).None?;
    }
  }

  /** A web step whose call succeeds reports one result per raw result
      the client returned. */
  lemma WebStepCount(step: SearchStep, depth: string, tavily: TavilyClient, exa: ExaClient)
    requires step.kind == WebSearch && WebRaw(step, depth, tavily).Some?
    ensures var raw := WebRaw(step, depth, tavily).value.results;
            StepResults(step, depth, tavily, exa).Some?
            && |StepResults(step, depth, tavily, exa).value| == (if raw.Some? then |raw.value| else 0)
  {
  }

  /** The filter on `tweetId` of an X step removes nothing: every processed
      post already carries a tweet id. The step reports exactly the raw
      results whose url links a post, each with that post's numeric id. */
  lemma XStepKeepsEveryPost(step: SearchStep, depth: string, tavily: TavilyClient, exa: ExaClient)
    requires step.kind == XSearch
    requires StepResults(step, depth, tavily, exa).Some?
    ensures var raw := SocialRaw(step, exa).value;
            var posts := Exa.ProcessSocialResults(raw).value;
            var r := StepResults(step, depth, tavily, exa).value;
            Filter(HasTweetId, posts) == posts
            && |r| == Count(Exa.HasTweetLink, raw)
            && forall i :: 0 <= i < |r| ==> r[i].tweetId == Exa.ExtractTweetId(r[i].url) && r[i].title != ""
  {
    var raw := SocialRaw(step, exa).value;
    Exa.SocialResultsAreTweets(raw);
    var posts := Exa.SocialFrom(raw);
    FilterAll(HasTweetId, posts);
  }

  /** An academic step whose call succeeds reports each url at most once
      when every paper has one. */
  lemma AcademicStepUrlsDistinct(step: SearchStep, depth: string, tavily: TavilyClient, exa: ExaClient)
    requires step.kind == AcademicSearch && AcademicRaw(step, exa).Some?
    requires var raw := AcademicRaw(step, exa).value;
             forall i :: 0 <= i < |raw| ==> raw[i].url.Some?
    ensures StepResults(step, depth, tavily, exa).Some?
    ensures var r := StepResults(step, depth, tavily, exa).value;
            forall i, j :: 0 <= i < j < |r| ==> r[i].url != r[j].url
  {
    Exa.AcademicUrlsUnique(AcademicRaw(step, exa).value);
  }

  // ---------------------------------------------------------------------
  // Progress

  /** A running and then a completed annotation per step. */
  function StepUpdates(ids: seq<string>): (u: seq<Update>)
    ensures |u| == 2 * |ids|
    decreases |ids|
  {
    if ids == [] then []
    else
      var n := |ids| - 1;
      StepUpdates(ids[..n]) + [Update(ids[n], Running, None, None), Update(ids[n], Completed, None, None)]
  }

  /** Step `i` owns annotations `2i` (running) and `2i + 1` (completed). */
  lemma {:induction false} StepUpdatesAt(ids: seq<string>)
    ensures forall i :: 0 <= i < |ids| ==>
              StepUpdates(ids)[2 * i] == Update(ids[i], Running, None, None)
              && StepUpdates(ids)[2 * i + 1] == Update(ids[i], Completed, None, None)
    decreases |ids|
  {
    if ids != [] {
      var n := |ids| - 1;
      StepUpdatesAt(ids[..n]);
      forall i | 0 <= i < n
        ensures StepUpdates(ids)[2 * i] == Update(ids[i], Running, None, None)
        ensures StepUpdates(ids)[2 * i + 1] == Update(ids[i], Completed, None, None)
      {
        assert ids[..n][i] == ids[i];
      }
    }
  }

  function SearchIds(steps: seq<SearchStep>): (r: seq<string>)
    ensures |r| == |steps| && forall i :: 0 <= i < |steps| ==> r[i] == steps[i].id
  {
    Map((s: SearchStep) => s.id, steps)
  }

  function AnalysisIds(steps: seq<AnalysisStep>): (r: seq<string>)
    ensures |r| == |steps| && forall i :: 0 <= i < |steps| ==> r[i] == steps[i].id
  {
    Map((s: AnalysisStep) => s.id, steps)
  }

  /** The closing annotations: gap analysis and synthesis count as the two
      steps beyond the plan's. */
  function ClosingUpdates(done: nat, total: nat): seq<Update>
  {
    [Update("gap-analysis", Running, None, None),
     Update("gap-analysis", Completed, Some(done + 1), Some(total + 2)),
     Update("final-synthesis", Running, Some(done + 1), Some(total + 2)),
     Update("final-synthesis", Completed, Some(done + 2), Some(total + 2)),
     Update("research-progress", Completed, Some(done + 2), Some(total + 2))]
  }

  /** The plan annotations: the plan is being made, then made with its
      step count. */
  function OpeningUpdates(total: nat): seq<Update>
  {
    [Update("research-plan-initial", Running, None, None),
     Update("research-plan", Completed, None, Some(total))]
  }

  /** The annotations of a complete run. */
  function RunUpdates(plan: Plan): seq<Update>
  {
    OpeningUpdates(TotalSteps(plan))
    + StepUpdates(SearchIds(SearchSteps(plan.queries)))
    + StepUpdates(AnalysisIds(AnalysisSteps(plan.analyses)))
    + ClosingUpdates(TotalSteps(plan), TotalSteps(plan))
  }

  /** Every annotation that carries a completed count carries a total at
      least as large. */
  predicate CountsWithin(u: seq<Update>)
  {
    forall i :: 0 <= i < |u| && u[i].completed.Some? ==> u[i].total.Some? && u[i].completed.value <= u[i].total.value
  }

  lemma CountsWithinConcat(a: seq<Update>, b: seq<Update>)
    requires CountsWithin(a) && CountsWithin(b)
    ensures CountsWithin(a + b)
  {
    forall i | 0 <= i < |a + b| && (a + b)[i].completed.Some?
      ensures (a + b)[i].total.Some? && (a + b)[i].completed.value <= (a + b)[i].total.value
    {
      if i < |a| {
        assert (a + b)[i] == a[i];
      } else {
        assert (a + b)[i] == b[i - |a|];
      }
    }
  }

  /** Step annotations carry no counts. */
  lemma StepUpdatesCountsWithin(ids: seq<string>)
    ensures CountsWithin(StepUpdates(ids))
  {
    StepUpdatesAt(ids);
    forall i | 0 <= i < |StepUpdates(ids)|
      ensures StepUpdates(ids)[i].completed.None?
    {
      var k := i / 2;
      assert 0 <= k < |ids|;
      if i == 2 * k {
        assert StepUpdates(ids)[2 * k] == Update(ids[k], Running, None, None);
      } else {
        assert i == 2 * k + 1;
        assert StepUpdates(ids)[2 * k + 1] == Update(ids[k], Completed, None, None);
      }
    }
  }

  /** The plan and closing annotations keep their counts within their totals. */
  lemma EndsCountsWithin(t: nat)
    ensures CountsWithin(OpeningUpdates(t)) && CountsWithin(ClosingUpdates(t, t))
  {
  }

  /** Every count a run reports lies within its total, and the last
      annotation reports all steps done. */
  lemma RunProgress(plan: Plan)
    ensures var u := RunUpdates(plan);
            |u| == 2 * TotalSteps(plan) + 7 && CountsWithin(u)
            && u[|u| - 1].completed == u[|u| - 1].total == Some(TotalSteps(plan) + 2)
  {
    var t := TotalSteps(plan);
    var o := OpeningUpdates(t);
    var s := StepUpdates(SearchIds(SearchSteps(plan.queries)));
    var a := StepUpdates(AnalysisIds(AnalysisSteps(plan.analyses)));
    var c := ClosingUpdates(t, t);
    StepUpdatesCountsWithin(SearchIds(SearchSteps(plan.queries)));
    StepUpdatesCountsWithin(AnalysisIds(AnalysisSteps(plan.analyses)));
    EndsCountsWithin(t);
    CountsWithinConcat(o, s);
    CountsWithinConcat(o + s, a);
    CountsWithinConcat(o + s + a, c);
    assert |s| + |a| == 2 * t by {
      SearchStepsShape(plan.queries);
    }
    var u := o + s + a + c;
    assert u[|u| - 1] == c[4];
  }

  // ---------------------------------------------------------------------
  // The run

  /** The search loop stopped at step `k`: every step before it returned,
      step `k` threw, and the annotations written are `pre`, those of the
      steps before `k`, and the running annotation of step `k`, which is
      written before its client call. */
  predicate StoppedAt(steps: seq<SearchStep>, run: Runner, k: int, pre: seq<Update>,
                      updates: seq<Update>, completed: nat)
  {
    0 <= k < |steps| && Collect(steps[..k], run).Some? && run(steps[k]).None?
    && updates == pre + StepUpdates(SearchIds(steps[..k])) + [Update(steps[k].id, Running, None, None)]
    && completed == k
  }

  /** Annotations written before the loop stay in front of the ones it
      writes when it stops. */
  lemma StoppedAfter(steps: seq<SearchStep>, run: Runner, k: int, pre: seq<Update>,
                     updates: seq<Update>, completed: nat)
    requires StoppedAt(steps, run, k, [], updates, completed)
    ensures StoppedAt(steps, run, k, pre, pre + updates, completed)
  {
    var mid := StepUpdates(SearchIds(steps[..k])) + [Update(steps[k].id, Running, None, None)];
    assert updates == [] + mid;
    assert pre + mid == pre + StepUpdates(SearchIds(steps[..k])) + [Update(steps[k].id, Running, None, None)];
  }

  /** The search loop: one entry per step, in step order, each step
      announced and then completed; when a step throws, the loop ends
      after that step's running annotation. */
  method RunSearches(steps: seq<SearchStep>, run: Runner)
    returns (r: Option<seq<SearchResult>>, updates: seq<Update>, completed: nat)
    ensures r == Collect(steps, run)
    ensures r.Some? ==> updates == StepUpdates(SearchIds(steps)) && completed == |steps|
    ensures r.None? ==> exists k :: StoppedAt(steps, run, k, [], updates, completed)
  {
    var results: seq<SearchResult> := [];
    updates := [];
    completed := 0;
    var i := 0;
    while i < |steps|
      invariant 0 <= i <= |steps|
      invariant Collect(steps[..i], run) == Some(results)
      invariant updates == StepUpdates(SearchIds(steps[..i]))
      invariant completed == i
    {
      var step := steps[i];
      assert steps[..i + 1][..i] == steps[..i];
      updates := updates + [Update(step.id, Running, None, None)];
      var here := run(step);
      if here.None? {
        CollectPrefixFails(steps, i + 1, run);
        assert StoppedAt(steps, run, i, [], updates, completed);
        return None, updates, completed;
      }
      results := results + [SearchResult(step.kind, step.query, here.value)];
      assert SearchIds(steps[..i + 1])[..i] == SearchIds(steps[..i]);
      updates := updates + [Update(step.id, Completed, None, None)];
      completed := completed + 1;
      i := i + 1;
    }
    assert steps[..i] == steps;
    r := Some(results);
  }

  /** The analysis loop: each analysis announced and then completed. */
  method RunAnalyses(analyses: seq<AnalysisStep>) returns (updates: seq<Update>, completed: nat)
    ensures updates == StepUpdates(AnalysisIds(analyses)) && completed == |analyses|
  {
    updates := [];
    completed := 0;
    var j := 0;
    while j < |analyses|
      invariant 0 <= j <= |analyses|
      invariant updates == StepUpdates(AnalysisIds(analyses[..j]))
      invariant completed == j
    {
      var id := analyses[j].id;
      assert AnalysisIds(analyses[..j + 1])[..j] == AnalysisIds(analyses[..j]);
      updates := updates + [Update(id, Running, None, None), Update(id, Completed, None, None)];
      completed := completed + 1;
      j := j + 1;
    }
    assert analyses[..j] == analyses;
  }

  /** Gap analysis and final synthesis, each counted as a step once done,
      and the closing progress report. */
  method CloseRun(completed: nat, totalSteps: nat) returns (closing: seq<Update>, done: nat)
    ensures closing == ClosingUpdates(completed, totalSteps) && done == completed + 2
  {
    done := completed + 1;
    closing := [Update("gap-analysis", Running, None, None),
                Update("gap-analysis", Completed, Some(done), Some(totalSteps + 2))];
    closing := closing + [Update("final-synthesis", Running, Some(done), Some(totalSteps + 2))];
    done := done + 1;
    closing := closing + [Update("final-synthesis", Completed, Some(done), Some(totalSteps + 2)),
                          Update("research-progress", Completed, Some(done), Some(totalSteps + 2))];
  }

  /** `executeReasonSearch` from a given plan: the search loop, then the
      analysis loop; `completedSteps` ends at the plan's steps plus gap
      analysis and synthesis. `None` is the exception a failed client call or
      an X step raises; the annotations written up to then stay written. */
  method ExecuteReasonSearch(plan: Plan, depth: string, tavily: TavilyClient, exa: ExaClient)
    returns (r: Option<seq<SearchResult>>, updates: seq<Update>, completed: nat)
    ensures r == Collect(SearchSteps(plan.queries), ToolRunner(depth, tavily, exa))
    ensures r.Some? ==> updates == RunUpdates(plan) && completed == TotalSteps(plan) + 2
    ensures r.None? ==>
              exists k :: StoppedAt(SearchSteps(plan.queries), ToolRunner(depth, tavily, exa), k,
                                    OpeningUpdates(TotalSteps(plan)), updates, completed)
  {
    var steps := SearchSteps(plan.queries);
    var analyses := AnalysisSteps(plan.analyses);
    var totalSteps := |steps| + |analyses|;
    assert totalSteps == TotalSteps(plan);
    updates := OpeningUpdates(totalSteps);
    var found, searchUpdates, searched := RunSearches(steps, ToolRunner(depth, tavily, exa));
    r := found;
    updates := updates + searchUpdates;
    completed := searched;
    if r.None? {
      var k :| StoppedAt(steps, ToolRunner(depth, tavily, exa), k, [], searchUpdates, searched);
      StoppedAfter(steps, ToolRunner(depth, tavily, exa), k, OpeningUpdates(totalSteps), searchUpdates, searched);
      return;
    }
    var analysisUpdates, analysed := RunAnalyses(analyses);
    updates := updates + analysisUpdates;
    completed := completed + analysed;
    assert completed == totalSteps;
    var closing;
    closing, completed := CloseRun(completed, totalSteps);
    updates := updates + closing;
  }
}
