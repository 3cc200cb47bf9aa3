// The research plan of the reasoned search and its expansion into steps
// (`generateStepIds` in app/api/lib/ai/tools/reason-search-advanced.ts and
// its copy in app/api/search/route.ts). The plan itself comes from a
// language model and is an input.

module ResearchPlan {
  import opened Strings

  datatype Source = Web | Academic | X | All

  datatype SearchQuery = SearchQuery(query: string, rationale: string, source: Source, priority: int)

  datatype Analysis = Analysis(kind: string, description: string, importance: int)

  datatype Plan = Plan(queries: seq<SearchQuery>, analyses: seq<Analysis>)

  /** The kind of one search step. */
  datatype Kind = WebSearch | AcademicSearch | XSearch

  datatype SearchStep = SearchStep(id: string, kind: Kind, query: SearchQuery)

  datatype AnalysisStep = AnalysisStep(id: string, analysis: Analysis)

  const MaxQueries := 12
  const MaxAnalyses := 8

  function KindName(k: Kind): string
  {
    match k
    case WebSearch => "web"
    case AcademicSearch => "academic"
    case XSearch => "x"
  }

  /** `search-<type>-<index>`. */
  function StepId(k: Kind, index: nat): string
  {
    "search-" + KindName(k) + "-" + NatToString(index)
  }

  /** The steps of query number `index`: three for 'all', otherwise one of
      the query's own kind ('web' for anything but 'x' and 'academic'). */
  function Expand(q: SearchQuery, index: nat): (r: seq<SearchStep>)
    ensures |r| == (if q.source == All then 3 else 1)
    ensures forall s :: s in r ==> s.query == q
  {
    if q.source == All then
      [SearchStep(StepId(WebSearch, index), WebSearch, q),
       SearchStep(StepId(AcademicSearch, index), AcademicSearch, q),
       SearchStep(StepId(XSearch, index), XSearch, q)]
    else if q.source == X then [SearchStep(StepId(XSearch, index), XSearch, q)]
    else
      var k := if q.source == Academic then AcademicSearch else WebSearch;
      [SearchStep(StepId(k, index), k, q)]
  }

  /** `searchSteps`: the flatMap of `Expand` over the queries with their
      indices. */
  function SearchSteps(qs: seq<SearchQuery>): seq<SearchStep>
    decreases |qs|
  {
    if qs == [] then [] else SearchSteps(qs[..|qs| - 1]) + Expand(qs[|qs| - 1], |qs| - 1)
  }

  /** The number of steps a query list needs: three per 'all' query, one
      per other query. */
  function StepCount(qs: seq<SearchQuery>): nat
    decreases |qs|
  {
    if qs == [] then 0 else StepCount(qs[..|qs| - 1]) + (if qs[|qs| - 1].source == All then 3 else 1)
  }

  /** The kind a step may have for its query's source. */
  predicate KindFits(s: Source, k: Kind)
  {
    match s
    case All => true
    case X => k == XSearch
    case Academic => k == AcademicSearch
    case Web => k == WebSearch
  }

  /** The step list has one step per query and two more per 'all' query,
      hence between one and three per query; every step belongs to a query
      of the plan and has a kind its source allows. */
  lemma {:induction false} SearchStepsShape(qs: seq<SearchQuery>)
    ensures |SearchSteps(qs)| == StepCount(qs)
    ensures |qs| <= StepCount(qs) <= 3 * |qs|
    ensures forall p :: 0 <= p < |SearchSteps(qs)| ==>
              SearchSteps(qs)[p].query in qs && KindFits(SearchSteps(qs)[p].query.source, SearchSteps(qs)[p].kind)
    decreases |qs|
  {
    if qs != [] {
      var init := qs[..|qs| - 1];
      SearchStepsShape(init);
      var e := Expand(qs[|qs| - 1], |qs| - 1);
      forall p | 0 <= p < |SearchSteps(qs)|
        ensures SearchSteps(qs)[p].query in qs
        ensures KindFits(SearchSteps(qs)[p].query.source, SearchSteps(qs)[p].kind)
      {
        if p < |SearchSteps(init)| {
          assert SearchSteps(qs)[p] == SearchSteps(init)[p];
          assert SearchSteps(init)[p].query in init;
        } else {
          assert SearchSteps(qs)[p] == e[p - |SearchSteps(init)|];
        }
      }
    }
  }

  /** The plan schema's caps bound the expansion: at most 36 search steps. */
  lemma SearchStepsBounded(qs: seq<SearchQuery>)
    requires |qs| <= MaxQueries
    ensures |SearchSteps(qs)| <= 36
  {
    SearchStepsShape(qs);
  }

  lemma KindNameFirst(k: Kind)
    ensures |KindName(k)| >= 1
    ensures KindName(k)[0] == (match k case WebSearch => 'w' case AcademicSearch => 'a' case XSearch => 'x')
  {
  }

  /** An id is made of a prefix followed by the index's digits. */
  lemma StepIdParts(k: Kind, i: nat)
    ensures var p := "search-" + KindName(k) + "-";
            StepId(k, i) == p + NatToString(i) && |p| == 8 + |KindName(k)|
            && StepId(k, i)[7] == KindName(k)[0]
  {
    KindNameFirst(k);
  }

  /** Step ids name their kind and index unambiguously. */
  lemma StepIdInjective(k1: Kind, i1: nat, k2: Kind, i2: nat)
    ensures StepId(k1, i1) == StepId(k2, i2) ==> k1 == k2 && i1 == i2
  {
    if StepId(k1, i1) == StepId(k2, i2) {
      StepIdParts(k1, i1);
      StepIdParts(k2, i2);
      KindNameFirst(k1);
      KindNameFirst(k2);
      var p := "search-" + KindName(k1) + "-";
      assert (p + NatToString(i1))[|p|..] == NatToString(i1);
      assert (p + NatToString(i2))[|p|..] == NatToString(i2);
      if i1 != i2 {
        NatToStringInjective(i1, i2);
      }
    }
  }

  /** The id of a step of kind `k` whose query index is below `n`. */
  predicate IdBelow(id: string, k: Kind, n: nat)
  {
    exists i: nat :: i < n && id == StepId(k, i)
  }

  /** The steps of one query all carry the query's index, and their kinds
      differ. */
  lemma ExpandIds(q: SearchQuery, n: nat)
    ensures var e := Expand(q, n);
            (forall p :: 0 <= p < |e| ==> e[p].id == StepId(e[p].kind, n))
            && (forall p, r :: 0 <= p < r < |e| ==> e[p].kind != e[r].kind)
  {
  }

  /** Every step id carries its own kind and an index below the number of
      queries. */
  lemma {:induction false} SearchStepIdsBelow(qs: seq<SearchQuery>)
    ensures forall p :: 0 <= p < |SearchSteps(qs)| ==> IdBelow(SearchSteps(qs)[p].id, SearchSteps(qs)[p].kind, |qs|)
    decreases |qs|
  {
    if qs != [] {
      var n := |qs| - 1;
      var init := qs[..n];
      SearchStepIdsBelow(init);
      var a := SearchSteps(init);
      var e := Expand(qs[n], n);
      ExpandIds(qs[n], n);
      var s: seq<SearchStep> := a + e;
      assert SearchSteps(qs) == s;
      forall p | 0 <= p < |a + e|
        ensures IdBelow(s[p].id, s[p].kind, |qs|)
      {
        if p < |a| {
          assert s[p] == a[p];
          var i: nat :| i < n && a[p].id == StepId(a[p].kind, i);
        } else {
          assert s[p] == e[p - |a|];
        }
      }
    }
  }

  /** No two search steps share an id. */
  lemma {:induction false} SearchStepIdsDistinct(qs: seq<SearchQuery>)
    ensures forall p, r :: 0 <= p < r < |SearchSteps(qs)| ==> SearchSteps(qs)[p].id != SearchSteps(qs)[r].id
    decreases |qs|
  {
    if qs != [] {
      var n := |qs| - 1;
      var init := qs[..n];
      SearchStepIdsDistinct(init);
      SearchStepIdsBelow(init);
      var a := SearchSteps(init);
      var e := Expand(qs[n], n);
      ExpandIds(qs[n], n);
      var s: seq<SearchStep> := a + e;
      assert SearchSteps(qs) == s;
      forall p, r | 0 <= p < r < |a + e|
        ensures s[p].id != s[r].id
      {
        if r < |a| {
          assert s[p] == a[p] && s[r] == a[r];
        } else if p < |a| {
          var i: nat :| i < n && a[p].id == StepId(a[p].kind, i);
          assert s[p] == a[p] && s[r] == e[r - |a|];
          StepIdInjective(a[p].kind, i, e[r - |a|].kind, n);
        } else {
          assert s[p] == e[p - |a|] && s[r] == e[r - |a|];
          StepIdInjective(e[p - |a|].kind, n, e[r - |a|].kind, n);
        }
      }
    }
  }

  /** `analysisSteps`: `analysis-<index>` for each analysis, in plan order. */
  function AnalysisSteps(analyses: seq<Analysis>): (r: seq<AnalysisStep>)
    ensures |r| == |analyses|
    ensures forall i :: 0 <= i < |r| ==> r[i].analysis == analyses[i]
  {
    seq(|analyses|, i requires 0 <= i < |analyses| => AnalysisStep("analysis-" + NatToString(i), analyses[i]))
  }

  /** Analysis ids are distinct, the i-th one ends in i's digits. */
  lemma AnalysisIdsDistinct(analyses: seq<Analysis>)
    ensures var r := AnalysisSteps(analyses);
            forall i, j :: 0 <= i < j < |r| ==> r[i].id != r[j].id
  {
    var r := AnalysisSteps(analyses);
    forall i, j | 0 <= i < j < |r|
      ensures r[i].id != r[j].id
    {
      NatToStringInjective(i, j);
      var p := "analysis-";
      assert r[i].id[|p|..] == NatToString(i);
      assert r[j].id[|p|..] == NatToString(j);
    }
  }

  /** `totalSteps`: search steps plus analysis steps. */
  function TotalSteps(plan: Plan): (n: nat)
    ensures n == StepCount(plan.queries) + |plan.analyses|
  {
    SearchStepsShape(plan.queries);
    |SearchSteps(plan.queries)| + |AnalysisSteps(plan.analyses)|
  }

  /** Within the schema's caps a plan has at most 44 steps. */
  lemma TotalStepsBounded(plan: Plan)
    requires |plan.queries| <= MaxQueries && |plan.analyses| <= MaxAnalyses
    ensures TotalSteps(plan) <= 44
  {
    SearchStepsShape(plan.queries);
  }
}
