/** The Python session (`perform_deep_search` in app.py): one initial search,
    then one follow-up search per generated query, at most `max_depth - 1` of
    them, with no judge in between. */
module DeepSearch {
  import opened Common
  import opened Results
  import opened Completion
  import opened FollowUp
  import opened Context
  import opened Session

  /** What `perform_deep_search` returns (`all_results`, `final_answer`),
      with the progress it prints. */
  datatype DeepOutcome = DeepOutcome(results: seq<SearchResult>, answer: Option<string>, log: seq<Progress>)

  /** `follow_up_queries[:max_depth-1]`: the generated queries that are
      searched. */
  function DeepQueries(query: string, maxDepth: int, complete: CompletionBackend, initial: seq<SearchResult>): seq<string> {
    Take(GenerateFollowUpQueries(Python, query, initial, complete), maxDepth - 1)
  }

  /** What the session reports once the follow-up searches have ended in
      `s`, on a nonempty initial search. */
  function DeepReport(query: string, complete: CompletionBackend, initial: seq<SearchResult>, s: Step): DeepOutcome {
    DeepOutcome(
      s.results,
      complete(PyAnswerPrompt(query, ContextText(Python, s.results))),
      [Started(query)] + [InitialSearch] + [Found(|initial|)] + s.log + [Analyzing(|s.results|)])
  }

  /** `perform_deep_search(query, max_depth)`. */
  function DeepSearchSpec(query: string, maxDepth: int, b: Backends): DeepOutcome {
    var initial := SearchSearx(Python, b.search, query, 8);
    if initial == [] then
      DeepOutcome([], Some("No initial results found."), [Started(query), InitialSearch])
    else DeepFollowUps(query, maxDepth, b, initial)
  }

  /** No initial results: the session returns no results and the fixed
      answer, after reporting only its start and the initial search. */
  lemma DeepSearchNoResults(query: string, maxDepth: int, b: Backends)
    requires SearchSearx(Python, b.search, query, 8) == []
    ensures DeepSearchSpec(query, maxDepth, b) ==
      DeepOutcome([], Some("No initial results found."), [Started(query), InitialSearch])
  {
  }

  /** The session from the follow-up queries on, after a nonempty initial
      search. */
  function DeepFollowUps(query: string, maxDepth: int, b: Backends, initial: seq<SearchResult>): DeepOutcome {
    var qs := DeepQueries(query, maxDepth, b.complete, initial);
    DeepReport(query, b.complete, initial, FollowUpRounds(FollowUpFetch(Python, b.search), initial, 1, qs))
  }

  /** At most four queries are searched, and at most `max_depth - 1` when
      `max_depth` is positive. */
  lemma DeepQueriesBound(query: string, maxDepth: int, complete: CompletionBackend, initial: seq<SearchResult>)
    ensures var qs := DeepQueries(query, maxDepth, complete, initial);
      && |qs| <= 4
      && (maxDepth >= 1 ==> |qs| <= maxDepth - 1)
      && (initial == [] ==> qs == [])
  {
  }

  /** A `max_depth` of zero or less does not switch the follow-ups off: the
      slice bound is negative and counts back from the end of the list. */
  lemma DeepQueriesNegativeDepth(query: string, maxDepth: int, complete: CompletionBackend, initial: seq<SearchResult>)
    requires maxDepth <= 0
    ensures var generated := GenerateFollowUpQueries(Python, query, initial, complete);
      DeepQueries(query, maxDepth, complete, initial) == generated[..Max(0, |generated| + maxDepth - 1)]
  {
  }

  /** The follow-up searches a report lists are those of its rounds. */
  lemma DeepReportSearches(query: string, complete: CompletionBackend, initial: seq<SearchResult>, s: Step)
    ensures Searches(DeepReport(query, complete, initial, s).log) == Searches(s.log)
  {
    var opening := [Started(query)] + [InitialSearch] + [Found(|initial|)];
    var closing := [Analyzing(|s.results|)];
    SearchesNone(opening);
    SearchesNone(closing);
    SearchesAppend(opening, s.log);
    SearchesAppend(opening + s.log, closing);
  }

  /** The results: none exactly when the initial search finds none;
      otherwise the initial results first, every later result with a URL none
      of them has, and no more than 8 + 4 * 6 in all. */
  lemma DeepSearchResults(query: string, maxDepth: int, b: Backends)
    ensures var o := DeepSearchSpec(query, maxDepth, b);
      var initial := SearchSearx(Python, b.search, query, 8);
      && (o.results == [] <==> initial == [])
      && initial <= o.results
      && (forall i | |initial| <= i < |o.results| :: o.results[i].url !in UrlsOf(initial))
      && |o.results| <= 32
  {
    var initial := SearchSearx(Python, b.search, query, 8);
    if initial != [] {
      var qs := DeepQueries(query, maxDepth, b.complete, initial);
      DeepQueriesBound(query, maxDepth, b.complete, initial);
      FollowUpFetchAtMostSix(Python, b.search);
      FollowUpRoundsExtend(FollowUpFetch(Python, b.search), initial, 1, qs);
    }
  }

  /** The follow-up searches reported: one per searched query, in order,
      numbered from round 2; none when the initial search finds nothing; at
      most four, and at most `max_depth - 1` when `max_depth` is positive. */
  lemma DeepSearchRounds(query: string, maxDepth: int, b: Backends)
    ensures var o := DeepSearchSpec(query, maxDepth, b);
      var initial := SearchSearx(Python, b.search, query, 8);
      && Searches(o.log) == Numbered(2, DeepQueries(query, maxDepth, b.complete, initial))
      && |Searches(o.log)| <= 4
      && (maxDepth >= 1 ==> |Searches(o.log)| <= maxDepth - 1)
  {
    var initial := SearchSearx(Python, b.search, query, 8);
    var qs := DeepQueries(query, maxDepth, b.complete, initial);
    DeepQueriesBound(query, maxDepth, b.complete, initial);
    var o := DeepSearchSpec(query, maxDepth, b);
    if initial != [] {
      var s := FollowUpRounds(FollowUpFetch(Python, b.search), initial, 1, qs);
      FollowUpRoundsNumbered(FollowUpFetch(Python, b.search), initial, 1, qs);
      DeepReportSearches(query, b.complete, initial, s);
    } else {
      SearchesNone(o.log);
    }
  }

  /** With `max_depth` 0 and a backend whose replies are never strings, the
      three fallback queries are generated and the first two are searched. */
  lemma ZeroDepthStillSearches(query: string, b: Backends)
    requires SearchSearx(Python, b.search, query, 8) != []
    requires forall p :: b.complete(p).None?
    ensures |Searches(DeepSearchSpec(query, 0, b).log)| == 2
  {
    var initial := SearchSearx(Python, b.search, query, 8);
    assert b.complete(FollowUpPrompt(query, FollowUpDigest(Python, initial))).None?;
    assert |DeepQueries(query, 0, b.complete, initial)| == 2;
    DeepSearchRounds(query, 0, b);
  }

  /** URL uniqueness: when the initial results and every batch the search
      backend returns have no repeated URL, neither do the final results. */
  lemma DeepSearchDistinct(query: string, maxDepth: int, b: Backends)
    requires DistinctUrls(SearchSearx(Python, b.search, query, 8))
    requires forall q :: DistinctUrls(SearchSearx(Python, b.search, q, 6))
    ensures DistinctUrls(DeepSearchSpec(query, maxDepth, b).results)
  {
    var initial := SearchSearx(Python, b.search, query, 8);
    if initial != [] {
      var fetch := FollowUpFetch(Python, b.search);
      var qs := DeepQueries(query, maxDepth, b.complete, initial);
      assert forall q | q in qs :: fetch(q) == SearchSearx(Python, b.search, q, 6);
      FollowUpRoundsKeepDistinct(fetch, initial, 1, qs);
    }
  }

  /** The session from the follow-up queries on: the queries are generated
      and searched, then the context is compiled and the final answer asked
      for. */
  method DeepRun(query: string, maxDepth: int, b: Backends, initialResults: seq<SearchResult>, logSoFar: seq<Progress>)
    returns (allResults: seq<SearchResult>, finalAnswer: Option<string>, log: seq<Progress>)
    requires logSoFar == [Started(query)] + [InitialSearch] + [Found(|initialResults|)]
    ensures DeepOutcome(allResults, finalAnswer, log) == DeepFollowUps(query, maxDepth, b, initialResults)
  {
    var followUpQueries := GenerateFollowUpQueries(Python, query, initialResults, b.complete);
    var searchRound, rounds;
    allResults, searchRound, rounds := RunFollowUps(Python, b.search, initialResults, 1, Take(followUpQueries, maxDepth - 1));
    log := logSoFar + rounds;
    log := log + [Analyzing(|allResults|)];
    var comprehensiveContext := CompileSearchContext(Python, allResults);
    finalAnswer := b.complete(PyAnswerPrompt(query, comprehensiveContext));
  }

  /** `perform_deep_search(query, max_depth)`, reporting its progress in
      `log`. */
  method PerformDeepSearch(query: string, maxDepth: int, b: Backends)
    returns (allResults: seq<SearchResult>, finalAnswer: Option<string>, log: seq<Progress>)
    ensures DeepOutcome(allResults, finalAnswer, log) == DeepSearchSpec(query, maxDepth, b)
  {
    log := [Started(query)];
    log := log + [InitialSearch];
    allResults := [];
    var initialResults := SearchSearxPy(b.search, query, 8);
    allResults := allResults + initialResults;
    if |initialResults| == 0 {
      return [], Some("No initial results found."), log;
    }
    log := log + [Found(|initialResults|)];
    allResults, finalAnswer, log := DeepRun(query, maxDepth, b, initialResults, log);
  }
}
