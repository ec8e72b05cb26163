/** The TypeScript session, `performAdaptiveSearch`: an initial search, then
    rounds in which the judge either stops the search or proposes queries, of
    which at most two are searched per round, then the final answer and the
    summary with its per-engine breakdown. */
module AdaptiveSearch {
  import opened Common
  import opened Results
  import opened Completion
  import opened Judge
  import opened Context
  import opened Session

  /** `searchSummary`. */
  datatype Summary = Summary(totalResults: nat, sourceBreakdown: map<string, nat>, searchRounds: int)

  /** `DeepSearchResponse`; the answer is `None` when the model's reply
      content is not a string. */
  datatype Response = Response(results: seq<SearchResult>, answer: Option<string>, summary: Summary)

  /** A session's response together with the progress it reported. */
  datatype Outcome = Outcome(response: Response, log: seq<Progress>)

  /** The judge as the loop consults it: a verdict on the results gathered
      so far at a given round. */
  type Judgement = (seq<SearchResult>, int) -> Verdict

  /** The follow-up searches of one round: from the results so far, the
      round counter and the queries, the new results and messages. */
  type Stepper = (seq<SearchResult>, int, seq<string>) -> Step

  /** `analyzeSearchCompleteness` for the session's query and backends. */
  function JudgeOf(query: string, b: Backends): Judgement {
    (rs: seq<SearchResult>, round: int) => AnalyzeSearchCompleteness(query, rs, round, b.complete, b.parse)
  }

  /** The inner `for` loop of `performAdaptiveSearch` for the session's
      search backend. */
  function StepOf(search: SearchBackend): Stepper {
    (rs: seq<SearchResult>, round: int, qs: seq<string>) => FollowUpRounds(FollowUpFetch(TypeScript, search), rs, round, qs)
  }

  /** The state in which the adaptive loop ends. */
  datatype LoopEnd = LoopEnd(results: seq<SearchResult>, round: int, log: seq<Progress>)

  /** The adaptive loop from `round` on. While the round is below `maxDepth`,
      the judge is asked; a complete verdict or one without suggestions ends
      the loop, otherwise its first two suggestions are searched, each
      advancing the round, and the guard is checked again only then. */
  function AdaptiveRounds(maxDepth: int, judge: Judgement, step: Stepper,
                          results: seq<SearchResult>, round: int): LoopEnd
    decreases maxDepth - round
  {
    if round >= maxDepth then LoopEnd(results, round, [])
    else
      var v := judge(results, round);
      if v.isComplete then LoopEnd(results, round, [JudgedComplete(v.reason)])
      else if v.suggestedQueries == [] then LoopEnd(results, round, [NoFurtherDirections])
      else
        var qs := Take(v.suggestedQueries, 2);
        var s := step(results, round, qs);
        var rest := AdaptiveRounds(maxDepth, judge, step, s.results, round + |qs|);
        LoopEnd(rest.results, rest.round, s.log + rest.log)
  }

  /** One turn of the loop, for use where the judge and the step are given. */
  lemma AdaptiveRoundsUnfold(maxDepth: int, judge: Judgement, step: Stepper,
                             results: seq<SearchResult>, round: int)
    ensures var e := AdaptiveRounds(maxDepth, judge, step, results, round);
      var v := judge(results, round);
      var qs := Take(v.suggestedQueries, 2);
      var s := step(results, round, qs);
      var rest := AdaptiveRounds(maxDepth, judge, step, s.results, round + |qs|);
      && (round >= maxDepth ==> e == LoopEnd(results, round, []))
      && (round < maxDepth && v.isComplete ==> e == LoopEnd(results, round, [JudgedComplete(v.reason)]))
      && (round < maxDepth && !v.isComplete && v.suggestedQueries == [] ==> e == LoopEnd(results, round, [NoFurtherDirections]))
      && (round < maxDepth && !v.isComplete && v.suggestedQueries != [] ==>
            |qs| >= 1 && e == LoopEnd(rest.results, rest.round, s.log + rest.log))
  {
  }

  /** `after` extends `before`, and each result it adds has a URL none of
      the results of `before` has. */
  predicate AppendsFresh(before: seq<SearchResult>, after: seq<SearchResult>) {
    before <= after && forall i | |before| <= i < |after| :: after[i].url !in UrlsOf(before)
  }

  lemma AppendsFreshTrans(a: seq<SearchResult>, b: seq<SearchResult>, c: seq<SearchResult>)
    requires AppendsFresh(a, b) && AppendsFresh(b, c)
    ensures AppendsFresh(a, c)
  {
    UrlsOfPrefix(a, b);
    forall i | |a| <= i < |c| ensures c[i].url !in UrlsOf(a) {
      if i < |b| {
        assert c[i] == b[i];
      }
    }
  }

  /** A step that only appends results with new URLs. */
  ghost predicate OnlyAppends(step: Stepper) {
    forall rs, round, qs :: AppendsFresh(rs, step(rs, round, qs).results)
  }

  /** A step that reports one search per query, numbered from the round
      after the current one. */
  ghost predicate NumbersSearches(step: Stepper) {
    forall rs, round, qs :: Searches(step(rs, round, qs).log) == Numbered(round + 1, qs)
  }

  /** The session's step has both properties. */
  lemma StepOfSpec(search: SearchBackend)
    ensures OnlyAppends(StepOf(search)) && NumbersSearches(StepOf(search))
  {
    FollowUpFetchAtMostSix(TypeScript, search);
    forall rs, round, qs ensures AppendsFresh(rs, StepOf(search)(rs, round, qs).results)
                              && Searches(StepOf(search)(rs, round, qs).log) == Numbered(round + 1, qs) {
      FollowUpRoundsExtend(FollowUpFetch(TypeScript, search), rs, round, qs);
      FollowUpRoundsNumbered(FollowUpFetch(TypeScript, search), rs, round, qs);
    }
  }

  /** The loop only appends: results present when it starts are kept in
      place, and every result it adds has a URL none of them has. */
  lemma {:induction false} AdaptiveRoundsExtend(maxDepth: int, judge: Judgement, step: Stepper,
                                                results: seq<SearchResult>, round: int)
    requires OnlyAppends(step)
    ensures AppendsFresh(results, AdaptiveRounds(maxDepth, judge, step, results, round).results)
    decreases maxDepth - round
  {
    var e := AdaptiveRounds(maxDepth, judge, step, results, round);
    if round < maxDepth {
      var v := judge(results, round);
      if !v.isComplete && v.suggestedQueries != [] {
        var qs := Take(v.suggestedQueries, 2);
        var s := step(results, round, qs);
        AdaptiveRoundsExtend(maxDepth, judge, step, s.results, round + |qs|);
        assert AppendsFresh(results, s.results);
        AppendsFreshTrans(results, s.results, e.results);
      }
    }
  }

  /** The round counter counts searches: it ends `k` above where it started
      when `k` searches were reported, and they are numbered one by one from
      the round after the start. Starting below `maxDepth`, it ends at most
      one above `maxDepth`, since the guard is checked once per verdict and a
      verdict can start two searches. */
  lemma {:induction false} AdaptiveRoundsCount(maxDepth: int, judge: Judgement, step: Stepper,
                                               results: seq<SearchResult>, round: int)
    requires NumbersSearches(step)
    ensures var e := AdaptiveRounds(maxDepth, judge, step, results, round);
      && round <= e.round
      && (round < maxDepth ==> e.round <= maxDepth + 1)
      && (round >= maxDepth ==> e == LoopEnd(results, round, []))
      && |Searches(e.log)| == e.round - round
      && forall i | 0 <= i < |Searches(e.log)| :: Searches(e.log)[i].round == round + 1 + i
    decreases maxDepth - round
  {
    var e := AdaptiveRounds(maxDepth, judge, step, results, round);
    if round < maxDepth {
      var v := judge(results, round);
      if v.isComplete {
        assert e.log == [JudgedComplete(v.reason)];
        assert Searches(e.log) == [];
      } else if v.suggestedQueries == [] {
        assert e.log == [NoFurtherDirections];
        assert Searches(e.log) == [];
      } else {
        var qs := Take(v.suggestedQueries, 2);
        var s := step(results, round, qs);
        var next := round + |qs|;
        AdaptiveRoundsCount(maxDepth, judge, step, s.results, next);
        var rest := AdaptiveRounds(maxDepth, judge, step, s.results, next);
        assert e == LoopEnd(rest.results, rest.round, s.log + rest.log);
        SearchesAppend(s.log, rest.log);
        assert Searches(s.log) == Numbered(round + 1, qs);
      }
    } else {
      assert Searches([]) == [];
    }
  }

  /** The loop ends below `maxDepth` only on the judge's word: the last
      message is then a complete verdict or the report that no further
      searches were suggested. */
  lemma {:induction false} AdaptiveRoundsExit(maxDepth: int, judge: Judgement, step: Stepper,
                                              results: seq<SearchResult>, round: int)
    ensures var e := AdaptiveRounds(maxDepth, judge, step, results, round);
      e.round < maxDepth ==>
        |e.log| >= 1 && (e.log[|e.log| - 1].JudgedComplete? || e.log[|e.log| - 1].NoFurtherDirections?)
    decreases maxDepth - round
  {
    var e := AdaptiveRounds(maxDepth, judge, step, results, round);
    if round < maxDepth {
      var v := judge(results, round);
      if v.isComplete {
        assert e.log == [JudgedComplete(v.reason)];
      } else if v.suggestedQueries == [] {
        assert e.log == [NoFurtherDirections];
      } else {
        var qs := Take(v.suggestedQueries, 2);
        var s := step(results, round, qs);
        AdaptiveRoundsExit(maxDepth, judge, step, s.results, round + |qs|);
        var rest := AdaptiveRounds(maxDepth, judge, step, s.results, round + |qs|);
        assert e == LoopEnd(rest.results, rest.round, s.log + rest.log);
        if rest.round < maxDepth {
          LastOfAppend(s.log, rest.log);
        }
      }
    }
  }

  lemma AppendAssoc<T>(a: seq<T>, b: seq<T>, c: seq<T>)
    ensures (a + b) + c == a + (b + c)
  {
  }

  lemma LastOfAppend<T>(a: seq<T>, b: seq<T>)
    requires |b| >= 1
    ensures |a + b| >= 1 && (a + b)[|a + b| - 1] == b[|b| - 1]
  {
  }

  /** The round bound is reached: from the last round below `maxDepth`, with
      a backend whose replies are never strings and fewer than fifteen
      results, the fallback verdict proposes three searches, two of which run,
      so the counter ends at `maxDepth + 1`. */
  lemma DepthOvershoot(query: string, maxDepth: int, b: Backends, results: seq<SearchResult>)
    requires results != [] && |results| < 15
    requires forall p :: b.complete(p).None?
    ensures AdaptiveRounds(maxDepth, JudgeOf(query, b), StepOf(b.search), results, maxDepth - 1).round == maxDepth + 1
  {
    var round := maxDepth - 1;
    var judge := JudgeOf(query, b);
    var step := StepOf(b.search);
    assert b.complete(JudgePrompt(query, JudgeDigest(results), round)).None?;
    HeuristicShape(query, results, round);
    var v := judge(results, round);
    assert v == HeuristicVerdict(query, results, round);
    var qs := Take(v.suggestedQueries, 2);
    assert |qs| == 2;
    AdaptiveRoundsUnfold(maxDepth, judge, step, results, round);
    var s := step(results, round, qs);
    AdaptiveRoundsUnfold(maxDepth, judge, step, s.results, maxDepth + 1);
  }

  /** `sourceBreakdown`: the number of results per engine key. */
  function SourceBreakdown(rs: seq<SearchResult>): map<string, nat> {
    map k | k in Engines(TypeScript, rs) :: |OfEngine(TypeScript, rs, k)|
  }

  /** The sum, over the keys `ks`, of the number of results with that key. */
  function TotalOf(rs: seq<SearchResult>, ks: seq<string>): nat
    decreases |ks|
  {
    if ks == [] then 0 else TotalOf(rs, ks[..|ks| - 1]) + |OfEngine(TypeScript, rs, ks[|ks| - 1])|
  }

  lemma {:induction false} TotalOfStep(rs: seq<SearchResult>, ks: seq<string>)
    requires rs != []
    requires forall i, j | 0 <= i < j < |ks| :: ks[i] != ks[j]
    ensures TotalOf(rs, ks) == TotalOf(rs[..|rs| - 1], ks) + (if EngineKey(TypeScript, rs[|rs| - 1]) in ks then 1 else 0)
    decreases |ks|
  {
    if ks != [] {
      var pre := ks[..|ks| - 1];
      var x := ks[|ks| - 1];
      TotalOfStep(rs, pre);
      assert x !in pre by {
        forall i | 0 <= i < |pre| ensures pre[i] != x {
          assert pre[i] == ks[i];
        }
      }
      assert ks == pre + [x];
    }
  }

  /** The breakdown accounts for every result exactly once: its counts add up
      to the number of results. */
  lemma {:induction false} EngineCountsSum(rs: seq<SearchResult>)
    ensures TotalOf(rs, Engines(TypeScript, rs)) == |rs|
    decreases |rs|
  {
    if rs != [] {
      var init := rs[..|rs| - 1];
      var k := EngineKey(TypeScript, rs[|rs| - 1]);
      var es := Engines(TypeScript, init);
      EngineCountsSum(init);
      EnginesSpec(TypeScript, init);
      TotalOfStep(rs, es);
      if k !in es {
        assert (es + [k])[..|es|] == es;
        assert OfEngine(TypeScript, init, k) == [];
      }
    }
  }

  lemma SourceBreakdownStep(rs: seq<SearchResult>, i: nat)
    requires i < |rs|
    ensures var m := SourceBreakdown(rs[..i]); var k := EngineKey(TypeScript, rs[i]);
      SourceBreakdown(rs[..i + 1]) == m[k := (if k in m then m[k] else 0) + 1]
  {
    var pre := rs[..i];
    assert rs[..i + 1][..i] == pre;
    EnginesSpec(TypeScript, pre);
  }

  /** The `forEach` that fills `sourceBreakdown`. */
  method TallySources(allResults: seq<SearchResult>) returns (sourceBreakdown: map<string, nat>)
    ensures sourceBreakdown == SourceBreakdown(allResults)
  {
    sourceBreakdown := map[];
    for i := 0 to |allResults|
      invariant sourceBreakdown == SourceBreakdown(allResults[..i])
    {
      var engine := EngineKey(TypeScript, allResults[i]);
      SourceBreakdownStep(allResults, i);
      sourceBreakdown := sourceBreakdown[engine := (if engine in sourceBreakdown then sourceBreakdown[engine] else 0) + 1];
    }
    assert allResults[..|allResults|] == allResults;
  }

  /** What `performAdaptiveSearch` reports once its loop has ended in `e`
      on a nonempty initial search. */
  function Report(query: string, maxDepth: int, complete: CompletionBackend, initial: seq<SearchResult>, e: LoopEnd): Outcome {
    var answer := complete(AnswerPrompt(query, e.round, |e.results|, ContextText(TypeScript, e.results)));
    Outcome(
      Response(e.results, answer, Summary(|e.results|, SourceBreakdown(e.results), e.round)),
      [Started(query)] + [InitialSearch] + [Found(|initial|)] + e.log
      + (if e.round >= maxDepth then [DepthReached(maxDepth)] else [])
      + [Analyzing(|e.results|)] + [Completed(e.round)])
  }

  /** `performAdaptiveSearch(query, maxDepth)`. */
  function AdaptiveSearchSpec(query: string, maxDepth: int, b: Backends): Outcome {
    var initial := SearchSearx(TypeScript, b.search, query, 8);
    if initial == [] then
      Outcome(Response([], Some("No initial results found."), Summary(0, map[], 1)), [Started(query), InitialSearch])
    else
      Report(query, maxDepth, b.complete, initial, AdaptiveRounds(maxDepth, JudgeOf(query, b), StepOf(b.search), initial, 1))
  }

  /** No initial results: the session stops with no results, the fixed
      answer, a summary of one round and an empty breakdown, after reporting
      only its start and the initial search. */
  lemma AdaptiveSearchNoResults(query: string, maxDepth: int, b: Backends)
    requires SearchSearx(TypeScript, b.search, query, 8) == []
    ensures AdaptiveSearchSpec(query, maxDepth, b) ==
      Outcome(Response([], Some("No initial results found."), Summary(0, map[], 1)), [Started(query), InitialSearch])
  {
  }

  /** The follow-up searches a report lists are those of its loop. */
  lemma ReportSearches(query: string, maxDepth: int, complete: CompletionBackend, initial: seq<SearchResult>, e: LoopEnd)
    ensures Searches(Report(query, maxDepth, complete, initial, e).log) == Searches(e.log)
  {
    var opening := [Started(query)] + [InitialSearch] + [Found(|initial|)];
    var depth := if e.round >= maxDepth then [DepthReached(maxDepth)] else [];
    var closing := [Analyzing(|e.results|)] + [Completed(e.round)];
    SearchesNone(opening);
    SearchesNone(depth);
    SearchesNone(closing);
    SearchesAppend(opening, e.log);
    SearchesAppend(opening + e.log, depth);
    SearchesAppend(opening + e.log + depth, closing);
    assert Report(query, maxDepth, complete, initial, e).log == opening + e.log + depth + closing;
  }

  /** A report on a loop that counted its searches from round 1 gives the
      rounds the loop reached, one more than the searches it lists. */
  lemma ReportRounds(query: string, maxDepth: int, complete: CompletionBackend, initial: seq<SearchResult>, e: LoopEnd)
    requires 1 <= e.round && |Searches(e.log)| == e.round - 1
    requires 1 < maxDepth ==> e.round <= maxDepth + 1
    requires 1 >= maxDepth ==> e.round == 1
    ensures var o := Report(query, maxDepth, complete, initial, e);
      && 1 <= o.response.summary.searchRounds <= Max(1, maxDepth + 1)
      && |Searches(o.log)| == o.response.summary.searchRounds - 1
  {
    ReportSearches(query, maxDepth, complete, initial, e);
  }

  /** The session's results: none exactly when the initial search finds
      none; otherwise the initial results first, and every later result with
      a URL none of them has. */
  lemma AdaptiveSearchResults(query: string, maxDepth: int, b: Backends)
    ensures var r := AdaptiveSearchSpec(query, maxDepth, b).response;
      var initial := SearchSearx(TypeScript, b.search, query, 8);
      && (r.results == [] <==> initial == [])
      && AppendsFresh(initial, r.results)
  {
    var initial := SearchSearx(TypeScript, b.search, query, 8);
    if initial != [] {
      StepOfSpec(b.search);
      AdaptiveRoundsExtend(maxDepth, JudgeOf(query, b), StepOf(b.search), initial, 1);
    }
  }

  /** A step that keeps results free of repeated URLs. */
  ghost predicate KeepsDistinct(step: Stepper) {
    forall rs, round, qs | DistinctUrls(rs) :: DistinctUrls(step(rs, round, qs).results)
  }

  /** The session's step keeps URLs distinct when every batch the search
      backend returns has no repeated URL. */
  lemma StepOfKeepsDistinct(search: SearchBackend)
    requires forall q :: DistinctUrls(SearchSearx(TypeScript, search, q, 6))
    ensures KeepsDistinct(StepOf(search))
  {
    forall rs, round, qs | DistinctUrls(rs) ensures DistinctUrls(StepOf(search)(rs, round, qs).results) {
      FollowUpRoundsKeepDistinct(FollowUpFetch(TypeScript, search), rs, round, qs);
    }
  }

  /** A loop whose step keeps URLs distinct ends with distinct URLs. */
  lemma {:induction false} AdaptiveRoundsKeepDistinct(maxDepth: int, judge: Judgement, step: Stepper,
                                                      results: seq<SearchResult>, round: int)
    requires KeepsDistinct(step) && DistinctUrls(results)
    ensures DistinctUrls(AdaptiveRounds(maxDepth, judge, step, results, round).results)
    decreases maxDepth - round
  {
    if round < maxDepth {
      var v := judge(results, round);
      if !v.isComplete && v.suggestedQueries != [] {
        var qs := Take(v.suggestedQueries, 2);
        var s := step(results, round, qs);
        AdaptiveRoundsKeepDistinct(maxDepth, judge, step, s.results, round + |qs|);
      }
    }
  }

  /** URL uniqueness: when the initial results and every batch the search
      backend returns have no repeated URL, neither do the session's
      results. */
  lemma AdaptiveSearchDistinct(query: string, maxDepth: int, b: Backends)
    requires DistinctUrls(SearchSearx(TypeScript, b.search, query, 8))
    requires forall q :: DistinctUrls(SearchSearx(TypeScript, b.search, q, 6))
    ensures DistinctUrls(AdaptiveSearchSpec(query, maxDepth, b).response.results)
  {
    var initial := SearchSearx(TypeScript, b.search, query, 8);
    if initial != [] {
      StepOfKeepsDistinct(b.search);
      AdaptiveRoundsKeepDistinct(maxDepth, JudgeOf(query, b), StepOf(b.search), initial, 1);
    }
  }

  /** The summary: its total is the number of results, its breakdown has one
      entry per engine key, counting that engine's results, and the counts add
      up to the total. */
  lemma AdaptiveSearchSummary(query: string, maxDepth: int, b: Backends)
    ensures var r := AdaptiveSearchSpec(query, maxDepth, b).response;
      && r.summary.totalResults == |r.results|
      && (forall k :: k in r.summary.sourceBreakdown <==> k in Engines(TypeScript, r.results))
      && (forall k | k in r.summary.sourceBreakdown :: r.summary.sourceBreakdown[k] == |OfEngine(TypeScript, r.results, k)|)
      && TotalOf(r.results, Engines(TypeScript, r.results)) == r.summary.totalResults
  {
    var r := AdaptiveSearchSpec(query, maxDepth, b).response;
    EngineCountsSum(r.results);
  }

  /** The rounds reported: between 1 and `maxDepth + 1` (1 when `maxDepth`
      is at most 1), one more than the number of follow-up searches the log
      reports. */
  lemma AdaptiveSearchRounds(query: string, maxDepth: int, b: Backends)
    ensures var o := AdaptiveSearchSpec(query, maxDepth, b);
      && 1 <= o.response.summary.searchRounds <= Max(1, maxDepth + 1)
      && |Searches(o.log)| == o.response.summary.searchRounds - 1
  {
    var initial := SearchSearx(TypeScript, b.search, query, 8);
    var o := AdaptiveSearchSpec(query, maxDepth, b);
    if initial != [] {
      var e := AdaptiveRounds(maxDepth, JudgeOf(query, b), StepOf(b.search), initial, 1);
      StepOfSpec(b.search);
      AdaptiveRoundsCount(maxDepth, JudgeOf(query, b), StepOf(b.search), initial, 1);
      ReportRounds(query, maxDepth, b.complete, initial, e);
    } else {
      assert o.log[1..][1..] == [];
    }
  }

  /** The documented depth is not a bound on the rounds reported: with
      `maxDepth` 2, an initial search of fewer than fifteen results and a
      backend whose replies are never strings, the session reports three. */
  lemma RoundsCanExceedDepth(query: string, b: Backends)
    requires var initial := SearchSearx(TypeScript, b.search, query, 8); initial != [] && |initial| < 15
    requires forall p :: b.complete(p).None?
    ensures AdaptiveSearchSpec(query, 2, b).response.summary.searchRounds == 3
  {
    DepthOvershoot(query, 2, b, SearchSearx(TypeScript, b.search, query, 8));
  }

  /** The loop's end `e` seen from a point where `log` is already
      reported. */
  function Resume(log: seq<Progress>, e: LoopEnd): LoopEnd {
    LoopEnd(e.results, e.round, log + e.log)
  }

  /** One round of searches, seen from the loop: after the searches the
      loop resumes with their results and log. */
  lemma ResumeAfterSearches(maxDepth: int, judge: Judgement, step: Stepper,
                            results: seq<SearchResult>, round: int, log: seq<Progress>)
    requires round < maxDepth
    requires !judge(results, round).isComplete && judge(results, round).suggestedQueries != []
    ensures var qs := Take(judge(results, round).suggestedQueries, 2);
      var s := step(results, round, qs);
      Resume(log + s.log, AdaptiveRounds(maxDepth, judge, step, s.results, round + |qs|))
        == Resume(log, AdaptiveRounds(maxDepth, judge, step, results, round))
  {
    var qs := Take(judge(results, round).suggestedQueries, 2);
    var s := step(results, round, qs);
    var rest := AdaptiveRounds(maxDepth, judge, step, s.results, round + |qs|);
    AdaptiveRoundsUnfold(maxDepth, judge, step, results, round);
    AppendAssoc(log, s.log, rest.log);
  }

  /** One pass of the `while` loop's body at a round below `maxDepth`: the
      judge is asked, and unless it ends the loop its first two suggestions
      are searched. The loop's end seen from before the pass is the one seen
      from after it, or the state reached when the pass ends the loop. */
  method AdaptiveRound(maxDepth: int, judge: Judgement, search: SearchBackend,
                       allResults: seq<SearchResult>, searchRound: int, log: seq<Progress>)
    returns (nextResults: seq<SearchResult>, nextRound: int, nextLog: seq<Progress>, shouldContinueSearching: bool)
    requires searchRound < maxDepth
    ensures var before := Resume(log, AdaptiveRounds(maxDepth, judge, StepOf(search), allResults, searchRound));
      if shouldContinueSearching
      then Resume(nextLog, AdaptiveRounds(maxDepth, judge, StepOf(search), nextResults, nextRound)) == before
      else LoopEnd(nextResults, nextRound, nextLog) == before
    ensures shouldContinueSearching ==> nextRound > searchRound
  {
    ghost var step := StepOf(search);
    AdaptiveRoundsUnfold(maxDepth, judge, step, allResults, searchRound);
    var analysisResult := judge(allResults, searchRound);
    if analysisResult.isComplete {
      return allResults, searchRound, log + [JudgedComplete(analysisResult.reason)], false;
    }
    if |analysisResult.suggestedQueries| == 0 {
      return allResults, searchRound, log + [NoFurtherDirections], false;
    }
    var suggested := Take(analysisResult.suggestedQueries, 2);
    ResumeAfterSearches(maxDepth, judge, step, allResults, searchRound, log);
    var more;
    nextResults, nextRound, more := RunFollowUps(TypeScript, search, allResults, searchRound, suggested);
    nextLog := log + more;
    shouldContinueSearching := true;
  }

  /** The `while` loop of `performAdaptiveSearch`, from round 1 on the
      initial results; `judge` is `analyzeSearchCompleteness` bound to the
      session's query and backends. */
  method AdaptiveLoop(maxDepth: int, judge: Judgement, search: SearchBackend, initialResults: seq<SearchResult>)
    returns (allResults: seq<SearchResult>, searchRound: int, log: seq<Progress>)
    ensures LoopEnd(allResults, searchRound, log) == AdaptiveRounds(maxDepth, judge, StepOf(search), initialResults, 1)
  {
    ghost var target := AdaptiveRounds(maxDepth, judge, StepOf(search), initialResults, 1);
    allResults, searchRound, log := initialResults, 1, [];
    var shouldContinueSearching := true;
    while shouldContinueSearching && searchRound < maxDepth
      invariant shouldContinueSearching ==> Resume(log, AdaptiveRounds(maxDepth, judge, StepOf(search), allResults, searchRound)) == target
      invariant !shouldContinueSearching ==> LoopEnd(allResults, searchRound, log) == target
      decreases shouldContinueSearching, maxDepth - searchRound
    {
      allResults, searchRound, log, shouldContinueSearching := AdaptiveRound(maxDepth, judge, search, allResults, searchRound, log);
    }
    if shouldContinueSearching {
      AdaptiveRoundsUnfold(maxDepth, judge, StepOf(search), allResults, searchRound);
    }
  }

  /** What `performAdaptiveSearch` does after its loop has ended in `e`:
      the depth notice, the final answer and the summary. */
  method Conclude(query: string, maxDepth: int, complete: CompletionBackend, initialResults: seq<SearchResult>, e: LoopEnd, logSoFar: seq<Progress>)
    returns (response: Response, log: seq<Progress>)
    requires logSoFar == [Started(query)] + [InitialSearch] + [Found(|initialResults|)] + e.log
    ensures Outcome(response, log) == Report(query, maxDepth, complete, initialResults, e)
  {
    var allResults, searchRound := e.results, e.round;
    log := logSoFar;
    if searchRound >= maxDepth {
      log := log + [DepthReached(maxDepth)];
    }
    log := log + [Analyzing(|allResults|)];
    var comprehensiveContext := CompileSearchContext(TypeScript, allResults);
    var comprehensiveAnswer := complete(AnswerPrompt(query, searchRound, |allResults|, comprehensiveContext));
    var sourceBreakdown := TallySources(allResults);
    log := log + [Completed(searchRound)];
    response := Response(allResults, comprehensiveAnswer, Summary(|allResults|, sourceBreakdown, searchRound));
  }

  /** `performAdaptiveSearch(query, maxDepth, onProgress)`, reporting its
      progress in `log`. */
  method PerformAdaptiveSearch(query: string, maxDepth: int, b: Backends) returns (response: Response, log: seq<Progress>)
    ensures Outcome(response, log) == AdaptiveSearchSpec(query, maxDepth, b)
  {
    log := [Started(query)];
    log := log + [InitialSearch];
    var initialResults := SearchSearx(TypeScript, b.search, query, 8);
    if |initialResults| == 0 {
      return Response([], Some("No initial results found."), Summary(0, map[], 1)), log;
    }
    log := log + [Found(|initialResults|)];

    var allResults, searchRound, rounds := AdaptiveLoop(maxDepth, JudgeOf(query, b), b.search, initialResults);
    log := log + rounds;
    response, log := Conclude(query, maxDepth, b.complete, initialResults, LoopEnd(allResults, searchRound, rounds), log);
  }
}
