/** What the two search sessions share: the backends they consult, the
    progress they report, and the follow-up searches that merge each batch
    into the accumulated results while dropping already-seen URLs. */
module Session {
  import opened Common
  import opened Results
  import opened Completion
  import opened Judge

  /** The external services a session consults. */
  datatype Backends = Backends(search: SearchBackend, complete: CompletionBackend, parse: JsonParser)

  /** One progress message (`onProgress` in TypeScript, `print` in Python),
      kept as the values it reports. */
  datatype Progress =
    | Started(query: string)
    | InitialSearch
    | Found(count: nat)
    | FollowUpSearch(round: int, query: string)
    | NewResultsFound(count: nat)
    | NoNewResults
    | JudgedComplete(reason: JsonValue)
    | NoFurtherDirections
    | DepthReached(maxDepth: int)
    | Analyzing(total: nat)
    | Completed(rounds: int)

  /** The accumulated results and the messages reported so far. */
  datatype Step = Step(results: seq<SearchResult>, log: seq<Progress>)

  /** The follow-up searches reported in a log, in order. */
  function Searches(log: seq<Progress>): (s: seq<Progress>)
    ensures forall i | 0 <= i < |s| :: s[i].FollowUpSearch?
    ensures |s| <= |log|
    decreases |log|
  {
    if log == [] then []
    else (if log[0].FollowUpSearch? then [log[0]] else []) + Searches(log[1..])
  }

  /** A log that reports no follow-up search lists none. */
  lemma {:induction false} SearchesNone(log: seq<Progress>)
    requires forall i | 0 <= i < |log| :: !log[i].FollowUpSearch?
    ensures Searches(log) == []
    decreases |log|
  {
    if log != [] {
      assert forall i | 0 <= i < |log[1..]| :: log[1..][i] == log[i + 1];
      SearchesNone(log[1..]);
    }
  }

  lemma {:induction false} SearchesAppend(a: seq<Progress>, b: seq<Progress>)
    ensures Searches(a + b) == Searches(a) + Searches(b)
    decreases |a|
  {
    if a != [] {
      assert (a + b)[0] == a[0];
      assert (a + b)[1..] == a[1..] + b;
      SearchesAppend(a[1..], b);
      var head := if a[0].FollowUpSearch? then [a[0]] else [];
      assert Searches(a + b) == head + Searches(a[1..] + b);
      assert Searches(a) == head + Searches(a[1..]);
    } else {
      assert a + b == b;
    }
  }

  /** The searches numbered `first`, `first + 1`, ... for the given queries. */
  function Numbered(first: int, qs: seq<string>): seq<Progress> {
    seq(|qs|, i requires 0 <= i < |qs| => FollowUpSearch(first + i, qs[i]))
  }

  /** The search a follow-up query runs: `searchSearx(query, 6)`. */
  type Fetch = string -> seq<SearchResult>

  function FollowUpFetch(d: Dialect, search: SearchBackend): Fetch {
    q => SearchSearx(d, search, q, 6)
  }

  /** A search that never returns more than six results. */
  ghost predicate AtMostSix(fetch: Fetch) {
    forall q :: |fetch(q)| <= 6
  }

  lemma FollowUpFetchAtMostSix(d: Dialect, search: SearchBackend)
    ensures AtMostSix(FollowUpFetch(d, search))
  {
  }

  /** One follow-up search numbered `round`: the results of `fetch`, of
      which those whose URL is already known are dropped. */
  function FollowUpOne(fetch: Fetch, acc: seq<SearchResult>, round: int, q: string): Step {
    var batch := fetch(q);
    if batch == [] then Step(acc, [FollowUpSearch(round, q), NoNewResults])
    else
      var additions := NewResults(batch, UrlsOf(acc));
      Step(acc + additions, [FollowUpSearch(round, q), NewResultsFound(|additions|)])
  }

  lemma FollowUpOneSpec(fetch: Fetch, acc: seq<SearchResult>, round: int, q: string)
    ensures var s := FollowUpOne(fetch, acc, round, q);
      && acc <= s.results && |s.results| <= |acc| + |fetch(q)|
      && (forall i | |acc| <= i < |s.results| :: s.results[i].url !in UrlsOf(acc))
      && Searches(s.log) == [FollowUpSearch(round, q)]
  {
    var batch := fetch(q);
    var s := FollowUpOne(fetch, acc, round, q);
    if batch != [] {
      NewResultsSpec(batch, UrlsOf(acc));
      var additions := NewResults(batch, UrlsOf(acc));
      forall i | |acc| <= i < |s.results| ensures s.results[i].url !in UrlsOf(acc) {
        assert s.results[i] == additions[i - |acc|];
        assert additions[i - |acc|] in additions;
      }
    }
    assert s.log[1..][1..] == [];
  }

  /** The follow-up searches for `qs`, numbered from `round + 1`, in order. */
  function FollowUpRounds(fetch: Fetch, results: seq<SearchResult>,
                          round: int, qs: seq<string>): Step
    decreases |qs|
  {
    if qs == [] then Step(results, [])
    else
      var prev := FollowUpRounds(fetch, results, round, qs[..|qs| - 1]);
      var next := FollowUpOne(fetch, prev.results, round + |qs|, qs[|qs| - 1]);
      Step(next.results, prev.log + next.log)
  }

  /** One more query extends the rounds by one follow-up search. */
  lemma FollowUpRoundsSnoc(fetch: Fetch, results: seq<SearchResult>,
                           round: int, qs: seq<string>, i: nat)
    requires i < |qs|
    ensures var prev := FollowUpRounds(fetch, results, round, qs[..i]);
      var next := FollowUpOne(fetch, prev.results, round + i + 1, qs[i]);
      FollowUpRounds(fetch, results, round, qs[..i + 1]) == Step(next.results, prev.log + next.log)
  {
    assert qs[..i + 1][..i] == qs[..i];
  }

  /** The earlier results are kept as they are, every result added has a URL
      none of them has, and each query adds at most six results. */
  lemma {:induction false} FollowUpRoundsExtend(fetch: Fetch, results: seq<SearchResult>,
                                                round: int, qs: seq<string>)
    requires AtMostSix(fetch)
    ensures var s := FollowUpRounds(fetch, results, round, qs);
      && results <= s.results
      && |s.results| <= |results| + 6 * |qs|
      && (forall i | |results| <= i < |s.results| :: s.results[i].url !in UrlsOf(results))
    decreases |qs|
  {
    if qs != [] {
      var prev := FollowUpRounds(fetch, results, round, qs[..|qs| - 1]);
      var next := FollowUpOne(fetch, prev.results, round + |qs|, qs[|qs| - 1]);
      assert FollowUpRounds(fetch, results, round, qs).results == next.results;
      FollowUpRoundsExtend(fetch, results, round, qs[..|qs| - 1]);
      FollowUpOneSpec(fetch, prev.results, round + |qs|, qs[|qs| - 1]);
      UrlsOfPrefix(results, prev.results);
      forall i | |results| <= i < |next.results| ensures next.results[i].url !in UrlsOf(results) {
        if i < |prev.results| {
          assert next.results[i] == prev.results[i];
        }
      }
    }
  }

  /** The log reports exactly one search per query, in order, numbered from
      the round after `round`. */
  lemma {:induction false} FollowUpRoundsNumbered(fetch: Fetch, results: seq<SearchResult>,
                                                  round: int, qs: seq<string>)
    ensures Searches(FollowUpRounds(fetch, results, round, qs).log) == Numbered(round + 1, qs)
    decreases |qs|
  {
    if qs != [] {
      var prev := FollowUpRounds(fetch, results, round, qs[..|qs| - 1]);
      var next := FollowUpOne(fetch, prev.results, round + |qs|, qs[|qs| - 1]);
      calc {
        Searches(FollowUpRounds(fetch, results, round, qs).log);
        Searches(prev.log + next.log);
        { SearchesAppend(prev.log, next.log); }
        Searches(prev.log) + Searches(next.log);
        { FollowUpRoundsNumbered(fetch, results, round, qs[..|qs| - 1]);
          FollowUpOneSpec(fetch, prev.results, round + |qs|, qs[|qs| - 1]); }
        Numbered(round + 1, qs[..|qs| - 1]) + [FollowUpSearch(round + |qs|, qs[|qs| - 1])];
        { NumberedSnoc(round + 1, qs); }
        Numbered(round + 1, qs);
      }
    } else {
      assert Searches([]) == [];
    }
  }

  lemma UrlsOfPrefix(a: seq<SearchResult>, b: seq<SearchResult>)
    requires a <= b
    ensures UrlsOf(a) <= UrlsOf(b)
  {
    forall r | r in a ensures r in b {
      var k :| 0 <= k < |a| && a[k] == r;
      assert b[k] == r;
    }
  }

  lemma NumberedSnoc(first: int, qs: seq<string>)
    requires qs != []
    ensures Numbered(first, qs) == Numbered(first, qs[..|qs| - 1]) + [FollowUpSearch(first + |qs| - 1, qs[|qs| - 1])]
  {
  }

  /** No two results share a URL. */
  predicate DistinctUrls(rs: seq<SearchResult>) {
    forall i, j | 0 <= i < j < |rs| :: rs[i].url != rs[j].url
  }

  lemma DistinctTail(batch: seq<SearchResult>)
    requires batch != [] && DistinctUrls(batch)
    ensures DistinctUrls(batch[1..])
    ensures forall r | r in batch[1..] :: r.url != batch[0].url
  {
    var tail := batch[1..];
    forall i, j | 0 <= i < j < |tail| ensures tail[i].url != tail[j].url {
      assert tail[i] == batch[i + 1] && tail[j] == batch[j + 1];
    }
    forall r | r in tail ensures r.url != batch[0].url {
      var k :| 0 <= k < |tail| && tail[k] == r;
      assert batch[k + 1] == r;
    }
  }

  lemma DistinctCons(r: SearchResult, rest: seq<SearchResult>)
    requires DistinctUrls(rest) && forall x | x in rest :: x.url != r.url
    ensures DistinctUrls([r] + rest)
  {
    var all := [r] + rest;
    forall i, j | 0 <= i < j < |all| ensures all[i].url != all[j].url {
      if i == 0 {
        assert all[j] == rest[j - 1];
        assert rest[j - 1] in rest;
      } else {
        assert all[i] == rest[i - 1] && all[j] == rest[j - 1];
      }
    }
  }

  lemma {:induction false} NewResultsDistinct(batch: seq<SearchResult>, existing: set<string>)
    requires DistinctUrls(batch)
    ensures DistinctUrls(NewResults(batch, existing))
    decreases |batch|
  {
    if batch != [] {
      DistinctTail(batch);
      NewResultsDistinct(batch[1..], existing);
      var rest := NewResults(batch[1..], existing);
      NewResultsSpec(batch[1..], existing);
      if batch[0].url !in existing {
        DistinctCons(batch[0], rest);
      }
    }
  }

  lemma AppendDistinct(acc: seq<SearchResult>, batch: seq<SearchResult>)
    requires DistinctUrls(acc) && DistinctUrls(batch)
    ensures DistinctUrls(acc + NewResults(batch, UrlsOf(acc)))
  {
    var additions := NewResults(batch, UrlsOf(acc));
    NewResultsDistinct(batch, UrlsOf(acc));
    NewResultsSpec(batch, UrlsOf(acc));
    var all := acc + additions;
    forall i, j | 0 <= i < j < |all| ensures all[i].url != all[j].url {
      if j >= |acc| && i < |acc| {
        assert all[j] == additions[j - |acc|];
        assert additions[j - |acc|] in additions;
        assert acc[i] in acc;
      } else if i >= |acc| {
        assert all[i] == additions[i - |acc|] && all[j] == additions[j - |acc|];
      }
    }
  }

  /** URL uniqueness is kept across rounds as long as every batch the search
      backend returns is itself free of repeated URLs: the filter only looks
      at the results gathered before the batch. */
  lemma {:induction false} FollowUpRoundsKeepDistinct(fetch: Fetch, results: seq<SearchResult>,
                                                      round: int, qs: seq<string>)
    requires DistinctUrls(results)
    requires forall q | q in qs :: DistinctUrls(fetch(q))
    ensures DistinctUrls(FollowUpRounds(fetch, results, round, qs).results)
    decreases |qs|
  {
    if qs != [] {
      var init := qs[..|qs| - 1];
      assert forall q | q in init :: q in qs;
      FollowUpRoundsKeepDistinct(fetch, results, round, init);
      var prev := FollowUpRounds(fetch, results, round, init);
      var q := qs[|qs| - 1];
      if fetch(q) != [] {
        AppendDistinct(prev.results, fetch(q));
      }
    }
  }

  /** The filter compares only with earlier rounds: two results with the same
      new URL in one batch are both kept. */
  lemma BatchDuplicatesKept(r: SearchResult, existing: set<string>)
    requires r.url !in existing
    ensures NewResults([r, r], existing) == [r, r]
  {
    assert [r][1..] == [];
    assert NewResults([r], existing) == [r];
    assert [r, r][1..] == [r];
  }

  /** One pass of the loop body: the search for `q` (app.py's builder loop
      in Python), then the URL filter against everything gathered so far. */
  method SearchAndMerge(d: Dialect, search: SearchBackend, allResults: seq<SearchResult>, searchRound: int, q: string)
    returns (merged: seq<SearchResult>, lines: seq<Progress>)
    ensures Step(merged, lines) == FollowUpOne(FollowUpFetch(d, search), allResults, searchRound, q)
  {
    lines := [FollowUpSearch(searchRound, q)];
    var followUpResults;
    if d == Python {
      followUpResults := SearchSearxPy(search, q, 6);
    } else {
      followUpResults := SearchSearx(d, search, q, 6);
    }
    if |followUpResults| > 0 {
      var existingUrls := UrlsOf(allResults);
      var newResults := NewResults(followUpResults, existingUrls);
      merged := allResults + newResults;
      lines := lines + [NewResultsFound(|newResults|)];
    } else {
      merged := allResults;
      lines := lines + [NoNewResults];
    }
  }

  /** The loop shared by both sessions: for each query in turn the round
      number goes up, the search runs (at most six results) and the new
      results are appended. */
  method RunFollowUps(d: Dialect, search: SearchBackend, results: seq<SearchResult>, round: int, qs: seq<string>)
    returns (allResults: seq<SearchResult>, searchRound: int, log: seq<Progress>)
    ensures Step(allResults, log) == FollowUpRounds(FollowUpFetch(d, search), results, round, qs)
    ensures searchRound == round + |qs|
  {
    allResults, searchRound, log := results, round, [];
    for i := 0 to |qs|
      invariant Step(allResults, log) == FollowUpRounds(FollowUpFetch(d, search), results, round, qs[..i])
      invariant searchRound == round + i
    {
      FollowUpRoundsSnoc(FollowUpFetch(d, search), results, round, qs, i);
      searchRound := searchRound + 1;
      var lines;
      allResults, lines := SearchAndMerge(d, search, allResults, searchRound, qs[i]);
      log := log + lines;
    }
    assert qs[..|qs|] == qs;
  }
}
