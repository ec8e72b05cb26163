# Deep search engine, modelled in Dafny

This project models the search engine at the heart of the deep-search
application. The engine has two implementations:

- `DeepSearchService` in `lib/searchService.ts`, which runs an adaptive session.
- Its older Python twin, `DeepSearchEngine` in `app.py`, which runs a fixed number of rounds.

Both run a session of web searches against a SearXNG instance and ask a
language model to answer from the gathered results. The TypeScript session
works like this:

1. Run one initial search of at most 8 results.
2. Ask the model whether the results are complete. When its reply cannot be
   used, fall back to a fixed heuristic.
3. Run up to two of the suggested follow-up searches, at most 6 results
   each. Keep only results whose URL is new.
4. Repeat from step 2 until the judge stops the loop or the round counter
   reaches `maxDepth`.
5. Compile the results into a context grouped by engine, ask for the final
   answer, and tally the results per engine.

The Python session differs in two ways. It generates its follow-up queries
once, from the initial results. It then searches at most `max_depth - 1` of
them, numbered from round 2.

The model is written in the source's own form:

- Pure logic is written as functions, and lemmas prove properties of it:
  - result normalisation and trimming;
  - the JSON verdict check and the heuristic judge;
  - query filtering and the context text.
- The two sessions, the merge loop, the engine grouping and the section
  rendering are methods with loops. Each method's `ensures` ties it to the
  specification function. Lemmas prove the promised properties about that
  function.

The modules are:

| file | module | content |
|---|---|---|
| `common.dfy` | `Common` | `Option`, the two dialects, JavaScript / Python prefix slicing |
| `text.dfy` | `Text` | `trim`/`strip`, `.length`/`len`, `includes`, `indexOf`, `split`/`join`, case mapping |
| `results.dfy` | `Results` | raw and normalised results, `searchSearx` / `search_searx`, the URL filter |
| `completion.dfy` | `Completion` | the prompts and the completion backend |
| `judge.dfy` | `Judge` | `analyzeSearchCompleteness` |
| `followup.dfy` | `FollowUp` | `generateFollowUpQueries` / `generate_follow_up_queries` |
| `session.dfy` | `Session` | progress messages and the follow-up search-and-merge loop both sessions share |
| `context.dfy` | `Context` | `compileSearchContext` / `compile_search_context` |
| `adaptive.dfy` | `AdaptiveSearch` | `performAdaptiveSearch` |
| `deepsearch.dfy` | `DeepSearch` | `perform_deep_search` |

External services are parameters:

- The search backend is a function from query to `Option<seq<RawResult>>`.
  `None` stands for every failure the client absorbs.
- The completion backend is a function from `Prompt` to `Option<string>`.
  `None` stands for a reply that is not a string.
- `JSON.parse` is a function from text to `Option<JsonObject>`.

Progress messages are kept as the values they report, not as formatted text.

Three behaviours of the code are easy to miss:

- **Round counter.** A reader might expect `maxDepth` to bound the searches.
  The guard is checked once per verdict, and a verdict can start two
  searches, so the counter can end at `maxDepth + 1`.
  `DepthOvershoot` and `RoundsCanExceedDepth` prove this.
- **JSON extraction.** The span taken from the judge's reply runs from the
  first `{` to the last `}`, because the regular expression is greedy.
  `JsonSpanIsGreedy` proves this.
- **Range of `maxDepth`.** The range [2, 8] is checked only by the HTTP
  layer. The core accepts any integer. In Python, a `max_depth` of 0 or less
  makes the slice bound negative, so follow-up searches still run.

## Model

| member | source | states |
|---|---|---|
| Common.Take | lib/searchService.ts:68 | `slice(0, n)` / `[:n]` is a prefix of the list, as long as the bound clamped to the length (counted back from the end when negative), never longer than `n` for `n >= 0` |
| Text.Trim | lib/searchService.ts:220 | the trimmed text is an infix of the input with only white space (of that language) around it, and has no white space at either end |
| Text.TrimFixesTrimmed | lib/searchService.ts:220 | trimming text that has no white space at its ends returns it unchanged (idempotence) |
| Text.TrimDialectsAgree | app.py:71 | `strip()` and `trim()` agree on text without the characters only one of them counts as white space |
| Text.Utf16Length | lib/searchService.ts:221 | `.length` counts one code unit per character and two per character beyond U+FFFF: between the number of characters and twice it, and exactly the number of characters on text within U+FFFF |
| Text.Utf16LengthAppend | lib/searchService.ts:221 | the `.length` of a concatenation is the sum of the lengths |
| Text.Take16Spec | lib/searchService.ts:105 | `slice(0, n)` on a string keeps the longest prefix of at most `n` UTF-16 code units |
| Text.Take16Bmp | lib/searchService.ts:473 | on text within U+FFFF, cutting at `n` code units and cutting at `n` characters give the same prefix |
| Text.PrefixSpec | app.py:188 | in either language the cut keeps the longest prefix whose length, as that language counts it, is at most `n` |
| Text.ContainsIff | lib/searchService.ts:162-169 | `includes(sub)` holds exactly when `sub` occurs at some position |
| Text.IndexOfFirst | lib/searchService.ts:134 | the first `{` found is at or before every `{` of the reply |
| Text.LastIndexOfLast | lib/searchService.ts:134 | the last `}` found is at or after every `}` of the reply |
| Text.Split | lib/searchService.ts:218-219 | `split('\n')` gives at least one piece and no piece holds the separator |
| Text.JoinSplit | app.py:70 | joining the pieces of a split with the separator gives back the text |
| Text.SplitJoin | app.py:70 | splitting the join of separator-free pieces gives back the pieces |
| Text.NatText | lib/searchService.ts:471 | the number printed before an entry is a non-empty string of decimal digits |
| Text.NatTextValue | lib/searchService.ts:471 | the printed digits denote the number, with no leading zero |
| Results.NormalizeDefaults | lib/searchService.ts:68-74 | each absent field defaults: text to "", score to 0, engine to "unknown" in TypeScript (never empty) and "" in Python |
| Results.NormalizeDialectsAgree | app.py:33-39 | the two normalisations agree on every field but the engine, and fully exactly when the backend gave a non-empty engine name |
| Results.SearchSearx | lib/searchService.ts:46-80 | at most `maxResults` results, each the normalisation of the backend's entry at the same position; none on any failure |
| Results.SearchSearxPy | app.py:12-48 | the loop that builds `enhanced_results` yields the same list as the specification of the search |
| Results.QuickSearch | lib/searchService.ts:484-486 | at most three results, none with an empty engine, as many as the backend gave up to three |
| Results.NewResultsSpec | lib/searchService.ts:363-367 | the filter keeps every result of the batch with an unknown URL, as often as it occurs and in batch order, and drops every result with a known URL |
| Judge.Clamp | lib/searchService.ts:152-154 | the confidence lies in [0, 1] and equals the model's value when that already lies in [0, 1] |
| Judge.ClampExamples | lib/searchService.ts:153 | 1.7 clamps to 1, -0.3 to 0, 0.25 stays |
| Judge.JsonSpanSpec | lib/searchService.ts:134-137 | a JSON span exists exactly when some `{` precedes some `}`, and it starts with `{` and ends with `}` |
| Judge.JsonSpanIsGreedy | lib/searchService.ts:134 | the span runs from the reply's first `{` to its last `}`, covering every brace pair |
| Judge.ValidateVerdict | lib/searchService.ts:139-155 | a verdict exists exactly when `isComplete` is a boolean, and carries that boolean; the reason is the model's when truthy, else "AI analysis completed"; the suggestions are the first `min(3, n)` items of the model's array of `n` (none when not an array); the confidence is the model's number clamped to [0, 1], else 0.5 |
| Judge.HeuristicShape | lib/searchService.ts:160-185 | the fallback's confidence is 0.7 when complete and 0.4 otherwise; complete means no suggestions, otherwise three suggestions extending the query |
| Judge.HeuristicCompleteIff | lib/searchService.ts:161-172 | the fallback is complete exactly when there are at least 15 results, a recent one, a long technical one and the round is at least 3 |
| Judge.HeuristicMonotone | lib/searchService.ts:161-172 | more results and a later round keep a complete fallback verdict complete |
| Judge.JudgeDigest | lib/searchService.ts:101-105 | the digest the judge sees is the longest prefix, at most 2000 UTF-16 code units, of the first ten results' "title: content" lines joined by newlines |
| Judge.AnalyzeSearchCompleteness | lib/searchService.ts:82-187 | whatever the backends do: confidence in [0, 1], at most three suggestions, a truthy reason; with no results, the fixed incomplete verdict with confidence 0 and the "basics" and "overview" queries |
| Judge.NoResultsIgnoresBackends | lib/searchService.ts:92-99 | with no results the verdict does not depend on the round or on the backends |
| Judge.FallbackExactlyOnFailure | lib/searchService.ts:130-186 | the heuristic answers exactly when the reply is not a string, has no span, fails to parse or lacks a boolean `isComplete`; otherwise the validated verdict does |
| FollowUp.FollowUpDigest | lib/searchService.ts:199-203 | the digest embedded in the prompt is the longest prefix, at most 1000 long in the dialect's length (UTF-16 code units or characters), of the first five results' "title content" parts joined by spaces |
| FollowUp.TrimAllSpec | lib/searchService.ts:220 | each line is trimmed: the result has only white space around it in its line, none at its ends |
| FollowUp.LongEnoughOrder | lib/searchService.ts:221 | the filter keeps lines in their original order |
| FollowUp.LongEnoughCounts | lib/searchService.ts:221 | the filter keeps each line longer than 10 as often as it occurs and no shorter line |
| FollowUp.TrimAllSingleLines | lib/searchService.ts:219-220 | trimming the pieces of a split leaves no line break in them |
| FollowUp.FilterQueriesSpec | lib/searchService.ts:218-222 | the queries are the first four of the reply's trimmed lines longer than 10 (all of them when fewer), in reply order; each is trimmed and on one line |
| FollowUp.GenerateFollowUpQueries | lib/searchService.ts:189-232 | no queries for no results; otherwise the filtered lines of the model's reply, or the three fixed fallback queries when the reply is not a string; always at most four, each longer than 10 (in the dialect's length) |
| FollowUp.FilterQueriesRoundTrip | app.py:70-71 | one to four acceptable queries written one per line are returned unchanged by the filter, in both dialects |
| FollowUp.JoinKeepsTrimmed | app.py:70 | joining non-empty trimmed lines gives non-empty trimmed text, so Python's whole-reply `strip()` changes nothing |
| Session.Searches | lib/searchService.ts:356 | the searches listed from a log are search messages, no more than the log holds |
| Session.SearchesAppend | lib/searchService.ts:356 | the searches of two logs in sequence are those of each, in order |
| Session.FollowUpOneSpec | lib/searchService.ts:361-371 | one follow-up search keeps the results so far as a prefix, adds at most what the search returned, only with unknown URLs, and reports exactly one search |
| Session.FollowUpRoundsExtend | lib/searchService.ts:353-372 | the searches only append, every result added has a URL the earlier results lack, and each query adds at most six |
| Session.FollowUpRoundsNumbered | lib/searchService.ts:353-356 | one search reported per query, in order, numbered from the next round |
| Session.FollowUpRoundsKeepDistinct | lib/searchService.ts:363-367 | when the earlier results and each batch have distinct URLs, the merged results do too |
| Session.BatchDuplicatesKept | lib/searchService.ts:365-366 | a URL repeated inside one new batch is kept twice, since the filter looks only at earlier rounds |
| Session.SearchAndMerge | app.py:138-146 | one pass of the merge loop body gives the specified result list and messages |
| Session.RunFollowUps | lib/searchService.ts:353-372 | the merge loop gives the specified results and log, and advances the round once per query |
| Context.EnginesSpec | lib/searchService.ts:459-466 | the grouping keys are distinct and are exactly the engine keys of the results; a key not listed has no results |
| Context.EnginesFirstSeen | lib/searchService.ts:459-468 | the keys come in order of first appearance |
| Context.SectionsShape | lib/searchService.ts:468-478 | one section per engine in first-seen order, each with that engine's first results, at most five, numbered from 1; a snippet exactly when the content is non-empty, and then the content's longest prefix at most 200 long in the dialect's length |
| Context.ContextSentinelIffEmpty | lib/searchService.ts:452-454 | the "No search results available." text is returned exactly for an empty list |
| Context.GroupingAgrees | app.py:176-181 | the two groupings agree on results that all carry an engine name |
| Context.ContextDialectsAgree | app.py:168-192 | the two implementations print the same context for results that all carry an engine name and whose contents stay within U+FFFF |
| Context.GroupByEngine | lib/searchService.ts:459-466 | the grouping loop gives a map holding, for each key in first-seen order, that key's results in order, and no other key |
| Context.RenderEntry | lib/searchService.ts:470-476 | an entry's lines are its number and title, the cut snippet when the content is non-empty, its URL and a blank line |
| Context.RenderSection | lib/searchService.ts:469-477 | one engine's lines are its header and the lines of its first five entries |
| Context.CompileSearchContext | lib/searchService.ts:451-481 | the compiled text is the specified context, in both dialects |
| AdaptiveSearch.AdaptiveRoundsUnfold | lib/searchService.ts:336-373 | the loop's one-step equation, a proof helper: stop at the depth, on a complete verdict, or with no suggestions; otherwise search up to two suggestions and continue from the advanced round |
| AdaptiveSearch.StepOfSpec | lib/searchService.ts:353-372 | the session's search step only appends fresh URLs and numbers its searches from the next round |
| AdaptiveSearch.AdaptiveRoundsExtend | lib/searchService.ts:336-373 | the loop keeps the results it starts with and adds only results with new URLs |
| AdaptiveSearch.AdaptiveRoundsCount | lib/searchService.ts:336-377 | the round counter goes up by the number of searches reported, numbered one by one, and ends at most one above `maxDepth` |
| AdaptiveSearch.AdaptiveRoundsExit | lib/searchService.ts:336-350 | the loop ends below `maxDepth` only on a complete verdict or a verdict without suggestions, and that is the last message |
| AdaptiveSearch.DepthOvershoot | lib/searchService.ts:336-354 | with a completion backend whose replies are not strings, few results and one round left, the fallback's suggestions push the counter to `maxDepth + 1` |
| AdaptiveSearch.EngineCountsSum | lib/searchService.ts:423-427 | the per-engine counts add up to the number of results |
| AdaptiveSearch.TallySources | lib/searchService.ts:423-427 | the tally loop gives, for each engine key, the number of its results |
| AdaptiveSearch.ReportSearches | lib/searchService.ts:375-429 | the messages after the loop report no search |
| AdaptiveSearch.ReportRounds | lib/searchService.ts:375-437 | the rounds reported are those the loop reached, one more than the searches the log lists |
| AdaptiveSearch.AdaptiveSearchNoResults | lib/searchService.ts:314-331 | with no initial results the session returns no results, "No initial results found.", a summary of 0 results, an empty breakdown and 1 round, after reporting only its start and the initial search |
| AdaptiveSearch.AdaptiveSearchResults | lib/searchService.ts:318-373 | no results exactly when the initial search finds none; otherwise the initial results come first and every later result has a new URL |
| AdaptiveSearch.StepOfKeepsDistinct | lib/searchService.ts:353-372 | the session's search step keeps URLs distinct when every batch has distinct URLs |
| AdaptiveSearch.AdaptiveRoundsKeepDistinct | lib/searchService.ts:336-373 | a loop whose step keeps URLs distinct ends with distinct URLs |
| AdaptiveSearch.AdaptiveSearchDistinct | lib/searchService.ts:318-373 | distinct URLs in the initial results and in each batch give distinct URLs in the session's results |
| AdaptiveSearch.AdaptiveSearchSummary | lib/searchService.ts:423-439 | the total is the number of results; the breakdown has one entry per engine key, counting its results, and the counts add up to the total |
| AdaptiveSearch.AdaptiveSearchRounds | lib/searchService.ts:336-377 | the rounds reported lie between 1 and `maxDepth + 1` and are one more than the searches the log reports |
| AdaptiveSearch.RoundsCanExceedDepth | lib/searchService.ts:336-377 | with `maxDepth` 2 and a completion backend whose replies are not strings, the session reports 3 rounds |
| AdaptiveSearch.AdaptiveRound | lib/searchService.ts:338-372 | one pass of the `while` body preserves the loop's end, and advances the round when the loop continues |
| AdaptiveSearch.AdaptiveLoop | lib/searchService.ts:336-373 | the `while` loop ends in the state the loop specification gives |
| AdaptiveSearch.Conclude | lib/searchService.ts:375-439 | the depth notice, final answer, breakdown and summary are those specified |
| AdaptiveSearch.PerformAdaptiveSearch | lib/searchService.ts:300-440 | the session returns the specified response and progress |
| DeepSearch.DeepQueriesBound | app.py:132-134 | at most four queries are searched, at most `max_depth - 1` when that is positive, none for no results |
| DeepSearch.DeepQueriesNegativeDepth | app.py:134 | for `max_depth <= 0` the slice bound counts back from the end of the generated queries |
| DeepSearch.DeepReportSearches | app.py:148-149 | the messages around the follow-up searches report no search |
| DeepSearch.DeepSearchNoResults | app.py:117-127 | with no initial results the session returns no results and "No initial results found.", after reporting only its start and the initial search |
| DeepSearch.DeepSearchResults | app.py:118-143 | no results exactly when the initial search finds none; the initial results first, later ones with new URLs, at most 32 in all |
| DeepSearch.DeepSearchRounds | app.py:132-135 | one search reported per searched query, numbered from round 2, at most four and at most `max_depth - 1` |
| DeepSearch.ZeroDepthStillSearches | app.py:134 | with `max_depth` 0 and a completion backend whose replies are not strings, two follow-up searches run |
| DeepSearch.DeepSearchDistinct | app.py:139-143 | distinct URLs in the initial results and in each batch give distinct URLs overall |
| DeepSearch.DeepRun | app.py:132-166 | the follow-up phase gives the specified results, answer and messages |
| DeepSearch.PerformDeepSearch | app.py:115-166 | the session returns the specified results, answer and progress, with the fixed answer for no initial results |

## Left out

- I/O is left out: HTTP requests, timeouts, status codes, the one-second
  rate-limit pauses, console output and the `onProgress` callback's text.
  The searches and the model are parameters. Progress messages are kept as
  the values they carry.
- Prompt text is left out: today's date, the system message, the configured
  prefix, temperatures, the model name and `max_tokens`. Each prompt is one
  constructor carrying the values it embeds.
- `JSON.parse` is a parameter, not modelled, because the engine only uses its
  success or failure and the fields it returns.
- Array items in the verdict are kept as strings. A template literal turns
  non-string items into text, and that conversion is not modelled.
- `Text.Lower`, `Text.Upper` map ASCII letters only. Full Unicode case
  mapping is not modelled.
- The `score` field's `|| 0` is modelled only for absent scores. `NaN` and
  non-number values are not modelled.
- Non-string fields from the search backend are modelled only where they
  act like an absent field:
  - In TypeScript, `r.title || ''` keeps truthy non-string values (non-zero
    numbers, `true`, objects), which are not modelled; `null`, `0` and
    `false` become the default, as for an absent field, which the model's
    `None` covers.
  - In Python, `r.get('title', '')` returns `None` for a `null` field, and
    the concatenation at app.py:56 then raises an uncaught `TypeError`;
    that failure is not modelled.
- Engine names are assumed to be ordinary keys. `Object.entries` lists
  integer-like keys first; the grouping is modelled in insertion order,
  which is Python's dict order.
- Engine names that are properties every object inherits (`__proto__`,
  `constructor`, `toString`, `hasOwnProperty`, ...) are not modelled. For
  such a name `byEngine[engine]` is already truthy, so `.push` throws
  (lib/searchService.ts:462-465), and the tally adds 1 to a function,
  giving text (lib/searchService.ts:426).
- Results.SearchSearx: in Python a `results` field that is not a list, or
  entries that are not dictionaries, raise an uncaught `TypeError` or
  `AttributeError` (app.py:26-38); the model instead returns no results
  (the backend's `None`). TypeScript behaves differently: a `null` entry or
  a `results` that is not an array throws inside the `try` and gives no
  results, but an entry that is a number, string, boolean or array becomes
  a result with every field defaulted (lib/searchService.ts:68-74), which
  the model expresses as a `RawResult` with every field absent.
- Text.Take16: `slice` can cut between the two code units of a character
  beyond U+FFFF and keep a lone surrogate. A Dafny `char` cannot hold half
  of such a character, so the model drops the whole character.
- `maxDepth` values that are not integers are not modelled: the guard would
  compare them as numbers.
- The legacy `performDeepSearch` wrapper (lib/searchService.ts:443-449)
  calls `performAdaptiveSearch` with another default depth.
- Python's module-level `search_searx` and `ask_local_ai` wrappers
  and its `__main__` block are console helpers.
- `askAI` / `ask_ai` are the completion backend: a failed request answers
  with the text "AI response failed: ..." (lib/searchService.ts:296,
  app.py:113), which the engine treats like any other reply. Only a reply
  content that is not a string is `None`.
- The user interface, the API routes and the settings pages are not part of
  this model. The `maxDepth` range check in the API route is therefore not
  a precondition here.
- Concurrency: the sessions are sequential, since each `await` completes
  before the next step.
