/** Search results: the raw entries the search backend returns, their
    normalisation by `searchSearx` / `search_searx`, and the URL-based
    filtering used when rounds are merged. */
module Results {
  import opened Common

  /** One entry of the backend's `results` array; an absent field is `None`. */
  datatype RawResult = RawResult(
    title: Option<string>,
    content: Option<string>,
    url: Option<string>,
    engine: Option<string>,
    score: Option<real>)

  /** A normalised result. Within one session the `url` is its identity. */
  datatype SearchResult = SearchResult(
    title: string,
    content: string,
    url: string,
    engine: string,
    score: real)

  /** The search backend, as a function of the query text. `None` stands for
      every failure the client absorbs (network error, timeout, non-2xx status,
      a body that is not JSON) and for a body without a `results` list. */
  type SearchBackend = string -> Option<seq<RawResult>>

  /** A field with the source's `r.f || ''` (TypeScript) or `r.get(f, '')`
      (Python) default; for strings the two agree, since an empty string
      default gives an empty string either way. */
  function TextOr(f: Option<string>): string { f.GetOr("") }

  /** The engine name: TypeScript's `r.engine || 'unknown'` also replaces an
      empty name, while Python's `r.get('engine', '')` keeps it. */
  function EngineOf(d: Dialect, raw: RawResult): string {
    match d
    case TypeScript => if raw.engine.None? || raw.engine.value == "" then "unknown" else raw.engine.value
    case Python => raw.engine.GetOr("")
  }

  /** One entry of the backend's list mapped to a result. */
  function Normalize(d: Dialect, raw: RawResult): SearchResult {
    SearchResult(TextOr(raw.title), TextOr(raw.content), TextOr(raw.url), EngineOf(d, raw), raw.score.GetOr(0.0))
  }

  /** Every field defaults as the dialect says: text to the empty string,
      the score to 0, and the engine to "unknown" (TypeScript, which also
      never yields an empty engine) or to "" (Python). */
  lemma NormalizeDefaults(d: Dialect, raw: RawResult)
    ensures var r := Normalize(d, raw);
      && (raw.title.None? ==> r.title == "") && (raw.title.Some? ==> r.title == raw.title.value)
      && (raw.content.None? ==> r.content == "") && (raw.content.Some? ==> r.content == raw.content.value)
      && (raw.url.None? ==> r.url == "") && (raw.url.Some? ==> r.url == raw.url.value)
      && (raw.score.None? ==> r.score == 0.0) && (raw.score.Some? ==> r.score == raw.score.value)
      && (d == TypeScript ==> r.engine != "" && (raw.engine.None? ==> r.engine == "unknown"))
      && (d == Python ==> raw.engine.None? ==> r.engine == "")
      && (raw.engine.Some? && raw.engine.value != "" ==> r.engine == raw.engine.value)
  {
  }

  /** The two normalisations differ only in the engine, and only when the
      backend gave no engine name or an empty one. */
  lemma NormalizeDialectsAgree(raw: RawResult)
    ensures Normalize(TypeScript, raw).(engine := "") == Normalize(Python, raw).(engine := "")
    ensures Normalize(TypeScript, raw) == Normalize(Python, raw)
        <==> raw.engine.Some? && raw.engine.value != ""
  {
  }

  /** `searchSearx(query, maxResults)`: the backend's list cut to `maxResults`
      and normalised; any failure gives no results. */
  function SearchSearx(d: Dialect, backend: SearchBackend, query: string, maxResults: int): (rs: seq<SearchResult>)
    ensures maxResults >= 0 ==> |rs| <= maxResults
    ensures backend(query).None? ==> rs == []
    ensures backend(query).Some? ==>
      && |rs| == |Take(backend(query).value, maxResults)|
      && forall i | 0 <= i < |rs| :: rs[i] == Normalize(d, backend(query).value[i])
  {
    match backend(query)
    case None => []
    case Some(raws) =>
      var kept := Take(raws, maxResults);
      seq(|kept|, i requires 0 <= i < |kept| => Normalize(d, kept[i]))
  }

  /** `quickSearch(query)`: a single search of at most three results, none of
      them with an empty engine name. */
  function QuickSearch(backend: SearchBackend, query: string): (rs: seq<SearchResult>)
    ensures |rs| <= 3
    ensures forall i | 0 <= i < |rs| :: rs[i].engine != ""
    ensures backend(query).Some? ==> |rs| == Min(3, |backend(query).value|)
  {
    var rs := SearchSearx(TypeScript, backend, query, 3);
    assert forall i | 0 <= i < |rs| :: rs[i] == Normalize(TypeScript, backend(query).value[i]);
    rs
  }

  /** app.py's `search_searx`, which builds `enhanced_results` one entry at a
      time. */
  method SearchSearxPy(backend: SearchBackend, query: string, maxResults: int) returns (enhanced: seq<SearchResult>)
    ensures enhanced == SearchSearx(Python, backend, query, maxResults)
  {
    var reply := backend(query);
    if reply.None? {
      return [];
    }
    var results := reply.value;
    var kept := Take(results, maxResults);
    enhanced := [];
    for i := 0 to |kept|
      invariant |enhanced| == i
      invariant forall k | 0 <= k < i :: enhanced[k] == Normalize(Python, kept[k])
    {
      enhanced := enhanced + [Normalize(Python, kept[i])];
    }
  }

  /** The URLs of a result list (`new Set(allResults.map(r => r.url))`). */
  function UrlsOf(rs: seq<SearchResult>): set<string> {
    set r | r in rs :: r.url
  }

  lemma UrlsOfAppend(a: seq<SearchResult>, b: seq<SearchResult>)
    ensures UrlsOf(a + b) == UrlsOf(a) + UrlsOf(b)
  {
    forall u | u in UrlsOf(a + b) ensures u in UrlsOf(a) + UrlsOf(b) {
      var r :| r in a + b && r.url == u;
    }
  }

  /** `batch.filter(r => !existingUrls.has(r.url))`: the results of a batch
      whose URL is not among `existing`, in batch order, duplicates within the
      batch kept. */
  function NewResults(batch: seq<SearchResult>, existing: set<string>): seq<SearchResult>
    decreases |batch|
  {
    if batch == [] then []
    else
      var rest := NewResults(batch[1..], existing);
      if batch[0].url in existing then rest else [batch[0]] + rest
  }

  /** The filter keeps each result of the batch whose URL is new as often as
      the batch has it, in batch order, and drops every result whose URL is
      known. */
  lemma {:induction false} NewResultsSpec(batch: seq<SearchResult>, existing: set<string>)
    ensures var survivors := NewResults(batch, existing);
      && (forall r :: multiset(survivors)[r] == if r.url in existing then 0 else multiset(batch)[r])
      && (forall r | r in survivors :: r.url !in existing && r in batch)
      && Subsequence(survivors, batch)
      && |survivors| <= |batch|
    decreases |batch|
  {
    if batch != [] {
      NewResultsSpec(batch[1..], existing);
      assert batch == [batch[0]] + batch[1..];
      var rest := NewResults(batch[1..], existing);
      if batch[0].url !in existing {
        assert ([batch[0]] + rest)[1..] == rest;
      }
    }
  }
}
