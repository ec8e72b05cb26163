/** The context compiler (`compileSearchContext` / `compile_search_context`):
    results grouped by engine in order of first appearance, at most five per
    engine, rendered as numbered entries with 200-character snippets. */
module Context {
  import opened Common
  import opened Text
  import opened Results

  /** The text returned for an empty result list. */
  const NoResultsText: string := "No search results available."

  /** The grouping key: TypeScript's `result.engine || 'unknown'`, Python's
      `result.get('engine', 'unknown')`, which keeps an empty engine name. */
  function EngineKey(d: Dialect, r: SearchResult): string {
    if d == TypeScript && r.engine == "" then "unknown" else r.engine
  }

  /** The keys of `byEngine` in insertion order: each engine once, in the
      order of its first result. */
  function Engines(d: Dialect, rs: seq<SearchResult>): seq<string>
    decreases |rs|
  {
    if rs == [] then []
    else
      var prev := Engines(d, rs[..|rs| - 1]);
      var k := EngineKey(d, rs[|rs| - 1]);
      if k in prev then prev else prev + [k]
  }

  /** `byEngine[k]`: the results with engine key `k`, in their original order. */
  function OfEngine(d: Dialect, rs: seq<SearchResult>, k: string): seq<SearchResult>
    decreases |rs|
  {
    if rs == [] then []
    else
      var last := rs[|rs| - 1];
      OfEngine(d, rs[..|rs| - 1], k) + (if EngineKey(d, last) == k then [last] else [])
  }

  /** Every engine key of the results is listed exactly once, and nothing else
      is; an unlisted key has no results. */
  lemma {:induction false} EnginesSpec(d: Dialect, rs: seq<SearchResult>)
    ensures forall i, j | 0 <= i < j < |Engines(d, rs)| :: Engines(d, rs)[i] != Engines(d, rs)[j]
    ensures forall k :: k in Engines(d, rs) <==> exists i :: 0 <= i < |rs| && EngineKey(d, rs[i]) == k
    ensures forall k | k !in Engines(d, rs) :: OfEngine(d, rs, k) == []
    decreases |rs|
  {
    if rs != [] {
      var init := rs[..|rs| - 1];
      EnginesSpec(d, init);
      forall k ensures k in Engines(d, rs) <==> exists i :: 0 <= i < |rs| && EngineKey(d, rs[i]) == k {
        if exists i :: 0 <= i < |init| && EngineKey(d, init[i]) == k {
          var i :| 0 <= i < |init| && EngineKey(d, init[i]) == k;
          assert rs[i] == init[i];
        }
        if exists i :: 0 <= i < |rs| && EngineKey(d, rs[i]) == k {
          var i :| 0 <= i < |rs| && EngineKey(d, rs[i]) == k;
          if i < |init| {
            assert init[i] == rs[i];
          }
        }
      }
    }
  }

  /** First-seen order: the engines of any prefix of the results are a prefix
      of the engines of all of them, so an engine whose first result comes
      earlier is listed earlier. */
  lemma {:induction false} EnginesFirstSeen(d: Dialect, rs: seq<SearchResult>, n: nat)
    requires n <= |rs|
    ensures Engines(d, rs[..n]) <= Engines(d, rs)
    ensures n < |rs| ==> EngineKey(d, rs[n]) in Engines(d, rs[..n + 1])
    decreases |rs| - n
  {
    if n < |rs| {
      assert rs[..n + 1][..n] == rs[..n];
      EnginesFirstSeen(d, rs, n + 1);
    } else {
      assert rs[..n] == rs;
    }
  }

  /** One entry as printed: its 1-based number, title, snippet and URL. */
  datatype Entry = Entry(number: nat, title: string, snippet: Option<string>, url: string)

  /** One engine's block: a header and its entries. */
  datatype Section = Section(engine: string, entries: seq<Entry>)

  /** The `i`-th (0-based) entry of an engine: the snippet is the content cut
      to 200 units of the dialect's length, and absent when the content is
      empty. */
  function EntryOf(d: Dialect, i: nat, r: SearchResult): Entry {
    Entry(i + 1, r.title, if r.content == "" then None else Some(Prefix(d, r.content, 200)), r.url)
  }

  /** The entries of the results shown for one engine, numbered in order. */
  function EntriesOf(d: Dialect, shown: seq<SearchResult>): seq<Entry> {
    seq(|shown|, i requires 0 <= i < |shown| => EntryOf(d, i, shown[i]))
  }

  function SectionOf(d: Dialect, rs: seq<SearchResult>, k: string): Section {
    Section(k, EntriesOf(d, Take(OfEngine(d, rs, k), 5)))
  }

  /** The blocks of the digest, one per engine in first-seen order. */
  function Sections(d: Dialect, rs: seq<SearchResult>): seq<Section> {
    var es := Engines(d, rs);
    seq(|es|, i requires 0 <= i < |es| => SectionOf(d, rs, es[i]))
  }

  /** The structure of the digest: one section per engine, in first-seen
      order; each holds that engine's first results, at most five, numbered
      from 1; an entry has a snippet exactly when its content is nonempty, and
      the snippet is the longest prefix of the content that is at most 200
      long as the dialect counts length. */
  lemma SectionsShape(d: Dialect, rs: seq<SearchResult>)
    ensures var ss := Sections(d, rs);
      && |ss| == |Engines(d, rs)|
      && forall i | 0 <= i < |ss| ::
        var members := OfEngine(d, rs, ss[i].engine);
        && ss[i].engine == Engines(d, rs)[i]
        && |ss[i].entries| == Min(5, |members|)
        && forall j | 0 <= j < |ss[i].entries| ::
          && ss[i].entries[j].number == j + 1
          && ss[i].entries[j].title == members[j].title
          && ss[i].entries[j].url == members[j].url
          && EngineKey(d, members[j]) == ss[i].engine
          && (ss[i].entries[j].snippet.Some? <==> members[j].content != "")
          && (ss[i].entries[j].snippet.Some? ==>
                var snippet := ss[i].entries[j].snippet.value;
                && snippet == Prefix(d, members[j].content, 200)
                && snippet <= members[j].content
                && Length(d, snippet) <= 200)
  {
    var ss := Sections(d, rs);
    forall i, j | 0 <= i < |ss| && 0 <= j < |ss[i].entries|
      ensures EngineKey(d, OfEngine(d, rs, ss[i].engine)[j]) == ss[i].engine
      ensures var content := OfEngine(d, rs, ss[i].engine)[j].content;
        Prefix(d, content, 200) <= content && Length(d, Prefix(d, content, 200)) <= 200
    {
      OfEngineKeys(d, rs, ss[i].engine);
      PrefixSpec(d, OfEngine(d, rs, ss[i].engine)[j].content, 200);
    }
  }

  lemma {:induction false} OfEngineKeys(d: Dialect, rs: seq<SearchResult>, k: string)
    ensures forall j | 0 <= j < |OfEngine(d, rs, k)| :: EngineKey(d, OfEngine(d, rs, k)[j]) == k
    decreases |rs|
  {
    if rs != [] {
      OfEngineKeys(d, rs[..|rs| - 1], k);
    }
  }

  function Header(engine: string): string {
    "\n=== " + Upper(engine) + " RESULTS ==="
  }

  /** An entry's lines: the numbered title, the snippet followed by "..."
      when there is one, the URL, and a blank line. */
  function EntryLines(e: Entry): seq<string> {
    [NatText(e.number) + ". " + e.title]
    + (if e.snippet.Some? then ["   " + e.snippet.value + "..."] else [])
    + ["   URL: " + e.url, ""]
  }

  function EntriesLines(es: seq<Entry>): seq<string>
    decreases |es|
  {
    if es == [] then [] else EntriesLines(es[..|es| - 1]) + EntryLines(es[|es| - 1])
  }

  function SectionLines(s: Section): seq<string> {
    [Header(s.engine)] + EntriesLines(s.entries)
  }

  /** `contextParts`. */
  function Lines(ss: seq<Section>): seq<string>
    decreases |ss|
  {
    if ss == [] then [] else Lines(ss[..|ss| - 1]) + SectionLines(ss[|ss| - 1])
  }

  /** The compiled context. */
  function ContextText(d: Dialect, rs: seq<SearchResult>): string {
    if rs == [] then NoResultsText else Join(Lines(Sections(d, rs)), '\n')
  }

  /** The fixed text is returned exactly for an empty result list: any other
      digest opens with the blank line of its first header. */
  lemma ContextSentinelIffEmpty(d: Dialect, rs: seq<SearchResult>)
    ensures ContextText(d, rs) == NoResultsText <==> rs == []
  {
    if rs != [] {
      EnginesSpec(d, rs);
      assert EngineKey(d, rs[0]) in Engines(d, rs);
      var ss := Sections(d, rs);
      LinesStart(ss);
      var parts := Lines(ss);
      assert parts[0][0] == '\n';
      assert Join(parts, '\n')[0] == '\n';
      assert NoResultsText[0] == 'N';
    }
  }

  lemma {:induction false} LinesStart(ss: seq<Section>)
    requires |ss| >= 1
    ensures |Lines(ss)| >= 1 && Lines(ss)[0] == Header(ss[0].engine)
    decreases |ss|
  {
    if |ss| > 1 {
      LinesStart(ss[..|ss| - 1]);
    }
  }

  /** The two implementations print the same digest for results that all
      carry an engine name and whose contents stay within U+FFFF; they differ
      in how an empty name is grouped, and in where a snippet is cut when the
      content holds characters beyond U+FFFF. */
  lemma ContextDialectsAgree(rs: seq<SearchResult>)
    requires forall i | 0 <= i < |rs| :: rs[i].engine != ""
    requires forall i | 0 <= i < |rs| :: Bmp(rs[i].content)
    ensures ContextText(TypeScript, rs) == ContextText(Python, rs)
  {
    GroupingAgrees(rs);
    forall k ensures SectionOf(TypeScript, rs, k) == SectionOf(Python, rs, k) {
      var shown := Take(OfEngine(Python, rs, k), 5);
      forall i | 0 <= i < |shown| ensures EntryOf(TypeScript, i, shown[i]) == EntryOf(Python, i, shown[i]) {
        OfEngineFrom(Python, rs, k);
        assert shown[i] in OfEngine(Python, rs, k);
        var j :| 0 <= j < |rs| && rs[j] == shown[i];
        Take16Bmp(rs[j].content, 200);
      }
    }
    assert Sections(TypeScript, rs) == Sections(Python, rs);
  }

  /** Every result grouped under an engine is one of the results. */
  lemma {:induction false} OfEngineFrom(d: Dialect, rs: seq<SearchResult>, k: string)
    ensures forall r | r in OfEngine(d, rs, k) :: r in rs
    decreases |rs|
  {
    if rs != [] {
      OfEngineFrom(d, rs[..|rs| - 1], k);
    }
  }

  lemma {:induction false} GroupingAgrees(rs: seq<SearchResult>)
    requires forall i | 0 <= i < |rs| :: rs[i].engine != ""
    ensures Engines(TypeScript, rs) == Engines(Python, rs)
    ensures forall k :: OfEngine(TypeScript, rs, k) == OfEngine(Python, rs, k)
    decreases |rs|
  {
    if rs != [] {
      GroupingAgrees(rs[..|rs| - 1]);
    }
  }

  /** The grouping of `rs[..i]`, kept in `byEngine` with keys in `order`. */
  ghost predicate Grouped(d: Dialect, rs: seq<SearchResult>, byEngine: map<string, seq<SearchResult>>, order: seq<string>) {
    && order == Engines(d, rs)
    && (forall k :: k in byEngine <==> k in order)
    && (forall k | k in byEngine :: byEngine[k] == OfEngine(d, rs, k))
  }

  /** Adding result `i` under its key, after creating the key's empty list
      when it is new, extends the grouping by that result. */
  lemma GroupStep(d: Dialect, rs: seq<SearchResult>, i: nat,
                  byEngine: map<string, seq<SearchResult>>, order: seq<string>)
    requires i < |rs| && Grouped(d, rs[..i], byEngine, order)
    ensures var engine := EngineKey(d, rs[i]);
      var started := if engine in byEngine then byEngine else byEngine[engine := []];
      var order' := if engine in byEngine then order else order + [engine];
      Grouped(d, rs[..i + 1], started[engine := started[engine] + [rs[i]]], order')
  {
    EnginesSnoc(d, rs, i);
    OfEngineSnoc(d, rs, i);
    EnginesSpec(d, rs[..i]);
  }

  lemma EnginesSnoc(d: Dialect, rs: seq<SearchResult>, i: nat)
    requires i < |rs|
    ensures var prev := Engines(d, rs[..i]); var k := EngineKey(d, rs[i]);
      Engines(d, rs[..i + 1]) == if k in prev then prev else prev + [k]
  {
    assert rs[..i + 1][..i] == rs[..i];
  }

  lemma OfEngineSnoc(d: Dialect, rs: seq<SearchResult>, i: nat)
    requires i < |rs|
    ensures forall k :: (OfEngine(d, rs[..i + 1], k)
      == OfEngine(d, rs[..i], k) + (if EngineKey(d, rs[i]) == k then [rs[i]] else []))
  {
    assert rs[..i + 1][..i] == rs[..i];
  }

  /** The first pass of `compileSearchContext`: `byEngine` filled result by
      result, with `order` recording the keys in insertion order. */
  method GroupByEngine(d: Dialect, results: seq<SearchResult>)
    returns (byEngine: map<string, seq<SearchResult>>, order: seq<string>)
    ensures order == Engines(d, results)
    ensures forall k :: k in byEngine <==> k in order
    ensures forall k | k in byEngine :: byEngine[k] == OfEngine(d, results, k)
  {
    byEngine := map[];
    order := [];
    for i := 0 to |results|
      invariant Grouped(d, results[..i], byEngine, order)
    {
      GroupStep(d, results, i, byEngine, order);
      var result := results[i];
      var engine := EngineKey(d, result);
      if engine !in byEngine {
        byEngine := byEngine[engine := []];
        order := order + [engine];
      }
      byEngine := byEngine[engine := byEngine[engine] + [result]];
    }
    assert results[..|results|] == results;
  }

  /** The body of the `forEach` over an engine's results: the lines of the
      `i`-th (0-based) entry. */
  method RenderEntry(d: Dialect, i: nat, result: SearchResult) returns (lines: seq<string>)
    ensures lines == EntryLines(EntryOf(d, i, result))
  {
    lines := [NatText(i + 1) + ". " + result.title];
    if result.content != "" {
      lines := lines + ["   " + Prefix(d, result.content, 200) + "..."];
    }
    lines := lines + ["   URL: " + result.url, ""];
  }

  /** One engine's block of `contextParts`: the header, then each of the
      first five results as numbered lines. */
  method RenderSection(d: Dialect, engine: string, members: seq<SearchResult>) returns (lines: seq<string>)
    ensures lines == SectionLines(Section(engine, EntriesOf(d, Take(members, 5))))
  {
    var shown := Take(members, 5);
    lines := [Header(engine)];
    for i := 0 to |shown|
      invariant lines == [Header(engine)] + EntriesLines(EntriesOf(d, shown)[..i])
    {
      var entry := RenderEntry(d, i, shown[i]);
      EntriesLinesSnoc(d, shown, i);
      lines := lines + entry;
    }
    assert EntriesOf(d, shown)[..|shown|] == EntriesOf(d, shown);
  }

  /** One more shown result adds its entry's lines. */
  lemma EntriesLinesSnoc(d: Dialect, shown: seq<SearchResult>, i: nat)
    requires i < |shown|
    ensures var es := EntriesOf(d, shown);
      EntriesLines(es[..i + 1]) == EntriesLines(es[..i]) + EntryLines(EntryOf(d, i, shown[i]))
  {
    var es := EntriesOf(d, shown);
    assert es[..i + 1][..i] == es[..i];
  }

  /** `compileSearchContext(results)` / `compile_search_context(results)`:
      the fixed text for no results, otherwise the engine blocks joined by
      newlines. */
  method CompileSearchContext(d: Dialect, results: seq<SearchResult>) returns (text: string)
    ensures text == ContextText(d, results)
  {
    if |results| == 0 {
      return NoResultsText;
    }
    var byEngine, order := GroupByEngine(d, results);
    ghost var ss := Sections(d, results);
    var contextParts: seq<string> := [];
    for g := 0 to |order|
      invariant contextParts == Lines(ss[..g])
    {
      var engine := order[g];
      var block := RenderSection(d, engine, byEngine[engine]);
      assert ss[g] == SectionOf(d, results, engine);
      assert ss[..g + 1][..g] == ss[..g];
      contextParts := contextParts + block;
    }
    assert ss[..|order|] == ss;
    text := Join(contextParts, '\n');
  }
}
