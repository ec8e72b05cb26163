/** The completeness judge (`analyzeSearchCompleteness`): asks the model
    whether the accumulated results suffice, validates its JSON verdict, and
    falls back to a fixed heuristic whenever that fails. */
module Judge {
  import opened Common
  import opened Text
  import opened Results
  import opened Completion

  /** A JSON value as `JSON.parse` produces it. Array items are kept as the
      strings a template literal turns them into, the only way the engine
      uses them. */
  datatype JsonValue =
    | JNull
    | JBool(b: bool)
    | JNum(x: real)
    | JStr(s: string)
    | JArray(items: seq<string>)
    | JObject

  type JsonObject = map<string, JsonValue>

  /** `JSON.parse` applied to a candidate span: `None` when it throws. */
  type JsonParser = string -> Option<JsonObject>

  /** The judge's decision. `reason` is whatever JSON value the model gave
      when that value is truthy, as in the source. */
  datatype Verdict = Verdict(isComplete: bool, reason: JsonValue, suggestedQueries: seq<string>, confidence: real)

  /** `analysis[name]`; an absent field reads as `undefined`, which every check
      here treats like `null`. */
  function Field(o: JsonObject, name: string): JsonValue {
    if name in o then o[name] else JNull
  }

  /** JavaScript truthiness. */
  predicate Truthy(v: JsonValue) {
    match v
    case JNull => false
    case JBool(b) => b
    case JNum(x) => x != 0.0
    case JStr(s) => s != ""
    case JArray(_) => true
    case JObject => true
  }

  /** `Math.max(0, Math.min(1, x))`. */
  function Clamp(x: real): (c: real)
    ensures 0.0 <= c <= 1.0
    ensures 0.0 <= x <= 1.0 ==> c == x
    ensures x > 1.0 ==> c == 1.0
    ensures x < 0.0 ==> c == 0.0
  {
    if x < 0.0 then 0.0 else if x > 1.0 then 1.0 else x
  }

  /** Clamping examples: above 1, below 0, and inside the range. */
  lemma ClampExamples()
    ensures Clamp(1.7) == 1.0 && Clamp(-0.3) == 0.0 && Clamp(0.25) == 0.25
  {
  }

  /** `reply.match(/\{[\s\S]*\}/)`: greedy, so the span runs from the first `{`
      to the last `}`. */
  function JsonSpan(reply: string): Option<string> {
    var i := IndexOf(reply, '{');
    var j := LastIndexOf(reply, '}');
    if 0 <= i < j then Some(reply[i..j + 1]) else None
  }

  /** A span exists exactly when some `{` precedes some `}`, and it is
      delimited by a brace pair. */
  lemma JsonSpanSpec(reply: string)
    ensures var span := JsonSpan(reply);
      && (span.Some? <==> exists i, j :: 0 <= i < j < |reply| && reply[i] == '{' && reply[j] == '}')
      && (span.Some? ==> |span.value| >= 2 && span.value[0] == '{' && span.value[|span.value| - 1] == '}')
  {
    if exists i, j :: 0 <= i < j < |reply| && reply[i] == '{' && reply[j] == '}' {
      var i, j :| 0 <= i < j < |reply| && reply[i] == '{' && reply[j] == '}';
      JsonSpanIsGreedy(reply, i, j);
    }
  }

  /** The span is as wide as it can be: it starts at the first `{` of the
      reply, ends at its last `}`, and so covers every `{ ... }` pair in it. */
  lemma JsonSpanIsGreedy(reply: string, i: nat, j: nat)
    requires i < j < |reply| && reply[i] == '{' && reply[j] == '}'
    ensures var a := IndexOf(reply, '{');
      var b := LastIndexOf(reply, '}') + 1;
      && 0 <= a <= i && j < b <= |reply|
      && JsonSpan(reply) == Some(reply[a..b])
      && '{' !in reply[..a] && '}' !in reply[b..]
  {
    IndexOfFirst(reply, '{', i);
    LastIndexOfLast(reply, '}', j);
  }

  /** The checks after `JSON.parse`: `isComplete` must be a boolean, or the
      fallback is taken; the reason defaults, the suggestions are cut to three
      (none unless an array), and the confidence is clamped (0.5 unless a
      number). */
  function ValidateVerdict(o: JsonObject): (v: Option<Verdict>)
    ensures v.Some? <==> Field(o, "isComplete").JBool?
    ensures v.Some? ==>
      && v.value.isComplete == Field(o, "isComplete").b
      && 0.0 <= v.value.confidence <= 1.0
      && |v.value.suggestedQueries| <= 3
      && Truthy(v.value.reason)
      && (Field(o, "suggestedQueries").JArray? ==> v.value.suggestedQueries <= Field(o, "suggestedQueries").items)
      && (Field(o, "suggestedQueries").JArray? ==>
            |v.value.suggestedQueries| == Min(3, |Field(o, "suggestedQueries").items|))
      && (!Field(o, "suggestedQueries").JArray? ==> v.value.suggestedQueries == [])
      && (Truthy(Field(o, "reason")) ==> v.value.reason == Field(o, "reason"))
      && (!Truthy(Field(o, "reason")) ==> v.value.reason == JStr("AI analysis completed"))
      && (Field(o, "confidence").JNum? ==> v.value.confidence == Clamp(Field(o, "confidence").x))
      && (!Field(o, "confidence").JNum? ==> v.value.confidence == 0.5)
  {
    var complete := Field(o, "isComplete");
    if !complete.JBool? then None
    else
      var reason := Field(o, "reason");
      var queries := Field(o, "suggestedQueries");
      var confidence := Field(o, "confidence");
      Some(Verdict(
        complete.b,
        if Truthy(reason) then reason else JStr("AI analysis completed"),
        if queries.JArray? then Take(queries.items, 3) else [],
        if confidence.JNum? then Clamp(confidence.x) else 0.5))
  }

  /** The verdict returned, without asking the model, when there are no
      results yet. */
  function NoResultsVerdict(query: string): Verdict {
    Verdict(false, JStr("No results found yet"), [query + " basics", query + " overview"], 0.0)
  }

  /** Some content, lower-cased, mentions "2024", "recent" or "latest". */
  predicate MentionsRecent(content: string) {
    var c := Lower(content);
    Contains(c, "2024") || Contains(c, "recent") || Contains(c, "latest")
  }

  /** Content longer than 200 (UTF-16 units) that contains, case-sensitively,
      "how", "technical" or "implementation". */
  predicate IsTechnical(content: string) {
    Utf16Length(content) > 200
    && (Contains(content, "how") || Contains(content, "technical") || Contains(content, "implementation"))
  }

  /** The deterministic fallback. */
  function HeuristicVerdict(query: string, results: seq<SearchResult>, round: int): Verdict {
    var hasEnoughResults := |results| >= 15;
    var hasRecentContent := exists r | r in results :: MentionsRecent(r.content);
    var hasTechnicalContent := exists r | r in results :: IsTechnical(r.content);
    var isComplete := hasEnoughResults && hasRecentContent && hasTechnicalContent && round >= 3;
    Verdict(
      isComplete,
      JStr(if isComplete then "Heuristic analysis suggests sufficient information gathered"
           else "Heuristic analysis suggests more information needed"),
      if isComplete then []
      else [query + " latest developments 2024", query + " technical implementation", query + " best practices"],
      if isComplete then 0.7 else 0.4)
  }

  /** The fallback's confidence is 0.7 when complete and 0.4 otherwise; a
      complete verdict suggests nothing, an incomplete one three searches that
      extend the original query. */
  lemma HeuristicShape(query: string, results: seq<SearchResult>, round: int)
    ensures var v := HeuristicVerdict(query, results, round);
      && v.confidence == (if v.isComplete then 0.7 else 0.4)
      && (v.isComplete ==> v.suggestedQueries == [] && |results| >= 15 && round >= 3)
      && (!v.isComplete ==>
            (|v.suggestedQueries| == 3
             && forall k | 0 <= k < 3 :: StartsWith(v.suggestedQueries[k], query + " ")))
  {
    var v := HeuristicVerdict(query, results, round);
    if !v.isComplete {
      StartsWithWord(query, " latest developments 2024");
      StartsWithWord(query, " technical implementation");
      StartsWithWord(query, " best practices");
    }
  }

  /** The fallback declares completeness exactly when there are at least 15
      results, one mentions recent material, one is a long technical text, and
      the round is at least 3. */
  lemma HeuristicCompleteIff(query: string, results: seq<SearchResult>, round: int)
    ensures HeuristicVerdict(query, results, round).isComplete <==>
      && |results| >= 15
      && (exists i :: 0 <= i < |results| && MentionsRecent(results[i].content))
      && (exists i :: 0 <= i < |results| && IsTechnical(results[i].content))
      && round >= 3
  {
    SomeAt(results, (r: SearchResult) => MentionsRecent(r.content));
    SomeAt(results, (r: SearchResult) => IsTechnical(r.content));
  }

  /** Some element of `xs` satisfies `p` exactly when some position does. */
  lemma SomeAt(xs: seq<SearchResult>, p: SearchResult -> bool)
    ensures (exists x | x in xs :: p(x)) <==> (exists i :: 0 <= i < |xs| && p(xs[i]))
  {
    if exists x | x in xs :: p(x) {
      var x :| x in xs && p(x);
      var i :| 0 <= i < |xs| && xs[i] == x;
    }
  }

  /** More results and a later round never turn a complete fallback verdict
      into an incomplete one. */
  lemma HeuristicMonotone(query: string, results: seq<SearchResult>, more: seq<SearchResult>, round: int, later: int)
    requires round <= later
    requires HeuristicVerdict(query, results, round).isComplete
    ensures HeuristicVerdict(query, results + more, later).isComplete
  {
    var r1 :| r1 in results && MentionsRecent(r1.content);
    var r2 :| r2 in results && IsTechnical(r2.content);
    assert r1 in results + more && r2 in results + more;
  }

  /** The first ten results as "title: content" lines. */
  function JudgeLines(results: seq<SearchResult>): seq<string> {
    var first := Take(results, 10);
    seq(|first|, i requires 0 <= i < |first| => first[i].title + ": " + first[i].content)
  }

  /** The digest the judge's prompt embeds: the longest prefix of the joined
      lines that is at most 2000 UTF-16 code units long. */
  function JudgeDigest(results: seq<SearchResult>): (digest: string)
    ensures var joined := Join(JudgeLines(results), '\n');
      && digest <= joined
      && Utf16Length(digest) <= 2000
      && (|digest| < |joined| ==> Utf16Length(joined[..|digest| + 1]) > 2000)
  {
    var joined := Join(JudgeLines(results), '\n');
    Take16Spec(joined, 2000);
    Take16(joined, 2000)
  }

  /** The `try` block: the model's verdict, or `None` wherever the source
      throws (a reply that is not a string, no `{ ... }` span, a span that does
      not parse, an `isComplete` that is not a boolean). */
  function ModelVerdict(query: string, results: seq<SearchResult>, round: int,
                        complete: CompletionBackend, parse: JsonParser): Option<Verdict>
  {
    match complete(JudgePrompt(query, JudgeDigest(results), round))
    case None => None
    case Some(reply) =>
      match JsonSpan(reply)
      case None => None
      case Some(span) =>
        match parse(span)
        case None => None
        case Some(o) => ValidateVerdict(o)
  }

  /** `analyzeSearchCompleteness(query, results, round)`. Whatever the
      backend and the parser do, the verdict has a truthy reason, a confidence
      in [0, 1] and at most three suggestions; with no results it is the fixed
      two-suggestion verdict. */
  function AnalyzeSearchCompleteness(query: string, results: seq<SearchResult>, round: int,
                                     complete: CompletionBackend, parse: JsonParser): (v: Verdict)
    ensures 0.0 <= v.confidence <= 1.0
    ensures |v.suggestedQueries| <= 3
    ensures Truthy(v.reason)
    ensures results == [] ==>
      (!v.isComplete && v.confidence == 0.0 && v.suggestedQueries == [query + " basics", query + " overview"])
  {
    if results == [] then NoResultsVerdict(query)
    else
      match ModelVerdict(query, results, round, complete, parse)
      case Some(verdict) => verdict
      case None =>
        HeuristicShape(query, results, round);
        HeuristicVerdict(query, results, round)
  }

  /** With no results the judge consults neither the backend nor the parser. */
  lemma NoResultsIgnoresBackends(query: string, round1: int, round2: int,
                                 complete1: CompletionBackend, parse1: JsonParser,
                                 complete2: CompletionBackend, parse2: JsonParser)
    ensures AnalyzeSearchCompleteness(query, [], round1, complete1, parse1)
         == AnalyzeSearchCompleteness(query, [], round2, complete2, parse2)
  {
  }

  /** Errors never escape: when the reply has no `{ ... }` span, or its span
      fails to parse, or `isComplete` is not a boolean, the judge answers with
      the fallback heuristic; otherwise it answers with the validated verdict. */
  lemma FallbackExactlyOnFailure(query: string, results: seq<SearchResult>, round: int,
                                 complete: CompletionBackend, parse: JsonParser)
    requires results != []
    ensures var reply := complete(JudgePrompt(query, JudgeDigest(results), round));
      var failed := || reply.None?
                    || JsonSpan(reply.value).None?
                    || parse(JsonSpan(reply.value).value).None?
                    || !Field(parse(JsonSpan(reply.value).value).value, "isComplete").JBool?;
      && (failed ==> AnalyzeSearchCompleteness(query, results, round, complete, parse) == HeuristicVerdict(query, results, round))
      && (!failed ==> AnalyzeSearchCompleteness(query, results, round, complete, parse)
                      == ValidateVerdict(parse(JsonSpan(reply.value).value).value).value)
  {
  }
}
