/** Follow-up query generation (`generateFollowUpQueries` in TypeScript,
    `generate_follow_up_queries` in Python): the model's reply is split into
    lines, which are trimmed, filtered by length and capped at four. */
module FollowUp {
  import opened Common
  import opened Text
  import opened Results
  import opened Completion

  /** The first five results as "title content". */
  function FollowUpParts(results: seq<SearchResult>): seq<string> {
    var first := Take(results, 5);
    seq(|first|, i requires 0 <= i < |first| => first[i].title + " " + first[i].content)
  }

  /** The digest the prompt embeds: the parts joined by spaces, cut to the
      longest prefix at most 1000 long, in UTF-16 code units for TypeScript's
      `.slice(0, 1000)` and in characters for Python's `[:1000]`. */
  function FollowUpDigest(d: Dialect, results: seq<SearchResult>): (digest: string)
    ensures var joined := Join(FollowUpParts(results), ' ');
      && digest <= joined
      && Length(d, digest) <= 1000
      && (|digest| < |joined| ==> Length(d, joined[..|digest| + 1]) > 1000)
  {
    var joined := Join(FollowUpParts(results), ' ');
    PrefixSpec(d, joined, 1000);
    Prefix(d, joined, 1000)
  }

  /** The queries returned when the reply cannot be split. */
  function FallbackQueries(query: string): seq<string> {
    [query + " latest developments", query + " technical details", query + " alternatives comparison"]
  }

  /** The lines considered: TypeScript splits the reply as it is; Python
      strips the whole reply first. */
  function ReplyLines(d: Dialect, reply: string): seq<string> {
    Split(if d == Python then Trim(Python, reply) else reply, '\n')
  }

  /** `lines.map(q => q.trim())`. */
  function TrimAll(d: Dialect, lines: seq<string>): (r: seq<string>)
    ensures |r| == |lines|
  {
    seq(|lines|, i requires 0 <= i < |lines| => Trim(d, lines[i]))
  }

  /** Each line trimmed: white space only around it, none at its ends. */
  lemma TrimAllSpec(d: Dialect, lines: seq<string>)
    ensures var r := TrimAll(d, lines);
      forall i | 0 <= i < |r| :: Trimmed(d, r[i]) && exists a :: SpaceAround(d, lines[i], r[i], a)
  {
  }

  /** `.filter(q => q.length > 10)`; Python's additional `q.strip()` test is
      implied by the length. */
  function LongEnough(d: Dialect, qs: seq<string>): (r: seq<string>)
    ensures forall q | q in r :: q in qs && Length(d, q) > 10
    ensures (forall q | q in qs :: Length(d, q) > 10) ==> r == qs
    decreases |qs|
  {
    if qs == [] then []
    else
      var rest := LongEnough(d, qs[1..]);
      assert qs == [qs[0]] + qs[1..];
      if Length(d, qs[0]) > 10 then [qs[0]] + rest else rest
  }

  /** The filter keeps the long elements in their original order. */
  lemma {:induction false} LongEnoughOrder(d: Dialect, qs: seq<string>)
    ensures Subsequence(LongEnough(d, qs), qs)
    decreases |qs|
  {
    if qs != [] {
      LongEnoughOrder(d, qs[1..]);
      var rest := LongEnough(d, qs[1..]);
      if Length(d, qs[0]) > 10 {
        assert ([qs[0]] + rest)[1..] == rest;
      }
    }
  }

  /** The filter keeps each long element as often as it occurs, and no short
      one; with `LongEnoughOrder`, it keeps exactly the long elements. */
  lemma {:induction false} LongEnoughCounts(d: Dialect, qs: seq<string>)
    ensures forall q :: multiset(LongEnough(d, qs))[q] == if Length(d, q) > 10 then multiset(qs)[q] else 0
    decreases |qs|
  {
    if qs != [] {
      LongEnoughCounts(d, qs[1..]);
      var rest := LongEnough(d, qs[1..]);
      assert qs == [qs[0]] + qs[1..];
      forall q ensures multiset(LongEnough(d, qs))[q] == if Length(d, q) > 10 then multiset(qs)[q] else 0 {
        assert multiset(qs)[q] == multiset(qs[1..])[q] + (if q == qs[0] then 1 else 0);
      }
    }
  }

  /** Trimming a line that has no line break leaves none. */
  lemma TrimAllSingleLines(d: Dialect, lines: seq<string>)
    requires forall l | l in lines :: '\n' !in l
    ensures forall q | q in TrimAll(d, lines) :: '\n' !in q
  {
    var trimmed := TrimAll(d, lines);
    forall k | 0 <= k < |trimmed| ensures '\n' !in trimmed[k] {
      assert lines[k] in lines;
      var a :| SpaceAround(d, lines[k], trimmed[k], a);
      assert trimmed[k] == lines[k][a..a + |trimmed[k]|];
    }
  }

  /** The queries kept from a reply: its lines, trimmed, those longer than
      ten, at most four. */
  function FilterQueries(d: Dialect, reply: string): seq<string> {
    Take(LongEnough(d, TrimAll(d, ReplyLines(d, reply))), 4)
  }

  /** The queries kept are the first four of the long trimmed lines (all of
      them when there are fewer), in reply order; each is longer than ten,
      trimmed and on one line. */
  lemma FilterQueriesSpec(d: Dialect, reply: string)
    ensures var trimmed := TrimAll(d, ReplyLines(d, reply));
      var long := LongEnough(d, trimmed);
      var qs := FilterQueries(d, reply);
      && qs <= long
      && |qs| == Min(4, |long|)
      && Subsequence(qs, trimmed)
      && forall q | q in qs :: Length(d, q) > 10 && Trimmed(d, q) && '\n' !in q
  {
    var lines := ReplyLines(d, reply);
    var trimmed := TrimAll(d, lines);
    TrimAllSingleLines(d, lines);
    var long := LongEnough(d, trimmed);
    var qs := Take(long, 4);
    assert Subsequence(qs, trimmed) by {
      LongEnoughOrder(d, trimmed);
      SubsequencePrefix(qs, long, trimmed);
    }
    forall q | q in qs ensures Length(d, q) > 10 && Trimmed(d, q) && '\n' !in q {
      assert q in long;
      var k :| 0 <= k < |trimmed| && trimmed[k] == q;
      assert q == Trim(d, lines[k]);
    }
  }

  /** `generateFollowUpQueries(query, results)`: nothing for no results,
      otherwise the filtered lines of the model's reply, or the three fixed
      queries when the reply is not a string. */
  function GenerateFollowUpQueries(d: Dialect, query: string, results: seq<SearchResult>,
                                   complete: CompletionBackend): (qs: seq<string>)
    ensures results == [] ==> qs == []
    ensures |qs| <= 4
    ensures forall q | q in qs :: Length(d, q) > 10
    ensures results != [] ==>
      match complete(FollowUpPrompt(query, FollowUpDigest(d, results)))
      case None => qs == FallbackQueries(query)
      case Some(reply) => qs == FilterQueries(d, reply)
  {
    if results == [] then []
    else
      match complete(FollowUpPrompt(query, FollowUpDigest(d, results)))
      case None =>
        var qs := FallbackQueries(query);
        assert forall q | q in qs :: |q| > 10;
        qs
      case Some(reply) =>
        FilterQueriesSpec(d, reply);
        FilterQueries(d, reply)
  }

  /** Round trip: writing up to four acceptable queries one per line and
      filtering the text gives the same queries back, in both dialects. */
  lemma {:induction false} FilterQueriesRoundTrip(d: Dialect, qs: seq<string>)
    requires 1 <= |qs| <= 4
    requires forall q | q in qs :: Length(d, q) > 10 && Trimmed(d, q) && '\n' !in q
    ensures FilterQueries(d, Join(qs, '\n')) == qs
  {
    TrimmedLinesJoin(d, qs);
    KeptLines(d, Join(qs, '\n'), qs);
  }

  /** A reply whose trimmed lines are up to four queries longer than ten
      keeps all of them. */
  lemma KeptLines(d: Dialect, reply: string, qs: seq<string>)
    requires TrimAll(d, ReplyLines(d, reply)) == qs
    requires |qs| <= 4 && forall q | q in qs :: Length(d, q) > 10
    ensures FilterQueries(d, reply) == qs
  {
    KeptAll(d, qs);
  }

  /** Up to four queries longer than ten pass the filter and the cut. */
  lemma KeptAll(d: Dialect, qs: seq<string>)
    requires |qs| <= 4 && forall q | q in qs :: Length(d, q) > 10
    ensures Take(LongEnough(d, qs), 4) == qs
  {
    assert LongEnough(d, qs) == qs;
    assert Take(qs, 4) == qs by {
      assert qs[..|qs|] == qs;
    }
  }

  /** Trimming the lines of a reply written one query per line gives those
      queries. */
  lemma TrimmedLinesJoin(d: Dialect, qs: seq<string>)
    requires 1 <= |qs|
    requires forall q | q in qs :: Length(d, q) > 10 && Trimmed(d, q) && '\n' !in q
    ensures TrimAll(d, ReplyLines(d, Join(qs, '\n'))) == qs
  {
    ReplyLinesJoin(d, qs);
    TrimAllFixes(d, qs);
  }

  /** The lines of a reply written one query per line are those queries. */
  lemma ReplyLinesJoin(d: Dialect, qs: seq<string>)
    requires 1 <= |qs|
    requires forall q | q in qs :: Length(d, q) > 10 && Trimmed(d, q) && '\n' !in q
    ensures ReplyLines(d, Join(qs, '\n')) == qs
  {
    var text := Join(qs, '\n');
    if d == Python {
      JoinTrimmed(qs);
    }
    SplitJoin(qs, '\n');
  }

  /** Python strips the whole reply first, which leaves it unchanged when
      its first and last lines are trimmed and not empty. */
  lemma JoinTrimmed(qs: seq<string>)
    requires 1 <= |qs|
    requires forall q | q in qs :: |q| > 10 && Trimmed(Python, q)
    ensures Trim(Python, Join(qs, '\n')) == Join(qs, '\n')
  {
    forall i | 0 <= i < |qs| ensures qs[i] != "" && Trimmed(Python, qs[i]) {
      assert qs[i] in qs;
    }
    JoinKeepsTrimmed(Python, qs, '\n');
    TrimFixesTrimmed(Python, Join(qs, '\n'));
  }

  /** Trimming lines that are already trimmed changes none of them. */
  lemma TrimAllFixes(d: Dialect, lines: seq<string>)
    requires forall q | q in lines :: Trimmed(d, q)
    ensures TrimAll(d, lines) == lines
  {
    forall k | 0 <= k < |lines| ensures Trim(d, lines[k]) == lines[k] {
      assert lines[k] in lines;
      TrimFixesTrimmed(d, lines[k]);
    }
  }

  /** A join of non-empty trimmed pieces is itself trimmed: it starts with
      the first piece and ends with the last. */
  lemma {:induction false} JoinKeepsTrimmed(d: Dialect, parts: seq<string>, sep: char)
    requires |parts| >= 1
    requires forall i | 0 <= i < |parts| :: parts[i] != "" && Trimmed(d, parts[i])
    ensures Join(parts, sep) != "" && Trimmed(d, Join(parts, sep))
    decreases |parts|
  {
    if |parts| > 1 {
      var tail := parts[1..];
      assert forall i | 0 <= i < |tail| :: tail[i] == parts[i + 1];
      JoinKeepsTrimmed(d, tail, sep);
      var rest := Join(tail, sep);
      var s := parts[0] + [sep] + rest;
      assert Join(parts, sep) == s;
      assert s[0] == parts[0][0];
      assert s[|s| - 1] == rest[|rest| - 1];
      TrimmedEnds(d, s, parts[0], rest);
    }
  }
}
