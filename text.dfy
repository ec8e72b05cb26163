/** The string operations the engine relies on, in the two languages' own
    semantics where those differ: `trim()` against `strip()`, and
    `.length` (UTF-16 code units) against `len` (code points). */
module Text {
  import opened Common

  /** JavaScript's WhiteSpace and LineTerminator characters, which `trim()` removes. */
  predicate IsJsSpace(c: char) {
    || c == '\t' || c == '\n' || c == '\U{000B}' || c == '\U{000C}' || c == '\r'
    || c == ' ' || c == '\U{00A0}' || c == '\U{1680}'
    || ('\U{2000}' <= c <= '\U{200A}')
    || c == '\U{2028}' || c == '\U{2029}' || c == '\U{202F}' || c == '\U{205F}'
    || c == '\U{3000}' || c == '\U{FEFF}'
  }

  /** Python's `str.isspace()` characters, which `strip()` removes. Unlike
      JavaScript this includes the separators U+001C..U+001F and U+0085, and
      excludes U+FEFF. */
  predicate IsPySpace(c: char) {
    || c == '\t' || c == '\n' || c == '\U{000B}' || c == '\U{000C}' || c == '\r'
    || ('\U{001C}' <= c <= '\U{001F}')
    || c == ' ' || c == '\U{0085}' || c == '\U{00A0}' || c == '\U{1680}'
    || ('\U{2000}' <= c <= '\U{200A}')
    || c == '\U{2028}' || c == '\U{2029}' || c == '\U{202F}' || c == '\U{205F}'
    || c == '\U{3000}'
  }

  predicate IsSpace(d: Dialect, c: char) {
    if d == TypeScript then IsJsSpace(c) else IsPySpace(c)
  }

  /** `s.trimStart()` / `s.lstrip()`. */
  function TrimStart(d: Dialect, s: string): (t: string)
    ensures |t| <= |s| && t == s[|s| - |t|..]
    ensures forall i | 0 <= i < |s| - |t| :: IsSpace(d, s[i])
    ensures t == [] || !IsSpace(d, t[0])
    decreases |s|
  {
    if s != [] && IsSpace(d, s[0]) then TrimStart(d, s[1..]) else s
  }

  /** `s.trimEnd()` / `s.rstrip()`. */
  function TrimEnd(d: Dialect, s: string): (t: string)
    ensures |t| <= |s| && t == s[..|t|]
    ensures forall i | |t| <= i < |s| :: IsSpace(d, s[i])
    ensures t == [] || !IsSpace(d, t[|t| - 1])
    decreases |s|
  {
    if s != [] && IsSpace(d, s[|s| - 1]) then TrimEnd(d, s[..|s| - 1]) else s
  }

  /** Neither end of `s` is white space in dialect `d`. */
  predicate Trimmed(d: Dialect, s: string) {
    s == [] || (!IsSpace(d, s[0]) && !IsSpace(d, s[|s| - 1]))
  }

  /** `t` is the infix of `s` at `a`, and everything around it is white space. */
  predicate SpaceAround(d: Dialect, s: string, t: string, a: int) {
    && 0 <= a && a + |t| <= |s| && s[a..a + |t|] == t
    && (forall i | 0 <= i < a :: IsSpace(d, s[i]))
    && (forall i | a + |t| <= i < |s| :: IsSpace(d, s[i]))
  }

  /** `s.trim()` in TypeScript, `s.strip()` in Python: the infix of `s` left
      after dropping white space from both ends, down to a non-space end. */
  function Trim(d: Dialect, s: string): (t: string)
    ensures Trimmed(d, t)
    ensures exists a :: SpaceAround(d, s, t, a)
  {
    var l := TrimStart(d, s);
    var t := TrimEnd(d, l);
    assert t == [] || t[0] == l[0];
    TrimAround(d, s, l, t);
    t
  }

  /** What the two halves of `Trim` drop is white space around the rest:
      `l` is what `TrimStart` leaves of `s`, `t` what `TrimEnd` leaves of `l`. */
  lemma TrimAround(d: Dialect, s: string, l: string, t: string)
    requires |l| <= |s| && l == s[|s| - |l|..]
    requires forall i | 0 <= i < |s| - |l| :: IsSpace(d, s[i])
    requires |t| <= |l| && t == l[..|t|]
    requires forall i | |t| <= i < |l| :: IsSpace(d, l[i])
    ensures SpaceAround(d, s, t, |s| - |l|)
  {
    var a := |s| - |l|;
    assert s[a..a + |t|] == t;
    forall i | a + |t| <= i < |s| ensures IsSpace(d, s[i]) {
      assert s[i] == l[i - a];
    }
  }

  /** A non-empty string that begins as `first` does and ends as `last`
      does is trimmed when they are. */
  lemma TrimmedEnds(d: Dialect, s: string, first: string, last: string)
    requires |s| >= 1 && |first| >= 1 && |last| >= 1
    requires s[0] == first[0] && s[|s| - 1] == last[|last| - 1]
    requires Trimmed(d, first) && Trimmed(d, last)
    ensures Trimmed(d, s)
  {
    var a, b := s[0], s[|s| - 1];
    assert !IsSpace(d, a) by {
      assert a == first[0];
    }
    assert !IsSpace(d, b) by {
      assert b == last[|last| - 1];
    }
  }

  /** Trimming is idempotent: a string with no white space at its ends is
      its own trim. */
  lemma TrimFixesTrimmed(d: Dialect, s: string)
    requires Trimmed(d, s)
    ensures Trim(d, s) == s
  {
  }

  /** The two trims agree on text free of the characters only one of them
      counts as white space. */
  lemma {:induction false} TrimDialectsAgree(s: string)
    requires forall i | 0 <= i < |s| :: IsJsSpace(s[i]) == IsPySpace(s[i])
    ensures Trim(TypeScript, s) == Trim(Python, s)
  {
    TrimStartAgree(s);
    var l := TrimStart(TypeScript, s);
    TrimEndAgree(l);
  }

  lemma {:induction false} TrimStartAgree(s: string)
    requires forall i | 0 <= i < |s| :: IsJsSpace(s[i]) == IsPySpace(s[i])
    ensures TrimStart(TypeScript, s) == TrimStart(Python, s)
    decreases |s|
  {
    if s != [] && IsJsSpace(s[0]) {
      TrimStartAgree(s[1..]);
    }
  }

  lemma {:induction false} TrimEndAgree(s: string)
    requires forall i | 0 <= i < |s| :: IsJsSpace(s[i]) == IsPySpace(s[i])
    ensures TrimEnd(TypeScript, s) == TrimEnd(Python, s)
    decreases |s|
  {
    if s != [] && IsJsSpace(s[|s| - 1]) {
      TrimEndAgree(s[..|s| - 1]);
    }
  }

  /** The UTF-16 code units of one character: two beyond U+FFFF. */
  function Units(c: char): nat {
    if c as int > 0xFFFF then 2 else 1
  }

  /** No character of `s` lies beyond U+FFFF. */
  predicate Bmp(s: string) {
    forall i | 0 <= i < |s| :: s[i] as int <= 0xFFFF
  }

  /** JavaScript's `s.length`: the code units of its characters. */
  function Utf16Length(s: string): (n: nat)
    ensures |s| <= n <= 2 * |s|
    ensures Bmp(s) ==> n == |s|
    decreases |s|
  {
    if s == [] then 0 else Units(s[0]) + Utf16Length(s[1..])
  }

  /** `.length` adds up over concatenation. */
  lemma {:induction false} Utf16LengthAppend(a: string, b: string)
    ensures Utf16Length(a + b) == Utf16Length(a) + Utf16Length(b)
    decreases |a|
  {
    if a != [] {
      assert (a + b)[0] == a[0];
      assert (a + b)[1..] == a[1..] + b;
      Utf16LengthAppend(a[1..], b);
    } else {
      assert a + b == b;
    }
  }

  /** The length a dialect reports for `s`: `.length` or `len`. */
  function Length(d: Dialect, s: string): nat {
    if d == TypeScript then Utf16Length(s) else |s|
  }

  /** `s.slice(0, n)` on a JavaScript string: the characters that fit in
      `n` code units. */
  function Take16(s: string, n: nat): string
    decreases |s|
  {
    if s == [] || Units(s[0]) > n then [] else [s[0]] + Take16(s[1..], n - Units(s[0]))
  }

  /** The JavaScript prefix is the longest prefix of at most `n` code units. */
  lemma {:induction false} Take16Spec(s: string, n: nat)
    ensures var t := Take16(s, n);
      && t <= s && Utf16Length(t) <= n
      && (|t| < |s| ==> Utf16Length(s[..|t| + 1]) > n)
    decreases |s|
  {
    var t := Take16(s, n);
    if s != [] {
      if Units(s[0]) > n {
        assert s[..1][1..] == [];
      } else {
        var m := n - Units(s[0]);
        var rest := Take16(s[1..], m);
        Take16Spec(s[1..], m);
        assert t == [s[0]] + rest;
        assert t[1..] == rest;
        if |t| < |s| {
          assert s[..|t| + 1][1..] == s[1..][..|rest| + 1];
        }
      }
    }
  }

  /** On text within U+FFFF the JavaScript and Python prefixes coincide. */
  lemma {:induction false} Take16Bmp(s: string, n: nat)
    requires Bmp(s)
    ensures Take16(s, n) == Take(s, n)
    decreases |s|
  {
    if s != [] && n > 0 {
      assert Bmp(s[1..]) by {
        forall i | 0 <= i < |s[1..]| ensures s[1..][i] as int <= 0xFFFF {
          assert s[1..][i] == s[i + 1];
        }
      }
      Take16Bmp(s[1..], n - 1);
      assert [s[0]] + s[1..][..Min(n - 1, |s| - 1)] == s[..Min(n, |s|)];
    }
  }

  /** `s.slice(0, n)` / `s[:n]` on text, for `n >= 0`. */
  function Prefix(d: Dialect, s: string, n: nat): string {
    if d == TypeScript then Take16(s, n) else Take(s, n)
  }

  /** The prefix is the longest one whose length, as the dialect counts it,
      is at most `n`. */
  lemma PrefixSpec(d: Dialect, s: string, n: nat)
    ensures var t := Prefix(d, s, n);
      && t <= s && Length(d, t) <= n
      && (|t| < |s| ==> Length(d, s[..|t| + 1]) > n)
  {
    if d == TypeScript {
      Take16Spec(s, n);
    }
  }

  function LowerChar(c: char): char {
    if 'A' <= c <= 'Z' then (c as int + 32) as char else c
  }

  function UpperChar(c: char): char {
    if 'a' <= c <= 'z' then (c as int - 32) as char else c
  }

  /** `s.toLowerCase()`, on ASCII letters. */
  function Lower(s: string): (t: string)
    ensures |t| == |s|
  {
    seq(|s|, i requires 0 <= i < |s| => LowerChar(s[i]))
  }

  /** `s.toUpperCase()` / `s.upper()`, on ASCII letters. */
  function Upper(s: string): (t: string)
    ensures |t| == |s|
  {
    seq(|s|, i requires 0 <= i < |s| => UpperChar(s[i]))
  }

  predicate StartsWith(s: string, p: string) {
    |p| <= |s| && s[..|p|] == p
  }

  /** `q` followed by text that begins with a space starts with `q` and a
      space. */
  lemma StartsWithWord(q: string, tail: string)
    requires |tail| >= 1 && tail[0] == ' '
    ensures StartsWith(q + tail, q + " ")
  {
    var s := q + tail;
    forall k | 0 <= k <= |q| ensures s[k] == (q + " ")[k] {
      if k == |q| {
        assert s[k] == tail[0];
      }
    }
    assert s[..|q| + 1] == q + " ";
  }

  /** `sub` occurs in `s` starting at position `i`. */
  predicate OccursAt(s: string, sub: string, i: int) {
    0 <= i && i + |sub| <= |s| && s[i..i + |sub|] == sub
  }

  /** `s.includes(sub)`. */
  predicate Contains(s: string, sub: string)
    decreases |s|
  {
    StartsWith(s, sub) || (|sub| < |s| && Contains(s[1..], sub))
  }

  /** `Contains` holds exactly when `sub` occurs in `s` at some position. */
  lemma {:induction false} ContainsIff(s: string, sub: string)
    ensures Contains(s, sub) <==> exists i :: OccursAt(s, sub, i)
    decreases |s|
  {
    if StartsWith(s, sub) {
      assert OccursAt(s, sub, 0);
    } else if |sub| >= |s| {
      assert !OccursAt(s, sub, 0);
    } else {
      ContainsIff(s[1..], sub);
      forall i | 1 <= i
        ensures OccursAt(s, sub, i) == OccursAt(s[1..], sub, i - 1)
      {
        if i + |sub| <= |s| {
          var here, there := s[i..i + |sub|], s[1..][i - 1..i - 1 + |sub|];
          assert |here| == |there|;
          forall k | 0 <= k < |sub| ensures here[k] == there[k] {
            assert here[k] == s[i + k];
            assert there[k] == s[1..][i - 1 + k];
          }
          assert here == there;
        }
      }
      if Contains(s[1..], sub) {
        var j :| OccursAt(s[1..], sub, j);
        assert OccursAt(s, sub, j + 1);
      }
      assert !OccursAt(s, sub, 0);
    }
  }

  /** Position of the first `c` in `s`, or -1 (`s.indexOf(c)`). */
  function IndexOf(s: string, c: char): (i: int)
    ensures -1 <= i < |s|
    ensures i >= 0 ==> s[i] == c && c !in s[..i]
    ensures i < 0 ==> c !in s
    decreases |s|
  {
    if s == [] then -1
    else if s[0] == c then 0
    else
      var j := IndexOf(s[1..], c);
      if j < 0 then -1 else j + 1
  }

  /** Position of the last `c` in `s`, or -1 (`s.lastIndexOf(c)`). */
  function LastIndexOf(s: string, c: char): (i: int)
    ensures -1 <= i < |s|
    ensures i >= 0 ==> s[i] == c && c !in s[i + 1..]
    ensures i < 0 ==> c !in s
    decreases |s|
  {
    if s == [] then -1
    else if s[|s| - 1] == c then |s| - 1
    else LastIndexOf(s[..|s| - 1], c)
  }

  /** The first `c` is at or before any occurrence of `c`. */
  lemma {:induction false} IndexOfFirst(s: string, c: char, k: nat)
    requires k < |s| && s[k] == c
    ensures 0 <= IndexOf(s, c) <= k
    decreases |s|
  {
    if s[0] != c {
      IndexOfFirst(s[1..], c, k - 1);
    }
  }

  /** The last `c` is at or after any occurrence of `c`. */
  lemma {:induction false} LastIndexOfLast(s: string, c: char, k: nat)
    requires k < |s| && s[k] == c
    ensures k <= LastIndexOf(s, c) < |s|
    decreases |s|
  {
    if s[|s| - 1] != c {
      LastIndexOfLast(s[..|s| - 1], c, k);
    }
  }

  /** `s.split(sep)` for a one-character separator, in both languages: the
      pieces between separators, including empty ones. */
  function Split(s: string, sep: char): (parts: seq<string>)
    ensures |parts| >= 1
    ensures forall p | p in parts :: sep !in p
    decreases |s|
  {
    var i := IndexOf(s, sep);
    if i < 0 then [s] else [s[..i]] + Split(s[i + 1..], sep)
  }

  /** `parts.join(sep)` / `sep.join(parts)`. */
  function Join(parts: seq<string>, sep: char): string
    decreases |parts|
  {
    if parts == [] then ""
    else if |parts| == 1 then parts[0]
    else parts[0] + [sep] + Join(parts[1..], sep)
  }

  /** Joining the pieces of a split gives back the text. */
  lemma {:induction false} JoinSplit(s: string, sep: char)
    ensures Join(Split(s, sep), sep) == s
    decreases |s|
  {
    var i := IndexOf(s, sep);
    if i >= 0 {
      var head, tail := s[..i], s[i + 1..];
      var rest := Split(tail, sep);
      assert Split(s, sep) == [head] + rest;
      JoinCons(head, rest, sep);
      JoinSplit(tail, sep);
      assert head + [sep] + tail == s;
    }
  }

  /** Joining a piece in front of at least one more adds it and a separator. */
  lemma JoinCons(p: string, rest: seq<string>, sep: char)
    requires |rest| >= 1
    ensures Join([p] + rest, sep) == p + [sep] + Join(rest, sep)
  {
    assert ([p] + rest)[1..] == rest;
  }

  /** Splitting a join gives back the pieces, when no piece holds the separator. */
  lemma {:induction false} SplitJoin(parts: seq<string>, sep: char)
    requires |parts| >= 1
    requires forall p | p in parts :: sep !in p
    ensures Split(Join(parts, sep), sep) == parts
    decreases |parts|
  {
    if |parts| == 1 {
      assert sep !in parts[0];
    } else {
      assert parts[0] in parts;
      SplitCons(parts[0], Join(parts[1..], sep), sep);
      SplitJoin(parts[1..], sep);
      assert parts == [parts[0]] + parts[1..];
    }
  }

  /** A separator-free piece followed by the separator splits off first. */
  lemma {:induction false} SplitCons(p: string, rest: string, sep: char)
    requires sep !in p
    ensures Split(p + [sep] + rest, sep) == [p] + Split(rest, sep)
  {
    var s := p + [sep] + rest;
    IndexOfAfterFreePrefix(p, [sep] + rest, sep);
    assert p + ([sep] + rest) == s;
    assert s[..|p|] == p;
    assert s[|p| + 1..] == rest;
  }

  lemma {:induction false} IndexOfAfterFreePrefix(p: string, q: string, c: char)
    requires c !in p && q != [] && q[0] == c
    ensures IndexOf(p + q, c) == |p|
    decreases |p|
  {
    if p != [] {
      assert (p + q)[1..] == p[1..] + q;
      IndexOfAfterFreePrefix(p[1..], q, c);
    }
  }

  /** The decimal text of a number, as a template literal renders it. */
  function NatText(n: nat): (s: string)
    ensures |s| >= 1
    ensures forall i | 0 <= i < |s| :: '0' <= s[i] <= '9'
  {
    var digit := ('0' as int + n % 10) as char;
    if n < 10 then [digit] else NatText(n / 10) + [digit]
  }

  /** The number a string of decimal digits denotes. */
  function DigitsValue(s: string): nat
    decreases |s|
  {
    if s == [] then 0
    else
      var c := s[|s| - 1];
      DigitsValue(s[..|s| - 1]) * 10 + (if '0' <= c <= '9' then c as int - '0' as int else 0)
  }

  /** The printed number denotes `n` and has no leading zero. */
  lemma {:induction false} NatTextValue(n: nat)
    ensures DigitsValue(NatText(n)) == n
    ensures NatText(n)[0] == '0' ==> n == 0
  {
    if n >= 10 {
      NatTextValue(n / 10);
      var prefix := NatText(n / 10);
      var s := NatText(n);
      assert s[..|s| - 1] == prefix;
      assert s[0] == prefix[0];
    }
  }
}
