/** Vocabulary shared by every module: optional values, the two implementations
    being compared, and the prefix slice both languages use. */
module Common {

  /** An optional value; `None` is an absent JSON field or an absorbed failure. */
  datatype Option<+T> = None | Some(value: T) {
    /** The value, or `default` when there is none. */
    function GetOr(default: T): T {
      match this
      case Some(v) => v
      case None => default
    }
  }

  /** The engine exists twice: lib/searchService.ts and its older twin app.py. */
  datatype Dialect = TypeScript | Python

  function Min(a: int, b: int): int { if a <= b then a else b }

  function Max(a: int, b: int): int { if a >= b then a else b }

  /** End index of `xs.slice(0, n)` in JavaScript and of `xs[:n]` in Python:
      a negative bound counts back from the end, and the result is clamped to
      the length. */
  function SliceEnd(len: nat, n: int): (e: nat)
    ensures e <= len
    ensures n >= 0 ==> e == Min(n, len)
  {
    if n >= 0 then Min(n, len) else Max(0, len + n)
  }

  /** `xs.slice(0, n)` / `xs[:n]`. */
  function Take<T>(xs: seq<T>, n: int): (r: seq<T>)
    ensures r <= xs && |r| == SliceEnd(|xs|, n)
    ensures n >= 0 ==> |r| <= n
  {
    xs[..SliceEnd(|xs|, n)]
  }

  /** `r` is `s` with some elements deleted, the rest kept in order. */
  predicate Subsequence<T(==)>(r: seq<T>, s: seq<T>)
    decreases |s|
  {
    if s == [] then r == []
    else (r != [] && r[0] == s[0] && Subsequence(r[1..], s[1..])) || Subsequence(r, s[1..])
  }

  /** A prefix of a subsequence is a subsequence. */
  lemma {:induction false} SubsequencePrefix<T>(p: seq<T>, r: seq<T>, s: seq<T>)
    requires p <= r && Subsequence(r, s)
    ensures Subsequence(p, s)
    decreases |s|
  {
    if s != [] {
      if r != [] && r[0] == s[0] && Subsequence(r[1..], s[1..]) {
        if p != [] {
          SubsequencePrefix(p[1..], r[1..], s[1..]);
        } else {
          SubsequencePrefix(p, r[1..], s[1..]);
        }
      } else {
        SubsequencePrefix(p, r, s[1..]);
      }
    }
  }
}
