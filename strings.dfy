/** The string operations of the JavaScript runtime that the components
    use: `toLowerCase`, `includes`, `startsWith`, `endsWith`, `trim`,
    `split`, `replace` with a string pattern, and the default ordering of
    `sort` and `<`, taken as code-point order. Case folding is ASCII-only. */
module Strings {
  import opened Seqs

  /** The white space removed by `trim` and matched by `\s`: the ASCII
      white space, the line and paragraph separators, the byte order mark
      and the space separators of Unicode. */
  predicate IsSpace(c: char)
  {
    || c == ' ' || c == '\t' || c == '\n' || c == '\r' || c == '\U{B}' || c == '\U{C}'
    || c == '\U{A0}' || c == '\U{1680}' || ('\U{2000}' <= c <= '\U{200A}')
    || c == '\U{2028}' || c == '\U{2029}' || c == '\U{202F}' || c == '\U{205F}'
    || c == '\U{3000}' || c == '\U{FEFF}'
  }

  function LowerChar(c: char): (r: char)
    ensures 'A' <= c <= 'Z' ==> r as int == c as int + 32
    ensures !('A' <= c <= 'Z') ==> r == c
  {
    if 'A' <= c <= 'Z' then (c as int + 32) as char else c
  }

  /** `toLowerCase`, restricted to the ASCII letters. */
  function Lower(s: string): (r: string)
    ensures |r| == |s|
    ensures forall i :: 0 <= i < |s| ==> r[i] == LowerChar(s[i])
  {
    seq(|s|, i requires 0 <= i < |s| => LowerChar(s[i]))
  }

  lemma LowerIdempotent(s: string)
    ensures Lower(Lower(s)) == Lower(s)
  {
  }

  predicate StartsWith(s: string, prefix: string)
  {
    |prefix| <= |s| && s[..|prefix|] == prefix
  }

  predicate EndsWith(s: string, suffix: string)
  {
    |suffix| <= |s| && s[|s| - |suffix|..] == suffix
  }

  /** `sub` occurs in `s` starting at index `i`. */
  predicate ContainsAt(s: string, sub: string, i: int)
  {
    0 <= i && i + |sub| <= |s| && s[i..i + |sub|] == sub
  }

  /** `s.includes(sub)`. */
  predicate Contains(s: string, sub: string)
  {
    exists i | 0 <= i <= |s| :: ContainsAt(s, sub, i)
  }

  /** Every string includes the empty string. */
  lemma ContainsEmpty(s: string)
    ensures Contains(s, "")
  {
    assert ContainsAt(s, "", 0);
  }

  /** Occurrences survive lower-casing. */
  lemma ContainsLower(s: string, sub: string)
    requires Contains(s, sub)
    ensures Contains(Lower(s), Lower(sub))
  {
    var i :| 0 <= i <= |s| && ContainsAt(s, sub, i);
    assert Lower(s)[i..i + |sub|] == Lower(sub);
    assert ContainsAt(Lower(s), Lower(sub), i);
  }

  // ---------------------------------------------------------------------
  // Decimal digits

  predicate IsDigit(c: char)
  {
    '0' <= c <= '9'
  }

  function DigitValue(c: char): nat
    requires IsDigit(c)
  {
    c as int - '0' as int
  }

  /** The run of decimal digits at the front of `s`: its value, read on
      from `acc`, and its length. */
  function Digits(s: string, acc: nat): (r: (nat, nat))
    ensures r.1 <= |s|
    ensures forall i :: 0 <= i < r.1 ==> IsDigit(s[i])
    ensures r.1 == |s| || !IsDigit(s[r.1])
    ensures r.1 == 0 ==> r.0 == acc
  {
    if s != [] && IsDigit(s[0]) then
      var r := Digits(s[1..], acc * 10 + DigitValue(s[0]));
      (r.0, r.1 + 1)
    else (acc, 0)
  }

  // ---------------------------------------------------------------------
  // Code-unit ordering (the default comparison of `sort` and `<`)

  /** Lexicographic comparison by character code: negative, zero or positive. */
  function LexCompare(a: string, b: string): (r: int)
    ensures -1 <= r <= 1
  {
    if a == [] && b == [] then 0
    else if a == [] then -1
    else if b == [] then 1
    else if a[0] < b[0] then -1
    else if a[0] > b[0] then 1
    else LexCompare(a[1..], b[1..])
  }

  predicate LexLess(a: string, b: string)
  {
    LexCompare(a, b) < 0
  }

  lemma {:induction false} LexCompareZero(a: string, b: string)
    ensures LexCompare(a, b) == 0 <==> a == b
  {
    if a != [] && b != [] && a[0] == b[0] {
      LexCompareZero(a[1..], b[1..]);
      assert a == [a[0]] + a[1..] && b == [b[0]] + b[1..];
    }
  }

  lemma {:induction false} LexCompareAntisymmetric(a: string, b: string)
    ensures LexCompare(a, b) == -LexCompare(b, a)
  {
    if a != [] && b != [] && a[0] == b[0] {
      LexCompareAntisymmetric(a[1..], b[1..]);
    }
  }

  lemma {:induction false} LexLessTransitive(a: string, b: string, c: string)
    requires LexLess(a, b) && LexLess(b, c)
    ensures LexLess(a, c)
  {
    if a != [] && b != [] && c != [] && a[0] == b[0] && b[0] == c[0] {
      LexLessTransitive(a[1..], b[1..], c[1..]);
    }
  }

  /** The order by character code is a strict total order. */
  lemma LexLessTotal(a: string, b: string)
    ensures a == b || LexLess(a, b) || LexLess(b, a)
    ensures !(LexLess(a, b) && LexLess(b, a))
    ensures !LexLess(a, a)
  {
    LexCompareZero(a, b);
    LexCompareAntisymmetric(a, b);
    LexCompareZero(a, a);
  }

  // ---------------------------------------------------------------------
  // trim

  /** The number of white-space characters `s` starts with. */
  function LeadingSpaces(s: string): (n: nat)
    ensures n <= |s|
    ensures forall i :: 0 <= i < n ==> IsSpace(s[i])
    ensures n == |s| || !IsSpace(s[n])
  {
    if s != [] && IsSpace(s[0]) then 1 + LeadingSpaces(s[1..]) else 0
  }

  /** Where the white space that ends `s[lo..hi]` begins. */
  function TrailingSpacesFrom(s: string, lo: nat, hi: nat): (m: nat)
    requires lo <= hi <= |s|
    ensures lo <= m <= hi
    ensures forall i :: m <= i < hi ==> IsSpace(s[i])
    ensures m == lo || !IsSpace(s[m - 1])
    decreases hi
  {
    if hi > lo && IsSpace(s[hi - 1]) then TrailingSpacesFrom(s, lo, hi - 1) else hi
  }

  /** `s.trim()`: the slice of `s` left after dropping white space at both
      ends; empty exactly when `s` is all white space. */
  function Trim(s: string): (r: string)
    ensures exists i, j :: 0 <= i <= j <= |s| && r == s[i..j]
                           && (forall k :: 0 <= k < i ==> IsSpace(s[k]))
                           && (forall k :: j <= k < |s| ==> IsSpace(s[k]))
    ensures r == [] || (!IsSpace(r[0]) && !IsSpace(r[|r| - 1]))
    ensures r == [] <==> forall i :: 0 <= i < |s| ==> IsSpace(s[i])
  {
    var lo := LeadingSpaces(s);
    var hi := TrailingSpacesFrom(s, lo, |s|);
    s[lo..hi]
  }

  // ---------------------------------------------------------------------
  // split and join

  /** `s.split(d)` for a one-character separator. */
  function Split(s: string, d: char): (r: seq<string>)
    ensures |r| >= 1
    ensures forall k :: 0 <= k < |r| ==> d !in r[k]
  {
    if s == [] then [""]
    else
      var rest := Split(s[1..], d);
      if s[0] == d then [""] + rest
      else [[s[0]] + rest[0]] + rest[1..]
  }

  /** `parts.join(d)`. */
  function Join(parts: seq<string>, d: char): string
    requires |parts| >= 1
  {
    if |parts| == 1 then parts[0] else parts[0] + [d] + Join(parts[1..], d)
  }

  /** Splitting and joining back gives the original text. */
  lemma {:induction false} JoinSplit(s: string, d: char)
    ensures Join(Split(s, d), d) == s
  {
    if s != [] {
      JoinSplit(s[1..], d);
      var rest := Split(s[1..], d);
      if s[0] == d {
        assert ([""] + rest)[1..] == rest;
      } else {
        var r := [[s[0]] + rest[0]] + rest[1..];
        if |rest| == 1 {
          assert s == [s[0]] + s[1..];
        } else {
          assert r[1..] == rest[1..];
          assert Join(rest, d) == rest[0] + [d] + Join(rest[1..], d);
          assert s == [s[0]] + s[1..];
        }
      }
    }
  }

  // ---------------------------------------------------------------------
  // replace

  /** Index of the first occurrence of `pat` in `s` at or after `from`. */
  function IndexOf(s: string, pat: string, from: nat): (r: Option<nat>)
    requires from <= |s|
    ensures r.Some? ==> from <= r.value && ContainsAt(s, pat, r.value) &&
                        forall k :: from <= k < r.value ==> !ContainsAt(s, pat, k)
    ensures r.None? ==> forall k :: from <= k <= |s| ==> !ContainsAt(s, pat, k)
    decreases |s| - from
  {
    if ContainsAt(s, pat, from) then Some(from)
    else if from == |s| then None
    else IndexOf(s, pat, from + 1)
  }

  /** `s.replace(pat, rep)` with a string pattern: only the first
      occurrence is replaced. */
  function ReplaceFirst(s: string, pat: string, rep: string): string
  {
    match IndexOf(s, pat, 0)
    case None => s
    case Some(i) => s[..i] + rep + s[i + |pat|..]
  }

  /** Replacing a pattern with itself changes nothing. */
  lemma ReplaceSelf(s: string, pat: string)
    ensures ReplaceFirst(s, pat, pat) == s
  {
    match IndexOf(s, pat, 0)
    case None =>
    case Some(i) =>
      assert s[i..i + |pat|] == pat;
      assert s == s[..i] + s[i..i + |pat|] + s[i + |pat|..];
  }
}
