/** Sequence utilities shared by the components: the array methods the
    source uses (`filter`, `find`, `slice`, `includes`) as functions over
    `seq`, with the facts the rest of the model relies on. */
module Seqs {

  /** `T | null` / `T | undefined` of the source. */
  datatype Option<T> = None | Some(value: T)

  /** `a` is an order-preserving subsequence of `b`. */
  ghost predicate SubseqOf<T>(a: seq<T>, b: seq<T>)
    decreases |b|
  {
    a == [] || (b != [] && ((a[0] == b[0] && SubseqOf(a[1..], b[1..])) || SubseqOf(a, b[1..])))
  }

  /** Every sequence is a subsequence of itself. */
  lemma {:induction false} SubseqRefl<T>(s: seq<T>)
    ensures SubseqOf(s, s)
  {
    if s != [] {
      SubseqRefl(s[1..]);
    }
  }

  /** `s.filter(p)`: keeps, in order, every element satisfying `p`. */
  function Filter<T(!new)>(s: seq<T>, p: T -> bool): (r: seq<T>)
    ensures |r| <= |s|
    ensures (exists i :: 0 <= i < |s| && !p(s[i])) ==> |r| < |s|
    ensures forall x :: x in r <==> x in s && p(x)
    ensures SubseqOf(r, s)
  {
    if s == [] then []
    else
      var rest := Filter(s[1..], p);
      assert s == [s[0]] + s[1..];
      assert (exists i :: 0 <= i < |s| && !p(s[i])) && p(s[0]) ==>
             exists i :: 0 <= i < |s[1..]| && !p(s[1..][i]);
      if p(s[0]) then
        assert ([s[0]] + rest)[1..] == rest;
        [s[0]] + rest
      else rest
  }

  /** Filtering keeps every occurrence of a satisfying element and none of
      the others. */
  lemma {:induction false} FilterCount<T(!new)>(s: seq<T>, p: T -> bool, x: T)
    ensures multiset(Filter(s, p))[x] == if p(x) then multiset(s)[x] else 0
  {
    if s != [] {
      FilterCount(s[1..], p, x);
      assert s == [s[0]] + s[1..];
    }
  }

  /** Filtering twice with the same predicate is filtering once. */
  lemma {:induction false} FilterIdempotent<T(!new)>(s: seq<T>, p: T -> bool)
    ensures Filter(Filter(s, p), p) == Filter(s, p)
  {
    if s != [] {
      FilterIdempotent(s[1..], p);
      var rest := Filter(s[1..], p);
      if p(s[0]) {
        assert ([s[0]] + rest)[1..] == rest;
      }
    }
  }

  /** Two predicates that agree on every element of `s` filter it alike. */
  lemma {:induction false} FilterExt<T(!new)>(s: seq<T>, p: T -> bool, q: T -> bool)
    requires forall i :: 0 <= i < |s| ==> p(s[i]) == q(s[i])
    ensures Filter(s, p) == Filter(s, q)
  {
    if s != [] {
      FilterExt(s[1..], p, q);
    }
  }

  /** Filtering a concatenation filters each part. */
  lemma {:induction false} FilterAppend<T(!new)>(a: seq<T>, b: seq<T>, p: T -> bool)
    ensures Filter(a + b, p) == Filter(a, p) + Filter(b, p)
  {
    if a == [] {
      assert a + b == b;
    } else {
      assert (a + b)[1..] == a[1..] + b;
      FilterAppend(a[1..], b, p);
    }
  }

  /** A predicate that holds everywhere keeps the whole sequence. */
  lemma {:induction false} FilterAll<T(!new)>(s: seq<T>, p: T -> bool)
    requires forall i :: 0 <= i < |s| ==> p(s[i])
    ensures Filter(s, p) == s
  {
    if s != [] {
      FilterAll(s[1..], p);
      assert s == [s[0]] + s[1..];
    }
  }

  /** `s.slice(0, n)` for a non-negative `n`. */
  function Take<T>(s: seq<T>, n: nat): (r: seq<T>)
    ensures |r| == if n < |s| then n else |s|
    ensures forall i :: 0 <= i < |r| ==> r[i] == s[i]
    ensures s == r + s[|r|..]
    ensures multiset(r) <= multiset(s)
  {
    if n < |s| then
      assert s == s[..n] + s[n..];
      s[..n]
    else s
  }

  /** A prefix of a subsequence of `b` is a subsequence of `b`. */
  lemma {:induction false} TakeSubseq<T>(a: seq<T>, b: seq<T>, n: nat)
    requires SubseqOf(a, b)
    ensures SubseqOf(Take(a, n), b)
    decreases |b|
  {
    var t := Take(a, n);
    if t != [] {
      assert a != [] && b != [];
      if a[0] == b[0] && SubseqOf(a[1..], b[1..]) {
        TakeSubseq(a[1..], b[1..], n - 1);
        assert Take(a[1..], n - 1) == t[1..];
      } else {
        TakeSubseq(a, b[1..], n);
      }
    }
  }

  /** `s.find(p)`: the first element satisfying `p`, if any. */
  function FindFirst<T(==)>(s: seq<T>, p: T -> bool): (r: Option<T>)
    ensures r.None? <==> forall i :: 0 <= i < |s| ==> !p(s[i])
    ensures r.Some? ==> exists i :: 0 <= i < |s| && s[i] == r.value && p(s[i]) &&
                                    forall j :: 0 <= j < i ==> !p(s[j])
  {
    if s == [] then None
    else if p(s[0]) then Some(s[0])
    else
      var r := FindFirst(s[1..], p);
      if r.Some? then
        var i :| 0 <= i < |s[1..]| && s[1..][i] == r.value && p(s[1..][i]) &&
                 forall j :: 0 <= j < i ==> !p(s[1..][j]);
        assert s[i + 1] == r.value && forall j :: 0 <= j < i + 1 ==> !p(s[j]);
        r
      else r
  }

  /** The toggle used for id and amenity lists: an absent element is
      appended, a present one is removed (every occurrence). */
  function Toggle<T(==,!new)>(s: seq<T>, x: T): (r: seq<T>)
    ensures x in s ==> x !in r && |r| < |s| && SubseqOf(r, s)
    ensures x !in s ==> r == s + [x]
    ensures forall y :: y != x ==> (y in r <==> y in s)
  {
    if x in s then Filter(s, y => y != x) else s + [x]
  }

  /** The elements of a list without duplicates. */
  predicate NoDuplicates<T(==)>(s: seq<T>)
  {
    forall i, j :: 0 <= i < j < |s| ==> s[i] != s[j]
  }

  lemma {:induction false} FilterNoDuplicates<T(!new)>(s: seq<T>, p: T -> bool)
    requires NoDuplicates(s)
    ensures NoDuplicates(Filter(s, p))
  {
    if s != [] {
      FilterNoDuplicates(s[1..], p);
      var rest := Filter(s[1..], p);
      if p(s[0]) {
        assert s[0] !in s[1..];
        var r := [s[0]] + rest;
        forall i, j | 0 <= i < j < |r| ensures r[i] != r[j] {
          if i == 0 {
            assert r[j] in rest;
          }
        }
      }
    }
  }

  /** Toggling keeps a duplicate-free list duplicate-free. */
  lemma ToggleNoDuplicates<T(!new)>(s: seq<T>, x: T)
    requires NoDuplicates(s)
    ensures NoDuplicates(Toggle(s, x))
  {
    if x in s {
      FilterNoDuplicates(s, y => y != x);
    }
  }

  /** Removing a present element leaves every other element with its
      count, in its order. */
  lemma ToggleRemoves<T(!new)>(s: seq<T>, x: T)
    requires x in s
    ensures SubseqOf(Toggle(s, x), s)
    ensures forall y :: multiset(Toggle(s, x))[y] == if y == x then 0 else multiset(s)[y]
  {
    forall y ensures multiset(Toggle(s, x))[y] == if y == x then 0 else multiset(s)[y] {
      FilterCount(s, z => z != x, y);
    }
  }

  /** Toggling the same element twice restores the set of elements, and
      restores the list itself when the element was absent. */
  lemma ToggleTwice<T(!new)>(s: seq<T>, x: T)
    ensures forall y :: y in Toggle(Toggle(s, x), x) <==> y in s
    ensures x !in s ==> Toggle(Toggle(s, x), x) == s
  {
    if x !in s {
      var t := s + [x];
      FilterAll(s, y => y != x);
      FilterAppend(s, [x], y => y != x);
      assert Filter([x], y => y != x) == [];
    }
  }

  /** Two positions holding the same element count twice. */
  lemma TwoOccurrences<T>(s: seq<T>, i: nat, j: nat)
    requires i < j < |s| && s[i] == s[j]
    ensures multiset(s)[s[i]] >= 2
  {
    assert s == s[..i] + [s[i]] + s[i + 1..j] + [s[j]] + s[j + 1..];
  }

  /** An element occurs at most once in a duplicate-free list. */
  lemma {:induction false} NoDuplicatesCount<T>(s: seq<T>, x: T)
    requires NoDuplicates(s)
    ensures multiset(s)[x] <= 1
  {
    if s != [] {
      NoDuplicatesCount(s[1..], x);
      assert s == [s[0]] + s[1..];
      if s[0] == x {
        assert x !in s[1..];
      }
    }
  }

  /** A permutation of a duplicate-free list is duplicate-free. */
  lemma PermutationNoDuplicates<T>(a: seq<T>, b: seq<T>)
    requires multiset(a) == multiset(b) && NoDuplicates(a)
    ensures NoDuplicates(b)
  {
    forall i, j | 0 <= i < j < |b| ensures b[i] != b[j] {
      if b[i] == b[j] {
        TwoOccurrences(b, i, j);
        NoDuplicatesCount(a, b[i]);
      }
    }
  }
}
