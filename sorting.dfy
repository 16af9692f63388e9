/** `Array.prototype.sort` with a comparator. The runtime's sort is stable:
    an element moves in front of an earlier one only when the comparator
    says it must come first. `before(a, b)` stands for `compare(a, b) < 0`.
    The specification is a stable insertion sort on sequences; the source
    sorts an array in place, which `SortInPlace` does. */
module Sorting {
  import opened Seqs

  /** The comparator is consistent: `before` is irreflexive and transitive,
      and being "not before" is transitive too (so ties form classes). */
  ghost predicate StrictWeakOrder<T(!new)>(before: (T, T) -> bool)
  {
    && (forall a :: !before(a, a))
    && (forall a, b, c :: before(a, b) && before(b, c) ==> before(a, c))
    && (forall a, b, c :: !before(a, b) && !before(b, c) ==> !before(a, c))
  }

  /** No element is required to come before an element to its left. */
  ghost predicate Sorted<T>(s: seq<T>, before: (T, T) -> bool)
  {
    forall i, j :: 0 <= i < j < |s| ==> !before(s[j], s[i])
  }

  /** Inserts `x` in front of the first element it does not have to follow. */
  function Insert<T>(x: T, s: seq<T>, before: (T, T) -> bool): (r: seq<T>)
    ensures |r| == |s| + 1
  {
    if s == [] || !before(s[0], x) then [x] + s
    else [s[0]] + Insert(x, s[1..], before)
  }

  /** Stable sort by `before`. */
  function InsertionSort<T>(s: seq<T>, before: (T, T) -> bool): (r: seq<T>)
    ensures |r| == |s|
  {
    if s == [] then []
    else Insert(s[0], InsertionSort(s[1..], before), before)
  }

  lemma {:induction false} InsertPermutes<T>(x: T, s: seq<T>, before: (T, T) -> bool)
    ensures multiset(Insert(x, s, before)) == multiset(s) + multiset{x}
  {
    if s != [] && before(s[0], x) {
      InsertPermutes(x, s[1..], before);
      assert s == [s[0]] + s[1..];
    }
  }

  /** The sort's result is a permutation of its input. */
  lemma {:induction false} SortPermutes<T>(s: seq<T>, before: (T, T) -> bool)
    ensures multiset(InsertionSort(s, before)) == multiset(s)
  {
    if s != [] {
      SortPermutes(s[1..], before);
      InsertPermutes(s[0], InsertionSort(s[1..], before), before);
      assert s == [s[0]] + s[1..];
    }
  }

  /** The elements tied with `z`: neither has to precede the other. */
  function TiedWith<T>(before: (T, T) -> bool, z: T): T -> bool
  {
    y => !before(y, z) && !before(z, y)
  }

  lemma {:induction false} InsertSorted<T(!new)>(x: T, s: seq<T>, before: (T, T) -> bool)
    requires StrictWeakOrder(before)
    requires Sorted(s, before)
    ensures Sorted(Insert(x, s, before), before)
  {
    var r := Insert(x, s, before);
    if s == [] || !before(s[0], x) {
      forall i, j | 0 <= i < j < |r| ensures !before(r[j], r[i]) {
        if i == 0 && j > 1 {
          assert !before(s[j - 1], s[0]);
        }
      }
    } else {
      var rest := Insert(x, s[1..], before);
      InsertSorted(x, s[1..], before);
      InsertPermutes(x, s[1..], before);
      forall i, j | 0 <= i < j < |r| ensures !before(r[j], r[i]) {
        if i == 0 {
          var e := rest[j - 1];
          assert e in multiset(rest);
          if e == x {
            assert !before(x, s[0]);
          } else {
            assert e in multiset(s[1..]);
            var k :| 0 <= k < |s[1..]| && s[1..][k] == e;
            assert s[k + 1] == e;
          }
        }
      }
    }
  }

  /** The sort's result is sorted. */
  lemma {:induction false} SortedResult<T(!new)>(s: seq<T>, before: (T, T) -> bool)
    requires StrictWeakOrder(before)
    ensures Sorted(InsertionSort(s, before), before)
  {
    if s != [] {
      SortedResult(s[1..], before);
      InsertSorted(s[0], InsertionSort(s[1..], before), before);
    }
  }

  lemma {:induction false} InsertStable<T(!new)>(x: T, s: seq<T>, before: (T, T) -> bool, z: T)
    requires StrictWeakOrder(before)
    ensures Filter(Insert(x, s, before), TiedWith(before, z)) ==
            Filter([x], TiedWith(before, z)) + Filter(s, TiedWith(before, z))
  {
    var p := TiedWith(before, z);
    if s == [] || !before(s[0], x) {
      FilterAppend([x], s, p);
    } else {
      InsertStable(x, s[1..], before, z);
      FilterAppend([s[0]], Insert(x, s[1..], before), p);
      FilterAppend([s[0]], s[1..], p);
      assert s == [s[0]] + s[1..];
      assert !(p(s[0]) && p(x));
    }
  }

  /** The sort is stable: the elements tied with any `z` keep their order. */
  lemma {:induction false} SortStable<T(!new)>(s: seq<T>, before: (T, T) -> bool, z: T)
    requires StrictWeakOrder(before)
    ensures Filter(InsertionSort(s, before), TiedWith(before, z)) == Filter(s, TiedWith(before, z))
  {
    if s != [] {
      SortStable(s[1..], before, z);
      InsertStable(s[0], InsertionSort(s[1..], before), before, z);
      FilterAppend([s[0]], s[1..], TiedWith(before, z));
      assert s == [s[0]] + s[1..];
    }
  }

  /** Where `Insert` puts `x`: after the `m` leading elements that must
      precede it. */
  lemma {:induction false} InsertAt<T>(x: T, s: seq<T>, before: (T, T) -> bool, m: nat)
    requires m <= |s|
    requires forall k :: 0 <= k < m ==> before(s[k], x)
    requires m == |s| || !before(s[m], x)
    ensures Insert(x, s, before) == s[..m] + [x] + s[m..]
  {
    if m > 0 {
      var t := s[1..];
      assert forall k :: 0 <= k < m - 1 ==> t[k] == s[k + 1];
      assert m - 1 == |t| || t[m - 1] == s[m];
      InsertAt(x, t, before, m - 1);
      assert before(s[0], x);
      assert Insert(x, s, before) == [s[0]] + Insert(x, t, before);
      assert t[..m - 1] == s[1..m];
      assert t[m - 1..] == s[m..];
      assert s[..m] == [s[0]] + s[1..m];
    } else {
      assert s[..0] == [] && s[0..] == s;
    }
  }

  /** Sorts `a` in place, as `filtered.sort(compare)` does. */
  method SortInPlace<T>(a: array<T>, before: (T, T) -> bool)
    modifies a
    ensures a[..] == InsertionSort(old(a[..]), before)
  {
    ghost var a0 := a[..];
    var i := a.Length;
    while i > 0
      invariant 0 <= i <= a.Length
      invariant a[..i] == a0[..i]
      invariant a[i..] == InsertionSort(a0[i..], before)
    {
      i := i - 1;
      assert a0[i..] == [a0[i]] + a0[i + 1..];
      InsertInto(a, i, before);
    }
    assert a[..] == a[0..] && a0 == a0[0..];
  }

  /** One pass of the sort: moves `a[lo]` right past the elements of the
      sorted tail that must precede it. */
  method InsertInto<T>(a: array<T>, lo: nat, before: (T, T) -> bool)
    requires lo < a.Length
    modifies a
    ensures a[..lo] == old(a[..lo])
    ensures a[lo..] == Insert(old(a[lo]), old(a[lo + 1..]), before)
  {
    var x := a[lo];
    ghost var s := a[lo + 1..];
    var j := lo;
    while j + 1 < a.Length && before(a[j + 1], x)
      invariant lo <= j < a.Length
      invariant a[..lo] == old(a[..lo])
      invariant a[lo..j] == s[..j - lo]
      invariant a[j + 1..] == s[j - lo..]
      invariant forall k :: 0 <= k < j - lo ==> before(s[k], x)
    {
      a[j] := a[j + 1];
      j := j + 1;
    }
    a[j] := x;
    InsertAt(x, s, before, j - lo);
    assert a[lo..] == s[..j - lo] + [x] + s[j - lo..];
  }
}
