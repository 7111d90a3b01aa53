/**
 * The sorts the repository relies on (Python's `sorted`, pandas' `sort_values`,
 * SQL `ORDER BY`) are all modelled by one insertion sort parameterised by a
 * "strictly before" relation, together with the head/tail selections applied to
 * the sorted list.
 */
module Sorting {

  ghost predicate StrictOrder<T(!new)>(lt: (T, T) -> bool) {
    && (forall a :: !lt(a, a))
    && (forall a, b, c :: lt(a, b) && lt(b, c) ==> lt(a, c))
  }

  /** No element is strictly before an element that precedes it. */
  predicate SortedBy<T>(s: seq<T>, lt: (T, T) -> bool) {
    forall i, j :: 0 <= i < j < |s| ==> !lt(s[j], s[i])
  }

  /** Places `x` in front of the first element it is strictly before. */
  function Insert<T>(x: T, s: seq<T>, lt: (T, T) -> bool): (r: seq<T>)
    ensures multiset(r) == multiset(s) + multiset{x}
  {
    if s == [] then [x]
    else if lt(x, s[0]) then [x] + s
    else
      assert s == [s[0]] + s[1..];
      [s[0]] + Insert(x, s[1..], lt)
  }

  function SortBy<T>(s: seq<T>, lt: (T, T) -> bool): (r: seq<T>)
    ensures multiset(r) == multiset(s)
  {
    if s == [] then []
    else
      assert s == s[..|s| - 1] + [s[|s| - 1]];
      Insert(s[|s| - 1], SortBy(s[..|s| - 1], lt), lt)
  }

  lemma {:induction false} InsertSorted<T(!new)>(x: T, s: seq<T>, lt: (T, T) -> bool)
    requires StrictOrder(lt) && SortedBy(s, lt)
    ensures SortedBy(Insert(x, s, lt), lt)
  {
    if s != [] && !lt(x, s[0]) {
      InsertSorted(x, s[1..], lt);
      var r := Insert(x, s, lt);
      forall j | 0 < j < |r| ensures !lt(r[j], r[0]) {
        assert r[j] in multiset(Insert(x, s[1..], lt));
      }
    }
  }

  /** The sorted list is ordered and is a permutation of its input. */
  lemma {:induction false} SortBySorted<T(!new)>(s: seq<T>, lt: (T, T) -> bool)
    requires StrictOrder(lt)
    ensures SortedBy(SortBy(s, lt), lt)
    ensures multiset(SortBy(s, lt)) == multiset(s) && |SortBy(s, lt)| == |s|
  {
    if s != [] {
      SortBySorted(s[..|s| - 1], lt);
      InsertSorted(s[|s| - 1], SortBy(s[..|s| - 1], lt), lt);
    }
    assert |multiset(SortBy(s, lt))| == |multiset(s)|;
  }

  /** Sorting keeps exactly the elements it was given. */
  lemma SortByMembers<T>(s: seq<T>, lt: (T, T) -> bool)
    ensures forall x :: x in SortBy(s, lt) <==> x in s
  {
    forall x ensures x in SortBy(s, lt) <==> x in s {
      assert x in SortBy(s, lt) <==> x in multiset(SortBy(s, lt));
      assert x in s <==> x in multiset(s);
    }
  }

  /** In a sorted list nothing past the first n is strictly before anything in them. */
  lemma HeadDominates<T>(s: seq<T>, lt: (T, T) -> bool, n: nat, x: T)
    requires SortedBy(s, lt) && x in s && x !in Head(s, n)
    ensures |Head(s, n)| == n
    ensures forall y :: y in Head(s, n) ==> !lt(x, y)
  {
    forall y | y in Head(s, n) ensures !lt(x, y) {
      var j :| 0 <= j < |Head(s, n)| && Head(s, n)[j] == y;
      assert s[j] == y;
    }
  }

  /** In a sorted list nothing in the last n is strictly before anything outside them. */
  lemma TailDominated<T>(s: seq<T>, lt: (T, T) -> bool, n: nat, x: T)
    requires SortedBy(s, lt) && x in s && x !in Tail(s, n)
    ensures |Tail(s, n)| == n
    ensures forall y :: y in Tail(s, n) ==> !lt(y, x)
  {
    var k :| 0 <= k < |s| && s[k] == x;
    forall y | y in Tail(s, n) ensures !lt(y, x) {
      var j :| 0 <= j < |Tail(s, n)| && Tail(s, n)[j] == y;
      assert s[|s| - |Tail(s, n)| + j] == y;
    }
  }

  /** `s[:n]` (pandas `head(n)`) for n >= 0. */
  function Head<T>(s: seq<T>, n: nat): (r: seq<T>)
    ensures |r| == if n < |s| then n else |s|
    ensures r == s[..|r|]
  {
    if n < |s| then s[..n] else s
  }

  /** pandas `tail(n)` for n >= 0. */
  function Tail<T>(s: seq<T>, n: nat): (r: seq<T>)
    ensures |r| == if n < |s| then n else |s|
    ensures r == s[|s| - |r|..]
  {
    if n < |s| then s[|s| - n..] else s
  }

  /** Python's `s[start:]` for any integer start, negative counting from the end. */
  function PySliceFrom<T>(s: seq<T>, start: int): (r: seq<T>)
    ensures |r| <= |s| && s == s[..|s| - |r|] + r
    ensures start < 0 ==> |r| == (if -start < |s| then -start else |s|)
    ensures start >= 0 ==> |r| == (if start < |s| then |s| - start else 0)
  {
    var k := if start < 0 then (if |s| + start < 0 then 0 else |s| + start)
             else if start < |s| then start else |s|;
    s[k..]
  }
}
