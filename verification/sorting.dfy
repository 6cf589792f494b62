/** A stable insertion sort on sequences, used for the `ORDER BY` clauses of
    the repositories. */
module Sorting {

  /** `leq` is total and transitive, as an `ORDER BY` key comparison is. */
  ghost predicate TotalPreorder<T(!new)>(leq: (T, T) -> bool)
  {
    && (forall a, b :: leq(a, b) || leq(b, a))
    && (forall a, b, c :: leq(a, b) && leq(b, c) ==> leq(a, c))
  }

  predicate SortedBy<T>(s: seq<T>, leq: (T, T) -> bool)
  {
    forall i, j :: 0 <= i < j < |s| ==> leq(s[i], s[j])
  }

  /** Inserts `x` before the first element it is not after. */
  function Insert<T(!new)>(x: T, s: seq<T>, leq: (T, T) -> bool): (r: seq<T>)
    requires TotalPreorder(leq)
    requires SortedBy(s, leq)
    ensures multiset(r) == multiset(s) + multiset{x}
    ensures SortedBy(r, leq)
  {
    if s == [] then [x]
    else if leq(x, s[0]) then [x] + s
    else
      var rest := Insert(x, s[1..], leq);
      assert s == [s[0]] + s[1..];
      assert forall k :: 0 <= k < |rest| ==> leq(s[0], rest[k]) by {
        forall k | 0 <= k < |rest|
          ensures leq(s[0], rest[k])
        {
          assert rest[k] in multiset(rest);
          if rest[k] != x {
            assert rest[k] in multiset(s[1..]);
            var j :| 0 <= j < |s[1..]| && s[1..][j] == rest[k];
            assert s[1 + j] == rest[k];
          }
        }
      }
      [s[0]] + rest
  }

  /** Sorts `s` by `leq`, keeping equal elements in their original order. */
  function InsertionSort<T(!new)>(s: seq<T>, leq: (T, T) -> bool): (r: seq<T>)
    requires TotalPreorder(leq)
    ensures multiset(r) == multiset(s)
    ensures SortedBy(r, leq)
  {
    if s == [] then []
    else
      assert s == [s[0]] + s[1..];
      Insert(s[0], InsertionSort(s[1..], leq), leq)
  }

  /** Sorting keeps exactly the elements of the input. */
  lemma SortKeepsElements<T(!new)>(s: seq<T>, leq: (T, T) -> bool, x: T)
    requires TotalPreorder(leq)
    ensures x in InsertionSort(s, leq) <==> x in s
  {
    var r := InsertionSort(s, leq);
    assert x in r <==> x in multiset(r);
    assert x in s <==> x in multiset(s);
  }

  /** No two elements of `s` share a key. */
  predicate DistinctBy<T, K(==)>(s: seq<T>, key: T -> K)
  {
    forall i, j :: 0 <= i < j < |s| ==> key(s[i]) != key(s[j])
  }

  /** An element found at two positions occurs at least twice. */
  lemma TwoPositionsTwice<T>(s: seq<T>, i: int, j: int)
    requires 0 <= i < j < |s| && s[i] == s[j]
    ensures multiset(s)[s[i]] >= 2
  {
    assert s == s[..i] + [s[i]] + s[i + 1..];
    assert s[i + 1..][j - i - 1] == s[i];
    assert s[i] in multiset(s[i + 1..]);
  }

  /** With distinct keys, no element occurs twice. */
  lemma {:induction false} DistinctByOnce<T, K>(s: seq<T>, key: T -> K, x: T)
    requires DistinctBy(s, key)
    ensures multiset(s)[x] <= 1
  {
    if s != [] {
      assert s == [s[0]] + s[1..];
      DistinctByOnce(s[1..], key, x);
      if x == s[0] {
        forall k | 0 <= k < |s[1..]|
          ensures s[1..][k] != x
        {
          assert key(s[1 + k]) != key(s[0]);
        }
        assert x !in multiset(s[1..]);
      }
    }
  }

  /** Rearranging a sequence keeps its keys distinct. */
  lemma PermutationKeepsDistinctBy<T, K>(a: seq<T>, b: seq<T>, key: T -> K)
    requires multiset(a) == multiset(b)
    requires DistinctBy(a, key)
    ensures DistinctBy(b, key)
  {
    forall i, j | 0 <= i < j < |b|
      ensures key(b[i]) != key(b[j])
    {
      if b[i] == b[j] {
        TwoPositionsTwice(b, i, j);
        DistinctByOnce(a, key, b[i]);
      } else {
        assert b[i] in multiset(a) && b[j] in multiset(a);
        var p :| 0 <= p < |a| && a[p] == b[i];
        var q :| 0 <= q < |a| && a[q] == b[j];
        assert p != q;
      }
    }
  }

  /** Code-point lexicographic order on strings. */
  predicate LexLeq(a: string, b: string)
  {
    a == [] || (b != [] && (a[0] < b[0] || (a[0] == b[0] && LexLeq(a[1..], b[1..]))))
  }

  lemma {:induction false} LexLeqTotal(a: string, b: string)
    ensures LexLeq(a, b) || LexLeq(b, a)
    decreases |a|
  {
    if a != [] && b != [] && a[0] == b[0] {
      LexLeqTotal(a[1..], b[1..]);
    }
  }

  lemma {:induction false} LexLeqTransitive(a: string, b: string, c: string)
    requires LexLeq(a, b) && LexLeq(b, c)
    ensures LexLeq(a, c)
    decreases |a|
  {
    if a != [] && b != [] && c != [] && a[0] == b[0] && b[0] == c[0] {
      LexLeqTransitive(a[1..], b[1..], c[1..]);
    }
  }
}
