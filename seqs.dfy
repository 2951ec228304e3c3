/**
 * Generic sequence operations that the store's queries are built from:
 * filtering in store order, truncation to a limit, first-occurrence
 * de-duplication and a stable descending sort.
 */
module Seqs {

  /** `r` can be obtained from `s` by deleting elements; the order is kept. */
  predicate Subsequence<T(==)>(r: seq<T>, s: seq<T>)
    decreases |s|
  {
    if r == [] then true
    else if s == [] then false
    else (r[0] == s[0] && Subsequence(r[1..], s[1..])) || Subsequence(r, s[1..])
  }

  ghost predicate NoDups<T>(s: seq<T>) {
    forall i, j :: 0 <= i < j < |s| ==> s[i] != s[j]
  }

  /** The elements of `s` that satisfy `p`, in the order of `s`, each as often as in `s`. */
  function Filter<T(==,!new)>(s: seq<T>, p: T -> bool): (r: seq<T>)
    ensures forall x :: x in r <==> x in s && p(x)
    ensures forall x :: multiset(r)[x] == if p(x) then multiset(s)[x] else 0
    ensures Subsequence(r, s)
  {
    if s == [] then []
    else
      var rest := Filter(s[1..], p);
      assert s == [s[0]] + s[1..];
      if p(s[0]) then
        assert ([s[0]] + rest)[1..] == rest;
        [s[0]] + rest
      else rest
  }

  /** A filter that keeps every element changes nothing. */
  lemma {:induction false} FilterKeepsAll<T(!new)>(s: seq<T>, p: T -> bool)
    requires forall x :: x in s ==> p(x)
    ensures Filter(s, p) == s
  {
    if s != [] {
      FilterKeepsAll(s[1..], p);
    }
  }

  /** Filtering a sequence without duplicates gives a sequence without duplicates. */
  lemma {:induction false} FilterNoDups<T(!new)>(s: seq<T>, p: T -> bool)
    requires NoDups(s)
    ensures NoDups(Filter(s, p))
  {
    NoDupsMultiset(s);
    NoDupsMultiset(Filter(s, p));
  }

  function Take<T>(s: seq<T>, n: nat): (r: seq<T>)
    ensures |r| == if n < |s| then n else |s|
    ensures r == s[..|r|]
  {
    if n < |s| then s[..n] else s
  }

  lemma TakeMultiset<T>(s: seq<T>, n: nat)
    ensures multiset(Take(s, n)) <= multiset(s)
  {
    var k := |Take(s, n)|;
    assert s == s[..k] + s[k..];
  }

  /** A sequence has no duplicates exactly when no element occurs in it twice. */
  lemma {:induction false} NoDupsMultiset<T>(s: seq<T>)
    ensures NoDups(s) <==> forall x :: multiset(s)[x] <= 1
  {
    if s != [] {
      var t := s[1..];
      assert s == [s[0]] + t;
      NoDupsMultiset(t);
      if NoDups(s) {
        assert NoDups(t) by {
          forall i, j | 0 <= i < j < |t| ensures t[i] != t[j] {
            assert t[i] == s[i + 1] && t[j] == s[j + 1];
          }
        }
        assert s[0] !in t by {
          forall k | 0 <= k < |t| ensures t[k] != s[0] {
            assert t[k] == s[k + 1];
          }
        }
      }
      if forall x :: multiset(s)[x] <= 1 {
        assert s[0] !in t by {
          assert multiset(s)[s[0]] == 1 + multiset(t)[s[0]];
        }
        assert forall x :: multiset(t)[x] <= multiset(s)[x];
        forall i, j | 0 <= i < j < |s| ensures s[i] != s[j] {
          if i == 0 {
            assert s[j] == t[j - 1];
          } else {
            assert s[i] == t[i - 1] && s[j] == t[j - 1];
          }
        }
      }
    }
  }

  /** A rearrangement of a sequence without duplicates has none either. */
  lemma PermutationNoDups<T>(s: seq<T>, t: seq<T>)
    requires multiset(s) == multiset(t) && NoDups(s)
    ensures NoDups(t)
  {
    NoDupsMultiset(s);
    NoDupsMultiset(t);
  }

  /** The elements of `s` in the order of their first occurrence, each once. */
  function Distinct<T(==,!new)>(s: seq<T>): (r: seq<T>)
    ensures forall x :: x in r <==> x in s
    ensures NoDups(r)
    decreases |s|
  {
    if s == [] then []
    else
      var d := Distinct(s[..|s| - 1]);
      var last := s[|s| - 1];
      assert s == s[..|s| - 1] + [last];
      if last in d then d else d + [last]
  }

  /** A sequence without duplicates is as long as the set of its elements is large. */
  lemma {:induction false} NoDupsCardinality<T>(s: seq<T>)
    requires NoDups(s)
    ensures |set x | x in s| == |s|
  {
    if s != [] {
      var t := s[..|s| - 1];
      var last := s[|s| - 1];
      assert NoDups(t);
      NoDupsCardinality(t);
      assert last !in t by {
        forall k | 0 <= k < |t| ensures t[k] != last {
          assert t[k] == s[k];
        }
      }
      assert (set x | x in s) == (set x | x in t) + {last};
    }
  }

  /** `above(a, b)` says that `a` may come before `b` in a descending order. */
  ghost predicate TotalPreorder<T(!new)>(above: (T, T) -> bool) {
    && (forall a, b :: above(a, b) || above(b, a))
    && (forall a, b, c :: above(a, b) && above(b, c) ==> above(a, c))
  }

  ghost predicate SortedBy<T>(s: seq<T>, above: (T, T) -> bool) {
    forall i, j :: 0 <= i < j < |s| ==> above(s[i], s[j])
  }

  /** Puts `x` in front of the first element it ranks at or above. */
  function Insert<T>(x: T, s: seq<T>, above: (T, T) -> bool): (r: seq<T>)
    ensures multiset(r) == multiset(s) + multiset{x}
  {
    if s == [] || above(x, s[0]) then [x] + s
    else
      assert s == [s[0]] + s[1..];
      [s[0]] + Insert(x, s[1..], above)
  }

  /**
   * Insertion sort, descending by `above`; an element comes before the later
   * elements it ties with, so equal elements keep their relative order.
   */
  function SortDesc<T>(s: seq<T>, above: (T, T) -> bool): (r: seq<T>)
    ensures multiset(r) == multiset(s)
  {
    if s == [] then []
    else
      assert s == [s[0]] + s[1..];
      Insert(s[0], SortDesc(s[1..], above), above)
  }

  lemma {:induction false} InsertSorted<T(!new)>(x: T, s: seq<T>, above: (T, T) -> bool)
    requires TotalPreorder(above) && SortedBy(s, above)
    ensures SortedBy(Insert(x, s, above), above)
  {
    var r := Insert(x, s, above);
    if s == [] {
    } else if above(x, s[0]) {
      forall i, j | 0 <= i < j < |r| ensures above(r[i], r[j]) {
        if i == 0 {
          assert r[j] == s[j - 1];
          if j > 1 { assert above(s[0], s[j - 1]); }
        } else {
          assert r[i] == s[i - 1] && r[j] == s[j - 1];
        }
      }
    } else {
      var t := s[1..];
      var rest := Insert(x, t, above);
      assert SortedBy(t, above);
      InsertSorted(x, t, above);
      assert r == [s[0]] + rest;
      assert above(s[0], x);
      forall i, j | 0 <= i < j < |r| ensures above(r[i], r[j]) {
        if i == 0 {
          var y := rest[j - 1];
          assert r[j] == y;
          assert y in multiset(rest);
          assert y == x || y in t;
        } else {
          assert r[i] == rest[i - 1] && r[j] == rest[j - 1];
        }
      }
    }
  }

  lemma {:induction false} SortDescSorted<T(!new)>(s: seq<T>, above: (T, T) -> bool)
    requires TotalPreorder(above)
    ensures SortedBy(SortDesc(s, above), above)
  {
    if s != [] {
      SortDescSorted(s[1..], above);
      InsertSorted(s[0], SortDesc(s[1..], above), above);
    }
  }

  /** The sort returns the elements it was given, each as often. */
  lemma SortDescLength<T>(s: seq<T>, above: (T, T) -> bool)
    ensures |SortDesc(s, above)| == |s|
  {
    assert |multiset(SortDesc(s, above))| == |multiset(s)|;
  }

  lemma {:induction false} PrefixSubsequence<T>(s: seq<T>, n: nat)
    requires n <= |s|
    ensures Subsequence(s[..n], s)
  {
    if n > 0 {
      PrefixSubsequence(s[1..], n - 1);
      assert s[..n][1..] == s[1..][..n - 1];
    }
  }

  lemma {:induction false} SubsequenceTransitive<T>(a: seq<T>, b: seq<T>, c: seq<T>)
    requires Subsequence(a, b) && Subsequence(b, c)
    ensures Subsequence(a, c)
    decreases |c|
  {
    if a != [] {
      if b[0] == c[0] && Subsequence(b[1..], c[1..]) {
        if a[0] == b[0] && Subsequence(a[1..], b[1..]) {
          SubsequenceTransitive(a[1..], b[1..], c[1..]);
        } else {
          SubsequenceTransitive(a, b[1..], c[1..]);
        }
      } else {
        SubsequenceTransitive(a, b, c[1..]);
      }
    }
  }

  /**
   * Truncating a sorted sequence to its first `n` elements leaves out only
   * elements that rank at or below the last one kept.
   */
  lemma TakeOfSorted<T>(s: seq<T>, above: (T, T) -> bool, n: nat)
    requires SortedBy(s, above) && n > 0
    ensures forall k :: 0 <= k < |s| && s[k] !in Take(s, n) ==> |Take(s, n)| == n && above(s[n - 1], s[k])
  {
  }

  /** Filters with predicates that agree everywhere select the same elements. */
  lemma {:induction false} FilterCongruent<T(!new)>(s: seq<T>, p: T -> bool, q: T -> bool)
    requires forall x :: p(x) == q(x)
    ensures Filter(s, p) == Filter(s, q)
  {
    if s != [] {
      FilterCongruent(s[1..], p, q);
    }
  }
}
