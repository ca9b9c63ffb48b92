/** Order-preserving filtering and stable sorting of sequences: the two
    shapes every dataframe step of the dashboard reduces to. */
module Sequences {
  import opened Wrappers

  /** `le` is a total preorder: every pair is comparable and it chains. */
  ghost predicate TotalPreorder<T(!new)>(le: (T, T) -> bool)
  {
    && (forall a, b :: le(a, b) || le(b, a))
    && (forall a, b, c :: le(a, b) && le(b, c) ==> le(a, c))
  }

  /** Every element is `le` every later element. */
  ghost predicate SortedBy<T>(s: seq<T>, le: (T, T) -> bool)
  {
    forall i, j :: 0 <= i < j < |s| ==> le(s[i], s[j])
  }

  /** `r` is obtained from `s` by deleting elements, keeping the order. */
  ghost predicate Subsequence<T>(r: seq<T>, s: seq<T>)
    decreases |s|
  {
    if r == [] then true
    else if s == [] then false
    else (r[0] == s[0] && Subsequence(r[1..], s[1..])) || Subsequence(r, s[1..])
  }

  /** Boolean-mask selection `df[mask]`: the rows satisfying `p`, each as
      often as in `s`, in their original order. */
  function Filter<T(!new)>(s: seq<T>, p: T -> bool): (r: seq<T>)
    ensures Subsequence(r, s)
    ensures forall x :: multiset(r)[x] == if p(x) then multiset(s)[x] else 0
    ensures forall x :: x in r ==> p(x)
  {
    if s == [] then []
    else
      assert s == [s[0]] + s[1..];
      if p(s[0]) then [s[0]] + Filter(s[1..], p) else Filter(s[1..], p)
  }

  lemma {:induction false} SubsequenceOfItself<T>(s: seq<T>)
    ensures Subsequence(s, s)
    decreases |s|
  {
    if s != [] {
      SubsequenceOfItself(s[1..]);
    }
  }

  lemma {:induction false} SubsequenceMembers<T>(r: seq<T>, s: seq<T>)
    requires Subsequence(r, s)
    ensures forall x :: x in r ==> x in s
    decreases |s|
  {
    if r != [] {
      if r[0] == s[0] && Subsequence(r[1..], s[1..]) {
        SubsequenceMembers(r[1..], s[1..]);
        assert r == [r[0]] + r[1..];
      } else {
        SubsequenceMembers(r, s[1..]);
      }
    }
  }

  /** Dropping rows never breaks an order the table already had. */
  lemma {:induction false} SubsequenceKeepsOrder<T>(r: seq<T>, s: seq<T>, le: (T, T) -> bool)
    requires Subsequence(r, s) && SortedBy(s, le)
    ensures SortedBy(r, le)
    decreases |s|
  {
    if r != [] {
      assert SortedBy(s[1..], le) by {
        forall i, j | 0 <= i < j < |s| - 1 ensures le(s[1..][i], s[1..][j]) {
          assert s[1..][i] == s[i + 1] && s[1..][j] == s[j + 1];
        }
      }
      if r[0] == s[0] && Subsequence(r[1..], s[1..]) {
        SubsequenceKeepsOrder(r[1..], s[1..], le);
        SubsequenceMembers(r[1..], s[1..]);
        forall i, j | 0 <= i < j < |r| ensures le(r[i], r[j]) {
          if i == 0 {
            assert r[j] == r[1..][j - 1];
            assert r[j] in s[1..];
          } else {
            assert r[i] == r[1..][i - 1] && r[j] == r[1..][j - 1];
          }
        }
      } else {
        SubsequenceKeepsOrder(r, s[1..], le);
      }
    }
  }

  /** Putting `a` in front of a sorted sequence keeps it sorted when `a` is
      `le` every element. */
  lemma {:induction false} ConsSorted<T>(a: T, t: seq<T>, le: (T, T) -> bool)
    requires SortedBy(t, le)
    requires forall y :: y in multiset(t) ==> le(a, y)
    ensures SortedBy([a] + t, le)
  {
    var r := [a] + t;
    forall i, j | 0 <= i < j < |r| ensures le(r[i], r[j]) {
      assert r[j] == t[j - 1];
      assert t[j - 1] in multiset(t);
      if i > 0 {
        assert r[i] == t[i - 1];
      }
    }
  }

  /** In a sorted sequence the head is `le` everything after it. */
  lemma {:induction false} HeadIsLeast<T>(s: seq<T>, le: (T, T) -> bool)
    requires s != [] && SortedBy(s, le)
    ensures forall y :: y in multiset(s[1..]) ==> le(s[0], y)
  {
    forall y | y in multiset(s[1..]) ensures le(s[0], y) {
      assert y in s[1..];
      var k :| 0 <= k < |s| - 1 && s[1..][k] == y;
      assert s[k + 1] == y;
    }
  }

  /** Inserts `x` in front of the first element it is `le`, so that `x`
      stays ahead of the elements it ties with. */
  function Insert<T(!new)>(x: T, s: seq<T>, le: (T, T) -> bool): (r: seq<T>)
    requires TotalPreorder(le) && SortedBy(s, le)
    ensures multiset(r) == multiset(s) + multiset{x}
    ensures SortedBy(r, le)
  {
    if s == [] then [x]
    else
      assert s == [s[0]] + s[1..];
      HeadIsLeast(s, le);
      if le(x, s[0]) then
        ConsSorted(x, s, le);
        [x] + s
      else
        var t := Insert(x, s[1..], le);
        ConsSorted(s[0], t, le);
        [s[0]] + t
  }

  /** Stable insertion sort: a permutation of `s`, ordered by `le`. */
  function SortBy<T(!new)>(s: seq<T>, le: (T, T) -> bool): (r: seq<T>)
    requires TotalPreorder(le)
    ensures multiset(r) == multiset(s)
    ensures SortedBy(r, le)
    ensures |r| == |s|
  {
    if s == [] then []
    else
      assert s == [s[0]] + s[1..];
      Insert(s[0], SortBy(s[1..], le), le)
  }

  /** Some element of `s` has key `k`; elements whose key is missing have
      none (they fall out of a `groupby`). */
  ghost predicate HasKey<T, K>(s: seq<T>, key: T -> Option<K>, k: K)
  {
    exists i :: 0 <= i < |s| && key(s[i]) == Some(k)
  }

  lemma {:induction false} HasKeySplit<T, K>(s: seq<T>, key: T -> Option<K>, k: K)
    requires s != []
    ensures HasKey(s, key, k) <==> key(s[0]) == Some(k) || HasKey(s[1..], key, k)
  {
    if HasKey(s, key, k) && key(s[0]) != Some(k) {
      var i :| 0 <= i < |s| && key(s[i]) == Some(k);
      assert s[1..][i - 1] == s[i];
    }
    if HasKey(s[1..], key, k) {
      var i :| 0 <= i < |s| - 1 && key(s[1..][i]) == Some(k);
      assert s[i + 1] == s[1..][i];
    }
  }

  /** No element occurs twice. */
  ghost predicate NoDuplicates<T>(s: seq<T>)
  {
    forall i, j :: 0 <= i < j < |s| ==> s[i] != s[j]
  }

  lemma {:induction false} NoDuplicatesCountsOnce<T>(s: seq<T>, x: T)
    requires NoDuplicates(s)
    ensures multiset(s)[x] <= 1
  {
    if s != [] {
      assert s == [s[0]] + s[1..];
      assert NoDuplicates(s[1..]) by {
        forall i, j | 0 <= i < j < |s| - 1 ensures s[1..][i] != s[1..][j] {
          assert s[1..][i] == s[i + 1] && s[1..][j] == s[j + 1];
        }
      }
      NoDuplicatesCountsOnce(s[1..], x);
      if s[0] == x {
        assert x !in s[1..] by {
          forall k | 0 <= k < |s| - 1 ensures s[1..][k] != x {
            assert s[1..][k] == s[k + 1];
          }
        }
      }
    }
  }

  /** A permutation of a sequence without repeats has no repeats. */
  lemma {:induction false} PermutationKeepsNoDuplicates<T>(a: seq<T>, b: seq<T>)
    requires multiset(a) == multiset(b) && NoDuplicates(a)
    ensures NoDuplicates(b)
  {
    forall i, j | 0 <= i < j < |b| ensures b[i] != b[j] {
      if b[i] == b[j] {
        assert b == b[..j] + b[j..];
        assert b[i] in b[..j] && b[j] in b[j..];
        assert multiset(b)[b[i]] == multiset(b[..j])[b[i]] + multiset(b[j..])[b[i]];
        NoDuplicatesCountsOnce(a, b[i]);
        assert false;
      }
    }
  }
}
