/**
 * Python's `list.sort(key=...)` and `sorted(...)` on string keys: an in-place
 * insertion sort of an array by a string key, with the facts the report needs
 * about sequences whose keys are pairwise distinct.
 */
module Sorting {
  import opened PyStrings

  /** The keys of s are in Python's `<=` order. */
  ghost predicate SortedBy<T>(s: seq<T>, key: T -> string)
  {
    forall i, j :: 0 <= i < j < |s| ==> Le(key(s[i]), key(s[j]))
  }

  /** The keys of s are in Python's `<` order: sorted and without repeats. */
  ghost predicate StrictlySortedBy<T>(s: seq<T>, key: T -> string)
  {
    forall i, j :: 0 <= i < j < |s| ==> Lt(key(s[i]), key(s[j]))
  }

  /** No two positions of s hold the same key. */
  ghost predicate DistinctKeys<T>(s: seq<T>, key: T -> string)
  {
    forall i, j :: 0 <= i < j < |s| ==> key(s[i]) != key(s[j])
  }

  /** The insertion step's picture of a[..i+1] while a[j] is moved left: only pairs ending at j may be out of order. */
  ghost predicate SortedExceptAt<T>(s: seq<T>, key: T -> string, hi: int, j: int)
    requires 0 <= j <= hi < |s|
  {
    forall p, q :: 0 <= p < q <= hi && q != j ==> Le(key(s[p]), key(s[q]))
  }

  /** `a.sort(key=key)`: sorts a in place by key; the result is a permutation of the old contents. */
  method SortByKey<T>(a: array<T>, key: T -> string)
    modifies a
    ensures SortedBy(a[..], key)
    ensures multiset(a[..]) == multiset(old(a[..]))
  {
    if a.Length == 0 {
      return;
    }
    var i := 1;
    while i < a.Length
      invariant 1 <= i <= a.Length
      invariant SortedBy(a[..i], key)
      invariant multiset(a[..]) == multiset(old(a[..]))
    {
      InsertLeft(a, key, i);
      i := i + 1;
    }
    assert a[..] == a[..a.Length];
  }

  /** One insertion step: a[i] moves left past every larger key, so a[..i+1] becomes sorted. */
  method InsertLeft<T>(a: array<T>, key: T -> string, i: int)
    modifies a
    requires 1 <= i < a.Length
    requires SortedBy(a[..i], key)
    ensures SortedBy(a[..i + 1], key)
    ensures multiset(a[..]) == multiset(old(a[..]))
  {
    var j := i;
    while 0 < j && !Le(key(a[j - 1]), key(a[j]))
      invariant 0 <= j <= i
      invariant SortedExceptAt(a[..], key, i, j)
      invariant multiset(a[..]) == multiset(old(a[..]))
    {
      ghost var s := a[..];
      SwapLeft(s, key, i, j);
      a[j - 1], a[j] := a[j], a[j - 1];
      assert a[..] == s[j - 1 := s[j]][j := s[j - 1]];
      j := j - 1;
    }
    if 0 < j {
      InsertedInPlace(a[..], key, i, j);
    }
    assert a[..i + 1] == a[..][..i + 1];
  }

  /** Swapping an out-of-order a[j] with its left neighbour moves the one unsorted place to j - 1. */
  lemma SwapLeft<T>(s: seq<T>, key: T -> string, i: int, j: int)
    requires 0 < j <= i < |s|
    requires SortedExceptAt(s, key, i, j)
    requires !Le(key(s[j - 1]), key(s[j]))
    ensures SortedExceptAt(s[j - 1 := s[j]][j := s[j - 1]], key, i, j - 1)
    ensures multiset(s[j - 1 := s[j]][j := s[j - 1]]) == multiset(s)
  {
    LeTotal(key(s[j - 1]), key(s[j]));
  }

  /** Once a[j - 1] <= a[j], the only unsorted place is closed and a[..i + 1] is sorted. */
  lemma InsertedInPlace<T>(s: seq<T>, key: T -> string, i: int, j: int)
    requires 0 < j <= i < |s|
    requires SortedExceptAt(s, key, i, j)
    requires Le(key(s[j - 1]), key(s[j]))
    ensures SortedBy(s[..i + 1], key)
  {
    forall p | 0 <= p < j ensures Le(key(s[p]), key(s[j])) {
      if p < j - 1 {
        LeTransitive(key(s[p]), key(s[j - 1]), key(s[j]));
      }
    }
  }

  /** A key that occurs at two positions is a key that occurs twice in the multiset. */
  lemma {:induction false} TwiceInMultiset<T>(s: seq<T>, i: nat, j: nat)
    requires i < j < |s|
    ensures multiset(s)[s[j]] >= (if s[i] == s[j] then 2 else 1)
  {
    assert s == s[..j] + [s[j]] + s[j + 1..];
    assert multiset(s) == multiset(s[..j]) + multiset{s[j]} + multiset(s[j + 1..]);
    if s[i] == s[j] {
      assert s[i] in s[..j];
    }
  }

  /** A sequence with distinct keys holds each element at most once. */
  lemma {:induction false} DistinctKeysCountOnce<T>(s: seq<T>, key: T -> string, x: T)
    requires DistinctKeys(s, key)
    ensures multiset(s)[x] <= 1
  {
    if s != [] {
      var init := s[..|s| - 1];
      assert s == init + [s[|s| - 1]];
      DistinctKeysCountOnce(init, key, x);
    }
  }

  /** Two different elements with one key cannot both occur in a sequence with distinct keys. */
  lemma {:induction false} DistinctKeysOneElementPerKey<T>(t: seq<T>, key: T -> string, x: T, y: T)
    requires DistinctKeys(t, key)
    requires x in multiset(t) && y in multiset(t) && key(x) == key(y)
    ensures x == y
  {
    var p :| 0 <= p < |t| && t[p] == x;
    var q :| 0 <= q < |t| && t[q] == y;
    assert p == q;
  }

  /** Reordering a sequence with distinct keys keeps the keys distinct. */
  lemma PermutationKeepsDistinctKeys<T>(s: seq<T>, t: seq<T>, key: T -> string)
    requires multiset(s) == multiset(t)
    requires DistinctKeys(t, key)
    ensures DistinctKeys(s, key)
  {
    forall i, j | 0 <= i < j < |s| ensures key(s[i]) != key(s[j]) {
      if key(s[i]) == key(s[j]) {
        DistinctKeysOneElementPerKey(t, key, s[i], s[j]);
        TwiceInMultiset(s, i, j);
        DistinctKeysCountOnce(t, key, s[j]);
      }
    }
  }

  /** Sorted with distinct keys is strictly sorted. */
  lemma SortedDistinctIsStrict<T>(s: seq<T>, key: T -> string)
    requires SortedBy(s, key) && DistinctKeys(s, key)
    ensures StrictlySortedBy(s, key)
  {
  }

  /** The identity key, for sorting plain strings. */
  function Identity(s: string): string
  {
    s
  }

  /** Two strictly sorted sequences of strings with the same elements are the same sequence. */
  lemma {:induction false} StrictlySortedUnique(s: seq<string>, t: seq<string>)
    requires StrictlySortedBy(s, Identity) && StrictlySortedBy(t, Identity)
    requires forall x :: x in s <==> x in t
    ensures s == t
  {
    if s != [] && t != [] {
      assert s[0] in t && t[0] in s;
      forall y | y in s && y != s[0] ensures Lt(s[0], y) { }
      if s[0] != t[0] {
        var a :| 0 <= a < |s| && s[a] == t[0];
        var b :| 0 <= b < |t| && t[b] == s[0];
        assert Lt(s[0], t[0]) && Lt(t[0], s[0]);
        LeAntisymmetric(s[0], t[0]);
      }
      assert forall y :: y in s[1..] <==> y in t[1..] by {
        forall y ensures y in s[1..] <==> y in t[1..] {
          if y in s[1..] {
            var a :| 1 <= a < |s| && s[a] == y;
            assert Lt(s[0], s[a]) && y in s;
            var b :| 0 <= b < |t| && t[b] == y;
            assert b != 0;
            assert t[1..][b - 1] == y;
          }
          if y in t[1..] {
            var b :| 1 <= b < |t| && t[b] == y;
            assert Lt(t[0], t[b]) && y in t;
            var a :| 0 <= a < |s| && s[a] == y;
            assert a != 0;
            assert s[1..][a - 1] == y;
          }
        }
      }
      StrictlySortedUnique(s[1..], t[1..]);
      assert s == [s[0]] + s[1..] && t == [t[0]] + t[1..];
    } else if s != [] {
      HeadIsMember(s);
      assert false;
    } else if t != [] {
      HeadIsMember(t);
      assert false;
    }
  }

  lemma HeadIsMember(s: seq<string>)
    requires s != []
    ensures s[0] in s
  {
  }
}
