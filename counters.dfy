/**
 * Python's `collections.Counter` over string keys, as the case-count report
 * uses it: a map from key to count, where a key may be present with count 0
 * (the seeded empty weeks), built from a list (`Counter(list)`), merged with
 * `update`, and summed with `sum(c.values())`.
 */
module Counters {

  type Counter = map<string, nat>

  /** `c.get(k, 0)`: the count of k, 0 when k is not a key. */
  function Get(c: Counter, k: string): nat
  {
    if k in c then c[k] else 0
  }

  /** `dict(zip(keys, [0] * len(keys)))`: every listed key, once, with count 0. */
  function Zeros(keys: seq<string>): (c: Counter)
    ensures c.Keys == set k | k in keys
    ensures forall k :: k in c ==> c[k] == 0
  {
    map k | k in keys :: 0
  }

  /** `Counter(xs)`: each distinct element of xs with the number of times it occurs. */
  function Tally(xs: seq<string>): (c: Counter)
    ensures forall k :: k in c <==> k in xs
    ensures forall k :: Get(c, k) == multiset(xs)[k]
  {
    if xs == [] then map[]
    else
      var init, x := xs[..|xs| - 1], xs[|xs| - 1];
      assert xs == init + [x];
      var c := Tally(init);
      c[x := Get(c, x) + 1]
  }

  /** `c.update(d)` for a Counter d: the counts of d are added to those of c. */
  function Update(c: Counter, d: Counter): (r: Counter)
    ensures r.Keys == c.Keys + d.Keys
    ensures forall k :: Get(r, k) == Get(c, k) + Get(d, k)
  {
    map k | k in c.Keys + d.Keys :: Get(c, k) + Get(d, k)
  }

  /** Two counters with the same keys and the same counts are equal. */
  lemma Extensional(c: Counter, d: Counter)
    requires c.Keys == d.Keys
    requires forall k :: Get(c, k) == Get(d, k)
    ensures c == d
  {
    forall k | k in c ensures c[k] == d[k] {
      assert Get(c, k) == Get(d, k);
    }
  }

  /** Counting a concatenation is counting its halves and adding the counts. */
  lemma {:induction false} TallyAppend(xs: seq<string>, ys: seq<string>)
    ensures Tally(xs + ys) == Update(Tally(xs), Tally(ys))
  {
    var whole, parts := Tally(xs + ys), Update(Tally(xs), Tally(ys));
    assert multiset(xs + ys) == multiset(xs) + multiset(ys);
    forall k ensures Get(whole, k) == Get(parts, k) {
      assert Get(whole, k) == multiset(xs + ys)[k];
    }
    forall k ensures k in whole <==> k in parts {
      assert k in xs + ys <==> k in xs || k in ys;
    }
    Extensional(whole, parts);
  }

  /** `Counter(xs)` depends only on which elements occur how often, not on their order. */
  lemma {:induction false} TallyOfPermutation(xs: seq<string>, ys: seq<string>)
    requires multiset(xs) == multiset(ys)
    ensures Tally(xs) == Tally(ys)
  {
    forall k ensures k in xs <==> k in ys {
      assert k in xs <==> multiset(xs)[k] > 0;
      assert k in ys <==> multiset(ys)[k] > 0;
    }
    Extensional(Tally(xs), Tally(ys));
  }

  /** Merging is associative. */
  lemma UpdateAssociative(a: Counter, b: Counter, c: Counter)
    ensures Update(Update(a, b), c) == Update(a, Update(b, c))
  {
    Extensional(Update(Update(a, b), c), Update(a, Update(b, c)));
  }

  /** Merging a counter whose counts are all 0 and whose keys are already present changes nothing. */
  lemma UpdateWithZeros(c: Counter, z: Counter)
    requires z.Keys <= c.Keys
    requires forall k :: k in z ==> z[k] == 0
    ensures Update(c, z) == c
  {
    Extensional(Update(c, z), c);
  }

  /** Merging is commutative. */
  lemma UpdateCommutative(c: Counter, d: Counter)
    ensures Update(c, d) == Update(d, c)
  {
    Extensional(Update(c, d), Update(d, c));
  }

  // ---------------------------------------------------------------------------
  // Merging a family of counters

  /** The counters of the keys in ks, all merged into one. */
  ghost function MergeOver(cs: map<string, Counter>, ks: set<string>): Counter
    requires ks <= cs.Keys
    decreases ks
  {
    if ks == {} then map[] else var k :| k in ks; Update(cs[k], MergeOver(cs, ks - {k}))
  }

  /** Any key may be merged first: the merge does not depend on the order of the keys. */
  lemma {:induction false} MergeOverRemove(cs: map<string, Counter>, ks: set<string>, k: string)
    requires ks <= cs.Keys && k in ks
    ensures MergeOver(cs, ks) == Update(cs[k], MergeOver(cs, ks - {k}))
    decreases ks
  {
    var j :| j in ks && MergeOver(cs, ks) == Update(cs[j], MergeOver(cs, ks - {j}));
    if j != k {
      MergeOverRemove(cs, ks - {j}, k);
      MergeOverRemove(cs, ks - {k}, j);
      assert ks - {j} - {k} == ks - {k} - {j};
      var rest := MergeOver(cs, ks - {j} - {k});
      UpdateAssociative(cs[j], cs[k], rest);
      UpdateAssociative(cs[k], cs[j], rest);
      UpdateCommutative(cs[j], cs[k]);
    }
  }

  /** Merging one more member of the family into a running merge. */
  lemma MergeOverStep(base: Counter, cs: map<string, Counter>, ks: set<string>, k: string)
    requires ks <= cs.Keys && k in cs && k !in ks
    ensures Update(Update(base, MergeOver(cs, ks)), cs[k]) == Update(base, MergeOver(cs, ks + {k}))
  {
    MergeOverRemove(cs, ks + {k}, k);
    assert ks + {k} - {k} == ks;
    UpdateAssociative(base, MergeOver(cs, ks), cs[k]);
    UpdateCommutative(MergeOver(cs, ks), cs[k]);
  }

  // ---------------------------------------------------------------------------
  // sum(c.values())

  /** The sum of the counts of the keys in ks. */
  ghost function SumOver(c: Counter, ks: set<string>): nat
    requires ks <= c.Keys
    decreases ks
  {
    if ks == {} then 0 else var k :| k in ks; c[k] + SumOver(c, ks - {k})
  }

  /** `sum(c.values())`. */
  ghost function Sum(c: Counter): nat
  {
    SumOver(c, c.Keys)
  }

  /** Any key may be taken out first: the sum does not depend on the order of the keys. */
  lemma {:induction false} SumOverRemove(c: Counter, ks: set<string>, k: string)
    requires ks <= c.Keys && k in ks
    ensures SumOver(c, ks) == c[k] + SumOver(c, ks - {k})
    decreases ks
  {
    var j :| j in ks && SumOver(c, ks) == c[j] + SumOver(c, ks - {j});
    if j != k {
      SumOverRemove(c, ks - {j}, k);
      SumOverRemove(c, ks - {k}, j);
      assert ks - {j} - {k} == ks - {k} - {j};
    }
  }

  /** The sum over ks only reads the counts of the keys in ks. */
  lemma {:induction false} SumOverAgree(c: Counter, d: Counter, ks: set<string>)
    requires ks <= c.Keys && ks <= d.Keys
    requires forall k :: k in ks ==> c[k] == d[k]
    ensures SumOver(c, ks) == SumOver(d, ks)
    decreases ks
  {
    if ks != {} {
      var k :| k in ks;
      SumOverRemove(c, ks, k);
      SumOverRemove(d, ks, k);
      SumOverAgree(c, d, ks - {k});
    }
  }

  /** Setting the count of k to v changes the sum by v minus the old count of k. */
  lemma SumAssign(c: Counter, k: string, v: nat)
    ensures Sum(c[k := v]) + Get(c, k) == Sum(c) + v
  {
    var c' := c[k := v];
    var others := c.Keys - {k};
    assert c'.Keys - {k} == others;
    SumOverAgree(c, c', others);
    SumOverRemove(c', c'.Keys, k);
    assert Sum(c') == v + SumOver(c', others);
    if k in c {
      SumOverRemove(c, c.Keys, k);
      assert Sum(c) == c[k] + SumOver(c, others);
    } else {
      assert c.Keys == others;
    }
  }

  /** A counter whose counts are all 0 sums to 0. */
  lemma {:induction false} SumOverZeros(c: Counter, ks: set<string>)
    requires ks <= c.Keys
    requires forall k :: k in ks ==> c[k] == 0
    ensures SumOver(c, ks) == 0
    decreases ks
  {
    if ks != {} {
      var k :| k in ks;
      SumOverRemove(c, ks, k);
      SumOverZeros(c, ks - {k});
    }
  }

  /** Counting n elements gives counts that add up to n. */
  lemma {:induction false} SumTally(xs: seq<string>)
    ensures Sum(Tally(xs)) == |xs|
  {
    if xs != [] {
      var init, x := xs[..|xs| - 1], xs[|xs| - 1];
      SumTally(init);
      SumAssign(Tally(init), x, Get(Tally(init), x) + 1);
    }
  }

  /** Merging two counters adds their sums. */
  lemma {:induction false} SumUpdate(c: Counter, d: Counter)
    ensures Sum(Update(c, d)) == Sum(c) + Sum(d)
    decreases |d|
  {
    if d == map[] {
      Extensional(Update(c, d), c);
    } else {
      var k :| k in d;
      var d' := d - {k};
      assert |d'| < |d| by {
        assert d'.Keys == d.Keys - {k};
      }
      SumUpdate(c, d');
      var u' := Update(c, d');
      var v := Get(c, k) + d[k];
      assert Sum(Update(c, d)) == Sum(u') + d[k] by {
        UpdateStep(c, d, k);
        SumAssign(u', k, v);
      }
      assert Sum(d) == Sum(d') + d[k] by {
        UpdateStep(c, d, k);
        SumAssign(d', k, d[k]);
      }
    }
  }

  /** Merging d is merging d without k, then setting the count of k. */
  lemma UpdateStep(c: Counter, d: Counter, k: string)
    requires k in d
    ensures Update(c, d) == Update(c, d - {k})[k := Get(c, k) + d[k]]
    ensures (d - {k})[k := d[k]] == d
    ensures Get(Update(c, d - {k}), k) == Get(c, k)
    ensures Get(d - {k}, k) == 0
  {
    Extensional(Update(c, d), Update(c, d - {k})[k := Get(c, k) + d[k]]);
  }

  /** Python's `sum(c.values())`, adding the counts one key at a time. */
  method SumValues(c: Counter) returns (total: nat)
    ensures total == Sum(c)
  {
    total := 0;
    var rest := c.Keys;
    while rest != {}
      invariant rest <= c.Keys
      invariant total + SumOver(c, rest) == Sum(c)
      decreases rest
    {
      var k :| k in rest;
      SumOverRemove(c, rest, k);
      total := total + c[k];
      rest := rest - {k};
    }
  }
}
