/** Sequences as the modelled code uses them: sums, first-appearance
    de-duplication (`Series.unique`) and sums grouped by a key. */
module Seqs {

  predicate Distinct<T(==)>(s: seq<T>) {
    forall i, j | 0 <= i < j < |s| :: s[i] != s[j]
  }

  /** Left-to-right sum, as a running accumulator computes it. */
  function Sum(s: seq<real>): real {
    if |s| == 0 then 0.0 else Sum(s[..|s| - 1]) + s[|s| - 1]
  }

  lemma {:induction false} SumScaled(s: seq<real>, t: seq<real>, k: real)
    requires |t| == |s|
    requires forall i | 0 <= i < |s| :: t[i] == k * s[i]
    ensures Sum(t) == k * Sum(s)
  {
    if |s| > 0 {
      SumScaled(s[..|s| - 1], t[..|t| - 1], k);
    }
  }

  lemma {:induction false} SumAdded(a: seq<real>, b: seq<real>, c: seq<real>)
    requires |a| == |b| == |c|
    requires forall i | 0 <= i < |c| :: c[i] == a[i] + b[i]
    ensures Sum(c) == Sum(a) + Sum(b)
  {
    if |c| > 0 {
      SumAdded(a[..|a| - 1], b[..|b| - 1], c[..|c| - 1]);
    }
  }

  lemma {:induction false} SumOfZeros(s: seq<real>)
    requires forall i | 0 <= i < |s| :: s[i] == 0.0
    ensures Sum(s) == 0.0
  {
    if |s| > 0 {
      SumOfZeros(s[..|s| - 1]);
    }
  }

  lemma {:induction false} SumSame(s: seq<real>, t: seq<real>)
    requires |s| == |t|
    requires forall i | 0 <= i < |s| :: s[i] == t[i]
    ensures Sum(s) == Sum(t)
  {
    assert s == t;
  }

  /** The sum of `vals` over the positions whose key equals `k`. */
  function SumWhere<K(==)>(keys: seq<K>, vals: seq<real>, k: K): real
    requires |keys| == |vals|
  {
    if |keys| == 0 then 0.0
    else SumWhere(keys[..|keys| - 1], vals[..|vals| - 1], k)
         + (if keys[|keys| - 1] == k then vals[|vals| - 1] else 0.0)
  }

  /** The per-group sums of `vals`, added up over the listed groups. */
  function SumGroups<K(==)>(groups: seq<K>, keys: seq<K>, vals: seq<real>): real
    requires |keys| == |vals|
  {
    if |groups| == 0 then 0.0
    else SumGroups(groups[..|groups| - 1], keys, vals) + SumWhere(keys, vals, groups[|groups| - 1])
  }

  lemma {:induction false} SumGroupsSnoc<K>(groups: seq<K>, keys: seq<K>, vals: seq<real>, k: K, v: real)
    requires Distinct(groups) && |keys| == |vals|
    ensures SumGroups(groups, keys + [k], vals + [v])
            == SumGroups(groups, keys, vals) + (if k in groups then v else 0.0)
  {
    if |groups| > 0 {
      var init, last := groups[..|groups| - 1], groups[|groups| - 1];
      assert Distinct(init);
      SumGroupsSnoc(init, keys, vals, k, v);
      assert (keys + [k])[..|keys|] == keys && (vals + [v])[..|vals|] == vals;
      assert k in groups <==> k in init || k == last;
      assert k == last ==> k !in init;
    }
  }

  /** Summing group by group over groups that cover every key gives the plain sum. */
  lemma {:induction false} SumGroupsTotal<K>(groups: seq<K>, keys: seq<K>, vals: seq<real>)
    requires Distinct(groups) && |keys| == |vals|
    requires forall i | 0 <= i < |keys| :: keys[i] in groups
    ensures SumGroups(groups, keys, vals) == Sum(vals)
  {
    if |keys| == 0 {
      SumGroupsOfEmpty(groups, keys, vals);
    } else {
      var n := |keys| - 1;
      SumGroupsTotal(groups, keys[..n], vals[..n]);
      SumGroupsSnoc(groups, keys[..n], vals[..n], keys[n], vals[n]);
      assert keys[..n] + [keys[n]] == keys && vals[..n] + [vals[n]] == vals;
    }
  }

  lemma {:induction false} SumGroupsOfEmpty<K>(groups: seq<K>, keys: seq<K>, vals: seq<real>)
    requires |keys| == |vals| == 0
    ensures SumGroups(groups, keys, vals) == 0.0
  {
    if |groups| > 0 {
      SumGroupsOfEmpty(groups[..|groups| - 1], keys, vals);
    }
  }

  /** `Series.unique()`: the distinct elements in order of first appearance. */
  function Unique<T(==,!new)>(s: seq<T>): (u: seq<T>)
    ensures Distinct(u)
    ensures forall x :: x in u <==> x in s
  {
    if |s| == 0 then []
    else
      var u' := Unique(s[..|s| - 1]);
      if s[|s| - 1] in u' then u' else u' + [s[|s| - 1]]
  }

  /** The position of the first occurrence of `x` in `s`. */
  function FirstIndex<T(==)>(s: seq<T>, x: T): (k: nat)
    requires x in s
    ensures k < |s| && s[k] == x
    ensures forall i | 0 <= i < k :: s[i] != x
  {
    if x in s[..|s| - 1] then FirstIndex(s[..|s| - 1], x) else |s| - 1
  }

  /** `Unique` lists the elements in the order of their first appearance. */
  lemma {:induction false} UniqueInFirstAppearanceOrder<T(!new)>(s: seq<T>, a: nat, b: nat)
    requires a < b < |Unique(s)|
    ensures FirstIndex(s, Unique(s)[a]) < FirstIndex(s, Unique(s)[b])
  {
    var n := |s| - 1;
    var init := s[..n];
    var u := Unique(s);
    if s[n] in Unique(init) {
      UniqueInFirstAppearanceOrder(init, a, b);
      FirstIndexOfPrefix(s, n, u[a]);
      FirstIndexOfPrefix(s, n, u[b]);
    } else if b < |Unique(init)| {
      UniqueInFirstAppearanceOrder(init, a, b);
      FirstIndexOfPrefix(s, n, u[a]);
      FirstIndexOfPrefix(s, n, u[b]);
    } else {
      assert u[b] == s[n] && u[b] !in init;
      FirstIndexOfPrefix(s, n, u[a]);
    }
  }

  lemma FirstIndexOfPrefix<T>(s: seq<T>, n: nat, x: T)
    requires n <= |s| && x in s[..n]
    ensures FirstIndex(s, x) == FirstIndex(s[..n], x)
  {
    var i := FirstIndex(s[..n], x);
    assert s[..n][i] == x;
  }

  /** The position of `x` in a sequence without repetitions. */
  function IndexOf<T(==)>(s: seq<T>, x: T): (k: nat)
    requires x in s
    ensures k < |s| && s[k] == x
  {
    if s[0] == x then 0 else 1 + IndexOf(s[1..], x)
  }

  /** A sequence of length two is the pair of its elements. */
  lemma PairOf<T>(s: seq<T>)
    requires |s| == 2
    ensures s == [s[0], s[1]]
  {
  }

  /** The positions `0, 1, ..., n - 1`. */
  function Range(n: nat): (r: seq<nat>)
    ensures |r| == n && forall i | 0 <= i < n :: r[i] == i
  {
    seq(n, i requires 0 <= i < n => i)
  }

  /** The number of occurrences of `x` in `s`. */
  function Count<T(==)>(s: seq<T>, x: T): nat {
    if |s| == 0 then 0 else Count(s[..|s| - 1], x) + (if s[|s| - 1] == x then 1 else 0)
  }

  lemma {:induction false} CountAbsent<T>(s: seq<T>, x: T)
    requires x !in s
    ensures Count(s, x) == 0
  {
    if |s| > 0 {
      CountAbsent(s[..|s| - 1], x);
    }
  }

  /** An element of a sequence without repetitions occurs in it once. */
  lemma {:induction false} CountDistinct<T>(s: seq<T>, x: T)
    requires Distinct(s) && x in s
    ensures Count(s, x) == 1
  {
    var n := |s| - 1;
    assert Distinct(s[..n]);
    if s[n] == x {
      assert x !in s[..n];
      CountAbsent(s[..n], x);
    } else {
      assert x in s[..n];
      CountDistinct(s[..n], x);
    }
  }

  /** For every element of `a` in turn, its number of occurrences in `b`. */
  function SumCounts<T(==)>(a: seq<T>, b: seq<T>): nat {
    if |a| == 0 then 0 else SumCounts(a[..|a| - 1], b) + Count(b, a[|a| - 1])
  }

  /** Over the listed groups, the product of each group's counts in `a` and `b`. */
  function SumProducts<T(==)>(groups: seq<T>, a: seq<T>, b: seq<T>): nat {
    if |groups| == 0 then 0
    else SumProducts(groups[..|groups| - 1], a, b) + Count(a, groups[|groups| - 1]) * Count(b, groups[|groups| - 1])
  }

  lemma {:induction false} SumProductsSnoc<T>(groups: seq<T>, a: seq<T>, b: seq<T>, x: T)
    requires Distinct(groups)
    ensures SumProducts(groups, a + [x], b) == SumProducts(groups, a, b) + (if x in groups then Count(b, x) else 0)
  {
    if |groups| > 0 {
      var init, g := groups[..|groups| - 1], groups[|groups| - 1];
      assert Distinct(init);
      SumProductsSnoc(init, a, b, x);
      assert (a + [x])[..|a|] == a;
      assert Count(a + [x], g) == Count(a, g) + (if x == g then 1 else 0);
      assert (Count(a, g) + 1) * Count(b, g) == Count(a, g) * Count(b, g) + Count(b, g);
      assert x in groups <==> x in init || x == g;
      assert x == g ==> x !in init;
    }
  }

  /** Counting `b`'s matches element by element of `a` is counting them group
      by group, over any list of distinct groups covering `a`. */
  lemma {:induction false} SumCountsByGroup<T>(groups: seq<T>, a: seq<T>, b: seq<T>)
    requires Distinct(groups) && forall i | 0 <= i < |a| :: a[i] in groups
    ensures SumCounts(a, b) == SumProducts(groups, a, b)
  {
    if |a| == 0 {
      SumProductsOfEmpty(groups, a, b);
    } else {
      var n := |a| - 1;
      SumCountsByGroup(groups, a[..n], b);
      SumProductsSnoc(groups, a[..n], b, a[n]);
      assert a[..n] + [a[n]] == a;
    }
  }

  lemma {:induction false} SumProductsOfEmpty<T>(groups: seq<T>, a: seq<T>, b: seq<T>)
    requires |a| == 0
    ensures SumProducts(groups, a, b) == 0
  {
    if |groups| > 0 {
      SumProductsOfEmpty(groups[..|groups| - 1], a, b);
    }
  }
}
