/** The orders pandas sorts by: Python's string order (code point by code
    point, a proper prefix first) and the lexicographic order on tuples of
    strings used for multi-column group keys; and the sorted list of
    distinct keys that `groupby(sort=True)` and `pd.Categorical` build. */
module Orders {

  ghost predicate StrictTotalOrder<T(!new)>(lt: (T, T) -> bool) {
    && (forall a :: !lt(a, a))
    && (forall a, b, c {:trigger lt(a, b), lt(b, c)} :: lt(a, b) && lt(b, c) ==> lt(a, c))
    && (forall a, b :: a != b ==> lt(a, b) || lt(b, a))
  }

  /** Lexicographic order induced by `lt` on the elements. */
  function LexLt<T(==)>(a: seq<T>, b: seq<T>, lt: (T, T) -> bool): bool {
    if |a| == 0 then |b| > 0
    else if |b| == 0 then false
    else lt(a[0], b[0]) || (a[0] == b[0] && LexLt(a[1..], b[1..], lt))
  }

  lemma {:induction false} LexIrreflexive<T(!new)>(a: seq<T>, lt: (T, T) -> bool)
    requires StrictTotalOrder(lt)
    ensures !LexLt(a, a, lt)
  {
    if |a| > 0 {
      LexIrreflexive(a[1..], lt);
    }
  }

  lemma {:induction false} LexTransitive<T(!new)>(a: seq<T>, b: seq<T>, c: seq<T>, lt: (T, T) -> bool)
    requires StrictTotalOrder(lt)
    requires LexLt(a, b, lt) && LexLt(b, c, lt)
    ensures LexLt(a, c, lt)
  {
    if |a| > 0 && |b| > 0 && |c| > 0 && a[0] == b[0] == c[0] {
      LexTransitive(a[1..], b[1..], c[1..], lt);
    }
  }

  lemma {:induction false} LexTotal<T(!new)>(a: seq<T>, b: seq<T>, lt: (T, T) -> bool)
    requires StrictTotalOrder(lt)
    requires a != b
    ensures LexLt(a, b, lt) || LexLt(b, a, lt)
  {
    if |a| > 0 && |b| > 0 && a[0] == b[0] {
      assert a == [a[0]] + a[1..] && b == [b[0]] + b[1..];
      LexTotal(a[1..], b[1..], lt);
    }
  }

  function CharLt(a: char, b: char): bool { a < b }

  /** Python's `<` on `str`. */
  function StrLt(a: string, b: string): bool { LexLt(a, b, CharLt) }

  /** The order of multi-column group keys: tuples of strings. */
  function KeyLt(a: seq<string>, b: seq<string>): bool { LexLt(a, b, StrLt) }

  lemma StrLtIsStrictTotal()
    ensures StrictTotalOrder(StrLt)
  {
    assert StrictTotalOrder(CharLt);
    forall a: string ensures !StrLt(a, a) {
      LexIrreflexive(a, CharLt);
    }
    forall a: string, b: string, c: string | StrLt(a, b) && StrLt(b, c) ensures StrLt(a, c) {
      LexTransitive(a, b, c, CharLt);
    }
    forall a: string, b: string | a != b ensures StrLt(a, b) || StrLt(b, a) {
      LexTotal(a, b, CharLt);
    }
  }

  lemma KeyLtIsStrictTotal()
    ensures StrictTotalOrder(KeyLt)
  {
    StrLtIsStrictTotal();
    forall a: seq<string> ensures !KeyLt(a, a) {
      LexIrreflexive(a, StrLt);
    }
    forall a: seq<string>, b: seq<string>, c: seq<string> | KeyLt(a, b) && KeyLt(b, c)
      ensures KeyLt(a, c)
    {
      LexTransitive(a, b, c, StrLt);
    }
    forall a: seq<string>, b: seq<string> | a != b ensures KeyLt(a, b) || KeyLt(b, a) {
      LexTotal(a, b, StrLt);
    }
  }

  predicate StrictlySorted<T>(s: seq<T>, lt: (T, T) -> bool) {
    forall i, j | 0 <= i < j < |s| :: lt(s[i], s[j])
  }

  /** Adds `x` to a sorted list of distinct keys unless it is already there. */
  function Insert<T(==)>(s: seq<T>, x: T, lt: (T, T) -> bool): seq<T> {
    if |s| == 0 then [x]
    else if x == s[0] then s
    else if lt(x, s[0]) then [x] + s
    else [s[0]] + Insert(s[1..], x, lt)
  }

  /** The distinct keys of `xs`, in increasing order. */
  function SortedSet<T(==)>(xs: seq<T>, lt: (T, T) -> bool): seq<T> {
    if |xs| == 0 then [] else Insert(SortedSet(xs[..|xs| - 1], lt), xs[|xs| - 1], lt)
  }

  lemma {:induction false} InsertSorted<T(!new)>(s: seq<T>, x: T, lt: (T, T) -> bool)
    requires StrictTotalOrder(lt) && StrictlySorted(s, lt)
    ensures StrictlySorted(Insert(s, x, lt), lt)
    ensures forall y :: y in Insert(s, x, lt) <==> y in s || y == x
  {
    if |s| > 0 && x != s[0] && !lt(x, s[0]) {
      var r := Insert(s[1..], x, lt);
      InsertSorted(s[1..], x, lt);
      assert lt(s[0], x);
      forall k | 0 <= k < |r| ensures lt(s[0], r[k]) {
        assert r[k] in s[1..] || r[k] == x;
      }
    } else if |s| > 0 && x != s[0] {
      forall k | 0 < k < |s| ensures lt(x, s[k]) {
        assert lt(s[0], s[k]);
      }
    }
  }

  /** The distinct keys come out strictly increasing, and they are exactly the keys of `xs`. */
  lemma {:induction false} SortedSetSpec<T(!new)>(xs: seq<T>, lt: (T, T) -> bool)
    requires StrictTotalOrder(lt)
    ensures StrictlySorted(SortedSet(xs, lt), lt)
    ensures forall y :: y in SortedSet(xs, lt) <==> y in xs
  {
    if |xs| > 0 {
      var init := xs[..|xs| - 1];
      SortedSetSpec(init, lt);
      InsertSorted(SortedSet(init, lt), xs[|xs| - 1], lt);
      assert xs == init + [xs[|xs| - 1]];
    }
  }

  lemma SortedIsDistinct<T(!new)>(s: seq<T>, lt: (T, T) -> bool)
    requires StrictTotalOrder(lt) && StrictlySorted(s, lt)
    ensures forall i, j | 0 <= i < j < |s| :: s[i] != s[j]
  {
    forall i, j | 0 <= i < j < |s| ensures s[i] != s[j] {
      assert lt(s[i], s[j]);
    }
  }
}
