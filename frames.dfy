/** pandas data frames as the modelled code uses them.  A cell is a number,
    a string or missing (NaN/None); a `Table` is the value of a frame
    (ordered column names, one column of cells per name, all of the same
    length); a `DataFrame` is a frame object that code updates in place. */
module Frames {
  import opened Seqs
  import opened Orders

  datatype Cell = Num(x: real) | Text(s: string) | Missing

  /** The number a numeric cell contributes to a `sum()`, which skips NaN. */
  function Val(c: Cell): real { if c.Num? then c.x else 0.0 }

  /** Elementwise `column == 1`: a missing or text cell is never equal to 1. */
  predicate IsOne(c: Cell) { c == Num(1.0) }

  /** Elementwise product of two numeric cells; NaN propagates. */
  function Mul(a: Cell, b: Cell): Cell {
    if a.Num? && b.Num? then Num(a.x * b.x) else Missing
  }

  /** Elementwise difference of two numeric cells; NaN propagates. */
  function Sub(a: Cell, b: Cell): Cell {
    if a.Num? && b.Num? then Num(a.x - b.x) else Missing
  }

  /** Elementwise `a >= b` and `a > b`: a comparison with NaN is false. */
  predicate Ge(a: Cell, b: Cell) { a.Num? && b.Num? && a.x >= b.x }
  predicate Gt(a: Cell, b: Cell) { a.Num? && b.Num? && a.x > b.x }

  /** Sum and count of the numeric cells of a list. */
  function NumSum(cs: seq<Cell>): real {
    if |cs| == 0 then 0.0 else NumSum(cs[..|cs| - 1]) + Val(cs[|cs| - 1])
  }
  function NumCount(cs: seq<Cell>): nat {
    if |cs| == 0 then 0 else NumCount(cs[..|cs| - 1]) + (if cs[|cs| - 1].Num? then 1 else 0)
  }

  lemma {:induction false} NumCountZero(cs: seq<Cell>)
    ensures NumCount(cs) == 0 <==> forall i | 0 <= i < |cs| :: !cs[i].Num?
  {
    if |cs| > 0 {
      NumCountZero(cs[..|cs| - 1]);
      assert forall i | 0 <= i < |cs| - 1 :: cs[..|cs| - 1][i] == cs[i];
    }
  }

  /** `mean(skipna=True)`: the mean of the numeric cells, NaN when there are none. */
  function Mean(cs: seq<Cell>): Cell {
    if NumCount(cs) == 0 then Missing else Num(NumSum(cs) / NumCount(cs) as real)
  }

  /** `min(skipna=True)` of two cells: NaN only when both are NaN. */
  function Min2(a: Cell, b: Cell): Cell {
    if a.Num? && b.Num? then Num(if a.x <= b.x then a.x else b.x)
    else if a.Num? then a
    else if b.Num? then b
    else Missing
  }

  /** The first numeric cell of a list (`groupby(...).agg('first')`), NaN if none. */
  function FirstValid(cs: seq<Cell>): (r: Cell)
    ensures r.Num? ==> r in cs
    ensures r.Num? || r == Missing
  {
    if |cs| == 0 then Missing else if cs[0].Num? then cs[0] else FirstValid(cs[1..])
  }

  /** `first` is the earliest numeric cell: every cell before it is NaN or
      text, and it is NaN exactly when the list holds no number. */
  lemma {:induction false} FirstValidIsEarliest(cs: seq<Cell>) returns (k: nat)
    ensures FirstValid(cs).Num? <==> exists j | 0 <= j < |cs| :: cs[j].Num?
    ensures FirstValid(cs).Num? ==> k < |cs| && cs[k] == FirstValid(cs) && forall j | 0 <= j < k :: !cs[j].Num?
  {
    if |cs| == 0 || cs[0].Num? {
      k := 0;
    } else {
      var k' := FirstValidIsEarliest(cs[1..]);
      k := k' + 1;
      forall j | 0 <= j < |cs| && cs[j].Num? ensures exists j' | 0 <= j' < |cs[1..]| :: cs[1..][j'].Num? {
        assert cs[1..][j - 1] == cs[j];
      }
      assert forall j | 1 <= j < |cs| :: cs[j] == cs[1..][j - 1];
    }
  }

  /** `first` of a nonempty group whose cells all hold the same number or
      NaN is that cell. */
  lemma FirstValidOfConstant(cs: seq<Cell>, v: Cell)
    requires |cs| > 0 && (v.Num? || v == Missing) && forall k | 0 <= k < |cs| :: cs[k] == v
    ensures FirstValid(cs) == v
  {
  }

  datatype Table = Table(columns: seq<string>, data: map<string, seq<Cell>>, rows: nat)

  ghost predicate WellFormed(t: Table) {
    && Distinct(t.columns)
    && (forall c :: c in t.data <==> c in t.columns)
    && (forall c | c in t.data :: |t.data[c]| == t.rows)
  }

  /** A column that holds numbers or NaN only (arithmetic on it raises no TypeError). */
  ghost predicate NumericColumn(t: Table, c: string) {
    c in t.data && forall i | 0 <= i < |t.data[c]| :: !t.data[c][i].Text?
  }

  /** A column that holds strings only (so it can be sorted as group keys). */
  ghost predicate TextColumn(t: Table, c: string) {
    c in t.data && forall i | 0 <= i < |t.data[c]| :: t.data[c][i].Text?
  }

  ghost predicate TextColumns(t: Table, cs: seq<string>) {
    forall m | 0 <= m < |cs| :: TextColumn(t, cs[m])
  }

  /** The cells of column `c` at the given row positions, in that order. */
  function CellsAt(t: Table, c: string, idx: seq<nat>): (r: seq<Cell>)
    requires WellFormed(t) && c in t.data
    requires forall k | 0 <= k < |idx| :: idx[k] < t.rows
    ensures |r| == |idx| && forall k | 0 <= k < |idx| :: r[k] == t.data[c][idx[k]]
  {
    seq(|idx|, k requires 0 <= k < |idx| => t.data[c][idx[k]])
  }

  /** `df[c] = col`: replaces column `c`, or appends it when it is new. */
  function WithColumn(t: Table, c: string, col: seq<Cell>): (r: Table)
    requires WellFormed(t) && |col| == t.rows
    ensures WellFormed(r) && r.rows == t.rows
  {
    Table(if c in t.data then t.columns else t.columns + [c], t.data[c := col], t.rows)
  }

  /** The names of `cols` that are not in `cs`, in their order. */
  function Remove(cols: seq<string>, cs: seq<string>): (r: seq<string>)
    ensures forall c :: c in r <==> c in cols && c !in cs
    ensures Distinct(cols) ==> Distinct(r)
  {
    if |cols| == 0 then []
    else if cols[|cols| - 1] in cs then Remove(cols[..|cols| - 1], cs)
    else Remove(cols[..|cols| - 1], cs) + [cols[|cols| - 1]]
  }

  /** Appending a name that is removed anyway does not change the result. */
  lemma RemoveAppended(cols: seq<string>, c: string, cs: seq<string>)
    requires c in cs
    ensures Remove(cols + [c], cs) == Remove(cols, cs)
  {
    assert (cols + [c])[..|cols|] == cols;
  }

  /** Removing names that do not occur changes nothing. */
  lemma {:induction false} RemoveNothing(cols: seq<string>, cs: seq<string>)
    requires forall c | c in cols :: c !in cs
    ensures Remove(cols, cs) == cols
  {
    if |cols| > 0 {
      RemoveNothing(cols[..|cols| - 1], cs);
      assert cols[..|cols| - 1] + [cols[|cols| - 1]] == cols;
    }
  }

  /** `df.drop(columns=cs)`: pandas raises KeyError if one of `cs` is absent. */
  function Without(t: Table, cs: seq<string>): (r: Table)
    requires WellFormed(t) && forall c | c in cs :: c in t.data
    ensures WellFormed(r) && r.rows == t.rows
  {
    Table(Remove(t.columns, cs), map c | c in t.data && c !in cs :: t.data[c], t.rows)
  }

  /** Dropping columns keeps every other column as it was. */
  lemma WithoutKeeps(t: Table, cs: seq<string>, c: string)
    requires WellFormed(t) && (forall c | c in cs :: c in t.data) && c in t.data && c !in cs
    ensures c in Without(t, cs).data && Without(t, cs).data[c] == t.data[c]
  {
  }

  /** Dropping columns removes exactly those. */
  lemma WithoutDrops(t: Table, cs: seq<string>, c: string)
    requires WellFormed(t) && (forall c | c in cs :: c in t.data)
    ensures c in Without(t, cs).data <==> c in t.data && c !in cs
  {
  }

  /** `df[cs]`: the listed columns, in the listed order. */
  function Select(t: Table, cs: seq<string>): (r: Table)
    requires WellFormed(t) && Distinct(cs) && forall c | c in cs :: c in t.data
    ensures WellFormed(r) && r.rows == t.rows && r.columns == cs
  {
    Table(cs, map c | c in cs :: t.data[c], t.rows)
  }

  /** The rows at the given positions, in that order (boolean filtering, `iloc`). */
  function TakeRows(t: Table, idx: seq<nat>): (r: Table)
    requires WellFormed(t) && forall k | 0 <= k < |idx| :: idx[k] < t.rows
    ensures WellFormed(r) && r.rows == |idx| && r.columns == t.columns
  {
    Table(t.columns, map c | c in t.data :: CellsAt(t, c, idx), |idx|)
  }

  /** `df.loc[mask, cs] = vals`: on the rows where `mask` holds, every column of `cs` takes that row's value of `vals`. */
  function WithMasked(t: Table, mask: seq<bool>, cs: seq<string>, vals: seq<Cell>): (r: Table)
    requires WellFormed(t) && |mask| == |vals| == t.rows && forall c | c in cs :: c in t.data
    ensures WellFormed(r) && r.rows == t.rows && r.columns == t.columns
  {
    Table(t.columns,
          map c | c in t.data ::
            if c in cs then seq(t.rows, i requires 0 <= i < t.rows => if mask[i] then vals[i] else t.data[c][i])
            else t.data[c],
          t.rows)
  }

  /** Assigning a column of numbers or NaN keeps every numeric column numeric. */
  lemma WithColumnNumeric(t: Table, c: string, col: seq<Cell>)
    requires WellFormed(t) && |col| == t.rows && forall i | 0 <= i < |col| :: !col[i].Text?
    ensures NumericColumn(WithColumn(t, c, col), c)
    ensures forall d | NumericColumn(t, d) :: NumericColumn(WithColumn(t, c, col), d)
  {
  }

  /** A masked assignment of numbers or NaN keeps every numeric column numeric. */
  lemma WithMaskedNumeric(t: Table, mask: seq<bool>, cs: seq<string>, vals: seq<Cell>)
    requires WellFormed(t) && |mask| == |vals| == t.rows && forall c | c in cs :: c in t.data
    requires forall i | 0 <= i < |vals| :: !vals[i].Text?
    ensures forall d | NumericColumn(t, d) :: NumericColumn(WithMasked(t, mask, cs, vals), d)
  {
  }

  /** A frame object whose columns code assigns and drops in place. */
  class DataFrame {
    var columns: seq<string>
    var data: map<string, seq<Cell>>
    var rows: nat

    function Snapshot(): Table
      reads this
    {
      Table(columns, data, rows)
    }

    ghost predicate Valid()
      reads this
    {
      WellFormed(Snapshot())
    }

    /** A new frame holding a copy of `t` (`DataFrame.copy()`, or a frame built by a pure pandas call). */
    constructor Of(t: Table)
      requires WellFormed(t)
      ensures Valid() && Snapshot() == t
    {
      columns, data, rows := t.columns, t.data, t.rows;
    }

    /** `df[c] = col`. */
    method Assign(c: string, col: seq<Cell>)
      requires Valid() && |col| == rows
      modifies this
      ensures Valid() && Snapshot() == WithColumn(old(Snapshot()), c, col)
    {
      if c !in data {
        columns := columns + [c];
      }
      data := data[c := col];
    }

    /** `df.loc[mask, cs] = vals`. */
    method AssignWhere(mask: seq<bool>, cs: seq<string>, vals: seq<Cell>)
      requires Valid() && |mask| == |vals| == rows && forall c | c in cs :: c in data
      modifies this
      ensures Valid() && Snapshot() == WithMasked(old(Snapshot()), mask, cs, vals)
    {
      var t := WithMasked(Snapshot(), mask, cs, vals);
      data := t.data;
    }

    /** `df.drop(columns=cs, inplace=True)`. */
    method DropInPlace(cs: seq<string>)
      requires Valid() && forall c | c in cs :: c in data
      modifies this
      ensures Valid() && Snapshot() == Without(old(Snapshot()), cs)
    {
      columns := Remove(columns, cs);
      data := map c | c in data && c !in cs :: data[c];
    }
  }

  // ---------------------------------------------------------------- merge

  /** The cells of the columns `on` in row `i` (for a merge, the row's key). */
  function RowCells(t: Table, on: seq<string>, i: nat): (k: seq<Cell>)
    requires WellFormed(t) && i < t.rows && forall c | c in on :: c in t.data
    ensures |k| == |on| && forall m | 0 <= m < |on| :: k[m] == t.data[on[m]][i]
  {
    seq(|on|, m requires 0 <= m < |on| => t.data[on[m]][i])
  }

  ghost predicate Joinable(l: Table, r: Table, on: seq<string>) {
    && WellFormed(l) && WellFormed(r) && Distinct(on)
    && (forall c | c in on :: c in l.data && c in r.data)
    && (forall c | c in l.data && c in r.data :: c in on)
  }

  /** The pairs (i, j), j < m, whose right row j has the key of left row i. */
  function Matches(l: Table, r: Table, on: seq<string>, i: nat, m: nat): (p: seq<(nat, nat)>)
    requires Joinable(l, r, on) && i < l.rows && m <= r.rows
    ensures forall k | 0 <= k < |p| :: p[k].0 == i && p[k].1 < m
    ensures forall k | 0 <= k < |p| :: RowCells(l, on, i) == RowCells(r, on, p[k].1)
    ensures forall a, b | 0 <= a < b < |p| :: p[a].1 < p[b].1
  {
    if m == 0 then []
    else
      var p := Matches(l, r, on, i, m - 1);
      if RowCells(l, on, i) == RowCells(r, on, m - 1) then p + [(i, m - 1)] else p
  }

  /** The matching pairs for the left rows below `n`, left row by left row. */
  function Pairs(l: Table, r: Table, on: seq<string>, n: nat): (p: seq<(nat, nat)>)
    requires Joinable(l, r, on) && n <= l.rows
    ensures forall k | 0 <= k < |p| :: p[k].0 < n && p[k].1 < r.rows
    ensures forall k | 0 <= k < |p| :: RowCells(l, on, p[k].0) == RowCells(r, on, p[k].1)
  {
    if n == 0 then []
    else Pairs(l, r, on, n - 1) + Matches(l, r, on, n - 1, r.rows)
  }

  /** Every right row below `m` with the key of left row `i` is matched. */
  lemma {:induction false} MatchesComplete(l: Table, r: Table, on: seq<string>, i: nat, m: nat, j: nat)
    requires Joinable(l, r, on) && i < l.rows && j < m <= r.rows
    requires RowCells(l, on, i) == RowCells(r, on, j)
    ensures (i, j) in Matches(l, r, on, i, m)
  {
    if j < m - 1 {
      MatchesComplete(l, r, on, i, m - 1, j);
    }
  }

  /** Every pair of rows with equal keys, the left one below `n`, is matched. */
  lemma {:induction false} PairsComplete(l: Table, r: Table, on: seq<string>, n: nat, i: nat, j: nat)
    requires Joinable(l, r, on) && i < n <= l.rows && j < r.rows
    requires RowCells(l, on, i) == RowCells(r, on, j)
    ensures (i, j) in Pairs(l, r, on, n)
  {
    if i < n - 1 {
      PairsComplete(l, r, on, n - 1, i, j);
    } else {
      MatchesComplete(l, r, on, i, r.rows, j);
    }
  }

  /** `pd.merge(l, r, on=on)`: the inner join, ordered by left row and then by
      right row; the left columns come first, then the right non-key columns. */
  function Merge(l: Table, r: Table, on: seq<string>): (t: Table)
    requires Joinable(l, r, on)
    ensures WellFormed(t)
    ensures t.columns == l.columns + Remove(r.columns, on)
    ensures t.rows == |Pairs(l, r, on, l.rows)|
  {
    var p := Pairs(l, r, on, l.rows);
    var cols := l.columns + Remove(r.columns, on);
    assert Distinct(cols) by {
      forall a, b | 0 <= a < b < |cols| ensures cols[a] != cols[b] {
        if b >= |l.columns| && a < |l.columns| {
          assert cols[b] in Remove(r.columns, on) && cols[a] in l.data;
        }
      }
    }
    Table(cols,
          map c | c in cols ::
            if c in l.data then seq(|p|, k requires 0 <= k < |p| => l.data[c][p[k].0])
            else seq(|p|, k requires 0 <= k < |p| => r.data[c][p[k].1]),
          |p|)
  }

  /** The key of every row, in row order. */
  function Keys(t: Table, on: seq<string>): (ks: seq<seq<Cell>>)
    requires WellFormed(t) && forall c | c in on :: c in t.data
    ensures |ks| == t.rows && forall i | 0 <= i < t.rows :: ks[i] == RowCells(t, on, i)
  {
    seq(t.rows, i requires 0 <= i < t.rows => RowCells(t, on, i))
  }

  lemma {:induction false} MatchesCount(l: Table, r: Table, on: seq<string>, i: nat, m: nat)
    requires Joinable(l, r, on) && i < l.rows && m <= r.rows
    ensures |Matches(l, r, on, i, m)| == Count(Keys(r, on)[..m], RowCells(l, on, i))
  {
    if m > 0 {
      MatchesCount(l, r, on, i, m - 1);
      assert Keys(r, on)[..m][..m - 1] == Keys(r, on)[..m - 1];
    }
  }

  lemma {:induction false} PairsCount(l: Table, r: Table, on: seq<string>, n: nat)
    requires Joinable(l, r, on) && n <= l.rows
    ensures |Pairs(l, r, on, n)| == SumCounts(Keys(l, on)[..n], Keys(r, on))
  {
    if n > 0 {
      PairsCount(l, r, on, n - 1);
      MatchesCount(l, r, on, n - 1, r.rows);
      assert Keys(l, on)[..n][..n - 1] == Keys(l, on)[..n - 1];
      assert Keys(r, on)[..r.rows] == Keys(r, on);
    }
  }

  /** The inner join has, for every distinct key of the left frame, as many
      rows as the product of that key's row counts on the two sides. */
  lemma MergeRowCount(l: Table, r: Table, on: seq<string>)
    requires Joinable(l, r, on)
    ensures Merge(l, r, on).rows == SumProducts(Unique(Keys(l, on)), Keys(l, on), Keys(r, on))
  {
    PairsCount(l, r, on, l.rows);
    assert Keys(l, on)[..l.rows] == Keys(l, on);
    SumCountsByGroup(Unique(Keys(l, on)), Keys(l, on), Keys(r, on));
  }

  /** Row `k` of the join carries the left columns of the left row and the
      right non-key columns of the right row of the `k`-th matching pair. */
  lemma MergeRow(l: Table, r: Table, on: seq<string>, k: nat)
    requires Joinable(l, r, on) && k < Merge(l, r, on).rows
    ensures var p := Pairs(l, r, on, l.rows)[k];
            && RowCells(l, on, p.0) == RowCells(r, on, p.1)
            && (forall c | c in l.data :: Merge(l, r, on).data[c][k] == l.data[c][p.0])
            && (forall c | c in r.data && c !in on :: Merge(l, r, on).data[c][k] == r.data[c][p.1])
  {
  }

  // ---------------------------------------------------------------- groupby

  /** The string values of the key columns `by` in row `i`. */
  function TextKey(t: Table, keyCols: seq<string>, i: nat): (k: seq<string>)
    requires WellFormed(t) && i < t.rows && TextColumns(t, keyCols)
    ensures |k| == |keyCols| && forall m | 0 <= m < |keyCols| :: Text(k[m]) == t.data[keyCols[m]][i]
  {
    seq(|keyCols|, m requires 0 <= m < |keyCols| => t.data[keyCols[m]][i].s)
  }

  function TextKeys(t: Table, keyCols: seq<string>): (ks: seq<seq<string>>)
    requires WellFormed(t) && TextColumns(t, keyCols)
    ensures |ks| == t.rows && forall i | 0 <= i < t.rows :: ks[i] == TextKey(t, keyCols, i)
  {
    seq(t.rows, i requires 0 <= i < t.rows => TextKey(t, keyCols, i))
  }

  /** `groupby(by, sort=True)`: the distinct keys in increasing order. */
  function GroupKeys(t: Table, keyCols: seq<string>): seq<seq<string>>
    requires WellFormed(t) && TextColumns(t, keyCols)
  {
    SortedSet(TextKeys(t, keyCols), KeyLt)
  }

  lemma GroupKeysSpec(t: Table, keyCols: seq<string>)
    requires WellFormed(t) && TextColumns(t, keyCols)
    ensures StrictlySorted(GroupKeys(t, keyCols), KeyLt) && Distinct(GroupKeys(t, keyCols))
    ensures forall k :: k in GroupKeys(t, keyCols) <==> exists i | 0 <= i < t.rows :: TextKey(t, keyCols, i) == k
    ensures forall q | 0 <= q < |GroupKeys(t, keyCols)| :: |GroupKeys(t, keyCols)[q]| == |keyCols|
  {
    KeyLtIsStrictTotal();
    SortedSetSpec(TextKeys(t, keyCols), KeyLt);
    SortedIsDistinct(GroupKeys(t, keyCols), KeyLt);
    forall k ensures k in GroupKeys(t, keyCols) <==> exists i | 0 <= i < t.rows :: TextKey(t, keyCols, i) == k {
      if k in TextKeys(t, keyCols) {
        var i :| 0 <= i < t.rows && TextKeys(t, keyCols)[i] == k;
      }
    }
    forall q | 0 <= q < |GroupKeys(t, keyCols)| ensures |GroupKeys(t, keyCols)[q]| == |keyCols| {
      assert GroupKeys(t, keyCols)[q] in GroupKeys(t, keyCols);
    }
  }

  /** The rows below `n` whose key is `key`, in row order: one group. */
  function GroupRows(t: Table, keyCols: seq<string>, key: seq<string>, n: nat): (g: seq<nat>)
    requires WellFormed(t) && n <= t.rows && TextColumns(t, keyCols)
    ensures forall k | 0 <= k < |g| :: g[k] < n && TextKey(t, keyCols, g[k]) == key
    ensures forall i | 0 <= i < n :: TextKey(t, keyCols, i) == key ==> i in g
    ensures forall a, b | 0 <= a < b < |g| :: g[a] < g[b]
  {
    if n == 0 then []
    else
      var g := GroupRows(t, keyCols, key, n - 1);
      if TextKey(t, keyCols, n - 1) == key then g + [n - 1] else g
  }

  /** Two frames whose key columns agree row by row form the same groups. */
  lemma {:induction false} GroupRowsAgree(t: Table, u: Table, keyCols: seq<string>, key: seq<string>, n: nat)
    requires WellFormed(t) && WellFormed(u) && n <= t.rows == u.rows
    requires TextColumns(t, keyCols) && TextColumns(u, keyCols)
    requires forall i | 0 <= i < t.rows :: TextKey(t, keyCols, i) == TextKey(u, keyCols, i)
    ensures GroupRows(t, keyCols, key, n) == GroupRows(u, keyCols, key, n)
  {
    if n > 0 {
      GroupRowsAgree(t, u, keyCols, key, n - 1);
    }
  }

  /** A frame with one row per group key: the key columns, then the aggregated columns. */
  function GroupTable(keyCols: seq<string>, keys: seq<seq<string>>, aggNames: seq<string>, aggs: seq<seq<Cell>>): (t: Table)
    requires Distinct(keyCols + aggNames) && |aggs| == |aggNames|
    requires forall k | 0 <= k < |keys| :: |keys[k]| == |keyCols|
    requires forall a | 0 <= a < |aggs| :: |aggs[a]| == |keys|
    ensures WellFormed(t) && t.rows == |keys| && t.columns == keyCols + aggNames
    ensures forall m, k | 0 <= m < |keyCols| && 0 <= k < |keys| :: t.data[keyCols[m]][k] == Text(keys[k][m])
    ensures forall a, k | 0 <= a < |aggNames| && 0 <= k < |keys| :: t.data[aggNames[a]][k] == aggs[a][k]
  {
    var cols := keyCols + aggNames;
    var t := Table(cols,
      map c | c in cols ::
        if c in keyCols then seq(|keys|, k requires 0 <= k < |keys| => Text(keys[k][IndexOf(keyCols, c)]))
        else aggs[IndexOf(aggNames, c)],
      |keys|);
    assert forall m | 0 <= m < |keyCols| :: IndexOf(keyCols, keyCols[m]) == m by {
      forall m | 0 <= m < |keyCols| ensures IndexOf(keyCols, keyCols[m]) == m {
        var q := IndexOf(keyCols, keyCols[m]);
        assert cols[q] == cols[m];
      }
    }
    assert forall a | 0 <= a < |aggNames| :: aggNames[a] !in keyCols && IndexOf(aggNames, aggNames[a]) == a by {
      forall a | 0 <= a < |aggNames| ensures aggNames[a] !in keyCols && IndexOf(aggNames, aggNames[a]) == a {
        var q := IndexOf(aggNames, aggNames[a]);
        assert cols[|keyCols| + q] == cols[|keyCols| + a];
        forall m | 0 <= m < |keyCols| ensures keyCols[m] != aggNames[a] {
          assert cols[m] == keyCols[m] && cols[|keyCols| + a] == aggNames[a];
        }
      }
    }
    t
  }

  /** An aggregate column of a grouped frame is exactly its list of values. */
  lemma GroupTableAgg(keyCols: seq<string>, keys: seq<seq<string>>, aggNames: seq<string>, aggs: seq<seq<Cell>>, a: nat)
    requires Distinct(keyCols + aggNames) && |aggs| == |aggNames|
    requires forall k | 0 <= k < |keys| :: |keys[k]| == |keyCols|
    requires forall a | 0 <= a < |aggs| :: |aggs[a]| == |keys|
    requires a < |aggNames|
    ensures aggNames[a] in GroupTable(keyCols, keys, aggNames, aggs).data
    ensures GroupTable(keyCols, keys, aggNames, aggs).data[aggNames[a]] == aggs[a]
  {
    var t := GroupTable(keyCols, keys, aggNames, aggs);
    assert (keyCols + aggNames)[|keyCols| + a] == aggNames[a];
    assert aggNames[a] in t.columns;
  }
}
