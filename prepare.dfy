/** The preparation of the raw prevalence table (`prepare.py`): the five
    columns the analysis uses, the difference between the symptomatic and
    the asymptomatic mean per symptom and cohort, the 12- or 18-month label
    of the second period, its split into two columns, and the collapse to
    one row per symptom. */
module Prepare {
  import opened Wrappers
  import opened Seqs
  import opened Orders
  import opened Frames
  import opened Names
  import opened Joins

  const SymptomaticColumn := "symptomatic"
  const CohortColumn := "cohort_period"
  const FirstPeriodColumn := "percentage_1st_period"
  const SecondPeriodColumn := "percentage_2nd_period"
  const Prevalence2nd := "prevalence_diff_2nd"
  const MonthsColumn := "months_2nd_period"
  const Prevalence6mMean := "prevalence_diff_6m_mean"

  /** The columns the raw table is cut down to, in order. */
  const RawColumns := [SymptomaticColumn, CohortColumn, SymptomColumn, FirstPeriodColumn, SecondPeriodColumn]

  /** The group keys: symptom and cohort, and symptom alone. */
  const CohortKey := [SymptomColumn, CohortColumn]
  const SymptomKey := [SymptomColumn]

  /** The columns dropped once the second period is split. */
  const HelperColumns := [CohortColumn, MonthsColumn, Prevalence2nd, Prevalence6mMean]

  // ---------------------------------------------------------------- clean_and_subset_data

  /** Row `i` has a value in each of the columns `cs`. */
  predicate Complete(t: Table, cs: seq<string>, i: nat)
    requires WellFormed(t) && i < t.rows && forall c | c in cs :: c in t.data
  {
    forall c | c in cs :: t.data[c][i] != Missing
  }

  /** `dropna()`: the rows below `n` with a value in every column of `cs`, in order. */
  function CompleteRows(t: Table, cs: seq<string>, n: nat): (g: seq<nat>)
    requires WellFormed(t) && n <= t.rows && forall c | c in cs :: c in t.data
    ensures forall k | 0 <= k < |g| :: g[k] < n && Complete(t, cs, g[k])
    ensures forall i | 0 <= i < n && Complete(t, cs, i) :: i in g
    ensures forall a, b | 0 <= a < b < |g| :: g[a] < g[b]
  {
    if n == 0 then []
    else
      var g := CompleteRows(t, cs, n - 1);
      if Complete(t, cs, n - 1) then g + [n - 1] else g
  }

  /** When every row below `n` is complete, `dropna` keeps them all, in order. */
  lemma {:induction false} AllRows(t: Table, cs: seq<string>, n: nat)
    requires WellFormed(t) && n <= t.rows && forall c | c in cs :: c in t.data
    requires forall i | 0 <= i < n :: Complete(t, cs, i)
    ensures |CompleteRows(t, cs, n)| == n && forall k | 0 <= k < n :: CompleteRows(t, cs, n)[k] == k
  {
    if n > 0 {
      AllRows(t, cs, n - 1);
      var g := CompleteRows(t, cs, n - 1);
      assert CompleteRows(t, cs, n) == g + [n - 1];
    }
  }

  /** The first of the columns `cs` that `t` lacks. */
  function MissingColumn(t: Table, cs: seq<string>): (c: string)
    requires exists c | c in cs :: c !in t.data
    ensures c in cs && c !in t.data
  {
    if cs[0] !in t.data then cs[0]
    else
      assert exists c | c in cs[1..] :: c !in t.data by {
        var c :| c in cs && c !in t.data;
        assert c != cs[0];
      }
      MissingColumn(t, cs[1..])
  }

  /** `clean_and_subset_data`: the five columns, without the rows that lack
      a value in one of them; selecting a column the table lacks raises KeyError. */
  function CleanAndSubset(data: Table): (r: Result<Table>)
    requires WellFormed(data)
    ensures r.Err? <==> exists c | c in RawColumns :: c !in data.data
    ensures r.Err? ==> r.error.KeyError? && r.error.key in RawColumns && r.error.key !in data.data
    ensures r.Ok? ==>
              var g := CompleteRows(data, RawColumns, data.rows);
              && WellFormed(r.value) && r.value.columns == RawColumns && r.value.rows == |g|
              && forall c, k | c in RawColumns && 0 <= k < |g| :: r.value.data[c][k] == data.data[c][g[k]]
  {
    if exists c | c in RawColumns :: c !in data.data then Err(KeyError(MissingColumn(data, RawColumns)))
    else Ok(TakeRows(Select(data, RawColumns), CompleteRows(data, RawColumns, data.rows)))
  }

  /** Every row of the cleaned table has a value in each of the five columns. */
  lemma CleanedIsComplete(data: Table)
    requires WellFormed(data) && CleanAndSubset(data).Ok?
    ensures forall i | 0 <= i < CleanAndSubset(data).value.rows :: Complete(CleanAndSubset(data).value, RawColumns, i)
  {
    var t := CleanAndSubset(data).value;
    var g := CompleteRows(data, RawColumns, data.rows);
    forall i | 0 <= i < t.rows ensures Complete(t, RawColumns, i) {
      assert Complete(data, RawColumns, g[i]);
    }
  }

  /** Cleaning a cleaned table changes nothing. */
  lemma CleanIdempotent(data: Table)
    requires WellFormed(data) && CleanAndSubset(data).Ok?
    ensures CleanAndSubset(CleanAndSubset(data).value) == CleanAndSubset(data)
  {
    var t := CleanAndSubset(data).value;
    CleanedIsComplete(data);
    AllRows(t, RawColumns, t.rows);
    var g := CompleteRows(t, RawColumns, t.rows);
    var u := TakeRows(Select(t, RawColumns), g);
    forall c | c in RawColumns ensures u.data[c] == t.data[c] {
      assert |u.data[c]| == |t.data[c]|;
      forall k | 0 <= k < t.rows ensures u.data[c][k] == t.data[c][k] {
        assert g[k] == k;
      }
    }
    assert u.data == t.data;
  }

  // ---------------------------------------------------------------- calculate_mean_diff

  /** The rows below `n` whose flag is `flag` (`group[group['symptomatic'] == flag]`). */
  function FlagRows(flags: seq<Cell>, flag: real, n: nat): (g: seq<nat>)
    requires n <= |flags|
    ensures forall k | 0 <= k < |g| :: g[k] < n && flags[g[k]] == Num(flag)
    ensures forall i | 0 <= i < n && flags[i] == Num(flag) :: i in g
  {
    if n == 0 then []
    else
      var g := FlagRows(flags, flag, n - 1);
      if flags[n - 1] == Num(flag) then g + [n - 1] else g
  }

  /** The mean of `column` over the rows flagged `flag`; NaN when none of them has a value. */
  function FlagMean(group: Table, column: string, flag: real): Cell
    requires WellFormed(group) && SymptomaticColumn in group.data && column in group.data
  {
    Mean(CellsAt(group, column, FlagRows(group.data[SymptomaticColumn], flag, group.rows)))
  }

  /** Some row flagged `flag` has a value in `column`. */
  ghost predicate Observed(group: Table, column: string, flag: real)
    requires WellFormed(group) && SymptomaticColumn in group.data && column in group.data
  {
    exists i | 0 <= i < group.rows :: group.data[SymptomaticColumn][i] == Num(flag) && group.data[column][i].Num?
  }

  lemma FlagMeanDefined(group: Table, column: string, flag: real)
    requires WellFormed(group) && SymptomaticColumn in group.data && column in group.data
    ensures FlagMean(group, column, flag).Num? <==> Observed(group, column, flag)
    ensures FlagMean(group, column, flag).Num? || FlagMean(group, column, flag) == Missing
  {
    var g := FlagRows(group.data[SymptomaticColumn], flag, group.rows);
    var cs := CellsAt(group, column, g);
    NumCountZero(cs);
    if Observed(group, column, flag) {
      var i :| 0 <= i < group.rows && group.data[SymptomaticColumn][i] == Num(flag) && group.data[column][i].Num?;
      var k :| 0 <= k < |g| && g[k] == i;
      assert cs[k].Num?;
    }
  }

  /** `calculate_mean_diff`: the mean of `column` over the symptomatic rows
      minus its mean over the asymptomatic rows; NaN when either side has no value. */
  function MeanDiff(group: Table, column: string): (d: Cell)
    requires WellFormed(group) && SymptomaticColumn in group.data && column in group.data
    ensures d.Num? <==> Observed(group, column, 1.0) && Observed(group, column, 0.0)
    ensures !d.Num? ==> d == Missing
    ensures d.Num? ==> && FlagMean(group, column, 1.0).Num? && FlagMean(group, column, 0.0).Num?
                       && d.x == FlagMean(group, column, 1.0).x - FlagMean(group, column, 0.0).x
  {
    FlagMeanDefined(group, column, 1.0);
    FlagMeanDefined(group, column, 0.0);
    Sub(FlagMean(group, column, 1.0), FlagMean(group, column, 0.0))
  }

  /** Every number of a column moved by `c`; NaN and text stay. */
  function Shifted(cs: seq<Cell>, c: real): (r: seq<Cell>)
    ensures |r| == |cs|
    ensures forall i | 0 <= i < |cs| :: r[i] == if cs[i].Num? then Num(cs[i].x + c) else cs[i]
  {
    seq(|cs|, i requires 0 <= i < |cs| => if cs[i].Num? then Num(cs[i].x + c) else cs[i])
  }

  lemma {:induction false} ShiftedSums(cs: seq<Cell>, c: real)
    ensures NumCount(Shifted(cs, c)) == NumCount(cs)
    ensures NumSum(Shifted(cs, c)) == NumSum(cs) + c * NumCount(cs) as real
  {
    if |cs| > 0 {
      var n := |cs| - 1;
      ShiftedSums(cs[..n], c);
      assert Shifted(cs, c)[..n] == Shifted(cs[..n], c);
    }
  }

  /** Moving every value by `c` moves the mean by `c`. */
  lemma ShiftedMean(cs: seq<Cell>, c: real)
    ensures Mean(Shifted(cs, c)) == if Mean(cs).Num? then Num(Mean(cs).x + c) else Mean(cs)
  {
    ShiftedSums(cs, c);
    if NumCount(cs) > 0 {
      var n := NumCount(cs) as real;
      MovedQuotient(NumSum(cs), c, n);
      assert NumSum(Shifted(cs, c)) == NumSum(cs) + c * n;
      assert Mean(Shifted(cs, c)) == Num((NumSum(cs) + c * n) / n);
    }
  }

  lemma MovedQuotient(s: real, c: real, n: real)
    requires n > 0.0
    ensures (s + c * n) / n == s / n + c
  {
    assert s == (s / n) * n;
    assert s + c * n == (s / n + c) * n;
  }

  /** The mean difference is a difference of means: moving every value of
      the column by the same amount leaves it unchanged. */
  lemma MeanDiffShiftInvariant(group: Table, column: string, c: real)
    requires WellFormed(group) && SymptomaticColumn in group.data && column in group.data
    requires column != SymptomaticColumn
    ensures MeanDiff(WithColumn(group, column, Shifted(group.data[column], c)), column) == MeanDiff(group, column)
  {
    var moved := WithColumn(group, column, Shifted(group.data[column], c));
    assert moved.data[SymptomaticColumn] == group.data[SymptomaticColumn];
    forall flag: real
      ensures FlagMean(moved, column, flag) ==
                if FlagMean(group, column, flag).Num? then Num(FlagMean(group, column, flag).x + c)
                else FlagMean(group, column, flag)
    {
      var g := FlagRows(group.data[SymptomaticColumn], flag, group.rows);
      assert CellsAt(moved, column, g) == Shifted(CellsAt(group, column, g), c);
      ShiftedMean(CellsAt(group, column, g), c);
    }
  }

  // ---------------------------------------------------------------- calculate_prevalence_differences

  /** The cleaned table as the grouping needs it: symptom and cohort are
      strings, the two percentages are numbers. */
  ghost predicate Cleaned(t: Table) {
    && WellFormed(t) && TextColumn(t, SymptomColumn) && TextColumn(t, CohortColumn)
    && TextColumns(t, CohortKey) && SymptomaticColumn in t.data
    && NumericColumn(t, FirstPeriodColumn) && NumericColumn(t, SecondPeriodColumn)
  }

  /** The (symptom, cohort) groups, in sorted key order. */
  function CohortGroups(t: Table): (keys: seq<seq<string>>)
    requires WellFormed(t) && TextColumns(t, CohortKey)
    ensures keys == GroupKeys(t, CohortKey)
    ensures forall q | 0 <= q < |keys| :: |keys[q]| == 2
  {
    GroupKeysSpec(t, CohortKey);
    GroupKeys(t, CohortKey)
  }

  /** The rows of one group, as a frame of their own. */
  function Group(t: Table, key: seq<string>): Table
    requires WellFormed(t) && TextColumns(t, CohortKey)
  {
    TakeRows(t, GroupRows(t, CohortKey, key, t.rows))
  }

  /** `grouped.apply(lambda x: calculate_mean_diff(x, column))`: one difference per group. */
  function GroupDiffs(t: Table, column: string): (ds: seq<Cell>)
    requires Cleaned(t) && column in t.data
    ensures |ds| == |CohortGroups(t)|
    ensures forall q | 0 <= q < |ds| :: ds[q] == MeanDiff(Group(t, CohortGroups(t)[q]), column)
    ensures forall q | 0 <= q < |ds| :: !ds[q].Text?
  {
    var keys := CohortGroups(t);
    seq(|keys|, q requires 0 <= q < |keys| => MeanDiff(Group(t, keys[q]), column))
  }

  lemma NamesDistinct()
    ensures Distinct(CohortKey + [Prevalence6m]) && Distinct(CohortKey + [Prevalence2nd])
    ensures Distinct(SymptomKey + [Prevalence6mMean]) && Distinct(SymptomKey + PeriodColumns)
    ensures Distinct(RawColumns)
  {
  }

  /** One period's differences: a frame with one row per (symptom, cohort)
      group holding that group's mean difference of `column` under `name`. */
  function DiffTable(t: Table, name: string, column: string): (d: Table)
    requires Cleaned(t) && column in t.data && name in {Prevalence6m, Prevalence2nd}
    ensures WellFormed(d) && d.columns == CohortKey + [name] && d.rows == |CohortGroups(t)|
    ensures forall q, m | 0 <= q < d.rows && 0 <= m < 2 :: d.data[CohortKey[m]][q] == Text(CohortGroups(t)[q][m])
    ensures forall q | 0 <= q < d.rows :: d.data[name][q] == MeanDiff(Group(t, CohortGroups(t)[q]), column)
  {
    NamesDistinct();
    var d := GroupTable(CohortKey, CohortGroups(t), [name], [GroupDiffs(t, column)]);
    assert [name][0] == name;
    d
  }

  /** `calculate_prevalence_differences`: the first-period and the
      second-period differences, each with one row per (symptom, cohort) group. */
  function PrevalenceDifferences(t: Table): (r: (Table, Table))
    requires Cleaned(t)
  {
    (DiffTable(t, Prevalence6m, FirstPeriodColumn), DiffTable(t, Prevalence2nd, SecondPeriodColumn))
  }

  /** Row `q` of a difference frame carries the `q`-th group key. */
  lemma DiffKey(t: Table, name: string, column: string, q: nat)
    requires Cleaned(t) && column in t.data && name in {Prevalence6m, Prevalence2nd}
    requires q < DiffTable(t, name, column).rows
    ensures var d := DiffTable(t, name, column);
            && d.data[SymptomColumn][q] == Text(CohortGroups(t)[q][0])
            && d.data[CohortColumn][q] == Text(CohortGroups(t)[q][1])
            && CohortGroups(t)[q] == [d.data[SymptomColumn][q].s, d.data[CohortColumn][q].s]
  {
    var d := DiffTable(t, name, column);
    var key := CohortGroups(t)[q];
    assert d.data[CohortKey[0]][q] == Text(key[0]);
    assert d.data[CohortKey[1]][q] == Text(key[1]);
    PairOf(key);
  }

  /** Every group key is the key of some row of the cleaned table. */
  lemma GroupHasRow(t: Table, q: nat) returns (i: nat)
    requires Cleaned(t) && q < |CohortGroups(t)|
    ensures i < t.rows && CohortGroups(t)[q] == [t.data[SymptomColumn][i].s, t.data[CohortColumn][i].s]
  {
    var keys := CohortGroups(t);
    GroupKeysSpec(t, CohortKey);
    assert keys[q] in keys;
    i :| 0 <= i < t.rows && TextKey(t, CohortKey, i) == keys[q];
    var key := TextKey(t, CohortKey, i);
    assert Text(key[0]) == t.data[CohortKey[0]][i] && Text(key[1]) == t.data[CohortKey[1]][i];
    PairOf(key);
  }

  /** Every row of the cleaned table has its key among the group keys. */
  lemma RowHasGroup(t: Table, i: nat) returns (q: nat)
    requires Cleaned(t) && i < t.rows
    ensures q < |CohortGroups(t)| && CohortGroups(t)[q] == [t.data[SymptomColumn][i].s, t.data[CohortColumn][i].s]
  {
    var keys := CohortGroups(t);
    GroupKeysSpec(t, CohortKey);
    var key := TextKey(t, CohortKey, i);
    assert Text(key[0]) == t.data[CohortKey[0]][i] && Text(key[1]) == t.data[CohortKey[1]][i];
    PairOf(key);
    assert key in keys;
    q :| 0 <= q < |keys| && keys[q] == key;
  }

  /** A difference frame has a row for a (symptom, cohort) pair exactly when
      the cleaned table has a row with that pair. */
  lemma DifferencesCoverGroups(t: Table, name: string, column: string, s: string, c: string)
    requires Cleaned(t) && column in t.data && name in {Prevalence6m, Prevalence2nd}
    ensures var d := DiffTable(t, name, column);
            (exists q | 0 <= q < d.rows :: d.data[SymptomColumn][q] == Text(s) && d.data[CohortColumn][q] == Text(c))
            <==> (exists i | 0 <= i < t.rows :: t.data[SymptomColumn][i] == Text(s) && t.data[CohortColumn][i] == Text(c))
  {
    var d := DiffTable(t, name, column);
    if q :| 0 <= q < d.rows && d.data[SymptomColumn][q] == Text(s) && d.data[CohortColumn][q] == Text(c) {
      DiffKey(t, name, column, q);
      var i := GroupHasRow(t, q);
      assert t.data[SymptomColumn][i] == Text(s) && t.data[CohortColumn][i] == Text(c);
    }
    if i :| 0 <= i < t.rows && t.data[SymptomColumn][i] == Text(s) && t.data[CohortColumn][i] == Text(c) {
      var q := RowHasGroup(t, i);
      DiffKey(t, name, column, q);
      assert d.data[SymptomColumn][q] == Text(s) && d.data[CohortColumn][q] == Text(c);
    }
  }

  /** The rows of a difference frame are in strictly increasing (symptom,
      cohort) order, so no pair has two rows. */
  lemma DifferencesSorted(t: Table, name: string, column: string, a: nat, b: nat)
    requires Cleaned(t) && column in t.data && name in {Prevalence6m, Prevalence2nd}
    requires a < b < DiffTable(t, name, column).rows
    ensures var d := DiffTable(t, name, column);
            KeyLt([d.data[SymptomColumn][a].s, d.data[CohortColumn][a].s],
                  [d.data[SymptomColumn][b].s, d.data[CohortColumn][b].s])
  {
    GroupKeysSpec(t, CohortKey);
    DiffKey(t, name, column, a);
    DiffKey(t, name, column, b);
  }

  // ---------------------------------------------------------------- merge_prevalence_data

  /** `sub` occurs in `s` at position `i`. */
  predicate OccursAt(s: string, sub: string, i: nat) {
    i + |sub| <= |s| && s[i..i + |sub|] == sub
  }

  /** Python's `sub in s` on strings. */
  function Contains(s: string, sub: string): bool
    decreases |s|
  {
    if |s| < |sub| then false
    else s[..|sub|] == sub || Contains(s[1..], sub)
  }

  /** An occurrence in the tail is an occurrence one place later in the whole. */
  lemma OccursShift(s: string, sub: string, i: nat)
    requires |s| > 0
    ensures OccursAt(s[1..], sub, i) <==> OccursAt(s, sub, i + 1)
  {
    if i + 1 + |sub| <= |s| {
      assert s[1..][i..i + |sub|] == s[i + 1..i + 1 + |sub|];
    }
  }

  /** `Contains` finds `sub` exactly when it occurs somewhere in `s`. */
  lemma {:induction false} ContainsIsSubstring(s: string, sub: string)
    ensures Contains(s, sub) <==> exists i: nat :: OccursAt(s, sub, i)
    decreases |s|
  {
    var n := |sub|;
    if |s| < n {
      forall i: nat ensures !OccursAt(s, sub, i) {
      }
    } else if s[..n] == sub {
      assert OccursAt(s, sub, 0);
    } else {
      ContainsIsSubstring(s[1..], sub);
      if Contains(s[1..], sub) {
        var i: nat :| OccursAt(s[1..], sub, i);
        OccursShift(s, sub, i);
      } else {
        forall i: nat ensures !OccursAt(s, sub, i) {
          if i > 0 {
            OccursShift(s, sub, i - 1);
          }
        }
      }
    }
  }

  /** `merged['cohort_period'].apply(lambda x: 18 if '18' in x else 12)`. */
  function MonthsOf(t: Table): (col: seq<Cell>)
    requires WellFormed(t) && TextColumn(t, CohortColumn)
    ensures |col| == t.rows
  {
    seq(t.rows, k requires 0 <= k < t.rows => if Contains(t.data[CohortColumn][k].s, "18") then Num(18.0) else Num(12.0))
  }

  /** The join of the difference frames takes its cohort labels from the first frame. */
  lemma JoinedLabels(d6: Table, d2: Table)
    requires Joinable(d6, d2, CohortKey) && TextColumn(d6, CohortColumn)
    ensures TextColumn(Merge(d6, d2, CohortKey), CohortColumn)
  {
    forall k | 0 <= k < Merge(d6, d2, CohortKey).rows ensures Merge(d6, d2, CohortKey).data[CohortColumn][k].Text? {
      MergeRow(d6, d2, CohortKey, k);
    }
  }

  /** `merge_prevalence_data`: the two difference frames joined on symptom
      and cohort, with the length of the second period added. */
  function MergePrevalenceData(d6: Table, d2: Table): (merged: Table)
    requires Joinable(d6, d2, CohortKey) && TextColumn(d6, CohortColumn)
    ensures WellFormed(merged) && merged.rows == Merge(d6, d2, CohortKey).rows
    ensures forall c | c in Merge(d6, d2, CohortKey).data && c != MonthsColumn ::
              c in merged.data && merged.data[c] == Merge(d6, d2, CohortKey).data[c]
    ensures TextColumn(merged, CohortColumn) && MonthsColumn in merged.data
  {
    var joined := Merge(d6, d2, CohortKey);
    JoinedLabels(d6, d2);
    WithColumn(joined, MonthsColumn, MonthsOf(joined))
  }

  /** The second period lasts 18 months exactly when the cohort label
      contains "18", and 12 months otherwise. */
  lemma MonthsRule(d6: Table, d2: Table, k: nat)
    requires Joinable(d6, d2, CohortKey) && TextColumn(d6, CohortColumn)
    requires k < MergePrevalenceData(d6, d2).rows
    ensures var merged := MergePrevalenceData(d6, d2);
            merged.data[MonthsColumn][k] ==
              if exists i: nat :: OccursAt(merged.data[CohortColumn][k].s, "18", i) then Num(18.0) else Num(12.0)
  {
    var cohort := MergePrevalenceData(d6, d2).data[CohortColumn][k].s;
    ContainsIsSubstring(cohort, "18");
  }

  /** A frame with one row per (symptom, cohort) key of `keys`, in that
      order, and one value column `name`. */
  ghost predicate KeyedBy(d: Table, keys: seq<seq<string>>, name: string) {
    && WellFormed(d) && d.columns == CohortKey + [name] && d.rows == |keys|
    && (forall q | 0 <= q < |keys| :: |keys[q]| == 2)
    && forall q, m | 0 <= q < d.rows && 0 <= m < 2 :: d.data[CohortKey[m]][q] == Text(keys[q][m])
  }

  /** Two frames keyed by the same keys share only their key columns. */
  lemma {:induction false} KeyedJoinable(d6: Table, d2: Table, keys: seq<seq<string>>)
    requires KeyedBy(d6, keys, Prevalence6m) && KeyedBy(d2, keys, Prevalence2nd)
    ensures Joinable(d6, d2, CohortKey) && TextColumn(d6, CohortColumn) && d2.rows == d6.rows
  {
    NamesDistinct();
    forall c | c in d6.data && c in d2.data ensures c in CohortKey {
      assert c in d6.columns && c in d2.columns;
    }
    forall k | 0 <= k < d6.rows ensures d6.data[CohortColumn][k].Text? {
      assert d6.data[CohortKey[1]][k] == Text(keys[k][1]);
    }
  }

  /** Row `q` of one frame has the key of row `q` of the other. */
  lemma {:induction false} KeyedKeys(d6: Table, d2: Table, keys: seq<seq<string>>)
    requires KeyedBy(d6, keys, Prevalence6m) && KeyedBy(d2, keys, Prevalence2nd)
    ensures d2.rows == d6.rows
    ensures forall q | 0 <= q < d6.rows :: Keys(d2, CohortKey)[q] == RowCells(d6, CohortKey, q)
  {
    forall q | 0 <= q < d6.rows ensures Keys(d2, CohortKey)[q] == RowCells(d6, CohortKey, q) {
      var a, b := Keys(d2, CohortKey)[q], RowCells(d6, CohortKey, q);
      assert a[0] == Text(keys[q][0]) == b[0] && a[1] == Text(keys[q][1]) == b[1];
    }
  }

  /** Distinct keys give a frame with distinct key rows. */
  lemma {:induction false} KeyedDistinct(d: Table, keys: seq<seq<string>>, name: string)
    requires KeyedBy(d, keys, name) && Distinct(keys)
    ensures Distinct(Keys(d, CohortKey))
  {
    var ks := Keys(d, CohortKey);
    forall a, b | 0 <= a < b < d.rows ensures ks[a] != ks[b] {
      assert keys[a] != keys[b] && |keys[a]| == 2 && |keys[b]| == 2;
      if keys[a][0] != keys[b][0] {
        assert ks[a][0] == Text(keys[a][0]) && ks[b][0] == Text(keys[b][0]);
      } else {
        assert keys[a][1] != keys[b][1];
        assert ks[a][1] == Text(keys[a][1]) && ks[b][1] == Text(keys[b][1]);
      }
    }
  }

  /** The two difference frames list the same (symptom, cohort) groups in the
      same order, once each, so they can be joined row by row. */
  lemma {:induction false} DifferencesJoinable(t: Table)
    requires Cleaned(t)
    ensures var d6, d2 := DiffTable(t, Prevalence6m, FirstPeriodColumn), DiffTable(t, Prevalence2nd, SecondPeriodColumn);
            && Joinable(d6, d2, CohortKey) && TextColumn(d6, CohortColumn) && d2.rows == d6.rows
            && Distinct(Keys(d2, CohortKey))
            && forall q | 0 <= q < d6.rows :: Keys(d2, CohortKey)[q] == RowCells(d6, CohortKey, q)
  {
    var d6, d2 := DiffTable(t, Prevalence6m, FirstPeriodColumn), DiffTable(t, Prevalence2nd, SecondPeriodColumn);
    GroupKeysSpec(t, CohortKey);
    KeyedJoinable(d6, d2, CohortGroups(t));
    KeyedKeys(d6, d2, CohortGroups(t));
    KeyedDistinct(d2, CohortGroups(t), Prevalence2nd);
  }

  /** Joining two frames keyed by the same distinct keys pairs their rows in order. */
  lemma {:induction false} KeyedMerge(d6: Table, d2: Table, keys: seq<seq<string>>)
    requires KeyedBy(d6, keys, Prevalence6m) && KeyedBy(d2, keys, Prevalence2nd) && Distinct(keys)
    ensures Joinable(d6, d2, CohortKey)
    ensures var m := Merge(d6, d2, CohortKey);
            && m.rows == |keys|
            && SymptomColumn in m.data && CohortColumn in m.data && Prevalence6m in m.data && Prevalence2nd in m.data
            && forall q | 0 <= q < m.rows ::
                 && m.data[SymptomColumn][q] == Text(keys[q][0]) && m.data[CohortColumn][q] == Text(keys[q][1])
                 && m.data[Prevalence6m][q] == d6.data[Prevalence6m][q]
                 && m.data[Prevalence2nd][q] == d2.data[Prevalence2nd][q]
  {
    KeyedJoinable(d6, d2, keys);
    KeyedKeys(d6, d2, keys);
    KeyedDistinct(d2, keys, Prevalence2nd);
    var pos := Range(d6.rows);
    MergeLookup(d6, d2, CohortKey, pos);
    NamesDistinct();
    assert d2.columns[2] == Prevalence2nd && Prevalence2nd !in CohortKey && Prevalence2nd in d2.data;
    assert d6.columns[2] == Prevalence6m && Prevalence6m in d6.data;
    assert SymptomColumn in d6.data && CohortColumn in d6.data;
    var m := Merge(d6, d2, CohortKey);
    forall q | 0 <= q < m.rows
      ensures && m.data[SymptomColumn][q] == Text(keys[q][0]) && m.data[CohortColumn][q] == Text(keys[q][1])
              && m.data[Prevalence6m][q] == d6.data[Prevalence6m][q]
              && m.data[Prevalence2nd][q] == d2.data[Prevalence2nd][q]
    {
      assert m.data[SymptomColumn][q] == d6.data[CohortKey[0]][q] == Text(keys[q][0]);
      assert m.data[CohortColumn][q] == d6.data[CohortKey[1]][q] == Text(keys[q][1]);
      assert m.data[Prevalence2nd][q] == d2.data[Prevalence2nd][pos[q]];
    }
  }

  /** The joined differences hold, per (symptom, cohort) group in sorted
      order, the group's key, its 6-month and its second-period difference. */
  lemma {:induction false} MergedDifferences(t: Table)
    requires Cleaned(t)
    ensures Joinable(PrevalenceDifferences(t).0, PrevalenceDifferences(t).1, CohortKey)
    ensures var m := Merge(PrevalenceDifferences(t).0, PrevalenceDifferences(t).1, CohortKey);
            var keys := CohortGroups(t);
            && m.rows == |keys|
            && SymptomColumn in m.data && CohortColumn in m.data && Prevalence6m in m.data && Prevalence2nd in m.data
            && forall q | 0 <= q < m.rows ::
                 && m.data[SymptomColumn][q] == Text(keys[q][0]) && m.data[CohortColumn][q] == Text(keys[q][1])
                 && m.data[Prevalence6m][q] == MeanDiff(Group(t, keys[q]), FirstPeriodColumn)
                 && m.data[Prevalence2nd][q] == MeanDiff(Group(t, keys[q]), SecondPeriodColumn)
  {
    GroupKeysSpec(t, CohortKey);
    KeyedMerge(DiffTable(t, Prevalence6m, FirstPeriodColumn), DiffTable(t, Prevalence2nd, SecondPeriodColumn), CohortGroups(t));
  }

  /** Joining two keyed frames whose 6-month column is numeric and adding
      the length of the second period gives what the collapsing step takes. */
  lemma {:induction false} KeyedCollapsible(d6: Table, d2: Table, keys: seq<seq<string>>)
    requires KeyedBy(d6, keys, Prevalence6m) && KeyedBy(d2, keys, Prevalence2nd) && Distinct(keys)
    requires NumericColumn(d6, Prevalence6m)
    ensures Joinable(d6, d2, CohortKey) && TextColumn(d6, CohortColumn)
    ensures Collapsible(MergePrevalenceData(d6, d2))
  {
    KeyedJoinable(d6, d2, keys);
    var m := MergePrevalenceData(d6, d2);
    assert Prevalence6mMean !in m.data by {
      var j := Merge(d6, d2, CohortKey);
      NamesDistinct();
      assert Prevalence6mMean !in d6.columns && Prevalence6mMean !in d2.columns;
      assert Prevalence6mMean !in j.data;
      assert m.data == j.data[MonthsColumn := MonthsOf(j)];
    }
    assert TextColumn(m, SymptomColumn) && NumericColumn(m, Prevalence6m)
           && CohortColumn in m.data && Prevalence2nd in m.data by {
      KeyedMerge(d6, d2, keys);
      var j := Merge(d6, d2, CohortKey);
      assert m.data[SymptomColumn] == j.data[SymptomColumn];
      assert m.data[Prevalence6m] == j.data[Prevalence6m];
      forall q | 0 <= q < m.rows ensures m.data[SymptomColumn][q].Text? {
        assert m.data[SymptomColumn][q] == Text(keys[q][0]);
      }
      forall q | 0 <= q < m.rows ensures !m.data[Prevalence6m][q].Text? {
        assert m.data[Prevalence6m][q] == d6.data[Prevalence6m][q];
      }
    }
    assert SymptomKey[0] == SymptomColumn;
  }

  /** The joined differences, with the length of the second period added,
      are what the collapsing step takes. */
  lemma {:induction false} MergedIsCollapsible(t: Table)
    requires Cleaned(t)
    ensures Joinable(PrevalenceDifferences(t).0, PrevalenceDifferences(t).1, CohortKey)
    ensures TextColumn(PrevalenceDifferences(t).0, CohortColumn)
    ensures Collapsible(MergePrevalenceData(PrevalenceDifferences(t).0, PrevalenceDifferences(t).1))
  {
    var d6 := DiffTable(t, Prevalence6m, FirstPeriodColumn);
    GroupKeysSpec(t, CohortKey);
    forall q | 0 <= q < d6.rows ensures !d6.data[Prevalence6m][q].Text? {
      var _ := MeanDiff(Group(t, CohortGroups(t)[q]), FirstPeriodColumn);
    }
    KeyedCollapsible(d6, DiffTable(t, Prevalence2nd, SecondPeriodColumn), CohortGroups(t));
  }

  // ---------------------------------------------------------------- separate_and_drop_columns

  /** The frame holds the columns `separate_and_drop_columns` reads and drops. */
  ghost predicate Separable(t: Table) {
    WellFormed(t) && forall c | c in HelperColumns :: c in t.data
  }

  /** The second-period difference on the rows whose second period lasts
      `months` months, NaN (`None`) on the others. */
  function SecondPeriodAt(t: Table, months: real): (col: seq<Cell>)
    requires WellFormed(t) && MonthsColumn in t.data && Prevalence2nd in t.data
    ensures |col| == t.rows
  {
    seq(t.rows, i requires 0 <= i < t.rows =>
      if t.data[MonthsColumn][i] == Num(months) then t.data[Prevalence2nd][i] else Missing)
  }

  /** The frame after the two column assignments of `separate_and_drop_columns`. */
  function Separated(t: Table): (s: Table)
    requires Separable(t)
    ensures Separable(s) && s.rows == t.rows
    ensures Prevalence12m in s.data && Prevalence18m in s.data
    ensures s.data[Prevalence12m] == SecondPeriodAt(t, 12.0)
    ensures s.data[Prevalence18m] == SecondPeriodAt(t, 18.0)
  {
    var t12 := WithColumn(t, Prevalence12m, SecondPeriodAt(t, 12.0));
    assert SecondPeriodAt(t12, 18.0) == SecondPeriodAt(t, 18.0);
    WithColumn(t12, Prevalence18m, SecondPeriodAt(t12, 18.0))
  }

  /** `separate_and_drop_columns`: adds the 12- and 18-month columns to the
      caller's frame in place, then returns a new frame without the helper columns. */
  method SeparateAndDropColumns(frame: DataFrame) returns (r: DataFrame)
    requires frame.Valid() && Separable(frame.Snapshot())
    modifies frame
    ensures frame.Valid() && frame.Snapshot() == Separated(old(frame.Snapshot()))
    ensures fresh(r) && r.Valid() && r.Snapshot() == Without(frame.Snapshot(), HelperColumns)
  {
    frame.Assign(Prevalence12m, SecondPeriodAt(frame.Snapshot(), 12.0));
    frame.Assign(Prevalence18m, SecondPeriodAt(frame.Snapshot(), 18.0));
    r := new DataFrame.Of(Without(frame.Snapshot(), HelperColumns));
  }

  /** The two assignments leave every other column as it was. */
  lemma SeparatedKeeps(t: Table, c: string)
    requires Separable(t) && c in t.data && c != Prevalence12m && c != Prevalence18m
    ensures c in Separated(t).data && Separated(t).data[c] == t.data[c]
  {
  }

  /** The two assignments add exactly the 12- and 18-month columns. */
  lemma SeparatedHas(t: Table, c: string)
    requires Separable(t)
    ensures c in Separated(t).data <==> c in t.data || c == Prevalence12m || c == Prevalence18m
  {
  }

  /** A row whose second period lasts 12 months carries its difference in the
      12-month column and NaN in the 18-month column, and the other way
      round for 18 months; a row with any other length gets NaN in both. */
  lemma SecondPeriodSplit(t: Table, i: nat)
    requires Separable(t) && i < t.rows
    ensures var s := Separated(t);
            var months, v := t.data[MonthsColumn][i], t.data[Prevalence2nd][i];
            && (months == Num(12.0) ==> s.data[Prevalence12m][i] == v && s.data[Prevalence18m][i] == Missing)
            && (months == Num(18.0) ==> s.data[Prevalence18m][i] == v && s.data[Prevalence12m][i] == Missing)
            && (months != Num(12.0) && months != Num(18.0) ==>
                  s.data[Prevalence12m][i] == Missing && s.data[Prevalence18m][i] == Missing)
  {
  }

  /** The returned frame carries the two new period columns. */
  lemma {:induction false} SeparatedSplit(t: Table)
    requires Separable(t)
    ensures var r := Without(Separated(t), HelperColumns);
            && Prevalence12m in r.data && Prevalence18m in r.data
            && r.data[Prevalence12m] == SecondPeriodAt(t, 12.0)
            && r.data[Prevalence18m] == SecondPeriodAt(t, 18.0)
  {
    assert Prevalence12m !in HelperColumns && Prevalence18m !in HelperColumns;
    WithoutKeeps(Separated(t), HelperColumns, Prevalence12m);
    WithoutKeeps(Separated(t), HelperColumns, Prevalence18m);
  }

  /** The returned frame has the columns of the input except the four helper
      columns, plus the two new ones; every other column is unchanged. */
  lemma {:induction false} SeparatedColumns(t: Table)
    requires Separable(t)
    ensures var r := Without(Separated(t), HelperColumns);
            && r.rows == t.rows
            && (forall c :: c in r.data <==> (c in t.data && c !in HelperColumns) || c == Prevalence12m || c == Prevalence18m)
            && (forall c | c in r.data && c != Prevalence12m && c != Prevalence18m :: r.data[c] == t.data[c])
  {
    var s := Separated(t);
    assert Prevalence12m !in HelperColumns && Prevalence18m !in HelperColumns;
    forall c ensures c in Without(s, HelperColumns).data <==> (c in t.data && c !in HelperColumns) || c == Prevalence12m || c == Prevalence18m {
      WithoutDrops(s, HelperColumns, c);
      SeparatedHas(t, c);
    }
    forall c | c in Without(s, HelperColumns).data && c != Prevalence12m && c != Prevalence18m
      ensures Without(s, HelperColumns).data[c] == t.data[c]
    {
      WithoutDrops(s, HelperColumns, c);
      SeparatedHas(t, c);
      SeparatedKeeps(t, c);
      WithoutKeeps(s, HelperColumns, c);
    }
  }

  // ---------------------------------------------------------------- collapse_prevalence_data

  /** The merged frame as `collapse_prevalence_data` needs it. */
  ghost predicate Collapsible(t: Table) {
    && WellFormed(t) && TextColumn(t, SymptomColumn) && TextColumns(t, SymptomKey)
    && NumericColumn(t, Prevalence6m)
    && CohortColumn in t.data && MonthsColumn in t.data && Prevalence2nd in t.data
    && Prevalence6mMean !in t.data
  }

  /** The distinct symptoms, in sorted order, each as a one-element key. */
  function SymptomGroups(t: Table): (keys: seq<seq<string>>)
    requires WellFormed(t) && TextColumns(t, SymptomKey)
    ensures keys == GroupKeys(t, SymptomKey)
    ensures forall q | 0 <= q < |keys| :: |keys[q]| == 1
  {
    GroupKeysSpec(t, SymptomKey);
    GroupKeys(t, SymptomKey)
  }

  /** The rows of one symptom, in order. */
  function SymptomRows(t: Table, key: seq<string>): seq<nat>
    requires WellFormed(t) && TextColumns(t, SymptomKey)
  {
    GroupRows(t, SymptomKey, key, t.rows)
  }

  /** A symptom's mean 6-month difference over its cohorts. */
  function SymptomMean(t: Table, key: seq<string>): Cell
    requires Collapsible(t)
  {
    Mean(CellsAt(t, Prevalence6m, SymptomRows(t, key)))
  }

  function SymptomMeanValues(t: Table, keys: seq<seq<string>>): (ms: seq<Cell>)
    requires Collapsible(t)
    ensures |ms| == |keys| && forall q | 0 <= q < |keys| :: ms[q] == SymptomMean(t, keys[q])
  {
    seq(|keys|, q requires 0 <= q < |keys| => SymptomMean(t, keys[q]))
  }

  /** `groupby('symptom')['prevalence_diff_6m'].mean().reset_index()`, its
      mean column under the name the `_mean` suffix of the following merge
      gives it. */
  function SymptomMeans(t: Table): (m: Table)
    requires Collapsible(t)
    ensures WellFormed(m) && m.columns == SymptomKey + [Prevalence6mMean] && m.rows == |SymptomGroups(t)|
    ensures forall q | 0 <= q < m.rows :: m.data[SymptomColumn][q] == Text(SymptomGroups(t)[q][0])
    ensures forall q | 0 <= q < m.rows :: m.data[Prevalence6mMean][q] == SymptomMean(t, SymptomGroups(t)[q])
  {
    NamesDistinct();
    var keys := SymptomGroups(t);
    var m := GroupTable(SymptomKey, keys, [Prevalence6mMean], [SymptomMeanValues(t, keys)]);
    assert forall q | 0 <= q < m.rows :: m.data[SymptomKey[0]][q] == Text(keys[q][0]);
    assert forall q | 0 <= q < m.rows :: m.data[[Prevalence6mMean][0]][q] == SymptomMeanValues(t, keys)[q];
    m
  }

  /** The position of each row's symptom among the sorted symptoms. */
  lemma SymptomPositions(t: Table) returns (pos: seq<nat>)
    requires Collapsible(t)
    ensures |pos| == t.rows
    ensures forall i | 0 <= i < t.rows :: pos[i] < |SymptomGroups(t)| && SymptomGroups(t)[pos[i]] == TextKey(t, SymptomKey, i)
  {
    var keys := SymptomGroups(t);
    GroupKeysSpec(t, SymptomKey);
    assert forall i | 0 <= i < t.rows :: TextKey(t, SymptomKey, i) in keys;
    pos := seq(t.rows, i requires 0 <= i < t.rows => IndexOf(keys, TextKey(t, SymptomKey, i)));
  }

  /** The means frame has one row per symptom: its keys are distinct. */
  lemma MeansKeys(t: Table)
    requires Collapsible(t)
    ensures Joinable(t, SymptomMeans(t), SymptomKey)
    ensures forall q | 0 <= q < SymptomMeans(t).rows :: Keys(SymptomMeans(t), SymptomKey)[q] == [Text(SymptomGroups(t)[q][0])]
    ensures Distinct(Keys(SymptomMeans(t), SymptomKey))
  {
    var means := SymptomMeans(t);
    var keys := SymptomGroups(t);
    NamesDistinct();
    GroupKeysSpec(t, SymptomKey);
    var ks := Keys(means, SymptomKey);
    forall q | 0 <= q < means.rows ensures ks[q] == [Text(keys[q][0])] {
      assert ks[q][0] == means.data[SymptomKey[0]][q];
    }
    forall a, b | 0 <= a < b < |ks| ensures ks[a] != ks[b] {
      assert keys[a] != keys[b];
      assert keys[a] == [keys[a][0]] && keys[b] == [keys[b][0]];
    }
  }

  /** Each row's symptom has its row in the means frame. */
  lemma MeansRows(t: Table) returns (pos: seq<nat>)
    requires Collapsible(t)
    ensures Joinable(t, SymptomMeans(t), SymptomKey)
    ensures |pos| == t.rows
    ensures forall i | 0 <= i < t.rows ::
              && pos[i] < SymptomMeans(t).rows
              && Keys(SymptomMeans(t), SymptomKey)[pos[i]] == RowCells(t, SymptomKey, i)
              && SymptomGroups(t)[pos[i]] == TextKey(t, SymptomKey, i)
  {
    MeansKeys(t);
    pos := SymptomPositions(t);
    forall i | 0 <= i < t.rows ensures Keys(SymptomMeans(t), SymptomKey)[pos[i]] == RowCells(t, SymptomKey, i) {
      var key := TextKey(t, SymptomKey, i);
      assert Text(key[0]) == t.data[SymptomKey[0]][i];
    }
  }

  /** Joining a frame onto its own symptom means keeps its rows in order and
      gives each row its symptom's mean. */
  lemma MeansLookup(t: Table)
    requires Collapsible(t)
    ensures Joinable(t, SymptomMeans(t), SymptomKey)
    ensures var j := Merge(t, SymptomMeans(t), SymptomKey);
            && j.rows == t.rows && Prevalence6mMean in j.data
            && (forall c, i | c in t.data && 0 <= i < t.rows :: j.data[c][i] == t.data[c][i])
            && (forall i | 0 <= i < t.rows :: j.data[Prevalence6mMean][i] == SymptomMean(t, TextKey(t, SymptomKey, i)))
  {
    var means := SymptomMeans(t);
    MeansKeys(t);
    var pos := MeansRows(t);
    MergeLookup(t, means, SymptomKey, pos);
    assert means.columns[1] == Prevalence6mMean;
    assert Prevalence6mMean in Remove(means.columns, SymptomKey);
  }

  /** The merged frame joined onto its symptom means, with the mean put in
      place of each row's 6-month difference. */
  function Replaced(t: Table): (r: Table)
    requires Collapsible(t)
    ensures Separable(r) && r.rows == t.rows && Prevalence6m in r.data
    ensures forall c, i | c in t.data && c != Prevalence6m && 0 <= i < t.rows :: c in r.data && r.data[c][i] == t.data[c][i]
    ensures forall i | 0 <= i < t.rows :: r.data[Prevalence6m][i] == SymptomMean(t, TextKey(t, SymptomKey, i))
  {
    MeansLookup(t);
    var joined := Merge(t, SymptomMeans(t), SymptomKey);
    WithColumn(joined, Prevalence6m, joined.data[Prevalence6mMean])
  }

  /** Every column of the merged frame but the 6-month one survives the replacement unchanged. */
  lemma {:induction false} ReplacedKeeps(t: Table, c: string)
    requires Collapsible(t) && c in t.data && c != Prevalence6m
    ensures c in Replaced(t).data && Replaced(t).data[c] == t.data[c]
  {
    var r := Replaced(t);
    forall i | 0 <= i < t.rows ensures r.data[c][i] == t.data[c][i] {}
  }

  /** The frame `collapse_prevalence_data` finally groups: the replaced
      frame with its second period split and the helper columns dropped. */
  function Spread(t: Table): (s: Table)
    requires Collapsible(t)
    ensures WellFormed(s)
  {
    Without(Separated(Replaced(t)), HelperColumns)
  }

  /** The second-period split depends only on the months and the second-period columns. */
  lemma {:induction false} SecondPeriodAgree(t: Table, u: Table, months: real)
    requires WellFormed(t) && MonthsColumn in t.data && Prevalence2nd in t.data
    requires WellFormed(u) && MonthsColumn in u.data && Prevalence2nd in u.data && u.rows == t.rows
    requires u.data[MonthsColumn] == t.data[MonthsColumn] && u.data[Prevalence2nd] == t.data[Prevalence2nd]
    ensures SecondPeriodAt(u, months) == SecondPeriodAt(t, months)
  {
    var a, b := SecondPeriodAt(u, months), SecondPeriodAt(t, months);
    forall i | 0 <= i < t.rows ensures a[i] == b[i] {}
  }

  /** A column of the replaced frame that is neither helper nor period column reaches the spread frame unchanged. */
  lemma SpreadKeeps(t: Table, c: string)
    requires Collapsible(t) && c in Replaced(t).data && c !in HelperColumns
    requires c != Prevalence12m && c != Prevalence18m
    ensures c in Spread(t).data && Spread(t).data[c] == Replaced(t).data[c]
  {
    var r := Replaced(t);
    SeparatedKeeps(r, c);
    WithoutKeeps(Separated(r), HelperColumns, c);
  }

  /** The spread frame keeps the rows and the symptoms of `t`. */
  lemma {:induction false} SpreadRows(t: Table)
    requires Collapsible(t)
    ensures var s := Spread(t);
            && s.rows == t.rows && TextColumn(s, SymptomColumn) && TextColumns(s, SymptomKey)
            && s.data[SymptomColumn] == t.data[SymptomColumn]
  {
    assert Spread(t).data[SymptomColumn] == t.data[SymptomColumn] by {
      assert SymptomColumn !in HelperColumns && SymptomColumn != Prevalence12m && SymptomColumn != Prevalence18m;
      ReplacedKeeps(t, SymptomColumn);
      SpreadKeeps(t, SymptomColumn);
    }
    assert SymptomKey == [SymptomColumn];
  }

  /** Row `i` of the spread frame carries its symptom's mean as 6-month difference. */
  lemma {:induction false} SpreadMeans(t: Table)
    requires Collapsible(t)
    ensures Prevalence6m in Spread(t).data && Spread(t).rows == t.rows
    ensures forall i | 0 <= i < t.rows :: Spread(t).data[Prevalence6m][i] == SymptomMean(t, TextKey(t, SymptomKey, i))
  {
    assert Prevalence6m !in HelperColumns && Prevalence6m != Prevalence12m && Prevalence6m != Prevalence18m;
    SpreadKeeps(t, Prevalence6m);
  }

  /** The spread frame carries the second period split by its length. */
  lemma {:induction false} SpreadSplit(t: Table)
    requires Collapsible(t)
    ensures Prevalence12m in Spread(t).data && Prevalence18m in Spread(t).data
    ensures Spread(t).data[Prevalence12m] == SecondPeriodAt(t, 12.0)
    ensures Spread(t).data[Prevalence18m] == SecondPeriodAt(t, 18.0)
  {
    var r := Replaced(t);
    assert MonthsColumn != Prevalence6m && Prevalence2nd != Prevalence6m;
    ReplacedKeeps(t, MonthsColumn);
    ReplacedKeeps(t, Prevalence2nd);
    SecondPeriodAgree(t, r, 12.0);
    SecondPeriodAgree(t, r, 18.0);
    SeparatedSplit(r);
  }

  function Firsts(s: Table, keys: seq<seq<string>>, column: string): (fs: seq<Cell>)
    requires WellFormed(s) && TextColumns(s, SymptomKey) && column in s.data
    ensures |fs| == |keys|
    ensures forall q | 0 <= q < |keys| :: fs[q] == FirstValid(CellsAt(s, column, SymptomRows(s, keys[q])))
  {
    seq(|keys|, q requires 0 <= q < |keys| => FirstValid(CellsAt(s, column, SymptomRows(s, keys[q]))))
  }

  /** `groupby('symptom').agg('first' for each period column).reset_index()`. */
  function FirstBySymptom(s: Table): (c: Table)
    requires WellFormed(s) && TextColumns(s, SymptomKey) && forall p | p in PeriodColumns :: p in s.data
    ensures WellFormed(c) && c.columns == SymptomKey + PeriodColumns && c.rows == |SymptomGroups(s)|
    ensures forall q | 0 <= q < c.rows :: c.data[SymptomColumn][q] == Text(SymptomGroups(s)[q][0])
    ensures forall q | 0 <= q < c.rows ::
              c.data[Prevalence6m][q] == FirstValid(CellsAt(s, Prevalence6m, SymptomRows(s, SymptomGroups(s)[q])))
    ensures forall q | 0 <= q < c.rows ::
              c.data[Prevalence12m][q] == FirstValid(CellsAt(s, Prevalence12m, SymptomRows(s, SymptomGroups(s)[q])))
    ensures forall q | 0 <= q < c.rows ::
              c.data[Prevalence18m][q] == FirstValid(CellsAt(s, Prevalence18m, SymptomRows(s, SymptomGroups(s)[q])))
  {
    NamesDistinct();
    var keys := SymptomGroups(s);
    var aggs := [Firsts(s, keys, Prevalence6m), Firsts(s, keys, Prevalence12m), Firsts(s, keys, Prevalence18m)];
    var c := GroupTable(SymptomKey, keys, PeriodColumns, aggs);
    GroupTableAgg(SymptomKey, keys, PeriodColumns, aggs, 0);
    GroupTableAgg(SymptomKey, keys, PeriodColumns, aggs, 1);
    GroupTableAgg(SymptomKey, keys, PeriodColumns, aggs, 2);
    assert forall q | 0 <= q < c.rows :: c.data[SymptomKey[0]][q] == Text(keys[q][0]);
    c
  }

  /** What `collapse_prevalence_data` returns. */
  function Collapse(t: Table): (c: Table)
    requires Collapsible(t)
    ensures WellFormed(c) && c.columns == SymptomKey + PeriodColumns && c.rows == |SymptomGroups(t)|
    ensures TextColumn(c, SymptomColumn)
  {
    SpreadRows(t);
    SpreadMeans(t);
    SpreadSplit(t);
    SpreadGroups(t);
    assert forall p | p in PeriodColumns :: p in Spread(t).data;
    FirstBySymptom(Spread(t))
  }

  /** `collapse_prevalence_data`, step by step on a frame object. */
  method CollapsePrevalenceData(merged: Table) returns (collapsed: Table)
    requires Collapsible(merged)
    ensures collapsed == Collapse(merged)
  {
    var means := SymptomMeans(merged);
    MeansLookup(merged);
    var frame := new DataFrame.Of(Merge(merged, means, SymptomKey));
    assert Prevalence6mMean in frame.data;
    frame.Assign(Prevalence6m, frame.data[Prevalence6mMean]);
    var separated := SeparateAndDropColumns(frame);
    SpreadRows(merged);
    SpreadMeans(merged);
    SpreadSplit(merged);
    assert forall p | p in PeriodColumns :: p in separated.data;
    collapsed := FirstBySymptom(separated.Snapshot());
  }

  /** Two frames with the same symptom column form the same symptom groups. */
  lemma {:induction false} SameSymptomsSameGroups(s: Table, t: Table)
    requires WellFormed(s) && WellFormed(t) && s.rows == t.rows
    requires TextColumn(s, SymptomColumn) && TextColumn(t, SymptomColumn)
    requires TextColumns(s, SymptomKey) && TextColumns(t, SymptomKey)
    requires s.data[SymptomColumn] == t.data[SymptomColumn]
    ensures SymptomGroups(s) == SymptomGroups(t)
    ensures forall key :: SymptomRows(s, key) == SymptomRows(t, key)
  {
    forall i | 0 <= i < t.rows ensures TextKey(s, SymptomKey, i) == TextKey(t, SymptomKey, i) {
      var a, b := TextKey(s, SymptomKey, i), TextKey(t, SymptomKey, i);
      assert Text(a[0]) == s.data[SymptomColumn][i] == t.data[SymptomColumn][i] == Text(b[0]);
    }
    assert TextKeys(s, SymptomKey) == TextKeys(t, SymptomKey);
    forall key ensures SymptomRows(s, key) == SymptomRows(t, key) {
      GroupRowsAgree(s, t, SymptomKey, key, t.rows);
    }
  }

  /** The spread frame forms the same symptom groups as the merged frame. */
  lemma SpreadGroups(t: Table)
    requires Collapsible(t)
    ensures Spread(t).rows == t.rows && TextColumns(Spread(t), SymptomKey)
    ensures SymptomGroups(Spread(t)) == SymptomGroups(t)
    ensures forall key :: SymptomRows(Spread(t), key) == SymptomRows(t, key)
  {
    SpreadRows(t);
    SameSymptomsSameGroups(Spread(t), t);
  }

  /** A one-element key as the symptom it names. */
  lemma SingleKeyLt(a: seq<string>, b: seq<string>)
    requires |a| == 1 && |b| == 1 && KeyLt(a, b)
    ensures StrLt(a[0], b[0])
  {
    assert a[1..] == [] && b[1..] == [];
    assert !LexLt(a[1..], b[1..], StrLt);
  }

  /** The frame `FirstBySymptom` groups. */
  ghost predicate Groupable(s: Table) {
    WellFormed(s) && TextColumn(s, SymptomColumn) && TextColumns(s, SymptomKey)
    && forall p | p in PeriodColumns :: p in s.data
  }

  /** Grouping by symptom lists the symptoms in sorted order. */
  lemma {:induction false} FirstBySymptomSorted(s: Table, a: nat, b: nat)
    requires Groupable(s) && a < b < FirstBySymptom(s).rows
    ensures StrLt(FirstBySymptom(s).data[SymptomColumn][a].s, FirstBySymptom(s).data[SymptomColumn][b].s)
  {
    var keys := SymptomGroups(s);
    GroupKeysSpec(s, SymptomKey);
    SingleKeyLt(keys[a], keys[b]);
  }

  /** Each grouped row names a symptom of some input row. */
  lemma {:induction false} FirstBySymptomFromRow(s: Table, q: nat) returns (i: nat)
    requires Groupable(s) && q < FirstBySymptom(s).rows
    ensures i < s.rows && s.data[SymptomColumn][i] == FirstBySymptom(s).data[SymptomColumn][q]
  {
    var keys := SymptomGroups(s);
    GroupKeysSpec(s, SymptomKey);
    assert keys[q] in keys;
    i :| 0 <= i < s.rows && TextKey(s, SymptomKey, i) == keys[q];
    assert s.data[SymptomKey[0]][i] == Text(keys[q][0]);
  }

  /** Each input row's symptom has its grouped row. */
  lemma {:induction false} FirstBySymptomHasRow(s: Table, i: nat) returns (q: nat)
    requires Groupable(s) && i < s.rows
    ensures q < FirstBySymptom(s).rows && FirstBySymptom(s).data[SymptomColumn][q] == s.data[SymptomColumn][i]
  {
    var keys := SymptomGroups(s);
    GroupKeysSpec(s, SymptomKey);
    var key := TextKey(s, SymptomKey, i);
    assert key in keys;
    q :| 0 <= q < |keys| && keys[q] == key;
    assert Text(key[0]) == s.data[SymptomKey[0]][i];
  }

  /** The rows of `first()` follow the sorted symptom order. */
  lemma FirstBySymptomOrdered(s: Table)
    requires Groupable(s)
    ensures var c := FirstBySymptom(s);
            forall a, b | 0 <= a < b < c.rows :: StrLt(c.data[SymptomColumn][a].s, c.data[SymptomColumn][b].s)
  {
    var c := FirstBySymptom(s);
    forall a, b | 0 <= a < b < c.rows ensures StrLt(c.data[SymptomColumn][a].s, c.data[SymptomColumn][b].s) {
      FirstBySymptomSorted(s, a, b);
    }
  }

  /** The collapsed frame has the symptom and the three period columns, and
      one row per symptom group of the merged frame. */
  lemma {:induction false} CollapseShape(t: Table)
    requires Collapsible(t)
    ensures var c := Collapse(t);
            && c.columns == SymptomKey + PeriodColumns && c.rows == |SymptomGroups(t)|
            && (forall q | 0 <= q < c.rows :: c.data[SymptomColumn][q] == Text(SymptomGroups(t)[q][0]))
  {
    SpreadGroups(t);
  }

  /** Some row of `t` names symptom `x`. */
  ghost predicate HasSymptom(t: Table, x: string)
    requires WellFormed(t) && SymptomColumn in t.data
  {
    exists i | 0 <= i < t.rows :: t.data[SymptomColumn][i] == Text(x)
  }

  /** The collapsed frame lists its symptoms in sorted order, each once. */
  lemma {:induction false} CollapseSorted(t: Table)
    requires Collapsible(t)
    ensures var c := Collapse(t);
            forall a, b | 0 <= a < b < c.rows :: StrLt(c.data[SymptomColumn][a].s, c.data[SymptomColumn][b].s)
  {
    SpreadRows(t);
    SpreadMeans(t);
    SpreadSplit(t);
    FirstBySymptomOrdered(Spread(t));
  }

  /** The collapsed frame lists exactly the symptoms of the merged frame. */
  lemma {:induction false} CollapseOneRowPerSymptom(t: Table)
    requires Collapsible(t)
    ensures forall x :: HasSymptom(Collapse(t), x) <==> HasSymptom(t, x)
  {
    var c := Collapse(t);
    forall x ensures HasSymptom(c, x) <==> HasSymptom(t, x) {
      if q :| 0 <= q < c.rows && c.data[SymptomColumn][q] == Text(x) {
        var i := CollapseFromRow(t, q);
      }
      if i :| 0 <= i < t.rows && t.data[SymptomColumn][i] == Text(x) {
        var q := CollapseHasRow(t, i);
      }
    }
  }

  /** Each collapsed row names a symptom of some merged row. */
  lemma {:induction false} CollapseFromRow(t: Table, q: nat) returns (i: nat)
    requires Collapsible(t) && q < Collapse(t).rows
    ensures i < t.rows && t.data[SymptomColumn][i] == Collapse(t).data[SymptomColumn][q]
  {
    SpreadRows(t);
    SpreadMeans(t);
    SpreadSplit(t);
    i := FirstBySymptomFromRow(Spread(t), q);
  }

  /** Each merged row's symptom has its collapsed row. */
  lemma {:induction false} CollapseHasRow(t: Table, i: nat) returns (q: nat)
    requires Collapsible(t) && i < t.rows
    ensures q < Collapse(t).rows && Collapse(t).data[SymptomColumn][q] == t.data[SymptomColumn][i]
  {
    SpreadRows(t);
    SpreadMeans(t);
    SpreadSplit(t);
    q := FirstBySymptomHasRow(Spread(t), i);
  }

  /** Every symptom group has at least one row. */
  lemma {:induction false} SymptomRowsNonEmpty(t: Table, q: nat) returns (i: nat)
    requires Collapsible(t) && q < |SymptomGroups(t)|
    ensures i in SymptomRows(t, SymptomGroups(t)[q]) && TextKey(t, SymptomKey, i) == SymptomGroups(t)[q]
  {
    var keys := SymptomGroups(t);
    GroupKeysSpec(t, SymptomKey);
    assert keys[q] in keys;
    i :| 0 <= i < t.rows && TextKey(t, SymptomKey, i) == keys[q];
  }

  /** Each symptom's 6-month difference in the collapsed frame is the mean of
      its 6-month differences over its cohorts. */
  lemma {:induction false} CollapseMean(t: Table, q: nat)
    requires Collapsible(t) && q < |SymptomGroups(t)|
    ensures Prevalence6m in Collapse(t).data && q < Collapse(t).rows
    ensures Collapse(t).data[Prevalence6m][q] == SymptomMean(t, SymptomGroups(t)[q])
  {
    var key := SymptomGroups(t)[q];
    var s := Spread(t);
    SpreadGroups(t);
    SpreadMeans(t);
    var g := SymptomRows(t, key);
    var cs := CellsAt(s, Prevalence6m, g);
    var _ := SymptomRowsNonEmpty(t, q);
    forall k | 0 <= k < |cs| ensures cs[k] == SymptomMean(t, key) {
      assert TextKey(t, SymptomKey, g[k]) == key;
    }
    FirstValidOfConstant(cs, SymptomMean(t, key));
  }

  /** The cells of a column at the given row positions. */
  function Pick(col: seq<Cell>, idx: seq<nat>): (r: seq<Cell>)
    requires forall k | 0 <= k < |idx| :: idx[k] < |col|
    ensures |r| == |idx| && forall k | 0 <= k < |idx| :: r[k] == col[idx[k]]
  {
    seq(|idx|, k requires 0 <= k < |idx| => col[idx[k]])
  }

  /** Each symptom's 12-month (18-month) difference in the collapsed frame is
      the first valid second-period difference, in row order, among its
      cohorts whose second period lasts 12 (18) months. */
  lemma {:induction false} CollapseFirst(t: Table, q: nat)
    requires Collapsible(t) && q < |SymptomGroups(t)|
    ensures Prevalence12m in Collapse(t).data && Prevalence18m in Collapse(t).data && q < Collapse(t).rows
    ensures Collapse(t).data[Prevalence12m][q] == FirstValid(Pick(SecondPeriodAt(t, 12.0), SymptomRows(t, SymptomGroups(t)[q])))
    ensures Collapse(t).data[Prevalence18m][q] == FirstValid(Pick(SecondPeriodAt(t, 18.0), SymptomRows(t, SymptomGroups(t)[q])))
  {
    var g := SymptomRows(t, SymptomGroups(t)[q]);
    SpreadGroups(t);
    SpreadSplit(t);
    assert Collapse(t).data[Prevalence12m][q] == FirstValid(Pick(SecondPeriodAt(t, 12.0), g)) by {
      FirstOfColumn(Collapse(t), Spread(t), Prevalence12m, SecondPeriodAt(t, 12.0), g, q);
    }
    assert Collapse(t).data[Prevalence18m][q] == FirstValid(Pick(SecondPeriodAt(t, 18.0), g)) by {
      FirstOfColumn(Collapse(t), Spread(t), Prevalence18m, SecondPeriodAt(t, 18.0), g, q);
    }
  }

  /** A first valid value taken from a frame's column is the first valid value of that column's cells. */
  lemma FirstOfColumn(c: Table, s: Table, col: string, cells: seq<Cell>, g: seq<nat>, q: nat)
    requires WellFormed(s) && col in s.data && s.data[col] == cells && forall k | 0 <= k < |g| :: g[k] < s.rows
    requires col in c.data && q < |c.data[col]| && c.data[col][q] == FirstValid(CellsAt(s, col, g))
    ensures c.data[col][q] == FirstValid(Pick(cells, g))
  {
    assert CellsAt(s, col, g) == Pick(cells, g);
  }

  // ---------------------------------------------------------------- prepare_raw_data

  /** The column types the CSV reader gives the raw table: labels are strings
      or missing, percentages are numbers or missing. */
  ghost predicate RawTypes(data: Table) {
    && WellFormed(data)
    && (forall c, i | c in [SymptomColumn, CohortColumn] && c in data.data && 0 <= i < data.rows ::
          data.data[c][i].Text? || data.data[c][i] == Missing)
    && (forall c | c in [FirstPeriodColumn, SecondPeriodColumn] && c in data.data :: NumericColumn(data, c))
  }

  /** Row `k` of the cleaned table is a complete row of the raw table. */
  lemma CleanedCell(data: Table, c: string, k: nat)
    requires WellFormed(data) && CleanAndSubset(data).Ok? && c in RawColumns
    requires k < CleanAndSubset(data).value.rows
    ensures var g := CompleteRows(data, RawColumns, data.rows);
            && k < |g| && c in data.data && Complete(data, RawColumns, g[k])
            && CleanAndSubset(data).value.data[c][k] == data.data[c][g[k]] != Missing
  {
  }

  /** The cleaned symptom and cohort labels are all strings. */
  lemma CleanedText(data: Table, c: string)
    requires RawTypes(data) && CleanAndSubset(data).Ok? && c in [SymptomColumn, CohortColumn]
    ensures TextColumn(CleanAndSubset(data).value, c)
  {
    var t := CleanAndSubset(data).value;
    forall k | 0 <= k < |t.data[c]| ensures t.data[c][k].Text? {
      CleanedCell(data, c, k);
    }
  }

  /** The cleaned percentages are all numbers. */
  lemma CleanedNumeric(data: Table, c: string)
    requires RawTypes(data) && CleanAndSubset(data).Ok? && c in [FirstPeriodColumn, SecondPeriodColumn]
    ensures NumericColumn(CleanAndSubset(data).value, c)
  {
    var t := CleanAndSubset(data).value;
    forall k | 0 <= k < |t.data[c]| ensures !t.data[c][k].Text? {
      CleanedCell(data, c, k);
    }
  }

  /** Dropping the incomplete rows of a raw table leaves text labels and numeric percentages. */
  lemma CleanedTypes(data: Table)
    requires RawTypes(data) && CleanAndSubset(data).Ok?
    ensures Cleaned(CleanAndSubset(data).value)
  {
    CleanedText(data, SymptomColumn);
    CleanedText(data, CohortColumn);
    CleanedNumeric(data, FirstPeriodColumn);
    CleanedNumeric(data, SecondPeriodColumn);
  }

  /** `prepare_raw_data` after the file is read: clean, take the group
      differences, join them and collapse to one row per symptom. */
  function PrepareRawData(data: Table): (r: Result<Table>)
    requires RawTypes(data)
    ensures r.Err? <==> exists c | c in RawColumns :: c !in data.data
    ensures r.Ok? ==> WellFormed(r.value) && r.value.columns == SymptomKey + PeriodColumns
  {
    match CleanAndSubset(data)
    case Err(e) => Err(e)
    case Ok(t) =>
      CleanedTypes(data);
      MergedIsCollapsible(t);
      Ok(Collapse(MergePrevalenceData(PrevalenceDifferences(t).0, PrevalenceDifferences(t).1)))
  }

  /** The merged differences name exactly the symptoms of the cleaned table. */
  lemma {:induction false} MergedSymptoms(t: Table, x: string)
    requires Cleaned(t)
    ensures Joinable(PrevalenceDifferences(t).0, PrevalenceDifferences(t).1, CohortKey)
    ensures TextColumn(PrevalenceDifferences(t).0, CohortColumn)
    ensures Collapsible(MergePrevalenceData(PrevalenceDifferences(t).0, PrevalenceDifferences(t).1))
    ensures HasSymptom(MergePrevalenceData(PrevalenceDifferences(t).0, PrevalenceDifferences(t).1), x) <==> HasSymptom(t, x)
  {
    MergedIsCollapsible(t);
    MergedDifferences(t);
    GroupKeysSpec(t, CohortKey);
    var keys := CohortGroups(t);
    var j := Merge(PrevalenceDifferences(t).0, PrevalenceDifferences(t).1, CohortKey);
    var m := MergePrevalenceData(PrevalenceDifferences(t).0, PrevalenceDifferences(t).1);
    assert m.data[SymptomColumn] == j.data[SymptomColumn];
    if q :| 0 <= q < m.rows && m.data[SymptomColumn][q] == Text(x) {
      assert keys[q] in keys;
      var i :| 0 <= i < t.rows && TextKey(t, CohortKey, i) == keys[q];
      assert t.data[CohortKey[0]][i] == Text(keys[q][0]) == Text(x);
    }
    if i :| 0 <= i < t.rows && t.data[SymptomColumn][i] == Text(x) {
      var key := TextKey(t, CohortKey, i);
      assert key in keys;
      var q :| 0 <= q < |keys| && keys[q] == key;
      assert m.data[SymptomColumn][q] == Text(key[0]) == t.data[CohortKey[0]][i];
    }
  }

  /** The cleaned table names exactly the symptoms of the complete raw rows. */
  lemma {:induction false} CleanedSymptoms(data: Table, x: string)
    requires RawTypes(data) && CleanAndSubset(data).Ok?
    ensures Cleaned(CleanAndSubset(data).value)
    ensures HasSymptom(CleanAndSubset(data).value, x) <==>
            exists i | 0 <= i < data.rows :: Complete(data, RawColumns, i) && data.data[SymptomColumn][i] == Text(x)
  {
    CleanedTypes(data);
    var t := CleanAndSubset(data).value;
    var g := CompleteRows(data, RawColumns, data.rows);
    assert forall c | c in RawColumns :: c in data.data;
    if k :| 0 <= k < t.rows && t.data[SymptomColumn][k] == Text(x) {
      assert Complete(data, RawColumns, g[k]) && t.data[SymptomColumn][k] == data.data[SymptomColumn][g[k]];
    }
    if i :| 0 <= i < data.rows && Complete(data, RawColumns, i) && data.data[SymptomColumn][i] == Text(x) {
      assert i in g;
      var k :| 0 <= k < |g| && g[k] == i;
      assert t.data[SymptomColumn][k] == data.data[SymptomColumn][i];
    }
  }

  /** The prepared table has one row per symptom that some complete raw row names. */
  lemma {:induction false} PreparedSymptoms(data: Table, x: string)
    requires RawTypes(data) && PrepareRawData(data).Ok?
    ensures HasSymptom(PrepareRawData(data).value, x) <==>
            exists i | 0 <= i < data.rows :: Complete(data, RawColumns, i) && data.data[SymptomColumn][i] == Text(x)
  {
    var t := CleanAndSubset(data).value;
    CleanedSymptoms(data, x);
    MergedSymptoms(t, x);
    CollapseOneRowPerSymptom(MergePrevalenceData(PrevalenceDifferences(t).0, PrevalenceDifferences(t).1));
  }
}
