/** The burden stage (calculate_burden.py): joins the prevalence table with
    the DALY-weight table on the symptom, turns each period's prevalence
    difference into an extra burden, and totals the burden over the severity
    levels, each weighted by its share of cases. */
module CalculateBurden {
  import opened Seqs
  import opened Frames
  import opened Dicts
  import opened Names

  // ---------------------------------------------------------------- merge

  /** `merge_prevalence_severity`: the inner join on `symptom`.  It has, for
      every distinct symptom of the prevalence table, as many rows as the
      product of that symptom's row counts in the two tables. */
  function MergePrevalenceSeverity(prevalence: Table, severity: Table): (m: Table)
    requires Joinable(prevalence, severity, [SymptomColumn])
    ensures WellFormed(m)
    ensures m.columns == prevalence.columns + Remove(severity.columns, [SymptomColumn])
    ensures m.rows == SumProducts(Unique(Keys(prevalence, [SymptomColumn])),
                                  Keys(prevalence, [SymptomColumn]), Keys(severity, [SymptomColumn]))
  {
    MergeRowCount(prevalence, severity, [SymptomColumn]);
    Merge(prevalence, severity, [SymptomColumn])
  }

  /** The joined rows are exactly the (prevalence row, severity row) pairs
      whose symptoms are equal. */
  lemma MergeMatchesSymptoms(prevalence: Table, severity: Table, i: nat, j: nat)
    requires Joinable(prevalence, severity, [SymptomColumn])
    requires i < prevalence.rows && j < severity.rows
    ensures (i, j) in Pairs(prevalence, severity, [SymptomColumn], prevalence.rows)
            <==> prevalence.data[SymptomColumn][i] == severity.data[SymptomColumn][j]
  {
    var on := [SymptomColumn];
    var p := Pairs(prevalence, severity, on, prevalence.rows);
    if (i, j) in p {
      var k :| 0 <= k < |p| && p[k] == (i, j);
      assert RowCells(prevalence, on, i)[0] == RowCells(severity, on, j)[0];
    }
    if prevalence.data[SymptomColumn][i] == severity.data[SymptomColumn][j] {
      assert RowCells(prevalence, on, i) == RowCells(severity, on, j);
      PairsComplete(prevalence, severity, on, prevalence.rows, i, j);
    }
  }

  // ---------------------------------------------------------------- period burden

  /** One entry of `time_ranges`: the period's prevalence and burden columns
      and the months at which the period starts and ends. */
  datatype Span = Span(prevalence: string, burden: string, start: int, end: int)

  const Span6m := Span(Prevalence6m, Burden6m, 2, 8)
  const Span12m := Span(Prevalence12m, Burden12m, 8, 15)
  const Span18m := Span(Prevalence18m, Burden18m, 15, 36)

  /** The periods in the dictionary's order. */
  const TimeRanges := [Span6m, Span12m, Span18m]

  /** `(end_month - start_month) / 12`: true division. */
  function YearFraction(s: Span): real {
    (s.end - s.start) as real / 12.0
  }

  /** A frame holding the three prevalence columns and the DALY weight, with
      numbers or NaN in them. */
  ghost predicate BurdenInputs(t: Table) {
    && WellFormed(t)
    && NumericColumn(t, Prevalence6m)
    && NumericColumn(t, Prevalence12m)
    && NumericColumn(t, Prevalence18m)
    && NumericColumn(t, DalyColumn)
  }

  predicate IsSpan(s: Span) {
    s == Span6m || s == Span12m || s == Span18m
  }

  /** The burden column names differ from the columns the burden is computed from. */
  lemma BurdenNamesDiffer()
    ensures forall s | IsSpan(s) :: s.burden != Prevalence6m && s.burden != Prevalence12m
                                     && s.burden != Prevalence18m && s.burden != DalyColumn
  {
    assert Burden6m[0] != DalyColumn[0] && Burden12m[0] != DalyColumn[0] && Burden18m[0] != DalyColumn[0];
    assert Burden6m[0] != Prevalence6m[0] && Burden12m[0] != Prevalence12m[0] && Burden18m[0] != Prevalence18m[0];
  }

  /** `prevalence * daly_adjustment * proportion_of_year`, elementwise; NaN
      in either factor gives NaN. */
  function BurdenColumn(t: Table, s: Span): (col: seq<Cell>)
    requires BurdenInputs(t) && IsSpan(s)
    ensures |col| == t.rows && forall i | 0 <= i < |col| :: !col[i].Text?
  {
    seq(t.rows, i requires 0 <= i < t.rows =>
      Mul(Mul(t.data[s.prevalence][i], t.data[DalyColumn][i]), Num(YearFraction(s))))
  }

  /** `merged_data[burden_col] = ...` for one period. */
  function AddBurden(t: Table, s: Span): (r: Table)
    requires BurdenInputs(t) && IsSpan(s)
    ensures BurdenInputs(r) && r.rows == t.rows
    ensures r.data == t.data[s.burden := BurdenColumn(t, s)]
    ensures r.columns == if s.burden in t.data then t.columns else t.columns + [s.burden]
  {
    WithColumnNumeric(t, s.burden, BurdenColumn(t, s));
    WithColumn(t, s.burden, BurdenColumn(t, s))
  }

  /** Writing one burden column changes no input of another. */
  lemma AddBurdenKeepsInputs(t: Table, s: Span, s2: Span)
    requires BurdenInputs(t) && IsSpan(s) && IsSpan(s2)
    ensures BurdenColumn(AddBurden(t, s), s2) == BurdenColumn(t, s2)
  {
    BurdenNamesDiffer();
  }

  /** The frame `calculate_period_burden` leaves behind. */
  function PeriodBurden(t: Table): (r: Table)
    requires BurdenInputs(t)
    ensures BurdenInputs(r) && r.rows == t.rows
  {
    AddBurden(AddBurden(AddBurden(t, Span6m), Span12m), Span18m)
  }

  /** The frame after the first `k` periods of the loop. */
  function BurdenLoop(t: Table, k: nat): (r: Table)
    requires BurdenInputs(t) && k <= 3
    ensures BurdenInputs(r) && r.rows == t.rows
  {
    if k == 0 then t
    else if k == 1 then AddBurden(t, Span6m)
    else if k == 2 then AddBurden(AddBurden(t, Span6m), Span12m)
    else PeriodBurden(t)
  }

  /** `calculate_period_burden`: adds the three burden columns to the frame it
      is given and returns that same frame. */
  method CalculatePeriodBurden(merged: DataFrame) returns (r: DataFrame)
    requires merged.Valid() && BurdenInputs(merged.Snapshot())
    modifies merged
    ensures r == merged && merged.Valid() && merged.Snapshot() == PeriodBurden(old(merged.Snapshot()))
  {
    ghost var t := merged.Snapshot();
    var ranges := TimeRanges;
    for k := 0 to |ranges|
      invariant merged.Valid() && merged.Snapshot() == BurdenLoop(t, k)
    {
      merged.Assign(ranges[k].burden, BurdenColumn(merged.Snapshot(), ranges[k]));
    }
    r := merged;
  }

  /** `extra_burden_p = prevalence_diff_p * daly_adjustment * (end - start) / 12`,
      with the year fractions 6/12, 7/12 and 21/12. */
  lemma PeriodBurdenCells(t: Table, i: nat)
    requires BurdenInputs(t) && i < t.rows
    ensures Burden6m in PeriodBurden(t).data && Burden12m in PeriodBurden(t).data && Burden18m in PeriodBurden(t).data
    ensures PeriodBurden(t).data[Burden6m][i] == Mul(Mul(t.data[Prevalence6m][i], t.data[DalyColumn][i]), Num(6.0 / 12.0))
    ensures PeriodBurden(t).data[Burden12m][i] == Mul(Mul(t.data[Prevalence12m][i], t.data[DalyColumn][i]), Num(7.0 / 12.0))
    ensures PeriodBurden(t).data[Burden18m][i] == Mul(Mul(t.data[Prevalence18m][i], t.data[DalyColumn][i]), Num(21.0 / 12.0))
  {
    var t1 := AddBurden(t, Span6m);
    var t2 := AddBurden(t1, Span12m);
    AddBurdenKeepsInputs(t, Span6m, Span12m);
    AddBurdenKeepsInputs(t, Span6m, Span18m);
    AddBurdenKeepsInputs(t1, Span12m, Span18m);
    assert Burden6m != Burden12m && Burden6m != Burden18m && Burden12m != Burden18m;
  }

  /** `calculate_period_burden` adds exactly the three burden columns and
      leaves every other column unchanged. */
  lemma PeriodBurdenColumns(t: Table)
    requires BurdenInputs(t)
    ensures PeriodBurden(t).data.Keys == t.data.Keys + {Burden6m, Burden12m, Burden18m}
    ensures forall c | c in t.data && c != Burden6m && c != Burden12m && c != Burden18m ::
              PeriodBurden(t).data[c] == t.data[c]
  {
    var t1 := AddBurden(t, Span6m);
    var t2 := AddBurden(t1, Span12m);
    assert PeriodBurden(t).data == t.data[Burden6m := BurdenColumn(t, Span6m)][Burden12m := BurdenColumn(t1, Span12m)]
                                        [Burden18m := BurdenColumn(t2, Span18m)];
  }

  /** New burden columns go at the end, in period order. */
  lemma PeriodBurdenAppends(t: Table)
    requires BurdenInputs(t) && Burden6m !in t.data && Burden12m !in t.data && Burden18m !in t.data
    ensures PeriodBurden(t).columns == t.columns + BurdenColumns
  {
    var t1 := AddBurden(t, Span6m);
    assert t1.columns == t.columns + [Burden6m];
    assert Burden12m !in t1.data && t1.columns + [Burden12m] == t.columns + [Burden6m, Burden12m];
    var t2 := AddBurden(t1, Span12m);
    assert Burden18m !in t2.data && t2.columns + [Burden18m] == t.columns + BurdenColumns;
  }

  // ---------------------------------------------------------------- severity-adjusted total

  /** `t[t[flag] == 1][col].sum()`: the sum, skipping NaN, of `vals` over the
      rows whose flag is exactly 1. */
  function FlaggedSum(flags: seq<Cell>, vals: seq<Cell>): real
    requires |flags| == |vals|
  {
    if |flags| == 0 then 0.0
    else FlaggedSum(flags[..|flags| - 1], vals[..|vals| - 1])
         + (if IsOne(flags[|flags| - 1]) then Val(vals[|vals| - 1]) else 0.0)
  }

  /** Only the rows whose flag is 1 count towards a flagged sum. */
  lemma {:induction false} FlaggedSumOnlyFlagged(flags: seq<Cell>, a: seq<Cell>, b: seq<Cell>)
    requires |flags| == |a| == |b|
    requires forall i | 0 <= i < |flags| && IsOne(flags[i]) :: Val(a[i]) == Val(b[i])
    ensures FlaggedSum(flags, a) == FlaggedSum(flags, b)
  {
    if |flags| > 0 {
      var n := |flags| - 1;
      FlaggedSumOnlyFlagged(flags[..n], a[..n], b[..n]);
    }
  }

  /** A frame with numeric burden columns and a column for every severity of
      the proportions dictionary. */
  ghost predicate SeverityInputs(t: Table, props: Dict<string, real>) {
    && WellFormed(t) && ValidDict(props)
    && NumericColumn(t, Burden6m) && NumericColumn(t, Burden12m) && NumericColumn(t, Burden18m)
    && forall s | s in props.items :: s in t.data
  }

  /** One severity's flagged burden in `col`, weighted by its proportion. */
  function Weighted(t: Table, col: string, props: Dict<string, real>, s: string): real
    requires WellFormed(t) && col in t.data && s in t.data && s in props.items
  {
    FlaggedSum(t.data[s], t.data[col]) * props.items[s]
  }

  /** The contributions of the first `n` severities to the burden in `col`. */
  function SeverityTerms(t: Table, col: string, props: Dict<string, real>, cases: real, n: nat): real
    requires SeverityInputs(t, props) && col in t.data && n <= |props.keys|
  {
    if n == 0 then 0.0
    else
      SeverityTerms(t, col, props, cases, n - 1) + Weighted(t, col, props, props.keys[n - 1]) * cases
  }

  /** The contributions of the first `m` periods. */
  function PeriodTerms(t: Table, props: Dict<string, real>, cases: real, m: nat): real
    requires SeverityInputs(t, props) && m <= |BurdenColumns|
  {
    if m == 0 then 0.0
    else PeriodTerms(t, props, cases, m - 1) + SeverityTerms(t, BurdenColumns[m - 1], props, cases, |props.keys|)
  }

  /** The severity-adjusted total burden. */
  function SeverityAdjustedBurden(t: Table, props: Dict<string, real>, cases: real): real
    requires SeverityInputs(t, props)
  {
    PeriodTerms(t, props, cases, |BurdenColumns|)
  }

  /** `calculate_severity_adjusted_burden`: the running total over periods and,
      within a period, over the severities in the dictionary's order. */
  method CalculateSeverityAdjustedBurden(merged: Table, props: Dict<string, real>, totalCases: real)
    returns (aggregate: real)
    requires SeverityInputs(merged, props)
    ensures aggregate == SeverityAdjustedBurden(merged, props, totalCases)
  {
    aggregate := 0.0;
    var periods := BurdenColumns;
    for m := 0 to |periods|
      invariant aggregate == PeriodTerms(merged, props, totalCases, m)
    {
      var col := periods[m];
      ghost var before := aggregate;
      for j := 0 to |props.keys|
        invariant aggregate == before + SeverityTerms(merged, col, props, totalCases, j)
      {
        var severity := props.keys[j];
        var severityBurden := FlaggedSum(merged.data[severity], merged.data[col]);
        aggregate := aggregate + severityBurden * props.items[severity] * totalCases;
      }
    }
  }

  /** Two frames whose every severity-weighted flagged sum agrees give the same total. */
  lemma {:induction false} SeverityTermsAgree(t: Table, u: Table, col: string, props: Dict<string, real>, cases: real, n: nat)
    requires SeverityInputs(t, props) && SeverityInputs(u, props) && col in t.data && col in u.data && n <= |props.keys|
    requires forall j | 0 <= j < n :: Weighted(t, col, props, props.keys[j]) == Weighted(u, col, props, props.keys[j])
    ensures SeverityTerms(t, col, props, cases, n) == SeverityTerms(u, col, props, cases, n)
  {
    if n > 0 {
      SeverityTermsAgree(t, u, col, props, cases, n - 1);
    }
  }

  lemma {:induction false} PeriodTermsAgree(t: Table, u: Table, props: Dict<string, real>, cases: real, m: nat)
    requires SeverityInputs(t, props) && SeverityInputs(u, props) && m <= |BurdenColumns|
    requires forall p, j | 0 <= p < m && 0 <= j < |props.keys| ::
               Weighted(t, BurdenColumns[p], props, props.keys[j]) == Weighted(u, BurdenColumns[p], props, props.keys[j])
    ensures PeriodTerms(t, props, cases, m) == PeriodTerms(u, props, cases, m)
  {
    if m > 0 {
      PeriodTermsAgree(t, u, props, cases, m - 1);
      SeverityTermsAgree(t, u, BurdenColumns[m - 1], props, cases, |props.keys|);
    }
  }

  lemma {:induction false} SeverityTermsScale(t: Table, col: string, props: Dict<string, real>, cases: real, k: real, n: nat)
    requires SeverityInputs(t, props) && col in t.data && n <= |props.keys|
    ensures SeverityTerms(t, col, props, k * cases, n) == k * SeverityTerms(t, col, props, cases, n)
  {
    if n > 0 {
      SeverityTermsScale(t, col, props, cases, k, n - 1);
      var f := Weighted(t, col, props, props.keys[n - 1]);
      assert f * (k * cases) == k * (f * cases);
    }
  }

  lemma {:induction false} PeriodTermsScale(t: Table, props: Dict<string, real>, cases: real, k: real, m: nat)
    requires SeverityInputs(t, props) && m <= |BurdenColumns|
    ensures PeriodTerms(t, props, k * cases, m) == k * PeriodTerms(t, props, cases, m)
  {
    if m > 0 {
      PeriodTermsScale(t, props, cases, k, m - 1);
      SeverityTermsScale(t, BurdenColumns[m - 1], props, cases, k, |props.keys|);
    }
  }

  /** The total is linear in the number of cases, and zero without cases. */
  lemma SeverityAdjustedLinear(t: Table, props: Dict<string, real>, cases: real, k: real)
    requires SeverityInputs(t, props)
    ensures SeverityAdjustedBurden(t, props, k * cases) == k * SeverityAdjustedBurden(t, props, cases)
    ensures SeverityAdjustedBurden(t, props, 0.0) == 0.0
  {
    PeriodTermsScale(t, props, cases, k, |BurdenColumns|);
    PeriodTermsScale(t, props, cases, 0.0, |BurdenColumns|);
    assert 0.0 * cases == 0.0;
  }

  /** The flags of a severity whose proportion is 0 do not affect the total. */
  lemma ZeroProportionIgnored(t: Table, props: Dict<string, real>, cases: real, s: string, flags: seq<Cell>)
    requires SeverityInputs(t, props) && s in props.items && props.items[s] == 0.0
    requires s !in BurdenColumns && |flags| == t.rows
    ensures SeverityInputs(WithColumn(t, s, flags), props)
    ensures SeverityAdjustedBurden(WithColumn(t, s, flags), props, cases) == SeverityAdjustedBurden(t, props, cases)
  {
    var u := WithColumn(t, s, flags);
    assert forall c | NumericColumn(t, c) && c != s :: NumericColumn(u, c);
    PeriodTermsAgree(t, u, props, cases, |BurdenColumns|);
  }

  /** Burden values in rows that no severity of the dictionary flags with 1 do
      not affect the total. */
  lemma UnflaggedRowsIgnored(t: Table, props: Dict<string, real>, cases: real, col: string, vals: seq<Cell>)
    requires SeverityInputs(t, props) && col in BurdenColumns && col !in props.items
    requires |vals| == t.rows && forall i | 0 <= i < |vals| :: !vals[i].Text?
    requires forall i | 0 <= i < t.rows && vals[i] != t.data[col][i] :: forall s | s in props.items :: !IsOne(t.data[s][i])
    ensures SeverityInputs(WithColumn(t, col, vals), props)
    ensures SeverityAdjustedBurden(WithColumn(t, col, vals), props, cases) == SeverityAdjustedBurden(t, props, cases)
  {
    var u := WithColumn(t, col, vals);
    WithColumnNumeric(t, col, vals);
    forall p, j | 0 <= p < |BurdenColumns| && 0 <= j < |props.keys|
      ensures Weighted(t, BurdenColumns[p], props, props.keys[j]) == Weighted(u, BurdenColumns[p], props, props.keys[j])
    {
      var s := props.keys[j];
      FlaggedSumOnlyFlagged(t.data[s], t.data[BurdenColumns[p]], u.data[BurdenColumns[p]]);
    }
    PeriodTermsAgree(t, u, props, cases, |BurdenColumns|);
  }
}
