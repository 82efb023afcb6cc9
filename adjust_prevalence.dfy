/** The two monotonicity adjustments of the per-symptom prevalence table
    (adjust_prevalence.py).  Both work in place on a copy of the caller's
    frame; each is proved against a function on frame values, and what the
    source promises row by row is proved about that function. */
module AdjustPrevalence {
  import opened Seqs
  import opened Frames
  import opened Names

  /** The three period cells of one row. */
  datatype Periods = Periods(m6: Cell, m12: Cell, m18: Cell)

  /** A frame holding the three period columns, with numbers or NaN in them. */
  ghost predicate HasPeriods(t: Table) {
    && WellFormed(t)
    && NumericColumn(t, Prevalence6m)
    && NumericColumn(t, Prevalence12m)
    && NumericColumn(t, Prevalence18m)
  }

  function PeriodsAt(t: Table, i: nat): Periods
    requires HasPeriods(t) && i < t.rows
  {
    Periods(t.data[Prevalence6m][i], t.data[Prevalence12m][i], t.data[Prevalence18m][i])
  }

  /** No increase between two neighbouring periods that both hold a number. */
  predicate NonIncreasing(r: Periods) {
    !Gt(r.m12, r.m6) && !Gt(r.m18, r.m12)
  }

  predicate AllNumbers(r: Periods) {
    r.m6.Num? && r.m12.Num? && r.m18.Num?
  }

  // ---------------------------------------------------------------- conservative

  /** Row-wise `df[[lo, hi]].min(axis=1)`. */
  function MinColumn(t: Table, lo: string, hi: string): (col: seq<Cell>)
    requires WellFormed(t) && lo in t.data && hi in t.data
    ensures |col| == t.rows && forall i | 0 <= i < |col| :: !col[i].Text?
  {
    seq(t.rows, i requires 0 <= i < t.rows => Min2(t.data[lo][i], t.data[hi][i]))
  }

  /** `data[hi] = data[[lo, hi]].min(axis=1)`. */
  function MinStep(t: Table, hi: string, lo: string): (r: Table)
    requires WellFormed(t) && lo in t.data && hi in t.data
    ensures WellFormed(r) && r.rows == t.rows && r.columns == t.columns
    ensures forall d | NumericColumn(t, d) :: NumericColumn(r, d)
  {
    WithColumnNumeric(t, hi, MinColumn(t, lo, hi));
    WithColumn(t, hi, MinColumn(t, lo, hi))
  }

  /** The (higher, lower) pairs of `_conservative_adjustment`, in loop order. */
  const ConservativePairs := [(Prevalence18m, Prevalence12m), (Prevalence12m, Prevalence6m), (Prevalence18m, Prevalence12m)]

  ghost predicate PairsIn(t: Table, ps: seq<(string, string)>) {
    forall k | 0 <= k < |ps| :: ps[k].0 in t.data && ps[k].1 in t.data
  }

  /** The frame after the loop has run over the pairs `ps`. */
  function MinPairs(t: Table, ps: seq<(string, string)>): (r: Table)
    requires WellFormed(t) && PairsIn(t, ps)
    ensures WellFormed(r) && r.rows == t.rows && r.columns == t.columns
    ensures forall d | NumericColumn(t, d) :: NumericColumn(r, d)
  {
    if |ps| == 0 then t
    else
      var r := MinPairs(t, ps[..|ps| - 1]);
      MinStep(r, ps[|ps| - 1].0, ps[|ps| - 1].1)
  }

  /** `_conservative_adjustment` on a frame value. */
  function Conservative(t: Table): (r: Table)
    requires HasPeriods(t)
    ensures HasPeriods(r) && r.rows == t.rows && r.columns == t.columns
  {
    MinPairs(t, ConservativePairs)
  }

  /** The conservative rule on one row: 6m is kept, 12m becomes min(6m, 12m)
      and 18m becomes min(6m, 12m, 18m), minima skipping NaN. */
  function ConservativeRow(r: Periods): Periods {
    Periods(r.m6, Min2(r.m6, r.m12), Min2(Min2(r.m6, r.m12), r.m18))
  }

  lemma MinAbsorbs(x: Cell, y: Cell)
    ensures Min2(x, Min2(x, y)) == Min2(x, y)
  {
  }

  /** What the three steps of the loop leave in each row: the conservative
      rule on the period columns, every other column untouched. */
  lemma ConservativeAt(t: Table)
    requires HasPeriods(t)
    ensures forall c | c in t.data && c != Prevalence12m && c != Prevalence18m ::
              Conservative(t).data[c] == t.data[c]
    ensures forall i | 0 <= i < t.rows :: PeriodsAt(Conservative(t), i) == ConservativeRow(PeriodsAt(t, i))
  {
    var ps := ConservativePairs;
    assert ps[..1][..0] == [] && ps[..2][..1] == ps[..1] && ps[..3][..2] == ps[..2] && ps[..3] == ps;
    assert MinPairs(t, ps[..1][..0]) == t;
    var t1 := MinPairs(t, ps[..1]);
    var t2 := MinPairs(t, ps[..2]);
    assert t1 == MinStep(t, Prevalence18m, Prevalence12m);
    assert t2 == MinStep(t1, Prevalence12m, Prevalence6m);
    assert Conservative(t) == MinStep(t2, Prevalence18m, Prevalence12m);
    forall i | 0 <= i < t.rows
      ensures PeriodsAt(Conservative(t), i) == ConservativeRow(PeriodsAt(t, i))
    {
      var a, b, c := t.data[Prevalence6m][i], t.data[Prevalence12m][i], t.data[Prevalence18m][i];
      assert t1.data[Prevalence18m][i] == Min2(b, c);
      assert t2.data[Prevalence12m][i] == Min2(a, b);
    }
  }

  /** After the conservative method every row is non-increasing: 12m never
      exceeds 6m and 18m never exceeds 12m. */
  lemma ConservativeNonIncreasing(t: Table, i: nat)
    requires HasPeriods(t) && i < t.rows
    ensures NonIncreasing(PeriodsAt(Conservative(t), i))
  {
    ConservativeAt(t);
  }

  /** The conservative method never changes the 6-month column. */
  lemma ConservativeKeeps6m(t: Table)
    requires HasPeriods(t)
    ensures Conservative(t).data[Prevalence6m] == t.data[Prevalence6m]
  {
    ConservativeAt(t);
  }

  /** A row whose numbers already decrease (weakly) over time is left as it is. */
  lemma ConservativeRowFixes(r: Periods)
    requires AllNumbers(r) && !Gt(r.m12, r.m6) && !Gt(r.m18, r.m12)
    ensures ConservativeRow(r) == r
  {
  }

  /** On a frame whose rows are all non-increasing numbers the conservative
      method changes nothing. */
  lemma ConservativeUnchanged(t: Table)
    requires HasPeriods(t)
    requires forall i | 0 <= i < t.rows :: AllNumbers(PeriodsAt(t, i)) && NonIncreasing(PeriodsAt(t, i))
    ensures Conservative(t) == t
  {
    ConservativeAt(t);
    var r := Conservative(t);
    forall c | c in t.data ensures r.data[c] == t.data[c] {
      if c == Prevalence12m || c == Prevalence18m {
        forall i | 0 <= i < t.rows ensures r.data[c][i] == t.data[c][i] {
          ConservativeRowFixes(PeriodsAt(t, i));
        }
      }
    }
    assert r.data == t.data;
  }

  /** The conservative method is idempotent. */
  lemma ConservativeIdempotent(t: Table)
    requires HasPeriods(t)
    ensures HasPeriods(Conservative(t)) && Conservative(Conservative(t)) == Conservative(t)
  {
    ConservativeAt(t);
    var r := Conservative(t);
    ConservativeAt(r);
    var rr := Conservative(r);
    forall c | c in r.data ensures rr.data[c] == r.data[c] {
      if c == Prevalence12m || c == Prevalence18m {
        forall i | 0 <= i < t.rows ensures rr.data[c][i] == r.data[c][i] {
          var p := PeriodsAt(t, i);
          MinAbsorbs(p.m6, p.m12);
          MinAbsorbs(Min2(p.m6, p.m12), p.m18);
          assert PeriodsAt(rr, i) == ConservativeRow(PeriodsAt(r, i));
        }
      }
    }
    assert rr.data == r.data;
  }

  /** `_conservative_adjustment`: overwrites 18m, 12m and 18m again with
      row-wise minima, in place, and returns the same frame. */
  method ConservativeAdjustment(data: DataFrame) returns (r: DataFrame)
    requires data.Valid() && HasPeriods(data.Snapshot())
    modifies data
    ensures r == data && data.Valid() && data.Snapshot() == Conservative(old(data.Snapshot()))
  {
    ghost var t := data.Snapshot();
    var pairs := ConservativePairs;
    for k := 0 to |pairs|
      invariant data.Valid() && data.Snapshot() == MinPairs(t, pairs[..k])
    {
      var hi, lo := pairs[k].0, pairs[k].1;
      assert pairs[..k + 1][..k] == pairs[..k];
      data.Assign(hi, MinColumn(data.Snapshot(), lo, hi));
    }
    assert pairs[..|pairs|] == pairs;
    r := data;
  }

  // ---------------------------------------------------------------- moderate

  const MeanAll := "mean_all"

  /** A pair of the moderate loop: two neighbouring periods and the name of
      their helper mean column, `f'mean_{"_".join(pair)}'`. */
  datatype PeriodPair = PeriodPair(earlier: string, later: string, meanName: string)

  const Mean12m18m := "mean_prevalence_diff_12m_prevalence_diff_18m"
  const Mean6m12m := "mean_prevalence_diff_6m_prevalence_diff_12m"

  const Pair12m18m := PeriodPair(Prevalence12m, Prevalence18m, Mean12m18m)
  const Pair6m12m := PeriodPair(Prevalence6m, Prevalence12m, Mean6m12m)

  /** The pairs of `_moderate_adjustment`, in loop order. */
  const ModeratePairs := [Pair12m18m, Pair6m12m]

  predicate IsModeratePair(p: PeriodPair) {
    p == Pair12m18m || p == Pair6m12m
  }

  /** The three helper columns dropped at the end. */
  const TempColumns := [MeanAll, Mean12m18m, Mean6m12m]

  /** Row-wise `df[cs].mean(axis=1)`. */
  function MeanColumn(t: Table, cs: seq<string>): (col: seq<Cell>)
    requires WellFormed(t) && forall c | c in cs :: c in t.data
    ensures |col| == t.rows && forall i | 0 <= i < |col| :: !col[i].Text?
  {
    seq(t.rows, i requires 0 <= i < t.rows => Mean(RowCells(t, cs, i)))
  }

  /** Row-wise `df[x] >= df[y]` and `df[x] > df[y]`. */
  function GeMask(t: Table, x: string, y: string): (mask: seq<bool>)
    requires WellFormed(t) && x in t.data && y in t.data
    ensures |mask| == t.rows
  {
    seq(t.rows, i requires 0 <= i < t.rows => Ge(t.data[x][i], t.data[y][i]))
  }

  function GtMask(t: Table, x: string, y: string): (mask: seq<bool>)
    requires WellFormed(t) && x in t.data && y in t.data
    ensures |mask| == t.rows
  {
    seq(t.rows, i requires 0 <= i < t.rows => Gt(t.data[x][i], t.data[y][i]))
  }

  /** `is_non_decreasing`: 12m >= 6m and 18m >= 12m. */
  function NonDecreasingMask(t: Table): (mask: seq<bool>)
    requires HasPeriods(t)
    ensures |mask| == t.rows
  {
    seq(t.rows, i requires 0 <= i < t.rows =>
      Ge(t.data[Prevalence12m][i], t.data[Prevalence6m][i]) && Ge(t.data[Prevalence18m][i], t.data[Prevalence12m][i]))
  }

  /** A frame on which the moderate steps can run: the period columns are
      present and numeric, possibly with helper columns added. */
  ghost predicate Stage(t: Table) {
    HasPeriods(t) && NumericColumn(t, MeanAll)
  }

  /** `data['mean_all'] = data[periods].mean(axis=1)`. */
  function AddMeanAll(t: Table): (r: Table)
    requires HasPeriods(t)
    ensures Stage(r) && r.rows == t.rows
  {
    WithColumnNumeric(t, MeanAll, MeanColumn(t, PeriodColumns));
    WithColumn(t, MeanAll, MeanColumn(t, PeriodColumns))
  }

  /** `data.loc[is_non_decreasing, periods] = data['mean_all']`. */
  function FlattenNonDecreasing(t: Table): (r: Table)
    requires Stage(t)
    ensures Stage(r) && r.rows == t.rows && r.columns == t.columns
  {
    WithMaskedNumeric(t, NonDecreasingMask(t), PeriodColumns, t.data[MeanAll]);
    WithMasked(t, NonDecreasingMask(t), PeriodColumns, t.data[MeanAll])
  }

  /** `data[mean_col] = data[list(pair)].mean(axis=1)`. */
  function AddPairMean(t: Table, p: PeriodPair): (r: Table)
    requires Stage(t) && IsModeratePair(p)
    ensures Stage(r) && NumericColumn(r, p.meanName) && r.rows == t.rows && t.data.Keys <= r.data.Keys
    ensures r.columns == if p.meanName in t.data then t.columns else t.columns + [p.meanName]
  {
    var col := MeanColumn(t, [p.earlier, p.later]);
    WithColumnNumeric(t, p.meanName, col);
    WithColumn(t, p.meanName, col)
  }

  /** `data.loc[data[pair[1]] >= data[pair[0]], pair] = data[mean_col]`. */
  function FlattenPair(t: Table, p: PeriodPair): (r: Table)
    requires Stage(t) && IsModeratePair(p) && NumericColumn(t, p.meanName)
    ensures Stage(r) && r.rows == t.rows && r.columns == t.columns
  {
    var mc := p.meanName;
    WithMaskedNumeric(t, GeMask(t, p.later, p.earlier), [p.earlier, p.later], t.data[mc]);
    WithMasked(t, GeMask(t, p.later, p.earlier), [p.earlier, p.later], t.data[mc])
  }

  /** One pass of the pair loop: add the pair's mean column, then where the
      later period is at least the earlier one set both to that mean. */
  function PairStep(t: Table, p: PeriodPair): (r: Table)
    requires Stage(t) && IsModeratePair(p)
    ensures Stage(r) && r.rows == t.rows && p.meanName in r.data
    ensures t.data.Keys <= r.data.Keys
  {
    FlattenPair(AddPairMean(t, p), p)
  }

  /** The frame after the first `k` passes of the pair loop. */
  function PairLoop(s0: Table, k: nat): (r: Table)
    requires Stage(s0) && k <= |ModeratePairs|
    ensures Stage(r) && r.rows == s0.rows
  {
    if k == 0 then s0
    else if k == 1 then PairStep(s0, Pair12m18m)
    else PairStep(PairStep(s0, Pair12m18m), Pair6m12m)
  }

  /** Each pass of the pair loop applies one more pair step. */
  lemma PairLoopNext(s0: Table, k: nat)
    requires Stage(s0) && k < |ModeratePairs|
    ensures IsModeratePair(ModeratePairs[k])
    ensures PairLoop(s0, k + 1) == PairStep(PairLoop(s0, k), ModeratePairs[k])
  {
  }

  /** `data.loc[data[18m] > data[12m], periods] = data['mean_all']`. */
  function ResetIncreasing(t: Table): (r: Table)
    requires Stage(t)
    ensures Stage(r) && r.rows == t.rows && r.columns == t.columns
  {
    WithMaskedNumeric(t, GtMask(t, Prevalence18m, Prevalence12m), PeriodColumns, t.data[MeanAll]);
    WithMasked(t, GtMask(t, Prevalence18m, Prevalence12m), PeriodColumns, t.data[MeanAll])
  }

  /** The frame just before the helper columns are dropped. */
  function ModerateSteps(t: Table): (r: Table)
    requires HasPeriods(t)
    ensures Stage(r) && r.rows == t.rows
  {
    ResetIncreasing(PairLoop(FlattenNonDecreasing(AddMeanAll(t)), 2))
  }

  /** `_moderate_adjustment` on a frame value. */
  function Moderate(t: Table): (r: Table)
    requires HasPeriods(t)
    ensures WellFormed(r) && r.rows == t.rows
  {
    var s := ModerateSteps(t);
    TempNamesPresent(t);
    Without(s, TempColumns)
  }

  lemma TempNamesPresent(t: Table)
    requires HasPeriods(t)
    ensures forall c | c in TempColumns :: c in ModerateSteps(t).data
  {
    var s0 := FlattenNonDecreasing(AddMeanAll(t));
    assert Mean12m18m in PairStep(s0, Pair12m18m).data;
  }

  /** The moderate rule on one row, step by step as the code applies it;
      `m` is the row's three-period mean (`mean_all`). */
  function ModerateRow(r: Periods): Periods {
    var m := Mean([r.m6, r.m12, r.m18]);
    ResetRow(PairRow(PairRow(FlattenRow(r, m), Pair12m18m), Pair6m12m), m)
  }

  /** Where the row does not decrease, every period takes the mean `m`. */
  function FlattenRow(r: Periods, m: Cell): Periods {
    if Ge(r.m12, r.m6) && Ge(r.m18, r.m12) then Periods(m, m, m) else r
  }

  /** Where the later period of `p` is at least the earlier, both take their mean. */
  function PairRow(r: Periods, p: PeriodPair): Periods
    requires IsModeratePair(p)
  {
    if p == Pair12m18m then
      if Ge(r.m18, r.m12) then Periods(r.m6, Mean([r.m12, r.m18]), Mean([r.m12, r.m18])) else r
    else
      if Ge(r.m12, r.m6) then Periods(Mean([r.m6, r.m12]), Mean([r.m6, r.m12]), r.m18) else r
  }

  /** Where 18m still exceeds 12m, every period takes the mean `m`. */
  function ResetRow(r: Periods, m: Cell): Periods {
    if Gt(r.m18, r.m12) then Periods(m, m, m) else r
  }

  /** The helper names differ from the period names. */
  lemma TempNamesDiffer()
    ensures forall c | c in TempColumns :: c != Prevalence6m && c != Prevalence12m && c != Prevalence18m
    ensures MeanAll != Mean12m18m && MeanAll != Mean6m12m
  {
    assert MeanAll[0] != Prevalence6m[0] && Mean12m18m[0] != Prevalence6m[0];
    assert MeanAll[5] != Mean12m18m[5] && MeanAll[5] != Mean6m12m[5];
  }

  lemma AddMeanAllAt(t: Table, i: nat)
    requires HasPeriods(t) && i < t.rows
    ensures PeriodsAt(AddMeanAll(t), i) == PeriodsAt(t, i)
    ensures AddMeanAll(t).data[MeanAll][i] == Mean([t.data[Prevalence6m][i], t.data[Prevalence12m][i], t.data[Prevalence18m][i]])
  {
    TempNamesDiffer();
    assert RowCells(t, PeriodColumns, i) == [t.data[Prevalence6m][i], t.data[Prevalence12m][i], t.data[Prevalence18m][i]];
  }

  lemma FlattenAt(s: Table, i: nat)
    requires Stage(s) && i < s.rows
    ensures PeriodsAt(FlattenNonDecreasing(s), i) == FlattenRow(PeriodsAt(s, i), s.data[MeanAll][i])
    ensures FlattenNonDecreasing(s).data[MeanAll] == s.data[MeanAll]
  {
    TempNamesDiffer();
  }

  lemma PairStepAt(s: Table, p: PeriodPair, i: nat)
    requires Stage(s) && IsModeratePair(p) && i < s.rows
    ensures PeriodsAt(PairStep(s, p), i) == PairRow(PeriodsAt(s, i), p)
    ensures PairStep(s, p).data[MeanAll] == s.data[MeanAll]
  {
    TempNamesDiffer();
    var a := AddPairMean(s, p);
    assert RowCells(s, [p.earlier, p.later], i) == [s.data[p.earlier][i], s.data[p.later][i]];
    assert a.data[p.meanName][i] == Mean([s.data[p.earlier][i], s.data[p.later][i]]);
    assert PeriodsAt(a, i) == PeriodsAt(s, i);
  }

  lemma ResetAt(s: Table, i: nat)
    requires Stage(s) && i < s.rows
    ensures PeriodsAt(ResetIncreasing(s), i) == ResetRow(PeriodsAt(s, i), s.data[MeanAll][i])
  {
    TempNamesDiffer();
  }

  /** Row by row, the moderate method computes the moderate rule on the period
      columns. */
  lemma ModerateAt(t: Table, i: nat)
    requires HasPeriods(t) && i < t.rows
    ensures HasPeriods(Moderate(t))
    ensures PeriodsAt(Moderate(t), i) == ModerateRow(PeriodsAt(t, i))
  {
    ModerateStepsAt(t, i);
    TempNamesPresent(t);
    DropKeepsPeriods(ModerateSteps(t), i);
  }

  lemma ModerateStepsAt(t: Table, i: nat)
    requires HasPeriods(t) && i < t.rows
    ensures PeriodsAt(ModerateSteps(t), i) == ModerateRow(PeriodsAt(t, i))
  {
    var a := AddMeanAll(t);
    AddMeanAllAt(t, i);
    var s0 := FlattenNonDecreasing(a);
    FlattenAt(a, i);
    var s1 := PairStep(s0, Pair12m18m);
    PairStepAt(s0, Pair12m18m, i);
    var s2 := PairStep(s1, Pair6m12m);
    PairStepAt(s1, Pair6m12m, i);
    ResetAt(s2, i);
  }

  /** Dropping the helper columns keeps the period columns. */
  lemma DropKeepsPeriods(s: Table, i: nat)
    requires Stage(s) && i < s.rows && forall c | c in TempColumns :: c in s.data
    ensures HasPeriods(Without(s, TempColumns))
    ensures PeriodsAt(Without(s, TempColumns), i) == PeriodsAt(s, i)
  {
    TempNamesDiffer();
  }

  /** Every column outside the period and helper columns is kept, with its cells. */
  ghost predicate SameOutside(a: Table, b: Table) {
    forall c | c in a.data && c !in TempColumns && c !in PeriodColumns :: c in b.data && b.data[c] == a.data[c]
  }

  lemma PairStepOutside(s: Table, p: PeriodPair)
    requires Stage(s) && IsModeratePair(p)
    ensures SameOutside(s, PairStep(s, p))
    ensures Remove(PairStep(s, p).columns, TempColumns) == Remove(s.columns, TempColumns)
  {
    assert p.meanName in TempColumns;
    assert p.earlier in PeriodColumns && p.later in PeriodColumns;
    var a := AddPairMean(s, p);
    if p.meanName !in s.data {
      RemoveAppended(s.columns, p.meanName, TempColumns);
    }
  }

  /** The moderate method keeps every other column as it was, and its output
      has the input's columns, in order, less the three helper names. */
  lemma ModerateColumns(t: Table)
    requires HasPeriods(t)
    ensures Moderate(t).columns == Remove(t.columns, TempColumns)
    ensures SameOutside(t, Moderate(t))
  {
    var a := AddMeanAll(t);
    assert MeanAll in TempColumns;
    if MeanAll !in t.data {
      RemoveAppended(t.columns, MeanAll, TempColumns);
    }
    var s0 := FlattenNonDecreasing(a);
    var s1 := PairStep(s0, Pair12m18m);
    PairStepOutside(s0, Pair12m18m);
    var s2 := PairStep(s1, Pair6m12m);
    PairStepOutside(s1, Pair6m12m);
    var s3 := ResetIncreasing(s2);
    assert s3 == ModerateSteps(t);
    TempNamesPresent(t);
  }

  /** On a frame without columns of the helper names, the moderate method
      returns exactly the input's columns. */
  lemma ModerateKeepsColumns(t: Table)
    requires HasPeriods(t) && forall c | c in TempColumns :: c !in t.data
    ensures Moderate(t).columns == t.columns
  {
    ModerateColumns(t);
    RemoveNothing(t.columns, TempColumns);
  }

  lemma MeanOfTwo(x: real, y: real)
    ensures Mean([Num(x), Num(y)]) == Num((x + y) / 2.0)
  {
    var s := [Num(x), Num(y)];
    assert s[..1] == [Num(x)] && s[..1][..0] == [];
    assert NumCount(s[..1][..0]) == 0 && NumSum(s[..1][..0]) == 0.0;
    assert NumCount(s[..1]) == 1 && NumSum(s[..1]) == x;
  }

  lemma MeanOfThree(x: real, y: real, z: real)
    ensures Mean([Num(x), Num(y), Num(z)]) == Num((x + y + z) / 3.0)
  {
    var s := [Num(x), Num(y), Num(z)];
    assert s[..2] == [Num(x), Num(y)] && s[..2][..1] == [Num(x)] && s[..2][..1][..0] == [];
    assert NumCount(s[..2][..1][..0]) == 0 && NumSum(s[..2][..1][..0]) == 0.0;
    assert NumCount(s[..2][..1]) == 1 && NumSum(s[..2][..1]) == x;
    assert NumCount(s[..2]) == 2 && NumSum(s[..2]) == x + y;
  }

  /** Each numeric row leaves the moderate rule non-increasing and numeric. */
  lemma ModerateRowNonIncreasing(r: Periods)
    requires AllNumbers(r)
    ensures AllNumbers(ModerateRow(r)) && NonIncreasing(ModerateRow(r))
  {
    MeanOfThree(r.m6.x, r.m12.x, r.m18.x);
    var m := Mean([r.m6, r.m12, r.m18]);
    var s1 := FlattenRow(r, m);
    MeanOfTwo(s1.m12.x, s1.m18.x);
    var s2 := PairRow(s1, Pair12m18m);
    MeanOfTwo(s2.m6.x, s2.m12.x);
  }

  /** A row with every value present that never falls over time. */
  predicate NonDecreasing(r: Periods)
  {
    AllNumbers(r) && Ge(r.m12, r.m6) && Ge(r.m18, r.m12)
  }

  /** The row holding the mean of the three periods in each of them. */
  function Flat(r: Periods): (f: Periods)
    requires AllNumbers(r)
    ensures f.m6 == f.m12 == f.m18 && AllNumbers(f)
    ensures f.m6.x * 3.0 == r.m6.x + r.m12.x + r.m18.x
  {
    var m := Num((r.m6.x + r.m12.x + r.m18.x) / 3.0);
    Periods(m, m, m)
  }

  /** A row that does not decrease is set to its three-period mean in all periods. */
  lemma ModerateRowNonDecreasing(r: Periods)
    requires NonDecreasing(r)
    ensures ModerateRow(r) == Flat(r)
  {
    var x := (r.m6.x + r.m12.x + r.m18.x) / 3.0;
    MeanOfThree(r.m6.x, r.m12.x, r.m18.x);
    MeanOfTwo(x, x);
  }

  /** A strictly decreasing row is left as it is. */
  lemma ModerateRowDecreasing(r: Periods)
    requires Gt(r.m6, r.m12) && Gt(r.m12, r.m18)
    ensures ModerateRow(r) == r
  {
  }

  /** Under the moderate method a row with no missing value ends non-increasing. */
  lemma ModerateNonIncreasing(t: Table, i: nat)
    requires HasPeriods(t) && i < t.rows && AllNumbers(PeriodsAt(t, i))
    ensures HasPeriods(Moderate(t))
    ensures AllNumbers(PeriodsAt(Moderate(t), i)) && NonIncreasing(PeriodsAt(Moderate(t), i))
  {
    ModerateAt(t, i);
    ModerateRowNonIncreasing(PeriodsAt(t, i));
  }

  /** Under the moderate method a non-decreasing row ends with its three-period
      mean in every period. */
  lemma ModerateFlattens(t: Table, i: nat)
    requires HasPeriods(t) && i < t.rows && NonDecreasing(PeriodsAt(t, i))
    ensures HasPeriods(Moderate(t))
    ensures PeriodsAt(Moderate(t), i) == Flat(PeriodsAt(t, i))
  {
    var r := PeriodsAt(t, i);
    ModerateAt(t, i);
    ModerateRowNonDecreasing(r);
  }

  /** The moderate method leaves a strictly decreasing row as it is. */
  lemma ModerateKeepsDecreasing(t: Table, i: nat)
    requires HasPeriods(t) && i < t.rows
    requires Gt(PeriodsAt(t, i).m6, PeriodsAt(t, i).m12) && Gt(PeriodsAt(t, i).m12, PeriodsAt(t, i).m18)
    ensures HasPeriods(Moderate(t))
    ensures PeriodsAt(Moderate(t), i) == PeriodsAt(t, i)
  {
    ModerateAt(t, i);
    ModerateRowDecreasing(PeriodsAt(t, i));
  }

  /** `_moderate_adjustment`: adds the helper means, overwrites masked cells
      in place, drops the helpers and returns the same frame. */
  method ModerateAdjustment(data: DataFrame) returns (r: DataFrame)
    requires data.Valid() && HasPeriods(data.Snapshot())
    modifies data
    ensures r == data && data.Valid() && data.Snapshot() == Moderate(old(data.Snapshot()))
  {
    ghost var t := data.Snapshot();
    data.Assign(MeanAll, MeanColumn(data.Snapshot(), PeriodColumns));
    assert data.Snapshot() == AddMeanAll(t);
    data.AssignWhere(NonDecreasingMask(data.Snapshot()), PeriodColumns, data.data[MeanAll]);
    ghost var s0 := data.Snapshot();
    assert s0 == FlattenNonDecreasing(AddMeanAll(t));
    var pairs := ModeratePairs;
    for k := 0 to |pairs|
      invariant data.Valid() && data.Snapshot() == PairLoop(s0, k)
    {
      var p := pairs[k];
      ghost var before := data.Snapshot();
      PairLoopNext(s0, k);
      data.Assign(p.meanName, MeanColumn(data.Snapshot(), [p.earlier, p.later]));
      assert data.Snapshot() == AddPairMean(before, p);
      data.AssignWhere(GeMask(data.Snapshot(), p.later, p.earlier), [p.earlier, p.later], data.data[p.meanName]);
    }
    data.AssignWhere(GtMask(data.Snapshot(), Prevalence18m, Prevalence12m), PeriodColumns, data.data[MeanAll]);
    assert data.Snapshot() == ModerateSteps(t);
    TempNamesPresent(t);
    data.DropInPlace(TempColumns);
    r := data;
  }

  // ---------------------------------------------------------------- dispatch

  /** `adjust_prevalence_data` on a frame value: the chosen method, or the copy
      unchanged when the method is neither. */
  function Adjusted(t: Table, how: string): (r: Table)
    requires WellFormed(t) && (how == "conservative" || how == "moderate" ==> HasPeriods(t))
    ensures WellFormed(r) && r.rows == t.rows
  {
    if how == "conservative" then Conservative(t)
    else if how == "moderate" then Moderate(t)
    else t
  }

  /** Either method leaves every row without missing values non-increasing over
      time; an unknown method returns the frame as it was. */
  lemma AdjustedNonIncreasing(t: Table, how: string, i: nat)
    requires HasPeriods(t) && i < t.rows && AllNumbers(PeriodsAt(t, i))
    ensures how == "conservative" || how == "moderate" ==>
              HasPeriods(Adjusted(t, how)) && NonIncreasing(PeriodsAt(Adjusted(t, how), i))
    ensures how != "conservative" && how != "moderate" ==> Adjusted(t, how) == t
  {
    if how == "conservative" {
      ConservativeNonIncreasing(t, i);
    } else if how == "moderate" {
      ModerateNonIncreasing(t, i);
    }
  }

  /** `adjust_prevalence_data`: works on a fresh copy, so the caller's frame is
      never modified. */
  method AdjustPrevalenceData(prevalence: DataFrame, how: string) returns (adjusted: DataFrame)
    requires prevalence.Valid()
    requires how == "conservative" || how == "moderate" ==> HasPeriods(prevalence.Snapshot())
    ensures fresh(adjusted) && adjusted.Valid()
    ensures adjusted.Snapshot() == Adjusted(prevalence.Snapshot(), how)
  {
    adjusted := new DataFrame.Of(prevalence.Snapshot());
    if how == "conservative" {
      adjusted := ConservativeAdjustment(adjusted);
    } else if how == "moderate" {
      adjusted := ModerateAdjustment(adjusted);
    }
  }
}
