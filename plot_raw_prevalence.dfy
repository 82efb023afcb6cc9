/** The computations inside the scenario plots of plot_raw_prevalence.py: the
    burden of each symptom under one prevalence adjustment and one severity
    scenario (`calculate_weighted_burden_by_symptom`), the step path drawn for
    each symptom's prevalence, and the scan for the largest per-symptom burden
    that fixes the common axis of the burden plots. */
module PlotRawPrevalence {
  import opened Wrappers
  import opened Seqs
  import opened Frames
  import opened Dicts
  import opened Names
  import CalculateBurden

  // ---------------------------------------------------------------- burden by symptom

  /** A table the burden code can be handed: symptom names, and whichever of
      the three period-burden columns it has hold numbers or NaN. */
  ghost predicate BurdenFrame(t: Table) {
    && WellFormed(t) && TextColumn(t, SymptomColumn)
    && (Burden6m in t.data ==> NumericColumn(t, Burden6m))
    && (Burden12m in t.data ==> NumericColumn(t, Burden12m))
    && (Burden18m in t.data ==> NumericColumn(t, Burden18m))
  }

  /** The three severity flag columns are there. */
  predicate FlagsPresent(t: Table) {
    MildColumn in t.data && ModerateColumn in t.data && SevereColumn in t.data
  }

  /** The three period-burden columns are there. */
  predicate BurdensPresent(t: Table) {
    Burden6m in t.data && Burden12m in t.data && Burden18m in t.data
  }

  /** The adjusted, merged table: symptom names, the three severity flags and
      the three period-burden columns, which hold numbers or NaN. */
  ghost predicate BurdenTable(t: Table) {
    && WellFormed(t) && TextColumn(t, SymptomColumn)
    && MildColumn in t.data && ModerateColumn in t.data && SevereColumn in t.data
    && NumericColumn(t, Burden6m) && NumericColumn(t, Burden12m) && NumericColumn(t, Burden18m)
  }

  /** The key of the first `KeyError` met by the periods loop for `sev` from
      period `n` on: each step looks up the flag column `sev`, then the
      period's burden column, then the share of `sev`. */
  function PeriodMissing(t: Table, props: Dict<string, real>, sev: string, n: nat): (r: Option<string>)
    requires n <= |BurdenColumns|
    decreases |BurdenColumns| - n
    ensures r.Some? ==> (r.value == sev && (sev !in t.data || sev !in props.items))
                        || (r.value in BurdenColumns && r.value !in t.data)
  {
    if n == |BurdenColumns| then None
    else if sev !in t.data then Some(sev)
    else if BurdenColumns[n] !in t.data then Some(BurdenColumns[n])
    else if sev !in props.items then Some(sev)
    else PeriodMissing(t, props, sev, n + 1)
  }

  /** The key of the first `KeyError` met by the severities loop from severity `m` on. */
  function FirstMissing(t: Table, props: Dict<string, real>, m: nat): (r: Option<string>)
    requires m <= |SeverityColumns|
    decreases |SeverityColumns| - m
    ensures r.Some? ==> (r.value in SeverityColumns && (r.value !in t.data || r.value !in props.items))
                        || (r.value in BurdenColumns && r.value !in t.data)
  {
    if m == |SeverityColumns| then None
    else if PeriodMissing(t, props, SeverityColumns[m], 0).Some? then PeriodMissing(t, props, SeverityColumns[m], 0)
    else FirstMissing(t, props, m + 1)
  }

  /** One severity's periods loop raises nothing exactly when its flag, its
      share and the three burden columns are all there; a missing flag is
      the first thing it meets, and a missing share the first once the
      columns are there. */
  lemma PeriodMissingCases(t: Table, props: Dict<string, real>, sev: string)
    ensures PeriodMissing(t, props, sev, 0).None? <==> sev in t.data && sev in props.items && BurdensPresent(t)
    ensures sev !in t.data ==> PeriodMissing(t, props, sev, 0) == Some(sev)
    ensures sev in t.data && BurdensPresent(t) && sev !in props.items ==> PeriodMissing(t, props, sev, 0) == Some(sev)
  {
    assert PeriodMissing(t, props, sev, 3) == None;
    assert PeriodMissing(t, props, sev, 2).None? <==> sev in t.data && Burden18m in t.data && sev in props.items;
    assert PeriodMissing(t, props, sev, 1).None? <==> sev in t.data && Burden12m in t.data && Burden18m in t.data && sev in props.items;
  }

  /** The burden code raises nothing exactly when the three flags, the three
      burden columns and the three shares are all there. A missing `mild`
      flag is the first thing it meets; on a table with every column, the
      first missing share is. */
  lemma MissingKeyCases(t: Table, props: Dict<string, real>)
    ensures FirstMissing(t, props, 0).None? <==> FlagsPresent(t) && BurdensPresent(t) && HasShares(props)
    ensures MildColumn !in t.data ==> FirstMissing(t, props, 0) == Some(MildColumn)
    ensures FlagsPresent(t) && BurdensPresent(t) && !HasShares(props) ==> FirstMissing(t, props, 0) == Some(MissingShare(props))
  {
    PeriodMissingCases(t, props, MildColumn);
    PeriodMissingCases(t, props, ModerateColumn);
    PeriodMissingCases(t, props, SevereColumn);
    assert FirstMissing(t, props, 3) == None;
  }

  /** Row by row, the value of `col` where the `sev` flag is 1 and 0 elsewhere;
      NaN counts as 0, as `Series.sum` skips it. */
  function FlaggedValues(t: Table, sev: string, col: string): (vs: seq<real>)
    requires WellFormed(t) && sev in t.data && col in t.data
    ensures |vs| == t.rows
    ensures forall k | 0 <= k < t.rows :: vs[k] == if IsOne(t.data[sev][k]) then Val(t.data[col][k]) else 0.0
  {
    seq(t.rows, k requires 0 <= k < t.rows => if IsOne(t.data[sev][k]) then Val(t.data[col][k]) else 0.0)
  }

  /** `symptom_data[symptom_data[sev] == 1][col].sum()`: the sum of `col` over
      the rows of symptom `name` flagged with `sev`. */
  function SymptomPart(t: Table, name: Cell, sev: string, col: string): real
    requires WellFormed(t) && SymptomColumn in t.data && sev in t.data && col in t.data
  {
    SumWhere(t.data[SymptomColumn], FlaggedValues(t, sev, col), name)
  }

  /** The same sum over the rows of every symptom listed in `names`. */
  function GroupPart(t: Table, names: seq<Cell>, sev: string, col: string): real
    requires WellFormed(t) && SymptomColumn in t.data && sev in t.data && col in t.data
  {
    SumGroups(names, t.data[SymptomColumn], FlaggedValues(t, sev, col))
  }

  /** For the symptoms in `names` and severity `sev`, the first `n` periods'
      flagged burden, weighted by the severity's share and the case count. */
  function PeriodParts(t: Table, props: Dict<string, real>, cases: real, names: seq<Cell>, sev: string, n: nat): real
    requires BurdenFrame(t) && BurdensPresent(t) && sev in t.data && sev in props.items && n <= |BurdenColumns|
  {
    if n == 0 then 0.0
    else PeriodParts(t, props, cases, names, sev, n - 1)
         + GroupPart(t, names, sev, BurdenColumns[n - 1]) * props.items[sev] * cases
  }

  /** The contributions of the first `m` severities, each over all three periods. */
  function SeverityParts(t: Table, props: Dict<string, real>, cases: real, names: seq<Cell>, m: nat): real
    requires BurdenTable(t) && HasShares(props) && m <= |SeverityColumns|
  {
    if m == 0 then 0.0
    else SeverityParts(t, props, cases, names, m - 1)
         + PeriodParts(t, props, cases, names, SeverityColumns[m - 1], |BurdenColumns|)
  }

  /** `total_symptom_burden` of symptom `name`. */
  function SymptomBurden(t: Table, props: Dict<string, real>, cases: real, name: Cell): real
    requires BurdenTable(t) && HasShares(props)
  {
    SeverityParts(t, props, cases, [name], |SeverityColumns|)
  }

  /** The symptoms in order of first appearance. */
  function SymptomNames(t: Table): (names: seq<Cell>)
    requires WellFormed(t) && TextColumn(t, SymptomColumn)
    ensures Distinct(names) && forall x :: x in names <==> x in t.data[SymptomColumn]
    ensures |names| == 0 <==> t.rows == 0
  {
    assert t.rows > 0 ==> t.data[SymptomColumn][0] in t.data[SymptomColumn];
    Unique(t.data[SymptomColumn])
  }

  /** What `calculate_weighted_burden_by_symptom` returns: a dictionary with
      one key per distinct symptom, in order of first appearance, holding
      that symptom's burden; or the KeyError of the first flag column,
      burden column or share the loops look up and do not find, which is
      raised as soon as there is a symptom to weigh. */
  function BurdenBySymptom(t: Table, props: Dict<string, real>, cases: real): (r: Result<Dict<Cell, real>>)
    requires BurdenFrame(t)
    ensures r.Err? <==> t.rows > 0 && !(FlagsPresent(t) && BurdensPresent(t) && HasShares(props))
    ensures r.Err? ==> r.error == KeyError(FirstMissing(t, props, 0).value)
    ensures r.Ok? ==> && ValidDict(r.value) && r.value.keys == SymptomNames(t)
                      && (t.rows > 0 ==> BurdenTable(t) && HasShares(props))
                      && forall j | 0 <= j < |r.value.keys| ::
                           && BurdenTable(t) && HasShares(props)
                           && r.value.items[r.value.keys[j]] == SymptomBurden(t, props, cases, r.value.keys[j])
  {
    MissingKeyCases(t, props);
    var names := SymptomNames(t);
    if t.rows == 0 then Ok(Dict([], map[]))
    else if FirstMissing(t, props, 0).Some? then Err(KeyError(FirstMissing(t, props, 0).value))
    else Ok(Dict(names, map k | k in names :: SymptomBurden(t, props, cases, k)))
  }

  /** On a table with every column, only a missing share can fail, and the
      first missing share is the key. */
  lemma MergedBurdenBySymptom(t: Table, props: Dict<string, real>, cases: real)
    requires BurdenTable(t)
    ensures BurdenBySymptom(t, props, cases).Err? <==> t.rows > 0 && !HasShares(props)
    ensures BurdenBySymptom(t, props, cases).Err? ==> BurdenBySymptom(t, props, cases).error == KeyError(MissingShare(props))
  {
    MissingKeyCases(t, props);
  }

  /** A table with rows but no `mild` flag column (a prevalence table that was
      never merged with the severity flags) fails with `KeyError('mild')`,
      whatever the shares. */
  lemma UnmergedBurdenBySymptom(t: Table, props: Dict<string, real>, cases: real)
    requires BurdenFrame(t) && t.rows > 0 && MildColumn !in t.data
    ensures BurdenBySymptom(t, props, cases) == Err(KeyError(MildColumn))
  {
    MissingKeyCases(t, props);
  }

  /** `calculate_weighted_burden_by_symptom`: for each distinct symptom, the
      running total over the severities and, within a severity, over the
      periods. */
  method CalculateWeightedBurdenBySymptom(adjusted: Table, props: Dict<string, real>, totalCases: real)
    returns (r: Result<Dict<Cell, real>>)
    requires BurdenFrame(adjusted)
    ensures r == BurdenBySymptom(adjusted, props, totalCases)
  {
    var names := SymptomNames(adjusted);
    var burdenBySymptom: Dict<Cell, real> := Dict([], map[]);
    for i := 0 to |names|
      invariant i > 0 ==> FirstMissing(adjusted, props, 0).None? && BurdenTable(adjusted) && HasShares(props)
      invariant burdenBySymptom.keys == names[..i]
      invariant burdenBySymptom.items == map k | k in names[..i] :: SymptomBurden(adjusted, props, totalCases, k)
    {
      var total := SymptomTotal(adjusted, props, totalCases, names[i]);
      if total.Err? {
        assert adjusted.rows > 0;
        MissingKeyCases(adjusted, props);
        return Err(total.error);
      }
      assert names[..i + 1] == names[..i] + [names[i]];
      assert names[i] !in names[..i];
      burdenBySymptom := Put(burdenBySymptom, names[i], total.value);
    }
    assert names[..|names|] == names;
    MissingKeyCases(adjusted, props);
    return Ok(burdenBySymptom);
  }

  /** The inner two loops for one symptom: its total, or the KeyError of the
      first flag column, burden column or share that is missing. */
  method SymptomTotal(t: Table, props: Dict<string, real>, totalCases: real, name: Cell)
    returns (r: Result<real>)
    requires BurdenFrame(t)
    ensures r.Err? <==> FirstMissing(t, props, 0).Some?
    ensures r.Err? ==> r.error == KeyError(FirstMissing(t, props, 0).value)
    ensures r.Ok? ==> BurdenTable(t) && HasShares(props) && r.value == SymptomBurden(t, props, totalCases, name)
  {
    MissingKeyCases(t, props);
    var total := 0.0;
    var severities := SeverityColumns;
    for m := 0 to |severities|
      invariant FirstMissing(t, props, 0) == FirstMissing(t, props, m)
      invariant FirstMissing(t, props, 0).None? ==> total == SeverityParts(t, props, totalCases, [name], m)
    {
      var severity := severities[m];
      var next := AddSeverity(t, props, totalCases, name, severity, total);
      if next.Err? {
        return Err(next.error);
      }
      total := next.value;
    }
    return Ok(total);
  }

  /** The innermost loop for one symptom and one severity: adds the
      share-weighted burden of each period to the running total, or raises the
      KeyError of the flag column, burden column or share it does not find. */
  method AddSeverity(t: Table, props: Dict<string, real>, totalCases: real, name: Cell, severity: string, total: real)
    returns (r: Result<real>)
    requires BurdenFrame(t)
    ensures r.Err? <==> PeriodMissing(t, props, severity, 0).Some?
    ensures r.Err? ==> r.error == KeyError(PeriodMissing(t, props, severity, 0).value)
    ensures r.Ok? ==> && severity in t.data && severity in props.items && BurdensPresent(t)
                      && r.value == total + PeriodParts(t, props, totalCases, [name], severity, |BurdenColumns|)
  {
    PeriodMissingCases(t, props, severity);
    var periods := BurdenColumns;
    var sum := total;
    for n := 0 to |periods|
      invariant PeriodMissing(t, props, severity, 0) == PeriodMissing(t, props, severity, n)
      invariant PeriodMissing(t, props, severity, 0).None? ==> sum == total + PeriodParts(t, props, totalCases, [name], severity, n)
    {
      if severity !in t.data {
        return Err(KeyError(severity));
      }
      if periods[n] !in t.data {
        return Err(KeyError(periods[n]));
      }
      var severityBurden := SymptomPart(t, name, severity, periods[n]);
      if severity !in props.items {
        return Err(KeyError(severity));
      }
      OneGroup(t, name, severity, periods[n]);
      var severityAdjustedBurden := severityBurden * props.items[severity];
      sum := sum + severityAdjustedBurden * totalCases;
    }
    return Ok(sum);
  }

  /** Summing over the rows of a single listed symptom is summing over that symptom's rows. */
  lemma OneGroup(t: Table, name: Cell, sev: string, col: string)
    requires WellFormed(t) && SymptomColumn in t.data && sev in t.data && col in t.data
    ensures GroupPart(t, [name], sev, col) == SymptomPart(t, name, sev, col)
  {
    var vals := FlaggedValues(t, sev, col);
    assert [name][..0] == [];
    assert SumGroups([], t.data[SymptomColumn], vals) == 0.0;
  }

  /** A severity's flagged burden, added up over the three periods. */
  function AllPeriods(t: Table, names: seq<Cell>, sev: string): real
    requires BurdenTable(t) && sev in t.data
  {
    GroupPart(t, names, sev, Burden6m) + GroupPart(t, names, sev, Burden12m) + GroupPart(t, names, sev, Burden18m)
  }

  /** `cases * sum over severities of share * (flagged burden of the listed
      symptoms over the three periods)`. */
  function Closed(t: Table, props: Dict<string, real>, cases: real, names: seq<Cell>): real
    requires BurdenTable(t) && HasShares(props)
  {
    Shares(props.items[MildColumn], props.items[ModerateColumn], props.items[SevereColumn],
           AllPeriods(t, names, MildColumn), AllPeriods(t, names, ModerateColumn), AllPeriods(t, names, SevereColumn), cases)
  }

  /** `k` times the sum of three amounts weighted by their shares. */
  function Shares(u: real, v: real, w: real, a: real, b: real, c: real, k: real): real {
    k * (u * a + v * b + w * c)
  }

  /** The nine loop steps collapse to `cases * sum over severities of share *
      (flagged burden over the three periods)`. */
  lemma SeverityPartsClosed(t: Table, props: Dict<string, real>, cases: real, names: seq<Cell>)
    requires BurdenTable(t) && HasShares(props)
    ensures SeverityParts(t, props, cases, names, |SeverityColumns|) == Closed(t, props, cases, names)
  {
    var pa := PeriodParts(t, props, cases, names, MildColumn, |BurdenColumns|);
    var pb := PeriodParts(t, props, cases, names, ModerateColumn, |BurdenColumns|);
    var pc := PeriodParts(t, props, cases, names, SevereColumn, |BurdenColumns|);
    assert SeverityParts(t, props, cases, names, 1) == pa;
    assert SeverityParts(t, props, cases, names, 2) == pa + pb;
    assert SeverityParts(t, props, cases, names, 3) == pa + pb + pc;
    PeriodPartsClosed(t, props, cases, names, MildColumn);
    PeriodPartsClosed(t, props, cases, names, ModerateColumn);
    PeriodPartsClosed(t, props, cases, names, SevereColumn);
    assert pa + pb + pc
           == WeightedSum(AllPeriods(t, names, MildColumn), AllPeriods(t, names, ModerateColumn), AllPeriods(t, names, SevereColumn),
                          props.items[MildColumn], props.items[ModerateColumn], props.items[SevereColumn], cases);
    Regroup(AllPeriods(t, names, MildColumn), AllPeriods(t, names, ModerateColumn), AllPeriods(t, names, SevereColumn),
            props.items[MildColumn], props.items[ModerateColumn], props.items[SevereColumn], cases);
  }

  /** Three weighted terms, each scaled by `k`, are `k` times their weighted sum. */
  lemma Regroup(a: real, b: real, c: real, u: real, v: real, w: real, k: real)
    ensures WeightedSum(a, b, c, u, v, w, k) == Shares(u, v, w, a, b, c, k)
  {
  }

  /** Three terms with a common weight and scale factor out. */
  lemma Distribute(a: real, b: real, c: real, w: real, k: real)
    ensures a * w * k + b * w * k + c * w * k == (a + b + c) * w * k
  {
  }

  lemma PeriodPartsClosed(t: Table, props: Dict<string, real>, cases: real, names: seq<Cell>, sev: string)
    requires BurdenTable(t) && sev in t.data && sev in props.items
    ensures PeriodParts(t, props, cases, names, sev, |BurdenColumns|) == AllPeriods(t, names, sev) * props.items[sev] * cases
  {
    var a, b, c := GroupPart(t, names, sev, Burden6m), GroupPart(t, names, sev, Burden12m), GroupPart(t, names, sev, Burden18m);
    var w := props.items[sev];
    assert PeriodParts(t, props, cases, names, sev, 1) == a * w * cases;
    assert PeriodParts(t, props, cases, names, sev, 2) == a * w * cases + b * w * cases;
    assert PeriodParts(t, props, cases, names, sev, 3) == a * w * cases + b * w * cases + c * w * cases;
    Distribute(a, b, c, w, cases);
  }

  /** Each symptom's value is `total_cases * sum over severities of share *
      (sum over periods of the flagged burden of that symptom's rows)`. */
  lemma SymptomBurdenFormula(t: Table, props: Dict<string, real>, cases: real, name: Cell)
    requires BurdenTable(t) && HasShares(props)
    ensures SymptomBurden(t, props, cases, name)
            == cases * (props.items[MildColumn] * SymptomPeriods(t, name, MildColumn)
                        + props.items[ModerateColumn] * SymptomPeriods(t, name, ModerateColumn)
                        + props.items[SevereColumn] * SymptomPeriods(t, name, SevereColumn))
  {
    SeverityPartsClosed(t, props, cases, [name]);
    OneSymptomPeriods(t, name, MildColumn);
    OneSymptomPeriods(t, name, ModerateColumn);
    OneSymptomPeriods(t, name, SevereColumn);
  }

  /** A severity's flagged burden of symptom `name`, over the three periods. */
  function SymptomPeriods(t: Table, name: Cell, sev: string): real
    requires BurdenTable(t) && sev in t.data
  {
    SymptomPart(t, name, sev, Burden6m) + SymptomPart(t, name, sev, Burden12m) + SymptomPart(t, name, sev, Burden18m)
  }

  lemma OneSymptomPeriods(t: Table, name: Cell, sev: string)
    requires BurdenTable(t) && sev in t.data
    ensures AllPeriods(t, [name], sev) == SymptomPeriods(t, name, sev)
  {
    OneGroup(t, name, sev, Burden6m);
    OneGroup(t, name, sev, Burden12m);
    OneGroup(t, name, sev, Burden18m);
  }

  /** Each symptom's value is linear in the case count, and is 0 when all
      three severity shares are 0. */
  lemma SymptomBurdenLinear(t: Table, props: Dict<string, real>, cases: real, k: real, name: Cell)
    requires BurdenTable(t) && HasShares(props)
    ensures SymptomBurden(t, props, k * cases, name) == k * SymptomBurden(t, props, cases, name)
    ensures props.items[MildColumn] == props.items[ModerateColumn] == props.items[SevereColumn] == 0.0
            ==> SymptomBurden(t, props, cases, name) == 0.0
  {
    SymptomBurdenFormula(t, props, cases, name);
    SymptomBurdenFormula(t, props, k * cases, name);
    var u, v, w := props.items[MildColumn], props.items[ModerateColumn], props.items[SevereColumn];
    var a, b, c := SymptomPeriods(t, name, MildColumn), SymptomPeriods(t, name, ModerateColumn), SymptomPeriods(t, name, SevereColumn);
    Scaled(k, cases, u, v, w, a, b, c);
  }

  /** Scaling the case count scales a weighted sum; zero weights give zero. */
  lemma Scaled(k: real, cases: real, u: real, v: real, w: real, a: real, b: real, c: real)
    ensures (k * cases) * (u * a + v * b + w * c) == k * (cases * (u * a + v * b + w * c))
    ensures u == v == w == 0.0 ==> cases * (u * a + v * b + w * c) == 0.0
  {
  }

  // ---------------------------------------------------------------- the per-symptom values add up to the total

  /** The burdens of the listed symptoms, in their order. */
  function Burdens(t: Table, props: Dict<string, real>, cases: real, names: seq<Cell>): (bs: seq<real>)
    requires BurdenTable(t) && HasShares(props)
    ensures |bs| == |names| && forall j | 0 <= j < |names| :: bs[j] == SymptomBurden(t, props, cases, names[j])
  {
    seq(|names|, j requires 0 <= j < |names| => SymptomBurden(t, props, cases, names[j]))
  }

  /** The flagged sums over several symptoms split into the last one and the rest. */
  lemma {:induction false} PeriodPartsSnoc(t: Table, props: Dict<string, real>, cases: real, names: seq<Cell>, g: Cell, sev: string, n: nat)
    requires BurdenTable(t) && sev in t.data && sev in props.items && n <= |BurdenColumns|
    ensures PeriodParts(t, props, cases, names + [g], sev, n)
            == PeriodParts(t, props, cases, names, sev, n) + PeriodParts(t, props, cases, [g], sev, n)
  {
    if n > 0 {
      PeriodPartsSnoc(t, props, cases, names, g, sev, n - 1);
      var col := BurdenColumns[n - 1];
      assert (names + [g])[..|names|] == names;
      OneGroup(t, g, sev, col);
      var a, b, w := GroupPart(t, names, sev, col), GroupPart(t, [g], sev, col), props.items[sev];
      assert GroupPart(t, names + [g], sev, col) == a + b;
      assert (a + b) * w * cases == a * w * cases + b * w * cases;
    }
  }

  lemma {:induction false} SeverityPartsSnoc(t: Table, props: Dict<string, real>, cases: real, names: seq<Cell>, g: Cell, m: nat)
    requires BurdenTable(t) && HasShares(props) && m <= |SeverityColumns|
    ensures SeverityParts(t, props, cases, names + [g], m)
            == SeverityParts(t, props, cases, names, m) + SeverityParts(t, props, cases, [g], m)
  {
    if m > 0 {
      SeverityPartsSnoc(t, props, cases, names, g, m - 1);
      PeriodPartsSnoc(t, props, cases, names, g, SeverityColumns[m - 1], |BurdenColumns|);
    }
  }

  /** Adding up the symptoms' burdens one by one is weighing the rows of all of them at once. */
  lemma {:induction false} BurdensSum(t: Table, props: Dict<string, real>, cases: real, names: seq<Cell>)
    requires BurdenTable(t) && HasShares(props)
    ensures Sum(Burdens(t, props, cases, names)) == SeverityParts(t, props, cases, names, |SeverityColumns|)
  {
    if |names| == 0 {
      SeverityPartsClosed(t, props, cases, names);
    } else {
      var n := |names| - 1;
      BurdensSum(t, props, cases, names[..n]);
      assert Burdens(t, props, cases, names)[..n] == Burdens(t, props, cases, names[..n]);
      SeverityPartsSnoc(t, props, cases, names[..n], names[n], |SeverityColumns|);
      assert names[..n] + [names[n]] == names;
    }
  }

  /** A sum of flag-masked values is the flagged sum of the severity stage. */
  lemma {:induction false} MaskedSum(flags: seq<Cell>, vals: seq<Cell>, vs: seq<real>)
    requires |flags| == |vals| == |vs|
    requires forall k | 0 <= k < |vs| :: vs[k] == if IsOne(flags[k]) then Val(vals[k]) else 0.0
    ensures Sum(vs) == CalculateBurden.FlaggedSum(flags, vals)
  {
    if |vs| > 0 {
      var n := |vs| - 1;
      MaskedSum(flags[..n], vals[..n], vs[..n]);
    }
  }

  /** Over all distinct symptoms, a severity's flagged burden in `col` is its
      flagged burden over the whole table. */
  lemma AllSymptomsPart(t: Table, sev: string, col: string)
    requires BurdenTable(t) && sev in t.data && col in t.data
    ensures GroupPart(t, SymptomNames(t), sev, col) == CalculateBurden.FlaggedSum(t.data[sev], t.data[col])
  {
    SumGroupsTotal(SymptomNames(t), t.data[SymptomColumn], FlaggedValues(t, sev, col));
    MaskedSum(t.data[sev], t.data[col], FlaggedValues(t, sev, col));
  }

  /** With shares for exactly the three severities, the per-symptom burdens add
      up to the severity-adjusted total of calculate_burden.py for the same table. */
  lemma BySymptomAddsUp(t: Table, props: Dict<string, real>, cases: real)
    requires BurdenTable(t) && SeverityShares(props)
    ensures CalculateBurden.SeverityInputs(t, props)
    ensures BurdenBySymptom(t, props, cases).Ok?
    ensures Sum(Values(BurdenBySymptom(t, props, cases).value)) == CalculateBurden.SeverityAdjustedBurden(t, props, cases)
  {
    SharesAreInputs(t, props);
    var names := SymptomNames(t);
    ValuesAreBurdens(t, props, cases);
    BurdensSum(t, props, cases, names);
    var grouped := SeverityParts(t, props, cases, names, |SeverityColumns|);
    assert Sum(Values(BurdenBySymptom(t, props, cases).value)) == grouped;
    SeverityPartsClosed(t, props, cases, names);
    ThreeByThree(t, props, cases);
    assert grouped == CalculateBurden.SeverityAdjustedBurden(t, props, cases);
  }

  /** The share dictionary holds exactly the three severities, in any order. */
  ghost predicate SeverityShares(props: Dict<string, real>) {
    ValidDict(props) && |props.keys| == 3 && forall k :: k in props.keys <==> k in SeverityColumns
  }

  lemma SharesAreInputs(t: Table, props: Dict<string, real>)
    requires BurdenTable(t) && SeverityShares(props)
    ensures HasShares(props) && CalculateBurden.SeverityInputs(t, props)
  {
    assert MildColumn in SeverityColumns && ModerateColumn in SeverityColumns && SevereColumn in SeverityColumns;
    forall s | s in props.items ensures s in t.data {
      assert s in props.keys;
    }
  }

  lemma ValuesAreBurdens(t: Table, props: Dict<string, real>, cases: real)
    requires BurdenTable(t) && HasShares(props)
    ensures BurdenBySymptom(t, props, cases).Ok?
    ensures Values(BurdenBySymptom(t, props, cases).value) == Burdens(t, props, cases, SymptomNames(t))
  {
    var d := BurdenBySymptom(t, props, cases).value;
    var names := SymptomNames(t);
    assert d.keys == names;
    assert forall j | 0 <= j < |names| :: Values(d)[j] == Burdens(t, props, cases, names)[j];
  }

  /** Severity-major and period-major orders of the nine terms give the same total. */
  lemma ThreeByThree(t: Table, props: Dict<string, real>, cases: real)
    requires BurdenTable(t) && SeverityShares(props)
    requires CalculateBurden.SeverityInputs(t, props)
    ensures var names := SymptomNames(t);
            CalculateBurden.SeverityAdjustedBurden(t, props, cases) == Closed(t, props, cases, names)
  {
    var names := SymptomNames(t);
    var p6 := PeriodColumnTerms(t, props, cases, Burden6m);
    var p12 := PeriodColumnTerms(t, props, cases, Burden12m);
    var p18 := PeriodColumnTerms(t, props, cases, Burden18m);
    PeriodMajor(t, props, cases);
    ColumnTermsGrouped(t, props, cases, Burden6m);
    ColumnTermsGrouped(t, props, cases, Burden12m);
    ColumnTermsGrouped(t, props, cases, Burden18m);
    var a6, a12, a18 := GroupPart(t, names, MildColumn, Burden6m), GroupPart(t, names, MildColumn, Burden12m), GroupPart(t, names, MildColumn, Burden18m);
    var b6, b12, b18 := GroupPart(t, names, ModerateColumn, Burden6m), GroupPart(t, names, ModerateColumn, Burden12m), GroupPart(t, names, ModerateColumn, Burden18m);
    var c6, c12, c18 := GroupPart(t, names, SevereColumn, Burden6m), GroupPart(t, names, SevereColumn, Burden12m), GroupPart(t, names, SevereColumn, Burden18m);
    var u, v, w := props.items[MildColumn], props.items[ModerateColumn], props.items[SevereColumn];
    NineTerms(a6, a12, a18, b6, b12, b18, c6, c12, c18, u, v, w, cases);
    assert AllPeriods(t, names, MildColumn) == a6 + a12 + a18;
    assert AllPeriods(t, names, ModerateColumn) == b6 + b12 + b18;
    assert AllPeriods(t, names, SevereColumn) == c6 + c12 + c18;
  }

  /** The severity-adjusted total is the sum of its three period terms. */
  lemma PeriodMajor(t: Table, props: Dict<string, real>, cases: real)
    requires BurdenTable(t) && SeverityShares(props)
    requires CalculateBurden.SeverityInputs(t, props)
    ensures CalculateBurden.SeverityAdjustedBurden(t, props, cases)
            == PeriodColumnTerms(t, props, cases, Burden6m) + PeriodColumnTerms(t, props, cases, Burden12m)
               + PeriodColumnTerms(t, props, cases, Burden18m)
  {
    assert CalculateBurden.PeriodTerms(t, props, cases, 1) == PeriodColumnTerms(t, props, cases, Burden6m);
    assert CalculateBurden.PeriodTerms(t, props, cases, 2)
           == CalculateBurden.PeriodTerms(t, props, cases, 1) + PeriodColumnTerms(t, props, cases, Burden12m);
  }

  /** Period-major and severity-major orders of nine weighted terms agree. */
  lemma NineTerms(a6: real, a12: real, a18: real, b6: real, b12: real, b18: real, c6: real, c12: real, c18: real,
                  u: real, v: real, w: real, k: real)
    ensures WeightedSum(a6, b6, c6, u, v, w, k) + WeightedSum(a12, b12, c12, u, v, w, k)
            + WeightedSum(a18, b18, c18, u, v, w, k)
            == Shares(u, v, w, a6 + a12 + a18, b6 + b12 + b18, c6 + c12 + c18, k)
  {
    assert (a6 + a12 + a18) * u * k == a6 * u * k + a12 * u * k + a18 * u * k;
    assert (b6 + b12 + b18) * v * k == b6 * v * k + b12 * v * k + b18 * v * k;
    assert (c6 + c12 + c18) * w * k == c6 * w * k + c12 * w * k + c18 * w * k;
  }

  /** One period's severity terms of calculate_burden.py, in terms of the
      flagged sums over all distinct symptoms. */
  lemma ColumnTermsGrouped(t: Table, props: Dict<string, real>, cases: real, col: string)
    requires BurdenTable(t) && SeverityShares(props) && col in t.data
    requires CalculateBurden.SeverityInputs(t, props)
    ensures var names := SymptomNames(t);
            PeriodColumnTerms(t, props, cases, col)
            == WeightedSum(GroupPart(t, names, MildColumn, col), GroupPart(t, names, ModerateColumn, col),
                           GroupPart(t, names, SevereColumn, col),
                           props.items[MildColumn], props.items[ModerateColumn], props.items[SevereColumn], cases)
  {
    ColumnTerms(t, props, cases, col);
    AllSymptomsPart(t, MildColumn, col);
    AllSymptomsPart(t, ModerateColumn, col);
    AllSymptomsPart(t, SevereColumn, col);
  }

  /** Three amounts weighted by their shares, each scaled by `k`, in the order the code adds them. */
  function WeightedSum(a: real, b: real, c: real, u: real, v: real, w: real, k: real): real {
    a * u * k + b * v * k + c * w * k
  }

  /** One period's three severity terms of calculate_burden.py, in the dictionary's order. */
  function PeriodColumnTerms(t: Table, props: Dict<string, real>, cases: real, col: string): real
    requires BurdenTable(t) && SeverityShares(props) && col in t.data
    requires CalculateBurden.SeverityInputs(t, props)
  {
    CalculateBurden.SeverityTerms(t, col, props, cases, |props.keys|)
  }

  /** One period's severity terms, written out for the three severities. */
  lemma ColumnTerms(t: Table, props: Dict<string, real>, cases: real, col: string)
    requires BurdenTable(t) && SeverityShares(props) && col in t.data
    requires CalculateBurden.SeverityInputs(t, props)
    ensures PeriodColumnTerms(t, props, cases, col)
            == WeightedSum(CalculateBurden.FlaggedSum(t.data[MildColumn], t.data[col]),
                           CalculateBurden.FlaggedSum(t.data[ModerateColumn], t.data[col]),
                           CalculateBurden.FlaggedSum(t.data[SevereColumn], t.data[col]),
                           props.items[MildColumn], props.items[ModerateColumn], props.items[SevereColumn], cases)
  {
    SharesAreInputs(t, props);
    TermsInKeyOrder(t, props, cases, col);
    TermsInAnyOrder(t, props, cases, col, props.keys);
    TermsWeighted(t, props, cases, col);
  }

  /** One severity's weighted, case-scaled burden in `col` (0 for a severity without a share). */
  function SeverityTerm(t: Table, props: Dict<string, real>, cases: real, col: string, s: string): real
    requires WellFormed(t) && col in t.data
  {
    if s in t.data && s in props.items then CalculateBurden.Weighted(t, col, props, s) * cases else 0.0
  }

  /** The three severities' terms, written out with their shares. */
  lemma TermsWeighted(t: Table, props: Dict<string, real>, cases: real, col: string)
    requires BurdenTable(t) && HasShares(props) && col in t.data
    ensures SeverityTerm(t, props, cases, col, MildColumn) + SeverityTerm(t, props, cases, col, ModerateColumn)
            + SeverityTerm(t, props, cases, col, SevereColumn)
            == WeightedSum(CalculateBurden.FlaggedSum(t.data[MildColumn], t.data[col]),
                           CalculateBurden.FlaggedSum(t.data[ModerateColumn], t.data[col]),
                           CalculateBurden.FlaggedSum(t.data[SevereColumn], t.data[col]),
                           props.items[MildColumn], props.items[ModerateColumn], props.items[SevereColumn], cases)
  {
  }

  /** A period's severity terms over a three-key dictionary, in the dictionary's order. */
  lemma TermsInKeyOrder(t: Table, props: Dict<string, real>, cases: real, col: string)
    requires CalculateBurden.SeverityInputs(t, props) && |props.keys| == 3 && col in t.data
    ensures CalculateBurden.SeverityTerms(t, col, props, cases, |props.keys|)
            == SeverityTerm(t, props, cases, col, props.keys[0]) + SeverityTerm(t, props, cases, col, props.keys[1])
               + SeverityTerm(t, props, cases, col, props.keys[2])
  {
    var ks := props.keys;
    assert ks[0] in props.items && ks[1] in props.items && ks[2] in props.items;
    assert CalculateBurden.SeverityTerms(t, col, props, cases, 1) == SeverityTerm(t, props, cases, col, ks[0]);
    assert CalculateBurden.SeverityTerms(t, col, props, cases, 2)
           == CalculateBurden.SeverityTerms(t, col, props, cases, 1) + SeverityTerm(t, props, cases, col, ks[1]);
  }

  /** Adding a term per severity gives the same total in whichever order the
      three severities come. */
  lemma TermsInAnyOrder(t: Table, props: Dict<string, real>, cases: real, col: string, ks: seq<string>)
    requires WellFormed(t) && col in t.data
    requires |ks| == 3 && Distinct(ks) && forall k :: k in ks <==> k in SeverityColumns
    ensures SeverityTerm(t, props, cases, col, ks[0]) + SeverityTerm(t, props, cases, col, ks[1])
            + SeverityTerm(t, props, cases, col, ks[2])
            == SeverityTerm(t, props, cases, col, MildColumn) + SeverityTerm(t, props, cases, col, ModerateColumn)
               + SeverityTerm(t, props, cases, col, SevereColumn)
  {
    assert ks[0] in SeverityColumns && ks[1] in SeverityColumns && ks[2] in SeverityColumns;
    if ks[0] == MildColumn {
      if ks[1] == ModerateColumn { assert ks[2] == SevereColumn; } else { assert ks[2] == ModerateColumn; }
    } else if ks[0] == ModerateColumn {
      if ks[1] == MildColumn { assert ks[2] == SevereColumn; } else { assert ks[2] == MildColumn; }
    } else {
      if ks[1] == MildColumn { assert ks[2] == ModerateColumn; } else { assert ks[2] == MildColumn; }
    }
  }

  // ---------------------------------------------------------------- step path of the prevalence plot

  /** One entry of the plot's `periods_months`: the period's prevalence column
      and the months at which its plateau starts and ends. */
  datatype Plateau = Plateau(column: string, start: int, end: int)

  const PeriodsMonths := [Plateau(Prevalence6m, 2, 8), Plateau(Prevalence12m, 8, 15), Plateau(Prevalence18m, 15, 36)]

  /** A table with symptom names and the three prevalence-difference columns. */
  ghost predicate PrevalenceTable(t: Table) {
    && WellFormed(t) && TextColumn(t, SymptomColumn)
    && Prevalence6m in t.data && Prevalence12m in t.data && Prevalence18m in t.data
  }

  /** The points after the start point and the first `n` plateaus, for the
      symptom whose values are on row `row`. */
  function PathPrefix(t: Table, row: nat, n: nat): (p: (seq<int>, seq<Cell>))
    requires PrevalenceTable(t) && row < t.rows && n <= |PeriodsMonths|
    ensures |p.0| == |p.1| == 2 * n + 1
  {
    if n == 0 then ([0], [Num(0.0)])
    else
      var (xs, ys) := PathPrefix(t, row, n - 1);
      var period := PeriodsMonths[n - 1];
      var prevalence := t.data[period.column][row];
      (xs + [period.start, period.end], ys + [prevalence, prevalence])
  }

  /** The whole path of the symptom on row `row`: from 0 up to each
      prevalence, flat over each period, then back to 0 until month 48. */
  function StepPath(t: Table, row: nat): (p: (seq<int>, seq<Cell>))
    requires PrevalenceTable(t) && row < t.rows
    ensures p.0 == [0, 2, 8, 8, 15, 15, 36, 36, 48]
    ensures var p6, p12, p18 := t.data[Prevalence6m][row], t.data[Prevalence12m][row], t.data[Prevalence18m][row];
            p.1 == [Num(0.0), p6, p6, p12, p12, p18, p18, Num(0.0), Num(0.0)]
  {
    var p6, p12, p18 := t.data[Prevalence6m][row], t.data[Prevalence12m][row], t.data[Prevalence18m][row];
    assert PeriodsMonths[0].column == Prevalence6m && PeriodsMonths[1].column == Prevalence12m;
    assert PeriodsMonths[2].column == Prevalence18m;
    assert PeriodsMonths[0] == Plateau(Prevalence6m, 2, 8);
    var q0, q1, q2, q3 := PathPrefix(t, row, 0), PathPrefix(t, row, 1), PathPrefix(t, row, 2), PathPrefix(t, row, 3);
    assert q0 == ([0], [Num(0.0)]);
    assert q1 == ([0] + [2, 8], [Num(0.0)] + [p6, p6]);
    assert q2 == (q1.0 + [8, 15], q1.1 + [p12, p12]);
    assert q3 == (q2.0 + [15, 36], q2.1 + [p18, p18]);
    var (xs, ys) := PathPrefix(t, row, |PeriodsMonths|);
    (xs + [36, 48], ys + [Num(0.0), Num(0.0)])
  }

  /** The loop of `plot_symptom_prevalence` that builds one symptom's path. */
  method SymptomPath(t: Table, row: nat) returns (xValues: seq<int>, yValues: seq<Cell>)
    requires PrevalenceTable(t) && row < t.rows
    ensures (xValues, yValues) == StepPath(t, row)
  {
    xValues, yValues := [0], [Num(0.0)];
    var periods := PeriodsMonths;
    for n := 0 to |periods|
      invariant (xValues, yValues) == PathPrefix(t, row, n)
    {
      var prevalence := t.data[periods[n].column][row];
      xValues := xValues + [periods[n].start, periods[n].end];
      yValues := yValues + [prevalence, prevalence];
    }
    xValues := xValues + [36, 48];
    yValues := yValues + [Num(0.0), Num(0.0)];
  }

  /** `plot_symptom_prevalence` without the drawing: for each distinct
      symptom, in order of first appearance, the path of its first row. */
  method PrevalencePaths(t: Table) returns (paths: seq<(Cell, seq<int>, seq<Cell>)>)
    requires PrevalenceTable(t)
    ensures var names := Unique(t.data[SymptomColumn]);
            && |paths| == |names|
            && forall j | 0 <= j < |names| ::
                 var row := FirstIndex(t.data[SymptomColumn], names[j]);
                 paths[j] == (names[j], StepPath(t, row).0, StepPath(t, row).1)
  {
    var names := Unique(t.data[SymptomColumn]);
    paths := [];
    for j := 0 to |names|
      invariant |paths| == j
      invariant forall j' | 0 <= j' < j ::
                  var row := FirstIndex(t.data[SymptomColumn], names[j']);
                  paths[j'] == (names[j'], StepPath(t, row).0, StepPath(t, row).1)
    {
      var row := FirstIndex(t.data[SymptomColumn], names[j]);
      var xValues, yValues := SymptomPath(t, row);
      paths := paths + [(names[j], xValues, yValues)];
    }
  }

  /** Each plateau of the plotted path spans the same months as the period
      whose burden calculate_burden.py computes, at that period's prevalence,
      and the months never decrease along the path. */
  lemma PlateausMatchBurdenSpans(t: Table, row: nat, p: nat)
    requires PrevalenceTable(t) && row < t.rows && p < |CalculateBurden.TimeRanges|
    ensures var (xs, ys) := StepPath(t, row);
            var span := CalculateBurden.TimeRanges[p];
            && xs[2 * p + 1] == span.start && xs[2 * p + 2] == span.end
            && ys[2 * p + 1] == ys[2 * p + 2] == t.data[span.prevalence][row]
    ensures var xs := StepPath(t, row).0;
            forall a, b | 0 <= a <= b < |xs| :: xs[a] <= xs[b]
  {
    var (xs, ys) := StepPath(t, row);
    assert PeriodsMonths[p].column == CalculateBurden.TimeRanges[p].prevalence;
  }

  // ---------------------------------------------------------------- the common axis limit

  /** Python's `max(a, b)`: `a` unless `b` is larger. */
  function Max(a: real, b: real): (m: real)
    ensures m >= a && m >= b && (m == a || m == b)
  {
    if b > a then b else a
  }

  /** The message of the ValueError that `max` raises on an empty sequence. */
  const EmptyMax := "max() arg is an empty sequence"

  /** `max(vs)` on a non-empty sequence. */
  function MaxOf(vs: seq<real>): (m: real)
    requires |vs| > 0
    ensures m in vs && forall i | 0 <= i < |vs| :: vs[i] <= m
  {
    if |vs| == 1 then vs[0] else Max(MaxOf(vs[..|vs| - 1]), vs[|vs| - 1])
  }

  /** `max(burdens.values())` for one (adjustment, severity) combination: the
      values of `calculate_weighted_burden_by_symptom`, or its error. */
  function ScenarioValues(t: Table, props: Dict<string, real>, cases: real): (r: Result<seq<real>>)
    requires BurdenFrame(t)
    ensures r.Err? <==> BurdenBySymptom(t, props, cases).Err?
    ensures r.Ok? ==> r.value == Values(BurdenBySymptom(t, props, cases).value)
  {
    var burdens := BurdenBySymptom(t, props, cases);
    if burdens.Err? then Err(burdens.error) else Ok(Values(burdens.value))
  }

  /** Every combination's outcome: row `i` for adjustment `i`, column `j` for severity `j`. */
  function Grid(adjs: seq<Table>, sevs: seq<Dict<string, real>>, cases: real): (g: seq<seq<Result<seq<real>>>>)
    requires forall a | 0 <= a < |adjs| :: BurdenFrame(adjs[a])
    ensures |g| == |adjs|
    ensures forall i | 0 <= i < |adjs| :: |g[i]| == |sevs|
    ensures forall i, j | 0 <= i < |adjs| && 0 <= j < |sevs| :: g[i][j] == ScenarioValues(adjs[i], sevs[j], cases)
  {
    seq(|adjs|, i requires 0 <= i < |adjs| =>
      seq(|sevs|, j requires 0 <= j < |sevs| => ScenarioValues(adjs[i], sevs[j], cases)))
  }

  /** The running maximum after one more combination: its error, the
      ValueError that `max` raises on a dictionary without values, or the
      larger of the two. */
  function Step(acc: Result<real>, cell: Result<seq<real>>): Result<real> {
    if acc.Err? then acc
    else if cell.Err? then Err(cell.error)
    else if |cell.value| == 0 then Err(ValueError(EmptyMax))
    else Ok(Max(acc.value, MaxOf(cell.value)))
  }

  /** The inner loop over the first `j` combinations of one row. */
  function RowScan(acc: Result<real>, row: seq<Result<seq<real>>>, j: nat): Result<real>
    requires j <= |row|
  {
    if j == 0 then acc else Step(RowScan(acc, row, j - 1), row[j - 1])
  }

  /** The outer loop over the first `i` rows, starting at 0. */
  function GridScan(grid: seq<seq<Result<seq<real>>>>, i: nat): Result<real>
    requires i <= |grid|
  {
    if i == 0 then Ok(0.0) else RowScan(GridScan(grid, i - 1), grid[i - 1], |grid[i - 1]|)
  }

  /** The `max_burden` loop of `plot_symptom_burden_by_scenarios`; the
      scenario dictionaries are given by their values, in insertion order. */
  method MaxBurden(adjs: seq<Table>, sevs: seq<Dict<string, real>>, totalCases: real) returns (r: Result<real>)
    requires forall a | 0 <= a < |adjs| :: BurdenFrame(adjs[a])
    ensures r == GridScan(Grid(adjs, sevs, totalCases), |adjs|)
  {
    ghost var grid := Grid(adjs, sevs, totalCases);
    var maxBurden := 0.0;
    for i := 0 to |adjs|
      invariant GridScan(grid, i) == Ok(maxBurden)
    {
      var step := SeverityScenariosMax(adjs[i], sevs, totalCases, maxBurden, grid[i]);
      if step.Err? {
        GridScanStays(grid, i + 1, |grid|);
        return step;
      }
      maxBurden := step.value;
    }
    return Ok(maxBurden);
  }

  /** The inner loop: the running maximum over the severity scenarios for one
      adjusted table, from `start`. */
  method SeverityScenariosMax(t: Table, sevs: seq<Dict<string, real>>, totalCases: real, start: real,
                              ghost row: seq<Result<seq<real>>>)
    returns (r: Result<real>)
    requires BurdenFrame(t) && |row| == |sevs|
    requires forall j | 0 <= j < |sevs| :: row[j] == ScenarioValues(t, sevs[j], totalCases)
    ensures r == RowScan(Ok(start), row, |row|)
  {
    var maxBurden := start;
    for j := 0 to |sevs|
      invariant RowScan(Ok(start), row, j) == Ok(maxBurden)
    {
      var step := Advance(t, sevs[j], totalCases, maxBurden, row[j]);
      RowScanNext(Ok(start), row, j);
      if step.Err? {
        RowScanStays(Ok(start), row, j + 1, |row|);
        return step;
      }
      maxBurden := step.value;
    }
    return Ok(maxBurden);
  }

  /** One step of the inner loop from the running maximum `acc`. */
  method Advance(t: Table, props: Dict<string, real>, totalCases: real, acc: real, ghost cell: Result<seq<real>>)
    returns (r: Result<real>)
    requires BurdenFrame(t) && cell == ScenarioValues(t, props, totalCases)
    ensures r == Step(Ok(acc), cell)
  {
    var burdens := BurdenValues(t, props, totalCases);
    if burdens.Err? {
      return Err(burdens.error);
    }
    var values := burdens.value;
    if |values| == 0 {
      return Err(ValueError(EmptyMax));
    }
    return Ok(Max(acc, MaxOf(values)));
  }

  /** `burdens.values()` of one combination, or the error that computing `burdens` raised. */
  method BurdenValues(t: Table, props: Dict<string, real>, totalCases: real) returns (r: Result<seq<real>>)
    requires BurdenFrame(t)
    ensures r == ScenarioValues(t, props, totalCases)
  {
    var burdens := CalculateWeightedBurdenBySymptom(t, props, totalCases);
    if burdens.Err? {
      return Err(burdens.error);
    }
    return Ok(Values(burdens.value));
  }

  /** One more combination is one more step. */
  lemma RowScanNext(acc: Result<real>, row: seq<Result<seq<real>>>, j: nat)
    requires j < |row|
    ensures RowScan(acc, row, j + 1) == Step(RowScan(acc, row, j), row[j])
  {
  }

  /** Once a step fails, the scan ends with that failure. */
  lemma {:induction false} RowScanOfErr(acc: Result<real>, row: seq<Result<seq<real>>>, j: nat)
    requires j <= |row| && acc.Err?
    ensures RowScan(acc, row, j) == acc
  {
    if j > 0 {
      RowScanOfErr(acc, row, j - 1);
    }
  }

  lemma {:induction false} RowScanStays(acc: Result<real>, row: seq<Result<seq<real>>>, j: nat, k: nat)
    requires j <= k <= |row| && RowScan(acc, row, j).Err?
    ensures RowScan(acc, row, k) == RowScan(acc, row, j)
  {
    if k > j {
      RowScanStays(acc, row, j, k - 1);
    }
  }

  lemma {:induction false} GridScanStays(grid: seq<seq<Result<seq<real>>>>, i: nat, k: nat)
    requires i <= k <= |grid| && GridScan(grid, i).Err?
    ensures GridScan(grid, k) == GridScan(grid, i)
  {
    if k > i {
      GridScanStays(grid, i, k - 1);
      RowScanOfErr(GridScan(grid, k - 1), grid[k - 1], |grid[k - 1]|);
    }
  }

  /** A combination that lets the scan go on: its burdens were computed and there is at least one. */
  predicate Usable(cell: Result<seq<real>>) {
    cell.Ok? && |cell.value| > 0
  }

  /** From a running maximum `a`, the inner scan succeeds exactly when every
      combination is usable; it then ends at a value no smaller than `a` or
      any burden seen, and equal to `a` or to one of those burdens. */
  lemma {:induction false} RowScanSpec(a: real, row: seq<Result<seq<real>>>, j: nat)
    requires j <= |row|
    ensures RowScan(Ok(a), row, j).Ok? <==> forall j' | 0 <= j' < j :: Usable(row[j'])
    ensures RowScan(Ok(a), row, j).Err? ==> exists j' | 0 <= j' < j :: !Usable(row[j'])
    ensures var r := RowScan(Ok(a), row, j);
            r.Ok? ==> && r.value >= a
                      && (forall j', k | 0 <= j' < j && 0 <= k < |row[j'].value| :: row[j'].value[k] <= r.value)
                      && (r.value == a || exists j', k | 0 <= j' < j && 0 <= k < |row[j'].value| :: row[j'].value[k] == r.value)
  {
    if j > 0 {
      RowScanSpec(a, row, j - 1);
      var prev := RowScan(Ok(a), row, j - 1);
      if prev.Err? {
        RowScanOfErr(prev, row, 0);
      } else if Usable(row[j - 1]) {
        var vs := row[j - 1].value;
        var top := MaxOf(vs);
        var k :| 0 <= k < |vs| && vs[k] == top;
        assert RowScan(Ok(a), row, j) == Ok(Max(prev.value, top));
      }
    }
  }

  /** The whole scan succeeds exactly when every combination is usable; it then
      ends at a value that is at least 0 and at least every burden, and is 0 or one of them. */
  lemma {:induction false} GridScanSpec(grid: seq<seq<Result<seq<real>>>>, i: nat)
    requires i <= |grid|
    ensures GridScan(grid, i).Ok? <==> forall i', j | 0 <= i' < i && 0 <= j < |grid[i']| :: Usable(grid[i'][j])
    ensures var r := GridScan(grid, i);
            r.Ok? ==> && r.value >= 0.0
                      && (forall i', j, k | 0 <= i' < i && 0 <= j < |grid[i']| && 0 <= k < |grid[i'][j].value| ::
                            grid[i'][j].value[k] <= r.value)
                      && (r.value == 0.0 || exists i', j, k | 0 <= i' < i && 0 <= j < |grid[i']| && 0 <= k < |grid[i'][j].value| ::
                            grid[i'][j].value[k] == r.value)
  {
    if i > 0 {
      GridScanSpec(grid, i - 1);
      var prev := GridScan(grid, i - 1);
      var row := grid[i - 1];
      if prev.Err? {
        RowScanOfErr(prev, row, |row|);
        var i', j :| 0 <= i' < i - 1 && 0 <= j < |grid[i']| && !Usable(grid[i'][j]);
      } else {
        RowScanSpec(prev.value, row, |row|);
        var r := GridScan(grid, i);
        if r.Ok? && r.value != prev.value {
          var j, k :| 0 <= j < |row| && 0 <= k < |row[j].value| && row[j].value[k] == r.value;
          assert grid[i - 1][j].value[k] == r.value;
        }
      }
    }
  }

  /** Every per-symptom burden of the combination is at most `m`. */
  ghost predicate Bounded(t: Table, props: Dict<string, real>, cases: real, m: real)
    requires BurdenFrame(t)
  {
    var burdens := BurdenBySymptom(t, props, cases);
    burdens.Ok? && forall v | v in Values(burdens.value) :: v <= m
  }

  /** `m` is one of the combination's per-symptom burdens. */
  ghost predicate Attained(t: Table, props: Dict<string, real>, cases: real, m: real)
    requires BurdenFrame(t)
  {
    var burdens := BurdenBySymptom(t, props, cases);
    burdens.Ok? && m in Values(burdens.value)
  }

  /** A combination is usable exactly when its table has rows and every flag
      and burden column, and its scenario has the three shares. */
  lemma UsableScenario(t: Table, props: Dict<string, real>, cases: real)
    requires BurdenFrame(t)
    ensures Usable(ScenarioValues(t, props, cases))
            <==> t.rows > 0 && FlagsPresent(t) && BurdensPresent(t) && HasShares(props)
  {
  }

  /** The axis limit of the burden plots is found exactly when every adjusted
      table has rows and all flag and burden columns, and every severity
      scenario has the three shares. */
  lemma MaxBurdenFound(adjs: seq<Table>, sevs: seq<Dict<string, real>>, cases: real)
    requires forall a | 0 <= a < |adjs| :: BurdenFrame(adjs[a])
    ensures GridScan(Grid(adjs, sevs, cases), |adjs|).Ok?
            <==> forall i, j | 0 <= i < |adjs| && 0 <= j < |sevs| ::
                   adjs[i].rows > 0 && FlagsPresent(adjs[i]) && BurdensPresent(adjs[i]) && HasShares(sevs[j])
  {
    var grid := Grid(adjs, sevs, cases);
    GridScanSpec(grid, |adjs|);
    forall i, j | 0 <= i < |adjs| && 0 <= j < |sevs|
      ensures Usable(grid[i][j]) <==> adjs[i].rows > 0 && FlagsPresent(adjs[i]) && BurdensPresent(adjs[i]) && HasShares(sevs[j])
    {
      UsableScenario(adjs[i], sevs[j], cases);
    }
  }

  /** When the first adjusted table has rows but no `mild` flag column, the
      scan stops at its first combination with `KeyError('mild')`. */
  lemma UnmergedFirstTableFails(adjs: seq<Table>, sevs: seq<Dict<string, real>>, cases: real)
    requires forall a | 0 <= a < |adjs| :: BurdenFrame(adjs[a])
    requires |adjs| > 0 && |sevs| > 0 && adjs[0].rows > 0 && MildColumn !in adjs[0].data
    ensures GridScan(Grid(adjs, sevs, cases), |adjs|) == Err(KeyError(MildColumn))
  {
    var grid := Grid(adjs, sevs, cases);
    UnmergedBurdenBySymptom(adjs[0], sevs[0], cases);
    assert grid[0][0] == Err(KeyError(MildColumn));
    RowScanNext(Ok(0.0), grid[0], 0);
    RowScanStays(Ok(0.0), grid[0], 1, |grid[0]|);
    assert GridScan(grid, 1) == Err(KeyError(MildColumn));
    GridScanStays(grid, 1, |grid|);
  }

  /** With every adjusted table merged with the severity flags and its period
      burdens (and non-empty), and every scenario holding the three shares,
      the scan finds the axis limit. */
  lemma MergedScenariosFound(adjs: seq<Table>, sevs: seq<Dict<string, real>>, cases: real)
    requires forall a | 0 <= a < |adjs| :: BurdenFrame(adjs[a]) && FlagsPresent(adjs[a]) && BurdensPresent(adjs[a]) && adjs[a].rows > 0
    requires forall j | 0 <= j < |sevs| :: HasShares(sevs[j])
    ensures GridScan(Grid(adjs, sevs, cases), |adjs|).Ok?
  {
    MaxBurdenFound(adjs, sevs, cases);
  }

  /** When found, the axis limit is at least 0 and at least every per-symptom
      burden of every (adjustment, severity) combination. */
  lemma MaxBurdenBounds(adjs: seq<Table>, sevs: seq<Dict<string, real>>, cases: real)
    requires forall a | 0 <= a < |adjs| :: BurdenFrame(adjs[a])
    ensures var r := GridScan(Grid(adjs, sevs, cases), |adjs|);
            r.Ok? ==> r.value >= 0.0 && forall i, j | 0 <= i < |adjs| && 0 <= j < |sevs| :: Bounded(adjs[i], sevs[j], cases, r.value)
  {
    var grid := Grid(adjs, sevs, cases);
    var r := GridScan(grid, |adjs|);
    if r.Ok? {
      GridScanSpec(grid, |adjs|);
      forall i, j | 0 <= i < |adjs| && 0 <= j < |sevs|
        ensures Bounded(adjs[i], sevs[j], cases, r.value)
      {
        ScanBoundsCell(grid, adjs[i], sevs[j], cases, i, j);
      }
    }
  }

  /** One combination's burdens are all below a successful scan. */
  lemma ScanBoundsCell(grid: seq<seq<Result<seq<real>>>>, t: Table, props: Dict<string, real>, cases: real, i: nat, j: nat)
    requires BurdenFrame(t) && GridScan(grid, |grid|).Ok? && i < |grid| && j < |grid[i]|
    requires grid[i][j] == ScenarioValues(t, props, cases)
    ensures Bounded(t, props, cases, GridScan(grid, |grid|).value)
  {
    var m := GridScan(grid, |grid|).value;
    var cell := grid[i][j];
    ScanCellUsable(grid, i, j);
    forall k | 0 <= k < |cell.value| ensures cell.value[k] <= m {
      CellBelowScan(grid, i, j, k);
    }
    CellBounded(t, props, cases, m, cell);
  }

  /** Every combination of a successful scan is usable. */
  lemma ScanCellUsable(grid: seq<seq<Result<seq<real>>>>, i: nat, j: nat)
    requires GridScan(grid, |grid|).Ok? && i < |grid| && j < |grid[i]|
    ensures Usable(grid[i][j])
  {
    GridScanSpec(grid, |grid|);
  }

  lemma CellBelowScan(grid: seq<seq<Result<seq<real>>>>, i: nat, j: nat, k: nat)
    requires GridScan(grid, |grid|).Ok? && i < |grid| && j < |grid[i]| && grid[i][j].Ok? && k < |grid[i][j].value|
    ensures grid[i][j].value[k] <= GridScan(grid, |grid|).value
  {
    GridScanSpec(grid, |grid|);
  }

  lemma CellBounded(t: Table, props: Dict<string, real>, cases: real, m: real, cell: Result<seq<real>>)
    requires BurdenFrame(t) && cell == ScenarioValues(t, props, cases) && Usable(cell)
    requires forall k | 0 <= k < |cell.value| :: cell.value[k] <= m
    ensures Bounded(t, props, cases, m)
  {
  }

  /** A non-zero axis limit is one of the per-symptom burdens. */
  lemma MaxBurdenAttained(adjs: seq<Table>, sevs: seq<Dict<string, real>>, cases: real)
    requires forall a | 0 <= a < |adjs| :: BurdenFrame(adjs[a])
    ensures var r := GridScan(Grid(adjs, sevs, cases), |adjs|);
            r.Ok? && r.value != 0.0 ==> exists i, j | 0 <= i < |adjs| && 0 <= j < |sevs| :: Attained(adjs[i], sevs[j], cases, r.value)
  {
    var grid := Grid(adjs, sevs, cases);
    var r := GridScan(grid, |adjs|);
    if r.Ok? && r.value != 0.0 {
      var i, j, k := ScanWitness(grid);
      assert grid[i][j] == ScenarioValues(adjs[i], sevs[j], cases);
      assert Values(BurdenBySymptom(adjs[i], sevs[j], cases).value)[k] == r.value;
    }
  }

  /** Where a non-zero result of the scan was found. */
  lemma ScanWitness(grid: seq<seq<Result<seq<real>>>>) returns (i: nat, j: nat, k: nat)
    requires GridScan(grid, |grid|).Ok? && GridScan(grid, |grid|).value != 0.0
    ensures i < |grid| && j < |grid[i]| && grid[i][j].Ok? && k < |grid[i][j].value|
    ensures grid[i][j].value[k] == GridScan(grid, |grid|).value
  {
    GridScanSpec(grid, |grid|);
    i, j, k :| 0 <= i < |grid| && 0 <= j < |grid[i]| && 0 <= k < |grid[i][j].value| && grid[i][j].value[k] == GridScan(grid, |grid|).value;
  }
}
