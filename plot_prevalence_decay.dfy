/** The Monte Carlo burden accumulator of plot_prevalence_decay.py
    (`calculate_time_adjusted_burden_with_uncertainty`).  The posterior draws,
    the quadrature of the decay curve and the case counts are inputs; what is
    modelled is the nested loop that fills one list of burdens per symptom and
    one list of per-draw totals. */
module PlotPrevalenceDecay {
  import opened Wrappers
  import opened Seqs
  import opened Frames
  import opened Dicts
  import opened Names

  /** The key under which the per-draw totals are stored. */
  const Total := Text("total")

  /** The posterior draws of the two per-symptom parameters: one row per draw,
      one column per symptom, as numpy returns them. */
  datatype Posterior = Posterior(baseline: seq<seq<real>>, decayRate: seq<seq<real>>, symptoms: nat)

  ghost predicate ValidPosterior(p: Posterior) {
    && |p.baseline| == |p.decayRate|
    && forall i | 0 <= i < |p.baseline| :: |p.baseline[i]| == p.symptoms && |p.decayRate[i]| == p.symptoms
  }

  function Draws(p: Posterior): nat { |p.baseline| }

  /** Every cell of column `c` is a number. */
  ghost predicate NumbersOnly(t: Table, c: string) {
    c in t.data && forall i | 0 <= i < |t.data[c]| :: t.data[c][i].Num?
  }

  /** The DALY table with its symptom, weight and severity-flag columns. */
  ghost predicate DalyInputs(t: Table) {
    && WellFormed(t) && TextColumn(t, SymptomColumn)
    && NumbersOnly(t, DalyColumn) && NumbersOnly(t, MildColumn)
    && NumbersOnly(t, ModerateColumn) && NumbersOnly(t, SevereColumn)
  }

  /** `symptom_daly_data['symptom'].unique()`. */
  function DalySymptoms(t: Table): (names: seq<Cell>)
    requires DalyInputs(t)
    ensures Distinct(names) && forall x :: x in names <==> x in t.data[SymptomColumn]
  {
    Unique(t.data[SymptomColumn])
  }


  /** `daly_adjustment * severity_proportion` of row `k`. */
  function RowWeight(t: Table, props: Dict<string, real>, k: nat): real
    requires DalyInputs(t) && k < t.rows
  {
    t.data[DalyColumn][k].x
      * (Get(props, MildColumn, 0.0) * t.data[MildColumn][k].x
         + Get(props, ModerateColumn, 0.0) * t.data[ModerateColumn][k].x
         + Get(props, SevereColumn, 0.0) * t.data[SevereColumn][k].x)
  }

  /** `symptom_weighted_daly`: the row weights of the rows below `n` whose
      symptom is `name`, in row order. */
  function SymptomWeights(t: Table, props: Dict<string, real>, name: Cell, n: nat): seq<real>
    requires DalyInputs(t) && n <= t.rows
  {
    if n == 0 then []
    else SymptomWeights(t, props, name, n - 1)
         + (if t.data[SymptomColumn][n - 1] == name then [RowWeight(t, props, n - 1)] else [])
  }

  /** `sum(burden * symptom_weighted_daly)`. */
  function ScaledSum(burden: real, ws: seq<real>): real {
    Sum(seq(|ws|, k requires 0 <= k < |ws| => burden * ws[k]))
  }

  /** `quad(decay_func, 0, max_time, args=(baseline, decay_rate))`: the
      integral is an input of the model. */
  function Integral(quad: (real, real, real) -> real, baseline: real, decayRate: real, maxTime: real): real {
    quad(baseline, decayRate, maxTime)
  }

  /** `integral * total_cases[i] / 12`: the draw's burden per unit of
      weighted DALY. */
  function CaseBurden(integral: real, cases: real): real {
    integral * cases / 12.0
  }

  /** What the loop reads: the DALY table, the severity shares, the posterior
      draws, the integrator, the horizon and the case counts of the draws. */
  datatype Sampling = Sampling(daly: Table, props: Dict<string, real>, trace: Posterior,
                               quad: (real, real, real) -> real, maxTime: real, cases: seq<real>)

  ghost predicate ValidSampling(s: Sampling) {
    DalyInputs(s.daly) && ValidPosterior(s.trace)
  }

  /** The number of distinct symptoms of the DALY table. */
  function Symptoms(s: Sampling): nat
    requires ValidSampling(s)
  {
    |DalySymptoms(s.daly)|
  }

  /** Draw `i` can be read from the posterior and the case counts. */
  ghost predicate HasDraw(s: Sampling, i: nat) {
    i < Draws(s.trace) && i < |s.cases|
  }

  /** The burden of symptom `j` in draw `i`: the integral of its decay curve,
      times the draw's cases over 12 months, spread over its weighted rows. */
  function EntryAt(s: Sampling, i: nat, j: nat): real
    requires ValidSampling(s) && HasDraw(s, i) && j < s.trace.symptoms && j < Symptoms(s)
  {
    ScaledSum(CaseBurden(Integral(s.quad, s.trace.baseline[i][j], s.trace.decayRate[i][j], s.maxTime), s.cases[i]),
              SymptomWeights(s.daly, s.props, DalySymptoms(s.daly)[j], s.daly.rows))
  }

  /** The list of symptom `j` after `m` draws. */
  function SymptomDraws(s: Sampling, m: nat, j: nat): (ds: seq<real>)
    requires ValidSampling(s) && j < Symptoms(s)
    requires m == 0 || (HasDraw(s, m - 1) && j < s.trace.symptoms)
    ensures |ds| == m
  {
    seq(m, i requires 0 <= i < m => EntryAt(s, i, j))
  }

  /** The entries of draw `i`, symptom by symptom. */
  function EntriesOf(s: Sampling, i: nat): (es: seq<real>)
    requires ValidSampling(s)
    requires Symptoms(s) == 0 || (HasDraw(s, i) && Symptoms(s) <= s.trace.symptoms)
    ensures |es| == Symptoms(s)
  {
    seq(Symptoms(s), j requires 0 <= j < Symptoms(s) => EntryAt(s, i, j))
  }

  /** The total of draw `i` over all symptoms. */
  function DrawTotal(s: Sampling, i: nat): real
    requires ValidSampling(s)
    requires Symptoms(s) == 0 || (HasDraw(s, i) && Symptoms(s) <= s.trace.symptoms)
  {
    Sum(EntriesOf(s, i))
  }

  /** The list of totals after `m` draws. */
  function TotalDraws(s: Sampling, m: nat): (ts: seq<real>)
    requires ValidSampling(s)
    requires m == 0 || Symptoms(s) == 0 || (HasDraw(s, m - 1) && Symptoms(s) <= s.trace.symptoms)
    ensures |ts| == m
  {
    seq(m, i requires 0 <= i < m => DrawTotal(s, i))
  }

  /** Entry `i` of the totals is the sum over the symptoms of their entries `i`. */
  lemma TotalIsSumOfSymptoms(s: Sampling, m: nat, i: nat)
    requires ValidSampling(s) && i < m && HasDraw(s, m - 1) && Symptoms(s) <= s.trace.symptoms
    ensures TotalDraws(s, m)[i] == Sum(seq(Symptoms(s), j requires 0 <= j < Symptoms(s) => SymptomDraws(s, m, j)[i]))
  {
    assert EntriesOf(s, i) == seq(Symptoms(s), j requires 0 <= j < Symptoms(s) => SymptomDraws(s, m, j)[i]);
  }

  /** The inputs on which the loop stops with an exception before finishing:
      a missing severity share, too few posterior draws or columns, or too few
      case counts. */
  ghost predicate Fails(s: Sampling, numSamples: nat)
    requires ValidSampling(s)
  {
    numSamples > 0 && Symptoms(s) > 0
    && (!HasShares(s.props) || !HasDraw(s, numSamples - 1) || Symptoms(s) > s.trace.symptoms)
  }

  /** The result dictionary: each symptom's list under its name, in the
      order of the names, then the totals under `'total'`. */
  function BurdenDict(names: seq<Cell>, lists: seq<seq<real>>, totals: seq<real>): (d: Dict<Cell, seq<real>>)
    requires Distinct(names) && |lists| == |names| && Total !in names
    ensures ValidDict(d) && d.keys == names + [Total]
    ensures d.items[Total] == totals && forall j | 0 <= j < |names| :: d.items[names[j]] == lists[j]
  {
    var d := Dict(names + [Total], (map k | k in names :: lists[IndexOf(names, k)])[Total := totals]);
    assert forall j | 0 <= j < |names| :: IndexOf(names, names[j]) == j;
    d
  }

  /** `calculate_time_adjusted_burden_with_uncertainty` after sampling: for each
      of `numSamples` draws and each symptom, appends the symptom's burden to
      its list and the draw's total to the `'total'` list.  The lists are kept
      by symptom position while the loop runs. */
  method CalculateTimeAdjustedBurden(props: Dict<string, real>, totalCases: seq<real>, daly: Table,
                                     trace: Posterior, quad: (real, real, real) -> real,
                                     numSamples: nat, maxTime: real)
    returns (r: Result<Dict<Cell, seq<real>>>)
    requires DalyInputs(daly) && ValidPosterior(trace) && Total !in daly.data[SymptomColumn]
    ensures var s := Sampling(daly, props, trace, quad, maxTime, totalCases);
            && (r.Err? <==> Fails(s, numSamples))
            && (r.Err? ==> r.error == if HasShares(props) then IndexError else KeyError(MissingShare(props)))
            && (r.Ok? ==> && ValidDict(r.value) && r.value.keys == DalySymptoms(daly) + [Total]
                          && (numSamples == 0 || Symptoms(s) == 0 || (HasDraw(s, numSamples - 1) && Symptoms(s) <= trace.symptoms))
                          && (forall j | 0 <= j < Symptoms(s) :: r.value.items[DalySymptoms(daly)[j]] == SymptomDraws(s, numSamples, j))
                          && r.value.items[Total] == TotalDraws(s, numSamples))
  {
    ghost var s := Sampling(daly, props, trace, quad, maxTime, totalCases);
    var names := DalySymptoms(daly);
    var lists: seq<seq<real>> := seq(|names|, _ => []);
    var totals: seq<real> := [];
    for i := 0 to numSamples
      invariant i == 0 || Symptoms(s) == 0 || (HasDraw(s, i - 1) && HasShares(props) && Symptoms(s) <= trace.symptoms)
      invariant |lists| == |names| && forall j | 0 <= j < |names| :: lists[j] == SymptomDraws(s, i, j)
      invariant totals == TotalDraws(s, i)
    {
      var step := DrawEntries(props, totalCases, daly, trace, quad, maxTime, i, lists);
      if step.Err? {
        return Err(step.error);
      }
      var totalBurden;
      lists, totalBurden := step.value.0, step.value.1;
      AppendTotal(s, i);
      totals := totals + [totalBurden];
    }
    return Ok(BurdenDict(names, lists, totals));
  }

  /** One pass of the inner loop: draw `i` of every symptom, appended to the
      symptom lists, and the draw's total; or the exception the pass raises. */
  method DrawEntries(props: Dict<string, real>, totalCases: seq<real>, daly: Table,
                     trace: Posterior, quad: (real, real, real) -> real, maxTime: real,
                     i: nat, lists: seq<seq<real>>)
    returns (r: Result<(seq<seq<real>>, real)>)
    requires DalyInputs(daly) && ValidPosterior(trace)
    requires var s := Sampling(daly, props, trace, quad, maxTime, totalCases);
             && (i == 0 || Symptoms(s) == 0 || (HasDraw(s, i - 1) && Symptoms(s) <= trace.symptoms))
             && |lists| == Symptoms(s) && forall j | 0 <= j < Symptoms(s) :: lists[j] == SymptomDraws(s, i, j)
    ensures var s := Sampling(daly, props, trace, quad, maxTime, totalCases);
            && (r.Err? <==> Symptoms(s) > 0 && (!HasShares(props) || !HasDraw(s, i) || Symptoms(s) > trace.symptoms))
            && (r.Err? ==> r.error == if HasShares(props) then IndexError else KeyError(MissingShare(props)))
            && (r.Ok? ==> && (Symptoms(s) > 0 ==> HasDraw(s, i) && Symptoms(s) <= trace.symptoms && HasShares(props))
                          && |r.value.0| == Symptoms(s)
                          && (forall j | 0 <= j < Symptoms(s) :: r.value.0[j] == SymptomDraws(s, i + 1, j))
                          && r.value.1 == DrawTotal(s, i))
  {
    ghost var s := Sampling(daly, props, trace, quad, maxTime, totalCases);
    var names := DalySymptoms(daly);
    var n := |names|;
    var out := lists;
    var totalBurden := 0.0;
    for j := 0 to n
      invariant j > 0 ==> HasShares(props) && HasDraw(s, i) && j <= trace.symptoms
      invariant |out| == n
      invariant forall j' | 0 <= j' < j :: out[j'] == SymptomDraws(s, i + 1, j')
      invariant forall j' | j <= j' < n :: out[j'] == lists[j']
      invariant totalBurden == Sum(seq(j, j' requires 0 <= j' < j => EntryAt(s, i, j')))
    {
      if !HasShares(props) {
        return Err(KeyError(MissingShare(props)));
      }
      if i >= |trace.baseline| || j >= trace.symptoms || i >= |totalCases| {
        return Err(IndexError);
      }
      var weights := SymptomWeights(daly, props, names[j], daly.rows);
      var integral := Integral(quad, trace.baseline[i][j], trace.decayRate[i][j], maxTime);
      var burden := CaseBurden(integral, totalCases[i]);
      var severityAdjustedBurden := ScaledSum(burden, weights);
      assert EntryAt(s, i, j) == severityAdjustedBurden;
      AppendEntry(s, i, j);
      out := out[j := out[j] + [severityAdjustedBurden]];
      totalBurden := totalBurden + severityAdjustedBurden;
    }
    assert seq(n, j' requires 0 <= j' < n => EntryAt(s, i, j')) == EntriesOf(s, i);
    return Ok((out, totalBurden));
  }

  /** One inner step: symptom `j` gets its entry for draw `i`, and the
      running total grows by that entry. */
  lemma AppendEntry(s: Sampling, i: nat, j: nat)
    requires ValidSampling(s) && HasDraw(s, i) && j < s.trace.symptoms && j < Symptoms(s)
    ensures SymptomDraws(s, i + 1, j) == SymptomDraws(s, i, j) + [EntryAt(s, i, j)]
    ensures Sum(seq(j + 1, j' requires 0 <= j' < j + 1 => EntryAt(s, i, j')))
            == Sum(seq(j, j' requires 0 <= j' < j => EntryAt(s, i, j'))) + EntryAt(s, i, j)
  {
    var entries := seq(j + 1, j' requires 0 <= j' < j + 1 => EntryAt(s, i, j'));
    assert entries[..j] == seq(j, j' requires 0 <= j' < j => EntryAt(s, i, j'));
  }

  lemma AppendTotal(s: Sampling, i: nat)
    requires ValidSampling(s)
    requires Symptoms(s) == 0 || (HasDraw(s, i) && Symptoms(s) <= s.trace.symptoms)
    ensures TotalDraws(s, i + 1) == TotalDraws(s, i) + [DrawTotal(s, i)]
  {
  }

  // ---------------------------------------------------------------- properties

  /** Row `k`'s weighted DALY when the three shares are present. */
  function ShareWeight(t: Table, props: Dict<string, real>, k: nat): real
    requires DalyInputs(t) && HasShares(props) && k < t.rows
  {
    t.data[DalyColumn][k].x
      * (props.items[MildColumn] * t.data[MildColumn][k].x
         + props.items[ModerateColumn] * t.data[ModerateColumn][k].x
         + props.items[SevereColumn] * t.data[SevereColumn][k].x)
  }

  /** Every row's weighted DALY. */
  function ShareWeights(t: Table, props: Dict<string, real>): (ws: seq<real>)
    requires DalyInputs(t) && HasShares(props)
    ensures |ws| == t.rows && forall k | 0 <= k < t.rows :: ws[k] == ShareWeight(t, props, k)
  {
    seq(t.rows, k requires 0 <= k < t.rows => ShareWeight(t, props, k))
  }

  lemma {:induction false} SymptomWeightsSum(t: Table, props: Dict<string, real>, name: Cell, n: nat)
    requires DalyInputs(t) && HasShares(props) && n <= t.rows
    ensures Sum(SymptomWeights(t, props, name, n))
            == SumWhere(t.data[SymptomColumn][..n], ShareWeights(t, props)[..n], name)
  {
    if n > 0 {
      SymptomWeightsSum(t, props, name, n - 1);
      var ws := SymptomWeights(t, props, name, n - 1);
      var keys := t.data[SymptomColumn][..n];
      var vals := ShareWeights(t, props)[..n];
      assert keys[..n - 1] == t.data[SymptomColumn][..n - 1];
      assert vals[..n - 1] == ShareWeights(t, props)[..n - 1];
      if t.data[SymptomColumn][n - 1] == name {
        assert (ws + [RowWeight(t, props, n - 1)])[..|ws|] == ws;
        assert vals[n - 1] == ShareWeight(t, props, n - 1) == RowWeight(t, props, n - 1);
      } else {
        assert ws + [] == ws;
      }
    }
  }

  lemma ScaledSumIsProduct(b: real, ws: seq<real>)
    ensures ScaledSum(b, ws) == b * Sum(ws)
  {
    SumScaled(ws, seq(|ws|, k requires 0 <= k < |ws| => b * ws[k]), b);
  }

  /** Entry (i, j) is the draw's integral times its cases over 12, times the
      sum over the symptom's rows of `daly_adjustment * (w_mild * mild +
      w_moderate * moderate + w_severe * severe)`. */
  lemma EntryFormula(s: Sampling, i: nat, j: nat)
    requires ValidSampling(s) && HasShares(s.props) && HasDraw(s, i) && j < s.trace.symptoms && j < Symptoms(s)
    ensures EntryAt(s, i, j)
            == Integral(s.quad, s.trace.baseline[i][j], s.trace.decayRate[i][j], s.maxTime) * s.cases[i] / 12.0
               * SumWhere(s.daly.data[SymptomColumn], ShareWeights(s.daly, s.props), DalySymptoms(s.daly)[j])
  {
    var t := s.daly;
    var name := DalySymptoms(t)[j];
    var a := Integral(s.quad, s.trace.baseline[i][j], s.trace.decayRate[i][j], s.maxTime);
    var b := CaseBurden(a, s.cases[i]);
    var ws := SymptomWeights(t, s.props, name, t.rows);
    assert EntryAt(s, i, j) == ScaledSum(b, ws);
    ScaledSumIsProduct(b, ws);
    SymptomWeightsSum(t, s.props, name, t.rows);
    assert t.data[SymptomColumn][..t.rows] == t.data[SymptomColumn];
    assert ShareWeights(t, s.props)[..t.rows] == ShareWeights(t, s.props);
    assert b == a * s.cases[i] / 12.0;
  }

  /** The sampling inputs with every case count multiplied by `k`. */
  function ScaleCases(s: Sampling, k: real): (s': Sampling)
    ensures |s'.cases| == |s.cases|
  {
    s.(cases := seq(|s.cases|, i requires 0 <= i < |s.cases| => k * s.cases[i]))
  }

  /** Scaling every case count by `k` scales every burden entry by `k`. */
  lemma EntryLinear(s: Sampling, k: real, i: nat, j: nat)
    requires ValidSampling(s) && HasDraw(s, i) && j < s.trace.symptoms && j < Symptoms(s)
    ensures EntryAt(ScaleCases(s, k), i, j) == k * EntryAt(s, i, j)
  {
    var s' := ScaleCases(s, k);
    var a := Integral(s.quad, s.trace.baseline[i][j], s.trace.decayRate[i][j], s.maxTime);
    var ws := SymptomWeights(s.daly, s.props, DalySymptoms(s.daly)[j], s.daly.rows);
    assert CaseBurden(a, k * s.cases[i]) == k * CaseBurden(a, s.cases[i]);
    ScaledSumIsProduct(CaseBurden(a, s'.cases[i]), ws);
    ScaledSumIsProduct(CaseBurden(a, s.cases[i]), ws);
  }

  /** Scaling every case count by `k` scales every draw's total by `k`. */
  lemma DrawTotalLinear(s: Sampling, k: real, i: nat)
    requires ValidSampling(s) && (Symptoms(s) == 0 || (HasDraw(s, i) && Symptoms(s) <= s.trace.symptoms))
    ensures DrawTotal(ScaleCases(s, k), i) == k * DrawTotal(s, i)
  {
    ScaledEntries(s, k, i);
    SumScaled(EntriesOf(s, i), EntriesOf(ScaleCases(s, k), i), k);
  }

  lemma ScaledEntries(s: Sampling, k: real, i: nat)
    requires ValidSampling(s) && (Symptoms(s) == 0 || (HasDraw(s, i) && Symptoms(s) <= s.trace.symptoms))
    ensures ValidSampling(ScaleCases(s, k)) && Symptoms(ScaleCases(s, k)) == Symptoms(s)
    ensures HasDraw(s, i) ==> HasDraw(ScaleCases(s, k), i)
    ensures forall j | 0 <= j < Symptoms(s) :: EntriesOf(ScaleCases(s, k), i)[j] == k * EntriesOf(s, i)[j]
  {
    var s' := ScaleCases(s, k);
    assert s'.daly == s.daly && s'.trace == s.trace;
    forall j | 0 <= j < Symptoms(s)
      ensures EntriesOf(s', i)[j] == k * EntriesOf(s, i)[j]
    {
      EntryLinear(s, k, i, j);
    }
  }
}
