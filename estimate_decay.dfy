/** Moment matching for the hyperpriors, the wide-to-long reshaping of the
    prevalence table and the decay curve of the hierarchical model
    (estimate_decay.py).  Building and sampling the probabilistic model is
    left to the engine and is not modelled. */
module EstimateDecay {
  import opened Wrappers
  import opened Seqs
  import opened Orders
  import opened Frames
  import opened Names

  // ---------------------------------------------------------------- moment matching

  /** The shape parameters of a Beta(alpha, beta) distribution. */
  datatype BetaShape = BetaShape(alpha: real, beta: real)

  /** The shape and scale of a Gamma(alpha, theta) distribution. */
  datatype GammaShape = GammaShape(alpha: real, theta: real)

  /** `calculate_beta_params`: no validation; only a zero variance fails (division by zero). */
  function CalculateBetaParams(mean: real, variance: real): (r: Result<BetaShape>)
    ensures r.Err? <==> variance == 0.0
    ensures r.Err? ==> r.error == ZeroDivisionError
  {
    if variance == 0.0 then Err(ZeroDivisionError)
    else Ok(BetaShape(mean * CommonFactor(mean, variance), (1.0 - mean) * CommonFactor(mean, variance)))
  }

  /** `mean * (1 - mean) / variance - 1`, the sum of the two Beta shapes. */
  function CommonFactor(mean: real, variance: real): real
    requires variance != 0.0
  {
    mean * (1.0 - mean) / variance - 1.0
  }

  /** `calculate_gamma_params`: `mean**2 / variance` fails on a zero variance, `variance / mean` on a zero mean. */
  function CalculateGammaParams(mean: real, variance: real): (r: Result<GammaShape>)
    ensures r.Err? <==> variance == 0.0 || mean == 0.0
    ensures r.Err? ==> r.error == ZeroDivisionError
  {
    if variance == 0.0 || mean == 0.0 then Err(ZeroDivisionError)
    else Ok(GammaShape(mean * mean / variance, variance / mean))
  }

  /** The sum of the Beta shapes is `mean(1-mean)/variance - 1`, and both shapes
      are positive exactly when `variance < mean(1-mean)`. */
  lemma BetaShapeSum(mean: real, variance: real)
    requires 0.0 < mean < 1.0 && 0.0 < variance
    ensures CalculateBetaParams(mean, variance).Ok?
    ensures var s := CalculateBetaParams(mean, variance).value;
            s.alpha + s.beta == mean * (1.0 - mean) / variance - 1.0
    ensures var s := CalculateBetaParams(mean, variance).value;
            (s.alpha > 0.0 && s.beta > 0.0) <==> variance < mean * (1.0 - mean)
  {
    var common := mean * (1.0 - mean) / variance - 1.0;
    var s := CalculateBetaParams(mean, variance).value;
    assert s.alpha + s.beta == common;
    var q := mean * (1.0 - mean);
    assert q > 0.0;
    if variance < q {
      assert q / variance > 1.0;
      assert common > 0.0;
      assert s.alpha == mean * common && s.beta == (1.0 - mean) * common;
      assert s.alpha > 0.0 && s.beta > 0.0;
    } else {
      assert q / variance <= 1.0;
      assert common <= 0.0;
      assert s.alpha <= 0.0 by {
        assert s.alpha == mean * common;
      }
    }
  }

  /** The Beta moments of the derived shapes reproduce the inputs:
      `a/(a+b) = mean` and `ab/((a+b)^2 (a+b+1)) = variance`. */
  lemma BetaRoundTrip(mean: real, variance: real)
    requires 0.0 < mean < 1.0 && 0.0 < variance < mean * (1.0 - mean)
    ensures CalculateBetaParams(mean, variance).Ok?
    ensures var s := CalculateBetaParams(mean, variance).value;
            && s.alpha / (s.alpha + s.beta) == mean
            && s.alpha * s.beta / ((s.alpha + s.beta) * (s.alpha + s.beta) * (s.alpha + s.beta + 1.0)) == variance
  {
    BetaShapeSum(mean, variance);
    var c := CommonFactor(mean, variance);
    BetaMoments(mean, variance, mean * c, (1.0 - mean) * c, c);
  }

  /** The moment algebra behind `BetaRoundTrip`, on shapes `a = mean c` and `b = (1-mean) c`. */
  lemma BetaMoments(mean: real, variance: real, a: real, b: real, c: real)
    requires 0.0 < mean < 1.0 && 0.0 < variance && c > 0.0
    requires c + 1.0 == mean * (1.0 - mean) / variance
    requires a == mean * c && b == (1.0 - mean) * c
    ensures a + b == c && a / (a + b) == mean
    ensures a * b / ((a + b) * (a + b) * (a + b + 1.0)) == variance
  {
    var q := mean * (1.0 - mean);
    assert a * b == (c * c) * q by {
      assert a * b == (mean * c) * ((1.0 - mean) * c);
    }
    CancelRatio(c * c, q, variance);
  }

  /** `(p q) / (p (q / v)) = v` for positive `p`, `q` and `v`. */
  lemma CancelRatio(p: real, q: real, v: real)
    requires p > 0.0 && q > 0.0 && v > 0.0
    ensures (p * q) / (p * (q / v)) == v
  {
    var w := q / v;
    assert w * v == q;
    assert (p * w) * v == p * q;
  }

  /** The Gamma moments of the derived shape and scale reproduce the inputs:
      `alpha * theta = mean` and `alpha * theta^2 = variance`. */
  lemma GammaRoundTrip(mean: real, variance: real)
    requires mean != 0.0 && variance != 0.0
    ensures CalculateGammaParams(mean, variance).Ok?
    ensures var g := CalculateGammaParams(mean, variance).value;
            g.alpha * g.theta == mean && g.alpha * g.theta * g.theta == variance
  {
    var g := CalculateGammaParams(mean, variance).value;
    assert g.alpha * g.theta == (mean * mean / variance) * (variance / mean);
    assert g.alpha * g.theta == mean;
    assert g.alpha * g.theta * g.theta == mean * (variance / mean);
  }

  // ---------------------------------------------------------------- hyperparameters of setup_model

  /** The Gamma hyperpriors of the baseline shapes and of the decay-rate shape. */
  datatype Hyperpriors = Hyperpriors(baselineAlpha: GammaShape, baselineBeta: GammaShape, decayRateAlpha: GammaShape)

  /** The moment-matched hyperpriors computed at the top of `setup_model`, in source order. */
  function SetupHyperpriors(baselineAlphaMean: real, baselineAlphaVar: real,
                            baselineBetaMean: real, baselineBetaVar: real,
                            decayRateMean: real, decayRateVar: real): (r: Result<Hyperpriors>)
    ensures r.Ok? <==> && CalculateGammaParams(baselineAlphaMean, baselineAlphaVar).Ok?
                       && CalculateGammaParams(baselineBetaMean, baselineBetaVar).Ok?
                       && CalculateGammaParams(decayRateMean, decayRateVar).Ok?
  {
    match CalculateGammaParams(baselineAlphaMean, baselineAlphaVar)
    case Err(e) => Err(e)
    case Ok(ba) =>
      match CalculateGammaParams(baselineBetaMean, baselineBetaVar)
      case Err(e) => Err(e)
      case Ok(bb) =>
        match CalculateGammaParams(decayRateMean, decayRateVar)
        case Err(e) => Err(e)
        case Ok(da) => Ok(Hyperpriors(ba, bb, da))
  }

  /** The defaults (1, 3), (50, 10) and (1, 10) give the shapes (1/3, 3), (250, 0.2) and (0.1, 10). */
  lemma DefaultHyperpriors()
    ensures SetupHyperpriors(1.0, 3.0, 50.0, 10.0, 1.0, 10.0)
            == Ok(Hyperpriors(GammaShape(1.0 / 3.0, 3.0), GammaShape(250.0, 0.2), GammaShape(0.1, 10.0)))
  {
  }

  // ---------------------------------------------------------------- prepare_data

  /** The `replace` of the melted `time` labels: the three period columns become
      months; any other label stays as it is. */
  function TimeOf(name: string): Cell {
    if name == Prevalence6m then Num(6.0)
    else if name == Prevalence12m then Num(12.0)
    else if name == Prevalence18m then Num(18.0)
    else Text(name)
  }

  /** `pd.to_numeric(errors='coerce') / 100`: `parse` stands for pandas' parsing
      of a numeric string; anything it rejects becomes NaN. */
  function ToProportion(c: Cell, parse: string -> Option<real>): Cell {
    match c
    case Num(x) => Num(x / 100.0)
    case Missing => Missing
    case Text(s) => if parse(s).Some? then Num(parse(s).value / 100.0) else Missing
  }

  /** The parallel arrays `time`, `prevalence` and `symptom_idx` returned by `prepare_data`. */
  datatype Observations = Observations(time: seq<Cell>, prevalence: seq<Cell>, symptomIdx: seq<int>)

  function SymptomNames(t: Table): (ns: seq<string>)
    requires WellFormed(t) && TextColumn(t, SymptomColumn)
    ensures |ns| == t.rows && forall i | 0 <= i < t.rows :: Text(ns[i]) == t.data[SymptomColumn][i]
  {
    seq(t.rows, i requires 0 <= i < t.rows => t.data[SymptomColumn][i].s)
  }

  /** `pd.Categorical(...).categories`: the distinct symptom names, sorted. */
  function Categories(t: Table): seq<string>
    requires WellFormed(t) && TextColumn(t, SymptomColumn)
  {
    SortedSet(SymptomNames(t), StrLt)
  }

  lemma CategoriesSpec(t: Table)
    requires WellFormed(t) && TextColumn(t, SymptomColumn)
    ensures StrictlySorted(Categories(t), StrLt) && Distinct(Categories(t))
    ensures forall s :: s in Categories(t) <==> s in SymptomNames(t)
  {
    StrLtIsStrictTotal();
    SortedSetSpec(SymptomNames(t), StrLt);
    SortedIsDistinct(Categories(t), StrLt);
  }

  /** The melted value columns: every column but `symptom`, in column order. */
  function ValueColumns(t: Table): seq<string> {
    Remove(t.columns, [SymptomColumn])
  }

  /** Position of row `i` of value column `j` in the melted (column-major) frame. */
  function MeltPos(j: nat, i: nat, rows: nat): nat { j * rows + i }

  lemma DivUnique(k: int, n: int, q: int, r: int)
    requires n > 0 && 0 <= r < n && k == q * n + r
    ensures k / n == q && k % n == r
  {
    var q', r' := k / n, k % n;
    assert k == q' * n + r';
    if q' < q {
      MulMono(q' + 1, q, n);
    } else if q < q' {
      MulMono(q + 1, q', n);
    }
  }

  lemma MulMono(a: int, b: int, n: int)
    requires a <= b && 0 <= n
    ensures a * n <= b * n
  {
    assert b * n - a * n == (b - a) * n;
  }

  lemma DivBound(k: nat, n: nat, m: nat)
    requires k < m * n
    ensures n > 0 && k / n < m && k % n < n
  {
    if n > 0 && k / n >= m {
      MulMono(m, k / n, n);
    }
  }

  /** `prepare_data`: melts the wide table column by column, maps the period
      labels to months, scales percentages to proportions and codes each row's
      symptom by its rank among the sorted distinct symptoms.  Where each cell
      lands is stated by `MeltedCell`. */
  function PrepareData(t: Table, parse: string -> Option<real>): (obs: Observations)
    requires WellFormed(t) && TextColumn(t, SymptomColumn)
    ensures |obs.time| == |obs.prevalence| == |obs.symptomIdx| == |ValueColumns(t)| * t.rows
  {
    var vc := ValueColumns(t);
    CategoriesSpec(t);
    Observations(MeltedTimes(vc, t.rows), MeltedValues(t, vc, parse), MeltedCodes(t, |vc|))
  }

  /** The melted `time` column: block `j` repeats the label of value column `j`. */
  function MeltedTimes(vc: seq<string>, n: nat): (r: seq<Cell>)
    ensures |r| == |vc| * n
  {
    seq(|vc| * n, k requires 0 <= k < |vc| * n => DivBound(k, n, |vc|); TimeOf(vc[k / n]))
  }

  /** The melted `prevalence` column: block `j` is value column `j` as proportions. */
  function MeltedValues(t: Table, vc: seq<string>, parse: string -> Option<real>): (r: seq<Cell>)
    requires forall c | c in vc :: c in t.data && |t.data[c]| == t.rows
    ensures |r| == |vc| * t.rows
  {
    seq(|vc| * t.rows, k requires 0 <= k < |vc| * t.rows =>
      DivBound(k, t.rows, |vc|); ToProportion(t.data[vc[k / t.rows]][k % t.rows], parse))
  }

  /** The melted `symptom_idx` column: every block repeats the rows' symptom codes. */
  function MeltedCodes(t: Table, m: nat): (r: seq<int>)
    requires WellFormed(t) && TextColumn(t, SymptomColumn)
    ensures |r| == m * t.rows
  {
    var cats := Categories(t);
    var names := SymptomNames(t);
    CategoriesSpec(t);
    assert forall i | 0 <= i < t.rows :: names[i] in cats;
    seq(m * t.rows, k requires 0 <= k < m * t.rows =>
      DivBound(k, t.rows, m); IndexOf(cats, names[k % t.rows]) as int)
  }

  /** Row `i` of value column `j` becomes melted row `j * rows + i`: its time is
      the column's month, its prevalence the cell as a proportion, and its code
      the rank of the row's symptom among the sorted distinct symptoms. */
  lemma MeltedCell(t: Table, parse: string -> Option<real>, j: nat, i: nat)
    requires WellFormed(t) && TextColumn(t, SymptomColumn)
    requires j < |ValueColumns(t)| && i < t.rows
    ensures MeltPos(j, i, t.rows) < |PrepareData(t, parse).time|
    ensures PrepareData(t, parse).time[MeltPos(j, i, t.rows)] == TimeOf(ValueColumns(t)[j])
    ensures PrepareData(t, parse).prevalence[MeltPos(j, i, t.rows)]
            == ToProportion(t.data[ValueColumns(t)[j]][i], parse)
    ensures 0 <= PrepareData(t, parse).symptomIdx[MeltPos(j, i, t.rows)] < |Categories(t)|
    ensures Text(Categories(t)[PrepareData(t, parse).symptomIdx[MeltPos(j, i, t.rows)]])
            == t.data[SymptomColumn][i]
  {
    var n := t.rows;
    var k := MeltPos(j, i, n);
    MulMono(j + 1, |ValueColumns(t)|, n);
    DivUnique(k, n, j, i);
    CategoriesSpec(t);
    assert SymptomNames(t)[i] in Categories(t);
  }

  /** On the prevalence table (symptom plus the 6, 12 and 18 month columns) the
      melted times are 6 for the first block of rows, 12 for the second and 18
      for the third. */
  lemma PeriodTimes(t: Table, parse: string -> Option<real>, i: nat)
    requires WellFormed(t) && TextColumn(t, SymptomColumn)
    requires ValueColumns(t) == [Prevalence6m, Prevalence12m, Prevalence18m]
    requires i < t.rows
    ensures |PrepareData(t, parse).time| == 3 * t.rows
    ensures PrepareData(t, parse).time[i] == Num(6.0)
    ensures PrepareData(t, parse).time[t.rows + i] == Num(12.0)
    ensures PrepareData(t, parse).time[2 * t.rows + i] == Num(18.0)
  {
    var vc := ValueColumns(t);
    PeriodLabels();
    assert PrepareData(t, parse).time[i] == Num(6.0) by {
      MeltedCell(t, parse, 0, i);
      assert MeltPos(0, i, t.rows) == i && vc[0] == Prevalence6m;
    }
    assert PrepareData(t, parse).time[t.rows + i] == Num(12.0) by {
      MeltedCell(t, parse, 1, i);
      assert MeltPos(1, i, t.rows) == t.rows + i && vc[1] == Prevalence12m;
    }
    assert PrepareData(t, parse).time[2 * t.rows + i] == Num(18.0) by {
      MeltedCell(t, parse, 2, i);
      assert MeltPos(2, i, t.rows) == 2 * t.rows + i && vc[2] == Prevalence18m;
    }
  }

  /** The three period labels are told apart and map to 6, 12 and 18 months. */
  lemma PeriodLabels()
    ensures TimeOf(Prevalence6m) == Num(6.0)
    ensures TimeOf(Prevalence12m) == Num(12.0)
    ensures TimeOf(Prevalence18m) == Num(18.0)
  {
    assert Prevalence12m[16] != Prevalence6m[16];
    assert Prevalence18m[16] != Prevalence6m[16];
    assert Prevalence18m[17] != Prevalence12m[17];
  }

  // ---------------------------------------------------------------- the decay curve

  /** `baseline[symptom_idx] * exp(-decay_rate[symptom_idx] * time)`, the mean of
      the likelihood; `exp` is the engine's exponential. */
  function PredictedPrevalence(baseline: seq<real>, decayRate: seq<real>, symptomIdx: seq<int>,
                               time: seq<real>, exp: real -> real): (r: seq<real>)
    requires |symptomIdx| == |time|
    requires forall k | 0 <= k < |symptomIdx| :: 0 <= symptomIdx[k] < |baseline| && symptomIdx[k] < |decayRate|
    ensures |r| == |time|
    ensures forall k | 0 <= k < |r| :: r[k] == baseline[symptomIdx[k]] * exp(-decayRate[symptomIdx[k]] * time[k])
  {
    seq(|time|, k requires 0 <= k < |time| => Decay(baseline[symptomIdx[k]], decayRate[symptomIdx[k]], time[k], exp))
  }

  function Decay(b: real, d: real, time: real, exp: real -> real): real {
    b * exp(-d * time)
  }

  /** The facts of the exponential the decay curve relies on: it is positive,
      non-decreasing and `exp(0) = 1`. */
  ghost predicate ExpLike(exp: real -> real) {
    exp(0.0) == 1.0 && (forall x :: exp(x) > 0.0) && (forall x, y :: x <= y ==> exp(x) <= exp(y))
  }

  /** The `time` column as the numbers handed to the model. */
  function Months(time: seq<Cell>): (r: seq<real>)
    ensures |r| == |time| && forall k | 0 <= k < |time| && time[k].Num? :: r[k] == time[k].x
  {
    seq(|time|, k requires 0 <= k < |time| => Val(time[k]))
  }

  /** With a non-negative baseline and decay rate, the curve starts at most at
      the baseline, stays non-negative and never rises as time goes on. */
  lemma DecayBetween(b: real, d: real, t1: real, t2: real, exp: real -> real)
    requires ExpLike(exp)
    requires b >= 0.0 && d >= 0.0 && 0.0 <= t1 <= t2
    ensures 0.0 <= Decay(b, d, t2, exp) <= Decay(b, d, t1, exp) <= b
  {
    var x1, x2 := -d * t1, -d * t2;
    ExponentsOrdered(d, t1, t2);
    ExpBetween(exp, x1, x2);
    var e1, e2 := exp(x1), exp(x2);
    MulLeReal(b, e2, e1);
    MulLeReal(b, e1, 1.0);
    MulLeReal(b, 0.0, e2);
    assert Decay(b, d, t1, exp) == b * e1 && Decay(b, d, t2, exp) == b * e2;
  }

  /** A later time gives a more negative exponent, and no exponent is positive. */
  lemma ExponentsOrdered(d: real, t1: real, t2: real)
    requires d >= 0.0 && 0.0 <= t1 <= t2
    ensures -d * t2 <= -d * t1 <= 0.0
  {
    MulLeReal(d, t1, t2);
    MulLeReal(d, 0.0, t1);
  }

  /** The exponential of two non-positive exponents lies in (0, 1], in their order. */
  lemma ExpBetween(exp: real -> real, x1: real, x2: real)
    requires ExpLike(exp) && x2 <= x1 <= 0.0
    ensures 0.0 < exp(x2) <= exp(x1) <= 1.0
  {
    assert exp(x2) <= exp(x1);
    assert exp(x1) <= exp(0.0);
  }

  lemma MulLeReal(a: real, x: real, y: real)
    requires a >= 0.0 && x <= y
    ensures a * x <= a * y
  {
  }

  /** Two observations of the same symptom: the later one is predicted no
      higher than the earlier one, and neither above the symptom's baseline. */
  lemma PredictionDecays(baseline: seq<real>, decayRate: seq<real>, symptomIdx: seq<int>,
                         time: seq<real>, exp: real -> real, k1: nat, k2: nat)
    requires |symptomIdx| == |time|
    requires forall k | 0 <= k < |symptomIdx| :: 0 <= symptomIdx[k] < |baseline| && symptomIdx[k] < |decayRate|
    requires ExpLike(exp)
    requires k1 < |time| && k2 < |time| && symptomIdx[k1] == symptomIdx[k2]
    requires 0.0 <= time[k1] <= time[k2]
    requires baseline[symptomIdx[k1]] >= 0.0 && decayRate[symptomIdx[k1]] >= 0.0
    ensures var r := PredictedPrevalence(baseline, decayRate, symptomIdx, time, exp);
            0.0 <= r[k2] <= r[k1] <= baseline[symptomIdx[k1]]
  {
    var c := symptomIdx[k1];
    DecayBetween(baseline[c], decayRate[c], time[k1], time[k2], exp);
  }

  /** On the prevalence table, row `i` is observed at 6, 12 and 18 months under
      the code of its own symptom, so the model predicts
      `baseline * exp(-rate * 6)`, `... * 12` and `... * 18` for it, a
      non-increasing run that starts at most at the baseline. */
  lemma PreparedPrediction(t: Table, parse: string -> Option<real>, baseline: seq<real>,
                           decayRate: seq<real>, exp: real -> real, i: nat)
    requires WellFormed(t) && TextColumn(t, SymptomColumn)
    requires ValueColumns(t) == [Prevalence6m, Prevalence12m, Prevalence18m]
    requires i < t.rows
    requires |baseline| == |decayRate| == |Categories(t)|
    requires ExpLike(exp)
    requires forall c | 0 <= c < |baseline| :: baseline[c] >= 0.0 && decayRate[c] >= 0.0
    ensures var obs := PrepareData(t, parse);
            var r := PredictedPrevalence(baseline, decayRate, obs.symptomIdx, Months(obs.time), exp);
            var c := obs.symptomIdx[i];
            0 <= c < |Categories(t)| && Text(Categories(t)[c]) == t.data[SymptomColumn][i]
            && obs.symptomIdx[t.rows + i] == c && obs.symptomIdx[2 * t.rows + i] == c
            && r[i] == baseline[c] * exp(-decayRate[c] * 6.0)
            && r[t.rows + i] == baseline[c] * exp(-decayRate[c] * 12.0)
            && r[2 * t.rows + i] == baseline[c] * exp(-decayRate[c] * 18.0)
            && 0.0 <= r[2 * t.rows + i] <= r[t.rows + i] <= r[i] <= baseline[c]
  {
    var obs := PrepareData(t, parse);
    PreparedRow(t, parse, i);
    CategoriesCount(t);
    CodesFitModel(t, parse, baseline, decayRate);
    RowPrediction(baseline, decayRate, obs.symptomIdx, Months(obs.time), exp, i, t.rows);
    MonthlyDecay(baseline[obs.symptomIdx[i]], decayRate[obs.symptomIdx[i]], exp);
  }

  /** Three observations of one symptom at 6, 12 and 18 months, `n` positions apart. */
  lemma RowPrediction(baseline: seq<real>, decayRate: seq<real>, symptomIdx: seq<int>,
                      time: seq<real>, exp: real -> real, i: nat, n: nat)
    requires |symptomIdx| == |time| && 2 * n + i < |time|
    requires forall k | 0 <= k < |symptomIdx| :: 0 <= symptomIdx[k] < |baseline| && symptomIdx[k] < |decayRate|
    requires symptomIdx[n + i] == symptomIdx[i] && symptomIdx[2 * n + i] == symptomIdx[i]
    requires time[i] == 6.0 && time[n + i] == 12.0 && time[2 * n + i] == 18.0
    ensures var r := PredictedPrevalence(baseline, decayRate, symptomIdx, time, exp);
            var c := symptomIdx[i];
            && r[i] == Decay(baseline[c], decayRate[c], 6.0, exp)
            && r[n + i] == Decay(baseline[c], decayRate[c], 12.0, exp)
            && r[2 * n + i] == Decay(baseline[c], decayRate[c], 18.0, exp)
  {
    PredictionAt(baseline, decayRate, symptomIdx, time, exp, i, 6.0);
    PredictionAt(baseline, decayRate, symptomIdx, time, exp, n + i, 12.0);
    PredictionAt(baseline, decayRate, symptomIdx, time, exp, 2 * n + i, 18.0);
  }

  lemma PredictionAt(baseline: seq<real>, decayRate: seq<real>, symptomIdx: seq<int>,
                     time: seq<real>, exp: real -> real, k: nat, month: real)
    requires |symptomIdx| == |time| && k < |time| && time[k] == month
    requires forall k | 0 <= k < |symptomIdx| :: 0 <= symptomIdx[k] < |baseline| && symptomIdx[k] < |decayRate|
    ensures PredictedPrevalence(baseline, decayRate, symptomIdx, time, exp)[k]
            == Decay(baseline[symptomIdx[k]], decayRate[symptomIdx[k]], month, exp)
  {
  }

  /** The curve at 18 months is at most its value at 12, which is at most its
      value at 6, which is at most the baseline. */
  lemma MonthlyDecay(b: real, d: real, exp: real -> real)
    requires ExpLike(exp) && b >= 0.0 && d >= 0.0
    ensures 0.0 <= Decay(b, d, 18.0, exp) <= Decay(b, d, 12.0, exp) <= Decay(b, d, 6.0, exp) <= b
  {
    DecayBetween(b, d, 6.0, 12.0, exp);
    DecayBetween(b, d, 12.0, 18.0, exp);
  }

  /** Row `i` of the prevalence table is melted into positions `i`, `rows + i`
      and `2 rows + i`, at 6, 12 and 18 months, all under its symptom's code. */
  lemma PreparedRow(t: Table, parse: string -> Option<real>, i: nat)
    requires WellFormed(t) && TextColumn(t, SymptomColumn)
    requires ValueColumns(t) == [Prevalence6m, Prevalence12m, Prevalence18m]
    requires i < t.rows
    ensures var obs := PrepareData(t, parse);
            var c := obs.symptomIdx[i];
            && |obs.time| == |obs.symptomIdx| == 3 * t.rows
            && 0 <= c < |Categories(t)| && Text(Categories(t)[c]) == t.data[SymptomColumn][i]
            && obs.symptomIdx[t.rows + i] == c && obs.symptomIdx[2 * t.rows + i] == c
            && obs.time[i] == Num(6.0) && obs.time[t.rows + i] == Num(12.0) && obs.time[2 * t.rows + i] == Num(18.0)
  {
    PeriodTimes(t, parse, i);
    MeltedCell(t, parse, 0, i);
    assert MeltPos(0, i, t.rows) == i;
    SameCode(t, parse, 1, i);
    SameCode(t, parse, 2, i);
  }

  /** Every value column gives row `i` the same code. */
  lemma SameCode(t: Table, parse: string -> Option<real>, j: nat, i: nat)
    requires WellFormed(t) && TextColumn(t, SymptomColumn)
    requires j < |ValueColumns(t)| && i < t.rows
    ensures MeltPos(j, i, t.rows) < |PrepareData(t, parse).symptomIdx|
    ensures PrepareData(t, parse).symptomIdx[MeltPos(j, i, t.rows)] == PrepareData(t, parse).symptomIdx[i]
  {
    var idx := PrepareData(t, parse).symptomIdx;
    MeltedCell(t, parse, 0, i);
    MeltedCell(t, parse, j, i);
    assert MeltPos(0, i, t.rows) == i;
    CategoriesSpec(t);
    DistinctText(Categories(t), idx[i], idx[MeltPos(j, i, t.rows)]);
  }

  lemma DistinctText(cats: seq<string>, a: int, b: int)
    requires Distinct(cats) && 0 <= a < |cats| && 0 <= b < |cats|
    requires Text(cats[a]) == Text(cats[b])
    ensures a == b
  {
  }

  lemma {:induction false} DistinctCard<T>(s: seq<T>)
    requires Distinct(s)
    ensures |set x | x in s| == |s|
  {
    if |s| > 0 {
      var init := s[..|s| - 1];
      DistinctCard(init);
      assert (set x | x in s) == (set x | x in init) + {s[|s| - 1]};
      assert s[|s| - 1] !in init;
    }
  }

  /** `n_symptoms`, as the caller computes it (the number of distinct symptom
      values), equals the number of categories the codes range over. */
  lemma CategoriesCount(t: Table)
    requires WellFormed(t) && TextColumn(t, SymptomColumn)
    ensures |Categories(t)| == |Unique(t.data[SymptomColumn])|
  {
    var col := t.data[SymptomColumn];
    var cats := Categories(t);
    var names := SymptomNames(t);
    var u := Unique(col);
    CategoriesSpec(t);
    DistinctCard(cats);
    DistinctCard(u);
    assert (set x | x in u) == set s | s in cats :: Text(s) by {
      forall x | x in u ensures x in set s | s in cats :: Text(s) {
        var i :| 0 <= i < t.rows && col[i] == x;
        assert names[i] in cats;
      }
      forall s | s in cats ensures Text(s) in u {
        var i :| 0 <= i < t.rows && names[i] == s;
        assert col[i] == Text(s);
      }
    }
    TextImageCard(cats);
  }

  /** With `n_symptoms` the number of distinct symptoms, every symptom code that
      `prepare_data` produces indexes the per-symptom parameter vectors, so the
      decay curve is defined at every observation. */
  lemma CodesFitModel(t: Table, parse: string -> Option<real>, baseline: seq<real>, decayRate: seq<real>)
    requires WellFormed(t) && TextColumn(t, SymptomColumn)
    requires |baseline| == |decayRate| == |Unique(t.data[SymptomColumn])|
    ensures forall k | 0 <= k < |PrepareData(t, parse).symptomIdx| ::
              0 <= PrepareData(t, parse).symptomIdx[k] < |baseline|
  {
    CategoriesCount(t);
    var obs := PrepareData(t, parse);
    forall k | 0 <= k < |obs.symptomIdx| ensures 0 <= obs.symptomIdx[k] < |baseline| {
      CodeInRange(t, parse, k);
    }
  }

  lemma CodeInRange(t: Table, parse: string -> Option<real>, k: nat)
    requires WellFormed(t) && TextColumn(t, SymptomColumn)
    requires k < |PrepareData(t, parse).symptomIdx|
    ensures 0 <= PrepareData(t, parse).symptomIdx[k] < |Categories(t)|
  {
    var n := t.rows;
    DivBound(k, n, |ValueColumns(t)|);
    DivSplit(k, n);
    MeltedCell(t, parse, k / n, k % n);
  }

  lemma DivSplit(k: nat, n: nat)
    requires n > 0
    ensures MeltPos(k / n, k % n, n) == k
  {
  }

  lemma TextImageCard(cats: seq<string>)
    ensures |set s | s in cats :: Text(s)| == |set s | s in cats|
  {
    var a := set s | s in cats;
    assert (set s | s in cats :: Text(s)) == (set s | s in a :: Text(s));
    TextImageCardSet(a);
  }

  lemma {:induction false} TextImageCardSet(a: set<string>)
    ensures |set s | s in a :: Text(s)| == |a|
    decreases |a|
  {
    if a != {} {
      var s :| s in a;
      TextImageCardSet(a - {s});
      assert (set x | x in a :: Text(x)) == (set x | x in a - {s} :: Text(x)) + {Text(s)};
    }
  }
}
