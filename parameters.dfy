/** The model parameters, their descriptions and the tables that present them
    (`utils/parameters.py`). */
module Parameters {
  import opened Seqs
  import opened Dicts

  /** A parameter value: a number, a string, a dictionary, or an object such
      as a distribution, seen through the attributes it has. */
  datatype Value =
    | Int(i: int)
    | Float(x: real)
    | Str(s: string)
    | DictV(d: Dict<Value, Value>)
    | Obj(attrs: map<string, Value>)

  /** What `format_value` returns: a string, or a dictionary of formatted values. */
  datatype Formatted = FStr(s: string) | FDict(d: Dict<Value, Formatted>)

  type Params = Dict<string, Value>
  type Descriptions = Dict<string, string>

  /** A row of `merge_and_describe_parameters`. */
  datatype ParamRow = ParamRow(parameter: string, description: string, value: Value)

  /** A row of `generate_comparison_table`. */
  datatype ComparisonRow = ComparisonRow(parameter: string, description: string, mainline: Formatted, pessimistic: Formatted)

  const NoDescription := "No description available"
  const NotAvailable := Str("N/A")

  // ---------------------------------------------------------------- the parameter sets

  const ParamDescriptions: Descriptions := Dict(
    ["size", "baseline_risk", "infection_rate", "strain_reduction_factor", "total_strains",
     "current_strain", "strain_decay", "initial_vaccination_distribution", "vaccination_reduction",
     "vaccination_interval", "vaccination_effectiveness_halflife", "vaccination_hazard_rate", "aor_value"],
    map[
      "size" := "Total population size",
      "baseline_risk" := "Baseline risk of long COVID",
      "infection_rate" := "Weekly infection rate",
      "strain_reduction_factor" := "Reduction factor for new strains",
      "total_strains" := "Number of distinct strains",
      "current_strain" := "Current strain",
      "strain_decay" := "Half-life of strain relative prevalence",
      "initial_vaccination_distribution" := "Initial distribution of number of vaccinations per person",
      "vaccination_reduction" := "Peak effectiveness of vaccination (against Long COVID, conditional on COVID)",
      "vaccination_interval" := "Minimum interval between vaccinations",
      "vaccination_effectiveness_halflife" := "Half-life of vaccination effectiveness",
      "vaccination_hazard_rate" := "Hazard rate of receiving vaccination",
      "aor_value" := "AOR value"])

  /** A normal distribution object, with its `mean` and `sd` attributes. */
  function Normal(mean: real, sd: real): Value {
    Obj(map["mean" := Float(mean), "sd" := Float(sd)])
  }

  /** A beta distribution object, with its `a` and `b` attributes. */
  function Beta(a: real, b: real): Value {
    Obj(map["a" := Float(a), "b" := Float(b)])
  }

  const VaccinationShares: Dict<Value, Value> := Dict(
    [Int(0), Int(1), Int(2), Int(3), Int(4)],
    map[Int(0) := Float(0.2), Int(1) := Float(0.2), Int(2) := Float(0.3), Int(3) := Float(0.2), Int(4) := Float(0.1)])

  const DefaultParams: Params := Dict(
    ["size", "baseline_risk", "infection_rate", "strain_reduction_factor", "total_strains",
     "current_strain", "strain_decay", "initial_vaccination_distribution", "vaccination_reduction",
     "vaccination_interval", "vaccination_effectiveness_halflife", "vaccination_hazard_rate", "aor_value"],
    map[
      "size" := Int(330000),
      "baseline_risk" := Normal(0.15, 0.01),
      "infection_rate" := Normal((19.0 / 330.0) / 52.0, 0.0001),
      "strain_reduction_factor" := Normal(0.6, 0.1),
      "total_strains" := Int(10),
      "current_strain" := Int(1),
      "strain_decay" := Int(50),
      "initial_vaccination_distribution" := DictV(VaccinationShares),
      "vaccination_reduction" := Beta(100.0 * 0.25, 100.0 * (1.0 - 0.25)),
      "vaccination_interval" := Int(180),
      "vaccination_effectiveness_halflife" := Normal(235.0, 30.0),
      "vaccination_hazard_rate" := Beta(1000.0 * 0.01, 1000.0 * (1.0 - 0.01)),
      "aor_value" := Beta(100.0 * 0.72, 100.0 * (1.0 - 0.72))])

  const PessimisticParams: Params := Dict(["infection_rate"], map["infection_rate" := Float((25.0 / 330.0) / 52.0)])

  // ---------------------------------------------------------------- merge_and_describe_parameters

  /** The row of `merge_and_describe_parameters` for parameter `p` of the merged dictionary. */
  function DescribedRow(merged: Params, descriptions: Descriptions, p: string): ParamRow
    requires p in merged.items
  {
    ParamRow(p, Get(descriptions, p, NoDescription), merged.items[p])
  }

  /** The rows for all parameters of the merged dictionary, in its order. */
  function DescribedRows(merged: Params, descriptions: Descriptions): (rows: seq<ParamRow>)
    requires ValidDict(merged)
    ensures |rows| == |merged.keys|
    ensures forall i | 0 <= i < |rows| :: rows[i] == DescribedRow(merged, descriptions, merged.keys[i])
  {
    seq(|merged.keys|, i requires 0 <= i < |merged.keys| => DescribedRow(merged, descriptions, merged.keys[i]))
  }

  /** `merge_and_describe_parameters`: one row per parameter of `{**defaults, **scenario}`. */
  method MergeAndDescribe(defaults: Params, scenario: Params, descriptions: Descriptions) returns (rows: seq<ParamRow>)
    requires ValidDict(defaults) && ValidDict(scenario)
    ensures ValidDict(Update(defaults, scenario)) && rows == DescribedRows(Update(defaults, scenario), descriptions)
  {
    var merged := Update(defaults, scenario);
    assert ValidDict(merged) by { UpdateSpec(defaults, scenario); }
    rows := [];
    var i := 0;
    while i < |merged.keys|
      invariant 0 <= i <= |merged.keys| && |rows| == i
      invariant forall k | 0 <= k < i :: rows[k] == DescribedRow(merged, descriptions, merged.keys[k])
    {
      var param := merged.keys[i];
      var description := Get(descriptions, param, NoDescription);
      rows := rows + [ParamRow(param, description, merged.items[param])];
      i := i + 1;
    }
  }

  /** The described rows list each parameter of either dictionary, once. */
  lemma {:induction false} DescribedParameters(defaults: Params, scenario: Params, descriptions: Descriptions)
    requires ValidDict(defaults) && ValidDict(scenario)
    ensures ValidDict(Update(defaults, scenario))
    ensures var rows := DescribedRows(Update(defaults, scenario), descriptions);
            && (forall i, j | 0 <= i < j < |rows| :: rows[i].parameter != rows[j].parameter)
            && (forall p :: (exists i | 0 <= i < |rows| :: rows[i].parameter == p) <==> p in defaults.items || p in scenario.items)
  {
    var merged := Update(defaults, scenario);
    assert ValidDict(merged) && forall p :: p in merged.items <==> p in defaults.items || p in scenario.items by {
      UpdateSpec(defaults, scenario);
    }
    var rows := DescribedRows(merged, descriptions);
    forall p ensures (exists i | 0 <= i < |rows| :: rows[i].parameter == p) <==> p in merged.items {
      if p in merged.keys {
        var k :| 0 <= k < |merged.keys| && merged.keys[k] == p;
        assert rows[k].parameter == p;
      }
    }
  }

  /** The defaults' parameters come first, in their order. */
  lemma {:induction false} DescribedDefaultsFirst(defaults: Params, scenario: Params, descriptions: Descriptions)
    requires ValidDict(defaults) && ValidDict(scenario)
    ensures ValidDict(Update(defaults, scenario))
    ensures var rows := DescribedRows(Update(defaults, scenario), descriptions);
            forall i | 0 <= i < |defaults.keys| :: rows[i].parameter == defaults.keys[i]
  {
    var merged := Update(defaults, scenario);
    assert ValidDict(merged) && merged.keys[..|defaults.keys|] == defaults.keys by {
      UpdateSpec(defaults, scenario);
    }
    forall i | 0 <= i < |defaults.keys| ensures merged.keys[i] == defaults.keys[i] {
      assert merged.keys[..|defaults.keys|][i] == merged.keys[i];
    }
  }

  /** In the described rows a scenario value overrides the default, and a
      parameter without a description gets the placeholder. */
  lemma {:induction false} DescribedValues(defaults: Params, scenario: Params, descriptions: Descriptions)
    requires ValidDict(defaults) && ValidDict(scenario)
    ensures ValidDict(Update(defaults, scenario))
    ensures var rows := DescribedRows(Update(defaults, scenario), descriptions);
            && (forall i | 0 <= i < |rows| ::
                  rows[i].value == if rows[i].parameter in scenario.items then scenario.items[rows[i].parameter]
                                   else defaults.items[rows[i].parameter])
            && (forall i | 0 <= i < |rows| ::
                  rows[i].description == if rows[i].parameter in descriptions.items then descriptions.items[rows[i].parameter]
                                         else NoDescription)
  {
    UpdateSpec(defaults, scenario);
  }

  // ---------------------------------------------------------------- format_value

  /** `is_number`: an `int` or a `float`. */
  predicate IsNumber(v: Value) {
    v.Int? || v.Float?
  }

  function Number(v: Value): real
    requires IsNumber(v)
  {
    if v.Int? then v.i as real else v.x
  }

  /** The object has attribute `name` and it holds a number. */
  predicate HasNumber(v: Value, name: string) {
    v.Obj? && name in v.attrs && IsNumber(v.attrs[name])
  }

  /** `format_distribution`: `Normal(mean, sd)` when both attributes are
      numbers, else `Beta(a, b)` when those are, else `Distribution`; a
      missing attribute or a non-number moves on to the next case.
      `fmt` is the `.3g` number format. */
  function FormatDistribution(v: Value, fmt: real -> string): (r: string)
    ensures !(HasNumber(v, "mean") && HasNumber(v, "sd")) && !(HasNumber(v, "a") && HasNumber(v, "b")) ==> r == "Distribution"
  {
    if HasNumber(v, "mean") && HasNumber(v, "sd") then
      "Normal(" + fmt(Number(v.attrs["mean"])) + ", " + fmt(Number(v.attrs["sd"])) + ")"
    else if HasNumber(v, "a") && HasNumber(v, "b") then
      "Beta(" + fmt(Number(v.attrs["a"])) + ", " + fmt(Number(v.attrs["b"])) + ")"
    else "Distribution"
  }

  /** The three cases of `format_distribution` are told apart by the result's head. */
  lemma DistributionKinds(v: Value, fmt: real -> string)
    ensures var r := FormatDistribution(v, fmt);
            && (|r| >= 7 && r[..7] == "Normal(" <==> HasNumber(v, "mean") && HasNumber(v, "sd"))
            && (|r| >= 5 && r[..5] == "Beta(" <==> !(HasNumber(v, "mean") && HasNumber(v, "sd")) && HasNumber(v, "a") && HasNumber(v, "b"))
            && (r == "Distribution" <==> !(HasNumber(v, "mean") && HasNumber(v, "sd")) && !(HasNumber(v, "a") && HasNumber(v, "b")))
  {
    var r := FormatDistribution(v, fmt);
    if HasNumber(v, "mean") && HasNumber(v, "sd") {
      assert r[..7] == "Normal(";
      assert r[0] == 'N' && "Beta("[0] == 'B' && "Distribution"[0] == 'D';
    } else if HasNumber(v, "a") && HasNumber(v, "b") {
      assert r[..5] == "Beta(";
      assert r[0] == 'B' && "Normal("[0] == 'N' && "Distribution"[0] == 'D';
    } else {
      assert r == "Distribution";
      assert r[0] == 'D' && "Normal("[0] == 'N' && "Beta("[0] == 'B';
    }
  }

  /** `format_value`: numbers through `fmt`, dictionaries value by value,
      anything else as a distribution. */
  function FormatValue(v: Value, fmt: real -> string): (r: Formatted)
    ensures IsNumber(v) ==> r == FStr(fmt(Number(v)))
    ensures r.FDict? <==> v.DictV?
    ensures !IsNumber(v) && !v.DictV? ==> r == FStr(FormatDistribution(v, fmt))
  {
    match v
    case Int(_) => FStr(fmt(Number(v)))
    case Float(_) => FStr(fmt(Number(v)))
    case DictV(d) => FDict(Dict(d.keys, map k | k in d.items :: FormatValue(d.items[k], fmt)))
    case _ => FStr(FormatDistribution(v, fmt))
  }

  /** A formatted value has the shape of the value: a string where the value
      is not a dictionary, and a dictionary with the same keys, in the same
      order, at every level. */
  ghost predicate SameShape(v: Value, r: Formatted) {
    match v
    case DictV(d) =>
      && r.FDict? && r.d.keys == d.keys
      && (forall k :: k in r.d.items <==> k in d.items)
      && (forall k | k in d.items :: SameShape(d.items[k], r.d.items[k]))
    case _ => r.FStr?
  }

  lemma {:induction false} FormatValueKeepsShape(v: Value, fmt: real -> string)
    ensures SameShape(v, FormatValue(v, fmt))
  {
    if v.DictV? {
      var r := FormatValue(v, fmt);
      forall k | k in v.d.items ensures SameShape(v.d.items[k], r.d.items[k]) {
        FormatValueKeepsShape(v.d.items[k], fmt);
      }
    }
  }

  /** Formatting a dictionary formats each of its values. */
  lemma FormatValueOfDict(d: Dict<Value, Value>, fmt: real -> string, k: Value)
    requires k in d.items
    ensures var r := FormatValue(DictV(d), fmt);
            k in r.d.items && r.d.items[k] == FormatValue(d.items[k], fmt)
  {
  }

  /** The fallback `'N/A'` is neither a number nor a dictionary and has no
      attributes, so it shows as `Distribution`. */
  lemma NotAvailableShowsAsDistribution(fmt: real -> string)
    ensures FormatValue(NotAvailable, fmt) == FStr("Distribution")
  {
  }

  // ---------------------------------------------------------------- generate_comparison_table

  /** The row of the comparison table for a described parameter: the
      default value, and the scenario value falling back to the default and
      then to `'N/A'`. */
  function ComparisonRowOf(defaults: Params, scenario: Params, param: string, description: string, fmt: real -> string): ComparisonRow {
    ComparisonRow(param, description,
                  FormatValue(Get(defaults, param, NotAvailable), fmt),
                  FormatValue(Get(scenario, param, Get(defaults, param, NotAvailable)), fmt))
  }

  /** The pessimistic cell takes the scenario value, else the default, else
      shows `'N/A'` as `Distribution`; the mainline cell ignores the scenario. */
  lemma ComparisonFallback(defaults: Params, scenario: Params, param: string, description: string, fmt: real -> string)
    ensures var row := ComparisonRowOf(defaults, scenario, param, description, fmt);
            && row.pessimistic == (if param in scenario.items then FormatValue(scenario.items[param], fmt)
                                   else if param in defaults.items then FormatValue(defaults.items[param], fmt)
                                   else FStr("Distribution"))
            && row.mainline == (if param in defaults.items then FormatValue(defaults.items[param], fmt)
                                else FStr("Distribution"))
            && (param !in scenario.items ==> row.pessimistic == row.mainline)
  {
    NotAvailableShowsAsDistribution(fmt);
  }

  /** `generate_comparison_table`: one row per entry of the descriptions, in
      their order; parameters without a description do not appear. */
  method GenerateComparisonTable(defaults: Params, scenario: Params, descriptions: Descriptions, fmt: real -> string)
    returns (rows: seq<ComparisonRow>)
    requires ValidDict(descriptions)
    ensures |rows| == |descriptions.keys|
    ensures forall i | 0 <= i < |rows| ::
              rows[i] == ComparisonRowOf(defaults, scenario, descriptions.keys[i], descriptions.items[descriptions.keys[i]], fmt)
    ensures forall p :: (exists i | 0 <= i < |rows| :: rows[i].parameter == p) <==> p in descriptions.items
  {
    rows := [];
    var i := 0;
    while i < |descriptions.keys|
      invariant 0 <= i <= |descriptions.keys| && |rows| == i
      invariant forall k | 0 <= k < i ::
                  rows[k] == ComparisonRowOf(defaults, scenario, descriptions.keys[k], descriptions.items[descriptions.keys[k]], fmt)
    {
      var param := descriptions.keys[i];
      var description := descriptions.items[param];
      var mainline := FormatValue(Get(defaults, param, NotAvailable), fmt);
      var pessimistic := FormatValue(Get(scenario, param, Get(defaults, param, NotAvailable)), fmt);
      rows := rows + [ComparisonRow(param, description, mainline, pessimistic)];
      i := i + 1;
    }
    forall p ensures (exists i | 0 <= i < |rows| :: rows[i].parameter == p) <==> p in descriptions.items {
      if p in descriptions.items {
        var k :| 0 <= k < |descriptions.keys| && descriptions.keys[k] == p;
        assert rows[k].parameter == p;
      }
    }
  }

  /** The shipped dictionaries are well formed and every described parameter has a default. */
  lemma ShippedDictionaries()
    ensures ValidDict(ParamDescriptions) && ValidDict(DefaultParams) && ValidDict(PessimisticParams)
    ensures forall p | p in ParamDescriptions.items :: p in DefaultParams.items
  {
    ShippedNamesDistinct();
    assert ValidDict(ParamDescriptions);
    assert ValidDict(DefaultParams);
  }

  lemma ShippedNamesDistinct()
    ensures Distinct(ParamDescriptions.keys) && DefaultParams.keys == ParamDescriptions.keys
  {
  }

  /** The pessimistic scenario raises the weekly infection rate; the mainline
      shows the default normal distribution. */
  lemma ShippedInfectionRate(fmt: real -> string)
    ensures ComparisonRowOf(DefaultParams, PessimisticParams, "infection_rate", "Weekly infection rate", fmt).pessimistic
              == FStr(fmt((25.0 / 330.0) / 52.0))
    ensures ComparisonRowOf(DefaultParams, PessimisticParams, "infection_rate", "Weekly infection rate", fmt).mainline
              == FStr("Normal(" + fmt((19.0 / 330.0) / 52.0) + ", " + fmt(0.0001) + ")")
  {
    var rate := DefaultParams.items["infection_rate"];
    assert rate == Normal((19.0 / 330.0) / 52.0, 0.0001);
  }

  /** Parameters the scenario does not override show the default in both columns. */
  lemma ShippedAdjustedOddsRatio(fmt: real -> string)
    ensures ComparisonRowOf(DefaultParams, PessimisticParams, "aor_value", "AOR value", fmt).pessimistic
              == FStr("Beta(" + fmt(72.0) + ", " + fmt(28.0) + ")")
  {
    assert "aor_value" !in PessimisticParams.items;
    var aor := DefaultParams.items["aor_value"];
    assert aor == Beta(72.0, 28.0);
    assert !HasNumber(aor, "mean");
  }
}
