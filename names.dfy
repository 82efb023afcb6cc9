/** Column names shared by the stages of the pipeline. */
module Names {
  import opened Dicts

  const SymptomColumn := "symptom"
  const Prevalence6m := "prevalence_diff_6m"
  const Prevalence12m := "prevalence_diff_12m"
  const Prevalence18m := "prevalence_diff_18m"

  /** The three prevalence-difference columns, in time order. */
  const PeriodColumns := [Prevalence6m, Prevalence12m, Prevalence18m]

  const DalyColumn := "daly_adjustment"
  const MildColumn := "mild"
  const ModerateColumn := "moderate"
  const SevereColumn := "severe"

  /** The three severity flags, in the order the code lists them. */
  const SeverityColumns := [MildColumn, ModerateColumn, SevereColumn]

  const Burden6m := "extra_burden_6m"
  const Burden12m := "extra_burden_12m"
  const Burden18m := "extra_burden_18m"

  /** The period-burden columns, in time order. */
  const BurdenColumns := [Burden6m, Burden12m, Burden18m]

  /** The severity shares hold a value for each of the three severities. */
  predicate HasShares(props: Dict<string, real>) {
    MildColumn in props.items && ModerateColumn in props.items && SevereColumn in props.items
  }

  /** The first of the three severities the code looks up that the dictionary lacks. */
  function MissingShare(props: Dict<string, real>): (s: string)
    requires !HasShares(props)
    ensures s !in props.items && s in SeverityColumns
  {
    if MildColumn !in props.items then MildColumn
    else if ModerateColumn !in props.items then ModerateColumn
    else SevereColumn
  }
}
