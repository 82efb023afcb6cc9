/** The DALY-weight wrangling step (wrangle_daly_adjustment.py): copies the
    merge name into `symptom` and the GHE 2019 disability weight into
    `daly_adjustment` on the frame it is given, then keeps only those two
    columns and the three severity flags. */
module WrangleDaly {
  import opened Seqs
  import opened Wrappers
  import opened Frames
  import opened Names

  /** The column holding the symptom name used to join with the prevalence data. */
  const NameMergeColumn := "name_merge_data"
  /** The column holding the GHE 2019 disability weight. */
  const GheColumn := "GHE2019"

  /** The columns of the wrangled table, in order. */
  const RequiredColumns := [SymptomColumn, DalyColumn, MildColumn, ModerateColumn, SevereColumn]

  const MissingColumnsMessage := "One or more required columns are missing from the data_daly DataFrame."

  /** The three severity flags are columns of `t`. */
  predicate HasSeverities(t: Table) {
    MildColumn in t.data && ModerateColumn in t.data && SevereColumn in t.data
  }

  /** The names of the wrangled table are pairwise different, and none of
      them is one of the two source columns. */
  lemma RequiredColumnsDistinct()
    ensures Distinct(RequiredColumns)
    ensures NameMergeColumn !in RequiredColumns && GheColumn !in RequiredColumns
  {
    assert SymptomColumn[0] == 's' && DalyColumn[0] == 'd' && MildColumn[0] == 'm' && SevereColumn[0] == 's';
    assert ModerateColumn[1] == 'o' && MildColumn[1] == 'i' && SymptomColumn[1] == 'y' && SevereColumn[1] == 'e';
    assert NameMergeColumn[0] == 'n' && GheColumn[0] == 'G';
  }

  /** The frame after the assignments that succeed, given the frame before
      them: untouched when `name_merge_data` is absent, with `symptom` only
      when `GHE2019` is absent, and with both new columns otherwise. */
  function Assigned(t: Table): (r: Table)
    requires WellFormed(t)
    ensures WellFormed(r) && r.rows == t.rows
  {
    if NameMergeColumn !in t.data then t
    else
      var t1 := WithColumn(t, SymptomColumn, t.data[NameMergeColumn]);
      if GheColumn !in t1.data then t1
      else WithColumn(t1, DalyColumn, t1.data[GheColumn])
  }

  /** What `wrangle_daly_data` returns or raises, given the frame it is passed. */
  function Wrangled(t: Table): (r: Result<Table>)
    requires WellFormed(t)
    ensures r.Ok? ==> WellFormed(r.value) && r.value.rows == t.rows && r.value.columns == RequiredColumns
  {
    if NameMergeColumn !in t.data then Err(KeyError(NameMergeColumn))
    else if GheColumn !in t.data then Err(KeyError(GheColumn))
    else
      var a := Assigned(t);
      if forall c | c in RequiredColumns :: c in a.data then
        RequiredColumnsDistinct();
        Ok(Select(a, RequiredColumns))
      else Err(ValueError(MissingColumnsMessage))
  }

  /** `wrangle_daly_data`: assigns the two columns on the frame it is given
      (which the caller sees afterwards, even when the call then raises) and
      returns the projection onto the required columns. */
  method WrangleDalyData(frame: DataFrame) returns (r: Result<Table>)
    requires frame.Valid()
    modifies frame
    ensures frame.Valid() && frame.Snapshot() == Assigned(old(frame.Snapshot()))
    ensures r == Wrangled(old(frame.Snapshot()))
  {
    if NameMergeColumn !in frame.data {
      return Err(KeyError(NameMergeColumn));
    }
    frame.Assign(SymptomColumn, frame.data[NameMergeColumn]);
    if GheColumn !in frame.data {
      return Err(KeyError(GheColumn));
    }
    frame.Assign(DalyColumn, frame.data[GheColumn]);
    var required := RequiredColumns;
    if !(forall c | c in required :: c in frame.data) {
      return Err(ValueError(MissingColumnsMessage));
    }
    RequiredColumnsDistinct();
    r := Ok(Select(frame.Snapshot(), required));
  }

  /** Once both source columns are present, a column is in the assigned
      frame exactly when it was in the input or is one of the two new names. */
  lemma AssignedHas(t: Table, c: string)
    requires WellFormed(t) && NameMergeColumn in t.data && GheColumn in t.data
    ensures c in Assigned(t).data <==> c in t.data || c == SymptomColumn || c == DalyColumn
  {
  }

  /** With both source columns present, the required columns are all there
      exactly when the three severity flags are. */
  lemma AssignedComplete(t: Table)
    requires WellFormed(t) && NameMergeColumn in t.data && GheColumn in t.data
    ensures (forall c | c in RequiredColumns :: c in Assigned(t).data) <==> HasSeverities(t)
  {
    RequiredColumnsDistinct();
    AssignedHas(t, SymptomColumn);
    AssignedHas(t, DalyColumn);
    AssignedHas(t, MildColumn);
    AssignedHas(t, ModerateColumn);
    AssignedHas(t, SevereColumn);
    assert MildColumn != SymptomColumn && MildColumn != DalyColumn;
    assert ModerateColumn != SymptomColumn && ModerateColumn != DalyColumn;
    assert SevereColumn != SymptomColumn && SevereColumn != DalyColumn;
  }

  /** The call fails exactly when one of the two source columns or one of the
      three severity flags is missing. */
  lemma WrangledFails(t: Table)
    requires WellFormed(t)
    ensures Wrangled(t).Err? <==> NameMergeColumn !in t.data || GheColumn !in t.data || !HasSeverities(t)
  {
    if NameMergeColumn in t.data && GheColumn in t.data {
      AssignedComplete(t);
    }
  }

  /** The error names the first problem met: the merge name, then the
      weight, then the flags. */
  lemma WrangledError(t: Table)
    requires WellFormed(t)
    ensures NameMergeColumn !in t.data ==> Wrangled(t) == Err(KeyError(NameMergeColumn))
    ensures NameMergeColumn in t.data && GheColumn !in t.data ==> Wrangled(t) == Err(KeyError(GheColumn))
    ensures NameMergeColumn in t.data && GheColumn in t.data && !HasSeverities(t) ==>
              Wrangled(t) == Err(ValueError(MissingColumnsMessage))
  {
    if NameMergeColumn in t.data && GheColumn in t.data {
      AssignedComplete(t);
    }
  }

  /** Row by row, the wrangled table holds the merge name as `symptom`, the
      GHE 2019 weight as `daly_adjustment` and the severity flags as they were. */
  lemma WrangledCells(t: Table, i: nat)
    requires WellFormed(t) && Wrangled(t).Ok? && i < t.rows
    ensures NameMergeColumn in t.data && GheColumn in t.data && HasSeverities(t)
    ensures Wrangled(t).value.data[SymptomColumn][i] == t.data[NameMergeColumn][i]
    ensures Wrangled(t).value.data[DalyColumn][i] == t.data[GheColumn][i]
    ensures Wrangled(t).value.data[MildColumn][i] == t.data[MildColumn][i]
    ensures Wrangled(t).value.data[ModerateColumn][i] == t.data[ModerateColumn][i]
    ensures Wrangled(t).value.data[SevereColumn][i] == t.data[SevereColumn][i]
  {
    WrangledFails(t);
    RequiredColumnsDistinct();
  }

  /** Once both source columns are present, the caller's frame gains exactly
      `symptom` and `daly_adjustment` (replacing them if they were there) and
      keeps every other column as it was. */
  lemma AssignedColumns(t: Table)
    requires WellFormed(t) && NameMergeColumn in t.data && GheColumn in t.data
    ensures Assigned(t).data.Keys == t.data.Keys + {SymptomColumn, DalyColumn}
    ensures Assigned(t).data[SymptomColumn] == t.data[NameMergeColumn]
    ensures Assigned(t).data[DalyColumn] == t.data[GheColumn]
    ensures forall c | c in t.data && c != SymptomColumn && c != DalyColumn :: Assigned(t).data[c] == t.data[c]
  {
    RequiredColumnsDistinct();
  }

  /** A failure on `GHE2019` still leaves `symptom` assigned on the caller's frame. */
  lemma FailedAssignmentPersists(t: Table)
    requires WellFormed(t) && NameMergeColumn in t.data && GheColumn !in t.data
    ensures Wrangled(t).Err?
    ensures SymptomColumn in Assigned(t).data && Assigned(t).data[SymptomColumn] == t.data[NameMergeColumn]
    ensures DalyColumn in Assigned(t).data <==> DalyColumn in t.data
  {
    RequiredColumnsDistinct();
  }
}
