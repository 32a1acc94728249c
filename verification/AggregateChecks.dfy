/** The verifier's aggregate checks: NULL and distinct counts per configured column, collapsed
    columns, and unchanged primary keys compared in order. */
module AggregateChecks {
  import opened Base
  import opened Policy
  import opened RegistryModel
  import opened Database
  import opened Cursor
  import opened VerifierModel
  import opened Scans
  import opened Graph
  import opened DataPlane
  import opened Integrity
  import opened Acceptance
  import opened Cardinality

  datatype ColumnStats = ColumnStats(
    sourceNulls: nat, targetNulls: nat, sourceDistinct: nat, targetDistinct: nat, available: bool)

  /** The statistics of one column; a column missing on either side counts as all zeros. */
  function StatsOf(schemas: Schemas, r: ColumnRef, from: Database, to: Database): ColumnStats {
    if ColumnFor(schemas.sourceColumns, r).None? || ColumnFor(schemas.targetColumns, r).None? then
      ColumnStats(0, 0, 0, 0, false)
    else
      ColumnStats(Nulls(Column(from, r)), Nulls(Column(to, r)),
                  |DistinctValues(Column(from, r))|, |DistinctValues(Column(to, r))|, true)
  }

  predicate StatsAgree(s: ColumnStats) {
    s.available && s.sourceNulls == s.targetNulls && s.sourceDistinct == s.targetDistinct
  }

  predicate Collapsed(s: ColumnStats) {
    s.available && s.sourceDistinct > 1 && s.targetDistinct <= 1
  }

  /** `check_configured_column_statistics`. */
  method CheckColumnStatistics(columns: seq<ConfiguredColumn>, schemas: Schemas, from: Database, to: Database)
    returns (stats: seq<ColumnStats>, passed: bool)
    ensures |stats| == |columns|
    ensures forall i :: 0 <= i < |stats| ==> stats[i] == StatsOf(schemas, columns[i].ref, from, to)
    ensures passed <==> forall i :: 0 <= i < |stats| ==> StatsAgree(stats[i])
  {
    hide Column, Nulls, DistinctValues, ColumnFor;
    stats := [];
    var unavailable, nullMismatches, distinctMismatches: nat := 0, 0, 0;
    for i := 0 to |columns|
      invariant |stats| == i
      invariant forall j :: 0 <= j < i ==> stats[j] == StatsOf(schemas, columns[j].ref, from, to)
      invariant unavailable == nullMismatches == distinctMismatches == 0 <==>
        forall j :: 0 <= j < i ==> StatsAgree(stats[j])
    {
      var r := columns[i].ref;
      if ColumnFor(schemas.sourceColumns, r).None? || ColumnFor(schemas.targetColumns, r).None? {
        unavailable := unavailable + 1;
        stats := stats + [ColumnStats(0, 0, 0, 0, false)];
        continue;
      }
      var sourceNulls, sourceDistinct := Nulls(Column(from, r)), |DistinctValues(Column(from, r))|;
      var targetNulls, targetDistinct := Nulls(Column(to, r)), |DistinctValues(Column(to, r))|;
      if sourceNulls != targetNulls { nullMismatches := nullMismatches + 1; }
      if sourceDistinct != targetDistinct { distinctMismatches := distinctMismatches + 1; }
      stats := stats + [ColumnStats(sourceNulls, targetNulls, sourceDistinct, targetDistinct, true)];
    }
    passed := unavailable == 0 && nullMismatches == 0 && distinctMismatches == 0;
  }

  /** `check_no_single_placeholder`. */
  method CheckNoSinglePlaceholder(stats: seq<ColumnStats>) returns (passed: bool)
    ensures passed <==> forall i :: 0 <= i < |stats| ==> stats[i].available && !Collapsed(stats[i])
  {
    var unavailable, collapsed: nat := 0, 0;
    for i := 0 to |stats|
      invariant unavailable == collapsed == 0 <==> forall j :: 0 <= j < i ==> stats[j].available && !Collapsed(stats[j])
    {
      if !stats[i].available { unavailable := unavailable + 1; }
      if Collapsed(stats[i]) { collapsed := collapsed + 1; }
    }
    passed := unavailable == 0 && collapsed == 0;
  }

  /** On an honest run a column's statistics agree exactly when normalisation merges no two of its
      values, and the column counts as collapsed exactly when all its several values are spellings
      of one normal form. */
  lemma HonestStatisticsExactly(x: Context, m: Mappings, schemas: Schemas, i: nat, r: ColumnRef)
    requires Ready(x, m) && PolicyOk(x) && i < |x.groups| && r in x.groups[i].group.columns
    requires ColumnFor(schemas.sourceColumns, r).Some? && ColumnFor(schemas.targetColumns, r).Some?
    requires InjectiveOn(x.crypto, x.groups[i].id, NormalForms(x.crypto, x.groups[i].group.settings, Column(x.db, r)))
    ensures var s, values := x.groups[i].group.settings, Column(x.db, r);
      var stats := StatsOf(schemas, r, x.db, ImageDatabase(x, m));
      && (StatsAgree(stats) <==> InjectiveFor(DistinctValues(values), v => NormalValue(x.crypto, s, v)))
      && (Collapsed(stats) <==> |DistinctValues(values)| > 1 && |NormalForms(x.crypto, s, values)| == 1)
  {
    hide Ready, PolicyOk, ImageDatabase, Column, InjectiveOn, Nulls, InjectiveFor, ColumnFor, DistinctValues,
      NormalForms;
    ColumnCardinality(x, m, i, r);
    var values, images := Column(x.db, r), Column(ImageDatabase(x, m), r);
    NullsSurvive(x, m, i, r, |values|);
    assert values[..|values|] == values && images[..|images|] == images;
    FormsExist(x, m, i, r);
  }

  lemma FormsExist(x: Context, m: Mappings, i: nat, r: ColumnRef)
    requires Ready(x, m) && i < |x.groups| && r in x.groups[i].group.columns
    ensures |DistinctValues(Column(x.db, r))| > 0 ==>
      |NormalForms(x.crypto, x.groups[i].group.settings, Column(x.db, r))| > 0
  {
    hide Ready, Column;
    var c, s, values := x.crypto, x.groups[i].group.settings, Column(x.db, r);
    if |DistinctValues(values)| > 0 {
      var v :| v in DistinctValues(values);
      NormalizedColumn(x, m, i, r, v);
      assert Normalize(c, s, v).value in NormalForms(c, s, values);
    }
  }

  // ----- unchanged primary keys -----

  /** Positions at which two ordered key lists differ, up to position `n`; a missing row differs. */
  function KeyMismatches(a: seq<seq<Value>>, b: seq<seq<Value>>, n: nat): nat {
    if n == 0 then 0
    else KeyMismatches(a, b, n - 1) + Indicator(At(a, n - 1) != At(b, n - 1))
  }

  lemma {:induction false} NoMismatches(a: seq<seq<Value>>, b: seq<seq<Value>>, n: nat)
    ensures KeyMismatches(a, b, n) == 0 <==> forall i: nat :: i < n ==> At(a, i) == At(b, i)
  {
    if n > 0 {
      hide At;
      NoMismatches(a, b, n - 1);
    }
  }

  lemma LengthsShow(a: seq<seq<Value>>, b: seq<seq<Value>>)
    ensures |a| != |b| ==> At(a, Min(|a|, |b|)) != At(b, Min(|a|, |b|))
  {
  }

  lemma KeysEqual(a: seq<seq<Value>>, b: seq<seq<Value>>)
    ensures KeyMismatches(a, b, Max(|a|, |b|)) == 0 <==> a == b
  {
    NoMismatches(a, b, Max(|a|, |b|));
    if forall i: nat :: i < Max(|a|, |b|) ==> At(a, i) == At(b, i) {
      LengthsShow(a, b);
      assert forall i: nat :: i < |a| ==> At(a, i) == Some(a[i]);
      assert forall i: nat :: i < |b| ==> At(b, i) == Some(b[i]);
    }
  }

  /** `_ordered_key_comparison`: two ordered key scans read in step to the end of the longer one. */
  method OrderedKeyComparison(sourceBatches: seq<seq<seq<Value>>>, targetBatches: seq<seq<seq<Value>>>, fetchSize: nat)
    returns (rowsChecked: nat, mismatches: nat)
    requires NonEmptyBatches(sourceBatches) && NonEmptyBatches(targetBatches)
    ensures var a, b := Flatten(sourceBatches), Flatten(targetBatches);
      && rowsChecked == Min(|a|, |b|)
      && mismatches == KeyMismatches(a, b, Max(|a|, |b|))
      && (mismatches == 0 <==> a == b)
  {
    hide Flatten, NonEmptyBatches, Drop;
    ghost var a, b := Flatten(sourceBatches), Flatten(targetBatches);
    var sourceRows := new RowStream<seq<Value>>(sourceBatches, fetchSize);
    var targetRows := new RowStream<seq<Value>>(targetBatches, fetchSize);
    rowsChecked, mismatches := 0, 0;
    ghost var n := 0;
    DropAt(a, 0);
    DropAt(b, 0);
    while true
      invariant n <= Max(|a|, |b|)
      invariant sourceRows.Valid() && sourceRows.Remaining() == Drop(a, n)
      invariant targetRows.Valid() && targetRows.Remaining() == Drop(b, n)
      invariant rowsChecked == Min(n, Min(|a|, |b|)) && mismatches == KeyMismatches(a, b, n)
      decreases Max(|a|, |b|) - n
    {
      DropAt(a, n);
      DropAt(b, n);
      var sourceRow := sourceRows.Next();
      var targetRow := targetRows.Next();
      if sourceRow.None? && targetRow.None? { break; }
      n := n + 1;
      if sourceRow.None? || targetRow.None? {
        mismatches := mismatches + 1;
        continue;
      }
      rowsChecked := rowsChecked + 1;
      if sourceRow.value != targetRow.value { mismatches := mismatches + 1; }
    }
    KeysEqual(a, b);
  }

  /** An unconfigured primary key compares without a mismatch on an honest run. */
  lemma UnchangedKeysAgree(x: Context, m: Mappings, key: KeyConstraint, le: KeyOrder, a: seq<seq<Value>>,
                           b: seq<seq<Value>>)
    requires !KeyIsConfigured(x.groups, key) && Antisymmetric(le) && KeysOrdered(le, a) && KeysOrdered(le, b)
    requires multiset(a) == multiset(RowKeys(x.db, key.table, key.columns))
    requires multiset(b) == multiset(RowKeys(ImageDatabase(x, m), key.table, key.columns))
    ensures a == b && KeyMismatches(a, b, Max(|a|, |b|)) == 0
  {
    hide KeyIsConfigured, Antisymmetric, KeysOrdered, KeyCells, ImageRow, ImageDatabase;
    ImageRowsAt(x, m, key.table);
    forall n | 0 <= n < |RowsOf(x.db, key.table)|
      ensures RowKeys(ImageDatabase(x, m), key.table, key.columns)[n] == RowKeys(x.db, key.table, key.columns)[n]
    {
      UnconfiguredKeyCells(x, m, key, RowsOf(x.db, key.table)[n]);
    }
    assert RowKeys(ImageDatabase(x, m), key.table, key.columns) == RowKeys(x.db, key.table, key.columns);
    OrderedKeysUnique(le, a, b);
    KeysEqual(a, b);
  }
}
