/** The verifier's structural checks: columns and types, row counts, declared keys and foreign keys. */
module ConstraintChecks {
  import opened Base
  import opened Policy
  import opened Database
  import opened VerifierModel
  import opened Verifier
  import opened Scans
  import opened Integrity
  import opened AggregateChecks
  import Cursor

  // ----- columns and row counts -----

  /** The dictionary of an inspected schema: the type and the length limit of each column. */
  function ColumnTypes(columns: seq<ColumnInfo>): map<ColumnRef, (string, Option<nat>)> {
    if columns == [] then map[]
    else
      var last := columns[|columns| - 1];
      ColumnTypes(columns[..|columns| - 1])[last.ref := (last.foldedType, last.maximum)]
  }

  /** `check_schema_columns_types`. */
  method CheckSchemaColumnsTypes(source: seq<ColumnInfo>, target: seq<ColumnInfo>) returns (passed: bool)
    ensures passed <==> ColumnTypes(source) == ColumnTypes(target)
  {
    hide ColumnTypes;
    var s, t := ColumnTypes(source), ColumnTypes(target);
    var common := s.Keys * t.Keys;
    var typeMismatches := set k | k in common && s[k].0 != t[k].0;
    var lengthMismatches := set k | k in common && s[k].1 != t[k].1;
    var missing, extra := s.Keys - t.Keys, t.Keys - s.Keys;
    passed := |missing| == 0 && |extra| == 0 && |typeMismatches| == 0 && |lengthMismatches| == 0;
    if passed {
      assert missing == {} && extra == {};
      assert s.Keys == t.Keys;
      forall k | k in s ensures s[k] == t[k] {
        assert k in common && k !in typeMismatches && k !in lengthMismatches;
      }
    }
  }

  function TablesOf(columns: seq<ColumnInfo>): set<TableRef> { set c | c in columns :: TableOf(c.ref) }

  /** The inspected relations include views: what a view counts is some function of the tables. */
  type Views = map<TableRef, Database -> nat>

  function RelationRows(views: Views, db: Database, t: TableRef): nat {
    if t in views then views[t](db) else |RowsOf(db, t)|
  }

  ghost predicate RowCountsEqual(views: Views, from: Database, to: Database, tables: set<TableRef>) {
    forall t :: t in tables ==> RelationRows(views, from, t) == RelationRows(views, to, t)
  }

  /** `check_table_row_counts`. */
  method CheckTableRowCounts(views: Views, from: Database, to: Database,
                             sourceTables: set<TableRef>, targetTables: set<TableRef>)
    returns (passed: bool)
    ensures passed <==> sourceTables == targetTables && RowCountsEqual(views, from, to, sourceTables)
  {
    hide RelationRows;
    var mismatches: nat := 0;
    var rest, counted := sourceTables + targetTables, {};
    while rest != {}
      invariant rest + counted == sourceTables + targetTables && rest !! counted
      invariant mismatches == 0 <==> forall t :: t in counted ==>
        t in sourceTables && t in targetTables && RelationRows(views, from, t) == RelationRows(views, to, t)
      decreases rest
    {
      var t :| t in rest;
      rest, counted := rest - {t}, counted + {t};
      var sourceExists, targetExists := t in sourceTables, t in targetTables;
      var sourceRows := if sourceExists then RelationRows(views, from, t) else 0;
      var targetRows := if targetExists then RelationRows(views, to, t) else 0;
      if !(sourceExists && targetExists && sourceRows == targetRows) { mismatches := mismatches + 1; }
    }
    passed := mismatches == 0;
  }

  // ----- foreign keys -----

  /** `check_foreign_keys`; definitions are compared as multisets of signatures. */
  method CheckForeignKeys(to: Database, source: seq<ForeignKey>, target: seq<ForeignKey>, unvalidated: nat)
    returns (passed: bool)
    requires forall i :: 0 <= i < |target| ==> WellFormed(target[i])
    ensures passed <==>
      && multiset(source) == multiset(target) && unvalidated == 0
      && forall i :: 0 <= i < |target| ==> Orphans(to, target[i]) == 0
  {
    hide Orphans, WellFormed;
    var missing, extra := multiset(source) - multiset(target), multiset(target) - multiset(source);
    var orphanRows: nat := 0;
    for i := 0 to |target|
      invariant orphanRows == 0 <==> forall j :: 0 <= j < i ==> Orphans(to, target[j]) == 0
    {
      orphanRows := orphanRows + Orphans(to, target[i]);
    }
    SameBags(multiset(source), multiset(target));
    passed := |missing| == 0 && |extra| == 0 && unvalidated == 0 && orphanRows == 0;
  }

  // ----- declared keys -----

  /** Keys without NULL that occur more than once: GROUP BY ... HAVING COUNT(*) > 1. */
  function DuplicateGroups(keys: seq<seq<Value>>): nat {
    |set k | k in keys && Null !in k && multiset(keys)[k] > 1|
  }

  function NullKeyRows(keys: seq<seq<Value>>, n: nat): nat
    requires n <= |keys|
  {
    if n == 0 then 0 else NullKeyRows(keys, n - 1) + Indicator(Null in keys[n - 1])
  }

  lemma DuplicatesMean(keys: seq<seq<Value>>)
    ensures DuplicateGroups(keys) == 0 <==> UniqueHolds(keys)
  {
    var repeated := set k | k in keys && Null !in k && multiset(keys)[k] > 1;
    if UniqueHolds(keys) {
      forall k | k in keys && Null !in k ensures k !in repeated {
        var i :| 0 <= i < |keys| && keys[i] == k;
        Once(keys, i);
      }
      assert repeated == {};
    } else {
      var i, j :| 0 <= i < j < |keys| && Null !in keys[i] && Null !in keys[j] && keys[i] == keys[j];
      TwiceInBag(keys, i, j);
      assert keys[i] in repeated;
    }
  }

  lemma Once(keys: seq<seq<Value>>, i: nat)
    requires UniqueHolds(keys) && i < |keys| && Null !in keys[i]
    ensures multiset(keys)[keys[i]] == 1
  {
    CutAt(keys, i);
    forall j | 0 <= j < i ensures keys[j] != keys[i] { }
    assert keys[i] !in keys[..i] && keys[i] !in keys[i + 1..];
    assert multiset(keys) == multiset(keys[..i]) + multiset{keys[i]} + multiset(keys[i + 1..]);
  }

  lemma {:induction false} NullRowsMean(keys: seq<seq<Value>>, n: nat)
    requires n <= |keys|
    ensures NullKeyRows(keys, n) == 0 <==> forall i :: 0 <= i < n ==> Null !in keys[i]
  {
    if n > 0 { NullRowsMean(keys, n - 1); }
  }

  /** The counts of one declared key. */
  function KeyViolations(db: Database, key: KeyConstraint): nat {
    var keys := RowKeys(db, key.table, key.columns);
    DuplicateGroups(keys) + if key.kind == PrimaryKey then NullKeyRows(keys, |keys|) else 0
  }

  lemma KeyViolationsMean(db: Database, key: KeyConstraint)
    ensures KeyViolations(db, key) == 0 <==> KeyHolds(db, key)
  {
    hide RowKeys, UniqueHolds, DuplicateGroups;
    var keys := RowKeys(db, key.table, key.columns);
    DuplicatesMean(keys);
    NullRowsMean(keys, |keys|);
  }

  /** The primary keys whose values are compared: declared alike on both sides and not replaced. */
  predicate KeyCompared(groups: seq<GroupEntry>, target: seq<KeyConstraint>, key: KeyConstraint) {
    key.kind == PrimaryKey && key in target && !KeyIsConfigured(groups, key)
  }

  ghost predicate ComparedKeysEqual(groups: seq<GroupEntry>, sourceKeys: seq<KeyConstraint>,
                                    targetKeys: seq<KeyConstraint>, source: ScanConnection, target: ScanConnection)
  {
    forall i :: 0 <= i < |sourceKeys| && KeyCompared(groups, targetKeys, sourceKeys[i]) ==>
      Flatten(source.keys(sourceKeys[i])) == Flatten(target.keys(sourceKeys[i]))
  }

  /** `check_primary_unique_constraints`. */
  method CheckPrimaryUniqueConstraints(groups: seq<GroupEntry>, sourceKeys: seq<KeyConstraint>,
                                       targetKeys: seq<KeyConstraint>, source: ScanConnection,
                                       target: ScanConnection, to: Database, fetchSize: nat)
    returns (passed: bool)
    requires CursorsFaithful(source) && CursorsFaithful(target)
    ensures passed <==>
      && multiset(sourceKeys) == multiset(targetKeys)
      && KeysHold(to, targetKeys)
      && ComparedKeysEqual(groups, sourceKeys, targetKeys, source, target)
  {
    hide KeyHolds, KeyViolations, KeyCompared, CursorsFaithful, Flatten;
    var missing, extra := multiset(sourceKeys) - multiset(targetKeys), multiset(targetKeys) - multiset(sourceKeys);
    SameBags(multiset(sourceKeys), multiset(targetKeys));
    var violations: nat := 0;
    for i := 0 to |targetKeys|
      invariant violations == 0 <==> forall j :: 0 <= j < i ==> KeyHolds(to, targetKeys[j])
    {
      KeyViolationsMean(to, targetKeys[i]);
      violations := violations + KeyViolations(to, targetKeys[i]);
    }
    var valueMismatches: nat := 0;
    for i := 0 to |sourceKeys|
      invariant valueMismatches == 0 <==> forall j :: 0 <= j < i && KeyCompared(groups, targetKeys, sourceKeys[j]) ==>
        Flatten(source.keys(sourceKeys[j])) == Flatten(target.keys(sourceKeys[j]))
    {
      if !KeyCompared(groups, targetKeys, sourceKeys[i]) { continue; }
      KeyScans(source, sourceKeys[i]);
      KeyScans(target, sourceKeys[i]);
      var rows, mismatches := OrderedKeyComparison(source.keys(sourceKeys[i]), target.keys(sourceKeys[i]), fetchSize);
      valueMismatches := valueMismatches + mismatches;
    }
    passed := |missing| == 0 && |extra| == 0 && violations == 0 && valueMismatches == 0;
  }

  lemma KeyScans(conn: ScanConnection, key: KeyConstraint)
    requires CursorsFaithful(conn)
    ensures Cursor.NonEmptyBatches(conn.keys(key))
  {
  }
}
