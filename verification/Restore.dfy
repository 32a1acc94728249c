/** Dump and restore with one mapper process per configured table: the target is the image of the
    source with every declared constraint in force, or the restore fails. */
module Restore {
  import opened Base
  import opened Policy
  import opened RegistryModel
  import opened Registry
  import opened Database
  import opened VerifierModel
  import opened Mapper
  import opened Graph
  import opened DataPlane
  import opened ConfigBuilder
  import opened Integrity
  import opened Scans

  function EncodeRows(rows: seq<Row>): seq<Line> {
    seq(|rows|, i requires 0 <= i < |rows| => Json(EncodeRow(rows[i])))
  }

  function DecodeRows(output: seq<Fields>): seq<Row> {
    seq(|output|, i requires 0 <= i < |output| => DecodeRow(output[i]))
  }

  /** Some row of the table cannot be rewritten. */
  ghost predicate HasUnwritable(x: Context, m: Mappings, t: TableRef, rows: seq<Row>) {
    && Bound(SettingsMap(x.groups), Bindings(x.groups, t))
    && exists n :: 0 <= n < |rows| && RowRefused(x, m, t, rows[n])
  }

  ghost predicate RowRefused(x: Context, m: Mappings, t: TableRef, row: Row)
    requires Bound(SettingsMap(x.groups), Bindings(x.groups, t))
  {
    exists i, fault :: Refused(x.crypto, m, SettingsMap(x.groups), Bindings(x.groups, t), EncodeRow(row), i, fault)
  }

  /** `rows` rewritten one by one. */
  ghost predicate AllRewritten(x: Context, m: Mappings, t: TableRef, rows: seq<Row>, restored: seq<Row>) {
    && Bound(SettingsMap(x.groups), Bindings(x.groups, t)) && |restored| == |rows|
    && forall n :: 0 <= n < |rows| ==> RewrittenTo(x, m, t, rows[n], restored[n])
  }

  ghost predicate RewrittenTo(x: Context, m: Mappings, t: TableRef, row: Row, restored: Row)
    requires Bound(SettingsMap(x.groups), Bindings(x.groups, t))
  {
    exists output :: restored == DecodeRow(output)
      && Transformed(x.crypto, m, SettingsMap(x.groups), Bindings(x.groups, t), EncodeRow(row), output)
  }

  /** The registry as each lookup finds it when no other process writes. */
  function Frozen(m: Mappings, lines: seq<Line>, n: nat): (views: seq<seq<Mappings>>)
    ensures |views| == |lines| && forall i :: 0 <= i < |views| ==> |views[i]| == n
    ensures Unchanging(m, views)
  {
    seq(|lines|, _ => seq(n, _ => m))
  }

  lemma FrozenGrows(m: Mappings, lines: seq<Line>, n: nat)
    requires n >= 1
    ensures GrowingStream(m, n, lines, Frozen(m, lines, n))
  {
    hide Grows;
    GrowsReflexive(m);
  }

  lemma RefusedInView(x: Context, m: Mappings, t: TableRef, row: Row, views: seq<Mappings>)
    requires Bound(SettingsMap(x.groups), Bindings(x.groups, t)) && forall j :: 0 <= j < |views| ==> views[j] == m
    requires Unwritable(x.crypto, views, SettingsMap(x.groups), Bindings(x.groups, t), Json(EncodeRow(row)))
    ensures RowRefused(x, m, t, row)
  {
    hide Bound, Bindings, SettingsMap, Refused, EncodeRow;
    var i: nat, fault :| i < |views|
      && Refused(x.crypto, views[i], SettingsMap(x.groups), Bindings(x.groups, t), EncodeRow(row), i, fault);
  }

  /** The stream of one configured table through its mapper process. */
  method MapTable(x: Context, config: MapperConfig, t: TableRef, rows: seq<Row>, registry: MappingRegistry)
    returns (ok: bool, restored: seq<Row>)
    requires PolicyOk(x) && ConfigAccepted(config) && Configures(config, x.groups) && Bindings(x.groups, t) != []
    modifies registry`mappings
    ensures registry.mappings == old(registry.mappings)
    ensures if ok then AllRewritten(x, registry.mappings, t, rows, restored)
      else HasUnwritable(x, registry.mappings, t, rows)
  {
    hide Bindings, SettingsMap, Bound, Transformed, Refused, EncodeRow, DecodeRow, PolicyOk, ConfigAccepted,
      Configures, GrowingStream, Unwritable, RowRefused;
    ghost var m := registry.mappings;
    BindingsBound(x, t);
    var opening := OpenTableMapper(config, x.groups, t, x.crypto, registry);
    var mapper := opening.value;
    var lines := EncodeRows(rows);
    var views := Frozen(registry.mappings, lines, |mapper.columns|);
    FrozenGrows(m, lines, |mapper.columns|);
    var status, output := mapper.Run(lines, views);
    assert registry.mappings == m;
    restored := DecodeRows(output);
    ok := status == 0;
    forall n | 0 <= n < |output| ensures RewrittenTo(x, m, t, rows[n], restored[n]) {
      assert Rewritten(x.crypto, views[n][|mapper.columns| - 1], SettingsMap(x.groups), Bindings(x.groups, t),
                       lines[n], output[n]);
    }
    if !ok {
      RefusedInView(x, m, t, rows[|output|], views[|output|]);
    }
  }

  lemma HonestTable(x: Context, m: Mappings, t: TableRef)
    requires Ready(x, m) && PolicyOk(x) && RowsComplete(x) && t in x.db
    ensures !HasUnwritable(x, m, t, x.db[t])
    ensures forall restored :: AllRewritten(x, m, t, x.db[t], restored) ==> restored == ImageRows(x, m, t, x.db[t])
  {
    hide Ready, PolicyOk, RowsComplete, Bindings, SettingsMap, Bound, Refused, Transformed, EncodeRow, DecodeRow,
      ImageRow;
    var rows := x.db[t];
    forall n | 0 <= n < |rows|
      ensures Bound(SettingsMap(x.groups), Bindings(x.groups, t))
      ensures !RowRefused(x, m, t, rows[n])
      ensures forall row :: RewrittenTo(x, m, t, rows[n], row) ==> row == ImageRow(x, m, t, rows[n])
    {
      MapperNeverFails(x, m, t, n);
    }
    forall restored | AllRewritten(x, m, t, rows, restored) ensures restored == ImageRows(x, m, t, rows) {
      forall n | 0 <= n < |rows| ensures restored[n] == ImageRows(x, m, t, rows)[n] {
        assert RewrittenTo(x, m, t, rows[n], restored[n]);
      }
    }
  }

  lemma UntouchedTable(x: Context, m: Mappings, t: TableRef, rows: seq<Row>)
    requires PolicyOk(x) && Bindings(x.groups, t) == []
    ensures ImageRows(x, m, t, rows) == rows
  {
    hide PolicyOk, Bindings, SettingsMap, Expect;
    forall n | 0 <= n < |rows| ensures ImageRow(x, m, t, rows[n]) == rows[n] {
      forall column | column in rows[n]
        ensures ImageCell(x, m, ColumnRef(t.schema, t.table, column), rows[n][column]) == rows[n][column]
      {
        BindingsCover(x, t, column);
      }
    }
  }

  /** A restored table: rewritten row by row when it has configured columns, otherwise copied. */
  ghost predicate TableRestored(x: Context, m: Mappings, t: TableRef, rows: seq<Row>, restored: seq<Row>) {
    if Bindings(x.groups, t) == [] then restored == rows else AllRewritten(x, m, t, rows, restored)
  }

  /** The source table by table. */
  ghost predicate AllRestored(x: Context, m: Mappings, target: Database) {
    target.Keys == x.db.Keys && forall t :: t in x.db ==> TableRestored(x, m, t, x.db[t], target[t])
  }

  /** Every table through its transformer, or unchanged when it has none; fails exactly where some row
      cannot be rewritten. */
  method MapTables(x: Context, config: MapperConfig, tables: seq<TableRef>, registry: MappingRegistry)
    returns (ok: bool, target: Database)
    requires PolicyOk(x) && Distinct(tables) && Elements(tables) == x.db.Keys
    requires ConfigAccepted(config) && Configures(config, x.groups)
    modifies registry`mappings
    ensures registry.mappings == old(registry.mappings)
    ensures if ok then AllRestored(x, registry.mappings, target)
      else exists t :: t in x.db && HasUnwritable(x, registry.mappings, t, x.db[t])
    ensures Ready(x, registry.mappings) && RowsComplete(x) ==> ok && target == ImageDatabase(x, registry.mappings)
  {
    hide PolicyOk, Ready, RowsComplete, Bindings, ImageRows, HasUnwritable, AllRewritten, ConfigAccepted,
      TransformerFor;
    ghost var m := registry.mappings;
    target := map[];
    for i := 0 to |tables|
      invariant registry.mappings == m
      invariant target.Keys == Elements(tables[..i])
      invariant forall t :: t in target ==> t in x.db && TableRestored(x, m, t, x.db[t], target[t])
      invariant Ready(x, m) && RowsComplete(x) ==> forall t :: t in target ==> target[t] == ImageRows(x, m, t, x.db[t])
    {
      var t := tables[i];
      assert t in Elements(tables);
      assert tables[..i + 1] == tables[..i] + [t];
      assert TableConfigured(config, x.groups, t);
      var rows := x.db[t];
      if TransformerFor(config, t).None? {
        UntouchedTable(x, m, t, rows);
        target := target[t := rows];
      } else {
        var restored;
        ok, restored := MapTable(x, config, t, rows, registry);
        if Ready(x, m) && RowsComplete(x) { HonestTable(x, m, t); }
        if !ok { return; }
        target := target[t := restored];
      }
    }
    assert tables[..|tables|] == tables;
    return true, target;
  }

  /** Every declared key and foreign key holds. */
  predicate ConstraintsHold(db: Database, keys: seq<KeyConstraint>, foreignKeys: seq<ForeignKey>)
    requires AllWellFormed(foreignKeys)
  {
    KeysHold(db, keys) && forall i :: 0 <= i < |foreignKeys| ==> Orphans(db, foreignKeys[i]) == 0
  }

  ghost predicate AllWellFormed(foreignKeys: seq<ForeignKey>) {
    forall i :: 0 <= i < |foreignKeys| ==> WellFormed(foreignKeys[i])
  }

  /** Dump every table through its transformer, load the rows into an empty target, and create the
      declared keys and foreign keys, which fails when the rows violate one. On a ready registry the
      rows are exactly the image of the source, and only the constraints can fail. */
  method DumpAndRestore(x: Context, config: MapperConfig, tables: seq<TableRef>, keys: seq<KeyConstraint>,
                        foreignKeys: seq<ForeignKey>, registry: MappingRegistry)
    returns (ok: bool, target: Database)
    requires PolicyOk(x) && Distinct(tables) && Elements(tables) == x.db.Keys
    requires ConfigAccepted(config) && Configures(config, x.groups) && AllWellFormed(foreignKeys)
    modifies registry`mappings
    ensures registry.mappings == old(registry.mappings)
    ensures ok ==> AllRestored(x, registry.mappings, target)
    ensures ok ==> ConstraintsHold(target, keys, foreignKeys)
    ensures Ready(x, registry.mappings) && RowsComplete(x) ==>
      && target == ImageDatabase(x, registry.mappings)
      && (ok <==> ConstraintsHold(ImageDatabase(x, registry.mappings), keys, foreignKeys))
  {
    hide PolicyOk, Ready, RowsComplete, ImageDatabase, ConfigAccepted, Configures, ConstraintsHold, AllWellFormed,
      AllRestored, HasUnwritable;
    ok, target := MapTables(x, config, tables, registry);
    if ok && !ConstraintsHold(target, keys, foreignKeys) { ok := false; }
  }
}
