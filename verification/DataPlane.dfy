/** What the data plane produces: every row of the source rewritten by the mapper of its table. */
module DataPlane {
  import opened Base
  import opened Policy
  import opened RegistryModel
  import opened GeneratorModel
  import opened Database
  import opened VerifierModel
  import opened Mapper
  import opened Graph

  // ----- a registry that a finished generate node leaves -----

  /** The durable state every node after generation starts from (`RunSafe`). */
  ghost predicate Ready(x: Context, m: Mappings) {
    && ContextOk(x) && OneToOne(m) && KeysWithin(x, m) && SourceCollected(x, m)
    && Disjoint(m) && AllFaithful(x, m) && NothingPending(x, m) && SourceNormalizable(x)
  }

  lemma RunLeavesReady(x: Context, worlds: seq<World>)
    requires ContextOk(x) && Run(x, worlds)
    requires var w := worlds[|worlds| - 1];
      w.next.BuildGreenmaskConfig? || w.next.DumpAndRestore? || w.next.VerifyAndReport? || w.next.Completed?
    ensures Ready(x, worlds[|worlds| - 1].tables.mappings)
  {
    RunSafe(x, worlds);
    assert WorldSafe(x, worlds[|worlds| - 1]);
  }

  /** The key of a configured value, and the replacement the registry holds for it. */
  lemma ValueIsMapped(x: Context, m: Mappings, i: nat, r: ColumnRef, v: Value)
    requires Ready(x, m) && i < |x.groups| && r in x.groups[i].group.columns && v in Column(x.db, r) && v != Null
    ensures var id, g := x.groups[i].id, x.groups[i].group;
      var e := Expect(x.crypto, m, id, g.settings, v);
      && e.Image? && ValidValue(x.crypto, g, e.text)
      && KeyOf(x.crypto, id, g.settings, v).Some?
      && Key(id, KeyOf(x.crypto, id, g.settings, v).value) in m
      && m[Key(id, KeyOf(x.crypto, id, g.settings, v).value)]
         == Cell(Some(e.text), ValueKey(x.crypto, id, g, e.text))
      && ValueKey(x.crypto, id, g, e.text).Some?
      && Key(id, ValueKey(x.crypto, id, g, e.text).value) !in m
      && v != Text(e.text)
  {
    hide Ready, Normalize, ValidValue;
    var h := ValueHasKey(x, m, i, r, v);
    RowOfKey(x, m, i, h);
  }

  lemma ValueHasKey(x: Context, m: Mappings, i: nat, r: ColumnRef, v: Value) returns (h: string)
    requires Ready(x, m) && i < |x.groups| && r in x.groups[i].group.columns && v in Column(x.db, r) && v != Null
    ensures KeyOf(x.crypto, x.groups[i].id, x.groups[i].group.settings, v) == Some(h)
    ensures Key(x.groups[i].id, h) in m
  {
    var id, g := x.groups[i].id, x.groups[i].group;
    hide OneToOne, KeysWithin, Disjoint, AllFaithful, NothingPending, Column, KeysIn;
    assert GroupNormalizable(x.crypto, x.db, g);
    var j :| 0 <= j < |g.columns| && g.columns[j] == r;
    assert Normalizable(x.crypto, g.settings, Column(x.db, r));
    h := KeyOf(x.crypto, id, g.settings, v).value;
    assert h in SourceKeys(x.crypto, x.db, id, g) by {
      assert h in ValueKeys(x.crypto, id, g.settings, Column(x.db, r));
    }
    assert h in KeysIn(m, id);
    KeysInMeans(m, id, h);
  }

  lemma RowOfKey(x: Context, m: Mappings, i: nat, h: string)
    requires Ready(x, m) && i < |x.groups| && Key(x.groups[i].id, h) in m
    ensures var id, g, row := x.groups[i].id, x.groups[i].group, m[Key(x.groups[i].id, h)];
      && row.replacement.Some? && row.replacement.value != "" && ValidValue(x.crypto, g, row.replacement.value)
      && row.replacementHmac == ValueKey(x.crypto, id, g, row.replacement.value)
      && row.replacementHmac.Some? && Key(id, row.replacementHmac.value) !in m
  {
    hide SourceCollected, KeysWithin, SourceNormalizable;
    var k := Key(x.groups[i].id, h);
    assert h in PendingIn(m, x.groups[i].id) <==> m[k].replacement.None?;
    assert Faithful(x.crypto, x.groups[i].id, x.groups[i].group, m);
  }

  // ----- rows -----

  function SettingsMap(groups: seq<GroupEntry>): map<string, Settings> {
    if groups == [] then map[]
    else SettingsMap(groups[..|groups| - 1])[groups[|groups| - 1].id := groups[|groups| - 1].group.settings]
  }

  lemma {:induction false} SettingsMapHas(groups: seq<GroupEntry>, i: nat)
    requires DistinctIds(groups) && i < |groups|
    ensures groups[i].id in SettingsMap(groups) && SettingsMap(groups)[groups[i].id] == groups[i].group.settings
  {
    var n := |groups| - 1;
    if i < n {
      assert groups[..n][i] == groups[i];
      SettingsMapHas(groups[..n], i);
    }
  }

  /** The image of one cell: unconfigured columns keep their value. */
  function ImageCell(x: Context, m: Mappings, r: ColumnRef, v: Value): Value {
    match GroupForColumn(x.groups, r)
    case None => v
    case Some(id) =>
      if id in SettingsMap(x.groups) then ImageOf(Expect(x.crypto, m, id, SettingsMap(x.groups)[id], v)) else v
  }

  function ImageRow(x: Context, m: Mappings, t: TableRef, row: Row): Row {
    map column | column in row :: ImageCell(x, m, ColumnRef(t.schema, t.table, column), row[column])
  }

  function ImageRows(x: Context, m: Mappings, t: TableRef, rows: seq<Row>): seq<Row> {
    seq(|rows|, i requires 0 <= i < |rows| => ImageRow(x, m, t, rows[i]))
  }

  /** The restored database. */
  function ImageDatabase(x: Context, m: Mappings): Database {
    map t | t in x.db :: ImageRows(x, m, t, x.db[t])
  }

  /** Greenmask's JSON form of a row, and back. */
  function EncodeRow(row: Row): Fields {
    map column | column in row :: Attribute(row[column], row[column] == Null)
  }

  function DecodeRow(fields: Fields): Row {
    map column | column in fields ::
      if fields[column].Attribute? && !fields[column].n then fields[column].d else Null
  }

  /** The columns of one table entry in ascending order, as the configuration file lists them. */
  function BindingsOf(columns: map<string, string>): seq<ColumnBinding> {
    var names := SortedList(columns.Keys);
    seq(|names|, i requires 0 <= i < |names| =>
      assert names[i] in Elements(names);
      ColumnBinding(names[i], columns[names[i]]))
  }

  /** The mapped columns of one table. */
  function Bindings(groups: seq<GroupEntry>, t: TableRef): seq<ColumnBinding> {
    BindingsOf(TableColumns(groups, t.schema, t.table))
  }

  /** Tables conform to the schema: every configured column is present in every row. */
  ghost predicate RowsComplete(x: Context) {
    forall t, i, r :: t in x.db && 0 <= i < |x.db[t]| && GroupForColumn(x.groups, r).Some? && TableOf(r) == t ==>
      r.column in x.db[t][i]
  }

  ghost predicate PolicyOk(x: Context) {
    ContextOk(x) && OneGroupPerColumn(x.groups)
  }

  /** Every binding stands for a configured column of its group, and every configured column of the
      table has one. */
  lemma BindingMeaning(x: Context, t: TableRef, i: nat) returns (j: nat)
    requires PolicyOk(x) && i < |Bindings(x.groups, t)|
    ensures var b := Bindings(x.groups, t)[i];
      var r := ColumnRef(t.schema, t.table, b.column);
      && j < |x.groups| && x.groups[j].id == b.group && r in x.groups[j].group.columns
      && GroupForColumn(x.groups, r) == Some(b.group)
      && b.group in SettingsMap(x.groups) && SettingsMap(x.groups)[b.group] == x.groups[j].group.settings
      && b.group != ""
  {
    hide SortedList;
    var columns := TableColumns(x.groups, t.schema, t.table);
    var b := Bindings(x.groups, t)[i];
    assert b.column in Elements(SortedList(columns.Keys));
    var r := ColumnRef(t.schema, t.table, b.column);
    TableColumnsEntries(x.groups, t.schema, t.table);
    assert PlaceOf(Membership(x.groups), r) == Some(b.group);
    j := MembershipSource(x.groups, r);
    ViewsAgree(x.groups, r);
    SettingsMapHas(x.groups, j);
  }

  lemma BindingsCover(x: Context, t: TableRef, column: string)
    requires PolicyOk(x)
    ensures GroupForColumn(x.groups, ColumnRef(t.schema, t.table, column)).Some? <==>
      exists i :: 0 <= i < |Bindings(x.groups, t)| && Bindings(x.groups, t)[i].column == column
  {
    hide SortedList;
    var r := ColumnRef(t.schema, t.table, column);
    var columns := TableColumns(x.groups, t.schema, t.table);
    var names := SortedList(columns.Keys);
    TableColumnsEntries(x.groups, t.schema, t.table);
    ViewsAgree(x.groups, r);
    assert GroupForColumn(x.groups, r).Some? <==> column in columns;
    assert column in columns <==> column in Elements(names);
    if column in Elements(names) {
      var i :| 0 <= i < |names| && names[i] == column;
      assert Bindings(x.groups, t)[i].column == column;
    }
    forall i | 0 <= i < |Bindings(x.groups, t)| ensures Bindings(x.groups, t)[i].column in Elements(names) {
      assert names[i] in names;
    }
  }

  lemma BindingsBound(x: Context, t: TableRef)
    requires PolicyOk(x)
    ensures Bound(SettingsMap(x.groups), Bindings(x.groups, t))
  {
    hide SortedList, TableColumns;
    var columns := Bindings(x.groups, t);
    forall i | 0 <= i < |columns| ensures columns[i].group in SettingsMap(x.groups) {
      var j := BindingMeaning(x, t, i);
    }
  }

  lemma EncodedField(c: Crypto, m: Mappings, settings: map<string, Settings>, row: Row, b: ColumnBinding)
    requires b.group in settings && b.group != "" && b.column in row
    ensures var v, f := row[b.column], MappedField(c, m, settings, EncodeRow(row), b);
      var e := Expect(c, m, b.group, settings[b.group], v);
      && (v == Null ==> f == Success(Attribute(Null, true)))
      && (e.Image? ==> f == Success(Attribute(Text(e.text), false)))
  {
    hide Normalize;
    assert EncodeRow(row)[b.column] == Attribute(row[b.column], row[b.column] == Null);
  }

  lemma ConfiguredImage(x: Context, m: Mappings, r: ColumnRef, id: string, s: Settings, v: Value)
    requires GroupForColumn(x.groups, r) == Some(id) && id in SettingsMap(x.groups) && SettingsMap(x.groups)[id] == s
    ensures ImageCell(x, m, r, v) == ImageOf(Expect(x.crypto, m, id, s, v))
  {
  }

  lemma CellInColumn(db: Database, r: ColumnRef, n: nat)
    requires TableOf(r) in db && n < |db[TableOf(r)]| && r.column in db[TableOf(r)][n]
    ensures db[TableOf(r)][n][r.column] in Column(db, r)
  {
    assert Column(db, r)[n] == db[TableOf(r)][n][r.column];
  }

  /** One configured field of an encoded row is mapped to its image; nothing stops the stream. */
  lemma FieldIsMapped(x: Context, m: Mappings, t: TableRef, n: nat, i: nat)
    requires Ready(x, m) && PolicyOk(x) && RowsComplete(x)
    requires t in x.db && n < |x.db[t]| && i < |Bindings(x.groups, t)|
    requires Bound(SettingsMap(x.groups), Bindings(x.groups, t))
    ensures var row, b := x.db[t][n], Bindings(x.groups, t)[i];
      var f := MappedField(x.crypto, m, SettingsMap(x.groups), EncodeRow(row), b);
      && b.column in row
      && f == Success(Attribute(ImageCell(x, m, ColumnRef(t.schema, t.table, b.column), row[b.column]),
                                row[b.column] == Null))
  {
    var row, b := x.db[t][n], Bindings(x.groups, t)[i];
    var j := BindingMeaning(x, t, i);
    var r := ColumnRef(t.schema, t.table, b.column);
    assert r.column in row;
    hide Bindings, Ready, Bound, GroupForColumn, SettingsMap, MappedField, ImageCell, Expect, RowsComplete;
    var settings := SettingsMap(x.groups);
    var v := row[b.column];
    CellInColumn(x.db, r, n);
    EncodedField(x.crypto, m, settings, row, b);
    ConfiguredImage(x, m, r, b.group, settings[b.group], v);
    if v == Null {
      NullStaysNull(x, m, r);
    } else {
      ValueIsMapped(x, m, j, r, v);
    }
  }

  /** On a ready registry the mapper rewrites every row of every table, and what it writes decodes to
      the image of the row: NULLs and unconfigured columns unchanged, configured values replaced. */
  lemma MapperNeverFails(x: Context, m: Mappings, t: TableRef, n: nat)
    requires Ready(x, m) && PolicyOk(x) && RowsComplete(x) && t in x.db && n < |x.db[t]|
    ensures Bound(SettingsMap(x.groups), Bindings(x.groups, t))
    ensures forall i, fault :: !Refused(x.crypto, m, SettingsMap(x.groups), Bindings(x.groups, t),
                                        EncodeRow(x.db[t][n]), i, fault)
    ensures forall output |
      Transformed(x.crypto, m, SettingsMap(x.groups), Bindings(x.groups, t), EncodeRow(x.db[t][n]), output) ::
      DecodeRow(output) == ImageRow(x, m, t, x.db[t][n])
  {
    BindingsBound(x, t);
    var row, bindings, settings := x.db[t][n], Bindings(x.groups, t), SettingsMap(x.groups);
    hide Bindings, Ready, SettingsMap, GroupForColumn, MappedField, Bound, Expect;
    forall i | 0 <= i < |bindings|
      ensures MappedField(x.crypto, m, settings, EncodeRow(row), bindings[i]).Success?
    {
      FieldIsMapped(x, m, t, n, i);
    }
    forall output | Transformed(x.crypto, m, settings, bindings, EncodeRow(row), output)
      ensures DecodeRow(output) == ImageRow(x, m, t, row)
    {
      ImageDecoded(x, m, t, n, output);
    }
  }

  lemma ImageDecoded(x: Context, m: Mappings, t: TableRef, n: nat, output: Fields)
    requires Ready(x, m) && PolicyOk(x) && RowsComplete(x) && t in x.db && n < |x.db[t]|
    requires Bound(SettingsMap(x.groups), Bindings(x.groups, t))
    requires Transformed(x.crypto, m, SettingsMap(x.groups), Bindings(x.groups, t), EncodeRow(x.db[t][n]), output)
    ensures DecodeRow(output) == ImageRow(x, m, t, x.db[t][n])
  {
    hide Bindings, Ready, SettingsMap, Transformed, Bound, GroupForColumn, RowsComplete, PolicyOk, ImageCell;
    var row := x.db[t][n];
    TransformedKeys(x.crypto, m, SettingsMap(x.groups), Bindings(x.groups, t), EncodeRow(row), output);
    forall column | column in row
      ensures DecodeRow(output)[column] == ImageCell(x, m, ColumnRef(t.schema, t.table, column), row[column])
    {
      AnyCellDecoded(x, m, t, n, column, output);
    }
  }

  lemma TransformedKeys(c: Crypto, m: Mappings, settings: map<string, Settings>, columns: seq<ColumnBinding>,
                        before: Fields, after: Fields)
    requires Bound(settings, columns) && Transformed(c, m, settings, columns, before, after)
    ensures after.Keys == before.Keys
  {
  }

  lemma AnyCellDecoded(x: Context, m: Mappings, t: TableRef, n: nat, column: string, output: Fields)
    requires Ready(x, m) && PolicyOk(x) && RowsComplete(x) && t in x.db && n < |x.db[t]| && column in x.db[t][n]
    requires Bound(SettingsMap(x.groups), Bindings(x.groups, t))
    requires Transformed(x.crypto, m, SettingsMap(x.groups), Bindings(x.groups, t), EncodeRow(x.db[t][n]), output)
    ensures column in output
    ensures DecodeRow(output)[column] == ImageCell(x, m, ColumnRef(t.schema, t.table, column), x.db[t][n][column])
  {
    hide Bindings, Ready, SettingsMap, Transformed, Bound, GroupForColumn, RowsComplete, PolicyOk, ImageCell, DecodeRow;
    BindingsCover(x, t, column);
    if i :| 0 <= i < |Bindings(x.groups, t)| && Bindings(x.groups, t)[i].column == column {
      CellDecoded(x, m, t, n, i, output);
    } else {
      OtherCellDecoded(x, m, t, n, column, output);
    }
  }

  lemma OtherCellDecoded(x: Context, m: Mappings, t: TableRef, n: nat, column: string, output: Fields)
    requires t in x.db && n < |x.db[t]| && column in x.db[t][n]
    requires Bound(SettingsMap(x.groups), Bindings(x.groups, t))
    requires Transformed(x.crypto, m, SettingsMap(x.groups), Bindings(x.groups, t), EncodeRow(x.db[t][n]), output)
    requires forall i :: 0 <= i < |Bindings(x.groups, t)| ==> Bindings(x.groups, t)[i].column != column
    requires GroupForColumn(x.groups, ColumnRef(t.schema, t.table, column)).None?
    ensures column in output
    ensures DecodeRow(output)[column] == ImageCell(x, m, ColumnRef(t.schema, t.table, column), x.db[t][n][column])
  {
    hide Bindings, SettingsMap, MappedField, Bound, GroupForColumn;
    assert output[column] == EncodeRow(x.db[t][n])[column];
  }

  lemma CellDecoded(x: Context, m: Mappings, t: TableRef, n: nat, i: nat, output: Fields)
    requires Ready(x, m) && PolicyOk(x) && RowsComplete(x) && t in x.db && n < |x.db[t]| && i < |Bindings(x.groups, t)|
    requires Bound(SettingsMap(x.groups), Bindings(x.groups, t))
    requires Transformed(x.crypto, m, SettingsMap(x.groups), Bindings(x.groups, t), EncodeRow(x.db[t][n]), output)
    ensures var row, column := x.db[t][n], Bindings(x.groups, t)[i].column;
      column in row && column in output
      && DecodeRow(output)[column] == ImageCell(x, m, ColumnRef(t.schema, t.table, column), row[column])
  {
    hide Bindings, Ready, SettingsMap, MappedField, Bound, GroupForColumn;
    FieldIsMapped(x, m, t, n, i);
    var row, b := x.db[t][n], Bindings(x.groups, t)[i];
    assert output[b.column] == Attribute(ImageCell(x, m, ColumnRef(t.schema, t.table, b.column), row[b.column]),
                                         row[b.column] == Null);
    NullStaysNull(x, m, ColumnRef(t.schema, t.table, b.column));
  }

  lemma NullStaysNull(x: Context, m: Mappings, r: ColumnRef)
    ensures ImageCell(x, m, r, Null) == Null
  {
  }
}
