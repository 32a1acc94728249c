/** End to end: what a finished run and the data plane produce is what the verifier accepts. */
module Acceptance {
  import opened Base
  import opened Policy
  import opened RegistryModel
  import opened Database
  import opened VerifierModel
  import opened Scans
  import opened Graph
  import opened DataPlane
  import opened Integrity

  // ----- columns of the restored database -----

  lemma ColumnImage(x: Context, m: Mappings, r: ColumnRef)
    ensures Column(ImageDatabase(x, m), r) == MapSeq(Column(x.db, r), v => ImageCell(x, m, r, v))
  {
    hide ImageCell, ImageRow, ImageDatabase;
    var t := TableOf(r);
    ImageRowsAt(x, m, t);
    forall n | 0 <= n < |RowsOf(x.db, t)|
      ensures Column(ImageDatabase(x, m), r)[n] == ImageCell(x, m, r, Column(x.db, r)[n])
    {
      ImageCellAt(x, m, r, RowsOf(x.db, t)[n]);
    }
  }

  /** A configured column: its group's image of the value. */
  lemma ConfiguredCell(x: Context, m: Mappings, i: nat, r: ColumnRef, v: Value)
    requires PolicyOk(x) && i < |x.groups| && r in x.groups[i].group.columns
    ensures ImageCell(x, m, r, v) == ImageOf(Expect(x.crypto, m, x.groups[i].id, x.groups[i].group.settings, v))
  {
    hide GroupForColumn, SettingsMap, Expect;
    assert Declares(x.groups, x.groups[i].id, r);
    GroupForColumnDenotes(x.groups, r, x.groups[i].id);
    SettingsMapHas(x.groups, i);
    ConfiguredImage(x, m, r, x.groups[i].id, x.groups[i].group.settings, v);
  }

  lemma HonestCell(x: Context, m: Mappings, i: nat, r: ColumnRef, v: Value)
    requires Ready(x, m) && i < |x.groups| && r in x.groups[i].group.columns && v in Column(x.db, r)
    ensures var e := Expect(x.crypto, m, x.groups[i].id, x.groups[i].group.settings, v);
      CellOk(e, v, ImageOf(e))
  {
    if v != Null {
      hide Ready, Expect;
      ValueIsMapped(x, m, i, r, v);
    }
  }

  lemma UnconfiguredKeyCells(x: Context, m: Mappings, key: KeyConstraint, row: Row)
    requires !KeyIsConfigured(x.groups, key)
    ensures KeyCells(ImageRow(x, m, key.table, row), key.columns) == KeyCells(row, key.columns)
  {
    hide ImageRow;
    var t := key.table;
    forall n | 0 <= n < |key.columns|
      ensures CellAt(ImageRow(x, m, t, row), key.columns[n]) == CellAt(row, key.columns[n])
    {
      var r := ColumnRef(t.schema, t.table, key.columns[n]);
      ImageCellAt(x, m, r, row);
      assert GroupForColumn(x.groups, r).None?;
    }
  }

  lemma KeyedRowsImage(x: Context, m: Mappings, key: KeyConstraint, i: nat, r: ColumnRef)
    requires PolicyOk(x) && i < |x.groups| && r in x.groups[i].group.columns
    requires !KeyIsConfigured(x.groups, key) && key.table == TableOf(r)
    ensures var id, s := x.groups[i].id, x.groups[i].group.settings;
      KeyedRows(ImageDatabase(x, m), key, r)
        == MapSeq(KeyedRows(x.db, key, r), row => ImageKeyedRow(x.crypto, m, id, s, row))
  {
    hide ImageCell, ImageRow, ImageDatabase, KeyIsConfigured, Expect, KeyCells, PolicyOk;
    var t := TableOf(r);
    ImageRowsAt(x, m, t);
    forall n | 0 <= n < |RowsOf(x.db, t)|
      ensures KeyedRows(ImageDatabase(x, m), key, r)[n]
        == ImageKeyedRow(x.crypto, m, x.groups[i].id, x.groups[i].group.settings, KeyedRows(x.db, key, r)[n])
    {
      var row := RowsOf(x.db, t)[n];
      UnconfiguredKeyCells(x, m, key, row);
      ImageCellAt(x, m, r, row);
      ConfiguredCell(x, m, i, r, CellAt(row, r.column));
    }
  }

  lemma HonestColumn(x: Context, m: Mappings, plan: Plan, i: nat, cc: ConfiguredColumn)
    requires Ready(x, m) && PolicyOk(x) && Lists(x.groups, i, cc) && !plan.Unavailable?
    requires plan.ByPrimaryKey? ==> !KeyIsConfigured(x.groups, plan.key) && plan.key.table == TableOf(cc.ref)
    ensures ColumnIsImage(x.crypto, m, plan, cc, x.db, ImageDatabase(x, m))
  {
    hide Ready, PolicyOk, KeyIsConfigured, ImageDatabase, KeyedRows, Column, Expect, ImageCell, CellOk, Images, MapSeq;
    var c, id, s, values := x.crypto, cc.id, cc.settings, Column(x.db, cc.ref);
    forall v | v in values ensures CellOk(Expect(c, m, id, s, v), v, ImageOf(Expect(c, m, id, s, v))) {
      HonestCell(x, m, i, cc.ref, v);
    }
    assert ReplacesAll(c, m, id, s, values);
    match plan {
      case ByPrimaryKey(key) => KeyedRowsImage(x, m, key, i, cc.ref);
      case ByMultiset =>
        ReplacedHaveImages(c, m, id, s, values);
        ConfiguredColumnImages(x, m, i, cc.ref);
    }
  }

  lemma ReplacedHaveImages(c: Crypto, m: Mappings, id: string, s: Settings, values: seq<Value>)
    requires ReplacesAll(c, m, id, s, values)
    ensures AllHaveImages(c, m, id, s, values)
  {
    hide Expect;
  }

  lemma ConfiguredColumnImages(x: Context, m: Mappings, i: nat, r: ColumnRef)
    requires PolicyOk(x) && i < |x.groups| && r in x.groups[i].group.columns
    ensures Column(ImageDatabase(x, m), r)
         == Images(x.crypto, m, x.groups[i].id, x.groups[i].group.settings, Column(x.db, r))
  {
    hide PolicyOk, ImageCell, ImageDatabase, Column, Expect;
    ColumnImage(x, m, r);
    forall n | 0 <= n < |Column(x.db, r)|
      ensures ImageCell(x, m, r, Column(x.db, r)[n])
           == ImageOf(Expect(x.crypto, m, x.groups[i].id, x.groups[i].group.settings, Column(x.db, r)[n]))
    {
      ConfiguredCell(x, m, i, r, Column(x.db, r)[n]);
    }
  }

  /** Both inspected schemas have every configured column. */
  ghost predicate SchemasComplete(groups: seq<GroupEntry>, schemas: Schemas) {
    forall i, r :: 0 <= i < |groups| && r in groups[i].group.columns ==>
      ColumnFor(schemas.sourceColumns, r).Some? && ColumnFor(schemas.targetColumns, r).Some?
  }

  /** An honest run passes the check of configured mappings, however tables are ordered and batched
      and whatever the digest is: every failure counter stays 0. */
  lemma HonestMappingsPass(x: Context, m: Mappings, schemas: Schemas, source: ScanConnection, target: ScanConnection,
                           order: Ordering)
    requires Ready(x, m) && PolicyOk(x) && SchemasComplete(x.groups, schemas)
    requires PrimaryKeysHold(x.db, schemas.sourceKeys) && Orders(order)
    requires ReadsFrom(source, x.db, order) && ReadsFrom(target, ImageDatabase(x, m), order)
    ensures var columns := ConfiguredColumns(x.groups);
      Clean(TotalTally(x.crypto, m, x.groups, schemas, columns, source, target, |columns|))
  {
    hide Ready, PolicyOk, Clean, TotalTally, ConfiguredColumns, PlanFor, ColumnIsImage, ImageDatabase,
      KeyIsConfigured, PrimaryKeysHold, ReadsFrom, Orders, DigestsSeparate, SchemasComplete;
    var columns := ConfiguredColumns(x.groups);
    forall n | 0 <= n < |columns|
      ensures ColumnIsImage(x.crypto, m, PlanFor(x.groups, schemas, columns[n].ref), columns[n], x.db,
                            ImageDatabase(x, m))
    {
      assert columns[n] in columns;
      ConfiguredColumnsExact(x.groups, columns[n]);
      var i: nat :| Lists(x.groups, i, columns[n]);
      PlanKey(x.groups, schemas, columns[n].ref);
      ColumnPlanned(x.groups, schemas, i, columns[n].ref);
      HonestColumn(x, m, PlanFor(x.groups, schemas, columns[n].ref), i, columns[n]);
    }
    MappingsCheckExact(x.crypto, m, x.groups, schemas, columns, source, target, x.db, ImageDatabase(x, m), order);
  }

  lemma ColumnPlanned(groups: seq<GroupEntry>, schemas: Schemas, i: nat, r: ColumnRef)
    requires SchemasComplete(groups, schemas) && i < |groups| && r in groups[i].group.columns
    ensures !PlanFor(groups, schemas, r).Unavailable?
  {
    hide KeyIsConfigured;
  }

  // ----- target digests against source keys -----

  /** The digest stored with the replacement of a key. */
  function StoredHmac(m: Mappings, id: string, h: string): string {
    if Key(id, h) in m && m[Key(id, h)].replacementHmac.Some? then m[Key(id, h)].replacementHmac.value else ""
  }

  lemma StoredOf(x: Context, m: Mappings, i: nat, h: string)
    requires Ready(x, m) && i < |x.groups| && h in KeysIn(m, x.groups[i].id)
    ensures var id := x.groups[i].id;
      && Key(id, h) in m && m[Key(id, h)].replacementHmac == Some(StoredHmac(m, id, h))
      && StoredHmac(m, id, h) !in KeysIn(m, id)
  {
    hide Ready;
    KeysInMeans(m, x.groups[i].id, h);
    RowOfKey(x, m, i, h);
    KeysInMeans(m, x.groups[i].id, StoredHmac(m, x.groups[i].id, h));
  }

  /** As many stored replacement digests as source keys, and none of them a source key. */
  lemma StoredHmacsSeparate(x: Context, m: Mappings, i: nat)
    requires Ready(x, m) && i < |x.groups|
    ensures var id := x.groups[i].id;
      var stored := ImageSet(KeysIn(m, id), h => StoredHmac(m, id, h));
      |stored| == |KeysIn(m, id)| && stored * KeysIn(m, id) == {}
  {
    hide Ready, KeysIn, StoredHmac;
    var id := x.groups[i].id;
    var f := h => StoredHmac(m, id, h);
    var keys := KeysIn(m, id);
    ImageCount(keys, f);
    forall a, b | a in keys && b in keys && f(a) == f(b) ensures a == b {
      StoredOf(x, m, i, a);
      StoredOf(x, m, i, b);
      SameHmacSameKey(x, m, Key(id, a), Key(id, b));
    }
    forall h | h in keys ensures f(h) !in keys {
      StoredOf(x, m, i, h);
    }
  }

  lemma SameHmacSameKey(x: Context, m: Mappings, k: Key, l: Key)
    requires Ready(x, m) && k in m && l in m && k.group == l.group
    requires m[k].replacementHmac.Some? && m[k].replacementHmac == m[l].replacementHmac
    ensures k == l
  {
    hide SourceCollected, KeysWithin, SourceNormalizable, AllFaithful, NothingPending, Disjoint;
  }

  ghost predicate ColumnRead(target: ScanConnection, db: Database, r: ColumnRef) {
    multiset(Flatten(target.column(r))) == multiset(Column(db, r))
  }

  ghost predicate ColumnsRead(refs: seq<ColumnRef>, targetColumns: seq<ColumnInfo>, target: ScanConnection,
                              db: Database) {
    forall i :: 0 <= i < |refs| ==> ColumnFor(targetColumns, refs[i]).Some? && ColumnRead(target, db, refs[i])
  }

  ghost predicate InColumn(refs: seq<ColumnRef>, db: Database, i: nat, v: Value) {
    i < |refs| && v in Column(db, refs[i])
  }

  lemma GroupValuesLast(refs: seq<ColumnRef>, targetColumns: seq<ColumnInfo>, target: ScanConnection, db: Database,
                        v: Value)
    requires refs != [] && ColumnsRead(refs, targetColumns, target, db)
    ensures ColumnsRead(refs[..|refs| - 1], targetColumns, target, db)
    ensures v in GroupValues(refs, targetColumns, target) <==>
      v in GroupValues(refs[..|refs| - 1], targetColumns, target) || v in Column(db, refs[|refs| - 1])
    ensures MissingColumns(refs, targetColumns) == MissingColumns(refs[..|refs| - 1], targetColumns)
  {
    hide Flatten, Column, ColumnFor;
    var n := |refs| - 1;
    assert ColumnRead(target, db, refs[n]);
    SameMembers(Flatten(target.column(refs[n])), Column(db, refs[n]));
    assert forall i :: 0 <= i < n ==> refs[..n][i] == refs[i];
  }

  /** The values read for a group are the values of its columns. */
  lemma {:induction false} GroupValueFrom(refs: seq<ColumnRef>, targetColumns: seq<ColumnInfo>, target: ScanConnection,
                                          db: Database, v: Value)
    returns (i: nat)
    requires ColumnsRead(refs, targetColumns, target, db) && v in GroupValues(refs, targetColumns, target)
    ensures InColumn(refs, db, i, v)
  {
    hide Column, ColumnsRead;
    GroupValuesLast(refs, targetColumns, target, db, v);
    i := |refs| - 1;
    if v !in Column(db, refs[i]) {
      i := GroupValueFrom(refs[..i], targetColumns, target, db, v);
    }
  }

  lemma {:induction false} GroupValueIn(refs: seq<ColumnRef>, targetColumns: seq<ColumnInfo>, target: ScanConnection,
                                        db: Database, i: nat, v: Value)
    requires ColumnsRead(refs, targetColumns, target, db) && InColumn(refs, db, i, v)
    ensures v in GroupValues(refs, targetColumns, target)
    decreases |refs|
  {
    hide Column, ColumnsRead, GroupValues;
    GroupValuesLast(refs, targetColumns, target, db, v);
    if i < |refs| - 1 {
      GroupValueIn(refs[..|refs| - 1], targetColumns, target, db, i, v);
    }
  }

  lemma {:induction false} NoneMissing(refs: seq<ColumnRef>, targetColumns: seq<ColumnInfo>, target: ScanConnection,
                                       db: Database)
    requires ColumnsRead(refs, targetColumns, target, db)
    ensures MissingColumns(refs, targetColumns) == 0
  {
    if refs != [] {
      hide Column, ColumnsRead, GroupValues;
      GroupValuesLast(refs, targetColumns, target, db, Null);
      NoneMissing(refs[..|refs| - 1], targetColumns, target, db);
    }
  }

  /** The key of the image of a source value is the digest stored with its own key. */
  lemma ImageKey(x: Context, m: Mappings, i: nat, r: ColumnRef, v: Value)
    requires Ready(x, m) && PolicyOk(x) && i < |x.groups| && r in x.groups[i].group.columns
    requires v in Column(x.db, r) && v != Null
    ensures var id, s := x.groups[i].id, x.groups[i].group.settings;
      var h, k := KeyOf(x.crypto, id, s, v), KeyOf(x.crypto, id, s, ImageCell(x, m, r, v));
      h.Some? && h.value in KeysIn(m, id) && k == Some(StoredHmac(m, id, h.value))
  {
    hide Ready, PolicyOk, Expect, ImageCell;
    ValueIsMapped(x, m, i, r, v);
    ConfiguredCell(x, m, i, r, v);
    KeysInMeans(m, x.groups[i].id, KeyOf(x.crypto, x.groups[i].id, x.groups[i].group.settings, v).value);
  }

  /** Every key of a group is the key of one of its source values. */
  lemma KeyHasValue(x: Context, m: Mappings, i: nat, h: string) returns (r: ColumnRef, v: Value)
    requires Ready(x, m) && i < |x.groups| && h in KeysIn(m, x.groups[i].id)
    ensures r in x.groups[i].group.columns && v in Column(x.db, r) && v != Null
    ensures KeyOf(x.crypto, x.groups[i].id, x.groups[i].group.settings, v) == Some(h)
  {
    hide SourceCollected, SourceNormalizable, AllFaithful, NothingPending, Disjoint, OneToOne;
    var k := Key(x.groups[i].id, h);
    assert IsSourceKey(x, k);
    var j :| 0 <= j < |x.groups| && x.groups[j].id == k.group
          && k.hmac in SourceKeys(x.crypto, x.db, x.groups[j].id, x.groups[j].group);
    assert j == i;
    var g := x.groups[i].group;
    r :| r in g.columns && h in ValueKeys(x.crypto, k.group, g.settings, Column(x.db, r));
    v :| v in Column(x.db, r) && KeyOf(x.crypto, k.group, g.settings, v) == Some(h);
  }

  lemma ColumnImageMembers(x: Context, m: Mappings, r: ColumnRef, w: Value)
    ensures w in Column(ImageDatabase(x, m), r) <==> exists v :: v in Column(x.db, r) && w == ImageCell(x, m, r, v)
  {
    hide ImageDatabase, ImageCell, Column;
    ColumnImage(x, m, r);
    var values := Column(x.db, r);
    if v :| v in values && w == ImageCell(x, m, r, v) {
      var n :| 0 <= n < |values| && values[n] == v;
      assert MapSeq(values, v => ImageCell(x, m, r, v))[n] == w;
    }
  }

  /** A target value of the group's columns is the image of a source value of the same column. */
  ghost predicate GroupImage(x: Context, m: Mappings, columns: seq<ColumnRef>, r: ColumnRef, v: Value, w: Value) {
    r in columns && v in Column(x.db, r) && w == ImageCell(x, m, r, v)
  }

  /** All target values of the group are images. */
  ghost predicate GroupHolds(x: Context, m: Mappings, columns: seq<ColumnRef>, values: seq<Value>) {
    && (forall w :: w in values ==> exists r, v :: GroupImage(x, m, columns, r, v, w))
    && (forall r, v :: r in columns && v in Column(x.db, r) ==> ImageCell(x, m, r, v) in values)
  }

  lemma TargetValuesAreImages(x: Context, m: Mappings, i: nat, targetColumns: seq<ColumnInfo>, target: ScanConnection)
    requires i < |x.groups|
    requires forall r :: r in x.groups[i].group.columns ==>
      ColumnFor(targetColumns, r).Some? && ColumnRead(target, ImageDatabase(x, m), r)
    ensures var refs := SortRefs(x.groups[i].group.columns);
      && GroupHolds(x, m, x.groups[i].group.columns, GroupValues(refs, targetColumns, target))
      && MissingColumns(refs, targetColumns) == 0
  {
    hide ImageDatabase, ImageCell, Column, ColumnFor, ColumnRead, SortRefs, GroupValues, MissingColumns;
    var columns, image := x.groups[i].group.columns, ImageDatabase(x, m);
    var refs := SortRefs(columns);
    SortedRefs(columns);
    var values := GroupValues(refs, targetColumns, target);
    assert ColumnsRead(refs, targetColumns, target, image);
    hide ColumnsRead;
    forall w | w in values ensures exists r, v :: GroupImage(x, m, columns, r, v, w) {
      var n := GroupValueFrom(refs, targetColumns, target, image, w);
      ColumnImageMembers(x, m, refs[n], w);
      var v :| v in Column(x.db, refs[n]) && w == ImageCell(x, m, refs[n], v);
      assert GroupImage(x, m, columns, refs[n], v, w);
    }
    forall r, v | r in columns && v in Column(x.db, r) ensures ImageCell(x, m, r, v) in values {
      var n :| 0 <= n < |refs| && refs[n] == r;
      ColumnImageMembers(x, m, r, ImageCell(x, m, r, v));
      GroupValueIn(refs, targetColumns, target, image, n, ImageCell(x, m, r, v));
    }
    NoneMissing(refs, targetColumns, target, image);
  }

  lemma SortedRefs(columns: seq<ColumnRef>)
    ensures forall r :: r in SortRefs(columns) <==> r in columns
  {
    SameMembers(SortRefs(columns), columns);
  }

  /** The keys of the target values of a group are exactly its stored replacement digests. */
  lemma TargetKeysAreStored(x: Context, m: Mappings, i: nat, values: seq<Value>)
    requires Ready(x, m) && PolicyOk(x) && i < |x.groups| && GroupHolds(x, m, x.groups[i].group.columns, values)
    ensures var id, s := x.groups[i].id, x.groups[i].group.settings;
      && ValueKeys(x.crypto, id, s, values) == ImageSet(KeysIn(m, id), h => StoredHmac(m, id, h))
      && forall w :: w in values && w != Null ==> KeyOf(x.crypto, id, s, w).Some?
  {
    hide Ready, PolicyOk, ImageCell, Column, KeyOf, KeysIn, StoredHmac;
    var c, id, s, columns := x.crypto, x.groups[i].id, x.groups[i].group.settings, x.groups[i].group.columns;
    var f := h => StoredHmac(m, id, h);
    forall w | w in values && w != Null
      ensures KeyOf(c, id, s, w).Some? && KeyOf(c, id, s, w).value in ImageSet(KeysIn(m, id), f)
    {
      var r, v :| GroupImage(x, m, columns, r, v, w);
      NullStaysNull(x, m, r);
      ImageKey(x, m, i, r, v);
    }
    forall w | w in values && KeyOf(c, id, s, w).Some? ensures w != Null {
      NullHasNoKey(c, id, s);
    }
    forall h | h in KeysIn(m, id) ensures f(h) in ValueKeys(c, id, s, values) {
      var r, v := KeyHasValue(x, m, i, h);
      ImageKey(x, m, i, r, v);
      var w := ImageCell(x, m, r, v);
      assert w in values;
    }
    assert ValueKeys(c, id, s, values) <= ImageSet(KeysIn(m, id), f);
  }

  lemma NullHasNoKey(c: Crypto, id: string, s: Settings)
    ensures KeyOf(c, id, s, Null).None?
  {
  }

  /** On an honest run the statistics of every group are clean, and the target has as many distinct
      keys as the registry has mappings; normalisation need not be injective. */
  lemma HonestGroupStats(x: Context, m: Mappings, i: nat, targetColumns: seq<ColumnInfo>, target: ScanConnection,
                         stats: GroupHmacStats)
    requires Ready(x, m) && PolicyOk(x) && i < |x.groups|
    requires forall r :: r in x.groups[i].group.columns ==>
      ColumnFor(targetColumns, r).Some? && ColumnRead(target, ImageDatabase(x, m), r)
    requires StatsMean(x.crypto, m, x.groups[i].id, x.groups[i].group.settings, SortRefs(x.groups[i].group.columns),
                       targetColumns, target, stats)
    ensures StatsClean(stats) && stats.targetDistinct == |KeysIn(m, x.groups[i].id)|
  {
    hide Ready, PolicyOk, ImageDatabase, ColumnRead, ColumnFor, GroupValues, SortRefs, ValueKeys, KeysIn, KeyOf,
      InvalidCount, KeyBag, MissingColumns, GroupHolds, StoredHmac;
    var id, s := x.groups[i].id, x.groups[i].group.settings;
    var values := GroupValues(SortRefs(x.groups[i].group.columns), targetColumns, target);
    TargetValuesAreImages(x, m, i, targetColumns, target);
    TargetKeysAreStored(x, m, i, values);
    StoredHmacsSeparate(x, m, i);
    KeyBagMembers(x.crypto, id, s, values);
  }
}
