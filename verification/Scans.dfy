/** What the verifier's statements read from a database, whatever the cursors' batching: when a
    configured column passes, in terms of the two databases. */
module Scans {
  import opened Base
  import opened Policy
  import opened RegistryModel
  import opened Database
  import opened VerifierModel

  // ----- the configured columns -----

  function ColumnsOf(e: GroupEntry): seq<ConfiguredColumn> {
    var refs := SortRefs(e.group.columns);
    seq(|refs|, i requires 0 <= i < |refs| => ConfiguredColumn(e.id, e.group.settings, refs[i]))
  }

  function GatherColumns(entries: seq<GroupEntry>): seq<ConfiguredColumn> {
    if entries == [] then [] else GatherColumns(entries[..|entries| - 1]) + ColumnsOf(entries[|entries| - 1])
  }

  /** `_configured_columns`: groups by identifier, the columns of a group by their key. */
  function ConfiguredColumns(groups: seq<GroupEntry>): seq<ConfiguredColumn> {
    GatherColumns(SortEntries(groups))
  }

  ghost predicate Lists(groups: seq<GroupEntry>, i: nat, x: ConfiguredColumn) {
    && i < |groups| && groups[i].id == x.id && groups[i].group.settings == x.settings
    && x.ref in groups[i].group.columns
  }

  lemma ColumnsOfMembers(e: GroupEntry, x: ConfiguredColumn)
    ensures x in ColumnsOf(e) <==> x.id == e.id && x.settings == e.group.settings && x.ref in e.group.columns
  {
    var refs := SortRefs(e.group.columns);
    SameMembers(refs, e.group.columns);
    if x.ref in refs && x.id == e.id && x.settings == e.group.settings {
      var i :| 0 <= i < |refs| && refs[i] == x.ref;
      assert ColumnsOf(e)[i] == x;
    }
  }

  lemma GatherLast(entries: seq<GroupEntry>, x: ConfiguredColumn)
    requires entries != []
    ensures x in GatherColumns(entries) <==>
      x in GatherColumns(entries[..|entries| - 1]) || x in ColumnsOf(entries[|entries| - 1])
  {
    hide ColumnsOf;
  }

  ghost predicate Gathers(entries: seq<GroupEntry>, i: nat, x: ConfiguredColumn) {
    i < |entries| && x in ColumnsOf(entries[i])
  }

  lemma {:induction false} GatheredFrom(entries: seq<GroupEntry>, x: ConfiguredColumn) returns (i: nat)
    requires x in GatherColumns(entries)
    ensures Gathers(entries, i, x)
  {
    hide ColumnsOf;
    GatherLast(entries, x);
    i := |entries| - 1;
    if x !in ColumnsOf(entries[i]) {
      i := GatheredFrom(entries[..i], x);
    }
  }

  lemma {:induction false} GatheredAll(entries: seq<GroupEntry>, i: nat, x: ConfiguredColumn)
    requires Gathers(entries, i, x)
    ensures x in GatherColumns(entries)
    decreases |entries|
  {
    hide ColumnsOf;
    GatherLast(entries, x);
    if i < |entries| - 1 {
      GatheredAll(entries[..|entries| - 1], i, x);
    }
  }

  /** Exactly the declared columns, each under its own group and settings. */
  lemma ConfiguredColumnsExact(groups: seq<GroupEntry>, x: ConfiguredColumn)
    ensures x in ConfiguredColumns(groups) <==> exists i :: Lists(groups, i, x)
  {
    hide SortEntries, ColumnsOf, GatherColumns;
    var entries := SortEntries(groups);
    SortedEntries(groups);
    if x in GatherColumns(entries) {
      var j := GatheredFrom(entries, x);
      ColumnsOfMembers(entries[j], x);
      assert entries[j] in groups;
      var i :| 0 <= i < |groups| && groups[i] == entries[j];
      assert Lists(groups, i, x);
    }
    if i: nat :| Lists(groups, i, x) {
      ColumnsOfMembers(groups[i], x);
      assert groups[i] in entries;
      var j :| 0 <= j < |entries| && entries[j] == groups[i];
      GatheredAll(entries, j, x);
    }
  }

  lemma SortedEntries(groups: seq<GroupEntry>)
    ensures forall e :: e in SortEntries(groups) <==> e in groups
  {
    SameMembers(SortEntries(groups), groups);
  }

  // ----- mapping a list does not see its order -----

  function MapSeq<A, B>(s: seq<A>, f: A -> B): seq<B> {
    seq(|s|, i requires 0 <= i < |s| => f(s[i]))
  }

  lemma MapMiddle<A, B>(a: seq<A>, v: A, b: seq<A>, f: A -> B)
    ensures multiset(MapSeq(a + [v] + b, f)) == multiset(MapSeq(a + b, f)) + multiset{f(v)}
  {
    assert MapSeq(a + [v] + b, f) == MapSeq(a, f) + [f(v)] + MapSeq(b, f);
    assert MapSeq(a + b, f) == MapSeq(a, f) + MapSeq(b, f);
  }

  lemma {:induction false} MapMultiset<A, B>(a: seq<A>, b: seq<A>, f: A -> B)
    requires multiset(a) == multiset(b)
    ensures multiset(MapSeq(a, f)) == multiset(MapSeq(b, f))
    decreases |a|
  {
    hide MapSeq;
    if a != [] {
      var left, right := TakeOut(a, b);
      MapMultiset([] + a[1..], left + right, f);
      MapMiddle([], a[0], a[1..], f);
      MapMiddle(left, a[0], right, f);
    } else {
      SameMembers(a, b);
      assert a == b;
    }
  }

  // ----- ordered scans -----

  type KeyOrder = (seq<Value>, seq<Value>) -> bool

  ghost predicate Antisymmetric(le: KeyOrder) {
    forall a, b :: le(a, b) && le(b, a) ==> a == b
  }

  /** The ORDER BY of each key; both connections sort alike. */
  type Ordering = KeyConstraint -> KeyOrder

  ghost predicate Orders(order: Ordering) {
    forall key :: Antisymmetric(order(key))
  }

  ghost predicate KeyOrdered(le: KeyOrder, rows: seq<KeyedRow>) {
    forall i, j :: 0 <= i < j < |rows| ==> le(rows[i].key, rows[j].key)
  }

  ghost predicate KeysDistinct(rows: seq<KeyedRow>) {
    forall i, j :: 0 <= i < j < |rows| ==> rows[i].key != rows[j].key
  }

  /** An ordered scan by a key is determined by its rows. */
  lemma OrderedUnique(le: KeyOrder, a: seq<KeyedRow>, b: seq<KeyedRow>)
    requires Antisymmetric(le) && KeyOrdered(le, a) && KeyOrdered(le, b) && KeysDistinct(a)
    requires multiset(a) == multiset(b)
    ensures a == b
  {
    ListingUnique((x: KeyedRow, y: KeyedRow) => le(x.key, y.key), a, b);
  }

  /** So is an ordered scan of the keys alone. */
  lemma OrderedKeysUnique(le: KeyOrder, a: seq<seq<Value>>, b: seq<seq<Value>>)
    requires Antisymmetric(le) && KeysOrdered(le, a) && KeysOrdered(le, b) && multiset(a) == multiset(b)
    ensures a == b
  {
    ListingUnique(le, a, b);
  }

  // ----- what the statements read -----

  function KeyCells(row: Row, columns: seq<string>): seq<Value> {
    seq(|columns|, i requires 0 <= i < |columns| => CellAt(row, columns[i]))
  }

  function RowKeys(db: Database, t: TableRef, columns: seq<string>): seq<seq<Value>> {
    var rows := RowsOf(db, t);
    seq(|rows|, i requires 0 <= i < |rows| => KeyCells(rows[i], columns))
  }

  /** Rows whose key cells are all non-NULL differ in their keys. */
  predicate UniqueHolds(keys: seq<seq<Value>>) {
    forall i, j :: 0 <= i < j < |keys| && Null !in keys[i] && Null !in keys[j] ==> keys[i] != keys[j]
  }

  predicate NullFree(keys: seq<seq<Value>>) {
    forall i :: 0 <= i < |keys| ==> Null !in keys[i]
  }

  /** A declared key holds: UNIQUE ignores rows with a NULL in the key, a primary key has none. */
  predicate KeyHolds(db: Database, key: KeyConstraint) {
    && UniqueHolds(RowKeys(db, key.table, key.columns))
    && (key.kind == PrimaryKey ==> NullFree(RowKeys(db, key.table, key.columns)))
  }

  predicate KeysHold(db: Database, keys: seq<KeyConstraint>) {
    forall i :: 0 <= i < |keys| ==> KeyHolds(db, keys[i])
  }

  ghost predicate KeysOrdered(le: KeyOrder, keys: seq<seq<Value>>) {
    forall i, j :: 0 <= i < j < |keys| ==> le(keys[i], keys[j])
  }

  /** The rows of SELECT key columns, value column FROM table, before ordering. */
  function KeyedRows(db: Database, key: KeyConstraint, r: ColumnRef): seq<KeyedRow> {
    var rows := RowsOf(db, TableOf(r));
    seq(|rows|, i requires 0 <= i < |rows| => KeyedRow(KeyCells(rows[i], key.columns), CellAt(rows[i], r.column)))
  }

  /** A connection reads `db`: a column in any order, keyed rows ordered by their key. */
  ghost predicate ReadsFrom(conn: ScanConnection, db: Database, order: Ordering) {
    && (forall r :: multiset(Flatten(conn.column(r))) == multiset(Column(db, r)))
    && (forall key, r :: multiset(Flatten(conn.keyed(key, r))) == multiset(KeyedRows(db, key, r)))
    && (forall key, r :: KeyOrdered(order(key), Flatten(conn.keyed(key, r))))
    && (forall key :: multiset(Flatten(conn.keys(key))) == multiset(RowKeys(db, key.table, key.columns)))
    && (forall key :: KeysOrdered(order(key), Flatten(conn.keys(key))))
  }

  lemma ReadsAt(conn: ScanConnection, db: Database, order: Ordering, key: KeyConstraint, r: ColumnRef)
    requires ReadsFrom(conn, db, order)
    ensures multiset(Flatten(conn.column(r))) == multiset(Column(db, r))
    ensures multiset(Flatten(conn.keyed(key, r))) == multiset(KeyedRows(db, key, r))
    ensures KeyOrdered(order(key), Flatten(conn.keyed(key, r)))
    ensures multiset(Flatten(conn.keys(key))) == multiset(RowKeys(db, key.table, key.columns))
    ensures KeysOrdered(order(key), Flatten(conn.keys(key)))
  {
    hide KeyOrdered, KeysOrdered, KeyedRows, RowKeys, Column, Flatten;
  }

  /** The declared primary keys of the source hold. */
  ghost predicate PrimaryKeysHold(db: Database, keys: seq<KeyConstraint>) {
    forall key, i, j | key in keys && key.kind == PrimaryKey && 0 <= i < j < |RowsOf(db, key.table)| ::
      KeyCells(RowsOf(db, key.table)[i], key.columns) != KeyCells(RowsOf(db, key.table)[j], key.columns)
  }

  lemma KeysHoldPrimary(db: Database, keys: seq<KeyConstraint>)
    requires KeysHold(db, keys)
    ensures PrimaryKeysHold(db, keys)
  {
    hide KeyCells, RowsOf;
    forall key, i, j | key in keys && key.kind == PrimaryKey && 0 <= i < j < |RowsOf(db, key.table)|
      ensures KeyCells(RowsOf(db, key.table)[i], key.columns) != KeyCells(RowsOf(db, key.table)[j], key.columns)
    {
      var n :| 0 <= n < |keys| && keys[n] == key;
      assert KeyHolds(db, keys[n]);
      var all := RowKeys(db, key.table, key.columns);
      assert Null !in all[i] && Null !in all[j] && all[i] != all[j];
    }
  }

  lemma KeyedRowsDistinct(db: Database, keys: seq<KeyConstraint>, key: KeyConstraint, r: ColumnRef)
    requires PrimaryKeysHold(db, keys) && key in keys && key.kind == PrimaryKey && key.table == TableOf(r)
    ensures KeysDistinct(KeyedRows(db, key, r))
  {
    hide KeyCells;
  }

  lemma RowsWithKey(rows: seq<KeyedRow>, k: seq<Value>, row: KeyedRow, i: nat)
    requires KeysDistinct(rows) && row in rows && row.key == k && i < |rows| && rows[i].key == k
    ensures rows[i] == row
  {
  }

  lemma DistinctPermuted(a: seq<KeyedRow>, b: seq<KeyedRow>)
    requires multiset(a) == multiset(b) && KeysDistinct(a)
    ensures KeysDistinct(b)
  {
    SameMembers(a, b);
    forall i, j | 0 <= i < j < |b| ensures b[i].key != b[j].key {
      if b[i].key == b[j].key {
        assert b[i] in a && b[j] in a;
        var n :| 0 <= n < |a| && a[n] == b[i];
        RowsWithKey(a, b[i].key, b[j], n);
        TwiceInBag(b, i, j);
        OnceInBag(a, n);
      }
    }
  }

  lemma TwiceInBag<T>(b: seq<T>, i: nat, j: nat)
    requires i < j < |b| && b[i] == b[j]
    ensures multiset(b)[b[i]] >= 2
  {
    assert b == b[..i] + [b[i]] + b[i + 1..j] + [b[j]] + b[j + 1..];
  }

  lemma OnceInBag(a: seq<KeyedRow>, n: nat)
    requires n < |a| && KeysDistinct(a)
    ensures multiset(a)[a[n]] == 1
  {
    assert a == a[..n] + [a[n]] + a[n + 1..];
    assert a[n] !in a[..n] && a[n] !in a[n + 1..];
  }

  // ----- when an aligned column passes -----

  function ImageKeyedRow(c: Crypto, m: Mappings, id: string, s: Settings, row: KeyedRow): KeyedRow {
    KeyedRow(row.key, ImageOf(Expect(c, m, id, s, row.value)))
  }

  /** Every value has its image, and no image is the value itself. */
  ghost predicate ReplacesAll(c: Crypto, m: Mappings, id: string, s: Settings, values: seq<Value>) {
    forall v :: v in values ==> CellOk(Expect(c, m, id, s, v), v, ImageOf(Expect(c, m, id, s, v)))
  }

  lemma AlignedIsImage(c: Crypto, m: Mappings, id: string, s: Settings, a: seq<KeyedRow>, b: seq<KeyedRow>)
    ensures AlignedOk(c, m, id, s, a, b) <==>
      && b == MapSeq(a, row => ImageKeyedRow(c, m, id, s, row))
      && forall i :: 0 <= i < |a| ==>
           CellOk(Expect(c, m, id, s, a[i].value), a[i].value, ImageOf(Expect(c, m, id, s, a[i].value)))
  {
    hide Expect, HasImage;
    var f := row => ImageKeyedRow(c, m, id, s, row);
    if AlignedOk(c, m, id, s, a, b) {
      forall i | 0 <= i < |a|
        ensures b[i] == MapSeq(a, f)[i]
        ensures CellOk(Expect(c, m, id, s, a[i].value), a[i].value, ImageOf(Expect(c, m, id, s, a[i].value)))
      {
        assert PairOk(c, m, id, s, a, b, i);
      }
      assert b == MapSeq(a, f);
    }
    if b == MapSeq(a, f) {
      forall i | 0 <= i < |a|
        ensures b[i] == ImageKeyedRow(c, m, id, s, a[i])
      {
        assert b[i] == MapSeq(a, f)[i];
      }
    }
  }

  lemma RowsAndValues(db: Database, key: KeyConstraint, r: ColumnRef, a: seq<KeyedRow>)
    requires multiset(a) == multiset(KeyedRows(db, key, r))
    ensures forall i :: 0 <= i < |a| ==> a[i].value in Column(db, r)
    ensures forall v :: v in Column(db, r) ==> exists i :: 0 <= i < |a| && a[i].value == v
  {
    hide KeyCells;
    var rows := KeyedRows(db, key, r);
    SameMembers(a, rows);
    forall i | 0 <= i < |a| ensures a[i].value in Column(db, r) {
      assert a[i] in rows;
      var n :| 0 <= n < |rows| && rows[n] == a[i];
      assert Column(db, r)[n] == rows[n].value;
    }
    forall v | v in Column(db, r) ensures exists i :: 0 <= i < |a| && a[i].value == v {
      var n :| 0 <= n < |Column(db, r)| && Column(db, r)[n] == v;
      assert rows[n].value == v && rows[n] in a;
    }
  }

  lemma ScanReplaces(c: Crypto, m: Mappings, id: string, s: Settings, db: Database, key: KeyConstraint, r: ColumnRef,
                     a: seq<KeyedRow>)
    requires multiset(a) == multiset(KeyedRows(db, key, r))
    ensures ReplacesAll(c, m, id, s, Column(db, r)) <==>
      forall i :: 0 <= i < |a| ==>
        CellOk(Expect(c, m, id, s, a[i].value), a[i].value, ImageOf(Expect(c, m, id, s, a[i].value)))
  {
    RowsAndValues(db, key, r, a);
    hide Expect, CellOk, KeyedRows, Column, ImageOf;
    if forall i :: 0 <= i < |a| ==>
        CellOk(Expect(c, m, id, s, a[i].value), a[i].value, ImageOf(Expect(c, m, id, s, a[i].value)))
    {
      forall v | v in Column(db, r) ensures CellOk(Expect(c, m, id, s, v), v, ImageOf(Expect(c, m, id, s, v))) {
        var i :| 0 <= i < |a| && a[i].value == v;
      }
    }
  }

  lemma MappedOrder(le: KeyOrder, a: seq<KeyedRow>, f: KeyedRow -> KeyedRow)
    requires forall row :: f(row).key == row.key
    ensures KeyOrdered(le, a) ==> KeyOrdered(le, MapSeq(a, f))
    ensures KeysDistinct(a) ==> KeysDistinct(MapSeq(a, f))
  {
  }

  /** An aligned column passes exactly when the rows of the target are, key for key, the rows of the
      source with every value replaced by its image, and no value is its own image. */
  lemma AlignedColumnExact(c: Crypto, m: Mappings, key: KeyConstraint, x: ConfiguredColumn, keys: seq<KeyConstraint>,
                           source: ScanConnection, target: ScanConnection, from: Database, to: Database,
                           order: Ordering)
    requires Orders(order) && ReadsFrom(source, from, order) && ReadsFrom(target, to, order)
    requires PrimaryKeysHold(from, keys) && key in keys && key.kind == PrimaryKey && key.table == TableOf(x.ref)
    ensures Clean(ColumnTally(c, m, ByPrimaryKey(key), x, source, target)) <==>
      && ReplacesAll(c, m, x.id, x.settings, Column(from, x.ref))
      && multiset(KeyedRows(to, key, x.ref))
           == multiset(MapSeq(KeyedRows(from, key, x.ref), row => ImageKeyedRow(c, m, x.id, x.settings, row)))
  {
    hide ColumnTally, Clean, Flatten, KeyedRows, ReplacesAll, MapSeq, Antisymmetric, KeyOrdered, KeysDistinct,
      PrimaryKeysHold, Column, Expect, AlignedOk, ReadsFrom, CellOk;
    var a, b := Flatten(source.keyed(key, x.ref)), Flatten(target.keyed(key, x.ref));
    var f := (row: KeyedRow) => ImageKeyedRow(c, m, x.id, x.settings, row);
    ReadsAt(source, from, order, key, x.ref);
    ReadsAt(target, to, order, key, x.ref);
    AlignedColumnClean(c, m, key, x, source, target);
    AlignedIsImage(c, m, x.id, x.settings, a, b);
    ScanReplaces(c, m, x.id, x.settings, from, key, x.ref, a);
    MapMultiset(a, KeyedRows(from, key, x.ref), f);
    if multiset(b) == multiset(MapSeq(a, f)) {
      KeyedRowsDistinct(from, keys, key, x.ref);
      DistinctPermuted(KeyedRows(from, key, x.ref), a);
      MappedOrder(order(key), a, f);
      assert Antisymmetric(order(key));
      OrderedUnique(order(key), MapSeq(a, f), b);
    }
    assert AlignedOk(c, m, x.id, x.settings, a, b) <==>
      b == MapSeq(a, f) && ReplacesAll(c, m, x.id, x.settings, Column(from, x.ref));
  }

  // ----- when a column compared as a multiset passes -----

  ghost predicate AllHaveImages(c: Crypto, m: Mappings, id: string, s: Settings, values: seq<Value>) {
    forall v :: v in values ==> HasImage(Expect(c, m, id, s, v))
  }

  lemma ImagesIsMap(c: Crypto, m: Mappings, id: string, s: Settings, values: seq<Value>)
    ensures Images(c, m, id, s, values) == MapSeq(values, v => ImageOf(Expect(c, m, id, s, v)))
    ensures AllMapped(c, m, id, s, values) <==> AllHaveImages(c, m, id, s, values)
  {
    hide Expect, ImageOf;
  }

  lemma ImagesPermuted(c: Crypto, m: Mappings, id: string, s: Settings, a: seq<Value>, b: seq<Value>)
    requires multiset(a) == multiset(b)
    ensures multiset(Images(c, m, id, s, a)) == multiset(Images(c, m, id, s, b))
    ensures AllHaveImages(c, m, id, s, a) <==> AllHaveImages(c, m, id, s, b)
    ensures TextsOf(a) == TextsOf(b)
  {
    hide Expect, ImageOf, MapSeq, Images;
    ImagesIsMap(c, m, id, s, a);
    ImagesIsMap(c, m, id, s, b);
    MapMultiset(a, b, v => ImageOf(Expect(c, m, id, s, v)));
    SameMembers(a, b);
  }

  /** The texts whose digests the fallback comparison relies on. */
  ghost function ComparedTexts(c: Crypto, m: Mappings, x: ConfiguredColumn, from: Database, to: Database): set<string> {
    TextsOf(Images(c, m, x.id, x.settings, Column(from, x.ref))) + TextsOf(Column(to, x.ref))
  }

  /** A column compared as a multiset passes whenever the target column holds the images of the
      source column; when no two of the compared texts share a digest, it passes only then. */
  lemma MultisetColumnExact(c: Crypto, m: Mappings, x: ConfiguredColumn, key: KeyConstraint, source: ScanConnection,
                            target: ScanConnection, from: Database, to: Database, order: Ordering)
    requires ReadsFrom(source, from, order) && ReadsFrom(target, to, order)
    ensures var images := multiset(Images(c, m, x.id, x.settings, Column(from, x.ref)));
      var passes := Clean(ColumnTally(c, m, ByMultiset, x, source, target));
      var exact := AllHaveImages(c, m, x.id, x.settings, Column(from, x.ref)) && multiset(Column(to, x.ref)) == images;
      && (exact ==> passes)
      && (InjectiveOn(c, x.id, ComparedTexts(c, m, x, from, to)) ==> (passes <==> exact))
  {
    hide ColumnTally, Clean, Flatten, Column, Expect, Images, ReadsFrom, MultisetTally, AllMapped, AllHaveImages,
      TextsOf, InjectiveOn;
    var a, b := Flatten(source.column(x.ref)), Flatten(target.column(x.ref));
    ReadsAt(source, from, order, key, x.ref);
    ReadsAt(target, to, order, key, x.ref);
    MultisetColumnClean(c, m, x, source, target);
    ImagesPermuted(c, m, x.id, x.settings, a, Column(from, x.ref));
    ImagesPermuted(c, m, x.id, x.settings, b, Column(to, x.ref));
    ImagesIsMap(c, m, x.id, x.settings, a);
    TextsPermuted(Images(c, m, x.id, x.settings, a), Images(c, m, x.id, x.settings, Column(from, x.ref)));
    if AllMapped(c, m, x.id, x.settings, a) && multiset(b) == multiset(Images(c, m, x.id, x.settings, a)) {
      MultisetComplete(c, m, x.id, x.settings, a, b);
    }
    if InjectiveOn(c, x.id, ComparedTexts(c, m, x, from, to)) && Clean(MultisetTally(c, m, x.id, x.settings, a, b)) {
      MultisetSound(c, m, x.id, x.settings, a, b);
    }
  }

  lemma TextsPermuted(a: seq<Value>, b: seq<Value>)
    requires multiset(a) == multiset(b)
    ensures TextsOf(a) == TextsOf(b)
  {
    SameMembers(a, b);
  }

  // ----- all configured columns -----

  /** What a passing column guarantees about the two databases. */
  ghost predicate ColumnIsImage(c: Crypto, m: Mappings, plan: Plan, x: ConfiguredColumn, from: Database, to: Database) {
    match plan
    case Unavailable => false
    case ByPrimaryKey(key) =>
      && ReplacesAll(c, m, x.id, x.settings, Column(from, x.ref))
      && multiset(KeyedRows(to, key, x.ref))
           == multiset(MapSeq(KeyedRows(from, key, x.ref), row => ImageKeyedRow(c, m, x.id, x.settings, row)))
    case ByMultiset =>
      && AllHaveImages(c, m, x.id, x.settings, Column(from, x.ref))
      && multiset(Column(to, x.ref)) == multiset(Images(c, m, x.id, x.settings, Column(from, x.ref)))
  }

  lemma {:induction false} PrimaryKeyOfListed(keys: seq<KeyConstraint>, t: TableRef)
    ensures var key := PrimaryKeyOf(keys, t);
      key.Some? ==> key.value in keys && key.value.kind == PrimaryKey && key.value.table == t
  {
    if keys != [] { PrimaryKeyOfListed(keys[..|keys| - 1], t); }
  }

  lemma PlanKey(groups: seq<GroupEntry>, schemas: Schemas, r: ColumnRef)
    ensures var plan := PlanFor(groups, schemas, r);
      plan.ByPrimaryKey? ==>
        && plan.key in schemas.sourceKeys && plan.key.kind == PrimaryKey && plan.key.table == TableOf(r)
        && !KeyIsConfigured(groups, plan.key)
  {
    hide KeyIsConfigured;
    PrimaryKeyOfListed(schemas.sourceKeys, TableOf(r));
  }

  /** No two compared texts of a column that is compared as a multiset share a digest. */
  ghost predicate DigestsSeparate(c: Crypto, m: Mappings, groups: seq<GroupEntry>, schemas: Schemas,
                                  columns: seq<ConfiguredColumn>, from: Database, to: Database)
  {
    forall i :: 0 <= i < |columns| && PlanFor(groups, schemas, columns[i].ref).ByMultiset? ==>
      InjectiveOn(c, columns[i].id, ComparedTexts(c, m, columns[i], from, to))
  }

  lemma OneColumnExact(c: Crypto, m: Mappings, groups: seq<GroupEntry>, schemas: Schemas, x: ConfiguredColumn,
                       source: ScanConnection, target: ScanConnection, from: Database, to: Database, order: Ordering)
    requires Orders(order) && ReadsFrom(source, from, order) && ReadsFrom(target, to, order)
    requires PrimaryKeysHold(from, schemas.sourceKeys)
    ensures var image := ColumnIsImage(c, m, PlanFor(groups, schemas, x.ref), x, from, to);
      && (image ==> ColumnClean(c, m, groups, schemas, x, source, target))
      && (!PlanFor(groups, schemas, x.ref).ByMultiset? || InjectiveOn(c, x.id, ComparedTexts(c, m, x, from, to)) ==>
            (ColumnClean(c, m, groups, schemas, x, source, target) <==> image))
  {
    var plan := PlanFor(groups, schemas, x.ref);
    PlanKey(groups, schemas, x.ref);
    hide PlanFor, ColumnTally, Clean, KeyIsConfigured, PrimaryKeysHold, ReadsFrom, Orders, ReplacesAll, MapSeq,
      KeyedRows, AllHaveImages, InjectiveOn, ComparedTexts, Column, Images, Expect;
    match plan {
      case Unavailable =>
        UnavailableFails(c, m, x, source, target);
      case ByPrimaryKey(key) =>
        AlignedColumnExact(c, m, key, x, schemas.sourceKeys, source, target, from, to, order);
      case ByMultiset =>
        MultisetColumnExact(c, m, x, KeyConstraint(PrimaryKey, TableOf(x.ref), []), source, target, from, to, order);
    }
  }

  /** The check of all configured mappings passes whenever every column of the target is the image of
      its source column. When it passes, every column aligned by its primary key is that image, for
      every digest; every other column is too, when the texts compared there have different digests. */
  lemma MappingsCheckExact(c: Crypto, m: Mappings, groups: seq<GroupEntry>, schemas: Schemas,
                           columns: seq<ConfiguredColumn>, source: ScanConnection, target: ScanConnection,
                           from: Database, to: Database, order: Ordering)
    requires Orders(order) && ReadsFrom(source, from, order) && ReadsFrom(target, to, order)
    requires PrimaryKeysHold(from, schemas.sourceKeys)
    ensures var passes := Clean(TotalTally(c, m, groups, schemas, columns, source, target, |columns|));
      var image := forall i :: 0 <= i < |columns| ==>
        ColumnIsImage(c, m, PlanFor(groups, schemas, columns[i].ref), columns[i], from, to);
      && (image ==> passes)
      && (passes ==> forall i :: 0 <= i < |columns| && !PlanFor(groups, schemas, columns[i].ref).ByMultiset? ==>
            ColumnIsImage(c, m, PlanFor(groups, schemas, columns[i].ref), columns[i], from, to))
      && (DigestsSeparate(c, m, groups, schemas, columns, from, to) ==> (passes <==> image))
  {
    hide ColumnIsImage, ColumnClean, TotalTally, Clean, PlanFor, InjectiveOn, ReadsFrom, Orders, PrimaryKeysHold,
      ComparedTexts;
    TotalClean(c, m, groups, schemas, columns, source, target, |columns|);
    forall i | 0 <= i < |columns|
      ensures var plan := PlanFor(groups, schemas, columns[i].ref);
        var image := ColumnIsImage(c, m, plan, columns[i], from, to);
        && (image ==> ColumnClean(c, m, groups, schemas, columns[i], source, target))
        && (!plan.ByMultiset? || InjectiveOn(c, columns[i].id, ComparedTexts(c, m, columns[i], from, to)) ==>
              (ColumnClean(c, m, groups, schemas, columns[i], source, target) <==> image))
    {
      OneColumnExact(c, m, groups, schemas, columns[i], source, target, from, to, order);
    }
  }
}
