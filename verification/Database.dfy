/** PostgreSQL tables as sequences of rows, and the keys a configured group has in them. */
module Database {
  import opened Base
  import opened Policy

  datatype TableRef = TableRef(schema: string, table: string)

  type Row = map<string, Value>

  type Database = map<TableRef, seq<Row>>

  function TableOf(r: ColumnRef): TableRef { TableRef(r.schema, r.table) }

  function CellAt(row: Row, column: string): Value {
    if column in row then row[column] else Null
  }

  function RowsOf(db: Database, t: TableRef): seq<Row> {
    if t in db then db[t] else []
  }

  /** The values of one column, row by row. */
  function Column(db: Database, r: ColumnRef): seq<Value> {
    var rows := RowsOf(db, TableOf(r));
    seq(|rows|, i requires 0 <= i < |rows| => CellAt(rows[i], r.column))
  }

  ghost function ValueKeys(c: Crypto, id: string, s: Settings, values: seq<Value>): set<string> {
    set v | v in values && KeyOf(c, id, s, v).Some? :: KeyOf(c, id, s, v).value
  }

  /** The keys of the non-NULL values of the listed columns. */
  ghost function ColumnKeys(c: Crypto, db: Database, id: string, s: Settings, columns: seq<ColumnRef>): set<string> {
    set r, h | r in columns && h in ValueKeys(c, id, s, Column(db, r)) :: h
  }

  ghost function SourceKeys(c: Crypto, db: Database, id: string, g: Group): set<string> {
    ColumnKeys(c, db, id, g.settings, g.columns)
  }

  /** Every non-NULL configured value is a text with a normal form. */
  ghost predicate Normalizable(c: Crypto, s: Settings, values: seq<Value>) {
    forall v :: v in values && v != Null ==> Normalize(c, s, v).Some?
  }

  lemma ValueKeysAppend(c: Crypto, id: string, s: Settings, a: seq<Value>, b: seq<Value>)
    ensures ValueKeys(c, id, s, a + b) == ValueKeys(c, id, s, a) + ValueKeys(c, id, s, b)
  {
  }

  lemma {:induction false} ValueKeysCount(c: Crypto, id: string, s: Settings, values: seq<Value>)
    ensures |ValueKeys(c, id, s, values)| <= |values|
  {
    if values != [] {
      var init, last := values[..|values| - 1], values[|values| - 1];
      ValueKeysCount(c, id, s, init);
      ValueKeysAppend(c, id, s, init, [last]);
      assert init + [last] == values;
      var k := KeyOf(c, id, s, last);
      assert ValueKeys(c, id, s, [last]) == if k.Some? then {k.value} else {};
    }
  }

  lemma ColumnKeysStep(c: Crypto, db: Database, id: string, s: Settings, columns: seq<ColumnRef>, i: nat)
    requires i < |columns|
    ensures ColumnKeys(c, db, id, s, columns[..i + 1])
         == ColumnKeys(c, db, id, s, columns[..i]) + ValueKeys(c, id, s, Column(db, columns[i]))
  {
    assert columns[..i + 1] == columns[..i] + [columns[i]];
  }

  /** The batches of SELECT DISTINCT ... WHERE ... IS NOT NULL: every non-NULL value once. */
  ghost predicate DistinctScan(db: Database, r: ColumnRef, batches: seq<seq<Value>>) {
    && (forall i :: 0 <= i < |batches| ==> batches[i] != [])
    && Distinct(Flatten(batches))
    && forall v :: v in Flatten(batches) <==> v in Column(db, r) && v != Null
  }

  lemma ScanKeys(c: Crypto, db: Database, id: string, s: Settings, r: ColumnRef, batches: seq<seq<Value>>)
    requires DistinctScan(db, r, batches)
    ensures ValueKeys(c, id, s, Flatten(batches)) == ValueKeys(c, id, s, Column(db, r))
  {
  }

  ghost predicate GroupNormalizable(c: Crypto, db: Database, g: Group) {
    forall i :: 0 <= i < |g.columns| ==> Normalizable(c, g.settings, Column(db, g.columns[i]))
  }
}
