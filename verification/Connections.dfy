/** Connections to a PostgreSQL database: for every database there are cursors that read exactly its rows,
    ordered alike by every key, so what the theorems ask of the two connections can always be met. */
module Connections {
  import opened Base
  import opened Cursor
  import opened Policy
  import opened Database
  import opened VerifierModel
  import opened Verifier
  import opened Scans
  import opened Pipeline

  // ----- an order of keys -----

  /** Texts in codepoint order, then values of other types, then NULL (ORDER BY puts NULLs last). */
  predicate ValueLe(a: Value, b: Value) {
    match (a, b)
    case (_, Null) => true
    case (Null, _) => false
    case (Text(s), Text(t)) => LexLe(s, t)
    case (Text(_), Other(_)) => true
    case (Other(_), Text(_)) => false
    case (Other(i), Other(j)) => i <= j
  }

  /** Composite keys, component by component. */
  predicate TupleLe(a: seq<Value>, b: seq<Value>) {
    a == [] || (b != [] && ValueLe(a[0], b[0]) && (a[0] == b[0] ==> TupleLe(a[1..], b[1..])))
  }

  lemma ValuesOrdered(a: Value, b: Value)
    ensures ValueLe(a, b) || ValueLe(b, a)
    ensures ValueLe(a, b) && ValueLe(b, a) ==> a == b
  {
    if a.Text? && b.Text? {
      LexTotal(a.text, b.text);
      if LexLe(a.text, b.text) && LexLe(b.text, a.text) { LexAntisymmetric(a.text, b.text); }
    }
  }

  lemma ValuesTransitive(a: Value, b: Value, c: Value)
    requires ValueLe(a, b) && ValueLe(b, c)
    ensures ValueLe(a, c)
  {
    if a.Text? && b.Text? && c.Text? { LexTransitive(a.text, b.text, c.text); }
  }

  lemma {:induction false} TuplesOrdered(a: seq<Value>, b: seq<Value>)
    ensures TupleLe(a, b) || TupleLe(b, a)
    ensures TupleLe(a, b) && TupleLe(b, a) ==> a == b
  {
    hide ValueLe;
    if a != [] && b != [] {
      ValuesOrdered(a[0], b[0]);
      TuplesOrdered(a[1..], b[1..]);
      assert a == [a[0]] + a[1..] && b == [b[0]] + b[1..];
    }
  }

  lemma {:induction false} TuplesTransitive(a: seq<Value>, b: seq<Value>, c: seq<Value>)
    requires TupleLe(a, b) && TupleLe(b, c)
    ensures TupleLe(a, c)
  {
    hide ValueLe;
    if a != [] {
      ValuesTransitive(a[0], b[0], c[0]);
      if a[0] == c[0] {
        ValuesOrdered(a[0], b[0]);
        TuplesTransitive(a[1..], b[1..], c[1..]);
      }
    }
  }

  lemma TupleOrder()
    ensures TotalOrder(TupleLe) && Antisymmetric(TupleLe)
  {
    hide TupleLe;
    forall a, b ensures TupleLe(a, b) || TupleLe(b, a) { TuplesOrdered(a, b); }
    forall a, b, c | TupleLe(a, b) && TupleLe(b, c) ensures TupleLe(a, c) { TuplesTransitive(a, b, c); }
    forall a, b | TupleLe(a, b) && TupleLe(b, a) ensures a == b { TuplesOrdered(a, b); }
  }

  function RowLe(a: KeyedRow, b: KeyedRow): bool { TupleLe(a.key, b.key) }

  function EveryKeyAlike(key: KeyConstraint): KeyOrder { TupleLe }

  // ----- the connection -----

  /** All rows in one batch, and no batch for no rows. */
  function OneBatch<T>(rows: seq<T>): (batches: seq<seq<T>>)
    ensures Flatten(batches) == rows
  {
    if rows == [] then [] else
      assert Flatten([rows]) == rows + Flatten([]);
      [rows]
  }

  function Opened(db: Database): ScanConnection {
    ScanConnection(
      r => OneBatch(Column(db, r)),
      (key: KeyConstraint, r) => OneBatch(SortBy(RowLe, KeyedRows(db, key, r))),
      (key: KeyConstraint) => OneBatch(SortBy(TupleLe, RowKeys(db, key.table, key.columns))))
  }

  lemma OneBatchFaithful<T>(rows: seq<T>)
    ensures NonEmptyBatches(OneBatch(rows))
  {
  }

  lemma RowsSorted(rows: seq<KeyedRow>)
    ensures multiset(SortBy(RowLe, rows)) == multiset(rows) && KeyOrdered(TupleLe, SortBy(RowLe, rows))
  {
    hide SortBy, TupleLe;
    TupleOrder();
    assert TotalOrder(RowLe);
    SortBySorts(RowLe, rows);
  }

  lemma KeysSorted(keys: seq<seq<Value>>)
    ensures multiset(SortBy(TupleLe, keys)) == multiset(keys) && KeysOrdered(TupleLe, SortBy(TupleLe, keys))
  {
    hide SortBy, TupleLe;
    TupleOrder();
    SortBySorts(TupleLe, keys);
  }

  /** Every database can be opened faithfully, and every two in the same order. */
  lemma EveryDatabaseOpens(db: Database)
    ensures Orders(EveryKeyAlike) && OpensFaithfully(Opened(db), db, EveryKeyAlike)
  {
    hide SortBy, TupleLe, RowLe, KeyedRows, RowKeys, Column, OneBatch, KeyOrdered, KeysOrdered, NonEmptyBatches;
    TupleOrder();
    var conn := Opened(db);
    forall r ensures NonEmptyBatches(conn.column(r)) { OneBatchFaithful(Column(db, r)); }
    forall key, r
      ensures multiset(Flatten(conn.keyed(key, r))) == multiset(KeyedRows(db, key, r))
      ensures KeyOrdered(EveryKeyAlike(key), Flatten(conn.keyed(key, r))) && NonEmptyBatches(conn.keyed(key, r))
    {
      RowsSorted(KeyedRows(db, key, r));
      OneBatchFaithful(SortBy(RowLe, KeyedRows(db, key, r)));
    }
    forall key
      ensures multiset(Flatten(conn.keys(key))) == multiset(RowKeys(db, key.table, key.columns))
      ensures KeysOrdered(EveryKeyAlike(key), Flatten(conn.keys(key))) && NonEmptyBatches(conn.keys(key))
    {
      KeysSorted(RowKeys(db, key.table, key.columns));
      OneBatchFaithful(SortBy(TupleLe, RowKeys(db, key.table, key.columns)));
    }
  }
}
