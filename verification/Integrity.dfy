/** Foreign keys survive: a relationship that sits in one place is rewritten consistently on both
    sides. */
module Integrity {
  import opened Base
  import opened Policy
  import opened RegistryModel
  import opened Database
  import opened VerifierModel
  import opened Graph
  import opened DataPlane

  /** All referencing columns belong to one table, all referenced columns to one table, in pairs. */
  predicate WellFormed(fk: ForeignKey) {
    && fk.child != [] && |fk.child| == |fk.parent|
    && (forall j :: 0 <= j < |fk.child| ==> TableOf(fk.child[j]) == TableOf(fk.child[0]))
    && (forall j :: 0 <= j < |fk.parent| ==> TableOf(fk.parent[j]) == TableOf(fk.parent[0]))
  }

  /** The rows the check looks at: MATCH SIMPLE needs every component, MATCH FULL any component
      (section 11.8 of ISO/IEC 9075:1992). */
  predicate Referencing(fk: ForeignKey, row: Row) {
    match fk.matching
    case MatchSimple => forall j :: 0 <= j < |fk.child| ==> CellAt(row, fk.child[j].column) != Null
    case MatchFull => exists j :: 0 <= j < |fk.child| && CellAt(row, fk.child[j].column) != Null
  }

  /** SQL equality of all pairs: NULL equals nothing. */
  predicate Matches(fk: ForeignKey, child: Row, parent: Row)
    requires |fk.child| == |fk.parent|
  {
    forall j :: 0 <= j < |fk.child| ==>
      && CellAt(child, fk.child[j].column) != Null
      && CellAt(child, fk.child[j].column) == CellAt(parent, fk.parent[j].column)
  }

  predicate Orphan(db: Database, fk: ForeignKey, row: Row)
    requires WellFormed(fk)
  {
    Referencing(fk, row)
    && !exists i :: 0 <= i < |RowsOf(db, TableOf(fk.parent[0]))|
         && Matches(fk, row, RowsOf(db, TableOf(fk.parent[0]))[i])
  }

  /** `_foreign_key_orphan_count` over the first `n` child rows. */
  function OrphanCount(db: Database, fk: ForeignKey, n: nat): nat
    requires WellFormed(fk) && n <= |RowsOf(db, TableOf(fk.child[0]))|
  {
    if n == 0 then 0
    else OrphanCount(db, fk, n - 1) + Indicator(Orphan(db, fk, RowsOf(db, TableOf(fk.child[0]))[n - 1]))
  }

  function Orphans(db: Database, fk: ForeignKey): nat
    requires WellFormed(fk)
  {
    OrphanCount(db, fk, |RowsOf(db, TableOf(fk.child[0]))|)
  }

  lemma {:induction false} NoOrphans(db: Database, fk: ForeignKey, n: nat)
    requires WellFormed(fk) && n <= |RowsOf(db, TableOf(fk.child[0]))|
    ensures OrphanCount(db, fk, n) == 0 <==>
      forall i :: 0 <= i < n ==> !Orphan(db, fk, RowsOf(db, TableOf(fk.child[0]))[i])
  {
    if n > 0 {
      hide Orphan;
      NoOrphans(db, fk, n - 1);
    }
  }

  // ----- cells of the restored database -----

  lemma ImageRowsAt(x: Context, m: Mappings, t: TableRef)
    ensures |RowsOf(ImageDatabase(x, m), t)| == |RowsOf(x.db, t)|
    ensures forall i :: 0 <= i < |RowsOf(x.db, t)| ==>
      RowsOf(ImageDatabase(x, m), t)[i] == ImageRow(x, m, t, RowsOf(x.db, t)[i])
  {
    hide ImageRow;
  }

  lemma ImageCellAt(x: Context, m: Mappings, r: ColumnRef, row: Row)
    ensures CellAt(ImageRow(x, m, TableOf(r), row), r.column) == ImageCell(x, m, r, CellAt(row, r.column))
  {
    NullStaysNull(x, m, r);
    assert ColumnRef(TableOf(r).schema, TableOf(r).table, r.column) == r;
  }

  lemma {:induction false} GroupIndex(groups: seq<GroupEntry>, r: ColumnRef) returns (i: nat)
    requires GroupForColumn(groups, r).Some?
    ensures i < |groups| && r in groups[i].group.columns && groups[i].id == GroupForColumn(groups, r).value
  {
    if r in groups[0].group.columns {
      i := 0;
    } else {
      i := GroupIndex(groups[1..], r);
      i := i + 1;
    }
  }

  /** A non-NULL cell of the source stays non-NULL. */
  lemma ImageNotNull(x: Context, m: Mappings, r: ColumnRef, v: Value)
    requires Ready(x, m) && PolicyOk(x) && v in Column(x.db, r) && v != Null
    ensures ImageCell(x, m, r, v) != Null
  {
    if GroupForColumn(x.groups, r).Some? {
      var i := GroupIndex(x.groups, r);
      SettingsMapHas(x.groups, i);
      hide Ready, Expect, Column;
      ValueIsMapped(x, m, i, r, v);
    }
  }

  /** Columns in the same place rewrite equal values equally. */
  lemma SamePlaceSameImage(x: Context, m: Mappings, a: ColumnRef, b: ColumnRef, v: Value)
    requires GroupForColumn(x.groups, a) == GroupForColumn(x.groups, b)
    ensures ImageCell(x, m, a, v) == ImageCell(x, m, b, v)
  {
  }

  lemma ReferencingSource(x: Context, m: Mappings, fk: ForeignKey, row: Row)
    requires WellFormed(fk) && Referencing(fk, ImageRow(x, m, TableOf(fk.child[0]), row))
    ensures Referencing(fk, row)
  {
    hide ImageRow, ImageCell;
    forall j | 0 <= j < |fk.child|
      ensures CellAt(ImageRow(x, m, TableOf(fk.child[0]), row), fk.child[j].column) != Null
        ==> CellAt(row, fk.child[j].column) != Null
    {
      ImageCellAt(x, m, fk.child[j], row);
      NullStaysNull(x, m, fk.child[j]);
    }
  }

  lemma MatchesImage(x: Context, m: Mappings, fk: ForeignKey, i: nat, p: nat)
    requires Ready(x, m) && PolicyOk(x) && WellFormed(fk) && OnePlace(fk, x.groups)
    requires i < |RowsOf(x.db, TableOf(fk.child[0]))| && p < |RowsOf(x.db, TableOf(fk.parent[0]))|
    requires Matches(fk, RowsOf(x.db, TableOf(fk.child[0]))[i], RowsOf(x.db, TableOf(fk.parent[0]))[p])
    ensures Matches(fk, ImageRow(x, m, TableOf(fk.child[0]), RowsOf(x.db, TableOf(fk.child[0]))[i]),
                    ImageRow(x, m, TableOf(fk.parent[0]), RowsOf(x.db, TableOf(fk.parent[0]))[p]))
  {
    var child, parent := RowsOf(x.db, TableOf(fk.child[0]))[i], RowsOf(x.db, TableOf(fk.parent[0]))[p];
    hide Ready, PolicyOk, ImageRow, ImageCell, GroupForColumn;
    forall j | 0 <= j < |fk.child|
      ensures CellAt(ImageRow(x, m, TableOf(fk.child[0]), child), fk.child[j].column) != Null
      ensures CellAt(ImageRow(x, m, TableOf(fk.child[0]), child), fk.child[j].column)
           == CellAt(ImageRow(x, m, TableOf(fk.parent[0]), parent), fk.parent[j].column)
    {
      var a, b, v := fk.child[j], fk.parent[j], CellAt(child, fk.child[j].column);
      assert Column(x.db, a)[i] == v;
      ImageCellAt(x, m, a, child);
      ImageCellAt(x, m, b, parent);
      ImageNotNull(x, m, a, v);
      assert a in fk.child + fk.parent && b in fk.child + fk.parent;
      SamePlaceSameImage(x, m, a, b, v);
    }
  }

  lemma RelationshipSurvives(x: Context, m: Mappings, fk: ForeignKey)
    requires Ready(x, m) && PolicyOk(x) && WellFormed(fk) && OnePlace(fk, x.groups) && Orphans(x.db, fk) == 0
    ensures Orphans(ImageDatabase(x, m), fk) == 0
  {
    var image, child, parent := ImageDatabase(x, m), TableOf(fk.child[0]), TableOf(fk.parent[0]);
    ImageRowsAt(x, m, child);
    ImageRowsAt(x, m, parent);
    NoOrphans(x.db, fk, |RowsOf(x.db, child)|);
    hide Ready, PolicyOk, ImageRow, ImageDatabase, Referencing, Matches, OnePlace;
    forall i | 0 <= i < |RowsOf(image, child)|
      ensures !Orphan(image, fk, RowsOf(image, child)[i])
    {
      if Referencing(fk, RowsOf(image, child)[i]) {
        ReferencingSource(x, m, fk, RowsOf(x.db, child)[i]);
        assert !Orphan(x.db, fk, RowsOf(x.db, child)[i]);
        var p :| 0 <= p < |RowsOf(x.db, parent)| && Matches(fk, RowsOf(x.db, child)[i], RowsOf(x.db, parent)[p]);
        MatchesImage(x, m, fk, i, p);
        assert Matches(fk, RowsOf(image, child)[i], RowsOf(image, parent)[p]);
      }
    }
    NoOrphans(image, fk, |RowsOf(image, child)|);
  }

  /** Referential integrity: a policy that the validator accepts maps a database without orphan rows
      to a database without orphan rows, for simple and full matching, composite keys and NULLs. */
  lemma ForeignKeysSurvive(p: Policy, snapshot: Snapshot, x: Context, m: Mappings)
    requires ValidPolicy(p) && p.groups == x.groups && Ready(x, m)
    requires ValidatePolicyAgainstSchema(p, snapshot).None?
    requires forall fk :: fk in snapshot.foreignKeys ==> WellFormed(fk) && Orphans(x.db, fk) == 0
    ensures forall fk :: fk in snapshot.foreignKeys ==> Orphans(ImageDatabase(x, m), fk) == 0
  {
    ValidatorAcceptsExactly(p, snapshot);
    assert PolicyOk(x);
    hide ValidPolicy, Ready, Orphans, ImageDatabase, ValidatePolicyAgainstSchema;
    forall fk | fk in snapshot.foreignKeys ensures Orphans(ImageDatabase(x, m), fk) == 0 {
      RelationshipSurvives(x, m, fk);
    }
  }
}
