/** How many distinct values and which keys survive: replacement merges exactly the spellings of one
    normal form. */
module Cardinality {
  import opened Base
  import opened Policy
  import opened RegistryModel
  import opened GeneratorModel
  import opened Database
  import opened VerifierModel
  import opened Scans
  import opened Graph
  import opened DataPlane
  import opened Integrity
  import opened Acceptance

  // ----- two maps that merge the same values -----

  ghost predicate SameKernel<A(!new), B, C>(s: set<A>, f: A -> B, g: A -> C) {
    forall a, b :: a in s && b in s ==> (f(a) == f(b) <==> g(a) == g(b))
  }

  lemma AddImage<A(!new), B>(s: set<A>, a: A, f: A -> B)
    ensures |ImageSet(s + {a}, f)| == |ImageSet(s, f)| + Indicator(f(a) !in ImageSet(s, f))
    ensures f(a) in ImageSet(s, f) <==> exists b :: b in s && f(b) == f(a)
  {
    assert ImageSet(s + {a}, f) == ImageSet(s, f) + {f(a)};
    if f(a) in ImageSet(s, f) { assert ImageSet(s, f) + {f(a)} == ImageSet(s, f); }
  }

  lemma {:induction false} SameKernelSameCount<A(!new), B, C>(s: set<A>, f: A -> B, g: A -> C)
    requires SameKernel(s, f, g)
    ensures |ImageSet(s, f)| == |ImageSet(s, g)|
  {
    if s != {} {
      var a :| a in s;
      var rest := s - {a};
      SameKernelSameCount(rest, f, g);
      assert rest + {a} == s;
      hide ImageSet;
      AddImage(rest, a, f);
      AddImage(rest, a, g);
    } else {
      assert ImageSet(s, f) == {} && ImageSet(s, g) == {};
    }
  }

  // ----- one normal form, one replacement -----

  function NormalValue(c: Crypto, s: Settings, v: Value): Value {
    match Normalize(c, s, v)
    case Some(n) => Text(n)
    case None => Null
  }

  ghost function NormalForms(c: Crypto, s: Settings, values: seq<Value>): set<string> {
    set v | v in values && Normalize(c, s, v).Some? :: Normalize(c, s, v).value
  }

  lemma SameReplacementSameKey(x: Context, m: Mappings, k: Key, l: Key)
    requires Ready(x, m) && k in m && l in m && k.group == l.group
    requires m[k].replacement.Some? && m[k].replacement == m[l].replacement
    ensures k == l
  {
    hide SourceCollected, KeysWithin, SourceNormalizable, AllFaithful, NothingPending, Disjoint;
  }

  lemma SameImageSameKey(x: Context, m: Mappings, i: nat, r: ColumnRef, v: Value, w: Value)
    requires Ready(x, m) && PolicyOk(x) && i < |x.groups| && r in x.groups[i].group.columns
    requires v in Column(x.db, r) && w in Column(x.db, r) && v != Null && w != Null
    ensures var id, s := x.groups[i].id, x.groups[i].group.settings;
      ImageCell(x, m, r, v) == ImageCell(x, m, r, w) <==> KeyOf(x.crypto, id, s, v) == KeyOf(x.crypto, id, s, w)
    ensures ImageCell(x, m, r, v) != Null
  {
    var c, id, s := x.crypto, x.groups[i].id, x.groups[i].group.settings;
    ConfiguredCell(x, m, i, r, v);
    ConfiguredCell(x, m, i, r, w);
    ValueIsMapped(x, m, i, r, v);
    ValueIsMapped(x, m, i, r, w);
    var k, l := Key(id, KeyOf(c, id, s, v).value), Key(id, KeyOf(c, id, s, w).value);
    hide Ready, PolicyOk, ImageCell, KeyOf, ValidValue, ValueKey;
    if ImageCell(x, m, r, v) == ImageCell(x, m, r, w) {
      assert m[k].replacement == m[l].replacement;
      SameReplacementSameKey(x, m, k, l);
    }
  }

  /** Two cells of a configured column get the same replacement exactly when they are spellings of
      one normal form. */
  lemma SameImageExactly(x: Context, m: Mappings, i: nat, r: ColumnRef, v: Value, w: Value)
    requires Ready(x, m) && PolicyOk(x) && i < |x.groups| && r in x.groups[i].group.columns
    requires v in Column(x.db, r) && w in Column(x.db, r)
    requires InjectiveOn(x.crypto, x.groups[i].id, NormalForms(x.crypto, x.groups[i].group.settings, Column(x.db, r)))
    ensures var s := x.groups[i].group.settings;
      ImageCell(x, m, r, v) == ImageCell(x, m, r, w) <==> NormalValue(x.crypto, s, v) == NormalValue(x.crypto, s, w)
  {
    var c, id, s := x.crypto, x.groups[i].id, x.groups[i].group.settings;
    hide Ready, PolicyOk, ImageCell, Column;
    NullStaysNull(x, m, r);
    NormalizedColumn(x, m, i, r, v);
    NormalizedColumn(x, m, i, r, w);
    if v != Null && w != Null {
      SameImageSameKey(x, m, i, r, v, w);
      assert Normalize(c, s, v).value in NormalForms(c, s, Column(x.db, r));
      assert Normalize(c, s, w).value in NormalForms(c, s, Column(x.db, r));
    } else if v != Null {
      SameImageSameKey(x, m, i, r, v, v);
    } else if w != Null {
      SameImageSameKey(x, m, i, r, w, w);
    }
  }

  lemma NormalizedColumn(x: Context, m: Mappings, i: nat, r: ColumnRef, v: Value)
    requires Ready(x, m) && i < |x.groups| && r in x.groups[i].group.columns && v in Column(x.db, r)
    ensures Normalize(x.crypto, x.groups[i].group.settings, v).Some? <==> v != Null
  {
    hide Column, OneToOne, KeysWithin, SourceCollected, Disjoint, AllFaithful, NothingPending;
    var g := x.groups[i].group;
    assert GroupNormalizable(x.crypto, x.db, g);
    var j :| 0 <= j < |g.columns| && g.columns[j] == r;
    assert Normalizable(x.crypto, g.settings, Column(x.db, g.columns[j]));
  }

  // ----- distinct counts -----

  /** COUNT(DISTINCT column) over the non-NULL values. */
  function DistinctValues(values: seq<Value>): set<Value> {
    set v | v in values && v != Null
  }

  lemma ImageDistinct(x: Context, m: Mappings, i: nat, r: ColumnRef)
    requires Ready(x, m) && PolicyOk(x) && i < |x.groups| && r in x.groups[i].group.columns
    ensures DistinctValues(Column(ImageDatabase(x, m), r))
         == ImageSet(DistinctValues(Column(x.db, r)), v => ImageCell(x, m, r, v))
  {
    hide Ready, PolicyOk, ImageCell, ImageDatabase, Column;
    var f := v => ImageCell(x, m, r, v);
    var target, image := DistinctValues(Column(ImageDatabase(x, m), r)), ImageSet(DistinctValues(Column(x.db, r)), f);
    NullStaysNull(x, m, r);
    forall w ensures w in target <==> w in image {
      ColumnImageMembers(x, m, r, w);
      forall v | v in Column(x.db, r) && v != Null ensures f(v) != Null {
        SameImageSameKey(x, m, i, r, v, v);
      }
    }
  }

  /** Whatever the digest merges, replacement never adds distinct values. */
  lemma NeverMoreDistinct(x: Context, m: Mappings, i: nat, r: ColumnRef)
    requires Ready(x, m) && PolicyOk(x) && i < |x.groups| && r in x.groups[i].group.columns
    ensures |DistinctValues(Column(ImageDatabase(x, m), r))| <= |DistinctValues(Column(x.db, r))|
  {
    hide Ready, PolicyOk, ImageCell, ImageDatabase, Column;
    ImageDistinct(x, m, i, r);
    ImageCount(DistinctValues(Column(x.db, r)), v => ImageCell(x, m, r, v));
  }

  /** The target column has as many distinct values as the source column has normal forms: as many as
      the source has values exactly when normalisation merges no two. */
  lemma ColumnCardinality(x: Context, m: Mappings, i: nat, r: ColumnRef)
    requires Ready(x, m) && PolicyOk(x) && i < |x.groups| && r in x.groups[i].group.columns
    requires InjectiveOn(x.crypto, x.groups[i].id, NormalForms(x.crypto, x.groups[i].group.settings, Column(x.db, r)))
    ensures var s := x.groups[i].group.settings;
      var sourceDistinct := |DistinctValues(Column(x.db, r))|;
      var targetDistinct := |DistinctValues(Column(ImageDatabase(x, m), r))|;
      && targetDistinct == |NormalForms(x.crypto, s, Column(x.db, r))|
      && (targetDistinct == sourceDistinct <==>
            InjectiveFor(DistinctValues(Column(x.db, r)), v => NormalValue(x.crypto, s, v)))
  {
    hide Ready, PolicyOk, ImageCell, ImageDatabase, Column, InjectiveOn;
    var c, s, values := x.crypto, x.groups[i].group.settings, DistinctValues(Column(x.db, r));
    var f, g := (v: Value) => ImageCell(x, m, r, v), (v: Value) => NormalValue(c, s, v);
    ImageDistinct(x, m, i, r);
    forall v, w | v in values && w in values ensures f(v) == f(w) <==> g(v) == g(w) {
      SameImageExactly(x, m, i, r, v, w);
    }
    SameKernelSameCount(values, f, g);
    ImageCount(values, g);
    forall v | v in values ensures Normalize(c, s, v).Some? {
      NormalizedColumn(x, m, i, r, v);
    }
    FormsCount(c, s, Column(x.db, r));
  }

  lemma FormsCount(c: Crypto, s: Settings, values: seq<Value>)
    requires forall v :: v in DistinctValues(values) ==> Normalize(c, s, v).Some?
    ensures |ImageSet(DistinctValues(values), v => NormalValue(c, s, v))| == |NormalForms(c, s, values)|
  {
    var forms := NormalForms(c, s, values);
    var wrap := (n: string) => Text(n);
    ImageCount(forms, wrap);
    assert InjectiveFor(forms, wrap);
    var image := ImageSet(DistinctValues(values), v => NormalValue(c, s, v));
    forall w | w in image ensures w in ImageSet(forms, wrap) {
      var v :| v in DistinctValues(values) && w == NormalValue(c, s, v);
      var n := Normalize(c, s, v).value;
      assert n in forms && wrap(n) == w;
    }
    forall w | w in ImageSet(forms, wrap) ensures w in image {
      var n :| n in forms && w == wrap(n);
      var v :| v in values && Normalize(c, s, v) == Some(n);
      assert v in DistinctValues(values) && NormalValue(c, s, v) == w;
    }
    assert image == ImageSet(forms, wrap);
  }

  /** NULLs survive exactly. */
  lemma NullsSurvive(x: Context, m: Mappings, i: nat, r: ColumnRef, n: nat)
    requires Ready(x, m) && PolicyOk(x) && i < |x.groups| && r in x.groups[i].group.columns
    requires n <= |Column(x.db, r)|
    ensures |Column(ImageDatabase(x, m), r)| == |Column(x.db, r)|
    ensures Nulls(Column(ImageDatabase(x, m), r)[..n]) == Nulls(Column(x.db, r)[..n])
  {
    hide Ready, PolicyOk, ImageCell, ImageDatabase, Column, Nulls;
    ColumnImage(x, m, r);
    NullsPrefix(Column(x.db, r), n);
    NullsPrefix(Column(ImageDatabase(x, m), r), n);
    if n > 0 {
      NullsSurvive(x, m, i, r, n - 1);
      var v := Column(x.db, r)[n - 1];
      assert v in Column(x.db, r);
      NullStaysNull(x, m, r);
      if v != Null { SameImageSameKey(x, m, i, r, v, v); }
    }
  }

  lemma NullsPrefix(values: seq<Value>, n: nat)
    requires n <= |values|
    ensures Nulls(values[..n]) == if n == 0 then 0 else Nulls(values[..n - 1]) + Indicator(values[n - 1] == Null)
    ensures n == |values| ==> values[..n] == values
  {
    if n > 0 { assert values[..n][..n - 1] == values[..n - 1]; }
  }

  // ----- unique keys -----

  function RefOf(t: TableRef, column: string): ColumnRef { ColumnRef(t.schema, t.table, column) }

  /** A cell up to spelling: configured cells by their normal form, others as they are. */
  function CellUpToSpelling(x: Context, r: ColumnRef, v: Value): Value {
    match GroupForColumn(x.groups, r)
    case None => v
    case Some(id) =>
      if id in SettingsMap(x.groups) then NormalValue(x.crypto, SettingsMap(x.groups)[id], v) else v
  }

  function KeyUpToSpelling(x: Context, t: TableRef, columns: seq<string>, key: seq<Value>): seq<Value> {
    seq(|key|, j requires 0 <= j < |key| =>
      if j < |columns| then CellUpToSpelling(x, RefOf(t, columns[j]), key[j]) else key[j])
  }

  function KeysUpToSpelling(x: Context, t: TableRef, columns: seq<string>): seq<seq<Value>> {
    var keys := RowKeys(x.db, t, columns);
    seq(|keys|, i requires 0 <= i < |keys| => KeyUpToSpelling(x, t, columns, keys[i]))
  }

  /** No two normal forms of a configured column of the table share a digest. */
  ghost predicate TableDigestsSeparate(x: Context, t: TableRef) {
    forall i, r :: 0 <= i < |x.groups| && r in x.groups[i].group.columns && TableOf(r) == t ==>
      InjectiveOn(x.crypto, x.groups[i].id, NormalForms(x.crypto, x.groups[i].group.settings, Column(x.db, r)))
  }

  /** Cell by cell, replacement and normal form merge the same values and keep NULL apart. */
  lemma CellKernel(x: Context, m: Mappings, t: TableRef, column: string, v: Value, w: Value)
    requires Ready(x, m) && PolicyOk(x) && TableDigestsSeparate(x, t)
    requires v in Column(x.db, RefOf(t, column)) && w in Column(x.db, RefOf(t, column))
    ensures var r := RefOf(t, column);
      && (ImageCell(x, m, r, v) == ImageCell(x, m, r, w) <==> CellUpToSpelling(x, r, v) == CellUpToSpelling(x, r, w))
      && (ImageCell(x, m, r, v) == Null <==> v == Null)
      && (CellUpToSpelling(x, r, v) == Null <==> v == Null)
  {
    var r := RefOf(t, column);
    if GroupForColumn(x.groups, r).Some? {
      var i := GroupIndex(x.groups, r);
      SettingsMapHas(x.groups, i);
      hide Ready, Expect, Column, InjectiveOn, NormalForms;
      assert TableOf(r) == t;
      SameImageExactly(x, m, i, r, v, w);
      NormalizedColumn(x, m, i, r, v);
      NullStaysNull(x, m, r);
      if v != Null { ImageNotNull(x, m, r, v); }
    }
  }

  lemma KeyCellsImage(x: Context, m: Mappings, t: TableRef, columns: seq<string>, n: nat)
    requires n < |RowsOf(x.db, t)|
    ensures |RowKeys(ImageDatabase(x, m), t, columns)| == |RowKeys(x.db, t, columns)| == |RowsOf(x.db, t)|
    ensures |RowKeys(x.db, t, columns)[n]| == |RowKeys(ImageDatabase(x, m), t, columns)[n]| == |columns|
    ensures forall j :: 0 <= j < |columns| ==>
      RowKeys(ImageDatabase(x, m), t, columns)[n][j] ==
        ImageCell(x, m, RefOf(t, columns[j]), RowKeys(x.db, t, columns)[n][j])
    ensures forall j :: 0 <= j < |columns| ==> RowKeys(x.db, t, columns)[n][j] in Column(x.db, RefOf(t, columns[j]))
  {
    hide ImageCell, ImageRow, ImageDatabase;
    ImageRowsAt(x, m, t);
    forall j | 0 <= j < |columns|
      ensures RowKeys(ImageDatabase(x, m), t, columns)[n][j]
        == ImageCell(x, m, RefOf(t, columns[j]), RowKeys(x.db, t, columns)[n][j])
      ensures RowKeys(x.db, t, columns)[n][j] in Column(x.db, RefOf(t, columns[j]))
    {
      ImageCellAt(x, m, RefOf(t, columns[j]), RowsOf(x.db, t)[n]);
      assert Column(x.db, RefOf(t, columns[j]))[n] == RowKeys(x.db, t, columns)[n][j];
    }
  }

  lemma RowPairKernel(x: Context, m: Mappings, t: TableRef, columns: seq<string>, a: nat, b: nat)
    requires Ready(x, m) && PolicyOk(x) && TableDigestsSeparate(x, t)
    requires a < |RowsOf(x.db, t)| && b < |RowsOf(x.db, t)|
    requires |RowKeys(ImageDatabase(x, m), t, columns)| == |KeysUpToSpelling(x, t, columns)| == |RowsOf(x.db, t)|
    ensures var after, forms := RowKeys(ImageDatabase(x, m), t, columns), KeysUpToSpelling(x, t, columns);
      && (after[a] == after[b] <==> forms[a] == forms[b])
      && (Null in after[a] <==> Null in forms[a])
  {
    hide Ready, PolicyOk, TableDigestsSeparate, ImageCell, CellUpToSpelling, ImageDatabase, Column, RowKeys, RowsOf;
    KeyCellsImage(x, m, t, columns, a);
    KeyCellsImage(x, m, t, columns, b);
    var before, after := RowKeys(x.db, t, columns), RowKeys(ImageDatabase(x, m), t, columns);
    var forms := KeysUpToSpelling(x, t, columns);
    forall j | 0 <= j < |columns|
      ensures after[a][j] == after[b][j] <==> forms[a][j] == forms[b][j]
      ensures after[a][j] == Null <==> forms[a][j] == Null
    {
      CellKernel(x, m, t, columns[j], before[a][j], before[b][j]);
    }
    assert |forms[a]| == |forms[b]| == |columns|;
  }

  /** A unique key survives exactly when no two rows of the source agree on it up to spelling. */
  lemma UniqueSurvivesExactly(x: Context, m: Mappings, t: TableRef, columns: seq<string>)
    requires Ready(x, m) && PolicyOk(x) && TableDigestsSeparate(x, t)
    ensures UniqueHolds(RowKeys(ImageDatabase(x, m), t, columns)) <==> UniqueHolds(KeysUpToSpelling(x, t, columns))
  {
    var after, forms := RowKeys(ImageDatabase(x, m), t, columns), KeysUpToSpelling(x, t, columns);
    ImageRowsAt(x, m, t);
    assert |after| == |forms| == |RowsOf(x.db, t)|;
    hide Ready, PolicyOk, TableDigestsSeparate, ImageDatabase, RowKeys, KeysUpToSpelling, RowsOf;
    forall a, b | 0 <= a < |after| && 0 <= b < |after|
      ensures after[a] == after[b] <==> forms[a] == forms[b]
      ensures Null in after[a] <==> Null in forms[a]
    {
      RowPairKernel(x, m, t, columns, a, b);
    }
  }

  lemma CellNull(x: Context, m: Mappings, r: ColumnRef, v: Value)
    requires Ready(x, m) && PolicyOk(x) && v in Column(x.db, r)
    ensures ImageCell(x, m, r, v) == Null <==> v == Null
  {
    hide Ready, PolicyOk, ImageCell, Column;
    NullStaysNull(x, m, r);
    if v != Null { ImageNotNull(x, m, r, v); }
  }

  /** Keys have a NULL in the same rows as before. */
  lemma KeyNullsSurvive(x: Context, m: Mappings, t: TableRef, columns: seq<string>)
    requires Ready(x, m) && PolicyOk(x)
    ensures |RowKeys(ImageDatabase(x, m), t, columns)| == |RowKeys(x.db, t, columns)|
    ensures forall n :: 0 <= n < |RowKeys(x.db, t, columns)| ==>
      (Null in RowKeys(ImageDatabase(x, m), t, columns)[n] <==> Null in RowKeys(x.db, t, columns)[n])
  {
    hide Ready, PolicyOk, ImageCell, ImageDatabase, Column, KeyCells;
    ImageRowsAt(x, m, t);
    var before, after := RowKeys(x.db, t, columns), RowKeys(ImageDatabase(x, m), t, columns);
    forall n | 0 <= n < |before| ensures Null in after[n] <==> Null in before[n] {
      KeyCellsImage(x, m, t, columns, n);
      forall j | 0 <= j < |columns| ensures after[n][j] == Null <==> before[n][j] == Null {
        CellNull(x, m, RefOf(t, columns[j]), before[n][j]);
      }
    }
  }

  /** A declared key survives exactly when no two rows of the source agree on it up to spelling; a
      primary key is as free of NULLs as before. */
  lemma KeySurvivesExactly(x: Context, m: Mappings, key: KeyConstraint)
    requires Ready(x, m) && PolicyOk(x) && TableDigestsSeparate(x, key.table)
    ensures KeyHolds(ImageDatabase(x, m), key) <==>
      && UniqueHolds(KeysUpToSpelling(x, key.table, key.columns))
      && (key.kind == PrimaryKey ==> NullFree(RowKeys(x.db, key.table, key.columns)))
  {
    hide Ready, PolicyOk, TableDigestsSeparate, ImageDatabase, RowKeys, KeysUpToSpelling, UniqueHolds;
    UniqueSurvivesExactly(x, m, key.table, key.columns);
    KeyNullsSurvive(x, m, key.table, key.columns);
  }

  // ----- columns in which normalisation merges nothing -----

  ghost predicate OneSpelling(x: Context, i: nat, r: ColumnRef)
    requires i < |x.groups|
  {
    InjectiveFor(DistinctValues(Column(x.db, r)), v => NormalValue(x.crypto, x.groups[i].group.settings, v))
  }

  /** In no configured column do two different values share a normal form. */
  ghost predicate SpellingsUnique(x: Context) {
    forall i: nat, r | i < |x.groups| && r in x.groups[i].group.columns :: OneSpelling(x, i, r)
  }

  /** In no configured column do two normal forms share a digest. */
  ghost predicate FormsSeparate(x: Context) {
    forall i: nat, r | i < |x.groups| && r in x.groups[i].group.columns ::
      InjectiveOn(x.crypto, x.groups[i].id, NormalForms(x.crypto, x.groups[i].group.settings, Column(x.db, r)))
  }

  lemma FormsSeparateInTable(x: Context, t: TableRef)
    requires FormsSeparate(x)
    ensures TableDigestsSeparate(x, t)
  {
    hide InjectiveOn, NormalForms;
  }

  lemma SameSpelling(x: Context, m: Mappings, r: ColumnRef, v: Value, w: Value)
    requires Ready(x, m) && PolicyOk(x) && SpellingsUnique(x) && v in Column(x.db, r) && w in Column(x.db, r)
    requires CellUpToSpelling(x, r, v) == CellUpToSpelling(x, r, w)
    ensures v == w
  {
    if GroupForColumn(x.groups, r).Some? {
      var i := GroupIndex(x.groups, r);
      SettingsMapHas(x.groups, i);
      hide Ready, PolicyOk, Column, GroupForColumn, SettingsMap;
      NormalizedColumn(x, m, i, r, v);
      NormalizedColumn(x, m, i, r, w);
      assert OneSpelling(x, i, r);
      if v != Null && w != Null {
        assert v in DistinctValues(Column(x.db, r)) && w in DistinctValues(Column(x.db, r));
      }
    }
  }

  lemma SpellingsKeepRows(x: Context, m: Mappings, t: TableRef, columns: seq<string>, a: nat, b: nat)
    requires Ready(x, m) && PolicyOk(x) && SpellingsUnique(x)
    requires a < |RowsOf(x.db, t)| && b < |RowsOf(x.db, t)|
    ensures |RowKeys(x.db, t, columns)| == |KeysUpToSpelling(x, t, columns)| == |RowsOf(x.db, t)|
    ensures KeysUpToSpelling(x, t, columns)[a] == KeysUpToSpelling(x, t, columns)[b] ==>
      RowKeys(x.db, t, columns)[a] == RowKeys(x.db, t, columns)[b]
    ensures Null in RowKeys(x.db, t, columns)[a] ==> Null in KeysUpToSpelling(x, t, columns)[a]
  {
    hide Ready, PolicyOk, SpellingsUnique, Column, CellUpToSpelling, ImageCell, ImageDatabase;
    var before, forms := RowKeys(x.db, t, columns), KeysUpToSpelling(x, t, columns);
    KeyCellsImage(x, m, t, columns, a);
    KeyCellsImage(x, m, t, columns, b);
    forall j | 0 <= j < |columns| ensures forms[a][j] == forms[b][j] ==> before[a][j] == before[b][j]
      ensures before[a][j] == Null ==> forms[a][j] == Null
    {
      if CellUpToSpelling(x, RefOf(t, columns[j]), before[a][j]) ==
        CellUpToSpelling(x, RefOf(t, columns[j]), before[b][j]) {
        SameSpelling(x, m, RefOf(t, columns[j]), before[a][j], before[b][j]);
      }
      NullSpelling(x, RefOf(t, columns[j]));
    }
  }

  lemma NullSpelling(x: Context, r: ColumnRef)
    ensures CellUpToSpelling(x, r, Null) == Null
  {
  }

  /** Where normalisation merges nothing, every declared key survives. */
  lemma SpellingsKeepKeys(x: Context, m: Mappings, key: KeyConstraint)
    requires Ready(x, m) && PolicyOk(x) && SpellingsUnique(x) && FormsSeparate(x) && KeyHolds(x.db, key)
    ensures KeyHolds(ImageDatabase(x, m), key)
  {
    hide Ready, PolicyOk, SpellingsUnique, FormsSeparate, TableDigestsSeparate, RowKeys, KeysUpToSpelling,
      ImageDatabase;
    var t, columns := key.table, key.columns;
    FormsSeparateInTable(x, t);
    KeySurvivesExactly(x, m, key);
    var before, forms := RowKeys(x.db, t, columns), KeysUpToSpelling(x, t, columns);
    KeysShape(x, t, columns);
    forall a, b | 0 <= a < b < |forms| && Null !in forms[a] && Null !in forms[b] ensures forms[a] != forms[b] {
      SpellingsKeepRows(x, m, t, columns, a, b);
      SpellingsKeepRows(x, m, t, columns, b, a);
    }
  }

  lemma KeysShape(x: Context, t: TableRef, columns: seq<string>)
    ensures |RowKeys(x.db, t, columns)| == |KeysUpToSpelling(x, t, columns)| == |RowsOf(x.db, t)|
  {
  }
}
