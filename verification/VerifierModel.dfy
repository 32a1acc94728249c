/** What the verifier's counters mean: every counter is a number of rows or values with a property
    of the source, the target and the registry. */
module VerifierModel {
  import opened Base
  import opened Policy
  import opened RegistryModel
  import opened Database

  // ----- the value a target cell must have -----

  datatype Expectation = SourceNull | NoNormalForm | NotMapped | Image(text: string)

  function Expect(c: Crypto, m: Mappings, id: string, s: Settings, v: Value): Expectation {
    if v == Null then SourceNull
    else
      match KeyOf(c, id, s, v)
      case None => NoNormalForm
      case Some(h) =>
        var r := Lookup(m, id, h);
        if r.None? || r.value == "" then NotMapped else Image(r.value)
  }

  /** The registry image of a source value, where it has one. */
  function ImageOf(e: Expectation): Value {
    if e.Image? then Text(e.text) else Null
  }

  predicate HasImage(e: Expectation) { e.SourceNull? || e.Image? }

  /** A verified cell: NULL exactly for NULL, otherwise the registry image and never the source. */
  predicate CellOk(e: Expectation, source: Value, target: Value) {
    HasImage(e) && target == ImageOf(e) && (source != Null ==> target != source)
  }

  // ----- counters -----

  datatype Metrics = Metrics(
    columnsChecked: nat, primaryKeyColumns: nat, aggregateColumns: nat, unavailableColumns: nat,
    rowsChecked: nat, primaryKeyMismatches: nat, nullMismatches: nat, missingMappings: nat,
    mappingMismatches: nat, unchangedValues: nat, invalidSourceValues: nat, invalidTargetValues: nat)

  const ZERO := Metrics(0, 0, 0, 0, 0, 0, 0, 0, 0, 0, 0, 0)

  function Plus(a: Metrics, b: Metrics): Metrics {
    Metrics(
      a.columnsChecked + b.columnsChecked, a.primaryKeyColumns + b.primaryKeyColumns,
      a.aggregateColumns + b.aggregateColumns, a.unavailableColumns + b.unavailableColumns,
      a.rowsChecked + b.rowsChecked, a.primaryKeyMismatches + b.primaryKeyMismatches,
      a.nullMismatches + b.nullMismatches, a.missingMappings + b.missingMappings,
      a.mappingMismatches + b.mappingMismatches, a.unchangedValues + b.unchangedValues,
      a.invalidSourceValues + b.invalidSourceValues, a.invalidTargetValues + b.invalidTargetValues)
  }

  /** No failure counter is set. */
  predicate Clean(m: Metrics) {
    m.unavailableColumns == m.primaryKeyMismatches == m.nullMismatches == m.missingMappings
      == m.mappingMismatches == m.unchangedValues == m.invalidSourceValues == m.invalidTargetValues == 0
  }

  lemma CleanPlus(a: Metrics, b: Metrics)
    ensures Clean(Plus(a, b)) <==> Clean(a) && Clean(b)
    ensures Plus(a, ZERO) == a && Plus(ZERO, a) == a
  {
  }

  lemma PlusAssociative(a: Metrics, b: Metrics, d: Metrics)
    ensures Plus(Plus(a, b), d) == Plus(a, Plus(b, d))
  {
  }

  /** The counters one source value adds when its expected replacement is looked up. */
  function ExpectTally(e: Expectation): Metrics {
    ZERO.(missingMappings := Indicator(e.NotMapped?), invalidSourceValues := Indicator(e.NoNormalForm?))
  }

  /** The counters one aligned pair of cells adds. */
  function CellTally(e: Expectation, source: Value, target: Value): Metrics {
    ExpectTally(e).(
      nullMismatches := Indicator(HasImage(e) && (e.SourceNull? <==> target != Null)),
      invalidTargetValues := Indicator(e.Image? && target.Other?),
      mappingMismatches := Indicator(e.Image? && target.Text? && target != ImageOf(e)),
      unchangedValues := Indicator(e.Image? && target.Text? && target == source))
  }

  /** The part of a pair's counters that depends on the target, once the image is known. */
  function TextTally(text: string, source: Value, target: Value): Metrics {
    ZERO.(
      nullMismatches := Indicator(target == Null),
      invalidTargetValues := Indicator(target.Other?),
      mappingMismatches := Indicator(target.Text? && target.text != text),
      unchangedValues := Indicator(target.Text? && target == source))
  }

  lemma CellTallySplits(e: Expectation, source: Value, target: Value)
    ensures e.Image? ==> CellTally(e, source, target) == Plus(ExpectTally(e), TextTally(e.text, source, target))
    ensures e.NoNormalForm? || e.NotMapped? ==> CellTally(e, source, target) == ExpectTally(e)
    ensures e.SourceNull? ==> CellTally(e, source, target) == ZERO.(nullMismatches := Indicator(target != Null))
  {
  }

  lemma CellTallyClean(e: Expectation, source: Value, target: Value)
    requires e.SourceNull? <==> source == Null
    ensures Clean(CellTally(e, source, target)) <==> CellOk(e, source, target)
  {
  }

  // ----- rows aligned by an unchanged primary key -----

  datatype KeyedRow = KeyedRow(key: seq<Value>, value: Value)

  function At<T>(s: seq<T>, i: nat): Option<T> {
    if i < |s| then Some(s[i]) else None
  }

  /** Reading a list in step with another one. */
  lemma DropAt<T>(a: seq<T>, n: nat)
    ensures (if Drop(a, n) == [] then None else Some(Drop(a, n)[0])) == At(a, n)
    ensures Drop(Drop(a, n), 1) == Drop(a, n + 1)
    ensures Drop(a, 0) == a
    ensures At(a, n).Some? <==> n < |a|
  {
  }

  /** The counters of one position of two scans; a scan that has ended yields no row. */
  function RowsTally(c: Crypto, m: Mappings, id: string, s: Settings, x: Option<KeyedRow>, y: Option<KeyedRow>)
    : Metrics
  {
    if x.None? || y.None? || x.value.key != y.value.key then ZERO.(primaryKeyMismatches := 1)
    else CellTally(Expect(c, m, id, s, x.value.value), x.value.value, y.value.value).(rowsChecked := 1)
  }

  /** The counters of position `i` of the two ordered scans, padded to the longer one. */
  function PairTally(c: Crypto, m: Mappings, id: string, s: Settings, a: seq<KeyedRow>, b: seq<KeyedRow>, i: nat)
    : Metrics
  {
    RowsTally(c, m, id, s, At(a, i), At(b, i))
  }

  function AlignedTally(c: Crypto, m: Mappings, id: string, s: Settings, a: seq<KeyedRow>, b: seq<KeyedRow>, n: nat)
    : Metrics
  {
    if n == 0 then ZERO
    else Plus(AlignedTally(c, m, id, s, a, b, n - 1), PairTally(c, m, id, s, a, b, n - 1))
  }

  lemma AlignedStep(c: Crypto, m: Mappings, id: string, s: Settings, a: seq<KeyedRow>, b: seq<KeyedRow>, n: nat,
                    start: Metrics)
    ensures Plus(start, AlignedTally(c, m, id, s, a, b, n + 1))
         == Plus(Plus(start, AlignedTally(c, m, id, s, a, b, n)), RowsTally(c, m, id, s, At(a, n), At(b, n)))
  {
    hide Plus, RowsTally, At;
    PlusAssociative(start, AlignedTally(c, m, id, s, a, b, n), PairTally(c, m, id, s, a, b, n));
  }

  lemma OneMismatch(before: Metrics)
    ensures before.(primaryKeyMismatches := before.primaryKeyMismatches + 1)
         == Plus(before, ZERO.(primaryKeyMismatches := 1))
  {
  }

  lemma OneRow(before: Metrics, cell: Metrics)
    requires cell.rowsChecked == 0
    ensures Plus(before.(rowsChecked := before.rowsChecked + 1), cell) == Plus(before, cell.(rowsChecked := 1))
  {
  }

  lemma CellHasNoRow(e: Expectation, source: Value, target: Value)
    ensures CellTally(e, source, target).rowsChecked == 0 && ExpectTally(e).rowsChecked == 0
  {
  }

  ghost predicate PairOk(c: Crypto, m: Mappings, id: string, s: Settings, a: seq<KeyedRow>, b: seq<KeyedRow>, i: nat) {
    i < |a| && i < |b| && a[i].key == b[i].key && CellOk(Expect(c, m, id, s, a[i].value), a[i].value, b[i].value)
  }

  /** The target scan is the source scan with every value replaced by its image. */
  ghost predicate AlignedOk(c: Crypto, m: Mappings, id: string, s: Settings, a: seq<KeyedRow>, b: seq<KeyedRow>) {
    |a| == |b| && forall i :: 0 <= i < |a| ==> PairOk(c, m, id, s, a, b, i)
  }

  lemma AlignedNone(c: Crypto, m: Mappings, id: string, s: Settings, a: seq<KeyedRow>, b: seq<KeyedRow>)
    ensures AlignedTally(c, m, id, s, a, b, 0) == ZERO && Clean(ZERO)
  {
  }

  lemma AlignedLast(c: Crypto, m: Mappings, id: string, s: Settings, a: seq<KeyedRow>, b: seq<KeyedRow>, n: nat)
    requires n > 0
    ensures Clean(AlignedTally(c, m, id, s, a, b, n)) <==>
      Clean(AlignedTally(c, m, id, s, a, b, n - 1)) && Clean(PairTally(c, m, id, s, a, b, n - 1))
  {
    hide PairTally, Plus, Clean;
    CleanPlus(AlignedTally(c, m, id, s, a, b, n - 1), PairTally(c, m, id, s, a, b, n - 1));
  }

  lemma {:induction false} AlignedTallyClean(c: Crypto, m: Mappings, id: string, s: Settings,
                                             a: seq<KeyedRow>, b: seq<KeyedRow>, n: nat)
    ensures Clean(AlignedTally(c, m, id, s, a, b, n)) <==> forall i :: 0 <= i < n ==> PairOk(c, m, id, s, a, b, i)
  {
    hide *;
    if n > 0 {
      AlignedLast(c, m, id, s, a, b, n);
      AlignedTallyClean(c, m, id, s, a, b, n - 1);
      PairTallyClean(c, m, id, s, a, b, n - 1);
    } else {
      AlignedNone(c, m, id, s, a, b);
    }
  }

  lemma PairTallyClean(c: Crypto, m: Mappings, id: string, s: Settings, a: seq<KeyedRow>, b: seq<KeyedRow>, i: nat)
    ensures Clean(PairTally(c, m, id, s, a, b, i)) <==> PairOk(c, m, id, s, a, b, i)
  {
    if i < |a| && i < |b| {
      CellTallyClean(Expect(c, m, id, s, a[i].value), a[i].value, b[i].value);
    }
  }

  /** Row by row soundness and completeness, for scans of any two lengths. */
  lemma AlignedExact(c: Crypto, m: Mappings, id: string, s: Settings, a: seq<KeyedRow>, b: seq<KeyedRow>)
    ensures Clean(AlignedTally(c, m, id, s, a, b, Max(|a|, |b|))) <==> AlignedOk(c, m, id, s, a, b)
  {
    AlignedTallyClean(c, m, id, s, a, b, Max(|a|, |b|));
    if |a| != |b| {
      assert !PairOk(c, m, id, s, a, b, Min(|a|, |b|));
    }
  }

  // ----- columns compared as multisets -----

  function Nulls(values: seq<Value>): nat {
    if values == [] then 0 else Nulls(values[..|values| - 1]) + Indicator(values[|values| - 1] == Null)
  }

  function ImageBag(c: Crypto, id: string, e: Expectation): multiset<string> {
    if e.Image? then multiset{c.digest(id, e.text)} else multiset{}
  }

  /** Digests of the exact replacements expected for a source column. */
  function ExpectedBag(c: Crypto, m: Mappings, id: string, s: Settings, values: seq<Value>): multiset<string> {
    if values == [] then multiset{}
    else
      ExpectedBag(c, m, id, s, values[..|values| - 1])
      + ImageBag(c, id, Expect(c, m, id, s, values[|values| - 1]))
  }

  function TextBag(c: Crypto, id: string, v: Value): multiset<string> {
    if v.Text? then multiset{c.digest(id, v.text)} else multiset{}
  }

  /** Digests of the exact texts of a target column. */
  function ActualBag(c: Crypto, id: string, values: seq<Value>): multiset<string> {
    if values == [] then multiset{}
    else ActualBag(c, id, values[..|values| - 1]) + TextBag(c, id, values[|values| - 1])
  }

  function SourceTally(c: Crypto, m: Mappings, id: string, s: Settings, values: seq<Value>): Metrics {
    if values == [] then ZERO
    else
      Plus(SourceTally(c, m, id, s, values[..|values| - 1]),
           ExpectTally(Expect(c, m, id, s, values[|values| - 1])).(rowsChecked := 1))
  }

  function TargetTally(values: seq<Value>): Metrics {
    if values == [] then ZERO
    else Plus(TargetTally(values[..|values| - 1]), ZERO.(invalidTargetValues := Indicator(values[|values| - 1].Other?)))
  }

  function Distance(a: nat, b: nat): nat { if a <= b then b - a else a - b }

  function MultisetTally(c: Crypto, m: Mappings, id: string, s: Settings, source: seq<Value>, target: seq<Value>)
    : Metrics
  {
    var e, a := ExpectedBag(c, m, id, s, source), ActualBag(c, id, target);
    Plus(Plus(SourceTally(c, m, id, s, source), TargetTally(target)),
         ZERO.(nullMismatches := Distance(Nulls(source), Nulls(target)), mappingMismatches := |e - a| + |a - e|))
  }

  ghost predicate AllMapped(c: Crypto, m: Mappings, id: string, s: Settings, values: seq<Value>) {
    forall i :: 0 <= i < |values| ==> HasImage(Expect(c, m, id, s, values[i]))
  }

  ghost predicate NoOthers(values: seq<Value>) {
    forall i :: 0 <= i < |values| ==> !values[i].Other?
  }

  lemma {:induction false} SourceTallyClean(c: Crypto, m: Mappings, id: string, s: Settings, values: seq<Value>)
    ensures Clean(SourceTally(c, m, id, s, values)) <==> AllMapped(c, m, id, s, values)
  {
    if values != [] {
      var n := |values| - 1;
      hide Expect, Plus;
      SourceTallyClean(c, m, id, s, values[..n]);
      var e := Expect(c, m, id, s, values[n]);
      CleanPlus(SourceTally(c, m, id, s, values[..n]), ExpectTally(e).(rowsChecked := 1));
      assert Clean(ExpectTally(e).(rowsChecked := 1)) <==> HasImage(e);
      hide Clean, ExpectTally;
      assert forall i :: 0 <= i < n ==> values[..n][i] == values[i];
    }
  }

  lemma {:induction false} TargetTallyClean(values: seq<Value>)
    ensures Clean(TargetTally(values)) <==> NoOthers(values)
  {
    if values != [] {
      var n := |values| - 1;
      TargetTallyClean(values[..n]);
      CleanPlus(TargetTally(values[..n]), ZERO.(invalidTargetValues := Indicator(values[n].Other?)));
      assert forall i :: 0 <= i < n ==> values[..n][i] == values[i];
    }
  }

  lemma MultisetTallyClean(c: Crypto, m: Mappings, id: string, s: Settings, source: seq<Value>, target: seq<Value>)
    ensures Clean(MultisetTally(c, m, id, s, source, target)) <==>
      && AllMapped(c, m, id, s, source) && NoOthers(target)
      && Nulls(source) == Nulls(target)
      && ExpectedBag(c, m, id, s, source) == ActualBag(c, id, target)
  {
    hide Expect, SourceTally, TargetTally, ExpectedBag, ActualBag, Nulls, AllMapped, NoOthers, Plus;
    SourceTallyClean(c, m, id, s, source);
    TargetTallyClean(target);
    var e, a := ExpectedBag(c, m, id, s, source), ActualBag(c, id, target);
    var last := ZERO.(nullMismatches := Distance(Nulls(source), Nulls(target)), mappingMismatches := |e - a| + |a - e|);
    CleanPlus(SourceTally(c, m, id, s, source), TargetTally(target));
    CleanPlus(Plus(SourceTally(c, m, id, s, source), TargetTally(target)), last);
    SameBags(e, a);
  }

  // ----- what equal digests say about the texts -----

  function Images(c: Crypto, m: Mappings, id: string, s: Settings, values: seq<Value>): seq<Value> {
    seq(|values|, i requires 0 <= i < |values| => ImageOf(Expect(c, m, id, s, values[i])))
  }

  ghost function TextsOf(values: seq<Value>): set<string> {
    set v | v in values && v.Text? :: v.text
  }

  lemma {:induction false} NullsCount(values: seq<Value>)
    ensures Nulls(values) == multiset(values)[Null]
  {
    if values != [] {
      NullsCount(values[..|values| - 1]);
      assert values == values[..|values| - 1] + [values[|values| - 1]];
    }
  }

  /** The bag counts a text as often as the column holds it, when no other text shares its digest. */
  lemma {:induction false} ActualBagCount(c: Crypto, id: string, values: seq<Value>, x: string)
    requires InjectiveOn(c, id, TextsOf(values) + {x})
    ensures ActualBag(c, id, values)[c.digest(id, x)] == multiset(values)[Text(x)]
  {
    if values != [] {
      var n := |values| - 1;
      var v := values[n];
      assert values == values[..n] + [v];
      assert TextsOf(values[..n]) <= TextsOf(values);
      ActualBagCount(c, id, values[..n], x);
      if v.Text? { assert v.text in TextsOf(values); }
    }
  }

  lemma ActualSnoc(c: Crypto, id: string, a: seq<Value>, v: Value)
    ensures ActualBag(c, id, a + [v]) == ActualBag(c, id, a) + TextBag(c, id, v)
    ensures Nulls(a + [v]) == Nulls(a) + Indicator(v == Null)
    ensures NoOthers(a + [v]) <==> NoOthers(a) && !v.Other?
  {
    assert (a + [v])[..|a|] == a;
    assert forall i :: 0 <= i < |a| ==> (a + [v])[i] == a[i];
    assert (a + [v])[|a|] == v;
  }

  lemma ImagesSnoc(c: Crypto, m: Mappings, id: string, s: Settings, values: seq<Value>, n: nat)
    requires |values| == n + 1
    ensures Images(c, m, id, s, values)
         == Images(c, m, id, s, values[..n]) + [ImageOf(Expect(c, m, id, s, values[n]))]
    ensures AllMapped(c, m, id, s, values) ==>
      AllMapped(c, m, id, s, values[..n]) && HasImage(Expect(c, m, id, s, values[n]))
  {
    hide Expect;
    assert forall i :: 0 <= i < n ==> values[..n][i] == values[i];
  }

  lemma {:induction false} ExpectedIsActualOfImages(c: Crypto, m: Mappings, id: string, s: Settings, values: seq<Value>)
    requires AllMapped(c, m, id, s, values)
    ensures ExpectedBag(c, m, id, s, values) == ActualBag(c, id, Images(c, m, id, s, values))
    ensures Nulls(values) == Nulls(Images(c, m, id, s, values))
    ensures NoOthers(Images(c, m, id, s, values))
  {
    if values != [] {
      var n := |values| - 1;
      var e := Expect(c, m, id, s, values[n]);
      assert e.SourceNull? <==> values[n] == Null;
      hide Expect, Images, AllMapped, ActualBag, NoOthers;
      ImagesSnoc(c, m, id, s, values, n);
      ExpectedIsActualOfImages(c, m, id, s, values[..n]);
      ActualSnoc(c, id, Images(c, m, id, s, values[..n]), ImageOf(e));
    }
  }

  /** Equal bags of digests over texts without collisions are equal multisets of cells. */
  lemma EqualBags(c: Crypto, id: string, a: seq<Value>, b: seq<Value>)
    requires InjectiveOn(c, id, TextsOf(a) + TextsOf(b))
    requires NoOthers(a) && NoOthers(b) && Nulls(a) == Nulls(b) && ActualBag(c, id, a) == ActualBag(c, id, b)
    ensures multiset(a) == multiset(b)
  {
    NullsCount(a);
    NullsCount(b);
    forall v ensures multiset(a)[v] == multiset(b)[v] {
      match v
      case Null =>
      case Other(_) => assert v !in a && v !in b;
      case Text(x) =>
        if x in TextsOf(a) + TextsOf(b) {
          assert TextsOf(a) + {x} <= TextsOf(a) + TextsOf(b);
          assert TextsOf(b) + {x} <= TextsOf(a) + TextsOf(b);
          ActualBagCount(c, id, a, x);
          ActualBagCount(c, id, b, x);
        } else {
          assert v !in a && v !in b;
        }
    }
  }

  /** Soundness of the fallback comparison: no failure means that the target column holds exactly
      the images of the source column, as a multiset. */
  lemma MultisetSound(c: Crypto, m: Mappings, id: string, s: Settings, source: seq<Value>, target: seq<Value>)
    requires InjectiveOn(c, id, TextsOf(Images(c, m, id, s, source)) + TextsOf(target))
    requires Clean(MultisetTally(c, m, id, s, source, target))
    ensures AllMapped(c, m, id, s, source)
    ensures multiset(target) == multiset(Images(c, m, id, s, source))
  {
    MultisetTallyClean(c, m, id, s, source, target);
    ExpectedIsActualOfImages(c, m, id, s, source);
    EqualBags(c, id, target, Images(c, m, id, s, source));
  }

  /** The bag does not depend on the order of the column. */
  lemma {:induction false} ActualBagOfMultiset(c: Crypto, id: string, a: seq<Value>, b: seq<Value>)
    requires multiset(a) == multiset(b)
    ensures ActualBag(c, id, a) == ActualBag(c, id, b)
    decreases |a|
  {
    hide *;
    if a != [] {
      var left, right := TakeOut(a, b);
      ActualBagOfMultiset(c, id, [] + a[1..], left + right);
      ActualBagMiddle(c, id, [], a[0], a[1..]);
      ActualBagMiddle(c, id, left, a[0], right);
    } else {
      SameMembers(a, b);
      assert a == b;
    }
  }

  lemma {:induction false} ActualBagMiddle(c: Crypto, id: string, a: seq<Value>, v: Value, b: seq<Value>)
    ensures ActualBag(c, id, a + [v] + b) == ActualBag(c, id, a + b) + TextBag(c, id, v)
  {
    hide ActualBag;
    if b == [] {
      assert a + b == a && a + [v] + b == a + [v];
      ActualSnoc(c, id, a, v);
    } else {
      var n := |b| - 1;
      ActualBagMiddle(c, id, a, v, b[..n]);
      assert a + [v] + b == (a + [v] + b[..n]) + [b[n]];
      assert a + b == (a + b[..n]) + [b[n]];
      ActualSnoc(c, id, a + [v] + b[..n], b[n]);
      ActualSnoc(c, id, a + b[..n], b[n]);
    }
  }

  /** Completeness: a target column that is the image of the source column, in any order, adds no
      failure; no injectivity is needed. */
  lemma MultisetComplete(c: Crypto, m: Mappings, id: string, s: Settings, source: seq<Value>, target: seq<Value>)
    requires AllMapped(c, m, id, s, source)
    requires multiset(target) == multiset(Images(c, m, id, s, source))
    ensures Clean(MultisetTally(c, m, id, s, source, target))
  {
    ExpectedIsActualOfImages(c, m, id, s, source);
    var images := Images(c, m, id, s, source);
    ActualBagOfMultiset(c, id, images, target);
    NullsCount(images);
    NullsCount(target);
    assert forall i :: 0 <= i < |target| ==> target[i] in multiset(images);
    assert forall i :: 0 <= i < |target| ==> target[i] in images;
    MultisetTallyClean(c, m, id, s, source, target);
  }

  // ----- the configured columns together -----

  datatype ConstraintKind = PrimaryKey | UniqueKey

  datatype KeyConstraint = KeyConstraint(kind: ConstraintKind, table: TableRef, columns: seq<string>)

  datatype ConfiguredColumn = ConfiguredColumn(id: string, settings: Settings, ref: ColumnRef)

  /** What both schema inspections found. The last two list the foreign keys declared NOT VALID. */
  datatype Schemas = Schemas(
    sourceColumns: seq<ColumnInfo>, targetColumns: seq<ColumnInfo>,
    sourceKeys: seq<KeyConstraint>, targetKeys: seq<KeyConstraint>,
    sourceForeignKeys: seq<ForeignKey>, targetForeignKeys: seq<ForeignKey>,
    sourceNotValid: seq<ForeignKey>, targetNotValid: seq<ForeignKey>)

  /** How one column is compared. */
  datatype Plan = Unavailable | ByPrimaryKey(key: KeyConstraint) | ByMultiset

  /** The source's primary key of a table: the last one listed, as a dictionary keeps it. */
  function PrimaryKeyOf(keys: seq<KeyConstraint>, t: TableRef): Option<KeyConstraint> {
    if keys == [] then None
    else
      var last := keys[|keys| - 1];
      if last.kind == PrimaryKey && last.table == t then Some(last) else PrimaryKeyOf(keys[..|keys| - 1], t)
  }

  /** `_primary_key_is_configured`. */
  predicate KeyIsConfigured(groups: seq<GroupEntry>, key: KeyConstraint) {
    exists i :: 0 <= i < |key.columns| &&
      GroupForColumn(groups, ColumnRef(key.table.schema, key.table.table, key.columns[i])).Some?
  }

  function PlanFor(groups: seq<GroupEntry>, schemas: Schemas, r: ColumnRef): Plan {
    if ColumnFor(schemas.sourceColumns, r).None? || ColumnFor(schemas.targetColumns, r).None? then Unavailable
    else
      var key := PrimaryKeyOf(schemas.sourceKeys, TableOf(r));
      if key.Some? && key.value in schemas.targetKeys && !KeyIsConfigured(groups, key.value) then
        ByPrimaryKey(key.value)
      else ByMultiset
  }

  /** A connection, as the batches its named cursors hand out for each statement. */
  datatype ScanConnection = ScanConnection(
    column: ColumnRef -> seq<seq<Value>>,
    keyed: (KeyConstraint, ColumnRef) -> seq<seq<KeyedRow>>,
    keys: KeyConstraint -> seq<seq<seq<Value>>>)

  function ColumnTally(c: Crypto, m: Mappings, plan: Plan, x: ConfiguredColumn,
                       source: ScanConnection, target: ScanConnection): Metrics {
    match plan
    case Unavailable => ZERO.(columnsChecked := 1, unavailableColumns := 1)
    case ByPrimaryKey(key) =>
      var a, b := Flatten(source.keyed(key, x.ref)), Flatten(target.keyed(key, x.ref));
      Plus(ZERO.(columnsChecked := 1, primaryKeyColumns := 1),
           AlignedTally(c, m, x.id, x.settings, a, b, Max(|a|, |b|)))
    case ByMultiset =>
      Plus(ZERO.(columnsChecked := 1, aggregateColumns := 1),
           MultisetTally(c, m, x.id, x.settings, Flatten(source.column(x.ref)), Flatten(target.column(x.ref))))
  }

  /** The counters of the first `n` configured columns. */
  function TotalTally(c: Crypto, m: Mappings, groups: seq<GroupEntry>, schemas: Schemas, columns: seq<ConfiguredColumn>,
                      source: ScanConnection, target: ScanConnection, n: nat): Metrics
    requires n <= |columns|
  {
    if n == 0 then ZERO
    else
      Plus(TotalTally(c, m, groups, schemas, columns, source, target, n - 1),
           ColumnTally(c, m, PlanFor(groups, schemas, columns[n - 1].ref), columns[n - 1], source, target))
  }

  ghost predicate ColumnClean(c: Crypto, m: Mappings, groups: seq<GroupEntry>, schemas: Schemas,
                              x: ConfiguredColumn, source: ScanConnection, target: ScanConnection)
  {
    Clean(ColumnTally(c, m, PlanFor(groups, schemas, x.ref), x, source, target))
  }

  lemma TotalLast(c: Crypto, m: Mappings, groups: seq<GroupEntry>, schemas: Schemas, columns: seq<ConfiguredColumn>,
                  source: ScanConnection, target: ScanConnection, n: nat)
    requires 1 <= n <= |columns|
    ensures Clean(TotalTally(c, m, groups, schemas, columns, source, target, n)) <==>
      && Clean(TotalTally(c, m, groups, schemas, columns, source, target, n - 1))
      && ColumnClean(c, m, groups, schemas, columns[n - 1], source, target)
  {
    hide ColumnTally, PlanFor, Plus, Clean;
    CleanPlus(TotalTally(c, m, groups, schemas, columns, source, target, n - 1),
              ColumnTally(c, m, PlanFor(groups, schemas, columns[n - 1].ref), columns[n - 1], source, target));
  }

  lemma TotalNone(c: Crypto, m: Mappings, groups: seq<GroupEntry>, schemas: Schemas, columns: seq<ConfiguredColumn>,
                  source: ScanConnection, target: ScanConnection)
    ensures Clean(TotalTally(c, m, groups, schemas, columns, source, target, 0))
  {
  }

  lemma {:induction false} TotalClean(c: Crypto, m: Mappings, groups: seq<GroupEntry>, schemas: Schemas,
                                      columns: seq<ConfiguredColumn>, source: ScanConnection, target: ScanConnection,
                                      n: nat)
    requires n <= |columns|
    ensures Clean(TotalTally(c, m, groups, schemas, columns, source, target, n)) <==>
      forall i :: 0 <= i < n ==> ColumnClean(c, m, groups, schemas, columns[i], source, target)
  {
    hide *;
    if n > 0 {
      TotalLast(c, m, groups, schemas, columns, source, target, n);
      TotalClean(c, m, groups, schemas, columns, source, target, n - 1);
    } else {
      TotalNone(c, m, groups, schemas, columns, source, target);
    }
  }

  /** A column is never skipped without a failure. */
  lemma UnavailableFails(c: Crypto, m: Mappings, x: ConfiguredColumn, source: ScanConnection, target: ScanConnection)
    ensures !Clean(ColumnTally(c, m, Unavailable, x, source, target))
  {
  }

  /** No failure on an aligned column: the target rows are the source rows with their images. */
  lemma AlignedColumnClean(c: Crypto, m: Mappings, key: KeyConstraint, x: ConfiguredColumn,
                           source: ScanConnection, target: ScanConnection)
    ensures Clean(ColumnTally(c, m, ByPrimaryKey(key), x, source, target)) <==>
      AlignedOk(c, m, x.id, x.settings, Flatten(source.keyed(key, x.ref)), Flatten(target.keyed(key, x.ref)))
  {
    hide Flatten, AlignedTally, AlignedOk, Plus;
    var a, b := Flatten(source.keyed(key, x.ref)), Flatten(target.keyed(key, x.ref));
    var start := ZERO.(columnsChecked := 1, primaryKeyColumns := 1);
    var rest := AlignedTally(c, m, x.id, x.settings, a, b, Max(|a|, |b|));
    CleanPlus(start, rest);
    AlignedExact(c, m, x.id, x.settings, a, b);
    assert Clean(start);
  }

  lemma MultisetColumnClean(c: Crypto, m: Mappings, x: ConfiguredColumn, source: ScanConnection, target: ScanConnection)
    ensures Clean(ColumnTally(c, m, ByMultiset, x, source, target)) <==>
      Clean(MultisetTally(c, m, x.id, x.settings, Flatten(source.column(x.ref)), Flatten(target.column(x.ref))))
  {
    hide Flatten, MultisetTally, Plus;
    var start := ZERO.(columnsChecked := 1, aggregateColumns := 1);
    CleanPlus(start, MultisetTally(c, m, x.id, x.settings, Flatten(source.column(x.ref)),
                                   Flatten(target.column(x.ref))));
    assert Clean(start);
  }

  // ----- one more value of a scan -----

  /** The source scan after `n` values: NULL count, counters, and digests handed over or buffered. */
  ghost predicate SourceScanned(c: Crypto, m: Mappings, id: string, s: Settings, values: seq<Value>, n: nat,
                                start: Metrics, nulls: nat, now: Metrics, bag: multiset<string>)
  {
    && n <= |values| && nulls == Nulls(values[..n])
    && now == Plus(start, SourceTally(c, m, id, s, values[..n]))
    && bag == ExpectedBag(c, m, id, s, values[..n])
  }

  lemma SourceScanStart(c: Crypto, m: Mappings, id: string, s: Settings, values: seq<Value>, start: Metrics)
    ensures SourceScanned(c, m, id, s, values, 0, start, 0, start, multiset{})
  {
  }

  lemma SourceFacts(c: Crypto, m: Mappings, id: string, s: Settings, values: seq<Value>, n: nat)
    requires n < |values|
    ensures var e := Expect(c, m, id, s, values[n]);
      && Nulls(values[..n + 1]) == Nulls(values[..n]) + Indicator(values[n] == Null)
      && SourceTally(c, m, id, s, values[..n + 1]) ==
        Plus(SourceTally(c, m, id, s, values[..n]), ExpectTally(e).(rowsChecked := 1))
      && ExpectedBag(c, m, id, s, values[..n + 1]) == ExpectedBag(c, m, id, s, values[..n]) + ImageBag(c, id, e)
  {
    hide Plus, ExpectTally, Expect, ImageBag;
    assert values[..n + 1][..n] == values[..n] && values[..n + 1][n] == values[n];
  }

  lemma SourceScanStep(c: Crypto, m: Mappings, id: string, s: Settings, values: seq<Value>, n: nat,
                       start: Metrics, nulls: nat, now: Metrics, bag: multiset<string>)
    requires n < |values| && SourceScanned(c, m, id, s, values, n, start, nulls, now, bag)
    ensures var e := Expect(c, m, id, s, values[n]);
      SourceScanned(c, m, id, s, values, n + 1, start, nulls + Indicator(values[n] == Null),
                    Plus(now, ExpectTally(e).(rowsChecked := 1)), bag + ImageBag(c, id, e))
  {
    hide Plus, ExpectTally, Expect, ImageBag, Nulls, SourceTally, ExpectedBag, Indicator;
    SourceFacts(c, m, id, s, values, n);
    PlusAssociative(start, SourceTally(c, m, id, s, values[..n]),
                    ExpectTally(Expect(c, m, id, s, values[n])).(rowsChecked := 1));
  }

  lemma SourceScanEnd(c: Crypto, m: Mappings, id: string, s: Settings, values: seq<Value>,
                      start: Metrics, nulls: nat, now: Metrics, bag: multiset<string>)
    requires SourceScanned(c, m, id, s, values, |values|, start, nulls, now, bag)
    ensures nulls == Nulls(values) && now == Plus(start, SourceTally(c, m, id, s, values))
    ensures bag == ExpectedBag(c, m, id, s, values)
  {
    assert values[..|values|] == values;
  }

  /** The parts of the fallback comparison add up. */
  lemma MultisetParts(c: Crypto, m: Mappings, id: string, s: Settings, a: seq<Value>, b: seq<Value>, start: Metrics)
    ensures var e, x := ExpectedBag(c, m, id, s, a), ActualBag(c, id, b);
      var last := ZERO.(nullMismatches := Distance(Nulls(a), Nulls(b)), mappingMismatches := |e - x| + |x - e|);
      Plus(Plus(Plus(start, SourceTally(c, m, id, s, a)), TargetTally(b)), last)
        == Plus(start, MultisetTally(c, m, id, s, a, b))
  {
    hide Plus, SourceTally, TargetTally, ExpectedBag, ActualBag, Nulls, Distance;
    var e, x := ExpectedBag(c, m, id, s, a), ActualBag(c, id, b);
    var last := ZERO.(nullMismatches := Distance(Nulls(a), Nulls(b)), mappingMismatches := |e - x| + |x - e|);
    PlusAssociative(start, SourceTally(c, m, id, s, a), TargetTally(b));
    PlusAssociative(start, Plus(SourceTally(c, m, id, s, a), TargetTally(b)), last);
  }

  /** The target scan after `n` values. */
  ghost predicate TargetScanned(c: Crypto, id: string, values: seq<Value>, n: nat,
                                start: Metrics, nulls: nat, now: Metrics, bag: multiset<string>)
  {
    && n <= |values| && nulls == Nulls(values[..n])
    && now == Plus(start, TargetTally(values[..n]))
    && bag == ActualBag(c, id, values[..n])
  }

  lemma TargetScanStart(c: Crypto, id: string, values: seq<Value>, start: Metrics)
    ensures TargetScanned(c, id, values, 0, start, 0, start, multiset{})
  {
  }

  lemma TargetFacts(c: Crypto, id: string, values: seq<Value>, n: nat)
    requires n < |values|
    ensures Nulls(values[..n + 1]) == Nulls(values[..n]) + Indicator(values[n] == Null)
    ensures TargetTally(values[..n + 1]) ==
      Plus(TargetTally(values[..n]), ZERO.(invalidTargetValues := Indicator(values[n].Other?)))
    ensures ActualBag(c, id, values[..n + 1]) == ActualBag(c, id, values[..n]) + TextBag(c, id, values[n])
  {
    hide TextBag, Plus;
    assert values[..n + 1][..n] == values[..n] && values[..n + 1][n] == values[n];
  }

  lemma CountInvalid(m: Metrics, k: nat)
    ensures m.(invalidTargetValues := m.invalidTargetValues + k) == Plus(m, ZERO.(invalidTargetValues := k))
  {
  }

  lemma TargetScanStep(c: Crypto, id: string, values: seq<Value>, n: nat,
                       start: Metrics, nulls: nat, now: Metrics, bag: multiset<string>)
    requires n < |values| && TargetScanned(c, id, values, n, start, nulls, now, bag)
    ensures TargetScanned(c, id, values, n + 1, start, nulls + Indicator(values[n] == Null),
                          now.(invalidTargetValues := now.invalidTargetValues + Indicator(values[n].Other?)),
                          bag + TextBag(c, id, values[n]))
  {
    hide TextBag, Plus, Nulls, TargetTally, ActualBag, Indicator;
    var k := Indicator(values[n].Other?);
    TargetFacts(c, id, values, n);
    CountInvalid(now, k);
    PlusAssociative(start, TargetTally(values[..n]), ZERO.(invalidTargetValues := k));
  }

  lemma TargetScanEnd(c: Crypto, id: string, values: seq<Value>, start: Metrics, nulls: nat, now: Metrics,
                      bag: multiset<string>)
    requires TargetScanned(c, id, values, |values|, start, nulls, now, bag)
    ensures nulls == Nulls(values) && now == Plus(start, TargetTally(values)) && bag == ActualBag(c, id, values)
  {
    assert values[..|values|] == values;
  }

  // ----- target digests against source keys -----

  function KeyOne(c: Crypto, id: string, s: Settings, v: Value): multiset<string> {
    match KeyOf(c, id, s, v)
    case Some(h) => multiset{h}
    case None => multiset{}
  }

  /** Digests of the normal forms of the values that have one. */
  function KeyBag(c: Crypto, id: string, s: Settings, values: seq<Value>): multiset<string> {
    if values == [] then multiset{}
    else KeyBag(c, id, s, values[..|values| - 1]) + KeyOne(c, id, s, values[|values| - 1])
  }

  /** Non-NULL values without a normal form. */
  function InvalidCount(c: Crypto, id: string, s: Settings, values: seq<Value>): nat {
    if values == [] then 0
    else
      var v := values[|values| - 1];
      InvalidCount(c, id, s, values[..|values| - 1]) + Indicator(v != Null && KeyOf(c, id, s, v).None?)
  }

  lemma OneKey(c: Crypto, id: string, s: Settings, v: Value)
    ensures (set h | h in KeyOne(c, id, s, v)) == ValueKeys(c, id, s, [v])
  {
    hide Normalize;
  }

  lemma BagUnion(a: multiset<string>, b: multiset<string>)
    ensures (set h | h in a + b) == (set h | h in a) + (set h | h in b)
  {
  }

  lemma {:induction false} KeyBagMembers(c: Crypto, id: string, s: Settings, values: seq<Value>)
    ensures (set h | h in KeyBag(c, id, s, values)) == ValueKeys(c, id, s, values)
    ensures InvalidCount(c, id, s, values) == 0 <==> forall v :: v in values && v != Null ==> KeyOf(c, id, s, v).Some?
  {
    if values != [] {
      hide KeyBag, ValueKeys, InvalidCount, KeyOf, KeyOne;
      var init, v := values[..|values| - 1], values[|values| - 1];
      assert values == init + [v];
      KeyBagMembers(c, id, s, init);
      KeyBagLast(c, id, s, init, v);
      ValueKeysAppend(c, id, s, init, [v]);
      OneKey(c, id, s, v);
      BagUnion(KeyBag(c, id, s, init), KeyOne(c, id, s, v));
    }
  }

  lemma KeyBagSnoc(c: Crypto, id: string, s: Settings, values: seq<Value>, n: nat)
    requires n < |values|
    ensures KeyBag(c, id, s, values[..n + 1]) == KeyBag(c, id, s, values[..n]) + KeyOne(c, id, s, values[n])
    ensures InvalidCount(c, id, s, values[..n + 1])
         == InvalidCount(c, id, s, values[..n]) + Indicator(values[n] != Null && KeyOf(c, id, s, values[n]).None?)
    ensures n + 1 == |values| ==> values[..n + 1] == values
  {
    assert values[..n + 1][..n] == values[..n];
  }

  lemma KeyBagLast(c: Crypto, id: string, s: Settings, values: seq<Value>, v: Value)
    ensures KeyBag(c, id, s, values + [v]) == KeyBag(c, id, s, values) + KeyOne(c, id, s, v)
    ensures InvalidCount(c, id, s, values + [v])
         == InvalidCount(c, id, s, values) + Indicator(v != Null && KeyOf(c, id, s, v).None?)
  {
    hide KeyOf, KeyOne;
    assert (values + [v])[..|values|] == values;
  }

  lemma {:induction false} KeyBagAppend(c: Crypto, id: string, s: Settings, a: seq<Value>, b: seq<Value>)
    ensures KeyBag(c, id, s, a + b) == KeyBag(c, id, s, a) + KeyBag(c, id, s, b)
    ensures InvalidCount(c, id, s, a + b) == InvalidCount(c, id, s, a) + InvalidCount(c, id, s, b)
    decreases |b|
  {
    if b == [] {
      hide KeyOne, KeyOf;
      assert a + b == a;
    } else {
      hide *;
      var init, v := b[..|b| - 1], b[|b| - 1];
      KeyBagAppend(c, id, s, a, init);
      AppendLast(a, b);
      KeyBagLast(c, id, s, a + init, v);
      KeyBagLast(c, id, s, init, v);
    }
  }

  datatype GroupHmacStats = GroupHmacStats(
    id: string, targetDistinct: nat, intersectionKeys: nat, invalidValues: nat, unavailableColumns: nat)

  /** The values of the group's columns that exist in the target, column after column. */
  function GroupValues(refs: seq<ColumnRef>, targetColumns: seq<ColumnInfo>, target: ScanConnection): seq<Value> {
    if refs == [] then []
    else
      var r := refs[|refs| - 1];
      GroupValues(refs[..|refs| - 1], targetColumns, target)
      + if ColumnFor(targetColumns, r).None? then [] else Flatten(target.column(r))
  }

  function MissingColumns(refs: seq<ColumnRef>, targetColumns: seq<ColumnInfo>): nat {
    if refs == [] then 0
    else
      MissingColumns(refs[..|refs| - 1], targetColumns)
      + Indicator(ColumnFor(targetColumns, refs[|refs| - 1]).None?)
  }

  /** What the per-group statistics count. */
  ghost predicate StatsMean(c: Crypto, m: Mappings, id: string, s: Settings, refs: seq<ColumnRef>,
                            targetColumns: seq<ColumnInfo>, target: ScanConnection, stats: GroupHmacStats)
  {
    var values := GroupValues(refs, targetColumns, target);
    && stats.id == id
    && stats.targetDistinct == |ValueKeys(c, id, s, values)|
    && stats.intersectionKeys == |ValueKeys(c, id, s, values) * KeysIn(m, id)|
    && stats.invalidValues == InvalidCount(c, id, s, values)
    && stats.unavailableColumns == MissingColumns(refs, targetColumns)
  }

  predicate StatsClean(stats: GroupHmacStats) {
    stats.intersectionKeys == stats.invalidValues == stats.unavailableColumns == 0
  }
}
