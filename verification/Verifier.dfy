/** Streaming verification: counters are updated value by value from two cursors, a bounded cache
    and the work table, and end up exactly at their meaning. */
module Verifier {
  import opened Base
  import opened Policy
  import opened RegistryModel
  import opened WorkTable
  import opened Registry
  import opened Cursor
  import opened LookupCache
  import opened Database
  import opened VerifierModel

  class MappingMetrics {
    var columnsChecked: nat
    var primaryKeyColumns: nat
    var aggregateColumns: nat
    var unavailableColumns: nat
    var rowsChecked: nat
    var primaryKeyMismatches: nat
    var nullMismatches: nat
    var missingMappings: nat
    var mappingMismatches: nat
    var unchangedValues: nat
    var invalidSourceValues: nat
    var invalidTargetValues: nat

    function Details(): Metrics
      reads this
    {
      Metrics(columnsChecked, primaryKeyColumns, aggregateColumns, unavailableColumns, rowsChecked,
              primaryKeyMismatches, nullMismatches, missingMappings, mappingMismatches, unchangedValues,
              invalidSourceValues, invalidTargetValues)
    }

    constructor ()
      ensures Details() == ZERO
    {
      columnsChecked, primaryKeyColumns, aggregateColumns, unavailableColumns := 0, 0, 0, 0;
      rowsChecked, primaryKeyMismatches, nullMismatches, missingMappings := 0, 0, 0, 0;
      mappingMismatches, unchangedValues, invalidSourceValues, invalidTargetValues := 0, 0, 0, 0;
    }

    method Failed() returns (failed: bool)
      ensures failed <==> !Clean(Details())
    {
      failed := unavailableColumns != 0 || primaryKeyMismatches != 0 || nullMismatches != 0 || missingMappings != 0
        || mappingMismatches != 0 || unchangedValues != 0 || invalidSourceValues != 0 || invalidTargetValues != 0;
    }
  }

  /** `_expected_replacement` for a non-NULL source value. */
  method ExpectedReplacement(c: Crypto, id: string, s: Settings, v: Value, metrics: MappingMetrics,
                             cache: ReplacementLookupCache)
    returns (r: Option<string>)
    requires cache.Valid() && cache.group == id && v != Null
    modifies metrics, cache
    ensures cache.Valid()
    ensures var e := Expect(c, cache.registry.mappings, id, s, v);
      && r == (if e.Image? then Some(e.text) else None)
      && metrics.Details() == Plus(old(metrics.Details()), ExpectTally(e))
  {
    hide cache.Valid;
    var normalized := Normalize(c, s, v);
    if normalized.None? {
      metrics.invalidSourceValues := metrics.invalidSourceValues + 1;
      return None;
    }
    r := cache.Lookup(c.digest(id, normalized.value));
    if r.None? || r.value == "" {
      metrics.missingMappings := metrics.missingMappings + 1;
      return None;
    }
  }

  /** `_compare_mapping_values`. */
  method CompareMappingValues(c: Crypto, id: string, s: Settings, source: Value, target: Value, metrics: MappingMetrics,
                              cache: ReplacementLookupCache)
    requires cache.Valid() && cache.group == id
    modifies metrics, cache
    ensures cache.Valid()
    ensures metrics.Details()
      == Plus(old(metrics.Details()), CellTally(Expect(c, cache.registry.mappings, id, s, source), source, target))
  {
    hide CellTally, ExpectTally, TextTally, Lookup, KeyOf, cache.Valid;
    ghost var e, start := Expect(c, cache.registry.mappings, id, s, source), metrics.Details();
    CellTallySplits(e, source, target);
    if source == Null {
      if target != Null { metrics.nullMismatches := metrics.nullMismatches + 1; }
      return;
    }
    var replacement := ExpectedReplacement(c, id, s, source, metrics, cache);
    if replacement.None? { return; }
    CompareText(replacement.value, source, target, metrics);
    PlusAssociative(start, ExpectTally(e), TextTally(e.text, source, target));
  }

  /** The comparison of a target cell with a known replacement. */
  method CompareText(replacement: string, source: Value, target: Value, metrics: MappingMetrics)
    requires source != Null
    modifies metrics
    ensures metrics.Details() == Plus(old(metrics.Details()), TextTally(replacement, source, target))
  {
    if target == Null {
      metrics.nullMismatches := metrics.nullMismatches + 1;
      return;
    }
    if !target.Text? {
      metrics.invalidTargetValues := metrics.invalidTargetValues + 1;
      return;
    }
    if target.text != replacement { metrics.mappingMismatches := metrics.mappingMismatches + 1; }
    if source.Text? && target.text == source.text { metrics.unchangedValues := metrics.unchangedValues + 1; }
  }

  /** One step of the paired scan. */
  method ComparePair(c: Crypto, id: string, s: Settings, x: Option<KeyedRow>, y: Option<KeyedRow>,
                     metrics: MappingMetrics, cache: ReplacementLookupCache)
    requires cache.Valid() && cache.group == id
    modifies metrics, cache
    ensures cache.Valid()
    ensures metrics.Details() == Plus(old(metrics.Details()), RowsTally(c, cache.registry.mappings, id, s, x, y))
  {
    hide Plus, CellTally, Expect, cache.Valid;
    ghost var before := metrics.Details();
    if x.None? || y.None? || x.value.key != y.value.key {
      metrics.primaryKeyMismatches := metrics.primaryKeyMismatches + 1;
      OneMismatch(before);
    } else {
      metrics.rowsChecked := metrics.rowsChecked + 1;
      CompareMappingValues(c, id, s, x.value.value, y.value.value, metrics, cache);
      ghost var e := Expect(c, cache.registry.mappings, id, s, x.value.value);
      CellHasNoRow(e, x.value.value, y.value.value);
      OneRow(before, CellTally(e, x.value.value, y.value.value));
    }
  }

  /** `_check_mapping_by_primary_key`: two ordered scans read in step to the end of the longer one. */
  method CheckMappingByPrimaryKey(c: Crypto, id: string, s: Settings, sourceBatches: seq<seq<KeyedRow>>,
                                  targetBatches: seq<seq<KeyedRow>>, metrics: MappingMetrics,
                                  cache: ReplacementLookupCache, fetchSize: nat)
    requires cache.Valid() && cache.group == id
    requires NonEmptyBatches(sourceBatches) && NonEmptyBatches(targetBatches)
    modifies metrics, cache
    ensures cache.Valid()
    ensures var a, b := Flatten(sourceBatches), Flatten(targetBatches);
      metrics.Details() == Plus(old(metrics.Details()),
                                AlignedTally(c, cache.registry.mappings, id, s, a, b, Max(|a|, |b|)))
  {
    hide *;
    ghost var a, b := Flatten(sourceBatches), Flatten(targetBatches);
    ghost var m, start := cache.registry.mappings, metrics.Details();
    var sourceRows := new RowStream<KeyedRow>(sourceBatches, fetchSize);
    var targetRows := new RowStream<KeyedRow>(targetBatches, fetchSize);
    ghost var n := 0;
    AlignedNone(c, m, id, s, a, b);
    CleanPlus(start, ZERO);
    DropAt(a, 0);
    DropAt(b, 0);
    LongerEnds(a, b, 0);
    while true
      invariant n <= Max(|a|, |b|)
      invariant sourceRows.Valid() && sourceRows.Remaining() == Drop(a, n)
      invariant targetRows.Valid() && targetRows.Remaining() == Drop(b, n)
      invariant cache.Valid()
      invariant metrics.Details() == Plus(start, AlignedTally(c, m, id, s, a, b, n))
      decreases Max(|a|, |b|) - n
    {
      DropAt(a, n);
      DropAt(b, n);
      LongerEnds(a, b, n);
      var sourceRow := sourceRows.Next();
      var targetRow := targetRows.Next();
      if sourceRow.None? && targetRow.None? { break; }
      AlignedStep(c, m, id, s, a, b, n, start);
      ComparePair(c, id, s, sourceRow, targetRow, metrics, cache);
      n := n + 1;
    }
  }

  /** The longer of two lists decides when a paired reading ends. */
  lemma LongerEnds<T>(a: seq<T>, b: seq<T>, n: nat)
    ensures n < Max(|a|, |b|) <==> At(a, n).Some? || At(b, n).Some?
    ensures 0 <= Max(|a|, |b|)
  {
  }

  /** One source value: its expected replacement, when it has one, adds a digest. */
  method PushSource(c: Crypto, id: string, s: Settings, v: Value, metrics: MappingMetrics,
                    cache: ReplacementLookupCache, accumulator: VerificationHmacAccumulator, buffered: seq<Hmac>,
                    fetchSize: nat)
    returns (rest: seq<Hmac>)
    requires id != "" && cache.Valid() && cache.group == id
    requires accumulator.Valid() && accumulator.group == id && accumulator.registry == cache.registry
    modifies metrics, cache, accumulator, accumulator.registry`work, accumulator.registry`commits
    ensures cache.Valid() && accumulator.Valid() && accumulator.actual == old(accumulator.actual)
    ensures var e := Expect(c, cache.registry.mappings, id, s, v);
      && (e.SourceNull? <==> v == Null)
      && metrics.Details() == Plus(old(metrics.Details()), ExpectTally(e).(rowsChecked := 1))
      && accumulator.expected + multiset(rest) == old(accumulator.expected) + multiset(buffered) + ImageBag(c, id, e)
  {
    hide Plus, Expect, cache.Valid, accumulator.Valid, ExpectTally;
    var replacement := ReadSource(c, id, s, v, metrics, cache);
    if replacement.None? { return buffered; }
    rest := PushExpected(accumulator, buffered, c.digest(id, replacement.value), fetchSize);
  }

  /** The source half of the fallback comparison: expected replacements go to the work table in
      batches; NULLs are counted. */
  method ScanSource(c: Crypto, id: string, s: Settings, batches: seq<seq<Value>>, metrics: MappingMetrics,
                    cache: ReplacementLookupCache, accumulator: VerificationHmacAccumulator, fetchSize: nat)
    returns (nulls: nat)
    requires id != "" && cache.Valid() && cache.group == id && NonEmptyBatches(batches)
    requires accumulator.Valid() && accumulator.group == id && accumulator.registry == cache.registry
    requires accumulator.expected == multiset{}
    modifies metrics, cache, accumulator, accumulator.registry`work, accumulator.registry`commits
    ensures cache.Valid() && accumulator.Valid()
    ensures var values := Flatten(batches);
      && nulls == Nulls(values)
      && metrics.Details() == Plus(old(metrics.Details()), SourceTally(c, cache.registry.mappings, id, s, values))
      && accumulator.expected == ExpectedBag(c, cache.registry.mappings, id, s, values)
      && accumulator.actual == old(accumulator.actual)
  {
    hide *;
    ghost var values, m, start := Flatten(batches), cache.registry.mappings, metrics.Details();
    var rows := new RowStream<Value>(batches, fetchSize);
    var batch: seq<Hmac> := [];
    nulls := 0;
    ghost var n, bag := 0, multiset{};
    SourceScanStart(c, m, id, s, values, start);
    DropNext(values, 0);
    while true
      invariant n <= |values| && rows.Valid() && rows.Remaining() == Drop(values, n)
      invariant cache.Valid() && accumulator.Valid() && cache.registry.mappings == m
      invariant bag == accumulator.expected + multiset(batch)
      invariant SourceScanned(c, m, id, s, values, n, start, nulls, metrics.Details(), bag)
      invariant accumulator.actual == old(accumulator.actual)
      decreases |values| - n
    {
      DropNext(values, n);
      var row := rows.Next();
      if row.None? { break; }
      NullCounts(row.value);
      SourceScanStep(c, m, id, s, values, n, start, nulls, metrics.Details(), bag);
      bag := bag + ImageBag(c, id, Expect(c, m, id, s, row.value));
      batch := PushSource(c, id, s, row.value, metrics, cache, accumulator, batch, fetchSize);
      n := n + 1;
      if row.value == Null { nulls := nulls + 1; }
    }
    if batch != [] { batch := FlushExpected(accumulator, batch); }
    assert bag == accumulator.expected;
    SourceScanEnd(c, m, id, s, values, start, nulls, metrics.Details(), bag);
  }

  lemma NullCounts(v: Value)
    ensures Indicator(v == Null) == (if v == Null then 1 else 0)
  {
  }

  function Buffer(batch: seq<Hmac>, h: Hmac): (r: seq<Hmac>)
    ensures multiset(r) == multiset(batch) + multiset{h}
  {
    batch + [h]
  }

  /** Count one source row and look up its replacement. */
  method ReadSource(c: Crypto, id: string, s: Settings, v: Value, metrics: MappingMetrics,
                    cache: ReplacementLookupCache)
    returns (r: Option<string>)
    requires cache.Valid() && cache.group == id
    modifies metrics, cache
    ensures cache.Valid()
    ensures var e := Expect(c, cache.registry.mappings, id, s, v);
      && r == (if e.Image? then Some(e.text) else None)
      && (e.SourceNull? <==> v == Null)
      && metrics.Details() == Plus(old(metrics.Details()), ExpectTally(e).(rowsChecked := 1))
  {
    hide KeyOf, Lookup, cache.Valid;
    ghost var start := metrics.Details();
    metrics.rowsChecked := metrics.rowsChecked + 1;
    if v == Null { return None; }
    r := ExpectedReplacement(c, id, s, v, metrics, cache);
    OneRow(start, ExpectTally(Expect(c, cache.registry.mappings, id, s, v)));
  }

  method FlushExpected(accumulator: VerificationHmacAccumulator, batch: seq<Hmac>) returns (empty: seq<Hmac>)
    requires accumulator.Valid() && accumulator.group != ""
    modifies accumulator, accumulator.registry`work, accumulator.registry`commits
    ensures accumulator.Valid() && empty == []
    ensures accumulator.expected == old(accumulator.expected) + multiset(batch)
    ensures accumulator.actual == old(accumulator.actual)
  {
    hide accumulator.Valid;
    var hmacs := AsText(batch);
    var added := accumulator.AddExpected(hmacs);
    return [];
  }

  method FlushActual(accumulator: VerificationHmacAccumulator, batch: seq<Hmac>) returns (empty: seq<Hmac>)
    requires accumulator.Valid() && accumulator.group != ""
    modifies accumulator, accumulator.registry`work, accumulator.registry`commits
    ensures accumulator.Valid() && empty == []
    ensures accumulator.actual == old(accumulator.actual) + multiset(batch)
    ensures accumulator.expected == old(accumulator.expected)
  {
    hide accumulator.Valid;
    var hmacs := AsText(batch);
    var added := accumulator.AddActual(hmacs);
    return [];
  }

  /** Buffer one digest; a full buffer goes to the work table. */
  method PushExpected(accumulator: VerificationHmacAccumulator, batch: seq<Hmac>, h: Hmac, fetchSize: nat)
    returns (rest: seq<Hmac>)
    requires accumulator.Valid() && accumulator.group != ""
    modifies accumulator, accumulator.registry`work, accumulator.registry`commits
    ensures accumulator.Valid() && accumulator.actual == old(accumulator.actual)
    ensures accumulator.expected + multiset(rest) == old(accumulator.expected) + multiset(batch) + multiset{h}
  {
    hide accumulator.Valid;
    rest := Buffer(batch, h);
    if |rest| >= fetchSize { rest := FlushExpected(accumulator, rest); }
  }

  method PushActual(accumulator: VerificationHmacAccumulator, batch: seq<Hmac>, h: Hmac, fetchSize: nat)
    returns (rest: seq<Hmac>)
    requires accumulator.Valid() && accumulator.group != ""
    modifies accumulator, accumulator.registry`work, accumulator.registry`commits
    ensures accumulator.Valid() && accumulator.expected == old(accumulator.expected)
    ensures accumulator.actual + multiset(rest) == old(accumulator.actual) + multiset(batch) + multiset{h}
  {
    hide accumulator.Valid;
    rest := Buffer(batch, h);
    if |rest| >= fetchSize { rest := FlushActual(accumulator, rest); }
  }

  function AsText(batch: seq<Hmac>): (hmacs: seq<string>)
    ensures hmacs == batch && forall h :: h in hmacs ==> IsDigest(h)
  {
    batch
  }

  /** The target half: exact texts go to the work table; NULLs and non-texts are counted. */
  method ScanTarget(c: Crypto, id: string, batches: seq<seq<Value>>, metrics: MappingMetrics,
                    accumulator: VerificationHmacAccumulator, fetchSize: nat)
    returns (nulls: nat)
    requires id != "" && NonEmptyBatches(batches)
    requires accumulator.Valid() && accumulator.group == id && accumulator.actual == multiset{}
    modifies metrics, accumulator, accumulator.registry`work, accumulator.registry`commits
    ensures accumulator.Valid()
    ensures var values := Flatten(batches);
      && nulls == Nulls(values)
      && metrics.Details() == Plus(old(metrics.Details()), TargetTally(values))
      && accumulator.actual == ActualBag(c, id, values)
      && accumulator.expected == old(accumulator.expected)
  {
    hide *;
    ghost var values, start := Flatten(batches), metrics.Details();
    var rows := new RowStream<Value>(batches, fetchSize);
    var batch: seq<Hmac> := [];
    nulls := 0;
    ghost var n, bag := 0, multiset{};
    TargetScanStart(c, id, values, start);
    DropNext(values, 0);
    while true
      invariant n <= |values| && rows.Valid() && rows.Remaining() == Drop(values, n)
      invariant accumulator.Valid()
      invariant bag == accumulator.actual + multiset(batch)
      invariant TargetScanned(c, id, values, n, start, nulls, metrics.Details(), bag)
      invariant accumulator.expected == old(accumulator.expected)
      decreases |values| - n
    {
      DropNext(values, n);
      var row := rows.Next();
      if row.None? { break; }
      TargetCell(c, id, row.value);
      TargetScanStep(c, id, values, n, start, nulls, metrics.Details(), bag);
      bag := bag + TextBag(c, id, row.value);
      n := n + 1;
      if row.value == Null {
        nulls := nulls + 1;
        continue;
      }
      if !row.value.Text? {
        CountInvalidTarget(metrics);
        continue;
      }
      batch := PushActual(accumulator, batch, c.digest(id, row.value.text), fetchSize);
    }
    if batch != [] { batch := FlushActual(accumulator, batch); }
    assert bag == accumulator.actual;
    TargetScanEnd(c, id, values, start, nulls, metrics.Details(), bag);
  }

  lemma TargetCell(c: Crypto, id: string, v: Value)
    ensures TextBag(c, id, v) == if v.Text? then multiset{c.digest(id, v.text)} else multiset{}
    ensures Indicator(v == Null) == (if v == Null then 1 else 0) && Indicator(v.Other?) == (if v.Other? then 1 else 0)
  {
  }

  /** Non-text target values are counted. */
  method CountInvalidTarget(metrics: MappingMetrics)
    modifies metrics
    ensures metrics.Details()
      == old(metrics.Details()).(invalidTargetValues := old(metrics.Details()).invalidTargetValues + 1)
  {
    metrics.invalidTargetValues := metrics.invalidTargetValues + 1;
  }

  /** `_check_mapping_aggregate`: one work scope per column. */
  method CheckMappingAggregate(c: Crypto, id: string, s: Settings, sourceBatches: seq<seq<Value>>,
                               targetBatches: seq<seq<Value>>, metrics: MappingMetrics,
                               cache: ReplacementLookupCache, registry: MappingRegistry, fetchSize: nat)
    requires id != "" && cache.Valid() && cache.group == id && cache.registry == registry
    requires NonEmptyBatches(sourceBatches) && NonEmptyBatches(targetBatches)
    modifies metrics, cache, registry`work, registry`commits
    ensures cache.Valid() && registry.work == map[]
    ensures metrics.Details()
      == Plus(old(metrics.Details()),
              MultisetTally(c, registry.mappings, id, s, Flatten(sourceBatches), Flatten(targetBatches)))
  {
    hide *;
    ghost var m, start, a, b := registry.mappings, metrics.Details(), Flatten(sourceBatches), Flatten(targetBatches);
    var scope := registry.OpenScope(id);
    var accumulator := scope.value;
    var sourceNulls := ScanSource(c, id, s, sourceBatches, metrics, cache, accumulator, fetchSize);
    var targetNulls := ScanTarget(c, id, targetBatches, metrics, accumulator, fetchSize);
    var mismatches := accumulator.MultisetDifferenceCount();
    registry.CloseScope();
    AddDifferences(metrics, Distance(sourceNulls, targetNulls), mismatches);
    MultisetParts(c, m, id, s, a, b, start);
  }

  method AddDifferences(metrics: MappingMetrics, nulls: nat, values: nat)
    modifies metrics
    ensures metrics.Details()
      == Plus(old(metrics.Details()), ZERO.(nullMismatches := nulls, mappingMismatches := values))
  {
    metrics.nullMismatches := metrics.nullMismatches + nulls;
    metrics.mappingMismatches := metrics.mappingMismatches + values;
  }

  /** Cursors never hand out an empty batch before the end. */
  ghost predicate CursorsFaithful(conn: ScanConnection) {
    && (forall r :: NonEmptyBatches(conn.column(r)))
    && (forall key, r :: NonEmptyBatches(conn.keyed(key, r)))
    && (forall key :: NonEmptyBatches(conn.keys(key)))
  }

  /** One configured column, compared as planned. */
  method CheckColumn(c: Crypto, plan: Plan, x: ConfiguredColumn, source: ScanConnection, target: ScanConnection,
                     metrics: MappingMetrics, cache: ReplacementLookupCache, registry: MappingRegistry, fetchSize: nat)
    requires x.id != "" && cache.Valid() && cache.group == x.id && cache.registry == registry
    requires CursorsFaithful(source) && CursorsFaithful(target)
    modifies metrics, cache, registry`work, registry`commits
    ensures cache.Valid()
    ensures metrics.Details() == Plus(old(metrics.Details()),
                                      ColumnTally(c, registry.mappings, plan, x, source, target))
  {
    hide Flatten, AlignedTally, MultisetTally, NonEmptyBatches, cache.Valid, Plus;
    ghost var m, start := registry.mappings, metrics.Details();
    match plan {
      case Unavailable =>
        CountColumn(metrics, plan);
      case ByPrimaryKey(key) =>
        CountColumn(metrics, plan);
        CheckMappingByPrimaryKey(c, x.id, x.settings, source.keyed(key, x.ref), target.keyed(key, x.ref),
                                 metrics, cache, fetchSize);
        ghost var a, b := Flatten(source.keyed(key, x.ref)), Flatten(target.keyed(key, x.ref));
        PlusAssociative(start, ZERO.(columnsChecked := 1, primaryKeyColumns := 1),
                        AlignedTally(c, m, x.id, x.settings, a, b, Max(|a|, |b|)));
      case ByMultiset =>
        CountColumn(metrics, plan);
        CheckMappingAggregate(c, x.id, x.settings, source.column(x.ref), target.column(x.ref),
                              metrics, cache, registry, fetchSize);
        PlusAssociative(start, ZERO.(columnsChecked := 1, aggregateColumns := 1),
                        MultisetTally(c, m, x.id, x.settings, Flatten(source.column(x.ref)),
                                      Flatten(target.column(x.ref))));
    }
  }

  method CountColumn(metrics: MappingMetrics, plan: Plan)
    modifies metrics
    ensures metrics.Details() == Plus(old(metrics.Details()),
      match plan
      case Unavailable => ZERO.(columnsChecked := 1, unavailableColumns := 1)
      case ByPrimaryKey(_) => ZERO.(columnsChecked := 1, primaryKeyColumns := 1)
      case ByMultiset => ZERO.(columnsChecked := 1, aggregateColumns := 1))
  {
    metrics.columnsChecked := metrics.columnsChecked + 1;
    match plan {
      case Unavailable => metrics.unavailableColumns := metrics.unavailableColumns + 1;
      case ByPrimaryKey(_) => metrics.primaryKeyColumns := metrics.primaryKeyColumns + 1;
      case ByMultiset => metrics.aggregateColumns := metrics.aggregateColumns + 1;
    }
  }

  const CACHE_LIMIT: nat := 4_096

  /** `check_configured_mappings`: one lookup cache per group, shared by the group's columns. */
  method CheckConfiguredMappings(c: Crypto, groups: seq<GroupEntry>, columns: seq<ConfiguredColumn>,
                                 schemas: Schemas, source: ScanConnection, target: ScanConnection,
                                 registry: MappingRegistry, fetchSize: nat)
    returns (passed: bool, details: Metrics)
    requires forall i :: 0 <= i < |columns| ==> columns[i].id != ""
    requires CursorsFaithful(source) && CursorsFaithful(target)
    modifies registry`work, registry`commits
    ensures details == TotalTally(c, registry.mappings, groups, schemas, columns, source, target, |columns|)
    ensures passed <==> Clean(details)
  {
    hide ColumnTally, PlanFor, Plus, Clean, CursorsFaithful, Held;
    ghost var m := registry.mappings;
    var metrics := new MappingMetrics();
    var caches: map<string, ReplacementLookupCache> := map[];
    for i := 0 to |columns|
      invariant fresh(metrics)
      invariant forall g :: g in caches ==>
        fresh(caches[g]) && caches[g].Valid() && caches[g].group == g && caches[g].registry == registry
      invariant metrics.Details() == TotalTally(c, m, groups, schemas, columns, source, target, i)
    {
      var x := columns[i];
      var plan := PlanFor(groups, schemas, x.ref);
      if x.id !in caches {
        var created := new ReplacementLookupCache(registry, x.id, CACHE_LIMIT);
        caches := caches[x.id := created];
      }
      CheckColumn(c, plan, x, source, target, metrics, caches[x.id], registry, fetchSize);
    }
    var failed := metrics.Failed();
    return !failed, metrics.Details();
  }

  /** One target value: NULL is skipped, a value without a normal form is counted, any other adds its
      digest. */
  method PushKey(c: Crypto, id: string, s: Settings, v: Value, accumulator: VerificationHmacAccumulator,
                 buffered: seq<Hmac>, fetchSize: nat)
    returns (rest: seq<Hmac>, invalid: nat)
    requires id != "" && accumulator.Valid() && accumulator.group == id
    modifies accumulator, accumulator.registry`work, accumulator.registry`commits
    ensures accumulator.Valid() && accumulator.expected == old(accumulator.expected)
    ensures accumulator.actual + multiset(rest) == old(accumulator.actual) + multiset(buffered) + KeyOne(c, id, s, v)
    ensures invalid == Indicator(v != Null && KeyOf(c, id, s, v).None?)
  {
    hide *;
    KeyCell(c, id, s, v);
    if v == Null { return buffered, 0; }
    var normalized := Normalize(c, s, v);
    if normalized.None? { return buffered, 1; }
    rest := PushActual(accumulator, buffered, c.digest(id, normalized.value), fetchSize);
    invalid := 0;
  }

  /** One column of the intersection check; the buffer is carried over to the next column. */
  method ScanKeyColumn(c: Crypto, id: string, s: Settings, batches: seq<seq<Value>>,
                       accumulator: VerificationHmacAccumulator, buffered: seq<Hmac>, fetchSize: nat)
    returns (rest: seq<Hmac>, invalid: nat)
    requires id != "" && NonEmptyBatches(batches)
    requires accumulator.Valid() && accumulator.group == id
    modifies accumulator, accumulator.registry`work, accumulator.registry`commits
    ensures accumulator.Valid() && accumulator.expected == old(accumulator.expected)
    ensures accumulator.actual + multiset(rest)
      == old(accumulator.actual) + multiset(buffered) + KeyBag(c, id, s, Flatten(batches))
    ensures invalid == InvalidCount(c, id, s, Flatten(batches))
  {
    hide *;
    ghost var values := Flatten(batches);
    var rows := new RowStream<Value>(batches, fetchSize);
    rest, invalid := buffered, 0;
    ghost var n := 0;
    ghost var start := accumulator.actual + multiset(buffered);
    ghost var bag := start;
    DropNext(values, 0);
    NoKeys(c, id, s, values);
    while true
      invariant n <= |values| && rows.Valid() && rows.Remaining() == Drop(values, n)
      invariant accumulator.Valid() && accumulator.expected == old(accumulator.expected)
      invariant bag == accumulator.actual + multiset(rest)
      invariant bag == start + KeyBag(c, id, s, values[..n])
      invariant invalid == InvalidCount(c, id, s, values[..n])
      decreases |values| - n
    {
      DropNext(values, n);
      var row := rows.Next();
      if row.None? { break; }
      KeyBagSnoc(c, id, s, values, n);
      var refused;
      rest, refused := PushKey(c, id, s, row.value, accumulator, rest, fetchSize);
      invalid := invalid + refused;
      bag := bag + KeyOne(c, id, s, row.value);
      n := n + 1;
    }
    assert values[..n] == values;
  }

  lemma NoKeys(c: Crypto, id: string, s: Settings, values: seq<Value>)
    ensures KeyBag(c, id, s, values[..0]) == multiset{} && InvalidCount(c, id, s, values[..0]) == 0
  {
  }

  lemma KeyCell(c: Crypto, id: string, s: Settings, v: Value)
    ensures var n := Normalize(c, s, v);
      && KeyOne(c, id, s, v) == (if n.Some? then multiset{c.digest(id, n.value)} else multiset{})
      && Indicator(v != Null && KeyOf(c, id, s, v).None?) == (if v != Null && n.None? then 1 else 0)
      && (v == Null ==> n.None?)
  {
  }

  /** One group of `check_source_target_hmac_nonintersection`. */
  method CheckGroupIntersection(c: Crypto, id: string, s: Settings, refs: seq<ColumnRef>,
                                targetColumns: seq<ColumnInfo>, target: ScanConnection, registry: MappingRegistry,
                                fetchSize: nat)
    returns (stats: GroupHmacStats)
    requires id != "" && CursorsFaithful(target)
    modifies registry`work, registry`commits
    ensures StatsMean(c, registry.mappings, id, s, refs, targetColumns, target, stats)
    ensures registry.work == map[]
  {
    hide *;
    var scope := registry.OpenScope(id);
    var accumulator := scope.value;
    var batch: seq<Hmac> := [];
    var invalid, missing := 0, 0;
    NoRefs(c, id, s, refs, targetColumns, target);
    for i := 0 to |refs|
      invariant accumulator.Valid()
      invariant accumulator.actual + multiset(batch) == KeyBag(c, id, s, GroupValues(refs[..i], targetColumns, target))
      invariant invalid == InvalidCount(c, id, s, GroupValues(refs[..i], targetColumns, target))
      invariant missing == MissingColumns(refs[..i], targetColumns)
    {
      RefStep(c, id, s, refs, i, targetColumns, target);
      if ColumnFor(targetColumns, refs[i]).None? {
        missing := missing + 1;
        continue;
      }
      ColumnScans(target, refs[i]);
      var more;
      batch, more := ScanKeyColumn(c, id, s, target.column(refs[i]), accumulator, batch, fetchSize);
      invalid := invalid + more;
    }
    if batch != [] { batch := FlushActual(accumulator, batch); }
    assert refs[..|refs|] == refs;
    var distinct := accumulator.ActualDistinctCount();
    var intersection := accumulator.SourceIntersectionCount();
    registry.CloseScope();
    stats := GroupHmacStats(id, distinct, intersection, invalid, missing);
    StatsComplete(c, registry.mappings, id, s, refs, targetColumns, target, accumulator.actual, stats);
  }

  lemma ColumnScans(target: ScanConnection, r: ColumnRef)
    requires CursorsFaithful(target)
    ensures NonEmptyBatches(target.column(r))
  {
  }

  lemma NoRefs(c: Crypto, id: string, s: Settings, refs: seq<ColumnRef>, targetColumns: seq<ColumnInfo>,
               target: ScanConnection)
    ensures KeyBag(c, id, s, GroupValues(refs[..0], targetColumns, target)) == multiset{}
    ensures InvalidCount(c, id, s, GroupValues(refs[..0], targetColumns, target)) == 0
    ensures MissingColumns(refs[..0], targetColumns) == 0
  {
  }

  lemma RefStep(c: Crypto, id: string, s: Settings, refs: seq<ColumnRef>, i: nat, targetColumns: seq<ColumnInfo>,
                target: ScanConnection)
    requires i < |refs|
    ensures var gone := ColumnFor(targetColumns, refs[i]).None?;
      var before := GroupValues(refs[..i], targetColumns, target);
      var after := GroupValues(refs[..i + 1], targetColumns, target);
      var values := Flatten(target.column(refs[i]));
      && MissingColumns(refs[..i + 1], targetColumns) ==
        MissingColumns(refs[..i], targetColumns) + (if gone then 1 else 0)
      && (gone ==> after == before)
      && (!gone ==>
            && KeyBag(c, id, s, after) == KeyBag(c, id, s, before) + KeyBag(c, id, s, values)
            && InvalidCount(c, id, s, after) == InvalidCount(c, id, s, before) + InvalidCount(c, id, s, values))
  {
    hide Flatten, KeyBag, InvalidCount, ColumnFor;
    assert refs[..i + 1][..i] == refs[..i];
    var before := GroupValues(refs[..i], targetColumns, target);
    assert before + [] == before;
    KeyBagAppend(c, id, s, before, Flatten(target.column(refs[i])));
  }

  lemma StatsComplete(c: Crypto, m: Mappings, id: string, s: Settings, refs: seq<ColumnRef>,
                      targetColumns: seq<ColumnInfo>, target: ScanConnection, actual: multiset<string>,
                      stats: GroupHmacStats)
    requires actual == KeyBag(c, id, s, GroupValues(refs, targetColumns, target))
    requires stats.id == id && stats.targetDistinct == |Members(actual)|
    requires stats.intersectionKeys == |Members(actual) * KeysIn(m, id)|
    requires stats.invalidValues == InvalidCount(c, id, s, GroupValues(refs, targetColumns, target))
    requires stats.unavailableColumns == MissingColumns(refs, targetColumns)
    ensures StatsMean(c, m, id, s, refs, targetColumns, target, stats)
  {
    hide KeyBag, GroupValues, ValueKeys, KeysIn;
    KeyBagMembers(c, id, s, GroupValues(refs, targetColumns, target));
  }

  /** `check_source_target_hmac_nonintersection` over the groups in the given order. */
  method CheckSourceTargetNonintersection(c: Crypto, groups: seq<GroupEntry>, targetColumns: seq<ColumnInfo>,
                                          target: ScanConnection, registry: MappingRegistry, fetchSize: nat)
    returns (stats: seq<GroupHmacStats>, passed: bool)
    requires CursorsFaithful(target) && forall i :: 0 <= i < |groups| ==> groups[i].id != ""
    modifies registry`work, registry`commits
    ensures |stats| == |groups|
    ensures forall i :: 0 <= i < |groups| ==>
      StatsMean(c, registry.mappings, groups[i].id, groups[i].group.settings, SortRefs(groups[i].group.columns),
                targetColumns, target, stats[i])
    ensures passed <==> forall i :: 0 <= i < |stats| ==> StatsClean(stats[i])
  {
    hide StatsMean, CursorsFaithful, SortRefs;
    stats := [];
    var intersections, invalid, unavailable := 0, 0, 0;
    for i := 0 to |groups|
      invariant |stats| == i
      invariant forall j :: 0 <= j < i ==>
        StatsMean(c, registry.mappings, groups[j].id, groups[j].group.settings, SortRefs(groups[j].group.columns),
                  targetColumns, target, stats[j])
      invariant intersections >= 0 && invalid >= 0 && unavailable >= 0
      invariant intersections == invalid == unavailable == 0 <==> forall j :: 0 <= j < i ==> StatsClean(stats[j])
    {
      var group := CheckGroupIntersection(c, groups[i].id, groups[i].group.settings, SortRefs(groups[i].group.columns),
                                          targetColumns, target, registry, fetchSize);
      stats := stats + [group];
      intersections := intersections + group.intersectionKeys;
      invalid := invalid + group.invalidValues;
      unavailable := unavailable + group.unavailableColumns;
    }
    passed := intersections == 0 && invalid == 0 && unavailable == 0;
  }
}
