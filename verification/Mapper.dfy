/** The long-lived JSONL mapper: configured fields are rewritten through a bounded cache over the
    registry, and the stream stops at the first record that cannot be rewritten. */
module Mapper {
  import opened Base
  import opened RegistryModel
  import opened Registry

  /** One column of a JSON record: `d` is the text (NULL when absent), `n` says that the value is NULL. */
  datatype Attribute = NotAnObject | Attribute(d: Value, n: bool)

  type Fields = map<string, Attribute>

  datatype ColumnBinding = ColumnBinding(column: string, group: string)

  datatype MapperFault =
    | MissingColumn(column: string)
    | InvalidShape(column: string)
    | InvalidValue(column: string)
    | MissingMapping(column: string)
    | InternalFailure(column: string)
    | InvalidConfiguration
    | UnknownTable

  // ----- what a rewrite is, without any cache -----

  /** The rewritten attribute of one configured column, or why it cannot be rewritten. An empty group
      identifier passes the configuration's checks but has no digest. */
  function MappedField(c: Crypto, m: Mappings, groups: map<string, Settings>, fields: Fields, b: ColumnBinding)
    : Result<Attribute, MapperFault>
    requires b.group in groups
  {
    if b.column !in fields then Failure(MissingColumn(b.column))
    else
      match fields[b.column]
      case NotAnObject => Failure(InvalidShape(b.column))
      case Attribute(d, n) =>
        if n then Success(fields[b.column])
        else
          match KeyOf(c, b.group, groups[b.group], d)
          case None => Failure(InvalidValue(b.column))
          case Some(h) =>
            if b.group == "" then Failure(InternalFailure(b.column))
            else
              match Lookup(m, b.group, h)
              case None => Failure(MissingMapping(b.column))
              case Some(r) => Success(Attribute(Text(r), false))
  }

  ghost predicate Bound(groups: map<string, Settings>, columns: seq<ColumnBinding>) {
    && (forall i :: 0 <= i < |columns| ==> columns[i].group in groups)
    && forall i, j :: 0 <= i < j < |columns| ==> columns[i].column != columns[j].column
  }

  /** `after` is `before` with each of the first `n` configured columns mapped and nothing else
      changed. */
  ghost predicate MappedUpTo(c: Crypto, m: Mappings, groups: map<string, Settings>, columns: seq<ColumnBinding>,
                             n: nat, before: Fields, after: Fields)
    requires Bound(groups, columns) && n <= |columns|
  {
    && after.Keys == before.Keys
    && (forall i :: 0 <= i < n ==>
          MappedField(c, m, groups, before, columns[i]).Success?
          && columns[i].column in before
          && after[columns[i].column] == MappedField(c, m, groups, before, columns[i]).value)
    && forall x :: x in before && (forall i :: 0 <= i < n ==> columns[i].column != x) ==> after[x] == before[x]
  }

  ghost predicate Transformed(c: Crypto, m: Mappings, groups: map<string, Settings>, columns: seq<ColumnBinding>,
                              before: Fields, after: Fields)
    requires Bound(groups, columns)
  {
    MappedUpTo(c, m, groups, columns, |columns|, before, after)
  }

  /** Column `i` is the first that cannot be mapped, for the given reason. */
  ghost predicate Refused(c: Crypto, m: Mappings, groups: map<string, Settings>, columns: seq<ColumnBinding>,
                          before: Fields, i: nat, fault: MapperFault)
    requires Bound(groups, columns)
  {
    && i < |columns|
    && MappedField(c, m, groups, before, columns[i]) == Failure(fault)
    && forall j :: 0 <= j < i ==> MappedField(c, m, groups, before, columns[j]).Success?
  }

  /** One more configured column, read from the partly rewritten record, is read as in the original. */
  lemma MappedNext(c: Crypto, m: Mappings, groups: map<string, Settings>, columns: seq<ColumnBinding>,
                   n: nat, before: Fields, now: Fields)
    requires Bound(groups, columns) && n < |columns|
    requires MappedUpTo(c, m, groups, columns, n, before, now)
    ensures MappedField(c, m, groups, now, columns[n]) == MappedField(c, m, groups, before, columns[n])
    ensures var f := MappedField(c, m, groups, before, columns[n]);
      f.Success? ==> MappedUpTo(c, m, groups, columns, n + 1, before, now[columns[n].column := f.value])
  {
    hide KeyOf, Lookup;
    assert columns[n].column in before ==> now[columns[n].column] == before[columns[n].column];
  }

  /** What has been mapped stays mapped alike while the registry grows. */
  lemma MappedStays(c: Crypto, m: Mappings, m': Mappings, groups: map<string, Settings>, columns: seq<ColumnBinding>,
                    n: nat, before: Fields, now: Fields)
    requires Bound(groups, columns) && n <= |columns| && Grows(m, m')
    requires MappedUpTo(c, m, groups, columns, n, before, now)
    ensures MappedUpTo(c, m', groups, columns, n, before, now)
  {
    hide KeyOf;
    forall i | 0 <= i < n
      ensures MappedField(c, m', groups, before, columns[i]) == MappedField(c, m, groups, before, columns[i])
    {
      assert MappedField(c, m, groups, before, columns[i]).Success?;
    }
  }

  // ----- the registry while the stream is read -----

  /** What the registry holds at `n` successive moments: it only grows. */
  ghost predicate GrowingViews(start: Mappings, n: nat, views: seq<Mappings>) {
    && |views| == n
    && (n > 0 ==> Grows(start, views[0]))
    && forall i :: 0 <= i && i + 1 < n ==> Grows(views[i], views[i + 1])
  }

  ghost function ViewBefore(start: Mappings, views: seq<seq<Mappings>>, i: nat): Mappings
    requires i <= |views| && forall j :: 0 <= j < |views| ==> views[j] != []
  {
    if i == 0 then start else views[i - 1][|views[i - 1]| - 1]
  }

  /** One view for every lookup of every record. */
  ghost predicate GrowingStream(start: Mappings, n: nat, lines: seq<Line>, views: seq<seq<Mappings>>) {
    && n >= 1 && |views| == |lines|
    && (forall i :: 0 <= i < |views| ==> |views[i]| == n)
    && forall i :: 0 <= i < |views| ==> GrowingViews(ViewBefore(start, views, i), n, views[i])
  }

  lemma StreamShape(start: Mappings, n: nat, lines: seq<Line>, views: seq<seq<Mappings>>)
    requires GrowingStream(start, n, lines, views)
    ensures |views| == |lines| && (forall i :: 0 <= i < |views| ==> |views[i]| == n)
    ensures ViewBefore(start, views, 0) == start
  {
    hide GrowingViews;
  }

  lemma StreamAt(start: Mappings, n: nat, lines: seq<Line>, views: seq<seq<Mappings>>, i: nat)
    requires GrowingStream(start, n, lines, views) && i < |lines|
    ensures |views| == |lines| && |views[i]| == n && GrowingViews(ViewBefore(start, views, i), n, views[i])
    ensures n >= 1 && ViewBefore(start, views, i + 1) == views[i][n - 1]
    ensures Unchanging(start, views) ==> views[i][n - 1] == start && forall j :: 0 <= j < n ==> views[i][j] == start
  {
    hide GrowingViews;
  }

  /** No other process writes the registry meanwhile. */
  ghost predicate Unchanging(m: Mappings, views: seq<seq<Mappings>>) {
    forall i, j :: 0 <= i < |views| && 0 <= j < |views[i]| ==> views[i][j] == m
  }

  // ----- the cache -----

  /** Cached replacements are what the registry holds. */
  ghost predicate CacheSound(cache: map<Key, string>, m: Mappings) {
    forall k :: k in cache ==> Lookup(m, k.group, k.hmac) == Some(cache[k])
  }

  /** Only assigned values are cached, and assignments are written once: growth of the registry
      leaves the cache sound. */
  lemma CacheStaysSound(cache: map<Key, string>, m: Mappings, m': Mappings)
    requires CacheSound(cache, m) && Grows(m, m')
    ensures CacheSound(cache, m')
  {
    forall k | k in cache ensures Lookup(m', k.group, k.hmac) == Some(cache[k]) {
      assert Key(k.group, k.hmac) == k;
    }
  }

  class Record {
    var fields: Fields

    constructor (fields: Fields)
      ensures this.fields == fields
    {
      this.fields := fields;
    }
  }

  const MAX_CACHE_ENTRIES: nat := 4_096

  datatype MapperConfig = MapperConfig(groups: map<string, Settings>, tables: map<string, seq<ColumnBinding>>)

  /** `_parse_config` on the decoded document. */
  predicate ConfigAccepted(config: MapperConfig) {
    && config.groups != map[] && config.tables != map[]
    && forall t :: t in config.tables ==>
         config.tables[t] != [] && forall b :: b in config.tables[t] ==> b.group in config.groups
  }

  datatype Line = NotJson | NotARecord | Json(fields: Fields)

  class JsonlMapper {
    const columns: seq<ColumnBinding>
    const groups: map<string, Settings>
    const crypto: Crypto
    const registry: MappingRegistry
    var cache: map<Key, string>
    var order: seq<Key>

    ghost predicate Valid()
      reads this, registry`mappings
    {
      && Bound(groups, columns) && columns != []
      && Distinct(order) && Elements(order) == cache.Keys && |order| <= MAX_CACHE_ENTRIES
      && CacheSound(cache, registry.mappings)
    }

    constructor (columns: seq<ColumnBinding>, groups: map<string, Settings>, crypto: Crypto, registry: MappingRegistry)
      requires Bound(groups, columns) && columns != []
      ensures Valid() && this.registry == registry
      ensures this.columns == columns && this.groups == groups && this.crypto == crypto
    {
      this.columns, this.groups, this.crypto, this.registry := columns, groups, crypto, registry;
      cache, order := map[], [];
    }

    /** Enter a replacement; the oldest entry makes room when the cache is full. */
    method Remember(key: Key, replacement: string)
      requires Valid() && key !in cache
      requires Lookup(registry.mappings, key.group, key.hmac) == Some(replacement)
      modifies this
      ensures Valid() && key in cache
      ensures order == (if |old(order)| >= MAX_CACHE_ENTRIES then old(order)[1..] else old(order)) + [key]
    {
      if |cache| >= MAX_CACHE_ENTRIES {
        OrderCount(order, cache);
        OldestLeaves(order, cache);
        cache := cache - {order[0]};
        order := order[1..];
      }
      OrderCount(order, cache);
      cache := cache[key := replacement];
      order := order + [key];
    }

    static lemma OrderCount(order: seq<Key>, cache: map<Key, string>)
      requires Distinct(order) && Elements(order) == cache.Keys
      ensures |order| == |cache|
    {
      DistinctCount(order);
      assert |cache| == |cache.Keys|;
    }

    static lemma OldestLeaves(order: seq<Key>, cache: map<Key, string>)
      requires order != [] && Distinct(order) && Elements(order) == cache.Keys
      ensures Elements(order[1..]) == (cache - {order[0]}).Keys && Distinct(order[1..])
    {
      assert order == [order[0]] + order[1..];
    }

    /** The replacement of a key, from the cache or the registry. */
    method Replacement(group: string, hmac: string) returns (r: Option<string>)
      requires Valid() && ValidKey(group, hmac)
      modifies this
      ensures Valid()
      ensures r == Lookup(registry.mappings, group, hmac)
    {
      var key := Key(group, hmac);
      if key in cache { return Some(cache[key]); }
      var found := registry.LookupReplacement(group, hmac);
      r := found.value;
      if r.Some? { Remember(key, r.value); }
    }

    /** Rewrite the configured fields of a record in place. Before each field another process may have
        committed more assignments: `views[i]` is what the registry holds while column `i` is looked up.
        A successful rewrite is the one that the last view gives; a refusal is for the reason that holds
        at the refused column's view. */
    method Transform(record: Record, views: seq<Mappings>) returns (fault: Option<MapperFault>)
      requires Valid() && GrowingViews(registry.mappings, |columns|, views)
      modifies this, record, registry`mappings
      ensures Valid()
      ensures fault.None? ==> registry.mappings == views[|columns| - 1]
      ensures fault.None? ==> Transformed(crypto, registry.mappings, groups, columns, old(record.fields), record.fields)
      ensures fault.Some? ==> exists i: nat ::
        && i < |columns| && registry.mappings == views[i]
        && Refused(crypto, registry.mappings, groups, columns, old(record.fields), i, fault.value)
    {
      hide MappedUpTo, KeyOf, Lookup, CacheSound, Distinct, Elements, Grows;
      ghost var before, start := record.fields, registry.mappings;
      NothingMapped(crypto, start, groups, columns, before);
      for i := 0 to |columns|
        invariant Valid()
        invariant registry.mappings == if i == 0 then start else views[i - 1]
        invariant MappedUpTo(crypto, registry.mappings, groups, columns, i, before, record.fields)
      {
        var b := columns[i];
        assert Grows(registry.mappings, views[i]) by { ViewGrows(start, |columns|, views, i); }
        CacheStaysSound(cache, registry.mappings, views[i]);
        MappedStays(crypto, registry.mappings, views[i], groups, columns, i, before, record.fields);
        registry.mappings := views[i];
        ghost var m := registry.mappings;
        MappedNext(crypto, m, groups, columns, i, before, record.fields);
        MappedSoFar(crypto, m, groups, columns, i, before, record.fields);
        var mapped := MapAttribute(b, record.fields);
        if mapped.Failure? {
          assert registry.mappings == views[i] && Refused(crypto, m, groups, columns, before, i, mapped.error);
          return Some(mapped.error);
        }
        record.fields := record.fields[b.column := mapped.value];
      }
      return None;
    }

    /** The rewritten attribute of one configured column, or the reason why there is none. */
    method MapAttribute(b: ColumnBinding, fields: Fields) returns (r: Result<Attribute, MapperFault>)
      requires Valid() && b.group in groups
      modifies this
      ensures Valid()
      ensures r == MappedField(crypto, registry.mappings, groups, fields, b)
    {
      hide KeyOf, Lookup, CacheSound, Distinct, Elements, Bound;
      if b.column !in fields { return Failure(MissingColumn(b.column)); }
      var attribute := fields[b.column];
      if attribute.NotAnObject? { return Failure(InvalidShape(b.column)); }
      if attribute.n { return Success(attribute); }
      var key := KeyOf(crypto, b.group, groups[b.group], attribute.d);
      if key.None? { return Failure(InvalidValue(b.column)); }
      if b.group == "" { return Failure(InternalFailure(b.column)); }
      KeyValid(crypto, b.group, groups[b.group], attribute.d);
      var replacement := Replacement(b.group, key.value);
      if replacement.None? { return Failure(MissingMapping(b.column)); }
      return Success(Attribute(Text(replacement.value), false));
    }

    static lemma ViewGrows(start: Mappings, n: nat, views: seq<Mappings>, i: nat)
      requires GrowingViews(start, n, views) && i < n
      ensures Grows(if i == 0 then start else views[i - 1], views[i])
    {
      if i > 0 { assert Grows(views[i - 1], views[i - 1 + 1]); }
    }

    static lemma KeyValid(c: Crypto, group: string, s: Settings, v: Value)
      ensures KeyOf(c, group, s, v).Some? && group != "" ==> ValidKey(group, KeyOf(c, group, s, v).value)
    {
    }

    static lemma NothingMapped(c: Crypto, m: Mappings, groups: map<string, Settings>, columns: seq<ColumnBinding>,
                               f: Fields)
      requires Bound(groups, columns)
      ensures MappedUpTo(c, m, groups, columns, 0, f, f)
    {
    }

    static lemma MappedSoFar(c: Crypto, m: Mappings, groups: map<string, Settings>, columns: seq<ColumnBinding>,
                             n: nat, before: Fields, now: Fields)
      requires Bound(groups, columns) && n <= |columns| && MappedUpTo(c, m, groups, columns, n, before, now)
      ensures forall j :: 0 <= j < n ==> MappedField(c, m, groups, before, columns[j]).Success?
    {
    }

    /** The stream loop. The registry may grow between any two lookups: `views[i][j]` is what it holds
        while column `j` of record `i` is looked up. */
    method Run(lines: seq<Line>, views: seq<seq<Mappings>>) returns (status: nat, output: seq<Fields>)
      requires Valid() && GrowingStream(registry.mappings, |columns|, lines, views)
      modifies this, registry`mappings
      ensures |output| <= |lines|
      ensures forall i :: 0 <= i < |output| ==>
        Rewritten(crypto, views[i][|columns| - 1], groups, columns, lines[i], output[i])
      ensures if |output| == |lines| then status == 0
        else status == 4 && Unwritable(crypto, views[|output|], groups, columns, lines[|output|])
      ensures Unchanging(old(registry.mappings), views) ==> registry.mappings == old(registry.mappings)
    {
      hide Transformed, Refused, CacheSound, Distinct, Elements, Grows, GrowingViews, GrowingStream, ViewBefore,
        Unwritable, Unchanging, Rewritten, Bound;
      ghost var start := registry.mappings;
      StreamShape(start, |columns|, lines, views);
      output := [];
      for i := 0 to |lines|
        invariant Valid() && |output| == i
        invariant registry.mappings == ViewBefore(start, views, i)
        invariant Unchanging(start, views) ==> registry.mappings == start
        invariant forall j :: 0 <= j < i ==>
          Rewritten(crypto, views[j][|columns| - 1], groups, columns, lines[j], output[j])
      {
        StreamAt(start, |columns|, lines, views, i);
        if !lines[i].Json? {
          LineUnwritable(crypto, views[i], groups, columns, lines[i]);
          return 4, output;
        }
        var record := new Record(lines[i].fields);
        var fault := Transform(record, views[i]);
        if fault.Some? {
          RefusalUnwritable(crypto, views[i], groups, columns, lines[i], registry.mappings, fault.value);
          return 4, output;
        }
        WrittenLine(crypto, views[i][|columns| - 1], groups, columns, lines[i], record.fields);
        output := output + [record.fields];
      }
      return 0, output;
    }
  }

  ghost predicate Rewritten(c: Crypto, m: Mappings, groups: map<string, Settings>, columns: seq<ColumnBinding>,
                            line: Line, output: Fields)
    requires Bound(groups, columns)
  {
    line.Json? && Transformed(c, m, groups, columns, line.fields, output)
  }

  /** The line is no record, or some column is refused at its own view. */
  ghost predicate Unwritable(c: Crypto, views: seq<Mappings>, groups: map<string, Settings>,
                             columns: seq<ColumnBinding>, line: Line)
    requires Bound(groups, columns)
  {
    line.Json? ==> exists i: nat, fault :: i < |views| && Refused(c, views[i], groups, columns, line.fields, i, fault)
  }

  lemma LineUnwritable(c: Crypto, views: seq<Mappings>, groups: map<string, Settings>, columns: seq<ColumnBinding>,
                       line: Line)
    requires Bound(groups, columns) && !line.Json?
    ensures Unwritable(c, views, groups, columns, line)
  {
  }

  lemma RefusalUnwritable(c: Crypto, views: seq<Mappings>, groups: map<string, Settings>, columns: seq<ColumnBinding>,
                          line: Line, m: Mappings, fault: MapperFault)
    requires Bound(groups, columns) && line.Json?
    requires exists i: nat :: i < |views| && m == views[i] && Refused(c, m, groups, columns, line.fields, i, fault)
    ensures Unwritable(c, views, groups, columns, line)
  {
    hide Refused, Bound;
    var i: nat :| i < |views| && m == views[i] && Refused(c, m, groups, columns, line.fields, i, fault);
    assert i < |views| && Refused(c, views[i], groups, columns, line.fields, i, fault);
  }

  lemma WrittenLine(c: Crypto, m: Mappings, groups: map<string, Settings>, columns: seq<ColumnBinding>, line: Line,
                    output: Fields)
    requires Bound(groups, columns) && line.Json? && Transformed(c, m, groups, columns, line.fields, output)
    ensures Rewritten(c, m, groups, columns, line, output)
  {
  }

  /** A record is either rewritten in exactly one way or refused for exactly one reason. */
  lemma TransformedUnique(c: Crypto, m: Mappings, groups: map<string, Settings>, columns: seq<ColumnBinding>,
                          before: Fields, a: Fields, b: Fields)
    requires Bound(groups, columns)
    requires Transformed(c, m, groups, columns, before, a) && Transformed(c, m, groups, columns, before, b)
    ensures a == b
  {
    forall x | x in before ensures a[x] == b[x] {
      if i :| 0 <= i < |columns| && columns[i].column == x {
      }
    }
  }

  lemma RefusedExcludesTransformed(c: Crypto, m: Mappings, groups: map<string, Settings>, columns: seq<ColumnBinding>,
                                   before: Fields, i: nat, fault: MapperFault)
    requires Bound(groups, columns) && Refused(c, m, groups, columns, before, i, fault)
    ensures forall after :: !Transformed(c, m, groups, columns, before, after)
  {
  }

  /** Once every key of a record is assigned, further growth of the registry does not change its
      rewrite. */
  lemma TransformedStable(c: Crypto, m: Mappings, m': Mappings, groups: map<string, Settings>,
                          columns: seq<ColumnBinding>, before: Fields, after: Fields)
    requires Bound(groups, columns) && Grows(m, m') && Transformed(c, m, groups, columns, before, after)
    ensures Transformed(c, m', groups, columns, before, after)
  {
    MappedStays(c, m, m', groups, columns, |columns|, before, after);
  }

  /** Start a mapper for one table of a configuration file. */
  method OpenMapper(config: MapperConfig, table: string, crypto: Crypto, registry: MappingRegistry)
    returns (r: Result<JsonlMapper, MapperFault>)
    requires forall t :: t in config.tables ==> DistinctColumns(config.tables[t])
    ensures r.Success? <==> ConfigAccepted(config) && table in config.tables
    ensures r.Success? ==>
      && fresh(r.value) && r.value.Valid() && r.value.registry == registry && r.value.crypto == crypto
      && r.value.columns == config.tables[table] && r.value.groups == config.groups
    ensures r.Failure? ==> r.error == if ConfigAccepted(config) then UnknownTable else InvalidConfiguration
  {
    if !ConfigAccepted(config) { return Failure(InvalidConfiguration); }
    if table !in config.tables { return Failure(UnknownTable); }
    assert DistinctColumns(config.tables[table]);
    var mapper := new JsonlMapper(config.tables[table], config.groups, crypto, registry);
    return Success(mapper);
  }

  /** The names of one dictionary. */
  ghost predicate DistinctColumns(columns: seq<ColumnBinding>) {
    forall i, j :: 0 <= i < j < |columns| ==> columns[i].column != columns[j].column
  }
}
