/** The whole pipeline: any run that reaches the later nodes leaves a registry with which the mapper
    never fails, foreign keys survive and both mapping checks pass; and exactly when the run finishes. */
module Pipeline {
  import opened Base
  import opened Policy
  import opened RegistryModel
  import opened Registry
  import opened Database
  import opened VerifierModel
  import opened Verifier
  import opened Mapper
  import opened Scans
  import opened Graph
  import opened DataPlane
  import opened Integrity
  import opened Acceptance
  import opened Cardinality
  import opened AggregateChecks
  import opened ConstraintChecks
  import opened ConfigBuilder
  import opened Restore

  /** What the verifier is given about the two databases after an honest restore. */
  ghost predicate Restored(x: Context, m: Mappings, schemas: Schemas, source: ScanConnection, target: ScanConnection,
                           order: Ordering) {
    && SchemasComplete(x.groups, schemas) && PrimaryKeysHold(x.db, schemas.sourceKeys) && Orders(order)
    && ReadsFrom(source, x.db, order) && ReadsFrom(target, ImageDatabase(x, m), order)
  }

  /** The mapper of every table rewrites every row, and what it writes is the image of the row. */
  ghost predicate MapperWritesImages(x: Context, m: Mappings) {
    forall t, n | t in x.db && 0 <= n < |x.db[t]| :: RowRewritten(x, m, t, n)
  }

  ghost predicate RowRewritten(x: Context, m: Mappings, t: TableRef, n: nat)
    requires t in x.db && n < |x.db[t]|
  {
    && Bound(SettingsMap(x.groups), Bindings(x.groups, t))
    && (forall i, fault :: !Refused(x.crypto, m, SettingsMap(x.groups), Bindings(x.groups, t), EncodeRow(x.db[t][n]),
                                    i, fault))
    && forall output | Transformed(x.crypto, m, SettingsMap(x.groups), Bindings(x.groups, t), EncodeRow(x.db[t][n]),
                                   output) ::
         DecodeRow(output) == ImageRow(x, m, t, x.db[t][n])
  }

  lemma EveryRowRewritten(x: Context, m: Mappings)
    requires Ready(x, m) && PolicyOk(x) && RowsComplete(x)
    ensures MapperWritesImages(x, m)
  {
    hide Ready, PolicyOk, RowsComplete, Bindings, SettingsMap, Bound, Refused, Transformed, EncodeRow, DecodeRow,
      ImageRow;
    forall t, n: nat | t in x.db && n < |x.db[t]| ensures RowRewritten(x, m, t, n) {
      MapperNeverFails(x, m, t, n);
    }
  }

  ghost predicate GroupStatsMean(x: Context, m: Mappings, i: nat, schemas: Schemas, target: ScanConnection,
                                 stats: GroupHmacStats)
    requires i < |x.groups|
  {
    var e := x.groups[i];
    StatsMean(x.crypto, m, e.id, e.group.settings, SortRefs(e.group.columns), schemas.targetColumns, target, stats)
  }

  /** Every group's statistics on the restored database, whatever the check reports they mean. */
  ghost predicate GroupsPass(x: Context, m: Mappings, schemas: Schemas, target: ScanConnection) {
    forall i, stats | 0 <= i < |x.groups| && GroupStatsMean(x, m, i, schemas, target, stats) ::
      StatsClean(stats) && stats.targetDistinct == |KeysIn(m, x.groups[i].id)|
  }

  lemma EveryGroupPasses(x: Context, m: Mappings, schemas: Schemas, source: ScanConnection, target: ScanConnection,
                         order: Ordering)
    requires Ready(x, m) && PolicyOk(x) && Restored(x, m, schemas, source, target, order)
    ensures GroupsPass(x, m, schemas, target)
  {
    hide Ready, PolicyOk, StatsMean, StatsClean, SortRefs, KeysIn, ImageDatabase, KeyedRows, Flatten, Column,
      KeyOrdered, PrimaryKeysHold, Orders, ColumnFor;
    forall i: nat, stats | i < |x.groups| && GroupStatsMean(x, m, i, schemas, target, stats)
      ensures StatsClean(stats) && stats.targetDistinct == |KeysIn(m, x.groups[i].id)|
    {
      forall r | r in x.groups[i].group.columns
        ensures ColumnFor(schemas.targetColumns, r).Some? && ColumnRead(target, ImageDatabase(x, m), r)
      {
        ColumnIsRead(target, ImageDatabase(x, m), order, r);
      }
      HonestGroupStats(x, m, i, schemas.targetColumns, target, stats);
    }
  }

  lemma ColumnIsRead(target: ScanConnection, db: Database, order: Ordering, r: ColumnRef)
    requires ReadsFrom(target, db, order)
    ensures ColumnRead(target, db, r)
  {
    hide Flatten, Column, KeyedRows, KeyOrdered;
  }

  lemma ValidPolicyContext(p: Policy, x: Context)
    requires ValidPolicy(p) && p.groups == x.groups
    ensures PolicyOk(x)
  {
    forall i | 0 <= i < |x.groups| ensures x.groups[i].id != "" {
      assert IsIdentifier(p.groups[i].id);
    }
  }

  /** End to end: for every source database and every policy that the schema validation accepts, any
      run, however often it crashed and was resumed, that got past generation leaves a registry with
      which the mapper rewrites every row, no foreign key breaks, and the target passes the mapping
      check and the nonintersection check with every failure counter at 0. */
  lemma EndToEnd(p: Policy, snapshot: Snapshot, x: Context, worlds: seq<World>, schemas: Schemas,
                 source: ScanConnection, target: ScanConnection, order: Ordering)
    requires ValidPolicy(p) && p.groups == x.groups && ValidatePolicyAgainstSchema(p, snapshot).None?
    requires Run(x, worlds)
    requires var next := worlds[|worlds| - 1].next;
      next.BuildGreenmaskConfig? || next.DumpAndRestore? || next.VerifyAndReport? || next.Completed?
    requires RowsComplete(x)
    requires forall fk :: fk in snapshot.foreignKeys ==> WellFormed(fk) && Orphans(x.db, fk) == 0
    requires Restored(x, worlds[|worlds| - 1].tables.mappings, schemas, source, target, order)
    ensures var m := worlds[|worlds| - 1].tables.mappings;
      && MapperWritesImages(x, m)
      && (forall fk :: fk in snapshot.foreignKeys ==> Orphans(ImageDatabase(x, m), fk) == 0)
      && Clean(TotalTally(x.crypto, m, x.groups, schemas, ConfiguredColumns(x.groups), source, target,
                          |ConfiguredColumns(x.groups)|))
      && GroupsPass(x, m, schemas, target)
  {
    hide ValidPolicy, ValidatePolicyAgainstSchema, Ready, RowsComplete, Orphans, WellFormed, ImageDatabase,
      TotalTally, Clean, ConfiguredColumns, MapperWritesImages, GroupsPass, PrimaryKeysHold, Orders, ReadsFrom,
      SchemasComplete;
    var m := worlds[|worlds| - 1].tables.mappings;
    ValidPolicyContext(p, x);
    RunLeavesReady(x, worlds);
    EveryRowRewritten(x, m);
    ForeignKeysSurvive(p, snapshot, x, m);
    HonestMappingsPass(x, m, schemas, source, target, order);
    EveryGroupPasses(x, m, schemas, source, target, order);
  }

  // ----- all required checks -----

  /** One flag for each required check of a report. */
  datatype Verdict = Verdict(
    fingerprint: bool, columnTypes: bool, rowCounts: bool, statistics: bool, foreignKeys: bool, keys: bool,
    mappings: bool, nonintersection: bool, placeholder: bool)

  /** The verification raises unless every required check passed. */
  predicate Passed(v: Verdict) {
    v.fingerprint && v.columnTypes && v.rowCounts && v.statistics && v.foreignKeys && v.keys && v.mappings
    && v.nonintersection && v.placeholder
  }

  /** What the verifier works on: two open connections, and what their aggregate statements evaluate. */
  datatype Sides = Sides(source: ScanConnection, target: ScanConnection, from: Database, to: Database)

  ghost predicate StatisticsAgree(columns: seq<ConfiguredColumn>, schemas: Schemas, from: Database, to: Database) {
    forall i :: 0 <= i < |columns| ==> StatsAgree(StatsOf(schemas, columns[i].ref, from, to))
  }

  ghost predicate NoneCollapsed(columns: seq<ConfiguredColumn>, schemas: Schemas, from: Database, to: Database) {
    forall i :: 0 <= i < |columns| ==>
      StatsOf(schemas, columns[i].ref, from, to).available && !Collapsed(StatsOf(schemas, columns[i].ref, from, to))
  }

  ghost predicate ForeignKeysIntact(schemas: Schemas, to: Database)
    requires AllWellFormed(schemas.targetForeignKeys)
  {
    && multiset(schemas.sourceForeignKeys) == multiset(schemas.targetForeignKeys) && schemas.targetNotValid == []
    && forall i :: 0 <= i < |schemas.targetForeignKeys| ==> Orphans(to, schemas.targetForeignKeys[i]) == 0
  }

  ghost predicate KeysIntact(groups: seq<GroupEntry>, schemas: Schemas, s: Sides) {
    && multiset(schemas.sourceKeys) == multiset(schemas.targetKeys)
    && KeysHold(s.to, schemas.targetKeys)
    && ComparedKeysEqual(groups, schemas.sourceKeys, schemas.targetKeys, s.source, s.target)
  }

  ghost predicate RowsIntact(schemas: Schemas, views: Views, from: Database, to: Database) {
    TablesOf(schemas.sourceColumns) == TablesOf(schemas.targetColumns)
    && RowCountsEqual(views, from, to, TablesOf(schemas.sourceColumns))
  }

  /** The target keys of a group avoid its source keys, and every target value has a key. */
  ghost predicate GroupClean(c: Crypto, m: Mappings, e: GroupEntry, targetColumns: seq<ColumnInfo>,
                             target: ScanConnection) {
    var refs := SortRefs(e.group.columns);
    var values := GroupValues(refs, targetColumns, target);
    && |ValueKeys(c, e.id, e.group.settings, values) * KeysIn(m, e.id)| == 0
    && InvalidCount(c, e.id, e.group.settings, values) == 0
    && MissingColumns(refs, targetColumns) == 0
  }

  ghost predicate GroupsClean(c: Crypto, m: Mappings, groups: seq<GroupEntry>, targetColumns: seq<ColumnInfo>,
                              target: ScanConnection) {
    forall i :: 0 <= i < |groups| ==> GroupClean(c, m, groups[i], targetColumns, target)
  }

  /** What each flag says about the two sides and the registry. */
  ghost predicate VerdictMeans(v: Verdict, c: Crypto, m: Mappings, groups: seq<GroupEntry>,
                               columns: seq<ConfiguredColumn>, schemas: Schemas, s: Sides, views: Views,
                               sameSource: bool)
    requires AllWellFormed(schemas.targetForeignKeys)
  {
    && (v.fingerprint <==> sameSource)
    && (v.columnTypes <==> ColumnTypes(schemas.sourceColumns) == ColumnTypes(schemas.targetColumns))
    && (v.rowCounts <==> RowsIntact(schemas, views, s.from, s.to))
    && (v.statistics <==> StatisticsAgree(columns, schemas, s.from, s.to))
    && (v.foreignKeys <==> ForeignKeysIntact(schemas, s.to))
    && (v.keys <==> KeysIntact(groups, schemas, s))
    && (v.mappings <==> Clean(TotalTally(c, m, groups, schemas, columns, s.source, s.target, |columns|)))
    && (v.nonintersection <==> GroupsClean(c, m, groups, schemas.targetColumns, s.target))
    && (v.placeholder <==> NoneCollapsed(columns, schemas, s.from, s.to))
  }

  lemma StatsAreClean(c: Crypto, m: Mappings, e: GroupEntry, targetColumns: seq<ColumnInfo>, target: ScanConnection,
                      stats: GroupHmacStats)
    requires StatsMean(c, m, e.id, e.group.settings, SortRefs(e.group.columns), targetColumns, target, stats)
    ensures StatsClean(stats) <==> GroupClean(c, m, e, targetColumns, target)
  {
    hide ValueKeys, KeysIn, InvalidCount, MissingColumns, GroupValues, SortRefs;
  }

  /** The nonintersection check visits the groups in another order. */
  lemma GroupsInOrder(c: Crypto, m: Mappings, groups: seq<GroupEntry>, targetColumns: seq<ColumnInfo>,
                      target: ScanConnection)
    ensures GroupsClean(c, m, SortEntries(groups), targetColumns, target) <==>
      GroupsClean(c, m, groups, targetColumns, target)
  {
    hide SortEntries, GroupClean;
    SortedEntries(groups);
    var ordered := SortEntries(groups);
    if GroupsClean(c, m, ordered, targetColumns, target) {
      forall i | 0 <= i < |groups| ensures GroupClean(c, m, groups[i], targetColumns, target) {
        assert groups[i] in ordered;
      }
    }
    if GroupsClean(c, m, groups, targetColumns, target) {
      forall i | 0 <= i < |ordered| ensures GroupClean(c, m, ordered[i], targetColumns, target) {
        assert ordered[i] in groups;
      }
    }
  }

  /** `check_source_target_hmac_nonintersection` with the groups in ascending order. */
  method CheckNonintersection(c: Crypto, groups: seq<GroupEntry>, targetColumns: seq<ColumnInfo>,
                              target: ScanConnection, registry: MappingRegistry, fetchSize: nat)
    returns (passed: bool)
    requires CursorsFaithful(target) && forall i :: 0 <= i < |SortEntries(groups)| ==> SortEntries(groups)[i].id != ""
    modifies registry`work, registry`commits
    ensures passed <==> GroupsClean(c, registry.mappings, groups, targetColumns, target)
  {
    hide SortEntries, CursorsFaithful, StatsMean, StatsClean, GroupClean, SortRefs;
    var ordered := SortEntries(groups);
    var stats;
    stats, passed := CheckSourceTargetNonintersection(c, ordered, targetColumns, target, registry, fetchSize);
    forall i | 0 <= i < |ordered|
      ensures StatsClean(stats[i]) <==> GroupClean(c, registry.mappings, ordered[i], targetColumns, target)
    {
      StatsAreClean(c, registry.mappings, ordered[i], targetColumns, target, stats[i]);
    }
    GroupsInOrder(c, registry.mappings, groups, targetColumns, target);
  }

  /** `check_configured_column_statistics` and `check_no_single_placeholder` on its result. */
  method CheckStatistics(columns: seq<ConfiguredColumn>, schemas: Schemas, from: Database, to: Database)
    returns (agree: bool, spread: bool)
    ensures agree <==> StatisticsAgree(columns, schemas, from, to)
    ensures spread <==> NoneCollapsed(columns, schemas, from, to)
  {
    hide StatsOf, StatsAgree, Collapsed;
    var stats;
    stats, agree := CheckColumnStatistics(columns, schemas, from, to);
    spread := CheckNoSinglePlaceholder(stats);
  }

  /** `verify_connections`: every check on whatever target, each flag exactly as it should be. */
  method VerifyConnections(x: Context, columns: seq<ConfiguredColumn>, schemas: Schemas, s: Sides, views: Views,
                           fingerprint: string, expected: string, registry: MappingRegistry, fetchSize: nat)
    returns (v: Verdict)
    requires PolicyOk(x) && columns == ConfiguredColumns(x.groups) && AllWellFormed(schemas.targetForeignKeys)
    requires CursorsFaithful(s.source) && CursorsFaithful(s.target)
    modifies registry`work, registry`commits
    ensures VerdictMeans(v, x.crypto, registry.mappings, x.groups, columns, schemas, s, views, fingerprint == expected)
  {
    hide PolicyOk, ConfiguredColumns, SortEntries, CursorsFaithful, WellFormed, TotalTally, Clean, StatisticsAgree,
      NoneCollapsed, GroupsClean, Orphans, KeysHold, ComparedKeysEqual, RowCountsEqual, ColumnTypes, TablesOf;
    ConfiguredIds(x);
    SortedIds(x);
    var columnTypes := CheckSchemaColumnsTypes(schemas.sourceColumns, schemas.targetColumns);
    var rowCounts :=
      CheckTableRowCounts(views, s.from, s.to, TablesOf(schemas.sourceColumns), TablesOf(schemas.targetColumns));
    var statistics, placeholder := CheckStatistics(columns, schemas, s.from, s.to);
    var foreignKeys := ConstraintChecks.CheckForeignKeys(s.to, schemas.sourceForeignKeys, schemas.targetForeignKeys,
                                                         |schemas.targetNotValid|);
    var keys := CheckPrimaryUniqueConstraints(x.groups, schemas.sourceKeys, schemas.targetKeys, s.source, s.target,
                                              s.to, fetchSize);
    var mappings, details :=
      CheckConfiguredMappings(x.crypto, x.groups, columns, schemas, s.source, s.target, registry, fetchSize);
    var nonintersection :=
      CheckNonintersection(x.crypto, x.groups, schemas.targetColumns, s.target, registry, fetchSize);
    v := Verdict(fingerprint == expected, columnTypes, rowCounts, statistics, foreignKeys, keys, mappings,
                 nonintersection, placeholder);
  }

  /** What a passing verdict means on an arbitrary target: every configured column aligned by its primary
      key is the image of the source for every digest, and every other one when the texts compared there
      have different digests. */
  lemma PassedMeans(v: Verdict, c: Crypto, m: Mappings, groups: seq<GroupEntry>, columns: seq<ConfiguredColumn>,
                    schemas: Schemas, s: Sides, views: Views, sameSource: bool, order: Ordering)
    requires AllWellFormed(schemas.targetForeignKeys)
    requires VerdictMeans(v, c, m, groups, columns, schemas, s, views, sameSource) && Passed(v)
    requires Orders(order) && ReadsFrom(s.source, s.from, order) && ReadsFrom(s.target, s.to, order)
    requires PrimaryKeysHold(s.from, schemas.sourceKeys)
    ensures forall i :: 0 <= i < |columns| && !PlanFor(groups, schemas, columns[i].ref).ByMultiset? ==>
      ColumnIsImage(c, m, PlanFor(groups, schemas, columns[i].ref), columns[i], s.from, s.to)
    ensures DigestsSeparate(c, m, groups, schemas, columns, s.from, s.to) ==>
      forall i :: 0 <= i < |columns| ==>
        ColumnIsImage(c, m, PlanFor(groups, schemas, columns[i].ref), columns[i], s.from, s.to)
    ensures KeysHold(s.to, schemas.targetKeys)
    ensures forall i :: 0 <= i < |schemas.targetForeignKeys| ==> Orphans(s.to, schemas.targetForeignKeys[i]) == 0
  {
    hide ColumnIsImage, PlanFor, DigestsSeparate, Orders, ReadsFrom, PrimaryKeysHold, TotalTally, Clean, KeysHold,
      Orphans, StatisticsAgree, NoneCollapsed, GroupsClean, ComparedKeysEqual, RowsIntact, ColumnTypes, WellFormed;
    MappingsCheckExact(c, m, groups, schemas, columns, s.source, s.target, s.from, s.to, order);
  }

  // ----- when an honest run passes them -----

  /** The restored schema is the source's, and the source's validated constraints hold. */
  ghost predicate SchemaRestored(x: Context, schemas: Schemas) {
    && schemas.targetColumns == schemas.sourceColumns && schemas.targetKeys == schemas.sourceKeys
    && schemas.targetForeignKeys == schemas.sourceForeignKeys && schemas.targetNotValid == schemas.sourceNotValid
    && KeysHold(x.db, schemas.sourceKeys)
    && forall i :: 0 <= i < |schemas.sourceForeignKeys| ==>
         ForeignKeyKept(x, schemas.sourceNotValid, schemas.sourceForeignKeys[i])
  }

  /** The relationship is well-formed, sits in one place as the policy validation demands, and holds unless
      it is declared NOT VALID. */
  ghost predicate ForeignKeyKept(x: Context, notValid: seq<ForeignKey>, fk: ForeignKey) {
    WellFormed(fk) && OnePlace(fk, x.groups) && (fk !in notValid ==> Orphans(x.db, fk) == 0)
  }

  /** The foreign keys that are checked when they are created. */
  function Validated(foreignKeys: seq<ForeignKey>, notValid: seq<ForeignKey>): seq<ForeignKey> {
    if foreignKeys == [] then []
    else
      var last := foreignKeys[|foreignKeys| - 1];
      Validated(foreignKeys[..|foreignKeys| - 1], notValid) + if last in notValid then [] else [last]
  }

  lemma {:induction false} ValidatedMembers(foreignKeys: seq<ForeignKey>, notValid: seq<ForeignKey>, i: nat)
    requires i < |Validated(foreignKeys, notValid)|
    ensures Validated(foreignKeys, notValid)[i] in foreignKeys && Validated(foreignKeys, notValid)[i] !in notValid
  {
    var n := |foreignKeys| - 1;
    if i < |Validated(foreignKeys[..n], notValid)| { ValidatedMembers(foreignKeys[..n], notValid, i); }
  }

  /** What the policy validation accepted before the run is what the end of the run needs. */
  lemma AcceptedSchema(p: Policy, snapshot: Snapshot, x: Context, schemas: Schemas)
    requires ValidPolicy(p) && p.groups == x.groups && ValidatePolicyAgainstSchema(p, snapshot).None?
    requires schemas.sourceColumns == schemas.targetColumns == snapshot.columns
    requires schemas.sourceForeignKeys == schemas.targetForeignKeys == snapshot.foreignKeys
    requires schemas.sourceNotValid == schemas.targetNotValid
    requires schemas.sourceKeys == schemas.targetKeys && KeysHold(x.db, schemas.sourceKeys)
    requires forall fk :: fk in snapshot.foreignKeys ==>
      WellFormed(fk) && (fk !in schemas.sourceNotValid ==> Orphans(x.db, fk) == 0)
    ensures SchemasComplete(x.groups, schemas) && SchemaRestored(x, schemas)
  {
    ValidatorAcceptsExactly(p, snapshot);
    hide ValidPolicy, ValidatePolicyAgainstSchema, KeysHold, WellFormed, Orphans, OnePlace, ColumnFor;
    forall i, r | 0 <= i < |x.groups| && r in x.groups[i].group.columns
      ensures ColumnFor(schemas.sourceColumns, r).Some?
    {
      assert ColumnUsable(p.groups[i].group, r, snapshot);
    }
    forall i | 0 <= i < |schemas.sourceForeignKeys|
      ensures ForeignKeyKept(x, schemas.sourceNotValid, schemas.sourceForeignKeys[i])
    {
      assert schemas.sourceForeignKeys[i] in snapshot.foreignKeys;
    }
  }

  lemma SchemaForeignKeys(x: Context, schemas: Schemas)
    requires SchemaRestored(x, schemas)
    ensures AllWellFormed(schemas.sourceForeignKeys) && AllWellFormed(schemas.targetForeignKeys)
    ensures AllWellFormed(Validated(schemas.sourceForeignKeys, schemas.sourceNotValid))
  {
    hide WellFormed, OnePlace, Orphans, KeysHold, Validated;
    forall i | 0 <= i < |schemas.sourceForeignKeys| ensures WellFormed(schemas.sourceForeignKeys[i]) {
      assert ForeignKeyKept(x, schemas.sourceNotValid, schemas.sourceForeignKeys[i]);
    }
    var validated := Validated(schemas.sourceForeignKeys, schemas.sourceNotValid);
    forall i | 0 <= i < |validated| ensures WellFormed(validated[i]) {
      ValidatedMembers(schemas.sourceForeignKeys, schemas.sourceNotValid, i);
    }
  }

  /** The statistics agree in every column exactly when normalisation merges nothing. */
  lemma StatisticsExactly(x: Context, m: Mappings, schemas: Schemas)
    requires Ready(x, m) && PolicyOk(x) && SchemasComplete(x.groups, schemas) && FormsSeparate(x)
    ensures StatisticsAgree(ConfiguredColumns(x.groups), schemas, x.db, ImageDatabase(x, m)) <==> SpellingsUnique(x)
  {
    hide Ready, PolicyOk, ConfiguredColumns, StatsOf, StatsAgree, ImageDatabase, InjectiveFor, Column, NormalForms,
      InjectiveOn;
    var columns, image := ConfiguredColumns(x.groups), ImageDatabase(x, m);
    forall i: nat, r | i < |x.groups| && r in x.groups[i].group.columns
      ensures StatsAgree(StatsOf(schemas, r, x.db, image)) <==> OneSpelling(x, i, r)
    {
      HonestStatisticsExactly(x, m, schemas, i, r);
    }
    if StatisticsAgree(columns, schemas, x.db, image) {
      forall i: nat, r | i < |x.groups| && r in x.groups[i].group.columns ensures OneSpelling(x, i, r) {
        var cc := ConfiguredColumn(x.groups[i].id, x.groups[i].group.settings, r);
        assert Lists(x.groups, i, cc);
        ConfiguredColumnsExact(x.groups, cc);
        var n :| 0 <= n < |columns| && columns[n] == cc;
      }
    }
    if SpellingsUnique(x) {
      forall n | 0 <= n < |columns| ensures StatsAgree(StatsOf(schemas, columns[n].ref, x.db, image)) {
        assert columns[n] in columns;
        ConfiguredColumnsExact(x.groups, columns[n]);
        var i: nat :| Lists(x.groups, i, columns[n]);
        assert OneSpelling(x, i, columns[n].ref);
      }
    }
  }

  lemma AgreeingColumnsSpread(columns: seq<ConfiguredColumn>, schemas: Schemas, from: Database, to: Database)
    requires StatisticsAgree(columns, schemas, from, to)
    ensures NoneCollapsed(columns, schemas, from, to)
  {
    hide StatsOf;
    forall i | 0 <= i < |columns|
      ensures StatsOf(schemas, columns[i].ref, from, to).available
      ensures !Collapsed(StatsOf(schemas, columns[i].ref, from, to))
    {
      assert StatsAgree(StatsOf(schemas, columns[i].ref, from, to));
    }
  }

  /** What the views count is the same on both sides. */
  ghost predicate ViewCountsKept(views: Views, tables: set<TableRef>, from: Database, to: Database) {
    forall t :: t in tables && t in views ==> views[t](from) == views[t](to)
  }

  lemma RowsRestored(x: Context, m: Mappings, schemas: Schemas, views: Views)
    requires SchemaRestored(x, schemas)
    ensures RowsIntact(schemas, views, x.db, ImageDatabase(x, m)) <==>
      ViewCountsKept(views, TablesOf(schemas.sourceColumns), x.db, ImageDatabase(x, m))
  {
    hide ImageDatabase, KeysHold, ForeignKeyKept, RowsOf, TablesOf;
    forall t ensures |RowsOf(x.db, t)| == |RowsOf(ImageDatabase(x, m), t)| {
      ImageRowsAt(x, m, t);
    }
    var tables, image := TablesOf(schemas.sourceColumns), ImageDatabase(x, m);
    if RowCountsEqual(views, x.db, image, tables) {
      forall t | t in tables && t in views ensures views[t](x.db) == views[t](image) {
        assert RelationRows(views, x.db, t) == RelationRows(views, image, t);
      }
    }
  }

  /** Two databases that differ at most in configured columns. */
  ghost predicate AgreeOutside(groups: seq<GroupEntry>, from: Database, to: Database) {
    && from.Keys == to.Keys
    && (forall t :: t in from ==> |from[t]| == |to[t]|)
    && (forall t, n :: t in from && 0 <= n < |from[t]| ==> from[t][n].Keys == to[t][n].Keys)
    && forall t, n, c | t in from && 0 <= n < |from[t]| && c in from[t][n] ::
         GroupForColumn(groups, ColumnRef(t.schema, t.table, c)).None? ==> to[t][n][c] == from[t][n][c]
  }

  /** What a view counts does not depend on configured columns. */
  ghost predicate Indifferent(groups: seq<GroupEntry>, view: Database -> nat) {
    forall from, to :: AgreeOutside(groups, from, to) ==> view(from) == view(to)
  }

  /** Such views keep their counts whatever the replacements are. */
  lemma IndifferentViewsKept(x: Context, m: Mappings, views: Views, tables: set<TableRef>)
    requires forall t :: t in views ==> Indifferent(x.groups, views[t])
    ensures ViewCountsKept(views, tables, x.db, ImageDatabase(x, m))
  {
    hide GroupForColumn, SettingsMap, Expect;
    assert AgreeOutside(x.groups, x.db, ImageDatabase(x, m));
    hide AgreeOutside, ImageDatabase;
  }

  /** A view that counts the rows whose column `r` holds `v`. */
  function RowsWith(r: ColumnRef, v: Value): Database -> nat {
    (db: Database) => multiset(Column(db, r))[v]
  }

  lemma ReplacedIsOther(x: Context, m: Mappings, i: nat, r: ColumnRef, v: Value, w: Value)
    requires Ready(x, m) && PolicyOk(x) && i < |x.groups| && r in x.groups[i].group.columns
    requires v in Column(x.db, r) && w in Column(x.db, r) && v != Null
    ensures ImageCell(x, m, r, w) != v
  {
    NullStaysNull(x, m, r);
    if w != Null {
      ImageKey(x, m, i, r, v);
      ImageKey(x, m, i, r, w);
      StoredHmacsSeparate(x, m, i);
      hide PolicyOk, ImageCell, Column, KeyOf;
    }
  }

  /** Such a view on a configured column never counts as before: the replaced value is gone. */
  lemma FilteringViewChanges(x: Context, m: Mappings, i: nat, r: ColumnRef, v: Value, views: Views, t: TableRef,
                             tables: set<TableRef>)
    requires Ready(x, m) && PolicyOk(x) && i < |x.groups| && r in x.groups[i].group.columns
    requires v in Column(x.db, r) && v != Null && t in tables && t in views && views[t] == RowsWith(r, v)
    ensures views[t](x.db) > 0 && views[t](ImageDatabase(x, m)) == 0
    ensures !ViewCountsKept(views, tables, x.db, ImageDatabase(x, m))
  {
    hide Ready, PolicyOk, ImageDatabase, Column, ImageCell;
    ColumnImage(x, m, r);
    var values, images := Column(x.db, r), Column(ImageDatabase(x, m), r);
    forall n | 0 <= n < |images| ensures images[n] != v {
      ReplacedIsOther(x, m, i, r, v, values[n]);
    }
    assert v in multiset(values) && v !in multiset(images);
  }

  /** No validated relationship breaks; the check passes exactly when every relationship is validated. */
  lemma ForeignKeysRestored(x: Context, m: Mappings, schemas: Schemas)
    requires Ready(x, m) && PolicyOk(x) && SchemaRestored(x, schemas)
    ensures AllWellFormed(schemas.targetForeignKeys)
    ensures ForeignKeysIntact(schemas, ImageDatabase(x, m)) <==> schemas.targetNotValid == []
    ensures var validated := Validated(schemas.sourceForeignKeys, schemas.sourceNotValid);
      AllWellFormed(validated) && forall i :: 0 <= i < |validated| ==> Orphans(ImageDatabase(x, m), validated[i]) == 0
  {
    SchemaForeignKeys(x, schemas);
    hide Ready, PolicyOk, ImageDatabase, Orphans, WellFormed, OnePlace, KeysHold, Validated;
    forall i | 0 <= i < |schemas.sourceForeignKeys| && schemas.sourceForeignKeys[i] !in schemas.sourceNotValid
      ensures Orphans(ImageDatabase(x, m), schemas.sourceForeignKeys[i]) == 0
    {
      assert ForeignKeyKept(x, schemas.sourceNotValid, schemas.sourceForeignKeys[i]);
      RelationshipSurvives(x, m, schemas.sourceForeignKeys[i]);
    }
    var validated := Validated(schemas.sourceForeignKeys, schemas.sourceNotValid);
    forall i | 0 <= i < |validated| ensures Orphans(ImageDatabase(x, m), validated[i]) == 0 {
      ValidatedMembers(schemas.sourceForeignKeys, schemas.sourceNotValid, i);
      var j :| 0 <= j < |schemas.sourceForeignKeys| && schemas.sourceForeignKeys[j] == validated[i];
    }
  }

  lemma AllKeysKept(x: Context, m: Mappings, schemas: Schemas)
    requires Ready(x, m) && PolicyOk(x) && SchemaRestored(x, schemas) && FormsSeparate(x) && SpellingsUnique(x)
    ensures KeysHold(ImageDatabase(x, m), schemas.targetKeys)
  {
    hide Ready, PolicyOk, ImageDatabase, FormsSeparate, SpellingsUnique, KeyHolds, ForeignKeyKept;
    forall i | 0 <= i < |schemas.targetKeys| ensures KeyHolds(ImageDatabase(x, m), schemas.targetKeys[i]) {
      assert KeyHolds(x.db, schemas.sourceKeys[i]);
      SpellingsKeepKeys(x, m, schemas.sourceKeys[i]);
    }
  }

  lemma KeysRestored(x: Context, m: Mappings, schemas: Schemas, source: ScanConnection, target: ScanConnection,
                     order: Ordering)
    requires Ready(x, m) && PolicyOk(x) && SchemaRestored(x, schemas) && FormsSeparate(x) && SpellingsUnique(x)
    requires Orders(order) && ReadsFrom(source, x.db, order) && ReadsFrom(target, ImageDatabase(x, m), order)
    ensures KeysIntact(x.groups, schemas, Sides(source, target, x.db, ImageDatabase(x, m)))
  {
    AllKeysKept(x, m, schemas);
    hide Ready, PolicyOk, ImageDatabase, FormsSeparate, SpellingsUnique, KeysHold, ReadsFrom, Orders, Flatten,
      RowKeys, KeyIsConfigured, ForeignKeyKept;
    forall i | 0 <= i < |schemas.sourceKeys| && KeyCompared(x.groups, schemas.targetKeys, schemas.sourceKeys[i])
      ensures Flatten(source.keys(schemas.sourceKeys[i])) == Flatten(target.keys(schemas.sourceKeys[i]))
    {
      var key := schemas.sourceKeys[i];
      ComparedKeySame(x, m, key, source, target, order);
    }
  }

  lemma ComparedKeySame(x: Context, m: Mappings, key: KeyConstraint, source: ScanConnection, target: ScanConnection,
                        order: Ordering)
    requires !KeyIsConfigured(x.groups, key)
    requires Orders(order) && ReadsFrom(source, x.db, order) && ReadsFrom(target, ImageDatabase(x, m), order)
    ensures Flatten(source.keys(key)) == Flatten(target.keys(key))
  {
    hide ImageDatabase, ReadsFrom, Flatten, RowKeys, KeyIsConfigured, Antisymmetric, KeysOrdered;
    var r := ColumnRef("", "", "");
    ReadsAt(source, x.db, order, key, r);
    ReadsAt(target, ImageDatabase(x, m), order, key, r);
    assert Antisymmetric(order(key));
    UnchangedKeysAgree(x, m, key, order(key), Flatten(source.keys(key)), Flatten(target.keys(key)));
  }

  lemma CleanGroups(x: Context, m: Mappings, schemas: Schemas, target: ScanConnection)
    requires GroupsPass(x, m, schemas, target)
    ensures GroupsClean(x.crypto, m, x.groups, schemas.targetColumns, target)
  {
    hide StatsMean, StatsClean, SortRefs, KeysIn, GroupClean;
    forall i | 0 <= i < |x.groups| ensures GroupClean(x.crypto, m, x.groups[i], schemas.targetColumns, target) {
      var stats := StatsExist(x.crypto, m, x.groups[i], schemas.targetColumns, target);
      StatsAreClean(x.crypto, m, x.groups[i], schemas.targetColumns, target, stats);
    }
  }

  lemma StatsExist(c: Crypto, m: Mappings, e: GroupEntry, targetColumns: seq<ColumnInfo>, target: ScanConnection)
    returns (stats: GroupHmacStats)
    ensures StatsMean(c, m, e.id, e.group.settings, SortRefs(e.group.columns), targetColumns, target, stats)
  {
    hide ValueKeys, KeysIn, InvalidCount, MissingColumns, GroupValues, SortRefs;
    var refs := SortRefs(e.group.columns);
    var values := GroupValues(refs, targetColumns, target);
    stats := GroupHmacStats(e.id, |ValueKeys(c, e.id, e.group.settings, values)|,
                            |ValueKeys(c, e.id, e.group.settings, values) * KeysIn(m, e.id)|,
                            InvalidCount(c, e.id, e.group.settings, values), MissingColumns(refs, targetColumns));
  }

  /** On an honest restore all required checks pass exactly when normalisation merges no two values of a
      configured column, every foreign key is validated, the source schema is the one approved, and the
      views count as before. */
  lemma HonestVerdict(x: Context, m: Mappings, schemas: Schemas, source: ScanConnection, target: ScanConnection,
                      order: Ordering, views: Views, sameSource: bool, v: Verdict)
    requires Ready(x, m) && PolicyOk(x) && FormsSeparate(x) && SchemaRestored(x, schemas)
    requires Restored(x, m, schemas, source, target, order) && AllWellFormed(schemas.targetForeignKeys)
    requires VerdictMeans(v, x.crypto, m, x.groups, ConfiguredColumns(x.groups), schemas,
                          Sides(source, target, x.db, ImageDatabase(x, m)), views, sameSource)
    ensures Passed(v) <==>
      && SpellingsUnique(x) && schemas.targetNotValid == [] && sameSource
      && ViewCountsKept(views, TablesOf(schemas.sourceColumns), x.db, ImageDatabase(x, m))
  {
    hide Ready, PolicyOk, FormsSeparate, SpellingsUnique, SchemaRestored, ImageDatabase, ConfiguredColumns,
      StatisticsAgree, NoneCollapsed, ForeignKeysIntact, KeysIntact, RowsIntact, ViewCountsKept, GroupsClean,
      GroupsPass, TotalTally, Clean, ReadsFrom, Orders, PrimaryKeysHold, SchemasComplete, WellFormed, TablesOf;
    StatisticsExactly(x, m, schemas);
    RowsRestored(x, m, schemas, views);
    ForeignKeysRestored(x, m, schemas);
    if SpellingsUnique(x) {
      AgreeingColumnsSpread(ConfiguredColumns(x.groups), schemas, x.db, ImageDatabase(x, m));
      KeysRestored(x, m, schemas, source, target, order);
      RestoredPasses(x, m, schemas, source, target, order);
      CleanGroups(x, m, schemas, target);
      SameColumns(x, schemas);
    }
  }

  lemma SameColumns(x: Context, schemas: Schemas)
    requires SchemaRestored(x, schemas)
    ensures schemas.targetColumns == schemas.sourceColumns
    ensures schemas.targetKeys == schemas.sourceKeys && schemas.targetForeignKeys == schemas.sourceForeignKeys
    ensures schemas.targetNotValid == schemas.sourceNotValid
    ensures PrimaryKeysHold(x.db, schemas.sourceKeys)
  {
    KeysHoldPrimary(x.db, schemas.sourceKeys);
  }

  /** Named cursors on a database: faithful batches of what the statements read. */
  ghost predicate OpensFaithfully(conn: ScanConnection, db: Database, order: Ordering) {
    ReadsFrom(conn, db, order) && CursorsFaithful(conn)
  }

  /** The registry file belongs to this run, or is new. */
  predicate RegistryAccepts(meta: seq<Metadata>, metadata: Metadata) {
    MetadataComplete(metadata) && (meta == [] || meta == [metadata])
  }

  /** Views are no tables, and the policy configures columns of tables only. */
  ghost predicate TablesConfigured(x: Context, views: Views) {
    && views.Keys !! x.db.Keys
    && forall i, r :: 0 <= i < |x.groups| && r in x.groups[i].group.columns ==> TableOf(r) in x.db
  }

  /** The verify node after an honest restore: open the registry file, then run all required checks. */
  method VerifyRestored(x: Context, columns: seq<ConfiguredColumn>, schemas: Schemas, s: Sides, views: Views,
                        fingerprint: string, expected: string, metadata: Metadata, registry: MappingRegistry,
                        fetchSize: nat, ghost order: Ordering)
    returns (passed: bool)
    requires PolicyOk(x) && columns == ConfiguredColumns(x.groups)
    requires Ready(x, registry.mappings) && FormsSeparate(x)
    requires SchemasComplete(x.groups, schemas) && SchemaRestored(x, schemas) && Orders(order)
    requires s.from == x.db && s.to == ImageDatabase(x, registry.mappings)
    requires OpensFaithfully(s.source, s.from, order) && OpensFaithfully(s.target, s.to, order)
    modifies registry
    ensures registry.mappings == old(registry.mappings)
    ensures passed <==>
      && RegistryAccepts(old(registry.meta), metadata)
      && SpellingsUnique(x) && schemas.targetNotValid == [] && fingerprint == expected
      && ViewCountsKept(views, TablesOf(schemas.sourceColumns), s.from, s.to)
  {
    hide Ready, PolicyOk, FormsSeparate, SpellingsUnique, ConfiguredColumns, SchemasComplete, SchemaRestored, Orders,
      ReadsFrom, CursorsFaithful, ImageDatabase, AllWellFormed, VerdictMeans, PrimaryKeysHold, ViewCountsKept,
      TablesOf, MetadataComplete, Passed;
    SchemaForeignKeys(x, schemas);
    SameColumns(x, schemas);
    var initialized := registry.Initialize(metadata);
    if initialized.Failure? { return false; }
    var v := VerifyConnections(x, columns, schemas, s, views, fingerprint, expected, registry, fetchSize);
    HonestVerdict(x, registry.mappings, schemas, s.source, s.target, order, views, fingerprint == expected, v);
    passed := Passed(v);
  }

  /** The restore node after generation: write the mapper configuration, then dump and restore. */
  method RestoreImage(p: Policy, x: Context, tables: seq<TableRef>, schemas: Schemas, registry: MappingRegistry)
    returns (restored: bool, target: Database)
    requires ValidPolicy(p) && p.groups == x.groups
    requires Distinct(tables) && Elements(tables) == x.db.Keys
    requires Ready(x, registry.mappings) && RowsComplete(x) && SchemaRestored(x, schemas)
    modifies registry`mappings
    ensures registry.mappings == old(registry.mappings)
    ensures target == ImageDatabase(x, registry.mappings)
    ensures restored <==> KeysHold(target, schemas.sourceKeys)
  {
    hide ValidPolicy, Ready, PolicyOk, RowsComplete, SchemaRestored, ImageDatabase, ConfigAccepted, Configures,
      ConstraintsHold, AllWellFormed, KeysHold, Validated, AllRestored;
    ValidPolicyContext(p, x);
    SchemaForeignKeys(x, schemas);
    var config := BuildMapperConfig(p);
    var validated := Validated(schemas.sourceForeignKeys, schemas.sourceNotValid);
    restored, target := Restore.DumpAndRestore(x, config, tables, schemas.sourceKeys, validated, registry);
    OnlyKeysFail(x, registry.mappings, schemas);
  }

  /** Everything after generation: write the mapper configuration, dump and restore, verify. With a ready
      registry, a source whose validated constraints hold, and normal forms with different digests, the run
      finishes if and only if no two values of a configured column share a normal form, and, besides the
      values, no foreign key is declared NOT VALID, the source schema is the one approved, the registry file
      belongs to the run, and the views count as before. */
  method FinishRun(p: Policy, x: Context, tables: seq<TableRef>, columns: seq<ConfiguredColumn>, schemas: Schemas,
                   views: Views, fingerprint: string, expected: string, metadata: Metadata,
                   open: Database -> ScanConnection, registry: MappingRegistry, fetchSize: nat, ghost order: Ordering)
    returns (restored: bool, passed: bool)
    requires ValidPolicy(p) && p.groups == x.groups && columns == ConfiguredColumns(x.groups)
    requires Distinct(tables) && Elements(tables) == x.db.Keys && TablesConfigured(x, views)
    requires Ready(x, registry.mappings) && RowsComplete(x) && FormsSeparate(x)
    requires SchemasComplete(x.groups, schemas) && SchemaRestored(x, schemas)
    requires Orders(order) && OpensFaithfully(open(x.db), x.db, order)
    requires OpensFaithfully(open(ImageDatabase(x, registry.mappings)), ImageDatabase(x, registry.mappings), order)
    modifies registry
    ensures restored && passed <==>
      && SpellingsUnique(x)
      && schemas.sourceNotValid == [] && fingerprint == expected && RegistryAccepts(old(registry.meta), metadata)
      && ViewCountsKept(views, TablesOf(schemas.sourceColumns), x.db, ImageDatabase(x, registry.mappings))
    ensures restored <==> KeysHold(ImageDatabase(x, registry.mappings), schemas.sourceKeys)
    ensures registry.mappings == old(registry.mappings)
  {
    hide ValidPolicy, Ready, PolicyOk, RowsComplete, FormsSeparate, SpellingsUnique, ConfiguredColumns,
      SchemasComplete, SchemaRestored, Orders, OpensFaithfully, ImageDatabase, KeysHold, ViewCountsKept, TablesOf,
      TablesConfigured, RegistryAccepts;
    ValidPolicyContext(p, x);
    SameColumns(x, schemas);
    if SpellingsUnique(x) { AllKeysKept(x, registry.mappings, schemas); }
    var target;
    restored, target := RestoreImage(p, x, tables, schemas, registry);
    if !restored { return false, false; }
    passed := VerifyRestored(x, columns, schemas, Sides(open(x.db), open(target), x.db, target), views, fingerprint,
                             expected, metadata, registry, fetchSize, order);
  }

  /** Validated foreign keys survive every honest restore, so only a declared key can stop it. */
  lemma OnlyKeysFail(x: Context, m: Mappings, schemas: Schemas)
    requires Ready(x, m) && PolicyOk(x) && SchemaRestored(x, schemas)
    requires AllWellFormed(Validated(schemas.sourceForeignKeys, schemas.sourceNotValid))
    ensures ConstraintsHold(ImageDatabase(x, m), schemas.sourceKeys,
                            Validated(schemas.sourceForeignKeys, schemas.sourceNotValid))
      <==> KeysHold(ImageDatabase(x, m), schemas.sourceKeys)
  {
    hide Ready, PolicyOk, SchemaRestored, ImageDatabase, KeysHold, Orphans, WellFormed, Validated, ForeignKeysIntact;
    ForeignKeysRestored(x, m, schemas);
  }

  lemma RestoredPasses(x: Context, m: Mappings, schemas: Schemas, source: ScanConnection, target: ScanConnection,
                       order: Ordering)
    requires Ready(x, m) && PolicyOk(x) && Restored(x, m, schemas, source, target, order)
    ensures Clean(TotalTally(x.crypto, m, x.groups, schemas, ConfiguredColumns(x.groups), source, target,
                             |ConfiguredColumns(x.groups)|))
    ensures GroupsPass(x, m, schemas, target)
  {
    EveryGroupPasses(x, m, schemas, source, target, order);
    hide Ready, PolicyOk, TotalTally, Clean, ConfiguredColumns, GroupsPass, ReadsFrom, PrimaryKeysHold, Orders,
      SchemasComplete, ImageDatabase;
    HonestMappingsPass(x, m, schemas, source, target, order);
  }

  lemma ConfiguredIds(x: Context)
    requires PolicyOk(x)
    ensures forall i :: 0 <= i < |ConfiguredColumns(x.groups)| ==> ConfiguredColumns(x.groups)[i].id != ""
  {
    hide ConfiguredColumns;
    var columns := ConfiguredColumns(x.groups);
    forall n | 0 <= n < |columns| ensures columns[n].id != "" {
      assert columns[n] in columns;
      ConfiguredColumnsExact(x.groups, columns[n]);
      var i: nat :| Lists(x.groups, i, columns[n]);
    }
  }

  lemma SortedIds(x: Context)
    requires PolicyOk(x)
    ensures forall i :: 0 <= i < |SortEntries(x.groups)| ==> SortEntries(x.groups)[i].id != ""
  {
    hide SortEntries;
    SortedEntries(x.groups);
    forall i | 0 <= i < |SortEntries(x.groups)| ensures SortEntries(x.groups)[i].id != "" {
      assert SortEntries(x.groups)[i] in x.groups;
    }
  }
}
