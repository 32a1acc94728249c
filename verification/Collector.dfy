/** Streaming key collection: every configured column becomes opaque registry keys. */
module Collector {
  import opened Base
  import opened Policy
  import opened RegistryModel
  import opened Registry
  import opened Database
  import opened RunModel
  import opened Cursor

  datatype CollectFault = InvalidValue(column: ColumnRef)

  datatype GroupStats = GroupStats(groupId: string, configuredColumns: nat, distinctValuesSeen: nat, insertedKeys: nat)

  /** The source connection, as the batches its cursor hands out for each column. */
  datatype Connection = Connection(distinct: ColumnRef -> seq<seq<Value>>)

  /** The cursors read the database `db`. */
  ghost predicate Reads(conn: Connection, db: Database, columns: seq<ColumnRef>) {
    forall i :: 0 <= i < |columns| ==> DistinctScan(db, columns[i], conn.distinct(columns[i]))
  }

  /** The batch's keys in row order; None at the first value without a normal form. */
  method BatchKeys(c: Crypto, id: string, s: Settings, rows: seq<Value>) returns (keys: Option<seq<string>>)
    ensures keys.Some? <==> forall i :: 0 <= i < |rows| ==> KeyOf(c, id, s, rows[i]).Some?
    ensures keys.Some? ==> |keys.value| == |rows| && Elements(keys.value) == ValueKeys(c, id, s, rows)
    ensures keys.Some? ==> forall i :: 0 <= i < |rows| ==> KeyOf(c, id, s, rows[i]) == Some(keys.value[i])
  {
    var collected: seq<string> := [];
    for i := 0 to |rows|
      invariant |collected| == i
      invariant forall j :: 0 <= j < i ==> KeyOf(c, id, s, rows[j]) == Some(collected[j])
    {
      var key := KeyOf(c, id, s, rows[i]);
      if key.None? { return None; }
      collected := collected + [key.value];
    }
    forall h ensures h in collected <==> h in ValueKeys(c, id, s, rows) {
      if h in collected {
        var j :| 0 <= j < |rows| && collected[j] == h;
        assert rows[j] in rows;
      }
      if v :| v in rows && KeyOf(c, id, s, v) == Some(h) {
        var j :| 0 <= j < |rows| && rows[j] == v;
        assert collected[j] == h;
      }
    }
    return Some(collected);
  }

  // ----- the first `n` batches of a column -----

  ghost function ReadKeys(c: Crypto, id: string, s: Settings, batches: seq<seq<Value>>, n: nat): set<string>
    requires n <= |batches|
  {
    ValueKeys(c, id, s, Flatten(batches[..n]))
  }

  ghost predicate AllKeyed(c: Crypto, id: string, s: Settings, batches: seq<seq<Value>>, n: nat)
    requires n <= |batches|
  {
    forall v :: v in Flatten(batches[..n]) ==> KeyOf(c, id, s, v).Some?
  }

  lemma FlattenPrefix<T>(batches: seq<seq<T>>, n: nat)
    requires n < |batches|
    ensures Flatten(batches[..n + 1]) == Flatten(batches[..n]) + batches[n]
  {
    assert batches[..n + 1] == batches[..n] + [batches[n]];
    FlattenAppend(batches[..n], [batches[n]]);
    assert Flatten([batches[n]]) == batches[n] + [];
  }

  lemma BatchInFlatten<T>(batches: seq<seq<T>>, n: nat)
    requires n < |batches|
    ensures forall v :: v in Flatten(batches[..n]) || v in batches[n] ==> v in Flatten(batches)
  {
    FlattenPrefix(batches, n);
    assert batches == batches[..n + 1] + batches[n + 1..];
    FlattenAppend(batches[..n + 1], batches[n + 1..]);
  }

  lemma ReadNothing(c: Crypto, id: string, s: Settings, batches: seq<seq<Value>>)
    ensures ReadKeys(c, id, s, batches, 0) == {} && AllKeyed(c, id, s, batches, 0) && |Flatten(batches[..0])| == 0
  {
  }

  lemma ScanBatches(db: Database, r: ColumnRef, batches: seq<seq<Value>>)
    requires DistinctScan(db, r, batches)
    ensures NonEmptyBatches(batches)
  {
  }

  /** One more batch whose values all have keys. */
  lemma ReadOne(c: Crypto, id: string, s: Settings, batches: seq<seq<Value>>, n: nat)
    requires n < |batches|
    ensures |Flatten(batches[..n + 1])| == |Flatten(batches[..n])| + |batches[n]|
    ensures ReadKeys(c, id, s, batches, n + 1) == ReadKeys(c, id, s, batches, n) + ValueKeys(c, id, s, batches[n])
    ensures AllKeyed(c, id, s, batches, n) && (forall v :: v in batches[n] ==> KeyOf(c, id, s, v).Some?) ==>
      AllKeyed(c, id, s, batches, n + 1)
  {
    FlattenPrefix(batches, n);
    ValueKeysAppend(c, id, s, Flatten(batches[..n]), batches[n]);
  }

  lemma ReadRefused(c: Crypto, db: Database, id: string, s: Settings, r: ColumnRef, batches: seq<seq<Value>>, n: nat)
    requires DistinctScan(db, r, batches) && n < |batches|
    requires exists i :: 0 <= i < |batches[n]| && KeyOf(c, id, s, batches[n][i]).None?
    ensures !Normalizable(c, s, Column(db, r))
    ensures ReadKeys(c, id, s, batches, n) <= ValueKeys(c, id, s, Column(db, r))
  {
    BatchInFlatten(batches, n);
    var i :| 0 <= i < |batches[n]| && KeyOf(c, id, s, batches[n][i]).None?;
    assert batches[n][i] in Flatten(batches);
    ScanKeys(c, db, id, s, r, batches);
  }

  lemma BatchKeysValid(c: Crypto, id: string, s: Settings, rows: seq<Value>, keys: seq<string>)
    requires id != "" && |keys| == |rows|
    requires forall i :: 0 <= i < |rows| ==> KeyOf(c, id, s, rows[i]) == Some(keys[i])
    ensures forall h :: h in keys ==> ValidKey(id, h)
  {
  }

  lemma CommitAllowed(c: Crypto, groups: seq<GroupEntry>, db: Database, t: Tables, id: string, g: Group, r: ColumnRef,
                      batches: seq<seq<Value>>, n: nat, keys: seq<string>)
    requires IsGroup(groups, id, g) && r in g.columns && DistinctScan(db, r, batches) && n < |batches|
    requires Elements(keys) == ValueKeys(c, id, g.settings, batches[n])
    ensures CollectCommit(c, groups, db, t, Inserted(id, keys))
  {
    BatchInFlatten(batches, n);
    ScanKeys(c, db, id, g.settings, r, batches);
    forall h | h in keys ensures h in SourceKeys(c, db, id, g) {
      assert h in Elements(keys);
      assert h in ValueKeys(c, id, g.settings, Column(db, r));
    }
  }

  /** Reading stopped at batch `n`: the keys of the batches before it are stored, and it holds a value
      without a normal form. */
  ghost predicate StoppedAt(c: Crypto, id: string, s: Settings, batches: seq<seq<Value>>, n: nat, stored: set<string>) {
    && n < |batches| && AllKeyed(c, id, s, batches, n) && stored == ReadKeys(c, id, s, batches, n)
    && exists i :: 0 <= i < |batches[n]| && KeyOf(c, id, s, batches[n][i]).None?
  }

  lemma ReadAll(c: Crypto, db: Database, id: string, s: Settings, r: ColumnRef, batches: seq<seq<Value>>)
    requires DistinctScan(db, r, batches) && AllKeyed(c, id, s, batches, |batches|)
    ensures ReadKeys(c, id, s, batches, |batches|) == ValueKeys(c, id, s, Column(db, r))
    ensures Normalizable(c, s, Column(db, r))
    ensures |ValueKeys(c, id, s, Column(db, r))| <= |Flatten(batches)|
  {
    assert batches[..|batches|] == batches;
    ScanKeys(c, db, id, s, r, batches);
    ValueKeysCount(c, id, s, Flatten(batches));
  }

  // ----- a group and a policy -----

  /** The values handed out for the listed columns. */
  ghost function RowsSeen(conn: Connection, columns: seq<ColumnRef>): nat {
    if columns == [] then 0
    else RowsSeen(conn, columns[..|columns| - 1]) + |Flatten(conn.distinct(columns[|columns| - 1]))|
  }

  /** The tables after the source keys of every group, in policy order, have been inserted. */
  ghost function InsertGroups(c: Crypto, db: Database, m: Mappings, groups: seq<GroupEntry>): Mappings {
    if groups == [] then m
    else
      var last := groups[|groups| - 1];
      InsertAll(InsertGroups(c, db, m, groups[..|groups| - 1]), last.id, SourceKeys(c, db, last.id, last.group))
  }

  /** Collection leaves every earlier row, pending or assigned, as it was. */
  lemma {:induction false} InsertGroupsKeeps(c: Crypto, db: Database, m: Mappings, groups: seq<GroupEntry>)
    ensures forall k :: k in m ==> k in InsertGroups(c, db, m, groups) && InsertGroups(c, db, m, groups)[k] == m[k]
  {
    if groups != [] {
      hide InsertAll, KeysIn, SourceKeys;
      var n := |groups| - 1;
      InsertGroupsKeeps(c, db, m, groups[..n]);
      InsertEffect(InsertGroups(c, db, m, groups[..n]), groups[n].id, SourceKeys(c, db, groups[n].id, groups[n].group));
    }
  }

  ghost predicate NoGroup(groups: seq<GroupEntry>, id: string) {
    forall i :: 0 <= i < |groups| ==> groups[i].id != id
  }

  lemma {:induction false} InsertGroupsOther(c: Crypto, db: Database, m: Mappings, groups: seq<GroupEntry>, id: string)
    requires NoGroup(groups, id)
    ensures KeysIn(InsertGroups(c, db, m, groups), id) == KeysIn(m, id)
  {
    if groups != [] {
      hide InsertAll, KeysIn, SourceKeys;
      var n := |groups| - 1;
      assert forall i :: 0 <= i < n ==> groups[..n][i] == groups[i];
      InsertGroupsOther(c, db, m, groups[..n], id);
      InsertEffect(InsertGroups(c, db, m, groups[..n]), groups[n].id, SourceKeys(c, db, groups[n].id, groups[n].group));
    }
  }

  /** After collection a group holds its old keys and its source keys, no more and no less. */
  lemma {:induction false} InsertGroupsKeys(c: Crypto, db: Database, m: Mappings, groups: seq<GroupEntry>, i: nat)
    requires DistinctIds(groups) && i < |groups|
    ensures KeysIn(InsertGroups(c, db, m, groups), groups[i].id)
         == KeysIn(m, groups[i].id) + SourceKeys(c, db, groups[i].id, groups[i].group)
  {
    hide InsertAll, KeysIn, SourceKeys;
    var n := |groups| - 1;
    InsertEffect(InsertGroups(c, db, m, groups[..n]), groups[n].id, SourceKeys(c, db, groups[n].id, groups[n].group));
    if i < n {
      assert groups[..n][i] == groups[i];
      InsertGroupsKeys(c, db, m, groups[..n], i);
    } else {
      InsertGroupsOther(c, db, m, groups[..n], groups[n].id);
    }
  }

  /** Keys that are all present already are not inserted again. */
  lemma InsertPresent(m: Mappings, group: string, hmacs: set<string>)
    requires hmacs <= KeysIn(m, group)
    ensures InsertAll(m, group, hmacs) == m
  {
    forall h | h in hmacs ensures Key(group, h) in m { KeysInMeans(m, group, h); }
  }

  /** A second collection over tables that already hold the source keys changes nothing. */
  lemma {:induction false} CollectAgain(c: Crypto, db: Database, m: Mappings, groups: seq<GroupEntry>)
    requires forall i :: 0 <= i < |groups| ==>
      SourceKeys(c, db, groups[i].id, groups[i].group) <= KeysIn(m, groups[i].id)
    ensures InsertGroups(c, db, m, groups) == m
  {
    if groups != [] {
      hide InsertAll, KeysIn, SourceKeys;
      var n := |groups| - 1;
      assert forall i :: 0 <= i < n ==> groups[..n][i] == groups[i];
      CollectAgain(c, db, m, groups[..n]);
      InsertPresent(m, groups[n].id, SourceKeys(c, db, groups[n].id, groups[n].group));
    }
  }

  lemma WholeGroup(c: Crypto, db: Database, id: string, g: Group)
    ensures g.columns[..|g.columns|] == g.columns
    ensures SourceKeys(c, db, id, g) == ColumnKeys(c, db, id, g.settings, g.columns)
    ensures GroupNormalizable(c, db, g) <==>
      forall j :: 0 <= j < |g.columns| ==> Normalizable(c, g.settings, Column(db, g.columns[j]))
  {
    assert g.columns[..|g.columns|] == g.columns;
  }

  lemma NoColumns(c: Crypto, db: Database, id: string, s: Settings, columns: seq<ColumnRef>, conn: Connection)
    ensures ColumnKeys(c, db, id, s, columns[..0]) == {} && RowsSeen(conn, columns[..0]) == 0
  {
  }

  /** Reading one more column of a group. */
  lemma ColumnStep(c: Crypto, db: Database, id: string, g: Group, i: nat, conn: Connection)
    requires i < |g.columns| && Reads(conn, db, g.columns)
    ensures g.columns[i] in g.columns && DistinctScan(db, g.columns[i], conn.distinct(g.columns[i]))
    ensures ColumnKeys(c, db, id, g.settings, g.columns[..i + 1])
         == ColumnKeys(c, db, id, g.settings, g.columns[..i]) + ValueKeys(c, id, g.settings, Column(db, g.columns[i]))
    ensures ColumnKeys(c, db, id, g.settings, g.columns[..i + 1]) <= SourceKeys(c, db, id, g)
    ensures RowsSeen(conn, g.columns[..i + 1]) ==
      RowsSeen(conn, g.columns[..i]) + |Flatten(conn.distinct(g.columns[i]))|
  {
    hide Flatten, Column, ValueKeys, KeyOf;
    ColumnKeysStep(c, db, id, g.settings, g.columns, i);
    assert g.columns[..i + 1][..i] == g.columns[..i];
    forall h | h in ColumnKeys(c, db, id, g.settings, g.columns[..i + 1]) ensures h in SourceKeys(c, db, id, g) {
      var r :| r in g.columns[..i + 1] && h in ValueKeys(c, id, g.settings, Column(db, r));
      assert r in g.columns;
    }
  }

  ghost predicate StatsExact(conn: Connection, e: GroupEntry, before: Mappings, after: Mappings, s: GroupStats) {
    && s.groupId == e.id && s.configuredColumns == |e.group.columns|
    && s.distinctValuesSeen == RowsSeen(conn, e.group.columns)
    && s.insertedKeys == |KeysIn(after, e.id)| - |KeysIn(before, e.id)|
    && s.insertedKeys <= s.distinctValuesSeen
  }

  lemma StatsAre(conn: Connection, id: string, g: Group, before: Mappings, after: Mappings, seen: nat, inserted: nat)
    requires seen == RowsSeen(conn, g.columns) && inserted <= seen
    requires inserted == |KeysIn(after, id)| - |KeysIn(before, id)|
    ensures StatsExact(conn, GroupEntry(id, g), before, after, GroupStats(id, |g.columns|, seen, inserted))
  {
  }

  class MappingCollector {
    const registry: MappingRegistry
    const crypto: Crypto
    const connection: Connection
    const fetchSize: nat
    ghost const groups: seq<GroupEntry>
    ghost const db: Database

    constructor (registry: MappingRegistry, crypto: Crypto, connection: Connection, fetchSize: nat,
                 ghost groups: seq<GroupEntry>, ghost db: Database)
      ensures this.registry == registry && this.crypto == crypto && this.connection == connection
      ensures this.fetchSize == fetchSize && this.groups == groups && this.db == db
    {
      this.registry, this.crypto, this.connection, this.fetchSize := registry, crypto, connection, fetchSize;
      this.groups, this.db := groups, db;
    }

    /** One column: one insert transaction per fetched batch. On a bad value the batches before it
        stay stored. */
    method CollectColumn(id: string, g: Group, r: ColumnRef)
      returns (outcome: Result<(nat, nat), CollectFault>, ghost stored: set<string>, ghost made: seq<Commit>)
      requires id != "" && IsGroup(groups, id, g) && r in g.columns
      requires DistinctScan(db, r, connection.distinct(r))
      modifies registry
      ensures outcome.Success? <==> Normalizable(crypto, g.settings, Column(db, r))
      ensures outcome.Success? ==>
        && stored == ValueKeys(crypto, id, g.settings, Column(db, r))
        && outcome.value.0 == |Flatten(connection.distinct(r))|
        && outcome.value.1 == |registry.mappings| - |old(registry.mappings)|
        && outcome.value.1 <= outcome.value.0
      ensures outcome.Failure? ==>
        exists n :: StoppedAt(crypto, id, g.settings, connection.distinct(r), n, stored)
      ensures stored <= ValueKeys(crypto, id, g.settings, Column(db, r))
      ensures registry.mappings == InsertAll(old(registry.mappings), id, stored)
      ensures outcome.Failure? ==> outcome.error == InvalidValue(r)
      ensures registry.commits == old(registry.commits) + made
      ensures CollectTraced(crypto, groups, db, old(registry.Contents()), made, registry.Contents())
    {
      hide CollectTraced, CollectCommit, InsertAll, ValueKeys, Flatten, KeyOf, DistinctScan, Column, Normalizable,
        IsGroup;
      ghost var start, m := registry.Contents(), registry.mappings;
      ghost var batches := connection.distinct(r);
      var cursor := new ServerCursor<Value>(connection.distinct(r));
      var seen: nat, inserted: nat := 0, 0;
      ghost var n := 0;
      stored, made := {}, [];
      InsertNothing(m, id);
      CollectTracedStart(crypto, groups, db, start);
      ReadNothing(crypto, id, g.settings, batches);
      while true
        invariant n <= |batches| && cursor.batches == batches[n..]
        invariant AllKeyed(crypto, id, g.settings, batches, n)
        invariant stored == ReadKeys(crypto, id, g.settings, batches, n)
        invariant registry.mappings == InsertAll(m, id, stored)
        invariant seen == |Flatten(batches[..n])| && inserted == |registry.mappings| - |m|
        invariant registry.commits == old(registry.commits) + made
        invariant CollectTraced(crypto, groups, db, start, made, registry.Contents())
        decreases |cursor.batches|
      {
        ScanBatches(db, r, batches);
        var rows := cursor.FetchMany(fetchSize);
        if rows == [] { break; }
        ReadOne(crypto, id, g.settings, batches, n);
        var keys := BatchKeys(crypto, id, g.settings, rows);
        if keys.None? {
          ReadRefused(crypto, db, id, g.settings, r, batches, n);
          assert StoppedAt(crypto, id, g.settings, batches, n, stored);
          return Failure(InvalidValue(r)), stored, made;
        }
        ghost var mid := registry.Contents();
        BatchKeysValid(crypto, id, g.settings, rows, keys.value);
        var added := registry.InsertSourceKeys(id, keys.value);
        InsertTwice(m, id, stored, Elements(keys.value));
        CommitAllowed(crypto, groups, db, mid, id, g, r, batches, n, keys.value);
        CollectTracedExtends(crypto, groups, db, start, made, mid, Inserted(id, keys.value));
        seen, inserted := seen + |rows|, inserted + added.value;
        stored := stored + Elements(keys.value);
        made := made + [Inserted(id, keys.value)];
        n := n + 1;
      }
      assert batches[..n] == batches;
      ReadAll(crypto, db, id, g.settings, r, batches);
      GroupGrowth(m, id, stored);
      return Success((seen, inserted)), stored, made;
    }

    /** All columns of one group. */
    method CollectGroup(id: string, g: Group)
      returns (outcome: Result<GroupStats, CollectFault>, ghost stored: set<string>, ghost made: seq<Commit>)
      requires id != "" && IsGroup(groups, id, g) && Reads(connection, db, g.columns)
      modifies registry
      ensures outcome.Success? <==> GroupNormalizable(crypto, db, g)
      ensures outcome.Success? ==>
        && stored == SourceKeys(crypto, db, id, g)
        && StatsExact(connection, GroupEntry(id, g), old(registry.mappings), registry.mappings, outcome.value)
      ensures stored <= SourceKeys(crypto, db, id, g)
      ensures registry.mappings == InsertAll(old(registry.mappings), id, stored)
      ensures registry.commits == old(registry.commits) + made
      ensures CollectTraced(crypto, groups, db, old(registry.Contents()), made, registry.Contents())
    {
      hide CollectTraced, InsertAll, ValueKeys, Flatten, DistinctScan, Column, Normalizable, KeysIn, IsGroup,
        ColumnKeys, SourceKeys, CollectCommit, StatsExact, Reads, RowsSeen, Replay;
      ghost var start, m := registry.Contents(), registry.mappings;
      var seen: nat, inserted: nat := 0, 0;
      stored, made := {}, [];
      InsertNothing(m, id);
      NoColumns(crypto, db, id, g.settings, g.columns, connection);
      CollectTracedStart(crypto, groups, db, start);
      for i := 0 to |g.columns|
        invariant forall j :: 0 <= j < i ==> Normalizable(crypto, g.settings, Column(db, g.columns[j]))
        invariant stored == ColumnKeys(crypto, db, id, g.settings, g.columns[..i])
        invariant registry.mappings == InsertAll(m, id, stored)
        invariant seen == RowsSeen(connection, g.columns[..i])
        invariant inserted == |registry.mappings| - |m| && inserted <= seen
        invariant registry.commits == old(registry.commits) + made
        invariant CollectTraced(crypto, groups, db, start, made, registry.Contents())
      {
        ghost var mid := registry.Contents();
        ColumnStep(crypto, db, id, g, i, connection);
        var column, more, stretch := CollectColumn(id, g, g.columns[i]);
        InsertTwice(m, id, stored, more);
        CollectTracedJoins(crypto, groups, db, start, made, mid, stretch, registry.Contents());
        stored, made := stored + more, made + stretch;
        if column.Failure? {
          return Failure(column.error), stored, made;
        }
        seen, inserted := seen + column.value.0, inserted + column.value.1;
      }
      WholeGroup(crypto, db, id, g);
      GroupGrowth(m, id, stored);
      StatsAre(connection, id, g, m, registry.mappings, seen, inserted);
      return Success(GroupStats(id, |g.columns|, seen, inserted)), stored, made;
    }

    /** `collect_mapping_keys`: every group of the policy, in its order. */
    method CollectMappingKeys(policy: seq<GroupEntry>)
      returns (outcome: Result<seq<GroupStats>, CollectFault>, ghost made: seq<Commit>)
      requires policy == groups && DistinctIds(policy) && forall i :: 0 <= i < |policy| ==> policy[i].id != ""
      requires forall i :: 0 <= i < |policy| ==> Reads(connection, db, policy[i].group.columns)
      modifies registry
      ensures outcome.Success? <==> forall i :: 0 <= i < |policy| ==> GroupNormalizable(crypto, db, policy[i].group)
      ensures outcome.Success? ==>
        && registry.mappings == InsertGroups(crypto, db, old(registry.mappings), policy)
        && |outcome.value| == |policy|
        && forall i :: 0 <= i < |policy| ==>
             StatsExact(connection, policy[i], old(registry.mappings), registry.mappings, outcome.value[i])
      ensures registry.commits == old(registry.commits) + made
      ensures CollectTraced(crypto, groups, db, old(registry.Contents()), made, registry.Contents())
    {
      hide CollectTraced, InsertAll, KeysIn, SourceKeys, GroupNormalizable, Reads;
      ghost var start, m := registry.Contents(), registry.mappings;
      var result: seq<GroupStats> := [];
      made := [];
      CollectTracedStart(crypto, groups, db, start);
      for i := 0 to |policy|
        invariant registry.mappings == InsertGroups(crypto, db, m, policy[..i])
        invariant |result| == i && forall j :: 0 <= j < i ==>
          && GroupNormalizable(crypto, db, policy[j].group)
          && StatsExact(connection, policy[j], m, registry.mappings, result[j])
        invariant registry.commits == old(registry.commits) + made
        invariant CollectTraced(crypto, groups, db, start, made, registry.Contents())
      {
        var id, g := policy[i].id, policy[i].group;
        assert IsGroup(groups, id, g);
        ghost var mid, before := registry.Contents(), registry.mappings;
        assert policy[..i + 1][..i] == policy[..i];
        InsertGroupsOther(crypto, db, m, policy[..i], id);
        var group, stored, stretch := CollectGroup(id, g);
        CollectTracedJoins(crypto, groups, db, start, made, mid, stretch, registry.Contents());
        made := made + stretch;
        if group.Failure? { return Failure(group.error), made; }
        InsertEffect(before, id, stored);
        result := result + [group.value];
      }
      assert policy[..|policy|] == policy;
      return Success(result), made;
    }
  }
}
