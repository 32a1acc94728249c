/** The mapper configuration that the run writes before the dump, and the transformers it lists. */
module ConfigBuilder {
  import opened Base
  import opened Policy
  import opened RegistryModel
  import opened Registry
  import opened Database
  import opened Mapper
  import opened Graph
  import opened DataPlane

  function BindingTables(tables: TableMap): map<string, seq<ColumnBinding>> {
    map key | key in tables :: BindingsOf(tables[key])
  }

  /** The table key of the transformer that Greenmask runs for a table: keys are split at the first dot
      into the schema and the table of a transformation. */
  function TransformerFor(config: MapperConfig, t: TableRef): Option<string> {
    var key := JoinKey(t.schema, t.table);
    if key in config.tables && SplitKey(key) == Some((t.schema, t.table)) then Some(key) else None
  }

  /** Every table with configured columns, and no other, has a transformer, and it maps exactly those
      columns in ascending order. */
  ghost predicate Configures(config: MapperConfig, groups: seq<GroupEntry>) {
    && config.groups == SettingsMap(groups)
    && (forall key :: key in config.tables ==> DistinctColumns(config.tables[key]))
    && forall t: TableRef :: TableConfigured(config, groups, t)
  }

  ghost predicate TableConfigured(config: MapperConfig, groups: seq<GroupEntry>, t: TableRef) {
    match TransformerFor(config, t)
    case Some(key) => key in config.tables && config.tables[key] == Bindings(groups, t) != []
    case None => Bindings(groups, t) == []
  }

  lemma BindingsOfMembers(columns: map<string, string>)
    ensures DistinctColumns(BindingsOf(columns))
    ensures BindingsOf(columns) == [] <==> columns == map[]
    ensures forall b :: b in BindingsOf(columns) ==> b.column in columns && columns[b.column] == b.group
  {
    hide SortedList;
    var names := SortedList(columns.Keys);
    forall n | 0 <= n < |names| ensures names[n] in columns {
      assert names[n] in Elements(names);
    }
    assert |names| == |columns.Keys|;
    if columns.Keys == {} { assert columns == map[]; }
  }

  lemma {:induction false} FirstDotFound(s: string)
    ensures FirstDot(s) <= |s|
    ensures FirstDot(s) < |s| ==> s[FirstDot(s)] == '.' && '.' !in s[..FirstDot(s)]
  {
    if s != "" && s[0] != '.' {
      FirstDotFound(s[1..]);
      if FirstDot(s) < |s| { assert s[..FirstDot(s)] == [s[0]] + s[1..][..FirstDot(s[1..])]; }
    }
  }

  /** Only a schema without a dot is the schema of a key. */
  lemma SplitSchema(t: TableRef)
    ensures SplitKey(JoinKey(t.schema, t.table)) == Some((t.schema, t.table)) <==> '.' !in t.schema
  {
    if '.' !in t.schema {
      SplitJoin(t.schema, t.table);
    } else {
      FirstDotFound(JoinKey(t.schema, t.table));
    }
  }

  lemma ConfiguredSchema(p: Policy, t: TableRef)
    requires ValidPolicy(p) && TableColumns(p.groups, t.schema, t.table) != map[]
    ensures '.' !in t.schema
  {
    hide Membership, IsIdentifier, DistinctIds, OneGroupPerColumn;
    var column :| column in TableColumns(p.groups, t.schema, t.table);
    var r := ColumnRef(t.schema, t.table, column);
    TableColumnsEntries(p.groups, t.schema, t.table);
    assert PlaceOf(Membership(p.groups), r).Some?;
    var i := MembershipSource(p.groups, r);
    assert ValidGroup(p.groups[i].group);
    assert ValidRef(r);
    NoDotInIdentifier(r.schema);
  }

  lemma TableIsConfigured(p: Policy, tables: TableMap, t: TableRef)
    requires ValidPolicy(p) && Reflects(tables, Membership(p.groups)) && OnlyDeclared(tables, Membership(p.groups))
    ensures TableConfigured(MapperConfig(SettingsMap(p.groups), BindingTables(tables)), p.groups, t)
  {
    hide BindingsOf, Membership, JoinKey, SplitKey, SettingsMap, ValidPolicy, TableColumns, Stems;
    var view := TableColumns(p.groups, t.schema, t.table);
    BindingsOfMembers(view);
    SplitSchema(t);
    if '.' !in t.schema {
      TablesAgreeWithMembership(p.groups, tables, t.schema, t.table);
    } else if view != map[] {
      ConfiguredSchema(p, t);
    }
  }

  lemma GroupsAreKnown(p: Policy, tables: TableMap, key: string)
    requires ValidPolicy(p) && OnlyDeclared(tables, Membership(p.groups)) && key in tables
    ensures BindingsOf(tables[key]) != []
    ensures forall b :: b in BindingsOf(tables[key]) ==> b.group in SettingsMap(p.groups)
  {
    hide BindingsOf, Membership, SettingsMap, IsIdentifier, ValidGroup, OneGroupPerColumn;
    BindingsOfMembers(tables[key]);
    forall b | b in BindingsOf(tables[key]) ensures b.group in SettingsMap(p.groups) {
      assert Stems(Membership(p.groups), key, b.column, b.group);
      var r: ColumnRef :| r in Membership(p.groups) && Membership(p.groups)[r] == b.group;
      var i := MembershipSource(p.groups, r);
      SettingsMapHas(p.groups, i);
    }
  }

  /** For a validated policy the configuration is written without the duplicate error, is accepted by
      the mapper, and configures exactly the tables and columns of the policy. */
  method BuildMapperConfig(p: Policy) returns (config: MapperConfig)
    requires ValidPolicy(p)
    ensures ConfigAccepted(config) && Configures(config, p.groups)
  {
    hide Membership, SettingsMap, BindingsOf, OnlyDeclared, Reflects, TableConfigured, ValidGroup, IsIdentifier,
      DeclaredOnce, RefsValid, DistinctColumns;
    ValidPolicyTables(p);
    var built := TableMapping(p.groups);
    var tables := built.value;
    config := MapperConfig(SettingsMap(p.groups), BindingTables(tables));
    forall key | key in tables
      ensures BindingsOf(tables[key]) != [] && DistinctColumns(BindingsOf(tables[key]))
      ensures forall b :: b in BindingsOf(tables[key]) ==> b.group in config.groups
    {
      GroupsAreKnown(p, tables, key);
      BindingsOfMembers(tables[key]);
    }
    forall t: TableRef ensures TableConfigured(config, p.groups, t) {
      TableIsConfigured(p, tables, t);
    }
    SomethingConfigured(p, tables);
    ghost var some :| some in tables;
    assert some in config.tables;
  }

  /** A validated policy has a group with a column, so neither dictionary is empty. */
  lemma SomethingConfigured(p: Policy, tables: TableMap)
    requires ValidPolicy(p) && Reflects(tables, Membership(p.groups))
    ensures SettingsMap(p.groups) != map[] && tables != map[]
  {
    hide Membership, SettingsMap, OneGroupPerColumn, DistinctIds;
    SettingsMapHas(p.groups, 0);
    assert ValidGroup(p.groups[0].group);
    var r := p.groups[0].group.columns[0];
    assert ValidRef(r);
    NoDotInIdentifier(r.schema);
    MembershipCovers(p.groups, 0, r);
    assert EntryOf(tables, r) == PlaceOf(Membership(p.groups), r);
  }

  /** A mapper process started for a transformer opens with exactly the bindings of its table. */
  method OpenTableMapper(config: MapperConfig, groups: seq<GroupEntry>, t: TableRef, crypto: Crypto,
                         registry: MappingRegistry)
    returns (r: Result<JsonlMapper, MapperFault>)
    requires ConfigAccepted(config) && Configures(config, groups) && Bindings(groups, t) != []
    ensures r.Success? && fresh(r.value) && r.value.Valid()
    ensures r.value.registry == registry && r.value.crypto == crypto
    ensures r.value.columns == Bindings(groups, t) && r.value.groups == SettingsMap(groups)
  {
    hide Bindings, SettingsMap, ConfigAccepted, DistinctColumns, TransformerFor;
    assert TableConfigured(config, groups, t);
    r := OpenMapper(config, TransformerFor(config, t).value, crypto, registry);
  }
}
