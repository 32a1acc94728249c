/** The policy document, its own validation, its validation against a schema, and the three
    column-to-group views that the components read from it. */
module Policy {
  import opened Base

  datatype EntityType = PersonName | EmailAddress | PhoneNumber | PostalAddress

  datatype ColumnRef = ColumnRef(schema: string, table: string, column: string)

  datatype Group = Group(
    entity: EntityType,
    settings: Settings,
    minLength: nat,
    maxLength: nat,
    regex: Option<string>,
    columns: seq<ColumnRef>)

  /** One item of the `groups` dictionary; the sequence order is the dictionary's order. */
  datatype GroupEntry = GroupEntry(id: string, group: Group)

  datatype Policy = Policy(
    allowTargetRecreate: bool,
    collectorFetchSize: nat,
    verifierFetchSize: nat,
    batchSize: nat,
    maxRetries: nat,
    groups: seq<GroupEntry>)

  // ----- what the document model accepts -----

  predicate IdentifierStart(ch: char) { 'A' <= ch <= 'Z' || 'a' <= ch <= 'z' || ch == '_' }

  predicate IdentifierPart(ch: char) { IdentifierStart(ch) || '0' <= ch <= '9' || ch == '$' }

  predicate IsIdentifier(s: string) {
    s != "" && IdentifierStart(s[0]) && forall i :: 0 <= i < |s| ==> IdentifierPart(s[i])
  }

  predicate ValidRef(r: ColumnRef) {
    && IsIdentifier(r.schema) && |r.schema| <= 63
    && IsIdentifier(r.table) && |r.table| <= 63
    && IsIdentifier(r.column) && |r.column| <= 63
  }

  function ExpectedKind(e: EntityType): Kind {
    match e
    case PersonName => HumanText
    case EmailAddress => Kind.Email
    case PhoneNumber => Kind.Phone
    case PostalAddress => HumanText
  }

  ghost predicate ValidGroup(g: Group) {
    && g.settings.kind == ExpectedKind(g.entity)
    && 1 <= g.minLength <= g.maxLength <= 10_000
    && g.columns != []
    && Distinct(g.columns)
    && forall i :: 0 <= i < |g.columns| ==> ValidRef(g.columns[i])
  }

  ghost predicate DistinctIds(groups: seq<GroupEntry>) {
    forall i, j :: 0 <= i < j < |groups| ==> groups[i].id != groups[j].id
  }

  /** No column is declared by two groups. */
  ghost predicate OneGroupPerColumn(groups: seq<GroupEntry>) {
    forall i, j, r | 0 <= i < |groups| && 0 <= j < |groups| ::
      r in groups[i].group.columns && r in groups[j].group.columns ==> i == j
  }

  ghost predicate ValidPolicy(p: Policy) {
    && p.groups != []
    && DistinctIds(p.groups)
    && (forall i :: 0 <= i < |p.groups| ==> IsIdentifier(p.groups[i].id) && ValidGroup(p.groups[i].group))
    && OneGroupPerColumn(p.groups)
    && 1 <= p.collectorFetchSize <= 100_000
    && 1 <= p.verifierFetchSize <= 100_000
    && 1 <= p.batchSize <= 1_000
    && p.maxRetries <= 20
  }

  // ----- the column-to-group views -----

  /** The relation every view denotes: group `id` lists column `r`. */
  ghost predicate Declares(groups: seq<GroupEntry>, id: string, r: ColumnRef) {
    exists i :: 0 <= i < |groups| && groups[i].id == id && r in groups[i].group.columns
  }

  /** `group_for_column`: the first group that lists the column. */
  function GroupForColumn(groups: seq<GroupEntry>, r: ColumnRef): Option<string> {
    if groups == [] then None
    else if r in groups[0].group.columns then Some(groups[0].id)
    else GroupForColumn(groups[1..], r)
  }

  lemma {:induction false} GroupForColumnDenotes(groups: seq<GroupEntry>, r: ColumnRef, id: string)
    requires DistinctIds(groups) && OneGroupPerColumn(groups)
    ensures GroupForColumn(groups, r) == Some(id) <==> Declares(groups, id, r)
  {
    if groups != [] {
      var rest := groups[1..];
      assert forall i :: 0 <= i < |rest| ==> rest[i] == groups[i + 1];
      GroupForColumnDenotes(rest, r, id);
      if r in groups[0].group.columns {
        assert Declares(groups, id, r) <==> groups[0].id == id;
      } else {
        assert Declares(rest, id, r) ==> Declares(groups, id, r) by {
          if Declares(rest, id, r) {
            var i :| 0 <= i < |rest| && rest[i].id == id && r in rest[i].group.columns;
            assert groups[i + 1].id == id;
          }
        }
        assert Declares(groups, id, r) ==> Declares(rest, id, r) by {
          if Declares(groups, id, r) {
            var i :| 0 <= i < |groups| && groups[i].id == id && r in groups[i].group.columns;
            assert rest[i - 1].id == id;
          }
        }
      }
    }
  }

  /** `_group_membership`: a dictionary in which a later declaration overwrites an earlier one. */
  function Membership(groups: seq<GroupEntry>): map<ColumnRef, string> {
    if groups == [] then map[]
    else
      var last := groups[|groups| - 1];
      Membership(groups[..|groups| - 1]) + map r | r in last.group.columns :: last.id
  }

  /** What the dictionary holds for a column comes from one of the groups entered so far. */
  lemma {:induction false} MembershipSource(groups: seq<GroupEntry>, r: ColumnRef) returns (i: nat)
    requires r in Membership(groups)
    ensures i < |groups| && r in groups[i].group.columns && Membership(groups)[r] == groups[i].id
  {
    var n := |groups| - 1;
    if r in groups[n].group.columns {
      i := n;
    } else {
      i := MembershipSource(groups[..n], r);
    }
  }

  lemma {:induction false} MembershipCovers(groups: seq<GroupEntry>, i: nat, r: ColumnRef)
    requires i < |groups| && r in groups[i].group.columns
    ensures r in Membership(groups)
  {
    var n := |groups| - 1;
    if i < n {
      assert groups[..n][i] == groups[i];
      MembershipCovers(groups[..n], i, r);
    }
  }

  lemma MembershipDenotes(groups: seq<GroupEntry>, r: ColumnRef, id: string)
    requires DistinctIds(groups) && OneGroupPerColumn(groups)
    ensures (r in Membership(groups) && Membership(groups)[r] == id) <==> Declares(groups, id, r)
  {
    hide Membership;
    if Declares(groups, id, r) {
      var i :| 0 <= i < |groups| && groups[i].id == id && r in groups[i].group.columns;
      MembershipCovers(groups, i, r);
    }
    if r in Membership(groups) {
      var j := MembershipSource(groups, r);
    }
  }

  /** Two views, one function: a column's first group is its dictionary entry. */
  lemma ViewsAgree(groups: seq<GroupEntry>, r: ColumnRef)
    requires DistinctIds(groups) && OneGroupPerColumn(groups)
    ensures GroupForColumn(groups, r)
         == (if r in Membership(groups) then Some(Membership(groups)[r]) else None)
  {
    match GroupForColumn(groups, r)
    case Some(id) =>
      GroupForColumnDenotes(groups, r, id);
      MembershipDenotes(groups, r, id);
    case None =>
      if r in Membership(groups) {
        MembershipDenotes(groups, r, Membership(groups)[r]);
        GroupForColumnDenotes(groups, r, Membership(groups)[r]);
      }
  }

  lemma MembershipIdKnown(groups: seq<GroupEntry>, gi: nat, r: ColumnRef)
    requires DistinctIds(groups) && gi < |groups| && r in Membership(groups[..gi])
    ensures Membership(groups[..gi])[r] != groups[gi].id
  {
    var i := MembershipSource(groups[..gi], r);
  }

  lemma ConflictFound(groups: seq<GroupEntry>, gi: nat, r: ColumnRef)
    requires gi < |groups| && r in groups[gi].group.columns && r in Membership(groups[..gi])
    ensures !OneGroupPerColumn(groups)
  {
    var i := MembershipSource(groups[..gi], r);
    assert r in groups[i].group.columns && i != gi;
  }

  lemma NoGroupsNoConflict(groups: seq<GroupEntry>)
    ensures OneGroupPerColumn(groups[..0]) && Membership(groups[..0]) == map[]
  {
  }

  /** The dictionary after the first `ci` columns of a group have been entered. */
  ghost function EnteredUpTo(before: map<ColumnRef, string>, columns: seq<ColumnRef>, ci: nat, id: string)
    : map<ColumnRef, string>
    requires ci <= |columns|
  {
    before + map x | x in columns[..ci] :: id
  }

  ghost predicate NotBefore(before: map<ColumnRef, string>, columns: seq<ColumnRef>, ci: nat)
    requires ci <= |columns|
  {
    forall x :: x in columns[..ci] ==> x !in before
  }

  lemma EnteredNone(before: map<ColumnRef, string>, columns: seq<ColumnRef>, id: string)
    ensures EnteredUpTo(before, columns, 0, id) == before && NotBefore(before, columns, 0)
  {
  }

  /** Entering one more column, and where a column found in the dictionary came from. */
  lemma EnteredNext(before: map<ColumnRef, string>, columns: seq<ColumnRef>, ci: nat, id: string)
    requires ci < |columns| && NotBefore(before, columns, ci)
    ensures EnteredUpTo(before, columns, ci + 1, id) == EnteredUpTo(before, columns, ci, id)[columns[ci] := id]
    ensures columns[ci] !in before ==> NotBefore(before, columns, ci + 1)
    ensures columns[ci] in EnteredUpTo(before, columns, ci, id) <==>
      columns[ci] in before || columns[ci] in columns[..ci]
    ensures columns[ci] in before ==> EnteredUpTo(before, columns, ci, id)[columns[ci]] == before[columns[ci]]
    ensures columns[ci] in columns[..ci] ==> EnteredUpTo(before, columns, ci, id)[columns[ci]] == id
  {
    assert columns[..ci + 1] == columns[..ci] + [columns[ci]];
  }

  lemma EnteredAll(before: map<ColumnRef, string>, columns: seq<ColumnRef>, id: string)
    requires NotBefore(before, columns, |columns|)
    ensures EnteredUpTo(before, columns, |columns|, id) == before + map r | r in columns :: id
    ensures forall x :: x in columns ==> x !in before
  {
    assert columns[..|columns|] == columns;
  }

  lemma OneMoreGroup(groups: seq<GroupEntry>, gi: nat)
    requires gi < |groups| && OneGroupPerColumn(groups[..gi])
    requires forall r :: r in groups[gi].group.columns ==> r !in Membership(groups[..gi])
    ensures OneGroupPerColumn(groups[..gi + 1])
    ensures Membership(groups[..gi + 1])
         == Membership(groups[..gi]) + map r | r in groups[gi].group.columns :: groups[gi].id
  {
    var before, after := groups[..gi], groups[..gi + 1];
    assert after[..gi] == before;
    forall i, j, r | 0 <= i <= gi && 0 <= j <= gi
                     && r in after[i].group.columns && r in after[j].group.columns
      ensures i == j
    {
      if i < gi { MembershipCovers(before, i, r); assert before[i] == after[i]; }
      if j < gi { MembershipCovers(before, j, r); assert before[j] == after[j]; }
    }
  }

  /** The `seen` dictionary pass over every declared column. */
  method ValidateCrossGroupColumns(groups: seq<GroupEntry>) returns (ok: bool)
    requires DistinctIds(groups)
    ensures ok <==> OneGroupPerColumn(groups)
  {
    hide OneGroupPerColumn, EnteredUpTo, NotBefore, Membership, DistinctIds;
    var seen: map<ColumnRef, string> := map[];
    NoGroupsNoConflict(groups);
    var gi := 0;
    while gi < |groups|
      invariant 0 <= gi <= |groups|
      invariant seen == Membership(groups[..gi])
      invariant OneGroupPerColumn(groups[..gi])
    {
      var id, columns := groups[gi].id, groups[gi].group.columns;
      ghost var before := seen;
      EnteredNone(before, columns, id);
      var ci := 0;
      while ci < |columns|
        invariant 0 <= ci <= |columns|
        invariant seen == EnteredUpTo(before, columns, ci, id)
        invariant NotBefore(before, columns, ci)
      {
        var column := columns[ci];
        EnteredNext(before, columns, ci, id);
        if column !in seen {
          seen := seen[column := id];
        }
        if seen[column] != id {
          ConflictFound(groups, gi, column);
          return false;
        }
        if column in before { MembershipIdKnown(groups, gi, column); }
        ci := ci + 1;
      }
      EnteredAll(before, columns, id);
      OneMoreGroup(groups, gi);
      gi := gi + 1;
    }
    assert groups[..|groups|] == groups;
    return true;
  }

  // ----- deterministic order -----

  /** Order of the key triple (schema, table, column). */
  predicate RefLe(a: ColumnRef, b: ColumnRef) {
    if a.schema != b.schema then LexLe(a.schema, b.schema)
    else if a.table != b.table then LexLe(a.table, b.table)
    else LexLe(a.column, b.column)
  }

  predicate EntryLe(a: GroupEntry, b: GroupEntry) { LexLe(a.id, b.id) }

  function InsertBy<T(==)>(le: (T, T) -> bool, x: T, s: seq<T>): (r: seq<T>)
    ensures multiset(r) == multiset(s) + multiset{x}
  {
    if s == [] then [x]
    else if le(x, s[0]) then
      [x] + s
    else
      assert s == [s[0]] + s[1..];
      [s[0]] + InsertBy(le, x, s[1..])
  }

  function SortBy<T(==)>(le: (T, T) -> bool, s: seq<T>): (r: seq<T>)
    ensures multiset(r) == multiset(s)
  {
    if s == [] then []
    else
      assert s == [s[0]] + s[1..];
      InsertBy(le, s[0], SortBy(le, s[1..]))
  }

  function SortRefs(columns: seq<ColumnRef>): seq<ColumnRef> { SortBy(RefLe, columns) }

  function SortEntries(groups: seq<GroupEntry>): seq<GroupEntry> { SortBy(EntryLe, groups) }

  ghost predicate TotalOrder<T(!new)>(le: (T, T) -> bool) {
    && (forall a, b :: le(a, b) || le(b, a))
    && (forall a, b, c :: le(a, b) && le(b, c) ==> le(a, c))
  }

  lemma InsertMembers<T>(le: (T, T) -> bool, x: T, s: seq<T>, y: T)
    requires y in InsertBy(le, x, s)
    ensures y == x || y in s
  {
    assert y in multiset(InsertBy(le, x, s));
  }

  lemma {:induction false} InsertSorted<T(!new)>(le: (T, T) -> bool, x: T, s: seq<T>)
    requires TotalOrder(le) && SortedBy(le, s)
    ensures SortedBy(le, InsertBy(le, x, s))
  {
    if s != [] && !le(x, s[0]) {
      var rest := InsertBy(le, x, s[1..]);
      InsertSorted(le, x, s[1..]);
      forall j | 0 <= j < |rest| ensures le(s[0], rest[j]) {
        InsertMembers(le, x, s[1..], rest[j]);
      }
    }
  }

  lemma {:induction false} SortBySorts<T(!new)>(le: (T, T) -> bool, s: seq<T>)
    requires TotalOrder(le)
    ensures SortedBy(le, SortBy(le, s))
  {
    if s != [] {
      SortBySorts(le, s[1..]);
      InsertSorted(le, s[0], SortBy(le, s[1..]));
    }
  }

  lemma RefOrder()
    ensures TotalOrder(RefLe)
  {
    hide LexLe;
    forall a, b ensures RefLe(a, b) || RefLe(b, a) {
      LexTotal(a.schema, b.schema);
      LexTotal(a.table, b.table);
      LexTotal(a.column, b.column);
    }
    forall a, b, c | RefLe(a, b) && RefLe(b, c) ensures RefLe(a, c) {
      RefTransitive(a, b, c);
    }
  }

  lemma RefTransitive(a: ColumnRef, b: ColumnRef, c: ColumnRef)
    requires RefLe(a, b) && RefLe(b, c)
    ensures RefLe(a, c)
  {
    hide LexLe;
    if a.schema != b.schema && b.schema != c.schema {
      LexTransitive(a.schema, b.schema, c.schema);
      if a.schema == c.schema { LexAntisymmetric(a.schema, b.schema); }
    } else if a.schema == b.schema == c.schema {
      if a.table != b.table && b.table != c.table {
        LexTransitive(a.table, b.table, c.table);
        if a.table == c.table { LexAntisymmetric(a.table, b.table); }
      } else if a.table == b.table == c.table {
        LexTransitive(a.column, b.column, c.column);
      }
    }
  }

  lemma EntryOrder()
    ensures TotalOrder(EntryLe)
  {
    hide LexLe;
    forall a: GroupEntry, b: GroupEntry ensures EntryLe(a, b) || EntryLe(b, a) {
      LexTotal(a.id, b.id);
    }
    forall a: GroupEntry, b: GroupEntry, c: GroupEntry | EntryLe(a, b) && EntryLe(b, c) ensures EntryLe(a, c) {
      LexTransitive(a.id, b.id, c.id);
    }
  }

  /** The orders in which groups and columns are visited: the same items, ascending. */
  lemma VisitingOrder(groups: seq<GroupEntry>, columns: seq<ColumnRef>)
    ensures multiset(SortEntries(groups)) == multiset(groups) && SortedBy(EntryLe, SortEntries(groups))
    ensures multiset(SortRefs(columns)) == multiset(columns) && SortedBy(RefLe, SortRefs(columns))
  {
    hide EntryLe, RefLe, SortBy;
    EntryOrder();
    RefOrder();
    SortBySorts(EntryLe, groups);
    SortBySorts(RefLe, columns);
  }

  // ----- schema.table keys -----

  function JoinKey(schema: string, table: string): string { schema + "." + table }

  function FirstDot(s: string): nat {
    if s == "" || s[0] == '.' then 0 else 1 + FirstDot(s[1..])
  }

  /** `key.split(".", maxsplit=1)`, which the caller unpacks into exactly two parts. */
  function SplitKey(key: string): Option<(string, string)> {
    var d := FirstDot(key);
    if d < |key| then Some((key[..d], key[d + 1..])) else None
  }

  lemma {:induction false} SplitJoin(schema: string, table: string)
    requires '.' !in schema
    ensures SplitKey(JoinKey(schema, table)) == Some((schema, table))
  {
    FirstDotOfJoin(schema, table);
    assert JoinKey(schema, table)[..|schema|] == schema;
    assert JoinKey(schema, table)[|schema| + 1..] == table;
  }

  lemma {:induction false} FirstDotOfJoin(schema: string, table: string)
    requires '.' !in schema
    ensures FirstDot(schema + "." + table) == |schema|
  {
    if schema != "" {
      assert (schema + "." + table)[1..] == schema[1..] + "." + table;
      FirstDotOfJoin(schema[1..], table);
    }
  }

  /** The mapped columns of one table, read from the membership view. */
  function TableColumns(groups: seq<GroupEntry>, schema: string, table: string): map<string, string> {
    var m := Membership(groups);
    map r | r in m && r.schema == schema && r.table == table :: r.column := m[r]
  }

  type TableMap = map<string, map<string, string>>

  function ColumnsAt(tables: TableMap, key: string): map<string, string> {
    if key in tables then tables[key] else map[]
  }

  function EntryOf(tables: TableMap, r: ColumnRef): Option<string> {
    var columns := ColumnsAt(tables, JoinKey(r.schema, r.table));
    if r.column in columns then Some(columns[r.column]) else None
  }

  function PlaceOf(m: map<ColumnRef, string>, r: ColumnRef): Option<string> {
    if r in m then Some(m[r]) else None
  }

  /** The nested dictionary and the column-to-group map `m` hold the same entries. */
  ghost predicate Reflects(tables: TableMap, m: map<ColumnRef, string>) {
    forall r: ColumnRef :: '.' !in r.schema ==> EntryOf(tables, r) == PlaceOf(m, r)
  }

  ghost predicate ColumnsValid(columns: seq<ColumnRef>) {
    forall k :: 0 <= k < |columns| ==> ValidRef(columns[k])
  }

  ghost predicate RefsValid(groups: seq<GroupEntry>) {
    forall i :: 0 <= i < |groups| ==> ColumnsValid(groups[i].group.columns)
  }

  lemma JoinInjective(a: ColumnRef, b: ColumnRef)
    requires '.' !in a.schema && '.' !in b.schema
    requires JoinKey(a.schema, a.table) == JoinKey(b.schema, b.table)
    ensures a.schema == b.schema && a.table == b.table
  {
    SplitJoin(a.schema, a.table);
    SplitJoin(b.schema, b.table);
  }

  /** Setting one entry of the nested dictionary adds exactly one column. */
  lemma ReflectsStep(tables: TableMap, m: map<ColumnRef, string>, r: ColumnRef, id: string)
    requires '.' !in r.schema && Reflects(tables, m)
    ensures var key := JoinKey(r.schema, r.table);
      Reflects(tables[key := ColumnsAt(tables, key)[r.column := id]], m[r := id])
  {
    var key := JoinKey(r.schema, r.table);
    var after := tables[key := ColumnsAt(tables, key)[r.column := id]];
    forall x: ColumnRef | '.' !in x.schema
      ensures EntryOf(after, x) == PlaceOf(m[r := id], x)
    {
      assert EntryOf(tables, x) == PlaceOf(m, x);
      if JoinKey(x.schema, x.table) == key { JoinInjective(x, r); }
    }
  }

  /** No table entry is empty, and every entry stems from a column of `m`. */
  ghost predicate OnlyDeclared(tables: TableMap, m: map<ColumnRef, string>) {
    && (forall key :: key in tables ==> tables[key] != map[])
    && forall key, column | key in tables && column in tables[key] :: Stems(m, key, column, tables[key][column])
  }

  ghost predicate Stems(m: map<ColumnRef, string>, key: string, column: string, id: string) {
    exists r: ColumnRef :: r in m && JoinKey(r.schema, r.table) == key && r.column == column && m[r] == id
  }

  lemma StemsStay(m: map<ColumnRef, string>, r: ColumnRef, id: string, key: string, column: string, group: string)
    requires r !in m && Stems(m, key, column, group)
    ensures Stems(m[r := id], key, column, group)
  {
    var s: ColumnRef :| s in m && JoinKey(s.schema, s.table) == key && s.column == column && m[s] == group;
    assert s in m[r := id] && m[r := id][s] == group;
  }

  lemma DeclaredStep(tables: TableMap, m: map<ColumnRef, string>, r: ColumnRef, id: string)
    requires r !in m && OnlyDeclared(tables, m)
    ensures var key := JoinKey(r.schema, r.table);
      OnlyDeclared(tables[key := ColumnsAt(tables, key)[r.column := id]], m[r := id])
  {
    hide JoinKey, Stems;
    var key := JoinKey(r.schema, r.table);
    var after := tables[key := ColumnsAt(tables, key)[r.column := id]];
    forall k | k in after ensures after[k] != map[] {
      if k == key { assert r.column in after[key]; }
    }
    forall k, column | k in after && column in after[k] ensures Stems(m[r := id], k, column, after[k][column]) {
      if k == key && column == r.column {
        StemsNew(m, r, id);
      } else {
        assert k in tables && column in tables[k] && after[k][column] == tables[k][column];
        StemsStay(m, r, id, k, column, tables[k][column]);
      }
    }
  }

  lemma StemsNew(m: map<ColumnRef, string>, r: ColumnRef, id: string)
    ensures Stems(m[r := id], JoinKey(r.schema, r.table), r.column, id)
  {
    assert r in m[r := id];
  }

  datatype ConfigError = DuplicateTableColumn

  ghost predicate Fresh(before: map<ColumnRef, string>, columns: seq<ColumnRef>, ci: nat)
    requires ci <= |columns|
  {
    Distinct(columns[..ci]) && NotBefore(before, columns, ci)
  }

  lemma ReflectsNone()
    ensures Reflects(map[], map[]) && OnlyDeclared(map[], map[])
  {
  }

  lemma FreshNext(before: map<ColumnRef, string>, columns: seq<ColumnRef>, ci: nat)
    requires ci < |columns| && Fresh(before, columns, ci)
    requires columns[ci] !in before && columns[ci] !in columns[..ci]
    ensures Fresh(before, columns, ci + 1)
  {
    assert columns[..ci + 1] == columns[..ci] + [columns[ci]];
  }

  /** The duplicate test of `_table_mapping` fires exactly on a column declared before. */
  lemma EnterOne(tables: TableMap, before: map<ColumnRef, string>, columns: seq<ColumnRef>, ci: nat, id: string)
    requires ci < |columns| && ValidRef(columns[ci])
    requires Fresh(before, columns, ci) && Reflects(tables, EnteredUpTo(before, columns, ci, id))
    requires OnlyDeclared(tables, EnteredUpTo(before, columns, ci, id))
    ensures var r := columns[ci];
      var key := JoinKey(r.schema, r.table);
      if r in before || r in columns[..ci] then r.column in ColumnsAt(tables, key)
      else
        && r.column !in ColumnsAt(tables, key)
        && Fresh(before, columns, ci + 1)
        && Reflects(tables[key := ColumnsAt(tables, key)[r.column := id]], EnteredUpTo(before, columns, ci + 1, id))
        && OnlyDeclared(tables[key := ColumnsAt(tables, key)[r.column := id]], EnteredUpTo(before, columns, ci + 1, id))
  {
    hide OnlyDeclared;
    var r, entered := columns[ci], EnteredUpTo(before, columns, ci, id);
    NoDotInIdentifier(r.schema);
    assert EntryOf(tables, r) == PlaceOf(entered, r);
    EnteredNext(before, columns, ci, id);
    if !(r in before || r in columns[..ci]) {
      ReflectsStep(tables, entered, r, id);
      DeclaredStep(tables, entered, r, id);
      FreshNext(before, columns, ci);
    }
  }

  /** `_table_mapping`: invert group-to-columns into table-to-column-to-group. */
  method TableMapping(groups: seq<GroupEntry>) returns (r: Result<TableMap, ConfigError>)
    requires RefsValid(groups)
    ensures r.Success? ==> Reflects(r.value, Membership(groups)) && OnlyDeclared(r.value, Membership(groups))
    ensures r.Success? <==> DeclaredOnce(groups)
  {
    hide OneGroupPerColumn, EnteredUpTo, NotBefore, Membership, Reflects, OnlyDeclared, ColumnsAt, IsIdentifier;
    var tables: TableMap := map[];
    NoGroupsNoConflict(groups);
    ReflectsNone();
    var gi := 0;
    while gi < |groups|
      invariant 0 <= gi <= |groups|
      invariant Reflects(tables, Membership(groups[..gi])) && OnlyDeclared(tables, Membership(groups[..gi]))
      invariant OneGroupPerColumn(groups[..gi])
      invariant forall i :: 0 <= i < gi ==> Distinct(groups[i].group.columns)
    {
      var id, columns := groups[gi].id, groups[gi].group.columns;
      assert ColumnsValid(columns);
      ghost var before := Membership(groups[..gi]);
      EnteredNone(before, columns, id);
      var ci := 0;
      while ci < |columns|
        invariant 0 <= ci <= |columns|
        invariant Reflects(tables, EnteredUpTo(before, columns, ci, id))
        invariant OnlyDeclared(tables, EnteredUpTo(before, columns, ci, id))
        invariant Fresh(before, columns, ci)
      {
        var column := columns[ci];
        var key := JoinKey(column.schema, column.table);
        var tableColumns := ColumnsAt(tables, key);
        EnterOne(tables, before, columns, ci, id);
        if column.column in tableColumns {
          DuplicateFound(groups, gi, ci);
          return Failure(DuplicateTableColumn);
        }
        tables := tables[key := tableColumns[column.column := id]];
        ci := ci + 1;
      }
      assert columns[..|columns|] == columns;
      EnteredAll(before, columns, id);
      OneMoreGroup(groups, gi);
      gi := gi + 1;
    }
    assert groups[..|groups|] == groups;
    return Success(tables);
  }

  lemma NoDotInIdentifier(s: string)
    requires IsIdentifier(s)
    ensures '.' !in s
  {
  }

  ghost predicate DeclaredOnce(groups: seq<GroupEntry>) {
    OneGroupPerColumn(groups) && forall i :: 0 <= i < |groups| ==> Distinct(groups[i].group.columns)
  }

  lemma DuplicateFound(groups: seq<GroupEntry>, gi: nat, ci: nat)
    requires gi < |groups| && ci < |groups[gi].group.columns|
    requires var column := groups[gi].group.columns[ci];
      column in Membership(groups[..gi]) || column in groups[gi].group.columns[..ci]
    ensures !DeclaredOnce(groups)
  {
    var columns := groups[gi].group.columns;
    if columns[ci] in columns[..ci] {
      var k :| 0 <= k < ci && columns[k] == columns[ci];
      assert !Distinct(columns);
    } else {
      ConflictFound(groups, gi, columns[ci]);
    }
  }

  /** A validated policy meets the precondition of `TableMapping` and never raises its error. */
  lemma ValidPolicyTables(p: Policy)
    requires ValidPolicy(p)
    ensures RefsValid(p.groups) && DeclaredOnce(p.groups)
  {
    forall i | 0 <= i < |p.groups| ensures ColumnsValid(p.groups[i].group.columns) {
      assert ValidGroup(p.groups[i].group);
    }
  }

  /** What a mapper process reads under its table key is the membership view of that table, and
      splitting the key gives the schema and the table back. */
  lemma TablesAgreeWithMembership(groups: seq<GroupEntry>, tables: TableMap, schema: string, table: string)
    requires Reflects(tables, Membership(groups)) && '.' !in schema
    ensures SplitKey(JoinKey(schema, table)) == Some((schema, table))
    ensures ColumnsAt(tables, JoinKey(schema, table)) == TableColumns(groups, schema, table)
  {
    SplitJoin(schema, table);
    hide Membership, JoinKey, SplitKey, TableColumns;
    TableColumnsEntries(groups, schema, table);
    var left, right := ColumnsAt(tables, JoinKey(schema, table)), TableColumns(groups, schema, table);
    forall column: string ensures column in left <==> column in right
      ensures column in left ==> left[column] == right[column]
    {
      assert EntryOf(tables, ColumnRef(schema, table, column))
          == PlaceOf(Membership(groups), ColumnRef(schema, table, column));
    }
  }

  lemma TableColumnsEntries(groups: seq<GroupEntry>, schema: string, table: string)
    ensures forall column: string ::
      PlaceOf(Membership(groups), ColumnRef(schema, table, column))
      == var right := TableColumns(groups, schema, table);
         if column in right then Some(right[column]) else None
  {
  }

  /** For a validated policy the three views denote one function, the declared one. */
  lemma PolicyViewsAgree(p: Policy, tables: TableMap, r: ColumnRef, id: string)
    requires ValidPolicy(p) && Reflects(tables, Membership(p.groups)) && IsIdentifier(r.schema)
    ensures EntryOf(tables, r) == PlaceOf(Membership(p.groups), r) == GroupForColumn(p.groups, r)
    ensures GroupForColumn(p.groups, r) == Some(id) <==> Declares(p.groups, id, r)
    ensures SplitKey(JoinKey(r.schema, r.table)) == Some((r.schema, r.table))
  {
    hide GroupForColumn, Membership, EntryOf, IsIdentifier, SplitKey;
    NoDotInIdentifier(r.schema);
    SplitJoin(r.schema, r.table);
    ViewsAgree(p.groups, r);
    GroupForColumnDenotes(p.groups, r, id);
  }

  // ----- validation against a schema -----

  datatype MatchType = MatchSimple | MatchFull

  /** A foreign key with its paired columns; `foldedType` is the case-folded PostgreSQL type. */
  datatype ForeignKey = ForeignKey(child: seq<ColumnRef>, parent: seq<ColumnRef>, matching: MatchType)

  datatype ColumnInfo = ColumnInfo(ref: ColumnRef, foldedType: string, maximum: Option<nat>)

  datatype Snapshot = Snapshot(columns: seq<ColumnInfo>, foreignKeys: seq<ForeignKey>)

  datatype PolicyError =
    | RecreateNotAllowed | MissingColumn | UnsupportedType | LengthExceedsColumn | PartialForeignKey

  const SUPPORTED_TEXT_TYPES := {"text", "character varying", "character", "varchar", "char"}

  function ColumnFor(columns: seq<ColumnInfo>, r: ColumnRef): Option<ColumnInfo> {
    if columns == [] then None
    else if columns[0].ref == r then Some(columns[0])
    else ColumnFor(columns[1..], r)
  }

  function CheckColumn(g: Group, r: ColumnRef, snapshot: Snapshot): Option<PolicyError> {
    match ColumnFor(snapshot.columns, r)
    case None => Some(MissingColumn)
    case Some(info) =>
      if info.foldedType !in SUPPORTED_TEXT_TYPES then Some(UnsupportedType)
      else if info.maximum.Some? && g.maxLength > info.maximum.value then Some(LengthExceedsColumn)
      else None
  }

  function CheckColumns(g: Group, columns: seq<ColumnRef>, snapshot: Snapshot): Option<PolicyError> {
    if columns == [] then None
    else
      match CheckColumn(g, columns[0], snapshot)
      case Some(e) => Some(e)
      case None => CheckColumns(g, columns[1..], snapshot)
  }

  function CheckGroups(groups: seq<GroupEntry>, snapshot: Snapshot): Option<PolicyError> {
    if groups == [] then None
    else
      match CheckColumns(groups[0].group, groups[0].group.columns, snapshot)
      case Some(e) => Some(e)
      case None => CheckGroups(groups[1..], snapshot)
  }

  function AssignedIds(columns: seq<ColumnRef>, m: map<ColumnRef, string>): set<string> {
    set r | r in columns && r in m :: m[r]
  }

  /** `_validate_foreign_key_coverage`. */
  predicate ForeignKeyCovered(fk: ForeignKey, m: map<ColumnRef, string>) {
    var relationship := fk.child + fk.parent;
    var ids := AssignedIds(relationship, m);
    ids == {} || (|ids| == 1 && forall r :: r in relationship ==> r in m)
  }

  function CheckForeignKeys(fks: seq<ForeignKey>, m: map<ColumnRef, string>): Option<PolicyError> {
    if fks == [] then None
    else if !ForeignKeyCovered(fks[0], m) then Some(PartialForeignKey)
    else CheckForeignKeys(fks[1..], m)
  }

  function ValidatePolicyAgainstSchema(p: Policy, snapshot: Snapshot): Option<PolicyError> {
    if !p.allowTargetRecreate then Some(RecreateNotAllowed)
    else
      match CheckGroups(p.groups, snapshot)
      case Some(e) => Some(e)
      case None => CheckForeignKeys(snapshot.foreignKeys, Membership(p.groups))
  }

  /** Every column of the relationship has the same place: no group at all, or one common group. */
  ghost predicate OnePlace(fk: ForeignKey, groups: seq<GroupEntry>) {
    forall a, b :: a in fk.child + fk.parent && b in fk.child + fk.parent ==>
      GroupForColumn(groups, a) == GroupForColumn(groups, b)
  }

  ghost predicate ColumnUsable(g: Group, r: ColumnRef, snapshot: Snapshot) {
    var info := ColumnFor(snapshot.columns, r);
    && info.Some?
    && info.value.foldedType in SUPPORTED_TEXT_TYPES
    && (info.value.maximum.Some? ==> g.maxLength <= info.value.maximum.value)
  }

  lemma SingletonSet<T>(s: set<T>, a: T, b: T)
    requires |s| == 1 && a in s && b in s
    ensures a == b
  {
    var rest := s - {a};
    assert |rest| == 0;
  }

  lemma ForeignKeyCoveredMeaning(fk: ForeignKey, groups: seq<GroupEntry>)
    requires DistinctIds(groups) && OneGroupPerColumn(groups)
    ensures ForeignKeyCovered(fk, Membership(groups)) <==> OnePlace(fk, groups)
  {
    var m := Membership(groups);
    var relationship := fk.child + fk.parent;
    var ids := AssignedIds(relationship, m);
    forall r | r in relationship
      ensures GroupForColumn(groups, r) == (if r in m then Some(m[r]) else None)
    {
      ViewsAgree(groups, r);
    }
    if ForeignKeyCovered(fk, m) {
      forall a, b | a in relationship && b in relationship
        ensures GroupForColumn(groups, a) == GroupForColumn(groups, b)
      {
        assert forall r :: r in relationship && r in m ==> m[r] in ids;
        if ids != {} {
          SingletonSet(ids, m[a], m[b]);
        }
      }
    }
    if OnePlace(fk, groups) && ids != {} {
      var a :| a in relationship && a in m;
      assert ids == {m[a]};
    }
  }

  lemma {:induction false} CheckColumnsMeaning(g: Group, columns: seq<ColumnRef>, snapshot: Snapshot)
    ensures CheckColumns(g, columns, snapshot).None? <==>
      forall k :: 0 <= k < |columns| ==> ColumnUsable(g, columns[k], snapshot)
  {
    if columns != [] {
      CheckColumnsMeaning(g, columns[1..], snapshot);
      assert forall k :: 1 <= k < |columns| ==> columns[k] == columns[1..][k - 1];
      assert (forall k :: 0 <= k < |columns| ==> ColumnUsable(g, columns[k], snapshot)) ==>
        forall k :: 0 <= k < |columns[1..]| ==> ColumnUsable(g, columns[1..][k], snapshot) by {
        assert forall k :: 0 <= k < |columns[1..]| ==> columns[1..][k] == columns[k + 1];
      }
    }
  }

  ghost predicate GroupsUsable(groups: seq<GroupEntry>, snapshot: Snapshot) {
    forall i, r :: 0 <= i < |groups| && r in groups[i].group.columns ==>
      ColumnUsable(groups[i].group, r, snapshot)
  }

  lemma {:induction false} CheckGroupsMeaning(groups: seq<GroupEntry>, snapshot: Snapshot)
    ensures CheckGroups(groups, snapshot).None? <==> GroupsUsable(groups, snapshot)
  {
    if groups != [] {
      CheckGroupsMeaning(groups[1..], snapshot);
      CheckColumnsMeaning(groups[0].group, groups[0].group.columns, snapshot);
      assert GroupsUsable(groups, snapshot) ==> GroupsUsable(groups[1..], snapshot) by {
        assert forall i :: 0 <= i < |groups[1..]| ==> groups[1..][i] == groups[i + 1];
      }
      assert forall i :: 1 <= i < |groups| ==> groups[i] == groups[1..][i - 1];
    }
  }

  lemma {:induction false} CheckForeignKeysMeaning(fks: seq<ForeignKey>, groups: seq<GroupEntry>)
    requires DistinctIds(groups) && OneGroupPerColumn(groups)
    ensures CheckForeignKeys(fks, Membership(groups)).None? <==> forall fk :: fk in fks ==> OnePlace(fk, groups)
  {
    if fks != [] {
      ForeignKeyCoveredMeaning(fks[0], groups);
      CheckForeignKeysMeaning(fks[1..], groups);
    }
  }

  /** The validator accepts exactly the policies whose columns all exist with a fitting text type
      and whose relationships each sit in one place. */
  lemma ValidatorAcceptsExactly(p: Policy, snapshot: Snapshot)
    requires ValidPolicy(p)
    ensures ValidatePolicyAgainstSchema(p, snapshot).None? <==>
      && p.allowTargetRecreate
      && GroupsUsable(p.groups, snapshot)
      && forall fk :: fk in snapshot.foreignKeys ==> OnePlace(fk, p.groups)
  {
    CheckGroupsMeaning(p.groups, snapshot);
    CheckForeignKeysMeaning(snapshot.foreignKeys, p.groups);
  }
}
