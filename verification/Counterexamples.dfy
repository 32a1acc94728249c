/** Concrete inputs for the claims that are false of the program, each reached by its own transactions. */
module Counterexamples {
  import opened Base
  import opened Policy
  import opened RegistryModel
  import opened Registry
  import opened GeneratorModel
  import opened Database
  import opened RunModel
  import opened VerifierModel
  import opened Scans
  import opened Graph
  import opened DataPlane
  import opened Cardinality
  import opened AggregateChecks
  import Integrity

  function Zeros(): (h: Hmac) ensures h[0] == '0' {
    assert HEX_DIGITS[0] == '0';
    seq(64, _ => '0')
  }

  function Ones(): (h: Hmac) ensures h[0] == '1' {
    assert HEX_DIGITS[1] == '1';
    seq(64, _ => '1')
  }

  /** Engines for which "A" is a spelling of "a" and every other text is its own normal form. */
  function Canonical(kind: Kind, text: string): string { if text == "A" then "a" else text }

  function Digest(group: string, text: string): Hmac { if text == "a" then Zeros() else Ones() }

  function FullMatch(regex: string, text: string): bool { true }

  const ENGINES := Crypto(Digest, Canonical, FullMatch)

  const TABLE := TableRef("app", "person")

  const COLUMN := ColumnRef("app", "person", "name")

  const NAMES := Group(PersonName, Settings(HumanText, true), 1, 10, None, [COLUMN])

  const GROUPS := [GroupEntry("names", NAMES)]

  /** One table whose only column is its primary key, with two spellings of one name. */
  const PERSONS: Database := map[TABLE := [map["name" := Text("A")], map["name" := Text("a")]]]

  const TWO_SPELLINGS := Context(ENGINES, GROUPS, PERSONS)

  const KEY := KeyConstraint(PrimaryKey, TABLE, ["name"])

  const METADATA := Metadata("run", "policy", "schema", "fake", "test-fake", "key", "initialized")

  const ITEM := Assignment(Zeros(), "B", Ones())

  // ----- a run that maps both spellings to one replacement -----

  const OPEN_TABLES := Tables([METADATA], map[], Some(Stats(0, 0, 0)), map[])

  const COLLECTED := Tables([METADATA], map[Key("names", Zeros()) := BLANK], Some(Stats(0, 0, 0)), map[])

  const ASKED := Tables([METADATA], map[Key("names", Zeros()) := BLANK], Some(Stats(1, 0, 0)), map[])

  const MAPPED: Mappings := map[Key("names", Zeros()) := Cell(Some("B"), Some(Ones()))]

  const GENERATED := Tables([METADATA], MAPPED, Some(Stats(1, 1, 0)), map[])

  const RUN := [
    START,
    World(EMPTY_TABLES, InspectSchema, None),
    World(EMPTY_TABLES, CollectMappingKeys, None),
    World(COLLECTED, GenerateReplacements, None),
    World(GENERATED, BuildGreenmaskConfig, Some(Evidence(1, 1, 0)))]

  lemma KeysOfBoth()
    ensures KeyOf(ENGINES, "names", NAMES.settings, Text("A")) == Some(Zeros())
    ensures KeyOf(ENGINES, "names", NAMES.settings, Text("a")) == Some(Zeros())
    ensures ValueKey(ENGINES, "names", NAMES, "B") == Some(Ones()) && ValidValue(ENGINES, NAMES, "B")
  {
  }

  lemma NameColumn()
    ensures Column(PERSONS, COLUMN) == [Text("A"), Text("a")]
    ensures TableOf(COLUMN) == TABLE
  {
    assert RowsOf(PERSONS, TABLE) == [map["name" := Text("A")], map["name" := Text("a")]];
  }

  lemma BothKeys()
    ensures ValueKeys(ENGINES, "names", NAMES.settings, [Text("A"), Text("a")]) == {Zeros()}
    ensures Normalizable(ENGINES, NAMES.settings, [Text("A"), Text("a")])
  {
    KeysOfBoth();
    var values := [Text("A"), Text("a")];
    hide KeyOf, Normalize;
    forall v | v in values ensures v == Text("A") || v == Text("a") { }
    assert values[0] in values;
    Normalized();
  }

  lemma Normalized()
    ensures Normalize(ENGINES, NAMES.settings, Text("A")) == Normalize(ENGINES, NAMES.settings, Text("a")) == Some("a")
  {
  }

  lemma NameKeys()
    ensures SourceKeys(ENGINES, PERSONS, "names", NAMES) == {Zeros()}
    ensures GroupNormalizable(ENGINES, PERSONS, NAMES)
  {
    NameColumn();
    BothKeys();
    assert COLUMN in NAMES.columns;
    hide ValueKeys, Column, Normalizable, Digest, Canonical;
    assert SourceKeys(ENGINES, PERSONS, "names", NAMES) == {Zeros()};
  }

  lemma CollectTraceIs()
    ensures CollectTraced(ENGINES, GROUPS, PERSONS, EMPTY_TABLES,
                          [] + [Opened(METADATA)] + [Inserted("names", [Zeros()])], COLLECTED)
  {
    var c, t := ENGINES, EMPTY_TABLES;
    NameKeys();
    assert IsGroup(GROUPS, "names", NAMES) by { assert GROUPS[0] == GroupEntry("names", NAMES); }
    InsertedKey();
    assert Apply(t, Opened(METADATA)) == OPEN_TABLES;
    assert Apply(OPEN_TABLES, Inserted("names", [Zeros()])) == COLLECTED;
    hide SourceKeys, GroupNormalizable, Digest, Canonical, CollectTraced, Apply, IsGroup;
    CollectTracedStart(c, GROUPS, PERSONS, t);
    CollectTracedExtends(c, GROUPS, PERSONS, t, [], t, Opened(METADATA));
    CollectTracedExtends(c, GROUPS, PERSONS, t, [] + [Opened(METADATA)], OPEN_TABLES, Inserted("names", [Zeros()]));
  }

  lemma Collects()
    ensures Execution(TWO_SPELLINGS, RUN[2], [] + [Opened(METADATA)] + [Inserted("names", [Zeros()])], RUN[3])
  {
    CollectTraceIs();
    KeysInCollected();
    hide CollectTrace, Replay, SourceCollected, SourceNormalizable, Zeros;
  }

  lemma InsertedKey()
    ensures InsertAll(map[], "names", Elements([Zeros()])) == map[Key("names", Zeros()) := BLANK]
  {
    var keys := Elements([Zeros()]);
    assert keys == {Zeros()};
    assert Key("names", Zeros()) in NewKeys("names", keys);
  }

  lemma KeysInCollected()
    ensures SourceCollected(TWO_SPELLINGS, COLLECTED.mappings) && SourceNormalizable(TWO_SPELLINGS)
  {
    NameKeys();
    hide SourceKeys, GroupNormalizable;
    KeysInMeans(COLLECTED.mappings, "names", Zeros());
  }

  lemma ItemAccepted()
    ensures AssignOk(COLLECTED.mappings, "names", [ITEM])
    ensures AssignAll(COLLECTED.mappings, "names", [ITEM]) == MAPPED
    ensures BatchFaithful(ENGINES, GROUPS, "names", [ITEM])
  {
    KeysOfBoth();
    AssignAllStep(COLLECTED.mappings, "names", [ITEM], 0);
    assert [ITEM][..1] == [ITEM] && [ITEM][..0] == [];
    assert IsGroup(GROUPS, "names", NAMES) by { assert GROUPS[0] == GroupEntry("names", NAMES); }
    assert ItemsFaithful(ENGINES, "names", NAMES, [ITEM]);
  }

  lemma GenerateTraceIs()
    ensures Traced(ENGINES, GROUPS, COLLECTED, [] + [Recorded(1, 0, 0)] + [Assigned("names", [ITEM], true)], GENERATED)
    ensures Requested([] + [Recorded(1, 0, 0)] + [Assigned("names", [ITEM], true)])
  {
    var c, t := ENGINES, COLLECTED;
    ItemAccepted();
    assert SomePending(t.mappings) by { assert Key("names", Zeros()) in t.mappings; }
    assert Apply(t, Recorded(1, 0, 0)) == ASKED;
    assert Apply(ASKED, Assigned("names", [ITEM], true)) == GENERATED;
    hide AssignOk, AssignAll, BatchFaithful, SomePending, Digest, Canonical, Zeros, Ones, Traced, Apply, Requested;
    TracedStart(c, GROUPS, t);
    TracedExtends(c, GROUPS, t, [], t, Recorded(1, 0, 0));
    TracedExtends(c, GROUPS, t, [] + [Recorded(1, 0, 0)], ASKED, Assigned("names", [ITEM], true));
  }

  lemma Generates()
    ensures Execution(TWO_SPELLINGS, RUN[3], [] + [Recorded(1, 0, 0)] + [Assigned("names", [ITEM], true)], RUN[4])
  {
    GenerateTraceIs();
    NothingLeft();
    hide GenerateTrace, Replay, Requested, NothingPending, NodeEvidence, Zeros, Ones;
  }

  lemma NothingLeft()
    ensures NothingPending(TWO_SPELLINGS, MAPPED)
    ensures NodeEvidence(TWO_SPELLINGS, None, true, GENERATED) == Some(Evidence(1, 1, 0))
  {
    assert PendingIn(MAPPED, "names") == {};
    assert AssignedIn(MAPPED, "names") == {Zeros()} by { assert Key("names", Zeros()) in MAPPED; }
    assert GROUPS[..0] == [];
    assert AssignedTotal(GROUPS, MAPPED) == 1;
  }

  lemma StepsAre()
    ensures Step(TWO_SPELLINGS, RUN[0], RUN[1]) && Step(TWO_SPELLINGS, RUN[1], RUN[2])
    ensures Step(TWO_SPELLINGS, RUN[2], RUN[3]) && Step(TWO_SPELLINGS, RUN[3], RUN[4])
  {
    Collects();
    Generates();
    hide CollectTrace, GenerateTrace, SourceCollected, SourceNormalizable, GenerateFinished, Requested;
    assert Quiet([]) && Replay(EMPTY_TABLES, []) == EMPTY_TABLES;
    assert Execution(TWO_SPELLINGS, RUN[0], [], RUN[1]);
    assert Execution(TWO_SPELLINGS, RUN[1], [], RUN[2]);
  }

  lemma PolicyIs()
    ensures PolicyOk(TWO_SPELLINGS) && RowsComplete(TWO_SPELLINGS)
    ensures GroupForColumn(GROUPS, COLUMN) == Some("names")
  {
    hide SettingsMap, Digest, Canonical;
    assert GROUPS[1..] == [];
    forall r | GroupForColumn(GROUPS, r).Some? ensures r == COLUMN {
      var i := Integrity.GroupIndex(GROUPS, r);
      assert GROUPS[i] == GroupEntry("names", NAMES) && r in NAMES.columns;
    }
  }

  lemma RunIs()
    ensures Run(TWO_SPELLINGS, RUN)
  {
    StepsAre();
    hide Step;
    forall i | 0 <= i && i + 1 < |RUN| ensures Step(TWO_SPELLINGS, RUN[i], RUN[i + 1]) {
      assert i == 0 || i == 1 || i == 2 || i == 3;
    }
  }

  /** The registry is reached by a run without any interruption, and it is a ready one. */
  lemma SpellingsRun()
    ensures Run(TWO_SPELLINGS, RUN) && RUN[4].next == BuildGreenmaskConfig && RUN[4].tables.mappings == MAPPED
    ensures Ready(TWO_SPELLINGS, MAPPED) && PolicyOk(TWO_SPELLINGS) && RowsComplete(TWO_SPELLINGS)
  {
    RunIs();
    PolicyIs();
    hide Ready, Run, ContextOk, RowsComplete, OneGroupPerColumn;
    RunLeavesReady(TWO_SPELLINGS, RUN);
  }

  // ----- what is lost there -----

  lemma NameForms()
    ensures NormalForms(ENGINES, NAMES.settings, Column(PERSONS, COLUMN)) == {"a"}
    ensures FormsSeparate(TWO_SPELLINGS) && !OneSpelling(TWO_SPELLINGS, 0, COLUMN) && !SpellingsUnique(TWO_SPELLINGS)
  {
    NameColumn();
    var values := Column(PERSONS, COLUMN);
    hide Column, Digest;
    assert values[0] == Text("A") && values[1] == Text("a");
    var forms := NormalForms(ENGINES, NAMES.settings, values);
    assert forms == {"a"} by {
      assert values[1] in values;
      assert Normalize(ENGINES, NAMES.settings, values[1]) == Some("a");
    }
    var f := v => NormalValue(ENGINES, NAMES.settings, v);
    assert values[0] in DistinctValues(values) && values[1] in DistinctValues(values) && f(values[0]) == f(values[1]);
    assert GROUPS[0].group == NAMES && COLUMN in NAMES.columns;
  }

  lemma KeysMerge()
    ensures KeyHolds(PERSONS, KEY)
    ensures !UniqueHolds(KeysUpToSpelling(TWO_SPELLINGS, TABLE, ["name"]))
  {
    PolicyIs();
    SettingsMapHas(GROUPS, 0);
    assert RowsOf(PERSONS, TABLE) == [map["name" := Text("A")], map["name" := Text("a")]];
    var keys, forms := RowKeys(PERSONS, TABLE, ["name"]), KeysUpToSpelling(TWO_SPELLINGS, TABLE, ["name"]);
    hide GroupForColumn, SettingsMap, Digest;
    assert keys[0] == [Text("A")] && keys[1] == [Text("a")];
    assert RefOf(TABLE, "name") == COLUMN;
    assert forms[0] == [Text("a")] && forms[1] == [Text("a")];
  }

  /** A declared primary key that holds in the source is lost, and the statistics check refuses the
      column, after an honest run: both spellings get one replacement. */
  lemma MergedSpellings(schemas: Schemas)
    requires ColumnFor(schemas.sourceColumns, COLUMN).Some? && ColumnFor(schemas.targetColumns, COLUMN).Some?
    ensures Ready(TWO_SPELLINGS, MAPPED) && PolicyOk(TWO_SPELLINGS) && FormsSeparate(TWO_SPELLINGS)
    ensures KeyHolds(PERSONS, KEY) && !KeyHolds(ImageDatabase(TWO_SPELLINGS, MAPPED), KEY)
    ensures !StatsAgree(StatsOf(schemas, COLUMN, PERSONS, ImageDatabase(TWO_SPELLINGS, MAPPED)))
    ensures !SpellingsUnique(TWO_SPELLINGS)
  {
    hide *;
    SpellingsRun();
    NameForms();
    KeysMerge();
    ContextIs();
    FormsSeparateInTable(TWO_SPELLINGS, KEY.table);
    KeySurvivesExactly(TWO_SPELLINGS, MAPPED, KEY);
    ColumnSeparate();
    HonestStatisticsExactly(TWO_SPELLINGS, MAPPED, schemas, 0, COLUMN);
    SpellingMeans();
  }

  lemma ContextIs()
    ensures TWO_SPELLINGS.db == PERSONS && TWO_SPELLINGS.groups == GROUPS && TWO_SPELLINGS.crypto == ENGINES
    ensures |GROUPS| == 1 && GROUPS[0] == GroupEntry("names", NAMES) && COLUMN in NAMES.columns
    ensures KEY == KeyConstraint(PrimaryKey, TABLE, ["name"])
  {
  }

  lemma ColumnSeparate()
    ensures InjectiveOn(ENGINES, "names", NormalForms(ENGINES, NAMES.settings, Column(PERSONS, COLUMN)))
  {
    NameForms();
  }

  lemma SpellingMeans()
    ensures OneSpelling(TWO_SPELLINGS, 0, COLUMN) <==>
      InjectiveFor(DistinctValues(Column(PERSONS, COLUMN)), v => NormalValue(ENGINES, NAMES.settings, v))
  {
    hide Column, DistinctValues, NormalValue, InjectiveFor;
  }

  // ----- a source without values -----

  /** The same policy on an empty database. */
  const NO_PERSONS := Context(ENGINES, GROUPS, map[TABLE := []])

  /** Collection and generation of an empty source leave nothing pending, and generation is refused all
      the same: there is no evidence of a request. */
  lemma EmptySourceRefused()
    ensures ContextOk(NO_PERSONS) && Generating(NO_PERSONS, OPEN_TABLES)
    ensures GenerateTrace(ENGINES, GROUPS, OPEN_TABLES, []) && NothingPending(NO_PERSONS, OPEN_TABLES.mappings)
    ensures forall e :: !GenerateFinished(NO_PERSONS, None, Requested([]), OPEN_TABLES, e)
  {
    assert RowsOf(NO_PERSONS.db, TABLE) == [];
    assert Column(NO_PERSONS.db, COLUMN) == [];
    assert SourceKeys(ENGINES, NO_PERSONS.db, "names", NAMES) == {};
    assert |AssignedKeys(OPEN_TABLES.mappings)| == 0;
    hide Digest, Canonical;
    forall e ensures !GenerateFinished(NO_PERSONS, None, Requested([]), OPEN_TABLES, e) {
      assert NodeEvidence(NO_PERSONS, None, Requested([]), OPEN_TABLES).value.batches == 0;
    }
  }
}
