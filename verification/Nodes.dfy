/** The two graph nodes that write the registry, as executions of the step machine. */
module Nodes {
  import opened Base
  import opened Policy
  import opened RegistryModel
  import opened GeneratorModel
  import opened Registry
  import opened RunModel
  import opened Graph
  import opened Database
  import Generator
  import Collector

  function CountIn(m: Mappings, id: string, assignedOnly: bool): nat {
    if assignedOnly then |AssignedIn(m, id)| else |KeysIn(m, id)|
  }

  /** sum(counts.values()). */
  function CountTotal(groups: seq<GroupEntry>, m: Mappings, assignedOnly: bool): nat {
    if groups == [] then 0
    else CountTotal(groups[..|groups| - 1], m, assignedOnly) + CountIn(m, groups[|groups| - 1].id, assignedOnly)
  }

  lemma {:induction false} CountTotalAssigned(groups: seq<GroupEntry>, m: Mappings)
    ensures CountTotal(groups, m, true) == AssignedTotal(groups, m)
  {
    if groups != [] {
      hide AssignedIn, KeysIn;
      CountTotalAssigned(groups[..|groups| - 1], m);
    }
  }

  /** The counts of a checkpoint: one entry for each of the first `n` groups. */
  ghost predicate CountsAre(groups: seq<GroupEntry>, n: nat, m: Mappings, assignedOnly: bool, counts: map<string, nat>)
    requires n <= |groups|
  {
    && counts.Keys == (set i | 0 <= i < n :: groups[i].id)
    && forall i | 0 <= i < n :: groups[i].id in counts && counts[groups[i].id] == CountIn(m, groups[i].id, assignedOnly)
  }

  lemma CountsStart(groups: seq<GroupEntry>, m: Mappings, assignedOnly: bool)
    ensures CountsAre(groups, 0, m, assignedOnly, map[]) && CountTotal(groups[..0], m, assignedOnly) == 0
  {
  }

  lemma CountsStep(groups: seq<GroupEntry>, i: nat, m: Mappings, assignedOnly: bool, counts: map<string, nat>)
    requires DistinctIds(groups) && i < |groups| && CountsAre(groups, i, m, assignedOnly, counts)
    ensures CountsAre(groups, i + 1, m, assignedOnly, counts[groups[i].id := CountIn(m, groups[i].id, assignedOnly)])
    ensures CountTotal(groups[..i + 1], m, assignedOnly)
         == CountTotal(groups[..i], m, assignedOnly) + CountIn(m, groups[i].id, assignedOnly)
  {
    hide CountIn;
    assert groups[..i + 1][..i] == groups[..i];
  }

  /** `mapping_count` of every group, and the sum of the counts. */
  method CountMappings(groups: seq<GroupEntry>, registry: MappingRegistry, assignedOnly: bool)
    returns (counts: map<string, nat>, total: nat)
    requires DistinctIds(groups) && forall i :: 0 <= i < |groups| ==> groups[i].id != ""
    ensures CountsAre(groups, |groups|, registry.mappings, assignedOnly, counts)
    ensures total == CountTotal(groups, registry.mappings, assignedOnly)
  {
    hide AssignedIn, KeysIn, CountsAre, CountTotal, DistinctIds;
    counts, total := map[], 0;
    CountsStart(groups, registry.mappings, assignedOnly);
    for i := 0 to |groups|
      invariant CountsAre(groups, i, registry.mappings, assignedOnly, counts)
      invariant total == CountTotal(groups[..i], registry.mappings, assignedOnly)
    {
      var count := registry.MappingCount(groups[i].id, assignedOnly);
      CountsStep(groups, i, registry.mappings, assignedOnly, counts);
      counts := counts[groups[i].id := count.value];
      total := total + count.value;
    }
    assert groups[..|groups|] == groups;
  }

  datatype NodeFault = RegistryRefused | InvalidSourceValue | GenerationExhausted | NoEvidence

  /** `collect_mapping_keys_node`. */
  method CollectMappingKeysNode(x: Context, connection: Collector.Connection, fetchSize: nat, registry: MappingRegistry,
                                metadata: Metadata)
    returns (r: Result<seq<Collector.GroupStats>, NodeFault>, counts: map<string, nat>, ghost made: seq<Commit>)
    requires ContextOk(x) && Collecting(x, registry.Contents())
    requires forall i :: 0 <= i < |x.groups| ==> Collector.Reads(connection, x.db, x.groups[i].group.columns)
    modifies registry
    ensures CollectTraced(x.crypto, x.groups, x.db, old(registry.Contents()), made, registry.Contents())
    ensures Collecting(x, registry.Contents())
    ensures r.Success? || r.error == InvalidSourceValue ==> (r.Success? <==> SourceNormalizable(x))
    ensures r.Success? ==> CountsAre(x.groups, |x.groups|, registry.mappings, false, counts)
    ensures Execution(x, World(old(registry.Contents()), Node.CollectMappingKeys, None), made,
      World(registry.Contents(), if r.Success? then GenerateReplacements else Node.CollectMappingKeys, None))
  {
    hide Collecting, CollectTraced, CollectTrace, SourceKeys, KeysIn, Collector.Reads, GroupNormalizable, OneToOne,
      KeysWithin, CountsAre;
    ghost var start := registry.Contents();
    made, counts := [], map[];
    CollectTracedStart(x.crypto, x.groups, x.db, start);
    var initialized := registry.Initialize(metadata);
    if initialized.Failure? { return Failure(RegistryRefused), counts, made; }
    ghost var open := if start.meta == [] then Opened(metadata) else StatsRowEnsured;
    CollectTracedExtends(x.crypto, x.groups, x.db, start, made, start, open);
    made := made + [open];
    ghost var mid := registry.Contents();
    var collector := new Collector.MappingCollector(registry, x.crypto, connection, fetchSize, x.groups, x.db);
    var collected, stretch := collector.CollectMappingKeys(x.groups);
    CollectTracedJoins(x.crypto, x.groups, x.db, start, made, mid, stretch, registry.Contents());
    made := made + stretch;
    TraceCollects(x, start, made, registry.Contents());
    if collected.Failure? { return Failure(InvalidSourceValue), counts, made; }
    AllInserted(x, mid.mappings);
    assert SourceNormalizable(x);
    var total;
    counts, total := CountMappings(x.groups, registry, false);
    return Success(collected.value), counts, made;
  }

  lemma TraceCollects(x: Context, start: Tables, made: seq<Commit>, now: Tables)
    requires ContextOk(x) && Collecting(x, start) && CollectTraced(x.crypto, x.groups, x.db, start, made, now)
    ensures Collecting(x, now)
  {
    CollectTraceKeeps(x, start, made);
  }

  lemma AllInserted(x: Context, m: Mappings)
    requires ContextOk(x)
    ensures SourceCollected(x, Collector.InsertGroups(x.crypto, x.db, m, x.groups))
  {
    hide SourceKeys, KeysIn;
    forall i | 0 <= i < |x.groups|
      ensures SourceKeys(x.crypto, x.db, x.groups[i].id, x.groups[i].group)
           <= KeysIn(Collector.InsertGroups(x.crypto, x.db, m, x.groups), x.groups[i].id)
    {
      Collector.InsertGroupsKeys(x.crypto, x.db, m, x.groups, i);
    }
  }

  lemma SortedEntryIsGroup(groups: seq<GroupEntry>, i: nat)
    requires i < |SortEntries(groups)|
    ensures IsGroup(groups, SortEntries(groups)[i].id, SortEntries(groups)[i].group)
    ensures |SortEntries(groups)| == |groups|
  {
    hide SortBy;
    var e := SortEntries(groups)[i];
    assert e in multiset(SortEntries(groups));
    assert e in groups;
    assert |multiset(SortEntries(groups))| == |multiset(groups)|;
  }

  lemma EveryEntrySorted(groups: seq<GroupEntry>, m: Mappings)
    requires forall i :: 0 <= i < |SortEntries(groups)| ==> PendingIn(m, SortEntries(groups)[i].id) == {}
    ensures forall i :: 0 <= i < |groups| ==> PendingIn(m, groups[i].id) == {}
  {
    hide SortBy, PendingIn;
    forall i | 0 <= i < |groups| ensures PendingIn(m, groups[i].id) == {} {
      assert groups[i] in multiset(SortEntries(groups));
      assert groups[i] in SortEntries(groups);
    }
  }

  /** What the next group's generator call needs, and what it leaves for the others. */
  lemma ReadyForGroup(x: Context, start: Tables, made: seq<Commit>, now: Tables, id: string, g: Group)
    requires ContextOk(x) && Generating(x, start) && Traced(x.crypto, x.groups, start, made, now)
    requires IsGroup(x.groups, id, g)
    ensures Generating(x, now) && OneToOne(now.mappings) && Faithful(x.crypto, id, g, now.mappings) && id != ""
    ensures Requested(made) ==> now.stats.Some? && now.stats.value.batches >= 1
  {
    GenerateTraceKeeps(x, start, made);
    var i :| 0 <= i < |x.groups| && x.groups[i] == GroupEntry(id, g);
    assert Faithful(x.crypto, x.groups[i].id, x.groups[i].group, now.mappings);
  }

  lemma StillGenerating(x: Context, start: Tables, made: seq<Commit>, now: Tables)
    requires ContextOk(x) && Generating(x, start) && Traced(x.crypto, x.groups, start, made, now)
    ensures Generating(x, now)
  {
    GenerateTraceKeeps(x, start, made);
  }

  lemma GroupFilled(c: Crypto, id: string, g: Group, start: Mappings, values: seq<string>, now: Mappings)
    requires OneToOne(start) && Faithful(c, id, g, start) && GroupProgress(c, id, g, start, values, now)
    requires |values| == |PendingIn(start, id)|
    ensures PendingIn(now, id) == {}
    ensures forall other :: other != id ==> PendingIn(now, other) == PendingIn(start, other)
  {
    hide SortedList, PendingIn, OneToOne, Faithful, GroupProgress;
    GroupProgressMeaning(c, id, g, start, values, now);
    assert |SortedList(PendingIn(now, id))| == 0;
    assert |PendingIn(now, id)| == 0;
  }

  /** The groups one after the other, in ascending order of identifier. */
  method GenerateGroups(x: Context, generator: Generator.ReplacementGenerator, registry: MappingRegistry)
    returns (ok: bool, ghost made: seq<Commit>)
    requires ContextOk(x) && Generating(x, registry.Contents()) && registry.stats.Some?
    requires generator.registry == registry && generator.crypto == x.crypto && generator.groups == x.groups
    requires generator.batchSize >= 1 && generator.batches == 0
    modifies generator, generator.provider, registry
    ensures Traced(x.crypto, x.groups, old(registry.Contents()), made, registry.Contents()) && registry.stats.Some?
    ensures Requested(made) <==> generator.batches >= 1
    ensures ok ==> NothingPending(x, registry.mappings)
  {
    hide Generating, Traced, Requested, GroupProgress, PendingIn, ContextOk, CeilDiv, SortBy, SortEntries, IsGroup,
      OneToOne, Faithful, GroupOutcome, Drop;
    ghost var start := registry.Contents();
    var entries := SortEntries(x.groups);
    made := [];
    TracedStart(x.crypto, x.groups, start);
    Generator.ReplacementGenerator.RequestedLast([]);
    for i := 0 to |entries|
      invariant Traced(x.crypto, x.groups, start, made, registry.Contents()) && registry.stats.Some?
      invariant Requested(made) <==> generator.batches >= 1
      invariant forall j :: 0 <= j < i ==> PendingIn(registry.mappings, entries[j].id) == {}
    {
      SortedEntryIsGroup(x.groups, i);
      var e := entries[i];
      ReadyForGroup(x, start, made, registry.Contents(), e.id, e.group);
      ghost var mid := registry.Contents();
      var outcome, values, k, stretch, rounds := generator.GenerateGroup(e.id, e.group);
      TracedJoins(x.crypto, x.groups, start, made, mid, stretch, registry.Contents());
      RequestedJoins(made, stretch);
      made := made + stretch;
      if outcome.Failure? { return false, made; }
      GroupFilled(x.crypto, e.id, e.group, mid.mappings, values, registry.mappings);
    }
    EveryEntrySorted(x.groups, registry.mappings);
    return true, made;
  }

  /** `generate_replacements_agent_node`. */
  method GenerateReplacementsNode(x: Context, registry: MappingRegistry, provider: Generator.ScriptedProvider,
                                  batchSize: nat, maxRetries: nat, metadata: Metadata, previous: Option<Evidence>)
    returns (r: Result<Evidence, NodeFault>, ghost made: seq<Commit>)
    requires ContextOk(x) && Generating(x, registry.Contents()) && batchSize >= 1
    modifies registry, provider
    ensures Traced(x.crypto, x.groups, old(registry.Contents()), made, registry.Contents())
    ensures Generating(x, registry.Contents())
    ensures Execution(x, World(old(registry.Contents()), GenerateReplacements, previous), made,
      if r.Success? then World(registry.Contents(), BuildGreenmaskConfig, Some(r.value))
      else World(registry.Contents(), GenerateReplacements, previous))
    ensures r == Failure(NoEvidence) && previous.None? ==> SourceEmpty(x)
  {
    hide Generating, Traced, Requested, PendingIn, NothingPending, AssignedTotal, SourceEmpty, CountsAre, CountTotal;
    ghost var start := registry.Contents();
    made := [];
    TracedStart(x.crypto, x.groups, start);
    Generator.ReplacementGenerator.RequestedLast([]);
    var initialized := registry.Initialize(metadata);
    if initialized.Failure? { return Failure(RegistryRefused), made; }
    ghost var open := if start.meta == [] then Opened(metadata) else StatsRowEnsured;
    TracedExtends(x.crypto, x.groups, start, made, start, open);
    ghost var head := made + [open];
    OpenOnly(open);
    ghost var mid := registry.Contents();
    StillGenerating(x, start, head, mid);
    var generator := new Generator.ReplacementGenerator(provider, registry, x.crypto, batchSize, maxRetries, x.groups);
    var ok, stretch := GenerateGroups(x, generator, registry);
    TracedJoins(x.crypto, x.groups, start, head, mid, stretch, registry.Contents());
    RequestedJoins(head, stretch);
    made := head + stretch;
    StillGenerating(x, start, made, registry.Contents());
    if !ok { return Failure(GenerationExhausted), made; }
    var stored := registry.stats.value;
    var counts, total := CountMappings(x.groups, registry, true);
    CountTotalAssigned(x.groups, registry.mappings);
    var accepted := Max(stored.accepted, total);
    var evidence := if generator.batches == 0 && previous.Some? then previous.value
      else Evidence(stored.batches, accepted, stored.rejected);
    if evidence.batches < 1 {
      if previous.None? { NoEvidenceMeans(x, start, made, registry.Contents()); }
      return Failure(NoEvidence), made;
    }
    return Success(evidence), made;
  }

  lemma OpenOnly(open: Commit)
    requires open.Opened? || open.StatsRowEnsured?
    ensures !Requested([open]) && [] + [open] == [open]
  {
  }

  lemma NoEvidenceMeans(x: Context, start: Tables, made: seq<Commit>, now: Tables)
    requires ContextOk(x) && Generating(x, start) && Traced(x.crypto, x.groups, start, made, now)
    requires NothingPending(x, now.mappings) && now.stats.Some? && now.stats.value.batches < 1
    ensures SourceEmpty(x)
  {
    hide Replay, GenerateTrace, Requested, SourceEmpty, NothingPending, Generating, ContextOk;
    EvidenceExactly(x, start, made);
  }
}
