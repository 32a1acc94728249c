/** The SQLite-backed mapping registry. Every `with connection` block is one committed transaction;
    the ghost field `commits` lists them in order, so a crash is a prefix of that list. */
module Registry {
  import opened Base
  import opened RegistryModel
  import opened WorkTable

  datatype Commit =
    | Opened(metadata: Metadata)
    | StatsRowEnsured
    | Inserted(group: string, hmacs: seq<string>)
    | Assigned(group: string, batch: seq<Assignment>, counted: bool)
    | Recorded(batches: nat, accepted: nat, rejected: nat)
    | Worked(work: Work)

  function WithStatsRow(t: Tables): Tables {
    if t.stats.None? then t.(stats := Some(Stats(0, 0, 0))) else t
  }

  function AddStats(t: Tables, batches: nat, accepted: nat, rejected: nat): Tables {
    match t.stats
    case None => t
    case Some(s) =>
      t.(stats := Some(Stats(s.batches + batches, s.accepted + accepted, s.rejected + rejected)))
  }

  /** The durable effect of one transaction. */
  function Apply(t: Tables, c: Commit): Tables {
    match c
    case Opened(metadata) => WithStatsRow(t.(meta := t.meta + [metadata]))
    case StatsRowEnsured => WithStatsRow(t)
    case Inserted(group, hmacs) => t.(mappings := InsertAll(t.mappings, group, Elements(hmacs)))
    case Assigned(group, batch, counted) =>
      var t' := t.(mappings := AssignAll(t.mappings, group, batch));
      if counted then AddStats(t', 0, |batch|, 0) else t'
    case Recorded(batches, accepted, rejected) => AddStats(t, batches, accepted, rejected)
    case Worked(work) => t.(work := work)
  }

  function Replay(t: Tables, commits: seq<Commit>): Tables {
    if commits == [] then t
    else Apply(Replay(t, commits[..|commits| - 1]), commits[|commits| - 1])
  }

  lemma ReplayOne(t: Tables, commits: seq<Commit>, c: Commit)
    ensures Replay(t, commits + [c]) == Apply(Replay(t, commits), c)
  {
    assert (commits + [c])[..|commits|] == commits;
  }

  lemma {:induction false} ReplayAppend(t: Tables, a: seq<Commit>, b: seq<Commit>)
    ensures Replay(t, a + b) == Replay(Replay(t, a), b)
  {
    if b == [] {
      assert a + b == a;
    } else {
      var n := |b| - 1;
      assert (a + b)[..|a + b| - 1] == a + b[..n];
      ReplayAppend(t, a, b[..n]);
    }
  }

  /** What any caller can make the registry commit: valid keys, accepted batches, anything else. */
  ghost predicate Committable(t: Tables, e: Commit) {
    match e
    case Inserted(group, hmacs) => forall h :: h in hmacs ==> ValidKey(group, h)
    case Assigned(group, batch, _) => AssignOk(t.mappings, group, batch)
    case _ => true
  }

  ghost predicate RegistryTrace(t: Tables, commits: seq<Commit>) {
    commits == [] ||
    var n := |commits| - 1;
    RegistryTrace(t, commits[..n]) && Committable(Replay(t, commits[..n]), commits[n])
  }

  lemma CommitKeeps(t: Tables, e: Commit)
    requires OneToOne(t.mappings) && Committable(t, e)
    ensures OneToOne(Apply(t, e).mappings) && Grows(t.mappings, Apply(t, e).mappings)
  {
    hide OneToOne, Grows, InsertAll, AssignAll, AssignOk, ValidKey, AssignedKeys;
    match e {
      case Inserted(group, hmacs) =>
        InsertKeepsOneToOne(t.mappings, group, Elements(hmacs));
      case Assigned(group, batch, _) =>
        AssignKeeps(t.mappings, group, batch);
      case _ =>
        SameGrows(t.mappings);
    }
  }

  lemma SameGrows(m: Mappings)
    ensures Grows(m, m)
  {
  }

  /** After any sequence of committed operations, in any order, replacements and their digests are
      one-to-one and set together, no key is lost and no assignment is rewritten. */
  lemma {:induction false} TraceKeeps(t: Tables, commits: seq<Commit>)
    requires OneToOne(t.mappings) && RegistryTrace(t, commits)
    ensures OneToOne(Replay(t, commits).mappings) && Grows(t.mappings, Replay(t, commits).mappings)
  {
    hide OneToOne, Grows, Committable, Apply;
    if commits == [] {
      SameGrows(t.mappings);
    } else {
      var n := |commits| - 1;
      TraceKeeps(t, commits[..n]);
      CommitKeeps(Replay(t, commits[..n]), commits[n]);
      GrowsTransitive(t.mappings, Replay(t, commits[..n]).mappings, Replay(t, commits).mappings);
    }
  }

  predicate MetadataComplete(m: Metadata) {
    m.runId != "" && m.policySha != "" && m.schemaSha != "" && m.provider != ""
    && m.model != "" && m.keyFingerprint != "" && m.status != ""
  }

  ghost predicate KeysValid(group: string, batch: seq<Assignment>) {
    forall i :: 0 <= i < |batch| ==> ValidKey(group, batch[i].source) && ValidKey(group, batch[i].hmac)
  }

  ghost predicate ItemsWellFormed(group: string, batch: seq<Assignment>) {
    KeysValid(group, batch) && forall i :: 0 <= i < |batch| ==> batch[i].replacement != ""
  }

  ghost predicate NoRepeats(batch: seq<Assignment>) {
    forall i, j :: 0 <= i < j < |batch| ==>
      batch[i].source != batch[j].source && batch[i].replacement != batch[j].replacement
  }

  predicate RowAssignable(m: Mappings, group: string, a: Assignment) {
    && Key(group, a.source) in m && m[Key(group, a.source)].replacement.None?
    && Key(group, a.hmac) !in m
  }

  ghost predicate Unused(m: Mappings, group: string, a: Assignment) {
    !ReplacementUsed(m, group, a.replacement) && !HmacUsed(m, group, a.hmac)
  }

  /** What the transaction needs from the tables. */
  ghost predicate Assignable(m: Mappings, group: string, batch: seq<Assignment>) {
    && (forall i :: 0 <= i < |batch| ==> RowAssignable(m, group, batch[i]))
    && DistinctItems(batch)
    && (forall i :: 0 <= i < |batch| ==> Unused(m, group, batch[i]))
  }

  lemma AssignOkParts(m: Mappings, group: string, batch: seq<Assignment>)
    ensures AssignOk(m, group, batch) <==>
      ItemsWellFormed(group, batch) && NoRepeats(batch) && Assignable(m, group, batch)
  {
    if AssignOk(m, group, batch) {
      assert forall i :: 0 <= i < |batch| ==> ItemOk(m, group, batch[i]);
    }
  }

  lemma PrefixRefused(m: Mappings, group: string, batch: seq<Assignment>, i: nat)
    requires i < |batch|
    requires !Unused(m, group, batch[i]) || !DistinctItems(batch[..i + 1])
    ensures !(DistinctItems(batch) && forall j :: 0 <= j < |batch| ==> Unused(m, group, batch[j]))
  {
    if !DistinctItems(batch[..i + 1]) {
      assert forall j :: 0 <= j < i + 1 ==> batch[..i + 1][j] == batch[j];
    }
  }

  lemma InsertOneMore(m: Mappings, group: string, hmacs: seq<string>, i: nat)
    requires i < |hmacs|
    ensures var before := InsertAll(m, group, Elements(hmacs[..i]));
      var key := Key(group, hmacs[i]);
      InsertAll(m, group, Elements(hmacs[..i + 1])) == if key in before then before else before[key := BLANK]
  {
    assert hmacs[..i + 1] == hmacs[..i] + [hmacs[i]];
    assert Elements(hmacs[..i + 1]) == Elements(hmacs[..i]) + {hmacs[i]};
    InsertOne(m, group, Elements(hmacs[..i]), hmacs[i]);
  }

  /** SELECT COUNT(*) of the batch's keys that now hold a replacement. */
  function AssignedCount(m: Mappings, group: string, batch: seq<Assignment>): nat {
    |set a | a in batch && Lookup(m, group, a.source).Some? :: a.source|
  }

  /** The count made after the UPDATEs always equals the batch size. */
  lemma AllCounted(m: Mappings, group: string, batch: seq<Assignment>)
    requires DistinctItems(batch) && forall i :: 0 <= i < |batch| ==> RowAssignable(m, group, batch[i])
    ensures AssignedCount(AssignAll(m, group, batch), group, batch) == |batch|
  {
    hide AssignAll;
    AssignAllAt(m, group, batch);
    var m' := AssignAll(m, group, batch);
    assert forall i :: 0 <= i < |batch| ==> Lookup(m', group, batch[i].source).Some?;
    SourcesCount(batch);
    assert (set a | a in batch && Lookup(m', group, a.source).Some? :: a.source) == (set a | a in batch :: a.source);
  }

  lemma SourcesCount(batch: seq<Assignment>)
    requires DistinctItems(batch)
    ensures |set a | a in batch :: a.source| == |batch|
  {
    var sources := seq(|batch|, i requires 0 <= i < |batch| => batch[i].source);
    assert forall i :: 0 <= i < |batch| ==> sources[i] == batch[i].source;
    DistinctCount(sources);
    assert (set a | a in batch :: a.source) == Elements(sources);
  }

  class MappingRegistry {
    var meta: seq<Metadata>
    var mappings: Mappings
    var stats: Option<Stats>
    var work: Work
    ghost var commits: seq<Commit>

    ghost function Contents(): Tables
      reads this
    {
      Tables(meta, mappings, stats, work)
    }

    /** Open a registry file that holds the given tables. */
    constructor (file: Tables)
      ensures Contents() == file && commits == []
    {
      meta, mappings, stats, work := file.meta, file.mappings, file.stats, file.work;
      commits := [];
    }

    /** Create the run's metadata row, or refuse a run that does not match it. */
    method Initialize(metadata: Metadata) returns (r: Result<(), Fault>)
      modifies this
      ensures r.Success? <==> MetadataComplete(metadata) && (old(meta) == [] || old(meta) == [metadata])
      ensures r.Success? ==> meta == [metadata] && stats.Some?
      ensures r.Success? ==>
        var c := if old(meta) == [] then Opened(metadata) else StatsRowEnsured;
        commits == old(commits) + [c] && Contents() == Apply(old(Contents()), c)
      ensures r.Failure? ==> Contents() == old(Contents()) && commits == old(commits)
      ensures r.Failure? && MetadataComplete(metadata) ==> r.error == Incompatible
    {
      if !MetadataComplete(metadata) {
        return Failure(InvalidMetadata);
      }
      if |meta| == 0 {
        meta := [metadata];
        if stats.None? { stats := Some(Stats(0, 0, 0)); }
        commits := commits + [Opened(metadata)];
        return Success(());
      }
      if |meta| != 1 || meta[0] != metadata {
        return Failure(Incompatible);
      }
      if stats.None? { stats := Some(Stats(0, 0, 0)); }
      commits := commits + [StatsRowEnsured];
      return Success(());
    }

    /** INSERT OR IGNORE every key in one transaction; the result is how many were new. */
    method InsertSourceKeys(group: string, hmacs: seq<string>) returns (r: Result<nat, Fault>)
      modifies this
      ensures r.Success? <==> forall h :: h in hmacs ==> ValidKey(group, h)
      ensures r.Success? ==>
        && commits == old(commits) + [Inserted(group, hmacs)]
        && Contents() == Apply(old(Contents()), Inserted(group, hmacs))
        && r.value == |mappings| - |old(mappings)|
      ensures r.Failure? ==> Contents() == old(Contents()) && commits == old(commits) && r.error == InvalidKey
    {
      if exists h :: h in hmacs && !ValidKey(group, h) { return Failure(InvalidKey); }
      ghost var before := mappings;
      var stored := 0;
      assert InsertAll(before, group, {}) == before;
      for i := 0 to |hmacs|
        invariant mappings == InsertAll(before, group, Elements(hmacs[..i]))
        invariant stored == |mappings| - |before|
        invariant Contents() == old(Contents()).(mappings := mappings) && commits == old(commits)
      {
        InsertOneMore(before, group, hmacs, i);
        if Key(group, hmacs[i]) !in mappings {
          mappings := mappings[Key(group, hmacs[i]) := BLANK];
          stored := stored + 1;
        }
      }
      assert hmacs[..|hmacs|] == hmacs;
      commits := commits + [Inserted(group, hmacs)];
      return Success(stored);
    }

    /** The pending keys of a group in ascending order, at most `limit` of them. */
    method ListUnassigned(group: string, limit: Option<int>) returns (r: Result<seq<string>, Fault>)
      ensures r.Success? <==> group != "" && (limit.Some? ==> limit.value >= 1)
      ensures r.Success? ==>
        var all := SortedList(PendingIn(mappings, group));
        r.value == if limit.Some? then Take(all, limit.value) else all
    {
      if group == "" { return Failure(InvalidKey); }
      if limit.Some? && limit.value < 1 { return Failure(InvalidLimit); }
      var all := SortedList(PendingIn(mappings, group));
      return Success(if limit.Some? then Take(all, limit.value) else all);
    }

    /** The checks made on the batch alone, in item order. */
    static method CheckBatch(group: string, batch: seq<Assignment>) returns (fault: Option<Fault>)
      ensures fault.None? <==> ItemsWellFormed(group, batch) && NoRepeats(batch)
      ensures fault.Some? ==> fault.value == InvalidKey || fault.value == Conflict
      ensures (forall i :: 0 <= i < |batch| ==> ValidKey(group, batch[i].source) && ValidKey(group, batch[i].hmac)) ==>
        fault != Some(InvalidKey)
    {
      var sources: set<string>, replacements: set<string> := {}, {};
      for i := 0 to |batch|
        invariant sources == set j | 0 <= j < i :: batch[j].source
        invariant replacements == set j | 0 <= j < i :: batch[j].replacement
        invariant ItemsWellFormed(group, batch[..i]) && NoRepeats(batch[..i])
      {
        var a := batch[i];
        if !ValidKey(group, a.source) || !ValidKey(group, a.hmac) { return Some(InvalidKey); }
        if a.replacement == "" { return Some(Conflict); }
        if a.source in sources || a.replacement in replacements { return Some(Conflict); }
        sources, replacements := sources + {a.source}, replacements + {a.replacement};
      }
      assert batch[..|batch|] == batch;
      return None;
    }

    /** The SELECTs at the start of the transaction: every key registered and pending, no
        replacement digest a source key. */
    predicate RowsAssignable(group: string, batch: seq<Assignment>)
      reads this
    {
      forall i :: 0 <= i < |batch| ==> RowAssignable(mappings, group, batch[i])
    }

    /** The UPDATEs, each under the two unique indexes; false at the first violation. */
    method UpdateRows(group: string, batch: seq<Assignment>) returns (ok: bool)
      requires OneToOne(mappings) && RowsAssignable(group, batch) && NoRepeats(batch)
      modifies this`mappings
      ensures ok <==> DistinctItems(batch) && forall i :: 0 <= i < |batch| ==> Unused(old(mappings), group, batch[i])
      ensures ok ==> mappings == AssignAll(old(mappings), group, batch)
    {
      ghost var before := mappings;
      assert SourcesPending(before, group, batch) by {
        assert forall i :: 0 <= i < |batch| ==> RowAssignable(before, group, batch[i]);
      }
      for i := 0 to |batch|
        invariant mappings == AssignAll(before, group, batch[..i])
        invariant DistinctItems(batch[..i])
        invariant forall j :: 0 <= j < i ==> Unused(before, group, batch[j])
      {
        UniqueCheckMeaning(before, group, batch, i);
        if ReplacementUsed(mappings, group, batch[i].replacement) || HmacUsed(mappings, group, batch[i].hmac) {
          PrefixRefused(before, group, batch, i);
          return false;
        }
        AssignAllStep(before, group, batch, i);
        mappings := AssignOne(mappings, group, batch[i]);
      }
      assert batch[..|batch|] == batch;
      return true;
    }

    /** The transaction itself; a refused batch is rolled back. */
    method AssignTransaction(group: string, batch: seq<Assignment>, recordGeneratedItems: bool) returns (ok: bool)
      requires OneToOne(mappings) && NoRepeats(batch)
      modifies this
      ensures ok <==> Assignable(old(mappings), group, batch)
      ensures ok ==>
        var c := Assigned(group, batch, recordGeneratedItems);
        commits == old(commits) + [c] && Contents() == Apply(old(Contents()), c)
      ensures !ok ==> Contents() == old(Contents()) && commits == old(commits)
    {
      hide AssignAll, DistinctItems, Unused, OneToOne, NoRepeats, RowAssignable;
      if !RowsAssignable(group, batch) { return false; }
      var savedMappings := mappings;
      ok := UpdateRows(group, batch);
      if !ok {
        mappings := savedMappings;
        return;
      }
      AllCounted(savedMappings, group, batch);
      assert AssignedCount(mappings, group, batch) == |batch|;
      if recordGeneratedItems && stats.Some? {
        var s := stats.value;
        stats := Some(Stats(s.batches, s.accepted + |batch|, s.rejected));
      }
      commits := commits + [Assigned(group, batch, recordGeneratedItems)];
    }

    /** Assign a whole batch or nothing. */
    method AssignReplacements(group: string, batch: seq<Assignment>, recordGeneratedItems: bool)
      returns (r: Result<(), Fault>)
      requires OneToOne(mappings)
      modifies this
      ensures r.Success? <==> AssignOk(old(mappings), group, batch)
      ensures r.Success? && batch != [] ==>
        var c := Assigned(group, batch, recordGeneratedItems);
        commits == old(commits) + [c] && Contents() == Apply(old(Contents()), c)
      ensures r.Failure? || batch == [] ==> Contents() == old(Contents()) && commits == old(commits)
      ensures r.Failure? ==> r.error == InvalidKey || r.error == Conflict
      ensures r.Failure? && KeysValid(group, batch) ==> r.error == Conflict
    {
      if batch == [] { return Success(()); }
      AssignOkParts(mappings, group, batch);
      var fault := CheckBatch(group, batch);
      if fault.Some? { return Failure(fault.value); }
      var committed := AssignTransaction(group, batch, recordGeneratedItems);
      return if committed then Success(()) else Failure(Conflict);
    }

    /** Add to the persisted counters, when their row exists. */
    method RecordGenerationStats(batches: int, acceptedItems: int, rejectedItems: int) returns (r: Result<(), Fault>)
      modifies this
      ensures r.Success? <==> batches >= 0 && acceptedItems >= 0 && rejectedItems >= 0
      ensures r.Success? ==>
        var c := Recorded(batches, acceptedItems, rejectedItems);
        commits == old(commits) + [c] && Contents() == Apply(old(Contents()), c)
      ensures r.Failure? ==> Contents() == old(Contents()) && commits == old(commits)
    {
      if batches < 0 || acceptedItems < 0 || rejectedItems < 0 { return Failure(InvalidStats); }
      if stats.Some? {
        var s := stats.value;
        stats := Some(Stats(s.batches + batches, s.accepted + acceptedItems, s.rejected + rejectedItems));
      }
      commits := commits + [Recorded(batches, acceptedItems, rejectedItems)];
      return Success(());
    }

    method HasSourceKey(group: string, hmac: string) returns (r: Result<bool, Fault>)
      ensures r == if ValidKey(group, hmac) then Success(hmac in KeysIn(mappings, group)) else Failure(InvalidKey)
    {
      assert hmac in KeysIn(mappings, group) <==> Key(group, hmac) in mappings;
      return if ValidKey(group, hmac) then Success(Key(group, hmac) in mappings) else Failure(InvalidKey);
    }

    method HasReplacementHmac(group: string, hmac: string) returns (r: Result<bool, Fault>)
      ensures r == if ValidKey(group, hmac) then Success(HmacUsed(mappings, group, hmac)) else Failure(InvalidKey)
    {
      return if ValidKey(group, hmac) then Success(HmacUsed(mappings, group, hmac)) else Failure(InvalidKey);
    }

    method LookupReplacement(group: string, hmac: string) returns (r: Result<Option<string>, Fault>)
      ensures r == if ValidKey(group, hmac) then Success(Lookup(mappings, group, hmac)) else Failure(InvalidKey)
    {
      if !ValidKey(group, hmac) { return Failure(InvalidKey); }
      if Key(group, hmac) in mappings { return Success(mappings[Key(group, hmac)].replacement); }
      return Success(None);
    }

    method MappingCount(group: string, assignedOnly: bool) returns (r: Result<nat, Fault>)
      ensures r == if group == "" then Failure(InvalidKey)
        else Success(if assignedOnly then |AssignedIn(mappings, group)| else |KeysIn(mappings, group)|)
    {
      if group == "" { return Failure(InvalidKey); }
      return Success(if assignedOnly then |AssignedIn(mappings, group)| else |KeysIn(mappings, group)|);
    }

    /** Enter a work scope: the table is cleared first. */
    method OpenScope(group: string) returns (r: Result<VerificationHmacAccumulator, Fault>)
      modifies this`work, this`commits
      ensures r.Success? <==> group != ""
      ensures r.Success? ==>
        && fresh(r.value) && r.value.registry == this && r.value.group == group
        && r.value.Valid() && r.value.expected == multiset{} && r.value.actual == multiset{}
    {
      if group == "" { return Failure(InvalidKey); }
      work := map[];
      commits := commits + [Worked(map[])];
      var a := new VerificationHmacAccumulator(this, group);
      return Success(a);
    }

    /** Leave the scope, on success and on error alike: the table is cleared again. */
    method CloseScope()
      modifies this`work, this`commits
      ensures work == map[]
    {
      work := map[];
      commits := commits + [Worked(map[])];
    }
  }

  ghost function Grown(s: multiset<string>, hmacs: seq<string>, i: nat, on: bool): multiset<string>
    requires i <= |hmacs|
  {
    if on then s + multiset(hmacs[..i]) else s
  }

  lemma GrownStep(s: multiset<string>, hmacs: seq<string>, i: nat)
    requires i < |hmacs|
    ensures Grown(s, hmacs, i + 1, true) == Grown(s, hmacs, i, true) + multiset{hmacs[i]}
    ensures Grown(s, hmacs, i + 1, false) == Grown(s, hmacs, i, false)
  {
    assert hmacs[..i + 1] == hmacs[..i] + [hmacs[i]];
  }

  /** The exact multiset held in the work table during one scope. */
  class VerificationHmacAccumulator {
    const registry: MappingRegistry
    const group: string
    ghost var expected: multiset<string>
    ghost var actual: multiset<string>

    ghost predicate Valid()
      reads this, registry`work
    {
      Holds(registry.work, expected, actual)
    }

    constructor (registry: MappingRegistry, group: string)
      requires registry.work == map[]
      ensures this.registry == registry && this.group == group
      ensures Valid() && expected == multiset{} && actual == multiset{}
    {
      this.registry, this.group := registry, group;
      expected, actual := multiset{}, multiset{};
    }

    method AddExpected(hmacs: seq<string>) returns (r: Result<(), Fault>)
      requires Valid()
      modifies this, registry`work, registry`commits
      ensures Valid() && actual == old(actual)
      ensures r.Success? <==> forall h :: h in hmacs ==> ValidKey(group, h)
      ensures expected == if r.Success? then old(expected) + multiset(hmacs) else old(expected)
    {
      r := Add(hmacs, Expected);
    }

    method AddActual(hmacs: seq<string>) returns (r: Result<(), Fault>)
      requires Valid()
      modifies this, registry`work, registry`commits
      ensures Valid() && expected == old(expected)
      ensures r.Success? <==> forall h :: h in hmacs ==> ValidKey(group, h)
      ensures actual == if r.Success? then old(actual) + multiset(hmacs) else old(actual)
    {
      r := Add(hmacs, Actual);
    }

    method Add(hmacs: seq<string>, side: Side) returns (r: Result<(), Fault>)
      requires Valid()
      modifies this, registry`work, registry`commits
      ensures Valid()
      ensures r.Success? <==> forall h :: h in hmacs ==> ValidKey(group, h)
      ensures r.Success? && side == Expected ==> expected == old(expected) + multiset(hmacs) && actual == old(actual)
      ensures r.Success? && side == Actual ==> actual == old(actual) + multiset(hmacs) && expected == old(expected)
      ensures r.Failure? ==> expected == old(expected) && actual == old(actual)
    {
      hide Holds, AddOne, ValidKey;
      if exists h :: h in hmacs && !ValidKey(group, h) { return Failure(InvalidKey); }
      for i := 0 to |hmacs|
        invariant Valid()
        invariant expected == Grown(old(expected), hmacs, i, side == Expected)
        invariant actual == Grown(old(actual), hmacs, i, side == Actual)
      {
        AddOneHolds(registry.work, hmacs[i], side, expected, actual);
        GrownStep(old(expected), hmacs, i);
        GrownStep(old(actual), hmacs, i);
        registry.work := AddOne(registry.work, hmacs[i], side);
        expected := Grown(old(expected), hmacs, i + 1, side == Expected);
        actual := Grown(old(actual), hmacs, i + 1, side == Actual);
      }
      assert hmacs[..|hmacs|] == hmacs;
      if hmacs != [] { registry.commits := registry.commits + [Worked(registry.work)]; }
      return Success(());
    }

    method MultisetDifferenceCount() returns (n: nat)
      requires Valid()
      ensures n == |expected - actual| + |actual - expected|
    {
      AggregatesExact(registry.work, map[], group, expected, actual);
      n := DifferenceCount(registry.work);
    }

    method ActualDistinctCount() returns (n: nat)
      requires Valid()
      ensures n == |Members(actual)|
    {
      AggregatesExact(registry.work, map[], group, expected, actual);
      n := ActualDistinct(registry.work);
    }

    method SourceIntersectionCount() returns (n: nat)
      requires Valid()
      ensures n == |Members(actual) * KeysIn(registry.mappings, group)|
    {
      AggregatesExact(registry.work, registry.mappings, group, expected, actual);
      n := SourceIntersection(registry.work, registry.mappings, group);
    }
  }
}
