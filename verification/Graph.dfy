/** The linear run graph over a durable registry and checkpoints: an execution of a node may stop
    after any committed transaction, and the node is then executed again from its start. */
module Graph {
  import opened Base
  import opened Policy
  import opened RegistryModel
  import opened GeneratorModel
  import opened Database
  import opened Registry
  import opened RunModel

  datatype Node =
    | LoadPolicy | InspectSchema | CollectMappingKeys | GenerateReplacements
    | BuildGreenmaskConfig | DumpAndRestore | VerifyAndReport | Completed

  function NextNode(n: Node): Node {
    match n
    case LoadPolicy => InspectSchema
    case InspectSchema => CollectMappingKeys
    case CollectMappingKeys => GenerateReplacements
    case GenerateReplacements => BuildGreenmaskConfig
    case BuildGreenmaskConfig => DumpAndRestore
    case DumpAndRestore => VerifyAndReport
    case VerifyAndReport => Completed
    case Completed => Completed
  }

  /** The `llm` entry of the checkpoint. */
  datatype Evidence = Evidence(batches: nat, accepted: nat, rejected: nat)

  /** What survives a crash: the registry file and the last checkpoint. */
  datatype World = World(tables: Tables, next: Node, evidence: Option<Evidence>)

  /** What a run works on; the source database does not change during the run. */
  datatype Context = Context(crypto: Crypto, groups: seq<GroupEntry>, db: Database)

  ghost predicate ContextOk(x: Context) {
    DistinctIds(x.groups) && forall i :: 0 <= i < |x.groups| ==> x.groups[i].id != ""
  }

  ghost predicate SourceCollected(x: Context, m: Mappings) {
    forall i :: 0 <= i < |x.groups| ==>
      SourceKeys(x.crypto, x.db, x.groups[i].id, x.groups[i].group) <= KeysIn(m, x.groups[i].id)
  }

  /** Every non-NULL configured value has a normal form. */
  ghost predicate SourceNormalizable(x: Context) {
    forall i :: 0 <= i < |x.groups| ==> GroupNormalizable(x.crypto, x.db, x.groups[i].group)
  }

  ghost predicate NothingPending(x: Context, m: Mappings) {
    forall i :: 0 <= i < |x.groups| ==> PendingIn(m, x.groups[i].id) == {}
  }

  /** sum(counts.values()) over the policy's groups, assigned rows only. */
  function AssignedTotal(groups: seq<GroupEntry>, m: Mappings): nat {
    if groups == [] then 0
    else AssignedTotal(groups[..|groups| - 1], m) + |AssignedIn(m, groups[|groups| - 1].id)|
  }

  /** The evidence a finished generate node checkpoints: earlier evidence when this execution asked
      for nothing, otherwise the persisted counters with `accepted` raised to the assigned rows. */
  function NodeEvidence(x: Context, previous: Option<Evidence>, asked: bool, t: Tables): Option<Evidence>
  {
    if !asked && previous.Some? then previous
    else
      match t.stats
      case None => None
      case Some(s) => Some(Evidence(s.batches, Max(s.accepted, AssignedTotal(x.groups, t.mappings)), s.rejected))
  }

  /** The generate node ends well: nothing is pending and there is evidence of a request. */
  ghost predicate GenerateFinished(x: Context, previous: Option<Evidence>, asked: bool, t: Tables,
                                   e: Option<Evidence>) {
    && NothingPending(x, t.mappings)
    && e == NodeEvidence(x, previous, asked, t)
    && e.Some? && e.value.batches >= 1
  }

  /** Opening the registry and the verifier's work table touch neither rows nor counters. */
  ghost predicate Quiet(commits: seq<Commit>) {
    forall i :: 0 <= i < |commits| ==> commits[i].Opened? || commits[i].StatsRowEnsured? || commits[i].Worked?
  }

  /** One execution of the next node. With `w'.next == w.next` it crashed or failed; otherwise it
      finished and its checkpoint was written. */
  ghost predicate Execution(x: Context, w: World, commits: seq<Commit>, w': World) {
    && w'.tables == Replay(w.tables, commits)
    && match w.next
       case CollectMappingKeys =>
         && CollectTrace(x.crypto, x.groups, x.db, w.tables, commits)
         && w'.evidence == w.evidence
         && (w'.next == w.next
             || (w'.next == NextNode(w.next) && SourceCollected(x, w'.tables.mappings) && SourceNormalizable(x)))
       case GenerateReplacements =>
         && GenerateTrace(x.crypto, x.groups, w.tables, commits)
         && ((w'.next == w.next && w'.evidence == w.evidence)
             || (&& w'.next == NextNode(w.next)
                 && GenerateFinished(x, w.evidence, Requested(commits), w'.tables, w'.evidence)))
       case Completed => false
       case _ =>
         Quiet(commits) && w'.evidence == w.evidence && (w'.next == w.next || w'.next == NextNode(w.next))
  }

  ghost predicate Step(x: Context, w: World, w': World) {
    exists commits :: Execution(x, w, commits, w')
  }

  const START := World(EMPTY_TABLES, LoadPolicy, None)

  /** A run: any number of executions, finished or interrupted, from a fresh run directory. */
  ghost predicate Run(x: Context, worlds: seq<World>) {
    && worlds != [] && worlds[0] == START
    && forall i :: 0 <= i && i + 1 < |worlds| ==> Step(x, worlds[i], worlds[i + 1])
  }

  // ----- invariants of the registry file -----

  /** Every key is the key of a source value of its group. */
  ghost predicate KeysWithin(x: Context, m: Mappings) {
    forall k :: k in m ==> IsSourceKey(x, k)
  }

  ghost predicate IsSourceKey(x: Context, k: Key) {
    exists i | 0 <= i < |x.groups| ::
      x.groups[i].id == k.group && k.hmac in SourceKeys(x.crypto, x.db, x.groups[i].id, x.groups[i].group)
  }

  ghost predicate AllFaithful(x: Context, m: Mappings) {
    forall i :: 0 <= i < |x.groups| ==> Faithful(x.crypto, x.groups[i].id, x.groups[i].group, m)
  }

  /** Before the first assignment. */
  ghost predicate Collecting(x: Context, t: Tables) {
    && OneToOne(t.mappings) && KeysWithin(x, t.mappings) && AssignedKeys(t.mappings) == {}
    && (t.stats.Some? ==> t.stats.value == Stats(0, 0, 0))
  }

  /** The persisted counters agree with the rows. */
  ghost predicate CountersAgree(t: Tables) {
    var assignedRows := |AssignedKeys(t.mappings)|;
    && (t.stats.None? ==> assignedRows == 0)
    && (t.stats.Some? ==>
          && t.stats.value.accepted == assignedRows
          && (assignedRows > 0 ==> t.stats.value.batches >= 1)
          && (t.stats.value.batches >= 1 ==> t.mappings != map[]))
  }

  /** From the first assignment on. */
  ghost predicate Generating(x: Context, t: Tables) {
    && OneToOne(t.mappings) && KeysWithin(x, t.mappings) && SourceCollected(x, t.mappings)
    && Disjoint(t.mappings) && AllFaithful(x, t.mappings) && CountersAgree(t)
  }

  lemma StartCollects(x: Context)
    ensures Collecting(x, EMPTY_TABLES)
  {
  }

  lemma InsertKeepsWithin(x: Context, m: Mappings, id: string, hmacs: seq<string>)
    requires ContextOk(x) && KeysWithin(x, m)
    requires exists g :: IsGroup(x.groups, id, g) && forall h :: h in hmacs ==> h in SourceKeys(x.crypto, x.db, id, g)
    ensures KeysWithin(x, InsertAll(m, id, Elements(hmacs)))
    ensures forall h :: h in hmacs ==> ValidKey(id, h)
  {
    var g :| IsGroup(x.groups, id, g) && forall h :: h in hmacs ==> h in SourceKeys(x.crypto, x.db, id, g);
    var i :| 0 <= i < |x.groups| && x.groups[i] == GroupEntry(id, g);
    var m' := InsertAll(m, id, Elements(hmacs));
    hide SourceKeys;
    forall k | k in m' && k !in m
      ensures IsSourceKey(x, k)
    {
      assert k.group == id && k.hmac in hmacs;
      assert x.groups[i].id == k.group;
    }
    SourceKeysAreDigests(x.crypto, x.db, id, g);
  }

  lemma SourceKeysAreDigests(c: Crypto, db: Database, id: string, g: Group)
    ensures forall h :: h in SourceKeys(c, db, id, g) ==> IsDigest(h)
  {
  }

  lemma CollectCommitKeeps(x: Context, t: Tables, e: Commit)
    requires ContextOk(x) && Collecting(x, t) && CollectCommit(x.crypto, x.groups, x.db, t, e)
    ensures Collecting(x, Apply(t, e)) && Grows(t.mappings, Apply(t, e).mappings)
  {
    if e.Inserted? {
      InsertKeepsWithin(x, t.mappings, e.group, e.hmacs);
      InsertKeepsOneToOne(t.mappings, e.group, Elements(e.hmacs));
    }
  }

  /** Collection, however often interrupted and restarted, keeps the registry free of assignments. */
  lemma {:induction false} CollectTraceKeeps(x: Context, t: Tables, commits: seq<Commit>)
    requires ContextOk(x) && Collecting(x, t) && CollectTrace(x.crypto, x.groups, x.db, t, commits)
    ensures Collecting(x, Replay(t, commits)) && Grows(t.mappings, Replay(t, commits).mappings)
  {
    if commits != [] {
      hide Collecting, CollectCommit, Apply, ContextOk, Grows;
      var n := |commits| - 1;
      CollectTraceKeeps(x, t, commits[..n]);
      var mid := Replay(t, commits[..n]);
      CollectCommitKeeps(x, mid, commits[n]);
      GrowsTransitive(t.mappings, mid.mappings, Apply(mid, commits[n]).mappings);
    } else {
      GrowsReflexive(t.mappings);
    }
  }

  lemma GrowsReflexive(m: Mappings)
    ensures Grows(m, m)
  {
  }

  /** Disjointness holds because every insertion precedes the first assignment. */
  lemma CollectedIsReady(x: Context, t: Tables)
    requires Collecting(x, t) && SourceCollected(x, t.mappings)
    ensures Generating(x, t)
  {
    var m := t.mappings;
    forall k | k in m ensures m[k] == BLANK {
      assert k !in AssignedKeys(m);
    }
    assert |AssignedKeys(m)| == 0;
  }

  // ----- the generate node -----

  lemma KeysWithinSame(x: Context, m: Mappings, m': Mappings)
    requires KeysWithin(x, m) && SourceCollected(x, m) && m'.Keys == m.Keys
    ensures KeysWithin(x, m') && SourceCollected(x, m')
  {
    hide SourceKeys;
    forall id ensures KeysIn(m', id) == KeysIn(m, id) {
      forall h ensures h in KeysIn(m', id) <==> h in KeysIn(m, id) {
        KeysInMeans(m', id, h);
        KeysInMeans(m, id, h);
      }
    }
    assert forall k :: k in m' ==> k in m;
  }

  lemma AssignKeepsAllFaithful(x: Context, m: Mappings, id: string, batch: seq<Assignment>)
    requires ContextOk(x) && OneToOne(m) && AllFaithful(x, m) && AssignOk(m, id, batch)
    requires BatchFaithful(x.crypto, x.groups, id, batch)
    ensures AllFaithful(x, AssignAll(m, id, batch))
  {
    var g :| IsGroup(x.groups, id, g) && ItemsFaithful(x.crypto, id, g, batch);
    forall i | 0 <= i < |x.groups|
      ensures Faithful(x.crypto, x.groups[i].id, x.groups[i].group, AssignAll(m, id, batch))
    {
      hide AssignAll, AssignOk, OneToOne, ItemsFaithful;
      assert Faithful(x.crypto, x.groups[i].id, x.groups[i].group, m);
      if x.groups[i].id == id {
        assert x.groups[i].group == g;
        FaithfulAfter(x.crypto, id, g, m, batch);
      } else {
        FaithfulElsewhere(x.crypto, x.groups[i].id, x.groups[i].group, m, id, batch);
      }
    }
  }

  lemma FaithfulElsewhere(c: Crypto, id: string, g: Group, m: Mappings, other: string, batch: seq<Assignment>)
    requires id != other && Faithful(c, id, g, m) && AssignOk(m, other, batch)
    ensures Faithful(c, id, g, AssignAll(m, other, batch))
  {
    assert forall i :: 0 <= i < |batch| ==> ItemOk(m, other, batch[i]);
    AssignAllAt(m, other, batch);
  }

  lemma AssignedCommitKeeps(x: Context, t: Tables, e: Commit)
    requires ContextOk(x) && Generating(x, t) && t.stats.Some? && t.stats.value.batches >= 1
    requires e.Assigned? && GenerateCommit(x.crypto, x.groups, t, true, e)
    ensures Generating(x, Apply(t, e)) && Grows(t.mappings, Apply(t, e).mappings)
    ensures Apply(t, e).mappings.Keys == t.mappings.Keys
  {
    hide OneToOne, KeysWithin, SourceCollected, Disjoint, AllFaithful, AssignAll, AssignOk, BatchFaithful, ContextOk,
      Grows, AssignedKeys;
    var m, m' := t.mappings, AssignAll(t.mappings, e.group, e.batch);
    AssignKeeps(m, e.group, e.batch);
    AssignKeepsAllFaithful(x, m, e.group, e.batch);
    KeysWithinSame(x, m, m');
    assert m != map[] ==> m' != map[] by { assert m'.Keys == m.Keys; }
  }

  lemma OtherCommitKeeps(x: Context, t: Tables, requested: bool, e: Commit)
    requires Generating(x, t) && !e.Assigned? && GenerateCommit(x.crypto, x.groups, t, requested, e)
    ensures Generating(x, Apply(t, e)) && Apply(t, e).mappings == t.mappings
  {
    hide OneToOne, KeysWithin, SourceCollected, Disjoint, AllFaithful, AssignedKeys;
    if e.Recorded? && e.batches >= 1 {
      var k :| k in t.mappings && t.mappings[k].replacement.None?;
      assert t.mappings != map[];
    }
  }

  lemma RequestedCounts(x: Context, t: Tables, requested: bool, e: Commit)
    requires GenerateCommit(x.crypto, x.groups, t, requested, e)
    requires requested ==> t.stats.Some? && t.stats.value.batches >= 1
    ensures requested || (e.Recorded? && e.batches >= 1) ==>
      Apply(t, e).stats.Some? && Apply(t, e).stats.value.batches >= 1
  {
  }

  lemma RequestedSnoc(commits: seq<Commit>, n: nat)
    requires |commits| == n + 1
    ensures Requested(commits) ==> Requested(commits[..n]) || (commits[n].Recorded? && commits[n].batches >= 1)
  {
    if Requested(commits) {
      var i :| 0 <= i < |commits| && commits[i].Recorded? && commits[i].batches >= 1;
      if i < n { assert commits[..n][i] == commits[i]; }
    }
  }

  /** Generation, stopped after any transaction: nothing assigned is rewritten, no key is lost or
      added, and every invariant holds at the point where it stopped. */
  lemma {:induction false} GenerateTraceKeeps(x: Context, t: Tables, commits: seq<Commit>)
    requires ContextOk(x) && Generating(x, t) && GenerateTrace(x.crypto, x.groups, t, commits)
    ensures var t' := Replay(t, commits);
      && Generating(x, t') && Grows(t.mappings, t'.mappings) && t'.mappings.Keys == t.mappings.Keys
      && (Requested(commits) ==> t'.stats.Some? && t'.stats.value.batches >= 1)
  {
    if commits != [] {
      hide Generating, GenerateCommit, Apply, ContextOk, Grows, Requested;
      var n := |commits| - 1;
      GenerateTraceKeeps(x, t, commits[..n]);
      var mid := Replay(t, commits[..n]);
      GenerateStepKeeps(x, mid, Requested(commits[..n]), commits[n]);
      RequestedSnoc(commits, n);
      GrowsTransitive(t.mappings, mid.mappings, Apply(mid, commits[n]).mappings);
    } else {
      GrowsReflexive(t.mappings);
    }
  }

  lemma GenerateStepKeeps(x: Context, t: Tables, requested: bool, e: Commit)
    requires ContextOk(x) && Generating(x, t) && GenerateCommit(x.crypto, x.groups, t, requested, e)
    requires requested ==> t.stats.Some? && t.stats.value.batches >= 1
    ensures Generating(x, Apply(t, e)) && Grows(t.mappings, Apply(t, e).mappings)
    ensures Apply(t, e).mappings.Keys == t.mappings.Keys
    ensures requested || (e.Recorded? && e.batches >= 1) ==>
      Apply(t, e).stats.Some? && Apply(t, e).stats.value.batches >= 1
  {
    RequestedCounts(x, t, requested, e);
    hide Generating, Apply, ContextOk, Grows;
    if e.Assigned? {
      AssignedCommitKeeps(x, t, e);
    } else {
      OtherCommitKeeps(x, t, requested, e);
      GrowsReflexive(t.mappings);
    }
  }

  /** A trace may stop anywhere: every prefix is itself the trace of an interrupted execution. */
  lemma {:induction false} TracePrefix(x: Context, t: Tables, commits: seq<Commit>, k: nat)
    requires k <= |commits|
    ensures GenerateTrace(x.crypto, x.groups, t, commits) ==> GenerateTrace(x.crypto, x.groups, t, commits[..k])
    ensures CollectTrace(x.crypto, x.groups, x.db, t, commits) ==>
      CollectTrace(x.crypto, x.groups, x.db, t, commits[..k])
    decreases |commits|
  {
    if k == |commits| {
      assert commits[..k] == commits;
    } else {
      hide GenerateCommit, CollectCommit;
      var n := |commits| - 1;
      TracePrefix(x, t, commits[..n], k);
      assert commits[..n][..k] == commits[..k];
    }
  }

  // ----- counting assigned rows -----

  ghost function AssignedUnder(m: Mappings, id: string): set<Key> {
    set k | k in AssignedKeys(m) && k.group == id
  }

  lemma AssignedInGroup(m: Mappings, id: string)
    ensures |AssignedUnder(m, id)| == |AssignedIn(m, id)|
  {
    var keys := AssignedUnder(m, id);
    var f := (k: Key) => k.hmac;
    ImageCount(keys, f);
    var image := ImageSet(keys, f);
    forall h ensures h in image <==> h in AssignedIn(m, id) {
      if h in AssignedIn(m, id) {
        assert Key(id, h) in keys && f(Key(id, h)) == h;
      }
    }
    assert image == AssignedIn(m, id);
    assert InjectiveFor(keys, f);
  }

  ghost function AssignedOf(groups: seq<GroupEntry>, m: Mappings): set<Key> {
    set k | k in AssignedKeys(m) && exists i :: 0 <= i < |groups| && groups[i].id == k.group
  }

  lemma {:induction false} AssignedTotalCounts(groups: seq<GroupEntry>, m: Mappings)
    requires DistinctIds(groups)
    ensures AssignedTotal(groups, m) == |AssignedOf(groups, m)|
  {
    if groups != [] {
      hide AssignedKeys, AssignedIn;
      var n := |groups| - 1;
      AssignedTotalCounts(groups[..n], m);
      AssignedInGroup(m, groups[n].id);
      AssignedOfLast(groups, m, n);
    } else {
      assert AssignedOf(groups, m) == {};
    }
  }

  lemma AssignedOfLast(groups: seq<GroupEntry>, m: Mappings, n: nat)
    requires DistinctIds(groups) && |groups| == n + 1
    ensures AssignedOf(groups, m) == AssignedOf(groups[..n], m) + AssignedUnder(m, groups[n].id)
    ensures AssignedOf(groups[..n], m) !! AssignedUnder(m, groups[n].id)
  {
    hide AssignedKeys;
    assert forall i :: 0 <= i < n ==> groups[..n][i] == groups[i];
    forall k | k in AssignedKeys(m)
      ensures k in AssignedOf(groups, m) <==> k in AssignedOf(groups[..n], m) || k.group == groups[n].id
    {
      if k in AssignedOf(groups[..n], m) {
        var i :| 0 <= i < n && groups[..n][i].id == k.group;
        assert groups[i].id == k.group;
      }
      if k in AssignedOf(groups, m) && k.group != groups[n].id {
        var i :| 0 <= i < |groups| && groups[i].id == k.group;
        assert groups[..n][i].id == k.group;
      }
    }
  }

  /** The sum over the policy's groups is the number of assigned rows. */
  lemma AllRowsCounted(x: Context, m: Mappings)
    requires ContextOk(x) && KeysWithin(x, m)
    ensures AssignedTotal(x.groups, m) == |AssignedKeys(m)|
  {
    hide SourceKeys;
    AssignedTotalCounts(x.groups, m);
    forall k | k in AssignedKeys(m) ensures k in AssignedOf(x.groups, m) {
      assert IsSourceKey(x, k);
    }
    assert AssignedOf(x.groups, m) == AssignedKeys(m);
  }

  /** Raising the stored count to the number of assigned rows never changes it. */
  lemma RepairIsNoOp(x: Context, t: Tables)
    requires ContextOk(x) && Generating(x, t) && t.stats.Some?
    ensures Max(t.stats.value.accepted, AssignedTotal(x.groups, t.mappings)) == t.stats.value.accepted ==
      |AssignedKeys(t.mappings)|
  {
    AllRowsCounted(x, t.mappings);
  }

  // ----- when the generate node has evidence -----

  ghost predicate SourceEmpty(x: Context) {
    forall i :: 0 <= i < |x.groups| ==> SourceKeys(x.crypto, x.db, x.groups[i].id, x.groups[i].group) == {}
  }

  lemma EmptySourceEmptyRegistry(x: Context, m: Mappings)
    requires KeysWithin(x, m) && SourceCollected(x, m)
    ensures SourceEmpty(x) <==> m == map[]
  {
    hide SourceKeys, KeysIn;
    if SourceEmpty(x) {
      assert forall k :: k in m ==> IsSourceKey(x, k);
    }
    if m == map[] {
      forall i | 0 <= i < |x.groups| ensures SourceKeys(x.crypto, x.db, x.groups[i].id, x.groups[i].group) == {} {
        NoKeysIn(x.groups[i].id);
      }
    }
  }

  lemma NoKeysIn(id: string)
    ensures KeysIn(map[], id) == {}
  {
  }

  lemma NonEmptyIsAssigned(x: Context, m: Mappings)
    requires KeysWithin(x, m) && NothingPending(x, m) && m != map[]
    ensures AssignedKeys(m) != {}
  {
    hide SourceKeys;
    var k :| k in m;
    assert IsSourceKey(x, k);
    var i :| 0 <= i < |x.groups| && x.groups[i].id == k.group;
    assert k.hmac !in PendingIn(m, x.groups[i].id);
    assert k in AssignedKeys(m);
  }

  lemma EvidenceOf(x: Context, t: Tables, asked: bool)
    requires ContextOk(x) && Generating(x, t) && NothingPending(x, t.mappings) && t.stats.Some?
    ensures GenerateFinished(x, None, asked, t, NodeEvidence(x, None, asked, t)) <==> t.mappings != map[]
  {
    hide OneToOne, KeysWithin, SourceCollected, Disjoint, AllFaithful, NothingPending, AssignedKeys, AssignedTotal;
    if t.mappings != map[] { NonEmptyIsAssigned(x, t.mappings); }
  }

  /** A generate execution that leaves nothing pending passes the evidence test exactly when the
      source has a configured non-NULL value; in particular a repeated execution that finds every
      key assigned always passes. */
  lemma EvidenceExactly(x: Context, t: Tables, commits: seq<Commit>)
    requires ContextOk(x) && Generating(x, t) && GenerateTrace(x.crypto, x.groups, t, commits)
    requires var t' := Replay(t, commits); NothingPending(x, t'.mappings) && t'.stats.Some?
    ensures var t' := Replay(t, commits);
      GenerateFinished(x, None, Requested(commits), t', NodeEvidence(x, None, Requested(commits), t')) <==>
        !SourceEmpty(x)
  {
    GenerateTraceKeeps(x, t, commits);
    var t' := Replay(t, commits);
    assert KeysWithin(x, t'.mappings) && SourceCollected(x, t'.mappings);
    hide *;
    EmptySourceEmptyRegistry(x, t'.mappings);
    EvidenceOf(x, t', Requested(commits));
  }

  /** With an empty source the generate node never finishes, however often it is executed. */
  lemma EmptySourceStuck(x: Context, w: World, commits: seq<Commit>, w': World)
    requires ContextOk(x) && w.next == GenerateReplacements && w.evidence.None? && Generating(x, w.tables)
    requires SourceEmpty(x) && Execution(x, w, commits, w')
    ensures w'.next == GenerateReplacements
  {
    hide Generating, ContextOk, GenerateTrace, NothingPending, Requested, SourceEmpty, Replay;
    if w'.next != w.next { EvidenceExactly(x, w.tables, commits); }
  }

  // ----- every run -----

  /** What holds of the durable state at each checkpoint. */
  ghost predicate WorldSafe(x: Context, w: World) {
    match w.next
    case LoadPolicy => Collecting(x, w.tables) && w.evidence.None?
    case InspectSchema => Collecting(x, w.tables) && w.evidence.None?
    case CollectMappingKeys => Collecting(x, w.tables) && w.evidence.None?
    case GenerateReplacements => Generating(x, w.tables) && SourceNormalizable(x) && w.evidence.None?
    case _ =>
      && Generating(x, w.tables) && SourceNormalizable(x) && NothingPending(x, w.tables.mappings)
      && w.evidence.Some? && w.evidence.value.batches >= 1
      && w.evidence.value.accepted == |AssignedKeys(w.tables.mappings)|
  }

  /** The rows are the same, and at most the counters' row has been created. */
  predicate QuietChange(t: Tables, t': Tables) {
    t'.mappings == t.mappings && (t'.stats == t.stats || (t.stats.None? && t'.stats == Some(Stats(0, 0, 0))))
  }

  lemma QuietCommit(t: Tables, e: Commit)
    requires e.Opened? || e.StatsRowEnsured? || e.Worked?
    ensures QuietChange(t, Apply(t, e))
  {
  }

  lemma {:induction false} QuietCommits(t: Tables, commits: seq<Commit>)
    requires Quiet(commits)
    ensures QuietChange(t, Replay(t, commits))
  {
    if commits != [] {
      hide Apply;
      var n := |commits| - 1;
      assert forall i :: 0 <= i < n ==> commits[..n][i] == commits[i];
      QuietCommits(t, commits[..n]);
      QuietCommit(Replay(t, commits[..n]), commits[n]);
    }
  }

  lemma QuietKeeps(x: Context, t: Tables, t': Tables)
    requires QuietChange(t, t')
    ensures Collecting(x, t) ==> Collecting(x, t')
    ensures Generating(x, t) ==> Generating(x, t')
  {
    hide OneToOne, KeysWithin, SourceCollected, Disjoint, AllFaithful, AssignedKeys;
  }

  lemma StepSafe(x: Context, w: World, commits: seq<Commit>, w': World)
    requires ContextOk(x) && WorldSafe(x, w) && Execution(x, w, commits, w')
    ensures WorldSafe(x, w') && Grows(w.tables.mappings, w'.tables.mappings)
  {
    hide Collecting, Generating, CollectTrace, GenerateTrace, ContextOk, NothingPending, SourceCollected, Grows,
      SourceNormalizable, Requested, Quiet, AssignedKeys;
    match w.next {
      case CollectMappingKeys =>
        hide Replay;
        CollectTraceKeeps(x, w.tables, commits);
        if w'.next != w.next { CollectedIsReady(x, w'.tables); }
      case GenerateReplacements =>
        hide Replay;
        GenerateTraceKeeps(x, w.tables, commits);
        if w'.next != w.next { RepairIsNoOp(x, w'.tables); }
      case Completed =>
      case _ =>
        QuietCommits(w.tables, commits);
        QuietKeeps(x, w.tables, w'.tables);
        GrowsReflexive(w.tables.mappings);
    }
  }

  lemma RunPrefix(x: Context, worlds: seq<World>)
    requires Run(x, worlds) && |worlds| > 1
    ensures Run(x, worlds[..|worlds| - 1]) && Step(x, worlds[|worlds| - 2], worlds[|worlds| - 1])
  {
    hide Step;
    var n := |worlds| - 1;
    assert forall i :: 0 <= i < n ==> worlds[..n][i] == worlds[i];
    assert Step(x, worlds[n - 1], worlds[n - 1 + 1]);
  }

  /** Safety over all runs with crashes and resumptions: every durable state satisfies the
      invariants of its stage. */
  lemma {:induction false} RunSafe(x: Context, worlds: seq<World>)
    requires ContextOk(x) && Run(x, worlds)
    ensures forall i :: 0 <= i < |worlds| ==> WorldSafe(x, worlds[i])
    decreases |worlds|
  {
    hide WorldSafe, Execution, ContextOk;
    var n := |worlds| - 1;
    if n == 0 {
      StartSafe(x);
    } else {
      RunPrefix(x, worlds);
      hide Run;
      RunSafe(x, worlds[..n]);
      assert WorldSafe(x, worlds[..n][n - 1]);
      var commits :| Execution(x, worlds[n - 1], commits, worlds[n]);
      StepSafe(x, worlds[n - 1], commits, worlds[n]);
      assert forall i :: 0 <= i < n ==> worlds[..n][i] == worlds[i];
    }
  }

  lemma StartSafe(x: Context)
    ensures WorldSafe(x, START)
  {
    StartCollects(x);
  }

  /** No assigned replacement is ever changed and no key is ever lost, between any two states of a
      run. */
  lemma {:induction false} RunNeverRewrites(x: Context, worlds: seq<World>, i: nat, j: nat)
    requires ContextOk(x) && Run(x, worlds) && i <= j < |worlds|
    ensures Grows(worlds[i].tables.mappings, worlds[j].tables.mappings)
    decreases j
  {
    hide WorldSafe, Execution, Grows, ContextOk;
    if i == j {
      GrowsReflexive(worlds[i].tables.mappings);
    } else {
      RunNeverRewrites(x, worlds, i, j - 1);
      RunSafe(x, worlds);
      assert Step(x, worlds[j - 1], worlds[j - 1 + 1]);
      var commits :| Execution(x, worlds[j - 1], commits, worlds[j]);
      StepSafe(x, worlds[j - 1], commits, worlds[j]);
      GrowsTransitive(worlds[i].tables.mappings, worlds[j - 1].tables.mappings, worlds[j].tables.mappings);
    }
  }
}
