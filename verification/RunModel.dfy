/** The transactions that the two registry-writing nodes may commit, and in which order. */
module RunModel {
  import opened Base
  import opened Policy
  import opened RegistryModel
  import opened GeneratorModel
  import opened Database
  import opened Registry

  ghost predicate SomePending(m: Mappings) { exists k :: k in m && m[k].replacement.None? }

  ghost predicate IsGroup(groups: seq<GroupEntry>, id: string, g: Group) {
    exists i :: 0 <= i < |groups| && groups[i] == GroupEntry(id, g)
  }

  ghost predicate BatchFaithful(c: Crypto, groups: seq<GroupEntry>, id: string, batch: seq<Assignment>) {
    exists g :: IsGroup(groups, id, g) && ItemsFaithful(c, id, g, batch)
  }

  /** Some request of this execution has been recorded. */
  ghost predicate Requested(commits: seq<Commit>) {
    exists i :: 0 <= i < |commits| && commits[i].Recorded? && commits[i].batches >= 1
  }

  // ----- generation -----

  ghost predicate GenerateCommit(c: Crypto, groups: seq<GroupEntry>, t: Tables, requested: bool, e: Commit) {
    match e
    case Recorded(batches, accepted, rejected) =>
      t.stats.Some? && accepted == 0 && (batches >= 1 ==> SomePending(t.mappings))
    case Assigned(id, batch, counted) =>
      t.stats.Some? && requested && counted && AssignOk(t.mappings, id, batch) && BatchFaithful(c, groups, id, batch)
    case Opened(_) => t.meta == []
    case StatsRowEnsured => true
    case _ => false
  }

  /** What one execution of the generate node may have committed, crashed or not. */
  ghost predicate GenerateTrace(c: Crypto, groups: seq<GroupEntry>, t: Tables, commits: seq<Commit>) {
    commits == [] ||
    var n := |commits| - 1;
    var done := commits[..n];
    GenerateTrace(c, groups, t, done) && GenerateCommit(c, groups, Replay(t, done), Requested(done), commits[n])
  }

  lemma GenerateTraceExtends(c: Crypto, groups: seq<GroupEntry>, t: Tables, commits: seq<Commit>, e: Commit)
    requires GenerateTrace(c, groups, t, commits)
    requires GenerateCommit(c, groups, Replay(t, commits), Requested(commits), e)
    ensures GenerateTrace(c, groups, t, commits + [e])
    ensures Replay(t, commits + [e]) == Apply(Replay(t, commits), e)
    ensures Requested(commits + [e]) <==> Requested(commits) || (e.Recorded? && e.batches >= 1)
  {
    ReplayOne(t, commits, e);
    assert (commits + [e])[..|commits|] == commits;
    if Requested(commits) {
      var i :| 0 <= i < |commits| && commits[i].Recorded? && commits[i].batches >= 1;
      assert (commits + [e])[i] == commits[i];
    }
    if e.Recorded? && e.batches >= 1 { assert (commits + [e])[|commits|] == e; }
  }

  lemma RequestedMonotone(a: seq<Commit>, b: seq<Commit>)
    requires Requested(a) || Requested(b)
    ensures Requested(a + b)
  {
    if Requested(a) {
      var i :| 0 <= i < |a| && a[i].Recorded? && a[i].batches >= 1;
      assert (a + b)[i] == a[i];
    } else {
      var i :| 0 <= i < |b| && b[i].Recorded? && b[i].batches >= 1;
      assert (a + b)[|a| + i] == b[i];
    }
  }

  lemma RequestedJoins(a: seq<Commit>, b: seq<Commit>)
    ensures Requested(a + b) <==> Requested(a) || Requested(b)
  {
    if Requested(a) || Requested(b) { RequestedMonotone(a, b); }
    if Requested(a + b) {
      var i :| 0 <= i < |a + b| && (a + b)[i].Recorded? && (a + b)[i].batches >= 1;
      if i < |a| { assert a[i] == (a + b)[i]; } else { assert b[i - |a|] == (a + b)[i]; }
    }
  }

  /** Stretches of one execution join to one trace. */
  lemma {:induction false} GenerateTraceJoins(c: Crypto, groups: seq<GroupEntry>, t: Tables, a: seq<Commit>,
                                              b: seq<Commit>)
    requires GenerateTrace(c, groups, t, a) && GenerateTrace(c, groups, Replay(t, a), b)
    ensures GenerateTrace(c, groups, t, a + b) && Replay(t, a + b) == Replay(Replay(t, a), b)
  {
    ReplayAppend(t, a, b);
    if b == [] {
      assert a + b == a;
    } else {
      var n := |b| - 1;
      GenerateTraceJoins(c, groups, t, a, b[..n]);
      assert (a + b)[..|a + b| - 1] == a + b[..n];
      if Requested(b[..n]) { RequestedMonotone(a, b[..n]); }
    }
  }

  /** `commits` is a generate trace that leads from `start` to `now`. */
  ghost predicate Traced(c: Crypto, groups: seq<GroupEntry>, start: Tables, commits: seq<Commit>, now: Tables) {
    GenerateTrace(c, groups, start, commits) && now == Replay(start, commits)
  }

  lemma TracedStart(c: Crypto, groups: seq<GroupEntry>, start: Tables)
    ensures Traced(c, groups, start, [], start)
  {
  }

  lemma TracedJoins(c: Crypto, groups: seq<GroupEntry>, start: Tables, a: seq<Commit>, mid: Tables, b: seq<Commit>,
                    now: Tables)
    requires Traced(c, groups, start, a, mid) && Traced(c, groups, mid, b, now)
    ensures Traced(c, groups, start, a + b, now)
    ensures Requested(a) || Requested(b) ==> Requested(a + b)
  {
    GenerateTraceJoins(c, groups, start, a, b);
    if Requested(a) || Requested(b) { RequestedMonotone(a, b); }
  }

  lemma TracedExtends(c: Crypto, groups: seq<GroupEntry>, start: Tables, a: seq<Commit>, mid: Tables, e: Commit)
    requires Traced(c, groups, start, a, mid) && GenerateCommit(c, groups, mid, Requested(a), e)
    ensures Traced(c, groups, start, a + [e], Apply(mid, e))
    ensures Requested(a) || (e.Recorded? && e.batches >= 1) ==> Requested(a + [e])
  {
    GenerateTraceExtends(c, groups, start, a, e);
  }

  // ----- collection -----

  ghost predicate CollectCommit(c: Crypto, groups: seq<GroupEntry>, db: Database, t: Tables, e: Commit) {
    match e
    case Inserted(id, hmacs) =>
      exists g :: IsGroup(groups, id, g) && forall h :: h in hmacs ==> h in SourceKeys(c, db, id, g)
    case Opened(_) => t.meta == []
    case StatsRowEnsured => true
    case _ => false
  }

  ghost predicate CollectTrace(c: Crypto, groups: seq<GroupEntry>, db: Database, t: Tables, commits: seq<Commit>) {
    commits == [] ||
    var n := |commits| - 1;
    var done := commits[..n];
    CollectTrace(c, groups, db, t, done) && CollectCommit(c, groups, db, Replay(t, done), commits[n])
  }

  lemma CollectTraceExtends(c: Crypto, groups: seq<GroupEntry>, db: Database, t: Tables, commits: seq<Commit>,
                            e: Commit)
    requires CollectTrace(c, groups, db, t, commits)
    requires CollectCommit(c, groups, db, Replay(t, commits), e)
    ensures CollectTrace(c, groups, db, t, commits + [e])
    ensures Replay(t, commits + [e]) == Apply(Replay(t, commits), e)
  {
    ReplayOne(t, commits, e);
    assert (commits + [e])[..|commits|] == commits;
  }

  /** `commits` is a collect trace that leads from `start` to `now`. */
  ghost predicate CollectTraced(c: Crypto, groups: seq<GroupEntry>, db: Database, start: Tables,
                                commits: seq<Commit>, now: Tables) {
    CollectTrace(c, groups, db, start, commits) && now == Replay(start, commits)
  }

  lemma CollectTracedStart(c: Crypto, groups: seq<GroupEntry>, db: Database, start: Tables)
    ensures CollectTraced(c, groups, db, start, [], start)
  {
  }

  lemma CollectTracedExtends(c: Crypto, groups: seq<GroupEntry>, db: Database, start: Tables,
                             commits: seq<Commit>, mid: Tables, e: Commit)
    requires CollectTraced(c, groups, db, start, commits, mid) && CollectCommit(c, groups, db, mid, e)
    ensures CollectTraced(c, groups, db, start, commits + [e], Apply(mid, e))
  {
    CollectTraceExtends(c, groups, db, start, commits, e);
  }

  lemma {:induction false} CollectTracedJoins(c: Crypto, groups: seq<GroupEntry>, db: Database, start: Tables,
                                              a: seq<Commit>, mid: Tables, b: seq<Commit>, now: Tables)
    requires CollectTraced(c, groups, db, start, a, mid) && CollectTraced(c, groups, db, mid, b, now)
    ensures CollectTraced(c, groups, db, start, a + b, now)
  {
    ReplayAppend(start, a, b);
    if b == [] {
      assert a + b == a;
    } else {
      var n := |b| - 1;
      CollectTracedJoins(c, groups, db, start, a, mid, b[..n], Replay(mid, b[..n]));
      assert (a + b)[..|a + b| - 1] == a + b[..n];
    }
  }
}
