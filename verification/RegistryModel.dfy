/** The registry's tables as values: what each transaction does to them, and the invariants that
    transactions keep. */
module RegistryModel {
  import opened Base

  datatype Key = Key(group: string, hmac: string)

  /** The two nullable columns of a `mappings` row. */
  datatype Cell = Cell(replacement: Option<string>, replacementHmac: Option<string>)

  const BLANK := Cell(None, None)

  type Mappings = map<Key, Cell>

  datatype Assignment = Assignment(source: string, replacement: string, hmac: string)

  datatype Stats = Stats(batches: nat, accepted: nat, rejected: nat)

  datatype Metadata = Metadata(
    runId: string, policySha: string, schemaSha: string,
    provider: string, model: string, keyFingerprint: string, status: string)

  datatype WorkRow = WorkRow(expected: nat, actual: nat)

  type Work = map<string, WorkRow>

  datatype Tables = Tables(meta: seq<Metadata>, mappings: Mappings, stats: Option<Stats>, work: Work)

  const EMPTY_TABLES := Tables([], map[], None, map[])

  datatype Fault = InvalidKey | InvalidLimit | InvalidStats | InvalidMetadata | Incompatible | Conflict

  predicate ValidKey(group: string, hmac: string) { group != "" && IsDigest(hmac) }

  // ----- queries -----

  function Lookup(m: Mappings, group: string, hmac: string): Option<string> {
    if Key(group, hmac) in m then m[Key(group, hmac)].replacement else None
  }

  predicate ReplacementUsed(m: Mappings, group: string, replacement: string) {
    exists k :: k in m && k.group == group && m[k].replacement == Some(replacement)
  }

  predicate HmacUsed(m: Mappings, group: string, hmac: string) {
    exists k :: k in m && k.group == group && m[k].replacementHmac == Some(hmac)
  }

  function KeysIn(m: Mappings, group: string): set<string> {
    set k | k in m && k.group == group :: k.hmac
  }

  function PendingIn(m: Mappings, group: string): set<string> {
    set k | k in m && k.group == group && m[k].replacement.None? :: k.hmac
  }

  function AssignedIn(m: Mappings, group: string): set<string> {
    set k | k in m && k.group == group && m[k].replacement.Some? :: k.hmac
  }

  function AssignedKeys(m: Mappings): set<Key> {
    set k | k in m && m[k].replacement.Some?
  }

  // ----- transactions -----

  function NewKeys(group: string, hmacs: set<string>): set<Key> {
    set h | h in hmacs :: Key(group, h)
  }

  /** INSERT OR IGNORE of every key. */
  function InsertAll(m: Mappings, group: string, hmacs: set<string>): Mappings {
    map k | k in m.Keys + NewKeys(group, hmacs) :: if k in m then m[k] else BLANK
  }

  /** One UPDATE per item, in order. */
  function AssignAll(m: Mappings, group: string, batch: seq<Assignment>): Mappings {
    if batch == [] then m
    else
      var last := batch[|batch| - 1];
      var before := AssignAll(m, group, batch[..|batch| - 1]);
      before[Key(group, last.source) := Cell(Some(last.replacement), Some(last.hmac))]
  }

  /** What an item needs from the tables as they stand. */
  ghost predicate ItemOk(m: Mappings, group: string, a: Assignment) {
    && ValidKey(group, a.source) && ValidKey(group, a.hmac) && a.replacement != ""
    && Key(group, a.source) in m && m[Key(group, a.source)].replacement.None?
    && Key(group, a.hmac) !in m
    && !ReplacementUsed(m, group, a.replacement)
    && !HmacUsed(m, group, a.hmac)
  }

  ghost predicate DistinctItems(batch: seq<Assignment>) {
    forall i, j :: 0 <= i < j < |batch| ==>
      && batch[i].source != batch[j].source
      && batch[i].replacement != batch[j].replacement
      && batch[i].hmac != batch[j].hmac
  }

  /** When a batch of assignments can be committed. */
  ghost predicate AssignOk(m: Mappings, group: string, batch: seq<Assignment>) {
    DistinctItems(batch) && forall i :: 0 <= i < |batch| ==> ItemOk(m, group, batch[i])
  }

  // ----- the one-to-one contract -----

  /** Replacement and its digest are set together; both are one-to-one inside a group. */
  ghost predicate OneToOne(m: Mappings) {
    && (forall k :: k in m ==> ValidKey(k.group, k.hmac))
    && (forall k :: k in m ==> (m[k].replacement.Some? <==> m[k].replacementHmac.Some?))
    && (forall k :: k in m && m[k].replacement.Some? ==> m[k].replacement.value != "")
    && (forall k, l | k in m && l in m && k.group == l.group ::
          m[k].replacement.Some? && m[k].replacement == m[l].replacement ==> k == l)
    && (forall k, l | k in m && l in m && k.group == l.group ::
          m[k].replacementHmac.Some? && m[k].replacementHmac == m[l].replacementHmac ==> k == l)
  }

  /** No stored replacement digest is a source key of its group. */
  ghost predicate Disjoint(m: Mappings) {
    forall k :: k in m && m[k].replacementHmac.Some? ==> Key(k.group, m[k].replacementHmac.value) !in m
  }

  /** `m'` keeps every row of `m` and every assigned row exactly: keys are never dropped and
      assignments are written once. */
  ghost predicate Grows(m: Mappings, m': Mappings) {
    && m.Keys <= m'.Keys
    && forall k :: k in m && m[k].replacement.Some? ==> m'[k] == m[k]
  }

  lemma GrowsTransitive(a: Mappings, b: Mappings, c: Mappings)
    requires Grows(a, b) && Grows(b, c)
    ensures Grows(a, c)
  {
  }

  lemma InsertOne(m: Mappings, group: string, hmacs: set<string>, h: string)
    ensures var before, key := InsertAll(m, group, hmacs), Key(group, h);
      InsertAll(m, group, hmacs + {h}) == if key in before then before else before[key := BLANK]
  {
    assert NewKeys(group, hmacs + {h}) == NewKeys(group, hmacs) + {Key(group, h)};
  }

  lemma InsertNothing(m: Mappings, group: string)
    ensures InsertAll(m, group, {}) == m
  {
  }

  /** Inserting twice is inserting the union once. */
  lemma InsertTwice(m: Mappings, group: string, a: set<string>, b: set<string>)
    ensures InsertAll(InsertAll(m, group, a), group, b) == InsertAll(m, group, a + b)
  {
    assert NewKeys(group, a + b) == NewKeys(group, a) + NewKeys(group, b);
  }

  /** The keys of the group become the union; every other group and every old row stay. */
  lemma InsertEffect(m: Mappings, group: string, hmacs: set<string>)
    ensures KeysIn(InsertAll(m, group, hmacs), group) == KeysIn(m, group) + hmacs
    ensures forall g :: g != group ==> KeysIn(InsertAll(m, group, hmacs), g) == KeysIn(m, g)
    ensures forall k :: k in m ==> k in InsertAll(m, group, hmacs) && InsertAll(m, group, hmacs)[k] == m[k]
  {
    var m' := InsertAll(m, group, hmacs);
    forall g, h ensures h in KeysIn(m', g) <==> h in KeysIn(m, g) || (g == group && h in hmacs) {
      assert h in KeysIn(m', g) <==> Key(g, h) in m';
      assert h in KeysIn(m, g) <==> Key(g, h) in m;
    }
  }

  lemma GrowthStep(m: Mappings, group: string, hmacs: set<string>, h: string)
    ensures var a, b := InsertAll(m, group, hmacs), InsertAll(m, group, hmacs + {h});
      |b| - |a| == |KeysIn(b, group)| - |KeysIn(a, group)| && |b| - |a| <= 1
  {
    hide InsertAll, KeysIn;
    InsertOne(m, group, hmacs, h);
    InsertEffect(m, group, hmacs);
    InsertEffect(m, group, hmacs + {h});
    var before := KeysIn(InsertAll(m, group, hmacs), group);
    assert KeysIn(InsertAll(m, group, hmacs + {h}), group) == before + {h};
    KeysInMeans(InsertAll(m, group, hmacs), group, h);
  }

  /** The table grows by the keys that are new to the group, at most one per offered key. */
  lemma {:induction false} GroupGrowth(m: Mappings, group: string, hmacs: set<string>)
    ensures |InsertAll(m, group, hmacs)| - |m| == |KeysIn(InsertAll(m, group, hmacs), group)| - |KeysIn(m, group)|
    ensures |InsertAll(m, group, hmacs)| - |m| <= |hmacs|
  {
    hide InsertAll, KeysIn;
    if hmacs == {} {
      InsertNothing(m, group);
    } else {
      var h :| h in hmacs;
      GroupGrowth(m, group, hmacs - {h});
      GrowthStep(m, group, hmacs - {h}, h);
      assert hmacs - {h} + {h} == hmacs;
    }
  }

  lemma KeysInMeans(m: Mappings, group: string, h: string)
    ensures h in KeysIn(m, group) <==> Key(group, h) in m
  {
  }

  lemma InsertKeepsOneToOne(m: Mappings, group: string, hmacs: set<string>)
    requires OneToOne(m) && forall h :: h in hmacs ==> ValidKey(group, h)
    ensures OneToOne(InsertAll(m, group, hmacs)) && Grows(m, InsertAll(m, group, hmacs))
    ensures AssignedKeys(InsertAll(m, group, hmacs)) == AssignedKeys(m)
  {
  }

  /** Inserting keys keeps disjointness exactly when no inserted key is a stored replacement
      digest; the insertion itself does not look. */
  lemma InsertKeepsDisjointExactly(m: Mappings, group: string, hmacs: set<string>)
    requires Disjoint(m)
    ensures Disjoint(InsertAll(m, group, hmacs)) <==> forall h :: h in hmacs ==> !HmacUsed(m, group, h)
  {
    var m' := InsertAll(m, group, hmacs);
    if Disjoint(m') {
      forall h, k | h in hmacs && k in m && k.group == group
        ensures m[k].replacementHmac != Some(h)
      {
        assert k in m' && m'[k] == m[k] && Key(group, h) in m';
      }
    }
    if forall h :: h in hmacs ==> !HmacUsed(m, group, h) {
      forall k | k in m' && m'[k].replacementHmac.Some?
        ensures Key(k.group, m'[k].replacementHmac.value) !in m'
      {
        assert k in m && m'[k] == m[k];
      }
    }
  }

  /** What a batch leaves at each key. */
  lemma {:induction false} AssignAllAt(m: Mappings, group: string, batch: seq<Assignment>)
    requires DistinctItems(batch)
    requires forall i :: 0 <= i < |batch| ==> Key(group, batch[i].source) in m
    ensures AssignAll(m, group, batch).Keys == m.Keys
    ensures forall i :: 0 <= i < |batch| ==>
      AssignAll(m, group, batch)[Key(group, batch[i].source)] == Cell(Some(batch[i].replacement), Some(batch[i].hmac))
    ensures forall k :: k in m && (k.group != group || forall i :: 0 <= i < |batch| ==> batch[i].source != k.hmac) ==>
      AssignAll(m, group, batch)[k] == m[k]
  {
    if batch != [] {
      var n := |batch| - 1;
      var before := AssignAll(m, group, batch[..n]);
      assert AssignAll(m, group, batch) ==
        before[Key(group, batch[n].source) := Cell(Some(batch[n].replacement), Some(batch[n].hmac))];
      hide AssignAll;
      assert forall i :: 0 <= i < n ==> batch[..n][i] == batch[i];
      AssignAllAt(m, group, batch[..n]);
    }
  }

  // ----- a batch, item by item -----

  function AssignOne(m: Mappings, group: string, a: Assignment): Mappings {
    m[Key(group, a.source) := Cell(Some(a.replacement), Some(a.hmac))]
  }

  lemma AssignAllStep(m: Mappings, group: string, batch: seq<Assignment>, i: nat)
    requires i < |batch|
    ensures AssignAll(m, group, batch[..i + 1]) == AssignOne(AssignAll(m, group, batch[..i]), group, batch[i])
  {
    assert batch[..i + 1][..i] == batch[..i];
  }

  lemma {:induction false} AssignAllAppend(m: Mappings, group: string, a: seq<Assignment>, b: seq<Assignment>)
    ensures AssignAll(m, group, a + b) == AssignAll(AssignAll(m, group, a), group, b)
  {
    if b == [] {
      assert a + b == a;
    } else {
      var n := |b| - 1;
      AssignAllAppend(m, group, a, b[..n]);
      assert (a + b)[..|a + b| - 1] == a + b[..n];
    }
  }

  ghost predicate SourcesPending(m: Mappings, group: string, batch: seq<Assignment>) {
    forall i :: 0 <= i < |batch| ==>
      Key(group, batch[i].source) in m && m[Key(group, batch[i].source)] == BLANK
  }

  /** The unique indexes after a batch: what was used before, and the batch's own values. */
  lemma UsedAfter(m: Mappings, group: string, batch: seq<Assignment>, replacement: string, hmac: string)
    requires DistinctItems(batch) && SourcesPending(m, group, batch)
    ensures var m' := AssignAll(m, group, batch);
      && (ReplacementUsed(m', group, replacement) <==>
            || ReplacementUsed(m, group, replacement)
            || exists j :: 0 <= j < |batch| && batch[j].replacement == replacement)
      && (HmacUsed(m', group, hmac) <==>
            HmacUsed(m, group, hmac) || exists j :: 0 <= j < |batch| && batch[j].hmac == hmac)
  {
    var m' := AssignAll(m, group, batch);
    AssignAllAt(m, group, batch);
    forall k | k in m && k.group == group && m[k] != BLANK ensures k in m' && m'[k] == m[k] {
    }
    forall j | 0 <= j < |batch|
      ensures ReplacementUsed(m', group, batch[j].replacement) && HmacUsed(m', group, batch[j].hmac)
    {
      assert Key(group, batch[j].source) in m';
    }
  }

  /** The unique checks of the i-th UPDATE fail exactly when the batch as a whole is refused. */
  lemma UniqueCheckMeaning(m: Mappings, group: string, batch: seq<Assignment>, i: nat)
    requires i < |batch| && SourcesPending(m, group, batch) && DistinctItems(batch[..i])
    requires forall j :: 0 <= j < i ==> batch[j].source != batch[i].source
    ensures var m' := AssignAll(m, group, batch[..i]);
      (ReplacementUsed(m', group, batch[i].replacement) || HmacUsed(m', group, batch[i].hmac)) <==>
      || ReplacementUsed(m, group, batch[i].replacement)
      || HmacUsed(m, group, batch[i].hmac)
      || !DistinctItems(batch[..i + 1])
  {
    var a := batch[i];
    UsedAfter(m, group, batch[..i], a.replacement, a.hmac);
    var prefix := batch[..i + 1];
    assert forall j :: 0 <= j < i ==> prefix[j] == batch[..i][j] == batch[j];
    assert prefix[i] == a;
    assert DistinctItems(prefix) <==>
      forall j :: 0 <= j < i ==> batch[..i][j].replacement != a.replacement && batch[..i][j].hmac != a.hmac;
  }

  lemma AssignOneCounts(m: Mappings, group: string, a: Assignment)
    requires Key(group, a.source) in m && m[Key(group, a.source)].replacement.None?
    ensures |AssignedKeys(AssignOne(m, group, a))| == |AssignedKeys(m)| + 1
  {
    assert AssignedKeys(AssignOne(m, group, a)) == AssignedKeys(m) + {Key(group, a.source)};
  }

  /** One assignment to a pending key keeps the contract. */
  lemma AssignOneKeeps(m: Mappings, group: string, a: Assignment)
    requires OneToOne(m) && ItemOk(m, group, a)
    ensures var m' := AssignOne(m, group, a); OneToOne(m') && Grows(m, m')
  {
    var m' := AssignOne(m, group, a);
    var key := Key(group, a.source);
    forall k, l | k in m' && l in m' && k.group == l.group && k != l
      ensures m'[k].replacement.Some? ==> m'[k].replacement != m'[l].replacement
      ensures m'[k].replacementHmac.Some? ==> m'[k].replacementHmac != m'[l].replacementHmac
    {
      if k == key {
        assert l in m && m'[l] == m[l];
      } else if l == key {
        assert k in m && m'[k] == m[k];
      } else {
        assert m'[k] == m[k] && m'[l] == m[l];
      }
    }
  }

  lemma AssignOneKeepsDisjoint(m: Mappings, group: string, a: Assignment)
    requires Disjoint(m) && ItemOk(m, group, a)
    ensures Disjoint(AssignOne(m, group, a))
  {
  }

  lemma AssignOneKeys(m: Mappings, group: string, a: Assignment)
    requires ItemOk(m, group, a)
    ensures AssignOne(m, group, a).Keys == m.Keys
    ensures Key(group, a.source) in m && m[Key(group, a.source)].replacement.None?
  {
  }

  lemma AssignOkPrefix(m: Mappings, group: string, batch: seq<Assignment>, n: nat)
    requires n <= |batch| && AssignOk(m, group, batch)
    ensures AssignOk(m, group, batch[..n])
  {
    assert forall j :: 0 <= j < n ==> batch[..n][j] == batch[j];
  }

  lemma PendingAreBlank(m: Mappings, group: string, batch: seq<Assignment>)
    requires OneToOne(m)
    requires forall j :: 0 <= j < |batch| ==>
      Key(group, batch[j].source) in m && m[Key(group, batch[j].source)].replacement.None?
    ensures SourcesPending(m, group, batch)
  {
  }

  lemma ItemStillOk(m: Mappings, group: string, batch: seq<Assignment>, i: nat)
    requires i < |batch| && OneToOne(m) && AssignOk(m, group, batch)
    ensures ItemOk(AssignAll(m, group, batch[..i]), group, batch[i])
  {
    hide AssignAll;
    assert forall j :: 0 <= j < |batch| ==> ItemOk(m, group, batch[j]);
    PendingAreBlank(m, group, batch);
    UniqueCheckMeaning(m, group, batch, i);
    AssignAllAt(m, group, batch[..i]);
    assert forall j :: 0 <= j < i ==> batch[..i][j].source != batch[i].source;
  }

  /** A committed batch keeps the contract, drops nothing, never rewrites, and assigns as many keys
      as it has items. */
  lemma {:induction false} AssignKeeps(m: Mappings, group: string, batch: seq<Assignment>)
    requires OneToOne(m) && AssignOk(m, group, batch)
    ensures var m' := AssignAll(m, group, batch);
      && OneToOne(m') && Grows(m, m') && m'.Keys == m.Keys
      && (Disjoint(m) ==> Disjoint(m'))
      && |AssignedKeys(m')| == |AssignedKeys(m)| + |batch|
  {
    if batch != [] {
      var n := |batch| - 1;
      var init := batch[..n];
      hide ItemOk, OneToOne, Disjoint, Grows, AssignedKeys;
      AssignOkPrefix(m, group, batch, n);
      AssignKeeps(m, group, init);
      ItemStillOk(m, group, batch, n);
      var before := AssignAll(m, group, init);
      AssignOneKeeps(before, group, batch[n]);
      AssignOneKeys(before, group, batch[n]);
      AssignOneCounts(before, group, batch[n]);
      AssignAllStep(m, group, batch, n);
      GrowsTransitive(m, before, AssignOne(before, group, batch[n]));
      AssignOneKeys(before, group, batch[n]);
      if Disjoint(m) { AssignOneKeepsDisjoint(before, group, batch[n]); }
      assert batch[..n + 1] == batch;
    }
  }

  /** Exactly the batch's keys leave the pending list of the group; other groups keep theirs. */
  lemma PendingAfter(m: Mappings, group: string, batch: seq<Assignment>)
    requires OneToOne(m) && AssignOk(m, group, batch)
    ensures var m' := AssignAll(m, group, batch);
      && PendingIn(m', group) == PendingIn(m, group) - (set a | a in batch :: a.source)
      && forall g :: g != group ==> PendingIn(m', g) == PendingIn(m, g)
  {
    var m' := AssignAll(m, group, batch);
    assert forall i :: 0 <= i < |batch| ==> ItemOk(m, group, batch[i]);
    AssignAllAt(m, group, batch);
    hide AssignAll, OneToOne, ItemOk, AssignOk;
    var gone := set a | a in batch :: a.source;
    forall h ensures h in PendingIn(m', group) <==> h in PendingIn(m, group) && h !in gone {
      if h in gone {
        var i :| 0 <= i < |batch| && batch[i].source == h;
        assert m'[Key(group, batch[i].source)].replacement.Some?;
      } else {
        assert forall i :: 0 <= i < |batch| ==> batch[i].source != h;
        assert Key(group, h) in m ==> m'[Key(group, h)] == m[Key(group, h)];
      }
      assert h in PendingIn(m, group) <==> Key(group, h) in m && m[Key(group, h)].replacement.None?;
      assert h in PendingIn(m', group) <==> Key(group, h) in m' && m'[Key(group, h)].replacement.None?;
    }
  }

  /** Disjointness is not an invariant of the registry: after an insertion and an accepted batch, a key
      equal to the stored replacement digest is inserted without complaint. */
  lemma InsertCanBreakDisjointness(group: string, a: Hmac, b: Hmac)
    requires group != "" && a != b
    ensures var item := Assignment(a, "x", b);
      var inserted := InsertAll(map[], group, {a});
      var assignedRows := AssignAll(inserted, group, [item]);
      && AssignOk(inserted, group, [item])
      && Disjoint(assignedRows)
      && !Disjoint(InsertAll(assignedRows, group, {b}))
  {
    var item := Assignment(a, "x", b);
    var inserted := InsertAll(map[], group, {a});
    assert inserted == map[Key(group, a) := BLANK] by { assert Key(group, a) in NewKeys(group, {a}); }
    assert [item][..0] == [];
    AssignAllStep(inserted, group, [item], 0);
    assert [item][..1] == [item];
    var assignedRows := AssignAll(inserted, group, [item]);
    assert assignedRows == map[Key(group, a) := Cell(Some("x"), Some(b))];
    assert HmacUsed(assignedRows, group, b) by { assert Key(group, a) in assignedRows; }
    InsertKeepsDisjointExactly(assignedRows, group, {b});
  }
}
