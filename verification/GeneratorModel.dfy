/** What the generator promises, as values: which response items survive, what a request asks for,
    and how accepted values meet the registry's contract. */
module GeneratorModel {
  import opened Base
  import opened Policy
  import opened RegistryModel

  /** `_is_valid_value`: non-empty, within the length limits, matching the whole expression. */
  predicate ValidValue(c: Crypto, g: Group, v: string) {
    && v != ""
    && g.minLength <= |v| <= g.maxLength
    && (g.regex.Some? ==> c.fullmatch(g.regex.value, v))
  }

  function ValueKey(c: Crypto, id: string, g: Group, v: string): Option<string> {
    KeyOf(c, id, g.settings, Text(v))
  }

  /** Neither a source key nor the digest of a stored replacement. */
  predicate FreshKey(m: Mappings, id: string, h: string) {
    Key(id, h) !in m && !HmacUsed(m, id, h)
  }

  /** Item `i` survives: it is valid, its key is fresh and not reserved, and no earlier valid item
      has the same key. */
  ghost predicate Passes(c: Crypto, id: string, g: Group, m: Mappings, reserved: set<string>,
                         items: seq<string>, i: nat)
    requires i < |items|
  {
    var k := ValueKey(c, id, g, items[i]);
    && ValidValue(c, g, items[i]) && k.Some?
    && k.value !in reserved && FreshKey(m, id, k.value)
    && forall j :: 0 <= j < i && ValidValue(c, g, items[j]) ==> ValueKey(c, id, g, items[j]) != k
  }

  /** The surviving items, in order: one greedy pass. */
  ghost function Sift(c: Crypto, id: string, g: Group, m: Mappings, reserved: set<string>, items: seq<string>)
    : seq<string>
  {
    if items == [] then []
    else
      var n := |items| - 1;
      Sift(c, id, g, m, reserved, items[..n])
      + if Passes(c, id, g, m, reserved, items, n) then [items[n]] else []
  }

  function KeysOf(c: Crypto, id: string, g: Group, values: seq<string>): set<string> {
    set v | v in values && ValueKey(c, id, g, v).Some? :: ValueKey(c, id, g, v).value
  }

  lemma SiftNothing(c: Crypto, id: string, g: Group, m: Mappings, reserved: set<string>)
    ensures Sift(c, id, g, m, reserved, []) == [] && KeysOf(c, id, g, []) == {}
  {
  }

  lemma KeyIsDigest(c: Crypto, id: string, g: Group, v: string)
    ensures ValueKey(c, id, g, v).Some? ==> IsDigest(ValueKey(c, id, g, v).value)
  {
  }

  lemma FreshKeyMeans(m: Mappings, id: string, h: string)
    ensures FreshKey(m, id, h) <==> h !in KeysIn(m, id) && !HmacUsed(m, id, h)
  {
    assert h in KeysIn(m, id) <==> Key(id, h) in m;
  }

  lemma PassesPrefix(c: Crypto, id: string, g: Group, m: Mappings, reserved: set<string>,
                     items: seq<string>, n: nat, i: nat)
    requires i < n <= |items|
    ensures Passes(c, id, g, m, reserved, items[..n], i) <==> Passes(c, id, g, m, reserved, items, i)
  {
    assert forall j :: 0 <= j <= i ==> items[..n][j] == items[j];
  }

  lemma SiftStep(c: Crypto, id: string, g: Group, m: Mappings, reserved: set<string>, items: seq<string>, i: nat)
    requires i < |items|
    ensures Sift(c, id, g, m, reserved, items[..i + 1])
         == Sift(c, id, g, m, reserved, items[..i])
            + if Passes(c, id, g, m, reserved, items, i) then [items[i]] else []
  {
    assert items[..i + 1][..i] == items[..i];
    PassesPrefix(c, id, g, m, reserved, items, i + 1, i);
  }

  /** A fresh, unreserved key is held by a survivor exactly when some valid item has it. */
  lemma {:induction false} SiftKeys(c: Crypto, id: string, g: Group, m: Mappings, reserved: set<string>,
                                    items: seq<string>, h: string)
    ensures h in KeysOf(c, id, g, Sift(c, id, g, m, reserved, items)) <==>
      && h !in reserved && FreshKey(m, id, h)
      && exists j :: 0 <= j < |items| && ValidValue(c, g, items[j]) && ValueKey(c, id, g, items[j]) == Some(h)
  {
    if items != [] {
      var n := |items| - 1;
      var before := Sift(c, id, g, m, reserved, items[..n]);
      SiftKeys(c, id, g, m, reserved, items[..n], h);
      assert forall j :: 0 <= j < n ==> items[..n][j] == items[j];
      if Passes(c, id, g, m, reserved, items, n) {
        assert h in KeysOf(c, id, g, before + [items[n]]) <==>
          h in KeysOf(c, id, g, before) || ValueKey(c, id, g, items[n]) == Some(h);
      }
    }
  }

  /** The loop's test against its `seen` set is the greedy test. */
  lemma SeenTestIsPasses(c: Crypto, id: string, g: Group, m: Mappings, reserved: set<string>, items: seq<string>,
                         i: nat)
    requires i < |items| && ValidValue(c, g, items[i]) && ValueKey(c, id, g, items[i]).Some?
    ensures var h := ValueKey(c, id, g, items[i]).value;
      var seen := reserved + KeysOf(c, id, g, Sift(c, id, g, m, reserved, items[..i]));
      Passes(c, id, g, m, reserved, items, i) <==> h !in seen && FreshKey(m, id, h)
  {
    var h := ValueKey(c, id, g, items[i]).value;
    SiftKeys(c, id, g, m, reserved, items[..i], h);
    assert forall j :: 0 <= j < i ==> items[..i][j] == items[j];
  }

  /** The loop of `_valid_replacements` keeps exactly the first `needed` survivors. */
  lemma ReviewStep(c: Crypto, id: string, g: Group, m: Mappings, reserved: set<string>, items: seq<string>, i: nat,
                   needed: nat, kept: seq<string>)
    requires i < |items| && kept == Take(Sift(c, id, g, m, reserved, items[..i]), needed)
    ensures var k := ValueKey(c, id, g, items[i]);
      var keep := ValidValue(c, g, items[i]) && k.Some? && |kept| < needed
        && k.value !in reserved + KeysOf(c, id, g, kept) && FreshKey(m, id, k.value);
      && Take(Sift(c, id, g, m, reserved, items[..i + 1]), needed) == kept + (if keep then [items[i]] else [])
      && (keep ==> KeysOf(c, id, g, kept + [items[i]]) == KeysOf(c, id, g, kept) + {k.value})
  {
    hide Sift, FreshKey, ValidValue;
    SiftStep(c, id, g, m, reserved, items, i);
    var k := ValueKey(c, id, g, items[i]);
    if ValidValue(c, g, items[i]) && k.Some? && |kept| < needed {
      SeenTestIsPasses(c, id, g, m, reserved, items, i);
      assert KeysOf(c, id, g, kept + [items[i]]) == KeysOf(c, id, g, kept) + {k.value};
    }
  }

  /** Sifting two responses one after the other, each against what is already accepted, is sifting
      their concatenation once. */
  lemma {:induction false} SiftConcat(c: Crypto, id: string, g: Group, m: Mappings, a: seq<string>, b: seq<string>)
    ensures Sift(c, id, g, m, {}, a + b)
         == Sift(c, id, g, m, {}, a) + Sift(c, id, g, m, KeysOf(c, id, g, Sift(c, id, g, m, {}, a)), b)
  {
    var held := KeysOf(c, id, g, Sift(c, id, g, m, {}, a));
    if b == [] {
      assert a + b == a;
    } else {
      var n := |b| - 1;
      SiftConcat(c, id, g, m, a, b[..n]);
      assert (a + b)[..|a| + n] == a + b[..n];
      assert (a + b)[|a| + n] == b[n];
      if ValueKey(c, id, g, b[n]).Some? {
        SiftKeys(c, id, g, m, {}, a, ValueKey(c, id, g, b[n]).value);
      }
      PassesConcat(c, id, g, m, a, b, n);
    }
  }

  lemma PassesConcat(c: Crypto, id: string, g: Group, m: Mappings, a: seq<string>, b: seq<string>, n: nat)
    requires n < |b|
    ensures Passes(c, id, g, m, {}, a + b, |a| + n) <==>
      Passes(c, id, g, m, KeysOf(c, id, g, Sift(c, id, g, m, {}, a)), b, n)
  {
    var ab := a + b;
    assert forall j :: 0 <= j < |a| ==> ab[j] == a[j];
    assert forall j :: 0 <= j < |b| ==> ab[|a| + j] == b[j];
    var k := ValueKey(c, id, g, b[n]);
    if k.Some? {
      SiftKeys(c, id, g, m, {}, a, k.value);
      assert (forall j :: 0 <= j < |a| + n && ValidValue(c, g, ab[j]) ==> ValueKey(c, id, g, ab[j]) != k) <==>
        (forall j :: 0 <= j < |a| && ValidValue(c, g, a[j]) ==> ValueKey(c, id, g, a[j]) != k)
        && (forall j :: 0 <= j < n && ValidValue(c, g, b[j]) ==> ValueKey(c, id, g, b[j]) != k) by {
        assert forall j :: |a| <= j < |a| + n ==> ab[j] == b[j - |a|];
      }
    }
  }

  /** Values that may be assigned together: each valid with a fresh key, all keys different. */
  ghost predicate Assignables(c: Crypto, id: string, g: Group, m: Mappings, values: seq<string>) {
    && (forall i :: 0 <= i < |values| ==>
          && ValidValue(c, g, values[i]) && ValueKey(c, id, g, values[i]).Some?
          && FreshKey(m, id, ValueKey(c, id, g, values[i]).value))
    && forall i, j :: 0 <= i < j < |values| ==> ValueKey(c, id, g, values[i]) != ValueKey(c, id, g, values[j])
  }

  lemma {:induction false} SiftAssignables(c: Crypto, id: string, g: Group, m: Mappings, items: seq<string>)
    ensures Assignables(c, id, g, m, Sift(c, id, g, m, {}, items))
  {
    if items != [] {
      var n := |items| - 1;
      var before := Sift(c, id, g, m, {}, items[..n]);
      SiftAssignables(c, id, g, m, items[..n]);
      if Passes(c, id, g, m, {}, items, n) {
        var h := ValueKey(c, id, g, items[n]).value;
        SiftKeys(c, id, g, m, {}, items[..n], h);
        assert forall j :: 0 <= j < n ==> items[..n][j] == items[j];
        assert h !in KeysOf(c, id, g, before);
        assert forall i :: 0 <= i < |before| ==> before[i] in before;
      }
    }
  }

  // ----- requests -----

  /** `_request_count`. */
  function RequestCount(batchSize: nat, remaining: nat): nat {
    var surplus := Max(2, (remaining + 3) / 4);
    Min(1_000, Min(batchSize * 2, remaining + surplus))
  }

  /** Each request asks for what is still needed, within the request model's limit and twice the batch. */
  lemma RequestCountBounds(batchSize: nat, remaining: nat)
    requires 1 <= remaining <= batchSize
    ensures Min(1_000, remaining) <= RequestCount(batchSize, remaining) <= Min(1_000, batchSize * 2)
    ensures 1 <= RequestCount(batchSize, remaining)
    ensures RequestCount(batchSize, remaining) > remaining || remaining >= 1_000
  {
  }

  // ----- responses -----

  /** What one provider call yields: an error it raises itself, output that fails the response
      model, or a list of items. */
  datatype Outcome = Raised | Malformed | Items(values: seq<string>)

  /** The response is read to the end: it is not empty and no valid item fails to normalise. */
  ghost predicate Usable(c: Crypto, id: string, g: Group, o: Outcome) {
    o.Items? && o.values != []
    && forall i :: 0 <= i < |o.values| && ValidValue(c, g, o.values[i]) ==> ValueKey(c, id, g, o.values[i]).Some?
  }

  /** All items of the usable responses among the first `n` outcomes; a provider without a further
      outcome raises. */
  ghost function UsableItems(c: Crypto, id: string, g: Group, script: seq<Outcome>, n: nat): seq<string> {
    if n == 0 then []
    else
      UsableItems(c, id, g, script, n - 1)
      + if n <= |script| && Usable(c, id, g, script[n - 1]) then script[n - 1].values else []
  }

  /** A provider with no outcome left raises. */
  function Head(script: seq<Outcome>): Outcome {
    if script == [] then Raised else script[0]
  }

  /** The survivors of the first `n` outcomes taken as one list. */
  ghost function Pool(c: Crypto, id: string, g: Group, m: Mappings, script: seq<Outcome>, n: nat): seq<string> {
    Sift(c, id, g, m, {}, UsableItems(c, id, g, script, n))
  }

  /** One more outcome extends the pool by its own survivors against the keys already held, or not
      at all. */
  lemma PoolStep(c: Crypto, id: string, g: Group, m: Mappings, script: seq<Outcome>, n: nat)
    ensures var o := Head(Drop(script, n));
      var held := KeysOf(c, id, g, Pool(c, id, g, m, script, n));
      if Usable(c, id, g, o) then
        && Pool(c, id, g, m, script, n + 1) == Pool(c, id, g, m, script, n) + Sift(c, id, g, m, held, o.values)
        && |UsableItems(c, id, g, script, n + 1)| == |UsableItems(c, id, g, script, n)| + |o.values|
      else UsableItems(c, id, g, script, n + 1) == UsableItems(c, id, g, script, n)
  {
    var o := Head(Drop(script, n));
    if Usable(c, id, g, o) {
      SiftConcat(c, id, g, m, UsableItems(c, id, g, script, n), o.values);
    }
  }

  /** How a batch of `n` keys ends after `k` requests: it stops at the first request whose pool has
      `n` survivors and takes the first `n`; otherwise every permitted request is spent. */
  ghost predicate BatchOutcome(c: Crypto, id: string, g: Group, m: Mappings, script: seq<Outcome>,
                               n: nat, retries: nat, k: nat, ok: bool, values: seq<string>)
  {
    && 1 <= k <= retries + 1
    && (forall j :: 0 <= j < k ==> |Pool(c, id, g, m, script, j)| < n)
    && (if ok then |Pool(c, id, g, m, script, k)| >= n && values == Take(Pool(c, id, g, m, script, k), n)
        else |Pool(c, id, g, m, script, k)| < n && k == retries + 1 && values == [])
  }

  /** The retry loop after `k` requests without a full batch: it holds the whole pool, and has
      rejected every other item of the usable responses. */
  ghost predicate Filling(c: Crypto, id: string, g: Group, m: Mappings, script: seq<Outcome>, n: nat,
                          k: nat, found: seq<string>, held: set<string>, rejected: int)
  {
    && found == Pool(c, id, g, m, script, k)
    && held == KeysOf(c, id, g, found)
    && rejected == |UsableItems(c, id, g, script, k)| - |found|
    && forall j :: 0 <= j <= k ==> |Pool(c, id, g, m, script, j)| < n
  }

  lemma FillingPool(c: Crypto, id: string, g: Group, m: Mappings, script: seq<Outcome>, n: nat,
                    k: nat, found: seq<string>, held: set<string>, rejected: int)
    requires Filling(c, id, g, m, script, n, k, found, held, rejected)
    ensures found == Pool(c, id, g, m, script, k) && |found| < n
  {
  }

  lemma FillStart(c: Crypto, id: string, g: Group, m: Mappings, script: seq<Outcome>, n: nat)
    requires n >= 1
    ensures Filling(c, id, g, m, script, n, 0, [], {}, 0)
  {
  }

  lemma FillSkip(c: Crypto, id: string, g: Group, m: Mappings, script: seq<Outcome>, n: nat,
                 k: nat, found: seq<string>, held: set<string>, rejected: int)
    requires Filling(c, id, g, m, script, n, k, found, held, rejected)
    requires !Usable(c, id, g, Head(Drop(script, k)))
    ensures Filling(c, id, g, m, script, n, k + 1, found, held, rejected)
  {
    PoolStep(c, id, g, m, script, k);
  }

  lemma KeysOfAppend(c: Crypto, id: string, g: Group, a: seq<string>, b: seq<string>)
    ensures KeysOf(c, id, g, a + b) == KeysOf(c, id, g, a) + KeysOf(c, id, g, b)
  {
  }

  /** A usable response adds its own survivors; the batch is full exactly when the longer pool has
      `n` survivors, and then holds the first `n` of them. */
  lemma FillAccept(c: Crypto, id: string, g: Group, m: Mappings, script: seq<Outcome>, n: nat,
                   k: nat, found: seq<string>, held: set<string>, rejected: int, got: seq<string>)
    requires Filling(c, id, g, m, script, n, k, found, held, rejected)
    requires Usable(c, id, g, Head(Drop(script, k)))
    requires got == Take(Sift(c, id, g, m, held, Head(Drop(script, k)).values), n - |found|)
    ensures var found' := found + got;
      var rejected' := rejected + |Head(Drop(script, k)).values| - |got|;
      if |found'| != n then
        && |found'| < n
        && Filling(c, id, g, m, script, n, k + 1, found', held + KeysOf(c, id, g, got), rejected')
      else
        && |Pool(c, id, g, m, script, k + 1)| >= n && found' == Take(Pool(c, id, g, m, script, k + 1), n)
        && rejected' == |UsableItems(c, id, g, script, k + 1)| - n
        && forall j :: 0 <= j < k + 1 ==> |Pool(c, id, g, m, script, j)| < n
  {
    PoolStep(c, id, g, m, script, k);
    KeysOfAppend(c, id, g, found, got);
    hide Usable, Sift, UsableItems, KeysOf, Drop;
  }

  lemma FillExhausted(c: Crypto, id: string, g: Group, m: Mappings, script: seq<Outcome>, n: nat,
                      k: nat, found: seq<string>, held: set<string>, rejected: int)
    requires k >= 1 && Filling(c, id, g, m, script, n, k, found, held, rejected)
    ensures BatchOutcome(c, id, g, m, script, n, k - 1, k, false, [])
    ensures rejected == |UsableItems(c, id, g, script, k)| - |Pool(c, id, g, m, script, k)|
  {
  }

  lemma BatchValuesAssignable(c: Crypto, id: string, g: Group, m: Mappings, script: seq<Outcome>, n: nat, k: nat)
    requires |Pool(c, id, g, m, script, k)| >= n
    ensures Assignables(c, id, g, m, Take(Pool(c, id, g, m, script, k), n))
    ensures |Take(Pool(c, id, g, m, script, k), n)| == n
  {
    SiftAssignables(c, id, g, m, UsableItems(c, id, g, script, k));
  }

  // ----- assignments -----

  function Zip(c: Crypto, id: string, g: Group, keys: seq<string>, values: seq<string>): seq<Assignment>
    requires |keys| == |values|
    requires forall i :: 0 <= i < |values| ==> ValueKey(c, id, g, values[i]).Some?
  {
    seq(|keys|, i requires 0 <= i < |keys| => Assignment(keys[i], values[i], ValueKey(c, id, g, values[i]).value))
  }

  /** Stored replacements of the group are valid, and their stored digest is their own key. */
  ghost predicate Faithful(c: Crypto, id: string, g: Group, m: Mappings) {
    forall k :: k in m && k.group == id && m[k].replacement.Some? ==>
      ValidValue(c, g, m[k].replacement.value)
      && ValueKey(c, id, g, m[k].replacement.value) == m[k].replacementHmac
  }

  ghost predicate ItemsFaithful(c: Crypto, id: string, g: Group, batch: seq<Assignment>) {
    forall i :: 0 <= i < |batch| ==>
      ValidValue(c, g, batch[i].replacement) && ValueKey(c, id, g, batch[i].replacement) == Some(batch[i].hmac)
  }

  ghost predicate PendingKeys(m: Mappings, id: string, keys: seq<string>) {
    Distinct(keys) && forall i :: 0 <= i < |keys| ==> Key(id, keys[i]) in m && m[Key(id, keys[i])].replacement.None?
  }

  /** Every check of the registry and both of its unique indexes accept a generated batch. */
  lemma GeneratedBatchAccepted(c: Crypto, id: string, g: Group, m: Mappings, keys: seq<string>, values: seq<string>)
    requires OneToOne(m) && Faithful(c, id, g, m)
    requires |keys| == |values| && PendingKeys(m, id, keys) && Assignables(c, id, g, m, values)
    ensures AssignOk(m, id, Zip(c, id, g, keys, values))
    ensures ItemsFaithful(c, id, g, Zip(c, id, g, keys, values))
  {
    var batch := Zip(c, id, g, keys, values);
    forall i | 0 <= i < |batch| ensures ItemOk(m, id, batch[i]) {
      var h := ValueKey(c, id, g, values[i]).value;
      assert FreshKey(m, id, h);
      forall k | k in m && k.group == id ensures m[k].replacement != Some(values[i]) {
        assert m[k].replacementHmac != Some(h);
      }
    }
  }

  lemma FaithfulAfter(c: Crypto, id: string, g: Group, m: Mappings, batch: seq<Assignment>)
    requires OneToOne(m) && Faithful(c, id, g, m) && AssignOk(m, id, batch) && ItemsFaithful(c, id, g, batch)
    ensures Faithful(c, id, g, AssignAll(m, id, batch))
  {
    var m' := AssignAll(m, id, batch);
    assert forall i :: 0 <= i < |batch| ==> ItemOk(m, id, batch[i]);
    AssignAllAt(m, id, batch);
    forall k | k in m' && k.group == id && m'[k].replacement.Some?
      ensures ValidValue(c, g, m'[k].replacement.value)
      ensures ValueKey(c, id, g, m'[k].replacement.value) == m'[k].replacementHmac
    {
      if i :| 0 <= i < |batch| && batch[i].source == k.hmac {
        assert k == Key(id, batch[i].source);
      } else {
        assert m'[k] == m[k];
      }
    }
  }

  // ----- a whole group -----

  /** The first `|values|` of the initially pending keys, in sorted order, hold `values`. */
  ghost predicate GroupProgress(c: Crypto, id: string, g: Group, start: Mappings, values: seq<string>, now: Mappings) {
    var keys := SortedList(PendingIn(start, id));
    && |values| <= |keys|
    && Assignables(c, id, g, start, values)
    && now == AssignAll(start, id, Zip(c, id, g, keys[..|values|], values))
  }

  lemma PendingListed(m: Mappings, id: string, n: nat)
    requires n <= |PendingIn(m, id)|
    ensures PendingKeys(m, id, SortedList(PendingIn(m, id))[..n])
  {
    hide SortedList;
    var keys := SortedList(PendingIn(m, id));
    forall i | 0 <= i < n ensures Key(id, keys[i]) in m && m[Key(id, keys[i])].replacement.None? {
      assert keys[i] in Elements(keys);
    }
  }

  lemma GroupStart(c: Crypto, id: string, g: Group, m: Mappings)
    ensures GroupProgress(c, id, g, m, [], m)
  {
  }

  lemma ZipSources(c: Crypto, id: string, g: Group, keys: seq<string>, values: seq<string>)
    requires |keys| == |values|
    requires forall i :: 0 <= i < |values| ==> ValueKey(c, id, g, values[i]).Some?
    ensures (set a | a in Zip(c, id, g, keys, values) :: a.source) == Elements(keys)
  {
    var z := Zip(c, id, g, keys, values);
    forall k | k in keys ensures exists a :: a in z && a.source == k {
      var i :| 0 <= i < |keys| && keys[i] == k;
      assert z[i] in z;
    }
  }

  /** What progress means for the tables: the contract is kept, nothing assigned before changes,
      other groups keep their pending keys, and the rest of the sorted list is still pending. */
  lemma GroupProgressMeaning(c: Crypto, id: string, g: Group, start: Mappings, values: seq<string>, now: Mappings)
    requires OneToOne(start) && Faithful(c, id, g, start) && GroupProgress(c, id, g, start, values, now)
    ensures OneToOne(now) && Faithful(c, id, g, now) && Grows(start, now) && now.Keys == start.Keys
    ensures Disjoint(start) ==> Disjoint(now)
    ensures forall other :: other != id ==> PendingIn(now, other) == PendingIn(start, other)
    ensures SortedList(PendingIn(now, id)) == SortedList(PendingIn(start, id))[|values|..]
  {
    hide SortedList, OneToOne, Faithful, Grows, Disjoint, AssignAll, PendingIn, Assignables;
    var keys := SortedList(PendingIn(start, id));
    var n := |values|;
    PendingListed(start, id, n);
    AssignablesHaveKeys(c, id, g, start, values);
    GeneratedBatchAccepted(c, id, g, start, keys[..n], values);
    var batch := Zip(c, id, g, keys[..n], values);
    AssignKeeps(start, id, batch);
    FaithfulAfter(c, id, g, start, batch);
    PendingAfter(start, id, batch);
    ZipSources(c, id, g, keys[..n], values);
    SortedListDrop(PendingIn(start, id), n);
  }

  lemma AssignablesHaveKeys(c: Crypto, id: string, g: Group, m: Mappings, values: seq<string>)
    requires Assignables(c, id, g, m, values)
    ensures forall i :: 0 <= i < |values| ==> ValueKey(c, id, g, values[i]).Some?
  {
  }

  /** Values that are fresh after a first batch extend the values that were fresh before it. */
  lemma AssignablesExtend(c: Crypto, id: string, g: Group, m: Mappings, keys: seq<string>,
                          values: seq<string>, more: seq<string>)
    requires OneToOne(m) && Faithful(c, id, g, m) && |keys| == |values| && PendingKeys(m, id, keys)
    requires Assignables(c, id, g, m, values)
    requires Assignables(c, id, g, AssignAll(m, id, Zip(c, id, g, keys, values)), more)
    ensures Assignables(c, id, g, m, values + more)
  {
    var batch := Zip(c, id, g, keys, values);
    GeneratedBatchAccepted(c, id, g, m, keys, values);
    AssignKeeps(m, id, batch);
    PendingAreBlank(m, id, batch);
    hide OneToOne, Faithful, AssignAll, AssignOk, ItemsFaithful, ValidValue, ValueKey;
    forall j | 0 <= j < |more|
      ensures FreshKey(m, id, ValueKey(c, id, g, more[j]).value)
      ensures forall i :: 0 <= i < |values| ==> batch[i].hmac != ValueKey(c, id, g, more[j]).value
    {
      var h := ValueKey(c, id, g, more[j]).value;
      UsedAfter(m, id, batch, "", h);
      assert FreshKey(AssignAll(m, id, batch), id, h);
    }
    AssignablesJoin(c, id, g, m, keys, values, more);
  }

  lemma AssignablesJoin(c: Crypto, id: string, g: Group, m: Mappings, keys: seq<string>,
                        values: seq<string>, more: seq<string>)
    requires Assignables(c, id, g, m, values) && |keys| == |values|
    requires forall j :: 0 <= j < |more| ==> ValidValue(c, g, more[j]) && ValueKey(c, id, g, more[j]).Some?
    requires forall i, j :: 0 <= i < j < |more| ==> ValueKey(c, id, g, more[i]) != ValueKey(c, id, g, more[j])
    requires forall j :: 0 <= j < |more| ==>
      && FreshKey(m, id, ValueKey(c, id, g, more[j]).value)
      && forall i :: 0 <= i < |values| ==> Zip(c, id, g, keys, values)[i].hmac != ValueKey(c, id, g, more[j]).value
    ensures Assignables(c, id, g, m, values + more)
  {
    hide FreshKey, ValidValue, ValueKey;
    forall i, j | 0 <= i < |values| && 0 <= j < |more|
      ensures ValueKey(c, id, g, values[i]) != ValueKey(c, id, g, more[j])
    {
      assert Zip(c, id, g, keys, values)[i].hmac == ValueKey(c, id, g, values[i]).value;
    }
  }

  lemma ZipAppend(c: Crypto, id: string, g: Group, keys: seq<string>, more: seq<string>, values: seq<string>,
                  added: seq<string>)
    requires |keys| == |values| && |more| == |added|
    requires forall i :: 0 <= i < |values| ==> ValueKey(c, id, g, values[i]).Some?
    requires forall i :: 0 <= i < |added| ==> ValueKey(c, id, g, added[i]).Some?
    ensures forall i :: 0 <= i < |values + added| ==> ValueKey(c, id, g, (values + added)[i]).Some?
    ensures Zip(c, id, g, keys + more, values + added) == Zip(c, id, g, keys, values) + Zip(c, id, g, more, added)
  {
  }

  /** One more batch, taken from the head of the pending list, continues the progress. */
  lemma GroupStep(c: Crypto, id: string, g: Group, start: Mappings, values: seq<string>, now: Mappings,
                  batch: seq<string>, added: seq<string>)
    requires OneToOne(start) && Faithful(c, id, g, start) && GroupProgress(c, id, g, start, values, now)
    requires |added| == |batch| <= |PendingIn(now, id)| && batch == SortedList(PendingIn(now, id))[..|batch|]
    requires Assignables(c, id, g, now, added)
    ensures forall i :: 0 <= i < |added| ==> ValueKey(c, id, g, added[i]).Some?
    ensures GroupProgress(c, id, g, start, values + added, AssignAll(now, id, Zip(c, id, g, batch, added)))
  {
    hide SortedList, OneToOne, Faithful, Grows, Disjoint, AssignAll, PendingIn, Assignables, PendingKeys;
    var keys := SortedList(PendingIn(start, id));
    var n := |values|;
    GroupProgressMeaning(c, id, g, start, values, now);
    PendingListed(start, id, n);
    AssignablesHaveKeys(c, id, g, start, values);
    AssignablesHaveKeys(c, id, g, now, added);
    AssignablesExtend(c, id, g, start, keys[..n], values, added);
    assert keys[..n + |added|] == keys[..n] + batch;
    ZipAppend(c, id, g, keys[..n], batch, values, added);
    AssignAllAppend(start, id, Zip(c, id, g, keys[..n], values), Zip(c, id, g, batch, added));
  }

  /** One more stored batch: from the state in which the earlier values are stored, and from the
      provider outcomes not yet consumed, the retry loop filled the next batch. */
  ghost predicate NextBatch(c: Crypto, id: string, g: Group, start: Mappings, script: seq<Outcome>, b: nat,
                            retries: nat, mid: Mappings, before: seq<string>, j: nat, values: seq<string>, k: nat)
  {
    var n := |PendingIn(start, id)|;
    && GroupProgress(c, id, g, start, before, mid)
    && before <= values && |values| - |before| == Min(b, n - |before|) && j <= k
    && BatchOutcome(c, id, g, mid, Drop(script, j), |values| - |before|, retries, k - j, true, values[|before|..])
  }

  /** `values` are the concatenated batches that the first `k` provider outcomes filled, batch after
      batch in rounds of `b` keys. */
  ghost predicate FilledInBatches(c: Crypto, id: string, g: Group, start: Mappings, script: seq<Outcome>, b: nat,
                                  retries: nat, rounds: nat, values: seq<string>, k: nat)
  {
    if rounds == 0 then values == [] && k == 0
    else
      exists mid, before, j: nat :: NextBatch(c, id, g, start, script, b, retries, mid, before, j, values, k)
        && FilledInBatches(c, id, g, start, script, b, retries, rounds - 1, before, j)
  }

  lemma FilledNothing(c: Crypto, id: string, g: Group, start: Mappings, script: seq<Outcome>, b: nat, retries: nat)
    ensures FilledInBatches(c, id, g, start, script, b, retries, 0, [], 0)
  {
  }

  lemma FilledNext(c: Crypto, id: string, g: Group, start: Mappings, script: seq<Outcome>, b: nat, retries: nat,
                   rounds: nat, mid: Mappings, before: seq<string>, j: nat, added: seq<string>, tries: nat)
    requires FilledInBatches(c, id, g, start, script, b, retries, rounds, before, j)
    requires GroupProgress(c, id, g, start, before, mid) && |added| == Min(b, |PendingIn(start, id)| - |before|)
    requires BatchOutcome(c, id, g, mid, Drop(script, j), |added|, retries, tries, true, added)
    ensures FilledInBatches(c, id, g, start, script, b, retries, rounds + 1, before + added, j + tries)
  {
    hide GroupProgress, BatchOutcome, PendingIn, Drop;
    var values := before + added;
    assert values[|before|..] == added;
    assert NextBatch(c, id, g, start, script, b, retries, mid, before, j, values, j + tries);
  }

  /** How the batches of a group end after `k` requests: everything pending at the start is filled, or
      the batch after the filled ones spent its requests in vain. */
  ghost predicate GroupOutcome(c: Crypto, id: string, g: Group, start: Mappings, script: seq<Outcome>, b: nat,
                               retries: nat, rounds: nat, values: seq<string>, k: nat, failed: bool, now: Mappings)
  {
    var n := |PendingIn(start, id)|;
    exists used: nat :: FilledInBatches(c, id, g, start, script, b, retries, rounds, values, used)
      && if failed then
           |values| < n && used <= k
           && BatchOutcome(c, id, g, now, Drop(script, used), Min(b, n - |values|), retries, k - used, false, [])
         else |values| == n && used == k
  }

  lemma GroupFails(c: Crypto, id: string, g: Group, start: Mappings, script: seq<Outcome>, b: nat, retries: nat,
                   rounds: nat, values: seq<string>, used: nat, tries: nat, now: Mappings, n: nat)
    requires FilledInBatches(c, id, g, start, script, b, retries, rounds, values, used)
    requires |values| < |PendingIn(start, id)| && n == Min(b, |PendingIn(start, id)| - |values|)
    requires BatchOutcome(c, id, g, now, Drop(script, used), n, retries, tries, false, [])
    ensures GroupOutcome(c, id, g, start, script, b, retries, rounds, values, used + tries, true, now)
  {
    hide FilledInBatches, BatchOutcome, PendingIn, Drop;
    assert used + tries - used == tries;
  }

  lemma GroupEnds(c: Crypto, id: string, g: Group, start: Mappings, script: seq<Outcome>, b: nat, retries: nat,
                  rounds: nat, values: seq<string>, k: nat, now: Mappings)
    requires FilledInBatches(c, id, g, start, script, b, retries, rounds, values, k)
    requires |values| == |PendingIn(start, id)|
    ensures GroupOutcome(c, id, g, start, script, b, retries, rounds, values, k, false, now)
  {
    hide FilledInBatches, BatchOutcome, PendingIn, Drop;
  }

  lemma DropDrop<T>(s: seq<T>, j: nat, k: nat)
    ensures Drop(Drop(s, j), k) == Drop(s, j + k)
  {
  }

  // ----- how much work -----

  function CeilDiv(n: nat, b: nat): nat
    requires b >= 1
  {
    (n + b - 1) / b
  }

  /** After `rounds` batches of a group with `n` pending keys: `done` keys are filled, and between one
      and `retries + 1` requests were made for each batch. */
  ghost predicate WorkDone(b: nat, retries: nat, n: nat, rounds: nat, done: nat, k: nat) {
    && done == Min(rounds * b, n)
    && (rounds >= 1 ==> (rounds - 1) * b < n)
    && rounds <= k <= (retries + 1) * rounds
  }

  lemma WorkStart(b: nat, retries: nat, n: nat)
    ensures WorkDone(b, retries, n, 0, 0, 0)
  {
  }

  lemma WorkStep(b: nat, retries: nat, n: nat, rounds: nat, done: nat, k: nat, tries: nat)
    requires b >= 1 && WorkDone(b, retries, n, rounds, done, k) && done < n && 1 <= tries <= retries + 1
    ensures WorkDone(b, retries, n, rounds + 1, done + Min(b, n - done), k + tries)
  {
    assert (rounds + 1) * b == rounds * b + b;
    assert (retries + 1) * (rounds + 1) == (retries + 1) * rounds + (retries + 1);
  }

  lemma WorkFinished(b: nat, retries: nat, n: nat, rounds: nat, k: nat)
    requires b >= 1 && WorkDone(b, retries, n, rounds, n, k)
    ensures CeilDiv(n, b) <= k <= (retries + 1) * CeilDiv(n, b)
  {
    CeilDivUnique(n, b, rounds);
  }

  lemma CeilDivUnique(n: nat, b: nat, rounds: nat)
    requires b >= 1 && n <= rounds * b && (rounds >= 1 ==> (rounds - 1) * b < n)
    ensures rounds == CeilDiv(n, b)
  {
    if rounds >= 1 {
      var x := n + b - 1;
      assert rounds * b <= x < rounds * b + b by {
        assert (rounds - 1) * b == rounds * b - b;
      }
      DivIs(x, b, rounds);
    }
  }

  lemma MulMono(a: int, b: int, c: nat)
    requires a <= b
    ensures a * c <= b * c
  {
    assert (b - a) * c >= 0;
    assert (b - a) * c == b * c - a * c;
  }

  lemma DivIs(x: int, b: int, q: int)
    requires b >= 1 && q * b <= x < q * b + b
    ensures x / b == q
  {
    var d, r := x / b, x % b;
    assert x == d * b + r && 0 <= r < b;
    assert (d + 1) * b == d * b + b && (q + 1) * b == q * b + b;
    if d < q { MulMono(d + 1, q, b); }
    if d > q { MulMono(q + 1, d, b); }
  }

  // ----- the loop over batches -----

  /** The state between two batches. */
  ghost predicate GroupFilling(c: Crypto, id: string, g: Group, start: Mappings, script: seq<Outcome>, b: nat,
                               retries: nat, rounds: nat, values: seq<string>, k: nat, now: Mappings)
  {
    && GroupProgress(c, id, g, start, values, now)
    && FilledInBatches(c, id, g, start, script, b, retries, rounds, values, k)
    && WorkDone(b, retries, |PendingIn(start, id)|, rounds, |values|, k)
  }

  lemma FillingStarts(c: Crypto, id: string, g: Group, m: Mappings, script: seq<Outcome>, b: nat, retries: nat)
    ensures GroupFilling(c, id, g, m, script, b, retries, 0, [], 0, m)
  {
    hide *;
    GroupStart(c, id, g, m);
    FilledNothing(c, id, g, m, script, b, retries);
    WorkStart(b, retries, |PendingIn(m, id)|);
    FillingIs(c, id, g, m, script, b, retries, 0, [], 0, m);
  }

  lemma FillingIs(c: Crypto, id: string, g: Group, start: Mappings, script: seq<Outcome>, b: nat, retries: nat,
                  rounds: nat, values: seq<string>, k: nat, now: Mappings)
    ensures GroupFilling(c, id, g, start, script, b, retries, rounds, values, k, now) <==>
      && GroupProgress(c, id, g, start, values, now)
      && FilledInBatches(c, id, g, start, script, b, retries, rounds, values, k)
      && WorkDone(b, retries, |PendingIn(start, id)|, rounds, |values|, k)
    ensures GroupProgress(c, id, g, start, values, now) ==> |values| <= |PendingIn(start, id)|
  {
    hide FilledInBatches, WorkDone, PendingIn, AssignAll, Assignables;
  }

  /** The listing of the next batch: the head of what is still pending, or nothing when all is filled. */
  lemma NextListed(c: Crypto, id: string, g: Group, start: Mappings, script: seq<Outcome>, b: nat, retries: nat,
                   rounds: nat, values: seq<string>, k: nat, now: Mappings, pending: seq<string>)
    requires b >= 1 && OneToOne(start) && Faithful(c, id, g, start)
    requires GroupFilling(c, id, g, start, script, b, retries, rounds, values, k, now)
    requires pending == Take(SortedList(PendingIn(now, id)), b)
    ensures OneToOne(now) && Faithful(c, id, g, now)
    ensures |values| + |pending| <= |PendingIn(start, id)| && |pending| == Min(b, |PendingIn(start, id)| - |values|)
    ensures pending == [] ==> |values| == |PendingIn(start, id)|
    ensures |pending| <= |PendingIn(now, id)| && pending == SortedList(PendingIn(now, id))[..|pending|]
    ensures PendingKeys(now, id, pending)
  {
    hide *;
    FillingIs(c, id, g, start, script, b, retries, rounds, values, k, now);
    GroupProgressMeaning(c, id, g, start, values, now);
    HeadOfPending(now, start, id, |values|, b, pending);
    MinBounds(b, |PendingIn(start, id)| - |values|);
  }

  lemma MinBounds(a: int, b: int)
    ensures Min(a, b) <= a && Min(a, b) <= b
  {
  }

  /** What the listing of the next batch is, relative to the initial pending list. */
  lemma HeadOfPending(now: Mappings, start: Mappings, id: string, done: nat, limit: nat, pending: seq<string>)
    requires limit >= 1 && done <= |PendingIn(start, id)|
    requires SortedList(PendingIn(now, id)) == SortedList(PendingIn(start, id))[done..]
    requires pending == Take(SortedList(PendingIn(now, id)), limit)
    ensures |PendingIn(now, id)| == |PendingIn(start, id)| - done
    ensures |pending| == Min(limit, |PendingIn(start, id)| - done)
    ensures pending == [] ==> done == |PendingIn(start, id)|
    ensures |pending| <= |PendingIn(now, id)| && pending == SortedList(PendingIn(now, id))[..|pending|]
    ensures PendingKeys(now, id, pending)
  {
    hide SortedList, PendingIn, PendingKeys, Take, Elements, Distinct;
    TakeHead(SortedList(PendingIn(now, id)), limit, pending);
    PendingListed(now, id, |pending|);
  }

  lemma TakeHead(all: seq<string>, limit: nat, pending: seq<string>)
    requires limit >= 1 && pending == Take(all, limit)
    ensures |pending| == Min(limit, |all|) && pending == all[..|pending|]
  {
  }

  /** A stored batch leads to the next such state. */
  lemma FillingAdvances(c: Crypto, id: string, g: Group, start: Mappings, script: seq<Outcome>, b: nat, retries: nat,
                        rounds: nat, values: seq<string>, k: nat, now: Mappings,
                        pending: seq<string>, added: seq<string>, tries: nat)
    requires b >= 1 && OneToOne(start) && Faithful(c, id, g, start)
    requires GroupFilling(c, id, g, start, script, b, retries, rounds, values, k, now)
    requires pending != [] && pending == Take(SortedList(PendingIn(now, id)), b)
    requires |added| == |pending| && Assignables(c, id, g, now, added) && 1 <= tries <= retries + 1
    requires BatchOutcome(c, id, g, now, Drop(script, k), |pending|, retries, tries, true, added)
    ensures forall i :: 0 <= i < |added| ==> ValueKey(c, id, g, added[i]).Some?
    ensures GroupFilling(c, id, g, start, script, b, retries, rounds + 1, values + added, k + tries,
                         AssignAll(now, id, Zip(c, id, g, pending, added)))
  {
    hide *;
    NextListed(c, id, g, start, script, b, retries, rounds, values, k, now, pending);
    FillingIs(c, id, g, start, script, b, retries, rounds, values, k, now);
    GroupStep(c, id, g, start, values, now, pending, added);
    FilledNext(c, id, g, start, script, b, retries, rounds, now, values, k, added, tries);
    WorkStep(b, retries, |PendingIn(start, id)|, rounds, |values|, k, tries);
    FillingIs(c, id, g, start, script, b, retries, rounds + 1, values + added, k + tries,
              AssignAll(now, id, Zip(c, id, g, pending, added)));
  }

  lemma FillingFails(c: Crypto, id: string, g: Group, start: Mappings, script: seq<Outcome>, b: nat, retries: nat,
                     rounds: nat, values: seq<string>, k: nat, now: Mappings, pending: seq<string>, tries: nat)
    requires b >= 1 && OneToOne(start) && Faithful(c, id, g, start)
    requires GroupFilling(c, id, g, start, script, b, retries, rounds, values, k, now)
    requires pending != [] && pending == Take(SortedList(PendingIn(now, id)), b)
    requires BatchOutcome(c, id, g, now, Drop(script, k), |pending|, retries, tries, false, [])
    ensures GroupOutcome(c, id, g, start, script, b, retries, rounds, values, k + tries, true, now)
    ensures GroupProgress(c, id, g, start, values, now) && |values| < |PendingIn(start, id)|
  {
    hide *;
    NextListed(c, id, g, start, script, b, retries, rounds, values, k, now, pending);
    FillingIs(c, id, g, start, script, b, retries, rounds, values, k, now);
    GroupFails(c, id, g, start, script, b, retries, rounds, values, k, tries, now, |pending|);
  }

  lemma FillingEnds(c: Crypto, id: string, g: Group, start: Mappings, script: seq<Outcome>, b: nat, retries: nat,
                    rounds: nat, values: seq<string>, k: nat, now: Mappings)
    requires b >= 1 && GroupFilling(c, id, g, start, script, b, retries, rounds, values, k, now)
    requires |values| == |PendingIn(start, id)|
    ensures GroupOutcome(c, id, g, start, script, b, retries, rounds, values, k, false, now)
    ensures GroupProgress(c, id, g, start, values, now)
    ensures CeilDiv(|values|, b) <= k <= (retries + 1) * CeilDiv(|values|, b)
  {
    hide *;
    FillingIs(c, id, g, start, script, b, retries, rounds, values, k, now);
    GroupEnds(c, id, g, start, script, b, retries, rounds, values, k, now);
    WorkFinished(b, retries, |PendingIn(start, id)|, rounds, k);
  }
}
