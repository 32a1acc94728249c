/** The replacement generator: retries inside batches inside groups, over a provider that is not trusted. */
module Generator {
  import opened Base
  import opened Policy
  import opened RegistryModel
  import opened GeneratorModel
  import opened Registry
  import opened RunModel

  datatype Request = Request(entity: EntityType, sequence: nat, count: nat)

  /** An untrusted provider: an arbitrary list of outcomes, served in order. */
  class ScriptedProvider {
    var script: seq<Outcome>
    var requests: seq<Request>

    constructor (script: seq<Outcome>)
      ensures this.script == script && requests == []
    {
      this.script, requests := script, [];
    }

    method Generate(request: Request) returns (o: Outcome)
      modifies this
      ensures requests == old(requests) + [request]
      ensures o == Head(old(script)) && script == Drop(old(script), 1)
    {
      requests := requests + [request];
      if |script| == 0 { return Raised; }
      o := script[0];
      script := script[1..];
    }
  }

  function StillOpen(n: nat, have: nat): nat { if have < n then n - have else 0 }

  /** The `k` requests after the first `from` are those of the retry loop for a batch of `n` keys: each
      asks for a surplus over what the responses before it left open. */
  ghost predicate RequestsOfBatch(c: Crypto, id: string, g: Group, m: Mappings, script: seq<Outcome>, b: nat, n: nat,
                                  requests: seq<Request>, from: nat, sequence: nat, k: nat)
  {
    && |requests| == from + k
    && forall j :: 0 <= j < k ==>
         requests[from + j] == Request(g.entity, sequence + j + 1,
                                       RequestCount(b, StillOpen(n, |Pool(c, id, g, m, script, j)|)))
  }

  /** Every request from `from` on asks for at least one item and at most min(1000, 2b). */
  ghost predicate RequestsBounded(b: nat, requests: seq<Request>, from: nat) {
    forall i :: from <= i < |requests| ==> 1 <= requests[i].count <= Min(1_000, b * 2)
  }

  lemma NoRequests(c: Crypto, id: string, g: Group, m: Mappings, script: seq<Outcome>, b: nat, n: nat,
                   requests: seq<Request>, sequence: nat)
    ensures RequestsOfBatch(c, id, g, m, script, b, n, requests, |requests|, sequence, 0)
    ensures RequestsBounded(b, requests, |requests|)
  {
  }

  lemma OneMoreRequest(c: Crypto, id: string, g: Group, m: Mappings, script: seq<Outcome>, b: nat, n: nat,
                       requests: seq<Request>, from: nat, sequence: nat, k: nat, added: Request)
    requires RequestsOfBatch(c, id, g, m, script, b, n, requests, from, sequence, k)
    requires RequestsBounded(b, requests, from)
    requires added == Request(g.entity, sequence + k + 1, RequestCount(b, StillOpen(n, |Pool(c, id, g, m, script, k)|)))
    requires 1 <= added.count <= Min(1_000, b * 2)
    ensures RequestsOfBatch(c, id, g, m, script, b, n, requests + [added], from, sequence, k + 1)
    ensures RequestsBounded(b, requests + [added], from)
  {
    hide RequestCount, Pool;
  }

  lemma BoundedJoins(b: nat, before: seq<Request>, after: seq<Request>, from: nat)
    requires from <= |before| <= |after| && before == after[..|before|]
    requires RequestsBounded(b, before, from) && RequestsBounded(b, after, |before|)
    ensures RequestsBounded(b, after, from)
  {
    forall i | from <= i < |after| ensures 1 <= after[i].count <= Min(1_000, b * 2) {
      if i < |before| { assert after[i] == before[i]; }
    }
  }

  datatype GenerationFault = RetriesExhausted

  class ReplacementGenerator {
    const provider: ScriptedProvider
    const registry: MappingRegistry
    const crypto: Crypto
    const batchSize: nat
    const maxRetries: nat
    ghost const groups: seq<GroupEntry>
    var batches: nat
    var acceptedItems: nat
    var rejectedItems: nat
    var requestSequence: nat

    constructor (provider: ScriptedProvider, registry: MappingRegistry, crypto: Crypto, batchSize: nat, maxRetries: nat,
                 ghost groups: seq<GroupEntry>)
      requires batchSize >= 1
      ensures this.provider == provider && this.registry == registry && this.crypto == crypto
      ensures this.batchSize == batchSize && this.maxRetries == maxRetries && this.groups == groups
      ensures batches == acceptedItems == rejectedItems == requestSequence == 0
    {
      this.provider, this.registry, this.crypto := provider, registry, crypto;
      this.batchSize, this.maxRetries, this.groups := batchSize, maxRetries, groups;
      batches, acceptedItems, rejectedItems, requestSequence := 0, 0, 0, 0;
    }

    /** Keep the first `needed` survivors of a response; None when a valid item fails to normalise. */
    method ValidReplacements(id: string, g: Group, items: seq<string>, needed: nat, reserved: set<string>)
      returns (r: Option<(seq<string>, nat)>)
      requires id != ""
      ensures r.Some? <==>
        forall i :: 0 <= i < |items| && ValidValue(crypto, g, items[i]) ==> ValueKey(crypto, id, g, items[i]).Some?
      ensures r.Some? ==>
        && r.value.0 == Take(Sift(crypto, id, g, registry.mappings, reserved, items), needed)
        && r.value.1 == |items| - |r.value.0|
    {
      hide Sift, Passes, KeysOf, ValidValue, ValueKey, FreshKey;
      ghost var m := registry.mappings;
      SiftNothing(crypto, id, g, m, reserved);
      var accepted: seq<string>, seen, rejected := [], reserved, 0;
      for i := 0 to |items|
        invariant forall j :: 0 <= j < i && ValidValue(crypto, g, items[j]) ==> ValueKey(crypto, id, g, items[j]).Some?
        invariant accepted == Take(Sift(crypto, id, g, m, reserved, items[..i]), needed)
        invariant seen == reserved + KeysOf(crypto, id, g, accepted)
        invariant rejected == i - |accepted|
      {
        var value := items[i];
        ReviewStep(crypto, id, g, m, reserved, items, i, needed, accepted);
        if !ValidValue(crypto, g, value) {
          rejected := rejected + 1;
          continue;
        }
        var key := ValueKey(crypto, id, g, value);
        if key.None? { return None; }
        KeyIsDigest(crypto, id, g, value);
        var isSource := registry.HasSourceKey(id, key.value);
        var isUsed := registry.HasReplacementHmac(id, key.value);
        FreshKeyMeans(m, id, key.value);
        if key.value in seen || isSource.value || isUsed.value {
          rejected := rejected + 1;
          continue;
        }
        if |accepted| >= needed {
          rejected := rejected + 1;
          continue;
        }
        seen := seen + {key.value};
        accepted := accepted + [value];
      }
      assert items[..|items|] == items;
      return Some((accepted, rejected));
    }

    /** One request, counted before it is made. It asks for at least what is still needed. */
    method Ask(g: Group, remaining: nat) returns (response: Outcome)
      requires 1 <= remaining <= batchSize
      modifies this`batches, this`requestSequence, provider, registry
      ensures requestSequence == old(requestSequence) + 1 && batches == old(batches) + 1
      ensures provider.requests ==
        old(provider.requests) + [Request(g.entity, requestSequence, RequestCount(batchSize, remaining))]
      ensures Min(1_000, remaining) <= RequestCount(batchSize, remaining) <= Min(1_000, batchSize * 2)
      ensures 1 <= RequestCount(batchSize, remaining)
      ensures response == Head(old(provider.script)) && provider.script == Drop(old(provider.script), 1)
      ensures registry.commits == old(registry.commits) + [Recorded(1, 0, 0)]
      ensures registry.Contents() == Apply(old(registry.Contents()), Recorded(1, 0, 0))
    {
      hide RequestCount, Drop, Apply;
      requestSequence := requestSequence + 1;
      var request := Request(g.entity, requestSequence, RequestCount(batchSize, remaining));
      RequestCountBounds(batchSize, remaining);
      batches := batches + 1;
      var recorded := registry.RecordGenerationStats(1, 0, 0);
      response := provider.Generate(request);
    }

    /** One pass of the retry loop up to the accepted items: ask, record, validate. */
    method Attempt(id: string, g: Group, remaining: nat, acceptedHmacs: set<string>)
      returns (got: Option<seq<string>>, rejected: nat, ghost tried: seq<Commit>)
      requires id != "" && 1 <= remaining <= batchSize && SomePending(registry.mappings) && registry.stats.Some?
      modifies this, provider, registry
      ensures requestSequence == old(requestSequence) + 1 && batches == old(batches) + 1
      ensures acceptedItems == old(acceptedItems)
      ensures provider.requests ==
        old(provider.requests) + [Request(g.entity, requestSequence, RequestCount(batchSize, remaining))]
      ensures 1 <= RequestCount(batchSize, remaining) <= Min(1_000, batchSize * 2)
      ensures provider.script == Drop(old(provider.script), 1)
      ensures got.Some? <==> Usable(crypto, id, g, Head(old(provider.script)))
      ensures got.Some? ==>
        var items := Head(old(provider.script)).values;
        && got.value == Take(Sift(crypto, id, g, old(registry.mappings), acceptedHmacs, items), remaining)
        && rejected == |items| - |got.value|
      ensures got.None? ==> rejected == 0
      ensures rejectedItems == old(rejectedItems) + rejected
      ensures tried == [Recorded(1, 0, 0)] + if got.Some? then [Recorded(0, 0, rejected)] else []
      ensures registry.commits == old(registry.commits) + tried
      ensures registry.mappings == old(registry.mappings) && registry.stats.Some?
      ensures Traced(crypto, groups, old(registry.Contents()), tried, registry.Contents()) && Requested(tried)
    {
      hide Sift, Passes, Replay, GenerateTrace, Requested, ValidValue, ValueKey, RequestCount, Drop, Take, Traced;
      ghost var start := registry.Contents();
      TracedStart(crypto, groups, start);
      var response := Ask(g, remaining);
      TracedExtends(crypto, groups, start, [], start, Recorded(1, 0, 0));
      tried := [] + [Recorded(1, 0, 0)];
      ghost var mid := registry.Contents();
      if !response.Items? || response.values == [] { return None, 0, tried; }
      var kept := ValidReplacements(id, g, response.values, remaining, acceptedHmacs);
      if kept.None? { return None, 0, tried; }
      rejected := kept.value.1;
      rejectedItems := rejectedItems + rejected;
      var recorded := registry.RecordGenerationStats(0, 0, rejected);
      TracedExtends(crypto, groups, start, tried, mid, Recorded(0, 0, rejected));
      return Some(kept.value.0), rejected, tried + [Recorded(0, 0, rejected)];
    }

    static lemma PendingSome(m: Mappings, id: string, keys: seq<string>)
      requires keys != [] && PendingKeys(m, id, keys)
      ensures SomePending(m)
    {
      assert Key(id, keys[0]) in m;
    }

    /** Pair keys and values in order and commit; the registry cannot refuse. */
    method StoreBatch(id: string, g: Group, sourceKeys: seq<string>, accepted: seq<string>)
      returns (ghost commit: Commit)
      requires IsGroup(groups, id, g) && sourceKeys != [] && |accepted| == |sourceKeys| && registry.stats.Some?
      requires OneToOne(registry.mappings) && Faithful(crypto, id, g, registry.mappings)
      requires PendingKeys(registry.mappings, id, sourceKeys) && Assignables(crypto, id, g, registry.mappings, accepted)
      modifies registry, this`acceptedItems
      ensures acceptedItems == old(acceptedItems) + |accepted|
      ensures commit == Assigned(id, Zip(crypto, id, g, sourceKeys, accepted), true)
      ensures registry.commits == old(registry.commits) + [commit]
      ensures registry.Contents() == Apply(old(registry.Contents()), commit)
      ensures GenerateCommit(crypto, groups, old(registry.Contents()), true, commit)
    {
      GeneratedBatchAccepted(crypto, id, g, registry.mappings, sourceKeys, accepted);
      var assignments := Zip(crypto, id, g, sourceKeys, accepted);
      var stored := registry.AssignReplacements(id, assignments, true);
      assert stored.Success?;
      acceptedItems := acceptedItems + |assignments|;
      commit := Assigned(id, assignments, true);
    }

    /** The retry loop: collect survivors until the batch is full or the requests are spent. */
    method FillBatch(id: string, g: Group, sourceKeys: seq<string>)
      returns (accepted: Option<seq<string>>, ghost k: nat, ghost made: seq<Commit>)
      requires id != "" && sourceKeys != [] && PendingKeys(registry.mappings, id, sourceKeys) && registry.stats.Some?
      requires |sourceKeys| <= batchSize
      modifies this, provider, registry
      ensures BatchOutcome(crypto, id, g, old(registry.mappings), old(provider.script), |sourceKeys|, maxRetries, k,
                           accepted.Some?, if accepted.Some? then accepted.value else [])
      ensures RequestsOfBatch(crypto, id, g, old(registry.mappings), old(provider.script), batchSize, |sourceKeys|,
                              provider.requests, |old(provider.requests)|, old(requestSequence), k)
      ensures old(provider.requests) <= provider.requests
      ensures RequestsBounded(batchSize, provider.requests, |old(provider.requests)|)
      ensures |provider.requests| == |old(provider.requests)| + k && provider.script == Drop(old(provider.script), k)
      ensures batches == old(batches) + k && requestSequence == old(requestSequence) + k
      ensures acceptedItems == old(acceptedItems)
      ensures rejectedItems == old(rejectedItems) + |UsableItems(crypto, id, g, old(provider.script), k)|
        - if accepted.Some? then |sourceKeys|
          else |Pool(crypto, id, g, old(registry.mappings), old(provider.script), k)|
      ensures registry.mappings == old(registry.mappings) && registry.stats.Some?
      ensures registry.commits == old(registry.commits) + made
      ensures Traced(crypto, groups, old(registry.Contents()), made, registry.Contents()) && Requested(made)
    {
      hide Filling, Traced, Requested, Sift, UsableItems, Pool, Usable, KeysOf, RequestCount, RequestsOfBatch,
        RequestsBounded;
      ghost var m, script, start := registry.mappings, provider.script, registry.Contents();
      ghost var asked, sequence := provider.requests, requestSequence;
      NoRequests(crypto, id, g, m, script, batchSize, |sourceKeys|, asked, sequence);
      made, k := [], 0;
      var found: seq<string>, acceptedHmacs: set<string> := [], {};
      PendingSome(m, id, sourceKeys);
      FillStart(crypto, id, g, m, script, |sourceKeys|);
      TracedStart(crypto, groups, start);
      for attempt := 0 to maxRetries + 1
        invariant k == attempt && |found| < |sourceKeys|
        invariant registry.mappings == m && registry.stats.Some?
        invariant Filling(crypto, id, g, m, script, |sourceKeys|, k, found, acceptedHmacs,
                          rejectedItems - old(rejectedItems))
        invariant provider.script == Drop(script, k) && |provider.requests| == |asked| + k
        invariant asked <= provider.requests && RequestsBounded(batchSize, provider.requests, |asked|)
        invariant RequestsOfBatch(crypto, id, g, m, script, batchSize, |sourceKeys|, provider.requests, |asked|,
                                  sequence, k)
        invariant batches == old(batches) + k && requestSequence == sequence + k
        invariant acceptedItems == old(acceptedItems)
        invariant registry.commits == old(registry.commits) + made
        invariant Traced(crypto, groups, start, made, registry.Contents()) && (k >= 1 ==> Requested(made))
      {
        ghost var mid, rejectedBefore := registry.Contents(), rejectedItems - old(rejectedItems);
        ghost var requests := provider.requests;
        FillingPool(crypto, id, g, m, script, |sourceKeys|, k, found, acceptedHmacs, rejectedBefore);
        var got, rejected, tried := Attempt(id, g, |sourceKeys| - |found|, acceptedHmacs);
        TracedJoins(crypto, groups, start, made, mid, tried, registry.Contents());
        OneMoreRequest(crypto, id, g, m, script, batchSize, |sourceKeys|, requests, |asked|, sequence, k,
                       provider.requests[|requests|]);
        made, k := made + tried, k + 1;
        if got.None? {
          FillSkip(crypto, id, g, m, script, |sourceKeys|, k - 1, found, acceptedHmacs, rejectedBefore);
          continue;
        }
        FillAccept(crypto, id, g, m, script, |sourceKeys|, k - 1, found, acceptedHmacs, rejectedBefore, got.value);
        found := found + got.value;
        acceptedHmacs := acceptedHmacs + KeysOf(crypto, id, g, got.value);
        if |found| == |sourceKeys| { return Some(found), k, made; }
      }
      FillExhausted(crypto, id, g, m, script, |sourceKeys|, k, found, acceptedHmacs,
                    rejectedItems - old(rejectedItems));
      return None, k, made;
    }

    /** Fill and store one batch of pending keys. A refusal by the registry would send the program
        back into the retry loop; `StoreBatch` shows that there is none. */
    method GenerateBatch(id: string, g: Group, sourceKeys: seq<string>)
      returns (r: Result<(), GenerationFault>, ghost values: seq<string>, ghost k: nat, ghost made: seq<Commit>)
      requires id != "" && IsGroup(groups, id, g) && registry.stats.Some?
      requires sourceKeys != [] && PendingKeys(registry.mappings, id, sourceKeys) && |sourceKeys| <= batchSize
      requires OneToOne(registry.mappings) && Faithful(crypto, id, g, registry.mappings)
      modifies this, provider, registry
      ensures 1 <= k <= maxRetries + 1
      ensures BatchOutcome(crypto, id, g, old(registry.mappings), old(provider.script), |sourceKeys|, maxRetries, k,
                           r.Success?, values)
      ensures RequestsOfBatch(crypto, id, g, old(registry.mappings), old(provider.script), batchSize, |sourceKeys|,
                              provider.requests, |old(provider.requests)|, old(requestSequence), k)
      ensures old(provider.requests) <= provider.requests
      ensures RequestsBounded(batchSize, provider.requests, |old(provider.requests)|)
      ensures |provider.requests| == |old(provider.requests)| + k && provider.script == Drop(old(provider.script), k)
      ensures batches == old(batches) + k && requestSequence == old(requestSequence) + k
      ensures acceptedItems == old(acceptedItems) + |values|
      ensures r.Success? ==>
        acceptedItems + rejectedItems
        == old(acceptedItems + rejectedItems) + |UsableItems(crypto, id, g, old(provider.script), k)|
      ensures r.Success? ==>
        && |values| == |sourceKeys| && Assignables(crypto, id, g, old(registry.mappings), values)
        && registry.mappings == AssignAll(old(registry.mappings), id, Zip(crypto, id, g, sourceKeys, values))
        && AssignOk(old(registry.mappings), id, Zip(crypto, id, g, sourceKeys, values))
        && ItemsFaithful(crypto, id, g, Zip(crypto, id, g, sourceKeys, values))
      ensures r.Failure? ==> registry.mappings == old(registry.mappings) && values == []
      ensures registry.stats.Some?
      ensures registry.commits == old(registry.commits) + made
      ensures Traced(crypto, groups, old(registry.Contents()), made, registry.Contents()) && Requested(made)
    {
      hide Traced, Requested, Sift, UsableItems, Pool, OneToOne, Faithful, AssignOk, AssignAll, RequestsOfBatch,
        RequestsBounded, RequestCount;
      ghost var m, script, start := registry.mappings, provider.script, registry.Contents();
      var accepted;
      accepted, k, made := FillBatch(id, g, sourceKeys);
      if accepted.None? { return Failure(RetriesExhausted), [], k, made; }
      BatchValuesAssignable(crypto, id, g, m, script, |sourceKeys|, k);
      GeneratedBatchAccepted(crypto, id, g, m, sourceKeys, accepted.value);
      ghost var mid := registry.Contents();
      var commit := StoreBatch(id, g, sourceKeys, accepted.value);
      TracedExtends(crypto, groups, start, made, mid, commit);
      return Success(()), accepted.value, k, made + [commit];
    }

    /** The loop over batches, until nothing is pending or a batch fails. */
    method FillGroup(id: string, g: Group)
      returns (count: nat, failed: bool, ghost values: seq<string>, ghost k: nat, ghost made: seq<Commit>,
               ghost rounds: nat)
      requires id != "" && batchSize >= 1 && IsGroup(groups, id, g) && registry.stats.Some?
      requires OneToOne(registry.mappings) && Faithful(crypto, id, g, registry.mappings)
      modifies this, provider, registry
      ensures GroupProgress(crypto, id, g, old(registry.mappings), values, registry.mappings)
      ensures var n := |PendingIn(old(registry.mappings), id)|;
        if failed then |values| < n
        else count == |values| == n && CeilDiv(n, batchSize) <= k <= (maxRetries + 1) * CeilDiv(n, batchSize)
      ensures GroupOutcome(crypto, id, g, old(registry.mappings), old(provider.script), batchSize, maxRetries,
                           rounds, values, k, failed, registry.mappings)
      ensures provider.script == Drop(old(provider.script), k)
      ensures |provider.requests| == |old(provider.requests)| + k && old(provider.requests) <= provider.requests
      ensures RequestsBounded(batchSize, provider.requests, |old(provider.requests)|)
      ensures batches == old(batches) + k && acceptedItems == old(acceptedItems) + |values|
      ensures registry.commits == old(registry.commits) + made && registry.stats.Some?
      ensures Traced(crypto, groups, old(registry.Contents()), made, registry.Contents())
      ensures if k == 0 then made == [] else Requested(made)
    {
      hide *;
      ghost var m, start, script := registry.mappings, registry.Contents(), provider.script;
      ghost var n := |PendingIn(m, id)|;
      count, failed, values, k, made, rounds := 0, false, [], 0, [], 0;
      ghost var asked := provider.requests;
      NoRequests(crypto, id, g, m, script, batchSize, n, asked, requestSequence);
      FillingStarts(crypto, id, g, m, script, batchSize, maxRetries);
      TracedStart(crypto, groups, start);
      DropNext(script, 0);
      while true
        invariant GroupFilling(crypto, id, g, m, script, batchSize, maxRetries, rounds, values, k, registry.mappings)
        invariant count == |values| <= n && registry.stats.Some?
        invariant provider.script == Drop(script, k)
        invariant |provider.requests| == |asked| + k && asked <= provider.requests
        invariant RequestsBounded(batchSize, provider.requests, |asked|)
        invariant batches == old(batches) + k && acceptedItems == old(acceptedItems) + |values|
        invariant registry.commits == old(registry.commits) + made
        invariant Traced(crypto, groups, start, made, registry.Contents())
        invariant if k == 0 then made == [] else Requested(made)
        decreases n - |values|
      {
        var listed := registry.ListUnassigned(id, Some(batchSize));
        var pending := listed.value;
        ghost var now, mid := registry.mappings, registry.Contents();
        NextListed(crypto, id, g, m, script, batchSize, maxRetries, rounds, values, k, now, pending);
        if pending == [] { break; }
        MinBounds(batchSize, n - |values|);
        ghost var requests := provider.requests;
        var outcome, added, tries, stretch := GenerateBatch(id, g, pending);
        TracedJoins(crypto, groups, start, made, mid, stretch, registry.Contents());
        made := made + stretch;
        DropDrop(script, k, tries);
        BoundedJoins(batchSize, requests, provider.requests, |asked|);
        if outcome.Failure? {
          FillingFails(crypto, id, g, m, script, batchSize, maxRetries, rounds, values, k, now, pending, tries);
          k, failed := k + tries, true;
          return;
        }
        FillingAdvances(crypto, id, g, m, script, batchSize, maxRetries, rounds, values, k, now, pending, added, tries);
        values, k := values + added, k + tries;
        count := count + |pending|;
        rounds := rounds + 1;
      }
      FillingEnds(crypto, id, g, m, script, batchSize, maxRetries, rounds, values, k, registry.mappings);
    }

    /** Fill every pending key of a group in stable order; the result is the number of assignments. */
    method GenerateGroup(id: string, g: Group)
      returns (r: Result<nat, GenerationFault>, ghost values: seq<string>, ghost k: nat, ghost made: seq<Commit>,
               ghost rounds: nat)
      requires id != "" && batchSize >= 1 && IsGroup(groups, id, g) && registry.stats.Some?
      requires OneToOne(registry.mappings) && Faithful(crypto, id, g, registry.mappings)
      modifies this, provider, registry
      ensures GroupProgress(crypto, id, g, old(registry.mappings), values, registry.mappings)
      ensures var n := |PendingIn(old(registry.mappings), id)|;
        && (r.Success? ==>
              r.value == |values| == n && CeilDiv(n, batchSize) <= k <= (maxRetries + 1) * CeilDiv(n, batchSize))
        && (r.Failure? ==> |values| < n)
      ensures GroupOutcome(crypto, id, g, old(registry.mappings), old(provider.script), batchSize, maxRetries,
                           rounds, values, k, r.Failure?, registry.mappings)
      ensures provider.script == Drop(old(provider.script), k)
      ensures |provider.requests| == |old(provider.requests)| + k && old(provider.requests) <= provider.requests
      ensures RequestsBounded(batchSize, provider.requests, |old(provider.requests)|)
      ensures Requested(made) <==> k >= 1
      ensures batches == old(batches) + k && acceptedItems == old(acceptedItems) + |values|
      ensures registry.commits == old(registry.commits) + made && registry.stats.Some?
      ensures Traced(crypto, groups, old(registry.Contents()), made, registry.Contents())
    {
      hide GroupProgress, Traced, Requested, CeilDiv, PendingIn, OneToOne, Faithful, IsGroup, GroupOutcome,
        RequestsBounded, Drop;
      ghost var start := registry.Contents();
      var count, failed;
      count, failed, values, k, made, rounds := FillGroup(id, g);
      ghost var mid := registry.Contents();
      var recorded := registry.RecordGenerationStats(0, 0, 0);
      TracedExtends(crypto, groups, start, made, mid, Recorded(0, 0, 0));
      RequestedLast(made);
      made := made + [Recorded(0, 0, 0)];
      r := if failed then Failure(RetriesExhausted) else Success(count);
    }

    static lemma RequestedLast(made: seq<Commit>)
      ensures Requested(made + [Recorded(0, 0, 0)]) <==> Requested(made)
      ensures !Requested([])
    {
      RequestedJoins(made, [Recorded(0, 0, 0)]);
    }
  }
}
