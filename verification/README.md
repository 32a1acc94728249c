# Consistent replacement: model and proofs

db-sanitizer copies a PostgreSQL database with its sensitive text columns replaced. Configured
columns form consistency groups. Every non-NULL value of a group is normalised and turned into a
keyed digest (HMAC, section 2 of RFC 2104); a registry maps each digest to one invented replacement;
a mapper process rewrites every row through the registry; a verifier compares source and target.
This project models that pipeline and proves what it promises.

How the files follow the program:

- `Base`: values, normalisation, digests, sequences, the order of keys. `digest`, `canonical` and
  `fullmatch` are arbitrary functions, so the theorems hold for all of them. Where a theorem needs
  different texts to have different digests, it says so for the finite set of texts concerned.
- `Policy`: the policy document, its validation, and the three column-to-group views.
- `RegistryModel`, `WorkTable`, `Registry`: the registry's tables as values with the effect of each
  transaction, and the registry as a class whose methods are transactions. A ghost log of committed
  transactions makes a crash between two commits a prefix of the log.
- `GeneratorModel`, `Generator`: the nested retry and batch loops over an untrusted provider, which
  is an arbitrary list of responses and failures.
- `Provider`: the deterministic synthetic provider and its numerals.
- `Database`, `Cursor`, `Collector`: tables as sequences of rows, cursors that cut results into
  batches of any size, and key collection.
- `Mapper`, `DataPlane`, `ConfigBuilder`, `Restore`, `Integrity`: the JSONL mapper with its evicting
  cache, the image of a database under the registry, the configuration the mapper is started with,
  dump and restore, and referential integrity.
- `VerifierModel`, `LookupCache`, `Verifier`, `Scans`, `AggregateChecks`, `ConstraintChecks`: the
  verifier's counters and what they mean, its lookup cache, its streaming and aggregate checks, and
  when they pass in terms of the two databases.
- `RunModel`, `Graph`, `Nodes`, `Resume`: the linear run graph as a step machine in which a node may
  stop after any committed transaction and is then executed again.
- `Acceptance`, `Cardinality`, `Pipeline`: the end-to-end theorems. `Connections`: every database can
  be opened as these theorems require.
- `Counterexamples`: concrete inputs for what is false, reached by the program's own transactions.

Main results:

1. `Pipeline.EndToEnd`: for every source database that does not change meanwhile, every accepted
   policy and every run, however often interrupted, that got past generation, the mapper refuses no
   row, foreign keys survive, and both mapping checks pass with every failure counter at 0.
2. `Pipeline.FinishRun`: on the registry that such a run leaves, the rest of the run (configuration,
   dump and restore under the declared keys and foreign keys, all nine required checks) finishes if
   and only if no two values of a configured column share a normal form, no foreign key is declared
   NOT VALID, the source schema is the approved one, the registry file belongs to the run, and the
   views count as before, which they do when they do not read configured columns
   (`Pipeline.IndifferentViewsKept`).
   `Pipeline.PassedMeans` says what a passing verification means on an arbitrary target.
3. `Scans.MappingsCheckExact`: the mapping check passes whenever the target is the image of the
   source; it passes only then, on aligned columns for every digest and on the others with different
   digests for the compared texts.
4. `Graph.RunSafe` and `Graph.RunNeverRewrites`: safety over all interrupted runs.
5. `Integrity.ForeignKeysSurvive`: referential integrity for simple and full matching (section 11.8
   of ISO/IEC 9075:1992), composite keys and NULLs.
6. `Generator.ReplacementGenerator.GenerateGroup` and `FillBatch`: the retry loops are one greedy
   filter over the responses, fill every pending key in sorted order, and stay within their bounds.
7. `Cardinality.KeySurvivesExactly` and `Cardinality.ColumnCardinality`: declared keys and distinct
   counts survive exactly when normalisation merges nothing in them.

Three natural claims are false of the code. Each has a concrete input and the exact condition:

- Source keys and stored replacement digests are not kept apart by the registry alone:
  `insert_source_keys` does not look at `replacement_hmac` (`RegistryModel.InsertCanBreakDisjointness`
  is the input, `RegistryModel.InsertKeepsDisjointExactly` the condition). They are kept apart
  because the run graph finishes every insertion before the first assignment
  (`Graph.CollectedIsReady`).
- A generate node that ends with nothing pending does not always succeed: with no configured non-NULL
  value in the source it refuses for missing evidence (`Counterexamples.EmptySourceRefused` is the
  input). `Graph.EvidenceExactly` says that this is the only case.
- A run that got past generation does not always finish: two spellings of one value get one
  replacement, so a declared key may be violated in the target and the statistics check refuses the
  column (`Counterexamples.MergedSpellings` is the input). The policy
  validation also accepts foreign keys declared NOT VALID, which the verifier refuses, and views that
  count rows by a configured value, whose row counts change in every run
  (`Pipeline.FilteringViewChanges`).
  `Pipeline.FinishRun` gives the condition, `Cardinality.KeySurvivesExactly` and
  `AggregateChecks.HonestStatisticsExactly` its parts.

A ready registry (`DataPlane.Ready`) is what a run leaves after generation: one-to-one, disjoint,
faithful, with every source value collected and nothing pending. The image of a database
(`DataPlane.ImageDatabase`) replaces every configured non-NULL cell by its replacement and keeps
every other cell.

## Model

| member | source | states |
|---|---|---|
| Policy.ValidateCrossGroupColumns | src/db_sanitizer/policy/models.py:268-278 | accepts exactly the policies in which no column is declared by two groups; the `seen` dictionary never reports a repetition inside one group |
| Policy.GroupForColumnDenotes | src/db_sanitizer/policy/models.py:280-284 | for a validated policy the lookup answers `id` if and only if group `id` declares the column |
| Policy.MembershipDenotes | src/db_sanitizer/policy/validator.py:32-37 | the membership dictionary holds `id` for a column if and only if group `id` declares it |
| Policy.ViewsAgree | src/db_sanitizer/policy/validator.py:32-37 | the lookup and the dictionary are one function on all columns, configured or not |
| Policy.SplitJoin | src/db_sanitizer/greenmask/config_builder.py:80-81 | splitting a `schema.table` key at its first dot gives back schema and table when the schema has no dot |
| Policy.JoinInjective | src/db_sanitizer/greenmask/config_builder.py:36 | different tables never share a key |
| Policy.TableMapping | src/db_sanitizer/greenmask/config_builder.py:32-41 | the nested dictionary, read per `schema.table` key, is the membership dictionary; the duplicate error is raised exactly when some column is declared twice |
| Policy.ValidPolicyTables | src/db_sanitizer/greenmask/config_builder.py:38-39 | the duplicate error is unreachable for a validated policy |
| Policy.TablesAgreeWithMembership | src/db_sanitizer/greenmask/config_builder.py:80-98 | what a mapper finds under its table key is exactly the membership view of that table |
| Policy.PolicyViewsAgree | src/db_sanitizer/greenmask/config_builder.py:32-41 | for a validated policy the three views and the declaration denote the same column-to-group function |
| Policy.VisitingOrder | src/db_sanitizer/verify/checks.py:751-756 | groups and columns are visited in ascending order, each exactly as often as declared |
| Policy.ForeignKeyCoveredMeaning | src/db_sanitizer/policy/validator.py:40-54 | the coverage test accepts a relationship exactly when all its columns have the same place: no group, or one common group |
| Policy.ValidatorAcceptsExactly | src/db_sanitizer/policy/validator.py:57-81 | a policy is accepted against a schema if and only if recreation is allowed, every configured column exists with a supported type that fits the maximal length, and every foreign key sits in one place |
| RegistryModel.InsertEffect | src/db_sanitizer/mapping/registry.py:239-252 | the keys of the group become the union; all other groups and all old rows stay |
| RegistryModel.InsertTwice | src/db_sanitizer/mapping/registry.py:239-252 | two insertions are one insertion of the union |
| RegistryModel.GroupGrowth | src/db_sanitizer/mapping/registry.py:239-252 | the table grows by exactly the keys that are new to the group, never by more than were offered |
| RegistryModel.InsertKeepsOneToOne | src/db_sanitizer/mapping/registry.py:57-67 | insertion keeps the one-to-one contract and assigns nothing |
| RegistryModel.InsertKeepsDisjointExactly | src/db_sanitizer/mapping/registry.py:239-252 | insertion keeps source keys apart from stored replacement digests if and only if no inserted key is a stored digest |
| RegistryModel.InsertCanBreakDisjointness | src/db_sanitizer/mapping/registry.py:239-252 | counterexample: after an insertion and an accepted batch, inserting a key equal to the stored replacement digest is accepted and breaks disjointness |
| RegistryModel.AssignAllAt | src/db_sanitizer/mapping/registry.py:314-322 | a batch sets replacement and digest of exactly its own keys |
| RegistryModel.UniqueCheckMeaning | src/db_sanitizer/mapping/registry.py:64-67 | the unique indexes refuse an UPDATE exactly when the value or digest is already stored or repeated earlier in the batch |
| RegistryModel.AssignKeeps | src/db_sanitizer/mapping/registry.py:273-342 | a committed batch keeps one-to-one and disjointness, drops and rewrites nothing, and assigns as many keys as it has items |
| RegistryModel.PendingAfter | src/db_sanitizer/mapping/registry.py:254-271 | exactly the keys of a committed batch leave the pending list; other groups keep theirs |
| Registry.MappingRegistry.Initialize | src/db_sanitizer/mapping/registry.py:180-224 | succeeds exactly for complete metadata on an empty or identical registry; a refusal changes nothing |
| Registry.MappingRegistry.InsertSourceKeys | src/db_sanitizer/mapping/registry.py:239-252 | all keys valid: one transaction whose result is the number of new rows; otherwise nothing happens |
| Registry.MappingRegistry.ListUnassigned | src/db_sanitizer/mapping/registry.py:254-271 | the first `limit` pending keys in ascending order; refuses an empty group and a limit below 1 |
| Registry.MappingRegistry.CheckBatch | src/db_sanitizer/mapping/registry.py:284-294 | passes exactly well-formed batches without a repeated key or replacement |
| Registry.MappingRegistry.UpdateRows | src/db_sanitizer/mapping/registry.py:314-330 | the UPDATEs succeed exactly when all values and digests are unused and distinct, and then store the whole batch in order |
| Registry.MappingRegistry.AssignTransaction | src/db_sanitizer/mapping/registry.py:296-340 | commits exactly assignable batches, with the counter when asked; otherwise rows and counters are rolled back |
| Registry.MappingRegistry.AssignReplacements | src/db_sanitizer/mapping/registry.py:273-342 | all or nothing: succeeds if and only if every item can be assigned, and a failure leaves rows, counters and the transaction log unchanged |
| Registry.MappingRegistry.RecordGenerationStats | src/db_sanitizer/mapping/registry.py:349-381 | adds to the persisted counters; negative amounts are refused without effect |
| Registry.TraceKeeps | src/db_sanitizer/mapping/registry.py:226-342 | any sequence of registry transactions, valid insertions and accepted assignments in any order, keeps the one-to-one contract, drops no key and rewrites no assignment |
| Registry.MappingRegistry.HasSourceKey | src/db_sanitizer/mapping/registry.py:398-408 | whether the key is a source key of the group; malformed keys are refused |
| Registry.MappingRegistry.LookupReplacement | src/db_sanitizer/mapping/registry.py:455-465 | the stored replacement, or none for a missing or pending row |
| Registry.MappingRegistry.OpenScope | src/db_sanitizer/mapping/registry.py:434-443 | a scope starts with an empty work table |
| Registry.MappingRegistry.CloseScope | src/db_sanitizer/mapping/registry.py:448-453 | a scope ends with an empty work table |
| Registry.VerificationHmacAccumulator.Add | src/db_sanitizer/mapping/registry.py:121-138 | adds a batch to one side of the work table; an invalid digest refuses the whole batch; the table holds exactly the two multisets for any interleaving |
| Registry.VerificationHmacAccumulator.MultisetDifferenceCount | src/db_sanitizer/mapping/registry.py:115-119 | the size of E minus A plus the size of A minus E of the multisets added in the scope |
| Registry.VerificationHmacAccumulator.ActualDistinctCount | src/db_sanitizer/mapping/registry.py:96-97 | the number of distinct digests on the actual side |
| Registry.VerificationHmacAccumulator.SourceIntersectionCount | src/db_sanitizer/mapping/registry.py:99-113 | how many distinct actual digests are source keys of the group |
| WorkTable.SumGapsMeaning | src/db_sanitizer/mapping/registry.py:115-119 | the sum of absolute count differences is the size of both multiset differences |
| WorkTable.AggregatesExact | src/db_sanitizer/mapping/registry.py:96-119 | the three aggregates equal their set and multiset meanings; the difference is 0 if and only if the multisets are equal |
| GeneratorModel.SeenTestIsPasses | src/db_sanitizer/llm/generator.py:153-160 | testing against the set of digests seen so far is the same as comparing with all earlier survivors |
| GeneratorModel.SiftConcat | src/db_sanitizer/llm/generator.py:136-166 | filtering two lists one after the other, carrying the digests over, is filtering their concatenation |
| GeneratorModel.SiftAssignables | src/db_sanitizer/llm/generator.py:148-166 | survivors are valid, fresh in the registry and pairwise different in digest |
| GeneratorModel.RequestCountBounds | src/db_sanitizer/llm/generator.py:168-172 | for a need up to the batch size, a request asks for at least min(1000, need) and at most min(1000, 2 * batch size) items, and for more than the need unless the need is at least 1000 |
| GeneratorModel.PoolStep | src/db_sanitizer/llm/generator.py:105-117 | one more outcome extends the pool of survivors by its own survivors, or not at all when the response is unusable |
| GeneratorModel.FillAccept | src/db_sanitizer/llm/generator.py:105-119 | the retry loop holds the greedy filter of all usable responses; a batch is full exactly when that filter has enough survivors, and then holds the first of them |
| GeneratorModel.GeneratedBatchAccepted | src/db_sanitizer/llm/generator.py:120-128 | no check and no unique index of the registry refuses a generated batch, so the conflict branch is unreachable with one writer |
| GeneratorModel.FaithfulAfter | src/db_sanitizer/llm/generator.py:202-207 | stored digests stay the digests of the normal forms of the stored replacements |
| GeneratorModel.GroupProgressMeaning | src/db_sanitizer/llm/generator.py:69-82 | progress keeps the contract, changes no earlier assignment and no other group, and leaves the rest of the sorted pending list |
| GeneratorModel.GroupStep | src/db_sanitizer/llm/generator.py:75-77 | a stored batch continues the zip of the initially pending sorted keys with the concatenated values |
| GeneratorModel.FilledNext | src/db_sanitizer/llm/generator.py:75-77 | batches filled one after the other from the outcomes not yet consumed form one history |
| GeneratorModel.FillingAdvances | src/db_sanitizer/llm/generator.py:75-77 | one more stored batch keeps progress, batch history and request bounds together |
| GeneratorModel.WorkFinished | src/db_sanitizer/llm/generator.py:75-89 | n keys in batches of b take between ceil(n/b) and (retries + 1) * ceil(n/b) requests |
| Generator.ScriptedProvider.Generate | src/db_sanitizer/llm/fake_provider.py:62-69 | outcomes in order, an error when none is left; every request is recorded |
| Generator.ReplacementGenerator.ValidReplacements | src/db_sanitizer/llm/generator.py:136-166 | the first `needed` survivors and the number of all other items; refuses the response exactly when a valid item has no normal form |
| Generator.ReplacementGenerator.Ask | src/db_sanitizer/llm/generator.py:91-103 | records one request, for between min(1000, need) and min(1000, 2 * batch size) items, after counting it in the registry |
| Generator.ReplacementGenerator.Attempt | src/db_sanitizer/llm/generator.py:90-113 | one request is made and counted; its survivors are returned and the others counted as rejected, or nothing is when the response is unusable |
| Generator.ReplacementGenerator.StoreBatch | src/db_sanitizer/llm/generator.py:120-130 | keys and values are paired in order and committed; the registry never refuses |
| Generator.ReplacementGenerator.FillBatch | src/db_sanitizer/llm/generator.py:84-134 | stops at the first request at which the filter over all usable responses has enough survivors and takes the first of them, otherwise fails after retries + 1 requests; the j-th request asks for the surplus over what the responses before it left open; accepted plus rejected is the number of items in usable responses |
| Generator.ReplacementGenerator.GenerateBatch | src/db_sanitizer/llm/generator.py:84-134 | stores exactly the values of the filled batch for the given keys, or changes no row |
| Generator.ReplacementGenerator.FillGroup | src/db_sanitizer/llm/generator.py:75-77 | terminates with nothing pending or at the first failed batch; values, requests and outcomes consumed form one batch history |
| Generator.ReplacementGenerator.GenerateGroup | src/db_sanitizer/llm/generator.py:69-82 | on success the count is the initial number of pending keys, the i-th key in sorted order holds the i-th value, and the number of requests is within the bounds; every request asks for between 1 and min(1000, 2 * batch size) items; on failure the completed batches stay |
| Collector.BatchKeys | src/db_sanitizer/postgres/collector.py:61-79 | the digests of a batch in row order, refused exactly when some value has no normal form |
| Collector.MappingCollector.CollectColumn | src/db_sanitizer/postgres/collector.py:48-94 | for any cut into fetch batches: the keys of the column are inserted, counted exactly and never more than the values seen; on a bad value exactly the keys of the batches before the first bad batch are stored |
| Collector.MappingCollector.CollectGroup | src/db_sanitizer/postgres/collector.py:48-94 | the inserted keys are the source keys of the group, `inserted_keys` is the growth of the group and at most `distinct_values_seen` |
| Collector.MappingCollector.CollectMappingKeys | src/db_sanitizer/postgres/collector.py:34-94 | succeeds exactly when every configured non-NULL value has a normal form; the tables are then the old ones with all source keys inserted, with exact statistics per group |
| Collector.InsertGroupsKeys | src/db_sanitizer/postgres/collector.py:48-94 | afterwards a group holds its old keys and its source keys, no more and no less |
| Collector.InsertGroupsKeeps | src/db_sanitizer/postgres/collector.py:48-94 | every earlier row, pending or assigned, is as before |
| Collector.CollectAgain | src/db_sanitizer/postgres/collector.py:48-94 | a second collection of the same source inserts nothing and changes no assignment |
| Mapper.CacheStaysSound | src/db_sanitizer/greenmask/mapper_process.py:119-130 | growth of a write-once registry leaves a cache of assigned values sound |
| Mapper.MappedStays | src/db_sanitizer/greenmask/mapper_process.py:119-132 | fields mapped so far are mapped alike while the registry grows |
| Mapper.JsonlMapper.Remember | src/db_sanitizer/greenmask/mapper_process.py:128-130 | the oldest entry leaves a full cache; at most 4096 entries |
| Mapper.JsonlMapper.Replacement | src/db_sanitizer/greenmask/mapper_process.py:119-130 | the cached answer is the answer of the registry |
| Mapper.JsonlMapper.MapAttribute | src/db_sanitizer/greenmask/mapper_process.py:96-132 | the rewritten field through the cache is the field without it, or the reason why there is none |
| Mapper.JsonlMapper.Transform | src/db_sanitizer/greenmask/mapper_process.py:93-133 | even if keys are assigned between any two lookups, the record is rewritten as the last view of the registry gives, or refused for the reason that holds at the refused column; unconfigured and NULL fields stay |
| Mapper.JsonlMapper.Run | src/db_sanitizer/greenmask/mapper_process.py:153-182 | with one growing view per lookup, each record is rewritten without a trace of the cache; at the first refusal the stream ends with status 4 and no output for that record |
| Mapper.OpenMapper | src/db_sanitizer/greenmask/mapper_process.py:41-88 | opens exactly for an accepted configuration that has the table |
| Mapper.TransformedUnique | src/db_sanitizer/greenmask/mapper_process.py:93-133 | a record has at most one rewrite |
| Mapper.RefusedExcludesTransformed | src/db_sanitizer/greenmask/mapper_process.py:93-133 | a refused record has no rewrite |
| Mapper.TransformedStable | src/db_sanitizer/greenmask/mapper_process.py:119-130 | once a record can be rewritten, later assignments do not change its rewrite |
| LookupCache.AccessKeepsLast | src/db_sanitizer/verify/checks.py:201-209 | moving a held key to the end, or evicting the first and appending, keeps the last `limit` keys by recency |
| LookupCache.RecentlyUsed | src/db_sanitizer/verify/checks.py:192-209 | a key is held exactly when fewer than `limit` distinct keys were accessed since its own last access |
| LookupCache.ReplacementLookupCache.Lookup | src/db_sanitizer/verify/checks.py:201-209 | over a frozen registry every answer is the registry lookup, the held keys are the last `limit` distinct ones by recency, and the size is min(limit, distinct accessed) |
| VerifierModel.CellTallyClean | src/db_sanitizer/verify/checks.py:1040-1077 | no counter of a pair is raised exactly when the target is NULL for NULL and otherwise the registry image and not the source text |
| VerifierModel.AlignedExact | src/db_sanitizer/verify/checks.py:938-969 | no failure over two aligned scans of any lengths if and only if they have the same keys and every target value is the image of its source value |
| VerifierModel.MultisetTallyClean | src/db_sanitizer/verify/checks.py:976-1037 | no failure of the fallback comparison if and only if all values are mapped, no target value is a non-text, NULL counts agree and the two digest multisets are equal |
| VerifierModel.EqualBags | src/db_sanitizer/verify/checks.py:1009-1034 | equal digest multisets are equal multisets of cells when no two of the texts share a digest |
| VerifierModel.MultisetSound | src/db_sanitizer/verify/checks.py:976-1037 | a passing fallback column holds exactly the images of the source column as a multiset, when no two compared texts share a digest |
| VerifierModel.MultisetComplete | src/db_sanitizer/verify/checks.py:976-1037 | a column of images in any order passes, for every digest |
| VerifierModel.TotalClean | src/db_sanitizer/verify/checks.py:602-645 | the check has no failure exactly when every configured column has none |
| VerifierModel.KeyBagMembers | src/db_sanitizer/verify/checks.py:680-698 | the collected target digests are the keys of the target values; the invalid count is 0 exactly when every non-NULL value has a key |
| Verifier.MappingMetrics.Failed | src/db_sanitizer/verify/checks.py:227-240 | failed if and only if one of the eight failure counters is set |
| Verifier.ExpectedReplacement | src/db_sanitizer/verify/checks.py:1080-1099 | the replacement of a value through the cache; values without normal form or without mapping are counted |
| Verifier.CompareMappingValues | src/db_sanitizer/verify/checks.py:1040-1077 | the counters grow by exactly what the pair deserves |
| Verifier.CheckMappingByPrimaryKey | src/db_sanitizer/verify/checks.py:919-973 | for all fetch sizes and batchings: the counters grow by the tally of the two scans, padded to the longer one |
| Verifier.ScanSource | src/db_sanitizer/verify/checks.py:992-1017 | expected digests reach the work table exactly once each for every buffer size; NULLs and failures are counted |
| Verifier.ScanTarget | src/db_sanitizer/verify/checks.py:1019-1032 | exact target texts reach the work table exactly once each; NULLs and non-texts are counted |
| Verifier.CheckMappingAggregate | src/db_sanitizer/verify/checks.py:976-1037 | the counters grow by the tally of the two columns as multisets; the work table is empty afterwards |
| Verifier.CheckColumn | src/db_sanitizer/verify/checks.py:602-645 | a column is compared by the unchanged primary key, as a multiset, or counted as unavailable, as planned |
| Verifier.CheckConfiguredMappings | src/db_sanitizer/verify/checks.py:569-653 | with one shared bounded cache per group, the reported counters are the sum of the column tallies, and the check passes exactly when no failure counter is set |
| Verifier.ScanKeyColumn | src/db_sanitizer/verify/checks.py:680-694 | digests of normal forms are collected across columns with one carried buffer; values without normal form are counted |
| Verifier.CheckGroupIntersection | src/db_sanitizer/verify/checks.py:671-705 | distinct target keys, intersection with source keys, invalid values and missing columns of one group are exact |
| Verifier.CheckSourceTargetNonintersection | src/db_sanitizer/verify/checks.py:656-725 | exact statistics for every group; passes if and only if no group has an intersection, an invalid value or a missing column |
| Scans.ConfiguredColumnsExact | src/db_sanitizer/verify/checks.py:751-756 | exactly the declared columns are visited, each under its own group and settings |
| Scans.MapMultiset | src/db_sanitizer/verify/checks.py:1178-1192 | replacing values commutes with any reordering of a scan |
| Scans.OrderedUnique | src/db_sanitizer/verify/checks.py:1119-1136 | an ordered scan by a distinct key is determined by its rows |
| Scans.AlignedColumnExact | src/db_sanitizer/verify/checks.py:919-973 | an aligned column passes if and only if the target rows are, key for key, the source rows with every value replaced by its image, and no value is its own image |
| Scans.MultisetColumnExact | src/db_sanitizer/verify/checks.py:976-1037 | a column of images passes; when no two compared texts share a digest, nothing else passes |
| Scans.PlanKey | src/db_sanitizer/verify/checks.py:589-615 | alignment is only by an unconfigured primary key of the column's own table |
| Scans.MappingsCheckExact | src/db_sanitizer/verify/checks.py:569-653 | the check passes whenever every target column is the image of its source column; when it passes, every column aligned by its primary key is that image for every digest, and every other column too when the texts compared there have different digests |
| AggregateChecks.CheckColumnStatistics | src/db_sanitizer/verify/checks.py:351-408 | exact NULL and distinct counts per column; passes if and only if every column is available with equal counts |
| AggregateChecks.CheckNoSinglePlaceholder | src/db_sanitizer/verify/checks.py:728-748 | passes if and only if every column is available and none with several source values has at most one target value |
| AggregateChecks.HonestStatisticsExactly | src/db_sanitizer/verify/checks.py:351-408 | on an honest run the statistics agree if and only if normalisation merges no two values of the column; it counts as collapsed if and only if its several values share one normal form |
| AggregateChecks.OrderedKeyComparison | src/db_sanitizer/verify/checks.py:819-853 | counts compared rows and differing positions of two ordered key scans; no mismatch if and only if the scans are equal |
| AggregateChecks.UnchangedKeysAgree | src/db_sanitizer/verify/checks.py:490-501 | an unconfigured primary key compares without a mismatch after an honest restore |
| ConstraintChecks.CheckSchemaColumnsTypes | src/db_sanitizer/verify/checks.py:275-310 | passes if and only if both schemas have the same columns with the same types and length limits |
| ConstraintChecks.CheckTableRowCounts | src/db_sanitizer/verify/checks.py:313-348 | passes if and only if both sides have the same relations with equally many rows, views among them |
| ConstraintChecks.CheckForeignKeys | src/db_sanitizer/verify/checks.py:531-566 | passes if and only if the definitions agree as multisets, none is unvalidated and no target row is an orphan |
| ConstraintChecks.DuplicatesMean | src/db_sanitizer/verify/checks.py:791-805 | no group of equal keys without NULL if and only if the key is unique |
| ConstraintChecks.KeyViolationsMean | src/db_sanitizer/verify/checks.py:475-480 | no duplicate group, and for a primary key no row with a NULL, if and only if the declared key holds |
| ConstraintChecks.CheckPrimaryUniqueConstraints | src/db_sanitizer/verify/checks.py:459-528 | passes if and only if the definitions agree as multisets, every target key holds, and every compared primary key has the same values on both sides |
| Graph.CollectTraceKeeps | src/db_sanitizer/graph.py:262-283 | collection, stopped after any transaction and restarted any number of times, keeps the registry free of assignments and within the source keys |
| Graph.CollectedIsReady | src/db_sanitizer/graph.py:414-430 | disjointness holds at the start of generation because every insertion precedes the first assignment |
| Graph.GenerateTraceKeeps | src/db_sanitizer/graph.py:285-343 | generation, stopped after any transaction, rewrites nothing, loses no key, and keeps all invariants, among them that an assigned row implies a recorded request |
| Graph.TracePrefix | src/db_sanitizer/graph.py:262-343 | every prefix of an execution is an interrupted execution |
| Graph.AllRowsCounted | src/db_sanitizer/graph.py:305-308 | the sum of assigned counts over the policy's groups is the number of assigned rows |
| Graph.RepairIsNoOp | src/db_sanitizer/graph.py:309-312 | raising the stored count to the number of assigned rows never changes it |
| Graph.EvidenceExactly | src/db_sanitizer/graph.py:316-330 | with nothing pending the evidence test passes if and only if the source has a configured non-NULL value, so a repeated execution never fails for missing evidence |
| Graph.EmptySourceStuck | src/db_sanitizer/graph.py:329-330 | with an empty source the generate node never finishes, however often it is executed |
| Graph.StepSafe | src/db_sanitizer/graph.py:235-430 | one execution of any node, finished or interrupted, keeps the invariants of its stage and never rewrites an assignment |
| Graph.RunSafe | src/db_sanitizer/graph.py:235-430 | over every run with crashes and resumptions: before generation nothing is assigned; afterwards assignments are one-to-one, disjoint from source keys, faithful, and the persisted counters equal the rows |
| Graph.RunNeverRewrites | src/db_sanitizer/graph.py:650-695 | between any two durable states of a run no assignment changes and no key disappears |
| Nodes.CountMappings | src/db_sanitizer/graph.py:269-271 | one count for each group of the policy, of all rows or of the assigned ones, and their sum |
| Nodes.CollectMappingKeysNode | src/db_sanitizer/graph.py:262-283 | its effect is an execution of the step machine; unless the registry refuses the run, it succeeds exactly when every configured value has a normal form, with the number of keys of each group |
| Nodes.GenerateGroups | src/db_sanitizer/graph.py:299-300 | on success nothing is pending in any group; a request is on record exactly when the generator made one |
| Nodes.GenerateReplacementsNode | src/db_sanitizer/graph.py:285-343 | its effect is an execution of the step machine; without earlier evidence it refuses for missing evidence only when the source has no configured value |
| Resume.CheckResumeCompatibility | src/db_sanitizer/graph.py:606-624 | accepts exactly checkpoints of the same run, policy, schema, provider, model and digest key; rows are untouched either way |
| Resume.PrepareRun | src/db_sanitizer/graph.py:650-695 | a fresh run starts at the first node only without a checkpoint; a resumed one continues at the checkpointed node only if compatible and not complete |
| Resume.ResumeIsStep | src/db_sanitizer/graph.py:670-683 | the resume check, accepted or refused, is an interrupted execution of the next node, so statements about runs cover it |
| DataPlane.RunLeavesReady | src/db_sanitizer/graph.py:414-430 | every run that got past generation leaves a ready registry |
| DataPlane.ValueIsMapped | src/db_sanitizer/graph.py:285-343 | on a ready registry every configured non-NULL source value has a valid replacement that is not the value itself and whose key is no source key |
| DataPlane.BindingsCover | src/db_sanitizer/greenmask/config_builder.py:80-110 | a column is bound for the mapper of its table if and only if it is configured |
| DataPlane.FieldIsMapped | src/db_sanitizer/greenmask/mapper_process.py:96-132 | every configured field of every source row is mapped to its image |
| DataPlane.MapperNeverFails | src/db_sanitizer/greenmask/mapper_process.py:93-133 | on a ready registry no row of any table is refused, and every rewrite decodes to the image of the row |
| ConfigBuilder.SplitSchema | src/db_sanitizer/greenmask/config_builder.py:80-81 | a table key splits back into schema and table if and only if the schema has no dot |
| ConfigBuilder.TableIsConfigured | src/db_sanitizer/greenmask/config_builder.py:80-115 | a table has a transformer if and only if it has a configured column, and the transformer maps exactly its configured columns in ascending order |
| ConfigBuilder.BuildMapperConfig | src/db_sanitizer/greenmask/config_builder.py:44-115 | for a validated policy the configuration is written without error, accepted by the mapper, and configures every table of the database as its policy says |
| ConfigBuilder.OpenTableMapper | src/db_sanitizer/greenmask/mapper_process.py:75-88 | the mapper process of every configured table opens with exactly the bindings of that table |
| Restore.MapTable | src/db_sanitizer/greenmask/mapper_process.py:153-182 | the stream of one table through the mapper opened for it is rewritten row by row, or fails because of a row that cannot be rewritten |
| Restore.MapTables | src/db_sanitizer/greenmask/config_builder.py:79-115 | succeeds only if every table is rewritten row by row through its mapper, or copied when it has none, and fails only if some row cannot be rewritten; on a ready registry nothing is refused and the rows are exactly the image of the source |
| Restore.DumpAndRestore | src/db_sanitizer/graph.py:369-398 | succeeds only if every table is rewritten or copied and the loaded rows satisfy every declared key and foreign key; on a ready registry the rows are the image of the source and it succeeds if and only if the image satisfies them |
| Integrity.NoOrphans | src/db_sanitizer/verify/checks.py:871-906 | the orphan count is 0 if and only if no child row is an orphan |
| Integrity.MatchesImage | src/db_sanitizer/policy/validator.py:40-54 | a child row that matches a parent row matches its image afterwards, component by component |
| Integrity.RelationshipSurvives | src/db_sanitizer/verify/checks.py:871-906 | a relationship that sits in one place and has no orphan has none afterwards, for simple and full matching, composite keys and NULL components |
| Integrity.ForeignKeysSurvive | src/db_sanitizer/policy/validator.py:40-81 | an accepted policy turns a source without orphans into a target without orphans |
| Acceptance.HonestColumn | src/db_sanitizer/verify/checks.py:569-653 | every configured column of an honest restore is the image the verifier expects, whichever way it is compared |
| Acceptance.HonestMappingsPass | src/db_sanitizer/verify/checks.py:569-653 | an honest run passes the mapping check with every failure counter 0, for every ordering, batching and digest |
| Acceptance.StoredHmacsSeparate | src/db_sanitizer/mapping/registry.py:64-67 | a group has as many stored replacement digests as keys, and none of them is a key |
| Acceptance.ImageKey | src/db_sanitizer/llm/generator.py:120-128 | the key of the image of a value is the digest stored with the value's own key |
| Acceptance.TargetKeysAreStored | src/db_sanitizer/verify/checks.py:671-698 | the keys of the target values of a group are exactly its stored replacement digests |
| Acceptance.HonestGroupStats | src/db_sanitizer/verify/runner.py:280-294 | on an honest run the group statistics are clean and `distinct_target` equals `mapping_count`, without normalisation being injective |
| Cardinality.SameImageExactly | src/db_sanitizer/llm/generator.py:120-128 | two cells of a column get the same replacement if and only if they are spellings of one normal form |
| Cardinality.NeverMoreDistinct | src/db_sanitizer/verify/checks.py:379-393 | a target column never has more distinct values than the source column |
| Cardinality.ColumnCardinality | src/db_sanitizer/verify/checks.py:379-393 | it has exactly as many as the source column has normal forms: equally many if and only if normalisation merges no two values |
| Cardinality.NullsSurvive | src/db_sanitizer/verify/checks.py:379-393 | NULLs stay where they are |
| Cardinality.UniqueSurvivesExactly | src/db_sanitizer/verify/checks.py:791-805 | a unique key, simple or composite, survives if and only if no two source rows agree on it up to spelling |
| Cardinality.KeyNullsSurvive | src/db_sanitizer/verify/checks.py:808-816 | a key has a NULL in exactly the rows in which it had one |
| Cardinality.KeySurvivesExactly | src/db_sanitizer/verify/checks.py:475-480 | a declared key survives if and only if no two source rows agree on it up to spelling and a primary key had no NULL |
| Cardinality.SpellingsKeepKeys | src/db_sanitizer/verify/checks.py:475-480 | where normalisation merges no two values of a configured column, every declared key survives |
| Pipeline.EndToEnd | src/db_sanitizer/graph.py:235-430 | for every source, accepted policy and interrupted run that got past generation: the mapper rewrites every row, foreign keys survive, the mapping check has no failure and every group passes the nonintersection check |
| Pipeline.VerifyConnections | src/db_sanitizer/verify/runner.py:84-193 | all nine required checks on any target and any registry: each flag holds if and only if its meaning does, that of the fingerprint being that the source schema is the approved one and that of the foreign keys that none is unvalidated |
| Pipeline.PassedMeans | src/db_sanitizer/verify/runner.py:69-81 | on an arbitrary target, a passing verification means that every configured column aligned by its primary key is the image of the source, every other one too when the texts compared there have different digests, every declared key holds and no row is an orphan |
| Pipeline.StatisticsExactly | src/db_sanitizer/verify/checks.py:351-408 | after an honest restore the statistics of all configured columns agree if and only if normalisation merges no two values of any of them |
| Pipeline.AcceptedSchema | src/db_sanitizer/policy/validator.py:57-81 | a schema the validation accepted, with keys and validated foreign keys that hold in the source, meets what the end of the run needs |
| Pipeline.HonestVerdict | src/db_sanitizer/verify/runner.py:69-81 | after an honest restore all required checks pass if and only if normalisation merges no two values of a configured column, no foreign key is declared NOT VALID, the source schema is the approved one, and the views count as before |
| Pipeline.IndifferentViewsKept | src/db_sanitizer/verify/checks.py:313-348 | a view whose count does not depend on configured columns counts as before, whatever the replacements |
| Pipeline.FilteringViewChanges | src/db_sanitizer/verify/checks.py:313-348 | a view that counts the rows in which a configured column holds one of its source values counts none of them afterwards, whatever the replacements |
| Pipeline.VerifyRestored | src/db_sanitizer/graph.py:400-412 | the verify node after an honest restore passes if and only if the registry file belongs to the run and the four conditions of `HonestVerdict` hold; assignments are untouched |
| Pipeline.FinishRun | src/db_sanitizer/graph.py:345-412 | on a ready registry, with a source whose validated constraints hold and normal forms with different digests, the run finishes if and only if no two values of a configured column share a normal form, no foreign key is declared NOT VALID, the source schema is the approved one, the registry file belongs to the run, and the views count as before; the restore alone succeeds if and only if the image keeps every declared key |
| Connections.EveryDatabaseOpens | src/db_sanitizer/verify/checks.py:1119-1136 | every database has cursors that read exactly its rows, in one total order of each key for all databases, so the premises about connections can always be met |
| Counterexamples.SpellingsRun | src/db_sanitizer/graph.py:235-430 | a concrete uninterrupted run in which two spellings of one name, in a configured primary key, get one replacement; its registry is ready |
| Counterexamples.MergedSpellings | src/db_sanitizer/verify/checks.py:475-480 | at that registry the primary key holds in the source and not in the target, and the statistics check refuses the column |
| Counterexamples.EmptySourceRefused | src/db_sanitizer/graph.py:329-330 | a concrete empty source for which generation leaves nothing pending and is refused all the same |
| Provider.NumeralDenotes | src/db_sanitizer/llm/fake_provider.py:45-52 | reading the numeral of a number gives the number back |
| Provider.DenotedNumeral | src/db_sanitizer/llm/fake_provider.py:45-52 | every word over the alphabet is the numeral of the number it denotes |
| Provider.Letters | src/db_sanitizer/llm/fake_provider.py:45-52 | the loop ends and computes the bijective base-30 numeral |
| Provider.ValuesDiffer | src/db_sanitizer/llm/fake_provider.py:33-43 | different sequence numbers give different values, for all four kinds of entity |
| Provider.DeterministicSyntheticProvider.Generate | src/db_sanitizer/llm/fake_provider.py:21-31 | returns the next `count` values of the entity; all values ever returned by one provider stay pairwise different |

## Left out

- Mapper.JsonlMapper.Run: termination by signal and the process's own start-up checks are not modelled.
- Restore.DumpAndRestore: Greenmask and pg_restore are taken to hand every row of a configured table to its mapper, to load what it returns and to recreate the schema; besides primary keys, unique constraints and foreign keys, no constraint is modelled (check and exclusion constraints, unique expression indexes, triggers), and neither are failures of the tools themselves.
- Pipeline.VerifyConnections: the schema fingerprints are given strings and the NOT VALID foreign keys are given with the inspected schemas, because reading the catalogue is SQL.
- Pipeline.FinishRun: the policy validation accepts configured columns of any relation the inspection lists; here they are columns of ordinary tables, and views are functions of the tables. Foreign and partitioned tables are not modelled.
- Registry.MappingRegistry.Initialize: the creation time and the file's permissions are not modelled.
- Generator.ReplacementGenerator.GenerateBatch: filling and storing are two methods here; the branch that retries after a registry conflict is not written because `GeneratorModel.GeneratedBatchAccepted` shows that it is never taken with one writer.
- Generator.ReplacementGenerator.Attempt: the request's varying description text and locale are not modelled; exceptions other than the handled ones end the program and are not modelled.
- Generator.ReplacementGenerator.constructor: batch sizes and retry counts outside the policy's ranges, which raise, are excluded by its precondition.
- Policy.ValidatorAcceptsExactly: type names are compared as case-folded text given by the schema; the validation of URLs, file names and environment-variable names is left out.
- Provider.DeterministicSyntheticProvider.Generate: the error for an unknown entity cannot arise, because the four entities are an enumeration here.
- Verifier.CheckConfiguredMappings: a fetch size below 1 and failing connections, which raise, are not modelled.
- Scans.MappingsCheckExact: both connections are taken to sort equal keys alike and to compare texts exactly; blank-padded `char(n)` values are excluded.
- PostgreSQL, psycopg and SQL text: tables are sequences of rows, statements are what they return, in batches of any size.
- SQLite: only commit, rollback and the declared constraints are modelled; busy timeouts, file modes and disk errors are not.
- Concurrent writers of one registry file: the generator is the only writer; the mapper may read a growing registry.
- HMAC-SHA256, Unicode normalisation, case folding and regular expressions: arbitrary functions.
- The HTTP clients of the providers: a provider is a list of responses and failures.
- LangGraph: a node is executed again from the last checkpoint; its storage is not modelled.
- Reports, JSON Schema validation, log files, durations, the demonstration sample, the command line and settings: they would only add easy members.
