/** Starting and resuming a run: which checkpoint may be continued, and that checking it leaves the
    registry's rows and counters alone. */
module Resume {
  import opened Base
  import opened RegistryModel
  import opened Registry
  import opened RunModel
  import opened Graph

  /** The string entries of a checkpoint, None when absent, and the node to execute next. */
  datatype Checkpoint = Checkpoint(
    runId: Option<string>, policySha: Option<string>, schemaFingerprint: Option<string>, next: Node)

  /** What the present invocation was configured with. */
  datatype Invocation = Invocation(runId: string, policySha: string, provider: string, model: string,
                                   keyFingerprint: string)

  datatype ResumeFault =
    | MissingEntry | WrongRun | WrongPolicy | WrongSchema | RegistryRefused
    | NoCheckpoint | CheckpointExists | AlreadyComplete

  /** `_run_metadata`; the registry's status is always the initial one. */
  function RunMetadata(v: Invocation, schemaSha: string): Metadata {
    Metadata(v.runId, v.policySha, schemaSha, v.provider, v.model, v.keyFingerprint, "initialized")
  }

  /** The checkpoint was written by the same run with the same policy, source schema, provider, model
      and digest key. `registered` is the metadata of the registry file, None without a file. */
  predicate Compatible(v: Invocation, s: Checkpoint, currentSchema: string, registered: Option<seq<Metadata>>) {
    && v.runId != "" && s.runId == Some(v.runId)
    && v.policySha != "" && s.policySha == Some(v.policySha)
    && (s.schemaFingerprint.Some? ==>
          && s.schemaFingerprint.value == currentSchema
          && (registered.Some? ==>
                && MetadataComplete(RunMetadata(v, currentSchema))
                && (registered.value == [] || registered.value == [RunMetadata(v, currentSchema)])))
  }

  /** At most one transaction, which creates the metadata row or the counters' row. */
  ghost predicate Opening(t: Tables, made: seq<Commit>) {
    made == [] || made == [StatsRowEnsured] || (t.meta == [] && exists d :: made == [Opened(d)])
  }

  /** `_state_string`. */
  method StateString(entry: Option<string>) returns (r: Option<string>)
    ensures r == (if entry == Some("") then None else entry)
  {
    if entry.None? || entry.value == "" { return None; }
    return entry;
  }

  /** `_check_resume_compatibility`. */
  method CheckResumeCompatibility(v: Invocation, s: Checkpoint, currentSchema: string, registry: MappingRegistry,
                                  hasRegistry: bool)
    returns (fault: Option<ResumeFault>, ghost made: seq<Commit>)
    modifies registry
    ensures fault.None? <==> Compatible(v, s, currentSchema, if hasRegistry then Some(old(registry.meta)) else None)
    ensures Opening(old(registry.Contents()), made)
    ensures registry.Contents() == Replay(old(registry.Contents()), made)
    ensures registry.mappings == old(registry.mappings)
  {
    made := [];
    var runId := StateString(s.runId);
    if runId.None? { return Some(MissingEntry), made; }
    if runId.value != v.runId { return Some(WrongRun), made; }
    var policySha := StateString(s.policySha);
    if policySha.None? { return Some(MissingEntry), made; }
    if policySha.value != v.policySha { return Some(WrongPolicy), made; }
    if s.schemaFingerprint.None? { return None, made; }
    if currentSchema != s.schemaFingerprint.value { return Some(WrongSchema), made; }
    if hasRegistry {
      ghost var start := registry.Contents();
      var metadata := RunMetadata(v, currentSchema);
      var initialized := registry.Initialize(metadata);
      if initialized.Failure? { return Some(RegistryRefused), made; }
      made := [if start.meta == [] then Opened(metadata) else StatsRowEnsured];
      ReplayOne(start, [], made[0]);
      assert [] + [made[0]] == made;
    }
    return None, made;
  }

  /** The first part of `run_sanitization`: the node with which execution starts or continues. */
  method PrepareRun(resume: bool, checkpoint: Option<Checkpoint>, v: Invocation, currentSchema: string,
                    registry: MappingRegistry, hasRegistry: bool)
    returns (r: Result<Node, ResumeFault>, ghost made: seq<Commit>)
    modifies registry
    ensures r.Success? <==>
      if resume then
        && checkpoint.Some?
        && Compatible(v, checkpoint.value, currentSchema, if hasRegistry then Some(old(registry.meta)) else None)
        && checkpoint.value.next != Completed
      else checkpoint.None?
    ensures r.Success? ==> r.value == if resume then checkpoint.value.next else LoadPolicy
    ensures Opening(old(registry.Contents()), made)
    ensures registry.Contents() == Replay(old(registry.Contents()), made)
  {
    hide Compatible;
    made := [];
    if !resume {
      if checkpoint.Some? { return Failure(CheckpointExists), made; }
      return Success(LoadPolicy), made;
    }
    if checkpoint.None? { return Failure(NoCheckpoint), made; }
    var fault;
    fault, made := CheckResumeCompatibility(v, checkpoint.value, currentSchema, registry, hasRegistry);
    if fault.Some? { return Failure(fault.value), made; }
    if checkpoint.value.next == Completed { return Failure(AlreadyComplete), made; }
    return Success(checkpoint.value.next), made;
  }

  /** Checking a checkpoint, whether it is then continued or refused, is an interrupted execution of
      the next node: every statement about runs covers it. */
  lemma ResumeIsStep(x: Context, w: World, made: seq<Commit>)
    requires w.next != Completed && Opening(w.tables, made)
    ensures Execution(x, w, made, World(Replay(w.tables, made), w.next, w.evidence))
    ensures Step(x, w, World(Replay(w.tables, made), w.next, w.evidence))
  {
    hide Apply;
    var w' := World(Replay(w.tables, made), w.next, w.evidence);
    if made != [] {
      assert made[..0] == [];
      assert CollectTrace(x.crypto, x.groups, x.db, w.tables, made);
      assert GenerateTrace(x.crypto, x.groups, w.tables, made);
    }
    assert Quiet(made);
    assert Execution(x, w, made, w');
  }
}
