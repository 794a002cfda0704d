/** The partial pipeline of src/lib/agents/partial-orchestrator.ts: chosen agents
    only, in pipeline order, with the business's current columns as context and the
    staleness of every regenerated field cleared. */
module PartialOrchestrator {
  import opened Collections
  import opened JsonValues
  import opened Graph
  import opened ChangeDetector
  import opened Store
  import opened Staleness
  import opened Pipeline

  /** `AGENT_ORDER.filter((a) => agentsToRun.includes(a))`. */
  function SortedAgents(agentsToRun: seq<Agent>): seq<Agent> {
    Filter(AgentOrder, a => a in agentsToRun)
  }

  /** The sorted list holds exactly the requested agents, each once, in pipeline
      order, whatever the order and repetitions of the request. */
  lemma SortedAgentsIff(agentsToRun: seq<Agent>, a: Agent)
    ensures a in SortedAgents(agentsToRun) <==> a in agentsToRun
    ensures NoDup(SortedAgents(agentsToRun))
    ensures forall i, j | 0 <= i < j < |SortedAgents(agentsToRun)| ::
      PipelineIndex(SortedAgents(agentsToRun)[i]) < PipelineIndex(SortedAgents(agentsToRun)[j])
  {
    assert AgentOrder[PipelineIndex(a)] == a;
    var lt := (x: Agent, y: Agent) => PipelineIndex(x) < PipelineIndex(y);
    FilterKeepsOrder(AgentOrder, a => a in agentsToRun, lt);
    var r := SortedAgents(agentsToRun);
    forall i, j | 0 <= i < j < |r| ensures r[i] != r[j] {
      assert lt(r[i], r[j]);
    }
  }

  /** What an iteration does once the agent returned (partial-orchestrator.ts:148-198). */
  method CompleteAgent(store: Store, log: EventLog, now: Timestamp, outputs: map<Field, Json>, a: Agent,
                       result: seq<Member>)
    returns (newOutputs: map<Field, Json>)
    requires |store.runs| > 0
    modifies store, log
    ensures Progress(store.Snapshot(), log.events, newOutputs, None) ==
      Succeed(Partial, now, store.initialVersion, Progress(old(store.Snapshot()), old(log.events), outputs, None), a, result)
  {
    var fields := AgentOutputs(a);
    newOutputs := KeepDefined(fields, Lookup(result), outputs);
    var updateData := KeepDefined(fields, Lookup(result), map[]);
    EmptyUnion(DefinedBy(fields, Lookup(result)));
    store.business := WithColumns(store.business, updateData);
    var newHashes := CollectHashes(FieldNames(fields), n => Get(result, n));
    ClearStaleness(store, FieldNames(fields), Some(newHashes), now);
    store.runs := UpdateLast(store.runs, RunCompleted, now, Some(result), None);
    log.Emit(Event(AgentComplete, Some(a), Some(DoneMessage(Partial, a)), Some(Obj(result)), None));
  }

  /** One iteration of the loop of `runPartialPipeline` (partial-orchestrator.ts:108-221). */
  method RunAgent(store: Store, log: EventLog, agents: (Agent, AgentContext) -> AgentReply, b0: Business,
                  now: Timestamp, outputs: map<Field, Json>, a: Agent)
    returns (newOutputs: map<Field, Json>, failure: Option<Thrown>)
    modifies store, log
    ensures Progress(store.Snapshot(), log.events, newOutputs, failure) ==
      Step(Partial, agents, b0, now, store.initialVersion,
           Progress(old(store.Snapshot()), old(log.events), outputs, None), a)
  {
    StartAgent(store, log, Partial, b0, outputs, a);
    var reply := agents(a, AgentContext(b0, outputs));
    log.EmitAll(NoteEvents(a, reply.notes));
    match reply.outcome {
      case Returned(result) =>
        newOutputs := CompleteAgent(store, log, now, outputs, a, result);
        failure := None;
      case Threw(e) =>
        FailAgent(store, log, now, outputs, a, e);
        newOutputs := outputs;
        failure := Some(e);
    }
  }

  /** The agent loop of `runPartialPipeline`, which stops at the first agent that
      throws. */
  method RunAgents(store: Store, log: EventLog, agents: (Agent, AgentContext) -> AgentReply, b0: Business,
                   now: Timestamp, seed: map<Field, Json>, order: seq<Agent>)
    returns (outputs: map<Field, Json>, failure: Option<Thrown>)
    modifies store, log
    ensures Progress(store.Snapshot(), log.events, outputs, failure) ==
      Steps(Partial, agents, b0, now, store.initialVersion, Progress(old(store.Snapshot()), old(log.events), seed, None), order)
  {
    outputs := seed;
    failure := None;
    ghost var p0 := Progress(store.Snapshot(), log.events, outputs, None);
    var i := 0;
    while i < |order| && failure.None?
      invariant 0 <= i <= |order|
      invariant Progress(store.Snapshot(), log.events, outputs, failure) ==
        Steps(Partial, agents, b0, now, store.initialVersion, p0, order[..i])
    {
      assert order[..i + 1][..i] == order[..i];
      outputs, failure := RunAgent(store, log, agents, b0, now, outputs, order[i]);
      i := i + 1;
    }
    if failure.Some? {
      StepsStuck(Partial, agents, b0, now, store.initialVersion, p0, order, i);
    } else {
      assert order[..i] == order;
    }
  }

  /** `runPartialPipeline` (partial-orchestrator.ts:66-255); what it rethrows is
      returned. */
  method RunPartialPipeline(store: Store, log: EventLog, agents: (Agent, AgentContext) -> AgentReply,
                            agentsToRun: seq<Agent>, now: Timestamp)
    returns (thrown: Option<Thrown>)
    modifies store, log
    ensures var r := Run(Partial, agents, old(store.Snapshot()), old(log.events), SortedAgents(agentsToRun), now,
                         store.initialVersion);
      store.Snapshot() == r.db && log.events == r.events && thrown == r.failure
  {
    var outputs: map<Field, Json> := map[];
    if store.business.None? {
      thrown := Some(NotFound);
    } else {
      var b0 := store.business.value;
      var seed := map f | f in GeneratedFields :: Column(b0, f);
      store.business := WithStatus(store.business, Running);
      outputs, thrown := RunAgents(store, log, agents, b0, now, seed, SortedAgents(agentsToRun));
    }
    FinishRun(store, log, Partial, outputs, thrown);
  }

  // ------------------------------------------------------------------
  // regenerateFields (partial-orchestrator.ts:260-277)
  // ------------------------------------------------------------------

  /** The agents whose `AGENT_OUTPUTS` list one of the given names. */
  function NeededFor(fields: seq<string>): set<Agent> {
    set a | a in AgentOrder && exists i | 0 <= i < |fields| :: fields[i] in FieldNames(AgentOutputs(a))
  }

  /** The `agentsNeeded` set of `regenerateFields`, in insertion order. */
  method AgentsNeeded(fields: seq<string>) returns (needed: seq<Agent>)
    ensures NoDup(needed)
    ensures forall a :: a in needed <==> a in NeededFor(fields)
  {
    needed := [];
    for i := 0 to |fields|
      invariant NoDup(needed)
      invariant forall a :: a in needed <==> a in NeededFor(fields[..i])
    {
      for j := 0 to |AgentOrder|
        invariant NoDup(needed)
        invariant forall a :: a in needed <==> (a in NeededFor(fields[..i]) ||
          (a in AgentOrder[..j] && fields[i] in FieldNames(AgentOutputs(a))))
      {
        var a := AgentOrder[j];
        if fields[i] in FieldNames(AgentOutputs(a)) && a !in needed {
          needed := needed + [a];
        }
      }
      NeededForSnoc(fields[..i], fields[i]);
      assert fields[..i + 1] == fields[..i] + [fields[i]];
      assert AgentOrder[..|AgentOrder|] == AgentOrder;
    }
    assert fields[..|fields|] == fields;
  }

  lemma NeededForSnoc(fields: seq<string>, f: string)
    ensures forall a :: a in NeededFor(fields + [f]) <==>
      a in NeededFor(fields) || (a in AgentOrder && f in FieldNames(AgentOutputs(a)))
  {
    forall a ensures a in NeededFor(fields + [f]) <==>
      a in NeededFor(fields) || (a in AgentOrder && f in FieldNames(AgentOutputs(a)))
    {
      if a in NeededFor(fields + [f]) && a !in NeededFor(fields) {
        var i :| 0 <= i < |fields + [f]| && (fields + [f])[i] in FieldNames(AgentOutputs(a));
        assert i == |fields|;
      }
      if a in NeededFor(fields) {
        var i :| 0 <= i < |fields| && fields[i] in FieldNames(AgentOutputs(a));
        assert (fields + [f])[i] == fields[i];
      }
      if a in AgentOrder && f in FieldNames(AgentOutputs(a)) {
        assert (fields + [f])[|fields|] == f;
      }
    }
  }

  /** `regenerateFields`: the partial pipeline over the agents producing the fields. */
  method RegenerateFields(store: Store, log: EventLog, agents: (Agent, AgentContext) -> AgentReply,
                          fields: seq<string>, now: Timestamp)
    returns (thrown: Option<Thrown>)
    modifies store, log
    ensures var r := Run(Partial, agents, old(store.Snapshot()), old(log.events),
                         Filter(AgentOrder, a => a in NeededFor(fields)), now, store.initialVersion);
      store.Snapshot() == r.db && log.events == r.events && thrown == r.failure
  {
    var needed := AgentsNeeded(fields);
    FilterCongruent(AgentOrder, a => a in needed, a => a in NeededFor(fields));
    thrown := RunPartialPipeline(store, log, agents, needed, now);
  }

  /** The agents `regenerateFields` runs for the names of some fields are the agents
      `getAgentsToRun` picks for those fields. */
  lemma NeededForFieldNames(fs: seq<Field>)
    ensures NeededFor(FieldNames(fs)) == NeededAgents(fs)
  {
    forall a ensures a in NeededFor(FieldNames(fs)) <==> a in NeededAgents(fs) {
      assert AgentOrder[PipelineIndex(a)] == a;
      if a in NeededFor(FieldNames(fs)) {
        var i :| 0 <= i < |fs| && FieldNames(fs)[i] in FieldNames(AgentOutputs(a));
        var k :| 0 <= k < |AgentOutputs(a)| && FieldNames(AgentOutputs(a))[k] == FieldName(fs[i]);
        FieldNameInjective(AgentOutputs(a)[k], fs[i]);
        ProducerIff(fs[i], a);
      }
      if a in NeededAgents(fs) {
        var i :| 0 <= i < |fs| && Producer(fs[i]).Some? && Producer(fs[i]).value == a;
        ProducerIff(fs[i], a);
        var k :| 0 <= k < |AgentOutputs(a)| && AgentOutputs(a)[k] == fs[i];
        assert FieldNames(AgentOutputs(a))[k] == FieldNames(fs)[i];
      }
    }
  }

  // ------------------------------------------------------------------
  // What a partial run does to field_versions
  // ------------------------------------------------------------------

  predicate IsStale(rows: seq<FieldVersion>, n: string) {
    Row(rows, n).Some? && Row(rows, n).value.isStale
  }

  predicate NotStale(rows: seq<FieldVersion>, n: string) {
    Row(rows, n).Some? && !Row(rows, n).value.isStale
  }

  lemma OutputsNoDup(a: Agent)
    ensures NoDup(FieldNames(AgentOutputs(a)))
  {
    assert NoDup(AgentOutputs(a));
    FieldNamesNoDup(AgentOutputs(a));
  }

  /** After an agent returned, each of its output fields is not stale, has no reason
      and no `stale_since`, is one version up, was updated `now` and carries the
      hash of its value when that value is truthy and no hash otherwise; every other
      row is unchanged. */
  lemma SucceedRow(now: Timestamp, v: int, p: Progress, a: Agent, result: seq<Member>, n: string)
    requires |p.db.runs| > 0
    ensures var r := Row(Succeed(Partial, now, v, p, a, result).db.versions, n);
      if n in FieldNames(AgentOutputs(a)) then
        r.Some? && !r.value.isStale && r.value.staleReason.None? && r.value.staleSince.None? &&
        r.value.version == Base(p.db.versions, n, v).version + 1 && r.value.updatedAt == Some(now) &&
        r.value.contentHash == (if Truthy(Get(result, n)) then Some(Hash(Get(result, n))) else None)
      else r == Row(p.db.versions, n)
  {
    var names := FieldNames(AgentOutputs(a));
    OutputsNoDup(a);
    ClearedRow(p.db.versions, names, Some(NewHashes(AgentOutputs(a), result)), now, v, n);
  }

  /** After an agent returned, the business's `stale_fields` names exactly the stale
      rows, and field names stay unique. */
  lemma SucceedStaleList(now: Timestamp, v: int, p: Progress, a: Agent, result: seq<Member>, n: string)
    requires |p.db.runs| > 0 && UniqueNames(p.db.versions) && p.db.business.Some?
    ensures var q := Succeed(Partial, now, v, p, a, result);
      UniqueNames(q.db.versions) && q.db.business.Some? &&
      (n in q.db.business.value.staleFields <==> IsStale(q.db.versions, n))
  {
    var names := FieldNames(AgentOutputs(a));
    var hashes := Some(NewHashes(AgentOutputs(a), result));
    ClearedStaleList(p.db.versions, names, now, v, n);
    SucceedRow(now, v, p, a, result, n);
    UpsertAllKeepsUnique(p.db.versions, names, ClearStale(now), v);
    BumpAllKeepsUnique(UpsertAll(p.db.versions, names, ClearStale(now), v), names, hashes, v);
  }

  /** One agent of the partial loop never makes a row stale, keeps rows that are not
      stale so, and, when it returns, clears its outputs and leaves `stale_fields`
      agreeing with the rows. */
  lemma StepRows(agents: (Agent, AgentContext) -> AgentReply, b0: Business, now: Timestamp, v: int,
                 p: Progress, a: Agent, n: string)
    requires p.failure.None? && UniqueNames(p.db.versions) && p.db.business.Some?
    ensures var q := Step(Partial, agents, b0, now, v, p, a);
      UniqueNames(q.db.versions) && q.db.business.Some? &&
      (IsStale(q.db.versions, n) ==> IsStale(p.db.versions, n)) &&
      (NotStale(p.db.versions, n) ==> NotStale(q.db.versions, n)) &&
      (q.failure.None? ==> (n in FieldNames(AgentOutputs(a)) ==> NotStale(q.db.versions, n))) &&
      (q.failure.None? ==> (n in q.db.business.value.staleFields <==> IsStale(q.db.versions, n)))
  {
    var q := Begin(Partial, b0, p, a);
    var reply := agents(a, AgentContext(b0, p.outputs));
    var r := q.(events := q.events + NoteEvents(a, reply.notes));
    if reply.outcome.Returned? {
      SucceedRow(now, v, r, a, reply.outcome.result, n);
      SucceedStaleList(now, v, r, a, reply.outcome.result, n);
    }
  }

  lemma {:induction false} StepsRows(agents: (Agent, AgentContext) -> AgentReply, b0: Business, now: Timestamp,
                                     v: int, p: Progress, order: seq<Agent>, n: string)
    requires p.failure.None? && UniqueNames(p.db.versions) && p.db.business.Some?
    ensures var q := Steps(Partial, agents, b0, now, v, p, order);
      UniqueNames(q.db.versions) && q.db.business.Some? &&
      (IsStale(q.db.versions, n) ==> IsStale(p.db.versions, n)) &&
      (q.failure.None? ==> forall a | a in order && n in FieldNames(AgentOutputs(a)) :: NotStale(q.db.versions, n)) &&
      (q.failure.None? && |order| > 0 ==> (n in q.db.business.value.staleFields <==> IsStale(q.db.versions, n)))
    decreases |order|
  {
    if |order| > 0 {
      var init := order[..|order| - 1];
      var a := order[|order| - 1];
      StepsRows(agents, b0, now, v, p, init, n);
      var q0 := Steps(Partial, agents, b0, now, v, p, init);
      if q0.failure.None? {
        StepRows(agents, b0, now, v, q0, a, n);
        assert forall x | x in order :: x in init || x == a;
      } else {
        StepsStuck(Partial, agents, b0, now, v, p, order, |init|);
        assert order[..|init|] == init;
      }
    }
  }

  /** A partial run never makes a field stale.  When no agent threw, every output
      field of every agent run is no longer stale, and the business's `stale_fields`
      names exactly the stale rows. */
  lemma RunRows(agents: (Agent, AgentContext) -> AgentReply, db0: Db, events0: seq<Event>, order: seq<Agent>,
                now: Timestamp, v: int, n: string)
    requires UniqueNames(db0.versions)
    ensures var r := Run(Partial, agents, db0, events0, order, now, v);
      (IsStale(r.db.versions, n) ==> IsStale(db0.versions, n)) &&
      (r.failure.None? ==> forall a | a in order && n in FieldNames(AgentOutputs(a)) :: NotStale(r.db.versions, n)) &&
      (r.failure.None? && |order| > 0 ==>
        r.db.business.Some? && (n in r.db.business.value.staleFields <==> IsStale(r.db.versions, n)))
  {
    if db0.business.Some? {
      var b0 := db0.business.value;
      var p0 := Progress(db0.(business := WithStatus(db0.business, Running)), events0, Seed(b0), None);
      StepsRows(agents, b0, now, v, p0, order, n);
    }
  }
}
