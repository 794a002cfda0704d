/** The full pipeline of src/lib/agents/orchestrator.ts: every agent of `AGENTS` in
    turn, on the rows of one business. */
module Orchestrator {
  import opened Collections
  import opened JsonValues
  import opened Graph
  import opened Store
  import opened Pipeline

  /** What an iteration does once the agent returned (orchestrator.ts:127-165). */
  method CompleteAgent(store: Store, log: EventLog, now: Timestamp, outputs: map<Field, Json>, a: Agent,
                       result: seq<Member>)
    returns (newOutputs: map<Field, Json>)
    requires |store.runs| > 0
    modifies store, log
    ensures Progress(store.Snapshot(), log.events, newOutputs, None) ==
      Succeed(Full, now, store.initialVersion, Progress(old(store.Snapshot()), old(log.events), outputs, None), a, result)
  {
    var fields := DeclaredOutputs(a);
    newOutputs := KeepDefined(fields, Lookup(result), outputs);
    var updateData := KeepDefined(fields, Lookup(result), map[]);
    EmptyUnion(DefinedBy(fields, Lookup(result)));
    store.business := WithColumns(store.business, updateData);
    store.runs := UpdateLast(store.runs, RunCompleted, now, Some(result), None);
    log.Emit(Event(AgentComplete, Some(a), Some(DoneMessage(Full, a)), Some(Obj(result)), None));
  }

  /** One iteration of the loop of `runAgentPipeline` (orchestrator.ts:93-187). */
  method RunAgent(store: Store, log: EventLog, agents: (Agent, AgentContext) -> AgentReply, b0: Business,
                  now: Timestamp, outputs: map<Field, Json>, a: Agent)
    returns (newOutputs: map<Field, Json>, failure: Option<Thrown>)
    modifies store, log
    ensures Progress(store.Snapshot(), log.events, newOutputs, failure) ==
      Step(Full, agents, b0, now, store.initialVersion,
           Progress(old(store.Snapshot()), old(log.events), outputs, None), a)
  {
    StartAgent(store, log, Full, b0, outputs, a);
    var reply := agents(a, AgentContext(b0, outputs));
    log.EmitAll(NoteEvents(a, reply.notes));
    match reply.outcome {
      case Returned(result) =>
        newOutputs := CompleteAgent(store, log, now, outputs, a, result);
        failure := None;
      case Threw(e) =>
        FailAgent(store, log, now, outputs, a, e);
        newOutputs := outputs;
        failure := Some(e);
    }
  }

  /** The agent loop of `runAgentPipeline` (orchestrator.ts:93-188), which stops at
      the first agent that throws. */
  method RunAgents(store: Store, log: EventLog, agents: (Agent, AgentContext) -> AgentReply, b0: Business,
                   now: Timestamp, order: seq<Agent>)
    returns (outputs: map<Field, Json>, failure: Option<Thrown>)
    modifies store, log
    ensures Progress(store.Snapshot(), log.events, outputs, failure) ==
      Steps(Full, agents, b0, now, store.initialVersion, Progress(old(store.Snapshot()), old(log.events), map[], None), order)
  {
    outputs := map[];
    failure := None;
    ghost var p0 := Progress(store.Snapshot(), log.events, outputs, None);
    var i := 0;
    while i < |order| && failure.None?
      invariant 0 <= i <= |order|
      invariant Progress(store.Snapshot(), log.events, outputs, failure) ==
        Steps(Full, agents, b0, now, store.initialVersion, p0, order[..i])
    {
      assert order[..i + 1][..i] == order[..i];
      outputs, failure := RunAgent(store, log, agents, b0, now, outputs, order[i]);
      i := i + 1;
    }
    if failure.Some? {
      StepsStuck(Full, agents, b0, now, store.initialVersion, p0, order, i);
    } else {
      assert order[..i] == order;
    }
  }

  /** `runAgentPipeline` (orchestrator.ts:68-222) over the agents of `AGENTS`; what it
      rethrows is returned. */
  method RunAgentPipeline(store: Store, log: EventLog, agents: (Agent, AgentContext) -> AgentReply, now: Timestamp)
    returns (thrown: Option<Thrown>)
    modifies store, log
    ensures var r := Run(Full, agents, old(store.Snapshot()), old(log.events), AgentOrder, now, store.initialVersion);
      store.Snapshot() == r.db && log.events == r.events && thrown == r.failure
  {
    var outputs: map<Field, Json> := map[];
    if store.business.None? {
      thrown := Some(NotFound);
    } else {
      var b0 := store.business.value;
      store.business := WithStatus(store.business, Running);
      outputs, thrown := RunAgents(store, log, agents, b0, now, AgentOrder);
    }
    FinishRun(store, log, Full, outputs, thrown);
  }

  // ------------------------------------------------------------------
  // What a full run writes
  // ------------------------------------------------------------------

  /** The full pipeline writes no `field_versions` row. */
  lemma {:induction false} StepsKeepVersions(agents: (Agent, AgentContext) -> AgentReply, b0: Business, now: Timestamp,
                                             v: int, p: Progress, order: seq<Agent>)
    ensures Steps(Full, agents, b0, now, v, p, order).db.versions == p.db.versions
    decreases |order|
  {
    if |order| > 0 {
      StepsKeepVersions(agents, b0, now, v, p, order[..|order| - 1]);
    }
  }

  lemma RunKeepsVersions(agents: (Agent, AgentContext) -> AgentReply, db0: Db, events0: seq<Event>,
                         order: seq<Agent>, now: Timestamp, v: int)
    ensures Run(Full, agents, db0, events0, order, now, v).db.versions == db0.versions
  {
    if db0.business.Some? {
      var b0 := db0.business.value;
      StepsKeepVersions(agents, b0, now, v, Progress(db0.(business := WithStatus(db0.business, Running)), events0,
                        map[], None), order);
    }
  }

  /** A field is in the accumulator only if it was there before or one of the agents
      run declares it in its `outputFields`. */
  lemma {:induction false} StepsOutputKeys(agents: (Agent, AgentContext) -> AgentReply, b0: Business,
                                           now: Timestamp, v: int, p: Progress, order: seq<Agent>, f: Field)
    requires f in Steps(Full, agents, b0, now, v, p, order).outputs
    ensures f in p.outputs || exists i | 0 <= i < |order| :: f in DeclaredOutputs(order[i])
    decreases |order|
  {
    if |order| > 0 {
      var init := order[..|order| - 1];
      var q0 := Steps(Full, agents, b0, now, v, p, init);
      if f in q0.outputs {
        StepsOutputKeys(agents, b0, now, v, p, init, f);
        if !(f in p.outputs) {
          var i :| 0 <= i < |init| && f in DeclaredOutputs(init[i]);
          assert order[i] == init[i];
        }
      } else {
        assert f in DeclaredOutputs(order[|order| - 1]);
      }
    }
  }

  /** A field no agent of the loop declares keeps its absence from the outputs. */
  lemma {:induction false} StepsKeepUndeclared(agents: (Agent, AgentContext) -> AgentReply, b0: Business,
                                               now: Timestamp, v: int, p: Progress, order: seq<Agent>, f: Field)
    requires f !in p.outputs && forall i | 0 <= i < |order| :: f !in DeclaredOutputs(order[i])
    ensures f !in Steps(Full, agents, b0, now, v, p, order).outputs
    decreases |order|
  {
    if |order| > 0 {
      var init := order[..|order| - 1];
      StepsKeepUndeclared(agents, b0, now, v, p, init, f);
      assert f !in DeclaredOutputs(order[|order| - 1]);
    }
  }

  /** The input each agent run row records holds only outputs of the agents before
      it. */
  predicate EarlierOutputs(before: seq<AgentRun>, runs: seq<AgentRun>, order: seq<Agent>) {
    |before| <= |runs| &&
    forall i, f | |before| <= i < |runs| && f in runs[i].input.previousOutputs ::
      exists j | 0 <= j < i - |before| && j < |order| :: f in DeclaredOutputs(order[j])
  }

  lemma {:induction false} StepsInputs(agents: (Agent, AgentContext) -> AgentReply, b0: Business, now: Timestamp,
                                       v: int, p: Progress, order: seq<Agent>)
    requires p.failure.None? && p.outputs == map[]
    ensures EarlierOutputs(p.db.runs, Steps(Full, agents, b0, now, v, p, order).db.runs, order)
    decreases |order|
  {
    if |order| > 0 {
      var init := order[..|order| - 1];
      var a := order[|order| - 1];
      StepsInputs(agents, b0, now, v, p, init);
      StepsInputsSnoc(agents, b0, now, v, p, init, a);
      assert init + [a] == order;
    }
  }

  lemma StepsInputsSnoc(agents: (Agent, AgentContext) -> AgentReply, b0: Business, now: Timestamp,
                        v: int, p: Progress, init: seq<Agent>, a: Agent)
    requires p.failure.None? && p.outputs == map[]
    requires EarlierOutputs(p.db.runs, Steps(Full, agents, b0, now, v, p, init).db.runs, init)
    ensures EarlierOutputs(p.db.runs, Steps(Full, agents, b0, now, v, p, init + [a]).db.runs, init + [a])
  {
    var q0 := Steps(Full, agents, b0, now, v, p, init);
    StepsRuns(Full, agents, b0, now, v, p, init);
    OutputsDeclared(agents, b0, now, v, p, init);
    StepKeepsEarlierOutputs(agents, b0, now, v, p.db.runs, q0, init, a);
    assert (init + [a])[..|init + [a]| - 1] == init;
  }

  /** Starting from no outputs, every output of the loop is declared by one of its agents. */
  lemma OutputsDeclared(agents: (Agent, AgentContext) -> AgentReply, b0: Business, now: Timestamp,
                        v: int, p: Progress, order: seq<Agent>)
    requires p.outputs == map[]
    ensures forall f | f in Steps(Full, agents, b0, now, v, p, order).outputs ::
      exists j | 0 <= j < |order| :: f in DeclaredOutputs(order[j])
  {
    forall f | f in Steps(Full, agents, b0, now, v, p, order).outputs
      ensures exists j | 0 <= j < |order| :: f in DeclaredOutputs(order[j])
    {
      StepsOutputKeys(agents, b0, now, v, p, order, f);
    }
  }

  /** One step of the loop keeps the run rows' inputs to earlier outputs. */
  lemma StepKeepsEarlierOutputs(agents: (Agent, AgentContext) -> AgentReply, b0: Business, now: Timestamp,
                                v: int, before: seq<AgentRun>, q0: Progress, init: seq<Agent>, a: Agent)
    requires EarlierOutputs(before, q0.db.runs, init)
    requires q0.failure.None? ==> |q0.db.runs| == |before| + |init|
    requires q0.failure.None? ==>
      forall f | f in q0.outputs :: exists j | 0 <= j < |init| :: f in DeclaredOutputs(init[j])
    ensures EarlierOutputs(before, Step(Full, agents, b0, now, v, q0, a).db.runs, init + [a])
  {
    if q0.failure.None? {
      StepRuns(Full, agents, b0, now, v, q0, a);
      var q := Step(Full, agents, b0, now, v, q0, a);
      NewRowInputs(before, q0.db.runs, q.db.runs, q0.outputs, init, a);
    } else {
      EarlierOutputsWiden(before, q0.db.runs, init, a);
    }
  }

  lemma NewRowInputs(before: seq<AgentRun>, runs0: seq<AgentRun>, runs: seq<AgentRun>, outputs: map<Field, Json>,
                     init: seq<Agent>, a: Agent)
    requires EarlierOutputs(before, runs0, init) && |runs0| == |before| + |init|
    requires |runs| == |runs0| + 1 && runs[..|runs0|] == runs0
    requires runs[|runs0|].input.previousOutputs == outputs
    requires forall f | f in outputs :: exists j | 0 <= j < |init| :: f in DeclaredOutputs(init[j])
    ensures EarlierOutputs(before, runs, init + [a])
  {
    forall i, f | |before| <= i < |runs| && f in runs[i].input.previousOutputs
      ensures exists j | 0 <= j < i - |before| && j < |init + [a]| :: f in DeclaredOutputs((init + [a])[j])
    {
      if i < |runs0| {
        assert runs[i] == runs0[i];
        var j :| 0 <= j < i - |before| && j < |init| && f in DeclaredOutputs(init[j]);
        assert (init + [a])[j] == init[j];
      } else {
        var j :| 0 <= j < |init| && f in DeclaredOutputs(init[j]);
        assert (init + [a])[j] == init[j];
      }
    }
  }

  lemma EarlierOutputsWiden(before: seq<AgentRun>, runs: seq<AgentRun>, init: seq<Agent>, a: Agent)
    requires EarlierOutputs(before, runs, init)
    ensures EarlierOutputs(before, runs, init + [a])
  {
    forall i, f | |before| <= i < |runs| && f in runs[i].input.previousOutputs
      ensures exists j | 0 <= j < i - |before| && j < |init + [a]| :: f in DeclaredOutputs((init + [a])[j])
    {
      var j :| 0 <= j < i - |before| && j < |init| && f in DeclaredOutputs(init[j]);
      assert (init + [a])[j] == init[j];
    }
  }

  /** In a full run each agent run row records only the outputs of the agents before
      it, and the website code, which no agent declares, keeps its value. */
  lemma RunOutputs(agents: (Agent, AgentContext) -> AgentReply, db0: Db, events0: seq<Event>, now: Timestamp, v: int)
    requires db0.business.Some?
    ensures var r := Run(Full, agents, db0, events0, AgentOrder, now, v);
      EarlierOutputs(db0.runs, r.db.runs, AgentOrder) &&
      r.db.business.Some? && Column(r.db.business.value, WebsiteCode) == Column(db0.business.value, WebsiteCode)
  {
    var b0 := db0.business.value;
    var p0 := Progress(db0.(business := WithStatus(db0.business, Running)), events0, map[], None);
    StepsInputs(agents, b0, now, v, p0, AgentOrder);
    RunBusiness(Full, agents, db0, events0, AgentOrder, now, v);
    var r := Run(Full, agents, db0, events0, AgentOrder, now, v);
    StepsKeepUndeclared(agents, b0, now, v, p0, AgentOrder, WebsiteCode);
  }
}
