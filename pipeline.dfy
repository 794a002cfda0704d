/** What the full pipeline (src/lib/agents/orchestrator.ts) and the partial pipeline
    (src/lib/agents/partial-orchestrator.ts) do, stated once as a function of the
    store, the event log and the agents' replies.  Both run a list of agents in
    order: each one is announced, recorded as running, called, and its defined
    outputs are kept and persisted; the first agent that throws ends the run.  The
    two differ in their messages, in the output fields of the architect, in what an
    agent run row records as input, in the seeded accumulator and in the partial
    pipeline's clearing of staleness after each agent. */
module Pipeline {
  import opened Collections
  import opened JsonValues
  import opened Graph
  import opened ChangeDetector
  import opened Store
  import opened Staleness

  // ------------------------------------------------------------------
  // Agents, as the orchestrators see them
  // ------------------------------------------------------------------

  /** What an agent throws: an `Error` with its message, or any other value. */
  datatype Thrown = ErrorWithMessage(message: string) | NonError

  /** `error instanceof Error ? error.message : fallback`. */
  function ErrorText(t: Thrown, fallback: string): string {
    if t.ErrorWithMessage? then t.message else fallback
  }

  /** An `agent_progress` event an agent emits while it works. */
  datatype ProgressNote = ProgressNote(message: string, progress: int)

  datatype Outcome = Returned(result: seq<Member>) | Threw(error: Thrown)

  /** What one call of an agent does: the progress it reports, then its result or
      the value it throws. */
  datatype AgentReply = AgentReply(notes: seq<ProgressNote>, outcome: Outcome)

  /** The `ctx` an agent is called with (its `emit` is the pipeline's). */
  datatype AgentContext = AgentContext(business: Business, previousOutputs: map<Field, Json>)

  datatype Mode = Full | Partial

  /** `displayName` of `AGENTS` (orchestrator.ts:23-66), equal to
      `AGENT_DISPLAY_NAMES` (partial-orchestrator.ts:54-60). */
  function DisplayName(a: Agent): string {
    match a
    case Scout => "Scout"
    case Strategist => "Strategist"
    case Artist => "Artist"
    case Architect => "Architect"
    case Connector => "Connector"
  }

  /** `outputFields` of `AGENTS`: unlike `AGENT_OUTPUTS`, the architect declares only
      the website structure. */
  function DeclaredOutputs(a: Agent): seq<Field> {
    match a
    case Scout => [MarketResearch]
    case Strategist => [BusinessName, Tagline, BusinessCanvas]
    case Artist => [BrandColors, BrandVoice, LogoUrl]
    case Architect => [WebsiteStructure]
    case Connector => [CustomerJourney, AutomationFlows]
  }

  /** The fields a pipeline takes from an agent's result. */
  function OutputFields(mode: Mode, a: Agent): seq<Field> {
    if mode.Full? then DeclaredOutputs(a) else AgentOutputs(a)
  }

  function StartMessage(mode: Mode, a: Agent): string {
    DisplayName(a) + if mode.Full? then " is starting..." else " is regenerating..."
  }

  function DoneMessage(mode: Mode, a: Agent): string {
    DisplayName(a) + if mode.Full? then " completed!" else " regenerated!"
  }

  function FinalMessage(mode: Mode): string {
    if mode.Full? then "All agents completed successfully!" else "Partial regeneration completed!"
  }

  function FailureFallback(mode: Mode): string {
    if mode.Full? then "Generation failed" else "Regeneration failed"
  }

  /** The `input` of an agent run row. */
  function RunInputOf(mode: Mode, prompt: string, outputs: map<Field, Json>): RunInput {
    if mode.Full? then FullInput(prompt, outputs) else PartialInput(outputs)
  }

  /** The events `emit` receives from an agent's progress notes. */
  function NoteEvents(a: Agent, notes: seq<ProgressNote>): (r: seq<Event>)
    ensures |r| == |notes|
    ensures forall i | 0 <= i < |notes| ::
      r[i] == Event(AgentProgress, Some(a), Some(notes[i].message), None, Some(notes[i].progress))
  {
    if |notes| == 0 then []
    else
      NoteEvents(a, notes[..|notes| - 1]) +
        [Event(AgentProgress, Some(a), Some(notes[|notes| - 1].message), None, Some(notes[|notes| - 1].progress))]
  }

  // ------------------------------------------------------------------
  // Writing outputs
  // ------------------------------------------------------------------

  /** The value of each field in an agent's result (`result[field]`). */
  function Lookup(result: seq<Member>): Field -> Json {
    f => Get(result, FieldName(f))
  }

  /** The fields with a value that is not `undefined`, with those values. */
  function DefinedBy(fields: seq<Field>, look: Field -> Json): map<Field, Json> {
    map f | f in fields && !look(f).Undefined? :: look(f)
  }

  /** The output fields whose result value is not `undefined`, with those values. */
  function Defined(fields: seq<Field>, result: seq<Member>): map<Field, Json> {
    DefinedBy(fields, Lookup(result))
  }

  /** The hash of every listed name whose value is truthy. */
  function HashesBy(names: seq<string>, look: string -> Json): map<string, ContentHash> {
    map n | n in names && Truthy(look(n)) :: Hash(look(n))
  }

  /** The `newHashes` record: the hash of every output field with a truthy value. */
  function NewHashes(fields: seq<Field>, result: seq<Member>): map<string, ContentHash> {
    HashesBy(FieldNames(fields), n => Get(result, n))
  }

  /** The loop that copies every output field whose value is not `undefined` into a
      record, used for both `outputs` and `updateData`. */
  method KeepDefined(fields: seq<Field>, look: Field -> Json, into: map<Field, Json>) returns (r: map<Field, Json>)
    ensures r == into + DefinedBy(fields, look)
  {
    r := into;
    for i := 0 to |fields|
      invariant r == into + DefinedBy(fields[..i], look)
    {
      var f := fields[i];
      assert fields[..i + 1] == fields[..i] + [f];
      DefinedSnoc(fields[..i], f, look, into);
      var v := look(f);
      if !v.Undefined? {
        r := r[f := v];
      }
    }
    assert fields[..|fields|] == fields;
  }

  lemma EmptyUnion(m: map<Field, Json>)
    ensures map[] + m == m
  {
  }

  /** One more output field, on top of any record. */
  lemma DefinedSnoc(fields: seq<Field>, f: Field, look: Field -> Json, into: map<Field, Json>)
    ensures into + DefinedBy(fields + [f], look) ==
      if look(f).Undefined? then into + DefinedBy(fields, look) else (into + DefinedBy(fields, look))[f := look(f)]
  {
    assert forall g :: g in fields + [f] <==> g in fields || g == f;
  }

  /** The loop that fills `newHashes`. */
  method CollectHashes(names: seq<string>, look: string -> Json) returns (r: map<string, ContentHash>)
    ensures r == HashesBy(names, look)
  {
    r := map[];
    for i := 0 to |names|
      invariant r == HashesBy(names[..i], look)
    {
      var n := names[i];
      assert names[..i + 1] == names[..i] + [n];
      HashesSnoc(names[..i], n, look);
      var v := look(n);
      if Truthy(v) {
        r := r[n := Hash(v)];
      }
    }
    assert names[..|names|] == names;
  }

  lemma HashesSnoc(names: seq<string>, n: string, look: string -> Json)
    ensures HashesBy(names + [n], look) ==
      if Truthy(look(n)) then HashesBy(names, look)[n := Hash(look(n))] else HashesBy(names, look)
  {
    assert forall g :: g in names + [n] <==> g in names || g == n;
  }

  // ------------------------------------------------------------------
  // The businesses and agent_runs rows
  // ------------------------------------------------------------------

  /** `update({ current_agent })`. */
  function WithCurrentAgent(b: Option<Business>, a: Option<Agent>): Option<Business> {
    if b.Some? then Some(b.value.(currentAgent := a)) else None
  }

  /** `update({ status: 'running' })`. */
  function WithStatus(b: Option<Business>, s: Status): Option<Business> {
    if b.Some? then Some(b.value.(status := s)) else None
  }

  /** `update({ status, current_agent: null })`, which ends every run. */
  function Terminated(b: Option<Business>, s: Status): Option<Business> {
    if b.Some? then Some(b.value.(status := s, currentAgent := None)) else None
  }

  /** `update(updateData)`. */
  function WithColumns(b: Option<Business>, updates: map<Field, Json>): Option<Business> {
    if b.Some? then Some(b.value.(columns := b.value.columns + updates)) else None
  }

  /** The update of the run row just inserted, which is the last one. */
  function UpdateLast(runs: seq<AgentRun>, status: RunStatus, now: Timestamp,
                      output: Option<seq<Member>>, error: Option<string>): seq<AgentRun>
  {
    if |runs| == 0 then runs
    else runs[|runs| - 1 := runs[|runs| - 1].(status := status, completedAt := Some(now), output := output, error := error)]
  }

  // ------------------------------------------------------------------
  // One run, step by step
  // ------------------------------------------------------------------

  /** The state of a run: the rows, every event emitted so far, the `outputs`
      accumulator, and what the run has thrown, if anything. */
  datatype Progress = Progress(db: Db, events: seq<Event>, outputs: map<Field, Json>, failure: Option<Thrown>)

  /** The announcement, the `current_agent` update and the new run row. */
  function Begin(mode: Mode, b0: Business, p: Progress, a: Agent): Progress {
    var run := AgentRun(a, RunInputOf(mode, b0.prompt, p.outputs), RunRunning, None, None, None);
    p.(events := p.events + [Event(AgentStart, Some(a), Some(StartMessage(mode, a)), None, None)],
       db := p.db.(business := WithCurrentAgent(p.db.business, Some(a)), runs := p.db.runs + [run]))
  }

  /** The partial pipeline's `clearStaleness(outputFields, newHashes)`. */
  function ClearDb(db: Db, names: seq<string>, hashes: map<string, ContentHash>, now: Timestamp, v: int): Db {
    db.(versions := ClearedRows(db.versions, names, Some(hashes), now, v),
        business := WithStaleFields(db.business, StaleNames(UpsertAll(db.versions, names, ClearStale(now), v))))
  }

  /** An agent that returned: its defined outputs join the accumulator and the row,
      the partial pipeline clears their staleness, the run row is completed and the
      completion is announced with the result. */
  function Succeed(mode: Mode, now: Timestamp, v: int, p: Progress, a: Agent, result: seq<Member>): Progress
    requires |p.db.runs| > 0
  {
    var fields := OutputFields(mode, a);
    var updates := Defined(fields, result);
    var db1 := p.db.(business := WithColumns(p.db.business, updates));
    var db2 := if mode.Partial? then ClearDb(db1, FieldNames(fields), NewHashes(fields, result), now, v) else db1;
    Progress(
      db2.(runs := UpdateLast(db2.runs, RunCompleted, now, Some(result), None)),
      p.events + [Event(AgentComplete, Some(a), Some(DoneMessage(mode, a)), Some(Obj(result)), None)],
      p.outputs + updates,
      None)
  }

  /** An agent that threw: its run row fails with the message and an error tagged
      with the agent is emitted. */
  function Fail(now: Timestamp, p: Progress, a: Agent, e: Thrown): Progress {
    p.(db := p.db.(runs := UpdateLast(p.db.runs, RunFailed, now, None, Some(ErrorText(e, "Unknown error")))),
       events := p.events + [Event(AgentError, Some(a), Some(ErrorText(e, "Agent failed")), None, None)],
       failure := Some(e))
  }

  /** The steps of an iteration that come before the agent is called. */
  method StartAgent(store: Store, log: EventLog, mode: Mode, b0: Business, outputs: map<Field, Json>, a: Agent)
    modifies store, log
    ensures Progress(store.Snapshot(), log.events, outputs, None) ==
      Begin(mode, b0, Progress(old(store.Snapshot()), old(log.events), outputs, None), a)
  {
    log.Emit(Event(AgentStart, Some(a), Some(StartMessage(mode, a)), None, None));
    store.business := WithCurrentAgent(store.business, Some(a));
    store.runs := store.runs + [AgentRun(a, RunInputOf(mode, b0.prompt, outputs), RunRunning, None, None, None)];
  }

  /** The `catch` of an iteration: the run row fails and the error is emitted. */
  method FailAgent(store: Store, log: EventLog, now: Timestamp, outputs: map<Field, Json>, a: Agent, e: Thrown)
    modifies store, log
    ensures Progress(store.Snapshot(), log.events, outputs, Some(e)) ==
      Fail(now, Progress(old(store.Snapshot()), old(log.events), outputs, None), a, e)
  {
    store.runs := UpdateLast(store.runs, RunFailed, now, None, Some(ErrorText(e, "Unknown error")));
    log.Emit(Event(AgentError, Some(a), Some(ErrorText(e, "Agent failed")), None, None));
  }

  /** One iteration of the agent loop; after a failure nothing more happens. */
  function Step(mode: Mode, agents: (Agent, AgentContext) -> AgentReply, b0: Business, now: Timestamp, v: int,
                p: Progress, a: Agent): Progress
  {
    if p.failure.Some? then p
    else
      var q := Begin(mode, b0, p, a);
      var reply := agents(a, AgentContext(b0, p.outputs));
      var r := q.(events := q.events + NoteEvents(a, reply.notes));
      match reply.outcome
      case Returned(result) => Succeed(mode, now, v, r, a, result)
      case Threw(e) => Fail(now, r, a, e)
  }

  /** The agent loop over `order`. */
  function Steps(mode: Mode, agents: (Agent, AgentContext) -> AgentReply, b0: Business, now: Timestamp, v: int,
                 p: Progress, order: seq<Agent>): Progress
  {
    if |order| == 0 then p
    else Step(mode, agents, b0, now, v, Steps(mode, agents, b0, now, v, p, order[..|order| - 1]), order[|order| - 1])
  }

  /** The end of every run: `completed` and `generation_complete`, or `failed` and an
      error without an agent. */
  function Finish(mode: Mode, p: Progress): Progress {
    if p.failure.None? then
      p.(db := p.db.(business := Terminated(p.db.business, Completed)),
         events := p.events + [Event(GenerationComplete, None, Some(FinalMessage(mode)), None, None)])
    else
      p.(db := p.db.(business := Terminated(p.db.business, Failed)),
         events := p.events + [Event(AgentError, None, Some(ErrorText(p.failure.value, FailureFallback(mode))), None, None)])
  }

  /** The end of a run, the last statements of the `try` or those of the outer
      `catch`. */
  method FinishRun(store: Store, log: EventLog, mode: Mode, outputs: map<Field, Json>, failure: Option<Thrown>)
    modifies store, log
    ensures var r := Finish(mode, Progress(old(store.Snapshot()), old(log.events), outputs, failure));
      store.Snapshot() == r.db && log.events == r.events
  {
    if failure.None? {
      store.business := Terminated(store.business, Completed);
      log.Emit(Event(GenerationComplete, None, Some(FinalMessage(mode)), None, None));
    } else {
      store.business := Terminated(store.business, Failed);
      log.Emit(Event(AgentError, None, Some(ErrorText(failure.value, FailureFallback(mode))), None, None));
    }
  }

  /** The partial pipeline's accumulator before any agent: every generated column. */
  function Seed(b: Business): (m: map<Field, Json>)
    ensures forall f :: f in m <==> f in GeneratedFields
    ensures forall f | f in m :: m[f] == Column(b, f)
  {
    map f | f in GeneratedFields :: Column(b, f)
  }

  function InitialOutputs(mode: Mode, b: Business): map<Field, Json> {
    if mode.Full? then map[] else Seed(b)
  }

  const NotFound := ErrorWithMessage("Business not found")

  /** A whole run: the lookup of the business, the `running` status, the loop and
      the end. */
  function Run(mode: Mode, agents: (Agent, AgentContext) -> AgentReply, db0: Db, events0: seq<Event>,
               order: seq<Agent>, now: Timestamp, v: int): Progress
  {
    match db0.business
    case None => Finish(mode, Progress(db0, events0, map[], Some(NotFound)))
    case Some(b0) =>
      var p0 := Progress(db0.(business := WithStatus(db0.business, Running)), events0, InitialOutputs(mode, b0), None);
      Finish(mode, Steps(mode, agents, b0, now, v, p0, order))
  }

  /** Once a run has failed, the remaining agents change nothing. */
  lemma {:induction false} StepsStuck(mode: Mode, agents: (Agent, AgentContext) -> AgentReply, b0: Business,
                                      now: Timestamp, v: int, p: Progress, order: seq<Agent>, k: int)
    requires 0 <= k <= |order|
    requires Steps(mode, agents, b0, now, v, p, order[..k]).failure.Some?
    ensures Steps(mode, agents, b0, now, v, p, order) == Steps(mode, agents, b0, now, v, p, order[..k])
    decreases |order|
  {
    if k < |order| {
      var init := order[..|order| - 1];
      assert init[..k] == order[..k];
      StepsStuck(mode, agents, b0, now, v, p, init, k);
    } else {
      assert order[..k] == order;
    }
  }

  // ------------------------------------------------------------------
  // The agent_runs rows
  // ------------------------------------------------------------------

  /** An agent that is reached gets exactly one run row: it names the agent and the
      accumulator it was given, is closed at `now`, and is completed with the result
      or failed with the error's message. */
  lemma StepRuns(mode: Mode, agents: (Agent, AgentContext) -> AgentReply, b0: Business, now: Timestamp, v: int,
                 p: Progress, a: Agent)
    requires p.failure.None?
    ensures var q := Step(mode, agents, b0, now, v, p, a);
      var out := agents(a, AgentContext(b0, p.outputs)).outcome;
      var n := |p.db.runs|;
      |q.db.runs| == n + 1 && q.db.runs[..n] == p.db.runs &&
      q.db.runs[n].agent == a && q.db.runs[n].input == RunInputOf(mode, b0.prompt, p.outputs) &&
      q.db.runs[n].completedAt == Some(now) &&
      q.failure == (if out.Threw? then Some(out.error) else None) &&
      q.db.runs[n].status == (if out.Returned? then RunCompleted else RunFailed) &&
      q.db.runs[n].output == (if out.Returned? then Some(out.result) else None) &&
      q.db.runs[n].error == (if out.Threw? then Some(ErrorText(out.error, "Unknown error")) else None)
  {
  }

  /** `runs` extends `before` by one row per agent of `order` reached, in order, each
      closed at `now`, all completed except possibly the last. */
  predicate LoopRows(before: seq<AgentRun>, runs: seq<AgentRun>, order: seq<Agent>, now: Timestamp) {
    |before| <= |runs| <= |before| + |order| && runs[..|before|] == before &&
    (forall i | |before| <= i < |runs| :: runs[i].agent == order[i - |before|] && runs[i].completedAt == Some(now)) &&
    (forall i | |before| <= i < |runs| - 1 :: runs[i].status == RunCompleted)
  }

  /** Every agent of `order` has its row, completed. */
  predicate AllCompleted(before: seq<AgentRun>, runs: seq<AgentRun>, order: seq<Agent>) {
    |runs| == |before| + |order| && forall i | |before| <= i < |runs| :: runs[i].status == RunCompleted
  }

  /** The last row is a new one, failed with `message`. */
  predicate LastFailed(before: seq<AgentRun>, runs: seq<AgentRun>, message: string) {
    |runs| > |before| && runs[|runs| - 1].status == RunFailed && runs[|runs| - 1].error == Some(message)
  }

  /** The run rows of the agent loop: the old rows are kept, then come the loop's
      rows; all of them are completed when no agent threw, and otherwise the last one
      failed with the thrown message. */
  lemma {:induction false} StepsRuns(mode: Mode, agents: (Agent, AgentContext) -> AgentReply, b0: Business,
                                     now: Timestamp, v: int, p: Progress, order: seq<Agent>)
    requires p.failure.None?
    ensures var q := Steps(mode, agents, b0, now, v, p, order);
      LoopRows(p.db.runs, q.db.runs, order, now) &&
      (q.failure.None? ==> AllCompleted(p.db.runs, q.db.runs, order)) &&
      (q.failure.Some? ==> LastFailed(p.db.runs, q.db.runs, ErrorText(q.failure.value, "Unknown error")))
    decreases |order|
  {
    if |order| > 0 {
      var init := order[..|order| - 1];
      var a := order[|order| - 1];
      assert order == init + [a];
      StepsRuns(mode, agents, b0, now, v, p, init);
      var q0 := Steps(mode, agents, b0, now, v, p, init);
      if q0.failure.None? {
        StepKeepsLoopRows(mode, agents, b0, now, v, p.db.runs, q0, init, a);
      }
    } else {
      assert p.db.runs[..|p.db.runs|] == p.db.runs;
    }
  }

  lemma StepKeepsLoopRows(mode: Mode, agents: (Agent, AgentContext) -> AgentReply, b0: Business, now: Timestamp,
                          v: int, before: seq<AgentRun>, q0: Progress, init: seq<Agent>, a: Agent)
    requires q0.failure.None? && LoopRows(before, q0.db.runs, init, now) && AllCompleted(before, q0.db.runs, init)
    ensures var q := Step(mode, agents, b0, now, v, q0, a);
      LoopRows(before, q.db.runs, init + [a], now) &&
      (q.failure.None? ==> AllCompleted(before, q.db.runs, init + [a])) &&
      (q.failure.Some? ==> LastFailed(before, q.db.runs, ErrorText(q.failure.value, "Unknown error")))
  {
    StepRuns(mode, agents, b0, now, v, q0, a);
    var q := Step(mode, agents, b0, now, v, q0, a);
    LoopRowsSnoc(before, q0.db.runs, q.db.runs, init, a, now);
  }

  /** One more completed or failed row after a loop in which every agent completed. */
  lemma LoopRowsSnoc(before: seq<AgentRun>, runs: seq<AgentRun>, runs': seq<AgentRun>, init: seq<Agent>,
                     a: Agent, now: Timestamp)
    requires LoopRows(before, runs, init, now) && AllCompleted(before, runs, init)
    requires |runs'| == |runs| + 1 && runs'[..|runs|] == runs
    requires runs'[|runs|].agent == a && runs'[|runs|].completedAt == Some(now)
    ensures LoopRows(before, runs', init + [a], now)
    ensures runs'[|runs|].status == RunCompleted ==> AllCompleted(before, runs', init + [a])
    ensures runs'[|runs|].status == RunFailed && runs'[|runs|].error.Some? ==>
      LastFailed(before, runs', runs'[|runs|].error.value)
  {
    assert runs'[..|before|] == runs[..|before|];
    forall i | |before| <= i < |runs| ensures runs'[i] == runs[i] {
      assert runs'[..|runs|][i] == runs'[i];
    }
  }

  // ------------------------------------------------------------------
  // The events
  // ------------------------------------------------------------------

  /** An agent that is reached is announced first; all its events are tagged with it;
      the last one reports its completion with the result, or its error. */
  lemma StepEvents(mode: Mode, agents: (Agent, AgentContext) -> AgentReply, b0: Business, now: Timestamp, v: int,
                   p: Progress, a: Agent)
    requires p.failure.None?
    ensures var q := Step(mode, agents, b0, now, v, p, a);
      var out := agents(a, AgentContext(b0, p.outputs)).outcome;
      var n := |p.events|;
      |q.events| >= n + 2 && q.events[..n] == p.events &&
      q.events[n] == Event(AgentStart, Some(a), Some(StartMessage(mode, a)), None, None) &&
      (forall i | n <= i < |q.events| :: q.events[i].agent == Some(a)) &&
      q.events[|q.events| - 1] == (if out.Returned? then
        Event(AgentComplete, Some(a), Some(DoneMessage(mode, a)), Some(Obj(out.result)), None)
      else Event(AgentError, Some(a), Some(ErrorText(out.error, "Agent failed")), None, None))
  {
  }

  /** `events` extends `before` by events tagged with agents of `order` only. */
  predicate LoopEvents(before: seq<Event>, events: seq<Event>, order: seq<Agent>) {
    |before| <= |events| && events[..|before|] == before &&
    forall i | |before| <= i < |events| :: events[i].agent.Some? && events[i].agent.value in order
  }

  /** The last event is a new error with `message`. */
  predicate LastError(before: seq<Event>, events: seq<Event>, message: string) {
    |events| > |before| && events[|events| - 1].kind == AgentError && events[|events| - 1].message == Some(message)
  }

  /** Every event of the agent loop is tagged with one of its agents; when an agent
      threw, the last event is that agent's error. */
  lemma {:induction false} StepsEvents(mode: Mode, agents: (Agent, AgentContext) -> AgentReply, b0: Business,
                                       now: Timestamp, v: int, p: Progress, order: seq<Agent>)
    requires p.failure.None?
    ensures var q := Steps(mode, agents, b0, now, v, p, order);
      LoopEvents(p.events, q.events, order) &&
      (q.failure.Some? ==> LastError(p.events, q.events, ErrorText(q.failure.value, "Agent failed")))
    decreases |order|
  {
    if |order| > 0 {
      var init := order[..|order| - 1];
      var a := order[|order| - 1];
      assert order == init + [a];
      StepsEvents(mode, agents, b0, now, v, p, init);
      var q0 := Steps(mode, agents, b0, now, v, p, init);
      if q0.failure.None? {
        StepKeepsLoopEvents(mode, agents, b0, now, v, p.events, q0, init, a);
      } else {
        LoopEventsWiden(p.events, q0.events, init, a);
      }
    } else {
      assert p.events[..|p.events|] == p.events;
    }
  }

  lemma StepKeepsLoopEvents(mode: Mode, agents: (Agent, AgentContext) -> AgentReply, b0: Business, now: Timestamp,
                            v: int, before: seq<Event>, q0: Progress, init: seq<Agent>, a: Agent)
    requires q0.failure.None? && LoopEvents(before, q0.events, init)
    ensures var q := Step(mode, agents, b0, now, v, q0, a);
      LoopEvents(before, q.events, init + [a]) &&
      (q.failure.Some? ==> LastError(before, q.events, ErrorText(q.failure.value, "Agent failed")))
  {
    StepEvents(mode, agents, b0, now, v, q0, a);
    var q := Step(mode, agents, b0, now, v, q0, a);
    assert q.events[..|before|] == q0.events[..|q0.events|][..|before|];
  }

  lemma LoopEventsWiden(before: seq<Event>, events: seq<Event>, init: seq<Agent>, a: Agent)
    requires LoopEvents(before, events, init)
    ensures LoopEvents(before, events, init + [a])
  {
  }

  /** A run emits its agents' events, then exactly one event without an agent, last:
      `generation_complete` after a run in which no agent threw, otherwise an error
      with the thrown message or the mode's fallback.  An agent's error is therefore
      reported twice, once tagged and once untagged. */
  lemma RunEvents(mode: Mode, agents: (Agent, AgentContext) -> AgentReply, db0: Db, events0: seq<Event>,
                  order: seq<Agent>, now: Timestamp, v: int)
    ensures var r := Run(mode, agents, db0, events0, order, now, v);
      var n := |events0|;
      var last := r.events[|r.events| - 1];
      |r.events| > n && r.events[..n] == events0 &&
      (forall i | n <= i < |r.events| - 1 :: r.events[i].agent.Some? && r.events[i].agent.value in order) &&
      last.agent.None? &&
      (r.failure.None? ==> last == Event(GenerationComplete, None, Some(FinalMessage(mode)), None, None)) &&
      (r.failure.Some? ==>
         last == Event(AgentError, None, Some(ErrorText(r.failure.value, FailureFallback(mode))), None, None)) &&
      (db0.business.None? ==> r.events == events0 + [last] && r.failure == Some(NotFound)) &&
      (db0.business.Some? && r.failure.Some? ==> (|r.events| > n + 1 &&
         r.events[|r.events| - 2].kind == AgentError && r.events[|r.events| - 2].agent.Some? &&
         r.events[|r.events| - 2].message == Some(ErrorText(r.failure.value, "Agent failed"))))
  {
    if db0.business.Some? {
      var b0 := db0.business.value;
      var p0 := Progress(db0.(business := WithStatus(db0.business, Running)), events0, InitialOutputs(mode, b0), None);
      StepsEvents(mode, agents, b0, now, v, p0, order);
    }
  }

  // ------------------------------------------------------------------
  // The businesses row
  // ------------------------------------------------------------------

  /** The row holds, for every column, the accumulated output when there is one and
      the fetched value otherwise. */
  predicate Synced(p: Progress, b0: Business) {
    p.db.business.Some? &&
    forall f :: Column(p.db.business.value, f) == if f in p.outputs then p.outputs[f] else Column(b0, f)
  }

  /** One agent keeps the row and the accumulator in step. */
  lemma StepKeepsSynced(mode: Mode, agents: (Agent, AgentContext) -> AgentReply, b0: Business, now: Timestamp,
                        v: int, p: Progress, a: Agent)
    requires Synced(p, b0)
    ensures Synced(Step(mode, agents, b0, now, v, p, a), b0)
  {
    if p.failure.None? {
      var q := Begin(mode, b0, p, a);
      var reply := agents(a, AgentContext(b0, p.outputs));
      var r := q.(events := q.events + NoteEvents(a, reply.notes));
      assert Synced(r, b0);
      if reply.outcome.Returned? {
        SucceedKeepsSynced(mode, now, v, r, a, reply.outcome.result, b0);
      }
    }
  }

  lemma SucceedKeepsSynced(mode: Mode, now: Timestamp, v: int, p: Progress, a: Agent, result: seq<Member>,
                           b0: Business)
    requires |p.db.runs| > 0 && Synced(p, b0)
    ensures Synced(Succeed(mode, now, v, p, a, result), b0)
  {
    var updates := Defined(OutputFields(mode, a), result);
    var q := Succeed(mode, now, v, p, a, result);
    assert q.db.business.value.columns == p.db.business.value.columns + updates;
    assert q.outputs == p.outputs + updates;
  }

  lemma {:induction false} StepsKeepSynced(mode: Mode, agents: (Agent, AgentContext) -> AgentReply, b0: Business,
                                           now: Timestamp, v: int, p: Progress, order: seq<Agent>)
    requires Synced(p, b0)
    ensures Synced(Steps(mode, agents, b0, now, v, p, order), b0)
    decreases |order|
  {
    if |order| > 0 {
      StepsKeepSynced(mode, agents, b0, now, v, p, order[..|order| - 1]);
      StepKeepsSynced(mode, agents, b0, now, v, Steps(mode, agents, b0, now, v, p, order[..|order| - 1]),
                      order[|order| - 1]);
    }
  }

  /** At the end of a run the business is `completed` exactly when no agent threw and
      `failed` otherwise, has no current agent, and each column holds the last output
      written to it or its value before the run.  Without a business nothing changes. */
  lemma RunBusiness(mode: Mode, agents: (Agent, AgentContext) -> AgentReply, db0: Db, events0: seq<Event>,
                    order: seq<Agent>, now: Timestamp, v: int)
    ensures var r := Run(mode, agents, db0, events0, order, now, v);
      (db0.business.None? ==> r.db == db0) &&
      (db0.business.Some? ==>
        r.db.business.Some? && r.db.business.value.status == (if r.failure.None? then Completed else Failed) &&
        r.db.business.value.currentAgent.None? && r.db.business.value.prompt == db0.business.value.prompt &&
        forall f :: Column(r.db.business.value, f) ==
          if f in r.outputs then r.outputs[f] else Column(db0.business.value, f))
  {
    if db0.business.Some? {
      var b0 := db0.business.value;
      var p0 := Progress(db0.(business := WithStatus(db0.business, Running)), events0, InitialOutputs(mode, b0), None);
      assert Synced(p0, b0);
      StepsKeepSynced(mode, agents, b0, now, v, p0, order);
      StepsKeepPrompt(mode, agents, b0, now, v, p0, order);
    }
  }

  lemma {:induction false} StepsKeepPrompt(mode: Mode, agents: (Agent, AgentContext) -> AgentReply, b0: Business,
                                           now: Timestamp, v: int, p: Progress, order: seq<Agent>)
    requires p.db.business.Some?
    ensures var q := Steps(mode, agents, b0, now, v, p, order);
      q.db.business.Some? && q.db.business.value.prompt == p.db.business.value.prompt
    decreases |order|
  {
    if |order| > 0 {
      StepsKeepPrompt(mode, agents, b0, now, v, p, order[..|order| - 1]);
    }
  }
}
