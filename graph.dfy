/** The field-dependency graph of a generated business
    (src/lib/dependencies/graph.ts): which agent produces which field, what each
    field is generated from, which website sections a change touches, and the
    resolution functions built on those tables. */
module Graph {
  import opened Collections

  // ------------------------------------------------------------------
  // Fields and agents (graph.ts:14-66)
  // ------------------------------------------------------------------

  datatype Field =
    | Prompt
    | MarketResearch
    | BusinessName
    | Tagline
    | BusinessCanvas
    | BrandColors
    | BrandVoice
    | LogoUrl
    | WebsiteStructure
    | WebsiteCode
    | CustomerJourney
    | AutomationFlows

  function FieldName(f: Field): string {
    match f
    case Prompt => "prompt"
    case MarketResearch => "market_research"
    case BusinessName => "business_name"
    case Tagline => "tagline"
    case BusinessCanvas => "business_canvas"
    case BrandColors => "brand_colors"
    case BrandVoice => "brand_voice"
    case LogoUrl => "logo_url"
    case WebsiteStructure => "website_structure"
    case WebsiteCode => "website_code"
    case CustomerJourney => "customer_journey"
    case AutomationFlows => "automation_flows"
  }

  /** The field a key of `FIELD_DEPENDENCIES` names, if any. */
  function ParseField(s: string): (r: Option<Field>)
    ensures r.Some? ==> FieldName(r.value) == s
  {
    if s == "prompt" then Some(Prompt)
    else if s == "market_research" then Some(MarketResearch)
    else if s == "business_name" then Some(BusinessName)
    else if s == "tagline" then Some(Tagline)
    else if s == "business_canvas" then Some(BusinessCanvas)
    else if s == "brand_colors" then Some(BrandColors)
    else if s == "brand_voice" then Some(BrandVoice)
    else if s == "logo_url" then Some(LogoUrl)
    else if s == "website_structure" then Some(WebsiteStructure)
    else if s == "website_code" then Some(WebsiteCode)
    else if s == "customer_journey" then Some(CustomerJourney)
    else if s == "automation_flows" then Some(AutomationFlows)
    else None
  }

  /** Every field's name is recognised as that field, so names are distinct. */
  lemma ParseFieldName(f: Field)
    ensures ParseField(FieldName(f)) == Some(f)
  {
  }

  lemma FieldNameInjective(f: Field, g: Field)
    requires FieldName(f) == FieldName(g)
    ensures f == g
  {
    ParseFieldName(f);
    ParseFieldName(g);
  }

  /** The keys of `FIELD_DEPENDENCIES`, in declaration order. */
  const AllFields: seq<Field> := [
    Prompt, MarketResearch, BusinessName, Tagline, BusinessCanvas, BrandColors,
    BrandVoice, LogoUrl, WebsiteStructure, WebsiteCode, CustomerJourney, AutomationFlows]

  lemma AllFieldsComplete(f: Field)
    ensures f in AllFields
  {
  }

  datatype Agent = Scout | Strategist | Artist | Architect | Connector

  function AgentName(a: Agent): string {
    match a
    case Scout => "scout"
    case Strategist => "strategist"
    case Artist => "artist"
    case Architect => "architect"
    case Connector => "connector"
  }

  /** `AGENT_ORDER`; `AGENT_OUTPUTS` lists its agents in the same order. */
  const AgentOrder: seq<Agent> := [Scout, Strategist, Artist, Architect, Connector]

  /** Position of an agent in the pipeline. */
  function PipelineIndex(a: Agent): (i: nat)
    ensures i < |AgentOrder| && AgentOrder[i] == a
  {
    match a
    case Scout => 0
    case Strategist => 1
    case Artist => 2
    case Architect => 3
    case Connector => 4
  }

  /** `AGENT_OUTPUTS`. */
  function AgentOutputs(a: Agent): seq<Field> {
    match a
    case Scout => [MarketResearch]
    case Strategist => [BusinessName, Tagline, BusinessCanvas]
    case Artist => [BrandColors, BrandVoice, LogoUrl]
    case Architect => [WebsiteStructure, WebsiteCode]
    case Connector => [CustomerJourney, AutomationFlows]
  }

  // ------------------------------------------------------------------
  // The dependency graph (graph.ts:79-109)
  // ------------------------------------------------------------------

  /** `FIELD_DEPENDENCIES`: the fields each field is generated from. */
  function Dependencies(f: Field): seq<Field> {
    match f
    case Prompt => []
    case MarketResearch => [Prompt]
    case BusinessName => [Prompt, MarketResearch]
    case Tagline => [Prompt, MarketResearch]
    case BusinessCanvas => [Prompt, MarketResearch]
    case BrandColors => [MarketResearch, BusinessName, BusinessCanvas]
    case BrandVoice => [MarketResearch, BusinessName, BusinessCanvas]
    case LogoUrl => [MarketResearch, BusinessName, BusinessCanvas]
    case WebsiteStructure =>
      [MarketResearch, BusinessName, Tagline, BusinessCanvas, BrandColors, BrandVoice]
    case WebsiteCode => [WebsiteStructure, BrandColors]
    case CustomerJourney => [MarketResearch, BusinessName, BusinessCanvas, WebsiteStructure]
    case AutomationFlows => [MarketResearch, BusinessName, BusinessCanvas, WebsiteStructure]
  }

  /** A rank of every field in the graph: a topological order. */
  function Level(f: Field): (l: nat)
    ensures l <= 5
  {
    match f
    case Prompt => 0
    case MarketResearch => 1
    case BusinessName | Tagline | BusinessCanvas => 2
    case BrandColors | BrandVoice | LogoUrl => 3
    case WebsiteStructure => 4
    case WebsiteCode | CustomerJourney | AutomationFlows => 5
  }

  /** Every field depends only on fields of a lower rank, so the graph has no cycle. */
  lemma LevelIncreases(t: Field, f: Field)
    requires f in Dependencies(t)
    ensures Level(f) < Level(t)
  {
  }

  /** The fields that list `f` among their dependencies, together with everything
      downstream of them: the transitive closure of "is generated from". */
  function Down(f: Field): set<Field>
    decreases 6 - Level(f), |AllFields| + 1
  {
    DownUpTo(f, |AllFields|)
  }

  /** The part of `Down(f)` contributed by the first `n` fields of the table. */
  function DownUpTo(f: Field, n: nat): set<Field>
    requires n <= |AllFields|
    decreases 6 - Level(f), n
  {
    if n == 0 then {}
    else
      var t := AllFields[n - 1];
      DownUpTo(f, n - 1) + (if f in Dependencies(t) then LevelIncreases(t, f); {t} + Down(t) else {})
  }

  /** `u` is `t` or downstream of it, where `t` depends directly on `f`. */
  predicate Via(f: Field, t: Field, u: Field)
    decreases 6 - Level(f), 0
  {
    f in Dependencies(t) && (LevelIncreases(t, f); u == t || u in Down(t))
  }

  lemma DownUpToStep(f: Field, n: nat, u: Field)
    requires 0 < n <= |AllFields|
    ensures u in DownUpTo(f, n) <==> u in DownUpTo(f, n - 1) || Via(f, AllFields[n - 1], u)
  {
  }

  lemma {:induction false} DownUpToIff(f: Field, n: nat, u: Field)
    requires n <= |AllFields|
    ensures u in DownUpTo(f, n) <==> exists j | 0 <= j < n :: Via(f, AllFields[j], u)
  {
    if n > 0 {
      DownUpToIff(f, n - 1, u);
      DownUpToStep(f, n, u);
      if Via(f, AllFields[n - 1], u) {
        assert exists j | 0 <= j < n :: Via(f, AllFields[j], u);
      }
      if j :| 0 <= j < n && Via(f, AllFields[j], u) {
        if j < n - 1 {
          assert exists j | 0 <= j < n - 1 :: Via(f, AllFields[j], u);
        }
      }
    }
  }

  /** `Down(f)` is exactly the direct dependents of `f` and what lies below them. */
  lemma DownIff(f: Field, u: Field)
    ensures u in Down(f) <==> exists t :: Via(f, t, u)
  {
    DownUpToIff(f, |AllFields|, u);
    if t :| Via(f, t, u) {
      AllFieldsComplete(t);
      var j :| 0 <= j < |AllFields| && AllFields[j] == t;
      assert Via(f, AllFields[j], u);
    }
  }

  /** A field that depends on `f` directly is downstream of `f`. */
  lemma DirectDependentIsDownstream(t: Field, f: Field)
    requires f in Dependencies(t)
    ensures t in Down(f)
  {
    DownIff(f, t);
    assert Via(f, t, t);
  }

  /** Downstream of downstream is downstream. */
  lemma {:induction false} DownTransitive(f: Field, t: Field, u: Field)
    requires t in Down(f) && u in Down(t)
    ensures u in Down(f)
    decreases 6 - Level(f)
  {
    DownIff(f, t);
    var d :| Via(f, d, t);
    LevelIncreases(d, f);
    if t != d {
      DownTransitive(d, t, u);
    }
    DownIff(f, u);
    assert Via(f, d, u);
  }

  /** Everything downstream of `f` has a higher rank, so no field is downstream of
      itself. */
  lemma {:induction false} DownRaisesLevel(f: Field, u: Field)
    requires u in Down(f)
    ensures Level(f) < Level(u)
    decreases 6 - Level(f)
  {
    DownIff(f, u);
    var d :| Via(f, d, u);
    LevelIncreases(d, f);
    if u != d {
      DownRaisesLevel(d, u);
    }
  }

  lemma DownIrreflexive(f: Field)
    ensures f !in Down(f)
  {
    if f in Down(f) {
      DownRaisesLevel(f, f);
    }
  }

  /** `Down(f)` is the least set that holds every direct dependent of `f` and is
      closed under taking direct dependents. */
  lemma {:induction false} DownLeast(f: Field, s: set<Field>)
    requires forall t :: f in Dependencies(t) ==> t in s
    requires forall u, t :: u in s && u in Dependencies(t) ==> t in s
    ensures Down(f) <= s
    decreases 6 - Level(f)
  {
    forall u | u in Down(f) ensures u in s {
      DownIff(f, u);
      var d :| Via(f, d, u);
      LevelIncreases(d, f);
      if u != d {
        DownLeast(d, s);
      }
    }
  }

  /** The prompt feeds every other field. */
  lemma EverythingIsDownstreamOfPrompt(u: Field)
    requires u != Prompt
    ensures u in Down(Prompt)
  {
    DirectDependentIsDownstream(MarketResearch, Prompt);
    if u == WebsiteCode {
      DirectDependentIsDownstream(WebsiteStructure, MarketResearch);
      DirectDependentIsDownstream(WebsiteCode, WebsiteStructure);
      DownTransitive(MarketResearch, WebsiteStructure, WebsiteCode);
      DownTransitive(Prompt, MarketResearch, u);
    } else if u != MarketResearch {
      DirectDependentIsDownstream(u, MarketResearch);
      DownTransitive(Prompt, MarketResearch, u);
    }
  }

  /** A market-research change reaches every field but the prompt and itself. */
  lemma MarketResearchDownstream(u: Field)
    ensures u in Down(MarketResearch) <==> u != Prompt && u != MarketResearch
  {
    if u in Down(MarketResearch) {
      DownRaisesLevel(MarketResearch, u);
    } else if u == WebsiteCode {
      DirectDependentIsDownstream(WebsiteStructure, MarketResearch);
      DirectDependentIsDownstream(WebsiteCode, WebsiteStructure);
      DownTransitive(MarketResearch, WebsiteStructure, WebsiteCode);
    } else if u != Prompt && u != MarketResearch {
      DirectDependentIsDownstream(u, MarketResearch);
    }
  }

  /** Nothing depends on the generated code, the customer journey or the flows. */
  lemma LeavesHaveNoDependents(f: Field)
    requires f == WebsiteCode || f == CustomerJourney || f == AutomationFlows
    ensures Down(f) == {}
  {
    forall u ensures u !in Down(f) {
      DownIff(f, u);
      assert forall t :: f !in Dependencies(t);
    }
  }

  /** A change of brand colours reaches exactly the website and what is built on it. */
  lemma BrandColorsDownstream()
    ensures Down(BrandColors) == {WebsiteStructure, WebsiteCode, CustomerJourney, AutomationFlows}
  {
    var s := {WebsiteStructure, WebsiteCode, CustomerJourney, AutomationFlows};
    DirectDependentIsDownstream(WebsiteStructure, BrandColors);
    DirectDependentIsDownstream(WebsiteCode, BrandColors);
    DirectDependentIsDownstream(CustomerJourney, WebsiteStructure);
    DirectDependentIsDownstream(AutomationFlows, WebsiteStructure);
    DownTransitive(BrandColors, WebsiteStructure, CustomerJourney);
    DownTransitive(BrandColors, WebsiteStructure, AutomationFlows);
    DownLeast(BrandColors, s);
  }

  // ------------------------------------------------------------------
  // getDownstreamDependents (graph.ts:181-195)
  // ------------------------------------------------------------------

  /** Every collected field outside the recursion stack `open` has all of its
      downstream fields collected. */
  ghost predicate Finished(acc: seq<Field>, open: set<Field>) {
    forall s | s in acc && s !in open :: Down(s) <= Elems(acc)
  }

  /** `getDownstreamDependents`: every field downstream of `field`, once each. */
  method GetDownstreamDependents(field: Field) returns (dependents: seq<Field>)
    ensures NoDup(dependents)
    ensures Elems(dependents) == Down(field)
  {
    dependents := Collect(field, [], {field});
  }

  /** The inner `collect` of `getDownstreamDependents`: walks the table in order and
      descends into every dependent of `f` not yet collected.  `open` is the chain of
      fields whose walk is in progress. */
  method Collect(f: Field, acc: seq<Field>, ghost open: set<Field>) returns (res: seq<Field>)
    requires NoDup(acc) && f in open
    requires Finished(acc, open)
    requires forall s | s in open :: s == f || f in Down(s)
    ensures acc <= res && NoDup(res)
    ensures Elems(res) == Elems(acc) + Down(f)
    ensures Finished(res, open)
    decreases Elems(AllFields) - Elems(acc), 1
  {
    res := acc;
    var i := 0;
    while i < |AllFields|
      invariant 0 <= i <= |AllFields|
      invariant acc <= res && NoDup(res)
      invariant Finished(res, open)
      invariant Elems(res) == Elems(acc) + DownUpTo(f, i)
    {
      if f in Dependencies(AllFields[i]) && AllFields[i] !in res {
        res := Descend(f, acc, res, open, i);
      } else {
        CollectSkip(f, acc, res, open, i);
      }
      i := i + 1;
    }
  }

  /** One descent of `collect` into the new dependent `AllFields[i]` of `f`. */
  method Descend(f: Field, acc: seq<Field>, res: seq<Field>, ghost open: set<Field>, i: int)
    returns (res': seq<Field>)
    requires 0 <= i < |AllFields| && f in Dependencies(AllFields[i]) && AllFields[i] !in res
    requires acc <= res && NoDup(res) && Finished(res, open)
    requires forall s | s in open :: s == f || f in Down(s)
    requires Elems(res) == Elems(acc) + DownUpTo(f, i)
    ensures acc <= res' && NoDup(res') && Finished(res', open)
    ensures Elems(res') == Elems(acc) + DownUpTo(f, i + 1)
    decreases Elems(AllFields) - Elems(acc), 0
  {
    var target := AllFields[i];
    CollectEnter(f, acc, res, open, target);
    res' := Collect(target, res + [target], open + {target});
    CollectLeave(f, acc, res, res', open, i);
  }

  /** Entering a new dependent keeps the walk's preconditions and makes progress. */
  lemma CollectEnter(f: Field, acc: seq<Field>, res: seq<Field>, open: set<Field>, target: Field)
    requires acc <= res && NoDup(res) && Finished(res, open)
    requires forall s | s in open :: s == f || f in Down(s)
    requires f in Dependencies(target) && target !in res
    ensures NoDup(res + [target]) && Finished(res + [target], open + {target})
    ensures forall s | s in open + {target} :: s == target || target in Down(s)
    ensures Elems(AllFields) - Elems(res + [target]) < Elems(AllFields) - Elems(acc)
  {
    DirectDependentIsDownstream(target, f);
    forall s | s in open ensures target in Down(s) {
      if s != f {
        DownTransitive(s, f, target);
      }
    }
    CollectProgress(acc, res, target);
  }

  lemma CollectProgress(acc: seq<Field>, res: seq<Field>, target: Field)
    requires acc <= res && target !in res
    ensures Elems(AllFields) - Elems(res + [target]) < Elems(AllFields) - Elems(acc)
  {
    AllFieldsComplete(target);
    assert forall x | x in acc :: x in res;
    assert target in Elems(AllFields) - Elems(acc);
    assert target !in Elems(AllFields) - Elems(res + [target]);
  }

  /** After the descent into `AllFields[i]`, the loop invariant holds for `i + 1`. */
  lemma CollectLeave(f: Field, acc: seq<Field>, before: seq<Field>, res: seq<Field>, open: set<Field>, i: int)
    requires 0 <= i < |AllFields| && f in Dependencies(AllFields[i])
    requires acc <= before && Elems(before) == Elems(acc) + DownUpTo(f, i)
    requires before + [AllFields[i]] <= res
    requires Elems(res) == Elems(before + [AllFields[i]]) + Down(AllFields[i])
    requires Finished(res, open + {AllFields[i]})
    ensures acc <= res && Finished(res, open)
    ensures Elems(res) == Elems(acc) + DownUpTo(f, i + 1)
  {
    var target := AllFields[i];
    assert Elems(before + [target]) == Elems(before) + {target};
    assert acc <= before + [target];
  }

  /** A direct dependent of `f` is not among the fields whose walk led to `f`. */
  lemma NotOnStack(f: Field, target: Field, open: set<Field>)
    requires f in Dependencies(target)
    requires forall s | s in open :: s == f || f in Down(s)
    ensures target !in open
  {
    LevelIncreases(target, f);
    if target in open {
      DownRaisesLevel(target, f);
    }
  }

  /** A field the walk does not descend into adds nothing new. */
  lemma CollectSkip(f: Field, acc: seq<Field>, res: seq<Field>, open: set<Field>, i: int)
    requires 0 <= i < |AllFields| && f in open
    requires Finished(res, open)
    requires forall s | s in open :: s == f || f in Down(s)
    requires Elems(res) == Elems(acc) + DownUpTo(f, i)
    requires f in Dependencies(AllFields[i]) ==> AllFields[i] in res
    ensures Elems(res) == Elems(acc) + DownUpTo(f, i + 1)
  {
    var target := AllFields[i];
    if f in Dependencies(target) {
      DirectDependentIsDownstream(target, f);
      NotOnStack(f, target, open);
      assert Down(target) <= Elems(res);
    }
  }

  // ------------------------------------------------------------------
  // Agents for fields (graph.ts:200-223)
  // ------------------------------------------------------------------

  /** The agent whose outputs include a field; the prompt is the user's input. */
  function Producer(f: Field): (r: Option<Agent>)
    ensures r.Some? ==> f in AgentOutputs(r.value)
  {
    match f
    case Prompt => None
    case MarketResearch => Some(Scout)
    case BusinessName | Tagline | BusinessCanvas => Some(Strategist)
    case BrandColors | BrandVoice | LogoUrl => Some(Artist)
    case WebsiteStructure | WebsiteCode => Some(Architect)
    case CustomerJourney | AutomationFlows => Some(Connector)
  }

  /** Each generated field has exactly one producing agent. */
  lemma ProducerIff(f: Field, a: Agent)
    ensures Producer(f) == Some(a) <==> f in AgentOutputs(a)
  {
  }

  /** `getAgentForField`: the first agent in table order whose outputs list the field. */
  method GetAgentForField(f: Field) returns (r: Option<Agent>)
    ensures r == Producer(f)
  {
    var i := 0;
    while i < |AgentOrder|
      invariant 0 <= i <= |AgentOrder|
      invariant forall j | 0 <= j < i :: f !in AgentOutputs(AgentOrder[j])
    {
      var agent := AgentOrder[i];
      if f in AgentOutputs(agent) {
        ProducerIff(f, agent);
        return Some(agent);
      }
      i := i + 1;
    }
    assert forall a :: f !in AgentOutputs(a) by {
      forall a ensures f !in AgentOutputs(a) {
        assert AgentOrder[PipelineIndex(a)] == a;
      }
    }
    return None;
  }

  /** The agents producing at least one of the given fields. */
  function NeededAgents(fields: seq<Field>): set<Agent> {
    set i | 0 <= i < |fields| && Producer(fields[i]).Some? :: Producer(fields[i]).value
  }

  /** The agents to rerun for stale fields, in pipeline order. */
  function AgentsToRun(fields: seq<Field>): seq<Agent> {
    Filter(AgentOrder, a => a in NeededAgents(fields))
  }

  /** An agent is rerun exactly when it produces one of the stale fields; the agents
      come in pipeline order, each once. */
  lemma AgentsToRunIff(fields: seq<Field>, a: Agent)
    ensures a in AgentsToRun(fields) <==> exists i | 0 <= i < |fields| :: fields[i] in AgentOutputs(a)
    ensures forall i, j | 0 <= i < j < |AgentsToRun(fields)| ::
      PipelineIndex(AgentsToRun(fields)[i]) < PipelineIndex(AgentsToRun(fields)[j])
    ensures NoDup(AgentsToRun(fields))
  {
    forall i | 0 <= i < |fields| ensures Producer(fields[i]) == Some(a) <==> fields[i] in AgentOutputs(a) {
      ProducerIff(fields[i], a);
    }
    var lt := (x: Agent, y: Agent) => PipelineIndex(x) < PipelineIndex(y);
    FilterKeepsOrder(AgentOrder, a => a in NeededAgents(fields), lt);
    var r := AgentsToRun(fields);
    forall i, j | 0 <= i < j < |r| ensures r[i] != r[j] {
      assert lt(r[i], r[j]);
    }
  }

  /** Only the set of stale fields matters, not their order or repetitions. */
  lemma AgentsToRunIgnoresOrder(f1: seq<Field>, f2: seq<Field>)
    requires forall x :: x in f1 <==> x in f2
    ensures AgentsToRun(f1) == AgentsToRun(f2)
  {
    assert NeededAgents(f1) == NeededAgents(f2) by {
      forall a | a in NeededAgents(f1) ensures a in NeededAgents(f2) {
        var i :| 0 <= i < |f1| && Producer(f1[i]) == Some(a);
        assert f1[i] in f2;
        var j :| 0 <= j < |f2| && f2[j] == f1[i];
      }
      forall a | a in NeededAgents(f2) ensures a in NeededAgents(f1) {
        var i :| 0 <= i < |f2| && Producer(f2[i]) == Some(a);
        assert f2[i] in f1;
        var j :| 0 <= j < |f1| && f1[j] == f2[i];
      }
    }
  }

  /** A stale website structure and journey rerun the architect, then the connector. */
  lemma AgentsToRunExample(fs: seq<Field>)
    requires fs == [CustomerJourney, WebsiteStructure]
    ensures AgentsToRun(fs) == [Architect, Connector]
  {
    assert Producer(fs[0]) == Some(Connector) && Producer(fs[1]) == Some(Architect);
    assert NeededAgents(fs) == {Architect, Connector};
    FilterLastTwo(a => a in NeededAgents(fs));
  }

  lemma FilterLastTwo(p: Agent -> bool)
    requires !p(Scout) && !p(Strategist) && !p(Artist) && p(Architect) && p(Connector)
    ensures Filter(AgentOrder, p) == [Architect, Connector]
  {
    var s0: seq<Agent> := [];
    var s1, s2, s3 := [Scout], [Scout, Strategist], [Scout, Strategist, Artist];
    var s4 := [Scout, Strategist, Artist, Architect];
    assert s0 + [Scout] == s1 && s1 + [Strategist] == s2 && s2 + [Artist] == s3;
    assert s3 + [Architect] == s4 && s4 + [Connector] == AgentOrder;
    FilterSnoc(s0, Scout, p);
    FilterSnoc(s1, Strategist, p);
    FilterSnoc(s2, Artist, p);
    FilterSnoc(s3, Architect, p);
    assert Filter(s4, p) == [Architect];
    FilterSnoc(s4, Connector, p);
  }

  /** `getAgentsToRun`: gathers the producers of the stale fields into a set, then
      keeps the pipeline's agents that are in it. */
  method GetAgentsToRun(staleFields: seq<Field>) returns (agents: seq<Agent>)
    ensures agents == AgentsToRun(staleFields)
  {
    var agentSet: set<Agent> := {};
    var i := 0;
    while i < |staleFields|
      invariant 0 <= i <= |staleFields|
      invariant agentSet == NeededAgents(staleFields[..i])
    {
      var agent := GetAgentForField(staleFields[i]);
      assert staleFields[..i + 1] == staleFields[..i] + [staleFields[i]];
      if agent.Some? {
        agentSet := agentSet + {agent.value};
      }
      i := i + 1;
    }
    assert staleFields[..i] == staleFields;
    agents := Filter(AgentOrder, a => a in agentSet);
  }

  // ------------------------------------------------------------------
  // Upstream dependencies and readiness (graph.ts:261-274)
  // ------------------------------------------------------------------

  /** `getUpstreamDependencies`. */
  function GetUpstreamDependencies(f: Field): (deps: seq<Field>)
    ensures forall d | d in deps :: Level(d) < Level(f) && f in Down(d)
    ensures deps == [] <==> f == Prompt
  {
    forall d | d in Dependencies(f) ensures Level(d) < Level(f) && f in Down(d) {
      DirectDependentIsDownstream(f, d);
    }
    Dependencies(f)
  }

  /** `deps.every(dep => !stale.has(dep))`. */
  predicate NoneStale(deps: seq<Field>, stale: set<Field>) {
    |deps| == 0 || (deps[0] !in stale && NoneStale(deps[1..], stale))
  }

  /** `canRegenerate`: no dependency of the field is stale. */
  function CanRegenerate(f: Field, stale: set<Field>): (r: bool)
    ensures r <==> forall d | d in GetUpstreamDependencies(f) :: d !in stale
  {
    NoneStaleIff(Dependencies(f), stale);
    NoneStale(GetUpstreamDependencies(f), stale)
  }

  lemma {:induction false} NoneStaleIff(deps: seq<Field>, stale: set<Field>)
    ensures NoneStale(deps, stale) <==> forall d | d in deps :: d !in stale
  {
    if |deps| > 0 {
      NoneStaleIff(deps[1..], stale);
      assert forall d :: d in deps <==> d == deps[0] || d in deps[1..];
    }
  }

  /** Regeneration can always make progress: among any stale fields, one of lowest
      rank depends on nothing stale. */
  lemma SomeStaleFieldCanRegenerate(stale: set<Field>)
    requires stale != {}
    ensures exists f | f in stale :: CanRegenerate(f, stale)
  {
    var l := 0;
    while !exists f | f in stale :: Level(f) == l
      invariant 0 <= l <= 5
      invariant forall f | f in stale :: Level(f) >= l
      decreases 5 - l
    {
      var g :| g in stale;
      l := l + 1;
    }
    var f :| f in stale && Level(f) == l;
    forall d | d in GetUpstreamDependencies(f) ensures d !in stale {
    }
  }

  // ------------------------------------------------------------------
  // Sub-field dependencies and section mapping (graph.ts:120-171, 229-256)
  // ------------------------------------------------------------------

  /** One entry of `SUBFIELD_DEPENDENCIES`, whose key is "parent.child". */
  datatype SubfieldEntry = SubfieldEntry(parent: Field, child: string, dependents: seq<Field>)

  /** `SUBFIELD_DEPENDENCIES`, in declaration order. */
  const SubfieldEntries: seq<SubfieldEntry> := [
    SubfieldEntry(BusinessCanvas, "unfair_advantage", [WebsiteStructure, WebsiteCode]),
    SubfieldEntry(BusinessCanvas, "value_proposition", [WebsiteStructure, WebsiteCode, BrandVoice]),
    SubfieldEntry(BusinessCanvas, "problem", [WebsiteStructure]),
    SubfieldEntry(BusinessCanvas, "solution", [WebsiteStructure]),
    SubfieldEntry(BusinessCanvas, "customer_segments", [WebsiteStructure, CustomerJourney]),
    SubfieldEntry(BrandColors, "primary", [WebsiteCode]),
    SubfieldEntry(BrandColors, "secondary", [WebsiteCode]),
    SubfieldEntry(BrandColors, "accent", [WebsiteCode]),
    SubfieldEntry(BrandColors, "background", [WebsiteCode]),
    SubfieldEntry(BrandColors, "text", [WebsiteCode])]

  function SubfieldKey(e: SubfieldEntry): string {
    FieldName(e.parent) + "." + e.child
  }

  function SubfieldLookup(key: string, entries: seq<SubfieldEntry>): Option<seq<Field>> {
    if |entries| == 0 then None
    else if SubfieldKey(entries[0]) == key then Some(entries[0].dependents)
    else SubfieldLookup(key, entries[1..])
  }

  /** `SUBFIELD_DEPENDENCIES[key]`. */
  function SubfieldDependencies(key: string): Option<seq<Field>> {
    SubfieldLookup(key, SubfieldEntries)
  }

  lemma {:induction false} SubfieldLookupFrom(key: string, entries: seq<SubfieldEntry>)
    requires SubfieldLookup(key, entries).Some?
    ensures exists i | 0 <= i < |entries| ::
      SubfieldKey(entries[i]) == key && SubfieldLookup(key, entries) == Some(entries[i].dependents)
  {
    if SubfieldKey(entries[0]) != key {
      SubfieldLookupFrom(key, entries[1..]);
      var i :| 0 <= i < |entries[1..]| && SubfieldKey(entries[1..][i]) == key &&
        SubfieldLookup(key, entries[1..]) == Some(entries[1..][i].dependents);
      assert entries[i + 1] == entries[1..][i];
    } else {
      assert SubfieldKey(entries[0]) == key;
    }
  }

  /** Every sub-field dependency is also downstream of its parent field, so it adds
      no field the graph does not already reach. */
  lemma SubfieldDependenciesAreDownstream(key: string, t: Field)
    requires SubfieldDependencies(key).Some? && t in SubfieldDependencies(key).value
    ensures exists i | 0 <= i < |SubfieldEntries| ::
      SubfieldKey(SubfieldEntries[i]) == key && t in Down(SubfieldEntries[i].parent)
  {
    SubfieldLookupFrom(key, SubfieldEntries);
    var i :| 0 <= i < |SubfieldEntries| && SubfieldKey(SubfieldEntries[i]) == key &&
      SubfieldDependencies(key) == Some(SubfieldEntries[i].dependents);
    SubfieldEntriesAreDownstream(i, t);
  }

  lemma SubfieldEntriesAreDownstream(i: int, t: Field)
    requires 0 <= i < |SubfieldEntries| && t in SubfieldEntries[i].dependents
    ensures t in Down(SubfieldEntries[i].parent)
  {
    var e := SubfieldEntries[i];
    if i < 5 {
      assert e.parent == BusinessCanvas;
      assert t in {WebsiteStructure, WebsiteCode, BrandVoice, CustomerJourney};
      CanvasDownstream(t);
    } else {
      assert e.parent == BrandColors && t == WebsiteCode;
      DirectDependentIsDownstream(WebsiteCode, BrandColors);
    }
  }

  lemma CanvasDownstream(t: Field)
    requires t in {WebsiteStructure, WebsiteCode, BrandVoice, CustomerJourney}
    ensures t in Down(BusinessCanvas)
  {
    if t == WebsiteCode {
      DirectDependentIsDownstream(WebsiteStructure, BusinessCanvas);
      DirectDependentIsDownstream(WebsiteCode, WebsiteStructure);
      DownTransitive(BusinessCanvas, WebsiteStructure, WebsiteCode);
    } else {
      DirectDependentIsDownstream(t, BusinessCanvas);
    }
  }

  /** One entry of `CHANGE_TO_SECTIONS`. */
  datatype SectionEntry = SectionEntry(key: string, sections: seq<string>)

  /** `CHANGE_TO_SECTIONS`, in declaration order. */
  const SectionEntries: seq<SectionEntry> := [
    SectionEntry("business_canvas.unfair_advantage", ["hero", "about"]),
    SectionEntry("business_canvas.value_proposition", ["hero", "features", "about"]),
    SectionEntry("business_canvas.problem", ["hero", "about"]),
    SectionEntry("business_canvas.solution", ["features", "about"]),
    SectionEntry("business_canvas.customer_segments", ["hero", "testimonials"]),
    SectionEntry("brand_colors", ["ALL"]),
    SectionEntry("brand_voice", ["hero", "about", "cta"]),
    SectionEntry("business_name", ["hero", "about", "footer"]),
    SectionEntry("tagline", ["hero", "footer"]),
    SectionEntry("logo_url", ["hero", "footer"]),
    SectionEntry("offerings.price", ["pricing", "menu"]),
    SectionEntry("offerings.name", ["services", "menu", "pricing"])]

  function SectionLookup(key: string, entries: seq<SectionEntry>): Option<seq<string>> {
    if |entries| == 0 then None
    else if entries[0].key == key then Some(entries[0].sections)
    else SectionLookup(key, entries[1..])
  }

  /** `CHANGE_TO_SECTIONS[key]`. */
  function ChangeToSections(key: string): Option<seq<string>> {
    SectionLookup(key, SectionEntries)
  }

  lemma {:induction false} SectionLookupFrom(key: string, entries: seq<SectionEntry>)
    requires SectionLookup(key, entries).Some?
    ensures exists i | 0 <= i < |entries| ::
      entries[i].key == key && SectionLookup(key, entries) == Some(entries[i].sections)
  {
    if entries[0].key != key {
      SectionLookupFrom(key, entries[1..]);
      var i :| 0 <= i < |entries[1..]| && entries[1..][i].key == key &&
        SectionLookup(key, entries[1..]) == Some(entries[1..][i].sections);
      assert entries[i + 1] == entries[1..][i];
    } else {
      assert entries[0].key == key;
    }
  }

  lemma {:induction false} SectionLookupSkips(key: string, entries: seq<SectionEntry>, n: nat)
    requires n <= |entries|
    requires forall i | 0 <= i < n :: entries[i].key != key
    ensures SectionLookup(key, entries) == SectionLookup(key, entries[n..])
  {
    if n > 0 {
      SectionLookupSkips(key, entries[1..], n - 1);
      assert entries[1..][n - 1..] == entries[n..];
    }
  }

  /** The only entry holding "ALL" is `brand_colors`'s. */
  lemma AllOnlyInBrandColorsEntry(i: int)
    requires 0 <= i < |SectionEntries| && "ALL" in SectionEntries[i].sections
    ensures i == 5
  {
  }

  function SectionsOf(key: string): seq<string> {
    if ChangeToSections(key).Some? then ChangeToSections(key).value else []
  }

  /** The sections each changed sub-field contributes, in order. */
  function SubfieldSections(field: string, subs: seq<string>): seq<string> {
    if |subs| == 0 then []
    else SubfieldSections(field, subs[..|subs| - 1]) + SectionsOf(field + "." + subs[|subs| - 1])
  }

  /** Every section the field and its sub-fields map to, in the order they are added. */
  function Contributions(field: string, changedSubfields: Option<seq<string>>): seq<string> {
    SectionsOf(field) + (if changedSubfields.Some? then SubfieldSections(field, changedSubfields.value) else [])
  }

  /** `getAffectedSections`: the sections in first-added order, or just "ALL". */
  function AffectedSections(field: string, changedSubfields: Option<seq<string>>): seq<string> {
    var c := Contributions(field, changedSubfields);
    if "ALL" in c then ["ALL"] else Dedup(c)
  }

  lemma {:induction false} SubfieldSectionsIff(field: string, subs: seq<string>, s: string)
    ensures s in SubfieldSections(field, subs) <==>
      exists i | 0 <= i < |subs| :: s in SectionsOf(field + "." + subs[i])
  {
    if |subs| > 0 {
      SubfieldSectionsIff(field, subs[..|subs| - 1], s);
      var last := subs[|subs| - 1];
      if s in SectionsOf(field + "." + last) {
        assert s in SectionsOf(field + "." + subs[|subs| - 1]);
      }
      if i :| 0 <= i < |subs| && s in SectionsOf(field + "." + subs[i]) {
        if i < |subs| - 1 {
          assert subs[..|subs| - 1][i] == subs[i];
        }
      }
    }
  }

  /** Only `brand_colors` maps to "ALL". */
  lemma OnlyBrandColorsMapsToAll(key: string)
    ensures "ALL" in SectionsOf(key) ==> key == "brand_colors"
  {
    if ChangeToSections(key).Some? {
      SectionLookupFrom(key, SectionEntries);
      var i :| 0 <= i < |SectionEntries| && SectionEntries[i].key == key &&
        ChangeToSections(key) == Some(SectionEntries[i].sections);
      if "ALL" in SectionEntries[i].sections {
        AllOnlyInBrandColorsEntry(i);
      }
    }
  }

  lemma DottedKeyIsNotBrandColors(key: string, j: int)
    requires 0 <= j < |key| && key[j] == '.'
    ensures key != "brand_colors"
  {
  }

  /** A sub-field key is never `brand_colors`: it has a dot. */
  lemma SubfieldKeyNeverAll(field: string, sub: string)
    ensures "ALL" !in SectionsOf(field + "." + sub)
  {
    var key := field + "." + sub;
    assert key[|field|] == '.';
    DottedKeyIsNotBrandColors(key, |field|);
    OnlyBrandColorsMapsToAll(key);
  }

  /** Since the only key mapped to "ALL" is `brand_colors` and a sub-field key always
      has a dot, the whole site is affected exactly when brand colours changed. */
  lemma AllSectionsIffBrandColors(field: string, changedSubfields: Option<seq<string>>)
    ensures AffectedSections(field, changedSubfields) == ["ALL"] <==> field == "brand_colors"
  {
    var c := Contributions(field, changedSubfields);
    var subSections := if changedSubfields.Some? then SubfieldSections(field, changedSubfields.value) else [];
    assert c == SectionsOf(field) + subSections;
    if changedSubfields.Some? {
      SubfieldSectionsIff(field, changedSubfields.value, "ALL");
      forall i | 0 <= i < |changedSubfields.value|
        ensures "ALL" !in SectionsOf(field + "." + changedSubfields.value[i])
      {
        SubfieldKeyNeverAll(field, changedSubfields.value[i]);
      }
    }
    assert "ALL" !in subSections;
    if field != "brand_colors" {
      if "ALL" in SectionsOf(field) {
        OnlyBrandColorsMapsToAll(field);
      }
      assert "ALL" !in c;
      assert "ALL" in ["ALL"];
    } else {
      assert SectionsOf(field) == ["ALL"];
      assert "ALL" in c;
    }
  }

  /** Apart from "ALL", a section is affected exactly when the field or one of the
      changed sub-fields maps to it, and each section is listed once. */
  lemma AffectedSectionsIff(field: string, subs: seq<string>, s: string)
    requires field != "brand_colors"
    ensures NoDup(AffectedSections(field, Some(subs)))
    ensures s in AffectedSections(field, Some(subs)) <==>
      s in SectionsOf(field) || exists i | 0 <= i < |subs| :: s in SectionsOf(field + "." + subs[i])
  {
    AllSectionsIffBrandColors(field, Some(subs));
    SubfieldSectionsIff(field, subs, s);
    SubfieldSectionsIff(field, subs, "ALL");
  }

  /** Changing the problem and the solution of the canvas touches the hero, about and
      features sections. */
  lemma AffectedSectionsExample(field: string, subs: seq<string>)
    requires field == "business_canvas" && subs == ["problem", "solution"]
    ensures AffectedSections(field, Some(subs)) == ["hero", "about", "features"]
  {
    CanvasContributions(field, subs);
    DedupExample(["hero", "about"] + ["features", "about"]);
  }

  lemma CanvasContributions(field: string, subs: seq<string>)
    requires field == "business_canvas" && subs == ["problem", "solution"]
    ensures Contributions(field, Some(subs)) == ["hero", "about"] + ["features", "about"]
  {
    CanvasHasNoOwnSections(field);
    ProblemSections(field, subs[0]);
    SolutionSections(field, subs[1]);
    SubfieldSectionsSnoc(field, subs, 0);
    SubfieldSectionsSnoc(field, subs, 1);
    assert subs[..0] == [] && subs[..2] == subs;
  }

  lemma DedupExample(c: seq<string>)
    requires c == ["hero", "about"] + ["features", "about"]
    ensures "ALL" !in c && Dedup(c) == ["hero", "about", "features"]
  {
    DedupRepeatedSecond("hero", "about", "features");
  }

  lemma DedupRepeatedSecond(a: string, b: string, d: string)
    requires a != b && b != d && a != d
    ensures Dedup([a, b] + [d, b]) == [a, b, d]
  {
    var s := [a, b, d];
    assert NoDup(s);
    DedupOfNoDup(s);
    DedupSnoc(s, b);
    assert s + [b] == [a, b] + [d, b];
  }

  lemma {:induction false} SectionLookupMissing(key: string, entries: seq<SectionEntry>)
    requires forall i | 0 <= i < |entries| :: entries[i].key != key
    ensures SectionLookup(key, entries) == None
  {
    if |entries| > 0 {
      SectionLookupMissing(key, entries[1..]);
    }
  }

  lemma CanvasHasNoOwnSections(field: string)
    requires field == "business_canvas"
    ensures SectionsOf(field) == []
  {
    assert forall i | 0 <= i < |SectionEntries| :: |SectionEntries[i].key| != |field| || SectionEntries[i].key[0] != field[0];
    SectionLookupMissing(field, SectionEntries);
  }

  lemma ProblemSections(field: string, sub: string)
    requires field == "business_canvas" && sub == "problem"
    ensures SectionsOf(field + "." + sub) == ["hero", "about"]
  {
    var key := field + "." + sub;
    assert |key| == 23;
    assert forall i | 0 <= i < 2 :: |SectionEntries[i].key| != 23;
    SectionLookupSkips(key, SectionEntries, 2);
    assert SectionEntries[2].key == key;
  }

  lemma SolutionSections(field: string, sub: string)
    requires field == "business_canvas" && sub == "solution"
    ensures SectionsOf(field + "." + sub) == ["features", "about"]
  {
    var key := field + "." + sub;
    assert |key| == 24;
    assert forall i | 0 <= i < 3 :: |SectionEntries[i].key| != 24;
    SectionLookupSkips(key, SectionEntries, 3);
    assert SectionEntries[3].key == key;
  }

  lemma SubfieldSectionsSnoc(field: string, subs: seq<string>, i: int)
    requires 0 <= i < |subs|
    ensures SubfieldSections(field, subs[..i + 1]) ==
      SubfieldSections(field, subs[..i]) + SectionsOf(field + "." + subs[i])
  {
    assert subs[..i + 1][..i] == subs[..i];
  }

  /** Adds each of `xs` to an insertion-ordered set (`xs.forEach(s => set.add(s))`). */
  method AddEach(acc: seq<string>, ghost pre: seq<string>, xs: seq<string>) returns (r: seq<string>)
    requires acc == Dedup(pre)
    ensures r == Dedup(pre + xs)
  {
    r := acc;
    var i := 0;
    assert pre + xs[..0] == pre;
    while i < |xs|
      invariant 0 <= i <= |xs|
      invariant r == Dedup(pre + xs[..i])
    {
      DedupSnoc(pre + xs[..i], xs[i]);
      assert pre + xs[..i + 1] == pre + xs[..i] + [xs[i]];
      if xs[i] !in r {
        r := r + [xs[i]];
      }
      i := i + 1;
    }
    assert xs[..i] == xs;
  }

  /** Adds the sections `CHANGE_TO_SECTIONS` maps `key` to, if any. */
  method AddSectionsOf(acc: seq<string>, ghost added: seq<string>, key: string)
    returns (r: seq<string>, ghost now: seq<string>)
    requires acc == Dedup(added)
    ensures now == added + SectionsOf(key) && r == Dedup(now)
  {
    var sections := ChangeToSections(key);
    if sections.Some? {
      r := AddEach(acc, added, sections.value);
      now := added + sections.value;
    } else {
      r, now := acc, added;
      assert added + [] == added;
    }
  }

  /** The `changedSubfields.forEach` loop of `getAffectedSections`. */
  method AddSubfieldSections(acc: seq<string>, ghost added: seq<string>, field: string, subs: seq<string>)
    returns (r: seq<string>, ghost now: seq<string>)
    requires acc == Dedup(added)
    ensures now == added + SubfieldSections(field, subs) && r == Dedup(now)
  {
    r, now := acc, added;
    var i := 0;
    while i < |subs|
      invariant 0 <= i <= |subs|
      invariant now == added + SubfieldSections(field, subs[..i])
      invariant r == Dedup(now)
    {
      var key := field + "." + subs[i];
      SubfieldSectionsStep(added, field, subs, i, now);
      r, now := AddSectionsOf(r, now, key);
      i := i + 1;
    }
    assert subs[..i] == subs;
  }

  lemma SubfieldSectionsStep(added: seq<string>, field: string, subs: seq<string>, i: int, now: seq<string>)
    requires 0 <= i < |subs| && now == added + SubfieldSections(field, subs[..i])
    ensures now + SectionsOf(field + "." + subs[i]) == added + SubfieldSections(field, subs[..i + 1])
  {
    SubfieldSectionsSnoc(field, subs, i);
  }

  /** `getAffectedSections`. */
  method GetAffectedSections(changedField: string, changedSubfields: Option<seq<string>>)
    returns (sections: seq<string>)
    ensures sections == AffectedSections(changedField, changedSubfields)
  {
    var acc;
    ghost var added;
    acc, added := AddSectionsOf([], [], changedField);
    if changedSubfields.Some? {
      acc, added := AddSubfieldSections(acc, added, changedField, changedSubfields.value);
    } else {
      assert added + [] == added;
    }
    AffectedFromCollected(changedField, changedSubfields, added, acc);
    if "ALL" in acc {
      return ["ALL"];
    }
    return acc;
  }

  lemma AffectedFromCollected(field: string, changedSubfields: Option<seq<string>>,
                              added: seq<string>, acc: seq<string>)
    requires added == SectionsOf(field) +
      (if changedSubfields.Some? then SubfieldSections(field, changedSubfields.value) else [])
    requires acc == Dedup(added)
    ensures AffectedSections(field, changedSubfields) == if "ALL" in acc then ["ALL"] else acc
  {
  }

  // ------------------------------------------------------------------
  // Integration dependencies (graph.ts:284-325)
  // ------------------------------------------------------------------

  datatype IntegrationEntry = IntegrationEntry(pattern: string, dependents: seq<Field>)

  /** `INTEGRATION_DEPENDENCIES`, in declaration order. */
  const IntegrationEntries: seq<IntegrationEntry> := [
    IntegrationEntry("integrations.stripe.status", [CustomerJourney, AutomationFlows]),
    IntegrationEntry("integrations.calcom.status", [WebsiteStructure, CustomerJourney]),
    IntegrationEntry("offerings.*.price", [WebsiteStructure]),
    IntegrationEntry("offerings.*.name", [WebsiteStructure]),
    IntegrationEntry("customers.count", []),
    IntegrationEntry("bookings.availability", [WebsiteStructure]),
    IntegrationEntry("crm.segments", [AutomationFlows, CustomerJourney]),
    IntegrationEntry("crm.deals.stage", [])]

  /** `INTEGRATION_DEPENDENCIES[path]`. */
  function IntegrationLookup(path: string, entries: seq<IntegrationEntry>): Option<seq<Field>> {
    if |entries| == 0 then None
    else if entries[0].pattern == path then Some(entries[0].dependents)
    else IntegrationLookup(path, entries[1..])
  }

  /** One element of the regular expression built from a wildcard pattern. */
  datatype Token = Lit(c: char) | AnyChar | NonDotPlus

  /** Line terminators, which the regular-expression `.` does not match. */
  predicate IsLineTerminator(c: char) {
    c == '\n' || c == '\r' || c == '\U{2028}' || c == '\U{2029}'
  }

  /** `^tokens$` matches the whole of `s`. */
  predicate Matches(tokens: seq<Token>, s: string)
    decreases |tokens|, |s|, 1
  {
    if |tokens| == 0 then |s| == 0
    else match tokens[0]
      case Lit(c) => |s| > 0 && s[0] == c && Matches(tokens[1..], s[1..])
      case AnyChar => |s| > 0 && !IsLineTerminator(s[0]) && Matches(tokens[1..], s[1..])
      case NonDotPlus => MatchesRun(tokens[1..], s)
  }

  /** `[^.]+` followed by `rest` matches `s`. */
  predicate MatchesRun(rest: seq<Token>, s: string)
    decreases |rest| + 1, |s|, 0
  {
    |s| > 0 && s[0] != '.' && (Matches(rest, s[1..]) || MatchesRun(rest, s[1..]))
  }

  /** Pattern text outside the wildcard, one token per character; `dotIsLiteral`
      decides whether a '.' stands for itself or for the regular-expression `.`. */
  function LiteralTokens(text: string, dotIsLiteral: bool): (r: seq<Token>)
    ensures |r| == |text|
  {
    if |text| == 0 then []
    else
      var t := if text[0] == '.' && !dotIsLiteral then AnyChar else Lit(text[0]);
      [t] + LiteralTokens(text[1..], dotIsLiteral)
  }

  /** Position of the first '*' in the pattern. */
  function StarIndex(p: string): (i: nat)
    ensures i <= |p|
    ensures i < |p| ==> p[i] == '*'
    ensures forall j | 0 <= j < i :: p[j] != '*'
  {
    if |p| == 0 then 0 else if p[0] == '*' then 0 else 1 + StarIndex(p[1..])
  }

  /** `new RegExp('^' + pattern.replace('*', '[^.]+') + '$')` for the table's patterns,
      which hold one '*' and otherwise only letters, '_' and '.'. */
  function Compile(p: string, dotIsLiteral: bool): seq<Token> {
    var k := StarIndex(p);
    if k == |p| then LiteralTokens(p, dotIsLiteral)
    else LiteralTokens(p[..k], dotIsLiteral) + [NonDotPlus] + LiteralTokens(p[k + 1..], dotIsLiteral)
  }

  /** The wildcard test as written: the pattern's dots are left unescaped. */
  predicate PatternMatchesAsWritten(p: string, path: string) {
    Matches(Compile(p, false), path)
  }

  /** The wildcard test with the pattern's dots matching only a dot. */
  predicate PatternMatches(p: string, path: string) {
    Matches(Compile(p, true), path)
  }

  /** A pattern with one '*' compiles to its prefix, the wildcard and its suffix. */
  lemma CompileSplit(prefix: string, suffix: string, dotIsLiteral: bool)
    requires '*' !in prefix
    ensures Compile(prefix + "*" + suffix, dotIsLiteral) ==
      LiteralTokens(prefix, dotIsLiteral) + [NonDotPlus] + LiteralTokens(suffix, dotIsLiteral)
  {
    var p := prefix + "*" + suffix;
    assert p[|prefix|] == '*';
    assert forall j | 0 <= j < |prefix| :: p[j] == prefix[j];
    StarIndexAt(p, |prefix|);
    assert p[..|prefix|] == prefix && p[|prefix| + 1..] == suffix;
  }

  lemma {:induction false} StarIndexAt(p: string, i: nat)
    requires i < |p| && p[i] == '*'
    requires forall j | 0 <= j < i :: p[j] != '*'
    ensures StarIndex(p) == i
  {
    if i > 0 {
      StarIndexAt(p[1..], i - 1);
    }
  }

  /** Literal tokens followed by `rest` match `s` exactly when `s` starts with the
      text and `rest` matches what follows. */
  lemma {:induction false} LiteralTokensMatch(text: string, rest: seq<Token>, s: string)
    ensures Matches(LiteralTokens(text, true) + rest, s) <==>
      text <= s && Matches(rest, s[|text|..])
  {
    if |text| > 0 {
      var t := LiteralTokens(text, true) + rest;
      assert t[0] == Lit(text[0]);
      assert t[1..] == LiteralTokens(text[1..], true) + rest;
      if |s| > 0 && s[0] == text[0] {
        LiteralTokensMatch(text[1..], rest, s[1..]);
        if text[1..] <= s[1..] {
          assert s[1..][|text| - 1..] == s[|text|..];
        }
        assert text <= s <==> text[1..] <= s[1..];
      }
    } else {
      assert LiteralTokens(text, true) + rest == rest;
    }
  }

  /** `s` splits after its first `k` characters, which hold no dot, into a run the
      wildcard matches and the suffix. */
  predicate RunSplit(s: string, suffix: string, k: int) {
    1 <= k <= |s| && '.' !in s[..k] && s[k..] == suffix
  }

  /** `[^.]+` then a literal suffix matches exactly a non-empty dot-free run followed
      by that suffix. */
  lemma {:induction false} RunThenSuffix(suffix: string, s: string)
    ensures MatchesRun(LiteralTokens(suffix, true), s) <==> exists k :: RunSplit(s, suffix, k)
  {
    var rest := LiteralTokens(suffix, true);
    if |s| > 0 && s[0] != '.' {
      LiteralTokensMatch(suffix, [], s[1..]);
      assert rest + [] == rest;
      RunThenSuffix(suffix, s[1..]);
      RunSplitShift(s, suffix);
    }
  }

  /** A dot-free run of `s` either ends after its first character or continues as a
      run of `s[1..]`. */
  lemma RunSplitShift(s: string, suffix: string)
    requires |s| > 0 && s[0] != '.'
    ensures (exists k :: RunSplit(s, suffix, k)) <==>
      s[1..] == suffix || exists k :: RunSplit(s[1..], suffix, k)
  {
    if s[1..] == suffix {
      assert s[..1] == [s[0]];
      assert RunSplit(s, suffix, 1);
    }
    if k :| RunSplit(s[1..], suffix, k) {
      assert s[..k + 1] == [s[0]] + s[1..][..k];
      assert RunSplit(s, suffix, k + 1);
    }
    if k :| RunSplit(s, suffix, k) {
      if k > 1 {
        assert s[1..][..k - 1] == s[1..k];
        assert RunSplit(s[1..], suffix, k - 1);
      }
    }
  }

  /** With literal dots, a wildcard pattern matches exactly the paths made of its
      prefix, one non-empty segment without dots, and its suffix. */
  lemma PatternMatchesIff(prefix: string, suffix: string, path: string)
    requires '*' !in prefix
    ensures PatternMatches(prefix + "*" + suffix, path) <==>
      prefix <= path && exists k :: RunSplit(path[|prefix|..], suffix, k)
  {
    CompileSplit(prefix, suffix, true);
    var rest := [NonDotPlus] + LiteralTokens(suffix, true);
    assert LiteralTokens(prefix, true) + [NonDotPlus] + LiteralTokens(suffix, true) ==
      LiteralTokens(prefix, true) + rest;
    LiteralTokensMatch(prefix, rest, path);
    if prefix <= path {
      RunThenSuffix(suffix, path[|prefix|..]);
      assert rest[1..] == LiteralTokens(suffix, true);
    }
  }

  /** As written, a pattern dot accepts any character but a line terminator. */
  lemma {:induction false} AsWrittenLiteralMatch(text: string, rest: seq<Token>, s: string)
    requires |text| <= |s|
    requires forall i | 0 <= i < |text| ::
      if text[i] == '.' then !IsLineTerminator(s[i]) else s[i] == text[i]
    requires Matches(rest, s[|text|..])
    ensures Matches(LiteralTokens(text, false) + rest, s)
  {
    if |text| > 0 {
      var t := LiteralTokens(text, false) + rest;
      assert t[1..] == LiteralTokens(text[1..], false) + rest;
      assert s[1..][|text| - 1..] == s[|text|..];
      AsWrittenLiteralMatch(text[1..], rest, s[1..]);
    } else {
      assert LiteralTokens(text, false) + rest == rest;
    }
  }

  /** A dot-free pattern position accepted literally is also accepted by the regular-
      expression `.`, so the as-written test accepts every path the intended one does. */
  lemma {:induction false} MatchesWithLiteralDots(pt: seq<Token>, aw: seq<Token>, s: string)
    requires |pt| == |aw|
    requires forall i | 0 <= i < |pt| :: pt[i] == aw[i] || (pt[i] == Lit('.') && aw[i] == AnyChar)
    requires Matches(pt, s)
    ensures Matches(aw, s)
    decreases |pt|, |s|, 1
  {
    if |pt| > 0 {
      match pt[0]
      case Lit(c) =>
        MatchesWithLiteralDots(pt[1..], aw[1..], s[1..]);
      case AnyChar =>
        MatchesWithLiteralDots(pt[1..], aw[1..], s[1..]);
      case NonDotPlus =>
        RunWithLiteralDots(pt[1..], aw[1..], s);
    }
  }

  lemma {:induction false} RunWithLiteralDots(pt: seq<Token>, aw: seq<Token>, s: string)
    requires |pt| == |aw|
    requires forall i | 0 <= i < |pt| :: pt[i] == aw[i] || (pt[i] == Lit('.') && aw[i] == AnyChar)
    requires MatchesRun(pt, s)
    ensures MatchesRun(aw, s)
    decreases |pt| + 1, |s|, 0
  {
    if Matches(pt, s[1..]) {
      MatchesWithLiteralDots(pt, aw, s[1..]);
    } else {
      RunWithLiteralDots(pt, aw, s[1..]);
    }
  }

  lemma {:induction false} LiteralTokensRelated(text: string, i: int)
    requires 0 <= i < |text|
    ensures LiteralTokens(text, true)[i] == LiteralTokens(text, false)[i] ||
      (LiteralTokens(text, true)[i] == Lit('.') && LiteralTokens(text, false)[i] == AnyChar)
  {
    if i > 0 {
      LiteralTokensRelated(text[1..], i - 1);
    }
  }

  /** Every path the intended test accepts, the as-written test accepts too. */
  lemma PatternMatchesImpliesAsWritten(p: string, path: string)
    requires PatternMatches(p, path)
    ensures PatternMatchesAsWritten(p, path)
  {
    var pt, aw := Compile(p, true), Compile(p, false);
    var k := StarIndex(p);
    forall i | 0 <= i < |pt| ensures pt[i] == aw[i] || (pt[i] == Lit('.') && aw[i] == AnyChar) {
      if k == |p| {
        LiteralTokensRelated(p, i);
      } else if i < k {
        LiteralTokensRelated(p[..k], i);
      } else if i > k {
        LiteralTokensRelated(p[k + 1..], i - k - 1);
      }
    }
    MatchesWithLiteralDots(pt, aw, path);
  }

  /** The unescaped dots let a path with no dots at all through: "offerings_1_price"
      matches "offerings.*.price" as written, but not with literal dots. */
  lemma UnescapedDotFinding(p: string, bad: string)
    requires p == "offerings.*.price" && bad == "offerings_1_price"
    ensures PatternMatchesAsWritten(p, bad)
    ensures !PatternMatches(p, bad)
  {
    OfferingsPattern(p, "offerings.", ".price");
    UndottedPathAsWritten(p, "offerings.", ".price", bad);
    UndottedPathRejected(p, "offerings.", ".price", bad);
  }

  lemma OfferingsPattern(p: string, pre: string, suf: string)
    requires p == "offerings.*.price" && pre == "offerings." && suf == ".price"
    ensures p == pre + "*" + suf && '*' !in pre
    ensures Compile(p, false) == LiteralTokens(pre, false) + [NonDotPlus] + LiteralTokens(suf, false)
  {
    assert p == pre + "*" + suf;
    CompileSplit(pre, suf, false);
  }

  lemma UndottedPathAsWritten(p: string, pre: string, suf: string, bad: string)
    requires p == pre + "*" + suf && pre == "offerings." && suf == ".price"
    requires Compile(p, false) == LiteralTokens(pre, false) + [NonDotPlus] + LiteralTokens(suf, false)
    requires bad == "offerings_1_price"
    ensures PatternMatchesAsWritten(p, bad)
  {
    var x, y := "offerings_", "_price";
    assert bad == x + ("1" + y);
    OfferingsAsWritten(pre, suf, x, y);
  }

  lemma UndottedPathRejected(p: string, pre: string, suf: string, bad: string)
    requires p == pre + "*" + suf && '*' !in pre && pre == "offerings."
    requires bad == "offerings_1_price"
    ensures !PatternMatches(p, bad)
  {
    PatternMatchesIff(pre, suf, bad);
    assert bad[9] != pre[9];
  }

  lemma RunOneChar(rest: seq<Token>, c: char, y: string)
    requires c != '.' && Matches(rest, y)
    ensures MatchesRun(rest, [c] + y)
  {
    assert ([c] + y)[1..] == y;
  }

  lemma AsWrittenConcat(text: string, rest: seq<Token>, x: string, y: string)
    requires |x| == |text|
    requires forall i | 0 <= i < |text| ::
      if text[i] == '.' then !IsLineTerminator(x[i]) else x[i] == text[i]
    requires Matches(rest, y)
    ensures Matches(LiteralTokens(text, false) + rest, x + y)
  {
    assert (x + y)[|text|..] == y;
    AsWrittenLiteralMatch(text, rest, x + y);
  }

  lemma OfferingsAsWritten(pre: string, suf: string, x: string, y: string)
    requires pre == "offerings." && suf == ".price" && x == "offerings_" && y == "_price"
    ensures Matches(LiteralTokens(pre, false) + [NonDotPlus] + LiteralTokens(suf, false), x + ("1" + y))
  {
    var after := LiteralTokens(suf, false);
    AsWrittenConcat(suf, [], y, []);
    assert after + [] == after && y + [] == y;
    RunOneChar(after, '1', y);
    assert "1" + y == ['1'] + y;
    AsWrittenConcat(pre, [NonDotPlus] + after, x, "1" + y);
    assert LiteralTokens(pre, false) + [NonDotPlus] + after ==
      LiteralTokens(pre, false) + ([NonDotPlus] + after);
  }

  /** A path made of a pattern's prefix, a non-empty dot-free segment and its suffix
      matches the pattern. */
  lemma OfferingSegment(prefix: string, suffix: string, path: string, segment: string)
    requires '*' !in prefix
    requires |segment| > 0 && '.' !in segment
    requires path == prefix + segment + suffix
    ensures PatternMatches(prefix + "*" + suffix, path)
  {
    PatternMatchesIff(prefix, suffix, path);
    var rest := path[|prefix|..];
    assert rest == segment + suffix;
    assert rest[..|segment|] == segment;
    assert RunSplit(rest, suffix, |segment|);
  }

  /** The wildcard test of `getExtendedDependents`: the regular expression as written
      when `dotIsLiteral` is false, the one with the dots escaped when it is true. */
  predicate WildcardMatches(p: string, path: string, dotIsLiteral: bool) {
    if dotIsLiteral then PatternMatches(p, path) else PatternMatchesAsWritten(p, path)
  }

  /** The first wildcard entry whose pattern matches the path. */
  function FirstWildcard(path: string, entries: seq<IntegrationEntry>, dotIsLiteral: bool): Option<seq<Field>> {
    if |entries| == 0 then None
    else if '*' in entries[0].pattern && WildcardMatches(entries[0].pattern, path, dotIsLiteral) then
      Some(entries[0].dependents)
    else FirstWildcard(path, entries[1..], dotIsLiteral)
  }

  /** What `getExtendedDependents` returns for a path that is not a field name: the
      exact entry, else the first matching wildcard entry, else nothing.  The source's
      lookup is the one with `dotIsLiteral` false. */
  function IntegrationDependents(path: string, dotIsLiteral: bool): seq<Field> {
    var exact := IntegrationLookup(path, IntegrationEntries);
    if exact.Some? then exact.value
    else
      var wild := FirstWildcard(path, IntegrationEntries, dotIsLiteral);
      if wild.Some? then wild.value else []
  }

  lemma {:induction false} IntegrationLookupMissing(path: string, entries: seq<IntegrationEntry>)
    requires forall i | 0 <= i < |entries| :: entries[i].pattern != path
    ensures IntegrationLookup(path, entries) == None
  {
    if |entries| > 0 {
      IntegrationLookupMissing(path, entries[1..]);
    }
  }

  /** A CRM segment change reaches the flows and then the journey. */
  lemma CrmSegmentsExample(path: string)
    requires path == "crm.segments"
    ensures IntegrationDependents(path, false) == [AutomationFlows, CustomerJourney]
    ensures IntegrationDependents(path, true) == [AutomationFlows, CustomerJourney]
  {
    var e := IntegrationEntries;
    assert e[..6] == e[..6];
    assert forall i | 0 <= i < 6 :: e[i].pattern[0] != path[0] || |e[i].pattern| != |path|;
    assert IntegrationLookup(path, e[6..]) == Some([AutomationFlows, CustomerJourney]);
    assert IntegrationLookup(path, e) == IntegrationLookup(path, e[6..]) by {
      LookupSkips(path, e, 6);
    }
  }

  lemma {:induction false} LookupSkips(path: string, entries: seq<IntegrationEntry>, n: nat)
    requires n <= |entries|
    requires forall i | 0 <= i < n :: entries[i].pattern != path
    ensures IntegrationLookup(path, entries) == IntegrationLookup(path, entries[n..])
  {
    if n > 0 {
      LookupSkips(path, entries[1..], n - 1);
      assert entries[1..][n - 1..] == entries[n..];
    }
  }

  /** Any offering's price, whatever its identifier, reaches the website structure,
      with the dots escaped or not. */
  lemma OfferingPriceExample(path: string, id: string)
    requires |id| > 0 && '.' !in id
    requires path == "offerings." + id + ".price"
    ensures IntegrationDependents(path, true) == [WebsiteStructure]
    ensures IntegrationDependents(path, false) == [WebsiteStructure]
  {
    OfferingPathNotOther(path, id);
    if IntegrationEntries[2].pattern == path {
      LookupSkips(path, IntegrationEntries, 2);
    } else {
      IntegrationLookupMissing(path, IntegrationEntries);
      OfferingWildcard(path, id);
      EscapingOnlyDropsSpuriousHits(path);
    }
  }

  lemma OfferingPathNotOther(path: string, id: string)
    requires path == "offerings." + id + ".price"
    ensures forall i | 0 <= i < |IntegrationEntries| && i != 2 :: IntegrationEntries[i].pattern != path
  {
    var e := IntegrationEntries;
    assert path[0] == 'o';
    assert forall i | 0 <= i < |e| && i != 2 && i != 3 :: e[i].pattern[0] != 'o';
    assert path[|path| - 2] == 'c';
    assert e[3].pattern[|e[3].pattern| - 2] == 'm';
  }

  lemma OfferingWildcard(path: string, id: string)
    requires |id| > 0 && '.' !in id
    requires path == "offerings." + id + ".price"
    ensures FirstWildcard(path, IntegrationEntries, true) == Some([WebsiteStructure])
  {
    var e := IntegrationEntries;
    NoStarInStatusPatterns();
    WildcardSkip(path, e, true);
    WildcardSkip(path, e[1..], true);
    assert e[1..][1..] == e[2..];
    OfferingPricePattern(path, id);
    WildcardHit(path, e[2..], true);
  }

  lemma NoStarInStatusPatterns()
    ensures '*' !in IntegrationEntries[0].pattern && '*' !in IntegrationEntries[1].pattern
  {
  }

  lemma NoStarInLaterPatterns()
    ensures forall i | 4 <= i < |IntegrationEntries| :: '*' !in IntegrationEntries[i].pattern
  {
  }

  lemma OfferingPricePattern(path: string, id: string)
    requires |id| > 0 && '.' !in id
    requires path == "offerings." + id + ".price"
    ensures '*' in IntegrationEntries[2].pattern && PatternMatches(IntegrationEntries[2].pattern, path)
  {
    assert IntegrationEntries[2].pattern == "offerings." + "*" + ".price";
    OfferingSegment("offerings.", ".price", path, id);
  }

  lemma WildcardSkip(path: string, entries: seq<IntegrationEntry>, dotIsLiteral: bool)
    requires |entries| > 0
    requires !('*' in entries[0].pattern && WildcardMatches(entries[0].pattern, path, dotIsLiteral))
    ensures FirstWildcard(path, entries, dotIsLiteral) == FirstWildcard(path, entries[1..], dotIsLiteral)
  {
  }

  lemma WildcardHit(path: string, entries: seq<IntegrationEntry>, dotIsLiteral: bool)
    requires |entries| > 0 && '*' in entries[0].pattern
    requires WildcardMatches(entries[0].pattern, path, dotIsLiteral)
    ensures FirstWildcard(path, entries, dotIsLiteral) == Some(entries[0].dependents)
  {
  }

  /** A wildcard entry found with the dots escaped means one is found as written too,
      since the escaped expressions accept fewer paths. */
  lemma {:induction false} EscapedHitAsWritten(path: string, entries: seq<IntegrationEntry>)
    requires FirstWildcard(path, entries, true).Some?
    ensures FirstWildcard(path, entries, false).Some?
  {
    if '*' in entries[0].pattern && PatternMatches(entries[0].pattern, path) {
      PatternMatchesImpliesAsWritten(entries[0].pattern, path);
    } else {
      EscapedHitAsWritten(path, entries[1..]);
    }
  }

  /** When every wildcard entry names the same dependents, any wildcard hit gives them. */
  lemma {:induction false} WildcardHitsAgree(path: string, entries: seq<IntegrationEntry>,
                                            dotIsLiteral: bool, deps: seq<Field>)
    requires forall i | 0 <= i < |entries| && '*' in entries[i].pattern :: entries[i].dependents == deps
    requires FirstWildcard(path, entries, dotIsLiteral).Some?
    ensures FirstWildcard(path, entries, dotIsLiteral) == Some(deps)
  {
    if !('*' in entries[0].pattern && WildcardMatches(entries[0].pattern, path, dotIsLiteral)) {
      WildcardHitsAgree(path, entries[1..], dotIsLiteral, deps);
    }
  }

  /** The table's wildcard entries are the two offering patterns, both of which reach
      the website structure. */
  lemma WildcardEntries()
    ensures forall i | 0 <= i < |IntegrationEntries| && '*' in IntegrationEntries[i].pattern ::
      IntegrationEntries[i].dependents == [WebsiteStructure]
  {
    NoStarInStatusPatterns();
    NoStarInLaterPatterns();
  }

  /** Escaping the dots changes a lookup only by dropping a wildcard hit: the lookup as
      written agrees with the escaped one, or reaches the website structure where the
      escaped one reaches nothing. */
  lemma EscapingOnlyDropsSpuriousHits(path: string)
    ensures IntegrationDependents(path, false) == IntegrationDependents(path, true)
         || (IntegrationDependents(path, true) == [] && IntegrationDependents(path, false) == [WebsiteStructure])
  {
    var e := IntegrationEntries;
    WildcardEntries();
    if FirstWildcard(path, e, true).Some? {
      EscapedHitAsWritten(path, e);
      WildcardHitsAgree(path, e, true, [WebsiteStructure]);
      WildcardHitsAgree(path, e, false, [WebsiteStructure]);
    } else if FirstWildcard(path, e, false).Some? {
      WildcardHitsAgree(path, e, false, [WebsiteStructure]);
    }
  }

  /** A path made of `prefix`, a non-empty dot-free segment and `suffix`. */
  ghost predicate SegmentPath(path: string, prefix: string, suffix: string) {
    prefix <= path && exists k :: RunSplit(path[|prefix|..], suffix, k)
  }

  /** With the dots escaped, a one-wildcard pattern matches exactly its segment paths. */
  lemma PatternSegment(p: string, prefix: string, suffix: string, path: string)
    requires p == prefix + "*" + suffix && '*' !in prefix
    ensures PatternMatches(p, path) <==> SegmentPath(path, prefix, suffix)
  {
    PatternMatchesIff(prefix, suffix, path);
  }

  /** The shape of the integration table: two plain entries, two wildcard entries with
      the same dependents, then plain entries only. */
  lemma TableShape()
    ensures |IntegrationEntries| == 8
    ensures '*' !in IntegrationEntries[0].pattern && '*' !in IntegrationEntries[1].pattern
    ensures '*' in IntegrationEntries[2].pattern && '*' in IntegrationEntries[3].pattern
    ensures IntegrationEntries[2].dependents == [WebsiteStructure]
    ensures IntegrationEntries[3].dependents == [WebsiteStructure]
    ensures forall i | 4 <= i < |IntegrationEntries| :: '*' !in IntegrationEntries[i].pattern
  {
    NoStarInStatusPatterns();
    NoStarInLaterPatterns();
  }

  /** On a table of that shape the wildcard search tries the two wildcard entries. */
  lemma TwoWildcards(path: string, e: seq<IntegrationEntry>, dotIsLiteral: bool, deps: seq<Field>)
    requires |e| >= 4
    requires '*' !in e[0].pattern && '*' !in e[1].pattern
    requires '*' in e[2].pattern && '*' in e[3].pattern
    requires e[2].dependents == deps && e[3].dependents == deps
    requires forall i | 4 <= i < |e| :: '*' !in e[i].pattern
    ensures FirstWildcard(path, e, dotIsLiteral) ==
      if WildcardMatches(e[2].pattern, path, dotIsLiteral) || WildcardMatches(e[3].pattern, path, dotIsLiteral)
      then Some(deps) else None
  {
    WildcardSkip(path, e, dotIsLiteral);
    assert e[1..][1..] == e[2..];
    WildcardSkip(path, e[1..], dotIsLiteral);
    if !WildcardMatches(e[2].pattern, path, dotIsLiteral) {
      assert e[2..][1..] == e[3..];
      WildcardSkip(path, e[2..], dotIsLiteral);
      if !WildcardMatches(e[3].pattern, path, dotIsLiteral) {
        assert e[3..][1..] == e[4..];
        WildcardSkip(path, e[3..], dotIsLiteral);
        NoWildcardIn(path, e[4..], dotIsLiteral);
      }
    }
  }

  lemma {:induction false} NoWildcardIn(path: string, entries: seq<IntegrationEntry>, dotIsLiteral: bool)
    requires forall i | 0 <= i < |entries| :: '*' !in entries[i].pattern
    ensures FirstWildcard(path, entries, dotIsLiteral) == None
  {
    if |entries| > 0 {
      NoWildcardIn(path, entries[1..], dotIsLiteral);
    }
  }

  lemma OfferingPatterns()
    ensures IntegrationEntries[2].pattern == "offerings." + "*" + ".price"
    ensures IntegrationEntries[3].pattern == "offerings." + "*" + ".name"
  {
  }

  /** The escaped search on a table of that shape, in terms of segment paths. */
  lemma EscapedTwoWildcards(path: string, e: seq<IntegrationEntry>, deps: seq<Field>,
                            pre: string, suf2: string, suf3: string)
    requires |e| >= 4
    requires '*' !in e[0].pattern && '*' !in e[1].pattern
    requires e[2].pattern == pre + "*" + suf2 && e[3].pattern == pre + "*" + suf3 && '*' !in pre
    requires e[2].dependents == deps && e[3].dependents == deps
    requires forall i | 4 <= i < |e| :: '*' !in e[i].pattern
    ensures FirstWildcard(path, e, true) ==
      if SegmentPath(path, pre, suf2) || SegmentPath(path, pre, suf3) then Some(deps) else None
  {
    assert e[2].pattern[|pre|] == '*' && e[3].pattern[|pre|] == '*';
    TwoWildcards(path, e, true, deps);
    PatternSegment(e[2].pattern, pre, suf2, path);
    PatternSegment(e[3].pattern, pre, suf3, path);
  }

  /** With the dots escaped, a path without an exact entry reaches the website structure
      exactly when it names one offering's price or name, and reaches nothing otherwise. */
  lemma EscapedWildcardIff(path: string)
    requires IntegrationLookup(path, IntegrationEntries) == None
    ensures IntegrationDependents(path, true) ==
      if SegmentPath(path, "offerings.", ".price") || SegmentPath(path, "offerings.", ".name")
      then [WebsiteStructure] else []
  {
    TableShape();
    OfferingPatterns();
    EscapedTwoWildcards(path, IntegrationEntries, [WebsiteStructure], "offerings.", ".price", ".name");
  }

  /** `offerings_1_price` is neither a field name nor a key of the table. */
  lemma FindingPathUnlisted(bad: string)
    requires bad == "offerings_1_price"
    ensures ParseField(bad) == None
    ensures IntegrationLookup(bad, IntegrationEntries) == None
  {
    var e := IntegrationEntries;
    assert forall i | 0 <= i < |e| :: e[i].pattern[9] != bad[9];
    IntegrationLookupMissing(bad, e);
  }

  /** A path the first wildcard entry accepts as written reaches that entry's dependents. */
  lemma AsWrittenFirstHit(path: string, e: seq<IntegrationEntry>, deps: seq<Field>)
    requires |e| >= 4
    requires '*' !in e[0].pattern && '*' !in e[1].pattern
    requires '*' in e[2].pattern && '*' in e[3].pattern
    requires e[2].dependents == deps && e[3].dependents == deps
    requires forall i | 4 <= i < |e| :: '*' !in e[i].pattern
    requires PatternMatchesAsWritten(e[2].pattern, path)
    ensures FirstWildcard(path, e, false) == Some(deps)
  {
    TwoWildcards(path, e, false, deps);
  }

  lemma FindingAsWritten(bad: string)
    requires bad == "offerings_1_price"
    requires IntegrationLookup(bad, IntegrationEntries) == None
    ensures IntegrationDependents(bad, false) == [WebsiteStructure]
  {
    TableShape();
    OfferingPatterns();
    UnescapedDotFinding(IntegrationEntries[2].pattern, bad);
    AsWrittenFirstHit(bad, IntegrationEntries, [WebsiteStructure]);
  }

  lemma FindingEscaped(bad: string, pre: string)
    requires bad == "offerings_1_price" && pre == "offerings."
    requires IntegrationLookup(bad, IntegrationEntries) == None
    ensures IntegrationDependents(bad, true) == []
  {
    EscapedWildcardIff(bad);
    assert bad[9] != pre[9];
    assert !(pre <= bad);
  }

  /** `getExtendedDependents("offerings_1_price")`: no field and no exact entry, yet the
      expression as written reaches the website structure; with the dots escaped the
      path reaches nothing. */
  lemma ExtendedDependentsFinding(bad: string)
    requires bad == "offerings_1_price"
    ensures ParseField(bad) == None
    ensures IntegrationDependents(bad, false) == [WebsiteStructure]
    ensures IntegrationDependents(bad, true) == []
  {
    FindingPathUnlisted(bad);
    FindingAsWritten(bad);
    FindingEscaped(bad, "offerings.");
  }

  /** `getExtendedDependents`: the dependents of a field name, or of an integration or
      module path through the table, with the wildcard expressions as written. */
  method GetExtendedDependents(path: string) returns (deps: seq<Field>)
    ensures ParseField(path).Some? ==> NoDup(deps) && Elems(deps) == Down(ParseField(path).value)
    ensures ParseField(path).None? ==> deps == IntegrationDependents(path, false)
  {
    var field := ParseField(path);
    if field.Some? {
      deps := GetDownstreamDependents(field.value);
      return;
    }
    var exact := IntegrationLookup(path, IntegrationEntries);
    if exact.Some? {
      return exact.value;
    }
    var i := 0;
    while i < |IntegrationEntries|
      invariant 0 <= i <= |IntegrationEntries|
      invariant FirstWildcard(path, IntegrationEntries, false) == FirstWildcard(path, IntegrationEntries[i..], false)
    {
      var entry := IntegrationEntries[i];
      assert IntegrationEntries[i..][1..] == IntegrationEntries[i + 1..];
      if '*' in entry.pattern && PatternMatchesAsWritten(entry.pattern, path) {
        return entry.dependents;
      }
      i := i + 1;
    }
    return [];
  }
}
