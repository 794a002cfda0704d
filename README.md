# Regeneration core of an AI website builder

The system builds a business, and then its website, from one prompt. Five agents run in a
fixed order: scout, strategist, artist, architect, connector. Each agent writes some of
the business's generated fields: market research, name, tagline, business canvas, brand
colours and voice, logo, website structure and code, customer journey, automation flows.
When a field is edited later, only the fields that depend on it are regenerated.

This project models the engine behind that, and proves properties of the model:

- **Dependency graph** (`graph.dfy`): the constant tables of field dependencies, agent
  outputs, agent order, sub-field fan-out, field-to-section hints and integration paths.
  It also has the queries over them: transitive dependents, producer of a field, agents
  to run, affected sections with the `ALL` collapse, readiness to regenerate, and
  extended dependents with wildcard paths.
- **Change detector** (`change_detector.dfy`): the key-sorted canonical form behind the
  content hash, and semantic comparison (trimmed, lower-cased strings; arrays in order;
  objects by hash). It also covers sub-field diffing, change classification, the
  significance allow-list and batch diffing.
- **Store** (`store.dfy`): the rows of one business in one in-memory class. These are the
  `businesses` row, the `field_versions` rows (one per field) and the `agent_runs` rows.
  An event log class collects what is passed to `emit`.
- **Staleness engine** (`staleness.dfy`): marking dependents stale after an edit,
  clearing staleness after regeneration, the queries on version rows, the affected
  website sections and the initialisation of version rows.
- **Pipelines** (`pipeline.dfy`, `orchestrator.dfy`, `partial_orchestrator.dfy`):
  - the full pipeline and the partial pipeline, as imperative methods over the store
    and the event log;
  - each is proved equal to one shared functional definition of a run;
  - lemmas about that definition give order, abort on the first failure, terminal
    status, persisted outputs, agent inputs, events and staleness.
- **Website helpers**:
  - `page_structures.dfy`: page layouts by business type, and keyword classification
    of a prompt;
  - `preview_generator.dfy`: HTML escaping, current page, navigation links, section
    dispatch and the list of pages of the preview;
  - `generator.dfy`: home page, section dispatch and footer of the exported site;
  - `templates.dfy`: the section templates both generators dispatch to.
- Shared helpers: `collections.dfy` (Option, deduplication, filtering, first index),
  `strings.dfy` (the JavaScript `trim`, `toLowerCase`, `includes`, `replace` and `join`
  the core relies on) and `json_values.dfy`.
  - `json_values.dfy` holds the JSON-like values the core passes around. Objects are
    member lists in insertion order. Truthiness and `typeof` are modelled.

Agents are modelled as an oracle parameter. For an agent and its context, the oracle
gives the progress notes the agent emits, then either its result object or the error it
throws. The markup of the templates is a `render` parameter. The document around the
exported site's sections is a `layout` parameter.

## Model

| member | source | states |
|---|---|---|
| Graph.ParseField | src/lib/dependencies/graph.ts:14-38 | a parsed name belongs to the field it names |
| Graph.ParseFieldName | src/lib/dependencies/graph.ts:14-38 | every field's name parses back to that field |
| Graph.FieldNameInjective | src/lib/dependencies/graph.ts:14-38 | two fields with the same name are the same field |
| Graph.AllFieldsComplete | src/lib/dependencies/graph.ts:79-109 | every field is a key of the dependency table |
| Graph.PipelineIndex | src/lib/dependencies/graph.ts:60-66 | every agent has a position in the agent order |
| Graph.Level | src/lib/dependencies/graph.ts:79-109 | every field has a rank of at most five |
| Graph.LevelIncreases | src/lib/dependencies/graph.ts:79-109 | every dependency ranks strictly below its dependent, so the table is acyclic |
| Graph.DownIff | src/lib/dependencies/graph.ts:181-195 | a field is downstream of `f` iff some direct dependent of `f` is it or has it downstream |
| Graph.DownUpToIff | src/lib/dependencies/graph.ts:185-190 | the part of the closure collected from the first `n` table entries is what those entries contribute |
| Graph.DirectDependentIsDownstream | src/lib/dependencies/graph.ts:185-187 | a field that lists `f` as a dependency is downstream of `f` |
| Graph.DownTransitive | src/lib/dependencies/graph.ts:181-195 | downstream of downstream is downstream |
| Graph.DownRaisesLevel | src/lib/dependencies/graph.ts:79-109 | every downstream field ranks strictly above `f` |
| Graph.DownIrreflexive | src/lib/dependencies/graph.ts:79-109 | no field is downstream of itself |
| Graph.DownLeast | src/lib/dependencies/graph.ts:181-195 | the downstream set is the least set that holds the direct dependents and is closed under the dependent relation |
| Graph.EverythingIsDownstreamOfPrompt | src/lib/dependencies/graph.ts:79-109 | every field other than `prompt` is downstream of `prompt` |
| Graph.MarketResearchDownstream | src/lib/dependencies/graph.ts:79-109 | the fields downstream of `market_research` are exactly the ten others besides `prompt` |
| Graph.LeavesHaveNoDependents | src/lib/dependencies/graph.ts:96-108 | `website_code`, `customer_journey` and `automation_flows` have nothing downstream |
| Graph.BrandColorsDownstream | src/lib/dependencies/graph.ts:85-108 | downstream of `brand_colors` are exactly website structure and code, customer journey and automation flows |
| Graph.GetDownstreamDependents | src/lib/dependencies/graph.ts:181-195 | the result has no duplicates and holds exactly the fields downstream of the field |
| Graph.Collect | src/lib/dependencies/graph.ts:184-191 | one `collect` call keeps what was collected before, adds exactly the field's closure, and adds no duplicate |
| Graph.Descend | src/lib/dependencies/graph.ts:185-189 | one iteration of the loop of `collect` adds the contribution of one table entry |
| Graph.Producer | src/lib/dependencies/graph.ts:200-207 | a producer found for a field lists it among its outputs |
| Graph.ProducerIff | src/lib/dependencies/graph.ts:49-55 | an agent is the producer of a field iff it lists that field, so producers are unique; `prompt` has none |
| Graph.GetAgentForField | src/lib/dependencies/graph.ts:200-207 | the search returns the field's producer, or none |
| Graph.AgentsToRunIff | src/lib/dependencies/graph.ts:213-223 | an agent is selected iff it produces one of the fields; the result follows the agent order strictly and has no duplicates |
| Graph.AgentsToRunIgnoresOrder | src/lib/dependencies/graph.ts:213-223 | two field lists with the same members select the same agents |
| Graph.AgentsToRunExample | src/lib/dependencies/graph.ts:213-223 | customer journey and website structure select architect then connector |
| Graph.GetAgentsToRun | src/lib/dependencies/graph.ts:213-223 | the loop collects the producers and returns the agent order filtered by them |
| Graph.GetUpstreamDependencies | src/lib/dependencies/graph.ts:261-263 | every upstream dependency ranks strictly below the field and has it downstream; the list is empty only for `prompt` |
| Graph.CanRegenerate | src/lib/dependencies/graph.ts:268-274 | a field can be regenerated iff none of its upstream dependencies is stale |
| Graph.NoneStaleIff | src/lib/dependencies/graph.ts:273 | the `every` check holds iff no listed dependency is in the stale set |
| Graph.SomeStaleFieldCanRegenerate | src/lib/dependencies/graph.ts:261-274 | every non-empty stale set holds a field that can be regenerated |
| Graph.SubfieldDependenciesAreDownstream | src/lib/dependencies/graph.ts:120-141 | whatever a sub-field key fans out to is downstream of that key's parent field |
| Graph.SubfieldEntriesAreDownstream | src/lib/dependencies/graph.ts:120-141 | every entry's dependents are downstream of the entry's parent field |
| Graph.CanvasDownstream | src/lib/dependencies/graph.ts:122-133 | the canvas sub-field targets are all downstream of `business_canvas` |
| Graph.AllOnlyInBrandColorsEntry | src/lib/dependencies/graph.ts:151-171 | only the `brand_colors` entry of the section table holds `ALL` |
| Graph.OnlyBrandColorsMapsToAll | src/lib/dependencies/graph.ts:151-171 | a key whose sections hold `ALL` is `brand_colors` |
| Graph.SubfieldKeyNeverAll | src/lib/dependencies/graph.ts:243-246 | a `field.subfield` key never maps to `ALL` |
| Graph.SubfieldSectionsIff | src/lib/dependencies/graph.ts:241-248 | a section comes from the sub-field loop iff some changed sub-field's key lists it |
| Graph.AllSectionsIffBrandColors | src/lib/dependencies/graph.ts:229-256 | the result is exactly `["ALL"]` iff the changed field is `brand_colors` |
| Graph.AffectedSectionsIff | src/lib/dependencies/graph.ts:229-256 | otherwise the result has no duplicates and holds exactly the sections of the field's entry and of each `field.subfield` entry |
| Graph.AffectedSectionsExample | src/lib/dependencies/graph.ts:229-256 | canvas changes to `problem` and `solution` affect hero, about, features in that order |
| Graph.CanvasHasNoOwnSections | src/lib/dependencies/graph.ts:151-171 | `business_canvas` itself has no section entry |
| Graph.ProblemSections | src/lib/dependencies/graph.ts:155 | `business_canvas.problem` maps to hero and about |
| Graph.SolutionSections | src/lib/dependencies/graph.ts:156 | `business_canvas.solution` maps to features and about |
| Graph.AddEach | src/lib/dependencies/graph.ts:237 | adding a list to an insertion-ordered set gives the deduplicated concatenation |
| Graph.AddSectionsOf | src/lib/dependencies/graph.ts:236-238 | adding one key's sections extends the set by that entry, or by nothing when the key has none |
| Graph.AddSubfieldSections | src/lib/dependencies/graph.ts:241-248 | the sub-field loop adds the sections of every `field.subfield` key in order |
| Graph.GetAffectedSections | src/lib/dependencies/graph.ts:229-256 | the method returns the affected sections of the field and its changed sub-fields |
| Graph.StarIndex | src/lib/dependencies/graph.ts:317 | the index found is that of the first `*`, the one `String.replace` rewrites |
| Graph.CompileSplit | src/lib/dependencies/graph.ts:317 | a pattern compiles to its prefix, one `[^.]+` token and its suffix |
| Graph.LiteralTokensMatch | src/lib/dependencies/graph.ts:317-318 | literal text, with dots escaped, matches exactly a prefix equal to that text |
| Graph.PatternMatchesIff | src/lib/dependencies/graph.ts:315-321 | with dots escaped, a path matches iff it is the prefix, a non-empty dot-free segment, then the suffix |
| Graph.PatternMatchesImpliesAsWritten | src/lib/dependencies/graph.ts:317-318 | every path the escaped pattern accepts is accepted by the pattern as written too |
| Graph.UnescapedDotFinding | src/lib/dependencies/graph.ts:317-318 | `offerings_1_price` matches `offerings.*.price` as written, but not once the dots are escaped |
| Graph.OfferingSegment | src/lib/dependencies/graph.ts:315-321 | replacing the `*` by any non-empty dot-free segment gives a matching path |
| Graph.CrmSegmentsExample | src/lib/dependencies/graph.ts:309-312 | `crm.segments` returns its exact entry, automation flows then customer journey, whichever wildcard test is used |
| Graph.OfferingPriceExample | src/lib/dependencies/graph.ts:314-321 | `offerings.<id>.price`, with a non-empty dot-free id, returns website structure, with the dots escaped or as written |
| Graph.IntegrationLookupMissing | src/lib/dependencies/graph.ts:310 | a path that is no key of the table has no exact entry |
| Graph.GetExtendedDependents | src/lib/dependencies/graph.ts:303-325 | a field name gives its downstream closure; any other path gives its exact entry, else the first wildcard entry whose expression, dots unescaped as in the source, matches it, else nothing |
| Graph.EscapedHitAsWritten | src/lib/dependencies/graph.ts:315-321 | whenever the search with escaped dots finds a wildcard entry, the search as written finds one too |
| Graph.EscapingOnlyDropsSpuriousHits | src/lib/dependencies/graph.ts:303-325 | the lookup as written equals the escaped one, except that it may reach website structure where the escaped one reaches nothing |
| Graph.EscapedWildcardIff | src/lib/dependencies/graph.ts:314-321 | with the dots escaped, a path without an exact entry reaches website structure iff it is `offerings.`, a non-empty dot-free segment, then `.price` or `.name`, and nothing otherwise |
| Graph.ExtendedDependentsFinding | src/lib/dependencies/graph.ts:303-325 | `offerings_1_price` is no field and no key; as written it returns website structure, with the dots escaped nothing |
| ChangeDetector.Insert | src/lib/dependencies/change-detector.ts:26-27 | inserting a new key into strictly sorted keys keeps them strictly sorted and adds just that key |
| ChangeDetector.SortKeys | src/lib/dependencies/change-detector.ts:26-27 | the sorted keys are strictly ascending and are exactly the keys given |
| ChangeDetector.SortedUnique | src/lib/dependencies/change-detector.ts:26-27 | two strictly sorted lists with the same members are equal |
| ChangeDetector.Canon | src/lib/dependencies/change-detector.ts:23-37 | the canonical form keeps a value's kind (null, undefined, truthiness) |
| ChangeDetector.GetCanonMembers | src/lib/dependencies/change-detector.ts:25-34 | reading a key of a canonicalised object gives the canonical form of that key's value |
| ChangeDetector.PresentKeys | src/lib/dependencies/change-detector.ts:26-27 | the serialised keys are sorted and are exactly those whose value is defined |
| ChangeDetector.Hash | src/lib/dependencies/change-detector.ts:18-40 | the hash is the `null` sentinel iff the value is null or undefined |
| ChangeDetector.HashIgnoresKeyOrder | src/lib/dependencies/change-detector.ts:23-37 | two objects whose keys read the same canonical values hash equal, whatever the key order |
| ChangeDetector.HashOfReorderedObject | src/lib/dependencies/change-detector.ts:23-37 | an object and any reordering of its members hash equal |
| ChangeDetector.HashSeesValues | src/lib/dependencies/change-detector.ts:23-39 | objects whose values differ in canonical form hash differently |
| ChangeDetector.EqualHashesRead | src/lib/dependencies/change-detector.ts:23-39 | equal object hashes mean every key reads the same canonical value |
| ChangeDetector.ArrayChangeIff | src/lib/dependencies/change-detector.ts:78-84 | arrays differ iff their lengths differ or some index pair differs |
| ChangeDetector.SemanticChange | src/lib/dependencies/change-detector.ts:50-88 | the method, with its early-exit element loop, computes the semantic comparison |
| ChangeDetector.NoChangeOnSelf | src/lib/dependencies/change-detector.ts:50-88 | no value differs from itself |
| ChangeDetector.SemanticChangeSymmetric | src/lib/dependencies/change-detector.ts:50-88 | the comparison is symmetric |
| ChangeDetector.SameCanonNoChange | src/lib/dependencies/change-detector.ts:50-88 | values with the same canonical form never count as changed |
| ChangeDetector.EqualHashNoSemanticChange | src/lib/dependencies/change-detector.ts:50-88 | equal hashes never count as a semantic change |
| ChangeDetector.WhitespaceAndCaseAreNotChanges | src/lib/dependencies/change-detector.ts:61-65 | `"Hi "` against `"hi"` is no change though the hashes differ; `"hi"` against `"ho"` is a change |
| ChangeDetector.TrimExamples | src/lib/dependencies/change-detector.ts:62-63 | trimming removes the trailing space and leaves trimmed strings alone |
| ChangeDetector.LowerExamples | src/lib/dependencies/change-detector.ts:62-63 | lower-casing maps `Hi` to `hi` and leaves lower-case strings alone |
| ChangeDetector.ComparisonExamples | src/lib/dependencies/change-detector.ts:52-84 | null against undefined is no change; `[1,2]` against `[2,1]`, a number against a string, and null or undefined against an object are changes |
| ChangeDetector.SubfieldChangesIff | src/lib/dependencies/change-detector.ts:111-120 | for two objects, a key is reported iff it is a key of either side and its values differ semantically; no key twice |
| ChangeDetector.ChangedKeysIff | src/lib/dependencies/change-detector.ts:112-118 | the loop over the key union reports exactly the keys whose values differ, each once |
| ChangeDetector.SubfieldChangesOneSided | src/lib/dependencies/change-detector.ts:105-109 | with one side absent, exactly the keys of the other side are reported |
| ChangeDetector.UnchangedKeyNotReported | src/lib/dependencies/change-detector.ts:114-118 | a key whose values hash equal is not reported |
| ChangeDetector.DetectSubfieldChanges | src/lib/dependencies/change-detector.ts:98-121 | the method returns the sub-field changes (none when both sides are absent) |
| ChangeDetector.AnalyzeChange | src/lib/dependencies/change-detector.ts:139-178 | it returns both hashes; change iff they differ; unchanged iff no change; created and deleted follow truthiness; sub-fields are diffed only for two non-array objects |
| ChangeDetector.NullToFalseIsUpdated | src/lib/dependencies/change-detector.ts:149-155 | null to `false` is an update: both falsy, hashes differ |
| ChangeDetector.IsSignificantChange | src/lib/dependencies/change-detector.ts:204-216 | significant iff no sub-field changed, the field has no allow-list, or some changed sub-field is on it |
| ChangeDetector.SignificanceMonotone | src/lib/dependencies/change-detector.ts:204-216 | more changed sub-fields never make a significant change insignificant |
| ChangeDetector.SignificanceExamples | src/lib/dependencies/change-detector.ts:188-216 | `key_metrics` alone is not significant for the canvas; adding `problem` is; unknown fields are; background and text colours are not |
| ChangeDetector.BatchOf | src/lib/dependencies/change-detector.ts:242-252 | every entry is a checked field that changed, with its analysis and significance, and every changed checked field has one |
| ChangeDetector.BatchOfSnoc | src/lib/dependencies/change-detector.ts:242-252 | the report keeps the order of the fields examined: one more field appends only its own entry |
| ChangeDetector.DetectBatchChanges | src/lib/dependencies/change-detector.ts:232-255 | the loop reports the changes of the given list, or else of the union of both records' keys |
| ChangeDetector.BatchReportsExactlyChangedFields | src/lib/dependencies/change-detector.ts:242-252 | a field is reported iff it is checked and its hashes differ |
| Store.Apply | src/lib/dependencies/staleness.ts:171-398 | a column update never changes the row's field name |
| Store.Row | src/lib/dependencies/staleness.ts:53-61 | the row found is a row of that field; there is none iff no row has the name |
| Store.UpsertRow | src/lib/dependencies/staleness.ts:171-180 | after an upsert, the field's row is its old row (or a new one) with the update; other fields read as before |
| Store.UpsertLength | src/lib/dependencies/staleness.ts:171-180 | an upsert adds a row only when the field had none |
| Store.UpsertNames | src/lib/dependencies/staleness.ts:171-180 | after an upsert, the fields with rows are the old ones plus the upserted one |
| Store.UpsertKeepsUnique | src/lib/dependencies/staleness.ts:179 | an upsert on the `business_id,field_name` key keeps one row per field |
| Store.ApplyKeepsConsistent | src/lib/dependencies/staleness.ts:171-251 | marking and clearing keep "not stale means no reason and no `stale_since`" |
| Store.InitializeOverStaleRow | src/lib/dependencies/staleness.ts:388-398 | initialising a stale row keeps its reason while clearing `is_stale` |
| Store.UpsertKeepsConsistent | src/lib/dependencies/staleness.ts:171-251 | upserts other than initialisation keep every row consistent |
| Store.StaleNames | src/lib/dependencies/staleness.ts:255-259 | the names listed are exactly those of the stale rows |
| Store.Store.constructor | src/lib/dependencies/staleness.ts:24-33 | a store opened on a database holds exactly its business, version and run rows |
| Store.Store.UpsertVersion | src/lib/dependencies/staleness.ts:171-180 | one upsert changes the version rows only |
| Store.EventLog.Emit | src/lib/agents/orchestrator.ts:95-99 | `emit` appends one event |
| Store.EventLog.EmitAll | src/lib/agents/orchestrator.ts:121-125 | a batch of emits appends those events in order |
| Staleness.ApplyTwice | src/lib/dependencies/staleness.ts:171-251 | marking, clearing or initialising a row twice is the same as once |
| Staleness.UpsertAllRow | src/lib/dependencies/staleness.ts:170-181 | after the upsert loop, each listed field's row has the update and other fields read as before |
| Staleness.UpsertAllKeepsUnique | src/lib/dependencies/staleness.ts:170-181 | the upsert loop keeps one row per field |
| Staleness.UpsertAllKeepsConsistent | src/lib/dependencies/staleness.ts:170-252 | the marking and clearing loops keep every row consistent |
| Staleness.StaleNamesOfUnique | src/lib/dependencies/staleness.ts:255-259 | with one row per field, a name is listed as stale iff its row is stale |
| Staleness.BumpAllRow | src/lib/dependencies/staleness.ts:218-224 | the version loop bumps each listed field's version and sets its new hash; other rows read as before |
| Staleness.BumpAllKeepsUnique | src/lib/dependencies/staleness.ts:218-224 | the version loop keeps one row per field |
| Staleness.BumpAllKeepsConsistent | src/lib/dependencies/staleness.ts:218-224 | the version loop keeps every row consistent |
| Staleness.ManualMarkStale | src/lib/dependencies/staleness.ts:162-188 | every listed field is upserted as stale with the reason and time, and the business's stale list is overwritten with the list |
| Staleness.MarkedRow | src/lib/dependencies/staleness.ts:170-181 | a listed field ends stale with that reason and time, keeping version and hash; other rows are unchanged |
| Staleness.ManualClearStaleness | src/lib/dependencies/staleness.ts:231-267 | every listed field is upserted as not stale, and the business's stale list is recomputed from the rows still stale |
| Staleness.ClearStaleness | src/lib/dependencies/staleness.ts:198-225 | clearing, then one version bump per listed field with its new hash or none |
| Staleness.ClearedRow | src/lib/dependencies/staleness.ts:198-267 | a listed field ends not stale, with no reason or `stale_since`, its version one higher and hash `newHashes[f]` or none; other rows are unchanged |
| Staleness.ClearedStaleList | src/lib/dependencies/staleness.ts:254-266 | after clearing, a field is on the stale list iff it was not cleared and its row was stale |
| Staleness.ClearedRowsInvariant | src/lib/dependencies/staleness.ts:198-267 | clearing keeps one row per field and every row consistent |
| Staleness.ActionInjective | src/lib/dependencies/staleness.ts:120-123 | distinct editors give distinct wording |
| Staleness.ReasonIdentifiesEditor | src/lib/dependencies/staleness.ts:120-123 | the reason starts with the quoted field name and tells who edited it |
| Staleness.FieldNames | src/lib/dependencies/staleness.ts:107-109 | the names of a list of fields, one by one |
| Staleness.StaleListOf | src/lib/dependencies/staleness.ts:94-109 | the combined list deduplicates the closure, then the sub-field fan-out |
| Staleness.AdditionalDependents | src/lib/dependencies/staleness.ts:97-104 | the loop gathers the fan-out lists of every changed sub-field in order |
| Staleness.MarkDependentsStale | src/lib/dependencies/staleness.ts:71-156 | no change, or an insignificant one, or nothing downstream: its reason, empty lists, nothing written; otherwise stale rows, bumped version, stale list, reason and sections |
| Staleness.FieldNamesIff | src/lib/dependencies/staleness.ts:107-109 | a name is listed iff one of the fields has it |
| Staleness.StaleListIff | src/lib/dependencies/staleness.ts:94-109 | the stale list has no duplicates and holds exactly the closure and the fan-out |
| Staleness.StaleListIsDownstream | src/lib/dependencies/staleness.ts:94-109 | for a known field the stale list is exactly its downstream closure: the fan-out adds nothing new |
| Staleness.AdditionalIsDownstream | src/lib/dependencies/staleness.ts:97-104 | every fan-out target of a field's sub-fields is downstream of it |
| Staleness.GetStalenessInfo | src/lib/dependencies/staleness.ts:277-294 | the rows returned are exactly the stale rows |
| Staleness.GetFieldVersions | src/lib/dependencies/staleness.ts:299-320 | the map built by the row loop |
| Staleness.ByNameIff | src/lib/dependencies/staleness.ts:314-317 | every field with a row is a key whose value is one of its rows; with one row per field it is that row |
| Staleness.GetAffectedWebsiteSections | src/lib/dependencies/staleness.ts:331-356 | the same sections as the graph's query on the changed sub-fields |
| Staleness.InitializeFieldVersions | src/lib/dependencies/staleness.ts:366-401 | the loop upserts the eleven generated fields in order and changes nothing else |
| Staleness.InitializedRow | src/lib/dependencies/staleness.ts:385-399 | a field with a truthy value gets version 1, its hash, `is_stale` false and the time; every other row is untouched |
| Staleness.GeneratedNamesNoDup | src/lib/dependencies/staleness.ts:371-383 | the eleven initialised field names are distinct |
| Pipeline.NoteEvents | src/lib/agents/orchestrator.ts:121-125 | the progress an agent emits becomes one agent-tagged progress event per note, in order |
| Pipeline.KeepDefined | src/lib/agents/orchestrator.ts:128-140 | the loop adds exactly the declared fields whose result is not undefined |
| Pipeline.DefinedSnoc | src/lib/agents/orchestrator.ts:128-132 | one more declared field is added iff its result is defined |
| Pipeline.CollectHashes | src/lib/agents/partial-orchestrator.ts:172-177 | the loop hashes exactly the truthy results |
| Pipeline.HashesSnoc | src/lib/agents/partial-orchestrator.ts:173-177 | one more field gets a hash iff its result is truthy |
| Pipeline.StartAgent | src/lib/agents/orchestrator.ts:95-117 | the start event, the `current_agent` update and a new running row |
| Pipeline.FailAgent | src/lib/agents/orchestrator.ts:166-186 | the run row fails with the message and an agent-tagged error is emitted |
| Pipeline.FinishRun | src/lib/agents/orchestrator.ts:190-218 | the terminal status with no current agent, then the terminal event |
| Pipeline.Seed | src/lib/agents/partial-orchestrator.ts:84-96 | the seed holds exactly the eleven generated fields, each with its stored value |
| Pipeline.StepsStuck | src/lib/agents/orchestrator.ts:186 | once an agent has thrown, the remaining agents change nothing |
| Pipeline.StepRuns | src/lib/agents/orchestrator.ts:107-177 | one agent appends one run row with its input and time, completed with the result or failed with the error |
| Pipeline.StepsRuns | src/lib/agents/orchestrator.ts:93-188 | one row per agent run, in order; all completed, or all but the last, which failed with the error message |
| Pipeline.StepEvents | src/lib/agents/orchestrator.ts:95-184 | one agent's events start with its start event, all carry its name, and end with its completion or its error |
| Pipeline.StepsEvents | src/lib/agents/orchestrator.ts:93-188 | the loop's events are agent-tagged and follow the order; a failure ends them with the agent's error |
| Pipeline.RunEvents | src/lib/agents/orchestrator.ts:68-222 | a run ends with exactly one untagged terminal event: completion on success, the error otherwise; a missing business emits only that error |
| Pipeline.StepKeepsSynced | src/lib/agents/orchestrator.ts:128-145 | the accumulator and the stored columns stay in step |
| Pipeline.StepsKeepSynced | src/lib/agents/orchestrator.ts:93-188 | the whole loop keeps them in step |
| Pipeline.RunBusiness | src/lib/agents/orchestrator.ts:82-212 | a missing business changes nothing; otherwise the status ends completed or failed with no current agent, keeping the prompt, and each column holds the accumulated output or its old value |
| Pipeline.StepsKeepPrompt | src/lib/agents/orchestrator.ts:142-145 | no agent changes the prompt |
| Orchestrator.CompleteAgent | src/lib/agents/orchestrator.ts:127-165 | outputs kept, columns updated, run row completed and completion emitted, as the run definition says |
| Orchestrator.RunAgent | src/lib/agents/orchestrator.ts:93-187 | one iteration does what the run definition's step does |
| Orchestrator.RunAgents | src/lib/agents/orchestrator.ts:93-188 | the loop over the agents, stopping at the first failure, is the definition's sequence of steps from empty outputs |
| Orchestrator.RunAgentPipeline | src/lib/agents/orchestrator.ts:68-222 | store, events and what is rethrown are the run definition over the agent order |
| Orchestrator.StepsKeepVersions | src/lib/agents/orchestrator.ts:93-188 | the full loop never touches version rows |
| Orchestrator.RunKeepsVersions | src/lib/agents/orchestrator.ts:68-222 | the full pipeline never touches version rows |
| Orchestrator.StepsOutputKeys | src/lib/agents/orchestrator.ts:128-132 | every accumulated field was there before or is declared by an agent run |
| Orchestrator.StepsKeepUndeclared | src/lib/agents/orchestrator.ts:128-132 | a field no agent declares never enters the accumulator |
| Orchestrator.StepsInputs | src/lib/agents/orchestrator.ts:72-125 | each run row's previous outputs hold only fields of agents earlier in the order |
| Orchestrator.RunOutputs | src/lib/agents/orchestrator.ts:55-222 | agents see only earlier agents' outputs, and the full pipeline never writes `website_code` |
| PartialOrchestrator.SortedAgentsIff | src/lib/agents/partial-orchestrator.ts:105 | the agents run are exactly those requested, in pipeline order, each once |
| PartialOrchestrator.CompleteAgent | src/lib/agents/partial-orchestrator.ts:148-198 | outputs kept, columns updated, staleness cleared with the new hashes, row completed, completion emitted, as the run definition says |
| PartialOrchestrator.RunAgent | src/lib/agents/partial-orchestrator.ts:108-221 | one iteration does what the run definition's step does |
| PartialOrchestrator.RunAgents | src/lib/agents/partial-orchestrator.ts:108-221 | the loop is the definition's sequence of steps from the seeded outputs |
| PartialOrchestrator.RunPartialPipeline | src/lib/agents/partial-orchestrator.ts:66-255 | store, events and what is rethrown are the run definition over the sorted agents |
| PartialOrchestrator.AgentsNeeded | src/lib/agents/partial-orchestrator.ts:266-274 | the nested loops collect, once each, exactly the agents producing a requested field |
| PartialOrchestrator.NeededForSnoc | src/lib/agents/partial-orchestrator.ts:268-274 | one more requested field adds exactly its producers |
| PartialOrchestrator.RegenerateFields | src/lib/agents/partial-orchestrator.ts:260-277 | a partial run over the pipeline order filtered by the needed agents |
| PartialOrchestrator.NeededForFieldNames | src/lib/agents/partial-orchestrator.ts:268-274 | for field names, the needed agents are those the graph's agent selection picks |
| PartialOrchestrator.SucceedRow | src/lib/agents/partial-orchestrator.ts:171-178 | after a success, all of the agent's declared fields are cleared, bumped and hashed only if truthy; other rows are unchanged |
| PartialOrchestrator.SucceedStaleList | src/lib/agents/partial-orchestrator.ts:171-178 | after a success, the stale list is exactly the rows still stale |
| PartialOrchestrator.StepRows | src/lib/agents/partial-orchestrator.ts:108-221 | one agent never makes a row stale, and its success clears its declared fields |
| PartialOrchestrator.StepsRows | src/lib/agents/partial-orchestrator.ts:108-221 | the loop never makes rows stale; on success every field of an agent run is not stale and the stale list matches the rows |
| PartialOrchestrator.RunRows | src/lib/agents/partial-orchestrator.ts:66-255 | the same for a whole partial run |
| PageStructures.StructureKeys | src/lib/website/page-structures.ts:19-224 | the keys of the table, in declaration order |
| PageStructures.Lookup | src/lib/website/page-structures.ts:233-235 | a direct lookup succeeds iff the name is a key, with that key's entry |
| PageStructures.MapNormalize | src/lib/website/page-structures.ts:230 | each character is normalised on its own |
| PageStructures.Normalize | src/lib/website/page-structures.ts:230 | the normalised name keeps its length and has no white space, hyphen or capital letter |
| PageStructures.FirstOverlap | src/lib/website/page-structures.ts:238-242 | the first entry, in declaration order, whose key contains the name or is contained in it |
| PageStructures.Select | src/lib/website/page-structures.ts:229-245 | an exact key gives its entry; otherwise the first overlapping entry; otherwise the default |
| PageStructures.NormalizeKey | src/lib/website/page-structures.ts:230 | names made of lower-case letters and `_` are left unchanged |
| PageStructures.KeysShape | src/lib/website/page-structures.ts:19-224 | every key is non-empty and already normalised |
| PageStructures.FirstPagesAreHome | src/lib/website/page-structures.ts:19-224 | every layout's first page has slug `/` |
| PageStructures.EmptyTypeIsLawFirm | src/lib/website/page-structures.ts:238-242 | an empty business type gets the first layout, `law_firm` |
| PageStructures.FirstKeywordMatch | src/lib/website/page-structures.ts:290-296 | the first type, in declaration order, with a keyword in the prompt |
| PageStructures.KeywordTypesAreKeys | src/lib/website/page-structures.ts:268-288 | the keyword types are the layout keys in the same order, and `default` is the last key |
| PageStructures.ClassifiedHasLayout | src/lib/website/page-structures.ts:264-299 | every classification is a layout key, so its layout is found by the exact match |
| Templates.TemplateNameInjective | src/lib/website/preview-generator.ts:399-435 | no two templates share a section type |
| Templates.Dispatch | src/lib/website/preview-generator.ts:399-439 | the template found is in the table and has that name; none iff no template of the table has it |
| Templates.DispatchFinds | src/lib/website/generator.ts:36 | every template of a table is found by its own name |
| PreviewGenerator.EscapeHtml | src/lib/website/preview-generator.ts:490-498 | a non-string gives `''`; a string is escaped character by character, leaving no `<`, `>`, `"` or `'` |
| PreviewGenerator.EscapeIsPerCharacter | src/lib/website/preview-generator.ts:492-497 | the five chained replacements, ampersand first, escape each character on its own |
| PreviewGenerator.EscapeRoundTrip | src/lib/website/preview-generator.ts:490-498 | decoding the five entities recovers the input |
| PreviewGenerator.AmpersandStartsEntity | src/lib/website/preview-generator.ts:493 | every `&` of the output starts one of the five entities |
| PreviewGenerator.ListProp | src/lib/website/preview-generator.ts:49-51 | the list is the array's items, or `[]` |
| PreviewGenerator.CurrentPage | src/lib/website/preview-generator.ts:50 | the first page with the slug, else the first page if truthy, else none |
| PreviewGenerator.ContentOrEmpty | src/lib/website/preview-generator.ts:397 | missing content becomes `{}`, truthy content is kept |
| PreviewGenerator.RenderSection | src/lib/website/preview-generator.ts:391-439 | no type gives `''`; a template's type renders it on the content or `{}`; any other type gives `''` |
| PreviewGenerator.PreviewTemplatesCover | src/lib/website/preview-generator.ts:399-435 | the preview knows every template but the footer |
| PreviewGenerator.SectionDispatch | src/lib/website/preview-generator.ts:391-439 | a section renders its template, and a footer section renders `''` |
| PreviewGenerator.PageSections | src/lib/website/preview-generator.ts:378-381 | a page without a sections array renders `''` |
| PreviewGenerator.NoPagesShowsDefaultHero | src/lib/website/preview-generator.ts:58-64 | with no pages the default hero is rendered |
| PreviewGenerator.SectionsInOrder | src/lib/website/preview-generator.ts:383-385 | one more section appends its rendering after a newline |
| PreviewGenerator.NavItems | src/lib/website/preview-generator.ts:346-353 | a non-empty navigation is kept; an empty one becomes three items |
| PreviewGenerator.LinkClasses | src/lib/website/preview-generator.ts:357 | the class list has no `"`, so it cannot leave the attribute |
| PreviewGenerator.NavLinks | src/lib/website/preview-generator.ts:355-358 | one link per item, in order |
| PreviewGenerator.NavLinkAttributes | src/lib/website/preview-generator.ts:356-357 | a link's `href` is the escaped item `href`, which decodes back; its class has `nav-link-active` iff the item is the current page |
| PreviewGenerator.ItemActiveIff | src/lib/website/preview-generator.ts:356 | an item is active iff its `href` is the current slug |
| PreviewGenerator.DefaultNavigationLinks | src/lib/website/preview-generator.ts:346-356 | the defaults are Home `/`, Features `#features` and Contact `#contact` |
| PreviewGenerator.AvailablePages | src/lib/website/preview-generator.ts:503-506 | one name and slug per page, in order; `[]` without pages |
| PreviewGenerator.ListedSlugsPreview | src/lib/website/preview-generator.ts:503-506 | a listed string slug selects that page or an earlier one with the same slug |
| Generator.RenderSection | src/lib/website/generator.ts:35-41 | a template's type renders it on the content; any other type renders the unknown-section comment naming it |
| Generator.PageSections | src/lib/website/generator.ts:74 | no sections render `''`, one section renders alone |
| Generator.SectionsInOrder | src/lib/website/generator.ts:74 | one more section appends its rendering after a newline |
| Generator.HomePage | src/lib/website/generator.ts:67-68 | the first page with slug `/` or `home` or name `home` in any case, else the first page, none without pages |
| Generator.FooterContent | src/lib/website/generator.ts:76-79 | `company_name` is the footer's own when truthy, else the business name; every other member is the footer's |
| Generator.FooterFallsBackToBusinessName | src/lib/website/generator.ts:76-79 | no footer, or an empty company name, shows the business name |
| Generator.WebsiteShowsHomePage | src/lib/website/generator.ts:62-122 | no pages give the no-pages comment; otherwise the home page's sections and the footer |
| Generator.CapitalisedHomeName | src/lib/website/generator.ts:67 | a page named `HOME` is found behind a page that is not home |
| Generator.SiteWithinPreview | src/lib/website/generator.ts:19-33 | every template of the site is known to the preview |
| Generator.SiteAgreesWithPreview | src/lib/website/generator.ts:35-41 | with truthy content, site and preview render a known type the same way |
| Generator.PreviewOnlyTypes | src/lib/website/generator.ts:19-33 | only the three preview variants, team and stats are preview-only |
| Generator.MissingTemplateIsUnknown | src/lib/website/generator.ts:36-38 | a type without a site template renders the unknown-section comment |
| Strings.Trim | src/lib/dependencies/change-detector.ts:62-63 | the trimmed string is a slice of the input that neither starts nor ends with white space, and everything of the input before and after that slice is white space |
| Strings.TrimIdempotent | src/lib/dependencies/change-detector.ts:62-63 | trimming twice is trimming once |
| Strings.Lower | src/lib/dependencies/change-detector.ts:62-63 | lower-casing keeps the length, maps each character, and leaves no capital letter |
| Strings.ContainsIff | src/lib/website/page-structures.ts:239 | `includes` holds iff the text occurs at some position |
| JsonValues.TypeOf | src/lib/dependencies/change-detector.ts:58 | `typeof` is `object` exactly for null, arrays and objects, and `undefined` exactly for undefined |
| JsonValues.Get | src/lib/dependencies/change-detector.ts:115 | a property read gives a member's value, or undefined when there is none |
| JsonValues.Keys | src/lib/dependencies/change-detector.ts:108-112 | `Object.keys` lists every key once |
| JsonValues.Assign | src/lib/website/generator.ts:76-79 | the spread with one key set reads that key's new value and every other key as before |

## Left out

- I/O: every database read or write that fails is not modelled. This covers the fetch
  error, the error paths of the queries and a failed `agent_runs` insert. The
  `if (agentRun)` guards therefore always hold.
- The remote procedures `mark_fields_stale` and `clear_field_staleness` are modelled by
  their manual fallbacks, the only code that shows what they do. The console output on
  their failure is not modelled.
- `increment_field_version`: its body is not part of the repository. It is modelled as
  "version plus one and the given hash", on the existing row or on a new one.
- `Store.NewRow`: the version a new row starts with is the table's default, which is not
  in the repository, so it is a parameter.
- Time: each operation receives one timestamp `now` for all of its writes.
- The agents' bodies (search, language models, images) are the oracle parameter.
- `emit` cannot fail in the model, and the order of calls across awaits is taken as
  sequential.
- Environment variables and the client set-up are not modelled.
- `ChangeDetector.Hash`: the 16-hex-digit SHA-256 prefix is modelled as an injective
  digest of the canonical form. Hash collisions and the details of the serialisation
  text are not modelled.
- Numbers are integers; floating point is not modelled.
- `Strings.Lower` lower-cases ASCII letters only.
- JavaScript prototype keys (`constructor`, `toString`, …) found by table lookups are not
  modelled.
- Key order of `previousOutputs` in the recorded run input is not modelled: it is a map.
- `BUSINESS_CATEGORIES` in page-structures.ts is not used by any modelled operation.
- The template markup of templates.ts is not part of this model. The preview's style
  block, colour defaults, document wrapper and default footer are left out, and so is
  the exported site's document with its navigation. They are presentation, and they
  are the `render` and `layout` parameters here.
- `generateDefaultHTML` in generator.ts is a constant page and is left out.
- Navigation in generator.ts interpolates `href` and label without escaping. This is
  presentation and is not modelled.
- The preview's `console.warn` on an unknown section type is not modelled.
- `PreviewGenerator.ListProp`: a truthy `pages` or `navigation` that is not an array
  would make the source throw; the model reads it as `[]`.
- `PreviewGenerator.RenderSection`: a `null` or undefined section, whose destructuring
  at preview-generator.ts:392 throws, renders `''` in the model; the throw is not modelled.
- `PreviewGenerator.NavLinks`: a `null` or undefined navigation item, on which
  `item.href` throws, gives a link with an undefined `href` in the model; the throw is not
  modelled.
- `PreviewGenerator.AvailablePages`: a `null` or undefined page, on which `p.name` throws,
  gives a pair of undefined values in the model; the throw is not modelled.
- `JsonValues.Keys`: keys are listed in insertion order. `Object.keys` lists integer-like
  keys first, in ascending order. So for objects with such keys, the order of
  `ChangeDetector.DetectSubfieldChanges`' result and of the key union of
  `ChangeDetector.DetectBatchChanges` may differ from the source's; their members do not.
  The hash sorts its keys and is unaffected.
- `PreviewGenerator.CurrentPage`: a `null` page element, on which `p.slug` throws, is not
  modelled.
- `Generator.PageSections` states only the empty and single-section cases; the order of
  longer pages is `Generator.SectionsInOrder`.
- `PreviewGenerator.PageSections` states only the missing-sections case; the rendering of
  the sections is `PreviewGenerator.SectionsInOrder` and `PreviewGenerator.RenderSection`.
- `Staleness.InitializeFieldVersions` keeps a stale row's reason and `stale_since`,
  because the upsert of staleness.ts:388-398 does not write them
  (`Store.InitializeOverStaleRow`). Nothing in the core calls this operation.
- `PartialOrchestrator.RunRows` requires one version row per field. This is the unique
  key of `field_versions`.

## Findings

| source | as written | input that shows it | evidently intended | confidence | as-written member | corrected member |
|---|---|---|---|---|---|---|
| src/lib/dependencies/graph.ts:315-321 | the wildcard pattern becomes a regular expression without escaping its dots, so each `.` matches any character; `Graph.GetExtendedDependents` follows this | `getExtendedDependents("offerings_1_price")` matches `offerings.*.price` and returns `['website_structure']` | a dot in a pattern matches only a dot, so `*` stands for exactly one dot-free segment; this is `Graph.IntegrationDependents` with escaped dots | not executed | Graph.ExtendedDependentsFinding | Graph.EscapedWildcardIff |
