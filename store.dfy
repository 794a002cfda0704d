/** The persistent state the staleness engine and the orchestrators work on: the
    `businesses` row of one business, its `field_versions` rows and its `agent_runs`
    rows, modelled as an in-memory store, plus the event stream that `emit` feeds.
    Upserts follow the `onConflict: 'business_id,field_name'` semantics: the row of
    that field is updated in the given columns, or a new row is added. */
module Store {
  import opened Collections
  import opened JsonValues
  import opened Graph
  import opened ChangeDetector

  /** A `new Date().toISOString()` value; opaque to the model. */
  type Timestamp = string

  /** A `field_versions` row (`FieldVersionInfo`, staleness.ts:53-61). */
  datatype FieldVersion = FieldVersion(
    fieldName: string,
    version: int,
    isStale: bool,
    staleReason: Option<string>,
    staleSince: Option<Timestamp>,
    updatedAt: Option<Timestamp>,
    contentHash: Option<ContentHash>)

  datatype Status = Pending | Running | Completed | Failed

  /** The `businesses` row; a generated column that is absent reads as `null`. */
  datatype Business = Business(
    prompt: string,
    status: Status,
    currentAgent: Option<Agent>,
    columns: map<Field, Json>,
    staleFields: seq<string>)

  /** The eleven generated columns, in the order staleness.ts:371-383 and
      partial-orchestrator.ts:84-96 list them. */
  const GeneratedFields: seq<Field> := [
    MarketResearch, BusinessName, Tagline, BusinessCanvas, BrandColors, BrandVoice,
    LogoUrl, WebsiteStructure, WebsiteCode, CustomerJourney, AutomationFlows]

  function Column(b: Business, f: Field): Json {
    if f in b.columns then b.columns[f] else Null
  }

  /** What an `agent_runs` row records as the agent's input. */
  datatype RunInput =
    | FullInput(prompt: string, previousOutputs: map<Field, Json>)
    | PartialInput(previousOutputs: map<Field, Json>)

  datatype RunStatus = RunRunning | RunCompleted | RunFailed

  /** An `agent_runs` row. */
  datatype AgentRun = AgentRun(
    agent: Agent,
    input: RunInput,
    status: RunStatus,
    completedAt: Option<Timestamp>,
    output: Option<seq<Member>>,
    error: Option<string>)

  datatype EventType = AgentStart | AgentProgress | AgentComplete | AgentError | GenerationComplete

  /** An `SSEEvent`; absent optional members are `None`. */
  datatype Event = Event(
    kind: EventType,
    agent: Option<Agent>,
    message: Option<string>,
    data: Option<Json>,
    progress: Option<int>)

  /** The rows of one business. */
  datatype Db = Db(business: Option<Business>, versions: seq<FieldVersion>, runs: seq<AgentRun>)

  // ------------------------------------------------------------------
  // field_versions rows
  // ------------------------------------------------------------------

  /** The column changes that the staleness engine writes into a row. */
  datatype RowChange =
    | MarkStale(reason: string, since: Timestamp)    // staleness.ts:171-180
    | ClearStale(at: Timestamp)                      // staleness.ts:239-251
    | Initialize(hash: ContentHash, at: Timestamp)   // staleness.ts:388-398
    | Increment(newHash: Option<ContentHash>)        // increment_field_version

  function Apply(row: FieldVersion, c: RowChange): (r: FieldVersion)
    ensures r.fieldName == row.fieldName
  {
    match c
    case MarkStale(reason, since) =>
      row.(isStale := true, staleReason := Some(reason), staleSince := Some(since))
    case ClearStale(at) =>
      row.(isStale := false, staleReason := None, staleSince := None, updatedAt := Some(at))
    case Initialize(hash, at) =>
      row.(version := 1, contentHash := Some(hash), isStale := false, updatedAt := Some(at))
    case Increment(newHash) =>
      row.(version := row.version + 1, contentHash := newHash)
  }

  /** A row the upsert inserts before its columns are written; the table's defaults
      are not part of the source, so the initial version is a parameter. */
  function NewRow(name: string, initialVersion: int): FieldVersion {
    FieldVersion(name, initialVersion, false, None, None, None, None)
  }

  /** The first row of a field, if any. */
  function Row(rows: seq<FieldVersion>, name: string): (r: Option<FieldVersion>)
    ensures r.Some? ==> r.value in rows && r.value.fieldName == name
    ensures r.None? <==> forall i | 0 <= i < |rows| :: rows[i].fieldName != name
  {
    if |rows| == 0 then None
    else if rows[0].fieldName == name then Some(rows[0])
    else Row(rows[1..], name)
  }

  /** The row an upsert of `name` starts from. */
  function Base(rows: seq<FieldVersion>, name: string, initialVersion: int): FieldVersion {
    match Row(rows, name)
    case Some(row) => row
    case None => NewRow(name, initialVersion)
  }

  /** Every field has at most one row (the `business_id,field_name` key). */
  predicate UniqueNames(rows: seq<FieldVersion>) {
    forall i, j | 0 <= i < j < |rows| :: rows[i].fieldName != rows[j].fieldName
  }

  /** The documented row invariant: a row that is not stale has no reason and no
      `stale_since`. */
  predicate Consistent(row: FieldVersion) {
    !row.isStale ==> row.staleReason.None? && row.staleSince.None?
  }

  predicate AllConsistent(rows: seq<FieldVersion>) {
    forall i | 0 <= i < |rows| :: Consistent(rows[i])
  }

  /** An upsert keyed by field name. */
  function Upsert(rows: seq<FieldVersion>, name: string, c: RowChange, initialVersion: int): seq<FieldVersion> {
    if |rows| == 0 then [Apply(NewRow(name, initialVersion), c)]
    else if rows[0].fieldName == name then [Apply(rows[0], c)] + rows[1..]
    else [rows[0]] + Upsert(rows[1..], name, c, initialVersion)
  }

  /** After an upsert the field's row is the changed base row and every other
      field's row is as before. */
  lemma {:induction false} UpsertRow(rows: seq<FieldVersion>, name: string, c: RowChange, v: int, n: string)
    ensures Row(Upsert(rows, name, c, v), n) ==
      if n == name then Some(Apply(Base(rows, name, v), c)) else Row(rows, n)
  {
    if |rows| > 0 && rows[0].fieldName != name {
      UpsertRow(rows[1..], name, c, v, n);
    }
  }

  /** The fields that have a row. */
  function Names(rows: seq<FieldVersion>): set<string> {
    set row | row in rows :: row.fieldName
  }

  /** An upsert adds a row only for a field that has none. */
  lemma {:induction false} UpsertLength(rows: seq<FieldVersion>, name: string, c: RowChange, v: int)
    ensures |Upsert(rows, name, c, v)| == if Row(rows, name).Some? then |rows| else |rows| + 1
  {
    if |rows| > 0 && rows[0].fieldName != name {
      UpsertLength(rows[1..], name, c, v);
    }
  }

  /** After an upsert the field has a row, and no other field gains one. */
  lemma {:induction false} UpsertNames(rows: seq<FieldVersion>, name: string, c: RowChange, v: int)
    ensures Names(Upsert(rows, name, c, v)) == Names(rows) + {name}
  {
    if |rows| > 0 {
      var r := Upsert(rows, name, c, v);
      var tail := rows[1..];
      assert rows == [rows[0]] + tail;
      assert Names(rows) == {rows[0].fieldName} + Names(tail);
      if rows[0].fieldName != name {
        UpsertNames(tail, name, c, v);
        assert Names(r) == {rows[0].fieldName} + Names(Upsert(tail, name, c, v));
      } else {
        assert Names(r) == {name} + Names(tail);
      }
    }
  }

  /** An upsert keeps the key unique. */
  lemma {:induction false} UpsertKeepsUnique(rows: seq<FieldVersion>, name: string, c: RowChange, v: int)
    requires UniqueNames(rows)
    ensures UniqueNames(Upsert(rows, name, c, v))
  {
    if |rows| > 0 {
      var r := Upsert(rows, name, c, v);
      var tail := rows[1..];
      if rows[0].fieldName != name {
        assert UniqueNames(tail);
        UpsertKeepsUnique(tail, name, c, v);
        UpsertNames(tail, name, c, v);
        var ut := Upsert(tail, name, c, v);
        forall i | 0 <= i < |tail| ensures tail[i].fieldName != rows[0].fieldName {
          assert tail[i] == rows[i + 1];
        }
        assert rows[0].fieldName !in Names(tail);
        forall i | 0 <= i < |ut| ensures ut[i].fieldName != rows[0].fieldName {
          assert ut[i] in ut;
          assert ut[i].fieldName in Names(ut);
        }
        assert forall i | 1 <= i < |r| :: r[i] == ut[i - 1];
      } else {
        assert forall i | 0 <= i < |rows| :: r[i].fieldName == rows[i].fieldName;
      }
    }
  }

  /** Every change but `Initialize` leaves a consistent row consistent; `ClearStale`
      makes any row consistent. */
  lemma ApplyKeepsConsistent(row: FieldVersion, c: RowChange)
    requires Consistent(row) || c.ClearStale? || c.MarkStale?
    requires !c.Initialize? || (row.staleReason.None? && row.staleSince.None?)
    ensures Consistent(Apply(row, c))
  {
  }

  /** `Initialize` on a stale row keeps its reason and `stale_since` while it clears
      `is_stale`: the upsert of staleness.ts:388-398 does not write those columns. */
  lemma InitializeOverStaleRow(row: FieldVersion, hash: ContentHash, at: Timestamp)
    requires row.isStale && row.staleReason.Some?
    ensures !Consistent(Apply(row, Initialize(hash, at)))
    ensures Apply(row, Initialize(hash, at)).staleReason == row.staleReason
  {
  }

  /** An upsert keeps the row invariant when its change does. */
  lemma {:induction false} UpsertKeepsConsistent(rows: seq<FieldVersion>, name: string, c: RowChange, v: int)
    requires AllConsistent(rows)
    requires !c.Initialize?
    ensures AllConsistent(Upsert(rows, name, c, v))
  {
    if |rows| > 0 {
      if rows[0].fieldName == name {
        ApplyKeepsConsistent(rows[0], c);
        var r := Upsert(rows, name, c, v);
        assert forall i | 1 <= i < |rows| :: r[i] == rows[i];
      } else {
        assert AllConsistent(rows[1..]);
        UpsertKeepsConsistent(rows[1..], name, c, v);
        var r := Upsert(rows, name, c, v);
        assert forall i | 1 <= i < |r| :: r[i] == Upsert(rows[1..], name, c, v)[i - 1];
      }
    } else {
      ApplyKeepsConsistent(NewRow(name, v), c);
    }
  }

  /** The field names of the rows that are stale, in row order (the
      `select('field_name') … eq('is_stale', true)` query). */
  function StaleNames(rows: seq<FieldVersion>): (r: seq<string>)
    ensures forall n :: n in r <==> exists row | row in rows :: row.isStale && row.fieldName == n
  {
    if |rows| == 0 then []
    else
      assert rows == [rows[0]] + rows[1..];
      assert forall row :: row in rows <==> row == rows[0] || row in rows[1..];
      (if rows[0].isStale then [rows[0].fieldName] else []) + StaleNames(rows[1..])
  }

  // ------------------------------------------------------------------
  // The store and the event stream
  // ------------------------------------------------------------------

  /** The rows of one business, updated in place by the staleness engine and the
      orchestrators. */
  class Store {
    var business: Option<Business>
    var versions: seq<FieldVersion>
    var runs: seq<AgentRun>
    /** The version a newly inserted `field_versions` row starts with. */
    const initialVersion: int

    function Snapshot(): Db
      reads this
    {
      Db(business, versions, runs)
    }

    constructor(db: Db, initialVersion: int)
      ensures Snapshot() == db && this.initialVersion == initialVersion
    {
      business := db.business;
      versions := db.versions;
      runs := db.runs;
      this.initialVersion := initialVersion;
    }

    /** One `field_versions` upsert. */
    method UpsertVersion(name: string, c: RowChange)
      modifies this
      ensures versions == Upsert(old(versions), name, c, initialVersion)
      ensures business == old(business) && runs == old(runs)
    {
      versions := Upsert(versions, name, c, initialVersion);
    }
  }

  /** The events passed to `emit`, in order. */
  class EventLog {
    var events: seq<Event>

    constructor()
      ensures events == []
    {
      events := [];
    }

    method Emit(e: Event)
      modifies this
      ensures events == old(events) + [e]
    {
      events := events + [e];
    }

    /** Emits a sequence of events in order (an agent's own progress events). */
    method EmitAll(es: seq<Event>)
      modifies this
      ensures events == old(events) + es
    {
      events := events + es;
    }
  }
}
