/** The staleness engine (src/lib/dependencies/staleness.ts): marking the fields
    downstream of an edit stale, clearing staleness after regeneration, reading the
    `field_versions` rows and seeding them after the first generation.  The
    database functions `mark_fields_stale` and `clear_field_staleness` are modelled
    by the manual fallbacks the source carries for them. */
module Staleness {
  import opened Collections
  import opened JsonValues
  import opened Graph
  import opened ChangeDetector
  import opened Store

  // ------------------------------------------------------------------
  // Row updates over several fields
  // ------------------------------------------------------------------

  /** One upsert of `c` per listed field, in list order. */
  function UpsertAll(rows: seq<FieldVersion>, names: seq<string>, c: RowChange, v: int): seq<FieldVersion> {
    if |names| == 0 then rows
    else Upsert(UpsertAll(rows, names[..|names| - 1], c, v), names[|names| - 1], c, v)
  }

  /** Marking, clearing and initialising write fixed column values, so writing twice
      is writing once. */
  lemma ApplyTwice(row: FieldVersion, c: RowChange)
    requires !c.Increment?
    ensures Apply(Apply(row, c), c) == Apply(row, c)
  {
  }

  /** After upserting a fixed change into several fields, each listed field's row is
      its old row (or a new one) with the change applied, and every other field's row
      is unchanged. */
  lemma {:induction false} UpsertAllRow(rows: seq<FieldVersion>, names: seq<string>, c: RowChange, v: int, n: string)
    requires !c.Increment?
    ensures Row(UpsertAll(rows, names, c, v), n) ==
      if n in names then Some(Apply(Base(rows, n, v), c)) else Row(rows, n)
  {
    if |names| > 0 {
      var init := names[..|names| - 1];
      var last := names[|names| - 1];
      assert names == init + [last];
      var mid := UpsertAll(rows, init, c, v);
      UpsertAllRow(rows, init, c, v, n);
      UpsertRow(mid, last, c, v, n);
      if n == last {
        UpsertAllRow(rows, init, c, v, last);
        if last in init {
          ApplyTwice(Base(rows, last, v), c);
        }
      }
    }
  }

  lemma {:induction false} UpsertAllKeepsUnique(rows: seq<FieldVersion>, names: seq<string>, c: RowChange, v: int)
    requires UniqueNames(rows)
    ensures UniqueNames(UpsertAll(rows, names, c, v))
  {
    if |names| > 0 {
      UpsertAllKeepsUnique(rows, names[..|names| - 1], c, v);
      UpsertKeepsUnique(UpsertAll(rows, names[..|names| - 1], c, v), names[|names| - 1], c, v);
    }
  }

  lemma {:induction false} UpsertAllKeepsConsistent(rows: seq<FieldVersion>, names: seq<string>, c: RowChange, v: int)
    requires AllConsistent(rows) && !c.Initialize?
    ensures AllConsistent(UpsertAll(rows, names, c, v))
  {
    if |names| > 0 {
      UpsertAllKeepsConsistent(rows, names[..|names| - 1], c, v);
      UpsertKeepsConsistent(UpsertAll(rows, names[..|names| - 1], c, v), names[|names| - 1], c, v);
    }
  }

  /** With a unique key, the row found for a field is the one row of that field. */
  lemma RowOfUnique(rows: seq<FieldVersion>, i: int)
    requires UniqueNames(rows) && 0 <= i < |rows|
    ensures Row(rows, rows[i].fieldName) == Some(rows[i])
  {
    var r := Row(rows, rows[i].fieldName);
    var k :| 0 <= k < |rows| && rows[k] == r.value;
  }

  /** With a unique key, a field is listed as stale exactly when its row is stale. */
  lemma StaleNamesOfUnique(rows: seq<FieldVersion>, n: string)
    requires UniqueNames(rows)
    ensures n in StaleNames(rows) <==> Row(rows, n).Some? && Row(rows, n).value.isStale
  {
    if n in StaleNames(rows) {
      var row :| row in rows && row.isStale && row.fieldName == n;
      var i :| 0 <= i < |rows| && rows[i] == row;
      RowOfUnique(rows, i);
    }
  }

  /** The hash `clearStaleness` writes for a field: `newHashes?.[field] || null` (a
      digest is a non-empty string, so it is never replaced by `null`). */
  function HashFor(newHashes: Option<map<string, ContentHash>>, name: string): Option<ContentHash> {
    if newHashes.Some? && name in newHashes.value then Some(newHashes.value[name]) else None
  }

  /** One `increment_field_version` call per listed field, in list order. */
  function BumpAll(rows: seq<FieldVersion>, names: seq<string>, newHashes: Option<map<string, ContentHash>>, v: int)
    : seq<FieldVersion>
  {
    if |names| == 0 then rows
    else
      var last := names[|names| - 1];
      Upsert(BumpAll(rows, names[..|names| - 1], newHashes, v), last, Increment(HashFor(newHashes, last)), v)
  }

  /** Bumping distinct fields increments each listed field's version once and writes
      its hash; other rows are unchanged. */
  lemma {:induction false} BumpAllRow(rows: seq<FieldVersion>, names: seq<string>,
                                      newHashes: Option<map<string, ContentHash>>, v: int, n: string)
    requires NoDup(names)
    ensures Row(BumpAll(rows, names, newHashes, v), n) ==
      if n in names then Some(Apply(Base(rows, n, v), Increment(HashFor(newHashes, n))))
      else Row(rows, n)
  {
    if |names| > 0 {
      var init := names[..|names| - 1];
      var last := names[|names| - 1];
      assert names == init + [last];
      assert NoDup(init);
      assert last !in init;
      BumpAllRow(rows, init, newHashes, v, n);
      UpsertRow(BumpAll(rows, init, newHashes, v), last, Increment(HashFor(newHashes, last)), v, n);
      if n == last {
        BumpAllRow(rows, init, newHashes, v, last);
      }
    }
  }

  lemma {:induction false} BumpAllKeepsUnique(rows: seq<FieldVersion>, names: seq<string>,
                                              newHashes: Option<map<string, ContentHash>>, v: int)
    requires UniqueNames(rows)
    ensures UniqueNames(BumpAll(rows, names, newHashes, v))
  {
    if |names| > 0 {
      var init := names[..|names| - 1];
      var last := names[|names| - 1];
      BumpAllKeepsUnique(rows, init, newHashes, v);
      UpsertKeepsUnique(BumpAll(rows, init, newHashes, v), last, Increment(HashFor(newHashes, last)), v);
    }
  }

  /** Bumping a consistent table keeps it consistent. */
  lemma {:induction false} BumpAllKeepsConsistent(rows: seq<FieldVersion>, names: seq<string>,
                                                  newHashes: Option<map<string, ContentHash>>, v: int)
    requires AllConsistent(rows)
    ensures AllConsistent(BumpAll(rows, names, newHashes, v))
  {
    if |names| > 0 {
      var init := names[..|names| - 1];
      var last := names[|names| - 1];
      BumpAllKeepsConsistent(rows, init, newHashes, v);
      UpsertKeepsConsistent(BumpAll(rows, init, newHashes, v), last, Increment(HashFor(newHashes, last)), v);
    }
  }

  /** `update({ stale_fields }).eq('id', businessId)`: no effect without a row. */
  function WithStaleFields(b: Option<Business>, names: seq<string>): Option<Business> {
    if b.Some? then Some(b.value.(staleFields := names)) else None
  }

  // ------------------------------------------------------------------
  // manualMarkStale (staleness.ts:162-188)
  // ------------------------------------------------------------------

  /** `manualMarkStale`: marks every listed field stale with the reason and one
      timestamp, then overwrites the business's aggregate list with the list given. */
  method ManualMarkStale(store: Store, fields: seq<string>, reason: string, now: Timestamp)
    modifies store
    ensures store.versions == UpsertAll(old(store.versions), fields, MarkStale(reason, now), store.initialVersion)
    ensures store.business == WithStaleFields(old(store.business), fields)
    ensures store.runs == old(store.runs)
  {
    var i := 0;
    while i < |fields|
      invariant 0 <= i <= |fields|
      invariant store.versions == UpsertAll(old(store.versions), fields[..i], MarkStale(reason, now), store.initialVersion)
      invariant store.business == old(store.business) && store.runs == old(store.runs)
    {
      assert fields[..i + 1][..i] == fields[..i];
      store.UpsertVersion(fields[i], MarkStale(reason, now));
      i := i + 1;
    }
    assert fields[..i] == fields;
    store.business := WithStaleFields(store.business, fields);
  }

  /** After marking, each listed field's row is stale with the reason and the
      timestamp, keeping its version and hash; every other row is unchanged. */
  lemma MarkedRow(rows: seq<FieldVersion>, fields: seq<string>, reason: string, now: Timestamp, v: int, n: string)
    ensures var r := Row(UpsertAll(rows, fields, MarkStale(reason, now), v), n);
      if n in fields then
        r.Some? && r.value.isStale && r.value.staleReason == Some(reason) && r.value.staleSince == Some(now) &&
        r.value.version == Base(rows, n, v).version && r.value.contentHash == Base(rows, n, v).contentHash
      else r == Row(rows, n)
  {
    UpsertAllRow(rows, fields, MarkStale(reason, now), v, n);
  }

  // ------------------------------------------------------------------
  // manualClearStaleness and clearStaleness (staleness.ts:198-267)
  // ------------------------------------------------------------------

  /** `manualClearStaleness`: clears every listed field, then recomputes the
      aggregate list as the fields whose rows are still stale. */
  method ManualClearStaleness(store: Store, fields: seq<string>, now: Timestamp)
    modifies store
    ensures store.versions == UpsertAll(old(store.versions), fields, ClearStale(now), store.initialVersion)
    ensures store.business == WithStaleFields(old(store.business), StaleNames(store.versions))
    ensures store.runs == old(store.runs)
  {
    var i := 0;
    while i < |fields|
      invariant 0 <= i <= |fields|
      invariant store.versions == UpsertAll(old(store.versions), fields[..i], ClearStale(now), store.initialVersion)
      invariant store.business == old(store.business) && store.runs == old(store.runs)
    {
      assert fields[..i + 1][..i] == fields[..i];
      store.UpsertVersion(fields[i], ClearStale(now));
      i := i + 1;
    }
    assert fields[..i] == fields;
    var stillStale := StaleNames(store.versions);
    store.business := WithStaleFields(store.business, stillStale);
  }

  /** The rows after `clearStaleness`. */
  function ClearedRows(rows: seq<FieldVersion>, fields: seq<string>, newHashes: Option<map<string, ContentHash>>,
                       now: Timestamp, v: int): seq<FieldVersion>
  {
    BumpAll(UpsertAll(rows, fields, ClearStale(now), v), fields, newHashes, v)
  }

  /** `clearStaleness`: clears the listed fields, then bumps each one's version with
      its new hash or `null`. */
  method ClearStaleness(store: Store, fields: seq<string>, newHashes: Option<map<string, ContentHash>>, now: Timestamp)
    modifies store
    ensures store.versions == ClearedRows(old(store.versions), fields, newHashes, now, store.initialVersion)
    ensures store.business ==
      WithStaleFields(old(store.business), StaleNames(UpsertAll(old(store.versions), fields, ClearStale(now), store.initialVersion)))
    ensures store.runs == old(store.runs)
  {
    ManualClearStaleness(store, fields, now);
    ghost var cleared := store.versions;
    var i := 0;
    while i < |fields|
      invariant 0 <= i <= |fields|
      invariant store.versions == BumpAll(cleared, fields[..i], newHashes, store.initialVersion)
      invariant store.business == WithStaleFields(old(store.business), StaleNames(cleared))
      invariant store.runs == old(store.runs)
    {
      assert fields[..i + 1][..i] == fields[..i];
      store.UpsertVersion(fields[i], Increment(HashFor(newHashes, fields[i])));
      i := i + 1;
    }
    assert fields[..i] == fields;
  }

  /** After `clearStaleness` of distinct fields, each listed field is not stale, has no
      reason and no `stale_since`, carries its new hash (or none) and a version one
      above its old one; every other row is unchanged. */
  lemma ClearedRow(rows: seq<FieldVersion>, fields: seq<string>, newHashes: Option<map<string, ContentHash>>,
                   now: Timestamp, v: int, n: string)
    requires NoDup(fields)
    ensures var r := Row(ClearedRows(rows, fields, newHashes, now, v), n);
      if n in fields then
        r.Some? && !r.value.isStale && r.value.staleReason.None? && r.value.staleSince.None? &&
        r.value.version == Base(rows, n, v).version + 1 && r.value.contentHash == HashFor(newHashes, n) &&
        r.value.updatedAt == Some(now)
      else r == Row(rows, n)
  {
    var c := UpsertAll(rows, fields, ClearStale(now), v);
    UpsertAllRow(rows, fields, ClearStale(now), v, n);
    BumpAllRow(c, fields, newHashes, v, n);
  }

  /** The recomputed aggregate list names exactly the unlisted fields whose rows were
      stale. */
  lemma ClearedStaleList(rows: seq<FieldVersion>, fields: seq<string>, now: Timestamp, v: int, n: string)
    requires UniqueNames(rows)
    ensures n in StaleNames(UpsertAll(rows, fields, ClearStale(now), v)) <==>
      n !in fields && Row(rows, n).Some? && Row(rows, n).value.isStale
  {
    UpsertAllKeepsUnique(rows, fields, ClearStale(now), v);
    StaleNamesOfUnique(UpsertAll(rows, fields, ClearStale(now), v), n);
    UpsertAllRow(rows, fields, ClearStale(now), v, n);
  }

  /** Clearing keeps the key unique and the row invariant. */
  lemma ClearedRowsInvariant(rows: seq<FieldVersion>, fields: seq<string>, newHashes: Option<map<string, ContentHash>>,
                             now: Timestamp, v: int)
    requires UniqueNames(rows) && AllConsistent(rows)
    ensures UniqueNames(ClearedRows(rows, fields, newHashes, now, v))
    ensures AllConsistent(ClearedRows(rows, fields, newHashes, now, v))
  {
    UpsertAllKeepsUnique(rows, fields, ClearStale(now), v);
    UpsertAllKeepsConsistent(rows, fields, ClearStale(now), v);
    BumpAllKeepsUnique(UpsertAll(rows, fields, ClearStale(now), v), fields, newHashes, v);
    BumpAllKeepsConsistent(UpsertAll(rows, fields, ClearStale(now), v), fields, newHashes, v);
  }

  // ------------------------------------------------------------------
  // markDependentsStale (staleness.ts:71-156)
  // ------------------------------------------------------------------

  datatype MarkStaleResult = MarkStaleResult(staleFields: seq<string>, affectedSections: seq<string>, reason: string)

  /** `changedBy`: `'user'` or `` `agent:${name}` ``. */
  datatype Editor = ByUser | ByAgent(name: string)

  function EditorText(e: Editor): string {
    match e
    case ByUser => "user"
    case ByAgent(name) => "agent:" + name
  }

  /** What the reason says after `'<field>' was `. */
  function Action(editor: Editor): string {
    if editor.ByUser? then "edited by user" else "updated by " + EditorText(editor)
  }

  /** The stale reason (staleness.ts:120-123). */
  function Reason(field: string, editor: Editor): string {
    "'" + field + "' was " + Action(editor)
  }

  /** Different editors give different actions. */
  lemma ActionInjective(editor: Editor, other: Editor)
    ensures Action(editor) == Action(other) ==> editor == other
  {
    if Action(editor) == Action(other) && editor.ByAgent? && other.ByAgent? {
      var q := "updated by agent:";
      assert Action(editor) == q + editor.name && Action(other) == q + other.name;
      assert editor.name == Action(editor)[|q|..] && other.name == Action(other)[|q|..];
    }
  }

  /** The reason quotes the field, tells a user's edit from an agent's update, and
      names the agent. */
  lemma ReasonIdentifiesEditor(field: string, editor: Editor, other: Editor)
    ensures Reason(field, editor)[..|field| + 2] == "'" + field + "'"
    ensures Reason(field, editor) == Reason(field, other) ==> editor == other
  {
    var p := "'" + field + "' was ";
    assert Reason(field, editor) == p + Action(editor);
    assert Reason(field, other) == p + Action(other);
    assert Action(editor) == Reason(field, editor)[|p|..];
    assert Action(other) == Reason(field, other)[|p|..];
    ActionInjective(editor, other);
  }

  function FieldNames(fs: seq<Field>): (r: seq<string>)
    ensures |r| == |fs| && forall i | 0 <= i < |fs| :: r[i] == FieldName(fs[i])
  {
    if |fs| == 0 then [] else FieldNames(fs[..|fs| - 1]) + [FieldName(fs[|fs| - 1])]
  }

  /** The fields `getDownstreamDependents(changedField)` reaches: none for a string
      that names no field. */
  function DirectSet(field: string): set<Field> {
    match ParseField(field)
    case Some(f) => Down(f)
    case None => {}
  }

  /** The `SUBFIELD_DEPENDENCIES` lists of the changed sub-fields, concatenated in
      order (staleness.ts:98-104). */
  function Additional(field: string, subs: seq<string>): seq<Field> {
    if |subs| == 0 then []
    else
      var key := field + "." + subs[|subs| - 1];
      Additional(field, subs[..|subs| - 1]) +
        (if SubfieldDependencies(key).Some? then SubfieldDependencies(key).value else [])
  }

  /** The list `markDependentsStale` marks: the first occurrence of each name of the
      direct dependents (in whatever order the walk found them) followed by the
      sub-field dependents. */
  ghost predicate StaleList(field: string, subs: seq<string>, list: seq<string>) {
    exists direct: seq<Field> :: NoDup(direct) && Elems(direct) == DirectSet(field) &&
      list == Dedup(FieldNames(direct) + FieldNames(Additional(field, subs)))
  }

  lemma StaleListOf(field: string, subs: seq<string>, direct: seq<Field>, additional: seq<Field>)
    requires NoDup(direct) && Elems(direct) == DirectSet(field) && additional == Additional(field, subs)
    ensures StaleList(field, subs, Dedup(FieldNames(direct) + FieldNames(additional)))
  {
  }

  /** The collection loop over the changed sub-fields. */
  method AdditionalDependents(field: string, subs: seq<string>) returns (additional: seq<Field>)
    ensures additional == Additional(field, subs)
  {
    additional := [];
    var i := 0;
    while i < |subs|
      invariant 0 <= i <= |subs|
      invariant additional == Additional(field, subs[..i])
    {
      assert subs[..i + 1][..i] == subs[..i];
      var key := field + "." + subs[i];
      var deps := SubfieldDependencies(key);
      if deps.Some? {
        additional := additional + deps.value;
      }
      i := i + 1;
    }
    assert subs[..i] == subs;
  }

  /** `markDependentsStale`.  With no change, or an insignificant one, or nothing
      downstream, nothing is written; otherwise the stale list is marked, the
      aggregate list overwritten, and the changed field's version bumped with its new
      hash. */
  method MarkDependentsStale(store: Store, changedField: string, changedBy: Editor,
                             oldValue: Json, newValue: Json, now: Timestamp)
    returns (r: MarkStaleResult)
    modifies store
    ensures store.runs == old(store.runs)
    ensures var a := AnalyzeChange(oldValue, newValue);
      if !a.hasChange then
        r == MarkStaleResult([], [], "No change detected") &&
        store.versions == old(store.versions) && store.business == old(store.business)
      else if !IsSignificantChange(changedField, a.changedSubfields) then
        r == MarkStaleResult([], [], "Change not significant enough to trigger updates") &&
        store.versions == old(store.versions) && store.business == old(store.business)
      else
        StaleList(changedField, a.changedSubfields, r.staleFields) &&
        if |r.staleFields| == 0 then
          r == MarkStaleResult([], [], "No downstream dependents found") &&
          store.versions == old(store.versions) && store.business == old(store.business)
        else
          r.reason == Reason(changedField, changedBy) &&
          r.affectedSections == AffectedSections(changedField, Some(a.changedSubfields)) &&
          store.versions == Upsert(
            UpsertAll(old(store.versions), r.staleFields, MarkStale(r.reason, now), store.initialVersion),
            changedField, Increment(Some(a.newHash)), store.initialVersion) &&
          store.business == WithStaleFields(old(store.business), r.staleFields)
  {
    var analysis := AnalyzeChange(oldValue, newValue);
    if !analysis.hasChange {
      return MarkStaleResult([], [], "No change detected");
    }
    if !IsSignificantChange(changedField, analysis.changedSubfields) {
      return MarkStaleResult([], [], "Change not significant enough to trigger updates");
    }
    var direct: seq<Field> := [];
    var parsed := ParseField(changedField);
    if parsed.Some? {
      direct := GetDownstreamDependents(parsed.value);
    }
    var additional := AdditionalDependents(changedField, analysis.changedSubfields);
    var allStale := Dedup(FieldNames(direct) + FieldNames(additional));
    StaleListOf(changedField, analysis.changedSubfields, direct, additional);
    if |allStale| == 0 {
      return MarkStaleResult([], [], "No downstream dependents found");
    }
    var reason := Reason(changedField, changedBy);
    ManualMarkStale(store, allStale, reason, now);
    store.UpsertVersion(changedField, Increment(Some(analysis.newHash)));
    var sections := GetAffectedWebsiteSections(changedField, analysis.changedSubfields);
    r := MarkStaleResult(allStale, sections, reason);
  }

  /** A name is listed exactly when one of the fields has it. */
  lemma FieldNamesIff(fs: seq<Field>, n: string)
    ensures n in FieldNames(fs) <==> exists t | t in fs :: FieldName(t) == n
  {
    if n in FieldNames(fs) {
      var i :| 0 <= i < |fs| && FieldNames(fs)[i] == n;
      assert fs[i] in fs;
    }
    if t :| t in fs && FieldName(t) == n {
      var i :| 0 <= i < |fs| && fs[i] == t;
      assert FieldNames(fs)[i] == n;
    }
  }

  /** The stale list has no duplicates and holds exactly the names of the direct and
      the sub-field dependents. */
  lemma StaleListIff(field: string, subs: seq<string>, list: seq<string>, n: string)
    requires StaleList(field, subs, list)
    ensures NoDup(list)
    ensures n in list <==>
      (exists t | t in DirectSet(field) :: FieldName(t) == n) ||
      (exists t | t in Additional(field, subs) :: FieldName(t) == n)
  {
    var direct :| NoDup(direct) && Elems(direct) == DirectSet(field) &&
      list == Dedup(FieldNames(direct) + FieldNames(Additional(field, subs)));
    FieldNamesIff(direct, n);
    FieldNamesIff(Additional(field, subs), n);
    assert forall t :: t in direct <==> t in DirectSet(field);
  }

  /** When the changed field is a field of the graph, the sub-field dependencies add
      nothing: the stale list names exactly the fields downstream of it. */
  lemma StaleListIsDownstream(field: string, subs: seq<string>, list: seq<string>, f: Field, n: string)
    requires ParseField(field) == Some(f)
    requires StaleList(field, subs, list)
    ensures n in list <==> exists t | t in Down(f) :: FieldName(t) == n
  {
    StaleListIff(field, subs, list, n);
    if t :| t in Additional(field, subs) && FieldName(t) == n {
      AdditionalIsDownstream(field, subs, f, t);
    }
  }

  lemma {:induction false} AdditionalIsDownstream(field: string, subs: seq<string>, f: Field, t: Field)
    requires ParseField(field) == Some(f)
    requires t in Additional(field, subs)
    ensures t in Down(f)
  {
    var init := subs[..|subs| - 1];
    var key := field + "." + subs[|subs| - 1];
    if t in Additional(field, init) {
      AdditionalIsDownstream(field, init, f, t);
    } else {
      assert SubfieldDependencies(key).Some? && t in SubfieldDependencies(key).value;
      SubfieldDependenciesAreDownstream(key, t);
      var i :| 0 <= i < |SubfieldEntries| &&
        SubfieldKey(SubfieldEntries[i]) == key && t in Down(SubfieldEntries[i].parent);
      SubfieldParent(field, subs[|subs| - 1], f, i);
    }
  }

  /** A key `field.sub` of `SUBFIELD_DEPENDENCIES` belongs to `field`: field names
      and table children contain no dot. */
  lemma SubfieldParent(field: string, sub: string, f: Field, i: int)
    requires ParseField(field) == Some(f)
    requires 0 <= i < |SubfieldEntries| && SubfieldKey(SubfieldEntries[i]) == field + "." + sub
    ensures SubfieldEntries[i].parent == f
  {
    var p := SubfieldEntries[i].parent;
    FieldNameDotFree(f);
    FieldNameDotFree(p);
    DotSplit(field, sub, FieldName(p), SubfieldEntries[i].child);
    FieldNameInjective(f, p);
  }

  /** Joining two dot-free heads with a dot determines the head. */
  lemma DotSplit(a: string, x: string, b: string, y: string)
    requires '.' !in a && '.' !in b
    requires a + "." + x == b + "." + y
    ensures a == b
  {
    var key := a + "." + x;
    assert key[|a|] == '.';
    assert key == b + "." + y;
    assert key[|b|] == '.';
    assert a == key[..|a|];
    assert b == key[..|b|];
  }

  lemma FieldNameDotFree(f: Field)
    ensures '.' !in FieldName(f)
  {
  }

  // ------------------------------------------------------------------
  // Queries (staleness.ts:277-320)
  // ------------------------------------------------------------------

  /** `getStalenessInfo`: the stale rows, in row order. */
  method GetStalenessInfo(store: Store) returns (rows: seq<FieldVersion>)
    ensures forall row :: row in rows <==> row in store.versions && row.isStale
    ensures |rows| <= |store.versions|
  {
    rows := Filter(store.versions, (row: FieldVersion) => row.isStale);
  }

  /** The record `getFieldVersions` builds: one entry per field name, a later row
      overwriting an earlier one. */
  function ByName(rows: seq<FieldVersion>): map<string, FieldVersion> {
    if |rows| == 0 then map[]
    else ByName(rows[..|rows| - 1])[rows[|rows| - 1].fieldName := rows[|rows| - 1]]
  }

  /** `getFieldVersions`. */
  method GetFieldVersions(store: Store) returns (versions: map<string, FieldVersion>)
    ensures versions == ByName(store.versions)
  {
    var rows := store.versions;
    versions := map[];
    var i := 0;
    while i < |rows|
      invariant 0 <= i <= |rows|
      invariant versions == ByName(rows[..i])
    {
      assert rows[..i + 1][..i] == rows[..i];
      versions := versions[rows[i].fieldName := rows[i]];
      i := i + 1;
    }
    assert rows[..i] == rows;
  }

  /** Every field with a row has an entry, which is a row of that field; with a
      unique key it is that field's row. */
  lemma {:induction false} ByNameIff(rows: seq<FieldVersion>, n: string)
    ensures n in ByName(rows) <==> n in Names(rows)
    ensures n in ByName(rows) ==> ByName(rows)[n] in rows && ByName(rows)[n].fieldName == n
    ensures n in ByName(rows) && UniqueNames(rows) ==> Some(ByName(rows)[n]) == Row(rows, n)
  {
    if |rows| > 0 {
      var init := rows[..|rows| - 1];
      var last := rows[|rows| - 1];
      assert rows == init + [last];
      assert Names(rows) == Names(init) + {last.fieldName};
      ByNameIff(init, n);
      if n in ByName(rows) && UniqueNames(rows) {
        var i :| 0 <= i < |rows| && rows[i] == ByName(rows)[n];
        RowOfUnique(rows, i);
      }
    }
  }

  // ------------------------------------------------------------------
  // getAffectedWebsiteSections (staleness.ts:331-356)
  // ------------------------------------------------------------------

  /** `getAffectedWebsiteSections`: the same result as the graph's
      `getAffectedSections` with the sub-fields given. */
  method GetAffectedWebsiteSections(field: string, changedSubfields: seq<string>) returns (sections: seq<string>)
    ensures sections == AffectedSections(field, Some(changedSubfields))
  {
    var acc;
    ghost var added;
    acc, added := AddSectionsOf([], [], field);
    acc, added := AddSubfieldSections(acc, added, field, changedSubfields);
    AffectedFromCollected(field, Some(changedSubfields), added, acc);
    if "ALL" in acc {
      return ["ALL"];
    }
    return acc;
  }

  // ------------------------------------------------------------------
  // initializeFieldVersions (staleness.ts:366-401)
  // ------------------------------------------------------------------

  /** One upsert per generated field with a truthy value, in list order. */
  function InitAll(rows: seq<FieldVersion>, business: seq<Member>, fields: seq<Field>, now: Timestamp, v: int)
    : seq<FieldVersion>
  {
    if |fields| == 0 then rows
    else
      var rest := InitAll(rows, business, fields[..|fields| - 1], now, v);
      var name := FieldName(fields[|fields| - 1]);
      var value := Get(business, name);
      if Truthy(value) then Upsert(rest, name, Initialize(Hash(value), now), v) else rest
  }

  /** `initializeFieldVersions`. */
  method InitializeFieldVersions(store: Store, business: seq<Member>, now: Timestamp)
    modifies store
    ensures store.versions == InitAll(old(store.versions), business, GeneratedFields, now, store.initialVersion)
    ensures store.business == old(store.business) && store.runs == old(store.runs)
  {
    var fields := GeneratedFields;
    var i := 0;
    while i < |fields|
      invariant 0 <= i <= |fields|
      invariant store.versions == InitAll(old(store.versions), business, fields[..i], now, store.initialVersion)
      invariant store.business == old(store.business) && store.runs == old(store.runs)
    {
      assert fields[..i + 1][..i] == fields[..i];
      var name := FieldName(fields[i]);
      var value := Get(business, name);
      if Truthy(value) {
        store.UpsertVersion(name, Initialize(Hash(value), now));
      }
      i := i + 1;
    }
    assert fields[..i] == fields;
  }

  /** A field with a truthy value gets a version-1, non-stale row with its hash; every
      other row is unchanged. */
  lemma {:induction false} InitializedRow(rows: seq<FieldVersion>, business: seq<Member>, fields: seq<Field>,
                                         now: Timestamp, v: int, n: string)
    requires NoDup(FieldNames(fields))
    ensures var r := Row(InitAll(rows, business, fields, now, v), n);
      if n in FieldNames(fields) && Truthy(Get(business, n)) then
        r == Some(Apply(Base(rows, n, v), Initialize(Hash(Get(business, n)), now)))
      else r == Row(rows, n)
  {
    if |fields| > 0 {
      var init := fields[..|fields| - 1];
      var name := FieldName(fields[|fields| - 1]);
      assert FieldNames(fields) == FieldNames(init) + [name];
      assert NoDup(FieldNames(init)) && name !in FieldNames(init);
      InitializedRow(rows, business, init, now, v, n);
      if Truthy(Get(business, name)) {
        var rest := InitAll(rows, business, init, now, v);
        UpsertRow(rest, name, Initialize(Hash(Get(business, name)), now), v, n);
        if n == name {
          InitializedRow(rows, business, init, now, v, name);
        }
      }
    }
  }

  /** Distinct fields have distinct names. */
  lemma {:induction false} FieldNamesNoDup(fs: seq<Field>)
    requires NoDup(fs)
    ensures NoDup(FieldNames(fs))
  {
    forall i, j | 0 <= i < j < |fs| ensures FieldNames(fs)[i] != FieldNames(fs)[j] {
      if FieldName(fs[i]) == FieldName(fs[j]) {
        FieldNameInjective(fs[i], fs[j]);
      }
    }
  }

  /** The initialised field names are distinct. */
  lemma GeneratedNamesNoDup()
    ensures NoDup(FieldNames(GeneratedFields))
  {
    assert NoDup(GeneratedFields);
    FieldNamesNoDup(GeneratedFields);
  }
}
