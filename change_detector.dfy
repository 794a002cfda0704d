/** Change detection for business fields (src/lib/dependencies/change-detector.ts):
    content hashing with sorted keys, semantic comparison, sub-field detection,
    change analysis, significance and batch detection. */
module ChangeDetector {
  import opened Collections
  import opened Strings
  import opened JsonValues

  // ------------------------------------------------------------------
  // Key order used by `Object.keys(v).sort()`
  // ------------------------------------------------------------------

  /** Lexicographic order on strings, character by character. */
  predicate StrLt(a: string, b: string) {
    if |a| == 0 then |b| > 0
    else if |b| == 0 then false
    else if a[0] == b[0] then StrLt(a[1..], b[1..])
    else a[0] < b[0]
  }

  lemma StrLtIrreflexive(a: string)
    ensures !StrLt(a, a)
  {
  }

  lemma {:induction false} StrLtTransitive(a: string, b: string, c: string)
    requires StrLt(a, b) && StrLt(b, c)
    ensures StrLt(a, c)
  {
    if |a| > 0 && |b| > 0 && |c| > 0 && a[0] == b[0] && b[0] == c[0] {
      StrLtTransitive(a[1..], b[1..], c[1..]);
    }
  }

  lemma {:induction false} StrLtTotal(a: string, b: string)
    requires a != b
    ensures StrLt(a, b) || StrLt(b, a)
  {
    if |a| > 0 && |b| > 0 && a[0] == b[0] {
      assert a == [a[0]] + a[1..] && b == [b[0]] + b[1..];
      StrLtTotal(a[1..], b[1..]);
    }
  }

  predicate StrictlySorted(s: seq<string>) {
    forall i, j | 0 <= i < j < |s| :: StrLt(s[i], s[j])
  }

  /** Inserts a new key into a sorted list of keys. */
  function Insert(x: string, s: seq<string>): (r: seq<string>)
    requires StrictlySorted(s) && x !in s
    ensures StrictlySorted(r)
    ensures |r| == |s| + 1
    ensures forall y :: y in r <==> y == x || y in s
  {
    if |s| == 0 then [x]
    else if StrLt(x, s[0]) then
      assert forall j | 0 < j < |s| :: StrLt(x, s[j]) by {
        forall j | 0 < j < |s| ensures StrLt(x, s[j]) {
          StrLtTransitive(x, s[0], s[j]);
        }
      }
      [x] + s
    else
      StrLtTotal(x, s[0]);
      var t := Insert(x, s[1..]);
      assert forall y | y in t :: StrLt(s[0], y);
      [s[0]] + t
  }

  /** `keys.sort()` on a duplicate-free list of keys. */
  function SortKeys(s: seq<string>): (r: seq<string>)
    requires NoDup(s)
    ensures StrictlySorted(r)
    ensures |r| == |s|
    ensures forall y :: y in r <==> y in s
  {
    if |s| == 0 then []
    else
      assert s[|s| - 1] !in s[..|s| - 1];
      assert forall y :: y in s <==> y in s[..|s| - 1] || y == s[|s| - 1];
      Insert(s[|s| - 1], SortKeys(s[..|s| - 1]))
  }

  /** Two strictly sorted key lists with the same keys are the same list: the
      sorted order depends on the set of keys only. */
  lemma {:induction false} SortedUnique(a: seq<string>, b: seq<string>)
    requires StrictlySorted(a) && StrictlySorted(b)
    requires forall x :: x in a <==> x in b
    ensures a == b
  {
    assert |a| > 0 ==> a[0] in a;
    assert |b| > 0 ==> b[0] in b;
    if |a| > 0 && |b| > 0 {
      if a[0] != b[0] {
        assert a[0] in b && b[0] in a;
        var i :| 0 <= i < |b| && b[i] == a[0];
        var j :| 0 <= j < |a| && a[j] == b[0];
        assert i > 0 && j > 0;
        assert StrLt(b[0], a[0]) && StrLt(a[0], b[0]);
        StrLtTransitive(a[0], b[0], a[0]);
        StrLtIrreflexive(a[0]);
      }
      assert a == [a[0]] + a[1..] && b == [b[0]] + b[1..];
      forall x | x in a[1..] ensures x in b[1..] {
        var i :| 0 <= i < |a[1..]| && a[1..][i] == x;
        assert StrLt(a[0], a[i + 1]);
        StrLtIrreflexive(x);
        assert x in b;
      }
      forall x | x in b[1..] ensures x in a[1..] {
        var i :| 0 <= i < |b[1..]| && b[1..][i] == x;
        assert StrLt(b[0], b[i + 1]);
        StrLtIrreflexive(x);
        assert x in a;
      }
      SortedUnique(a[1..], b[1..]);
    }
  }

  // ------------------------------------------------------------------
  // Content hashing (change-detector.ts:18-40)
  // ------------------------------------------------------------------

  /** The value that `JSON.stringify` with the key-sorting replacer serialises:
      every object's members sorted by name with `undefined` members dropped, and
      `undefined` array elements written as `null`. */
  function Canon(v: Json): (r: Json)
    ensures r.Undefined? <==> v.Undefined?
    ensures r.Null? <==> v.Null?
    ensures Truthy(r) == Truthy(v)
  {
    match v
    case Arr(items) => Arr(CanonItems(items))
    case Obj(ms) => Obj(SortedMembers(CanonMembers(ms)))
    case _ => v
  }

  /** An array element as serialised: `undefined` becomes `null`. */
  function CanonElement(v: Json): (r: Json)
    ensures !r.Undefined?
  {
    if v.Undefined? then Null else Canon(v)
  }

  function CanonItems(items: seq<Json>): (r: seq<Json>)
    ensures |r| == |items|
  {
    if |items| == 0 then []
    else [if items[0].Undefined? then Null else Canon(items[0])] + CanonItems(items[1..])
  }

  lemma {:induction false} CanonItemsAt(items: seq<Json>, i: int)
    requires 0 <= i < |items|
    ensures CanonItems(items)[i] == CanonElement(items[i])
  {
    if i > 0 {
      CanonItemsAt(items[1..], i - 1);
    }
  }

  function CanonMembers(ms: seq<Member>): (r: seq<Member>)
    ensures |r| == |ms|
  {
    if |ms| == 0 then []
    else [Member(ms[0].key, Canon(ms[0].value))] + CanonMembers(ms[1..])
  }

  /** Canonicalising the members keeps their names and canonicalises what each name
      reads as. */
  lemma {:induction false} GetCanonMembers(ms: seq<Member>, k: string)
    ensures Get(CanonMembers(ms), k) == Canon(Get(ms, k))
  {
    if |ms| > 0 {
      var r := CanonMembers(ms);
      assert r[0] == Member(ms[0].key, Canon(ms[0].value));
      assert r[1..] == CanonMembers(ms[1..]);
      GetCanonMembers(ms[1..], k);
    }
  }

  /** The member names that survive serialisation, in sorted order. */
  function PresentKeys(cms: seq<Member>): (r: seq<string>)
    ensures StrictlySorted(r)
    ensures forall k :: k in r <==> !Get(cms, k).Undefined?
  {
    var sorted := SortKeys(Keys(cms));
    FilterKeepsOrder(sorted, k => !Get(cms, k).Undefined?, (a, b) => StrLt(a, b));
    Filter(sorted, k => !Get(cms, k).Undefined?)
  }

  /** The object the replacer builds: sorted names, each with its value. */
  function SortedMembers(cms: seq<Member>): (r: seq<Member>)
  {
    var keys := PresentKeys(cms);
    seq(|keys|, i requires 0 <= i < |keys| => Member(keys[i], Get(cms, keys[i])))
  }

  /** `hashFieldContent`: `null` and `undefined` share the sentinel 'null'; every other
      value is the digest of its canonical serialisation (SHA-256 is taken to be
      collision free, so the digest is its input). */
  datatype ContentHash = NullHash | Digest(canonical: Json)

  function Hash(v: Json): (h: ContentHash)
    ensures h.NullHash? <==> IsNullish(v)
  {
    if IsNullish(v) then NullHash else Digest(Canon(v))
  }

  /** Hashing ignores the order of an object's members: two objects whose members
      agree name by name (after canonicalising) hash alike. */
  lemma HashIgnoresKeyOrder(m1: seq<Member>, m2: seq<Member>)
    requires forall k :: Canon(Get(m1, k)) == Canon(Get(m2, k))
    ensures Hash(Obj(m1)) == Hash(Obj(m2))
  {
    var c1, c2 := CanonMembers(m1), CanonMembers(m2);
    forall k ensures Get(c1, k) == Get(c2, k) {
      GetCanonMembers(m1, k);
      GetCanonMembers(m2, k);
    }
    SameReadsSameSortedMembers(c1, c2);
  }

  /** Two member lists that read alike under every name serialise alike. */
  lemma SameReadsSameSortedMembers(c1: seq<Member>, c2: seq<Member>)
    requires forall k :: Get(c1, k) == Get(c2, k)
    ensures SortedMembers(c1) == SortedMembers(c2)
  {
    var p1, p2 := PresentKeys(c1), PresentKeys(c2);
    SortedUnique(p1, p2);
  }

  /** In particular, two JavaScript objects holding the same name/value pairs in any
      order hash alike. */
  lemma HashOfReorderedObject(m1: seq<Member>, m2: seq<Member>)
    requires UniqueKeys(m1) && UniqueKeys(m2)
    requires forall x :: x in m1 <==> x in m2
    ensures Hash(Obj(m1)) == Hash(Obj(m2))
  {
    forall k ensures Get(m1, k) == Get(m2, k) {
      if i :| 0 <= i < |m1| && m1[i].key == k {
        assert m1[i] in m2;
        var j :| 0 <= j < |m2| && m2[j] == m1[i];
        GetUnique(m1, i);
        GetUnique(m2, j);
      } else {
        assert forall j | 0 <= j < |m2| :: m2[j] in m1;
      }
    }
    HashIgnoresKeyOrder(m1, m2);
  }

  /** Changing a member's value changes the hash. */
  lemma HashSeesValues(k: string, a: Json, b: Json)
    requires Canon(a) != Canon(b)
    ensures Hash(Obj([Member(k, a)])) != Hash(Obj([Member(k, b)]))
  {
    var m1, m2 := [Member(k, a)], [Member(k, b)];
    assert Get(m1, k) == a && Get(m2, k) == b;
    if Hash(Obj(m1)) == Hash(Obj(m2)) {
      EqualHashesRead(m1, m2, k);
    }
  }

  /** Objects that hash alike read alike, after canonicalising, under every name. */
  lemma EqualHashesRead(m1: seq<Member>, m2: seq<Member>, k: string)
    requires Hash(Obj(m1)) == Hash(Obj(m2))
    ensures Canon(Get(m1, k)) == Canon(Get(m2, k))
  {
    var c1, c2 := CanonMembers(m1), CanonMembers(m2);
    GetCanonMembers(m1, k);
    GetCanonMembers(m2, k);
    assert SortedMembers(c1) == SortedMembers(c2);
    SortedMembersRead(c1, c2, k);
  }

  /** Equal serialised member lists read alike under every name. */
  lemma SortedMembersRead(c1: seq<Member>, c2: seq<Member>, k: string)
    requires SortedMembers(c1) == SortedMembers(c2)
    ensures Get(c1, k) == Get(c2, k)
  {
    var p1, p2 := PresentKeys(c1), PresentKeys(c2);
    var s1, s2 := SortedMembers(c1), SortedMembers(c2);
    assert |p1| == |p2|;
    assert forall i | 0 <= i < |p1| :: p1[i] == s1[i].key == s2[i].key == p2[i];
    assert p1 == p2;
    if k in p1 {
      var i :| 0 <= i < |p1| && p1[i] == k;
      assert s1[i].value == s2[i].value;
    }
  }

  // ------------------------------------------------------------------
  // Semantic comparison (change-detector.ts:50-88)
  // ------------------------------------------------------------------

  /** `hasSemanticChange`: strings are compared after `trim().toLowerCase()`, arrays
      element by element in order, other objects by hash. */
  predicate HasSemanticChange(o: Json, n: Json)
    decreases o, 1
  {
    if o.Null? && n.Null? then false
    else if o.Undefined? && n.Undefined? then false
    else if IsNullish(o) then !IsNullish(n)
    else if IsNullish(n) then true
    else if TypeOf(o) != TypeOf(n) then true
    else if o.Str? && n.Str? then Lower(Trim(o.s)) != Lower(Trim(n.s))
    else if o.Num? && n.Num? then o.n != n.n
    else if o.Bool? && n.Bool? then o.b != n.b
    else if o.Arr? && n.Arr? then |o.items| != |n.items| || ElementsDiffer(o, n, 0)
    else Hash(o) != Hash(n)
  }

  /** Some element at position `i` or later of two equally long arrays changed. */
  predicate ElementsDiffer(o: Json, n: Json, i: nat)
    requires o.Arr? && n.Arr? && |o.items| == |n.items|
    decreases o, 0, |o.items| - i
  {
    i < |o.items| && (HasSemanticChange(o.items[i], n.items[i]) || ElementsDiffer(o, n, i + 1))
  }

  lemma {:induction false} ElementsDifferIff(o: Json, n: Json, i: nat)
    requires o.Arr? && n.Arr? && |o.items| == |n.items|
    ensures ElementsDiffer(o, n, i) <==>
      exists j | i <= j < |o.items| :: HasSemanticChange(o.items[j], n.items[j])
    decreases |o.items| - i
  {
    if i < |o.items| {
      ElementsDifferIff(o, n, i + 1);
    }
  }

  /** Arrays changed exactly when their lengths differ or some position changed:
      order matters. */
  lemma ArrayChangeIff(o: Json, n: Json)
    requires o.Arr? && n.Arr?
    ensures HasSemanticChange(o, n) <==>
      |o.items| != |n.items| ||
      exists j | 0 <= j < |o.items| :: HasSemanticChange(o.items[j], n.items[j])
  {
    if |o.items| == |n.items| {
      ElementsDifferIff(o, n, 0);
    }
  }

  /** `hasSemanticChange` as the source computes it, with a loop that returns at the
      first changed element. */
  method SemanticChange(o: Json, n: Json) returns (changed: bool)
    ensures changed == HasSemanticChange(o, n)
    decreases o
  {
    if o.Null? && n.Null? { return false; }
    if o.Undefined? && n.Undefined? { return false; }
    if IsNullish(o) { return !IsNullish(n); }
    if IsNullish(n) { return true; }
    if TypeOf(o) != TypeOf(n) { return true; }
    if o.Str? && n.Str? { return Lower(Trim(o.s)) != Lower(Trim(n.s)); }
    if o.Num? && n.Num? { return o.n != n.n; }
    if o.Bool? && n.Bool? { return o.b != n.b; }
    if o.Arr? && n.Arr? {
      if |o.items| != |n.items| { return true; }
      var i := 0;
      while i < |o.items|
        invariant 0 <= i <= |o.items|
        invariant ElementsDiffer(o, n, 0) == ElementsDiffer(o, n, i)
      {
        var c := SemanticChange(o.items[i], n.items[i]);
        if c { return true; }
        i := i + 1;
      }
      return false;
    }
    return Hash(o) != Hash(n);
  }

  lemma {:induction false} NoChangeOnSelf(v: Json)
    ensures !HasSemanticChange(v, v)
    decreases v, 1
  {
    if v.Arr? {
      NoElementsDifferOnSelf(v, 0);
    }
  }

  lemma {:induction false} NoElementsDifferOnSelf(v: Json, i: nat)
    requires v.Arr?
    ensures !ElementsDiffer(v, v, i)
    decreases v, 0, |v.items| - i
  {
    if i < |v.items| {
      NoChangeOnSelf(v.items[i]);
      NoElementsDifferOnSelf(v, i + 1);
    }
  }

  /** The comparison is symmetric. */
  lemma {:induction false} SemanticChangeSymmetric(o: Json, n: Json)
    ensures HasSemanticChange(o, n) == HasSemanticChange(n, o)
    decreases o, 1
  {
    if o.Arr? && n.Arr? && |o.items| == |n.items| {
      ElementsDifferSymmetric(o, n, 0);
    }
  }

  lemma {:induction false} ElementsDifferSymmetric(o: Json, n: Json, i: nat)
    requires o.Arr? && n.Arr? && |o.items| == |n.items|
    ensures ElementsDiffer(o, n, i) == ElementsDiffer(n, o, i)
    decreases o, 0, |o.items| - i
  {
    if i < |o.items| {
      SemanticChangeSymmetric(o.items[i], n.items[i]);
      ElementsDifferSymmetric(o, n, i + 1);
    }
  }

  /** Values that serialise alike never count as a semantic change, so equal hashes
      mean no semantic change. */
  lemma {:induction false} SameCanonNoChange(o: Json, n: Json)
    requires CanonElement(o) == CanonElement(n)
    ensures !HasSemanticChange(o, n)
    decreases o, 1
  {
    if o.Arr? && n.Arr? {
      SameCanonNoElementsDiffer(o, n, 0);
    }
  }

  lemma {:induction false} SameCanonNoElementsDiffer(o: Json, n: Json, i: nat)
    requires o.Arr? && n.Arr? && CanonItems(o.items) == CanonItems(n.items)
    ensures |o.items| == |n.items| && !ElementsDiffer(o, n, i)
    decreases o, 0, |o.items| - i
  {
    assert |CanonItems(o.items)| == |o.items|;
    if i < |o.items| {
      CanonItemsAt(o.items, i);
      CanonItemsAt(n.items, i);
      SameCanonNoChange(o.items[i], n.items[i]);
      SameCanonNoElementsDiffer(o, n, i + 1);
    }
  }

  lemma EqualHashNoSemanticChange(o: Json, n: Json)
    requires Hash(o) == Hash(n)
    ensures !HasSemanticChange(o, n)
  {
    SameCanonNoChange(o, n);
  }

  /** The semantic comparison is coarser than the hash: surrounding white space and
      letter case are not changes, although they change the hash. */
  lemma WhitespaceAndCaseAreNotChanges(spaced: string, plain: string, other: string)
    requires spaced == "Hi " && plain == "hi" && other == "ho"
    ensures !HasSemanticChange(Str(spaced), Str(plain))
    ensures Hash(Str(spaced)) != Hash(Str(plain))
    ensures HasSemanticChange(Str(plain), Str(other))
  {
    var hi := spaced[..2];
    TrimExamples(hi, spaced, plain, other);
    LowerExamples(hi, plain, other);
  }

  lemma TrimExamples(hi: string, spaced: string, plain: string, other: string)
    requires hi == "Hi" && spaced == "Hi " && plain == "hi" && other == "ho"
    ensures Trim(spaced) == hi && Trim(plain) == plain && Trim(other) == other
  {
    assert spaced == hi + " ";
    TrimTrailingSpace(hi);
    TrimUntouched(plain);
    TrimUntouched(other);
  }

  lemma LowerExamples(hi: string, plain: string, other: string)
    requires hi == "Hi" && plain == "hi" && other == "ho"
    ensures Lower(hi) == plain && Lower(plain) == plain && Lower(other) == other
  {
    assert Lower(hi)[0] == 'h' && Lower(hi)[1] == 'i';
  }

  /** `null` and `undefined` are interchangeable, a reordered array is a change, and
      a value of another type is a change. */
  lemma ComparisonExamples()
    ensures !HasSemanticChange(Null, Undefined) && !HasSemanticChange(Undefined, Null)
    ensures HasSemanticChange(Arr([Num(1), Num(2)]), Arr([Num(2), Num(1)]))
    ensures HasSemanticChange(Num(1), Str("1"))
    ensures HasSemanticChange(Null, Obj([])) && HasSemanticChange(Obj([]), Undefined)
  {
    var o, n := Arr([Num(1), Num(2)]), Arr([Num(2), Num(1)]);
    assert HasSemanticChange(o.items[0], n.items[0]);
  }

  // ------------------------------------------------------------------
  // Sub-field detection (change-detector.ts:98-121)
  // ------------------------------------------------------------------

  /** The parameter type of `detectSubfieldChanges`: a record, `null` or `undefined`. */
  predicate IsRecordOrAbsent(v: Json) {
    v.Obj? || v.Null? || v.Undefined?
  }

  /** The union of both objects' keys in first-seen order (`new Set([...a, ...b])`). */
  function AllKeys(om: seq<Member>, nm: seq<Member>): seq<string> {
    Dedup(Keys(om) + Keys(nm))
  }

  /** The keys of the union whose values changed semantically. */
  function ChangedKeys(om: seq<Member>, nm: seq<Member>): seq<string> {
    Filter(AllKeys(om, nm), k => HasSemanticChange(Get(om, k), Get(nm, k)))
  }

  /** `detectSubfieldChanges`: no keys when both are absent, every key of the one
      present when the other is absent, and otherwise the changed keys. */
  function SubfieldChanges(o: Json, n: Json): (r: seq<string>)
    requires IsRecordOrAbsent(o) && IsRecordOrAbsent(n)
  {
    if !Truthy(o) && !Truthy(n) then []
    else if !Truthy(o) || !Truthy(n) then (if Truthy(o) then Keys(o.members) else Keys(n.members))
    else ChangedKeys(o.members, n.members)
  }

  /** Between two records, a key is reported exactly when it belongs to either of
      them and its value changed semantically, and no key is reported twice. */
  lemma SubfieldChangesIff(om: seq<Member>, nm: seq<Member>, k: string)
    ensures k in SubfieldChanges(Obj(om), Obj(nm)) <==>
      (k in Keys(om) || k in Keys(nm)) && HasSemanticChange(Get(om, k), Get(nm, k))
    ensures NoDup(SubfieldChanges(Obj(om), Obj(nm)))
  {
    SubfieldChangesOfRecords(om, nm);
    ChangedKeysIff(om, nm, k);
  }

  lemma SubfieldChangesOfRecords(om: seq<Member>, nm: seq<Member>)
    ensures SubfieldChanges(Obj(om), Obj(nm)) == ChangedKeys(om, nm)
  {
  }

  lemma ChangedKeysIff(om: seq<Member>, nm: seq<Member>, k: string)
    ensures k in ChangedKeys(om, nm) <==>
      (k in Keys(om) || k in Keys(nm)) && HasSemanticChange(Get(om, k), Get(nm, k))
    ensures NoDup(ChangedKeys(om, nm))
  {
    var all := AllKeys(om, nm);
    assert k in all <==> k in Keys(om) || k in Keys(nm);
    FilterNoDup(all, k => HasSemanticChange(Get(om, k), Get(nm, k)));
  }

  /** When one side is absent, every key of the other side is reported. */
  lemma SubfieldChangesOneSided(o: Json, n: Json, k: string)
    requires IsRecordOrAbsent(o) && IsRecordOrAbsent(n)
    requires IsNullish(o) != IsNullish(n)
    ensures k in SubfieldChanges(o, n) <==> k in Keys(if o.Obj? then o.members else n.members)
  {
  }

  /** A key whose value is unchanged is never reported between two records. */
  lemma UnchangedKeyNotReported(om: seq<Member>, nm: seq<Member>, k: string)
    requires Hash(Get(om, k)) == Hash(Get(nm, k))
    ensures k !in SubfieldChanges(Obj(om), Obj(nm))
  {
    SubfieldChangesIff(om, nm, k);
    EqualHashNoSemanticChange(Get(om, k), Get(nm, k));
  }

  /** `detectSubfieldChanges` as the source computes it, pushing changed keys in a loop. */
  method DetectSubfieldChanges(o: Json, n: Json) returns (changes: seq<string>)
    requires IsRecordOrAbsent(o) && IsRecordOrAbsent(n)
    ensures changes == SubfieldChanges(o, n)
  {
    if !Truthy(o) && !Truthy(n) { return []; }
    if !Truthy(o) || !Truthy(n) {
      return if Truthy(o) then Keys(o.members) else Keys(n.members);
    }
    var allKeys := AllKeys(o.members, n.members);
    ghost var p := k => HasSemanticChange(Get(o.members, k), Get(n.members, k));
    changes := [];
    var i := 0;
    while i < |allKeys|
      invariant 0 <= i <= |allKeys|
      invariant changes == Filter(allKeys[..i], p)
    {
      var key := allKeys[i];
      var c := SemanticChange(Get(o.members, key), Get(n.members, key));
      FilterSnoc(allKeys[..i], key, p);
      assert allKeys[..i + 1] == allKeys[..i] + [key];
      if c {
        changes := changes + [key];
      }
      i := i + 1;
    }
    assert allKeys[..i] == allKeys;
  }

  // ------------------------------------------------------------------
  // Change analysis (change-detector.ts:127-178)
  // ------------------------------------------------------------------

  datatype ChangeType = Created | Updated | Deleted | Unchanged

  datatype ChangeAnalysis = ChangeAnalysis(
    hasChange: bool,
    changedSubfields: seq<string>,
    oldHash: ContentHash,
    newHash: ContentHash,
    changeType: ChangeType)

  /** Both values are non-array objects in the sense of `typeof` (so `null` counts). */
  predicate BothObjectLike(o: Json, n: Json) {
    TypeOf(o) == TypeObject && TypeOf(n) == TypeObject && !o.Arr? && !n.Arr?
  }

  /** `analyzeChange`. */
  function AnalyzeChange(o: Json, n: Json): (r: ChangeAnalysis)
    ensures r.oldHash == Hash(o) && r.newHash == Hash(n)
    ensures r.hasChange <==> Hash(o) != Hash(n)
    ensures r.changeType == Unchanged <==> !r.hasChange
    ensures r.changeType == Created ==> !Truthy(o) && Truthy(n)
    ensures r.changeType == Deleted ==> Truthy(o) && !Truthy(n)
    ensures r.changeType == Updated ==> Truthy(o) == Truthy(n)
    ensures !BothObjectLike(o, n) ==> r.changedSubfields == []
    ensures BothObjectLike(o, n) ==> r.changedSubfields == SubfieldChanges(o, n)
  {
    var oldHash := Hash(o);
    var newHash := Hash(n);
    var hasChange := oldHash != newHash;
    var changeType :=
      if !Truthy(o) && Truthy(n) then Created
      else if Truthy(o) && !Truthy(n) then Deleted
      else if hasChange then Updated
      else Unchanged;
    var changed := if BothObjectLike(o, n) then SubfieldChanges(o, n) else [];
    ChangeAnalysis(hasChange, changed, oldHash, newHash, changeType)
  }

  /** A field set for the first time to `false` is reported as updated, not created. */
  lemma NullToFalseIsUpdated()
    ensures AnalyzeChange(Null, Bool(false)).changeType == Updated
  {
  }

  // ------------------------------------------------------------------
  // Significance (change-detector.ts:188-216)
  // ------------------------------------------------------------------

  /** `SIGNIFICANT_SUBFIELDS`. */
  function SignificantSubfields(field: string): Option<seq<string>> {
    if field == "business_canvas" then
      Some(["unfair_advantage", "value_proposition", "problem", "solution", "customer_segments"])
    else if field == "brand_colors" then Some(["primary", "secondary", "accent"])
    else if field == "market_research" then Some(["industry", "target_audience", "trends"])
    else None
  }

  /** `changed.some(sf => significant.includes(sf))`. */
  predicate AnyIn(changed: seq<string>, significant: seq<string>) {
    |changed| > 0 && (changed[0] in significant || AnyIn(changed[1..], significant))
  }

  /** `isSignificantChange`: a whole-field change, a field without a list, or a
      change to one of the listed sub-fields. */
  function IsSignificantChange(field: string, changed: seq<string>): (r: bool)
    ensures r <==>
      |changed| == 0 || SignificantSubfields(field).None? ||
      exists i | 0 <= i < |changed| :: changed[i] in SignificantSubfields(field).value
  {
    if |changed| == 0 then true
    else match SignificantSubfields(field)
      case None => true
      case Some(sig) => AnyInIff(changed, sig); AnyIn(changed, sig)
  }

  lemma {:induction false} AnyInIff(changed: seq<string>, significant: seq<string>)
    ensures AnyIn(changed, significant) <==> exists i | 0 <= i < |changed| :: changed[i] in significant
  {
    if |changed| > 0 {
      AnyInIff(changed[1..], significant);
      if exists i | 0 <= i < |changed| :: changed[i] in significant {
        var i :| 0 <= i < |changed| && changed[i] in significant;
        if i > 0 { assert changed[1..][i - 1] in significant; }
      }
    }
  }

  /** Reporting more changed sub-fields never makes a change less significant. */
  lemma SignificanceMonotone(field: string, changed: seq<string>, more: seq<string>)
    requires |changed| > 0 && IsSignificantChange(field, changed)
    ensures IsSignificantChange(field, changed + more)
  {
    if SignificantSubfields(field).Some? {
      var i :| 0 <= i < |changed| && changed[i] in SignificantSubfields(field).value;
      assert (changed + more)[i] == changed[i];
    }
  }

  /** A minor sub-field of a listed field is not significant on its own. */
  lemma SignificanceExamples()
    ensures !IsSignificantChange("business_canvas", ["key_metrics"])
    ensures IsSignificantChange("business_canvas", ["key_metrics", "problem"])
    ensures IsSignificantChange("tagline", ["anything"])
    ensures !IsSignificantChange("brand_colors", ["background", "text"])
  {
    assert ["key_metrics", "problem"][1] == "problem";
  }

  // ------------------------------------------------------------------
  // Batch detection (change-detector.ts:232-255)
  // ------------------------------------------------------------------

  datatype FieldChange = FieldChange(field: string, analysis: ChangeAnalysis, isSignificant: bool)

  /** The fields a batch examines: the list given, or else the union of both
      records' keys.  An empty given list is used as it is. */
  function BatchFields(om: seq<Member>, nm: seq<Member>, fieldsToCheck: Option<seq<string>>): seq<string> {
    if fieldsToCheck.Some? then fieldsToCheck.value else AllKeys(om, nm)
  }

  /** The changes a batch reports for the fields `fs`, in the order of `fs`. */
  function BatchOf(om: seq<Member>, nm: seq<Member>, fs: seq<string>): (r: seq<FieldChange>)
    ensures forall c | c in r :: c.field in fs && c.analysis.hasChange
    ensures forall c | c in r :: c.analysis == AnalyzeChange(Get(om, c.field), Get(nm, c.field))
    ensures forall c | c in r :: c.isSignificant == IsSignificantChange(c.field, c.analysis.changedSubfields)
    ensures forall f | f in fs :: Hash(Get(om, f)) != Hash(Get(nm, f)) ==> exists c | c in r :: c.field == f
  {
    if |fs| == 0 then []
    else
      var init := fs[..|fs| - 1];
      var f := fs[|fs| - 1];
      assert forall x :: x in fs <==> x in init || x == f;
      var a := AnalyzeChange(Get(om, f), Get(nm, f));
      var rest := BatchOf(om, nm, init);
      rest + (if a.hasChange then [FieldChange(f, a, IsSignificantChange(f, a.changedSubfields))] else [])
  }

  lemma BatchOfSnoc(om: seq<Member>, nm: seq<Member>, fs: seq<string>, f: string)
    ensures BatchOf(om, nm, fs + [f]) == BatchOf(om, nm, fs) +
      (var a := AnalyzeChange(Get(om, f), Get(nm, f));
       if a.hasChange then [FieldChange(f, a, IsSignificantChange(f, a.changedSubfields))] else [])
  {
    assert (fs + [f])[..|fs + [f]| - 1] == fs;
  }

  lemma BatchOfStep(om: seq<Member>, nm: seq<Member>, fs: seq<string>, i: int)
    requires 0 <= i < |fs|
    ensures BatchOf(om, nm, fs[..i + 1]) == BatchOf(om, nm, fs[..i]) +
      (var a := AnalyzeChange(Get(om, fs[i]), Get(nm, fs[i]));
       if a.hasChange then [FieldChange(fs[i], a, IsSignificantChange(fs[i], a.changedSubfields))] else [])
  {
    assert fs[..i + 1] == fs[..i] + [fs[i]];
    BatchOfSnoc(om, nm, fs[..i], fs[i]);
  }

  /** `detectBatchChanges`. */
  method DetectBatchChanges(om: seq<Member>, nm: seq<Member>, fieldsToCheck: Option<seq<string>>)
    returns (changes: seq<FieldChange>)
    ensures changes == BatchOf(om, nm, BatchFields(om, nm, fieldsToCheck))
  {
    var fields := if fieldsToCheck.Some? then fieldsToCheck.value else AllKeys(om, nm);
    changes := [];
    var i := 0;
    while i < |fields|
      invariant 0 <= i <= |fields|
      invariant changes == BatchOf(om, nm, fields[..i])
    {
      var field := fields[i];
      var analysis := AnalyzeChange(Get(om, field), Get(nm, field));
      BatchOfStep(om, nm, fields, i);
      if analysis.hasChange {
        changes := changes + [FieldChange(field, analysis, IsSignificantChange(field, analysis.changedSubfields))];
      }
      i := i + 1;
    }
    assert fields[..i] == fields;
  }

  /** A field is reported by a batch exactly when it is examined and its hash changed. */
  lemma BatchReportsExactlyChangedFields(om: seq<Member>, nm: seq<Member>, fs: seq<string>, f: string)
    ensures (exists c | c in BatchOf(om, nm, fs) :: c.field == f) <==>
      f in fs && Hash(Get(om, f)) != Hash(Get(nm, f))
  {
    var r := BatchOf(om, nm, fs);
    if c :| c in r && c.field == f {
      var a := AnalyzeChange(Get(om, f), Get(nm, f));
      assert c.field in fs && c.analysis == a && a.hasChange;
    }
    if f in fs && Hash(Get(om, f)) != Hash(Get(nm, f)) {
      assert exists c | c in r :: c.field == f;
    }
  }
}
