/** JavaScript values as the core sees them: the contents of a stored business field,
    an agent's result or a section's content.  Objects keep their members in insertion
    order, as JavaScript objects do, so that reordering keys is something a statement
    can talk about. */
module JsonValues {
  import opened Collections

  datatype Json =
    | Null
    | Undefined
    | Bool(b: bool)
    | Num(n: int)
    | Str(s: string)
    | Arr(items: seq<Json>)
    | Obj(members: seq<Member>)

  datatype Member = Member(key: string, value: Json)

  /** The results of `typeof` that these values can produce. */
  datatype JsType = TypeUndefined | TypeObject | TypeBoolean | TypeNumber | TypeString

  /** `typeof v`; note that `null` and arrays are both reported as objects. */
  function TypeOf(v: Json): (t: JsType)
    ensures t == TypeObject <==> v.Null? || v.Arr? || v.Obj?
    ensures t == TypeUndefined <==> v.Undefined?
  {
    match v
    case Undefined => TypeUndefined
    case Null => TypeObject
    case Bool(_) => TypeBoolean
    case Num(_) => TypeNumber
    case Str(_) => TypeString
    case Arr(_) => TypeObject
    case Obj(_) => TypeObject
  }

  /** JavaScript truthiness: `null`, `undefined`, `false`, `0` and `""` are falsy;
      every array and object, even an empty one, is truthy. */
  predicate Truthy(v: Json) {
    match v
    case Null => false
    case Undefined => false
    case Bool(b) => b
    case Num(n) => n != 0
    case Str(s) => s != ""
    case Arr(_) => true
    case Obj(_) => true
  }

  /** `v === null || v === undefined`. */
  predicate IsNullish(v: Json) {
    v.Null? || v.Undefined?
  }

  /** Property access `obj[k]`: the value of the first member named `k`, or
      `undefined` when there is none. */
  function Get(ms: seq<Member>, k: string): (r: Json)
    ensures r.Undefined? || exists i | 0 <= i < |ms| :: ms[i].key == k && ms[i].value == r
    ensures (forall i | 0 <= i < |ms| :: ms[i].key != k) ==> r.Undefined?
  {
    if |ms| == 0 then Undefined
    else if ms[0].key == k then ms[0].value
    else Get(ms[1..], k)
  }

  /** `v[k]` on any value: only objects have members here. */
  function Prop(v: Json, k: string): Json {
    if v.Obj? then Get(v.members, k) else Undefined
  }

  /** The member names in insertion order. */
  function KeyList(ms: seq<Member>): (r: seq<string>)
    ensures |r| == |ms|
    ensures forall i | 0 <= i < |ms| :: r[i] == ms[i].key
  {
    seq(|ms|, i requires 0 <= i < |ms| => ms[i].key)
  }

  /** `Object.keys(obj)`: each member name once, in insertion order. */
  function Keys(ms: seq<Member>): (r: seq<string>)
    ensures NoDup(r)
    ensures forall k :: k in r <==> exists i | 0 <= i < |ms| :: ms[i].key == k
  {
    var kl := KeyList(ms);
    assert forall k :: k in kl <==> exists i | 0 <= i < |ms| :: ms[i].key == k by {
      forall k | k in kl ensures exists i | 0 <= i < |ms| :: ms[i].key == k {
        var i :| 0 <= i < |kl| && kl[i] == k;
      }
    }
    Dedup(kl)
  }

  /** A JavaScript object never has two members with the same name. */
  predicate UniqueKeys(ms: seq<Member>) {
    forall i, j | 0 <= i < j < |ms| :: ms[i].key != ms[j].key
  }

  /** In an object with unique names, property access finds the member by its name. */
  lemma {:induction false} GetUnique(ms: seq<Member>, i: int)
    requires UniqueKeys(ms) && 0 <= i < |ms|
    ensures Get(ms, ms[i].key) == ms[i].value
  {
    if i > 0 {
      assert ms[0].key != ms[i].key;
      assert UniqueKeys(ms[1..]);
      GetUnique(ms[1..], i - 1);
    }
  }

  /** `{ ...obj, [k]: v }` on the members of `obj`: the member named `k` takes the value
      `v` in its place, or is added last when there is none. */
  function Assign(ms: seq<Member>, k: string, v: Json): (r: seq<Member>)
    ensures Get(r, k) == v
    ensures forall j | j != k :: Get(r, j) == Get(ms, j)
  {
    if |ms| == 0 then [Member(k, v)]
    else if ms[0].key == k then [Member(k, v)] + ms[1..]
    else
      [ms[0]] + Assign(ms[1..], k, v)
  }
}
