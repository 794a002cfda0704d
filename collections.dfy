/** Generic sequence helpers shared by every module: an option type, duplicate-free
    sequences, the insertion-ordered deduplication that `Array.from(new Set(xs))`
    performs in JavaScript, and an order-preserving filter (`xs.filter(p)`). */
module Collections {

  datatype Option<+T> = None | Some(value: T)

  /** No element occurs twice. */
  predicate NoDup<T(==)>(s: seq<T>) {
    forall i, j | 0 <= i < j < |s| :: s[i] != s[j]
  }

  /** The elements of a sequence as a set (`new Set(s)` without its order). */
  function Elems<T>(s: seq<T>): set<T> {
    set x | x in s
  }

  /** `Array.from(new Set(s))`: the first occurrence of every element, in order of
      first occurrence.  Defined from the end so that it follows a left-to-right loop
      that appends an element only when it has not been seen. */
  function Dedup<T(==,!new)>(s: seq<T>): (r: seq<T>)
    ensures NoDup(r)
    ensures forall x :: x in r <==> x in s
    ensures |r| <= |s|
  {
    if |s| == 0 then []
    else
      var d := Dedup(s[..|s| - 1]);
      assert forall x :: x in s <==> x in s[..|s| - 1] || x == s[|s| - 1];
      if s[|s| - 1] in d then d else d + [s[|s| - 1]]
  }

  /** `s.filter(p)`: the elements satisfying `p`, in their original order. */
  function Filter<T(!new)>(s: seq<T>, p: T -> bool): (r: seq<T>)
    ensures |r| <= |s|
    ensures forall x :: x in r <==> x in s && p(x)
  {
    if |s| == 0 then []
    else
      assert forall x :: x in s <==> x in s[..|s| - 1] || x == s[|s| - 1];
      Filter(s[..|s| - 1], p) + (if p(s[|s| - 1]) then [s[|s| - 1]] else [])
  }

  /** Deduplicating a sequence that already has no duplicates changes nothing. */
  lemma {:induction false} DedupOfNoDup<T(!new)>(s: seq<T>)
    requires NoDup(s)
    ensures Dedup(s) == s
  {
    if |s| > 0 {
      var init := s[..|s| - 1];
      assert NoDup(init);
      DedupOfNoDup(init);
      assert s[|s| - 1] !in init;
      assert s == init + [s[|s| - 1]];
    }
  }

  /** One step of `Dedup` on a prefix, in the shape a loop invariant needs. */
  lemma DedupSnoc<T(!new)>(s: seq<T>, x: T)
    ensures Dedup(s + [x]) == if x in Dedup(s) then Dedup(s) else Dedup(s) + [x]
  {
    assert (s + [x])[..|s + [x]| - 1] == s;
  }

  /** One step of `Filter` on a prefix, in the shape a loop invariant needs. */
  lemma FilterSnoc<T(!new)>(s: seq<T>, x: T, p: T -> bool)
    ensures Filter(s + [x], p) == Filter(s, p) + (if p(x) then [x] else [])
  {
    assert (s + [x])[..|s + [x]| - 1] == s;
  }

  /** Filtering keeps a sequence free of duplicates. */
  lemma {:induction false} FilterNoDup<T(!new)>(s: seq<T>, p: T -> bool)
    requires NoDup(s)
    ensures NoDup(Filter(s, p))
  {
    if |s| > 0 {
      var init := s[..|s| - 1];
      assert NoDup(init);
      FilterNoDup(init, p);
      assert s[|s| - 1] !in init;
    }
  }

  /** Filtering keeps a sequence ordered: if every earlier element comes before every
      later one under `lt`, the same holds of the kept elements. */
  lemma {:induction false} FilterKeepsOrder<T(!new)>(s: seq<T>, p: T -> bool, lt: (T, T) -> bool)
    requires forall i, j | 0 <= i < j < |s| :: lt(s[i], s[j])
    ensures forall i, j | 0 <= i < j < |Filter(s, p)| :: lt(Filter(s, p)[i], Filter(s, p)[j])
  {
    if |s| > 0 {
      var init := s[..|s| - 1];
      FilterKeepsOrder(init, p, lt);
      var f := Filter(init, p);
      var last := s[|s| - 1];
      forall x | x in f ensures lt(x, last) {
        var k :| 0 <= k < |init| && init[k] == x;
      }
      var r := Filter(s, p);
      assert r == f + (if p(last) then [last] else []);
      forall i, j | 0 <= i < j < |r| ensures lt(r[i], r[j]) {
        if j < |f| {
          assert r[i] == f[i] && r[j] == f[j];
        } else {
          assert r[i] == f[i] && f[i] in f && r[j] == last;
        }
      }
    }
  }

  /** Filtering with two predicates that agree on the sequence gives one result. */
  lemma {:induction false} FilterCongruent<T(!new)>(s: seq<T>, p: T -> bool, q: T -> bool)
    requires forall x | x in s :: p(x) == q(x)
    ensures Filter(s, p) == Filter(s, q)
  {
    if |s| > 0 {
      FilterCongruent(s[..|s| - 1], p, q);
    }
  }

  /** `s.findIndex(p)`: the index of the first element satisfying `p`, if any. */
  function FirstIndex<T>(s: seq<T>, p: T -> bool): (r: Option<nat>)
    ensures r.Some? ==> r.value < |s| && p(s[r.value])
    ensures r.Some? ==> forall j | 0 <= j < r.value :: !p(s[j])
    ensures r.None? <==> forall j | 0 <= j < |s| :: !p(s[j])
  {
    if |s| == 0 then None
    else if p(s[0]) then Some(0)
    else match FirstIndex(s[1..], p)
      case None => None
      case Some(i) => Some(i + 1)
  }
}
