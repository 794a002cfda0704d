/** The JavaScript string operations the core relies on: `trim`, `toLowerCase`,
    `includes`, a global single-character `replace`, and `Array.prototype.join`. */
module Strings {

  /** ECMAScript white space and line terminators, the set `trim` and `\s` remove. */
  predicate IsSpace(c: char) {
    c == '\t' || c == '\n' || c == '\U{000B}' || c == '\U{000C}' || c == '\r' || c == ' '
    || c == '\U{00A0}' || c == '\U{1680}' || ('\U{2000}' <= c <= '\U{200A}')
    || c == '\U{2028}' || c == '\U{2029}' || c == '\U{202F}' || c == '\U{205F}'
    || c == '\U{3000}' || c == '\U{FEFF}'
  }

  /** `sub` occurs in `s` starting at position `i`. */
  predicate OccursAt(s: string, sub: string, i: int) {
    0 <= i <= |s| - |sub| && s[i..i + |sub|] == sub
  }

  function TrimStart(s: string): (r: string)
    ensures |r| <= |s| && r == s[|s| - |r|..]
    ensures |r| > 0 ==> !IsSpace(r[0])
    ensures forall i | 0 <= i < |s| - |r| :: IsSpace(s[i])
  {
    if |s| > 0 && IsSpace(s[0]) then TrimStart(s[1..]) else s
  }

  function TrimEnd(s: string): (r: string)
    ensures |r| <= |s| && r == s[..|r|]
    ensures |r| > 0 ==> !IsSpace(r[|r| - 1])
    ensures forall i | |r| <= i < |s| :: IsSpace(s[i])
  {
    if |s| > 0 && IsSpace(s[|s| - 1]) then TrimEnd(s[..|s| - 1]) else s
  }

  /** `r` is the slice of `s` at `k`, and everything of `s` around it is white space. */
  predicate TrimmedAt(s: string, r: string, k: int) {
    OccursAt(s, r, k) && (forall i | 0 <= i < k :: IsSpace(s[i]))
    && (forall i | k + |r| <= i < |s| :: IsSpace(s[i]))
  }

  /** Trimming the start and then the end drops only the white space around a slice. */
  lemma TrimSlice(s: string)
    ensures TrimmedAt(s, TrimEnd(TrimStart(s)), |s| - |TrimStart(s)|)
  {
    var t := TrimStart(s);
    TrimSliceOf(s, t, TrimEnd(t), |s| - |t|);
  }

  lemma TrimSliceOf(s: string, t: string, r: string, k: int)
    requires 0 <= k <= |s| && t == s[k..] && forall i | 0 <= i < k :: IsSpace(s[i])
    requires |r| <= |t| && r == t[..|r|] && forall i | |r| <= i < |t| :: IsSpace(t[i])
    ensures TrimmedAt(s, r, k)
  {
    assert s[k..][..|r|] == s[k..k + |r|];
    TrimSliceEnd(s, t, r, k);
  }

  lemma TrimSliceEnd(s: string, t: string, r: string, k: int)
    requires 0 <= k <= |s| && t == s[k..]
    requires |r| <= |t| && forall i | |r| <= i < |t| :: IsSpace(t[i])
    ensures forall i | k + |r| <= i < |s| :: IsSpace(s[i])
  {
    forall i | k + |r| <= i < |s| ensures IsSpace(s[i]) {
      assert s[i] == t[i - k];
    }
  }

  /** `s.trim()`: the longest slice of `s` that neither starts nor ends with white space,
      obtained by dropping white space only. */
  function Trim(s: string): (r: string)
    ensures |r| <= |s|
    ensures exists k :: TrimmedAt(s, r, k)
    ensures |r| > 0 ==> !IsSpace(r[0]) && !IsSpace(r[|r| - 1])
  {
    TrimSlice(s);
    TrimEnd(TrimStart(s))
  }

  /** A string that neither starts nor ends with white space is its own trim. */
  lemma TrimUntouched(s: string)
    requires |s| > 0 ==> !IsSpace(s[0]) && !IsSpace(s[|s| - 1])
    ensures Trim(s) == s
  {
  }

  /** Trimming drops one trailing space. */
  lemma TrimTrailingSpace(s: string)
    requires |s| > 0 && !IsSpace(s[0]) && !IsSpace(s[|s| - 1])
    ensures Trim(s + " ") == s
  {
    assert (s + " ")[..|s|] == s;
  }

  /** Trimming twice is trimming once. */
  lemma TrimIdempotent(s: string)
    ensures Trim(Trim(s)) == Trim(s)
  {
    TrimUntouched(Trim(s));
  }

  /** `toLowerCase` on one character; only the ASCII capitals are folded. */
  function LowerChar(c: char): (r: char)
    ensures 'A' <= c <= 'Z' ==> r != c && 'a' <= r <= 'z'
    ensures !('A' <= c <= 'Z') ==> r == c
  {
    if 'A' <= c <= 'Z' then (c as int + 32) as char else c
  }

  /** `s.toLowerCase()`, character by character. */
  function Lower(s: string): (r: string)
    ensures |r| == |s|
    ensures forall i | 0 <= i < |s| :: r[i] == LowerChar(s[i])
    ensures forall i | 0 <= i < |r| :: !('A' <= r[i] <= 'Z')
  {
    if |s| == 0 then [] else [LowerChar(s[0])] + Lower(s[1..])
  }

  /** `s.includes(sub)`, written as a search that advances one position at a time. */
  predicate Contains(s: string, sub: string) {
    sub <= s || (|s| > 0 && Contains(s[1..], sub))
  }

  /** Occurrences in `s[1..]` are the occurrences in `s` after its first position. */
  lemma OccursShift(s: string, sub: string, i: int)
    requires |s| > 0 && i > 0
    ensures OccursAt(s, sub, i) <==> OccursAt(s[1..], sub, i - 1)
  {
    if 0 <= i <= |s| - |sub| {
      assert s[1..][i - 1..i - 1 + |sub|] == s[i..i + |sub|];
    }
  }

  /** `includes` holds exactly when `sub` occurs at some position of `s`. */
  lemma {:induction false} ContainsIff(s: string, sub: string)
    ensures Contains(s, sub) <==> exists i :: OccursAt(s, sub, i)
  {
    if sub <= s {
      assert OccursAt(s, sub, 0);
    } else if |s| > 0 {
      assert !OccursAt(s, sub, 0);
      ContainsIff(s[1..], sub);
      if exists i :: OccursAt(s, sub, i) {
        var i :| OccursAt(s, sub, i);
        OccursShift(s, sub, i);
      }
      if Contains(s[1..], sub) {
        var i :| OccursAt(s[1..], sub, i);
        OccursShift(s, sub, i + 1);
      }
    }
  }

  /** Every string includes the empty string. */
  lemma ContainsEmpty(s: string)
    ensures Contains(s, "")
  {
  }

  /** `s.replace(/c/g, rep)`: every occurrence of the single character `c` replaced. */
  function ReplaceChar(s: string, c: char, rep: string): (r: string)
    ensures c !in rep ==> c !in r
    ensures c !in s ==> r == s
  {
    if |s| == 0 then []
    else (if s[0] == c then rep else [s[0]]) + ReplaceChar(s[1..], c, rep)
  }

  /** `parts.join(sep)`. */
  function Join(parts: seq<string>, sep: string): (r: string)
    ensures |parts| == 0 ==> r == []
    ensures |parts| == 1 ==> r == parts[0]
  {
    if |parts| == 0 then []
    else if |parts| == 1 then parts[0]
    else parts[0] + sep + Join(parts[1..], sep)
  }

  /** Joining one more part appends the separator and that part. */
  lemma {:induction false} JoinSnoc(parts: seq<string>, p: string, sep: string)
    requires |parts| > 0
    ensures Join(parts + [p], sep) == Join(parts, sep) + sep + p
  {
    if |parts| > 1 {
      assert (parts + [p])[1..] == parts[1..] + [p];
      JoinSnoc(parts[1..], p, sep);
    }
  }

  /** `xs.map(f).join(sep)`. */
  function JoinMap<T>(xs: seq<T>, f: T -> string, sep: string): string {
    Join(seq(|xs|, i requires 0 <= i < |xs| => f(xs[i])), sep)
  }

  /** Mapping and joining one more element appends the separator and its image. */
  lemma JoinMapSnoc<T>(xs: seq<T>, x: T, f: T -> string, sep: string)
    requires |xs| > 0
    ensures JoinMap(xs + [x], f, sep) == JoinMap(xs, f, sep) + sep + f(x)
  {
    var parts := seq(|xs|, i requires 0 <= i < |xs| => f(xs[i]));
    var all := xs + [x];
    assert seq(|all|, i requires 0 <= i < |all| => f(all[i])) == parts + [f(x)];
    JoinSnoc(parts, f(x), sep);
  }
}
