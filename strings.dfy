/** The string and list primitives the service and the client rely on:
    `str.strip` / `String.prototype.trim`, the substring test `in`, `find`,
    `split`, `join`, `lower`, and the array `filter` of JavaScript. */
module Strings {
  import opened Types

  /** The characters removed by trimming: a chosen set of six characters
      (space, tab, line feed, carriage return, vertical tab, form feed).
      Python's `strip` and JavaScript's `trim` each remove further ones. */
  predicate IsWhitespace(c: char) {
    c == ' ' || c == '\t' || c == '\n' || c == '\r' || c == '\U{B}' || c == '\U{C}'
  }

  predicate AllWhitespace(s: string) {
    forall k :: 0 <= k < |s| ==> IsWhitespace(s[k])
  }

  /** `s` has no leading and no trailing whitespace. */
  predicate IsTrimmed(s: string) {
    s == [] || (!IsWhitespace(s[0]) && !IsWhitespace(s[|s| - 1]))
  }

  /** Drops leading whitespace: what is dropped is all whitespace and what
      remains is a suffix of `s` that does not start with whitespace. */
  function TrimStart(s: string): (r: string)
    ensures |r| <= |s| && r == s[|s| - |r|..]
    ensures AllWhitespace(s[..|s| - |r|])
    ensures r == [] || !IsWhitespace(r[0])
    ensures r == [] <==> AllWhitespace(s)
  {
    if |s| > 0 && IsWhitespace(s[0]) then
      var r := TrimStart(s[1..]);
      LeadingStep(s, |s| - 1 - |r|);
      r
    else s
  }

  /** One more leading whitespace character keeps a whitespace prefix. */
  lemma LeadingStep(s: string, m: nat)
    requires 0 < |s| && IsWhitespace(s[0]) && m < |s|
    ensures s[1..][m..] == s[m + 1..]
    ensures AllWhitespace(s[1..][..m]) ==> AllWhitespace(s[..m + 1])
    ensures AllWhitespace(s[1..]) ==> AllWhitespace(s)
  {
    var t, u := s[1..], s[..m + 1];
    if AllWhitespace(t[..m]) {
      forall k | 0 < k < |u| ensures IsWhitespace(u[k]) {
        assert u[k] == t[..m][k - 1];
      }
    }
    if AllWhitespace(t) {
      forall k | 0 < k < |s| ensures IsWhitespace(s[k]) {
        assert s[k] == t[k - 1];
      }
    }
  }

  /** Drops trailing whitespace: what is dropped is all whitespace and what
      remains is a prefix of `s` that does not end with whitespace. */
  function TrimEnd(s: string): (r: string)
    ensures |r| <= |s| && r == s[..|r|]
    ensures AllWhitespace(s[|r|..])
    ensures r == [] || !IsWhitespace(r[|r| - 1])
    ensures r == [] <==> AllWhitespace(s)
  {
    if |s| > 0 && IsWhitespace(s[|s| - 1]) then
      var r := TrimEnd(s[..|s| - 1]);
      TrailingStep(s, |r|);
      r
    else s
  }

  /** One more trailing whitespace character keeps a whitespace suffix. */
  lemma TrailingStep(s: string, m: nat)
    requires 0 < |s| && IsWhitespace(s[|s| - 1]) && m < |s|
    ensures s[..|s| - 1][..m] == s[..m]
    ensures AllWhitespace(s[..|s| - 1][m..]) ==> AllWhitespace(s[m..])
    ensures AllWhitespace(s[..|s| - 1]) ==> AllWhitespace(s)
  {
    var t, u := s[..|s| - 1], s[m..];
    if AllWhitespace(t[m..]) {
      forall k | 0 <= k < |u| - 1 ensures IsWhitespace(u[k]) {
        assert u[k] == t[m..][k];
      }
      assert u[|u| - 1] == s[|s| - 1];
    }
    if AllWhitespace(t) {
      forall k | 0 <= k < |s| - 1 ensures IsWhitespace(s[k]) {
        assert s[k] == t[k];
      }
    }
  }

  /** Python's `str.strip()` and JavaScript's `trim()`. */
  function Trim(s: string): (r: string)
    ensures IsTrimmed(r)
    ensures r == [] <==> AllWhitespace(s)
  {
    var t := TrimStart(s);
    var r := TrimEnd(t);
    assert r != [] ==> r[0] == t[0];
    r
  }

  /** `r` is the piece of `s` at `i`, with only whitespace before and after it. */
  predicate BetweenWhitespace(s: string, i: nat, r: string) {
    i + |r| <= |s| && r == s[i..i + |r|] && AllWhitespace(s[..i]) && AllWhitespace(s[i + |r|..])
  }

  /** Trimming removes whitespace at both ends and changes nothing else: the
      result is one piece of `s` with only whitespace before and after it. */
  lemma {:induction false} TrimRemovesOnlyEdges(s: string)
    ensures exists i: nat :: BetweenWhitespace(s, i, Trim(s))
  {
    var t := TrimStart(s);
    var r := TrimEnd(t);
    assert Trim(s) == r;
    EdgesOfPasses(s, t, r);
  }

  /** The two passes, stated on their contracts alone. */
  lemma {:induction false} EdgesOfPasses(s: string, t: string, r: string)
    requires |t| <= |s| && t == s[|s| - |t|..] && AllWhitespace(s[..|s| - |t|])
    requires |r| <= |t| && r == t[..|r|] && AllWhitespace(t[|r|..])
    ensures BetweenWhitespace(s, |s| - |t|, r)
  {
    PrefixOfSuffix(s, t, r);
  }

  /** A prefix `r` of a suffix `t` of `s` is the piece of `s` at `|s| - |t|`. */
  lemma {:induction false} PrefixOfSuffix(s: string, t: string, r: string)
    requires |t| <= |s| && t == s[|s| - |t|..] && |r| <= |t| && r == t[..|r|]
    ensures var i := |s| - |t|; r == s[i..i + |r|] && s[i + |r|..] == t[|r|..]
  {
    var i := |s| - |t|;
    SliceOfSlice(s, i, |s|, 0, |r|);
    assert s[i..|s|] == t;
    assert t[0..|r|] == r;
  }

  /** The trimmed text occurs in the text. */
  lemma {:induction false} TrimContained(s: string)
    ensures Contains(s, Trim(s))
  {
    var t := TrimStart(s);
    var r := TrimEnd(t);
    assert Trim(s) == r;
    PrefixOfSuffix(s, t, r);
    ContainsAt(s, r, |s| - |t|);
  }

  // ---------------------------------------------------------------------
  // Substrings

  /** `p` occurs in `s` starting at index `i`. */
  predicate OccursAt(s: string, p: string, i: nat) {
    i + |p| <= |s| && s[i..i + |p|] == p
  }

  /** The first index at or after `from` where `p` occurs (`s.find(p, from)`). */
  function Find(s: string, p: string, from: nat): (r: Maybe<nat>)
    decreases |s| - from
    ensures r.Just? ==> from <= r.value && OccursAt(s, p, r.value)
    ensures r.Just? ==> forall k: nat :: from <= k < r.value ==> !OccursAt(s, p, k)
    ensures r.Nothing? ==> forall k: nat :: from <= k ==> !OccursAt(s, p, k)
  {
    if from + |p| > |s| then Nothing
    else if OccursAt(s, p, from) then Just(from)
    else Find(s, p, from + 1)
  }

  /** Python's `p in s`. */
  predicate Contains(s: string, p: string): (b: bool)
    ensures b <==> exists k: nat :: OccursAt(s, p, k)
  {
    Find(s, p, 0).Just?
  }

  lemma {:induction false} FindFirst(s: string, p: string, from: nat, i: nat)
    requires from <= i && OccursAt(s, p, i)
    requires forall k: nat :: from <= k < i ==> !OccursAt(s, p, k)
    ensures Find(s, p, from) == Just(i)
    decreases i - from
  {
    if from < i {
      assert !OccursAt(s, p, from);
      FindFirst(s, p, from + 1, i);
    }
  }

  lemma ContainsAt(s: string, p: string, i: nat)
    requires OccursAt(s, p, i)
    ensures Contains(s, p)
  {
  }

  lemma SliceOfSlice(s: string, a: nat, b: nat, k: nat, n: nat)
    requires a <= b <= |s| && k + n <= b - a
    ensures s[a..b][k..k + n] == s[a + k..a + k + n]
  {
    var x, y := s[a..b][k..k + n], s[a + k..a + k + n];
    forall i | 0 <= i < n ensures x[i] == y[i] {
      assert s[a..b][k + i] == s[a + k + i];
    }
  }

  /** A piece of a piece of `s` is a piece of `s`. */
  lemma {:induction false} ContainsTrans(s: string, t: string, r: string)
    requires Contains(s, t) && Contains(t, r)
    ensures Contains(s, r)
  {
    var j := Find(s, t, 0).value;
    var i := Find(t, r, 0).value;
    SliceOfSlice(s, j, j + |t|, i, |r|);
    assert s[j..j + |t|] == t;
    ContainsAt(s, r, j + i);
  }

  /** A prefix of `s` occurs in `s`. */
  lemma {:induction false} ContainsHead(s: string, t: string)
    requires |t| <= |s| && t == s[..|t|]
    ensures Contains(s, t)
  {
    ContainsAt(s, t, 0);
  }

  /** A suffix of `s` occurs in `s`. */
  lemma {:induction false} ContainsTail(s: string, t: string)
    requires |t| <= |s| && t == s[|s| - |t|..]
    ensures Contains(s, t)
  {
    assert s[|s| - |t|..|s| - |t| + |t|] == t;
    ContainsAt(s, t, |s| - |t|);
  }

  /** Trimming never introduces an occurrence of `p`. */
  lemma {:induction false} TrimKeepsAbsence(s: string, p: string)
    requires !Contains(s, p)
    ensures !Contains(Trim(s), p)
  {
    TrimContained(s);
    if Contains(Trim(s), p) {
      ContainsTrans(s, Trim(s), p);
    }
  }

  /** An occurrence of a longer pattern is an occurrence of each of its prefixes. */
  lemma PrefixOccurs(s: string, p: string, q: string, i: nat)
    requires q <= p && OccursAt(s, p, i)
    ensures OccursAt(s, q, i)
  {
    assert s[i..i + |q|] == s[i..i + |p|][..|q|];
  }

  /** If `s` does not contain `q`, it does not contain any pattern starting with `q`. */
  lemma AbsentExtension(s: string, p: string, q: string)
    requires q <= p && !Contains(s, q)
    ensures !Contains(s, p)
  {
    if Contains(s, p) {
      var i := Find(s, p, 0).value;
      PrefixOccurs(s, p, q, i);
      ContainsAt(s, q, i);
    }
  }

  // ---------------------------------------------------------------------
  // Splitting and joining

  /** `s.split(sep)[0]`: the text before the first `sep`, or all of `s`. */
  function Before(s: string, sep: string): (r: string)
    requires |sep| > 0
    ensures |r| <= |s| && r == s[..|r|]
    ensures !Contains(r, sep)
    ensures forall k: nat :: k < |r| ==> !OccursAt(s, sep, k)
    ensures Contains(s, sep) <==> |r| < |s|
    ensures Contains(s, sep) ==> OccursAt(s, sep, |r|)
  {
    match Find(s, sep, 0)
    case Nothing => s
    case Just(i) =>
      var r := s[..i];
      assert !Contains(r, sep) by {
        if Contains(r, sep) {
          var k := Find(r, sep, 0).value;
          SliceOfSlice(s, 0, i, k, |sep|);
          assert OccursAt(s, sep, k);
        }
      }
      r
  }

  /** The text after the first `sep`. */
  function After(s: string, sep: string): (r: string)
    requires Contains(s, sep)
    ensures |r| <= |s| - |sep| && r == s[|s| - |r|..]
    ensures OccursAt(s, sep, |s| - |r| - |sep|)
    ensures forall k: nat :: k < |s| - |r| - |sep| ==> !OccursAt(s, sep, k)
  {
    s[Find(s, sep, 0).value + |sep|..]
  }

  /** Python's `s.split(sep)` and JavaScript's `s.split(sep)` for a non-empty separator. */
  function Split(s: string, sep: string): (r: seq<string>)
    requires |sep| > 0
    ensures |r| >= 1
    ensures forall k :: 0 <= k < |r| ==> !Contains(r[k], sep)
    decreases |s|
  {
    match Find(s, sep, 0)
    case Nothing => [s]
    case Just(i) =>
      assert s[..i] == Before(s, sep);
      [s[..i]] + Split(s[i + |sep|..], sep)
  }

  /** The first piece of a split is the text before the separator; when the
      separator occurs, there is a second piece: the text between its first
      and second occurrence. */
  lemma SplitPieces(s: string, sep: string)
    requires |sep| > 0
    ensures Split(s, sep)[0] == Before(s, sep)
    ensures Contains(s, sep) <==> |Split(s, sep)| >= 2
    ensures Contains(s, sep) ==> Split(s, sep)[1] == Before(After(s, sep), sep)
  {
    if Contains(s, sep) {
      var i := Find(s, sep, 0).value;
      assert Split(s, sep) == [s[..i]] + Split(s[i + |sep|..], sep);
    }
  }

  /** Splitting on a one-character separator distributes over a text joined
      by that separator. */
  lemma {:induction false} SplitConcat(a: string, sep: string, b: string)
    requires |sep| == 1
    ensures Split(a + sep + b, sep) == Split(a, sep) + Split(b, sep)
    decreases |a|
  {
    var s := a + sep + b;
    match Find(a, sep, 0)
    case Just(i) =>
      var head, tail := a[..i], a[i + 1..];
      FindInPrefix(a, sep + b, sep, i);
      assert s == a + (sep + b);
      assert s[..i] == head;
      assert s[i + 1..] == tail + sep + b;
      assert Split(s, sep) == [head] + Split(tail + sep + b, sep);
      assert Split(a, sep) == [head] + Split(tail, sep);
      SplitConcat(tail, sep, b);
    case Nothing =>
      FindAtSeparator(a, sep, b);
      assert s[..|a|] == a;
      assert s[|a| + 1..] == b;
      assert Split(s, sep) == [a] + Split(b, sep);
  }

  /** An occurrence found first in `a` is found first in any extension of `a`. */
  lemma {:induction false} FindInPrefix(a: string, rest: string, p: string, i: nat)
    requires Find(a, p, 0) == Just(i)
    ensures Find(a + rest, p, 0) == Just(i)
  {
    var s := a + rest;
    assert OccursAt(s, p, i) by { SliceOfSlice(s, 0, |a|, i, |p|); assert s[..|a|] == a; }
    forall k: nat | k < i ensures !OccursAt(s, p, k) {
      assert !OccursAt(a, p, k);
      SliceOfSlice(s, 0, |a|, k, |p|);
      assert s[..|a|] == a;
    }
    FindFirst(s, p, 0, i);
  }

  /** When `a` has no one-character separator, the first one of
      `a + sep + b` is the one placed after `a`. */
  lemma {:induction false} FindAtSeparator(a: string, sep: string, b: string)
    requires |sep| == 1 && Find(a, sep, 0).Nothing?
    ensures Find(a + sep + b, sep, 0) == Just(|a|)
  {
    var s := a + sep + b;
    assert OccursAt(s, sep, |a|) by { assert s[|a|..|a| + 1] == sep; }
    forall k: nat | k < |a| ensures !OccursAt(s, sep, k) {
      assert !OccursAt(a, sep, k);
      assert s[k..k + 1] == a[k..k + 1];
    }
    FindFirst(s, sep, 0, |a|);
  }

  /** Python's `sep.join(xs)`. */
  function Join(xs: seq<string>, sep: string): string
  {
    if |xs| == 0 then ""
    else if |xs| == 1 then xs[0]
    else xs[0] + sep + Join(xs[1..], sep)
  }

  lemma JoinCons(x: string, xs: seq<string>, sep: string)
    requires |xs| >= 1
    ensures Join([x] + xs, sep) == x + sep + Join(xs, sep)
  {
    assert ([x] + xs)[1..] == xs;
  }

  lemma {:induction false} JoinAppend(a: seq<string>, b: seq<string>, sep: string)
    requires |a| >= 1 && |b| >= 1
    ensures Join(a + b, sep) == Join(a, sep) + sep + Join(b, sep)
  {
    if |a| == 1 {
      JoinCons(a[0], b, sep);
      assert a + b == [a[0]] + b;
    } else {
      JoinAppend(a[1..], b, sep);
      assert a + b == [a[0]] + (a[1..] + b);
      JoinCons(a[0], a[1..] + b, sep);
      JoinCons(a[0], a[1..], sep);
      assert a == [a[0]] + a[1..];
    }
  }

  lemma {:induction false} JoinAvoids(xs: seq<string>, sep: string, c: char)
    requires c !in sep && forall x :: x in xs ==> c !in x
    ensures c !in Join(xs, sep)
  {
    if |xs| >= 2 {
      JoinAvoids(xs[1..], sep, c);
      assert xs[0] in xs;
    } else if |xs| == 1 {
      assert xs[0] in xs;
    }
  }

  lemma Join6(a: string, b: string, c: string, d: string, e: string, f: string, sep: string)
    ensures Join([a, b, c, d, e, f], sep) == a + sep + b + sep + c + sep + d + sep + e + sep + f
  {
    var j1 := Join([f], sep);
    assert j1 == f;
    var j2 := Join([e, f], sep);
    JoinCons(e, [f], sep);
    assert [e] + [f] == [e, f];
    assert j2 == e + sep + f;
    var j3 := Join([d, e, f], sep);
    JoinCons(d, [e, f], sep);
    assert [d] + [e, f] == [d, e, f];
    assert j3 == d + sep + j2;
    var j4 := Join([c, d, e, f], sep);
    JoinCons(c, [d, e, f], sep);
    assert [c] + [d, e, f] == [c, d, e, f];
    assert j4 == c + sep + j3;
    var j5 := Join([b, c, d, e, f], sep);
    JoinCons(b, [c, d, e, f], sep);
    assert [b] + [c, d, e, f] == [b, c, d, e, f];
    assert j5 == b + sep + j4;
    JoinCons(a, [b, c, d, e, f], sep);
    assert [a] + [b, c, d, e, f] == [a, b, c, d, e, f];
    assert Join([a, b, c, d, e, f], sep) == a + sep + j5;
  }

  /** Joining the pieces of a split with the same separator gives the text back. */
  lemma {:induction false} JoinSplit(s: string, sep: string)
    requires |sep| > 0
    ensures Join(Split(s, sep), sep) == s
    decreases |s|
  {
    match Find(s, sep, 0)
    case Nothing =>
    case Just(i) =>
      var head, rest := s[..i], s[i + |sep|..];
      assert Split(s, sep) == [head] + Split(rest, sep);
      JoinSplit(rest, sep);
      JoinCons(head, Split(rest, sep), sep);
      Around(s, i, sep);
  }

  /** A text is the part before an occurrence, the occurrence, and the rest. */
  lemma Around(s: string, i: nat, p: string)
    requires OccursAt(s, p, i)
    ensures s == s[..i] + p + s[i + |p|..]
  {
    assert s == s[..i] + s[i..i + |p|] + s[i + |p|..];
  }

  lemma CharOccurrence(s: string, x: string, c: char, k: nat)
    requires |x| <= |s| && s[..|x|] == x && k < |x| && OccursAt(s, [c], k)
    ensures c in x
  {
    assert s[k..k + 1][0] == s[k] == x[k];
  }

  /** Splitting a join on a one-character separator that no piece contains
      gives the pieces back. */
  lemma {:induction false} SplitJoin(xs: seq<string>, c: char)
    requires |xs| >= 1
    requires forall x :: x in xs ==> c !in x
    ensures Split(Join(xs, [c]), [c]) == xs
  {
    var s := Join(xs, [c]);
    var x := xs[0];
    assert x in xs;
    if |xs| == 1 {
      assert s == x;
      match Find(s, [c], 0)
      case Nothing =>
      case Just(k) =>
        CharOccurrence(s, x, c, k);
        assert false;
    } else {
      var tail := Join(xs[1..], [c]);
      JoinCons(x, xs[1..], [c]);
      assert xs == [x] + xs[1..];
      assert s == x + [c] + tail;
      forall k: nat | k < |x| ensures !OccursAt(s, [c], k) {
        if OccursAt(s, [c], k) {
          CharOccurrence(s, x, c, k);
          assert false;
        }
      }
      assert s[|x|..|x| + 1] == [c];
      FindFirst(s, [c], 0, |x|);
      assert s[..|x|] == x;
      assert s[|x| + 1..] == tail;
      SplitJoin(xs[1..], c);
    }
  }

  // ---------------------------------------------------------------------
  // Case and filtering

  /** ASCII lower-casing of one character. */
  function LowerChar(c: char): char {
    if 'A' <= c <= 'Z' then (c as int + 32) as char else c
  }

  /** `s.lower()`, restricted to ASCII letters. */
  function Lower(s: string): (r: string)
    ensures |r| == |s|
    ensures forall k :: 0 <= k < |s| ==> r[k] == LowerChar(s[k])
  {
    seq(|s|, k requires 0 <= k < |s| => LowerChar(s[k]))
  }

  lemma LowerIdempotent(s: string)
    ensures Lower(Lower(s)) == Lower(s)
  {
  }

  /** JavaScript's `xs.filter(keep)`: the elements that pass, in order. */
  function Filter<T>(xs: seq<T>, keep: T -> bool): (r: seq<T>)
    ensures |r| <= |xs|
    ensures forall k :: 0 <= k < |r| ==> keep(r[k])
  {
    if |xs| == 0 then [] else (if keep(xs[0]) then [xs[0]] else []) + Filter(xs[1..], keep)
  }

  /** Filtering commutes with concatenation, so the kept elements stay in order. */
  lemma {:induction false} FilterConcat<T>(a: seq<T>, b: seq<T>, keep: T -> bool)
    ensures Filter(a + b, keep) == Filter(a, keep) + Filter(b, keep)
  {
    if |a| == 0 {
      assert a + b == b;
    } else {
      assert (a + b)[1..] == a[1..] + b;
      FilterConcat(a[1..], b, keep);
    }
  }

  /** An element survives filtering iff it was there and passes. */
  lemma {:induction false} FilterMembership<T>(xs: seq<T>, keep: T -> bool, x: T)
    ensures x in Filter(xs, keep) <==> x in xs && keep(x)
  {
    if |xs| > 0 {
      FilterMembership(xs[1..], keep, x);
      assert xs == [xs[0]] + xs[1..];
    }
  }

  /** Filtering a list of three drops exactly the middle one when only it fails. */
  lemma FilterDropsMiddle<T>(x: T, b: T, y: T, keep: T -> bool)
    requires keep(x) && !keep(b) && keep(y)
    ensures Filter([x, b, y], keep) == [x, y]
  {
    var xs := [x, b, y];
    assert xs[1..] == [b, y] && xs[1..][1..] == [y] && [y][1..] == [];
    assert Filter([y], keep) == [y] + Filter([], keep);
    assert Filter([b, y], keep) == Filter([y], keep);
    assert Filter(xs, keep) == [x] + Filter([b, y], keep);
  }
}
