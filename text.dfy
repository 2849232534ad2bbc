/**
 * Strings as JavaScript sees them in this program: line terminators for regular
 * expressions, the default `Array.prototype.sort` order, `Array.prototype.join`
 * with a newline and the matching split.
 */
module Text {
  import opened Wrappers

  /** The characters that `.` refuses and that `^`/`$` stop at in multiline mode. */
  predicate IsLineTerminator(c: char) {
    c == '\n' || c == '\r' || c == '\U{2028}' || c == '\U{2029}'
  }

  /** `s.startsWith(p)`. */
  predicate StartsWith(s: string, p: string) {
    |p| <= |s| && s[..|p|] == p
  }

  /** `s.endsWith(p)`. */
  predicate EndsWith(s: string, p: string) {
    |p| <= |s| && s[|s| - |p|..] == p
  }

  /** `pat` occurs in `s` starting at index `k`. */
  predicate OccursAt(s: string, k: int, pat: string) {
    0 <= k && k + |pat| <= |s| && s[k..k + |pat|] == pat
  }

  /** The leftmost position from `from` on where `p` holds, as a left-to-right scan finds it. */
  function FirstWhere(s: string, from: nat, p: (string, int) -> bool): (r: Option<nat>)
    ensures r.Some? ==> from <= r.value < |s| && p(s, r.value)
    ensures r.Some? ==> forall k :: from <= k < r.value ==> !p(s, k)
    ensures r.None? ==> forall k :: from <= k < |s| ==> !p(s, k)
    decreases |s| - from
  {
    if from >= |s| then None
    else if p(s, from) then Some(from)
    else FirstWhere(s, from + 1, p)
  }

  /** A string of `n` spaces, the padding `padStart` uses by default. */
  function Spaces(n: nat): (r: string)
    ensures |r| == n && forall i :: 0 <= i < n ==> r[i] == ' '
  {
    seq(n, _ => ' ')
  }

  // ---------------------------------------------------------------------------
  // The order of `Array.prototype.sort` without a comparator: strings compared
  // character by character, a proper prefix coming first.

  /** `a` sorts no later than `b`. */
  predicate Below(a: string, b: string) {
    if |a| == 0 then true
    else if |b| == 0 then false
    else if a[0] != b[0] then a[0] < b[0]
    else Below(a[1..], b[1..])
  }

  lemma {:induction false} BelowReflexive(a: string)
    ensures Below(a, a)
  {
    if |a| > 0 {
      BelowReflexive(a[1..]);
    }
  }

  lemma {:induction false} BelowTotal(a: string, b: string)
    ensures Below(a, b) || Below(b, a)
  {
    if |a| > 0 && |b| > 0 && a[0] == b[0] {
      BelowTotal(a[1..], b[1..]);
    }
  }

  lemma {:induction false} BelowAntisymmetric(a: string, b: string)
    requires Below(a, b) && Below(b, a)
    ensures a == b
  {
    if |a| > 0 && |b| > 0 {
      BelowAntisymmetric(a[1..], b[1..]);
      assert a == [a[0]] + a[1..] && b == [b[0]] + b[1..];
    }
  }

  lemma {:induction false} BelowTransitive(a: string, b: string, c: string)
    requires Below(a, b) && Below(b, c)
    ensures Below(a, c)
  {
    if |a| > 0 && |b| > 0 && |c| > 0 && a[0] == b[0] && b[0] == c[0] {
      BelowTransitive(a[1..], b[1..], c[1..]);
    }
  }

  /** The strings a sequence holds, as a set. */
  function Elements(s: seq<string>): set<string> {
    set x | x in s
  }

  lemma ElementsEmpty(s: seq<string>)
    ensures Elements(s) == {} <==> s == []
  {
    if s != [] {
      assert s[0] in Elements(s);
    }
  }

  /** Every element sorts strictly before every later one: sorted and free of duplicates. */
  predicate StrictlySorted(s: seq<string>) {
    forall i, j :: 0 <= i < j < |s| ==> Below(s[i], s[j]) && s[i] != s[j]
  }

  /** No string occurs twice. */
  predicate NoDuplicates(s: seq<string>) {
    forall i, j :: 0 <= i < j < |s| ==> s[i] != s[j]
  }

  /** Inserts `x` into its place in a strictly sorted sequence that lacks it. */
  function Insert(x: string, s: seq<string>): (r: seq<string>)
    requires StrictlySorted(s) && x !in s
    ensures StrictlySorted(r)
    ensures multiset(r) == multiset(s) + multiset{x}
  {
    if s == [] then [x]
    else if Below(x, s[0]) then
      forall j | 0 <= j < |s|
        ensures Below(x, s[j]) && x != s[j]
      {
        if j > 0 { BelowTransitive(x, s[0], s[j]); }
      }
      [x] + s
    else
      var rest := Insert(x, s[1..]);
      assert s == [s[0]] + s[1..];
      BelowTotal(x, s[0]);
      HeadBelowRest(x, s, rest);
      [s[0]] + rest
  }

  /** The head of a strictly sorted `s` precedes everything in `rest`, which holds the tail of `s` and an `x` above the head. */
  lemma HeadBelowRest(x: string, s: seq<string>, rest: seq<string>)
    requires StrictlySorted(s) && |s| > 0 && x != s[0] && Below(s[0], x)
    requires multiset(rest) == multiset(s[1..]) + multiset{x}
    ensures forall k :: 0 <= k < |rest| ==> Below(s[0], rest[k]) && s[0] != rest[k]
  {
    forall k | 0 <= k < |rest|
      ensures Below(s[0], rest[k]) && s[0] != rest[k]
    {
      assert rest[k] in multiset(rest);
      if rest[k] != x {
        assert rest[k] in multiset(s[1..]);
        var j :| 0 <= j < |s[1..]| && s[1..][j] == rest[k];
        assert s[j + 1] == rest[k];
      }
    }
  }

  /**
   * The sorted copy of a duplicate-free sequence, as `[...keys].sort()` computes it.
   * It keeps exactly the same elements.
   */
  function Sort(s: seq<string>): (r: seq<string>)
    requires NoDuplicates(s)
    ensures StrictlySorted(r)
    ensures multiset(r) == multiset(s)
  {
    if s == [] then []
    else
      assert s == [s[0]] + s[1..];
      var tail := Sort(s[1..]);
      assert s[0] !in s[1..] by {
        forall j | 0 <= j < |s| - 1 ensures s[1..][j] != s[0] {
          assert s[j + 1] != s[0];
        }
      }
      assert s[0] !in multiset(tail);
      Insert(s[0], tail)
  }

  /** Sorting keeps the set of strings. */
  lemma SortKeepsElements(s: seq<string>)
    requires NoDuplicates(s)
    ensures Elements(Sort(s)) == Elements(s)
  {
    var r := Sort(s);
    forall x ensures x in r <==> x in s {
      assert x in r <==> x in multiset(r);
      assert x in s <==> x in multiset(s);
    }
  }

  /**
   * Two strictly sorted sequences holding the same strings are the same sequence:
   * the sorted output does not depend on the order the strings were found in.
   */
  lemma {:induction false} StrictlySortedUnique(a: seq<string>, b: seq<string>)
    requires StrictlySorted(a) && StrictlySorted(b)
    requires Elements(a) == Elements(b)
    ensures a == b
  {
    ElementsEmpty(a);
    ElementsEmpty(b);
    if a != [] && b != [] {
      assert a[0] in Elements(b);
      assert b[0] in Elements(a);
      var i :| 0 <= i < |b| && b[i] == a[0];
      var j :| 0 <= j < |a| && a[j] == b[0];
      assert Below(b[0], a[0]) by { if i == 0 { BelowReflexive(a[0]); } }
      assert Below(a[0], b[0]) by { if j == 0 { BelowReflexive(a[0]); } }
      BelowAntisymmetric(a[0], b[0]);
      assert Elements(a[1..]) == Elements(b[1..]) by {
        forall y | y in a[1..] ensures y in b[1..] {
          var k :| 1 <= k < |a| && a[k] == y;
          assert y != a[0];
          assert y in Elements(b);
        }
        forall y | y in b[1..] ensures y in a[1..] {
          var k :| 1 <= k < |b| && b[k] == y;
          assert y != b[0];
          assert y in Elements(a);
        }
      }
      StrictlySortedUnique(a[1..], b[1..]);
      assert a == [a[0]] + a[1..] && b == [b[0]] + b[1..];
    }
  }

  // ---------------------------------------------------------------------------
  // `lines.join('\n')` and its inverse.

  /** `lines.join('\n')`. */
  function Join(lines: seq<string>): string {
    if |lines| == 0 then ""
    else if |lines| == 1 then lines[0]
    else lines[0] + "\n" + Join(lines[1..])
  }

  /** The first index of `'\n'` in `s`, or `|s|` when there is none. */
  function NewlineIndex(s: string): (k: nat)
    ensures k <= |s|
    ensures k < |s| ==> s[k] == '\n'
    ensures forall i :: 0 <= i < k ==> s[i] != '\n'
  {
    if |s| == 0 then 0
    else if s[0] == '\n' then 0
    else 1 + NewlineIndex(s[1..])
  }

  /** `s.split('\n')`: the pieces between newlines, at least one. */
  function Split(s: string): (r: seq<string>)
    ensures |r| >= 1
    ensures forall i :: 0 <= i < |r| ==> '\n' !in r[i]
    decreases |s|
  {
    var k := NewlineIndex(s);
    if k == |s| then [s] else [s[..k]] + Split(s[k + 1..])
  }

  /** Splitting a joined list gives the list back when no line holds a newline. */
  lemma {:induction false} SplitJoin(lines: seq<string>)
    requires |lines| >= 1
    requires forall i :: 0 <= i < |lines| ==> '\n' !in lines[i]
    ensures Split(Join(lines)) == lines
  {
    var first := lines[0];
    if |lines| > 1 {
      var s := Join(lines);
      var rest := Join(lines[1..]);
      assert s == first + "\n" + rest;
      assert NewlineIndex(s) == |first| by {
        assert s == first + ("\n" + rest);
        NewlineIndexOfPrefix(first, "\n" + rest);
      }
      assert s[..|first|] == first;
      assert s[|first| + 1..] == rest;
      SplitJoin(lines[1..]);
      assert lines == [first] + lines[1..];
    }
  }

  lemma {:induction false} NewlineIndexOfPrefix(a: string, b: string)
    requires '\n' !in a && |b| > 0 && b[0] == '\n'
    ensures NewlineIndex(a + b) == |a|
  {
    if |a| > 0 {
      assert (a + b)[1..] == a[1..] + b;
      NewlineIndexOfPrefix(a[1..], b);
    } else {
      assert a + b == b;
    }
  }
}
