/**
 * The handful of JavaScript string operations the debugger relies on:
 * `toLowerCase`, `indexOf`, `split` on a one-character separator, `join`,
 * `trim`, `substr` and the debugger's own `startsWith`.
 */
module Text {

  /** The characters `trim` removes: ASCII white space, no-break space and the byte-order mark. */
  predicate IsWhitespace(c: char) {
    c == ' ' || c == '\t' || c == '\n' || c == '\r' || c == '\U{000B}' || c == '\U{000C}' ||
    c == '\U{00A0}' || c == '\U{FEFF}'
  }

  /** `toLowerCase` on one character, for the Latin capitals. */
  function LowerChar(c: char): (d: char)
    ensures 'A' <= c <= 'Z' ==> d as int == c as int + 32
    ensures !('A' <= c <= 'Z') ==> d == c
  {
    if 'A' <= c <= 'Z' then (c as int + 32) as char else c
  }

  /** `toLowerCase`, one character at a time. */
  function Lower(s: string): (t: string)
    ensures |t| == |s|
  {
    if s == [] then [] else [LowerChar(s[0])] + Lower(s[1..])
  }

  /** Lowering keeps the length and lowers every character in place. */
  lemma {:induction false} LowerAt(s: string)
    ensures forall i :: 0 <= i < |s| ==> Lower(s)[i] == LowerChar(s[i])
  {
    if s != [] {
      LowerAt(s[1..]);
      assert forall i :: 1 <= i < |s| ==> Lower(s)[i] == Lower(s[1..])[i - 1];
    }
  }

  /** Whether `k` occurs in `s` starting at index `i`. */
  predicate OccursAt(s: string, k: string, i: int) {
    0 <= i && i + |k| <= |s| && s[i..i + |k|] == k
  }

  /** `s.indexOf(k)`: the first index at which `k` occurs, or -1. */
  function IndexOf(s: string, k: string): (i: int)
    ensures -1 <= i <= |s|
  {
    IndexFrom(s, k, 0)
  }

  /** The first occurrence of `k` in `s` at or after `from`, or -1. */
  function IndexFrom(s: string, k: string, from: nat): (i: int)
    requires from <= |s|
    ensures -1 <= i <= |s|
    decreases |s| - from
  {
    if from + |k| > |s| then -1
    else if s[from..from + |k|] == k then from
    else if from == |s| then -1
    else IndexFrom(s, k, from + 1)
  }

  /** The search from `from` finds the first occurrence at or after `from`, and -1 only when there is none. */
  lemma {:induction false} IndexFromFirst(s: string, k: string, from: nat)
    requires from <= |s|
    ensures var i := IndexFrom(s, k, from);
      (i >= 0 ==> from <= i && OccursAt(s, k, i)) &&
      forall j :: from <= j && (i < 0 || j < i) ==> !OccursAt(s, k, j)
    decreases |s| - from
  {
    if from + |k| <= |s| && s[from..from + |k|] != k && from < |s| {
      IndexFromFirst(s, k, from + 1);
    }
  }

  /** `indexOf` gives the first occurrence, and -1 exactly when there is none. */
  lemma IndexOfFirst(s: string, k: string)
    ensures var i := IndexOf(s, k);
      (i >= 0 ==> OccursAt(s, k, i)) &&
      forall j :: 0 <= j && (i < 0 || j < i) ==> !OccursAt(s, k, j)
  {
    IndexFromFirst(s, k, 0);
  }

  /** `s.indexOf(k) >= 0`. */
  predicate Contains(s: string, k: string) {
    IndexOf(s, k) >= 0
  }

  /** Containment means an occurrence somewhere, and the empty string is in every string. */
  lemma ContainsIff(s: string, k: string)
    ensures Contains(s, k) <==> exists i :: OccursAt(s, k, i)
    ensures k == [] ==> Contains(s, k)
  {
    IndexOfFirst(s, k);
    if k == [] {
      assert OccursAt(s, k, 0);
    }
  }

  /**
   * `s.toLowerCase().indexOf(k) >= 0`, tested character by character from
   * `from` on without building the lowered string.
   */
  predicate LowerContainsFrom(s: string, k: string, from: nat)
    decreases |s| - from
  {
    from + |k| <= |s| && (LowerMatchesAt(s, k, from, 0) || LowerContainsFrom(s, k, from + 1))
  }

  /** Whether `k[j..]` equals the lowered `s` from `at + j` on. */
  predicate LowerMatchesAt(s: string, k: string, at: nat, j: nat)
    requires at + |k| <= |s|
    decreases |k| - j
  {
    j >= |k| || (LowerChar(s[at + j]) == k[j] && LowerMatchesAt(s, k, at, j + 1))
  }

  /** The character test agrees with comparing against a slice of the lowered string. */
  lemma {:induction false} LowerMatchesAtIff(s: string, k: string, at: nat, j: nat)
    requires at + |k| <= |s| && j <= |k|
    ensures LowerMatchesAt(s, k, at, j) <==> Lower(s)[at + j..at + |k|] == k[j..]
    decreases |k| - j
  {
    if j < |k| {
      LowerMatchesAtIff(s, k, at, j + 1);
      LowerAt(s);
      var t := Lower(s)[at + j..at + |k|];
      assert t == [Lower(s)[at + j]] + Lower(s)[at + j + 1..at + |k|];
      assert k[j..] == [k[j]] + k[j + 1..];
    }
  }

  /** The character-by-character search finds exactly the occurrences in the lowered string at or after `from`. */
  lemma {:induction false} LowerContainsFromIff(s: string, k: string, from: nat)
    ensures LowerContainsFrom(s, k, from) <==> exists i :: from <= i && OccursAt(Lower(s), k, i)
    decreases |s| - from
  {
    if from + |k| <= |s| {
      LowerMatchesAtIff(s, k, from, 0);
      assert k[0..] == k;
      LowerContainsFromIff(s, k, from + 1);
      if LowerMatchesAt(s, k, from, 0) {
        assert OccursAt(Lower(s), k, from);
      }
      if i :| from <= i && OccursAt(Lower(s), k, i) {
        if i != from {
          assert from + 1 <= i;
        }
      }
    }
  }

  /** Searching character by character is searching the lowered string with `indexOf`. */
  lemma LowerContainsIff(s: string, k: string)
    ensures LowerContainsFrom(s, k, 0) <==> Contains(Lower(s), k)
  {
    LowerContainsFromIff(s, k, 0);
    ContainsIff(Lower(s), k);
  }

  /** `s.split(c)`: the pieces between occurrences of `c`; the empty string gives one empty piece. */
  function Split(s: string, c: char): (parts: seq<string>)
    ensures |parts| >= 1
    ensures forall i :: 0 <= i < |parts| ==> c !in parts[i]
  {
    if s == [] then [""]
    else
      var rest := Split(s[1..], c);
      if s[0] == c then [""] + rest
      else [[s[0]] + rest[0]] + rest[1..]
  }

  /** `parts.join(sep)`; an empty array joins to the empty string. */
  function Join(parts: seq<string>, sep: string): string {
    if parts == [] then ""
    else if |parts| == 1 then parts[0]
    else parts[0] + sep + Join(parts[1..], sep)
  }

  /** Joining the pieces of a split with the separator gives back the string. */
  lemma {:induction false} JoinSplit(s: string, c: char)
    ensures Join(Split(s, c), [c]) == s
  {
    if s != [] {
      var rest := Split(s[1..], c);
      JoinSplit(s[1..], c);
      if s[0] == c {
        assert Split(s, c)[1..] == rest;
      } else {
        var parts := Split(s, c);
        if |rest| == 1 {
          assert parts == [[s[0]] + rest[0]];
        } else {
          assert parts[1..] == rest[1..];
          assert Join(rest, [c]) == rest[0] + [c] + Join(rest[1..], [c]);
        }
      }
    }
  }

  /** Splitting pieces joined with a separator none of them holds gives back the pieces. */
  lemma {:induction false} SplitJoin(parts: seq<string>, c: char)
    requires parts != [] && forall i :: 0 <= i < |parts| ==> c !in parts[i]
    ensures Split(Join(parts, [c]), c) == parts
    decreases |parts|, |parts[0]|
  {
    var p := parts[0];
    if p == [] {
      if |parts| > 1 {
        assert Join(parts, [c]) == [c] + Join(parts[1..], [c]);
        assert (Join(parts, [c]))[1..] == Join(parts[1..], [c]);
        SplitJoin(parts[1..], c);
      }
    } else {
      var tail := [p[1..]] + parts[1..];
      assert tail[1..] == parts[1..];
      assert p[0] != c by { assert p[0] in p; }
      SplitJoin(tail, c);
      JoinFirstChar(parts, c);
      assert [p[0]] + p[1..] == p;
    }
  }

  /** A join whose first piece is not empty starts with that piece's first character, then joins the rest of it. */
  lemma JoinFirstChar(parts: seq<string>, c: char)
    requires parts != [] && parts[0] != []
    ensures var s := Join(parts, [c]);
      s != [] && s[0] == parts[0][0] && s[1..] == Join([parts[0][1..]] + parts[1..], [c])
  {
    var p := parts[0];
    var tail := [p[1..]] + parts[1..];
    assert tail[1..] == parts[1..];
    if |parts| > 1 {
      assert Join(parts, [c]) == p + [c] + Join(parts[1..], [c]);
      assert Join(tail, [c]) == p[1..] + [c] + Join(parts[1..], [c]);
    }
  }

  /** `s` with leading white space removed. */
  function TrimStart(s: string): (t: string)
    ensures |t| <= |s| && t == s[|s| - |t|..]
    ensures t == [] || !IsWhitespace(t[0])
    ensures forall i :: 0 <= i < |s| - |t| ==> IsWhitespace(s[i])
  {
    if s != [] && IsWhitespace(s[0]) then TrimStart(s[1..]) else s
  }

  /** `s` with trailing white space removed. */
  function TrimEnd(s: string): (t: string)
    ensures |t| <= |s| && t == s[..|t|]
    ensures t == [] || !IsWhitespace(t[|t| - 1])
    ensures forall i :: |t| <= i < |s| ==> IsWhitespace(s[i])
  {
    if s != [] && IsWhitespace(s[|s| - 1]) then TrimEnd(s[..|s| - 1]) else s
  }

  /** `s.trim()`: white space removed at both ends. */
  function Trim(s: string): string {
    TrimEnd(TrimStart(s))
  }

  /**
   * Trimming keeps a contiguous run of `s` and removes only white space,
   * from both ends.
   */
  lemma TrimKeepsMiddle(s: string)
    ensures var t := Trim(s);
      var a := |s| - |TrimStart(s)|;
      a + |t| <= |s| && t == s[a..a + |t|] &&
      (forall i :: 0 <= i < a ==> IsWhitespace(s[i])) &&
      (forall i :: a + |t| <= i < |s| ==> IsWhitespace(s[i]))
  {
    var u := TrimStart(s);
    var t := TrimEnd(u);
    var a := |s| - |u|;
    SuffixPrefix(s, a, |t|);
    SuffixWhitespace(s, a, |t|);
  }

  /** A prefix of a suffix of `s` is a slice of `s`. */
  lemma SuffixPrefix(s: string, a: nat, n: nat)
    requires a + n <= |s|
    ensures s[a..][..n] == s[a..a + n]
  {
  }

  /** White space at the end of a suffix of `s` is white space at the end of `s`. */
  lemma SuffixWhitespace(s: string, a: nat, n: nat)
    requires a <= |s| && n <= |s| - a
    requires forall i :: n <= i < |s[a..]| ==> IsWhitespace(s[a..][i])
    ensures forall i :: a + n <= i < |s| ==> IsWhitespace(s[i])
  {
    forall i | a + n <= i < |s|
      ensures IsWhitespace(s[i])
    {
      assert s[i] == s[a..][i - a];
    }
  }

  /** What trimming keeps neither starts nor ends with white space. */
  lemma TrimmedEdges(s: string)
    ensures var t := Trim(s);
      t == [] || (!IsWhitespace(t[0]) && !IsWhitespace(t[|t| - 1]))
  {
    var u := TrimStart(s);
    var t := TrimEnd(u);
    assert t != [] ==> t[0] == u[0];
  }

  /** A string trims to nothing exactly when it is all white space. */
  lemma TrimEmptyIff(s: string)
    ensures Trim(s) == [] <==> forall i :: 0 <= i < |s| ==> IsWhitespace(s[i])
  {
    var u := TrimStart(s);
    if Trim(s) != [] {
      var t := Trim(s);
      var a := |s| - |u|;
      assert t == u[..|t|];
      assert s[a] == t[0];
    }
  }

  /** A string that neither starts nor ends with white space trims to itself. */
  lemma TrimTrimmed(s: string)
    requires s == [] || (!IsWhitespace(s[0]) && !IsWhitespace(s[|s| - 1]))
    ensures Trim(s) == s
  {
  }

  /** `s.substr(start)`: everything from `start` on, or nothing when `s` is shorter. */
  function DropPrefix(s: string, start: nat): (t: string)
    ensures start <= |s| ==> t == s[start..]
    ensures start > |s| ==> t == []
  {
    if start <= |s| then s[start..] else []
  }

  /** `startsWith(s, p)`: `s.substr(0, p.length) == p`, where `substr` stops at the end of `s`. */
  predicate StartsWith(s: string, p: string) {
    (if |p| <= |s| then s[..|p|] else s) == p
  }

  /** The debugger's `startsWith` is exactly the prefix relation. */
  lemma StartsWithIsPrefix(s: string, p: string)
    ensures StartsWith(s, p) <==> p <= s
  {
  }
}
