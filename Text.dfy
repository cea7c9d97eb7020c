/** Plain string operations the dashboard relies on: Python's `in` on strings,
    case-insensitive search, prefix slicing `s[:n]` and string ordering. */
module Text {

  /** `p` is a prefix of `s` (Python's `s.startswith(p)`). */
  predicate IsPrefix(p: string, s: string) {
    |p| <= |s| && s[..|p|] == p
  }

  /** `sub` occurs in `s` starting at index `i`. */
  predicate OccursAt(s: string, sub: string, i: nat) {
    i + |sub| <= |s| && s[i..i + |sub|] == sub
  }

  /** Python's `sub in s`: `sub` occurs as a contiguous run of `s`.
      The empty string occurs in every string. */
  predicate Contains(s: string, sub: string) {
    exists i :: 0 <= i <= |s| && OccursAt(s, sub, i)
  }

  /** Text put in front keeps every occurrence. */
  lemma ContainsInSuffix(a: string, s: string, sub: string)
    requires Contains(s, sub)
    ensures Contains(a + s, sub)
  {
    var i :| 0 <= i <= |s| && OccursAt(s, sub, i);
    assert OccursAt(a + s, sub, |a| + i) by {
      assert (a + s)[|a| + i..|a| + i + |sub|] == s[i..i + |sub|];
    }
  }

  /** A piece of a concatenation is contained in it. */
  lemma ContainsPiece(a: string, m: string, b: string)
    ensures Contains(a + m + b, m)
  {
    assert OccursAt(a + m + b, m, |a|) by {
      assert (a + m + b)[|a|..|a| + |m|] == m;
    }
  }

  /** If a character of `sub` never occurs in `s`, then `sub` does not occur in `s`. */
  lemma MissingCharNotContained(s: string, sub: string, c: char)
    requires c in sub && c !in s
    ensures !Contains(s, sub)
  {
  }

  /** Whatever contains `sub` contains every prefix of `sub`. */
  lemma ContainsPrefixOf(s: string, sub: string, p: string)
    requires Contains(s, sub) && IsPrefix(p, sub)
    ensures Contains(s, p)
  {
    var i :| 0 <= i <= |s| && OccursAt(s, sub, i);
    assert OccursAt(s, p, i) by {
      assert s[i..i + |p|] == sub[..|p|];
    }
  }

  /** ASCII upper-case letters map to lower case; every other character is kept. */
  function LowerChar(c: char): char {
    if 'A' <= c <= 'Z' then (c as int + 32) as char else c
  }

  function Lower(s: string): string {
    seq(|s|, i requires 0 <= i < |s| => LowerChar(s[i]))
  }

  /** Folding case twice folds it once. */
  lemma LowerIdempotent(s: string)
    ensures Lower(Lower(s)) == Lower(s)
  {
  }

  /** Case-insensitive substring test, as used by the venture search. */
  predicate ContainsIgnoringCase(s: string, sub: string) {
    Contains(Lower(s), Lower(sub))
  }

  /** Python's `s[:n]`: the first `n` characters, or all of `s` when it is shorter. */
  function Truncate(s: string, n: nat): (r: string)
    ensures IsPrefix(r, s)
    ensures |r| == if |s| <= n then |s| else n
  {
    if |s| <= n then s else s[..n]
  }

  /** Python's `a <= b` on strings: lexicographic by code point, a proper prefix first. */
  predicate LexLe(a: string, b: string)
    decreases |a|
  {
    |a| == 0 || (|b| > 0 && (a[0] < b[0] || (a[0] == b[0] && LexLe(a[1..], b[1..]))))
  }

  lemma {:induction false} LexLeTotal(a: string, b: string)
    ensures LexLe(a, b) || LexLe(b, a)
  {
    if |a| > 0 && |b| > 0 && a[0] == b[0] {
      LexLeTotal(a[1..], b[1..]);
    }
  }

  lemma {:induction false} LexLeTransitive(a: string, b: string, c: string)
    requires LexLe(a, b) && LexLe(b, c)
    ensures LexLe(a, c)
  {
    if |a| > 0 && a[0] == b[0] && b[0] == c[0] {
      LexLeTransitive(a[1..], b[1..], c[1..]);
    }
  }

  lemma {:induction false} LexLeAntisymmetric(a: string, b: string)
    requires LexLe(a, b) && LexLe(b, a)
    ensures a == b
  {
    if |a| > 0 {
      LexLeAntisymmetric(a[1..], b[1..]);
      assert a == [a[0]] + a[1..] && b == [b[0]] + b[1..];
    }
  }
}
