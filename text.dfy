/** Strings as the router sees them: ASCII lower-casing, prefix tests and
    substring containment (Python's `str.lower`, `str.startswith` and `in`). */
module Text {

  predicate IsUpper(c: char) {
    'A' <= c <= 'Z'
  }

  /** Lower-cases one ASCII letter and leaves every other character alone. */
  function LowerChar(c: char): char {
    if IsUpper(c) then (c as int + 32) as char else c
  }

  /** `s.lower()`, restricted to the ASCII letters. */
  function Lower(s: string): (r: string)
    ensures |r| == |s|
    ensures forall i :: 0 <= i < |r| ==> !IsUpper(r[i])
    ensures forall i :: 0 <= i < |s| && !IsUpper(s[i]) ==> r[i] == s[i]
    ensures forall i :: 0 <= i < |s| && IsUpper(s[i]) ==> r[i] as int == s[i] as int + 32
  {
    seq(|s|, i requires 0 <= i < |s| => LowerChar(s[i]))
  }

  /** Lower-casing twice is lower-casing once. */
  lemma LowerIdempotent(s: string)
    ensures Lower(Lower(s)) == Lower(s)
  {
  }

  /** `m + x + n` occurs in `(a + m) + x + (n + b)` right after `a`. */
  lemma OccursAcrossJoins(a: string, m: string, x: string, n: string, b: string)
    ensures OccursAt((a + m) + x + (n + b), m + x + n, |a|)
  {
    var s := (a + m) + x + (n + b);
    assert s == a + (m + x + n) + b;
    assert s[|a|..|a| + |m + x + n|] == m + x + n;
  }

  /** `s.startswith(p)`: `p` occurs in `s` at index 0. */
  predicate StartsWith(s: string, p: string): (b: bool)
    ensures b <==> OccursAt(s, p, 0)
  {
    |p| <= |s| && s[..|p|] == p
  }

  /** A prefix agrees with the string character by character. */
  lemma StartsWithChars(s: string, p: string)
    ensures StartsWith(s, p) <==> |p| <= |s| && forall i :: 0 <= i < |p| ==> s[i] == p[i]
  {
    if |p| <= |s| && forall i :: 0 <= i < |p| ==> s[i] == p[i] {
      assert s[..|p|] == p;
    }
  }

  /** `sub` occurs in `s` starting at index `i`. */
  predicate OccursAt(s: string, sub: string, i: int) {
    0 <= i && i + |sub| <= |s| && s[i..i + |sub|] == sub
  }

  /** `sub in s`: `sub` is a prefix of some suffix of `s`. */
  predicate Contains(s: string, sub: string)
    ensures |sub| == 0 ==> Contains(s, sub)
    ensures StartsWith(s, sub) ==> Contains(s, sub)
    ensures Contains(s, sub) ==> |sub| <= |s|
    decreases |s|
  {
    StartsWith(s, sub) || (|s| > 0 && Contains(s[1..], sub))
  }

  /** The recursive search finds exactly the occurrences at some index. */
  lemma {:induction false} ContainsIff(s: string, sub: string)
    ensures Contains(s, sub) <==> exists i :: OccursAt(s, sub, i)
    decreases |s|
  {
    if Contains(s, sub) {
      if StartsWith(s, sub) {
        assert OccursAt(s, sub, 0);
      } else {
        ContainsIff(s[1..], sub);
        var j :| OccursAt(s[1..], sub, j);
        assert s[1..][j..j + |sub|] == s[j + 1..j + 1 + |sub|];
        assert OccursAt(s, sub, j + 1);
      }
    }
    if exists i :: OccursAt(s, sub, i) {
      var i :| OccursAt(s, sub, i);
      if i == 0 {
        assert StartsWith(s, sub);
      } else {
        assert s[1..][i - 1..i - 1 + |sub|] == s[i..i + |sub|];
        assert OccursAt(s[1..], sub, i - 1);
        ContainsIff(s[1..], sub);
      }
    }
  }

  /** An occurrence at a known index witnesses containment. */
  lemma ContainsAt(s: string, sub: string, i: int)
    requires OccursAt(s, sub, i)
    ensures Contains(s, sub)
  {
    ContainsIff(s, sub);
  }

  /** Containment is transitive: a string holding `m` holds everything `m` holds. */
  lemma ContainsTransitive(s: string, m: string, sub: string)
    requires Contains(s, m) && Contains(m, sub)
    ensures Contains(s, sub)
  {
    ContainsIff(s, m);
    ContainsIff(m, sub);
    var i :| OccursAt(s, m, i);
    var j :| OccursAt(m, sub, j);
    forall k | 0 <= k < |sub|
      ensures s[i + j + k] == sub[k]
    {
      assert sub[k] == m[j + k] == s[i..i + |m|][j + k];
    }
    assert s[i + j..i + j + |sub|] == sub;
    ContainsAt(s, sub, i + j);
  }

  /** Whatever a middle piece contains, the whole string contains. */
  lemma ContainsInMiddle(a: string, m: string, b: string, sub: string)
    requires Contains(m, sub)
    ensures Contains(a + m + b, sub)
  {
    assert (a + m + b)[|a|..|a| + |m|] == m;
    ContainsAt(a + m + b, m, |a|);
    ContainsTransitive(a + m + b, m, sub);
  }
}
