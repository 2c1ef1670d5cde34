/**
 * Substring tests on status strings: Python's `sub in s` and pandas'
 * `Series.str.contains(sub)` for a pattern without special characters.
 */
module Text {

  predicate StartsWith(s: string, prefix: string)
  {
    |prefix| <= |s| && s[..|prefix|] == prefix
  }

  /** `sub in s`: `sub` occurs somewhere in `s`; case-sensitive, and the empty string occurs everywhere. */
  predicate Contains(s: string, sub: string)
    decreases |s|
  {
    StartsWith(s, sub) || (|s| > 0 && Contains(s[1..], sub))
  }

  /** `sub` occurs in `s` starting at position `i`. */
  ghost predicate OccursAt(s: string, sub: string, i: int)
  {
    0 <= i && i + |sub| <= |s| && s[i..i + |sub|] == sub
  }

  /** The scanning definition of `Contains` agrees with "there is a position where `sub` occurs". */
  lemma {:induction false} ContainsIffOccurs(s: string, sub: string)
    ensures Contains(s, sub) <==> exists i :: OccursAt(s, sub, i)
  {
    if |s| > 0 {
      ContainsIffOccurs(s[1..], sub);
    }
    if Contains(s, sub) {
      if StartsWith(s, sub) {
        assert OccursAt(s, sub, 0);
      } else {
        var i :| OccursAt(s[1..], sub, i);
        assert s[i + 1..i + 1 + |sub|] == s[1..][i..i + |sub|];
        assert OccursAt(s, sub, i + 1);
      }
    }
    forall i | OccursAt(s, sub, i)
      ensures Contains(s, sub)
    {
      if i > 0 {
        assert OccursAt(s[1..], sub, i - 1);
      }
    }
  }

  /**
   * An occurrence of a non-empty `sub` starts no later than |s| - |sub|, so
   * the first character of `sub` appears among the first |s| - |sub| + 1
   * characters of `s`.
   */
  lemma ContainsFirstChar(s: string, sub: string)
    requires |sub| > 0 && Contains(s, sub)
    ensures |sub| <= |s| && sub[0] in s[..|s| - |sub| + 1]
  {
    ContainsIffOccurs(s, sub);
    var i :| OccursAt(s, sub, i);
    assert s[..|s| - |sub| + 1][i] == s[i..i + |sub|][0];
  }

  /** `s` cannot hold a non-empty `sub` that is longer, or whose first character never appears where an occurrence could start. */
  lemma NotContainsByFirstChar(s: string, sub: string)
    requires |sub| > 0
    requires |sub| > |s| || sub[0] !in s[..|s| - |sub| + 1]
    ensures !Contains(s, sub)
  {
    if Contains(s, sub) {
      ContainsFirstChar(s, sub);
    }
  }

  /** A string holding `a + b` holds `b`. */
  lemma ContainsSuffix(s: string, a: string, b: string)
    requires Contains(s, a + b)
    ensures Contains(s, b)
  {
    ContainsIffOccurs(s, a + b);
    var i :| OccursAt(s, a + b, i);
    assert s[i + |a|..i + |a| + |b|] == (a + b)[|a|..];
    assert OccursAt(s, b, i + |a|);
    ContainsIffOccurs(s, b);
  }
}
