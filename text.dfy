/**
 * Postgres `lower()` as used by the case-insensitive email index
 * (backend/src/utils/db.ts). The collation's locale rules are not modelled:
 * only the ASCII letters A-Z are folded.
 */
module Text {

  predicate IsAsciiUpper(c: char) { 'A' <= c <= 'Z' }

  predicate IsAsciiLetter(c: char) { 'A' <= c <= 'Z' || 'a' <= c <= 'z' }

  function LowerChar(c: char): char
  {
    if IsAsciiUpper(c) then (c as int + 32) as char else c
  }

  function Lower(s: string): string
  {
    seq(|s|, i requires 0 <= i < |s| => LowerChar(s[i]))
  }

  /** The strings differ in more than letter case: in length, or at a position whose
      characters fold apart. */
  predicate DiffersBeyondCase(a: string, b: string)
  {
    |a| != |b| || exists k :: 0 <= k < |a| && k < |b| && LowerChar(a[k]) != LowerChar(b[k])
  }

  /** Two characters fold to the same character exactly when they are equal
      or are the two cases of one ASCII letter. */
  lemma LowerCharEqual(a: char, b: char)
    ensures LowerChar(a) == LowerChar(b) <==>
            a == b || (IsAsciiLetter(a) && IsAsciiLetter(b) && (a as int - b as int == 32 || b as int - a as int == 32))
  {
  }

  /** Two strings collide under `lower()` exactly when they have the same length
      and differ, position by position, at most in the case of an ASCII letter. */
  lemma LowerEqualIffCaseVariants(a: string, b: string)
    ensures Lower(a) == Lower(b) <==>
            |a| == |b| && forall i :: 0 <= i < |a| ==> LowerChar(a[i]) == LowerChar(b[i])
  {
    if Lower(a) == Lower(b) {
      assert |a| == |Lower(a)| == |Lower(b)| == |b|;
      forall i | 0 <= i < |a| ensures LowerChar(a[i]) == LowerChar(b[i]) {
        assert Lower(a)[i] == Lower(b)[i];
      }
    }
  }
}
