/** Substrings, as Python's `in` sees them. */
module Strings {
  predicate OccursAt(s: string, needle: string, k: nat) {
    k + |needle| <= |s| && s[k..k + |needle|] == needle
  }

  predicate Contains(s: string, needle: string) {
    exists k: nat | k <= |s| :: OccursAt(s, needle, k)
  }

  /** The needle stands somewhere in the text. */
  lemma ContainsExactly(s: string, needle: string)
    ensures Contains(s, needle) <==> exists a, b :: s == a + needle + b
  {
    if k: nat :| k <= |s| && OccursAt(s, needle, k) {
      assert s == s[..k] + needle + s[k + |needle|..];
    }
    if a, b :| s == a + needle + b {
      assert s[|a|..|a| + |needle|] == needle;
      assert OccursAt(s, needle, |a|);
    }
  }

  lemma Associates(a: string, b: string, c: string)
    ensures (a + b) + c == a + (b + c)
  {
  }
}
