/** JavaScript's `String.prototype.includes`, the matching used by the scoring rules. */
module Text {

  /** `p` sits in `s` at offset `i`. */
  predicate OccursAt(s: string, p: string, i: int)
  {
    0 <= i && i + |p| <= |s| && s[i..i + |p|] == p
  }

  /** `s.includes(p)`: `p` occurs in `s` at some offset. */
  predicate Contains(s: string, p: string): (found: bool)
    ensures found ==> |p| <= |s|
  {
    exists i | 0 <= i <= |s| - |p| :: OccursAt(s, p, i)
  }

  /** A string that includes `p + q` includes `p`. */
  lemma PrefixContained(s: string, p: string, q: string)
    ensures Contains(s, p + q) ==> Contains(s, p)
  {
    if Contains(s, p + q) {
      var i :| 0 <= i <= |s| - |p + q| && OccursAt(s, p + q, i);
      assert s[i..i + |p|] == (p + q)[..|p|];
      assert OccursAt(s, p, i);
    }
  }

  /** Every string includes itself followed by anything, in particular its own prefixes. */
  lemma PrefixIsContained(p: string, rest: string)
    ensures Contains(p + rest, p)
  {
    assert (p + rest)[0..|p|] == p;
    assert OccursAt(p + rest, p, 0);
  }

  /** Every character of `s` is drawn from `alphabet`. */
  predicate SpelledWith(s: string, alphabet: set<char>)
  {
    forall k :: 0 <= k < |s| ==> s[k] in alphabet
  }

  /** A pattern holding a character outside the alphabet `s` is spelled with never occurs in `s`. */
  lemma AbsentCharExcludes(s: string, alphabet: set<char>, p: string, j: nat)
    requires SpelledWith(s, alphabet) && j < |p| && p[j] !in alphabet
    ensures !Contains(s, p)
  {
  }
}
