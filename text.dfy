/**
 * String helpers the availability checker relies on: ASCII lower-casing
 * (Python's `str.lower`) and substring containment (Python's `a in b`).
 */
module Text {

  /** Lower-case one character; only ASCII letters change. */
  function LowerChar(c: char): char {
    if 'A' <= c <= 'Z' then (c as int + 32) as char else c
  }

  /** Lower-case a whole string, character by character. */
  function Lower(s: string): (r: string)
    ensures |r| == |s|
  {
    if s == [] then [] else [LowerChar(s[0])] + Lower(s[1..])
  }

  /** `pat` starts at position `i` of `text`. */
  predicate OccursAt(text: string, pat: string, i: int) {
    0 <= i <= |text| - |pat| && text[i..i + |pat|] == pat
  }

  /** Python's `pat in text` on strings: some window of `text` spells `pat`. */
  predicate Occurs(text: string, pat: string) {
    exists i :: 0 <= i <= |text| - |pat| && OccursAt(text, pat, i)
  }

  /** Every character of a lower-cased string is its own character, lower-cased. */
  lemma {:induction false} LowerAt(s: string, i: nat)
    requires i < |s|
    ensures Lower(s)[i] == LowerChar(s[i])
    decreases i
  {
    if i > 0 {
      LowerAt(s[1..], i - 1);
    }
  }

  /** Lower-casing commutes with taking a slice. */
  lemma {:induction false} LowerSlice(s: string, a: int, b: int)
    requires 0 <= a <= b <= |s|
    ensures Lower(s[a..b]) == Lower(s)[a..b]
  {
    var l, w := Lower(s), Lower(s[a..b]);
    forall i | 0 <= i < b - a
      ensures w[i] == l[a..b][i]
    {
      LowerAt(s[a..b], i);
      LowerAt(s, a + i);
    }
  }

  /**
   * Containment is case-insensitive after lower-casing both sides: whatever
   * occurs in `text` occurs, lower-cased, in the lower-cased text.
   */
  lemma {:induction false} OccursLowered(text: string, pat: string)
    requires Occurs(text, pat)
    ensures Occurs(Lower(text), Lower(pat))
  {
    var i :| 0 <= i <= |text| - |pat| && OccursAt(text, pat, i);
    LowerSlice(text, i, i + |pat|);
    assert OccursAt(Lower(text), Lower(pat), i);
  }

  /** A string occurs at the front of any string it starts. */
  lemma OccursAtFront(pat: string, rest: string)
    ensures Occurs(pat + rest, pat)
  {
    assert OccursAt(pat + rest, pat, 0);
  }

  /** What occurs in a string still occurs after something is put in front of it. */
  lemma OccursBehind(front: string, text: string, pat: string)
    requires Occurs(text, pat)
    ensures Occurs(front + text, pat)
  {
    var i :| 0 <= i <= |text| - |pat| && OccursAt(text, pat, i);
    assert (front + text)[|front| + i..|front| + i + |pat|] == text[i..i + |pat|];
    assert OccursAt(front + text, pat, |front| + i);
  }
}
