/**
 * The string operations the search boxes rely on: JavaScript's
 * `toLowerCase` (restricted to ASCII, which is all the catalog holds) and
 * `String.prototype.includes`.
 */
module Text {

  /** ASCII lower-casing of one character; every other character is kept. */
  function Lower(c: char): (r: char)
    ensures 'A' <= c <= 'Z' ==> r as int == c as int + 32 && 'a' <= r <= 'z'
    ensures !('A' <= c <= 'Z') ==> r == c
    ensures !('A' <= r <= 'Z')
  {
    if 'A' <= c <= 'Z' then (c as int - 'A' as int + 'a' as int) as char else c
  }

  /** `s.toLowerCase()` over ASCII. */
  function LowerStr(s: string): (r: string)
    ensures |r| == |s|
    ensures forall i :: 0 <= i < |s| ==> r[i] == Lower(s[i])
  {
    seq(|s|, i requires 0 <= i < |s| => Lower(s[i]))
  }

  /** Lower-casing twice is lower-casing once. */
  lemma LowerStrIdempotent(s: string)
    ensures LowerStr(LowerStr(s)) == LowerStr(s)
  {
  }

  /** `pat` occurs in `text` starting at position `i`. */
  predicate OccursAt(text: string, pat: string, i: int)
  {
    0 <= i && i + |pat| <= |text| && text[i..i + |pat|] == pat
  }

  /** `text.includes(pat)`: is `pat` a contiguous piece of `text`? */
  function Includes(text: string, pat: string): (b: bool)
    ensures b <==> exists i :: OccursAt(text, pat, i)
    decreases |text|
  {
    if |pat| <= |text| && text[..|pat|] == pat then
      assert OccursAt(text, pat, 0);
      true
    else if |text| <= |pat| then
      assert forall i :: !OccursAt(text, pat, i);
      false
    else
      var b := Includes(text[1..], pat);
      assert b ==> exists i :: OccursAt(text, pat, i) by {
        if b {
          var j :| OccursAt(text[1..], pat, j);
          assert text[1..][j..j + |pat|] == text[j + 1..j + 1 + |pat|];
          assert OccursAt(text, pat, j + 1);
        }
      }
      assert (exists i :: OccursAt(text, pat, i)) ==> b by {
        forall i | OccursAt(text, pat, i) ensures b {
          assert i != 0;
          assert text[1..][i - 1..i - 1 + |pat|] == text[i..i + |pat|];
          assert OccursAt(text[1..], pat, i - 1);
        }
      }
      b
  }

  /** The empty string occurs in every string, as `"abc".includes("")` is true. */
  lemma IncludesEmpty(text: string)
    ensures Includes(text, "")
  {
    assert OccursAt(text, "", 0);
  }

  /** Every string contains itself. */
  lemma IncludesSelf(text: string)
    ensures Includes(text, text)
  {
    assert OccursAt(text, text, 0);
  }

  /** `text.toLowerCase().includes(query.toLowerCase())`. */
  predicate ContainsIgnoreCase(text: string, query: string)
  {
    Includes(LowerStr(text), LowerStr(query))
  }
}
