/**
 * The two Python string operations the classifier relies on: `str.lower()`
 * (restricted to ASCII letters) and the substring test `needle in text`.
 */
module Text {

  predicate IsUpperAscii(c: char) {
    'A' <= c <= 'Z'
  }

  /** `c.lower()` for an ASCII letter; every other character is left as it is. */
  function LowerChar(c: char): (r: char)
    ensures !IsUpperAscii(r)
    ensures !IsUpperAscii(c) ==> r == c
    ensures IsUpperAscii(c) ==> 'a' <= r <= 'z' && r as int - c as int == 32
  {
    if IsUpperAscii(c) then (c as int + 32) as char else c
  }

  /** `s.lower()`: the string with every ASCII upper-case letter lowered. */
  function Lower(s: string): (r: string)
    ensures |r| == |s|
    ensures forall i :: 0 <= i < |s| ==> r[i] == LowerChar(s[i])
  {
    seq(|s|, i requires 0 <= i < |s| => LowerChar(s[i]))
  }

  /** A string that `str.lower()` leaves unchanged. */
  predicate IsLower(s: string) {
    forall i :: 0 <= i < |s| ==> !IsUpperAscii(s[i])
  }

  lemma LowerIsLower(s: string)
    ensures IsLower(Lower(s))
    ensures IsLower(s) <==> Lower(s) == s
  {
    if IsLower(s) {
      assert forall i :: 0 <= i < |s| ==> Lower(s)[i] == s[i];
    } else {
      var i :| 0 <= i < |s| && IsUpperAscii(s[i]);
      assert Lower(s)[i] != s[i];
    }
  }

  /** Lowering commutes with slicing. */
  lemma LowerSlice(s: string, i: nat, j: nat)
    requires i <= j <= |s|
    ensures Lower(s)[i..j] == Lower(s[i..j])
  {
    assert forall k :: 0 <= k < j - i ==> Lower(s)[i..j][k] == Lower(s[i..j])[k];
  }

  /** An occurrence of `pat` at position `i` of `text`. */
  predicate OccursAt(text: string, pat: string, i: int) {
    0 <= i && i + |pat| <= |text| && text[i..i + |pat|] == pat
  }

  /** Python's `pat in text` for strings: `pat` occurs in `text` as a contiguous block. */
  predicate Contains(text: string, pat: string)
    ensures Contains(text, pat) ==> |pat| <= |text|
    ensures pat == [] || pat == text ==> Contains(text, pat)
  {
    assert pat == [] || pat == text ==> OccursAt(text, pat, 0);
    exists i :: 0 <= i <= |text| && OccursAt(text, pat, i)
  }

  /** The block of `text` at position `i` equals `pat` once both are lowered. */
  predicate OccursIgnoringCaseAt(text: string, pat: string, i: int) {
    0 <= i && i + |pat| <= |text| && Lower(text[i..i + |pat|]) == Lower(pat)
  }

  /** Case-insensitive occurrence of `pat` somewhere in `text`. */
  ghost predicate ContainsIgnoringCase(text: string, pat: string) {
    exists i :: OccursIgnoringCaseAt(text, pat, i)
  }

  /**
   * Testing a lower-case pattern against the lowered text is a case-insensitive
   * search for it, in both directions.
   */
  lemma LowerContainsIgnoringCase(text: string, pat: string)
    requires IsLower(pat)
    ensures Contains(Lower(text), pat) <==> ContainsIgnoringCase(text, pat)
  {
    LowerIsLower(pat);
    if Contains(Lower(text), pat) {
      var i :| 0 <= i <= |Lower(text)| && OccursAt(Lower(text), pat, i);
      LowerSlice(text, i, i + |pat|);
      assert OccursIgnoringCaseAt(text, pat, i);
    }
    if ContainsIgnoringCase(text, pat) {
      var i :| OccursIgnoringCaseAt(text, pat, i);
      LowerSlice(text, i, i + |pat|);
      assert OccursAt(Lower(text), pat, i);
    }
  }

  /**
   * `pat` does not occur in `text` when two adjacent characters of `pat`
   * never appear side by side in `text`.
   */
  lemma NotContainsPair(text: string, pat: string, m: nat)
    requires m + 1 < |pat|
    requires forall q :: 0 <= q < |text| - 1 ==> !(text[q] == pat[m] && text[q + 1] == pat[m + 1])
    ensures !Contains(text, pat)
  {
    forall i | 0 <= i <= |text| && OccursAt(text, pat, i) ensures false {
      assert text[i + m] == pat[m] && text[i + m + 1] == pat[m + 1] by {
        assert text[i..i + |pat|][m] == text[i + m];
        assert text[i..i + |pat|][m + 1] == text[i + m + 1];
      }
    }
  }
}
