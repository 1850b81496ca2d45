/**
 * ASCII text helpers standing in for JavaScript's `String.prototype.toLowerCase`
 * and `String.prototype.includes`. Project identifiers are ASCII, so lower-casing
 * is modelled on the 26 ASCII capitals only.
 */
module Ascii {

  predicate IsUpper(c: char) {
    'A' <= c <= 'Z'
  }

  /** The lower-case form of one character: ASCII capitals move down by 32. */
  function LowerChar(c: char): (r: char)
    ensures !IsUpper(r)
    ensures IsUpper(c) ==> 'a' <= r <= 'z' && r as int - 'a' as int == c as int - 'A' as int
    ensures !IsUpper(c) ==> r == c
  {
    if IsUpper(c) then (c as int + ('a' as int - 'A' as int)) as char else c
  }

  /** `toLowerCase` on ASCII: every character lower-cased in place. */
  function ToLower(s: string): (r: string)
    ensures |r| == |s|
    ensures forall i :: 0 <= i < |s| ==> r[i] == LowerChar(s[i])
  {
    seq(|s|, i requires 0 <= i < |s| => LowerChar(s[i]))
  }

  /** Lower-casing twice is lower-casing once. */
  lemma ToLowerIdempotent(s: string)
    ensures ToLower(ToLower(s)) == ToLower(s)
  {
    var once := ToLower(s);
    var twice := ToLower(once);
    assert forall i :: 0 <= i < |s| ==> twice[i] == once[i] by {
      forall i | 0 <= i < |s|
        ensures twice[i] == once[i]
      {
        assert !IsUpper(once[i]);
      }
    }
  }

  /** Two strings that differ at most in the ASCII case of their letters. */
  predicate SameIgnoringCase(a: string, b: string) {
    |a| == |b| && forall i :: 0 <= i < |a| ==> LowerChar(a[i]) == LowerChar(b[i])
  }

  /** Strings equal up to letter case have the same lower-cased form, and conversely. */
  lemma SameIgnoringCaseIffSameLower(a: string, b: string)
    ensures SameIgnoringCase(a, b) <==> ToLower(a) == ToLower(b)
  {
    if ToLower(a) == ToLower(b) {
      assert |a| == |ToLower(a)|;
      forall i | 0 <= i < |a|
        ensures LowerChar(a[i]) == LowerChar(b[i])
      {
        assert ToLower(a)[i] == ToLower(b)[i];
      }
    }
  }

  /** `needle` occurs in `hay` starting at position `i`. */
  ghost predicate OccursAt(hay: string, needle: string, i: int) {
    0 <= i && i + |needle| <= |hay| && hay[i..i + |needle|] == needle
  }

  /** `needle` is a prefix of `hay`. */
  predicate StartsWith(hay: string, needle: string) {
    |needle| <= |hay| && hay[..|needle|] == needle
  }

  /**
   * `hay.includes(needle)`: the needle occurs at some position of the hay.
   * The empty needle occurs everywhere, as in JavaScript.
   */
  function Includes(hay: string, needle: string): (r: bool)
    ensures r <==> exists i :: OccursAt(hay, needle, i)
    decreases |hay|
  {
    if |needle| > |hay| then
      false
    else if StartsWith(hay, needle) then
      assert OccursAt(hay, needle, 0);
      true
    else
      var rest := Includes(hay[1..], needle);
      assert forall i :: OccursAt(hay[1..], needle, i) ==> OccursAt(hay, needle, i + 1) by {
        forall i | OccursAt(hay[1..], needle, i)
          ensures OccursAt(hay, needle, i + 1)
        {
          assert hay[1..][i..i + |needle|] == hay[i + 1..i + 1 + |needle|];
        }
      }
      assert forall i :: OccursAt(hay, needle, i) ==> i >= 1 && OccursAt(hay[1..], needle, i - 1) by {
        forall i | OccursAt(hay, needle, i)
          ensures i >= 1 && OccursAt(hay[1..], needle, i - 1)
        {
          if i == 0 {
            assert false;
          }
          assert hay[1..][i - 1..i - 1 + |needle|] == hay[i..i + |needle|];
        }
      }
      rest
  }

  /** A needle holding a character that the hay lacks is not included. */
  lemma NotIncludedByLetter(hay: string, needle: string, c: char)
    requires c in needle && c !in hay
    ensures !Includes(hay, needle)
  {
  }

  /** Case-insensitive inclusion: `hay.toLowerCase().includes(needle.toLowerCase())`. */
  predicate IncludesIgnoringCase(hay: string, needle: string) {
    Includes(ToLower(hay), ToLower(needle))
  }
}
