/** Character and string helpers shared by the description cut and the search filter. */
module Text {

  /** ASCII upper-case letter. */
  predicate IsUpper(c: char) {
    'A' <= c <= 'Z'
  }

  /** ASCII lower-casing of one character; every other character is left alone. */
  function Lower(c: char): char {
    if IsUpper(c) then (c as int - 'A' as int + 'a' as int) as char else c
  }

  /** `String.prototype.toLowerCase`, restricted to ASCII letters. */
  function LowerString(s: string): (r: string)
    ensures |r| == |s|
    ensures forall i :: 0 <= i < |s| ==> r[i] == Lower(s[i])
    ensures forall i :: 0 <= i < |r| ==> !IsUpper(r[i])
  {
    seq(|s|, i requires 0 <= i < |s| => Lower(s[i]))
  }

  /** `needle` occurs in `hay` starting at index `i`. */
  predicate OccursAt(hay: string, needle: string, i: nat) {
    i + |needle| <= |hay| && hay[i..i + |needle|] == needle
  }

  /** `String.prototype.includes`: some index holds an occurrence of `needle`. */
  function Contains(hay: string, needle: string): (b: bool)
    ensures needle <= hay ==> b
    ensures b ==> |needle| <= |hay|
  {
    assert needle <= hay ==> OccursAt(hay, needle, 0);
    exists i: nat | i <= |hay| :: OccursAt(hay, needle, i)
  }
}
