/**
 * `getMainDescription` (pages/index.tsx): a video's description is cut at the first
 * marker, where a marker is the literal `Subscribe`, the literal `Guest Speakers`, or a
 * word-bounded timestamp `dd:dd`. Splitting on the pattern and keeping element 0 yields
 * the text before the leftmost position at which the pattern matches; an empty cut falls
 * back to the whole description.
 */
module Description {
  import opened Text

  const SUBSCRIBE := "Subscribe"
  const GUEST_SPEAKERS := "Guest Speakers"

  /** The pattern class `\d` (no Unicode flag): ASCII decimal digits. */
  predicate IsDigit(c: char) {
    '0' <= c <= '9'
  }

  /** The word characters that `\b` looks at: `[A-Za-z0-9_]`. */
  predicate IsWordChar(c: char) {
    'a' <= c <= 'z' || 'A' <= c <= 'Z' || IsDigit(c) || c == '_'
  }

  /** Whether the character at `i` is a word character; outside the string it is not. */
  predicate WordCharAt(s: string, i: int) {
    0 <= i < |s| && IsWordChar(s[i])
  }

  /** `\b` at position `i`: exactly one of the neighbouring characters is a word character. */
  predicate WordBoundary(s: string, i: int) {
    WordCharAt(s, i - 1) != WordCharAt(s, i)
  }

  /** `\b\d{2}:\d{2}\b` matches at `i`. */
  function TimestampAt(s: string, i: nat): (b: bool)
    ensures b ==> i + 5 <= |s|
    ensures b ==> !OccursAt(s, SUBSCRIBE, i) && !OccursAt(s, GUEST_SPEAKERS, i)
  {
    assert i + |SUBSCRIBE| <= |s| ==> s[i..i + |SUBSCRIBE|][0] == s[i];
    assert i + |GUEST_SPEAKERS| <= |s| ==> s[i..i + |GUEST_SPEAKERS|][0] == s[i];
    && i + 5 <= |s|
    && WordBoundary(s, i)
    && IsDigit(s[i]) && IsDigit(s[i + 1])
    && s[i + 2] == ':'
    && IsDigit(s[i + 3]) && IsDigit(s[i + 4])
    && WordBoundary(s, i + 5)
  }

  /** One of the three alternatives of the cut pattern matches at `i`. */
  function MarkerAt(s: string, i: nat): (b: bool)
    ensures b ==> i < |s|
    ensures b ==> s[i] == 'S' || s[i] == 'G' || IsDigit(s[i])
  {
    assert i + |SUBSCRIBE| <= |s| ==> s[i..i + |SUBSCRIBE|][0] == s[i];
    assert i + |GUEST_SPEAKERS| <= |s| ==> s[i..i + |GUEST_SPEAKERS|][0] == s[i];
    OccursAt(s, SUBSCRIBE, i) || OccursAt(s, GUEST_SPEAKERS, i) || TimestampAt(s, i)
  }

  /** No marker starts anywhere in `s`. */
  predicate NoMarker(s: string) {
    forall j: nat :: j < |s| ==> !MarkerAt(s, j)
  }

  /**
   * The leftmost index at or after `i` where a marker starts, or `|s|` when there is none
   * (every marker is at least one character long, so none starts at `|s|`).
   */
  function FirstMarkerFrom(s: string, i: nat): (k: nat)
    requires i <= |s|
    ensures i <= k <= |s|
    ensures k < |s| ==> MarkerAt(s, k)
    ensures forall j: nat :: i <= j < k ==> !MarkerAt(s, j)
    decreases |s| - i
  {
    if i == |s| || MarkerAt(s, i) then i else FirstMarkerFrom(s, i + 1)
  }

  /** Element 0 of the split: the text before the leftmost marker. */
  function SplitHead(s: string): (r: string)
    ensures r <= s
    ensures |r| < |s| ==> MarkerAt(s, |r|)
    ensures forall j: nat :: j < |r| ==> !MarkerAt(s, j)
  {
    s[..FirstMarkerFrom(s, 0)]
  }

  /**
   * `getMainDescription`: the text before the leftmost marker, unless that text is empty,
   * in which case the description is kept whole.
   */
  function MainDescription(fullDescription: string): (r: string)
    ensures r <= fullDescription
    ensures r == fullDescription <==> NoMarker(fullDescription) || MarkerAt(fullDescription, 0)
    ensures r != fullDescription ==>
              0 < |r| && MarkerAt(fullDescription, |r|) &&
              forall j: nat :: j < |r| ==> !MarkerAt(fullDescription, j)
  {
    var result := SplitHead(fullDescription);
    if result == "" then fullDescription else result
  }

  /** Any index that starts a marker with no marker before it is the cut point. */
  lemma SplitHeadIsLeftmost(s: string, k: nat)
    requires k < |s| && MarkerAt(s, k)
    requires forall j: nat :: j < k ==> !MarkerAt(s, j)
    ensures SplitHead(s) == s[..k]
  {
  }

  /** A description without markers is kept unchanged. */
  lemma NoMarkerKeepsDescription(s: string)
    requires NoMarker(s)
    ensures MainDescription(s) == s
  {
  }

  /** A description that starts with a marker is kept unchanged. */
  lemma LeadingMarkerKeepsDescription(s: string)
    requires |s| > 0 && MarkerAt(s, 0)
    ensures MainDescription(s) == s
  {
  }

  /** The worked example: the description is cut just before the timestamp. */
  lemma TimestampExample()
    ensures MainDescription("Intro text 12:34 more stuff") == "Intro text "
  {
    var s := "Intro text 12:34 more stuff";
    assert TimestampAt(s, 11);
    forall j: nat | j < 11
      ensures !MarkerAt(s, j)
    {
      assert s[j] != 'S' && s[j] != 'G' && !IsDigit(s[j]);
      if j + |SUBSCRIBE| <= |s| {
        assert s[j..j + |SUBSCRIBE|][0] == s[j];
      }
      if j + |GUEST_SPEAKERS| <= |s| {
        assert s[j..j + |GUEST_SPEAKERS|][0] == s[j];
      }
    }
    SplitHeadIsLeftmost(s, 11);
  }
}
