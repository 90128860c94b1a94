/** The string predicates the beer listing relies on: Spring's
    `StringUtils.hasText` and the case-insensitive containment a derived
    `...ContainingIgnoreCase` query performs. Case mapping is ASCII only. */
module Text {

  import opened Values

  /** `Character.isWhitespace`: the ASCII controls TAB..CR and FS..US, and the
      Unicode space, line and paragraph separators other than the
      non-breaking spaces U+00A0, U+2007 and U+202F. */
  predicate IsWhitespace(c: char) {
    || ('\U{0009}' <= c <= '\U{000D}')
    || ('\U{001C}' <= c <= '\U{0020}')
    || c == '\U{1680}'
    || ('\U{2000}' <= c <= '\U{2006}')
    || ('\U{2008}' <= c <= '\U{200A}')
    || c == '\U{2028}' || c == '\U{2029}'
    || c == '\U{205F}' || c == '\U{3000}'
  }

  /** True when some character of `s` is not whitespace. */
  function HasNonWhitespace(s: string): (r: bool)
    ensures r <==> exists i :: 0 <= i < |s| && !IsWhitespace(s[i])
  {
    if |s| == 0 then false
    else if !IsWhitespace(s[0]) then true
    else
      assert forall i :: 1 <= i < |s| ==> s[i] == s[1..][i - 1];
      HasNonWhitespace(s[1..])
  }

  /** `StringUtils.hasText`: not null, and not empty or whitespace only. */
  function HasText(s: Option<string>): (r: bool)
    ensures r <==> s.Some? && exists i :: 0 <= i < |s.value| && !IsWhitespace(s.value[i])
    ensures r ==> |s.value| > 0
  {
    s.Some? && HasNonWhitespace(s.value)
  }

  /** ASCII lower-casing of one character. */
  function LowerChar(c: char): char {
    if 'A' <= c <= 'Z' then (c as int + 32) as char else c
  }

  /** ASCII lower-casing of a string, character by character. */
  function ToLower(s: string): (r: string)
    ensures |r| == |s|
    ensures forall i :: 0 <= i < |s| ==> r[i] == LowerChar(s[i])
  {
    seq(|s|, i requires 0 <= i < |s| => LowerChar(s[i]))
  }

  /** Lower-casing is idempotent, so a filter that is already lower case is
      matched exactly as its upper-case spelling is. */
  lemma ToLowerIdempotent(s: string)
    ensures ToLower(ToLower(s)) == ToLower(s)
  {
  }

  /** `needle` occurs in `hay` starting at position `i`. */
  predicate OccursAt(hay: string, needle: string, i: int) {
    0 <= i && i + |needle| <= |hay| && hay[i..i + |needle|] == needle
  }

  /** An occurrence in the tail of `hay` is an occurrence in `hay`, one place on. */
  lemma OccursInTail(hay: string, needle: string, i: int)
    requires |hay| > 0 && 0 <= i
    ensures OccursAt(hay[1..], needle, i) <==> OccursAt(hay, needle, i + 1)
  {
    if 0 <= i && i + |needle| <= |hay| - 1 {
      assert hay[1..][i..i + |needle|] == hay[i + 1..i + 1 + |needle|];
    }
  }

  /** Substring containment, checked one starting position at a time (SQL
      `LIKE '%needle%'`, with the wildcards of `needle` escaped as Spring Data
      escapes them). */
  function Contains(hay: string, needle: string): (r: bool)
    ensures r <==> exists i :: OccursAt(hay, needle, i)
    decreases |hay|
  {
    if |needle| <= |hay| && hay[..|needle|] == needle then
      assert OccursAt(hay, needle, 0);
      true
    else if |hay| == 0 then
      assert forall i :: !OccursAt(hay, needle, i);
      false
    else
      var rest := Contains(hay[1..], needle);
      assert rest ==> exists i :: OccursAt(hay, needle, i) by {
        if rest {
          var j :| OccursAt(hay[1..], needle, j);
          OccursInTail(hay, needle, j);
        }
      }
      assert (exists i :: OccursAt(hay, needle, i)) ==> rest by {
        if i :| OccursAt(hay, needle, i) {
          assert i != 0;
          OccursInTail(hay, needle, i - 1);
        }
      }
      rest
  }

  /** Case-insensitive containment: both sides lower-cased, then compared. */
  predicate ContainsIgnoreCase(hay: string, needle: string) {
    Contains(ToLower(hay), ToLower(needle))
  }

  /** The match does not depend on the case in which the filter is spelled. */
  lemma ContainsIgnoreCaseOfLowered(hay: string, needle: string)
    ensures ContainsIgnoreCase(hay, ToLower(needle)) == ContainsIgnoreCase(hay, needle)
  {
    ToLowerIdempotent(needle);
  }

  /** "ipa" finds a beer named "IPA Supreme": matching ignores case. */
  lemma LowerFilterMatchesUpperName()
    ensures ContainsIgnoreCase("IPA Supreme", "ipa")
  {
    assert OccursAt(ToLower("IPA Supreme"), ToLower("ipa"), 0);
  }

  /** The empty filter matches every text. */
  lemma EmptyFilterMatchesAll(hay: string)
    ensures ContainsIgnoreCase(hay, "")
  {
    assert OccursAt(ToLower(hay), ToLower(""), 0);
  }
}
