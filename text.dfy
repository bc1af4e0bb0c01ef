/** The string primitives the item catalog relies on: blankness as
    `StringUtils.isBlank` and `String.isBlank` decide it, lower-casing,
    and the case-insensitive substring test of `StringUtils.containsIgnoreCase`. */
module Text {
  import opened Common

  /** `java.lang.Character.isWhitespace`: the ASCII controls TAB..CR and
      FS..US, and every Unicode space, line or paragraph separator except the
      non-breaking ones (U+00A0, U+2007, U+202F). */
  predicate IsWhitespace(c: char) {
    || ('\t' <= c <= '\r')
    || ('\U{1C}' <= c <= '\U{1F}')
    || c == ' '
    || c == '\U{1680}'
    || ('\U{2000}' <= c <= '\U{2006}')
    || ('\U{2008}' <= c <= '\U{200A}')
    || c == '\U{2028}' || c == '\U{2029}'
    || c == '\U{205F}' || c == '\U{3000}'
  }

  /** Blank: null, empty, or made of whitespace only. */
  predicate IsBlank(s: Option<string>) {
    s.None? || forall i :: 0 <= i < |s.value| ==> IsWhitespace(s.value[i])
  }

  /** Lower-cases one character (ASCII letters only; see README). */
  function ToLower(c: char): (r: char)
    ensures 'A' <= c <= 'Z' ==> 'a' <= r <= 'z' && r as int - c as int == 32
    ensures !('A' <= c <= 'Z') ==> r == c
  {
    if 'A' <= c <= 'Z' then (c as int + 32) as char else c
  }

  /** `String.toLowerCase`, character by character: no upper-case letter
      is left, and each character keeps its case-insensitive identity. */
  function Lower(s: string): (r: string)
    ensures |r| == |s|
    ensures forall i :: 0 <= i < |r| ==> !('A' <= r[i] <= 'Z') && SameIgnoringCase(r[i], s[i])
  {
    seq(|s|, i requires 0 <= i < |s| => ToLower(s[i]))
  }

  /** Lower-casing twice is lower-casing once. */
  lemma LowerIdempotent(s: string)
    ensures Lower(Lower(s)) == Lower(s)
  {
    forall i | 0 <= i < |s| ensures Lower(Lower(s))[i] == Lower(s)[i] {
      ToLowerIdempotent(s[i]);
    }
  }

  /** Two characters are equal once case is ignored. */
  predicate SameIgnoringCase(a: char, b: char) {
    ToLower(a) == ToLower(b)
  }

  /** `t` occurs in `s` at offset `i`, ignoring case. */
  predicate MatchesAt(s: string, t: string, i: int)
    requires 0 <= i <= |s| - |t|
  {
    forall k :: 0 <= k < |t| ==> SameIgnoringCase(s[i + k], t[k])
  }

  /** `StringUtils.containsIgnoreCase(s, t)`: false when `s` is null,
      otherwise whether `t` occurs somewhere in `s`, ignoring case. */
  predicate ContainsIgnoreCase(s: Option<string>, t: string) {
    s.Some? && exists i :: 0 <= i <= |s.value| - |t| && MatchesAt(s.value, t, i)
  }

  /** Lower-casing a character keeps its case-insensitive identity. */
  lemma ToLowerIdempotent(c: char)
    ensures ToLower(ToLower(c)) == ToLower(c)
    ensures SameIgnoringCase(ToLower(c), c)
  {
  }

  /** Lower-casing the searched text does not change what it matches. */
  lemma ContainsLowerIff(s: Option<string>, t: string)
    ensures ContainsIgnoreCase(s, Lower(t)) <==> ContainsIgnoreCase(s, t)
  {
    if s.Some? {
      var lt := Lower(t);
      forall i | 0 <= i <= |s.value| - |t|
        ensures MatchesAt(s.value, lt, i) <==> MatchesAt(s.value, t, i)
      {
        forall k | 0 <= k < |t|
          ensures SameIgnoringCase(s.value[i + k], lt[k]) <==> SameIgnoringCase(s.value[i + k], t[k])
        {
          ToLowerIdempotent(t[k]);
        }
      }
      if ContainsIgnoreCase(s, t) {
        var i :| 0 <= i <= |s.value| - |t| && MatchesAt(s.value, t, i);
        assert MatchesAt(s.value, lt, i);
      }
      if ContainsIgnoreCase(s, lt) {
        var i :| 0 <= i <= |s.value| - |lt| && MatchesAt(s.value, lt, i);
        assert MatchesAt(s.value, t, i);
      }
    }
  }

  /** Lower-casing keeps a blank text blank and a non-blank text non-blank. */
  lemma BlankLowerIff(t: string)
    ensures IsBlank(Some(Lower(t))) <==> IsBlank(Some(t))
  {
    if !IsBlank(Some(t)) {
      var i :| 0 <= i < |t| && !IsWhitespace(t[i]);
      assert !IsWhitespace(Lower(t)[i]);
    }
  }
}
