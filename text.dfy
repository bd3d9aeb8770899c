/**
 * The string tests the screens and view-models use: Kotlin's
 * `contains(other, ignoreCase = true)`, `isBlank()` and `isEmpty()`.
 *
 * Case folding is modelled on ASCII letters only: both strings are
 * lower-cased letter by letter before a plain substring test.
 */
module Text {

  function LowerChar(c: char): char
  {
    if 'A' <= c <= 'Z' then (c as int + 32) as char else c
  }

  /** The string with every ASCII upper-case letter lower-cased. */
  function Fold(s: string): (r: string)
  {
    seq(|s|, i requires 0 <= i < |s| => LowerChar(s[i]))
  }

  predicate OccursAt(q: string, s: string, i: nat)
  {
    i + |q| <= |s| && s[i..i + |q|] == q
  }

  /** `s.contains(q)`: some position of `s` starts a copy of `q`. */
  predicate IsSubstring(q: string, s: string)
  {
    exists i: nat :: i <= |s| && OccursAt(q, s, i)
  }

  /** `s.contains(q, ignoreCase = true)`. */
  predicate ContainsIgnoreCase(s: string, q: string)
  {
    IsSubstring(Fold(q), Fold(s))
  }

  /**
   * Kotlin's `Char.isWhitespace()`: Java's `Character.isWhitespace` (the
   * controls U+0009 to U+000D and U+001C to U+001F) or
   * `Character.isSpaceChar` (the Unicode space, line and paragraph
   * separators). The control NEXT LINE (U+0085) is in neither.
   */
  predicate IsWhitespace(c: char)
  {
    || c == ' ' || c == '\t' || c == '\n' || c == '\U{B}' || c == '\U{C}' || c == '\r'
    || ('\U{1C}' <= c <= '\U{1F}')
    || c == '\U{A0}' || c == '\U{1680}'
    || ('\U{2000}' <= c <= '\U{200A}')
    || c == '\U{2028}' || c == '\U{2029}' || c == '\U{202F}' || c == '\U{205F}' || c == '\U{3000}'
  }

  /** `s.isBlank()`: empty or only whitespace. */
  predicate IsBlank(s: string)
  {
    forall i :: 0 <= i < |s| ==> IsWhitespace(s[i])
  }

  /** Folding a slice is slicing the folded string. */
  lemma FoldSlice(s: string, i: nat, j: nat)
    requires i <= j <= |s|
    ensures Fold(s)[i..j] == Fold(s[i..j])
  {
  }

  /** The empty string is contained in every string, whatever the case. */
  lemma EmptyContained(s: string)
    ensures ContainsIgnoreCase(s, "")
  {
    assert Fold("") == "";
    assert OccursAt("", Fold(s), 0);
  }

  /** Every string contains itself, ignoring case. */
  lemma ContainsSelf(s: string)
    ensures ContainsIgnoreCase(s, s)
  {
    assert Fold(s)[0..|Fold(s)|] == Fold(s);
    assert OccursAt(Fold(s), Fold(s), 0);
  }

  /** A query with a character the text lacks cannot occur in it. */
  lemma MissingCharNotSubstring(q: string, s: string, c: char)
    requires c in q && c !in s
    ensures !IsSubstring(q, s)
  {
    var k :| 0 <= k < |q| && q[k] == c;
    forall i: nat | i <= |s|
      ensures !OccursAt(q, s, i)
    {
      if i + |q| <= |s| {
        assert s[i..i + |q|][k] == s[i + k];
      }
    }
  }

  /**
   * `ContainsIgnoreCase(s, q)` fails when the query has a lower-case letter
   * that occurs in `s` in neither case.
   */
  lemma MissingLetterNotContained(s: string, q: string, c: char, upper: char)
    requires 'a' <= c <= 'z' && upper as int == c as int - 32
    requires c in q && c !in s && upper !in s
    ensures !ContainsIgnoreCase(s, q)
  {
    var k :| 0 <= k < |q| && q[k] == c;
    assert Fold(q)[k] == c;
    forall j | 0 <= j < |s|
      ensures Fold(s)[j] != c
    {
      assert s[j] != c && s[j] != upper;
    }
    MissingCharNotSubstring(Fold(q), Fold(s), c);
  }

  /** `isBlank` is weaker than `isEmpty`: every empty string is blank, not every blank string is empty. */
  lemma BlankVersusEmpty()
    ensures IsBlank("")
    ensures IsBlank(" ") && " " != ""
    ensures !IsBlank("a")
    ensures !IsBlank("\U{85}")
  {
    assert IsWhitespace(" "[0]);
    assert !IsWhitespace("a"[0]);
    assert !IsWhitespace("\U{85}"[0]);
  }
}
