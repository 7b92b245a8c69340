/** String operations shared by the analytical engine: Python's `str.lower()`
    restricted to ASCII letters, the `in` substring test, and the code-point
    ordering Python uses to compare strings. */
module Strings {
  import Sorting

  /** Python's `str.isspace()`: the characters `str.strip()` removes and
      the regular expression `\s` matches in a `str` pattern. */
  predicate IsSpace(c: char) {
    || '\t' <= c <= '\r'                 // \t \n \x0b \x0c \r
    || '\U{1c}' <= c <= '\U{20}'          // \x1c .. \x1f and ' '
    || c == '\U{85}' || c == '\U{a0}' || c == '\U{1680}'
    || '\U{2000}' <= c <= '\U{200a}'
    || c == '\U{2028}' || c == '\U{2029}' || c == '\U{202f}'
    || c == '\U{205f}' || c == '\U{3000}'
  }

  /** `str.lower()` on one character; only `A`..`Z` are folded. */
  function LowerChar(c: char): (r: char)
    ensures 'A' <= c <= 'Z' ==> 'a' <= r <= 'z'
    ensures !('A' <= c <= 'Z') ==> r == c
  {
    if 'A' <= c <= 'Z' then (c as int + 32) as char else c
  }

  /** `s.lower()`: every character folded in place. */
  function Lower(s: string): (r: string)
    ensures |r| == |s|
    ensures forall i :: 0 <= i < |s| ==> r[i] == LowerChar(s[i])
  {
    seq(|s|, i requires 0 <= i < |s| => LowerChar(s[i]))
  }

  /** Lower-casing leaves no upper-case ASCII letter, so lower-casing the
      result again changes nothing. */
  lemma LowerIsIdempotent(s: string)
    ensures forall i :: 0 <= i < |s| ==> !('A' <= Lower(s)[i] <= 'Z')
    ensures Lower(Lower(s)) == Lower(s)
  {
  }

  /** `pat` occurs in `text` starting at index `i`. */
  predicate OccursAt(text: string, pat: string, i: int) {
    0 <= i && i + |pat| <= |text| && text[i..i + |pat|] == pat
  }

  /** `text.startswith(pat)`, compared character by character. */
  predicate StartsWith(text: string, pat: string) {
    pat == [] || (text != [] && text[0] == pat[0] && StartsWith(text[1..], pat[1..]))
  }

  lemma {:induction false} StartsWithIsPrefix(text: string, pat: string)
    ensures StartsWith(text, pat) <==> pat <= text
  {
    if pat != [] && text != [] {
      StartsWithIsPrefix(text[1..], pat[1..]);
      assert pat <= text <==> pat[0] == text[0] && pat[1..] <= text[1..];
    }
  }

  /** Python's `pat in text`: `pat` is a substring of `text`. */
  predicate Contains(text: string, pat: string) {
    StartsWith(text, pat) || (text != [] && Contains(text[1..], pat))
  }

  lemma {:induction false} ContainsIff(text: string, pat: string)
    ensures Contains(text, pat) <==> exists i :: OccursAt(text, pat, i)
  {
    StartsWithIsPrefix(text, pat);
    if pat <= text {
      assert OccursAt(text, pat, 0);
    } else if text == [] {
      forall i | OccursAt(text, pat, i) ensures false {
      }
    } else {
      ContainsIff(text[1..], pat);
      if Contains(text[1..], pat) {
        var i :| OccursAt(text[1..], pat, i);
        assert text[i + 1..i + 1 + |pat|] == text[1..][i..i + |pat|];
        assert OccursAt(text, pat, i + 1);
      }
      forall i | OccursAt(text, pat, i) ensures Contains(text[1..], pat) {
        if i > 0 {
          assert text[1..][i - 1..i - 1 + |pat|] == text[i..i + |pat|];
          assert OccursAt(text[1..], pat, i - 1);
        }
      }
    }
  }

  /** Python's `a < b` on `str`: lexicographic order of code points. */
  predicate StrLess(a: string, b: string) {
    if a == [] then b != []
    else if b == [] then false
    else a[0] < b[0] || (a[0] == b[0] && StrLess(a[1..], b[1..]))
  }

  lemma {:induction false} StrLessIrreflexive(a: string)
    ensures !StrLess(a, a)
  {
    if a != [] { StrLessIrreflexive(a[1..]); }
  }

  lemma {:induction false} StrLessTransitive(a: string, b: string, c: string)
    requires StrLess(a, b) && StrLess(b, c)
    ensures StrLess(a, c)
  {
    if a != [] && a[0] == b[0] && b[0] == c[0] {
      StrLessTransitive(a[1..], b[1..], c[1..]);
    }
  }

  lemma {:induction false} StrLessTotal(a: string, b: string)
    requires a != b
    ensures StrLess(a, b) || StrLess(b, a)
  {
    if a != [] && b != [] && a[0] == b[0] {
      assert a == [a[0]] + a[1..] && b == [b[0]] + b[1..];
      StrLessTotal(a[1..], b[1..]);
    }
  }

  /** Code-point order on strings is a strict total order, so `groupby`'s
      sorted keys are well defined. */
  lemma StrLessIsStrictTotalOrder()
    ensures Sorting.StrictTotalOrder(StrLess)
  {
    forall a: string ensures !StrLess(a, a) { StrLessIrreflexive(a); }
    forall a: string, b: string, c: string | StrLess(a, b) && StrLess(b, c)
      ensures StrLess(a, c)
    {
      StrLessTransitive(a, b, c);
    }
    forall a: string, b: string | a != b ensures StrLess(a, b) || StrLess(b, a) {
      StrLessTotal(a, b);
    }
  }
}
