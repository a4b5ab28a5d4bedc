/** The string tests the components share: `str::trim().is_empty()` and `str::contains`. */
module Text {

  /** The Unicode White_Space characters, which `str::trim` removes. */
  predicate IsWhitespace(c: char) {
    || '\t' <= c <= '\r'
    || c in {' ', '\U{0085}', '\U{00A0}', '\U{1680}', '\U{2028}', '\U{2029}', '\U{202F}', '\U{205F}', '\U{3000}'}
    || '\U{2000}' <= c <= '\U{200A}'
  }

  /** True iff trimming `s` leaves nothing. */
  predicate Blank(s: string) {
    forall i | 0 <= i < |s| :: IsWhitespace(s[i])
  }

  predicate OccursAt(haystack: string, needle: string, i: nat)
    requires i + |needle| <= |haystack|
  {
    haystack[i..i + |needle|] == needle
  }

  predicate Contains(haystack: string, needle: string) {
    exists i: nat :: i <= |haystack| - |needle| && OccursAt(haystack, needle, i)
  }

  /** Appending a separator that `needle` lacks, and more text after it, creates no occurrence across the seam. */
  lemma ContainsAcrossSeam(left: string, c: char, right: string, needle: string)
    requires c !in needle
    ensures Contains(left + [c] + right, needle) <==> Contains(left, needle) || Contains(right, needle)
  {
    var whole := left + [c] + right;
    if Contains(left, needle) {
      var i: nat :| i <= |left| - |needle| && OccursAt(left, needle, i);
      assert whole[i..i + |needle|] == left[i..i + |needle|];
      assert OccursAt(whole, needle, i);
    }
    if Contains(right, needle) {
      var i: nat :| i <= |right| - |needle| && OccursAt(right, needle, i);
      var at := |left| + 1 + i;
      assert whole[at..at + |needle|] == right[i..i + |needle|];
      assert OccursAt(whole, needle, at);
    }
    if Contains(whole, needle) {
      var i: nat :| i <= |whole| - |needle| && OccursAt(whole, needle, i);
      if i + |needle| <= |left| {
        assert whole[i..i + |needle|] == left[i..i + |needle|];
        assert OccursAt(left, needle, i);
      } else if i > |left| {
        var at := i - |left| - 1;
        assert whole[i..i + |needle|] == right[at..at + |needle|];
        assert OccursAt(right, needle, at);
      } else {
        assert needle[|left| - i] in needle;
      }
    }
  }
}
