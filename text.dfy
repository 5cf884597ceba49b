/** Substring search on strings, as the browser's `String.prototype.includes`
    performs it. */
module Text {

  /** `s` begins with `prefix`. */
  predicate StartsWith(s: string, prefix: string) {
    |prefix| <= |s| && s[..|prefix|] == prefix
  }

  /** `needle` occurs in `s` starting at index `i`. */
  predicate OccursAt(s: string, needle: string, i: int) {
    0 <= i && i + |needle| <= |s| && s[i..i + |needle|] == needle
  }

  /** `s.includes(needle)`: the needle starts at the front of `s` or somewhere
      further on. The empty needle is included in every string, and a needle
      longer than the string never is. */
  function Includes(s: string, needle: string): (b: bool)
    ensures StartsWith(s, needle) ==> b
    ensures b ==> |needle| <= |s|
    decreases |s|
  {
    StartsWith(s, needle) || (|s| > 0 && Includes(s[1..], needle))
  }

  /** The search finds the needle exactly when there is an index where it occurs. */
  lemma {:induction false} IncludesIffOccurs(s: string, needle: string)
    ensures Includes(s, needle) <==> exists i :: OccursAt(s, needle, i)
    decreases |s|
  {
    if StartsWith(s, needle) {
      assert OccursAt(s, needle, 0);
    } else if |s| > 0 {
      IncludesIffOccurs(s[1..], needle);
      if Includes(s[1..], needle) {
        var i :| OccursAt(s[1..], needle, i);
        assert s[i + 1..i + 1 + |needle|] == s[1..][i..i + |needle|];
        assert OccursAt(s, needle, i + 1);
      }
      if i :| OccursAt(s, needle, i) {
        assert i != 0;
        assert s[1..][i - 1..i - 1 + |needle|] == s[i..i + |needle|];
        assert OccursAt(s[1..], needle, i - 1);
      }
    }
  }

  /** One occurrence found at a known index is enough for `includes`. */
  lemma IncludesAt(s: string, needle: string, i: int)
    requires OccursAt(s, needle, i)
    ensures Includes(s, needle)
  {
    IncludesIffOccurs(s, needle);
  }

  /** A string that includes a needle still includes it after text is added on
      either side: `includes` is insensitive to context. */
  lemma IncludesInContext(prefix: string, s: string, suffix: string, needle: string)
    requires Includes(s, needle)
    ensures Includes(prefix + s + suffix, needle)
  {
    IncludesIffOccurs(s, needle);
    var i :| OccursAt(s, needle, i);
    var t := prefix + s + suffix;
    assert t[|prefix| + i..|prefix| + i + |needle|] == s[i..i + |needle|];
    IncludesAt(t, needle, |prefix| + i);
  }

  /** A needle whose first character never appears in `s` is not included. */
  lemma {:induction false} NotIncludesMissingFirst(s: string, needle: string)
    requires |needle| > 0 && needle[0] !in s
    ensures !Includes(s, needle)
    decreases |s|
  {
    if |s| > 0 {
      assert s[0] in s;
      NotIncludesMissingFirst(s[1..], needle);
    }
  }
}
