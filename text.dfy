/** Case folding and substring search on strings, as the query handlers use them. */
module Text {

  /** ASCII lower-casing of one character; every other character is left as it is. */
  function LowerChar(c: char): char
  {
    if 'A' <= c <= 'Z' then (c as int + 32) as char else c
  }

  /** `s.toLowerCase()`, restricted to ASCII letters. */
  function Lower(s: string): string
  {
    seq(|s|, i requires 0 <= i < |s| => LowerChar(s[i]))
  }

  /** Case-insensitive equality: both sides lower-cased, then compared. */
  predicate EqualsIgnoringCase(a: string, b: string)
  {
    Lower(a) == Lower(b)
  }

  predicate IsPrefix(p: string, s: string)
  {
    |p| <= |s| && s[..|p|] == p
  }

  /** The needle occurs in the haystack starting at offset `k`. */
  predicate OccursAt(hay: string, needle: string, k: int)
  {
    0 <= k && k + |needle| <= |hay| && hay[k..k + |needle|] == needle
  }

  /** `hay.includes(needle)`: the needle starts at some position of the haystack. */
  predicate Contains(hay: string, needle: string)
    decreases |hay|
  {
    IsPrefix(needle, hay) || (|hay| > 0 && Contains(hay[1..], needle))
  }

  /** Case-insensitive substring test: both sides lower-cased, then searched. */
  predicate ContainsIgnoringCase(hay: string, needle: string)
  {
    Contains(Lower(hay), Lower(needle))
  }

  /** The search finds the needle exactly when it occurs at some offset. */
  lemma {:induction false} ContainsAt(hay: string, needle: string)
    ensures Contains(hay, needle) <==> exists k :: OccursAt(hay, needle, k)
    decreases |hay|
  {
    if IsPrefix(needle, hay) {
      assert OccursAt(hay, needle, 0);
    }
    if OccursAt(hay, needle, 0) {
      assert IsPrefix(needle, hay);
    }
    if |hay| > 0 {
      ContainsAt(hay[1..], needle);
      forall k | OccursAt(hay[1..], needle, k)
        ensures OccursAt(hay, needle, k + 1)
      {
        assert hay[1..][k..k + |needle|] == hay[k + 1..k + 1 + |needle|];
      }
      forall k | 0 < k && OccursAt(hay, needle, k)
        ensures OccursAt(hay[1..], needle, k - 1)
      {
        assert hay[1..][k - 1..k - 1 + |needle|] == hay[k..k + |needle|];
      }
    }
  }

  /** Case-insensitive equality implies the case-insensitive substring test. */
  lemma EqualImpliesContains(a: string, b: string)
    requires EqualsIgnoringCase(a, b)
    ensures ContainsIgnoringCase(a, b)
  {
    var la, lb := Lower(a), Lower(b);
    assert la[..|lb|] == lb;
    assert IsPrefix(lb, la);
  }
}
