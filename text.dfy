/** Character-level string operations that the Rust standard library gives
    `&str` and that the core relies on: finding the first occurrence of a
    character, and substring containment (`str::contains`). Strings are
    sequences of characters. */
module Text {

  /** Index of the first occurrence of `c` in `s`, or `|s|` when `c` does not occur. */
  function IndexOf(s: string, c: char): (i: nat)
    ensures i <= |s|
    ensures i < |s| ==> s[i] == c
    ensures forall j :: 0 <= j < i ==> s[j] != c
  {
    if s == [] then 0
    else if s[0] == c then 0
    else 1 + IndexOf(s[1..], c)
  }

  /** `needle` occurs in `hay` as a contiguous block starting at position `i`. */
  ghost predicate OccursAt(hay: string, needle: string, i: int)
  {
    0 <= i <= |hay| && needle <= hay[i..]
  }

  /** An occurrence in `hay` one place to the right is an occurrence in `hay[1..]`. */
  lemma ShiftOccurrence(hay: string, needle: string)
    requires hay != []
    ensures forall i :: 0 <= i ==> (OccursAt(hay, needle, i + 1) <==> OccursAt(hay[1..], needle, i))
  {
  }

  /** Substring containment, as `str::contains` with a string pattern: true exactly
      when `needle` occurs somewhere in `hay`. The empty needle occurs everywhere. */
  function Contains(hay: string, needle: string): (b: bool)
    ensures b <==> exists i :: OccursAt(hay, needle, i)
    decreases |hay|
  {
    if needle <= hay then
      assert OccursAt(hay, needle, 0);
      true
    else if hay == [] then
      false
    else
      ShiftOccurrence(hay, needle);
      assert !OccursAt(hay, needle, 0);
      assert forall i :: OccursAt(hay, needle, i) ==> OccursAt(hay[1..], needle, i - 1);
      Contains(hay[1..], needle)
  }

  /** A non-empty needle whose first character is absent from `hay` does not occur in it. */
  lemma NotContainedWithoutFirstChar(hay: string, needle: string)
    requires needle != [] && needle[0] !in hay
    ensures !Contains(hay, needle)
  {
  }

  /** A witnessed occurrence makes `Contains` true. */
  lemma ContainedAt(hay: string, needle: string, i: nat)
    requires i <= |hay| && needle <= hay[i..]
    ensures Contains(hay, needle)
  {
    assert OccursAt(hay, needle, i);
  }
}
