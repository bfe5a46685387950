/** The `first_word` string-slice example. A string is modelled as its sequence
    of characters; `first_word` scans the UTF-8 bytes for a space, and since a
    space is one byte that never occurs inside the encoding of another character,
    the byte scan stops at the same place as a character scan. */
module Ownership {
  import opened Text

  /** The first word of `s`: everything before the first space, or all of `s`. */
  function FirstWordOf(s: string): (w: string)
    ensures w <= s
    ensures ' ' !in w
    ensures |w| < |s| ==> s[|w|] == ' '
  {
    s[..IndexOf(s, ' ')]
  }

  /** The three properties of `FirstWordOf` determine it: any prefix of `s` that has
      no space and is followed by a space or by the end of `s` is the first word. */
  lemma FirstWordUnique(s: string, w: string)
    requires w <= s && ' ' !in w && (|w| < |s| ==> s[|w|] == ' ')
    ensures w == FirstWordOf(s)
  {
  }

  /** The first word of a first word is itself. */
  lemma FirstWordIdempotent(s: string)
    ensures FirstWordOf(FirstWordOf(s)) == FirstWordOf(s)
  {
    var w := FirstWordOf(s);
    FirstWordUnique(w, w);
  }

  /** `first_word`: scan for the first space and return the slice before it, or the
      whole string when there is no space. */
  method FirstWord(s: string) returns (word: string)
    ensures word == FirstWordOf(s)
  {
    var i := 0;
    while i < |s|
      invariant 0 <= i <= |s|
      invariant ' ' !in s[..i]
    {
      if s[i] == ' ' {
        FirstWordUnique(s, s[..i]);
        return s[..i];
      }
      assert s[..i + 1] == s[..i] + [s[i]];
      i := i + 1;
    }
    assert s[..|s|] == s;
    FirstWordUnique(s, s);
    word := s;
  }

  /** `main`: the first word of "hello world", taken from the slice `s[0..5]`, from the
      full slice and from the string itself, is "hello" every time. */
  method HelloWorld() returns (word: string, word2: string, word3: string)
    ensures word == word2 == word3 == "hello"
  {
    var s := "hello world";
    HelloIsFirstWord();
    HelloWordHasNoSpace();
    word := FirstWord(s[0..5]);
    word2 := FirstWord(s[..]);
    word3 := FirstWord(s);
  }

  lemma HelloIsFirstWord()
    ensures FirstWordOf("hello world") == "hello"
  {
    FirstWordUnique("hello world", "hello");
  }

  lemma HelloWordHasNoSpace()
    ensures "hello world"[0..5] == "hello" && FirstWordOf("hello") == "hello"
  {
    FirstWordUnique("hello", "hello");
  }
}
