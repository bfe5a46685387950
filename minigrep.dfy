/** minigrep's library: argument validation (`Config::new`) and the line
    search (`search`) over the lines of a file's contents. */
module Minigrep {
  import opened Text

  /** The run parameters: what to search for and where. */
  datatype Config = Config(query: string, filepath: string)

  datatype Result<T, E> = Ok(value: T) | Err(error: E)

  const NotEnoughArguments: string := "Not enough arguments!"

  /** `Config::new`: `args` is the whole argument vector, program name first.
      Fewer than three entries is an error; otherwise the query is `args[1]`
      and the file path `args[2]`, and every other entry is ignored. */
  function NewConfig(args: seq<string>): (r: Result<Config, string>)
    ensures r.Err? <==> |args| < 3
    ensures r.Err? ==> r.error == NotEnoughArguments
    ensures r.Ok? ==> r.value.query == args[1] && r.value.filepath == args[2]
  {
    if |args| < 3 then Err(NotEnoughArguments)
    else Ok(Config(args[1], args[2]))
  }

  /** The program name and any arguments past the file path do not affect the result. */
  lemma NewConfigIgnoresOtherArguments(args: seq<string>, program: string, extra: seq<string>)
    requires |args| >= 3
    ensures NewConfig(args) == NewConfig([program, args[1], args[2]] + extra)
  {
  }

  // ---------------------------------------------------------------------------
  // Lines, as `str::lines`: split after every '\n'; a line ended by '\n' loses
  // the '\n' and then one '\r' before it, if any; a final line without '\n' is
  // kept as it is; a trailing '\n' does not start an empty last line.

  /** `line` without one trailing carriage return: exactly one '\r' is taken off
      when the line ends with one, and nothing otherwise. */
  function StripCR(line: string): (r: string)
    ensures r == line || r + "\r" == line
    ensures r + "\r" == line <==> (|line| > 0 && line[|line| - 1] == '\r')
  {
    if |line| > 0 && line[|line| - 1] == '\r' then line[..|line| - 1] else line
  }

  /** The lines of `s`, in order. */
  function Lines(s: string): (ls: seq<string>)
    ensures ls == [] <==> s == []
    decreases |s|
  {
    if s == [] then []
    else
      var i := IndexOf(s, '\n');
      if i == |s| then [s]
      else [StripCR(s[..i])] + Lines(s[i + 1..])
  }

  /** A line ended by the first line feed at position `i`. */
  lemma LinesSplitAt(s: string, i: nat)
    requires i < |s| && s[i] == '\n' && '\n' !in s[..i]
    ensures Lines(s) == [StripCR(s[..i])] + Lines(s[i + 1..])
  {
    var k := IndexOf(s, '\n');
    assert k == i;
  }

  /** A non-empty text without line feeds is a single line. */
  lemma LinesSingle(s: string)
    requires s != [] && '\n' !in s
    ensures Lines(s) == [s]
  {
  }

  /** A line without line feed or trailing carriage return, followed by a line feed,
      comes back as the first line. */
  lemma LinesCons(a: string, rest: string)
    requires '\n' !in a && (a == [] || a[|a| - 1] != '\r')
    ensures Lines(a + "\n" + rest) == [a] + Lines(rest)
  {
    var s := a + "\n" + rest;
    assert s[|a|] == '\n' && s[..|a|] == a && s[|a| + 1..] == rest;
    LinesSplitAt(s, |a|);
  }

  /** A line ended by "\r\n" loses both characters. */
  lemma LinesCRLF(a: string, rest: string)
    requires '\n' !in a && (a == [] || a[|a| - 1] != '\r')
    ensures Lines(a + "\r\n" + rest) == [a] + Lines(rest)
  {
    var line := a + "\r";
    var s := line + "\n" + rest;
    assert a + "\r\n" + rest == s;
    assert s[|line|] == '\n' && s[..|line|] == line && s[|line| + 1..] == rest;
    assert '\n' !in line;
    LinesSplitAt(s, |line|);
    assert StripCR(line) == a;
  }

  /** No line holds a line feed. */
  lemma {:induction false} LinesHaveNoNewline(s: string)
    ensures forall k :: 0 <= k < |Lines(s)| ==> '\n' !in Lines(s)[k]
    decreases |s|
  {
    if s != [] {
      var i := IndexOf(s, '\n');
      if i < |s| {
        LinesHaveNoNewline(s[i + 1..]);
        assert '\n' !in s[..i];
        assert Lines(s) == [StripCR(s[..i])] + Lines(s[i + 1..]);
      }
    }
  }

  /** Every line followed by a line feed, concatenated. */
  function Terminated(ls: seq<string>): string
  {
    if ls == [] then [] else ls[0] + "\n" + Terminated(ls[1..])
  }

  /** For text without carriage returns, putting a line feed after every line gives
      back the text, with a line feed added when its last line had none: nothing is
      lost or reordered by the split, and no empty last line is invented. */
  lemma {:induction false} LinesRoundTrip(s: string)
    requires '\r' !in s
    ensures Terminated(Lines(s)) == if s == [] || s[|s| - 1] == '\n' then s else s + "\n"
    decreases |s|
  {
    if s != [] {
      var i := IndexOf(s, '\n');
      if i == |s| {
        LinesSingle(s);
        assert [s][1..] == [];
      } else {
        var line, rest := s[..i], s[i + 1..];
        assert s == line + "\n" + rest;
        LinesCons(line, rest);
        assert '\r' !in rest;
        LinesRoundTrip(rest);
        var ls := [line] + Lines(rest);
        assert ls[1..] == Lines(rest);
        assert Terminated(Lines(s)) == line + "\n" + Terminated(Lines(rest));
        if rest != [] {
          assert s[|s| - 1] == rest[|rest| - 1];
        }
      }
    }
  }

  /** The other direction of the round trip: lines without line feeds and without a
      trailing carriage return, each written with a line feed after it, split back
      into the same lines (empty lines included). */
  lemma {:induction false} LinesOfTerminated(ls: seq<string>)
    requires forall k :: 0 <= k < |ls| ==> '\n' !in ls[k] && (ls[k] == [] || ls[k][|ls[k]| - 1] != '\r')
    ensures Lines(Terminated(ls)) == ls
    decreases |ls|
  {
    if ls != [] {
      LinesOfTerminated(ls[1..]);
      LinesCons(ls[0], Terminated(ls[1..]));
    }
  }

  // ---------------------------------------------------------------------------
  // Search.

  /** The lines of `lines` that contain `query`, in their original order and with
      repeated lines kept: the value that `search` accumulates. */
  function Matching(query: string, lines: seq<string>): (r: seq<string>)
    ensures |r| <= |lines|
  {
    if lines == [] then []
    else
      var init := Matching(query, lines[..|lines| - 1]);
      var last := lines[|lines| - 1];
      if Contains(last, query) then init + [last] else init
  }

  /** `idx` picks the elements of `xs` out of `ys` at strictly increasing positions. */
  ghost predicate Embedding(idx: seq<int>, xs: seq<string>, ys: seq<string>)
  {
    && |idx| == |xs|
    && (forall k :: 0 <= k < |idx| ==> 0 <= idx[k] < |ys| && xs[k] == ys[idx[k]])
    && (forall k, l :: 0 <= k < l < |idx| ==> idx[k] < idx[l])
  }

  ghost predicate IsSubsequence(xs: seq<string>, ys: seq<string>)
  {
    exists idx :: Embedding(idx, xs, ys)
  }

  /** Every line of the result contains the query. */
  lemma {:induction false} MatchingSound(query: string, lines: seq<string>)
    ensures forall k :: 0 <= k < |Matching(query, lines)| ==> Contains(Matching(query, lines)[k], query)
    decreases |lines|
  {
    if lines != [] {
      MatchingSound(query, lines[..|lines| - 1]);
    }
  }

  /** Each line occurs in the result exactly as often as in the input when it contains
      the query, and not at all otherwise: no matching line is dropped, duplicates are
      kept, and nothing else gets in. */
  lemma {:induction false} MatchingCounts(query: string, lines: seq<string>, line: string)
    ensures multiset(Matching(query, lines))[line] ==
            if Contains(line, query) then multiset(lines)[line] else 0
    decreases |lines|
  {
    if lines != [] {
      var init := lines[..|lines| - 1];
      var last := lines[|lines| - 1];
      MatchingCounts(query, init, line);
      assert lines == init + [last];
    }
  }

  /** A line is in the result exactly when it is one of the input lines and contains
      the query. */
  lemma MatchingMembership(query: string, lines: seq<string>, line: string)
    ensures line in Matching(query, lines) <==> line in lines && Contains(line, query)
  {
    MatchingCounts(query, lines, line);
  }

  /** The result keeps the original line order: it is a subsequence of the input. */
  lemma {:induction false} MatchingIsSubsequence(query: string, lines: seq<string>)
    ensures IsSubsequence(Matching(query, lines), lines)
    decreases |lines|
  {
    if lines == [] {
      assert Embedding([], [], lines);
    } else {
      var n := |lines| - 1;
      var init := lines[..n];
      MatchingIsSubsequence(query, init);
      var idx :| Embedding(idx, Matching(query, init), init);
      assert Embedding(idx, Matching(query, init), lines);
      if Contains(lines[n], query) {
        assert Embedding(idx + [n], Matching(query, init) + [lines[n]], lines);
      }
    }
  }

  /** The empty query is contained in every line, so it selects every line. */
  lemma {:induction false} MatchingEmptyQuery(lines: seq<string>)
    ensures Matching("", lines) == lines
    decreases |lines|
  {
    if lines != [] {
      MatchingEmptyQuery(lines[..|lines| - 1]);
      assert Contains(lines[|lines| - 1], "");
      assert lines[..|lines| - 1] + [lines[|lines| - 1]] == lines;
    }
  }

  /** `search`, as its test expects it: walk the lines of `contents` and push every
      line that contains `query` onto `results`, then return `results`. */
  method Search(query: string, contents: string) returns (results: seq<string>)
    ensures results == Matching(query, Lines(contents))
  {
    var lines := Lines(contents);
    results := [];
    var i := 0;
    while i < |lines|
      invariant 0 <= i <= |lines|
      invariant results == Matching(query, lines[..i])
    {
      var line := lines[i];
      assert lines[..i + 1][..i] == lines[..i];
      if Contains(line, query) {
        results := results + [line];
      }
      i := i + 1;
    }
    assert lines[..|lines|] == lines;
  }

  /** `search` as it is written: the same loop accumulates the matching lines, but
      the function then returns a fresh empty vector, so the matches are discarded. */
  method SearchAsWritten(query: string, contents: string) returns (results: seq<string>)
    ensures results == []
  {
    var lines := Lines(contents);
    var accumulated := [];
    var i := 0;
    while i < |lines|
      invariant 0 <= i <= |lines|
      invariant accumulated == Matching(query, lines[..i])
    {
      var line := lines[i];
      assert lines[..i + 1][..i] == lines[..i];
      if Contains(line, query) {
        accumulated := accumulated + [line];
      }
      i := i + 1;
    }
    // The discarded value is the one `Search` returns.
    assert lines[..|lines|] == lines;
    assert accumulated == Matching(query, Lines(contents));
    results := [];
  }
}

/** The library's unit test, `one_result`. */
module MinigrepTests {
  import opened Text
  import opened Minigrep

  /** The contents used by the `one_result` test. */
  const TestContents: string := "Rust:" + "\n" + ("safe, fast, productive." + "\n" + "Pick three.")

  /** Two lines joined by a line feed split back into those two lines. */
  lemma TwoLines(b: string, c: string)
    requires '\n' !in b && (b == [] || b[|b| - 1] != '\r')
    requires '\n' !in c && c != []
    ensures Lines(b + "\n" + c) == [b, c]
  {
    LinesSingle(c);
    LinesCons(b, c);
  }

  /** Three lines joined by line feeds split back into those three lines. */
  lemma ThreeLines(a: string, b: string, c: string)
    requires '\n' !in a && (a == [] || a[|a| - 1] != '\r')
    requires '\n' !in b && (b == [] || b[|b| - 1] != '\r')
    requires '\n' !in c && c != []
    ensures Lines(a + "\n" + (b + "\n" + c)) == [a, b, c]
  {
    TwoLines(b, c);
    LinesCons(a, b + "\n" + c);
  }

  /** Of three lines, only the middle one contains the query. */
  lemma MatchingMiddleOfThree(query: string, a: string, b: string, c: string)
    requires !Contains(a, query) && Contains(b, query) && !Contains(c, query)
    ensures Matching(query, [a, b, c]) == [b]
  {
    assert [a][..0] == [];
    assert Matching(query, [a]) == [];
    assert [a, b][..1] == [a];
    assert Matching(query, [a, b]) == [b];
    assert [a, b, c][..2] == [a, b];
  }

  lemma OneResultLines()
    ensures Lines(TestContents) == ["Rust:", "safe, fast, productive.", "Pick three."]
  {
    ThreeLines("Rust:", "safe, fast, productive.", "Pick three.");
  }

  lemma RustHasNoDuct()
    ensures !Contains("Rust:", "duct")
  {
    NotContainedWithoutFirstChar("Rust:", "duct");
  }

  lemma ProductiveHasDuct()
    ensures Contains("safe, fast, productive.", "duct")
  {
    ContainedAt("safe, fast, productive.", "duct", 15);
  }

  lemma PickThreeHasNoDuct()
    ensures !Contains("Pick three.", "duct")
  {
    NotContainedWithoutFirstChar("Pick three.", "duct");
  }

  lemma OneResultMatches()
    ensures Matching("duct", ["Rust:", "safe, fast, productive.", "Pick three."]) == ["safe, fast, productive."]
  {
    RustHasNoDuct();
    ProductiveHasDuct();
    PickThreeHasNoDuct();
    MatchingMiddleOfThree("duct", "Rust:", "safe, fast, productive.", "Pick three.");
  }

  /** The `one_result` test: query "duct" selects exactly the middle line, which the
      corrected search returns and the search as written does not. */
  method OneResult() returns (fixed: seq<string>, asWritten: seq<string>)
    ensures fixed == ["safe, fast, productive."]
    ensures asWritten == []
  {
    OneResultLines();
    OneResultMatches();
    fixed := Search("duct", TestContents);
    asWritten := SearchAsWritten("duct", TestContents);
  }
}
