# The Rust Book exercises, modelled in Dafny

This project models the small pieces of logic in a set of Rust Book exercises:

- **minigrep** (`Minigrep`, `MinigrepTests`): `Config::new` checks the argument
  vector and picks out the query and the file path. `search` walks the lines of a
  file's contents and collects the lines that contain the query. The unit test
  `one_result` is modelled too. Line splitting follows `str::lines`. The text
  is split after every `'\n'`. A line ended by `'\n'` loses it, and then loses one
  `'\r'` just before it, if there is one. A final line without `'\n'` is kept as it
  is. A trailing `'\n'` does not start an empty last line. Empty text has no lines.
  `Contains` models `str::contains` with a string pattern.
- **ownership** (`Ownership`): `first_word` and the assertions in `main`.
- **rectangles** (`Rectangles`): `Rectangle` with `area`, `can_hold` and
  `square`, and the values used in `main`.
- **enums** (`Enums`): `Coin`, `UsState` and `value_in_cents`.
- **generics** (`Points`): the generic `Point<X, Y>` and `mixup`.
- **traits** (`Summary`): the `Summary` trait, implemented by `Tweet` and
  `NewsLetter`, and `returns_summarizable`.

`Text` holds the character-level string operations that minigrep and
`first_word` share. These are `IndexOf` (the first position of a character) and
`Contains`.

Modelling choices:

- A Rust `String` or `&str` is a `string` (a sequence of characters).
  `first_word` scans the UTF-8 bytes for `b' '`. A space is a single byte, and
  that byte never occurs inside the encoding of any other character. So the byte
  scan and a character scan stop at the same place and return the same slice.
- `u32` and `u8` are the newtypes `uint32` and `uint8`.
- The trait `Summary` becomes a closed datatype, `Summarizable`, with one
  constructor per implementing struct. The required
  method `summarize_author` is defined by cases. The default method `summarize`
  is defined once, on top of `summarize_author`. The newsletter literal keeps the
  program's own spelling, "distinguised author ".
- `search` changes a vector inside a loop. It is therefore a method with a loop
  (`Minigrep.Search`). The method is proved equal to the function `Matching`, and
  the properties of the search are proved as lemmas about `Matching`.
- The minigrep library has no case-insensitive mode and no `ignore_case` field.
  `Config::new` reports a single error, "Not enough arguments!", and does not
  separate a missing query from a missing path. The model follows the code on
  all three points.

## Model

| member | source | states |
|---|---|---|
| `Text.Contains` | minigrep/src/lib.rs:39 | `line.contains(query)` holds exactly when `query` occurs at some position of `line` as a contiguous block (`OccursAt`) |
| `Text.ShiftOccurrence` | minigrep/src/lib.rs:39 | an occurrence at position i+1 of a text is an occurrence at position i of the text without its first character |
| `Text.NotContainedWithoutFirstChar` | minigrep/src/lib.rs:39 | a non-empty query whose first character is not in a line is not contained in it |
| `Text.ContainedAt` | minigrep/src/lib.rs:39 | a query that is a prefix of the line from some position on is contained in the line |
| `Text.IndexOf` | ownership/src/main.rs:17-20 | the scan for the first occurrence of a character returns a position with that character and none before it, or the length when there is none |
| `Minigrep.NewConfig` | minigrep/src/lib.rs:14-22 | the result is the error "Not enough arguments!" exactly when there are fewer than 3 arguments; otherwise the query is `args[1]` and the file path is `args[2]` |
| `Minigrep.NewConfigIgnoresOtherArguments` | minigrep/src/lib.rs:18-21 | the program name `args[0]` and every argument after `args[2]` can be replaced without changing the result |
| `Minigrep.StripCR` | minigrep/src/lib.rs:38 | removing a line's terminator takes off exactly one `'\r'` if and only if the line ends with `'\r'`, and otherwise leaves the line unchanged |
| `Minigrep.Lines` | minigrep/src/lib.rs:38 | the text has no lines exactly when it is empty |
| `Minigrep.LinesSplitAt` | minigrep/src/lib.rs:38 | the first line ends at the first `'\n'` and loses that `'\n'` and one `'\r'` before it; the later lines are the lines of the rest |
| `Minigrep.LinesSingle` | minigrep/src/lib.rs:38 | a non-empty text without `'\n'` is a single line, kept unchanged (a final `'\r'` included) |
| `Minigrep.LinesCons` | minigrep/src/lib.rs:38 | a line followed by `'\n'` comes back as the first line, followed by the lines of the rest |
| `Minigrep.LinesCRLF` | minigrep/src/lib.rs:38 | a line ended by `"\r\n"` loses both characters |
| `Minigrep.LinesHaveNoNewline` | minigrep/src/lib.rs:38 | no line contains `'\n'` |
| `Minigrep.LinesRoundTrip` | minigrep/src/lib.rs:38 | for text without `'\r'`, writing each line followed by `'\n'` gives back the text, plus a `'\n'` if the text did not end with one; so the split loses nothing, reorders nothing and adds no empty last line |
| `Minigrep.LinesOfTerminated` | minigrep/src/lib.rs:38 | lines without `'\n'` and without a trailing `'\r'`, each written with a `'\n'` after it, split back into exactly those lines, empty lines included |
| `Minigrep.Matching` | minigrep/src/lib.rs:37-42 | the lines that `search` accumulates: never more than the input has |
| `Minigrep.MatchingSound` | minigrep/src/lib.rs:38-40 | every line of the search result contains the query |
| `Minigrep.MatchingCounts` | minigrep/src/lib.rs:37-42 | a line appears in the result exactly as often as in the input when it contains the query, and never otherwise; so duplicates are kept and no matching line is dropped |
| `Minigrep.MatchingMembership` | minigrep/src/lib.rs:37-42 | a line is in the result if and only if it is an input line that contains the query |
| `Minigrep.MatchingIsSubsequence` | minigrep/src/lib.rs:38-41 | the result is the input lines picked at strictly increasing positions, so the original order is kept |
| `Minigrep.MatchingEmptyQuery` | minigrep/src/lib.rs:39 | the empty query selects every line, unchanged and in order |
| `Minigrep.Search` | minigrep/src/lib.rs:36-42 | the loop returns the matching lines of `Lines(contents)`, which is the value `Matching` specifies; the corrected version of the function (see Findings) |
| `Minigrep.SearchAsWritten` | minigrep/src/lib.rs:36-44 | as written, the function returns the empty vector for every input, after building the matches in `results` and discarding them |
| `MinigrepTests.TwoLines` | minigrep/src/lib.rs:54-57 | two lines joined by `'\n'` split back into those two lines |
| `MinigrepTests.ThreeLines` | minigrep/src/lib.rs:54-57 | three lines joined by `'\n'` split back into those three lines |
| `MinigrepTests.MatchingMiddleOfThree` | minigrep/src/lib.rs:37-42 | when only the middle one of three lines contains the query, the result is that line alone |
| `MinigrepTests.OneResultLines` | minigrep/src/lib.rs:54-57 | the test contents split into "Rust:", "safe, fast, productive." and "Pick three." |
| `MinigrepTests.RustHasNoDuct` | minigrep/src/lib.rs:53-55 | "Rust:" does not contain "duct" |
| `MinigrepTests.ProductiveHasDuct` | minigrep/src/lib.rs:53-56 | "safe, fast, productive." contains "duct" |
| `MinigrepTests.PickThreeHasNoDuct` | minigrep/src/lib.rs:53-57 | "Pick three." does not contain "duct" |
| `MinigrepTests.OneResultMatches` | minigrep/src/lib.rs:52-59 | query "duct" selects exactly ["safe, fast, productive."] from the test's three lines |
| `MinigrepTests.OneResult` | minigrep/src/lib.rs:51-60 | the `one_result` test: the corrected search returns ["safe, fast, productive."], the search as written returns [] |
| `Ownership.FirstWordOf` | ownership/src/main.rs:15-23 | the first word is a prefix of `s`, contains no space, and is followed in `s` by a space unless it is all of `s` |
| `Ownership.FirstWordUnique` | ownership/src/main.rs:15-23 | those three properties determine the first word: any string that has them is the first word |
| `Ownership.FirstWordIdempotent` | ownership/src/main.rs:15-23 | the first word of the first word is the first word |
| `Ownership.FirstWord` | ownership/src/main.rs:15-23 | the byte loop returns the slice before the first space, or the whole string when there is none |
| `Ownership.HelloIsFirstWord` | ownership/src/main.rs:6-9 | the first word of "hello world" is "hello" |
| `Ownership.HelloWordHasNoSpace` | ownership/src/main.rs:6-7 | the slice `s[0..5]` of "hello world" is "hello", and it is its own first word |
| `Ownership.HelloWorld` | ownership/src/main.rs:6-12 | the words taken from `&s[0..5]`, `&s[..]` and `&s` are all "hello", so both assertions hold |
| `Rectangles.Area` | rectangles/src/main.rs:39-41 | the `u32` product of the sides is zero exactly when a side is zero, and otherwise at least as large as each side |
| `Rectangles.CanHold` | rectangles/src/main.rs:43-45 | a rectangle that can hold another has two non-zero sides and is not that other rectangle |
| `Rectangles.Square` | rectangles/src/main.rs:46-48 | the result is a square whose sides are both `size` |
| `Rectangles.CanHoldStrictOrder` | rectangles/src/main.rs:43-45 | `can_hold` is irreflexive, asymmetric and transitive |
| `Rectangles.CanHoldLargerArea` | rectangles/src/main.rs:39-45 | a rectangle that can hold another has a strictly larger area |
| `Rectangles.SquareArea` | rectangles/src/main.rs:39-48 | when `n * n` fits in a `u32`, `square(n)` has area `n * n` |
| `Rectangles.SquareCanHold` | rectangles/src/main.rs:43-48 | `square(m)` can hold `square(n)` if and only if `m > n` |
| `Rectangles.MainScenario` | rectangles/src/main.rs:10-31 | the 30x50 rectangle has area 1500 and can hold the 20x40 one but not the other way round; `square(30)` with its width set to 35 is 35x30 and can hold `square(20)` |
| `Enums.ValueInCents` | enums/src/main.rs:13-26 | the function is total and every value is 1, 5, 10 or 25, within `u8` |
| `Enums.ValueDeterminesKind` | enums/src/main.rs:13-26 | two coins have the same value if and only if they are of the same kind; every quarter is worth the same whatever its state |
| `Enums.ValueIncreasing` | enums/src/main.rs:15-24 | penny < nickel < dime < quarter, by value |
| `Enums.MainScenario` | enums/src/main.rs:29-31 | a Massachusetts quarter is worth 25 |
| `Points.Mixup` | generics_traits_lifetimes/src/points_example.rs:14-19 | the result's x is `self.x` and its y is `other.y` |
| `Points.MixupIgnoresDroppedFields` | generics_traits_lifetimes/src/points_example.rs:14-19 | the result depends neither on `self.y` nor on `other.x` |
| `Points.MixupAbsorbs` | generics_traits_lifetimes/src/points_example.rs:14-19 | `mixup(mixup(a, b), c) == mixup(a, c)` |
| `Points.MixupSelf` | generics_traits_lifetimes/src/points_example.rs:14-19 | a point mixed up with itself is unchanged |
| `Points.MainScenario` | generics_traits_lifetimes/src/points_example.rs:22-28 | {5, 10.4} mixed up with {"Hello", 'c'} is {5, 'c'} |
| `Summary.SummarizeAuthor` | generics_traits_lifetimes/src/main.rs:25-35 | the author line is never empty, and it starts with `'@'` if and only if the item is a tweet |
| `Summary.Summarize` | generics_traits_lifetimes/src/main.rs:18-20 | the summary starts with "Read more from " and is exactly as long as that prefix, the author line and "..." together |
| `Summary.SummarizeFrame` | generics_traits_lifetimes/src/main.rs:18-20 | every summary starts with "Read more from ", ends with "...", and holds the author line unchanged in between |
| `Summary.SummarizeInjective` | generics_traits_lifetimes/src/main.rs:17-22 | two summaries are equal if and only if the author lines are |
| `Summary.TweetSummary` | generics_traits_lifetimes/src/main.rs:25-29 | a tweet's summary is "Read more from @" + username + "..." |
| `Summary.NewsLetterSummary` | generics_traits_lifetimes/src/main.rs:31-35 | a newsletter's summary is "Read more from distinguised author " + author + "..." |
| `Summary.TweetSummaryByUsername` | generics_traits_lifetimes/src/main.rs:25-29 | two tweets have the same summary if and only if they have the same user name; content, reply and retweet play no part |
| `Summary.TweetAndNewsLetterDiffer` | generics_traits_lifetimes/src/main.rs:25-35 | a tweet's summary never equals a newsletter's |
| `Summary.MainScenario` | generics_traits_lifetimes/src/main.rs:38-44 | the "horse_ebooks" tweet summarizes to "Read more from @horse_ebooks..." |
| `Summary.ReturnsSummarizable` | generics_traits_lifetimes/src/main.rs:52-59 | the result is a tweet whose summary is "Read more from @user..." |

## Left out

- minigrep `run` reads a file with `fs::read_to_string` and returns the I/O error. This is I/O, and `run` never calls `search`.
- minigrep's `main.rs` reads the environment's arguments, prints to stderr and calls `process::exit`. This is I/O. It also calls a `Config::build` that the library does not define.
- `Enums.ValueInCents`: the messages printed for a penny and for a quarter are not modelled.
- The other `println!` and `dbg!` output of the various `main` functions is not modelled.
- `Rectangles.Area`: `u32` overflow is not modelled. A debug build panics and a release build wraps; the model instead requires the product to be below 2^32 (`AreaFits`).
- `Points.MainScenario`: the `f64` field 10.4 becomes a Dafny `real`. `mixup` itself is generic and never looks at it.
- `first_word` works on UTF-8 bytes, while the model works on characters. The two agree, for the reason given above.
- Lifetimes and borrowing (`&'a str` results borrowing from `contents`) have no counterpart. The model returns the lines as values.
- The `Summary` trait is open to new implementors. The model's datatype is closed to the two implementors in the program.

## Findings

| source | as written | input that shows it | evidently intended | confidence | as-written member | corrected member |
|---|---|---|---|---|---|---|
| minigrep/src/lib.rs:43 | `search` builds `results` in the loop at lines 37-42 and then returns `vec![]`, so every search yields no lines | query "duct" on "Rust:\nsafe, fast, productive.\nPick three." gives `[]` | return `results`; the test at minigrep/src/lib.rs:59 expects `["safe, fast, productive."]` | high (not executed) | `Minigrep.SearchAsWritten` (with `MinigrepTests.OneResult`) | `Minigrep.Search` |
