/** The `Summary` trait with its two implementors, `Tweet` and `NewsLetter`. The
    trait becomes a datatype with one constructor per implementing struct; the
    required method `summarize_author` is defined by cases and the default method
    `summarize` is defined once on top of it. */
module Summary {

  datatype Summarizable =
    | NewsLetter(headline: string, location: string, author: string, content: string)
    | Tweet(username: string, content: string, reply: bool, retweet: bool)

  const ReadMore: string := "Read more from "
  const Ellipsis: string := "..."
  /** The newsletter prefix, spelled as in the program. */
  const DistinguishedAuthor: string := "distinguised author "

  /** `summarize_author` of each implementor. The author line is never empty, and
      its first character tells which implementor it came from: '@' for a tweet. */
  function SummarizeAuthor(item: Summarizable): (a: string)
    ensures |a| > 0 && (a[0] == '@' <==> item.Tweet?)
  {
    match item
    case Tweet(username, _, _, _) => "@" + username
    case NewsLetter(_, _, author, _) => DistinguishedAuthor + author
  }

  /** The default `summarize`: the author line, framed by "Read more from " and "...". */
  function Summarize(item: Summarizable): (s: string)
    ensures ReadMore <= s
    ensures |s| == |ReadMore| + |SummarizeAuthor(item)| + |Ellipsis|
  {
    ReadMore + SummarizeAuthor(item) + Ellipsis
  }

  /** Every summary starts with "Read more from ", ends with "...", and holds the
      author line, unchanged, in between. */
  lemma SummarizeFrame(item: Summarizable)
    ensures var s := Summarize(item);
      && |s| == |ReadMore| + |SummarizeAuthor(item)| + |Ellipsis|
      && s[..|ReadMore|] == ReadMore
      && s[|s| - |Ellipsis|..] == Ellipsis
      && s[|ReadMore|..|s| - |Ellipsis|] == SummarizeAuthor(item)
  {
  }

  /** Two summaries are equal exactly when the author lines are: the summary loses
      nothing of the author line and adds nothing that depends on the item. */
  lemma SummarizeInjective(a: Summarizable, b: Summarizable)
    ensures Summarize(a) == Summarize(b) <==> SummarizeAuthor(a) == SummarizeAuthor(b)
  {
    if Summarize(a) == Summarize(b) {
      SummarizeFrame(a);
      SummarizeFrame(b);
      var s := Summarize(a);
      assert SummarizeAuthor(a) == s[|ReadMore|..|s| - |Ellipsis|] == SummarizeAuthor(b);
    }
  }

  /** A tweet's summary depends on its user name and on nothing else. */
  lemma TweetSummaryByUsername(t: Summarizable, u: Summarizable)
    requires t.Tweet? && u.Tweet?
    ensures Summarize(t) == Summarize(u) <==> t.username == u.username
  {
    SummarizeInjective(t, u);
    assert ("@" + t.username)[1..] == t.username;
    assert ("@" + u.username)[1..] == u.username;
  }

  /** A tweet's summary never equals a newsletter's: one author line starts with '@',
      the other with 'd'. */
  lemma TweetAndNewsLetterDiffer(t: Summarizable, n: Summarizable)
    requires t.Tweet? && n.NewsLetter?
    ensures Summarize(t) != Summarize(n)
  {
    SummarizeInjective(t, n);
    assert SummarizeAuthor(t)[0] == '@';
    assert DistinguishedAuthor[0] == 'd';
    assert SummarizeAuthor(n)[0] == 'd';
  }

  /** The whole summary of a tweet. */
  lemma TweetSummary(t: Summarizable)
    requires t.Tweet?
    ensures Summarize(t) == "Read more from @" + t.username + "..."
  {
  }

  /** The whole summary of a newsletter. */
  lemma NewsLetterSummary(n: Summarizable)
    requires n.NewsLetter?
    ensures Summarize(n) == "Read more from distinguised author " + n.author + "..."
  {
    assert ReadMore + DistinguishedAuthor == "Read more from distinguised author ";
    assert Summarize(n) == (ReadMore + DistinguishedAuthor) + n.author + Ellipsis;
  }

  /** `main`: the tweet from "horse_ebooks". */
  lemma MainScenario()
    ensures Summarize(Tweet("horse_ebooks", "of course, as you probably already know, people", false, false))
            == "Read more from @horse_ebooks..."
  {
    TweetSummary(Tweet("horse_ebooks", "of course, as you probably already know, people", false, false));
    assert "Read more from @" + "horse_ebooks" + "..." == "Read more from @horse_ebooks...";
  }

  /** `returns_summarizable`: a tweet from "user". */
  function ReturnsSummarizable(): (item: Summarizable)
    ensures item.Tweet?
    ensures Summarize(item) == "Read more from @user..."
  {
    var t := Tweet("user", "Another Banger.", false, false);
    TweetSummary(t);
    t
  }
}
