/**
 * `fetch_articles` over entries that have already been parsed, and the parts
 * of `get_sentiment` that build the model context and the list of sources.
 * Each feed is the sequence of entries `feedparser.parse` produced for it; an
 * entry attribute that is missing is `None`.
 */
module Articles {
  import opened Common
  import opened Text
  import opened Sentiment

  const UNTITLED: string := "(untitled)"
  /** The `max_articles` that `get_sentiment` passes. */
  const SENTIMENT_ARTICLES: int := 5

  datatype Entry = Entry(title: Option<string>, link: Option<string>,
                         summary: Option<string>, description: Option<string>)

  datatype Article = Article(title: string, link: string, summary: string)

  /** One item of the `sources` list sent to the front end. */
  datatype Source = Source(uri: string, title: string)

  /** `getattr(entry, "summary", "") or getattr(entry, "description", "")`:
      an empty or missing summary falls back to the description. */
  function RawSummary(e: Entry): string
  {
    var summary := e.summary.GetOr("");
    if summary != [] then summary else e.description.GetOr("")
  }

  /** The article dictionary built from one entry. */
  function CleanEntry(e: Entry): (a: Article)
    ensures a.title == Strip(e.title.GetOr(UNTITLED))
    ensures a.link == Strip(e.link.GetOr(""))
    ensures e.summary.Some? && e.summary.value != [] ==> a.summary == Strip(e.summary.value)
    ensures e.summary.None? || e.summary.value == [] ==> a.summary == Strip(e.description.GetOr(""))
  {
    Article(Strip(e.title.GetOr(UNTITLED)), Strip(e.link.GetOr("")), Strip(RawSummary(e)))
  }

  function CleanAll(entries: seq<Entry>): (r: seq<Article>)
    ensures |r| == |entries|
    ensures forall i :: 0 <= i < |entries| ==> r[i] == CleanEntry(entries[i])
  {
    seq(|entries|, i requires 0 <= i < |entries| => CleanEntry(entries[i]))
  }

  /** All feeds' entries, feed after feed, each in its own order. */
  function Flatten(feeds: seq<seq<Entry>>): seq<Entry>
  {
    if feeds == [] then [] else Flatten(feeds[..|feeds| - 1]) + feeds[|feeds| - 1]
  }

  /** How many articles are collected from `total` entries. */
  function Cutoff(total: nat, maxArticles: int): (n: nat)
    ensures maxArticles <= 0 ==> n == 0
    ensures maxArticles > 0 ==> n == if total < maxArticles then total else maxArticles
  {
    if maxArticles <= 0 then 0 else if total < maxArticles then total else maxArticles
  }

  /** The first `Cutoff` entries, cleaned. */
  function Collected(entries: seq<Entry>, maxArticles: int): seq<Article>
  {
    CleanAll(entries[..Cutoff(|entries|, maxArticles)])
  }

  /** `fetch_articles`: the feeds are read in order and collection stops as
      soon as `max_articles` articles are held (checked before each append). */
  method FetchArticles(feeds: seq<seq<Entry>>, maxArticles: int) returns (articles: seq<Article>)
    ensures articles == Collected(Flatten(feeds), maxArticles)
  {
    articles := [];
    var f := 0;
    while f < |feeds|
      invariant 0 <= f <= |feeds|
      invariant articles == Collected(Flatten(feeds[..f]), maxArticles)
    {
      ghost var seen := Flatten(feeds[..f]);
      var entries := feeds[f];
      var k := 0;
      while k < |entries|
        invariant 0 <= k <= |entries|
        invariant articles == Collected(seen + entries[..k], maxArticles)
      {
        if |articles| >= maxArticles {
          break;
        }
        CollectOneMore(seen, entries, k, maxArticles, articles);
        articles := articles + [CleanEntry(entries[k])];
        k := k + 1;
      }
      FeedDone(feeds, f, k, maxArticles, articles);
      f := f + 1;
      if |articles| >= maxArticles {
        CollectedSaturatedFeeds(feeds, f, maxArticles);
        break;
      }
    }
    if f == |feeds| {
      assert feeds[..f] == feeds;
    }
  }

  /** The entries of the first `f + 1` feeds. */
  lemma FlattenStep(feeds: seq<seq<Entry>>, f: nat)
    requires f < |feeds|
    ensures Flatten(feeds[..f + 1]) == Flatten(feeds[..f]) + feeds[f]
  {
    assert feeds[..f + 1][..f] == feeds[..f];
  }

  /** Appending one entry while fewer than `max` articles are held appends its article. */
  lemma CollectOneMore(seen: seq<Entry>, entries: seq<Entry>, k: nat, maxArticles: int, articles: seq<Article>)
    requires k < |entries|
    requires articles == Collected(seen + entries[..k], maxArticles) && |articles| < maxArticles
    ensures Collected(seen + entries[..k + 1], maxArticles) == articles + [CleanEntry(entries[k])]
  {
    var prefix := seen + entries[..k];
    assert seen + entries[..k + 1] == prefix + [entries[k]];
    var n := Cutoff(|prefix|, maxArticles);
    assert n == |prefix|;
    assert (prefix + [entries[k]])[..n + 1] == prefix + [entries[k]];
    assert prefix[..n] == prefix;
  }

  /** Leaving the inner loop early or at its end, the articles are those of
      the first `f + 1` feeds. */
  lemma FeedDone(feeds: seq<seq<Entry>>, f: nat, k: nat, maxArticles: int, articles: seq<Article>)
    requires f < |feeds| && k <= |feeds[f]|
    requires articles == Collected(Flatten(feeds[..f]) + feeds[f][..k], maxArticles)
    requires k < |feeds[f]| ==> |articles| >= maxArticles
    ensures articles == Collected(Flatten(feeds[..f + 1]), maxArticles)
  {
    FlattenStep(feeds, f);
    var prefix := Flatten(feeds[..f]) + feeds[f][..k];
    assert Flatten(feeds[..f + 1]) == prefix + feeds[f][k..];
    if k < |feeds[f]| {
      CollectedSaturated(prefix, feeds[f][k..], maxArticles);
    } else {
      assert feeds[f][k..] == [];
      assert prefix + feeds[f][k..] == prefix;
    }
  }

  /** Once `max` articles are held, later entries change nothing. */
  lemma CollectedSaturated(prefix: seq<Entry>, rest: seq<Entry>, maxArticles: int)
    requires |Collected(prefix, maxArticles)| >= maxArticles
    ensures Collected(prefix + rest, maxArticles) == Collected(prefix, maxArticles)
  {
    var n := Cutoff(|prefix|, maxArticles);
    assert Cutoff(|prefix + rest|, maxArticles) == n;
    assert (prefix + rest)[..n] == prefix[..n];
  }

  /** Once the first `f` feeds fill the quota, the remaining feeds change nothing. */
  lemma CollectedSaturatedFeeds(feeds: seq<seq<Entry>>, f: nat, maxArticles: int)
    requires f <= |feeds|
    requires |Collected(Flatten(feeds[..f]), maxArticles)| >= maxArticles
    ensures Collected(Flatten(feeds), maxArticles) == Collected(Flatten(feeds[..f]), maxArticles)
  {
    FlattenPrefix(feeds, f);
    var prefix := Flatten(feeds[..f]);
    var all := Flatten(feeds);
    assert all == prefix + all[|prefix|..];
    CollectedSaturated(prefix, all[|prefix|..], maxArticles);
  }

  /** The entries of the first `f` feeds are a prefix of all entries. */
  lemma {:induction false} FlattenPrefix(feeds: seq<seq<Entry>>, f: nat)
    requires f <= |feeds|
    ensures |Flatten(feeds[..f])| <= |Flatten(feeds)|
    ensures Flatten(feeds)[..|Flatten(feeds[..f])|] == Flatten(feeds[..f])
    decreases |feeds| - f
  {
    if f < |feeds| {
      var n := |feeds|;
      FlattenPrefix(feeds[..n - 1], f);
      assert feeds[..n - 1][..f] == feeds[..f];
    } else {
      assert feeds[..f] == feeds;
    }
  }

  /** Exactly the first `min(max_articles, total)` entries are returned, none
      when `max_articles <= 0`, each cleaned, in feed order. */
  lemma CollectedFirstEntries(feeds: seq<seq<Entry>>, maxArticles: int)
    ensures var articles := Collected(Flatten(feeds), maxArticles);
      |articles| == Cutoff(|Flatten(feeds)|, maxArticles) &&
      (forall i :: 0 <= i < |articles| ==> articles[i] == CleanEntry(Flatten(feeds)[i]))
  {
  }

  /** A summary made only of whitespace is kept (it is truthy) and strips to
      the empty string, so the description is not consulted. */
  lemma BlankSummaryNotReplaced(e: Entry)
    requires e.summary.Some? && e.summary.value != [] && AllSpace(e.summary.value)
    ensures CleanEntry(e).summary == []
  {
    StripAllSpace(e.summary.value);
  }

  /** Every collected field is already stripped. */
  lemma ArticleFieldsStripped(e: Entry)
    ensures var a := CleanEntry(e);
      Strip(a.title) == a.title && Strip(a.link) == a.link && Strip(a.summary) == a.summary
  {
    StripIdempotent(e.title.GetOr(UNTITLED));
    StripIdempotent(e.link.GetOr(""));
    StripIdempotent(RawSummary(e));
  }

  // ---------------------------------------------------------------------------
  // get_sentiment
  // ---------------------------------------------------------------------------

  /** One line of the model context. */
  function ContextLine(a: Article): (line: string)
    ensures a.summary != [] ==> line == "- " + a.title + ": " + a.summary
    ensures a.summary == [] ==> line == "- " + a.title
  {
    if a.summary != [] then "- " + a.title + ": " + a.summary else "- " + a.title
  }

  function ContextLines(articles: seq<Article>): (lines: seq<string>)
    ensures |lines| == |articles|
    ensures forall i :: 0 <= i < |articles| ==> lines[i] == ContextLine(articles[i])
  {
    seq(|articles|, i requires 0 <= i < |articles| => ContextLine(articles[i]))
  }

  /** `sep.join(lines)`. */
  function Join(lines: seq<string>, sep: string): string
  {
    if lines == [] then []
    else if |lines| == 1 then lines[0]
    else Join(lines[..|lines| - 1], sep) + sep + lines[|lines| - 1]
  }

  /** The number of occurrences of `c` in `s`. */
  function Count(s: string, c: char): nat
  {
    if s == [] then 0 else Count(s[..|s| - 1], c) + (if s[|s| - 1] == c then 1 else 0)
  }

  lemma {:induction false} CountAppend(a: string, b: string, c: char)
    ensures Count(a + b, c) == Count(a, c) + Count(b, c)
    decreases |b|
  {
    if b == [] {
      assert a + b == a;
    } else {
      var n := |b| - 1;
      assert (a + b)[..|a + b| - 1] == a + b[..n];
      CountAppend(a, b[..n], c);
    }
  }

  /** Joining lines that hold no newline with "\n" puts exactly one newline
      between consecutive lines: the context has one line per article. */
  lemma {:induction false} JoinCountsSeparators(lines: seq<string>)
    requires lines != []
    requires forall i :: 0 <= i < |lines| ==> Count(lines[i], '\n') == 0
    ensures Count(Join(lines, "\n"), '\n') == |lines| - 1
  {
    if |lines| > 1 {
      var n := |lines| - 1;
      JoinCountsSeparators(lines[..n]);
      CountAppend(Join(lines[..n], "\n") + "\n", lines[n], '\n');
      CountAppend(Join(lines[..n], "\n"), "\n", '\n');
      assert Count("\n", '\n') == 1 by {
        assert "\n"[..0] == [];
      }
    }
  }

  /** The loop collecting `context_lines` and the final join. */
  method BuildContext(articles: seq<Article>) returns (context: string)
    ensures context == Join(ContextLines(articles), "\n")
  {
    var lines: seq<string> := [];
    var i := 0;
    while i < |articles|
      invariant 0 <= i <= |articles|
      invariant lines == ContextLines(articles[..i])
    {
      var art := articles[i];
      if art.summary != [] {
        lines := lines + ["- " + art.title + ": " + art.summary];
      } else {
        lines := lines + ["- " + art.title];
      }
      assert articles[..i + 1] == articles[..i] + [art];
      i := i + 1;
    }
    assert articles[..i] == articles;
    context := Join(lines, "\n");
  }

  /** With no articles the context is the empty string. */
  lemma EmptyContext()
    ensures Join(ContextLines([]), "\n") == ""
  {
  }

  /** `[{"uri": art["link"], "title": art["title"]} for art in articles]`. */
  function Sources(articles: seq<Article>): (sources: seq<Source>)
    ensures |sources| == |articles|
    ensures forall i :: 0 <= i < |articles| ==> sources[i] == Source(articles[i].link, articles[i].title)
  {
    seq(|articles|, i requires 0 <= i < |articles| => Source(articles[i].link, articles[i].title))
  }

  /** What the endpoint returns, before it is serialised. */
  datatype SentimentReport = SentimentReport(score: real, sentimentText: string, sources: seq<Source>)

  /** `get_sentiment`, with the prompt template and the Gemini call folded into
      `ask`, a function of the context. */
  method GetSentiment(feeds: seq<seq<Entry>>, ask: string -> string) returns (report: SentimentReport)
    ensures var articles := Collected(Flatten(feeds), SENTIMENT_ARTICLES);
      var answer := ask(Join(ContextLines(articles), "\n"));
      report == SentimentReport(MapSentimentToScore(ParseOverallSentiment(answer)), Strip(answer), Sources(articles))
  {
    var articles := FetchArticles(feeds, SENTIMENT_ARTICLES);
    var context := BuildContext(articles);
    var answer := ask(context);
    var word := ParseOverallSentiment(answer);
    var score := MapSentimentToScore(word);
    report := SentimentReport(score, Strip(answer), Sources(articles));
  }

  /** At most five sources are reported, each the stripped link and title of
      the entry in the same position of the feeds. */
  lemma ReportSources(feeds: seq<seq<Entry>>, i: nat)
    requires i < |Collected(Flatten(feeds), SENTIMENT_ARTICLES)|
    ensures |Sources(Collected(Flatten(feeds), SENTIMENT_ARTICLES))| <= 5
    ensures Sources(Collected(Flatten(feeds), SENTIMENT_ARTICLES))[i] ==
      Source(Strip(Flatten(feeds)[i].link.GetOr("")), Strip(Flatten(feeds)[i].title.GetOr(UNTITLED)))
  {
  }
}
