/** The `run` command of the command-line tool: fetching the recent articles of every subscribed
    feed, scoring them, recording the feeds without recent articles, picking the best-scored
    articles and explaining each pick. */
module Cli {
  import opened Wrappers
  import opened Text
  import opened Seqs
  import opened Records
  import opened Feed
  import Opml
  import opened Analyzer

  const StrongInterest := "Strongly matches your interests"
  const ModerateInterest := "Moderately aligns with your interests"
  const HighQuality := "High-quality content with detailed information"
  const GoodQuality := "Good content quality"
  const Balanced := "Balanced combination of relevance and quality"
  const UnknownSource := "Unknown Source"

  // ---------------------------------------------------------------------------
  // generateRecommendationReason

  /** The interest phrase: strong from 0.7, moderate from 0.5, none below. */
  function InterestPhrase(s: real): seq<string> {
    if s >= 0.7 then [StrongInterest] else if s >= 0.5 then [ModerateInterest] else []
  }

  /** The content phrase: high quality from 0.7, good from 0.5, none below. */
  function ContentPhrase(s: real): seq<string> {
    if s >= 0.7 then [HighQuality] else if s >= 0.5 then [GoodQuality] else []
  }

  /** The reasons in order: the interest phrase, then the content phrase, else the general one. */
  function Reasons(score: ArticleScore): (r: seq<string>)
    ensures 1 <= |r| <= 2
  {
    var found := InterestPhrase(score.interestScore) + ContentPhrase(score.contentScore);
    if |found| == 0 then [Balanced] else found
  }

  function GenerateRecommendationReason(score: ArticleScore): string {
    Join(Reasons(score), ", ")
  }

  lemma PhraseLengths()
    ensures |Balanced| == 45
    ensures |StrongInterest| == 31 && |ModerateInterest| == 37
    ensures |HighQuality| == 46 && |GoodQuality| == 20
  {
  }

  /** With both phrases, the explanation is the interest phrase, ", ", then the content phrase. */
  lemma ReasonBoth(score: ArticleScore)
    requires score.interestScore >= 0.5 && score.contentScore >= 0.5
    ensures GenerateRecommendationReason(score)
         == InterestPhrase(score.interestScore)[0] + ", " + ContentPhrase(score.contentScore)[0]
  {
    var rs := Reasons(score);
    assert rs == [InterestPhrase(score.interestScore)[0], ContentPhrase(score.contentScore)[0]];
    assert Join(rs[1..], ", ") == rs[1];
  }

  /** The explanation is never empty; it is the general reason exactly when both scores are below
      0.5; otherwise the interest phrase comes first and the content phrase last, joined by ", ". */
  lemma ReasonSpec(score: ArticleScore)
    ensures var r := GenerateRecommendationReason(score);
            var i := score.interestScore;
            var c := score.contentScore;
            && r != ""
            && (r == Balanced <==> i < 0.5 && c < 0.5)
            && (i >= 0.5 && c < 0.5 ==> r == InterestPhrase(i)[0])
            && (i < 0.5 && c >= 0.5 ==> r == ContentPhrase(c)[0])
            && (i >= 0.7 ==> HasPrefix(r, StrongInterest))
            && (0.5 <= i < 0.7 ==> HasPrefix(r, ModerateInterest))
            && (c >= 0.7 ==> HasSuffix(r, HighQuality))
            && (0.5 <= c < 0.7 ==> HasSuffix(r, GoodQuality))
  {
    var i := score.interestScore;
    var c := score.contentScore;
    var r := GenerateRecommendationReason(score);
    if i >= 0.5 && c >= 0.5 {
      ReasonBoth(score);
      var ip := InterestPhrase(i)[0];
      var cp := ContentPhrase(c)[0];
      assert r[..|ip|] == ip;
      assert r[|r| - |cp|..] == cp;
      PhraseLengths();
    } else if i >= 0.5 {
      assert Reasons(score) == [InterestPhrase(i)[0]];
      assert r[..|r|] == r;
      PhraseLengths();
    } else if c >= 0.5 {
      assert Reasons(score) == [ContentPhrase(c)[0]];
      assert r[|r| - |r|..] == r;
      PhraseLengths();
    }
  }

  // ---------------------------------------------------------------------------
  // getFeedTitleByURL

  /** A feed url without a trailing "/feed.xml", then "/feed.atom", then "/rss". */
  function BaseURL(url: string): (r: string)
    ensures HasPrefix(url, r)
  {
    TrimSuffix(TrimSuffix(TrimSuffix(url, "/feed.xml"), "/feed.atom"), "/rss")
  }

  predicate ServesArticle(articleURL: string, feed: Opml.FeedEntry) {
    Contains(articleURL, BaseURL(feed.url))
  }

  /** The title of the first feed whose base url occurs in the article's url, else "Unknown Source". */
  function GetFeedTitleByURL(feeds: seq<Opml.FeedEntry>, articleURL: string): (r: string)
    ensures r == UnknownSource || exists i :: 0 <= i < |feeds| && r == feeds[i].title
  {
    match FindFirst(feeds, (f: Opml.FeedEntry) => ServesArticle(articleURL, f))
    case None => UnknownSource
    case Some(i) => feeds[i].title
  }

  /** With no feed serving the article, the source is "Unknown Source". */
  lemma FeedTitleUnknown(feeds: seq<Opml.FeedEntry>, articleURL: string)
    requires forall i :: 0 <= i < |feeds| ==> !ServesArticle(articleURL, feeds[i])
    ensures GetFeedTitleByURL(feeds, articleURL) == UnknownSource
  {
    var p := (f: Opml.FeedEntry) => ServesArticle(articleURL, f);
    assert forall k :: 0 <= k < |feeds| ==> !p(feeds[k]);
  }

  /** The first feed serving the article gives its title. */
  lemma FeedTitleFirst(feeds: seq<Opml.FeedEntry>, articleURL: string, i: nat)
    requires i < |feeds| && ServesArticle(articleURL, feeds[i])
    requires forall j :: 0 <= j < i ==> !ServesArticle(articleURL, feeds[j])
    ensures GetFeedTitleByURL(feeds, articleURL) == feeds[i].title
  {
    var p := (f: Opml.FeedEntry) => ServesArticle(articleURL, f);
    var r := FindFirst(feeds, p);
    assert p(feeds[i]);
    assert r.Some?;
    var k := r.value;
    assert k <= i;
    assert p(feeds[k]);
    assert k >= i;
  }

  lemma {:induction false} ContainsPrefixOf(s: string, sub: string, p: string)
    requires Contains(s, sub) && HasPrefix(sub, p)
    ensures Contains(s, p)
    decreases |s|
  {
    if HasPrefix(s, sub) {
      assert s[..|p|] == s[..|sub|][..|p|];
    } else {
      ContainsPrefixOf(s[1..], sub, p);
    }
  }

  /** An article whose url contains its feed's own url is attributed to that feed, or to an earlier
      one that also matches. */
  lemma FeedOwnURLMatches(feeds: seq<Opml.FeedEntry>, k: nat, articleURL: string)
    requires k < |feeds| && Contains(articleURL, feeds[k].url)
    ensures exists i :: 0 <= i <= k && GetFeedTitleByURL(feeds, articleURL) == feeds[i].title
  {
    ContainsPrefixOf(articleURL, feeds[k].url, BaseURL(feeds[k].url));
    var i := FindFirst(feeds, (f: Opml.FeedEntry) => ServesArticle(articleURL, f)).value;
    assert i <= k;
  }

  // ---------------------------------------------------------------------------
  // runRiffle: the article loop, the feeds without updates and the overall selection

  /** The scores of the articles that analyse without error, in order. */
  function ScoresOf(interests: seq<string>, articles: seq<Article>, parse: string -> Result<Document>): seq<ArticleScore>
    decreases |articles|
  {
    if |articles| == 0 then []
    else
      var rest := ScoresOf(interests, articles[..|articles| - 1], parse);
      match Analyze(interests, articles[|articles| - 1], parse)
      case Err(_) => rest
      case Ok(s) => rest + [s]
  }

  /** The scores of every feed's recent articles, feed by feed; feeds whose fetch failed add none. */
  function AllScores(feeds: seq<Opml.FeedEntry>, fetch: string -> FeedFetch, now: Time, n: nat,
                     interests: seq<string>, parse: string -> Result<Document>): seq<ArticleScore>
    decreases |feeds|
  {
    if |feeds| == 0 then []
    else
      AllScores(feeds[..|feeds| - 1], fetch, now, n, interests, parse)
      + FeedScores(feeds[|feeds| - 1], fetch, now, n, interests, parse)
  }

  /** The scores of one feed's recent articles; none when its fetch failed. */
  function FeedScores(feed: Opml.FeedEntry, fetch: string -> FeedFetch, now: Time, n: nat,
                      interests: seq<string>, parse: string -> Result<Document>): seq<ArticleScore> {
    match LatestArticles(fetch(feed.url), now, n)
    case Err(_) => []
    case Ok(articles) => ScoresOf(interests, articles, parse)
  }

  /** A feed without updates: it was fetched and parsed but has no article of the last two days. */
  predicate Stale(fetch: string -> FeedFetch, now: Time, n: nat, feed: Opml.FeedEntry) {
    LatestArticles(fetch(feed.url), now, n) == Ok([])
  }

  function TitleOf(feed: Opml.FeedEntry): string { feed.title }

  /** The titles of the stale feeds, in feed order. */
  function NoUpdateFeeds(feeds: seq<Opml.FeedEntry>, fetch: string -> FeedFetch, now: Time, n: nat): seq<string> {
    Map(TitleOf, Filter(feeds, (f: Opml.FeedEntry) => Stale(fetch, now, n, f)))
  }

  lemma NoUpdateFeedsSnoc(feeds: seq<Opml.FeedEntry>, feed: Opml.FeedEntry, fetch: string -> FeedFetch, now: Time, n: nat)
    ensures NoUpdateFeeds(feeds + [feed], fetch, now, n)
         == NoUpdateFeeds(feeds, fetch, now, n) + (if Stale(fetch, now, n, feed) then [feed.title] else [])
  {
    var p := (f: Opml.FeedEntry) => Stale(fetch, now, n, f);
    FilterConcat(feeds, [feed], p);
    assert [feed][1..] == [];
    MapConcat(TitleOf, Filter(feeds, p), Filter([feed], p));
  }

  lemma AllScoresSnoc(feeds: seq<Opml.FeedEntry>, k: nat, fetch: string -> FeedFetch, now: Time, n: nat,
                      interests: seq<string>, parse: string -> Result<Document>)
    requires k < |feeds|
    ensures AllScores(feeds[..k + 1], fetch, now, n, interests, parse)
         == AllScores(feeds[..k], fetch, now, n, interests, parse)
            + FeedScores(feeds[k], fetch, now, n, interests, parse)
  {
    assert feeds[..k + 1][..k] == feeds[..k];
  }

  /** The scoring half of runRiffle's loop: each feed's recent articles are fetched; a failed fetch is
      skipped, a feed with none is recorded as without updates, and every article that analyses
      without error contributes its score. */
  method CollectScores(feeds: seq<Opml.FeedEntry>, fetch: string -> FeedFetch, now: Time, articleCount: nat,
                       analyzer: ContentAnalyzer, parse: string -> Result<Document>)
    returns (allScores: seq<ArticleScore>, noUpdateFeeds: seq<string>)
    ensures allScores == AllScores(feeds, fetch, now, articleCount, analyzer.interests, parse)
    ensures noUpdateFeeds == NoUpdateFeeds(feeds, fetch, now, articleCount)
  {
    allScores := [];
    noUpdateFeeds := [];
    var k := 0;
    while k < |feeds|
      invariant 0 <= k <= |feeds|
      invariant allScores == AllScores(feeds[..k], fetch, now, articleCount, analyzer.interests, parse)
      invariant noUpdateFeeds == NoUpdateFeeds(feeds[..k], fetch, now, articleCount)
    {
      var feed := feeds[k];
      assert feeds[..k + 1] == feeds[..k] + [feed];
      NoUpdateFeedsSnoc(feeds[..k], feed, fetch, now, articleCount);
      AllScoresSnoc(feeds, k, fetch, now, articleCount, analyzer.interests, parse);
      var fetched := FetchLatestArticles(fetch(feed.url), now, articleCount);
      k := k + 1;
      if fetched.Err? {
        continue;
      }
      var articles := fetched.value;
      if |articles| == 0 {
        noUpdateFeeds := noUpdateFeeds + [feed.title];
        continue;
      }
      var scores := ScoreArticles(articles, analyzer, parse);
      allScores := allScores + scores;
    }
    assert feeds[..k] == feeds;
  }

  /** The inner loop of runRiffle: analyses each article and keeps the scores of those that analyse
      without error. */
  method ScoreArticles(articles: seq<Article>, analyzer: ContentAnalyzer, parse: string -> Result<Document>)
    returns (scores: seq<ArticleScore>)
    ensures scores == ScoresOf(analyzer.interests, articles, parse)
  {
    scores := [];
    var j := 0;
    while j < |articles|
      invariant 0 <= j <= |articles|
      invariant scores == ScoresOf(analyzer.interests, articles[..j], parse)
    {
      assert articles[..j + 1][..j] == articles[..j];
      var score := analyzer.AnalyzeArticle(articles[j], parse);
      j := j + 1;
      if score.Ok? {
        scores := scores + [score.value];
      }
    }
    assert articles[..j] == articles;
  }

  /** As many scores as articles at most, each in 0..1 and for an article no older than the
      articles' common lower bound on publication time. */
  lemma {:induction false} ScoresOfSpec(interests: seq<string>, articles: seq<Article>, parse: string -> Result<Document>,
                                        cutoff: Time)
    requires forall i :: 0 <= i < |articles| ==> articles[i].publishedAt >= cutoff
    ensures |ScoresOf(interests, articles, parse)| <= |articles|
    ensures RecentAndBounded(ScoresOf(interests, articles, parse), cutoff)
    decreases |articles|
  {
    if |articles| > 0 {
      var last := articles[|articles| - 1];
      var init := articles[..|articles| - 1];
      assert forall i :: 0 <= i < |init| ==> init[i] == articles[i];
      ScoresOfSpec(interests, init, parse, cutoff);
      var rest := ScoresOf(interests, init, parse);
      var r := Analyze(interests, last, parse);
      if r.Ok? {
        ScoresBounded(interests, last, parse);
        AppendKeeps(rest, r.value, cutoff);
      }
    }
  }

  predicate RecentAndBounded(s: seq<ArticleScore>, cutoff: Time) {
    forall i :: 0 <= i < |s| ==> s[i].article.publishedAt >= cutoff && 0.0 <= s[i].score <= 1.0
  }

  lemma AppendKeeps(s: seq<ArticleScore>, x: ArticleScore, cutoff: Time)
    requires RecentAndBounded(s, cutoff)
    requires x.article.publishedAt >= cutoff && 0.0 <= x.score <= 1.0
    ensures RecentAndBounded(s + [x], cutoff)
  {
    assert forall i :: 0 <= i < |s| ==> (s + [x])[i] == s[i];
  }

  lemma ConcatKeeps(s: seq<ArticleScore>, t: seq<ArticleScore>, cutoff: Time)
    requires RecentAndBounded(s, cutoff) && RecentAndBounded(t, cutoff)
    ensures RecentAndBounded(s + t, cutoff)
  {
    forall i | 0 <= i < |s + t| ensures (s + t)[i].article.publishedAt >= cutoff && 0.0 <= (s + t)[i].score <= 1.0 {
      if i >= |s| {
        assert (s + t)[i] == t[i - |s|];
      } else {
        assert (s + t)[i] == s[i];
      }
    }
  }

  /** Every collected score lies in 0..1 and is for an article published within the last two days. */
  lemma {:induction false} AllScoresSpec(feeds: seq<Opml.FeedEntry>, fetch: string -> FeedFetch, now: Time, n: nat,
                                         interests: seq<string>, parse: string -> Result<Document>)
    ensures RecentAndBounded(AllScores(feeds, fetch, now, n, interests, parse), DaysBefore(now, RecentArticleDays))
    decreases |feeds|
  {
    if |feeds| > 0 {
      var init := feeds[..|feeds| - 1];
      var cutoff := DaysBefore(now, RecentArticleDays);
      AllScoresSpec(init, fetch, now, n, interests, parse);
      var fetched := fetch(feeds[|feeds| - 1].url);
      if fetched.Parsed? {
        var articles := LatestArticles(fetched, now, n).value;
        FetchLatestArticlesBounds(fetched.items, now, n);
        ScoresOfSpec(interests, articles, parse, cutoff);
      }
      ConcatKeeps(AllScores(init, fetch, now, n, interests, parse),
                  FeedScores(feeds[|feeds| - 1], fetch, now, n, interests, parse), cutoff);
    }
  }

  function ScoreKey(s: ArticleScore): real { s.score }

  /** The overall selection: the scores sorted highest first, of which the first `topCount` are shown. */
  function TopArticles(scores: seq<ArticleScore>, topCount: int): seq<ArticleScore> {
    Take(SortDesc(scores, ScoreKey), topCount)
  }

  /** At most max(topCount, 0) picks and all of them when they fit, highest score first, each one of
      the scores, and none lower than a score left out. */
  lemma TopArticlesSpec(scores: seq<ArticleScore>, topCount: int)
    ensures var r := TopArticles(scores, topCount);
            && |r| == (if topCount <= 0 then 0 else if topCount < |scores| then topCount else |scores|)
            && SortedDesc(r, ScoreKey)
            && (forall x :: x in r ==> x in scores)
            && (forall x, y :: x in scores && x !in r && y in r ==> y.score >= x.score)
            && (topCount >= |scores| ==> multiset(r) == multiset(scores))
  {
    var sorted := SortDesc(scores, ScoreKey);
    var r := TopArticles(scores, topCount);
    SortDescSorted(scores, ScoreKey);
    assert |sorted| == |multiset(sorted)| == |multiset(scores)| == |scores|;
    forall x | x in r ensures x in scores {
      assert x in multiset(sorted);
    }
    forall x, y | x in scores && x !in r && y in r ensures y.score >= x.score {
      assert x in multiset(scores);
      TopIsMaximal(sorted, ScoreKey, topCount, x);
    }
    if topCount >= |scores| {
      assert r == sorted;
    }
  }
}
