/** The per-item normalisation of parsed feed items, shared by the command-line fetch of recent
    articles and the server's ingestion run, and the article loop of FetchLatestArticles. */
module Feed {
  import opened Wrappers
  import opened Seqs
  import opened Records

  /** A parsed feed item as the feed parser hands it over; absent times are None. */
  datatype FeedItem = FeedItem(
    title: string,
    description: string,
    content: string,
    link: string,
    guid: string,
    published: Option<Time>,
    updated: Option<Time>,
    author: Option<string>,
    categories: seq<string>)

  /** The result of fetching and parsing one feed url. */
  datatype FeedFetch = ParseFailed(message: string) | Parsed(items: seq<FeedItem>)

  datatype Article = Article(title: string, summary: string, content: string, url: string, publishedAt: Time)

  /** FetchLatestArticles only keeps items of the last two days. */
  const RecentArticleDays: int := 2

  /** The item's time: the published time, else the updated time, else none. */
  function ItemTime(item: FeedItem): (r: Option<Time>)
    ensures item.published.Some? ==> r == item.published
    ensures item.published.None? ==> r == item.updated
  {
    if item.published.Some? then item.published else item.updated
  }

  /** The article an item yields when it is dated at or after the cutoff: the body is the content,
      else the description; the url is the link, else the GUID; the summary is the description. */
  function Normalise(item: FeedItem, cutoff: Time): (r: Option<Article>)
    ensures r.None? <==> ItemTime(item).None? || ItemTime(item).value < cutoff
    ensures r.Some? ==> r.value.publishedAt >= cutoff
  {
    match ItemTime(item)
    case None => None
    case Some(t) =>
      if t < cutoff then None
      else Some(Article(
        item.title,
        item.description,
        if item.content == "" then item.description else item.content,
        if item.link == "" then item.guid else item.link,
        t))
  }

  /** What a kept item's article holds, field by field. */
  lemma NormaliseFields(item: FeedItem, cutoff: Time)
    requires Normalise(item, cutoff).Some?
    ensures var a := Normalise(item, cutoff).value;
            && a.publishedAt == (if item.published.Some? then item.published.value else item.updated.value)
            && a.title == item.title && a.summary == item.description
            && (item.content != "" ==> a.content == item.content)
            && (item.content == "" ==> a.content == item.description)
            && (item.link != "" ==> a.url == item.link)
            && (item.link == "" ==> a.url == item.guid)
  {
  }

  /** The articles of all qualifying items, in feed order. */
  function Qualifying(items: seq<FeedItem>, cutoff: Time): (r: seq<Article>)
    decreases |items|
  {
    if |items| == 0 then []
    else
      var rest := Qualifying(items[..|items| - 1], cutoff);
      match Normalise(items[|items| - 1], cutoff)
      case None => rest
      case Some(a) => rest + [a]
  }

  /** Every qualifying article is dated at or after the cutoff, and there is one per kept item. */
  lemma {:induction false} QualifyingAfterCutoff(items: seq<FeedItem>, cutoff: Time)
    ensures forall i :: 0 <= i < |Qualifying(items, cutoff)| ==> Qualifying(items, cutoff)[i].publishedAt >= cutoff
    ensures |Qualifying(items, cutoff)| == Count(items, (it: FeedItem) => Normalise(it, cutoff).Some?)
    decreases |items|
  {
    if |items| > 0 {
      var init := items[..|items| - 1];
      QualifyingAfterCutoff(init, cutoff);
      CountSnoc(init, items[|items| - 1], (it: FeedItem) => Normalise(it, cutoff).Some?);
      assert items == init + [items[|items| - 1]];
    }
  }

  lemma {:induction false} CountSnoc<T>(s: seq<T>, x: T, p: T -> bool)
    ensures Count(s + [x], p) == Count(s, p) + (if p(x) then 1 else 0)
    decreases |s|
  {
    if |s| == 0 {
      assert s + [x] == [x];
      assert [x][1..] == [];
    } else {
      assert (s + [x])[1..] == s[1..] + [x];
      CountSnoc(s[1..], x, p);
    }
  }

  /** The articles of a leading run of items come first among the articles of all items. */
  lemma {:induction false} QualifyingPrefix(items: seq<FeedItem>, j: nat, cutoff: Time)
    requires j <= |items|
    ensures var q := Qualifying(items, cutoff);
            var p := Qualifying(items[..j], cutoff);
            |p| <= |q| && q[..|p|] == p
    decreases |items| - j
  {
    if j < |items| {
      QualifyingPrefix(items, j + 1, cutoff);
      assert items[..j + 1][..j] == items[..j];
    } else {
      assert items[..j] == items;
    }
  }

  /** What FetchLatestArticles returns for a fetch result: a parse failure gives an error and no
      articles; otherwise the qualifying articles of the last two days in feed order, capped at
      max(n, 1). A negative `n` is not a count: Go's make panics on it once the feed has parsed. */
  function LatestArticles(fetched: FeedFetch, now: Time, n: nat): Result<seq<Article>> {
    match fetched
    case ParseFailed(m) => Err("failed to parse feed: " + m)
    case Parsed(items) => Ok(Take(Qualifying(items, DaysBefore(now, RecentArticleDays)), if n == 0 then 1 else n))
  }

  /** The article loop of FetchLatestArticles: a parse failure gives an error and no articles;
      otherwise the qualifying articles of the last two days in feed order, stopping once there are
      `n` of them. The cap is checked after each append, so at least one is kept when any qualifies. */
  method FetchLatestArticles(fetched: FeedFetch, now: Time, n: nat) returns (r: Result<seq<Article>>)
    ensures r == LatestArticles(fetched, now, n)
  {
    if fetched.ParseFailed? {
      return Err("failed to parse feed: " + fetched.message);
    }
    var items := fetched.items;
    var cutoff := DaysBefore(now, RecentArticleDays);
    var cap := if n == 0 then 1 else n;
    var articles: seq<Article> := [];
    var i := 0;
    while i < |items|
      invariant 0 <= i <= |items|
      invariant articles == Qualifying(items[..i], cutoff)
      invariant |articles| < cap
    {
      var a := Normalise(items[i], cutoff);
      QualifyingStep(items, i, cutoff);
      i := i + 1;
      if a.Some? {
        articles := articles + [a.value];
        if |articles| >= cap {
          QualifyingCapped(items, i, cutoff, cap);
          return Ok(articles);
        }
      }
    }
    assert items[..i] == items;
    return Ok(articles);
  }

  /** One more item adds its article, if it has one, to the qualifying articles of the items before it. */
  lemma QualifyingStep(items: seq<FeedItem>, i: nat, cutoff: Time)
    requires i < |items|
    ensures Qualifying(items[..i + 1], cutoff)
            == Qualifying(items[..i], cutoff) + (match Normalise(items[i], cutoff) case None => [] case Some(a) => [a])
  {
    assert items[..i + 1][..i] == items[..i];
  }

  /** Once the first `j` items give exactly `cap` articles, those are the first `cap` of all. */
  lemma QualifyingCapped(items: seq<FeedItem>, j: nat, cutoff: Time, cap: int)
    requires j <= |items| && |Qualifying(items[..j], cutoff)| == cap
    ensures Take(Qualifying(items, cutoff), cap) == Qualifying(items[..j], cutoff)
  {
    QualifyingPrefix(items, j, cutoff);
  }

  /** No returned article is older than two days, there are at most max(n, 1) of them, and they are
      the leading qualifying articles in feed order; n = 0 still yields one when any item qualifies. */
  lemma FetchLatestArticlesBounds(items: seq<FeedItem>, now: Time, n: nat)
    ensures var q := Qualifying(items, DaysBefore(now, RecentArticleDays));
            var r := Take(q, if n == 0 then 1 else n);
            && (forall i :: 0 <= i < |r| ==> r[i].publishedAt >= DaysBefore(now, RecentArticleDays))
            && (n >= 1 ==> |r| <= n)
            && (n == 0 && |q| > 0 ==> |r| == 1)
            && r == q[..|r|]
  {
    QualifyingAfterCutoff(items, DaysBefore(now, RecentArticleDays));
  }
}
