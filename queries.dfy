/** The read-only queries of the storage package over the table contents: look-ups by key,
    keyset-paginated listings and keyword search. */
module Queries {
  import opened Wrappers
  import opened Text
  import opened Seqs
  import opened Records
  import opened Paging

  // ---------------------------------------------------------------------------
  // Look-ups

  function CategoryText(category: string): string { category }

  /** The category rows of a content item, as the SELECT reads them. */
  function CategoryHits(categories: seq<CategoryRow>, id: string): seq<string> {
    Map((row: CategoryRow) => row.category, Filter(categories, (row: CategoryRow) => row.contentId == id))
  }

  /** The categories stored for a content item, in the order of the (content_id, category) key the
      lookup reads them through. */
  function CategoriesOf(categories: seq<CategoryRow>, id: string): (r: seq<string>)
    ensures multiset(r) == multiset(CategoryHits(categories, id))
    ensures |r| <= |categories|
  {
    var hits := CategoryHits(categories, id);
    var r := SortAsc(hits, CategoryText);
    assert |r| == |multiset(r)| == |multiset(hits)| == |hits|;
    r
  }

  /** Over a category table without repeated rows, an item's categories come out in strictly
      ascending order, so none twice. */
  lemma CategoriesSorted(categories: seq<CategoryRow>, id: string)
    requires Distinct(categories)
    ensures SortedAsc(CategoriesOf(categories, id), CategoryText)
  {
    var p := (row: CategoryRow) => row.contentId == id;
    var rows := Filter(categories, p);
    var hits := CategoryHits(categories, id);
    FilterDistinct(categories, p);
    FilterMembers(categories, p);
    forall i, j | 0 <= i < j < |hits| ensures CategoryText(hits[i]) != CategoryText(hits[j]) {
      assert hits[i] == rows[i].category && hits[j] == rows[j].category;
      assert rows[i] != rows[j];
    }
    SortAscSorted(hits, CategoryText);
  }

  /** An item's categories are exactly those stored for it. */
  lemma CategoriesStored(categories: seq<CategoryRow>, id: string, c: string)
    ensures c in CategoriesOf(categories, id) <==> CategoryRow(id, c) in categories
  {
    var p := (row: CategoryRow) => row.contentId == id;
    var rows := Filter(categories, p);
    var hits := CategoryHits(categories, id);
    var r := CategoriesOf(categories, id);
    if c in r {
      assert c in multiset(hits);
      var i :| 0 <= i < |hits| && hits[i] == c;
      FilterMembers(categories, p);
      assert rows[i] in categories && rows[i] == CategoryRow(id, c);
    }
    if CategoryRow(id, c) in categories {
      var k :| 0 <= k < |categories| && categories[k] == CategoryRow(id, c);
      FilterKeeps(categories, p);
      assert CategoryRow(id, c) in rows;
      var i :| 0 <= i < |rows| && rows[i] == CategoryRow(id, c);
      assert hits[i] == c;
      assert c in multiset(r);
    }
  }

  /** GetContent: the row with that id and its categories, or None when there is none. */
  function GetContent(contents: seq<RSSContent>, categories: seq<CategoryRow>, id: string): (r: Option<RSSContent>)
    ensures r.None? <==> forall i :: 0 <= i < |contents| ==> contents[i].id != id
    ensures r.Some? ==> r.value.id == id && r.value.categories == CategoriesOf(categories, id)
    ensures r.Some? ==> exists i :: 0 <= i < |contents| && r.value == contents[i].(categories := CategoriesOf(categories, id))
  {
    match FindFirst(contents, (c: RSSContent) => c.id == id)
    case None => None
    case Some(i) => Some(contents[i].(categories := CategoriesOf(categories, id)))
  }

  /** GetContentByURL: the id of the first row with that link, read back with GetContent. */
  function GetContentByURL(contents: seq<RSSContent>, categories: seq<CategoryRow>, url: string): (r: Option<RSSContent>)
    ensures r.None? <==> forall i :: 0 <= i < |contents| ==> contents[i].link != url
  {
    match FindFirst(contents, (c: RSSContent) => c.link == url)
    case None => None
    case Some(i) => GetContent(contents, categories, contents[i].id)
  }

  /** Over a table with unique ids, the item found by link carries that link and its categories. */
  lemma GetContentByURLFindsLink(contents: seq<RSSContent>, categories: seq<CategoryRow>, url: string)
    requires UniqueKeys(contents, ContentIdOf)
    ensures var r := GetContentByURL(contents, categories, url);
            r.Some? ==> r.value.link == url && r.value.categories == CategoriesOf(categories, r.value.id)
  {
    var r := GetContentByURL(contents, categories, url);
    if r.Some? {
      var i := FindFirst(contents, (c: RSSContent) => c.link == url).value;
      var j :| 0 <= j < |contents| && r.value == contents[j].(categories := CategoriesOf(categories, contents[i].id));
      assert ContentIdOf(contents[j]) == ContentIdOf(contents[i]);
    }
  }

  /** GetSource: the row with that id, or None. */
  function GetSource(sources: seq<RSSSource>, id: string): (r: Option<RSSSource>)
    ensures r.None? <==> forall i :: 0 <= i < |sources| ==> sources[i].id != id
    ensures r.Some? ==> r.value.id == id && r.value in sources
  {
    match FindFirst(sources, (s: RSSSource) => s.id == id)
    case None => None
    case Some(i) => Some(sources[i])
  }

  /** GetFetchJob: the job row with its error messages in insertion order. */
  function GetFetchJob(jobs: seq<FetchJob>, jobErrors: seq<JobErrorRow>, id: string): (r: Option<FetchJob>)
    ensures r.None? <==> forall i :: 0 <= i < |jobs| ==> jobs[i].id != id
    ensures r.Some? ==> r.value.id == id
    ensures r.Some? ==> r.value.errors == Map((e: JobErrorRow) => e.message, Filter(jobErrors, (e: JobErrorRow) => e.jobId == id))
  {
    match FindFirst(jobs, (j: FetchJob) => j.id == id)
    case None => None
    case Some(i) =>
      Some(jobs[i].(errors := Map((e: JobErrorRow) => e.message, Filter(jobErrors, (e: JobErrorRow) => e.jobId == id))))
  }

  // ---------------------------------------------------------------------------
  // ListContents and ListSources

  /** The filters of ListContents; an empty source id and zero dates mean "no filter". */
  datatype ContentFilter = ContentFilter(sourceId: string, startDate: Time, endDate: Time)

  /** The WHERE clause of ListContents, both date bounds inclusive. */
  predicate MatchesFilter(f: ContentFilter, c: RSSContent) {
    && (f.sourceId == "" || c.sourceId == f.sourceId)
    && (f.startDate == ZeroTime || c.publishedAt >= f.startDate)
    && (f.endDate == ZeroTime || c.publishedAt <= f.endDate)
  }

  /** A row as the listing and search queries return it: only the seven selected columns are read. */
  function Listed(c: RSSContent): (r: RSSContent)
    ensures r.id == c.id && r.sourceId == c.sourceId && r.title == c.title && r.link == c.link
    ensures r.description == c.description && r.publishedAt == c.publishedAt && r.fetchedAt == c.fetchedAt
    ensures r.content == "" && r.updatedAt == None && r.author == "" && r.categories == []
  {
    RSSContent(c.id, c.sourceId, c.title, c.link, c.description, "", c.publishedAt, c.fetchedAt, None, "", [])
  }

  /** All matching rows, as listed, in ascending id order. */
  function MatchingContents(contents: seq<RSSContent>, f: ContentFilter): seq<RSSContent> {
    SortAsc(Map(Listed, Filter(contents, (c: RSSContent) => MatchesFilter(f, c))), ContentIdOf)
  }

  /** ListContents: one page of the matching rows after the token. */
  function ListContents(contents: seq<RSSContent>, f: ContentFilter, limit: int, token: string): Page<RSSContent> {
    Paginate(MatchingContents(contents, f), ContentIdOf, ListLimit(limit), token)
  }

  /** All sources in `ORDER BY id ASC`. */
  function SourcesById(sources: seq<RSSSource>): seq<RSSSource> {
    SortAsc(sources, SourceIdOf)
  }

  /** ListSources: one page of all sources after the token. */
  function ListSources(sources: seq<RSSSource>, limit: int, token: string): Page<RSSSource> {
    Paginate(SourcesById(sources), SourceIdOf, ListLimit(limit), token)
  }

  /** Listing keeps the ids, so unique row ids stay unique. */
  lemma ListedUniqueKeys(rows: seq<RSSContent>)
    requires UniqueKeys(rows, ContentIdOf)
    ensures UniqueKeys(Map(Listed, rows), ContentIdOf)
  {
  }

  /** Over a table with unique ids the matching rows are a strictly ascending permutation of the matches. */
  lemma MatchingContentsSorted(contents: seq<RSSContent>, f: ContentFilter)
    requires UniqueKeys(contents, ContentIdOf)
    ensures SortedAsc(MatchingContents(contents, f), ContentIdOf)
    ensures multiset(MatchingContents(contents, f))
            == multiset(Map(Listed, Filter(contents, (c: RSSContent) => MatchesFilter(f, c))))
  {
    var p := (c: RSSContent) => MatchesFilter(f, c);
    FilterUniqueKeys(contents, ContentIdOf, p);
    ListedUniqueKeys(Filter(contents, p));
    SortAscSorted(Map(Listed, Filter(contents, p)), ContentIdOf);
  }

  /** The rows after a token come from the list, follow the token, stay ascending and keep
      non-empty keys. */
  lemma AfterTokenRows<T>(sorted: seq<T>, key: T -> string, token: string)
    requires SortedAsc(sorted, key) && NonEmptyKeys(sorted, key)
    ensures SortedAsc(AfterToken(sorted, key, token), key)
    ensures NonEmptyKeys(AfterToken(sorted, key, token), key)
    ensures forall x :: x in AfterToken(sorted, key, token) ==> x in sorted && (token == "" || Less(token, key(x)))
  {
    if token != "" {
      var p := (x: T) => Less(token, key(x));
      var rest := Filter(sorted, p);
      FilterSortedAsc(sorted, key, p);
      FilterMembers(sorted, p);
      forall i | 0 <= i < |rest| ensures key(rest[i]) != "" {
        KeyOfMember(sorted, key, rest[i]);
      }
      forall x | x in rest ensures x in sorted && Less(token, key(x)) {
        var i :| 0 <= i < |rest| && rest[i] == x;
      }
    }
  }

  /** A row of a list with non-empty keys has a non-empty key. */
  lemma KeyOfMember<T>(s: seq<T>, key: T -> string, x: T)
    requires NonEmptyKeys(s, key) && x in s
    ensures key(x) != ""
  {
    var i :| 0 <= i < |s| && s[i] == x;
  }

  /** One page of a sorted list cut after an arbitrary token: at most `limit` rows, each after the token,
      ascending, and a next token that is non-empty iff more rows follow, naming the last row returned. */
  lemma PageAfterToken<T>(sorted: seq<T>, key: T -> string, limit: int, token: string)
    requires limit >= 1 && SortedAsc(sorted, key) && NonEmptyKeys(sorted, key)
    ensures Paginate(sorted, key, limit, token).items == Take(AfterToken(sorted, key, token), limit)
    ensures SortedAsc(Paginate(sorted, key, limit, token).items, key)
    ensures forall x :: x in Paginate(sorted, key, limit, token).items ==> x in sorted && (token == "" || Less(token, key(x)))
    ensures Paginate(sorted, key, limit, token).nextToken != "" <==> |AfterToken(sorted, key, token)| > limit
    ensures var page := Paginate(sorted, key, limit, token);
            page.nextToken != "" ==> page.nextToken == key(page.items[|page.items| - 1])
  {
    var rest := AfterToken(sorted, key, token);
    var page := Paginate(sorted, key, limit, token);
    assert page == PageOf(rest, key, limit);
    AfterTokenRows(sorted, key, token);
    PageOfRows(rest, key, limit);
  }

  /** Every matching row matches the filter and keeps its non-empty id. */
  lemma MatchingContentsRows(contents: seq<RSSContent>, f: ContentFilter)
    requires NonEmptyKeys(contents, ContentIdOf)
    ensures forall x :: x in MatchingContents(contents, f) ==> MatchesFilter(f, x) && x.id != ""
  {
    var all := MatchingContents(contents, f);
    var matches := Filter(contents, (c: RSSContent) => MatchesFilter(f, c));
    FilterMembers(contents, (c: RSSContent) => MatchesFilter(f, c));
    forall x | x in all ensures MatchesFilter(f, x) && x.id != "" {
      assert x in multiset(Map(Listed, matches));
      var i :| 0 <= i < |Map(Listed, matches)| && Map(Listed, matches)[i] == x;
      assert matches[i] in contents;
    }
  }

  /** The matching rows are sorted by id and have non-empty ids. */
  lemma MatchingContentsKeys(contents: seq<RSSContent>, f: ContentFilter)
    requires UniqueKeys(contents, ContentIdOf) && NonEmptyKeys(contents, ContentIdOf)
    ensures SortedAsc(MatchingContents(contents, f), ContentIdOf)
    ensures NonEmptyKeys(MatchingContents(contents, f), ContentIdOf)
  {
    var all := MatchingContents(contents, f);
    MatchingContentsSorted(contents, f);
    MatchingContentsRows(contents, f);
    forall i | 0 <= i < |all| ensures all[i].id != "" {
      assert all[i] in all;
    }
  }

  /** ListContents returns at most `limit` (50 for limit <= 0) rows, in ascending id order. */
  lemma ListContentsPage(contents: seq<RSSContent>, f: ContentFilter, limit: int, token: string)
    requires UniqueKeys(contents, ContentIdOf) && NonEmptyKeys(contents, ContentIdOf)
    ensures |ListContents(contents, f, limit, token).items| <= ListLimit(limit)
    ensures SortedAsc(ListContents(contents, f, limit, token).items, ContentIdOf)
  {
    MatchingContentsKeys(contents, f);
    PageAfterToken(MatchingContents(contents, f), ContentIdOf, ListLimit(limit), token);
  }

  /** ListContents hands back a token exactly when more matches remain after the page, and the
      token is the id of the page's last row. */
  lemma ListContentsNext(contents: seq<RSSContent>, f: ContentFilter, limit: int, token: string)
    requires UniqueKeys(contents, ContentIdOf) && NonEmptyKeys(contents, ContentIdOf)
    ensures ListContents(contents, f, limit, token).nextToken != ""
            <==> |AfterToken(MatchingContents(contents, f), ContentIdOf, token)| > ListLimit(limit)
    ensures var page := ListContents(contents, f, limit, token);
            page.nextToken != "" ==> page.nextToken == page.items[|page.items| - 1].id
  {
    var all := MatchingContents(contents, f);
    var page := ListContents(contents, f, limit, token);
    assert page == Paginate(all, ContentIdOf, ListLimit(limit), token);
    MatchingContentsKeys(contents, f);
    PageAfterToken(all, ContentIdOf, ListLimit(limit), token);
    if page.nextToken != "" {
      assert page.nextToken == ContentIdOf(page.items[|page.items| - 1]);
    }
  }

  /** Every row ListContents returns matches the filter and comes after the token. */
  lemma ListContentsMatch(contents: seq<RSSContent>, f: ContentFilter, limit: int, token: string)
    requires UniqueKeys(contents, ContentIdOf) && NonEmptyKeys(contents, ContentIdOf)
    ensures forall x :: x in ListContents(contents, f, limit, token).items ==>
              MatchesFilter(f, x) && (token == "" || Less(token, x.id))
  {
    var all := MatchingContents(contents, f);
    var items := ListContents(contents, f, limit, token).items;
    MatchingContentsKeys(contents, f);
    MatchingContentsRows(contents, f);
    PageAfterToken(all, ContentIdOf, ListLimit(limit), token);
    forall x | x in items ensures MatchesFilter(f, x) && (token == "" || Less(token, x.id)) {
      assert x in all;
    }
  }

  /** A client that starts with the empty token and follows every token handed back receives each
      matching row exactly once, in ascending id order. */
  lemma ListContentsEnumerates(contents: seq<RSSContent>, f: ContentFilter, limit: int)
    requires UniqueKeys(contents, ContentIdOf) && NonEmptyKeys(contents, ContentIdOf)
    ensures var all := MatchingContents(contents, f);
            && SortedAsc(all, ContentIdOf)
            && NonEmptyKeys(all, ContentIdOf)
            && Walk(all, ContentIdOf, ListLimit(limit), "", 0) == all
            && multiset(all) == multiset(Map(Listed, Filter(contents, (c: RSSContent) => MatchesFilter(f, c))))
  {
    MatchingContentsSorted(contents, f);
    MatchingContentsKeys(contents, f);
    FullWalk(MatchingContents(contents, f), ContentIdOf, ListLimit(limit));
  }

  /** ListSources returns at most `limit` (50 for limit <= 0) sources after the token in ascending id
      order, with a token naming the last one exactly when more remain. */
  lemma ListSourcesPage(sources: seq<RSSSource>, limit: int, token: string)
    requires UniqueKeys(sources, SourceIdOf) && NonEmptyKeys(sources, SourceIdOf)
    ensures |ListSources(sources, limit, token).items| <= ListLimit(limit)
    ensures SortedAsc(ListSources(sources, limit, token).items, SourceIdOf)
    ensures forall x :: x in ListSources(sources, limit, token).items ==> x in sources && (token == "" || Less(token, x.id))
    ensures ListSources(sources, limit, token).nextToken != ""
            <==> |AfterToken(SourcesById(sources), SourceIdOf, token)| > ListLimit(limit)
    ensures var page := ListSources(sources, limit, token);
            page.nextToken != "" ==> page.nextToken == page.items[|page.items| - 1].id
  {
    var all := SourcesById(sources);
    var page := ListSources(sources, limit, token);
    assert page == Paginate(all, SourceIdOf, ListLimit(limit), token);
    SortedSourcesKeys(sources);
    PageAfterToken(all, SourceIdOf, ListLimit(limit), token);
    if page.nextToken != "" {
      assert page.nextToken == SourceIdOf(page.items[|page.items| - 1]);
    }
  }

  /** Following the tokens from the empty token visits every source exactly once, in ascending id
      order. */
  lemma ListSourcesEnumerates(sources: seq<RSSSource>, limit: int)
    requires UniqueKeys(sources, SourceIdOf) && NonEmptyKeys(sources, SourceIdOf)
    ensures var all := SourcesById(sources);
            && SortedAsc(all, SourceIdOf) && NonEmptyKeys(all, SourceIdOf)
            && multiset(all) == multiset(sources)
            && Walk(all, SourceIdOf, ListLimit(limit), "", 0) == all
  {
    SortedSourcesKeys(sources);
    FullWalk(SourcesById(sources), SourceIdOf, ListLimit(limit));
  }

  /** Sorting keeps the sources and their ids. */
  lemma SortedSourcesKeys(sources: seq<RSSSource>)
    requires UniqueKeys(sources, SourceIdOf) && NonEmptyKeys(sources, SourceIdOf)
    ensures var all := SourcesById(sources);
            && SortedAsc(all, SourceIdOf) && NonEmptyKeys(all, SourceIdOf)
            && multiset(all) == multiset(sources)
            && (forall x :: x in all ==> x in sources)
  {
    var all := SourcesById(sources);
    SortAscSorted(sources, SourceIdOf);
    forall x | x in all ensures x in sources && x.id != "" {
      assert x in multiset(sources);
    }
  }

  // ---------------------------------------------------------------------------
  // SearchContents

  const DefaultSearchLimit: int := 50

  /** The keyword list: one keyword more than there are commas. */
  function KeywordList(keywords: string): (r: seq<string>)
    ensures |r| == Occurrences(keywords, ',') + 1
  {
    Map(TrimSpace, Split(keywords, ','))
  }

  /** The keywords are the trimmed pieces between the commas: the pieces joined with ',' give back
      the parameter, and no keyword contains a comma or starts or ends with a space. */
  lemma KeywordListPieces(keywords: string)
    ensures var r := KeywordList(keywords);
            var pieces := Split(keywords, ',');
            && Join(pieces, [',']) == keywords
            && |r| == |pieces|
            && (forall i :: 0 <= i < |r| ==> r[i] == TrimSpace(pieces[i]))
            && (forall i :: 0 <= i < |r| ==> ',' !in r[i])
            && (forall i :: 0 <= i < |r| ==> Trimmed(r[i]))
  {
    SplitJoin(keywords, ',');
    var pieces := Split(keywords, ',');
    var r := KeywordList(keywords);
    forall i | 0 <= i < |r|
      ensures ',' !in r[i]
      ensures Trimmed(r[i])
    {
      NoCommaAfterTrim(pieces[i]);
      assert r[i] == TrimSpace(pieces[i]);
    }
  }

  lemma NoCommaAfterTrim(piece: string)
    requires ',' !in piece
    ensures ',' !in TrimSpace(piece)
  {
    if ',' in TrimSpace(piece) {
      TrimSpaceWithin(piece, ',');
    }
  }

  /** SQL `field LIKE '%keyword%'`: a substring test that ignores ASCII case. */
  predicate Like(field: string, keyword: string) {
    Contains(ToLower(field), ToLower(keyword))
  }

  /** Some keyword occurs in the title, the description or the content. */
  predicate KeywordHit(keywords: seq<string>, c: RSSContent) {
    exists i :: 0 <= i < |keywords| && (Like(c.title, keywords[i]) || Like(c.description, keywords[i]) || Like(c.content, keywords[i]))
  }

  predicate SearchMatch(keywords: seq<string>, sourceId: string, c: RSSContent) {
    (sourceId == "" || c.sourceId == sourceId) && KeywordHit(keywords, c)
  }

  function PublishedKey(c: RSSContent): real { c.publishedAt as real }

  /** The rows the search's WHERE clause selects, in storage order. */
  function SearchHits(contents: seq<RSSContent>, keywords: string, sourceId: string): seq<RSSContent> {
    Filter(contents, (c: RSSContent) => SearchMatch(KeywordList(keywords), sourceId, c))
  }

  function SearchLimit(limit: int): int {
    if limit <= 0 then DefaultSearchLimit else limit
  }

  /** SearchContents: the matching rows, newest first, at most `limit` (50 for limit <= 0). */
  function SearchContents(contents: seq<RSSContent>, keywords: string, sourceId: string, limit: int): seq<RSSContent> {
    Take(SortDesc(Map(Listed, SearchHits(contents, keywords, sourceId)), PublishedKey), SearchLimit(limit))
  }

  /** Search results are newest first, there are at most `limit` (50 for limit <= 0) of them, and
      when the matches fit, every match is returned. */
  lemma SearchContentsSpec(contents: seq<RSSContent>, keywords: string, sourceId: string, limit: int)
    ensures |SearchContents(contents, keywords, sourceId, limit)| <= SearchLimit(limit)
    ensures SortedDesc(SearchContents(contents, keywords, sourceId, limit), PublishedKey)
    ensures |SearchHits(contents, keywords, sourceId)| <= SearchLimit(limit) ==>
              multiset(SearchContents(contents, keywords, sourceId, limit))
              == multiset(Map(Listed, SearchHits(contents, keywords, sourceId)))
  {
    var listed := Map(Listed, SearchHits(contents, keywords, sourceId));
    var sorted := SortDesc(listed, PublishedKey);
    SortDescSorted(listed, PublishedKey);
    TakeSortedDesc(sorted, PublishedKey, SearchLimit(limit));
    assert |sorted| == |multiset(listed)| == |listed|;
  }

  /** Under truncation the search returns the newest matches: as many as the limit allows (50 for
      limit <= 0) or as there are matches, and none older than a match left out. */
  lemma SearchContentsNewest(contents: seq<RSSContent>, keywords: string, sourceId: string, limit: int)
    ensures var n := SearchLimit(limit);
            var m := |SearchHits(contents, keywords, sourceId)|;
            |SearchContents(contents, keywords, sourceId, limit)| == if n < m then n else m
    ensures var r := SearchContents(contents, keywords, sourceId, limit);
            forall x, y :: x in Map(Listed, SearchHits(contents, keywords, sourceId)) && x !in r && y in r ==>
              y.publishedAt >= x.publishedAt
  {
    var listed := Map(Listed, SearchHits(contents, keywords, sourceId));
    var r := SearchContents(contents, keywords, sourceId, limit);
    assert r == Take(SortDesc(listed, PublishedKey), SearchLimit(limit));
    TopSelection(listed, PublishedKey, SearchLimit(limit));
    forall x, y | x in listed && x !in r && y in r ensures y.publishedAt >= x.publishedAt {
      assert PublishedKey(y) >= PublishedKey(x);
    }
  }

  /** Each search result is the listing of a row that passes the search's WHERE clause: from the
      requested source when one is given, and containing a keyword in its title, description or content. */
  lemma SearchResultsMatch(contents: seq<RSSContent>, keywords: string, sourceId: string, limit: int)
    ensures var r := SearchContents(contents, keywords, sourceId, limit);
            forall i :: 0 <= i < |r| ==>
              exists c :: c in contents && r[i] == Listed(c) && SearchMatch(KeywordList(keywords), sourceId, c)
  {
    var r := SearchContents(contents, keywords, sourceId, limit);
    forall i: int | 0 <= i < |r|
      ensures exists c :: c in contents && r[i] == Listed(c) && SearchMatch(KeywordList(keywords), sourceId, c)
    {
      var c := SearchResultFrom(contents, keywords, sourceId, limit, i);
      assert c in contents && r[i] == Listed(c) && SearchMatch(KeywordList(keywords), sourceId, c);
    }
    assert forall i :: 0 <= i < |r| ==> exists c :: c in contents && r[i] == Listed(c) && SearchMatch(KeywordList(keywords), sourceId, c);
  }

  /** The stored row behind the search result at position `i`. */
  lemma SearchResultFrom(contents: seq<RSSContent>, keywords: string, sourceId: string, limit: int, i: nat) returns (c: RSSContent)
    requires i < |SearchContents(contents, keywords, sourceId, limit)|
    ensures c in contents && SearchMatch(KeywordList(keywords), sourceId, c)
    ensures SearchContents(contents, keywords, sourceId, limit)[i] == Listed(c)
  {
    var p := (c: RSSContent) => SearchMatch(KeywordList(keywords), sourceId, c);
    assert SearchContents(contents, keywords, sourceId, limit)
           == Take(SortDesc(Map(Listed, Filter(contents, p)), PublishedKey), SearchLimit(limit));
    c := TopFrom(Listed, contents, p, PublishedKey, SearchLimit(limit), i);
  }

  /** An empty keyword piece (an empty or blank keyword string, or ",," inside it) matches every item. */
  lemma EmptyKeywordMatchesAll(keywords: string, k: nat, c: RSSContent)
    requires k < |KeywordList(keywords)| && KeywordList(keywords)[k] == ""
    ensures KeywordHit(KeywordList(keywords), c)
  {
    ContainsEmpty(ToLower(c.title));
  }
}
