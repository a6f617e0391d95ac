# riffle, modelled in Dafny

riffle is an RSS reader with two faces:

- A command-line tool. It reads an OPML subscription list, fetches the last two days of articles from every feed and scores each article. The score blends the match against the user's interests with a content-quality measure: a length bucket, the share of a fixed vocabulary of "valuable" terms and the share of external links. The tool then lists the best articles with a reason for each pick.
- A small HTTP server over a SQLite store. It holds sources, content items with their categories, fetch jobs with their error messages, and recommendation feedback. A fetch request creates a job and runs a background ingestion. The ingestion reads each source's feed, stores the new items, stamps the source as fetched and closes the job with a status. The server also answers keyset-paginated listings, keyword searches and recommendations ranked by recency and the user's average rating of each source. Requests pass a per-client token bucket and a CORS check.

This project models those behaviours and proves what they promise.

- **Store.** `Storage.SQLiteDB` is a class whose tables are sequences of rows in insertion order. Its methods change those tables as the SQL does.
- **Read-only queries.** These are functions over the tables: look-ups, listing, search, the ranking, and the user's feedback history.
- **Pagination.** The keyset pagination shared by both listings is proved to enumerate every row exactly once when a client follows the tokens.
- **Ingestion run.** This is one sequential method over the store. Its loops over sources and items are proved against functions that give the tables and the error list a run leaves, item by item and source by source. From those follow the job's status trace, the count of stored rows, links checked before insert, which sources are stamped, where each reported error comes from, and when a run ends completed.
- **Scorer.** The scorer's arithmetic uses exact `real`s. It is proved bounded and checked on a worked example.
- **Feed normalisation.** The OPML flattening and the per-item normalisation of feeds are functions. The article loop of `FetchLatestArticles` is a method proved against them.
- **Handlers and middleware.** The request checks of the handlers, the token bucket, CORS and the server options are also modelled.

Inputs that stand in for the outside world:

- **Feeds and documents.** A fetched feed is a `FeedFetch`: the parsed items, or a parse failure. An OPML file is an `OpmlFile`: the decoded outline tree, or a read or decode failure. An article's body is passed through a `parse` function that yields its text and the `href` of each anchor.
- **Clock and ids.** The clock is an integer `now`, in seconds. Fresh ids come from an id parameter or an id oracle.
- **Engine errors.** The engine errors the Go code branches on are explicit fault inputs.

## Model

| member | source | states |
|---|---|---|
| Storage.SQLiteDB.constructor | pkg/serving/storage/sqlite.go:59-155 | A new store has empty tables and meets the key and UNIQUE constraints. |
| Storage.SQLiteDB.CreateContent | pkg/serving/storage/contents.go:59-107 | The id is generated only when missing, and fetched_at is set only when zero. The row and all its category rows are stored together, or, if the id is taken or a category repeats, nothing is stored and the error names the failed insert. Other tables are unchanged. |
| Storage.SQLiteDB.InsertCategories | pkg/serving/storage/contents.go:91-100 | The category loop stages one row per category, in order. It fails exactly when a (content_id, category) key is already stored or repeated. |
| Storage.SQLiteDB.UpdateContent | pkg/serving/storage/contents.go:179-238 | An unknown id is not found and changes nothing. Otherwise title, description, content and updated_at are overwritten, the whole category set is replaced, and id, source, link, times and author are kept. A repeated category rolls the whole update back. |
| Storage.SQLiteDB.StageCategories | pkg/serving/storage/contents.go:221-230 | When only other items' categories remain, the re-insert fails exactly when a category is repeated in the input. Otherwise it stages one row per category. |
| Storage.ReplacedCategoriesDistinct | pkg/serving/storage/contents.go:213-230 | Other items' category rows followed by fresh rows for the updated item never repeat a key. |
| Storage.SQLiteDB.DeleteContent | pkg/serving/storage/contents.go:241-258 | An unknown id succeeds with no change. An engine error changes nothing and is returned. Otherwise the row is removed and its categories stay: no cascade without foreign keys. |
| Storage.SQLiteDB.DeleteContentReported | pkg/serving/storage/contents.go:346-357 | One batch step. The table takes one delete step: unchanged when the DELETE fails, else without the id. Exactly one error, with type DeleteError, is appended when the id was stored and its DELETE fails. An id that is not stored counts as deleted. |
| Storage.SQLiteDB.BatchDeleteContents | pkg/serving/storage/contents.go:339-360 | The table is the rows left after the deletes in input order, and the errors are exactly one per stored id whose DELETE fails, in input order. deletedCount + number of errors = number of ids, only existing rows remain, every remaining row asked for is named by an error, and with no engine error nothing is reported. |
| Storage.Without | pkg/serving/storage/contents.go:248-249 | A successful DELETE keeps exactly the rows with another key. |
| Storage.DeleteStep | pkg/serving/storage/contents.go:248-255 | A DELETE that fails keeps the table; one that succeeds keeps exactly the rows with another key. |
| Storage.DeleteFailures | pkg/serving/storage/contents.go:346-357 | At most one error per id. Each names an id asked for that is stored and whose DELETE fails, with type DeleteError and the engine message. |
| Storage.AfterDeletesMembers | pkg/serving/storage/contents.go:339-360 | A row survives a batch exactly when its key was not asked for or its DELETE fails. |
| Storage.StoredWhileFailing | pkg/serving/storage/contents.go:346-357 | An id whose DELETE fails is stored after any part of the batch exactly when it was stored before. |
| Storage.BatchDeleteStep | pkg/serving/storage/contents.go:346-357 | One more id takes the table one delete step further, and adds an error exactly when the id is still stored and its DELETE fails. |
| Storage.DeleteFailuresNames | pkg/serving/storage/contents.go:346-357 | Every id asked for that is stored and whose DELETE fails is named by an error. |
| Storage.BatchDeleteReported | pkg/serving/storage/contents.go:339-360 | A batch never adds rows, every remaining row asked for is named by an error, and with no engine error nothing is reported. |
| Storage.DeleteFailuresNone | pkg/serving/storage/contents.go:346-357 | With no engine error for any id asked for, no error is reported. |
| Storage.SQLiteDB.CreateFetchJob | pkg/serving/storage/contents.go:363-388 | The job is stored as pending with 0 items, the given scope and days, the start time and no errors. A taken id fails and stores nothing. |
| Storage.SQLiteDB.UpdateFetchJobStatus | pkg/serving/storage/contents.go:453-500 | Status and count of the job with that id are overwritten, and completed_at is set only for completed or failed. An error row is appended exactly when the message is non-empty, even for an unknown id. |
| Storage.SQLiteDB.CreateSource | pkg/serving/storage/sources.go:67-91 | It succeeds exactly when neither the id nor the url is taken. On success it returns created_at = updated_at = now with no last-fetched time. On failure nothing is stored. The result is `CreateOutcome` of the table before the call, which the batch specification reuses. |
| Storage.SQLiteDB.UpdateSource | pkg/serving/storage/sources.go:126-155 | An unknown id is not found and changes nothing. Otherwise name, url, description and updated_at are overwritten, keeping created_at and last_fetched_at. A url used by another source fails and changes nothing. |
| Storage.SQLiteDB.DeleteSource | pkg/serving/storage/sources.go:158-175 | An unknown id succeeds with no change. Otherwise the row is removed unless the engine fails, and content rows are kept. |
| Storage.SQLiteDB.DeleteSourceReported | pkg/serving/storage/sources.go:281-291 | One batch step. The table takes one delete step: unchanged when the DELETE fails, else without the id. Exactly one error is appended when the source was stored and its DELETE fails. An unknown id counts as deleted. |
| Storage.SQLiteDB.BatchCreateSources | pkg/serving/storage/sources.go:249-270 | `created` is `Created` and `errors` is `CreateFailures` of the table before the batch: each input in turn is offered to CreateSource against the table as the earlier inputs left it. The table becomes the old table followed by `created`. created + errors = inputs, errors carry increasing input indices and type CreateError, and each created source has created_at = updated_at = now. |
| Storage.SQLiteDB.CreateNext | pkg/serving/storage/sources.go:256-267 | One loop step. The next input's outcome extends `Created` or `CreateFailures` by exactly that input, and only the sources table changes. |
| Storage.BatchCreateStep | pkg/serving/storage/sources.go:256-267 | One more input adds its source to `Created` when CreateSource would succeed on the table so far, and otherwise adds one CreateError with that input's index and the create error's message. |
| Storage.CreateTally | pkg/serving/storage/sources.go:256-267 | Every input is either created or reported, and each created source is stamped now with no last-fetched time. |
| Storage.CreateFailuresShape | pkg/serving/storage/sources.go:258-263 | Errors name input indices in increasing order, with type CreateError, no source id, and a message saying that the id or the url is taken. |
| Storage.FreshAfter | pkg/serving/storage/sources.go:67-90 | An input whose id and url clash with no stored source creates exactly the source built from it. |
| Storage.BatchCreateFresh | pkg/serving/storage/sources.go:249-270 | With generated ids that are fresh and distinct and urls that are unused and distinct, no error is reported and `created` is exactly `NewSources`: input k becomes a source with id uuid(k) and input k's fields, stamped now. |
| Storage.SQLiteDB.BatchDeleteSources | pkg/serving/storage/sources.go:274-295 | The table is the sources left after the deletes in input order, and the errors are exactly one per stored id whose DELETE fails, in input order. deletedCount + number of errors = number of ids, every remaining source asked for is named by an error, and with no engine error nothing is reported. |
| Storage.SQLiteDB.UpdateSourceLastFetchedAt | pkg/serving/storage/sources.go:298-307 | Only last_fetched_at of the source with that id changes. An unknown id changes nothing. |
| Storage.SQLiteDB.CreateRecommendationFeedback | pkg/serving/storage/recommendations.go:42-80 | A rating outside 1..5 is rejected before the content look-up, and feedback on unknown content is rejected. Both rejections store nothing. Otherwise one row echoing contentId, userId, rating and comment is appended. |
| Queries.GetContent | pkg/serving/storage/contents.go:110-176 | None exactly when no row has the id. Otherwise it returns that stored row with the categories stored for it. |
| Queries.CategoriesStored | pkg/serving/storage/contents.go:151-154 | A category is returned for an item exactly when a (content_id, category) row holds it. |
| Queries.CategoriesSorted | pkg/serving/storage/sqlite.go:98-103 | Over a table with its primary key, the categories come back in ascending order. |
| Queries.GetContentByURL | pkg/serving/storage/contents.go:503-513 | None exactly when no row has that link. |
| Queries.GetContentByURLFindsLink | pkg/serving/storage/contents.go:503-513 | Over unique ids, the item found carries the requested link and its own categories. |
| Queries.GetSource | pkg/serving/storage/sources.go:94-123 | None exactly when no source has the id. Otherwise it returns a stored source with that id. |
| Queries.GetFetchJob | pkg/serving/storage/contents.go:391-450 | None exactly when no job has the id. Otherwise it returns the job with its error messages in insertion order. |
| Queries.Listed | pkg/serving/storage/contents.go:268-270 | A listed row keeps exactly the seven selected columns. Content, author, updated_at and categories are empty. |
| Queries.MatchingContentsSorted | pkg/serving/storage/contents.go:267-295 | Over unique ids, the matching rows are in strictly ascending id order and are a permutation of the listed matches. |
| Queries.MatchingContentsRows | pkg/serving/storage/contents.go:276-287 | Every matching row passes the source and inclusive date filters. |
| Queries.AfterTokenRows | pkg/serving/storage/contents.go:288-291 | The rows after a token come from the list, have ids greater than the token, and stay ascending. |
| Queries.PageAfterToken | pkg/serving/storage/contents.go:293-333 | A page is the first limit rows after the token, ascending. The token is non-empty exactly when more rows remain, and then it is the last returned id. |
| Queries.ListContentsPage | pkg/serving/storage/contents.go:261-336 | At most limit rows, or 50 when limit <= 0, in ascending id order. |
| Queries.ListContentsNext | pkg/serving/storage/contents.go:328-333 | The next token is non-empty exactly when more matches remain, and it then equals the last returned id. |
| Queries.ListContentsMatch | pkg/serving/storage/contents.go:276-291 | Every returned row passes the filters and has an id greater than the token. |
| Queries.ListContentsEnumerates | pkg/serving/storage/contents.go:288-295 | Following the tokens from the empty token returns every matching row exactly once, in ascending id order. |
| Queries.ListSourcesPage | pkg/serving/storage/sources.go:178-247 | At most limit sources, or 50 when limit <= 0, stored and after the token, ascending. The token is non-empty exactly when more remain, and it is then the last returned id. |
| Queries.ListSourcesEnumerates | pkg/serving/storage/sources.go:178-247 | Following the tokens from the empty token returns every source exactly once, in ascending id order. |
| Queries.KeywordList | pkg/serving/storage/contents.go:522-526 | One piece per comma plus one, so the list is never empty. |
| Queries.KeywordListPieces | pkg/serving/storage/contents.go:522-526 | The pieces split on ',' join back to the keywords. Each keyword is its piece trimmed, has no comma and no space at either end. |
| Text.SplitJoin | pkg/serving/storage/contents.go:523 | Joining the pieces of a split with the separator gives back the string. |
| Text.TrimSpaceWithin | pkg/serving/storage/contents.go:525 | Trimming only removes characters: every character of the result is in the input. |
| Text.TrimSpace | pkg/serving/storage/contents.go:525 | The result has no space at either end. |
| Queries.SearchContentsSpec | pkg/serving/storage/contents.go:516-558 | At most limit results, or 50 when limit <= 0, newest first. When all hits fit, they are all returned. |
| Queries.SearchContentsNewest | pkg/serving/storage/contents.go:555-558 | Exactly min(limit, hits) results, and no hit left out is newer than a returned one. |
| Queries.SearchResultsMatch | pkg/serving/storage/contents.go:536-554 | Every result is the listing of a stored row that passes the source filter and has a keyword in its title, description or content. |
| Queries.SearchResultFrom | pkg/serving/storage/contents.go:536-554 | Gives the stored matching row behind the result at a given position. |
| Queries.EmptyKeywordMatchesAll | pkg/serving/storage/contents.go:543-552 | An empty keyword piece (LIKE '%%') matches every row. |
| Paging.ListLimit | pkg/serving/storage/contents.go:262-265 | A limit <= 0 becomes 50, and a positive limit is kept. |
| Paging.PageOfShape | pkg/serving/storage/contents.go:328-333 | Fetching limit+1 rows and trimming gives the first limit rows. A token is set only when there was an extra row, and it is the key of the last row kept. |
| Paging.PageOfRows | pkg/serving/storage/contents.go:328-333 | A page cut from ascending rows is an ascending prefix. Its token is set exactly when rows remain and is the last row's key. |
| Paging.AfterTokenAt | pkg/serving/storage/contents.go:288-291 | The token of the k-th row skips exactly the first k+1 rows. |
| Paging.AfterTokenAfter | pkg/serving/storage/contents.go:288-291 | The token held after receiving m rows selects exactly the remaining rows. |
| Paging.PageAt | pkg/serving/storage/contents.go:288-333 | After m rows the next page holds the next limit rows, with a token exactly when more remain. |
| Paging.PageShape | pkg/serving/storage/contents.go:288-333 | A page holds at most limit rows, all after the token, strictly ascending. |
| Paging.PageStep | pkg/serving/storage/contents.go:288-333 | When more than limit rows remain, the page is the next limit rows and the token of the last of them. |
| Paging.PageLast | pkg/serving/storage/contents.go:328-335 | When at most limit rows remain, the page is all of them and no token. |
| Paging.ServedAll | pkg/serving/storage/contents.go:288-335 | Over sorted rows with non-empty keys, every page a walk requests is answered as PageStep and PageLast say. |
| Paging.FollowAll | pkg/serving/storage/contents.go:288-335 | Following the tokens of pages served that way collects the remaining rows exactly once, in order. |
| Paging.FullWalk | pkg/serving/storage/contents.go:288-335 | From the empty token, a client collects every row exactly once, in ascending order. |
| Ranking.AverageRating | pkg/serving/storage/recommendations.go:104-118 | NULL exactly when the user rated no item of the source: no feedback row of that user joins a content row of that source. |
| Ranking.JoinCountZero | pkg/serving/storage/recommendations.go:104-117 | The group of a source is empty exactly when no feedback row of the user joins one of its items. |
| Ranking.JoinWeightPositive | pkg/serving/storage/recommendations.go:110-115 | A feedback row counts for a source exactly when it joins one of the source's items. |
| Ranking.JoinSumBounds | pkg/serving/storage/recommendations.go:104-117 | With ratings in 1..5, the group's rating sum lies between its count and five times its count. |
| Ranking.AverageRatingBounds | pkg/serving/storage/recommendations.go:104-118 | With ratings in 1..5, an average, when there is one, lies in 1..5. |
| Ranking.GetRecommendationsSpec | pkg/serving/storage/recommendations.go:83-143 | At most limit results, or 10 when limit <= 0, in non-increasing score order. When the eligible items fit, all of them appear. |
| Ranking.GetRecommendationsBest | pkg/serving/storage/recommendations.go:119-143 | Exactly min(limit, eligible) results, and no eligible item left out scores higher than a returned one. |
| Ranking.RecommendationsFrom | pkg/serving/storage/recommendations.go:95-140 | Every result is the scored form of a stored item published in the last 7 days, from a requested source when sources are given, and not rated by a non-empty user. |
| Ranking.RecommendationFrom | pkg/serving/storage/recommendations.go:119-140 | Gives the eligible stored item behind the result at a given position. |
| Ranking.RatedItemsExcluded | pkg/serving/storage/recommendations.go:133-140 | Over unique ids, an item the user rated is never recommended to that user. |
| Ranking.ScoredBounds | pkg/serving/storage/recommendations.go:98-101 | The score 0.7·average + 0.3·recency, or recency alone, lies in 0..3.8 for an item of the last 7 days with ratings in 1..5. |
| Ranking.ScoreBounds | pkg/serving/storage/recommendations.go:95-143 | With ratings in 1..5 and no item from the future, every recommended score lies in 0..3.8. |
| Ranking.GetUserFeedbackSpec | pkg/serving/storage/recommendations.go:188-232 | The history holds only the user's feedback, all of it, newest first. |
| Ranking.CreatePlaceholders | pkg/serving/storage/recommendations.go:235-245 | "" for count <= 0. Otherwise count '?'s separated by ',', of length 2·count − 1. |
| Ingestion.Resolve | pkg/serving/api/handlers/contents.go:225-240 | A storage error fails resolution. A named source missing from the store is the nil-dereference case, exactly. |
| Ingestion.ResolveAllIsFirstPage | pkg/serving/api/handlers/contents.go:233-239 | A job without a source covers only the first 50 sources by id. |
| Ingestion.ResolveOne | pkg/serving/api/handlers/contents.go:225-232 | A job naming a stored source covers exactly that source. |
| Ingestion.ProcessItem | pkg/serving/api/handlers/contents.go:264-327 | The outcome and the new tables are ItemResult and ItemTables. An item is skipped exactly when it is undated, older than the cutoff, or its link is stored and the look-up succeeded. A stored row has the source, the date, the fetch time and a link new to the table. A failed insert stores nothing and yields one message naming the url. |
| Ingestion.ProcessFeed | pkg/serving/api/handlers/contents.go:264-328 | The new tables are FeedTables, the added errors are the failures of FeedOutcomes in item order, and stored counts the stored items, so stored + errors = items not skipped. Stored rows are all from this source, dated on or after the cutoff and fetched now. |
| Ingestion.ProcessFeedItem | pkg/serving/api/handlers/contents.go:264-327 | One iteration of the item loop keeps the loop's facts for one more item. |
| Ingestion.FeedOutcomeAt | pkg/serving/api/handlers/contents.go:264-328 | Item j's outcome is decided against the tables the items before it left. |
| Ingestion.Failures | pkg/serving/api/handlers/contents.go:321-324 | No message exactly when no insert failed, and every message is that of a failed insert. |
| Ingestion.FeedTally | pkg/serving/api/handlers/contents.go:264-328 | Every item is stored, failed or skipped: the three counts add up to the items. |
| Ingestion.AppendChecked | pkg/serving/api/handlers/contents.go:292-297 | Appending a row whose link was looked up and found new keeps the appended links distinct. |
| Ingestion.LinksCheckedExtend | pkg/serving/api/handlers/contents.go:292-297 | Links checked over two consecutive stretches of rows are checked over both. |
| Ingestion.ProcessSource | pkg/serving/api/handlers/contents.go:256-334 | The new tables and added errors are SourceTables and SourceErrors. A parse failure adds one error and changes nothing. A parsed feed has its items processed and the source stamped as fetched, even with nothing stored, unless the stamp fails, which adds one error. |
| Ingestion.StampStep | pkg/serving/api/handlers/contents.go:330-334 | Stamping sources one after another stamps each touched source. |
| Ingestion.ProcessTargets | pkg/serving/api/handlers/contents.go:253-335 | The tables and errors are RunTables and RunErrors. Stored rows come from the targets, dated on or after the cutoff. Exactly the touched sources are stamped, and every parse failure and failed stamp is reported. |
| Ingestion.ProcessTarget | pkg/serving/api/handlers/contents.go:253-335 | One iteration of the source loop keeps the loop's facts for one more target. |
| Ingestion.SourceRowsStep | pkg/serving/api/handlers/contents.go:253-328 | The rows stored for one source join the rows stored so far. |
| Ingestion.JobUpdatesKeepScope | pkg/serving/storage/contents.go:453-500 | A status update changes only the status columns of the job with that id. |
| Ingestion.RunTargets | pkg/serving/api/handlers/contents.go:242-353 | The tables and errors are RunTables and RunErrors, and the job ends completed exactly when the run is clean. The trace is in-progress then the final status. The errors are "; "-joined into one error row, and itemsProcessed equals the number of rows stored. |
| Ingestion.FinishJob | pkg/serving/api/handlers/contents.go:337-353 | completed when no error was collected, else completed_with_errors, with the "; "-joined message. Only the job's status columns and its error rows change. |
| Ingestion.RunErrorsEmpty | pkg/serving/api/handlers/contents.go:253-341 | A run reports nothing exactly when it is clean: every feed parses, every stamp succeeds and every insert succeeds. |
| Ingestion.CleanRunEvery | pkg/serving/api/handlers/contents.go:253-335 | A clean run is one where each source is clean against the tables the sources before it left. |
| Ingestion.RunErrorsExplained | pkg/serving/api/handlers/contents.go:258-334 | Every reported error is a parse failure, a failed stamp, or a failed insert of a dated item of some target. |
| Ingestion.ItemKeepsFree | pkg/serving/api/handlers/contents.go:321 | Storing an item under a fresh id leaves every other unused id unused. |
| Ingestion.FeedKeepsFree | pkg/serving/api/handlers/contents.go:264-328 | A feed stored under fresh ids leaves every unused id outside those unused. |
| Ingestion.FeedStoresWhenFree | pkg/serving/api/handlers/contents.go:321-324 | With distinct unused ids and no repeated category in an item, no insert of a feed fails. |
| Ingestion.RunKeepsFree | pkg/serving/api/handlers/contents.go:253-335 | A run leaves every id it did not hand out unused. |
| Ingestion.CleanRunWhenFresh | pkg/serving/api/handlers/contents.go:253-341 | When every feed parses, every stamp succeeds, the ids are fresh and distinct and no item repeats a category, the run is clean and so the job ends completed. |
| Ingestion.Run | pkg/serving/api/handlers/contents.go:216-354 | An unknown named source panics and changes nothing. A resolution error gives the trace failed with 0 items and one message, and no in-progress. Otherwise the targets are the resolved sources, the tables and errors are RunTables and RunErrors, and the job ends completed exactly when the run is clean. Only the job's status columns change. |
| Ingestion.FetchContents | pkg/serving/api/handlers/contents.go:195-216 | days <= 0 becomes 7. It replies 202 with the job id and "pending" exactly when the job can be created. The status trace is pending followed by RunTrace of the run. The run panics exactly when the named source is missing and fails exactly when the scope cannot be resolved, with that error stored. Otherwise it finishes over the resolved targets: the tables equal `RunTables`, the collected errors equal `RunErrors` and are stored as one "; "-joined row, the status is completed exactly when `CleanRun` holds, and the sources are stamped. A 500 runs nothing. |
| Handlers.SourceIdsParam | pkg/serving/api/handlers/recommendations.go:30-38 | No filter when the first value is missing or empty. Otherwise only non-empty values, each taken whole. |
| Handlers.SourceIdsKept | pkg/serving/api/handlers/recommendations.go:30-38 | With the first value set, every non-empty value is kept, in order, and only the empty ones are dropped. |
| Handlers.RecommendationsQuery | pkg/serving/api/handlers/recommendations.go:26-45 | The storage query takes the user, the source filter, and Atoi of the limit parameter (default "10"). |
| Handlers.GetRecommendations | pkg/serving/api/handlers/recommendations.go:24-59 | A storage failure is a 500 with its message. Otherwise a 200 whose count equals the number of recommendations listed. |
| Handlers.DefaultLimit | pkg/serving/api/handlers/recommendations.go:27 | An absent limit, or one that reads as <= 0, becomes the default 10, and the reply then counts exactly min(10, eligible items). |
| Handlers.AtoiTen | pkg/serving/api/handlers/recommendations.go:27 | The default "10" reads as 10. |
| Handlers.FeedbackProblem | pkg/serving/api/handlers/recommendations.go:65-91 | A body passes exactly when it decodes, has contentId and userId, and has a rating in 1..5. |
| Handlers.SubmitFeedback | pkg/serving/api/handlers/recommendations.go:62-103 | Bad body, missing contentId, missing userId and bad rating are 400s, in that order, storing nothing. Unknown content is a 500. Success is a 201 with the stored record. |
| Handlers.SearchContents | pkg/serving/api/handlers/contents.go:384-412 | An empty keywords parameter is a 400, a storage failure a 500. Otherwise a 200 with the matches for Atoi(limit, default "50") and their count. |
| Strconv.Atoi | pkg/serving/api/handlers/recommendations.go:27 | The limit read with its error ignored is an int64, and 0 for an empty string. |
| Strconv.AtoiNonNumeric | pkg/serving/api/handlers/recommendations.go:27 | A value that does not start with a digit, or a bare sign, reads as 0. |
| Strconv.FormatIntRoundTrip | pkg/serving/api/middleware/middleware.go:103 | Every int64 written with %d reads back unchanged. |
| Middleware.Entry | pkg/serving/api/middleware/middleware.go:82-89 | A client seen for the first time starts with rps tokens. |
| Middleware.Refill | pkg/serving/api/middleware/middleware.go:91-98 | A refill caps the tokens at rps. The refill time moves only when at least one token is added. |
| Middleware.StepSpec | pkg/serving/api/middleware/middleware.go:91-109 | A request is refused exactly when the refilled bucket is empty, and an accepted request costs one token. With 0 <= tokens <= rps before, the bound still holds after. |
| Middleware.BurstBound | pkg/serving/api/middleware/middleware.go:101-109 | Without a refill, k back-to-back requests pass min(k, tokens) times. |
| Middleware.RateLimiter.constructor | pkg/serving/api/middleware/middleware.go:75 | The limiter starts with no clients. |
| Middleware.RateLimiter.Handle | pkg/serving/api/middleware/middleware.go:77-112 | Only the requesting client's bucket changes, by one step. A refusal is a 429 with the rate in the message. Every bucket stays in 0..rps. |
| Middleware.Cors | pkg/serving/api/middleware/middleware.go:124-152 | Headers are set exactly when the list has "*" or the origin, and they echo the origin. OPTIONS always ends with 204. |
| Options.NewServerOptions | pkg/serving/options.go:25-38 | The defaults: port 8080, metrics off, rate limit 100, CORS off for "*", 30 s timeouts. |
| Options.Complete | pkg/serving/options.go:55-57 | Complete never fails. |
| Options.ValidateSpec | pkg/serving/options.go:60-82 | Validation passes exactly for acceptable options, and the first failing check, in order, names the error. |
| Options.DefaultsValid | pkg/serving/options.go:25-82 | The defaults pass validation. |
| Options.ZeroPorts | pkg/serving/options.go:61-67 | Metrics port 0 and rate limit 0 are accepted, and port 0 is rejected. |
| Analyzer.InterestsSpec | pkg/riffle/analyzer.go:53-59 | The interests are non-empty trimmed lines. Every non-blank line contributes its trimmed text, and there are no more interests than lines. |
| Analyzer.ContentAnalyzer.constructor | pkg/riffle/analyzer.go:36-43 | A new analyzer has the fixed vocabulary and no interests. |
| Analyzer.ContentAnalyzer.LoadInterests | pkg/riffle/analyzer.go:53-59 | The analyzer's interests gain exactly the trimmed non-empty lines, in order. |
| Analyzer.ScanInterests | pkg/riffle/analyzer.go:53-59 | The scan loop collects exactly the trimmed non-empty lines, in order. |
| Analyzer.InterestsStep | pkg/riffle/analyzer.go:54-58 | One more scanned line adds its trimmed text exactly when that text is non-empty. |
| Analyzer.InterestsSnoc | pkg/riffle/analyzer.go:54-58 | One more line adds its trimmed text exactly when that text is non-empty. |
| Analyzer.NewContentAnalyzer | pkg/riffle/analyzer.go:35-67 | No file gives no interests. An open or scan error is returned. Otherwise the interests are the file's non-blank trimmed lines. |
| Analyzer.ContentAnalyzer.AnalyzeArticle | pkg/riffle/analyzer.go:70-104 | The result is the analysis with this analyzer's interests. A successful analysis scores in 0..1 and keeps the article. |
| Analyzer.LengthScoreMonotone | pkg/riffle/analyzer.go:138-158 | Longer text never scores lower, and every bucket lies in 0.2..1. |
| Analyzer.KeywordCount | pkg/riffle/analyzer.go:161-169 | At most the 16 vocabulary terms are counted. |
| Analyzer.MatchCount | pkg/riffle/analyzer.go:115-131 | At most one match per interest. |
| Analyzer.ScoresBounded | pkg/riffle/analyzer.go:93-96 | The interest, length, keyword and link components, the content score and the overall score all lie in 0..1. |
| Analyzer.InterestScoreBounded | pkg/riffle/analyzer.go:107-135 | The interest score lies in 0..1. |
| Analyzer.ContentScoreBounded | pkg/riffle/analyzer.go:138-195 | The length, keyword and link components each lie in 0..1, and so does the content score. |
| Analyzer.SingleInterest | pkg/riffle/analyzer.go:107-135 | A single matching interest scores 1. |
| Analyzer.WorkedExample | pkg/riffle/analyzer.go:70-104 | 2500 runes, 3 of 16 terms, 2 of 5 anchors external and one matching interest give content 0.555 and overall 0.7775. |
| Analyzer.ContentExample | pkg/riffle/analyzer.go:93 | The body of the worked example has content score 0.555. |
| Analyzer.KeywordExample | pkg/riffle/analyzer.go:172 | Three of the vocabulary terms score 3/16. |
| Analyzer.ValueKeywordsSize | pkg/riffle/analyzer.go:37-42 | The vocabulary has 16 terms. |
| Analyzer.LinkExample | pkg/riffle/analyzer.go:176-195 | Two external anchors out of five score 0.4. |
| Feed.ItemTime | pkg/riffle/feed.go:34-41 | The published time wins over the updated time. An item with neither has no date. |
| Feed.Normalise | pkg/riffle/feed.go:34-66 | An item yields an article exactly when it is dated at or after the cutoff, and then with that date. |
| Feed.NormaliseFields | pkg/riffle/feed.go:48-66 | The body is the content, else the description. The url is the link, else the GUID. The summary is the description. |
| Feed.QualifyingAfterCutoff | pkg/riffle/feed.go:43-46 | No qualifying article is older than the cutoff, and there is one per kept item. |
| Feed.QualifyingPrefix | pkg/riffle/feed.go:32-72 | The articles of leading items come first, in feed order. |
| Feed.FetchLatestArticles | pkg/riffle/feed.go:21-75 | A parse failure is an error with no articles. Otherwise the result is the qualifying articles in feed order, cut at max(n, 1) because the cap is checked after each append. |
| Feed.QualifyingStep | pkg/riffle/feed.go:32-66 | One more item adds its article, if it has one. |
| Feed.QualifyingCapped | pkg/riffle/feed.go:68-71 | Once the first items give cap articles, those are the first cap of all. |
| Feed.FetchLatestArticlesBounds | pkg/riffle/feed.go:29-71 | No article is older than two days. There are at most n for n >= 1, and one when n = 0 and any item qualifies. The articles are the leading qualifying ones. |
| Opml.EntryOf | pkg/riffle/opml.go:68-77 | The feed's url is the xmlUrl. Its title is the title attribute, else the text attribute. |
| Opml.ExtractIsPreorder | pkg/riffle/opml.go:64-85 | The feeds are exactly the outlines with an xmlUrl, in pre-order. |
| Opml.ExtractAllIsPreorder | pkg/riffle/opml.go:55-58 | Siblings' feeds are concatenated in document order, each in pre-order. |
| Opml.ExtractCount | pkg/riffle/opml.go:64-85 | There are as many feeds as outlines with an xmlUrl, at any depth, and each feed stands for one of them. |
| Opml.OwnFeedFirst | pkg/riffle/opml.go:67-82 | An outline's own feed precedes its descendants' feeds. |
| Opml.ParseOPML | pkg/riffle/opml.go:44-61 | A read or decode failure is an error with no feeds. Otherwise it returns the feeds of the top-level outlines in pre-order. |
| Cli.Reasons | cmd/riffle/app/run.go:17-36 | One or two reasons. |
| Cli.ReasonBoth | cmd/riffle/app/run.go:19-38 | With both phrases, the interest phrase comes first, then ", ", then the content phrase. |
| Cli.ReasonSpec | cmd/riffle/app/run.go:16-39 | The reason is never empty. It is the general reason exactly when both scores are below 0.5. Otherwise it starts with the interest phrase and ends with the content phrase, each picked by its 0.7 and 0.5 thresholds. |
| Cli.PhraseLengths | cmd/riffle/app/run.go:21-35 | The lengths of the five phrases. |
| Cli.BaseURL | cmd/riffle/app/run.go:152 | The base url is a prefix of the feed url. |
| Cli.GetFeedTitleByURL | cmd/riffle/app/run.go:150-158 | The result is "Unknown Source" or some feed's title. |
| Cli.FeedTitleUnknown | cmd/riffle/app/run.go:150-158 | With no feed serving the article, it is "Unknown Source". |
| Cli.FeedTitleFirst | cmd/riffle/app/run.go:150-158 | The first feed whose stripped url occurs in the article's url gives the title. |
| Cli.FeedOwnURLMatches | cmd/riffle/app/run.go:150-158 | An article under its feed's own url is attributed to that feed or an earlier match. |
| Cli.CollectScores | cmd/riffle/app/run.go:63-97 | The loop collects the scores of every parsed feed's analysable recent articles. It records the titles of the feeds that parsed with no recent article, and not those whose fetch failed. |
| Cli.ScoreArticles | cmd/riffle/app/run.go:80-94 | Keeps the scores of the articles that analyse without error, in order. |
| Cli.NoUpdateFeedsSnoc | cmd/riffle/app/run.go:70-74 | One more feed is recorded exactly when it parsed with no recent article. |
| Cli.AllScoresSnoc | cmd/riffle/app/run.go:63-97 | One more feed adds its own scores. |
| Cli.ScoresOfSpec | cmd/riffle/app/run.go:80-94 | There are no more scores than articles, and each score is in 0..1 for an article after the cutoff. |
| Cli.AllScoresSpec | cmd/riffle/app/run.go:63-97 | Every collected score lies in 0..1 and is for an article of the last two days. |
| Cli.TopArticlesSpec | cmd/riffle/app/run.go:110-117 | min(topCount, n) picks, or none for topCount <= 0, highest score first. Each pick is a score, and none is lower than a score left out. When all fit, the picks are a permutation. |

## Left out

- Feed fetching and XML/HTML decoding (gofeed, `xml.Unmarshal`, `os.ReadFile`, goquery with `html.UnescapeString`) are external libraries. Their results are inputs, and the analyzer's `parse` input stands for the HTML step.
- `AnalyzeWithPerplexity` is an HTTP client with JSON decoding and is not part of this model.
- SQL engine failures (I/O, locking, scan errors) are not modelled inside the storage methods. The constraint failures the code meets are modelled: primary keys, the UNIQUE source url and the category key. The run and the deletes take the engine errors they branch on as fault inputs.
- Foreign keys are not enforced, since the store never turns them on. So category rows outlive their item and content rows outlive their source.
- The feedback table's DDL in pkg/serving/storage/sqlite.go lacks columns that recommendations.go writes. The model stores the Go record instead.
- SQL LIKE is an ASCII case-insensitive substring test. A '%' or '_' inside a keyword is not treated as a wildcard.
- Case folding (`strings.ToLower`) covers ASCII letters only. `unicode.IsSpace` is written out for the code points it lists.
- Times are whole seconds. `AddDate(0, 0, -d)` is `now − d·86400`, so daylight-saving shifts are ignored. `JULIANDAY` differences are exact.
- Scores are exact rationals (`real`), not float64. The bounds and the worked example hold exactly; float rounding is not modelled.
- Middleware.RateLimiter.Handle: `int(elapsed · rps)` is an input `tokensToAdd`, because it is float arithmetic on the clock. A new client's creation time and the refill time are one clock reading.
- Concurrency is not modelled. The fetch goroutine is one sequential run after the reply, so overlapping jobs racing on the link check are not covered. The limiter's `clients` map is used one request at a time.
- Sorting (`ORDER BY … DESC`, `sort.Slice`) is a stable insertion sort on a sequence. Go's in-place, unstable ordering of equal scores, and SQLite's order of ties, are not modelled. The contracts speak only of the order of scores, so they hold for any tie order.
- Ranking.GetUserFeedbackSpec: feedback with equal timestamps keeps insertion order, where SQLite leaves ties unspecified.
- gin request binding, query-string parsing beyond the parameters named above, and the RFC 3339 (section 5.6) date parsing of the listing handler are left out. The fetch handler's 400 for an undecodable body is left out too.
- The HTTP plumbing is not part of this model: server.go, routes.go, the pass-through source handlers, the system and factory handlers, and the Logger and Recovery middleware. server.go installs gin-contrib/cors rather than `Cors`, which is modelled as written in middleware.go.
- The CLI wiring is not part of this model: main.go, root.go, serve.go, import_opml.go, `ServerOptions.AddFlags`, riffle.go's `Run`, and the printing in `runRiffle`. The frontend is out of scope too.
- The 64 KiB line limit of `bufio.Scanner` in `NewContentAnalyzer` surfaces only as the scan error input.
- Feed.FetchLatestArticles: `n` is a natural number. A negative `n` makes Go's `make` panic once the feed has parsed, so callers must not pass one.
- Cli.GetFeedTitleByURL: its own contract says only that the result is "Unknown Source" or some feed's title. The first-match behaviour is stated by `Cli.FeedTitleFirst` and `Cli.FeedTitleUnknown`.
- Queries.GetContent: SQL leaves the order of an item's categories unspecified. The model returns them in the order of the (content_id, category) key, ascending.
- Queries.GetFetchJob: error rows carry no timestamp, so insertion order stands in for `ORDER BY timestamp`. The two orders agree as long as the clock does not go backwards between writes.
- Analyzer.ContentAnalyzer.LoadInterests: the interests are appended once, after the scan, rather than line by line. Nothing reads them in between, and a scan error discards the analyzer.
