/** The fetch request of the content API and the background run it starts: resolve the sources,
    mark the job in progress, read each source's feed, store the new items dated on or after the
    cutoff, stamp each parsed source as fetched, and close the job with a status and an error summary.
    Feed parsing, the engine errors the run branches on and the fresh ids are inputs. */
module Ingestion {
  import opened Wrappers
  import opened Text
  import opened Seqs
  import opened Records
  import opened Feed
  import Paging
  import Queries
  import Storage

  const DefaultFetchDays: int := 7

  /** The engine errors the run's own code reacts to: the error of resolving the sources, whether
      the link lookup of an item fails, and the error of stamping a source as fetched. */
  datatype Faults = Faults(resolution: Option<string>, lookup: string -> bool, touch: string -> Option<string>)

  /** The sources a job covers, or why there are none. */
  datatype Resolution = Resolved(targets: seq<RSSSource>) | ResolveFailed(message: string) | SourceMissing

  /** How a run ends. `Panicked` is the nil dereference of a job naming an unknown source: the run
      stops there, leaving the job pending. */
  datatype RunOutcome = Panicked | JobFailed | Finished(status: JobStatus)

  datatype ItemOutcome = Skipped | Stored | StoreFailed(message: string)

  /** The 202 reply (job id and status) or the 500 reply. */
  datatype FetchReply = Accepted(jobId: string, status: string) | Failure(error: string)

  /** One named source, or the sources of the first page of ListSources with the default limit. */
  function Resolve(sources: seq<RSSSource>, sourceId: Option<string>, fault: Option<string>): (r: Resolution)
    ensures fault.Some? ==> r.ResolveFailed?
    ensures r.SourceMissing? <==> fault.None? && sourceId.Some? && Queries.GetSource(sources, sourceId.value).None?
  {
    match sourceId
    case Some(id) =>
      if fault.Some? then ResolveFailed("Failed to get source: " + fault.value)
      else (match Queries.GetSource(sources, id)
            case None => SourceMissing
            case Some(s) => Resolved([s]))
    case None =>
      if fault.Some? then ResolveFailed("Failed to list sources: " + fault.value)
      else Resolved(Queries.ListSources(sources, 0, "").items)
  }

  /** A job without a source covers only the first 50 sources in id order, not all of them. */
  lemma ResolveAllIsFirstPage(sources: seq<RSSSource>)
    ensures Resolve(sources, None, None) == Resolved(Take(SortAsc(sources, SourceIdOf), Paging.DefaultListLimit))
    ensures |Resolve(sources, None, None).targets| == if |sources| < 50 then |sources| else 50
  {
    var all := SortAsc(sources, SourceIdOf);
    Paging.PageOfShape(all, SourceIdOf, 50);
    assert |all| == |multiset(all)| == |multiset(sources)| == |sources|;
  }

  /** A job naming a stored source covers exactly that source. */
  lemma ResolveOne(sources: seq<RSSSource>, k: nat)
    requires k < |sources| && UniqueKeys(sources, SourceIdOf)
    ensures Resolve(sources, Some(sources[k].id), None) == Resolved([sources[k]])
  {
    var r := Queries.GetSource(sources, sources[k].id);
    var j :| 0 <= j < |sources| && sources[j] == r.value;
    assert SourceIdOf(sources[j]) == SourceIdOf(sources[k]);
  }

  // ---------------------------------------------------------------------------
  // Messages

  function ParseError(url: string, message: string): string {
    "Failed to parse feed " + url + ": " + message
  }

  function StoreError(url: string, message: string): string {
    "Failed to store content " + url + ": " + message
  }

  function TouchError(sourceId: string, message: string): string {
    "Failed to update source last fetched time " + sourceId + ": " + message
  }

  // ---------------------------------------------------------------------------
  // Spec functions over the run's inputs

  /** The row the run stores for a kept item of a source, before CreateContent stamps its id. */
  function NewContent(sourceId: string, a: Article, item: FeedItem, now: Time): RSSContent {
    RSSContent("", sourceId, a.title, a.url, a.summary, a.content, a.publishedAt, now, None,
               if item.author.Some? then item.author.value else "", item.categories)
  }

  predicate LinkStored(contents: seq<RSSContent>, url: string) {
    exists i :: 0 <= i < |contents| && contents[i].link == url
  }

  /** From `from` on, every row whose link lookup did not fail has a link no earlier row has:
      the check-then-insert is the only thing keeping links unique. */
  predicate LinksChecked(contents: seq<RSSContent>, from: int, lookupFails: string -> bool) {
    forall i, j :: 0 <= j < i < |contents| && from <= i && !lookupFails(contents[i].link) ==> contents[j].link != contents[i].link
  }

  lemma LinksCheckedExtend(before: seq<RSSContent>, after: seq<RSSContent>, from: int, lookupFails: string -> bool)
    requires |before| <= |after| && after[..|before|] == before
    requires LinksChecked(before, from, lookupFails) && LinksChecked(after, |before|, lookupFails)
    ensures LinksChecked(after, from, lookupFails)
  {
    forall i, j | 0 <= j < i < |after| && from <= i && !lookupFails(after[i].link)
      ensures after[j].link != after[i].link
    {
      if i < |before| {
        assert after[i] == before[i] && after[j] == before[j];
      }
    }
  }

  /** A parsed source is stamped as fetched unless stamping it fails. */
  predicate Touches(s: RSSSource, fetch: string -> FeedFetch, faults: Faults) {
    fetch(s.url).Parsed? && faults.touch(s.id).None?
  }

  /** The ids of the targets stamped as fetched, in order. */
  function TouchedIds(targets: seq<RSSSource>, fetch: string -> FeedFetch, faults: Faults): seq<string>
    decreases |targets|
  {
    if |targets| == 0 then []
    else
      var last := targets[|targets| - 1];
      TouchedIds(targets[..|targets| - 1], fetch, faults) + (if Touches(last, fetch, faults) then [last.id] else [])
  }

  function Stamp(s: RSSSource, ids: seq<string>, now: Time): (r: RSSSource) {
    if s.id in ids then s.(lastFetchedAt := Some(now)) else s
  }

  /** Only the job's scope is left alone by status updates: ids, start, days and source. */
  predicate SameJobScope(before: seq<FetchJob>, after: seq<FetchJob>) {
    && |after| == |before|
    && forall i :: 0 <= i < |before| ==>
         after[i].id == before[i].id && after[i].days == before[i].days
         && after[i].sourceId == before[i].sourceId && after[i].startedAt == before[i].startedAt
  }

  // ---------------------------------------------------------------------------
  // What the run stores and reports, item by item

  /** The two tables the run inserts into. */
  datatype Tables = Tables(contents: seq<RSSContent>, categories: seq<CategoryRow>)

  predicate IsStored(o: ItemOutcome) { o.Stored? }

  predicate IsSkipped(o: ItemOutcome) { o.Skipped? }

  /** What happens to one item against the tables as they stand: it is skipped (undated, older than
      the cutoff, or its link is stored and the lookup worked), stored under the fresh id, or its
      insert fails because the id or one of its (content_id, category) rows is taken. */
  function ItemResult(t: Tables, sourceId: string, item: FeedItem, cutoff: Time, now: Time,
                      freshId: string, lookupFails: string -> bool): ItemOutcome
  {
    match Normalise(item, cutoff)
    case None => Skipped
    case Some(a) =>
      if !lookupFails(a.url) && LinkStored(t.contents, a.url) then Skipped
      else if Storage.NoRowWithId(t.contents, freshId) && Storage.CategoriesFresh(t.categories, freshId, item.categories) then Stored
      else StoreFailed(StoreError(a.url, if Storage.NoRowWithId(t.contents, freshId) then Storage.CategoryTaken else Storage.ContentIdTaken))
  }

  /** The tables after one item: a stored item adds its row and one category row per category. */
  function ItemTables(t: Tables, sourceId: string, item: FeedItem, cutoff: Time, now: Time,
                      freshId: string, lookupFails: string -> bool): Tables
  {
    match Normalise(item, cutoff)
    case None => t
    case Some(a) =>
      if ItemResult(t, sourceId, item, cutoff, now, freshId, lookupFails).Stored? then
        Tables(t.contents + [Storage.Stamped(NewContent(sourceId, a, item, now), freshId, now).(categories := [])],
               t.categories + Storage.CategoryRows(freshId, item.categories))
      else t
  }

  /** The tables after the item loop of the k-th source; item i gets the fresh id uuid(k, i). */
  function FeedTables(t: Tables, sourceId: string, k: nat, items: seq<FeedItem>, cutoff: Time, now: Time,
                      uuid: (nat, nat) -> string, lookupFails: string -> bool): Tables
    decreases |items|
  {
    if |items| == 0 then t
    else
      var n := |items| - 1;
      ItemTables(FeedTables(t, sourceId, k, items[..n], cutoff, now, uuid, lookupFails),
                 sourceId, items[n], cutoff, now, uuid(k, n), lookupFails)
  }

  /** The outcome of each item of a feed, in item order. */
  function FeedOutcomes(t: Tables, sourceId: string, k: nat, items: seq<FeedItem>, cutoff: Time, now: Time,
                        uuid: (nat, nat) -> string, lookupFails: string -> bool): (r: seq<ItemOutcome>)
    ensures |r| == |items|
    decreases |items|
  {
    if |items| == 0 then []
    else
      var n := |items| - 1;
      FeedOutcomes(t, sourceId, k, items[..n], cutoff, now, uuid, lookupFails)
      + [ItemResult(FeedTables(t, sourceId, k, items[..n], cutoff, now, uuid, lookupFails),
                    sourceId, items[n], cutoff, now, uuid(k, n), lookupFails)]
  }

  /** Each item meets the tables the items before it left. */
  lemma {:induction false} FeedOutcomeAt(t: Tables, sourceId: string, k: nat, items: seq<FeedItem>, cutoff: Time, now: Time,
                                         uuid: (nat, nat) -> string, lookupFails: string -> bool, j: nat)
    requires j < |items|
    ensures FeedOutcomes(t, sourceId, k, items, cutoff, now, uuid, lookupFails)[j]
            == ItemResult(FeedTables(t, sourceId, k, items[..j], cutoff, now, uuid, lookupFails),
                          sourceId, items[j], cutoff, now, uuid(k, j), lookupFails)
    decreases |items|
  {
    var n := |items| - 1;
    if j < n {
      var init := items[..n];
      FeedOutcomeAt(t, sourceId, k, init, cutoff, now, uuid, lookupFails, j);
      assert init[..j] == items[..j] && init[j] == items[j];
    }
  }

  /** The messages of the failed inserts, in item order. */
  function Failures(outcomes: seq<ItemOutcome>): (r: seq<string>)
    ensures r == [] <==> forall j :: 0 <= j < |outcomes| ==> !outcomes[j].StoreFailed?
    ensures forall e :: e in r ==> exists j :: 0 <= j < |outcomes| && outcomes[j].StoreFailed? && e == outcomes[j].message
    decreases |outcomes|
  {
    if |outcomes| == 0 then []
    else
      var n := |outcomes| - 1;
      var earlier := Failures(outcomes[..n]);
      assert forall j :: 0 <= j < n ==> outcomes[..n][j] == outcomes[j];
      earlier + (if outcomes[n].StoreFailed? then [outcomes[n].message] else [])
  }

  /** Every item is skipped, stored or reported: the stored rows and the errors together account
      for all items the loop did not skip. */
  lemma {:induction false} FeedTally(outcomes: seq<ItemOutcome>)
    ensures Count(outcomes, IsStored) + |Failures(outcomes)| + Count(outcomes, IsSkipped) == |outcomes|
    decreases |outcomes|
  {
    if |outcomes| > 0 {
      var n := |outcomes| - 1;
      FeedTally(outcomes[..n]);
      assert outcomes == outcomes[..n] + [outcomes[n]];
      CountSnoc(outcomes[..n], outcomes[n], IsStored);
      CountSnoc(outcomes[..n], outcomes[n], IsSkipped);
    }
  }

  /** A source's effect on the tables: none when its feed does not parse. */
  function SourceTables(t: Tables, source: RSSSource, k: nat, cutoff: Time, now: Time,
                        fetch: string -> FeedFetch, faults: Faults, uuid: (nat, nat) -> string): Tables
  {
    match fetch(source.url)
    case ParseFailed(_) => t
    case Parsed(items) => FeedTables(t, source.id, k, items, cutoff, now, uuid, faults.lookup)
  }

  /** A source's errors: its parse error, or its failed inserts followed by its failed stamp. */
  function SourceErrors(t: Tables, source: RSSSource, k: nat, cutoff: Time, now: Time,
                        fetch: string -> FeedFetch, faults: Faults, uuid: (nat, nat) -> string): seq<string>
  {
    match fetch(source.url)
    case ParseFailed(m) => [ParseError(source.url, m)]
    case Parsed(items) =>
      Failures(FeedOutcomes(t, source.id, k, items, cutoff, now, uuid, faults.lookup))
      + (if faults.touch(source.id).Some? then [TouchError(source.id, faults.touch(source.id).value)] else [])
  }

  /** The tables after the sources, one after another. */
  function RunTables(t: Tables, targets: seq<RSSSource>, cutoff: Time, now: Time,
                     fetch: string -> FeedFetch, faults: Faults, uuid: (nat, nat) -> string): Tables
    decreases |targets|
  {
    if |targets| == 0 then t
    else
      var n := |targets| - 1;
      SourceTables(RunTables(t, targets[..n], cutoff, now, fetch, faults, uuid), targets[n], n, cutoff, now, fetch, faults, uuid)
  }

  /** The run's errors: each source's errors, in source order. */
  function RunErrors(t: Tables, targets: seq<RSSSource>, cutoff: Time, now: Time,
                     fetch: string -> FeedFetch, faults: Faults, uuid: (nat, nat) -> string): seq<string>
    decreases |targets|
  {
    if |targets| == 0 then []
    else
      var n := |targets| - 1;
      RunErrors(t, targets[..n], cutoff, now, fetch, faults, uuid)
      + SourceErrors(RunTables(t, targets[..n], cutoff, now, fetch, faults, uuid), targets[n], n, cutoff, now, fetch, faults, uuid)
  }

  /** The source's feed parses, its stamp succeeds and none of its inserts fails. */
  predicate CleanSource(t: Tables, source: RSSSource, k: nat, cutoff: Time, now: Time,
                        fetch: string -> FeedFetch, faults: Faults, uuid: (nat, nat) -> string)
  {
    && fetch(source.url).Parsed? && faults.touch(source.id).None?
    && var outcomes := FeedOutcomes(t, source.id, k, fetch(source.url).items, cutoff, now, uuid, faults.lookup);
       forall j :: 0 <= j < |outcomes| ==> !outcomes[j].StoreFailed?
  }

  /** Every source is clean against the tables the sources before it left (CleanRunEvery states
      it for each source at once). */
  predicate CleanRun(t: Tables, targets: seq<RSSSource>, cutoff: Time, now: Time,
                     fetch: string -> FeedFetch, faults: Faults, uuid: (nat, nat) -> string)
    decreases |targets|
  {
    |targets| == 0 ||
    var n := |targets| - 1;
    && CleanRun(t, targets[..n], cutoff, now, fetch, faults, uuid)
    && CleanSource(RunTables(t, targets[..n], cutoff, now, fetch, faults, uuid), targets[n], n, cutoff, now, fetch, faults, uuid)
  }

  /** A clean run is one where each source, taken in turn, is clean. */
  lemma CleanRunEvery(t: Tables, targets: seq<RSSSource>, cutoff: Time, now: Time,
                      fetch: string -> FeedFetch, faults: Faults, uuid: (nat, nat) -> string)
    ensures CleanRun(t, targets, cutoff, now, fetch, faults, uuid) <==>
            forall n :: 0 <= n < |targets| ==>
              CleanSource(RunTables(t, targets[..n], cutoff, now, fetch, faults, uuid), targets[n], n, cutoff, now, fetch, faults, uuid)
  {
    if CleanRun(t, targets, cutoff, now, fetch, faults, uuid) {
      CleanRunEach(t, targets, cutoff, now, fetch, faults, uuid);
    } else if forall n :: 0 <= n < |targets| ==>
                CleanSource(RunTables(t, targets[..n], cutoff, now, fetch, faults, uuid), targets[n], n, cutoff, now, fetch, faults, uuid) {
      CleanRunOfEach(t, targets, cutoff, now, fetch, faults, uuid);
    }
  }

  lemma CleanRunEach(t: Tables, targets: seq<RSSSource>, cutoff: Time, now: Time,
                     fetch: string -> FeedFetch, faults: Faults, uuid: (nat, nat) -> string)
    requires CleanRun(t, targets, cutoff, now, fetch, faults, uuid)
    ensures forall n :: 0 <= n < |targets| ==>
              CleanSource(RunTables(t, targets[..n], cutoff, now, fetch, faults, uuid), targets[n], n, cutoff, now, fetch, faults, uuid)
  {
    forall j | 0 <= j < |targets|
      ensures CleanSource(RunTables(t, targets[..j], cutoff, now, fetch, faults, uuid), targets[j], j, cutoff, now, fetch, faults, uuid)
    {
      CleanRunAt(t, targets, j, cutoff, now, fetch, faults, uuid);
    }
  }

  lemma {:induction false} CleanRunAt(t: Tables, targets: seq<RSSSource>, j: nat, cutoff: Time, now: Time,
                                      fetch: string -> FeedFetch, faults: Faults, uuid: (nat, nat) -> string)
    requires j < |targets| && CleanRun(t, targets, cutoff, now, fetch, faults, uuid)
    ensures CleanSource(RunTables(t, targets[..j], cutoff, now, fetch, faults, uuid), targets[j], j, cutoff, now, fetch, faults, uuid)
    decreases |targets|
  {
    var n := |targets| - 1;
    if j < n {
      CleanRunAt(t, targets[..n], j, cutoff, now, fetch, faults, uuid);
      CleanSourceOfPrefix(t, targets, n, j, cutoff, now, fetch, faults, uuid);
    }
  }

  lemma {:induction false} CleanRunOfEach(t: Tables, targets: seq<RSSSource>, cutoff: Time, now: Time,
                                          fetch: string -> FeedFetch, faults: Faults, uuid: (nat, nat) -> string)
    requires forall n :: 0 <= n < |targets| ==>
               CleanSource(RunTables(t, targets[..n], cutoff, now, fetch, faults, uuid), targets[n], n, cutoff, now, fetch, faults, uuid)
    ensures CleanRun(t, targets, cutoff, now, fetch, faults, uuid)
    decreases |targets|
  {
    if |targets| > 0 {
      var n := |targets| - 1;
      var init := targets[..n];
      forall j | 0 <= j < n
        ensures CleanSource(RunTables(t, init[..j], cutoff, now, fetch, faults, uuid), init[j], j, cutoff, now, fetch, faults, uuid)
      {
        assert init[..j] == targets[..j] && init[j] == targets[j];
      }
      CleanRunOfEach(t, init, cutoff, now, fetch, faults, uuid);
    }
  }

  lemma CleanSourceOfPrefix(t: Tables, targets: seq<RSSSource>, n: nat, j: nat, cutoff: Time, now: Time,
                            fetch: string -> FeedFetch, faults: Faults, uuid: (nat, nat) -> string)
    requires j < n <= |targets|
    requires CleanSource(RunTables(t, targets[..n][..j], cutoff, now, fetch, faults, uuid), targets[..n][j], j, cutoff, now, fetch, faults, uuid)
    ensures CleanSource(RunTables(t, targets[..j], cutoff, now, fetch, faults, uuid), targets[j], j, cutoff, now, fetch, faults, uuid)
  {
    assert targets[..n][..j] == targets[..j] && targets[..n][j] == targets[j];
  }

  /** A run reports nothing exactly when every feed parses, every stamp succeeds and every insert
      succeeds. */
  lemma {:induction false} RunErrorsEmpty(t: Tables, targets: seq<RSSSource>, cutoff: Time, now: Time,
                                          fetch: string -> FeedFetch, faults: Faults, uuid: (nat, nat) -> string)
    ensures RunErrors(t, targets, cutoff, now, fetch, faults, uuid) == [] <==> CleanRun(t, targets, cutoff, now, fetch, faults, uuid)
    decreases |targets|
  {
    if |targets| > 0 {
      var n := |targets| - 1;
      RunErrorsEmpty(t, targets[..n], cutoff, now, fetch, faults, uuid);
      SourceErrorsEmpty(RunTables(t, targets[..n], cutoff, now, fetch, faults, uuid), targets[n], n, cutoff, now, fetch, faults, uuid);
    }
  }

  lemma SourceErrorsEmpty(t: Tables, source: RSSSource, k: nat, cutoff: Time, now: Time,
                          fetch: string -> FeedFetch, faults: Faults, uuid: (nat, nat) -> string)
    ensures SourceErrors(t, source, k, cutoff, now, fetch, faults, uuid) == [] <==> CleanSource(t, source, k, cutoff, now, fetch, faults, uuid)
  {
  }

  /** No row of either table carries the id. */
  predicate IdFree(t: Tables, id: string) {
    && Storage.NoRowWithId(t.contents, id)
    && forall r :: 0 <= r < |t.categories| ==> t.categories[r].contentId != id
  }

  /** An item under a free id with no repeated category is never a failed insert. */
  lemma ItemStoresWhenFree(t: Tables, sourceId: string, item: FeedItem, cutoff: Time, now: Time,
                           freshId: string, lookupFails: string -> bool)
    requires IdFree(t, freshId) && Distinct(item.categories)
    ensures !ItemResult(t, sourceId, item, cutoff, now, freshId, lookupFails).StoreFailed?
  {
  }

  /** An item stored under another id leaves an id free. */
  lemma ItemKeepsFree(t: Tables, sourceId: string, item: FeedItem, cutoff: Time, now: Time,
                      freshId: string, lookupFails: string -> bool, id: string)
    requires IdFree(t, id) && freshId != id
    ensures IdFree(ItemTables(t, sourceId, item, cutoff, now, freshId, lookupFails), id)
  {
    var after := ItemTables(t, sourceId, item, cutoff, now, freshId, lookupFails);
    if after != t {
      forall r | 0 <= r < |after.categories| ensures after.categories[r].contentId != id {
        if r >= |t.categories| {
          assert after.categories[r] == Storage.CategoryRows(freshId, item.categories)[r - |t.categories|];
        }
      }
    }
  }

  /** A feed whose fresh ids all differ from an id leaves it free. */
  lemma {:induction false} FeedKeepsFree(t: Tables, sourceId: string, k: nat, items: seq<FeedItem>, cutoff: Time, now: Time,
                                         uuid: (nat, nat) -> string, lookupFails: string -> bool, id: string)
    requires IdFree(t, id) && forall i :: 0 <= i < |items| ==> uuid(k, i) != id
    ensures IdFree(FeedTables(t, sourceId, k, items, cutoff, now, uuid, lookupFails), id)
    decreases |items|
  {
    if |items| > 0 {
      var n := |items| - 1;
      FeedKeepsFree(t, sourceId, k, items[..n], cutoff, now, uuid, lookupFails, id);
      ItemKeepsFree(FeedTables(t, sourceId, k, items[..n], cutoff, now, uuid, lookupFails), sourceId, items[n], cutoff, now, uuid(k, n), lookupFails, id);
    }
  }

  /** A feed whose fresh ids are distinct and free, and whose items repeat no category, has no
      failed insert. */
  lemma FeedStoresWhenFree(t: Tables, sourceId: string, k: nat, items: seq<FeedItem>, cutoff: Time, now: Time,
                           uuid: (nat, nat) -> string, lookupFails: string -> bool)
    requires forall i :: 0 <= i < |items| ==> IdFree(t, uuid(k, i)) && Distinct(items[i].categories)
    requires forall i, j :: 0 <= i < j < |items| ==> uuid(k, i) != uuid(k, j)
    ensures forall j :: 0 <= j < |items| ==> !FeedOutcomes(t, sourceId, k, items, cutoff, now, uuid, lookupFails)[j].StoreFailed?
  {
    forall j | 0 <= j < |items| ensures !FeedOutcomes(t, sourceId, k, items, cutoff, now, uuid, lookupFails)[j].StoreFailed? {
      FeedOutcomeAt(t, sourceId, k, items, cutoff, now, uuid, lookupFails, j);
      FeedKeepsFree(t, sourceId, k, items[..j], cutoff, now, uuid, lookupFails, uuid(k, j));
      ItemStoresWhenFree(FeedTables(t, sourceId, k, items[..j], cutoff, now, uuid, lookupFails), sourceId, items[j], cutoff, now, uuid(k, j), lookupFails);
    }
  }

  /** Sources whose fresh ids all differ from an id leave it free. */
  lemma {:induction false} RunKeepsFree(t: Tables, targets: seq<RSSSource>, cutoff: Time, now: Time,
                                        fetch: string -> FeedFetch, faults: Faults, uuid: (nat, nat) -> string, id: string)
    requires IdFree(t, id) && forall k, i :: 0 <= k < |targets| ==> uuid(k, i) != id
    ensures IdFree(RunTables(t, targets, cutoff, now, fetch, faults, uuid), id)
    decreases |targets|
  {
    if |targets| > 0 {
      var n := |targets| - 1;
      RunKeepsFree(t, targets[..n], cutoff, now, fetch, faults, uuid, id);
      var before := RunTables(t, targets[..n], cutoff, now, fetch, faults, uuid);
      if fetch(targets[n].url).Parsed? {
        FeedKeepsFree(before, targets[n].id, n, fetch(targets[n].url).items, cutoff, now, uuid, faults.lookup, id);
      }
    }
  }

  /** When every feed parses, no stamp fails, the fresh ids are all distinct and stored nowhere,
      and no item repeats a category, the run is clean. */
  lemma CleanRunWhenFresh(t: Tables, targets: seq<RSSSource>, cutoff: Time, now: Time,
                          fetch: string -> FeedFetch, faults: Faults, uuid: (nat, nat) -> string)
    requires forall n :: 0 <= n < |targets| ==> fetch(targets[n].url).Parsed? && faults.touch(targets[n].id).None?
    requires forall n, i :: 0 <= n < |targets| && fetch(targets[n].url).Parsed? && 0 <= i < |fetch(targets[n].url).items| ==>
               Distinct(fetch(targets[n].url).items[i].categories)
    requires forall k, i :: IdFree(t, uuid(k, i))
    requires forall k1, i1, k2, i2 :: (k1, i1) != (k2, i2) ==> uuid(k1, i1) != uuid(k2, i2)
    ensures CleanRun(t, targets, cutoff, now, fetch, faults, uuid)
  {
    forall n | 0 <= n < |targets|
      ensures CleanSource(RunTables(t, targets[..n], cutoff, now, fetch, faults, uuid), targets[n], n, cutoff, now, fetch, faults, uuid)
    {
      var before := RunTables(t, targets[..n], cutoff, now, fetch, faults, uuid);
      var items := fetch(targets[n].url).items;
      forall i | 0 <= i < |items| ensures IdFree(before, uuid(n, i)) {
        RunKeepsFree(t, targets[..n], cutoff, now, fetch, faults, uuid, uuid(n, i));
      }
      FeedStoresWhenFree(before, targets[n].id, n, items, cutoff, now, uuid, faults.lookup);
    }
    CleanRunEvery(t, targets, cutoff, now, fetch, faults, uuid);
  }

  /** Why an error was reported: the source's feed did not parse, its stamp failed, or the insert
      of one of its dated items failed. */
  predicate Explains(source: RSSSource, e: string, cutoff: Time, fetch: string -> FeedFetch, faults: Faults) {
    match fetch(source.url)
    case ParseFailed(m) => e == ParseError(source.url, m)
    case Parsed(items) =>
      || (faults.touch(source.id).Some? && e == TouchError(source.id, faults.touch(source.id).value))
      || exists j :: 0 <= j < |items| && Normalise(items[j], cutoff).Some?
                     && (e == StoreError(Normalise(items[j], cutoff).value.url, Storage.CategoryTaken)
                         || e == StoreError(Normalise(items[j], cutoff).value.url, Storage.ContentIdTaken))
  }

  /** Every error of a run is explained by one of its sources. */
  lemma {:induction false} RunErrorsExplained(t: Tables, targets: seq<RSSSource>, cutoff: Time, now: Time,
                                              fetch: string -> FeedFetch, faults: Faults, uuid: (nat, nat) -> string)
    ensures forall e :: e in RunErrors(t, targets, cutoff, now, fetch, faults, uuid) ==>
              exists n :: 0 <= n < |targets| && Explains(targets[n], e, cutoff, fetch, faults)
    decreases |targets|
  {
    if |targets| > 0 {
      var n := |targets| - 1;
      var init := targets[..n];
      RunErrorsExplained(t, init, cutoff, now, fetch, faults, uuid);
      var before := RunTables(t, init, cutoff, now, fetch, faults, uuid);
      forall e | e in SourceErrors(before, targets[n], n, cutoff, now, fetch, faults, uuid)
        ensures Explains(targets[n], e, cutoff, fetch, faults)
      {
        SourceErrorExplained(before, targets[n], n, cutoff, now, fetch, faults, uuid, e);
      }
      forall e | e in RunErrors(t, init, cutoff, now, fetch, faults, uuid)
        ensures exists m :: 0 <= m < |targets| && Explains(targets[m], e, cutoff, fetch, faults)
      {
        var m :| 0 <= m < n && Explains(init[m], e, cutoff, fetch, faults);
        assert init[m] == targets[m];
      }
    }
  }

  lemma SourceErrorExplained(t: Tables, source: RSSSource, k: nat, cutoff: Time, now: Time,
                             fetch: string -> FeedFetch, faults: Faults, uuid: (nat, nat) -> string, e: string)
    requires e in SourceErrors(t, source, k, cutoff, now, fetch, faults, uuid)
    ensures Explains(source, e, cutoff, fetch, faults)
  {
    if fetch(source.url).Parsed? {
      var items := fetch(source.url).items;
      var outcomes := FeedOutcomes(t, source.id, k, items, cutoff, now, uuid, faults.lookup);
      if e in Failures(outcomes) {
        var j :| 0 <= j < |outcomes| && outcomes[j].StoreFailed? && e == outcomes[j].message;
        FeedOutcomeAt(t, source.id, k, items, cutoff, now, uuid, faults.lookup, j);
        assert Normalise(items[j], cutoff).Some?;
      }
    }
  }

  // ---------------------------------------------------------------------------
  // The run

  /** The statuses a run writes after the job was created pending: none when it panics, failed,
      or in-progress followed by the final status. */
  function RunTrace(jobId: string, outcome: RunOutcome): seq<(string, JobStatus)> {
    match outcome
    case Panicked => []
    case JobFailed => [(jobId, Failed)]
    case Finished(status) => [(jobId, InProgress), (jobId, status)]
  }

  /** One feed item: skipped when undated, older than the cutoff, or when its link is stored and the
      lookup succeeded; otherwise inserted, and a failed insert is reported with its url. */
  method ProcessItem(db: Storage.SQLiteDB, sourceId: string, item: FeedItem, cutoff: Time, now: Time,
                     freshId: string, lookupFails: string -> bool) returns (outcome: ItemOutcome)
    requires db.Valid()
    modifies db
    ensures db.Valid()
    ensures outcome.Skipped? <==>
              (Normalise(item, cutoff).None?
               || (!lookupFails(Normalise(item, cutoff).value.url) && LinkStored(old(db.contents), Normalise(item, cutoff).value.url)))
    ensures outcome.Stored? ==>
              && |db.contents| == |old(db.contents)| + 1 && db.contents[..|old(db.contents)|] == old(db.contents)
              && var row := db.contents[|old(db.contents)|];
                 && row == Storage.Stamped(NewContent(sourceId, Normalise(item, cutoff).value, item, now), freshId, now).(categories := [])
                 && row.sourceId == sourceId && row.publishedAt >= cutoff && row.fetchedAt == now
                 && (!lookupFails(row.link) ==> !LinkStored(old(db.contents), row.link))
    ensures !outcome.Stored? ==> db.contents == old(db.contents) && db.categories == old(db.categories)
    ensures outcome.StoreFailed? ==> outcome.message != "" && outcome.message == StoreError(Normalise(item, cutoff).value.url,
              if Storage.NoRowWithId(old(db.contents), freshId) then Storage.CategoryTaken else Storage.ContentIdTaken)
    ensures outcome == ItemResult(Tables(old(db.contents), old(db.categories)), sourceId, item, cutoff, now, freshId, lookupFails)
    ensures Tables(db.contents, db.categories) == ItemTables(Tables(old(db.contents), old(db.categories)), sourceId, item, cutoff, now, freshId, lookupFails)
    ensures db.sources == old(db.sources) && db.jobs == old(db.jobs) && db.jobErrors == old(db.jobErrors)
    ensures db.feedback == old(db.feedback) && db.statusWrites == old(db.statusWrites)
  {
    var a := Normalise(item, cutoff);
    if a.None? {
      return Skipped;
    }
    var url := a.value.url;
    if !lookupFails(url) && Queries.GetContentByURL(db.contents, db.categories, url).Some? {
      return Skipped;
    }
    var err, stored := db.CreateContent(NewContent(sourceId, a.value, item, now), freshId, now);
    if err.Some? {
      return StoreFailed(StoreError(url, err.value));
    }
    return Stored;
  }

  /** The item loop of one parsed feed: the rows stored are appended in item order, all from this
      source and dated on or after the cutoff; every failed insert adds one error and the loop goes on. */
  method ProcessFeed(db: Storage.SQLiteDB, source: RSSSource, k: nat, items: seq<FeedItem>, cutoff: Time, now: Time,
                     uuid: (nat, nat) -> string, lookupFails: string -> bool) returns (stored: nat, added: seq<string>)
    requires db.Valid()
    modifies db
    ensures db.Valid()
    ensures |old(db.contents)| <= |db.contents| && db.contents[..|old(db.contents)|] == old(db.contents)
    ensures stored == |db.contents| - |old(db.contents)|
    ensures forall i :: 0 <= i < |added| ==> added[i] != ""
    ensures forall i :: |old(db.contents)| <= i < |db.contents| ==>
              db.contents[i].sourceId == source.id && db.contents[i].publishedAt >= cutoff && db.contents[i].fetchedAt == now
    ensures LinksChecked(db.contents, |old(db.contents)|, lookupFails)
    // the tables and the errors are those of the items taken one after another
    ensures Tables(db.contents, db.categories) == FeedTables(Tables(old(db.contents), old(db.categories)), source.id, k, items, cutoff, now, uuid, lookupFails)
    ensures var outcomes := FeedOutcomes(Tables(old(db.contents), old(db.categories)), source.id, k, items, cutoff, now, uuid, lookupFails);
            && added == Failures(outcomes)
            && stored == Count(outcomes, IsStored)
            && stored + |added| == |items| - Count(outcomes, IsSkipped)
    ensures db.sources == old(db.sources) && db.jobs == old(db.jobs) && db.jobErrors == old(db.jobErrors)
    ensures db.feedback == old(db.feedback) && db.statusWrites == old(db.statusWrites)
  {
    stored, added := 0, [];
    ghost var c0 := db.contents;
    ghost var t0 := Tables(db.contents, db.categories);
    var i := 0;
    while i < |items|
      invariant 0 <= i <= |items|
      invariant db.Valid()
      invariant |c0| <= |db.contents| && db.contents[..|c0|] == c0
      invariant stored == |db.contents| - |c0|
      invariant forall i :: 0 <= i < |added| ==> added[i] != ""
      invariant forall r :: |c0| <= r < |db.contents| ==>
                  db.contents[r].sourceId == source.id && db.contents[r].publishedAt >= cutoff && db.contents[r].fetchedAt == now
      invariant LinksChecked(db.contents, |c0|, lookupFails)
      invariant Tables(db.contents, db.categories) == FeedTables(t0, source.id, k, items[..i], cutoff, now, uuid, lookupFails)
      invariant added == Failures(FeedOutcomes(t0, source.id, k, items[..i], cutoff, now, uuid, lookupFails))
      invariant stored == Count(FeedOutcomes(t0, source.id, k, items[..i], cutoff, now, uuid, lookupFails), IsStored)
      invariant db.sources == old(db.sources) && db.jobs == old(db.jobs) && db.jobErrors == old(db.jobErrors)
      invariant db.feedback == old(db.feedback) && db.statusWrites == old(db.statusWrites)
    {
      stored, added := ProcessFeedItem(db, source, k, items, i, cutoff, now, uuid, lookupFails, c0, t0, stored, added);
      i := i + 1;
    }
    assert items[..i] == items;
    FeedTally(FeedOutcomes(t0, source.id, k, items, cutoff, now, uuid, lookupFails));
  }

  /** One iteration of the item loop, keeping the loop's facts for one more item. */
  method ProcessFeedItem(db: Storage.SQLiteDB, source: RSSSource, k: nat, items: seq<FeedItem>, i: nat, cutoff: Time, now: Time,
                         uuid: (nat, nat) -> string, lookupFails: string -> bool, ghost c0: seq<RSSContent>, ghost t0: Tables,
                         stored: nat, added: seq<string>)
    returns (stored': nat, added': seq<string>)
    requires db.Valid() && i < |items|
    requires |c0| <= |db.contents| && db.contents[..|c0|] == c0
    requires stored == |db.contents| - |c0|
    requires forall r :: |c0| <= r < |db.contents| ==>
               db.contents[r].sourceId == source.id && db.contents[r].publishedAt >= cutoff && db.contents[r].fetchedAt == now
    requires LinksChecked(db.contents, |c0|, lookupFails)
    requires Tables(db.contents, db.categories) == FeedTables(t0, source.id, k, items[..i], cutoff, now, uuid, lookupFails)
    requires added == Failures(FeedOutcomes(t0, source.id, k, items[..i], cutoff, now, uuid, lookupFails))
    requires stored == Count(FeedOutcomes(t0, source.id, k, items[..i], cutoff, now, uuid, lookupFails), IsStored)
    modifies db
    ensures db.Valid()
    ensures |c0| <= |db.contents| && db.contents[..|c0|] == c0
    ensures stored' == |db.contents| - |c0|
    ensures forall r :: |c0| <= r < |db.contents| ==>
              db.contents[r].sourceId == source.id && db.contents[r].publishedAt >= cutoff && db.contents[r].fetchedAt == now
    ensures LinksChecked(db.contents, |c0|, lookupFails)
    ensures Tables(db.contents, db.categories) == FeedTables(t0, source.id, k, items[..i + 1], cutoff, now, uuid, lookupFails)
    ensures added' == Failures(FeedOutcomes(t0, source.id, k, items[..i + 1], cutoff, now, uuid, lookupFails))
    ensures stored' == Count(FeedOutcomes(t0, source.id, k, items[..i + 1], cutoff, now, uuid, lookupFails), IsStored)
    ensures (forall j :: 0 <= j < |added| ==> added[j] != "") ==> forall j :: 0 <= j < |added'| ==> added'[j] != ""
    ensures db.sources == old(db.sources) && db.jobs == old(db.jobs) && db.jobErrors == old(db.jobErrors)
    ensures db.feedback == old(db.feedback) && db.statusWrites == old(db.statusWrites)
  {
    ghost var before := db.contents;
    var outcome := ProcessItem(db, source.id, items[i], cutoff, now, uuid(k, i), lookupFails);
    FeedStep(t0, source.id, k, items, i, cutoff, now, uuid, lookupFails);
    stored', added' := stored, added;
    match outcome {
      case Skipped =>
      case Stored =>
        stored' := stored + 1;
        AppendChecked(before, db.contents, |c0|, lookupFails);
      case StoreFailed(m) =>
        added' := added + [m];
    }
  }

  /** One more item of the loop: its outcome and tables follow those of the items before it. */
  lemma FeedStep(t: Tables, sourceId: string, k: nat, items: seq<FeedItem>, i: nat, cutoff: Time, now: Time,
                 uuid: (nat, nat) -> string, lookupFails: string -> bool)
    requires i < |items|
    ensures var before := FeedTables(t, sourceId, k, items[..i], cutoff, now, uuid, lookupFails);
            var outcomes := FeedOutcomes(t, sourceId, k, items[..i], cutoff, now, uuid, lookupFails);
            var o := ItemResult(before, sourceId, items[i], cutoff, now, uuid(k, i), lookupFails);
            && FeedTables(t, sourceId, k, items[..i + 1], cutoff, now, uuid, lookupFails)
               == ItemTables(before, sourceId, items[i], cutoff, now, uuid(k, i), lookupFails)
            && FeedOutcomes(t, sourceId, k, items[..i + 1], cutoff, now, uuid, lookupFails) == outcomes + [o]
            && Failures(outcomes + [o]) == Failures(outcomes) + (if o.StoreFailed? then [o.message] else [])
            && Count(outcomes + [o], IsStored) == Count(outcomes, IsStored) + (if o.Stored? then 1 else 0)
  {
    assert items[..i + 1][..i] == items[..i];
    var outcomes := FeedOutcomes(t, sourceId, k, items[..i], cutoff, now, uuid, lookupFails);
    var o := ItemResult(FeedTables(t, sourceId, k, items[..i], cutoff, now, uuid, lookupFails), sourceId, items[i], cutoff, now, uuid(k, i), lookupFails);
    assert (outcomes + [o])[..|outcomes|] == outcomes;
    CountSnoc(outcomes, o, IsStored);
  }

  /** Appending a row whose link was checked keeps the links checked. */
  lemma AppendChecked(before: seq<RSSContent>, after: seq<RSSContent>, from: int, lookupFails: string -> bool)
    requires |after| == |before| + 1 && after[..|before|] == before && from <= |before|
    requires LinksChecked(before, from, lookupFails)
    requires !lookupFails(after[|before|].link) ==> !LinkStored(before, after[|before|].link)
    ensures LinksChecked(after, from, lookupFails)
  {
    forall i, j | 0 <= j < i < |after| && from <= i && !lookupFails(after[i].link)
      ensures after[j].link != after[i].link
    {
      if i < |before| {
        assert after[i] == before[i] && after[j] == before[j];
      } else {
        assert after[j] == before[j];
      }
    }
  }

  /** One source: a feed that does not parse adds one error and changes nothing; a parsed feed has
      its items processed and the source is then stamped as fetched, or one more error is added. */
  method ProcessSource(db: Storage.SQLiteDB, source: RSSSource, k: nat, cutoff: Time, now: Time,
                       fetch: string -> FeedFetch, faults: Faults, uuid: (nat, nat) -> string)
    returns (stored: nat, added: seq<string>)
    requires db.Valid()
    modifies db
    ensures db.Valid()
    ensures fetch(source.url).ParseFailed? ==>
              added == [ParseError(source.url, fetch(source.url).message)] && stored == 0
              && db.contents == old(db.contents) && db.sources == old(db.sources)
    ensures fetch(source.url).Parsed? && faults.touch(source.id).Some? ==>
              |added| > 0 && added[|added| - 1] == TouchError(source.id, faults.touch(source.id).value)
    ensures forall i :: 0 <= i < |added| ==> added[i] != ""
    ensures |old(db.contents)| <= |db.contents| && db.contents[..|old(db.contents)|] == old(db.contents)
    ensures stored == |db.contents| - |old(db.contents)|
    ensures forall i :: |old(db.contents)| <= i < |db.contents| ==>
              db.contents[i].sourceId == source.id && db.contents[i].publishedAt >= cutoff && db.contents[i].fetchedAt == now
    ensures LinksChecked(db.contents, |old(db.contents)|, faults.lookup)
    ensures Touches(source, fetch, faults) ==>
              db.sources == Storage.UpdateWhere(old(db.sources), SourceIdOf, source.id, (s: RSSSource) => s.(lastFetchedAt := Some(now)))
    ensures !Touches(source, fetch, faults) ==> db.sources == old(db.sources)
    ensures Tables(db.contents, db.categories) == SourceTables(Tables(old(db.contents), old(db.categories)), source, k, cutoff, now, fetch, faults, uuid)
    ensures added == SourceErrors(Tables(old(db.contents), old(db.categories)), source, k, cutoff, now, fetch, faults, uuid)
    ensures db.jobs == old(db.jobs) && db.jobErrors == old(db.jobErrors)
    ensures db.feedback == old(db.feedback) && db.statusWrites == old(db.statusWrites)
  {
    match fetch(source.url) {
      case ParseFailed(m) =>
        return 0, [ParseError(source.url, m)];
      case Parsed(items) =>
        stored, added := ProcessFeed(db, source, k, items, cutoff, now, uuid, faults.lookup);
        match faults.touch(source.id) {
          case Some(m) =>
            added := added + [TouchError(source.id, m)];
          case None =>
            db.UpdateSourceLastFetchedAt(source.id, now);
        }
    }
  }

  /** Stamping the sources one after another stamps each source whose id was touched. */
  lemma StampStep(s0: seq<RSSSource>, before: seq<RSSSource>, after: seq<RSSSource>, ids: seq<string>, id: string, now: Time)
    requires SourcesStamped(s0, before, ids, now)
    requires after == Storage.UpdateWhere(before, SourceIdOf, id, (s: RSSSource) => s.(lastFetchedAt := Some(now)))
    ensures SourcesStamped(s0, after, ids + [id], now)
  {
    forall i | 0 <= i < |s0| ensures after[i] == Stamp(s0[i], ids + [id], now) {
      assert before[i].id == s0[i].id;
    }
  }

  /** The background run of a fetch job. A job naming an unknown source dereferences nil and stops.
      Otherwise the status trace is failed (resolution error, nothing fetched) or in-progress then
      completed / completed_with_errors, decided by whether any error was collected; all errors go
      into one "; "-joined message, `itemsProcessed` counts the rows stored, and every parsed source
      not failing its stamp gets its last-fetched time. */
  method Run(db: Storage.SQLiteDB, jobId: string, sourceId: Option<string>, days: int, now: Time,
             fetch: string -> FeedFetch, faults: Faults, uuid: (nat, nat) -> string)
    returns (outcome: RunOutcome, itemsProcessed: int, errors: seq<string>, ghost targets: seq<RSSSource>)
    requires db.Valid()
    modifies db
    ensures db.Valid()
    ensures outcome.Finished? ==> Resolve(old(db.sources), sourceId, faults.resolution) == Resolved(targets)
    ensures var res := Resolve(old(db.sources), sourceId, faults.resolution);
            && (res.SourceMissing? ==> outcome == Panicked)
            && (res.ResolveFailed? ==> outcome == JobFailed)
            && (res.Resolved? ==> outcome.Finished?)
    // a panicking run changes nothing
    ensures outcome == Panicked ==>
              db.statusWrites == old(db.statusWrites) && db.jobs == old(db.jobs) && db.jobErrors == old(db.jobErrors)
              && db.contents == old(db.contents) && db.sources == old(db.sources)
    // pending -> failed
    ensures outcome == JobFailed ==>
              && db.statusWrites == old(db.statusWrites) + [(jobId, Failed)]
              && db.jobs == Storage.UpdateWhere(old(db.jobs), JobIdOf, jobId, (j: FetchJob) => Storage.JobUpdated(j, Failed, 0, now))
              && db.jobErrors == old(db.jobErrors) + [JobErrorRow(jobId, Resolve(old(db.sources), sourceId, faults.resolution).message)]
              && db.contents == old(db.contents) && db.sources == old(db.sources)
    // pending -> in-progress -> completed / completed_with_errors
    ensures outcome.Finished? ==>
              && outcome.status == (if errors == [] then Completed else CompletedWithErrors)
              && db.statusWrites == old(db.statusWrites) + [(jobId, InProgress), (jobId, outcome.status)]
              && db.jobErrors == old(db.jobErrors) + (if errors == [] then [] else [JobErrorRow(jobId, Join(errors, "; "))])
              && itemsProcessed == |db.contents| - |old(db.contents)|
              && (forall i :: 0 <= i < |db.jobs| && db.jobs[i].id == jobId ==>
                    db.jobs[i].status == outcome.status && db.jobs[i].itemsProcessed == itemsProcessed)
    ensures SameJobScope(old(db.jobs), db.jobs)
    ensures forall i :: 0 <= i < |db.jobs| && db.jobs[i].id != jobId ==> db.jobs[i] == old(db.jobs)[i]
    // what is stored, stamped and reported
    ensures LinksChecked(db.contents, |old(db.contents)|, faults.lookup)
    ensures outcome.Finished? ==>
              && RowsAdded(old(db.contents), db.contents, Map(SourceIdOf, targets), DaysBefore(now, days), now)
              && SourcesStamped(old(db.sources), db.sources, TouchedIds(targets, fetch, faults), now)
              && Reported(targets, |targets|, fetch, faults, errors)
    ensures outcome.Finished? ==>
              var t0 := Tables(old(db.contents), old(db.categories));
              && Tables(db.contents, db.categories) == RunTables(t0, targets, DaysBefore(now, days), now, fetch, faults, uuid)
              && errors == RunErrors(t0, targets, DaysBefore(now, days), now, fetch, faults, uuid)
              && (outcome.status == Completed <==> CleanRun(t0, targets, DaysBefore(now, days), now, fetch, faults, uuid))
    ensures db.feedback == old(db.feedback)
    ensures !outcome.Finished? ==> db.categories == old(db.categories)
  {
    var res := Resolve(db.sources, sourceId, faults.resolution);
    match res {
      case SourceMissing =>
        return Panicked, 0, [], [];
      case ResolveFailed(m) =>
        db.UpdateFetchJobStatus(jobId, Failed, 0, m, now);
        JobUpdatesKeepScope(old(db.jobs), jobId, Failed, 0, now);
        return JobFailed, 0, [], [];
      case Resolved(sources) =>
        var status;
        status, itemsProcessed, errors := RunTargets(db, jobId, sources, DaysBefore(now, days), now, fetch, faults, uuid);
        return Finished(status), itemsProcessed, errors, sources;
    }
  }

  /** A resolved run: the job goes in-progress, every target is processed, and the job ends completed
      when no error was collected and completed_with_errors otherwise, with the errors joined by "; "
      and the number of rows stored. */
  method RunTargets(db: Storage.SQLiteDB, jobId: string, targets: seq<RSSSource>, cutoff: Time, now: Time,
                    fetch: string -> FeedFetch, faults: Faults, uuid: (nat, nat) -> string)
    returns (status: JobStatus, itemsProcessed: int, errors: seq<string>)
    requires db.Valid()
    modifies db
    ensures db.Valid()
    ensures status == (if errors == [] then Completed else CompletedWithErrors)
    ensures db.statusWrites == old(db.statusWrites) + [(jobId, InProgress), (jobId, status)]
    ensures db.jobErrors == old(db.jobErrors) + (if errors == [] then [] else [JobErrorRow(jobId, Join(errors, "; "))])
    ensures itemsProcessed == |db.contents| - |old(db.contents)|
    ensures forall i :: 0 <= i < |db.jobs| && db.jobs[i].id == jobId ==>
              db.jobs[i].status == status && db.jobs[i].itemsProcessed == itemsProcessed
    ensures SameJobScope(old(db.jobs), db.jobs)
    ensures forall i :: 0 <= i < |db.jobs| && db.jobs[i].id != jobId ==> db.jobs[i] == old(db.jobs)[i]
    ensures LinksChecked(db.contents, |old(db.contents)|, faults.lookup)
    ensures RowsAdded(old(db.contents), db.contents, Map(SourceIdOf, targets), cutoff, now)
    ensures SourcesStamped(old(db.sources), db.sources, TouchedIds(targets, fetch, faults), now)
    ensures Reported(targets, |targets|, fetch, faults, errors)
    ensures Tables(db.contents, db.categories) == RunTables(Tables(old(db.contents), old(db.categories)), targets, cutoff, now, fetch, faults, uuid)
    ensures errors == RunErrors(Tables(old(db.contents), old(db.categories)), targets, cutoff, now, fetch, faults, uuid)
    // completed exactly when every feed parses, every stamp and every insert succeeds
    ensures status == Completed <==> CleanRun(Tables(old(db.contents), old(db.categories)), targets, cutoff, now, fetch, faults, uuid)
    ensures db.feedback == old(db.feedback)
  {
    ghost var t0 := Tables(db.contents, db.categories);
    db.UpdateFetchJobStatus(jobId, InProgress, 0, "", now);
    JobUpdatesKeepScope(old(db.jobs), jobId, InProgress, 0, now);
    itemsProcessed, errors := ProcessTargets(db, targets, cutoff, now, fetch, faults, uuid);
    RunErrorsEmpty(t0, targets, cutoff, now, fetch, faults, uuid);
    status := FinishJob(db, jobId, itemsProcessed, errors, now);
  }

  /** The last status update of a resolved run: completed when no error was collected, and
      completed_with_errors otherwise, with the errors joined by "; " as the job's error. */
  method FinishJob(db: Storage.SQLiteDB, jobId: string, itemsProcessed: int, errors: seq<string>, now: Time)
    returns (status: JobStatus)
    requires db.Valid()
    requires forall i :: 0 <= i < |errors| ==> errors[i] != ""
    modifies db
    ensures db.Valid()
    ensures status == (if errors == [] then Completed else CompletedWithErrors)
    ensures db.statusWrites == old(db.statusWrites) + [(jobId, status)]
    ensures db.jobErrors == old(db.jobErrors) + (if errors == [] then [] else [JobErrorRow(jobId, Join(errors, "; "))])
    ensures SameJobScope(old(db.jobs), db.jobs)
    ensures forall i :: 0 <= i < |db.jobs| && db.jobs[i].id != jobId ==> db.jobs[i] == old(db.jobs)[i]
    ensures forall i :: 0 <= i < |db.jobs| && db.jobs[i].id == jobId ==>
              db.jobs[i].status == status && db.jobs[i].itemsProcessed == itemsProcessed
    ensures db.contents == old(db.contents) && db.categories == old(db.categories)
    ensures db.sources == old(db.sources) && db.feedback == old(db.feedback)
  {
    status := if errors == [] then Completed else CompletedWithErrors;
    var message := if errors == [] then "" else Join(errors, "; ");
    assert errors != [] ==> |Join(errors, "; ")| >= |errors[0]| > 0;
    db.UpdateFetchJobStatus(jobId, status, itemsProcessed, message, now);
    JobUpdatesKeepScope(old(db.jobs), jobId, status, itemsProcessed, now);
  }

  /** The rows after the first |c0| were stored by the run: from the given sources, dated on or after
      the cutoff, fetched now. */
  predicate RowsAdded(c0: seq<RSSContent>, contents: seq<RSSContent>, ids: seq<string>, cutoff: Time, now: Time) {
    && |c0| <= |contents| && contents[..|c0|] == c0
    && forall i :: |c0| <= i < |contents| ==>
         contents[i].sourceId in ids && contents[i].publishedAt >= cutoff && contents[i].fetchedAt == now
  }

  /** The sources are the original ones with the touched ids stamped. */
  predicate SourcesStamped(s0: seq<RSSSource>, sources: seq<RSSSource>, touched: seq<string>, now: Time) {
    |sources| == |s0| && forall i :: 0 <= i < |s0| ==> sources[i] == Stamp(s0[i], touched, now)
  }

  /** Every parse failure and failed stamp among the first k targets is reported, and no error is empty. */
  predicate Reported(targets: seq<RSSSource>, k: nat, fetch: string -> FeedFetch, faults: Faults, errors: seq<string>)
    requires k <= |targets|
  {
    && (forall t :: 0 <= t < k && fetch(targets[t].url).ParseFailed? ==>
          ParseError(targets[t].url, fetch(targets[t].url).message) in errors)
    && (forall t :: 0 <= t < k && fetch(targets[t].url).Parsed? && faults.touch(targets[t].id).Some? ==>
          TouchError(targets[t].id, faults.touch(targets[t].id).value) in errors)
    && (forall i :: 0 <= i < |errors| ==> errors[i] != "")
  }

  /** The loop over the resolved sources: stored rows come from those sources and are dated on or
      after the cutoff, stamped sources are exactly the touched ones, and every parse failure and
      failed stamp is among the errors. */
  method ProcessTargets(db: Storage.SQLiteDB, targets: seq<RSSSource>, cutoff: Time, now: Time,
                        fetch: string -> FeedFetch, faults: Faults, uuid: (nat, nat) -> string)
    returns (itemsProcessed: int, errors: seq<string>)
    requires db.Valid()
    modifies db
    ensures db.Valid()
    ensures itemsProcessed == |db.contents| - |old(db.contents)|
    ensures RowsAdded(old(db.contents), db.contents, Map(SourceIdOf, targets), cutoff, now)
    ensures LinksChecked(db.contents, |old(db.contents)|, faults.lookup)
    ensures SourcesStamped(old(db.sources), db.sources, TouchedIds(targets, fetch, faults), now)
    ensures Reported(targets, |targets|, fetch, faults, errors)
    ensures Tables(db.contents, db.categories) == RunTables(Tables(old(db.contents), old(db.categories)), targets, cutoff, now, fetch, faults, uuid)
    ensures errors == RunErrors(Tables(old(db.contents), old(db.categories)), targets, cutoff, now, fetch, faults, uuid)
    ensures db.jobs == old(db.jobs) && db.jobErrors == old(db.jobErrors) && db.statusWrites == old(db.statusWrites)
    ensures db.feedback == old(db.feedback)
  {
    ghost var c0 := db.contents;
    ghost var s0 := db.sources;
    ghost var t0 := Tables(db.contents, db.categories);
    ghost var ids := Map(SourceIdOf, targets);
    itemsProcessed, errors := 0, [];
    var k := 0;
    while k < |targets|
      invariant 0 <= k <= |targets|
      invariant db.Valid()
      invariant itemsProcessed == |db.contents| - |c0|
      invariant RowsAdded(c0, db.contents, ids, cutoff, now)
      invariant LinksChecked(db.contents, |c0|, faults.lookup)
      invariant SourcesStamped(s0, db.sources, TouchedIds(targets[..k], fetch, faults), now)
      invariant Reported(targets, k, fetch, faults, errors)
      invariant Tables(db.contents, db.categories) == RunTables(t0, targets[..k], cutoff, now, fetch, faults, uuid)
      invariant errors == RunErrors(t0, targets[..k], cutoff, now, fetch, faults, uuid)
      invariant db.jobs == old(db.jobs) && db.jobErrors == old(db.jobErrors) && db.statusWrites == old(db.statusWrites)
      invariant db.feedback == old(db.feedback)
    {
      var stored;
      stored, errors := ProcessTarget(db, targets, k, c0, s0, t0, cutoff, now, fetch, faults, uuid, errors);
      itemsProcessed := itemsProcessed + stored;
      k := k + 1;
    }
    assert targets[..k] == targets;
  }

  /** One iteration of the source loop, keeping the loop's facts for one more target. */
  method ProcessTarget(db: Storage.SQLiteDB, targets: seq<RSSSource>, k: nat, ghost c0: seq<RSSContent>, ghost s0: seq<RSSSource>, ghost t0: Tables,
                       cutoff: Time, now: Time, fetch: string -> FeedFetch, faults: Faults, uuid: (nat, nat) -> string,
                       errors: seq<string>)
    returns (stored: int, errors': seq<string>)
    requires db.Valid() && k < |targets|
    requires RowsAdded(c0, db.contents, Map(SourceIdOf, targets), cutoff, now)
    requires LinksChecked(db.contents, |c0|, faults.lookup)
    requires SourcesStamped(s0, db.sources, TouchedIds(targets[..k], fetch, faults), now)
    requires Reported(targets, k, fetch, faults, errors)
    requires Tables(db.contents, db.categories) == RunTables(t0, targets[..k], cutoff, now, fetch, faults, uuid)
    requires errors == RunErrors(t0, targets[..k], cutoff, now, fetch, faults, uuid)
    modifies db
    ensures db.Valid()
    ensures stored == |db.contents| - |old(db.contents)|
    ensures RowsAdded(c0, db.contents, Map(SourceIdOf, targets), cutoff, now)
    ensures LinksChecked(db.contents, |c0|, faults.lookup)
    ensures SourcesStamped(s0, db.sources, TouchedIds(targets[..k + 1], fetch, faults), now)
    ensures Reported(targets, k + 1, fetch, faults, errors')
    ensures Tables(db.contents, db.categories) == RunTables(t0, targets[..k + 1], cutoff, now, fetch, faults, uuid)
    ensures errors' == RunErrors(t0, targets[..k + 1], cutoff, now, fetch, faults, uuid)
    ensures db.jobs == old(db.jobs) && db.jobErrors == old(db.jobErrors) && db.statusWrites == old(db.statusWrites)
    ensures db.feedback == old(db.feedback)
  {
    ghost var ids := Map(SourceIdOf, targets);
    ghost var cBefore := db.contents;
    ghost var sBefore := db.sources;
    var added;
    stored, added := ProcessSource(db, targets[k], k, cutoff, now, fetch, faults, uuid);
    assert ids[k] == targets[k].id;
    SourceRowsStep(c0, cBefore, db.contents, targets[k].id, ids, cutoff, now);
    LinksCheckedExtend(cBefore, db.contents, |c0|, faults.lookup);
    assert targets[..k + 1][..k] == targets[..k] && targets[..k + 1][k] == targets[k];
    if Touches(targets[k], fetch, faults) {
      StampStep(s0, sBefore, db.sources, TouchedIds(targets[..k], fetch, faults), targets[k].id, now);
    }
    errors' := errors + added;
  }

  /** The rows stored for one source join the rows stored so far. */
  lemma SourceRowsStep(c0: seq<RSSContent>, before: seq<RSSContent>, after: seq<RSSContent>, id: string, ids: seq<string>, cutoff: Time, now: Time)
    requires RowsAdded(c0, before, ids, cutoff, now)
    requires |before| <= |after| && after[..|before|] == before
    requires id in ids
    requires forall i :: |before| <= i < |after| ==> after[i].sourceId == id && after[i].publishedAt >= cutoff && after[i].fetchedAt == now
    ensures RowsAdded(c0, after, ids, cutoff, now)
  {
    assert after[..|c0|] == before[..|c0|];
    forall i | |c0| <= i < |before| ensures after[i] == before[i] {
      assert after[..|before|][i] == after[i];
    }
  }

  /** A status update touches only the status columns of the job with that id. */
  lemma JobUpdatesKeepScope(jobs: seq<FetchJob>, id: string, status: JobStatus, items: int, now: Time)
    ensures var after := Storage.UpdateWhere(jobs, JobIdOf, id, (j: FetchJob) => Storage.JobUpdated(j, status, items, now));
            && SameJobScope(jobs, after)
            && (forall i :: 0 <= i < |jobs| && jobs[i].id != id ==> after[i] == jobs[i])
            && (forall i :: 0 <= i < |jobs| && jobs[i].id == id ==> after[i].status == status && after[i].itemsProcessed == items)
  {
  }

  /** FetchContents: a non-positive `days` becomes 7, a pending job is created and its id returned
      with status "pending" (202), and the run follows; a job that cannot be created is a 500 and
      nothing runs. The job's trace is pending, then failed, or in-progress and a completed status,
      or nothing more when the run panics. */
  method FetchContents(db: Storage.SQLiteDB, sourceId: Option<string>, days: int, jobId: string, now: Time,
                       fetch: string -> FeedFetch, faults: Faults, uuid: (nat, nat) -> string)
    returns (code: int, reply: FetchReply, outcome: Option<RunOutcome>, ghost targets: seq<RSSSource>, ghost errors: seq<string>)
    requires db.Valid()
    modifies db
    ensures db.Valid()
    ensures code == 202 <==> forall i :: 0 <= i < |old(db.jobs)| ==> old(db.jobs)[i].id != jobId
    // the run: its outcome follows the resolution of the job's scope
    ensures code == 202 ==>
              var res := Resolve(old(db.sources), sourceId, faults.resolution);
              && (res.SourceMissing? <==> outcome == Some(Panicked))
              && (res.ResolveFailed? <==> outcome == Some(JobFailed))
              && (res.Resolved? <==> outcome.Some? && outcome.value.Finished?)
              && (res.Resolved? ==> res.targets == targets)
              && (outcome == Some(JobFailed) ==>
                    db.jobErrors == old(db.jobErrors) + [JobErrorRow(jobId, res.message)]
                    && db.contents == old(db.contents) && db.sources == old(db.sources))
              && (outcome == Some(Panicked) ==>
                    db.jobErrors == old(db.jobErrors) && db.contents == old(db.contents) && db.sources == old(db.sources))
    // a finished run stores, reports and decides its status exactly as the run's specification says
    ensures code == 202 && outcome.Some? && outcome.value.Finished? ==>
              var t0 := Tables(old(db.contents), old(db.categories));
              var cutoff := DaysBefore(now, if days <= 0 then DefaultFetchDays else days);
              && Tables(db.contents, db.categories) == RunTables(t0, targets, cutoff, now, fetch, faults, uuid)
              && errors == RunErrors(t0, targets, cutoff, now, fetch, faults, uuid)
              && db.jobErrors == old(db.jobErrors) + (if errors == [] then [] else [JobErrorRow(jobId, Join(errors, "; "))])
              && (outcome.value.status == Completed <==> CleanRun(t0, targets, cutoff, now, fetch, faults, uuid))
              && SourcesStamped(old(db.sources), db.sources, TouchedIds(targets, fetch, faults), now)
    ensures code == 202 ==>
              && reply == Accepted(jobId, "pending") && outcome.Some?
              && |db.jobs| == |old(db.jobs)| + 1
              && db.jobs[|old(db.jobs)|].id == jobId && db.jobs[|old(db.jobs)|].sourceId == sourceId
              && db.jobs[|old(db.jobs)|].days == (if days <= 0 then DefaultFetchDays else days)
              && db.jobs[|old(db.jobs)|].startedAt == now
              && db.statusWrites == old(db.statusWrites) + [(jobId, Pending)] + RunTrace(jobId, outcome.value)
              && (outcome.value.Finished? ==> outcome.value.status == Completed || outcome.value.status == CompletedWithErrors)
    ensures code == 500 ==>
              reply == Failure("Failed to create fetch job: " + Storage.JobIdTaken) && outcome.None?
              && db.jobs == old(db.jobs) && db.statusWrites == old(db.statusWrites) && db.contents == old(db.contents)
  {
    var d := if days <= 0 then DefaultFetchDays else days;
    var created := db.CreateFetchJob(sourceId, d, jobId, now);
    if created.Err? {
      return 500, Failure("Failed to create fetch job: " + created.error), None, [], [];
    }
    ghost var jobsAfterCreate := db.jobs;
    ghost var writesAfterCreate := db.statusWrites;
    var o, _, errs, ts := Run(db, jobId, sourceId, d, now, fetch, faults, uuid);
    targets, errors := ts, errs;
    assert db.statusWrites == writesAfterCreate + RunTrace(jobId, o);
    assert jobsAfterCreate[|old(db.jobs)|].id == jobId;
    assert db.jobs[|old(db.jobs)|].id == jobsAfterCreate[|old(db.jobs)|].id;
    return 202, Accepted(jobId, "pending"), Some(o), targets, errors;
  }
}
