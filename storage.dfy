/** The SQLite store as an object whose tables are sequences of rows in insertion (rowid) order.
    Only the constraints the code relies on are kept: the primary keys, the UNIQUE source url and the
    (content_id, category) key. Foreign keys are declared by the schema but never switched on, so
    deleting a content item or a source removes that one row and nothing else. */
module Storage {
  import opened Wrappers
  import opened Seqs
  import opened Records
  import Queries

  // Messages of the failures the model produces (constraint violations and injected engine errors).
  const ContentIdTaken := "failed to create RSS content: UNIQUE constraint failed: rss_contents.id"
  const CategoryTaken := "failed to insert category: UNIQUE constraint failed: content_categories.content_id, content_categories.category"
  const SourceIdTaken := "failed to create RSS source: UNIQUE constraint failed: rss_sources.id"
  const SourceUrlTaken := "failed to create RSS source: UNIQUE constraint failed: rss_sources.url"
  const SourceUrlTakenOnUpdate := "failed to update RSS source: UNIQUE constraint failed: rss_sources.url"
  const JobIdTaken := "failed to create fetch job: UNIQUE constraint failed: fetch_jobs.id"
  const FeedbackIdTaken := "failed to create recommendation feedback: UNIQUE constraint failed: recommendation_feedback.id"
  const RatingOutOfRange := "rating must be between 1 and 5"
  const DeleteContentFailed := "failed to delete RSS content: "
  const DeleteSourceFailed := "failed to delete RSS source: "

  /** The error for feedback on a content id that is not stored. */
  function ContentNotFound(id: string): string {
    "content with ID " + id + " not found"
  }

  /** The id and fetched time CreateContent fills in when they are missing. */
  function Stamped(c: RSSContent, freshId: string, now: Time): (r: RSSContent)
    ensures r.id == (if c.id == "" then freshId else c.id)
    ensures r.fetchedAt == (if c.fetchedAt == ZeroTime then now else c.fetchedAt)
    ensures r.(id := c.id, fetchedAt := c.fetchedAt) == c
  {
    c.(id := if c.id == "" then freshId else c.id, fetchedAt := if c.fetchedAt == ZeroTime then now else c.fetchedAt)
  }

  /** The category rows inserted for a content item, one per category in order. */
  function CategoryRows(id: string, cats: seq<string>): (r: seq<CategoryRow>)
    ensures |r| == |cats|
    ensures forall k :: 0 <= k < |cats| ==> r[k] == CategoryRow(id, cats[k])
  {
    seq(|cats|, k requires 0 <= k < |cats| => CategoryRow(id, cats[k]))
  }

  /** Every category insert for `id` succeeds: none is stored yet and none is repeated. */
  predicate CategoriesFresh(existing: seq<CategoryRow>, id: string, cats: seq<string>) {
    && (forall k :: 0 <= k < |cats| ==> CategoryRow(id, cats[k]) !in existing)
    && (forall k, l :: 0 <= k < l < |cats| ==> cats[k] != cats[l])
  }

  /** Other items' category rows followed by fresh rows for `id` contain no repeated row. */
  lemma ReplacedCategoriesDistinct(kept: seq<CategoryRow>, id: string, cats: seq<string>)
    requires Distinct(kept) && forall i :: 0 <= i < |kept| ==> kept[i].contentId != id
    requires CategoriesFresh([], id, cats)
    ensures Distinct(kept + CategoryRows(id, cats))
  {
    var staged := CategoryRows(id, cats);
    var all := kept + staged;
    forall i, j | 0 <= i < j < |all| ensures all[i] != all[j] {
      if j < |kept| {
        assert all[i] == kept[i] && all[j] == kept[j];
      } else if i < |kept| {
        assert all[i] == kept[i] && all[i].contentId != id;
        assert all[j] == staged[j - |kept|];
      } else {
        assert all[i] == staged[i - |kept|] && all[j] == staged[j - |kept|];
      }
    }
  }

  predicate NoRowWithId(contents: seq<RSSContent>, id: string) {
    forall i :: 0 <= i < |contents| ==> contents[i].id != id
  }

  /** The columns UpdateContent writes; everything else is left as it was. */
  function UpdatedRow(row: RSSContent, input: UpdateContentInput, now: Time): (r: RSSContent)
    ensures r.title == input.title && r.description == input.description && r.content == input.content
    ensures r.updatedAt == Some(now)
    ensures r.id == row.id && r.sourceId == row.sourceId && r.link == row.link && r.author == row.author
    ensures r.publishedAt == row.publishedAt && r.fetchedAt == row.fetchedAt && r.categories == row.categories
  {
    row.(title := input.title, description := input.description, content := input.content, updatedAt := Some(now))
  }

  /** Applies `f` to the rows with that id. */
  function UpdateWhere<T>(rows: seq<T>, key: T -> string, id: string, f: T -> T): (r: seq<T>)
    ensures |r| == |rows|
    ensures forall i :: 0 <= i < |rows| ==> r[i] == if key(rows[i]) == id then f(rows[i]) else rows[i]
  {
    seq(|rows|, i requires 0 <= i < |rows| => if key(rows[i]) == id then f(rows[i]) else rows[i])
  }

  /** The status written to fetch_jobs, the item count, and completed_at only for "completed" or "failed". */
  function JobUpdated(job: FetchJob, status: JobStatus, itemsProcessed: int, now: Time): (r: FetchJob)
    ensures r.status == status && r.itemsProcessed == itemsProcessed
    ensures r.completedAt == if status == Completed || status == Failed then Some(now) else job.completedAt
    ensures r.id == job.id && r.startedAt == job.startedAt && r.sourceId == job.sourceId && r.days == job.days
  {
    job.(status := status, itemsProcessed := itemsProcessed,
         completedAt := if status == Completed || status == Failed then Some(now) else job.completedAt)
  }

  // ---------------------------------------------------------------------------
  // Deletes by key, one statement after another

  function KeyIsNot<T>(key: T -> string, id: string): T -> bool {
    (x: T) => key(x) != id
  }

  /** What `DELETE ... WHERE id = ?` leaves: the rows with another key, in their order. */
  function Without<T(!new)>(rows: seq<T>, key: T -> string, id: string): (r: seq<T>)
    ensures forall x :: x in r <==> x in rows && key(x) != id
  {
    FilterMembers(rows, KeyIsNot(key, id));
    FilterKeeps(rows, KeyIsNot(key, id));
    Filter(rows, KeyIsNot(key, id))
  }

  /** Some row has key `id`. */
  predicate Stored<T>(rows: seq<T>, key: T -> string, id: string) {
    exists i :: 0 <= i < |rows| && key(rows[i]) == id
  }

  /** One delete of a batch: an id with no row changes nothing; otherwise its row goes, unless the
      engine fails the DELETE. */
  function DeleteStep<T(!new)>(rows: seq<T>, key: T -> string, id: string, fault: Option<string>): (r: seq<T>)
    ensures fault.Some? ==> r == rows
    ensures fault.None? ==> forall x :: x in r <==> x in rows && key(x) != id
  {
    if !Stored(rows, key, id) || fault.Some? then rows else Without(rows, key, id)
  }

  /** The table after deleting `ids` one after another; `faults` gives the engine error, if any, of
      each id's DELETE. */
  function AfterDeletes<T(!new)>(rows: seq<T>, key: T -> string, ids: seq<string>, faults: string -> Option<string>): seq<T>
    decreases |ids|
  {
    if |ids| == 0 then rows
    else DeleteStep(AfterDeletes(rows, key, ids[..|ids| - 1], faults), key, ids[|ids| - 1], faults(ids[|ids| - 1]))
  }

  /** The DeleteErrors a batch reports, in input order: one per id that is stored and whose DELETE
      fails; an unknown id is never reported. */
  function DeleteFailures<T(!new)>(rows: seq<T>, key: T -> string, ids: seq<string>, faults: string -> Option<string>, what: string): (r: seq<BatchError>)
    ensures |r| <= |ids|
    ensures forall k :: 0 <= k < |r| ==>
              && r[k].sourceId in ids && Stored(rows, key, r[k].sourceId) && faults(r[k].sourceId).Some?
              && r[k] == BatchError(0, r[k].sourceId, "DeleteError", what + faults(r[k].sourceId).value)
    decreases |ids|
  {
    if |ids| == 0 then []
    else
      var rest := DeleteFailures(rows, key, ids[1..], faults, what);
      assert forall k :: 0 <= k < |rest| ==> rest[k].sourceId in ids;
      (if Stored(rows, key, ids[0]) && faults(ids[0]).Some?
       then [BatchError(0, ids[0], "DeleteError", what + faults(ids[0]).value)] else [])
      + rest
  }

  /** A row survives a batch exactly when its key was not asked for or its DELETE fails. */
  lemma {:induction false} AfterDeletesMembers<T(!new)>(rows: seq<T>, key: T -> string, ids: seq<string>, faults: string -> Option<string>)
    ensures forall x :: x in AfterDeletes(rows, key, ids, faults) <==> x in rows && (key(x) !in ids || faults(key(x)).Some?)
    decreases |ids|
  {
    if |ids| > 0 {
      var init := ids[..|ids| - 1];
      var last := ids[|ids| - 1];
      AfterDeletesMembers(rows, key, init, faults);
      assert ids == init + [last];
      forall x ensures key(x) in ids <==> key(x) in init || key(x) == last {
      }
    }
  }

  /** An id whose DELETE fails is stored after any part of the batch exactly when it was before. */
  lemma StoredWhileFailing<T(!new)>(rows: seq<T>, key: T -> string, ids: seq<string>, faults: string -> Option<string>, id: string)
    requires faults(id).Some?
    ensures Stored(AfterDeletes(rows, key, ids, faults), key, id) <==> Stored(rows, key, id)
  {
    var after := AfterDeletes(rows, key, ids, faults);
    AfterDeletesMembers(rows, key, ids, faults);
    if Stored(rows, key, id) {
      var i :| 0 <= i < |rows| && key(rows[i]) == id;
      assert rows[i] in after;
      var j :| 0 <= j < |after| && after[j] == rows[i];
    }
    if Stored(after, key, id) {
      var j :| 0 <= j < |after| && key(after[j]) == id;
      assert after[j] in rows;
      var i :| 0 <= i < |rows| && rows[i] == after[j];
    }
  }

  lemma {:induction false} DeleteFailuresSnoc<T(!new)>(rows: seq<T>, key: T -> string, ids: seq<string>, id: string,
                                                 faults: string -> Option<string>, what: string)
    ensures DeleteFailures(rows, key, ids + [id], faults, what)
            == DeleteFailures(rows, key, ids, faults, what)
               + (if Stored(rows, key, id) && faults(id).Some?
                  then [BatchError(0, id, "DeleteError", what + faults(id).value)] else [])
    decreases |ids|
  {
    if |ids| == 0 {
      assert [id][1..] == [];
    } else {
      assert (ids + [id])[1..] == ids[1..] + [id];
      DeleteFailuresSnoc(rows, key, ids[1..], id, faults, what);
    }
  }

  /** One more delete of a batch: the table takes one DeleteStep, and an error is added exactly when
      the id is still stored and its DELETE fails. */
  lemma BatchDeleteStep<T(!new)>(rows: seq<T>, key: T -> string, ids: seq<string>, i: nat,
                           faults: string -> Option<string>, what: string)
    requires i < |ids|
    ensures ids[..i + 1][..i] == ids[..i] && ids[..i + 1][i] == ids[i]
    ensures AfterDeletes(rows, key, ids[..i + 1], faults)
            == DeleteStep(AfterDeletes(rows, key, ids[..i], faults), key, ids[i], faults(ids[i]))
    ensures DeleteFailures(rows, key, ids[..i + 1], faults, what)
            == DeleteFailures(rows, key, ids[..i], faults, what)
               + (if Stored(AfterDeletes(rows, key, ids[..i], faults), key, ids[i]) && faults(ids[i]).Some?
                  then [BatchError(0, ids[i], "DeleteError", what + faults(ids[i]).value)] else [])
  {
    assert ids[..i + 1] == ids[..i] + [ids[i]];
    DeleteFailuresSnoc(rows, key, ids[..i], ids[i], faults, what);
    if faults(ids[i]).Some? {
      StoredWhileFailing(rows, key, ids[..i], faults, ids[i]);
    }
  }

  /** Every id asked for that is stored and whose DELETE fails is named by an error. */
  lemma {:induction false} DeleteFailuresNames<T(!new)>(rows: seq<T>, key: T -> string, ids: seq<string>,
                                                        faults: string -> Option<string>, what: string, id: string)
    requires id in ids && Stored(rows, key, id) && faults(id).Some?
    ensures exists k :: 0 <= k < |DeleteFailures(rows, key, ids, faults, what)| && DeleteFailures(rows, key, ids, faults, what)[k].sourceId == id
    decreases |ids|
  {
    var r := DeleteFailures(rows, key, ids, faults, what);
    if ids[0] == id {
      assert r[0].sourceId == id;
    } else {
      DeleteFailuresNames(rows, key, ids[1..], faults, what, id);
      var rest := DeleteFailures(rows, key, ids[1..], faults, what);
      var k :| 0 <= k < |rest| && rest[k].sourceId == id;
      var n := |r| - |rest|;
      assert r[n + k] == rest[k];
    }
  }

  /** What a batch delete promises as a whole: it never adds rows, and every row left whose key was
      asked for is named by an error; with no engine error nothing is reported. */
  lemma BatchDeleteReported<T(!new)>(rows: seq<T>, key: T -> string, ids: seq<string>, faults: string -> Option<string>, what: string)
    ensures forall x :: x in AfterDeletes(rows, key, ids, faults) ==> x in rows
    ensures forall x :: x in AfterDeletes(rows, key, ids, faults) && key(x) in ids ==>
              exists k :: 0 <= k < |DeleteFailures(rows, key, ids, faults, what)| && DeleteFailures(rows, key, ids, faults, what)[k].sourceId == key(x)
    ensures (forall k :: 0 <= k < |ids| ==> faults(ids[k]).None?) ==> DeleteFailures(rows, key, ids, faults, what) == []
  {
    var after := AfterDeletes(rows, key, ids, faults);
    var r := DeleteFailures(rows, key, ids, faults, what);
    AfterDeletesMembers(rows, key, ids, faults);
    forall x | x in after && key(x) in ids
      ensures exists k :: 0 <= k < |r| && r[k].sourceId == key(x)
    {
      var i :| 0 <= i < |rows| && rows[i] == x;
      DeleteFailuresNames(rows, key, ids, faults, what, key(x));
    }
    if forall k :: 0 <= k < |ids| ==> faults(ids[k]).None? {
      DeleteFailuresNone(rows, key, ids, faults, what);
    }
  }

  lemma {:induction false} DeleteFailuresNone<T(!new)>(rows: seq<T>, key: T -> string, ids: seq<string>,
                                                       faults: string -> Option<string>, what: string)
    requires forall k :: 0 <= k < |ids| ==> faults(ids[k]).None?
    ensures DeleteFailures(rows, key, ids, faults, what) == []
    decreases |ids|
  {
    if |ids| > 0 {
      assert faults(ids[0]).None?;
      assert forall k :: 0 <= k < |ids[1..]| ==> ids[1..][k] == ids[k + 1];
      DeleteFailuresNone(rows, key, ids[1..], faults, what);
    }
  }

  // ---------------------------------------------------------------------------
  // Batch creation of sources, one input after another

  /** What CreateSource does against a table: a taken id fails, then a taken url; otherwise the new
      source, created and updated now and never fetched. */
  function CreateOutcome(sources: seq<RSSSource>, input: SourceInput, id: string, now: Time): (r: Result<RSSSource>)
  {
    if exists i :: 0 <= i < |sources| && sources[i].id == id then Err(SourceIdTaken)
    else if exists i :: 0 <= i < |sources| && sources[i].url == input.url then Err(SourceUrlTaken)
    else Ok(RSSSource(id, input.name, input.url, input.description, now, now, None))
  }

  /** The sources a batch creates, in input order: input n is created with id uuid(n) against the
      table the inputs before it left. */
  function Created(sources: seq<RSSSource>, inputs: seq<SourceInput>, uuid: nat -> string, now: Time): (r: seq<RSSSource>)
    decreases |inputs|
  {
    if |inputs| == 0 then []
    else
      var n := |inputs| - 1;
      var before := Created(sources, inputs[..n], uuid, now);
      match CreateOutcome(sources + before, inputs[n], uuid(n), now)
      case Ok(source) => before + [source]
      case Err(_) => before
  }

  /** The errors of a batch: one CreateError per input whose CreateSource fails, with its index and
      CreateSource's message, in input order. */
  function CreateFailures(sources: seq<RSSSource>, inputs: seq<SourceInput>, uuid: nat -> string, now: Time): (r: seq<BatchError>)
    decreases |inputs|
  {
    if |inputs| == 0 then []
    else
      var n := |inputs| - 1;
      var before := CreateFailures(sources, inputs[..n], uuid, now);
      match CreateOutcome(sources + Created(sources, inputs[..n], uuid, now), inputs[n], uuid(n), now)
      case Ok(_) => before
      case Err(e) => before + [BatchError(n, "", "CreateError", e)]
  }

  /** Every input is either created or reported, and each created source is stamped now and never
      fetched. */
  lemma {:induction false} CreateTally(sources: seq<RSSSource>, inputs: seq<SourceInput>, uuid: nat -> string, now: Time)
    ensures var created := Created(sources, inputs, uuid, now);
            && |created| + |CreateFailures(sources, inputs, uuid, now)| == |inputs|
            && forall k :: 0 <= k < |created| ==>
                 created[k].createdAt == now && created[k].updatedAt == now && created[k].lastFetchedAt.None?
    decreases |inputs|
  {
    if |inputs| > 0 {
      var n := |inputs| - 1;
      CreateTally(sources, inputs[..n], uuid, now);
      assert inputs[..n + 1] == inputs;
      BatchCreateStep(sources, inputs, n, uuid, now);
    }
  }

  /** Each error carries an input's index, in increasing order, with type CreateError and one of
      CreateSource's uniqueness messages. */
  lemma {:induction false} CreateFailuresShape(sources: seq<RSSSource>, inputs: seq<SourceInput>, uuid: nat -> string, now: Time)
    ensures var errors := CreateFailures(sources, inputs, uuid, now);
            && (forall k :: 0 <= k < |errors| ==>
                  && 0 <= errors[k].index < |inputs| && errors[k].errorType == "CreateError" && errors[k].sourceId == ""
                  && (errors[k].message == SourceIdTaken || errors[k].message == SourceUrlTaken))
            && (forall k, l :: 0 <= k < l < |errors| ==> errors[k].index < errors[l].index)
    decreases |inputs|
  {
    if |inputs| > 0 {
      var n := |inputs| - 1;
      CreateFailuresShape(sources, inputs[..n], uuid, now);
      assert inputs[..n + 1] == inputs;
      BatchCreateStep(sources, inputs, n, uuid, now);
    }
  }

  /** One more input of a batch: it is created or reported against the table built so far. */
  lemma BatchCreateStep(sources: seq<RSSSource>, inputs: seq<SourceInput>, i: nat, uuid: nat -> string, now: Time)
    requires i < |inputs|
    ensures var o := CreateOutcome(sources + Created(sources, inputs[..i], uuid, now), inputs[i], uuid(i), now);
            && Created(sources, inputs[..i + 1], uuid, now)
               == Created(sources, inputs[..i], uuid, now) + (if o.Ok? then [o.value] else [])
            && CreateFailures(sources, inputs[..i + 1], uuid, now)
               == CreateFailures(sources, inputs[..i], uuid, now) + (if o.Err? then [BatchError(i, "", "CreateError", o.error)] else [])
  {
    assert inputs[..i + 1][..i] == inputs[..i];
  }

  /** The sources inputs become when each is created with its own id: input k as RSSSource(uuid(k), …). */
  function NewSources(inputs: seq<SourceInput>, uuid: nat -> string, now: Time): (r: seq<RSSSource>)
    ensures |r| == |inputs|
    ensures forall k :: 0 <= k < |r| ==>
              r[k] == RSSSource(uuid(k), inputs[k].name, inputs[k].url, inputs[k].description, now, now, None)
  {
    seq(|inputs|, k requires 0 <= k < |inputs| =>
      RSSSource(uuid(k), inputs[k].name, inputs[k].url, inputs[k].description, now, now, None))
  }

  /** With ids unused and distinct, and urls new to the table and distinct, every input is created,
      with its own id, in input order, and nothing is reported. */
  lemma {:induction false} BatchCreateFresh(sources: seq<RSSSource>, inputs: seq<SourceInput>, uuid: nat -> string, now: Time)
    requires forall i, j :: 0 <= i < |inputs| && 0 <= j < |sources| ==> sources[j].id != uuid(i) && sources[j].url != inputs[i].url
    requires forall i, j :: 0 <= i < j < |inputs| ==> uuid(i) != uuid(j) && inputs[i].url != inputs[j].url
    ensures CreateFailures(sources, inputs, uuid, now) == []
    ensures Created(sources, inputs, uuid, now) == NewSources(inputs, uuid, now)
    decreases |inputs|
  {
    if |inputs| > 0 {
      var n := |inputs| - 1;
      var init := inputs[..n];
      assert forall i :: 0 <= i < n ==> init[i] == inputs[i];
      BatchCreateFresh(sources, init, uuid, now);
      NewSourcesSnoc(inputs, uuid, now);
      FreshAfter(sources, NewSources(init, uuid, now), inputs[n], uuid(n), now);
      BatchCreateStep(sources, inputs, n, uuid, now);
      assert inputs[..n + 1] == inputs;
    }
  }

  /** The last input's source follows those of the inputs before it, and its id and url differ from
      theirs when ids and urls are distinct. */
  lemma NewSourcesSnoc(inputs: seq<SourceInput>, uuid: nat -> string, now: Time)
    requires |inputs| > 0
    requires forall i, j :: 0 <= i < j < |inputs| ==> uuid(i) != uuid(j) && inputs[i].url != inputs[j].url
    ensures var n := |inputs| - 1;
            var before := NewSources(inputs[..n], uuid, now);
            && NewSources(inputs, uuid, now) == before + [RSSSource(uuid(n), inputs[n].name, inputs[n].url, inputs[n].description, now, now, None)]
            && forall j :: 0 <= j < |before| ==> before[j].id != uuid(n) && before[j].url != inputs[n].url
  {
    var n := |inputs| - 1;
    var before := NewSources(inputs[..n], uuid, now);
    forall j | 0 <= j < |before| ensures before[j].id != uuid(n) && before[j].url != inputs[n].url {
      assert inputs[..n][j] == inputs[j];
    }
    assert NewSources(inputs, uuid, now) == before + [NewSources(inputs, uuid, now)[n]];
  }

  lemma FreshAfter(sources: seq<RSSSource>, before: seq<RSSSource>, input: SourceInput, id: string, now: Time)
    requires forall j :: 0 <= j < |sources| ==> sources[j].id != id && sources[j].url != input.url
    requires forall j :: 0 <= j < |before| ==> before[j].id != id && before[j].url != input.url
    ensures CreateOutcome(sources + before, input, id, now) == Ok(RSSSource(id, input.name, input.url, input.description, now, now, None))
  {
    var table := sources + before;
    forall j | 0 <= j < |table| ensures table[j].id != id && table[j].url != input.url {
      if j >= |sources| {
        assert table[j] == before[j - |sources|];
      }
    }
  }

  class SQLiteDB {
    var sources: seq<RSSSource>
    var contents: seq<RSSContent>
    var categories: seq<CategoryRow>
    var jobs: seq<FetchJob>
    var jobErrors: seq<JobErrorRow>
    var feedback: seq<Feedback>
    /** Every status written to fetch_jobs, with the job id, in order. */
    ghost var statusWrites: seq<(string, JobStatus)>

    /** The table constraints: primary keys, the UNIQUE source url and the category key; rows of the
        contents and jobs tables carry no categories or errors (those live in their own tables). */
    ghost predicate Valid()
      reads this
    {
      && UniqueKeys(sources, SourceIdOf)
      && UniqueKeys(sources, SourceUrlOf)
      && UniqueKeys(contents, ContentIdOf)
      && UniqueKeys(jobs, JobIdOf)
      && UniqueKeys(feedback, FeedbackIdOf)
      && Distinct(categories)
      && (forall i :: 0 <= i < |contents| ==> contents[i].categories == [])
      && (forall i :: 0 <= i < |jobs| ==> jobs[i].errors == [])
    }

    /** An empty database. */
    constructor ()
      ensures Valid()
      ensures sources == [] && contents == [] && categories == [] && jobs == [] && jobErrors == [] && feedback == []
      ensures statusWrites == []
    {
      sources, contents, categories, jobs, jobErrors, feedback := [], [], [], [], [], [];
      statusWrites := [];
    }

    // -------------------------------------------------------------------------
    // Content items

    /** Inserts a content row and then one category row per category, as one transaction: the id is
        generated only when missing and fetched_at set only when zero; if the row or any category
        insert fails, nothing is stored. `stored` is the item as the caller's record reads afterwards. */
    method CreateContent(c: RSSContent, freshId: string, now: Time) returns (err: Option<string>, stored: RSSContent)
      requires Valid()
      modifies this
      ensures Valid()
      ensures stored == Stamped(c, freshId, now)
      ensures err.None? <==> NoRowWithId(old(contents), stored.id) && CategoriesFresh(old(categories), stored.id, c.categories)
      ensures err.None? ==> contents == old(contents) + [stored.(categories := [])]
                            && categories == old(categories) + CategoryRows(stored.id, c.categories)
      ensures err.Some? ==> contents == old(contents) && categories == old(categories)
      ensures err.Some? ==> err.value == (if NoRowWithId(old(contents), stored.id) then CategoryTaken else ContentIdTaken)
      ensures sources == old(sources) && jobs == old(jobs) && jobErrors == old(jobErrors) && feedback == old(feedback)
      ensures statusWrites == old(statusWrites)
    {
      stored := Stamped(c, freshId, now);
      var id := stored.id;
      if FindFirst(contents, (r: RSSContent) => r.id == id).Some? {
        return Some(ContentIdTaken), stored;
      }
      var staged := InsertCategories(id, c.categories);
      if staged.None? {
        return Some(CategoryTaken), stored;
      }
      contents := contents + [stored.(categories := [])];
      categories := categories + staged.value;
      forall i, j | 0 <= i < j < |contents| ensures ContentIdOf(contents[i]) != ContentIdOf(contents[j]) {
        if j == |contents| - 1 {
          assert contents[i] == old(contents)[i];
        }
      }
      err := None;
    }

    /** The category-insert loop: stages one row per category, failing at the first one whose
        (content_id, category) key is already stored or already staged. */
    method InsertCategories(id: string, cats: seq<string>) returns (staged: Option<seq<CategoryRow>>)
      requires Valid()
      ensures staged.Some? <==> CategoriesFresh(categories, id, cats)
      ensures staged.Some? ==> staged.value == CategoryRows(id, cats)
    {
      var rows: seq<CategoryRow> := [];
      var i := 0;
      while i < |cats|
        invariant 0 <= i <= |cats|
        invariant rows == CategoryRows(id, cats[..i])
        invariant CategoriesFresh(categories, id, cats[..i])
      {
        var row := CategoryRow(id, cats[i]);
        if row in categories || row in rows {
          if row in rows {
            var k :| 0 <= k < |rows| && rows[k] == row;
            assert cats[k] == cats[i];
          }
          return None;
        }
        rows := rows + [row];
        i := i + 1;
      }
      assert cats[..i] == cats;
      return Some(rows);
    }

    /** UpdateContent: on an unknown id, not found and nothing changes. Otherwise one transaction
        overwrites title, description, content and updated_at and replaces the whole category set;
        a repeated category rolls it back. On success the returned item is the stored one with the
        new categories. */
    method UpdateContent(id: string, input: UpdateContentInput, now: Time) returns (err: Option<string>, updated: Option<RSSContent>)
      requires Valid()
      modifies this
      ensures Valid()
      ensures NoRowWithId(old(contents), id) ==> err.None? && updated.None? && contents == old(contents) && categories == old(categories)
      ensures !NoRowWithId(old(contents), id) && !CategoriesFresh([], id, input.categories) ==>
                err == Some(CategoryTaken) && updated.None? && contents == old(contents) && categories == old(categories)
      ensures !NoRowWithId(old(contents), id) && CategoriesFresh([], id, input.categories) ==>
                && err.None?
                && contents == UpdateWhere(old(contents), ContentIdOf, id, (r: RSSContent) => UpdatedRow(r, input, now))
                && categories == Filter(old(categories), (r: CategoryRow) => r.contentId != id) + CategoryRows(id, input.categories)
                && updated.Some?
                && updated.value == UpdatedRow(Queries.GetContent(old(contents), old(categories), id).value, input, now).(categories := input.categories)
      ensures sources == old(sources) && jobs == old(jobs) && jobErrors == old(jobErrors) && feedback == old(feedback)
      ensures statusWrites == old(statusWrites)
    {
      var current := Queries.GetContent(contents, categories, id);
      if current.None? {
        return None, None;
      }
      var kept := Filter(categories, (r: CategoryRow) => r.contentId != id);
      FilterMembers(categories, (r: CategoryRow) => r.contentId != id);
      var staged := StageCategories(kept, id, input.categories);
      if staged.None? {
        return Some(CategoryTaken), None;
      }
      FilterDistinct(categories, (r: CategoryRow) => r.contentId != id);
      ReplacedCategoriesDistinct(kept, id, input.categories);
      contents := UpdateWhere(contents, ContentIdOf, id, (r: RSSContent) => UpdatedRow(r, input, now));
      categories := kept + staged.value;
      return None, Some(UpdatedRow(current.value, input, now).(categories := input.categories));
    }

    /** The category-insert loop of UpdateContent, run after the item's old categories are deleted:
        the remaining rows belong to other items, so only a category repeated in the input fails. */
    static method StageCategories(kept: seq<CategoryRow>, id: string, cats: seq<string>) returns (staged: Option<seq<CategoryRow>>)
      requires forall i :: 0 <= i < |kept| ==> kept[i].contentId != id
      ensures staged.Some? <==> CategoriesFresh([], id, cats)
      ensures staged.Some? ==> staged.value == CategoryRows(id, cats)
    {
      var rows: seq<CategoryRow> := [];
      var i := 0;
      while i < |cats|
        invariant 0 <= i <= |cats|
        invariant rows == CategoryRows(id, cats[..i])
        invariant CategoriesFresh([], id, cats[..i])
      {
        var row := CategoryRow(id, cats[i]);
        if row in kept || row in rows {
          if row in kept {
            assert false;
          }
          var k :| 0 <= k < |rows| && rows[k] == row;
          assert cats[k] == cats[i];
          return None;
        }
        rows := rows + [row];
        i := i + 1;
      }
      assert cats[..i] == cats;
      return Some(rows);
    }

    /** DeleteContent: an unknown id succeeds with no change; otherwise the one row is deleted unless
        the engine reports `fault`. Category rows stay (no cascade without foreign keys). */
    method DeleteContent(id: string, fault: Option<string>) returns (err: Option<string>)
      requires Valid()
      modifies this
      ensures Valid()
      ensures NoRowWithId(old(contents), id) ==> err.None? && contents == old(contents)
      ensures !NoRowWithId(old(contents), id) && fault.Some? ==>
                err == Some(DeleteContentFailed + fault.value) && contents == old(contents)
      ensures !NoRowWithId(old(contents), id) && fault.None? ==>
                err.None? && contents == Without(old(contents), ContentIdOf, id)
      ensures contents == DeleteStep(old(contents), ContentIdOf, id, fault)
      ensures err.None? ==> NoRowWithId(contents, id)
      ensures forall x :: x in contents ==> x in old(contents)
      ensures categories == old(categories) && sources == old(sources) && jobs == old(jobs)
      ensures jobErrors == old(jobErrors) && feedback == old(feedback) && statusWrites == old(statusWrites)
    {
      if Queries.GetContent(contents, categories, id).None? {
        return None;
      }
      assert Stored(contents, ContentIdOf, id);
      if fault.Some? {
        return Some(DeleteContentFailed + fault.value);
      }
      var p := KeyIsNot(ContentIdOf, id);
      FilterMembers(contents, p);
      FilterUniqueKeys(contents, ContentIdOf, p);
      contents := Without(contents, ContentIdOf, id);
      return None;
    }

    /** One iteration of the batch: CreateSource on input i, its source or its error recorded. */
    method CreateNext(inputs: seq<SourceInput>, i: nat, uuid: nat -> string, now: Time, ghost s0: seq<RSSSource>,
                      created: seq<RSSSource>, errors: seq<BatchError>) returns (created': seq<RSSSource>, errors': seq<BatchError>)
      requires Valid() && i < |inputs|
      requires sources == s0 + created
      requires created == Created(s0, inputs[..i], uuid, now) && errors == CreateFailures(s0, inputs[..i], uuid, now)
      modifies this
      ensures Valid()
      ensures sources == s0 + created'
      ensures created' == Created(s0, inputs[..i + 1], uuid, now) && errors' == CreateFailures(s0, inputs[..i + 1], uuid, now)
      ensures contents == old(contents) && categories == old(categories) && jobs == old(jobs)
      ensures jobErrors == old(jobErrors) && feedback == old(feedback) && statusWrites == old(statusWrites)
    {
      BatchCreateStep(s0, inputs, i, uuid, now);
      var r := CreateSource(inputs[i], uuid(i), now);
      assert r == CreateOutcome(s0 + created, inputs[i], uuid(i), now);
      if r.Ok? {
        created', errors' := created + [r.value], errors;
      } else {
        created', errors' := created, errors + [BatchError(i, "", "CreateError", r.error)];
      }
    }

    /** One iteration of the batch delete: a failed delete is appended to `errors` as a DeleteError. */
    method DeleteContentReported(id: string, fault: Option<string>, errors: seq<BatchError>) returns (deleted: bool, errors': seq<BatchError>)
      requires Valid()
      modifies this
      ensures Valid()
      ensures deleted ==> errors' == errors && NoRowWithId(contents, id)
      ensures !deleted ==> |errors'| == |errors| + 1 && errors'[..|errors|] == errors
                           && errors'[|errors|].sourceId == id && errors'[|errors|].index == 0
                           && errors'[|errors|].errorType == "DeleteError"
      ensures fault.None? ==> deleted
      ensures contents == DeleteStep(old(contents), ContentIdOf, id, fault)
      ensures errors' == errors + (if Stored(old(contents), ContentIdOf, id) && fault.Some?
                                   then [BatchError(0, id, "DeleteError", DeleteContentFailed + fault.value)] else [])
      ensures forall x :: x in contents ==> x in old(contents)
      ensures categories == old(categories) && sources == old(sources) && jobs == old(jobs)
      ensures jobErrors == old(jobErrors) && feedback == old(feedback) && statusWrites == old(statusWrites)
    {
      var err := DeleteContent(id, fault);
      if err.Some? {
        errors' := errors + [BatchError(0, id, "DeleteError", err.value)];
        assert errors'[..|errors|] == errors;
        return false, errors';
      }
      return true, errors;
    }

    /** BatchDeleteContents: deletes each id in turn; every id is either counted as deleted or
        reported, in input order, as a DeleteError naming it. `faults` gives the engine error, if any,
        of each DELETE statement. */
    method BatchDeleteContents(ids: seq<string>, faults: string -> Option<string>) returns (deletedCount: int, errors: seq<BatchError>)
      requires Valid()
      modifies this
      ensures Valid()
      ensures deletedCount + |errors| == |ids|
      ensures contents == AfterDeletes(old(contents), ContentIdOf, ids, faults)
      ensures errors == DeleteFailures(old(contents), ContentIdOf, ids, faults, DeleteContentFailed)
      ensures forall k :: 0 <= k < |errors| ==>
                errors[k].errorType == "DeleteError" && errors[k].index == 0 && errors[k].sourceId in ids
      ensures forall x :: x in contents ==> x in old(contents)
      ensures forall i :: 0 <= i < |contents| && contents[i].id in ids ==>
                exists k :: 0 <= k < |errors| && errors[k].sourceId == contents[i].id
      ensures (forall k :: 0 <= k < |ids| ==> faults(ids[k]).None?) ==> errors == [] && deletedCount == |ids|
      ensures categories == old(categories) && sources == old(sources) && jobs == old(jobs)
      ensures jobErrors == old(jobErrors) && feedback == old(feedback) && statusWrites == old(statusWrites)
    {
      deletedCount, errors := 0, [];
      var i := 0;
      while i < |ids|
        invariant 0 <= i <= |ids|
        invariant Valid()
        invariant deletedCount + |errors| == i
        invariant contents == AfterDeletes(old(contents), ContentIdOf, ids[..i], faults)
        invariant errors == DeleteFailures(old(contents), ContentIdOf, ids[..i], faults, DeleteContentFailed)
        invariant categories == old(categories) && sources == old(sources) && jobs == old(jobs)
        invariant jobErrors == old(jobErrors) && feedback == old(feedback) && statusWrites == old(statusWrites)
      {
        var deleted;
        deleted, errors := DeleteContentReported(ids[i], faults(ids[i]), errors);
        if deleted {
          deletedCount := deletedCount + 1;
        }
        BatchDeleteStep(old(contents), ContentIdOf, ids, i, faults, DeleteContentFailed);
        i := i + 1;
      }
      assert ids[..i] == ids;
      BatchDeleteReported(old(contents), ContentIdOf, ids, faults, DeleteContentFailed);
      forall j | 0 <= j < |contents| && contents[j].id in ids
        ensures exists k :: 0 <= k < |errors| && errors[k].sourceId == contents[j].id
      {
        assert contents[j] in contents && ContentIdOf(contents[j]) in ids;
      }
    }

    // -------------------------------------------------------------------------
    // Fetch jobs

    /** CreateFetchJob: a pending job with no items, the given scope and days, and no errors. */
    method CreateFetchJob(sourceId: Option<string>, days: int, id: string, now: Time) returns (r: Result<FetchJob>)
      requires Valid()
      modifies this
      ensures Valid()
      ensures r.Ok? <==> forall i :: 0 <= i < |old(jobs)| ==> old(jobs)[i].id != id
      ensures r.Ok? ==> r.value == FetchJob(id, Pending, now, None, 0, sourceId, days, [])
                        && jobs == old(jobs) + [r.value]
                        && statusWrites == old(statusWrites) + [(id, Pending)]
      ensures r.Err? ==> r.error == JobIdTaken && jobs == old(jobs) && statusWrites == old(statusWrites)
      ensures sources == old(sources) && contents == old(contents) && categories == old(categories)
      ensures jobErrors == old(jobErrors) && feedback == old(feedback)
    {
      if FindFirst(jobs, (j: FetchJob) => j.id == id).Some? {
        return Err(JobIdTaken);
      }
      var job := FetchJob(id, Pending, now, None, 0, sourceId, days, []);
      jobs := jobs + [job];
      statusWrites := statusWrites + [(id, Pending)];
      forall i, j | 0 <= i < j < |jobs| ensures JobIdOf(jobs[i]) != JobIdOf(jobs[j]) {
        if j == |jobs| - 1 {
          assert jobs[i] == old(jobs)[i];
        }
      }
      return Ok(job);
    }

    /** UpdateFetchJobStatus: overwrites status and item count of the job with that id (if any),
        sets completed_at only for "completed" and "failed", and appends an error row exactly when
        the message is non-empty, even for an unknown id. */
    method UpdateFetchJobStatus(id: string, status: JobStatus, itemsProcessed: int, errorMsg: string, now: Time)
      requires Valid()
      modifies this
      ensures Valid()
      ensures jobs == UpdateWhere(old(jobs), JobIdOf, id, (j: FetchJob) => JobUpdated(j, status, itemsProcessed, now))
      ensures jobErrors == old(jobErrors) + (if errorMsg != "" then [JobErrorRow(id, errorMsg)] else [])
      ensures statusWrites == old(statusWrites) + [(id, status)]
      ensures sources == old(sources) && contents == old(contents) && categories == old(categories)
      ensures feedback == old(feedback)
    {
      jobs := UpdateWhere(jobs, JobIdOf, id, (j: FetchJob) => JobUpdated(j, status, itemsProcessed, now));
      if errorMsg != "" {
        jobErrors := jobErrors + [JobErrorRow(id, errorMsg)];
      }
      statusWrites := statusWrites + [(id, status)];
    }

    // -------------------------------------------------------------------------
    // Sources

    /** CreateSource: a new source with created_at = updated_at = now and no last-fetched time;
        fails, storing nothing, when the id or the url is already taken. */
    method CreateSource(input: SourceInput, id: string, now: Time) returns (r: Result<RSSSource>)
      requires Valid()
      modifies this
      ensures Valid()
      ensures r == CreateOutcome(old(sources), input, id, now)
      ensures r.Ok? <==> (forall i :: 0 <= i < |old(sources)| ==> old(sources)[i].id != id && old(sources)[i].url != input.url)
      ensures r.Ok? ==> r.value == RSSSource(id, input.name, input.url, input.description, now, now, None)
                        && sources == old(sources) + [r.value]
      ensures r.Err? ==> sources == old(sources) && (r.error == SourceIdTaken || r.error == SourceUrlTaken)
      ensures contents == old(contents) && categories == old(categories) && jobs == old(jobs)
      ensures jobErrors == old(jobErrors) && feedback == old(feedback) && statusWrites == old(statusWrites)
    {
      if FindFirst(sources, (s: RSSSource) => s.id == id).Some? {
        return Err(SourceIdTaken);
      }
      if FindFirst(sources, (s: RSSSource) => s.url == input.url).Some? {
        return Err(SourceUrlTaken);
      }
      var source := RSSSource(id, input.name, input.url, input.description, now, now, None);
      sources := sources + [source];
      forall i, j | 0 <= i < j < |sources|
        ensures SourceIdOf(sources[i]) != SourceIdOf(sources[j]) && SourceUrlOf(sources[i]) != SourceUrlOf(sources[j])
      {
        if j == |sources| - 1 {
          assert sources[i] == old(sources)[i];
        }
      }
      return Ok(source);
    }

    /** UpdateSource: on an unknown id, not found and nothing changes; otherwise name, url,
        description and updated_at are overwritten, keeping created_at and the last-fetched time.
        An url already used by another source violates the UNIQUE constraint and changes nothing. */
    method UpdateSource(id: string, input: SourceInput, now: Time) returns (err: Option<string>, updated: Option<RSSSource>)
      requires Valid()
      modifies this
      ensures Valid()
      ensures Queries.GetSource(old(sources), id).None? ==> err.None? && updated.None? && sources == old(sources)
      ensures Queries.GetSource(old(sources), id).Some? ==>
                var before := Queries.GetSource(old(sources), id).value;
                if exists i :: 0 <= i < |old(sources)| && old(sources)[i].id != id && old(sources)[i].url == input.url then
                  err == Some(SourceUrlTakenOnUpdate) && updated.None? && sources == old(sources)
                else
                  && err.None?
                  && updated == Some(before.(name := input.name, url := input.url, description := input.description, updatedAt := now))
                  && sources == UpdateWhere(old(sources), SourceIdOf, id, (s: RSSSource) => s.(name := input.name, url := input.url, description := input.description, updatedAt := now))
      ensures contents == old(contents) && categories == old(categories) && jobs == old(jobs)
      ensures jobErrors == old(jobErrors) && feedback == old(feedback) && statusWrites == old(statusWrites)
    {
      var current := Queries.GetSource(sources, id);
      if current.None? {
        return None, None;
      }
      var clash := FindFirst(sources, (s: RSSSource) => s.id != id && s.url == input.url);
      if clash.Some? {
        return Some(SourceUrlTakenOnUpdate), None;
      }
      var f := (s: RSSSource) => s.(name := input.name, url := input.url, description := input.description, updatedAt := now);
      sources := UpdateWhere(sources, SourceIdOf, id, f);
      forall i, j | 0 <= i < j < |sources|
        ensures SourceIdOf(sources[i]) != SourceIdOf(sources[j]) && SourceUrlOf(sources[i]) != SourceUrlOf(sources[j])
      {
        assert old(sources)[i].id != old(sources)[j].id;
      }
      return None, Some(f(current.value));
    }

    /** DeleteSource: an unknown id succeeds with no change; otherwise the row is deleted unless the
        engine reports `fault`. The source's content items stay (no cascade without foreign keys). */
    method DeleteSource(id: string, fault: Option<string>) returns (err: Option<string>)
      requires Valid()
      modifies this
      ensures Valid()
      ensures Queries.GetSource(old(sources), id).None? ==> err.None? && sources == old(sources)
      ensures Queries.GetSource(old(sources), id).Some? && fault.Some? ==>
                err == Some(DeleteSourceFailed + fault.value) && sources == old(sources)
      ensures Queries.GetSource(old(sources), id).Some? && fault.None? ==>
                err.None? && sources == Without(old(sources), SourceIdOf, id)
      ensures sources == DeleteStep(old(sources), SourceIdOf, id, fault)
      ensures err.None? ==> Queries.GetSource(sources, id).None?
      ensures forall x :: x in sources ==> x in old(sources)
      ensures contents == old(contents) && categories == old(categories) && jobs == old(jobs)
      ensures jobErrors == old(jobErrors) && feedback == old(feedback) && statusWrites == old(statusWrites)
    {
      if Queries.GetSource(sources, id).None? {
        return None;
      }
      assert Stored(sources, SourceIdOf, id);
      if fault.Some? {
        return Some(DeleteSourceFailed + fault.value);
      }
      var p := KeyIsNot(SourceIdOf, id);
      FilterUniqueKeys(sources, SourceIdOf, p);
      FilterUniqueKeys(sources, SourceUrlOf, p);
      sources := Without(sources, SourceIdOf, id);
      return None;
    }

    /** BatchCreateSources: creates each input in turn; the created sources keep input order and each
        failure is reported with its input index, so every input is accounted for exactly once. */
    method BatchCreateSources(inputs: seq<SourceInput>, uuid: nat -> string, now: Time) returns (created: seq<RSSSource>, errors: seq<BatchError>)
      requires Valid()
      modifies this
      ensures Valid()
      ensures |created| + |errors| == |inputs|
      ensures forall k :: 0 <= k < |errors| ==> 0 <= errors[k].index < |inputs| && errors[k].errorType == "CreateError"
      ensures forall k, l :: 0 <= k < l < |errors| ==> errors[k].index < errors[l].index
      ensures sources == old(sources) + created
      ensures created == Created(old(sources), inputs, uuid, now)
      ensures errors == CreateFailures(old(sources), inputs, uuid, now)
      ensures forall k :: 0 <= k < |created| ==> created[k].createdAt == now && created[k].updatedAt == now && created[k].lastFetchedAt.None?
      ensures contents == old(contents) && categories == old(categories) && jobs == old(jobs)
      ensures jobErrors == old(jobErrors) && feedback == old(feedback) && statusWrites == old(statusWrites)
    {
      created, errors := [], [];
      var i := 0;
      while i < |inputs|
        invariant 0 <= i <= |inputs|
        invariant Valid()
        invariant sources == old(sources) + created
        invariant created == Created(old(sources), inputs[..i], uuid, now)
        invariant errors == CreateFailures(old(sources), inputs[..i], uuid, now)
        invariant contents == old(contents) && categories == old(categories) && jobs == old(jobs)
        invariant jobErrors == old(jobErrors) && feedback == old(feedback) && statusWrites == old(statusWrites)
      {
        created, errors := CreateNext(inputs, i, uuid, now, old(sources), created, errors);
        i := i + 1;
      }
      assert inputs[..i] == inputs;
      CreateTally(old(sources), inputs, uuid, now);
      CreateFailuresShape(old(sources), inputs, uuid, now);
    }

    /** One iteration of the batch delete: a failed delete is appended to `errors` as a DeleteError. */
    method DeleteSourceReported(id: string, fault: Option<string>, errors: seq<BatchError>) returns (deleted: bool, errors': seq<BatchError>)
      requires Valid()
      modifies this
      ensures Valid()
      ensures deleted ==> errors' == errors && Queries.GetSource(sources, id).None?
      ensures !deleted ==> |errors'| == |errors| + 1 && errors'[..|errors|] == errors
                           && errors'[|errors|].sourceId == id && errors'[|errors|].index == 0
                           && errors'[|errors|].errorType == "DeleteError"
      ensures fault.None? ==> deleted
      ensures sources == DeleteStep(old(sources), SourceIdOf, id, fault)
      ensures errors' == errors + (if Stored(old(sources), SourceIdOf, id) && fault.Some?
                                   then [BatchError(0, id, "DeleteError", DeleteSourceFailed + fault.value)] else [])
      ensures forall x :: x in sources ==> x in old(sources)
      ensures contents == old(contents) && categories == old(categories) && jobs == old(jobs)
      ensures jobErrors == old(jobErrors) && feedback == old(feedback) && statusWrites == old(statusWrites)
    {
      var err := DeleteSource(id, fault);
      if err.Some? {
        errors' := errors + [BatchError(0, id, "DeleteError", err.value)];
        assert errors'[..|errors|] == errors;
        return false, errors';
      }
      return true, errors;
    }

    /** BatchDeleteSources: deletes each id in turn; every id is counted as deleted or reported, in
        input order, as a DeleteError naming it, and unknown ids count as deleted. */
    method BatchDeleteSources(ids: seq<string>, faults: string -> Option<string>) returns (deletedCount: int, errors: seq<BatchError>)
      requires Valid()
      modifies this
      ensures Valid()
      ensures deletedCount + |errors| == |ids|
      ensures sources == AfterDeletes(old(sources), SourceIdOf, ids, faults)
      ensures errors == DeleteFailures(old(sources), SourceIdOf, ids, faults, DeleteSourceFailed)
      ensures forall k :: 0 <= k < |errors| ==>
                errors[k].errorType == "DeleteError" && errors[k].index == 0 && errors[k].sourceId in ids
      ensures forall x :: x in sources ==> x in old(sources)
      ensures forall i :: 0 <= i < |sources| && sources[i].id in ids ==>
                exists k :: 0 <= k < |errors| && errors[k].sourceId == sources[i].id
      ensures (forall k :: 0 <= k < |ids| ==> faults(ids[k]).None?) ==> errors == [] && deletedCount == |ids|
      ensures contents == old(contents) && categories == old(categories) && jobs == old(jobs)
      ensures jobErrors == old(jobErrors) && feedback == old(feedback) && statusWrites == old(statusWrites)
    {
      deletedCount, errors := 0, [];
      var i := 0;
      while i < |ids|
        invariant 0 <= i <= |ids|
        invariant Valid()
        invariant deletedCount + |errors| == i
        invariant sources == AfterDeletes(old(sources), SourceIdOf, ids[..i], faults)
        invariant errors == DeleteFailures(old(sources), SourceIdOf, ids[..i], faults, DeleteSourceFailed)
        invariant contents == old(contents) && categories == old(categories) && jobs == old(jobs)
        invariant jobErrors == old(jobErrors) && feedback == old(feedback) && statusWrites == old(statusWrites)
      {
        var deleted;
        deleted, errors := DeleteSourceReported(ids[i], faults(ids[i]), errors);
        if deleted {
          deletedCount := deletedCount + 1;
        }
        BatchDeleteStep(old(sources), SourceIdOf, ids, i, faults, DeleteSourceFailed);
        i := i + 1;
      }
      assert ids[..i] == ids;
      BatchDeleteReported(old(sources), SourceIdOf, ids, faults, DeleteSourceFailed);
      forall j | 0 <= j < |sources| && sources[j].id in ids
        ensures exists k :: 0 <= k < |errors| && errors[k].sourceId == sources[j].id
      {
        assert sources[j] in sources && SourceIdOf(sources[j]) in ids;
      }
    }

    /** UpdateSourceLastFetchedAt: sets last_fetched_at of the source with that id and nothing else;
        an unknown id changes nothing and is not an error. */
    method UpdateSourceLastFetchedAt(id: string, t: Time)
      requires Valid()
      modifies this
      ensures Valid()
      ensures sources == UpdateWhere(old(sources), SourceIdOf, id, (s: RSSSource) => s.(lastFetchedAt := Some(t)))
      ensures contents == old(contents) && categories == old(categories) && jobs == old(jobs)
      ensures jobErrors == old(jobErrors) && feedback == old(feedback) && statusWrites == old(statusWrites)
    {
      sources := UpdateWhere(sources, SourceIdOf, id, (s: RSSSource) => s.(lastFetchedAt := Some(t)));
      forall i, j | 0 <= i < j < |sources|
        ensures SourceIdOf(sources[i]) != SourceIdOf(sources[j]) && SourceUrlOf(sources[i]) != SourceUrlOf(sources[j])
      {
        assert old(sources)[i].url != old(sources)[j].url;
      }
    }

    // -------------------------------------------------------------------------
    // Feedback

    /** CreateRecommendationFeedback: a rating outside 1..5 is rejected before anything else, then
        feedback on an unknown content item; otherwise one row is stored and echoed back. */
    method CreateRecommendationFeedback(input: FeedbackInput, id: string, now: Time) returns (r: Result<Feedback>)
      requires Valid()
      modifies this
      ensures Valid()
      ensures (input.rating < 1 || input.rating > 5) ==> r == Err(RatingOutOfRange)
      ensures 1 <= input.rating <= 5 && NoRowWithId(old(contents), input.contentId) ==>
                r == Err(ContentNotFound(input.contentId))
      ensures r.Ok? <==> 1 <= input.rating <= 5 && !NoRowWithId(old(contents), input.contentId)
                         && forall i :: 0 <= i < |old(feedback)| ==> old(feedback)[i].id != id
      ensures r.Ok? ==> r.value == Feedback(id, input.contentId, input.userId, input.rating, now, input.comment)
                        && feedback == old(feedback) + [r.value]
      ensures r.Err? ==> feedback == old(feedback)
      ensures sources == old(sources) && contents == old(contents) && categories == old(categories)
      ensures jobs == old(jobs) && jobErrors == old(jobErrors) && statusWrites == old(statusWrites)
    {
      if input.rating < 1 || input.rating > 5 {
        return Err(RatingOutOfRange);
      }
      if Queries.GetContent(contents, categories, input.contentId).None? {
        return Err(ContentNotFound(input.contentId));
      }
      if FindFirst(feedback, (f: Feedback) => f.id == id).Some? {
        return Err(FeedbackIdTaken);
      }
      var row := Feedback(id, input.contentId, input.userId, input.rating, now, input.comment);
      feedback := feedback + [row];
      forall i, j | 0 <= i < j < |feedback| ensures FeedbackIdOf(feedback[i]) != FeedbackIdOf(feedback[j]) {
        if j == |feedback| - 1 {
          assert feedback[i] == old(feedback)[i];
        }
      }
      return Ok(row);
    }
  }
}
