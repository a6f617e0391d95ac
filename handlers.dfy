/** The request checks and parameter normalisation of the recommendation handlers and of the content
    search handler: what status code and body each request gets, and which query reaches storage. */
module Handlers {
  import opened Wrappers
  import opened Seqs
  import opened Records
  import opened Strconv
  import Queries
  import Ranking
  import Storage

  /** The JSON body of a reply. */
  datatype Body =
    | ErrorBody(error: string)
    | RecommendationsBody(recommendations: seq<Ranking.Recommendation>, count: int)
    | FeedbackBody(feedback: Feedback)
    | ContentsBody(contents: seq<RSSContent>, count: int)

  datatype Reply = Reply(code: int, body: Body)

  const StatusOK := 200
  const StatusCreated := 201
  const StatusBadRequest := 400
  const StatusInternalServerError := 500

  /** A query parameter read with a default: the default when the parameter is absent, its first
      value (possibly empty) otherwise. */
  function DefaultQuery(param: seq<string>, default: string): string {
    if |param| == 0 then default else param[0]
  }

  // ---------------------------------------------------------------------------
  // GetRecommendations

  predicate NonEmpty(s: string) { s != "" }

  /** The source filter: nothing when the first `sourceIds` value is missing or empty; otherwise
      every non-empty value, each taken whole (a value is not split on commas). */
  function SourceIdsParam(values: seq<string>): (r: seq<string>)
    ensures |values| == 0 || values[0] == "" ==> r == []
    ensures forall i :: 0 <= i < |r| ==> r[i] != "" && r[i] in values
  {
    FilterMembers(values, NonEmpty);
    if |values| == 0 || values[0] == "" then [] else Filter(values, NonEmpty)
  }

  /** When the first value is set, every non-empty value is kept, in order. */
  lemma SourceIdsKept(values: seq<string>)
    requires |values| > 0 && values[0] != ""
    ensures SourceIdsParam(values) == Filter(values, NonEmpty)
    ensures forall i :: 0 <= i < |values| && values[i] != "" ==> values[i] in SourceIdsParam(values)
    ensures |SourceIdsParam(values)| == |values| - Count(values, (v: string) => v == "")
  {
    FilterMembers(values, NonEmpty);
    FilterKeeps(values, NonEmpty);
    CountIsFilterLength(values, NonEmpty);
    CountComplement(values);
  }

  lemma {:induction false} CountComplement(values: seq<string>)
    ensures Count(values, NonEmpty) + Count(values, (v: string) => v == "") == |values|
    decreases |values|
  {
    if |values| > 0 {
      CountComplement(values[1..]);
    }
  }

  /** The storage query a GET /recommendations request asks for: the limit is Atoi of the `limit`
      parameter (default "10"), errors ignored. */
  function RecommendationsQuery(userId: string, limitParam: seq<string>, sourceIdValues: seq<string>): (r: Ranking.RecommendationsInput)
    ensures r.userId == userId && r.sourceIds == SourceIdsParam(sourceIdValues)
    ensures r.limit == Atoi(DefaultQuery(limitParam, "10"))
  {
    Ranking.RecommendationsInput(userId, SourceIdsParam(sourceIdValues), Atoi(DefaultQuery(limitParam, "10")))
  }

  /** GetRecommendations: a storage failure is a 500 with its message; otherwise a 200 listing the
      recommendations with their count. */
  function GetRecommendations(sources: seq<RSSSource>, contents: seq<RSSContent>, feedback: seq<Feedback>,
                              userId: string, limitParam: seq<string>, sourceIdValues: seq<string>,
                              now: Time, fault: Option<string>): (r: Reply)
    ensures fault.Some? ==> r == Reply(StatusInternalServerError, ErrorBody("Failed to get recommendations: " + fault.value))
    ensures fault.None? ==> r.code == StatusOK && r.body.RecommendationsBody?
                            && r.body.count == |r.body.recommendations|
                            && r.body.recommendations
                               == Ranking.GetRecommendations(sources, contents, feedback,
                                                             RecommendationsQuery(userId, limitParam, sourceIdValues), now)
  {
    if fault.Some? then Reply(StatusInternalServerError, ErrorBody("Failed to get recommendations: " + fault.value))
    else
      var recs := Ranking.GetRecommendations(sources, contents, feedback, RecommendationsQuery(userId, limitParam, sourceIdValues), now);
      Reply(StatusOK, RecommendationsBody(recs, |recs|))
  }

  /** An absent, empty, non-numeric or non-positive limit parameter makes the effective limit 10:
      the reply lists ten recommendations, or every eligible item when there are fewer. */
  lemma DefaultLimit(sources: seq<RSSSource>, contents: seq<RSSContent>, feedback: seq<Feedback>,
                     userId: string, limitParam: seq<string>, sourceIdValues: seq<string>, now: Time)
    requires Atoi(DefaultQuery(limitParam, "10")) <= 0 || |limitParam| == 0
    ensures Ranking.RecommendationLimit(RecommendationsQuery(userId, limitParam, sourceIdValues).limit) == Ranking.DefaultRecommendationLimit
    ensures var r := GetRecommendations(sources, contents, feedback, userId, limitParam, sourceIdValues, now, None);
            var m := |Ranking.EligibleItems(contents, feedback, RecommendationsQuery(userId, limitParam, sourceIdValues), now)|;
            r.body.count == if Ranking.DefaultRecommendationLimit < m then Ranking.DefaultRecommendationLimit else m
  {
    if |limitParam| == 0 {
      AtoiTen();
    }
    Ranking.GetRecommendationsBest(sources, contents, feedback, RecommendationsQuery(userId, limitParam, sourceIdValues), now);
  }

  /** The default limit parameter reads as 10. */
  lemma AtoiTen()
    ensures Atoi("10") == 10
  {
    AtoiDecimal(10);
    assert Decimal(10) == "10" by {
      assert Decimal(1) == "1";
    }
  }

  // ---------------------------------------------------------------------------
  // SubmitFeedback

  const ContentIdRequired := "contentId is required"
  const UserIdRequired := "userId is required"
  const RatingRange := "rating must be between 1 and 5"
  const SubmitFailed := "Failed to submit feedback: "

  /** The first failing check of a feedback body, in the handler's order. */
  function FeedbackProblem(body: Result<FeedbackInput>): (r: Option<string>)
    ensures body.Err? ==> r == Some("Invalid request body: " + body.error)
    ensures r.None? <==> body.Ok? && body.value.contentId != "" && body.value.userId != "" && 1 <= body.value.rating <= 5
  {
    match body
    case Err(e) => Some("Invalid request body: " + e)
    case Ok(input) =>
      if input.contentId == "" then Some(ContentIdRequired)
      else if input.userId == "" then Some(UserIdRequired)
      else if input.rating < 1 || input.rating > 5 then Some(RatingRange)
      else None
  }

  /** SubmitFeedback: a malformed body, a missing contentId, a missing userId and a rating outside
      1..5 are 400s, checked in that order, and store nothing; a storage failure, unknown content
      included, is a 500; otherwise the stored record is returned with 201. */
  method SubmitFeedback(db: Storage.SQLiteDB, body: Result<FeedbackInput>, id: string, now: Time) returns (reply: Reply)
    requires db.Valid()
    modifies db
    ensures db.Valid()
    ensures FeedbackProblem(body).Some? ==>
              reply == Reply(StatusBadRequest, ErrorBody(FeedbackProblem(body).value)) && db.feedback == old(db.feedback)
    ensures body.Ok? && body.value.contentId == "" ==> reply.body == ErrorBody(ContentIdRequired)
    ensures body.Ok? && body.value.contentId != "" && body.value.userId == "" ==> reply.body == ErrorBody(UserIdRequired)
    ensures body.Ok? && body.value.contentId != "" && body.value.userId != "" && (body.value.rating < 1 || body.value.rating > 5) ==>
              reply.body == ErrorBody(RatingRange)
    ensures FeedbackProblem(body).None? && Storage.NoRowWithId(old(db.contents), body.value.contentId) ==>
              reply == Reply(StatusInternalServerError,
                             ErrorBody(SubmitFailed + Storage.ContentNotFound(body.value.contentId)))
    ensures reply.code == StatusCreated ==>
              && FeedbackProblem(body).None?
              && reply.body == FeedbackBody(Feedback(id, body.value.contentId, body.value.userId, body.value.rating, now, body.value.comment))
              && db.feedback == old(db.feedback) + [reply.body.feedback]
    ensures reply.code != StatusCreated ==> db.feedback == old(db.feedback)
    ensures reply.code in {StatusCreated, StatusBadRequest, StatusInternalServerError}
    ensures db.sources == old(db.sources) && db.contents == old(db.contents) && db.categories == old(db.categories)
    ensures db.jobs == old(db.jobs) && db.jobErrors == old(db.jobErrors) && db.statusWrites == old(db.statusWrites)
  {
    var problem := FeedbackProblem(body);
    if problem.Some? {
      return Reply(StatusBadRequest, ErrorBody(problem.value));
    }
    var input := body.value;
    var stored := db.CreateRecommendationFeedback(input, id, now);
    if stored.Err? {
      return Reply(StatusInternalServerError, ErrorBody(SubmitFailed + stored.error));
    }
    return Reply(StatusCreated, FeedbackBody(stored.value));
  }

  // ---------------------------------------------------------------------------
  // SearchContents

  /** The content search handler: an empty `keywords` parameter is a 400; a storage failure a 500;
      otherwise a 200 with the matches for the limit Atoi(limit parameter, default "50") and their
      count. */
  function SearchContents(contents: seq<RSSContent>, keywords: string, sourceId: string, limitParam: seq<string>,
                          fault: Option<string>): (r: Reply)
    ensures keywords == "" ==> r == Reply(StatusBadRequest, ErrorBody("Keywords parameter is required"))
    ensures keywords != "" && fault.Some? ==> r == Reply(StatusInternalServerError, ErrorBody("Failed to search contents: " + fault.value))
    ensures keywords != "" && fault.None? ==>
              && r.code == StatusOK && r.body.ContentsBody?
              && r.body.count == |r.body.contents|
              && r.body.contents == Queries.SearchContents(contents, keywords, sourceId, Atoi(DefaultQuery(limitParam, "50")))
  {
    if keywords == "" then Reply(StatusBadRequest, ErrorBody("Keywords parameter is required"))
    else if fault.Some? then Reply(StatusInternalServerError, ErrorBody("Failed to search contents: " + fault.value))
    else
      var found := Queries.SearchContents(contents, keywords, sourceId, Atoi(DefaultQuery(limitParam, "50")));
      Reply(StatusOK, ContentsBody(found, |found|))
  }
}
