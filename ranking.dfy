/** The recommendation query of the storage package: recent items, scored by recency blended with
    the user's average rating of the item's source, with already-rated items left out; plus the
    user's feedback history and the placeholder list of the `IN (...)` clause. */
module Ranking {
  import opened Wrappers
  import opened Seqs
  import opened Records
  import Queries

  const DefaultRecommendationLimit: int := 10
  /** Only items published within this many days are recommended, and recency falls to 0 over them. */
  const RecentDays: int := 7

  datatype RecommendationsInput = RecommendationsInput(userId: string, sourceIds: seq<string>, limit: int)

  /** RecommendationResult */
  datatype Recommendation = Recommendation(content: RSSContent, score: real, recommendFor: string)

  // ---------------------------------------------------------------------------
  // The per-source average: AVG(rf.rating) over rss_sources s JOIN rss_contents rc ON s.id = rc.source_id
  // JOIN recommendation_feedback rf ON rc.id = rf.content_id WHERE rf.user_id = ?, grouped by s.id.

  /** How many joined rows one feedback row contributes to the group of `sourceId`. */
  function JoinWeight(sources: seq<RSSSource>, contents: seq<RSSContent>, sourceId: string, rf: Feedback): nat {
    Count(sources, (s: RSSSource) => s.id == sourceId)
    * Count(contents, (rc: RSSContent) => rc.id == rf.contentId && rc.sourceId == sourceId)
  }

  /** COUNT of the group: the joined rows for this user and source. */
  function JoinCount(sources: seq<RSSSource>, contents: seq<RSSContent>, feedback: seq<Feedback>, userId: string, sourceId: string): nat
    decreases |feedback|
  {
    if |feedback| == 0 then 0
    else (if feedback[0].userId == userId then JoinWeight(sources, contents, sourceId, feedback[0]) else 0)
         + JoinCount(sources, contents, feedback[1..], userId, sourceId)
  }

  /** SUM of the ratings of the group. */
  function JoinSum(sources: seq<RSSSource>, contents: seq<RSSContent>, feedback: seq<Feedback>, userId: string, sourceId: string): int
    decreases |feedback|
  {
    if |feedback| == 0 then 0
    else (if feedback[0].userId == userId then JoinWeight(sources, contents, sourceId, feedback[0]) * feedback[0].rating else 0)
         + JoinSum(sources, contents, feedback[1..], userId, sourceId)
  }

  /** A feedback row joins the group of `sourceId`: that source is stored, and so is an item of it
      with the rated id. */
  predicate Joins(sources: seq<RSSSource>, contents: seq<RSSContent>, sourceId: string, rf: Feedback) {
    && (exists k :: 0 <= k < |sources| && sources[k].id == sourceId)
    && (exists j :: 0 <= j < |contents| && contents[j].id == rf.contentId && contents[j].sourceId == sourceId)
  }

  /** The user rated some stored item of the stored source `sourceId`. */
  predicate RatedSource(sources: seq<RSSSource>, contents: seq<RSSContent>, feedback: seq<Feedback>, userId: string, sourceId: string) {
    exists i :: 0 <= i < |feedback| && feedback[i].userId == userId && Joins(sources, contents, sourceId, feedback[i])
  }

  /** A feedback row contributes joined rows exactly when it joins the group. */
  lemma JoinWeightPositive(sources: seq<RSSSource>, contents: seq<RSSContent>, sourceId: string, rf: Feedback)
    ensures JoinWeight(sources, contents, sourceId, rf) > 0 <==> Joins(sources, contents, sourceId, rf)
  {
    CountZero(sources, (s: RSSSource) => s.id == sourceId);
    CountZero(contents, (rc: RSSContent) => rc.id == rf.contentId && rc.sourceId == sourceId);
  }

  /** The group is empty exactly when the user rated no stored item of the stored source. */
  lemma {:induction false} JoinCountZero(sources: seq<RSSSource>, contents: seq<RSSContent>, feedback: seq<Feedback>, userId: string, sourceId: string)
    ensures JoinCount(sources, contents, feedback, userId, sourceId) == 0 <==> !RatedSource(sources, contents, feedback, userId, sourceId)
    decreases |feedback|
  {
    if |feedback| > 0 {
      JoinCountZero(sources, contents, feedback[1..], userId, sourceId);
      JoinWeightPositive(sources, contents, sourceId, feedback[0]);
      if RatedSource(sources, contents, feedback[1..], userId, sourceId) {
        var i :| 0 <= i < |feedback[1..]| && feedback[1..][i].userId == userId && Joins(sources, contents, sourceId, feedback[1..][i]);
        assert feedback[i + 1] == feedback[1..][i];
      }
      if RatedSource(sources, contents, feedback, userId, sourceId) {
        var i :| 0 <= i < |feedback| && feedback[i].userId == userId && Joins(sources, contents, sourceId, feedback[i]);
        if i > 0 {
          assert feedback[1..][i - 1] == feedback[i];
        }
      }
    }
  }

  /** The user's average rating of the source's items, or None (SQL NULL) when the user rated none of them. */
  function AverageRating(sources: seq<RSSSource>, contents: seq<RSSContent>, feedback: seq<Feedback>, userId: string, sourceId: string): (r: Option<real>)
    ensures r.None? <==> !RatedSource(sources, contents, feedback, userId, sourceId)
  {
    JoinCountZero(sources, contents, feedback, userId, sourceId);
    var n := JoinCount(sources, contents, feedback, userId, sourceId);
    if n == 0 then None
    else Some(JoinSum(sources, contents, feedback, userId, sourceId) as real / n as real)
  }

  /** Ratings within 1..5 keep the group's sum between its count and five times its count. */
  lemma {:induction false} JoinSumBounds(sources: seq<RSSSource>, contents: seq<RSSContent>, feedback: seq<Feedback>, userId: string, sourceId: string)
    requires forall i :: 0 <= i < |feedback| ==> 1 <= feedback[i].rating <= 5
    ensures JoinCount(sources, contents, feedback, userId, sourceId) <= JoinSum(sources, contents, feedback, userId, sourceId)
    ensures JoinSum(sources, contents, feedback, userId, sourceId) <= 5 * JoinCount(sources, contents, feedback, userId, sourceId)
    decreases |feedback|
  {
    if |feedback| > 0 {
      JoinSumBounds(sources, contents, feedback[1..], userId, sourceId);
      var w := JoinWeight(sources, contents, sourceId, feedback[0]);
      assert w <= w * feedback[0].rating <= 5 * w;
    }
  }

  /** With every stored rating in 1..5, an average, when there is one, lies in 1..5. */
  lemma AverageRatingBounds(sources: seq<RSSSource>, contents: seq<RSSContent>, feedback: seq<Feedback>, userId: string, sourceId: string)
    requires forall i :: 0 <= i < |feedback| ==> 1 <= feedback[i].rating <= 5
    ensures var a := AverageRating(sources, contents, feedback, userId, sourceId);
            a.Some? ==> 1.0 <= a.value <= 5.0
  {
    JoinSumBounds(sources, contents, feedback, userId, sourceId);
    var n := JoinCount(sources, contents, feedback, userId, sourceId);
    if n > 0 {
      QuotientBounds(JoinSum(sources, contents, feedback, userId, sourceId), n);
    }
  }

  lemma QuotientBounds(s: int, n: int)
    requires 0 < n <= s <= 5 * n
    ensures 1.0 <= s as real / n as real <= 5.0
  {
    var q := s as real / n as real;
    assert q * n as real == s as real;
    assert n as real <= s as real <= 5.0 * n as real;
    if q > 5.0 {
      assert (q - 5.0) * n as real > 0.0;
      assert q * n as real > 5.0 * n as real;
    }
  }

  // ---------------------------------------------------------------------------
  // Scoring and selection

  /** 1 - age/7 with the age in days: 1 for an item published now, 0 for one published 7 days ago. */
  function Recency(now: Time, publishedAt: Time): (r: real) {
    1.0 - (now - publishedAt) as real / (RecentDays * SecondsPerDay) as real
  }

  /** 0.7 x average + 0.3 x recency when the user rated the source, recency alone otherwise. */
  function Blend(average: Option<real>, recency: real): (r: real) {
    match average
    case Some(a) => a * 0.7 + recency * 0.3
    case None => recency
  }

  /** The user rated this item. */
  predicate RatedBy(feedback: seq<Feedback>, userId: string, contentId: string) {
    exists i :: 0 <= i < |feedback| && feedback[i].userId == userId && feedback[i].contentId == contentId
  }

  /** The WHERE clause: published in the last 7 days, from a requested source, and not rated by the user. */
  predicate Eligible(feedback: seq<Feedback>, input: RecommendationsInput, now: Time, c: RSSContent) {
    && c.publishedAt >= DaysBefore(now, RecentDays)
    && (|input.sourceIds| == 0 || c.sourceId in input.sourceIds)
    && (input.userId == "" || !RatedBy(feedback, input.userId, c.id))
  }

  function Scored(sources: seq<RSSSource>, contents: seq<RSSContent>, feedback: seq<Feedback>, input: RecommendationsInput, now: Time, c: RSSContent): Recommendation {
    Recommendation(
      Queries.Listed(c),
      Blend(AverageRating(sources, contents, feedback, input.userId, c.sourceId), Recency(now, c.publishedAt)),
      input.userId)
  }

  function ScoreOf(r: Recommendation): real { r.score }

  function RecommendationLimit(limit: int): int {
    if limit <= 0 then DefaultRecommendationLimit else limit
  }

  /** The rows the WHERE clause selects, in storage order. */
  function EligibleItems(contents: seq<RSSContent>, feedback: seq<Feedback>, input: RecommendationsInput, now: Time): seq<RSSContent> {
    Filter(contents, (c: RSSContent) => Eligible(feedback, input, now, c))
  }

  /** The selected rows with their scores. */
  function Candidates(sources: seq<RSSSource>, contents: seq<RSSContent>, feedback: seq<Feedback>, input: RecommendationsInput, now: Time): seq<Recommendation> {
    Map((c: RSSContent) => Scored(sources, contents, feedback, input, now, c), EligibleItems(contents, feedback, input, now))
  }

  /** GetRecommendations: the eligible items, highest score first, at most `limit` (10 for limit <= 0). */
  function GetRecommendations(sources: seq<RSSSource>, contents: seq<RSSContent>, feedback: seq<Feedback>, input: RecommendationsInput, now: Time): seq<Recommendation> {
    Take(SortDesc(Candidates(sources, contents, feedback, input, now), ScoreOf), RecommendationLimit(input.limit))
  }

  /** What the ranking promises about the list as a whole: at most `limit` results in non-increasing
      score order, and when the eligible items fit, all of them appear. */
  lemma GetRecommendationsSpec(sources: seq<RSSSource>, contents: seq<RSSContent>, feedback: seq<Feedback>, input: RecommendationsInput, now: Time)
    ensures |GetRecommendations(sources, contents, feedback, input, now)| <= RecommendationLimit(input.limit)
    ensures SortedDesc(GetRecommendations(sources, contents, feedback, input, now), ScoreOf)
    ensures |EligibleItems(contents, feedback, input, now)| <= RecommendationLimit(input.limit) ==>
              multiset(GetRecommendations(sources, contents, feedback, input, now))
              == multiset(Candidates(sources, contents, feedback, input, now))
  {
    var scored := Candidates(sources, contents, feedback, input, now);
    var sorted := SortDesc(scored, ScoreOf);
    SortDescSorted(scored, ScoreOf);
    TakeSortedDesc(sorted, ScoreOf, RecommendationLimit(input.limit));
    assert |sorted| == |multiset(scored)| == |scored|;
  }

  /** Under truncation the ranking returns the best-scored eligible items: as many as the limit
      allows (10 for limit <= 0) or as there are eligible items, and none scoring lower than an
      eligible item left out. */
  lemma GetRecommendationsBest(sources: seq<RSSSource>, contents: seq<RSSContent>, feedback: seq<Feedback>, input: RecommendationsInput, now: Time)
    ensures var n := RecommendationLimit(input.limit);
            var m := |EligibleItems(contents, feedback, input, now)|;
            |GetRecommendations(sources, contents, feedback, input, now)| == if n < m then n else m
    ensures var r := GetRecommendations(sources, contents, feedback, input, now);
            forall x, y :: x in Candidates(sources, contents, feedback, input, now) && x !in r && y in r ==> y.score >= x.score
  {
    var eligible := EligibleItems(contents, feedback, input, now);
    var scored := Candidates(sources, contents, feedback, input, now);
    assert |scored| == |eligible|;
    var r := GetRecommendations(sources, contents, feedback, input, now);
    assert r == Take(SortDesc(scored, ScoreOf), RecommendationLimit(input.limit));
    TopSelection(scored, ScoreOf, RecommendationLimit(input.limit));
    forall x, y | x in scored && x !in r && y in r ensures y.score >= x.score {
      assert ScoreOf(y) >= ScoreOf(x);
    }
  }

  /** Each recommendation is the scored form of an eligible stored item: published in the last 7
      days, from a requested source when sources are given, and not rated by a non-empty user. */
  lemma RecommendationsFrom(sources: seq<RSSSource>, contents: seq<RSSContent>, feedback: seq<Feedback>, input: RecommendationsInput, now: Time)
    ensures var r := GetRecommendations(sources, contents, feedback, input, now);
            forall i :: 0 <= i < |r| ==>
              exists c :: c in contents && r[i] == Scored(sources, contents, feedback, input, now, c)
                          && Eligible(feedback, input, now, c)
  {
    var r := GetRecommendations(sources, contents, feedback, input, now);
    forall i: int | 0 <= i < |r|
      ensures exists c :: c in contents && r[i] == Scored(sources, contents, feedback, input, now, c)
                          && Eligible(feedback, input, now, c)
    {
      var c := RecommendationFrom(sources, contents, feedback, input, now, i);
      assert c in contents && r[i] == Scored(sources, contents, feedback, input, now, c) && Eligible(feedback, input, now, c);
    }
    assert forall i :: 0 <= i < |r| ==>
             exists c :: c in contents && r[i] == Scored(sources, contents, feedback, input, now, c)
                          && Eligible(feedback, input, now, c);
  }

  /** The stored item behind the recommendation at position `i`. */
  lemma RecommendationFrom(sources: seq<RSSSource>, contents: seq<RSSContent>, feedback: seq<Feedback>, input: RecommendationsInput, now: Time, i: nat)
    returns (c: RSSContent)
    requires i < |GetRecommendations(sources, contents, feedback, input, now)|
    ensures c in contents && Eligible(feedback, input, now, c)
    ensures GetRecommendations(sources, contents, feedback, input, now)[i] == Scored(sources, contents, feedback, input, now, c)
  {
    var p := (c: RSSContent) => Eligible(feedback, input, now, c);
    var f := (c: RSSContent) => Scored(sources, contents, feedback, input, now, c);
    assert GetRecommendations(sources, contents, feedback, input, now)
           == Take(SortDesc(Map(f, Filter(contents, p)), ScoreOf), RecommendationLimit(input.limit));
    c := TopFrom(f, contents, p, ScoreOf, RecommendationLimit(input.limit), i);
  }

  /** An item the user has rated is never recommended to that user. */
  lemma RatedItemsExcluded(sources: seq<RSSSource>, contents: seq<RSSContent>, feedback: seq<Feedback>, input: RecommendationsInput, now: Time, k: nat)
    requires input.userId != "" && k < |feedback| && feedback[k].userId == input.userId
    requires UniqueKeys(contents, ContentIdOf)
    ensures forall i :: 0 <= i < |GetRecommendations(sources, contents, feedback, input, now)| ==>
              GetRecommendations(sources, contents, feedback, input, now)[i].content.id != feedback[k].contentId
  {
    RecommendationsFrom(sources, contents, feedback, input, now);
  }

  /** The score of one recent item lies between 0 and 0.7 x 5 + 0.3 = 3.8 when ratings are in 1..5. */
  lemma ScoredBounds(sources: seq<RSSSource>, contents: seq<RSSContent>, feedback: seq<Feedback>, input: RecommendationsInput, now: Time, c: RSSContent)
    requires forall i :: 0 <= i < |feedback| ==> 1 <= feedback[i].rating <= 5
    requires DaysBefore(now, RecentDays) <= c.publishedAt <= now
    ensures 0.0 <= Scored(sources, contents, feedback, input, now, c).score <= 3.8
  {
    var rec := Recency(now, c.publishedAt);
    var span := (RecentDays * SecondsPerDay) as real;
    var age := (now - c.publishedAt) as real;
    assert 0.0 <= age <= span;
    assert age / span <= 1.0 by {
      assert age / span * span == age;
    }
    assert 0.0 <= rec <= 1.0;
    AverageRatingBounds(sources, contents, feedback, input.userId, c.sourceId);
  }

  /** With ratings in 1..5 and no item published after now, every recommended score lies in 0..3.8. */
  lemma ScoreBounds(sources: seq<RSSSource>, contents: seq<RSSContent>, feedback: seq<Feedback>, input: RecommendationsInput, now: Time)
    requires forall i :: 0 <= i < |feedback| ==> 1 <= feedback[i].rating <= 5
    requires forall i :: 0 <= i < |contents| ==> contents[i].publishedAt <= now
    ensures forall r :: r in GetRecommendations(sources, contents, feedback, input, now) ==> 0.0 <= r.score <= 3.8
  {
    RecommendationsFrom(sources, contents, feedback, input, now);
    var rs := GetRecommendations(sources, contents, feedback, input, now);
    forall r | r in rs ensures 0.0 <= r.score <= 3.8 {
      var i :| 0 <= i < |rs| && rs[i] == r;
      var c :| c in contents && r == Scored(sources, contents, feedback, input, now, c)
               && Eligible(feedback, input, now, c);
      ScoredBounds(sources, contents, feedback, input, now, c);
    }
  }

  // ---------------------------------------------------------------------------
  // GetUserFeedback and createPlaceholders

  function TimestampKey(f: Feedback): real { f.timestamp as real }

  /** GetUserFeedback: the user's feedback, newest first. */
  function GetUserFeedback(feedback: seq<Feedback>, userId: string): seq<Feedback> {
    SortDesc(Filter(feedback, (f: Feedback) => f.userId == userId), TimestampKey)
  }

  /** Only the user's own feedback, all of it, newest first. */
  lemma GetUserFeedbackSpec(feedback: seq<Feedback>, userId: string)
    ensures var r := GetUserFeedback(feedback, userId);
            && SortedDesc(r, TimestampKey)
            && multiset(r) == multiset(Filter(feedback, (f: Feedback) => f.userId == userId))
            && (forall i :: 0 <= i < |r| ==> r[i].userId == userId && r[i] in feedback)
            && (forall i :: 0 <= i < |feedback| && feedback[i].userId == userId ==> feedback[i] in r)
  {
    var p := (f: Feedback) => f.userId == userId;
    var mine := Filter(feedback, p);
    var r := GetUserFeedback(feedback, userId);
    SortDescSorted(mine, TimestampKey);
    forall i | 0 <= i < |r| ensures r[i].userId == userId && r[i] in feedback {
      FilterMembers(feedback, p);
      assert r[i] in multiset(mine);
    }
    forall i | 0 <= i < |feedback| && feedback[i].userId == userId ensures feedback[i] in r {
      FilterKeeps(feedback, p);
      assert feedback[i] in multiset(r);
    }
  }

  /** createPlaceholders: "?" repeated `count` times, separated by ","; empty for count <= 0. */
  method CreatePlaceholders(count: int) returns (s: string)
    ensures count <= 0 ==> s == ""
    ensures count > 0 ==> |s| == 2 * count - 1
    ensures forall i :: 0 <= i < |s| ==> s[i] == if i % 2 == 0 then '?' else ','
  {
    if count <= 0 {
      return "";
    }
    s := "?";
    var i := 1;
    while i < count
      invariant 1 <= i <= count
      invariant |s| == 2 * i - 1
      invariant forall k :: 0 <= k < |s| ==> s[k] == if k % 2 == 0 then '?' else ','
    {
      s := s + ",?";
      i := i + 1;
    }
  }
}
