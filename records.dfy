/** The rows and records of the storage package: sources, content items, fetch jobs and feedback. */
module Records {
  import opened Wrappers

  /** Instants are whole seconds counted from Go's zero `time.Time`, so `t.IsZero()` is `t == 0`. */
  type Time = int

  const ZeroTime: Time := 0
  const SecondsPerDay: int := 86400

  /** `t.AddDate(0, 0, -days)` */
  function DaysBefore(t: Time, days: int): Time {
    t - days * SecondsPerDay
  }

  /** A row of rss_sources. */
  datatype RSSSource = RSSSource(
    id: string,
    name: string,
    url: string,
    description: string,
    createdAt: Time,
    updatedAt: Time,
    lastFetchedAt: Option<Time>)

  /** CreateSourceInput and UpdateSourceInput, which have the same fields. */
  datatype SourceInput = SourceInput(name: string, url: string, description: string)

  /** A row of rss_contents; `categories` is filled in from content_categories when an item is read back. */
  datatype RSSContent = RSSContent(
    id: string,
    sourceId: string,
    title: string,
    link: string,
    description: string,
    content: string,
    publishedAt: Time,
    fetchedAt: Time,
    updatedAt: Option<Time>,
    author: string,
    categories: seq<string>)

  datatype UpdateContentInput = UpdateContentInput(
    title: string,
    description: string,
    content: string,
    categories: seq<string>)

  /** A row of content_categories, whose primary key is the whole pair. */
  datatype CategoryRow = CategoryRow(contentId: string, category: string)

  datatype JobStatus = Pending | InProgress | Completed | CompletedWithErrors | Failed {
    /** The text stored in fetch_jobs.status. */
    function Name(): string {
      match this
      case Pending => "pending"
      case InProgress => "in-progress"
      case Completed => "completed"
      case CompletedWithErrors => "completed_with_errors"
      case Failed => "failed"
    }
  }

  /** A row of fetch_jobs; `errors` is filled in from job_errors when a job is read back. */
  datatype FetchJob = FetchJob(
    id: string,
    status: JobStatus,
    startedAt: Time,
    completedAt: Option<Time>,
    itemsProcessed: int,
    sourceId: Option<string>,
    days: int,
    errors: seq<string>)

  /** A row of job_errors; rows are kept in insertion order, which is their timestamp order. */
  datatype JobErrorRow = JobErrorRow(jobId: string, message: string)

  /** RecommendationFeedback */
  datatype Feedback = Feedback(
    id: string,
    contentId: string,
    userId: string,
    rating: int,
    timestamp: Time,
    comment: string)

  /** CreateRecommendationFeedbackInput */
  datatype FeedbackInput = FeedbackInput(contentId: string, userId: string, rating: int, comment: string)

  /** BatchError: `index` is used by batch creation, `sourceId` by batch deletion. */
  datatype BatchError = BatchError(index: int, sourceId: string, errorType: string, message: string)

  // Primary and unique keys, as functions for the generic list operations.
  function SourceIdOf(s: RSSSource): string { s.id }
  function SourceUrlOf(s: RSSSource): string { s.url }
  function ContentIdOf(c: RSSContent): string { c.id }
  function JobIdOf(j: FetchJob): string { j.id }
  function FeedbackIdOf(f: Feedback): string { f.id }
}
