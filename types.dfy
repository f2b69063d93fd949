/**
 * The row shapes of the feedback wall's database (src/types/database.ts).
 *
 * Identifiers are opaque strings. Timestamps, which the database hands out
 * as ISO strings, are modelled as integer milliseconds since the epoch, the
 * value `new Date(s).getTime()` yields for a well-formed string.
 */
module Types {

  datatype Option<+T> = None | Some(value: T)

  /** Milliseconds since the epoch. */
  type Timestamp = int

  /** The `vote_type` enum: exactly two polarities. */
  datatype VoteType = Up | Down

  /** The spelling of a polarity in the database enum. */
  function VoteTypeName(v: VoteType): (s: string)
    ensures s == "up" || s == "down"
  {
    match v
    case Up => "up"
    case Down => "down"
  }

  /** Reads a database enum value back; anything other than the two spellings is refused. */
  function ParseVoteType(s: string): (r: Option<VoteType>)
    ensures r.Some? <==> (s == "up" || s == "down")
  {
    if s == "up" then Some(Up)
    else if s == "down" then Some(Down)
    else None
  }

  lemma VoteTypeRoundTrip(v: VoteType, s: string)
    ensures ParseVoteType(VoteTypeName(v)) == Some(v)
    ensures ParseVoteType(s) == Some(v) ==> VoteTypeName(v) == s
  {
  }

  /** A stored feedback entry; only `description` may be null. */
  datatype Feedback = Feedback(
    id: string,
    title: string,
    description: Option<string>,
    created_by: string,
    created_at: Timestamp)

  /** A row of the `feedback_with_votes` view: a feedback entry and its vote totals. */
  datatype FeedbackWithVotesRow = FeedbackWithVotesRow(
    feedback: Feedback,
    vote_count: int,
    upvotes: int,
    downvotes: int)

  /**
   * `FeedbackWithVotes`: a `Feedback` plus its vote totals and the signed-in
   * user's own vote. `user_vote` is optional and nullable in the source; both
   * the absent and the null case are `None` here, as every reader of the
   * field treats them alike (`feedback.user_vote ?? null`).
   */
  datatype FeedbackWithVotes = FeedbackWithVotes(
    feedback: Feedback,
    vote_count: int,
    upvotes: int,
    downvotes: int,
    user_vote: Option<VoteType>)

  /** The view row a `FeedbackWithVotes` was built from: everything but `user_vote`. */
  function Totals(f: FeedbackWithVotes): FeedbackWithVotesRow
  {
    FeedbackWithVotesRow(f.feedback, f.vote_count, f.upvotes, f.downvotes)
  }

  /**
   * A `FeedbackWithVotes` is exactly its view row plus `user_vote`: two of them
   * are equal when, and only when, their rows and their user votes are.
   */
  lemma TotalsAndVoteDetermine(f: FeedbackWithVotes, g: FeedbackWithVotes)
    ensures f == g <==> Totals(f) == Totals(g) && f.user_vote == g.user_vote
  {
  }

  /** A stored vote. */
  datatype Vote = Vote(
    id: string,
    feedback_id: string,
    user_id: string,
    vote_type: VoteType,
    created_at: Timestamp)

  /** The insert shape of the `feedback` table: `id` and `created_at` are filled in by the database. */
  datatype FeedbackInsert = FeedbackInsert(
    id: Option<string>,
    title: string,
    description: Option<string>,
    created_by: string,
    created_at: Option<Timestamp>)

  /** The insert shape of the `votes` table: all three of feedback, user and polarity are required. */
  datatype VoteInsert = VoteInsert(
    id: Option<string>,
    feedback_id: string,
    user_id: string,
    vote_type: VoteType,
    created_at: Option<Timestamp>)

  /** What one read against the backend returns: rows, a null `data` without an error, or an error. */
  datatype Fetch<+T> = Rows(rows: seq<T>) | Null | Error(message: string)

  /** `data || []`: the rows of a read, an empty list when `data` is null. */
  function RowsOrEmpty<T>(f: Fetch<T>): (r: seq<T>)
    ensures f.Rows? ==> r == f.rows
    ensures !f.Rows? ==> r == []
  {
    if f.Rows? then f.rows else []
  }
}
