/**
 * The ranked feedback list (src/components/FeedbackList.tsx): one refresh
 * reads the aggregated rows and the signed-in user's votes, annotates every
 * row with that user's vote, ranks the result and publishes it.
 */
module FeedbackList {
  import opened Types
  import opened Ranking

  /** A row of the user's own votes: the select of `feedback_id, vote_type`. */
  datatype UserVoteRow = UserVoteRow(feedback_id: string, vote_type: VoteType)

  /**
   * The map the `reduce` builds: rows are written into it in order, so a later
   * row for the same feedback id overwrites an earlier one.
   */
  ghost function VotesByFeedback(rows: seq<UserVoteRow>): map<string, VoteType>
    decreases |rows|
  {
    if rows == [] then map[]
    else VotesByFeedback(rows[..|rows| - 1])[rows[|rows| - 1].feedback_id := rows[|rows| - 1].vote_type]
  }

  /**
   * The map holds exactly the feedback ids of the rows, and each id holds the
   * vote of the last row that names it.
   */
  lemma {:induction false} VotesByFeedbackLastWins(rows: seq<UserVoteRow>)
    ensures VotesByFeedback(rows).Keys == set r | r in rows :: r.feedback_id
    ensures forall i :: 0 <= i < |rows| && (forall j :: i < j < |rows| ==> rows[j].feedback_id != rows[i].feedback_id)
              ==> VotesByFeedback(rows)[rows[i].feedback_id] == rows[i].vote_type
    decreases |rows|
  {
    if rows != [] {
      var init := rows[..|rows| - 1];
      VotesByFeedbackLastWins(init);
      assert rows == init + [rows[|rows| - 1]];
      assert forall r :: r in rows <==> r in init || r == rows[|rows| - 1];
      forall i | 0 <= i < |rows| - 1 && (forall j :: i < j < |rows| ==> rows[j].feedback_id != rows[i].feedback_id)
        ensures VotesByFeedback(rows)[rows[i].feedback_id] == rows[i].vote_type
      {
        assert init[i] == rows[i];
        assert forall j :: i < j < |init| ==> init[j].feedback_id != init[i].feedback_id;
      }
    }
  }

  /** No feedback id appears in two rows (the store keeps one vote per feedback and user). */
  predicate DistinctFeedbackIds(rows: seq<UserVoteRow>)
  {
    forall i, j :: 0 <= i < j < |rows| ==> rows[i].feedback_id != rows[j].feedback_id
  }

  /** With distinct ids the map holds, for each id, exactly the vote of the row naming it. */
  lemma VotesByFeedbackDistinct(rows: seq<UserVoteRow>, id: string)
    requires DistinctFeedbackIds(rows)
    ensures id in VotesByFeedback(rows) <==> exists i :: 0 <= i < |rows| && rows[i].feedback_id == id
    ensures forall i :: 0 <= i < |rows| && rows[i].feedback_id == id ==> VotesByFeedback(rows)[id] == rows[i].vote_type
  {
    VotesByFeedbackLastWins(rows);
    if id in VotesByFeedback(rows) {
      var r :| r in rows && r.feedback_id == id;
      var i :| 0 <= i < |rows| && rows[i] == r;
    }
  }

  /** The `reduce` over the user's vote rows, writing into one accumulator. */
  method BuildUserVotesMap(rows: seq<UserVoteRow>) returns (acc: map<string, VoteType>)
    ensures acc == VotesByFeedback(rows)
  {
    acc := map[];
    var i := 0;
    while i < |rows|
      invariant 0 <= i <= |rows|
      invariant acc == VotesByFeedback(rows[..i])
    {
      assert rows[..i + 1][..i] == rows[..i];
      acc := acc[rows[i].feedback_id := rows[i].vote_type];
      i := i + 1;
    }
    assert rows[..i] == rows;
  }

  /** The map the refresh joins with: empty without a user, or when the user's votes came back null. */
  ghost function UserVotes(user: Option<string>, userVotes: Fetch<UserVoteRow>): map<string, VoteType>
  {
    if user.Some? && userVotes.Rows? then VotesByFeedback(userVotes.rows) else map[]
  }

  /** One row with the user's vote attached: `{...item, user_vote: userVotesMap[item.id] || null}`. */
  function Annotate(row: FeedbackWithVotesRow, votes: map<string, VoteType>): (f: FeedbackWithVotes)
    ensures Totals(f) == row
    ensures f.user_vote.Some? <==> row.feedback.id in votes
    ensures f.user_vote.Some? ==> f.user_vote.value == votes[row.feedback.id]
  {
    var v := if row.feedback.id in votes then Some(votes[row.feedback.id]) else None;
    FeedbackWithVotes(row.feedback, row.vote_count, row.upvotes, row.downvotes, v)
  }

  /** The left join: one annotated entry per row, in row order. */
  function Merge(rows: seq<FeedbackWithVotesRow>, votes: map<string, VoteType>): (r: seq<FeedbackWithVotes>)
    ensures |r| == |rows|
    ensures forall i :: 0 <= i < |rows| ==> r[i] == Annotate(rows[i], votes)
  {
    seq(|rows|, i requires 0 <= i < |rows| => Annotate(rows[i], votes))
  }

  /** Every entry of a reordering of `Merge(rows, votes)` is some row with its own vote attached. */
  lemma MergeMember(rows: seq<FeedbackWithVotesRow>, votes: map<string, VoteType>, s: seq<FeedbackWithVotes>, i: int)
    requires multiset(s) == multiset(Merge(rows, votes))
    requires 0 <= i < |s|
    ensures exists k :: 0 <= k < |rows| && s[i] == Annotate(rows[k], votes)
  {
    assert s[i] in multiset(Merge(rows, votes));
    var k :| 0 <= k < |Merge(rows, votes)| && Merge(rows, votes)[k] == s[i];
  }

  /** The refresh's published list, when it publishes: the annotated rows, ranked. */
  ghost predicate PublishedFrom(items: seq<FeedbackWithVotes>, rows: seq<FeedbackWithVotesRow>, votes: map<string, VoteType>)
  {
    Ranked(items) && multiset(items) == multiset(Merge(rows, votes))
  }

  /** Signed out, every published entry shows no vote of its own, whatever votes exist. */
  lemma AnonymousListUnannotated(items: seq<FeedbackWithVotes>, rows: seq<FeedbackWithVotesRow>, userVotes: Fetch<UserVoteRow>)
    requires PublishedFrom(items, rows, UserVotes(None, userVotes))
    ensures forall i :: 0 <= i < |items| ==> items[i].user_vote == None
  {
    forall i | 0 <= i < |items| ensures items[i].user_vote == None {
      MergeMember(rows, map[], items, i);
    }
  }

  /** A failed or null read of the user's votes is not fatal: the rows are published without annotations. */
  lemma UserVotesFailureDegrades(user: Option<string>, userVotes: Fetch<UserVoteRow>,
                                 items: seq<FeedbackWithVotes>, rows: seq<FeedbackWithVotesRow>)
    requires !userVotes.Rows?
    requires PublishedFrom(items, rows, UserVotes(user, userVotes))
    ensures |items| == |rows|
    ensures forall i :: 0 <= i < |items| ==> items[i].user_vote == None
  {
    assert |items| == |multiset(items)| == |Merge(rows, map[])|;
    forall i | 0 <= i < |items| ensures items[i].user_vote == None {
      MergeMember(rows, map[], items, i);
    }
  }

  /**
   * Signed in, with the user's vote rows distinct per feedback: an entry shows
   * the user's vote exactly when a vote row names it, and then that row's
   * polarity; every published entry is one of the rows with its totals intact.
   */
  lemma SignedInListAnnotated(userId: string, voteRows: seq<UserVoteRow>,
                              items: seq<FeedbackWithVotes>, rows: seq<FeedbackWithVotesRow>, i: int)
    requires DistinctFeedbackIds(voteRows)
    requires PublishedFrom(items, rows, UserVotes(Some(userId), Rows(voteRows)))
    requires 0 <= i < |items|
    ensures Totals(items[i]) in rows
    ensures items[i].user_vote.Some? <==> exists j :: 0 <= j < |voteRows| && voteRows[j].feedback_id == items[i].feedback.id
    ensures forall j :: 0 <= j < |voteRows| && voteRows[j].feedback_id == items[i].feedback.id
              ==> items[i].user_vote == Some(voteRows[j].vote_type)
  {
    var votes := VotesByFeedback(voteRows);
    MergeMember(rows, votes, items, i);
    VotesByFeedbackDistinct(voteRows, items[i].feedback.id);
  }

  /** What the list shows. */
  datatype View = NotConfigured | Loading | NoFeedback | Cards(items: seq<FeedbackWithVotes>)

  /** The configuration warning first, then the loading skeleton, then the empty message, then the cards. */
  function Render(configured: bool, loading: bool, feedbackItems: seq<FeedbackWithVotes>): (v: View)
    ensures v == NotConfigured <==> !configured
    ensures v == Loading <==> configured && loading
    ensures v == NoFeedback <==> configured && !loading && feedbackItems == []
    ensures v.Cards? ==> v.items == feedbackItems && feedbackItems != []
  {
    if !configured then NotConfigured
    else if loading then Loading
    else if feedbackItems == [] then NoFeedback
    else Cards(feedbackItems)
  }

  /** The component's state. */
  class FeedbackListState {
    var feedbackItems: seq<FeedbackWithVotes>
    var loading: bool

    constructor()
      ensures feedbackItems == [] && loading
    {
      feedbackItems := [];
      loading := true;
    }

    /**
     * `fetchFeedback`, given what its two reads return. Without a client only
     * `loading` ends. When the aggregated read fails the previous list stays.
     * Otherwise the user's votes (read only when signed in) are collected into a
     * map, joined onto the rows, ranked in place and published.
     */
    method FetchFeedback(configured: bool, user: Option<string>,
                         feedback: Fetch<FeedbackWithVotesRow>, userVotes: Fetch<UserVoteRow>)
      modifies this
      ensures !loading
      ensures !configured || feedback.Error? ==> feedbackItems == old(feedbackItems)
      ensures configured && !feedback.Error? ==>
        PublishedFrom(feedbackItems, RowsOrEmpty(feedback), UserVotes(user, userVotes))
    {
      if !configured {
        loading := false;
        return;
      }
      if feedback.Error? {
        loading := false;
        return;
      }
      var userVotesMap: map<string, VoteType> := map[];
      if user.Some? {
        if userVotes.Rows? {
          userVotesMap := BuildUserVotesMap(userVotes.rows);
        }
      }
      var merged := Merge(RowsOrEmpty(feedback), userVotesMap);
      var sorted := new FeedbackWithVotes[|merged|](i requires 0 <= i < |merged| => merged[i]);
      assert sorted[..] == merged;
      SortInPlace(sorted);
      feedbackItems := sorted[..];
      loading := false;
    }
  }
}
