/**
 * The `votes` table seen as a map from (feedback id, user id) to a polarity.
 * The database keeps at most one vote per pair, so a map is exact; the three
 * writes a vote button issues are modelled with the effect they have on it.
 */
module VoteStore {
  import opened Types

  /** The pair a vote is keyed by: (feedback_id, user_id). */
  datatype VoteKey = VoteKey(feedback_id: string, user_id: string)

  type Votes = map<VoteKey, VoteType>

  /** `get_user_vote(feedback, user)`: the polarity stored for the pair, or null. */
  function GetUserVote(votes: Votes, feedbackId: string, userId: string): (r: Option<VoteType>)
    ensures r.Some? <==> VoteKey(feedbackId, userId) in votes
    ensures r.Some? ==> votes[VoteKey(feedbackId, userId)] == r.value
  {
    var k := VoteKey(feedbackId, userId);
    if k in votes then Some(votes[k]) else None
  }

  /** `delete().eq('feedback_id', f).eq('user_id', u)`: removes the matching row, if any. */
  function Deleted(votes: Votes, k: VoteKey): (r: Votes)
    ensures k !in r
    ensures forall o :: o != k ==> (o in r <==> o in votes)
    ensures forall o :: o in r ==> r[o] == votes[o]
  {
    votes - {k}
  }

  /** `update({vote_type: v}).eq(...)`: rewrites the matching row; matches nothing when there is none. */
  function Updated(votes: Votes, k: VoteKey, v: VoteType): (r: Votes)
    ensures r.Keys == votes.Keys
    ensures k in votes ==> r[k] == v
    ensures forall o :: o in votes && o != k ==> r[o] == votes[o]
  {
    if k in votes then votes[k := v] else votes
  }

  /**
   * `insert({feedback_id, user_id, vote_type})`: adds the row, or is refused
   * (the store returns an error and keeps its contents) when the pair already
   * has a vote.
   */
  function Inserted(votes: Votes, row: VoteInsert): (r: Votes)
    ensures var k := VoteKey(row.feedback_id, row.user_id);
      && r.Keys == votes.Keys + {k}
      && r[k] == (if k in votes then votes[k] else row.vote_type)
      && forall o :: o in votes && o != k ==> r[o] == votes[o]
  {
    var k := VoteKey(row.feedback_id, row.user_id);
    if k in votes then votes else votes[k := row.vote_type]
  }

  /** Whether an insert of `row` is accepted (no vote exists yet for its pair). */
  predicate InsertAccepted(votes: Votes, row: VoteInsert)
  {
    VoteKey(row.feedback_id, row.user_id) !in votes
  }

  /** The votes table as held by the backend; the component reaches it only through these writes. */
  class VoteTable {
    var votes: Votes

    constructor(initial: Votes)
      ensures votes == initial
    {
      votes := initial;
    }

    method Delete(k: VoteKey)
      modifies this
      ensures votes == Deleted(old(votes), k)
    {
      votes := Deleted(votes, k);
    }

    method Update(k: VoteKey, v: VoteType)
      modifies this
      ensures votes == Updated(old(votes), k, v)
    {
      votes := Updated(votes, k, v);
    }

    /** Returns whether the row was stored; a refused insert is an error value, not an exception. */
    method Insert(row: VoteInsert) returns (ok: bool)
      modifies this
      ensures ok == InsertAccepted(old(votes), row)
      ensures votes == Inserted(old(votes), row)
    {
      ok := InsertAccepted(votes, row);
      votes := Inserted(votes, row);
    }
  }
}
