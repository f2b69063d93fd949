/**
 * The up/down vote button (src/components/VoteButton.tsx): whether it shows
 * as active, and what one click does to the votes table.
 */
module VoteButton {
  import opened Types
  import opened VoteStore

  /** The button is highlighted exactly when the user's vote is this button's polarity. */
  predicate IsActive(currentUserVote: Option<VoteType>, voteType: VoteType): (active: bool)
    ensures active ==> currentUserVote.Some?
    ensures currentUserVote.Some? && currentUserVote.value != voteType ==> !active
  {
    currentUserVote == Some(voteType)
  }

  /** Of a card's two buttons at most one is active, and one is exactly when the user has voted. */
  lemma AtMostOneActive(currentUserVote: Option<VoteType>)
    ensures !(IsActive(currentUserVote, Up) && IsActive(currentUserVote, Down))
    ensures IsActive(currentUserVote, Up) || IsActive(currentUserVote, Down) <==> currentUserVote.Some?
  {
    if currentUserVote.Some? {
      match currentUserVote.value
      case Up =>
      case Down =>
    }
  }

  /** The one store write a click issues. */
  datatype VoteOp = DeleteVote | UpdateVote(to: VoteType) | InsertVote(vote: VoteType)

  /** Clicking the active button retracts the vote, clicking the other one switches it, and with no vote one is cast. */
  function Decide(currentUserVote: Option<VoteType>, voteType: VoteType): (op: VoteOp)
    ensures op == DeleteVote <==> IsActive(currentUserVote, voteType)
    ensures op.UpdateVote? <==> currentUserVote.Some? && currentUserVote.value != voteType
    ensures op.InsertVote? <==> currentUserVote.None?
    ensures op.UpdateVote? ==> op.to == voteType
    ensures op.InsertVote? ==> op.vote == voteType
  {
    if currentUserVote == Some(voteType) then DeleteVote
    else if currentUserVote.Some? then UpdateVote(voteType)
    else InsertVote(voteType)
  }

  /**
   * The effect of one write on the votes table, for the pair (feedbackId,
   * userId): a delete leaves the pair without a vote, an update changes its
   * polarity only if it has one, an insert gives it the new polarity only if it
   * has none; every other pair keeps its vote.
   */
  function Apply(votes: Votes, feedbackId: string, userId: string, op: VoteOp): (r: Votes)
    ensures var k := VoteKey(feedbackId, userId);
      && (op == DeleteVote ==> k !in r)
      && (op.UpdateVote? ==> (k in r <==> k in votes) && (k in r ==> r[k] == op.to))
      && (op.InsertVote? ==> k in r && r[k] == (if k in votes then votes[k] else op.vote))
      && (forall o :: o != k ==> (o in r <==> o in votes))
      && (forall o :: o != k && o in r ==> r[o] == votes[o])
  {
    var k := VoteKey(feedbackId, userId);
    match op
    case DeleteVote => Deleted(votes, k)
    case UpdateVote(v) => Updated(votes, k, v)
    case InsertVote(v) => Inserted(votes, VoteInsert(None, feedbackId, userId, v, None))
  }

  /** A click by a signed-in user whose displayed vote is the stored one. */
  function Click(votes: Votes, feedbackId: string, userId: string, voteType: VoteType): Votes
  {
    Apply(votes, feedbackId, userId, Decide(GetUserVote(votes, feedbackId, userId), voteType))
  }

  /**
   * One click toggles: the pair ends with no vote when the clicked polarity was
   * the stored one and with the clicked polarity otherwise; no other pair changes.
   */
  lemma ClickToggles(votes: Votes, feedbackId: string, userId: string, voteType: VoteType)
    ensures var k := VoteKey(feedbackId, userId);
      var r := Click(votes, feedbackId, userId, voteType);
      && (GetUserVote(votes, feedbackId, userId) == Some(voteType) ==> k !in r)
      && (GetUserVote(votes, feedbackId, userId) != Some(voteType) ==> k in r && r[k] == voteType)
      && (forall o :: o != k ==> (o in r <==> o in votes))
      && (forall o :: o != k && o in r ==> r[o] == votes[o])
  {
    var k := VoteKey(feedbackId, userId);
    var r := Click(votes, feedbackId, userId, voteType);
    match Decide(GetUserVote(votes, feedbackId, userId), voteType)
    case DeleteVote =>
    case UpdateVote(v) =>
    case InsertVote(v) =>
      assert r == votes[k := voteType];
  }

  /**
   * Toggle law: clicking the same button twice restores the table, unless the
   * pair started out holding the opposite polarity (then the first click
   * switches it and the second retracts it).
   */
  lemma ClickTwiceRestores(votes: Votes, feedbackId: string, userId: string, voteType: VoteType)
    requires GetUserVote(votes, feedbackId, userId) in {None, Some(voteType)}
    ensures Click(Click(votes, feedbackId, userId, voteType), feedbackId, userId, voteType) == votes
  {
    var k := VoteKey(feedbackId, userId);
    var once := Click(votes, feedbackId, userId, voteType);
    ClickToggles(votes, feedbackId, userId, voteType);
    ClickToggles(once, feedbackId, userId, voteType);
    var twice := Click(once, feedbackId, userId, voteType);
    assert twice.Keys == votes.Keys;
  }

  /** Switch law: from no vote, an up click then a down click leaves exactly one vote, a down vote. */
  lemma UpThenDownSwitches(votes: Votes, feedbackId: string, userId: string)
    requires VoteKey(feedbackId, userId) !in votes
    ensures Click(Click(votes, feedbackId, userId, Up), feedbackId, userId, Down)
            == votes[VoteKey(feedbackId, userId) := Down]
  {
    var k := VoteKey(feedbackId, userId);
    var once := Click(votes, feedbackId, userId, Up);
    ClickToggles(votes, feedbackId, userId, Up);
    ClickToggles(once, feedbackId, userId, Down);
    var twice := Click(once, feedbackId, userId, Down);
    assert twice.Keys == votes.Keys + {k};
  }

  /** Which callback of the parent a click ends up calling. */
  datatype Callback = NoCallback | AuthRequired | VoteChanged

  /**
   * How the awaited store call ended. `Completed`: the write was carried out
   * (for an insert, `Inserted` already covers the refusal of a second vote).
   * `ReturnedError`: the store answered with an error value and wrote nothing.
   * `Threw`: the call raised; `reachedStore` says whether the write had been
   * carried out before it did.
   */
  datatype CallOutcome = Completed | ReturnedError | Threw(reachedStore: bool)

  /** Whether the decided write took effect in the store. */
  predicate WriteTookEffect(outcome: CallOutcome)
  {
    outcome.Completed? || (outcome.Threw? && outcome.reachedStore)
  }

  /** One rendered vote button. Its props are `feedbackId` and `voteType`; `isVoting` is its state. */
  class VoteButtonState {
    const feedbackId: string
    const voteType: VoteType
    var isVoting: bool

    constructor(feedbackId: string, voteType: VoteType)
      ensures this.feedbackId == feedbackId && this.voteType == voteType
      ensures !isVoting
    {
      this.feedbackId := feedbackId;
      this.voteType := voteType;
      isVoting := false;
    }

    /**
     * `handleVote`. `user` is the signed-in user's id, `configured` whether a
     * backend client exists, `currentUserVote` the vote the card displays.
     * Without a user only the sign-in prompt is requested; without a client
     * nothing happens. Otherwise one write is issued while `isVoting` is set;
     * `onVoteChange` follows whenever the call returns, an error value
     * included, and is skipped only when it throws; `isVoting` is reset on
     * every path.
     */
    method HandleVote(user: Option<string>, configured: bool, currentUserVote: Option<VoteType>,
                      table: VoteTable, outcome: CallOutcome) returns (cb: Callback)
      modifies this, table
      ensures user.None? ==> cb == AuthRequired
      ensures user.Some? ==> cb != AuthRequired
      ensures user.None? || !configured ==>
        table.votes == old(table.votes) && isVoting == old(isVoting) && cb != VoteChanged
      ensures user.Some? && configured ==>
        && !isVoting
        && cb == (if outcome.Threw? then NoCallback else VoteChanged)
        && table.votes == (if WriteTookEffect(outcome)
                           then Apply(old(table.votes), feedbackId, user.value, Decide(currentUserVote, voteType))
                           else old(table.votes))
    {
      if user.None? {
        return AuthRequired;
      }
      if !configured {
        return NoCallback;
      }
      isVoting := true;
      cb := Perform(user.value, currentUserVote, table, outcome);
      isVoting := false;
    }

    /**
     * The `try` block: runs only while the button is marked as voting, and
     * leaves that mark alone. The returned value of the write is not
     * inspected; only a throw skips `onVoteChange`.
     */
    method Perform(userId: string, currentUserVote: Option<VoteType>, table: VoteTable, outcome: CallOutcome)
      returns (cb: Callback)
      requires isVoting
      modifies table
      ensures cb == (if outcome.Threw? then NoCallback else VoteChanged)
      ensures table.votes == (if WriteTookEffect(outcome)
                              then Apply(old(table.votes), feedbackId, userId, Decide(currentUserVote, voteType))
                              else old(table.votes))
    {
      if WriteTookEffect(outcome) {
        var k := VoteKey(feedbackId, userId);
        match Decide(currentUserVote, voteType) {
          case DeleteVote =>
            table.Delete(k);
          case UpdateVote(v) =>
            table.Update(k, v);
          case InsertVote(v) =>
            // A refused insert returns an error value that the source does not inspect.
            var _ := table.Insert(VoteInsert(None, feedbackId, userId, v, None));
        }
      }
      // The catch block only logs.
      cb := if outcome.Threw? then NoCallback else VoteChanged;
    }
  }
}
