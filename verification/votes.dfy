/** The `vote` view of chat/views.py: input checks, then get-or-create of the
    user's Vote row followed by delete (same value again) or update (the other
    value), then the subject's vote_count and user_vote as the response. */
module VoteView {
  import opened Wrappers
  import opened Models

  datatype VoteError = MethodNotAllowed | InvalidVoteType | InvalidModelType | ObjectNotFound

  /** The body of the HttpResponseBadRequest for each error. */
  function ErrorMessage(e: VoteError): string
  {
    match e
    case MethodNotAllowed => "Only POST method allowed"
    case InvalidVoteType => "Invalid vote type"
    case InvalidModelType => "Invalid model type"
    case ObjectNotFound => "Object not found"
  }

  /** Each failure answers with its own message. */
  lemma ErrorMessagesDistinct(e1: VoteError, e2: VoteError)
    ensures ErrorMessage(e1) == ErrorMessage(e2) ==> e1 == e2
  {
  }

  /** The JSON body {'vote_count': ..., 'user_vote': ...}. */
  datatype VoteResponse = VoteResponse(voteCount: int, userVote: int)

  predicate IsVoteParam(p: Option<string>)
  {
    p == Some("1") || p == Some("-1")
  }

  /** The checks the view makes before touching the Vote table, in its order:
      the request method, the `vote_type` parameter, the `model_type` path
      segment, and the existence of the voted-on object.  On success, the
      subject voted on and the integer vote value. */
  function CheckVote(isPost: bool, voteType: Option<string>, modelType: string, objectId: nat,
                     threads: set<nat>, replies: set<nat>): (r: Result<(Subject, int), VoteError>)
    ensures r == Err(MethodNotAllowed) <==> !isPost
    ensures r == Err(InvalidVoteType) <==> isPost && !IsVoteParam(voteType)
    ensures r == Err(InvalidModelType) <==>
      isPost && IsVoteParam(voteType) && modelType != "thread" && modelType != "reply"
    ensures r == Err(ObjectNotFound) <==>
      isPost && IsVoteParam(voteType) &&
      ((modelType == "thread" && objectId !in threads) || (modelType == "reply" && objectId !in replies))
    ensures r.Ok? ==>
      && IsVoteType(r.value.1)
      && (r.value.1 == UPVOTE <==> voteType == Some("1"))
      && r.value.0.objectId == objectId
      && (r.value.0.kind == ThreadContent <==> modelType == "thread")
      && (r.value.0.kind == ThreadContent ==> objectId in threads)
      && (r.value.0.kind == ReplyContent ==> objectId in replies)
  {
    if !isPost then Err(MethodNotAllowed)
    else if !IsVoteParam(voteType) then Err(InvalidVoteType)
    else
      var value := if voteType == Some("1") then UPVOTE else DOWNVOTE;
      if modelType == "thread" then
        if objectId in threads then Ok((Subject(ThreadContent, objectId), value)) else Err(ObjectNotFound)
      else if modelType == "reply" then
        if objectId in replies then Ok((Subject(ReplyContent, objectId), value)) else Err(ObjectNotFound)
      else Err(InvalidModelType)
  }

  /** The Vote table after `user` submits `value` on `subject`: a new row when
      the user has none, the row deleted when it holds the same value, the
      row's value replaced otherwise. */
  function Toggle(votes: seq<Vote>, user: UserId, subject: Subject, value: int): (r: seq<Vote>)
    ensures forall k | 0 <= k < |votes| && !Casts(votes[k], user, subject) :: votes[k] in r
    ensures forall v | v in r && !Casts(v, user, subject) :: v in votes
  {
    match FindVote(votes, user, subject)
    case None => votes + [Vote(user, subject, value)]
    case Some(i) =>
      if votes[i].voteType == value then votes[..i] + votes[i + 1..]
      else
        var r := votes[i := votes[i].(voteType := value)];
        assert forall k | 0 <= k < |votes| && k != i :: r[k] == votes[k];
        r
  }

  /** The table around row `i`.  The second clause gives the deleted table
      the three-part shape that KeyCountConcat and VoteSumConcat are applied
      to in the delete case of ToggleRowCount and ToggleVoteCount. */
  lemma Split(votes: seq<Vote>, i: nat)
    requires i < |votes|
    ensures votes == votes[..i] + [votes[i]] + votes[i + 1..]
    ensures votes[..i] + votes[i + 1..] == votes[..i] + [] + votes[i + 1..]
  {
  }

  /** Submitting a vote keeps both rules of the Vote table: values stay in
      {UPVOTE, DOWNVOTE} and no (user, subject) gets a second row. */
  lemma ToggleKeepsValid(votes: seq<Vote>, user: UserId, subject: Subject, value: int)
    requires ValidVotes(votes) && IsVoteType(value)
    ensures ValidVotes(Toggle(votes, user, subject, value))
  {
    var t := Toggle(votes, user, subject, value);
    match FindVote(votes, user, subject)
    case None =>
    case Some(i) =>
      if votes[i].voteType == value {
        assert forall k | 0 <= k < |t| :: t[k] == if k < i then votes[k] else votes[k + 1];
      }
  }

  /** The user's vote after submitting `value`: `value` if they had none or
      had the opposite one, none (0) if they had the same one. */
  lemma ToggleUserVote(votes: seq<Vote>, user: UserId, subject: Subject, value: int)
    requires ValidVotes(votes) && IsVoteType(value)
    ensures UserVote(Toggle(votes, user, subject, value), user, subject) ==
            if UserVote(votes, user, subject) == value then 0 else value
  {
    ToggleKeepsValid(votes, user, subject, value);
    var t := Toggle(votes, user, subject, value);
    match FindVote(votes, user, subject)
    case None =>
      assert Casts(t[|votes|], user, subject);
    case Some(i) =>
      if votes[i].voteType == value {
        forall k | 0 <= k < |t| ensures !Casts(t[k], user, subject) {
          assert t[k] == if k < i then votes[k] else votes[k + 1];
        }
      } else {
        assert Casts(t[i], user, subject);
      }
  }

  /** Submitting a vote changes no other user's vote and no vote on another
      subject. */
  lemma ToggleLeavesOthers(votes: seq<Vote>, user: UserId, subject: Subject, value: int,
                           user': UserId, subject': Subject)
    requires ValidVotes(votes) && IsVoteType(value)
    requires user' != user || subject' != subject
    ensures UserVote(Toggle(votes, user, subject, value), user', subject') == UserVote(votes, user', subject')
  {
    ToggleKeepsValid(votes, user, subject, value);
    var t := Toggle(votes, user, subject, value);
    match FindVote(votes, user', subject')
    case None =>
      forall k | 0 <= k < |t| ensures !Casts(t[k], user', subject') {
        match FindVote(votes, user, subject)
        case None =>
          assert k < |votes| ==> t[k] == votes[k];
        case Some(i) =>
          if votes[i].voteType == value {
            assert t[k] == if k < i then votes[k] else votes[k + 1];
          } else {
            assert k != i ==> t[k] == votes[k];
          }
      }
    case Some(j) =>
      match FindVote(votes, user, subject)
      case None =>
        assert t[j] == votes[j];
      case Some(i) =>
        if votes[i].voteType == value {
          var j' := if j < i then j else j - 1;
          assert j != i;
          assert t[j'] == votes[j];
        } else {
          assert t[j] == votes[j];
        }
  }

  /** After submitting a vote the user has exactly one row on the subject,
      unless the submission withdrew the vote, in which case none. */
  lemma ToggleRowCount(votes: seq<Vote>, user: UserId, subject: Subject, value: int)
    requires ValidVotes(votes) && IsVoteType(value)
    ensures KeyCount(Toggle(votes, user, subject, value), user, subject) ==
            if UserVote(votes, user, subject) == value then 0 else 1
  {
    match FindVote(votes, user, subject)
    case None =>
      KeyCountZero(votes, user, subject);
      KeyCountConcat(votes, [Vote(user, subject, value)], user, subject);
    case Some(i) =>
      Split(votes, i);
      var before, after := votes[..i], votes[i + 1..];
      assert forall k | 0 <= k < |before| :: before[k] == votes[k];
      assert forall k | 0 <= k < |after| :: after[k] == votes[i + 1 + k];
      KeyCountZero(before, user, subject);
      KeyCountZero(after, user, subject);
      if votes[i].voteType == value {
        KeyCountConcat(before, after, user, subject);
      } else {
        var x := votes[i].(voteType := value);
        assert votes[i := x] == before + [x] + after;
        KeyCountConcat(before, [x], user, subject);
        KeyCountConcat(before + [x], after, user, subject);
      }
  }

  /** The subject's vote_count moves by exactly the change in the user's vote. */
  lemma ToggleVoteCount(votes: seq<Vote>, user: UserId, subject: Subject, value: int)
    requires ValidVotes(votes) && IsVoteType(value)
    ensures VoteCount(Toggle(votes, user, subject, value), subject) ==
            VoteCount(votes, subject) - UserVote(votes, user, subject)
            + UserVote(Toggle(votes, user, subject, value), user, subject)
  {
    var t := Toggle(votes, user, subject, value);
    ToggleKeepsValid(votes, user, subject, value);
    VoteCountIsSum(votes, subject);
    VoteCountIsSum(t, subject);
    ToggleUserVote(votes, user, subject, value);
    match FindVote(votes, user, subject)
    case None =>
      VoteSumConcat(votes, [Vote(user, subject, value)], subject);
    case Some(i) =>
      Split(votes, i);
      var before, after := votes[..i], votes[i + 1..];
      VoteSumConcat(before, [votes[i]], subject);
      VoteSumConcat(before + [votes[i]], after, subject);
      if votes[i].voteType == value {
        VoteSumConcat(before, after, subject);
      } else {
        var x := votes[i].(voteType := value);
        assert votes[i := x] == before + [x] + after;
        VoteSumConcat(before, [x], subject);
        VoteSumConcat(before + [x], after, subject);
      }
  }

  /** Submitting a vote leaves the vote_count of every other subject alone. */
  lemma ToggleOtherCount(votes: seq<Vote>, user: UserId, subject: Subject, value: int, other: Subject)
    requires ValidVotes(votes) && IsVoteType(value) && other != subject
    ensures VoteCount(Toggle(votes, user, subject, value), other) == VoteCount(votes, other)
  {
    var t := Toggle(votes, user, subject, value);
    ToggleKeepsValid(votes, user, subject, value);
    VoteCountIsSum(votes, other);
    VoteCountIsSum(t, other);
    match FindVote(votes, user, subject)
    case None =>
      VoteSumConcat(votes, [Vote(user, subject, value)], other);
    case Some(i) =>
      Split(votes, i);
      var before, after := votes[..i], votes[i + 1..];
      VoteSumConcat(before, [votes[i]], other);
      VoteSumConcat(before + [votes[i]], after, other);
      if votes[i].voteType == value {
        VoteSumConcat(before, after, other);
      } else {
        var x := votes[i].(voteType := value);
        assert votes[i := x] == before + [x] + after;
        VoteSumConcat(before, [x], other);
        VoteSumConcat(before + [x], after, other);
      }
  }

  /** Toggle-off: the same vote submitted twice by a user who had none leaves
      the table exactly as it was. */
  lemma ToggleTwiceRestores(votes: seq<Vote>, user: UserId, subject: Subject, value: int)
    requires FindVote(votes, user, subject).None?
    ensures Toggle(Toggle(votes, user, subject, value), user, subject, value) == votes
  {
    var t := votes + [Vote(user, subject, value)];
    assert Casts(t[|votes|], user, subject);
    assert FindVote(t, user, subject) == Some(|votes|);
    assert t[..|votes|] == votes;
  }

  /** The Vote table with the `vote` view. */
  class VoteTable {
    var rows: seq<Vote>

    ghost predicate Valid()
      reads this
    {
      ValidVotes(rows)
    }

    constructor ()
      ensures Valid() && rows == []
    {
      rows := [];
    }

    /** vote(request, model_type, object_id) for the logged-in `user`; the
        sets are the ids of the existing threads and replies. */
    method CastVote(user: UserId, isPost: bool, voteType: Option<string>, modelType: string, objectId: nat,
                    threads: set<nat>, replies: set<nat>) returns (r: Result<VoteResponse, VoteError>)
      requires Valid()
      modifies this
      ensures Valid()
      ensures r.Err? <==> CheckVote(isPost, voteType, modelType, objectId, threads, replies).Err?
      ensures r.Err? ==>
        r.error == CheckVote(isPost, voteType, modelType, objectId, threads, replies).error && rows == old(rows)
      ensures r.Ok? ==>
        var (subject, value) := CheckVote(isPost, voteType, modelType, objectId, threads, replies).value;
        && rows == Toggle(old(rows), user, subject, value)
        && r.value == VoteResponse(VoteCount(rows, subject), UserVote(rows, user, subject))
    {
      var check := CheckVote(isPost, voteType, modelType, objectId, threads, replies);
      if check.Err? {
        return Err(check.error);
      }
      var subject, value := check.value.0, check.value.1;
      ToggleKeepsValid(rows, user, subject, value);
      var existing := FindVote(rows, user, subject);
      if existing.None? {
        rows := rows + [Vote(user, subject, value)];
      } else {
        var i := existing.value;
        if rows[i].voteType == value {
          rows := rows[..i] + rows[i + 1..];
        } else {
          rows := rows[i := rows[i].(voteType := value)];
        }
      }
      r := Ok(VoteResponse(VoteCount(rows, subject), UserVote(rows, user, subject)));
    }
  }

  /** Two equal up-votes from a user with no vote leave no vote; an up-vote
      followed by a down-vote leaves one down-vote and a count of -1. */
  method ToggleLawScenario()
  {
    var table := new VoteTable();
    var threads, replies := {7}, {};
    var r := table.CastVote(1, true, Some("1"), "thread", 7, threads, replies);
    r := table.CastVote(1, true, Some("1"), "thread", 7, threads, replies);
    assert table.rows == [];
    r := table.CastVote(1, true, Some("1"), "thread", 7, threads, replies);
    r := table.CastVote(1, true, Some("-1"), "thread", 7, threads, replies);
    ToggleUserVote([Vote(1, Subject(ThreadContent, 7), UPVOTE)], 1, Subject(ThreadContent, 7), DOWNVOTE);
    assert r == Ok(VoteResponse(-1, -1));
  }
  // ---------------------------------------------------------------- as written

  /** What a request to the view does as written.  Thread and Reply declare
      no `votes` relation, so `obj.vote_count()` in the response raises
      AttributeError, after the toggle has been saved. */
  datatype VoteOutcome = Responds(result: Result<VoteResponse, VoteError>) | RaisesAttributeError

  /** The Vote table after the request, and the request's outcome, as written. */
  function CastVoteAsWritten(rows: seq<Vote>, user: UserId, isPost: bool, voteType: Option<string>, modelType: string,
                             objectId: nat, threads: set<nat>, replies: set<nat>): (r: (seq<Vote>, VoteOutcome))
    ensures r.1.Responds? <==> CheckVote(isPost, voteType, modelType, objectId, threads, replies).Err?
    ensures r.1.Responds? ==>
      r.0 == rows && r.1.result == Err(CheckVote(isPost, voteType, modelType, objectId, threads, replies).error)
    ensures r.1.RaisesAttributeError? ==>
      var (subject, value) := CheckVote(isPost, voteType, modelType, objectId, threads, replies).value;
      r.0 == Toggle(rows, user, subject, value)
  {
    match CheckVote(isPost, voteType, modelType, objectId, threads, replies)
    case Err(e) => (rows, Responds(Err(e)))
    case Ok((subject, value)) => (Toggle(rows, user, subject, value), RaisesAttributeError)
  }

  /** A submitted vote always changes the table. */
  lemma ToggleChangesTable(votes: seq<Vote>, user: UserId, subject: Subject, value: int)
    ensures Toggle(votes, user, subject, value) != votes
  {
    match FindVote(votes, user, subject)
    case None =>
      assert |Toggle(votes, user, subject, value)| == |votes| + 1;
    case Some(i) =>
      if votes[i].voteType == value {
        assert |Toggle(votes, user, subject, value)| == |votes| - 1;
      } else {
        assert Toggle(votes, user, subject, value)[i].voteType != votes[i].voteType;
      }
  }

  /** As written, every request that passes the checks changes the table and
      then fails instead of answering. */
  lemma AsWrittenSavesThenRaises(rows: seq<Vote>, user: UserId, isPost: bool, voteType: Option<string>,
                                 modelType: string, objectId: nat, threads: set<nat>, replies: set<nat>)
    requires CheckVote(isPost, voteType, modelType, objectId, threads, replies).Ok?
    ensures var (after, outcome) := CastVoteAsWritten(rows, user, isPost, voteType, modelType, objectId, threads, replies);
      after != rows && outcome.RaisesAttributeError?
  {
    var (subject, value) := CheckVote(isPost, voteType, modelType, objectId, threads, replies).value;
    ToggleChangesTable(rows, user, subject, value);
  }
}
