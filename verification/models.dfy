/** The records of chat/models.py and the queries defined on them:
    UserProfile.is_online, Thread/Reply.vote_count and user_vote, and the
    domain and uniqueness rules of Vote.  Time is a count of microseconds. */
module Models {
  import opened Wrappers

  type UserId = nat

  // ---------------------------------------------------------------- UserProfile

  /** timedelta(minutes=2), in microseconds. */
  const OnlineWindow: int := 2 * 60 * 1000000

  /** UserProfile.is_online: the user was last seen at most two minutes before `now`. */
  predicate IsOnline(lastSeen: int, now: int): (r: bool)
    ensures lastSeen >= now ==> r
    ensures r ==> now - lastSeen <= OnlineWindow
  {
    lastSeen >= now - OnlineWindow
  }

  /** Online exactly when no more than 120 seconds have passed since `lastSeen`. */
  lemma OnlineWithinTwoMinutes(lastSeen: int, now: int)
    ensures IsOnline(lastSeen, now) <==> now - lastSeen <= 120 * 1000000
  {
  }

  /** A later `last_seen` never turns an online user offline. */
  lemma OnlineIsMonotone(lastSeen: int, later: int, now: int)
    requires IsOnline(lastSeen, now) && lastSeen <= later
    ensures IsOnline(later, now)
  {
  }

  // ---------------------------------------------------------------- Category, Thread, Reply

  datatype Category = Category(id: nat, name: string)

  /** A Thread row; `authorName` is `author.username`. */
  datatype Thread = Thread(
    id: nat,
    title: string,
    content: string,
    author: UserId,
    authorName: string,
    category: Option<Category>)

  /** A Reply row; `thread` is the id of the thread it answers. */
  datatype Reply = Reply(id: nat, content: string, thread: nat, author: UserId)

  /** A Notification row. */
  datatype Notification = Notification(
    user: UserId,
    message: string,
    isRead: bool,
    thread: Option<nat>,
    reply: Option<nat>)

  /** Notification.objects.create(...): `is_read` takes its default, False. */
  function NewNotification(user: UserId, message: string, thread: Option<nat>, reply: Option<nat>): (n: Notification)
    ensures !n.isRead
    ensures n.user == user && n.message == message && n.thread == thread && n.reply == reply
  {
    Notification(user, message, false, thread, reply)
  }

  // ---------------------------------------------------------------- Vote

  /** The content type of a vote's generic foreign key. */
  datatype ContentKind = ThreadContent | ReplyContent

  /** What a vote is attached to: (content_type, object_id). */
  datatype Subject = Subject(kind: ContentKind, objectId: nat)

  const UPVOTE: int := 1
  const DOWNVOTE: int := -1

  /** A Vote row. */
  datatype Vote = Vote(user: UserId, subject: Subject, voteType: int)

  /** The choices of Vote.vote_type. */
  predicate IsVoteType(v: int)
  {
    v == UPVOTE || v == DOWNVOTE
  }

  /** The row is `user`'s vote on `subject`. */
  predicate Casts(v: Vote, user: UserId, subject: Subject)
  {
    v.user == user && v.subject == subject
  }

  /** unique_together = ['user', 'content_type', 'object_id']. */
  predicate UniqueVotes(votes: seq<Vote>)
  {
    forall i, j | 0 <= i < j < |votes| ::
      votes[i].user != votes[j].user || votes[i].subject != votes[j].subject
  }

  predicate ValidVoteTypes(votes: seq<Vote>)
  {
    forall i | 0 <= i < |votes| :: IsVoteType(votes[i].voteType)
  }

  /** The invariant of the Vote table. */
  predicate ValidVotes(votes: seq<Vote>)
  {
    ValidVoteTypes(votes) && UniqueVotes(votes)
  }

  /** The number of rows that are `user`'s vote on `subject`. */
  function KeyCount(votes: seq<Vote>, user: UserId, subject: Subject): (n: nat)
    ensures n <= |votes|
  {
    if votes == [] then 0
    else (if Casts(votes[0], user, subject) then 1 else 0) + KeyCount(votes[1..], user, subject)
  }

  lemma {:induction false} KeyCountZero(votes: seq<Vote>, user: UserId, subject: Subject)
    requires forall i | 0 <= i < |votes| :: !Casts(votes[i], user, subject)
    ensures KeyCount(votes, user, subject) == 0
  {
    if votes != [] {
      KeyCountZero(votes[1..], user, subject);
    }
  }

  lemma {:induction false} KeyCountAtLeastTwo(votes: seq<Vote>, user: UserId, subject: Subject, i: nat, j: nat)
    requires i < j < |votes| && Casts(votes[i], user, subject) && Casts(votes[j], user, subject)
    ensures KeyCount(votes, user, subject) >= 2
  {
    if i == 0 {
      KeyCountAtLeastOne(votes[1..], user, subject, j - 1);
    } else {
      KeyCountAtLeastTwo(votes[1..], user, subject, i - 1, j - 1);
    }
  }

  lemma {:induction false} KeyCountAtLeastOne(votes: seq<Vote>, user: UserId, subject: Subject, i: nat)
    requires i < |votes| && Casts(votes[i], user, subject)
    ensures KeyCount(votes, user, subject) >= 1
  {
    if i > 0 {
      KeyCountAtLeastOne(votes[1..], user, subject, i - 1);
    }
  }

  /** The uniqueness constraint says exactly that no (user, subject) has more
      than one row. */
  lemma {:induction false} UniqueIffAtMostOnePerKey(votes: seq<Vote>)
    ensures UniqueVotes(votes) <==> forall u, s :: KeyCount(votes, u, s) <= 1
  {
    if UniqueVotes(votes) {
      forall u, s ensures KeyCount(votes, u, s) <= 1 {
        UniqueAtMostOne(votes, u, s);
      }
    } else {
      var i, j :| 0 <= i < j < |votes| && votes[i].user == votes[j].user && votes[i].subject == votes[j].subject;
      KeyCountAtLeastTwo(votes, votes[i].user, votes[i].subject, i, j);
    }
  }

  lemma {:induction false} UniqueAtMostOne(votes: seq<Vote>, user: UserId, subject: Subject)
    requires UniqueVotes(votes)
    ensures KeyCount(votes, user, subject) <= 1
  {
    if votes != [] {
      assert UniqueVotes(votes[1..]) by {
        forall i, j | 0 <= i < j < |votes[1..]|
          ensures votes[1..][i].user != votes[1..][j].user || votes[1..][i].subject != votes[1..][j].subject
        {
          assert votes[1..][i] == votes[i + 1] && votes[1..][j] == votes[j + 1];
        }
      }
      if Casts(votes[0], user, subject) {
        KeyCountZero(votes[1..], user, subject);
      } else {
        UniqueAtMostOne(votes[1..], user, subject);
      }
    }
  }

  /** The number of rows on `subject` whose vote_type is `value`. */
  function CountVotes(votes: seq<Vote>, subject: Subject, value: int): (n: nat)
    ensures n <= |votes|
  {
    if votes == [] then 0
    else (if votes[0].subject == subject && votes[0].voteType == value then 1 else 0)
         + CountVotes(votes[1..], subject, value)
  }

  /** Thread.vote_count / Reply.vote_count: up-votes minus down-votes. */
  function VoteCount(votes: seq<Vote>, subject: Subject): (n: int)
    ensures -|votes| <= n <= |votes|
  {
    CountVotes(votes, subject, UPVOTE) - CountVotes(votes, subject, DOWNVOTE)
  }

  lemma {:induction false} UnvotedCountZero(votes: seq<Vote>, subject: Subject, value: int)
    requires forall i | 0 <= i < |votes| :: votes[i].subject != subject
    ensures CountVotes(votes, subject, value) == 0
  {
    if votes != [] {
      assert forall i | 0 <= i < |votes[1..]| :: votes[1..][i] == votes[i + 1];
      UnvotedCountZero(votes[1..], subject, value);
    }
  }

  /** A subject nobody voted on has a vote count of 0. */
  lemma UnvotedSubjectCountsZero(votes: seq<Vote>, subject: Subject)
    requires forall i | 0 <= i < |votes| :: votes[i].subject != subject
    ensures VoteCount(votes, subject) == 0
  {
    UnvotedCountZero(votes, subject, UPVOTE);
    UnvotedCountZero(votes, subject, DOWNVOTE);
  }

  /** Reference definition: the sum of the vote values on `subject`. */
  function VoteSum(votes: seq<Vote>, subject: Subject): int
  {
    if votes == [] then 0
    else (if votes[0].subject == subject then votes[0].voteType else 0) + VoteSum(votes[1..], subject)
  }

  /** While every value is +1 or -1, the vote count is the sum of the values. */
  lemma {:induction false} VoteCountIsSum(votes: seq<Vote>, subject: Subject)
    requires ValidVoteTypes(votes)
    ensures VoteCount(votes, subject) == VoteSum(votes, subject)
  {
    if votes != [] {
      assert ValidVoteTypes(votes[1..]) by {
        forall i | 0 <= i < |votes[1..]| ensures IsVoteType(votes[1..][i].voteType) {
          assert votes[1..][i] == votes[i + 1];
        }
      }
      VoteCountIsSum(votes[1..], subject);
    }
  }

  lemma {:induction false} VoteSumConcat(a: seq<Vote>, b: seq<Vote>, subject: Subject)
    ensures VoteSum(a + b, subject) == VoteSum(a, subject) + VoteSum(b, subject)
  {
    if a == [] {
      assert a + b == b;
    } else {
      assert (a + b)[1..] == a[1..] + b;
      VoteSumConcat(a[1..], b, subject);
    }
  }

  lemma {:induction false} KeyCountConcat(a: seq<Vote>, b: seq<Vote>, user: UserId, subject: Subject)
    ensures KeyCount(a + b, user, subject) == KeyCount(a, user, subject) + KeyCount(b, user, subject)
  {
    if a == [] {
      assert a + b == b;
    } else {
      assert (a + b)[1..] == a[1..] + b;
      KeyCountConcat(a[1..], b, user, subject);
    }
  }

  /** The index of the first row that is `user`'s vote on `subject`. */
  function FindVote(votes: seq<Vote>, user: UserId, subject: Subject): (r: Option<nat>)
    ensures r.Some? ==> r.value < |votes| && Casts(votes[r.value], user, subject)
    ensures r.None? ==> forall i | 0 <= i < |votes| :: !Casts(votes[i], user, subject)
  {
    if votes == [] then None
    else if Casts(votes[0], user, subject) then Some(0)
    else match FindVote(votes[1..], user, subject)
      case None => None
      case Some(k) => Some(k + 1)
  }

  /** Thread.user_vote / Reply.user_vote: the value of the user's vote, or 0
      when the user has none. */
  function UserVote(votes: seq<Vote>, user: UserId, subject: Subject): (r: int)
    ensures (forall i | 0 <= i < |votes| :: !Casts(votes[i], user, subject)) ==> r == 0
    ensures UniqueVotes(votes) ==>
      forall i | 0 <= i < |votes| && Casts(votes[i], user, subject) :: r == votes[i].voteType
    ensures ValidVoteTypes(votes) ==> r == 0 || IsVoteType(r)
  {
    match FindVote(votes, user, subject)
    case None => 0
    case Some(i) => votes[i].voteType
  }

  /** user_vote is always -1, 0 or 1 on a valid table. */
  lemma UserVoteRange(votes: seq<Vote>, user: UserId, subject: Subject)
    requires ValidVotes(votes)
    ensures -1 <= UserVote(votes, user, subject) <= 1
  {
  }
}
