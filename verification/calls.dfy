/** The call views of chat/views.py: 1:1 video calls (initiate, accept,
    reject, end) and group calls (create, join).  VideoCall and GroupVideoCall
    are records with the fields these views read and write.  `now` stands for
    the current time and `roomId` for the generated room token. */
module CallViews {
  import opened Wrappers
  import opened Models

  /** The status values the views assign. */
  datatype CallStatus = Ringing | Active | Missed | Ended

  datatype VideoCall = VideoCall(
    id: nat,
    caller: UserId,
    receiver: UserId,
    status: CallStatus,
    startTime: Option<int>,
    endTime: Option<int>)

  datatype GroupCall = GroupCall(
    id: nat,
    initiator: UserId,
    title: string,
    description: string,
    maxParticipants: int,
    startTime: int,
    roomId: string,
    status: CallStatus,
    participants: set<UserId>)

  datatype CallError =
    | MethodNotAllowed
    | UserNotFound
    | CallNotFound
    | Unauthorized
    | GroupCallFull
    | GroupCallNotFound

  /** The text of each failure response: the `error` field of the JSON
      answer, except for MethodNotAllowed, whose text is the plain body of
      an HttpResponseBadRequest. */
  function ErrorMessage(e: CallError): string
  {
    match e
    case MethodNotAllowed => "Only POST method allowed"
    case UserNotFound => "User not found"
    case CallNotFound => "Call not found"
    case Unauthorized => "Unauthorized"
    case GroupCallFull => "Group call is full"
    case GroupCallNotFound => "Group call not found"
  }

  /** Each failure answers with its own message. */
  lemma ErrorMessagesDistinct(e1: CallError, e2: CallError)
    ensures ErrorMessage(e1) == ErrorMessage(e2) ==> e1 == e2
  {
  }

  /** The HTTP status of each failure response. */
  function HttpStatus(e: CallError): (status: nat)
    ensures status == 403 <==> e == Unauthorized
    ensures status == 404 <==> e.UserNotFound? || e.CallNotFound? || e.GroupCallNotFound?
    ensures status == 400 <==> e.MethodNotAllowed? || e.GroupCallFull?
  {
    match e
    case MethodNotAllowed => 400
    case UserNotFound => 404
    case CallNotFound => 404
    case Unauthorized => 403
    case GroupCallFull => 400
    case GroupCallNotFound => 404
  }

  datatype InitiateResponse = InitiateResponse(callId: nat, receiverUsername: string)

  datatype GroupResponse = GroupResponse(roomId: string, groupCallId: nat, title: string)

  /** Defaults of create_group_call. */
  const DefaultTitle: string := "Group Call"
  const DefaultMaxParticipants: int := 10

  /** Either party of a 1:1 call may end it. */
  predicate IsParty(c: VideoCall, user: UserId)
  {
    c.caller == user || c.receiver == user
  }

  /** What every stored group call satisfies: the initiator takes part, the
      participant count stays within max_participants (or is the initiator
      alone when max_participants is below one), and the status is active. */
  predicate GroupInvariant(g: GroupCall)
  {
    && g.initiator in g.participants
    && |g.participants| <= Max(1, g.maxParticipants)
    && g.status == Active
  }

  /** The record create_group_call stores once the initiator has been added. */
  function NewGroupCall(id: nat, initiator: UserId, title: string, description: string,
                        maxParticipants: int, startTime: int, roomId: string): (g: GroupCall)
    ensures GroupInvariant(g)
    ensures g.participants == {initiator} && g.maxParticipants == maxParticipants
    ensures g.id == id && g.initiator == initiator && g.title == title && g.description == description
    ensures g.startTime == startTime && g.roomId == roomId
  {
    GroupCall(id, initiator, title, description, maxParticipants, startTime, roomId, Active, {initiator})
  }

  /** join_group_call's capacity test and participants.add: the user is added
      only while fewer than max_participants take part. */
  function JoinGroup(g: GroupCall, user: UserId): (r: Option<GroupCall>)
    ensures r.Some? <==> |g.participants| < g.maxParticipants
    ensures r.Some? ==> r.value.participants == g.participants + {user}
    ensures r.Some? ==> r.value.(participants := g.participants) == g
    ensures r.Some? && GroupInvariant(g) ==> GroupInvariant(r.value)
  {
    if |g.participants| < g.maxParticipants then
      var added := g.participants + {user};
      assert |added| <= |g.participants| + 1;
      Some(g.(participants := added))
    else None
  }

  /** A full call turns everybody away, including users already in it. */
  lemma FullCallAdmitsNobody(g: GroupCall, user: UserId)
    requires |g.participants| >= g.maxParticipants
    ensures JoinGroup(g, user).None?
  {
  }

  /** Joining twice is harmless: a participant who joins again changes nothing. */
  lemma RejoinChangesNothing(g: GroupCall, user: UserId)
    requires user in g.participants && JoinGroup(g, user).Some?
    ensures JoinGroup(g, user).value == g
  {
    assert g.participants + {user} == g.participants;
  }

  /** The falsiness test `not start_time` on the submitted start time. */
  predicate IsGiven(startTime: Option<int>): (r: bool)
    ensures r ==> startTime.Some?
    ensures startTime == Some(0) ==> !r
  {
    startTime.Some? && startTime.value != 0
  }

  /** The table of calls with the call views. */
  class CallStore {
    var calls: map<nat, VideoCall>
    var nextCallId: nat
    var groupCalls: map<string, GroupCall>
    var nextGroupId: nat

    ghost predicate Valid()
      reads this
    {
      && (forall id | id in calls :: calls[id].id == id && id < nextCallId)
      && (forall room | room in groupCalls ::
            groupCalls[room].roomId == room && groupCalls[room].id < nextGroupId && GroupInvariant(groupCalls[room]))
    }

    constructor ()
      ensures Valid() && calls == map[] && groupCalls == map[]
    {
      calls, nextCallId := map[], 0;
      groupCalls, nextGroupId := map[], 0;
    }

    /** initiate_video_call: a ringing call from the requester to user
        `userId`; `users` maps the existing user ids to their usernames. */
    method InitiateVideoCall(requester: UserId, userId: UserId, users: map<UserId, string>)
      returns (r: Result<InitiateResponse, CallError>)
      requires Valid()
      modifies this
      ensures Valid()
      ensures r.Ok? <==> userId in users
      ensures r.Err? ==> r.error == UserNotFound && calls == old(calls) && nextCallId == old(nextCallId)
      ensures r.Ok? ==>
        && r.value == InitiateResponse(old(nextCallId), users[userId])
        && old(nextCallId) !in old(calls)
        && calls == old(calls)[old(nextCallId) := VideoCall(old(nextCallId), requester, userId, Ringing, None, None)]
        && nextCallId == old(nextCallId) + 1
      ensures groupCalls == old(groupCalls) && nextGroupId == old(nextGroupId)
    {
      if userId !in users {
        return Err(UserNotFound);
      }
      var call := VideoCall(nextCallId, requester, userId, Ringing, None, None);
      calls := calls[call.id := call];
      nextCallId := nextCallId + 1;
      r := Ok(InitiateResponse(call.id, users[userId]));
    }

    /** accept_video_call: only the receiver finds the call; it becomes
        active with start_time `now`.  The current status is not consulted. */
    method AcceptVideoCall(requester: UserId, callId: nat, now: int) returns (r: Result<nat, CallError>)
      requires Valid()
      modifies this
      ensures Valid()
      ensures r.Ok? <==> callId in old(calls) && old(calls)[callId].receiver == requester
      ensures r.Err? ==> r.error == CallNotFound && calls == old(calls)
      ensures r.Ok? ==>
        r.value == callId && calls == old(calls)[callId := old(calls)[callId].(status := Active, startTime := Some(now))]
      ensures nextCallId == old(nextCallId) && groupCalls == old(groupCalls) && nextGroupId == old(nextGroupId)
    {
      if callId !in calls || calls[callId].receiver != requester {
        return Err(CallNotFound);
      }
      var call := calls[callId];
      call := call.(status := Active);
      call := call.(startTime := Some(now));
      calls := calls[callId := call];
      r := Ok(call.id);
    }

    /** reject_video_call: only the receiver finds the call; it is marked
        missed.  The current status is not consulted. */
    method RejectVideoCall(requester: UserId, callId: nat) returns (r: Result<(), CallError>)
      requires Valid()
      modifies this
      ensures Valid()
      ensures r.Ok? <==> callId in old(calls) && old(calls)[callId].receiver == requester
      ensures r.Err? ==> r.error == CallNotFound && calls == old(calls)
      ensures r.Ok? ==> calls == old(calls)[callId := old(calls)[callId].(status := Missed)]
      ensures nextCallId == old(nextCallId) && groupCalls == old(groupCalls) && nextGroupId == old(nextGroupId)
    {
      if callId !in calls || calls[callId].receiver != requester {
        return Err(CallNotFound);
      }
      var call := calls[callId];
      call := call.(status := Missed);
      calls := calls[callId := call];
      r := Ok(());
    }

    /** end_video_call: a missing call is "Call not found"; a requester who
        is neither caller nor receiver is "Unauthorized"; otherwise the call
        is ended with end_time `now`.  The current status is not consulted. */
    method EndVideoCall(requester: UserId, callId: nat, now: int) returns (r: Result<(), CallError>)
      requires Valid()
      modifies this
      ensures Valid()
      ensures r == Err(CallNotFound) <==> callId !in old(calls)
      ensures r == Err(Unauthorized) <==> callId in old(calls) && !IsParty(old(calls)[callId], requester)
      ensures r.Ok? <==> callId in old(calls) && IsParty(old(calls)[callId], requester)
      ensures r.Err? ==> calls == old(calls)
      ensures r.Ok? ==> calls == old(calls)[callId := old(calls)[callId].(status := Ended, endTime := Some(now))]
      ensures nextCallId == old(nextCallId) && groupCalls == old(groupCalls) && nextGroupId == old(nextGroupId)
    {
      if callId !in calls {
        return Err(CallNotFound);
      }
      var call := calls[callId];
      if call.caller == requester || call.receiver == requester {
        call := call.(status := Ended);
        call := call.(endTime := Some(now));
        calls := calls[callId := call];
        return Ok(());
      }
      r := Err(Unauthorized);
    }

    /** create_group_call: the request's optional fields with their
        defaults; the room token `roomId` is fresh (it stands for a random
        uuid prefix).  The initiator is added after the record is created. */
    method CreateGroupCall(requester: UserId, isPost: bool, title: Option<string>, description: Option<string>,
                           maxParticipants: Option<int>, startTime: Option<int>, roomId: string, now: int)
      returns (r: Result<GroupResponse, CallError>)
      requires Valid() && roomId !in groupCalls
      modifies this
      ensures Valid()
      ensures r.Err? <==> !isPost
      ensures r.Err? ==> r.error == MethodNotAllowed && groupCalls == old(groupCalls) && nextGroupId == old(nextGroupId)
      ensures r.Ok? ==>
        var t := if title.Some? then title.value else DefaultTitle;
        && r.value == GroupResponse(roomId, old(nextGroupId), t)
        && groupCalls == old(groupCalls)[roomId := NewGroupCall(
             old(nextGroupId), requester, t,
             if description.Some? then description.value else "",
             if maxParticipants.Some? then maxParticipants.value else DefaultMaxParticipants,
             if IsGiven(startTime) then startTime.value else now,
             roomId)]
        && nextGroupId == old(nextGroupId) + 1
      ensures calls == old(calls) && nextCallId == old(nextCallId)
    {
      if !isPost {
        return Err(MethodNotAllowed);
      }
      var t := if title.Some? then title.value else DefaultTitle;
      var d := if description.Some? then description.value else "";
      var m := if maxParticipants.Some? then maxParticipants.value else DefaultMaxParticipants;
      var s := if IsGiven(startTime) then startTime.value else now;
      var g := GroupCall(nextGroupId, requester, t, d, m, s, roomId, Active, {});
      nextGroupId := nextGroupId + 1;
      g := g.(participants := g.participants + {requester});
      groupCalls := groupCalls[roomId := g];
      r := Ok(GroupResponse(roomId, g.id, t));
    }

    /** join_group_call: the call with token `roomId`, joined while it has
        room for one more participant. */
    method JoinGroupCall(requester: UserId, roomId: string) returns (r: Result<GroupResponse, CallError>)
      requires Valid()
      modifies this
      ensures Valid()
      ensures r == Err(GroupCallNotFound) <==> roomId !in old(groupCalls)
      ensures r == Err(GroupCallFull) <==>
        roomId in old(groupCalls) && |old(groupCalls)[roomId].participants| >= old(groupCalls)[roomId].maxParticipants
      ensures r.Ok? <==>
        roomId in old(groupCalls) && |old(groupCalls)[roomId].participants| < old(groupCalls)[roomId].maxParticipants
      ensures r.Err? ==> groupCalls == old(groupCalls)
      ensures r.Ok? ==>
        var g := old(groupCalls)[roomId];
        && JoinGroup(g, requester).Some?
        && groupCalls == old(groupCalls)[roomId := JoinGroup(g, requester).value]
        && requester in groupCalls[roomId].participants
        && r.value == GroupResponse(roomId, g.id, g.title)
      ensures calls == old(calls) && nextCallId == old(nextCallId) && nextGroupId == old(nextGroupId)
    {
      if roomId !in groupCalls {
        return Err(GroupCallNotFound);
      }
      var g := groupCalls[roomId];
      if |g.participants| < g.maxParticipants {
        var joined := JoinGroup(g, requester);
        groupCalls := groupCalls[roomId := joined.value];
        return Ok(GroupResponse(roomId, g.id, g.title));
      }
      r := Err(GroupCallFull);
    }
  }

  // ---------------------------------------------------------------- as written

  /** chat/views.py imports `timezone` from `datetime`: the class
      datetime.timezone, which has no attribute `now`.  Every evaluation of
      `timezone.now()` therefore raises AttributeError, which no view catches. */
  datatype Raised = AttributeError

  /** How a view ends: with a JSON response, or with an uncaught exception. */
  datatype Outcome<T> = Responds(result: Result<T, CallError>) | Raises(exception: Raised)

  /** accept_video_call as written: once the receiver's call is found,
      computing start_time raises before call.save(), so the stored call is
      never changed. */
  function AcceptAsWritten(calls: map<nat, VideoCall>, requester: UserId, callId: nat)
    : (r: (Outcome<nat>, map<nat, VideoCall>))
    ensures r.1 == calls
    ensures r.0.Raises? <==> callId in calls && calls[callId].receiver == requester
    ensures r.0.Responds? ==> r.0.result == Err(CallNotFound)
  {
    if callId in calls && calls[callId].receiver == requester then (Raises(AttributeError), calls)
    else (Responds(Err(CallNotFound)), calls)
  }

  /** The receiver's accept of a ringing call, as written, fails and leaves
      the call ringing; AcceptVideoCall makes it active. */
  lemma AcceptAsWrittenNeverActivates(calls: map<nat, VideoCall>, requester: UserId, callId: nat)
    requires callId in calls && calls[callId].receiver == requester && calls[callId].status == Ringing
    ensures AcceptAsWritten(calls, requester, callId).0 == Raises(AttributeError)
    ensures AcceptAsWritten(calls, requester, callId).1[callId].status == Ringing
  {
  }

  /** end_video_call as written: for a party to the call, computing end_time
      raises before call.save(); the other outcomes are as intended. */
  function EndAsWritten(calls: map<nat, VideoCall>, requester: UserId, callId: nat)
    : (r: (Outcome<()>, map<nat, VideoCall>))
    ensures r.1 == calls
    ensures r.0.Raises? <==> callId in calls && IsParty(calls[callId], requester)
    ensures r.0.Responds? ==> r.0.result == Err(if callId in calls then Unauthorized else CallNotFound)
  {
    if callId !in calls then (Responds(Err(CallNotFound)), calls)
    else if IsParty(calls[callId], requester) then (Raises(AttributeError), calls)
    else (Responds(Err(Unauthorized)), calls)
  }

  /** Neither party can end an active call as written. */
  lemma EndAsWrittenNeverEnds(calls: map<nat, VideoCall>, requester: UserId, callId: nat)
    requires callId in calls && IsParty(calls[callId], requester) && calls[callId].status == Active
    ensures EndAsWritten(calls, requester, callId).0 == Raises(AttributeError)
    ensures EndAsWritten(calls, requester, callId).1[callId].status == Active
  {
  }

  /** create_group_call as written: without a (truthy) start_time, the
      argument `timezone.now()` raises before the record is created, so no
      group call is stored; with one, the call is created as intended. */
  function CreateGroupCallAsWritten(groupCalls: map<string, GroupCall>, nextGroupId: nat, requester: UserId,
                                    isPost: bool, title: Option<string>, description: Option<string>,
                                    maxParticipants: Option<int>, startTime: Option<int>, roomId: string)
    : (r: (Outcome<GroupResponse>, map<string, GroupCall>))
    ensures r.0.Raises? <==> isPost && !IsGiven(startTime)
    ensures r.0.Raises? || !isPost ==> r.1 == groupCalls
    ensures r.0.Responds? && isPost ==> roomId in r.1 && r.1 == groupCalls[roomId := r.1[roomId]] && GroupInvariant(r.1[roomId])
  {
    if !isPost then (Responds(Err(MethodNotAllowed)), groupCalls)
    else if !IsGiven(startTime) then (Raises(AttributeError), groupCalls)
    else
      var t := if title.Some? then title.value else DefaultTitle;
      var g := NewGroupCall(nextGroupId, requester, t,
                            if description.Some? then description.value else "",
                            if maxParticipants.Some? then maxParticipants.value else DefaultMaxParticipants,
                            startTime.value, roomId);
      (Responds(Ok(GroupResponse(roomId, nextGroupId, t))), groupCalls[roomId := g])
  }

  /** A POST without start_time creates no group call as written. */
  lemma CreateWithoutStartTimeStoresNothing(groupCalls: map<string, GroupCall>, nextGroupId: nat, requester: UserId,
                                            title: Option<string>, roomId: string)
    requires roomId !in groupCalls
    ensures CreateGroupCallAsWritten(groupCalls, nextGroupId, requester, true, title, None, None, None, roomId).0
            == Raises(AttributeError)
    ensures roomId !in CreateGroupCallAsWritten(groupCalls, nextGroupId, requester, true, title, None, None, None, roomId).1
  {
  }

  /** Scenario: the caller cannot accept their own call; the receiver can,
      and either party can then end it. */
  method ReceiverGateScenario()
  {
    var store := new CallStore();
    var users := map[1 := "usera", 2 := "userb"];
    var started := store.InitiateVideoCall(1, 2, users);
    var id := started.value.callId;
    var byCaller := store.AcceptVideoCall(1, id, 100);
    assert byCaller == Err(CallNotFound) && store.calls[id].status == Ringing;
    var byReceiver := store.AcceptVideoCall(2, id, 200);
    assert byReceiver.Ok? && store.calls[id].status == Active && store.calls[id].startTime == Some(200);
    var byStranger := store.EndVideoCall(3, id, 300);
    assert byStranger == Err(Unauthorized) && store.calls[id].status == Active;
    var byCallerEnd := store.EndVideoCall(1, id, 400);
    assert store.calls[id].status == Ended && store.calls[id].endTime == Some(400);
    // No status guard: the receiver can accept an ended call again.
    var again := store.AcceptVideoCall(2, id, 500);
    assert again.Ok? && store.calls[id].status == Active;
  }

  /** Scenario: a group call with max_participants 2 takes one more user. */
  method GroupCapacityScenario()
  {
    var store := new CallStore();
    var created := store.CreateGroupCall(1, true, None, None, Some(2), None, "room-0000001", 10);
    assert store.groupCalls["room-0000001"].participants == {1} && |{1}| == 1;
    var second := store.JoinGroupCall(2, "room-0000001");
    assert second.Ok? && store.groupCalls["room-0000001"].participants == {1, 2};
    var third := store.JoinGroupCall(3, "room-0000001");
    assert third == Err(GroupCallFull);
  }
}
