# Community forum: votes, calls, search and the forum websocket, in Dafny

This project models the behavioural core of a small Django forum with
realtime add-ons (the `chat` application) and proves properties of it:

- **Votes** (`votes.dfy`, `models.dfy`). The Vote table is a sequence of rows
  `(user, subject, vote_type)`, where a subject is a content type (thread or
  reply) plus an object id. The `vote` view checks its inputs in the view's
  order, then does a get-or-create on the user's row. If the row is new it
  stores the submitted value. If the row holds the same value it is deleted
  (toggle-off). Otherwise its value is replaced (flip). The view answers with
  the subject's `vote_count` and the user's `user_vote`. The table keeps two
  rules: every value is `UPVOTE = 1` or `DOWNVOTE = -1`, and no (user,
  subject) has two rows.
- **Calls** (`calls.dfy`). 1:1 video calls are records with caller, receiver,
  status, start time and end time. Only the receiver can accept (status
  active, start time set) or reject (status missed). Caller or receiver can
  end a call (status ended, end time set). Anybody else gets "Call not
  found" or "Unauthorized". Group calls keep a participant set. A user joins
  only while fewer than `max_participants` (default 10) take part. The
  initiator is always a participant.
- **Search** (`search.dfy`). Threads whose title, content or author name
  contains the query, ignoring case, optionally restricted to one category.
  At most 20 are returned. Content longer than 100 characters is cut to 100
  characters plus `...`.
- **Posting rules** (`posts.dfy`). `create_reply` notifies the thread's
  author, with an unread notification, when somebody else replies.
  `send_chat_message` requires non-empty content.
- **Presence** (`models.dfy`). A profile is online when `last_seen` is at
  most two minutes old.
- **Forum websocket** (`consumers.dfy`). The channel layer is a table from
  group name to a set of channel names, plus one event queue per channel.
  `ChatConsumer` joins group `forum` on connect and leaves it on disconnect.
  On receive it forwards `new_thread` and `new_reply` frames to every member,
  the sender included, and ignores every other type. A frame without a
  `type` key is an error. The handlers write
  `{'type': 'new_thread', 'thread': <frame>}` (or the reply form) to the
  websocket.

Time is an integer count of microseconds passed in as `now`. The group-call
room token, which the source draws from `uuid4`, is a parameter. The user,
thread and reply tables that the views only read are parameters too.

Behaviour worth noting:

- Rejecting a call sets its status to `missed`.
- Accept, reject and end do not look at the call's current status. An ended
  call can be accepted again (`CallViews.ReceiverGateScenario` shows this).
- The caller accepting their own call gets "Call not found", because the
  lookup is filtered by receiver.
- The websocket consumer checks no identity and persists nothing. It
  forwards the inbound frame as it is.
- Group-call joins are capped by `max_participants`. Creation adds the
  initiator even when `max_participants` is below one.
- `VideoCall` and `GroupVideoCall` are imported by chat/views.py but not
  defined in chat/models.py. They are modelled from the fields the views use.
- Thread and Reply declare no `votes` relation, although `vote_count` and
  `user_vote` read one (see "## Findings"). The corrected model reads the
  votes whose subject is that thread or reply.

## Model

| member | source | states |
|---|---|---|
| Models.OnlineWithinTwoMinutes | chat/models.py:16-17 | a profile is online exactly when at most 120 seconds have passed since `last_seen` |
| Models.OnlineIsMonotone | chat/models.py:16-17 | a later `last_seen` never turns an online user offline |
| Models.IsOnline | chat/models.py:16-17 | a user seen at or after `now` is online, and an online user was seen at most two minutes before `now` |
| Models.NewNotification | chat/models.py:103-109 | a newly created notification is unread and carries the given user, message, thread and reply |
| Models.UniqueIffAtMostOnePerKey | chat/models.py:97-98 | the uniqueness rule holds exactly when no (user, subject) has more than one vote row |
| Models.VoteCountIsSum | chat/models.py:41-44 | while every value is +1 or -1, up-votes minus down-votes is the sum of the subject's vote values (Reply's copy at lines 62-65 is the same function) |
| Models.VoteCount | chat/models.py:41-44 | up-votes minus down-votes on the subject, never beyond plus or minus the number of rows |
| Models.UnvotedSubjectCountsZero | chat/models.py:41-44 | a subject nobody voted on has a vote count of 0 |
| Models.FindVote | chat/models.py:48 | the lookup finds a row that is the user's vote on the subject, or reports that no row is |
| Models.UserVote | chat/models.py:46-51 | 0 when the user has no vote on the subject; on a table without duplicates, the value of the user's row; on a table of valid values, 0, 1 or -1 (Reply's copy at lines 67-72 is the same) |
| Models.UserVoteRange | chat/models.py:83-88 | on a valid table `user_vote` lies between -1 and 1 |
| VoteView.CheckVote | chat/views.py:145-165 | each error (not POST, bad `vote_type`, bad `model_type`, missing object) is returned exactly when it is the first check to fail; on success the subject and a value of +1 or -1 matching the parameter |
| VoteView.ErrorMessagesDistinct | chat/views.py:146-165 | each of the four failures answers with its own message |
| VoteView.Toggle | chat/views.py:167-179 | every row that is not the user's vote on the subject survives, and no other row is created |
| VoteView.ToggleKeepsValid | chat/views.py:167-179 | a submitted vote keeps every value in {+1, -1} and keeps at most one row per (user, subject) |
| VoteView.ToggleUserVote | chat/views.py:167-179 | afterwards the user's vote is the submitted value when they had none or the opposite one, and none when they had the same one |
| VoteView.ToggleLeavesOthers | chat/views.py:167-179 | no other user's vote and no vote on another subject changes |
| VoteView.ToggleRowCount | chat/views.py:174-179 | afterwards the user has exactly one row on the subject, or none when the vote was withdrawn |
| VoteView.ToggleVoteCount | chat/views.py:167-181 | the subject's vote count moves by exactly the change in the user's vote |
| VoteView.ToggleOtherCount | chat/views.py:167-179 | every other subject's vote count is unchanged |
| VoteView.ToggleTwiceRestores | chat/views.py:167-176 | the same vote submitted twice by a user who had none leaves the table exactly as it was |
| VoteView.VoteTable.CastVote | chat/views.py:145-181 | an error leaves the table unchanged; success applies the toggle, keeps the table valid, and answers with the new vote count and user vote |
| VoteView.CastVoteAsWritten | chat/views.py:145-181 | as written, a request that fails a check answers with that error and leaves the table alone; one that passes saves the toggle and then raises |
| VoteView.ToggleChangesTable | chat/views.py:167-179 | every submitted vote changes the table: a row is added, deleted or flipped |
| VoteView.AsWrittenSavesThenRaises | chat/views.py:167-181 | as written, every request that passes the checks changes the table and then fails instead of answering |
| CallViews.NewGroupCall | chat/views.py:349-358 | a new group call is active, has the initiator as its only participant and keeps the other fields as given |
| CallViews.ErrorMessagesDistinct | chat/views.py:292-383 | each failure of the call views answers with its own text (the `error` field, or the plain 400 body for a non-POST group-call creation) |
| CallViews.HttpStatus | chat/views.py:292-383 | 403 exactly for "Unauthorized", 404 exactly for a missing user, call or group call, 400 otherwise |
| CallViews.IsGiven | chat/views.py:354 | the submitted start time counts only when present and non-zero, as Python's truth test has it |
| CallViews.JoinGroup | chat/views.py:373-374 | the user is added exactly when fewer than `max_participants` take part; nothing else changes; the group invariant is kept |
| CallViews.FullCallAdmitsNobody | chat/views.py:373-381 | a full call turns away every user, participants included |
| CallViews.RejoinChangesNothing | chat/views.py:374 | a participant joining again leaves the call as it was |
| CallViews.CallStore.InitiateVideoCall | chat/views.py:277-292 | an unknown user is "User not found" with no change; otherwise a new ringing call from requester to receiver under a fresh id |
| CallViews.CallStore.AcceptVideoCall | chat/views.py:296-305 | succeeds exactly for the receiver; then only that call changes, to active with start time `now`; otherwise "Call not found" and no change |
| CallViews.CallStore.RejectVideoCall | chat/views.py:309-317 | succeeds exactly for the receiver; then only that call changes, to missed; otherwise "Call not found" and no change |
| CallViews.CallStore.EndVideoCall | chat/views.py:321-332 | "Call not found" exactly for a missing call, "Unauthorized" exactly for a non-party, both with no change; otherwise only that call changes, to ended with end time `now` |
| CallViews.CallStore.CreateGroupCall | chat/views.py:336-365 | non-POST is refused with no change; otherwise the call is stored under its room token with the defaulted title, description, capacity and start time and the initiator as participant |
| CallViews.CallStore.JoinGroupCall | chat/views.py:369-383 | "Group call not found" and "Group call is full" exactly in their cases, with no change; otherwise the requester is a participant and only that call changes |
| CallViews.AcceptAsWritten | chat/views.py:298-305 | as written, accepting never changes the stored calls, and raises exactly when the receiver's call is found |
| CallViews.AcceptAsWrittenNeverActivates | chat/views.py:300-302 | as written, the receiver's accept of a ringing call raises and the call stays ringing |
| CallViews.EndAsWritten | chat/views.py:323-332 | as written, ending never changes the stored calls, and raises exactly when a party ends the call |
| CallViews.EndAsWrittenNeverEnds | chat/views.py:325-328 | as written, a party's end of an active call raises and the call stays active |
| CallViews.CreateGroupCallAsWritten | chat/views.py:341-358 | as written, a POST without a truthy start time raises and stores nothing; with one the call is stored |
| CallViews.CreateWithoutStartTimeStoresNothing | chat/views.py:345-358 | as written, a group call created without start time is never stored |
| SearchView.FilterQuery | chat/views.py:250-255 | keeps exactly the threads whose title, content or author name contains the query ignoring case, and all of them in order when all match |
| SearchView.FilterCategory | chat/views.py:257-258 | keeps exactly the threads of the category; threads without one never match |
| SearchView.Matching | chat/views.py:248-258 | keeps exactly the threads that pass the filters the request switches on; with neither, all threads in order |
| SearchView.FilterQueryConcat | chat/views.py:250-255 | the query filter of a table split in two is the filter of each part, in order |
| SearchView.FilterQuerySingle | chat/views.py:250-255 | a single thread is kept by the query filter exactly when it matches |
| SearchView.FilterCategoryConcat | chat/views.py:257-258 | the category filter of a table split in two is the filter of each part, in order |
| SearchView.FilterCategorySingle | chat/views.py:257-258 | a single thread is kept by the category filter exactly when it has that category |
| SearchView.MatchingConcat | chat/views.py:248-258 | the queryset keeps the table's newest-first order: matches among newer threads come before matches among older ones |
| SearchView.MatchingSingle | chat/views.py:248-258 | a single thread is kept exactly when the filters select it |
| SearchView.PageFromNewest | chat/views.py:248-261 | when the newest threads already hold 20 matches, the page is their first 20 matches and no older thread appears |
| SearchView.Truncate | chat/views.py:265 | content of at most 100 characters is unchanged; longer content becomes its first 100 characters followed by `...` |
| SearchView.TruncateBounds | chat/views.py:265 | the shown content is at most 103 characters and starts with the content's first (up to 100) characters |
| SearchView.TruncateIdempotent | chat/views.py:265 | cutting an already cut content changes nothing |
| SearchView.ReplyCount | chat/views.py:269 | the number of replies whose thread is this thread |
| SearchView.Summarize | chat/views.py:262-271 | an entry carries the thread's id, title and author, its content cut to 100 characters plus `...` (Truncate), the category name or "General", the number of replies pointing at the thread, and the thread's vote count |
| SearchView.Search | chat/views.py:245-273 | the result has min(matches, 20) entries, the i-th summarising the i-th matching thread, each one a thread the filters keep |
| SearchView.SearchAsWritten | chat/views.py:260-273 | as written, the view answers only when no thread matches, and then with no entries |
| SearchView.SearchAsWrittenFailsOnAnyMatch | chat/views.py:270 | as written, a search that any thread matches fails instead of answering |
| PostViews.StripEmptyIffBlank | chat/forms.py:13-16 | the cleaned reply content is empty exactly when the content is all whitespace |
| PostViews.ErrorMessagesDistinct | chat/views.py:87-191 | each failure of the posting views answers with its own message (the 405 with an empty body) |
| PostViews.CreateReply | chat/views.py:87-113 | 405 exactly for a request that is not a POST; for a POST, 404 exactly for a missing thread, "Invalid form" exactly for missing or blank content or content holding a NUL character, and success exactly for a POST to an existing thread with valid content; on success the stored reply and response carry the cleaned content; a notification exists exactly when the replier is not the thread author, is for the author, unread, and names the thread and reply |
| PostViews.BlankReplyRefused | chat/views.py:90-92 | an all-whitespace reply is refused as an invalid form |
| PostViews.NulReplyRefused | chat/views.py:91-92 | a reply holding a NUL character anywhere is refused as an invalid form |
| PostViews.SendChatMessage | chat/views.py:185-200 | non-POST and missing or empty content are refused exactly in their cases; otherwise the message is answered with its content unchanged |
| PostViews.SpacesAcceptedOnlyInChat | chat/views.py:189-191 | a chat message of spaces is accepted while a reply of spaces is refused |
| Consumers.Added | chat/consumers.py:11-14 | after group_add the channel is a member of the group and no other group changes |
| Consumers.Discarded | chat/consumers.py:20-23 | after group_discard the channel is no longer a member, other members stay, and no other group changes |
| Consumers.Forwarded | chat/consumers.py:27-46 | only `new_thread` and `new_reply` frames are forwarded, each wrapped with the whole inbound frame; every other type yields nothing |
| Consumers.HandlersEchoTheFrame | chat/consumers.py:48-58 | the handler of a forwarded event sends the entire inbound frame under `thread` or `reply` |
| Consumers.ChannelLayer.GroupAdd | chat/consumers.py:11-14 | the channel joins the group; no other membership and no queue changes |
| Consumers.ChannelLayer.GroupDiscard | chat/consumers.py:20-23 | the channel leaves the group; no other membership and no queue changes |
| Consumers.MembershipFollowsLastEvent | chat/consumers.py:7-23 | after any sequence of connects and disconnects a channel is in `forum` exactly when its last event was a connect, and no other group changes |
| Consumers.ChannelLayer.GroupSend | chat/consumers.py:32-38 | membership is unchanged and the event is appended to the queue of every member and of no other channel |
| Consumers.ChatConsumer.Connect | chat/consumers.py:7-16 | sets the room group to `forum`, adds the channel to it, accepts, and queues nothing |
| Consumers.ChatConsumer.Disconnect | chat/consumers.py:18-23 | removes the channel from its group and leaves every other membership and every queue alone |
| Consumers.ChatConsumer.Receive | chat/consumers.py:25-46 | an error exactly when `type` cannot be read from the frame (an object without the key, or a frame that is not an object); membership never changes; forwarded frames reach every member's queue, sender included; other frames change nothing |
| Consumers.ChatConsumer.NewThreadMessage | chat/consumers.py:48-52 | writes `{'type': 'new_thread', 'thread': event['thread']}` to the websocket |
| Consumers.ChatConsumer.NewReplyMessage | chat/consumers.py:54-58 | writes `{'type': 'new_reply', 'reply': event['reply']}` to the websocket |

## Findings

| source | as written | input that shows it | evidently intended | confidence | as-written member | corrected member |
|---|---|---|---|---|---|---|
| chat/views.py:1, 301 | `timezone` is `datetime.timezone`, which has no `now`; accept raises AttributeError before `call.save()` | receiver 2 accepts ringing call 0 from user 1 | the call becomes active with start time now | high; not executed | CallViews.AcceptAsWrittenNeverActivates | CallViews.CallStore.AcceptVideoCall |
| chat/views.py:1, 327 | end raises AttributeError before `call.save()` | caller 1 ends active call 0 | the call becomes ended with end time now | high; not executed | CallViews.EndAsWrittenNeverEnds | CallViews.CallStore.EndVideoCall |
| chat/views.py:1, 354 | without a truthy `start_time`, `timezone.now()` raises before the group call is created | a POST with body `{}` | the call is created with start time now | high; not executed | CallViews.CreateWithoutStartTimeStoresNothing | CallViews.CallStore.CreateGroupCall |
| chat/views.py:181 | Thread and Reply (chat/models.py:41-51, 62-72) declare no `votes` relation, so `obj.vote_count()` raises AttributeError after the toggle has been saved | user 1 up-votes existing thread 7 | the response carries the new vote count and the user's vote | high; not executed | VoteView.AsWrittenSavesThenRaises | VoteView.VoteTable.CastVote |
| chat/views.py:270 | the same missing relation makes `thread.vote_count()` raise for the first listed thread | a search without `q` on a table holding one thread | up to 20 summaries with their vote counts | high; not executed | SearchView.SearchAsWrittenFailsOnAnyMatch | SearchView.Search |

## Left out

- Template rendering and page views (`index`, `contact`, `about`, `login_view`, `register`, `profile`, `create_thread_form`, the `notifications` page, `get_call_history`): they render HTML or paginate.
- `create_thread` and `ThreadForm`: not part of the modelled core; only the reply form's content check is modelled.
- The ORM, `get_or_create` and querysets: tables are sequences and maps in memory, and no transaction is modelled.
- The clock: `timezone.now()` is the parameter `now`, in microseconds; `created_at` and `strftime` output are not modelled.
- `uuid.uuid4()`: the room token is a parameter.
- CallViews.CallStore.CreateGroupCall: requires the room token not to be in use, standing for the uniqueness of a random uuid prefix; a clashing token is not modelled.
- Models.UserVote: characterises its result only on a table without duplicate rows, where Django's `get` cannot raise MultipleObjectsReturned.
- Login (`@login_required`): every view receives an already authenticated user id.
- JSON parsing (`json.loads`, `json.dumps`): the consumer receives and sends parsed values, and `create_reply` and `create_group_call` receive the parsed request body as optional fields; a body or frame that is not valid JSON, or a body that is not an object, raises in the source and is not modelled; JSON numbers are integers only.
- Non-string form values and JSON `null` for the optional group-call fields: optional fields are either absent or carry a value of the expected type.
- Whitespace stripping and case folding cover ASCII characters only.
- The `category` search parameter is a category id or absent; a non-numeric value, which Django would reject, is not modelled.
- The 255-character limit of `Notification.message`: `objects.create` does not check it.
- The asynchronous scheduling of the channel layer (`await`, delivery order between channels): group operations are atomic steps.
- The framework's delivery of a queued event to the consumer's handler: the handlers are modelled as methods taking the event.
- `VideoCallConsumer`, `GroupVideoCallConsumer`, chat/routing.py, chat/urls.py, chat/middleware.py: referenced code that does not exist, unresolved merge markers, routing tables and a timestamp write.
- The import of `VideoCall`, `GroupVideoCall` and `CallHistory` at chat/views.py:17-20, which chat/models.py does not define and which would stop the module loading: the model treats them as defined.
