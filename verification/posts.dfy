/** The posting rules of chat/views.py: create_reply (with the notification
    sent to the thread's author) and the content check of send_chat_message.
    Row ids are supplied by the caller; created_at is not modelled. */
module PostViews {
  import opened Wrappers
  import opened Models

  /** `MethodRejected` is the 405 that @require_http_methods(["POST"]) answers
      before the view runs; `MethodNotAllowed` is the view's own 400. */
  datatype PostError = MethodRejected | NotFound | InvalidForm | MethodNotAllowed | ContentRequired

  /** The error text of each failure.  The 405 has an empty body; "Not Found"
      is the title of the default page Django renders for the Http404 that
      get_object_or_404 raises. */
  function ErrorMessage(e: PostError): string
  {
    match e
    case MethodRejected => ""
    case NotFound => "Not Found"
    case InvalidForm => "Invalid form"
    case MethodNotAllowed => "Only POST method allowed"
    case ContentRequired => "Content is required"
  }

  /** Each failure answers with its own message. */
  lemma ErrorMessagesDistinct(e1: PostError, e2: PostError)
    ensures ErrorMessage(e1) == ErrorMessage(e2) ==> e1 == e2
  {
  }

  // ---------------------------------------------------------------- form cleaning

  /** The ASCII characters for which Python's str.isspace holds. */
  predicate IsSpace(c: char)
  {
    c == ' ' || ('\t' <= c <= '\r') || ('\U{1C}' <= c <= '\U{1F}')
  }

  function StripStart(s: string): (r: string)
    ensures |r| <= |s| && r == s[|s| - |r|..]
    ensures r == [] || !IsSpace(r[0])
    ensures forall i | 0 <= i < |s| - |r| :: IsSpace(s[i])
  {
    if s != [] && IsSpace(s[0]) then StripStart(s[1..]) else s
  }

  function StripEnd(s: string): (r: string)
    ensures |r| <= |s| && r == s[..|r|]
    ensures r == [] || !IsSpace(r[|r| - 1])
    ensures forall i | |r| <= i < |s| :: IsSpace(s[i])
  {
    if s != [] && IsSpace(s[|s| - 1]) then StripEnd(s[..|s| - 1]) else s
  }

  /** str.strip(), which a form CharField applies before its checks. */
  function Strip(s: string): string
  {
    StripEnd(StripStart(s))
  }

  /** Stripping leaves nothing exactly when the text is all whitespace. */
  lemma StripEmptyIffBlank(s: string)
    ensures Strip(s) == [] <==> forall i | 0 <= i < |s| :: IsSpace(s[i])
  {
  }

  /** ReplyForm (fields ['content']): the form field for the content is a
      CharField, so the form is valid when the cleaned content is non-empty
      and holds no NUL character (the field's ProhibitNullCharactersValidator;
      stripping never removes a NUL, so checking the raw text is the same). */
  predicate ReplyFormValid(content: Option<string>)
  {
    content.Some? && Strip(content.value) != [] && '\0' !in content.value
  }

  // ---------------------------------------------------------------- create_reply

  datatype ReplyResponse = ReplyResponse(id: nat, content: string, threadId: nat, kind: string)

  /** What create_reply stores and answers. */
  datatype ReplyCreated = ReplyCreated(reply: Reply, notification: Option<Notification>, response: ReplyResponse)

  function ReplyMessage(replierName: string, threadTitle: string): string
  {
    replierName + " replied to your thread '" + threadTitle + "'"
  }

  /** create_reply(request, thread_id): 405 for anything but POST (the
      require_http_methods decorator), 404 for a missing thread, "Invalid
      form" for missing, blank or NUL-holding content, otherwise the reply and, when the replier is
      not the thread's author, an unread notification for the author. */
  function CreateReply(isPost: bool, threads: map<nat, Thread>, threadId: nat, replier: UserId, replierName: string,
                       content: Option<string>, replyId: nat): (r: Result<ReplyCreated, PostError>)
    ensures r == Err(MethodRejected) <==> !isPost
    ensures r == Err(NotFound) <==> isPost && threadId !in threads
    ensures r == Err(InvalidForm) <==> isPost && threadId in threads && !ReplyFormValid(content)
    ensures r.Ok? <==> isPost && threadId in threads && ReplyFormValid(content)
    ensures r.Ok? ==>
      && content.Some?
      && r.value.reply == Reply(replyId, Strip(content.value), threadId, replier)
      && r.value.response == ReplyResponse(replyId, Strip(content.value), threadId, "new_reply")
    ensures r.Ok? ==> (r.value.notification.Some? <==> threads[threadId].author != replier)
    ensures r.Ok? && r.value.notification.Some? ==>
      var n := r.value.notification.value;
      && n.user == threads[threadId].author
      && !n.isRead
      && n.thread == Some(threadId)
      && n.reply == Some(replyId)
      && n.message == ReplyMessage(replierName, threads[threadId].title)
  {
    if !isPost then Err(MethodRejected)
    else if threadId !in threads then Err(NotFound)
    else if !ReplyFormValid(content) then Err(InvalidForm)
    else
      var thread := threads[threadId];
      var reply := Reply(replyId, Strip(content.value), threadId, replier);
      var notification :=
        if thread.author != replier then
          Some(NewNotification(thread.author, ReplyMessage(replierName, thread.title), Some(threadId), Some(reply.id)))
        else None;
      Ok(ReplyCreated(reply, notification, ReplyResponse(reply.id, reply.content, threadId, "new_reply")))
  }

  /** A reply whose content is missing or all whitespace is refused. */
  lemma BlankReplyRefused(threads: map<nat, Thread>, threadId: nat, replier: UserId, replierName: string,
                          content: string, replyId: nat)
    requires threadId in threads
    requires forall i | 0 <= i < |content| :: IsSpace(content[i])
    ensures CreateReply(true, threads, threadId, replier, replierName, Some(content), replyId) == Err(InvalidForm)
  {
    StripEmptyIffBlank(content);
  }

  /** A reply containing a NUL character is refused, wherever it stands. */
  lemma NulReplyRefused(threads: map<nat, Thread>, threadId: nat, replier: UserId, replierName: string,
                        before: string, after: string, replyId: nat)
    requires threadId in threads
    ensures CreateReply(true, threads, threadId, replier, replierName, Some(before + "\0" + after), replyId) == Err(InvalidForm)
  {
    assert (before + "\0" + after)[|before|] == '\0';
  }

  // ---------------------------------------------------------------- send_chat_message

  datatype ChatResponse = ChatResponse(id: nat, content: string, author: string, kind: string)

  /** send_chat_message: POST only, and `content` must be present and
      non-empty; it is stored as given, without stripping. */
  function SendChatMessage(isPost: bool, content: Option<string>, authorName: string, messageId: nat)
    : (r: Result<ChatResponse, PostError>)
    ensures r == Err(MethodNotAllowed) <==> !isPost
    ensures r == Err(ContentRequired) <==> isPost && (content.None? || content.value == [])
    ensures r.Ok? <==> isPost && content.Some? && content.value != []
    ensures r.Ok? ==> r.value == ChatResponse(messageId, content.value, authorName, "new_chat_message")
  {
    if !isPost then Err(MethodNotAllowed)
    else if content.None? || content.value == [] then Err(ContentRequired)
    else Ok(ChatResponse(messageId, content.value, authorName, "new_chat_message"))
  }

  /** The two checks differ: a chat message of spaces is accepted, a reply of
      spaces is not. */
  lemma SpacesAcceptedOnlyInChat(threads: map<nat, Thread>, threadId: nat, user: UserId, name: string, id: nat)
    requires threadId in threads
    ensures SendChatMessage(true, Some(" "), name, id).Ok?
    ensures CreateReply(true, threads, threadId, user, name, Some(" "), id) == Err(InvalidForm)
  {
    BlankReplyRefused(threads, threadId, user, name, " ", id);
  }
}
