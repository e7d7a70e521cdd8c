/** ChatConsumer of chat/consumers.py over a sequential model of the channel
    layer: a table from group name to the set of member channels, and one
    queue of pending events per channel.  Each group operation is one atomic
    step; the scheduling of `await` is not modelled. */
module Consumers {
  import opened Wrappers
  import opened Json

  type ChannelName = string

  /** The fixed group every ChatConsumer joins. */
  const ForumGroup: string := "forum"

  /** The member channels of `group`; a group never joined has none. */
  function Members(groups: map<string, set<ChannelName>>, group: string): set<ChannelName>
  {
    if group in groups then groups[group] else {}
  }

  /** The events queued for `channel`; a channel never sent to has none. */
  function Queue(queues: map<ChannelName, seq<Json>>, channel: ChannelName): seq<Json>
  {
    if channel in queues then queues[channel] else []
  }

  /** The membership table after group_add(group, channel). */
  function Added(groups: map<string, set<ChannelName>>, group: string, channel: ChannelName)
    : (r: map<string, set<ChannelName>>)
    ensures Members(r, group) == Members(groups, group) + {channel}
    ensures forall g | g != group :: Members(r, g) == Members(groups, g)
  {
    groups[group := Members(groups, group) + {channel}]
  }

  /** The membership table after group_discard(group, channel). */
  function Discarded(groups: map<string, set<ChannelName>>, group: string, channel: ChannelName)
    : (r: map<string, set<ChannelName>>)
    ensures Members(r, group) == Members(groups, group) - {channel}
    ensures forall g | g != group :: Members(r, g) == Members(groups, g)
  {
    groups[group := Members(groups, group) - {channel}]
  }

  /** The event group_send carries for an inbound `new_thread` frame. */
  function ThreadEvent(frame: Json): Json
  {
    JObject(map["type" := JString("new_thread_message"), "thread" := frame])
  }

  /** The event group_send carries for an inbound `new_reply` frame. */
  function ReplyEvent(frame: Json): Json
  {
    JObject(map["type" := JString("new_reply_message"), "reply" := frame])
  }

  /** The frames the handlers write to the websocket. */
  function ThreadFrame(thread: Json): Json
  {
    JObject(map["type" := JString("new_thread"), "thread" := thread])
  }

  function ReplyFrame(reply: Json): Json
  {
    JObject(map["type" := JString("new_reply"), "reply" := reply])
  }

  /** The inbound frame's `type` value (the frame must hold that key). */
  function MessageType(frame: Json): Json
    requires HasKey(frame, "type")
  {
    frame.fields["type"]
  }

  /** The event that receive hands to group_send, if any: only the two
      known types are forwarded; every other value is dropped. */
  function Forwarded(frame: Json): (r: Option<Json>)
    requires HasKey(frame, "type")
    ensures r.Some? <==> MessageType(frame) in {JString("new_thread"), JString("new_reply")}
    ensures r.Some? ==> HasKey(r.value, "type") && r.value.fields["type"] in {JString("new_thread_message"), JString("new_reply_message")}
    ensures MessageType(frame) == JString("new_thread") ==> r == Some(ThreadEvent(frame))
    ensures MessageType(frame) == JString("new_reply") ==> r == Some(ReplyEvent(frame))
  {
    if MessageType(frame) == JString("new_thread") then Some(ThreadEvent(frame))
    else if MessageType(frame) == JString("new_reply") then Some(ReplyEvent(frame))
    else None
  }

  /** The event delivered for a forwarded frame makes its handler send the
      whole inbound frame back under `thread` or `reply`. */
  lemma HandlersEchoTheFrame(frame: Json)
    requires HasKey(frame, "type") && Forwarded(frame).Some?
    ensures var e := Forwarded(frame).value;
      || (HasKey(e, "thread") && ThreadFrame(e.fields["thread"]) == ThreadFrame(frame))
      || (HasKey(e, "reply") && ReplyFrame(e.fields["reply"]) == ReplyFrame(frame))
  {
  }

  // ---------------------------------------------------------------- membership over time

  /** What the consumers of one channel do to the forum group. */
  datatype Lifecycle = Connects(channel: ChannelName) | Disconnects(channel: ChannelName)

  function Step(groups: map<string, set<ChannelName>>, e: Lifecycle): map<string, set<ChannelName>>
  {
    match e
    case Connects(c) => Added(groups, ForumGroup, c)
    case Disconnects(c) => Discarded(groups, ForumGroup, c)
  }

  function Run(groups: map<string, set<ChannelName>>, events: seq<Lifecycle>): map<string, set<ChannelName>>
  {
    if events == [] then groups else Step(Run(groups, events[..|events| - 1]), events[|events| - 1])
  }

  /** The last connect or disconnect of `channel` in `events`, if any. */
  function LastOf(events: seq<Lifecycle>, channel: ChannelName): (r: Option<Lifecycle>)
    ensures r.Some? ==> r.value.channel == channel
  {
    if events == [] then None
    else if events[|events| - 1].channel == channel then Some(events[|events| - 1])
    else LastOf(events[..|events| - 1], channel)
  }

  /** After any sequence of connects and disconnects, a channel belongs to
      the forum group exactly when its last event was a connect (or, having
      none, when it belonged before); no other group changes. */
  lemma {:induction false} MembershipFollowsLastEvent(groups: map<string, set<ChannelName>>,
                                                      events: seq<Lifecycle>, channel: ChannelName)
    ensures channel in Members(Run(groups, events), ForumGroup) <==>
      match LastOf(events, channel)
      case None => channel in Members(groups, ForumGroup)
      case Some(e) => e.Connects?
    ensures forall g | g != ForumGroup :: Members(Run(groups, events), g) == Members(groups, g)
  {
    if events != [] {
      MembershipFollowsLastEvent(groups, events[..|events| - 1], channel);
    }
  }

  // ---------------------------------------------------------------- the channel layer

  /** `after` is `before` with `message` appended to the queue of every
      channel in `targets`, and every other queue as it was. */
  ghost predicate AppendedTo(before: map<ChannelName, seq<Json>>, after: map<ChannelName, seq<Json>>,
                       targets: set<ChannelName>, message: Json)
  {
    forall c :: Queue(after, c) == (if c in targets then Queue(before, c) + [message] else Queue(before, c))
  }

  lemma AppendOneMore(before: map<ChannelName, seq<Json>>, mid: map<ChannelName, seq<Json>>,
                      done: set<ChannelName>, c: ChannelName, message: Json)
    requires AppendedTo(before, mid, done, message) && c !in done
    ensures AppendedTo(before, mid[c := Queue(mid, c) + [message]], done + {c}, message)
  {
  }

  class ChannelLayer {
    var groups: map<string, set<ChannelName>>
    var queues: map<ChannelName, seq<Json>>

    constructor ()
      ensures groups == map[] && queues == map[]
    {
      groups, queues := map[], map[];
    }

    method GroupAdd(group: string, channel: ChannelName)
      modifies this
      ensures groups == Added(old(groups), group, channel)
      ensures queues == old(queues)
    {
      groups := groups[group := Members(groups, group) + {channel}];
    }

    method GroupDiscard(group: string, channel: ChannelName)
      modifies this
      ensures groups == Discarded(old(groups), group, channel)
      ensures queues == old(queues)
    {
      groups := groups[group := Members(groups, group) - {channel}];
    }

    /** group_send: one copy of `message` at the end of every member's queue. */
    method GroupSend(group: string, message: Json)
      modifies this
      ensures groups == old(groups)
      ensures AppendedTo(old(queues), queues, Members(old(groups), group), message)
    {
      var pending := Members(groups, group);
      ghost var done: set<ChannelName> := {};
      while pending != {}
        invariant groups == old(groups)
        invariant pending + done == Members(groups, group) && pending !! done
        invariant AppendedTo(old(queues), queues, done, message)
        decreases |pending|
      {
        var c :| c in pending;
        AppendOneMore(old(queues), queues, done, c, message);
        queues := queues[c := Queue(queues, c) + [message]];
        pending := pending - {c};
        done := done + {c};
      }
    }
  }

  // ---------------------------------------------------------------- the consumer

  /** `text_data_json['type']` cannot be read: a KeyError for an object
      without a `type` key, a TypeError for a frame that is not an object. */
  datatype ReceiveError = TypeUnreadable

  class ChatConsumer {
    const channelName: ChannelName
    const layer: ChannelLayer
    var roomGroupName: Option<string>
    var accepted: bool
    /** The frames written to this consumer's websocket, oldest first. */
    var sent: seq<Json>

    constructor (channelName: ChannelName, layer: ChannelLayer)
      ensures this.channelName == channelName && this.layer == layer
      ensures roomGroupName.None? && !accepted && sent == []
    {
      this.channelName := channelName;
      this.layer := layer;
      roomGroupName, accepted, sent := None, false, [];
    }

    /** connect: join the forum group, then accept the handshake. */
    method Connect()
      modifies this, layer
      ensures roomGroupName == Some(ForumGroup) && accepted && sent == old(sent)
      ensures layer.groups == Added(old(layer.groups), ForumGroup, channelName)
      ensures layer.queues == old(layer.queues)
    {
      roomGroupName := Some(ForumGroup);
      layer.GroupAdd(roomGroupName.value, channelName);
      accepted := true;
    }

    /** disconnect: leave the group joined on connect. */
    method Disconnect(closeCode: int)
      requires roomGroupName.Some?
      modifies layer
      ensures layer.groups == Discarded(old(layer.groups), roomGroupName.value, channelName)
      ensures layer.queues == old(layer.queues)
    {
      layer.GroupDiscard(roomGroupName.value, channelName);
    }

    /** receive: a frame without a `type` key fails (the indexing raises);
        `new_thread` and `new_reply` frames are sent to the whole group,
        sender included; any other type does nothing.  Membership never
        changes. */
    method Receive(frame: Json) returns (r: Result<(), ReceiveError>)
      requires roomGroupName.Some?
      modifies layer
      ensures layer.groups == old(layer.groups)
      ensures r.Err? <==> !HasKey(frame, "type")
      ensures r.Err? || Forwarded(frame).None? ==> layer.queues == old(layer.queues)
      ensures r.Ok? && Forwarded(frame).Some? ==>
        AppendedTo(old(layer.queues), layer.queues, Members(old(layer.groups), roomGroupName.value), Forwarded(frame).value)
    {
      if !HasKey(frame, "type") {
        return Err(TypeUnreadable);
      }
      var messageType := frame.fields["type"];
      if messageType == JString("new_thread") {
        layer.GroupSend(roomGroupName.value, ThreadEvent(frame));
      } else if messageType == JString("new_reply") {
        layer.GroupSend(roomGroupName.value, ReplyEvent(frame));
      }
      r := Ok(());
    }

    /** new_thread_message: forward the event's thread to the websocket. */
    method NewThreadMessage(event: Json)
      requires HasKey(event, "thread")
      modifies this
      ensures sent == old(sent) + [ThreadFrame(event.fields["thread"])]
      ensures roomGroupName == old(roomGroupName) && accepted == old(accepted)
    {
      sent := sent + [ThreadFrame(event.fields["thread"])];
    }

    /** new_reply_message: forward the event's reply to the websocket. */
    method NewReplyMessage(event: Json)
      requires HasKey(event, "reply")
      modifies this
      ensures sent == old(sent) + [ReplyFrame(event.fields["reply"])]
      ensures roomGroupName == old(roomGroupName) && accepted == old(accepted)
    {
      sent := sent + [ReplyFrame(event.fields["reply"])];
    }
  }

  /** Two connected channels, the sender included, get the new thread; a
      third channel that left the group gets nothing. */
  method NewThreadScenario()
  {
    var layer := new ChannelLayer();
    var u1 := new ChatConsumer("u1", layer);
    var u2 := new ChatConsumer("u2", layer);
    var u3 := new ChatConsumer("u3", layer);
    u1.Connect();
    u2.Connect();
    u3.Connect();
    u3.Disconnect(1000);
    assert Members(layer.groups, ForumGroup) == {"u1", "u2"};
    var frame := JObject(map["type" := JString("new_thread"), "title" := JString("Hi"), "content" := JString("Body")]);
    var r := u1.Receive(frame);
    assert Queue(layer.queues, "u1") == [ThreadEvent(frame)];
    assert Queue(layer.queues, "u2") == [ThreadEvent(frame)];
    assert Queue(layer.queues, "u3") == [];
    u2.NewThreadMessage(Queue(layer.queues, "u2")[0]);
    assert u2.sent == [ThreadFrame(frame)];
    var ignored := u1.Receive(JObject(map["type" := JString("typing")]));
    assert Queue(layer.queues, "u2") == [ThreadEvent(frame)];
  }
}
