/** The bot's handling of one inbound chat message
    (extensions/nexus/src/bot.ts): reading the event, the direct-message
    allow-list gate, the addresses and body handed to the agent, and the
    reply dispatcher created for the message, marked idle once the agent's
    dispatch has finished.

    The host's agent (`dispatchReplyFromConfig`) is not part of this
    model: its effect is a script of streaming calls it makes on the
    dispatcher and whether it throws. Envelope formatting, routing, system
    events and the history helpers are foreign too; the model keeps what
    the handler itself decides. */
module Bot {
  import opened Wrappers
  import opened Text
  import opened BotTypes
  import Assoc
  import Send
  import RelayTypes
  import Registry
  import ReplyDispatch

  /** `GatewayMessageContext`: the event with its defaults filled in. */
  datatype MessageContext = MessageContext(
    messageId: string, conversationId: string, senderId: string, senderName: string,
    chatType: string, content: string, replyTo: Option<string>)

  /** `parseGatewayMessageEvent`: a message without a conversation is its
      sender's own conversation, a sender without a name is named by its
      id, and a message without a chat type is direct. */
  function ParseGatewayMessageEvent(event: InboundChat): (ctx: MessageContext)
    ensures ctx.messageId == event.id && ctx.senderId == event.from
    ensures ctx.content == event.content && ctx.replyTo == event.replyTo
    ensures event.conversationId.None? ==> ctx.conversationId == event.from
    ensures event.conversationId.Some? ==> ctx.conversationId == event.conversationId.value
    ensures event.senderName.None? ==> ctx.senderName == ctx.senderId
    ensures event.senderName.Some? ==> ctx.senderName == event.senderName.value
    ensures event.chatType.None? ==> ctx.chatType == "direct"
    ensures event.chatType.Some? ==> ctx.chatType == event.chatType.value
  {
    MessageContext(
      event.id, event.conversationId.GetOr(event.from), event.from,
      event.senderName.GetOr(event.from), event.chatType.GetOr("direct"),
      event.content, event.replyTo)
  }

  /** A chat frame of the relay as the bot reads it: the relay sends no
      conversation, chat type or sender name. */
  function Received(m: RelayTypes.MessageToBot): InboundChat {
    InboundChat(m.id, m.content, m.from, m.replyTo, m.timestamp, None, None, None)
  }

  /** Every message the relay forwards is a direct message from its
      sender, in the sender's own conversation. */
  lemma RelayedChatIsDirect(m: RelayTypes.MessageToBot)
    ensures ParseGatewayMessageEvent(Received(m)) ==
      MessageContext(m.id, m.from, m.from, m.from, "direct", m.content, m.replyTo)
  {
  }

  predicate IsGroup(ctx: MessageContext) {
    ctx.chatType == "group"
  }

  /** `allowFrom.some(entry => String(entry) === senderId)`. */
  function Listed(allowFrom: seq<Value>, senderId: string): (r: bool)
    ensures r <==> exists i :: 0 <= i < |allowFrom| && ToString(allowFrom[i]) == senderId
    decreases |allowFrom|
  {
    if allowFrom == [] then false
    else if ToString(allowFrom[0]) == senderId then true
    else
      var r := Listed(allowFrom[1..], senderId);
      assert forall i :: 1 <= i < |allowFrom| ==> allowFrom[i] == allowFrom[1..][i - 1];
      r
  }

  /** The policy for direct messages: the section's, else "open". */
  function DmPolicy(section: Option<GatewayConfig>): (r: string)
    ensures section.Some? && section.value.dmPolicy.Some? ==> r == section.value.dmPolicy.value
    ensures section.None? || section.value.dmPolicy.None? ==> r == "open"
  {
    if section.Some? then section.value.dmPolicy.GetOr("open") else "open"
  }

  /** The allow list: the section's, else none. */
  function AllowList(section: Option<GatewayConfig>): (r: seq<Value>)
    ensures section.Some? && section.value.allowFrom.Some? ==> r == section.value.allowFrom.value
    ensures section.None? || section.value.allowFrom.None? ==> r == []
  {
    if section.Some? then section.value.allowFrom.GetOr([]) else []
  }

  /** The gate of `handleGatewayMessage`: group messages always pass; a
      direct message passes unless the policy is "allowlist" and no
      entry, as a string, is exactly the sender's id. */
  function Admitted(section: Option<GatewayConfig>, ctx: MessageContext): (r: bool)
    ensures IsGroup(ctx) ==> r
    ensures DmPolicy(section) != "allowlist" ==> r
    ensures !IsGroup(ctx) && DmPolicy(section) == "allowlist" ==>
      (r <==> exists i :: 0 <= i < |AllowList(section)| && ToString(AllowList(section)[i]) == ctx.senderId)
  {
    IsGroup(ctx) || DmPolicy(section) != "allowlist" || Listed(AllowList(section), ctx.senderId)
  }

  /** The allow list is compared as written: an entry with a kind prefix
      or in another case does not admit the sender it names. */
  lemma AllowListVerbatim(section: GatewayConfig, ctx: MessageContext)
    requires !IsGroup(ctx) && section.dmPolicy == Some("allowlist")
    requires section.allowFrom == Some([Str("user:" + ctx.senderId)])
    ensures !Admitted(Some(section), ctx)
  {
    assert |"user:" + ctx.senderId| != |ctx.senderId|;
  }

  /** Where the message comes from, for the agent. */
  function GatewayFrom(ctx: MessageContext): (r: string)
    ensures IsGroup(ctx) ==> r == "nexus:group:" + ctx.conversationId
    ensures !IsGroup(ctx) ==> r == "nexus:" + ctx.senderId
  {
    if IsGroup(ctx) then "nexus:group:" + ctx.conversationId else "nexus:" + ctx.senderId
  }

  /** Where the agent's answer goes: the conversation of a group, else
      the sender. */
  function GatewayTo(ctx: MessageContext): (r: string)
    ensures StartsWith(r, if IsGroup(ctx) then "conv:" else "user:")
    ensures r == if IsGroup(ctx) then "conv:" + ctx.conversationId else "user:" + ctx.senderId
  {
    var p := if IsGroup(ctx) then "conv:" else "user:";
    assert (p + Peer(ctx))[..5] == p;
    p + Peer(ctx)
  }

  /** Who the agent talks to: the group's conversation, else the sender. */
  function Peer(ctx: MessageContext): string {
    if IsGroup(ctx) then ctx.conversationId else ctx.senderId
  }

  /** The `To` address is a target that the send path reads back as the
      peer it names. */
  lemma AddressRoundTrip(ctx: MessageContext)
    ensures Send.NormalizeGatewayTarget(GatewayTo(ctx)) == Trim(Peer(ctx))
  {
    if IsGroup(ctx) {
      assert Lower("conv:") == "conv:" by {
        var l := Lower("conv:");
        assert l[0] == 'c' && l[1] == 'o' && l[2] == 'n' && l[3] == 'v' && l[4] == ':';
      }
      Send.NormalizePrefixed("conv:", Peer(ctx));
    } else {
      assert Lower("user:") == "user:" by {
        var l := Lower("user:");
        assert l[0] == 'u' && l[1] == 's' && l[2] == 'e' && l[3] == 'r' && l[4] == ':';
      }
      Send.NormalizePrefixed("user:", Peer(ctx));
    }
  }

  /** The quote put before the content of a reply. */
  function Quote(replyTo: string): string {
    "[Replying to: \"" + replyTo + "\"]\n\n"
  }

  /** The message body: with a non-empty `replyTo`, the content after a
      quote of it; otherwise the content alone. */
  function MessageBody(ctx: MessageContext): (r: string)
    ensures |r| >= |ctx.content| && r[|r| - |ctx.content|..] == ctx.content
    ensures r == ctx.content <==> ctx.replyTo.None? || ctx.replyTo.value == ""
    ensures ctx.replyTo.Some? && ctx.replyTo.value != "" ==> StartsWith(r, Quote(ctx.replyTo.value))
    ensures ctx.replyTo.Some? && ctx.replyTo.value != "" ==> r == Quote(ctx.replyTo.value) + ctx.content
  {
    if ctx.replyTo.Some? && ctx.replyTo.value != "" then
      var q := Quote(ctx.replyTo.value);
      assert (q + ctx.content)[..|q|] == q;
      assert (q + ctx.content)[|q|..] == ctx.content;
      q + ctx.content
    else ctx.content
  }

  /** The group history limit: the configured one, else the host's
      default, and never below zero. */
  function HistoryLimit(configured: Option<int>, default: int): (r: nat)
    ensures configured.Some? && configured.value >= 0 ==> r == configured.value
    ensures configured.None? && default >= 0 ==> r == default
    ensures configured.GetOr(default) < 0 ==> r == 0
  {
    var limit := configured.GetOr(default);
    if limit < 0 then 0 else limit
  }

  /** What the handler gives the agent: the body before envelope
      formatting, the addresses, and the sender. */
  datatype InboundContext = InboundContext(
    body: string, rawBody: string, commandBody: string, from: string, to: string, chatType: string,
    groupSubject: Option<string>, senderName: string, senderId: string, messageSid: string,
    timestamp: int, originatingTo: string)

  /** The inbound context of a message: the chat type is "group" or
      "direct" (any other type counts as direct), a group is named by its
      conversation, and replies go where the message came from. */
  function InboundOf(ctx: MessageContext, timestamp: int): (r: InboundContext)
    ensures r.chatType == "group" <==> IsGroup(ctx)
    ensures r.chatType == "group" || r.chatType == "direct"
    ensures r.groupSubject.Some? <==> IsGroup(ctx)
    ensures r.groupSubject.Some? ==> r.groupSubject.value == ctx.conversationId
    ensures r.rawBody == ctx.content && r.commandBody == ctx.content
    ensures r.originatingTo == r.to
    ensures r.messageSid == ctx.messageId && r.senderId == ctx.senderId && r.timestamp == timestamp
    ensures r.body == MessageBody(ctx) && r.from == GatewayFrom(ctx) && r.to == GatewayTo(ctx)
    ensures r.senderName == ctx.senderName
  {
    var isGroup := IsGroup(ctx);
    InboundContext(
      MessageBody(ctx), ctx.content, ctx.content, GatewayFrom(ctx), GatewayTo(ctx),
      if isGroup then "group" else "direct",
      if isGroup then Some(ctx.conversationId) else None,
      ctx.senderName, ctx.senderId, ctx.messageId, timestamp, GatewayTo(ctx))
  }

  /** The agent answers where the message came from: the `To` address of
      the inbound context is read back by the send path as the group's
      conversation or the sender. */
  lemma InboundAnswersPeer(ctx: MessageContext, timestamp: int)
    ensures Send.NormalizeGatewayTarget(InboundOf(ctx, timestamp).to) ==
      Trim(if IsGroup(ctx) then ctx.conversationId else ctx.senderId)
    ensures Send.NormalizeGatewayTarget(InboundOf(ctx, timestamp).originatingTo) ==
      Trim(if IsGroup(ctx) then ctx.conversationId else ctx.senderId)
  {
    AddressRoundTrip(ctx);
  }

  /** The frames a dispatcher answering `replyTo` writes for a run of
      streaming calls. */
  function ReplyFrames(replyTo: string, parts: seq<ReplyDispatch.Part>, now: int): (r: seq<BotFrame>)
    ensures |r| == |parts|
    ensures forall i :: 0 <= i < |parts| ==>
      r[i] == Reply(ReplyFrame(parts[i].id, replyTo, parts[i].content, parts[i].done, now, None))
  {
    seq(|parts|, i requires 0 <= i < |parts| => Reply(ReplyFrame(parts[i].id, replyTo, parts[i].content, parts[i].done, now, None)))
  }

  /** One streaming call of the agent on the dispatcher: `sendText` for a
      chunk, `sendFinalReply` for the end of the stream. */
  method AgentCall(d: ReplyDispatch.ReplyDispatcher, call: ReplyDispatch.StreamCall, id: string, now: int)
    returns (ghost p: ReplyDispatch.Part)
    modifies d`streamMessageId, d.ws`sent
    ensures ReplyDispatch.Step(d.streamMessageId, p) == ReplyDispatch.StepStream(old(d.streamMessageId), call, id)
    ensures d.ws.sent == old(d.ws.sent) + (if d.ws.state == Open then ReplyFrames(d.replyToMessageId, [p], now) else [])
  {
    var r: Receipt;
    if call.Chunk? {
      r := d.SendText(call.text, id, now);
    } else {
      r := d.SendFinalReply(call.text, id, now);
    }
    p := ReplyDispatch.Part(r.messageId, call.text, call.Finish?);
  }

  /** One more call of a run: the run so far grows by the call's part
      and the rest starts from the stream the call left. */
  lemma RunAdvances(whole: ReplyDispatch.Run, stream: Option<string>, calls: seq<ReplyDispatch.StreamCall>, ids: seq<string>,
                    i: nat, done: seq<ReplyDispatch.Part>, stream': Option<string>, p: ReplyDispatch.Part)
    requires |ids| == |calls| && i < |calls|
    requires whole == ReplyDispatch.Run(ReplyDispatch.RunStream(stream, calls[i..], ids[i..]).stream,
                                        done + ReplyDispatch.RunStream(stream, calls[i..], ids[i..]).parts)
    requires ReplyDispatch.Step(stream', p) == ReplyDispatch.StepStream(stream, calls[i], ids[i])
    ensures whole == ReplyDispatch.Run(ReplyDispatch.RunStream(stream', calls[i + 1..], ids[i + 1..]).stream,
                                       (done + [p]) + ReplyDispatch.RunStream(stream', calls[i + 1..], ids[i + 1..]).parts)
  {
    var rest := ReplyDispatch.RunStream(stream', calls[i + 1..], ids[i + 1..]);
    assert calls[i..][1..] == calls[i + 1..] && ids[i..][1..] == ids[i + 1..];
    ReplyDispatch.RunStreamStep(stream, calls[i..], ids[i..]);
    AppendAssoc(done, [p], rest.parts);
  }

  /** What reaches a socket that is open, or not, from a run's parts. */
  function Written(open: bool, replyTo: string, parts: seq<ReplyDispatch.Part>, now: int): seq<BotFrame> {
    if open then ReplyFrames(replyTo, parts, now) else []
  }

  /** The frames of a run, split after its first parts. */
  lemma ReplyFramesAppend(replyTo: string, a: seq<ReplyDispatch.Part>, b: seq<ReplyDispatch.Part>, now: int)
    ensures ReplyFrames(replyTo, a + b, now) == ReplyFrames(replyTo, a, now) + ReplyFrames(replyTo, b, now)
    ensures forall open :: Written(open, replyTo, a + b, now) == Written(open, replyTo, a, now) + Written(open, replyTo, b, now)
  {
  }

  /** The agent's streaming calls on the dispatcher, the i-th given
      `ids[i]` as its fresh id: the stream and the frames written are
      those of `RunStream`. */
  method RunAgent(d: ReplyDispatch.ReplyDispatcher, calls: seq<ReplyDispatch.StreamCall>, ids: seq<string>, now: int)
    requires |ids| == |calls|
    modifies d`streamMessageId, d.ws`sent
    ensures d.streamMessageId == ReplyDispatch.RunStream(old(d.streamMessageId), calls, ids).stream
    ensures d.ws.sent == old(d.ws.sent) +
      (if d.ws.state == Open then ReplyFrames(d.replyToMessageId, ReplyDispatch.RunStream(old(d.streamMessageId), calls, ids).parts, now) else [])
  {
    ghost var whole := ReplyDispatch.RunStream(d.streamMessageId, calls, ids);
    ghost var sent0 := d.ws.sent;
    ghost var open := d.ws.state == Open;
    ghost var done: seq<ReplyDispatch.Part> := [];
    var i := 0;
    while i < |calls|
      invariant 0 <= i <= |calls|
      invariant open == (d.ws.state == Open)
      invariant whole == ReplyDispatch.Run(ReplyDispatch.RunStream(d.streamMessageId, calls[i..], ids[i..]).stream,
                                           done + ReplyDispatch.RunStream(d.streamMessageId, calls[i..], ids[i..]).parts)
      invariant d.ws.sent == sent0 + Written(open, d.replyToMessageId, done, now)
    {
      ghost var stream := d.streamMessageId;
      ghost var p := AgentCall(d, calls[i], ids[i], now);
      RunAdvances(whole, stream, calls, ids, i, done, d.streamMessageId, p);
      ReplyFramesAppend(d.replyToMessageId, done, [p], now);
      AppendAssoc(sent0, Written(open, d.replyToMessageId, done, now), Written(open, d.replyToMessageId, [p], now));
      done := done + [p];
      i := i + 1;
    }
    assert calls[i..] == [];
  }

  /** How the handling of one message ended. */
  datatype Handling =
    | Dropped      // a direct message the allow list keeps out
    | NoRuntime    // the plugin runtime is not set: the error is logged
    | Dispatched(inbound: InboundContext, dispatcher: ReplyDispatch.ReplyDispatcher)

  /** The part of `handleGatewayMessage` after the gate and the runtime
      check: a reply dispatcher replying to the message's id in its
      conversation, the agent run on it, and the dispatch marked idle only
      when the agent did not throw. */
  method RunDispatch(ctx: MessageContext, ws: Socket, agent: seq<ReplyDispatch.StreamCall>, ids: seq<string>,
                     agentThrows: bool, now: int)
    returns (d: ReplyDispatch.ReplyDispatcher)
    requires |ids| == |agent|
    modifies ws`sent
    ensures fresh(d)
    ensures d.replyToMessageId == ctx.messageId && d.ws == ws && d.conversationId == ctx.conversationId
    ensures d.isIdle == !agentThrows && d.released == []
    ensures ws.sent == old(ws.sent) +
      (if ws.state == Open then ReplyFrames(ctx.messageId, ReplyDispatch.RunStream(None, agent, ids).parts, now) else [])
  {
    d := new ReplyDispatch.ReplyDispatcher(ctx.conversationId, ctx.messageId, ws);
    RunAgent(d, agent, ids, now);
    if !agentThrows {
      d.MarkDispatchIdle();
    }
  }

  /** `handleGatewayMessage`: a message the gate keeps out is dropped
      without a reply; otherwise a reply dispatcher is created for it,
      replying to the message's id in its conversation, the agent runs on
      it, and the dispatch is marked idle only when the agent did not
      throw. A throw is logged, not passed on. */
  method HandleGatewayMessage(cfg: Fields, event: InboundChat, ws: Socket, runtimeReady: bool,
                              agent: seq<ReplyDispatch.StreamCall>, ids: seq<string>, agentThrows: bool, now: int)
    returns (h: Handling)
    requires |ids| == |agent|
    modifies ws`sent
    ensures h.Dropped? <==> !Admitted(NexusSection(cfg), ParseGatewayMessageEvent(event))
    ensures h.NoRuntime? <==> Admitted(NexusSection(cfg), ParseGatewayMessageEvent(event)) && !runtimeReady
    ensures !h.Dispatched? ==> ws.sent == old(ws.sent)
    ensures h.Dispatched? ==>
      && fresh(h.dispatcher)
      && h.inbound == InboundOf(ParseGatewayMessageEvent(event), event.timestamp)
      && h.dispatcher.replyToMessageId == event.id && h.dispatcher.ws == ws
      && h.dispatcher.conversationId == ParseGatewayMessageEvent(event).conversationId
      && h.dispatcher.isIdle == !agentThrows && h.dispatcher.released == []
      && ws.sent == old(ws.sent) +
           (if ws.state == Open then ReplyFrames(event.id, ReplyDispatch.RunStream(None, agent, ids).parts, now) else [])
  {
    var ctx := ParseGatewayMessageEvent(event);
    if !Admitted(NexusSection(cfg), ctx) {
      return Dropped;
    }
    if !runtimeReady {
      return NoRuntime;
    }
    var d := RunDispatch(ctx, ws, agent, ids, agentThrows, now);
    h := Dispatched(InboundOf(ctx, event.timestamp), d);
  }

  /** The reply frames among what a bot wrote, as the relay reads them. */
  function RepliesOf(frames: seq<BotFrame>): (r: seq<RelayTypes.MessageFromBot>)
    ensures |r| <= |frames|
  {
    if frames == [] then []
    else (if frames[0].Reply? then [Send.RelayedFrame(frames[0].reply)] else []) + RepliesOf(frames[1..])
  }

  /** Reply frames read by the relay are the parts answering `replyTo`. */
  lemma {:induction false} RepliesOfFrames(replyTo: string, parts: seq<ReplyDispatch.Part>, now: int)
    ensures RepliesOf(ReplyFrames(replyTo, parts, now)) == ReplyDispatch.RelayedAll(parts, replyTo, now)
    decreases |parts|
  {
    if parts != [] {
      assert ReplyFrames(replyTo, parts, now)[1..] == ReplyFrames(replyTo, parts[1..], now);
      RepliesOfFrames(replyTo, parts[1..], now);
      assert ReplyDispatch.RelayedAll(parts, replyTo, now) ==
        [ReplyDispatch.Relayed(parts[0], replyTo, now)] + ReplyDispatch.RelayedAll(parts[1..], replyTo, now);
    }
  }

  /** End to end: a chat the relay is waiting on, answered by the handler
      with k chunks and a final reply, resolves the relay's request with
      the texts joined in order and removes it from the relay's table. */
  lemma HandledChatResolves(c: Registry.Correlation, event: InboundChat, texts: seq<string>, last: string,
                            ids: seq<string>, now: int)
    requires Assoc.Valid(c.pending) && Assoc.Get(c.pending, event.id).Some?
    requires Assoc.Get(c.pending, event.id).value.chunks == []
    requires |ids| == |texts| + 1
    ensures var frames := ReplyFrames(event.id, ReplyDispatch.RunStream(None, ReplyDispatch.Chunks(texts) + [ReplyDispatch.Finish(last)], ids).parts, now);
      var after := Registry.ApplyReplies(c, RepliesOf(frames));
      && event.id in after.outcomes
      && after.outcomes[event.id] == Registry.Resolved(Join(texts + [last]))
      && event.id !in Assoc.Keys(after.pending)
  {
    var parts := ReplyDispatch.RunStream(None, ReplyDispatch.Chunks(texts) + [ReplyDispatch.Finish(last)], ids).parts;
    RepliesOfFrames(event.id, parts, now);
    assert ReplyDispatch.RelayedAll(parts, event.id, now) == ReplyDispatch.Answer(texts, last, ids, event.id, now);
    ReplyDispatch.StreamAnswersRequest(c, event.id, texts, last, ids, now);
  }
}
