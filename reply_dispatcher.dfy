/** The reply dispatcher the bot creates for each inbound chat message
    (extensions/nexus/src/reply-dispatcher.ts): streamed text chunks share
    one message id until a final reply closes the stream, media replies are
    single finished frames, and callers can wait until the dispatch is
    marked idle.

    `crypto.randomUUID` is the `freshId` parameter, `Date.now` the `now`
    parameter, and a waiter's `resolve` callback is a number recorded in
    `released` when it is called. */
module ReplyDispatch {
  import opened Wrappers
  import opened Text
  import opened BotTypes
  import Paths
  import Media
  import Assoc
  import RelayTypes
  import Registry

  /** The id, content and `done` flag of one reply frame. */
  datatype Part = Part(id: string, content: string, done: bool)

  /** The calls of a streamed answer: `sendText`, and `sendBlockReply` or
      `sendFinalReply`, which do the same. */
  datatype StreamCall = Chunk(text: string) | Finish(text: string)

  /** One streaming call: both kinds use the open stream's id, else the
      fresh one; a chunk leaves the stream open under that id, a final
      reply closes it. */
  function StepStream(stream: Option<string>, call: StreamCall, freshId: string): Step {
    var id := stream.GetOr(freshId);
    match call
    case Chunk(text) => Step(Some(id), Part(id, text, false))
    case Finish(text) => Step(None, Part(id, text, true))
  }

  /** The stream after a call and the frame it sent. */
  datatype Step = Step(stream: Option<string>, part: Part)

  /** The stream after a sequence of calls and the frames they sent. */
  datatype Run = Run(stream: Option<string>, parts: seq<Part>)

  /** A sequence of streaming calls, the i-th one given `ids[i]`: the
      stream afterwards and the frames sent. */
  function RunStream(stream: Option<string>, calls: seq<StreamCall>, ids: seq<string>): (r: Run)
    requires |ids| == |calls|
    ensures |r.parts| == |calls|
    ensures forall i :: 0 <= i < |calls| ==> r.parts[i].content == calls[i].text && r.parts[i].done == calls[i].Finish?
    decreases |calls|
  {
    if calls == [] then Run(stream, [])
    else
      var step := StepStream(stream, calls[0], ids[0]);
      var rest := RunStream(step.stream, calls[1..], ids[1..]);
      assert forall i :: 1 <= i < |calls| ==> calls[i] == calls[1..][i - 1];
      Run(rest.stream, [step.part] + rest.parts)
  }

  /** A run is its first call followed by the run of the rest. */
  lemma RunStreamStep(stream: Option<string>, calls: seq<StreamCall>, ids: seq<string>)
    requires |ids| == |calls| && calls != []
    ensures var step := StepStream(stream, calls[0], ids[0]);
      var rest := RunStream(step.stream, calls[1..], ids[1..]);
      RunStream(stream, calls, ids) == Run(rest.stream, [step.part] + rest.parts)
  {
  }

  function Chunks(texts: seq<string>): (r: seq<StreamCall>)
    ensures |r| == |texts|
    ensures forall i :: 0 <= i < |texts| ==> r[i] == Chunk(texts[i])
  {
    seq(|texts|, i requires 0 <= i < |texts| => Chunk(texts[i]))
  }

  /** k chunks and a final reply make k + 1 frames under one id, the
      stream's or else the first fresh one; only the last is done, and the
      stream is closed afterwards, so the next chunk opens a new one. */
  lemma {:induction false} ChunksThenFinish(stream: Option<string>, texts: seq<string>, last: string, ids: seq<string>)
    requires |ids| == |texts| + 1
    ensures RunStream(stream, Chunks(texts) + [Finish(last)], ids).stream == None
    ensures forall i :: 0 <= i <= |texts| ==>
      RunStream(stream, Chunks(texts) + [Finish(last)], ids).parts[i].id == stream.GetOr(ids[0])
    decreases |texts|
  {
    var calls := Chunks(texts) + [Finish(last)];
    var id := stream.GetOr(ids[0]);
    if texts == [] {
      assert calls == [Finish(last)];
    } else {
      assert calls[1..] == Chunks(texts[1..]) + [Finish(last)];
      assert calls[0] == Chunk(texts[0]);
      ChunksThenFinish(Some(id), texts[1..], last, ids[1..]);
      var r := RunStream(stream, calls, ids);
      var rest := RunStream(Some(id), calls[1..], ids[1..]);
      assert r.parts == [Part(id, texts[0], false)] + rest.parts;
      assert forall i :: 1 <= i <= |texts| ==> r.parts[i] == rest.parts[i - 1];
    }
  }

  /** What the relay reads from a reply frame. */
  function Relayed(p: Part, replyTo: string, now: int): RelayTypes.MessageFromBot {
    RelayTypes.MessageFromBot(p.id, replyTo, p.content, p.done, now)
  }

  function RelayedAll(parts: seq<Part>, replyTo: string, now: int): (r: seq<RelayTypes.MessageFromBot>)
    ensures |r| == |parts|
    ensures forall i :: 0 <= i < |parts| ==> r[i] == Relayed(parts[i], replyTo, now)
  {
    seq(|parts|, i requires 0 <= i < |parts| => Relayed(parts[i], replyTo, now))
  }

  /** The frames of k chunks and a final reply: only the last is done,
      and their contents are the texts in order. */
  lemma StreamParts(stream: Option<string>, texts: seq<string>, last: string, ids: seq<string>)
    requires |ids| == |texts| + 1
    ensures var parts := RunStream(stream, Chunks(texts) + [Finish(last)], ids).parts;
      forall i :: 0 <= i < |parts| ==> parts[i].done == (i == |texts|) && parts[i].content == (texts + [last])[i]
  {
    var calls := Chunks(texts) + [Finish(last)];
    assert forall i :: 0 <= i < |calls| ==> calls[i].Finish? == (i == |texts|) && calls[i].text == (texts + [last])[i];
  }

  /** The frames of a streamed answer to `requestId`, as the relay reads
      them. */
  function Answer(texts: seq<string>, last: string, ids: seq<string>, requestId: string, now: int): (r: seq<RelayTypes.MessageFromBot>)
    requires |ids| == |texts| + 1
    ensures |r| == |texts| + 1
  {
    RelayedAll(RunStream(None, Chunks(texts) + [Finish(last)], ids).parts, requestId, now)
  }

  /** A streamed answer is what the relay accepts as one: all its frames
      answer the same request, only the last is done, and their contents
      are the texts in order. */
  lemma AnswerShape(texts: seq<string>, last: string, ids: seq<string>, requestId: string, now: int)
    requires |ids| == |texts| + 1
    ensures var msgs := Answer(texts, last, ids, requestId, now);
      && msgs[|msgs| - 1].done
      && (forall i :: 0 <= i < |msgs| ==> msgs[i].replyTo == requestId)
      && (forall i :: 0 <= i < |msgs| - 1 ==> !msgs[i].done)
      && Registry.Contents(msgs) == texts + [last]
  {
    var parts := RunStream(None, Chunks(texts) + [Finish(last)], ids).parts;
    StreamParts(None, texts, last, ids);
    var msgs := RelayedAll(parts, requestId, now);
    assert msgs == Answer(texts, last, ids, requestId, now);
    var contents := Registry.Contents(msgs);
    forall i | 0 <= i < |msgs|
      ensures msgs[i].replyTo == requestId && msgs[i].done == (i == |texts|) && contents[i] == (texts + [last])[i]
    {
      assert msgs[i] == Relayed(parts[i], requestId, now);
    }
    assert contents == texts + [last];
  }

  /** End to end: a request the relay is waiting on, answered by a
      dispatcher created for it with k chunks and a final reply, resolves
      with the texts joined in order, and leaves the relay's table. */
  lemma StreamAnswersRequest(c: Registry.Correlation, requestId: string, texts: seq<string>, last: string,
                             ids: seq<string>, now: int)
    requires Assoc.Valid(c.pending) && Assoc.Get(c.pending, requestId).Some?
    requires Assoc.Get(c.pending, requestId).value.chunks == []
    requires |ids| == |texts| + 1
    ensures var after := Registry.ApplyReplies(c, Answer(texts, last, ids, requestId, now));
      && requestId in after.outcomes
      && after.outcomes[requestId] == Registry.Resolved(Join(texts + [last]))
      && requestId !in Assoc.Keys(after.pending)
  {
    var msgs := Answer(texts, last, ids, requestId, now);
    AnswerShape(texts, last, ids, requestId, now);
    Registry.StreamResolves(c, requestId, msgs);
    assert [] + Registry.Contents(msgs) == texts + [last];
  }

  /** The image a media reply carries: the data URL of a local file that
      exists and can be read, or of a remote body fetched with an OK
      response; nothing without a media URL or when conversion fails. */
  function MediaImage(mediaUrl: Option<string>, host: Media.MediaHost): (r: Option<string>)
    ensures mediaUrl.None? || mediaUrl.value == "" ==> r.None?
    ensures r.Some? ==> StartsWith(r.value, "data:")
  {
    if mediaUrl.None? || mediaUrl.value == "" then None
    else
      var url := mediaUrl.value;
      if Paths.IsLocalPath(url, host.protocolOf(url)) then
        var path := Paths.LocalFilePath(url, host.home);
        if host.fileExists(path) then Media.FileToBase64(host.readFile(path), host.encode) else None
      else
        var r := Media.DownloadedImage(host.fetch(url), host.encode);
        assert r.Some? ==> StartsWith(r.value, "data:") by {
          if r.Some? {
            var d := r.value;
            assert d[..5] == "data:";
          }
        }
        r
  }

  /** The content of a media reply: the text when an image goes with it;
      otherwise, when there is a media URL, the text followed by a paper-clip
      line naming the URL, trimmed; otherwise the text. */
  function MediaContent(text: Option<string>, mediaUrl: Option<string>, image: Option<string>): (r: string)
    ensures image.Some? && image.value != "" ==> r == text.GetOr("")
    ensures (image.None? || image.value == "") && mediaUrl.Some? && mediaUrl.value != "" ==>
      r == Trim(text.GetOr("") + "\n\n📎 " + mediaUrl.value)
    ensures (image.None? || image.value == "") && (mediaUrl.None? || mediaUrl.value == "") ==> r == text.GetOr("")
  {
    if image.Some? && image.value != "" then text.GetOr("")
    else if mediaUrl.Some? && mediaUrl.value != "" then Trim(text.GetOr("") + "\n\n📎 " + mediaUrl.value)
    else text.GetOr("")
  }

  /** A media reply whose image could not be obtained still names its URL:
      with no text, the content is exactly the paper-clip line. */
  lemma MediaFallbackNamesUrl(url: string)
    requires url != [] && !IsSpace(url[|url| - 1])
    ensures MediaContent(None, Some(url), None) == "📎 " + url
  {
    var line := "📎 " + url;
    assert "" + "\n\n📎 " + url == "\n\n" + line + "";
    assert line[|line| - 1] == url[|url| - 1];
    TrimAround("\n\n", line, "");
  }

  /** An existing local file given by absolute path goes out as an image
      from which `parseBase64Image` recovers the encoded file and its
      sniffed type; the text is then the content unchanged. */
  lemma LocalMediaRoundTrip(url: string, host: Media.MediaHost, text: Option<string>)
    requires StartsWith(url, "/") && IndexOf(url, "file://") < 0
    requires host.fileExists(url) && host.readFile(url).Some?
    requires host.encode(host.readFile(url).value) != [] && Media.SingleLine(host.encode(host.readFile(url).value))
    ensures MediaImage(Some(url), host).Some?
    ensures Media.ParseBase64Image(MediaImage(Some(url), host).value) ==
      Media.ParsedImage(host.encode(host.readFile(url).value),
                        Some(Media.DetectMime(host.readFile(url).value).GetOr("application/octet-stream")))
    ensures MediaContent(text, Some(url), MediaImage(Some(url), host)) == text.GetOr("")
  {
    assert !StartsWith(url, "~") by { assert url[0] == '/'; }
    assert Paths.LocalFilePath(url, host.home) == url;
    Media.EncodeRoundTrip(host.readFile(url).value, host.encode);
  }

  /** `{streamingEnabled: true, typingIndicator: false}`. */
  datatype ReplyOptions = ReplyOptions(streamingEnabled: bool, typingIndicator: bool)

  const DispatcherOptions := ReplyOptions(true, false)

  /** The state `createGatewayReplyDispatcher` closes over, with the socket
      the inbound message came on. */
  class ReplyDispatcher {
    const conversationId: string
    const replyToMessageId: string
    const ws: Socket
    var isIdle: bool
    var idleResolvers: seq<nat>
    var streamMessageId: Option<string>
    var released: seq<nat>

    /** Nobody waits once the dispatch is idle. */
    ghost predicate Valid()
      reads this
    {
      isIdle ==> idleResolvers == []
    }

    constructor (conversationId: string, replyToMessageId: string, ws: Socket)
      ensures this.conversationId == conversationId && this.replyToMessageId == replyToMessageId && this.ws == ws
      ensures !isIdle && idleResolvers == [] && streamMessageId.None? && released == []
      ensures Valid()
    {
      this.conversationId := conversationId;
      this.replyToMessageId := replyToMessageId;
      this.ws := ws;
      isIdle := false;
      idleResolvers := [];
      streamMessageId := None;
      released := [];
    }

    /** The frame a part goes out as: every one is a reply to the inbound
        message. */
    function FrameOf(p: Part, now: int, image: Option<string>): (f: BotFrame)
      ensures f.Reply? && f.reply.replyTo == replyToMessageId && f.reply.id == p.id
    {
      Reply(ReplyFrame(p.id, replyToMessageId, p.content, p.done, now, image))
    }

    /** What reaches the socket: the frame if it is open, else nothing. */
    function Emitted(f: BotFrame): seq<BotFrame>
      reads ws
    {
      if ws.state == Open then [f] else []
    }

    /** `sendText`: a chunk of the open stream. */
    method SendText(text: string, freshId: string, now: int) returns (r: Receipt)
      modifies this`streamMessageId, ws`sent
      ensures Step(streamMessageId, Part(r.messageId, text, false)) == StepStream(old(streamMessageId), Chunk(text), freshId)
      ensures r.channel == "gateway" && r.chatId == conversationId
      ensures ws.sent == old(ws.sent) + Emitted(FrameOf(Part(r.messageId, text, false), now, None))
    {
      var messageId := if streamMessageId.Some? then streamMessageId.value else freshId;
      if streamMessageId.None? {
        streamMessageId := Some(messageId);
      }
      ws.SendIfOpen(FrameOf(Part(messageId, text, false), now, None));
      r := Receipt("gateway", messageId, conversationId);
    }

    /** `sendBlockReply`: the final frame of the stream, which is closed
        whether or not the frame could be sent. */
    method SendBlockReply(text: string, freshId: string, now: int) returns (r: Receipt)
      modifies this`streamMessageId, ws`sent
      ensures Step(streamMessageId, Part(r.messageId, text, true)) == StepStream(old(streamMessageId), Finish(text), freshId)
      ensures r.channel == "gateway" && r.chatId == conversationId
      ensures ws.sent == old(ws.sent) + Emitted(FrameOf(Part(r.messageId, text, true), now, None))
    {
      var messageId := if streamMessageId.Some? then streamMessageId.value else freshId;
      ws.SendIfOpen(FrameOf(Part(messageId, text, true), now, None));
      streamMessageId := None;
      r := Receipt("gateway", messageId, conversationId);
    }

    /** `sendFinalReply`, which does what `sendBlockReply` does. */
    method SendFinalReply(text: string, freshId: string, now: int) returns (r: Receipt)
      modifies this`streamMessageId, ws`sent
      ensures Step(streamMessageId, Part(r.messageId, text, true)) == StepStream(old(streamMessageId), Finish(text), freshId)
      ensures r.channel == "gateway" && r.chatId == conversationId
      ensures ws.sent == old(ws.sent) + Emitted(FrameOf(Part(r.messageId, text, true), now, None))
    {
      r := SendBlockReply(text, freshId, now);
    }

    /** `sendMedia`: one finished frame under a fresh id, outside the
        stream, which it neither reads nor changes. */
    method SendMedia(text: Option<string>, mediaUrl: Option<string>, host: Media.MediaHost, freshId: string, now: int)
      returns (r: Receipt)
      modifies ws`sent
      ensures r == Receipt("gateway", freshId, conversationId)
      ensures ws.sent == old(ws.sent) + Emitted(FrameOf(
        Part(freshId, MediaContent(text, mediaUrl, MediaImage(mediaUrl, host)), true), now,
        if MediaImage(mediaUrl, host).Some? && MediaImage(mediaUrl, host).value != "" then MediaImage(mediaUrl, host) else None))
    {
      var imageData := MediaImage(mediaUrl, host);
      var content := if text.Some? then text.value else "";
      var image: Option<string> := None;
      if imageData.Some? && imageData.value != "" {
        image := imageData;
      } else if mediaUrl.Some? && mediaUrl.value != "" {
        content := Trim(content + "\n\n📎 " + mediaUrl.value);
      }
      ws.SendIfOpen(FrameOf(Part(freshId, content, true), now, image));
      r := Receipt("gateway", freshId, conversationId);
    }

    /** `waitForIdle`: settled at once when idle, otherwise the waiter is
        queued. */
    method WaitForIdle(waiter: nat) returns (settled: bool)
      requires Valid()
      modifies this`idleResolvers
      ensures settled == isIdle
      ensures idleResolvers == old(idleResolvers) + (if isIdle then [] else [waiter])
      ensures Valid()
    {
      settled := isIdle;
      if !isIdle {
        idleResolvers := idleResolvers + [waiter];
      }
    }

    /** `markDispatchIdle`: every queued waiter is released once, in order,
        and the queue is emptied, so a second call releases nobody. */
    method MarkDispatchIdle()
      modifies this`isIdle, this`idleResolvers, this`released
      ensures isIdle && idleResolvers == []
      ensures released == old(released) + old(idleResolvers)
      ensures Valid()
    {
      isIdle := true;
      var i := 0;
      while i < |idleResolvers|
        invariant 0 <= i <= |idleResolvers|
        invariant isIdle && idleResolvers == old(idleResolvers)
        invariant released == old(released) + idleResolvers[..i]
      {
        released := released + [idleResolvers[i]];
        i := i + 1;
      }
      idleResolvers := [];
    }
  }
}
