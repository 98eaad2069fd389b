/** Messages the bot starts itself rather than in answer to a chat
    (extensions/nexus/src/send.ts): target normalisation, and text and
    media frames written on the monitor's current client.

    The frames carry `replyTo = outbound-<id>` unless the caller names a
    message, and the relay only accepts replies to requests it is waiting
    on, so it drops them (`OutboundDropped`). */
module Send {
  import opened Wrappers
  import opened Text
  import opened BotTypes
  import Paths
  import Media
  import Monitor
  import Assoc
  import RelayTypes
  import Registry

  /** The alternatives of `/^(user|conv|gateway|group):/i`. */
  const TargetPrefixes: seq<string> := ["user:", "conv:", "gateway:", "group:"]

  /** `normalizeGatewayTarget`: drop one leading kind prefix, in any case,
      then trim. */
  function NormalizeGatewayTarget(target: string): (r: string)
    ensures |r| <= |target|
    ensures r != [] ==> !IsSpace(r[0]) && !IsSpace(r[|r| - 1])
  {
    Trim(StripFirstPrefix(target, TargetPrefixes))
  }

  /** A string that does not begin with `q`, ignoring case, because of the
      character at `i`. */
  lemma DiffersAt(s: string, q: string, i: nat)
    requires i < |q| && (|s| < |q| || LowerChar(s[i]) != q[i])
    ensures !StartsWithIgnoringCase(s, q)
  {
    if |q| <= |s| {
      assert Lower(s[..|q|])[i] == LowerChar(s[i]);
    }
  }

  /** A target with a kind prefix, in any case, loses exactly that prefix:
      whatever prefix follows it stays. */
  lemma NormalizePrefixed(p: string, rest: string)
    requires Lower(p) in TargetPrefixes
    ensures NormalizeGatewayTarget(p + rest) == Trim(rest)
  {
    var s := p + rest;
    var lp := Lower(p);
    assert forall i :: 0 <= i < |p| ==> LowerChar(s[i]) == lp[i];
    assert s[..|p|] == p && s[|p|..] == rest;
    assert StartsWithIgnoringCase(s, lp);
    if lp == "conv:" {
      DiffersAt(s, "user:", 0);
    } else if lp == "gateway:" {
      DiffersAt(s, "user:", 0);
      DiffersAt(s, "conv:", 0);
    } else if lp == "group:" {
      DiffersAt(s, "user:", 0);
      DiffersAt(s, "conv:", 0);
      DiffersAt(s, "gateway:", 1);
    }
    assert StripFirstPrefix(s, TargetPrefixes) == rest by {
      if lp != "user:" {
        assert StripFirstPrefix(s, TargetPrefixes) == StripFirstPrefix(s, TargetPrefixes[1..]);
        if lp != "conv:" {
          assert StripFirstPrefix(s, TargetPrefixes[1..]) == StripFirstPrefix(s, TargetPrefixes[2..]);
          if lp != "gateway:" {
            assert StripFirstPrefix(s, TargetPrefixes[2..]) == StripFirstPrefix(s, TargetPrefixes[3..]);
          }
        }
      }
    }
  }

  /** A kind prefix, in any case, starts with a letter and ends with
      its colon. */
  lemma PrefixShape(p: string)
    requires Lower(p) in TargetPrefixes
    ensures |p| >= 5 && !IsSpace(p[0]) && p[|p| - 1] == ':'
  {
    var l := Lower(p);
    assert l == "user:" || l == "conv:" || l == "gateway:" || l == "group:";
    assert 'a' <= l[0] <= 'z' && l[|l| - 1] == ':';
    assert l[0] == LowerChar(p[0]) && l[|l| - 1] == LowerChar(p[|p| - 1]);
  }

  /** Only one prefix is stripped: a second kind prefix after the first
      stays, as in `user:conv:x`, which names `conv:x`. */
  lemma NormalizeStripsOnce(p: string, q: string, x: string)
    requires Lower(p) in TargetPrefixes && Lower(q) in TargetPrefixes
    requires x == [] || !IsSpace(x[|x| - 1])
    ensures NormalizeGatewayTarget(p + (q + x)) == q + x
  {
    PrefixShape(q);
    TrimWord(q, x);
    NormalizePrefixed(p, q + x);
  }

  /** A word followed by a rest that does not end in white space is its
      own trim. */
  lemma TrimWord(q: string, x: string)
    requires q != [] && !IsSpace(q[0]) && !IsSpace(q[|q| - 1])
    requires x == [] || !IsSpace(x[|x| - 1])
    ensures Trim(q + x) == q + x
  {
    var t := q + x;
    assert t[0] == q[0];
    assert t[|t| - 1] == if x == [] then q[|q| - 1] else x[|x| - 1];
    TrimBare(t);
  }

  /** `formatGatewayTarget`: the normalised target as a conversation. */
  function FormatGatewayTarget(target: string): (r: string)
    ensures StartsWith(r, "conv:")
  {
    assert ("conv:" + NormalizeGatewayTarget(target))[..5] == "conv:";
    "conv:" + NormalizeGatewayTarget(target)
  }

  /** Formatting keeps what the target names. */
  lemma FormatRoundTrip(target: string)
    ensures NormalizeGatewayTarget(FormatGatewayTarget(target)) == NormalizeGatewayTarget(target)
  {
    assert Lower("conv:") == "conv:" by {
      var l := Lower("conv:");
      assert l[0] == 'c' && l[1] == 'o' && l[2] == 'n' && l[3] == 'v' && l[4] == ':';
    }
    NormalizePrefixed("conv:", NormalizeGatewayTarget(target));
    TrimIdempotent(StripFirstPrefix(target, TargetPrefixes));
  }

  /** `looksLikeGatewayId`: anything with a non-white-space character. */
  function LooksLikeGatewayId(id: string): (r: bool)
    ensures r <==> !AllSpace(id)
  {
    id != "" && |Trim(id)| > 0
  }

  /** What the senders return. */
  datatype SendResult = SendResult(messageId: string, conversationId: string)

  const NotConnected: string := "Gateway WebSocket not connected"
  const NoMedia: string := "Either mediaUrl or mediaBuffer must be provided"

  /** The `replyTo` of a frame the bot starts: the named message, else a
      placeholder made from the frame's own id. */
  function OutboundReplyTo(replyTo: Option<string>, id: string): (r: string)
    ensures replyTo.Some? ==> r == replyTo.value
    ensures replyTo.None? ==> StartsWith(r, "outbound-") && r[9..] == id
  {
    if replyTo.Some? then replyTo.value
    else
      assert ("outbound-" + id)[..9] == "outbound-";
      "outbound-" + id
  }

  /** The finished frame the senders write. */
  function OutboundFrame(id: string, replyTo: Option<string>, content: string, now: int, image: Option<string>): (f: BotFrame)
    ensures f.Reply? && f.reply.done && f.reply.id == id
    ensures f.reply.content == content && f.reply.replyTo == OutboundReplyTo(replyTo, id)
    ensures f.reply.image == image && f.reply.timestamp == now
  {
    Reply(ReplyFrame(id, OutboundReplyTo(replyTo, id), content, true, now, image))
  }

  predicate Connected(ws: Socket?)
    reads ws
  {
    ws != null && ws.state == Open
  }

  /** `sendMessageGateway`: fails, sending nothing, unless the current
      client is open; otherwise one finished frame with the text, under a
      fresh id. */
  method SendMessageGateway(slot: Monitor.ClientSlot, to: string, text: string, replyTo: Option<string>,
                            freshId: string, now: int) returns (r: Result<SendResult, string>)
    modifies slot.current
    ensures !Connected(slot.current) ==> r == Failure(NotConnected) && (slot.current != null ==> unchanged(slot.current))
    ensures Connected(slot.current) ==>
      && r == Success(SendResult(freshId, NormalizeGatewayTarget(to)))
      && slot.current.sent == old(slot.current.sent) + [OutboundFrame(freshId, replyTo, text, now, None)]
      && slot.current.state == Open && slot.current.closeRequested == old(slot.current.closeRequested)
  {
    var ws := slot.current;
    if ws == null || ws.state != Open {
      return Failure(NotConnected);
    }
    ws.SendIfOpen(OutboundFrame(freshId, replyTo, text, now, None));
    r := Success(SendResult(freshId, NormalizeGatewayTarget(to)));
  }

  /** Where the image of a media message comes from. */
  datatype MediaData =
    | Data(dataUrl: string)        // a data URL to send
    | FileMissing(path: string)    // a local file that does not exist
    | FallBack(text: string)       // a remote URL that could not be fetched: its text instead
    | NoData                       // nothing to send

  /** The image decisions of `sendMediaGateway`: a buffer wins over a URL;
      a local URL must name an existing file, read as a data URL; a remote
      URL is downloaded, and a failed download falls back to a text
      message naming it. */
  function MediaDataOf(mediaUrl: Option<string>, mediaBuffer: Option<Media.Bytes>, host: Media.MediaHost): (r: MediaData)
    ensures mediaBuffer.Some? ==> r == Data(Media.EncodeDataUrl(mediaBuffer.value, host.encode))
    ensures mediaBuffer.None? && (mediaUrl.None? || mediaUrl.value == "") ==> r == NoData
    ensures r.FallBack? ==> mediaBuffer.None? && mediaUrl.Some? && r.text == "📎 " + mediaUrl.value
    ensures r.Data? ==> StartsWith(r.dataUrl, "data:")
    ensures mediaBuffer.None? && mediaUrl.Some? && mediaUrl.value != "" &&
            Paths.IsLocalPath(mediaUrl.value, host.protocolOf(mediaUrl.value)) ==>
      var path := Paths.LocalFilePath(mediaUrl.value, host.home);
      && (!host.fileExists(path) ==> r == FileMissing(path))
      && (host.fileExists(path) && Media.FileToBase64(host.readFile(path), host.encode).Some? ==>
            r == Data(Media.FileToBase64(host.readFile(path), host.encode).value))
      && (host.fileExists(path) && Media.FileToBase64(host.readFile(path), host.encode).None? ==> r == NoData)
    ensures mediaBuffer.None? && mediaUrl.Some? && mediaUrl.value != "" &&
            !Paths.IsLocalPath(mediaUrl.value, host.protocolOf(mediaUrl.value)) ==>
      var image := Media.DownloadedImage(host.fetch(mediaUrl.value), host.encode);
      && (image.Some? ==> r == Data(image.value))
      && (image.None? ==> r == FallBack("📎 " + mediaUrl.value))
  {
    if mediaBuffer.Some? then Data(Media.EncodeDataUrl(mediaBuffer.value, host.encode))
    else if mediaUrl.None? || mediaUrl.value == "" then NoData
    else
      var url := mediaUrl.value;
      if Paths.IsLocalPath(url, host.protocolOf(url)) then
        var path := Paths.LocalFilePath(url, host.home);
        if !host.fileExists(path) then FileMissing(path)
        else
          match Media.FileToBase64(host.readFile(path), host.encode)
          case Some(d) => Data(d)
          case None => NoData
      else
        match Media.DownloadedImage(host.fetch(url), host.encode)
        case Some(d) =>
          assert d[..5] == "data:";
          Data(d)
        case None => FallBack("📎 " + url)
  }

  /** `sendMediaGateway`: fails unless connected; fails for a missing local
      file or when there is no image; sends the fallback text as
      `sendMessageGateway` would; otherwise one finished frame with empty
      content and the image. */
  method SendMediaGateway(slot: Monitor.ClientSlot, to: string, mediaUrl: Option<string>, mediaBuffer: Option<Media.Bytes>,
                          replyTo: Option<string>, host: Media.MediaHost, freshId: string, now: int)
    returns (r: Result<SendResult, string>)
    modifies slot.current
    ensures !Connected(slot.current) ==> r == Failure(NotConnected) && (slot.current != null ==> unchanged(slot.current))
    ensures Connected(slot.current) && MediaDataOf(mediaUrl, mediaBuffer, host).FileMissing? ==>
      r == Failure("Local file not found: " + MediaDataOf(mediaUrl, mediaBuffer, host).path) && unchanged(slot.current)
    ensures Connected(slot.current) && MediaDataOf(mediaUrl, mediaBuffer, host).NoData? ==>
      r == Failure(NoMedia) && unchanged(slot.current)
    ensures Connected(slot.current) && MediaDataOf(mediaUrl, mediaBuffer, host).FallBack? ==>
      && r == Success(SendResult(freshId, NormalizeGatewayTarget(to)))
      && slot.current.sent == old(slot.current.sent) +
           [OutboundFrame(freshId, replyTo, MediaDataOf(mediaUrl, mediaBuffer, host).text, now, None)]
    ensures Connected(slot.current) && MediaDataOf(mediaUrl, mediaBuffer, host).Data? ==>
      && r == Success(SendResult(freshId, NormalizeGatewayTarget(to)))
      && slot.current.sent == old(slot.current.sent) +
           [OutboundFrame(freshId, replyTo, "", now, Some(MediaDataOf(mediaUrl, mediaBuffer, host).dataUrl))]
  {
    var ws := slot.current;
    if ws == null || ws.state != Open {
      return Failure(NotConnected);
    }
    var data := MediaDataOf(mediaUrl, mediaBuffer, host);
    match data
    case FileMissing(path) =>
      r := Failure("Local file not found: " + path);
    case NoData =>
      r := Failure(NoMedia);
    case FallBack(text) =>
      r := SendMessageGateway(slot, to, text, replyTo, freshId, now);
    case Data(d) =>
      ws.SendIfOpen(OutboundFrame(freshId, replyTo, "", now, Some(d)));
      r := Success(SendResult(freshId, NormalizeGatewayTarget(to)));
  }

  /** A buffer goes out as a data URL from which `parseBase64Image` gets
      back the encoded buffer and its sniffed type, whatever URL is also
      given. */
  lemma BufferRoundTrip(mediaUrl: Option<string>, bytes: Media.Bytes, host: Media.MediaHost)
    requires host.encode(bytes) != [] && Media.SingleLine(host.encode(bytes))
    ensures MediaDataOf(mediaUrl, Some(bytes), host).Data?
    ensures Media.ParseBase64Image(MediaDataOf(mediaUrl, Some(bytes), host).dataUrl) ==
      Media.ParsedImage(host.encode(bytes), Some(Media.DetectMime(bytes).GetOr("application/octet-stream")))
  {
    Media.EncodeRoundTrip(bytes, host.encode);
  }

  /** What the relay reads from a frame the bot wrote. */
  function RelayedFrame(f: ReplyFrame): RelayTypes.MessageFromBot {
    RelayTypes.MessageFromBot(f.id, f.replyTo, f.content, f.done, f.timestamp)
  }

  /** Frames answering no pending request leave the relay's table, its
      promises and its chunk notices exactly as they were. */
  lemma {:induction false} UnansweredDropped(c: Registry.Correlation, msgs: seq<RelayTypes.MessageFromBot>)
    requires forall i :: 0 <= i < |msgs| ==> Assoc.Get(c.pending, msgs[i].replyTo).None?
    ensures Registry.ApplyReplies(c, msgs) == c
    decreases |msgs|
  {
    if msgs != [] {
      assert Registry.ApplyReply(c, msgs[0]) == c;
      UnansweredDropped(c, msgs[1..]);
    }
  }

  /** Frames the bot starts on its own carry a placeholder `replyTo`; while
      the relay waits on no request named like that, it drops them. */
  lemma OutboundDropped(c: Registry.Correlation, frames: seq<ReplyFrame>, ids: seq<string>)
    requires |frames| == |ids|
    requires forall i :: 0 <= i < |frames| ==> frames[i].replyTo == OutboundReplyTo(None, ids[i])
    requires forall k :: k in Assoc.Keys(c.pending) ==> !StartsWith(k, "outbound-")
    ensures Registry.ApplyReplies(c, seq(|frames|, i requires 0 <= i < |frames| => RelayedFrame(frames[i]))) == c
  {
    var msgs := seq(|frames|, i requires 0 <= i < |frames| => RelayedFrame(frames[i]));
    forall i | 0 <= i < |msgs| ensures Assoc.Get(c.pending, msgs[i].replyTo).None? {
      assert StartsWith(msgs[i].replyTo, "outbound-");
    }
    UnansweredDropped(c, msgs);
  }
}
