/** The bot side's data (extensions/nexus/src/types.ts) and the pieces of
    the host configuration the plugin reads.

    The host configuration is JSON: `Value` is a JSON value whose objects
    are insertion-ordered key lists, as JavaScript objects with string keys
    are. The plugin's own section is `channels.nexus`, read as a
    `GatewayConfig` whose optional fields are `Option`s. */
module BotTypes {
  import opened Wrappers
  import opened Text
  import Assoc

  type Fields = seq<(string, Value)>

  datatype Value =
    | Null
    | Bool(b: bool)
    | Num(n: int)
    | Str(s: string)
    | Arr(items: seq<Value>)
    | Obj(fields: Fields)

  /** `String(v)` for the values a configuration holds. Numbers are
      integers here, printed exactly in decimal, as `String(n)` prints
      integers of magnitude below 2^53. */
  function ToString(v: Value): (r: string)
    ensures v.Str? ==> r == v.s
    ensures v.Num? ==> r == IntToString(v.n)
    decreases v
  {
    match v
    case Null => "null"
    case Bool(b) => if b then "true" else "false"
    case Num(n) => IntToString(n)
    case Str(s) => s
    case Arr(items) => Join(Commas(seq(|items|, i requires 0 <= i < |items| => if items[i].Null? then "" else ToString(items[i]))))
    case Obj(_) => "[object Object]"
  }

  /** The parts separated by commas, as `Array.prototype.join` does. */
  function Commas(parts: seq<string>): (r: seq<string>)
    ensures |parts| <= 1 ==> r == parts
  {
    if |parts| <= 1 then parts else [parts[0], ","] + Commas(parts[1..])
  }

  /** The fields of an object; anything else spreads as no fields. */
  function FieldsOf(v: Option<Value>): (r: Fields)
    ensures v.Some? && v.value.Obj? ==> r == v.value.fields
    ensures !(v.Some? && v.value.Obj?) ==> r == []
  {
    if v.Some? && v.value.Obj? then v.value.fields else []
  }

  function StrField(f: Fields, key: string): (r: Option<string>)
    ensures r.Some? <==> Assoc.Get(f, key).Some? && Assoc.Get(f, key).value.Str?
    ensures r.Some? ==> Assoc.Get(f, key) == Some(Str(r.value))
  {
    var v: Option<Value> := Assoc.Get(f, key);
    if v.Some? && v.value.Str? then Some(v.value.s) else None
  }

  /** `channels.nexus` (extensions/nexus/src/types.ts:1-10). */
  datatype GatewayConfig = GatewayConfig(
    enabled: Option<bool>,
    serverUrl: Option<string>,
    botId: Option<string>,
    botName: Option<string>,
    token: Option<string>,
    reconnectInterval: Option<int>,
    dmPolicy: Option<string>,
    allowFrom: Option<seq<Value>>)

  /** The fields of `channels.nexus` read as the plugin's configuration; a
      field of the wrong JSON type reads as absent. */
  function ReadSection(f: Fields): GatewayConfig {
    var enabled: Option<Value> := Assoc.Get(f, "enabled");
    var interval: Option<Value> := Assoc.Get(f, "reconnectInterval");
    var allow: Option<Value> := Assoc.Get(f, "allowFrom");
    GatewayConfig(
      if enabled.Some? && enabled.value.Bool? then Some(enabled.value.b) else None,
      StrField(f, "serverUrl"),
      StrField(f, "botId"),
      StrField(f, "botName"),
      StrField(f, "token"),
      if interval.Some? && interval.value.Num? then Some(interval.value.n) else None,
      StrField(f, "dmPolicy"),
      if allow.Some? && allow.value.Arr? then Some(allow.value.items) else None)
  }

  /** The `channels` object of the host configuration (no fields when it
      is absent or not an object). */
  function Channels(cfg: Fields): Fields {
    FieldsOf(Assoc.Get(cfg, "channels"))
  }

  /** `cfg.channels?.nexus` read as the plugin's configuration: present
      exactly when it is an object. */
  function NexusSection(cfg: Fields): (r: Option<GatewayConfig>)
    ensures r.Some? <==> Assoc.Get(Channels(cfg), "nexus").Some? && Assoc.Get(Channels(cfg), "nexus").value.Obj?
    ensures r.Some? ==> r.value == ReadSection(Assoc.Get(Channels(cfg), "nexus").value.fields)
  {
    var nexus: Option<Value> := Assoc.Get(Channels(cfg), "nexus");
    if nexus.Some? && nexus.value.Obj? then Some(ReadSection(nexus.value.fields)) else None
  }

  /** A `chat` frame from the relay (extensions/nexus/src/types.ts:49-60). */
  datatype InboundChat = InboundChat(
    id: string, content: string, from: string, replyTo: Option<string>, timestamp: int,
    conversationId: Option<string>, chatType: Option<string>, senderName: Option<string>)

  /** A `reply` frame to the relay (extensions/nexus/src/types.ts:63-70);
      media replies also carry `image`. */
  datatype ReplyFrame = ReplyFrame(
    id: string, replyTo: string, content: string, done: bool, timestamp: int, image: Option<string>)

  /** What the bot writes on its socket. */
  datatype BotFrame =
    | Reply(reply: ReplyFrame)
    | Register(botId: string, botName: string, token: string)
    | Pong

  /** What the bot reads from its socket; `Garbled` is text that is not
      JSON. */
  datatype InboundFrame =
    | ChatFrame(chat: InboundChat)
    | PingFrame
    | RegisteredFrame
    | UnknownFrame(kind: string)
    | Garbled

  /** The `{channel, messageId, chatId}` each dispatcher method returns. */
  datatype Receipt = Receipt(channel: string, messageId: string, chatId: string)

  datatype ReadyState = Connecting | Open | Closing | Closed

  /** A client WebSocket: its ready state, the frames written to it while
      it was open, and whether `close()` has been called on it. */
  class Socket {
    const url: string
    var state: ReadyState
    var sent: seq<BotFrame>
    var closeRequested: bool

    constructor (url: string)
      ensures this.url == url && state == Connecting && sent == [] && !closeRequested
    {
      this.url := url;
      state := Connecting;
      sent := [];
      closeRequested := false;
    }

    /** `ws.send(frame)` guarded by `readyState === OPEN`, as every sender
        on the bot side does it. */
    method SendIfOpen(frame: BotFrame)
      modifies this`sent
      ensures sent == old(sent) + (if state == Open then [frame] else [])
    {
      if state == Open {
        sent := sent + [frame];
      }
    }

    method Close()
      modifies this`closeRequested
      ensures closeRequested
    {
      closeRequested := true;
    }
  }
}
