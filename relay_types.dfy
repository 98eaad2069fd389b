/** The relay's records and wire frames (nexus-gateway/src/types.ts) and the
    defaults of its configuration (nexus-gateway/src/config.ts). Times are
    milliseconds since the epoch, as `Date.now()` gives them. */
module RelayTypes {
  import opened Wrappers

  /** What the relay keeps about one registered bot. */
  datatype BotInfo = BotInfo(id: string, name: string, token: string, connectedAt: int, lastPingAt: int)

  /** A `chat` frame sent to a bot. `image` is set at run time by the relay
      although the declared type does not list it. */
  datatype MessageToBot = MessageToBot(
    id: string, content: string, from: string, replyTo: Option<string>, timestamp: int, image: Option<string>)

  /** A `reply` frame received from a bot; `done` marks the last fragment. */
  datatype MessageFromBot = MessageFromBot(id: string, replyTo: string, content: string, done: bool, timestamp: int)

  /** Frames a bot sends to the relay, by their `type` field; `Garbled` is
      text that is not JSON. */
  datatype BotMessage =
    | Register(botId: string, botName: string, token: string)
    | Pong
    | Reply(reply: MessageFromBot)
    | OtherBotMessage(kind: string)
    | Garbled

  /** The object `BotManager.register` returns. */
  datatype RegisterResult = RegisterResult(success: bool, error: Option<string>)

  /** Frames the relay sends to a bot. `registered` carries the whole
      register result object in its `success` field, and `error` is the
      answer to a frame from an unregistered connection. */
  datatype RelayFrame =
    | Chat(chat: MessageToBot)
    | Ping
    | Registered(success: RegisterResult)
    | ErrorFrame(message: string)

  datatype UserInfo = UserInfo(username: string, displayName: string)

  datatype UserSession = UserSession(token: string, user: UserInfo, createdAt: int, expiresAt: int)

  datatype UserConfig = UserConfig(password: string, displayName: string)

  /** The relay's configuration file. */
  datatype ServerConfig = ServerConfig(
    port: nat, sessionTTL: nat, pingInterval: nat, botTimeout: nat, botToken: string, users: map<string, UserConfig>)

  /** The built-in defaults: 24-hour sessions, a ping every 30 s, a bot
      declared stale after 90 s, no bot token, one `admin` account. */
  const DefaultServerConfig := ServerConfig(
    17392, 24 * 60 * 60 * 1000, 30000, 90000, "",
    map["admin" := UserConfig("admin123", "管理员")])
}
