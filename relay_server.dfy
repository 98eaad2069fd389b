/** The relay process (nexus-gateway/src/index.ts): routing of the frames
    that arrive on a bot's socket, the bearer-token check in front of the
    HTTP API, login, and the resolution and answer of a chat request.

    HTTP requests and responses are values: a handler takes the request's
    fields and returns the status and JSON body it would send. A JSON field
    that is absent is the empty string, which JavaScript treats the same
    way in every test below. A chat request whose reply is still streaming
    is `Awaiting`; `ChatAnswer` turns its settled promise into the response. */
module RelayServer {
  import opened Wrappers
  import opened Text
  import Assoc
  import opened RelayTypes
  import opened Registry
  import opened Sessions

  datatype BotSummary = BotSummary(id: string, name: string, connectedAt: int)

  /** The JSON bodies the API sends. */
  datatype Body =
    | ErrorBody(error: string)
    | LoginBody(token: string, user: UserInfo, expiresAt: int)
    | LogoutBody(success: bool)
    | MeBody(user: UserInfo, expiresAt: int)
    | BotsBody(bots: seq<BotSummary>)
    | ChatBody(botId: string, content: string, timestamp: int)
    | HealthBody(status: string, count: nat, botIds: seq<string>)

  datatype Response = Response(status: int, body: Body)

  /** The outcome of `/api/chat` once the handler has run up to its `await`:
      either an answer already, or the bot and request whose promise the
      answer waits for. */
  datatype ChatStart = Answer(response: Response) | Awaiting(botId: string, requestId: string)

  /** The `BotManager` the relay builds: its configuration has no
      `botToken`, so the token check of `register` admits everyone. */
  function ManagerConfigOf(config: ServerConfig): (m: ManagerConfig)
    ensures m.pingInterval == config.pingInterval && m.botTimeout == config.botTimeout
    ensures forall token :: TokenAccepted(m, token)
  {
    ManagerConfig(config.pingInterval, config.botTimeout, "")
  }

  /** `auth`'s header parsing: the header must start with "Bearer "; the
      token is everything after those seven characters. */
  function BearerToken(header: Option<string>): (r: Option<string>)
    ensures r.Some? <==> header.Some? && StartsWith(header.value, "Bearer ")
    ensures r.Some? ==> header.value == "Bearer " + r.value
  {
    if header.Some? && StartsWith(header.value, "Bearer ") then Some(header.value[7..]) else None
  }

  /** The number of characters before the first white space. */
  function NonSpaceRun(s: string): (n: nat)
    ensures n <= |s|
    ensures forall i :: 0 <= i < n ==> !IsSpace(s[i])
    ensures n < |s| ==> IsSpace(s[n])
  {
    if s == [] || IsSpace(s[0]) then 0 else 1 + NonSpaceRun(s[1..])
  }

  predicate NoSpace(s: string) {
    forall i :: 0 <= i < |s| ==> !IsSpace(s[i])
  }

  /** `message.match(/^@(\S+)\s+/)`: the mentioned bot id and the length of
      the whole match. Both runs are greedy, so the id is every character
      up to the first white space and the match goes on over all the white
      space that follows. */
  function Mention(message: string): (r: Option<(string, nat)>)
    ensures r.Some? <==> |message| > 1 && message[0] == '@' && !IsSpace(message[1])
                         && exists k :: 1 < k < |message| && IsSpace(message[k])
    ensures r.Some? ==>
      var (id, len) := r.value;
      && 1 + |id| < len <= |message|
      && message[..1 + |id|] == "@" + id
      && id != [] && NoSpace(id)
      && AllSpace(message[1 + |id|..len])
      && (len < |message| ==> !IsSpace(message[len]))
  {
    if |message| > 0 && message[0] == '@' then
      var n := NonSpaceRun(message[1..]);
      if n == 0 then None
      else if 1 + n < |message| then
        var sp := LeadingSpace(message[1 + n..]);
        assert message[1 + n..][..sp] == message[1 + n..1 + n + sp];
        assert IsSpace(message[1 + n]) by { assert message[1 + n] == message[1..][n]; }
        assert !IsSpace(message[1]) by { assert message[1] == message[1..][0]; }
        Some((message[1..1 + n], 1 + n + sp))
      else
        assert !IsSpace(message[1]) by { assert message[1] == message[1..][0]; }
        assert forall k :: 1 < k < |message| ==> !IsSpace(message[k]) by {
          forall k | 1 < k < |message| ensures !IsSpace(message[k]) {
            assert message[k] == message[1..][k - 1];
          }
        }
        None
    else None
  }

  /** A mention written as `@id`, white space, then the text is read back
      as that id and that text. */
  lemma MentionOf(id: string, sp: string, text: string)
    requires id != [] && NoSpace(id) && sp != [] && AllSpace(sp)
    requires text != [] ==> !IsSpace(text[0])
    ensures Mention("@" + id + sp + text) == Some((id, 1 + |id| + |sp|))
  {
    var m := "@" + id + sp + text;
    MentionSplit(id, sp, text);
    NonSpaceRunOf(id, sp + text);
    LeadingSpaceOf(sp, text);
    MentionUnfold(m, |id|, |sp|);
  }

  lemma MentionSplit(id: string, sp: string, text: string)
    ensures ("@" + id + sp + text)[0] == '@'
    ensures ("@" + id + sp + text)[1..] == id + (sp + text)
    ensures ("@" + id + sp + text)[1..1 + |id|] == id
    ensures ("@" + id + sp + text)[1 + |id|..] == sp + text
  {
    var m := "@" + id + sp + text;
    assert m[1..] == id + (sp + text);
    assert m[1..][..|id|] == m[1..1 + |id|];
    assert m[1..][|id|..] == m[1 + |id|..];
  }

  lemma MentionUnfold(m: string, n: nat, k: nat)
    requires |m| > 1 + n && m[0] == '@' && n > 0 && NonSpaceRun(m[1..]) == n
    requires LeadingSpace(m[1 + n..]) == k
    ensures Mention(m) == Some((m[1..1 + n], 1 + n + k))
  {
  }

  lemma {:induction false} NonSpaceRunOf(id: string, rest: string)
    requires NoSpace(id) && rest != [] && IsSpace(rest[0])
    ensures NonSpaceRun(id + rest) == |id|
  {
    if id != [] {
      assert (id + rest)[1..] == id[1..] + rest;
      NonSpaceRunOf(id[1..], rest);
    }
  }

  lemma {:induction false} LeadingSpaceOf(sp: string, text: string)
    requires AllSpace(sp) && (text != [] ==> !IsSpace(text[0]))
    ensures LeadingSpace(sp + text) == |sp|
  {
    if sp != [] {
      assert (sp + text)[1..] == sp[1..] + text;
      LeadingSpaceOf(sp[1..], text);
    } else {
      assert sp + text == text;
    }
  }

  /** `/api/chat`'s choice of bot and text: a truthy `target` takes the
      whole message; otherwise a leading mention names the bot and is cut
      off the text; otherwise the first registered bot gets the whole
      message. */
  function ResolveTarget(message: string, target: Option<string>, first: Option<string>): (r: (Option<string>, string))
    ensures |r.1| <= |message| && r.1 == message[|message| - |r.1|..]
    ensures target.Some? && target.value != "" ==> r == (target, message)
    ensures (target.None? || target.value == "") && Mention(message).None? ==> r == (first, message)
  {
    if target.Some? && target.value != "" then (target, message)
    else
      match Mention(message)
      case Some((id, len)) => (Some(id), message[len..])
      case None => (first, message)
  }

  /** Without a target, `@id`, white space and a text route the text to that
      bot, whatever bot is first. */
  lemma MentionRouting(id: string, sp: string, text: string, target: Option<string>, first: Option<string>)
    requires target.None? || target.value == ""
    requires id != [] && NoSpace(id) && sp != [] && AllSpace(sp)
    requires text != [] ==> !IsSpace(text[0])
    ensures ResolveTarget("@" + id + sp + text, target, first) == (Some(id), text)
  {
    MentionOf(id, sp, text);
    assert ("@" + id + sp + text)[1 + |id| + |sp|..] == text;
  }

  /** The name a chat request is sent under: the display name if it is not
      empty, else the user name. */
  function FromLabel(user: UserInfo): string {
    if user.displayName != "" then user.displayName else user.username
  }

  /** The answer of `/api/chat` once its promise has settled: the joined
      reply, or status 500 with the error rendered by `String(err)`. */
  function ChatAnswer(botId: string, outcome: Outcome, now: int): (r: Option<Response>)
    ensures r.None? <==> outcome == Waiting
    ensures r.Some? ==> (r.value.status == 200 <==> outcome.Resolved?)
    ensures outcome.Resolved? ==> r == Some(Response(200, ChatBody(botId, outcome.content, now)))
    ensures outcome.Rejected? ==> r == Some(Response(500, ErrorBody("Error: " + outcome.reason)))
  {
    match outcome
    case Waiting => None
    case Resolved(content) => Some(Response(200, ChatBody(botId, content, now)))
    case Rejected(reason) => Some(Response(500, ErrorBody("Error: " + reason)))
  }

  /** `/health`: the number of bots and their ids, in registration order. */
  function Health(bots: seq<BotInfo>): (r: Response)
    ensures r.status == 200 && r.body.HealthBody? && r.body.status == "ok"
    ensures r.body.count == |bots| && |r.body.botIds| == |bots|
    ensures forall i :: 0 <= i < |bots| ==> r.body.botIds[i] == bots[i].id
  {
    Response(200, HealthBody("ok", |bots|, seq(|bots|, i requires 0 <= i < |bots| => bots[i].id)))
  }

  /** The listing `/api/bots` sends: id, name and connection time of every
      bot, in order. */
  function BotList(bots: seq<BotInfo>): (r: seq<BotSummary>)
    ensures |r| == |bots|
    ensures forall i :: 0 <= i < |bots| ==> r[i] == BotSummary(bots[i].id, bots[i].name, bots[i].connectedAt)
  {
    seq(|bots|, i requires 0 <= i < |bots| => BotSummary(bots[i].id, bots[i].name, bots[i].connectedAt))
  }

  const NotLoggedIn := Response(401, ErrorBody("未登录"))
  const SessionExpired := Response(401, ErrorBody("会话已过期"))

  /** The session store after `auth` has looked at `header`: a token whose
      session is stored but expired has been deleted, and nothing else
      changes. */
  function AfterAuth(sessions: seq<(string, UserSession)>, header: Option<string>, now: int): seq<(string, UserSession)>
  {
    match BearerToken(header)
    case None => sessions
    case Some(token) => if Lookup(sessions, token, now).Some? then sessions else Assoc.Remove(sessions, token)
  }

  /** After `/api/logout` the bearer token no longer authenticates, at
      any later time. */
  lemma LogoutRevokes(sessions: seq<(string, UserSession)>, header: Option<string>, later: int)
    requires BearerToken(header).Some?
    ensures Lookup(Assoc.Remove(sessions, BearerToken(header).value), BearerToken(header).value, later).None?
  {
    Assoc.GetRemove(sessions, BearerToken(header).value, BearerToken(header).value);
  }

  class Relay {
    const config: ServerConfig
    const manager: BotManager
    const store: SessionStore

    ghost predicate Valid()
      reads this, manager, store
    {
      manager.Valid() && store.Valid() && manager.config == ManagerConfigOf(config)
    }

    /** Start-up: the manager is built without a bot token and started. */
    constructor (config: ServerConfig, net: RelaySockets)
      ensures Valid()
      ensures this.config == config && manager.net == net
      ensures fresh(manager) && fresh(store)
      ensures manager.bots == [] && manager.pendingRequests == [] && store.sessions == []
      ensures manager.intervalHandle
    {
      this.config := config;
      var m := new BotManager(ManagerConfigOf(config), net);
      m.Start();
      manager := m;
      store := new SessionStore();
    }

    /** A frame on a bot's socket. `register` is honoured on any socket and
        always answered with the register result; any other frame from a
        socket that maps to no bot (or to the empty id) is answered with an
        error; `pong` and `reply` go to the manager under the sender's id;
        anything else, and text that is not JSON, is ignored. */
    method OnBotMessage(ws: Conn, msg: BotMessage, now: int)
      requires Valid()
      modifies manager`bots, manager`pendingRequests, manager`outcomes, manager`chunkNotices
      modifies manager.net`wire, manager.net`closed
      ensures Valid()
      ensures msg.Register? ==>
        && manager.net.wire == old(manager.net.wire) + [(ws, Registered(RegisterResult(true, None)))]
        && manager.bots == Assoc.Put(old(manager.bots), msg.botId, BotEntry(BotInfo(msg.botId, msg.botName, msg.token, now, now), ws))
        && manager.net.closed == old(manager.net.closed) +
             (match Assoc.Get(old(manager.bots), msg.botId) case Some(e) => [e.ws] case None => [])
        && manager.pendingRequests == old(manager.pendingRequests) && manager.outcomes == old(manager.outcomes)
        && manager.chunkNotices == old(manager.chunkNotices)
      ensures !msg.Register? ==> manager.net.closed == old(manager.net.closed)
      ensures !msg.Register? && !msg.Garbled? && !Truthy(FirstWithConn(old(manager.bots), ws).GetOr("")) ==>
        && manager.net.wire == old(manager.net.wire) + [(ws, ErrorFrame("Not registered"))]
        && unchanged(manager)
      ensures msg.Garbled? || msg.OtherBotMessage? ==> (!msg.OtherBotMessage? || Truthy(FirstWithConn(old(manager.bots), ws).GetOr(""))) ==>
        unchanged(manager) && manager.net.wire == old(manager.net.wire)
      ensures msg.Pong? && Truthy(FirstWithConn(old(manager.bots), ws).GetOr("")) ==>
        && manager.bots == Refreshed(old(manager.bots), FirstWithConn(old(manager.bots), ws).value, now)
        && manager.pendingRequests == old(manager.pendingRequests) && manager.outcomes == old(manager.outcomes)
        && manager.chunkNotices == old(manager.chunkNotices) && manager.net.wire == old(manager.net.wire)
      ensures msg.Reply? && Truthy(FirstWithConn(old(manager.bots), ws).GetOr("")) ==>
        && Correlation(manager.pendingRequests, manager.outcomes, manager.chunkNotices) ==
             ApplyReply(Correlation(old(manager.pendingRequests), old(manager.outcomes), old(manager.chunkNotices)), msg.reply)
        && manager.bots == old(manager.bots) && manager.net.wire == old(manager.net.wire)
    {
      if msg.Garbled? {
        return;
      }
      if msg.Register? {
        var result := manager.Register(ws, msg.botId, msg.botName, msg.token, now);
        manager.net.wire := manager.net.wire + [(ws, Registered(result))];
        return;
      }
      var botId := manager.FindByWs(ws);
      if botId.None? || botId.value == "" {
        manager.net.wire := manager.net.wire + [(ws, ErrorFrame("Not registered"))];
        return;
      }
      if msg.Pong? {
        manager.HandlePong(botId.value, now);
        return;
      }
      if msg.Reply? {
        manager.HandleReply(botId.value, msg.reply);
        return;
      }
    }

    /** A bot's socket closed: the bot it maps to, if any and if its id is
        not empty, is unregistered. */
    method OnBotClose(ws: Conn)
      requires Valid()
      modifies manager`bots
      ensures Valid()
      ensures manager.bots ==
        match FirstWithConn(old(manager.bots), ws)
        case Some(id) => if id != "" then Assoc.Remove(old(manager.bots), id) else old(manager.bots)
        case None => old(manager.bots)
    {
      var botId := manager.FindByWs(ws);
      if botId.Some? && botId.value != "" {
        manager.Unregister(botId.value);
      }
    }

    /** `auth`: a missing or malformed header, or a token with no live
        session, is refused with 401; `validateSession` deletes the session
        it finds expired. */
    method Auth(header: Option<string>, now: int) returns (r: Result<UserSession, Response>)
      requires Valid()
      modifies store
      ensures Valid()
      ensures BearerToken(header).None? ==> r == Failure(NotLoggedIn) && store.sessions == old(store.sessions)
      ensures BearerToken(header).Some? ==>
        var token := BearerToken(header).value;
        && r == (match Lookup(old(store.sessions), token, now)
                 case Some(s) => Success(s)
                 case None => Failure(SessionExpired))
        && store.sessions == if r.Failure? then Assoc.Remove(old(store.sessions), token) else old(store.sessions)
      ensures store.sessions == AfterAuth(old(store.sessions), header, now)
    {
      var token := BearerToken(header);
      if token.None? {
        return Failure(NotLoggedIn);
      }
      var session := store.ValidateSession(token.value, now);
      if session.None? {
        return Failure(SessionExpired);
      }
      return Success(session.value);
    }

    /** `/api/login`: both fields are required, the password must match,
        and a session under the fresh `token` is created. The branch that
        answers 500 cannot be reached: a user that passes `validateLogin`
        is configured, so `createSession` succeeds. */
    method Login(username: string, password: string, token: string, now: int) returns (r: Response)
      requires Valid()
      requires token !in Assoc.Keys(store.sessions)
      modifies store
      ensures Valid()
      ensures r.status != 500
      ensures (username == "" || password == "") ==>
        r == Response(400, ErrorBody("用户名和密码不能为空")) && store.sessions == old(store.sessions)
      ensures username != "" && password != "" && !ValidateLogin(config, username, password) ==>
        r == Response(401, ErrorBody("用户名或密码错误")) && store.sessions == old(store.sessions)
      ensures username != "" && password != "" && ValidateLogin(config, username, password) ==>
        var user := UserInfo(username, config.users[username].displayName);
        && r == Response(200, LoginBody(token, user, now + config.sessionTTL))
        && store.sessions == old(store.sessions) + [(token, UserSession(token, user, now, now + config.sessionTTL))]
    {
      if username == "" || password == "" {
        return Response(400, ErrorBody("用户名和密码不能为空"));
      }
      if !ValidateLogin(config, username, password) {
        return Response(401, ErrorBody("用户名或密码错误"));
      }
      var session := store.CreateSession(config, username, token, now);
      if session.None? {
        return Response(500, ErrorBody("创建会话失败"));
      }
      return Response(200, LoginBody(session.value.token, session.value.user, session.value.expiresAt));
    }

    /** `/api/logout`: behind `auth`, delete the caller's session. */
    method Logout(header: Option<string>, now: int) returns (r: Response)
      requires Valid()
      modifies store
      ensures Valid()
      ensures r.status == 200 <==>
        BearerToken(header).Some? && Lookup(old(store.sessions), BearerToken(header).value, now).Some?
      ensures r.status == 200 ==> r.body == LogoutBody(true)
      ensures BearerToken(header).None? ==> r == NotLoggedIn && store.sessions == old(store.sessions)
      ensures BearerToken(header).Some? ==>
        store.sessions == Assoc.Remove(old(store.sessions), BearerToken(header).value)
      ensures r.status != 200 ==> r == NotLoggedIn || r == SessionExpired
    {
      var auth := Auth(header, now);
      if auth.Failure? {
        return auth.error;
      }
      KeyedGet(old(store.sessions), BearerToken(header).value);
      var before := store.sessions;
      var _ := store.DestroySession(auth.value.token);
      Assoc.RemoveValid(before, auth.value.token);
      return Response(200, LogoutBody(true));
    }

    /** `/api/me`: behind `auth`, the caller's user and session expiry. */
    method Me(header: Option<string>, now: int) returns (r: Response)
      requires Valid()
      modifies store
      ensures Valid()
      ensures store.sessions == AfterAuth(old(store.sessions), header, now)
      ensures BearerToken(header).None? ==> r == NotLoggedIn
      ensures BearerToken(header).Some? ==>
        r == match Lookup(old(store.sessions), BearerToken(header).value, now)
             case Some(s) => Response(200, MeBody(s.user, s.expiresAt))
             case None => SessionExpired
    {
      var auth := Auth(header, now);
      if auth.Failure? {
        return auth.error;
      }
      return Response(200, MeBody(auth.value.user, auth.value.expiresAt));
    }

    /** `/api/bots`: behind `auth`, the registered bots in order. */
    method Bots(header: Option<string>, now: int) returns (r: Response)
      requires Valid()
      modifies store
      ensures Valid()
      ensures store.sessions == AfterAuth(old(store.sessions), header, now)
      ensures r.status == 200 <==> BearerToken(header).Some? && Lookup(old(store.sessions), BearerToken(header).value, now).Some?
      ensures r.status == 200 ==> r.body == BotsBody(BotList(manager.ListBots()))
      ensures r.status != 200 ==> r == NotLoggedIn || r == SessionExpired
    {
      var auth := Auth(header, now);
      if auth.Failure? {
        return auth.error;
      }
      return Response(200, BotsBody(BotList(manager.ListBots())));
    }

    /** The session cleanup the relay runs every ten minutes. */
    method SessionTick(now: int) returns (cleaned: nat)
      requires Valid()
      modifies store
      ensures Valid()
      ensures store.sessions == Live(old(store.sessions), now)
      ensures cleaned == ExpiredCount(old(store.sessions), now)
    {
      cleaned := store.CleanupExpiredSessions(now);
    }

    /** `/api/chat` up to its `await`: `auth`, then `Dispatch` for the
        user whose session the bearer token names. */
    method Chat(header: Option<string>, message: string, target: Option<string>,
                requestId: string, now: int, sendError: Option<string>) returns (r: ChatStart)
      requires Valid()
      requires requestId !in manager.outcomes
      modifies store, manager`pendingRequests, manager`outcomes, manager`timeouts, manager.net`wire
      ensures Valid()
      ensures store.sessions == AfterAuth(old(store.sessions), header, now)
      ensures BearerToken(header).None? ==> r == Answer(NotLoggedIn) && unchanged(manager, manager.net)
      ensures BearerToken(header).Some? && Lookup(old(store.sessions), BearerToken(header).value, now).None? ==>
        r == Answer(SessionExpired) && unchanged(manager, manager.net)
      ensures BearerToken(header).Some? && Lookup(old(store.sessions), BearerToken(header).value, now).Some? ==>
        Dispatched(old(manager.bots), old(manager.pendingRequests), old(manager.outcomes), old(manager.net.wire),
                   Lookup(old(store.sessions), BearerToken(header).value, now).value.user,
                   message, target, requestId, now, sendError,
                   r, manager.pendingRequests, manager.outcomes, manager.net.wire)
    {
      var auth := Auth(header, now);
      if auth.Failure? {
        return Answer(auth.error);
      }
      r := Dispatch(manager, auth.value.user, message, target, requestId, now, sendError);
    }
  }

  /** The part of `/api/chat` after `auth`: the empty-message check, the
      choice of bot, then `sendToBot` without an `onChunk` callback under
      the caller's display name (or user name). A bot that is not
      registered rejects at once, which the handler answers with 500. */
  method Dispatch(manager: BotManager, user: UserInfo, message: string, target: Option<string>,
                  requestId: string, now: int, sendError: Option<string>) returns (r: ChatStart)
    requires manager.Valid()
    requires requestId !in manager.outcomes
    modifies manager`pendingRequests, manager`outcomes, manager`timeouts, manager.net`wire
    ensures manager.Valid()
    ensures Dispatched(manager.bots, old(manager.pendingRequests), old(manager.outcomes), old(manager.net.wire),
                       user, message, target, requestId, now, sendError,
                       r, manager.pendingRequests, manager.outcomes, manager.net.wire)
  {
    if message == "" {
      return Answer(Response(400, ErrorBody("消息不能为空")));
    }
    var first := manager.GetFirstAvailable();
    var (botId, text) := ResolveTarget(message, target, first);
    if botId.None? || botId.value == "" {
      return Answer(Response(503, ErrorBody("没有可用的机器人")));
    }
    r := Send(manager, botId.value, text, FromLabel(user), requestId, now, sendError);
  }

  /** `sendToBot` for a chat request, and the handler's answer when it
      rejects at once. */
  method Send(manager: BotManager, botId: string, text: string, from: string, requestId: string, now: int,
              sendError: Option<string>) returns (r: ChatStart)
    requires manager.Valid()
    requires requestId !in manager.outcomes
    modifies manager`pendingRequests, manager`outcomes, manager`timeouts, manager.net`wire
    ensures manager.Valid()
    ensures Sent(manager.bots, old(manager.pendingRequests), old(manager.outcomes), old(manager.net.wire),
                 botId, text, from, requestId, now, sendError,
                 r, manager.pendingRequests, manager.outcomes, manager.net.wire)
  {
    var sent := manager.SendToBot(botId, text, from, false, None, requestId, now, sendError);
    if sent.Failure? {
      assert "Error: " + sent.error == "Error: Bot not found: " + botId;
      return Answer(Response(500, ErrorBody("Error: " + sent.error)));
    }
    return Awaiting(botId, requestId);
  }

  /** A chat request for `botId`: refused with 500 and nothing sent when the
      bot is not registered; otherwise filed as pending (or rejected at once
      when the socket's `send` throws) and awaited. */
  ghost predicate Sent(bots: seq<(string, BotEntry)>, pending0: seq<(string, PendingRequest)>,
                       outcomes0: map<string, Outcome>, wire0: seq<(Conn, RelayFrame)>,
                       botId: string, text: string, from: string,
                       requestId: string, now: int, sendError: Option<string>,
                       r: ChatStart, pending: seq<(string, PendingRequest)>,
                       outcomes: map<string, Outcome>, wire: seq<(Conn, RelayFrame)>)
  {
    && (Assoc.Get(bots, botId).None? ==>
         && r == Answer(Response(500, ErrorBody("Error: Bot not found: " + botId)))
         && pending == pending0 && outcomes == outcomes0 && wire == wire0)
    && (Assoc.Get(bots, botId).Some? ==>
         && r == Awaiting(botId, requestId)
         && pending == pending0 + (if sendError.None? then [(requestId, PendingRequest([], false))] else [])
         && outcomes == outcomes0[requestId := if sendError.None? then Waiting else Rejected(sendError.value)]
         && wire == wire0 + (if sendError.None? then
              [(Assoc.Get(bots, botId).value.ws, RelayFrame.Chat(MessageToBot(requestId, text, from, None, now, None)))]
            else []))
  }

  /** What `/api/chat` does for a logged-in `user`, given the registry
      `bots` and the request table, promises and socket writes before and
      after: an empty message is refused with 400; no bot to route to with
      503; a bot id that is not registered with 500 and nothing sent;
      otherwise the text, stripped of a leading mention, goes to the chosen
      bot under a new pending request, and the handler waits on it. */
  ghost predicate Dispatched(bots: seq<(string, BotEntry)>, pending0: seq<(string, PendingRequest)>,
                             outcomes0: map<string, Outcome>, wire0: seq<(Conn, RelayFrame)>,
                             user: UserInfo, message: string, target: Option<string>,
                             requestId: string, now: int, sendError: Option<string>,
                             r: ChatStart, pending: seq<(string, PendingRequest)>,
                             outcomes: map<string, Outcome>, wire: seq<(Conn, RelayFrame)>)
  {
    var (botId, text) := ResolveTarget(message, target, Assoc.FirstKey(bots));
    if message == "" then
      r == Answer(Response(400, ErrorBody("消息不能为空"))) && pending == pending0 && outcomes == outcomes0 && wire == wire0
    else if botId.None? || botId.value == "" then
      r == Answer(Response(503, ErrorBody("没有可用的机器人"))) && pending == pending0 && outcomes == outcomes0 && wire == wire0
    else
      Sent(bots, pending0, outcomes0, wire0, botId.value, text, FromLabel(user), requestId, now, sendError,
           r, pending, outcomes, wire)
  }
}
