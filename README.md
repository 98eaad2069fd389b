# Nexus relay and gateway channel: a verified model

Nexus connects chat users to OpenClaw bots through a small relay.

**The relay (`nexus-gateway`):**
- Bots open a WebSocket to it and `register` under a bot id.
- Users log in over HTTP and post to `/api/chat`.
- The relay forwards each chat to a bot as a `chat` frame under a fresh request id. It keeps a *pending request* per id and completes the user's request when the bot streams back `reply` frames whose `replyTo` is that id and the last of which has `done` set.
- A periodic tick pings every bot and drops bots that have not answered a ping within the bot timeout.
- Sessions are bearer tokens with a time-to-live.

**The bot side (the `nexus` channel extension of OpenClaw):**
- A *monitor* keeps one WebSocket client to the relay. It registers on open, answers pings, hands `chat` frames to the message handler and reconnects after a close unless it was stopped.
- The *message handler* parses the inbound event, applies the direct-message allow-list, builds the agent's inbound context and runs the agent through a *reply dispatcher*.
- The reply dispatcher streams `reply` frames whose `replyTo` is the inbound chat id.
- Around these sit pure helpers:
  - target and allow-list normalisation;
  - config edits (enable, apply, delete the `nexus` section);
  - credential resolution and the probe;
  - MIME sniffing, data-URL parsing and media payloads;
  - the host's outbound adapter, which decides which messages go out.

**How the outside world is modelled:**
- A JavaScript `Map`, and an object whose key order shows, is an insertion-ordered association list (module `Assoc`). `set` on an existing key keeps its position.
- Connections are handles (`Conn`) on the relay and `Socket` objects on the bot side. A write is recorded as an appended frame.
- A promise is a result cell: `Waiting`, `Resolved` or `Rejected`.
- Timers are explicit `Tick`, `FireTimeout` and `FireReconnect` methods.
- `Date.now()` is a `now` parameter.
- `randomUUID` and `Math.random` are fresh-id parameters. Where the source relies on an id being new, the parameter carries a freshness precondition.
- File reads, `fetch`, base64 and the host's media store are function-valued or outcome parameters (`MediaHost`, `SaveHost`, `Fetched`).

Modules follow the source files:

| module | source |
|---|---|
| `Registry` | `nexus-gateway/src/bot-manager.ts` |
| `Sessions` | `nexus-gateway/src/session.ts` |
| `RelayServer` | `nexus-gateway/src/index.ts` (bot-socket routing, auth, login, `/api/*` handlers) |
| `RelayTypes` | `nexus-gateway/src/types.ts`, defaults of `nexus-gateway/src/config.ts` |
| `BotTypes` | `extensions/nexus/src/types.ts`, config values, the bot-side socket |
| `Monitor` | `extensions/nexus/src/monitor.ts` |
| `ReplyDispatch` | `extensions/nexus/src/reply-dispatcher.ts` |
| `Paths` | `isLocalPath` and the file-path rewrite shared by `reply-dispatcher.ts` and `send.ts` |
| `Send` | `extensions/nexus/src/send.ts` |
| `Media` | `extensions/nexus/src/media.ts` |
| `Bot` | `extensions/nexus/src/bot.ts` |
| `Channel` | `extensions/nexus/src/channel.ts` |
| `Accounts` | `extensions/nexus/src/accounts.ts` |
| `Outbound` | `extensions/nexus/src/outbound.ts` |
| `Probe` | `extensions/nexus/src/probe.ts` |

`Wrappers` holds Option and Result. `Text` holds JavaScript string behaviour: `trim`, the `\s` class, ASCII `toLowerCase`, `replace` with a string pattern and `String(n)`.

Three places where the code and its documentation disagree follow the code:
- The relay builds its `BotManager` without the configured `botToken` (`index.ts:32-35`), so every bot token is accepted (`RelayServer.ManagerConfigOf`).
- The `registered` frame's `success` field carries the whole register result object, not a boolean (`index.ts:56-57`).
- Stopping the monitor through `stopGatewayMonitor` does not stop it: the close handler reconnects (`Monitor.StopThenClose`).

## Model

| member | source | states |
|---|---|---|
| Registry.BotManager.constructor | nexus-gateway/src/bot-manager.ts:11-18 | A new manager has no bots, no pending requests and no interval. |
| Registry.BotManager.Start | nexus-gateway/src/bot-manager.ts:20-26 | Starting sets an interval handle and adds one live interval. |
| Registry.BotManager.Stop | nexus-gateway/src/bot-manager.ts:28-33 | Stopping clears the handle and cancels the interval only when one was set. |
| Registry.BotManager.Register | nexus-gateway/src/bot-manager.ts:35-59 | Registration succeeds iff the configured bot token is empty or equals the given token. A rejection is `{success:false, error:"Invalid token"}` with the registry unchanged and nothing closed. A success closes exactly the previous connection under that id, maps the id to the new connection with `connectedAt = lastPingAt = now` in the id's old position, and leaves every other id untouched. |
| Registry.BotManager.Unregister | nexus-gateway/src/bot-manager.ts:61-64 | Only that id is removed, and an absent id changes nothing. |
| Registry.BotManager.FindByWs | nexus-gateway/src/bot-manager.ts:66-71 | The result is the first id in insertion order whose connection is `ws`, or none iff no id has it. |
| Registry.FirstWithConn | nexus-gateway/src/bot-manager.ts:66-71 | The result is none iff no entry has the connection; otherwise it is the key of the first entry that has it. |
| Registry.FirstWithConnAt | nexus-gateway/src/bot-manager.ts:66-71 | The first entry holding the connection is the one found. |
| Registry.BotManager.HandlePong | nexus-gateway/src/bot-manager.ts:73-78 | The new registry is `Refreshed` from the old one. |
| Registry.RefreshedFacts | nexus-gateway/src/bot-manager.ts:73-78 | A pong changes only the `lastPingAt` of that bot, to `now`. The key set and every other bot stay as they were, and an unknown id changes nothing. |
| Registry.BotManager.HandleReply | nexus-gateway/src/bot-manager.ts:80-94 | The pending table, the promises and the chunk notices change exactly as `ApplyReply` says, keyed by `msg.replyTo` alone (`botId` is not read). |
| Registry.ApplyReplyKeeps | nexus-gateway/src/bot-manager.ts:80-94 | A reply keeps the table well formed and in agreement with the promises. It adds no promise and never changes a settled one. |
| Registry.SettledReplyDropped | nexus-gateway/src/bot-manager.ts:81-85 | A reply for a request that already resolved, failed or timed out changes nothing. |
| Registry.ReplyGrows | nexus-gateway/src/bot-manager.ts:86-88 | A reply that is not done appends its content to that request's chunks and keeps the request pending. |
| Registry.ReplyFinishes | nexus-gateway/src/bot-manager.ts:89-92 | A done reply resolves the promise with all chunks joined in order, this one last, and removes the request. |
| Registry.StreamResolves | nexus-gateway/src/bot-manager.ts:80-94 | A stream of replies to one request, of which only the last is done, resolves it with the concatenation of the stored chunks and every streamed content, in order. |
| Registry.BotManager.SendToBot | nexus-gateway/src/bot-manager.ts:96-139 | For an unregistered id the result is the failure `"Bot not found: <id>"` and nothing changes. Otherwise exactly one request with empty chunks is filed under the fresh id, the `chat` frame goes to that bot's connection, and a 5-minute timer is armed. If `send` throws, the request is not left pending and the promise is rejected with the error. Settled promises never change. |
| Registry.BotManager.StartRequest | nexus-gateway/src/bot-manager.ts:121-137 | The promise executor: file the request, write the frame, and arm the timer. On a throwing send it instead rejects without a pending entry. |
| Registry.AgreesAdd | nexus-gateway/src/bot-manager.ts:121-122 | Filing a fresh request appends it at the end of the table and keeps the table in agreement with the promises. |
| Registry.BotManager.FireTimeout | nexus-gateway/src/bot-manager.ts:131-137 | A still-pending request is removed and rejected with `"Request timeout"`. A request that is no longer pending, and its promise, are left untouched. The timer is consumed. |
| Registry.AgreesSettle | nexus-gateway/src/bot-manager.ts:131-137 | Removing a request while settling its promise keeps the table and the promises in agreement. |
| Registry.BotManager.ListBots | nexus-gateway/src/bot-manager.ts:141-143 | The infos of all bots, in insertion order. |
| Registry.BotManager.GetBot | nexus-gateway/src/bot-manager.ts:145-147 | None iff the id is not registered; otherwise that bot's info. |
| Registry.BotManager.GetFirstAvailable | nexus-gateway/src/bot-manager.ts:149-152 | None iff there are no bots; otherwise the first id in insertion order. |
| Registry.BotManager.PingAll | nexus-gateway/src/bot-manager.ts:154-162 | Exactly the ping frames of `PingFrames` are appended to the wire. |
| Registry.PingReachesEveryBot | nexus-gateway/src/bot-manager.ts:154-162 | Every bot whose send does not throw gets a ping, even when other sends throw. |
| Registry.PingOnlyRegistered | nexus-gateway/src/bot-manager.ts:154-162 | Every ping goes to a registered bot whose send did not throw. |
| Registry.BotManager.CleanupStale | nexus-gateway/src/bot-manager.ts:164-174 | The registry becomes `Fresh` of the old one. The connections of exactly the stale bots are closed, in order. |
| Registry.FreshGet | nexus-gateway/src/bot-manager.ts:164-174 | After cleanup a bot is present iff it was present and `now - lastPingAt <= botTimeout`. A bot exactly at the threshold survives, and survivors are unchanged. |
| Registry.FreshValid | nexus-gateway/src/bot-manager.ts:164-174 | Cleanup keeps the registry free of duplicate ids. |
| Registry.BotManager.Sweep | nexus-gateway/src/bot-manager.ts:166-173 | The delete-while-iterating loop yields `Fresh` of the snapshot and closes exactly the stale connections. |
| Registry.CleanupStep | nexus-gateway/src/bot-manager.ts:166-173 | One loop step deletes the current key iff it is stale, and closes its connection then. |
| Registry.BotManager.Tick | nexus-gateway/src/bot-manager.ts:20-25 | One interval tick pings every bot and then removes and closes exactly the stale ones. |
| Registry.ReplacedSocketOrphaned | nexus-gateway/src/index.ts:82-88 | Once a bot re-registers on a new connection, its old connection maps to no id. |
| Sessions.SessionStore.constructor | nexus-gateway/src/session.ts:5 | The store starts empty. |
| Sessions.SessionStore.CreateSession | nexus-gateway/src/session.ts:11-30 | An unknown user gets null and nothing is stored. A known user's session, under the fresh token, has `createdAt = now`, `expiresAt = now + sessionTTL` and the configured display name. It is appended to the store. |
| Sessions.Lookup | nexus-gateway/src/session.ts:32-42 | A session is found iff its token is stored and `now <= expiresAt`, so it is still valid at `now == expiresAt`. |
| Sessions.SessionStore.ValidateSession | nexus-gateway/src/session.ts:32-42 | The result is the live session or null. A token found expired is deleted, and otherwise the store is unchanged. |
| Sessions.SessionStore.DestroySession | nexus-gateway/src/session.ts:44-46 | True iff the token was stored; afterwards it is absent and nothing else changed. |
| Sessions.SessionStore.CleanupExpiredSessions | nexus-gateway/src/session.ts:54-66 | The store keeps exactly the live sessions, and the count returned is the number removed. |
| Sessions.LiveGet | nexus-gateway/src/session.ts:54-66 | After the sweep a token is present iff it was present and not expired, with its session unchanged. |
| Sessions.LiveNoneExpired | nexus-gateway/src/session.ts:54-66 | No session left by the sweep is expired. |
| Sessions.LiveSub | nexus-gateway/src/session.ts:54-66 | The sweep only removes: every session it keeps was there before. |
| Sessions.ExpiredCount | nexus-gateway/src/session.ts:54-66 | The count removed is the number of sessions minus the live ones. |
| RelayServer.ManagerConfigOf | nexus-gateway/src/index.ts:32-35 | The relay's manager takes the ping interval and bot timeout from the config, and accepts every bot token. |
| RelayServer.Relay.constructor | nexus-gateway/src/index.ts:31-43 | The relay starts with no bots, no pending requests and no sessions. |
| RelayServer.Relay.OnBotMessage | nexus-gateway/src/index.ts:51-80 | `register` is processed on any connection and always answered with `registered` carrying the result object. Every other frame from a connection that maps to no id is answered with `Not registered` and changes nothing. `pong` refreshes the sender; `reply` applies `ApplyReply`; any other frame, and one that does not parse, is ignored. |
| RelayServer.Relay.OnBotClose | nexus-gateway/src/index.ts:82-88 | A close unregisters the id that the connection still maps to, and only that id. A connection mapped to nothing changes nothing. |
| RelayServer.BearerToken | nexus-gateway/src/index.ts:96-103 | A token is read iff the header starts with `"Bearer "`, and it is the header minus those 7 characters. |
| RelayServer.Relay.Auth | nexus-gateway/src/index.ts:96-110 | No bearer header gives 401 `未登录`. An unknown or expired token gives 401 `会话已过期` (an expired one is deleted). Otherwise the session is returned. The store becomes `AfterAuth` of the old one. |
| RelayServer.LogoutRevokes | nexus-gateway/src/index.ts:138-141 | Once logout has removed a bearer token, that token finds no live session at any later time. |
| RelayServer.Relay.Login | nexus-gateway/src/index.ts:114-136 | Empty credentials give 400; a bad user or password gives 401, with no store change in either case. Otherwise the response is 200 with the token, user and expiry, and one new session is stored. The 500 branch is never taken. |
| RelayServer.Relay.Logout | nexus-gateway/src/index.ts:138-141 | 200 `{success:true}` iff the bearer token names a live session; otherwise one of the two 401 answers. With a bearer token the store loses exactly that token (an expired session is deleted by `auth`, a live one by `destroySession`); without one it is unchanged. |
| RelayServer.Relay.Me | nexus-gateway/src/index.ts:143-146 | The logged-in user and the expiry, or the 401 answers. The store changes only by `auth` deleting an expired session (`AfterAuth`). |
| RelayServer.Relay.Bots | nexus-gateway/src/index.ts:150-157 | 200 iff the session is live, with id, name and connection time of every bot in order. The store changes only by `auth` deleting an expired session (`AfterAuth`). |
| RelayServer.BotList | nexus-gateway/src/index.ts:150-157 | One summary per bot, in order, holding id, name and connection time. |
| RelayServer.Mention | nexus-gateway/src/index.ts:171-174 | A mention is found iff the message is `@`, a non-space character and, later, white space. The id is the run up to the first white space, and the text starts after all the white space that follows. |
| RelayServer.MentionOf | nexus-gateway/src/index.ts:171-174 | `"@" + id + spaces + text` yields that id and that text. |
| RelayServer.ResolveTarget | nexus-gateway/src/index.ts:167-178 | A non-empty `target` is used with the whole message. Otherwise a mention chooses the bot, and failing that the first available bot, with the whole message. The text is always a suffix of the message. |
| RelayServer.MentionRouting | nexus-gateway/src/index.ts:167-178 | Without a target, `"@" + id + spaces + text` is routed to `id` with `text`. |
| RelayServer.Relay.Chat | nexus-gateway/src/index.ts:159-190 | Not logged in or expired gives a 401 with no request. Otherwise the outcome is `Dispatched` (see `Dispatch`). The store changes only by `auth` deleting an expired session (`AfterAuth`). |
| RelayServer.Dispatch | nexus-gateway/src/index.ts:163-186 | An empty message gives 400 and no bot to route to gives 503, with nothing sent in either case. Otherwise the routed text goes to the resolved bot as `Send` says. |
| RelayServer.Send | nexus-gateway/src/index.ts:185-189 | An unregistered bot gives 500 `"Error: Bot not found: <id>"` with nothing filed or sent. Otherwise one pending request is filed and the frame is sent (or the promise is rejected at once when `send` throws). |
| RelayServer.ChatAnswer | nexus-gateway/src/index.ts:185-189 | No answer while waiting. A resolved reply gives 200 with the bot's content; a rejection gives 500 with `String(err)`. |
| RelayServer.Health | nexus-gateway/src/index.ts:193-200 | 200 `ok` with the bot count and the ids in order. |
| RelayServer.Relay.SessionTick | nexus-gateway/src/index.ts:38-43 | The ten-minute tick leaves exactly the live sessions and reports how many were removed. |
| Accounts.ResolveGatewayCredentials | extensions/nexus/src/accounts.ts:5-14 | Credentials exist iff the section is present with non-empty `serverUrl` and `botId`. When they exist, those two and the token are copied unchanged. |
| Accounts.ResolveGatewayAccount | extensions/nexus/src/accounts.ts:16-27 | Account id `default`. `enabled` holds iff the section says `enabled: true`, and `configured` iff credentials resolve. `serverUrl` and `botId` are echoed from the section. |
| Accounts.ConfiguredHasEndpoint | extensions/nexus/src/accounts.ts:16-27 | A configured account has a non-empty server URL and bot id. |
| Probe.ProbeGateway | extensions/nexus/src/probe.ts:3-18 | `ok` holds exactly when credentials resolve. Otherwise the result is the fixed "not configured" error. On `ok` there is no error and `botId`/`botName` are echoed. The result depends on the config alone. |
| Paths.LocalPathCases | extensions/nexus/src/reply-dispatcher.ts:19-29 | Strings starting with `/`, `~` or a drive letter are local. An `https:` URL is remote and a `file:` URL is local. |
| Paths.LocalFilePath | extensions/nexus/src/reply-dispatcher.ts:89-91 | A leading `~` becomes the home directory. Otherwise the first `file://` is removed, and a string without one is left unchanged. |
| Paths.FileUrlPath | extensions/nexus/src/send.ts:116-118 | `file://` + path becomes path. |
| Media.DetectMime | extensions/nexus/src/media.ts:52-83 | None below 4 bytes. PNG iff the PNG signature is present. None iff no signature matches. Any result is a known image type. |
| Media.DetectSignatures | extensions/nexus/src/media.ts:55-82 | Each signature yields its type. A RIFF header without `WEBP` at 8..11 yields none. |
| Media.ExtensionOf | extensions/nexus/src/media.ts:33-47 | The table's extension for the ten listed types, `.bin` for any other. |
| Media.DetectedTypesHaveExtensions | extensions/nexus/src/media.ts:33-83 | Every detected type has a real extension. jpeg/jpg give `.jpg` and ico/x-icon give `.ico`. |
| Media.MatchDataUrl | extensions/nexus/src/media.ts:16 | A match splits the string into a non-empty mime without `;` and a non-empty single-line payload that rebuild it. |
| Media.ParseBase64Image | extensions/nexus/src/media.ts:11-28 | A parsed mime rebuilds the input as `data:<mime>;base64,<payload>`. Otherwise the whole input is the payload. |
| Media.ParseDataUrl | extensions/nexus/src/media.ts:11-28 | Parsing `data:<m>;base64,<p>` gives back `m` and `p`. |
| Media.EncodeDataUrl | extensions/nexus/src/media.ts:148-149 | The built string is a data URL. |
| Media.FileToBase64 | extensions/nexus/src/media.ts:145-154 | Null iff the read fails; otherwise a data URL. |
| Media.EncodeRoundTrip | extensions/nexus/src/media.ts:145-154 | Parsing an encoded buffer gives back its base64 and the sniffed mime, or `application/octet-stream`. |
| Media.DownloadedMime | extensions/nexus/src/reply-dispatcher.ts:101 | The sniffed type, else the non-empty content type, else the octet-stream type. Never empty. |
| Media.DownloadedImage | extensions/nexus/src/reply-dispatcher.ts:98-103 | An image exists iff the response arrived with `ok`, and it is the data URL of the body. |
| Media.SavedMime | extensions/nexus/src/media.ts:102-105 | The parsed mime, else the sniffed one, else `image/png`. |
| Media.TempName | extensions/nexus/src/media.ts:108-109 | The temporary file name starts with `nexus_` and ends with the type's extension. |
| Media.SaveBase64ImageToFile | extensions/nexus/src/media.ts:88-140 | Null when the decoded image is larger than `maxBytes`. Any result has placeholder `<media:image>`. Within the limit the result is null iff the media store failed and the temporary write failed too. The media store's path and content type are returned as it gives them. Otherwise the file is `<tmpdir>/nexus_<now>_<random><ext>` and records `SavedMime`. |
| Media.SaveEncoded | extensions/nexus/src/media.ts:88-154 | A file read back as a data URL and saved within the default 30 MiB limit keeps its sniffed type. |
| Media.PathsOf | extensions/nexus/src/media.ts:170 | All paths, in order. |
| Media.TruthyTypes | extensions/nexus/src/media.ts:171 | Exactly the non-empty content types. |
| Media.TruthyTypesAppend | extensions/nexus/src/media.ts:171 | The filter works entry by entry: the types of a concatenation are the concatenated types, and one entry gives its type iff it is present and non-empty. Order and repeats are kept. |
| Media.BuildMediaPayload | extensions/nexus/src/media.ts:159-180 | For an empty list every field is undefined. Otherwise path, URL and type come from the first entry, and paths and URLs are all paths in order. Types are present iff some type is non-empty, and then are the non-empty types. |
| Monitor.ClientSlot.constructor | extensions/nexus/src/monitor.ts:14 | The module starts without a client. |
| Monitor.GetGatewayWsClient | extensions/nexus/src/monitor.ts:145-147 | The current client. |
| Monitor.StopGatewayMonitor | extensions/nexus/src/monitor.ts:138-143 | The current client is asked to close and cleared. |
| Monitor.GatewayMonitor.constructor | extensions/nexus/src/monitor.ts:28-36 | Reads the credentials, `botName` (default the bot id), token (default `""`) and reconnect interval (default 5000). Not stopped, no timer. |
| Monitor.GatewayMonitor.RegisterFrame | extensions/nexus/src/monitor.ts:76-81 | The register frame carries the bot id, the name and the token. |
| Monitor.GatewayMonitor.Cleanup | extensions/nexus/src/monitor.ts:38-48 | Sets `stopped`, cancels the pending reconnect timer, and closes and clears the client. |
| Monitor.GatewayMonitor.Connect | extensions/nexus/src/monitor.ts:64-70 | Does nothing once stopped. Otherwise one new connection to the server URL is created and becomes current. |
| Monitor.GatewayMonitor.OnOpen | extensions/nexus/src/monitor.ts:72-84 | Exactly one register frame is sent. |
| Monitor.GatewayMonitor.OnMessage | extensions/nexus/src/monitor.ts:86-111 | A chat goes to the handler iff the frame is `chat`. `ping` sends exactly one `pong`. Anything else sends nothing. |
| Monitor.GatewayMonitor.OnClose | extensions/nexus/src/monitor.ts:117-125 | The client is cleared. A reconnect after `reconnectInterval` is scheduled iff not stopped. |
| Monitor.GatewayMonitor.FireReconnect | extensions/nexus/src/monitor.ts:123 | A live timer fires `connect`. A cancelled timer does nothing. |
| Monitor.GatewayMonitor.Abort | extensions/nexus/src/monitor.ts:50-54 | A listened-for abort cleans up and resolves the monitor. Without a listener, nothing changes. |
| Monitor.GatewayMonitor.AbortedAtStart | extensions/nexus/src/monitor.ts:56-60 | Cleans up and resolves. |
| Monitor.GatewayMonitor.Launch | extensions/nexus/src/monitor.ts:62-134 | Starting registers the abort listener and makes one connection. A throwing first connect cleans up and rejects. |
| Monitor.MonitorGatewayProvider | extensions/nexus/src/monitor.ts:16-136 | Without a config it throws "Config is required". Without credentials it throws "credentials not configured", with no connection made. An already-aborted signal resolves with no connection. Otherwise there is exactly one connection, and it is current. |
| Monitor.AbortThenClose | extensions/nexus/src/monitor.ts:50-125 | After an abort the resulting close schedules no reconnect. |
| Monitor.StopThenClose | extensions/nexus/src/monitor.ts:117-143 | After `stopGatewayMonitor` the monitor is not stopped and its close schedules a reconnect. |
| Send.NormalizeGatewayTarget | extensions/nexus/src/send.ts:52-57 | The result is trimmed and no longer than the target. |
| Send.NormalizePrefixed | extensions/nexus/src/send.ts:52-57 | One leading `user:`, `conv:`, `gateway:` or `group:`, in any letter case, is dropped and the rest trimmed. |
| Send.NormalizeStripsOnce | extensions/nexus/src/send.ts:52-57 | Only one prefix is removed: `user:conv:x` gives `conv:x`. |
| Send.FormatGatewayTarget | extensions/nexus/src/send.ts:64-67 | The result starts with `conv:`. |
| Send.FormatRoundTrip | extensions/nexus/src/send.ts:52-67 | Normalising a formatted target is normalising the target. |
| Send.LooksLikeGatewayId | extensions/nexus/src/send.ts:59-62 | True iff the id is not blank. |
| Send.OutboundReplyTo | extensions/nexus/src/send.ts:38 | The given reply id, else `outbound-` + the message id. |
| Send.OutboundFrame | extensions/nexus/src/send.ts:35-42 | An outbound frame is a `reply` with `done` set under its message id. It carries the given content, image and time, and answers `OutboundReplyTo` (the given id, else `outbound-<id>`). |
| Send.SendMessageGateway | extensions/nexus/src/send.ts:22-50 | Without an open client it fails with "Gateway WebSocket not connected" and sends nothing. Otherwise it sends exactly one done frame with the text and returns the id and the normalised target. |
| Send.MediaDataOf | extensions/nexus/src/send.ts:107-141 | A buffer wins over a URL and becomes a data URL. No media means no data. A local URL whose rewritten path does not exist gives `FileMissing` of that path. An existing file gives its data URL, or no data when the read fails. A remote URL gives the downloaded data URL, and a failed download falls back to the text `📎 <url>`. |
| Send.SendMediaGateway | extensions/nexus/src/send.ts:99-167 | A missing client fails. A missing local file gives "Local file not found", and no media gives "Either mediaUrl or mediaBuffer must be provided", with nothing sent in either case. The fallback is one text frame. Otherwise one frame with empty content and the data URL as image is sent. |
| Send.BufferRoundTrip | extensions/nexus/src/send.ts:109-112 | The data URL built from a buffer parses back to its base64 and its sniffed type or `application/octet-stream`. |
| Send.UnansweredDropped | nexus-gateway/src/bot-manager.ts:81-85 | Replies for ids with no pending request leave the relay's table and promises unchanged. |
| Send.OutboundDropped | extensions/nexus/src/send.ts:38 | Frames sent on the bot's own initiative carry `outbound-…` reply ids, and the relay drops them. |
| ReplyDispatch.ReplyDispatcher.constructor | extensions/nexus/src/reply-dispatcher.ts:31-48 | A dispatcher starts busy with no stream id and no waiters. |
| ReplyDispatch.ReplyDispatcher.FrameOf | extensions/nexus/src/reply-dispatcher.ts:58-65 | Every frame is a `reply` whose `replyTo` is the inbound message id. |
| ReplyDispatch.ReplyDispatcher.SendText | extensions/nexus/src/reply-dispatcher.ts:51-79 | The stream id is reused if set, else a new one is allocated and stored. The frame is not done and is written only when the socket is open. The receipt is `gateway` with the conversation id. |
| ReplyDispatch.ReplyDispatcher.SendBlockReply | extensions/nexus/src/reply-dispatcher.ts:149-176 | The stream id is used if set, else a fresh one. The frame is done. The stream id is cleared afterwards, whether or not the socket was open. |
| ReplyDispatch.ReplyDispatcher.SendFinalReply | extensions/nexus/src/reply-dispatcher.ts:178-204 | Same as a block reply: the stream id or a fresh one, a done frame, then the stream id is cleared. |
| ReplyDispatch.ReplyDispatcher.SendMedia | extensions/nexus/src/reply-dispatcher.ts:81-140 | Always a fresh id and a done frame; the stream id is neither read nor changed. The image is set when obtained, else the URL is appended to the text. |
| ReplyDispatch.MediaImage | extensions/nexus/src/reply-dispatcher.ts:86-108 | No URL, no image; any image is a data URL. |
| ReplyDispatch.MediaContent | extensions/nexus/src/reply-dispatcher.ts:111-126 | With an image, the content is the text (or empty). Without one but with a media URL, it is the text, a blank line and `📎 <url>`, trimmed. Otherwise it is the text. |
| ReplyDispatch.MediaFallbackNamesUrl | extensions/nexus/src/reply-dispatcher.ts:121-126 | With no text and no image the content is exactly `📎 <url>`. |
| ReplyDispatch.LocalMediaRoundTrip | extensions/nexus/src/reply-dispatcher.ts:86-126 | A readable local file is sent as its own data URL, and the content is then the text. |
| ReplyDispatch.ReplyDispatcher.WaitForIdle | extensions/nexus/src/reply-dispatcher.ts:142-147 | Returns at once when idle; otherwise the waiter is queued. |
| ReplyDispatch.ReplyDispatcher.MarkDispatchIdle | extensions/nexus/src/reply-dispatcher.ts:212-218 | Sets idle and releases every queued waiter once. The queue is emptied, so a second call releases nothing new. |
| ReplyDispatch.RunStream | extensions/nexus/src/reply-dispatcher.ts:51-204 | Running a sequence of text and final calls yields one part per call, with its text, done exactly for the finals. |
| ReplyDispatch.ChunksThenFinish | extensions/nexus/src/reply-dispatcher.ts:51-204 | k texts and a final share one id, and the stream id is clear afterwards, so the next text gets a new id. |
| ReplyDispatch.StreamParts | extensions/nexus/src/reply-dispatcher.ts:51-204 | Only the last of those k+1 parts is done, and they carry the texts in order. |
| ReplyDispatch.AnswerShape | extensions/nexus/src/reply-dispatcher.ts:58-175 | The relayed answer is addressed to the request id, done only at its end, with the texts in order. |
| ReplyDispatch.StreamAnswersRequest | extensions/nexus/src/reply-dispatcher.ts:51-204 | The relay resolves the request with all texts joined. |
| Bot.ParseGatewayMessageEvent | extensions/nexus/src/bot.ts:13-25 | The message and sender ids, the content and the reply id are copied. A given sender name is kept. Defaults: conversation = sender, name = sender, type `direct`. |
| Bot.RelayedChatIsDirect | extensions/nexus/src/bot.ts:13-25 | A relay `chat` frame is parsed as a direct message from its sender. |
| Bot.Listed | extensions/nexus/src/bot.ts:54-55 | True iff some entry, as a string, equals the sender. |
| Bot.DmPolicy | extensions/nexus/src/bot.ts:51 | The section's `dmPolicy`, else `open`. |
| Bot.AllowList | extensions/nexus/src/bot.ts:52 | The section's `allowFrom`, else the empty list. |
| Bot.Admitted | extensions/nexus/src/bot.ts:50-61 | Groups always pass, and so does any policy but `allowlist`. Under `allowlist` a direct message passes iff some entry's string is exactly the sender id. |
| Bot.AllowListVerbatim | extensions/nexus/src/bot.ts:54-55 | An entry `user:<id>` does not admit `<id>`: the gate does not normalise. |
| Bot.GatewayFrom | extensions/nexus/src/bot.ts:66 | Group messages are from `nexus:group:<conv>`, direct ones from `nexus:<sender>`. |
| Bot.GatewayTo | extensions/nexus/src/bot.ts:67 | The destination is exactly `conv:<conversation>` for groups and `user:<sender>` otherwise. |
| Bot.AddressRoundTrip | extensions/nexus/src/bot.ts:67 | Normalising the destination gives back the trimmed peer. |
| Bot.MessageBody | extensions/nexus/src/bot.ts:90-94 | The body ends with the content. It equals the content iff there is no non-empty reply id; otherwise it is exactly `[Replying to: "<id>"]` and a blank line, then the content. |
| Bot.HistoryLimit | extensions/nexus/src/bot.ts:44-47 | The configured limit, else the default, clamped at 0. |
| Bot.InboundOf | extensions/nexus/src/bot.ts:124-144 | The agent context is a group iff the message is. A group subject is present iff it is a group. Raw and command body are the content; ids and time are copied. The body is `MessageBody`, the addresses are `GatewayFrom` and `GatewayTo`, and the sender name is the parsed one. |
| Bot.InboundAnswersPeer | extensions/nexus/src/bot.ts:124-144 | The `To` and `OriginatingTo` of the agent context normalise, on the send path, to the trimmed group conversation or sender. |
| Bot.ReplyFrames | extensions/nexus/src/reply-dispatcher.ts:58-65 | The frames written for the parts, in order, with their ids, text and done flag. |
| Bot.AgentCall | extensions/nexus/src/bot.ts:157-162 | One agent call advances the stream exactly as `RunStream` and writes its frame when open. |
| Bot.RunAgent | extensions/nexus/src/bot.ts:157-162 | The agent's calls write exactly the frames of `RunStream`, when open, and leave its stream id. |
| Bot.RunDispatch | extensions/nexus/src/bot.ts:146-164 | A new dispatcher replies to the message id in its conversation, the agent's frames are sent when the socket is open, and idle is signalled iff the agent did not throw. |
| Bot.HandleGatewayMessage | extensions/nexus/src/bot.ts:27-178 | Dropped iff the gate refuses. Without a runtime nothing is sent. Otherwise a dispatcher with `replyTo` = event id is created and the agent's frames are sent. Idle is signalled iff the agent did not throw, and the error is not rethrown. |
| Bot.RepliesOfFrames | extensions/nexus/src/bot.ts:146-153 | The relay reads the frames back as the replies to the event id. |
| Bot.HandledChatResolves | extensions/nexus/src/bot.ts:146-162 | Streaming k texts and a final reply to a relayed chat resolves the relay's pending request with all texts. |
| Channel.NormalizeAllowEntry | extensions/nexus/src/channel.ts:24 | At most one leading prefix is stripped, with nothing else changed. |
| Channel.NormalizeAllowPrefixed | extensions/nexus/src/channel.ts:24 | A leading `gateway:` or `user:`, in any letter case, is removed. |
| Channel.NormalizeAllowPlain | extensions/nexus/src/channel.ts:24 | An entry without `:` is unchanged. |
| Channel.FormatAllowFrom | extensions/nexus/src/channel.ts:98-102 | No longer than the input; every entry trimmed, non-empty and lower-case. |
| Channel.FormatEntriesAppend | extensions/nexus/src/channel.ts:98-102 | The string pipeline works entry by entry: formatting a concatenation is concatenating the formatted parts. |
| Channel.FormatEntriesOne | extensions/nexus/src/channel.ts:98-102 | One entry gives itself trimmed and lower-cased, or nothing when it is blank. |
| Channel.FormatAllowFromAppend | extensions/nexus/src/channel.ts:98-102 | On allow lists: formatting a concatenation is concatenating the formatted parts, and one value gives its trimmed, lower-cased string or nothing. So order and duplicates are kept. |
| Channel.FormatAllowFromMembers | extensions/nexus/src/channel.ts:98-102 | Exactly the trimmed lower-cased non-blank entries. |
| Channel.FormatEntriesMembers | extensions/nexus/src/channel.ts:99-101 | A string is in the output iff it is the formatted form of a non-blank entry. |
| Channel.FormatAllowFromIdempotent | extensions/nexus/src/channel.ts:98-102 | Formatting twice is formatting once. |
| Channel.EntryFormatted | extensions/nexus/src/channel.ts:99-101 | A non-blank entry formats to a trimmed lower-case string. |
| Channel.SetAccountEnabled | extensions/nexus/src/channel.ts:68-77 | Only `channels.nexus.enabled` changes. Other keys of the config, channels and section are kept. |
| Channel.SetTwice | extensions/nexus/src/channel.ts:68-77 | The last enable wins. |
| Channel.EnabledAccount | extensions/nexus/src/channel.ts:68-77 | The account reads back as set, with `configured` and the allow-list unchanged. |
| Channel.ApplyAccountConfig | extensions/nexus/src/channel.ts:106-115 | The account ends up enabled, with `configured` unchanged. |
| Channel.ApplyIdempotent | extensions/nexus/src/channel.ts:106-115 | Applying twice is applying once. |
| Channel.DeleteAccount | extensions/nexus/src/channel.ts:78-88 | The `nexus` section is gone and the account is neither configured nor enabled. Other top-level keys and channels are kept. `channels` is dropped iff nothing else was in it. |
| Channel.DeleteAfterEnable | extensions/nexus/src/channel.ts:68-88 | Deleting forgets any earlier enable. |
| Channel.IsConfigured | extensions/nexus/src/channel.ts:89-90 | True iff credentials resolve, which is the account's `configured`. |
| Channel.ResolveAllowFrom | extensions/nexus/src/channel.ts:96-97 | The section's allow-list, else `[]`. |
| Channel.ListAccountIds | extensions/nexus/src/channel.ts:65 | Just the default account. |
| Channel.AccountListed | extensions/nexus/src/channel.ts:65-66 | The resolved account is always listed. |
| Channel.NotifyApproval | extensions/nexus/src/channel.ts:25-31 | Sends the approval text to the normalised id as an outbound message, or fails as `sendMessageGateway` does. |
| Outbound.SendTextCalls | extensions/nexus/src/outbound.ts:11-14 | Exactly one send, with the same target and text. |
| Outbound.SendMediaCalls | extensions/nexus/src/outbound.ts:16-31 | Two sends iff the text is not blank, the text first. The last is `📎 <url>` with a URL, else `text ?? ""`. |
| Outbound.TextWithoutMedia | extensions/nexus/src/outbound.ts:18-30 | Without media, non-blank text goes out twice. |
| Outbound.TextThenMedia | extensions/nexus/src/outbound.ts:17-27 | With media, the text goes once, before the link. |
| Outbound.Outcome | extensions/nexus/src/outbound.ts:11-31 | Success iff every send succeeded, and then it is the last result tagged `gateway`. Otherwise it is the error of the first failed send: every send before it succeeded. |
| Outbound.Made | extensions/nexus/src/outbound.ts:16-31 | Sends stop at the first failure. |
| Outbound.NotConnectedFailsFirst | extensions/nexus/src/outbound.ts:16-31 | Without a client, the first send fails with "not connected" and nothing more is tried. |
| BotTypes.Socket.SendIfOpen | extensions/nexus/src/reply-dispatcher.ts:67-72 | A frame is written iff the socket is open. |
| BotTypes.NexusSection | extensions/nexus/src/monitor.ts:22 | The section is read iff `channels.nexus` is an object. |
| BotTypes.ToString | extensions/nexus/src/channel.ts:99 | `String(v)` of a string or number config value: a string is itself; a number, modelled as an integer, is its exact decimal form, which is what `String(n)` gives for integers of magnitude below 2^53. |

## Left out

- Sockets, HTTP and express plumbing (CORS, static files, `server.listen`, SIGTERM) are left out. Only the handlers' decisions are modelled.
- Concurrency between async handlers is not modelled: every handler runs atomically.
- `randomUUID`, `randomBytes`, `Math.random` and `Date.now()` are parameters.
- Reading and creating `nexus-gateway/src/config.ts`'s file and the `PORT` override are I/O; only its defaults are modelled.
- Base64 encoding and decoding, `fs`, `fetch`, `URL` parsing and the host's media store are parameters, so their failures are chosen by the caller.
- Logging is left out throughout.
- `toLowerCase` is modelled on ASCII letters only.
- Media.ExtensionOf: the source indexes a plain object literal, so a type named like a member inherited from `Object.prototype` (`constructor`, `toString`, `__proto__` and the like) reads that member, and the file name ends with its string form. The model gives `.bin` for every type outside the ten-entry table.
- Paths.LocalFilePath: `replace("~", HOME)` expands `$$`, `$&`, `` $` `` and `$'` inside `HOME`. The model inserts `HOME` as written, which agrees whenever `HOME` holds no `$`.
- BotTypes.ToString: numeric config values are modelled as unbounded integers printed exactly in decimal, which matches JavaScript's `String(n)` only for integers of magnitude below 2^53. Doubles, fractions and exponent notation (`String(1e21)` is `"1e+21"`, `String(2**60)` is `"1152921504606847000"`) are not modelled, so for larger or fractional numbers `Bot.Listed`, `Bot.Admitted` and `Channel.FormatAllowFrom` can differ from the source.
- JavaScript strings are sequences of UTF-16 code units, while a string here is a sequence of Unicode scalar values. For characters outside the Basic Multilingual Plane, `.length`, slicing, `startsWith` offsets and `.` in a regular expression count differently in the source.
- Media.SaveBase64ImageToFile: `path.join(os.tmpdir(), fileName)` is modelled as joining with `/`, without `path.join`'s normalisation of separators and `..` segments.
- Config fields of the wrong JSON type are read as absent. A spread of a non-object is read as no fields.
- The agent is a script of text and final calls. Its own media sends, routing, envelope formatting, history helpers and system events belong to the host SDK.
- Host-facing status hooks and metadata in `channel.ts` (`describeAccount`, status snapshots, `startAccount`, `defaultAccountId`, `resolveAccountId`, schema) are plumbing for the host and are not modelled.
- The text chunker and delivery mode of `outbound.ts` belong to the host.
- extensions/nexus/src/runtime.ts, extensions/nexus/index.ts and the ambient declaration files are not part of this model.
- Sessions.ValidateLogin: a predicate, stated through `RelayServer.Relay.Login`.
- Bot.HandleGatewayMessage: group history recording is left to the host's history helpers and is not modelled.
- Monitor.GatewayMonitor.OnMessage: a frame that fails to parse, and a throwing chat handler, are logged and change nothing, so they are not separate cases.
- Sessions.Live: its own contract only bounds the length; what it keeps is stated by `Sessions.LiveGet`, `Sessions.LiveSub` and `Sessions.LiveNoneExpired`.
- Bot.RepliesOf: its own contract only bounds the length; its meaning is stated by `Bot.RepliesOfFrames`.
