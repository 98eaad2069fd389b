/** The bot's connection to the relay (extensions/nexus/src/monitor.ts):
    connect, register on open, answer pings, hand chat messages to the
    message handler, reconnect after a close unless stopped, and stop on
    abort.

    Each event the source reacts to is a method: the socket opening, a
    frame arriving, the socket closing, the abort signal firing and the
    reconnect timer firing. `setTimeout` is a timer handle taken from
    `nextTimer` and recorded in `scheduled` until it fires or is cleared.
    The module-level `currentWsClient` is a `ClientSlot` shared with the
    outbound senders. */
module Monitor {
  import opened Wrappers
  import opened BotTypes
  import Accounts

  /** The module-level current client. */
  class ClientSlot {
    var current: Socket?

    constructor ()
      ensures current == null
    {
      current := null;
    }
  }

  /** `getGatewayWsClient`. */
  function GetGatewayWsClient(slot: ClientSlot): (r: Socket?)
    reads slot
    ensures r == slot.current
  {
    slot.current
  }

  /** `stopGatewayMonitor`: closes and forgets the current client. It does
      not stop the monitor that made it, so that monitor reconnects when
      the close arrives. */
  method StopGatewayMonitor(slot: ClientSlot)
    modifies slot, slot.current
    ensures slot.current == null
    ensures old(slot.current) != null ==> old(slot.current).closeRequested
  {
    if slot.current != null {
      slot.current.Close();
      slot.current := null;
    }
  }

  const DefaultReconnectInterval: int := 5000
  const ConfigRequired: string := "Config is required for Gateway monitor"
  const CredentialsRequired: string := "Gateway credentials not configured (serverUrl, botId required)"

  /** The promise `monitorGatewayProvider` returns. */
  datatype Outcome = Waiting | Resolved | Rejected(reason: string)

  /** A reconnect timer armed with its delay. */
  datatype Timer = Timer(handle: nat, delay: int)

  function Handles(ts: seq<Timer>): (r: set<nat>)
    ensures forall t :: t in ts ==> t.handle in r
    ensures forall h :: h in r ==> exists t :: t in ts && t.handle == h
  {
    set t | t in ts :: t.handle
  }

  /** The timers left when one handle is cleared or fires. */
  function Without(ts: seq<Timer>, h: nat): (r: seq<Timer>)
    ensures forall t :: t in r <==> t in ts && t.handle != h
    ensures h !in Handles(r)
  {
    if ts == [] then []
    else if ts[0].handle == h then Without(ts[1..], h)
    else [ts[0]] + Without(ts[1..], h)
  }

  /** The state `monitorGatewayProvider` closes over. */
  class GatewayMonitor {
    const slot: ClientSlot
    const serverUrl: string
    const botId: string
    const botName: string
    const token: string
    const reconnectInterval: int
    var stopped: bool
    var reconnectTimer: Option<nat>
    var scheduled: seq<Timer>
    var nextTimer: nat
    var listening: bool
    var outcome: Outcome
    var connections: seq<Socket>

    /** Every armed timer has a handle below the next one, so handles are
        never reused. */
    ghost predicate Valid()
      reads this
    {
      forall t :: t in scheduled ==> t.handle < nextTimer
    }

    /** The register frame this monitor sends on every open. */
    function RegisterFrame(): (f: BotFrame)
      ensures f == Register(botId, botName, token)
    {
      Register(botId, botName, token)
    }

    constructor (slot: ClientSlot, creds: Accounts.Credentials, botName: Option<string>, reconnectInterval: Option<int>)
      ensures this.slot == slot && serverUrl == creds.serverUrl && botId == creds.botId
      ensures this.botName == botName.GetOr(creds.botId) && token == creds.token.GetOr("")
      ensures this.reconnectInterval == reconnectInterval.GetOr(DefaultReconnectInterval)
      ensures !stopped && reconnectTimer.None? && scheduled == [] && nextTimer == 0
      ensures !listening && outcome == Waiting && connections == []
      ensures Valid()
    {
      this.slot := slot;
      serverUrl := creds.serverUrl;
      botId := creds.botId;
      this.botName := botName.GetOr(creds.botId);
      token := creds.token.GetOr("");
      this.reconnectInterval := reconnectInterval.GetOr(DefaultReconnectInterval);
      stopped := false;
      reconnectTimer := None;
      scheduled := [];
      nextTimer := 0;
      listening := false;
      outcome := Waiting;
      connections := [];
    }

    /** `cleanup`: stop, clear the reconnect timer, close and forget the
        current client. */
    method Cleanup()
      requires Valid()
      modifies this`stopped, this`reconnectTimer, this`scheduled, slot, slot.current
      ensures stopped && reconnectTimer.None? && slot.current == null
      ensures old(reconnectTimer).Some? ==> scheduled == Without(old(scheduled), old(reconnectTimer).value)
      ensures old(reconnectTimer).None? ==> scheduled == old(scheduled)
      ensures old(slot.current) != null ==> old(slot.current).closeRequested
      ensures Valid()
    {
      stopped := true;
      if reconnectTimer.Some? {
        scheduled := Without(scheduled, reconnectTimer.value);
        reconnectTimer := None;
      }
      if slot.current != null {
        slot.current.Close();
        slot.current := null;
      }
    }

    /** `connect`: nothing once stopped; otherwise a new client for the
        server URL, which becomes the current one. */
    method Connect() returns (ws: Socket?)
      modifies this`connections, slot
      ensures stopped ==> ws == null && connections == old(connections) && slot.current == old(slot.current)
      ensures !stopped ==> ws != null && fresh(ws) && ws.url == serverUrl && ws.state == Connecting && ws.sent == []
      ensures !stopped ==> connections == old(connections) + [ws] && slot.current == ws
    {
      if stopped {
        return null;
      }
      ws := new Socket(serverUrl);
      slot.current := ws;
      connections := connections + [ws];
    }

    /** The `open` handler: register with the relay, exactly once per
        open. */
    method OnOpen(ws: Socket)
      modifies ws
      ensures ws.state == Open && ws.closeRequested == old(ws.closeRequested)
      ensures ws.sent == old(ws.sent) + [RegisterFrame()]
    {
      ws.state := Open;
      ws.SendIfOpen(RegisterFrame());
    }

    /** The `message` handler: a chat message is returned, for the caller
        to hand to the message handler together with its own `ws`; a ping
        is answered with exactly one pong; everything else, garbage
        included, is only logged. Nothing escapes. */
    method OnMessage(ws: Socket, frame: InboundFrame) returns (dispatch: Option<InboundChat>)
      modifies ws`sent
      ensures frame.ChatFrame? <==> dispatch.Some?
      ensures frame.ChatFrame? ==> dispatch == Some(frame.chat)
      ensures ws.sent == old(ws.sent) + (if frame.PingFrame? && ws.state == Open then [Pong] else [])
    {
      dispatch := None;
      match frame
      case ChatFrame(chat) =>
        dispatch := Some(chat);
      case PingFrame =>
        ws.SendIfOpen(Pong);
      case RegisteredFrame =>
      case UnknownFrame(_) =>
      case Garbled =>
    }

    /** The `close` handler: the current client is forgotten, whichever it
        is, and unless the monitor is stopped a reconnect is armed after the
        fixed interval (no backoff, no limit). */
    method OnClose(ws: Socket)
      requires Valid()
      modifies ws`state, slot, this`reconnectTimer, this`scheduled, this`nextTimer
      ensures ws.state == Closed && slot.current == null
      ensures stopped ==> reconnectTimer == old(reconnectTimer) && scheduled == old(scheduled) && nextTimer == old(nextTimer)
      ensures !stopped ==> reconnectTimer == Some(old(nextTimer)) && nextTimer == old(nextTimer) + 1
      ensures !stopped ==> scheduled == old(scheduled) + [Timer(old(nextTimer), reconnectInterval)]
      ensures Valid()
    {
      ws.state := Closed;
      slot.current := null;
      if !stopped {
        reconnectTimer := Some(nextTimer);
        scheduled := scheduled + [Timer(nextTimer, reconnectInterval)];
        nextTimer := nextTimer + 1;
      }
    }

    /** The reconnect timer firing: a timer that was cleared or has fired
        does nothing; otherwise it connects again. The handle stays in
        `reconnectTimer`, as the source never resets it. */
    method FireReconnect(handle: nat) returns (ws: Socket?)
      requires Valid()
      modifies this`scheduled, this`connections, slot
      ensures handle !in Handles(old(scheduled)) ==>
        ws == null && scheduled == old(scheduled) && connections == old(connections) && slot.current == old(slot.current)
      ensures handle in Handles(old(scheduled)) ==> scheduled == Without(old(scheduled), handle)
      ensures handle in Handles(old(scheduled)) && !stopped ==>
        ws != null && fresh(ws) && connections == old(connections) + [ws] && slot.current == ws
      ensures handle in Handles(old(scheduled)) && stopped ==> ws == null && connections == old(connections)
      ensures Valid()
    {
      ws := null;
      if handle in Handles(scheduled) {
        scheduled := Without(scheduled, handle);
        ws := Connect();
      }
    }

    /** `handleAbort`, once, if a signal was given: cleanup, then resolve
        (which does nothing to a promise already settled). The close this
        causes arms no reconnect, since the monitor is stopped. */
    method Abort()
      requires Valid()
      modifies this`listening, this`stopped, this`reconnectTimer, this`scheduled, this`outcome, slot, slot.current
      ensures !listening
      ensures old(listening) ==> stopped && reconnectTimer.None? && slot.current == null
      ensures old(listening) && old(reconnectTimer).Some? ==> scheduled == Without(old(scheduled), old(reconnectTimer).value)
      ensures old(listening) && old(slot.current) != null ==> old(slot.current).closeRequested
      ensures old(listening) ==> outcome == (if old(outcome).Waiting? then Resolved else old(outcome))
      ensures !old(listening) ==>
        && stopped == old(stopped) && reconnectTimer == old(reconnectTimer)
        && scheduled == old(scheduled) && outcome == old(outcome) && slot.current == old(slot.current)
      ensures Valid()
    {
      if listening {
        listening := false;
        Cleanup();
        if outcome.Waiting? {
          outcome := Resolved;
        }
      }
    }
    /** A signal already aborted at start: cleanup and resolve, without
        any connection. */
    method AbortedAtStart()
      requires Valid()
      modifies this`stopped, this`reconnectTimer, this`scheduled, this`outcome, slot, slot.current
      ensures stopped && reconnectTimer.None? && slot.current == null && outcome == Resolved
      ensures old(reconnectTimer).None? ==> scheduled == old(scheduled)
      ensures old(slot.current) != null ==> old(slot.current).closeRequested
      ensures Valid()
    {
      Cleanup();
      outcome := Resolved;
    }

    /** Listen for the signal, if one is given, and connect; when `new
        WebSocket` throws (`connectError`), clean up, stop listening and
        reject. */
    method Launch(hasSignal: bool, connectError: Option<string>)
      requires Valid() && !stopped && outcome == Waiting && connections == []
      modifies this`listening, this`stopped, this`reconnectTimer, this`scheduled, this`outcome, this`connections,
        slot, slot.current
      ensures connectError.Some? ==>
        stopped && outcome == Rejected(connectError.value) && !listening && connections == [] && slot.current == null
      ensures connectError.None? ==>
        && !stopped && outcome == Waiting && listening == hasSignal && |connections| == 1 && slot.current == connections[0]
        && fresh(connections[0]) && connections[0].url == serverUrl && connections[0].state == Connecting
      ensures Valid()
    {
      listening := hasSignal;
      if connectError.Some? {
        Cleanup();
        listening := false;
        outcome := Rejected(connectError.value);
      } else {
        var ws := Connect();
      }
    }
  }

  /** What a monitor run began with. */
  datatype Start = StartFailed(reason: string) | Started(monitor: GatewayMonitor)

  /** `monitorGatewayProvider`: fails without a configuration or without
      credentials, before any connection; otherwise a monitor for the
      credentials, the section's bot name and reconnect interval, which
      resolves at once on a signal already aborted and otherwise is
      launched. */
  method MonitorGatewayProvider(config: Option<Fields>, slot: ClientSlot, signal: Option<bool>,
                                connectError: Option<string>) returns (r: Start)
    modifies slot, slot.current
    ensures config.None? ==> r == StartFailed(ConfigRequired) && slot.current == old(slot.current)
    ensures config.Some? && Accounts.ResolveGatewayCredentials(NexusSection(config.value)).None? ==>
      r == StartFailed(CredentialsRequired) && slot.current == old(slot.current)
    ensures r.Started? ==> config.Some? && Accounts.ResolveGatewayCredentials(NexusSection(config.value)).Some?
    ensures r.Started? ==> fresh(r.monitor) && r.monitor.slot == slot && r.monitor.Valid()
    ensures r.Started? && signal == Some(true) ==>
      r.monitor.stopped && r.monitor.outcome == Resolved && r.monitor.connections == [] && slot.current == null
    ensures r.Started? && signal != Some(true) && connectError.Some? ==>
      r.monitor.stopped && r.monitor.outcome == Rejected(connectError.value) && r.monitor.connections == []
    ensures r.Started? && signal != Some(true) && connectError.None? ==>
      && !r.monitor.stopped && r.monitor.outcome == Waiting && r.monitor.listening == signal.Some?
      && |r.monitor.connections| == 1 && slot.current == r.monitor.connections[0]
  {
    if config.None? {
      return StartFailed(ConfigRequired);
    }
    var section := NexusSection(config.value);
    var creds := Accounts.ResolveGatewayCredentials(section);
    if creds.None? {
      return StartFailed(CredentialsRequired);
    }
    var m := new GatewayMonitor(slot, creds.value, section.value.botName, section.value.reconnectInterval);
    if signal == Some(true) {
      m.AbortedAtStart();
    } else {
      m.Launch(signal.Some?, connectError);
    }
    r := Started(m);
  }

  /** Aborting, and then the close of the client the abort closed, leaves
      no reconnect armed and no new connection. */
  method AbortThenClose(m: GatewayMonitor, ws: Socket)
    requires m.Valid() && m.listening && m.slot.current == ws
    modifies m, m.slot, ws
    ensures ws.closeRequested && ws.state == Closed && m.slot.current == null
    ensures m.stopped && m.reconnectTimer.None? && m.nextTimer == old(m.nextTimer)
    ensures m.connections == old(m.connections)
  {
    m.Abort();
    m.OnClose(ws);
  }

  /** `stopGatewayMonitor` closes the client but the monitor is not
      stopped, so the close that follows arms a reconnect after the usual
      interval. */
  method StopThenClose(m: GatewayMonitor, ws: Socket)
    requires m.Valid() && !m.stopped && m.slot.current == ws
    modifies m, m.slot, ws
    ensures ws.closeRequested && ws.state == Closed && m.slot.current == null && !m.stopped
    ensures m.reconnectTimer == Some(old(m.nextTimer))
    ensures Timer(old(m.nextTimer), m.reconnectInterval) in m.scheduled
  {
    StopGatewayMonitor(m.slot);
    m.OnClose(ws);
  }
}
