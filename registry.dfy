/** The relay's bot registry and request correlation table
    (nexus-gateway/src/bot-manager.ts).

    A `BotManager` owns two insertion-ordered maps: bot id to the bot's info
    and connection, and request id to the reply fragments received so far.
    Connections are opaque handles; what the relay writes to them and which
    of them it closes is recorded by `RelaySockets`. The promise that
    `sendToBot` returns is a single-assignment result cell in `outcomes`;
    the 5-minute `setTimeout` of each request is an entry of `timeouts`
    fired by `FireTimeout`; the periodic `setInterval` is `Tick`. */
module Registry {
  import opened Wrappers
  import opened Text
  import Assoc
  import opened RelayTypes

  /** A bot's socket, by identity. */
  type Conn = nat

  /** The relay's side of its sockets: every frame written, in order, and
      every `close()` call, in order. */
  class RelaySockets {
    var wire: seq<(Conn, RelayFrame)>
    var closed: seq<Conn>

    constructor ()
      ensures wire == [] && closed == []
    {
      wire, closed := [], [];
    }
  }

  datatype BotEntry = BotEntry(info: BotInfo, ws: Conn)

  /** One request awaiting its reply; `observed` says whether the caller
      passed an `onChunk` callback. */
  datatype PendingRequest = PendingRequest(chunks: seq<string>, observed: bool)

  /** The state of the promise `sendToBot` returned. */
  datatype Outcome = Waiting | Resolved(content: string) | Rejected(reason: string)

  /** One call of a request's `onChunk(chunk, done)` callback. */
  datatype ChunkNotice = ChunkNotice(requestId: string, chunk: string, done: bool)

  datatype ManagerConfig = ManagerConfig(pingInterval: nat, botTimeout: nat, botToken: string)

  const RequestTimeoutMs: nat := 5 * 60 * 1000

  /** The token check of `register`: an empty configured token admits
      everyone, otherwise the supplied token must equal it. */
  predicate TokenAccepted(config: ManagerConfig, token: string) {
    config.botToken == "" || token == config.botToken
  }

  /** Whether a bot has gone without a pong for longer than the timeout. */
  predicate IsStale(info: BotInfo, now: int, botTimeout: nat) {
    now - info.lastPingAt > botTimeout
  }

  /** The bots `cleanupStale` keeps, in their order. */
  function Fresh(bots: seq<(string, BotEntry)>, now: int, botTimeout: nat): seq<(string, BotEntry)>
  {
    if bots == [] then []
    else
      var last := bots[|bots| - 1];
      Fresh(bots[..|bots| - 1], now, botTimeout) + (if IsStale(last.1.info, now, botTimeout) then [] else [last])
  }

  /** The connections `cleanupStale` closes, in order. */
  function StaleConns(bots: seq<(string, BotEntry)>, now: int, botTimeout: nat): seq<Conn>
  {
    if bots == [] then []
    else
      var last := bots[|bots| - 1];
      StaleConns(bots[..|bots| - 1], now, botTimeout) + (if IsStale(last.1.info, now, botTimeout) then [last.1.ws] else [])
  }

  /** The pings `pingAll` delivers: one per bot whose socket does not throw
      on `send`, in registry order. */
  function PingFrames(bots: seq<(string, BotEntry)>, failing: set<Conn>): seq<(Conn, RelayFrame)>
  {
    if bots == [] then []
    else
      var last := bots[|bots| - 1];
      PingFrames(bots[..|bots| - 1], failing) + (if last.1.ws in failing then [] else [(last.1.ws, Ping)])
  }

  /** `cleanupStale` keeps exactly the bots that are not stale (a bot whose
      silence equals the timeout survives), with their entries unchanged. */
  lemma {:induction false} FreshGet(bots: seq<(string, BotEntry)>, now: int, botTimeout: nat, k: string)
    requires Assoc.Valid(bots)
    ensures Assoc.Get(bots, k).None? ==> Assoc.Get(Fresh(bots, now, botTimeout), k).None?
    ensures Assoc.Get(bots, k).Some? ==> (Assoc.Get(Fresh(bots, now, botTimeout), k) ==
      if IsStale(Assoc.Get(bots, k).value.info, now, botTimeout) then None else Assoc.Get(bots, k))
    decreases |bots|
  {
    if bots != [] {
      var init := bots[..|bots| - 1];
      var last := bots[|bots| - 1];
      assert bots == init + [last];
      Assoc.InitValid(bots);
      FreshGet(init, now, botTimeout, k);
      FreshGet(init, now, botTimeout, last.0);
      Assoc.GetSnoc(init, last, k);
      var f := Fresh(init, now, botTimeout);
      if IsStale(last.1.info, now, botTimeout) {
        assert Fresh(bots, now, botTimeout) == f;
      } else {
        assert Fresh(bots, now, botTimeout) == f + [last];
        Assoc.GetSnoc(f, last, k);
      }
    }
  }

  /** The registry `cleanupStale` leaves behind still has unique ids, in the
      order they had. */
  lemma {:induction false} FreshValid(bots: seq<(string, BotEntry)>, now: int, botTimeout: nat)
    requires Assoc.Valid(bots)
    ensures Assoc.Valid(Fresh(bots, now, botTimeout))
    decreases |bots|
  {
    if bots != [] {
      var init := bots[..|bots| - 1];
      var last := bots[|bots| - 1];
      Assoc.InitValid(bots);
      FreshValid(init, now, botTimeout);
      FreshGet(init, now, botTimeout, last.0);
      if !IsStale(last.1.info, now, botTimeout) {
        Assoc.SnocValid(Fresh(init, now, botTimeout), last);
      }
    }
  }

  /** `pingAll` reaches every bot whose socket accepts the write, whatever
      the other sockets do. */
  lemma {:induction false} PingReachesEveryBot(bots: seq<(string, BotEntry)>, failing: set<Conn>, i: nat)
    requires i < |bots| && bots[i].1.ws !in failing
    ensures (bots[i].1.ws, Ping) in PingFrames(bots, failing)
    decreases |bots|
  {
    if i < |bots| - 1 {
      PingReachesEveryBot(bots[..|bots| - 1], failing, i);
    }
  }

  /** Every frame `pingAll` writes is a ping to a registered bot's socket. */
  lemma {:induction false} PingOnlyRegistered(bots: seq<(string, BotEntry)>, failing: set<Conn>, f: (Conn, RelayFrame))
    requires f in PingFrames(bots, failing)
    ensures f.1 == Ping && f.0 !in failing
    ensures exists i :: 0 <= i < |bots| && bots[i].1.ws == f.0
    decreases |bots|
  {
    var init := bots[..|bots| - 1];
    if f in PingFrames(init, failing) {
      PingOnlyRegistered(init, failing, f);
      var i :| 0 <= i < |init| && init[i].1.ws == f.0;
      assert bots[i] == init[i];
    } else {
      assert bots[|bots| - 1].1.ws == f.0;
    }
  }

  /** The first bot, in registration order, whose socket is `ws`, if any. */
  function FirstWithConn(bots: seq<(string, BotEntry)>, ws: Conn): (r: Option<string>)
    ensures r.None? <==> forall i :: 0 <= i < |bots| ==> bots[i].1.ws != ws
    ensures r.Some? ==> exists i :: (0 <= i < |bots| && bots[i].0 == r.value && bots[i].1.ws == ws &&
                                     forall j :: 0 <= j < i ==> bots[j].1.ws != ws)
  {
    if bots == [] then None
    else if bots[0].1.ws == ws then Some(bots[0].0)
    else
      var r := FirstWithConn(bots[1..], ws);
      assert forall i :: 0 < i < |bots| ==> bots[i] == bots[1..][i - 1];
      r
  }

  /** The bot at position `i` is the one found when no earlier bot has the
      same socket. */
  lemma {:induction false} FirstWithConnAt(bots: seq<(string, BotEntry)>, ws: Conn, i: nat)
    requires i < |bots| && bots[i].1.ws == ws
    requires forall j :: 0 <= j < i ==> bots[j].1.ws != ws
    ensures FirstWithConn(bots, ws) == Some(bots[i].0)
  {
    if i > 0 {
      FirstWithConnAt(bots[1..], ws, i - 1);
    }
  }

  /** After bot `id` re-registers on a new socket, its old socket belongs to
      no bot: closing it later unregisters nothing, so the replacement
      survives the close of the connection it replaced. */
  lemma {:induction false} ReplacedSocketOrphaned(bots: seq<(string, BotEntry)>, id: string, e: BotEntry, gone: Conn)
    requires Assoc.Valid(bots) && e.ws != gone
    requires forall i :: 0 <= i < |bots| && bots[i].1.ws == gone ==> bots[i].0 == id
    ensures FirstWithConn(Assoc.Put(bots, id, e), gone) == None
  {
    if bots != [] {
      if bots[0].0 == id {
        assert Assoc.Put(bots, id, e) == [(id, e)] + bots[1..];
        assert forall i :: 0 <= i < |bots| - 1 ==> bots[1..][i].1.ws != gone by {
          forall i | 0 <= i < |bots| - 1 ensures bots[1..][i].1.ws != gone {
            assert bots[1..][i] == bots[i + 1] && bots[i + 1].0 != bots[0].0;
          }
        }
      } else {
        assert forall i :: 0 <= i < |bots| - 1 && bots[1..][i].1.ws == gone ==> bots[1..][i].0 == id by {
          forall i | 0 <= i < |bots| - 1 && bots[1..][i].1.ws == gone ensures bots[1..][i].0 == id {
            assert bots[1..][i] == bots[i + 1];
          }
        }
        ReplacedSocketOrphaned(bots[1..], id, e, gone);
        assert Assoc.Put(bots, id, e) == [bots[0]] + Assoc.Put(bots[1..], id, e);
      }
    }
  }

  /** The promises only ever settle once: a settled cell keeps its value,
      and no cell disappears. */
  ghost predicate OutcomesExtend(before: map<string, Outcome>, after: map<string, Outcome>) {
    forall id :: id in before ==> id in after && (before[id] != Waiting ==> after[id] == before[id])
  }

  /** A request is in the pending table exactly while its promise has not
      settled. */
  ghost predicate PendingAgrees(pending: seq<(string, PendingRequest)>, outcomes: map<string, Outcome>) {
    && (forall id :: id in Assoc.Keys(pending) ==> id in outcomes && outcomes[id] == Waiting)
    && (forall id :: id in outcomes && outcomes[id] == Waiting ==> id in Assoc.Keys(pending))
  }

  /** A new request enters the table with a waiting promise. */
  lemma AgreesAdd(pending: seq<(string, PendingRequest)>, outcomes: map<string, Outcome>, id: string, p: PendingRequest)
    requires Assoc.Valid(pending) && PendingAgrees(pending, outcomes) && id !in outcomes
    ensures Assoc.Put(pending, id, p) == pending + [(id, p)]
    ensures Assoc.Keys(pending + [(id, p)]) == Assoc.Keys(pending) + [id]
    ensures Assoc.Valid(pending + [(id, p)])
    ensures PendingAgrees(pending + [(id, p)], outcomes[id := Waiting])
  {
    Assoc.PutAbsent(pending, id, p);
    Assoc.SnocValid(pending, (id, p));
    assert Assoc.Keys(pending + [(id, p)]) == Assoc.Keys(pending) + [id];
  }

  /** A request that settles without ever being pending keeps the table in
      agreement. */
  lemma AgreesSettleNew(pending: seq<(string, PendingRequest)>, outcomes: map<string, Outcome>, id: string, o: Outcome)
    requires PendingAgrees(pending, outcomes) && id !in outcomes && o != Waiting
    ensures PendingAgrees(pending, outcomes[id := o])
  {
  }

  /** The request table, the promises and the `onChunk` calls: what a
      reply fragment acts on. */
  datatype Correlation = Correlation(pending: seq<(string, PendingRequest)>, outcomes: map<string, Outcome>,
                                     notices: seq<ChunkNotice>)

  /** The effect of one reply fragment: a fragment for no pending request
      changes nothing; otherwise the fragment is appended to the request's
      chunks and reported to `onChunk` if there is one, and the last
      fragment resolves the promise with all chunks joined in order and
      deletes the request. Which bot sent the fragment plays no part. */
  function ApplyReply(c: Correlation, msg: MessageFromBot): (r: Correlation)
  {
    match Assoc.Get(c.pending, msg.replyTo)
    case None => c
    case Some(p) =>
      var chunks := p.chunks + [msg.content];
      var notices := c.notices + (if p.observed then [ChunkNotice(msg.replyTo, msg.content, msg.done)] else []);
      if msg.done then
        Correlation(Assoc.Remove(c.pending, msg.replyTo), c.outcomes[msg.replyTo := Resolved(Join(chunks))], notices)
      else
        Correlation(Assoc.Put(c.pending, msg.replyTo, PendingRequest(chunks, p.observed)), c.outcomes, notices)
  }

  /** A reply keeps the table and the promises in agreement, settles at most
      the request it answers, and never changes a settled promise. */
  lemma ApplyReplyKeeps(c: Correlation, msg: MessageFromBot)
    requires Assoc.Valid(c.pending) && PendingAgrees(c.pending, c.outcomes)
    ensures Assoc.Valid(ApplyReply(c, msg).pending)
    ensures PendingAgrees(ApplyReply(c, msg).pending, ApplyReply(c, msg).outcomes)
    ensures ApplyReply(c, msg).outcomes.Keys == c.outcomes.Keys
    ensures OutcomesExtend(c.outcomes, ApplyReply(c, msg).outcomes)
    ensures forall k :: k in Assoc.Keys(ApplyReply(c, msg).pending) ==> k in Assoc.Keys(c.pending)
  {
    match Assoc.Get(c.pending, msg.replyTo)
    case None =>
    case Some(p) =>
      var grown := PendingRequest(p.chunks + [msg.content], p.observed);
      if msg.done {
        AgreesSettle(c.pending, c.outcomes, msg.replyTo, Resolved(Join(grown.chunks)));
      } else {
        AgreesGrow(c.pending, c.outcomes, msg.replyTo, grown);
        Assoc.KeysPut(c.pending, msg.replyTo, grown);
      }
  }

  /** A reply to a request that has already settled, by its last fragment,
      by a failed send or by its timeout, is dropped. */
  lemma SettledReplyDropped(c: Correlation, msg: MessageFromBot)
    requires PendingAgrees(c.pending, c.outcomes)
    requires msg.replyTo in c.outcomes && c.outcomes[msg.replyTo] != Waiting
    ensures ApplyReply(c, msg) == c
  {
  }

  /** Fragments `msgs` applied one after the other. */
  function ApplyReplies(c: Correlation, msgs: seq<MessageFromBot>): (r: Correlation)
    decreases |msgs|
  {
    if msgs == [] then c else ApplyReplies(ApplyReply(c, msgs[0]), msgs[1..])
  }

  /** The contents of a sequence of fragments, in order. */
  function Contents(msgs: seq<MessageFromBot>): (r: seq<string>)
    ensures |r| == |msgs|
    ensures forall i :: 0 <= i < |msgs| ==> r[i] == msgs[i].content
  {
    if msgs == [] then [] else [msgs[0].content] + Contents(msgs[1..])
  }

  /** A fragment that answers a pending request without finishing it adds
      its content to that request's chunks. */
  lemma ReplyGrows(c: Correlation, m: MessageFromBot)
    requires Assoc.Valid(c.pending) && Assoc.Get(c.pending, m.replyTo).Some? && !m.done
    ensures Assoc.Valid(ApplyReply(c, m).pending)
    ensures Assoc.Get(ApplyReply(c, m).pending, m.replyTo) ==
      Some(Assoc.Get(c.pending, m.replyTo).value.(chunks := Assoc.Get(c.pending, m.replyTo).value.chunks + [m.content]))
  {
    var p := Assoc.Get(c.pending, m.replyTo).value;
    var grown := PendingRequest(p.chunks + [m.content], p.observed);
    Assoc.PutValid(c.pending, m.replyTo, grown);
    Assoc.GetPutSame(c.pending, m.replyTo, grown);
  }

  /** The fragment that finishes a pending request resolves it with every
      chunk joined and takes it out of the table. */
  lemma ReplyFinishes(c: Correlation, m: MessageFromBot)
    requires Assoc.Valid(c.pending) && Assoc.Get(c.pending, m.replyTo).Some? && m.done
    ensures m.replyTo in ApplyReply(c, m).outcomes
    ensures ApplyReply(c, m).outcomes[m.replyTo] == Resolved(Join(Assoc.Get(c.pending, m.replyTo).value.chunks + [m.content]))
    ensures m.replyTo !in Assoc.Keys(ApplyReply(c, m).pending)
  {
    Assoc.GetRemove(c.pending, m.replyTo, m.replyTo);
  }

  /** The fragments after the first of a stream still form a stream. */
  lemma StreamTail(id: string, msgs: seq<MessageFromBot>)
    requires |msgs| > 1 && msgs[|msgs| - 1].done
    requires forall i :: 0 <= i < |msgs| ==> msgs[i].replyTo == id
    requires forall i :: 0 <= i < |msgs| - 1 ==> !msgs[i].done
    ensures msgs[1..] != [] && msgs[1..][|msgs[1..]| - 1].done
    ensures forall i :: 0 <= i < |msgs[1..]| ==> msgs[1..][i].replyTo == id
    ensures forall i :: 0 <= i < |msgs[1..]| - 1 ==> !msgs[1..][i].done
  {
    assert forall i :: 0 <= i < |msgs[1..]| ==> msgs[1..][i] == msgs[i + 1];
  }

  /** The streaming protocol: a pending request that receives fragments all
      answering it, of which only the last is marked done, resolves with the
      chunks it held followed by every fragment's content, in order, and
      leaves the table. */
  lemma {:induction false} StreamResolves(c: Correlation, id: string, msgs: seq<MessageFromBot>)
    requires Assoc.Valid(c.pending) && Assoc.Get(c.pending, id).Some?
    requires msgs != [] && msgs[|msgs| - 1].done
    requires forall i :: 0 <= i < |msgs| ==> msgs[i].replyTo == id
    requires forall i :: 0 <= i < |msgs| - 1 ==> !msgs[i].done
    ensures id in ApplyReplies(c, msgs).outcomes
    ensures ApplyReplies(c, msgs).outcomes[id] == Resolved(Join(Assoc.Get(c.pending, id).value.chunks + Contents(msgs)))
    ensures id !in Assoc.Keys(ApplyReplies(c, msgs).pending)
    decreases |msgs|
  {
    var chunks := Assoc.Get(c.pending, id).value.chunks;
    var m := msgs[0];
    var rest := msgs[1..];
    assert m.replyTo == id;
    assert ApplyReplies(c, msgs) == ApplyReplies(ApplyReply(c, m), rest);
    if |msgs| == 1 {
      ReplyFinishes(c, m);
      assert rest == [];
      assert Contents(msgs) == [m.content];
    } else {
      assert !m.done;
      ReplyGrows(c, m);
      var c' := ApplyReply(c, m);
      StreamTail(id, msgs);
      StreamResolves(c', id, rest);
      var tail := Contents(rest);
      assert Contents(msgs) == [m.content] + tail;
      AppendAssoc(chunks, [m.content], tail);
      assert Assoc.Get(c'.pending, id).value.chunks == chunks + [m.content];
    }
  }

  /** A reply fragment that does not finish its request keeps the table in
      agreement and its keys in place. */
  lemma AgreesGrow(pending: seq<(string, PendingRequest)>, outcomes: map<string, Outcome>, id: string, p: PendingRequest)
    requires Assoc.Valid(pending) && PendingAgrees(pending, outcomes) && id in Assoc.Keys(pending)
    ensures Assoc.Valid(Assoc.Put(pending, id, p))
    ensures PendingAgrees(Assoc.Put(pending, id, p), outcomes)
  {
    Assoc.PutValid(pending, id, p);
    Assoc.KeysPut(pending, id, p);
  }

  /** Settling a pending request and deleting it keeps the table in
      agreement. */
  lemma AgreesSettle(pending: seq<(string, PendingRequest)>, outcomes: map<string, Outcome>, id: string, o: Outcome)
    requires Assoc.Valid(pending) && PendingAgrees(pending, outcomes) && o != Waiting
    ensures Assoc.Valid(Assoc.Remove(pending, id))
    ensures PendingAgrees(Assoc.Remove(pending, id), outcomes[id := o])
  {
    Assoc.RemoveValid(pending, id);
  }

  /** The registry after a pong from `botId`: that bot's `lastPingAt` is
      `now`; an unknown id changes nothing. */
  function Refreshed(bots: seq<(string, BotEntry)>, botId: string, now: int): (r: seq<(string, BotEntry)>)
  {
    match Assoc.Get(bots, botId)
    case Some(e) => Assoc.Put(bots, botId, e.(info := e.info.(lastPingAt := now)))
    case None => bots
  }

  /** A pong keeps the bots and their order, sets the sender's liveness time
      and leaves every other bot as it was. */
  lemma RefreshedFacts(bots: seq<(string, BotEntry)>, botId: string, now: int)
    ensures Assoc.Keys(Refreshed(bots, botId, now)) == Assoc.Keys(bots)
    ensures Assoc.Get(Refreshed(bots, botId, now), botId) ==
      match Assoc.Get(bots, botId)
      case Some(e) => Some(e.(info := e.info.(lastPingAt := now)))
      case None => None
    ensures forall k :: k != botId ==> Assoc.Get(Refreshed(bots, botId, now), k) == Assoc.Get(bots, k)
  {
    match Assoc.Get(bots, botId)
    case Some(e) =>
      var e' := e.(info := e.info.(lastPingAt := now));
      Assoc.KeysPut(bots, botId, e');
      Assoc.GetPutSame(bots, botId, e');
      forall k | k != botId ensures Assoc.Get(Assoc.Put(bots, botId, e'), k) == Assoc.Get(bots, k) {
        Assoc.GetPutOther(bots, botId, e', k);
      }
    case None =>
  }

  class BotManager {
    const config: ManagerConfig
    const net: RelaySockets
    var bots: seq<(string, BotEntry)>
    var pendingRequests: seq<(string, PendingRequest)>
    /** The promise of every `sendToBot` call that got past the lookup. */
    var outcomes: map<string, Outcome>
    /** Request id to the time its 5-minute timer fires, until it fires. */
    var timeouts: map<string, int>
    var chunkNotices: seq<ChunkNotice>
    /** Whether the `pingInterval` field holds a timer handle. */
    var intervalHandle: bool
    /** How many periodic timers are running (a second `start` without `stop`
        leaves the first one running). */
    var liveIntervals: nat

    ghost predicate Valid()
      reads this
    {
      && Assoc.Valid(bots)
      && Assoc.Valid(pendingRequests)
      && PendingAgrees(pendingRequests, outcomes)
      && timeouts.Keys <= outcomes.Keys
      && (forall k :: k in Assoc.Keys(pendingRequests) ==> k in timeouts)
      && (intervalHandle ==> liveIntervals > 0)
    }

    constructor (config: ManagerConfig, net: RelaySockets)
      ensures Valid()
      ensures this.config == config && this.net == net
      ensures bots == [] && pendingRequests == [] && outcomes == map[] && timeouts == map[]
      ensures chunkNotices == [] && !intervalHandle && liveIntervals == 0
    {
      this.config := config;
      this.net := net;
      bots, pendingRequests, outcomes, timeouts, chunkNotices := [], [], map[], map[], [];
      intervalHandle, liveIntervals := false, 0;
    }

    /** `start()`: arm the periodic ping-and-sweep timer. */
    method Start()
      requires Valid()
      modifies this`intervalHandle, this`liveIntervals
      ensures Valid()
      ensures intervalHandle && liveIntervals == old(liveIntervals) + 1
    {
      intervalHandle := true;
      liveIntervals := liveIntervals + 1;
    }

    /** `stop()`: clear the timer whose handle is held, if any. */
    method Stop()
      requires Valid()
      modifies this`intervalHandle, this`liveIntervals
      ensures Valid()
      ensures !intervalHandle
      ensures liveIntervals == if old(intervalHandle) then old(liveIntervals) - 1 else old(liveIntervals)
    {
      if intervalHandle {
        liveIntervals := liveIntervals - 1;
        intervalHandle := false;
      }
    }

    method Register(ws: Conn, botId: string, botName: string, token: string, now: int) returns (r: RegisterResult)
      requires Valid()
      modifies this`bots, net`closed
      ensures Valid()
      ensures r.success <==> TokenAccepted(config, token)
      ensures r == if r.success then RegisterResult(true, None) else RegisterResult(false, Some("Invalid token"))
      ensures !r.success ==> bots == old(bots) && net.closed == old(net.closed)
      ensures r.success ==> bots == Assoc.Put(old(bots), botId, BotEntry(BotInfo(botId, botName, token, now, now), ws))
      ensures r.success ==> (net.closed == old(net.closed) +
        match Assoc.Get(old(bots), botId) case Some(e) => [e.ws] case None => [])
    {
      if config.botToken != "" && token != config.botToken {
        return RegisterResult(false, Some("Invalid token"));
      }
      var existing := Assoc.Get(bots, botId);
      if existing.Some? {
        net.closed := net.closed + [existing.value.ws];
      }
      var entry := BotEntry(BotInfo(botId, botName, token, now, now), ws);
      Assoc.PutValid(bots, botId, entry);
      bots := Assoc.Put(bots, botId, entry);
      return RegisterResult(true, None);
    }

    method Unregister(botId: string)
      requires Valid()
      modifies this`bots
      ensures Valid()
      ensures bots == Assoc.Remove(old(bots), botId)
    {
      Assoc.RemoveValid(bots, botId);
      bots := Assoc.Remove(bots, botId);
    }

    /** `findByWs`: the first bot, in registration order, whose socket is
        `ws`. */
    method FindByWs(ws: Conn) returns (r: Option<string>)
      ensures r == FirstWithConn(bots, ws)
    {
      var i := 0;
      while i < |bots|
        invariant 0 <= i <= |bots|
        invariant forall j :: 0 <= j < i ==> bots[j].1.ws != ws
      {
        if bots[i].1.ws == ws {
          FirstWithConnAt(bots, ws, i);
          return Some(bots[i].0);
        }
        i := i + 1;
      }
      return None;
    }

    /** A pong refreshes that bot's liveness time and nothing else. */
    method HandlePong(botId: string, now: int)
      requires Valid()
      modifies this`bots
      ensures Valid()
      ensures bots == Refreshed(old(bots), botId, now)
    {
      var bot := Assoc.Get(bots, botId);
      if bot.Some? {
        var e := bot.value.(info := bot.value.info.(lastPingAt := now));
        Assoc.PutValid(bots, botId, e);
        bots := Assoc.Put(bots, botId, e);
      }
    }

    /** A reply fragment is filed under its `replyTo` request, whichever bot
        sent it. */
    method HandleReply(botId: string, msg: MessageFromBot)
      requires Valid()
      modifies this`pendingRequests, this`outcomes, this`chunkNotices
      ensures Valid()
      ensures Correlation(pendingRequests, outcomes, chunkNotices) ==
        ApplyReply(Correlation(old(pendingRequests), old(outcomes), old(chunkNotices)), msg)
    {
      ApplyReplyKeeps(Correlation(pendingRequests, outcomes, chunkNotices), msg);
      var pending := Assoc.Get(pendingRequests, msg.replyTo);
      if pending.None? {
        return;
      }
      var p := pending.value;
      var grown := PendingRequest(p.chunks + [msg.content], p.observed);
      var notices := chunkNotices + (if p.observed then [ChunkNotice(msg.replyTo, msg.content, msg.done)] else []);
      var filed := Assoc.Put(pendingRequests, msg.replyTo, grown);
      if msg.done {
        Assoc.RemovePut(pendingRequests, msg.replyTo, grown);
        pendingRequests, outcomes, chunkNotices :=
          Assoc.Remove(filed, msg.replyTo), outcomes[msg.replyTo := Resolved(Join(grown.chunks))], notices;
      } else {
        pendingRequests, chunkNotices := filed, notices;
      }
    }

    /** `sendToBot`: `Failure` is the rejected promise of an unknown bot;
        `Success(id)` names the promise cell in `outcomes`. */
    method SendToBot(botId: string, content: string, from: string, observed: bool, image: Option<string>,
                     requestId: string, now: int, sendError: Option<string>) returns (r: Result<string, string>)
      requires Valid()
      requires requestId !in outcomes
      modifies this`pendingRequests, this`outcomes, this`timeouts, net`wire
      ensures Valid()
      ensures OutcomesExtend(old(outcomes), outcomes)
      ensures Assoc.Get(bots, botId).None? ==>
        && r == Failure("Bot not found: " + botId)
        && pendingRequests == old(pendingRequests) && outcomes == old(outcomes)
        && timeouts == old(timeouts) && net.wire == old(net.wire)
      ensures Assoc.Get(bots, botId).Some? ==>
        var frame := Chat(MessageToBot(requestId, content, from, None, now,
                                       if image.Some? && image.value != "" then image else None));
        && r == Success(requestId)
        && timeouts == old(timeouts)[requestId := now + RequestTimeoutMs]
        && net.wire == old(net.wire) + (if sendError.None? then [(Assoc.Get(bots, botId).value.ws, frame)] else [])
        && pendingRequests == old(pendingRequests) + (if sendError.None? then [(requestId, PendingRequest([], observed))] else [])
        && outcomes == old(outcomes)[requestId := if sendError.None? then Waiting else Rejected(sendError.value)]
    {
      var bot := Assoc.Get(bots, botId);
      if bot.None? {
        return Failure("Bot not found: " + botId);
      }
      var msg := MessageToBot(requestId, content, from, None, now, None);
      if image.Some? && image.value != "" {
        msg := msg.(image := image);
      }
      StartRequest(bot.value.ws, msg, observed, sendError);
      return Success(requestId);
    }

    /** The executor of the promise `sendToBot` returns: file the request,
        write the frame, on a throwing `send` delete the request and reject,
        and arm the 5-minute timer in either case. */
    method StartRequest(ws: Conn, msg: MessageToBot, observed: bool, sendError: Option<string>)
      requires Valid()
      requires msg.id !in outcomes
      modifies this`pendingRequests, this`outcomes, this`timeouts, net`wire
      ensures Valid()
      ensures timeouts == old(timeouts)[msg.id := msg.timestamp + RequestTimeoutMs]
      ensures net.wire == old(net.wire) + (if sendError.None? then [(ws, Chat(msg))] else [])
      ensures pendingRequests == old(pendingRequests) + (if sendError.None? then [(msg.id, PendingRequest([], observed))] else [])
      ensures outcomes == old(outcomes)[msg.id := if sendError.None? then Waiting else Rejected(sendError.value)]
    {
      var entry := PendingRequest([], observed);
      AgreesAdd(pendingRequests, outcomes, msg.id, entry);
      pendingRequests := Assoc.Put(pendingRequests, msg.id, entry);
      if sendError.None? {
        net.wire := net.wire + [(ws, Chat(msg))];
        outcomes := outcomes[msg.id := Waiting];
      } else {
        Assoc.RemoveLast(old(pendingRequests), (msg.id, entry));
        pendingRequests := Assoc.Remove(pendingRequests, msg.id);
        AgreesSettleNew(pendingRequests, outcomes, msg.id, Rejected(sendError.value));
        outcomes := outcomes[msg.id := Rejected(sendError.value)];
      }
      timeouts := timeouts[msg.id := msg.timestamp + RequestTimeoutMs];
    }

    /** The 5-minute timer of a request fires: a request still pending is
        removed and rejected; a settled one is left alone. */
    method FireTimeout(requestId: string, now: int)
      requires Valid()
      requires requestId in timeouts && timeouts[requestId] <= now
      modifies this`pendingRequests, this`outcomes, this`timeouts
      ensures Valid()
      ensures OutcomesExtend(old(outcomes), outcomes)
      ensures timeouts == old(timeouts) - {requestId}
      ensures requestId in Assoc.Keys(old(pendingRequests)) ==>
        && pendingRequests == Assoc.Remove(old(pendingRequests), requestId)
        && outcomes == old(outcomes)[requestId := Rejected("Request timeout")]
      ensures requestId !in Assoc.Keys(old(pendingRequests)) ==>
        pendingRequests == old(pendingRequests) && outcomes == old(outcomes)
    {
      timeouts := timeouts - {requestId};
      if requestId in Assoc.Keys(pendingRequests) {
        AgreesSettle(pendingRequests, outcomes, requestId, Rejected("Request timeout"));
        pendingRequests := Assoc.Remove(pendingRequests, requestId);
        outcomes := outcomes[requestId := Rejected("Request timeout")];
      }
    }

    function ListBots(): (r: seq<BotInfo>)
      reads this
      ensures |r| == |bots|
      ensures forall i :: 0 <= i < |bots| ==> r[i] == bots[i].1.info
    {
      seq(|bots|, i requires 0 <= i < |bots| reads this => bots[i].1.info)
    }

    function GetBot(botId: string): (r: Option<BotInfo>)
      reads this
      ensures r.None? <==> botId !in Assoc.Keys(bots)
      ensures r.Some? ==> exists i :: 0 <= i < |bots| && bots[i].0 == botId && bots[i].1.info == r.value
    {
      match Assoc.Get(bots, botId)
      case Some(e) => Some(e.info)
      case None => None
    }

    function GetFirstAvailable(): (r: Option<string>)
      reads this
      ensures r.None? <==> bots == []
      ensures r.Some? ==> r.value == bots[0].0
    {
      Assoc.FirstKey(bots)
    }

    /** `pingAll`: one ping per bot; a socket that throws is skipped and the
        loop goes on. */
    method PingAll(failing: set<Conn>)
      modifies net`wire
      ensures net.wire == old(net.wire) + PingFrames(bots, failing)
    {
      var i := 0;
      while i < |bots|
        invariant 0 <= i <= |bots|
        invariant net.wire == old(net.wire) + PingFrames(bots[..i], failing)
      {
        assert bots[..i + 1][..i] == bots[..i];
        if bots[i].1.ws !in failing {
          net.wire := net.wire + [(bots[i].1.ws, Ping)];
        }
        i := i + 1;
      }
      assert bots[..|bots|] == bots;
    }

    /** `cleanupStale`: close and delete, during the iteration, every bot
        silent for longer than `botTimeout`. */
    method CleanupStale(now: int)
      requires Valid()
      modifies this`bots, net`closed
      ensures Valid()
      ensures bots == Fresh(old(bots), now, config.botTimeout)
      ensures net.closed == old(net.closed) + StaleConns(old(bots), now, config.botTimeout)
    {
      FreshValid(bots, now, config.botTimeout);
      Sweep(now);
    }

    /** The loop of `cleanupStale`, over the bots as they were when it
        started. */
    method Sweep(now: int)
      requires Assoc.Valid(bots)
      modifies this`bots, net`closed
      ensures bots == Fresh(old(bots), now, config.botTimeout)
      ensures net.closed == old(net.closed) + StaleConns(old(bots), now, config.botTimeout)
    {
      var snapshot := bots;
      ghost var closed0 := net.closed;
      var i := 0;
      SweepStart(snapshot, now, config.botTimeout, closed0);
      while i < |snapshot|
        invariant 0 <= i <= |snapshot|
        invariant SweptTo(snapshot, i, now, config.botTimeout, bots, net.closed, closed0)
      {
        var id, bot := snapshot[i].0, snapshot[i].1;
        SweepStep(snapshot, i, now, config.botTimeout, bots, net.closed, closed0);
        if now - bot.info.lastPingAt > config.botTimeout {
          net.closed := net.closed + [bot.ws];
          bots := Assoc.Remove(bots, id);
        }
        i := i + 1;
      }
      SweepEnd(snapshot, now, config.botTimeout, bots, net.closed, closed0);
    }

    /** One period of the `setInterval` armed by `start`: `pingAll`, then
        `cleanupStale`. */
    method Tick(now: int, failing: set<Conn>)
      requires Valid() && liveIntervals > 0
      modifies this`bots, net
      ensures Valid()
      ensures net.wire == old(net.wire) + PingFrames(old(bots), failing)
      ensures bots == Fresh(old(bots), now, config.botTimeout)
      ensures net.closed == old(net.closed) + StaleConns(old(bots), now, config.botTimeout)
    {
      PingAll(failing);
      CleanupStale(now);
    }
  }

  /** One iteration of `cleanupStale`: deleting the visited bot when it is
      stale, in the middle of the iteration, leaves the bots kept so far
      followed by the bots not yet visited. */
  lemma CleanupStep(bots: seq<(string, BotEntry)>, i: nat, now: int, botTimeout: nat)
    requires Assoc.Valid(bots) && i < |bots|
    ensures var kept := Fresh(bots[..i], now, botTimeout);
      Fresh(bots[..i + 1], now, botTimeout) + bots[i + 1..] ==
        if IsStale(bots[i].1.info, now, botTimeout) then Assoc.Remove(kept + bots[i..], bots[i].0)
        else kept + bots[i..]
    ensures StaleConns(bots[..i + 1], now, botTimeout) ==
      StaleConns(bots[..i], now, botTimeout) + if IsStale(bots[i].1.info, now, botTimeout) then [bots[i].1.ws] else []
  {
    var pre := bots[..i];
    var e := bots[i];
    var post := bots[i + 1..];
    assert bots[..i + 1][..i] == pre;
    assert bots[i..] == [e] + post;
    var kept := Fresh(pre, now, botTimeout);
    assert kept + bots[i..] == kept + [e] + post;
    if IsStale(e.1.info, now, botTimeout) {
      assert Assoc.Valid(pre) by {
        forall a, b | 0 <= a < b < |pre| ensures pre[a].0 != pre[b].0 { assert pre[a] == bots[a] && pre[b] == bots[b]; }
      }
      FreshGet(pre, now, botTimeout, e.0);
      assert e.0 !in Assoc.Keys(pre) by {
        forall a | 0 <= a < |pre| ensures pre[a].0 != e.0 { assert pre[a] == bots[a]; }
      }
      assert e.0 !in Assoc.Keys(post) by {
        forall a | 0 <= a < |post| ensures post[a].0 != e.0 { assert post[a] == bots[i + 1 + a]; }
      }
      Assoc.RemoveMiddle(kept, e, post);
    }
  }

  /** Where `cleanupStale` stands after visiting the first `i` bots of the
      registry it started from: the bots kept so far followed by the bots
      not yet visited, and the connections closed so far. */
  ghost predicate SweptTo(snapshot: seq<(string, BotEntry)>, i: nat, now: int, botTimeout: nat,
                          bots: seq<(string, BotEntry)>, closed: seq<Conn>, closed0: seq<Conn>)
  {
    && i <= |snapshot|
    && bots == Fresh(snapshot[..i], now, botTimeout) + snapshot[i..]
    && closed == closed0 + StaleConns(snapshot[..i], now, botTimeout)
  }

  lemma SweepStart(snapshot: seq<(string, BotEntry)>, now: int, botTimeout: nat, closed0: seq<Conn>)
    ensures SweptTo(snapshot, 0, now, botTimeout, snapshot, closed0, closed0)
  {
    assert snapshot[..0] == [] && snapshot[0..] == snapshot;
  }

  lemma SweepEnd(snapshot: seq<(string, BotEntry)>, now: int, botTimeout: nat,
                 bots: seq<(string, BotEntry)>, closed: seq<Conn>, closed0: seq<Conn>)
    requires SweptTo(snapshot, |snapshot|, now, botTimeout, bots, closed, closed0)
    ensures bots == Fresh(snapshot, now, botTimeout)
    ensures closed == closed0 + StaleConns(snapshot, now, botTimeout)
  {
    assert snapshot[..|snapshot|] == snapshot;
  }

  /** The loop invariant of `cleanupStale` survives one iteration. */
  lemma SweepStep(snapshot: seq<(string, BotEntry)>, i: nat, now: int, botTimeout: nat,
                  bots: seq<(string, BotEntry)>, closed: seq<Conn>, closed0: seq<Conn>)
    requires Assoc.Valid(snapshot) && i < |snapshot|
    requires SweptTo(snapshot, i, now, botTimeout, bots, closed, closed0)
    ensures IsStale(snapshot[i].1.info, now, botTimeout) ==>
      SweptTo(snapshot, i + 1, now, botTimeout, Assoc.Remove(bots, snapshot[i].0), closed + [snapshot[i].1.ws], closed0)
    ensures !IsStale(snapshot[i].1.info, now, botTimeout) ==>
      SweptTo(snapshot, i + 1, now, botTimeout, bots, closed, closed0)
  {
    CleanupStep(snapshot, i, now, botTimeout);
  }
}
