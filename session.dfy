/** The relay's login sessions (nexus-gateway/src/session.ts).

    The module-level `sessions` map of the source is the `sessions` field of
    a `SessionStore`: bearer token to session, in insertion order. The token
    that `randomBytes` would produce is a parameter that must not be in use;
    the clock is the `now` parameter. */
module Sessions {
  import opened Wrappers
  import Assoc
  import opened RelayTypes

  /** A session is over once the clock has passed its expiry instant; at
      the instant itself it is still valid. */
  predicate Expired(s: UserSession, now: int) {
    now > s.expiresAt
  }

  /** `validateLogin`: the user is configured and the password matches
      exactly. */
  predicate ValidateLogin(config: ServerConfig, username: string, password: string) {
    username in config.users && config.users[username].password == password
  }

  /** What `validateSession` answers for `token` at `now`: the stored
      session while it has not expired, nothing otherwise. */
  function Lookup(sessions: seq<(string, UserSession)>, token: string, now: int): (r: Option<UserSession>)
    ensures r.Some? <==> token in Assoc.Keys(sessions) && !Expired(Assoc.Get(sessions, token).value, now)
    ensures r.Some? ==> r == Assoc.Get(sessions, token)
  {
    match Assoc.Get(sessions, token)
    case Some(s) => if Expired(s, now) then None else Some(s)
    case None => None
  }

  /** The sessions `cleanupExpiredSessions` keeps, in their order. */
  function Live(sessions: seq<(string, UserSession)>, now: int): (r: seq<(string, UserSession)>)
    ensures |r| <= |sessions|
  {
    if sessions == [] then []
    else
      var last := sessions[|sessions| - 1];
      Live(sessions[..|sessions| - 1], now) + (if Expired(last.1, now) then [] else [last])
  }

  /** How many sessions `cleanupExpiredSessions` deletes. */
  function ExpiredCount(sessions: seq<(string, UserSession)>, now: int): (n: nat)
    ensures n == |sessions| - |Live(sessions, now)|
  {
    if sessions == [] then 0
    else
      var last := sessions[|sessions| - 1];
      ExpiredCount(sessions[..|sessions| - 1], now) + (if Expired(last.1, now) then 1 else 0)
  }

  /** The sweep keeps exactly the sessions that have not expired, unchanged. */
  lemma {:induction false} LiveGet(sessions: seq<(string, UserSession)>, now: int, token: string)
    requires Assoc.Valid(sessions)
    ensures Assoc.Get(sessions, token).None? ==> Assoc.Get(Live(sessions, now), token).None?
    ensures Assoc.Get(sessions, token).Some? ==> (Assoc.Get(Live(sessions, now), token) ==
      if Expired(Assoc.Get(sessions, token).value, now) then None else Assoc.Get(sessions, token))
    decreases |sessions|
  {
    if sessions != [] {
      var init := sessions[..|sessions| - 1];
      var last := sessions[|sessions| - 1];
      assert sessions == init + [last];
      Assoc.InitValid(sessions);
      LiveGet(init, now, token);
      LiveGet(init, now, last.0);
      Assoc.GetSnoc(init, last, token);
      var l := Live(init, now);
      if Expired(last.1, now) {
        assert Live(sessions, now) == l;
      } else {
        assert Live(sessions, now) == l + [last];
        Assoc.GetSnoc(l, last, token);
      }
    }
  }

  lemma {:induction false} LiveValid(sessions: seq<(string, UserSession)>, now: int)
    requires Assoc.Valid(sessions)
    ensures Assoc.Valid(Live(sessions, now))
    decreases |sessions|
  {
    if sessions != [] {
      var init := sessions[..|sessions| - 1];
      var last := sessions[|sessions| - 1];
      Assoc.InitValid(sessions);
      LiveValid(init, now);
      LiveGet(init, now, last.0);
      if !Expired(last.1, now) {
        Assoc.SnocValid(Live(init, now), last);
      }
    }
  }

  /** Every session is stored under its own token. */
  predicate KeyedByToken(sessions: seq<(string, UserSession)>) {
    forall e :: e in sessions ==> e.1.token == e.0
  }

  /** The sweep only drops sessions. */
  lemma {:induction false} LiveSub(sessions: seq<(string, UserSession)>, now: int)
    ensures forall e :: e in Live(sessions, now) ==> e in sessions
    decreases |sessions|
  {
    if sessions != [] {
      LiveSub(sessions[..|sessions| - 1], now);
    }
  }

  /** A stored session found by its token carries that token. */
  lemma KeyedGet(sessions: seq<(string, UserSession)>, token: string)
    requires KeyedByToken(sessions) && Assoc.Get(sessions, token).Some?
    ensures Assoc.Get(sessions, token).value.token == token
  {
    var i :| 0 <= i < |sessions| && sessions[i] == (token, Assoc.Get(sessions, token).value);
    assert sessions[i] in sessions;
  }

  /** After a sweep at `now` no stored session is expired at `now`. */
  lemma {:induction false} LiveNoneExpired(sessions: seq<(string, UserSession)>, now: int)
    ensures forall i :: 0 <= i < |Live(sessions, now)| ==> !Expired(Live(sessions, now)[i].1, now)
    decreases |sessions|
  {
    if sessions != [] {
      LiveNoneExpired(sessions[..|sessions| - 1], now);
    }
  }

  /** Where `cleanupExpiredSessions` stands after visiting the first `i`
      sessions of the map it started from. */
  ghost predicate SweptTo(snapshot: seq<(string, UserSession)>, i: nat, now: int,
                          sessions: seq<(string, UserSession)>, cleaned: nat)
  {
    && i <= |snapshot|
    && sessions == Live(snapshot[..i], now) + snapshot[i..]
    && cleaned == ExpiredCount(snapshot[..i], now)
  }

  lemma SweepStart(snapshot: seq<(string, UserSession)>, now: int)
    ensures SweptTo(snapshot, 0, now, snapshot, 0)
  {
    assert snapshot[..0] == [] && snapshot[0..] == snapshot;
  }

  lemma SweepEnd(snapshot: seq<(string, UserSession)>, now: int, sessions: seq<(string, UserSession)>, cleaned: nat)
    requires SweptTo(snapshot, |snapshot|, now, sessions, cleaned)
    ensures sessions == Live(snapshot, now)
    ensures cleaned == ExpiredCount(snapshot, now)
  {
    assert snapshot[..|snapshot|] == snapshot;
  }

  /** One iteration of the sweep: deleting the visited session when it has
      expired, in the middle of the iteration, keeps the invariant. */
  lemma SweepStep(snapshot: seq<(string, UserSession)>, i: nat, now: int,
                  sessions: seq<(string, UserSession)>, cleaned: nat)
    requires Assoc.Valid(snapshot) && i < |snapshot|
    requires SweptTo(snapshot, i, now, sessions, cleaned)
    ensures Expired(snapshot[i].1, now) ==>
      SweptTo(snapshot, i + 1, now, Assoc.Remove(sessions, snapshot[i].0), cleaned + 1)
    ensures !Expired(snapshot[i].1, now) ==> SweptTo(snapshot, i + 1, now, sessions, cleaned)
  {
    var pre := snapshot[..i];
    var e := snapshot[i];
    var post := snapshot[i + 1..];
    assert snapshot[..i + 1][..i] == pre;
    assert snapshot[i..] == [e] + post;
    var kept := Live(pre, now);
    assert kept + snapshot[i..] == kept + [e] + post;
    if Expired(e.1, now) {
      assert Assoc.Valid(pre) by {
        forall a, b | 0 <= a < b < |pre| ensures pre[a].0 != pre[b].0 { assert pre[a] == snapshot[a] && pre[b] == snapshot[b]; }
      }
      LiveGet(pre, now, e.0);
      assert e.0 !in Assoc.Keys(pre) by {
        forall a | 0 <= a < |pre| ensures pre[a].0 != e.0 { assert pre[a] == snapshot[a]; }
      }
      assert e.0 !in Assoc.Keys(post) by {
        forall a | 0 <= a < |post| ensures post[a].0 != e.0 { assert post[a] == snapshot[i + 1 + a]; }
      }
      Assoc.RemoveMiddle(kept, e, post);
    }
  }

  class SessionStore {
    var sessions: seq<(string, UserSession)>

    ghost predicate Valid()
      reads this
    {
      Assoc.Valid(sessions) && KeyedByToken(sessions)
    }

    constructor ()
      ensures Valid() && sessions == []
    {
      sessions := [];
    }

    /** `createSession`: nothing for an unknown user; otherwise a session
        under the fresh `token`, valid for `sessionTTL` from `now`, carrying
        the configured display name. */
    method CreateSession(config: ServerConfig, username: string, token: string, now: int) returns (r: Option<UserSession>)
      requires Valid()
      requires token !in Assoc.Keys(sessions)
      modifies this
      ensures Valid()
      ensures r.None? <==> username !in config.users
      ensures r.None? ==> sessions == old(sessions)
      ensures r.Some? ==>
        && r.value == UserSession(token, UserInfo(username, config.users[username].displayName), now, now + config.sessionTTL)
        && sessions == old(sessions) + [(token, r.value)]
    {
      if username !in config.users {
        return None;
      }
      var session := UserSession(token, UserInfo(username, config.users[username].displayName), now, now + config.sessionTTL);
      Assoc.PutAbsent(sessions, token, session);
      Assoc.SnocValid(sessions, (token, session));
      sessions := Assoc.Put(sessions, token, session);
      return Some(session);
    }

    /** `validateSession`: an unknown token gives nothing; an expired session
        is deleted and gives nothing; a live one is returned as stored. */
    method ValidateSession(token: string, now: int) returns (r: Option<UserSession>)
      requires Valid()
      modifies this
      ensures Valid()
      ensures r == Lookup(old(sessions), token, now)
      ensures sessions == if r.None? then Assoc.Remove(old(sessions), token) else old(sessions)
    {
      var session := Assoc.Get(sessions, token);
      if session.None? {
        Assoc.RemoveAbsent(sessions, token);
        return None;
      }
      if now > session.value.expiresAt {
        Assoc.RemoveValid(sessions, token);
        Assoc.RemoveSub(sessions, token);
        sessions := Assoc.Remove(sessions, token);
        return None;
      }
      return session;
    }

    /** `destroySession`: whether the token was present; it is absent
        afterwards. */
    method DestroySession(token: string) returns (r: bool)
      requires Valid()
      modifies this
      ensures Valid()
      ensures r <==> token in Assoc.Keys(old(sessions))
      ensures sessions == Assoc.Remove(old(sessions), token)
    {
      r := token in Assoc.Keys(sessions);
      Assoc.RemoveValid(sessions, token);
      Assoc.RemoveSub(sessions, token);
      sessions := Assoc.Remove(sessions, token);
    }

    /** `cleanupExpiredSessions`: delete, during the iteration, every session
        that has expired at `now`, and count them. */
    method CleanupExpiredSessions(now: int) returns (cleaned: nat)
      requires Valid()
      modifies this
      ensures Valid()
      ensures sessions == Live(old(sessions), now)
      ensures cleaned == ExpiredCount(old(sessions), now)
    {
      var snapshot := sessions;
      cleaned := 0;
      var i := 0;
      SweepStart(snapshot, now);
      while i < |snapshot|
        invariant 0 <= i <= |snapshot|
        invariant SweptTo(snapshot, i, now, sessions, cleaned)
      {
        var token, session := snapshot[i].0, snapshot[i].1;
        SweepStep(snapshot, i, now, sessions, cleaned);
        if now > session.expiresAt {
          sessions := Assoc.Remove(sessions, token);
          cleaned := cleaned + 1;
        }
        i := i + 1;
      }
      SweepEnd(snapshot, now, sessions, cleaned);
      LiveValid(snapshot, now);
      LiveSub(snapshot, now);
    }
  }
}
