/** The Redis session store: a hash with a time to live per token, plus the routing keys. */
module RedisSessions {
  import opened Common

  /** What a lookup by token reports. */
  datatype SessionInfo = SessionInfo(uid: string, token: string, node: string)

  /** The hash at `session:{token}`; every field may be missing, and so may the time to live. */
  datatype Hash = Hash(uid: Option<string>, node: Option<string>, loginTime: Option<Time>, expireAt: Option<Time>)

  const NO_FIELDS := Hash(None, None, None, None)

  type Keys = map<string, Hash>

  datatype Redis = Redis(sessions: Keys, online: map<string, string>, userRoute: map<string, string>)

  const EMPTY := Redis(map[], map[], map[])

  predicate Live(keys: Keys, token: string, now: Time) {
    token in keys && (keys[token].expireAt.None? || now < keys[token].expireAt.value)
  }

  /** A write to an expired key starts from an empty hash without a time to live. */
  function Fields(keys: Keys, token: string, now: Time): Hash {
    if Live(keys, token, now) then keys[token] else NO_FIELDS
  }

  // ----- commands -----

  /** HMSET session:{token} uid node_id login_time */
  function HmsetSession(keys: Keys, token: string, uid: string, node: string, now: Time): Keys {
    keys[token := Hash(Some(uid), Some(node), Some(now), Fields(keys, token, now).expireAt)]
  }

  /** HMSET session:{token} node_id */
  function HmsetNode(keys: Keys, token: string, node: string, now: Time): Keys {
    keys[token := Fields(keys, token, now).(node := Some(node))]
  }

  /** EXPIRE session:{token}; a time to live that is not positive deletes the key. */
  function Expire(keys: Keys, token: string, ttl: int, now: Time): Keys {
    if !Live(keys, token, now) then keys
    else if ttl <= 0 then keys - {token}
    else keys[token := keys[token].(expireAt := Some(now + ttl))]
  }

  /** HMGET session:{token} uid node_id, as `getSessionByToken` reads the reply. */
  function Lookup(keys: Keys, token: string, now: Time): Option<SessionInfo> {
    var h := Fields(keys, token, now);
    if h.uid.None? then None
    else Some(SessionInfo(h.uid.value, token, if h.node.Some? then h.node.value else ""))
  }

  // ----- repository operations -----

  /** Which commands of a creation succeed; the code does not look at the replies. */
  datatype Written = Written(fields: bool, expiry: bool, online: bool, route: bool)

  const ALL := Written(true, true, true, true)

  function CreateWith(r: Redis, uid: string, token: string, node: string, ttl: int, now: Time, w: Written): Redis {
    var keys := if w.fields then HmsetSession(r.sessions, token, uid, node, now) else r.sessions;
    Redis(if w.expiry then Expire(keys, token, ttl, now) else keys,
          if w.online then r.online[uid := node] else r.online,
          if w.route then r.userRoute[uid := node] else r.userRoute)
  }

  function Create(r: Redis, uid: string, token: string, node: string, ttl: int, now: Time): Redis {
    CreateWith(r, uid, token, node, ttl, now, ALL)
  }

  function UpdateNode(r: Redis, token: string, node: string, now: Time): Redis {
    r.(sessions := HmsetNode(r.sessions, token, node, now))
  }

  function Revoke(r: Redis, token: string): Redis {
    r.(sessions := r.sessions - {token})
  }

  /** Only the routing keys go; the tokens of the user stay. */
  function RevokeAll(r: Redis, uid: string): Redis {
    r.(online := r.online - {uid}, userRoute := r.userRoute - {uid})
  }

  /** A created session is found, with its user and node, for exactly its time to live. */
  lemma LivesExactly(r: Redis, uid: string, token: string, node: string, ttl: int, now: Time, later: Time)
    requires later >= now
    ensures Lookup(Create(r, uid, token, node, ttl, now).sessions, token, later) ==
            if later < now + ttl then Some(SessionInfo(uid, token, node)) else None
  {
  }

  /** `connected` says whether the pool had a connection to give; the other outcomes are those of the single commands. */
  class RedisSessionRepo {
    var sessions: Keys
    var online: map<string, string>
    var userRoute: map<string, string>

    function View(): Redis
      reads this
    {
      Redis(sessions, online, userRoute)
    }

    constructor ()
      ensures View() == EMPTY
    {
      sessions, online, userRoute := map[], map[], map[];
    }

    method CreateSession(uid: string, token: string, node: string, ttl: int, now: Time, connected: bool, w: Written)
        returns (ok: bool)
      modifies this
      ensures ok == connected
      ensures View() == if connected then CreateWith(old(View()), uid, token, node, ttl, now, w) else old(View())
      ensures connected && w.fields && ttl > 0 ==> Lookup(sessions, token, now) == Some(SessionInfo(uid, token, node))
      ensures connected && !w.fields && !w.expiry ==> sessions == old(sessions)
      ensures connected && w.fields && ttl > 0 ==> sessions[token].loginTime == Some(now)
      ensures forall t :: t != token ==> (t in sessions <==> t in old(sessions)) && (t in sessions ==> sessions[t] == old(sessions)[t])
      ensures online == if connected && w.online then old(online)[uid := node] else old(online)
      ensures userRoute == if connected && w.route then old(userRoute)[uid := node] else old(userRoute)
    {
      if !connected {
        return false;
      }
      if w.fields {
        sessions := HmsetSession(sessions, token, uid, node, now);
      }
      if w.expiry {
        sessions := Expire(sessions, token, ttl, now);
      }
      if w.online {
        online := online[uid := node];
      }
      if w.route {
        userRoute := userRoute[uid := node];
      }
      return true;
    }

    /** `replied`: the pool gave a connection, and the command got an answer. */
    method GetSessionByToken(token: string, now: Time, replied: bool) returns (r: Option<SessionInfo>)
      ensures r == if replied then Lookup(sessions, token, now) else None
      ensures r.Some? <==>
                && replied && token in sessions && sessions[token].uid.Some?
                && (sessions[token].expireAt.None? || now < sessions[token].expireAt.value)
      ensures r.Some? ==>
                && r.value.uid == sessions[token].uid.value && r.value.token == token
                && r.value.node == if sessions[token].node.Some? then sessions[token].node.value else ""
    {
      if !replied {
        return None;
      }
      var h := if Live(sessions, token, now) then sessions[token] else NO_FIELDS;
      var found := false;
      var uid, node := "", "";
      if h.uid.Some? {
        uid := h.uid.value;
        found := true;
      }
      if h.node.Some? {
        node := h.node.value;
      }
      return if found then Some(SessionInfo(uid, token, node)) else None;
    }

    method RevokeSession(token: string, connected: bool, deleted: bool) returns (ok: bool)
      modifies this`sessions
      ensures ok == connected
      ensures View() == if connected && deleted then Revoke(old(View()), token) else old(View())
    {
      if !connected {
        return false;
      }
      if deleted {
        sessions := sessions - {token};
      }
      return true;
    }

    /** The online key and the route go one by one; no session is touched. */
    method RevokeAllSessions(uid: string, connected: bool, offline: bool, unrouted: bool) returns (ok: bool)
      modifies this`online, this`userRoute
      ensures ok == connected
      ensures online == if connected && offline then old(online) - {uid} else old(online)
      ensures userRoute == if connected && unrouted then old(userRoute) - {uid} else old(userRoute)
      ensures connected && offline && unrouted ==> View() == RevokeAll(old(View()), uid)
    {
      if !connected {
        return false;
      }
      if offline {
        online := online - {uid};
      }
      if unrouted {
        userRoute := userRoute - {uid};
      }
      return true;
    }

    method UpdateSessionNode(token: string, node: string, now: Time, connected: bool, written: bool) returns (ok: bool)
      modifies this`sessions
      ensures ok == connected
      ensures View() == if connected && written then UpdateNode(old(View()), token, node, now) else old(View())
    {
      if !connected {
        return false;
      }
      if written {
        sessions := HmsetNode(sessions, token, node, now);
      }
      return true;
    }
  }
}
