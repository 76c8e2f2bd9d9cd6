/** The MySQL session store: one row per token with an expiry time and a revocation mark. */
module SqlSessions {
  import opened Common
  import opened RedisSessions

  datatype Row = Row(uid: string, node: string, expiredAt: Time, revoked: bool)

  /** The `sessions` table; the key is the UNIQUE column `token`. */
  type Table = map<string, Row>

  predicate RowLive(t: Table, token: string, now: Time) {
    token in t && !t[token].revoked && now < t[token].expiredAt
  }

  function SqlLookup(t: Table, token: string, now: Time): Option<SessionInfo> {
    if RowLive(t, token, now) then Some(SessionInfo(t[token].uid, token, t[token].node)) else None
  }

  /** INSERT ... ON DUPLICATE KEY UPDATE: an existing row keeps its uid. */
  function SqlCreate(t: Table, uid: string, token: string, node: string, ttl: int, now: Time): Table {
    t[token := Row(if token in t then t[token].uid else uid, node, now + ttl, false)]
  }

  function SqlUpdateNode(t: Table, token: string, node: string): Table {
    if token in t then t[token := t[token].(node := node)] else t
  }

  function SqlRevoke(t: Table, token: string): Table {
    if token in t then t[token := t[token].(revoked := true)] else t
  }

  function SqlRevokeAll(t: Table, uid: string): Table {
    map k | k in t :: if t[k].uid == uid then t[k].(revoked := true) else t[k]
  }

  /** `served`: the pool gave a connection and the statement succeeded, which for a new row needs a known user. */
  class MySQLSessionRepo {
    var rows: Table

    constructor ()
      ensures rows == map[]
    {
      rows := map[];
    }

    method CreateSession(uid: string, token: string, node: string, ttl: int, now: Time, served: bool) returns (ok: bool)
      modifies this
      ensures ok == served
      ensures rows == if served then SqlCreate(old(rows), uid, token, node, ttl, now) else old(rows)
      ensures served ==> rows == old(rows)[token := Row(if token in old(rows) then old(rows)[token].uid else uid, node, now + ttl, false)]
    {
      if !served {
        return false;
      }
      if token in rows {
        rows := rows[token := rows[token].(node := node, expiredAt := now + ttl, revoked := false)];
      } else {
        rows := rows[token := Row(uid, node, now + ttl, false)];
      }
      return true;
    }

    method GetSessionByToken(token: string, now: Time, served: bool) returns (r: Option<SessionInfo>)
      ensures r == if served then SqlLookup(rows, token, now) else None
      ensures r.Some? <==> served && token in rows && !rows[token].revoked && rows[token].expiredAt > now
      ensures r.Some? ==> r.value == SessionInfo(rows[token].uid, token, rows[token].node)
    {
      if !served {
        return None;
      }
      r := None;
      if token in rows && !rows[token].revoked && rows[token].expiredAt > now {
        r := Some(SessionInfo(rows[token].uid, token, rows[token].node));
      }
    }

    method RevokeSession(token: string, served: bool) returns (ok: bool)
      modifies this
      ensures ok == served
      ensures rows == if served then SqlRevoke(old(rows), token) else old(rows)
      ensures served && token in old(rows) ==> rows == old(rows)[token := old(rows)[token].(revoked := true)]
      ensures token !in old(rows) ==> rows == old(rows)
    {
      if !served {
        return false;
      }
      if token in rows {
        rows := rows[token := rows[token].(revoked := true)];
      }
      return true;
    }

    method RevokeAllSessions(uid: string, served: bool) returns (ok: bool)
      modifies this
      ensures ok == served
      ensures rows == if served then SqlRevokeAll(old(rows), uid) else old(rows)
      ensures rows.Keys == old(rows).Keys
      ensures forall t :: t in rows ==>
                rows[t] == if served && old(rows)[t].uid == uid then old(rows)[t].(revoked := true) else old(rows)[t]
    {
      if !served {
        return false;
      }
      rows := map k | k in rows :: if rows[k].uid == uid then rows[k].(revoked := true) else rows[k];
      return true;
    }

    method UpdateSessionNode(token: string, node: string, served: bool) returns (ok: bool)
      modifies this
      ensures ok == served
      ensures rows == if served then SqlUpdateNode(old(rows), token, node) else old(rows)
    {
      if !served {
        return false;
      }
      if token in rows {
        rows := rows[token := rows[token].(node := node)];
      }
      return true;
    }
  }
}
