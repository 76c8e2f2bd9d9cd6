/** The service calls on sessions, as sequences of repository calls on the Redis store. */
module LoginService {
  import opened Common
  import opened RedisSessions

  const SESSION_TTL := 7 * 24 * 3600

  datatype LoginResult = Refused(reason: string) | Granted(token: string, uid: string)

  class LoginService {
    const repo: RedisSessionRepo

    constructor (repo: RedisSessionRepo)
      ensures this.repo == repo
    {
      this.repo := repo;
    }

    /**
     `verified` and `known` are the answers of the user repository, `token` is freshly generated; `connected`
     and `w` are the outcomes of the Redis pool and of the commands. A login is granted even when the session
     could not be written.
     */
    method Login(uid: string, verified: bool, known: bool, token: string, node: string, now: Time, connected: bool, w: Written)
        returns (result: LoginResult)
      modifies repo
      ensures result.Granted? <==> verified && known && connected
      ensures result.Granted? ==> result == Granted(token, uid)
      ensures result.Granted? && w.fields && w.expiry ==>
                token in repo.sessions && repo.sessions[token].expireAt == Some(now + 604800)  // seven days
      ensures result.Granted? && w.fields ==> Lookup(repo.sessions, token, now) == Some(SessionInfo(uid, token, node))
      ensures !(result.Granted? && w.fields) ==> Lookup(repo.sessions, token, now) == old(Lookup(repo.sessions, token, now))
      ensures result.Refused? ==>
                result.reason == if !verified then "invalid uid or password"
                                 else if !known then "user not found" else "session create failed"
      ensures repo.View() == if result.Granted? then CreateWith(old(repo.View()), uid, token, node, SESSION_TTL, now, w)
                             else old(repo.View())
    {
      if !verified {
        return Refused("invalid uid or password");
      }
      if !known {
        return Refused("user not found");
      }
      var sessionOk := repo.CreateSession(uid, token, node, SESSION_TTL, now, connected, w);
      if !sessionOk {
        return Refused("session create failed");
      }
      return Granted(token, uid);
    }

    /**
     `replied` and `connected`, `written` are the outcomes of the lookup and of the node update. The node is
     updated before the user record is looked up, so a refused login may still move the session.
     */
    method LoginWithToken(token: string, node: string, known: bool, now: Time, replied: bool, connected: bool, written: bool)
        returns (result: LoginResult)
      modifies repo
      ensures var found := if replied then Lookup(old(repo.sessions), token, now) else None;
              && (result.Granted? <==> found.Some? && known)
              && (result.Granted? ==> result == Granted(token, found.value.uid))
              && (result.Refused? ==> result.reason == if found.None? then "invalid token" else "user not found")
              && repo.View() == if found.Some? && connected && written then UpdateNode(old(repo.View()), token, node, now)
                                else old(repo.View())
      ensures result.Granted? && connected && written ==>
                Lookup(repo.sessions, token, now) == Some(SessionInfo(result.uid, token, node))
    {
      var session := repo.GetSessionByToken(token, now, replied);
      if session.None? {
        return Refused("invalid token");
      }
      var uid := session.value.uid;
      var _ := repo.UpdateSessionNode(token, node, now, connected, written);
      if !known {
        return Refused("user not found");
      }
      return Granted(token, uid);
    }

    /** The answer is always true; the token is gone if the DEL went through, and every other token of the user remains. */
    method Logout(uid: string, token: string, now: Time, connected: bool, deleted: bool, offline: bool, unrouted: bool)
        returns (ok: bool)
      modifies repo
      ensures ok
      ensures Lookup(repo.sessions, token, now) == if connected && deleted then None else old(Lookup(repo.sessions, token, now))
      ensures connected && offline ==> uid !in repo.online
      ensures connected && unrouted ==> uid !in repo.userRoute
      ensures forall other: string :: other != token ==>
                Lookup(repo.sessions, other, now) == old(Lookup(repo.sessions, other, now))
      ensures connected && deleted && offline && unrouted ==> repo.View() == RevokeAll(Revoke(old(repo.View()), token), uid)
    {
      var _ := repo.RevokeSession(token, connected, deleted);
      var _ := repo.RevokeAllSessions(uid, connected, offline, unrouted);
      return true;
    }
  }
}
