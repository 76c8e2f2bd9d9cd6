/** The `friendships` table and its transitions. */
module FriendRepo {
  const PENDING := 0
  const ACCEPTED := 1
  const REJECTED := 2

  /** `status` has one entry per row; the key is the UNIQUE pair (requester_uid, target_uid). */
  datatype FriendDb = FriendDb(users: set<string>, status: map<(string, string), int>)

  /** INSERT IGNORE: nothing happens when the row exists or a foreign key is violated. */
  function InsertIgnore(db: FriendDb, requester: string, target: string, status: int): FriendDb {
    if (requester, target) in db.status || requester !in db.users || target !in db.users then db
    else db.(status := db.status[(requester, target) := status])
  }

  /** The UPDATE of `respondFriendRequest`; it does not look at the old status. */
  function Decide(db: FriendDb, requester: string, responder: string, accepted: bool): FriendDb {
    if (requester, responder) in db.status
    then db.(status := db.status[(requester, responder) := if accepted then ACCEPTED else REJECTED])
    else db
  }

  function Remove(db: FriendDb, u: string, v: string): FriendDb {
    db.(status := db.status - {(u, v), (v, u)})
  }

  predicate HasStatus(db: FriendDb, requester: string, target: string, status: int) {
    (requester, target) in db.status && db.status[(requester, target)] == status
  }

  /** An accepted row in either direction. */
  predicate Linked(db: FriendDb, u: string, v: string) {
    HasStatus(db, u, v, ACCEPTED) || HasStatus(db, v, u, ACCEPTED)
  }

  /** What the two-direction UNION query of `getFriendList` returns, as a set of uids. */
  function FriendList(db: FriendDb, uid: string): set<string> {
    (set u | u in db.users && HasStatus(db, uid, u, ACCEPTED)) + (set u | u in db.users && HasStatus(db, u, uid, ACCEPTED))
  }

  function PendingRequests(db: FriendDb, uid: string): set<string> {
    set k | k in db.status && k.1 == uid && db.status[k] == PENDING :: k.0
  }

  class MySQLFriendRepo {
    var users: set<string>
    var status: map<(string, string), int>

    function View(): FriendDb
      reads this
    {
      FriendDb(users, status)
    }

    constructor ()
      ensures View() == FriendDb({}, map[])
    {
      users, status := {}, map[];
    }

    method Register(uid: string)
      modifies this`users
      ensures users == old(users) + {uid}
    {
      users := users + {uid};
    }

    /** `served`: the pool gave a connection and the statement succeeded. */
    method AddFriendRequest(from: string, to: string, served: bool) returns (ok: bool)
      modifies this`status
      ensures ok == served
      ensures View() == if served then InsertIgnore(old(View()), from, to, PENDING) else old(View())
      ensures status == if served && (from, to) !in old(status) && from in users && to in users
                        then old(status)[(from, to) := 0] else old(status)
    {
      if served && (from, to) !in status && from in users && to in users {
        status := status[(from, to) := PENDING];
      }
      return served;
    }

    /** The outcome of the second statement is ignored. */
    method RespondFriendRequest(requester: string, responder: string, accepted: bool, served: bool, inserted: bool)
        returns (ok: bool)
      modifies this`status
      ensures ok == served
      ensures var decided := Decide(old(View()), requester, responder, accepted);
              View() == if !served then old(View())
                        else if accepted && inserted then InsertIgnore(decided, responder, requester, ACCEPTED)
                        else decided
      ensures served && (requester, responder) in old(status) ==>
                (requester, responder) in status && status[(requester, responder)] == if accepted then 1 else 2
      ensures forall k :: k in old(status) && k != (requester, responder) ==> k in status && status[k] == old(status)[k]
    {
      if !served {
        return false;
      }
      var newStatus := if accepted then ACCEPTED else REJECTED;
      if (requester, responder) in status {
        status := status[(requester, responder) := newStatus];
      }
      if accepted && inserted {
        if (responder, requester) !in status && responder in users && requester in users {
          status := status[(responder, requester) := ACCEPTED];
        }
      }
      return true;
    }

    method RemoveFriends(u: string, v: string, served: bool) returns (ok: bool)
      modifies this`status
      ensures ok == served
      ensures View() == if served then Remove(old(View()), u, v) else old(View())
      ensures status == if served then old(status) - {(u, v), (v, u)} else old(status)
    {
      if served {
        status := status - {(u, v), (v, u)};
      }
      return served;
    }
  }
}
