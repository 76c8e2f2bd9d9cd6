/** The server's memory of who is online, who is friends with whom, and which friend requests are open. */
module SessionManager {
  type Conn = nat

  datatype Session = Session(uid: string, token: string, authenticated: bool)

  const NO_SESSION := Session("", "", false)

  /** `contexts` has no entry for a connection whose context was never set. */
  datatype Online = Online(users: map<string, Conn>, contexts: map<Conn, Session>, connected: set<Conn>)

  datatype Cache = Cache(friends: map<string, set<string>>, pending: set<string>)

  function UidOf(o: Online, c: Conn): string {
    if c in o.contexts then o.contexts[c].uid else ""
  }

  // ----- who is online -----

  function Connected(o: Online, c: Conn): Online {
    o.(connected := o.connected + {c})
  }

  /** The entry of the connection's user goes, whichever connection it names. */
  function Disconnected(o: Online, c: Conn): Online {
    o.(connected := o.connected - {c}, users := if UidOf(o, c) == "" then o.users else o.users - {UidOf(o, c)})
  }

  function Authenticated(o: Online, c: Conn, uid: string, token: string): Online {
    o.(users := o.users[uid := c], contexts := o.contexts[c := Session(uid, token, true)])
  }

  function Deauthenticated(o: Online, c: Conn): Online {
    o.(users := if UidOf(o, c) == "" then o.users else o.users - {UidOf(o, c)}, contexts := o.contexts[c := NO_SESSION])
  }

  /** The members that are online under connection `c`. */
  function Reached(users: map<string, Conn>, members: set<string>, c: Conn): set<string> {
    set m | m in members && m in users && users[m] == c
  }

  /** `sent` holds one copy per online member. */
  ghost predicate OneEach(users: map<string, Conn>, members: set<string>, sent: seq<Conn>) {
    forall c: Conn :: multiset(sent)[c] == |Reached(users, members, c)|
  }

  lemma SentNext(users: map<string, Conn>, done: set<string>, sent: seq<Conn>, m: string)
    requires OneEach(users, done, sent) && m !in done
    ensures OneEach(users, done + {m}, if m in users then sent + [users[m]] else sent)
  {
    forall c: Conn
      ensures multiset(if m in users then sent + [users[m]] else sent)[c] == |Reached(users, done + {m}, c)|
    {
      assert Reached(users, done + {m}, c) ==
             Reached(users, done, c) + if m in users && users[m] == c then {m} else {};
      assert multiset(sent)[c] == |Reached(users, done, c)|;
    }
  }

  // ----- friends and requests -----

  function FriendsOf(friends: map<string, set<string>>, uid: string): set<string> {
    if uid in friends then friends[uid] else {}
  }

  function AddFriend(friends: map<string, set<string>>, u: string, v: string): map<string, set<string>> {
    var one := friends[u := FriendsOf(friends, u) + {v}];
    one[v := FriendsOf(one, v) + {u}]
  }

  function RemoveFriend(friends: map<string, set<string>>, u: string, v: string): map<string, set<string>> {
    var one := friends[u := FriendsOf(friends, u) - {v}];
    one[v := FriendsOf(one, v) - {u}]
  }

  /** The key under which an open request is remembered. */
  function Key(requester: string, target: string): string {
    requester + ":" + target
  }

  class SessionManager {
    var users: map<string, Conn>
    var contexts: map<Conn, Session>
    ghost var connected: set<Conn>  // the library's view of the connections
    var friendships: map<string, set<string>>
    var pending: set<string>

    ghost function OnlineView(): Online
      reads this
    {
      Online(users, contexts, connected)
    }

    function CacheView(): Cache
      reads this
    {
      Cache(friendships, pending)
    }

    constructor ()
      ensures OnlineView() == Online(map[], map[], {})
      ensures CacheView() == Cache(map[], {})
    {
      users, contexts, connected, friendships, pending := map[], map[], {}, map[], {};
    }

    /** The source only logs here; the library counts the connection as up. */
    method OnConnection(c: Conn)
      modifies this`connected
      ensures OnlineView() == Connected(old(OnlineView()), c)
    {
      connected := connected + {c};
    }

    method OnDisconnection(c: Conn)
      modifies this`users, this`connected
      ensures OnlineView() == Disconnected(old(OnlineView()), c)
      ensures users == if c in contexts && contexts[c].uid != "" then old(users) - {contexts[c].uid} else old(users)
    {
      connected := connected - {c};
      if c !in contexts {
        return;
      }
      var s := contexts[c];
      if s.uid != "" {
        users := users - {s.uid};
      }
    }

    method Authenticate(c: Conn, uid: string, token: string) returns (ok: bool)
      modifies this`users, this`contexts
      ensures ok && OnlineView() == Authenticated(old(OnlineView()), c, uid, token)
      ensures users == old(users)[uid := c] && contexts == old(contexts)[c := Session(uid, token, true)]
    {
      users := users[uid := c];
      var s := NO_SESSION;
      s := s.(uid := uid);
      s := s.(token := token);
      s := s.(authenticated := true);
      contexts := contexts[c := s];
      return true;
    }

    method Deauthenticate(c: Conn)
      modifies this`users, this`contexts
      ensures OnlineView() == Deauthenticated(old(OnlineView()), c)
      ensures contexts == old(contexts)[c := Session("", "", false)]
      ensures users == if c in old(contexts) && old(contexts)[c].uid != "" then old(users) - {old(contexts)[c].uid} else old(users)
    {
      if c in contexts && contexts[c].uid != "" {
        users := users - {contexts[c].uid};
      }
      contexts := contexts[c := NO_SESSION];
    }

    method AddFriendship(u: string, v: string)
      modifies this`friendships
      ensures friendships == AddFriend(old(friendships), u, v)
      ensures forall w :: FriendsOf(friendships, w) ==
                FriendsOf(old(friendships), w) + (if w == u then {v} else {}) + (if w == v then {u} else {})
    {
      friendships := friendships[u := (if u in friendships then friendships[u] else {}) + {v}];
      friendships := friendships[v := (if v in friendships then friendships[v] else {}) + {u}];
    }

    method RemoveFriendship(u: string, v: string)
      modifies this`friendships
      ensures friendships == RemoveFriend(old(friendships), u, v)
      ensures forall w :: FriendsOf(friendships, w) ==
                FriendsOf(old(friendships), w) - (if w == u then {v} else {}) - (if w == v then {u} else {})
    {
      friendships := friendships[u := (if u in friendships then friendships[u] else {}) - {v}];
      friendships := friendships[v := (if v in friendships then friendships[v] else {}) - {u}];
    }

    method AddPendingRequest(requester: string, target: string)
      modifies this`pending
      ensures pending == old(pending) + {Key(requester, target)} == old(pending) + {requester + ":" + target}
    {
      pending := pending + {requester + ":" + target};
    }

    method RemovePendingRequest(requester: string, target: string)
      modifies this`pending
      ensures pending == old(pending) - {Key(requester, target)} == old(pending) - {requester + ":" + target}
    {
      pending := pending - {requester + ":" + target};
    }

    /**
     The sending loop of a room broadcast and of a room recall: one copy per member that has a connection.
     The order of the members is left open.
     */
    method SendToMembers(members: set<string>) returns (sent: seq<Conn>)
      ensures OneEach(users, members, sent)
    {
      sent := [];
      var todo := members;
      ghost var done := {};
      while todo != {}
        invariant done + todo == members && done !! todo
        invariant OneEach(users, done, sent)
        decreases |todo|
      {
        var member :| member in todo;
        SentNext(users, done, sent, member);
        if member in users {
          sent := sent + [users[member]];
        }
        todo := todo - {member};
        done := done + {member};
      }
      assert done == members;
    }
  }
}
