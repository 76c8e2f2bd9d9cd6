/** When the map of online users can be trusted, and what a room broadcast then sends. */
module OnlineMap {
  import opened SessionManager

  datatype Action =
    | Connect(c: Conn)
    | Disconnect(c: Conn)
    | Login(c: Conn, uid: string, token: string)
    | Logout(c: Conn)

  /** A connection object is connected once; its context starts empty. */
  predicate Legal(o: Online, a: Action) {
    match a
    case Connect(c) => c !in o.connected && c !in o.contexts && c !in o.users.Values
    case Login(_, uid, _) => uid != ""
    case _ => true
  }

  function Step(o: Online, a: Action): Online {
    match a
    case Connect(c) => Connected(o, c)
    case Disconnect(c) => Disconnected(o, c)
    case Login(c, uid, token) => Authenticated(o, c, uid, token)
    case Logout(c) => Deauthenticated(o, c)
  }

  function Run(o: Online, actions: seq<Action>): Online
    decreases |actions|
  {
    if actions == [] then o else Run(Step(o, actions[0]), actions[1..])
  }

  const START := Online(map[], map[], {})

  /** Whether `c` is up after the events, given whether it was before: its last connect or disconnect decides. */
  predicate Up(actions: seq<Action>, c: Conn, before: bool)
    decreases |actions|
  {
    if actions == [] then before
    else Up(actions[1..], c, if actions[0] == Connect(c) then true else if actions[0] == Disconnect(c) then false else before)
  }

  lemma {:induction false} ConnectedIsUp(o: Online, actions: seq<Action>, c: Conn)
    ensures c in Run(o, actions).connected <==> Up(actions, c, c in o.connected)
    decreases |actions|
  {
    if actions != [] {
      ConnectedIsUp(Step(o, actions[0]), actions[1..], c);
    }
  }

  /** An online user's connection is up, and its context says it is that user's. */
  predicate Sound(o: Online) {
    forall u :: u in o.users ==>
      && u != ""
      && o.users[u] in o.connected
      && o.users[u] in o.contexts
      && o.contexts[o.users[u]].authenticated
      && o.contexts[o.users[u]].uid == u
  }

  /** The connection is still up, and no other user is listed under it. */
  predicate CleanLogin(o: Online, a: Action) {
    a.Login? ==> a.c in o.connected && forall u :: u in o.users && u != a.uid ==> o.users[u] != a.c
  }

  /** One step from a sound map leaves it sound exactly when it is not an unclean login. */
  lemma StepSoundIffClean(o: Online, a: Action)
    requires Sound(o) && Legal(o, a)
    ensures Sound(Step(o, a)) <==> CleanLogin(o, a)
  {
    var o' := Step(o, a);
    if a.Login? {
      assert o'.users[a.uid] == a.c;
      if a.c !in o.connected {
        assert !Sound(o');
      } else if !CleanLogin(o, a) {
        var u :| u in o.users && u != a.uid && o.users[u] == a.c;
        assert o'.users[u] == a.c;
      }
    }
  }

  predicate LegalRun(o: Online, actions: seq<Action>)
    decreases |actions|
  {
    actions != [] ==> Legal(o, actions[0]) && LegalRun(Step(o, actions[0]), actions[1..])
  }

  predicate AlwaysClean(o: Online, actions: seq<Action>)
    decreases |actions|
  {
    actions != [] ==> CleanLogin(o, actions[0]) && AlwaysClean(Step(o, actions[0]), actions[1..])
  }

  predicate AlwaysSound(o: Online, actions: seq<Action>)
    decreases |actions|
  {
    Sound(o) && (actions != [] ==> AlwaysSound(Step(o, actions[0]), actions[1..]))
  }

  /** Over whole runs: the map is sound after every step exactly when every login was clean. */
  lemma {:induction false} SoundIffCleanLogins(o: Online, actions: seq<Action>)
    requires Sound(o) && LegalRun(o, actions)
    ensures AlwaysSound(o, actions) <==> AlwaysClean(o, actions)
    ensures AlwaysClean(o, actions) ==> Sound(Run(o, actions))
    decreases |actions|
  {
    if actions != [] {
      StepSoundIffClean(o, actions[0]);
      if CleanLogin(o, actions[0]) {
        SoundIffCleanLogins(Step(o, actions[0]), actions[1..]);
      } else {
        assert !Sound(Step(o, actions[0]));
      }
    }
  }

  /** A caller's rule that needs no look at the map: log in only on a connection that is up and not yet another user's. */
  lemma FreshConnectionIsClean(o: Online, a: Action)
    requires Sound(o) && a.Login? && a.c in o.connected
    requires a.c in o.contexts && o.contexts[a.c].authenticated ==> o.contexts[a.c].uid == a.uid
    ensures CleanLogin(o, a)
  {
  }

  /** A login whose continuation runs after its connection went down is remembered until the user's next login or logout. */
  lemma {:induction false} LateLoginLingers(o: Online, c: Conn, uid: string, actions: seq<Action>)
    requires uid != "" && uid in o.users && o.users[uid] == c && c !in o.connected
    requires LegalRun(o, actions)
    requires forall a :: a in actions && a.Login? ==> a.uid != uid
    requires forall d :: d in o.contexts && o.contexts[d].uid == uid ==> d == c
    requires forall a :: a in actions && (a.Logout? || a.Disconnect?) ==> a.c != c
    ensures uid in Run(o, actions).users && Run(o, actions).users[uid] == c && c !in Run(o, actions).connected
    decreases |actions|
  {
    if actions != [] {
      LateLoginLingers(Step(o, actions[0]), c, uid, actions[1..]);
    }
  }

  // ----- when nobody who is there is missing -----

  predicate Present(o: Online, c: Conn) {
    c in o.connected && c in o.contexts && o.contexts[c].authenticated
  }

  /** The user of every connection that is up and authenticated is listed, under this connection or another. */
  predicate Complete(o: Online) {
    forall c :: c in o.connected && Present(o, c) ==> o.contexts[c].uid in o.users
  }

  /** When a connection goes down or logs out, its user is on no other one. */
  predicate LastOfUser(o: Online, a: Action) {
    (a.Disconnect? || a.Logout?) && UidOf(o, a.c) != "" ==>
      forall d :: d in o.connected && d != a.c && Present(o, d) ==> o.contexts[d].uid != UidOf(o, a.c)
  }

  lemma StepCompleteIffLast(o: Online, a: Action)
    requires Complete(o) && Legal(o, a)
    ensures Complete(Step(o, a)) <==> LastOfUser(o, a)
  {
    var o' := Step(o, a);
    if !LastOfUser(o, a) {
      var d :| d in o.connected && d != a.c && Present(o, d) && o.contexts[d].uid == UidOf(o, a.c);
      assert Present(o', d);
    } else {
      assert forall c :: Present(o', c) ==> (a.Login? && c == a.c) || Present(o, c);
    }
  }

  predicate AlwaysLast(o: Online, actions: seq<Action>)
    decreases |actions|
  {
    actions != [] ==> LastOfUser(o, actions[0]) && AlwaysLast(Step(o, actions[0]), actions[1..])
  }

  predicate AlwaysComplete(o: Online, actions: seq<Action>)
    decreases |actions|
  {
    Complete(o) && (actions != [] ==> AlwaysComplete(Step(o, actions[0]), actions[1..]))
  }

  /** Over whole runs: nobody who is there is ever missing from the map exactly when users leave their last connection only. */
  lemma {:induction false} CompleteIffLast(o: Online, actions: seq<Action>)
    requires Complete(o) && LegalRun(o, actions)
    ensures AlwaysComplete(o, actions) <==> AlwaysLast(o, actions)
    ensures AlwaysLast(o, actions) ==> Complete(Run(o, actions))
    decreases |actions|
  {
    if actions != [] {
      StepCompleteIffLast(o, actions[0]);
      if LastOfUser(o, actions[0]) {
        CompleteIffLast(Step(o, actions[0]), actions[1..]);
      } else {
        assert !Complete(Step(o, actions[0]));
      }
    }
  }

  // ----- broadcasts -----

  /**
   With a sound map a broadcast sends a connection one copy when its user is a member listed under it,
   and none otherwise: every listed member is reached, and nobody twice.
   */
  lemma OneCopyEach(o: Online, members: set<string>, c: Conn)
    requires Sound(o)
    ensures |Reached(o.users, members, c)| ==
            if UidOf(o, c) in members && UidOf(o, c) in o.users && o.users[UidOf(o, c)] == c then 1 else 0
  {
    var u := UidOf(o, c);
    assert Reached(o.users, members, c) == if u in members && u in o.users && o.users[u] == c then {u} else {};
  }

  /** With a complete map, too, every member who is there gets its copy on a connection of its own. */
  lemma PresentMembersAreReached(o: Online, members: set<string>, c: Conn) returns (d: Conn)
    requires Sound(o) && Complete(o) && Present(o, c) && o.contexts[c].uid in members
    ensures Present(o, d) && o.contexts[d].uid == o.contexts[c].uid
    ensures |Reached(o.users, members, d)| == 1
  {
    d := o.users[o.contexts[c].uid];
    OneCopyEach(o, members, d);
  }
}
