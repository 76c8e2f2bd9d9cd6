/**
 The friend lists and open requests that the server keeps in memory, against the table they mirror.
 A handler's SQL statements run on a worker thread, its memory step later on an I/O loop. A run is any
 interleaving of the statements and memory steps of any number of handlers; every statement may fail,
 and the handlers go on all the same.
 */
module FriendCache {
  import opened FriendRepo
  import opened SessionManager

  type CallId = nat

  datatype Request =
    | Register(uid: string)
    | Login(uid: string)
    | Ask(from: string, to: string)
    | Answer(requester: string, responder: string, accepted: bool)
    | Unfriend(uid: string, target: string)

  /** The point a handler has reached, with what it carries to its next step. */
  datatype Note =
    | Nothing
    | FriendsRead(uid: string, friends: set<string>)                           // the requests are read next
    | LoginNote(uid: string, friends: set<string>, requesters: set<string>)
    | Accepting(requester: string, responder: string)                          // the reverse row is inserted next
    | Plain(req: Request)

  /** `loggedIn` are the users whose login has reached memory since the server started; `notes` are the handlers in flight. */
  datatype Chat = Chat(db: FriendDb, cache: Cache, loggedIn: set<string>, notes: map<CallId, Note>)

  datatype Action =
    | Start(c: CallId, req: Request, ok: bool)  // the first statement, which succeeds or fails
    | Continue(c: CallId, ok: bool)

  predicate Legal(s: Chat, a: Action) {
    match a
    case Start(c, _, _) => c !in s.notes
    case Continue(c, _) => c in s.notes
  }

  /** A request to an unknown user is not stored. */
  function FirstStatement(db: FriendDb, req: Request, ok: bool): FriendDb {
    if !ok then db else
    match req
    case Register(uid) => db.(users := db.users + {uid})
    case Login(_) => db
    case Ask(from, to) => if to in db.users then InsertIgnore(db, from, to, PENDING) else db
    case Answer(requester, responder, accepted) => Decide(db, requester, responder, accepted)
    case Unfriend(uid, target) => Remove(db, uid, target)
  }

  /** A login of an unknown user ends here; a read that fails gives an empty list. */
  function FirstNote(db: FriendDb, req: Request, ok: bool): Note {
    match req
    case Register(_) => Nothing
    case Login(uid) => if uid in db.users then FriendsRead(uid, if ok then FriendList(db, uid) else {}) else Nothing
    case Answer(requester, responder, accepted) => if ok && accepted then Accepting(requester, responder) else Plain(req)
    case _ => Plain(req)
  }

  /** The loop of `addFriendship` calls at login. */
  function AddFriends(friends: map<string, set<string>>, uid: string, fs: set<string>): map<string, set<string>> {
    map w | w in friends.Keys + fs + (if fs == {} then {} else {uid}) ::
      FriendsOf(friends, w) + (if w == uid then fs else {}) + (if w in fs then {uid} else {})
  }

  function MemoryStep(cache: Cache, note: Note): Cache {
    match note
    case LoginNote(uid, fs, rs) =>
      Cache(AddFriends(cache.friends, uid, fs), cache.pending + set r | r in rs :: Key(r, uid))
    case Plain(Ask(from, to)) => cache.(pending := cache.pending + {Key(from, to)})
    case Plain(Answer(requester, responder, accepted)) =>
      Cache(if accepted then AddFriend(cache.friends, requester, responder) else cache.friends,
            cache.pending - {Key(requester, responder)})
    case Plain(Unfriend(uid, target)) => cache.(friends := RemoveFriend(cache.friends, uid, target))
    case _ => cache
  }

  function Resume(s: Chat, c: CallId, ok: bool): Chat
    requires c in s.notes
  {
    match s.notes[c]
    case FriendsRead(uid, fs) => s.(notes := s.notes[c := LoginNote(uid, fs, if ok then PendingRequests(s.db, uid) else {})])
    case Accepting(r, t) =>
      s.(db := if ok then InsertIgnore(s.db, t, r, ACCEPTED) else s.db, notes := s.notes[c := Plain(Answer(r, t, true))])
    case note =>
      s.(cache := MemoryStep(s.cache, note),
         loggedIn := if note.LoginNote? then s.loggedIn + {note.uid} else s.loggedIn,
         notes := s.notes - {c})
  }

  function Step(s: Chat, a: Action): Chat
    requires Legal(s, a)
  {
    match a
    case Start(c, req, ok) =>
      s.(db := FirstStatement(s.db, req, ok), notes := s.notes[c := FirstNote(s.db, req, ok)])
    case Continue(c, ok) => Resume(s, c, ok)
  }

  predicate LegalRun(s: Chat, actions: seq<Action>)
    decreases |actions|
  {
    actions != [] ==> Legal(s, actions[0]) && LegalRun(Step(s, actions[0]), actions[1..])
  }

  function Run(s: Chat, actions: seq<Action>): Chat
    requires LegalRun(s, actions)
    decreases |actions|
  {
    if actions == [] then s else Run(Step(s, actions[0]), actions[1..])
  }

  const START := Cache(map[], {})

  /** Memory is empty when the server starts; the table may already hold rows. */
  function Boot(db: FriendDb): Chat {
    Chat(db, START, {}, map[])
  }

  predicate ForeignKeys(db: FriendDb) {
    forall k :: k in db.status ==> k.0 in db.users && k.1 in db.users
  }

  lemma StepForeignKeys(s: Chat, a: Action)
    requires Legal(s, a) && ForeignKeys(s.db)
    ensures ForeignKeys(Step(s, a).db)
  {
  }

  lemma ListedIffLinked(db: FriendDb, u: string, v: string)
    requires ForeignKeys(db)
    ensures v in FriendList(db, u) <==> Linked(db, u, v)
  {
    assert (u, v) in db.status ==> (u, v).1 in db.users;
    assert (v, u) in db.status ==> (v, u).0 in db.users;
  }

  // ----- friends: nothing stored is missing -----

  predicate SamePair(u: string, v: string, x: string, y: string) {
    (u == x && v == y) || (u == y && v == x)
  }

  /** The memory step to come adds the pair. */
  predicate Carries(n: Note, u: string, v: string) {
    match n
    case FriendsRead(uid, fs) => (u == uid && v in fs) || (v == uid && u in fs)
    case LoginNote(uid, fs, _) => (u == uid && v in fs) || (v == uid && u in fs)
    case Accepting(r, t) => SamePair(u, v, r, t)
    case Plain(Answer(r, t, accepted)) => accepted && SamePair(u, v, r, t)
    case _ => false
  }

  predicate Watches(n: Note, u: string) {
    (n.FriendsRead? || n.LoginNote?) && n.uid == u
  }

  /** `u` has logged in, or its login has read its friends. */
  predicate Watched(s: Chat, u: string) {
    u in s.loggedIn || exists c :: c in s.notes && Watches(s.notes[c], u)
  }

  predicate Somewhere(s: Chat, u: string, v: string) {
    v in FriendsOf(s.cache.friends, u) || exists c :: c in s.notes && Carries(s.notes[c], u, v)
  }

  /** Every stored link of a watched user is in memory or on its way there. */
  ghost predicate Tracked(s: Chat) {
    forall u, v :: Watched(s, u) && Linked(s.db, u, v) ==> Somewhere(s, u, v)
  }

  /** A login whose friends cannot be read is not the user's first, or its stored friends are known already. */
  predicate Informed(s: Chat, a: Action) {
    a.Start? && a.req.Login? && !a.ok && a.req.uid in s.db.users && !Watched(s, a.req.uid) ==>
      forall v :: v in FriendList(s.db, a.req.uid) ==> Somewhere(s, a.req.uid, v)
  }

  /**
   The memory step of a removal does not erase a pair that is still stored, or stored again, unless
   another handler in flight carries it; and logins are informed.
   */
  predicate Timely(s: Chat, a: Action)
    requires Legal(s, a)
  {
    Informed(s, a) && Spares(s, a)
  }

  predicate Spares(s: Chat, a: Action)
    requires Legal(s, a)
  {
    a.Continue? && s.notes[a.c].Plain? && s.notes[a.c].req.Unfriend? ==>
      var u, t := s.notes[a.c].req.uid, s.notes[a.c].req.target;
      Linked(s.db, u, t) && (Watched(s, u) || Watched(s, t)) ==>
        exists d :: d in s.notes && d != a.c && Carries(s.notes[d], u, t)
  }

  /** The friend lists after the memory step of `n`, user by user. */
  lemma MemoryFriends(cache: Cache, n: Note, w: string)
    ensures FriendsOf(MemoryStep(cache, n).friends, w) ==
            var before := FriendsOf(cache.friends, w);
            match n
            case LoginNote(uid, fs, _) => before + (if w == uid then fs else {}) + (if w in fs then {uid} else {})
            case Plain(Answer(r, t, accepted)) =>
              if accepted then before + (if w == r then {t} else {}) + (if w == t then {r} else {}) else before
            case Plain(Unfriend(u, t)) => before - (if w == u then {t} else {}) - (if w == t then {u} else {})
            case _ => before
  {
  }

  /** A final step: the handler leaves, and its memory step has been made. */
  predicate Final(s: Chat, a: Action) {
    a.Continue? && a.c in s.notes && !s.notes[a.c].FriendsRead? && !s.notes[a.c].Accepting?
  }

  lemma StaysSomewhere(s: Chat, a: Action, u: string, v: string)
    requires Legal(s, a) && Somewhere(s, u, v)
    requires Spares(s, a) && Linked(s.db, u, v) && (a.Continue? ==> Watched(s, u) || Watched(s, v))
    ensures Somewhere(Step(s, a), u, v)
  {
    var s' := Step(s, a);
    if Final(s, a) {
      var n := s.notes[a.c];
      MemoryFriends(s.cache, n, u);
      if n.Plain? && n.req.Unfriend? && SamePair(u, v, n.req.uid, n.req.target) {
        var d :| d in s.notes && d != a.c && Carries(s.notes[d], n.req.uid, n.req.target);
        assert d in s'.notes && Carries(s'.notes[d], u, v);
      } else if v !in FriendsOf(s.cache.friends, u) {
        var c :| c in s.notes && Carries(s.notes[c], u, v);
        assert c == a.c || (c in s'.notes && s'.notes[c] == s.notes[c]);
      }
    } else if v !in FriendsOf(s.cache.friends, u) {
      var c :| c in s.notes && Carries(s.notes[c], u, v);
      assert c in s'.notes && Carries(s'.notes[c], u, v);
    }
  }

  lemma NewlyWatchedOrLinked(s: Chat, a: Action, u: string, v: string)
    requires Legal(s, a) && ForeignKeys(s.db) && Informed(s, a)
    requires Watched(Step(s, a), u) && Linked(Step(s, a).db, u, v)
    ensures || (Watched(s, u) && Linked(s.db, u, v))
            || (a.Start? && Linked(s.db, u, v) && Somewhere(s, u, v))
            || (a.c in Step(s, a).notes && Carries(Step(s, a).notes[a.c], u, v))
  {
    var s' := Step(s, a);
    if !Linked(s.db, u, v) {
      assert a.c in s'.notes && Carries(s'.notes[a.c], u, v);
    } else if !Watched(s, u) {
      var c :| c in s'.notes && Watches(s'.notes[c], u);
      assert c == a.c;
      ListedIffLinked(s.db, u, v);
    }
  }

  lemma TimelyTracks(s: Chat, a: Action)
    requires Legal(s, a) && ForeignKeys(s.db) && Tracked(s) && Timely(s, a)
    ensures Tracked(Step(s, a))
  {
    var s' := Step(s, a);
    forall u, v | Watched(s', u) && Linked(s'.db, u, v)
      ensures Somewhere(s', u, v)
    {
      NewlyWatchedOrLinked(s, a, u, v);
      if Linked(s.db, u, v) && (Watched(s, u) || (a.Start? && Somewhere(s, u, v))) {
        StaysSomewhere(s, a, u, v);
      }
    }
  }

  lemma WatchedStays(s: Chat, a: Action, u: string)
    requires Final(s, a) && Watched(s, u)
    ensures Watched(Step(s, a), u)
  {
    var s' := Step(s, a);
    if u !in s'.loggedIn {
      var c :| c in s.notes && Watches(s.notes[c], u);
      assert c in s'.notes && Watches(s'.notes[c], u);
    }
  }

  lemma UninformedMisses(s: Chat, a: Action)
    requires Legal(s, a) && ForeignKeys(s.db) && !Informed(s, a)
    ensures !Tracked(Step(s, a))
  {
    var s' := Step(s, a);
    var v :| v in FriendList(s.db, a.req.uid) && !Somewhere(s, a.req.uid, v);
    ListedIffLinked(s.db, a.req.uid, v);
    assert s'.notes[a.c] == FriendsRead(a.req.uid, {});
    assert Watched(s', a.req.uid) && !Somewhere(s', a.req.uid, v);
  }

  lemma UntimelyLoses(s: Chat, a: Action)
    requires Legal(s, a) && ForeignKeys(s.db) && !Timely(s, a)
    ensures !Tracked(Step(s, a))
  {
    if !Informed(s, a) {
      UninformedMisses(s, a);
    } else {
      UnsparedLoses(s, a);
    }
  }

  lemma UnsparedLoses(s: Chat, a: Action)
    requires Legal(s, a) && !Spares(s, a)
    ensures !Tracked(Step(s, a))
  {
    var s' := Step(s, a);
    var u, t := s.notes[a.c].req.uid, s.notes[a.c].req.target;
    MemoryFriends(s.cache, s.notes[a.c], u);
    MemoryFriends(s.cache, s.notes[a.c], t);
    assert !Somewhere(s', u, t) && !Somewhere(s', t, u);
    if Watched(s, u) {
      WatchedStays(s, a, u);
    } else {
      WatchedStays(s, a, t);
    }
  }

  ghost predicate AlwaysTracked(s: Chat, actions: seq<Action>)
    requires LegalRun(s, actions)
    decreases |actions|
  {
    Tracked(s) && (actions != [] ==> AlwaysTracked(Step(s, actions[0]), actions[1..]))
  }

  predicate AlwaysTimely(s: Chat, actions: seq<Action>)
    requires LegalRun(s, actions)
    decreases |actions|
  {
    actions != [] ==> Timely(s, actions[0]) && AlwaysTimely(Step(s, actions[0]), actions[1..])
  }

  /** Over whole interleaved runs: no stored friend is ever missing in memory exactly when every step is timely. */
  lemma {:induction false} TrackedIffTimely(s: Chat, actions: seq<Action>)
    requires LegalRun(s, actions) && ForeignKeys(s.db) && Tracked(s)
    ensures AlwaysTracked(s, actions) <==> AlwaysTimely(s, actions)
    ensures ForeignKeys(Run(s, actions).db)
    ensures AlwaysTimely(s, actions) ==> Tracked(Run(s, actions))
    decreases |actions|
  {
    if actions != [] {
      StepForeignKeys(s, actions[0]);
      if Timely(s, actions[0]) {
        TimelyTracks(s, actions[0]);
        TrackedIffTimely(Step(s, actions[0]), actions[1..]);
      } else {
        UntimelyLoses(s, actions[0]);
        assert !Tracked(Step(s, actions[0]));
        RunForeignKeys(Step(s, actions[0]), actions[1..]);
      }
    }
  }

  lemma {:induction false} RunForeignKeys(s: Chat, actions: seq<Action>)
    requires LegalRun(s, actions) && ForeignKeys(s.db)
    ensures ForeignKeys(Run(s, actions).db)
    decreases |actions|
  {
    if actions != [] {
      StepForeignKeys(s, actions[0]);
      RunForeignKeys(Step(s, actions[0]), actions[1..]);
    }
  }

  // ----- friends: nothing in memory is stale -----

  /** The memory step to come erases the pair. */
  predicate Removes(n: Note, u: string, v: string) {
    n.Plain? && n.req.Unfriend? && SamePair(u, v, n.req.uid, n.req.target)
  }

  predicate RemovalInFlight(s: Chat, u: string, v: string) {
    exists c :: c in s.notes && Removes(s.notes[c], u, v)
  }

  /** Memory is symmetric, and what it holds is stored or about to be erased. */
  ghost predicate Sound(s: Chat) {
    forall u, v :: v in FriendsOf(s.cache.friends, u) ==>
      && u in FriendsOf(s.cache.friends, v)
      && (Linked(s.db, u, v) || RemovalInFlight(s, u, v))
  }

  /**
   A rejection does not take back the only accepted row of a pair in memory, and what an acceptance or
   a login adds to memory is still stored; unless a removal of the pair is in flight.
   */
  predicate Fresh(s: Chat, a: Action)
    requires Legal(s, a)
  {
    match a
    case Start(_, Answer(r, t, false), true) =>
      HasStatus(s.db, r, t, ACCEPTED) && t in FriendsOf(s.cache.friends, r) ==>
        (r != t && HasStatus(s.db, t, r, ACCEPTED)) || RemovalInFlight(s, r, t)
    case Start(_, _, _) => true
    case Continue(c, _) =>
      match s.notes[c]
      case Plain(Answer(r, t, true)) => Linked(s.db, r, t) || RemovalInFlight(s, r, t)
      case LoginNote(uid, fs, _) => forall f :: f in fs ==> Linked(s.db, uid, f) || RemovalInFlight(s, uid, f)
      case _ => true
  }

  lemma StaysExcused(s: Chat, a: Action, u: string, v: string)
    requires Legal(s, a) && (Linked(s.db, u, v) || RemovalInFlight(s, u, v))
    requires a.Start? && a.ok && a.req.Answer? && !a.req.accepted && SamePair(u, v, a.req.requester, a.req.responder) ==>
               Linked(Step(s, a).db, u, v) || RemovalInFlight(s, u, v)
    requires Final(s, a) ==> !Removes(s.notes[a.c], u, v)
    ensures Linked(Step(s, a).db, u, v) || RemovalInFlight(Step(s, a), u, v)
  {
    var s' := Step(s, a);
    if RemovalInFlight(s, u, v) {
      var c :| c in s.notes && Removes(s.notes[c], u, v);
      assert c in s'.notes && Removes(s'.notes[c], u, v);
    } else if a.Start? && a.ok && a.req.Unfriend? && SamePair(u, v, a.req.uid, a.req.target) {
      assert Removes(s'.notes[a.c], u, v);
    }
  }

  lemma FreshStaysSound(s: Chat, a: Action)
    requires Legal(s, a) && Sound(s) && Fresh(s, a)
    ensures Sound(Step(s, a))
  {
    var s' := Step(s, a);
    forall u, v | v in FriendsOf(s'.cache.friends, u)
      ensures u in FriendsOf(s'.cache.friends, v)
      ensures Linked(s'.db, u, v) || RemovalInFlight(s', u, v)
    {
      if Final(s, a) {
        MemoryFriends(s.cache, s.notes[a.c], u);
        MemoryFriends(s.cache, s.notes[a.c], v);
      }
      assert v in FriendsOf(s.cache.friends, u) ==> u in FriendsOf(s.cache.friends, v);
      FreshExcuses(s, a, u, v);
      StaysExcused(s, a, u, v);
    }
  }

  lemma FreshExcuses(s: Chat, a: Action, u: string, v: string)
    requires Legal(s, a) && Sound(s) && Fresh(s, a) && v in FriendsOf(Step(s, a).cache.friends, u)
    ensures Linked(s.db, u, v) || RemovalInFlight(s, u, v)
    ensures a.Start? && a.ok && a.req.Answer? && !a.req.accepted && SamePair(u, v, a.req.requester, a.req.responder) ==>
              Linked(Step(s, a).db, u, v) || RemovalInFlight(s, u, v)
    ensures Final(s, a) ==> !Removes(s.notes[a.c], u, v)
  {
    if Final(s, a) {
      MemoryFriends(s.cache, s.notes[a.c], u);
    }
    TurnRemoval(s, u, v);
    if v in FriendsOf(s.cache.friends, u) {
      assert u in FriendsOf(s.cache.friends, v);
    }
  }

  lemma TurnRemoval(s: Chat, u: string, v: string)
    ensures RemovalInFlight(s, u, v) <==> RemovalInFlight(s, v, u)
  {
    assert forall c :: c in s.notes ==> (Removes(s.notes[c], u, v) <==> Removes(s.notes[c], v, u));
  }

  lemma StaleStaysNot(s: Chat, a: Action)
    requires Legal(s, a) && !Fresh(s, a)
    ensures !Sound(Step(s, a))
  {
    var s' := Step(s, a);
    if a.Start? {
      var r, t := a.req.requester, a.req.responder;
      assert t in FriendsOf(s'.cache.friends, r) && !Linked(s'.db, r, t) && !RemovalInFlight(s', r, t);
    } else if s.notes[a.c].Plain? {
      var r, t := s.notes[a.c].req.requester, s.notes[a.c].req.responder;
      MemoryFriends(s.cache, s.notes[a.c], r);
      assert t in FriendsOf(s'.cache.friends, r) && !Linked(s'.db, r, t) && !RemovalInFlight(s', r, t);
    } else {
      var uid := s.notes[a.c].uid;
      var f :| f in s.notes[a.c].friends && !Linked(s.db, uid, f) && !RemovalInFlight(s, uid, f);
      MemoryFriends(s.cache, s.notes[a.c], uid);
      assert f in FriendsOf(s'.cache.friends, uid) && !Linked(s'.db, uid, f) && !RemovalInFlight(s', uid, f);
    }
  }

  ghost predicate AlwaysSound(s: Chat, actions: seq<Action>)
    requires LegalRun(s, actions)
    decreases |actions|
  {
    Sound(s) && (actions != [] ==> AlwaysSound(Step(s, actions[0]), actions[1..]))
  }

  predicate AlwaysFresh(s: Chat, actions: seq<Action>)
    requires LegalRun(s, actions)
    decreases |actions|
  {
    actions != [] ==> Fresh(s, actions[0]) && AlwaysFresh(Step(s, actions[0]), actions[1..])
  }

  /** Over whole interleaved runs: memory is never stale exactly when every step is fresh. */
  lemma {:induction false} SoundIffFresh(s: Chat, actions: seq<Action>)
    requires LegalRun(s, actions) && Sound(s)
    ensures AlwaysSound(s, actions) <==> AlwaysFresh(s, actions)
    ensures AlwaysFresh(s, actions) ==> Sound(Run(s, actions))
    decreases |actions|
  {
    if actions != [] {
      if Fresh(s, actions[0]) {
        FreshStaysSound(s, actions[0]);
        SoundIffFresh(Step(s, actions[0]), actions[1..]);
      } else {
        StaleStaysNot(s, actions[0]);
        assert !Sound(Step(s, actions[0]));
      }
    }
  }

  /**
   In an interleaved run of timely and fresh steps, once no handler is in flight, the friend list in memory
   of a user who has logged in since the start is exactly the stored one.
   */
  lemma QuietListsAgree(db: FriendDb, actions: seq<Action>, u: string)
    requires ForeignKeys(db) && LegalRun(Boot(db), actions)
    requires AlwaysTimely(Boot(db), actions) && AlwaysFresh(Boot(db), actions)
    requires Run(Boot(db), actions).notes == map[] && u in Run(Boot(db), actions).loggedIn
    ensures var s := Run(Boot(db), actions); FriendsOf(s.cache.friends, u) == FriendList(s.db, u)
  {
    TrackedIffTimely(Boot(db), actions);
    SoundIffFresh(Boot(db), actions);
    QuietExact(Run(Boot(db), actions), u);
  }

  lemma QuietExact(s: Chat, u: string)
    requires ForeignKeys(s.db) && Tracked(s) && Sound(s) && s.notes == map[] && u in s.loggedIn
    ensures FriendsOf(s.cache.friends, u) == FriendList(s.db, u)
  {
    forall v ensures v in FriendsOf(s.cache.friends, u) <==> v in FriendList(s.db, u) {
      ListedIffLinked(s.db, u, v);
      assert Linked(s.db, u, v) ==> Somewhere(s, u, v);
    }
  }

  // ----- what the statements leave in the table -----

  /** The users whose registration gets through. */
  function Registered(actions: seq<Action>): set<string> {
    if actions == [] then {}
    else (if actions[0].Start? && actions[0].ok && actions[0].req.Register? then {actions[0].req.uid} else {}) + Registered(actions[1..])
  }

  lemma {:induction false} UsersAreRegistered(s: Chat, actions: seq<Action>)
    requires LegalRun(s, actions)
    ensures Run(s, actions).db.users == s.db.users + Registered(actions)
    decreases |actions|
  {
    if actions != [] {
      UsersAreRegistered(Step(s, actions[0]), actions[1..]);
    }
  }

  /**
   A rejection leaves the row with status 2, and asking again does not open it: the insert meets the row.
   */
  lemma RejectedCannotAskAgain(s: Chat, c: CallId, d: CallId, r: string, t: string)
    requires c !in s.notes && d !in s.notes && c != d && (r, t) in s.db.status
    ensures var rejected := Step(s, Start(c, Answer(r, t, false), true));
            Step(rejected, Start(d, Ask(r, t), true)).db.status == s.db.status[(r, t) := 2]
  {
  }

  /** No removal of the pair and no acceptance of the request gets through. */
  predicate LeavesRejected(a: Action, r: string, t: string) {
    a.Start? && a.ok ==>
      && !(a.req.Unfriend? && SamePair(r, t, a.req.uid, a.req.target))
      && !(a.req.Answer? && a.req.accepted && a.req.requester == r && a.req.responder == t)
  }

  /** Over any interleaved run: exactly a removal of the pair or an acceptance of the request ends a rejection. */
  lemma StaysRejectedIff(s: Chat, a: Action, r: string, t: string)
    requires Legal(s, a) && (r, t) in s.db.status && s.db.status[(r, t)] == 2
    ensures ((r, t) in Step(s, a).db.status && Step(s, a).db.status[(r, t)] == 2) <==> LeavesRejected(a, r, t)
  {
  }

  lemma {:induction false} RejectionLasts(s: Chat, actions: seq<Action>, r: string, t: string)
    requires LegalRun(s, actions) && (r, t) in s.db.status && s.db.status[(r, t)] == 2
    requires forall a :: a in actions ==> LeavesRejected(a, r, t)
    ensures (r, t) in Run(s, actions).db.status && Run(s, actions).db.status[(r, t)] == 2
    ensures r !in PendingRequests(Run(s, actions).db, t)
    decreases |actions|
  {
    if actions != [] {
      StaysRejectedIff(s, actions[0], r, t);
      RejectionLasts(Step(s, actions[0]), actions[1..], r, t);
    } else {
      PendingListed(s.db, r, t);
    }
  }

  /** The query for open requests lists exactly the requesters of rows with status 0. */
  lemma PendingListed(db: FriendDb, r: string, t: string)
    ensures r in PendingRequests(db, t) <==> (r, t) in db.status && db.status[(r, t)] == 0
  {
    assert (r, t) in db.status ==> (r, t).0 == r && (r, t).1 == t;
  }

  /** The first request of a pair is open until it is answered or removed; an answer gives it status 1 or 2, a removal its end. */
  lemma RequestLifeCycle(s: Chat, c: CallId, r: string, t: string)
    requires c !in s.notes && r in s.db.users && t in s.db.users
    ensures (r, t) !in s.db.status ==> Step(s, Start(c, Ask(r, t), true)).db.status == s.db.status[(r, t) := 0]
    ensures (r, t) in s.db.status ==>
              && Step(s, Start(c, Ask(r, t), true)).db.status == s.db.status
              && Step(s, Start(c, Answer(r, t, true), true)).db.status == s.db.status[(r, t) := 1]
              && Step(s, Start(c, Answer(r, t, false), true)).db.status == s.db.status[(r, t) := 2]
    ensures Step(s, Start(c, Unfriend(r, t), true)).db.status == s.db.status - {(r, t), (t, r)}
    ensures forall u :: Step(s, Start(c, Register(u), true)).db.users == s.db.users + {u}
  {
  }

  /** An acceptance that gets through links the pair in both directions, unless the reverse row has another status already. */
  lemma AcceptanceLinks(s: Chat, c: CallId, r: string, t: string)
    requires c !in s.notes && (r, t) in s.db.status && ForeignKeys(s.db)
    ensures var accepted := Step(Step(s, Start(c, Answer(r, t, true), true)), Continue(c, true));
            && accepted.db.status[(r, t)] == 1
            && (t, r) in accepted.db.status
            && accepted.db.status[(t, r)] == (if (t, r) in s.db.status && r != t then s.db.status[(t, r)] else 1)
            && r in FriendList(accepted.db, t) && t in FriendList(accepted.db, r)
  {
    assert (r, t).0 in s.db.users && (r, t).1 in s.db.users;
  }
}
