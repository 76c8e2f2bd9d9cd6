/**
 Room creation and joining: the `rooms` and `room_members` tables, the service calls that work on
 them statement by statement, and the member sets the server keeps in memory.
 */
module Rooms {
  import opened Common

  type RoomId = nat
  type CallId = nat

  /** `rooms` maps the UNIQUE name to the id; `members` holds the PRIMARY KEY pairs of `room_members`. */
  datatype RoomDb = RoomDb(users: set<string>, rooms: map<string, RoomId>, lastId: RoomId, members: set<(RoomId, string)>)

  type Memory = map<string, set<string>>

  /** The point a handler has reached. */
  datatype Call =
    | InsertRoom(name: string, uid: string)                // no room of the name was seen
    | InsertOwner(name: string, uid: string, id: RoomId)
    | CreateInMemory(name: string, uid: string)
    | InsertMember(name: string, uid: string, id: RoomId)
    | JoinInMemory(name: string, uid: string)

  datatype State = State(
    db: RoomDb,
    memory: Memory,
    calls: map<CallId, Call>,
    created: seq<string>  // history: names of the successful creations since the start
  )

  datatype Action =
    | StartCreate(c: CallId, name: string, uid: string, looked: bool)  // `looked`: the query for the name succeeds
    | StartJoin(c: CallId, name: string, uid: string, looked: bool)
    | Continue(c: CallId, ok: bool)  // the next statement succeeds or fails, or the memory step is made
    | Register(uid: string)

  predicate Legal(s: State, a: Action) {
    match a
    case StartCreate(c, _, uid, _) => c !in s.calls && uid in s.db.users
    case StartJoin(c, _, uid, _) => c !in s.calls && uid in s.db.users
    case Continue(c, _) => c in s.calls
    case Register(_) => true
  }

  /** INSERT IGNORE INTO room_members: the foreign keys must hold. */
  function AddMember(db: RoomDb, id: RoomId, uid: string): RoomDb {
    if uid in db.users && id in db.rooms.Values then db.(members := db.members + {(id, uid)}) else db
  }

  /** `RoomManager::createRoom`: an existing entry is left alone. */
  function MemoryCreate(m: Memory, name: string, uid: string): Memory {
    if name in m then m else m[name := {uid}]
  }

  /** `RoomManager::joinRoom`: an unknown room is not entered. */
  function MemoryJoin(m: Memory, name: string, uid: string): Memory {
    if name in m then m[name := m[name] + {uid}] else m
  }

  function Held(m: Memory, name: string): set<string> {
    if name in m then m[name] else {}
  }

  /** A failed insert ends the handler, except the owner's, whose outcome is ignored. */
  function Resume(s: State, c: CallId, ok: bool): State
    requires c in s.calls
  {
    match s.calls[c]
    case InsertRoom(name, uid) =>
      if !ok || name in s.db.rooms || uid !in s.db.users then s.(calls := s.calls - {c})
      else
        var id := s.db.lastId + 1;
        s.(db := s.db.(rooms := s.db.rooms[name := id], lastId := id),
           created := s.created + [name],
           calls := s.calls[c := InsertOwner(name, uid, id)])
    case InsertOwner(name, uid, id) =>
      s.(db := if ok then AddMember(s.db, id, uid) else s.db, calls := s.calls[c := CreateInMemory(name, uid)])
    case CreateInMemory(name, uid) =>
      s.(memory := MemoryCreate(s.memory, name, uid), calls := s.calls - {c})
    case InsertMember(name, uid, id) =>
      if !ok then s.(calls := s.calls - {c})
      else s.(db := AddMember(s.db, id, uid), calls := s.calls[c := JoinInMemory(name, uid)])
    case JoinInMemory(name, uid) =>
      s.(memory := MemoryJoin(s.memory, name, uid), calls := s.calls - {c})
  }

  function Step(s: State, a: Action): State
    requires Legal(s, a)
  {
    match a
    case StartCreate(c, name, uid, looked) =>
      if looked && name in s.db.rooms then s else s.(calls := s.calls[c := InsertRoom(name, uid)])
    case StartJoin(c, name, uid, looked) =>
      if !looked || name !in s.db.rooms then s else s.(calls := s.calls[c := InsertMember(name, uid, s.db.rooms[name])])
    case Continue(c, ok) => Resume(s, c, ok)
    case Register(uid) => s.(db := s.db.(users := s.db.users + {uid}))
  }

  predicate LegalRun(s: State, actions: seq<Action>)
    decreases |actions|
  {
    actions != [] ==> Legal(s, actions[0]) && LegalRun(Step(s, actions[0]), actions[1..])
  }

  function Run(s: State, actions: seq<Action>): State
    requires LegalRun(s, actions)
    decreases |actions|
  {
    if actions == [] then s else Run(Step(s, actions[0]), actions[1..])
  }

  predicate Consistent(db: RoomDb) {
    && (forall n, m :: n in db.rooms && m in db.rooms && n != m ==> db.rooms[n] != db.rooms[m])
    && (forall n :: n in db.rooms ==> db.rooms[n] <= db.lastId)
    && (forall p :: p in db.members ==> p.0 <= db.lastId)
  }

  /** Memory is empty when the server starts; the tables may already hold rooms. */
  function Boot(db: RoomDb): State {
    State(db, map[], map[], [])
  }

  // ----- what every interleaving keeps -----

  predicate CallFits(s: State, call: Call) {
    && call.uid in s.db.users
    && match call
       case InsertRoom(_, _) => true
       case InsertOwner(name, _, id) => name in s.db.rooms && s.db.rooms[name] == id
       case InsertMember(name, _, id) => name in s.db.rooms && s.db.rooms[name] == id
       case CreateInMemory(name, _) => name in s.db.rooms
       case JoinInMemory(name, uid) => name in s.db.rooms && (s.db.rooms[name], uid) in s.db.members
  }

  ghost predicate Fits(s: State) {
    Consistent(s.db) && forall c :: c in s.calls ==> CallFits(s, s.calls[c])
  }

  /** Every member in memory is a member in the table. */
  ghost predicate Backed(s: State) {
    forall name, u :: u in Held(s.memory, name) ==> Stored(s, name, u)
  }

  predicate Stored(s: State, name: string, u: string) {
    name in s.db.rooms && (s.db.rooms[name], u) in s.db.members
  }

  /** The names created since the start are distinct and taken. */
  predicate Unique(s: State) {
    Distinct(s.created) && forall name :: name in s.created ==> name in s.db.rooms
  }

  lemma StepConsistent(s: State, a: Action)
    requires Legal(s, a) && Fits(s)
    ensures Consistent(Step(s, a).db)
  {
    if a.Continue? {
      assert CallFits(s, s.calls[a.c]);
    }
  }

  lemma StaysFit(s: State, a: Action, call: Call)
    requires Legal(s, a) && CallFits(s, call)
    ensures CallFits(Step(s, a), call)
  {
  }

  lemma ContinuesFit(s: State, c: CallId, ok: bool)
    requires c in s.calls && CallFits(s, s.calls[c]) && c in Resume(s, c, ok).calls
    ensures CallFits(Resume(s, c, ok), Resume(s, c, ok).calls[c])
  {
  }

  lemma StepFits(s: State, a: Action)
    requires Legal(s, a) && Fits(s)
    ensures Fits(Step(s, a))
  {
    var s' := Step(s, a);
    StepConsistent(s, a);
    forall c | c in s'.calls ensures CallFits(s', s'.calls[c]) {
      if a.Continue? && a.c == c {
        ContinuesFit(s, c, a.ok);
      } else if c in s.calls {
        StaysFit(s, a, s.calls[c]);
      }
    }
  }

  lemma StepUnique(s: State, a: Action)
    requires Legal(s, a) && Unique(s)
    ensures Unique(Step(s, a))
  {
  }

  lemma {:induction false} RunFits(s: State, actions: seq<Action>)
    requires LegalRun(s, actions) && Fits(s) && Unique(s)
    ensures Fits(Run(s, actions)) && Unique(Run(s, actions))
    decreases |actions|
  {
    if actions != [] {
      StepFits(s, actions[0]);
      StepUnique(s, actions[0]);
      RunFits(Step(s, actions[0]), actions[1..]);
    }
  }

  /** Under any interleaving at most one creation of a name succeeds, although the check comes before the insert. */
  lemma OneCreation(db: RoomDb, actions: seq<Action>)
    requires Consistent(db) && LegalRun(Boot(db), actions)
    ensures Distinct(Run(Boot(db), actions).created)
  {
    RunFits(Boot(db), actions);
  }

  /** In every run the rooms in the table are those there at the start and those created since. */
  lemma {:induction false} RoomsAreCreated(s: State, actions: seq<Action>, name: string)
    requires LegalRun(s, actions) && forall n :: n in s.created ==> n in s.db.rooms
    ensures name in s.created ==> name in Run(s, actions).created
    ensures name in Run(s, actions).db.rooms <==> name in s.db.rooms || name in Run(s, actions).created
    decreases |actions|
  {
    if actions != [] {
      RoomsAreCreated(Step(s, actions[0]), actions[1..], name);
    }
  }

  /** The registered users are those of the start and those registered in the run. */
  lemma {:induction false} UsersAreRegistered(s: State, actions: seq<Action>, u: string)
    requires LegalRun(s, actions)
    ensures u in Run(s, actions).db.users <==> u in s.db.users || Register(u) in actions
    decreases |actions|
  {
    if actions != [] {
      UsersAreRegistered(Step(s, actions[0]), actions[1..], u);
      assert actions == [actions[0]] + actions[1..];
    }
  }

  /** The memory step of a creation that enters its room finds the owner stored. */
  predicate Owned(s: State, a: Action)
    requires Legal(s, a)
  {
    a.Continue? && s.calls[a.c].CreateInMemory? && s.calls[a.c].name !in s.memory ==>
      Stored(s, s.calls[a.c].name, s.calls[a.c].uid)
  }

  lemma StaysStored(s: State, a: Action, name: string, u: string)
    requires Legal(s, a) && Fits(s) && Stored(s, name, u)
    ensures Stored(Step(s, a), name, u)
  {
  }

  lemma OwnedStaysBacked(s: State, a: Action)
    requires Legal(s, a) && Fits(s) && Backed(s) && Owned(s, a)
    ensures Backed(Step(s, a))
  {
    var s' := Step(s, a);
    if a.Continue? {
      assert CallFits(s, s.calls[a.c]);
    }
    forall name, u | u in Held(s'.memory, name)
      ensures Stored(s', name, u)
    {
      assert Stored(s, name, u);
      StaysStored(s, a, name, u);
    }
  }

  lemma UnownedIsNotBacked(s: State, a: Action)
    requires Legal(s, a) && !Owned(s, a)
    ensures !Backed(Step(s, a))
  {
    var name, u := s.calls[a.c].name, s.calls[a.c].uid;
    assert u in Held(Step(s, a).memory, name) && !Stored(Step(s, a), name, u);
  }

  ghost predicate AlwaysBacked(s: State, actions: seq<Action>)
    requires LegalRun(s, actions)
    decreases |actions|
  {
    Backed(s) && (actions != [] ==> AlwaysBacked(Step(s, actions[0]), actions[1..]))
  }

  predicate AlwaysOwned(s: State, actions: seq<Action>)
    requires LegalRun(s, actions)
    decreases |actions|
  {
    actions != [] ==> Owned(s, actions[0]) && AlwaysOwned(Step(s, actions[0]), actions[1..])
  }

  /** Over whole interleaved runs: every member held in memory is stored exactly when every owner is, before entering memory. */
  lemma {:induction false} BackedIffOwned(s: State, actions: seq<Action>)
    requires LegalRun(s, actions) && Fits(s) && Backed(s)
    ensures AlwaysBacked(s, actions) <==> AlwaysOwned(s, actions)
    ensures AlwaysOwned(s, actions) ==> Backed(Run(s, actions))
    decreases |actions|
  {
    if actions != [] {
      if Owned(s, actions[0]) {
        OwnedStaysBacked(s, actions[0]);
        StepFits(s, actions[0]);
        BackedIffOwned(Step(s, actions[0]), actions[1..]);
      } else {
        UnownedIsNotBacked(s, actions[0]);
        assert !Backed(Step(s, actions[0]));
      }
    }
  }

  // ----- where the stored members are -----

  /** The member whose insert is done and whose memory step is still to come. */
  predicate OnTheWay(call: Call, name: string, u: string) {
    (call.CreateInMemory? || call.JoinInMemory?) && call.name == name && call.uid == u
  }

  /** Every stored member of a room created since the start is held in memory or on its way there. */
  ghost predicate Tracked(s: State) {
    forall name, u :: name in s.created && Stored(s, name, u) ==>
      Somewhere(s, name, u)
  }

  ghost predicate Somewhere(s: State, name: string, u: string) {
    u in Held(s.memory, name) || exists c :: c in s.calls && OnTheWay(s.calls[c], name, u)
  }

  predicate Creating(call: Call) {
    call.InsertOwner? || call.CreateInMemory?
  }

  /** A room is in memory only after its creation. */
  predicate Announced(s: State) {
    && (forall name :: name in s.memory ==> name in s.created)
    && (forall c :: c in s.calls && Creating(s.calls[c]) ==> s.calls[c].name in s.created && s.calls[c].name !in s.memory)
  }

  predicate Separate(s: State) {
    forall c, d :: c in s.calls && d in s.calls && c != d && Creating(s.calls[c]) && Creating(s.calls[d]) ==>
      s.calls[c].name != s.calls[d].name
  }

  /** The creation of a room has a single memory step. */
  predicate OneCreator(s: State) {
    Announced(s) && Separate(s)
  }

  /** A creating call was one before, or has just inserted a room whose name was free. */
  lemma CreatingBefore(s: State, a: Action, c: CallId)
    requires Legal(s, a) && c in Step(s, a).calls && Creating(Step(s, a).calls[c])
    ensures c in s.calls && s.calls[c].name == Step(s, a).calls[c].name
    ensures Creating(s.calls[c]) ||
            (a.Continue? && a.c == c && s.calls[c].name !in s.db.rooms && s.calls[c].name in Step(s, a).created)
  {
  }

  lemma StepSeparate(s: State, a: Action)
    requires Legal(s, a) && Unique(s) && OneCreator(s)
    ensures Separate(Step(s, a))
  {
    var s' := Step(s, a);
    forall c, d | c in s'.calls && d in s'.calls && c != d && Creating(s'.calls[c]) && Creating(s'.calls[d])
      ensures s'.calls[c].name != s'.calls[d].name
    {
      CreatingBefore(s, a, c);
      CreatingBefore(s, a, d);
    }
  }

  lemma CreatedStays(s: State, a: Action)
    requires Legal(s, a)
    ensures forall name :: name in s.created ==> name in Step(s, a).created
    ensures forall name :: name in Step(s, a).memory ==>
              name in s.memory || (a.Continue? && s.calls[a.c].CreateInMemory? && s.calls[a.c].name == name)
  {
  }

  lemma StepAnnounced(s: State, a: Action)
    requires Legal(s, a) && Unique(s) && OneCreator(s)
    ensures Announced(Step(s, a))
  {
    var s' := Step(s, a);
    CreatedStays(s, a);
    forall c | c in s'.calls && Creating(s'.calls[c])
      ensures s'.calls[c].name in s'.created && s'.calls[c].name !in s'.memory
    {
      CreatingBefore(s, a, c);
    }
  }

  lemma StepOneCreator(s: State, a: Action)
    requires Legal(s, a) && Unique(s) && OneCreator(s)
    ensures OneCreator(Step(s, a))
  {
    StepSeparate(s, a);
    StepAnnounced(s, a);
  }

  /**
   The memory step of a join finds the room in memory, unless the room is older than the server's
   start or another call in flight carries the same member.
   */
  ghost predicate Timely(s: State, a: Action)
    requires Legal(s, a)
  {
    a.Continue? && s.calls[a.c].JoinInMemory? ==>
      var name, u := s.calls[a.c].name, s.calls[a.c].uid;
      || name in s.memory
      || name !in s.created
      || (exists d :: d in s.calls && d != a.c && OnTheWay(s.calls[d], name, u))
  }

  lemma StaysSomewhere(s: State, a: Action, name: string, u: string)
    requires Legal(s, a) && OneCreator(s) && Somewhere(s, name, u) && name in s.created && Timely(s, a)
    ensures Somewhere(Step(s, a), name, u)
  {
    var s' := Step(s, a);
    if u !in Held(s.memory, name) {
      var c :| c in s.calls && OnTheWay(s.calls[c], name, u);
      if a.Continue? && a.c == c {
        if s.calls[c].JoinInMemory? && name !in s.memory {
          var d :| d in s.calls && d != c && OnTheWay(s.calls[d], name, u);
          assert d in s'.calls && s'.calls[d] == s.calls[d];
        }
      } else {
        assert c in s'.calls && s'.calls[c] == s.calls[c];
      }
    }
  }

  lemma TimelyTracks(s: State, a: Action)
    requires Legal(s, a) && Fits(s) && Unique(s) && OneCreator(s) && Tracked(s) && Timely(s, a)
    ensures Tracked(Step(s, a))
  {
    var s' := Step(s, a);
    forall name, u | name in s'.created && Stored(s', name, u)
      ensures Somewhere(s', name, u)
    {
      if name in s.created && Stored(s, name, u) {
        StaysSomewhere(s, a, name, u);
      } else if a.Continue? {
        assert CallFits(s, s.calls[a.c]);
        assert a.c in s'.calls && OnTheWay(s'.calls[a.c], name, u);
      }
    }
  }

  lemma UntimelyLoses(s: State, a: Action)
    requires Legal(s, a) && Fits(s) && Unique(s) && !Timely(s, a)
    ensures !Tracked(Step(s, a))
  {
    var name, u := s.calls[a.c].name, s.calls[a.c].uid;
    assert CallFits(s, s.calls[a.c]);
    assert !Somewhere(Step(s, a), name, u);
  }

  ghost predicate AlwaysTracked(s: State, actions: seq<Action>)
    requires LegalRun(s, actions)
    decreases |actions|
  {
    Tracked(s) && (actions != [] ==> AlwaysTracked(Step(s, actions[0]), actions[1..]))
  }

  ghost predicate AlwaysTimely(s: State, actions: seq<Action>)
    requires LegalRun(s, actions)
    decreases |actions|
  {
    actions != [] ==> Timely(s, actions[0]) && AlwaysTimely(Step(s, actions[0]), actions[1..])
  }

  /** Over whole interleaved runs: no stored member is ever lost to memory exactly when every join's memory step is timely. */
  lemma {:induction false} TrackedIffTimely(s: State, actions: seq<Action>)
    requires LegalRun(s, actions) && Fits(s) && Unique(s) && OneCreator(s) && Tracked(s)
    ensures AlwaysTracked(s, actions) <==> AlwaysTimely(s, actions)
    ensures AlwaysTimely(s, actions) ==> Tracked(Run(s, actions))
    decreases |actions|
  {
    if actions != [] {
      if Timely(s, actions[0]) {
        TimelyTracks(s, actions[0]);
        StepFits(s, actions[0]);
        StepUnique(s, actions[0]);
        StepOneCreator(s, actions[0]);
        TrackedIffTimely(Step(s, actions[0]), actions[1..]);
      } else {
        UntimelyLoses(s, actions[0]);
        assert !Tracked(Step(s, actions[0]));
      }
    }
  }

  // ----- owners whose insert failed -----

  predicate ServedJoin(s: State, a: Action, name: string, u: string) {
    a.Continue? && a.ok && a.c in s.calls && s.calls[a.c].InsertMember? && s.calls[a.c].name == name && s.calls[a.c].uid == u
  }

  /** Before call `c` makes its memory step, a join of the same user is served. */
  predicate JoinsInTime(s: State, actions: seq<Action>, c: CallId, name: string, u: string)
    requires LegalRun(s, actions)
    decreases |actions|
  {
    actions != [] ==>
      && !(actions[0].Continue? && actions[0].c == c)
      && (ServedJoin(s, actions[0], name, u) || JoinsInTime(Step(s, actions[0]), actions[1..], c, name, u))
  }

  /** The insert of an owner succeeds, or a join of the same user is served before it or in time after it. */
  predicate OwnerServed(s: State, a: Action, later: seq<Action>)
    requires Legal(s, a) && LegalRun(Step(s, a), later)
  {
    a.Continue? && s.calls[a.c].InsertOwner? && !a.ok ==>
      var name, u := s.calls[a.c].name, s.calls[a.c].uid;
      Stored(s, name, u) || JoinsInTime(Step(s, a), later, a.c, name, u)
  }

  predicate AlwaysServed(s: State, actions: seq<Action>)
    requires LegalRun(s, actions)
    decreases |actions|
  {
    actions != [] ==>
      OwnerServed(s, actions[0], actions[1..]) && AlwaysServed(Step(s, actions[0]), actions[1..])
  }

  /** The creation has made its inserts, and its owner is not stored. */
  predicate Unserved(s: State, c: CallId) {
    c in s.calls && s.calls[c].CreateInMemory? && !Stored(s, s.calls[c].name, s.calls[c].uid)
  }

  predicate JoinInTime(s: State, actions: seq<Action>, c: CallId)
    requires LegalRun(s, actions) && c in s.calls
  {
    JoinsInTime(s, actions, c, s.calls[c].name, s.calls[c].uid)
  }

  /** Nothing but a served join stores the owner of a creation that is past its inserts. */
  lemma UnservedStays(s: State, a: Action, c: CallId)
    requires Legal(s, a) && Fits(s) && OneCreator(s) && Unserved(s, c) && !(a.Continue? && a.c == c)
    ensures c in Step(s, a).calls && Step(s, a).calls[c] == s.calls[c]
    ensures Stored(Step(s, a), s.calls[c].name, s.calls[c].uid) <==> ServedJoin(s, a, s.calls[c].name, s.calls[c].uid)
  {
    if a.Continue? {
      assert CallFits(s, s.calls[a.c]);
      assert s.calls[a.c].InsertOwner? ==> s.calls[a.c].name != s.calls[c].name;
      assert CallFits(s, s.calls[c]);
      assert s.calls[a.c].InsertMember? ==> s.calls[a.c].id in s.db.rooms.Values;
    }
  }

  lemma NewlyUnserved(s: State, a: Action, c: CallId)
    requires Legal(s, a) && Fits(s) && Unserved(Step(s, a), c) && !Unserved(s, c)
    ensures a.Continue? && a.c == c && s.calls[c].InsertOwner? && !a.ok && !Stored(s, s.calls[c].name, s.calls[c].uid)
    ensures Step(s, a).calls[c].name == s.calls[c].name && Step(s, a).calls[c].uid == s.calls[c].uid
  {
    if c in s.calls {
      assert CallFits(s, s.calls[c]);
      if s.calls[c].CreateInMemory? {
        StaysStored(s, a, s.calls[c].name, s.calls[c].uid);
      } else if s.calls[c].InsertOwner? {
        assert s.db.rooms[s.calls[c].name] in s.db.rooms.Values;
        if Stored(s, s.calls[c].name, s.calls[c].uid) {
          StaysStored(s, a, s.calls[c].name, s.calls[c].uid);
        }
      }
    }
  }

  lemma FailedOwner(s: State, a: Action)
    requires Legal(s, a) && Fits(s) && a.Continue? && s.calls[a.c].InsertOwner? && !a.ok
    requires !Stored(s, s.calls[a.c].name, s.calls[a.c].uid)
    ensures Unserved(Step(s, a), a.c) && Step(s, a).calls[a.c] == CreateInMemory(s.calls[a.c].name, s.calls[a.c].uid)
  {
  }

  ghost predicate PendingServed(s: State, actions: seq<Action>)
    requires LegalRun(s, actions)
  {
    forall c :: Unserved(s, c) ==> JoinInTime(s, actions, c)
  }

  lemma ServedStep(s: State, actions: seq<Action>)
    requires LegalRun(s, actions) && actions != [] && Fits(s) && OneCreator(s)
    ensures Owned(s, actions[0]) && PendingServed(Step(s, actions[0]), actions[1..]) <==>
            PendingServed(s, actions) && OwnerServed(s, actions[0], actions[1..])
  {
    var a, later := actions[0], actions[1..];
    var s' := Step(s, a);
    if a.Continue? && s.calls[a.c].InsertOwner? && !a.ok && !Stored(s, s.calls[a.c].name, s.calls[a.c].uid) {
      FailedOwner(s, a);
    }
    if PendingServed(s, actions) && OwnerServed(s, a, later) {
      forall c | Unserved(s', c) ensures JoinInTime(s', later, c) {
        if Unserved(s, c) {
          assert JoinInTime(s, actions, c);
          UnservedStays(s, a, c);
        } else {
          NewlyUnserved(s, a, c);
        }
      }
      assert a.Continue? && Unserved(s, a.c) ==> JoinInTime(s, actions, a.c);
    }
    if Owned(s, a) && PendingServed(s', later) {
      forall c | Unserved(s, c) ensures JoinInTime(s, actions, c) {
        assert !(a.Continue? && a.c == c);
        UnservedStays(s, a, c);
        assert Unserved(s', c) ==> JoinInTime(s', later, c);
      }
    }
  }

  lemma {:induction false} OwnedIffServed(s: State, actions: seq<Action>)
    requires LegalRun(s, actions) && Fits(s) && Unique(s) && OneCreator(s)
    ensures AlwaysOwned(s, actions) <==> AlwaysServed(s, actions) && PendingServed(s, actions)
    decreases |actions|
  {
    if actions != [] {
      ServedStep(s, actions);
      StepFits(s, actions[0]);
      StepUnique(s, actions[0]);
      StepOneCreator(s, actions[0]);
      OwnedIffServed(Step(s, actions[0]), actions[1..]);
    }
  }

  /**
   Under any interleaving, every member held in memory is stored after every step exactly when each owner's
   insert succeeds, or a join of the same user is served before the creation reaches memory.
   */
  lemma BackedIffServed(db: RoomDb, actions: seq<Action>)
    requires Consistent(db) && LegalRun(Boot(db), actions)
    ensures AlwaysBacked(Boot(db), actions) <==> AlwaysServed(Boot(db), actions)
  {
    OwnedIffServed(Boot(db), actions);
    BackedIffOwned(Boot(db), actions);
  }

  /** The next statement of every handler succeeds. */
  predicate AllSucceed(actions: seq<Action>) {
    forall a :: a in actions && a.Continue? ==> a.ok
  }

  lemma {:induction false} SuccessIsServed(s: State, actions: seq<Action>)
    requires LegalRun(s, actions) && AllSucceed(actions)
    ensures AlwaysServed(s, actions)
    decreases |actions|
  {
    if actions != [] {
      SuccessIsServed(Step(s, actions[0]), actions[1..]);
    }
  }

  /** Under any interleaving in which inserts succeed, every member held in memory is stored. */
  lemma BackedMembers(db: RoomDb, actions: seq<Action>, name: string, u: string)
    requires Consistent(db) && LegalRun(Boot(db), actions) && AllSucceed(actions)
    ensures u in Held(Run(Boot(db), actions).memory, name) ==> Stored(Run(Boot(db), actions), name, u)
  {
    SuccessIsServed(Boot(db), actions);
    OwnedIffServed(Boot(db), actions);
    BackedIffOwned(Boot(db), actions);
  }

  /** After timely joins and served creations, with no handler in flight, memory and table agree on every room created since the start. */
  lemma QuietMembersAgree(db: RoomDb, actions: seq<Action>, name: string, u: string)
    requires Consistent(db) && LegalRun(Boot(db), actions)
    requires AlwaysTimely(Boot(db), actions) && AlwaysServed(Boot(db), actions)
    requires Run(Boot(db), actions).calls == map[] && name in Run(Boot(db), actions).created
    ensures u in Held(Run(Boot(db), actions).memory, name) <==> Stored(Run(Boot(db), actions), name, u)
  {
    RunFits(Boot(db), actions);
    OwnedIffServed(Boot(db), actions);
    BackedIffOwned(Boot(db), actions);
    TrackedIffTimely(Boot(db), actions);
    var s := Run(Boot(db), actions);
    assert Somewhere(s, name, u) ==> u in Held(s.memory, name);
  }
}
