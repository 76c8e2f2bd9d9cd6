/** Room handlers that no other handler disturbs, with every outcome of their statements; and two runs that go wrong. */
module UndisturbedRooms {
  import opened Common
  import opened Rooms

  /** A request with the outcomes of the handler's query and inserts. */
  datatype Request =
    | CreateRoom(name: string, uid: string, looked: bool, inserted: bool, joined: bool)
    | JoinRoom(name: string, uid: string, looked: bool, joined: bool)

  /** All steps of one handler in a row. */
  function Handle(s: State, r: Request): State
    requires s.calls == map[] && r.uid in s.db.users
    ensures Handle(s, r).db.users == s.db.users
    ensures Handle(s, r).calls == map[]
  {
    match r
    case CreateRoom(name, uid, looked, inserted, joined) =>
      var s1 := Step(s, StartCreate(0, name, uid, looked));
      if s1.calls == map[] then s1 else
      assert s1.calls == map[0 := InsertRoom(name, uid)];
      var s2 := Resume(s1, 0, inserted);
      if 0 !in s2.calls then assert s1.calls - {0} == map[]; s2 else
      var s3 := Resume(s2, 0, joined);
      assert s3.calls - {0} == map[];
      Resume(s3, 0, true)
    case JoinRoom(name, uid, looked, joined) =>
      var s1 := Step(s, StartJoin(0, name, uid, looked));
      if s1.calls == map[] then s1 else
      var s2 := Resume(s1, 0, joined);
      assert s1.calls - {0} == map[] && s2.calls - {0} == map[];
      if 0 !in s2.calls then s2 else Resume(s2, 0, true)
  }

  function HandleAll(s: State, rs: seq<Request>): State
    requires s.calls == map[] && forall r :: r in rs ==> r.uid in s.db.users
    decreases |rs|
  {
    if rs == [] then s else HandleAll(Handle(s, rs[0]), rs[1..])
  }

  /** The request gets past its query and its first insert. */
  predicate Effective(s: State, r: Request) {
    match r
    case CreateRoom(name, _, _, inserted, _) => name !in s.db.rooms && inserted
    case JoinRoom(name, _, looked, joined) => looked && name in s.db.rooms && joined
  }

  /** The steps of one handler add up to one change of table and memory, or to none. */
  lemma HandleEffect(s: State, r: Request)
    requires s.calls == map[] && r.uid in s.db.users
    ensures !Effective(s, r) ==> Handle(s, r) == s
    ensures Effective(s, r) && r.CreateRoom? ==>
              var t, id := Handle(s, r), s.db.lastId + 1;
              var entered := s.db.(rooms := s.db.rooms[r.name := id], lastId := id);
              && t.db == (if r.joined then AddMember(entered, id, r.uid) else entered)
              && t.created == s.created + [r.name] && t.memory == MemoryCreate(s.memory, r.name, r.uid)
    ensures Effective(s, r) && r.JoinRoom? ==>
              var t := Handle(s, r);
              && t.db == AddMember(s.db, s.db.rooms[r.name], r.uid)
              && t.created == s.created && t.memory == MemoryJoin(s.memory, r.name, r.uid)
  {
    assert map[0 := InsertRoom(r.name, r.uid)] - {0} == map[];
    if r.name in s.db.rooms {
      assert map[0 := InsertMember(r.name, r.uid, s.db.rooms[r.name])] - {0} == map[];
    }
  }

  /** On the rooms created since the start, memory and table agree. */
  ghost predicate Agree(s: State) {
    && Consistent(s.db)
    && Unique(s)
    && (forall name :: name in s.created ==> name in s.memory)
    && (forall name :: name in s.memory ==> name in s.created)
    && (forall name, u :: name in s.created ==> (u in Held(s.memory, name) <==> Stored(s, name, u)))
  }

  lemma CreateAgrees(s: State, r: Request)
    requires s.calls == map[] && r.uid in s.db.users && Agree(s) && r.CreateRoom? && Effective(s, r) && r.joined
    ensures Agree(Handle(s, r))
  {
    HandleEffect(s, r);
    var t := Handle(s, r);
    var id := s.db.lastId + 1;
    assert s.db.rooms[r.name := id][r.name] == id;
    assert t.db.members == s.db.members + {(id, r.uid)};
    assert r.name !in s.memory;
    forall name, u | name in t.created
      ensures u in Held(t.memory, name) <==> Stored(t, name, u)
    {
      if name != r.name {
        assert name in s.created;
        assert u in Held(s.memory, name) <==> Stored(s, name, u);
      }
    }
  }

  lemma CreateDisagrees(s: State, r: Request)
    requires s.calls == map[] && r.uid in s.db.users && Agree(s) && r.CreateRoom? && Effective(s, r) && !r.joined
    ensures r.name in Handle(s, r).created && r.uid in Held(Handle(s, r).memory, r.name) && !Stored(Handle(s, r), r.name, r.uid)
  {
    HandleEffect(s, r);
    assert r.name !in s.memory;
  }

  lemma JoinAgrees(s: State, r: Request)
    requires s.calls == map[] && r.uid in s.db.users && Agree(s) && r.JoinRoom? && Effective(s, r)
    ensures Agree(Handle(s, r))
  {
    HandleEffect(s, r);
    var t := Handle(s, r);
    assert s.db.rooms[r.name] in s.db.rooms.Values;
    assert t.db.members == s.db.members + {(s.db.rooms[r.name], r.uid)};
    forall name, u | name in t.created
      ensures u in Held(t.memory, name) <==> Stored(t, name, u)
    {
      assert u in Held(s.memory, name) <==> Stored(s, name, u);
    }
  }

  /** A creation whose room is inserted inserts its owner as well. */
  predicate OwnerInserted(s: State, r: Request) {
    r.CreateRoom? && Effective(s, r) ==> r.joined
  }

  lemma HandleAgreesIff(s: State, r: Request)
    requires s.calls == map[] && r.uid in s.db.users && Agree(s)
    ensures Agree(Handle(s, r)) <==> OwnerInserted(s, r)
  {
    HandleEffect(s, r);
    if Effective(s, r) {
      if r.JoinRoom? {
        JoinAgrees(s, r);
      } else if r.joined {
        CreateAgrees(s, r);
      } else {
        CreateDisagrees(s, r);
      }
    }
  }

  ghost predicate AlwaysAgree(s: State, rs: seq<Request>)
    requires s.calls == map[] && forall r :: r in rs ==> r.uid in s.db.users
    decreases |rs|
  {
    Agree(s) && (rs != [] ==> AlwaysAgree(Handle(s, rs[0]), rs[1..]))
  }

  predicate AlwaysOwnerInserted(s: State, rs: seq<Request>)
    requires s.calls == map[] && forall r :: r in rs ==> r.uid in s.db.users
    decreases |rs|
  {
    rs != [] ==> OwnerInserted(s, rs[0]) && AlwaysOwnerInserted(Handle(s, rs[0]), rs[1..])
  }

  /** With undisturbed handlers, memory and table agree after every request exactly when no owner's insert fails. */
  lemma {:induction false} AgreeIffOwnersInserted(s: State, rs: seq<Request>)
    requires s.calls == map[] && (forall r :: r in rs ==> r.uid in s.db.users) && Agree(s)
    ensures AlwaysAgree(s, rs) <==> AlwaysOwnerInserted(s, rs)
    ensures AlwaysOwnerInserted(s, rs) ==> Agree(HandleAll(s, rs))
    decreases |rs|
  {
    if rs != [] {
      HandleAgreesIff(s, rs[0]);
      if OwnerInserted(s, rs[0]) {
        AgreeIffOwnersInserted(Handle(s, rs[0]), rs[1..]);
      } else {
        assert !Agree(Handle(s, rs[0]));
      }
    }
  }

  /** With undisturbed handlers whose owner inserts succeed, memory and table agree on every room created since the start. */
  lemma AtomicMembersAgree(db: RoomDb, rs: seq<Request>, name: string)
    requires Consistent(db) && (forall r :: r in rs ==> r.uid in db.users) && AlwaysOwnerInserted(Boot(db), rs)
    ensures var s := HandleAll(Boot(db), rs);
            && (name in s.created ==> name in s.db.rooms)
            && (forall u :: name in s.created ==> (u in Held(s.memory, name) <==> Stored(s, name, u)))
  {
    AgreeIffOwnersInserted(Boot(db), rs);
  }

  // ----- runs that go wrong -----

  /** A join that overtakes the creation's memory step is stored, and never held. */
  lemma JoinCanOvertake()
    ensures var s := Boot(RoomDb({"a", "b"}, map[], 0, {}));
            var run := [StartCreate(0, "r", "a", true), Continue(0, true), Continue(0, true), StartJoin(1, "r", "b", true), Continue(1, true), Continue(1, true), Continue(0, true)];
            LegalRun(s, run) && Run(s, run).calls == map[] && (1, "b") in Run(s, run).db.members && "b" !in Held(Run(s, run).memory, "r")
  {
    var s0 := Boot(RoomDb({"a", "b"}, map[], 0, {}));
    var s1 := Step(s0, StartCreate(0, "r", "a", true));
    var s2 := Step(s1, Continue(0, true));
    var s3 := Step(s2, Continue(0, true));
    var s4 := Step(s3, StartJoin(1, "r", "b", true));
    var s5 := Step(s4, Continue(1, true));
    var s6 := Step(s5, Continue(1, true));
    var s7 := Step(s6, Continue(0, true));
    var run := [StartCreate(0, "r", "a", true), Continue(0, true), Continue(0, true), StartJoin(1, "r", "b", true), Continue(1, true), Continue(1, true), Continue(0, true)];
    assert s3.db.members == {(1, "a")};
    assert s7.calls == map[];
    RunCons(s6, run[6..]);
    RunCons(s5, run[5..]);
    RunCons(s4, run[4..]);
    RunCons(s3, run[3..]);
    RunCons(s2, run[2..]);
    RunCons(s1, run[1..]);
    RunCons(s0, run);
  }

  lemma RunCons(s: State, actions: seq<Action>)
    requires actions != [] && Legal(s, actions[0]) && LegalRun(Step(s, actions[0]), actions[1..])
    ensures LegalRun(s, actions) && Run(s, actions) == Run(Step(s, actions[0]), actions[1..])
  {
  }

  /** An undisturbed creation whose owner's insert fails leaves the owner held and not stored. */
  lemma OwnerHeldNotStored()
    ensures var s := Handle(Boot(RoomDb({"a"}, map[], 0, {})), CreateRoom("r", "a", true, true, false));
            "r" in s.created && "a" in Held(s.memory, "r") && !Stored(s, "r", "a")
  {
    CreateDisagrees(Boot(RoomDb({"a"}, map[], 0, {})), CreateRoom("r", "a", true, true, false));
  }
}
