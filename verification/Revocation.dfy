/**
 Token logins, logouts and session creations running concurrently, interleaved at the level of
 single Redis commands, each of which may fail. Is a revoked token revoked for good?
 */
module Revocation {
  import opened Common
  import opened RedisSessions

  /** The point a service call has reached: the next Redis command it will issue. */
  datatype Call =
    | LoginLookup(token: string, node: string)
    | LoginUpdateNode(token: string, node: string)
    | LogoutDelete(token: string, uid: string)
    | LogoutGetOnline(uid: string)
    | LogoutDeleteOnline(uid: string)
    | LogoutDeleteRoute(uid: string)
    | CreateFields(uid: string, token: string, node: string, ttl: int)
    | CreateExpiry(uid: string, token: string, node: string, ttl: int)
    | CreateOnline(uid: string, node: string)
    | CreateRoute(uid: string, node: string)
    | Finished

  /** `granted` records the tokens whose lookup succeeded, in order. */
  datatype State = State(now: Time, redis: Redis, calls: seq<Call>, granted: seq<string>)

  datatype Action =
    | Start(call: Call)
    | Command(i: nat, ok: bool)   // call `i` issues its next command, which succeeds or fails
    | Tick(seconds: nat)

  predicate Entry(call: Call) {
    call.LoginLookup? || call.LogoutDelete? || call.CreateFields?
  }

  /** `logout` is a DEL of the token, then GET, DEL and HDEL of the routing keys; replies are ignored. */
  function Next(call: Call, found: bool): Call {
    match call
    case LoginLookup(token, node) => if found then LoginUpdateNode(token, node) else Finished
    case LogoutDelete(_, uid) => LogoutGetOnline(uid)
    case LogoutGetOnline(uid) => LogoutDeleteOnline(uid)
    case LogoutDeleteOnline(uid) => LogoutDeleteRoute(uid)
    case CreateFields(uid, token, node, ttl) => CreateExpiry(uid, token, node, ttl)
    case CreateExpiry(uid, _, node, _) => CreateOnline(uid, node)
    case CreateOnline(uid, node) => CreateRoute(uid, node)
    case _ => Finished
  }

  function Effect(r: Redis, call: Call, now: Time): Redis {
    match call
    case LoginUpdateNode(token, node) => UpdateNode(r, token, node, now)
    case LogoutDelete(token, _) => Revoke(r, token)
    case LogoutDeleteOnline(uid) => r.(online := r.online - {uid})
    case LogoutDeleteRoute(uid) => r.(userRoute := r.userRoute - {uid})
    case CreateFields(uid, token, node, _) => r.(sessions := HmsetSession(r.sessions, token, uid, node, now))
    case CreateExpiry(_, token, _, ttl) => r.(sessions := Expire(r.sessions, token, ttl, now))
    case CreateOnline(uid, node) => r.(online := r.online[uid := node])
    case CreateRoute(uid, node) => r.(userRoute := r.userRoute[uid := node])
    case _ => r
  }

  predicate Found(r: Redis, call: Call, now: Time) {
    call.LoginLookup? && Lookup(r.sessions, call.token, now).Some?
  }

  function Step(s: State, a: Action): State {
    match a
    case Start(call) => if Entry(call) then s.(calls := s.calls + [call]) else s
    case Tick(seconds) => s.(now := s.now + seconds)
    case Command(i, ok) =>
      if i >= |s.calls| then s else
      var call := s.calls[i];
      var found := ok && Found(s.redis, call, s.now);
      s.(redis := if ok then Effect(s.redis, call, s.now) else s.redis,
         calls := s.calls[i := Next(call, found)],
         granted := if found then s.granted + [call.token] else s.granted)
  }

  function Run(s: State, actions: seq<Action>): State
    decreases |actions|
  {
    if actions == [] then s else Run(Step(s, actions[0]), actions[1..])
  }

  /** Call `i` issues its next commands undisturbed, with the given outcomes. */
  function Alone(i: nat, oks: seq<bool>): seq<Action> {
    if oks == [] then [] else [Command(i, oks[0])] + Alone(i, oks[1..])
  }

  /** The keys after the next commands of one call. */
  function AfterAlone(r: Redis, call: Call, now: Time, oks: seq<bool>): Redis
    decreases |oks|
  {
    if oks == [] then r
    else AfterAlone(if oks[0] then Effect(r, call, now) else r, Next(call, oks[0] && Found(r, call, now)), now, oks[1..])
  }

  lemma {:induction false} RunAlone(s: State, i: nat, oks: seq<bool>)
    requires i < |s.calls|
    ensures Run(s, Alone(i, oks)).redis == AfterAlone(s.redis, s.calls[i], s.now, oks)
    decreases |oks|
  {
    if oks != [] {
      assert Alone(i, oks)[1..] == Alone(i, oks[1..]);
      RunAlone(Step(s, Command(i, oks[0])), i, oks[1..]);
    }
  }

  /** One command, then the rest. */
  lemma AfterFirst(r: Redis, call: Call, now: Time, ok: bool, rest: seq<bool>)
    ensures AfterAlone(r, call, now, [ok] + rest) ==
            AfterAlone(if ok then Effect(r, call, now) else r, Next(call, ok && Found(r, call, now)), now, rest)
  {
    assert ([ok] + rest)[1..] == rest;
  }

  lemma AfterLast(r: Redis, call: Call, now: Time, ok: bool)
    ensures AfterAlone(r, call, now, [ok]) == if ok then Effect(r, call, now) else r
  {
    assert [ok][1..] == [];
  }

  lemma UnroutingAlone(r: Redis, uid: string, now: Time, replied: bool, offline: bool, unrouted: bool)
    ensures AfterAlone(r, LogoutGetOnline(uid), now, [replied, offline, unrouted]) ==
            r.(online := if offline then r.online - {uid} else r.online,
               userRoute := if unrouted then r.userRoute - {uid} else r.userRoute)
  {
    assert [replied, offline, unrouted] == [replied] + [offline, unrouted];
    AfterFirst(r, LogoutGetOnline(uid), now, replied, [offline, unrouted]);
    assert [offline, unrouted] == [offline] + [unrouted];
    AfterFirst(r, LogoutDeleteOnline(uid), now, offline, [unrouted]);
    AfterLast(if offline then r.(online := r.online - {uid}) else r, LogoutDeleteRoute(uid), now, unrouted);
  }

  /** Undisturbed, the commands of a logout add up to the repository's two operations, for all their outcomes. */
  lemma LogoutAlone(s: State, i: nat, deleted: bool, replied: bool, offline: bool, unrouted: bool)
    requires i < |s.calls| && s.calls[i].LogoutDelete?
    ensures var uid := s.calls[i].uid;
            var r := if deleted then Revoke(s.redis, s.calls[i].token) else s.redis;
            Run(s, Alone(i, [deleted, replied, offline, unrouted])).redis ==
            r.(online := if offline then r.online - {uid} else r.online,
               userRoute := if unrouted then r.userRoute - {uid} else r.userRoute)
  {
    var oks := [deleted, replied, offline, unrouted];
    RunAlone(s, i, oks);
    assert oks == [deleted] + [replied, offline, unrouted];
    AfterFirst(s.redis, s.calls[i], s.now, deleted, [replied, offline, unrouted]);
    UnroutingAlone(if deleted then Revoke(s.redis, s.calls[i].token) else s.redis, s.calls[i].uid, s.now,
                   replied, offline, unrouted);
  }

  lemma RoutesAlone(r: Redis, uid: string, node: string, now: Time, online: bool, route: bool)
    ensures AfterAlone(r, CreateOnline(uid, node), now, [online, route]) ==
            Redis(r.sessions, if online then r.online[uid := node] else r.online, if route then r.userRoute[uid := node] else r.userRoute)
  {
    assert [online, route] == [online] + [route];
    AfterFirst(r, CreateOnline(uid, node), now, online, [route]);
    AfterLast(if online then r.(online := r.online[uid := node]) else r, CreateRoute(uid, node), now, route);
  }

  lemma ExpiryAlone(r: Redis, uid: string, token: string, node: string, ttl: int, now: Time, w: Written)
    ensures AfterAlone(r, CreateExpiry(uid, token, node, ttl), now, [w.expiry, w.online, w.route]) ==
            Redis(if w.expiry then Expire(r.sessions, token, ttl, now) else r.sessions,
                  if w.online then r.online[uid := node] else r.online,
                  if w.route then r.userRoute[uid := node] else r.userRoute)
  {
    assert [w.expiry, w.online, w.route] == [w.expiry] + [w.online, w.route];
    AfterFirst(r, CreateExpiry(uid, token, node, ttl), now, w.expiry, [w.online, w.route]);
    RoutesAlone(if w.expiry then r.(sessions := Expire(r.sessions, token, ttl, now)) else r, uid, node, now, w.online, w.route);
  }

  /** Undisturbed, the commands of a creation add up to the repository's operation, for all their outcomes. */
  lemma CreateAlone(s: State, i: nat, w: Written)
    requires i < |s.calls| && s.calls[i].CreateFields?
    ensures var c := s.calls[i];
            Run(s, Alone(i, [w.fields, w.expiry, w.online, w.route])).redis ==
            CreateWith(s.redis, c.uid, c.token, c.node, c.ttl, s.now, w)
  {
    var c := s.calls[i];
    var oks := [w.fields, w.expiry, w.online, w.route];
    RunAlone(s, i, oks);
    assert oks == [w.fields] + [w.expiry, w.online, w.route];
    AfterFirst(s.redis, c, s.now, w.fields, [w.expiry, w.online, w.route]);
    var written := s.redis.(sessions := HmsetSession(s.redis.sessions, c.token, c.uid, c.node, s.now));
    ExpiryAlone(if w.fields then written else s.redis, c.uid, c.token, c.node, c.ttl, s.now, w);
  }

  /** Undisturbed, a token login writes the node exactly when its lookup got a reply and found the session. */
  lemma LoginAlone(s: State, i: nat, replied: bool, written: bool)
    requires i < |s.calls| && s.calls[i].LoginLookup?
    ensures var c := s.calls[i];
            Run(s, Alone(i, [replied, written])).redis ==
            if replied && written && !Dead(s, c.token) then UpdateNode(s.redis, c.token, c.node, s.now) else s.redis
  {
    RunAlone(s, i, [replied, written]);
    LookupAlone(s.redis, s.calls[i], s.now, replied, written);
  }

  lemma LookupAlone(r: Redis, call: Call, now: Time, replied: bool, written: bool)
    requires call.LoginLookup?
    ensures AfterAlone(r, call, now, [replied, written]) ==
            if replied && written && Found(r, call, now) then UpdateNode(r, call.token, call.node, now) else r
  {
    assert [replied, written] == [replied] + [written];
    AfterFirst(r, call, now, replied, [written]);
    AfterLast(r, Next(call, replied && Found(r, call, now)), now, written);
  }

  predicate Dead(s: State, token: string) {
    Lookup(s.redis.sessions, token, s.now).None?
  }

  /** No call is about to write the fields of a new session for `token`. */
  predicate NoCreation(s: State, token: string) {
    forall c :: c in s.calls && c.CreateFields? ==> c.token != token
  }

  predicate CreatesToken(a: Action, token: string) {
    a.Start? && a.call.CreateFields? && a.call.token == token
  }

  predicate WritesUid(s: State, a: Action, token: string) {
    a.Command? && a.ok && a.i < |s.calls| && s.calls[a.i].CreateFields? && s.calls[a.i].token == token
  }

  /** A dead token comes back to life in exactly one kind of step: the first write of `createSession`. */
  lemma OnlyCreationRevives(s: State, a: Action, token: string)
    requires Dead(s, token)
    ensures Dead(Step(s, a), token) <==> !WritesUid(s, a, token)
  {
    var h := Fields(s.redis.sessions, token, s.now);
    var s' := Step(s, a);
    var h' := Fields(s'.redis.sessions, token, s'.now);
    assert !WritesUid(s, a, token) ==> h'.uid.None?;
  }

  /** The number of times a lookup of `token` has succeeded. */
  function Grants(granted: seq<string>, token: string): nat {
    if granted == [] then 0
    else Grants(granted[..|granted| - 1], token) + if granted[|granted| - 1] == token then 1 else 0
  }

  lemma GrantsAppend(granted: seq<string>, other: string, token: string)
    ensures Grants(granted + [other], token) == Grants(granted, token) + if other == token then 1 else 0
  {
    assert (granted + [other])[..|granted|] == granted;
  }

  /** A login of a token is granted exactly when its lookup gets a reply while the token is alive. */
  lemma GrantedIffAlive(s: State, a: Action, token: string)
    ensures Grants(Step(s, a).granted, token) == Grants(s.granted, token) +
            if a.Command? && a.ok && a.i < |s.calls| && s.calls[a.i].LoginLookup? && s.calls[a.i].token == token && !Dead(s, token)
            then 1 else 0
  {
    if a.Command? && a.i < |s.calls| {
      GrantsAppend(s.granted, if s.calls[a.i].LoginLookup? then s.calls[a.i].token else "", token);
    }
  }

  lemma DeadStep(s: State, a: Action, token: string)
    requires Dead(s, token) && NoCreation(s, token) && !CreatesToken(a, token)
    ensures Dead(Step(s, a), token) && NoCreation(Step(s, a), token)
    ensures Grants(Step(s, a).granted, token) == Grants(s.granted, token)
  {
    OnlyCreationRevives(s, a, token);
    if a.Command? && a.i < |s.calls| {
      GrantsAppend(s.granted, if s.calls[a.i].LoginLookup? then s.calls[a.i].token else "", token);
    }
  }

  lemma {:induction false} StaysDead(s: State, actions: seq<Action>, token: string)
    requires Dead(s, token) && NoCreation(s, token)
    requires forall a :: a in actions ==> !CreatesToken(a, token)
    ensures Dead(Run(s, actions), token)
    ensures Grants(Run(s, actions).granted, token) == Grants(s.granted, token)
    decreases |actions|
  {
    if actions != [] {
      DeadStep(s, actions[0], token);
      StaysDead(Step(s, actions[0]), actions[1..], token);
    }
  }

  /**
   Once the DEL of a logout has executed and the token is not created again, no later lookup of the
   token succeeds, whatever else is in flight, including token logins that had already passed their lookup.
   */
  lemma RevocationIsPermanent(s: State, i: nat, actions: seq<Action>)
    requires i < |s.calls| && s.calls[i].LogoutDelete?
    requires NoCreation(s, s.calls[i].token)
    requires forall a :: a in actions ==> !CreatesToken(a, s.calls[i].token)
    ensures var token := s.calls[i].token;
            var deleted := Step(s, Command(i, true));
            Dead(Run(deleted, actions), token) &&
            Grants(Run(deleted, actions).granted, token) == Grants(deleted.granted, token)
  {
    StaysDead(Step(s, Command(i, true)), actions, s.calls[i].token);
  }

  /** A key that holds only a node and has no time to live. */
  predicate Orphan(s: State, token: string) {
    token in s.redis.sessions && s.redis.sessions[token].uid.None? && s.redis.sessions[token].expireAt.None?
  }

  /** A token login writes the node although the session has gone since its lookup. */
  predicate LosesRace(s: State, a: Action, token: string) {
    && a.Command? && a.ok && a.i < |s.calls|
    && s.calls[a.i].LoginUpdateNode? && s.calls[a.i].token == token
    && !Live(s.redis.sessions, token, s.now)
  }

  /** Such a write, and nothing else, leaves such a key behind. */
  lemma OrphanIffRaceLost(s: State, a: Action, token: string)
    requires !Orphan(s, token)
    ensures Orphan(Step(s, a), token) <==> LosesRace(s, a, token)
  {
  }

  predicate NeverOrphan(s: State, actions: seq<Action>, token: string)
    decreases |actions|
  {
    !Orphan(s, token) && (actions != [] ==> NeverOrphan(Step(s, actions[0]), actions[1..], token))
  }

  predicate NeverLosesRace(s: State, actions: seq<Action>, token: string)
    decreases |actions|
  {
    actions != [] ==> !LosesRace(s, actions[0], token) && NeverLosesRace(Step(s, actions[0]), actions[1..], token)
  }

  /** Over a whole run: the key never exists exactly when no token login ever writes too late. */
  lemma {:induction false} NoOrphanIffNoLostRace(s: State, actions: seq<Action>, token: string)
    requires !Orphan(s, token)
    ensures NeverOrphan(s, actions, token) <==> NeverLosesRace(s, actions, token)
    decreases |actions|
  {
    if actions != [] {
      OrphanIffRaceLost(s, actions[0], token);
      if !LosesRace(s, actions[0], token) {
        NoOrphanIffNoLostRace(Step(s, actions[0]), actions[1..], token);
      }
    }
  }

  /** It never expires: only a logout or a new session for the token ends it. */
  lemma {:induction false} OrphanStays(s: State, actions: seq<Action>, token: string)
    requires Orphan(s, token)
    requires forall c :: c in s.calls && (c.LogoutDelete? || c.CreateFields? || c.CreateExpiry?) ==> c.token != token
    requires forall a :: a in actions && a.Start? && (a.call.LogoutDelete? || a.call.CreateFields?) ==> a.call.token != token
    ensures Orphan(Run(s, actions), token)
    decreases |actions|
  {
    if actions != [] {
      var s' := Step(s, actions[0]);
      assert Orphan(s', token);
      OrphanStays(s', actions[1..], token);
    }
  }

  // ----- how long a session lives -----

  /** The call ends, creates or renews the session of `token`. */
  predicate Touches(call: Call, token: string) {
    (call.LogoutDelete? || call.CreateFields? || call.CreateExpiry?) && call.token == token
  }

  predicate Untouched(s: State, actions: seq<Action>, token: string) {
    && (forall c :: c in s.calls ==> !Touches(c, token))
    && (forall a :: a in actions && a.Start? ==> !Touches(a.call, token))
  }

  function Ticks(actions: seq<Action>): nat {
    if actions == [] then 0 else (if actions[0].Tick? then actions[0].seconds else 0) + Ticks(actions[1..])
  }

  lemma {:induction false} ClockIsTicks(s: State, actions: seq<Action>)
    ensures Run(s, actions).now == s.now + Ticks(actions)
    decreases |actions|
  {
    if actions != [] {
      ClockIsTicks(Step(s, actions[0]), actions[1..]);
    }
  }

  lemma {:induction false} ClockNeverRunsBack(s: State, actions: seq<Action>)
    ensures Run(s, actions).now >= s.now
    decreases |actions|
  {
    if actions != [] {
      ClockNeverRunsBack(Step(s, actions[0]), actions[1..]);
    }
  }

  lemma UntouchedStep(s: State, a: Action, token: string)
    requires !Dead(s, token) && Untouched(s, [a], token)
    ensures forall c :: c in Step(s, a).calls ==> !Touches(c, token)
    ensures var expireAt := s.redis.sessions[token].expireAt;
            Dead(Step(s, a), token) <==> expireAt.Some? && expireAt.value <= Step(s, a).now
    ensures !Dead(Step(s, a), token) ==> Step(s, a).redis.sessions[token].expireAt == s.redis.sessions[token].expireAt
  {
    assert a in [a];
    if a.Command? && a.i < |s.calls| {
      assert !Touches(s.calls[a.i], token);
    }
  }

  /** A session that nobody ends, creates or renews dies exactly when its time to live runs out, and without one never. */
  lemma {:induction false} DiesIffExpired(s: State, actions: seq<Action>, token: string)
    requires !Dead(s, token) && Untouched(s, actions, token)
    ensures var expireAt := s.redis.sessions[token].expireAt;
            Dead(Run(s, actions), token) <==> expireAt.Some? && expireAt.value <= Run(s, actions).now
    decreases |actions|
  {
    if actions != [] {
      var s' := Step(s, actions[0]);
      UntouchedStep(s, actions[0], token);
      ClockNeverRunsBack(s', actions[1..]);
      if Dead(s', token) {
        StaysDead(s', actions[1..], token);
      } else {
        DiesIffExpired(s', actions[1..], token);
      }
    }
  }

  /**
   A creation whose fields are written and whose EXPIRE is next: once its time to live has passed, the session is
   dead exactly when the EXPIRE succeeded or the key had an earlier time to live that has run out.
   */
  lemma CreatedDiesIffExpirySet(s: State, i: nat, ok: bool, actions: seq<Action>)
    requires i < |s.calls| && s.calls[i].CreateExpiry? && !Dead(s, s.calls[i].token)
    requires Untouched(Step(s, Command(i, ok)), actions, s.calls[i].token)
    requires Run(Step(s, Command(i, ok)), actions).now >= s.now + s.calls[i].ttl
    ensures var token, before := s.calls[i].token, s.redis.sessions[s.calls[i].token].expireAt;
            var end := Run(Step(s, Command(i, ok)), actions);
            Dead(end, token) <==> ok || (before.Some? && before.value <= end.now)
  {
    var token := s.calls[i].token;
    var s1 := Step(s, Command(i, ok));
    if Dead(s1, token) {
      StaysDead(s1, actions, token);
    } else {
      DiesIffExpired(s1, actions, token);
    }
  }

  /** The first write of a creation keeps the time to live of a live key and starts a dead one without any. */
  lemma CreationStartsWithoutExpiry(s: State, i: nat)
    requires i < |s.calls| && s.calls[i].CreateFields?
    ensures var token := s.calls[i].token;
            var s1 := Step(s, Command(i, true));
            && !Dead(s1, token)
            && s1.redis.sessions[token].expireAt == if Live(s.redis.sessions, token, s.now) then s.redis.sessions[token].expireAt else None
  {
  }

  // ----- two runs from an empty store -----

  const FIRST := State(0, EMPTY, [], [])

  lemma {:induction false} RunAppend(s: State, xs: seq<Action>, ys: seq<Action>)
    ensures Run(s, xs + ys) == Run(Run(s, xs), ys)
    decreases |xs|
  {
    if xs == [] {
      assert xs + ys == ys;
    } else {
      RunAppend(Step(s, xs[0]), xs[1..], ys);
      assert (xs + ys)[1..] == xs[1..] + ys;
    }
  }

  lemma RunTwo(s: State, a: Action, b: Action)
    ensures Run(s, [a, b]) == Step(Step(s, a), b)
  {
    var both := [a, b];
    assert both[1..] == [b] && [b][1..] == [];
    assert Run(Step(s, a), [b]) == Run(Step(Step(s, a), b), []);
    assert Run(s, both) == Run(Step(s, a), both[1..]);
  }

  /** A session is created; a token login finds it, is overtaken by a logout, and leaves the key that never expires. */
  lemma OrphanArises()
    ensures var created := [Start(CreateFields("u", "t", "n", 60)), Command(0, true)];
            var found := [Start(LoginLookup("t", "m")), Command(1, true)];
            var loggedOut := [Start(LogoutDelete("t", "u")), Command(2, true)];
            Orphan(Run(FIRST, created + found + loggedOut + [Command(1, true)]), "t")
  {
    var created := [Start(CreateFields("u", "t", "n", 60)), Command(0, true)];
    var found := [Start(LoginLookup("t", "m")), Command(1, true)];
    var loggedOut := [Start(LogoutDelete("t", "u")), Command(2, true)];
    var last := [Command(1, true)];
    RunAppend(FIRST, created + found + loggedOut, last);
    RunAppend(FIRST, created + found, loggedOut);
    RunAppend(FIRST, created, found);
    RunTwo(FIRST, created[0], created[1]);
    var s1 := Run(FIRST, created);
    assert s1.redis.sessions["t"].uid == Some("u") && |s1.calls| == 1;
    RunTwo(s1, found[0], found[1]);
    var s2 := Run(s1, found);
    assert s2.calls[1] == LoginUpdateNode("t", "m") && |s2.calls| == 2;
    RunTwo(s2, loggedOut[0], loggedOut[1]);
    var s3 := Run(s2, loggedOut);
    assert "t" !in s3.redis.sessions && s3.calls[1] == LoginUpdateNode("t", "m");
    assert last[1..] == [];
    OrphanIffRaceLost(s3, last[0], "t");
  }

  /** A session whose EXPIRE failed is accepted after any time. */
  lemma EndlessSession(seconds: nat)
    ensures var created := [Start(CreateFields("u", "t", "n", 60)), Command(0, true)];
            var later := [Command(0, false), Tick(seconds)];
            !Dead(Run(FIRST, created + later), "t")
  {
    var created := [Start(CreateFields("u", "t", "n", 60)), Command(0, true)];
    var later := [Command(0, false), Tick(seconds)];
    RunAppend(FIRST, created, later);
    RunTwo(FIRST, created[0], created[1]);
    var s1 := Run(FIRST, created);
    assert s1.redis.sessions["t"].uid == Some("u") && s1.redis.sessions["t"].expireAt == None;
    RunTwo(s1, later[0], later[1]);
    var s3 := Run(FIRST, created + later);
    assert s3.redis == s1.redis;
    assert Fields(s3.redis.sessions, "t", s3.now) == s1.redis.sessions["t"];
    assert !Dead(s3, "t");
  }
}
