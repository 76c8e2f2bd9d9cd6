/**
 The two session stores behind one interface: driven by the same operations, with each
 operation atomic and its commands succeeding, when do their lookups agree?
 */
module SessionRefinement {
  import opened Common
  import opened RedisSessions
  import opened SqlSessions

  datatype Op =
    | CreateOp(uid: string, token: string, node: string, ttl: int)
    | UpdateNodeOp(token: string, node: string)
    | RevokeOp(token: string)
    | RevokeAllOp(uid: string)
    | Advance(seconds: nat)

  datatype World = World(now: Time, redis: Redis, sql: Table)

  function Step(w: World, op: Op): World {
    match op
    case CreateOp(uid, token, node, ttl) =>
      World(w.now, Create(w.redis, uid, token, node, ttl, w.now), SqlCreate(w.sql, uid, token, node, ttl, w.now))
    case UpdateNodeOp(token, node) =>
      World(w.now, UpdateNode(w.redis, token, node, w.now), SqlUpdateNode(w.sql, token, node))
    case RevokeOp(token) => World(w.now, Revoke(w.redis, token), SqlRevoke(w.sql, token))
    case RevokeAllOp(uid) => World(w.now, RevokeAll(w.redis, uid), SqlRevokeAll(w.sql, uid))
    case Advance(seconds) => w.(now := w.now + seconds)
  }

  function Run(w: World, ops: seq<Op>): World
    decreases |ops|
  {
    if ops == [] then w else Run(Step(w, ops[0]), ops[1..])
  }

  /** Every token is looked up with the same outcome in both stores. */
  ghost predicate Agrees(w: World) {
    forall token: string :: Lookup(w.redis.sessions, token, w.now) == SqlLookup(w.sql, token, w.now)
  }

  /** Agreement on lookups, and on when the sessions that are still valid will expire. */
  ghost predicate Refines(w: World) {
    && Agrees(w)
    && (forall token :: token in w.sql && RowLive(w.sql, token, w.now) ==>
          Fields(w.redis.sessions, token, w.now).expireAt == Some(w.sql[token].expiredAt))
  }

  /**
   What a caller has to respect: a token is not given to a second user (a session born dead does
   no harm), and all sessions of a user are revoked at once only when none of them is valid.
   */
  ghost predicate Admissible(w: World, op: Op) {
    match op
    case CreateOp(uid, token, _, ttl) => ttl <= 0 || token !in w.sql || w.sql[token].uid == uid
    case RevokeAllOp(uid) => forall token :: token in w.sql && RowLive(w.sql, token, w.now) ==> w.sql[token].uid != uid
    case _ => true
  }

  lemma CreateRefines(w: World, op: Op)
    requires Refines(w) && op.CreateOp?
    ensures Admissible(w, op) ==> Refines(Step(w, op))
    ensures !Admissible(w, op) ==> !Agrees(Step(w, op))
  {
    var w' := Step(w, op);
    forall token | token != op.token
      ensures Fields(w'.redis.sessions, token, w'.now) == Fields(w.redis.sessions, token, w.now)
      ensures SqlLookup(w'.sql, token, w'.now) == SqlLookup(w.sql, token, w.now)
    {
    }
    assert Lookup(w'.redis.sessions, op.token, w'.now) ==
           if op.ttl <= 0 then None else Some(SessionInfo(op.uid, op.token, op.node));
    forall token: string | Admissible(w, op)
      ensures Lookup(w'.redis.sessions, token, w'.now) == SqlLookup(w'.sql, token, w'.now)
    {
      assert Lookup(w.redis.sessions, token, w.now) == SqlLookup(w.sql, token, w.now);
    }
  }

  lemma RevokeAllRefines(w: World, op: Op)
    requires Refines(w) && op.RevokeAllOp?
    ensures Admissible(w, op) ==> Refines(Step(w, op))
    ensures !Admissible(w, op) ==> !Agrees(Step(w, op))
  {
    var w' := Step(w, op);
    if Admissible(w, op) {
      forall token: string
        ensures SqlLookup(w'.sql, token, w'.now) == SqlLookup(w.sql, token, w.now)
      {
      }
    } else {
      var token :| token in w.sql && RowLive(w.sql, token, w.now) && w.sql[token].uid == op.uid;
      assert Lookup(w.redis.sessions, token, w.now) == SqlLookup(w.sql, token, w.now);
      assert Lookup(w'.redis.sessions, token, w'.now) != SqlLookup(w'.sql, token, w'.now);
    }
  }

  lemma OtherRefines(w: World, op: Op)
    requires Refines(w) && (op.UpdateNodeOp? || op.RevokeOp? || op.Advance?)
    ensures Refines(Step(w, op))
  {
    var w' := Step(w, op);
    forall token: string
      ensures Lookup(w'.redis.sessions, token, w'.now) == SqlLookup(w'.sql, token, w'.now)
      ensures token in w'.sql && RowLive(w'.sql, token, w'.now) ==>
                Fields(w'.redis.sessions, token, w'.now).expireAt == Some(w'.sql[token].expiredAt)
    {
      assert Lookup(w.redis.sessions, token, w.now) == SqlLookup(w.sql, token, w.now);
    }
  }

  /** One step from a refined world keeps the stores in agreement exactly when it is admissible. */
  lemma StepAgreesIffAdmissible(w: World, op: Op)
    requires Refines(w)
    ensures Agrees(Step(w, op)) <==> Admissible(w, op)
    ensures Admissible(w, op) ==> Refines(Step(w, op))
  {
    match op
    case CreateOp(_, _, _, _) => CreateRefines(w, op);
    case RevokeAllOp(_) => RevokeAllRefines(w, op);
    case _ => OtherRefines(w, op);
  }

  /** What each operation does to a lookup of any token, in the Redis store. */
  lemma RedisLookupAfter(w: World, op: Op, token: string)
    ensures var before := Lookup(w.redis.sessions, token, w.now);
            Lookup(Step(w, op).redis.sessions, token, Step(w, op).now) ==
            match op
            case CreateOp(uid, t, node, ttl) =>
              if t != token then before else if ttl <= 0 then None else Some(SessionInfo(uid, token, node))
            case UpdateNodeOp(t, node) => if t == token && before.Some? then Some(before.value.(node := node)) else before
            case RevokeOp(t) => if t == token then None else before
            case RevokeAllOp(_) => before
            case Advance(seconds) =>
              if before.Some? && Expires(w.redis.sessions[token], w.now + seconds) then None else before
  {
  }

  predicate Expires(h: Hash, now: Time) {
    h.expireAt.Some? && h.expireAt.value <= now
  }

  /** And in the MySQL store. */
  lemma SqlLookupAfter(w: World, op: Op, token: string)
    ensures var before := SqlLookup(w.sql, token, w.now);
            SqlLookup(Step(w, op).sql, token, Step(w, op).now) ==
            match op
            case CreateOp(uid, t, node, ttl) =>
              if t != token then before
              else if ttl <= 0 then None
              else Some(SessionInfo(if token in w.sql then w.sql[token].uid else uid, token, node))
            case UpdateNodeOp(t, node) => if t == token && before.Some? then Some(before.value.(node := node)) else before
            case RevokeOp(t) => if t == token then None else before
            case RevokeAllOp(uid) => if before.Some? && before.value.uid == uid then None else before
            case Advance(seconds) => if before.Some? && w.sql[token].expiredAt <= w.now + seconds then None else before
  {
  }

  /** The first user of a token owns its row for good: rows neither vanish nor change hands, whatever happens later. */
  lemma {:induction false} OwnerIsKept(w: World, ops: seq<Op>, token: string)
    requires token in w.sql
    ensures token in Run(w, ops).sql && Run(w, ops).sql[token].uid == w.sql[token].uid
    decreases |ops|
  {
    if ops != [] {
      OwnerIsKept(Step(w, ops[0]), ops[1..], token);
    }
  }

  ghost predicate AlwaysAgrees(w: World, ops: seq<Op>)
    decreases |ops|
  {
    Agrees(w) && (ops != [] ==> AlwaysAgrees(Step(w, ops[0]), ops[1..]))
  }

  ghost predicate AlwaysAdmissible(w: World, ops: seq<Op>)
    decreases |ops|
  {
    ops != [] ==> Admissible(w, ops[0]) && AlwaysAdmissible(Step(w, ops[0]), ops[1..])
  }

  const START := World(0, EMPTY, map[])

  /** Over a whole run, lookups agree after every step exactly when every step is admissible. */
  lemma {:induction false} RedisRefinesSql(w: World, ops: seq<Op>)
    requires Refines(w)
    ensures AlwaysAgrees(w, ops) <==> AlwaysAdmissible(w, ops)
    ensures AlwaysAdmissible(w, ops) ==> Refines(Run(w, ops))
    decreases |ops|
  {
    if ops != [] {
      StepAgreesIffAdmissible(w, ops[0]);
      if Admissible(w, ops[0]) {
        RedisRefinesSql(Step(w, ops[0]), ops[1..]);
      }
    }
  }

  lemma StartRefines()
    ensures Refines(START)
  {
  }

  /** The caller's rule, without looking into the stores: one user per token, and no RevokeAll. */
  predicate KeepsOwners(ops: seq<Op>, owner: map<string, string>) {
    forall op :: op in ops ==>
      && !op.RevokeAllOp?
      && (op.CreateOp? ==> op.token in owner && owner[op.token] == op.uid)
  }

  lemma {:induction false} OwnersAdmissible(w: World, ops: seq<Op>, owner: map<string, string>)
    requires KeepsOwners(ops, owner)
    requires forall token :: token in w.sql ==> token in owner && owner[token] == w.sql[token].uid
    ensures AlwaysAdmissible(w, ops)
    decreases |ops|
  {
    if ops != [] {
      OwnersAdmissible(Step(w, ops[0]), ops[1..], owner);
    }
  }

  /** From empty stores, a run that gives every token one owner is looked up alike after every step. */
  lemma SameLookups(ops: seq<Op>, owner: map<string, string>)
    requires KeepsOwners(ops, owner)
    ensures AlwaysAgrees(START, ops)
  {
    StartRefines();
    OwnersAdmissible(START, ops, owner);
    RedisRefinesSql(START, ops);
  }

  /** A run in which `logout` revokes all sessions of a user who has another valid token: Redis still accepts it. */
  lemma RevokeAllDiffers()
    ensures var w := Run(START, [CreateOp("u", "t1", "n", 60), CreateOp("u", "t2", "n", 60), RevokeOp("t1"), RevokeAllOp("u")]);
            Lookup(w.redis.sessions, "t2", w.now).Some? && SqlLookup(w.sql, "t2", w.now).None?
  {
    var w1 := Step(START, CreateOp("u", "t1", "n", 60));
    var w2 := Step(w1, CreateOp("u", "t2", "n", 60));
    var w3 := Step(w2, RevokeOp("t1"));
    var w4 := Step(w3, RevokeAllOp("u"));
    var ops := [CreateOp("u", "t1", "n", 60), CreateOp("u", "t2", "n", 60), RevokeOp("t1"), RevokeAllOp("u")];
    assert "t1" != "t2";
    assert Run(START, ops) == Run(w1, ops[1..]) == Run(w2, ops[1..][1..]) == Run(w3, ops[1..][1..][1..])
        == Run(w4, ops[1..][1..][1..][1..]) == w4;
  }
}
