/**
 The MySQL connection pool and its careless client `verifyUser`.
 Handing out a connection is up to three steps: the pop under the mutex, then, outside it, the ping, which
 closes a stale handle, and the reconnection. A run is any interleaving of such steps by any number of callers.
 */
module ConnectionPool {
  import opened Common

  type Handle = nat
  type Caller = nat

  datatype Pool = Pool(
    size: nat,
    idle: seq<Handle>,
    active: int,
    checking: map<Caller, Handle>,  // popped, not yet pinged
    opening: set<Caller>,           // callers that found theirs stale and closed it
    held: map<Caller, Handle>,
    dropped: nat,                   // closed by a caller that never gave them back
    failed: nat                     // found stale and not reconnected
  )

  datatype Action =
    | Take(c: Caller)
    | Ping(c: Caller, ok: bool)
    | Reconnect(c: Caller, made: Option<Handle>)
    | GiveBack(c: Caller)
    | Drop(c: Caller)

  /** `h` is open and known to the pool or to one of its callers. */
  predicate Live(p: Pool, h: Handle) {
    h in p.idle || h in p.checking.Values || h in p.held.Values
  }

  predicate Legal(p: Pool, a: Action) {
    match a
    case Take(c) => c !in p.checking && c !in p.held && c !in p.opening
    case Ping(c, _) => c in p.checking
    case Reconnect(c, made) =>  // the address of a closed handle may come back
      c in p.opening && (made.Some? ==> !Live(p, made.value))
    case GiveBack(c) => c in p.held
    case Drop(c) => c in p.held
  }

  /** `Take` on an empty pool is the time-out: nothing changes. */
  function Step(p: Pool, a: Action): Pool
    requires Legal(p, a)
  {
    match a
    case Take(c) =>
      if p.idle == [] then p
      else p.(idle := p.idle[1..], active := p.active + 1, checking := p.checking[c := p.idle[0]])
    case Ping(c, ok) =>
      if ok then p.(checking := p.checking - {c}, held := p.held[c := p.checking[c]])
      else p.(checking := p.checking - {c}, opening := p.opening + {c})
    case Reconnect(c, made) =>
      if made.Some? then p.(opening := p.opening - {c}, held := p.held[c := made.value])
      else p.(opening := p.opening - {c}, active := p.active - 1, failed := p.failed + 1)
    case GiveBack(c) => p.(idle := p.idle + [p.held[c]], active := p.active - 1, held := p.held - {c})
    case Drop(c) => p.(held := p.held - {c}, dropped := p.dropped + 1)
  }

  predicate LegalRun(p: Pool, actions: seq<Action>)
    decreases |actions|
  {
    actions != [] ==> Legal(p, actions[0]) && LegalRun(Step(p, actions[0]), actions[1..])
  }

  function Run(p: Pool, actions: seq<Action>): Pool
    requires LegalRun(p, actions)
    decreases |actions|
  {
    if actions == [] then p else Run(Step(p, actions[0]), actions[1..])
  }

  function Filled(handles: seq<Handle>): Pool {
    Pool(|handles|, handles, 0, map[], {}, map[], 0, 0)
  }

  // ----- what every step keeps -----

  /** Every slot of the pool is accounted for, and the counter counts what is out plus what was dropped. */
  predicate Conserved(p: Pool) {
    && |p.idle| + |p.checking| + |p.opening| + |p.held| + p.dropped + p.failed == p.size
    && p.active == |p.checking| + |p.opening| + |p.held| + p.dropped
    && p.checking.Keys !! p.held.Keys
    && p.opening !! p.checking.Keys + p.held.Keys
  }

  predicate Injective(m: map<Caller, Handle>) {
    forall c, d :: c in m && d in m && c != d ==> m[c] != m[d]
  }

  /** No live handle is in two places. */
  predicate Exclusive(p: Pool) {
    && Distinct(p.idle)
    && Injective(p.checking)
    && Injective(p.held)
    && (forall c :: c in p.checking ==> p.checking[c] !in p.idle)
    && (forall c :: c in p.held ==> p.held[c] !in p.idle)
    && (forall c, d :: c in p.checking && d in p.held ==> p.checking[c] != p.held[d])
  }

  predicate Valid(p: Pool) {
    Conserved(p) && Exclusive(p)
  }

  lemma Without(m: map<Caller, Handle>, c: Caller)
    requires c in m
    ensures |m - {c}| == |m| - 1 && (m - {c}).Keys == m.Keys - {c}
  {
    assert (m - {c}).Keys == m.Keys - {c};
  }

  lemma With(m: map<Caller, Handle>, c: Caller, h: Handle)
    requires c !in m
    ensures |m[c := h]| == |m| + 1 && m[c := h].Keys == m.Keys + {c}
  {
    assert m[c := h].Keys == m.Keys + {c};
  }

  lemma PingConserves(p: Pool, c: Caller, ok: bool)
    requires Conserved(p) && Legal(p, Ping(c, ok))
    ensures Conserved(Step(p, Ping(c, ok)))
  {
    Without(p.checking, c);
    if ok {
      With(p.held, c, p.checking[c]);
    }
  }

  lemma ReconnectConserves(p: Pool, c: Caller, made: Option<Handle>)
    requires Conserved(p) && Legal(p, Reconnect(c, made))
    ensures Conserved(Step(p, Reconnect(c, made)))
  {
    if made.Some? {
      With(p.held, c, made.value);
    }
  }

  lemma TakeConserves(p: Pool, c: Caller)
    requires Conserved(p) && Legal(p, Take(c))
    ensures Conserved(Step(p, Take(c)))
  {
    if p.idle != [] {
      With(p.checking, c, p.idle[0]);
    }
  }

  lemma StepConserves(p: Pool, a: Action)
    requires Conserved(p) && Legal(p, a)
    ensures Conserved(Step(p, a))
  {
    match a
    case Take(c) => TakeConserves(p, c);
    case Ping(c, ok) => PingConserves(p, c, ok);
    case Reconnect(c, made) => ReconnectConserves(p, c, made);
    case GiveBack(c) => Without(p.held, c);
    case Drop(c) => Without(p.held, c);
  }

  lemma PingExclusive(p: Pool, a: Action)
    requires Exclusive(p) && Legal(p, a) && (a.Ping? || a.Reconnect?)
    ensures Exclusive(Step(p, a))
  {
    assert forall d :: d in p.checking ==> p.checking[d] in p.checking.Values;
    assert forall d :: d in p.held ==> p.held[d] in p.held.Values;
  }

  lemma StepExclusive(p: Pool, a: Action)
    requires Exclusive(p) && Legal(p, a)
    ensures Exclusive(Step(p, a))
  {
    if a.Ping? || a.Reconnect? {
      PingExclusive(p, a);
    }
  }

  lemma {:induction false} RunKeepsValid(p: Pool, actions: seq<Action>)
    requires Valid(p) && LegalRun(p, actions)
    ensures Valid(Run(p, actions))
    decreases |actions|
  {
    if actions != [] {
      StepConserves(p, actions[0]);
      StepExclusive(p, actions[0]);
      RunKeepsValid(Step(p, actions[0]), actions[1..]);
    }
  }

  /** Conservation and exclusivity in every interleaving, from a freshly filled pool. */
  lemma ConservedAndExclusive(handles: seq<Handle>, actions: seq<Action>)
    requires Distinct(handles) && LegalRun(Filled(handles), actions)
    ensures var p := Run(Filled(handles), actions);
            && |p.idle| + |p.checking| + |p.opening| + |p.held| + p.dropped + p.failed == p.size
            && p.active == |p.checking| + |p.opening| + |p.held| + p.dropped
            && Exclusive(p)
  {
    RunKeepsValid(Filled(handles), actions);
  }

  // ----- exhaustion -----

  /** The last step of the run takes a connection out. */
  predicate Serves(p: Pool, actions: seq<Action>)
    requires LegalRun(p, actions)
    decreases |actions|
  {
    actions != [] &&
    if |actions| == 1 then actions[0].Take? && p.idle != [] else Serves(Step(p, actions[0]), actions[1..])
  }

  ghost predicate ServesBy(p: Pool, actions: seq<Action>) {
    LegalRun(p, actions) && Serves(p, actions)
  }

  lemma {:induction false} ExhaustedNeverServes(p: Pool, actions: seq<Action>)
    requires Valid(p) && p.dropped + p.failed == p.size
    ensures !ServesBy(p, actions)
    decreases |actions|
  {
    if |actions| > 1 && Legal(p, actions[0]) {
      StepConserves(p, actions[0]);
      StepExclusive(p, actions[0]);
      assert |p.checking| == 0 && p.opening == {} && |p.held| == 0 && p.idle == [];
      ExhaustedNeverServes(Step(p, actions[0]), actions[1..]);
    }
  }

  lemma Prepend(p: Pool, a: Action, actions: seq<Action>)
    requires Legal(p, a) && LegalRun(Step(p, a), actions) && Serves(Step(p, a), actions)
    ensures LegalRun(p, [a] + actions) && Serves(p, [a] + actions)
  {
    assert ([a] + actions)[1..] == actions;
  }

  /** With the idle queue empty a holder gives back, and whoever is not there yet goes on. */
  lemma NextStep(p: Pool) returns (a: Action)
    requires Valid(p) && p.dropped + p.failed < p.size && p.idle == []
    ensures Legal(p, a)
    ensures Step(p, a).dropped == p.dropped && Step(p, a).failed == p.failed && Step(p, a).size == p.size
    ensures Step(p, a).idle != [] || |Step(p, a).checking| + |Step(p, a).opening| < |p.checking| + |p.opening|
  {
    if p.held != map[] {
      var c :| c in p.held;
      a := GiveBack(c);
    } else if p.opening != {} {
      var c :| c in p.opening;
      var h := Outside(p.checking.Values);
      a := Reconnect(c, Some(h));
    } else {
      assert p.checking != map[];
      var c :| c in p.checking;
      a := Ping(c, true);
      Without(p.checking, c);
    }
  }

  /** A free caller takes from the idle queue, after as many such steps as it needs. */
  lemma {:induction false} UnexhaustedServes(p: Pool) returns (actions: seq<Action>)
    requires Valid(p) && p.dropped + p.failed < p.size
    ensures ServesBy(p, actions)
    decreases |p.idle| == 0, |p.checking| + |p.opening|
  {
    if p.idle != [] {
      var c := Outside(p.checking.Keys + p.opening + p.held.Keys);
      actions := [Take(c)];
    } else {
      var a := NextStep(p);
      StepConserves(p, a);
      StepExclusive(p, a);
      var rest := UnexhaustedServes(Step(p, a));
      Prepend(p, a, rest);
      actions := [a] + rest;
    }
  }

  lemma {:induction false} Outside(s: set<nat>) returns (c: nat)
    ensures forall d :: d in s ==> d < c
    ensures c !in s
  {
    if s == {} {
      c := 0;
    } else {
      var x :| x in s;
      var smaller := Outside(s - {x});
      c := if x < smaller then smaller else x + 1;
      assert forall d :: d in s ==> d == x || d in s - {x};
    }
  }

  /** The pool can still serve somebody exactly when dropped and unreconnected handles do not add up to its size. */
  lemma ServesIffNotExhausted(p: Pool)
    requires Valid(p)
    ensures (exists actions :: ServesBy(p, actions)) <==> p.dropped + p.failed < p.size
  {
    if p.dropped + p.failed < p.size {
      var actions := UnexhaustedServes(p);
      assert ServesBy(p, actions);
    } else {
      forall actions
        ensures !ServesBy(p, actions)
      {
        ExhaustedNeverServes(p, actions);
      }
    }
  }

  // ----- the client that retries -----

  /** The outcome of the password query: it fails, or finds the user, or does not. */
  datatype Query = Broken | Found | NotFound

  /** The pool when caller `c` has closed a stale handle. */
  function Closed(p: Pool, c: Caller): Pool
    requires Legal(p, Take(c)) && p.idle != []
  {
    Step(Step(p, Take(c)), Ping(c, false))
  }

  /** The reconnection of a `getConnection` yields a handle that is not in use; it may reuse a closed one's address. */
  predicate GetLegal(p: Pool, c: Caller, ping: bool, made: Option<Handle>) {
    && Legal(p, Take(c))
    && (p.idle != [] && !ping ==> Legal(Closed(p, c), Reconnect(c, made)))
  }

  /** One `getConnection` of caller `c`, undisturbed. */
  function Get(p: Pool, c: Caller, ping: bool, made: Option<Handle>): Pool
    requires GetLegal(p, c, ping, made)
  {
    if p.idle == [] then p
    else if ping then Step(Step(p, Take(c)), Ping(c, true))
    else Step(Closed(p, c), Reconnect(c, made))
  }

  lemma GetHolds(p: Pool, c: Caller, ping: bool, made: Option<Handle>)
    requires GetLegal(p, c, ping, made)
    ensures var q := Get(p, c, ping, made);
            && q.size == p.size && q.checking == p.checking && q.opening == p.opening && q.dropped == p.dropped
            && (if c in q.held then q.held - {c} else q.held) == p.held
            && (c in q.held <==> p.idle != [] && (ping || made.Some?))
  {
  }

  lemma GetKeepsValid(p: Pool, c: Caller, ping: bool, made: Option<Handle>)
    requires Valid(p) && GetLegal(p, c, ping, made)
    ensures Valid(Get(p, c, ping, made))
  {
    if p.idle != [] {
      StepConserves(p, Take(c));
      StepExclusive(p, Take(c));
      StepConserves(Step(p, Take(c)), Ping(c, ping));
      StepExclusive(Step(p, Take(c)), Ping(c, ping));
      if !ping {
        StepConserves(Closed(p, c), Reconnect(c, made));
        StepExclusive(Closed(p, c), Reconnect(c, made));
      }
    }
  }

  /** What the environment answers one `verifyUser`, in order: pings, reconnections and password queries of its two tries. */
  datatype Answers = Answers(pings: seq<bool>, mades: seq<Option<Handle>>, queries: seq<Query>) {
    predicate Two() {
      |pings| == |mades| == |queries| == 2
    }
  }

  /** The pool when the second try starts: the first handle was closed and forgotten. */
  function Retried(p: Pool, c: Caller, e: Answers): Pool
    requires e.Two() && GetLegal(p, c, e.pings[0], e.mades[0])
    requires c in Get(p, c, e.pings[0], e.mades[0]).held
  {
    Step(Get(p, c, e.pings[0], e.mades[0]), Drop(c))
  }

  predicate RetryLegal(p: Pool, c: Caller, e: Answers)
    requires e.Two() && GetLegal(p, c, e.pings[0], e.mades[0])
    requires c in Get(p, c, e.pings[0], e.mades[0]).held
  {
    GetLegal(Retried(p, c, e), c, e.pings[1], e.mades[1])
  }

  predicate Possible(p: Pool, c: Caller, e: Answers) {
    && e.Two()
    && GetLegal(p, c, e.pings[0], e.mades[0])
    && (c in Get(p, c, e.pings[0], e.mades[0]).held && e.queries[0].Broken? ==> RetryLegal(p, c, e))
  }

  /** The second call of `getConnection`. */
  function GetAgain(p: Pool, c: Caller, e: Answers): Pool
    requires e.Two() && GetLegal(p, c, e.pings[0], e.mades[0])
    requires c in Get(p, c, e.pings[0], e.mades[0]).held && RetryLegal(p, c, e)
  {
    Get(Retried(p, c, e), c, e.pings[1], e.mades[1])
  }

  /** What `verifyUser` does to the pool, and what it answers. */
  function Verified(p: Pool, c: Caller, e: Answers): (Pool, bool)
    requires Possible(p, c, e)
  {
    var p1 := Get(p, c, e.pings[0], e.mades[0]);
    if c !in p1.held then (p1, false)
    else if !e.queries[0].Broken? then (Step(p1, GiveBack(c)), e.queries[0].Found?)
    else
      var p2 := GetAgain(p, c, e);
      if c !in p2.held then (p2, false) else (Step(p2, GiveBack(c)), e.queries[1].Found?)
  }

  /** From `p` to `q` caller `c` has come back empty-handed or with a handle, and `lost` handles were dropped. */
  predicate Comes(p: Pool, q: Pool, c: Caller, lost: nat) {
    && Valid(q)
    && q.size == p.size && q.checking == p.checking && q.opening == p.opening && q.dropped == p.dropped + lost
    && (if c in q.held then q.held - {c} else q.held) == p.held
  }

  lemma GivesBack(p: Pool, q: Pool, c: Caller, lost: nat)
    requires Comes(p, q, c, lost) && c in q.held && c !in p.held
    ensures Comes(p, Step(q, GiveBack(c)), c, lost) && Step(q, GiveBack(c)).held == p.held
  {
    StepConserves(q, GiveBack(c));
    StepExclusive(q, GiveBack(c));
  }

  lemma RetryKeeps(p: Pool, c: Caller, e: Answers)
    requires Possible(p, c, e) && Valid(p)
    requires c in Get(p, c, e.pings[0], e.mades[0]).held && e.queries[0].Broken?
    ensures Comes(p, GetAgain(p, c, e), c, 1)
  {
    var p1 := Get(p, c, e.pings[0], e.mades[0]);
    GetHolds(p, c, e.pings[0], e.mades[0]);
    GetKeepsValid(p, c, e.pings[0], e.mades[0]);
    StepConserves(p1, Drop(c));
    StepExclusive(p1, Drop(c));
    var p2 := Retried(p, c, e);
    assert p2.held == p.held && p2.checking == p.checking && p2.opening == p.opening;
    GetHolds(p2, c, e.pings[1], e.mades[1]);
    GetKeepsValid(p2, c, e.pings[1], e.mades[1]);
  }

  lemma VerifyUserComes(p: Pool, c: Caller, e: Answers)
    requires Possible(p, c, e) && Valid(p)
    ensures var q := Verified(p, c, e).0;
            q.held == p.held && Comes(p, q, c, if p.idle != [] && (e.pings[0] || e.mades[0].Some?) && e.queries[0].Broken? then 1 else 0)
  {
    var p1 := Get(p, c, e.pings[0], e.mades[0]);
    GetHolds(p, c, e.pings[0], e.mades[0]);
    GetKeepsValid(p, c, e.pings[0], e.mades[0]);
    if c in p1.held {
      if e.queries[0].Broken? {
        RetryKeeps(p, c, e);
        if c in GetAgain(p, c, e).held {
          GivesBack(p, GetAgain(p, c, e), c, 1);
        }
      } else {
        GivesBack(p, p1, c, 0);
      }
    }
  }

  /**
   `verifyUser` loses a handle for good exactly when it got a connection whose first query failed;
   a slot is lost, too, for each reconnection that failed; nothing else leaves the idle queue.
   */
  lemma VerifyUserLosses(p: Pool, c: Caller, e: Answers)
    requires Possible(p, c, e) && Valid(p)
    ensures var q := Verified(p, c, e).0;
            && Valid(q)
            && q.size == p.size && q.checking == p.checking && q.opening == p.opening && q.held == p.held
            && q.dropped == p.dropped + (if p.idle != [] && (e.pings[0] || e.mades[0].Some?) && e.queries[0].Broken? then 1 else 0)
            && |q.idle| + q.dropped + q.failed == |p.idle| + p.dropped + p.failed
            && q.active - p.active == q.dropped - p.dropped
  {
    VerifyUserComes(p, c, e);
  }

  lemma ReuseLegal(p: Pool, c: Caller, h: Handle)
    requires Exclusive(p) && Legal(p, Take(c)) && p.idle != []
    requires h == p.idle[0] || !Live(p, h)
    ensures GetLegal(p, c, false, Some(h))
  {
    var q := Closed(p, c);
    assert q.idle == p.idle[1..] && q.checking == p.checking && q.held == p.held;
    assert p.idle == [p.idle[0]] + q.idle;
  }

  lemma DroppedIsFree(p: Pool, c: Caller)
    requires Exclusive(p) && c in p.held && c !in p.checking
    ensures !Live(Step(p, Drop(c)), p.held[c])
  {
  }

  /** A reconnection may yield the address of the handle just closed, at either try. */
  lemma ReuseIsPossible(p: Pool, c: Caller, query: Query)
    requires Valid(p) && Legal(p, Take(c)) && |p.idle| >= 2
    ensures Possible(p, c, Answers([false, false], [Some(p.idle[0]), Some(p.idle[0])], [query, query]))
  {
    var h := p.idle[0];
    var e := Answers([false, false], [Some(h), Some(h)], [query, query]);
    ReuseLegal(p, c, h);
    GetKeepsValid(p, c, false, Some(h));
    GetHolds(p, c, false, Some(h));
    var p1 := Get(p, c, false, Some(h));
    assert p1.idle == p.idle[1..] && p1.held[c] == h;
    DroppedIsFree(p1, c);
    StepExclusive(p1, Drop(c));
    ReuseLegal(Retried(p, c, e), c, h);
  }

  /** Two callers that find their handles stale may each come back with the address of the other's. */
  lemma CrossedIsPossible(p: Pool, c: Caller, d: Caller)
    requires Exclusive(p) && c in p.checking && d in p.checking && c != d && c !in p.opening && d !in p.opening
    ensures var closed := Step(Step(p, Ping(c, false)), Ping(d, false));
            && Legal(closed, Reconnect(c, Some(p.checking[d])))
            && Legal(Step(closed, Reconnect(c, Some(p.checking[d]))), Reconnect(d, Some(p.checking[c])))
  {
    var closed := Step(Step(p, Ping(c, false)), Ping(d, false));
    assert closed.checking == p.checking - {c} - {d} && closed.held == p.held && closed.idle == p.idle;
    assert !Live(closed, p.checking[c]) && !Live(closed, p.checking[d]);
    var crossed := Step(closed, Reconnect(c, Some(p.checking[d])));
    assert crossed.held == p.held[c := p.checking[d]];
  }

  /**
   `verifyUser` says yes exactly when a query that got through found the user: the first one, or, when that
   one failed and another connection was to be had, the second.
   */
  lemma VerifyUserAnswers(p: Pool, c: Caller, e: Answers)
    requires Possible(p, c, e)
    ensures Verified(p, c, e).1 <==>
            && |p.idle| >= 1 && (e.pings[0] || e.mades[0].Some?)
            && (e.queries[0].Found? ||
                (e.queries[0].Broken? && |p.idle| >= 2 && (e.pings[1] || e.mades[1].Some?) && e.queries[1].Found?))
  {
    var p1 := Get(p, c, e.pings[0], e.mades[0]);
    GetHolds(p, c, e.pings[0], e.mades[0]);
    if c in p1.held && e.queries[0].Broken? {
      assert p1.idle == p.idle[1..];
      GetHolds(Retried(p, c, e), c, e.pings[1], e.mades[1]);
    }
  }

  predicate CanTake(p: Pool, callers: seq<Caller>) {
    && Distinct(callers) && |callers| <= |p.idle|
    && (forall c :: c in callers ==> Legal(p, Take(c)))
  }

  lemma TakeFirst(p: Pool, callers: seq<Caller>)
    requires callers != [] && CanTake(p, callers)
    ensures CanTake(Step(p, Take(callers[0])), callers[1..])
    ensures Takes(callers)[1..] == Takes(callers[1..])
  {
    assert forall i :: 0 <= i < |callers| - 1 ==> callers[1..][i] == callers[i + 1];
  }

  lemma {:induction false} TakesLegal(p: Pool, callers: seq<Caller>)
    requires CanTake(p, callers)
    ensures LegalRun(p, Takes(callers)) && Run(p, Takes(callers)).idle == p.idle[|callers|..]
    ensures forall c :: c in p.checking ==> c in Run(p, Takes(callers)).checking && Run(p, Takes(callers)).checking[c] == p.checking[c]
    decreases |callers|
  {
    if callers != [] {
      TakeFirst(p, callers);
      TakesLegal(Step(p, Take(callers[0])), callers[1..]);
    }
  }

  /** Connections are handed out in the order of the idle queue, to whose end each returns. */
  lemma {:induction false} UsedInTurn(p: Pool, callers: seq<Caller>, i: nat)
    requires CanTake(p, callers) && i < |callers|
    ensures LegalRun(p, Takes(callers))
    ensures var q := Run(p, Takes(callers)); callers[i] in q.checking && q.checking[callers[i]] == p.idle[i]
    decreases |callers|
  {
    var p1 := Step(p, Take(callers[0]));
    TakesLegal(p, callers);
    TakeFirst(p, callers);
    TakesLegal(p1, callers[1..]);
    if i > 0 {
      UsedInTurn(p1, callers[1..], i - 1);
    } else {
      assert callers[0] in p1.checking && p1.checking[callers[0]] == p.idle[0];
    }
  }

  function Takes(callers: seq<Caller>): seq<Action> {
    if callers == [] then [] else [Take(callers[0])] + Takes(callers[1..])
  }

  // ----- the pool itself -----

  class MySQLPool {
    var maxSize: nat
    var idle: seq<Handle>
    var active: int
    ghost var checking: map<Caller, Handle>
    ghost var opening: set<Caller>
    ghost var held: map<Caller, Handle>
    ghost var dropped: nat
    ghost var failed: nat

    ghost function View(): Pool
      reads this
    {
      Pool(maxSize, idle, active, checking, opening, held, dropped, failed)
    }

    constructor ()
      ensures View() == Filled([])
    {
      maxSize, idle, active := 0, [], 0;
      checking, opening, held, dropped, failed := map[], {}, map[], 0, 0;
    }

    /** `created` is what the successive connection attempts yield. */
    method Init(poolSize: int, hardware: nat, created: seq<Option<Handle>>) returns (ok: bool)
      requires View() == Filled([])
      requires |created| == if poolSize > 0 then poolSize else if hardware > 0 then hardware else 8
      modifies this
      ensures ok <==> forall o :: o in created ==> o.Some?
      ensures ok ==> View() == Filled(seq(|created|, i requires 0 <= i < |created| && created[i].Some? => created[i].value))
      ensures !ok ==> |idle| < maxSize == |created| && created[|idle|].None?
      ensures |idle| <= |created| && forall i :: 0 <= i < |idle| ==> created[i] == Some(idle[i])
      ensures View() == Filled([]).(size := |created|, idle := idle)
    {
      var n := poolSize;
      if n <= 0 {
        n := hardware;
        if n <= 0 {
          n := 8;
        }
      }
      maxSize := n;
      for i := 0 to n
        invariant |idle| == i
        invariant forall j :: 0 <= j < i ==> created[j] == Some(idle[j])
        invariant View() == Filled([]).(size := n, idle := idle)
      {
        var conn := created[i];
        if conn.None? {
          assert created[i] in created;
          return false;
        }
        idle := idle + [conn.value];
      }
      forall o | o in created ensures o.Some? {
        var j :| 0 <= j < |created| && created[j] == o;
      }
      return true;
    }

    /** Undisturbed, pop, ping and reconnection are the steps of the runs above. */
    method GetConnection(ghost c: Caller, ping: bool, made: Option<Handle>) returns (conn: Option<Handle>)
      requires GetLegal(View(), c, ping, made)
      modifies this
      ensures View() == Get(old(View()), c, ping, made)
      ensures conn.Some? ==> c in held && held[c] == conn.value
      ensures conn.None? ==> c !in held && c !in checking
      ensures conn == if old(idle) == [] then None else if ping then Some(old(idle)[0]) else made
    {
      if idle == [] {
        return None;
      }
      conn := Some(idle[0]);
      idle := idle[1..];
      active := active + 1;
      checking := checking[c := conn.value];
      if !ping {
        checking, opening := checking - {c}, opening + {c};
        conn := made;
        opening := opening - {c};
        if conn.None? {
          active := active - 1;
          failed := failed + 1;
          return None;
        }
      }
      checking, held := checking - {c}, held[c := conn.value];
    }

    method ReturnConnection(ghost c: Caller, conn: Handle)
      requires c in held && held[c] == conn
      modifies this
      ensures View() == Step(old(View()), GiveBack(c))
      ensures idle == old(idle) + [conn] && active == old(active) - 1
    {
      idle := idle + [conn];
      active := active - 1;
      held := held - {c};
    }

    /** A caller closes its handle without telling the pool. */
    ghost method Forget(c: Caller)
      requires c in held
      modifies this`held, this`dropped
      ensures View() == Step(old(View()), Drop(c))
    {
      held, dropped := held - {c}, dropped + 1;
    }
  }

  class MySQLUserRepo {
    const pool: MySQLPool

    constructor (pool: MySQLPool)
      ensures this.pool == pool
    {
      this.pool := pool;
    }

    method VerifyUser(ghost c: Caller, e: Answers) returns (ok: bool)
      requires Possible(pool.View(), c, e)
      modifies pool
      ensures (pool.View(), ok) == Verified(old(pool.View()), c, e)
      ensures ok <==>
              && |old(pool.idle)| >= 1 && (e.pings[0] || e.mades[0].Some?)
              && (e.queries[0].Found? ||
                  (e.queries[0].Broken? && |old(pool.idle)| >= 2 && (e.pings[1] || e.mades[1].Some?) && e.queries[1].Found?))
    {
      VerifyUserAnswers(pool.View(), c, e);
      ghost var p := pool.View();
      var conn := pool.GetConnection(c, e.pings[0], e.mades[0]);
      if conn.None? {
        return false;
      }
      ok := false;
      var retry := 0;
      while retry < 2
        invariant 0 <= retry <= 2 && conn.Some? && !ok
        invariant c in Get(p, c, e.pings[0], e.mades[0]).held
        invariant retry > 0 ==> e.queries[0].Broken?
        invariant retry > 1 ==> e.queries[1].Broken?
        invariant pool.View() == if retry == 0 then Get(p, c, e.pings[0], e.mades[0]) else GetAgain(p, c, e)
        invariant c in pool.held && pool.held[c] == conn.value
      {
        if !e.queries[retry].Broken? {
          ok := e.queries[retry].Found?;
          break;
        }
        if retry == 0 {
          pool.Forget(c);
          conn := pool.GetConnection(c, e.pings[1], e.mades[1]);
          if conn.None? {
            return false;
          }
        }
        retry := retry + 1;
      }
      pool.ReturnConnection(c, conn.value);
    }
  }
}
