/** The numbers that messages get inside a room, under any interleaving of the calls that store them. */
module RoomSequence {
  import opened Messages

  /** How many rows of the room carry the number `v`. */
  function Rows(ms: seq<Message>, room: nat, v: nat): nat {
    if ms == [] then 0 else
    Rows(ms[..|ms| - 1], room, v) + if ms[|ms| - 1].room == room && ms[|ms| - 1].seqNo == v then 1 else 0
  }

  /** The numbers of the room's rows, in the order of their ids. */
  function Numbers(ms: seq<Message>, room: nat): seq<nat> {
    if ms == [] then [] else
    Numbers(ms[..|ms| - 1], room) + if ms[|ms| - 1].room == room then [ms[|ms| - 1].seqNo] else []
  }

  /** The calls that have read the number `v` for the room and not yet inserted. */
  function Pending(inserts: map<CallId, Insert>, room: nat, v: nat): set<CallId> {
    set c | c in inserts && inserts[c].room == room && inserts[c].seqNo == v
  }

  function InFlight(inserts: map<CallId, Insert>, room: nat): set<CallId> {
    set c | c in inserts && inserts[c].room == room
  }

  lemma Appended(ms: seq<Message>, m: Message, room: nat)
    ensures MaxSeq(ms + [m], room) ==
            if m.room == room && m.seqNo > MaxSeq(ms, room) then m.seqNo else MaxSeq(ms, room)
    ensures forall v: nat :: Rows(ms + [m], room, v) == Rows(ms, room, v) + if m.room == room && m.seqNo == v then 1 else 0
    ensures Numbers(ms + [m], room) == Numbers(ms, room) + if m.room == room then [m.seqNo] else []
  {
    assert (ms + [m])[..|ms|] == ms;
  }

  lemma {:induction false} SameNumbers(ms: seq<Message>, ns: seq<Message>, room: nat)
    requires |ms| == |ns| && forall i :: 0 <= i < |ms| ==> ms[i].room == ns[i].room && ms[i].seqNo == ns[i].seqNo
    ensures MaxSeq(ms, room) == MaxSeq(ns, room)
    ensures forall v: nat :: Rows(ms, room, v) == Rows(ns, room, v)
    ensures Numbers(ms, room) == Numbers(ns, room)
  {
    if ms != [] {
      SameNumbers(ms[..|ms| - 1], ns[..|ns| - 1], room);
    }
  }

  // ----- no gaps -----

  /** The numbers in use are exactly 1 up to the highest one, and every number read is at most one higher. */
  ghost predicate GapFree(s: State, room: nat) {
    && (forall v: nat :: Rows(s.messages, room, v) > 0 <==> 1 <= v <= MaxSeq(s.messages, room))
    && (forall c :: c in s.inserts && s.inserts[c].room == room ==> 1 <= s.inserts[c].seqNo <= MaxSeq(s.messages, room) + 1)
  }

  lemma StepGapFree(s: State, a: Action, room: nat)
    requires Legal(s, a) && GapFree(s, room) && room > 0
    ensures GapFree(Step(s, a), room)
  {
    match a
    case EndStore(c, ok) => Appended(s.messages, NewRow(s.inserts[c], s.lastId + 1, s.now), room);
    case Update(c) => SameNumbers(s.messages, Step(s, a).messages, room);
    case _ =>
  }

  lemma {:induction false} RunGapFree(s: State, actions: seq<Action>, room: nat)
    requires LegalRun(s, actions) && GapFree(s, room) && room > 0
    ensures GapFree(Run(s, actions), room)
    decreases |actions|
  {
    if actions != [] {
      StepGapFree(s, actions[0], room);
      RunGapFree(Step(s, actions[0]), actions[1..], room);
    }
  }

  /** In every run, even when reads of the highest number fail, the numbers stored for a room are exactly 1..max. */
  lemma NumbersHaveNoGap(actions: seq<Action>, room: nat)
    requires LegalRun(START, actions) && room > 0
    ensures var ms := Run(START, actions).messages;
            forall v: nat :: Rows(ms, room, v) > 0 <==> 1 <= v <= MaxSeq(ms, room)
  {
    RunGapFree(START, actions, room);
  }

  // ----- how often a number repeats -----

  /** At most `k` calls for the room are between their read and their insert, at every moment of the run. */
  predicate AtMost(s: State, actions: seq<Action>, room: nat, k: nat)
    requires LegalRun(s, actions)
    decreases |actions|
  {
    && |InFlight(s.inserts, room)| <= k
    && (actions != [] ==> AtMost(Step(s, actions[0]), actions[1..], room, k))
  }

  /** The calls for the room read its highest number successfully. */
  predicate ReadsSucceed(actions: seq<Action>, room: nat) {
    forall a :: a in actions && a.BeginStore? && a.room == room ==> a.read
  }

  predicate Bounded(s: State, room: nat, k: nat, v: nat) {
    Rows(s.messages, room, v) + |Pending(s.inserts, room, v)| <= k
  }

  lemma SubsetSize<T>(a: set<T>, b: set<T>)
    requires a <= b
    ensures |a| <= |b|
  {
    assert |b| == |a| + |b - a| by {
      assert b == a + (b - a);
    }
  }

  lemma BeginBounded(s: State, a: Action, room: nat, k: nat, v: nat)
    requires Legal(s, a) && a.BeginStore? && GapFree(s, room) && room > 0 && Bounded(s, room, k, v)
    requires |InFlight(Step(s, a).inserts, room)| <= k
    requires v == 1 && a.room == room ==> a.read
    ensures Bounded(Step(s, a), room, k, v)
  {
    var s' := Step(s, a);
    if a.room == room && a.read && v == MaxSeq(s.messages, room) + 1 {
      assert Rows(s.messages, room, v) == 0;
      SubsetSize(Pending(s'.inserts, room, v), InFlight(s'.inserts, room));
    } else {
      assert v != 0 || Pending(s'.inserts, room, v) == {};
      assert Pending(s'.inserts, room, v) == Pending(s.inserts, room, v);
    }
  }

  lemma PendingWithout(inserts: map<CallId, Insert>, c: CallId, room: nat, v: nat)
    requires c in inserts
    ensures |Pending(inserts - {c}, room, v)| ==
            |Pending(inserts, room, v)| - if inserts[c].room == room && inserts[c].seqNo == v then 1 else 0
  {
    assert Pending(inserts - {c}, room, v) == Pending(inserts, room, v) - {c};
  }

  lemma EndBounded(s: State, a: Action, room: nat, k: nat, v: nat)
    requires Legal(s, a) && a.EndStore? && Bounded(s, room, k, v)
    ensures Bounded(Step(s, a), room, k, v)
  {
    PendingWithout(s.inserts, a.c, room, v);
    Appended(s.messages, NewRow(s.inserts[a.c], s.lastId + 1, s.now), room);
  }

  lemma {:induction false} RunBounded(s: State, actions: seq<Action>, room: nat, k: nat, v: nat)
    requires LegalRun(s, actions) && room > 0 && AtMost(s, actions, room, k)
    requires v == 1 ==> ReadsSucceed(actions, room)
    requires GapFree(s, room) && Bounded(s, room, k, v)
    ensures Bounded(Run(s, actions), room, k, v)
    decreases |actions|
  {
    if actions != [] {
      var a := actions[0];
      var s' := Step(s, a);
      StepGapFree(s, a, room);
      match a {
        case BeginStore(_, _, _, _, _, _) => BeginBounded(s, a, room, k, v);
        case EndStore(_, _) => EndBounded(s, a, room, k, v);
        case Update(_) => SameNumbers(s.messages, s'.messages, room);
        case _ =>
      }
      RunBounded(s', actions[1..], room, k, v);
    }
  }

  /** With at most `k` calls in flight, no number of the room is used by more than `k` rows; failing reads spoil only number 1. */
  lemma DuplicatesBounded(actions: seq<Action>, room: nat, k: nat, v: nat)
    requires LegalRun(START, actions) && room > 0 && AtMost(START, actions, room, k)
    requires v == 1 ==> ReadsSucceed(actions, room)
    ensures Rows(Run(START, actions).messages, room, v) <= k
  {
    assert Pending(START.inserts, room, v) == {};
    RunBounded(START, actions, room, k, v);
  }

  // ----- the bound is attained -----

  function Begins(room: nat, n: nat): seq<Action> {
    if n == 0 then [] else Begins(room, n - 1) + [BeginStore(n - 1, room, true, "", "", "")]
  }

  function Ends(n: nat): seq<Action> {
    if n == 0 then [] else [EndStore(n - 1, true)] + Ends(n - 1)
  }

  lemma {:induction false} BeginsRead(room: nat, n: nat)
    ensures ReadsSucceed(Begins(room, n), room)
  {
    if n != 0 {
      BeginsRead(room, n - 1);
    }
  }

  lemma {:induction false} EndsOnlyEnd(n: nat)
    ensures forall a :: a in Ends(n) ==> a.EndStore?
  {
    if n != 0 {
      EndsOnlyEnd(n - 1);
    }
  }

  function Waiting(room: nat, n: nat): (r: map<CallId, Insert>)
    ensures forall c :: c in r ==> c < n && r[c] == Insert(room, 1, "", "", "")
  {
    if n == 0 then map[] else Waiting(room, n - 1)[n - 1 := Insert(room, 1, "", "", "")]
  }

  lemma {:induction false} RunAppend(s: State, xs: seq<Action>, ys: seq<Action>, room: nat, k: nat)
    requires LegalRun(s, xs) && AtMost(s, xs, room, k)
    requires LegalRun(Run(s, xs), ys) && AtMost(Run(s, xs), ys, room, k)
    ensures LegalRun(s, xs + ys) && AtMost(s, xs + ys, room, k)
    ensures Run(s, xs + ys) == Run(Run(s, xs), ys)
    decreases |xs|
  {
    if xs == [] {
      assert xs + ys == ys;
    } else {
      RunAppend(Step(s, xs[0]), xs[1..], ys, room, k);
      assert (xs + ys)[1..] == xs[1..] + ys;
    }
  }

  lemma InFlightSize(room: nat, n: nat)
    ensures |InFlight(Waiting(room, n), room)| == n
  {
    if n == 0 {
      assert InFlight(Waiting(room, n), room) == {};
    } else {
      InFlightSize(room, n - 1);
      assert InFlight(Waiting(room, n), room) == InFlight(Waiting(room, n - 1), room) + {n - 1};
    }
  }

  lemma {:induction false} RunBegins(room: nat, n: nat, k: nat)
    requires n <= k && room > 0
    ensures LegalRun(START, Begins(room, n)) && AtMost(START, Begins(room, n), room, k)
    ensures Run(START, Begins(room, n)) == START.(inserts := Waiting(room, n))
  {
    if n == 0 {
      assert Waiting(room, 0) == map[];
      assert InFlight(map[], room) == {};
    } else {
      RunBegins(room, n - 1, k);
      var s := START.(inserts := Waiting(room, n - 1));
      var a := BeginStore(n - 1, room, true, "", "", "");
      assert Step(s, a).inserts == Waiting(room, n);
      InFlightSize(room, n - 1);
      InFlightSize(room, n);
      assert [a][1..] == [];
      RunAppend(START, Begins(room, n - 1), [a], room, k);
    }
  }

  lemma {:induction false} RunEnds(s: State, room: nat, n: nat, k: nat)
    requires n <= k && room > 0 && s.inserts == Waiting(room, n)
    ensures LegalRun(s, Ends(n)) && AtMost(s, Ends(n), room, k)
    ensures Rows(Run(s, Ends(n)).messages, room, 1) == Rows(s.messages, room, 1) + n
    decreases n
  {
    InFlightSize(room, n);
    if n != 0 {
      var a := EndStore(n - 1, true);
      var s' := Step(s, a);
      assert s'.inserts == Waiting(room, n - 1);
      Appended(s.messages, NewRow(s.inserts[n - 1], s.lastId + 1, s.now), room);
      RunEnds(s', room, n - 1, k);
      assert Ends(n)[1..] == Ends(n - 1);
    }
  }

  /** For every `k` there is a run with never more than `k` calls in flight that uses one number `k` times. */
  lemma DuplicateBoundAttained(room: nat, k: nat) returns (actions: seq<Action>)
    requires room > 0
    ensures LegalRun(START, actions) && AtMost(START, actions, room, k) && ReadsSucceed(actions, room)
    ensures Rows(Run(START, actions).messages, room, 1) == k
  {
    BeginsRead(room, k);
    EndsOnlyEnd(k);
    RunBegins(room, k, k);
    RunEnds(Run(START, Begins(room, k)), room, k, k);
    RunAppend(START, Begins(room, k), Ends(k), room, k);
    actions := Begins(room, k) + Ends(k);
  }

  // ----- one at a time -----

  ghost predicate InOrder(s: State, room: nat) {
    && |Numbers(s.messages, room)| == MaxSeq(s.messages, room)
    && (forall i :: 0 <= i < |Numbers(s.messages, room)| ==> Numbers(s.messages, room)[i] == i + 1)
    && (forall c :: c in InFlight(s.inserts, room) ==> s.inserts[c].seqNo == MaxSeq(s.messages, room) + 1)
  }

  lemma OnlyOne<T>(s: set<T>, x: T, y: T)
    requires |s| <= 1 && x in s && y in s
    ensures x == y
  {
    if x != y {
      SubsetSize({x, y}, s);
    }
  }

  lemma EndInOrder(s: State, c: CallId, ok: bool, room: nat)
    requires c in s.inserts && room > 0 && InOrder(s, room)
    requires |InFlight(s.inserts, room)| <= 1
    ensures InOrder(Step(s, EndStore(c, ok)), room)
  {
    var s' := Step(s, EndStore(c, ok));
    var numbers := Numbers(s.messages, room);
    Appended(s.messages, NewRow(s.inserts[c], s.lastId + 1, s.now), room);
    if c in InFlight(s.inserts, room) {
      forall d | d in InFlight(s'.inserts, room) ensures false {
        OnlyOne(InFlight(s.inserts, room), c, d);
      }
    }
    assert InFlight(s'.inserts, room) <= InFlight(s.inserts, room);
  }

  lemma StepInOrder(s: State, a: Action, room: nat)
    requires Legal(s, a) && room > 0 && InOrder(s, room)
    requires |InFlight(s.inserts, room)| <= 1 && ReadsSucceed([a], room)
    ensures InOrder(Step(s, a), room)
  {
    var s' := Step(s, a);
    assert a in [a];
    match a
    case EndStore(c, ok) => EndInOrder(s, c, ok, room);
    case Update(_) => SameNumbers(s.messages, s'.messages, room);
    case BeginStore(c, _, _, _, _, _) =>
      assert forall d :: d in InFlight(s'.inserts, room) ==> d == c || d in InFlight(s.inserts, room);
    case _ =>
  }

  lemma {:induction false} RunInOrder(s: State, actions: seq<Action>, room: nat)
    requires LegalRun(s, actions) && room > 0 && InOrder(s, room) && AtMost(s, actions, room, 1)
    requires ReadsSucceed(actions, room)
    ensures InOrder(Run(s, actions), room)
    decreases |actions|
  {
    if actions != [] {
      StepInOrder(s, actions[0], room);
      RunInOrder(Step(s, actions[0]), actions[1..], room);
    }
  }

  function EarlierInRoom(ms: seq<Message>, room: nat, i: nat): set<nat>
    requires i <= |ms|
  {
    set j: nat | j < i && ms[j].room == room
  }

  lemma {:induction false} NumberIsPosition(ms: seq<Message>, room: nat, i: nat)
    requires i < |ms| && ms[i].room == room
    requires forall k :: 0 <= k < |Numbers(ms, room)| ==> Numbers(ms, room)[k] == k + 1
    ensures ms[i].seqNo == |EarlierInRoom(ms, room, i)| + 1
    decreases |ms|
  {
    var front := ms[..|ms| - 1];
    assert Numbers(front, room) <= Numbers(ms, room);
    if i == |ms| - 1 {
      EarlierCount(ms, room, i);
      assert ms[..i] == front;
      assert Numbers(ms, room)[|Numbers(front, room)|] == ms[i].seqNo;
    } else {
      NumberIsPosition(front, room, i);
      assert EarlierInRoom(front, room, i) == EarlierInRoom(ms, room, i);
    }
  }

  lemma {:induction false} EarlierCount(ms: seq<Message>, room: nat, i: nat)
    requires i <= |ms|
    ensures |Numbers(ms[..i], room)| == |EarlierInRoom(ms, room, i)|
  {
    if i == 0 {
      assert EarlierInRoom(ms, room, 0) == {};
    } else {
      EarlierCount(ms, room, i - 1);
      assert ms[..i][..i - 1] == ms[..i - 1];
      assert EarlierInRoom(ms, room, i) == EarlierInRoom(ms, room, i - 1) + if ms[i - 1].room == room then {i - 1} else {};
    }
  }

  /** Stored one at a time, each message of a room is numbered by its place among those of the room: 1, 2, ... in the order of their ids. */
  lemma OneAtATimeInOrder(actions: seq<Action>, room: nat, i: nat)
    requires LegalRun(START, actions) && room > 0 && AtMost(START, actions, room, 1) && ReadsSucceed(actions, room)
    requires i < |Run(START, actions).messages| && Run(START, actions).messages[i].room == room
    ensures var ms := Run(START, actions).messages; ms[i].seqNo == |EarlierInRoom(ms, room, i)| + 1
  {
    RunInOrder(START, actions, room);
    NumberIsPosition(Run(START, actions).messages, room, i);
  }
}
