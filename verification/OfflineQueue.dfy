/** The offline queue: messages kept for a user, fetched at login and marked delivered afterwards. */
module OfflineQueue {
  import opened Common

  type MsgId = nat

  datatype Row = Row(target: string, msg: MsgId, delivered: bool)

  /** The `offline_messages` table in the order of its ids. */
  type Table = seq<Row>

  datatype Event =
    | Add(uid: string, msg: MsgId)
    | Fetch(uid: string)
    | Mark(uid: string)

  /** SELECT ... WHERE target_uid = uid AND delivered = 0 ORDER BY id */
  function Undelivered(t: Table, uid: string): seq<MsgId> {
    if t == [] then [] else
    var last := t[|t| - 1];
    Undelivered(t[..|t| - 1], uid) + if last.target == uid && !last.delivered then [last.msg] else []
  }

  /** UPDATE ... SET delivered = 1 WHERE target_uid = uid AND delivered = 0 */
  function MarkAll(t: Table, uid: string): (r: Table)
    ensures |r| == |t|
    ensures forall i :: 0 <= i < |t| ==> r[i] == if t[i].target == uid then t[i].(delivered := true) else t[i]
  {
    seq(|t|, i requires 0 <= i < |t| => if t[i].target == uid then t[i].(delivered := true) else t[i])
  }

  /** `adds` and `sent` are the history of user `uid`: what was queued, and what fetches have returned. */
  datatype Queue = Queue(table: Table, uid: string, adds: seq<MsgId>, sent: seq<MsgId>)

  function Step(q: Queue, e: Event): Queue {
    match e
    case Add(uid, msg) =>
      q.(table := q.table + [Row(uid, msg, false)], adds := if uid == q.uid then q.adds + [msg] else q.adds)
    case Fetch(uid) =>
      q.(sent := if uid == q.uid then q.sent + Undelivered(q.table, uid) else q.sent)
    case Mark(uid) =>
      q.(table := MarkAll(q.table, uid))
  }

  function Run(q: Queue, events: seq<Event>): Queue
    decreases |events|
  {
    if events == [] then q else Run(Step(q, events[0]), events[1..])
  }

  function Open(q: Queue): seq<MsgId> {
    Undelivered(q.table, q.uid)
  }

  /** Everything queued for the user has been sent exactly once and in order, or is still to be sent. */
  predicate ExactlyOnce(q: Queue) {
    q.sent + Open(q) == q.adds
  }

  lemma {:induction false} MarkUndelivered(t: Table, uid: string, other: string)
    ensures Undelivered(MarkAll(t, uid), other) == if uid == other then [] else Undelivered(t, other)
  {
    if t != [] {
      MarkUndelivered(t[..|t| - 1], uid, other);
      assert MarkAll(t, uid)[..|t| - 1] == MarkAll(t[..|t| - 1], uid);
    }
  }

  lemma StepOpen(q: Queue, e: Event)
    ensures Open(Step(q, e)) ==
            match e
            case Add(uid, msg) => if uid == q.uid then Open(q) + [msg] else Open(q)
            case Fetch(_) => Open(q)
            case Mark(uid) => if uid == q.uid then [] else Open(q)
  {
    match e
    case Add(uid, msg) => assert (q.table + [Row(uid, msg, false)])[..|q.table|] == q.table;
    case Mark(uid) => MarkUndelivered(q.table, uid, q.uid);
    case Fetch(_) =>
  }

  // ----- runs in which every fetch is followed by its mark -----

  /**
   Between a fetch of the user that returned something and its mark, nothing is added or fetched for
   the user; a fetch that returned nothing is not marked. `busy` says that a mark is due.
   */
  predicate Disciplined(q: Queue, events: seq<Event>, busy: bool)
    decreases |events|
  {
    events != [] ==>
      var e := events[0];
      if e.uid != q.uid then Disciplined(Step(q, e), events[1..], busy)
      else if busy then e.Mark? && Disciplined(Step(q, e), events[1..], false)
      else !e.Mark? && Disciplined(Step(q, e), events[1..], e.Fetch? && Open(q) != [])
  }

  function BusyAfter(q: Queue, events: seq<Event>, busy: bool): bool
    decreases |events|
  {
    if events == [] then busy else
    var e := events[0];
    BusyAfter(Step(q, e), events[1..], if e.uid != q.uid then busy else !busy && e.Fetch? && Open(q) != [])
  }

  lemma {:induction false} DisciplinedRun(q: Queue, events: seq<Event>, busy: bool)
    requires Disciplined(q, events, busy)
    requires if busy then q.sent == q.adds else ExactlyOnce(q)
    ensures var r := Run(q, events);
            if BusyAfter(q, events, busy) then r.sent == r.adds else ExactlyOnce(r)
    decreases |events|
  {
    if events != [] {
      var e := events[0];
      var q' := Step(q, e);
      StepOpen(q, e);
      if e.Add? && e.uid == q.uid {
        assert q.sent + (Open(q) + [e.msg]) == (q.sent + Open(q)) + [e.msg];
      }
      var busy' := if e.uid != q.uid then busy else !busy && e.Fetch? && Open(q) != [];
      DisciplinedRun(q', events[1..], busy');
    }
  }

  /** From an empty table, in every disciplined run, batches sent and messages still open are the adds, in order. */
  lemma ExactlyOnceFifo(uid: string, events: seq<Event>)
    requires Disciplined(Queue([], uid, [], []), events, false)
    ensures var r := Run(Queue([], uid, [], []), events);
            if BusyAfter(Queue([], uid, [], []), events, false) then r.sent == r.adds else r.sent + Open(r) == r.adds
  {
    DisciplinedRun(Queue([], uid, [], []), events, false);
  }

  // ----- complete runs: the discipline is also necessary -----

  /** `due` counts the fetches of the user that returned something and are still to be marked; no other mark is made. */
  predicate Complete(q: Queue, events: seq<Event>, due: nat)
    decreases |events|
  {
    if events == [] then due == 0 else
    var e := events[0];
    if e.uid != q.uid then Complete(Step(q, e), events[1..], due)
    else match e
      case Add(_, _) => Complete(Step(q, e), events[1..], due)
      case Fetch(_) => Complete(Step(q, e), events[1..], due + if Open(q) != [] then 1 else 0)
      case Mark(_) => due > 0 && Complete(Step(q, e), events[1..], due - 1)
  }

  lemma {:induction false} RunGrows(q: Queue, events: seq<Event>)
    ensures Run(q, events).uid == q.uid && q.sent <= Run(q, events).sent && q.adds <= Run(q, events).adds
    decreases |events|
  {
    if events != [] {
      RunGrows(Step(q, events[0]), events[1..]);
    }
  }

  /** A message sent twice stays sent twice. */
  lemma RepeatedStays(q: Queue, events: seq<Event>)
    requires !Distinct(q.sent) && Distinct(Run(q, events).adds)
    ensures !ExactlyOnce(Run(q, events))
  {
    RunGrows(q, events);
    var r := Run(q, events);
    var i, j :| 0 <= i < j < |q.sent| && q.sent[i] == q.sent[j];
    assert (r.sent + Open(r))[i] == r.sent[i] == r.sent[j] == (r.sent + Open(r))[j];
  }

  lemma MemberOfSum(a: seq<MsgId>, b: seq<MsgId>, m: MsgId)
    ensures m in a + b <==> m in a || m in b
  {
  }

  /** A message that is neither sent nor open is never sent. */
  lemma {:induction false} LostStays(q: Queue, events: seq<Event>, m: MsgId)
    requires m in q.adds && m !in q.sent && m !in Open(q) && Distinct(Run(q, events).adds)
    ensures !ExactlyOnce(Run(q, events))
    decreases |events|
  {
    if events == [] {
      MemberOfSum(q.sent, Open(q), m);
    } else {
      var e := events[0];
      var q' := Step(q, e);
      StepOpen(q, e);
      if e.Add? && e.uid == q.uid && e.msg == m {
        RunGrows(q', events[1..]);
        AddedOnce(q.adds, Run(q, events).adds, m);
      }
      LostStays(q', events[1..], m);
    }
  }

  lemma AddedOnce(before: seq<MsgId>, after: seq<MsgId>, m: MsgId)
    requires before + [m] <= after && Distinct(after)
    ensures m !in before
  {
    var longer := before + [m];
    forall i | 0 <= i < |before| ensures before[i] != m {
      assert after[i] == longer[i] && after[|before|] == longer[|before|];
    }
  }

  lemma FetchAgain(q: Queue, m: MsgId)
    requires m in Open(q) && m in q.sent
    ensures !Distinct(q.sent + Open(q))
  {
    var i :| 0 <= i < |q.sent| && q.sent[i] == m;
    var j :| 0 <= j < |Open(q)| && Open(q)[j] == m;
    assert (q.sent + Open(q))[i] == (q.sent + Open(q))[|q.sent| + j];
  }

  /** `m` came in between a fetch that returned `first` and its mark: a second fetch repeats `first`, the mark loses `m`. */
  lemma {:induction false} AddedWhileDue(q: Queue, events: seq<Event>, first: MsgId, m: MsgId)
    requires Complete(q, events, 1) && Distinct(Run(q, events).adds)
    requires first in Open(q) && first in q.sent
    requires m in Open(q) && m in q.adds && m !in q.sent
    ensures !ExactlyOnce(Run(q, events))
    decreases |events|
  {
    var e := events[0];
    var q' := Step(q, e);
    StepOpen(q, e);
    if e.uid == q.uid && e.Fetch? {
      FetchAgain(q, first);
      RepeatedStays(q', events[1..]);
    } else if e.uid == q.uid && e.Mark? {
      LostStays(q', events[1..], m);
    } else {
      AddedWhileDue(q', events[1..], first, m);
    }
  }

  /** The batch of the last fetch is still open, and everything queued has been sent. */
  predicate BatchDue(q: Queue) {
    q.sent == q.adds && Open(q) != [] && Open(q)[0] in q.sent
  }

  lemma {:induction false} ExactIffDisciplined(q: Queue, events: seq<Event>, busy: bool)
    requires Complete(q, events, if busy then 1 else 0) && Distinct(Run(q, events).adds)
    requires if busy then BatchDue(q) else ExactlyOnce(q)
    ensures ExactlyOnce(Run(q, events)) <==> Disciplined(q, events, busy)
    decreases |events|
  {
    if events != [] {
      var e := events[0];
      var q' := Step(q, e);
      StepOpen(q, e);
      RunGrows(q', events[1..]);
      if e.uid != q.uid {
        ExactIffDisciplined(q', events[1..], busy);
      } else if e.Mark? {
        assert q'.sent + [] == q'.sent;
        ExactIffDisciplined(q', events[1..], false);
      } else if busy && e.Fetch? {
        FetchAgain(q, Open(q)[0]);
        RepeatedStays(q', events[1..]);
      } else if busy {
        AddedOnce(q.adds, Run(q, events).adds, e.msg);
        assert Open(q')[0] == Open(q)[0] && Open(q')[|Open(q)|] == e.msg;
        AddedWhileDue(q', events[1..], Open(q)[0], e.msg);
      } else {
        if e.Add? {
          assert q.sent + (Open(q) + [e.msg]) == (q.sent + Open(q)) + [e.msg];
        } else if Open(q) != [] {
          assert q'.sent[|q.sent|] == Open(q)[0];
        } else {
          assert q.sent + [] == q.sent;
        }
        ExactIffDisciplined(q', events[1..], e.Fetch? && Open(q) != []);
      }
    }
  }

  /**
   In a run where every fetch that returned something is marked once, nothing else is marked, and no message is
   queued twice, delivery is exactly once if and only if the run is disciplined.
   */
  lemma ExactlyOnceIffDisciplined(uid: string, events: seq<Event>)
    requires Complete(Queue([], uid, [], []), events, 0)
    requires Distinct(Run(Queue([], uid, [], []), events).adds)
    ensures ExactlyOnce(Run(Queue([], uid, [], []), events)) <==> Disciplined(Queue([], uid, [], []), events, false)
  {
    ExactIffDisciplined(Queue([], uid, [], []), events, false);
  }

  // ----- two ways to break the discipline -----

  predicate OnlyAdds(events: seq<Event>, uid: string) {
    forall e :: e in events && e.uid == uid ==> e.Add?
  }

  lemma {:induction false} AddsRun(q: Queue, events: seq<Event>)
    requires OnlyAdds(events, q.uid)
    ensures var r := Run(q, events);
            && r.uid == q.uid && r.sent == q.sent
            && |r.adds| >= |q.adds| && r.adds[..|q.adds|] == q.adds
            && (|r.adds| == |q.adds| <==> forall e :: e in events ==> e.uid != q.uid)
    decreases |events|
  {
    if events != [] {
      assert forall e :: e in events <==> e == events[0] || e in events[1..];
      AddsRun(Step(q, events[0]), events[1..]);
    }
  }

  lemma {:induction false} RunAppend(q: Queue, xs: seq<Event>, ys: seq<Event>)
    ensures Run(q, xs + ys) == Run(Run(q, xs), ys)
    decreases |xs|
  {
    if xs == [] {
      assert xs + ys == ys;
    } else {
      RunAppend(Step(q, xs[0]), xs[1..], ys);
      assert (xs + ys)[1..] == xs[1..] + ys;
    }
  }

  /**
   A fetch and its mark with adds in between: nothing is lost exactly when none of them was for the user.
   An added message that meets the mark is never sent.
   */
  lemma AddBeforeMarkIsLost(q: Queue, between: seq<Event>)
    requires ExactlyOnce(q) && OnlyAdds(between, q.uid)
    ensures ExactlyOnce(Run(q, [Fetch(q.uid)] + between + [Mark(q.uid)]))
            <==> forall e :: e in between ==> e.uid != q.uid
  {
    var fetched := Step(q, Fetch(q.uid));
    var added := Run(fetched, between);
    assert ([Fetch(q.uid)] + between)[1..] == between;
    RunAppend(q, [Fetch(q.uid)] + between, [Mark(q.uid)]);
    AddsRun(fetched, between);
    StepOpen(added, Mark(q.uid));
    assert [Mark(q.uid)][1..] == [];
    assert added.sent + [] == added.sent;
  }

  /** Two fetches before the mark send the batch twice: no harm is done exactly when the batch was empty. */
  lemma FetchTwiceRepeats(q: Queue)
    requires ExactlyOnce(q)
    ensures ExactlyOnce(Step(Step(Step(q, Fetch(q.uid)), Fetch(q.uid)), Mark(q.uid))) <==> Open(q) == []
  {
    var fetched := Step(Step(q, Fetch(q.uid)), Fetch(q.uid));
    StepOpen(fetched, Mark(q.uid));
    assert fetched.sent + [] == fetched.sent;
    assert |fetched.sent| == |q.adds| + |Open(q)|;
  }

  // ----- the repository -----

  /** `served`: the pool gave a connection and the statement succeeded. */
  class OfflineRepo {
    var table: Table
    var users: set<string>
    var messages: set<MsgId>

    constructor (users: set<string>, messages: set<MsgId>)
      ensures table == [] && this.users == users && this.messages == messages
    {
      table, this.users, this.messages := [], users, messages;
    }

    /** The foreign keys refuse unknown users and messages as well. */
    method AddOfflineMessage(uid: string, msg: MsgId, served: bool) returns (ok: bool)
      modifies this`table
      ensures ok <==> served && uid in users && msg in messages
      ensures table == if ok then old(table) + [Row(uid, msg, false)] else old(table)
    {
      if !served {
        return false;
      }
      ok := uid in users && msg in messages;
      if ok {
        table := table + [Row(uid, msg, false)];
      }
    }

    method GetUndeliveredMessages(uid: string, served: bool) returns (msgs: seq<MsgId>)
      ensures msgs == if served then Undelivered(table, uid) else []
    {
      msgs := [];
      if !served {
        return;
      }
      for i := 0 to |table|
        invariant msgs == Undelivered(table[..i], uid)
      {
        assert table[..i + 1][..i] == table[..i];
        if table[i].target == uid && !table[i].delivered {
          msgs := msgs + [table[i].msg];
        }
      }
      assert table[..|table|] == table;
    }

    method MarkMessagesDelivered(uid: string, served: bool) returns (ok: bool)
      modifies this`table
      ensures ok == served
      ensures table == if served then MarkAll(old(table), uid) else old(table)
    {
      if !served {
        return false;
      }
      table := MarkAll(table, uid);
      return true;
    }
  }
}
