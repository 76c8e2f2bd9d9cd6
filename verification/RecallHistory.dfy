/** What recalls do to the `messages` table over whole runs. */
module RecallHistory {
  import opened Common
  import opened Messages

  /** A clock check for the message, by its sender and inside the window, has passed. */
  ghost predicate Permitted(s: State, m: Message) {
    exists t: Time :: (m.id, m.from, t) in s.passed && t - m.created <= 120
  }

  predicate Ids(s: State) {
    && (forall i, j :: 0 <= i < j < |s.messages| ==> s.messages[i].id < s.messages[j].id)
    && (forall i :: 0 <= i < |s.messages| ==> s.messages[i].id <= s.lastId)
  }

  /** The call of a recall in flight concerns row `m`, and its check has passed. */
  predicate AboutToMark(r: Recall, m: Message) {
    r.Checked? && m.id == r.id && m.from == r.uid
  }

  predicate Knows(r: Recall, m: Message) {
    r.Fetched? && m.id == r.msg.id ==> m.from == r.uid && m.created == r.msg.created
  }

  /** Recalled rows were permitted, and so are the rows that calls in flight are about to mark. */
  ghost predicate Justified(s: State) {
    && (forall i :: 0 <= i < |s.messages| && s.messages[i].recalled ==> Permitted(s, s.messages[i]))
    && (forall c, i ::
          c in s.recalls && 0 <= i < |s.messages| && AboutToMark(s.recalls[c], s.messages[i]) ==> Permitted(s, s.messages[i]))
    && (forall c, i :: c in s.recalls && 0 <= i < |s.messages| ==> Knows(s.recalls[c], s.messages[i]))
    && (forall c :: c in s.recalls ==> (if s.recalls[c].Checked? then s.recalls[c].id else s.recalls[c].msg.id) <= s.lastId)
  }

  ghost predicate Valid(s: State) {
    Ids(s) && Justified(s)
  }

  lemma PermittedStays(s: State, t: State, m: Message, n: Message)
    requires Permitted(s, m) && s.passed <= t.passed
    requires n.id == m.id && n.from == m.from && n.created == m.created
    ensures Permitted(t, n)
  {
    var at :| (m.id, m.from, at) in s.passed && at - m.created <= 120;
    assert (n.id, n.from, at) in t.passed;
  }

  /** Rows are only ever appended, and of an existing row only the recall columns change, and only one way. */
  predicate Extends(before: seq<Message>, after: seq<Message>) {
    && |before| <= |after|
    && (forall i :: 0 <= i < |before| ==>
          && after[i] == before[i].(recalled := after[i].recalled, recallTime := after[i].recallTime)
          && (before[i].recalled ==> after[i].recalled))
  }

  lemma StepExtends(s: State, a: Action)
    requires Legal(s, a)
    ensures Extends(s.messages, Step(s, a).messages)
  {
  }

  lemma CheckJustified(s: State, a: Action)
    requires Legal(s, a) && Valid(s) && a.CheckWindow?
    ensures Justified(Step(s, a))
  {
    var s' := Step(s, a);
    forall i | 0 <= i < |s.messages| && Permitted(s, s.messages[i])
      ensures Permitted(s', s.messages[i])
    {
      PermittedStays(s, s', s.messages[i], s.messages[i]);
    }
    var r := s.recalls[a.c];
    forall i | 0 <= i < |s.messages| && s.messages[i].id == r.msg.id && s.now - r.msg.created <= RECALL_WINDOW
      ensures Permitted(s', s.messages[i])
    {
      assert (s.messages[i].id, s.messages[i].from, s.now) in s'.passed;
    }
  }

  lemma UpdateJustified(s: State, a: Action)
    requires Legal(s, a) && Valid(s) && a.Update?
    ensures Justified(Step(s, a))
  {
    var s' := Step(s, a);
    forall i | 0 <= i < |s.messages| && Permitted(s, s.messages[i])
      ensures Permitted(s', s'.messages[i])
    {
      PermittedStays(s, s', s.messages[i], s'.messages[i]);
    }
  }

  lemma EndStoreJustified(s: State, a: Action)
    requires Legal(s, a) && Valid(s) && a.EndStore?
    ensures Justified(Step(s, a))
  {
    var s' := Step(s, a);
    forall i | 0 <= i < |s.messages| && Permitted(s, s.messages[i])
      ensures Permitted(s', s'.messages[i])
    {
      PermittedStays(s, s', s.messages[i], s'.messages[i]);
    }
  }

  lemma FetchJustified(s: State, a: Action)
    requires Legal(s, a) && Valid(s) && a.Fetch?
    ensures Justified(Step(s, a))
  {
    var s' := Step(s, a);
    forall i | 0 <= i < |s.messages| && Permitted(s, s.messages[i])
      ensures Permitted(s', s'.messages[i])
    {
      PermittedStays(s, s', s.messages[i], s'.messages[i]);
    }
    if Find(s.messages, a.id).Some? {
      FetchKnows(s, a.id);
    }
  }

  lemma FetchKnows(s: State, id: nat)
    requires Ids(s) && Find(s.messages, id).Some?
    ensures forall i :: 0 <= i < |s.messages| && s.messages[i].id == id ==> s.messages[i] == Find(s.messages, id).value
    ensures id <= s.lastId
  {
    var msg := Find(s.messages, id).value;
    var k :| 0 <= k < |s.messages| && s.messages[k] == msg;
    assert forall i :: 0 <= i < |s.messages| && s.messages[i].id == id ==> i == k;
  }

  lemma StepValid(s: State, a: Action)
    requires Legal(s, a) && Valid(s)
    ensures Valid(Step(s, a))
  {
    match a
    case EndStore(_, _) => EndStoreJustified(s, a);
    case Fetch(_, _, _) => FetchJustified(s, a);
    case CheckWindow(_) => CheckJustified(s, a);
    case Update(_) => UpdateJustified(s, a);
    case _ =>
      var s' := Step(s, a);
      forall i | 0 <= i < |s.messages| && Permitted(s, s.messages[i])
        ensures Permitted(s', s'.messages[i])
      {
        PermittedStays(s, s', s.messages[i], s'.messages[i]);
      }
  }

  lemma {:induction false} RunValid(s: State, actions: seq<Action>)
    requires LegalRun(s, actions) && Valid(s)
    ensures Valid(Run(s, actions))
    decreases |actions|
  {
    if actions != [] {
      StepValid(s, actions[0]);
      RunValid(Step(s, actions[0]), actions[1..]);
    }
  }

  /** Sender, content, number, room and creation time never change, and a recalled message stays recalled. */
  lemma {:induction false} RunExtends(s: State, actions: seq<Action>)
    requires LegalRun(s, actions)
    ensures Extends(s.messages, Run(s, actions).messages)
    decreases |actions|
  {
    if actions != [] {
      StepExtends(s, actions[0]);
      RunExtends(Step(s, actions[0]), actions[1..]);
    }
  }

  /** Every recalled message was recalled by its own sender, whose clock check came at most 120 seconds after it. */
  lemma RecallsAreJustified(actions: seq<Action>, i: nat)
    requires LegalRun(START, actions)
    requires i < |Run(START, actions).messages| && Run(START, actions).messages[i].recalled
    ensures Permitted(Run(START, actions), Run(START, actions).messages[i])
  {
    RunValid(START, actions);
  }

  // ----- a recall takes effect -----

  /** A step recalls row `i` exactly when it is the update of a call that has passed its check for this row and its sender. */
  lemma RecalledIffUpdated(s: State, a: Action, i: nat)
    requires Legal(s, a) && i < |s.messages| && !s.messages[i].recalled
    ensures Step(s, a).messages[i].recalled <==> a.Update? && AboutToMark(s.recalls[a.c], s.messages[i])
    ensures Step(s, a).messages[i].recalled ==> Step(s, a).messages[i].recallTime == Some(s.now)
  {
  }

  /** A clock check is on record exactly when it was made, by this caller at this time, within 120 seconds of the message fetched. */
  lemma PassedIffChecked(s: State, a: Action, id: nat, uid: string, t: Time)
    requires Legal(s, a) && (id, uid, t) !in s.passed
    ensures (id, uid, t) in Step(s, a).passed <==>
            && a.CheckWindow? && s.recalls[a.c].uid == uid && s.recalls[a.c].msg.id == id
            && t == s.now && t - s.recalls[a.c].msg.created <= 120
  {
  }

  /** The steps of one recall in a row, as far as they get. */
  function Recalling(s: State, c: CallId, id: nat, uid: string): State
    requires c !in s.recalls
  {
    var fetched := Step(s, Fetch(c, id, uid));
    if c !in fetched.recalls then fetched else
    var checked := Step(fetched, CheckWindow(c));
    if c !in checked.recalls then checked else Step(checked, Update(c))
  }

  /**
   Undisturbed, a recall marks the message with the given id exactly when the caller sent it at most 120
   seconds ago, changes no other message, and leaves no call in flight.
   */
  lemma RecallAlone(s: State, c: CallId, id: nat, uid: string)
    requires c !in s.recalls && Ids(s)
    ensures var t := Recalling(s, c, id, uid);
            && t.recalls == s.recalls && |t.messages| == |s.messages|
            && (forall i :: 0 <= i < |s.messages| ==>
                  var m := s.messages[i];
                  t.messages[i] == if m.id == id && m.from == uid && s.now - m.created <= 120
                                   then m.(recalled := true, recallTime := Some(s.now)) else m)
  {
    var t := Recalling(s, c, id, uid);
    var found := Find(s.messages, id);
    if found.Some? {
      FetchKnows(s, id);
      if found.value.from == uid {
        var fetched := Step(s, Fetch(c, id, uid));
        assert fetched.recalls[c] == Fetched(found.value, uid) && fetched.recalls - {c} == s.recalls;
        if s.now - found.value.created <= 120 {
          var checked := Step(fetched, CheckWindow(c));
          assert checked.recalls[c] == Checked(id, uid) && checked.recalls - {c} == s.recalls;
          assert t == Step(checked, Update(c));
        }
      }
    }
  }

  /** A message stored when the server starts and recalled `t` seconds later is recalled exactly up to 120 seconds. */
  lemma RecallWindow(from: string, content: string, t: Time)
    ensures var stored := Step(Step(START, BeginStore(0, 0, true, from, "", content)), EndStore(0, true));
            var later := Recalling(Step(stored, ClockTo(t)), 0, 1, from);
            && |later.messages| == 1 && later.messages[0].content == content
            && (later.messages[0].recalled <==> t <= 120)
  {
    var stored := Step(Step(START, BeginStore(0, 0, true, from, "", content)), EndStore(0, true));
    assert stored.messages == [NewRow(Insert(0, 1, from, "", content), 1, 0)];
    RecallAlone(Step(stored, ClockTo(t)), 0, 1, from);
  }
}
