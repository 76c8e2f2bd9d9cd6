/**
 The `messages` table, and the calls that work on it in several statements without a transaction:
 `storeMessage` reads the highest number of the room and then inserts; a recall fetches the message,
 checks the clock, and then updates.
 */
module Messages {
  import opened Common

  type CallId = nat

  const RECALL_WINDOW := 120

  /** `room` is 0 when the column is NULL; room ids start at 1. */
  datatype Message = Message(id: nat, seqNo: nat, room: nat, from: string, to: string, content: string,
                             recalled: bool, recallTime: Option<Time>, created: Time)

  /** COALESCE(MAX(seq), 0) over the rows of a room. */
  function MaxSeq(ms: seq<Message>, room: nat): nat {
    if ms == [] then 0 else
    var m := ms[|ms| - 1];
    var before := MaxSeq(ms[..|ms| - 1], room);
    if m.room == room && m.seqNo > before then m.seqNo else before
  }

  /** The number a new message is given: 1 outside rooms, and also when the read fails. */
  function NextSeq(ms: seq<Message>, room: nat, read: bool): nat {
    if room > 0 && read then MaxSeq(ms, room) + 1 else 1
  }

  function Find(ms: seq<Message>, id: nat): (r: Option<Message>)
    ensures r.Some? ==> r.value in ms && r.value.id == id
    ensures r.None? ==> forall m :: m in ms ==> m.id != id
  {
    if ms == [] then None else if ms[0].id == id then Some(ms[0]) else Find(ms[1..], id)
  }

  predicate DistinctIds(ms: seq<Message>) {
    forall i, j :: 0 <= i < j < |ms| ==> ms[i].id != ms[j].id
  }

  lemma FindsTheRow(ms: seq<Message>, id: nat)
    ensures Find(ms, id).None? ==> forall i :: 0 <= i < |ms| ==> ms[i].id != id
    ensures DistinctIds(ms) && Find(ms, id).Some? ==>
              forall i :: 0 <= i < |ms| && ms[i].id == id ==> ms[i] == Find(ms, id).value
  {
    if Find(ms, id).Some? {
      var k :| 0 <= k < |ms| && ms[k] == Find(ms, id).value;
      assert DistinctIds(ms) ==> forall i :: 0 <= i < |ms| && ms[i].id == id ==> i == k;
    } else {
      assert forall i :: 0 <= i < |ms| ==> ms[i] in ms;
    }
  }

  /** UPDATE messages SET recalled = 1, recall_time = NOW() WHERE msg_id = id AND from_uid = uid */
  function MarkRecalled(ms: seq<Message>, id: nat, uid: string, now: Time): (r: seq<Message>)
    ensures |r| == |ms|
    ensures forall i :: 0 <= i < |ms| ==>
              r[i] == if ms[i].id == id && ms[i].from == uid then ms[i].(recalled := true, recallTime := Some(now)) else ms[i]
  {
    seq(|ms|, i requires 0 <= i < |ms| =>
      if ms[i].id == id && ms[i].from == uid then ms[i].(recalled := true, recallTime := Some(now)) else ms[i])
  }

  /** A `storeMessage` that has read its number and not yet inserted. */
  datatype Insert = Insert(room: nat, seqNo: nat, from: string, to: string, content: string)

  /** A recall that has fetched its message, or has also passed the clock check. */
  datatype Recall = Fetched(msg: Message, uid: string) | Checked(id: nat, uid: string)

  datatype State = State(
    messages: seq<Message>,
    lastId: nat,
    now: Time,
    inserts: map<CallId, Insert>,
    recalls: map<CallId, Recall>,
    passed: set<(nat, string, Time)>  // history: message, caller and time of every clock check that passed
  )

  const START := State([], 0, 0, map[], map[], {})

  datatype Action =
    | BeginStore(c: CallId, room: nat, read: bool, from: string, to: string, content: string)  // `read`: the MAX query succeeds
    | EndStore(c: CallId, ok: bool)
    | Fetch(c: CallId, id: nat, uid: string)
    | CheckWindow(c: CallId)
    | Update(c: CallId)
    | ClockTo(t: Time)

  predicate Legal(s: State, a: Action) {
    match a
    case BeginStore(c, _, _, _, _, _) => c !in s.inserts
    case EndStore(c, _) => c in s.inserts
    case Fetch(c, _, _) => c !in s.recalls
    case CheckWindow(c) => c in s.recalls && s.recalls[c].Fetched?
    case Update(c) => c in s.recalls && s.recalls[c].Checked?
    case ClockTo(_) => true
  }

  function NewRow(i: Insert, id: nat, now: Time): Message {
    Message(id, i.seqNo, i.room, i.from, i.to, i.content, false, None, now)
  }

  /** A failed insert uses up an id all the same. */
  function Step(s: State, a: Action): State
    requires Legal(s, a)
  {
    match a
    case BeginStore(c, room, read, from, to, content) =>
      s.(inserts := s.inserts[c := Insert(room, NextSeq(s.messages, room, read), from, to, content)])
    case EndStore(c, ok) =>
      s.(messages := if ok then s.messages + [NewRow(s.inserts[c], s.lastId + 1, s.now)] else s.messages,
         lastId := s.lastId + 1,
         inserts := s.inserts - {c})
    case Fetch(c, id, uid) =>
      var msg := Find(s.messages, id);
      if msg.None? || msg.value.from != uid then s else s.(recalls := s.recalls[c := Fetched(msg.value, uid)])
    case CheckWindow(c) =>
      var msg := s.recalls[c].msg;
      if s.now - msg.created > RECALL_WINDOW then s.(recalls := s.recalls - {c})
      else s.(recalls := s.recalls[c := Checked(msg.id, s.recalls[c].uid)],
              passed := s.passed + {(msg.id, s.recalls[c].uid, s.now)})
    case Update(c) =>
      s.(messages := MarkRecalled(s.messages, s.recalls[c].id, s.recalls[c].uid, s.now), recalls := s.recalls - {c})
    case ClockTo(t) => s.(now := t)
  }

  predicate LegalRun(s: State, actions: seq<Action>)
    decreases |actions|
  {
    actions != [] ==> Legal(s, actions[0]) && LegalRun(Step(s, actions[0]), actions[1..])
  }

  function Run(s: State, actions: seq<Action>): State
    requires LegalRun(s, actions)
    decreases |actions|
  {
    if actions == [] then s else Run(Step(s, actions[0]), actions[1..])
  }

  // ----- the repository and the service, undisturbed -----

  class MySQLMessageRepo {
    var messages: seq<Message>
    var lastId: nat
    var rooms: map<string, nat>

    ghost function View(now: Time): State
      reads this
    {
      State(messages, lastId, now, map[], map[], {})
    }

    constructor (rooms: map<string, nat>)
      ensures messages == [] && lastId == 0 && this.rooms == rooms
    {
      messages, lastId, this.rooms := [], 0, rooms;
    }

    /**
     `connected`, `found`, `read` and `inserted` are the outcomes of the pool, of the two queries and of the INSERT.
     A message for an unknown room, or one whose lookup fails, is stored outside all rooms, with number 1.
     */
    method StoreMessage(from: string, to: string, room: string, content: string, now: Time,
                        connected: bool, found: bool, read: bool, inserted: bool)
        returns (msgId: nat)
      modifies this
      ensures rooms == old(rooms) && lastId == old(lastId) + if connected then 1 else 0
      ensures !connected ==> msgId == 0 && View(now) == old(View(now))
      ensures connected ==>
                var roomId := if found && room != "" && room in rooms then rooms[room] else 0;
                var begun := Step(old(View(now)), BeginStore(0, roomId, read, from, to, content));
                View(now) == Step(begun, EndStore(0, inserted))
      ensures msgId == if connected && inserted then lastId else 0
      ensures connected && inserted ==>
                var roomId := if found && room != "" && room in rooms then rooms[room] else 0;
                messages == old(messages) +
                  [Message(msgId, NextSeq(old(messages), roomId, read), roomId, from, to, content, false, None, now)]
    {
      if !connected {
        return 0;
      }
      var roomId := 0;
      if room != "" {
        if found && room in rooms {
          roomId := rooms[room];
        }
      }
      var seqNo := 1;
      if roomId > 0 && read {
        seqNo := MaxSeq(messages, roomId) + 1;
      }
      msgId := 0;
      lastId := lastId + 1;
      if inserted {
        messages := messages + [Message(lastId, seqNo, roomId, from, to, content, false, None, now)];
        msgId := lastId;
      }
      assert map[0 := Insert(roomId, seqNo, from, to, content)] - {0} == map[];
    }

    /** `served`: the pool gave a connection and the statement succeeded. */
    method GetMessage(id: nat, served: bool) returns (msg: Option<Message>)
      ensures msg == if served then Find(messages, id) else None
    {
      if !served {
        return None;
      }
      msg := Find(messages, id);
    }

    /** The answer is whether a row was changed: a second recall in the same second changes nothing. */
    method RecallMessage(id: nat, uid: string, now: Time, served: bool) returns (affected: bool)
      modifies this`messages
      ensures messages == if served then MarkRecalled(old(messages), id, uid, now) else old(messages)
      ensures affected <==> messages != old(messages)
    {
      if !served {
        return false;
      }
      var before := messages;
      messages := MarkRecalled(messages, id, uid, now);
      affected := messages != before;
    }
  }

  datatype RecallResult = Refused(reason: string) | Recalled

  class ChatService {
    const repo: MySQLMessageRepo

    constructor (repo: MySQLMessageRepo)
      ensures this.repo == repo
    {
      this.repo := repo;
    }

    /**
     `clock` is the server's time for the check, `dbNow` the database's for the update; `fetched` and
     `updated` say whether the two repository calls are served.
     */
    method RecallMessage(id: nat, uid: string, clock: Time, dbNow: Time, fetched: bool, updated: bool)
        returns (result: RecallResult)
      modifies repo
      ensures var msg := if fetched then Find(old(repo.messages), id) else None;
              var allowed := msg.Some? && msg.value.from == uid && clock - msg.value.created <= 120;
              && repo.messages == (if allowed && updated then MarkRecalled(old(repo.messages), id, uid, dbNow) else old(repo.messages))
              && (result.Recalled? <==> repo.messages != old(repo.messages))
              && (result.Recalled? ==> allowed)
              && (result.Refused? ==>
                    result.reason == if msg.None? then "message not found"
                                     else if msg.value.from != uid then "can only recall your own messages"
                                     else if !allowed then "recall window expired (2 min)" else "recall failed")
      ensures repo.lastId == old(repo.lastId) && repo.rooms == old(repo.rooms)
      ensures DistinctIds(old(repo.messages)) ==>
                && |repo.messages| == |old(repo.messages)|
                && forall i :: 0 <= i < |repo.messages| ==>
                     var m := old(repo.messages)[i];
                     repo.messages[i] == if fetched && updated && m.id == id && m.from == uid && clock - m.created <= 120
                                         then m.(recalled := true, recallTime := Some(dbNow)) else m
    {
      FindsTheRow(repo.messages, id);
      var msg := repo.GetMessage(id, fetched);
      if msg.None? {
        return Refused("message not found");
      }
      if msg.value.from != uid {
        return Refused("can only recall your own messages");
      }
      if clock - msg.value.created > RECALL_WINDOW {
        return Refused("recall window expired (2 min)");
      }
      var recalled := repo.RecallMessage(id, uid, dbNow, updated);
      if !recalled {
        return Refused("recall failed");
      }
      return Recalled;
    }
  }
}
