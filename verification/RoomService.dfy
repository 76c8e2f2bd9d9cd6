/**
 The room tables, the room service, the member sets in memory, and the two room handlers, each as its
 worker part and its loop part.
 */
module RoomService {
  import opened Common
  import opened Rooms

  datatype RoomResult = Refused(reason: string) | Done(id: RoomId)

  class MySQLRoomRepo {
    var users: set<string>
    var rooms: map<string, RoomId>
    var lastId: RoomId
    var members: set<(RoomId, string)>

    ghost function View(): RoomDb
      reads this
    {
      RoomDb(users, rooms, lastId, members)
    }

    constructor (users: set<string>)
      ensures View() == RoomDb(users, map[], 0, {})
    {
      this.users, rooms, lastId, members := users, map[], 0, {};
    }

    /** `served`: the pool gave a connection and the statement succeeded as far as the keys allow; 0 is the answer of a failure. */
    method CreateRoom(name: string, creator: string, served: bool) returns (id: RoomId)
      modifies this`rooms, this`lastId
      ensures id == if served && name !in old(rooms) && creator in users then old(lastId) + 1 else 0
      ensures rooms == (if id == 0 then old(rooms) else old(rooms)[name := id])
      ensures lastId == if id == 0 then old(lastId) else id
    {
      id := 0;
      if served && name !in rooms && creator in users {
        lastId := lastId + 1;
        rooms := rooms[name := lastId];
        id := lastId;
      }
    }

    method GetRoomByName(name: string, served: bool) returns (id: Option<RoomId>)
      ensures id == if served && name in rooms then Some(rooms[name]) else None
    {
      id := None;
      if served && name in rooms {
        id := Some(rooms[name]);
      }
    }

    /** INSERT IGNORE turns a violated foreign key into a success without effect. */
    method AddRoomMember(id: RoomId, uid: string, served: bool) returns (ok: bool)
      modifies this`members
      ensures ok == served
      ensures View() == if served then AddMember(old(View()), id, uid) else old(View())
      ensures members == old(members) + if served && uid in users && id in rooms.Values then {(id, uid)} else {}
    {
      if served && uid in users && id in rooms.Values {
        members := members + {(id, uid)};
      }
      return served;
    }
  }

  class RoomManager {
    var rooms: Memory

    constructor ()
      ensures rooms == map[]
    {
      rooms := map[];
    }

    method CreateRoom(name: string, creator: string) returns (ok: bool)
      modifies this
      ensures ok == (name !in old(rooms)) && rooms == MemoryCreate(old(rooms), name, creator)
      ensures rooms == if name in old(rooms) then old(rooms) else old(rooms)[name := {creator}]
    {
      if name in rooms {
        return false;
      }
      rooms := rooms[name := {}];
      rooms := rooms[name := rooms[name] + {creator}];
      assert rooms[name] == {creator};
      return true;
    }

    method JoinRoom(name: string, uid: string) returns (ok: bool)
      modifies this
      ensures ok == (name in old(rooms)) && rooms == MemoryJoin(old(rooms), name, uid)
      ensures rooms == if name in old(rooms) then old(rooms)[name := old(rooms)[name] + {uid}] else old(rooms)
    {
      if name !in rooms {
        return false;
      }
      rooms := rooms[name := rooms[name] + {uid}];
      return true;
    }

    method GetRoomMembers(name: string) returns (members: set<string>)
      ensures members == if name in rooms then rooms[name] else {}
    {
      members := if name in rooms then rooms[name] else {};
    }
  }

  class RoomService {
    const repo: MySQLRoomRepo

    constructor (repo: MySQLRoomRepo)
      ensures this.repo == repo
    {
      this.repo := repo;
    }

    /**
     `looked`, `inserted` and `joined` say whether the three repository calls are served. The outcome of the
     last one is ignored, so a created room may have no stored member at all.
     */
    method CreateRoom(name: string, creator: string, looked: bool, inserted: bool, joined: bool) returns (result: RoomResult)
      requires Consistent(repo.View())
      modifies repo
      ensures Consistent(repo.View()) && repo.users == old(repo.users)
      ensures result.Done? <==> name !in old(repo.rooms) && creator in repo.users && inserted
      ensures result.Done? ==>
                && result.id == repo.lastId == old(repo.lastId) + 1
                && repo.rooms == old(repo.rooms)[name := result.id]
                && repo.members == old(repo.members) + (if joined then {(result.id, creator)} else {})
                && (forall u :: (result.id, u) in repo.members ==> u == creator)
      ensures result.Refused? ==>
                && repo.View() == old(repo.View())
                && result.reason == if looked && name in repo.rooms then "room already exists" else "create room failed"
    {
      var room := repo.GetRoomByName(name, looked);
      if room.Some? {
        return Refused("room already exists");
      }
      var id := repo.CreateRoom(name, creator, inserted);
      if id <= 0 {
        return Refused("create room failed");
      }
      assert repo.rooms[name] in repo.rooms.Values;
      var _ := repo.AddRoomMember(id, creator, joined);
      return Done(id);
    }

    method JoinRoom(name: string, uid: string, looked: bool, joined: bool) returns (result: RoomResult)
      modifies repo
      ensures result.Done? <==> looked && name in old(repo.rooms) && joined
      ensures result.Done? ==>
                name in repo.rooms && result.id == repo.rooms[name] && repo.View() == AddMember(old(repo.View()), result.id, uid)
      ensures result.Refused? ==>
                && repo.View() == old(repo.View())
                && result.reason == if looked && name in repo.rooms then "join room failed" else "room not found"
    {
      var room := repo.GetRoomByName(name, looked);
      if room.None? {
        return Refused("room not found");
      }
      var ok := repo.AddRoomMember(room.value, uid, joined);
      return if ok then Done(room.value) else Refused("join room failed");
    }
  }

  /** Each handler is a worker part and a loop part; other handlers may run in between. */
  class RoomHandlers {
    const service: RoomService
    const manager: RoomManager
    ghost var calls: map<CallId, Call>
    ghost var created: seq<string>

    ghost function View(): State
      reads this, service.repo, manager
    {
      State(service.repo.View(), manager.rooms, calls, created)
    }

    constructor (service: RoomService, manager: RoomManager)
      ensures this.service == service && this.manager == manager && calls == map[] && created == []
    {
      this.service, this.manager, calls, created := service, manager, map[], [];
    }

    /** The worker part: check, insert of the room, insert of its owner; a failed check lets the insert decide. */
    method StoreCreateRoom(ghost c: CallId, name: string, uid: string, looked: bool, inserted: bool, joined: bool)
        returns (ok: bool)
      requires Legal(View(), StartCreate(c, name, uid, looked)) && Consistent(service.repo.View())
      modifies this`calls, this`created, service.repo
      ensures ok <==> inserted && name !in old(service.repo.rooms)
      ensures !ok ==> View() == old(View())
      ensures ok ==> View() == Resume(Resume(Step(old(View()), StartCreate(c, name, uid, looked)), c, true), c, joined)
      ensures ok ==> c in calls && calls[c] == CreateInMemory(name, uid)
    {
      ghost var s := View();
      var result := service.CreateRoom(name, uid, looked, inserted, joined);
      if result.Refused? {
        return false;
      }
      created := created + [name];
      calls := calls[c := CreateInMemory(name, uid)];
      assert service.repo.rooms[name] in service.repo.rooms.Values;
      assert s.calls[c := InsertRoom(name, uid)][c := InsertOwner(name, uid, result.id)][c := CreateInMemory(name, uid)] == calls;
      return true;
    }

    method FinishCreateRoom(ghost c: CallId, name: string, uid: string)
      requires c in calls && calls[c] == CreateInMemory(name, uid)
      modifies this`calls, manager
      ensures View() == Step(old(View()), Continue(c, true))
    {
      var _ := manager.CreateRoom(name, uid);
      calls := calls - {c};
    }

    /** The worker part: lookup of the room, insert of the member. */
    method StoreJoinRoom(ghost c: CallId, name: string, uid: string, looked: bool, joined: bool)
        returns (ok: bool)
      requires Legal(View(), StartJoin(c, name, uid, looked))
      modifies this`calls, service.repo
      ensures ok <==> looked && joined && name in old(service.repo.rooms)
      ensures !ok ==> View() == old(View())
      ensures ok ==> View() == Resume(Step(old(View()), StartJoin(c, name, uid, looked)), c, true)
      ensures ok ==> c in calls && calls[c] == JoinInMemory(name, uid)
    {
      ghost var s := View();
      var result := service.JoinRoom(name, uid, looked, joined);
      if result.Refused? {
        return false;
      }
      calls := calls[c := JoinInMemory(name, uid)];
      assert s.calls[c := InsertMember(name, uid, result.id)][c := JoinInMemory(name, uid)] == calls;
      return true;
    }

    method FinishJoinRoom(ghost c: CallId, name: string, uid: string)
      requires c in calls && calls[c] == JoinInMemory(name, uid)
      modifies this`calls, manager
      ensures View() == Step(old(View()), Continue(c, true))
    {
      var _ := manager.JoinRoom(name, uid);
      calls := calls - {c};
    }
  }
}
