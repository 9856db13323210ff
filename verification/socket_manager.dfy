/**
  The room directory of `SocketManager` (src/lib/socket.ts): a map from room id
  to a room whose member list holds at most two users, plus a map from userId
  to the socket that joined last under that id.

  The manager's fields are mutated in place by its handlers; the class below
  keeps them as Dafny fields and each handler is proved equal to a pure
  specification function (`Join`, `Disconnect`) on a `Directory` value. The
  properties the source promises are lemmas about those functions.
*/
module SocketLib {
  import opened Common

  /** A member of a room, with the socket it joined from. */
  datatype UserInfo = UserInfo(socketId: string, userId: string, username: string, joinTime: int)

  /** A room: its id, its members in join order, and its creation time. */
  datatype GameRoom = GameRoom(roomId: string, users: seq<UserInfo>, createdAt: int)

  /** A member as shown in a room snapshot (the socket id is not exposed). */
  datatype PublicUser = PublicUser(userId: string, username: string, joinTime: int)

  /** The snapshot `getRoomInfo` builds. */
  datatype RoomInfo = RoomInfo(roomId: string, userCount: nat, users: seq<PublicUser>, isReady: bool)

  /** Why a join was refused; each stands for one `joinError` message. */
  datatype JoinRefusal = RoomFull | AlreadyInRoom

  /**
    The socket events a handler emits, in emission order. `JoinError` and
    `JoinSuccess` go to the sender only, `UserJoined` and `UserLeft` to the
    other sockets in `roomId`, `GameUpdate` to every socket in `roomId`.
  */
  datatype Event =
    | JoinError(reason: JoinRefusal)
    | JoinSuccess(roomId: string, role: Role, roomInfo: Option<RoomInfo>)
    | UserJoined(roomId: string, user: UserInfo, roomInfo: Option<RoomInfo>)
    | UserLeft(roomId: string, user: UserInfo, roomInfo: Option<RoomInfo>)
    | GameUpdate(roomId: string, action: string, fromUser: UserInfo, roomInfo: Option<RoomInfo>)

  /**
    The manager's state as a value. `order` is the iteration order of the
    `rooms` Map (insertion order of its keys), which decides the room that
    `handleDisconnect` visits first.
  */
  datatype Directory = Directory(rooms: map<string, GameRoom>, order: seq<string>, sockets: map<string, string>)

  /** The state after a handler, and the events it emitted. */
  datatype Step = Step(after: Directory, events: seq<Event>)

  /** An inbound intent, for replaying a whole history of handler calls. */
  datatype Request =
    | JoinRequest(socketId: string, roomId: string, userId: string, username: string, createdAt: int, joinTime: int)
    | DisconnectRequest(socketId: string)

  const Empty := Directory(map[], [], map[])

  // ---------------------------------------------------------------------
  // Member lists

  /** Some member of `users` has this userId (`users.find(u => u.userId === userId)` is defined). */
  predicate HasUserId(users: seq<UserInfo>, userId: string)
  {
    exists i :: 0 <= i < |users| && users[i].userId == userId
  }

  predicate DistinctUserIds(users: seq<UserInfo>)
  {
    forall i, j :: 0 <= i < j < |users| ==> users[i].userId != users[j].userId
  }

  /** `users.findIndex(u => u.socketId === socketId)`: the first member joined from this socket, or -1. */
  function IndexOfSocket(users: seq<UserInfo>, socketId: string): (k: int)
    ensures -1 <= k < |users|
    ensures k == -1 <==> forall i :: 0 <= i < |users| ==> users[i].socketId != socketId
    ensures 0 <= k ==> users[k].socketId == socketId
    ensures 0 <= k ==> forall i :: 0 <= i < k ==> users[i].socketId != socketId
  {
    if |users| == 0 then -1
    else if users[0].socketId == socketId then 0
    else
      var k := IndexOfSocket(users[1..], socketId);
      if k == -1 then -1 else k + 1
  }

  /** `s.splice(k, 1)`: `s` without its element at `k`, the others in their order. */
  function RemoveAt<T>(s: seq<T>, k: nat): (r: seq<T>)
    requires k < |s|
    ensures |r| == |s| - 1
    ensures forall i :: 0 <= i < k ==> r[i] == s[i]
    ensures forall i :: k <= i < |r| ==> r[i] == s[i + 1]
    ensures multiset(r) + multiset{s[k]} == multiset(s)
  {
    assert s == s[..k] + [s[k]] + s[k + 1..];
    s[..k] + s[k + 1..]
  }

  function Public(u: UserInfo): PublicUser
  {
    PublicUser(u.userId, u.username, u.joinTime)
  }

  // ---------------------------------------------------------------------
  // Snapshots

  /** The projection `getRoomInfo` makes of an existing room. */
  function Snapshot(room: GameRoom): (info: RoomInfo)
    ensures info.roomId == room.roomId
    ensures info.userCount == |room.users| == |info.users|
    ensures forall i :: 0 <= i < |room.users| ==>
      info.users[i].userId == room.users[i].userId &&
      info.users[i].username == room.users[i].username &&
      info.users[i].joinTime == room.users[i].joinTime
    ensures info.isReady <==> |room.users| == 2
  {
    RoomInfo(room.roomId, |room.users|, seq(|room.users|, i requires 0 <= i < |room.users| => Public(room.users[i])), |room.users| == 2)
  }

  /** `getRoomInfo(roomId)`: null for an unknown room, otherwise the room's snapshot. */
  function RoomInfoOf(rooms: map<string, GameRoom>, roomId: string): (r: Option<RoomInfo>)
    ensures r.None? <==> roomId !in rooms
    ensures r.Some? ==> r.value == Snapshot(rooms[roomId])
  {
    if roomId in rooms then Some(Snapshot(rooms[roomId])) else None
  }

  // ---------------------------------------------------------------------
  // Invariants

  /** `order` lists every key of `rooms` exactly once. */
  ghost predicate KeysInOrder(d: Directory)
  {
    && (forall i, j :: 0 <= i < j < |d.order| ==> d.order[i] != d.order[j])
    && (forall i :: 0 <= i < |d.order| ==> d.order[i] in d.rooms)
    && (forall id :: id in d.rooms ==> id in d.order)
  }

  /** What the handlers keep true of each room: its id, one or two members, no userId twice. */
  ghost predicate RoomWellFormed(id: string, room: GameRoom)
  {
    room.roomId == id && 1 <= |room.users| <= 2 && DistinctUserIds(room.users)
  }

  ghost predicate WellFormed(d: Directory)
  {
    KeysInOrder(d) && forall id :: id in d.rooms ==> RoomWellFormed(id, d.rooms[id])
  }

  // ---------------------------------------------------------------------
  // Handlers as functions of the state

  /**
    `handleJoinRoom`: create the room if absent, refuse a full room, then
    refuse a userId already present, otherwise append the user, record its
    socket and announce the role taken from the new member count.
  */
  function Join(d: Directory, socketId: string, roomId: string, userId: string, username: string,
                createdAt: int, joinTime: int): (s: Step)
    ensures KeysInOrder(d) ==> KeysInOrder(s.after)
  {
    var d1 := if roomId in d.rooms then d
              else d.(rooms := d.rooms[roomId := GameRoom(roomId, [], createdAt)], order := d.order + [roomId]);
    var room := d1.rooms[roomId];
    if |room.users| >= 2 then Step(d1, [JoinError(RoomFull)])
    else if HasUserId(room.users, userId) then Step(d1, [JoinError(AlreadyInRoom)])
    else
      var user := UserInfo(socketId, userId, username, joinTime);
      var users := room.users + [user];
      var d2 := d1.(rooms := d1.rooms[roomId := room.(users := users)], sockets := d1.sockets[userId := socketId]);
      var role := if |users| == 1 then Player1 else Player2;
      var info := RoomInfoOf(d2.rooms, roomId);
      Step(d2, [JoinSuccess(roomId, role, info), UserJoined(roomId, user, info)])
  }

  /**
    The position in `d.order` of the first room, at or after `from`, that has
    a member joined from `socketId`.
  */
  function FirstRoomFrom(d: Directory, socketId: string, from: nat): (r: Option<nat>)
    requires from <= |d.order|
    requires forall i :: 0 <= i < |d.order| ==> d.order[i] in d.rooms
    ensures r.Some? ==> from <= r.value < |d.order| && IndexOfSocket(d.rooms[d.order[r.value]].users, socketId) != -1
    ensures forall i :: from <= i < |d.order| && (r.None? || i < r.value) ==>
      IndexOfSocket(d.rooms[d.order[i]].users, socketId) == -1
    decreases |d.order| - from
  {
    if from == |d.order| then None
    else if IndexOfSocket(d.rooms[d.order[from]].users, socketId) != -1 then Some(from)
    else FirstRoomFrom(d, socketId, from + 1)
  }

  /**
    `handleDisconnect`: in the first room (in Map order) holding the socket,
    remove that member, forget its userId's socket, announce the departure
    with a snapshot taken before a now-empty room is deleted, and stop.
  */
  function Disconnect(d: Directory, socketId: string): (s: Step)
    requires KeysInOrder(d)
    ensures KeysInOrder(s.after)
  {
    match FirstRoomFrom(d, socketId, 0)
    case None => Step(d, [])
    case Some(i) =>
      var roomId := d.order[i];
      var room := d.rooms[roomId];
      var k := IndexOfSocket(room.users, socketId);
      var user := room.users[k];
      var left := room.(users := RemoveAt(room.users, k));
      var d1 := d.(rooms := d.rooms[roomId := left], sockets := d.sockets - {user.userId});
      var info := RoomInfoOf(d1.rooms, roomId);
      var d2 := if |left.users| == 0 then d1.(rooms := d1.rooms - {roomId}, order := RemoveAt(d1.order, i)) else d1;
      assert KeysInOrder(d2) by {
        if |left.users| == 0 {
          forall id | id in d2.rooms ensures id in d2.order {
            var j :| 0 <= j < |d.order| && d.order[j] == id;
            assert j != i;
            if j < i { assert d2.order[j] == id; } else { assert d2.order[j - 1] == id; }
          }
        }
      }
      Step(d2, [UserLeft(roomId, user, info)])
  }

  function Apply(d: Directory, req: Request): (s: Step)
    requires KeysInOrder(d)
    ensures KeysInOrder(s.after)
  {
    match req
    case JoinRequest(socketId, roomId, userId, username, createdAt, joinTime) =>
      Join(d, socketId, roomId, userId, username, createdAt, joinTime)
    case DisconnectRequest(socketId) => Disconnect(d, socketId)
  }

  /** The state after handling `reqs` one after another, starting from `d`. */
  function Replay(d: Directory, reqs: seq<Request>): (r: Directory)
    requires KeysInOrder(d)
    ensures KeysInOrder(r)
    decreases |reqs|
  {
    if reqs == [] then d else Replay(Apply(d, reqs[0]).after, reqs[1..])
  }

  // ---------------------------------------------------------------------
  // Properties of joining

  /**
    A join into a room that already has two members is refused as full and
    changes nothing, whether or not the userId is one of the members: the
    capacity test runs before the duplicate test.
  */
  lemma JoinRefusesFullRoom(d: Directory, socketId: string, roomId: string, userId: string, username: string,
                            createdAt: int, joinTime: int)
    requires roomId in d.rooms && |d.rooms[roomId].users| >= 2
    ensures Join(d, socketId, roomId, userId, username, createdAt, joinTime) == Step(d, [JoinError(RoomFull)])
  {
  }

  /** A join whose userId is already a member of a room with room to spare is refused and changes nothing. */
  lemma JoinRefusesDuplicate(d: Directory, socketId: string, roomId: string, userId: string, username: string,
                             createdAt: int, joinTime: int)
    requires roomId in d.rooms && |d.rooms[roomId].users| < 2 && HasUserId(d.rooms[roomId].users, userId)
    ensures Join(d, socketId, roomId, userId, username, createdAt, joinTime) == Step(d, [JoinError(AlreadyInRoom)])
  {
  }

  /**
    Every other join succeeds, in particular every join into an absent room:
    the user is appended after the earlier members, its socket is recorded,
    no other room changes, a new room is appended to the iteration order, and
    the role is player1 exactly when the room had no member before.
  */
  lemma JoinAdmits(d: Directory, socketId: string, roomId: string, userId: string, username: string,
                   createdAt: int, joinTime: int)
    requires roomId in d.rooms ==> |d.rooms[roomId].users| < 2 && !HasUserId(d.rooms[roomId].users, userId)
    ensures
      var before := if roomId in d.rooms then d.rooms[roomId].users else [];
      var user := UserInfo(socketId, userId, username, joinTime);
      var s := Join(d, socketId, roomId, userId, username, createdAt, joinTime);
      && s.after.rooms.Keys == d.rooms.Keys + {roomId}
      && s.after.rooms[roomId] ==
           (if roomId in d.rooms then d.rooms[roomId] else GameRoom(roomId, [], createdAt)).(users := before + [user])
      && (forall id :: id in d.rooms && id != roomId ==> s.after.rooms[id] == d.rooms[id])
      && s.after.order == (if roomId in d.rooms then d.order else d.order + [roomId])
      && s.after.sockets == d.sockets[userId := socketId]
      && |s.events| == 2
      && s.events[0].JoinSuccess? && s.events[0].roomId == roomId
      && (s.events[0].role == Player1 <==> |before| == 0)
      && s.events[0].roomInfo == Some(Snapshot(s.after.rooms[roomId]))
      && s.events[1] == UserJoined(roomId, user, s.events[0].roomInfo)
  {
  }

  /**
    A join keeps every room well formed: a created room is never left empty,
    and no room reaches three members or holds one userId twice.
  */
  lemma JoinPreservesWellFormed(d: Directory, socketId: string, roomId: string, userId: string, username: string,
                                createdAt: int, joinTime: int)
    requires WellFormed(d)
    ensures WellFormed(Join(d, socketId, roomId, userId, username, createdAt, joinTime).after)
  {
  }

  // ---------------------------------------------------------------------
  // Properties of disconnecting

  /** A socket that is in no room: disconnecting changes nothing and emits nothing. */
  lemma DisconnectUnknownSocket(d: Directory, socketId: string)
    requires KeysInOrder(d)
    requires forall id, u :: id in d.rooms && u in d.rooms[id].users ==> u.socketId != socketId
    ensures Disconnect(d, socketId) == Step(d, [])
  {
  }

  /**
    Disconnecting a socket that is in some room touches only the first such
    room in iteration order: exactly the member found there is removed, the
    others keep their order, its userId loses its socket, and the room is
    deleted (and leaves the iteration order) exactly when it became empty.
  */
  lemma DisconnectRemovesOneMember(d: Directory, socketId: string, i: nat)
    requires KeysInOrder(d)
    requires FirstRoomFrom(d, socketId, 0) == Some(i)
    ensures
      var roomId := d.order[i];
      var users := d.rooms[roomId].users;
      var k := IndexOfSocket(users, socketId);
      var rest := RemoveAt(users, k);
      var s := Disconnect(d, socketId);
      && 0 <= k && users[k].socketId == socketId
      && (forall j :: 0 <= j < i ==> forall u :: u in d.rooms[d.order[j]].users ==> u.socketId != socketId)
      && s.events == [UserLeft(roomId, users[k], Some(Snapshot(d.rooms[roomId].(users := rest))))]
      && s.after.sockets == d.sockets - {users[k].userId}
      && (forall id :: id in d.rooms && id != roomId ==> id in s.after.rooms && s.after.rooms[id] == d.rooms[id])
      && (|rest| == 0 ==> s.after.rooms.Keys == d.rooms.Keys - {roomId} && s.after.order == RemoveAt(d.order, i))
      && (|rest| > 0 ==> s.after.rooms.Keys == d.rooms.Keys && s.after.rooms[roomId] == d.rooms[roomId].(users := rest) && s.after.order == d.order)
  {
  }

  /** Disconnecting keeps every room well formed; in particular no empty room stays behind. */
  lemma DisconnectPreservesWellFormed(d: Directory, socketId: string)
    requires WellFormed(d)
    ensures WellFormed(Disconnect(d, socketId).after)
  {
  }

  // ---------------------------------------------------------------------
  // Whole histories

  /**
    However joins and disconnects interleave, starting from a well-formed
    directory every room keeps one or two members with distinct userIds.
  */
  lemma {:induction false} ReplayPreservesWellFormed(d: Directory, reqs: seq<Request>)
    requires WellFormed(d)
    ensures WellFormed(Replay(d, reqs))
    decreases |reqs|
  {
    if reqs != [] {
      var s := Apply(d, reqs[0]);
      match reqs[0] {
        case JoinRequest(socketId, roomId, userId, username, createdAt, joinTime) =>
          JoinPreservesWellFormed(d, socketId, roomId, userId, username, createdAt, joinTime);
        case DisconnectRequest(socketId) =>
          DisconnectPreservesWellFormed(d, socketId);
      }
      ReplayPreservesWellFormed(s.after, reqs[1..]);
    }
  }

  /** From the manager's initial state, no sequence of requests ever puts a third member or a repeated userId in a room. */
  lemma AtMostTwoDistinctMembers(reqs: seq<Request>)
    ensures forall id :: id in Replay(Empty, reqs).rooms ==>
      var users := Replay(Empty, reqs).rooms[id].users;
      1 <= |users| <= 2 && DistinctUserIds(users)
  {
    ReplayPreservesWellFormed(Empty, reqs);
  }

  /**
    Two different users joining a fresh room become player1 and player2 in
    join order, and the second join makes the room ready.
  */
  lemma TwoJoinsFillRoom(d: Directory, roomId: string, s1: string, u1: string, n1: string, t1: int,
                         s2: string, u2: string, n2: string, t2: int, created: int)
    requires roomId !in d.rooms && u1 != u2
    ensures
      var first := Join(d, s1, roomId, u1, n1, created, t1);
      var second := Join(first.after, s2, roomId, u2, n2, created, t2);
      && first.events[0].JoinSuccess? && first.events[0].role == Player1
      && second.events[0].JoinSuccess? && second.events[0].role == Player2
      && second.events[0].roomInfo.Some? && second.events[0].roomInfo.value.isReady
      && second.after.rooms[roomId].users == [UserInfo(s1, u1, n1, t1), UserInfo(s2, u2, n2, t2)]
  {
  }

  // ---------------------------------------------------------------------
  // The manager object

  class SocketManager {
    var rooms: map<string, GameRoom>
    /** The key order of the `rooms` Map. */
    var roomOrder: seq<string>
    var userSocketMap: map<string, string>

    function State(): Directory
      reads this
    {
      Directory(rooms, roomOrder, userSocketMap)
    }

    ghost predicate Valid()
      reads this
    {
      WellFormed(State())
    }

    constructor ()
      ensures Valid() && State() == Empty
    {
      rooms := map[];
      roomOrder := [];
      userSocketMap := map[];
    }

    /** `handleJoinRoom(socket, {roomId, userId, username})`; the clock readings are parameters. */
    method HandleJoinRoom(socketId: string, roomId: string, userId: string, username: string,
                          createdAt: int, joinTime: int) returns (events: seq<Event>)
      requires Valid()
      modifies this
      ensures Valid()
      ensures Step(State(), events) == Join(old(State()), socketId, roomId, userId, username, createdAt, joinTime)
    {
      JoinPreservesWellFormed(State(), socketId, roomId, userId, username, createdAt, joinTime);
      var room: GameRoom;
      if roomId in rooms {
        room := rooms[roomId];
      } else {
        room := GameRoom(roomId, [], createdAt);
        rooms := rooms[roomId := room];
        roomOrder := roomOrder + [roomId];
      }

      if |room.users| >= 2 {
        events := [JoinError(RoomFull)];
        return;
      }
      if HasUserId(room.users, userId) {
        events := [JoinError(AlreadyInRoom)];
        return;
      }

      var user := UserInfo(socketId, userId, username, joinTime);
      room := room.(users := room.users + [user]);
      rooms := rooms[roomId := room];
      userSocketMap := userSocketMap[userId := socketId];

      var role := if |room.users| == 1 then Player1 else Player2;
      events := [JoinSuccess(roomId, role, RoomInfoOf(rooms, roomId)), UserJoined(roomId, user, RoomInfoOf(rooms, roomId))];
    }

    /**
      `handleGameAction(socket, {roomId, action})`: relays the action to the
      room only when the room exists and the socket is one of its members;
      the state is never changed.
    */
    method HandleGameAction(socketId: string, roomId: string, action: string) returns (events: seq<Event>)
      ensures events == [] <==>
        roomId !in rooms || forall u :: u in rooms[roomId].users ==> u.socketId != socketId
      ensures events != [] ==>
        var users := rooms[roomId].users;
        && |events| == 1 && events[0].GameUpdate?
        && events[0].roomId == roomId && events[0].action == action
        && events[0].fromUser == users[IndexOfSocket(users, socketId)]
        && events[0].fromUser.socketId == socketId
        && events[0].roomInfo == Some(Snapshot(rooms[roomId]))
    {
      if roomId !in rooms {
        return [];
      }
      var room := rooms[roomId];
      var k := IndexOfSocket(room.users, socketId);
      if k == -1 {
        return [];
      }
      assert room.users[k] in room.users;
      events := [GameUpdate(roomId, action, room.users[k], RoomInfoOf(rooms, roomId))];
    }

    /** `handleDisconnect(socket)`: walks the rooms in Map order and stops at the first one holding the socket. */
    method HandleDisconnect(socketId: string) returns (events: seq<Event>)
      requires Valid()
      modifies this
      ensures Valid()
      ensures Step(State(), events) == Disconnect(old(State()), socketId)
    {
      DisconnectPreservesWellFormed(State(), socketId);
      var i := 0;
      while i < |roomOrder|
        invariant 0 <= i <= |roomOrder|
        invariant State() == old(State())
        invariant forall j :: 0 <= j < i ==> IndexOfSocket(rooms[roomOrder[j]].users, socketId) == -1
      {
        var roomId := roomOrder[i];
        var room := rooms[roomId];
        var userIndex := IndexOfSocket(room.users, socketId);
        if userIndex != -1 {
          var user := room.users[userIndex];
          room := room.(users := RemoveAt(room.users, userIndex));
          rooms := rooms[roomId := room];
          userSocketMap := userSocketMap - {user.userId};
          events := [UserLeft(roomId, user, RoomInfoOf(rooms, roomId))];
          if |room.users| == 0 {
            rooms := rooms - {roomId};
            roomOrder := RemoveAt(roomOrder, i);
          }
          return;
        }
        i := i + 1;
      }
      events := [];
    }
  }
}
