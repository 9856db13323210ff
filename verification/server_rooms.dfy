/**
  The room table of the standalone server (server.ts): a record from room id
  to a room snapshot whose `users`, `userCount` and `isReady` fields the
  `joinRoom` handler updates. Unlike `SocketManager`, this handler has no
  capacity limit and treats a repeated join as a successful no-op.

  The module-level record is the field of the class `RoomTable`; its
  `JoinRoom` method is proved equal to the pure function `Join`, and the
  promised properties are lemmas about `Join`.
*/
module ServerRooms {
  import opened Common

  /** A member of a room. */
  datatype UserInfo = UserInfo(userId: string, username: string, joinTime: int)

  /** A room as stored in the record and sent to clients. */
  datatype RoomInfo = RoomInfo(roomId: string, userCount: int, users: seq<UserInfo>, isReady: bool)

  /** `JoinSuccess` goes to the joining socket, `UserJoined` to the other sockets in `roomId`. */
  datatype Event =
    | JoinSuccess(roomId: string, role: Role, roomInfo: RoomInfo)
    | UserJoined(roomId: string, user: UserInfo, roomInfo: RoomInfo)

  /** The record after a join, the role announced and the events emitted. */
  datatype JoinStep = JoinStep(rooms: map<string, RoomInfo>, role: Role, events: seq<Event>)

  /** One `joinRoom` message, for replaying a history of joins. */
  datatype JoinRequest = JoinRequest(roomId: string, userId: string, username: string, joinTime: int)

  /** `users.find(u => u.userId === userId)`: the first member with this userId, if any. */
  function FindUser(users: seq<UserInfo>, userId: string): (r: Option<UserInfo>)
    ensures r.None? <==> forall i :: 0 <= i < |users| ==> users[i].userId != userId
    ensures r.Some? ==> r.value.userId == userId
    ensures r.Some? ==>
      (exists i :: 0 <= i < |users| && users[i] == r.value && forall j :: 0 <= j < i ==> users[j].userId != userId)
  {
    if |users| == 0 then None
    else if users[0].userId == userId then Some(users[0])
    else
      var r := FindUser(users[1..], userId);
      assert r.Some? ==>
        (exists i :: 0 <= i < |users| && users[i] == r.value && forall j :: 0 <= j < i ==> users[j].userId != userId)
      by {
        if r.Some? {
          var i :| 0 <= i < |users[1..]| && users[1..][i] == r.value &&
            forall j :: 0 <= j < i ==> users[1..][j].userId != userId;
          assert users[i + 1] == r.value;
          forall j | 0 <= j < i + 1 ensures users[j].userId != userId {
            if j > 0 { assert users[j] == users[1..][j - 1]; }
          }
        }
      }
      r
  }

  predicate HasUser(users: seq<UserInfo>, userId: string)
  {
    exists i :: 0 <= i < |users| && users[i].userId == userId
  }

  /** The role expression of the handler: player1 exactly for the userId of the first member. */
  function RoleOf(users: seq<UserInfo>, userId: string): Role
    requires |users| > 0
  {
    if users[0].userId == userId then Player1 else Player2
  }

  predicate DistinctUserIds(users: seq<UserInfo>)
  {
    forall i, j :: 0 <= i < j < |users| ==> users[i].userId != users[j].userId
  }

  /** What the handler keeps true of each stored room. */
  ghost predicate RoomWellFormed(id: string, room: RoomInfo)
  {
    && room.roomId == id
    && 1 <= |room.users|
    && room.userCount == |room.users|
    && (room.isReady <==> room.userCount == 2)
    && DistinctUserIds(room.users)
  }

  ghost predicate TableWellFormed(rooms: map<string, RoomInfo>)
  {
    forall id :: id in rooms ==> RoomWellFormed(id, rooms[id])
  }

  /**
    The `joinRoom` handler: create an empty room if absent, append the user
    unless its userId is already there (then recount), recompute `isReady`,
    and announce the role from the first member's userId.
  */
  function Join(rooms: map<string, RoomInfo>, roomId: string, userId: string, username: string, joinTime: int): (s: JoinStep)
    ensures s.rooms.Keys == rooms.Keys + {roomId}
    ensures forall id :: id in rooms && id != roomId ==> s.rooms[id] == rooms[id]
    ensures |s.rooms[roomId].users| > 0
    ensures s.rooms[roomId].isReady <==> s.rooms[roomId].userCount == 2
    ensures s.role == Player1 <==> s.rooms[roomId].users[0].userId == userId
  {
    var created := if roomId in rooms then rooms else rooms[roomId := RoomInfo(roomId, 0, [], false)];
    var room := created[roomId];
    var found := FindUser(room.users, userId);
    var user := if found.Some? then found.value else UserInfo(userId, username, joinTime);
    var grown := if found.Some? then room
                 else room.(users := room.users + [user], userCount := |room.users + [user]|);
    var ready := grown.(isReady := grown.userCount == 2);
    var role := RoleOf(ready.users, userId);
    JoinStep(created[roomId := ready], role, [JoinSuccess(roomId, role, ready), UserJoined(roomId, user, ready)])
  }

  /** The record after handling `reqs` one after another. */
  function Replay(rooms: map<string, RoomInfo>, reqs: seq<JoinRequest>): map<string, RoomInfo>
    decreases |reqs|
  {
    if reqs == [] then rooms
    else Replay(Join(rooms, reqs[0].roomId, reqs[0].userId, reqs[0].username, reqs[0].joinTime).rooms, reqs[1..])
  }

  // ---------------------------------------------------------------------
  // Properties of one join

  /** The first join into a room creates it with that user alone, not ready, and makes the user player1. */
  lemma FirstJoinCreatesRoom(rooms: map<string, RoomInfo>, roomId: string, userId: string, username: string, joinTime: int)
    requires roomId !in rooms
    ensures
      var s := Join(rooms, roomId, userId, username, joinTime);
      && s.rooms[roomId] == RoomInfo(roomId, 1, [UserInfo(userId, username, joinTime)], false)
      && s.role == Player1
  {
  }

  /**
    A join by a userId already in the room is idempotent: members and count
    are unchanged, the role is the one that userId already had, and the
    first existing member with that userId (not the new name) is announced.
  */
  lemma RejoinIsIdempotent(rooms: map<string, RoomInfo>, roomId: string, userId: string, username: string, joinTime: int)
    requires roomId in rooms && HasUser(rooms[roomId].users, userId)
    ensures
      var room := rooms[roomId];
      var s := Join(rooms, roomId, userId, username, joinTime);
      && s.rooms[roomId].users == room.users
      && s.rooms[roomId].userCount == room.userCount
      && s.role == RoleOf(room.users, userId)
      && (exists i :: 0 <= i < |room.users| && s.events[1].user == room.users[i] &&
            forall j :: 0 <= j < i ==> room.users[j].userId != userId)
      && s.events[1].user.userId == userId
      && (TableWellFormed(rooms) ==> s.rooms == rooms)
  {
  }

  /**
    A join by a new userId into an existing room appends it after the
    earlier members and sets the count to the new length. There is no
    capacity test: the room may grow past two members.
  */
  lemma NewUserAppended(rooms: map<string, RoomInfo>, roomId: string, userId: string, username: string, joinTime: int)
    requires roomId in rooms && !HasUser(rooms[roomId].users, userId)
    ensures
      var room := rooms[roomId];
      var s := Join(rooms, roomId, userId, username, joinTime);
      && s.rooms[roomId].users == room.users + [UserInfo(userId, username, joinTime)]
      && s.rooms[roomId].userCount == |room.users| + 1
      && (s.role == Player1 <==> |room.users| == 0)
  {
  }

  /**
    A third distinct user is let into a two-member room: the count becomes
    3, the room is no longer ready, and the newcomer is told player2 (the
    same role as the second member).
  */
  lemma ThirdUserIsAdmitted(rooms: map<string, RoomInfo>, roomId: string, userId: string, username: string, joinTime: int)
    requires TableWellFormed(rooms)
    requires roomId in rooms && |rooms[roomId].users| == 2 && !HasUser(rooms[roomId].users, userId)
    ensures
      var s := Join(rooms, roomId, userId, username, joinTime);
      && s.rooms[roomId].userCount == 3
      && !s.rooms[roomId].isReady
      && s.role == Player2
      && RoleOf(s.rooms[roomId].users, s.rooms[roomId].users[1].userId) == Player2
  {
  }

  /** A join keeps every stored room well formed: count matches members, ready means two, userIds distinct. */
  lemma JoinPreservesWellFormed(rooms: map<string, RoomInfo>, roomId: string, userId: string, username: string, joinTime: int)
    requires TableWellFormed(rooms)
    ensures TableWellFormed(Join(rooms, roomId, userId, username, joinTime).rooms)
  {
  }

  /** A join never changes which userId a room lists first, nor the role of any existing member. */
  lemma JoinKeepsRoles(rooms: map<string, RoomInfo>, roomId: string, userId: string, username: string, joinTime: int, member: string)
    requires roomId in rooms && |rooms[roomId].users| > 0
    ensures
      var s := Join(rooms, roomId, userId, username, joinTime);
      && s.rooms[roomId].users[0] == rooms[roomId].users[0]
      && RoleOf(s.rooms[roomId].users, member) == RoleOf(rooms[roomId].users, member)
  {
  }

  // ---------------------------------------------------------------------
  // Whole histories

  /** Any history of joins keeps every stored room well formed. */
  lemma {:induction false} ReplayPreservesWellFormed(rooms: map<string, RoomInfo>, reqs: seq<JoinRequest>)
    requires TableWellFormed(rooms)
    ensures TableWellFormed(Replay(rooms, reqs))
    decreases |reqs|
  {
    if reqs != [] {
      var r := reqs[0];
      JoinPreservesWellFormed(rooms, r.roomId, r.userId, r.username, r.joinTime);
      ReplayPreservesWellFormed(Join(rooms, r.roomId, r.userId, r.username, r.joinTime).rooms, reqs[1..]);
    }
  }

  /**
    Roles are fixed by join order: once a room exists, no later history of
    joins changes its first member, so every userId keeps the role it had,
    and in particular the first joiner stays player1.
  */
  lemma {:induction false} ReplayKeepsRoles(rooms: map<string, RoomInfo>, reqs: seq<JoinRequest>, roomId: string, member: string)
    requires roomId in rooms && |rooms[roomId].users| > 0
    ensures
      var after := Replay(rooms, reqs);
      && roomId in after && |after[roomId].users| > 0
      && after[roomId].users[0] == rooms[roomId].users[0]
      && RoleOf(after[roomId].users, member) == RoleOf(rooms[roomId].users, member)
    decreases |reqs|
  {
    if reqs != [] {
      var r := reqs[0];
      var next := Join(rooms, r.roomId, r.userId, r.username, r.joinTime).rooms;
      if r.roomId == roomId {
        JoinKeepsRoles(rooms, roomId, r.userId, r.username, r.joinTime, member);
      }
      assert roomId in next && next[roomId].users[0] == rooms[roomId].users[0];
      ReplayKeepsRoles(next, reqs[1..], roomId, member);
    }
  }

  // ---------------------------------------------------------------------
  // The record object

  class RoomTable {
    /** The module-level `rooms` record. */
    var rooms: map<string, RoomInfo>

    constructor ()
      ensures rooms == map[]
    {
      rooms := map[];
    }

    /** The `joinRoom` handler body; the clock reading is a parameter. */
    method JoinRoom(roomId: string, userId: string, username: string, joinTime: int) returns (role: Role, events: seq<Event>)
      modifies this
      ensures JoinStep(rooms, role, events) == Join(old(rooms), roomId, userId, username, joinTime)
      ensures TableWellFormed(old(rooms)) ==> TableWellFormed(rooms)
    {
      if TableWellFormed(rooms) {
        JoinPreservesWellFormed(rooms, roomId, userId, username, joinTime);
      }
      if roomId !in rooms {
        rooms := rooms[roomId := RoomInfo(roomId, 0, [], false)];
      }
      var found := FindUser(rooms[roomId].users, userId);
      var user: UserInfo;
      if found.None? {
        user := UserInfo(userId, username, joinTime);
        var room := rooms[roomId];
        room := room.(users := room.users + [user]);
        room := room.(userCount := |room.users|);
        rooms := rooms[roomId := room];
      } else {
        user := found.value;
      }
      rooms := rooms[roomId := rooms[roomId].(isReady := rooms[roomId].userCount == 2)];

      role := if rooms[roomId].users[0].userId == userId then Player1 else Player2;
      events := [JoinSuccess(roomId, role, rooms[roomId]), UserJoined(roomId, user, rooms[roomId])];
    }

    /** The `disconnect` handler: it leaves every room as it is. */
    method HandleDisconnect()
      ensures rooms == old(rooms)
    {
    }
  }
}
