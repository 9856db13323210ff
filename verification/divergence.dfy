/**
  The two room directories answer the same joins differently. These lemmas
  run one history through both models side by side.
*/
module Divergence {
  import opened Common
  import SocketLib
  import ServerRooms

  /**
    Three different users join one room, starting from empty directories:
    `SocketManager` refuses the third as full and keeps two members, while
    the server admits all three and reports the room as not ready.
  */
  lemma ThirdUserDiverges(roomId: string, a: string, b: string, c: string, created: int, t: int)
    requires a != b && b != c && a != c
    ensures
      var s1 := SocketLib.Join(SocketLib.Empty, a, roomId, a, a, created, t);
      var s2 := SocketLib.Join(s1.after, b, roomId, b, b, created, t);
      var s3 := SocketLib.Join(s2.after, c, roomId, c, c, created, t);
      && s3.events == [SocketLib.JoinError(SocketLib.RoomFull)]
      && |s3.after.rooms[roomId].users| == 2
    ensures
      var r1 := ServerRooms.Join(map[], roomId, a, a, t);
      var r2 := ServerRooms.Join(r1.rooms, roomId, b, b, t);
      var r3 := ServerRooms.Join(r2.rooms, roomId, c, c, t);
      && r3.rooms[roomId].userCount == 3
      && !r3.rooms[roomId].isReady
      && r3.role == Player2
  {
  }

  /**
    The first user of a room joins again: `SocketManager` answers with the
    "already in room" error, while the server answers with success and the
    same role, player1, leaving the room as it was.
  */
  lemma RejoinDiverges(roomId: string, a: string, created: int, t1: int, t2: int)
    ensures
      var s1 := SocketLib.Join(SocketLib.Empty, a, roomId, a, a, created, t1);
      var s2 := SocketLib.Join(s1.after, a, roomId, a, a, created, t2);
      && s2.events == [SocketLib.JoinError(SocketLib.AlreadyInRoom)]
      && s2.after == s1.after
    ensures
      var r1 := ServerRooms.Join(map[], roomId, a, a, t1);
      var r2 := ServerRooms.Join(r1.rooms, roomId, a, a, t2);
      && r1.role == Player1 && r2.role == Player1
      && r2.rooms == r1.rooms
  {
    SocketLib.JoinAdmits(SocketLib.Empty, a, roomId, a, a, created, t1);
    var s1 := SocketLib.Join(SocketLib.Empty, a, roomId, a, a, created, t1);
    assert SocketLib.HasUserId(s1.after.rooms[roomId].users, a) by {
      assert s1.after.rooms[roomId].users[0].userId == a;
    }
    SocketLib.JoinRefusesDuplicate(s1.after, a, roomId, a, a, created, t2);

    ServerRooms.FirstJoinCreatesRoom(map[], roomId, a, a, t1);
    var r1 := ServerRooms.Join(map[], roomId, a, a, t1);
    assert ServerRooms.HasUser(r1.rooms[roomId].users, a) by {
      assert r1.rooms[roomId].users[0].userId == a;
    }
    assert ServerRooms.TableWellFormed(r1.rooms);
    ServerRooms.RejoinIsIdempotent(r1.rooms, roomId, a, a, t2);
  }
}
