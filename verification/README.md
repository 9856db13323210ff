# Room directory of holo-koji, modelled in Dafny

holo-koji pairs two players into a room so they can play Hanamikoji. Its only
stateful logic is the room directory. This is an in-memory table from room id
to the room's members in join order, changed by join and disconnect handlers
and read through room snapshots. The repository has two independent versions
of the directory, and they behave differently. Each is modelled as written, as
its own class:

- `SocketLib` (`socket_manager.dfy`) models `SocketManager` in src/lib/socket.ts.
  - Its state is the `rooms` Map, the order in which that Map's keys iterate,
    and `userSocketMap`.
  - A join creates an absent room. It is refused when the room already has two
    members, and then refused when the userId is already a member. Otherwise
    the user is appended and the role is player1 or player2, taken from the new
    member count.
  - A disconnect removes the socket's member from the first room, in Map
    order, that holds it. It deletes the room if the room became empty.
- `ServerRooms` (`server_rooms.dfy`) models the `joinRoom` handler and the
  module-level `rooms` record of server.ts.
  - A repeated join is a successful no-op.
  - There is no capacity limit.
  - `isReady` is recomputed as `userCount == 2` on every join.
  - The role is player1 exactly for the room's first member.
- `Divergence` (`divergence.dfy`) runs the same histories through both models.
  A third distinct user is refused by one and admitted by the other. A re-join
  is an error in one and a success in the other.
- `Common` (`common.dfy`) holds `Option` and `Role`.

Each class keeps the source's mutable state in fields, and its handler methods
are proved equal to a pure function of the old state (`SocketLib.Join`,
`SocketLib.Disconnect`, `ServerRooms.Join`). The behaviour the code promises is
stated as lemmas about those functions:

- a full room refuses everyone;
- a duplicate is refused (socket.ts) or is idempotent (server.ts);
- an admitted user is appended at the end and the rest stay in order;
- roles follow join order;
- a disconnect touches only the first matching room;
- every room stays well formed over any history of requests.

Socket emits are returned as a list of events, in emission order. Each kind of
event has a fixed destination: the sender, the other sockets in the room, or
the whole room. `Date.now()` readings are parameters.

Behaviour of the code as written, including where it departs from its own
comments:

- In socket.ts, a re-join with a userId already in the room is an error
  (`joinError`), not a success. If the room is full, the re-join gets the
  "room full" message, because the capacity test runs first.
- The comment at src/lib/socket.ts:114 says the first to join is player1 and
  the second player2. The code derives the role from the member count after
  the append, so this holds for each join into a room that still has space.
- The comment at server.ts:64 says it checks whether the room is full (two
  people), but the code only recomputes `isReady`. Nothing refuses a join: a
  third user is admitted, is told player2, and the room stops being ready.
- Neither version ever calls its disconnect logic. In socket.ts the
  `disconnect` listener only logs, and `handleDisconnect` is never called.
  server.ts's handler does nothing. `handleDisconnect` is still modelled as a
  callable method.
- The `userLeft` snapshot is taken before an emptied room is deleted. It
  therefore reports the room with `userCount` 0 rather than `null`.

## Model

| member | source | states |
|---|---|---|
| `SocketLib.IndexOfSocket` | src/lib/socket.ts:154 | the result is -1 exactly when no member joined from the socket; otherwise it is the first member with that socket id |
| `SocketLib.RemoveAt` | src/lib/socket.ts:157 | `splice(k, 1)` drops exactly element k: one shorter, earlier elements in place, later ones shifted down, the same multiset less that element |
| `SocketLib.Snapshot` | src/lib/socket.ts:179-188 | the snapshot has the room's id, `userCount` equal to the member count, members in the same order with id, name and join time, and `isReady` exactly when there are two members |
| `SocketLib.RoomInfoOf` | src/lib/socket.ts:175-189 | `getRoomInfo` is null exactly for an unknown room, and otherwise the room's snapshot |
| `SocketLib.Join` | src/lib/socket.ts:74-131 | a join keeps the key order a faithful listing of the Map's keys, each key once |
| `SocketLib.FirstRoomFrom` | src/lib/socket.ts:153-155 | the result is the first room in Map order, from the given position, that holds the socket; every earlier room does not hold it |
| `SocketLib.Disconnect` | src/lib/socket.ts:149-173 | a disconnect keeps the key order a faithful listing of the Map's keys, including when it deletes a room |
| `SocketLib.JoinRefusesFullRoom` | src/lib/socket.ts:90-93 | a join into a room with two or more members emits only the "full" error and changes nothing, even for a userId already in the room |
| `SocketLib.JoinRefusesDuplicate` | src/lib/socket.ts:96-100 | in a room that is not full, a join by a userId already present emits only the "already in room" error and changes nothing |
| `SocketLib.JoinAdmits` | src/lib/socket.ts:78-128 | any other join succeeds, in particular into an absent room. The room keeps its id and creation time (a new room gets the given ones), and the user is appended after the earlier members. Its socket is recorded. Other rooms are untouched. A new room goes last in Map order. The role is player1 exactly when the room had no members. Success and userJoined carry the new snapshot |
| `SocketLib.JoinPreservesWellFormed` | src/lib/socket.ts:78-111 | after a join, every room still has its own id, one or two members, and pairwise distinct userIds |
| `SocketLib.DisconnectUnknownSocket` | src/lib/socket.ts:153-155 | disconnecting a socket that is in no room changes nothing and emits nothing |
| `SocketLib.DisconnectRemovesOneMember` | src/lib/socket.ts:153-171 | only the first room in Map order that holds the socket changes. Only its first member with that socket is removed, and the rest keep their order; the room's id and creation time stay. That userId's socket entry is deleted. The room and its key are deleted exactly when it became empty. `userLeft` carries the snapshot taken after the removal |
| `SocketLib.DisconnectPreservesWellFormed` | src/lib/socket.ts:153-171 | after a disconnect every room is still well formed; an emptied room does not remain |
| `SocketLib.ReplayPreservesWellFormed` | src/lib/socket.ts:74-173 | any interleaving of joins and disconnects keeps every room well formed |
| `SocketLib.AtMostTwoDistinctMembers` | src/lib/socket.ts:90-110 | from the initial empty manager, after any history every room has one or two members with distinct userIds |
| `SocketLib.TwoJoinsFillRoom` | src/lib/socket.ts:110-121 | two different users joining a fresh room become player1 then player2, in that order, and the second join reports the room ready |
| `SocketLib.SocketManager.constructor` | src/lib/socket.ts:21-24 | the manager starts with no rooms and an empty userId-to-socket map |
| `SocketLib.SocketManager.HandleJoinRoom` | src/lib/socket.ts:74-131 | the new fields and the emitted events are exactly those of `Join` on the old fields; rooms stay well formed |
| `SocketLib.SocketManager.HandleGameAction` | src/lib/socket.ts:133-147 | nothing is emitted exactly when the room is unknown or no member joined from the socket. Otherwise one `gameUpdate` goes out, carrying the action, that member and the room snapshot. The state never changes |
| `SocketLib.SocketManager.HandleDisconnect` | src/lib/socket.ts:149-173 | the loop over the rooms in Map order, with its early exit, leaves exactly the state and events of `Disconnect`; rooms stay well formed |
| `ServerRooms.FindUser` | server.ts:58 | `find` finds nothing exactly when no member has the userId; otherwise it returns the first member with that userId |
| `ServerRooms.Join` | server.ts:47-85 | a join adds at most the joined room's key and leaves other rooms alone. Afterwards the room has a member. `isReady` holds exactly when `userCount` is 2. The role is player1 exactly when the joiner is the first member |
| `ServerRooms.FirstJoinCreatesRoom` | server.ts:49-68 | the first join into a room leaves it holding that user alone, with count 1 and not ready, and the user is player1 |
| `ServerRooms.RejoinIsIdempotent` | server.ts:58-68 | a re-join leaves members and count unchanged and returns the role the userId already had. It announces the existing first member with that userId. On a well-formed table it changes nothing at all |
| `ServerRooms.NewUserAppended` | server.ts:58-63 | a new userId is appended after the earlier members, and `userCount` becomes the new length |
| `ServerRooms.ThirdUserIsAdmitted` | server.ts:58-68 | a third distinct user is admitted. The count becomes 3 and the room is not ready. The newcomer is player2, the same role as the second member |
| `ServerRooms.JoinPreservesWellFormed` | server.ts:49-65 | after a join every room has its own id, at least one member, `userCount` equal to the member count, ready exactly at two, and distinct userIds |
| `ServerRooms.JoinKeepsRoles` | server.ts:68 | a join never changes a room's first member, so no userId's role changes |
| `ServerRooms.ReplayPreservesWellFormed` | server.ts:47-65 | any history of joins keeps every room well formed |
| `ServerRooms.ReplayKeepsRoles` | server.ts:68 | after any history of joins an existing room keeps its first member, and every userId keeps its role: the first joiner stays player1 |
| `ServerRooms.RoomTable.constructor` | server.ts:28 | the record starts empty |
| `ServerRooms.RoomTable.JoinRoom` | server.ts:47-85 | the new record, the role and the emitted events are exactly those of `Join` on the old record, and a well-formed record stays well formed |
| `ServerRooms.RoomTable.HandleDisconnect` | server.ts:88-90 | a disconnect leaves the record unchanged |
| `Divergence.ThirdUserDiverges` | src/lib/socket.ts:90-93 | with three distinct joiners, `SocketManager` refuses the third as full and keeps two members, while server.ts admits all three: count 3, not ready, third told player2 |
| `Divergence.RejoinDiverges` | server.ts:58-68 | a first member joining again gets an error from `SocketManager` and changes nothing, while server.ts answers player1 again and leaves its record unchanged |

## Left out

- Socket.IO transport is not performed: `socket.emit`, `socket.to(...).emit`, `io.to(...).emit` and `socket.join`. The emits are returned as events instead. Room subscription by `socket.join` is not modelled, so the model does not say which sockets actually receive a room broadcast.
- The chat `message` relay (src/lib/socket.ts:49-53), the connection logging, `initializeIO`, the singleton `getInstance`, and the getters `getIO`, `hasIO` and `getRooms`. They are I/O and plumbing, with no room logic.
- `handleGameAction` assumes the Socket.IO server exists. Handlers are only attached once it has been created, so the `_io?.` null case never arises.
- The text of the two `joinError` messages is represented by the reasons `RoomFull` and `AlreadyInRoom`.
- `Date.now()` (room creation and join times) is not read. Its values are the parameters `createdAt` and `joinTime`.
- server.ts stores rooms in a plain object. Keys inherited from `Object.prototype`, such as `constructor`, are not modelled. For those ids `rooms[roomId]` is already truthy, and the handler would fail on it. The model treats every room id as an ordinary key.
- The HTTP and Next.js bootstrap in server.ts, the HTTP route, the React pages, components and hooks, and the type-only files are not modelled. They hold no room logic.
- The Hanamikoji game engine is not modelled. The repository contains only its type declarations, with no dealing, action, turn or scoring code.
- Concurrency is not modelled. Both servers run every handler to completion on a single-threaded event loop, so each handler is one atomic step.
- Room objects are modelled as values stored in maps. A room is never shared outside its table in the modelled code, so in-place `push` and `splice` on it are modelled as replacing the table entry. Snapshots sent in events are the room's value at the moment of emission.
