# imsys: a verified model of rooms, sessions, gateways and routing

imsys is a live-room messaging system. Gateways hold client connections and a
local cache of room members; a Roomserver holds the authoritative rooms and
sessions. This project models the state that the two keep and the messages
between them, and proves what holds in every run.

`dafny verify dfyconfig.toml` checks the whole project.

## How it is built

Each component has a specification, made of datatypes and functions, and where
the program updates objects in place also a class whose methods perform the
operation step by step and are proved equal to the specification. The theorems
are about the specification: steps, runs, and the exact conditions under which
an invariant survives. The invariants that hold whatever the arguments are the
classes' `Valid()`, so every method keeps them in place: Gateway views cover the
members (`RoomService`, `Server`), sessions are in their own shard
(`SessionService`), the ring is sorted (`HashRing`), accepted messages are
flushed, batched or queued in order (`Connection`), and open connections are
exactly the registered ones with no local room empty (`GatewayServer`).

| file | component |
|---|---|
| `Ids.dfy` | identifiers, map iteration, groups (maps of non-empty sets) |
| `Sessions.dfy` | the session table and its 256 shards |
| `Rooms.dfy` | rooms, members, Gateway views |
| `Roomserver.dfy`, `RoomserverRuns.dfy`, `RoomserverUndo.dfy` | the Roomserver, its invariants over runs, what undoes what |
| `TimeoutSweep.dfy`, `RecordTimes.dfy` | the disconnect timeout sweep; which reading each recorded time is |
| `CrashRecovery.dfy` | resync after a crash: batches in any interleaving rebuild the Roomserver |
| `UserRecords.dfy`, `ServedRequests.dfy`, `EndToEnd.dfy` | a crash inside a run of the whole system: one user at a time, through the Gateways' queues, with what they held at the crash |
| `PushApi.dfy` | multicast grouping, room close and broadcast |
| `HashRing.dfy`, `HashRingRuns.dfy`, `HashRingRejoins.dfy` | the consistent hash ring, over proper histories and over any history |
| `Frames.dfy`, `QueueShares.dfy`, `Connection.dfy`, `Delivery.dfy` | frame codec, priority back-pressure, write loop, and all of them together with the outcomes of the writes |
| `Gateway.dfy`, `GatewayServer.dfy`, `GatewayRuns.dfy` | the Gateway, its server object, and its invariants over runs |
| `TidyRooms.dfy` | local rooms against confirmed connections, without client discipline |
| `Protocol.dfy`, `OneLocalRoom.dfy`, `JoinStates.dfy`, `RoomCloses.dfy`, `AtRest.dfy`, `Scenarios.dfy` | Gateways, Roomserver and lossy queues as one system; whose join is waited for, whom a room close reaches; agreement of the two when nothing is under way; runs in which a promise fails |
| `DegradedMode.dfy`, `RequestOrder.dfy` | parking and draining as interleaved steps; the order in which a user's requests go out |

## Modelling decisions

- Each handler, `Close` and `RemoveConnection` is one atomic step, except in
  `DegradedMode.dfy`, where the steps are the code's lock regions. Two call
  chains of the code take a lock they already hold
  (internal/gateway/server.go:289-294 with 312, internal/gateway/distributor.go:64
  with 141); the model gives their intended effect and says nothing about
  progress past those locks.
- Rooms, members, sessions and connections are values inside map fields of the
  service classes; connections are addressed by connection ID, so that the
  registration, the distributor and a handler can name the same one.
- Clock readings are arguments, one for each call of `time.Now` or `time.Since`.
- CRC-32 and FNV-1a are arbitrary functions; the user hash of the Gateway is
  modelled exactly, with 64-bit wrap-around.
- Queue ratios are exact reals; with capacity 0 the usage is not a number and
  nothing is dropped by ratio.
- Go's random map order is an arbitrary enumeration of the keys.
- A missing key of the ring's owner map reads as "", as in Go.

## What the proofs found

- `LeaveRoom` and `UserDisconnect` keep rooms and sessions in agreement only
  when they name the user's current room; `JoinRoom` only when the user is not
  in room "". The exact conditions are `BreaksMirror` in `RoomserverRuns.dfy`.
- A re-join from another Gateway is the one request that makes Gateway views
  inexact (`RejoinsElsewhere`).
- `RemoveNode` keeps the owner of every key the node did not own even with
  duplicate points; what duplicates cause is a dangling point that routes the
  removed node's keys to "". No collision is needed: a node that joins twice and
  departs once leaves all its points dangling, whatever the hash. After any
  history the ring is given by the nodes present and by how often each joined
  beyond its departures (`HashRingRejoins.dfy`).
- A leave read from a connection that has been replaced can take a confirmed
  user out of its local room (`StaleLeave`).
- A success answer to a resume need not mean membership: the room may have been
  closed and opened again by somebody else. `GrantMeansMemberIff` is exact.
- Local rooms and confirmed connections part in exactly the events listed by
  `BreaksTidy` in `TidyRooms.dfy`. One of them is the close of a connection
  Confirmed in room "", which leaves its user in the local room.
- A write that times out is tolerated and its batch is dropped. On a socket that
  still writes after that, a client misses frames and reads later ones; what it
  reads has no gap exactly when no write succeeds after one that did not
  (`NoGapIff` in `Delivery.dfy`). A socket that keeps its first write error, as
  that of gorilla/websocket (go.mod:8) is understood to do, meets this, and then
  the client always reads a prefix (`PrefixOnKeptError`).
- The queue to the Roomserver survives a Roomserver crash. A join left in it is
  handled by the restarted Roomserver, which then holds a user that no
  connection is confirmed for. `CrashInRunRecovers` gives the exact condition on
  the queues at the crash, batches of an earlier recovery included, and what is
  held otherwise.
- A resync sends a snapshot. If its user leaves before the batch is queued, the
  batch brings the user back for good. `RecoveryWhileClientsAct` gives the exact
  condition on what the Gateway has queued since the crash.
- A connection that closes while its join is Pending reports nothing; the join is
  granted, the answer finds nobody, and the Roomserver keeps the user online.
  `AgreementAtRestIff` shows that nothing else parts the two machines for a
  user of one Gateway in a run without losses, timeout sweeps included.
- A room close tells the Gateways that have a view of the room. A Gateway whose
  user has since joined elsewhere through another Gateway has none, and keeps the
  user Confirmed in a room that is gone (`CloseMissesGateway`).
- An answer that is lost leaves its connection Pending for good, so a client that
  asks only when idle never asks again (`LostAnswerStrands`).
- A resume, and the join of a heartbeat, are sent while leaves and disconnects
  are parked, and so overtake them: the Roomserver can mark a confirmed user
  disconnected. `Overtakes` is the exact condition, for handlers in
  `RequestOrder.dfy` and for the interleaved steps of a drain in
  `DegradedMode.dfy`.
- A request checked while degraded and appended after recovery and drain stays
  parked until the next recovery (`LateAppend`).
- A user ID whose hash sum wraps to -2^63 makes `AddConnection` panic with ten
  distributors, after registering the connection and before indexing it.

## Model

| member | source | states |
|---|---|---|
| `Ids.Range` | internal/roomserver/session_service.go:197-199 | A Go range over a map: every key is listed exactly once, in no promised order |
| `Sessions.SessionService.constructor` | internal/roomserver/session_service.go:41-49 | A new table has 256 empty shards and stands for the empty flat map |
| `Sessions.SessionService.Get` | internal/roomserver/session_service.go:68-73 | Looking in the user's hash shard is looking in the flat map |
| `Sessions.SessionService.UserRoom` | internal/roomserver/session_service.go:76-82 | The room of the user's session in the flat map, "" without one |
| `Sessions.SessionService.Create` | internal/roomserver/session_service.go:94-106 | Creating in the shard creates in the flat map; every session stays in its own hash shard only |
| `Sessions.SessionService.Update` | internal/roomserver/session_service.go:109-128 | Updating keeps the connect time, goes online and clears the disconnect time; a missing session is created; the shards still refine the flat map |
| `Sessions.SessionService.Disconnect` | internal/roomserver/session_service.go:131-140 | Only an existing session is marked disconnected; the shards still refine the flat map |
| `Sessions.SessionService.Delete` | internal/roomserver/session_service.go:143-148 | The flat map loses exactly this user |
| `Sessions.SessionService.UserDisconnected` | internal/roomserver/session_service.go:167-170 | True exactly for a session in state disconnected |
| `Sessions.SessionService.GetDisconnectedDuration` | internal/roomserver/session_service.go:173-179 | The reading less the disconnect time for a disconnected session, 0 for anyone else |
| `Sessions.SessionService.GetSessionCount` | internal/roomserver/session_service.go:182-190 | The shard sizes add up to the size of the flat map |
| `Sessions.SessionService.GetAllUserIDs` | internal/roomserver/session_service.go:193-203 | Every user with a session is listed exactly once |
| `Rooms.RoomService.GetOrCreateRoom` | internal/roomserver/room_service.go:38-53 | An existing room is returned unchanged, a missing one is created empty; no other room changes |
| `Rooms.RoomService.Close` | internal/roomserver/room_service.go:56-70 | Removes the room and reports whether it existed |
| `Rooms.RoomService.Add` | internal/roomserver/room_service.go:73-98 | The member is replaced and the new Gateway's view gains the user; an old Gateway's view is not cleaned |
| `Ids.AddToGroup` | internal/roomserver/room_service.go:88-94 | The user is added to the Gateway's view, which is created when missing |
| `Ids.DropFromGroup` | internal/roomserver/room_service.go:118-123 | The user leaves the Gateway's view, and an emptied view is deleted |
| `Rooms.RoomService.Remove` | internal/roomserver/room_service.go:101-126 | Removes member and view entry; unknown rooms and users change nothing |
| `Rooms.RoomService.MarkDisconnected` | internal/roomserver/room_service.go:129-142 | Only status and disconnect time of an existing member change |
| `Rooms.RoomService.MoveToGateway` | internal/roomserver/room_service.go:145-187 | The member moves between the two views and is online again; false when there is no such member |
| `Rooms.RoomService.GetRoomGatewayIDs` | internal/roomserver/room_service.go:190-204 | Each Gateway with a view of the room, once; none for an unknown room |
| `Roomserver.Server.constructor` | internal/roomserver/server.go:60-86 | A new server holds no room and no session |
| `Roomserver.Server.JoinRoom` | internal/roomserver/server.go:159-185 | The two tables change as the specification of a join: leave the session's room unless it is "" or the same, add, update the session |
| `Roomserver.Server.LeaveRoom` | internal/roomserver/server.go:188-198 | Membership of the named room and the session are removed, whatever room the session names |
| `Roomserver.Server.ResumeSession` | internal/roomserver/server.go:201-230 | The code for no session, wrong room, closed room or success, and the state change exactly on success |
| `Roomserver.Server.UserDisconnect` | internal/roomserver/server.go:233-241 | Member of the named room and session are marked disconnected |
| `Roomserver.Server.HandleBatchReSync` | internal/roomserver/grpc_server.go:245-263 | A batch acts as the run of its joins, in order, from the sending Gateway |
| `Roomserver.Server.ExpireUser` | internal/roomserver/server.go:325-338 | One turn of the sweep: leave the session's room exactly when disconnected for the timeout |
| `Roomserver.Server.CheckDisconnectTimeout` | internal/roomserver/server.go:321-340 | The sweep is one timeout test per session, each user once, each with its own clock reading |
| `RoomserverRuns.StepKeepsViewsCover` | internal/roomserver/room_service.go:87-123 | Every request with any arguments keeps: each member is in its own Gateway's view and no view is empty |
| `RoomserverRuns.RunKeepsViewsCover` | internal/roomserver/room_service.go:73-187 | In every reachable state the Gateway views cover the members |
| `RoomserverRuns.StepKeepsViewsExactIff` | internal/roomserver/room_service.go:79-94 | Views stay the exact inverse of the members if and only if the step is not a re-join of a member from another Gateway |
| `RoomserverRuns.RunKeepsViewsExact` | internal/roomserver/room_service.go:73-187 | Every run without such a re-join keeps the views exact |
| `RoomserverRuns.RejoinLeavesStaleView` | internal/roomserver/room_service.go:79-94 | Two joins from different Gateways leave the user in the first Gateway's view |
| `RoomserverRuns.StepKeepsMirrorIff` | internal/roomserver/server.go:159-241 | For every request, the exact condition under which members still mirror sessions (room, Gateway and status) |
| `RoomserverRuns.StepKeepsPlacedIff` | internal/roomserver/room_service.go:56-70 | Every session stays a membership if and only if the step does not close a room with members |
| `RoomserverRuns.RunKeepsMirror` | internal/roomserver/server.go:159-241 | In every run with named rooms and leaves and disconnects of the current room: members mirror sessions, nobody is in two rooms, and without room closing every session is a membership |
| `RoomserverRuns.LeaveElsewhereOrphansMember` | internal/roomserver/server.go:188-190 | A leave of another room deletes the session and leaves the membership |
| `RoomserverRuns.UnnamedRoomGivesTwoRooms` | internal/roomserver/server.go:161-162 | A join of room "" followed by another join puts the user in two rooms |
| `RoomserverRuns.ResumeGrantedIff` | internal/roomserver/server.go:201-230 | A resume is granted if and only if the session names the room and the room exists; a refused one changes nothing, and 2004 comes with the session's room |
| `RoomserverRuns.ClosedUntilJoined` | internal/roomserver/room_service.go:56-70 | From a close until somebody joins the room, a resume of it is refused: 2003 when the session names it, 2004 and the session's room when it names another, 2002 without a session |
| `RoomserverRuns.ResumedIsMemberIff` | internal/roomserver/server.go:201-230 | A granted resume leaves the user a member if and only if it was one; where every session is a membership it always does |
| `RoomserverRuns.ReopenedRoomGrantsResume` | internal/roomserver/server.go:201-230 | A run, join, close, join of another user, after which the first user's resume succeeds without membership |
| `RoomserverRuns.StepConcernsOneUser` | internal/roomserver/server.go:159-241 | A request leaves session, memberships and view entries of every other user untouched |
| `RecordTimes.SessionTimes` | internal/roomserver/session_service.go:94-140 | In every run a session carries the session reading of the request that created it, and no disconnect time while it is online |
| `RecordTimes.MemberTimes` | internal/roomserver/room_service.go:80-185 | In every run a member carries the room reading of its latest join, and while disconnected that of its latest disconnect, otherwise none |
| `RoomserverUndo.ResumeUndoesDisconnect` | internal/roomserver/server.go:201-241 | Disconnect then resume on the same Gateway succeeds and restores the whole state, times aside |
| `RoomserverUndo.LeaveUndoesJoin` | internal/roomserver/server.go:159-198 | A newcomer's join then leave restores the whole state but for the room created |
| `TimeoutSweep.SweepPrefix` | internal/roomserver/server.go:321-340 | After any number of turns, users seen are gone if timed out at their own reading and untouched if not; all others are untouched |
| `TimeoutSweep.DisconnectReading` | internal/roomserver/session_service.go:131-140 | In every run a disconnected session carries the session reading of the latest disconnect handled while it existed |
| `TimeoutSweep.ExpireRemovesIff` | internal/roomserver/server.go:325-338 | In every run, a turn of the sweep removes a user, membership included, if and only if it is disconnected and its latest disconnect is at least the timeout ago; otherwise nothing changes |
| `TimeoutSweep.SweepIsExact` | internal/roomserver/server.go:321-340 | After any run, under a non-decreasing clock: latest disconnect the timeout ago at the start means gone with its membership; connected, or less than the timeout ago at the end, means untouched; the mirror is kept |
| `CrashRecovery.ProgressiveReSync` | internal/gateway/roomserver_client.go:494-520 | Every local (user, room) pair is sent exactly once, in full batches of 1000 with only the last shorter and none empty |
| `CrashRecovery.JoinPlaces` | internal/roomserver/server.go:159-176 | A resync join extends the placement the state holds by its user, first time or again |
| `CrashRecovery.RecoveryRebuilds` | internal/roomserver/grpc_server.go:257-259 | Any envelopes reporting a placement and nothing else, in any order with any repetition, rebuild exactly its sessions, members and views |
| `CrashRecovery.CrashRecoveryRestores` | internal/gateway/roomserver_client.go:494-520 | Any interleaving of the Gateways' resync batches rebuilds the union of the local rooms from the empty Roomserver |
| `CrashRecovery.PlacementDeterminesState` | internal/roomserver/server.go:159-176 | A placement determines rooms, members, views and sessions, times aside |
| `CrashRecovery.InterleavingsAgree` | internal/roomserver/grpc_server.go:257-259 | Any two interleavings of any batchings give the same state, times aside |
| `CrashRecovery.ReplayChangesNothing` | internal/roomserver/grpc_server.go:257-259 | Replaying received batches changes nothing but times |
| `EndToEnd.PlacementExists` | internal/gateway/server.go:396-409 | If no user is confirmed on two Gateways, the confirmed connections form a placement |
| `UserRecords.RunProjects` | internal/roomserver/server.go:159-241 | In every run that closes no room, a user's session, memberships and view entries are those of its own requests alone |
| `UserRecords.HoldsIff` | internal/roomserver/server.go:159-176 | A state holds a placement if and only if each user's record is the placement's and no room is empty |
| `UserRecords.OwnRun` | internal/roomserver/server.go:159-241 | From the empty state, a user whose requests come from one Gateway is a member, hosted and seen by that Gateway, of exactly the rooms whose joins stand: not left since, nor left by a later join that found them current; its session names the last join not followed by a leave |
| `UserRecords.HeldRecordIff` | internal/roomserver/server.go:159-241 | Such a user, resent last where it is placed, has exactly the record of its placement if and only if no other join stands |
| `UserRecords.NothingEmptyIff` | internal/roomserver/room_service.go:38-126 | Without closes no room is empty if and only if every room ever joined has a member |
| `ServedRequests.RunServes` | internal/roomserver/grpc_server.go:170-263 | Whatever Gateways and network do, the Roomserver's state is the run of the requests it has handled |
| `ServedRequests.RecoveredIff` | internal/roomserver/grpc_server.go:170-263 | From a crash on, through any activity, losses and timeouts included: the Roomserver holds a placement if and only if each user's own handled requests put it there and every room joined is in the placement |
| `ServedRequests.QueueConserved` | internal/gateway/roomserver_client.go:178-269 | In any run that loses no request, whatever clients and Gateways do, what is handled from a Gateway plus what is queued is what was queued at the start plus what entered the queue, in order |
| `ServedRequests.LogDecides` | internal/roomserver/grpc_server.go:170-263 | From a crash on, once the queue of the one Gateway that speaks for a user is handled, the Roomserver has the user in exactly the rooms whose joins stand in what that Gateway has queued since |
| `EndToEnd.CrashInRunRecovers` | internal/gateway/roomserver_client.go:178-524 | After any run with patient clients on one Gateway each, a crash with anything in the queues, earlier resync batches included, and the new resync handled in any interleaving: exactly the confirmed connections are held, with mirror and exact views, if and only if no other join stands in the queues at the crash and no queued join names an otherwise unused room; in any case each user is in exactly the rooms whose joins stand |
| `EndToEnd.RecoveryWhileClientsAct` | internal/gateway/roomserver_client.go:494-520 | With clients acting during the recovery and resync pairs that may be stale: the Roomserver has a user in the Gateway's local rooms if and only if these are the rooms whose joins, resync pairs included, stand in what the Gateway has queued since the crash |
| `Scenarios.LeftUserIsBack` | internal/gateway/roomserver_client.go:494-520 | The failing run: confirmed, crash, leave, then the stale resync pair; the Roomserver has the user online and its Gateway does not |
| `EndToEnd.StandingJoinIsHeld` | internal/gateway/roomserver_client.go:46-46 | The failing input: connect, join, crash, and the queued join is handled; the Roomserver holds a user that nobody is confirmed for |
| `EndToEnd.FirstJoinIsPatient` | internal/gateway/handler.go:26-40 | The clients of that run are patient |
| `PushApi.GroupByGateway` | internal/roomserver/push_api.go:136-142 | One group per Gateway of a requested user; each group is the requested users on that Gateway in request order |
| `PushApi.GroupsPartition` | internal/roomserver/push_api.go:136-142 | Each user with a session is in its Gateway's group as often as requested and in no other group |
| `PushApi.GroupsKeepOrder` | internal/roomserver/push_api.go:136-142 | Grouping a request in two parts gives the two groups one after the other |
| `PushApi.NotifyRoom` | internal/roomserver/server.go:251-268 | Each connected Gateway with a view of the room is notified exactly once |
| `PushApi.CloseRoomRequest` | internal/roomserver/push_api.go:281-306 | Unknown rooms are refused; a known room's Gateways are notified from the views before the close, then the room is gone |
| `PushApi.GlobalTargets` | internal/roomserver/push_api.go:239-247 | Exactly the Gateways with a view of some room |
| `PushApi.RoomMessageReachesHosts` | internal/roomserver/push_api.go:287-303 | In every reachable state a room message addresses every connected Gateway hosting a member, and without re-joins from elsewhere no other |
| `HashRing.HashRing.AddNode` | internal/roomserver/hashring.go:27-41 | The points are added and the ring is sorted again; the node owns all its points, also those others owned |
| `HashRing.ItoaDenotes` | internal/roomserver/hashring.go:32-32 | The decimal suffix of a virtual key consists of digits and denotes the number of the virtual node |
| `HashRing.VirtualKeysDiffer` | internal/roomserver/hashring.go:31-35 | Two virtual nodes with the same key are the same virtual node of the same node, whatever the names |
| `HashRing.SortSorts` | internal/roomserver/hashring.go:38-40 | Sorting gives a sorted permutation |
| `HashRing.HashRing.RemoveNode` | internal/roomserver/hashring.go:44-57 | Panics exactly when the ring has fewer points than virtual nodes; otherwise the loop strips the node, a deleted owner entry being missing for later equal points |
| `HashRing.HashRing.GetNode` | internal/roomserver/hashring.go:60-78 | The owner of the ring point at the least clockwise distance from the key's hash, "" on an empty ring |
| `HashRing.HashRing.IsLocalNode` | internal/roomserver/hashring.go:86-88 | True exactly when the key is routed to the node |
| `HashRing.RouteIsUnique` | internal/roomserver/hashring.go:60-78 | Clockwise routing determines one node |
| `HashRing.FirstIff` | internal/roomserver/hashring.go:69-75 | The point at the least clockwise distance is the least point not below the hash or, if there is none, the least of all |
| `HashRing.PointRoutesToItself` | internal/roomserver/hashring.go:69-78 | A hash that is a ring point is routed to that point's node and no other |
| `HashRingRuns.AddMovesOnlyToNewNode` | internal/roomserver/hashring.go:27-41 | After adding a node every key keeps its owner or moves to the node, on any ring, collisions or not |
| `HashRingRuns.RemoveKeepsOtherKeys` | internal/roomserver/hashring.go:44-57 | After removing a node every key it did not own keeps its owner, on any ring, duplicate points or not |
| `HashRingRuns.RemovedNodeGetsNoKey` | internal/roomserver/hashring.go:44-57 | No key is routed to the removed node |
| `HashRingRuns.RemoveDanglesIff` | internal/roomserver/hashring.go:49-54 | Removal leaves a new dangling point exactly where the node owned a duplicated point |
| `HashRingRejoins.RejoinedNodeDangles` | internal/roomserver/hashring.go:27-57 | For every hash, number of virtual nodes and named node: joining twice and departing once, as `AddNode` and `RemoveNode` do it, leaves each of the node's points in the ring without an owner |
| `HashRingRejoins.RejoinKeepsRoutes` | internal/roomserver/hashring.go:31-36 | A present node that joins again changes no owner entry and no route |
| `HashRingRejoins.RejoinedDepartureLosesKeys` | internal/roomserver/hashring.go:49-54 | When a node whose points are duplicated departs, every key it owned is routed to "" |
| `HashRingRejoins.StripCounts` | internal/roomserver/hashring.go:49-54 | On any ring, removal takes one copy of each point the node owns and its owner entry, and nothing else |
| `HashRingRejoins.AnyHistory` | internal/roomserver/hashring.go:27-57 | After any history of joins and departures, repeated or of absent nodes, each node's points are in the ring as often as it joined beyond its departures, owned exactly while it is present |
| `HashRingRejoins.ServersAgreeIff` | internal/roomserver/hashring.go:27-57 | Two servers hold the same ring, through any histories, if and only if the same nodes are present and each node's points are there equally often |
| `HashRingRejoins.DanglesAfterIff` | internal/roomserver/hashring.go:49-54 | After any history a node's points dangle if and only if it is absent and joined more often than it departed |
| `HashRingRuns.RepresentationIsUnique` | internal/roomserver/hashring.go:27-57 | With distinct hashes ring and owner map are determined by the set of nodes |
| `HashRingRuns.DistinctIffNoCollision` | internal/roomserver/hashring.go:31-35 | The hashes of all virtual nodes are distinct if and only if the hash collides on no two of their keys |
| `HashRingRuns.AddThenRemoveRestores` | internal/roomserver/hashring.go:27-57 | Adding a node and removing it restores ring and owner map exactly |
| `HashRingRuns.RemovalDoesNotPanic` | internal/roomserver/hashring.go:48-48 | With distinct hashes the removal of a present node has ring points enough |
| `HashRingRuns.HistoryRepresents` | internal/roomserver/hashring.go:27-57 | After any history of joins and departures the ring is that of the nodes present |
| `HashRingRuns.ServersAgree` | internal/roomserver/hashring.go:27-78 | Two servers with the same nodes present, through any histories, hold the same ring, so route every key alike |
| `Frames.EncodeFrame` | internal/protocol/frame.go:35-48 | The filled buffer is the big-endian header and payload, the length field holding 32 bits |
| `Frames.PutUint` | internal/protocol/frame.go:39-41 | Exactly the addressed bytes of the buffer become the big-endian number |
| `Frames.DecodeIff` | internal/protocol/frame.go:51-80 | Decoding gives a frame if and only if the input starts with its encoding and its payload is within 2^20 bytes |
| `Frames.RoundTripIff` | internal/protocol/frame.go:35-80 | Decode after encode is the identity exactly on payloads within 2^20 bytes |
| `Frames.EncodingBytes` | internal/protocol/frame.go:35-48 | The byte at each position of an encoding: big-endian type, sequence and length, then the payload |
| `Frames.DecodeErrors` | internal/protocol/frame.go:51-80 | Which inputs DecodeFrame refuses as too large and which as invalid, by their length and their four length bytes |
| `Frames.ReadErrors` | internal/protocol/frame.go:83-110 | Which inputs ReadFrame refuses as too large, at end of file, or with an unexpected end, and what is left to read |
| `Frames.Reader.Full` | internal/protocol/frame.go:85-87 | Succeeds if and only if the input has the bytes asked for, and then the input was the bytes returned followed by what is left; otherwise end of file, or unexpected end, with the input used up |
| `Frames.Reader.ReadFrame` | internal/protocol/frame.go:83-110 | Result and remaining input of reading one frame, for every input and error |
| `Frames.ReadAgreesWithDecode` | internal/protocol/frame.go:51-110 | ReadFrame and DecodeFrame succeed on the same inputs with the same frame, and the input is its encoding followed by what is left |
| `Frames.PackedRoundTrip` | internal/gateway/connection.go:269-281 | Reading a packed batch of frames gives exactly those frames in order with nothing left |
| `Frames.ReadAllReencodes` | internal/protocol/frame.go:83-110 | For any input, the frames read re-encode to exactly the consumed part |
| `Frames.PackMessages` | internal/gateway/connection.go:269-281 | The concatenation of the messages |
| `ClientConnection.Connection.constructor` | internal/gateway/connection.go:61-72 | A new connection is open with nothing accepted, batched or flushed, all counters zero and no last write |
| `ClientConnection.Connection.Send` | internal/gateway/connection.go:186-200 | Refused exactly when the queue is full, with the drop counters; accepted messages keep FIFO conservation |
| `ClientConnection.Connection.DispatchToUser` | internal/gateway/kafka_consumer.go:164-194 | Queued last if and only if fewer than ceil(C/2) messages wait for low, ceil(4C/5) for normal or an unknown name, ceil(19C/20) for high, C for critical; the counters move exactly when the queue refuses; FIFO conservation kept |
| `ClientConnection.Connection.SendToConn` | internal/gateway/distributor.go:84-111 | The same with configured ratios; a message not queued counts as a drop, a refusal notes since when the queue is full, and the connection closes exactly when it is too slow |
| `ClientConnection.Connection.CheckAndCloseSlowConn` | internal/gateway/distributor.go:114-130 | Closes exactly on too many consecutive drops or too long a full queue |
| `ClientConnection.Connection.FlushBatchWithTimeout` | internal/gateway/connection.go:154-183 | The batch and its outcome are recorded; the loop goes on exactly on success or a tolerated timeout, and closes otherwise |
| `ClientConnection.Connection.OnMessage` | internal/gateway/connection.go:119-131 | One message moves from queue to batch, a full batch is flushed; accepted = flushed + batch + queue, batch sizes 1 to the maximum, and fewer timeouts than allowed while open |
| `ClientConnection.Connection.OnTick` | internal/gateway/connection.go:133-139 | A non-empty batch is flushed; the same invariants are kept |
| `ClientConnection.Connection.OnClosed` | internal/gateway/connection.go:115-117 | The last batch is handed to the closing socket with whatever outcome, and only the queue is left unsent |
| `Delivery.FramesReadAt` | internal/gateway/connection.go:107-183 | Whatever the outcomes, the client reads exactly the accepted frames whose batch was written, by position |
| `Delivery.NoGapIff` | internal/gateway/connection.go:164-182 | The client has read the first accepted frames with none missing if and only if no write succeeded after one that did not |
| `Delivery.ReadAllIff` | internal/gateway/connection.go:154-183 | Everything handed to the socket is read if and only if every write succeeded |
| `Delivery.ClientReadsPrefixIff` | internal/gateway/connection.go:107-183 | For any connection, what the client has read is a prefix of the accepted frames if no write succeeded after a loss, and for frames that differ from each other only then |
| `Delivery.SocketIsHandedPrefix` | internal/gateway/connection.go:107-151 | At any moment what has been handed to the socket, read or not, is exactly the first frames accepted, in order |
| `Delivery.TimeoutLosesFrame` | internal/gateway/connection.go:164-182 | On a socket that still writes after a timeout, for any two different frames: a run in which the first write times out, the connection stays open, and the client reads only the second |
| `Delivery.PrefixOnKeptError` | internal/gateway/connection.go:154-183 | On a socket that keeps its first write error the client always reads a prefix of the accepted frames |
| `QueueShares.StepKeepsShares` | internal/gateway/kafka_consumer.go:174-193 | Every dispatch, reply and take keeps each class within its share, for any ordered thresholds |
| `QueueShares.RunKeepsShares` | internal/gateway/distributor.go:84-111 | In every reachable state each priority class holds at most the ceiling of its ratio of the capacity |
| `QueueShares.DispatchShares` | internal/gateway/kafka_consumer.go:174-193 | Low at most ceil(C/2), low and normal ceil(4C/5), all non-critical ceil(19C/20) |
| `QueueShares.DroppedIff` | internal/gateway/distributor.go:84-111 | For any ordered ratios, a message is left out if and only if the queue has reached its class's share, or the capacity for a critical one; otherwise it is queued last |
| `QueueShares.DispatchedIff` | internal/gateway/kafka_consumer.go:179-193 | The same by the name of the priority, with the limits of the dispatch path as whole numbers |
| `QueueShares.ReplyRefusedIff` | internal/gateway/connection.go:186-200 | A direct reply is queued last, as a critical message, if and only if the queue is not full |
| `QueueShares.TakenInOrder` | internal/gateway/connection.go:119-131 | In every run what the write loop has taken and what is still queued is what was admitted, in order |
| `QueueShares.CriticalRefusedOnlyByCritical` | internal/gateway/kafka_consumer.go:179-193 | A critical message is refused only when at least floor(C/20) critical ones are queued |
| `Gateway.ComputeHashUserId` | internal/gateway/server.go:448-457 | The hash with 64-bit wrap-around |
| `Gateway.HashIsNegativeIff` | internal/gateway/server.go:453-455 | The hash is negative exactly when the wrapped sum is -2^63, which negation leaves as it is |
| `Gateway.HasShardIff` | internal/gateway/server.go:300-301 | A user has a distributor exactly when there is one and the wrapped sum is not -2^63 or 2^63 is a multiple of their number |
| `GatewayService.GatewayServer.constructor` | internal/gateway/server.go:88-130 | A new Gateway has no connection, no local room and empty distributors |
| `GatewayService.GatewayServer.RegisterConnection` | internal/gateway/server.go:288-308 | Closes the user's old connection, registers and indexes the new one; panics between the two exactly when there is no distributor for the user |
| `GatewayService.GatewayServer.CloseConnection` | internal/gateway/connection.go:208-233 | Once per connection: unregister and, if Confirmed in a named room, leave the local room and report the disconnect |
| `GatewayService.GatewayServer.HandleLeaveRoom` | internal/gateway/handler.go:62-83 | The user leaves the named local room and the connection is Init; the leave is parked when degraded, sent otherwise |
| `GatewayService.GatewayServer.FindLocalRoom` | internal/gateway/handler.go:129-137 | Some local room that has the user, or "" when none has |
| `GatewayService.GatewayServer.HandleHeartbeatRequest` | internal/gateway/handler.go:128-162 | No room named or no mismatch changes nothing; a missing user joins; a user in another room leaves it and joins |
| `GatewayService.GatewayServer.OnJoinRoomAck` | internal/gateway/handler.go:230-255 | Success confirms the registered connection and adds the user to the local room; failure returns it to Init |
| `GatewayService.GatewayServer.OnLeaveRoomAck` | internal/gateway/handler.go:262-273 | The user leaves the local room, its connection, if any, is Init |
| `GatewayService.GatewayServer.HandleRoomClose` | internal/gateway/roomserver_client.go:463-490 | The local room goes and the registered connection of each of its users is Init |
| `GatewayService.GatewayServer.SetNormal` | internal/gateway/server.go:254-263 | Leaving degraded mode starts a drain, once per recovery |
| `GatewayService.GatewayServer.ProcessPendingRequests` | internal/gateway/server.go:266-285 | All parked requests are sent, leaves first, each in order, and none is parked any more |
| `GatewayService.GatewayServer.RoomBroadcast` | internal/gateway/roomserver_client.go:359-379 | Visits exactly the registered connections of the room's local users, each once; where confirmed connections are in their local rooms, every connection Confirmed in the room is visited |
| `GatewayRuns.RunKeepsWired` | internal/gateway/server.go:288-327 | In every run the open connections are exactly the registered ones, each under its own user |
| `GatewayRuns.StepKeepsInvariants` | internal/gateway/server.go:288-393 | Every event with any arguments keeps open and registered the same and no local room empty |
| `GatewayRuns.UnregisterKeepsIndexed` | internal/gateway/server.go:311-327 | Removing a user's connection keeps registrations, local users and distributors in agreement |
| `GatewayRuns.CloseKeepsIndexed` | internal/gateway/connection.go:208-223 | Closing a connection keeps all connection indexes in agreement |
| `GatewayRuns.CloseEvictsOnlyItself` | internal/gateway/connection.go:208-223 | In every run closing an open connection unregisters that connection and no other |
| `GatewayRuns.StepKeepsIndexedIff` | internal/gateway/server.go:288-327 | The connection indexes stay in agreement if and only if the step is not a connect without a distributor for the user |
| `GatewayRuns.RunKeepsIndexed` | internal/gateway/server.go:288-327 | In every run of users with a distributor: registered, local user, and in the hash shard's distributor with the same connection and in no other, all agree |
| `GatewayRuns.OverflowingUserHasNoShard` | internal/gateway/server.go:448-457 | A user ID whose wrapped sum is -2^63 and that has none of ten distributors |
| `GatewayRuns.StepKeepsConfirmedLocalIff` | internal/gateway/handler.go:229-273 | With no client discipline, a registered Confirmed connection keeps its user in the local room if and only if the step is not a leave on a replaced connection naming that room |
| `GatewayRuns.RunKeepsConfirmedLocal` | internal/gateway/server.go:337-393 | In every run without such a leave, confirmed connections are in their local rooms and no local room is empty |
| `Scenarios.ReplacedConnectionLeaves` | internal/gateway/handler.go:61-64 | A run of the system: connect, reconnect, join, grant, answer, then a leave on the old connection; the new connection is Confirmed and its user is not in the local room |
| `Protocol.LocalStepHonest` | internal/gateway/roomserver_client.go:283-315 | Joins and resumes queued carry the Gateway's ID and a room their client named; no local event adds to the local rooms |
| `Protocol.StepKeepsSafe` | internal/roomserver/grpc_server.go:177-225 | Every step of Gateways, Roomserver and queues keeps: local rooms, success answers and grants are backed by processed requests and named rooms |
| `Protocol.RunIsSafe` | internal/gateway/handler.go:229-239 | Two-machine safety in every run, with drops, losses, closes and crashes |
| `Protocol.RunKeepsQueuesBounded` | internal/gateway/roomserver_client.go:46-46 | In every run no queue, to the Roomserver or back, holds more than 10000 messages |
| `GatewayRuns.SendDropsIff` | internal/gateway/roomserver_client.go:256-269 | A request joins the end of the queue if and only if fewer than 10000 are queued; otherwise it is dropped |
| `Protocol.HeldOnlyIfGranted` | internal/roomserver/grpc_server.go:177-225 | A Gateway holding a user in a room has in its past a grant for that pair and Gateway, and before it the client naming the room |
| `Protocol.GrantMeansMemberIff` | internal/roomserver/grpc_server.go:170-225 | After a success answer the user is in the room if and only if it asked to join or was a member before |
| `OneLocalRoom.AskOrderly` | internal/gateway/handler.go:26-40 | A join or resume from Init with none under way keeps local rooms equal to confirmed connections and at most one request of each user under way |
| `OneLocalRoom.LocalOrderly` | internal/gateway/handler.go:36-105 | Every step of a patient client, connect, close, mode change and drain keeps local rooms equal to confirmed connections |
| `OneLocalRoom.JoinAckOrderly` | internal/gateway/handler.go:236-247 | An answer finds its user in no local room and puts it in at most one |
| `OneLocalRoom.RoomCloseOrderly` | internal/gateway/roomserver_client.go:464-489 | A room close keeps local rooms equal to confirmed connections |
| `OneLocalRoom.RunIsOrderly` | internal/gateway/handler.go:229-273 | In every run with patient clients a user is in a local room exactly when its registered connection is Confirmed in it |
| `OneLocalRoom.UnnamedRoomLingers` | internal/gateway/connection.go:226-227 | A run of the system, client join of room "", grant, close, after which the user is in the local room and not connected |
| `JoinStates.WaitsOnlyAfterAsk` | internal/gateway/handler.go:36-40 | After any Gateway event a connection is Pending in a room only if it has just asked for it, or was before and the event is no leave of its client, answer to its user, or close of a room that has its user |
| `JoinStates.StepKeepsNowhere` | internal/gateway/handler.go:61-64 | Every event with any arguments keeps: a connection in Init is in room "" |
| `JoinStates.RunWaitsForAnswers` | internal/gateway/handler.go:229-255 | In every run in which no request and no answer is lost, whatever clients do, with closes, sweeps and crashes: a registered connection is Pending in a room only while a join or resume of its user for that room, or its answer, is on its way |
| `JoinStates.NobodyWaitsAtRest` | internal/gateway/handler.go:245-247 | In such a run, with a Gateway's queues empty, each of its registered connections is Confirmed, or in Init and in no room |
| `JoinStates.LostAnswerStrands` | internal/gateway/handler.go:36-40 | A run with a lost answer, after which the connection is Pending with nothing on its way |
| `RoomCloses.ToldAreTargets` | internal/roomserver/push_api.go:281-306 | A close puts the notice at the end of the queue of exactly the Gateways that the close request targets, as far as there is room; the others keep what they hold, and the room is gone |
| `RoomCloses.ReceivedInOrder` | internal/gateway/roomserver_client.go:192-215 | Unless an answer to it is lost, a Gateway receives first what was queued for it, in order |
| `RoomCloses.AfterNotice` | internal/gateway/roomserver_client.go:463-490 | Once a Gateway has received the notice, whoever it holds in the room has been granted it by a later answer |
| `RoomCloses.CloseReachesHosts` | internal/roomserver/push_api.go:287-303 | In every run, a close reaches each Gateway that hosts a member and whose queue has room: when its queue has been received, nobody is in that local room but by a later grant |
| `RoomCloses.CloseEndsConfirmation` | internal/gateway/roomserver_client.go:463-490 | With patient clients nobody is Confirmed in the room either, but by a later grant |
| `RoomCloses.StaleNoticeIsIdle` | internal/gateway/roomserver_client.go:463-490 | A Gateway told because of a stale view, with nobody in the room, changes nothing |
| `Scenarios.CloseMissesGateway` | internal/roomserver/push_api.go:287-303 | A run with two Gateways after which one holds a user Confirmed in a closed room and nothing is on its way to it |
| `TidyRooms.StepKeepsTidyIff` | internal/gateway/handler.go:26-273 | For every Gateway event, the exact condition under which a user stays in a local room exactly when its registered connection is Confirmed in it |
| `TidyRooms.CloseKeepsTidyIff` | internal/gateway/connection.go:208-233 | A close keeps that if and only if it does not end an open connection Confirmed in room "" |
| `TidyRooms.ConnectKeepsTidyIff` | internal/gateway/server.go:288-308 | A connect keeps that if and only if the connection it replaces is not Confirmed in room "" |
| `TidyRooms.RoomClosePlaces` | internal/gateway/roomserver_client.go:463-490 | A room close takes out of room and confirmation exactly the users of that room |
| `TidyRooms.RunKeepsTidy` | internal/gateway/handler.go:26-273 | In every run without such an event each user is in at most one local room, the one it is Confirmed in |
| `AtRest.HandleRecords` | internal/roomserver/server.go:159-241 | For a user of one Gateway, each request that names the user's room moves its record, nowhere or in one room with one status, as `NextRecord` says, and the answer to a join or resume is decided by that record |
| `AtRest.LocalMove` | internal/gateway/handler.go:26-162 | A patient local event does one of three things to a user: nothing, a join or resume from a user in no room with none under way, or giving up the Confirmed room with a leave or disconnect |
| `AtRest.ExpireRecords` | internal/roomserver/server.go:321-340 | The sweep takes a user away exactly when its record is disconnected for long enough, and touches nobody else |
| `AtRest.AgreementAtRestIff` | internal/gateway/handler.go:229-255 | In every run without losses of a user of one Gateway, timeout sweeps included, with that Gateway's queues empty: local rooms and the Roomserver's online members agree about the user if and only if the last granted answer found it connected; otherwise the Roomserver has it online and the Gateway nowhere |
| `AtRest.ClosedWhilePending` | internal/gateway/connection.go:226-231 | The failing run: connect, join, close, grant, answer; all queues are empty and the Roomserver has the user online for a Gateway without it |
| `DegradedMode.StepConserves` | internal/gateway/server.go:266-279 | Each of status check, append, direct send, swap and send of a drain keeps: ever issued = sent + in drains + parked |
| `DegradedMode.RunConserves` | internal/gateway/handler.go:67-75 | Conservation of requests over every interleaving with any number of drains |
| `DegradedMode.StepWillDrainIff` | internal/gateway/server.go:429-440 | A parked request always has a drain to come if and only if no handler appends after recovery and swap |
| `DegradedMode.RunWillDrain` | internal/gateway/server.go:254-279 | Without such late appends, a Gateway back to normal with its drains done has sent everything ever issued |
| `DegradedMode.LateAppendIsReachable` | internal/gateway/handler.go:67-75 | A run in which a request checked while degraded is appended after the drain and stays parked |
| `DegradedMode.DecidesOnlyDegraded` | internal/gateway/handler.go:67-75 | A handler decides to park if and only if it checks a leave or disconnect while the status is degraded |
| `DegradedMode.NeverDegradedParksNothing` | internal/gateway/server.go:429-444 | In every run that never degrades nothing is parked and everything issued has been sent |
| `DegradedMode.StepKeepsOrderIff` | internal/gateway/server.go:266-285 | Over the interleaved steps, with several drains and direct sends between: a user's requests stay in the order of issue if and only if the step is no direct send while something of the user waits, no send of a drain while an earlier drain has something of the user, and no leave sent before an older disconnect of the same drain |
| `DegradedMode.RunKeepsOrder` | internal/gateway/server.go:254-285 | In every interleaving in which nothing overtakes, a user's requests are sent in the order of issue |
| `DegradedMode.LeaveMatches` | internal/gateway/handler.go:67-75 | The Gateway's degraded leave is a status check and an append |
| `DegradedMode.DisconnectMatches` | internal/gateway/server.go:429-440 | The Gateway's degraded disconnect is a status check and an append |
| `DegradedMode.DrainMatches` | internal/gateway/server.go:266-279 | A drain that nothing disturbs sends exactly what the Gateway has parked, leaves first, and leaves nothing parked |
| `RequestOrder.StepKeepsOrderIff` | internal/gateway/server.go:266-285 | With room in the queue, an event's requests come last among their user's if and only if they overtake nothing: no different parked request for one sent at once, no parked disconnect for a parked leave |
| `RequestOrder.CloseInOrderIff` | internal/gateway/server.go:429-445 | A reported disconnect comes last among its user's requests if it is parked, or if nothing different of the user is parked |
| `RequestOrder.NextInOrderIff` | internal/gateway/roomserver_client.go:178-269 | Taking a request from the queue keeps each user's order of issue; an event does exactly when it overtakes nothing |
| `RequestOrder.RunKeepsOrder` | internal/gateway/roomserver_client.go:178-269 | In every run of whole handlers, with room in the queue, in which nothing overtakes, a user's requests taken, queued and parked are in the order of issue |
| `RequestOrder.ResumeOvertakesDisconnect` | internal/gateway/handler.go:104-108 | From any degraded state with a Confirmed user: reconnect, resume, recovery and drain queue the resume before the old connection's disconnect |
| `RequestOrder.ResumedThenDisconnected` | internal/roomserver/server.go:201-241 | In that order the resume is answered with success and the user ends disconnected |
| `Scenarios.ResumedUserIsGone` | internal/gateway/handler.go:104-108 | The whole run from the start of the system: it ends with a connection Confirmed in its room and the user's session disconnected |

## Left out

- WebSocket, gRPC, HTTP and Kafka transport, service discovery, authentication, configuration, logging and metrics: input and output around the modelled state.
- msgpack and JSON encoding: messages are typed values and frame payloads opaque bytes.
- The arithmetic of CRC-32 and FNV-1a: only determinism, and distinctness where stated, matter.
- The registry of Gateway streams on the Roomserver: a set of connected Gateways is an argument where it is read.
- The recovery counter and the exit from recovery mode: a small counter that does not touch rooms or sessions.
- The epoch comparison that triggers a resync: resync is modelled from the moment it starts.
- Business requests, unicast and platform broadcast on the Gateway: they read the modelled maps and change none.
- Responses to clients in `Gateway.dfy`: they go through `Connection.Send`, which `Connection.dfy` models on its own.
- Peer forwarding and the unused Gateway connection type of the Roomserver.
- In-place update of room, member, session and connection objects: they are values in map fields, so aliasing of a `*Session` read before a concurrent update is not captured.
- A write that times out after part of its bytes went out: a write is read whole or not at all.
- EndToEnd.CrashInRunRecovers: leaves users with requests waiting on another Gateway than their own to `RecoveredIff`, because for them the outcome depends on the interleaving of the two queues; clients that queue requests during the recovery are the subject of `RecoveryWhileClientsAct`.
- AtRest.AgreementAtRestIff: says nothing about users that connect to several Gateways, or about runs with losses, room closes, crashes or degraded mode, because each of these can leave the two machines apart by itself.
- Lock contention and deadlock: see the modelling decisions.
- Ids.Range: the order is arbitrary but fixed per call; a map changed during its iteration is not modelled.
- DegradedMode.RunConserves: counts a request as sent when it reaches the sender, whose full queue may still drop it.
- RequestOrder.RunKeepsOrder: takes a drain as one step; the sends of a drain beside other handlers are the subject of `DegradedMode.RunKeepsOrder`.
- EndToEnd.RecoveryWhileClientsAct: compares rooms, not statuses: a user that disconnects during the recovery is a member on both sides of the condition.
