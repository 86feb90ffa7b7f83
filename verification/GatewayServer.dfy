/**
 * The Gateway's server object.  Its methods perform the handlers step by step;
 * each is proved to do what the specification of the handler says and to keep
 * the invariants that need no client discipline.
 */
module GatewayService {
  import opened Ids
  import opened Gateway
  import opened GatewayRuns

  class GatewayServer {
    const id: GatewayId
    var conns: map<ConnId, Conn>
    var connections: map<UserId, ConnId>
    var localUsers: set<UserId>
    var shards: seq<map<UserId, ConnId>>
    var localRooms: LocalRooms
    var degraded: bool
    var pendingLeaves: seq<UserRoomPair>
    var pendingDisconnects: seq<UserRoomPair>
    var out: seq<Request>

    ghost function Contents(): Gw
      reads this
    {
      Gw(id, conns, connections, localUsers, shards, localRooms, degraded, pendingLeaves, pendingDisconnects, out)
    }

    /** The open connections are exactly the registered ones, and no local room is empty. */
    ghost predicate Valid()
      reads this
    {
      Wired(Contents()) && NoEmptyGroup(localRooms)
    }

    constructor (id: GatewayId, shardCount: nat)
      ensures Valid()
      ensures Contents() == Gw(id, map[], map[], {}, seq(shardCount, _ => map[]), map[], false, [], [], [])
    {
      this.id := id;
      conns, connections, localUsers := map[], map[], {};
      shards := seq(shardCount, _ => map[]);
      localRooms, degraded, pendingLeaves, pendingDisconnects, out := map[], false, [], [], [];
    }

    method SendRequest(m: Request)
      modifies `out
      ensures Contents() == Send(old(Contents()), m)
    {
      if |out| < QUEUE_CAPACITY {
        out := out + [m];
      }
    }

    method SetJoinState(c: ConnId, state: JoinState, r: RoomId)
      requires c in conns
      modifies `conns
      ensures Contents() == SetJoin(old(Contents()), c, state, r)
    {
      var conn := conns[c];
      conn := conn.(joinState := state);
      conn := conn.(roomId := r);
      conns := conns[c := conn];
    }

    method Unregister(u: UserId)
      requires u in connections ==> connections[u] in conns
      modifies `connections, `shards, `localUsers
      ensures Contents() == RemoveConnection(old(Contents()), u)
    {
      if u in connections {
        var conn := conns[connections[u]];
        if conn.shard.Some? && conn.shard.value < |shards| {
          shards := shards[conn.shard.value := shards[conn.shard.value] - {u}];
        }
        connections := connections - {u};
      }
      localUsers := localUsers - {u};
    }

    method ReportDisconnect(u: UserId, r: RoomId)
      modifies `out, `pendingDisconnects
      ensures Contents() == NotifyDisconnect(old(Contents()), u, r)
    {
      if degraded {
        pendingDisconnects := pendingDisconnects + [UserRoomPair(u, r)];
        return;
      }
      SendRequest(DisconnectReq(u, r, id));
    }

    method CloseConnection(c: ConnId)
      requires Valid() && c in conns
      modifies this
      ensures Valid()
      ensures Contents() == CloseConn(old(Contents()), c)
    {
      CloseKeepsWired(Contents(), c);
      CloseKeepsNoEmptyRoom(Contents(), c);
      var conn := conns[c];
      if !conn.open { return; }
      conns := conns[c := conn.(open := false)];
      Unregister(conn.userId);
      if conn.roomId != NO_ROOM && conn.joinState == Confirmed {
        localRooms := DropFromGroup(localRooms, conn.roomId, conn.userId);
        ReportDisconnect(conn.userId, conn.roomId);
      }
    }

    /** Puts the connection in its user's distributor and local user index; an index out of range panics. */
    method AssignDistributor(c: ConnId, u: UserId) returns (panicked: bool)
      requires c in conns
      modifies `shards, `conns, `localUsers
      ensures panicked <==> !HasShard(u, |old(shards)|)
      ensures Contents() == Assign(old(Contents()), c, u)
    {
      var h := ComputeHashUserId(u);
      if |shards| == 0 || Remainder(h, |shards|) < 0 { return true; }
      var i := Remainder(h, |shards|);
      shards := shards[i := shards[i][u := c]];
      conns := conns[c := conns[c].(shard := Some(i))];
      localUsers := localUsers + {u};
      panicked := false;
    }

    /** A panic comes after the connection is registered and before it is indexed. */
    method RegisterConnection(c: ConnId, u: UserId) returns (panicked: bool)
      requires Valid() && c !in conns
      modifies this
      ensures Valid()
      ensures panicked <==> !HasShard(u, |old(shards)|)
      ensures Contents() == AddConnection(old(Contents()), c, u)
    {
      ConnectKeepsWired(Contents(), c, u);
      ConnectKeepsNoEmptyRoom(Contents(), c, u);
      if u in connections {
        CloseKeepsShardCount(Contents(), connections[u]);
        CloseConnection(connections[u]);
      }
      ghost var s1 := Contents();
      conns := conns[c := Conn(u, Init, NO_ROOM, true, None)];
      connections := connections[u := c];
      assert Contents() == Register(s1, c, u);
      panicked := AssignDistributor(c, u);
    }

    method HandleJoinRoom(c: ConnId, r: RoomId) returns (rejected: bool)
      requires Valid() && c in conns
      modifies this
      ensures Valid()
      ensures rejected <==> old(degraded)
      ensures Contents() == HandleJoin(old(Contents()), c, r)
    {
      StepKeepsInvariants(Contents(), ClientJoin(c, r));
      if degraded { return true; }
      SetJoinState(c, Pending, r);
      SendRequest(JoinReq(conns[c].userId, r, id));
      rejected := false;
    }

    method HandleLeaveRoom(c: ConnId, r: RoomId)
      requires Valid() && c in conns
      modifies this
      ensures Valid()
      ensures Contents() == HandleLeave(old(Contents()), c, r)
    {
      StepKeepsInvariants(Contents(), ClientLeave(c, r));
      var u := conns[c].userId;
      localRooms := DropFromGroup(localRooms, r, u);
      SetJoinState(c, Init, NO_ROOM);
      if degraded {
        pendingLeaves := pendingLeaves + [UserRoomPair(u, r)];
        return;
      }
      SendRequest(LeaveReq(u, r));
    }

    method HandleResumeRequest(c: ConnId, r: RoomId)
      requires Valid() && c in conns
      modifies this
      ensures Valid()
      ensures Contents() == HandleResume(old(Contents()), c, r)
    {
      StepKeepsInvariants(Contents(), ClientResume(c, r));
      SetJoinState(c, Pending, r);
      SendRequest(ResumeReq(conns[c].userId, r, id));
    }

    /** Scans the local rooms in map order for one that has the user. */
    method FindLocalRoom(u: UserId) returns (found: RoomId)
      ensures MayFind(Contents(), u, found)
    {
      var roomIds := Range(localRooms.Keys);
      found := NO_ROOM;
      for i := 0 to |roomIds|
        invariant found == NO_ROOM
        invariant forall k :: 0 <= k < i ==> u !in localRooms[roomIds[k]]
      {
        assert roomIds[i] in localRooms.Keys;
        if u in localRooms[roomIds[i]] {
          return roomIds[i];
        }
      }
      forall r ensures !InGroup(localRooms, r, u) {
        assert r in localRooms.Keys <==> r in roomIds;
      }
    }

    method HandleHeartbeatRequest(c: ConnId, r: RoomId) returns (found: RoomId)
      requires Valid() && c in conns
      modifies this
      ensures Valid()
      ensures r != NO_ROOM ==> MayFind(old(Contents()), old(conns[c].userId), found)
      ensures Contents() == HandleHeartbeat(old(Contents()), c, r, found)
    {
      found := NO_ROOM;
      if r != NO_ROOM {
        var u := conns[c].userId;
        found := FindLocalRoom(u);
        StepKeepsInvariants(Contents(), ClientHeartbeat(c, r, found));
        if found == NO_ROOM {
          SetJoinState(c, Pending, r);
          SendRequest(JoinReq(u, r, id));
        } else if found != r {
          SendRequest(LeaveReq(u, found));
          SetJoinState(c, Pending, r);
          SendRequest(JoinReq(u, r, id));
        }
      }
    }

    method OnJoinRoomAck(u: UserId, r: RoomId, success: bool)
      requires Valid()
      modifies this
      ensures Valid()
      ensures Contents() == OnJoinAck(old(Contents()), u, r, success)
    {
      StepKeepsInvariants(Contents(), JoinAcked(u, r, success));
      if u !in connections { return; }
      var c := connections[u];
      if success {
        SetJoinState(c, Confirmed, r);
        localRooms := AddToGroup(localRooms, r, u);
      } else {
        SetJoinState(c, Init, NO_ROOM);
      }
    }

    method OnLeaveRoomAck(u: UserId, r: RoomId)
      requires Valid()
      modifies this
      ensures Valid()
      ensures Contents() == OnLeaveAck(old(Contents()), u, r)
    {
      StepKeepsInvariants(Contents(), LeaveAcked(u, r));
      localRooms := DropFromGroup(localRooms, r, u);
      if u in connections {
        SetJoinState(connections[u], Init, NO_ROOM);
      }
    }

    /** Returns the registered connections of the listed users to Init. */
    method ResetConnections(users: seq<UserId>)
      requires forall u :: u in connections ==> connections[u] in conns
      modifies `conns
      ensures conns == ResetConns(old(conns), set u | u in users && u in connections :: connections[u])
    {
      ghost var reset: set<ConnId> := {};
      assert ResetConns(conns, {}) == conns;
      for i := 0 to |users|
        invariant reset == set u | u in users[..i] && u in connections :: connections[u]
        invariant conns == ResetConns(old(conns), reset)
      {
        assert users[..i + 1] == users[..i] + [users[i]];
        if users[i] in connections {
          reset := reset + {connections[users[i]]};
          SetJoinState(connections[users[i]], Init, NO_ROOM);
        }
      }
      assert users[..|users|] == users;
    }

    method HandleRoomClose(r: RoomId)
      requires Valid()
      modifies this
      ensures Valid()
      ensures Contents() == OnRoomClose(old(Contents()), r)
    {
      RoomCloseKeepsConnections(Contents(), r);
      SameConnectionsWired(Contents(), OnRoomClose(Contents(), r));
      if r !in localRooms { return; }
      var users := Range(localRooms[r]);
      localRooms := localRooms - {r};
      ResetConnections(users);
      assert (set u | u in users && u in connections :: connections[u])
          == set u | u in old(localRooms)[r] && u in connections :: connections[u];
    }

    method SetDegraded()
      requires Valid()
      modifies `degraded
      ensures Valid()
      ensures degraded
    {
      if !degraded { degraded := true; }
    }

    /** Leaving degraded mode starts a drain, once per recovery. */
    method SetNormal() returns (drainStarted: bool)
      requires Valid()
      modifies `degraded
      ensures Valid()
      ensures !degraded && (drainStarted <==> old(degraded))
    {
      drainStarted := degraded;
      if degraded { degraded := false; }
    }

    method SendLeaves(pairs: seq<UserRoomPair>)
      modifies `out
      ensures Contents() == SendAll(old(Contents()), LeaveRequests(pairs))
    {
      ghost var all := LeaveRequests(pairs);
      for i := 0 to |pairs|
        invariant Contents() == SendAll(old(Contents()), all[..i])
      {
        SendAllSnoc(old(Contents()), all, i);
        SendRequest(LeaveReq(pairs[i].userId, pairs[i].roomId));
      }
      assert all[..|pairs|] == all;
    }

    method SendDisconnects(pairs: seq<UserRoomPair>)
      modifies `out
      ensures Contents() == SendAll(old(Contents()), DisconnectRequests(pairs, id))
    {
      ghost var all := DisconnectRequests(pairs, id);
      for i := 0 to |pairs|
        invariant Contents() == SendAll(old(Contents()), all[..i])
      {
        SendAllSnoc(old(Contents()), all, i);
        SendRequest(DisconnectReq(pairs[i].userId, pairs[i].roomId, id));
      }
      assert all[..|pairs|] == all;
    }

    /** The requests parked while degraded go to the Roomserver, leaves first. */
    method ProcessPendingRequests()
      requires Valid()
      modifies `pendingLeaves, `pendingDisconnects, `out
      ensures Valid()
      ensures Contents() == Drain(old(Contents()))
    {
      DrainOnlySends(Contents());
      SameRegistrationsWired(Contents(), Drain(Contents()));
      var leaves, disconnects := pendingLeaves, pendingDisconnects;
      pendingLeaves, pendingDisconnects := [], [];
      SendAllConcat(Contents(), LeaveRequests(leaves), DisconnectRequests(disconnects, id));
      SendLeaves(leaves);
      SendDisconnects(disconnects);
    }

    /** A room broadcast: the registered connections of the local users of the room. */
    method RoomBroadcast(r: RoomId) returns (visited: seq<ConnId>)
      requires Valid()
      ensures NoRepeats(visited)
      ensures forall c :: c in visited <==>
        Registered(Contents(), c) && InGroup(localRooms, r, conns[c].userId)
      ensures ConfirmedLocal(Contents()) ==>
        forall c :: Registered(Contents(), c) && conns[c].joinState == Confirmed && conns[c].roomId == r ==> c in visited
    {
      visited := [];
      if r !in localRooms { return; }
      var users := Range(localRooms[r]);
      for i := 0 to |users|
        invariant forall c :: c in visited <==>
          Registered(Contents(), c) && conns[c].userId in users[..i]
        invariant NoRepeats(visited)
      {
        assert users[i] !in users[..i];
        assert users[..i + 1] == users[..i] + [users[i]];
        if users[i] in connections {
          visited := visited + [connections[users[i]]];
        }
      }
      assert users[..|users|] == users;
    }
  }
}
