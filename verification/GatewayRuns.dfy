/** What every run of a Gateway keeps: registrations, connection indexes, and confirmed connections in the local rooms. */
module GatewayRuns {
  import opened Ids
  import opened Gateway

  datatype Event =
    | Connect(c: ConnId, u: UserId)
    | Close(c: ConnId)
    | ClientJoin(c: ConnId, r: RoomId)
    | ClientLeave(c: ConnId, r: RoomId)
    | ClientResume(c: ConnId, r: RoomId)
    | ClientHeartbeat(c: ConnId, r: RoomId, found: RoomId)
    | JoinAcked(u: UserId, r: RoomId, success: bool)
    | LeaveAcked(u: UserId, r: RoomId)
    | RoomClosed(r: RoomId)
    | Degrade
    | Recover
    | DrainParked
    | Resend(users: seq<UserRoomPair>)

  predicate IsClient(e: Event) {
    e.ClientJoin? || e.ClientLeave? || e.ClientResume? || e.ClientHeartbeat?
  }

  /** A client's message, on any connection there has been, one already closed included. */
  ghost function ClientStep(s: Gw, e: Event): Gw
    requires IsClient(e)
  {
    if e.c !in s.conns then s
    else
      match e
      case ClientJoin(c, r) => HandleJoin(s, c, r)
      case ClientLeave(c, r) => HandleLeave(s, c, r)
      case ClientResume(c, r) => HandleResume(s, c, r)
      case ClientHeartbeat(c, r, found) =>
        if MayFind(s, s.conns[c].userId, found) then HandleHeartbeat(s, c, r, found) else s
  }

  /** Connection IDs are never reused. */
  ghost function Step(s: Gw, e: Event): Gw {
    if IsClient(e) then ClientStep(s, e)
    else
      match e
      case Connect(c, u) => if c in s.conns then s else AddConnection(s, c, u)
      case Close(c) => CloseConn(s, c)
      case JoinAcked(u, r, success) => OnJoinAck(s, u, r, success)
      case LeaveAcked(u, r) => OnLeaveAck(s, u, r)
      case RoomClosed(r) => OnRoomClose(s, r)
      case Degrade => s.(degraded := true)
      case Recover => s.(degraded := false)
      case DrainParked => Drain(s)
      case Resend(users) => Send(s, BatchReq(s.id, users))
  }

  function Start(id: GatewayId, shardCount: nat): Gw {
    Gw(id, map[], map[], {}, seq(shardCount, _ => map[]), map[], false, [], [], [])
  }

  ghost function Run(s: Gw, es: seq<Event>): Gw
    decreases |es|
  {
    if es == [] then s else Step(Run(s, es[..|es| - 1]), es[|es| - 1])
  }

  lemma {:induction false} SendAllOnlySends(s: Gw, ms: seq<Request>)
    ensures SendAll(s, ms) == s.(out := SendAll(s, ms).out)
    decreases |ms|
  {
    if ms != [] { SendAllOnlySends(s, ms[..|ms| - 1]); }
  }

  // ---------------------------------------------------------------- registrations

  predicate Registered(s: Gw, c: ConnId) {
    c in s.conns && s.conns[c].userId in s.connections && s.connections[s.conns[c].userId] == c
  }

  /** The open connections are exactly the registered ones, so each user has at most one. */
  ghost predicate Wired(s: Gw) {
    && (forall u :: u in s.connections ==> s.connections[u] in s.conns && s.conns[s.connections[u]].userId == u)
    && (forall c :: c in s.conns ==> (s.conns[c].open <==> Registered(s, c)))
  }

  lemma CloseKeepsWired(s: Gw, c: ConnId)
    requires Wired(s)
    ensures Wired(CloseConn(s, c))
  {
  }

  /** A connect first closes the user's registered connection. */
  lemma ReplacedIsGone(s: Gw, c: ConnId, u: UserId)
    requires Wired(s) && c !in s.conns
    ensures var s1 := if u in s.connections then CloseConn(s, s.connections[u]) else s;
            u !in s1.connections && c !in s1.conns
  {
  }

  lemma ConnectKeepsWired(s: Gw, c: ConnId, u: UserId)
    requires Wired(s) && c !in s.conns
    ensures Wired(AddConnection(s, c, u))
  {
    var s1 := if u in s.connections then CloseConn(s, s.connections[u]) else s;
    if u in s.connections { CloseKeepsWired(s, s.connections[u]); }
    var s' := AddConnection(s, c, u);
    ReplacedIsGone(s, c, u);
    forall d | d in s'.conns ensures s'.conns[d].open <==> Registered(s', d) {
      if d != c { assert s1.conns[d].open <==> Registered(s1, d); }
    }
  }

  /** Nothing about who is connected has changed; join states and rooms may have. */
  ghost predicate SameConnections(s: Gw, s': Gw) {
    && s'.connections == s.connections && s'.localUsers == s.localUsers && s'.shards == s.shards
    && s'.conns.Keys == s.conns.Keys
    && forall c :: c in s.conns ==>
         s'.conns[c] == s.conns[c].(joinState := s'.conns[c].joinState, roomId := s'.conns[c].roomId)
  }

  lemma SetJoinKeepsConnections(s: Gw, c: ConnId, state: JoinState, r: RoomId)
    requires c in s.conns
    ensures SameConnections(s, SetJoin(s, c, state, r))
  {
  }

  lemma LeaveKeepsConnections(s: Gw, c: ConnId, r: RoomId)
    requires c in s.conns
    ensures SameConnections(s, HandleLeave(s, c, r))
  {
  }

  lemma HeartbeatKeepsConnections(s: Gw, c: ConnId, r: RoomId, found: RoomId)
    requires c in s.conns
    ensures SameConnections(s, HandleHeartbeat(s, c, r, found))
  {
    var u := s.conns[c].userId;
    var left := if found == NO_ROOM then s else Send(s, LeaveReq(u, found));
    SetJoinKeepsConnections(left, c, Pending, r);
    SendKeepsConnections(s, SetJoin(left, c, Pending, r), JoinReq(u, r, s.id));
  }

  lemma SendKeepsConnections(s: Gw, s': Gw, m: Request)
    requires SameConnections(s, s')
    ensures SameConnections(s, Send(s', m))
  {
  }

  lemma ClientKeepsConnections(s: Gw, e: Event)
    requires IsClient(e)
    ensures SameConnections(s, ClientStep(s, e))
  {
    if e.c in s.conns {
      match e
      case ClientJoin(c, r) => SetJoinKeepsConnections(s, c, Pending, r);
      case ClientLeave(c, r) => LeaveKeepsConnections(s, c, r);
      case ClientResume(c, r) => SetJoinKeepsConnections(s, c, Pending, r);
      case ClientHeartbeat(c, r, found) => HeartbeatKeepsConnections(s, c, r, found);
    }
  }

  lemma AckKeepsConnections(s: Gw, u: UserId, r: RoomId, success: bool)
    ensures SameConnections(s, OnJoinAck(s, u, r, success)) && SameConnections(s, OnLeaveAck(s, u, r))
  {
    if u in s.connections && s.connections[u] in s.conns {
      var c := s.connections[u];
      SetJoinKeepsConnections(s, c, Confirmed, r);
      SetJoinKeepsConnections(s, c, Init, NO_ROOM);
      SetJoinKeepsConnections(s.(localRooms := GroupDrop(s.localRooms, r, u)), c, Init, NO_ROOM);
    }
  }

  lemma RoomCloseKeepsConnections(s: Gw, r: RoomId)
    ensures SameConnections(s, OnRoomClose(s, r))
  {
  }

  lemma DrainOnlySends(s: Gw)
    ensures Drain(s) == s.(pendingLeaves := [], pendingDisconnects := [], out := Drain(s).out)
  {
    SendAllOnlySends(s.(pendingLeaves := [], pendingDisconnects := []), Parked(s));
  }

  /** Only connects and closes change who is connected. */
  lemma StepKeepsConnections(s: Gw, e: Event)
    requires !e.Connect? && !e.Close?
    ensures SameConnections(s, Step(s, e))
  {
    if IsClient(e) {
      ClientKeepsConnections(s, e);
    } else {
      match e
      case JoinAcked(u, r, success) => AckKeepsConnections(s, u, r, success);
      case LeaveAcked(u, r) => AckKeepsConnections(s, u, r, true);
      case RoomClosed(r) => RoomCloseKeepsConnections(s, r);
      case DrainParked => DrainOnlySends(s);
      case _ =>
    }
  }

  lemma SameConnectionsWired(s: Gw, s': Gw)
    requires Wired(s) && SameConnections(s, s')
    ensures Wired(s')
  {
  }

  lemma SameRegistrationsWired(s: Gw, s': Gw)
    requires Wired(s) && s'.conns == s.conns && s'.connections == s.connections
    ensures Wired(s')
  {
  }

  lemma StepKeepsWired(s: Gw, e: Event)
    requires Wired(s)
    ensures Wired(Step(s, e))
  {
    match e
    case Connect(c, u) => if c !in s.conns { ConnectKeepsWired(s, c, u); }
    case Close(c) => CloseKeepsWired(s, c);
    case _ =>
      StepKeepsConnections(s, e);
      SameConnectionsWired(s, Step(s, e));
  }

  lemma {:induction false} RunKeepsWired(id: GatewayId, n: nat, es: seq<Event>)
    ensures Wired(Run(Start(id, n), es))
    decreases |es|
  {
    if es != [] {
      RunKeepsWired(id, n, es[..|es| - 1]);
      StepKeepsWired(Run(Start(id, n), es[..|es| - 1]), es[|es| - 1]);
    }
  }

  /** No step leaves an empty local room behind. */
  lemma StepKeepsNoEmptyRoom(s: Gw, e: Event)
    requires NoEmptyGroup(s.localRooms)
    ensures NoEmptyGroup(Step(s, e).localRooms)
  {
    match e
    case Connect(c, u) => if c !in s.conns { ConnectKeepsNoEmptyRoom(s, c, u); }
    case Close(c) => CloseKeepsNoEmptyRoom(s, c);
    case JoinAcked(u, r, success) =>
    case LeaveAcked(u, r) =>
    case RoomClosed(r) =>
    case ClientLeave(c, r) =>
    case _ => QuietStep(s, e);
  }

  lemma CloseKeepsNoEmptyRoom(s: Gw, c: ConnId)
    requires NoEmptyGroup(s.localRooms)
    ensures NoEmptyGroup(CloseConn(s, c).localRooms)
  {
  }

  lemma ConnectKeepsNoEmptyRoom(s: Gw, c: ConnId, u: UserId)
    requires NoEmptyGroup(s.localRooms)
    ensures NoEmptyGroup(AddConnection(s, c, u).localRooms)
  {
    if u in s.connections { CloseKeepsNoEmptyRoom(s, s.connections[u]); }
  }

  /** The queue to the Roomserver holds at most 10000 requests; what does not fit is dropped, and only that. */
  lemma SendDropsIff(s: Gw, m: Request)
    ensures Send(s, m).out == if |s.out| < 10000 then s.out + [m] else s.out
  {
  }

  lemma {:induction false} SendAllFitsQueue(s: Gw, ms: seq<Request>)
    requires |s.out| <= 10000
    ensures |SendAll(s, ms).out| <= 10000
    decreases |ms|
  {
    if ms != [] { SendAllFitsQueue(s, ms[..|ms| - 1]); }
  }

  lemma CloseFitsQueue(s: Gw, c: ConnId)
    requires |s.out| <= 10000
    ensures |CloseConn(s, c).out| <= 10000
  {
  }

  lemma ClientFitsQueue(s: Gw, e: Event)
    requires |s.out| <= 10000 && IsClient(e)
    ensures |ClientStep(s, e).out| <= 10000
  {
  }

  lemma StepFitsQueue(s: Gw, e: Event)
    requires |s.out| <= 10000
    ensures |Step(s, e).out| <= 10000
  {
    if IsClient(e) {
      ClientFitsQueue(s, e);
    } else {
      match e
      case Connect(c, u) => if c !in s.conns && u in s.connections { CloseFitsQueue(s, s.connections[u]); }
      case Close(c) => CloseFitsQueue(s, c);
      case DrainParked => SendAllFitsQueue(s.(pendingLeaves := [], pendingDisconnects := []), Parked(s));
      case _ =>
    }
  }

  /** The invariants that hold without any client discipline. */
  lemma StepKeepsInvariants(s: Gw, e: Event)
    requires Wired(s) && NoEmptyGroup(s.localRooms)
    ensures Wired(Step(s, e)) && NoEmptyGroup(Step(s, e).localRooms)
  {
    StepKeepsWired(s, e);
    StepKeepsNoEmptyRoom(s, e);
  }

  /** In every run, closing an open connection unregisters that connection and no other. */
  lemma CloseEvictsOnlyItself(id: GatewayId, n: nat, es: seq<Event>, c: ConnId, d: ConnId)
    requires c in Run(Start(id, n), es).conns && Run(Start(id, n), es).conns[c].open && c != d
    ensures Registered(Run(Start(id, n), es), c) && !Registered(CloseConn(Run(Start(id, n), es), c), c)
    ensures Registered(Run(Start(id, n), es), d) ==> Registered(CloseConn(Run(Start(id, n), es), c), d)
  {
    RunKeepsWired(id, n, es);
  }

  // ---------------------------------------------------------------- connection indexes

  /** A registered connection is in the local user index and in its hash shard's distributor, and nothing else is. */
  ghost predicate Indexed(s: Gw) {
    && (forall u :: u in s.connections <==> u in s.localUsers)
    && (forall u :: u in s.connections ==>
          HasShard(u, |s.shards|) && s.connections[u] in s.conns
          && s.conns[s.connections[u]].shard == Some(ShardIndex(u, |s.shards|)))
    && (forall i, u :: 0 <= i < |s.shards| ==>
          (u in s.shards[i] <==> u in s.connections && i == ShardIndex(u, |s.shards|)))
    && (forall i, u :: 0 <= i < |s.shards| && u in s.shards[i] ==> s.shards[i][u] == s.connections[u])
  }

  lemma CloseKeepsIndexed(s: Gw, c: ConnId)
    requires Wired(s) && Indexed(s)
    ensures Indexed(CloseConn(s, c)) && |CloseConn(s, c).shards| == |s.shards|
  {
    if c in s.conns && s.conns[c].open {
      assert Registered(s, c);
      var conn := s.conns[c];
      var s1 := s.(conns := s.conns[c := conn.(open := false)]);
      SameIndexes(s, s1);
      forall v | v in s.connections && s.connections[v] == c ensures v == conn.userId {}
      UnregisterKeepsIndexed(s1, conn.userId);
      CloseUnregisters(s, c);
      SameIndexes(RemoveConnection(s1, conn.userId), CloseConn(s, c));
    }
  }

  lemma CloseUnregisters(s: Gw, c: ConnId)
    requires c in s.conns && s.conns[c].open
    ensures var s', s1 := CloseConn(s, c),
        RemoveConnection(s.(conns := s.conns[c := s.conns[c].(open := false)]), s.conns[c].userId);
      s'.connections == s1.connections && s'.localUsers == s1.localUsers && s'.shards == s1.shards && s'.conns == s1.conns
  {
  }

  lemma SameIndexes(s: Gw, s': Gw)
    requires Indexed(s)
    requires s'.connections == s.connections && s'.localUsers == s.localUsers && s'.shards == s.shards
    requires forall c :: c in s.conns ==> c in s'.conns && s'.conns[c].shard == s.conns[c].shard
    ensures Indexed(s')
  {
  }

  lemma UnregisterKeepsIndexed(s: Gw, u: UserId)
    requires Indexed(s) && u in s.connections
    requires forall v :: v in s.connections && s.connections[v] == s.connections[u] ==> v == u
    ensures Indexed(RemoveConnection(s, u)) && |RemoveConnection(s, u).shards| == |s.shards|
  {
    var i, s' := ShardIndex(u, |s.shards|), RemoveConnection(s, u);
    assert s'.shards == s.shards[i := s.shards[i] - {u}];
  }

  lemma ConnectKeepsIndexedIff(s: Gw, c: ConnId, u: UserId)
    requires Wired(s) && Indexed(s) && c !in s.conns
    ensures Indexed(AddConnection(s, c, u)) <==> HasShard(u, |s.shards|)
  {
    var s1 := if u in s.connections then CloseConn(s, s.connections[u]) else s;
    ReplacedIsGone(s, c, u);
    if u in s.connections {
      CloseKeepsIndexed(s, s.connections[u]);
    }
    AssignIndexesIff(s1, c, u);
  }

  lemma AssignIndexesIff(s: Gw, c: ConnId, u: UserId)
    requires Indexed(s) && c !in s.conns && u !in s.connections
    ensures Indexed(Assign(Register(s, c, u), c, u)) <==> HasShard(u, |s.shards|)
  {
  }

  /** The indexes agree after a step exactly when it is not a connect whose distributor index is out of range. */
  lemma StepKeepsIndexedIff(s: Gw, e: Event)
    requires Wired(s) && Indexed(s)
    ensures Indexed(Step(s, e)) <==> !(e.Connect? && e.c !in s.conns && !HasShard(e.u, |s.shards|))
  {
    match e
    case Connect(c, u) => if c !in s.conns { ConnectKeepsIndexedIff(s, c, u); }
    case Close(c) => CloseKeepsIndexed(s, c);
    case _ =>
      StepKeepsConnections(s, e);
      SameIndexes(s, Step(s, e));
  }

  /** In every run whose users all have a distributor, the indexes agree. */
  lemma {:induction false} RunKeepsIndexed(id: GatewayId, n: nat, es: seq<Event>)
    requires forall i :: 0 <= i < |es| && es[i].Connect? ==> HasShard(es[i].u, n)
    ensures Indexed(Run(Start(id, n), es)) && |Run(Start(id, n), es).shards| == n
    decreases |es|
  {
    if es != [] {
      var front, e := es[..|es| - 1], es[|es| - 1];
      RunKeepsIndexed(id, n, front);
      RunKeepsWired(id, n, front);
      StepKeepsIndexedIff(Run(Start(id, n), front), e);
      StepKeepsShardCount(Run(Start(id, n), front), e);
    }
  }

  lemma StepKeepsShardCount(s: Gw, e: Event)
    ensures |Step(s, e).shards| == |s.shards|
  {
    match e
    case Connect(c, u) => if u in s.connections { CloseKeepsShardCount(s, s.connections[u]); }
    case Close(c) => CloseKeepsShardCount(s, c);
    case _ => StepKeepsConnections(s, e);
  }

  lemma CloseKeepsShardCount(s: Gw, c: ConnId)
    ensures |CloseConn(s, c).shards| == |s.shards|
  {
  }

  /** A user ID whose characters are the base-31 digits of 2^63. */
  const OVERFLOWING_USER: UserId := [
    11 as char, 22 as char, 0 as char, 3 as char, 18 as char, 9 as char, 5 as char,
    17 as char, 18 as char, 10 as char, 4 as char, 3 as char, 8 as char]

  lemma {:induction false} HashSumOfDigits(u: UserId, k: nat, digits: int)
    requires k < |u| && HashSum(u[..k]) == digits
    ensures HashSum(u[..k + 1]) == Wrap64(31 * digits + u[k] as int)
  {
    assert u[..k + 1][..k] == u[..k];
  }

  /** Such a user's hash is negative, and with the configured ten distributors it has none: connecting it panics. */
  lemma OverflowingUserHasNoShard()
    ensures HashSum(OVERFLOWING_USER) == MIN_INT64 && !HasShard(OVERFLOWING_USER, 10)
  {
    var u := OVERFLOWING_USER;
    assert HashSum(u[..0]) == 0;
    HashSumOfDigits(u, 0, 0);
    HashSumOfDigits(u, 1, 11);
    HashSumOfDigits(u, 2, 363);
    HashSumOfDigits(u, 3, 11253);
    HashSumOfDigits(u, 4, 348846);
    HashSumOfDigits(u, 5, 10814244);
    HashSumOfDigits(u, 6, 335241573);
    HashSumOfDigits(u, 7, 10392488768);
    HashSumOfDigits(u, 8, 322167151825);
    HashSumOfDigits(u, 9, 9987181706593);
    HashSumOfDigits(u, 10, 309602632904393);
    HashSumOfDigits(u, 11, 9597681620036187);
    HashSumOfDigits(u, 12, 297528130221121800);
    assert u[..13] == u;
    HasShardIff(u, 10);
  }

  // ---------------------------------------------------------------- confirmed connections

  /** A registered connection that is Confirmed in a room has its user in that local room; no local room is empty. */
  ghost predicate ConfirmedLocal(s: Gw) {
    && (forall c :: Registered(s, c) && s.conns[c].joinState == Confirmed ==>
          InGroup(s.localRooms, s.conns[c].roomId, s.conns[c].userId))
    && NoEmptyGroup(s.localRooms)
  }

  /** A leave handled on a connection that has been replaced, naming the room the new connection is Confirmed in. */
  predicate StaleLeave(s: Gw, e: Event) {
    && e.ClientLeave? && e.c in s.conns && !Registered(s, e.c)
    && var u := s.conns[e.c].userId;
       u in s.connections && s.connections[u] in s.conns
       && s.conns[s.connections[u]].joinState == Confirmed && s.conns[s.connections[u]].roomId == e.r
  }

  lemma CloseKeepsConfirmedLocal(s: Gw, c: ConnId)
    requires Wired(s) && ConfirmedLocal(s)
    ensures ConfirmedLocal(CloseConn(s, c))
  {
  }

  lemma ConnectKeepsConfirmedLocal(s: Gw, c: ConnId, u: UserId)
    requires Wired(s) && ConfirmedLocal(s) && c !in s.conns
    ensures ConfirmedLocal(AddConnection(s, c, u))
  {
    var s1 := if u in s.connections then CloseConn(s, s.connections[u]) else s;
    if u in s.connections { CloseKeepsConfirmedLocal(s, s.connections[u]); }
    var s' := AddConnection(s, c, u);
    forall d | Registered(s', d) && s'.conns[d].joinState == Confirmed
      ensures InGroup(s'.localRooms, s'.conns[d].roomId, s'.conns[d].userId)
    {
      assert d != c && Registered(s1, d);
    }
  }

  lemma LeaveKeepsConfirmedLocalIff(s: Gw, c: ConnId, r: RoomId)
    requires Wired(s) && ConfirmedLocal(s) && c in s.conns
    ensures ConfirmedLocal(HandleLeave(s, c, r)) <==> !StaleLeave(s, ClientLeave(c, r))
  {
    var u, s' := s.conns[c].userId, HandleLeave(s, c, r);
    GroupDropMembers(s.localRooms, r, u);
    if StaleLeave(s, ClientLeave(c, r)) {
      assert Registered(s', s.connections[u]) && !InGroup(s'.localRooms, r, u);
    } else {
      forall d | Registered(s', d) && s'.conns[d].joinState == Confirmed
        ensures InGroup(s'.localRooms, s'.conns[d].roomId, s'.conns[d].userId)
      {
        assert d != c && Registered(s, d);
      }
    }
  }

  lemma JoinAckKeepsConfirmedLocal(s: Gw, u: UserId, r: RoomId, success: bool)
    requires Wired(s) && ConfirmedLocal(s)
    ensures ConfirmedLocal(OnJoinAck(s, u, r, success))
  {
  }

  lemma LeaveAckKeepsConfirmedLocal(s: Gw, u: UserId, r: RoomId)
    requires Wired(s) && ConfirmedLocal(s)
    ensures ConfirmedLocal(OnLeaveAck(s, u, r))
  {
  }

  /** A step that confirms nobody and leaves the local rooms alone. */
  lemma QuietKeepsConfirmedLocal(s: Gw, s': Gw)
    requires ConfirmedLocal(s) && SameConnections(s, s') && s'.localRooms == s.localRooms
    requires forall c :: c in s.conns && s'.conns[c].joinState == Confirmed ==> s'.conns[c] == s.conns[c]
    ensures ConfirmedLocal(s')
  {
  }

  lemma RoomCloseKeepsConfirmedLocal(s: Gw, r: RoomId)
    requires Wired(s) && ConfirmedLocal(s)
    ensures ConfirmedLocal(OnRoomClose(s, r))
  {
  }

  /** Without any client discipline, only a stale leave separates a confirmed connection from its local room. */
  lemma StepKeepsConfirmedLocalIff(s: Gw, e: Event)
    requires Wired(s) && ConfirmedLocal(s)
    ensures ConfirmedLocal(Step(s, e)) <==> !StaleLeave(s, e)
  {
    match e
    case Connect(c, u) => if c !in s.conns { ConnectKeepsConfirmedLocal(s, c, u); }
    case Close(c) => CloseKeepsConfirmedLocal(s, c);
    case ClientLeave(c, r) => if c in s.conns { LeaveKeepsConfirmedLocalIff(s, c, r); }
    case JoinAcked(u, r, success) => JoinAckKeepsConfirmedLocal(s, u, r, success);
    case LeaveAcked(u, r) => LeaveAckKeepsConfirmedLocal(s, u, r);
    case RoomClosed(r) => RoomCloseKeepsConfirmedLocal(s, r);
    case _ =>
      StepKeepsConnections(s, e);
      QuietStep(s, e);
      QuietKeepsConfirmedLocal(s, Step(s, e));
  }

  predicate Quiet(e: Event) {
    e.ClientJoin? || e.ClientResume? || e.ClientHeartbeat? || e.Degrade? || e.Recover? || e.DrainParked?
    || e.Resend?
  }

  lemma QuietStep(s: Gw, e: Event)
    requires Quiet(e)
    ensures Step(s, e).localRooms == s.localRooms
    ensures forall c :: c in s.conns && c in Step(s, e).conns && Step(s, e).conns[c].joinState == Confirmed
              ==> Step(s, e).conns[c] == s.conns[c]
  {
    if IsClient(e) {
      QuietClient(s, e);
    } else if e.DrainParked? {
      DrainOnlySends(s);
    }
  }

  lemma QuietClient(s: Gw, e: Event)
    requires Quiet(e) && IsClient(e)
    ensures ClientStep(s, e) == s
         || (e.c in s.conns && ClientStep(s, e) == SetJoin(s, e.c, Pending, e.r).(out := ClientStep(s, e).out))
  {
  }

  /**
   * In every run without a stale leave, a confirmed connection is in its local
   * room, hence among the connections a broadcast to that room visits.
   */
  lemma {:induction false} RunKeepsConfirmedLocal(id: GatewayId, n: nat, es: seq<Event>)
    requires forall i :: 0 <= i < |es| ==> !StaleLeave(Run(Start(id, n), es[..i]), es[i])
    ensures ConfirmedLocal(Run(Start(id, n), es))
    decreases |es|
  {
    if es != [] {
      var front, e := es[..|es| - 1], es[|es| - 1];
      assert forall i :: 0 <= i < |front| ==> front[i] == es[i] && front[..i] == es[..i];
      RunKeepsConfirmedLocal(id, n, front);
      RunKeepsWired(id, n, front);
      StepKeepsConfirmedLocalIff(Run(Start(id, n), front), e);
    }
  }

  /** A leave handled on another connection of the user takes a confirmed user out of its local room. */
  lemma ConfirmedThenLeft(s: Gw, c: ConnId, d: ConnId, r: RoomId)
    requires Registered(s, d) && c in s.conns && c != d && s.conns[c].userId == s.conns[d].userId
    ensures var u := s.conns[d].userId;
      var s' := HandleLeave(OnJoinAck(s, u, r, true), c, r);
      && Registered(s', d) && s'.conns[d].joinState == Confirmed && s'.conns[d].roomId == r
      && !InGroup(s'.localRooms, r, u)
  {
  }
}
