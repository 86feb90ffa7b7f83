/**
 * The Gateway: connections and their join states, the connection indexes, the
 * local rooms, and the requests parked in degraded mode.  `Gw` and the functions
 * on it specify the handlers; the class `GatewayServer` of module `GatewayService`
 * performs them.
 * A connection object is addressed by its connection ID.
 */
module Gateway {
  import opened Ids

  type ConnId = string

  datatype JoinState = Init | Pending | Confirmed

  /** `shard` is the distributor the connection was assigned to, if any. */
  datatype Conn = Conn(userId: UserId, joinState: JoinState, roomId: RoomId, open: bool, shard: Option<nat>)

  /** Messages to the Roomserver. */
  datatype Request =
    | JoinReq(u: UserId, r: RoomId, g: GatewayId)
    | LeaveReq(u: UserId, r: RoomId)
    | ResumeReq(u: UserId, r: RoomId, g: GatewayId)
    | DisconnectReq(u: UserId, r: RoomId, g: GatewayId)
    | BatchReq(g: GatewayId, users: seq<UserRoomPair>)

  /** The capacity of the queue to the Roomserver, and of the queue back. */
  const QUEUE_CAPACITY := 10000

  datatype Gw = Gw(
    id: GatewayId,
    conns: map<ConnId, Conn>,
    connections: map<UserId, ConnId>,
    localUsers: set<UserId>,
    shards: seq<map<UserId, ConnId>>,
    localRooms: LocalRooms,
    degraded: bool,
    pendingLeaves: seq<UserRoomPair>,
    pendingDisconnects: seq<UserRoomPair>,
    out: seq<Request>)

  // ---------------------------------------------------------------- the user hash

  const MIN_INT64 := -0x8000_0000_0000_0000

  /** Two's-complement wrap-around of a 64-bit `int`. */
  function Wrap64(x: int): int {
    var m := x % 0x1_0000_0000_0000_0000;
    if m < 0x8000_0000_0000_0000 then m else m - 0x1_0000_0000_0000_0000
  }

  function HashSum(u: UserId): int {
    if u == "" then 0 else Wrap64(31 * HashSum(u[..|u| - 1]) + u[|u| - 1] as int)
  }

  function HashUserId(u: UserId): int {
    var h := HashSum(u);
    if h < 0 then Wrap64(-h) else h
  }

  /** The hash is negative in one case only: negating the smallest integer gives itself. */
  lemma HashIsNegativeIff(u: UserId)
    ensures HashUserId(u) < 0 <==> HashSum(u) == MIN_INT64
    ensures HashUserId(u) < 0 ==> HashUserId(u) == MIN_INT64
  {
  }

  method ComputeHashUserId(u: UserId) returns (h: int)
    ensures h == HashUserId(u)
  {
    h := 0;
    for i := 0 to |u|
      invariant h == HashSum(u[..i])
    {
      assert u[..i + 1][..i] == u[..i];
      h := Wrap64(31 * h + u[i] as int);
    }
    assert u[..|u|] == u;
    if h < 0 {
      h := Wrap64(-h);
    }
  }

  /** Go's remainder, which takes the sign of the dividend. */
  function Remainder(a: int, n: nat): int
    requires n > 0
  {
    if a >= 0 then a % n else -((-a) % n)
  }

  /** The distributor index of a user; outside `0..n` the code panics. */
  function ShardIndex(u: UserId, n: nat): int {
    if n == 0 then -1 else Remainder(HashUserId(u), n)
  }

  predicate HasShard(u: UserId, n: nat) {
    0 <= ShardIndex(u, n) < n
  }

  /** A user has a distributor unless there is none or its hash is negative and not a multiple of their number. */
  lemma HasShardIff(u: UserId, n: nat)
    ensures HasShard(u, n) <==> n > 0 && (HashSum(u) != MIN_INT64 || 0x8000_0000_0000_0000 % n == 0)
  {
    HashIsNegativeIff(u);
  }

  // ---------------------------------------------------------------- specification: connections

  /** A non-blocking send to the Roomserver: dropped when the queue is full. */
  function Send(s: Gw, m: Request): Gw {
    if |s.out| < QUEUE_CAPACITY then s.(out := s.out + [m]) else s
  }

  function SendAll(s: Gw, ms: seq<Request>): Gw
    decreases |ms|
  {
    if ms == [] then s else Send(SendAll(s, ms[..|ms| - 1]), ms[|ms| - 1])
  }

  lemma SendAllSnoc(s: Gw, ms: seq<Request>, i: nat)
    requires i < |ms|
    ensures SendAll(s, ms[..i + 1]) == Send(SendAll(s, ms[..i]), ms[i])
  {
    assert ms[..i + 1][..i] == ms[..i];
  }

  lemma {:induction false} SendAllConcat(s: Gw, ms: seq<Request>, ms': seq<Request>)
    ensures SendAll(s, ms + ms') == SendAll(SendAll(s, ms), ms')
    decreases |ms'|
  {
    if ms' == [] {
      assert ms + ms' == ms;
    } else {
      var front := ms'[..|ms'| - 1];
      assert (ms + ms')[..|ms + ms'| - 1] == ms + front;
      SendAllConcat(s, ms, front);
    }
  }

  function SetJoin(s: Gw, c: ConnId, state: JoinState, r: RoomId): Gw
    requires c in s.conns
  {
    s.(conns := s.conns[c := s.conns[c].(joinState := state, roomId := r)])
  }

  function NotifyDisconnect(s: Gw, u: UserId, r: RoomId): Gw {
    if s.degraded then s.(pendingDisconnects := s.pendingDisconnects + [UserRoomPair(u, r)])
    else Send(s, DisconnectReq(u, r, s.id))
  }

  function DropFromShard(s: Gw, u: UserId): seq<map<UserId, ConnId>> {
    if u in s.connections && s.connections[u] in s.conns then
      match s.conns[s.connections[u]].shard
      case Some(i) => if i < |s.shards| then s.shards[i := s.shards[i] - {u}] else s.shards
      case None => s.shards
    else s.shards
  }

  function RemoveConnection(s: Gw, u: UserId): Gw {
    s.(connections := s.connections - {u}, shards := DropFromShard(s, u), localUsers := s.localUsers - {u})
  }

  /** Closing runs once per connection. */
  function CloseConn(s: Gw, c: ConnId): Gw {
    if c !in s.conns || !s.conns[c].open then s
    else
      var conn := s.conns[c];
      var s1 := RemoveConnection(s.(conns := s.conns[c := conn.(open := false)]), conn.userId);
      if conn.roomId != NO_ROOM && conn.joinState == Confirmed then
        NotifyDisconnect(s1.(localRooms := GroupDrop(s1.localRooms, conn.roomId, conn.userId)), conn.userId, conn.roomId)
      else s1
  }

  function Register(s: Gw, c: ConnId, u: UserId): Gw {
    s.(conns := s.conns[c := Conn(u, Init, NO_ROOM, true, None)], connections := s.connections[u := c])
  }

  /** Assigns the new connection to its distributor; if the index is out of range the code has panicked by now. */
  function Assign(s: Gw, c: ConnId, u: UserId): Gw
    requires c in s.conns
  {
    var i := ShardIndex(u, |s.shards|);
    if !HasShard(u, |s.shards|) then s
    else s.(shards := s.shards[i := s.shards[i][u := c]],
            conns := s.conns[c := s.conns[c].(shard := Some(i))],
            localUsers := s.localUsers + {u})
  }

  function AddConnection(s: Gw, c: ConnId, u: UserId): Gw {
    var s1 := if u in s.connections then CloseConn(s, s.connections[u]) else s;
    Assign(Register(s1, c, u), c, u)
  }

  // ---------------------------------------------------------------- specification: handlers

  function HandleJoin(s: Gw, c: ConnId, r: RoomId): Gw
    requires c in s.conns
  {
    if s.degraded then s else Send(SetJoin(s, c, Pending, r), JoinReq(s.conns[c].userId, r, s.id))
  }

  function HandleLeave(s: Gw, c: ConnId, r: RoomId): Gw
    requires c in s.conns
  {
    var u := s.conns[c].userId;
    var s1 := SetJoin(s.(localRooms := GroupDrop(s.localRooms, r, u)), c, Init, NO_ROOM);
    if s.degraded then s1.(pendingLeaves := s1.pendingLeaves + [UserRoomPair(u, r)]) else Send(s1, LeaveReq(u, r))
  }

  function HandleResume(s: Gw, c: ConnId, r: RoomId): Gw
    requires c in s.conns
  {
    Send(SetJoin(s, c, Pending, r), ResumeReq(s.conns[c].userId, r, s.id))
  }

  /** What the scan of the local rooms, in map order, may return for `u`: some room that has it, or "" if none has. */
  ghost predicate MayFind(s: Gw, u: UserId, found: RoomId) {
    InGroup(s.localRooms, found, u) || (found == NO_ROOM && forall r :: !InGroup(s.localRooms, r, u))
  }

  /** The self-healing heartbeat. */
  function HandleHeartbeat(s: Gw, c: ConnId, r: RoomId, found: RoomId): Gw
    requires c in s.conns
  {
    var u := s.conns[c].userId;
    if r == NO_ROOM || found == r then s
    else
      var left := if found == NO_ROOM then s else Send(s, LeaveReq(u, found));
      Send(SetJoin(left, c, Pending, r), JoinReq(u, r, s.id))
  }

  function OnJoinAck(s: Gw, u: UserId, r: RoomId, success: bool): Gw {
    if u !in s.connections || s.connections[u] !in s.conns then s
    else if success then SetJoin(s, s.connections[u], Confirmed, r).(localRooms := GroupAdd(s.localRooms, r, u))
    else SetJoin(s, s.connections[u], Init, NO_ROOM)
  }

  function OnLeaveAck(s: Gw, u: UserId, r: RoomId): Gw {
    var s1 := s.(localRooms := GroupDrop(s.localRooms, r, u));
    if u !in s.connections || s.connections[u] !in s.conns then s1 else SetJoin(s1, s.connections[u], Init, NO_ROOM)
  }

  function ResetConns(conns: map<ConnId, Conn>, ids: set<ConnId>): map<ConnId, Conn> {
    map c | c in conns :: if c in ids then conns[c].(joinState := Init, roomId := NO_ROOM) else conns[c]
  }

  /** Every registered connection of a user in the closed room goes back to Init, whatever room it is in. */
  function OnRoomClose(s: Gw, r: RoomId): Gw {
    if r !in s.localRooms then s
    else
      var reset := set u | u in s.localRooms[r] && u in s.connections :: s.connections[u];
      s.(localRooms := s.localRooms - {r}, conns := ResetConns(s.conns, reset))
  }

  function LeaveRequests(pairs: seq<UserRoomPair>): seq<Request> {
    seq(|pairs|, i requires 0 <= i < |pairs| => LeaveReq(pairs[i].userId, pairs[i].roomId))
  }

  function DisconnectRequests(pairs: seq<UserRoomPair>, g: GatewayId): seq<Request> {
    seq(|pairs|, i requires 0 <= i < |pairs| => DisconnectReq(pairs[i].userId, pairs[i].roomId, g))
  }

  /** The requests a drain sends: parked leaves first, then parked disconnects. */
  function Parked(s: Gw): seq<Request> {
    LeaveRequests(s.pendingLeaves) + DisconnectRequests(s.pendingDisconnects, s.id)
  }

  function Drain(s: Gw): Gw {
    SendAll(s.(pendingLeaves := [], pendingDisconnects := []), Parked(s))
  }
}
