/**
 * Agreement at rest: in runs without losses, with patient clients, a Gateway whose
 * queues are empty and the Roomserver agree about a user, exactly unless the last
 * granted answer for that user found it without a connection.
 */
module AtRest {
  import opened Ids
  import opened Gateway
  import opened Protocol
  import opened TidyRooms
  import opened OneLocalRoom
  import opened RequestOrder
  import opened UserRecords
  import opened Rooms
  import G = GatewayRuns
  import R = Roomserver
  import RR = RoomserverRuns

  // ---------------------------------------------------------------- a user's record on the Roomserver

  /** What the Roomserver records about a user of one Gateway. */
  datatype Record = Nowhere | Somewhere(r: RoomId, status: MemberStatus)

  ghost predicate KeptAt(s: R.State, u: UserId, r: RoomId, g: GatewayId, status: MemberStatus) {
    && u in s.sessions && s.sessions[u].roomId == r && s.sessions[u].gatewayId == g && s.sessions[u].status == status
    && InRoom(s.rooms, r, u) && (forall q :: InRoom(s.rooms, q, u) ==> q == r)
    && s.rooms[r].members[u].gatewayId == g && s.rooms[r].members[u].status == status
    && (forall q, h :: RR.SeenAt(s.rooms, q, h, u) <==> q == r && h == g)
  }

  ghost predicate Has(s: R.State, u: UserId, g: GatewayId, rec: Record) {
    match rec
    case Nowhere => Absent(s, u)
    case Somewhere(r, status) => r != NO_ROOM && KeptAt(s, u, r, g, status)
  }

  /** The record after one more request. */
  function NextRecord(rec: Record, m: Request): Record
    requires !m.BatchReq?
  {
    match m
    case JoinReq(_, r, _) => Somewhere(r, Online)
    case LeaveReq(_, _) => Nowhere
    case ResumeReq(_, r, _) => if rec.Somewhere? && rec.r == r then Somewhere(r, Online) else rec
    case DisconnectReq(_, r, _) => Somewhere(r, Disconnected)
  }

  predicate Granted(rec: Record, m: Request)
    requires IsAsk(m)
  {
    m.JoinReq? || (rec.Somewhere? && rec.r == m.r)
  }

  /** Joins and resumes name a room; leaves and disconnects name the recorded one. */
  predicate Suits(rec: Record, m: Request)
    requires !m.BatchReq?
  {
    if IsAsk(m) then m.r != NO_ROOM else rec.Somewhere? && rec.r == m.r
  }

  lemma JoinKeeps(s: R.State, u: UserId, r: RoomId, g: GatewayId, rec: Record, t0: Time, t1: Time)
    requires Has(s, u, g, rec)
    ensures KeptAt(R.Join(s, u, r, g, t0, t1), u, r, g, Online)
  {
    var s' := R.Join(s, u, r, g, t0, t1);
    var left := R.LeaveOldRoom(s, u, r);
    if rec.Somewhere? && rec.r != r {
      GroupDropMembers(s.rooms[rec.r].gateways, g, u);
      assert left == RemoveUser(s.rooms, rec.r, u);
    } else {
      assert left == s.rooms;
    }
    forall q ensures InRoom(left, q, u) ==> q == r { assert InRoom(s.rooms, q, u) ==> rec.Somewhere? && q == rec.r; }
    forall q, h ensures RR.SeenAt(left, q, h, u) ==> q == r && h == g {
      assert RR.SeenAt(s.rooms, q, h, u) ==> rec.Somewhere? && q == rec.r && h == g;
    }
    GroupAddMembers(RoomOrNew(left, r).gateways, g, u);
    forall q | InRoom(s'.rooms, q, u) ensures q == r { assert q != r ==> InRoom(left, q, u); }
    forall q, h ensures RR.SeenAt(s'.rooms, q, h, u) <==> q == r && h == g {
      assert q != r ==> (RR.SeenAt(s'.rooms, q, h, u) <==> RR.SeenAt(left, q, h, u));
      assert r in left ==> (RR.SeenAt(left, r, h, u) <==> InGroup(left[r].gateways, h, u));
    }
  }

  lemma LeaveRecords(s: R.State, u: UserId, r: RoomId, g: GatewayId, status: MemberStatus)
    requires KeptAt(s, u, r, g, status)
    ensures Absent(R.Leave(s, u, r), u)
  {
    var s' := R.Leave(s, u, r);
    GroupDropMembers(s.rooms[r].gateways, g, u);
    forall q ensures !InRoom(s'.rooms, q, u) { assert InRoom(s.rooms, q, u) ==> q == r; }
    forall q, h ensures !RR.SeenAt(s'.rooms, q, h, u) { assert RR.SeenAt(s.rooms, q, h, u) <==> q == r && h == g; }
  }

  lemma DisconnectRecords(s: R.State, u: UserId, r: RoomId, g: GatewayId, status: MemberStatus, t0: Time, t1: Time)
    requires KeptAt(s, u, r, g, status)
    ensures KeptAt(R.Disconnect(s, u, r, t0, t1), u, r, g, Disconnected)
  {
    var s' := R.Disconnect(s, u, r, t0, t1);
    forall q | InRoom(s'.rooms, q, u) ensures q == r { assert InRoom(s.rooms, q, u); }
    forall q, h ensures RR.SeenAt(s'.rooms, q, h, u) <==> RR.SeenAt(s.rooms, q, h, u) {}
  }

  lemma ResumeRecords(s: R.State, u: UserId, r: RoomId, g: GatewayId, status: MemberStatus, now: Time)
    requires KeptAt(s, u, r, g, status)
    ensures R.ResumeCode(s, u, r).0 == R.ERR_SUCCESS && KeptAt(R.Resume(s, u, r, g, now), u, r, g, Online)
  {
    var s' := R.Resume(s, u, r, g, now);
    forall q | InRoom(s'.rooms, q, u) ensures q == r { assert InRoom(s.rooms, q, u); }
    forall q, h ensures RR.SeenAt(s'.rooms, q, h, u) <==> RR.SeenAt(s.rooms, q, h, u) {}
  }

  /** The Roomserver's handling of a user's request is the step of its record, and the answer follows the record. */
  lemma HandleRecords(rs: R.State, m: Request, g: GatewayId, rec: Record, t0: Time, t1: Time, clock: seq<(Time, Time)>)
    requires !m.BatchReq? && (IsAsk(m) ==> m.g == g) && Has(rs, m.u, g, rec) && Suits(rec, m)
    ensures Has(Handle(rs, m, t0, t1, clock).0, m.u, g, NextRecord(rec, m))
    ensures IsAsk(m) ==> Handle(rs, m, t0, t1, clock).1 == Some(JoinAck(m.u, m.r, Granted(rec, m)))
  {
    match m
    case JoinReq(u, r, _) => JoinKeeps(rs, u, r, g, rec, t0, t1);
    case LeaveReq(u, r) => LeaveRecords(rs, u, r, g, rec.status);
    case ResumeReq(u, r, _) => if rec.Somewhere? && rec.r == r { ResumeRecords(rs, u, r, g, rec.status, t1); }
    case DisconnectReq(u, r, _) => DisconnectRecords(rs, u, r, g, rec.status, t0, t1);
  }

  lemma HasUntouched(s: R.State, s': R.State, u: UserId, g: GatewayId, rec: Record)
    requires RR.Untouched(s, s', u) && Has(s, u, g, rec)
    ensures Has(s', u, g, rec)
  {
    forall q ensures InRoom(s.rooms, q, u) <==> InRoom(s'.rooms, q, u) {
      assert RR.MemberAt(s.rooms, q, u) == RR.MemberAt(s'.rooms, q, u);
    }
    if rec.Somewhere? { assert RR.MemberAt(s.rooms, rec.r, u) == RR.MemberAt(s'.rooms, rec.r, u); }
  }

  lemma OthersRequest(rs: R.State, m: Request, u: UserId, g: GatewayId, rec: Record, t0: Time, t1: Time, clock: seq<(Time, Time)>)
    requires !m.BatchReq? && m.u != u && Has(rs, u, g, rec)
    ensures Has(Handle(rs, m, t0, t1, clock).0, u, g, rec)
  {
    var e := match m
      case JoinReq(v, r, h) => R.JoinEvent(v, r, h, t0, t1)
      case LeaveReq(v, r) => R.LeaveEvent(v, r)
      case ResumeReq(v, r, h) => R.ResumeEvent(v, r, h, t1)
      case DisconnectReq(v, r, _) => R.DisconnectEvent(v, r, t0, t1);
    RR.StepConcernsOneUser(rs, e, u);
    HasUntouched(rs, R.Step(rs, e), u, g, rec);
  }

  /** The sweep removes a user exactly when it is recorded as disconnected for long enough. */
  lemma ExpireRecords(rs: R.State, v: UserId, now: Time, timeout: Time, u: UserId, g: GatewayId, rec: Record)
    requires Has(rs, u, g, rec)
    ensures Has(R.Expire(rs, v, now, timeout), u, g,
                if v == u && R.TimedOut(rs, u, now, timeout) then Nowhere else rec)
    ensures R.TimedOut(rs, u, now, timeout) ==> rec.Somewhere? && rec.status == Disconnected
  {
    if v != u {
      RR.StepConcernsOneUser(rs, R.ExpireEvent(v, now, timeout), u);
      HasUntouched(rs, R.Expire(rs, v, now, timeout), u, g, rec);
    } else if R.TimedOut(rs, u, now, timeout) {
      LeaveRecords(rs, u, rec.r, g, rec.status);
    }
  }

  // ---------------------------------------------------------------- one user, both machines

  /** A user's queued requests suit the record one after the other. */
  predicate SuitAll(rec: Record, q: seq<Request>)
    decreases |q|
  {
    q == [] || (!q[0].BatchReq? && Suits(rec, q[0]) && SuitAll(NextRecord(rec, q[0]), q[1..]))
  }

  function NextAll(rec: Record, q: seq<Request>): Record
    requires SuitAll(rec, q)
    decreases |q|
  {
    if q == [] then rec else NextAll(NextRecord(rec, q[0]), q[1..])
  }

  lemma {:induction false} SuitSnoc(rec: Record, q: seq<Request>, m: Request)
    requires SuitAll(rec, q) && !m.BatchReq? && Suits(NextAll(rec, q), m)
    ensures SuitAll(rec, q + [m]) && NextAll(rec, q + [m]) == NextRecord(NextAll(rec, q), m)
    decreases |q|
  {
    if q == [] {
      assert q + [m] == [m] && [m][1..] == [];
    } else {
      SuitSnoc(NextRecord(rec, q[0]), q[1..], m);
      assert (q + [m])[1..] == q[1..] + [m];
    }
  }

  predicate IsOnline(rec: Record) {
    rec.Somewhere? && rec.status == Online
  }

  /** The queued requests before a join or resume that may come last. */
  function Base(q: seq<Request>): seq<Request> {
    if q != [] && IsAsk(q[|q| - 1]) then q[..|q| - 1] else q
  }

  /**
   * A user's record, its queued requests, the answers on their way to it, the
   * room it is Confirmed in, and whether its last granted answer went unheard.
   */
  ghost predicate Together(rec: Record, q: seq<Request>, acks: seq<Reply>, room: Option<RoomId>, unheard: bool) {
    && SuitAll(rec, q) && SuitAll(rec, Base(q))
    && (forall i :: 0 <= i < |q| - 1 ==> !IsAsk(q[i]))
    && |q| <= 2 && (|q| == 2 ==> IsAsk(q[1])) && (q != [] && !IsAsk(q[0]) ==> IsOnline(rec))
    && (room.Some? ==> acks == [] && q == [] && rec == Somewhere(room.value, Online) && !unheard)
    && (room.None? && acks == [] ==> (IsOnline(NextAll(rec, Base(q))) <==> unheard))
    && (acks != [] ==>
          && |acks| == 1 && acks[0].JoinAck? && q == [] && room.None?
          && (if acks[0].success then rec == Somewhere(acks[0].r, Online) else IsOnline(rec) <==> unheard))
  }

  /** A join or resume is issued. */
  lemma AskTogether(rec: Record, q: seq<Request>, m: Request, unheard: bool)
    requires Together(rec, q, [], None, unheard) && Base(q) == q && IsAsk(m) && m.r != NO_ROOM
    ensures Together(rec, q + [m], [], None, unheard)
  {
    SuitSnoc(rec, q, m);
    assert (q + [m])[..|q|] == q;
  }

  /** The Confirmed room is given up by a leave or a disconnect. */
  lemma GiveUpTogether(rec: Record, q: seq<Request>, r: RoomId, m: Request, unheard: bool)
    requires Together(rec, q, [], Some(r), unheard) && (m.LeaveReq? || m.DisconnectReq?) && m.r == r
    ensures Together(rec, q + [m], [], None, unheard)
  {
    SuitSnoc(rec, q, m);
    assert q + [m] == [m] && Base([m]) == [m];
  }

  /** The sweep may remove a disconnected user: then nothing is queued but a join or resume. */
  lemma ExpireTogether(rec: Record, q: seq<Request>, acks: seq<Reply>, room: Option<RoomId>, unheard: bool)
    requires Together(rec, q, acks, room, unheard) && rec.Somewhere? && rec.status == Disconnected
    ensures Together(Nowhere, q, acks, room, unheard)
  {
    if q != [] {
      assert IsAsk(q[0]) && |q| == 1;
      assert q[1..] == [] && Base(q) == [];
    }
  }

  /** The Roomserver handles the first request. */
  lemma HandleTogether(rec: Record, q: seq<Request>, room: Option<RoomId>, unheard: bool)
    requires q != [] && Together(rec, q, [], room, unheard)
    ensures !q[0].BatchReq? && Suits(rec, q[0])
    ensures if IsAsk(q[0]) then
              q[1..] == [] && room == None
              && forall u :: Together(NextRecord(rec, q[0]), q[1..], [JoinAck(u, q[0].r, Granted(rec, q[0]))], None, unheard)
            else Together(NextRecord(rec, q[0]), q[1..], [], room, unheard)
  {
    if IsAsk(q[0]) {
      assert |q| == 1;
      assert Base(q) == [];
    } else {
      assert Base(q) != [] && Base(q)[0] == q[0];
      assert Base(q[1..]) == Base(q)[1..];
    }
  }

  /** The answer arrives, with the user connected or not. */
  lemma AckTogether(rec: Record, q: seq<Request>, ack: Reply, room: Option<RoomId>, unheard: bool, connected: bool)
    requires Together(rec, q, [ack], room, unheard)
    ensures ack.JoinAck?
    ensures Together(rec, q, [], if connected && ack.success then Some(ack.r) else None,
                     if ack.success then !connected else unheard)
  {
    assert [ack][0] == ack;
  }

  // ---------------------------------------------------------------- local events

  ghost predicate Calm(s: Gw) {
    !s.degraded && s.pendingLeaves == [] && s.pendingDisconnects == []
  }

  /** In normal mode with nothing parked, what an event issues goes to the queue at once. */
  lemma CalmStep(s: Gw, e: G.Event)
    requires Calm(s) && Roomy(s) && IsLocal(e) && !e.Degrade? && !e.Resend?
    ensures var s' := G.Step(s, e); Calm(s') && s'.id == s.id && s'.out == s.out + Issues(s, e)
  {
    assert s.out + [] == s.out;
    match e
    case Connect(c, u) =>
      if c !in s.conns {
        ConnectParks(s, c, u);
        if u in s.connections { CloseParks(s, s.connections[u]); }
      }
    case Close(c) => CloseParks(s, c);
    case ClientLeave(c, r) => if c in s.conns { LeaveParks(s, c, r); }
    case ClientJoin(c, r) => AskSends(s, e);
    case ClientResume(c, r) => AskSends(s, e);
    case ClientHeartbeat(c, r, found) => AskSends(s, e);
    case Recover =>
    case DrainParked =>
      assert Parked(s) == [];
      DrainKeepsOutgoing(s);
      G.DrainOnlySends(s);
  }

  /**
   * What a local event means for `u`: nothing; a join or resume from a user in
   * no room with none under way; or the Confirmed room is given up.
   */
  ghost predicate UserMove(ms: seq<Request>, room: Option<RoomId>, room': Option<RoomId>, id: GatewayId, u: UserId, free: bool) {
    || (ms == [] && room' == room)
    || (|ms| == 1 && IsAsk(ms[0]) && ms[0].u == u && ms[0].r != NO_ROOM && ms[0].g == id && room == None == room' && free)
    || (|ms| == 1 && (ms[0].LeaveReq? || ms[0].DisconnectReq?) && ms[0].u == u && room == Some(ms[0].r) && room' == None)
  }

  lemma RoomStays(s: Gw, s': Gw, u: UserId)
    requires forall r :: ConfirmedIn(s', u, r) <==> ConfirmedIn(s, u, r)
    ensures RoomOf(s', u) == RoomOf(s, u)
  {
    if RoomOf(s, u).Some? { assert ConfirmedIn(s', u, RoomOf(s, u).value); }
    if RoomOf(s', u).Some? { assert ConfirmedIn(s, u, RoomOf(s', u).value); }
  }

  ghost predicate RoomsNamed(s: Gw) {
    forall u, r :: ConfirmedIn(s, u, r) ==> r != NO_ROOM
  }

  lemma CloseMove(s: Gw, c: ConnId, u: UserId, free: bool)
    requires G.Wired(s) && RoomsNamed(s)
    ensures UserMove(ByUser(CloseIssues(s, c), u), RoomOf(s, u), RoomOf(CloseConn(s, c), u), s.id, u, free)
  {
    var ms, s' := CloseIssues(s, c), CloseConn(s, c);
    if G.Registered(s, c) {
      var v := s.conns[c].userId;
      ClosePlaces(s, c);
      if ms != [] { ByUserOne(ms[0], u); }
      if u != v {
        RoomStays(s, s', u);
      } else if RoomOf(s, u).Some? {
        assert ConfirmedIn(s, u, RoomOf(s, u).value);
      }
    } else {
      assert s' == s && ms == [];
    }
  }

  lemma ConnectMove(s: Gw, c: ConnId, v: UserId, u: UserId, free: bool)
    requires G.Wired(s) && RoomsNamed(s) && c !in s.conns
    ensures UserMove(ByUser(Issues(s, G.Connect(c, v)), u), RoomOf(s, u), RoomOf(AddConnection(s, c, v), u), s.id, u, free)
  {
    var s1 := if v in s.connections then CloseConn(s, s.connections[v]) else s;
    G.ReplacedIsGone(s, c, v);
    NewConnectionPlacesNobody(s1, c, v);
    RoomStays(s1, AddConnection(s, c, v), u);
    if v in s.connections { CloseMove(s, s.connections[v], u, free); }
  }

  /** A join or resume from Init. */
  lemma AskMove(s: Gw, c: ConnId, r: RoomId, m: Request, s': Gw, u: UserId, free: bool)
    requires G.Wired(s) && G.Registered(s, c) && s.conns[c].joinState == Init && r != NO_ROOM
    requires IsAsk(m) && m.u == s.conns[c].userId && m.r == r && m.g == s.id && (u == m.u ==> free)
    requires s' == SetJoin(s, c, Pending, r).(out := s'.out)
    ensures UserMove(ByUser([m], u), RoomOf(s, u), RoomOf(s', u), s.id, u, free)
  {
    ByUserOne(m, u);
    forall q ensures ConfirmedIn(s', u, q) <==> ConfirmedIn(s, u, q) {}
    RoomStays(s, s', u);
  }

  lemma LeaveMove(s: Gw, c: ConnId, r: RoomId, u: UserId, free: bool)
    requires G.Wired(s) && G.Registered(s, c) && s.conns[c].joinState == Confirmed && s.conns[c].roomId == r
    ensures UserMove(ByUser([LeaveReq(s.conns[c].userId, r)], u), RoomOf(s, u), RoomOf(HandleLeave(s, c, r), u), s.id, u, free)
  {
    var v, s' := s.conns[c].userId, HandleLeave(s, c, r);
    ByUserOne(LeaveReq(v, r), u);
    LeavePlaces(s, c, r);
    if u != v { RoomStays(s, s', u); } else { assert ConfirmedIn(s, u, r); }
  }

  /** A patient heartbeat changes nothing or joins from Init. */
  lemma HeartbeatMove(s: Gw, d: seq<Reply>, c: ConnId, r: RoomId, found: RoomId, u: UserId)
    requires Orderly(s, d) && Patient(s, d, G.ClientHeartbeat(c, r, found)) && MayFind(s, s.conns[c].userId, found)
    ensures UserMove(ByUser(ClientIssues(s, G.ClientHeartbeat(c, r, found)), u), RoomOf(s, u),
                     RoomOf(HandleHeartbeat(s, c, r, found), u), s.id, u, UnderWay(s.out, d)[u] == 0)
  {
    var v, s' := s.conns[c].userId, HandleHeartbeat(s, c, r, found);
    if r != NO_ROOM && found != r {
      assert InGroup(s.localRooms, found, v) <==> ConfirmedIn(s, v, found);
      assert InGroup(s.localRooms, r, v) <==> ConfirmedIn(s, v, r);
      assert s.conns[c].joinState == Init && found == NO_ROOM;
      assert ClientIssues(s, G.ClientHeartbeat(c, r, found)) == [JoinReq(v, r, s.id)];
      HeartbeatAsks(s, c, r, found);
      AskMove(s, c, r, JoinReq(v, r, s.id), s', u, UnderWay(s.out, d)[u] == 0);
    }
  }

  lemma ClientMove(s: Gw, d: seq<Reply>, e: G.Event, u: UserId)
    requires Orderly(s, d) && G.IsClient(e) && Patient(s, d, e) && !s.degraded
    ensures UserMove(ByUser(ClientIssues(s, e), u), RoomOf(s, u), RoomOf(G.ClientStep(s, e), u), s.id, u,
                     UnderWay(s.out, d)[u] == 0)
  {
    var s', free := G.ClientStep(s, e), UnderWay(s.out, d)[u] == 0;
    match e
    case ClientJoin(c, r) => AskMove(s, c, r, JoinReq(s.conns[c].userId, r, s.id), s', u, free);
    case ClientResume(c, r) => AskMove(s, c, r, ResumeReq(s.conns[c].userId, r, s.id), s', u, free);
    case ClientLeave(c, r) => LeaveMove(s, c, r, u, free);
    case ClientHeartbeat(c, r, found) =>
      if MayFind(s, s.conns[c].userId, found) { HeartbeatMove(s, d, c, r, found, u); }
  }

  lemma LocalMove(s: Gw, d: seq<Reply>, e: G.Event, u: UserId)
    requires Orderly(s, d) && IsLocal(e) && Patient(s, d, e) && !s.degraded && !e.Degrade? && !e.Resend?
    ensures UserMove(ByUser(Issues(s, e), u), RoomOf(s, u), RoomOf(G.Step(s, e), u), s.id, u, UnderWay(s.out, d)[u] == 0)
  {
    assert RoomsNamed(s);
    match e
    case Connect(c, v) => if c !in s.conns { ConnectMove(s, c, v, u, UnderWay(s.out, d)[u] == 0); }
    case Close(c) => CloseMove(s, c, u, UnderWay(s.out, d)[u] == 0);
    case Recover =>
    case DrainParked => G.DrainOnlySends(s);
    case _ => ClientMove(s, d, e, u);
  }

  // ---------------------------------------------------------------- answers under way

  /** The join answers for `u`, in order. */
  function AcksOf(d: seq<Reply>, u: UserId): seq<Reply>
    decreases |d|
  {
    if d == [] then []
    else AcksOf(d[..|d| - 1], u) + (if d[|d| - 1].JoinAck? && d[|d| - 1].u == u then [d[|d| - 1]] else [])
  }

  lemma AcksOfSnoc(d: seq<Reply>, m: Reply, u: UserId)
    ensures AcksOf(d + [m], u) == AcksOf(d, u) + (if m.JoinAck? && m.u == u then [m] else [])
  {
    assert (d + [m])[..|d|] == d;
  }

  lemma {:induction false} AcksOfHead(d: seq<Reply>, u: UserId)
    requires d != []
    ensures AcksOf(d, u) == (if d[0].JoinAck? && d[0].u == u then [d[0]] else []) + AcksOf(d[1..], u)
    decreases |d|
  {
    if |d| == 1 {
      assert d[..0] == [] && d[1..] == [];
    } else {
      var front, last := d[..|d| - 1], d[|d| - 1];
      AcksOfHead(front, u);
      assert d[1..] == front[1..] + [last];
      AcksOfSnoc(front[1..], last, u);
    }
  }

  lemma NoneUnderWay(q: seq<Request>, d: seq<Reply>, u: UserId)
    requires UnderWay(q, d)[u] == 0
    ensures AcksOf(d, u) == [] && Base(ByUser(q, u)) == ByUser(q, u)
  {
    NoAckUnderWay(d, u);
    NoAskUnderWay(q, u);
    var own := ByUser(q, u);
    if own != [] { assert own[|own| - 1] in own; }
  }

  lemma {:induction false} NoAckUnderWay(d: seq<Reply>, u: UserId)
    requires Acks(d)[u] == 0
    ensures AcksOf(d, u) == []
    decreases |d|
  {
    if d != [] { NoAckUnderWay(d[..|d| - 1], u); }
  }

  lemma {:induction false} NoAskUnderWay(q: seq<Request>, u: UserId)
    requires Asks(q)[u] == 0
    ensures forall m :: m in ByUser(q, u) ==> !IsAsk(m)
    decreases |q|
  {
    if q != [] { NoAskUnderWay(q[..|q| - 1], u); }
  }

  lemma ByUserHead(q: seq<Request>, u: UserId)
    requires q != []
    ensures ByUser(q, u) == (if !q[0].BatchReq? && q[0].u == u then [q[0]] else []) + ByUser(q[1..], u)
  {
    assert q == [q[0]] + q[1..];
    ByUserConcat([q[0]], q[1..], u);
    ByUserOne(q[0], u);
  }

  // ---------------------------------------------------------------- the user's own Gateway

  ghost predicate Joint(gw: Gw, d: seq<Reply>, rs: R.State, g: GatewayId, u: UserId, rec: Record, unheard: bool) {
    Has(rs, u, g, rec) && Together(rec, ByUser(gw.out, u), AcksOf(d, u), RoomOf(gw, u), unheard)
  }

  lemma LocalJoint(gw: Gw, d: seq<Reply>, e: G.Event, rs: R.State, u: UserId, rec: Record, unheard: bool)
    requires Orderly(gw, d) && IsLocal(e) && Patient(gw, d, e) && Calm(gw) && Roomy(gw) && !e.Degrade? && !e.Resend?
    requires Joint(gw, d, rs, gw.id, u, rec, unheard)
    ensures Joint(G.Step(gw, e), d, rs, gw.id, u, rec, unheard)
  {
    var q, ms := ByUser(gw.out, u), ByUser(Issues(gw, e), u);
    CalmStep(gw, e);
    LocalMove(gw, d, e, u);
    ByUserConcat(gw.out, Issues(gw, e), u);
    MoveTogether(rec, q, ms, AcksOf(d, u), RoomOf(gw, u), RoomOf(G.Step(gw, e), u), gw.id, u, UnderWay(gw.out, d)[u] == 0, unheard) by {
      if UnderWay(gw.out, d)[u] == 0 { NoneUnderWay(gw.out, d, u); }
    }
  }

  lemma MoveTogether(rec: Record, q: seq<Request>, ms: seq<Request>, acks: seq<Reply>, room: Option<RoomId>,
                     room': Option<RoomId>, id: GatewayId, u: UserId, free: bool, unheard: bool)
    requires Together(rec, q, acks, room, unheard) && UserMove(ms, room, room', id, u, free)
    requires free ==> acks == [] && Base(q) == q
    ensures Together(rec, q + ms, acks, room', unheard)
  {
    if ms == [] {
      assert q + ms == q;
    } else {
      assert ms == [ms[0]];
      if IsAsk(ms[0]) { AskTogether(rec, q, ms[0], unheard); } else { GiveUpTogether(rec, q, room.value, ms[0], unheard); }
    }
  }

  function AfterReply(d: seq<Reply>, reply: Option<Reply>): seq<Reply> {
    if reply == None then d else Offer(d, reply.value)
  }

  lemma AfterReplyAcks(d: seq<Reply>, reply: Option<Reply>, u: UserId)
    requires |d| < QUEUE_CAPACITY && (reply.Some? ==> reply.value.JoinAck?)
    ensures AcksOf(AfterReply(d, reply), u)
         == AcksOf(d, u) + (if reply.Some? && reply.value.u == u then [reply.value] else [])
  {
    if reply.Some? { AcksOfSnoc(d, reply.value, u); }
  }

  /** The Roomserver handles a request of the user. */
  lemma OwnHandled(gw: Gw, d: seq<Reply>, rs: R.State, g: GatewayId, u: UserId, rec: Record, unheard: bool,
                   t0: Time, t1: Time, clock: seq<(Time, Time)>)
    requires Joint(gw, d, rs, g, u, rec, unheard) && gw.out != [] && |d| < QUEUE_CAPACITY
    requires !gw.out[0].BatchReq? && (IsAsk(gw.out[0]) ==> gw.out[0].g == g) && gw.out[0].u == u
    ensures var (rs', reply) := Handle(rs, gw.out[0], t0, t1, clock);
      Joint(TakeRequest(gw), AfterReply(d, reply), rs', g, u, NextRecord(rec, gw.out[0]), unheard)
  {
    var m, q := gw.out[0], ByUser(gw.out, u);
    OwnQueues(gw, d, rs, u, t0, t1, clock);
    HandleTogether(rec, q, RoomOf(gw, u), unheard);
    HandleRecords(rs, m, g, rec, t0, t1, clock);
  }

  /** The user's request leaves its queue, and its answer, if it is a join or resume, joins the answers. */
  lemma OwnQueues(gw: Gw, d: seq<Reply>, rs: R.State, u: UserId, t0: Time, t1: Time, clock: seq<(Time, Time)>)
    requires gw.out != [] && |d| < QUEUE_CAPACITY && !gw.out[0].BatchReq? && gw.out[0].u == u
    ensures var q, reply := ByUser(gw.out, u), Handle(rs, gw.out[0], t0, t1, clock).1;
      && q != [] && q[0] == gw.out[0] && ByUser(TakeRequest(gw).out, u) == q[1..]
      && AcksOf(AfterReply(d, reply), u) == AcksOf(d, u) + (if IsAsk(gw.out[0]) then [reply.value] else [])
      && RoomOf(TakeRequest(gw), u) == RoomOf(gw, u)
  {
    HandleAnswersAsks(rs, gw.out[0], t0, t1, clock);
    ByUserHead(gw.out, u);
    AfterReplyAcks(d, Handle(rs, gw.out[0], t0, t1, clock).1, u);
    RoomStays(gw, TakeRequest(gw), u);
  }

  /** The Roomserver handles the head of the queue of the user's own Gateway. */
  lemma HandleJoint(gw: Gw, d: seq<Reply>, rs: R.State, g: GatewayId, u: UserId, rec: Record, unheard: bool,
                    t0: Time, t1: Time, clock: seq<(Time, Time)>)
    returns (rec': Record)
    requires Joint(gw, d, rs, g, u, rec, unheard) && gw.out != [] && |d| < QUEUE_CAPACITY
    requires !gw.out[0].BatchReq? && (IsAsk(gw.out[0]) ==> gw.out[0].g == g)
    ensures var (rs', reply) := Handle(rs, gw.out[0], t0, t1, clock);
      Joint(TakeRequest(gw), AfterReply(d, reply), rs', g, u, rec', unheard)
  {
    var m := gw.out[0];
    if m.u == u {
      OwnHandled(gw, d, rs, g, u, rec, unheard, t0, t1, clock);
      rec' := NextRecord(rec, m);
    } else {
      OthersHandled(gw, d, rs, g, u, rec, unheard, t0, t1, clock);
      rec' := rec;
    }
  }

  lemma OthersHandled(gw: Gw, d: seq<Reply>, rs: R.State, g: GatewayId, u: UserId, rec: Record, unheard: bool,
                      t0: Time, t1: Time, clock: seq<(Time, Time)>)
    requires Joint(gw, d, rs, g, u, rec, unheard) && gw.out != [] && |d| < QUEUE_CAPACITY
    requires !gw.out[0].BatchReq? && gw.out[0].u != u
    ensures var (rs', reply) := Handle(rs, gw.out[0], t0, t1, clock);
      Joint(TakeRequest(gw), AfterReply(d, reply), rs', g, u, rec, unheard)
  {
    var m := gw.out[0];
    HandleAnswersAsks(rs, m, t0, t1, clock);
    ByUserHead(gw.out, u);
    AfterReplyAcks(d, Handle(rs, m, t0, t1, clock).1, u);
    RoomStays(gw, TakeRequest(gw), u);
    assert ByUser(TakeRequest(gw).out, u) == ByUser(gw.out, u);
    assert AcksOf(AfterReply(d, Handle(rs, m, t0, t1, clock).1), u) == AcksOf(d, u);
    OthersRequest(rs, m, u, g, rec, t0, t1, clock);
  }

  /** The last granted answer for `u` went unheard: it found no connection. */
  predicate UnheardAfter(gw: Gw, m: Reply, u: UserId, before: bool) {
    if m.JoinAck? && m.u == u && m.success then u !in gw.connections else before
  }

  lemma ReceiveJoint(gw: Gw, d: seq<Reply>, rs: R.State, g: GatewayId, u: UserId, rec: Record, unheard: bool)
    requires G.Wired(gw) && Joint(gw, d, rs, g, u, rec, unheard) && d != [] && d[0].JoinAck?
    ensures Joint(Receive(gw, d[0]), d[1..], rs, g, u, rec, UnheardAfter(gw, d[0], u, unheard))
  {
    var m, gw' := d[0], Receive(gw, d[0]);
    AcksOfHead(d, u);
    assert gw'.out == gw.out;
    if m.u in gw.connections { JoinAckPlaces(gw, m.u, m.r, m.success); }
    if m.u == u {
      assert AcksOf(d, u) == [m] && AcksOf(d[1..], u) == [];
      AckTogether(rec, ByUser(gw.out, u), m, RoomOf(gw, u), unheard, u in gw.connections);
      if u in gw.connections && m.success { assert ConfirmedIn(gw', u, m.r); }
      assert RoomOf(gw', u) == if u in gw.connections && m.success then Some(m.r) else None;
    } else {
      RoomStays(gw, gw', u);
    }
  }

  // ---------------------------------------------------------------- the other Gateways

  /** The user has never been here. */
  ghost predicate Stranger(gw: Gw, d: seq<Reply>, u: UserId) {
    (forall c :: c in gw.conns ==> gw.conns[c].userId != u) && ByUser(gw.out, u) == [] && AcksOf(d, u) == []
  }

  lemma IssuesAreKnown(s: Gw, e: G.Event, u: UserId)
    requires G.Wired(s) && forall c :: c in s.conns ==> s.conns[c].userId != u
    ensures ByUser(Issues(s, e), u) == []
  {
    var ms := Issues(s, e);
    if ms != [] {
      var v := ms[0].u;
      assert AllOf(ms, v) && v != u;
      OwnOrNone(ms, v, u);
    }
  }

  lemma StrangerLocal(s: Gw, d: seq<Reply>, e: G.Event, u: UserId)
    requires G.Wired(s) && Calm(s) && Roomy(s) && IsLocal(e) && !e.Degrade? && !e.Resend?
    requires Stranger(s, d, u) && !(e.Connect? && e.u == u)
    ensures Stranger(G.Step(s, e), d, u)
  {
    CalmStep(s, e);
    IssuesAreKnown(s, e, u);
    ByUserConcat(s.out, Issues(s, e), u);
    if !e.Connect? && !e.Close? {
      G.StepKeepsConnections(s, e);
    } else {
      UsersStay(s, e, u);
    }
  }

  lemma UsersStay(s: Gw, e: G.Event, u: UserId)
    requires (e.Connect? && e.u != u) || e.Close?
    requires forall c :: c in s.conns ==> s.conns[c].userId != u
    ensures forall c :: c in G.Step(s, e).conns ==> G.Step(s, e).conns[c].userId != u
  {
    if e.Close? {
      CloseKeepsUsers(s, e.c);
    } else if e.u in s.connections {
      CloseKeepsUsers(s, s.connections[e.u]);
    }
  }

  lemma CloseKeepsUsers(s: Gw, c: ConnId)
    ensures var s' := CloseConn(s, c);
      s'.conns.Keys == s.conns.Keys && forall d :: d in s.conns ==> s'.conns[d].userId == s.conns[d].userId
  {
  }

  lemma StrangerHandle(s: Gw, d: seq<Reply>, u: UserId, rs: R.State, t0: Time, t1: Time, clock: seq<(Time, Time)>)
    requires Stranger(s, d, u) && s.out != [] && !s.out[0].BatchReq? && |d| < QUEUE_CAPACITY
    ensures s.out[0].u != u
    ensures Stranger(TakeRequest(s), AfterReply(d, Handle(rs, s.out[0], t0, t1, clock).1), u)
  {
    ByUserHead(s.out, u);
    HandleAnswersAsks(rs, s.out[0], t0, t1, clock);
    AfterReplyAcks(d, Handle(rs, s.out[0], t0, t1, clock).1, u);
  }

  lemma StrangerReceive(s: Gw, d: seq<Reply>, u: UserId)
    requires Stranger(s, d, u) && d != [] && d[0].JoinAck?
    ensures Stranger(Receive(s, d[0]), d[1..], u)
  {
    AcksOfHead(d, u);
    G.AckKeepsConnections(s, d[0].u, d[0].r, d[0].success);
  }

  // ---------------------------------------------------------------- the system

  /** Normal mode everywhere, no resync batch queued, and no room-close notice under way. */
  ghost predicate AllCalm(s: Sys) {
    && s.gws.Keys == s.down.Keys
    && forall g :: g in s.gws ==> CalmLink(s.gws[g], s.down[g])
  }

  ghost predicate CalmLink(gw: Gw, d: seq<Reply>) {
    Calm(gw) && NoBatch(gw.out) && forall i :: 0 <= i < |d| ==> d[i].JoinAck?
  }

  /** Nothing is dropped, lost, closed or crashed, and the Gateways stay in normal mode; the timeout sweep may run. */
  ghost predicate Lossless(s: Sys, ev: Event) {
    match ev
    case Local(g, e) => !e.Degrade? && !e.Resend? && (g in s.gws ==> Roomy(s.gws[g]))
    case ServerHandles(g, _, _, _) => g in s.down ==> |s.down[g]| < QUEUE_CAPACITY
    case GatewayReceives(_) => true
    case ServerExpires(_, _, _) => true
    case _ => false
  }

  /** The user connects to Gateway `g` only. */
  predicate AtHome(ev: Event, g: GatewayId, u: UserId) {
    ev.Local? && ev.e.Connect? && ev.e.u == u ==> ev.g == g
  }

  ghost predicate StrangersBut(s: Sys, g: GatewayId, u: UserId)
    requires s.gws.Keys == s.down.Keys
  {
    forall h :: h in s.gws && h != g ==> Stranger(s.gws[h], s.down[h], u)
  }

  ghost predicate SysJoint(s: Sys, g: GatewayId, u: UserId, rec: Record, unheard: bool) {
    && AllCalm(s) && StrangersBut(s, g, u)
    && g in s.gws && Joint(s.gws[g], s.down[g], s.rs, g, u, rec, unheard)
  }

  lemma LinkJoint(s: Sys, s': Sys, h: GatewayId, gw: Gw, d: seq<Reply>, g: GatewayId, u: UserId, rec: Record, unheard: bool)
    requires AllCalm(s) && StrangersBut(s, g, u) && h in s.gws && g in s.gws && CalmLink(gw, d)
    requires s'.gws == s.gws[h := gw] && s'.down == s.down[h := d]
    requires if h == g then Joint(gw, d, s'.rs, g, u, rec, unheard)
             else Stranger(gw, d, u) && Joint(s.gws[g], s.down[g], s'.rs, g, u, rec, unheard)
    ensures SysJoint(s', g, u, rec, unheard)
  {
    LinkCalm(s, s', h, gw, d);
    LinkStrangers(s, s', h, gw, d, g, u);
    assert s'.gws[g] == (if h == g then gw else s.gws[g]) && s'.down[g] == (if h == g then d else s.down[g]);
  }

  lemma LinkCalm(s: Sys, s': Sys, h: GatewayId, gw: Gw, d: seq<Reply>)
    requires AllCalm(s) && h in s.gws && CalmLink(gw, d) && s'.gws == s.gws[h := gw] && s'.down == s.down[h := d]
    ensures AllCalm(s')
  {
  }

  lemma LinkStrangers(s: Sys, s': Sys, h: GatewayId, gw: Gw, d: seq<Reply>, g: GatewayId, u: UserId)
    requires s.gws.Keys == s.down.Keys && StrangersBut(s, g, u) && h in s.gws && (h != g ==> Stranger(gw, d, u))
    requires s'.gws == s.gws[h := gw] && s'.down == s.down[h := d]
    ensures s'.gws.Keys == s'.down.Keys && StrangersBut(s', g, u)
  {
  }

  lemma CalmLinkLocal(gw: Gw, d: seq<Reply>, e: G.Event)
    requires CalmLink(gw, d) && Roomy(gw) && IsLocal(e) && !e.Degrade? && !e.Resend?
    ensures CalmLink(G.Step(gw, e), d)
  {
    CalmStep(gw, e);
    IssuesNoBatch(gw, e);
  }

  lemma IssuesNoBatch(gw: Gw, e: G.Event)
    ensures NoBatch(Issues(gw, e))
  {
  }

  lemma CalmLinkHandle(gw: Gw, d: seq<Reply>, rs: R.State, t0: Time, t1: Time, clock: seq<(Time, Time)>)
    requires CalmLink(gw, d) && gw.out != []
    ensures CalmLink(TakeRequest(gw), AfterReply(d, Handle(rs, gw.out[0], t0, t1, clock).1))
  {
    HandleAnswersAsks(rs, gw.out[0], t0, t1, clock);
  }

  lemma CalmLinkReceive(gw: Gw, d: seq<Reply>)
    requires CalmLink(gw, d) && d != []
    ensures CalmLink(Receive(gw, d[0]), d[1..])
  {
  }

  lemma LocalSysJoint(s: Sys, h: GatewayId, e: G.Event, g: GatewayId, u: UserId, rec: Record, unheard: bool)
    requires SysJoint(s, g, u, rec, unheard) && h in s.gws && Orderly(s.gws[h], s.down[h]) && s.gws[h].id == h
    requires IsLocal(e) && Patient(s.gws[h], s.down[h], e) && Roomy(s.gws[h]) && !e.Degrade? && !e.Resend?
    requires AtHome(Local(h, e), g, u)
    ensures SysJoint(LocalStep(s, h, e), g, u, rec, unheard)
  {
    var gw, d := s.gws[h], s.down[h];
    CalmLinkLocal(gw, d, e);
    if h == g { LocalJoint(gw, d, e, s.rs, u, rec, unheard); } else { StrangerLocal(gw, d, e, u); }
    assert s.down[h := d] == s.down;
    LinkJoint(s, LocalStep(s, h, e), h, G.Step(gw, e), d, g, u, rec, unheard);
  }

  lemma HandleStepLinks(s: Sys, h: GatewayId, t0: Time, t1: Time, clock: seq<(Time, Time)>)
    requires h in s.gws && h in s.down && s.gws[h].out != []
    ensures var s', (rs', reply) := HandleStep(s, h, t0, t1, clock), Handle(s.rs, s.gws[h].out[0], t0, t1, clock);
      && s'.gws == s.gws[h := TakeRequest(s.gws[h])] && s'.down == s.down[h := AfterReply(s.down[h], reply)] && s'.rs == rs'
  {
    assert s.down[h := s.down[h]] == s.down;
  }

  lemma HandleSysJoint(s: Sys, h: GatewayId, t0: Time, t1: Time, clock: seq<(Time, Time)>,
                       g: GatewayId, u: UserId, rec: Record, unheard: bool)
    returns (rec': Record)
    requires SysJoint(s, g, u, rec, unheard) && h in s.gws && s.gws[h].out != [] && |s.down[h]| < QUEUE_CAPACITY
    requires IsAsk(s.gws[h].out[0]) ==> s.gws[h].out[0].g == h
    ensures SysJoint(HandleStep(s, h, t0, t1, clock), g, u, rec', unheard)
  {
    var gw, d, s' := s.gws[h], s.down[h], HandleStep(s, h, t0, t1, clock);
    var d' := AfterReply(d, Handle(s.rs, gw.out[0], t0, t1, clock).1);
    HandleStepLinks(s, h, t0, t1, clock);
    CalmLinkHandle(gw, d, s.rs, t0, t1, clock);
    if h == g {
      rec' := HandleJoint(gw, d, s.rs, g, u, rec, unheard, t0, t1, clock);
      LinkJoint(s, s', h, TakeRequest(gw), d', g, u, rec', unheard);
    } else {
      rec' := rec;
      StrangerHandle(gw, d, u, s.rs, t0, t1, clock);
      OthersRequest(s.rs, gw.out[0], u, g, rec, t0, t1, clock);
      LinkJoint(s, s', h, TakeRequest(gw), d', g, u, rec, unheard);
    }
  }

  lemma ExpireSysJoint(s: Sys, v: UserId, now: Time, timeout: Time, g: GatewayId, u: UserId, rec: Record, unheard: bool)
    returns (rec': Record)
    requires SysJoint(s, g, u, rec, unheard)
    ensures SysJoint(s.(rs := R.Expire(s.rs, v, now, timeout)), g, u, rec', unheard)
  {
    ExpireRecords(s.rs, v, now, timeout, u, g, rec);
    rec' := rec;
    if v == u && R.TimedOut(s.rs, u, now, timeout) {
      rec' := Nowhere;
      var gw, d := s.gws[g], s.down[g];
      ExpireTogether(rec, ByUser(gw.out, u), AcksOf(d, u), RoomOf(gw, u), unheard);
    }
  }

  /** What the system step does to the mark. */
  ghost predicate UnheardStep(s: Sys, ev: Event, g: GatewayId, u: UserId, before: bool) {
    if ev == GatewayReceives(g) && g in s.gws && g in s.down && s.down[g] != []
    then UnheardAfter(s.gws[g], s.down[g][0], u, before) else before
  }

  lemma ReceiveSysJoint(s: Sys, h: GatewayId, g: GatewayId, u: UserId, rec: Record, unheard: bool)
    requires SysJoint(s, g, u, rec, unheard) && h in s.gws && s.down[h] != [] && G.Wired(s.gws[h])
    ensures SysJoint(ReceiveStep(s, h), g, u, rec, UnheardStep(s, GatewayReceives(h), g, u, unheard))
  {
    var gw, d := s.gws[h], s.down[h];
    CalmLinkReceive(gw, d);
    if h == g { ReceiveJoint(gw, d, s.rs, g, u, rec, unheard); } else { StrangerReceive(gw, d, u); }
    LinkJoint(s, ReceiveStep(s, h), h, Receive(gw, d[0]), d[1..], g, u, rec, UnheardStep(s, GatewayReceives(h), g, u, unheard));
  }

  lemma StepJoint(s: Sys, ev: Event, g: GatewayId, u: UserId, rec: Record, unheard: bool) returns (rec': Record)
    requires AllOrderly(s) && Safe(s) && PatientEvent(s, ev) && Lossless(s, ev) && AtHome(ev, g, u)
    requires SysJoint(s, g, u, rec, unheard)
    ensures SysJoint(Step(s, ev), g, u, rec', UnheardStep(s, ev, g, u, unheard))
  {
    rec' := rec;
    match ev
    case Local(h, e) => if h in s.gws && IsLocal(e) { LocalSysJoint(s, h, e, g, u, rec, unheard); }
    case ServerHandles(h, t0, t1, clock) =>
      if h in s.gws && s.gws[h].out != [] {
        assert Honest(s.gws[h].out, h, s.named);
        rec' := HandleSysJoint(s, h, t0, t1, clock, g, u, rec, unheard);
      }
    case GatewayReceives(h) =>
      if h in s.gws && s.down[h] != [] { ReceiveSysJoint(s, h, g, u, rec, unheard); }
    case ServerExpires(v, now, timeout) => rec' := ExpireSysJoint(s, v, now, timeout, g, u, rec, unheard);
  }

  /** In a run: the last granted answer received for `u` on `g` found no connection. */
  ghost predicate Unheard(s: Sys, es: seq<Event>, g: GatewayId, u: UserId)
    decreases |es|
  {
    es != [] && UnheardStep(Run(s, es[..|es| - 1]), es[|es| - 1], g, u, Unheard(s, es[..|es| - 1], g, u))
  }

  ghost predicate QuietRun(s: Sys, es: seq<Event>, g: GatewayId, u: UserId) {
    forall i :: 0 <= i < |es| ==>
      PatientEvent(Run(s, es[..i]), es[i]) && Lossless(Run(s, es[..i]), es[i]) && AtHome(es[i], g, u)
  }

  lemma {:induction false} RunJoint(ids: set<GatewayId>, n: nat, es: seq<Event>, g: GatewayId, u: UserId) returns (rec: Record)
    requires g in ids && QuietRun(Start(ids, n), es, g, u)
    ensures SysJoint(Run(Start(ids, n), es), g, u, rec, Unheard(Start(ids, n), es, g, u))
    decreases |es|
  {
    if es == [] {
      rec := Nowhere;
    } else {
      var front, ev := es[..|es| - 1], es[|es| - 1];
      assert forall i :: 0 <= i < |front| ==> front[i] == es[i] && front[..i] == es[..i];
      var before := RunJoint(ids, n, front, g, u);
      RunIsOrderly(ids, n, front);
      RunIsSafe(ids, n, front);
      rec := StepJoint(Run(Start(ids, n), front), ev, g, u, before, Unheard(Start(ids, n), front, g, u));
    }
  }

  // ---------------------------------------------------------------- agreement

  /** The Roomserver has `u` online in `r`, hosted by `g`. */
  predicate OnlineAt(rs: R.State, r: RoomId, g: GatewayId, u: UserId) {
    InRoom(rs.rooms, r, u) && rs.rooms[r].members[u].gatewayId == g && rs.rooms[r].members[u].status == Online
  }

  ghost predicate Agree(gw: Gw, rs: R.State, g: GatewayId, u: UserId) {
    forall r :: InGroup(gw.localRooms, r, u) <==> OnlineAt(rs, r, g, u)
  }

  lemma JointAgreeIff(gw: Gw, rs: R.State, g: GatewayId, u: UserId, rec: Record, unheard: bool)
    requires Tidy(gw) && gw.out == [] && Joint(gw, [], rs, g, u, rec, unheard)
    ensures Agree(gw, rs, g, u) <==> !unheard
    ensures unheard ==> (forall r :: !InGroup(gw.localRooms, r, u)) && exists r :: OnlineAt(rs, r, g, u)
  {
    assert NextAll(rec, []) == rec && Base([]) == [];
    forall r ensures OnlineAt(rs, r, g, u) <==> rec == Somewhere(r, Online) {
      assert InRoom(rs.rooms, r, u) ==> rec.Somewhere? && r == rec.r;
    }
    forall r ensures InGroup(gw.localRooms, r, u) <==> RoomOf(gw, u) == Some(r) {
      assert InGroup(gw.localRooms, r, u) <==> ConfirmedIn(gw, u, r);
    }
    if unheard { assert OnlineAt(rs, rec.r, g, u); }
  }

  /**
   * In every run without losses, with patient clients and timeout sweeps, of a user
   * that connects to one Gateway: when that Gateway's queues are empty, it holds the user in exactly
   * the rooms where the Roomserver has it online, if and only if the last granted
   * answer found the user connected.  Otherwise the Roomserver has the user online
   * in a room and the Gateway has it in none.
   */
  lemma AgreementAtRestIff(ids: set<GatewayId>, n: nat, es: seq<Event>, g: GatewayId, u: UserId)
    requires g in ids && QuietRun(Start(ids, n), es, g, u)
    ensures var s := Run(Start(ids, n), es);
      && g in s.gws && g in s.down
      && (s.gws[g].out == [] && s.down[g] == [] ==>
            && (Agree(s.gws[g], s.rs, g, u) <==> !Unheard(Start(ids, n), es, g, u))
            && (Unheard(Start(ids, n), es, g, u) ==>
                  (forall r :: !InGroup(s.gws[g].localRooms, r, u)) && exists r :: OnlineAt(s.rs, r, g, u)))
  {
    var s := Run(Start(ids, n), es);
    var rec := RunJoint(ids, n, es, g, u);
    RunIsOrderly(ids, n, es);
    if s.gws[g].out == [] && s.down[g] == [] {
      assert Orderly(s.gws[g], s.down[g]);
      JointAgreeIff(s.gws[g], s.rs, g, u, rec, Unheard(Start(ids, n), es, g, u));
    }
  }

  /**
   * How it happens: the client closes while its join is Pending; the join is
   * granted, and the answer finds nobody.
   */
  lemma ClosedWhilePending(g: GatewayId, n: nat, c: ConnId, u: UserId, r: RoomId) returns (s: Sys)
    requires HasShard(u, n)
    ensures s == Run(Start({g}, n), [Local(g, G.Connect(c, u)), Local(g, G.ClientJoin(c, r))]
                                    + [Local(g, G.Close(c)), ServerHandles(g, 0, 0, []), GatewayReceives(g)])
    ensures g in s.gws && g in s.down && s.gws[g].out == [] && s.down[g] == []
    ensures s.gws[g].localRooms == map[] && OnlineAt(s.rs, r, g, u)
  {
    var asked := JoinUnderWay(g, n, c, u, r);
    RunOfThree(Start({g}, n), [Local(g, G.Connect(c, u)), Local(g, G.ClientJoin(c, r))],
               Local(g, G.Close(c)), ServerHandles(g, 0, 0, []), GatewayReceives(g));
    PendingCloses(asked.gws[g], c, u, r);
    var closed := Step(asked, Local(g, G.Close(c)));
    assert closed == LocalStep(asked, g, G.Close(c)) && closed.gws[g] == CloseConn(asked.gws[g], c);
    s := GrantUnheard(closed, g, u, r);
  }

  lemma PendingCloses(gw: Gw, c: ConnId, u: UserId, r: RoomId)
    requires c in gw.conns && gw.conns[c].userId == u && gw.conns[c].joinState == Pending && gw.conns[c].open
    ensures var gw' := CloseConn(gw, c); gw'.out == gw.out && gw'.localRooms == gw.localRooms && u !in gw'.connections
  {
  }

  lemma GrantUnheard(s: Sys, g: GatewayId, u: UserId, r: RoomId) returns (s': Sys)
    requires g in s.gws && s.gws[g].out == [JoinReq(u, r, g)] && g in s.down && s.down[g] == [] && s.rs == R.EMPTY
    requires u !in s.gws[g].connections
    ensures s' == Step(Step(s, ServerHandles(g, 0, 0, [])), GatewayReceives(g))
    ensures g in s'.gws && g in s'.down && s'.gws[g].out == [] && s'.down[g] == []
    ensures s'.gws[g].localRooms == s.gws[g].localRooms && OnlineAt(s'.rs, r, g, u)
  {
    var s1 := HandleStep(s, g, 0, 0, []);
    JoinGranted(s, g, u, r);
    HandleStepLinks(s, g, 0, 0, []);
    JoinKeeps(R.EMPTY, u, r, g, Nowhere, 0, 0);
    assert Step(s, ServerHandles(g, 0, 0, [])) == s1 && OnlineAt(s1.rs, r, g, u);
    s' := ReceiveStep(s1, g);
  }
}
