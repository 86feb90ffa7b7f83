/** Runs of the whole system in which a promise of the other modules fails. */
module Scenarios {
  import opened Ids
  import opened Gateway
  import opened Protocol
  import opened TidyRooms
  import opened OneLocalRoom
  import opened RequestOrder
  import G = GatewayRuns
  import R = Roomserver
  import RR = RoomserverRuns
  import Rooms

  // ---------------------------------------------------------------- building runs

  lemma RunOne(s: Sys, ev: Event)
    ensures Run(s, [ev]) == Step(s, ev)
  {
    assert [ev][..0] == [];
  }

  /** A join is sent, granted and confirmed. */
  lemma JoinsInRun(s: Sys, g: GatewayId, d: ConnId, u: UserId, r: RoomId) returns (s': Sys)
    requires g in s.gws && g in s.down && s.down[g] == [] && s.gws[g].out == [] && !s.gws[g].degraded && s.gws[g].id == g
    requires u in s.gws[g].connections && s.gws[g].connections[u] == d
    requires d in s.gws[g].conns && s.gws[g].conns[d].userId == u
    ensures s' == Run(s, [] + [Local(g, G.ClientJoin(d, r)), ServerHandles(g, 0, 0, []), GatewayReceives(g)])
    ensures s'.gws == s.gws[g := OnJoinAck(s.gws[g], u, r, true)] && s'.down == s.down
    ensures s'.rs == R.Join(s.rs, u, r, g, 0, 0)
  {
    RunOfThree(s, [], Local(g, G.ClientJoin(d, r)), ServerHandles(g, 0, 0, []), GatewayReceives(g));
    var s1 := LocalStep(s, g, G.ClientJoin(d, r));
    JoinAsked(s.gws[g], d, r);
    var s2 := HandleStep(s1, g, 0, 0, []);
    JoinGranted(s1, g, u, r);
    assert s2 == Step(s1, ServerHandles(g, 0, 0, []));
    s' := ReceiveStep(s2, g);
    JoinConfirmed(s.gws[g], d, u, r);
    assert s'.gws == s.gws[g := s'.gws[g]];
    assert s2.down[g] == [JoinAck(u, r, true)] && s'.down == s.down;
  }

  lemma JoinAsked(gw: Gw, d: ConnId, r: RoomId)
    requires d in gw.conns && !gw.degraded && gw.out == []
    ensures HandleJoin(gw, d, r) == SetJoin(gw, d, Pending, r).(out := [JoinReq(gw.conns[d].userId, r, gw.id)])
  {
  }

  lemma JoinConfirmed(gw: Gw, d: ConnId, u: UserId, r: RoomId)
    requires gw.out == [] && u in gw.connections && gw.connections[u] == d && d in gw.conns
    ensures var asked := SetJoin(gw, d, Pending, r).(out := [JoinReq(u, r, gw.id)]);
      OnJoinAck(TakeRequest(asked), u, r, true) == OnJoinAck(gw, u, r, true)
  {
    var asked := SetJoin(gw, d, Pending, r).(out := [JoinReq(u, r, gw.id)]);
    assert TakeRequest(asked) == SetJoin(gw, d, Pending, r);
    assert SetJoin(SetJoin(gw, d, Pending, r), d, Confirmed, r) == SetJoin(gw, d, Confirmed, r);
  }

  /** Nothing of the Gateway changes but connections and their indexes. */
  ghost predicate SameBut(gw: Gw, gw': Gw) {
    && gw' == gw.(conns := gw'.conns, connections := gw'.connections, localUsers := gw'.localUsers, shards := gw'.shards)
    && forall d :: d in gw.conns ==> d in gw'.conns && gw'.conns[d].userId == gw.conns[d].userId
  }

  lemma ClosesQuietly(gw: Gw, c: ConnId)
    requires c in gw.conns && gw.conns[c].joinState != Confirmed
    ensures SameBut(gw, CloseConn(gw, c))
  {
  }

  lemma Assigns(gw: Gw, c: ConnId, u: UserId)
    requires c !in gw.conns
    ensures var gw' := Assign(Register(gw, c, u), c, u);
      && SameBut(gw, gw') && c in gw'.conns && gw'.conns[c].userId == u && gw'.conns[c].joinState == Init
      && u in gw'.connections && gw'.connections[u] == c
  {
  }

  /** A user that is in no room connects. */
  lemma Connects(gw: Gw, c: ConnId, u: UserId)
    requires G.Wired(gw) && c !in gw.conns && RoomOf(gw, u) == None
    ensures var gw' := AddConnection(gw, c, u);
      && G.Wired(gw') && SameBut(gw, gw') && c in gw'.conns && gw'.conns[c].userId == u && gw'.conns[c].joinState == Init
      && u in gw'.connections && gw'.connections[u] == c
  {
    G.ConnectKeepsWired(gw, c, u);
    G.ReplacedIsGone(gw, c, u);
    if u in gw.connections { ClosesQuietly(gw, gw.connections[u]); }
    Assigns(if u in gw.connections then CloseConn(gw, gw.connections[u]) else gw, c, u);
  }

  // ---------------------------------------------------------------- a leave from a replaced connection

  /**
   * A client connects, reconnects, joins on the new connection and is confirmed;
   * then a leave read from the old connection is handled.
   */
  lemma ReplacedConnectionLeaves(g: GatewayId, n: nat, c: ConnId, d: ConnId, u: UserId, r: RoomId) returns (s: Sys)
    requires HasShard(u, n) && c != d
    ensures s == Run(Run(Start({g}, n), [Local(g, G.Connect(c, u)), Local(g, G.Connect(d, u))]),
                     [] + [Local(g, G.ClientJoin(d, r)), ServerHandles(g, 0, 0, []), GatewayReceives(g)]
                     + [Local(g, G.ClientLeave(c, r))])
    ensures g in s.gws && G.Registered(s.gws[g], d) && ConfirmedIn(s.gws[g], u, r) && !InGroup(s.gws[g].localRooms, r, u)
  {
    var s2 := Reconnected(g, n, c, d, u);
    var s3 := JoinsInRun(s2, g, d, u, r);
    RunSnoc(s2, [] + [Local(g, G.ClientJoin(d, r)), ServerHandles(g, 0, 0, []), GatewayReceives(g)], Local(g, G.ClientLeave(c, r)));
    s := Step(s3, Local(g, G.ClientLeave(c, r)));
    assert s == LocalStep(s3, g, G.ClientLeave(c, r));
    G.ConfirmedThenLeft(s2.gws[g], c, d, r);
  }

  lemma Reconnected(g: GatewayId, n: nat, c: ConnId, d: ConnId, u: UserId) returns (s: Sys)
    requires c != d
    ensures s == Run(Start({g}, n), [Local(g, G.Connect(c, u)), Local(g, G.Connect(d, u))])
    ensures g in s.gws && g in s.down && s.down[g] == [] && s.rs == R.EMPTY
    ensures var gw := s.gws[g];
      && gw.out == [] && !gw.degraded && gw.id == g && G.Registered(gw, d) && gw.conns[d].userId == u
      && c in gw.conns && gw.conns[c].userId == u && u in gw.connections
  {
    var s0, first, second := Start({g}, n), Local(g, G.Connect(c, u)), Local(g, G.Connect(d, u));
    RunSnoc(s0, [], first);
    RunSnoc(s0, [first], second);
    assert [] + [first] == [first] && [first] + [second] == [first, second];
    var s1 := Step(s0, first);
    LocalGives(s0, g, first.e);
    FirstConnects(g, n, c, d, u);
    s := Step(s1, second);
    LocalGives(s1, g, second.e);
    Connects(s1.gws[g], d, u);
  }

  lemma FirstConnects(g: GatewayId, n: nat, c: ConnId, d: ConnId, u: UserId)
    requires c != d
    ensures var gw := AddConnection(G.Start(g, n), c, u);
      && G.Step(G.Start(g, n), G.Connect(c, u)) == gw && G.Wired(gw) && RoomOf(gw, u) == None
      && gw.conns.Keys == {c} && gw.conns[c].userId == u && gw.out == [] && !gw.degraded && gw.id == g
  {
    Connects(G.Start(g, n), c, u);
  }

  // ---------------------------------------------------------------- a confirmed user

  /** A client connects, joins, and is confirmed. */
  lemma ConfirmedAlone(g: GatewayId, n: nat, c: ConnId, u: UserId, r: RoomId) returns (s: Sys)
    ensures s == Run(Run(Start({g}, n), [Local(g, G.Connect(c, u))]),
                     [] + [Local(g, G.ClientJoin(c, r)), ServerHandles(g, 0, 0, []), GatewayReceives(g)])
    ensures g in s.gws && g in s.down && s.down[g] == [] && s.rs == R.Join(R.EMPTY, u, r, g, 0, 0)
    ensures ConfirmedHere(s.gws[g], g, c, u, r)
  {
    RunOne(Start({g}, n), Local(g, G.Connect(c, u)));
    var s1 := LocalStep(Start({g}, n), g, G.Connect(c, u));
    Connects(G.Start(g, n), c, u);
    s := JoinsInRun(s1, g, c, u, r);
    ConfirmsHere(s1.gws[g], g, c, u, r);
  }

  ghost predicate ConfirmedHere(gw: Gw, g: GatewayId, c: ConnId, u: UserId, r: RoomId) {
    && G.Wired(gw) && gw.id == g && gw.out == [] && !gw.degraded && gw.pendingLeaves == [] && gw.pendingDisconnects == []
    && G.Registered(gw, c) && gw.conns[c].userId == u && ConfirmedIn(gw, u, r) && gw.conns.Keys == {c}
    && gw.localRooms == map[r := {u}]
  }

  lemma ConfirmsHere(gw: Gw, g: GatewayId, c: ConnId, u: UserId, r: RoomId)
    requires G.Wired(gw) && gw.id == g && gw.out == [] && !gw.degraded && gw.pendingLeaves == [] && gw.pendingDisconnects == []
    requires gw.conns.Keys == {c} && gw.conns[c].userId == u && u in gw.connections && gw.connections[u] == c
    requires gw.localRooms == map[]
    ensures ConfirmedHere(OnJoinAck(gw, u, r, true), g, c, u, r)
  {
    G.StepKeepsWired(gw, G.JoinAcked(u, r, true));
    FirstOfGroup(r, u);
  }

  lemma FirstOfGroup(r: RoomId, u: UserId)
    ensures GroupAdd(map[], r, u) == map[r := {u}]
  {
    var none: set<UserId> := {};
    assert none + {u} == {u};
  }

  // ---------------------------------------------------------------- a stale resync pair

  /** The user has the room on the Roomserver, online, and on its Gateway not. */
  predicate HeldForNobody(s: Sys, g: GatewayId, u: UserId, r: RoomId) {
    && g in s.gws && s.gws[g].out == [] && !InGroup(s.gws[g].localRooms, r, u)
    && Rooms.InRoom(s.rs.rooms, r, u) && s.rs.rooms[r].members[u].status == Online
  }

  /**
   * A confirmed user leaves between the snapshot of a resync and the sending of
   * its batch: the leave is handled first, and the batch brings the user back.
   */
  lemma StalePairIsHeld(s: Sys, g: GatewayId, c: ConnId, u: UserId, r: RoomId) returns (s': Sys)
    requires g in s.gws && g in s.down && ConfirmedHere(s.gws[g], g, c, u, r)
    ensures s' == Run(Run(s, [ServerCrashes] + [Local(g, G.ClientLeave(c, r))] + [Local(g, G.Resend([UserRoomPair(u, r)]))]),
                      [ServerHandles(g, 0, 0, [])] + [ServerHandles(g, 0, 0, [(0, 0)])])
    ensures HeldForNobody(s', g, u, r)
  {
    var leave, resend := Local(g, G.ClientLeave(c, r)), Local(g, G.Resend([UserRoomPair(u, r)]));
    RunOne(s, ServerCrashes);
    RunSnoc(s, [ServerCrashes], leave);
    RunSnoc(s, [ServerCrashes] + [leave], resend);
    var s1 := s.(rs := R.EMPTY);
    var s2 := LocalStep(s1, g, leave.e);
    var s3 := LocalStep(s2, g, resend.e);
    LeavesThenResends(s.gws[g], g, c, u, r);
    s' := StaleHandled(s3, g, u, r);
  }

  lemma LeavesThenResends(gw: Gw, g: GatewayId, c: ConnId, u: UserId, r: RoomId)
    requires ConfirmedHere(gw, g, c, u, r)
    ensures var gw' := Send(HandleLeave(gw, c, r), BatchReq(g, [UserRoomPair(u, r)]));
      gw'.out == [LeaveReq(u, r), BatchReq(g, [UserRoomPair(u, r)])] && gw'.localRooms == map[] && gw'.id == g
  {
  }

  lemma StaleHandled(s: Sys, g: GatewayId, u: UserId, r: RoomId) returns (s': Sys)
    requires g in s.gws && g in s.down && s.rs == R.EMPTY && s.gws[g].localRooms == map[]
    requires s.gws[g].out == [LeaveReq(u, r), BatchReq(g, [UserRoomPair(u, r)])]
    ensures s' == Run(s, [ServerHandles(g, 0, 0, [])] + [ServerHandles(g, 0, 0, [(0, 0)])])
    ensures HeldForNobody(s', g, u, r)
  {
    RunOne(s, ServerHandles(g, 0, 0, []));
    RunSnoc(s, [ServerHandles(g, 0, 0, [])], ServerHandles(g, 0, 0, [(0, 0)]));
    var s1 := HandleStep(s, g, 0, 0, []);
    assert s1.gws[g].out == [BatchReq(g, [UserRoomPair(u, r)])] && s1.rs == R.EMPTY;
    PairJoins(g, u, r);
    s' := HandleStep(s1, g, 0, 0, [(0, 0)]);
    assert s'.rs == R.Join(R.EMPTY, u, r, g, 0, 0);
  }

  lemma PairJoins(g: GatewayId, u: UserId, r: RoomId)
    ensures R.Run(R.EMPTY, R.BatchEvents(g, [UserRoomPair(u, r)], [(0, 0)])) == R.Join(R.EMPTY, u, r, g, 0, 0)
  {
    var es := R.BatchEvents(g, [UserRoomPair(u, r)], [(0, 0)]);
    assert es == [R.JoinEvent(u, r, g, 0, 0)] && es[..0] == [];
  }

  // ---------------------------------------------------------------- a resume that overtakes a disconnect

  /** A user confirmed by its Gateway is disconnected for the Roomserver, whose sweep will remove it. */
  predicate ConfirmedButGone(s: Sys, g: GatewayId, u: UserId, r: RoomId) {
    && g in s.gws && s.gws[g].out == [] && ConfirmedIn(s.gws[g], u, r)
    && u in s.rs.sessions && s.rs.sessions[u].status == Disconnected
  }

  lemma ResumeAnswered(s: Sys, g: GatewayId, u: UserId, r: RoomId) returns (s': Sys)
    requires g in s.gws && g in s.down && s.down[g] == [] && s.gws[g].out == [ResumeReq(u, r, g), DisconnectReq(u, r, g)]
    requires u in s.gws[g].connections && s.gws[g].connections[u] in s.gws[g].conns
    requires RR.Mirror(s.rs) && Rooms.InRoom(s.rs.rooms, r, u)
    ensures s' == Run(s, [] + [ServerHandles(g, 0, 0, []), ServerHandles(g, 0, 0, []), GatewayReceives(g)])
    ensures ConfirmedButGone(s', g, u, r)
  {
    RunOfThree(s, [], ServerHandles(g, 0, 0, []), ServerHandles(g, 0, 0, []), GatewayReceives(g));
    ResumedThenDisconnected(s.rs, u, r, g, 0, 0, 0);
    var s1 := Step(s, ServerHandles(g, 0, 0, []));
    ResumeGranted(s, g, u, r);
    var s2 := Step(s1, ServerHandles(g, 0, 0, []));
    DisconnectHandled(s1, g, u, r);
    s' := Step(s2, GatewayReceives(g));
    AckReceived(s2, g, u, r);
    AckKeepsServer(s2, g);
  }

  lemma ResumeGranted(s: Sys, g: GatewayId, u: UserId, r: RoomId)
    requires g in s.gws && g in s.down && s.down[g] == [] && s.gws[g].out == [ResumeReq(u, r, g), DisconnectReq(u, r, g)]
    requires R.ResumeCode(s.rs, u, r).0 == R.ERR_SUCCESS
    ensures var s' := Step(s, ServerHandles(g, 0, 0, []));
      && g in s'.gws && s'.gws[g] == s.gws[g].(out := [DisconnectReq(u, r, g)]) && g in s'.down
      && s'.down[g] == [JoinAck(u, r, true)] && s'.rs == R.Resume(s.rs, u, r, g, 0)
  {
  }

  lemma DisconnectHandled(s: Sys, g: GatewayId, u: UserId, r: RoomId)
    requires g in s.gws && g in s.down && s.gws[g].out == [DisconnectReq(u, r, g)]
    ensures var s' := Step(s, ServerHandles(g, 0, 0, []));
      && g in s'.gws && s'.gws[g] == s.gws[g].(out := []) && s'.down == s.down && s'.rs == R.Disconnect(s.rs, u, r, 0, 0)
  {
  }

  lemma AckKeepsServer(s: Sys, g: GatewayId)
    ensures Step(s, GatewayReceives(g)).rs == s.rs
  {
  }

  /**
   * A confirmed user of a degraded Gateway reconnects and resumes; the Gateway
   * recovers and drains, and the Roomserver handles both requests and answers.
   */
  lemma ResumeThenGone(s: Sys, g: GatewayId, c: ConnId, d: ConnId, u: UserId, r: RoomId) returns (s': Sys)
    requires g in s.gws && g in s.down && s.down[g] == [] && ConfirmedHere(s.gws[g], g, c, u, r) && d != c && r != NO_ROOM
    requires RR.Mirror(s.rs) && Rooms.InRoom(s.rs.rooms, r, u)
    ensures s' == Run(Run(s, [Local(g, G.Degrade)] + [Local(g, G.Connect(d, u))] + [Local(g, G.ClientResume(d, r))]
                             + [Local(g, G.Recover)] + [Local(g, G.DrainParked)]),
                      [] + [ServerHandles(g, 0, 0, []), ServerHandles(g, 0, 0, []), GatewayReceives(g)])
    ensures ConfirmedButGone(s', g, u, r)
  {
    var gw := s.gws[g].(degraded := true);
    var e1, e2, e3 := Local(g, G.Degrade), Local(g, G.Connect(d, u)), Local(g, G.ClientResume(d, r));
    var e4, e5 := Local(g, G.Recover), Local(g, G.DrainParked);
    RunOne(s, e1);
    RunSnoc(s, [e1], e2);
    RunSnoc(s, [e1] + [e2], e3);
    RunSnoc(s, [e1] + [e2] + [e3], e4);
    RunSnoc(s, [e1] + [e2] + [e3] + [e4], e5);
    assert G.Wired(gw) && Parked(gw) == [];
    ResumeOvertakesDisconnect(gw, c, d, r);
    var resumed := ResumedThenDrained(s, g, d, u, r);
    s' := ResumeAnswered(resumed, g, u, r);
  }

  lemma ResumedThenDrained(s: Sys, g: GatewayId, d: ConnId, u: UserId, r: RoomId) returns (s': Sys)
    requires g in s.gws && d !in s.gws[g].conns && d in AddConnection(s.gws[g].(degraded := true), d, u).conns
    ensures s' == Step(Step(Step(Step(Step(s, Local(g, G.Degrade)), Local(g, G.Connect(d, u))), Local(g, G.ClientResume(d, r))),
                            Local(g, G.Recover)), Local(g, G.DrainParked))
    ensures g in s'.gws && s'.down == s.down && s'.rs == s.rs
    ensures s'.gws[g] == Drain(HandleResume(AddConnection(s.gws[g].(degraded := true), d, u), d, r).(degraded := false))
    ensures u in s'.gws[g].connections && s'.gws[g].connections[u] == d && d in s'.gws[g].conns
  {
    var resumed := ResumesWhileDegraded(s, g, d, u, r);
    s' := RecoversAndDrains(resumed, g);
  }

  lemma RecoversAndDrains(s: Sys, g: GatewayId) returns (s': Sys)
    requires g in s.gws
    ensures s' == Step(Step(s, Local(g, G.Recover)), Local(g, G.DrainParked))
    ensures g in s'.gws && s'.down == s.down && s'.rs == s.rs && s'.gws[g] == Drain(s.gws[g].(degraded := false))
    ensures s'.gws[g].connections == s.gws[g].connections && s'.gws[g].conns == s.gws[g].conns
  {
    var s1 := Step(s, Local(g, G.Recover));
    LocalGives(s, g, G.Recover);
    s' := Step(s1, Local(g, G.DrainParked));
    LocalGives(s1, g, G.DrainParked);
    G.DrainOnlySends(s1.gws[g]);
  }

  lemma ResumesWhileDegraded(s: Sys, g: GatewayId, d: ConnId, u: UserId, r: RoomId) returns (s': Sys)
    requires g in s.gws && d !in s.gws[g].conns && d in AddConnection(s.gws[g].(degraded := true), d, u).conns
    ensures s' == Step(Step(Step(s, Local(g, G.Degrade)), Local(g, G.Connect(d, u))), Local(g, G.ClientResume(d, r)))
    ensures g in s'.gws && s'.down == s.down && s'.rs == s.rs
    ensures s'.gws[g] == HandleResume(AddConnection(s.gws[g].(degraded := true), d, u), d, r)
    ensures u in s'.gws[g].connections && s'.gws[g].connections[u] == d && d in s'.gws[g].conns
  {
    var s1 := Step(s, Local(g, G.Degrade));
    LocalGives(s, g, G.Degrade);
    var s2 := Step(s1, Local(g, G.Connect(d, u)));
    LocalGives(s1, g, G.Connect(d, u));
    ConnectRegisters(s1.gws[g], d, u);
    s' := Step(s2, Local(g, G.ClientResume(d, r)));
    LocalGives(s2, g, G.ClientResume(d, r));
  }

  lemma ConnectRegisters(gw: Gw, d: ConnId, u: UserId)
    ensures var gw' := AddConnection(gw, d, u); u in gw'.connections && gw'.connections[u] == d && d in gw'.conns
  {
  }

  lemma LocalGives(s: Sys, g: GatewayId, e: G.Event)
    requires g in s.gws && IsLocal(e)
    ensures var s' := Step(s, Local(g, e));
      g in s'.gws && s'.gws[g] == G.Step(s.gws[g], e) && s'.down == s.down && s'.rs == s.rs
  {
  }

  // ---------------------------------------------------------------- from the start

  lemma JoinedMirrors(u: UserId, r: RoomId, g: GatewayId)
    ensures RR.Mirror(R.Join(R.EMPTY, u, r, g, 0, 0)) && Rooms.InRoom(R.Join(R.EMPTY, u, r, g, 0, 0).rooms, r, u)
  {
    RR.StepKeepsMirrorIff(R.EMPTY, R.JoinEvent(u, r, g, 0, 0));
  }

  /** From the start of the system: the overtaken disconnect removes a user that its Gateway confirms. */
  lemma ResumedUserIsGone(g: GatewayId, n: nat, c: ConnId, d: ConnId, u: UserId, r: RoomId) returns (confirmed: Sys, s: Sys)
    requires HasShard(u, n) && c != d && r != NO_ROOM
    ensures confirmed == Run(Run(Start({g}, n), [Local(g, G.Connect(c, u))]),
                             [] + [Local(g, G.ClientJoin(c, r)), ServerHandles(g, 0, 0, []), GatewayReceives(g)])
    ensures s == Run(Run(confirmed, [Local(g, G.Degrade)] + [Local(g, G.Connect(d, u))] + [Local(g, G.ClientResume(d, r))]
                                    + [Local(g, G.Recover)] + [Local(g, G.DrainParked)]),
                     [] + [ServerHandles(g, 0, 0, []), ServerHandles(g, 0, 0, []), GatewayReceives(g)])
    ensures ConfirmedButGone(s, g, u, r)
  {
    confirmed := ConfirmedAlone(g, n, c, u, r);
    JoinedMirrors(u, r, g);
    s := ResumeThenGone(confirmed, g, c, d, u, r);
  }

  /** From the start of the system: a stale pair brings back a user that has left. */
  lemma LeftUserIsBack(g: GatewayId, n: nat, c: ConnId, u: UserId, r: RoomId) returns (confirmed: Sys, s: Sys)
    requires HasShard(u, n)
    ensures confirmed == Run(Run(Start({g}, n), [Local(g, G.Connect(c, u))]),
                             [] + [Local(g, G.ClientJoin(c, r)), ServerHandles(g, 0, 0, []), GatewayReceives(g)])
    ensures s == Run(Run(confirmed, [ServerCrashes] + [Local(g, G.ClientLeave(c, r))] + [Local(g, G.Resend([UserRoomPair(u, r)]))]),
                     [ServerHandles(g, 0, 0, [])] + [ServerHandles(g, 0, 0, [(0, 0)])])
    ensures HeldForNobody(s, g, u, r)
  {
    confirmed := ConfirmedAlone(g, n, c, u, r);
    s := StalePairIsHeld(confirmed, g, c, u, r);
  }

  // ---------------------------------------------------------------- a close that misses a Gateway

  /** A room is gone, nothing is on its way to the Gateway, and the Gateway still has the user Confirmed in it. */
  predicate HeldInNoRoom(s: Sys, g: GatewayId, u: UserId, r: RoomId) {
    && r !in s.rs.rooms && g in s.gws && g in s.down && s.down[g] == []
    && InGroup(s.gws[g].localRooms, r, u) && ConfirmedIn(s.gws[g], u, r)
  }

  /** A user joins through one Gateway and then another room through another; the first room is closed. */
  lemma CloseMissesGateway(g: GatewayId, h: GatewayId, n: nat, c: ConnId, d: ConnId, u: UserId, r: RoomId, q: RoomId)
    returns (moved: Sys, s: Sys)
    requires HasShard(u, n) && g != h && r != q && r != NO_ROOM
    ensures moved == Run(Run(Run(Run(Start({g, h}, n),
        [Local(g, G.Connect(c, u))]),
        [] + [Local(g, G.ClientJoin(c, r)), ServerHandles(g, 0, 0, []), GatewayReceives(g)]),
        [Local(h, G.Connect(d, u))]),
        [] + [Local(h, G.ClientJoin(d, q)), ServerHandles(h, 0, 0, []), GatewayReceives(h)])
    ensures s == Run(moved, [ServerCloses(r)])
    ensures HeldInNoRoom(s, g, u, r)
  {
    var s0 := Start({g, h}, n);
    RunOne(s0, Local(g, G.Connect(c, u)));
    var s1 := Step(s0, Local(g, G.Connect(c, u)));
    ConnectsFirst(s0, g, n, c, u);
    var s2 := JoinsInRun(s1, g, c, u, r);
    RunOne(s2, Local(h, G.Connect(d, u)));
    var s3 := Step(s2, Local(h, G.Connect(d, u)));
    ConnectsFirst(s2, h, n, d, u);
    moved := JoinsInRun(s3, h, d, u, q);
    RunOne(moved, ServerCloses(r));
    s := Step(moved, ServerCloses(r));
    MovedLeavesNoView(u, r, g, q, h);
    NobodyTold(moved, r, g);
  }

  lemma ConnectsFirst(s: Sys, g: GatewayId, n: nat, c: ConnId, u: UserId)
    requires g in s.gws && s.gws[g] == G.Start(g, n)
    ensures var s' := Step(s, Local(g, G.Connect(c, u)));
      && g in s'.gws && s'.gws == s.gws[g := s'.gws[g]] && s'.down == s.down && s'.rs == s.rs
      && var gw := s'.gws[g];
         && u in gw.connections && gw.connections[u] == c && c in gw.conns && gw.conns[c].userId == u
         && gw.out == [] && !gw.degraded && gw.id == g && gw.localRooms == map[]
  {
    Connects(G.Start(g, n), c, u);
  }

  lemma MovedLeavesNoView(u: UserId, r: RoomId, g: GatewayId, q: RoomId, h: GatewayId)
    requires g != h && r != q && r != NO_ROOM
    ensures var rs := R.Join(R.Join(R.EMPTY, u, r, g, 0, 0), u, q, h, 0, 0);
      r in rs.rooms && rs.rooms[r].gateways == map[]
  {
    var first := R.Join(R.EMPTY, u, r, g, 0, 0);
    assert first.rooms[r].gateways == map[g := {u}] by { FirstOfGroup(g, u); }
  }

  lemma NobodyTold(s: Sys, r: RoomId, g: GatewayId)
    requires r in s.rs.rooms && s.rs.rooms[r].gateways == map[] && g in s.down
    ensures var s' := Step(s, ServerCloses(r)); r !in s'.rs.rooms && s'.gws == s.gws && g in s'.down && s'.down[g] == s.down[g]
  {
  }
}
