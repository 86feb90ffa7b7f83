/**
 * Local rooms and confirmed connections, without any client discipline: exactly
 * which events separate a local room from the connections Confirmed in it.
 */
module TidyRooms {
  import opened Ids
  import opened Gateway
  import opened GatewayRuns

  predicate ConfirmedIn(s: Gw, u: UserId, r: RoomId) {
    && u in s.connections && s.connections[u] in s.conns
    && s.conns[s.connections[u]].joinState == Confirmed && s.conns[s.connections[u]].roomId == r
  }

  /** The room the user's registered connection is Confirmed in. */
  function RoomOf(s: Gw, u: UserId): (r: Option<RoomId>)
    ensures forall q :: ConfirmedIn(s, u, q) <==> r == Some(q)
  {
    if u in s.connections && s.connections[u] in s.conns && s.conns[s.connections[u]].joinState == Confirmed
    then Some(s.conns[s.connections[u]].roomId) else None
  }

  /** A user is in a local room exactly when its registered connection is Confirmed in that room. */
  ghost predicate Tidy(s: Gw) {
    forall u, r :: InGroup(s.localRooms, r, u) <==> ConfirmedIn(s, u, r)
  }

  // ---------------------------------------------------------------- the exact condition

  /** A client message that moves a connection to another state while the local rooms keep the old one, or the reverse. */
  ghost predicate ClientBreaksTidy(s: Gw, e: Event)
    requires IsClient(e)
  {
    && e.c in s.conns
    && var u := s.conns[e.c].userId;
       match e
       case ClientJoin(c, _) => !s.degraded && Registered(s, c) && RoomOf(s, u).Some?
       case ClientResume(c, _) => Registered(s, c) && RoomOf(s, u).Some?
       case ClientHeartbeat(c, r, found) =>
         MayFind(s, u, found) && r != NO_ROOM && found != r && Registered(s, c) && RoomOf(s, u).Some?
       case ClientLeave(c, r) =>
         if Registered(s, c) then RoomOf(s, u).Some? && RoomOf(s, u) != Some(r) else RoomOf(s, u) == Some(r)
  }

  /**
   * The events that break it: a join, resume or healing heartbeat of a Confirmed
   * user; a leave, a leave answer or a join answer that concerns another room
   * than the Confirmed one; a failed join of a Confirmed user; a leave read from
   * a replaced connection; and the end of a connection Confirmed in "".
   */
  ghost predicate BreaksTidy(s: Gw, e: Event) {
    if IsClient(e) then ClientBreaksTidy(s, e)
    else
      match e
      case Connect(c, u) => c !in s.conns && RoomOf(s, u) == Some(NO_ROOM)
      case Close(c) => Registered(s, c) && RoomOf(s, s.conns[c].userId) == Some(NO_ROOM)
      case JoinAcked(u, r, success) => RoomOf(s, u).Some? && !(success && RoomOf(s, u) == Some(r))
      case LeaveAcked(u, r) => RoomOf(s, u).Some? && RoomOf(s, u) != Some(r)
      case _ => false
  }

  // ---------------------------------------------------------------- event by event

  /** Every end of a connection gives up its room, except the room "". */
  lemma CloseKeepsTidyIff(s: Gw, c: ConnId)
    requires Wired(s) && Tidy(s)
    ensures Tidy(CloseConn(s, c)) <==> !BreaksTidy(s, Close(c))
  {
    if Registered(s, c) {
      var u, s' := s.conns[c].userId, CloseConn(s, c);
      ClosePlaces(s, c);
      if RoomOf(s, u) == Some(NO_ROOM) {
        assert InGroup(s.localRooms, NO_ROOM, u);
        assert InGroup(s'.localRooms, NO_ROOM, u) && !ConfirmedIn(s', u, NO_ROOM);
      }
    }
  }

  lemma ClosePlaces(s: Gw, c: ConnId)
    requires Wired(s) && Registered(s, c)
    ensures var s', u := CloseConn(s, c), s.conns[c].userId;
      && (forall v, r :: ConfirmedIn(s', v, r) <==> v != u && ConfirmedIn(s, v, r))
      && (forall v, r :: InGroup(s'.localRooms, r, v) <==>
            InGroup(s.localRooms, r, v) && !(v == u && r != NO_ROOM && RoomOf(s, u) == Some(r)))
  {
    GroupDropMembers(s.localRooms, s.conns[c].roomId, s.conns[c].userId);
  }

  lemma NewConnectionPlacesNobody(s: Gw, c: ConnId, u: UserId)
    requires u !in s.connections && c !in s.conns
    ensures var s' := Assign(Register(s, c, u), c, u);
      && s'.out == s.out && s'.localRooms == s.localRooms
      && forall v, r :: ConfirmedIn(s', v, r) <==> ConfirmedIn(s, v, r)
  {
  }

  lemma ConnectKeepsTidyIff(s: Gw, c: ConnId, u: UserId)
    requires Wired(s) && Tidy(s) && c !in s.conns
    ensures Tidy(AddConnection(s, c, u)) <==> RoomOf(s, u) != Some(NO_ROOM)
  {
    var s1 := if u in s.connections then CloseConn(s, s.connections[u]) else s;
    ReplacedIsGone(s, c, u);
    if u in s.connections { CloseKeepsTidyIff(s, s.connections[u]); }
    NewConnectionPlacesNobody(s1, c, u);
    SamePlaces(s1, AddConnection(s, c, u));
  }

  lemma SamePlaces(s: Gw, s': Gw)
    requires s'.localRooms == s.localRooms && forall v, r :: ConfirmedIn(s', v, r) <==> ConfirmedIn(s, v, r)
    ensures Tidy(s') <==> Tidy(s)
  {
  }

  /** A connection that asks again while Confirmed stays in its local room. */
  lemma AskKeepsTidyIff(s: Gw, c: ConnId, r: RoomId, s': Gw)
    requires Wired(s) && Tidy(s) && c in s.conns && s' == SetJoin(s, c, Pending, r).(out := s'.out)
    ensures Tidy(s') <==> !(Registered(s, c) && RoomOf(s, s.conns[c].userId).Some?)
  {
    var u := s.conns[c].userId;
    forall v, q ensures ConfirmedIn(s', v, q) <==> !(Registered(s, c) && v == u) && ConfirmedIn(s, v, q) {}
    if Registered(s, c) && RoomOf(s, u).Some? {
      var q := RoomOf(s, u).value;
      assert InGroup(s'.localRooms, q, u) && !ConfirmedIn(s', u, q);
    }
  }

  lemma LeaveKeepsTidyIff(s: Gw, c: ConnId, r: RoomId)
    requires Wired(s) && Tidy(s) && c in s.conns
    ensures Tidy(HandleLeave(s, c, r)) <==> !BreaksTidy(s, ClientLeave(c, r))
  {
    var u, s' := s.conns[c].userId, HandleLeave(s, c, r);
    LeavePlaces(s, c, r);
    if BreaksTidy(s, ClientLeave(c, r)) {
      var q := RoomOf(s, u).value;
      assert InGroup(s.localRooms, q, u);
      assert InGroup(s'.localRooms, q, u) != ConfirmedIn(s', u, q);
    }
  }

  lemma LeavePlaces(s: Gw, c: ConnId, r: RoomId)
    requires Wired(s) && c in s.conns
    ensures var s', u := HandleLeave(s, c, r), s.conns[c].userId;
      && (forall v, q :: ConfirmedIn(s', v, q) <==> !(Registered(s, c) && v == u) && ConfirmedIn(s, v, q))
      && (forall v, q :: InGroup(s'.localRooms, q, v) <==> InGroup(s.localRooms, q, v) && !(q == r && v == u))
  {
    GroupDropMembers(s.localRooms, r, s.conns[c].userId);
  }

  lemma JoinAckPlaces(s: Gw, u: UserId, r: RoomId, success: bool)
    requires Wired(s) && u in s.connections
    ensures var s' := OnJoinAck(s, u, r, success);
      && (forall v, q :: ConfirmedIn(s', v, q) <==> if v == u then success && q == r else ConfirmedIn(s, v, q))
      && (forall v, q :: InGroup(s'.localRooms, q, v) <==> InGroup(s.localRooms, q, v) || (success && q == r && v == u))
  {
    GroupAddMembers(s.localRooms, r, u);
  }

  lemma JoinAckKeepsTidyIff(s: Gw, u: UserId, r: RoomId, success: bool)
    requires Wired(s) && Tidy(s)
    ensures Tidy(OnJoinAck(s, u, r, success)) <==> !BreaksTidy(s, JoinAcked(u, r, success))
  {
    if u in s.connections {
      var s' := OnJoinAck(s, u, r, success);
      JoinAckPlaces(s, u, r, success);
      if BreaksTidy(s, JoinAcked(u, r, success)) {
        var q := RoomOf(s, u).value;
        assert InGroup(s.localRooms, q, u);
        assert InGroup(s'.localRooms, q, u) && !ConfirmedIn(s', u, q);
      }
    }
  }

  lemma LeaveAckPlaces(s: Gw, u: UserId, r: RoomId)
    requires Wired(s)
    ensures var s' := OnLeaveAck(s, u, r);
      && (forall v, q :: ConfirmedIn(s', v, q) <==> v != u && ConfirmedIn(s, v, q))
      && (forall v, q :: InGroup(s'.localRooms, q, v) <==> InGroup(s.localRooms, q, v) && !(q == r && v == u))
  {
    GroupDropMembers(s.localRooms, r, u);
  }

  lemma LeaveAckKeepsTidyIff(s: Gw, u: UserId, r: RoomId)
    requires Wired(s) && Tidy(s)
    ensures Tidy(OnLeaveAck(s, u, r)) <==> !BreaksTidy(s, LeaveAcked(u, r))
  {
    var s' := OnLeaveAck(s, u, r);
    LeaveAckPlaces(s, u, r);
    if BreaksTidy(s, LeaveAcked(u, r)) {
      var q := RoomOf(s, u).value;
      assert InGroup(s.localRooms, q, u);
      assert InGroup(s'.localRooms, q, u) && !ConfirmedIn(s', u, q);
    }
  }

  /** Closing a room resets exactly the connections Confirmed in it. */
  lemma RoomClosePlaces(s: Gw, r: RoomId)
    requires Wired(s) && Tidy(s)
    ensures var s' := OnRoomClose(s, r);
      && (forall v, q :: ConfirmedIn(s', v, q) <==> q != r && ConfirmedIn(s, v, q))
      && (forall v, q :: InGroup(s'.localRooms, q, v) <==> q != r && InGroup(s.localRooms, q, v))
  {
    var s' := OnRoomClose(s, r);
    forall v, q ensures ConfirmedIn(s', v, q) <==> q != r && ConfirmedIn(s, v, q) {
      assert InGroup(s.localRooms, r, v) <==> ConfirmedIn(s, v, r);
    }
  }

  lemma ClientKeepsTidyIff(s: Gw, e: Event)
    requires Wired(s) && Tidy(s) && IsClient(e)
    ensures Tidy(ClientStep(s, e)) <==> !ClientBreaksTidy(s, e)
  {
    if e.c in s.conns {
      var s' := ClientStep(s, e);
      match e
      case ClientLeave(c, r) => LeaveKeepsTidyIff(s, c, r);
      case ClientJoin(c, r) => if !s.degraded { AskKeepsTidyIff(s, c, r, s'); }
      case ClientResume(c, r) => AskKeepsTidyIff(s, c, r, s');
      case ClientHeartbeat(c, r, found) =>
        if MayFind(s, s.conns[c].userId, found) && r != NO_ROOM && found != r {
          HeartbeatAsks(s, c, r, found);
          AskKeepsTidyIff(s, c, r, s');
        }
    }
  }

  lemma HeartbeatAsks(s: Gw, c: ConnId, r: RoomId, found: RoomId)
    requires c in s.conns && r != NO_ROOM && found != r
    ensures var s' := HandleHeartbeat(s, c, r, found); s' == SetJoin(s, c, Pending, r).(out := s'.out)
  {
  }

  // ---------------------------------------------------------------- every event, every run

  /** Local rooms and confirmed connections coincide after an event exactly when it is none of those listed. */
  lemma StepKeepsTidyIff(s: Gw, e: Event)
    requires Wired(s) && Tidy(s)
    ensures Tidy(Step(s, e)) <==> !BreaksTidy(s, e)
  {
    if IsClient(e) {
      ClientKeepsTidyIff(s, e);
    } else {
      match e
      case Connect(c, u) => if c !in s.conns { ConnectKeepsTidyIff(s, c, u); }
      case Close(c) => CloseKeepsTidyIff(s, c);
      case JoinAcked(u, r, success) => JoinAckKeepsTidyIff(s, u, r, success);
      case LeaveAcked(u, r) => LeaveAckKeepsTidyIff(s, u, r);
      case RoomClosed(r) => RoomClosePlaces(s, r);
      case DrainParked =>
        DrainOnlySends(s);
        SamePlaces(s, Drain(s));
      case _ => SamePlaces(s, Step(s, e));
    }
  }

  /** In every run without such an event a user is in at most one local room, the one it is Confirmed in. */
  lemma {:induction false} RunKeepsTidy(id: GatewayId, n: nat, es: seq<Event>)
    requires forall i :: 0 <= i < |es| ==> !BreaksTidy(Run(Start(id, n), es[..i]), es[i])
    ensures Tidy(Run(Start(id, n), es))
    ensures var rooms := Run(Start(id, n), es).localRooms;
            forall u, q, r :: InGroup(rooms, q, u) && InGroup(rooms, r, u) ==> q == r
    decreases |es|
  {
    if es != [] {
      var front, e := es[..|es| - 1], es[|es| - 1];
      assert forall i :: 0 <= i < |front| ==> front[i] == es[i] && front[..i] == es[..i];
      RunKeepsTidy(id, n, front);
      RunKeepsWired(id, n, front);
      StepKeepsTidyIff(Run(Start(id, n), front), e);
    }
  }
}
