/**
 * One local room per user: with clients that wait for answers, a user is in a
 * local room exactly when its registered connection is Confirmed in that room.
 */
module OneLocalRoom {
  import opened Ids
  import opened Gateway
  import opened Protocol
  import opened TidyRooms
  import G = GatewayRuns
  import R = Roomserver

  // ---------------------------------------------------------------- unanswered requests

  function AskOf(m: Request): multiset<UserId> {
    if IsAsk(m) then multiset{m.u} else multiset{}
  }

  function AckOf(m: Reply): multiset<UserId> {
    if m.JoinAck? then multiset{m.u} else multiset{}
  }

  function Asks(q: seq<Request>): multiset<UserId> {
    if q == [] then multiset{} else Asks(q[..|q| - 1]) + AskOf(q[|q| - 1])
  }

  function Acks(q: seq<Reply>): multiset<UserId> {
    if q == [] then multiset{} else Acks(q[..|q| - 1]) + AckOf(q[|q| - 1])
  }

  /** The users with a join or resume under way on a Gateway, once per request or answer in the queues. */
  function UnderWay(q: seq<Request>, d: seq<Reply>): multiset<UserId> {
    Asks(q) + Acks(d)
  }

  lemma AsksSnoc(q: seq<Request>, m: Request)
    ensures Asks(q + [m]) == Asks(q) + AskOf(m)
  {
  }

  lemma AcksSnoc(q: seq<Reply>, m: Reply)
    ensures Acks(q + [m]) == Acks(q) + AckOf(m)
  {
  }

  lemma {:induction false} AsksHead(q: seq<Request>)
    requires q != []
    ensures Asks(q) == AskOf(q[0]) + Asks(q[1..])
    decreases |q|
  {
    if |q| > 1 {
      var front, last := q[..|q| - 1], q[|q| - 1];
      AsksHead(front);
      assert q[1..] == front[1..] + [last];
      AsksSnoc(front[1..], last);
    } else {
      assert q[1..] == [] && q[..0] == [];
    }
  }

  lemma {:induction false} AcksHead(q: seq<Reply>)
    requires q != []
    ensures Acks(q) == AckOf(q[0]) + Acks(q[1..])
    decreases |q|
  {
    if |q| > 1 {
      var front, last := q[..|q| - 1], q[|q| - 1];
      AcksHead(front);
      assert q[1..] == front[1..] + [last];
      AcksSnoc(front[1..], last);
    } else {
      assert q[1..] == [] && q[..0] == [];
    }
  }

  lemma RequestHead(q: seq<Request>, d: seq<Reply>)
    requires q != []
    ensures UnderWay(q, d) == AskOf(q[0]) + UnderWay(q[1..], d)
  {
    AsksHead(q);
  }

  lemma ReplyHead(q: seq<Request>, d: seq<Reply>)
    requires d != []
    ensures UnderWay(q, d) == AckOf(d[0]) + UnderWay(q, d[1..])
  {
    AcksHead(d);
  }

  lemma ReplySnoc(q: seq<Request>, d: seq<Reply>, m: Reply)
    ensures UnderWay(q, d + [m]) == UnderWay(q, d) + AckOf(m)
  {
  }

  // ---------------------------------------------------------------- the invariant

  /**
   * The local rooms are exactly the confirmed connections, none of them for the
   * room ""; at most one request of each user is under way, and none of a
   * confirmed user.
   */
  ghost predicate Settled(s: Gw, underWay: multiset<UserId>) {
    && Tidy(s)
    && (forall u, r :: ConfirmedIn(s, u, r) ==> r != NO_ROOM && underWay[u] == 0)
    && (forall u :: underWay[u] <= 1)
  }

  ghost predicate RequestsNamed(q: seq<Request>) {
    forall i :: 0 <= i < |q| && IsAsk(q[i]) ==> q[i].r != NO_ROOM
  }

  ghost predicate RepliesNamed(q: seq<Reply>) {
    forall i :: 0 <= i < |q| && q[i].JoinAck? ==> q[i].r != NO_ROOM
  }

  ghost predicate Orderly(s: Gw, d: seq<Reply>) {
    G.Wired(s) && Settled(s, UnderWay(s.out, d)) && RequestsNamed(s.out) && RepliesNamed(d)
  }

  /** No user's place changes, and no request is added. */
  lemma SettledStays(s: Gw, w: multiset<UserId>, s': Gw, w': multiset<UserId>)
    requires Settled(s, w) && w' <= w && s'.localRooms == s.localRooms
    requires forall u, r :: ConfirmedIn(s', u, r) <==> ConfirmedIn(s, u, r)
    ensures Settled(s', w')
  {
  }

  /** The places of `u` alone are given up. */
  lemma SettledWithout(s: Gw, w: multiset<UserId>, s': Gw, w': multiset<UserId>, u: UserId)
    requires Settled(s, w) && w' <= w
    requires forall v, r :: ConfirmedIn(s', v, r) <==> v != u && ConfirmedIn(s, v, r)
    requires forall v, r :: InGroup(s'.localRooms, r, v) <==> v != u && InGroup(s.localRooms, r, v)
    ensures Settled(s', w')
  {
  }

  /**
   * The discipline of clients: messages come on live connections, a join or
   * resume names a room and is sent only from Init with none under way, a leave
   * names the confirmed room, and a heartbeat names no room, the confirmed one,
   * or asks to join as above.
   */
  ghost predicate Patient(s: Gw, d: seq<Reply>, e: G.Event) {
    if e.ClientJoin? || e.ClientResume? || e.ClientLeave? || e.ClientHeartbeat? then
      && G.Registered(s, e.c)
      && var conn := s.conns[e.c];
         var mayAsk := conn.joinState == Init && e.r != NO_ROOM && UnderWay(s.out, d)[conn.userId] == 0;
         var current := conn.joinState == Confirmed && conn.roomId == e.r;
         if e.ClientLeave? then current
         else if e.ClientHeartbeat? then e.r == NO_ROOM || current || mayAsk
         else mayAsk
    else true
  }

  // ---------------------------------------------------------------- local steps

  lemma CloseOrderly(s: Gw, d: seq<Reply>, c: ConnId)
    requires Orderly(s, d)
    ensures Orderly(CloseConn(s, c), d)
  {
    if c in s.conns && s.conns[c].open {
      G.CloseKeepsWired(s, c);
      var s', u := CloseConn(s, c), s.conns[c].userId;
      CloseSends(s, c);
      NoAskAddedKeeps(s.out, s'.out);
      assert UnderWay(s'.out, d) == UnderWay(s.out, d);
      CloseGivesUp(s, UnderWay(s.out, d), c);
      SettledWithout(s, UnderWay(s.out, d), s', UnderWay(s'.out, d), u);
    }
  }

  /** The queue is as it was, or has one more request that is no join or resume. */
  ghost predicate NoAskAdded(q: seq<Request>, q': seq<Request>) {
    q' == q || (|q'| == |q| + 1 && q' == q + [q'[|q|]] && !IsAsk(q'[|q|]))
  }

  lemma NoAskAddedKeeps(q: seq<Request>, q': seq<Request>)
    requires NoAskAdded(q, q')
    ensures Asks(q') == Asks(q) && (RequestsNamed(q) ==> RequestsNamed(q'))
  {
  }

  lemma CloseSends(s: Gw, c: ConnId)
    ensures NoAskAdded(s.out, CloseConn(s, c).out)
  {
  }

  lemma CloseGivesUp(s: Gw, w: multiset<UserId>, c: ConnId)
    requires G.Wired(s) && Settled(s, w) && c in s.conns && s.conns[c].open
    ensures var s', u := CloseConn(s, c), s.conns[c].userId;
      && (forall v, r :: ConfirmedIn(s', v, r) <==> v != u && ConfirmedIn(s, v, r))
      && (forall v, r :: InGroup(s'.localRooms, r, v) <==> v != u && InGroup(s.localRooms, r, v))
  {
    ClosePlaces(s, c);
  }

  lemma ConnectOrderly(s: Gw, d: seq<Reply>, c: ConnId, u: UserId)
    requires Orderly(s, d) && c !in s.conns
    ensures Orderly(AddConnection(s, c, u), d)
  {
    var s1 := if u in s.connections then CloseConn(s, s.connections[u]) else s;
    G.ConnectKeepsWired(s, c, u);
    G.ReplacedIsGone(s, c, u);
    if u in s.connections { CloseOrderly(s, d, s.connections[u]); }
    NewConnectionPlacesNobody(s1, c, u);
    SettledStays(s1, UnderWay(s1.out, d), AddConnection(s, c, u), UnderWay(s1.out, d));
  }

  /** Sending a join or resume from Init. */
  lemma AskOrderly(s: Gw, d: seq<Reply>, c: ConnId, r: RoomId, m: Request)
    requires Orderly(s, d) && G.Registered(s, c) && s.conns[c].joinState == Init && r != NO_ROOM
    requires UnderWay(s.out, d)[s.conns[c].userId] == 0
    requires IsAsk(m) && m.u == s.conns[c].userId && m.r == r
    ensures Orderly(Send(SetJoin(s, c, Pending, r), m), d)
  {
    var s' := Send(SetJoin(s, c, Pending, r), m);
    PendingWired(s, c, r);
    G.SameRegistrationsWired(SetJoin(s, c, Pending, r), s');
    RequestSnoc(s.out, d, m);
    AskSettles(s, UnderWay(s.out, d), c, r, s', UnderWay(s'.out, d));
  }

  lemma PendingWired(s: Gw, c: ConnId, r: RoomId)
    requires G.Wired(s) && c in s.conns
    ensures G.Wired(SetJoin(s, c, Pending, r))
  {
  }

  lemma RequestSnoc(q: seq<Request>, d: seq<Reply>, m: Request)
    requires IsAsk(m)
    ensures UnderWay(q + [m], d) == UnderWay(q, d) + multiset{m.u}
    ensures RequestsNamed(q) && m.r != NO_ROOM ==> RequestsNamed(q + [m])
  {
  }

  lemma AskSettles(s: Gw, w: multiset<UserId>, c: ConnId, r: RoomId, s': Gw, w': multiset<UserId>)
    requires G.Wired(s) && Settled(s, w) && G.Registered(s, c) && s.conns[c].joinState == Init
    requires w[s.conns[c].userId] == 0 && (w' == w || w' == w + multiset{s.conns[c].userId})
    requires s' == SetJoin(s, c, Pending, r).(out := s'.out)
    ensures Settled(s', w')
  {
  }

  lemma LeaveOrderly(s: Gw, d: seq<Reply>, c: ConnId, r: RoomId)
    requires Orderly(s, d) && Patient(s, d, G.ClientLeave(c, r))
    ensures Orderly(HandleLeave(s, c, r), d)
  {
    var u, s' := s.conns[c].userId, HandleLeave(s, c, r);
    G.SameConnectionsWired(s, s');
    assert NoAskAdded(s.out, s'.out);
    NoAskAddedKeeps(s.out, s'.out);
    assert UnderWay(s'.out, d) == UnderWay(s.out, d);
    LeaveGivesUp(s, UnderWay(s.out, d), c, r);
    SettledWithout(s, UnderWay(s.out, d), s', UnderWay(s'.out, d), u);
  }

  lemma LeaveGivesUp(s: Gw, w: multiset<UserId>, c: ConnId, r: RoomId)
    requires G.Wired(s) && Settled(s, w) && G.Registered(s, c)
    requires s.conns[c].joinState == Confirmed && s.conns[c].roomId == r
    ensures var s', u := HandleLeave(s, c, r), s.conns[c].userId;
      && (forall v, q :: ConfirmedIn(s', v, q) <==> v != u && ConfirmedIn(s, v, q))
      && (forall v, q :: InGroup(s'.localRooms, q, v) <==> v != u && InGroup(s.localRooms, q, v))
  {
    LeavePlaces(s, c, r);
  }

  /** A patient heartbeat either changes nothing or joins. */
  lemma HeartbeatOrderly(s: Gw, d: seq<Reply>, c: ConnId, r: RoomId, found: RoomId)
    requires Orderly(s, d) && Patient(s, d, G.ClientHeartbeat(c, r, found)) && MayFind(s, s.conns[c].userId, found)
    ensures Orderly(HandleHeartbeat(s, c, r, found), d)
  {
    var u := s.conns[c].userId;
    assert s.connections[u] == c;
    if r != NO_ROOM {
      assert InGroup(s.localRooms, found, u) <==> ConfirmedIn(s, u, found);
      if s.conns[c].joinState == Confirmed {
        assert InGroup(s.localRooms, r, u) <==> ConfirmedIn(s, u, r);
        assert found == r;
      } else {
        assert found == NO_ROOM;
        AskOrderly(s, d, c, r, JoinReq(u, r, s.id));
      }
    }
  }

  lemma {:induction false} SendAllAsks(s: Gw, ms: seq<Request>)
    requires forall i :: 0 <= i < |ms| ==> !IsAsk(ms[i])
    ensures Asks(SendAll(s, ms).out) == Asks(s.out)
    ensures RequestsNamed(s.out) ==> RequestsNamed(SendAll(s, ms).out)
    decreases |ms|
  {
    if ms != [] {
      var before, last := SendAll(s, ms[..|ms| - 1]), ms[|ms| - 1];
      SendAllAsks(s, ms[..|ms| - 1]);
      SendAddsNoAsk(before, last);
      NoAskAddedKeeps(before.out, Send(before, last).out);
    }
  }

  lemma SendAddsNoAsk(s: Gw, m: Request)
    requires !IsAsk(m)
    ensures NoAskAdded(s.out, Send(s, m).out)
  {
  }

  /** A step that touches neither connections, join states nor local rooms, and sends no join or resume. */
  lemma IdleOrderly(s: Gw, s': Gw, d: seq<Reply>)
    requires Orderly(s, d)
    requires s'.conns == s.conns && s'.connections == s.connections && s'.localRooms == s.localRooms
    requires Asks(s'.out) <= Asks(s.out) && RequestsNamed(s'.out)
    ensures Orderly(s', d)
  {
    G.SameRegistrationsWired(s, s');
    assert UnderWay(s'.out, d) <= UnderWay(s.out, d);
    SettledStays(s, UnderWay(s.out, d), s', UnderWay(s'.out, d));
  }

  lemma DrainOrderly(s: Gw, d: seq<Reply>)
    requires Orderly(s, d)
    ensures Orderly(Drain(s), d)
  {
    G.DrainOnlySends(s);
    SendAllAsks(s.(pendingLeaves := [], pendingDisconnects := []), Parked(s));
    IdleOrderly(s, Drain(s), d);
  }

  lemma ResendOrderly(s: Gw, d: seq<Reply>, users: seq<UserRoomPair>)
    requires Orderly(s, d)
    ensures Orderly(Send(s, BatchReq(s.id, users)), d)
  {
    BatchAddsNoAsk(s, users);
    IdleOrderly(s, Send(s, BatchReq(s.id, users)), d);
  }

  lemma BatchAddsNoAsk(s: Gw, users: seq<UserRoomPair>)
    ensures Send(s, BatchReq(s.id, users)) == s.(out := Send(s, BatchReq(s.id, users)).out)
    ensures Asks(Send(s, BatchReq(s.id, users)).out) == Asks(s.out)
    ensures RequestsNamed(s.out) ==> RequestsNamed(Send(s, BatchReq(s.id, users)).out)
  {
    NoAskAddedKeeps(s.out, Send(s, BatchReq(s.id, users)).out);
  }

  lemma ClientOrderly(s: Gw, d: seq<Reply>, e: G.Event)
    requires Orderly(s, d) && Patient(s, d, e)
    requires e.ClientJoin? || e.ClientResume? || e.ClientLeave? || e.ClientHeartbeat?
    ensures Orderly(G.Step(s, e), d)
  {
    match e
    case ClientJoin(c, r) => if !s.degraded { AskOrderly(s, d, c, r, JoinReq(s.conns[c].userId, r, s.id)); }
    case ClientResume(c, r) => AskOrderly(s, d, c, r, ResumeReq(s.conns[c].userId, r, s.id));
    case ClientLeave(c, r) => LeaveOrderly(s, d, c, r);
    case ClientHeartbeat(c, r, found) =>
      if MayFind(s, s.conns[c].userId, found) { HeartbeatOrderly(s, d, c, r, found); }
  }

  /** Every patient local step keeps order. */
  lemma LocalOrderly(s: Gw, d: seq<Reply>, e: G.Event)
    requires Orderly(s, d) && IsLocal(e) && Patient(s, d, e)
    ensures Orderly(G.Step(s, e), d)
  {
    match e
    case Connect(c, u) => if c !in s.conns { ConnectOrderly(s, d, c, u); }
    case Close(c) => CloseOrderly(s, d, c);
    case Degrade => IdleOrderly(s, s.(degraded := true), d);
    case Recover => IdleOrderly(s, s.(degraded := false), d);
    case DrainParked => DrainOrderly(s, d);
    case Resend(users) => ResendOrderly(s, d, users);
    case _ => ClientOrderly(s, d, e);
  }

  // ---------------------------------------------------------------- network steps

  /** A request leaves the queue, handled or lost. */
  lemma TakenOrderly(s: Gw, d: seq<Reply>)
    requires Orderly(s, d) && s.out != []
    ensures Orderly(TakeRequest(s), d)
    ensures forall u :: UnderWay(TakeRequest(s).out, d)[u] + AskOf(s.out[0])[u] == UnderWay(s.out, d)[u]
  {
    RequestHead(s.out, d);
    AsksHead(s.out);
    IdleOrderly(s, TakeRequest(s), d);
  }

  /** An answer takes its request's place, unless it is dropped. */
  lemma OfferOrderly(s: Gw, d: seq<Reply>, m: Reply)
    requires Orderly(s, d)
    requires m.JoinAck? ==> m.r != NO_ROOM && UnderWay(s.out, d)[m.u] == 0 && forall r :: !ConfirmedIn(s, m.u, r)
    ensures Orderly(s, Offer(d, m))
  {
    ReplySnoc(s.out, d, m);
    var w, w' := UnderWay(s.out, d), UnderWay(s.out, Offer(d, m));
    assert w' == w || w' == w + AckOf(m);
    forall v ensures w'[v] <= 1 && (w'[v] != w[v] ==> m.JoinAck? && v == m.u) {}
  }

  /** The answer to a user's request finds the user in no room, and puts it in at most one. */
  lemma JoinAckOrderly(s: Gw, d: seq<Reply>)
    requires Orderly(s, d) && d != [] && d[0].JoinAck?
    ensures Orderly(OnJoinAck(s, d[0].u, d[0].r, d[0].success), d[1..])
  {
    var m := d[0];
    var s' := OnJoinAck(s, m.u, m.r, m.success);
    ReplyHead(s.out, d);
    G.StepKeepsWired(s, G.JoinAcked(m.u, m.r, m.success));
    assert s'.out == s.out;
    JoinAckSettles(s, UnderWay(s.out, d), m, UnderWay(s.out, d[1..]));
  }

  lemma JoinAckSettles(s: Gw, w: multiset<UserId>, m: Reply, w': multiset<UserId>)
    requires G.Wired(s) && Settled(s, w) && m.JoinAck? && m.r != NO_ROOM && w == multiset{m.u} + w'
    ensures Settled(OnJoinAck(s, m.u, m.r, m.success), w')
  {
    assert w[m.u] == 1;
    if m.u in s.connections { JoinAckPlaces(s, m.u, m.r, m.success); }
    forall v ensures w'[v] <= 1 && (v != m.u ==> w'[v] == w[v]) && w'[m.u] == 0 {
      assert w[v] == w'[v] + (if v == m.u then 1 else 0);
    }
  }

  /** Closing a room returns exactly its confirmed connections to Init. */
  lemma RoomCloseOrderly(s: Gw, d: seq<Reply>, r: RoomId)
    requires Orderly(s, d)
    ensures Orderly(OnRoomClose(s, r), d)
  {
    G.StepKeepsWired(s, G.RoomClosed(r));
    assert UnderWay(OnRoomClose(s, r).out, d) == UnderWay(s.out, d);
    RoomCloseSettles(s, UnderWay(s.out, d), r);
  }

  lemma RoomCloseSettles(s: Gw, w: multiset<UserId>, r: RoomId)
    requires G.Wired(s) && Settled(s, w)
    ensures Settled(OnRoomClose(s, r), w)
  {
    RoomClosePlaces(s, r);
  }

  lemma DropReplyOrderly(s: Gw, d: seq<Reply>)
    requires Orderly(s, d) && d != []
    ensures Orderly(s, d[1..])
  {
    ReplyHead(s.out, d);
    SettledStays(s, UnderWay(s.out, d), s, UnderWay(s.out, d[1..]));
  }

  // ---------------------------------------------------------------- the system

  ghost predicate AllOrderly(s: Sys) {
    s.gws.Keys == s.down.Keys && forall g :: g in s.gws ==> Orderly(s.gws[g], s.down[g])
  }

  ghost predicate PatientEvent(s: Sys, ev: Event) {
    ev.Local? && ev.g in s.gws && ev.g in s.down ==> Patient(s.gws[ev.g], s.down[ev.g], ev.e)
  }

  /** Only one Gateway and its queues change. */
  lemma LinkOrderly(s: Sys, s': Sys, g: GatewayId, gw: Gw, d: seq<Reply>)
    requires AllOrderly(s) && g in s.gws && Orderly(gw, d)
    requires s'.gws == s.gws[g := gw] && s'.down == s.down[g := d]
    ensures AllOrderly(s')
  {
  }

  /** The Roomserver answers joins and resumes, and nothing else. */
  lemma HandleAnswersAsks(rs: R.State, m: Request, t0: Time, t1: Time, clock: seq<(Time, Time)>)
    ensures var reply := Handle(rs, m, t0, t1, clock).1;
      if IsAsk(m) then reply.Some? && reply.value.JoinAck? && reply.value.u == m.u && reply.value.r == m.r else reply == None
  {
  }

  lemma AnswerOrderly(gw: Gw, d: seq<Reply>, reply: Reply)
    requires Orderly(gw, d) && gw.out != [] && IsAsk(gw.out[0])
    requires reply.JoinAck? && reply.u == gw.out[0].u && reply.r == gw.out[0].r
    ensures Orderly(TakeRequest(gw), Offer(d, reply))
  {
    var gw', m := TakeRequest(gw), gw.out[0];
    TakenOrderly(gw, d);
    RequestHead(gw.out, d);
    assert UnderWay(gw.out, d)[m.u] == 1;
    forall r ensures !ConfirmedIn(gw', m.u, r) { assert ConfirmedIn(gw', m.u, r) == ConfirmedIn(gw, m.u, r); }
    OfferOrderly(gw', d, reply);
  }

  lemma HandleOrderly(s: Sys, g: GatewayId, t0: Time, t1: Time, clock: seq<(Time, Time)>)
    requires AllOrderly(s) && g in s.gws && s.gws[g].out != []
    ensures AllOrderly(HandleStep(s, g, t0, t1, clock))
  {
    var gw, d, m := s.gws[g], s.down[g], s.gws[g].out[0];
    var s', gw' := HandleStep(s, g, t0, t1, clock), TakeRequest(gw);
    var reply := Handle(s.rs, m, t0, t1, clock).1;
    HandleAnswersAsks(s.rs, m, t0, t1, clock);
    if reply.Some? {
      AnswerOrderly(gw, d, reply.value);
      LinkOrderly(s, s', g, gw', Offer(d, reply.value));
    } else {
      TakenOrderly(gw, d);
      assert s.down[g := d] == s.down;
      LinkOrderly(s, s', g, gw', d);
    }
  }

  lemma ReceiveOrderly(s: Sys, g: GatewayId)
    requires AllOrderly(s) && g in s.gws && s.down[g] != []
    ensures AllOrderly(ReceiveStep(s, g))
  {
    var gw, d, s' := s.gws[g], s.down[g], ReceiveStep(s, g);
    match d[0]
    case JoinAck(u, r, success) =>
      JoinAckOrderly(gw, d);
      LinkOrderly(s, s', g, OnJoinAck(gw, u, r, success), d[1..]);
    case CloseNotice(r) =>
      RoomCloseOrderly(gw, d, r);
      DropReplyOrderly(OnRoomClose(gw, r), d);
      LinkOrderly(s, s', g, OnRoomClose(gw, r), d[1..]);
  }

  lemma LoseRequestOrderly(s: Sys, g: GatewayId)
    requires AllOrderly(s) && g in s.gws
    ensures AllOrderly(s.(gws := s.gws[g := TakeRequest(s.gws[g])]))
  {
    if s.gws[g].out != [] { TakenOrderly(s.gws[g], s.down[g]); }
    assert s.down[g := s.down[g]] == s.down;
    LinkOrderly(s, s.(gws := s.gws[g := TakeRequest(s.gws[g])]), g, TakeRequest(s.gws[g]), s.down[g]);
  }

  lemma LoseReplyOrderly(s: Sys, g: GatewayId)
    requires AllOrderly(s) && g in s.gws && s.down[g] != []
    ensures AllOrderly(s.(down := s.down[g := s.down[g][1..]]))
  {
    DropReplyOrderly(s.gws[g], s.down[g]);
    assert s.gws[g := s.gws[g]] == s.gws;
    LinkOrderly(s, s.(down := s.down[g := s.down[g][1..]]), g, s.gws[g], s.down[g][1..]);
  }

  lemma CloseNoticesOrderly(s: Sys, r: RoomId)
    requires AllOrderly(s) && r in s.rs.rooms
    ensures AllOrderly(CloseStep(s, r))
  {
    forall g | g in s.gws ensures Orderly(s.gws[g], Offer(s.down[g], CloseNotice(r))) {
      OfferOrderly(s.gws[g], s.down[g], CloseNotice(r));
    }
  }

  lemma StepOrderly(s: Sys, ev: Event)
    requires AllOrderly(s) && PatientEvent(s, ev)
    ensures AllOrderly(Step(s, ev))
  {
    match ev
    case Local(g, e) =>
      if g in s.gws && IsLocal(e) {
        LocalOrderly(s.gws[g], s.down[g], e);
        assert s.down[g := s.down[g]] == s.down;
        LinkOrderly(s, LocalStep(s, g, e), g, G.Step(s.gws[g], e), s.down[g]);
      }
    case ServerHandles(g, t0, t1, clock) =>
      if g in s.gws && s.gws[g].out != [] { HandleOrderly(s, g, t0, t1, clock); }
    case GatewayReceives(g) => if g in s.gws && s.down[g] != [] { ReceiveOrderly(s, g); }
    case LoseRequest(g) =>
      if g in s.gws { LoseRequestOrderly(s, g); }
    case LoseReply(g) => if g in s.gws && s.down[g] != [] { LoseReplyOrderly(s, g); }
    case ServerCloses(r) => if r in s.rs.rooms { CloseNoticesOrderly(s, r); }
    case _ =>
  }

  /**
   * In every run with patient clients, with drops, losses, reconnects, room
   * closes and Roomserver crashes, each Gateway holds a user in a room exactly
   * when the user's registered connection is Confirmed in it, so in at most one.
   */
  lemma {:induction false} RunIsOrderly(ids: set<GatewayId>, n: nat, es: seq<Event>)
    requires forall i :: 0 <= i < |es| ==> PatientEvent(Run(Start(ids, n), es[..i]), es[i])
    ensures AllOrderly(Run(Start(ids, n), es))
    decreases |es|
  {
    if es != [] {
      var front := es[..|es| - 1];
      assert forall i :: 0 <= i < |front| ==> front[i] == es[i] && front[..i] == es[..i];
      RunIsOrderly(ids, n, front);
      StepOrderly(Run(Start(ids, n), front), es[|es| - 1]);
    }
  }

  /**
   * Why rooms must be named: a client joins the room "", the Roomserver grants it,
   * the connection closes, and its user stays behind in the local room.
   */
  lemma UnnamedRoomLingers(g: GatewayId, n: nat, c: ConnId, u: UserId) returns (s: Sys)
    requires HasShard(u, n)
    ensures s == Run(Start({g}, n), [Local(g, G.Connect(c, u)), Local(g, G.ClientJoin(c, NO_ROOM))]
                                    + [ServerHandles(g, 0, 0, []), GatewayReceives(g), Local(g, G.Close(c))])
    ensures g in s.gws && InGroup(s.gws[g].localRooms, NO_ROOM, u) && u !in s.gws[g].connections
  {
    var asked := JoinUnderWay(g, n, c, u, NO_ROOM);
    RunOfThree(Start({g}, n), [Local(g, G.Connect(c, u)), Local(g, G.ClientJoin(c, NO_ROOM))],
               ServerHandles(g, 0, 0, []), GatewayReceives(g), Local(g, G.Close(c)));
    var gw := TakeRequest(asked.gws[g]);
    LingersInUnnamedRoom(gw, c, u);
    s := GrantThenClose(asked, g, u, NO_ROOM, c);
  }

  lemma GrantThenClose(s: Sys, g: GatewayId, u: UserId, r: RoomId, c: ConnId) returns (s': Sys)
    requires g in s.gws && s.gws[g].out == [JoinReq(u, r, g)] && g in s.down && s.down[g] == []
    ensures s' == Step(Step(Step(s, ServerHandles(g, 0, 0, [])), GatewayReceives(g)), Local(g, G.Close(c)))
    ensures g in s'.gws && s'.gws[g] == CloseConn(OnJoinAck(TakeRequest(s.gws[g]), u, r, true), c)
  {
    JoinGranted(s, g, u, r);
    var s1 := Step(s, ServerHandles(g, 0, 0, []));
    AckReceived(s1, g, u, r);
    var s2 := Step(s1, GatewayReceives(g));
    s' := Step(s2, Local(g, G.Close(c)));
    assert s' == LocalStep(s2, g, G.Close(c));
  }

  lemma AckReceived(s: Sys, g: GatewayId, u: UserId, r: RoomId)
    requires g in s.gws && g in s.down && s.down[g] == [JoinAck(u, r, true)]
    ensures var s' := Step(s, GatewayReceives(g)); g in s'.gws && s'.gws[g] == OnJoinAck(s.gws[g], u, r, true)
  {
  }

  lemma RunOfThree(s: Sys, es: seq<Event>, e1: Event, e2: Event, e3: Event)
    ensures Run(s, es + [e1, e2, e3]) == Step(Step(Step(Run(s, es), e1), e2), e3)
  {
    RunSnoc(s, es, e1);
    RunSnoc(s, es + [e1], e2);
    RunSnoc(s, es + [e1] + [e2], e3);
    assert es + [e1] + [e2] + [e3] == es + [e1, e2, e3];
  }

  lemma JoinGranted(s: Sys, g: GatewayId, u: UserId, r: RoomId)
    requires g in s.gws && s.gws[g].out == [JoinReq(u, r, g)] && g in s.down && s.down[g] == []
    ensures var s' := Step(s, ServerHandles(g, 0, 0, []));
      g in s'.gws && s'.gws[g] == TakeRequest(s.gws[g]) && g in s'.down && s'.down[g] == [JoinAck(u, r, true)]
  {
  }

  lemma LingersInUnnamedRoom(s: Gw, c: ConnId, u: UserId)
    requires u in s.connections && s.connections[u] == c && c in s.conns && s.conns[c].userId == u && s.conns[c].open
    ensures var s' := CloseConn(OnJoinAck(s, u, NO_ROOM, true), c);
      InGroup(s'.localRooms, NO_ROOM, u) && u !in s'.connections
  {
  }
}
