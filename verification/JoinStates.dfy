/**
 * Join states: a connection waits for an answer only while its request or the
 * answer is on its way, and one that neither waits nor is confirmed is in no room.
 */
module JoinStates {
  import opened Ids
  import opened Gateway
  import opened Protocol
  import opened OneLocalRoom
  import opened ServedRequests
  import G = GatewayRuns
  import R = Roomserver

  // ---------------------------------------------------------------- one Gateway

  /** In state Init a connection names no room. */
  ghost predicate InitIsNowhere(s: Gw) {
    forall c :: c in s.conns && s.conns[c].joinState == Init ==> s.conns[c].roomId == NO_ROOM
  }

  lemma ResetKeepsNowhere(s: Gw, r: RoomId)
    requires InitIsNowhere(s)
    ensures InitIsNowhere(OnRoomClose(s, r))
  {
  }

  lemma CloseKeepsNowhere(s: Gw, c: ConnId)
    requires InitIsNowhere(s)
    ensures InitIsNowhere(CloseConn(s, c))
  {
  }

  lemma ConnectKeepsNowhere(s: Gw, c: ConnId, u: UserId)
    requires InitIsNowhere(s)
    ensures InitIsNowhere(AddConnection(s, c, u))
  {
    if u in s.connections { CloseKeepsNowhere(s, s.connections[u]); }
  }

  lemma ClientKeepsNowhere(s: Gw, e: G.Event)
    requires InitIsNowhere(s) && G.IsClient(e)
    ensures InitIsNowhere(G.ClientStep(s, e))
  {
  }

  /** Every event keeps it, whatever its arguments. */
  lemma StepKeepsNowhere(s: Gw, e: G.Event)
    requires InitIsNowhere(s)
    ensures InitIsNowhere(G.Step(s, e))
  {
    if G.IsClient(e) {
      ClientKeepsNowhere(s, e);
    } else {
      match e
      case Connect(c, u) => if c !in s.conns { ConnectKeepsNowhere(s, c, u); }
      case Close(c) => CloseKeepsNowhere(s, c);
      case RoomClosed(r) => ResetKeepsNowhere(s, r);
      case DrainParked => G.DrainOnlySends(s);
      case _ =>
    }
  }

  lemma {:induction false} RunKeepsNowhere(id: GatewayId, n: nat, es: seq<G.Event>)
    ensures InitIsNowhere(G.Run(G.Start(id, n), es))
    decreases |es|
  {
    if es != [] {
      RunKeepsNowhere(id, n, es[..|es| - 1]);
      StepKeepsNowhere(G.Run(G.Start(id, n), es[..|es| - 1]), es[|es| - 1]);
    }
  }

  predicate Waits(s: Gw, c: ConnId, r: RoomId) {
    c in s.conns && s.conns[c].joinState == Pending && s.conns[c].roomId == r
  }

  /** A join, resume or heartbeat on this connection for this room. */
  predicate AsksOn(e: G.Event, c: ConnId, r: RoomId) {
    (e.ClientJoin? || e.ClientResume? || e.ClientHeartbeat?) && e.c == c && e.r == r
  }

  /** What ends the waiting of a connection: its client's leave, an answer to its user, the close of a room that has its user. */
  predicate EndsWait(s: Gw, e: G.Event, c: ConnId) {
    match e
    case ClientLeave(d, _) => d == c
    case JoinAcked(u, _, _) => u in s.connections && s.connections[u] == c
    case LeaveAcked(u, _) => u in s.connections && s.connections[u] == c
    case RoomClosed(r) =>
      r in s.localRooms && c in s.conns && G.Registered(s, c) && s.conns[c].userId in s.localRooms[r]
    case _ => false
  }

  lemma CloseKeepsWaiting(s: Gw, c: ConnId, d: ConnId, r: RoomId)
    ensures Waits(CloseConn(s, c), d, r) <==> Waits(s, d, r)
  {
  }

  lemma ConnectKeepsWaiting(s: Gw, c: ConnId, u: UserId, d: ConnId, r: RoomId)
    requires c !in s.conns
    ensures Waits(AddConnection(s, c, u), d, r) <==> Waits(s, d, r)
  {
    if u in s.connections { CloseKeepsWaiting(s, s.connections[u], d, r); }
  }

  lemma ResetEndsWaiting(s: Gw, q: RoomId, c: ConnId, r: RoomId)
    requires G.Wired(s)
    ensures Waits(OnRoomClose(s, q), c, r) <==> Waits(s, c, r) && !EndsWait(s, G.RoomClosed(q), c)
  {
  }

  lemma ClientWaits(s: Gw, e: G.Event, c: ConnId, r: RoomId)
    requires G.IsClient(e) && Waits(G.ClientStep(s, e), c, r)
    ensures AsksOn(e, c, r) || (Waits(s, c, r) && !EndsWait(s, e, c))
  {
  }

  /** A connection waits for a room only because it has asked for it, and only until one of these ends it. */
  lemma WaitsOnlyAfterAsk(s: Gw, e: G.Event, c: ConnId, r: RoomId)
    requires G.Wired(s) && Waits(G.Step(s, e), c, r)
    ensures AsksOn(e, c, r) || (Waits(s, c, r) && !EndsWait(s, e, c))
  {
    if G.IsClient(e) {
      ClientWaits(s, e, c, r);
    } else {
      match e
      case Connect(d, u) => if d !in s.conns { ConnectKeepsWaiting(s, d, u, c, r); }
      case Close(d) => CloseKeepsWaiting(s, d, c, r);
      case RoomClosed(q) => ResetEndsWaiting(s, q, c, r);
      case DrainParked => G.DrainOnlySends(s);
      case _ =>
    }
  }

  // ---------------------------------------------------------------- the system

  predicate IsAskFor(m: Request, u: UserId, r: RoomId) {
    IsAsk(m) && m.u == u && m.r == r
  }

  predicate IsAnswerFor(m: Reply, u: UserId, r: RoomId) {
    m.JoinAck? && m.u == u && m.r == r
  }

  /** A join or resume of the user for the room, or its answer, is on its way. */
  ghost predicate OnItsWay(q: seq<Request>, d: seq<Reply>, u: UserId, r: RoomId) {
    (exists m :: m in q && IsAskFor(m, u, r)) || exists m :: m in d && IsAnswerFor(m, u, r)
  }

  /** Whoever waits, waits for something. */
  ghost predicate WaitsForAnswer(s: Gw, d: seq<Reply>) {
    forall c, r :: G.Registered(s, c) && Waits(s, c, r) ==> OnItsWay(s.out, d, s.conns[c].userId, r)
  }

  ghost predicate AllWaitForAnswers(s: Sys) {
    && s.gws.Keys == s.down.Keys
    && forall g :: g in s.gws ==> G.Wired(s.gws[g]) && InitIsNowhere(s.gws[g]) && WaitsForAnswer(s.gws[g], s.down[g])
  }

  /** No request and no answer is lost: the queues have room for what clients ask and the Roomserver answers. */
  ghost predicate NothingLost(s: Sys, ev: Event) {
    match ev
    case Local(g, e) => G.IsClient(e) && g in s.gws ==> |s.gws[g].out| + 2 <= QUEUE_CAPACITY
    case ServerHandles(g, _, _, _) => g in s.down ==> |s.down[g]| < QUEUE_CAPACITY
    case LoseRequest(_) => false
    case LoseReply(_) => false
    case _ => true
  }

  /** What is asked for is queued. */
  lemma AskIsQueued(s: Gw, e: G.Event, c: ConnId, r: RoomId)
    requires AsksOn(e, c, r) && c in s.conns && Waits(G.Step(s, e), c, r) && !Waits(s, c, r) && |s.out| + 2 <= QUEUE_CAPACITY
    ensures exists m :: m in G.Step(s, e).out && IsAskFor(m, s.conns[c].userId, r)
  {
    var out := G.Step(s, e).out;
    assert out[|out| - 1] in out && IsAskFor(out[|out| - 1], s.conns[c].userId, r);
  }

  lemma CloseOpensNothing(s: Gw, c: ConnId, d: ConnId)
    requires d in s.conns
    ensures d in CloseConn(s, c).conns && (CloseConn(s, c).conns[d].open ==> s.conns[d].open)
    ensures CloseConn(s, c).conns[d].userId == s.conns[d].userId
  {
  }

  /** A connection is registered when it connects, and never again. */
  lemma StillRegistered(s: Gw, e: G.Event, c: ConnId)
    requires G.Wired(s) && c in s.conns && G.Registered(G.Step(s, e), c)
    ensures G.Registered(s, c) && G.Step(s, e).conns[c].userId == s.conns[c].userId
  {
    G.StepKeepsWired(s, e);
    match e
    case Connect(d, u) => if d !in s.conns && u in s.connections { CloseOpensNothing(s, s.connections[u], c); }
    case Close(d) => CloseOpensNothing(s, d, c);
    case _ => G.StepKeepsConnections(s, e);
  }

  lemma LocalKeepsWaiting(s: Gw, d: seq<Reply>, e: G.Event)
    requires G.Wired(s) && WaitsForAnswer(s, d) && IsLocal(e) && (G.IsClient(e) ==> |s.out| + 2 <= QUEUE_CAPACITY)
    ensures WaitsForAnswer(G.Step(s, e), d)
  {
    var s' := G.Step(s, e);
    StepAppends(s, e);
    forall c, r | G.Registered(s', c) && Waits(s', c, r) ensures OnItsWay(s'.out, d, s'.conns[c].userId, r) {
      WaitsOnlyAfterAsk(s, e, c, r);
      assert c in s.conns;
      StillRegistered(s, e, c);
      if !Waits(s, c, r) { AskIsQueued(s, e, c, r); } else { StaysOnItsWay(s.out, s'.out, d, s.conns[c].userId, r); }
    }
  }

  lemma StaysOnItsWay(q: seq<Request>, q': seq<Request>, d: seq<Reply>, u: UserId, r: RoomId)
    requires OnItsWay(q, d, u, r) && q <= q'
    ensures OnItsWay(q', d, u, r)
  {
    if m :| m in q && IsAskFor(m, u, r) { assert m in q'; }
  }

  /** The Roomserver's answer takes the place of the request. */
  lemma HandleKeepsWaiting(s: Gw, d: seq<Reply>, rs: R.State, t0: Time, t1: Time, clock: seq<(Time, Time)>)
    requires WaitsForAnswer(s, d) && s.out != [] && |d| < QUEUE_CAPACITY
    ensures var reply := Handle(rs, s.out[0], t0, t1, clock).1;
      WaitsForAnswer(TakeRequest(s), if reply == None then d else Offer(d, reply.value))
  {
    var reply := Handle(rs, s.out[0], t0, t1, clock).1;
    var d' := if reply == None then d else Offer(d, reply.value);
    HandleAnswersAsks(rs, s.out[0], t0, t1, clock);
    forall c, r | G.Registered(TakeRequest(s), c) && Waits(TakeRequest(s), c, r)
      ensures OnItsWay(s.out[1..], d', s.conns[c].userId, r)
    {
      var u := s.conns[c].userId;
      assert G.Registered(s, c) && Waits(s, c, r);
      AnswerReplacesAsk(s.out, d, d', reply, u, r);
    }
  }

  lemma AnswerReplacesAsk(q: seq<Request>, d: seq<Reply>, d': seq<Reply>, reply: Option<Reply>, u: UserId, r: RoomId)
    requires q != [] && OnItsWay(q, d, u, r) && d' == if reply == None then d else d + [reply.value]
    requires IsAsk(q[0]) ==> reply.Some? && reply.value.JoinAck? && reply.value.u == q[0].u && reply.value.r == q[0].r
    ensures OnItsWay(q[1..], d', u, r)
  {
    assert q == [q[0]] + q[1..];
    if m :| m in d && IsAnswerFor(m, u, r) {
      assert m in d';
    } else {
      var m :| m in q && IsAskFor(m, u, r);
      if m !in q[1..] { assert reply.value in d' && IsAnswerFor(reply.value, u, r); }
    }
  }

  /** An answer that arrives ends the waiting of its user's connection, and of no other. */
  lemma ReceiveKeepsWaiting(s: Gw, d: seq<Reply>)
    requires G.Wired(s) && WaitsForAnswer(s, d) && d != []
    ensures WaitsForAnswer(Receive(s, d[0]), d[1..])
  {
    var m, s' := d[0], Receive(s, d[0]);
    var e := match m case JoinAck(u, r, ok) => G.JoinAcked(u, r, ok) case CloseNotice(r) => G.RoomClosed(r);
    assert s' == G.Step(s, e) && s'.out == s.out;
    forall c, r | G.Registered(s', c) && Waits(s', c, r) ensures OnItsWay(s'.out, d[1..], s'.conns[c].userId, r) {
      WaitsOnlyAfterAsk(s, e, c, r);
      StillRegistered(s, e, c);
      OthersAnswers(s.out, d, s.conns[c].userId, r);
    }
  }

  lemma OthersAnswers(q: seq<Request>, d: seq<Reply>, u: UserId, r: RoomId)
    requires d != [] && OnItsWay(q, d, u, r) && !(d[0].JoinAck? && d[0].u == u)
    ensures OnItsWay(q, d[1..], u, r)
  {
    assert d == [d[0]] + d[1..];
    if m :| m in d && IsAnswerFor(m, u, r) { assert m in d[1..]; }
  }

  lemma NoticeKeepsWaiting(s: Gw, d: seq<Reply>, m: Reply)
    requires WaitsForAnswer(s, d)
    ensures WaitsForAnswer(s, Offer(d, m))
  {
    forall c, r | G.Registered(s, c) && Waits(s, c, r) ensures OnItsWay(s.out, Offer(d, m), s.conns[c].userId, r) {
      if a :| a in d && IsAnswerFor(a, s.conns[c].userId, r) { assert a in Offer(d, m); }
    }
  }

  ghost predicate LinkWaits(gw: Gw, d: seq<Reply>) {
    G.Wired(gw) && InitIsNowhere(gw) && WaitsForAnswer(gw, d)
  }

  /** One Gateway and its queues change. */
  lemma LinkKeepsWaiting(s: Sys, s': Sys, g: GatewayId, gw: Gw, d: seq<Reply>)
    requires AllWaitForAnswers(s) && g in s.gws && LinkWaits(gw, d)
    requires s'.gws == s.gws[g := gw] && s'.down == s.down[g := d]
    ensures AllWaitForAnswers(s')
  {
  }

  lemma LocalLink(s: Sys, g: GatewayId, e: G.Event)
    requires AllWaitForAnswers(s) && g in s.gws && IsLocal(e) && (G.IsClient(e) ==> |s.gws[g].out| + 2 <= QUEUE_CAPACITY)
    ensures AllWaitForAnswers(LocalStep(s, g, e))
  {
    G.StepKeepsWired(s.gws[g], e);
    StepKeepsNowhere(s.gws[g], e);
    LocalKeepsWaiting(s.gws[g], s.down[g], e);
    assert s.down[g := s.down[g]] == s.down;
    LinkKeepsWaiting(s, LocalStep(s, g, e), g, G.Step(s.gws[g], e), s.down[g]);
  }

  lemma HandleLink(s: Sys, g: GatewayId, t0: Time, t1: Time, clock: seq<(Time, Time)>)
    requires AllWaitForAnswers(s) && g in s.gws && s.gws[g].out != [] && |s.down[g]| < QUEUE_CAPACITY
    ensures AllWaitForAnswers(HandleStep(s, g, t0, t1, clock))
  {
    var gw, d := s.gws[g], s.down[g];
    var reply := Handle(s.rs, gw.out[0], t0, t1, clock).1;
    HandleKeepsWaiting(gw, d, s.rs, t0, t1, clock);
    G.SameRegistrationsWired(gw, TakeRequest(gw));
    assert s.down[g := d] == s.down;
    LinkKeepsWaiting(s, HandleStep(s, g, t0, t1, clock), g, TakeRequest(gw), if reply == None then d else Offer(d, reply.value));
  }

  lemma ReceiveLink(s: Sys, g: GatewayId)
    requires AllWaitForAnswers(s) && g in s.gws && s.down[g] != []
    ensures AllWaitForAnswers(ReceiveStep(s, g))
  {
    var gw, d := s.gws[g], s.down[g];
    var e := match d[0] case JoinAck(u, r, ok) => G.JoinAcked(u, r, ok) case CloseNotice(r) => G.RoomClosed(r);
    assert Receive(gw, d[0]) == G.Step(gw, e);
    G.StepKeepsWired(gw, e);
    StepKeepsNowhere(gw, e);
    ReceiveKeepsWaiting(gw, d);
    LinkKeepsWaiting(s, ReceiveStep(s, g), g, Receive(gw, d[0]), d[1..]);
  }

  lemma CloseLinks(s: Sys, r: RoomId)
    requires AllWaitForAnswers(s) && r in s.rs.rooms
    ensures AllWaitForAnswers(CloseStep(s, r))
  {
    forall g | g in s.gws ensures WaitsForAnswer(s.gws[g], CloseStep(s, r).down[g]) {
      NoticeKeepsWaiting(s.gws[g], s.down[g], CloseNotice(r));
    }
  }

  lemma StepKeepsWaiting(s: Sys, ev: Event)
    requires AllWaitForAnswers(s) && NothingLost(s, ev)
    ensures AllWaitForAnswers(Step(s, ev))
  {
    match ev
    case Local(g, e) => if g in s.gws && IsLocal(e) { LocalLink(s, g, e); }
    case ServerHandles(g, t0, t1, clock) => if g in s.gws && s.gws[g].out != [] { HandleLink(s, g, t0, t1, clock); }
    case GatewayReceives(g) => if g in s.gws && s.down[g] != [] { ReceiveLink(s, g); }
    case ServerCloses(r) => if r in s.rs.rooms { CloseLinks(s, r); }
    case _ =>
  }

  /**
   * In every run in which no request and no answer is lost, whatever clients do,
   * with room closes, sweeps and crashes: a registered connection is Pending in a
   * room only while a join or resume of its user for that room, or the answer, is
   * on its way; and a connection in Init is in no room.
   */
  lemma {:induction false} RunWaitsForAnswers(ids: set<GatewayId>, n: nat, es: seq<Event>)
    requires forall i :: 0 <= i < |es| ==> NothingLost(Run(Start(ids, n), es[..i]), es[i])
    ensures AllWaitForAnswers(Run(Start(ids, n), es))
    decreases |es|
  {
    if es != [] {
      var front := es[..|es| - 1];
      assert forall i :: 0 <= i < |front| ==> front[i] == es[i] && front[..i] == es[..i];
      RunWaitsForAnswers(ids, n, front);
      StepKeepsWaiting(Run(Start(ids, n), front), es[|es| - 1]);
    }
  }

  /** So with nothing on its way every registered connection is Confirmed, or in Init and in no room. */
  lemma NobodyWaitsAtRest(ids: set<GatewayId>, n: nat, es: seq<Event>, g: GatewayId, c: ConnId)
    requires forall i :: 0 <= i < |es| ==> NothingLost(Run(Start(ids, n), es[..i]), es[i])
    requires var s := Run(Start(ids, n), es);
      g in s.gws && g in s.down && s.gws[g].out == [] && s.down[g] == [] && G.Registered(s.gws[g], c)
    ensures var conn := Run(Start(ids, n), es).gws[g].conns[c];
      conn.joinState == Confirmed || (conn.joinState == Init && conn.roomId == "")
  {
    RunWaitsForAnswers(ids, n, es);
    var s := Run(Start(ids, n), es);
    var gw := s.gws[g];
    assert LinkWaits(gw, s.down[g]);
    NothingToWaitFor(gw, c);
  }

  lemma NothingToWaitFor(gw: Gw, c: ConnId)
    requires LinkWaits(gw, []) && gw.out == [] && G.Registered(gw, c)
    ensures gw.conns[c].joinState != Pending
  {
    var r := gw.conns[c].roomId;
    assert Waits(gw, c, r) <==> gw.conns[c].joinState == Pending;
    assert !OnItsWay(gw.out, [], gw.conns[c].userId, r);
  }

  // ---------------------------------------------------------------- a lost answer

  /** When the answer is lost the connection waits for good: it is Pending and nothing is on its way. */
  lemma LostAnswerStrands(g: GatewayId, n: nat, c: ConnId, u: UserId, r: RoomId) returns (s: Sys)
    requires HasShard(u, n)
    ensures s == Run(Start({g}, n), [Local(g, G.Connect(c, u)), Local(g, G.ClientJoin(c, r))]
                                    + [ServerHandles(g, 0, 0, [])] + [LoseReply(g)])
    ensures g in s.gws && g in s.down && s.gws[g].out == [] && s.down[g] == []
    ensures G.Registered(s.gws[g], c) && Waits(s.gws[g], c, r)
  {
    var asked := JoinUnderWay(g, n, c, u, r);
    var es := [Local(g, G.Connect(c, u)), Local(g, G.ClientJoin(c, r))];
    RunSnoc(Start({g}, n), es, ServerHandles(g, 0, 0, []));
    RunSnoc(Start({g}, n), es + [ServerHandles(g, 0, 0, [])], LoseReply(g));
    JoinGranted(asked, g, u, r);
    s := Step(Step(asked, ServerHandles(g, 0, 0, [])), LoseReply(g));
  }
}
