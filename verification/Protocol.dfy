/**
 * The Gateways and the Roomserver as one system, joined by bounded queues that
 * drop when full and by streams that may lose what they carry.
 */
module Protocol {
  import opened Ids
  import opened Gateway
  import G = GatewayRuns
  import R = Roomserver
  import RR = RoomserverRuns
  import Rooms

  /** Messages from the Roomserver that change a Gateway's state. */
  datatype Reply = JoinAck(u: UserId, r: RoomId, success: bool) | CloseNotice(r: RoomId)

  /** User `u`, on Gateway `g`, and room `r`. */
  datatype Claim = Claim(g: GatewayId, u: UserId, r: RoomId)

  /**
   * `named` records which rooms clients have named in a join, resume or
   * heartbeat; `answered` records the joins and resumes that the Roomserver has
   * processed with success, by the user, room and Gateway in the request.
   */
  datatype Sys = Sys(
    gws: map<GatewayId, Gw>, down: map<GatewayId, seq<Reply>>, rs: R.State,
    named: set<Claim>, answered: set<Claim>)

  datatype Event =
    | Local(g: GatewayId, e: G.Event)
    | ServerHandles(g: GatewayId, roomTime: Time, sessionTime: Time, clock: seq<(Time, Time)>)
    | GatewayReceives(g: GatewayId)
    | LoseRequest(g: GatewayId)
    | LoseReply(g: GatewayId)
    | ServerCloses(r: RoomId)
    | ServerExpires(u: UserId, now: Time, timeout: Time)
    | ServerCrashes

  // ---------------------------------------------------------------- steps

  /** Events of clients and of the Gateway itself; the others come over the network. */
  predicate IsLocal(e: G.Event) {
    !e.JoinAcked? && !e.LeaveAcked? && !e.RoomClosed?
  }

  /** The room a client event names. */
  function Named(s: Gw, e: G.Event): set<Claim> {
    if (e.ClientJoin? || e.ClientResume? || e.ClientHeartbeat?) && e.c in s.conns
    then {Claim(s.id, s.conns[e.c].userId, e.r)} else {}
  }

  function Offer(q: seq<Reply>, m: Reply): seq<Reply> {
    if |q| < QUEUE_CAPACITY then q + [m] else q
  }

  /** The Roomserver's handling of one request: its new state, and the answer if there is one. */
  function Handle(rs: R.State, m: Request, t0: Time, t1: Time, clock: seq<(Time, Time)>): (R.State, Option<Reply>) {
    match m
    case JoinReq(u, r, g) => (R.Join(rs, u, r, g, t0, t1), Some(JoinAck(u, r, true)))
    case ResumeReq(u, r, g) =>
      (R.Resume(rs, u, r, g, t1), Some(JoinAck(u, r, R.ResumeCode(rs, u, r).0 == R.ERR_SUCCESS)))
    case LeaveReq(u, r) => (R.Leave(rs, u, r), None)
    case DisconnectReq(u, r, g) => (R.Disconnect(rs, u, r, t0, t1), None)
    case BatchReq(g, users) =>
      (if |clock| == |users| then R.Run(rs, R.BatchEvents(g, users, clock)) else rs, None)
  }

  ghost function LocalStep(s: Sys, g: GatewayId, e: G.Event): Sys
    requires g in s.gws
  {
    s.(gws := s.gws[g := G.Step(s.gws[g], e)], named := s.named + Named(s.gws[g], e))
  }

  function TakeRequest(gw: Gw): Gw {
    if gw.out == [] then gw else gw.(out := gw.out[1..])
  }

  function HandleStep(s: Sys, g: GatewayId, t0: Time, t1: Time, clock: seq<(Time, Time)>): Sys
    requires g in s.gws && g in s.down && s.gws[g].out != []
  {
    var m := s.gws[g].out[0];
    var (rs', reply) := Handle(s.rs, m, t0, t1, clock);
    var s1 := s.(gws := s.gws[g := TakeRequest(s.gws[g])], rs := rs');
    if reply == None then s1
    else s1.(down := s.down[g := Offer(s.down[g], reply.value)],
             answered := if reply.value.success then s.answered + {Claim(m.g, m.u, m.r)} else s.answered)
  }

  function Receive(gw: Gw, m: Reply): Gw {
    match m
    case JoinAck(u, r, success) => OnJoinAck(gw, u, r, success)
    case CloseNotice(r) => OnRoomClose(gw, r)
  }

  function ReceiveStep(s: Sys, g: GatewayId): Sys
    requires g in s.gws && g in s.down && s.down[g] != []
  {
    s.(gws := s.gws[g := Receive(s.gws[g], s.down[g][0])], down := s.down[g := s.down[g][1..]])
  }

  /** The Gateways with a view of the room are told, as far as their queues have room. */
  function CloseStep(s: Sys, r: RoomId): Sys
    requires r in s.rs.rooms
  {
    s.(rs := R.Close(s.rs, r),
       down := map g | g in s.down ::
         if g in s.rs.rooms[r].gateways then Offer(s.down[g], CloseNotice(r)) else s.down[g])
  }

  ghost function Step(s: Sys, ev: Event): Sys {
    match ev
    case Local(g, e) => if g in s.gws && IsLocal(e) then LocalStep(s, g, e) else s
    case ServerHandles(g, t0, t1, clock) =>
      if g in s.gws && g in s.down && s.gws[g].out != [] then HandleStep(s, g, t0, t1, clock) else s
    case GatewayReceives(g) => if g in s.gws && g in s.down && s.down[g] != [] then ReceiveStep(s, g) else s
    case LoseRequest(g) => if g in s.gws then s.(gws := s.gws[g := TakeRequest(s.gws[g])]) else s
    case LoseReply(g) => if g in s.down && s.down[g] != [] then s.(down := s.down[g := s.down[g][1..]]) else s
    case ServerCloses(r) => if r in s.rs.rooms then CloseStep(s, r) else s
    case ServerExpires(u, now, timeout) => s.(rs := R.Expire(s.rs, u, now, timeout))
    case ServerCrashes => s.(rs := R.EMPTY)
  }

  function Start(ids: set<GatewayId>, shardCount: nat): Sys {
    Sys(map g | g in ids :: G.Start(g, shardCount), map g | g in ids :: [], R.EMPTY, {}, {})
  }

  ghost function Run(s: Sys, es: seq<Event>): Sys
    decreases |es|
  {
    if es == [] then s else Step(Run(s, es[..|es| - 1]), es[|es| - 1])
  }

  lemma RunSnoc(s: Sys, es: seq<Event>, ev: Event)
    ensures Run(s, es + [ev]) == Step(Run(s, es), ev)
  {
    assert (es + [ev])[..|es|] == es;
  }

  lemma {:induction false} RunConcat(s: Sys, a: seq<Event>, b: seq<Event>)
    ensures Run(s, a + b) == Run(Run(s, a), b)
    decreases |b|
  {
    if b == [] {
      assert a + b == a;
    } else {
      assert (a + b)[..|a + b| - 1] == a + b[..|b| - 1];
      RunConcat(s, a, b[..|b| - 1]);
    }
  }

  /** The state in which a newly connected client has asked for a room and nobody has answered. */
  lemma JoinUnderWay(g: GatewayId, n: nat, c: ConnId, u: UserId, r: RoomId) returns (s: Sys)
    requires HasShard(u, n)
    ensures s == Run(Start({g}, n), [Local(g, G.Connect(c, u)), Local(g, G.ClientJoin(c, r))])
    ensures s.gws.Keys == {g} && s.down == map[g := []] && s.rs == R.EMPTY
    ensures var gw := s.gws[g];
      && gw.id == g && gw.localRooms == map[] && gw.out == [JoinReq(u, r, g)]
      && gw.connections == map[u := c]
      && gw.conns == map[c := Conn(u, Pending, r, true, Some(ShardIndex(u, n)))]
  {
    var s0, connect, join := Start({g}, n), Local(g, G.Connect(c, u)), Local(g, G.ClientJoin(c, r));
    RunSnoc(s0, [], connect);
    RunSnoc(s0, [connect], join);
    assert [] + [connect] == [connect] && [connect] + [join] == [connect, join];
    var s1 := LocalStep(s0, g, connect.e);
    s := LocalStep(s1, g, join.e);
    AskedFirst(g, n, c, u, r);
  }

  lemma AskedFirst(g: GatewayId, n: nat, c: ConnId, u: UserId, r: RoomId)
    requires HasShard(u, n)
    ensures var gw := G.Step(G.Step(G.Start(g, n), G.Connect(c, u)), G.ClientJoin(c, r));
      && gw.id == g && gw.localRooms == map[] && gw.out == [JoinReq(u, r, g)]
      && gw.connections == map[u := c]
      && gw.conns == map[c := Conn(u, Pending, r, true, Some(ShardIndex(u, n)))]
  {
  }

  predicate NoBatch(q: seq<Request>) {
    forall i :: 0 <= i < |q| ==> !q[i].BatchReq?
  }

  // ---------------------------------------------------------------- what a local step sends

  predicate IsAsk(m: Request) {
    m.JoinReq? || m.ResumeReq?
  }

  /** A join or resume carries the Gateway's own ID and a room its user has named; a batch carries the ID. */
  predicate HonestRequest(m: Request, g: GatewayId, named: set<Claim>) {
    && (IsAsk(m) ==> m.g == g && Claim(g, m.u, m.r) in named)
    && (m.BatchReq? ==> m.g == g)
  }

  ghost predicate Honest(out: seq<Request>, g: GatewayId, named: set<Claim>) {
    forall i :: 0 <= i < |out| ==> HonestRequest(out[i], g, named)
  }

  lemma {:induction false} SendAllHonest(s: Gw, ms: seq<Request>, named: set<Claim>)
    requires Honest(s.out, s.id, named) && forall i :: 0 <= i < |ms| ==> !IsAsk(ms[i]) && !ms[i].BatchReq?
    ensures Honest(SendAll(s, ms).out, s.id, named)
    decreases |ms|
  {
    if ms != [] { SendAllHonest(s, ms[..|ms| - 1], named); }
  }

  lemma SendHonest(s: Gw, m: Request, g: GatewayId, named: set<Claim>)
    requires Honest(s.out, g, named) && HonestRequest(m, g, named)
    ensures Honest(Send(s, m).out, g, named)
  {
  }

  lemma CloseHonest(s: Gw, c: ConnId, named: set<Claim>)
    requires Honest(s.out, s.id, named)
    ensures CloseConn(s, c).id == s.id && Honest(CloseConn(s, c).out, s.id, named)
    ensures forall r, u :: InGroup(CloseConn(s, c).localRooms, r, u) ==> InGroup(s.localRooms, r, u)
  {
  }

  lemma HeartbeatHonest(s: Gw, c: ConnId, r: RoomId, found: RoomId, named: set<Claim>)
    requires c in s.conns && Honest(s.out, s.id, named) && Claim(s.id, s.conns[c].userId, r) in named
    ensures HandleHeartbeat(s, c, r, found).id == s.id && Honest(HandleHeartbeat(s, c, r, found).out, s.id, named)
  {
    var u := s.conns[c].userId;
    var left := Send(s, LeaveReq(u, found));
    SendHonest(s, LeaveReq(u, found), s.id, named);
    SendHonest(SetJoin(s, c, Pending, r), JoinReq(u, r, s.id), s.id, named);
    SendHonest(SetJoin(left, c, Pending, r), JoinReq(u, r, s.id), s.id, named);
  }

  lemma LeaveHonest(s: Gw, c: ConnId, r: RoomId, named: set<Claim>)
    requires c in s.conns && Honest(s.out, s.id, named)
    ensures HandleLeave(s, c, r).id == s.id && Honest(HandleLeave(s, c, r).out, s.id, named)
    ensures forall q, u :: InGroup(HandleLeave(s, c, r).localRooms, q, u) ==> InGroup(s.localRooms, q, u)
  {
  }

  lemma AskHonest(s: Gw, c: ConnId, r: RoomId, named: set<Claim>)
    requires c in s.conns && Honest(s.out, s.id, named) && Claim(s.id, s.conns[c].userId, r) in named
    ensures HandleJoin(s, c, r).id == s.id && Honest(HandleJoin(s, c, r).out, s.id, named)
    ensures HandleResume(s, c, r).id == s.id && Honest(HandleResume(s, c, r).out, s.id, named)
  {
  }

  /** What a local step queues is honest, and it adds nobody to the local rooms: only an acknowledgement does. */
  lemma LocalStepHonest(s: Gw, e: G.Event, named: set<Claim>)
    requires Honest(s.out, s.id, named) && IsLocal(e)
    ensures G.Step(s, e).id == s.id && Honest(G.Step(s, e).out, s.id, named + Named(s, e))
    ensures forall r, u :: InGroup(G.Step(s, e).localRooms, r, u) ==> InGroup(s.localRooms, r, u)
  {
    var more := named + Named(s, e);
    assert Honest(s.out, s.id, more);
    match e
    case Connect(c, u) => if c !in s.conns && u in s.connections { CloseHonest(s, s.connections[u], more); }
    case Close(c) => CloseHonest(s, c, more);
    case ClientLeave(c, r) => if c in s.conns { LeaveHonest(s, c, r, more); }
    case ClientJoin(c, r) => if c in s.conns { AskHonest(s, c, r, more); }
    case ClientResume(c, r) => if c in s.conns { AskHonest(s, c, r, more); }
    case ClientHeartbeat(c, r, found) => if c in s.conns { HeartbeatHonest(s, c, r, found, more); }
    case DrainParked =>
      var s1 := s.(pendingLeaves := [], pendingDisconnects := []);
      G.DrainOnlySends(s);
      SendAllHonest(s1, Parked(s), more);
    case _ => G.QuietStep(s, e);
  }

  // ---------------------------------------------------------------- bounded queues

  ghost predicate QueuesBounded(s: Sys) {
    && (forall g :: g in s.gws ==> |s.gws[g].out| <= 10000)
    && (forall g :: g in s.down ==> |s.down[g]| <= 10000)
  }

  lemma ReceiveSendsNothing(gw: Gw, m: Reply)
    ensures Receive(gw, m).out == gw.out
  {
  }

  lemma StepKeepsQueuesBounded(s: Sys, ev: Event)
    requires QueuesBounded(s)
    ensures QueuesBounded(Step(s, ev))
  {
    match ev
    case Local(g, e) => if g in s.gws && IsLocal(e) { G.StepFitsQueue(s.gws[g], e); }
    case GatewayReceives(g) =>
      if g in s.gws && g in s.down && s.down[g] != [] { ReceiveSendsNothing(s.gws[g], s.down[g][0]); }
    case _ =>
  }

  /** In every run no queue, to the Roomserver or back, holds more than 10000 messages. */
  lemma {:induction false} RunKeepsQueuesBounded(ids: set<GatewayId>, n: nat, es: seq<Event>)
    ensures QueuesBounded(Run(Start(ids, n), es))
    decreases |es|
  {
    if es != [] {
      RunKeepsQueuesBounded(ids, n, es[..|es| - 1]);
      StepKeepsQueuesBounded(Run(Start(ids, n), es[..|es| - 1]), es[|es| - 1]);
    }
  }

  // ---------------------------------------------------------------- safety

  ghost predicate AcksAnswered(q: seq<Reply>, g: GatewayId, answered: set<Claim>) {
    forall i :: 0 <= i < |q| && q[i].JoinAck? && q[i].success ==> Claim(g, q[i].u, q[i].r) in answered
  }

  ghost predicate LocalsAnswered(rooms: LocalRooms, g: GatewayId, answered: set<Claim>) {
    forall r, u :: InGroup(rooms, r, u) ==> Claim(g, u, r) in answered
  }

  /**
   * A Gateway holds a user in a room only if the Roomserver has answered that
   * Gateway's request for them with success, hence only if the client named
   * that room.
   */
  ghost predicate Safe(s: Sys) {
    && s.answered <= s.named
    && (forall g :: g in s.gws ==> s.gws[g].id == g && Honest(s.gws[g].out, g, s.named))
    && (forall g :: g in s.gws ==> LocalsAnswered(s.gws[g].localRooms, g, s.answered))
    && (forall g :: g in s.down ==> AcksAnswered(s.down[g], g, s.answered))
  }

  lemma LocalKeepsSafe(s: Sys, g: GatewayId, e: G.Event)
    requires Safe(s) && g in s.gws && IsLocal(e)
    ensures Safe(LocalStep(s, g, e))
  {
    LocalStepHonest(s.gws[g], e, s.named);
  }

  lemma HandleKeepsSafe(s: Sys, g: GatewayId, t0: Time, t1: Time, clock: seq<(Time, Time)>)
    requires Safe(s) && g in s.gws && g in s.down && s.gws[g].out != []
    ensures Safe(HandleStep(s, g, t0, t1, clock))
  {
  }

  lemma ReceiveKeepsSafe(s: Sys, g: GatewayId)
    requires Safe(s) && g in s.gws && g in s.down && s.down[g] != []
    ensures Safe(ReceiveStep(s, g))
  {
  }

  lemma CloseKeepsSafe(s: Sys, r: RoomId)
    requires Safe(s) && r in s.rs.rooms
    ensures Safe(CloseStep(s, r))
  {
  }

  lemma StepKeepsSafe(s: Sys, ev: Event)
    requires Safe(s)
    ensures Safe(Step(s, ev))
  {
    match ev
    case Local(g, e) => if g in s.gws && IsLocal(e) { LocalKeepsSafe(s, g, e); }
    case ServerHandles(g, t0, t1, clock) =>
      if g in s.gws && g in s.down && s.gws[g].out != [] { HandleKeepsSafe(s, g, t0, t1, clock); }
    case GatewayReceives(g) => if g in s.gws && g in s.down && s.down[g] != [] { ReceiveKeepsSafe(s, g); }
    case ServerCloses(r) => if r in s.rs.rooms { CloseKeepsSafe(s, r); }
    case _ =>
  }

  /** Two-machine safety over every run, with drops, losses, room closes and crashes. */
  lemma {:induction false} RunIsSafe(ids: set<GatewayId>, n: nat, es: seq<Event>)
    ensures Safe(Run(Start(ids, n), es))
    decreases |es|
  {
    if es != [] {
      RunIsSafe(ids, n, es[..|es| - 1]);
      StepKeepsSafe(Run(Start(ids, n), es[..|es| - 1]), es[|es| - 1]);
    }
  }

  /** After a success answer the user is in the room exactly if it asked to join, or was a member before it resumed. */
  lemma GrantMeansMemberIff(rs: R.State, m: Request, t0: Time, t1: Time, clock: seq<(Time, Time)>)
    requires IsAsk(m) && Handle(rs, m, t0, t1, clock).1 == Some(JoinAck(m.u, m.r, true))
    ensures Rooms.InRoom(Handle(rs, m, t0, t1, clock).0.rooms, m.r, m.u) <==> m.JoinReq? || Rooms.InRoom(rs.rooms, m.r, m.u)
  {
    if m.ResumeReq? { RR.ResumedIsMemberIff(rs, m.u, m.r, m.g, t1); }
  }

  /** The event at which the Roomserver processes, with success, the claim's join or resume. */
  ghost predicate Grants(s: Sys, ev: Event, c: Claim) {
    && ev.ServerHandles? && ev.g in s.gws && s.gws[ev.g].out != [] && IsAsk(s.gws[ev.g].out[0])
    && var m := s.gws[ev.g].out[0];
       Claim(m.g, m.u, m.r) == c
       && Handle(s.rs, m, ev.roomTime, ev.sessionTime, ev.clock).1 == Some(JoinAck(c.u, c.r, true))
  }

  /** The event at which the claim's client names the claim's room. */
  ghost predicate Names(s: Sys, ev: Event, c: Claim) {
    ev.Local? && ev.g == c.g && ev.g in s.gws && c in Named(s.gws[ev.g], ev.e)
  }

  lemma StepAnswers(s: Sys, ev: Event, c: Claim)
    requires c in Step(s, ev).answered && c !in s.answered
    ensures Grants(s, ev, c)
  {
  }

  lemma StepNames(s: Sys, ev: Event, c: Claim)
    requires Safe(s) && c in Step(s, ev).named && c !in s.named
    ensures Names(s, ev, c)
  {
  }

  lemma {:induction false} AnsweredInTrace(ids: set<GatewayId>, n: nat, es: seq<Event>, c: Claim) returns (i: nat)
    requires c in Run(Start(ids, n), es).answered
    ensures i < |es| && Grants(Run(Start(ids, n), es[..i]), es[i], c)
    decreases |es|
  {
    var front := es[..|es| - 1];
    if c in Run(Start(ids, n), front).answered {
      i := AnsweredInTrace(ids, n, front, c);
      assert front[..i] == es[..i] && front[i] == es[i];
    } else {
      i := |es| - 1;
      StepAnswers(Run(Start(ids, n), front), es[i], c);
    }
  }

  lemma {:induction false} NamedInTrace(ids: set<GatewayId>, n: nat, es: seq<Event>, c: Claim) returns (i: nat)
    requires c in Run(Start(ids, n), es).named
    ensures i < |es| && Names(Run(Start(ids, n), es[..i]), es[i], c)
    decreases |es|
  {
    var front := es[..|es| - 1];
    if c in Run(Start(ids, n), front).named {
      i := NamedInTrace(ids, n, front, c);
      assert front[..i] == es[..i] && front[i] == es[i];
    } else {
      i := |es| - 1;
      RunIsSafe(ids, n, front);
      StepNames(Run(Start(ids, n), front), es[i], c);
    }
  }

  /**
   * A Gateway that holds a user in a room has a grant for them in its past, and
   * before the grant the user's client named the room on that Gateway.
   */
  lemma HeldOnlyIfGranted(ids: set<GatewayId>, n: nat, es: seq<Event>, g: GatewayId, r: RoomId, u: UserId)
    returns (granted: nat, named: nat)
    requires g in Run(Start(ids, n), es).gws && InGroup(Run(Start(ids, n), es).gws[g].localRooms, r, u)
    ensures named < granted < |es|
    ensures Grants(Run(Start(ids, n), es[..granted]), es[granted], Claim(g, u, r))
    ensures Names(Run(Start(ids, n), es[..named]), es[named], Claim(g, u, r))
  {
    RunIsSafe(ids, n, es);
    granted := AnsweredInTrace(ids, n, es, Claim(g, u, r));
    var before := es[..granted];
    RunIsSafe(ids, n, before);
    assert Honest(Run(Start(ids, n), before).gws[es[granted].g].out, es[granted].g, Run(Start(ids, n), before).named);
    named := NamedInTrace(ids, n, before, Claim(g, u, r));
    assert before[..named] == es[..named] && before[named] == es[named];
  }
}
