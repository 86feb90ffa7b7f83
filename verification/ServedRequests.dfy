/**
 * What the Roomserver has been asked: the requests it handles in a run of the
 * system, as events of its own, and where they come from in the Gateways' queues.
 */
module ServedRequests {
  import opened Ids
  import opened Gateway
  import opened Protocol
  import opened UserRecords
  import G = GatewayRuns
  import R = Roomserver
  import RR = RoomserverRuns
  import C = CrashRecovery
  import opened Rooms

  /** The Roomserver events that a request stands for, with the clock readings of their handling. */
  function Events(m: Request, t0: Time, t1: Time, clock: seq<(Time, Time)>): seq<R.Event> {
    match m
    case JoinReq(u, r, g) => [R.JoinEvent(u, r, g, t0, t1)]
    case LeaveReq(u, r) => [R.LeaveEvent(u, r)]
    case ResumeReq(u, r, g) => [R.ResumeEvent(u, r, g, t1)]
    case DisconnectReq(u, r, _) => [R.DisconnectEvent(u, r, t0, t1)]
    case BatchReq(g, users) => if |clock| == |users| then R.BatchEvents(g, users, clock) else []
  }

  lemma RunOne(rs: R.State, e: R.Event)
    ensures R.Run(rs, [e]) == R.Step(rs, e)
  {
    assert [e][..0] == [];
  }

  lemma HandleRuns(rs: R.State, m: Request, t0: Time, t1: Time, clock: seq<(Time, Time)>)
    ensures Handle(rs, m, t0, t1, clock).0 == R.Run(rs, Events(m, t0, t1, clock))
  {
    if !m.BatchReq? { RunOne(rs, Events(m, t0, t1, clock)[0]); }
  }

  /** The requests and timeouts that one step of the system brings to the Roomserver. */
  function Served(s: Sys, ev: Event): seq<R.Event> {
    match ev
    case ServerHandles(g, t0, t1, clock) =>
      if g in s.gws && g in s.down && s.gws[g].out != [] then Events(s.gws[g].out[0], t0, t1, clock) else []
    case ServerExpires(u, now, timeout) => [R.ExpireEvent(u, now, timeout)]
    case _ => []
  }

  ghost function Trace(s: Sys, es: seq<Event>): seq<R.Event>
    decreases |es|
  {
    if es == [] then [] else Trace(s, es[..|es| - 1]) + Served(Run(s, es[..|es| - 1]), es[|es| - 1])
  }

  /** No room is closed by the backend, and the Roomserver does not crash. */
  ghost predicate ServerStays(es: seq<Event>) {
    forall i :: 0 <= i < |es| ==> !es[i].ServerCloses? && !es[i].ServerCrashes?
  }

  lemma {:induction false} ServerRunConcat(rs: R.State, a: seq<R.Event>, b: seq<R.Event>)
    ensures R.Run(rs, a + b) == R.Run(R.Run(rs, a), b)
    decreases |b|
  {
    if b == [] {
      assert a + b == a;
    } else {
      assert (a + b)[..|a + b| - 1] == a + b[..|b| - 1];
      ServerRunConcat(rs, a, b[..|b| - 1]);
    }
  }

  lemma StepServes(s: Sys, ev: Event)
    requires !ev.ServerCloses? && !ev.ServerCrashes?
    ensures Step(s, ev).rs == R.Run(s.rs, Served(s, ev))
    ensures NoClose(Served(s, ev))
  {
    match ev
    case ServerHandles(g, t0, t1, clock) =>
      if g in s.gws && g in s.down && s.gws[g].out != [] { HandleRuns(s.rs, s.gws[g].out[0], t0, t1, clock); }
    case ServerExpires(u, now, timeout) => RunOne(s.rs, R.ExpireEvent(u, now, timeout));
    case _ =>
  }

  /** Whatever else happens in the system, the Roomserver's state is that of the requests it has handled. */
  lemma {:induction false} RunServes(s: Sys, es: seq<Event>)
    requires ServerStays(es)
    ensures Run(s, es).rs == R.Run(s.rs, Trace(s, es)) && NoClose(Trace(s, es))
    decreases |es|
  {
    if es != [] {
      var front, ev := es[..|es| - 1], es[|es| - 1];
      RunServes(s, front);
      StepServes(Run(s, front), ev);
      ServerRunConcat(s.rs, Trace(s, front), Served(Run(s, front), ev));
    }
  }

  /** From an empty Roomserver on, a user's record is that of its own handled requests alone. */
  lemma RecordProjects(s: Sys, es: seq<Event>, u: UserId)
    requires s.rs == R.EMPTY && ServerStays(es)
    ensures RR.Untouched(Run(s, es).rs, R.Run(R.EMPTY, Of(Trace(s, es), u)), u)
  {
    RunServes(s, es);
    RunProjects(Trace(s, es), u);
  }

  /** Every room ever joined has somebody placed in it. */
  ghost predicate RoomsUsed(trace: seq<R.Event>, p: C.Placement) {
    forall r :: Joined(trace, r) ==> Populated(p, r)
  }

  lemma HoldsInRunIff(s: Sys, es: seq<Event>, p: C.Placement)
    requires s.rs == R.EMPTY && ServerStays(es)
    ensures C.Holds(Run(s, es).rs, p) <==> (forall u :: RecordIs(Run(s, es).rs, u, p)) && RoomsUsed(Trace(s, es), p)
  {
    var rs, trace := Run(s, es).rs, Trace(s, es);
    RunServes(s, es);
    HoldsIff(rs, p);
    NothingEmptyIff(trace);
    if forall u :: RecordIs(rs, u, p) { MembersAre(rs, p); }
  }

  /**
   * From an empty Roomserver on, through any activity of Gateways and network:
   * the users are where a placement says exactly when their own handled requests,
   * each user's alone, put each of them there.
   */
  lemma RecoveredIff(s: Sys, es: seq<Event>, p: C.Placement)
    requires s.rs == R.EMPTY && ServerStays(es)
    ensures forall u :: RecordIs(Run(s, es).rs, u, p) <==> RecordIs(R.Run(R.EMPTY, Of(Trace(s, es), u)), u, p)
    ensures C.Holds(Run(s, es).rs, p) <==>
      (forall u :: RecordIs(R.Run(R.EMPTY, Of(Trace(s, es), u)), u, p)) && RoomsUsed(Trace(s, es), p)
  {
    forall u ensures RecordIs(Run(s, es).rs, u, p) <==> RecordIs(R.Run(R.EMPTY, Of(Trace(s, es), u)), u, p) {
      RecordProjects(s, es, u);
      RecordStays(Run(s, es).rs, R.Run(R.EMPTY, Of(Trace(s, es), u)), u, p);
    }
    HoldsInRunIff(s, es, p);
  }

  lemma MembersAre(rs: R.State, p: C.Placement)
    requires forall u :: RecordIs(rs, u, p)
    ensures forall r :: HasMember(rs.rooms, r) <==> Populated(p, r)
  {
    RecordsHold(rs, p);
    forall r ensures HasMember(rs.rooms, r) <==> Populated(p, r) {
      if u :| u in p && p[u].roomId == r { assert InRoom(rs.rooms, r, u); }
    }
  }

  // ---------------------------------------------------------------- times aside

  function Zeroed(e: R.Event): R.Event {
    match e
    case JoinEvent(u, r, g, _, _) => R.JoinEvent(u, r, g, ZERO_TIME, ZERO_TIME)
    case LeaveEvent(u, r) => e
    case ResumeEvent(u, r, g, _) => R.ResumeEvent(u, r, g, ZERO_TIME)
    case DisconnectEvent(u, r, _, _) => R.DisconnectEvent(u, r, ZERO_TIME, ZERO_TIME)
    case CloseEvent(r) => e
    case ExpireEvent(u, _, timeout) => R.ExpireEvent(u, ZERO_TIME, timeout)
  }

  function ZeroAll(es: seq<R.Event>): seq<R.Event> {
    seq(|es|, i requires 0 <= i < |es| => Zeroed(es[i]))
  }

  lemma {:induction false} ZeroOf(es: seq<R.Event>, u: UserId)
    ensures Of(ZeroAll(es), u) == ZeroAll(Of(es, u))
    decreases |es|
  {
    if es != [] {
      var front, zero := es[..|es| - 1], ZeroAll(es);
      assert zero[..|zero| - 1] == ZeroAll(front);
      ZeroOf(front, u);
    }
  }

  lemma {:induction false} ZeroStanding(es: seq<R.Event>, u: UserId)
    ensures Current(ZeroAll(es), u) == Current(es, u)
    ensures forall r :: Standing(ZeroAll(es), u, r) <==> Standing(es, u, r)
    decreases |es|
  {
    if es != [] {
      var front, zero := es[..|es| - 1], ZeroAll(es);
      assert zero[..|zero| - 1] == ZeroAll(front);
      ZeroStanding(front, u);
    }
  }

  // ---------------------------------------------------------------- what is in a queue

  /** The pairs of a resync batch as joins from `g`. */
  function PairDeeds(g: GatewayId, pairs: seq<UserRoomPair>): seq<R.Event> {
    seq(|pairs|, i requires 0 <= i < |pairs| => R.JoinEvent(pairs[i].userId, pairs[i].roomId, g, ZERO_TIME, ZERO_TIME))
  }

  /** What a request will do, times aside. */
  function Deeds(m: Request): seq<R.Event> {
    match m
    case JoinReq(u, r, g) => [R.JoinEvent(u, r, g, ZERO_TIME, ZERO_TIME)]
    case LeaveReq(u, r) => [R.LeaveEvent(u, r)]
    case ResumeReq(u, r, g) => [R.ResumeEvent(u, r, g, ZERO_TIME)]
    case DisconnectReq(u, r, _) => [R.DisconnectEvent(u, r, ZERO_TIME, ZERO_TIME)]
    case BatchReq(g, users) => PairDeeds(g, users)
  }

  function QueueDeeds(q: seq<Request>): seq<R.Event>
    decreases |q|
  {
    if q == [] then [] else QueueDeeds(q[..|q| - 1]) + Deeds(q[|q| - 1])
  }

  lemma {:induction false} QueueDeedsHead(q: seq<Request>)
    requires q != []
    ensures QueueDeeds(q) == Deeds(q[0]) + QueueDeeds(q[1..])
    decreases |q|
  {
    if |q| == 1 {
      assert q[..0] == [] && q[1..] == [];
    } else {
      var front, last := q[..|q| - 1], q[|q| - 1];
      QueueDeedsHead(front);
      assert q[1..] == front[1..] + [last];
      QueueDeedsSnoc(front[1..], last);
      Associative(Deeds(q[0]), QueueDeeds(front[1..]), Deeds(last));
    }
  }

  lemma QueueDeedsSnoc(q: seq<Request>, m: Request)
    ensures QueueDeeds(q + [m]) == QueueDeeds(q) + Deeds(m)
  {
    assert (q + [m])[..|q|] == q;
  }

  lemma Associative<T>(a: seq<T>, b: seq<T>, c: seq<T>)
    ensures (a + b) + c == a + (b + c)
  {
  }

  lemma EventsAreDeeds(m: Request, t0: Time, t1: Time, clock: seq<(Time, Time)>)
    requires m.BatchReq? ==> |clock| == |m.users|
    ensures ZeroAll(Events(m, t0, t1, clock)) == Deeds(m)
  {
  }

  lemma {:induction false} QueueDeedsConcat(q: seq<Request>, q': seq<Request>)
    ensures QueueDeeds(q + q') == QueueDeeds(q) + QueueDeeds(q')
    decreases |q'|
  {
    if q' == [] {
      assert q + q' == q;
    } else {
      var front, last := q'[..|q'| - 1], q'[|q'| - 1];
      QueueDeedsConcat(q, front);
      Associative(q, front, [last]);
      assert q' == front + [last];
      QueueDeedsSnoc(q + front, last);
      QueueDeedsSnoc(front, last);
      Associative(QueueDeeds(q), QueueDeeds(front), Deeds(last));
    }
  }

  // ---------------------------------------------------------------- what a step adds to a queue

  /** Sends only add to the queue. */
  lemma {:induction false} SendAllAppends(s: Gw, ms: seq<Request>)
    ensures s.out <= SendAll(s, ms).out
    decreases |ms|
  {
    if ms != [] { SendAllAppends(s, ms[..|ms| - 1]); }
  }

  lemma CloseAppends(s: Gw, c: ConnId)
    ensures s.out <= CloseConn(s, c).out
  {
  }

  lemma ConnectAppends(s: Gw, c: ConnId, u: UserId)
    ensures s.out <= AddConnection(s, c, u).out
  {
    if u in s.connections { CloseAppends(s, s.connections[u]); }
  }

  lemma ClientAppends(s: Gw, e: G.Event)
    requires G.IsClient(e)
    ensures s.out <= G.ClientStep(s, e).out
  {
  }

  lemma StepAppends(s: Gw, e: G.Event)
    ensures s.out <= G.Step(s, e).out
  {
    if G.IsClient(e) {
      ClientAppends(s, e);
    } else {
      match e
      case Connect(c, u) => if c !in s.conns { ConnectAppends(s, c, u); }
      case Close(c) => CloseAppends(s, c);
      case DrainParked => SendAllAppends(s.(pendingLeaves := [], pendingDisconnects := []), Parked(s));
      case _ =>
    }
  }

  /** What an event adds to the queue of `g`. */
  ghost function EnteredBy(s: Sys, ev: Event, g: GatewayId): seq<Request> {
    if ev.Local? && ev.g == g && g in s.gws && IsLocal(ev.e) then
      StepAppends(s.gws[g], ev.e);
      G.Step(s.gws[g], ev.e).out[|s.gws[g].out|..]
    else []
  }

  /** What has entered the queue of `g` in a run. */
  ghost function Entered(s: Sys, es: seq<Event>, g: GatewayId): seq<Request>
    decreases |es|
  {
    if es == [] then [] else Entered(s, es[..|es| - 1], g) + EnteredBy(Run(s, es[..|es| - 1]), es[|es| - 1], g)
  }

  /** All that Gateway `g` has asked for since the start of the run, what was queued then included. */
  ghost function Log(s: Sys, es: seq<Event>, g: GatewayId): seq<Request>
    requires g in s.gws
  {
    s.gws[g].out + Entered(s, es, g)
  }

  lemma LogSnoc(s: Sys, es: seq<Event>, g: GatewayId)
    requires g in s.gws && es != []
    ensures var front, ev := es[..|es| - 1], es[|es| - 1];
      Log(s, es, g) == Log(s, front, g) + EnteredBy(Run(s, front), ev, g)
  {
    var front, ev := es[..|es| - 1], es[|es| - 1];
    Associative(s.gws[g].out, Entered(s, front, g), EnteredBy(Run(s, front), ev, g));
  }

  // ---------------------------------------------------------------- queues that lose nothing

  /**
   * What is queued reaches the Roomserver, a batch with a clock reading for each
   * pair.  Clients and Gateways may do anything, in any mode; answers may be lost.
   */
  ghost predicate Flows(s: Sys, ev: Event) {
    match ev
    case Local(_, _) => true
    case ServerHandles(g, _, _, clock) =>
      g in s.gws && s.gws[g].out != [] && s.gws[g].out[0].BatchReq? ==> |clock| == |s.gws[g].out[0].users|
    case GatewayReceives(_) => true
    case LoseReply(_) => true
    case _ => false
  }

  ghost predicate Flow(s: Sys, es: seq<Event>) {
    forall i :: 0 <= i < |es| ==> Flows(Run(s, es[..i]), es[i])
  }

  lemma FlowFront(s: Sys, es: seq<Event>)
    requires Flow(s, es) && es != []
    ensures Flow(s, es[..|es| - 1]) && Flows(Run(s, es[..|es| - 1]), es[|es| - 1])
  {
    var front := es[..|es| - 1];
    assert forall i :: 0 <= i < |front| ==> front[i] == es[i] && front[..i] == es[..i];
  }

  function ServedFrom(s: Sys, ev: Event, g: GatewayId): seq<R.Event> {
    if ev.ServerHandles? && ev.g == g then Served(s, ev) else []
  }

  /** The part of the trace that comes from the queue of `g`. */
  ghost function TraceFrom(s: Sys, es: seq<Event>, g: GatewayId): seq<R.Event>
    decreases |es|
  {
    if es == [] then [] else TraceFrom(s, es[..|es| - 1], g) + ServedFrom(Run(s, es[..|es| - 1]), es[|es| - 1], g)
  }

  /** In one step the queue of `g` gives up its head, or gains what entered. */
  lemma FlowQueue(s: Sys, ev: Event, g: GatewayId)
    requires Flows(s, ev) && g in s.gws
    ensures g in Step(s, ev).gws
    ensures var q := s.gws[g].out;
      Step(s, ev).gws[g].out
      == if ev.ServerHandles? && ev.g == g && g in s.down && q != [] then q[1..] else q + EnteredBy(s, ev, g)
  {
    assert s.gws[g].out + [] == s.gws[g].out;
    match ev
    case Local(h, e) => if h == g { StepAppends(s.gws[g], e); }
    case GatewayReceives(h) => if h == g && g in s.down && s.down[g] != [] { ReceiveKeepsQueue(s.gws[g], s.down[g][0]); }
    case _ =>
  }

  lemma ReceiveKeepsQueue(gw: Gw, m: Reply)
    ensures Receive(gw, m).out == gw.out
  {
  }

  lemma StepConserves(s: Sys, ev: Event, g: GatewayId)
    requires Flows(s, ev) && g in s.gws
    ensures g in Step(s, ev).gws
    ensures ZeroAll(ServedFrom(s, ev, g)) + QueueDeeds(Step(s, ev).gws[g].out)
         == QueueDeeds(s.gws[g].out) + QueueDeeds(EnteredBy(s, ev, g))
  {
    FlowQueue(s, ev, g);
    var q, entered := s.gws[g].out, EnteredBy(s, ev, g);
    if ev.ServerHandles? && ev.g == g && g in s.down && q != [] {
      HeadServed(s, ev);
      assert entered == [] && QueueDeeds(entered) == [];
    } else {
      assert ServedFrom(s, ev, g) == [];
      QueueGrows(q, entered);
    }
  }

  lemma QueueGrows(q: seq<Request>, entered: seq<Request>)
    ensures ZeroAll([]) + QueueDeeds(q + entered) == QueueDeeds(q) + QueueDeeds(entered)
  {
    QueueDeedsConcat(q, entered);
  }

  lemma HeadServed(s: Sys, ev: Event)
    requires ev.ServerHandles? && ev.g in s.gws && ev.g in s.down && s.gws[ev.g].out != [] && Flows(s, ev)
    ensures ZeroAll(ServedFrom(s, ev, ev.g)) + QueueDeeds(s.gws[ev.g].out[1..]) == QueueDeeds(s.gws[ev.g].out)
  {
    QueueDeedsHead(s.gws[ev.g].out);
    EventsAreDeeds(s.gws[ev.g].out[0], ev.roomTime, ev.sessionTime, ev.clock);
  }

  lemma ZeroConcat(a: seq<R.Event>, b: seq<R.Event>)
    ensures ZeroAll(a + b) == ZeroAll(a) + ZeroAll(b)
  {
  }

  /** Nothing is lost, and order is kept: handled so far plus still queued is queued at the start plus entered. */
  lemma {:induction false} QueueConserved(s: Sys, es: seq<Event>, g: GatewayId)
    requires Flow(s, es) && g in s.gws
    ensures g in Run(s, es).gws
    ensures ZeroAll(TraceFrom(s, es, g)) + QueueDeeds(Run(s, es).gws[g].out) == QueueDeeds(Log(s, es, g))
    decreases |es|
  {
    if es != [] {
      var front, ev := es[..|es| - 1], es[|es| - 1];
      FlowFront(s, es);
      QueueConserved(s, front, g);
      var s1 := Run(s, front);
      StepConserves(s1, ev, g);
      ZeroConcat(TraceFrom(s, front, g), ServedFrom(s1, ev, g));
      LogSnoc(s, es, g);
      QueueDeedsConcat(Log(s, front, g), EnteredBy(s1, ev, g));
      Regroup(ZeroAll(TraceFrom(s, front, g)), ZeroAll(ServedFrom(s1, ev, g)), QueueDeeds(s1.gws[g].out),
              QueueDeeds(Run(s, es).gws[g].out), QueueDeeds(Log(s, front, g)), QueueDeeds(EnteredBy(s1, ev, g)));
    } else {
      assert Log(s, es, g) == s.gws[g].out;
    }
  }

  lemma Regroup<T>(trace: seq<T>, served: seq<T>, queue: seq<T>, queue': seq<T>, log: seq<T>, entered: seq<T>)
    requires trace + queue == log && served + queue' == queue + entered
    ensures (trace + served) + queue' == log + entered
  {
    Associative(trace, served, queue');
    Associative(trace, queue, entered);
  }

  /** If only the queue of `g` has anything about `u`, then that queue is all the Roomserver hears about `u`. */
  lemma {:induction false} HeardFromOne(s: Sys, es: seq<Event>, g: GatewayId, u: UserId)
    requires Flow(s, es)
    requires forall h :: h != g ==> Of(TraceFrom(s, es, h), u) == []
    ensures Of(Trace(s, es), u) == Of(TraceFrom(s, es, g), u)
    decreases |es|
  {
    if es != [] {
      var front, ev := es[..|es| - 1], es[|es| - 1];
      var s1 := Run(s, front);
      FlowFront(s, es);
      forall h ensures Of(TraceFrom(s, es, h), u) == Of(TraceFrom(s, front, h), u) + Of(ServedFrom(s1, ev, h), u) {
        OfConcat(TraceFrom(s, front, h), ServedFrom(s1, ev, h), u);
      }
      HeardFromOne(s, front, g, u);
      OfConcat(Trace(s, front), Served(s1, ev), u);
      ServedFromOne(s1, ev, g, u);
    }
  }

  lemma ServedFromOne(s: Sys, ev: Event, g: GatewayId, u: UserId)
    requires Flows(s, ev) && (ev.ServerHandles? && ev.g != g ==> Of(ServedFrom(s, ev, ev.g), u) == [])
    ensures Of(Served(s, ev), u) == Of(ServedFrom(s, ev, g), u)
  {
  }

  lemma FlowServerStays(s: Sys, es: seq<Event>)
    requires Flow(s, es)
    ensures ServerStays(es)
  {
    forall i | 0 <= i < |es| ensures !es[i].ServerCloses? && !es[i].ServerCrashes? {
      assert Flows(Run(s, es[..i]), es[i]);
    }
  }

  lemma {:induction false} UnknownGateway(s: Sys, es: seq<Event>, g: GatewayId)
    requires Flow(s, es) && g !in s.gws
    ensures g !in Run(s, es).gws && TraceFrom(s, es, g) == []
    decreases |es|
  {
    if es != [] {
      FlowFront(s, es);
      UnknownGateway(s, es[..|es| - 1], g);
    }
  }

  // ---------------------------------------------------------------- users of one Gateway

  /** Joins, resumes and batches carry the Gateway's own ID. */
  ghost predicate FromHere(q: seq<Request>, g: GatewayId) {
    forall i :: 0 <= i < |q| && (IsAsk(q[i]) || q[i].BatchReq?) ==> q[i].g == g
  }

  lemma {:induction false} RunStaysSafe(s: Sys, es: seq<Event>)
    requires Safe(s)
    ensures Safe(Run(s, es)) && Run(s, es).gws.Keys == s.gws.Keys
    decreases |es|
  {
    if es != [] {
      var s1 := Run(s, es[..|es| - 1]);
      RunStaysSafe(s, es[..|es| - 1]);
      StepKeepsSafe(s1, es[|es| - 1]);
      StepKeepsGateways(s1, es[|es| - 1]);
    }
  }

  lemma StepKeepsGateways(s: Sys, ev: Event)
    ensures Step(s, ev).gws.Keys == s.gws.Keys
  {
  }

  lemma {:induction false} LogFromHere(s: Sys, es: seq<Event>, g: GatewayId)
    requires Safe(s) && g in s.gws
    ensures FromHere(Log(s, es, g), g)
    decreases |es|
  {
    if es == [] {
      FromHereOf(s.gws[g].out, g, s.named);
      assert Log(s, es, g) == s.gws[g].out;
    } else {
      var front, ev := es[..|es| - 1], es[|es| - 1];
      LogFromHere(s, front, g);
      RunStaysSafe(s, front);
      EnteredFromHere(Run(s, front), ev, g);
      LogSnoc(s, es, g);
      FromHereConcat(Log(s, front, g), EnteredBy(Run(s, front), ev, g), g);
    }
  }

  lemma FromHereConcat(q: seq<Request>, q': seq<Request>, g: GatewayId)
    requires FromHere(q, g) && FromHere(q', g)
    ensures FromHere(q + q', g)
  {
  }

  lemma FromHereOf(q: seq<Request>, g: GatewayId, named: set<Claim>)
    requires Honest(q, g, named)
    ensures FromHere(q, g)
  {
    forall i | 0 <= i < |q| && (IsAsk(q[i]) || q[i].BatchReq?) ensures q[i].g == g {
      assert HonestRequest(q[i], g, named);
    }
  }

  lemma EnteredFromHere(s: Sys, ev: Event, g: GatewayId)
    requires Safe(s) && g in s.gws
    ensures FromHere(EnteredBy(s, ev, g), g)
  {
    if ev.Local? && ev.g == g && IsLocal(ev.e) {
      var gw := s.gws[g];
      LocalStepHonest(gw, ev.e, s.named);
      StepAppends(gw, ev.e);
      FromHereOf(G.Step(gw, ev.e).out, g, s.named + Named(gw, ev.e));
    }
  }

  lemma {:induction false} DeedsFromHere(q: seq<Request>, g: GatewayId, u: UserId)
    requires FromHere(q, g)
    ensures SentBy(Of(QueueDeeds(q), u), u, g)
    decreases |q|
  {
    if q != [] {
      var front, m := q[..|q| - 1], q[|q| - 1];
      DeedsFromHere(front, g, u);
      OfConcat(QueueDeeds(front), Deeds(m), u);
      OwnDeeds(m, g, u);
    }
  }

  lemma OwnDeeds(m: Request, g: GatewayId, u: UserId)
    requires IsAsk(m) || m.BatchReq? ==> m.g == g
    ensures SentBy(Of(Deeds(m), u), u, g)
  {
    OfSentBy(Deeds(m), g, u);
  }

  lemma {:induction false} OfSentBy(es: seq<R.Event>, g: GatewayId, u: UserId)
    requires forall i :: 0 <= i < |es| ==> !es[i].ExpireEvent? && (es[i].JoinEvent? || es[i].ResumeEvent? ==> es[i].g == g)
    ensures SentBy(Of(es, u), u, g)
    decreases |es|
  {
    if es != [] { OfSentBy(es[..|es| - 1], g, u); }
  }

  /** Whatever is under way from the other Gateways is not about `u`. */
  ghost predicate OnlySpeaker(s: Sys, es: seq<Event>, g: GatewayId, u: UserId) {
    forall h :: h in s.gws && h != g ==> Of(QueueDeeds(Log(s, es, h)), u) == []
  }

  lemma OthersSilent(s: Sys, es: seq<Event>, h: GatewayId, u: UserId)
    requires Flow(s, es) && (h in s.gws ==> Of(QueueDeeds(Log(s, es, h)), u) == [])
    ensures Of(TraceFrom(s, es, h), u) == []
  {
    if h in s.gws {
      QueueConserved(s, es, h);
      OfConcat(ZeroAll(TraceFrom(s, es, h)), QueueDeeds(Run(s, es).gws[h].out), u);
      ZeroOf(TraceFrom(s, es, h), u);
      assert |ZeroAll(Of(TraceFrom(s, es, h), u))| == 0;
    } else {
      UnknownGateway(s, es, h);
    }
  }

  /** With its queue handled, what the Roomserver has heard of `u` is the Gateway's log, times aside. */
  lemma HeardIsLog(s: Sys, es: seq<Event>, g: GatewayId, u: UserId)
    requires Flow(s, es) && g in s.gws && OnlySpeaker(s, es, g, u) && g in Run(s, es).gws && Run(s, es).gws[g].out == []
    ensures ZeroAll(Of(Trace(s, es), u)) == Of(QueueDeeds(Log(s, es, g)), u)
  {
    forall h | h != g ensures Of(TraceFrom(s, es, h), u) == [] { OthersSilent(s, es, h, u); }
    HeardFromOne(s, es, g, u);
    QueueConserved(s, es, g);
    assert QueueDeeds([]) == [];
    assert ZeroAll(TraceFrom(s, es, g)) == QueueDeeds(Log(s, es, g));
    ZeroOf(TraceFrom(s, es, g), u);
  }

  lemma ZeroSentBy(es: seq<R.Event>, u: UserId, g: GatewayId)
    requires SentBy(ZeroAll(es), u, g)
    ensures SentBy(es, u, g)
  {
    forall i | 0 <= i < |es|
      ensures Concerns(es[i], u) && !es[i].ExpireEvent? && (es[i].JoinEvent? || es[i].ResumeEvent? ==> es[i].g == g)
    {
      assert ZeroAll(es)[i] == Zeroed(es[i]);
    }
  }

  lemma HeldZero(s: R.State, u: UserId, g: GatewayId, es: seq<R.Event>, es': seq<R.Event>)
    requires HeldAs(s, u, g, es) && Current(es', u) == Current(es, u)
    requires forall r :: Standing(es', u, r) <==> Standing(es, u, r)
    ensures HeldAs(s, u, g, es')
  {
    forall r ensures InRoom(s.rooms, r, u) <==> Standing(es', u, r) { assert InRoom(s.rooms, r, u) <==> Standing(es, u, r); }
    forall r, h ensures RR.SeenAt(s.rooms, r, h, u) <==> Standing(es', u, r) && h == g {
      assert RR.SeenAt(s.rooms, r, h, u) <==> Standing(es, u, r) && h == g;
    }
  }

  /**
   * From a crash on, whatever clients and Gateways do: once the queue of the one
   * Gateway that speaks for a user is handled, the Roomserver has the user in
   * exactly the rooms whose joins stand in that Gateway's log.
   */
  lemma LogDecides(s: Sys, es: seq<Event>, g: GatewayId, u: UserId)
    requires s.rs == R.EMPTY && Safe(s) && Flow(s, es)
    requires g in s.gws && OnlySpeaker(s, es, g, u) && g in Run(s, es).gws && Run(s, es).gws[g].out == []
    ensures HeldAs(Run(s, es).rs, u, g, QueueDeeds(Log(s, es, g)))
  {
    var heard, log := Of(Trace(s, es), u), QueueDeeds(Log(s, es, g));
    HeardIsLog(s, es, g, u);
    LogFromHere(s, es, g);
    DeedsFromHere(Log(s, es, g), g, u);
    ZeroSentBy(heard, u, g);
    OwnRun(heard, u, g);
    ZeroStanding(heard, u);
    OwnStanding(log, u);
    HeldZero(R.Run(R.EMPTY, heard), u, g, heard, log);
    FlowServerStays(s, es);
    RecordProjects(s, es, u);
    HeldUntouched(Run(s, es).rs, R.Run(R.EMPTY, heard), u, g, log);
  }
}
