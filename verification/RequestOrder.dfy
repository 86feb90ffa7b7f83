/**
 * The order of a user's requests.  In degraded mode leaves and disconnects are
 * parked while other requests are sent, and a drain sends all parked leaves before
 * all parked disconnects; so the Roomserver may see a user's requests in another
 * order than the Gateway issued them.  Here is exactly when.
 */
module RequestOrder {
  import opened Ids
  import opened Gateway
  import opened GatewayRuns
  import R = Roomserver
  import RR = RoomserverRuns
  import Rooms

  /** The requests of `u`, in order; a resync batch is no user's request. */
  function ByUser(q: seq<Request>, u: UserId): seq<Request>
    decreases |q|
  {
    if q == [] then []
    else
      var m := q[|q| - 1];
      ByUser(q[..|q| - 1], u) + (if !m.BatchReq? && m.u == u then [m] else [])
  }

  lemma {:induction false} ByUserConcat(a: seq<Request>, b: seq<Request>, u: UserId)
    ensures ByUser(a + b, u) == ByUser(a, u) + ByUser(b, u)
    decreases |b|
  {
    if b == [] {
      assert a + b == a;
    } else {
      assert (a + b)[..|a + b| - 1] == a + b[..|b| - 1];
      ByUserConcat(a, b[..|b| - 1], u);
    }
  }

  lemma {:induction false} ByUserMembers(q: seq<Request>, u: UserId, m: Request)
    ensures m in ByUser(q, u) <==> m in q && !m.BatchReq? && m.u == u
    decreases |q|
  {
    if q != [] {
      assert q == q[..|q| - 1] + [q[|q| - 1]];
      ByUserMembers(q[..|q| - 1], u, m);
    }
  }

  lemma ByUserOne(m: Request, u: UserId)
    ensures ByUser([m], u) == if !m.BatchReq? && m.u == u then [m] else []
  {
    assert [m][..0] == [];
  }

  // ---------------------------------------------------------------- what an event issues

  function CloseIssues(s: Gw, c: ConnId): seq<Request> {
    if c in s.conns && s.conns[c].open && s.conns[c].roomId != NO_ROOM && s.conns[c].joinState == Confirmed
    then [DisconnectReq(s.conns[c].userId, s.conns[c].roomId, s.id)] else []
  }

  ghost function ClientIssues(s: Gw, e: Event): seq<Request>
    requires IsClient(e)
  {
    if e.c !in s.conns then []
    else
      var u := s.conns[e.c].userId;
      match e
      case ClientJoin(_, r) => if s.degraded then [] else [JoinReq(u, r, s.id)]
      case ClientLeave(_, r) => [LeaveReq(u, r)]
      case ClientResume(_, r) => [ResumeReq(u, r, s.id)]
      case ClientHeartbeat(_, r, found) =>
        if !MayFind(s, u, found) || r == NO_ROOM || found == r then []
        else (if found == NO_ROOM then [] else [LeaveReq(u, found)]) + [JoinReq(u, r, s.id)]
  }

  /** The requests that an event gives rise to, sent or parked, in the order of the code. */
  ghost function Issues(s: Gw, e: Event): seq<Request> {
    if IsClient(e) then ClientIssues(s, e)
    else
      match e
      case Connect(c, u) => if c !in s.conns && u in s.connections then CloseIssues(s, s.connections[u]) else []
      case Close(c) => CloseIssues(s, c)
      case _ => []
  }

  predicate Parks(s: Gw, e: Event) {
    s.degraded && (e.ClientLeave? || e.Close? || e.Connect?)
  }

  /** The queue has room for what the event may send. */
  predicate Roomy(s: Gw) {
    |s.out| + |Parked(s)| + 2 <= QUEUE_CAPACITY
  }

  /** Everything of the Gateway that is sent or will be, in the order it will reach the Roomserver. */
  function Outgoing(s: Gw): seq<Request> {
    s.out + Parked(s)
  }

  /** Sent at once, the requests pass a parked one of the user that is not the same request. */
  ghost predicate OvertakesParked(s: Gw, ms: seq<Request>, u: UserId) {
    ByUser(ms, u) != [] && exists m :: m in ByUser(Parked(s), u) && [m] != ms
  }

  /**
   * The event's requests will not come last among the user's: a request sent at
   * once overtakes the parked ones, and a parked leave overtakes the parked
   * disconnects.  Overtaking an equal request makes no difference.
   */
  ghost predicate Overtakes(s: Gw, e: Event, u: UserId) {
    if Parks(s, e) then
      && e.ClientLeave? && ByUser(Issues(s, e), u) != []
      && ByUser(DisconnectRequests(s.pendingDisconnects, s.id), u) != []
    else OvertakesParked(s, Issues(s, e), u)
  }

  // ---------------------------------------------------------------- what a step does with the queues

  lemma LeaveParks(s: Gw, c: ConnId, r: RoomId)
    requires c in s.conns && Roomy(s)
    ensures var s', u := HandleLeave(s, c, r), s.conns[c].userId;
      && s'.id == s.id && s'.degraded == s.degraded && s'.pendingDisconnects == s.pendingDisconnects
      && s'.pendingLeaves == (if s.degraded then s.pendingLeaves + [UserRoomPair(u, r)] else s.pendingLeaves)
      && s'.out == if s.degraded then s.out else s.out + [LeaveReq(u, r)]
  {
  }

  lemma CloseParks(s: Gw, c: ConnId)
    requires Roomy(s)
    ensures var s', ms := CloseConn(s, c), CloseIssues(s, c);
      && s'.id == s.id && s'.degraded == s.degraded && s'.pendingLeaves == s.pendingLeaves
      && (if s.degraded && ms != [] then
            s'.out == s.out && s'.pendingDisconnects == s.pendingDisconnects + [UserRoomPair(ms[0].u, ms[0].r)]
          else s'.out == s.out + ms && s'.pendingDisconnects == s.pendingDisconnects)
  {
  }

  lemma ConnectParks(s: Gw, c: ConnId, u: UserId)
    ensures var s1, s' := if u in s.connections then CloseConn(s, s.connections[u]) else s, AddConnection(s, c, u);
      && s'.id == s1.id && s'.degraded == s1.degraded && s'.out == s1.out && s'.pendingLeaves == s1.pendingLeaves
      && s'.pendingDisconnects == s1.pendingDisconnects
  {
  }

  lemma AskSends(s: Gw, e: Event)
    requires IsClient(e) && !e.ClientLeave? && Roomy(s)
    ensures var s' := ClientStep(s, e);
      && s'.id == s.id && s'.degraded == s.degraded
      && s'.pendingLeaves == s.pendingLeaves && s'.pendingDisconnects == s.pendingDisconnects
      && s'.out == s.out + ClientIssues(s, e)
  {
    if e.c in s.conns {
      match e
      case ClientJoin(c, r) => assert s.out + [] == s.out;
      case ClientResume(c, r) =>
      case ClientHeartbeat(c, r, found) => HeartbeatSends(s, c, r, found);
    }
  }

  lemma HeartbeatSends(s: Gw, c: ConnId, r: RoomId, found: RoomId)
    requires c in s.conns && Roomy(s)
    ensures var s', u := HandleHeartbeat(s, c, r, found), s.conns[c].userId;
      && s'.id == s.id && s'.degraded == s.degraded
      && s'.pendingLeaves == s.pendingLeaves && s'.pendingDisconnects == s.pendingDisconnects
      && s'.out == s.out + (if r == NO_ROOM || found == r then []
                            else (if found == NO_ROOM then [] else [LeaveReq(u, found)]) + [JoinReq(u, r, s.id)])
  {
    var u := s.conns[c].userId;
    assert s.out + [LeaveReq(u, found)] + [JoinReq(u, r, s.id)] == s.out + ([LeaveReq(u, found)] + [JoinReq(u, r, s.id)]);
  }

  lemma {:induction false} SendAllFits(s: Gw, ms: seq<Request>)
    requires |s.out| + |ms| <= QUEUE_CAPACITY
    ensures SendAll(s, ms) == s.(out := s.out + ms)
    decreases |ms|
  {
    if ms != [] {
      SendAllFits(s, ms[..|ms| - 1]);
      assert s.out + ms == s.out + ms[..|ms| - 1] + [ms[|ms| - 1]];
    } else {
      assert s.out + ms == s.out;
    }
  }

  lemma DrainKeepsOutgoing(s: Gw)
    requires |s.out| + |Parked(s)| <= QUEUE_CAPACITY
    ensures Outgoing(Drain(s)) == Outgoing(s) && Drain(s).out == Outgoing(s) && Drain(s).id == s.id
  {
    SendAllFits(s.(pendingLeaves := [], pendingDisconnects := []), Parked(s));
    assert Parked(Drain(s)) == [];
  }

  // ---------------------------------------------------------------- order

  /** One request, or two different ones of which the second is not in `a`, commute with `a` exactly if they are all of it. */
  lemma CommuteIff(a: seq<Request>, ms: seq<Request>)
    requires 1 <= |ms| <= 2 && (|ms| == 2 ==> ms[1] !in a && ms[0] != ms[1])
    ensures ms + a == a + ms <==> forall m :: m in a ==> [m] == ms
  {
    if |ms| == 1 {
      assert ms == [ms[0]];
      if ms + a == a + ms {
        forall m | m in a ensures [m] == ms {
          var i :| 0 <= i < |a| && a[i] == m;
          AllEqual(a, ms[0], i);
        }
      }
      if forall m :: m in a ==> [m] == ms {
        forall i | 0 <= i < |a| ensures a[i] == ms[0] { assert a[i] in a && [a[i]][0] == ms[0]; }
        assert ms + a == a + ms;
      }
    } else if a == [] {
      assert ms + a == ms == a + ms;
    } else {
      assert a[0] in a && [a[0]] != ms;
      assert (a + ms)[1] != (ms + a)[1] by { if |a| > 1 { assert (a + ms)[1] in a; } }
    }
  }

  lemma {:induction false} AllEqual(a: seq<Request>, m: Request, i: nat)
    requires a + [m] == [m] + a && i < |a|
    ensures a[i] == m
  {
    assert (a + [m])[i] == ([m] + a)[i];
    if i > 0 { AllEqual(a, m, i - 1); }
  }

  ghost predicate AllOf(ms: seq<Request>, v: UserId) {
    forall i :: 0 <= i < |ms| ==> !ms[i].BatchReq? && ms[i].u == v
  }

  lemma OwnOrNone(ms: seq<Request>, v: UserId, u: UserId)
    requires |ms| <= 2 && AllOf(ms, v)
    ensures ByUser(ms, u) == if u == v then ms else []
  {
    if |ms| == 1 {
      ByUserOne(ms[0], u);
      assert ms == [ms[0]];
    } else if |ms| == 2 {
      ByUserOne(ms[0], u);
      assert ms[..1] == [ms[0]] && ms == [ms[0]] + [ms[1]];
    }
  }

  lemma Cancel<T>(a: seq<T>, b: seq<T>, c: seq<T>)
    ensures a + b == a + c <==> b == c
  {
    if a + b == a + c { assert b == (a + b)[|a|..] && c == (a + c)[|a|..]; }
  }

  lemma MiddleIff<T>(a: seq<T>, b: seq<T>, c: seq<T>)
    ensures a + b + c == a + c + b <==> b + c == c + b
  {
    assert a + b + c == a + (b + c) && a + c + b == a + (c + b);
    Cancel(a, b + c, c + b);
  }

  lemma AppendIff<T>(taken: seq<T>, outgoing: seq<T>, outgoing': seq<T>, issued: seq<T>, ms: seq<T>)
    requires taken + outgoing == issued
    ensures taken + outgoing' == issued + ms <==> outgoing' == outgoing + ms
  {
    assert issued + ms == taken + (outgoing + ms);
    Cancel(taken, outgoing', outgoing + ms);
  }

  /** Sending at once puts the requests before the parked ones. */
  lemma SendInOrderIff(out: seq<Request>, parked: seq<Request>, ms: seq<Request>, v: UserId, u: UserId)
    requires |ms| <= 2 && AllOf(ms, v) && (|ms| == 2 ==> ms[0] != ms[1] && ms[1] !in parked)
    ensures ByUser(out + ms + parked, u) == ByUser(out + parked, u) + ByUser(ms, u)
       <==> (ByUser(ms, u) == [] || forall m :: m in ByUser(parked, u) ==> [m] == ms)
  {
    var p, own := ByUser(parked, u), ByUser(ms, u);
    ByUserConcat(out + ms, parked, u);
    ByUserConcat(out, ms, u);
    ByUserConcat(out, parked, u);
    MiddleIff(ByUser(out, u), own, p);
    if own == [] {
      assert own + p == p && p + own == p;
    } else {
      OwnOrNone(ms, v, u);
      if |ms| == 2 { ByUserMembers(parked, u, ms[1]); }
      CommuteIff(p, ms);
    }
  }

  lemma ParkedKinds(s: Gw)
    ensures forall m :: m in Parked(s) ==> m.LeaveReq? || m.DisconnectReq?
  {
  }

  lemma ParkLeave(s: Gw, pair: UserRoomPair)
    ensures Outgoing(s.(pendingLeaves := s.pendingLeaves + [pair]))
         == s.out + LeaveRequests(s.pendingLeaves) + [LeaveReq(pair.userId, pair.roomId)]
            + DisconnectRequests(s.pendingDisconnects, s.id)
  {
  }

  lemma ParkDisconnect(s: Gw, pair: UserRoomPair)
    ensures Outgoing(s.(pendingDisconnects := s.pendingDisconnects + [pair]))
         == Outgoing(s) + [DisconnectReq(pair.userId, pair.roomId, s.id)]
  {
  }

  /** Parking a leave puts it before the parked disconnects. */
  lemma ParkLeaveInOrderIff(s: Gw, pair: UserRoomPair, u: UserId)
    ensures var m := LeaveReq(pair.userId, pair.roomId);
      ByUser(Outgoing(s.(pendingLeaves := s.pendingLeaves + [pair])), u) == ByUser(Outgoing(s), u) + ByUser([m], u)
      <==> (ByUser([m], u) == [] || ByUser(DisconnectRequests(s.pendingDisconnects, s.id), u) == [])
  {
    var m, disconnects := LeaveReq(pair.userId, pair.roomId), DisconnectRequests(s.pendingDisconnects, s.id);
    ParkLeave(s, pair);
    assert Outgoing(s) == s.out + LeaveRequests(s.pendingLeaves) + disconnects;
    SendInOrderIff(s.out + LeaveRequests(s.pendingLeaves), disconnects, [m], pair.userId, u);
    if ByUser(disconnects, u) != [] {
      var first := ByUser(disconnects, u)[0];
      ByUserMembers(disconnects, u, first);
      assert first in ByUser(disconnects, u) && [first] != [m];
    }
  }

  // ---------------------------------------------------------------- every event

  /** The requests that an event issues come last among their user's requests. */
  ghost predicate KeepsOrder(s: Gw, s': Gw, ms: seq<Request>, u: UserId) {
    ByUser(Outgoing(s'), u) == ByUser(Outgoing(s), u) + ByUser(ms, u)
  }

  lemma DirectInOrderIff(s: Gw, s': Gw, ms: seq<Request>, v: UserId, u: UserId)
    requires |ms| <= 2 && AllOf(ms, v) && (|ms| == 2 ==> ms[0] != ms[1] && ms[1].JoinReq?)
    requires s'.id == s.id && s'.pendingLeaves == s.pendingLeaves && s'.pendingDisconnects == s.pendingDisconnects
    requires s'.out == s.out + ms
    ensures KeepsOrder(s, s', ms, u) <==> !OvertakesParked(s, ms, u)
  {
    ParkedKinds(s);
    assert Outgoing(s') == s.out + ms + Parked(s);
    SendInOrderIff(s.out, Parked(s), ms, v, u);
  }

  lemma ClientInOrderIff(s: Gw, e: Event, u: UserId)
    requires IsClient(e) && Roomy(s)
    ensures KeepsOrder(s, ClientStep(s, e), ClientIssues(s, e), u) <==> !Overtakes(s, e, u)
  {
    if e.c !in s.conns {
      assert ClientStep(s, e) == s && ByUser(ClientIssues(s, e), u) == [];
    } else if e.ClientLeave? {
      LeaveInOrderIff(s, e.c, e.r, u);
    } else {
      AskInOrderIff(s, e, u);
    }
  }

  lemma AskInOrderIff(s: Gw, e: Event, u: UserId)
    requires IsClient(e) && !e.ClientLeave? && e.c in s.conns && Roomy(s)
    ensures KeepsOrder(s, ClientStep(s, e), ClientIssues(s, e), u) <==> !OvertakesParked(s, ClientIssues(s, e), u)
  {
    AskSends(s, e);
    DirectInOrderIff(s, ClientStep(s, e), ClientIssues(s, e), s.conns[e.c].userId, u);
  }

  lemma SameOutgoing(s: Gw, s': Gw)
    requires s'.id == s.id && s'.out == s.out
    requires s'.pendingLeaves == s.pendingLeaves && s'.pendingDisconnects == s.pendingDisconnects
    ensures Outgoing(s') == Outgoing(s)
  {
  }

  lemma LeaveInOrderIff(s: Gw, c: ConnId, r: RoomId, u: UserId)
    requires c in s.conns && Roomy(s)
    ensures KeepsOrder(s, HandleLeave(s, c, r), [LeaveReq(s.conns[c].userId, r)], u) <==> !Overtakes(s, ClientLeave(c, r), u)
  {
    var v, s' := s.conns[c].userId, HandleLeave(s, c, r);
    LeaveParks(s, c, r);
    if s.degraded {
      SameOutgoing(s.(pendingLeaves := s.pendingLeaves + [UserRoomPair(v, r)]), s');
      ParkLeaveInOrderIff(s, UserRoomPair(v, r), u);
    } else {
      DirectInOrderIff(s, s', [LeaveReq(v, r)], v, u);
    }
  }

  lemma CloseInOrderIff(s: Gw, c: ConnId, u: UserId)
    requires Roomy(s)
    ensures KeepsOrder(s, CloseConn(s, c), CloseIssues(s, c), u) <==> s.degraded || !OvertakesParked(s, CloseIssues(s, c), u)
  {
    var s', ms := CloseConn(s, c), CloseIssues(s, c);
    CloseParks(s, c);
    if ms == [] {
      SameOutgoing(s, s');
      assert ByUser(ms, u) == [];
    } else if s.degraded {
      var pair := UserRoomPair(ms[0].u, ms[0].r);
      SameOutgoing(s.(pendingDisconnects := s.pendingDisconnects + [pair]), s');
      ParkDisconnect(s, pair);
      ByUserConcat(Outgoing(s), ms, u);
    } else {
      DirectInOrderIff(s, s', ms, ms[0].u, u);
    }
  }

  /** A step keeps the order of a user's requests exactly when what it issues overtakes nothing. */
  lemma StepKeepsOrderIff(s: Gw, e: Event, u: UserId)
    requires Roomy(s)
    ensures KeepsOrder(s, Step(s, e), Issues(s, e), u) <==> !Overtakes(s, e, u)
  {
    if IsClient(e) {
      ClientInOrderIff(s, e, u);
    } else {
      match e
      case Connect(c, v) =>
        if c !in s.conns {
          ConnectParks(s, c, v);
          if v in s.connections {
            CloseInOrderIff(s, s.connections[v], u);
            SameOutgoing(CloseConn(s, s.connections[v]), Step(s, e));
          } else {
            SameOutgoing(s, Step(s, e));
          }
        }
      case Close(c) => CloseInOrderIff(s, c, u);
      case DrainParked => DrainKeepsOutgoing(s);
      case Resend(users) => ResendKeepsOrder(s, users, u);
      case _ => SameOutgoing(s, Step(s, e));
    }
  }

  lemma ResendKeepsOrder(s: Gw, users: seq<UserRoomPair>, u: UserId)
    requires |s.out| < QUEUE_CAPACITY
    ensures ByUser(Outgoing(Send(s, BatchReq(s.id, users))), u) == ByUser(Outgoing(s), u)
  {
    var batch := BatchReq(s.id, users);
    assert Parked(Send(s, batch)) == Parked(s);
    ByUserOne(batch, u);
    ByUserConcat(s.out, [batch], u);
    ByUserConcat(s.out + [batch], Parked(s), u);
    ByUserConcat(s.out, Parked(s), u);
  }

  // ---------------------------------------------------------------- every run

  /** A Gateway with the requests taken from its queue so far and those issued so far. */
  datatype Ledger = Ledger(gw: Gw, taken: seq<Request>, issued: seq<Request>)

  datatype Move = Act(e: Event) | Take

  ghost function Next(l: Ledger, move: Move): Ledger {
    match move
    case Act(e) => Ledger(Step(l.gw, e), l.taken, l.issued + Issues(l.gw, e))
    case Take => if l.gw.out == [] then l else Ledger(l.gw.(out := l.gw.out[1..]), l.taken + [l.gw.out[0]], l.issued)
  }

  ghost function Moves(l: Ledger, ms: seq<Move>): Ledger
    decreases |ms|
  {
    if ms == [] then l else Next(Moves(l, ms[..|ms| - 1]), ms[|ms| - 1])
  }

  /** A user's requests, taken, queued and parked, are in the order of issue. */
  ghost predicate InOrder(l: Ledger, u: UserId) {
    ByUser(l.taken, u) + ByUser(Outgoing(l.gw), u) == ByUser(l.issued, u)
  }

  ghost predicate Fits(l: Ledger, move: Move) {
    move.Act? ==> Roomy(l.gw)
  }

  lemma TakeInOrder(taken: seq<Request>, m: Request, outgoing: seq<Request>, u: UserId)
    ensures ByUser(taken + [m], u) + ByUser(outgoing, u) == ByUser(taken, u) + ByUser([m] + outgoing, u)
  {
    ByUserConcat(taken, [m], u);
    ByUserConcat([m], outgoing, u);
  }

  lemma NextInOrderIff(l: Ledger, move: Move, u: UserId)
    requires InOrder(l, u) && Fits(l, move)
    ensures InOrder(Next(l, move), u) <==> !(move.Act? && Overtakes(l.gw, move.e, u))
  {
    match move
    case Act(e) =>
      StepKeepsOrderIff(l.gw, e, u);
      ByUserConcat(l.issued, Issues(l.gw, e), u);
      AppendIff(ByUser(l.taken, u), ByUser(Outgoing(l.gw), u), ByUser(Outgoing(Step(l.gw, e)), u), ByUser(l.issued, u),
                ByUser(Issues(l.gw, e), u));
    case Take =>
      if l.gw.out != [] {
        var gw' := l.gw.(out := l.gw.out[1..]);
        assert Outgoing(l.gw) == [l.gw.out[0]] + Outgoing(gw');
        TakeInOrder(l.taken, l.gw.out[0], Outgoing(gw'), u);
      }
  }

  /** In every run with room in the queue in which nothing overtakes, each user's requests go out in the order of issue. */
  lemma {:induction false} RunKeepsOrder(id: GatewayId, n: nat, ms: seq<Move>, u: UserId)
    requires forall i :: 0 <= i < |ms| ==> Fits(Moves(Ledger(Start(id, n), [], []), ms[..i]), ms[i])
    requires forall i :: 0 <= i < |ms| && ms[i].Act? ==>
      !Overtakes(Moves(Ledger(Start(id, n), [], []), ms[..i]).gw, ms[i].e, u)
    ensures InOrder(Moves(Ledger(Start(id, n), [], []), ms), u)
    decreases |ms|
  {
    if ms != [] {
      var front := ms[..|ms| - 1];
      assert forall i :: 0 <= i < |front| ==> front[i] == ms[i] && front[..i] == ms[..i];
      RunKeepsOrder(id, n, front, u);
      NextInOrderIff(Moves(Ledger(Start(id, n), [], []), front), ms[|ms| - 1], u);
    }
  }

  // ---------------------------------------------------------------- how it happens

  /**
   * A Confirmed user of a degraded Gateway reconnects, which parks a disconnect,
   * and resumes, which is sent at once: after the drain the disconnect comes last.
   */
  lemma ResumeOvertakesDisconnect(s: Gw, c: ConnId, d: ConnId, r: RoomId)
    requires Wired(s) && Registered(s, c) && s.conns[c].joinState == Confirmed && s.conns[c].roomId == r != NO_ROOM
    requires d !in s.conns && s.degraded && Parked(s) == [] && |s.out| + 2 <= QUEUE_CAPACITY
    ensures d in AddConnection(s, d, s.conns[c].userId).conns
    ensures var u := s.conns[c].userId;
      var resumed := HandleResume(AddConnection(s, d, u), d, r);
      Drain(resumed.(degraded := false)).out == s.out + [ResumeReq(u, r, s.id), DisconnectReq(u, r, s.id)]
  {
    var u := s.conns[c].userId;
    ReconnectParks(s, c, d);
    ResumeThenDrain(AddConnection(s, d, u), d, u, r);
    assert s.out + [ResumeReq(u, r, s.id)] + [DisconnectReq(u, r, s.id)]
        == s.out + [ResumeReq(u, r, s.id), DisconnectReq(u, r, s.id)];
  }

  lemma ResumeThenDrain(s: Gw, d: ConnId, u: UserId, r: RoomId)
    requires d in s.conns && s.conns[d].userId == u && |s.out| + 2 <= QUEUE_CAPACITY
    requires s.pendingLeaves == [] && s.pendingDisconnects == [UserRoomPair(u, r)]
    ensures Drain(HandleResume(s, d, r).(degraded := false)).out
         == s.out + [ResumeReq(u, r, s.id)] + [DisconnectReq(u, r, s.id)]
  {
    var s' := HandleResume(s, d, r).(degraded := false);
    ResumeSends(s, d, r);
    assert s'.out == s.out + [ResumeReq(u, r, s.id)];
    assert s'.id == s.id && s'.pendingLeaves == [] && s'.pendingDisconnects == [UserRoomPair(u, r)];
    OnlyDisconnectParked(s', UserRoomPair(u, r));
    DrainKeepsOutgoing(s');
  }

  lemma OnlyDisconnectParked(s: Gw, pair: UserRoomPair)
    requires s.pendingLeaves == [] && s.pendingDisconnects == [pair]
    ensures Parked(s) == [DisconnectReq(pair.userId, pair.roomId, s.id)]
  {
  }

  lemma ResumeSends(s: Gw, d: ConnId, r: RoomId)
    requires d in s.conns && |s.out| < QUEUE_CAPACITY
    ensures var s' := HandleResume(s, d, r);
      && s'.out == s.out + [ResumeReq(s.conns[d].userId, r, s.id)] && s'.id == s.id
      && s'.pendingLeaves == s.pendingLeaves && s'.pendingDisconnects == s.pendingDisconnects
  {
  }

  lemma ReconnectParks(s: Gw, c: ConnId, d: ConnId)
    requires Wired(s) && Registered(s, c) && s.conns[c].joinState == Confirmed && s.conns[c].roomId != NO_ROOM
    requires d !in s.conns && s.degraded && Parked(s) == [] && |s.out| + 2 <= QUEUE_CAPACITY
    ensures var s' := AddConnection(s, d, s.conns[c].userId);
      && s'.id == s.id && s'.out == s.out && s'.pendingLeaves == [] && d in s'.conns && s'.conns[d].userId == s.conns[c].userId
      && s'.pendingDisconnects == [UserRoomPair(s.conns[c].userId, s.conns[c].roomId)]
  {
    var u := s.conns[c].userId;
    assert |LeaveRequests(s.pendingLeaves)| == 0 && |DisconnectRequests(s.pendingDisconnects, s.id)| == 0;
    assert s.conns[c].open && s.connections[u] == c;
    CloseParks(s, c);
    ConnectParks(s, d, u);
  }

  /** What the Roomserver makes of that order: the resume succeeds, and the user ends disconnected all the same. */
  lemma ResumedThenDisconnected(rs: R.State, u: UserId, r: RoomId, g: GatewayId, t: Time, t0: Time, t1: Time)
    requires RR.Mirror(rs) && Rooms.InRoom(rs.rooms, r, u)
    ensures R.ResumeCode(rs, u, r).0 == R.ERR_SUCCESS
    ensures var rs' := R.Disconnect(R.Resume(rs, u, r, g, t), u, r, t0, t1);
      && u in rs'.sessions && rs'.sessions[u].status == Disconnected && rs'.sessions[u].disconnectedAt == t1
      && Rooms.InRoom(rs'.rooms, r, u) && rs'.rooms[r].members[u].status == Disconnected
  {
  }
}
