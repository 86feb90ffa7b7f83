/** A room close across the two machines: whom the notice reaches, and what it ends there. */
module RoomCloses {
  import opened Ids
  import opened Gateway
  import opened Protocol
  import opened TidyRooms
  import opened OneLocalRoom
  import G = GatewayRuns
  import R = Roomserver
  import RR = RoomserverRuns
  import Rooms
  import PushApi
  import ServedRequests

  // ---------------------------------------------------------------- what a Gateway receives

  function ReceivedBy(s: Sys, ev: Event, g: GatewayId): seq<Reply> {
    if ev == GatewayReceives(g) && g in s.gws && g in s.down && s.down[g] != [] then [s.down[g][0]] else []
  }

  /** What Gateway `g` receives in a run, in order. */
  ghost function Received(s: Sys, es: seq<Event>, g: GatewayId): seq<Reply>
    decreases |es|
  {
    if es == [] then [] else Received(s, es[..|es| - 1], g) + ReceivedBy(Run(s, es[..|es| - 1]), es[|es| - 1], g)
  }

  lemma LocalAddsNobody(s: Gw, e: G.Event, r: RoomId, u: UserId)
    requires IsLocal(e) && InGroup(G.Step(s, e).localRooms, r, u)
    ensures InGroup(s.localRooms, r, u)
  {
    match e
    case Connect(c, v) => if c !in s.conns && v in s.connections { CloseAddsNobody(s, s.connections[v], r, u); }
    case Close(c) => CloseAddsNobody(s, c, r, u);
    case ClientLeave(c, q) => if c in s.conns { GroupDropMembers(s.localRooms, q, s.conns[c].userId); }
    case _ => G.QuietStep(s, e);
  }

  lemma CloseAddsNobody(s: Gw, c: ConnId, r: RoomId, u: UserId)
    requires InGroup(CloseConn(s, c).localRooms, r, u)
    ensures InGroup(s.localRooms, r, u)
  {
  }

  lemma ReceiveAddsGranted(s: Gw, m: Reply, r: RoomId, u: UserId)
    requires InGroup(Receive(s, m).localRooms, r, u)
    ensures m == JoinAck(u, r, true) || (InGroup(s.localRooms, r, u) && m != CloseNotice(r))
  {
  }

  lemma StepKeepsGateways(s: Sys, ev: Event)
    ensures Step(s, ev).gws.Keys == s.gws.Keys && Step(s, ev).down.Keys == s.down.Keys
  {
  }

  /** A user comes into a local room only by a grant received, and a notice received empties its room. */
  lemma StepLocalRooms(s: Sys, ev: Event, g: GatewayId, r: RoomId, u: UserId)
    requires g in s.gws && g in Step(s, ev).gws && InGroup(Step(s, ev).gws[g].localRooms, r, u)
    ensures ReceivedBy(s, ev, g) == [JoinAck(u, r, true)]
         || (InGroup(s.gws[g].localRooms, r, u) && ReceivedBy(s, ev, g) != [CloseNotice(r)])
  {
    match ev
    case Local(h, e) => if h == g && IsLocal(e) { LocalAddsNobody(s.gws[g], e, r, u); }
    case GatewayReceives(h) => if h == g && g in s.down && s.down[g] != [] { ReceiveAddsGranted(s.gws[g], s.down[g][0], r, u); }
    case _ =>
  }

  /** The user is granted the room by an answer received later. */
  ghost predicate GrantedAfter(replies: seq<Reply>, k: nat, u: UserId, r: RoomId) {
    exists j :: k < j < |replies| && replies[j] == JoinAck(u, r, true)
  }

  lemma GrantedAfterMore(replies: seq<Reply>, more: seq<Reply>, k: nat, u: UserId, r: RoomId)
    requires GrantedAfter(replies, k, u, r)
    ensures GrantedAfter(replies + more, k, u, r)
  {
    var j :| k < j < |replies| && replies[j] == JoinAck(u, r, true);
    assert (replies + more)[j] == JoinAck(u, r, true);
  }

  /** Once a Gateway has received the notice, it holds in that room only users granted by a later answer. */
  lemma {:induction false} AfterNotice(s: Sys, es: seq<Event>, g: GatewayId, r: RoomId, k: nat, u: UserId)
    requires g in s.gws && k < |Received(s, es, g)| && Received(s, es, g)[k] == CloseNotice(r)
    requires g in Run(s, es).gws && InGroup(Run(s, es).gws[g].localRooms, r, u)
    ensures GrantedAfter(Received(s, es, g), k, u, r)
    decreases |es|
  {
    var front, ev := es[..|es| - 1], es[|es| - 1];
    var s1, before, now := Run(s, front), Received(s, front, g), ReceivedBy(Run(s, front), ev, g);
    StepKeepsGateways(s1, ev);
    StepLocalRooms(s1, ev, g, r, u);
    if k < |before| {
      if now == [JoinAck(u, r, true)] {
        assert (before + now)[|before|] == JoinAck(u, r, true);
      } else {
        AfterNotice(s, front, g, r, k, u);
        GrantedAfterMore(before, now, k, u, r);
      }
    }
  }

  // ---------------------------------------------------------------- the queue back

  /** Unless an answer is lost, the queue back gives up what is received, and grows at its end. */
  lemma StepDown(s: Sys, ev: Event, g: GatewayId)
    requires g in s.gws && g in s.down && ev != LoseReply(g)
    ensures g in Step(s, ev).down && s.down[g] <= ReceivedBy(s, ev, g) + Step(s, ev).down[g]
  {
    match ev
    case GatewayReceives(h) => if h == g && s.down[g] != [] { assert s.down[g] == [s.down[g][0]] + s.down[g][1..]; }
    case _ =>
  }

  lemma PrefixAppend<T>(start: seq<T>, received: seq<T>, now: seq<T>, queue: seq<T>, queue': seq<T>)
    requires start <= received + queue && queue <= now + queue'
    ensures start <= (received + now) + queue'
  {
    assert received + queue <= received + (now + queue');
    assert received + (now + queue') == (received + now) + queue';
  }

  /** What was queued for a Gateway is received first, in order. */
  lemma {:induction false} ReceivedInOrder(s: Sys, es: seq<Event>, g: GatewayId)
    requires g in s.gws && g in s.down && LoseReply(g) !in es
    ensures g in Run(s, es).gws && g in Run(s, es).down
    ensures s.down[g] <= Received(s, es, g) + Run(s, es).down[g]
    decreases |es|
  {
    if es != [] {
      var front, ev := es[..|es| - 1], es[|es| - 1];
      assert ev in es && LoseReply(g) !in front;
      ReceivedInOrder(s, front, g);
      StepKeepsGateways(Run(s, front), ev);
      StepDown(Run(s, front), ev, g);
      PrefixAppend(s.down[g], Received(s, front, g), ReceivedBy(Run(s, front), ev, g), Run(s, front).down[g], Run(s, es).down[g]);
    }
  }

  // ---------------------------------------------------------------- whom a close tells

  /** Some member of the room is hosted by the Gateway. */
  ghost predicate HostsMember(rs: R.State, r: RoomId, g: GatewayId) {
    exists u :: Rooms.InRoom(rs.rooms, r, u) && rs.rooms[r].members[u].gatewayId == g
  }

  lemma {:induction false} EventsKeepViews(rs: R.State, es: seq<R.Event>)
    requires Rooms.ViewsCover(rs.rooms)
    ensures Rooms.ViewsCover(R.Run(rs, es).rooms)
    decreases |es|
  {
    if es != [] {
      EventsKeepViews(rs, es[..|es| - 1]);
      RR.StepKeepsViewsCover(R.Run(rs, es[..|es| - 1]), es[|es| - 1]);
    }
  }

  lemma StepKeepsViews(s: Sys, ev: Event)
    requires Rooms.ViewsCover(s.rs.rooms)
    ensures Rooms.ViewsCover(Step(s, ev).rs.rooms)
  {
    match ev
    case ServerCloses(r) => RR.StepKeepsViewsCover(s.rs, R.CloseEvent(r));
    case ServerCrashes =>
    case _ =>
      ServedRequests.StepServes(s, ev);
      EventsKeepViews(s.rs, ServedRequests.Served(s, ev));
  }

  lemma {:induction false} RunKeepsViews(ids: set<GatewayId>, n: nat, es: seq<Event>)
    ensures Rooms.ViewsCover(Run(Start(ids, n), es).rs.rooms)
    ensures Run(Start(ids, n), es).gws.Keys == ids && Run(Start(ids, n), es).down.Keys == ids
    decreases |es|
  {
    if es != [] {
      RunKeepsViews(ids, n, es[..|es| - 1]);
      StepKeepsViews(Run(Start(ids, n), es[..|es| - 1]), es[|es| - 1]);
      StepKeepsGateways(Run(Start(ids, n), es[..|es| - 1]), es[|es| - 1]);
    }
  }

  /**
   * A close tells exactly the targets of the close request, every Gateway of the
   * system being connected: each gets the notice at the end of its queue, if there
   * is room.  A Gateway that has no view of the room is told nothing and keeps
   * what it holds; and the room is gone.
   */
  lemma ToldAreTargets(s: Sys, r: RoomId, told: seq<GatewayId>)
    requires Enumerates(told, PushApi.Targets(s.rs.rooms, r, s.down.Keys))
    ensures var s' := Step(s, ServerCloses(r));
      && s'.gws == s.gws && s'.down.Keys == s.down.Keys && s'.rs == R.Close(s.rs, r)
      && (forall g :: g in told ==> g in s.down)
      && (forall g :: g in s.down ==>
            s'.down[g] == if g in told && |s.down[g]| < QUEUE_CAPACITY then s.down[g] + [CloseNotice(r)] else s.down[g])
  {
    if r !in s.rs.rooms {
      assert R.Close(s.rs, r) == s.rs;
    }
  }

  lemma HostIsTold(s: Sys, r: RoomId, g: GatewayId)
    requires Rooms.ViewsCover(s.rs.rooms) && HostsMember(s.rs, r, g) && g in s.down && |s.down[g]| < QUEUE_CAPACITY
    ensures g in Step(s, ServerCloses(r)).down && Step(s, ServerCloses(r)).down[g] == s.down[g] + [CloseNotice(r)]
    ensures Step(s, ServerCloses(r)).gws == s.gws
  {
    var u :| Rooms.InRoom(s.rs.rooms, r, u) && s.rs.rooms[r].members[u].gatewayId == g;
    assert Rooms.Covered(s.rs.rooms[r]);
    assert g in s.rs.rooms[r].gateways;
  }

  /**
   * After any run a room is closed; from then on any run in which no answer to
   * Gateway `g` is lost, at the end of which its queue has been received.  If `g`
   * hosted a member and its queue had room, then it has received the notice, and
   * whoever it holds in the room has been granted it by a later answer.
   */
  lemma CloseReachesHosts(ids: set<GatewayId>, n: nat, before: seq<Event>, r: RoomId, after: seq<Event>, g: GatewayId)
    requires var s := Run(Start(ids, n), before);
      g in ids && HostsMember(s.rs, r, g) && g in s.down && |s.down[g]| < QUEUE_CAPACITY
    requires LoseReply(g) !in after
    requires var end := Run(Start(ids, n), before + [ServerCloses(r)] + after); g in end.down ==> end.down[g] == []
    ensures var s, end := Run(Start(ids, n), before), Run(Start(ids, n), before + [ServerCloses(r)] + after);
      var replies := Received(Run(Start(ids, n), before + [ServerCloses(r)]), after, g);
      && |s.down[g]| < |replies| && replies[|s.down[g]|] == CloseNotice(r) && g in end.gws
      && forall u :: InGroup(end.gws[g].localRooms, r, u) ==> GrantedAfter(replies, |s.down[g]|, u, r)
  {
    var s0 := Start(ids, n);
    var s, s1 := Run(s0, before), Run(s0, before + [ServerCloses(r)]);
    RunKeepsViews(ids, n, before);
    RunSnoc(s0, before, ServerCloses(r));
    HostIsTold(s, r, g);
    RunConcat(s0, before + [ServerCloses(r)], after);
    ReceivedInOrder(s1, after, g);
    var replies, k := Received(s1, after, g), |s.down[g]|;
    assert replies + [] == replies;
    assert s1.down[g][k] == CloseNotice(r);
    forall u | InGroup(Run(s1, after).gws[g].localRooms, r, u) ensures GrantedAfter(replies, k, u, r) {
      AfterNotice(s1, after, g, r, k, u);
    }
  }

  /** With patient clients nobody stays Confirmed in the room either. */
  lemma CloseEndsConfirmation(ids: set<GatewayId>, n: nat, before: seq<Event>, r: RoomId, after: seq<Event>, g: GatewayId, u: UserId)
    requires var s := Run(Start(ids, n), before);
      g in ids && HostsMember(s.rs, r, g) && g in s.down && |s.down[g]| < QUEUE_CAPACITY
    requires LoseReply(g) !in after
    requires var es := before + [ServerCloses(r)] + after;
      && (g in Run(Start(ids, n), es).down ==> Run(Start(ids, n), es).down[g] == [])
      && (forall i :: 0 <= i < |es| ==> PatientEvent(Run(Start(ids, n), es[..i]), es[i]))
      && g in Run(Start(ids, n), es).gws && ConfirmedIn(Run(Start(ids, n), es).gws[g], u, r)
    ensures GrantedAfter(Received(Run(Start(ids, n), before + [ServerCloses(r)]), after, g),
                         |Run(Start(ids, n), before).down[g]|, u, r)
  {
    var es := before + [ServerCloses(r)] + after;
    RunIsOrderly(ids, n, es);
    var end := Run(Start(ids, n), es);
    assert Orderly(end.gws[g], end.down[g]);
    assert InGroup(end.gws[g].localRooms, r, u);
    CloseReachesHosts(ids, n, before, r, after, g);
  }

  // ---------------------------------------------------------------- stale and missing views

  /** A Gateway told because of a stale view, with nobody in the room, has nothing to end. */
  lemma StaleNoticeIsIdle(gw: Gw, r: RoomId)
    requires r !in gw.localRooms
    ensures Receive(gw, CloseNotice(r)) == gw
  {
  }
}
