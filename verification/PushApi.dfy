/** The push API of the Roomserver: grouping a multicast by Gateway, and addressing the Gateways of a room. */
module PushApi {
  import opened Ids
  import opened Sessions
  import opened Rooms
  import opened Roomserver
  import opened RoomserverRuns

  // ---------------------------------------------------------------- multicast

  /** The requested users whose session is on Gateway `g`, in request order. */
  function OnGateway(t: SessionTable, ids: seq<UserId>, g: GatewayId): seq<UserId> {
    if ids == [] then []
    else
      var u := ids[|ids| - 1];
      OnGateway(t, ids[..|ids| - 1], g) + (if u in t && t[u].gatewayId == g then [u] else [])
  }

  /** The grouping loop: one group per Gateway that some requested user is on, and nothing else in it. */
  method GroupByGateway(sessions: SessionService, ids: seq<UserId>) returns (groups: map<GatewayId, seq<UserId>>)
    requires sessions.Valid()
    ensures forall g :: g in groups <==> OnGateway(sessions.table, ids, g) != []
    ensures forall g :: g in groups ==> groups[g] == OnGateway(sessions.table, ids, g)
  {
    groups := map[];
    for i := 0 to |ids|
      invariant forall g :: g in groups <==> OnGateway(sessions.table, ids[..i], g) != []
      invariant forall g :: g in groups ==> groups[g] == OnGateway(sessions.table, ids[..i], g)
    {
      assert ids[..i + 1][..i] == ids[..i];
      var session := sessions.Get(ids[i]);
      if session.Some? {
        var g := session.value.gatewayId;
        groups := groups[g := (if g in groups then groups[g] else []) + [ids[i]]];
      }
    }
    assert ids[..|ids|] == ids;
  }

  /**
   * The groups partition the requested users that have a session: each occurs
   * in its own Gateway's group as often as requested and in no other group.
   */
  lemma {:induction false} GroupsPartition(t: SessionTable, ids: seq<UserId>, g: GatewayId, u: UserId)
    ensures multiset(OnGateway(t, ids, g))[u] == if u in t && t[u].gatewayId == g then multiset(ids)[u] else 0
    decreases |ids|
  {
    if ids != [] {
      GroupsPartition(t, ids[..|ids| - 1], g, u);
      assert ids == ids[..|ids| - 1] + [ids[|ids| - 1]];
    }
  }

  /** Groups keep the request order: a request split in two gives the two groups one after the other. */
  lemma {:induction false} GroupsKeepOrder(t: SessionTable, ids: seq<UserId>, later: seq<UserId>, g: GatewayId)
    ensures OnGateway(t, ids + later, g) == OnGateway(t, ids, g) + OnGateway(t, later, g)
    decreases |later|
  {
    if later == [] {
      assert ids + later == ids;
    } else {
      var front := later[..|later| - 1];
      assert (ids + later)[..|ids + later| - 1] == ids + front;
      GroupsKeepOrder(t, ids, front, g);
    }
  }

  // ---------------------------------------------------------------- room close and broadcast

  /** The connected Gateways a message for room `r` is sent to. */
  function Targets(t: RoomTable, r: RoomId, connected: set<GatewayId>): set<GatewayId> {
    if r in t then t[r].gateways.Keys * connected else {}
  }

  /** Notifies each connected Gateway of the room once. */
  method NotifyRoom(rooms: RoomService, r: RoomId, connected: set<GatewayId>) returns (notified: seq<GatewayId>)
    ensures Enumerates(notified, Targets(rooms.rooms, r, connected))
  {
    var ids := rooms.GetRoomGatewayIDs(r);
    notified := [];
    for i := 0 to |ids|
      invariant NoRepeats(notified)
      invariant forall g :: g in notified <==> g in ids[..i] && g in connected
    {
      assert ids[i] !in ids[..i];
      assert ids[..i + 1] == ids[..i] + [ids[i]];
      if ids[i] in connected {
        notified := notified + [ids[i]];
      }
    }
    assert ids[..|ids|] == ids;
  }

  /** The close request: unknown rooms are refused, known ones notified and removed. */
  method CloseRoomRequest(server: Server, r: RoomId, connected: set<GatewayId>)
    returns (found: bool, notified: seq<GatewayId>)
    requires server.Valid()
    modifies server.roomSvc
    ensures server.Valid()
    ensures found <==> r in old(server.Contents()).rooms
    ensures Enumerates(notified, Targets(old(server.Contents()).rooms, r, connected))
    ensures server.Contents() == Close(old(server.Contents()), r)
  {
    found, notified := r in server.roomSvc.rooms, [];
    if !found { return; }
    notified := NotifyRoom(server.roomSvc, r, connected);
    var _ := server.roomSvc.Close(r);
  }

  /** The Gateways of a platform-wide broadcast. */
  method GlobalTargets(rooms: RoomService) returns (all: set<GatewayId>)
    ensures forall g :: g in all <==> exists r :: r in rooms.rooms && g in rooms.rooms[r].gateways
  {
    all := {};
    var roomIds := Range(rooms.rooms.Keys);
    for i := 0 to |roomIds|
      invariant forall g :: g in all <==> exists r :: r in roomIds[..i] && r in rooms.rooms && g in rooms.rooms[r].gateways
    {
      assert roomIds[..i + 1] == roomIds[..i] + [roomIds[i]];
      var ids := rooms.GetRoomGatewayIDs(roomIds[i]);
      all := all + set g | g in ids;
    }
    assert roomIds[..|roomIds|] == roomIds;
  }

  /**
   * In every reachable state a room message reaches each connected Gateway
   * that hosts a member; and if nobody re-joined from another Gateway, it goes
   * to no Gateway that hosts none.
   */
  lemma RoomMessageReachesHosts(es: seq<Event>, r: RoomId, connected: set<GatewayId>)
    ensures forall u :: InRoom(Run(EMPTY, es).rooms, r, u) && Run(EMPTY, es).rooms[r].members[u].gatewayId in connected
              ==> Run(EMPTY, es).rooms[r].members[u].gatewayId in Targets(Run(EMPTY, es).rooms, r, connected)
    ensures (forall i :: 0 <= i < |es| ==> !RejoinsElsewhere(Run(EMPTY, es[..i]), es[i])) ==>
      forall g :: g in Targets(Run(EMPTY, es).rooms, r, connected) ==>
        exists u :: InRoom(Run(EMPTY, es).rooms, r, u) && Run(EMPTY, es).rooms[r].members[u].gatewayId == g
  {
    RunKeepsViewsCover(es);
    var t := Run(EMPTY, es).rooms;
    if forall i :: 0 <= i < |es| ==> !RejoinsElsewhere(Run(EMPTY, es[..i]), es[i]) {
      RunKeepsViewsExact(es);
      forall g | g in Targets(t, r, connected)
        ensures exists u :: InRoom(t, r, u) && t[r].members[u].gatewayId == g
      {
        var u :| u in t[r].gateways[g];
        assert InGroup(t[r].gateways, g, u);
        assert InRoom(t, r, u);
      }
    }
  }
}
