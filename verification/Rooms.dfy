/** Rooms, their members, and the per-room view each Gateway has of them. */
module Rooms {
  import opened Ids

  datatype Member = Member(
    userId: UserId, gatewayId: GatewayId, status: MemberStatus, joinTime: Time, disconnectTime: Time)

  /** `gateways` is the room's Gateway view: for each Gateway, the users it hosts. */
  datatype Room = Room(roomId: RoomId, members: map<UserId, Member>, gateways: Groups<GatewayId, UserId>)

  type RoomTable = map<RoomId, Room>

  predicate InRoom(t: RoomTable, r: RoomId, u: UserId) {
    r in t && u in t[r].members
  }

  // ---------------------------------------------------------------- specification of the operations

  function NewRoom(r: RoomId): Room {
    Room(r, map[], map[])
  }

  function RoomOrNew(t: RoomTable, r: RoomId): Room {
    if r in t then t[r] else NewRoom(r)
  }

  function AddUser(t: RoomTable, r: RoomId, u: UserId, g: GatewayId, now: Time): RoomTable {
    var room := RoomOrNew(t, r);
    t[r := room.(members := room.members[u := Member(u, g, Online, now, ZERO_TIME)],
                 gateways := GroupAdd(room.gateways, g, u))]
  }

  function RemoveUser(t: RoomTable, r: RoomId, u: UserId): RoomTable {
    if !InRoom(t, r, u) then t
    else t[r := t[r].(members := t[r].members - {u},
                      gateways := GroupDrop(t[r].gateways, t[r].members[u].gatewayId, u))]
  }

  function SetMember(t: RoomTable, r: RoomId, u: UserId, m: Member): RoomTable
    requires r in t
  {
    t[r := t[r].(members := t[r].members[u := m])]
  }

  function SetUserDisconnected(t: RoomTable, r: RoomId, u: UserId, now: Time): RoomTable {
    if !InRoom(t, r, u) then t
    else SetMember(t, r, u, t[r].members[u].(status := Disconnected, disconnectTime := now))
  }

  function UpdateUserGateway(t: RoomTable, r: RoomId, u: UserId, g: GatewayId): RoomTable {
    if !InRoom(t, r, u) then t
    else
      var m := t[r].members[u];
      var views := if m.gatewayId == g then t[r].gateways
                   else GroupAdd(GroupDrop(t[r].gateways, m.gatewayId, u), g, u);
      t[r := t[r].(members := t[r].members[u := m.(gatewayId := g, status := Online, disconnectTime := ZERO_TIME)],
                   gateways := views)]
  }

  function CloseRoom(t: RoomTable, r: RoomId): RoomTable {
    t - {r}
  }

  // ---------------------------------------------------------------- Gateway views

  /** Every member is in the view of its own Gateway, and no view is empty. */
  ghost predicate Covered(room: Room) {
    && (forall u :: u in room.members ==> InGroup(room.gateways, room.members[u].gatewayId, u))
    && (forall g :: g in room.gateways ==> room.gateways[g] != {})
  }

  /** The views are the exact inverse of the members' Gateways. */
  ghost predicate Exact(room: Room) {
    && (forall g, u :: InGroup(room.gateways, g, u) <==> u in room.members && room.members[u].gatewayId == g)
    && (forall g :: g in room.gateways ==> room.gateways[g] != {})
  }

  ghost predicate ViewsCover(t: RoomTable) {
    forall r :: r in t ==> Covered(t[r])
  }

  ghost predicate ViewsExact(t: RoomTable) {
    forall r :: r in t ==> Exact(t[r])
  }

  lemma RemoveUserKeepsViews(t: RoomTable, r: RoomId, u: UserId)
    ensures ViewsCover(t) ==> ViewsCover(RemoveUser(t, r, u))
    ensures ViewsExact(t) ==> ViewsExact(RemoveUser(t, r, u))
  {
    if InRoom(t, r, u) {
      GroupDropMembers(t[r].gateways, t[r].members[u].gatewayId, u);
    }
  }

  lemma AddUserViews(t: RoomTable, r: RoomId, u: UserId, g: GatewayId, now: Time)
    ensures ViewsCover(t) ==> ViewsCover(AddUser(t, r, u, g, now))
    ensures ViewsExact(t) ==>
      (ViewsExact(AddUser(t, r, u, g, now)) <==> !(InRoom(t, r, u) && t[r].members[u].gatewayId != g))
  {
    var room, room' := RoomOrNew(t, r), AddUser(t, r, u, g, now)[r];
    GroupAddMembers(room.gateways, g, u);
    if ViewsExact(t) {
      assert Exact(room);
      if u in room.members && room.members[u].gatewayId != g {
        assert InGroup(room'.gateways, room.members[u].gatewayId, u);
        assert !Exact(room');
      } else {
        assert Exact(room');
      }
    }
  }

  lemma MoveKeepsViews(t: RoomTable, r: RoomId, u: UserId, g: GatewayId)
    ensures ViewsCover(t) ==> ViewsCover(UpdateUserGateway(t, r, u, g))
    ensures ViewsExact(t) ==> ViewsExact(UpdateUserGateway(t, r, u, g))
  {
    if InRoom(t, r, u) {
      var views, from := t[r].gateways, t[r].members[u].gatewayId;
      var room' := UpdateUserGateway(t, r, u, g)[r];
      if from == g {
        assert room'.gateways == views;
      } else {
        GroupDropMembers(views, from, u);
        GroupAddMembers(GroupDrop(views, from, u), g, u);
      }
      assert Covered(t[r]) ==> Covered(room');
      assert Exact(t[r]) ==> Exact(room');
    }
  }

  lemma MarkKeepsViews(t: RoomTable, r: RoomId, u: UserId, now: Time)
    ensures ViewsCover(t) ==> ViewsCover(SetUserDisconnected(t, r, u, now))
    ensures ViewsExact(t) ==> ViewsExact(SetUserDisconnected(t, r, u, now))
  {
  }

  // ---------------------------------------------------------------- the service

  class RoomService {
    var rooms: RoomTable

    /** In every room each member is in its own Gateway's view and no view is empty. */
    ghost predicate Valid()
      reads this
    {
      ViewsCover(rooms)
    }

    constructor ()
      ensures Valid() && rooms == map[]
    {
      rooms := map[];
    }

    method GetOrCreateRoom(r: RoomId) returns (room: Room)
      requires Valid()
      modifies this
      ensures Valid()
      ensures r in rooms && room == rooms[r]
      ensures rooms == old(rooms)[r := RoomOrNew(old(rooms), r)]
    {
      if r in rooms { return rooms[r]; }
      room := NewRoom(r);
      rooms := rooms[r := room];
    }

    method Close(r: RoomId) returns (ok: bool)
      requires Valid()
      modifies this
      ensures Valid()
      ensures ok <==> r in old(rooms)
      ensures rooms == CloseRoom(old(rooms), r)
    {
      ok := r in rooms;
      if ok { rooms := rooms - {r}; }
    }

    method Add(r: RoomId, u: UserId, g: GatewayId, now: Time)
      requires Valid()
      modifies this
      ensures Valid()
      ensures rooms == AddUser(old(rooms), r, u, g, now)
    {
      AddUserViews(rooms, r, u, g, now);
      var room := GetOrCreateRoom(r);
      room := room.(members := room.members[u := Member(u, g, Online, now, ZERO_TIME)]);
      var views := AddToGroup(room.gateways, g, u);
      room := room.(gateways := views);
      rooms := rooms[r := room];
    }

    method Remove(r: RoomId, u: UserId)
      requires Valid()
      modifies this
      ensures Valid()
      ensures rooms == RemoveUser(old(rooms), r, u)
    {
      RemoveUserKeepsViews(rooms, r, u);
      if r !in rooms { return; }
      var room := rooms[r];
      if u !in room.members { return; }
      var member := room.members[u];
      room := room.(members := room.members - {u});
      var views := DropFromGroup(room.gateways, member.gatewayId, u);
      rooms := rooms[r := room.(gateways := views)];
    }

    method MarkDisconnected(r: RoomId, u: UserId, now: Time)
      requires Valid()
      modifies this
      ensures Valid()
      ensures rooms == SetUserDisconnected(old(rooms), r, u, now)
    {
      MarkKeepsViews(rooms, r, u, now);
      if r !in rooms { return; }
      var room := rooms[r];
      if u in room.members {
        var member := room.members[u];
        member := member.(status := Disconnected);
        member := member.(disconnectTime := now);
        rooms := rooms[r := room.(members := room.members[u := member])];
      }
    }

    method MoveToGateway(r: RoomId, u: UserId, g: GatewayId) returns (ok: bool)
      requires Valid()
      modifies this
      ensures Valid()
      ensures ok <==> InRoom(old(rooms), r, u)
      ensures rooms == UpdateUserGateway(old(rooms), r, u, g)
    {
      MoveKeepsViews(rooms, r, u, g);
      if r !in rooms { return false; }
      var room := rooms[r];
      if u !in room.members { return false; }
      var member := room.members[u];
      var from := member.gatewayId;
      if from != g {
        var views := DropFromGroup(room.gateways, from, u);
        views := AddToGroup(views, g, u);
        room := room.(gateways := views);
        member := member.(gatewayId := g);
      }
      member := member.(status := Online);
      member := member.(disconnectTime := ZERO_TIME);
      rooms := rooms[r := room.(members := room.members[u := member])];
      ok := true;
    }

    method GetRoomGatewayIDs(r: RoomId) returns (ids: seq<GatewayId>)
      ensures Enumerates(ids, if r in rooms then rooms[r].gateways.Keys else {})
    {
      if r !in rooms { return []; }
      ids := Range(rooms[r].gateways.Keys);
    }
  }
}
