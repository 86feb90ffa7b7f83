/** What one Roomserver request undoes of another. */
module RoomserverUndo {
  import opened Ids
  import opened Sessions
  import opened Rooms
  import opened Roomserver
  import opened RoomserverRuns

  /** An online member that disconnects can resume on its Gateway, and then all is as before, times aside. */
  lemma ResumeUndoesDisconnect(s: State, u: UserId, r: RoomId, t0: Time, t1: Time, now: Time)
    requires Mirror(s) && InRoom(s.rooms, r, u) && s.sessions[u].status == Online
    ensures var away := Disconnect(s, u, r, t0, t1);
      && ResumeCode(away, u, r).0 == ERR_SUCCESS
      && EraseTimes(Resume(away, u, r, s.sessions[u].gatewayId, now)) == EraseTimes(s)
  {
    var away := Disconnect(s, u, r, t0, t1);
    var back := Resume(away, u, r, s.sessions[u].gatewayId, now);
    var room, room' := s.rooms[r], back.rooms[r];
    assert Agrees(r, room.members[u], s.sessions[u]);
    assert EraseRoom(room').members == EraseRoom(room).members;
    assert EraseTimes(back).rooms == EraseTimes(s).rooms;
    assert EraseTimes(back).sessions == EraseTimes(s).sessions;
  }

  lemma DropUndoesAdd<K(!new), V(!new)>(groups: Groups<K, V>, k: K, v: V)
    requires NoEmptyGroup(groups) && !InGroup(groups, k, v)
    ensures GroupDrop(GroupAdd(groups, k, v), k, v) == groups
  {
  }

  /** A newcomer that leaves the room it joined leaves no trace but the room itself. */
  lemma LeaveUndoesJoin(s: State, u: UserId, r: RoomId, g: GatewayId, t0: Time, t1: Time)
    requires Mirror(s) && ViewsExact(s.rooms) && u !in s.sessions
    ensures Leave(Join(s, u, r, g, t0, t1), u, r) == s.(rooms := s.rooms[r := RoomOrNew(s.rooms, r)])
  {
    var room := RoomOrNew(s.rooms, r);
    assert !InRoom(s.rooms, r, u);
    assert Exact(room);
    DropUndoesAdd(room.gateways, g, u);
    var left := Leave(Join(s, u, r, g, t0, t1), u, r);
    assert left.rooms[r].members == room.members;
    assert left.sessions == s.sessions;
  }
}
