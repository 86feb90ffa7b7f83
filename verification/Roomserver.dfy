/**
 * The Roomserver: rooms and sessions together.  `State` and the functions on it
 * specify the handlers; the class `Server` performs them step by step on the two
 * services and is proved equal to the specification.
 */
module Roomserver {
  import opened Ids
  import opened Sessions
  import opened Rooms

  datatype State = State(rooms: RoomTable, sessions: SessionTable)

  const EMPTY := State(map[], map[])

  const ERR_SUCCESS := 0
  const ERR_USER_NOT_IN_ROOM := 2002
  const ERR_ROOM_CLOSED := 2003
  const ERR_ROOM_MISMATCH := 2004

  // ---------------------------------------------------------------- specification of the handlers

  /** The member removal that precedes a join: the room the session names, unless it is "" or the room joined. */
  function LeaveOldRoom(s: State, u: UserId, r: RoomId): RoomTable {
    var current := GetUserRoom(s.sessions, u);
    if current != NO_ROOM && current != r then RemoveUser(s.rooms, current, u) else s.rooms
  }

  /** `roomTime` and `sessionTime` are the two clock readings of one join. */
  function Join(s: State, u: UserId, r: RoomId, g: GatewayId, roomTime: Time, sessionTime: Time): State {
    State(AddUser(LeaveOldRoom(s, u, r), r, u, g, roomTime), UpdateSession(s.sessions, u, r, g, sessionTime))
  }

  function Leave(s: State, u: UserId, r: RoomId): State {
    State(RemoveUser(s.rooms, r, u), DeleteSession(s.sessions, u))
  }

  function ResumeCode(s: State, u: UserId, r: RoomId): (int, RoomId) {
    if u !in s.sessions then (ERR_USER_NOT_IN_ROOM, NO_ROOM)
    else if s.sessions[u].roomId != r then (ERR_ROOM_MISMATCH, s.sessions[u].roomId)
    else if r !in s.rooms then (ERR_ROOM_CLOSED, NO_ROOM)
    else (ERR_SUCCESS, NO_ROOM)
  }

  function Resume(s: State, u: UserId, r: RoomId, g: GatewayId, now: Time): State {
    if ResumeCode(s, u, r).0 != ERR_SUCCESS then s
    else State(UpdateUserGateway(s.rooms, r, u, g), UpdateSession(s.sessions, u, r, g, now))
  }

  function Disconnect(s: State, u: UserId, r: RoomId, roomTime: Time, sessionTime: Time): State {
    State(SetUserDisconnected(s.rooms, r, u, roomTime), SetDisconnected(s.sessions, u, sessionTime))
  }

  /** A room closed by the business backend: the room goes, its sessions stay. */
  function Close(s: State, r: RoomId): State {
    s.(rooms := CloseRoom(s.rooms, r))
  }

  /** The timeout test: disconnected, and for at least `timeout` at time `now`. */
  predicate TimedOut(s: State, u: UserId, now: Time, timeout: Time) {
    IsDisconnected(s.sessions, u) && DisconnectedDuration(s.sessions, u, now) >= timeout
  }

  /** One turn of the sweep's loop. */
  function Expire(s: State, u: UserId, now: Time, timeout: Time): State {
    if TimedOut(s, u, now, timeout) then Leave(s, u, s.sessions[u].roomId) else s
  }

  // ---------------------------------------------------------------- runs

  datatype Event =
    | JoinEvent(u: UserId, r: RoomId, g: GatewayId, roomTime: Time, sessionTime: Time)
    | LeaveEvent(u: UserId, r: RoomId)
    | ResumeEvent(u: UserId, r: RoomId, g: GatewayId, now: Time)
    | DisconnectEvent(u: UserId, r: RoomId, roomTime: Time, sessionTime: Time)
    | CloseEvent(r: RoomId)
    | ExpireEvent(u: UserId, now: Time, timeout: Time)

  function Step(s: State, e: Event): State {
    match e
    case JoinEvent(u, r, g, t0, t1) => Join(s, u, r, g, t0, t1)
    case LeaveEvent(u, r) => Leave(s, u, r)
    case ResumeEvent(u, r, g, now) => Resume(s, u, r, g, now)
    case DisconnectEvent(u, r, t0, t1) => Disconnect(s, u, r, t0, t1)
    case CloseEvent(r) => Close(s, r)
    case ExpireEvent(u, now, timeout) => Expire(s, u, now, timeout)
  }

  function Run(s: State, es: seq<Event>): State
    decreases |es|
  {
    if es == [] then s else Step(Run(s, es[..|es| - 1]), es[|es| - 1])
  }

  lemma RunSnoc(s: State, es: seq<Event>, i: nat)
    requires i < |es|
    ensures Run(s, es[..i + 1]) == Step(Run(s, es[..i]), es[i])
  {
    assert es[..i + 1][..i] == es[..i];
  }

  /** A resync batch is a join for each of its pairs, all from the sending Gateway. */
  function BatchEvents(g: GatewayId, users: seq<UserRoomPair>, clock: seq<(Time, Time)>): seq<Event>
    requires |users| == |clock|
  {
    seq(|users|, i requires 0 <= i < |users| =>
      JoinEvent(users[i].userId, users[i].roomId, g, clock[i].0, clock[i].1))
  }

  /** The first `n` readings of a clock. */
  function Readings(clock: nat -> Time, n: nat): (times: seq<Time>)
    ensures |times| == n && forall i :: 0 <= i < n ==> times[i] == clock(i)
  {
    seq(n, i requires 0 <= i => clock(i))
  }

  /** A sweep is one timeout test per listed user, each with its own clock reading. */
  function SweepEvents(ids: seq<UserId>, clock: seq<Time>, timeout: Time): seq<Event>
    requires |ids| == |clock|
  {
    seq(|ids|, i requires 0 <= i < |ids| => ExpireEvent(ids[i], clock[i], timeout))
  }

  // ---------------------------------------------------------------- times aside

  function EraseSession(s: Session): Session {
    s.(connectedAt := ZERO_TIME, disconnectedAt := ZERO_TIME)
  }

  function EraseMember(m: Member): Member {
    m.(joinTime := ZERO_TIME, disconnectTime := ZERO_TIME)
  }

  function EraseRoom(room: Room): Room {
    room.(members := map u | u in room.members :: EraseMember(room.members[u]))
  }

  function EraseTimes(s: State): State {
    State(map r | r in s.rooms :: EraseRoom(s.rooms[r]), map u | u in s.sessions :: EraseSession(s.sessions[u]))
  }

  // ---------------------------------------------------------------- the server

  class Server {
    const roomSvc: RoomService
    const sessionSvc: SessionService

    ghost predicate Valid()
      reads this, roomSvc, sessionSvc, sessionSvc.shards
    {
      roomSvc.Valid() && sessionSvc.Valid()
    }

    ghost function Contents(): State
      reads this, roomSvc, sessionSvc
    {
      State(roomSvc.rooms, sessionSvc.table)
    }

    constructor (hash: UserId -> nat)
      ensures Valid() && fresh(roomSvc) && fresh(sessionSvc) && fresh(sessionSvc.shards)
      ensures Contents() == EMPTY
    {
      roomSvc := new RoomService();
      sessionSvc := new SessionService(hash);
    }

    method JoinRoom(u: UserId, r: RoomId, g: GatewayId, roomTime: Time, sessionTime: Time)
      requires Valid()
      modifies roomSvc, sessionSvc, sessionSvc.shards
      ensures Valid()
      ensures Contents() == Join(old(Contents()), u, r, g, roomTime, sessionTime)
    {
      var oldRoom := sessionSvc.UserRoom(u);
      if oldRoom != NO_ROOM && oldRoom != r {
        roomSvc.Remove(oldRoom, u);
      }
      roomSvc.Add(r, u, g, roomTime);
      sessionSvc.Update(u, r, g, sessionTime);
    }

    method LeaveRoom(u: UserId, r: RoomId)
      requires Valid()
      modifies roomSvc, sessionSvc, sessionSvc.shards
      ensures Valid()
      ensures Contents() == Leave(old(Contents()), u, r)
    {
      roomSvc.Remove(r, u);
      sessionSvc.Delete(u);
    }

    method ResumeSession(u: UserId, r: RoomId, g: GatewayId, now: Time) returns (code: int, current: RoomId)
      requires Valid()
      modifies roomSvc, sessionSvc, sessionSvc.shards
      ensures Valid()
      ensures (code, current) == ResumeCode(old(Contents()), u, r)
      ensures Contents() == Resume(old(Contents()), u, r, g, now)
    {
      var session := sessionSvc.Get(u);
      if session.None? { return ERR_USER_NOT_IN_ROOM, NO_ROOM; }
      if session.value.roomId != r { return ERR_ROOM_MISMATCH, session.value.roomId; }
      if r !in roomSvc.rooms { return ERR_ROOM_CLOSED, NO_ROOM; }
      var _ := roomSvc.MoveToGateway(r, u, g);
      sessionSvc.Update(u, r, g, now);
      return ERR_SUCCESS, NO_ROOM;
    }

    method UserDisconnect(u: UserId, r: RoomId, roomTime: Time, sessionTime: Time)
      requires Valid()
      modifies roomSvc, sessionSvc, sessionSvc.shards
      ensures Valid()
      ensures Contents() == Disconnect(old(Contents()), u, r, roomTime, sessionTime)
    {
      roomSvc.MarkDisconnected(r, u, roomTime);
      sessionSvc.Disconnect(u, sessionTime);
    }

    /** A resync batch; `clock` gives the readings of each join. */
    method HandleBatchReSync(g: GatewayId, users: seq<UserRoomPair>, clock: seq<(Time, Time)>)
      requires Valid()
      requires |users| == |clock|
      modifies roomSvc, sessionSvc, sessionSvc.shards
      ensures Valid()
      ensures Contents() == Run(old(Contents()), BatchEvents(g, users, clock))
    {
      ghost var es := BatchEvents(g, users, clock);
      for i := 0 to |users|
        invariant Valid()
        invariant Contents() == Run(old(Contents()), es[..i])
      {
        RunSnoc(old(Contents()), es, i);
        JoinRoom(users[i].userId, users[i].roomId, g, clock[i].0, clock[i].1);
      }
      assert es[..|es|] == es;
    }

    /** One turn of the sweep's loop. */
    method ExpireUser(u: UserId, now: Time, timeout: Time)
      requires Valid()
      modifies roomSvc, sessionSvc, sessionSvc.shards
      ensures Valid()
      ensures Contents() == Expire(old(Contents()), u, now, timeout)
    {
      var disconnected := sessionSvc.UserDisconnected(u);
      if disconnected {
        var duration := sessionSvc.GetDisconnectedDuration(u, now);
        if duration >= timeout {
          var session := sessionSvc.Get(u);
          if session.Some? {
            LeaveRoom(u, session.value.roomId);
          }
        }
      }
    }

    /**
     * The timeout sweep, in whatever order the session shards list their
     * users.  `clock(i)` is the time read on the i-th turn of the loop.
     */
    method CheckDisconnectTimeout(timeout: Time, clock: nat -> Time) returns (ids: seq<UserId>)
      requires Valid()
      modifies roomSvc, sessionSvc, sessionSvc.shards
      ensures Valid()
      ensures Enumerates(ids, old(Contents()).sessions.Keys)
      ensures Contents() == Run(old(Contents()), SweepEvents(ids, Readings(clock, |ids|), timeout))
    {
      ids := sessionSvc.GetAllUserIDs();
      ghost var es := SweepEvents(ids, Readings(clock, |ids|), timeout);
      for i := 0 to |ids|
        invariant Valid()
        invariant Contents() == Run(old(Contents()), es[..i])
      {
        assert es[i] == ExpireEvent(ids[i], clock(i), timeout);
        RunSnoc(old(Contents()), es, i);
        ExpireUser(ids[i], clock(i), timeout);
      }
      assert es[..|es|] == es;
    }
  }
}
