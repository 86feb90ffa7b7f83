/**
 * The session table: a flat map from users to sessions, and the table of 256
 * shards that implements it.
 */
module Sessions {
  import opened Ids

  datatype Session = Session(
    userId: UserId, roomId: RoomId, gatewayId: GatewayId,
    status: MemberStatus, connectedAt: Time, disconnectedAt: Time)

  type SessionTable = map<UserId, Session>

  const SHARD_COUNT := 256

  // ---------------------------------------------------------------- the flat table

  function GetSession(t: SessionTable, u: UserId): Option<Session> {
    if u in t then Some(t[u]) else None
  }

  function GetUserRoom(t: SessionTable, u: UserId): RoomId {
    if u in t then t[u].roomId else NO_ROOM
  }

  function CreateSession(t: SessionTable, u: UserId, r: RoomId, g: GatewayId, now: Time): SessionTable {
    t[u := Session(u, r, g, Online, now, ZERO_TIME)]
  }

  function UpdateSession(t: SessionTable, u: UserId, r: RoomId, g: GatewayId, now: Time): SessionTable {
    if u in t
    then t[u := t[u].(roomId := r, gatewayId := g, status := Online, disconnectedAt := ZERO_TIME)]
    else CreateSession(t, u, r, g, now)
  }

  function SetDisconnected(t: SessionTable, u: UserId, now: Time): SessionTable {
    if u in t then t[u := t[u].(status := Disconnected, disconnectedAt := now)] else t
  }

  function DeleteSession(t: SessionTable, u: UserId): SessionTable {
    t - {u}
  }

  predicate IsDisconnected(t: SessionTable, u: UserId) {
    u in t && t[u].status == Disconnected
  }

  function DisconnectedDuration(t: SessionTable, u: UserId, now: Time): Time {
    if IsDisconnected(t, u) then now - t[u].disconnectedAt else 0
  }

  // ---------------------------------------------------------------- the sharded table

  /**
   * The sharded table refines the flat one: `table` is the flat map, and
   * `Valid` says that each user's session is in the user's hash shard and in
   * no other.  Every method is specified by what it does to the flat map.
   */
  class SessionService {
    const hash: UserId -> nat
    const shards: array<SessionTable>
    ghost var table: SessionTable

    function ShardOf(u: UserId): nat {
      hash(u) % SHARD_COUNT
    }

    ghost predicate Valid()
      reads this, shards
    {
      && shards.Length == SHARD_COUNT
      && (forall i, u :: 0 <= i < SHARD_COUNT && u in shards[i] ==>
            i == ShardOf(u) && u in table && table[u] == shards[i][u])
      && (forall u :: u in table ==> u in shards[ShardOf(u)])
    }

    constructor (hash: UserId -> nat)
      ensures Valid() && fresh(shards) && table == map[] && this.hash == hash
    {
      this.hash := hash;
      table := map[];
      shards := new SessionTable[SHARD_COUNT];
      new;
      for i := 0 to SHARD_COUNT
        invariant table == map[]
        invariant forall j :: 0 <= j < i ==> shards[j] == map[]
      {
        shards[i] := map[];
      }
    }

    method Get(u: UserId) returns (s: Option<Session>)
      requires Valid()
      ensures s == GetSession(table, u)
    {
      var shard := shards[ShardOf(u)];
      s := if u in shard then Some(shard[u]) else None;
    }

    method UserRoom(u: UserId) returns (r: RoomId)
      requires Valid()
      ensures r == GetUserRoom(table, u)
    {
      var s := Get(u);
      if s.None? { return NO_ROOM; }
      r := s.value.roomId;
    }

    method Create(u: UserId, r: RoomId, g: GatewayId, now: Time)
      requires Valid()
      modifies this, shards
      ensures Valid()
      ensures table == CreateSession(old(table), u, r, g, now)
    {
      var i := ShardOf(u);
      shards[i] := shards[i][u := Session(u, r, g, Online, now, ZERO_TIME)];
      table := CreateSession(table, u, r, g, now);
    }

    method Update(u: UserId, r: RoomId, g: GatewayId, now: Time)
      requires Valid()
      modifies this, shards
      ensures Valid()
      ensures table == UpdateSession(old(table), u, r, g, now)
    {
      var i := ShardOf(u);
      if u in shards[i] {
        var session := shards[i][u];
        session := session.(roomId := r);
        session := session.(gatewayId := g);
        session := session.(status := Online);
        session := session.(disconnectedAt := ZERO_TIME);
        shards[i] := shards[i][u := session];
        assert session == UpdateSession(table, u, r, g, now)[u];
      } else {
        shards[i] := shards[i][u := Session(u, r, g, Online, now, ZERO_TIME)];
      }
      table := table[u := UpdateSession(table, u, r, g, now)[u]];
    }

    method Disconnect(u: UserId, now: Time)
      requires Valid()
      modifies this, shards
      ensures Valid()
      ensures table == SetDisconnected(old(table), u, now)
    {
      var i := ShardOf(u);
      if u in shards[i] {
        var session := shards[i][u];
        session := session.(status := Disconnected);
        session := session.(disconnectedAt := now);
        shards[i] := shards[i][u := session];
      }
      table := SetDisconnected(table, u, now);
    }

    method Delete(u: UserId)
      requires Valid()
      modifies this, shards
      ensures Valid()
      ensures table == DeleteSession(old(table), u)
    {
      var i := ShardOf(u);
      var rest := shards[i] - {u};
      assert forall v :: v in rest <==> v in shards[i] && v != u;
      shards[i] := rest;
      table := DeleteSession(table, u);
    }

    method UserDisconnected(u: UserId) returns (b: bool)
      requires Valid()
      ensures b == IsDisconnected(table, u)
    {
      var s := Get(u);
      b := s.Some? && s.value.status == Disconnected;
    }

    method GetDisconnectedDuration(u: UserId, now: Time) returns (d: Time)
      requires Valid()
      ensures d == DisconnectedDuration(table, u, now)
      ensures d == if u in table && table[u].status == Disconnected then now - table[u].disconnectedAt else 0
    {
      var s := Get(u);
      if s.None? || s.value.status != Disconnected { return 0; }
      d := now - s.value.disconnectedAt;
    }

    /** The shard sizes add up to the size of the flat map. */
    method GetSessionCount() returns (total: nat)
      requires Valid()
      ensures total == |table|
    {
      total := 0;
      ghost var seen: set<UserId> := {};
      for i := 0 to SHARD_COUNT
        invariant seen == set u | u in table && ShardOf(u) < i
        invariant total == |seen|
      {
        ghost var keys := shards[i].Keys;
        assert forall u :: u in keys <==> u in table && ShardOf(u) == i;
        assert keys !! seen;
        assert |seen + keys| == |seen| + |keys|;
        total := total + |shards[i]|;
        seen := seen + keys;
      }
      assert seen == table.Keys;
    }

    /** Every user with a session is listed exactly once. */
    method GetAllUserIDs() returns (ids: seq<UserId>)
      requires Valid()
      ensures Enumerates(ids, table.Keys)
    {
      ids := [];
      for i := 0 to SHARD_COUNT
        invariant Enumerates(ids, set u | u in table && ShardOf(u) < i)
      {
        var shard := Range(shards[i].Keys);
        ghost var before := set u | u in table && ShardOf(u) < i;
        EnumeratesConcat(ids, before, shard, shards[i].Keys);
        assert before + shards[i].Keys == set u | u in table && ShardOf(u) < i + 1;
        ids := ids + shard;
      }
    }
  }
}
