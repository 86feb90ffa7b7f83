/**
 * Recovery after a Roomserver crash: the Gateways send their local rooms in
 * batches, and the empty Roomserver rebuilds members, views and sessions.
 */
module CrashRecovery {
  import opened Ids
  import opened Sessions
  import opened Rooms
  import opened Roomserver
  import opened RoomserverRuns

  /** Where a user is: its room and the Gateway that hosts it. */
  datatype Place = Place(roomId: RoomId, gatewayId: GatewayId)
  type Placement = map<UserId, Place>

  // ---------------------------------------------------------------- the state a placement stands for

  predicate SessionAt(session: Session, u: UserId, at: Place) {
    session == Session(u, at.roomId, at.gatewayId, Online, session.connectedAt, session.disconnectedAt)
  }

  predicate MemberPlaced(m: Member, u: UserId, at: Place) {
    m == Member(u, at.gatewayId, Online, m.joinTime, m.disconnectTime)
  }

  ghost predicate SessionsHold(t: SessionTable, p: Placement) {
    t.Keys == p.Keys && forall u :: u in t ==> SessionAt(t[u], u, p[u])
  }

  ghost predicate MembersHold(t: RoomTable, p: Placement) {
    && (forall r, u :: InRoom(t, r, u) <==> u in p && p[u].roomId == r)
    && (forall r, u :: InRoom(t, r, u) ==> MemberPlaced(t[r].members[u], u, p[u]))
  }

  ghost predicate ViewsHold(t: RoomTable, p: Placement) {
    forall r, g, u :: SeenAt(t, r, g, u) <==> u in p && p[u] == Place(r, g)
  }

  /** No room and no view is there without somebody in it. */
  ghost predicate NothingEmpty(t: RoomTable) {
    forall r :: r in t ==> t[r].roomId == r && t[r].members != map[]
                           && forall g :: g in t[r].gateways ==> t[r].gateways[g] != {}
  }

  /** The state holds exactly the placement: sessions, members and views, all online. */
  ghost predicate Holds(s: State, p: Placement) {
    SessionsHold(s.sessions, p) && MembersHold(s.rooms, p) && ViewsHold(s.rooms, p) && NothingEmpty(s.rooms)
  }

  // ---------------------------------------------------------------- uniqueness

  /** A placement determines rooms, members, views and sessions, times aside. */
  lemma PlacementDeterminesState(s: State, s': State, p: Placement)
    requires Holds(s, p) && Holds(s', p)
    ensures EraseTimes(s) == EraseTimes(s')
  {
    forall r | r in s.rooms ensures r in s'.rooms && EraseRoom(s.rooms[r]) == EraseRoom(s'.rooms[r]) {
      RoomsAgree(s.rooms, s'.rooms, p, r);
    }
    forall r | r in s'.rooms ensures r in s.rooms { RoomsAgree(s'.rooms, s.rooms, p, r); }
    assert EraseTimes(s).rooms == EraseTimes(s').rooms;
    assert EraseTimes(s).sessions == EraseTimes(s').sessions;
  }

  lemma RoomsAgree(t: RoomTable, t': RoomTable, p: Placement, r: RoomId)
    requires MembersHold(t, p) && ViewsHold(t, p) && NothingEmpty(t)
    requires MembersHold(t', p) && ViewsHold(t', p) && NothingEmpty(t')
    requires r in t
    ensures r in t' && EraseRoom(t[r]) == EraseRoom(t'[r])
  {
    MembersAgree(t, t', p, r);
    forall g, v ensures InGroup(t[r].gateways, g, v) <==> InGroup(t'[r].gateways, g, v) {
      assert SeenAt(t, r, g, v) <==> SeenAt(t', r, g, v);
    }
    SameViews(t[r].gateways, t'[r].gateways);
  }

  lemma MembersAgree(t: RoomTable, t': RoomTable, p: Placement, r: RoomId)
    requires MembersHold(t, p) && MembersHold(t', p) && r in t && t[r].members != map[]
    ensures r in t' && EraseRoom(t[r]).members == EraseRoom(t'[r]).members
  {
    var u :| u in t[r].members;
    assert InRoom(t, r, u);
    assert InRoom(t', r, u);
    forall v ensures v in t[r].members <==> v in t'[r].members {
      assert InRoom(t, r, v) <==> InRoom(t', r, v);
    }
    forall v | v in t[r].members ensures EraseMember(t[r].members[v]) == EraseMember(t'[r].members[v]) {
      assert InRoom(t, r, v) && InRoom(t', r, v);
    }
  }

  /** Views without an empty one are determined by who is seen where. */
  lemma SameViews(a: Groups<GatewayId, UserId>, b: Groups<GatewayId, UserId>)
    requires forall g, v :: InGroup(a, g, v) <==> InGroup(b, g, v)
    requires forall g :: g in a ==> a[g] != {}
    requires forall g :: g in b ==> b[g] != {}
    ensures a == b
  {
    forall g | g in a ensures g in b && a[g] == b[g] {
      var v :| v in a[g];
      assert InGroup(a, g, v);
      forall w ensures w in a[g] <==> w in b[g] { assert InGroup(a, g, w) <==> InGroup(b, g, w); }
    }
    forall g | g in b ensures g in a {
      var v :| v in b[g];
      assert InGroup(b, g, v);
    }
  }

  // ---------------------------------------------------------------- one join

  /** Joining a user where the placement puts it, for the first time or again. */
  lemma JoinPlaces(s: State, p: Placement, u: UserId, at: Place, t0: Time, t1: Time)
    requires Holds(s, p)
    requires u in p ==> p[u] == at
    ensures Holds(Join(s, u, at.roomId, at.gatewayId, t0, t1), p[u := at])
  {
    assert LeaveOldRoom(s, u, at.roomId) == s.rooms;
    AddUserPlacesMember(s.rooms, p, u, at, t0);
    AddUserPlacesView(s.rooms, p, u, at, t0);
  }

  lemma AddUserPlacesMember(t: RoomTable, p: Placement, u: UserId, at: Place, now: Time)
    requires MembersHold(t, p) && (u in p ==> p[u] == at)
    ensures MembersHold(AddUser(t, at.roomId, u, at.gatewayId, now), p[u := at])
  {
    var t', p' := AddUser(t, at.roomId, u, at.gatewayId, now), p[u := at];
    forall r, v ensures InRoom(t', r, v) <==> v in p' && p'[v].roomId == r {
      assert InRoom(t, r, v) <==> v in p && p[v].roomId == r;
    }
    forall r, v | InRoom(t', r, v) ensures MemberPlaced(t'[r].members[v], v, p'[v]) {
      if v != u { assert InRoom(t, r, v); }
    }
  }

  lemma AddUserPlacesView(t: RoomTable, p: Placement, u: UserId, at: Place, now: Time)
    requires ViewsHold(t, p) && NothingEmpty(t) && (u in p ==> p[u] == at)
    ensures ViewsHold(AddUser(t, at.roomId, u, at.gatewayId, now), p[u := at])
    ensures NothingEmpty(AddUser(t, at.roomId, u, at.gatewayId, now))
  {
    var t', p' := AddUser(t, at.roomId, u, at.gatewayId, now), p[u := at];
    GroupAddMembers(RoomOrNew(t, at.roomId).gateways, at.gatewayId, u);
    forall r, g, v ensures SeenAt(t', r, g, v) <==> v in p' && p'[v] == Place(r, g) {
      assert SeenAt(t, r, g, v) <==> v in p && p[v] == Place(r, g);
    }
    assert u in t'[at.roomId].members;
  }

  /** A state that holds a placement has all the invariants of a good run. */
  lemma HoldsKeepsInvariants(s: State, p: Placement)
    requires Holds(s, p)
    ensures Mirror(s) && SessionsPlaced(s) && ViewsExact(s.rooms)
  {
    forall r | r in s.rooms ensures Exact(s.rooms[r]) {
      forall g, u ensures InGroup(s.rooms[r].gateways, g, u)
                     <==> (u in s.rooms[r].members && s.rooms[r].members[u].gatewayId == g) {
        assert SeenAt(s.rooms, r, g, u) == InGroup(s.rooms[r].gateways, g, u);
        assert InRoom(s.rooms, r, u) == (u in s.rooms[r].members);
      }
    }
  }

  // ---------------------------------------------------------------- whole recoveries

  /** A batch as the Roomserver receives it, with the clock readings of its joins. */
  datatype Envelope = Envelope(gatewayId: GatewayId, users: seq<UserRoomPair>, clock: seq<(Time, Time)>)

  ghost predicate Timed(es: seq<Envelope>) {
    forall i :: 0 <= i < |es| ==> |es[i].users| == |es[i].clock|
  }

  function Recover(s: State, es: seq<Envelope>): State
    requires Timed(es)
    decreases |es|
  {
    if es == [] then s
    else
      var e := es[|es| - 1];
      Run(Recover(s, es[..|es| - 1]), BatchEvents(e.gatewayId, e.users, e.clock))
  }

  /** Everything an envelope reports is where the placement says. */
  ghost predicate Consistent(e: Envelope, p: Placement) {
    forall pair :: pair in e.users ==> pair.userId in p && p[pair.userId] == Place(pair.roomId, e.gatewayId)
  }

  /** The placement restricted to some users. */
  function Only(p: Placement, users: set<UserId>): Placement {
    map u | u in p && u in users :: p[u]
  }

  function UsersOf(users: seq<UserRoomPair>): set<UserId> {
    set i | 0 <= i < |users| :: users[i].userId
  }

  lemma UsersOfSnoc(users: seq<UserRoomPair>, k: nat)
    requires k < |users|
    ensures UsersOf(users[..k + 1]) == UsersOf(users[..k]) + {users[k].userId}
  {
  }

  lemma OnlyExtends(p: Placement, users: set<UserId>, u: UserId)
    requires u in p
    ensures Only(p, users + {u}) == Only(p, users)[u := p[u]]
  {
  }

  lemma ReportedIn(es: seq<Envelope>, u: UserId) returns (i: nat)
    requires u in AllUsers(es)
    ensures i < |es| && u in UsersOf(es[i].users)
  {
    i :| i < |es| && u in UsersOf(es[i].users);
  }

  lemma AllUsersSnoc(es: seq<Envelope>, e: Envelope)
    ensures AllUsers(es + [e]) == AllUsers(es) + UsersOf(e.users)
  {
    var longer := es + [e];
    assert longer[|es|] == e;
    forall u | u in AllUsers(longer) ensures u in AllUsers(es) + UsersOf(e.users) {
      var i :| 0 <= i < |longer| && u in UsersOf(longer[i].users);
      if i < |es| { assert longer[i] == es[i]; }
    }
    forall u | u in AllUsers(es) ensures u in AllUsers(longer) {
      var i :| 0 <= i < |es| && u in UsersOf(es[i].users);
      assert longer[i] == es[i];
    }
  }

  lemma {:induction false} BatchPlaces(s: State, p: Placement, done: set<UserId>, e: Envelope, k: nat)
    requires Holds(s, Only(p, done)) && Consistent(e, p) && |e.users| == |e.clock| && k <= |e.users|
    ensures Holds(Run(s, BatchEvents(e.gatewayId, e.users, e.clock)[..k]), Only(p, done + UsersOf(e.users[..k])))
  {
    var es := BatchEvents(e.gatewayId, e.users, e.clock);
    if k == 0 {
      assert done + UsersOf(e.users[..0]) == done;
      assert es[..0] == [];
    } else {
      BatchPlaces(s, p, done, e, k - 1);
      RunSnoc(s, es, k - 1);
      UsersOfSnoc(e.users, k - 1);
      var pair, before := e.users[k - 1], done + UsersOf(e.users[..k - 1]);
      assert pair in e.users;
      var u, at := pair.userId, Place(pair.roomId, e.gatewayId);
      assert p[u] == at;
      OnlyExtends(p, before, u);
      var t0, t1 := e.clock[k - 1].0, e.clock[k - 1].1;
      assert es[k - 1] == JoinEvent(u, at.roomId, at.gatewayId, t0, t1);
      JoinPlaces(Run(s, es[..k - 1]), Only(p, before), u, at, t0, t1);
      assert done + UsersOf(e.users[..k]) == before + {u};
    }
  }

  function AllUsers(es: seq<Envelope>): set<UserId> {
    set i, u | 0 <= i < |es| && u in UsersOf(es[i].users) :: u
  }

  lemma {:induction false} RecoverPlaces(es: seq<Envelope>, p: Placement)
    requires Timed(es) && forall i :: 0 <= i < |es| ==> Consistent(es[i], p)
    ensures Holds(Recover(EMPTY, es), Only(p, AllUsers(es)))
    decreases |es|
  {
    if es == [] {
      assert Only(p, AllUsers(es)) == map[];
    } else {
      var front, e := es[..|es| - 1], es[|es| - 1];
      assert es == front + [e];
      RecoverPlaces(front, p);
      BatchPlaces(Recover(EMPTY, front), p, AllUsers(front), e, |e.users|);
      AllUsersSnoc(front, e);
      var events := BatchEvents(e.gatewayId, e.users, e.clock);
      assert e.users[..|e.users|] == e.users && events[..|e.users|] == events;
    }
  }

  /**
   * Any sequence of envelopes that reports the placement and nothing else, in
   * any order and with any repetition, rebuilds the placement's state.
   */
  lemma RecoveryRebuilds(es: seq<Envelope>, p: Placement)
    requires Timed(es) && forall i :: 0 <= i < |es| ==> Consistent(es[i], p)
    requires forall u :: u in p ==> u in AllUsers(es)
    ensures Holds(Recover(EMPTY, es), p)
    ensures Mirror(Recover(EMPTY, es)) && SessionsPlaced(Recover(EMPTY, es)) && ViewsExact(Recover(EMPTY, es).rooms)
  {
    RecoverPlaces(es, p);
    assert Only(p, AllUsers(es)) == p;
    HoldsKeepsInvariants(Recover(EMPTY, es), p);
  }

  // ---------------------------------------------------------------- the Gateways' side

  const BATCH_SIZE := 1000

  ghost predicate PairsOf(q: seq<UserRoomPair>, rooms: LocalRooms) {
    NoRepeats(q) && forall pair :: pair in q <==> InGroup(rooms, pair.roomId, pair.userId)
  }

  /** All batches are full except that the last may be shorter; none is empty. */
  ghost predicate Batched<T>(batches: seq<seq<T>>) {
    && (forall i :: 0 <= i < |batches| ==> 1 <= |batches[i]| <= BATCH_SIZE)
    && (forall i :: 0 <= i < |batches| - 1 ==> |batches[i]| == BATCH_SIZE)
  }

  /** The batches a Gateway may send for its local rooms. */
  ghost predicate ReSyncOf(batches: seq<seq<UserRoomPair>>, rooms: LocalRooms) {
    Batched(batches) && PairsOf(Flatten(batches), rooms)
  }

  /** The progressive resync: whatever the map orders, every local pair is sent once, in batches of 1000. */
  method ProgressiveReSync(rooms: LocalRooms) returns (batches: seq<seq<UserRoomPair>>)
    ensures ReSyncOf(batches, rooms)
    ensures forall i :: 0 <= i < |batches| ==> if i < |batches| - 1 then |batches[i]| == 1000 else 1 <= |batches[i]| <= 1000
  {
    batches := [];
    var batch: seq<UserRoomPair> := [];
    var roomIds := Range(rooms.Keys);
    ghost var sent: seq<UserRoomPair> := [];
    for i := 0 to |roomIds|
      invariant |batch| < BATCH_SIZE
      invariant forall k :: 0 <= k < |batches| ==> |batches[k]| == BATCH_SIZE
      invariant sent == Flatten(batches) + batch
      invariant NoRepeats(sent)
      invariant forall pair :: pair in sent <==> pair.roomId in roomIds[..i] && pair.userId in rooms[pair.roomId]
    {
      var r := roomIds[i];
      assert r in rooms.Keys;
      var users := Range(rooms[r]);
      assert r !in roomIds[..i];
      ghost var before := sent;
      for j := 0 to |users|
        invariant |batch| < BATCH_SIZE
        invariant forall k :: 0 <= k < |batches| ==> |batches[k]| == BATCH_SIZE
        invariant sent == Flatten(batches) + batch
        invariant NoRepeats(sent)
        invariant forall pair :: pair in sent <==> pair in before || (pair.roomId == r && pair.userId in users[..j])
      {
        var pair := UserRoomPair(users[j], r);
        assert users[j] !in users[..j];
        assert pair !in sent;
        batch := batch + [pair];
        sent := sent + [pair];
        if |batch| >= BATCH_SIZE {
          ghost var prior := batches;
          batches := batches + [batch];
          assert batches[..|batches| - 1] == prior;
          batch := [];
        }
      }
    }
    assert roomIds[..|roomIds|] == roomIds;
    if |batch| > 0 {
      ghost var prior := batches;
      batches := batches + [batch];
      assert batches[..|batches| - 1] == prior;
    }
    assert Flatten(batches) == sent;
  }

  /** The batches of Gateway `g` among the envelopes, in the order received. */
  function From(es: seq<Envelope>, g: GatewayId): seq<seq<UserRoomPair>> {
    if es == [] then []
    else From(es[..|es| - 1], g) + (if es[|es| - 1].gatewayId == g then [es[|es| - 1].users] else [])
  }

  /** The envelopes are some interleaving of what the Gateways sent, with nothing lost. */
  ghost predicate Interleaves(es: seq<Envelope>, sent: map<GatewayId, seq<seq<UserRoomPair>>>) {
    && (forall i :: 0 <= i < |es| ==> es[i].gatewayId in sent)
    && (forall g :: g in sent ==> From(es, g) == sent[g])
  }

  lemma {:induction false} FromMembers(es: seq<Envelope>, g: GatewayId, batch: seq<UserRoomPair>)
    ensures batch in From(es, g) <==> exists i :: 0 <= i < |es| && es[i].gatewayId == g && es[i].users == batch
    decreases |es|
  {
    if es != [] {
      var front := es[..|es| - 1];
      FromMembers(front, g, batch);
      if i :| 0 <= i < |es| && es[i].gatewayId == g && es[i].users == batch {
        if i < |front| { assert front[i] == es[i]; }
      }
      if i :| 0 <= i < |front| && front[i].gatewayId == g && front[i].users == batch {
        assert es[i] == front[i];
      }
    }
  }

  /** Each user is in one local room of one Gateway, and the placement says which. */
  ghost predicate OnePlaceEach(gateways: map<GatewayId, LocalRooms>, p: Placement) {
    forall g, r, u :: (g in gateways && InGroup(gateways[g], r, u)) <==> u in p && p[u] == Place(r, g)
  }

  /**
   * Crash recovery: if the Gateways hold each user in one room of one Gateway,
   * and the empty Roomserver receives every Gateway's resync batches in any
   * interleaving, then it holds exactly the union of the local rooms.
   */
  lemma CrashRecoveryRestores(
    gateways: map<GatewayId, LocalRooms>, p: Placement,
    sent: map<GatewayId, seq<seq<UserRoomPair>>>, es: seq<Envelope>)
    requires OnePlaceEach(gateways, p)
    requires sent.Keys == gateways.Keys && forall g :: g in sent ==> ReSyncOf(sent[g], gateways[g])
    requires Timed(es) && Interleaves(es, sent)
    ensures Holds(Recover(EMPTY, es), p)
    ensures Mirror(Recover(EMPTY, es)) && SessionsPlaced(Recover(EMPTY, es)) && ViewsExact(Recover(EMPTY, es).rooms)
  {
    EnvelopesReport(gateways, p, sent, es);
    RecoveryRebuilds(es, p);
  }

  lemma EnvelopesReport(
    gateways: map<GatewayId, LocalRooms>, p: Placement,
    sent: map<GatewayId, seq<seq<UserRoomPair>>>, es: seq<Envelope>)
    requires OnePlaceEach(gateways, p)
    requires sent.Keys == gateways.Keys && forall g :: g in sent ==> ReSyncOf(sent[g], gateways[g])
    requires Interleaves(es, sent)
    ensures forall i :: 0 <= i < |es| ==> Consistent(es[i], p)
    ensures forall u :: u in p ==> u in AllUsers(es)
  {
    forall i | 0 <= i < |es| ensures Consistent(es[i], p) {
      var g := es[i].gatewayId;
      FromMembers(es, g, es[i].users);
      forall pair | pair in es[i].users ensures pair.userId in p && p[pair.userId] == Place(pair.roomId, g) {
        FlattenMembers(sent[g], pair);
        assert InGroup(gateways[g], pair.roomId, pair.userId);
      }
    }
    forall u | u in p ensures u in AllUsers(es) {
      var g, pair := p[u].gatewayId, UserRoomPair(u, p[u].roomId);
      assert g in gateways && InGroup(gateways[g], p[u].roomId, u);
      assert pair in Flatten(sent[g]);
      FlattenMembers(sent[g], pair);
      var k :| 0 <= k < |sent[g]| && pair in sent[g][k];
      FromMembers(es, g, sent[g][k]);
      var i :| 0 <= i < |es| && es[i].gatewayId == g && es[i].users == sent[g][k];
      var j :| 0 <= j < |es[i].users| && es[i].users[j] == pair;
      assert u in UsersOf(es[i].users);
    }
  }

  /** Any two interleavings, of any batchings of the same local rooms, rebuild the same state. */
  lemma InterleavingsAgree(
    gateways: map<GatewayId, LocalRooms>, p: Placement,
    sent: map<GatewayId, seq<seq<UserRoomPair>>>, es: seq<Envelope>,
    sent': map<GatewayId, seq<seq<UserRoomPair>>>, es': seq<Envelope>)
    requires OnePlaceEach(gateways, p)
    requires sent.Keys == gateways.Keys && forall g :: g in sent ==> ReSyncOf(sent[g], gateways[g])
    requires sent'.Keys == gateways.Keys && forall g :: g in sent' ==> ReSyncOf(sent'[g], gateways[g])
    requires Timed(es) && Interleaves(es, sent) && Timed(es') && Interleaves(es', sent')
    ensures EraseTimes(Recover(EMPTY, es)) == EraseTimes(Recover(EMPTY, es'))
  {
    CrashRecoveryRestores(gateways, p, sent, es);
    CrashRecoveryRestores(gateways, p, sent', es');
    PlacementDeterminesState(Recover(EMPTY, es), Recover(EMPTY, es'), p);
  }

  /** The same batch of the same Gateway is among the envelopes. */
  ghost predicate Received(es: seq<Envelope>, e: Envelope) {
    exists j :: 0 <= j < |es| && es[j].gatewayId == e.gatewayId && es[j].users == e.users
  }

  /** Replaying batches already received, at any later time, changes nothing but times. */
  lemma ReplayChangesNothing(
    gateways: map<GatewayId, LocalRooms>, p: Placement,
    sent: map<GatewayId, seq<seq<UserRoomPair>>>, es: seq<Envelope>, replayed: seq<Envelope>)
    requires OnePlaceEach(gateways, p)
    requires sent.Keys == gateways.Keys && forall g :: g in sent ==> ReSyncOf(sent[g], gateways[g])
    requires Timed(es) && Interleaves(es, sent) && Timed(replayed)
    requires forall i :: 0 <= i < |replayed| ==> Received(es, replayed[i])
    ensures Timed(es + replayed)
    ensures EraseTimes(Recover(EMPTY, es + replayed)) == EraseTimes(Recover(EMPTY, es))
  {
    EnvelopesReport(gateways, p, sent, es);
    ReplayReports(es, replayed, p);
    RecoveryRebuilds(es, p);
    RecoveryRebuilds(es + replayed, p);
    PlacementDeterminesState(Recover(EMPTY, es + replayed), Recover(EMPTY, es), p);
  }

  lemma ReplayReports(es: seq<Envelope>, replayed: seq<Envelope>, p: Placement)
    requires Timed(es) && Timed(replayed)
    requires forall i :: 0 <= i < |es| ==> Consistent(es[i], p)
    requires forall u :: u in p ==> u in AllUsers(es)
    requires forall i :: 0 <= i < |replayed| ==> Received(es, replayed[i])
    ensures Timed(es + replayed)
    ensures forall i :: 0 <= i < |es + replayed| ==> Consistent((es + replayed)[i], p)
    ensures forall u :: u in p ==> u in AllUsers(es + replayed)
  {
    var all := es + replayed;
    forall i | 0 <= i < |replayed| ensures Consistent(replayed[i], p) {
      assert Received(es, replayed[i]);
      var j :| 0 <= j < |es| && es[j].gatewayId == replayed[i].gatewayId && es[j].users == replayed[i].users;
      assert Consistent(es[j], p);
    }
    forall u | u in p ensures u in AllUsers(all) {
      var i := ReportedIn(es, u);
      assert all[i] == es[i];
    }
  }
}
