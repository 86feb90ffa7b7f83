/**
 * One user at a time: what the Roomserver records about a user is decided by the
 * requests that name this user, in their order, and by no others.
 */
module UserRecords {
  import opened Ids
  import opened Sessions
  import opened Rooms
  import opened Roomserver
  import opened RoomserverRuns
  import opened CrashRecovery

  predicate Concerns(e: Event, u: UserId) {
    !e.CloseEvent? && e.u == u
  }

  /** The events that concern `u`, in order. */
  function Of(es: seq<Event>, u: UserId): seq<Event>
    decreases |es|
  {
    if es == [] then []
    else Of(es[..|es| - 1], u) + (if Concerns(es[|es| - 1], u) then [es[|es| - 1]] else [])
  }

  lemma {:induction false} OfConcat(a: seq<Event>, b: seq<Event>, u: UserId)
    ensures Of(a + b, u) == Of(a, u) + Of(b, u)
    decreases |b|
  {
    if b == [] {
      assert a + b == a;
    } else {
      assert (a + b)[..|a + b| - 1] == a + b[..|b| - 1];
      OfConcat(a, b[..|b| - 1], u);
    }
  }

  ghost predicate NoClose(es: seq<Event>) {
    forall i :: 0 <= i < |es| ==> !es[i].CloseEvent?
  }

  // ---------------------------------------------------------------- the projection

  ghost predicate SessionRoomsExist(s: State) {
    forall u :: u in s.sessions ==> s.sessions[u].roomId in s.rooms
  }

  lemma StepKeepsSessionRooms(s: State, e: Event)
    requires SessionRoomsExist(s) && !e.CloseEvent?
    ensures SessionRoomsExist(Step(s, e))
  {
  }

  lemma RemoveSame(t: RoomTable, t': RoomTable, r: RoomId, u: UserId)
    requires UntouchedRooms(t, t', u)
    ensures UntouchedRooms(RemoveUser(t, r, u), RemoveUser(t', r, u), u)
  {
    assert MemberAt(t, r, u) == MemberAt(t', r, u);
    if InRoom(t, r, u) {
      var g := t[r].members[u].gatewayId;
      GroupDropMembers(t[r].gateways, g, u);
      GroupDropMembers(t'[r].gateways, g, u);
      forall q ensures MemberAt(RemoveUser(t, r, u), q, u) == MemberAt(RemoveUser(t', r, u), q, u) {
        assert MemberAt(t, q, u) == MemberAt(t', q, u);
      }
      forall q, h ensures SeenAt(RemoveUser(t, r, u), q, h, u) <==> SeenAt(RemoveUser(t', r, u), q, h, u) {
        assert SeenAt(t, q, h, u) <==> SeenAt(t', q, h, u);
      }
    }
  }

  lemma AddSame(t: RoomTable, t': RoomTable, r: RoomId, u: UserId, g: GatewayId, now: Time)
    requires UntouchedRooms(t, t', u)
    ensures UntouchedRooms(AddUser(t, r, u, g, now), AddUser(t', r, u, g, now), u)
  {
    GroupAddMembers(RoomOrNew(t, r).gateways, g, u);
    GroupAddMembers(RoomOrNew(t', r).gateways, g, u);
    forall q ensures MemberAt(AddUser(t, r, u, g, now), q, u) == MemberAt(AddUser(t', r, u, g, now), q, u) {
      assert MemberAt(t, q, u) == MemberAt(t', q, u);
    }
    forall q, h ensures SeenAt(AddUser(t, r, u, g, now), q, h, u) <==> SeenAt(AddUser(t', r, u, g, now), q, h, u) {
      assert SeenAt(t, q, h, u) <==> SeenAt(t', q, h, u);
    }
  }

  lemma MarkSame(t: RoomTable, t': RoomTable, r: RoomId, u: UserId, now: Time)
    requires UntouchedRooms(t, t', u)
    ensures UntouchedRooms(SetUserDisconnected(t, r, u, now), SetUserDisconnected(t', r, u, now), u)
  {
    var s, s' := SetUserDisconnected(t, r, u, now), SetUserDisconnected(t', r, u, now);
    assert MemberAt(t, r, u) == MemberAt(t', r, u);
    forall q ensures MemberAt(s, q, u) == MemberAt(s', q, u) { assert MemberAt(t, q, u) == MemberAt(t', q, u); }
    forall q, h ensures SeenAt(s, q, h, u) <==> SeenAt(s', q, h, u) {
      assert SeenAt(t, q, h, u) <==> SeenAt(t', q, h, u);
    }
  }

  lemma MoveSame(t: RoomTable, t': RoomTable, r: RoomId, u: UserId, g: GatewayId)
    requires UntouchedRooms(t, t', u)
    ensures UntouchedRooms(UpdateUserGateway(t, r, u, g), UpdateUserGateway(t', r, u, g), u)
  {
    var s, s' := UpdateUserGateway(t, r, u, g), UpdateUserGateway(t', r, u, g);
    assert MemberAt(t, r, u) == MemberAt(t', r, u);
    if InRoom(t, r, u) {
      var from := t[r].members[u].gatewayId;
      MoveViews(t[r].gateways, from, g, u);
      MoveViews(t'[r].gateways, from, g, u);
      forall q ensures MemberAt(s, q, u) == MemberAt(s', q, u) { assert MemberAt(t, q, u) == MemberAt(t', q, u); }
      forall q, h ensures SeenAt(s, q, h, u) <==> SeenAt(s', q, h, u) {
        assert SeenAt(t, q, h, u) <==> SeenAt(t', q, h, u);
      }
    }
  }

  lemma MoveViews(views: Groups<GatewayId, UserId>, from: GatewayId, to: GatewayId, u: UserId)
    ensures forall h, v :: InGroup(GroupAdd(GroupDrop(views, from, u), to, u), h, v)
                      <==> (InGroup(views, h, v) && !(h == from && v == u)) || (h == to && v == u)
  {
    GroupDropMembers(views, from, u);
    GroupAddMembers(GroupDrop(views, from, u), to, u);
  }

  /** Two states that agree about a user still agree after one of the user's own events. */
  lemma StepSame(s: State, s': State, e: Event)
    requires !e.CloseEvent? && Untouched(s, s', e.u) && SessionRoomsExist(s) && SessionRoomsExist(s')
    ensures Untouched(Step(s, e), Step(s', e), e.u)
  {
    match e
    case JoinEvent(u, r, g, t0, t1) =>
      RemoveSame(s.rooms, s'.rooms, GetUserRoom(s.sessions, u), u);
      AddSame(LeaveOldRoom(s, u, r), LeaveOldRoom(s', u, r), r, u, g, t0);
    case LeaveEvent(u, r) => RemoveSame(s.rooms, s'.rooms, r, u);
    case ResumeEvent(u, r, g, _) => MoveSame(s.rooms, s'.rooms, r, u, g);
    case DisconnectEvent(u, r, t0, t1) => MarkSame(s.rooms, s'.rooms, r, u, t0);
    case ExpireEvent(u, now, timeout) =>
      if TimedOut(s, u, now, timeout) { RemoveSame(s.rooms, s'.rooms, s.sessions[u].roomId, u); }
  }

  lemma UntouchedBoth(s: State, s1: State, s2: State, u: UserId)
    requires Untouched(s, s1, u) && Untouched(s, s2, u)
    ensures Untouched(s1, s2, u)
  {
    forall r ensures MemberAt(s1.rooms, r, u) == MemberAt(s2.rooms, r, u) {
      assert MemberAt(s.rooms, r, u) == MemberAt(s1.rooms, r, u);
    }
    forall r, g ensures SeenAt(s1.rooms, r, g, u) <==> SeenAt(s2.rooms, r, g, u) {
      assert SeenAt(s.rooms, r, g, u) <==> SeenAt(s1.rooms, r, g, u);
    }
  }

  /**
   * In every run that closes no room, session, memberships and view entries of a
   * user are those of the run of its own events alone.
   */
  lemma {:induction false} RunProjects(es: seq<Event>, u: UserId)
    requires NoClose(es)
    ensures Untouched(Run(EMPTY, es), Run(EMPTY, Of(es, u)), u)
    ensures SessionRoomsExist(Run(EMPTY, es)) && SessionRoomsExist(Run(EMPTY, Of(es, u)))
    decreases |es|
  {
    if es != [] {
      var front, e := es[..|es| - 1], es[|es| - 1];
      RunProjects(front, u);
      var s, own := Run(EMPTY, front), Run(EMPTY, Of(front, u));
      StepKeepsSessionRooms(s, e);
      if e.u == u {
        assert Of(es, u)[..|Of(es, u)| - 1] == Of(front, u);
        StepKeepsSessionRooms(own, e);
        StepSame(s, own, e);
      } else {
        StepConcernsOneUser(s, e, u);
        UntouchedBoth(s, Step(s, e), own, u);
        assert Of(es, u) == Of(front, u);
      }
    }
  }

  // ---------------------------------------------------------------- placements, user by user

  ghost predicate Absent(s: State, u: UserId) {
    u !in s.sessions && (forall r :: !InRoom(s.rooms, r, u)) && (forall r, g :: !SeenAt(s.rooms, r, g, u))
  }

  /** Online in one room, from one Gateway, and nothing else recorded. */
  ghost predicate PlacedAt(s: State, u: UserId, at: Place) {
    && u in s.sessions && SessionAt(s.sessions[u], u, at)
    && InRoom(s.rooms, at.roomId, u) && (forall r :: InRoom(s.rooms, r, u) ==> r == at.roomId)
    && MemberPlaced(s.rooms[at.roomId].members[u], u, at)
    && (forall r, g :: SeenAt(s.rooms, r, g, u) <==> at == Place(r, g))
  }

  ghost predicate RecordIs(s: State, u: UserId, p: Placement) {
    if u in p then PlacedAt(s, u, p[u]) else Absent(s, u)
  }

  lemma RecordStays(s: State, s': State, u: UserId, p: Placement)
    requires Untouched(s, s', u)
    ensures RecordIs(s, u, p) <==> RecordIs(s', u, p)
  {
    forall r ensures InRoom(s.rooms, r, u) <==> InRoom(s'.rooms, r, u) {
      assert MemberAt(s.rooms, r, u) == MemberAt(s'.rooms, r, u);
    }
    if u in p { assert MemberAt(s.rooms, p[u].roomId, u) == MemberAt(s'.rooms, p[u].roomId, u); }
  }

  /** A state holds a placement exactly when each user's record is the placement's and no room is empty. */
  lemma HoldsIff(s: State, p: Placement)
    ensures Holds(s, p) <==> (forall u :: RecordIs(s, u, p)) && NothingEmpty(s.rooms)
  {
    if Holds(s, p) {
      forall u ensures RecordIs(s, u, p) { HoldsRecord(s, p, u); }
    }
    if forall u :: RecordIs(s, u, p) {
      RecordsHold(s, p);
    }
  }

  lemma HoldsRecord(s: State, p: Placement, u: UserId)
    requires SessionsHold(s.sessions, p) && MembersHold(s.rooms, p) && ViewsHold(s.rooms, p)
    ensures RecordIs(s, u, p)
  {
    if u in p { assert InRoom(s.rooms, p[u].roomId, u); }
  }

  lemma RecordsHold(s: State, p: Placement)
    requires forall u :: RecordIs(s, u, p)
    ensures SessionsHold(s.sessions, p) && MembersHold(s.rooms, p) && ViewsHold(s.rooms, p)
  {
    forall u ensures (u in s.sessions <==> u in p) && (u in p ==> SessionAt(s.sessions[u], u, p[u])) {
      assert RecordIs(s, u, p);
    }
    forall r, u ensures InRoom(s.rooms, r, u) <==> u in p && p[u].roomId == r { assert RecordIs(s, u, p); }
    forall r, u | InRoom(s.rooms, r, u) ensures MemberPlaced(s.rooms[r].members[u], u, p[u]) {
      assert RecordIs(s, u, p);
    }
    forall r, g, u ensures SeenAt(s.rooms, r, g, u) <==> u in p && p[u] == Place(r, g) {
      assert RecordIs(s, u, p);
    }
  }

  // ---------------------------------------------------------------- a user of one Gateway

  /** The room a user's session names after the events: that of its last join, unless a leave came later. */
  function Current(es: seq<Event>, u: UserId): Option<RoomId>
    decreases |es|
  {
    if es == [] then None
    else
      match es[|es| - 1]
      case JoinEvent(v, r, _, _, _) => if v == u then Some(r) else Current(es[..|es| - 1], u)
      case LeaveEvent(v, _) => if v == u then None else Current(es[..|es| - 1], u)
      case _ => Current(es[..|es| - 1], u)
  }

  /**
   * A join of `r` by `u` stands: it is not followed by a leave of `r`, nor by a
   * join of another room that found `r` the current room and left it.  The room
   * "" is not left by a join.
   */
  predicate Standing(es: seq<Event>, u: UserId, r: RoomId)
    decreases |es|
  {
    es != []
    && var front := es[..|es| - 1];
       match es[|es| - 1]
       case JoinEvent(v, q, _, _, _) =>
         if v != u then Standing(front, u, r)
         else q == r || (Standing(front, u, r) && !(Current(front, u) == Some(r) && r != NO_ROOM))
       case LeaveEvent(v, q) => Standing(front, u, r) && !(v == u && q == r)
       case _ => Standing(front, u, r)
  }

  /** Other users' events make no difference. */
  lemma {:induction false} OwnStanding(es: seq<Event>, u: UserId)
    ensures Current(Of(es, u), u) == Current(es, u)
    ensures forall r :: Standing(Of(es, u), u, r) <==> Standing(es, u, r)
    decreases |es|
  {
    if es != [] {
      var front, e, own := es[..|es| - 1], es[|es| - 1], Of(es, u);
      OwnStanding(front, u);
      if Concerns(e, u) { assert own[..|own| - 1] == Of(front, u); } else { assert own == Of(front, u); }
    }
  }

  /** The record of `u` after the events: a member, hosted and seen by `g`, of exactly the rooms whose joins stand. */
  ghost predicate HeldAs(s: State, u: UserId, g: GatewayId, es: seq<Event>) {
    && (forall r :: InRoom(s.rooms, r, u) <==> Standing(es, u, r))
    && (forall r :: InRoom(s.rooms, r, u) ==> s.rooms[r].members[u].gatewayId == g)
    && (forall r, h :: SeenAt(s.rooms, r, h, u) <==> Standing(es, u, r) && h == g)
    && (u in s.sessions <==> Current(es, u).Some?)
    && (u in s.sessions ==> Current(es, u) == Some(s.sessions[u].roomId) && Standing(es, u, s.sessions[u].roomId)
                            && s.sessions[u].gatewayId == g && s.sessions[u].userId == u)
  }

  lemma HeldUntouched(s: State, s': State, u: UserId, g: GatewayId, es: seq<Event>)
    requires Untouched(s, s', u) && HeldAs(s', u, g, es)
    ensures HeldAs(s, u, g, es)
  {
    forall r ensures InRoom(s.rooms, r, u) <==> InRoom(s'.rooms, r, u) {
      assert MemberAt(s.rooms, r, u) == MemberAt(s'.rooms, r, u);
    }
    forall r | InRoom(s.rooms, r, u) ensures s.rooms[r].members[u].gatewayId == g {
      assert MemberAt(s.rooms, r, u) == MemberAt(s'.rooms, r, u);
    }
  }

  /** The events of one user, as one Gateway sends them. */
  ghost predicate SentBy(es: seq<Event>, u: UserId, g: GatewayId) {
    forall i :: 0 <= i < |es| ==>
      Concerns(es[i], u) && !es[i].ExpireEvent? && (es[i].JoinEvent? || es[i].ResumeEvent? ==> es[i].g == g)
  }

  lemma HeldJoin(s: State, g: GatewayId, es: seq<Event>, e: Event)
    requires e.JoinEvent? && e.g == g && HeldAs(s, e.u, g, es)
    ensures HeldAs(Step(s, e), e.u, g, es + [e])
  {
    var u, r, s' := e.u, e.r, Step(s, e);
    assert (es + [e])[..|es|] == es;
    var left := LeaveOldRoom(s, u, r);
    OldRoomLeft(s, u, g, r);
    GroupAddMembers(RoomOrNew(left, r).gateways, g, u);
    forall q ensures InRoom(s'.rooms, q, u) <==> Standing(es + [e], u, q) {
      assert q != r ==> (InRoom(s'.rooms, q, u) <==> InRoom(left, q, u));
    }
    forall q | InRoom(s'.rooms, q, u) ensures s'.rooms[q].members[u].gatewayId == g {
      assert q != r ==> InRoom(left, q, u);
    }
    forall q, h ensures SeenAt(s'.rooms, q, h, u) <==> Standing(es + [e], u, q) && h == g {
      assert q != r ==> (SeenAt(s'.rooms, q, h, u) <==> SeenAt(left, q, h, u));
      assert r in left ==> (SeenAt(left, r, h, u) <==> InGroup(left[r].gateways, h, u));
    }
  }

  /** Before a join the session's room is left, unless it is the one joined or "". */
  lemma OldRoomLeft(s: State, u: UserId, g: GatewayId, r: RoomId)
    requires forall q :: InRoom(s.rooms, q, u) ==> s.rooms[q].members[u].gatewayId == g
    requires forall q, h :: SeenAt(s.rooms, q, h, u) <==> InRoom(s.rooms, q, u) && h == g
    ensures var t, was := LeaveOldRoom(s, u, r), GetUserRoom(s.sessions, u);
      && (forall q :: InRoom(t, q, u) <==> InRoom(s.rooms, q, u) && !(q == was && was != NO_ROOM && was != r))
      && (forall q :: InRoom(t, q, u) ==> t[q].members[u] == s.rooms[q].members[u])
      && (forall q, h :: SeenAt(t, q, h, u) <==> InRoom(t, q, u) && h == g)
  {
    var t, was := LeaveOldRoom(s, u, r), GetUserRoom(s.sessions, u);
    if was != NO_ROOM && was != r && InRoom(s.rooms, was, u) {
      GroupDropMembers(s.rooms[was].gateways, g, u);
      forall q, h ensures SeenAt(t, q, h, u) <==> InRoom(t, q, u) && h == g {
        assert SeenAt(s.rooms, q, h, u) <==> InRoom(s.rooms, q, u) && h == g;
      }
    }
  }

  lemma HeldLeave(s: State, g: GatewayId, es: seq<Event>, e: Event)
    requires e.LeaveEvent? && HeldAs(s, e.u, g, es)
    ensures HeldAs(Step(s, e), e.u, g, es + [e])
  {
    var u, r, s' := e.u, e.r, Step(s, e);
    assert (es + [e])[..|es|] == es;
    if InRoom(s.rooms, r, u) { GroupDropMembers(s.rooms[r].gateways, g, u); }
    forall q ensures InRoom(s'.rooms, q, u) <==> InRoom(s.rooms, q, u) && q != r {}
    forall q, h ensures SeenAt(s'.rooms, q, h, u) <==> SeenAt(s.rooms, q, h, u) && q != r {
      assert SeenAt(s.rooms, q, h, u) ==> InRoom(s.rooms, q, u) && h == g;
    }
  }

  /** A resume or disconnect changes nothing but statuses and times. */
  lemma HeldMark(s: State, g: GatewayId, es: seq<Event>, e: Event)
    requires (e.DisconnectEvent? || (e.ResumeEvent? && e.g == g)) && HeldAs(s, e.u, g, es)
    ensures HeldAs(Step(s, e), e.u, g, es + [e])
  {
    var u, s' := e.u, Step(s, e);
    assert (es + [e])[..|es|] == es;
    forall q ensures InRoom(s'.rooms, q, u) <==> InRoom(s.rooms, q, u) {}
    forall q, h ensures SeenAt(s'.rooms, q, h, u) <==> SeenAt(s.rooms, q, h, u) {}
  }

  /** From the empty state, the events of a user of one Gateway make it a member of exactly the rooms whose joins stand. */
  lemma {:induction false} OwnRun(es: seq<Event>, u: UserId, g: GatewayId)
    requires SentBy(es, u, g)
    ensures HeldAs(Run(EMPTY, es), u, g, es)
    decreases |es|
  {
    if es != [] {
      var front, e := es[..|es| - 1], es[|es| - 1];
      OwnRun(front, u, g);
      assert es == front + [e];
      match e
      case JoinEvent(_, _, _, _, _) => HeldJoin(Run(EMPTY, front), g, front, e);
      case LeaveEvent(_, _) => HeldLeave(Run(EMPTY, front), g, front, e);
      case _ => HeldMark(Run(EMPTY, front), g, front, e);
    }
  }

  /** The joins of `u` that stand are of its placed room, or none if it has no place. */
  ghost predicate StandsAsPlaced(es: seq<Event>, u: UserId, p: Placement) {
    forall r :: Standing(es, u, r) <==> u in p && p[u].roomId == r
  }

  lemma HeldAbsentIff(s: State, u: UserId, g: GatewayId, es: seq<Event>, p: Placement)
    requires HeldAs(s, u, g, es) && u !in p
    ensures Absent(s, u) <==> StandsAsPlaced(es, u, p)
  {
    if Absent(s, u) {
      forall r ensures !Standing(es, u, r) { assert InRoom(s.rooms, r, u) <==> Standing(es, u, r); }
    }
    if StandsAsPlaced(es, u, p) {
      forall r ensures !InRoom(s.rooms, r, u) { assert InRoom(s.rooms, r, u) <==> Standing(es, u, r); }
      forall r, h ensures !SeenAt(s.rooms, r, h, u) { assert SeenAt(s.rooms, r, h, u) ==> Standing(es, u, r); }
    }
  }

  lemma HeldPlacedIff(s: State, u: UserId, g: GatewayId, es: seq<Event>, p: Placement)
    requires HeldAs(s, u, g, es) && u in p && p[u].gatewayId == g && u in s.sessions && SessionAt(s.sessions[u], u, p[u])
    requires InRoom(s.rooms, p[u].roomId, u) && MemberPlaced(s.rooms[p[u].roomId].members[u], u, p[u])
    ensures PlacedAt(s, u, p[u]) <==> StandsAsPlaced(es, u, p)
  {
    var r := p[u].roomId;
    if PlacedAt(s, u, p[u]) {
      forall q ensures Standing(es, u, q) <==> q == r { assert InRoom(s.rooms, q, u) <==> Standing(es, u, q); }
    }
    if StandsAsPlaced(es, u, p) {
      forall q | InRoom(s.rooms, q, u) ensures q == r { assert Standing(es, u, q); }
      forall q, h ensures SeenAt(s.rooms, q, h, u) <==> p[u] == Place(q, h) {
        assert SeenAt(s.rooms, q, h, u) <==> Standing(es, u, q) && h == g;
      }
    }
  }

  lemma JoinRecords(s: State, u: UserId, g: GatewayId, es: seq<Event>, e: Event)
    requires e.JoinEvent? && e.u == u && e.g == g && HeldAs(s, u, g, es)
    ensures var s' := Step(s, e);
      && u in s'.sessions && SessionAt(s'.sessions[u], u, Place(e.r, g))
      && InRoom(s'.rooms, e.r, u) && MemberPlaced(s'.rooms[e.r].members[u], u, Place(e.r, g))
  {
  }

  /**
   * The record is a placement's exactly when the standing joins are the
   * placement's; if the user is placed, the last event is the join of its place.
   */
  lemma HeldRecordIff(es: seq<Event>, u: UserId, g: GatewayId, p: Placement)
    requires SentBy(es, u, g)
    requires u in p ==> p[u].gatewayId == g && es != [] && es[|es| - 1].JoinEvent? && es[|es| - 1].r == p[u].roomId
    ensures RecordIs(Run(EMPTY, es), u, p) <==> StandsAsPlaced(es, u, p)
  {
    var s := Run(EMPTY, es);
    OwnRun(es, u, g);
    if u in p {
      var front, e := es[..|es| - 1], es[|es| - 1];
      OwnRun(front, u, g);
      JoinRecords(Run(EMPTY, front), u, g, front, e);
      assert p[u] == Place(e.r, g);
      HeldPlacedIff(s, u, g, es, p);
    } else {
      HeldAbsentIff(s, u, g, es, p);
    }
  }

  // ---------------------------------------------------------------- empty rooms

  ghost predicate HasMember(t: RoomTable, r: RoomId) {
    exists u :: InRoom(t, r, u)
  }

  /** Some user is placed in the room. */
  ghost predicate Populated(p: Placement, r: RoomId) {
    exists u :: u in p && p[u].roomId == r
  }

  ghost predicate Joined(es: seq<Event>, r: RoomId) {
    exists i :: 0 <= i < |es| && es[i].JoinEvent? && es[i].r == r
  }

  /** Without closes, the rooms are those that were ever joined. */
  lemma {:induction false} RoomsAreJoined(es: seq<Event>)
    requires NoClose(es)
    ensures forall r :: r in Run(EMPTY, es).rooms <==> Joined(es, r)
    ensures forall r :: r in Run(EMPTY, es).rooms ==> Run(EMPTY, es).rooms[r].roomId == r
    decreases |es|
  {
    if es != [] {
      var front, e := es[..|es| - 1], es[|es| - 1];
      RoomsAreJoined(front);
      forall r ensures Joined(es, r) <==> Joined(front, r) || (e.JoinEvent? && e.r == r) {
        if i :| 0 <= i < |front| && front[i].JoinEvent? && front[i].r == r { assert es[i] == front[i]; }
        if i :| 0 <= i < |es| && es[i].JoinEvent? && es[i].r == r { if i < |front| { assert front[i] == es[i]; } }
      }
      StepRooms(Run(EMPTY, front), e);
    }
  }

  lemma StepRooms(s: State, e: Event)
    requires !e.CloseEvent?
    ensures Step(s, e).rooms.Keys == s.rooms.Keys + (if e.JoinEvent? then {e.r} else {})
    ensures (forall r :: r in s.rooms ==> s.rooms[r].roomId == r) ==>
      forall r :: r in Step(s, e).rooms ==> Step(s, e).rooms[r].roomId == r
  {
  }

  /** Without closes, no room is left empty exactly when every room ever joined has a member. */
  lemma NothingEmptyIff(es: seq<Event>)
    requires NoClose(es)
    ensures NothingEmpty(Run(EMPTY, es).rooms) <==>
      forall r :: Joined(es, r) ==> HasMember(Run(EMPTY, es).rooms, r)
  {
    var t := Run(EMPTY, es).rooms;
    RoomsAreJoined(es);
    RunKeepsViewsCover(es);
    if NothingEmpty(t) {
      forall r | Joined(es, r) ensures HasMember(t, r) {
        var u :| u in t[r].members;
        assert InRoom(t, r, u);
      }
    }
    if forall r :: Joined(es, r) ==> HasMember(t, r) {
      forall r | r in t ensures t[r].members != map[] {
        assert Joined(es, r);
        var u :| InRoom(t, r, u);
        assert u in t[r].members;
      }
    }
  }
}
