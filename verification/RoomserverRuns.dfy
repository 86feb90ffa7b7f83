/**
 * What every run of the Roomserver keeps.  `Mirror` and `SessionsPlaced` relate
 * rooms and sessions, `ViewsCover` and `ViewsExact` relate members and Gateway
 * views.  Each is shown to survive a step exactly when a condition on the
 * arguments and the state before the step holds.
 */
module RoomserverRuns {
  import opened Ids
  import opened Sessions
  import opened Rooms
  import opened Roomserver

  // ---------------------------------------------------------------- Gateway views

  /** Coverage survives every step, whatever its arguments. */
  lemma StepKeepsViewsCover(s: State, e: Event)
    requires ViewsCover(s.rooms)
    ensures ViewsCover(Step(s, e).rooms)
  {
    match e
    case JoinEvent(u, r, g, t0, t1) =>
      RemoveUserKeepsViews(s.rooms, GetUserRoom(s.sessions, u), u);
      AddUserViews(LeaveOldRoom(s, u, r), r, u, g, t0);
    case LeaveEvent(u, r) => RemoveUserKeepsViews(s.rooms, r, u);
    case ResumeEvent(u, r, g, _) => MoveKeepsViews(s.rooms, r, u, g);
    case DisconnectEvent(u, r, now, _) => MarkKeepsViews(s.rooms, r, u, now);
    case CloseEvent(r) =>
    case ExpireEvent(u, now, timeout) =>
      if TimedOut(s, u, now, timeout) { RemoveUserKeepsViews(s.rooms, s.sessions[u].roomId, u); }
  }

  /** A member joins the room it is in again, from another Gateway. */
  predicate RejoinsElsewhere(s: State, e: Event) {
    e.JoinEvent? && InRoom(s.rooms, e.r, e.u) && s.rooms[e.r].members[e.u].gatewayId != e.g
  }

  /** Exactness is lost by such a join and by nothing else. */
  lemma StepKeepsViewsExactIff(s: State, e: Event)
    requires ViewsExact(s.rooms)
    ensures ViewsExact(Step(s, e).rooms) <==> !RejoinsElsewhere(s, e)
  {
    match e
    case JoinEvent(u, r, g, t0, t1) =>
      RemoveUserKeepsViews(s.rooms, GetUserRoom(s.sessions, u), u);
      AddUserViews(LeaveOldRoom(s, u, r), r, u, g, t0);
    case LeaveEvent(u, r) => RemoveUserKeepsViews(s.rooms, r, u);
    case ResumeEvent(u, r, g, _) => MoveKeepsViews(s.rooms, r, u, g);
    case DisconnectEvent(u, r, now, _) => MarkKeepsViews(s.rooms, r, u, now);
    case CloseEvent(r) =>
    case ExpireEvent(u, now, timeout) =>
      if TimedOut(s, u, now, timeout) { RemoveUserKeepsViews(s.rooms, s.sessions[u].roomId, u); }
  }

  /** In every reachable state the views cover the members. */
  lemma {:induction false} RunKeepsViewsCover(es: seq<Event>)
    ensures ViewsCover(Run(EMPTY, es).rooms)
    decreases |es|
  {
    if es != [] {
      RunKeepsViewsCover(es[..|es| - 1]);
      StepKeepsViewsCover(Run(EMPTY, es[..|es| - 1]), es[|es| - 1]);
    }
  }

  /** In every run without such a re-join the views are exact. */
  lemma {:induction false} RunKeepsViewsExact(es: seq<Event>)
    requires forall i :: 0 <= i < |es| ==> !RejoinsElsewhere(Run(EMPTY, es[..i]), es[i])
    ensures ViewsExact(Run(EMPTY, es).rooms)
    decreases |es|
  {
    if es != [] {
      var front := es[..|es| - 1];
      assert forall i :: 0 <= i < |front| ==> front[..i] == es[..i];
      RunKeepsViewsExact(front);
      StepKeepsViewsExactIff(Run(EMPTY, front), es[|es| - 1]);
    }
  }

  // ---------------------------------------------------------------- rooms and sessions

  predicate Agrees(r: RoomId, m: Member, session: Session) {
    session.roomId == r && session.gatewayId == m.gatewayId && session.status == m.status
  }

  /** Each member of a room has a session naming that room, with the member's Gateway and status. */
  ghost predicate Mirror(s: State) {
    forall r, u :: InRoom(s.rooms, r, u) ==> u in s.sessions && Agrees(r, s.rooms[r].members[u], s.sessions[u])
  }

  /** Each session is a membership. */
  ghost predicate SessionsPlaced(s: State) {
    forall u :: u in s.sessions ==> InRoom(s.rooms, s.sessions[u].roomId, u)
  }

  /** The room of `u`'s session has `u` as a member and is not `r`. */
  predicate MemberElsewhere(s: State, u: UserId, r: RoomId) {
    u in s.sessions && s.sessions[u].roomId != r && InRoom(s.rooms, s.sessions[u].roomId, u)
  }

  /** What a step must avoid for the mirror to survive it. */
  predicate BreaksMirror(s: State, e: Event) {
    match e
    case JoinEvent(u, r, _, _, _) => MemberElsewhere(s, u, r) && s.sessions[u].roomId == NO_ROOM
    case LeaveEvent(u, r) => MemberElsewhere(s, u, r)
    case DisconnectEvent(u, r, _, _) => MemberElsewhere(s, u, r) && s.sessions[u].status == Online
    case _ => false
  }

  /** The exact condition for one step to keep the mirror. */
  lemma StepKeepsMirrorIff(s: State, e: Event)
    requires Mirror(s)
    ensures Mirror(Step(s, e)) <==> !BreaksMirror(s, e)
  {
    var s' := Step(s, e);
    if BreaksMirror(s, e) {
      assert InRoom(s'.rooms, s.sessions[e.u].roomId, e.u);
      assert !Mirror(s');
    } else {
      forall r, u | InRoom(s'.rooms, r, u)
        ensures u in s'.sessions && Agrees(r, s'.rooms[r].members[u], s'.sessions[u])
      {
        if InRoom(s.rooms, r, u) {}
      }
    }
  }

  /** Only the closing of a room that has members loses the converse. */
  lemma StepKeepsPlacedIff(s: State, e: Event)
    requires Mirror(s) && SessionsPlaced(s)
    ensures SessionsPlaced(Step(s, e)) <==> !(e.CloseEvent? && e.r in s.rooms && s.rooms[e.r].members != map[])
  {
    if e.CloseEvent? && e.r in s.rooms && s.rooms[e.r].members != map[] {
      var u :| u in s.rooms[e.r].members;
      assert InRoom(s.rooms, e.r, u);
      assert !InRoom(Step(s, e).rooms, e.r, u);
    }
  }

  /** Joins name a room; leaves and disconnects name the user's current room. */
  predicate Polite(s: State, e: Event) {
    match e
    case JoinEvent(_, r, _, _, _) => r != NO_ROOM
    case LeaveEvent(u, r) => u in s.sessions ==> s.sessions[u].roomId == r
    case DisconnectEvent(u, r, _, _) => u in s.sessions ==> s.sessions[u].roomId == r
    case _ => true
  }

  ghost predicate PoliteRun(es: seq<Event>) {
    forall i :: 0 <= i < |es| ==> Polite(Run(EMPTY, es[..i]), es[i])
  }

  ghost predicate RoomsNamed(s: State) {
    forall u :: u in s.sessions ==> s.sessions[u].roomId != NO_ROOM
  }

  /**
   * Every run of polite events keeps the mirror, so no user is ever in two
   * rooms; and if it closes no room, every session is a membership too.
   */
  lemma {:induction false} RunKeepsMirror(es: seq<Event>)
    requires PoliteRun(es)
    ensures Mirror(Run(EMPTY, es)) && RoomsNamed(Run(EMPTY, es))
    ensures (forall i :: 0 <= i < |es| ==> !es[i].CloseEvent?) ==> SessionsPlaced(Run(EMPTY, es))
    ensures forall r, r', u :: InRoom(Run(EMPTY, es).rooms, r, u) && InRoom(Run(EMPTY, es).rooms, r', u) ==> r == r'
    decreases |es|
  {
    if es != [] {
      var front, e := es[..|es| - 1], es[|es| - 1];
      assert forall i :: 0 <= i < |front| ==> front[i] == es[i] && front[..i] == es[..i];
      RunKeepsMirror(front);
      var s := Run(EMPTY, front);
      assert Polite(s, e);
      StepKeepsMirrorIff(s, e);
      if forall i :: 0 <= i < |es| ==> !es[i].CloseEvent? {
        assert forall i :: 0 <= i < |front| ==> !front[i].CloseEvent?;
        StepKeepsPlacedIff(s, e);
      }
    }
  }

  // ---------------------------------------------------------------- runs that break the invariants

  lemma RunOfTwo(e: Event, f: Event)
    ensures Run(EMPTY, [e, f]) == Step(Step(EMPTY, e), f)
  {
    RunSnoc(EMPTY, [e, f], 0);
    RunSnoc(EMPTY, [e, f], 1);
    assert [e, f][..2] == [e, f];
  }

  /** A re-join from another Gateway leaves the user in the old Gateway's view. */
  lemma RejoinLeavesStaleView(u: UserId, r: RoomId, g: GatewayId, h: GatewayId)
    requires g != h
    ensures var s := Run(EMPTY, [JoinEvent(u, r, g, 0, 0), JoinEvent(u, r, h, 0, 0)]);
            r in s.rooms && InGroup(s.rooms[r].gateways, g, u) && !ViewsExact(s.rooms)
  {
    RunOfTwo(JoinEvent(u, r, g, 0, 0), JoinEvent(u, r, h, 0, 0));
    var s := Step(EMPTY, JoinEvent(u, r, g, 0, 0));
    StepKeepsViewsExactIff(EMPTY, JoinEvent(u, r, g, 0, 0));
    StepKeepsViewsExactIff(s, JoinEvent(u, r, h, 0, 0));
  }

  /** Leaving a room other than the current one deletes the session and leaves the membership. */
  lemma LeaveElsewhereOrphansMember(u: UserId, r: RoomId, q: RoomId, g: GatewayId)
    requires q != r
    ensures var s := Run(EMPTY, [JoinEvent(u, r, g, 0, 0), LeaveEvent(u, q)]);
            InRoom(s.rooms, r, u) && u !in s.sessions
  {
  }

  /** After a join of the room "", the next join does not leave it: the user is in two rooms. */
  lemma UnnamedRoomGivesTwoRooms(u: UserId, r: RoomId, g: GatewayId)
    requires r != NO_ROOM
    ensures var s := Run(EMPTY, [JoinEvent(u, NO_ROOM, g, 0, 0), JoinEvent(u, r, g, 0, 0)]);
            InRoom(s.rooms, NO_ROOM, u) && InRoom(s.rooms, r, u)
  {
  }

  // ---------------------------------------------------------------- what a resume is answered

  /** Only a join brings a room into being. */
  lemma RoomsOnlyByJoin(s: State, e: Event)
    ensures Step(s, e).rooms.Keys <= s.rooms.Keys + (if e.JoinEvent? then {e.r} else {})
  {
  }

  /**
   * From the close of a room until somebody joins it: a resume is refused with
   * 2003 and no room for a user whose session names it, with 2004 and the
   * session's room for a user of another room, and with 2002 without a session.
   */
  lemma {:induction false} ClosedUntilJoined(s: State, es: seq<Event>, r: RoomId)
    requires forall i :: 0 <= i < |es| && es[i].JoinEvent? ==> es[i].r != r
    ensures var s' := Run(Step(s, CloseEvent(r)), es);
      && r !in s'.rooms
      && forall u :: ResumeCode(s', u, r) ==
           if u !in s'.sessions then (2002, "")
           else if s'.sessions[u].roomId != r then (2004, s'.sessions[u].roomId)
           else (2003, "")
    decreases |es|
  {
    if es != [] {
      var front := es[..|es| - 1];
      ClosedUntilJoined(s, front, r);
      RoomsOnlyByJoin(Run(Step(s, CloseEvent(r)), front), es[|es| - 1]);
    }
  }

  /** A resume is granted exactly to a user whose session names the room, while the room exists; and only then anything changes. */
  lemma ResumeGrantedIff(s: State, u: UserId, r: RoomId, g: GatewayId, now: Time)
    ensures ResumeCode(s, u, r).0 == 0 <==> u in s.sessions && s.sessions[u].roomId == r && r in s.rooms
    ensures ResumeCode(s, u, r).0 != 0 ==> Resume(s, u, r, g, now) == s
    ensures ResumeCode(s, u, r).0 == 2004 <==> u in s.sessions && s.sessions[u].roomId != r
    ensures u in s.sessions && s.sessions[u].roomId != r ==> ResumeCode(s, u, r).1 == s.sessions[u].roomId
  {
  }

  // ---------------------------------------------------------------- what a granted resume means

  /** A resume may succeed for a user that is not a member: it then changes the session and no room. */
  lemma ResumedIsMemberIff(s: State, u: UserId, r: RoomId, g: GatewayId, now: Time)
    requires ResumeCode(s, u, r).0 == ERR_SUCCESS
    ensures InRoom(Resume(s, u, r, g, now).rooms, r, u) <==> InRoom(s.rooms, r, u)
    ensures SessionsPlaced(s) ==> InRoom(Resume(s, u, r, g, now).rooms, r, u)
  {
  }

  /** How it happens: the user's room is closed, another user joins a room of that name, and the user resumes. */
  lemma ReopenedRoomGrantsResume(u: UserId, v: UserId, r: RoomId, g: GatewayId, now: Time)
    requires u != v
    ensures var s := Run(EMPTY, [JoinEvent(u, r, g, 0, 0), CloseEvent(r)] + [JoinEvent(v, r, g, 0, 0)]);
      ResumeCode(s, u, r).0 == ERR_SUCCESS && !InRoom(Resume(s, u, r, g, now).rooms, r, u)
  {
    var two, join := [JoinEvent(u, r, g, 0, 0), CloseEvent(r)], JoinEvent(v, r, g, 0, 0);
    RunOfTwo(JoinEvent(u, r, g, 0, 0), CloseEvent(r));
    assert (two + [join])[..2] == two;
    var s := Run(EMPTY, two);
    assert s.rooms == map[] && s.sessions.Keys == {u} && s.sessions[u].roomId == r;
    assert Run(EMPTY, two + [join]) == Step(s, join);
  }

  // ---------------------------------------------------------------- non-interference

  function MemberAt(t: RoomTable, r: RoomId, u: UserId): Option<Member> {
    if InRoom(t, r, u) then Some(t[r].members[u]) else None
  }

  predicate SeenAt(t: RoomTable, r: RoomId, g: GatewayId, u: UserId) {
    r in t && InGroup(t[r].gateways, g, u)
  }

  ghost predicate UntouchedRooms(t: RoomTable, t': RoomTable, u: UserId) {
    && (forall r :: MemberAt(t, r, u) == MemberAt(t', r, u))
    && (forall r, g :: SeenAt(t, r, g, u) <==> SeenAt(t', r, g, u))
  }

  /** Nothing recorded about `u` changes: session, memberships, places in views. */
  ghost predicate Untouched(s: State, s': State, u: UserId) {
    GetSession(s.sessions, u) == GetSession(s'.sessions, u) && UntouchedRooms(s.rooms, s'.rooms, u)
  }

  lemma RemoveUserConcernsOneUser(t: RoomTable, r: RoomId, u: UserId, v: UserId)
    requires u != v
    ensures UntouchedRooms(t, RemoveUser(t, r, u), v)
  {
  }

  lemma AddUserConcernsOneUser(t: RoomTable, r: RoomId, u: UserId, g: GatewayId, now: Time, v: UserId)
    requires u != v
    ensures UntouchedRooms(t, AddUser(t, r, u, g, now), v)
  {
  }

  lemma MoveConcernsOneUser(t: RoomTable, r: RoomId, u: UserId, g: GatewayId, v: UserId)
    requires u != v
    ensures UntouchedRooms(t, UpdateUserGateway(t, r, u, g), v)
  {
  }

  /** A request concerns the user it names and nobody else. */
  lemma StepConcernsOneUser(s: State, e: Event, v: UserId)
    requires !e.CloseEvent? && v != e.u
    ensures Untouched(s, Step(s, e), v)
  {
    match e
    case JoinEvent(u, r, g, t0, t1) =>
      RemoveUserConcernsOneUser(s.rooms, GetUserRoom(s.sessions, u), u, v);
      AddUserConcernsOneUser(LeaveOldRoom(s, u, r), r, u, g, t0, v);
    case LeaveEvent(u, r) => RemoveUserConcernsOneUser(s.rooms, r, u, v);
    case ResumeEvent(u, r, g, _) => MoveConcernsOneUser(s.rooms, r, u, g, v);
    case DisconnectEvent(u, r, _, _) =>
    case ExpireEvent(u, now, timeout) =>
      if TimedOut(s, u, now, timeout) { RemoveUserConcernsOneUser(s.rooms, s.sessions[u].roomId, u, v); }
  }
}
