/**
 * A crash in the middle of a run: what the Gateways resend, after what their
 * queues still held, rebuilds the Roomserver state; exactly when that is the state
 * of the confirmed connections, and what is held otherwise.
 */
module EndToEnd {
  import opened Ids
  import opened Gateway
  import opened Protocol
  import opened TidyRooms
  import opened OneLocalRoom
  import opened UserRecords
  import opened ServedRequests
  import C = CrashRecovery
  import G = GatewayRuns
  import R = Roomserver
  import RR = RoomserverRuns
  import Rooms

  /** No user is confirmed on two Gateways. */
  ghost predicate OneGatewayEach(gws: map<GatewayId, Gw>) {
    forall g, h, u, q, r ::
      g in gws && h in gws && ConfirmedIn(gws[g], u, q) && ConfirmedIn(gws[h], u, r) ==> g == h
  }

  /** The placement of the confirmed connections. */
  ghost predicate ConfirmedPlacement(gws: map<GatewayId, Gw>, p: C.Placement) {
    forall g, u, r :: (g in gws && ConfirmedIn(gws[g], u, r)) <==> u in p && p[u] == C.Place(r, g)
  }

  predicate ConfirmedOn(gws: map<GatewayId, Gw>, g: GatewayId, u: UserId) {
    && g in gws && u in gws[g].connections && gws[g].connections[u] in gws[g].conns
    && gws[g].conns[gws[g].connections[u]].joinState == Confirmed
  }

  ghost function HostOf(gws: map<GatewayId, Gw>, u: UserId): GatewayId
    requires exists g :: ConfirmedOn(gws, g, u)
  {
    var g :| ConfirmedOn(gws, g, u);
    g
  }

  /** Users confirmed on one Gateway each have a placement. */
  lemma PlacementExists(gws: map<GatewayId, Gw>) returns (p: C.Placement)
    requires OneGatewayEach(gws)
    ensures ConfirmedPlacement(gws, p)
  {
    var users := set g, u | g in gws && u in gws[g].connections && ConfirmedOn(gws, g, u) :: u;
    p := map u | u in users ::
      var g := HostOf(gws, u); C.Place(gws[g].conns[gws[g].connections[u]].roomId, g);
    forall g, u, r ensures (g in gws && ConfirmedIn(gws[g], u, r)) <==> u in p && p[u] == C.Place(r, g) {
      if g in gws && ConfirmedIn(gws[g], u, r) {
        assert ConfirmedOn(gws, g, u) && u in users;
        var h := HostOf(gws, u);
        assert ConfirmedIn(gws[h], u, gws[h].conns[gws[h].connections[u]].roomId);
      }
      if u in p {
        assert ConfirmedIn(gws[HostOf(gws, u)], u, p[u].roomId);
      }
    }
  }

  // ---------------------------------------------------------------- what a Gateway asks for a user

  /** Pairs without repetition that put `u` in no other room than `r`. */
  lemma {:induction false} OwnPairs(g: GatewayId, pairs: seq<UserRoomPair>, u: UserId, r: RoomId)
    requires NoRepeats(pairs) && forall pair :: pair in pairs && pair.userId == u ==> pair.roomId == r
    ensures Of(PairDeeds(g, pairs), u)
         == if UserRoomPair(u, r) in pairs then [R.JoinEvent(u, r, g, ZERO_TIME, ZERO_TIME)] else []
    decreases |pairs|
  {
    if pairs != [] {
      var n := |pairs| - 1;
      var front, pair := pairs[..n], pairs[n];
      assert pairs == front + [pair] && pair !in front;
      OwnPairs(g, front, u, r);
      assert PairDeeds(g, pairs)[..n] == PairDeeds(g, front);
    }
  }

  /** The join that a resync sends for a user. */
  function PlaceDeeds(gw: Gw, g: GatewayId, u: UserId): seq<R.Event> {
    match RoomOf(gw, u)
    case Some(r) => [R.JoinEvent(u, r, g, ZERO_TIME, ZERO_TIME)]
    case None => []
  }

  /** What the Gateway's queue asks for, and then the user's place. */
  function Asked(gw: Gw, g: GatewayId, u: UserId): seq<R.Event> {
    QueueDeeds(gw.out) + PlaceDeeds(gw, g, u)
  }

  lemma ResentPlace(gw: Gw, pairs: seq<UserRoomPair>, g: GatewayId, u: UserId)
    requires Tidy(gw) && C.PairsOf(pairs, gw.localRooms)
    ensures Of(PairDeeds(g, pairs), u) == PlaceDeeds(gw, g, u)
  {
    var r := if RoomOf(gw, u).Some? then RoomOf(gw, u).value else NO_ROOM;
    forall pair | pair in pairs && pair.userId == u ensures RoomOf(gw, u) == Some(pair.roomId) {
      assert InGroup(gw.localRooms, pair.roomId, u);
      assert ConfirmedIn(gw, u, pair.roomId);
    }
    if RoomOf(gw, u).Some? {
      assert ConfirmedIn(gw, u, r);
      assert InGroup(gw.localRooms, r, u);
      assert UserRoomPair(u, r) in pairs;
    }
    OwnPairs(g, pairs, u, r);
  }

  lemma OwnPlace(gw: Gw, g: GatewayId, u: UserId)
    ensures Of(Asked(gw, g, u), u) == Of(QueueDeeds(gw.out), u) + PlaceDeeds(gw, g, u)
  {
    OfConcat(QueueDeeds(gw.out), PlaceDeeds(gw, g, u), u);
    if RoomOf(gw, u).Some? { OfOne(PlaceDeeds(gw, g, u)[0], u); }
  }

  lemma OfOne(e: R.Event, u: UserId)
    ensures Of([e], u) == if Concerns(e, u) then [e] else []
  {
    assert [e][..0] == [];
  }

  // ---------------------------------------------------------------- the recovery

  /** The Gateway holds the user in a local room, or has something about it in its queue, an old batch included. */
  ghost predicate Speaks(gws: map<GatewayId, Gw>, g: GatewayId, u: UserId) {
    g in gws && (Of(QueueDeeds(gws[g].out), u) != [] || exists r :: InGroup(gws[g].localRooms, r, u))
  }

  /** No user has its place on one Gateway and requests waiting on another. */
  ghost predicate SingleHomed(gws: map<GatewayId, Gw>) {
    forall g, h, u :: Speaks(gws, g, u) && Speaks(gws, h, u) ==> g == h
  }

  /** At the crash: an orderly system whose users are on one Gateway each; the queues may hold anything. */
  ghost predicate Crashed(s: Sys) {
    s.rs == R.EMPTY && AllOrderly(s) && Safe(s) && SingleHomed(s.gws)
  }

  /** The requests of a resync. */
  function Resync(g: GatewayId, batches: seq<seq<UserRoomPair>>): seq<Request> {
    seq(|batches|, i requires 0 <= i < |batches| => BatchReq(g, batches[i]))
  }

  lemma {:induction false} ResyncDeeds(g: GatewayId, batches: seq<seq<UserRoomPair>>)
    ensures QueueDeeds(Resync(g, batches)) == PairDeeds(g, Flatten(batches))
    decreases |batches|
  {
    if batches != [] {
      var front, last := batches[..|batches| - 1], batches[|batches| - 1];
      ResyncDeeds(g, front);
      assert Resync(g, batches)[..|batches| - 1] == Resync(g, front);
      assert PairDeeds(g, Flatten(front) + last) == PairDeeds(g, Flatten(front)) + PairDeeds(g, last);
    }
  }

  /** Each Gateway's resync of its local rooms, and nothing else, enters its queue, and the queues end empty. */
  ghost predicate Recovers(s: Sys, es: seq<Event>, sent: map<GatewayId, seq<seq<UserRoomPair>>>) {
    && Flow(s, es) && sent.Keys == s.gws.Keys
    && forall g :: g in s.gws ==>
         && C.ReSyncOf(sent[g], s.gws[g].localRooms) && Entered(s, es, g) == Resync(g, sent[g])
         && g in Run(s, es).gws && Run(s, es).gws[g].out == []
  }

  /** What a Gateway has asked for is what its queue held and then its resync. */
  lemma LogIs(s: Sys, es: seq<Event>, sent: map<GatewayId, seq<seq<UserRoomPair>>>, g: GatewayId)
    requires Recovers(s, es, sent) && g in s.gws
    ensures QueueDeeds(Log(s, es, g)) == QueueDeeds(s.gws[g].out) + PairDeeds(g, Flatten(sent[g]))
  {
    QueueDeedsConcat(s.gws[g].out, Resync(g, sent[g]));
    ResyncDeeds(g, sent[g]);
  }

  lemma OwnLog(s: Sys, es: seq<Event>, sent: map<GatewayId, seq<seq<UserRoomPair>>>, g: GatewayId, u: UserId)
    requires Recovers(s, es, sent) && g in s.gws && Tidy(s.gws[g])
    ensures Of(QueueDeeds(Log(s, es, g)), u) == Of(Asked(s.gws[g], g, u), u)
  {
    LogIs(s, es, sent, g);
    OfConcat(QueueDeeds(s.gws[g].out), PairDeeds(g, Flatten(sent[g])), u);
    ResentPlace(s.gws[g], Flatten(sent[g]), g, u);
    OwnPlace(s.gws[g], g, u);
  }

  lemma SilentAsks(gw: Gw, g: GatewayId, u: UserId)
    requires Tidy(gw) && Of(QueueDeeds(gw.out), u) == [] && forall r :: !InGroup(gw.localRooms, r, u)
    ensures Of(Asked(gw, g, u), u) == []
    ensures forall r :: !Standing(Asked(gw, g, u), u, r)
  {
    assert forall r :: InGroup(gw.localRooms, r, u) <==> ConfirmedIn(gw, u, r);
    OwnPlace(gw, g, u);
    OwnStanding(Asked(gw, g, u), u);
  }

  // ---------------------------------------------------------------- the verdict

  /** A join of `r` by `u` stands in what Gateway `g` asks for. */
  ghost predicate StandsAt(gws: map<GatewayId, Gw>, g: GatewayId, u: UserId, r: RoomId) {
    g in gws && Standing(Asked(gws[g], g, u), u, r)
  }

  ghost predicate Stands(gws: map<GatewayId, Gw>, u: UserId, r: RoomId) {
    exists g :: StandsAt(gws, g, u, r)
  }

  /** The joins that stand for the user are those of its placed room, or none if it has no place. */
  ghost predicate StandsRight(gws: map<GatewayId, Gw>, u: UserId, p: C.Placement) {
    forall r :: Stands(gws, u, r) <==> u in p && p[u].roomId == r
  }

  /**
   * The user is a member, seen by its Gateway alone, of exactly the rooms whose
   * joins stand; and it is where the placement says exactly when these are right.
   */
  ghost predicate Verdict(gws: map<GatewayId, Gw>, rs: R.State, u: UserId, p: C.Placement) {
    && (forall r :: Rooms.InRoom(rs.rooms, r, u) <==> Stands(gws, u, r))
    && (forall r, g :: RR.SeenAt(rs.rooms, r, g, u) <==> StandsAt(gws, g, u, r))
    && (RecordIs(rs, u, p) <==> StandsRight(gws, u, p))
  }

  lemma OneSpeaker(s: Sys, es: seq<Event>, sent: map<GatewayId, seq<seq<UserRoomPair>>>, g: GatewayId, u: UserId)
    requires Crashed(s) && Recovers(s, es, sent) && forall h :: h != g ==> !Speaks(s.gws, h, u)
    ensures OnlySpeaker(s, es, g, u)
    ensures forall h, r :: h != g ==> !StandsAt(s.gws, h, u, r)
  {
    forall h | h in s.gws && h != g
      ensures Of(QueueDeeds(Log(s, es, h)), u) == [] && forall r :: !StandsAt(s.gws, h, u, r)
    {
      assert !Speaks(s.gws, h, u);
      SilentAsks(s.gws[h], h, u);
      OwnLog(s, es, sent, h, u);
    }
  }

  /** A user is placed where the Gateway that speaks for it has it Confirmed. */
  lemma HomePlace(s: Sys, p: C.Placement, g: GatewayId, u: UserId)
    requires Crashed(s) && ConfirmedPlacement(s.gws, p) && Speaks(s.gws, g, u)
    ensures match RoomOf(s.gws[g], u)
            case Some(r) => u in p && p[u] == C.Place(r, g)
            case None => u !in p
  {
    match RoomOf(s.gws[g], u)
    case Some(r) => assert ConfirmedIn(s.gws[g], u, r);
    case None => if u in p { PlacedSpeaks(s, p, u); }
  }

  lemma PlacedSpeaks(s: Sys, p: C.Placement, u: UserId)
    requires AllOrderly(s) && ConfirmedPlacement(s.gws, p) && u in p
    ensures Speaks(s.gws, p[u].gatewayId, u) && ConfirmedIn(s.gws[p[u].gatewayId], u, p[u].roomId)
  {
    var gw := s.gws[p[u].gatewayId];
    assert ConfirmedIn(gw, u, p[u].roomId);
    assert InGroup(gw.localRooms, p[u].roomId, u);
  }

  /** From what one Gateway asks for a user follows the user's record. */
  lemma HomeRecord(gw: Gw, heard: seq<R.Event>, g: GatewayId, u: UserId, p: C.Placement)
    requires ZeroAll(heard) == Of(Asked(gw, g, u), u) && SentBy(heard, u, g)
    requires match RoomOf(gw, u)
             case Some(r) => u in p && p[u] == C.Place(r, g)
             case None => u !in p
    ensures HeldAs(R.Run(R.EMPTY, heard), u, g, Asked(gw, g, u))
    ensures RecordIs(R.Run(R.EMPTY, heard), u, p) <==> StandsAsPlaced(Asked(gw, g, u), u, p)
  {
    OwnPlace(gw, g, u);
    if u in p {
      var n := |heard| - 1;
      assert ZeroAll(heard)[n] == R.JoinEvent(u, p[u].roomId, g, ZERO_TIME, ZERO_TIME);
      assert Zeroed(heard[n]) == ZeroAll(heard)[n];
    }
    OwnRun(heard, u, g);
    HeldRecordIff(heard, u, g, p);
    SameStanding(heard, Asked(gw, g, u), u, p);
    HeldZero(R.Run(R.EMPTY, heard), u, g, heard, Asked(gw, g, u));
  }

  lemma SameStanding(heard: seq<R.Event>, asked: seq<R.Event>, u: UserId, p: C.Placement)
    requires ZeroAll(heard) == Of(asked, u)
    ensures Current(asked, u) == Current(heard, u)
    ensures forall r :: Standing(asked, u, r) <==> Standing(heard, u, r)
    ensures StandsAsPlaced(asked, u, p) <==> StandsAsPlaced(heard, u, p)
  {
    ZeroStanding(heard, u);
    OwnStanding(asked, u);
    forall r ensures Standing(asked, u, r) <==> Standing(heard, u, r) {
      assert Standing(Of(asked, u), u, r) <==> Standing(asked, u, r);
    }
  }

  /** The verdict follows from the record of the one Gateway where anything can stand. */
  lemma HomeVerdict(gws: map<GatewayId, Gw>, rs: R.State, g: GatewayId, u: UserId, p: C.Placement)
    requires g in gws && HeldAs(rs, u, g, Asked(gws[g], g, u))
    requires RecordIs(rs, u, p) <==> StandsAsPlaced(Asked(gws[g], g, u), u, p)
    requires forall h, r :: h != g ==> !StandsAt(gws, h, u, r)
    ensures Verdict(gws, rs, u, p)
  {
    var asked := Asked(gws[g], g, u);
    forall r ensures Stands(gws, u, r) <==> Standing(asked, u, r) {
      if Stands(gws, u, r) { var h :| StandsAt(gws, h, u, r); assert h == g; }
      if Standing(asked, u, r) { assert StandsAt(gws, g, u, r); }
    }
    forall r ensures Rooms.InRoom(rs.rooms, r, u) <==> Stands(gws, u, r) {
      assert Rooms.InRoom(rs.rooms, r, u) <==> Standing(asked, u, r);
    }
    forall r, h ensures RR.SeenAt(rs.rooms, r, h, u) <==> StandsAt(gws, h, u, r) {
      assert RR.SeenAt(rs.rooms, r, h, u) <==> Standing(asked, u, r) && h == g;
    }
    assert StandsRight(gws, u, p) <==> StandsAsPlaced(asked, u, p) by {
      if StandsAsPlaced(asked, u, p) {
        forall r ensures Stands(gws, u, r) <==> u in p && p[u].roomId == r { assert Standing(asked, u, r) <==> Stands(gws, u, r); }
      }
      if StandsRight(gws, u, p) {
        forall r ensures Standing(asked, u, r) <==> u in p && p[u].roomId == r { assert Standing(asked, u, r) <==> Stands(gws, u, r); }
      }
    }
  }

  lemma SilentVerdict(gws: map<GatewayId, Gw>, rs: R.State, u: UserId, p: C.Placement)
    requires Absent(rs, u) && u !in p && forall h, r :: !StandsAt(gws, h, u, r)
    ensures Verdict(gws, rs, u, p)
  {
    forall r ensures !Stands(gws, u, r) {}
  }

  lemma SpeakerVerdict(s: Sys, es: seq<Event>, sent: map<GatewayId, seq<seq<UserRoomPair>>>, p: C.Placement, g: GatewayId, u: UserId)
    requires Crashed(s) && Recovers(s, es, sent) && ConfirmedPlacement(s.gws, p) && Speaks(s.gws, g, u)
    ensures Verdict(s.gws, Run(s, es).rs, u, p)
  {
    var heard, rs := Of(Trace(s, es), u), Run(s, es).rs;
    OneSpeaker(s, es, sent, g, u);
    HeardIsLog(s, es, g, u);
    OwnLog(s, es, sent, g, u);
    LogFromHere(s, es, g);
    DeedsFromHere(Log(s, es, g), g, u);
    ZeroSentBy(heard, u, g);
    HomePlace(s, p, g, u);
    HomeRecord(s.gws[g], heard, g, u, p);
    FlowServerStays(s, es);
    RecordProjects(s, es, u);
    HeldUntouched(rs, R.Run(R.EMPTY, heard), u, g, Asked(s.gws[g], g, u));
    RecordStays(rs, R.Run(R.EMPTY, heard), u, p);
    HomeVerdict(s.gws, rs, g, u, p);
  }

  lemma StrangerVerdict(s: Sys, es: seq<Event>, sent: map<GatewayId, seq<seq<UserRoomPair>>>, p: C.Placement, u: UserId)
    requires Crashed(s) && Recovers(s, es, sent) && ConfirmedPlacement(s.gws, p) && forall g :: !Speaks(s.gws, g, u)
    ensures Verdict(s.gws, Run(s, es).rs, u, p)
  {
    if u in p { PlacedSpeaks(s, p, u); }
    NothingHeard(s, es, sent, u);
    NeverHeard(s, es, u, p);
    forall g, r ensures !StandsAt(s.gws, g, u, r) { SilentGateway(s, es, sent, g, u, r); }
    SilentVerdict(s.gws, Run(s, es).rs, u, p);
  }

  lemma NothingHeard(s: Sys, es: seq<Event>, sent: map<GatewayId, seq<seq<UserRoomPair>>>, u: UserId)
    requires Crashed(s) && Recovers(s, es, sent) && forall g :: !Speaks(s.gws, g, u)
    ensures Of(Trace(s, es), u) == []
  {
    forall g ensures Of(TraceFrom(s, es, g), u) == [] { SilentGateway(s, es, sent, g, u, ""); }
    HeardFromOne(s, es, "", u);
  }

  lemma SilentGateway(s: Sys, es: seq<Event>, sent: map<GatewayId, seq<seq<UserRoomPair>>>, g: GatewayId, u: UserId, r: RoomId)
    requires Crashed(s) && Recovers(s, es, sent) && !Speaks(s.gws, g, u)
    ensures Of(TraceFrom(s, es, g), u) == [] && !StandsAt(s.gws, g, u, r)
  {
    if g in s.gws {
      SilentAsks(s.gws[g], g, u);
      OwnLog(s, es, sent, g, u);
    }
    OthersSilent(s, es, g, u);
  }

  lemma NeverHeard(s: Sys, es: seq<Event>, u: UserId, p: C.Placement)
    requires s.rs == R.EMPTY && Flow(s, es) && Of(Trace(s, es), u) == [] && u !in p
    ensures Absent(Run(s, es).rs, u)
  {
    FlowServerStays(s, es);
    RecordProjects(s, es, u);
    RecordStays(Run(s, es).rs, R.EMPTY, u, p);
  }

  lemma UserVerdict(s: Sys, es: seq<Event>, sent: map<GatewayId, seq<seq<UserRoomPair>>>, p: C.Placement, u: UserId)
    requires Crashed(s) && Recovers(s, es, sent) && ConfirmedPlacement(s.gws, p)
    ensures Verdict(s.gws, Run(s, es).rs, u, p)
  {
    if g :| Speaks(s.gws, g, u) {
      SpeakerVerdict(s, es, sent, p, g, u);
    } else {
      StrangerVerdict(s, es, sent, p, u);
    }
  }

  // ---------------------------------------------------------------- rooms left empty

  /** Every room that a queued join or an old batch names has somebody placed in it. */
  ghost predicate JoinedRoomsUsed(gws: map<GatewayId, Gw>, p: C.Placement) {
    forall g, r :: g in gws && Joined(QueueDeeds(gws[g].out), r) ==> Populated(p, r)
  }

  lemma {:induction false} JoinedFromSome(s: Sys, es: seq<Event>, r: RoomId) returns (g: GatewayId)
    requires Flow(s, es) && Joined(Trace(s, es), r)
    ensures Joined(TraceFrom(s, es, g), r)
    decreases |es|
  {
    var front, ev := es[..|es| - 1], es[|es| - 1];
    FlowFront(s, es);
    JoinedConcat(Trace(s, front), Served(Run(s, front), ev), r);
    if Joined(Trace(s, front), r) {
      g := JoinedFromSome(s, front, r);
    } else {
      g := ev.g;
    }
    JoinedConcat(TraceFrom(s, front, g), ServedFrom(Run(s, front), ev, g), r);
  }

  lemma {:induction false} JoinedInTrace(s: Sys, es: seq<Event>, g: GatewayId, r: RoomId)
    requires Joined(TraceFrom(s, es, g), r)
    ensures Joined(Trace(s, es), r)
    decreases |es|
  {
    var front, ev := es[..|es| - 1], es[|es| - 1];
    JoinedConcat(Trace(s, front), Served(Run(s, front), ev), r);
    JoinedConcat(TraceFrom(s, front, g), ServedFrom(Run(s, front), ev, g), r);
    if Joined(TraceFrom(s, front, g), r) { JoinedInTrace(s, front, g, r); }
  }

  lemma JoinedConcat(a: seq<R.Event>, b: seq<R.Event>, r: RoomId)
    ensures Joined(a + b, r) <==> Joined(a, r) || Joined(b, r)
  {
    if i :| 0 <= i < |a| && a[i].JoinEvent? && a[i].r == r { assert (a + b)[i] == a[i]; }
    if i :| 0 <= i < |b| && b[i].JoinEvent? && b[i].r == r { assert (a + b)[|a| + i] == b[i]; }
  }

  lemma ZeroJoined(es: seq<R.Event>, r: RoomId)
    ensures Joined(ZeroAll(es), r) <==> Joined(es, r)
  {
    if i :| 0 <= i < |es| && es[i].JoinEvent? && es[i].r == r { assert ZeroAll(es)[i] == Zeroed(es[i]); }
  }

  lemma PairsJoined(gw: Gw, pairs: seq<UserRoomPair>, g: GatewayId, r: RoomId)
    requires Tidy(gw) && C.PairsOf(pairs, gw.localRooms)
    ensures Joined(PairDeeds(g, pairs), r) <==> exists u :: ConfirmedIn(gw, u, r)
  {
    var deeds := PairDeeds(g, pairs);
    if i :| 0 <= i < |deeds| && deeds[i].JoinEvent? && deeds[i].r == r {
      assert pairs[i] in pairs;
      assert InGroup(gw.localRooms, r, pairs[i].userId);
      assert ConfirmedIn(gw, pairs[i].userId, r);
    }
    if u :| ConfirmedIn(gw, u, r) {
      assert InGroup(gw.localRooms, r, u);
      assert UserRoomPair(u, r) in pairs;
      var i :| 0 <= i < |pairs| && pairs[i] == UserRoomPair(u, r);
      assert deeds[i].JoinEvent? && deeds[i].r == r;
    }
  }

  /** The rooms joined through `g`: those that its queue joins and those of its confirmed connections. */
  lemma JoinedThrough(s: Sys, es: seq<Event>, sent: map<GatewayId, seq<seq<UserRoomPair>>>, g: GatewayId, r: RoomId)
    requires Recovers(s, es, sent) && g in s.gws && Tidy(s.gws[g])
    ensures Joined(TraceFrom(s, es, g), r) <==> Joined(QueueDeeds(s.gws[g].out), r) || exists u :: ConfirmedIn(s.gws[g], u, r)
  {
    QueueConserved(s, es, g);
    assert QueueDeeds([]) == [];
    assert ZeroAll(TraceFrom(s, es, g)) == QueueDeeds(Log(s, es, g));
    LogIs(s, es, sent, g);
    ZeroJoined(TraceFrom(s, es, g), r);
    JoinedConcat(QueueDeeds(s.gws[g].out), PairDeeds(g, Flatten(sent[g])), r);
    PairsJoined(s.gws[g], Flatten(sent[g]), g, r);
  }

  lemma RoomsRecover(s: Sys, es: seq<Event>, sent: map<GatewayId, seq<seq<UserRoomPair>>>, p: C.Placement)
    requires Crashed(s) && Recovers(s, es, sent) && ConfirmedPlacement(s.gws, p)
    ensures JoinedRoomsUsed(s.gws, p) <==> RoomsUsed(Trace(s, es), p)
  {
    if JoinedRoomsUsed(s.gws, p) {
      forall r | Joined(Trace(s, es), r) ensures Populated(p, r) {
        var g := JoinedFromSome(s, es, r);
        if g !in s.gws { UnknownGateway(s, es, g); }
        JoinedThrough(s, es, sent, g, r);
        if u :| ConfirmedIn(s.gws[g], u, r) { assert u in p && p[u].roomId == r; }
      }
    }
    if RoomsUsed(Trace(s, es), p) {
      forall g, r | g in s.gws && Joined(QueueDeeds(s.gws[g].out), r) ensures Populated(p, r) {
        JoinedThrough(s, es, sent, g, r);
        JoinedInTrace(s, es, g, r);
      }
    }
  }

  // ---------------------------------------------------------------- a crash in a run

  /** Nothing stands but the places, and no room that a queue joins will be left empty. */
  ghost predicate OnlyPlacesStand(gws: map<GatewayId, Gw>, p: C.Placement) {
    (forall u :: StandsRight(gws, u, p)) && JoinedRoomsUsed(gws, p)
  }

  lemma CrashedHoldsIff(s: Sys, es: seq<Event>, sent: map<GatewayId, seq<seq<UserRoomPair>>>, p: C.Placement)
    requires Crashed(s) && Recovers(s, es, sent) && ConfirmedPlacement(s.gws, p)
    ensures C.Holds(Run(s, es).rs, p) <==> (forall u :: RecordIs(Run(s, es).rs, u, p)) && JoinedRoomsUsed(s.gws, p)
  {
    FlowServerStays(s, es);
    RoomsRecover(s, es, sent, p);
    HoldsInRunIff(s, es, p);
  }

  lemma HoldsIffStands(gws: map<GatewayId, Gw>, rs: R.State, p: C.Placement)
    requires forall u :: Verdict(gws, rs, u, p)
    ensures (forall u :: RecordIs(rs, u, p)) <==> forall u :: StandsRight(gws, u, p)
  {
    if forall u :: RecordIs(rs, u, p) {
      forall u ensures StandsRight(gws, u, p) { assert Verdict(gws, rs, u, p) && RecordIs(rs, u, p); }
    }
    if forall u :: StandsRight(gws, u, p) {
      forall u ensures RecordIs(rs, u, p) { assert Verdict(gws, rs, u, p) && StandsRight(gws, u, p); }
    }
  }

  lemma CrashedRecovers(s: Sys, es: seq<Event>, sent: map<GatewayId, seq<seq<UserRoomPair>>>, p: C.Placement)
    requires Crashed(s) && Recovers(s, es, sent) && ConfirmedPlacement(s.gws, p)
    ensures C.Holds(Run(s, es).rs, p) <==> OnlyPlacesStand(s.gws, p)
    ensures forall u :: Verdict(s.gws, Run(s, es).rs, u, p)
  {
    forall u ensures Verdict(s.gws, Run(s, es).rs, u, p) { UserVerdict(s, es, sent, p, u); }
    CrashedHoldsIff(s, es, sent, p);
    HoldsIffStands(s.gws, Run(s, es).rs, p);
  }

  /**
   * A crash of the Roomserver after any run with patient clients, the queues
   * holding anything, batches of an earlier recovery included; then every Gateway
   * resends its local rooms, and the queues are handled in any interleaving.  The
   * Roomserver ends with exactly the confirmed connections if and only if no join
   * stands in the queues but theirs and no queued join names an otherwise unused
   * room.  In any case each user is in exactly the rooms whose joins stand.
   */
  lemma CrashInRunRecovers(ids: set<GatewayId>, n: nat, es: seq<Event>, recovery: seq<Event>,
                           sent: map<GatewayId, seq<seq<UserRoomPair>>>, p: C.Placement)
    requires forall i :: 0 <= i < |es| ==> PatientEvent(Run(Start(ids, n), es[..i]), es[i])
    requires ConfirmedPlacement(Run(Start(ids, n), es).gws, p) && SingleHomed(Run(Start(ids, n), es).gws)
    requires Recovers(Step(Run(Start(ids, n), es), ServerCrashes), recovery, sent)
    ensures var s, rs := Run(Start(ids, n), es), Run(Start(ids, n), es + [ServerCrashes] + recovery).rs;
      && (C.Holds(rs, p) <==> OnlyPlacesStand(s.gws, p))
      && (C.Holds(rs, p) ==> RR.Mirror(rs) && RR.SessionsPlaced(rs) && Rooms.ViewsExact(rs.rooms))
      && (forall u :: Verdict(s.gws, rs, u, p))
  {
    var s0 := Start(ids, n);
    var s := Run(s0, es);
    var rs := Run(s0, es + [ServerCrashes] + recovery).rs;
    RunSnoc(s0, es, ServerCrashes);
    RunConcat(s0, es + [ServerCrashes], recovery);
    RunIsOrderly(ids, n, es);
    RunIsSafe(ids, n, es);
    CrashLeavesGateways(s);
    StepKeepsSafe(s, ServerCrashes);
    StepOrderly(s, ServerCrashes);
    CrashedRecovers(Step(s, ServerCrashes), recovery, sent, p);
    if C.Holds(rs, p) { C.HoldsKeepsInvariants(rs, p); }
  }

  lemma CrashLeavesGateways(s: Sys)
    ensures Step(s, ServerCrashes) == s.(rs := R.EMPTY)
  {
  }

  // ---------------------------------------------------------------- clients that act during the recovery

  /** Gateway and Roomserver have the user in the same rooms. */
  ghost predicate SameRooms(gw: Gw, rs: R.State, u: UserId) {
    forall r :: InGroup(gw.localRooms, r, u) <==> Rooms.InRoom(rs.rooms, r, u)
  }

  /** The joins of the user that stand in the events are those of its local rooms. */
  ghost predicate StandsLocally(es: seq<R.Event>, gw: Gw, u: UserId) {
    forall r :: InGroup(gw.localRooms, r, u) <==> Standing(es, u, r)
  }

  lemma SameRoomsIff(gw: Gw, rs: R.State, g: GatewayId, es: seq<R.Event>, u: UserId)
    requires HeldAs(rs, u, g, es)
    ensures SameRooms(gw, rs, u) <==> StandsLocally(es, gw, u)
  {
    if SameRooms(gw, rs, u) {
      forall r ensures InGroup(gw.localRooms, r, u) <==> Standing(es, u, r) {
        assert InGroup(gw.localRooms, r, u) <==> Rooms.InRoom(rs.rooms, r, u);
      }
    }
    if StandsLocally(es, gw, u) {
      forall r ensures InGroup(gw.localRooms, r, u) <==> Rooms.InRoom(rs.rooms, r, u) {
        assert InGroup(gw.localRooms, r, u) <==> Standing(es, u, r);
      }
    }
  }

  /**
   * Clients may act while the Gateways recover, in any mode and without patience,
   * and a resync may send what no longer holds.  Once the queue of the one
   * Gateway that speaks for a user is handled, the Roomserver has the user in the
   * Gateway's local rooms if and only if these are the rooms whose joins stand in
   * the Gateway's log since the crash, resync pairs counted as joins.
   */
  lemma RecoveryWhileClientsAct(ids: set<GatewayId>, n: nat, before: seq<Event>, after: seq<Event>, g: GatewayId, u: UserId)
    requires var s := Run(Start(ids, n), before + [ServerCrashes]);
      && Flow(s, after) && g in s.gws && OnlySpeaker(s, after, g, u)
      && g in Run(s, after).gws && Run(s, after).gws[g].out == []
    ensures var s, end := Run(Start(ids, n), before + [ServerCrashes]), Run(Start(ids, n), before + [ServerCrashes] + after);
      && g in s.gws && g in end.gws && HeldAs(end.rs, u, g, QueueDeeds(Log(s, after, g)))
      && (SameRooms(end.gws[g], end.rs, u) <==> StandsLocally(QueueDeeds(Log(s, after, g)), end.gws[g], u))
  {
    var s := Run(Start(ids, n), before + [ServerCrashes]);
    RunConcat(Start(ids, n), before + [ServerCrashes], after);
    RunSnoc(Start(ids, n), before, ServerCrashes);
    RunIsSafe(ids, n, before + [ServerCrashes]);
    CrashLeavesGateways(Run(Start(ids, n), before));
    LogDecides(s, after, g, u);
    SameRoomsIff(Run(s, after).gws[g], Run(s, after).rs, g, QueueDeeds(Log(s, after, g)), u);
  }

  // ---------------------------------------------------------------- a join left at the crash

  lemma ConnectedMayAsk(g: GatewayId, n: nat, c: ConnId, u: UserId, r: RoomId)
    requires HasShard(u, n) && r != NO_ROOM
    ensures Patient(AddConnection(G.Start(g, n), c, u), [], G.ClientJoin(c, r))
  {
  }

  lemma FirstJoinIsPatient(g: GatewayId, n: nat, c: ConnId, u: UserId, r: RoomId)
    requires HasShard(u, n) && r != NO_ROOM
    ensures var es := [Local(g, G.Connect(c, u)), Local(g, G.ClientJoin(c, r))];
      forall i :: 0 <= i < |es| ==> PatientEvent(Run(Start({g}, n), es[..i]), es[i])
  {
    var s0, es := Start({g}, n), [Local(g, G.Connect(c, u)), Local(g, G.ClientJoin(c, r))];
    assert es[..0] == [] && es[..1] == [] + [Local(g, G.Connect(c, u))];
    RunSnoc(s0, [], Local(g, G.Connect(c, u)));
    var s1 := LocalStep(s0, g, G.Connect(c, u));
    assert s1.gws[g] == AddConnection(G.Start(g, n), c, u) && s1.down[g] == [];
    ConnectedMayAsk(g, n, c, u, r);
  }

  /**
   * The failing input: a patient client asks for a room, the Roomserver crashes
   * and then handles the request.  It holds the user, nobody is confirmed, and
   * this is a recovery in which nothing was lost.
   */
  lemma StandingJoinIsHeld(g: GatewayId, n: nat, c: ConnId, u: UserId, r: RoomId) returns (asked: Sys, s: Sys)
    requires HasShard(u, n) && r != NO_ROOM
    ensures asked == Run(Start({g}, n), [Local(g, G.Connect(c, u)), Local(g, G.ClientJoin(c, r))])
    ensures s == Run(Step(asked, ServerCrashes), [ServerHandles(g, 0, 0, [])])
    ensures Recovers(Step(asked, ServerCrashes), [ServerHandles(g, 0, 0, [])], map[g := []]) && ConfirmedPlacement(asked.gws, map[])
    ensures Rooms.InRoom(s.rs.rooms, r, u) && !C.Holds(s.rs, map[])
  {
    asked := JoinUnderWay(g, n, c, u, r);
    PendingIsNowhere(asked.gws, g, c, u);
    var down := Step(asked, ServerCrashes);
    OneRequestServed(down, g, u, r);
    s := HandleStep(down, g, 0, 0, []);
    JoinIsHeld(u, r, g);
  }

  lemma PendingIsNowhere(gws: map<GatewayId, Gw>, g: GatewayId, c: ConnId, u: UserId)
    requires gws.Keys == {g} && gws[g].connections == map[u := c] && c in gws[g].conns && gws[g].conns[c].joinState == Pending
    ensures ConfirmedPlacement(gws, map[])
  {
  }

  lemma OneRequestServed(s: Sys, g: GatewayId, u: UserId, r: RoomId)
    requires s.gws.Keys == {g} && s.gws[g].out == [JoinReq(u, r, g)] && s.gws[g].localRooms == map[] && g in s.down
    requires s.rs == R.EMPTY
    ensures var ev := ServerHandles(g, 0, 0, []);
      && Recovers(s, [ev], map[g := []]) && Run(s, [ev]) == HandleStep(s, g, 0, 0, [])
      && Run(s, [ev]).rs == R.Join(R.EMPTY, u, r, g, 0, 0)
  {
    var ev := ServerHandles(g, 0, 0, []);
    RunSnoc(s, [], ev);
    assert [] + [ev] == [ev] && [ev][..0] == [];
    assert Flows(s, ev);
    NothingEntered(s, ev, g);
    assert HandleStep(s, g, 0, 0, []).gws[g].out == [];
  }

  lemma NothingEntered(s: Sys, ev: Event, g: GatewayId)
    requires ev.ServerHandles?
    ensures Entered(s, [ev], g) == Resync(g, []) && C.ReSyncOf([], map[])
  {
    assert [ev][..0] == [];
    var nothing: seq<Request> := [];
    assert EnteredBy(s, ev, g) == nothing && Entered(s, [ev], g) == nothing + nothing == nothing;
    assert Resync(g, []) == nothing;
    var none: seq<seq<UserRoomPair>> := [];
    assert Flatten(none) == [];
  }

  lemma JoinIsHeld(u: UserId, r: RoomId, g: GatewayId)
    ensures var rs := R.Join(R.EMPTY, u, r, g, 0, 0); Rooms.InRoom(rs.rooms, r, u) && !C.Holds(rs, map[])
  {
    assert Rooms.InRoom(R.Join(R.EMPTY, u, r, g, 0, 0).rooms, r, u);
  }
}
