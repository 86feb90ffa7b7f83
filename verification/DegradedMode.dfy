/**
 * Parking in degraded mode as interleaved steps: the status check, the append,
 * the swap that starts a drain, each send of a drain and each direct send are
 * separate, and several drains may run at once.
 */
module DegradedMode {
  import opened Ids
  import opened Gateway

  /** A request and its place in the order of issue. */
  datatype Stamped = Stamped(m: Request, t: nat)

  /** A drain and what it has still to send: leaves first. */
  datatype Lane = Lane(leaves: seq<Stamped>, disconnects: seq<Stamped>)

  /**
   * `deciding` holds the requests whose handler has seen the degraded status
   * and has not appended yet; `started` counts drains that have not swapped;
   * `sent` is everything given to the sender, in order, and `issued` everything
   * parked or sent so far; `clock` is the next place in the order of issue.
   */
  datatype State = State(
    degraded: bool, parked: Lane, deciding: multiset<Request>, started: nat, drains: seq<Lane>,
    sent: seq<Stamped>, issued: multiset<Stamped>, clock: nat)

  const NOTHING := Lane([], [])
  const START := State(false, NOTHING, multiset{}, 0, [], [], multiset{}, 0)

  datatype Event =
    | CheckStatus(m: Request)
    | Append(m: Request)
    | SendNow(m: Request)
    | GoDegraded
    | GoNormal
    | Swap
    | SendNext(d: nat)

  predicate Parkable(m: Request) {
    m.LeaveReq? || m.DisconnectReq?
  }

  function LaneAdd(lane: Lane, x: Stamped): Lane {
    if x.m.LeaveReq? then lane.(leaves := lane.leaves + [x]) else lane.(disconnects := lane.disconnects + [x])
  }

  /** What a lane sends next. */
  function LaneNext(lane: Lane): Stamped
    requires lane != NOTHING
  {
    if lane.leaves != [] then lane.leaves[0] else lane.disconnects[0]
  }

  function LaneRest(lane: Lane): Lane
    requires lane != NOTHING
  {
    if lane.leaves != [] then lane.(leaves := lane.leaves[1..]) else lane.(disconnects := lane.disconnects[1..])
  }

  function Park(s: State, m: Request): State {
    var x := Stamped(m, s.clock);
    s.(deciding := s.deciding - multiset{m}, parked := LaneAdd(s.parked, x),
       issued := s.issued + multiset{x}, clock := s.clock + 1)
  }

  function SendDirectly(s: State, m: Request): State {
    var x := Stamped(m, s.clock);
    s.(sent := s.sent + [x], issued := s.issued + multiset{x}, clock := s.clock + 1)
  }

  function HandOver(s: State, d: nat): State
    requires d < |s.drains| && s.drains[d] != NOTHING
  {
    s.(sent := s.sent + [LaneNext(s.drains[d])], drains := s.drains[d := LaneRest(s.drains[d])])
  }

  function Step(s: State, e: Event): State {
    match e
    case CheckStatus(m) => if s.degraded && Parkable(m) then s.(deciding := s.deciding + multiset{m}) else s
    case Append(m) => if m in s.deciding then Park(s, m) else s
    case SendNow(m) => SendDirectly(s, m)
    case GoDegraded => s.(degraded := true)
    case GoNormal => if s.degraded then s.(degraded := false, started := s.started + 1) else s
    case Swap =>
      if s.started > 0
      then s.(started := s.started - 1, drains := s.drains + [s.parked], parked := NOTHING)
      else s
    case SendNext(d) => if d < |s.drains| && s.drains[d] != NOTHING then HandOver(s, d) else s
  }

  function Run(es: seq<Event>): State {
    if es == [] then START else Step(Run(es[..|es| - 1]), es[|es| - 1])
  }

  // ---------------------------------------------------------------- conservation

  function InLane(lane: Lane): multiset<Stamped> {
    multiset(lane.leaves) + multiset(lane.disconnects)
  }

  function InLanes(lanes: seq<Lane>): multiset<Stamped> {
    if lanes == [] then multiset{} else InLanes(lanes[..|lanes| - 1]) + InLane(lanes[|lanes| - 1])
  }

  /** Everything issued is sent, in a running drain, or still parked: none lost, none twice. */
  ghost predicate Conserved(s: State) {
    s.issued == multiset(s.sent) + InLanes(s.drains) + InLane(s.parked)
  }

  lemma {:induction false} LaneUpdate(lanes: seq<Lane>, i: nat, lane: Lane, x: Stamped)
    requires i < |lanes| && InLane(lanes[i]) == InLane(lane) + multiset{x}
    ensures InLanes(lanes) == InLanes(lanes[i := lane]) + multiset{x}
    decreases |lanes|
  {
    var front := lanes[..|lanes| - 1];
    if i == |front| {
      assert lanes[i := lane][..|lanes| - 1] == front;
    } else {
      LaneUpdate(front, i, lane, x);
      assert lanes[i := lane][..|lanes| - 1] == front[i := lane];
    }
  }

  lemma LaneSplits(lane: Lane)
    requires lane != NOTHING
    ensures InLane(lane) == InLane(LaneRest(lane)) + multiset{LaneNext(lane)}
  {
    if lane.leaves != [] {
      assert lane.leaves == [lane.leaves[0]] + lane.leaves[1..];
    } else {
      assert lane.disconnects == [lane.disconnects[0]] + lane.disconnects[1..];
    }
  }

  /** One request moves from the drains to the sender. */
  lemma TransferConserves(s: State, drains: seq<Lane>, x: Stamped)
    requires Conserved(s) && InLanes(s.drains) == InLanes(drains) + multiset{x}
    ensures Conserved(s.(sent := s.sent + [x], drains := drains))
  {
  }

  lemma HandOverConserves(s: State, d: nat)
    requires Conserved(s) && d < |s.drains| && s.drains[d] != NOTHING
    ensures Conserved(HandOver(s, d))
  {
    LaneSplits(s.drains[d]);
    LaneUpdate(s.drains, d, LaneRest(s.drains[d]), LaneNext(s.drains[d]));
    TransferConserves(s, s.drains[d := LaneRest(s.drains[d])], LaneNext(s.drains[d]));
  }

  lemma ParkConserves(s: State, m: Request)
    requires Conserved(s)
    ensures Conserved(Park(s, m))
  {
    assert InLane(LaneAdd(s.parked, Stamped(m, s.clock))) == InLane(s.parked) + multiset{Stamped(m, s.clock)};
  }

  lemma SendDirectlyConserves(s: State, m: Request)
    requires Conserved(s)
    ensures Conserved(SendDirectly(s, m))
  {
  }

  lemma SwapConserves(s: State)
    requires Conserved(s) && s.started > 0
    ensures Conserved(Step(s, Swap))
  {
  }

  lemma StepConserves(s: State, e: Event)
    requires Conserved(s)
    ensures Conserved(Step(s, e))
  {
    if e.SendNext? {
      if e.d < |s.drains| && s.drains[e.d] != NOTHING { HandOverConserves(s, e.d); }
    } else if e.Swap? {
      if s.started > 0 { SwapConserves(s); }
    } else if e.Append? {
      if e.m in s.deciding { ParkConserves(s, e.m); }
    } else if e.SendNow? {
      SendDirectlyConserves(s, e.m);
    } else {
      IdleConserves(s, e);
    }
  }

  lemma IdleConserves(s: State, e: Event)
    requires Conserved(s) && (e.CheckStatus? || e.GoDegraded? || e.GoNormal?)
    ensures Conserved(Step(s, e))
  {
    var s' := Step(s, e);
    assert s' == s.(degraded := s'.degraded, deciding := s'.deciding, started := s'.started);
  }

  /** Conservation over every interleaving. */
  lemma {:induction false} RunConserves(es: seq<Event>)
    ensures Conserved(Run(es))
    decreases |es|
  {
    if es != [] {
      RunConserves(es[..|es| - 1]);
      StepConserves(Run(es[..|es| - 1]), es[|es| - 1]);
    }
  }

  // ---------------------------------------------------------------- stranded requests

  /** While anything is parked, the mode is degraded or a drain is about to take it. */
  ghost predicate WillDrain(s: State) {
    s.parked != NOTHING ==> s.degraded || s.started > 0
  }

  /** A handler appends on a stale status: the Gateway is back to normal and its drain has swapped. */
  predicate LateAppend(s: State, e: Event) {
    e.Append? && e.m in s.deciding && !s.degraded && s.started == 0
  }

  /** A request can be stranded by a late append and by nothing else. */
  lemma StepWillDrainIff(s: State, e: Event)
    requires WillDrain(s)
    ensures WillDrain(Step(s, e)) <==> !LateAppend(s, e)
  {
  }

  /** Without late appends, a Gateway back to normal whose drains are done has sent everything ever issued. */
  lemma {:induction false} RunWillDrain(es: seq<Event>)
    requires forall i :: 0 <= i < |es| ==> !LateAppend(Run(es[..i]), es[i])
    ensures WillDrain(Run(es))
    ensures (!Run(es).degraded && Run(es).started == 0 && InLanes(Run(es).drains) == multiset{})
              ==> multiset(Run(es).sent) == Run(es).issued
    decreases |es|
  {
    RunConserves(es);
    if es != [] {
      var front := es[..|es| - 1];
      assert forall i :: 0 <= i < |front| ==> front[i] == es[i] && front[..i] == es[..i];
      RunWillDrain(front);
      StepWillDrainIff(Run(front), es[|es| - 1]);
    }
  }

  lemma RunSnoc(es: seq<Event>, e: Event)
    ensures Run(es + [e]) == Step(Run(es), e)
  {
  }

  /** A late append does happen: check while degraded, recover, drain, then append. */
  lemma LateAppendIsReachable(m: Request)
    requires Parkable(m)
    ensures var s := Run([GoDegraded] + [CheckStatus(m)] + [GoNormal] + [Swap] + [Append(m)]);
            !s.degraded && s.started == 0 && s.drains == [NOTHING] && s.deciding == multiset{}
            && s.sent == [] && s.parked == LaneAdd(NOTHING, Stamped(m, 0))
  {
    var e2 := [GoDegraded] + [CheckStatus(m)];
    CheckedWhileDegraded(m);
    RunSnoc(e2, GoNormal);
    RunSnoc(e2 + [GoNormal], Swap);
    RunSnoc(e2 + [GoNormal] + [Swap], Append(m));
    var s3 := START.(deciding := multiset{m}, started := 1);
    assert Step(Run(e2), GoNormal) == s3;
    assert Step(s3, Swap) == START.(deciding := multiset{m}, drains := [NOTHING]);
  }

  lemma CheckedWhileDegraded(m: Request)
    requires Parkable(m)
    ensures Run([GoDegraded] + [CheckStatus(m)]) == START.(degraded := true, deciding := multiset{m})
  {
    RunSnoc([], GoDegraded);
    assert [] + [GoDegraded] == [GoDegraded];
    RunSnoc([GoDegraded], CheckStatus(m));
  }

  /** A handler decides to park only a leave or disconnect, and only on seeing the degraded status. */
  lemma DecidesOnlyDegraded(s: State, e: Event, m: Request)
    ensures Step(s, e).deciding[m] > s.deciding[m] <==> e == CheckStatus(m) && s.degraded && (m.LeaveReq? || m.DisconnectReq?)
  {
  }

  /** Nothing is parked, about to be parked, or in a drain. */
  predicate ParksNothing(s: State) {
    !s.degraded && s.deciding == multiset{} && s.parked == NOTHING && s.started == 0 && s.drains == []
  }

  lemma StepParksNothing(s: State, e: Event)
    requires ParksNothing(s) && e != GoDegraded
    ensures ParksNothing(Step(s, e))
  {
  }

  /** A Gateway that is never degraded parks nothing and starts no drain: everything issued has been sent. */
  lemma {:induction false} NeverDegradedParksNothing(es: seq<Event>)
    requires GoDegraded !in es
    ensures ParksNothing(Run(es)) && multiset(Run(es).sent) == Run(es).issued
    decreases |es|
  {
    RunConserves(es);
    if es != [] {
      var front, e := es[..|es| - 1], es[|es| - 1];
      assert e in es && GoDegraded !in front;
      NeverDegradedParksNothing(front);
      StepParksNothing(Run(front), e);
    }
    assert InLanes([]) == multiset{} && InLane(NOTHING) == multiset{};
  }

  // ---------------------------------------------------------------- order

  predicate IsOf(x: Stamped, u: UserId) {
    !x.m.BatchReq? && x.m.u == u
  }

  /** The running drains and, after them, what is parked. */
  function Lanes(s: State): seq<Lane> {
    s.drains + [s.parked]
  }

  predicate Waits(lane: Lane, x: Stamped) {
    x in lane.leaves || x in lane.disconnects
  }

  ghost predicate Ascending(q: seq<Stamped>) {
    forall i, j :: 0 <= i < j < |q| ==> q[i].t < q[j].t
  }

  ghost predicate LaneOrdered(lane: Lane, clock: nat) {
    && Ascending(lane.leaves) && Ascending(lane.disconnects)
    && (forall x, y :: x in lane.leaves && y in lane.disconnects ==> x.t != y.t)
    && (forall x :: Waits(lane, x) ==> x.t < clock)
  }

  ghost predicate LaneBefore(a: Lane, b: Lane) {
    forall x, y :: Waits(a, x) && Waits(b, y) ==> x.t < y.t
  }

  /** Each list is in the order of issue, and an earlier drain holds only requests issued before a later one's. */
  ghost predicate Chronological(lanes: seq<Lane>, clock: nat) {
    && (forall k :: 0 <= k < |lanes| ==> LaneOrdered(lanes[k], clock))
    && (forall j, k :: 0 <= j < k < |lanes| ==> LaneBefore(lanes[j], lanes[k]))
  }

  /** The requests of `u` sent so far are in the order of issue, and older than those of `u` that wait. */
  ghost predicate OrderKept(sent: seq<Stamped>, lanes: seq<Lane>, u: UserId) {
    && (forall i, j :: 0 <= i < j < |sent| && IsOf(sent[i], u) && IsOf(sent[j], u) ==> sent[i].t < sent[j].t)
    && (forall x, k, y :: x in sent && IsOf(x, u) && 0 <= k < |lanes| && Waits(lanes[k], y) && IsOf(y, u) ==> x.t < y.t)
  }

  ghost predicate Dated(s: State) {
    Chronological(Lanes(s), s.clock) && forall x :: x in s.sent ==> x.t < s.clock
  }

  ghost predicate HasOne(lane: Lane, u: UserId) {
    exists x :: Waits(lane, x) && IsOf(x, u)
  }

  /**
   * A direct send while something of the user waits; a drain's send while an
   * earlier drain has something of the user; a leave of a drain sent before an
   * older disconnect of the user in the same drain.
   */
  ghost predicate Overtakes(s: State, e: Event, u: UserId) {
    match e
    case SendNow(m) => IsOf(Stamped(m, s.clock), u) && exists k :: 0 <= k < |Lanes(s)| && HasOne(Lanes(s)[k], u)
    case SendNext(d) =>
      && d < |s.drains| && s.drains[d] != NOTHING
      && var x := LaneNext(s.drains[d]);
         && IsOf(x, u)
         && ((exists k :: 0 <= k < d && HasOne(s.drains[k], u))
             || (x in s.drains[d].leaves && exists y :: y in s.drains[d].disconnects && IsOf(y, u) && y.t < x.t))
    case _ => false
  }

  lemma AscendingSnoc(q: seq<Stamped>, x: Stamped)
    requires Ascending(q) && forall y :: y in q ==> y.t < x.t
    ensures Ascending(q + [x])
  {
  }

  lemma LaneAddOrdered(lane: Lane, m: Request, clock: nat)
    requires LaneOrdered(lane, clock)
    ensures LaneOrdered(LaneAdd(lane, Stamped(m, clock)), clock + 1)
    ensures forall y :: Waits(LaneAdd(lane, Stamped(m, clock)), y) <==> Waits(lane, y) || y == Stamped(m, clock)
  {
    var x := Stamped(m, clock);
    assert forall y :: y in lane.leaves ==> Waits(lane, y);
    assert forall y :: y in lane.disconnects ==> Waits(lane, y);
    if m.LeaveReq? { AscendingSnoc(lane.leaves, x); } else { AscendingSnoc(lane.disconnects, x); }
  }

  lemma LaneRestWaits(lane: Lane, clock: nat)
    requires LaneOrdered(lane, clock) && lane != NOTHING
    ensures LaneOrdered(LaneRest(lane), clock) && Waits(lane, LaneNext(lane))
    ensures forall y :: Waits(LaneRest(lane), y) <==> Waits(lane, y) && y != LaneNext(lane)
  {
    var rest, x := LaneRest(lane), LaneNext(lane);
    if lane.leaves != [] {
      assert lane.leaves == [x] + rest.leaves;
    } else {
      assert lane.disconnects == [x] + rest.disconnects;
    }
  }

  lemma ParkChronological(lanes: seq<Lane>, n: nat, m: Request, clock: nat)
    requires Chronological(lanes, clock) && n + 1 == |lanes|
    ensures Chronological(lanes[n := LaneAdd(lanes[n], Stamped(m, clock))], clock + 1)
  {
    var lanes' := lanes[n := LaneAdd(lanes[n], Stamped(m, clock))];
    LaneAddOrdered(lanes[n], m, clock);
    forall j, k | 0 <= j < k < |lanes'| ensures LaneBefore(lanes'[j], lanes'[k]) {
      assert LaneBefore(lanes[j], lanes[k]) && LaneOrdered(lanes[j], clock);
    }
  }

  lemma ParkInOrder(sent: seq<Stamped>, lanes: seq<Lane>, n: nat, m: Request, clock: nat, u: UserId)
    requires Chronological(lanes, clock) && n + 1 == |lanes| && OrderKept(sent, lanes, u)
    requires forall x :: x in sent ==> x.t < clock
    ensures OrderKept(sent, lanes[n := LaneAdd(lanes[n], Stamped(m, clock))], u)
  {
    var lanes' := lanes[n := LaneAdd(lanes[n], Stamped(m, clock))];
    LaneAddOrdered(lanes[n], m, clock);
    forall x, k, y | x in sent && IsOf(x, u) && 0 <= k < |lanes'| && Waits(lanes'[k], y) && IsOf(y, u) ensures x.t < y.t {
      if y != Stamped(m, clock) { assert Waits(lanes[k], y); }
    }
  }

  lemma SwapChronological(lanes: seq<Lane>, clock: nat)
    requires Chronological(lanes, clock)
    ensures Chronological(lanes + [NOTHING], clock)
  {
    var lanes' := lanes + [NOTHING];
    assert forall y :: !Waits(NOTHING, y);
    forall k | 0 <= k < |lanes'| ensures LaneOrdered(lanes'[k], clock) { if k < |lanes| { assert lanes'[k] == lanes[k]; } }
    forall j, k | 0 <= j < k < |lanes'| ensures LaneBefore(lanes'[j], lanes'[k]) {
      if k < |lanes| { assert lanes'[k] == lanes[k] && lanes'[j] == lanes[j]; }
    }
  }

  lemma SwapInOrder(sent: seq<Stamped>, lanes: seq<Lane>, u: UserId)
    requires OrderKept(sent, lanes, u)
    ensures OrderKept(sent, lanes + [NOTHING], u)
  {
    var lanes' := lanes + [NOTHING];
    assert forall y :: !Waits(NOTHING, y);
    forall x, k, y | x in sent && IsOf(x, u) && 0 <= k < |lanes'| && Waits(lanes'[k], y) && IsOf(y, u) ensures x.t < y.t {
      assert k < |lanes| && lanes'[k] == lanes[k];
    }
  }

  lemma ClockTicks(lanes: seq<Lane>, clock: nat)
    requires Chronological(lanes, clock)
    ensures Chronological(lanes, clock + 1)
  {
    forall k | 0 <= k < |lanes| ensures LaneOrdered(lanes[k], clock + 1) { assert LaneOrdered(lanes[k], clock); }
  }

  lemma SendNowInOrderIff(s: State, m: Request, u: UserId)
    requires Dated(s) && OrderKept(s.sent, Lanes(s), u)
    ensures OrderKept(s.sent + [Stamped(m, s.clock)], Lanes(s), u) <==> !Overtakes(s, SendNow(m), u)
  {
    var x, lanes := Stamped(m, s.clock), Lanes(s);
    if Overtakes(s, SendNow(m), u) {
      var k :| 0 <= k < |lanes| && HasOne(lanes[k], u);
      var y :| Waits(lanes[k], y) && IsOf(y, u);
      assert LaneOrdered(lanes[k], s.clock);
      assert x in s.sent + [x] && y.t < x.t;
    } else {
      forall z, k, y | z in s.sent + [x] && IsOf(z, u) && 0 <= k < |lanes| && Waits(lanes[k], y) && IsOf(y, u)
        ensures z.t < y.t
      {
        assert HasOne(lanes[k], u);
        assert z in s.sent;
      }
    }
  }

  lemma HandOverChronological(lanes: seq<Lane>, d: nat, clock: nat)
    requires Chronological(lanes, clock) && d < |lanes| && lanes[d] != NOTHING
    ensures Chronological(lanes[d := LaneRest(lanes[d])], clock)
  {
    var lanes' := lanes[d := LaneRest(lanes[d])];
    LaneRestWaits(lanes[d], clock);
    forall j, k | 0 <= j < k < |lanes'| ensures LaneBefore(lanes'[j], lanes'[k]) {
      assert LaneBefore(lanes[j], lanes[k]);
    }
  }

  /** What is younger than the next request of a lane: all of its lane but older disconnects behind a leave. */
  lemma NextIsOldest(lane: Lane, clock: nat, y: Stamped)
    requires LaneOrdered(lane, clock) && lane != NOTHING && Waits(LaneRest(lane), y)
    ensures LaneNext(lane).t < y.t <==> !(LaneNext(lane) in lane.leaves && y in lane.disconnects && y.t < LaneNext(lane).t)
  {
    if lane.leaves != [] {
      if y in lane.leaves[1..] { HeadIsOldest(lane.leaves, y); }
    } else {
      HeadIsOldest(lane.disconnects, y);
    }
  }

  lemma HeadIsOldest(q: seq<Stamped>, y: Stamped)
    requires Ascending(q) && q != [] && y in q[1..]
    ensures q[0].t < y.t
  {
    var i :| 0 <= i < |q[1..]| && q[1..][i] == y;
    assert q[i + 1] == y;
  }

  lemma HandOverInOrderIff(s: State, d: nat, u: UserId)
    requires Chronological(Lanes(s), s.clock) && OrderKept(s.sent, Lanes(s), u) && d < |s.drains| && s.drains[d] != NOTHING
    ensures OrderKept(s.sent + [LaneNext(s.drains[d])], Lanes(s)[d := LaneRest(s.drains[d])], u) <==> !Overtakes(s, SendNext(d), u)
  {
    if Overtakes(s, SendNext(d), u) { HandOverOvertakes(s, d, u); } else { HandOverKeepsOrder(s, d, u); }
  }

  lemma HandOverOvertakes(s: State, d: nat, u: UserId)
    requires Chronological(Lanes(s), s.clock) && d < |s.drains| && s.drains[d] != NOTHING && Overtakes(s, SendNext(d), u)
    ensures !OrderKept(s.sent + [LaneNext(s.drains[d])], Lanes(s)[d := LaneRest(s.drains[d])], u)
  {
    var lane, x, lanes := s.drains[d], LaneNext(s.drains[d]), Lanes(s);
    var lanes' := lanes[d := LaneRest(lane)];
    assert lanes[d] == lane && LaneOrdered(lane, s.clock);
    LaneRestWaits(lane, s.clock);
    assert x in s.sent + [x];
    if k :| 0 <= k < d && HasOne(s.drains[k], u) {
      var y :| Waits(s.drains[k], y) && IsOf(y, u);
      assert lanes[k] == s.drains[k] && LaneBefore(lanes[k], lanes[d]) && lanes'[k] == lanes[k];
    } else {
      var y :| y in lane.disconnects && IsOf(y, u) && y.t < x.t;
      assert Waits(lanes'[d], y);
    }
  }

  lemma HandOverKeepsOrder(s: State, d: nat, u: UserId)
    requires Chronological(Lanes(s), s.clock) && OrderKept(s.sent, Lanes(s), u) && d < |s.drains| && s.drains[d] != NOTHING
    requires !Overtakes(s, SendNext(d), u)
    ensures OrderKept(s.sent + [LaneNext(s.drains[d])], Lanes(s)[d := LaneRest(s.drains[d])], u)
  {
    var lane, x, lanes := s.drains[d], LaneNext(s.drains[d]), Lanes(s);
    var sent', lanes' := s.sent + [x], lanes[d := LaneRest(lane)];
    assert lanes[d] == lane && LaneOrdered(lane, s.clock);
    LaneRestWaits(lane, s.clock);
    forall z, k, y | z in sent' && IsOf(z, u) && 0 <= k < |lanes'| && Waits(lanes'[k], y) && IsOf(y, u) ensures z.t < y.t {
      assert Waits(lanes[k], y);
      if z !in s.sent { NotOvertaken(s, d, u, k, y); }
    }
    forall i, j | 0 <= i < j < |sent'| && IsOf(sent'[i], u) && IsOf(sent'[j], u) ensures sent'[i].t < sent'[j].t {
      if j == |s.sent| { assert sent'[i] in s.sent && Waits(lanes[d], x); }
    }
  }

  lemma NotOvertaken(s: State, d: nat, u: UserId, k: nat, y: Stamped)
    requires Chronological(Lanes(s), s.clock) && d < |s.drains| && s.drains[d] != NOTHING && k < |Lanes(s)|
    requires !Overtakes(s, SendNext(d), u) && IsOf(LaneNext(s.drains[d]), u) && IsOf(y, u)
    requires Waits(if k == d then LaneRest(s.drains[d]) else Lanes(s)[k], y)
    ensures LaneNext(s.drains[d]).t < y.t
  {
    var lane, lanes := s.drains[d], Lanes(s);
    assert lanes[d] == lane && LaneOrdered(lane, s.clock);
    LaneRestWaits(lane, s.clock);
    if k == d {
      NextIsOldest(lane, s.clock, y);
    } else if k > d {
      assert LaneBefore(lanes[d], lanes[k]);
    }
  }

  lemma StepLanes(s: State, e: Event)
    ensures var s' := Step(s, e);
      Lanes(s') ==
      match e
      case Append(m) =>
        if m in s.deciding then Lanes(s)[|s.drains| := LaneAdd(s.parked, Stamped(m, s.clock))] else Lanes(s)
      case Swap => if s.started > 0 then Lanes(s) + [NOTHING] else Lanes(s)
      case SendNext(d) =>
        if d < |s.drains| && s.drains[d] != NOTHING then Lanes(s)[d := LaneRest(s.drains[d])] else Lanes(s)
      case _ => Lanes(s)
  {
  }

  lemma AppendChronological(s: State, m: Request)
    requires Chronological(Lanes(s), s.clock)
    ensures Chronological(Lanes(Park(s, m)), s.clock + 1)
  {
    var lanes, n := Lanes(s), |s.drains|;
    ParkChronological(lanes, n, m, s.clock);
    assert Lanes(Park(s, m)) == lanes[n := LaneAdd(lanes[n], Stamped(m, s.clock))];
  }

  lemma HandedChronological(s: State, d: nat)
    requires Chronological(Lanes(s), s.clock) && d < |s.drains| && s.drains[d] != NOTHING
    ensures Chronological(Lanes(HandOver(s, d)), s.clock)
  {
    assert Lanes(s)[d] == s.drains[d];
    HandOverChronological(Lanes(s), d, s.clock);
    assert Lanes(HandOver(s, d)) == Lanes(s)[d := LaneRest(s.drains[d])];
  }

  lemma StepChronological(s: State, e: Event)
    requires Chronological(Lanes(s), s.clock)
    ensures Chronological(Lanes(Step(s, e)), Step(s, e).clock)
  {
    match e
    case Append(m) => if m in s.deciding { AppendChronological(s, m); }
    case SendNow(m) => ClockTicks(Lanes(s), s.clock);
    case Swap =>
      if s.started > 0 {
        SwapChronological(Lanes(s), s.clock);
        StepLanes(s, e);
      }
    case SendNext(d) => if d < |s.drains| && s.drains[d] != NOTHING { HandedChronological(s, d); }
    case _ =>
  }

  lemma StepSentDated(s: State, e: Event)
    requires Dated(s)
    ensures forall x :: x in Step(s, e).sent ==> x.t < Step(s, e).clock
  {
    if e.SendNext? && e.d < |s.drains| && s.drains[e.d] != NOTHING { NextIsDated(s, e.d); }
  }

  /** Every step keeps the lists chronological. */
  lemma StepKeepsDated(s: State, e: Event)
    requires Dated(s)
    ensures Dated(Step(s, e))
  {
    StepChronological(s, e);
    StepSentDated(s, e);
  }

  lemma NextIsDated(s: State, d: nat)
    requires Dated(s) && d < |s.drains| && s.drains[d] != NOTHING
    ensures LaneNext(s.drains[d]).t < s.clock
  {
    assert Lanes(s)[d] == s.drains[d] && LaneOrdered(s.drains[d], s.clock);
    LaneRestWaits(s.drains[d], s.clock);
  }

  /** Each step keeps the order of a user's requests exactly when it overtakes nothing. */
  lemma StepKeepsOrderIff(s: State, e: Event, u: UserId)
    requires Dated(s) && OrderKept(s.sent, Lanes(s), u)
    ensures OrderKept(Step(s, e).sent, Lanes(Step(s, e)), u) <==> !Overtakes(s, e, u)
  {
    StepLanes(s, e);
    assert Lanes(s)[|s.drains|] == s.parked;
    match e
    case Append(m) => if m in s.deciding { ParkInOrder(s.sent, Lanes(s), |s.drains|, m, s.clock, u); }
    case SendNow(m) => SendNowInOrderIff(s, m, u);
    case Swap => if s.started > 0 { SwapInOrder(s.sent, Lanes(s), u); }
    case SendNext(d) => if d < |s.drains| && s.drains[d] != NOTHING { HandOverInOrderIff(s, d, u); }
    case _ =>
  }

  /** In every interleaving in which nothing overtakes, a user's requests are sent in the order of issue. */
  lemma {:induction false} RunKeepsOrder(es: seq<Event>, u: UserId)
    requires forall i :: 0 <= i < |es| ==> !Overtakes(Run(es[..i]), es[i], u)
    ensures Dated(Run(es)) && OrderKept(Run(es).sent, Lanes(Run(es)), u)
    decreases |es|
  {
    if es != [] {
      var front := es[..|es| - 1];
      assert forall i :: 0 <= i < |front| ==> front[i] == es[i] && front[..i] == es[..i];
      RunKeepsOrder(front, u);
      StepKeepsDated(Run(front), es[|es| - 1]);
      StepKeepsOrderIff(Run(front), es[|es| - 1], u);
    }
  }

  // ---------------------------------------------------------------- the handlers of the Gateway

  function Requests(q: seq<Stamped>): seq<Request> {
    seq(|q|, i requires 0 <= i < |q| => q[i].m)
  }

  /** The parked requests are the Gateway's. */
  ghost predicate Matches(s: State, gw: Gw) {
    && s.degraded == gw.degraded
    && Requests(s.parked.leaves) == LeaveRequests(gw.pendingLeaves)
    && Requests(s.parked.disconnects) == DisconnectRequests(gw.pendingDisconnects, gw.id)
  }

  /** A leave handled in one go while degraded is a check and an append. */
  lemma LeaveMatches(s: State, gw: Gw, c: ConnId, r: RoomId)
    requires Matches(s, gw) && gw.degraded && c in gw.conns
    ensures var m := LeaveReq(gw.conns[c].userId, r);
      Matches(Step(Step(s, CheckStatus(m)), Append(m)), HandleLeave(gw, c, r))
  {
    var m := LeaveReq(gw.conns[c].userId, r);
    assert Requests(s.parked.leaves + [Stamped(m, s.clock)]) == Requests(s.parked.leaves) + [m];
    assert LeaveRequests(gw.pendingLeaves + [UserRoomPair(m.u, r)]) == LeaveRequests(gw.pendingLeaves) + [m];
  }

  /** So is a disconnect reported while degraded. */
  lemma DisconnectMatches(s: State, gw: Gw, u: UserId, r: RoomId)
    requires Matches(s, gw) && gw.degraded
    ensures var m := DisconnectReq(u, r, gw.id);
      Matches(Step(Step(s, CheckStatus(m)), Append(m)), NotifyDisconnect(gw, u, r))
  {
    var m := DisconnectReq(u, r, gw.id);
    assert Requests(s.parked.disconnects + [Stamped(m, s.clock)]) == Requests(s.parked.disconnects) + [m];
    assert DisconnectRequests(gw.pendingDisconnects + [UserRoomPair(u, r)], gw.id)
        == DisconnectRequests(gw.pendingDisconnects, gw.id) + [m];
  }

  /** The sends of a drain, to the end and undisturbed. */
  function Finish(s: State, d: nat): State
    requires d < |s.drains|
    decreases |s.drains[d].leaves| + |s.drains[d].disconnects|
  {
    if s.drains[d] == NOTHING then s else Finish(Step(s, SendNext(d)), d)
  }

  lemma {:induction false} FinishSends(s: State, d: nat)
    requires d < |s.drains|
    ensures Requests(Finish(s, d).sent)
         == Requests(s.sent) + (Requests(s.drains[d].leaves) + Requests(s.drains[d].disconnects))
    ensures Finish(s, d).parked == s.parked && Finish(s, d).degraded == s.degraded
    decreases |s.drains[d].leaves| + |s.drains[d].disconnects|
  {
    var lane := s.drains[d];
    if lane != NOTHING {
      var s' := HandOver(s, d);
      FinishSends(s', d);
      assert s'.drains[d] == LaneRest(lane);
      SendsNext(Requests(s.sent), s.sent, lane);
    }
  }

  lemma SendsNext(before: seq<Request>, sent: seq<Stamped>, lane: Lane)
    requires lane != NOTHING && before == Requests(sent)
    ensures Requests(sent + [LaneNext(lane)]) + (Requests(LaneRest(lane).leaves) + Requests(LaneRest(lane).disconnects))
         == before + (Requests(lane.leaves) + Requests(lane.disconnects))
  {
    var x, rest := LaneNext(lane), LaneRest(lane);
    assert Requests(sent + [x]) == before + [x.m];
    assert Requests(lane.leaves) + Requests(lane.disconnects) == [x.m] + (Requests(rest.leaves) + Requests(rest.disconnects));
  }

  /** A drain that nothing disturbs is the Gateway's: it sends the parked requests, leaves first, and nothing stays parked. */
  lemma DrainMatches(s: State, gw: Gw)
    requires Matches(s, gw) && s.started > 0
    ensures var s' := Finish(Step(s, Swap), |s.drains|);
      Requests(s'.sent) == Requests(s.sent) + Parked(gw) && s'.parked == NOTHING
  {
    var swapped := Step(s, Swap);
    assert swapped.drains[|s.drains|] == s.parked;
    FinishSends(swapped, |s.drains|);
  }
}
