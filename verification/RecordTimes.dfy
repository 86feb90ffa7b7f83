/** Which clock reading each recorded time is. */
module RecordTimes {
  import opened Ids
  import opened Sessions
  import opened Rooms
  import opened Roomserver

  function RunBefore(es: seq<Event>): State
    requires es != []
  {
    Run(EMPTY, es[..|es| - 1])
  }

  /** The session reading of the join or resume that gave `u` the session it has. */
  function ConnectReading(es: seq<Event>, u: UserId): Option<Time>
    decreases |es|
  {
    if es == [] then None
    else if u in RunBefore(es).sessions then ConnectReading(es[..|es| - 1], u)
    else
      match es[|es| - 1]
      case JoinEvent(_, _, _, _, sessionTime) => Some(sessionTime)
      case _ => None
  }

  /** The room reading of the latest join of `r` by `u`. */
  function JoinReading(es: seq<Event>, u: UserId, r: RoomId): Option<Time>
    decreases |es|
  {
    if es == [] then None
    else
      var e := es[|es| - 1];
      if e.JoinEvent? && e.u == u && e.r == r then Some(e.roomTime) else JoinReading(es[..|es| - 1], u, r)
  }

  /** The room reading of the latest disconnect from `r` of `u` that was handled while `u` was a member. */
  function LeftReading(es: seq<Event>, u: UserId, r: RoomId): Option<Time>
    decreases |es|
  {
    if es == [] then None
    else
      var e := es[|es| - 1];
      if e.DisconnectEvent? && e.u == u && e.r == r && InRoom(RunBefore(es).rooms, r, u) then Some(e.roomTime)
      else LeftReading(es[..|es| - 1], u, r)
  }

  /** In every run a session carries the reading of its creation, and no disconnect time while it is online. */
  lemma {:induction false} SessionTimes(es: seq<Event>, u: UserId)
    requires u in Run(EMPTY, es).sessions
    ensures ConnectReading(es, u) == Some(Run(EMPTY, es).sessions[u].connectedAt)
    ensures Run(EMPTY, es).sessions[u].status == Online ==> Run(EMPTY, es).sessions[u].disconnectedAt == 0
    decreases |es|
  {
    if u in RunBefore(es).sessions { SessionTimes(es[..|es| - 1], u); }
    StepSessionTimes(RunBefore(es), es[|es| - 1], u);
  }

  /** What one event does to the times of a session. */
  lemma StepSessionTimes(s: State, e: Event, u: UserId)
    requires u in Step(s, e).sessions
    ensures var session := Step(s, e).sessions[u];
      && (if u in s.sessions then session.connectedAt == s.sessions[u].connectedAt
          else e.JoinEvent? && session.connectedAt == e.sessionTime)
      && (session.status == Online ==> session.disconnectedAt == 0 || (u in s.sessions && session == s.sessions[u]))
  {
  }

  /** In every run a member carries the reading of its latest join, and while disconnected that of its latest disconnect. */
  lemma {:induction false} MemberTimes(es: seq<Event>, u: UserId, r: RoomId)
    requires InRoom(Run(EMPTY, es).rooms, r, u)
    ensures var m := Run(EMPTY, es).rooms[r].members[u];
      && JoinReading(es, u, r) == Some(m.joinTime)
      && (if m.status == Online then m.disconnectTime == 0 else LeftReading(es, u, r) == Some(m.disconnectTime))
    decreases |es|
  {
    if InRoom(RunBefore(es).rooms, r, u) { MemberTimes(es[..|es| - 1], u, r); }
    StepMemberTimes(RunBefore(es), es[|es| - 1], u, r);
  }

  /** What one event does to the times of a member. */
  lemma StepMemberTimes(s: State, e: Event, u: UserId, r: RoomId)
    requires InRoom(Step(s, e).rooms, r, u)
    ensures var m := Step(s, e).rooms[r].members[u];
      if e.JoinEvent? && e.u == u && e.r == r then m.joinTime == e.roomTime && m.status == Online && m.disconnectTime == 0
      else
        && InRoom(s.rooms, r, u) && m.joinTime == s.rooms[r].members[u].joinTime
        && if e.DisconnectEvent? && e.u == u && e.r == r then m.status == Disconnected && m.disconnectTime == e.roomTime
           else m == s.rooms[r].members[u] || (m.status == Online && m.disconnectTime == 0)
  {
  }
}
