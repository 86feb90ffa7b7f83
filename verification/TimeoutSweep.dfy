/** The timeout sweep removes exactly the users that are disconnected for the timeout or longer. */
module TimeoutSweep {
  import opened Ids
  import opened Sessions
  import opened Roomserver
  import opened RoomserverRuns

  /** No session and no membership is left of `u`. */
  ghost predicate Gone(s: State, u: UserId) {
    u !in s.sessions && forall r :: MemberAt(s.rooms, r, u) == None
  }

  ghost predicate NonDecreasing(clock: seq<Time>) {
    forall i, j :: 0 <= i <= j < |clock| ==> clock[i] <= clock[j]
  }

  /** The fate of `u` when its turn comes at time `now`: gone if timed out, untouched if not. */
  ghost predicate Judged(s: State, s': State, u: UserId, now: Time, timeout: Time) {
    if TimedOut(s, u, now, timeout) then Gone(s', u) else Untouched(s, s', u)
  }

  lemma UntouchedCarries(s: State, s': State, s'': State, u: UserId, now: Time, timeout: Time)
    requires Untouched(s', s'', u)
    ensures Untouched(s, s', u) ==> Untouched(s, s'', u)
    ensures Gone(s', u) ==> Gone(s'', u)
    ensures Judged(s, s', u, now, timeout) ==> Judged(s, s'', u, now, timeout)
  {
  }

  lemma JudgedOnOwnTurn(s: State, before: State, u: UserId, now: Time, timeout: Time)
    requires Mirror(before) && Untouched(s, before, u)
    ensures Mirror(Expire(before, u, now, timeout)) && Judged(s, Expire(before, u, now, timeout), u, now, timeout)
  {
  }

  /** After `k` turns the first `k` users are judged by their own reading, all others untouched. */
  lemma {:induction false} SweepPrefix(s: State, ids: seq<UserId>, clock: seq<Time>, timeout: Time, k: nat)
    requires Mirror(s) && NoRepeats(ids) && |clock| == |ids| && k <= |ids|
    ensures Mirror(Run(s, SweepEvents(ids, clock, timeout)[..k]))
    ensures forall i :: 0 <= i < k ==> Judged(s, Run(s, SweepEvents(ids, clock, timeout)[..k]), ids[i], clock[i], timeout)
    ensures forall u :: u !in ids[..k] ==> Untouched(s, Run(s, SweepEvents(ids, clock, timeout)[..k]), u)
  {
    var es := SweepEvents(ids, clock, timeout);
    if k > 0 {
      SweepPrefix(s, ids, clock, timeout, k - 1);
      RunSnoc(s, es, k - 1);
      var before, after, e := Run(s, es[..k - 1]), Run(s, es[..k]), es[k - 1];
      var last := ids[k - 1];
      assert e == ExpireEvent(last, clock[k - 1], timeout);
      assert last !in ids[..k - 1];
      JudgedOnOwnTurn(s, before, last, clock[k - 1], timeout);
      forall i | 0 <= i < k ensures Judged(s, after, ids[i], clock[i], timeout) {
        if i < k - 1 {
          StepConcernsOneUser(before, e, ids[i]);
          UntouchedCarries(s, before, after, ids[i], clock[i], timeout);
        }
      }
      forall u | u !in ids[..k] ensures Untouched(s, after, u) {
        assert ids[..k] == ids[..k - 1] + [last];
        StepConcernsOneUser(before, e, u);
        UntouchedCarries(s, before, after, u, 0, timeout);
      }
    } else {
      assert es[..0] == [];
    }
  }

  // ---------------------------------------------------------------- disconnected since when

  /** The session reading of the latest disconnect of `u` that was handled while `u` had a session. */
  function LastDisconnect(es: seq<Event>, u: UserId): Option<Time>
    decreases |es|
  {
    if es == [] then None
    else
      var front, e := es[..|es| - 1], es[|es| - 1];
      if e.DisconnectEvent? && e.u == u && u in Run(EMPTY, front).sessions then Some(e.sessionTime)
      else LastDisconnect(front, u)
  }

  /** In every run a disconnected session carries that reading. */
  lemma {:induction false} DisconnectReading(es: seq<Event>, u: UserId)
    ensures u in Run(EMPTY, es).sessions && Run(EMPTY, es).sessions[u].status == Disconnected ==>
      LastDisconnect(es, u) == Some(Run(EMPTY, es).sessions[u].disconnectedAt)
    decreases |es|
  {
    if es != [] { DisconnectReading(es[..|es| - 1], u); }
  }

  /** Since when a user is disconnected, if it is. */
  function Away(es: seq<Event>, u: UserId): Option<Time> {
    var s := Run(EMPTY, es);
    if u in s.sessions && s.sessions[u].status == Disconnected then LastDisconnect(es, u) else None
  }

  lemma TimedOutIff(es: seq<Event>, u: UserId, now: Time, timeout: Time)
    ensures TimedOut(Run(EMPTY, es), u, now, timeout) <==> Away(es, u).Some? && now - Away(es, u).value >= timeout
  {
    DisconnectReading(es, u);
  }

  /**
   * In every run, a turn of the sweep removes a user exactly when the user is
   * disconnected and its latest disconnect is at least the timeout ago; the user
   * then loses its membership too, and otherwise nothing changes.
   */
  lemma ExpireRemovesIff(es: seq<Event>, u: UserId, now: Time, timeout: Time)
    ensures var s, s' := Run(EMPTY, es), Run(EMPTY, es + [ExpireEvent(u, now, timeout)]);
      && (u in s.sessions && u !in s'.sessions <==> Away(es, u).Some? && now - Away(es, u).value >= timeout)
      && (if u in s.sessions && u !in s'.sessions then MemberAt(s'.rooms, s.sessions[u].roomId, u) == None else s' == s)
  {
    TimedOutIff(es, u, now, timeout);
    assert (es + [ExpireEvent(u, now, timeout)])[..|es|] == es;
  }

  /**
   * A whole sweep after any run that keeps the mirror, under a non-decreasing
   * clock: a user whose latest disconnect is the timeout ago when the sweep starts
   * is gone; one that is connected, or still under the timeout when it ends, is
   * untouched; and rooms and sessions still mirror each other.
   */
  lemma SweepIsExact(es: seq<Event>, ids: seq<UserId>, clock: seq<Time>, timeout: Time, u: UserId)
    requires Mirror(Run(EMPTY, es)) && Enumerates(ids, Run(EMPTY, es).sessions.Keys)
    requires |clock| == |ids| && NonDecreasing(clock)
    ensures var s := Run(EMPTY, es);
      var s' := Run(s, SweepEvents(ids, clock, timeout));
      && Mirror(s')
      && (u in ids && Away(es, u).Some? && clock[0] - Away(es, u).value >= timeout ==> Gone(s', u))
      && (u in ids && Away(es, u).Some? && clock[|ids| - 1] - Away(es, u).value < timeout ==> Untouched(s, s', u))
      && (Away(es, u).None? ==> Untouched(s, s', u))
  {
    SweepJudges(Run(EMPTY, es), ids, clock, timeout, u);
    DisconnectReading(es, u);
  }

  /** A whole sweep, by the timeout test at its start and at its end. */
  lemma SweepJudges(s: State, ids: seq<UserId>, clock: seq<Time>, timeout: Time, u: UserId)
    requires Mirror(s) && Enumerates(ids, s.sessions.Keys) && |clock| == |ids| && NonDecreasing(clock)
    ensures Mirror(Run(s, SweepEvents(ids, clock, timeout)))
    ensures u in ids && TimedOut(s, u, clock[0], timeout) ==> Gone(Run(s, SweepEvents(ids, clock, timeout)), u)
    ensures (u in ids && !TimedOut(s, u, clock[|ids| - 1], timeout))
              ==> Untouched(s, Run(s, SweepEvents(ids, clock, timeout)), u)
    ensures !IsDisconnected(s.sessions, u) ==> Untouched(s, Run(s, SweepEvents(ids, clock, timeout)), u)
  {
    var es := SweepEvents(ids, clock, timeout);
    SweepPrefix(s, ids, clock, timeout, |ids|);
    assert es[..|ids|] == es && ids[..|ids|] == ids;
    if u in ids {
      var i :| 0 <= i < |ids| && ids[i] == u;
      assert Judged(s, Run(s, es), ids[i], clock[i], timeout);
      assert clock[0] <= clock[i] <= clock[|ids| - 1];
    }
  }
}
