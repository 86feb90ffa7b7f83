/** From accepted frames to the client: codec, packing, batching and write outcomes together. */
module Delivery {
  import opened Ids
  import opened Frames
  import opened QueueShares
  import opened ClientConnection

  function Datas(batch: seq<Msg>): (datas: seq<seq<Byte>>)
    ensures |datas| == |batch|
  {
    seq(|batch|, i requires 0 <= i < |batch| => batch[i].data)
  }

  /** The bytes of one socket write. */
  function WireBytes(batch: seq<Msg>): seq<Byte> {
    Flatten(Datas(batch))
  }

  /** Message `i` carries the encoding of frame `i`. */
  ghost predicate Carries(messages: seq<Msg>, frames: seq<Frame>) {
    |messages| == |frames| && InBounds(frames) && forall i :: 0 <= i < |messages| ==> messages[i].data == Encode(frames[i])
  }

  lemma BatchReadBack(batch: seq<Msg>, frames: seq<Frame>)
    requires Carries(batch, frames)
    ensures ReadAll(WireBytes(batch)) == (frames, [])
  {
    assert Datas(batch) == Encodings(frames);
    PackedRoundTrip(frames);
  }

  // ---------------------------------------------------------------- what the client reads

  /** The frames a client reads: those of the writes that succeeded, one write after the other. */
  function FramesRead(flushed: seq<seq<Msg>>, outcomes: seq<Outcome>): seq<Frame>
    requires |flushed| == |outcomes|
  {
    if flushed == [] then []
    else
      FramesRead(flushed[..|flushed| - 1], outcomes[..|flushed| - 1])
      + (if outcomes[|flushed| - 1] == Written then ReadAll(WireBytes(flushed[|flushed| - 1])).0 else [])
  }

  /** Which of the accepted messages those are, by position. */
  function Positions(flushed: seq<seq<Msg>>, outcomes: seq<Outcome>): seq<nat>
    requires |flushed| == |outcomes|
  {
    if flushed == [] then []
    else
      var n, start := |flushed[|flushed| - 1]|, |Flatten(flushed[..|flushed| - 1])|;
      Positions(flushed[..|flushed| - 1], outcomes[..|flushed| - 1])
      + (if outcomes[|flushed| - 1] == Written then seq(n, i requires 0 <= i => start + i) else [])
  }

  lemma {:induction false} PositionsInRange(flushed: seq<seq<Msg>>, outcomes: seq<Outcome>)
    requires |flushed| == |outcomes|
    ensures forall p :: p in Positions(flushed, outcomes) ==> p < |Flatten(flushed)|
    ensures |Positions(flushed, outcomes)| <= |Flatten(flushed)|
    decreases |flushed|
  {
    if flushed != [] { PositionsInRange(flushed[..|flushed| - 1], outcomes[..|flushed| - 1]); }
  }

  /** The client reads exactly the accepted frames at those positions, whatever the outcomes. */
  lemma {:induction false} FramesReadAt(flushed: seq<seq<Msg>>, outcomes: seq<Outcome>, frames: seq<Frame>)
    requires |flushed| == |outcomes| && Carries(Flatten(flushed), frames)
    ensures |FramesRead(flushed, outcomes)| == |Positions(flushed, outcomes)|
    ensures forall i :: 0 <= i < |Positions(flushed, outcomes)| ==>
      Positions(flushed, outcomes)[i] < |frames|
      && FramesRead(flushed, outcomes)[i] == frames[Positions(flushed, outcomes)[i]]
    decreases |flushed|
  {
    if flushed != [] {
      var front, batch, before := flushed[..|flushed| - 1], flushed[|flushed| - 1], outcomes[..|flushed| - 1];
      var k := |Flatten(front)|;
      CarriesSplit(Flatten(front), batch, frames);
      FramesReadAt(front, before, frames[..k]);
      BatchReadBack(batch, frames[k..]);
    }
  }

  lemma CarriesSplit(a: seq<Msg>, b: seq<Msg>, frames: seq<Frame>)
    requires Carries(a + b, frames)
    ensures Carries(a, frames[..|a|]) && Carries(b, frames[|a|..])
  {
    forall i | 0 <= i < |a| ensures a[i].data == Encode(frames[..|a|][i]) { assert (a + b)[i] == a[i]; }
    forall i | 0 <= i < |b| ensures b[i].data == Encode(frames[|a|..][i]) { assert (a + b)[|a| + i] == b[i]; }
  }

  // ---------------------------------------------------------------- when that is a prefix

  /** No write succeeds after one that did not. */
  ghost predicate NoWriteAfterLoss(outcomes: seq<Outcome>) {
    forall i, j :: 0 <= i < j < |outcomes| && outcomes[j] == Written ==> outcomes[i] == Written
  }

  ghost predicate AllWritten(outcomes: seq<Outcome>) {
    forall i :: 0 <= i < |outcomes| ==> outcomes[i] == Written
  }

  /** The positions are 0, 1, 2, ...: nothing accepted earlier is missing. */
  ghost predicate Initial(positions: seq<nat>) {
    forall i :: 0 <= i < |positions| ==> positions[i] == i
  }

  /** All accepted messages handed over so far are read exactly when every write succeeded. */
  lemma {:induction false} ReadAllIff(flushed: seq<seq<Msg>>, outcomes: seq<Outcome>)
    requires |flushed| == |outcomes| && forall i :: 0 <= i < |flushed| ==> flushed[i] != []
    ensures AllWritten(outcomes) <==> |Positions(flushed, outcomes)| == |Flatten(flushed)|
    ensures AllWritten(outcomes) ==> Initial(Positions(flushed, outcomes))
    decreases |flushed|
  {
    if flushed != [] {
      var n := |flushed| - 1;
      assert outcomes == outcomes[..n] + [outcomes[n]];
      ReadAllIff(flushed[..n], outcomes[..n]);
      PositionsInRange(flushed[..n], outcomes[..n]);
    }
  }

  /** The client has read the first accepted messages, with none missing, exactly when no write succeeded after a loss. */
  lemma {:induction false} NoGapIff(flushed: seq<seq<Msg>>, outcomes: seq<Outcome>)
    requires |flushed| == |outcomes| && forall i :: 0 <= i < |flushed| ==> flushed[i] != []
    ensures Initial(Positions(flushed, outcomes)) <==> NoWriteAfterLoss(outcomes)
    decreases |flushed|
  {
    if flushed != [] {
      var n := |flushed| - 1;
      var front, before, last := flushed[..n], outcomes[..n], outcomes[n];
      assert outcomes == before + [last];
      NoGapIff(front, before);
      ReadAllIff(front, before);
      var p, q := Positions(front, before), Positions(flushed, outcomes);
      assert forall i :: 0 <= i < |p| ==> q[i] == p[i];
      if last == Written {
        assert q[|p|] == |Flatten(front)|;
        assert NoWriteAfterLoss(outcomes) <==> AllWritten(before);
        if AllWritten(before) { assert Initial(q); }
      }
    }
  }

  /**
   * What a client of a connection has read is a prefix of the accepted frames if
   * no write succeeded after a loss; for frames that are all different, only then.
   */
  lemma ClientReadsPrefixIff(c: Connection, frames: seq<Frame>)
    requires c.Valid() && Carries(c.accepted, frames)
    ensures NoWriteAfterLoss(c.outcomes) ==> FramesRead(c.flushed, c.outcomes) <= frames
    ensures NoRepeats(frames) ==>
      (FramesRead(c.flushed, c.outcomes) <= frames <==> NoWriteAfterLoss(c.outcomes))
  {
    var sent := Flatten(c.flushed);
    assert c.accepted == sent + (c.batch + c.sendCh);
    CarriesSplit(sent, c.batch + c.sendCh, frames);
    var read, positions := FramesRead(c.flushed, c.outcomes), Positions(c.flushed, c.outcomes);
    FramesReadAt(c.flushed, c.outcomes, frames[..|sent|]);
    PositionsInRange(c.flushed, c.outcomes);
    NoGapIff(c.flushed, c.outcomes);
    if read <= frames && NoRepeats(frames) {
      forall i | 0 <= i < |positions| ensures positions[i] == i {
        assert frames[positions[i]] == read[i] == frames[i];
      }
    }
  }

  /** A socket that keeps its first write error: after a write that did not succeed the next does not either. */
  ghost predicate KeepsError(outcomes: seq<Outcome>) {
    forall i :: 0 <= i < |outcomes| - 1 && outcomes[i] != Written ==> outcomes[i + 1] != Written
  }

  lemma {:induction false} ErrorStays(outcomes: seq<Outcome>, i: nat, j: nat)
    requires KeepsError(outcomes) && i <= j < |outcomes| && outcomes[i] != Written
    ensures outcomes[j] != Written
    decreases j
  {
    if i < j { ErrorStays(outcomes, i, j - 1); }
  }

  /** On such a socket the client always reads a prefix of the accepted frames. */
  lemma PrefixOnKeptError(c: Connection, frames: seq<Frame>)
    requires c.Valid() && Carries(c.accepted, frames) && KeepsError(c.outcomes)
    ensures FramesRead(c.flushed, c.outcomes) <= frames
  {
    forall i, j | 0 <= i < j < |c.outcomes| && c.outcomes[j] == Written ensures c.outcomes[i] == Written {
      if c.outcomes[i] != Written { ErrorStays(c.outcomes, i, j); }
    }
    ClientReadsPrefixIff(c, frames);
  }

  /** What has been handed to the socket, read or not, is exactly the first frames accepted. */
  lemma SocketIsHandedPrefix(c: Connection, frames: seq<Frame>)
    requires c.Valid() && Carries(c.accepted, frames)
    ensures |Flatten(c.flushed)| <= |frames|
    ensures Carries(Flatten(c.flushed), frames[..|Flatten(c.flushed)|])
  {
    var sent := Flatten(c.flushed);
    assert c.accepted == sent + (c.batch + c.sendCh);
    CarriesSplit(sent, c.batch + c.sendCh, frames);
  }

  lemma SecondWriteOnly(m: Msg, m': Msg, f: Frame, f': Frame)
    requires Carries([m, m'], [f, f']) && f != f'
    ensures FramesRead([[m], [m']], [TimedOut, Written]) == [f'] && !([f'] <= [f, f'])
  {
    assert [[m], [m']][..1] == [[m]] && [TimedOut, Written][..1] == [TimedOut];
    assert [[m]][..0] == [] && [TimedOut][..0] == [];
    assert FramesRead([[m]], [TimedOut]) == [];
    assert [m, m'][1] == m' && [f, f'][1] == f';
    BatchReadBack([m'], [f']);
    assert [f'][0] != [f, f'][0];
  }

  /** On a socket that still writes after a timeout, a run that loses a frame: the first write times out, the second succeeds. */
  method TimeoutLosesFrame(f: Frame, f': Frame) returns (c: Connection)
    requires InBounds([f, f']) && f != f'
    ensures c.Valid() && c.open && Carries(c.accepted, [f, f'])
    ensures FramesRead(c.flushed, c.outcomes) == [f'] && !(FramesRead(c.flushed, c.outcomes) <= [f, f'])
  {
    var m, m' := Msg(Critical, Encode(f)), Msg(Critical, Encode(f'));
    c := LossyRun(m, m');
    SecondWriteOnly(m, m', f, f');
  }

  method LossyRun(m: Msg, m': Msg) returns (c: Connection)
    ensures c.Valid() && c.open && c.accepted == [m, m']
    ensures c.flushed == [[m], [m']] && c.outcomes == [TimedOut, Written]
  {
    c := new Connection(10, 1, 10);
    SendAndWrite(c, m, TimedOut);
    SendAndWrite(c, m', Written);
  }

  /** One message through a connection that writes every message by itself and tolerates a timeout. */
  method SendAndWrite(c: Connection, m: Msg, outcome: Outcome)
    requires c.Valid() && c.open && c.looping && c.batch == [] && c.sendCh == [] && c.capacity > 0
    requires c.batchMaxSize == 1 && outcome != Failed && c.consecutiveWriteTimeouts + 1 < c.maxConsecutiveWriteTimeouts
    modifies c
    ensures c.Valid() && c.open && c.looping && c.batch == [] && c.sendCh == []
    ensures c.accepted == old(c.accepted) + [m]
    ensures c.flushed == old(c.flushed) + [[m]] && c.outcomes == old(c.outcomes) + [outcome]
    ensures c.consecutiveWriteTimeouts == NextTimeouts(old(c.consecutiveWriteTimeouts), outcome)
  {
    var _ := c.Send(m, 0);
    assert c.sendCh == [m] && c.batch + [m] == [m];
    c.OnMessage(outcome, 0);
  }
}
