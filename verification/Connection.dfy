/** A client connection: the bounded send queue, its health counters, and the batching write loop. */
module ClientConnection {
  import opened Ids
  import opened Frames
  import opened QueueShares

  /** What the socket reports for one write. */
  datatype Outcome = Written | TimedOut | Failed

  /** The run of consecutive timed-out writes after one more write. */
  function NextTimeouts(n: nat, outcome: Outcome): nat {
    match outcome
    case Written => 0
    case TimedOut => n + 1
    case Failed => n
  }

  function Largest(a: int, b: int): int {
    if a < b then b else a
  }

  /** Flushing moves the batch behind what was flushed before, ahead of the queue. */
  lemma FlushMoves(flushed: seq<seq<Msg>>, batch: seq<Msg>, queue: seq<Msg>)
    ensures Flatten(flushed + [batch]) + [] + queue == Flatten(flushed) + batch + queue
  {
    FlattenSnoc(flushed, batch);
  }

  /** Taking a message moves it from the front of the queue to the end of the batch. */
  lemma TakeMoves(sent: seq<Msg>, batch: seq<Msg>, queue: seq<Msg>)
    requires queue != []
    ensures sent + batch + queue == sent + (batch + [queue[0]]) + queue[1..]
  {
    assert queue == [queue[0]] + queue[1..];
  }

  /** Both at once: a message taken into a batch that is then flushed. */
  lemma TakeAndFlushMove(flushed: seq<seq<Msg>>, batch: seq<Msg>, queue: seq<Msg>)
    requires queue != []
    ensures Flatten(flushed + [batch + [queue[0]]]) + [] + queue[1..] == Flatten(flushed) + batch + queue
  {
    TakeMoves(Flatten(flushed), batch, queue);
    FlushMoves(flushed, batch + [queue[0]], queue[1..]);
  }

  class Connection {
    const capacity: nat
    const batchMaxSize: int
    const maxConsecutiveWriteTimeouts: int

    var sendCh: seq<Msg>
    /** The write loop's local batch; empty once the loop has ended. */
    var batch: seq<Msg>
    var open: bool
    var looping: bool

    var dropCount: nat
    var consecutiveDrops: nat
    var queueFullSince: Option<Time>
    var writeTimeoutCount: nat
    var consecutiveWriteTimeouts: nat
    var lastWriteTime: Option<Time>

    /** The batches handed to the socket, in order, and what the socket reported for each. */
    var flushed: seq<seq<Msg>>
    var outcomes: seq<Outcome>
    /** Every message that `Send` accepted, in order. */
    ghost var accepted: seq<Msg>

    function BatchLimit(): int {
      Largest(1, batchMaxSize)
    }

    /**
     * FIFO conservation: what was accepted is what was flushed, then the
     * current batch, then the queue, in this order.
     */
    ghost predicate Valid()
      reads this
    {
      && |sendCh| <= capacity
      && |outcomes| == |flushed|
      && accepted == Flatten(flushed) + batch + sendCh
      && (forall i :: 0 <= i < |flushed| ==> 1 <= |flushed[i]| <= BatchLimit())
      && |batch| < BatchLimit()
      && (open ==> consecutiveWriteTimeouts < Largest(1, maxConsecutiveWriteTimeouts))
      && (!looping ==> batch == [])
    }

    constructor (capacity: nat, batchMaxSize: int, maxConsecutiveWriteTimeouts: int)
      ensures Valid() && open && looping && accepted == [] && flushed == [] && batch == [] && sendCh == []
      ensures dropCount == 0 && consecutiveDrops == 0 && queueFullSince == None
      ensures writeTimeoutCount == 0 && consecutiveWriteTimeouts == 0 && lastWriteTime == None
      ensures this.capacity == capacity && this.batchMaxSize == batchMaxSize
      ensures this.maxConsecutiveWriteTimeouts == maxConsecutiveWriteTimeouts
    {
      this.capacity, this.batchMaxSize := capacity, batchMaxSize;
      this.maxConsecutiveWriteTimeouts := maxConsecutiveWriteTimeouts;
      sendCh, batch, flushed, outcomes, accepted := [], [], [], [], [];
      open, looping := true, true;
      dropCount, consecutiveDrops, queueFullSince := 0, 0, None;
      writeTimeoutCount, consecutiveWriteTimeouts, lastWriteTime := 0, 0, None;
    }

    /** Non-blocking send: refused exactly when the queue is full. */
    method Send(m: Msg, now: Time) returns (ok: bool)
      requires Valid()
      modifies `sendCh, `accepted, `dropCount, `consecutiveDrops, `queueFullSince
      ensures Valid()
      ensures ok <==> |old(sendCh)| < capacity
      ensures sendCh == Push(old(sendCh), capacity, m)
      ensures accepted == if ok then old(accepted) + [m] else old(accepted)
      ensures ok ==> consecutiveDrops == 0 && queueFullSince == None && dropCount == old(dropCount)
      ensures !ok ==> consecutiveDrops == old(consecutiveDrops) + 1 && dropCount == old(dropCount) + 1
      ensures !ok ==> queueFullSince == if old(queueFullSince).None? then Some(now) else old(queueFullSince)
    {
      ok := |sendCh| < capacity;
      if ok {
        sendCh := sendCh + [m];
        accepted := accepted + [m];
        consecutiveDrops := 0;
        queueFullSince := None;
      } else {
        dropCount := dropCount + 1;
        consecutiveDrops := consecutiveDrops + 1;
        if queueFullSince.None? {
          queueFullSince := Some(now);
        }
      }
    }

    /**
     * The Kafka dispatch path: dropped by priority and queue usage without a
     * trace, or sent.
     */
    method DispatchToUser(data: seq<Byte>, priority: string, now: Time)
      requires Valid()
      modifies `sendCh, `accepted, `dropCount, `consecutiveDrops, `queueFullSince
      ensures Valid()
      ensures sendCh == Step(old(sendCh), capacity, DISPATCH_THRESHOLDS, Dispatch(Msg(ParsePriority(priority), data)))
      ensures sendCh == if |old(sendCh)| >= DispatchLimit(capacity, priority) then old(sendCh)
                        else old(sendCh) + [Msg(ParsePriority(priority), data)]
      ensures sendCh != old(sendCh) ==> consecutiveDrops == 0 && dropCount == old(dropCount) && queueFullSince == None
      ensures sendCh == old(sendCh) && (capacity == 0 || priority == "critical") ==>
        && dropCount == old(dropCount) + 1 && consecutiveDrops == old(consecutiveDrops) + 1
        && queueFullSince == if old(queueFullSince).None? then Some(now) else old(queueFullSince)
      ensures sendCh == old(sendCh) && capacity > 0 && priority != "critical" ==>
        dropCount == old(dropCount) && consecutiveDrops == old(consecutiveDrops) && queueFullSince == old(queueFullSince)
    {
      if capacity > 0 { DispatchedIff(sendCh, capacity, priority, data); }
      var p := ParsePriority(priority);
      ghost var m := Msg(p, data);
      if ShouldDrop(DISPATCH_THRESHOLDS, |sendCh|, capacity, p) { return; }
      var ok := Send(Msg(p, data), now);
      assert ok ==> sendCh == old(sendCh) + [m];
      assert old(sendCh) + [m] != old(sendCh);
    }

    /**
     * The distributor path: as above with configured ratios, and a dropped
     * message may close the connection as too slow.
     */
    method SendToConn(m: Msg, th: Thresholds, maxDrops: int, fullTimeout: Time, now: Time)
      requires Valid()
      modifies `sendCh, `accepted, `dropCount, `consecutiveDrops, `queueFullSince, `open
      ensures Valid()
      ensures sendCh == Step(old(sendCh), capacity, th, Dispatch(m))
      ensures capacity > 0 && Ordered(th) ==>
        sendCh == if |old(sendCh)| >= Limit(th, capacity, m.priority) then old(sendCh) else old(sendCh) + [m]
      ensures sendCh != old(sendCh) ==>
        open == old(open) && consecutiveDrops == 0 && dropCount == old(dropCount) && queueFullSince == None
      ensures sendCh == old(sendCh) ==>
        queueFullSince == if ShouldDrop(th, |old(sendCh)|, capacity, m.priority) || old(queueFullSince).Some?
                          then old(queueFullSince) else Some(now)
      ensures sendCh == old(sendCh) ==>
        && dropCount == old(dropCount) + 1 && consecutiveDrops == old(consecutiveDrops) + 1
        && (open <==> old(open) && consecutiveDrops < maxDrops
                      && !(queueFullSince.Some? && now - queueFullSince.value >= fullTimeout))
    {
      if capacity > 0 && Ordered(th) { DroppedIff(sendCh, capacity, th, m); }
      if ShouldDrop(th, |sendCh|, capacity, m.priority) {
        dropCount := dropCount + 1;
        consecutiveDrops := consecutiveDrops + 1;
        CheckAndCloseSlowConn(maxDrops, fullTimeout, now);
        return;
      }
      var ok := Send(m, now);
      if !ok {
        CheckAndCloseSlowConn(maxDrops, fullTimeout, now);
      } else {
        assert |sendCh| == |old(sendCh)| + 1;
      }
    }

    method CheckAndCloseSlowConn(maxDrops: int, fullTimeout: Time, now: Time)
      requires Valid()
      modifies `open
      ensures Valid()
      ensures open <==> old(open) && consecutiveDrops < maxDrops
                        && !(queueFullSince.Some? && now - queueFullSince.value >= fullTimeout)
    {
      if consecutiveDrops >= maxDrops {
        Close();
        return;
      }
      if queueFullSince.Some? {
        if now - queueFullSince.value >= fullTimeout {
          Close();
        }
      }
    }

    method Close()
      requires Valid()
      modifies `open
      ensures Valid() && !open
    {
      open := false;
    }

    /** Writes the batch with a deadline; false ends the write loop. */
    method FlushBatchWithTimeout(messages: seq<Msg>, outcome: Outcome, now: Time) returns (more: bool)
      requires open ==> consecutiveWriteTimeouts < Largest(1, maxConsecutiveWriteTimeouts)
      modifies `flushed, `outcomes, `open, `writeTimeoutCount, `consecutiveWriteTimeouts, `lastWriteTime
      ensures open ==> consecutiveWriteTimeouts < Largest(1, maxConsecutiveWriteTimeouts)
      ensures flushed == if messages == [] then old(flushed) else old(flushed) + [messages]
      ensures outcomes == if messages == [] then old(outcomes) else old(outcomes) + [outcome]
      ensures more <==> messages == [] || outcome == Written
                        || (outcome == TimedOut && old(consecutiveWriteTimeouts) + 1 < maxConsecutiveWriteTimeouts)
      ensures open <==> old(open) && more
      ensures consecutiveWriteTimeouts ==
        if messages == [] || outcome == Failed then old(consecutiveWriteTimeouts)
        else if outcome == TimedOut then old(consecutiveWriteTimeouts) + 1
        else 0
      ensures writeTimeoutCount == old(writeTimeoutCount) + (if messages != [] && outcome == TimedOut then 1 else 0)
      ensures lastWriteTime == if messages != [] && outcome == Written then Some(now) else old(lastWriteTime)
    {
      if |messages| == 0 { return true; }
      flushed, outcomes := flushed + [messages], outcomes + [outcome];
      match outcome
      case TimedOut =>
        writeTimeoutCount := writeTimeoutCount + 1;
        consecutiveWriteTimeouts := consecutiveWriteTimeouts + 1;
        if consecutiveWriteTimeouts >= maxConsecutiveWriteTimeouts {
          open := false;
          return false;
        }
        return true;
      case Failed =>
        open := false;
        return false;
      case Written =>
        consecutiveWriteTimeouts := 0;
        lastWriteTime := Some(now);
        return true;
    }

    /** The write loop's receive arm: take one message, flush when the batch is full. */
    method OnMessage(outcome: Outcome, now: Time)
      requires Valid() && looping && sendCh != []
      modifies `sendCh, `batch, `looping, `flushed, `outcomes, `open, `writeTimeoutCount, `consecutiveWriteTimeouts, `lastWriteTime
      ensures Valid()
      ensures sendCh == old(sendCh)[1..]
      ensures |old(batch)| + 1 < batchMaxSize ==> batch == old(batch) + [old(sendCh)[0]]
      ensures |old(batch)| + 1 < batchMaxSize ==> flushed == old(flushed) && outcomes == old(outcomes)
      ensures |old(batch)| + 1 >= batchMaxSize ==> outcomes == old(outcomes) + [outcome]
      ensures consecutiveWriteTimeouts == if |old(batch)| + 1 < batchMaxSize then old(consecutiveWriteTimeouts)
                                          else NextTimeouts(old(consecutiveWriteTimeouts), outcome)
      ensures writeTimeoutCount == old(writeTimeoutCount)
                                   + (if |old(batch)| + 1 >= batchMaxSize && outcome == TimedOut then 1 else 0)
      ensures lastWriteTime == if |old(batch)| + 1 >= batchMaxSize && outcome == Written then Some(now) else old(lastWriteTime)
      ensures open <==> old(open) && looping
      ensures |old(batch)| + 1 >= batchMaxSize ==> flushed == old(flushed) + [old(batch) + [old(sendCh)[0]]] && batch == []
      ensures looping <==> (|old(batch)| + 1 < batchMaxSize || outcome == Written
                || (outcome == TimedOut && old(consecutiveWriteTimeouts) + 1 < maxConsecutiveWriteTimeouts))
    {
      TakeMoves(Flatten(flushed), batch, sendCh);
      TakeAndFlushMove(flushed, batch, sendCh);
      var m := sendCh[0];
      sendCh := sendCh[1..];
      batch := batch + [m];
      if |batch| >= batchMaxSize {
        looping := FlushBatchWithTimeout(batch, outcome, now);
        batch := [];
      }
    }

    /** The write loop's ticker arm: flush what there is. */
    method OnTick(outcome: Outcome, now: Time)
      requires Valid() && looping
      modifies `batch, `looping, `flushed, `outcomes, `open, `writeTimeoutCount, `consecutiveWriteTimeouts, `lastWriteTime
      ensures Valid() && batch == []
      ensures flushed == if old(batch) == [] then old(flushed) else old(flushed) + [old(batch)]
      ensures outcomes == if old(batch) == [] then old(outcomes) else old(outcomes) + [outcome]
      ensures consecutiveWriteTimeouts == if old(batch) == [] then old(consecutiveWriteTimeouts)
                                          else NextTimeouts(old(consecutiveWriteTimeouts), outcome)
      ensures writeTimeoutCount == old(writeTimeoutCount) + (if old(batch) != [] && outcome == TimedOut then 1 else 0)
      ensures lastWriteTime == if old(batch) != [] && outcome == Written then Some(now) else old(lastWriteTime)
      ensures open <==> old(open) && looping
      ensures looping <==> (old(batch) == [] || outcome == Written
                || (outcome == TimedOut && old(consecutiveWriteTimeouts) + 1 < maxConsecutiveWriteTimeouts))
    {
      if |batch| > 0 {
        FlushMoves(flushed, batch, sendCh);
        looping := FlushBatchWithTimeout(batch, outcome, now);
        batch := [];
      }
    }

    /**
     * The write loop's close arm: a last write on a socket that is being
     * closed, its outcome ignored; the loop ends with only the queue left.
     */
    method OnClosed(outcome: Outcome)
      requires Valid() && looping && !open
      modifies `batch, `looping, `flushed, `outcomes
      ensures Valid() && !looping
      ensures accepted == Flatten(flushed) + sendCh
      ensures flushed == if old(batch) == [] then old(flushed) else old(flushed) + [old(batch)]
      ensures outcomes == if old(batch) == [] then old(outcomes) else old(outcomes) + [outcome]
    {
      if |batch| > 0 {
        FlushMoves(flushed, batch, sendCh);
        flushed, outcomes := flushed + [batch], outcomes + [outcome];
        batch := [];
      }
      looping := false;
    }
  }
}
