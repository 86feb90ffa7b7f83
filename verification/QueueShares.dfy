/** Priority back-pressure: how much of a bounded send queue each priority class can hold. */
module QueueShares {
  import opened Frames

  datatype Priority = Critical | High | Normal | Low {
    function Level(): nat {
      match this
      case Critical => 0
      case High => 1
      case Normal => 2
      case Low => 3
    }
  }

  /** A queued message and the priority it was sent with; direct replies count as critical. */
  datatype Msg = Msg(priority: Priority, data: seq<Byte>)

  /** The queue ratios above which low, normal and high messages are dropped. */
  datatype Thresholds = Thresholds(warning: real, severe: real, critical: real)

  /** The ratios built into the Kafka dispatch path. */
  const DISPATCH_THRESHOLDS := Thresholds(0.50, 0.80, 0.95)

  function ParsePriority(name: string): Priority {
    if name == "critical" then Critical
    else if name == "high" then High
    else if name == "low" then Low
    else Normal
  }

  /** The drop decision.  With capacity 0 the usage is not a number and no comparison holds. */
  predicate ShouldDrop(th: Thresholds, len: nat, capacity: nat, p: Priority) {
    if capacity == 0 then false
    else
      var usage := len as real / capacity as real;
      if usage >= th.critical then p.Level() > Critical.Level()
      else if usage >= th.severe then p.Level() > High.Level()
      else if usage >= th.warning then p.Level() > Normal.Level()
      else false
  }

  /** A non-blocking send. */
  function Push(q: seq<Msg>, capacity: nat, m: Msg): seq<Msg> {
    if |q| < capacity then q + [m] else q
  }

  datatype Event = Dispatch(m: Msg) | Reply(data: seq<Byte>) | Take

  function Step(q: seq<Msg>, capacity: nat, th: Thresholds, e: Event): seq<Msg> {
    match e
    case Dispatch(m) => if ShouldDrop(th, |q|, capacity, m.priority) then q else Push(q, capacity, m)
    case Reply(data) => Push(q, capacity, Msg(Critical, data))
    case Take => if q == [] then q else q[1..]
  }

  function Run(capacity: nat, th: Thresholds, es: seq<Event>): seq<Msg> {
    if es == [] then [] else Step(Run(capacity, th, es[..|es| - 1]), capacity, th, es[|es| - 1])
  }

  /** How many queued messages are of level `k` or lower priority. */
  function AtLeast(q: seq<Msg>, k: nat): nat {
    if q == [] then 0 else AtLeast(q[..|q| - 1], k) + (if q[|q| - 1].priority.Level() >= k then 1 else 0)
  }

  function Ceil(x: real): int {
    -((-x).Floor)
  }

  /** The ratio at which messages of level `k` or lower priority are dropped. */
  function Ratio(th: Thresholds, k: nat): real
    requires 1 <= k <= 3
  {
    if k == 3 then th.warning else if k == 2 then th.severe else th.critical
  }

  /** The share of the queue that messages of level `k` or lower priority may use. */
  function Share(th: Thresholds, capacity: nat, k: nat): int
    requires 1 <= k <= 3
  {
    Ceil(Ratio(th, k) * capacity as real)
  }

  ghost predicate Ordered(th: Thresholds) {
    0.0 <= th.warning <= th.severe <= th.critical
  }

  /** Low at most ceil(warning * C), low and normal ceil(severe * C), all non-critical ceil(critical * C). */
  ghost predicate WithinShares(q: seq<Msg>, th: Thresholds, capacity: nat) {
    forall k :: 1 <= k <= 3 ==> AtLeast(q, k) <= Share(th, capacity, k)
  }

  lemma {:induction false} AtLeastBounded(q: seq<Msg>, k: nat)
    ensures AtLeast(q, k) <= |q|
    decreases |q|
  {
    if q != [] { AtLeastBounded(q[..|q| - 1], k); }
  }

  lemma {:induction false} AtLeastTail(q: seq<Msg>, k: nat)
    requires q != []
    ensures AtLeast(q[1..], k) <= AtLeast(q, k)
    decreases |q|
  {
    if |q| > 1 {
      AtLeastTail(q[..|q| - 1], k);
      assert q[1..][..|q| - 2] == q[..|q| - 1][1..];
    }
  }

  lemma AtLeastPush(q: seq<Msg>, m: Msg, k: nat)
    ensures AtLeast(q + [m], k) == AtLeast(q, k) + (if m.priority.Level() >= k then 1 else 0)
  {
  }

  /** A message that is not dropped still finds the queue below its class's share. */
  lemma AdmittedBelowShare(th: Thresholds, len: nat, capacity: nat, p: Priority, k: nat)
    requires capacity > 0 && Ordered(th) && !ShouldDrop(th, len, capacity, p) && 1 <= k <= p.Level()
    ensures len + 1 <= Share(th, capacity, k)
  {
  }

  lemma StepKeepsShares(q: seq<Msg>, capacity: nat, th: Thresholds, e: Event)
    requires capacity > 0 && Ordered(th) && WithinShares(q, th, capacity) && |q| <= capacity
    ensures WithinShares(Step(q, capacity, th, e), th, capacity) && |Step(q, capacity, th, e)| <= capacity
  {
    var q' := Step(q, capacity, th, e);
    forall k | 1 <= k <= 3 ensures AtLeast(q', k) <= Share(th, capacity, k) {
      match e
      case Dispatch(m) =>
        AtLeastPush(q, m, k);
        AtLeastBounded(q, k);
        if q' != q && k <= m.priority.Level() { AdmittedBelowShare(th, |q|, capacity, m.priority, k); }
      case Reply(data) => AtLeastPush(q, Msg(Critical, data), k);
      case Take => if q != [] { AtLeastTail(q, k); }
    }
  }

  /** The share bounds hold in every reachable state. */
  lemma {:induction false} RunKeepsShares(capacity: nat, th: Thresholds, es: seq<Event>)
    requires capacity > 0 && Ordered(th)
    ensures WithinShares(Run(capacity, th, es), th, capacity) && |Run(capacity, th, es)| <= capacity
    decreases |es|
  {
    if es == [] {
      forall k | 1 <= k <= 3 ensures 0 <= Share(th, capacity, k) {
        assert Ratio(th, k) * capacity as real >= 0.0;
      }
    } else {
      RunKeepsShares(capacity, th, es[..|es| - 1]);
      StepKeepsShares(Run(capacity, th, es[..|es| - 1]), capacity, th, es[|es| - 1]);
    }
  }

  /** On the dispatch path: low at most ceil(C/2), low and normal ceil(4C/5), non-critical ceil(19C/20). */
  lemma DispatchShares(capacity: nat, es: seq<Event>)
    requires capacity > 0
    ensures AtLeast(Run(capacity, DISPATCH_THRESHOLDS, es), Low.Level()) <= (capacity + 1) / 2
    ensures AtLeast(Run(capacity, DISPATCH_THRESHOLDS, es), Normal.Level()) <= (4 * capacity + 4) / 5
    ensures AtLeast(Run(capacity, DISPATCH_THRESHOLDS, es), High.Level()) <= (19 * capacity + 19) / 20
  {
    var q := Run(capacity, DISPATCH_THRESHOLDS, es);
    RunKeepsShares(capacity, DISPATCH_THRESHOLDS, es);
    assert AtLeast(q, 3) <= Share(DISPATCH_THRESHOLDS, capacity, 3);
    assert AtLeast(q, 2) <= Share(DISPATCH_THRESHOLDS, capacity, 2);
    assert AtLeast(q, 1) <= Share(DISPATCH_THRESHOLDS, capacity, 1);
    assert Ceil(0.50 * capacity as real) == (capacity + 1) / 2;
    assert Ceil(0.80 * capacity as real) == (4 * capacity + 4) / 5;
    assert Ceil(0.95 * capacity as real) == (19 * capacity + 19) / 20;
  }

  /** A critical message is refused only when at least floor(C/20) critical ones are queued already. */
  lemma CriticalRefusedOnlyByCritical(capacity: nat, es: seq<Event>, m: Msg)
    requires capacity > 0 && m.priority == Critical
    ensures Step(Run(capacity, DISPATCH_THRESHOLDS, es), capacity, DISPATCH_THRESHOLDS, Dispatch(m))
            == Run(capacity, DISPATCH_THRESHOLDS, es) ==>
      |Run(capacity, DISPATCH_THRESHOLDS, es)| - AtLeast(Run(capacity, DISPATCH_THRESHOLDS, es), High.Level())
      >= capacity / 20
  {
    var q := Run(capacity, DISPATCH_THRESHOLDS, es);
    DispatchShares(capacity, es);
    RunKeepsShares(capacity, DISPATCH_THRESHOLDS, es);
    assert |q + [m]| != |q|;
  }

  // ---------------------------------------------------------------- what is dropped

  /** From how many queued messages on a message is not queued any more. */
  function Limit(th: Thresholds, capacity: nat, p: Priority): int {
    if p == Critical || Share(th, capacity, p.Level()) > capacity then capacity else Share(th, capacity, p.Level())
  }

  lemma UsageReaches(ratio: real, len: nat, capacity: nat)
    requires capacity > 0
    ensures len as real / capacity as real >= ratio <==> len >= Ceil(ratio * capacity as real)
  {
    var usage, c := len as real / capacity as real, capacity as real;
    assert usage * c == len as real;
    if usage >= ratio { assert usage * c >= ratio * c; } else { assert usage * c < ratio * c; }
  }

  /** The ratios drop a message exactly when it is not critical and the queue has reached its class's share. */
  lemma ShouldDropIff(th: Thresholds, len: nat, capacity: nat, p: Priority)
    requires capacity > 0 && Ordered(th)
    ensures ShouldDrop(th, len, capacity, p) <==> p != Critical && len >= Share(th, capacity, p.Level())
  {
    if p != Critical {
      ByRatio(th, len, capacity, p);
      UsageReaches(Ratio(th, p.Level()), len, capacity);
    }
  }

  lemma ByRatio(th: Thresholds, len: nat, capacity: nat, p: Priority)
    requires capacity > 0 && Ordered(th) && p != Critical
    ensures ShouldDrop(th, len, capacity, p) <==> len as real / capacity as real >= Ratio(th, p.Level())
  {
  }

  /** A message is left out exactly when the queue has reached its class's share or is full; otherwise it is queued last. */
  lemma DroppedIff(q: seq<Msg>, capacity: nat, th: Thresholds, m: Msg)
    requires capacity > 0 && Ordered(th)
    ensures Step(q, capacity, th, Dispatch(m)) == if |q| >= Limit(th, capacity, m.priority) then q else q + [m]
  {
    ShouldDropIff(th, |q|, capacity, m.priority);
  }

  /** The same on the dispatch path, by the name of the priority; an unknown name counts as normal. */
  function DispatchLimit(capacity: nat, name: string): int {
    match name
    case "critical" => capacity
    case "high" => (19 * capacity + 19) / 20
    case "low" => (capacity + 1) / 2
    case _ => (4 * capacity + 4) / 5
  }

  lemma DispatchLimitIs(capacity: nat, name: string)
    requires capacity > 0
    ensures Limit(DISPATCH_THRESHOLDS, capacity, ParsePriority(name)) == DispatchLimit(capacity, name) <= capacity
  {
    assert Ceil(0.50 * capacity as real) == (capacity + 1) / 2;
    assert Ceil(0.80 * capacity as real) == (4 * capacity + 4) / 5;
    assert Ceil(0.95 * capacity as real) == (19 * capacity + 19) / 20;
  }

  lemma DispatchedIff(q: seq<Msg>, capacity: nat, name: string, data: seq<Byte>)
    requires capacity > 0
    ensures var m := Msg(ParsePriority(name), data);
      Step(q, capacity, DISPATCH_THRESHOLDS, Dispatch(m)) == if |q| >= DispatchLimit(capacity, name) then q else q + [m]
    ensures ShouldDrop(DISPATCH_THRESHOLDS, |q|, capacity, ParsePriority(name)) <==>
      name != "critical" && |q| >= DispatchLimit(capacity, name)
  {
    DroppedIff(q, capacity, DISPATCH_THRESHOLDS, Msg(ParsePriority(name), data));
    ShouldDropIff(DISPATCH_THRESHOLDS, |q|, capacity, ParsePriority(name));
    DispatchLimitIs(capacity, name);
  }

  /** A direct reply is queued last, as a critical message, unless the queue is full; it is never dropped by ratio. */
  lemma ReplyRefusedIff(q: seq<Msg>, capacity: nat, th: Thresholds, data: seq<Byte>)
    ensures Step(q, capacity, th, Reply(data)) == if |q| >= capacity then q else q + [Msg(Critical, data)]
  {
  }

  // ---------------------------------------------------------------- first in, first out

  /** The messages that the events of a run bring, as far as the queue grows by them, in order. */
  function Admitted(capacity: nat, th: Thresholds, es: seq<Event>): seq<Msg>
    decreases |es|
  {
    if es == [] then []
    else
      var front, e := es[..|es| - 1], es[|es| - 1];
      Admitted(capacity, th, front) +
      (if e.Take? || |Run(capacity, th, es)| == |Run(capacity, th, front)| then []
       else if e.Dispatch? then [e.m] else [Msg(Critical, e.data)])
  }

  /** The messages that the write loop has received, in order. */
  function Taken(capacity: nat, th: Thresholds, es: seq<Event>): seq<Msg>
    decreases |es|
  {
    if es == [] then []
    else
      var q := Run(capacity, th, es[..|es| - 1]);
      Taken(capacity, th, es[..|es| - 1]) + (if es[|es| - 1].Take? && q != [] then [q[0]] else [])
  }

  /** In every run what was taken and what is still queued is what was admitted, in order. */
  lemma {:induction false} TakenInOrder(capacity: nat, th: Thresholds, es: seq<Event>)
    ensures Taken(capacity, th, es) + Run(capacity, th, es) == Admitted(capacity, th, es)
    decreases |es|
  {
    if es != [] {
      TakenInOrder(capacity, th, es[..|es| - 1]);
      var q := Run(capacity, th, es[..|es| - 1]);
      if q != [] { assert q == [q[0]] + q[1..]; }
    }
  }
}
