/** Identifiers shared by the Gateway and the Roomserver, and Go's iteration over a map. */
module Ids {
  type UserId = string
  type RoomId = string
  type GatewayId = string

  /** A clock reading.  `ZERO_TIME` is Go's zero `time.Time`. */
  type Time = int
  const ZERO_TIME: Time := 0

  /** The room ID that the code reads as "no room". */
  const NO_ROOM: RoomId := ""

  datatype Option<+T> = None | Some(value: T)

  /** `protocol.MemberStatus` */
  datatype MemberStatus = Online | Disconnected

  /** A user and the room it is in, as carried by a resync batch. */
  datatype UserRoomPair = UserRoomPair(userId: UserId, roomId: RoomId)

  // ---------------------------------------------------------------- groups

  /** A map of sets that has no entry for an empty set: Gateway views of a room, rooms of a Gateway. */
  type Groups<K, V> = map<K, set<V>>

  /** The rooms of a Gateway and the users it holds in them. */
  type LocalRooms = Groups<RoomId, UserId>

  predicate InGroup<K, V(==)>(groups: Groups<K, V>, k: K, v: V) {
    k in groups && v in groups[k]
  }

  function GroupAdd<K, V>(groups: Groups<K, V>, k: K, v: V): Groups<K, V> {
    groups[k := (if k in groups then groups[k] else {}) + {v}]
  }

  /** Removing the last element of a group removes the group. */
  function GroupDrop<K, V(==)>(groups: Groups<K, V>, k: K, v: V): Groups<K, V> {
    if k !in groups then groups
    else if groups[k] <= {v} then groups - {k}
    else groups[k := groups[k] - {v}]
  }

  lemma GroupAddMembers<K(!new), V(!new)>(groups: Groups<K, V>, k: K, v: V)
    ensures forall k', v' :: InGroup(GroupAdd(groups, k, v), k', v') <==> InGroup(groups, k', v') || (k' == k && v' == v)
  {
  }

  lemma GroupDropMembers<K(!new), V(!new)>(groups: Groups<K, V>, k: K, v: V)
    ensures forall k', v' :: InGroup(GroupDrop(groups, k, v), k', v') <==> InGroup(groups, k', v') && !(k' == k && v' == v)
  {
  }

  ghost predicate NoEmptyGroup<K(!new), V>(groups: Groups<K, V>) {
    forall k :: k in groups ==> groups[k] != {}
  }

  /** Adds to a group, creating it when it is missing. */
  method AddToGroup<K(==), V(==)>(groups: Groups<K, V>, k: K, v: V) returns (after: Groups<K, V>)
    ensures after == GroupAdd(groups, k, v)
  {
    after := groups;
    if k !in after {
      after := after[k := {}];
    }
    after := after[k := after[k] + {v}];
  }

  /** Removes from a group, and the group itself when it becomes empty. */
  method DropFromGroup<K(==), V(==)>(groups: Groups<K, V>, k: K, v: V) returns (after: Groups<K, V>)
    ensures after == GroupDrop(groups, k, v)
  {
    if k !in groups { return groups; }
    var group := groups[k] - {v};
    after := if |group| == 0 then groups - {k} else groups[k := group];
  }

  // ---------------------------------------------------------------- sequences and iteration

  ghost predicate NoRepeats<T>(q: seq<T>) {
    forall i, j :: 0 <= i < j < |q| ==> q[i] != q[j]
  }

  /** `q` lists every element of `s` exactly once: one possible order of a Go `range` over a map. */
  ghost predicate Enumerates<T(!new)>(q: seq<T>, s: set<T>) {
    NoRepeats(q) && forall x :: x in q <==> x in s
  }

  /** Go's `for k := range m`: every key once, in an order the caller cannot rely on. */
  method Range<T(==, !new)>(s: set<T>) returns (q: seq<T>)
    ensures Enumerates(q, s)
  {
    q := [];
    var rest := s;
    while rest != {}
      invariant rest <= s
      invariant Enumerates(q, s - rest)
      decreases rest
    {
      var x :| x in rest;
      q, rest := q + [x], rest - {x};
    }
  }

  lemma EnumeratesConcat<T(!new)>(q: seq<T>, s: set<T>, q': seq<T>, s': set<T>)
    requires Enumerates(q, s) && Enumerates(q', s') && s !! s'
    ensures Enumerates(q + q', s + s')
  {
    var both := q + q';
    forall i, j | 0 <= i < j < |both| ensures both[i] != both[j] {
      if i < |q| <= j {
        assert q[i] in s && q'[j - |q|] in s';
      }
    }
    assert forall x :: x in both <==> x in q || x in q';
  }

  lemma {:induction false} EnumerationLength<T(!new)>(q: seq<T>, s: set<T>)
    requires Enumerates(q, s)
    ensures |q| == |s|
    decreases |q|
  {
    if q == [] {
      assert forall x :: x !in s;
    } else {
      var last := q[|q| - 1];
      var front := q[..|q| - 1];
      assert q == front + [last];
      forall x ensures x in front <==> x in s - {last} {
        if x in front { assert x in q; }
        if x in s - {last} { assert x in q; }
      }
      EnumerationLength(front, s - {last});
    }
  }

  /** The elements of a sequence of sequences, in order. */
  function Flatten<T>(batches: seq<seq<T>>): seq<T> {
    if batches == [] then [] else Flatten(batches[..|batches| - 1]) + batches[|batches| - 1]
  }

  lemma FlattenSnoc<T>(batches: seq<seq<T>>, batch: seq<T>)
    ensures Flatten(batches + [batch]) == Flatten(batches) + batch
  {
  }

  lemma {:induction false} FlattenCons<T>(batch: seq<T>, batches: seq<seq<T>>)
    ensures Flatten([batch] + batches) == batch + Flatten(batches)
    decreases |batches|
  {
    if batches == [] {
      FlattenSnoc([], batch);
      assert [batch] + batches == [] + [batch];
    } else {
      var front, last := batches[..|batches| - 1], batches[|batches| - 1];
      FlattenCons(batch, front);
      assert [batch] + batches == ([batch] + front) + [last];
      FlattenSnoc([batch] + front, last);
    }
  }

  lemma {:induction false} FlattenMembers<T>(batches: seq<seq<T>>, x: T)
    ensures x in Flatten(batches) <==> exists i :: 0 <= i < |batches| && x in batches[i]
    decreases |batches|
  {
    if batches != [] {
      var front := batches[..|batches| - 1];
      FlattenMembers(front, x);
      if i :| 0 <= i < |batches| && x in batches[i] {
        if i < |front| { assert front[i] == batches[i]; }
      }
      if i :| 0 <= i < |front| && x in front[i] {
        assert batches[i] == front[i];
      }
    }
  }
}
