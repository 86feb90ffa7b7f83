/**
 * The consistent hash ring.  The class keeps the sorted ring and the owner map;
 * `Ring` and the functions on it specify its operations.  Routing is stated by
 * clockwise distance on the circle of 32-bit hashes.
 */
module HashRing {
  type NodeId = string
  const CIRCLE := 0x1_0000_0000
  newtype Hash = h: int | 0 <= h < CIRCLE

  /** Go's zero string: what a missing owner reads as. */
  const NO_NODE: NodeId := ""

  datatype Ring = Ring(points: seq<Hash>, owners: map<Hash, NodeId>) {
    /** A Go map read: a missing key gives the zero value. */
    function Owner(h: Hash): NodeId {
      if h in owners then owners[h] else NO_NODE
    }
  }

  // ---------------------------------------------------------------- virtual nodes

  /** `strconv.Itoa` on a natural number. */
  function Itoa(n: nat): string {
    if n < 10 then [('0' as int + n) as char] else Itoa(n / 10) + [('0' as int + n % 10) as char]
  }

  function VirtualKey(n: NodeId, i: nat): string {
    n + "#" + Itoa(i)
  }

  function Points(hash: string -> Hash, n: NodeId, count: nat): seq<Hash> {
    seq(count, i requires 0 <= i < count => hash(VirtualKey(n, i)))
  }

  predicate IsDigit(c: char) {
    '0' <= c <= '9'
  }

  predicate AllDigits(s: string) {
    forall i :: 0 <= i < |s| ==> IsDigit(s[i])
  }

  /** The number that a string of decimal digits denotes. */
  function Atoi(s: string): nat
    requires AllDigits(s)
  {
    if s == "" then 0 else 10 * Atoi(s[..|s| - 1]) + (s[|s| - 1] as nat - '0' as nat)
  }

  /** The decimal form consists of digits and denotes the number, so different numbers have different forms. */
  lemma {:induction false} ItoaDenotes(n: nat)
    ensures Itoa(n) != "" && AllDigits(Itoa(n)) && Atoi(Itoa(n)) == n
  {
    if n < 10 {
      assert Itoa(n)[..0] == "";
    } else {
      ItoaDenotes(n / 10);
      assert Itoa(n)[..|Itoa(n)| - 1] == Itoa(n / 10);
    }
  }

  /** A key is the name, a '#', and digits: the name ends before the last '#'. */
  lemma KeyShape(n: NodeId, i: nat)
    ensures var key := VirtualKey(n, i);
      |key| > |n| + 1 && key[|n|] == '#' && forall k :: |n| < k < |key| ==> key[k] != '#'
  {
    ItoaDenotes(i);
    forall k | |n| < k < |VirtualKey(n, i)| ensures VirtualKey(n, i)[k] != '#' {
      assert IsDigit(Itoa(i)[k - |n| - 1]);
    }
  }

  /** So no two virtual nodes share a key. */
  lemma VirtualKeysDiffer(n: NodeId, i: nat, m: NodeId, j: nat)
    requires VirtualKey(n, i) == VirtualKey(m, j)
    ensures n == m && i == j
  {
    KeyShape(n, i);
    KeyShape(m, j);
    var key := VirtualKey(n, i);
    assert |n| == |m|;
    assert n == key[..|n|] && m == key[..|m|];
    ItoaDenotes(i);
    ItoaDenotes(j);
    assert Itoa(i) == key[|n| + 1..] && Itoa(j) == key[|m| + 1..];
  }

  // ---------------------------------------------------------------- sorting

  ghost predicate Sorted(q: seq<Hash>) {
    forall i, j :: 0 <= i < j < |q| ==> q[i] <= q[j]
  }

  function Insert(q: seq<Hash>, h: Hash): seq<Hash> {
    if q == [] then [h]
    else if h <= q[0] then [h] + q
    else [q[0]] + Insert(q[1..], h)
  }

  /** `sort.Slice` by `<`. */
  function Sort(q: seq<Hash>): seq<Hash> {
    if q == [] then [] else Insert(Sort(q[1..]), q[0])
  }

  lemma SortedCons(h: Hash, q: seq<Hash>)
    ensures Sorted([h] + q) <==> Sorted(q) && forall x :: x in q ==> h <= x
  {
    var hq := [h] + q;
    if Sorted(hq) {
      forall i, j | 0 <= i < j < |q| ensures q[i] <= q[j] { assert hq[i + 1] <= hq[j + 1]; }
      forall x | x in q ensures h <= x {
        var i :| 0 <= i < |q| && q[i] == x;
        assert hq[0] <= hq[i + 1];
      }
    } else if Sorted(q) && forall x :: x in q ==> h <= x {
      forall i, j | 0 <= i < j < |hq| ensures hq[i] <= hq[j] {
        assert hq[j] == q[j - 1] && q[j - 1] in q;
        assert i > 0 ==> hq[i] == q[i - 1];
      }
    }
  }

  lemma {:induction false} InsertKeeps(q: seq<Hash>, h: Hash)
    ensures multiset(Insert(q, h)) == multiset(q) + multiset{h}
    decreases |q|
  {
    if q != [] {
      assert q == [q[0]] + q[1..];
      InsertKeeps(q[1..], h);
    }
  }

  lemma {:induction false} InsertSorts(q: seq<Hash>, h: Hash)
    requires Sorted(q)
    ensures Sorted(Insert(q, h))
    decreases |q|
  {
    if q != [] {
      var x, rest := q[0], q[1..];
      assert q == [x] + rest;
      SortedCons(x, rest);
      if h > x {
        InsertSorts(rest, h);
        InsertKeeps(rest, h);
        forall y | y in Insert(rest, h) ensures x <= y {
          assert y in multiset(Insert(rest, h));
        }
        SortedCons(x, Insert(rest, h));
      } else {
        SortedCons(h, q);
      }
    }
  }

  /** Sorting gives a sorted permutation. */
  lemma {:induction false} SortSorts(q: seq<Hash>)
    ensures Sorted(Sort(q)) && multiset(Sort(q)) == multiset(q)
    decreases |q|
  {
    if q != [] {
      assert q == [q[0]] + q[1..];
      SortSorts(q[1..]);
      InsertSorts(Sort(q[1..]), q[0]);
      InsertKeeps(Sort(q[1..]), q[0]);
    }
  }

  lemma HeadIsLeast(a: seq<Hash>, h: Hash)
    requires Sorted(a) && h in multiset(a)
    ensures a != [] && a[0] <= h
  {
  }

  lemma Uncons(a: seq<Hash>)
    requires a != [] && Sorted(a)
    ensures a == [a[0]] + a[1..] && Sorted(a[1..])
    ensures a[0] in multiset(a) && multiset(a[1..]) == multiset(a) - multiset{a[0]}
  {
  }

  lemma EmptyUnique(a: seq<Hash>)
    requires multiset(a) == multiset{}
    ensures a == []
  {
    assert |multiset(a)| == |a|;
  }

  lemma {:induction false} SortedUnique(a: seq<Hash>, b: seq<Hash>)
    requires Sorted(a) && Sorted(b) && multiset(a) == multiset(b)
    ensures a == b
    decreases |a|
  {
    if a == [] {
      EmptyUnique(b);
    } else {
      HeadsAgree(a, b);
      SortedUnique(a[1..], b[1..]);
      assert a == [a[0]] + a[1..] && b == [b[0]] + b[1..];
    }
  }

  lemma HeadsAgree(a: seq<Hash>, b: seq<Hash>)
    requires a != [] && Sorted(a) && Sorted(b) && multiset(a) == multiset(b)
    ensures b != [] && a[0] == b[0] && Sorted(a[1..]) && Sorted(b[1..]) && multiset(a[1..]) == multiset(b[1..])
  {
    Uncons(a);
    HeadIsLeast(b, a[0]);
    Uncons(b);
    HeadIsLeast(a, b[0]);
  }

  // ---------------------------------------------------------------- specification of the operations

  function Own(owners: map<Hash, NodeId>, points: seq<Hash>, n: NodeId): map<Hash, NodeId> {
    map h | h in owners.Keys + (set p | p in points) :: if h in points then n else owners[h]
  }

  function Add(r: Ring, points: seq<Hash>, n: NodeId): Ring {
    Ring(Sort(r.points + points), Own(r.owners, points, n))
  }

  /** The removal loop over the points from index `i`: a removed owner entry is gone for later equal points. */
  function Strip(r: Ring, n: NodeId): Ring
    decreases |r.points|
  {
    if r.points == [] then r
    else
      var h, rest := r.points[0], r.points[1..];
      if r.Owner(h) != n then
        var tail := Strip(Ring(rest, r.owners), n);
        Ring([h] + tail.points, tail.owners)
      else
        Strip(Ring(rest, r.owners - {h}), n)
  }

  // ---------------------------------------------------------------- routing

  /** How far `p` lies clockwise of `h`. */
  function Distance(h: Hash, p: Hash): nat {
    if h <= p then p as int - h as int else CIRCLE - h as int + p as int
  }

  /** `p` is the first ring point clockwise of `h`, going round past the largest. */
  ghost predicate First(points: seq<Hash>, h: Hash, p: Hash) {
    p in points && forall q :: q in points ==> Distance(h, p) <= Distance(h, q)
  }

  /** The node that a hash is routed to. */
  ghost predicate RoutesTo(r: Ring, h: Hash, n: NodeId) {
    if r.points == [] then n == NO_NODE
    else exists p :: First(r.points, h, p) && r.Owner(p) == n
  }

  /** Routing is a function of the ring. */
  lemma RouteIsUnique(r: Ring, h: Hash, n: NodeId, m: NodeId)
    requires RoutesTo(r, h, n) && RoutesTo(r, h, m)
    ensures n == m
  {
  }

  /** That is the least point not below the hash or, if there is none, the least of all. */
  lemma FirstIff(points: seq<Hash>, h: Hash, p: Hash)
    ensures First(points, h, p) <==>
      && p in points
      && if exists q :: q in points && h <= q then h <= p && forall q :: q in points && h <= q ==> p <= q
         else forall q :: q in points ==> p <= q
  {
  }

  /** So a hash on a point is routed to that point's node. */
  lemma PointRoutesToItself(r: Ring, h: Hash, n: NodeId)
    requires h in r.points
    ensures RoutesTo(r, h, n) <==> n == r.Owner(h)
  {
    FirstIff(r.points, h, h);
    assert RoutesTo(r, h, r.Owner(h));
    if RoutesTo(r, h, n) { RouteIsUnique(r, h, n, r.Owner(h)); }
  }

  // ---------------------------------------------------------------- the ring

  class HashRing {
    const virtualNodes: nat
    const hash: string -> Hash
    var ring: seq<Hash>
    var nodes: map<Hash, NodeId>

    ghost predicate Valid()
      reads this
    {
      Sorted(ring)
    }

    ghost function Contents(): Ring
      reads this
    {
      Ring(ring, nodes)
    }

    constructor (virtualNodes: nat, hash: string -> Hash)
      ensures Valid() && Contents() == Ring([], map[])
      ensures this.virtualNodes == virtualNodes && this.hash == hash
    {
      this.virtualNodes, this.hash := virtualNodes, hash;
      ring, nodes := [], map[];
    }

    method AddNode(n: NodeId)
      requires Valid()
      modifies this
      ensures Valid()
      ensures Contents() == Add(old(Contents()), Points(hash, n, virtualNodes), n)
    {
      ghost var points := Points(hash, n, virtualNodes);
      for i := 0 to virtualNodes
        invariant ring == old(ring) + points[..i]
        invariant nodes == Own(old(nodes), points[..i], n)
      {
        var h := hash(VirtualKey(n, i));
        assert points[..i + 1] == points[..i] + [h];
        ring := ring + [h];
        nodes := nodes[h := n];
      }
      assert points[..virtualNodes] == points;
      SortSorts(ring);
      ring := Sort(ring);
    }

    /** Allocating the new ring with a negative capacity panics, and then nothing has changed. */
    method RemoveNode(n: NodeId) returns (panicked: bool)
      requires Valid()
      modifies this
      ensures Valid()
      ensures panicked <==> |old(ring)| < virtualNodes
      ensures Contents() == if panicked then old(Contents()) else Strip(old(Contents()), n)
    {
      if |ring| < virtualNodes { return true; }
      panicked := false;
      var newRing: seq<Hash> := [];
      ghost var whole := Strip(Contents(), n);
      assert ring[0..] == ring;
      for i := 0 to |ring|
        invariant ring == old(ring)
        invariant whole.points == newRing + Strip(Ring(ring[i..], nodes), n).points
        invariant whole.owners == Strip(Ring(ring[i..], nodes), n).owners
      {
        var h := ring[i];
        StripStep(ring, nodes, i, n);
        if (if h in nodes then nodes[h] else NO_NODE) != n {
          newRing := newRing + [h];
        } else {
          nodes := nodes - {h};
        }
      }
      assert newRing == whole.points;
      StripKeepsSorted(old(Contents()), n);
      ring := newRing;
    }

    /** `sort.Search` by halving, then the wrap to the first point. */
    method GetNode(key: string) returns (n: NodeId)
      requires Valid()
      ensures RoutesTo(Contents(), hash(key), n)
    {
      if |ring| == 0 { return NO_NODE; }
      var h := hash(key);
      var i, j := 0, |ring|;
      while i < j
        invariant 0 <= i <= j <= |ring|
        invariant forall k :: 0 <= k < i ==> ring[k] < h
        invariant forall k :: j <= k < |ring| ==> h <= ring[k]
      {
        var mid := (i + j) / 2;
        if ring[mid] < h { i := mid + 1; } else { j := mid; }
      }
      if i >= |ring| { i := 0; }
      n := if ring[i] in nodes then nodes[ring[i]] else NO_NODE;
      assert First(ring, h, ring[i]);
      assert Contents().Owner(ring[i]) == n;
    }

    method IsLocalNode(key: string, local: NodeId) returns (b: bool)
      requires Valid()
      ensures b <==> RoutesTo(Contents(), hash(key), local)
    {
      var n := GetNode(key);
      b := n == local;
      if RoutesTo(Contents(), hash(key), local) { RouteIsUnique(Contents(), hash(key), n, local); }
    }
  }

  lemma StripStep(q: seq<Hash>, owners: map<Hash, NodeId>, i: nat, n: NodeId)
    requires i < |q|
    ensures var now := Strip(Ring(q[i..], owners), n);
      if Ring(q, owners).Owner(q[i]) != n
      then now.points == [q[i]] + Strip(Ring(q[i + 1..], owners), n).points
           && now.owners == Strip(Ring(q[i + 1..], owners), n).owners
      else now == Strip(Ring(q[i + 1..], owners - {q[i]}), n)
  {
  }

  lemma {:induction false} StripKeepsSorted(r: Ring, n: NodeId)
    ensures Sorted(r.points) ==> Sorted(Strip(r, n).points)
    ensures forall p :: p in Strip(r, n).points ==> p in r.points
    decreases |r.points|
  {
    if r.points != [] {
      var h, rest := r.points[0], r.points[1..];
      assert r.points == [h] + rest;
      SortedCons(h, rest);
      StripKeepsSorted(Ring(rest, r.owners), n);
      StripKeepsSorted(Ring(rest, r.owners - {h}), n);
      SortedCons(h, Strip(Ring(rest, r.owners), n).points);
    }
  }
}
